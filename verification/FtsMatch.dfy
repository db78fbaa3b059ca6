/**
 * The MATCH expression of a query (internal/core/search/query_builder.go:111-160),
 * read back by the full-text grammar of SQLite FTS5: quoted strings with doubled
 * quotes, parentheses, NOT binding tighter than OR, and adjacent strings meaning
 * all of them.
 */
module FtsMatch {

  import opened Basics
  import opened SearchTokens
  import opened SearchQuery

  // ----- building

  function Doubled(s: string): string {
    if s == [] then [] else (if s[0] == QUOTE then [QUOTE, QUOTE] else [s[0]]) + Doubled(s[1..])
  }

  function FtsQuote(s: string): string { [QUOTE] + Doubled(s) + [QUOTE] }

  function Quoted(parts: seq<string>): (qs: seq<string>)
    ensures |qs| == |parts|
  {
    if parts == [] then [] else [FtsQuote(parts[0])] + Quoted(parts[1..])
  }

  const OR_SEP: string := [' ', 'O', 'R', ' ']
  const NOT_SEP: string := [')', ' ', 'N', 'O', 'T', ' ', '(']

  /** The terms and phrases a query asks for. */
  function Wanted(q: Query): seq<string> { Fields(q.text) + q.phrases }

  function MatchText(wanted: seq<string>, excluded: seq<string>): string {
    if excluded == [] then Join(Quoted(wanted), [' '])
    else ['('] + Join(Quoted(wanted), [' ']) + NOT_SEP + Join(Quoted(excluded), OR_SEP) + [')']
  }

  method BuildMatch(q: Query) returns (text: Option<string>)
    ensures text == if Wanted(q) == [] then None else Some(MatchText(Wanted(q), q.excluded))
  {
    var parts: seq<string> := [];
    if q.text != [] {
      var terms := Fields(q.text);
      var i := 0;
      while i < |terms|
        invariant 0 <= i <= |terms| && parts == Quoted(terms[..i])
      {
        QuotedAdds(terms, i);
        parts := parts + [FtsQuote(terms[i])];
        i := i + 1;
      }
      assert terms[..|terms|] == terms;
    }
    assert parts == Quoted(Fields(q.text));
    var i := 0;
    while i < |q.phrases|
      invariant 0 <= i <= |q.phrases| && parts == Quoted(Fields(q.text)) + Quoted(q.phrases[..i])
    {
      QuotedAdds(q.phrases, i);
      parts := parts + [FtsQuote(q.phrases[i])];
      i := i + 1;
    }
    assert q.phrases[..|q.phrases|] == q.phrases;
    QuotedJoin(Fields(q.text), q.phrases);
    if |parts| == 0 { return None; }
    var positive := Join(parts, [' ']);
    if |q.excluded| == 0 { return Some(positive); }
    var excluded: seq<string> := [];
    i := 0;
    while i < |q.excluded|
      invariant 0 <= i <= |q.excluded| && excluded == Quoted(q.excluded[..i])
    {
      QuotedAdds(q.excluded, i);
      excluded := excluded + [FtsQuote(q.excluded[i])];
      i := i + 1;
    }
    assert q.excluded[..|q.excluded|] == q.excluded;
    text := Some(['('] + positive + NOT_SEP + Join(excluded, OR_SEP) + [')']);
  }

  lemma {:induction false} QuotedJoin(a: seq<string>, b: seq<string>)
    ensures Quoted(a + b) == Quoted(a) + Quoted(b)
    decreases |a|
  {
    if a == [] {
      assert a + b == b;
    } else {
      assert (a + b)[1..] == a[1..] + b;
      QuotedJoin(a[1..], b);
    }
  }

  lemma QuotedAdds(s: seq<string>, i: nat)
    requires i < |s|
    ensures Quoted(s[..i + 1]) == Quoted(s[..i]) + [FtsQuote(s[i])]
  {
    assert s[..i + 1] == s[..i] + [s[i]];
    QuotedJoin(s[..i], [s[i]]);
  }

  // ----- lexing

  datatype Lexeme = Str(s: string) | Open | Close | Or | Not

  /** A quoted string up to its end: its content, and what follows it. */
  datatype Read = Unended | Content(s: string, rest: string)

  function ReadQuoted(s: string): Read {
    if s == [] then Unended
    else if s[0] == QUOTE && |s| > 1 && s[1] == QUOTE then
      (match ReadQuoted(s[2..]) case Unended => Unended case Content(c, rest) => Content([QUOTE] + c, rest))
    else if s[0] == QUOTE then Content([], s[1..])
    else (match ReadQuoted(s[1..]) case Unended => Unended case Content(c, rest) => Content([s[0]] + c, rest))
  }

  lemma {:induction false} ReadShorter(s: string)
    ensures ReadQuoted(s).Content? ==> |ReadQuoted(s).rest| < |s|
    decreases |s|
  {
    if |s| > 1 && s[0] == QUOTE && s[1] == QUOTE { ReadShorter(s[2..]); } else if s != [] { ReadShorter(s[1..]); }
  }

  predicate IsLetter(c: char) { 'A' <= c <= 'Z' || 'a' <= c <= 'z' }

  function WordLength(s: string): (n: nat)
    ensures n <= |s|
  {
    if s == [] || !IsLetter(s[0]) then 0 else 1 + WordLength(s[1..])
  }

  /** The lexemes of an expression; None for anything the expressions built here do not use. */
  function Lex(s: string): Option<seq<Lexeme>>
    decreases |s|
  {
    if s == [] then Some([])
    else if s[0] == ' ' then Lex(s[1..])
    else if s[0] == '(' then Before(Open, Lex(s[1..]))
    else if s[0] == ')' then Before(Close, Lex(s[1..]))
    else if s[0] == QUOTE then
      ReadShorter(s[1..]);
      (match ReadQuoted(s[1..]) case Unended => None case Content(c, rest) => Before(Str(c), Lex(rest)))
    else
      var n := WordLength(s);
      if n == 0 then None
      else if s[..n] == ['O', 'R'] then Before(Or, Lex(s[n..]))
      else if s[..n] == ['N', 'O', 'T'] then Before(Not, Lex(s[n..]))
      else None
  }

  function Before(x: Lexeme, rest: Option<seq<Lexeme>>): Option<seq<Lexeme>> {
    match rest case None => None case Some(xs) => Some([x] + xs)
  }

  lemma {:induction false} ReadDoubled(t: string, rest: string)
    requires rest == [] || rest[0] != QUOTE
    ensures ReadQuoted(Doubled(t) + [QUOTE] + rest) == Content(t, rest)
    decreases |t|
  {
    var s := Doubled(t) + [QUOTE] + rest;
    if t == [] {
      assert s == [QUOTE] + rest;
    } else {
      var c := if t[0] == QUOTE then [QUOTE, QUOTE] else [t[0]];
      var tail := Doubled(t[1..]) + [QUOTE] + rest;
      assert s == c + tail && s[|c|..] == tail;
      ReadDoubled(t[1..], rest);
      assert [t[0]] + t[1..] == t;
    }
  }

  /** One quoted term is one string, whatever is in it. */
  lemma LexQuote(t: string, rest: string)
    requires rest == [] || rest[0] != QUOTE
    ensures Lex(FtsQuote(t) + rest) == Before(Str(t), Lex(rest))
  {
    hide Doubled, ReadQuoted;
    var s := FtsQuote(t) + rest;
    assert s[0] == QUOTE && s[1..] == Doubled(t) + [QUOTE] + rest;
    ReadDoubled(t, rest);
  }

  function Strings(ts: seq<string>): seq<Lexeme> {
    if ts == [] then [] else [Str(ts[0])] + Strings(ts[1..])
  }

  function Alternatives(ts: seq<string>): seq<Lexeme> {
    if ts == [] then [] else if |ts| == 1 then [Str(ts[0])] else [Str(ts[0]), Or] + Alternatives(ts[1..])
  }

  lemma BeforeFollowing(x: Lexeme, xs: seq<Lexeme>, rest: Option<seq<Lexeme>>)
    ensures Before(x, Following(xs, rest)) == Following([x] + xs, rest)
  {
    if rest.Some? { assert [x] + (xs + rest.value) == ([x] + xs) + rest.value; }
  }

  /** Terms joined by a space come back as their strings, in order. */
  lemma {:induction false} LexWanted(ts: seq<string>, rest: string)
    requires rest == [] || rest[0] != QUOTE
    ensures Lex(Join(Quoted(ts), [' ']) + rest) == Following(Strings(ts), Lex(rest))
    decreases |ts|
  {
    hide Doubled, Lex, FtsQuote;
    if ts == [] {
      assert Join(Quoted(ts), [' ']) + rest == rest;
      FollowingNone(Lex(rest));
    } else if |ts| == 1 {
      assert ts[1..] == [] && Join(Quoted(ts), [' ']) == FtsQuote(ts[0]);
      assert Strings(ts) == [Str(ts[0])];
      LexQuote(ts[0], rest);
    } else {
      var tail := Join(Quoted(ts[1..]), [' ']) + rest;
      assert Join(Quoted(ts), [' ']) + rest == FtsQuote(ts[0]) + ([' '] + tail);
      LexQuote(ts[0], [' '] + tail);
      LexChar(' ', tail);
      LexWanted(ts[1..], rest);
      BeforeFollowing(Str(ts[0]), Strings(ts[1..]), Lex(rest));
    }
  }

  /** Exclusions joined by OR come back as alternatives. */
  lemma {:induction false} LexExcluded(ts: seq<string>, rest: string)
    requires rest == [] || rest[0] != QUOTE
    ensures Lex(Join(Quoted(ts), OR_SEP) + rest) == Following(Alternatives(ts), Lex(rest))
    decreases |ts|
  {
    hide Doubled, Lex, FtsQuote;
    if ts == [] {
      assert Join(Quoted(ts), OR_SEP) + rest == rest;
      FollowingNone(Lex(rest));
    } else if |ts| == 1 {
      assert ts[1..] == [] && Join(Quoted(ts), OR_SEP) == FtsQuote(ts[0]);
      LexQuote(ts[0], rest);
    } else {
      var tail := Join(Quoted(ts[1..]), OR_SEP) + rest;
      assert Join(Quoted(ts), OR_SEP) + rest == FtsQuote(ts[0]) + (OR_SEP + tail);
      LexQuote(ts[0], OR_SEP + tail);
      LexOr(tail);
      LexExcluded(ts[1..], rest);
      BeforeFollowing(Or, Alternatives(ts[1..]), Lex(rest));
      BeforeFollowing(Str(ts[0]), [Or] + Alternatives(ts[1..]), Lex(rest));
      assert Alternatives(ts) == [Str(ts[0])] + ([Or] + Alternatives(ts[1..]));
    }
  }

  lemma {:induction false} WordIs(word: string, rest: string)
    requires (forall i :: 0 <= i < |word| ==> IsLetter(word[i])) && (rest == [] || !IsLetter(rest[0]))
    ensures WordLength(word + rest) == |word|
    decreases |word|
  {
    if word == [] {
      assert word + rest == rest;
    } else {
      assert (word + rest)[1..] == word[1..] + rest;
      WordIs(word[1..], rest);
    }
  }

  /** An operator word is one lexeme. */
  lemma LexWord(word: string, x: Lexeme, rest: string)
    requires (word == ['O', 'R'] && x == Or) || (word == ['N', 'O', 'T'] && x == Not)
    requires rest != [] && rest[0] == ' '
    ensures Lex(word + rest) == Before(x, Lex(rest))
  {
    var s := word + rest;
    WordIs(word, rest);
    assert s[0] == word[0] && s[..|word|] == word && s[|word|..] == rest;
  }

  lemma LexChar(c: char, rest: string)
    requires c == ' ' || c == '(' || c == ')'
    ensures Lex([c] + rest) == if c == ' ' then Lex(rest) else Before(if c == '(' then Open else Close, Lex(rest))
  {
    assert ([c] + rest)[1..] == rest;
  }

  lemma LexOr(tail: string)
    ensures Lex(OR_SEP + tail) == Before(Or, Lex(tail))
  {
    hide Lex;
    assert OR_SEP + tail == [' '] + (['O', 'R'] + ([' '] + tail));
    LexChar(' ', ['O', 'R'] + ([' '] + tail));
    LexWord(['O', 'R'], Or, [' '] + tail);
    LexChar(' ', tail);
  }

  lemma LexNot(tail: string)
    ensures Lex(NOT_SEP + tail) == Before(Close, Before(Not, Before(Open, Lex(tail))))
  {
    hide Lex;
    var inner := [' '] + (['('] + tail);
    assert NOT_SEP + tail == [')'] + ([' '] + (['N', 'O', 'T'] + inner));
    LexChar(')', [' '] + (['N', 'O', 'T'] + inner));
    LexChar(' ', ['N', 'O', 'T'] + inner);
    LexWord(['N', 'O', 'T'], Not, inner);
    LexChar(' ', ['('] + tail);
    LexChar('(', tail);
  }

  /** What the expression reads back as: exactly the quoted terms, grouped. */
  function Grouped(wanted: seq<string>, excluded: seq<string>): seq<Lexeme> {
    if excluded == [] then Strings(wanted)
    else [Open] + Strings(wanted) + [Close, Not, Open] + Alternatives(excluded) + [Close]
  }

  /** Whatever the user typed, the built expression lexes to the terms of the query and the operators around them. */
  lemma LexMatch(wanted: seq<string>, excluded: seq<string>)
    ensures Lex(MatchText(wanted, excluded)) == Some(Grouped(wanted, excluded))
  {
    hide Lex, Join, Quoted, Strings, Alternatives;
    if excluded == [] {
      LexWanted(wanted, []);
      LexNothing();
      assert Join(Quoted(wanted), [' ']) + [] == Join(Quoted(wanted), [' ']);
      assert Strings(wanted) + [] == Strings(wanted);
    } else {
      var second := NOT_SEP + (Join(Quoted(excluded), OR_SEP) + ([')'] + []));
      var first := Join(Quoted(wanted), [' ']) + second;
      assert MatchText(wanted, excluded) == ['('] + first;
      LexChar('(', first);
      LexWanted(wanted, second);
      LexExclusion(excluded);
      var tail := [Close] + ([Not] + ([Open] + (Alternatives(excluded) + [Close])));
      assert Lex(first) == Some(Strings(wanted) + tail);
      assert Grouped(wanted, excluded) == [Open] + (Strings(wanted) + tail);
    }
  }

  lemma LexExclusion(excluded: seq<string>)
    ensures Lex(NOT_SEP + (Join(Quoted(excluded), OR_SEP) + ([')'] + [])))
            == Some([Close] + ([Not] + ([Open] + (Alternatives(excluded) + [Close]))))
  {
    hide Lex, Join, Quoted, Alternatives;
    LexChar(')', []);
    LexNothing();
    assert [Close] + [] == [Close];
    LexExcluded(excluded, [')'] + []);
    LexNot(Join(Quoted(excluded), OR_SEP) + ([')'] + []));
  }

  lemma LexNothing()
    ensures Lex([]) == Some([])
  {
  }

  // ----- meaning

  datatype Expr = All(terms: seq<string>) | Either(l: Expr, r: Expr) | ButNot(l: Expr, r: Expr)

  datatype Parse = Fail | Parse(e: Expr, rest: seq<Lexeme>)

  /** The strings at the front. */
  function Run(xs: seq<Lexeme>): (n: nat)
    ensures n <= |xs|
  {
    if xs == [] || !xs[0].Str? then 0 else 1 + Run(xs[1..])
  }

  function Texts(xs: seq<Lexeme>): seq<string> {
    if xs == [] || !xs[0].Str? then [] else [xs[0].s] + Texts(xs[1..])
  }

  /** An expression: alternatives, each a difference, each a run of strings or a group. */
  function ParseOr(xs: seq<Lexeme>): (p: Parse)
    ensures p.Parse? ==> |p.rest| < |xs|
    decreases |xs|, 2
  {
    match ParseNot(xs)
    case Fail => Fail
    case Parse(l, rest) =>
      if rest == [] || rest[0] != Or then Parse(l, rest)
      else match ParseOr(rest[1..]) case Fail => Fail case Parse(r, rest2) => Parse(Either(l, r), rest2)
  }

  function ParseNot(xs: seq<Lexeme>): (p: Parse)
    ensures p.Parse? ==> |p.rest| < |xs|
    decreases |xs|, 1
  {
    match ParsePrimary(xs) case Fail => Fail case Parse(l, rest) => ParseNots(l, rest)
  }

  /** NOT associates to the left. */
  function ParseNots(l: Expr, xs: seq<Lexeme>): (p: Parse)
    ensures p.Parse? ==> |p.rest| <= |xs|
    decreases |xs|, 1
  {
    if xs == [] || xs[0] != Not then Parse(l, xs)
    else match ParsePrimary(xs[1..]) case Fail => Fail case Parse(r, rest) => ParseNots(ButNot(l, r), rest)
  }

  function ParsePrimary(xs: seq<Lexeme>): (p: Parse)
    ensures p.Parse? ==> |p.rest| < |xs|
    decreases |xs|, 0
  {
    if xs == [] then Fail
    else if xs[0].Str? then Parse(All(Texts(xs)), xs[Run(xs)..])
    else if xs[0] == Open then
      (match ParseOr(xs[1..])
       case Fail => Fail
       case Parse(e, rest) => if rest != [] && rest[0] == Close then Parse(e, rest[1..]) else Fail)
    else Fail
  }

  /** Whether a row matches, given which terms it holds. */
  predicate Matches(e: Expr, holds: string -> bool) {
    match e
    case All(terms) => forall i :: 0 <= i < |terms| ==> holds(terms[i])
    case Either(l, r) => Matches(l, holds) || Matches(r, holds)
    case ButNot(l, r) => Matches(l, holds) && !Matches(r, holds)
  }

  lemma {:induction false} StringsRun(ts: seq<string>, rest: seq<Lexeme>)
    requires rest == [] || !rest[0].Str?
    ensures Texts(Strings(ts) + rest) == ts && Run(Strings(ts) + rest) == |ts|
    ensures (Strings(ts) + rest)[|ts|..] == rest && |Strings(ts)| == |ts|
    decreases |ts|
  {
    if ts == [] {
      assert Strings(ts) + rest == rest;
    } else {
      assert (Strings(ts) + rest)[1..] == Strings(ts[1..]) + rest;
      StringsRun(ts[1..], rest);
      assert ts == [ts[0]] + ts[1..];
    }
  }

  function AnyOf(ts: seq<string>): Expr
    requires ts != []
  {
    if |ts| == 1 then All([ts[0]]) else Either(All([ts[0]]), AnyOf(ts[1..]))
  }

  /** One string followed by something else. */
  lemma ParseOne(t: string, tail: seq<Lexeme>)
    requires tail == [] || !tail[0].Str?
    ensures ParsePrimary([Str(t)] + tail) == Parse(All([t]), tail)
  {
    var xs := [Str(t)] + tail;
    assert xs[1..] == tail && Texts(tail) == [] && Run(tail) == 0;
    assert Texts(xs) == [t] && Run(xs) == 1;
  }

  /** A group, given what is inside it. */
  lemma ParseGroup(inner: seq<Lexeme>, e: Expr, rest: seq<Lexeme>)
    requires ParseOr(inner + ([Close] + rest)) == Parse(e, [Close] + rest)
    ensures ParsePrimary([Open] + (inner + ([Close] + rest))) == Parse(e, rest)
  {
    hide ParseOr;
    var xs := [Open] + (inner + ([Close] + rest));
    assert xs[1..] == inner + ([Close] + rest);
    assert ([Close] + rest)[1..] == rest;
  }

  /** A primary with no NOT after it. */
  lemma ParsePlain(xs: seq<Lexeme>, e: Expr, rest: seq<Lexeme>)
    requires ParsePrimary(xs) == Parse(e, rest) && (rest == [] || rest[0] != Not)
    ensures ParseNot(xs) == Parse(e, rest)
  {
    hide ParsePrimary;
  }

  lemma {:induction false} ParseAlternatives(ts: seq<string>, rest: seq<Lexeme>)
    requires ts != [] && (rest == [] || rest[0] == Close)
    ensures ParseOr(Alternatives(ts) + rest) == Parse(AnyOf(ts), rest)
    decreases |ts|
  {
    hide ParsePrimary, ParseNot;
    var tail := if |ts| == 1 then rest else [Or] + (Alternatives(ts[1..]) + rest);
    var xs := Alternatives(ts) + rest;
    assert xs == [Str(ts[0])] + tail;
    ParseOne(ts[0], tail);
    ParsePlain(xs, All([ts[0]]), tail);
    if |ts| > 1 {
      assert tail[1..] == Alternatives(ts[1..]) + rest;
      ParseAlternatives(ts[1..], rest);
    }
  }

  lemma {:induction false} AnyOfHolds(ts: seq<string>, holds: string -> bool)
    requires ts != []
    ensures Matches(AnyOf(ts), holds) <==> exists i :: 0 <= i < |ts| && holds(ts[i])
    decreases |ts|
  {
    assert [ts[0]][0] == ts[0];
    assert Matches(All([ts[0]]), holds) <==> holds(ts[0]);
    if |ts| > 1 {
      AnyOfHolds(ts[1..], holds);
      if i :| 0 <= i < |ts| && holds(ts[i]) {
        assert i > 0 ==> holds(ts[1..][i - 1]);
      }
      if i :| 0 <= i < |ts[1..]| && holds(ts[1..][i]) {
        assert holds(ts[i + 1]);
      }
    }
  }

  lemma ParseWanted(ts: seq<string>, rest: seq<Lexeme>)
    requires ts != [] && (rest == [] || rest[0] == Close)
    ensures ParseOr(Strings(ts) + rest) == Parse(All(ts), rest)
  {
    hide ParsePrimary, ParseNot;
    var xs := Strings(ts) + rest;
    assert ParsePrimary(xs) == Parse(All(ts), rest) by { ParseStrings(ts, rest); }
    ParsePlain(xs, All(ts), rest);
  }

  lemma ParseStrings(ts: seq<string>, rest: seq<Lexeme>)
    requires ts != [] && (rest == [] || !rest[0].Str?)
    ensures ParsePrimary(Strings(ts) + rest) == Parse(All(ts), rest)
  {
    StringsRun(ts, rest);
    assert (Strings(ts) + rest)[0] == Str(ts[0]);
  }

  /** A difference of two primaries that ends the expression. */
  lemma ParseDifference(xs: seq<Lexeme>, l: Expr, right: seq<Lexeme>, r: Expr)
    requires ParsePrimary(xs) == Parse(l, [Not] + right) && ParsePrimary(right) == Parse(r, [])
    ensures ParseOr(xs) == Parse(ButNot(l, r), [])
  {
    hide ParsePrimary;
    assert ([Not] + right)[1..] == right;
    assert ParseNots(ButNot(l, r), []) == Parse(ButNot(l, r), []);
    assert ParseNots(l, [Not] + right) == ParseNots(ButNot(l, r), []);
    assert ParseNot(xs) == Parse(ButNot(l, r), []);
  }

  /** The whole expression parses, to the terms minus the exclusions. */
  lemma ParseGrouped(wanted: seq<string>, excluded: seq<string>)
    requires wanted != []
    ensures ParseOr(Grouped(wanted, excluded))
            == Parse(if excluded == [] then All(wanted) else ButNot(All(wanted), AnyOf(excluded)), [])
  {
    hide ParseOr, ParsePrimary, Strings, Alternatives;
    if excluded == [] {
      ParseWanted(wanted, []);
      assert Strings(wanted) + [] == Strings(wanted);
    } else {
      var right := [Open] + (Alternatives(excluded) + ([Close] + []));
      ParseAlternatives(excluded, [Close] + []);
      ParseGroup(Alternatives(excluded), AnyOf(excluded), []);
      ParseWanted(wanted, [Close] + ([Not] + right));
      ParseGroup(Strings(wanted), All(wanted), [Not] + right);
      var xs := [Open] + (Strings(wanted) + ([Close] + ([Not] + right)));
      ParseDifference(xs, All(wanted), right, AnyOf(excluded));
      assert Grouped(wanted, excluded) == xs;
    }
  }

  lemma AllWanted(q: Query, holds: string -> bool)
    ensures (forall i :: 0 <= i < |Wanted(q)| ==> holds(Wanted(q)[i]))
            <==> (forall t :: t in Fields(q.text) ==> holds(t)) && (forall p :: p in q.phrases ==> holds(p))
    ensures (exists i :: 0 <= i < |q.excluded| && holds(q.excluded[i])) <==> exists e :: e in q.excluded && holds(e)
  {
    assert forall t :: t in Wanted(q) <==> t in Fields(q.text) || t in q.phrases;
    assert forall i :: 0 <= i < |Wanted(q)| ==> Wanted(q)[i] in Wanted(q);
  }

  /**
   * The built expression means: every term and phrase present, no exclusion
   * present, whatever characters they are made of.
   */
  lemma MatchMeans(q: Query, holds: string -> bool)
    requires Wanted(q) != []
    ensures var lexed := Lex(MatchText(Wanted(q), q.excluded));
            lexed.Some? && ParseOr(lexed.value).Parse? && ParseOr(lexed.value).rest == []
            && (Matches(ParseOr(lexed.value).e, holds) <==>
                  (forall t :: t in Fields(q.text) ==> holds(t)) && (forall p :: p in q.phrases ==> holds(p))
                  && !(exists e :: e in q.excluded && holds(e)))
  {
    AllWanted(q, holds);
    hide Lex, MatchText, Grouped, ParseOr, Wanted;
    LexMatch(Wanted(q), q.excluded);
    ParseGrouped(Wanted(q), q.excluded);
    if q.excluded != [] { AnyOfHolds(q.excluded, holds); }
  }
}
