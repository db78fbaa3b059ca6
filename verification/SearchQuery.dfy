/**
 * From tokens to a query (internal/core/search/parser.go:38-91, 162-236).
 */
module SearchQuery {

  import opened Basics
  import opened SearchTokens

  datatype Query = Query(text: string, phrases: seq<string>, from: seq<string>, inChats: seq<string>,
                         before: Option<int>, after: Option<int>, hasFile: bool, excluded: seq<string>)

  datatype Result = Ok(query: Query) | Unclosed(position: nat) | BadOperator | NoPositiveTerm

  const COLON: char := ':'

  /** The first colon, or the length. */
  function ColonAt(tok: string): (i: nat)
    ensures i <= |tok| && (i < |tok| ==> tok[i] == COLON) && COLON !in tok[..i]
  {
    if tok == [] then 0
    else if tok[0] == COLON then 0
    else
      assert tok[..1 + ColonAt(tok[1..])] == [tok[0]] + tok[1..][..ColonAt(tok[1..])];
      1 + ColonAt(tok[1..])
  }

  predicate Lower(s: string) { forall i :: 0 <= i < |s| ==> 'a' <= s[i] <= 'z' }

  /** key:value with a lowercase key and a value. */
  predicate IsOperator(tok: string) {
    var i := ColonAt(tok);
    0 < i < |tok| - 1 && Lower(tok[..i])
  }

  datatype Key = From | In | Before | After | Has | Unknown

  function KeyOf(key: string): Key {
    if key == "from" then From else if key == "in" then In else if key == "before" then Before
    else if key == "after" then After else if key == "has" then Has else Unknown
  }

  function TrimPrefix(s: string, c: char): string { if s != [] && s[0] == c then s[1..] else s }

  predicate IsExclusion(tok: string) { |tok| >= 2 && tok[0] == '-' }

  /** What one token is to the query. */
  datatype Role =
    | Nothing | Phrase(p: string) | Term(t: string) | Exclusion(e: string)
    | FromUser(name: string) | InChat(name: string) | BeforeDate(at: int) | AfterDate(at: int) | HasFile | Bad

  /** Dates are read by the library: a value is a moment, or none. */
  function OperatorRole(tok: string, dates: string -> Option<int>): Role
    requires IsOperator(tok)
  {
    var i := ColonAt(tok);
    var value := tok[i + 1..];
    match KeyOf(tok[..i])
    case From => if TrimPrefix(value, '@') == [] then Bad else FromUser(TrimPrefix(value, '@'))
    case In => if TrimPrefix(value, '#') == [] then Bad else InChat(TrimPrefix(value, '#'))
    case Before => (match dates(value) case None => Bad case Some(at) => BeforeDate(at))
    case After => (match dates(value) case None => Bad case Some(at) => AfterDate(at))
    case Has => if value == "file" then HasFile else Bad
    case Unknown => Term(tok)
  }

  function RoleOf(t: Token, dates: string -> Option<int>): Role {
    if t.quoted then (if t.value == [] then Nothing else Phrase(t.value))
    else if IsOperator(t.value) then OperatorRole(t.value, dates)
    else if IsExclusion(t.value) then Exclusion(t.value[1..])
    else if t.value == [] then Nothing
    else Term(t.value)
  }

  /** The query under construction, and its free-text terms. */
  datatype Reading = Reading(query: Query, terms: seq<string>)

  const NO_QUERY := Query([], [], [], [], None, None, false, [])

  function Played(x: Reading, role: Role): Reading {
    var q := x.query;
    match role
    case Phrase(p) => x.(query := q.(phrases := q.phrases + [p]))
    case Term(t) => x.(terms := x.terms + [t])
    case Exclusion(e) => x.(query := q.(excluded := q.excluded + [e]))
    case FromUser(name) => x.(query := q.(from := q.from + [name]))
    case InChat(name) => x.(query := q.(inChats := q.inChats + [name]))
    case BeforeDate(at) => x.(query := q.(before := Some(at)))
    case AfterDate(at) => x.(query := q.(after := Some(at)))
    case HasFile => x.(query := q.(hasFile := true))
    case _ => x
  }

  predicate AnyBad(tokens: seq<Token>, dates: string -> Option<int>) {
    exists i :: 0 <= i < |tokens| && RoleOf(tokens[i], dates) == Bad
  }

  function ReadAll(tokens: seq<Token>, dates: string -> Option<int>): Reading {
    if tokens == [] then Reading(NO_QUERY, [])
    else Played(ReadAll(tokens[..|tokens| - 1], dates), RoleOf(tokens[|tokens| - 1], dates))
  }

  function Join(parts: seq<string>, sep: string): string {
    if parts == [] then [] else if |parts| == 1 then parts[0] else parts[0] + sep + Join(parts[1..], sep)
  }

  function Finished(x: Reading): Result {
    var q := x.query.(text := Join(x.terms, " "));
    if q.text == [] && q.phrases == [] then NoPositiveTerm else Result.Ok(q)
  }

  function ParsedTokens(tokens: seq<Token>, dates: string -> Option<int>): Result {
    if AnyBad(tokens, dates) then BadOperator else Finished(ReadAll(tokens, dates))
  }

  function Parsed(input: string, dates: string -> Option<int>): Result {
    match Tokenized(input)
    case UnclosedQuote(position) => Unclosed(position)
    case Ok(tokens) => ParsedTokens(tokens, dates)
  }

  /** Records a known operator; an unknown key is left to the caller. */
  method ApplyOperator(q: Query, tok: string, dates: string -> Option<int>) returns (r: Query, handled: bool, ok: bool)
    requires IsOperator(tok)
    ensures var role := OperatorRole(tok, dates);
            handled == !role.Term? && ok == (role != Bad)
            && (handled && ok ==> Reading(r, []) == Played(Reading(q, []), role)) && (!handled ==> r == q)
  {
    var i := ColonAt(tok);
    var value := tok[i + 1..];
    r, handled, ok := q, true, true;
    match KeyOf(tok[..i]) {
      case From =>
        var name := TrimPrefix(value, '@');
        if name == [] { ok := false; } else { r := q.(from := q.from + [name]); }
      case In =>
        var name := TrimPrefix(value, '#');
        if name == [] { ok := false; } else { r := q.(inChats := q.inChats + [name]); }
      case Before =>
        var at := dates(value);
        if at.None? { ok := false; } else { r := q.(before := at); }
      case After =>
        var at := dates(value);
        if at.None? { ok := false; } else { r := q.(after := at); }
      case Has =>
        if value != "file" { ok := false; } else { r := q.(hasFile := true); }
      case Unknown => handled := false;
    }
  }

  method Parse(input: string, dates: string -> Option<int>) returns (r: Result)
    ensures r == Parsed(input, dates)
  {
    hide OperatorRole, IsOperator, ColonAt, Join, Tokenized, ReadAll;
    var t := Tokenize(input);
    if t.UnclosedQuote? { return Unclosed(t.position); }
    var tokens := t.tokens;
    var q, terms := NO_QUERY, [];
    var i := 0;
    NothingRead(dates);
    assert tokens[..0] == [];
    while i < |tokens|
      invariant 0 <= i <= |tokens|
      invariant Reading(q, terms) == ReadAll(tokens[..i], dates)
      invariant forall k :: 0 <= k < i ==> RoleOf(tokens[k], dates) != Bad
    {
      ReadNext(tokens, i, dates);
      var tok := tokens[i];
      if tok.quoted {
        if tok.value != [] { q := q.(phrases := q.phrases + [tok.value]); }
      } else if IsOperator(tok.value) {
        var q2, handled, ok := ApplyOperator(q, tok.value, dates);
        if !ok {
          assert RoleOf(tok, dates) == Bad;
          return BadOperator;
        }
        TermRole(tok, dates);
        if handled { q := q2; } else { terms := terms + [tok.value]; }
      } else if IsExclusion(tok.value) {
        q := q.(excluded := q.excluded + [tok.value[1..]]);
      } else if tok.value != [] {
        terms := terms + [tok.value];
      }
      i := i + 1;
    }
    assert tokens[..|tokens|] == tokens;
    q := q.(text := Join(terms, " "));
    if q.text == [] && q.phrases == [] { return NoPositiveTerm; }
    r := Result.Ok(q);
  }

  lemma NothingRead(dates: string -> Option<int>)
    ensures ReadAll([], dates) == Reading(NO_QUERY, [])
  {
  }

  lemma ReadNext(tokens: seq<Token>, i: nat, dates: string -> Option<int>)
    requires i < |tokens|
    ensures ReadAll(tokens[..i + 1], dates) == Played(ReadAll(tokens[..i], dates), RoleOf(tokens[i], dates))
  {
    hide RoleOf, Played;
    assert tokens[..i + 1][..i] == tokens[..i];
  }

  // ----- what each token adds

  /** The second reading after the first: everything keeps its order, and of several dates the last one stays. */
  predicate Added(x: Reading, y: Reading, z: Reading) {
    && z.terms == x.terms + y.terms && z.query.phrases == x.query.phrases + y.query.phrases
    && z.query.excluded == x.query.excluded + y.query.excluded
    && z.query.from == x.query.from + y.query.from && z.query.inChats == x.query.inChats + y.query.inChats
    && z.query.hasFile == (x.query.hasFile || y.query.hasFile)
    && z.query.before == (if y.query.before.Some? then y.query.before else x.query.before)
    && z.query.after == (if y.query.after.Some? then y.query.after else x.query.after)
  }

  lemma PlayedAdds(x: Reading, y: Reading, z: Reading, role: Role)
    requires Added(x, y, z)
    ensures Added(x, Played(y, role), Played(z, role))
  {
  }

  /** Tokens add to the query one after another. */
  lemma {:induction false} ReadingAdds(a: seq<Token>, b: seq<Token>, dates: string -> Option<int>)
    ensures Added(ReadAll(a, dates), ReadAll(b, dates), ReadAll(a + b, dates))
    decreases |b|
  {
    hide RoleOf, Played;
    if b == [] {
      assert a + b == a;
    } else {
      var n := |b| - 1;
      hide Added;
      ReadingAdds(a, b[..n], dates);
      assert (a + b)[..|a + b| - 1] == a + b[..n];
      PlayedAdds(ReadAll(a, dates), ReadAll(b[..n], dates), ReadAll(a + b[..n], dates), RoleOf(b[n], dates));
    }
  }

  lemma OneTokenReads(t: Token, dates: string -> Option<int>)
    ensures ReadAll([t], dates) == Played(Reading(Query([], [], [], [], None, None, false, []), []), RoleOf(t, dates))
    ensures AnyBad([t], dates) <==> RoleOf(t, dates) == Bad
  {
    hide RoleOf, Played;
    assert [t][..0] == [] && [t][0] == t;
  }

  /** A phrase is added unless it is empty. */
  lemma PhraseAdds(v: string, dates: string -> Option<int>)
    ensures ReadAll([Token(v, true)], dates) == Reading(Query([], if v == "" then [] else [v], [], [], None, None, false, []), [])
  {
    OneTokenReads(Token(v, true), dates);
  }

  /** The first colon behind a lowercase key ends the key. */
  lemma {:induction false} ColonBehind(key: string, value: string)
    requires forall i :: 0 <= i < |key| ==> 'a' <= key[i] <= 'z'
    ensures ColonAt(key + ":" + value) == |key|
  {
    var tok := key + ":" + value;
    if key != [] {
      ColonBehind(key[1..], value);
      assert tok[1..] == key[1..] + ":" + value;
    }
  }

  /**
   * A lowercase key, a colon and a value: a name without its sign, a date that
   * can be read, or has:file; any other key leaves the token a word.
   */
  lemma OperatorAdds(key: string, value: string, dates: string -> Option<int>)
    requires key != "" && value != "" && forall i :: 0 <= i < |key| ==> 'a' <= key[i] <= 'z'
    ensures var t := Token(key + ":" + value, false);
            var x := ReadAll([t], dates);
            && (key == "from" && value != "@" ==>
                  x == Reading(Query([], [], [if value[0] == '@' then value[1..] else value], [], None, None, false, []), []))
            && (key == "in" && value != "#" ==>
                  x == Reading(Query([], [], [], [if value[0] == '#' then value[1..] else value], None, None, false, []), []))
            && (key == "before" ==> x == Reading(Query([], [], [], [], dates(value), None, false, []), []))
            && (key == "after" ==> x == Reading(Query([], [], [], [], None, dates(value), false, []), []))
            && (key == "has" && value == "file" ==> x == Reading(Query([], [], [], [], None, None, true, []), []))
            && (key !in {"from", "in", "before", "after", "has"} ==>
                  x == Reading(Query([], [], [], [], None, None, false, []), [key + ":" + value]))
            && (AnyBad([t], dates) <==>
                  (key == "from" && value == "@") || (key == "in" && value == "#")
                  || ((key == "before" || key == "after") && dates(value).None?) || (key == "has" && value != "file"))
  {
    OneTokenReads(Token(key + ":" + value, false), dates);
    OperatorIs(key, value, dates);
    hide RoleOf, AnyBad, ReadAll;
  }

  lemma OperatorIs(key: string, value: string, dates: string -> Option<int>)
    requires key != "" && value != "" && forall i :: 0 <= i < |key| ==> 'a' <= key[i] <= 'z'
    ensures var role := RoleOf(Token(key + ":" + value, false), dates);
            && (key == "from" ==> role == if value == "@" then Bad else FromUser(if value[0] == '@' then value[1..] else value))
            && (key == "in" ==> role == if value == "#" then Bad else InChat(if value[0] == '#' then value[1..] else value))
            && (key == "before" ==> role == if dates(value).Some? then BeforeDate(dates(value).value) else Bad)
            && (key == "after" ==> role == if dates(value).Some? then AfterDate(dates(value).value) else Bad)
            && (key == "has" ==> role == if value == "file" then HasFile else Bad)
            && (key !in {"from", "in", "before", "after", "has"} ==> role == Term(key + ":" + value))
  {
    var tok := key + ":" + value;
    ColonBehind(key, value);
    assert tok[..|key|] == key && tok[|key| + 1..] == value;
    assert value[0] == '@' && value[1..] == [] ==> value == "@";
    assert value[0] == '#' && value[1..] == [] ==> value == "#";
  }

  /** Any other word is an exclusion if it starts with a minus and goes on, and else a term. */
  lemma WordAdds(v: string, dates: string -> Option<int>)
    requires !(exists k :: 0 < k < |v| - 1 && v[k] == ':' && forall j :: 0 <= j < k ==> 'a' <= v[j] <= 'z')
    ensures var x := ReadAll([Token(v, false)], dates);
            x == if |v| >= 2 && v[0] == '-' then Reading(Query([], [], [], [], None, None, false, [v[1..]]), [])
                 else Reading(Query([], [], [], [], None, None, false, []), if v == "" then [] else [v])
    ensures !AnyBad([Token(v, false)], dates)
  {
    OneTokenReads(Token(v, false), dates);
    assert !IsOperator(v) by {
      var k := ColonAt(v);
      if 0 < k < |v| - 1 && Lower(v[..k]) {
        forall j | 0 <= j < k ensures 'a' <= v[j] <= 'z' { assert v[..k][j] == v[j]; }
      }
    }
  }

  // ----- the terms inside Text

  predicate AllPlain(words: seq<string>) {
    forall i :: 0 <= i < |words| ==> Plain(words[i])
  }

  /** Splitting on white space; `word` is what has been read of the current word. */
  function FieldsFrom(s: string, word: string): seq<string> {
    if s == [] then (if word == [] then [] else [word])
    else if IsSpace(s[0]) then (if word == [] then [] else [word]) + FieldsFrom(s[1..], [])
    else FieldsFrom(s[1..], word + [s[0]])
  }

  function Fields(s: string): seq<string> { FieldsFrom(s, []) }

  lemma {:induction false} FieldsOfWord(w: string, rest: string, word: string)
    requires forall i :: 0 <= i < |w| ==> !IsSpace(w[i])
    ensures FieldsFrom(w + rest, word) == FieldsFrom(rest, word + w)
    decreases |w|
  {
    if w == [] {
      assert w + rest == rest && word + w == word;
    } else {
      assert (w + rest)[1..] == w[1..] + rest;
      FieldsOfWord(w[1..], rest, word + [w[0]]);
      assert word + [w[0]] + w[1..] == word + w;
    }
  }

  lemma {:induction false} FieldsFromSplit(a: string, c: char, b: string, word: string)
    requires IsSpace(c)
    ensures FieldsFrom(a + [c] + b, word) == FieldsFrom(a, word) + FieldsFrom(b, [])
    decreases |a|
  {
    hide IsSpace;
    var s := a + [c] + b;
    if a == [] {
      assert s == [c] + b && s[1..] == b;
    } else {
      assert s[1..] == a[1..] + [c] + b;
      FieldsFromSplit(a[1..], c, b, if IsSpace(a[0]) then [] else word + [a[0]]);
    }
  }

  /** White space splits, anywhere; what has none is one word, and nothing is none. */
  lemma FieldsSplit(a: string, c: char, b: string)
    requires IsSpace(c)
    ensures Fields(a + [c] + b) == Fields(a) + Fields(b)
    ensures (forall i :: 0 <= i < |a| ==> !IsSpace(a[i])) ==> Fields(a) == if a == [] then [] else [a]
  {
    FieldsFromSplit(a, c, b, []);
    if forall i :: 0 <= i < |a| ==> !IsSpace(a[i]) {
      FieldsOfWord(a, [], []);
      assert a + [] == a && [] + a == a;
    }
  }

  /** The joined text gives the terms back. */
  lemma {:induction false} FieldsOfJoin(terms: seq<string>)
    requires AllPlain(terms)
    ensures Fields(Join(terms, " ")) == terms
    decreases |terms|
  {
    if terms != [] {
      var w := terms[0];
      var rest := if |terms| == 1 then "" else " " + Join(terms[1..], " ");
      assert Join(terms, " ") == w + rest;
      FieldsOfWord(w, rest, []);
      assert [] + w == w;
      if |terms| > 1 {
        assert rest[1..] == Join(terms[1..], " ");
        FieldsOfJoin(terms[1..]);
        assert terms == [w] + terms[1..];
      } else {
        assert terms == [w];
      }
    }
  }

  lemma {:induction false} TermsArePlain(tokens: seq<Token>, dates: string -> Option<int>)
    requires forall t :: t in tokens && !t.quoted ==> Plain(t.value)
    ensures AllPlain(ReadAll(tokens, dates).terms)
    ensures ReadAll(tokens, dates).query.text == []
    decreases |tokens|
  {
    hide RoleOf, Plain;
    if tokens != [] {
      TermsArePlain(tokens[..|tokens| - 1], dates);
      TermRole(tokens[|tokens| - 1], dates);
    }
  }

  lemma TermRole(t: Token, dates: string -> Option<int>)
    ensures RoleOf(t, dates).Term? ==> !t.quoted && RoleOf(t, dates).t == t.value
  {
  }

  /** The free-text terms of a tokenized input, in order. */
  function TermsOf(tokens: seq<Token>, dates: string -> Option<int>): seq<string> {
    if tokens == [] then []
    else
      TermsOf(tokens[..|tokens| - 1], dates) +
      match RoleOf(tokens[|tokens| - 1], dates) case Term(t) => [t] case _ => []
  }

  /** Splitting the text of a parsed query gives exactly its free-text terms. */
  lemma ParsedTextSplits(input: string, dates: string -> Option<int>)
    requires Parsed(input, dates).Ok?
    ensures Fields(Parsed(input, dates).query.text) == TermsOf(Tokenized(input).tokens, dates)
    ensures AllPlain(TermsOf(Tokenized(input).tokens, dates))
  {
    var tokens := Tokenized(input).tokens;
    PlainTokensAreWords(input);
    TermsArePlain(tokens, dates);
    TermsCollected(tokens, dates);
    FieldsOfJoin(ReadAll(tokens, dates).terms);
  }

  lemma {:induction false} TermsCollected(tokens: seq<Token>, dates: string -> Option<int>)
    ensures ReadAll(tokens, dates).terms == TermsOf(tokens, dates)
    decreases |tokens|
  {
    hide RoleOf;
    if tokens != [] { TermsCollected(tokens[..|tokens| - 1], dates); }
  }

  /** The tokens of an input whose quotes are closed. */
  function TokensOf(input: string): seq<Token> { match Tokenized(input) case Ok(tokens) => tokens case _ => [] }

  const KNOWN_KEYS: set<string> := {"from", "in", "before", "after", "has"}

  /** An operator with a value it cannot take. */
  predicate Refused(t: Token, dates: string -> Option<int>) {
    && !t.quoted && IsOperator(t.value)
    && var key, value := t.value[..ColonAt(t.value)], t.value[ColonAt(t.value) + 1..];
    || (key == "from" && value == "@")
    || (key == "in" && value == "#")
    || ((key == "before" || key == "after") && dates(value).None?)
    || (key == "has" && value != "file")
  }

  /** Something to look for: a phrase, or a word that is no exclusion and no operator known. */
  predicate AsksFor(t: Token) {
    && t.value != []
    && (t.quoted || (!IsExclusion(t.value) && !(IsOperator(t.value) && t.value[..ColonAt(t.value)] in KNOWN_KEYS)))
  }

  lemma RefusedIsBad(t: Token, dates: string -> Option<int>)
    ensures Refused(t, dates) <==> RoleOf(t, dates) == Bad
  {
    if !t.quoted && IsOperator(t.value) {
      var value := t.value[ColonAt(t.value) + 1..];
      assert value != [];
      assert TrimPrefix(value, '@') == [] <==> value == ['@'];
      assert TrimPrefix(value, '#') == [] <==> value == ['#'];
    }
  }

  lemma AskedIsPositive(t: Token, dates: string -> Option<int>)
    ensures AsksFor(t) <==> Positive(RoleOf(t, dates))
  {
    if IsOperator(t.value) { OperatorsExcludeNothing(t.value); }
  }

  lemma OperatorsExcludeNothing(tok: string)
    requires IsOperator(tok)
    ensures tok != [] && !IsExclusion(tok)
  {
    assert tok[..ColonAt(tok)][0] == tok[0];
  }

  /**
   * A query is accepted exactly when no quote is open, no operator has a value
   * it cannot take, and there is something positive to look for.
   */
  lemma ParsedIff(input: string, dates: string -> Option<int>)
    ensures Parsed(input, dates).Ok? <==>
            !QuoteOpen(input, 0, false)
            && (forall t :: t in TokensOf(input) ==> !Refused(t, dates))
            && (exists t :: t in TokensOf(input) && AsksFor(t))
  {
    hide RoleOf, Refused, AsksFor, QuoteOpen, ReadAll;
    UnclosedIff(input);
    if Tokenized(input).Ok? {
      var tokens := TokensOf(input);
      PlainTokensAreWords(input);
      TermsArePlain(tokens, dates);
      SomePositive(tokens, dates);
      JoinEmpty(ReadAll(tokens, dates).terms);
      forall t ensures (Refused(t, dates) <==> RoleOf(t, dates) == Bad) && (AsksFor(t) <==> Positive(RoleOf(t, dates))) {
        RefusedIsBad(t, dates);
        AskedIsPositive(t, dates);
      }
    }
  }

  /** An open quote is reported first, then an operator that is refused, then that nothing positive is asked for. */
  lemma WhichError(input: string, dates: string -> Option<int>)
    ensures Parsed(input, dates).Unclosed? <==> QuoteOpen(input, 0, false)
    ensures Parsed(input, dates).BadOperator?
            <==> !QuoteOpen(input, 0, false) && exists t :: t in TokensOf(input) && Refused(t, dates)
  {
    hide RoleOf, Refused, QuoteOpen, ReadAll;
    UnclosedIff(input);
    forall t ensures Refused(t, dates) <==> RoleOf(t, dates) == Bad { RefusedIsBad(t, dates); }
  }

  /** The query of an accepted input is what its tokens add up to, with the terms joined by blanks as its text. */
  lemma ParsedAddsUp(input: string, dates: string -> Option<int>)
    requires Parsed(input, dates).Ok?
    ensures var x := ReadAll(TokensOf(input), dates);
            var q := Parsed(input, dates).query;
            q == x.query.(text := q.text) && q.text == Join(x.terms, " ") && Fields(q.text) == x.terms
  {
    hide ReadAll, TermsOf;
    ParsedTextSplits(input, dates);
    TermsCollected(TokensOf(input), dates);
  }

  predicate Positive(r: Role) { r.Term? || r.Phrase? }

  lemma {:induction false} SomePositive(tokens: seq<Token>, dates: string -> Option<int>)
    ensures ReadAll(tokens, dates).terms != [] || ReadAll(tokens, dates).query.phrases != []
            <==> exists i :: 0 <= i < |tokens| && Positive(RoleOf(tokens[i], dates))
    decreases |tokens|
  {
    hide RoleOf;
    if tokens != [] {
      var n := |tokens| - 1;
      SomePositive(tokens[..n], dates);
      if i :| 0 <= i < n && Positive(RoleOf(tokens[i], dates)) {
        assert tokens[..n][i] == tokens[i];
      }
      if Positive(RoleOf(tokens[n], dates)) {
        assert ReadAll(tokens, dates).terms != [] || ReadAll(tokens, dates).query.phrases != [];
      } else if j :| 0 <= j < n && Positive(RoleOf(tokens[..n][j], dates)) {
        assert Positive(RoleOf(tokens[j], dates));
      }
    }
  }

  lemma JoinEmpty(terms: seq<string>)
    requires AllPlain(terms)
    ensures Join(terms, " ") == [] <==> terms == []
  {
  }
}
