/** A query written out in the search box is read back as it was (internal/core/search/parser.go:18-36). */
module SearchRoundTrip {

  import opened Basics
  import opened SearchTokens
  import opened SearchQuery

  // ----- tokens with a colon

  lemma {:induction false} ColonAfterKey(key: string, value: string)
    requires COLON !in key
    ensures ColonAt(key + [COLON] + value) == |key|
    decreases |key|
  {
    var s := key + [COLON] + value;
    if key != [] {
      assert s[1..] == key[1..] + [COLON] + value;
      ColonAfterKey(key[1..], value);
    }
  }

  /** key:value is an operator, and splits at its first colon. */
  lemma OperatorSplits(key: string, value: string)
    requires key != [] && Lower(key) && value != []
    ensures var tok := key + [COLON] + value;
            IsOperator(tok) && tok[..ColonAt(tok)] == key && tok[ColonAt(tok) + 1..] == value
  {
    ColonAfterKey(key, value);
  }

  const FROM_KEY: string := ['f', 'r', 'o', 'm']
  const IN_KEY: string := ['i', 'n']
  const BEFORE_KEY: string := ['b', 'e', 'f', 'o', 'r', 'e']
  const AFTER_KEY: string := ['a', 'f', 't', 'e', 'r']
  const HAS_KEY: string := ['h', 'a', 's']
  const FILE_WORD: string := ['f', 'i', 'l', 'e']

  function Operator(key: string, value: string): Token { Token(key + [COLON] + value, false) }

  /** from:@alice asks for alice, in:#general for general. */
  lemma NameRoles(name: string, dates: string -> Option<int>)
    requires name != []
    ensures RoleOf(Operator(FROM_KEY, ['@'] + name), dates) == FromUser(name)
    ensures RoleOf(Operator(IN_KEY, ['#'] + name), dates) == InChat(name)
  {
    hide IsOperator, ColonAt;
    OperatorSplits(FROM_KEY, ['@'] + name);
    OperatorSplits(IN_KEY, ['#'] + name);
    assert KeyOf(FROM_KEY) == From && KeyOf(IN_KEY) == In;
    assert (['@'] + name)[1..] == name && (['#'] + name)[1..] == name;
  }

  /** before: and after: take what the library reads as a date, has: takes file. */
  lemma OtherRoles(text: string, at: int, dates: string -> Option<int>)
    requires text != [] && dates(text) == Some(at)
    ensures RoleOf(Operator(BEFORE_KEY, text), dates) == BeforeDate(at)
    ensures RoleOf(Operator(AFTER_KEY, text), dates) == AfterDate(at)
  {
    hide IsOperator, ColonAt;
    OperatorSplits(BEFORE_KEY, text);
    OperatorSplits(AFTER_KEY, text);
    assert KeyOf(BEFORE_KEY) == Before && KeyOf(AFTER_KEY) == After;
  }

  lemma FileRole(dates: string -> Option<int>)
    ensures RoleOf(Operator(HAS_KEY, FILE_WORD), dates) == HasFile
  {
    hide IsOperator, ColonAt;
    OperatorSplits(HAS_KEY, FILE_WORD);
    assert KeyOf(HAS_KEY) == Has && FILE_WORD == "file";
  }

  lemma ExclusionRole(e: string, dates: string -> Option<int>)
    requires e != []
    ensures RoleOf(Token(['-'] + e, false), dates) == Exclusion(e)
  {
    var tok := ['-'] + e;
    assert tok[1..] == e;
    var i := ColonAt(tok);
    if 0 < i { assert tok[..i][0] == '-'; }
  }

  // ----- writing a query

  /** A word that is neither an exclusion nor an operator this search knows. */
  predicate Word(t: string) {
    Plain(t) && !IsExclusion(t) && (IsOperator(t) ==> KeyOf(t[..ColonAt(t)]) == Unknown)
  }

  predicate AllWords(ss: seq<string>) { forall i :: 0 <= i < |ss| ==> Word(ss[i]) }

  predicate NoneEmpty(ss: seq<string>) { forall i :: 0 <= i < |ss| ==> ss[i] != [] }

  function Each(ss: seq<string>, f: string -> Token): (ts: seq<Token>)
    ensures |ts| == |ss| && forall i :: 0 <= i < |ts| ==> ts[i] == f(ss[i])
  {
    seq(|ss|, i requires 0 <= i < |ss| => f(ss[i]))
  }

  function WordToken(t: string): Token { Token(t, false) }
  function PhraseToken(p: string): Token { Token(p, true) }
  function ExclusionToken(e: string): Token { Token(['-'] + e, false) }
  function FromToken(n: string): Token { Operator(FROM_KEY, ['@'] + n) }
  function InToken(n: string): Token { Operator(IN_KEY, ['#'] + n) }

  /** The query as tokens; the two texts are how its dates are written. */
  function Written(terms: seq<string>, q: Query, before: string, after: string): seq<Token> {
    Each(terms, WordToken) + Each(q.phrases, PhraseToken) + Each(q.excluded, ExclusionToken)
    + Each(q.from, FromToken) + Each(q.inChats, InToken)
    + (if q.before.Some? then [Operator(BEFORE_KEY, before)] else [])
    + (if q.after.Some? then [Operator(AFTER_KEY, after)] else [])
    + (if q.hasFile then [Operator(HAS_KEY, FILE_WORD)] else [])
  }

  /** A query that can be written down. */
  predicate Writable(terms: seq<string>, q: Query, before: string, after: string, dates: string -> Option<int>) {
    && AllWords(terms) && q.text == Join(terms, " ") && (terms != [] || q.phrases != [])
    && (forall i :: 0 <= i < |q.phrases| ==> q.phrases[i] != [] && q.phrases[i][|q.phrases[i]| - 1] != BACKSLASH)
    && AllPlain(q.excluded) && AllPlain(q.from) && AllPlain(q.inChats)
    && (q.before.Some? ==> Plain(before) && dates(before) == q.before)
    && (q.after.Some? ==> Plain(after) && dates(after) == q.after)
  }

  // ----- reading it back

  function Plays(x: Reading, ts: seq<Token>, dates: string -> Option<int>): Reading {
    if ts == [] then x else Played(Plays(x, ts[..|ts| - 1], dates), RoleOf(ts[|ts| - 1], dates))
  }

  lemma {:induction false} PlaysJoin(x: Reading, a: seq<Token>, b: seq<Token>, dates: string -> Option<int>)
    ensures Plays(x, a + b, dates) == Plays(Plays(x, a, dates), b, dates)
    decreases |b|
  {
    hide RoleOf, Played;
    if b == [] {
      assert a + b == a;
    } else {
      PlaysJoin(x, a, b[..|b| - 1], dates);
      assert (a + b)[..|a + b| - 1] == a + b[..|b| - 1];
    }
  }

  lemma {:induction false} ReadAllPlays(ts: seq<Token>, dates: string -> Option<int>)
    ensures ReadAll(ts, dates) == Plays(Reading(NO_QUERY, []), ts, dates)
    decreases |ts|
  {
    hide RoleOf, Played;
    if ts != [] { ReadAllPlays(ts[..|ts| - 1], dates); }
  }

  lemma {:induction false} PlaysWords(x: Reading, ss: seq<string>, dates: string -> Option<int>)
    requires AllWords(ss)
    ensures Plays(x, Each(ss, WordToken), dates) == x.(terms := x.terms + ss)
    decreases |ss|
  {
    if ss == [] {
      assert x.terms + ss == x.terms;
    } else {
      var n := |ss| - 1;
      assert Each(ss, WordToken)[..n] == Each(ss[..n], WordToken);
      assert ss == ss[..n] + [ss[n]];
      PlaysWords(x, ss[..n], dates);
      WordRole(ss[n], dates);
      hide RoleOf;
    }
  }

  lemma WordRole(t: string, dates: string -> Option<int>)
    requires Word(t)
    ensures RoleOf(WordToken(t), dates) == Term(t)
  {
  }

  lemma {:induction false} PlaysPhrases(x: Reading, ss: seq<string>, dates: string -> Option<int>)
    requires NoneEmpty(ss)
    ensures Plays(x, Each(ss, PhraseToken), dates) == x.(query := x.query.(phrases := x.query.phrases + ss))
    decreases |ss|
  {
    if ss == [] {
      assert x.query.phrases + ss == x.query.phrases;
    } else {
      var n := |ss| - 1;
      assert Each(ss, PhraseToken)[..n] == Each(ss[..n], PhraseToken);
      assert ss == ss[..n] + [ss[n]];
      PlaysPhrases(x, ss[..n], dates);
      assert RoleOf(PhraseToken(ss[n]), dates) == Phrase(ss[n]);
      hide RoleOf;
    }
  }

  lemma {:induction false} PlaysExclusions(x: Reading, ss: seq<string>, dates: string -> Option<int>)
    requires NoneEmpty(ss)
    ensures Plays(x, Each(ss, ExclusionToken), dates) == x.(query := x.query.(excluded := x.query.excluded + ss))
    decreases |ss|
  {
    hide RoleOf;
    if ss == [] {
      assert x.query.excluded + ss == x.query.excluded;
    } else {
      var n := |ss| - 1;
      assert Each(ss, ExclusionToken)[..n] == Each(ss[..n], ExclusionToken);
      assert ss == ss[..n] + [ss[n]];
      PlaysExclusions(x, ss[..n], dates);
      ExclusionRole(ss[n], dates);
    }
  }

  lemma {:induction false} PlaysFrom(x: Reading, ss: seq<string>, dates: string -> Option<int>)
    requires NoneEmpty(ss)
    ensures Plays(x, Each(ss, FromToken), dates) == x.(query := x.query.(from := x.query.from + ss))
    decreases |ss|
  {
    hide RoleOf;
    if ss == [] {
      assert x.query.from + ss == x.query.from;
    } else {
      var n := |ss| - 1;
      assert Each(ss, FromToken)[..n] == Each(ss[..n], FromToken);
      assert ss == ss[..n] + [ss[n]];
      PlaysFrom(x, ss[..n], dates);
      NameRoles(ss[n], dates);
    }
  }

  lemma {:induction false} PlaysIn(x: Reading, ss: seq<string>, dates: string -> Option<int>)
    requires NoneEmpty(ss)
    ensures Plays(x, Each(ss, InToken), dates) == x.(query := x.query.(inChats := x.query.inChats + ss))
    decreases |ss|
  {
    hide RoleOf;
    if ss == [] {
      assert x.query.inChats + ss == x.query.inChats;
    } else {
      var n := |ss| - 1;
      assert Each(ss, InToken)[..n] == Each(ss[..n], InToken);
      assert ss == ss[..n] + [ss[n]];
      PlaysIn(x, ss[..n], dates);
      NameRoles(ss[n], dates);
    }
  }

  lemma PlaysOne(x: Reading, t: Token, dates: string -> Option<int>)
    ensures Plays(x, [t], dates) == Played(x, RoleOf(t, dates)) && Plays(x, [], dates) == x
  {
    hide RoleOf, Played;
    assert [t][..|[t]| - 1] == [];
  }

  /** The tokens of a written query play back its terms and its parts. */
  lemma WrittenPlays(terms: seq<string>, q: Query, before: string, after: string, dates: string -> Option<int>)
    requires Writable(terms, q, before, after, dates)
    ensures ReadAll(Written(terms, q, before, after), dates) == Reading(q.(text := []), terms)
  {
    hide RoleOf, Plays, Each, Join, Plain, Word;
    NotEmpty(terms, q, before, after, dates);
    var x0 := Reading(NO_QUERY, []);
    var a, b, c := Each(terms, WordToken), Each(q.phrases, PhraseToken), Each(q.excluded, ExclusionToken);
    var d, e := Each(q.from, FromToken), Each(q.inChats, InToken);
    var f := if q.before.Some? then [Operator(BEFORE_KEY, before)] else [];
    var g := if q.after.Some? then [Operator(AFTER_KEY, after)] else [];
    var h := if q.hasFile then [Operator(HAS_KEY, FILE_WORD)] else [];
    ReadAllPlays(Written(terms, q, before, after), dates);
    PlaysJoin(x0, a, b, dates);
    PlaysJoin(x0, a + b, c, dates);
    PlaysJoin(x0, a + b + c, d, dates);
    PlaysJoin(x0, a + b + c + d, e, dates);
    PlaysJoin(x0, a + b + c + d + e, f, dates);
    PlaysJoin(x0, a + b + c + d + e + f, g, dates);
    PlaysJoin(x0, a + b + c + d + e + f + g, h, dates);
    var x5 := Reading(NO_QUERY.(phrases := q.phrases, excluded := q.excluded, from := q.from, inChats := q.inChats), terms);
    assert Plays(x0, a + b + c + d + e, dates) == x5 by { ListsPlay(terms, q, dates); }
    DatesPlay(x5, q, before, after, dates);
  }

  lemma NotEmpty(terms: seq<string>, q: Query, before: string, after: string, dates: string -> Option<int>)
    requires Writable(terms, q, before, after, dates)
    ensures NoneEmpty(q.excluded) && NoneEmpty(q.from) && NoneEmpty(q.inChats) && NoneEmpty(q.phrases)
    ensures (q.before.Some? ==> before != []) && (q.after.Some? ==> after != [])
  {
  }

  lemma ListsPlay(terms: seq<string>, q: Query, dates: string -> Option<int>)
    requires AllWords(terms)
    requires NoneEmpty(q.excluded) && NoneEmpty(q.from) && NoneEmpty(q.inChats) && NoneEmpty(q.phrases)
    ensures Plays(Reading(NO_QUERY, []),
                  Each(terms, WordToken) + Each(q.phrases, PhraseToken) + Each(q.excluded, ExclusionToken)
                  + Each(q.from, FromToken) + Each(q.inChats, InToken), dates)
            == Reading(NO_QUERY.(phrases := q.phrases, excluded := q.excluded, from := q.from, inChats := q.inChats), terms)
  {
    hide RoleOf, Plays, Each, Word;
    var x0 := Reading(NO_QUERY, []);
    var a, b, c := Each(terms, WordToken), Each(q.phrases, PhraseToken), Each(q.excluded, ExclusionToken);
    var d, e := Each(q.from, FromToken), Each(q.inChats, InToken);
    PlaysJoin(x0, a, b, dates);
    PlaysJoin(x0, a + b, c, dates);
    PlaysJoin(x0, a + b + c, d, dates);
    PlaysJoin(x0, a + b + c + d, e, dates);
    PlaysWords(x0, terms, dates);
    PlaysPhrases(Plays(x0, a, dates), q.phrases, dates);
    PlaysExclusions(Plays(x0, a + b, dates), q.excluded, dates);
    PlaysFrom(Plays(x0, a + b + c, dates), q.from, dates);
    PlaysIn(Plays(x0, a + b + c + d, dates), q.inChats, dates);
    assert [] + terms == terms && [] + q.phrases == q.phrases && [] + q.excluded == q.excluded;
    assert [] + q.from == q.from && [] + q.inChats == q.inChats;
  }

  lemma DatesPlay(x: Reading, q: Query, before: string, after: string, dates: string -> Option<int>)
    requires x.query.before.None? && x.query.after.None? && !x.query.hasFile
    requires q.before.Some? ==> before != [] && dates(before) == q.before
    requires q.after.Some? ==> after != [] && dates(after) == q.after
    ensures var f := if q.before.Some? then [Operator(BEFORE_KEY, before)] else [];
            var g := if q.after.Some? then [Operator(AFTER_KEY, after)] else [];
            var h := if q.hasFile then [Operator(HAS_KEY, FILE_WORD)] else [];
            Plays(Plays(Plays(x, f, dates), g, dates), h, dates)
            == x.(query := x.query.(before := q.before, after := q.after, hasFile := q.hasFile))
  {
    hide RoleOf, Plays, Operator;
    if q.before.Some? { OtherRoles(before, q.before.value, dates); }
    if q.after.Some? { OtherRoles(after, q.after.value, dates); }
    FileRole(dates);
    var x1 := x.(query := x.query.(before := q.before));
    var x2 := x1.(query := x1.query.(after := q.after));
    PlaysOne(x, Operator(BEFORE_KEY, before), dates);
    PlaysOne(x1, Operator(AFTER_KEY, after), dates);
    PlaysOne(x2, Operator(HAS_KEY, FILE_WORD), dates);
  }

  // ----- every written token is printable and none is refused

  lemma PlainAfter(a: string, b: string)
    requires Plain(a) && Plain(b)
    ensures Plain(a + b)
  {
  }

  predicate Good(t: Token, dates: string -> Option<int>) { Printable(t) && RoleOf(t, dates) != Bad }

  lemma GoodWord(t: string, dates: string -> Option<int>)
    requires Word(t)
    ensures Good(WordToken(t), dates)
  {
    WordRole(t, dates);
  }

  lemma GoodNames(s: string, dates: string -> Option<int>)
    requires Plain(s)
    ensures Good(ExclusionToken(s), dates) && Good(FromToken(s), dates) && Good(InToken(s), dates)
  {
    hide RoleOf, Plain;
    assert s != [] && Plain(['-']) && Plain(FROM_KEY + [COLON] + ['@']) && Plain(IN_KEY + [COLON] + ['#']) by { PlainMarks(s); }
    NameRoles(s, dates);
    ExclusionRole(s, dates);
    PlainAfter(['-'], s);
    PlainAfter(FROM_KEY + [COLON] + ['@'], s);
    PlainAfter(IN_KEY + [COLON] + ['#'], s);
    assert FROM_KEY + [COLON] + ['@'] + s == FROM_KEY + [COLON] + (['@'] + s);
    assert IN_KEY + [COLON] + ['#'] + s == IN_KEY + [COLON] + (['#'] + s);
  }

  lemma PlainMarks(s: string)
    requires Plain(s)
    ensures s != [] && Plain(['-']) && Plain(FROM_KEY + [COLON] + ['@']) && Plain(IN_KEY + [COLON] + ['#'])
    ensures Plain(BEFORE_KEY + [COLON]) && Plain(AFTER_KEY + [COLON]) && Plain(HAS_KEY + [COLON] + FILE_WORD)
  {
  }

  lemma GoodDates(text: string, at: int, dates: string -> Option<int>)
    requires Plain(text) && dates(text) == Some(at)
    ensures Good(Operator(BEFORE_KEY, text), dates) && Good(Operator(AFTER_KEY, text), dates)
  {
    hide RoleOf, Plain;
    PlainMarks(text);
    OtherRoles(text, at, dates);
    PlainAfter(BEFORE_KEY + [COLON], text);
    PlainAfter(AFTER_KEY + [COLON], text);
  }

  lemma GoodFile(dates: string -> Option<int>)
    ensures Good(Operator(HAS_KEY, FILE_WORD), dates)
  {
    FileRole(dates);
    PlainMarks(['-']);
  }

  lemma WrittenIsGood(terms: seq<string>, q: Query, before: string, after: string, dates: string -> Option<int>)
    requires Writable(terms, q, before, after, dates)
    ensures forall t :: t in Written(terms, q, before, after) ==> Good(t, dates)
  {
    hide Good, Plain, Word, Join, Operator;
    forall t | t in Written(terms, q, before, after) ensures Good(t, dates) {
      if t in Each(terms, WordToken) {
        var i :| 0 <= i < |terms| && t == WordToken(terms[i]);
        GoodWord(terms[i], dates);
      } else if t in Each(q.phrases, PhraseToken) {
        var i :| 0 <= i < |q.phrases| && t == PhraseToken(q.phrases[i]);
        GoodPhrase(q.phrases[i], dates);
      } else if t in Each(q.excluded, ExclusionToken) {
        var i :| 0 <= i < |q.excluded| && t == ExclusionToken(q.excluded[i]);
        GoodNames(q.excluded[i], dates);
      } else if t in Each(q.from, FromToken) {
        var i :| 0 <= i < |q.from| && t == FromToken(q.from[i]);
        GoodNames(q.from[i], dates);
      } else if t in Each(q.inChats, InToken) {
        var i :| 0 <= i < |q.inChats| && t == InToken(q.inChats[i]);
        GoodNames(q.inChats[i], dates);
      } else {
        if q.before.Some? { GoodDates(before, q.before.value, dates); }
        if q.after.Some? { GoodDates(after, q.after.value, dates); }
        GoodFile(dates);
      }
    }
  }

  lemma GoodPhrase(p: string, dates: string -> Option<int>)
    requires p != [] && p[|p| - 1] != BACKSLASH
    ensures Good(PhraseToken(p), dates)
  {
  }

  /**
   * Whatever a query asks for, typed in with its words, phrases, exclusions
   * and operators, it is parsed to exactly that query.
   */
  lemma QueryReadsBack(terms: seq<string>, q: Query, before: string, after: string, dates: string -> Option<int>)
    requires Writable(terms, q, before, after, dates)
    ensures Parsed(Print(Written(terms, q, before, after)), dates) == Result.Ok(q)
  {
    hide Written, RoleOf, ReadAll, Print, Join, Plain;
    var ts := Written(terms, q, before, after);
    WrittenIsGood(terms, q, before, after, dates);
    forall i | 0 <= i < |ts| ensures Printable(ts[i]) && RoleOf(ts[i], dates) != Bad {
      assert ts[i] in ts;
    }
    TokenizePrint(ts);
    WrittenPlays(terms, q, before, after, dates);
    WordsArePlain(terms);
    JoinEmpty(terms);
    assert Finished(Reading(q.(text := []), terms)) == Result.Ok(q);
  }

  lemma WordsArePlain(terms: seq<string>)
    requires AllWords(terms)
    ensures AllPlain(terms)
  {
    hide Plain;
  }
}
