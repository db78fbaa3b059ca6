/**
 * The SQL filter of a query and its bound arguments
 * (internal/core/search/query_builder.go:30-91, 149-160), and what the text
 * that is emitted selects.
 */
module SearchSql {

  import opened Basics
  import opened SearchQuery
  import opened SqlFilter
  import F = FtsMatch

  /** The filters, with how many names each list has. */
  datatype Clause = FromUsers(n: nat) | InChatNames(n: nat) | DateFrom | DateBefore | HasMedia

  function Arity(c: Clause): nat {
    match c case FromUsers(n) => n case InChatNames(n) => n + n case DateFrom => 1 case DateBefore => 1 case HasMedia => 0
  }

  const FROM_FRONT: string := "m.from_id IN ("
  const CHAT_FRONT: string := "m.chat_id IN ("
  const INNER_TEXT: string := "SELECT id FROM chats WHERE username IN ("
  const OR_TITLE: string := ") OR title IN ("
  const AND: string := " AND "

  /** n placeholders with commas between them. */
  function Marks(n: nat): string {
    if n == 0 then "" else if n == 1 then "?" else "?," + Marks(n - 1)
  }

  function Rendered(c: Clause): string {
    match c
    case FromUsers(n) => FROM_FRONT + INNER_TEXT + Marks(n) + "))"
    case InChatNames(n) => CHAT_FRONT + INNER_TEXT + Marks(n) + OR_TITLE + Marks(n) + "))"
    case DateFrom => "m.date >= ?"
    case DateBefore => "m.date < ?"
    case HasMedia => "m.media_kind IS NOT NULL"
  }

  function AllRendered(cs: seq<Clause>): (texts: seq<string>)
    ensures |texts| == |cs| && forall i :: 0 <= i < |cs| ==> texts[i] == Rendered(cs[i])
  {
    seq(|cs|, i requires 0 <= i < |cs| => Rendered(cs[i]))
  }

  /** Every clause after an AND, as the text is appended to a WHERE. */
  function Filter(texts: seq<string>): string {
    if texts == [] then "" else AND + Join(texts, AND)
  }

  function Texts(names: seq<string>): (args: seq<Value>)
    ensures |args| == |names| && forall i :: 0 <= i < |names| ==> args[i] == Text(names[i])
  {
    seq(|names|, i requires 0 <= i < |names| => Text(names[i]))
  }

  function FromClause(q: Query): seq<Clause> { if q.from != [] then [FromUsers(|q.from|)] else [] }

  function ChatClause(q: Query): seq<Clause> { if q.inChats != [] then [InChatNames(|q.inChats|)] else [] }

  function AfterClause(q: Query): seq<Clause> { if q.after.Some? then [DateFrom] else [] }

  function BeforeClause(q: Query): seq<Clause> { if q.before.Some? then [DateBefore] else [] }

  function FileClause(q: Query): seq<Clause> { if q.hasFile then [HasMedia] else [] }

  function AfterParam(q: Query): seq<Value> { if q.after.Some? then [Number(q.after.value)] else [] }

  function BeforeParam(q: Query): seq<Value> { if q.before.Some? then [Number(q.before.value)] else [] }

  function Clauses(q: Query): seq<Clause> {
    FromClause(q) + ChatClause(q) + AfterClause(q) + BeforeClause(q) + FileClause(q)
  }

  function Params(q: Query): seq<Value> {
    Texts(q.from) + (Texts(q.inChats) + Texts(q.inChats)) + AfterParam(q) + BeforeParam(q)
  }

  // ----- building

  function Repeated(n: nat): string { if n == 0 then "" else "?," + Repeated(n - 1) }

  lemma {:induction false} RepeatedCut(n: nat)
    requires n > 0
    ensures |Repeated(n)| == 2 * n && Repeated(n)[..2 * n - 1] == Marks(n)
  {
    if n == 1 {
      assert Repeated(1) == "?," + "";
    } else {
      RepeatedCut(n - 1);
      assert Repeated(n)[..2 * n - 1] == "?," + Repeated(n - 1)[..2 * (n - 1) - 1];
    }
  }

  method BindStrings(names: seq<string>) returns (placeholders: string, args: seq<Value>)
    ensures placeholders == Marks(|names|) && args == Texts(names)
  {
    args := [];
    if |names| == 0 { return "", []; }
    placeholders := Repeated(|names|);
    RepeatedCut(|names|);
    placeholders := placeholders[..|placeholders| - 1];
    var i := 0;
    while i < |names|
      invariant 0 <= i <= |names|
      invariant |args| == i && forall k :: 0 <= k < i ==> args[k] == Text(names[k])
    {
      args := args + [Text(names[i])];
      i := i + 1;
    }
  }

  /** The clauses of the names; one list after the other. */
  method NameClauses(q: Query) returns (clauses: seq<string>, params: seq<Value>)
    ensures clauses == AllRendered(FromClause(q) + ChatClause(q))
    ensures params == Texts(q.from) + (Texts(q.inChats) + Texts(q.inChats))
  {
    hide Marks, Texts;
    clauses, params := [], [];
    NoTexts(q.from);
    NoTexts(q.inChats);
    if |q.from| > 0 {
      var placeholders, vals := BindStrings(q.from);
      clauses := clauses + ["m.from_id IN (" + "SELECT id FROM chats WHERE username IN (" + placeholders + "))"];
      params := params + vals;
    }
    assert clauses == AllRendered(FromClause(q)) && params == Texts(q.from);
    if |q.inChats| > 0 {
      var placeholders, vals := BindStrings(q.inChats);
      clauses := clauses + ["m.chat_id IN (" + "SELECT id FROM chats WHERE username IN (" + placeholders
                            + ") OR title IN (" + placeholders + "))"];
      params := params + vals;
      params := params + vals;
    }
  }

  lemma NoTexts(names: seq<string>)
    ensures names == [] ==> Texts(names) == []
  {
  }

  method AllClauses(q: Query) returns (clauses: seq<string>, params: seq<Value>)
    ensures clauses == AllRendered(Clauses(q)) && params == Params(q)
  {
    hide Marks, Texts, FromClause, ChatClause;
    clauses, params := NameClauses(q);
    if q.after.Some? {
      clauses, params := clauses + ["m.date >= ?"], params + [Number(q.after.value)];
    }
    assert clauses == AllRendered(FromClause(q) + ChatClause(q) + AfterClause(q));
    if q.before.Some? {
      clauses, params := clauses + ["m.date < ?"], params + [Number(q.before.value)];
    }
    assert clauses == AllRendered(FromClause(q) + ChatClause(q) + AfterClause(q) + BeforeClause(q));
    if q.hasFile {
      clauses := clauses + ["m.media_kind IS NOT NULL"];
    }
  }

  function Where(clauses: seq<string>): (text: string)
    ensures text == Filter(clauses)
  {
    if |clauses| == 0 then "" else " AND " + Join(clauses, " AND ")
  }

  /**
   * The filter text with its arguments is read by SQLite as a list of
   * conditions with as many placeholders as arguments, and lets a message
   * through exactly when the query wants it, whatever the tables hold.
   */
  method BuildSQL(q: Query) returns (ok: bool, sqlText: string, ftsMatch: string, args: seq<Value>)
    ensures ok == (F.Wanted(q) != [])
    ensures !ok ==> sqlText == "" && ftsMatch == "" && args == []
    ensures ok ==> ftsMatch == F.MatchText(F.Wanted(q), q.excluded) && sqlText == Filter(AllRendered(Clauses(q))) && args == Params(q)
    ensures ok ==> Lex(sqlText, 0).Some? && MarkCount(Lex(sqlText, 0).value) == |args| && Read(sqlText).Some?
    ensures ok ==> forall chats, m :: Selects(sqlText, args, chats, m) <==> Wants(q, chats, m)
  {
    hide Filter, AllRendered, Clauses, Params, Selects, Wants;
    var text := F.BuildMatch(q);
    if text.None? { return false, "", "", []; }
    ok, ftsMatch := true, text.value;
    var clauses, params := AllClauses(q);
    sqlText, args := Where(clauses), params;
    PlaceholdersMatchArguments(q);
    forall chats, m ensures Selects(sqlText, args, chats, m) <==> Wants(q, chats, m) { FilterMeans(q, chats, m); }
  }

  // ----- reading

  /** The numbers of k placeholders from the n-th on. */
  function Range(n: nat, k: nat): (r: seq<nat>)
    ensures |r| == k && forall i :: 0 <= i < k ==> r[i] == n + i
  {
    seq(k, i requires 0 <= i < k => n + i)
  }

  function MarkList(n: nat, k: nat): seq<Lexeme>
    decreases k
  {
    if k == 0 then [] else if k == 1 then [Mark(n)] else [Mark(n), Comma] + MarkList(n + 1, k - 1)
  }

  const IN_USERNAMES: seq<Lexeme> := SUBSELECT + [Word("username"), Word("IN"), Open]
  const IN_TITLES: seq<Lexeme> := [Close, Word("OR"), Word("title"), Word("IN"), Open]

  /** What a clause lexes to when n placeholders came before. */
  function Lexemes(c: Clause, n: nat): seq<Lexeme> {
    match c
    case FromUsers(k) => [Word("m.from_id")] + IN_USERNAMES + MarkList(n, k) + [Close, Close]
    case InChatNames(k) => [Word("m.chat_id")] + IN_USERNAMES + MarkList(n, k) + IN_TITLES + MarkList(n + k, k) + [Close, Close]
    case DateFrom => [Word("m.date"), AtLeast, Mark(n)]
    case DateBefore => [Word("m.date"), Below, Mark(n)]
    case HasMedia => [Word("m.media_kind"), Word("IS"), Word("NOT"), Word("NULL")]
  }

  /** And what those are read as. */
  function CondOf(c: Clause, n: nat): Cond {
    match c
    case FromUsers(k) => Member("m.from_id", [Test("username", Range(n, k))])
    case InChatNames(k) => Member("m.chat_id", [Test("username", Range(n, k)), Test("title", Range(n + k, k))])
    case DateFrom => Least("m.date", n)
    case DateBefore => Under("m.date", n)
    case HasMedia => Present("m.media_kind")
  }

  lemma LexMark(rest: string, n: nat)
    ensures Lex(['?'] + rest, n) == Following([Mark(n)], Lex(rest, n + 1))
  {
    assert (['?'] + rest)[1..] == rest;
  }

  lemma LexComma(rest: string, n: nat)
    ensures Lex([','] + rest, n) == Following([Comma], Lex(rest, n))
  {
    assert ([','] + rest)[1..] == rest;
  }

  lemma MarksNext(k: nat, n: nat)
    ensures Marks(0) == "" && MarkList(n, 0) == []
    ensures Marks(1) == ['?'] && MarkList(n, 1) == [Mark(n)]
    ensures k > 1 ==> Marks(k) == ['?'] + ([','] + Marks(k - 1)) && MarkList(n, k) == [Mark(n)] + ([Comma] + MarkList(n + 1, k - 1))
  {
  }

  lemma {:induction false} LexMarks(k: nat, rest: string, n: nat)
    ensures Lex(Marks(k) + rest, n) == Following(MarkList(n, k), Lex(rest, n + k))
    decreases k
  {
    hide Lex, Marks, MarkList;
    MarksNext(k, n);
    if k == 0 {
      assert "" + rest == rest;
      FollowingNone(Lex(rest, n));
    } else if k == 1 {
      LexMark(rest, n);
    } else {
      var after := Marks(k - 1) + rest;
      assert ['?'] + ([','] + Marks(k - 1)) + rest == ['?'] + ([','] + after);
      LexMark([','] + after, n);
      LexComma(after, n + 1);
      LexMarks(k - 1, rest, n + 1);
      FollowingJoin([Comma], MarkList(n + 1, k - 1), Lex(rest, n + k));
      FollowingJoin([Mark(n)], [Comma] + MarkList(n + 1, k - 1), Lex(rest, n + k));
    }
  }

  const INNER: seq<string> := ["SELECT", "id", "FROM", "chats", "WHERE", "username", "IN"]

  lemma SpacedFirst(w: string, ws: seq<string>)
    ensures Spaced([w] + ws) == w + " " + Spaced(ws)
  {
    assert ([w] + ws)[1..] == ws;
  }

  lemma SpacedTwo(a: string, b: string, rest: seq<string>)
    ensures Spaced([a, b] + rest) == a + " " + b + " " + Spaced(rest)
  {
    hide Spaced;
    assert [a, b] + rest == [a] + ([b] + rest);
    SpacedFirst(a, [b] + rest);
    SpacedFirst(b, rest);
    assert a + " " + (b + " " + Spaced(rest)) == a + " " + b + " " + Spaced(rest);
  }

  lemma NoneSpaced()
    ensures Spaced([]) == ""
  {
  }

  const SELECTION: string := "SELECT id FROM "
  const CONDITION: string := "chats WHERE username IN "

  lemma SpacedSelection(rest: seq<string>)
    ensures Spaced(["SELECT", "id", "FROM"] + rest) == SELECTION + Spaced(rest)
  {
    hide Spaced;
    SpacedFirst("FROM", rest);
    SpacedTwo("SELECT", "id", ["FROM"] + rest);
    assert ["SELECT", "id"] + (["FROM"] + rest) == ["SELECT", "id", "FROM"] + rest;
    assert SELECTION == "SELECT" + " " + "id" + " " + "FROM" + " ";
  }

  lemma SpacedCondition()
    ensures Spaced(["chats", "WHERE", "username", "IN"]) == CONDITION
  {
    hide Spaced;
    NoneSpaced();
    SpacedTwo("username", "IN", []);
    SpacedTwo("chats", "WHERE", ["username", "IN"] + []);
    assert ["chats", "WHERE"] + (["username", "IN"] + []) == ["chats", "WHERE", "username", "IN"];
    assert CONDITION == "chats" + " " + "WHERE" + " " + ("username" + " " + "IN" + " " + "");
  }

  lemma InnerParts()
    ensures INNER_TEXT == SELECTION + (CONDITION + "(")
  {
  }

  lemma SpacedInner()
    ensures INNER_TEXT == Spaced(INNER) + "("
  {
    hide Spaced, SELECTION, CONDITION, INNER_TEXT;
    InnerParts();
    SpacedCondition();
    SpacedSelection(["chats", "WHERE", "username", "IN"]);
    assert ["SELECT", "id", "FROM"] + ["chats", "WHERE", "username", "IN"] == INNER;
    assert SELECTION + (CONDITION + "(") == SELECTION + CONDITION + "(";
  }

  /** column IN (SELECT id FROM chats WHERE username IN ( */
  lemma LexHead(column: string, rest: string, n: nat)
    requires IsWord(column)
    ensures Lex(column + " IN (" + (INNER_TEXT + rest), n) == Following([Word(column)] + IN_USERNAMES, Lex(rest, n))
  {
    hide WordLength, Spaced, Lex, IsWord, INNER_TEXT;
    SpacedInner();
    InnerWords();
    var b := ['('] + rest;
    var a := ['('] + (Spaced(INNER) + b);
    assert IsWord("IN") by { assert "IN" in INNER; }
    NoneSpaced();
    SpacedTwo(column, "IN", []);
    assert [column, "IN"] + [] == [column, "IN"];
    assert column + " IN (" + (INNER_TEXT + rest) == Spaced([column, "IN"]) + a;
    LexSpaced([column, "IN"], a, n);
    LexOpen(Spaced(INNER) + b, n);
    LexSpaced(INNER, b, n);
    LexOpen(rest, n);
    FollowingJoin(Words(INNER), [Open], Lex(rest, n));
    FollowingJoin([Open], Words(INNER) + [Open], Lex(rest, n));
    FollowingJoin(Words([column, "IN"]), [Open] + (Words(INNER) + [Open]), Lex(rest, n));
    assert Words([column, "IN"]) + ([Open] + (Words(INNER) + [Open])) == [Word(column)] + IN_USERNAMES;
  }

  lemma InnerWords()
    ensures forall w :: w in INNER ==> IsWord(w)
  {
  }

  lemma LexOpen(rest: string, n: nat)
    ensures Lex(['('] + rest, n) == Following([Open], Lex(rest, n))
  {
    assert (['('] + rest)[1..] == rest;
  }

  lemma LexClose(rest: string, n: nat)
    ensures Lex([')'] + rest, n) == Following([Close], Lex(rest, n))
  {
    assert ([')'] + rest)[1..] == rest;
  }

  lemma LexBlank(rest: string, n: nat)
    ensures Lex([' '] + rest, n) == Lex(rest, n)
  {
    assert ([' '] + rest)[1..] == rest;
  }

  const TITLES: seq<string> := ["OR", "title", "IN"]

  lemma SpacedTitles()
    ensures OR_TITLE == [')', ' '] + Spaced(TITLES) + ['('] && forall w :: w in TITLES ==> IsWord(w)
  {
    NoneSpaced();
    SpacedFirst("IN", []);
    SpacedTwo("OR", "title", ["IN"]);
    assert ["IN"] + [] == ["IN"] && ["OR", "title"] + ["IN"] == TITLES;
  }

  /** ) OR title IN ( */
  lemma LexTitles(rest: string, n: nat)
    ensures Lex(OR_TITLE + rest, n) == Following(IN_TITLES, Lex(rest, n))
  {
    hide Lex, Spaced, IsWord, OR_TITLE;
    SpacedTitles();
    var b := ['('] + rest;
    assert OR_TITLE + rest == [')'] + ([' '] + (Spaced(TITLES) + b));
    LexClose([' '] + (Spaced(TITLES) + b), n);
    LexBlank(Spaced(TITLES) + b, n);
    LexSpaced(TITLES, b, n);
    LexOpen(rest, n);
    FollowingJoin(Words(TITLES), [Open], Lex(rest, n));
    FollowingJoin([Close], Words(TITLES) + [Open], Lex(rest, n));
    assert [Close] + (Words(TITLES) + [Open]) == IN_TITLES;
  }

  lemma LexTwoClose(rest: string, n: nat)
    ensures Lex("))" + rest, n) == Following([Close, Close], Lex(rest, n))
  {
    hide Lex;
    assert "))" + rest == [')'] + ([')'] + rest);
    LexClose([')'] + rest, n);
    LexClose(rest, n);
    FollowingJoin([Close], [Close], Lex(rest, n));
    assert [Close] + [Close] == [Close, Close];
  }

  lemma Fronts()
    ensures FROM_FRONT == "m.from_id" + " IN (" && CHAT_FRONT == "m.chat_id" + " IN ("
    ensures IsWord("m.from_id") && IsWord("m.chat_id")
  {
  }

  lemma LexFrom(k: nat, rest: string, n: nat)
    ensures Lex(Rendered(FromUsers(k)) + rest, n) == Following(Lexemes(FromUsers(k), n), Lex(rest, n + k))
  {
    hide Lex, Spaced, IsWord, Marks, MarkList, FROM_FRONT, INNER_TEXT;
    Fronts();
    var b := "))" + rest;
    assert Rendered(FromUsers(k)) + rest == "m.from_id" + " IN (" + (INNER_TEXT + (Marks(k) + b));
    LexHead("m.from_id", Marks(k) + b, n);
    LexMarks(k, b, n);
    LexTwoClose(rest, n + k);
    FollowingJoin(MarkList(n, k), [Close, Close], Lex(rest, n + k));
    FollowingJoin([Word("m.from_id")] + IN_USERNAMES, MarkList(n, k) + [Close, Close], Lex(rest, n + k));
    assert [Word("m.from_id")] + IN_USERNAMES + (MarkList(n, k) + [Close, Close]) == Lexemes(FromUsers(k), n);
  }

  lemma LexChat(k: nat, rest: string, n: nat)
    ensures Lex(Rendered(InChatNames(k)) + rest, n) == Following(Lexemes(InChatNames(k), n), Lex(rest, n + k + k))
  {
    hide Lex, Spaced, IsWord, Marks, MarkList, CHAT_FRONT, INNER_TEXT;
    Fronts();
    var last := n + k + k;
    var d := "))" + rest;
    var b := OR_TITLE + (Marks(k) + d);
    assert Rendered(InChatNames(k)) + rest == "m.chat_id" + " IN (" + (INNER_TEXT + (Marks(k) + b));
    LexHead("m.chat_id", Marks(k) + b, n);
    LexMarks(k, b, n);
    LexTitles(Marks(k) + d, n + k);
    LexMarks(k, d, n + k);
    LexTwoClose(rest, last);
    var ending := MarkList(n + k, k) + [Close, Close];
    FollowingJoin(MarkList(n + k, k), [Close, Close], Lex(rest, last));
    FollowingJoin(IN_TITLES, ending, Lex(rest, last));
    FollowingJoin(MarkList(n, k), IN_TITLES + ending, Lex(rest, last));
    FollowingJoin([Word("m.chat_id")] + IN_USERNAMES, MarkList(n, k) + (IN_TITLES + ending), Lex(rest, last));
    assert [Word("m.chat_id")] + IN_USERNAMES + (MarkList(n, k) + (IN_TITLES + ending)) == Lexemes(InChatNames(k), n);
  }

  lemma LexComparison(rest: string, n: nat)
    ensures Lex(['>', '=', ' '] + rest, n) == Following([AtLeast], Lex(rest, n))
    ensures Lex(['<', ' '] + rest, n) == Following([Below], Lex(rest, n))
  {
    assert (['>', '=', ' '] + rest)[2..] == [' '] + rest && (['<', ' '] + rest)[1..] == [' '] + rest;
    LexBlank(rest, n);
  }

  /** A date compared with a placeholder. */
  lemma LexDate(sign: string, lexeme: Lexeme, rest: string, n: nat)
    requires forall tail :: Lex(sign + tail, n) == Following([lexeme], Lex(tail, n))
    ensures Lex("m.date " + sign + "?" + rest, n) == Following([Word("m.date"), lexeme, Mark(n)], Lex(rest, n + 1))
  {
    hide Lex, WordLength;
    var b := sign + (['?'] + rest);
    assert "m.date " + sign + "?" + rest == "m.date" + ([' '] + b);
    LexWord("m.date", [' '] + b, n);
    LexBlank(b, n);
    LexMark(rest, n);
    FollowingJoin([lexeme], [Mark(n)], Lex(rest, n + 1));
    FollowingJoin([Word("m.date")], [lexeme] + [Mark(n)], Lex(rest, n + 1));
    assert [Word("m.date")] + ([lexeme] + [Mark(n)]) == [Word("m.date"), lexeme, Mark(n)];
  }

  lemma LexDates(rest: string, n: nat)
    ensures Lex("m.date >= ?" + rest, n) == Following(Lexemes(DateFrom, n), Lex(rest, n + 1))
    ensures Lex("m.date < ?" + rest, n) == Following(Lexemes(DateBefore, n), Lex(rest, n + 1))
  {
    hide Lex;
    forall tail ensures Lex(['>', '=', ' '] + tail, n) == Following([AtLeast], Lex(tail, n)) { LexComparison(tail, n); }
    forall tail ensures Lex(['<', ' '] + tail, n) == Following([Below], Lex(tail, n)) { LexComparison(tail, n); }
    LexDate(['>', '=', ' '], AtLeast, rest, n);
    LexDate(['<', ' '], Below, rest, n);
    assert "m.date " + ['>', '=', ' '] + "?" + rest == "m.date >= ?" + rest;
    assert "m.date " + ['<', ' '] + "?" + rest == "m.date < ?" + rest;
  }

  lemma LexMedia(rest: string, n: nat)
    requires rest == [] || !InWord(rest[0])
    ensures Lex("m.media_kind IS NOT NULL" + rest, n) == Following(Lexemes(HasMedia, n), Lex(rest, n))
  {
    hide Lex, WordLength;
    var ws := ["m.media_kind", "IS", "NOT"];
    assert Spaced(ws) == "m.media_kind IS NOT " by {
      NoneSpaced();
      SpacedFirst("NOT", []);
      SpacedTwo("m.media_kind", "IS", ["NOT"]);
      assert ["NOT"] + [] == ["NOT"] && ["m.media_kind", "IS"] + ["NOT"] == ws;
    }
    assert "m.media_kind IS NOT NULL" + rest == Spaced(ws) + ("NULL" + rest);
    LexSpaced(ws, "NULL" + rest, n);
    LexWord("NULL", rest, n);
    FollowingJoin(Words(ws), [Word("NULL")], Lex(rest, n));
    assert Words(ws) + [Word("NULL")] == Lexemes(HasMedia, n);
  }

  /** Every clause lexes to its lexemes, whatever follows it that is no word. */
  lemma LexClause(c: Clause, rest: string, n: nat)
    requires rest == [] || !InWord(rest[0])
    ensures Lex(Rendered(c) + rest, n) == Following(Lexemes(c, n), Lex(rest, n + Arity(c)))
  {
    hide Lex, Lexemes, FROM_FRONT, CHAT_FRONT, INNER_TEXT, OR_TITLE;
    match c
    case FromUsers(k) => LexFrom(k, rest, n);
    case InChatNames(k) => LexChat(k, rest, n);
    case DateFrom => LexDates(rest, n);
    case DateBefore => LexDates(rest, n);
    case HasMedia => LexMedia(rest, n);
  }

  function AllLexemes(cs: seq<Clause>, n: nat): seq<Lexeme>
    decreases |cs|
  {
    if cs == [] then [] else [Word("AND")] + Lexemes(cs[0], n) + AllLexemes(cs[1..], n + Arity(cs[0]))
  }

  function Chained(texts: seq<string>): string {
    if texts == [] then "" else AND + texts[0] + Chained(texts[1..])
  }

  lemma {:induction false} FilterIsChained(texts: seq<string>)
    ensures Filter(texts) == Chained(texts)
    decreases |texts|
  {
    if |texts| > 1 {
      FilterIsChained(texts[1..]);
      assert AND + (texts[0] + AND + Join(texts[1..], AND)) == AND + texts[0] + (AND + Join(texts[1..], AND));
    } else if |texts| == 1 {
      assert texts[1..] == [] && AND + texts[0] + "" == AND + texts[0];
    }
  }

  lemma LexAnd(rest: string, n: nat)
    ensures Lex(AND + rest, n) == Following([Word("AND")], Lex(rest, n))
  {
    hide WordLength;
    var b := [' '] + rest;
    assert AND + rest == [' '] + ("AND" + b);
    assert ([' '] + ("AND" + b))[1..] == "AND" + b && b[1..] == rest;
    LexWord("AND", b, n);
  }

  lemma {:induction false} LexChained(cs: seq<Clause>, n: nat)
    ensures Lex(Chained(AllRendered(cs)), n) == Some(AllLexemes(cs, n))
    decreases |cs|
  {
    hide Rendered, Lexemes, Lex, Chained;
    ChainedNext(cs);
    if cs == [] {
      NothingLexes(n);
    } else {
      var rest := Chained(AllRendered(cs[1..]));
      LexAnd(Rendered(cs[0]) + rest, n);
      LexClause(cs[0], rest, n);
      LexChained(cs[1..], n + Arity(cs[0]));
      FollowingJoin([Word("AND")], Lexemes(cs[0], n), Lex(rest, n + Arity(cs[0])));
    }
  }

  lemma NothingLexes(n: nat)
    ensures Lex("", n) == Some([])
  {
  }

  lemma ChainedNext(cs: seq<Clause>)
    ensures cs == [] ==> Chained(AllRendered(cs)) == ""
    ensures cs != [] ==>
              var rest := Chained(AllRendered(cs[1..]));
              Chained(AllRendered(cs)) == AND + (Rendered(cs[0]) + rest) && (rest == [] || !InWord(rest[0]))
  {
    hide Rendered;
    if cs != [] {
      var texts, rest := AllRendered(cs), Chained(AllRendered(cs[1..]));
      assert texts[1..] == AllRendered(cs[1..]) && texts[0] == Rendered(cs[0]);
      assert AND + (Rendered(cs[0]) + rest) == AND + Rendered(cs[0]) + rest;
    }
  }

  // ----- parsing

  /** A list of names that is asked for is not empty. */
  predicate Asked(c: Clause) { match c case FromUsers(k) => k > 0 case InChatNames(k) => k > 0 case _ => true }

  lemma {:induction false} MarksParse(n: nat, k: nat, ts: seq<Lexeme>)
    requires k > 0 && (ts == [] || ts[0] != Comma)
    ensures ParseMarks(MarkList(n, k) + ts) == Good(Range(n, k), ts)
    decreases k
  {
    var s := MarkList(n, k) + ts;
    if k == 1 {
      assert s == [Mark(n)] + ts && s[1..] == ts && [n] == Range(n, 1);
    } else {
      assert s == [Mark(n), Comma] + (MarkList(n + 1, k - 1) + ts);
      assert s[2..] == MarkList(n + 1, k - 1) + ts;
      MarksParse(n + 1, k - 1, ts);
      assert [n] + Range(n + 1, k - 1) == Range(n, k);
    }
  }

  /** column IN (?, ...) */
  lemma TestParses(column: string, n: nat, k: nat, ts: seq<Lexeme>)
    requires k > 0
    ensures ParseTest([Word(column), Word("IN"), Open] + MarkList(n, k) + ([Close] + ts)) == Good(Test(column, Range(n, k)), ts)
  {
    hide ParseMarks;
    var s := [Word(column), Word("IN"), Open] + MarkList(n, k) + ([Close] + ts);
    assert s[3..] == MarkList(n, k) + ([Close] + ts) && ([Close] + ts)[1..] == ts;
    MarksParse(n, k, [Close] + ts);
    MarksSome(n, k);
  }

  lemma MarksSome(n: nat, k: nat)
    requires k > 0
    ensures MarkList(n, k) != []
  {
  }

  lemma FromParses(n: nat, k: nat, ts: seq<Lexeme>)
    requires k > 0
    ensures ParseCond(Lexemes(FromUsers(k), n) + ts) == Good(CondOf(FromUsers(k), n), ts)
  {
    hide ParseTest, MarkList;
    var s := Lexemes(FromUsers(k), n) + ts;
    var inner := [Word("username"), Word("IN"), Open] + MarkList(n, k) + ([Close] + ([Close] + ts));
    assert s == [Word("m.from_id")] + SUBSELECT + inner;
    assert s[1..8] == SUBSELECT && s[8..] == inner;
    TestParses("username", n, k, [Close] + ts);
    assert ([Close] + ts)[1..] == ts;
  }

  lemma ChatParses(n: nat, k: nat, ts: seq<Lexeme>)
    requires k > 0
    ensures ParseCond(Lexemes(InChatNames(k), n) + ts) == Good(CondOf(InChatNames(k), n), ts)
  {
    hide ParseTest, MarkList;
    var s := Lexemes(InChatNames(k), n) + ts;
    var more := [Word("title"), Word("IN"), Open] + MarkList(n + k, k) + ([Close] + ([Close] + ts));
    var inner := [Word("username"), Word("IN"), Open] + MarkList(n, k) + ([Close] + ([Word("OR")] + more));
    assert s == [Word("m.chat_id")] + SUBSELECT + inner;
    assert s[1..8] == SUBSELECT && s[8..] == inner;
    TestParses("title", n + k, k, [Close] + ts);
    TestParses("username", n, k, [Word("OR")] + more);
    assert ([Word("OR")] + more)[1..] == more && ([Close] + ts)[1..] == ts;
    assert ParseTests(more) == Good([Test("title", Range(n + k, k))], [Close] + ts);
    assert [Test("username", Range(n, k))] + [Test("title", Range(n + k, k))]
           == [Test("username", Range(n, k)), Test("title", Range(n + k, k))];
    assert ParseTests(inner) == Good([Test("username", Range(n, k)), Test("title", Range(n + k, k))], [Close] + ts);
  }

  lemma ClauseParses(c: Clause, n: nat, ts: seq<Lexeme>)
    requires Asked(c)
    ensures ParseCond(Lexemes(c, n) + ts) == Good(CondOf(c, n), ts)
  {
    match c
    case FromUsers(k) => FromParses(n, k, ts);
    case InChatNames(k) => ChatParses(n, k, ts);
    case DateFrom => assert (Lexemes(c, n) + ts)[3..] == ts;
    case DateBefore => assert (Lexemes(c, n) + ts)[3..] == ts;
    case HasMedia =>
      var s := Lexemes(c, n) + ts;
      assert s[4..] == ts && s[1..4] == [Word("IS"), Word("NOT"), Word("NULL")];
  }

  /** The conditions of some clauses. */
  function CondsOf(cs: seq<Clause>, n: nat): seq<Cond>
    decreases |cs|
  {
    if cs == [] then [] else [CondOf(cs[0], n)] + CondsOf(cs[1..], n + Arity(cs[0]))
  }

  lemma {:induction false} ClausesParse(cs: seq<Clause>, n: nat)
    requires forall c :: c in cs ==> Asked(c)
    ensures ParseConds(AllLexemes(cs, n)) == Some(CondsOf(cs, n))
    decreases |cs|
  {
    hide Lexemes, ParseCond, CondOf, Asked;
    if cs != [] {
      var rest := AllLexemes(cs[1..], n + Arity(cs[0]));
      var s := AllLexemes(cs, n);
      assert s[1..] == Lexemes(cs[0], n) + rest;
      ClauseParses(cs[0], n, rest);
      ClausesParse(cs[1..], n + Arity(cs[0]));
    }
  }

  lemma AllAsked(q: Query)
    ensures forall c :: c in Clauses(q) ==> Asked(c)
  {
  }

  /** The filter is read as its clauses, in order. */
  lemma FilterReads(q: Query)
    ensures Lex(Filter(AllRendered(Clauses(q))), 0) == Some(AllLexemes(Clauses(q), 0))
    ensures Read(Filter(AllRendered(Clauses(q)))) == Some(CondsOf(Clauses(q), 0))
  {
    hide Lex, ParseConds, AllLexemes, CondsOf, Clauses, AllRendered, Filter, Chained, Asked;
    FilterIsChained(AllRendered(Clauses(q)));
    LexChained(Clauses(q), 0);
    AllAsked(q);
    ClausesParse(Clauses(q), 0);
  }

  // ----- placeholders and arguments

  lemma {:induction false} MarkListCount(n: nat, k: nat)
    ensures MarkCount(MarkList(n, k)) == k
    decreases k
  {
    if k > 1 {
      MarkListCount(n + 1, k - 1);
      assert ([Mark(n), Comma] + MarkList(n + 1, k - 1))[1..][1..] == MarkList(n + 1, k - 1);
    } else if k == 1 {
      assert [Mark(n)][1..] == [];
    }
  }

  lemma LexemesCount(c: Clause, n: nat)
    ensures MarkCount(Lexemes(c, n)) == Arity(c)
  {
    hide MarkList, MarkCount;
    WordsUnmarked([Close, Close]);
    WordsUnmarked(IN_TITLES);
    match c {
      case FromUsers(k) =>
        var head := [Word("m.from_id")] + IN_USERNAMES;
        WordsUnmarked(head);
        MarkListCount(n, k);
        MarkCountJoin(head, MarkList(n, k));
        MarkCountJoin(head + MarkList(n, k), [Close, Close]);
      case InChatNames(k) =>
        var head := [Word("m.chat_id")] + IN_USERNAMES;
        WordsUnmarked(head);
        MarkListCount(n, k);
        MarkListCount(n + k, k);
        MarkCountJoin(head, MarkList(n, k));
        MarkCountJoin(head + MarkList(n, k), IN_TITLES);
        MarkCountJoin(head + MarkList(n, k) + IN_TITLES, MarkList(n + k, k));
        MarkCountJoin(head + MarkList(n, k) + IN_TITLES + MarkList(n + k, k), [Close, Close]);
      case DateFrom =>
        MarkCountLast([Word("m.date"), AtLeast], n);
        assert [Word("m.date"), AtLeast] + [Mark(n)] == Lexemes(c, n);
      case DateBefore =>
        MarkCountLast([Word("m.date"), Below], n);
        assert [Word("m.date"), Below] + [Mark(n)] == Lexemes(c, n);
      case HasMedia => WordsUnmarked(Lexemes(c, n));
    }
  }

  lemma MarkCountLast(ts: seq<Lexeme>, n: nat)
    requires forall t :: t in ts ==> !t.Mark?
    ensures MarkCount(ts + [Mark(n)]) == 1
  {
    WordsUnmarked(ts);
    MarkCountJoin(ts, [Mark(n)]);
    assert [Mark(n)][1..] == [];
  }

  function TotalArity(cs: seq<Clause>): nat {
    if cs == [] then 0 else Arity(cs[0]) + TotalArity(cs[1..])
  }

  lemma {:induction false} AllLexemesCount(cs: seq<Clause>, n: nat)
    ensures MarkCount(AllLexemes(cs, n)) == TotalArity(cs)
    decreases |cs|
  {
    hide Lexemes;
    if cs != [] {
      var m := n + Arity(cs[0]);
      AllLexemesCount(cs[1..], m);
      LexemesCount(cs[0], n);
      WordsUnmarked([Word("AND")]);
      MarkCountJoin([Word("AND")], Lexemes(cs[0], n));
      MarkCountJoin([Word("AND")] + Lexemes(cs[0], n), AllLexemes(cs[1..], m));
    }
  }

  lemma {:induction false} ArityJoin(a: seq<Clause>, b: seq<Clause>)
    ensures TotalArity(a + b) == TotalArity(a) + TotalArity(b)
    decreases |a|
  {
    if a == [] {
      assert a + b == b;
    } else {
      assert (a + b)[1..] == a[1..] + b;
      ArityJoin(a[1..], b);
    }
  }

  lemma ArityOne(c: Clause)
    ensures TotalArity([c]) == Arity(c) && TotalArity([]) == 0
  {
    assert [c][1..] == [];
  }

  lemma PartsArity(q: Query)
    ensures TotalArity(FromClause(q)) == |q.from| && TotalArity(ChatClause(q)) == |q.inChats| + |q.inChats|
    ensures TotalArity(AfterClause(q)) == |AfterParam(q)| && TotalArity(BeforeClause(q)) == |BeforeParam(q)|
    ensures TotalArity(FileClause(q)) == 0
  {
    hide TotalArity;
    ArityOne(FromUsers(|q.from|)); ArityOne(InChatNames(|q.inChats|)); ArityOne(DateFrom); ArityOne(DateBefore); ArityOne(HasMedia);
  }

  /** As many placeholders as arguments. */
  lemma PlaceholdersMatchArguments(q: Query)
    ensures var sqlText := Filter(AllRendered(Clauses(q)));
            Lex(sqlText, 0).Some? && MarkCount(Lex(sqlText, 0).value) == |Params(q)| && Read(sqlText).Some?
  {
    hide TotalArity, Filter, AllRendered, Lex, MarkCount, Read, AllLexemes, CondsOf,
      FromClause, ChatClause, AfterClause, BeforeClause, FileClause;
    FilterReads(q);
    AllLexemesCount(Clauses(q), 0);
    PartsArity(q);
    ArityJoin(FromClause(q), ChatClause(q));
    ArityJoin(FromClause(q) + ChatClause(q), AfterClause(q));
    ArityJoin(FromClause(q) + ChatClause(q) + AfterClause(q), BeforeClause(q));
    ArityJoin(FromClause(q) + ChatClause(q) + AfterClause(q) + BeforeClause(q), FileClause(q));
  }

  // ----- meaning

  predicate NameIn(name: Option<string>, names: seq<string>) { name.Some? && name.value in names }

  predicate WantsFrom(names: seq<string>, chats: map<int, ChatRow>, m: MessageRow) {
    m.fromId.Some? && m.fromId.value in chats && NameIn(chats[m.fromId.value].username, names)
  }

  predicate WantsChat(names: seq<string>, chats: map<int, ChatRow>, m: MessageRow) {
    m.chatId in chats && (NameIn(chats[m.chatId].username, names) || NameIn(chats[m.chatId].title, names))
  }

  /** What the query asks of a message, apart from its text. */
  predicate Wants(q: Query, chats: map<int, ChatRow>, m: MessageRow) {
    && (q.from == [] || WantsFrom(q.from, chats, m))
    && (q.inChats == [] || WantsChat(q.inChats, chats, m))
    && (q.after.Some? ==> m.date >= q.after.value)
    && (q.before.Some? ==> m.date < q.before.value)
    && (q.hasFile ==> m.mediaKind.Some?)
  }

  /** The arguments from the n-th on are these. */
  predicate Bound(args: seq<Value>, n: nat, vals: seq<Value>) {
    n + |vals| <= |args| && args[n..n + |vals|] == vals
  }

  lemma TestMeans(column: string, n: nat, names: seq<string>, args: seq<Value>, row: ChatRow)
    requires Bound(args, n, Texts(names)) && (column == "username" || column == "title")
    ensures TestHolds(Test(column, Range(n, |names|)), args, row)
            <==> NameIn(if column == "username" then row.username else row.title, names)
  {
    var name := if column == "username" then row.username else row.title;
    var marks := Range(n, |names|);
    assert ChatColumn(row, column) == TextValue(name);
    forall i | 0 <= i < |names| ensures args[marks[i]] == Text(names[i]) {
      assert args[n..n + |names|][i] == args[n + i];
    }
    if NameIn(name, names) {
      var i :| 0 <= i < |names| && names[i] == name.value;
      assert args[marks[i]] == Text(name.value);
    }
  }

  lemma FromMeans(names: seq<string>, n: nat, args: seq<Value>, chats: map<int, ChatRow>, m: MessageRow)
    requires Bound(args, n, Texts(names))
    ensures CondHolds(CondOf(FromUsers(|names|), n), args, chats, m) <==> WantsFrom(names, chats, m)
  {
    hide TestHolds, Bound, NameIn;
    if m.fromId.Some? && m.fromId.value in chats {
      TestMeans("username", n, names, args, chats[m.fromId.value]);
    }
  }

  lemma ChatMeans(names: seq<string>, n: nat, args: seq<Value>, chats: map<int, ChatRow>, m: MessageRow)
    requires Bound(args, n, Texts(names)) && Bound(args, n + |names|, Texts(names))
    ensures CondHolds(CondOf(InChatNames(|names|), n), args, chats, m) <==> WantsChat(names, chats, m)
  {
    hide TestHolds, Bound, NameIn;
    var a, b := Test("username", Range(n, |names|)), Test("title", Range(n + |names|, |names|));
    assert a in [a, b] && b in [a, b];
    if m.chatId in chats {
      TestMeans("username", n, names, args, chats[m.chatId]);
      TestMeans("title", n + |names|, names, args, chats[m.chatId]);
    }
  }

  lemma {:induction false} CondsJoin(a: seq<Clause>, b: seq<Clause>, n: nat)
    ensures CondsOf(a + b, n) == CondsOf(a, n) + CondsOf(b, n + TotalArity(a))
    decreases |a|
  {
    if a == [] {
      assert a + b == b;
    } else {
      assert (a + b)[1..] == a[1..] + b;
      CondsJoin(a[1..], b, n + Arity(a[0]));
    }
  }

  lemma CondsOne(there: bool, c: Clause, n: nat, args: seq<Value>, chats: map<int, ChatRow>, m: MessageRow)
    ensures AllHold(CondsOf(if there then [c] else [], n), args, chats, m) <==> (there ==> CondHolds(CondOf(c, n), args, chats, m))
  {
    hide CondHolds, CondOf;
    if there {
      assert [c][1..] == [] && CondsOf([c], n) == [CondOf(c, n)];
      assert CondsOf([c], n)[0] == CondOf(c, n);
    }
  }

  lemma AllHoldJoin(a: seq<Cond>, b: seq<Cond>, args: seq<Value>, chats: map<int, ChatRow>, m: MessageRow)
    ensures AllHold(a + b, args, chats, m) <==> AllHold(a, args, chats, m) && AllHold(b, args, chats, m)
  {
    hide CondHolds;
    if AllHold(a + b, args, chats, m) {
      forall i | 0 <= i < |a| ensures CondHolds(a[i], args, chats, m) { assert (a + b)[i] == a[i]; }
      forall i | 0 <= i < |b| ensures CondHolds(b[i], args, chats, m) { assert (a + b)[|a| + i] == b[i]; }
    }
  }

  /** The conditions of two lists of clauses, the second one's placeholders after the first one's. */
  lemma HoldJoin(a: seq<Clause>, b: seq<Clause>, n: nat, args: seq<Value>, chats: map<int, ChatRow>, m: MessageRow)
    requires n == TotalArity(a)
    ensures AllHold(CondsOf(a + b, 0), args, chats, m)
            <==> AllHold(CondsOf(a, 0), args, chats, m) && AllHold(CondsOf(b, n), args, chats, m)
    ensures TotalArity(a + b) == n + TotalArity(b)
  {
    hide AllHold, CondsOf, TotalArity;
    CondsJoin(a, b, 0);
    AllHoldJoin(CondsOf(a, 0), CondsOf(b, n), args, chats, m);
    ArityJoin(a, b);
  }

  lemma NamesMean(q: Query, chats: map<int, ChatRow>, m: MessageRow)
    ensures AllHold(CondsOf(FromClause(q), 0), Params(q), chats, m) <==> (q.from == [] || WantsFrom(q.from, chats, m))
    ensures AllHold(CondsOf(ChatClause(q), |q.from|), Params(q), chats, m) <==> (q.inChats == [] || WantsChat(q.inChats, chats, m))
  {
    hide AllHold, CondsOf, CondHolds, CondOf, Texts, WantsFrom, WantsChat, AfterParam, BeforeParam;
    var args, k := Params(q), |q.from|;
    TextsSize(q.from);
    TextsSize(q.inChats);
    assert Bound(args, 0, Texts(q.from)) && Bound(args, k, Texts(q.inChats)) && Bound(args, k + |q.inChats|, Texts(q.inChats));
    hide Bound, Params;
    CondsOne(q.from != [], FromUsers(k), 0, args, chats, m);
    CondsOne(q.inChats != [], InChatNames(|q.inChats|), k, args, chats, m);
    FromMeans(q.from, 0, args, chats, m);
    ChatMeans(q.inChats, k, args, chats, m);
  }

  lemma TextsSize(names: seq<string>)
    ensures |Texts(names)| == |names|
  {
  }

  lemma RestMeans(q: Query, n: nat, chats: map<int, ChatRow>, m: MessageRow)
    requires n == |q.from| + |q.inChats| + |q.inChats|
    ensures AllHold(CondsOf(AfterClause(q), n), Params(q), chats, m) <==> (q.after.Some? ==> m.date >= q.after.value)
    ensures AllHold(CondsOf(BeforeClause(q), n + |AfterParam(q)|), Params(q), chats, m) <==> (q.before.Some? ==> m.date < q.before.value)
    ensures AllHold(CondsOf(FileClause(q), n + |AfterParam(q)| + |BeforeParam(q)|), Params(q), chats, m)
            <==> (q.hasFile ==> m.mediaKind.Some?)
  {
    hide AllHold, CondsOf, Texts;
    var args, k := Params(q), n + |AfterParam(q)|;
    TextsSize(q.from);
    TextsSize(q.inChats);
    CondsOne(q.after.Some?, DateFrom, n, args, chats, m);
    CondsOne(q.before.Some?, DateBefore, k, args, chats, m);
    CondsOne(q.hasFile, HasMedia, k + |BeforeParam(q)|, args, chats, m);
    assert q.after.Some? ==> args[n] == Number(q.after.value);
    assert q.before.Some? ==> args[k] == Number(q.before.value);
  }

  /** With the arguments bound in order, the text that is emitted selects exactly the messages the query wants. */
  lemma FilterMeans(q: Query, chats: map<int, ChatRow>, m: MessageRow)
    ensures Selects(Filter(AllRendered(Clauses(q))), Params(q), chats, m) <==> Wants(q, chats, m)
  {
    hide TotalArity, AllHold, CondsOf, Filter, AllRendered, Lex, Read, FromClause, ChatClause, AfterClause, BeforeClause, FileClause,
      AfterParam, BeforeParam, Params, WantsFrom, WantsChat;
    FilterReads(q);
    NamesMean(q, chats, m);
    var a, b, c, d, args := FromClause(q), ChatClause(q), AfterClause(q), BeforeClause(q), Params(q);
    var n := |q.from| + |q.inChats| + |q.inChats|;
    RestMeans(q, n, chats, m);
    PartsArity(q);
    HoldJoin(a, b, |q.from|, args, chats, m);
    HoldJoin(a + b, c, n, args, chats, m);
    HoldJoin(a + b + c, d, n + |AfterParam(q)|, args, chats, m);
    HoldJoin(a + b + c + d, FileClause(q), n + |AfterParam(q)| + |BeforeParam(q)|, args, chats, m);
  }

  /**
   * In the rows' own terms: the sender's chat has one of the names asked for
   * as its username, the message's chat has one as its username or title, the
   * date is within the bounds, the upper one excluded, and there is a file if
   * one is asked for.
   */
  lemma SelectedIff(q: Query, chats: map<int, ChatRow>, m: MessageRow)
    ensures Selects(Filter(AllRendered(Clauses(q))), Params(q), chats, m) <==>
            && (q.from != [] ==>
                  && m.fromId.Some? && m.fromId.value in chats
                  && chats[m.fromId.value].username.Some? && chats[m.fromId.value].username.value in q.from)
            && (q.inChats != [] ==>
                  && m.chatId in chats
                  && var c := chats[m.chatId];
                     || (c.username.Some? && c.username.value in q.inChats)
                     || (c.title.Some? && c.title.value in q.inChats))
            && (q.after.Some? ==> m.date >= q.after.value) && (q.before.Some? ==> m.date < q.before.value)
            && (q.hasFile ==> m.mediaKind.Some?)
  {
    hide Selects, Filter, AllRendered, Clauses, Params;
    FilterMeans(q, chats, m);
  }
}
