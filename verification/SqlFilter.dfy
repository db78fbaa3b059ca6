/**
 * What a filter text means to SQLite: lexemes, the part of the SELECT grammar
 * the filters of a search are written in, and the messages it selects. A
 * comparison with NULL is unknown; nothing here negates one, so unknown counts
 * as false.
 */
module SqlFilter {

  import opened Basics

  // ----- lexemes

  /** Placeholders are numbered from the left. */
  datatype Lexeme = Word(w: string) | Open | Close | Comma | Mark(number: nat) | AtLeast | Below

  predicate InWord(c: char) { 'a' <= c <= 'z' || 'A' <= c <= 'Z' || c == '_' || c == '.' }

  function WordLength(s: string): (n: nat)
    ensures n <= |s|
  {
    if s == [] || !InWord(s[0]) then 0 else 1 + WordLength(s[1..])
  }

  /** The lexemes of a text before which there were `marks` placeholders. */
  function Lex(s: string, marks: nat): Option<seq<Lexeme>>
    decreases |s|
  {
    if s == [] then Some([])
    else if s[0] == ' ' then Lex(s[1..], marks)
    else if s[0] == '(' then Following([Open], Lex(s[1..], marks))
    else if s[0] == ')' then Following([Close], Lex(s[1..], marks))
    else if s[0] == ',' then Following([Comma], Lex(s[1..], marks))
    else if s[0] == '?' then Following([Mark(marks)], Lex(s[1..], marks + 1))
    else if s[0] == '<' && (|s| == 1 || (s[1] != '=' && s[1] != '>' && s[1] != '<')) then Following([Below], Lex(s[1..], marks))
    else if s[0] == '>' && |s| > 1 && s[1] == '=' then Following([AtLeast], Lex(s[2..], marks))
    else
      var n := WordLength(s);
      if n == 0 then None else Following([Word(s[..n])], Lex(s[n..], marks))
  }

  function MarkCount(ts: seq<Lexeme>): nat {
    if ts == [] then 0 else (if ts[0].Mark? then 1 else 0) + MarkCount(ts[1..])
  }

  // ----- the grammar

  /** column IN (?, ...), with the numbers of the placeholders. */
  datatype Test = Test(column: string, marks: seq<nat>)

  /** column IN (SELECT id FROM chats WHERE any of the tests), column >= ?, column < ?, column IS NOT NULL. */
  datatype Cond = Member(column: string, tests: seq<Test>) | Least(column: string, mark: nat)
                | Under(column: string, mark: nat) | Present(column: string)

  /** What was read, and the lexemes after it. */
  datatype Parsed<T> = Bad | Good(value: T, rest: seq<Lexeme>)

  /** ? or ?, ... */
  function ParseMarks(ts: seq<Lexeme>): (r: Parsed<seq<nat>>)
    ensures r.Good? ==> |r.rest| < |ts|
  {
    if ts == [] || !ts[0].Mark? then Bad
    else if |ts| == 1 || ts[1] != Comma then Good([ts[0].number], ts[1..])
    else
      match ParseMarks(ts[2..])
      case Bad => Bad
      case Good(marks, rest) => Good([ts[0].number] + marks, rest)
  }

  function ParseTest(ts: seq<Lexeme>): (r: Parsed<Test>)
    ensures r.Good? ==> |r.rest| < |ts|
  {
    if |ts| < 4 || !ts[0].Word? || ts[1] != Word("IN") || ts[2] != Open then Bad
    else
      match ParseMarks(ts[3..])
      case Bad => Bad
      case Good(marks, rest) => if rest != [] && rest[0] == Close then Good(Test(ts[0].w, marks), rest[1..]) else Bad
  }

  function ParseTests(ts: seq<Lexeme>): (r: Parsed<seq<Test>>)
    ensures r.Good? ==> |r.rest| < |ts|
    decreases |ts|
  {
    match ParseTest(ts)
    case Bad => Bad
    case Good(test, rest) =>
      if rest == [] || rest[0] != Word("OR") then Good([test], rest)
      else
        match ParseTests(rest[1..])
        case Bad => Bad
        case Good(more, rest) => Good([test] + more, rest)
  }

  const SUBSELECT: seq<Lexeme> :=
    [Word("IN"), Open, Word("SELECT"), Word("id"), Word("FROM"), Word("chats"), Word("WHERE")]

  function ParseCond(ts: seq<Lexeme>): (r: Parsed<Cond>)
    ensures r.Good? ==> |r.rest| < |ts|
  {
    if |ts| < 3 || !ts[0].Word? then Bad
    else if ts[1] == AtLeast && ts[2].Mark? then Good(Least(ts[0].w, ts[2].number), ts[3..])
    else if ts[1] == Below && ts[2].Mark? then Good(Under(ts[0].w, ts[2].number), ts[3..])
    else if |ts| >= 4 && ts[1..4] == [Word("IS"), Word("NOT"), Word("NULL")] then Good(Present(ts[0].w), ts[4..])
    else if |ts| >= 8 && ts[1..8] == SUBSELECT then
      match ParseTests(ts[8..])
      case Bad => Bad
      case Good(tests, rest) => if rest != [] && rest[0] == Close then Good(Member(ts[0].w, tests), rest[1..]) else Bad
    else Bad
  }

  /** Conditions, each after an AND, as they follow a WHERE. */
  function ParseConds(ts: seq<Lexeme>): Option<seq<Cond>>
    decreases |ts|
  {
    if ts == [] then Some([])
    else if ts[0] != Word("AND") then None
    else
      match ParseCond(ts[1..])
      case Bad => None
      case Good(cond, rest) =>
        match ParseConds(rest) case None => None case Some(conds) => Some([cond] + conds)
  }

  /** The conditions of a filter text; None if it is not one. */
  function Read(sqlText: string): Option<seq<Cond>> {
    match Lex(sqlText, 0) case None => None case Some(ts) => ParseConds(ts)
  }

  // ----- the rows it selects

  datatype Value = Null | Text(s: string) | Number(n: int)

  /** A row of chats without its id, and a row of messages; NULL is None. */
  datatype ChatRow = ChatRow(username: Option<string>, title: Option<string>)

  datatype MessageRow = MessageRow(fromId: Option<int>, chatId: int, date: int, mediaKind: Option<string>)

  function TextValue(s: Option<string>): Value { if s.None? then Null else Text(s.value) }

  function ChatColumn(row: ChatRow, column: string): Value {
    if column == "username" then TextValue(row.username)
    else if column == "title" then TextValue(row.title)
    else Null
  }

  function MessageColumn(m: MessageRow, column: string): Value {
    if column == "m.from_id" then (if m.fromId.None? then Null else Number(m.fromId.value))
    else if column == "m.chat_id" then Number(m.chatId)
    else if column == "m.date" then Number(m.date)
    else if column == "m.media_kind" then TextValue(m.mediaKind)
    else Null
  }

  predicate TestHolds(t: Test, args: seq<Value>, row: ChatRow) {
    var v := ChatColumn(row, t.column);
    v != Null && exists i :: 0 <= i < |t.marks| && t.marks[i] < |args| && args[t.marks[i]] == v
  }

  predicate CondHolds(c: Cond, args: seq<Value>, chats: map<int, ChatRow>, m: MessageRow) {
    var v := MessageColumn(m, c.column);
    match c
    case Member(_, tests) => v.Number? && v.n in chats && exists t :: t in tests && TestHolds(t, args, chats[v.n])
    case Least(_, k) => v.Number? && k < |args| && args[k].Number? && v.n >= args[k].n
    case Under(_, k) => v.Number? && k < |args| && args[k].Number? && v.n < args[k].n
    case Present(_) => v != Null
  }

  predicate AllHold(cs: seq<Cond>, args: seq<Value>, chats: map<int, ChatRow>, m: MessageRow) {
    forall i :: 0 <= i < |cs| ==> CondHolds(cs[i], args, chats, m)
  }

  /** The filter, with the arguments bound in order, lets the message through. */
  predicate Selects(sqlText: string, args: seq<Value>, chats: map<int, ChatRow>, m: MessageRow) {
    Read(sqlText).Some? && AllHold(Read(sqlText).value, args, chats, m)
  }

  // ----- facts about lexemes

  predicate IsWord(w: string) { w != [] && forall i :: 0 <= i < |w| ==> InWord(w[i]) }

  lemma {:induction false} WordEnds(w: string, rest: string)
    requires (forall i :: 0 <= i < |w| ==> InWord(w[i])) && (rest == [] || !InWord(rest[0]))
    ensures WordLength(w + rest) == |w|
    decreases |w|
  {
    if w == [] {
      assert w + rest == rest;
    } else {
      assert (w + rest)[1..] == w[1..] + rest;
      WordEnds(w[1..], rest);
    }
  }

  lemma LexWord(w: string, rest: string, marks: nat)
    requires IsWord(w) && (rest == [] || !InWord(rest[0]))
    ensures Lex(w + rest, marks) == Following([Word(w)], Lex(rest, marks))
  {
    WordEnds(w, rest);
    var s := w + rest;
    assert s[0] == w[0] && InWord(s[0]);
    assert s[..|w|] == w && s[|w|..] == rest;
  }

  /** Words with a space after each. */
  function Spaced(ws: seq<string>): string {
    if ws == [] then [] else ws[0] + [' '] + Spaced(ws[1..])
  }

  function Words(ws: seq<string>): (ts: seq<Lexeme>)
    ensures |ts| == |ws| && forall i :: 0 <= i < |ws| ==> ts[i] == Word(ws[i])
  {
    seq(|ws|, i requires 0 <= i < |ws| => Word(ws[i]))
  }

  lemma {:induction false} LexSpaced(ws: seq<string>, rest: string, marks: nat)
    requires forall w :: w in ws ==> IsWord(w)
    ensures Lex(Spaced(ws) + rest, marks) == Following(Words(ws), Lex(rest, marks))
    decreases |ws|
  {
    if ws == [] {
      assert Spaced(ws) + rest == rest;
      FollowingNone(Lex(rest, marks));
    } else {
      hide IsWord, WordLength;
      var after := Spaced(ws[1..]) + rest;
      assert Spaced(ws) + rest == ws[0] + ([' '] + after);
      assert ([' '] + after)[1..] == after;
      LexSpaced(ws[1..], rest, marks);
      LexWord(ws[0], [' '] + after, marks);
      FollowingJoin([Word(ws[0])], Words(ws[1..]), Lex(rest, marks));
      assert [Word(ws[0])] + Words(ws[1..]) == Words(ws);
    }
  }

  lemma {:induction false} MarkCountJoin(a: seq<Lexeme>, b: seq<Lexeme>)
    ensures MarkCount(a + b) == MarkCount(a) + MarkCount(b)
    decreases |a|
  {
    if a == [] {
      assert a + b == b;
    } else {
      assert (a + b)[1..] == a[1..] + b;
      MarkCountJoin(a[1..], b);
    }
  }

  lemma {:induction false} WordsUnmarked(ts: seq<Lexeme>)
    requires forall t :: t in ts ==> !t.Mark?
    ensures MarkCount(ts) == 0
    decreases |ts|
  {
    if ts != [] { WordsUnmarked(ts[1..]); }
  }
}
