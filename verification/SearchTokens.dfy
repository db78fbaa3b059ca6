/**
 * The search tokenizer (internal/core/search/parser.go:104-160), the open
 * quotes it rejects, and the inputs it reads back.
 */
module SearchTokens {

  import opened Basics

  datatype Token = Token(value: string, quoted: bool)

  datatype Tokens = Ok(tokens: seq<Token>) | UnclosedQuote(position: nat)

  const QUOTE: char := '\"'
  const BACKSLASH: char := '\\'

  /** The tokenizer's variables; `start` is where the open quote is. */
  datatype Lexer = Lexer(out: seq<Token>, current: string, inQuote: bool, start: nat, hasToken: bool)

  const EMPTY := Lexer([], [], false, 0, false)

  function Flush(x: Lexer, quoted: bool): Lexer {
    if x.hasToken then x.(out := x.out + [Token(x.current, quoted)], current := [], hasToken := false) else x
  }

  function Push(x: Lexer, r: char): Lexer { x.(current := x.current + [r], hasToken := true) }

  predicate EscapedQuote(s: string, i: nat) { i + 1 < |s| && s[i] == BACKSLASH && s[i + 1] == QUOTE }

  /** How many characters one turn of the loop reads. */
  function Width(s: string, i: nat, x: Lexer): nat { if x.inQuote && EscapedQuote(s, i) then 2 else 1 }

  function Turn(s: string, i: nat, x: Lexer): Lexer
    requires i < |s|
  {
    var r := s[i];
    if x.inQuote then
      if EscapedQuote(s, i) then Push(x, QUOTE)
      else if r == QUOTE then Flush(x, true).(inQuote := false)
      else Push(x, r)
    else if r == QUOTE then Flush(x, false).(inQuote := true, start := i, hasToken := true)
    else if IsSpace(r) then Flush(x, false)
    else Push(x, r)
  }

  function Scan(s: string, i: nat, x: Lexer): Lexer
    decreases |s| - i
  {
    if i >= |s| then x else Scan(s, i + Width(s, i, x), Turn(s, i, x))
  }

  function Tokenized(s: string): Tokens {
    var x := Scan(s, 0, EMPTY);
    if x.inQuote then UnclosedQuote(x.start) else Ok(Flush(x, false).out)
  }

  method Tokenize(input: string) returns (r: Tokens)
    ensures r == Tokenized(input)
  {
    var out: seq<Token>, current: string := [], [];
    var inQuote, quoteOpen, hasToken := false, 0, false;
    var i := 0;
    while i < |input|
      invariant 0 <= i
      invariant Scan(input, 0, EMPTY) == Scan(input, i, Lexer(out, current, inQuote, quoteOpen, hasToken))
      decreases |input| - i
    {
      var r := input[i];
      if inQuote {
        if r == BACKSLASH && i + 1 < |input| && input[i + 1] == QUOTE {
          current, hasToken := current + [QUOTE], true;
          i := i + 2;
          continue;
        }
        if r == QUOTE {
          if hasToken { out, current, hasToken := out + [Token(current, true)], [], false; }
          inQuote := false;
        } else {
          current, hasToken := current + [r], true;
        }
      } else if r == QUOTE {
        if hasToken { out, current, hasToken := out + [Token(current, false)], [], false; }
        inQuote, quoteOpen, hasToken := true, i, true;
      } else if IsSpace(r) {
        if hasToken { out, current, hasToken := out + [Token(current, false)], [], false; }
      } else {
        current, hasToken := current + [r], true;
      }
      i := i + 1;
    }
    if inQuote { return UnclosedQuote(quoteOpen); }
    if hasToken { out := out + [Token(current, false)]; }
    r := Ok(out);
  }

  // ----- open quotes

  /** Whether a quote is open at the end, told without looking at tokens. */
  function QuoteOpen(s: string, i: nat, open: bool): bool
    decreases |s| - i
  {
    if i >= |s| then open
    else if open && EscapedQuote(s, i) then QuoteOpen(s, i + 2, true)
    else QuoteOpen(s, i + 1, open != (s[i] == QUOTE))
  }

  lemma {:induction false} ScanOpens(s: string, i: nat, x: Lexer)
    ensures Scan(s, i, x).inQuote == QuoteOpen(s, i, x.inQuote)
    ensures Scan(s, i, x).inQuote && !x.inQuote ==> i <= Scan(s, i, x).start < |s| && s[Scan(s, i, x).start] == QUOTE
    ensures Scan(s, i, x).inQuote && x.inQuote ==>
              Scan(s, i, x).start == x.start
              || (i <= Scan(s, i, x).start < |s| && s[Scan(s, i, x).start] == QUOTE)
    decreases |s| - i
  {
    if i < |s| { ScanOpens(s, i + Width(s, i, x), Turn(s, i, x)); }
  }

  /** From i on every quote stands behind a backslash that is not before i. */
  predicate AllEscaped(s: string, i: nat) {
    forall k :: i <= k < |s| && s[k] == QUOTE ==> k > i && s[k - 1] == BACKSLASH
  }

  lemma {:induction false} OpenAtEnd(s: string, i: nat, x: Lexer)
    requires i <= |s| && Scan(s, i, x).inQuote && (x.inQuote ==> x.start < i)
    ensures var p := Scan(s, i, x).start;
            if p < i then x.inQuote && p == x.start && AllEscaped(s, i)
            else p < |s| && s[p] == QUOTE && AllEscaped(s, p + 1) && !QuoteOpen(s[..p], i, x.inQuote)
    decreases |s| - i
  {
    if i < |s| {
      OpenAtEnd(s, i + Width(s, i, x), Turn(s, i, x));
      var p := Scan(s, i, x).start;
      if p >= i + Width(s, i, x) {
        assert s[..p][i] == s[i];
        assert i + 1 < p ==> s[..p][i + 1] == s[i + 1];
      }
    }
  }

  /**
   * An error is returned exactly when a quote is left open, and it names that
   * quote: everything before it is closed, and behind it every quote is escaped.
   */
  lemma UnclosedIff(s: string)
    ensures Tokenized(s).UnclosedQuote? <==> QuoteOpen(s, 0, false)
    ensures Tokenized(s).UnclosedQuote? ==>
              var p := Tokenized(s).position;
              p < |s| && s[p] == '\"' && !QuoteOpen(s[..p], 0, false)
              && forall k :: p < k < |s| && s[k] == '\"' ==> k > p + 1 && s[k - 1] == '\\'
  {
    ScanOpens(s, 0, EMPTY);
    if Tokenized(s).UnclosedQuote? { OpenAtEnd(s, 0, EMPTY); }
  }

  /** A plain token is never empty and has no space and no quote in it. */
  predicate Plain(v: string) {
    v != [] && forall i :: 0 <= i < |v| ==> !IsSpace(v[i]) && v[i] != QUOTE
  }

  predicate Words(x: Lexer) {
    && (forall t :: t in x.out && !t.quoted ==> Plain(t.value))
    && (x.inQuote ==> x.hasToken)
    && (!x.inQuote ==> if x.hasToken then Plain(x.current) else x.current == [])
  }

  lemma {:induction false} ScanKeepsWords(s: string, i: nat, x: Lexer)
    requires Words(x)
    ensures Words(Scan(s, i, x))
    decreases |s| - i
  {
    if i < |s| { ScanKeepsWords(s, i + Width(s, i, x), Turn(s, i, x)); }
  }

  lemma PlainTokensAreWords(s: string)
    requires Tokenized(s).Ok?
    ensures forall t :: t in Tokenized(s).tokens && !t.quoted ==> Plain(t.value)
  {
    ScanKeepsWords(s, 0, EMPTY);
  }

  // ----- printing

  /** A phrase with its quotes escaped. */
  function Escaped(v: string): string {
    if v == [] then [] else (if v[0] == QUOTE then [BACKSLASH, QUOTE] else [v[0]]) + Escaped(v[1..])
  }

  function Printed(t: Token): string {
    if t.quoted then [QUOTE] + Escaped(t.value) + [QUOTE] else t.value
  }

  function Print(ts: seq<Token>): string {
    if ts == [] then [] else if |ts| == 1 then Printed(ts[0]) else Printed(ts[0]) + [' '] + Print(ts[1..])
  }

  predicate Printable(t: Token) {
    if t.quoted then t.value == [] || t.value[|t.value| - 1] != BACKSLASH else Plain(t.value)
  }

  /** Reading a run of plain characters. */
  lemma {:induction false} ScanPlain(s: string, i: nat, v: string, x: Lexer)
    requires !x.inQuote && HasAt(s, i, v) && Plain(v)
    ensures Scan(s, i, x) == Scan(s, i + |v|, x.(current := x.current + v, hasToken := true))
    decreases |v|
  {
    var rest := v[1..];
    assert v == [v[0]] + rest;
    assert s[i] == v[0];
    assert Scan(s, i, x) == Scan(s, i + 1, Push(x, v[0]));
    assert x.current + v == x.current + [v[0]] + rest;
    if rest == [] {
      assert v == [v[0]];
    } else {
      HasJoin(s, i, [v[0]], rest);
      ScanPlain(s, i + 1, rest, Push(x, v[0]));
    }
  }

  /** Reading an escaped phrase up to its closing quote. */
  lemma {:induction false} ScanEscaped(s: string, i: nat, v: string, x: Lexer)
    requires x.inQuote && x.hasToken && (v == [] || v[|v| - 1] != BACKSLASH)
    requires HasAt(s, i, Escaped(v) + [QUOTE])
    ensures Scan(s, i, x) == Scan(s, i + |Escaped(v)|, x.(current := x.current + v))
    decreases |v|
  {
    if v == [] {
      assert x.current + v == x.current;
    } else {
      var c := if v[0] == QUOTE then [BACKSLASH, QUOTE] else [v[0]];
      var rest := Escaped(v[1..]) + [QUOTE];
      assert Escaped(v) + [QUOTE] == c + rest;
      HasJoin(s, i, c, rest);
      EscapedTurn(s, i, v, x);
      ScanEscaped(s, i + |c|, v[1..], Push(x, v[0]));
      assert x.current + v == x.current + [v[0]] + v[1..];
    }
  }

  lemma EscapedTurn(s: string, i: nat, v: string, x: Lexer)
    requires x.inQuote && x.hasToken && v != [] && v[|v| - 1] != BACKSLASH
    requires HasAt(s, i, Escaped(v) + [QUOTE])
    ensures i < |s| && Turn(s, i, x) == Push(x, v[0]) && Width(s, i, x) == if v[0] == QUOTE then 2 else 1
  {
    EscapedStart(v);
    var w := Escaped(v) + [QUOTE];
    hide Escaped;
    assert s[i] == w[0];
    assert s[i + 1] == w[1];
  }

  /** The first two characters of an escaped phrase and its closing quote. */
  lemma EscapedStart(v: string)
    requires v != [] && v[|v| - 1] != BACKSLASH
    ensures var w := Escaped(v) + [QUOTE];
            |w| > 1 && if v[0] == QUOTE then w[0] == BACKSLASH && w[1] == QUOTE
                       else w[0] == v[0] && (v[0] == BACKSLASH ==> w[1] != QUOTE)
  {
    var w := Escaped(v) + [QUOTE];
    if v[0] != QUOTE {
      assert w[1] == (Escaped(v[1..]) + [QUOTE])[0];
    }
  }

  /** Reading a whole printed phrase, after whatever word stands before it. */
  lemma ScanPhrase(s: string, i: nat, t: Token, x: Lexer)
    requires t.quoted && Printable(t) && HasAt(s, i, Printed(t))
    requires !x.inQuote && (x.hasToken || x.current == [])
    ensures Scan(s, i, x) == Scan(s, i + |Printed(t)|, Lexer(Flush(x, false).out + [t], [], false, i, false))
  {
    var body := Escaped(t.value) + [QUOTE];
    assert Printed(t) == [QUOTE] + body;
    HasJoin(s, i, [QUOTE], body);
    assert s[i] == [QUOTE][0];
    var out := Flush(x, false).out;
    var inside := Lexer(out, [], true, i, true);
    assert Turn(s, i, x) == inside;
    ScanEscaped(s, i + 1, t.value, inside);
    var e := i + 1 + |Escaped(t.value)|;
    HasJoin(s, i + 1, Escaped(t.value), [QUOTE]);
    assert s[e] == [QUOTE][0];
    assert [] + t.value == t.value;
    assert Turn(s, e, inside.(current := t.value)) == Lexer(out + [t], [], false, i, false);
  }

  predicate AllPrintable(ts: seq<Token>) {
    forall i :: 0 <= i < |ts| ==> Printable(ts[i])
  }

  // ----- the grammar

  /**
   * From i on the text is these tokens as they are printed, in order, with
   * white space anywhere around them; it may be missing everywhere but
   * between two words.
   */
  predicate Laid(s: string, i: nat, ts: seq<Token>, afterWord: bool)
    requires i <= |s|
    decreases |s| - i
  {
    if i == |s| then ts == []
    else
      || (IsSpace(s[i]) && Laid(s, i + 1, ts, false))
      || (ts != [] && Printable(ts[0]) && (afterWord ==> ts[0].quoted) && HasAt(s, i, Printed(ts[0]))
          && |Printed(ts[0])| > 0 && Laid(s, i + |Printed(ts[0])|, ts[1..], !ts[0].quoted))
  }

  /** The end of the text, and a token where no white space is taken. */
  lemma LaidParts(s: string, i: nat, ts: seq<Token>, afterWord: bool)
    requires i <= |s| && Laid(s, i, ts, afterWord)
    ensures i == |s| ==> ts == []
    ensures i < |s| && !(IsSpace(s[i]) && Laid(s, i + 1, ts, false)) ==>
              && ts != [] && Printable(ts[0]) && HasAt(s, i, Printed(ts[0])) && (afterWord ==> ts[0].quoted)
              && i < i + |Printed(ts[0])| <= |s| && Laid(s, i + |Printed(ts[0])|, ts[1..], !ts[0].quoted)
  {
    hide IsSpace, Printable, Printed;
  }

  lemma {:induction false} ScanLaid(s: string, i: nat, ts: seq<Token>, x: Lexer)
    requires i <= |s| && !x.inQuote && (x.hasToken || x.current == []) && Laid(s, i, ts, x.hasToken)
    ensures var y := Scan(s, i, x); !y.inQuote && Flush(y, false).out == Flush(x, false).out + ts
    decreases |s| - i
  {
    hide EscapedQuote, Laid, HasAt, Escaped, Printable, Printed, Scan, IsSpace, Plain;
    LaidParts(s, i, ts, x.hasToken);
    var out := Flush(x, false).out;
    if i == |s| {
      ScanEnds(s, x);
      assert out + [] == out;
    } else if IsSpace(s[i]) && Laid(s, i + 1, ts, false) {
      ScanSpace(s, i, x);
      ScanLaid(s, i + 1, ts, Flush(x, false));
    } else {
      var y := ScanToken(s, i, ts[0], x);
      ScanLaid(s, i + |Printed(ts[0])|, ts[1..], y);
      assert out + [ts[0]] + ts[1..] == out + ts;
    }
  }

  lemma ScanEnds(s: string, x: Lexer)
    ensures Scan(s, |s|, x) == x
  {
  }

  /** Reading one token, printed; a word only where no other one ends. */
  lemma ScanToken(s: string, i: nat, t: Token, x: Lexer) returns (y: Lexer)
    requires !x.inQuote && (x.hasToken || x.current == []) && Printable(t) && HasAt(s, i, Printed(t))
    requires x.hasToken ==> t.quoted
    ensures !y.inQuote && y.hasToken == !t.quoted && (y.hasToken || y.current == [])
    ensures Scan(s, i, x) == Scan(s, i + |Printed(t)|, y) && Flush(y, false).out == Flush(x, false).out + [t]
  {
    hide EscapedQuote, HasAt, Escaped, Scan, Plain;
    if t.quoted {
      ScanPhrase(s, i, t, x);
      y := Lexer(Flush(x, false).out + [t], [], false, i, false);
    } else {
      PlainIfPrintable(t);
      ScanPlain(s, i, t.value, x);
      assert x.current + t.value == t.value;
      y := x.(current := t.value, hasToken := true);
      assert t == Token(t.value, false);
    }
  }

  lemma ScanSpace(s: string, i: nat, x: Lexer)
    requires i < |s| && !x.inQuote && IsSpace(s[i])
    ensures Scan(s, i, x) == Scan(s, i + 1, Flush(x, false))
  {
    SpaceIsNoQuote();
  }

  lemma PlainIfPrintable(t: Token)
    requires Printable(t) && !t.quoted
    ensures Plain(t.value)
  {
  }

  lemma SpaceIsNoQuote()
    ensures !IsSpace(QUOTE)
  {
  }

  /** The phrase whose closing quote comes, as it is printed. */
  lemma {:induction false} PhraseThere(s: string, i: nat) returns (v: string)
    requires i <= |s| && !QuoteOpen(s, i, true)
    ensures HasAt(s, i, Escaped(v) + [QUOTE]) && (v != [] ==> v[|v| - 1] != BACKSLASH)
    ensures v == [] ==> s[i] == QUOTE
    ensures !QuoteOpen(s, i + |Escaped(v)| + 1, false)
    decreases |s| - i
  {
    if EscapedQuote(s, i) {
      var rest := PhraseThere(s, i + 2);
      v := [QUOTE] + rest;
      assert v[1..] == rest;
      assert Escaped(v) + [QUOTE] == [BACKSLASH, QUOTE] + (Escaped(rest) + [QUOTE]);
      HasAppend(s, i, [BACKSLASH, QUOTE], Escaped(rest) + [QUOTE]);
    } else if s[i] == QUOTE {
      v := [];
    } else {
      var rest := PhraseThere(s, i + 1);
      v := [s[i]] + rest;
      assert v[1..] == rest;
      assert Escaped(v) + [QUOTE] == [s[i]] + (Escaped(rest) + [QUOTE]);
      HasAppend(s, i, [s[i]], Escaped(rest) + [QUOTE]);
    }
  }

  lemma HasAppend(s: string, i: nat, a: string, b: string)
    requires HasAt(s, i, a) && HasAt(s, i + |a|, b)
    ensures HasAt(s, i, a + b)
  {
    forall k | 0 <= k < |a + b| ensures s[i + k] == (a + b)[k] {
      if k >= |a| { assert s[i + |a| + (k - |a|)] == b[k - |a|]; }
    }
  }

  /** The longest word from i on. */
  lemma {:induction false} WordThere(s: string, i: nat) returns (j: nat)
    requires i <= |s| && !QuoteOpen(s, i, false)
    ensures i <= j <= |s| && (forall k :: i <= k < j ==> !IsSpace(s[k]) && s[k] != QUOTE)
    ensures j < |s| ==> IsSpace(s[j]) || s[j] == QUOTE
    ensures !QuoteOpen(s, j, false)
    decreases |s| - i
  {
    if i == |s| || IsSpace(s[i]) || s[i] == QUOTE { j := i; } else { j := WordThere(s, i + 1); }
  }

  /** A text whose quotes are closed is laid out of some tokens. */
  lemma LaysToken(s: string, i: nat, t: Token, rest: seq<Token>, afterWord: bool)
    requires i < |s| && Printable(t) && (afterWord ==> t.quoted) && HasAt(s, i, Printed(t)) && |Printed(t)| > 0
    requires i + |Printed(t)| <= |s| && Laid(s, i + |Printed(t)|, rest, !t.quoted)
    ensures Laid(s, i, [t] + rest, afterWord)
  {
    assert ([t] + rest)[1..] == rest;
    hide IsSpace, Printable, Printed, HasAt;
  }

  lemma {:induction false} SomeTokensLaid(s: string, i: nat, afterWord: bool) returns (ts: seq<Token>)
    requires i <= |s| && !QuoteOpen(s, i, false)
    requires afterWord && i < |s| ==> IsSpace(s[i]) || s[i] == QUOTE
    ensures Laid(s, i, ts, afterWord)
    decreases |s| - i
  {
    hide IsSpace;
    SpaceIsNoQuote();
    if i == |s| {
      ts := [];
    } else if IsSpace(s[i]) {
      ts := SomeTokensLaid(s, i + 1, false);
    } else if s[i] == QUOTE {
      var v := PhraseThere(s, i + 1);
      var t := Token(v, true);
      assert Printed(t) == [QUOTE] + (Escaped(v) + [QUOTE]);
      HasAppend(s, i, [QUOTE], Escaped(v) + [QUOTE]);
      var rest := SomeTokensLaid(s, i + |Printed(t)|, false);
      ts := [t] + rest;
      LaysToken(s, i, t, rest, afterWord);
    } else {
      var j := WordThere(s, i);
      var t := Token(s[i..j], false);
      var rest := SomeTokensLaid(s, j, true);
      ts := [t] + rest;
      LaysToken(s, i, t, rest, afterWord);
    }
  }

  /** An input is cut into exactly the tokens it is laid out of; one that is laid out of none has an open quote. */
  lemma TokenizedIff(s: string, ts: seq<Token>)
    ensures Tokenized(s) == Ok(ts) <==> Laid(s, 0, ts, false)
    ensures Tokenized(s).UnclosedQuote? <==> forall us :: !Laid(s, 0, us, false)
  {
    hide Laid;
    forall us | Laid(s, 0, us, false) ensures Tokenized(s) == Ok(us) {
      ScanLaid(s, 0, us, EMPTY);
      assert [] + us == us;
    }
    UnclosedIff(s);
    if !QuoteOpen(s, 0, false) {
      var us := SomeTokensLaid(s, 0, false);
    }
  }

  lemma LaysSpace(s: string, i: nat, ts: seq<Token>, afterWord: bool)
    requires i < |s| && s[i] == ' ' && Laid(s, i + 1, ts, false)
    ensures Laid(s, i, ts, afterWord)
  {
  }

  lemma LaysNothing(s: string, afterWord: bool)
    ensures Laid(s, |s|, [], afterWord)
  {
  }

  lemma PrintedSize(t: Token)
    requires Printable(t)
    ensures |Printed(t)| > 0
  {
    hide Escaped;
  }

  lemma PlaceOf(s: string, i: nat, v: string)
    requires HasAt(s, i, v)
    ensures i + |v| <= |s| && (|v| == 1 ==> s[i] == v[0])
  {
  }

  lemma {:induction false} PrintIsLaid(s: string, i: nat, ts: seq<Token>)
    requires AllPrintable(ts) && HasAt(s, i, Print(ts)) && i + |Print(ts)| == |s|
    ensures Laid(s, i, ts, false)
    decreases |ts|
  {
    hide Laid, Printed, Printable, HasAt;
    if ts == [] {
      LaysNothing(s, false);
    } else {
      var e := i + |Printed(ts[0])|;
      PrintedSize(ts[0]);
      if |ts| == 1 {
        LaysNothing(s, !ts[0].quoted);
      } else {
        var rest := Print(ts[1..]);
        assert Print(ts) == (Printed(ts[0]) + [' ']) + rest;
        HasJoin(s, i, Printed(ts[0]) + [' '], rest);
        HasJoin(s, i, Printed(ts[0]), [' ']);
        PlaceOf(s, e, [' ']);
        PrintIsLaid(s, e + 1, ts[1..]);
        LaysSpace(s, e, ts[1..], !ts[0].quoted);
      }
      LaysToken(s, i, ts[0], ts[1..], false);
      assert [ts[0]] + ts[1..] == ts;
    }
  }

  /**
   * Tokenizing undoes printing: any list of plain tokens and of phrases that
   * do not end in a backslash is read back as it was.
   */
  lemma TokenizePrint(ts: seq<Token>)
    requires AllPrintable(ts)
    ensures Tokenized(Print(ts)) == Ok(ts)
  {
    hide Tokenized, Laid, Print;
    PrintIsLaid(Print(ts), 0, ts);
    TokenizedIff(Print(ts), ts);
  }

  /** A phrase ending in a backslash swallows its closing quote, so those are exactly the ones not read back. */
  lemma PhraseReadsBackIff(v: string)
    ensures Tokenized(Printed(Token(v, true))) == Ok([Token(v, true)]) <==> v == [] || v[|v| - 1] != BACKSLASH
    ensures v != [] && v[|v| - 1] == BACKSLASH ==> Tokenized(Printed(Token(v, true))).UnclosedQuote?
  {
    var t := Token(v, true);
    if v == [] || v[|v| - 1] != BACKSLASH {
      TokenizePrint([t]);
    } else {
      var s := Printed(t);
      assert s == [QUOTE] + (Escaped(v) + [QUOTE]);
      HasJoin(s, 0, [QUOTE], Escaped(v) + [QUOTE]);
      StaysOpen(s, 1, v);
      UnclosedIff(s);
    }
  }

  lemma {:induction false} StaysOpen(s: string, i: nat, v: string)
    requires v != [] && v[|v| - 1] == BACKSLASH
    requires HasAt(s, i, Escaped(v) + [QUOTE]) && |s| == i + |Escaped(v)| + 1
    ensures QuoteOpen(s, i, true)
    decreases |v|
  {
    var w := Escaped(v) + [QUOTE];
    assert s[i] == w[0] && s[i + 1] == w[1];
    if |v| > 1 {
      var c := if v[0] == QUOTE then [BACKSLASH, QUOTE] else [v[0]];
      assert w == c + (Escaped(v[1..]) + [QUOTE]);
      HasJoin(s, i, c, Escaped(v[1..]) + [QUOTE]);
      StaysOpen(s, i + |c|, v[1..]);
    } else {
      assert Escaped(v[1..]) == [];
    }
  }
}
