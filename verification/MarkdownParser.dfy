/** The markup parser (internal/core/markdown/markdown.go, first half). */
module MarkdownParser {

  import opened Basics
  import opened Entities

  /** What a stretch of source parses to: plain text and its spans. */
  datatype Parsed = Parsed(text: string, spans: seq<Entity>)

  /** What one construct at the cursor yields, and how much source it uses. */
  datatype Taken = Nothing | Took(text: string, spans: seq<Entity>, size: nat)

  datatype Marker = NoMarker | Marker(token: string, kind: Kind)

  // ----- scanning

  /** The next place at or after `from` where `tok` starts, or -1. */
  function Find(s: string, from: nat, tok: string): (r: int)
    ensures r != -1 ==> from <= r < |s| && r + |tok| <= |s| && HasAt(s, r, tok)
    ensures r == -1 ==> forall i: nat :: from <= i < |s| ==> !HasAt(s, i, tok)
    ensures r != -1 ==> forall i: nat :: from <= i < r ==> !HasAt(s, i, tok)
    decreases |s| - from
  {
    if from >= |s| then -1
    else if HasAt(s, from, tok) then from
    else Find(s, from + 1, tok)
  }

  /** Find is pinned down by what it finds. */
  lemma FindIs(s: string, from: nat, tok: string, at: nat)
    requires from <= at < |s| && HasAt(s, at, tok)
    requires forall i: nat :: from <= i < at ==> !HasAt(s, i, tok)
    ensures Find(s, from, tok) == at
  {
  }

  lemma HasAtInSuffix(s: string, pos: nat, i: nat, tok: string)
    requires pos <= |s|
    ensures HasAt(s, pos + i, tok) == HasAt(s[pos..], i, tok)
  {
    assert forall j :: 0 <= j < |s| - pos ==> s[pos..][j] == s[pos + j];
  }

  /** Looking in the rest of the source is looking in the source. */
  lemma FindInSuffix(s: string, pos: nat, from: nat, tok: string)
    requires pos <= |s|
    ensures Find(s, pos + from, tok) ==
            (var r := Find(s[pos..], from, tok); if r == -1 then -1 else pos + r)
  {
    hide HasAt;
    forall i: nat | pos <= i <= |s|
      ensures HasAt(s, i, tok) == HasAt(s[pos..], i - pos, tok)
    {
      HasAtInSuffix(s, pos, i - pos, tok);
    }
    var r := Find(s[pos..], from, tok);
    if r != -1 {
      FindIs(s, pos + from, tok, pos + r);
    } else {
      forall i: nat | pos + from <= i < |s|
        ensures !HasAt(s, i, tok)
      {
        assert !HasAt(s[pos..], i - pos, tok);
      }
    }
  }

  lemma SliceOfSlice(s: string, lo: nat, hi: nat, a: nat, b: nat)
    requires lo <= hi <= |s| && a <= b <= hi - lo
    ensures s[lo..hi][a..b] == s[lo + a..lo + b]
  {
    var u, v := s[lo..hi][a..b], s[lo + a..lo + b];
    assert forall k :: 0 <= k < b - a ==> u[k] == v[k];
  }

  lemma SliceOfRest(s: string, pos: nat, a: nat, b: nat)
    requires pos <= |s| && a <= b <= |s| - pos
    ensures s[pos..][a..b] == s[pos + a..pos + b]
  {
    var u, v := s[pos..][a..b], s[pos + a..pos + b];
    assert forall k :: 0 <= k < b - a ==> u[k] == v[k];
  }

  function IndexRune(s: string, c: char): (r: int)
    ensures r != -1 ==> 0 <= r < |s| && s[r] == c && c !in s[..r]
    ensures r == -1 ==> c !in s
    ensures forall k :: 0 <= k < r ==> s[k] != c
  {
    if s == [] then -1
    else if s[0] == c then 0
    else
      var r := IndexRune(s[1..], c);
      assert s == [s[0]] + s[1..];
      if r == -1 then -1 else (assert s[..r + 1] == [s[0]] + s[1..][..r]; r + 1)
  }

  /** Drops one newline at each edge. */
  function TrimEdges(s: string): string {
    var t := if s != [] && s[0] == '\n' then s[1..] else s;
    if t != [] && t[|t| - 1] == '\n' then t[..|t| - 1] else t
  }

  lemma TrimEdgesIsSlice(s: string) returns (a: nat, b: nat)
    ensures a <= b <= |s| && TrimEdges(s) == s[a..b]
  {
    a := if s != [] && s[0] == '\n' then 1 else 0;
    b := if s[a..] != [] && s[|s| - 1] == '\n' then |s| - 1 else |s|;
    assert s[a..][..b - a] == s[a..b];
  }

  function TrimLeft(s: string): (r: string)
    ensures |r| <= |s|
    ensures r != [] ==> !IsSpace(r[0])
  {
    if s != [] && IsSpace(s[0]) then TrimLeft(s[1..]) else s
  }

  function TrimRight(s: string): (r: string)
    ensures |r| <= |s|
    ensures r != [] ==> !IsSpace(r[|r| - 1])
  {
    if s != [] && IsSpace(s[|s| - 1]) then TrimRight(s[..|s| - 1]) else s
  }

  function TrimSpace(s: string): string { TrimRight(TrimLeft(s)) }

  // ----- the four constructs, at the head of what is left of the source

  /** The language on the opening fence's own line, if there is one, and the rest. */
  function FenceParts(body: string): (string, string) {
    var nl := IndexRune(body, '\n');
    if nl >= 0 && nl > 0 && ' ' !in body[..nl] && '\t' !in body[..nl]
    then (body[..nl], body[nl + 1..])
    else ("", body)
  }

  function Fence(s: string): (r: Taken)
    ensures r.Took? ==> 0 < r.size <= |s|
  {
    if !HasAt(s, 0, "```") then Nothing
    else
      var end := Find(s, 3, "```");
      if end < 0 then Nothing
      else
        var (lang, rest) := FenceParts(s[3..end]);
        var body := TrimEdges(rest);
        if body == [] then Nothing
        else Took(body, [Entity(Pre, 0, |body|, "", lang, 0, 0)], end + 3)
  }

  function InlineCode(s: string): (r: Taken)
    ensures r.Took? ==> 0 < r.size <= |s|
  {
    if !HasAt(s, 0, "`") then Nothing
    else
      var end := Find(s, 1, "`");
      if end < 0 || end == 1 || '\n' in s[1..end] then Nothing
      else Took(s[1..end], [Plain(Code, 0, end - 1)], end + 1)
  }

  /** Where the two halves of a link end, and its target; (-1, -1, "") if none. */
  function LinkShape(s: string): (r: (int, int, string))
    ensures r.0 != -1 ==> 1 < r.0 && r.0 + 2 < r.1 < |s|
    ensures r.0 != -1 ==> HasAt(s, 0, "[") && Find(s, 1, "](") == r.0
  {
    if !HasAt(s, 0, "[") then (-1, -1, "")
    else
      var closeAt := Find(s, 1, "](");
      if closeAt < 0 || closeAt == 1 then (-1, -1, "")
      else
        var end := Find(s, closeAt + 2, ")");
        if end < 0 || end == closeAt + 2 then (-1, -1, "")
        else
          var url := TrimSpace(s[closeAt + 2..end]);
          if url == "" || ' ' in url || '\n' in url then (-1, -1, "")
          else (closeAt, end, url)
  }

  function MarkerAt(s: string): (m: Marker)
    ensures m.Marker? ==> |m.token| == 2 && m.token == TokenOf(m.kind) && HasAt(s, 0, m.token)
  {
    if HasAt(s, 0, "**") then Marker("**", Bold)
    else if HasAt(s, 0, "__") then Marker("__", Italic)
    else if HasAt(s, 0, "~~") then Marker("~~", Strike)
    else if HasAt(s, 0, "||") then Marker("||", Spoiler)
    else NoMarker
  }

  /** The spans of a body moved to where it lands, followed by the span around it. */
  function Wrap(inner: Parsed, around: Entity, size: nat): Taken {
    if inner.text == [] then Nothing
    else Took(inner.text, inner.spans + [around.(length := |inner.text|)], size)
  }

  function Link(s: string): (r: Taken)
    ensures r.Took? ==> 0 < r.size <= |s|
    decreases |s|, 0
  {
    var (closeAt, end, url) := LinkShape(s);
    if closeAt == -1 then Nothing
    else Wrap(ParseRunes(s[1..closeAt]), Entity(TextUrl, 0, 0, url, "", 0, 0), end + 1)
  }

  function Pair(s: string): (r: Taken)
    ensures r.Took? ==> 4 < r.size <= |s|
    decreases |s|, 0
  {
    var m := MarkerAt(s);
    if m.NoMarker? then Nothing
    else
      var end := Find(s, 2, m.token);
      if end < 0 || end == 2 then Nothing
      else Wrap(ParseRunes(s[2..end]), Plain(m.kind, 0, 0), end + 2)
  }

  /** The first construct that matches at the head of `s`. */
  function Step(s: string): (r: Taken)
    ensures r.Took? ==> 0 < r.size <= |s|
    decreases |s|, 1
  {
    if Fence(s).Took? then Fence(s)
    else if InlineCode(s).Took? then InlineCode(s)
    else if Link(s).Took? then Link(s)
    else Pair(s)
  }

  function Append(a: Parsed, b: Parsed): Parsed {
    Parsed(a.text + b.text, a.spans + Shift(b.spans, |a.text|))
  }

  /** What the parser makes of a whole stretch of source. */
  function ParseRunes(s: string): Parsed
    decreases |s|, 2
  {
    if s == [] then Parsed([], [])
    else
      var t := Step(s);
      if t.Took? then Append(Parsed(t.text, t.spans), ParseRunes(s[t.size..]))
      else Append(Parsed([s[0]], []), ParseRunes(s[1..]))
  }

  lemma AppendAssoc(a: Parsed, b: Parsed, c: Parsed)
    ensures Append(Append(a, b), c) == Append(a, Append(b, c))
  {
    assert a.text + b.text + c.text == a.text + (b.text + c.text);
    assert Shift(b.spans + Shift(c.spans, |b.text|), |a.text|)
        == Shift(b.spans, |a.text|) + Shift(c.spans, |a.text + b.text|);
  }

  lemma AppendSpan(a: Parsed, text: string, e: Entity)
    ensures Append(a, Parsed(text, [e])) == Parsed(a.text + text, a.spans + [ShiftOne(e, |a.text|)])
  {
    assert Shift([e], |a.text|) == [ShiftOne(e, |a.text|)];
  }

  lemma AppendNothing(a: Parsed)
    ensures Append(a, Parsed([], [])) == a
    ensures Append(Parsed([], []), a) == a
  {
    assert Shift(a.spans, 0) == a.spans;
  }

  // ----- the parser as the program runs it

  class Parser {
    const input: string
    var pos: nat
    var out: string
    var entities: seq<Entity>

    constructor (input: string)
      ensures this.input == input && pos == 0 && out == [] && entities == []
    {
      this.input := input;
      pos, out, entities := 0, [], [];
    }

    ghost function Done(): Parsed reads this { Parsed(out, entities) }

    /** The state after the construct `t` at the cursor was consumed. */
    twostate predicate Consumed(t: Taken)
      reads this
      requires old(pos) <= |input|
    {
      if t.Took? then pos == old(pos) + t.size && Done() == Append(old(Done()), Parsed(t.text, t.spans))
      else pos == old(pos) && Done() == old(Done())
    }

    predicate Has(tok: string)
      reads this
    {
      HasAt(input, pos, tok)
    }

    method FindFrom(from: nat, tok: string) returns (r: int)
      ensures r == Find(input, from, tok)
    {
      var i := from;
      while i < |input|
        invariant from <= i
        invariant Find(input, from, tok) == Find(input, i, tok)
      {
        if HasAt(input, i, tok) {
          return i;
        }
        i := i + 1;
      }
      return -1;
    }

    method TryFence() returns (ok: bool)
      requires pos <= |input|
      modifies this
      ensures ok == Fence(input[old(pos)..]).Took?
      ensures Consumed(Fence(input[old(pos)..]))
    {
      hide HasAt, TrimEdges, FenceParts;
      ghost var s := input[pos..];
      HasAtInSuffix(input, pos, 0, "```");
      if !Has("```") {
        return false;
      }
      var start := pos + 3;
      var end := FindFrom(start, "```");
      FindInSuffix(input, pos, 3, "```");
      if end < 0 {
        return false;
      }
      var lang, body := SplitFence(input[start..end]);
      SliceOfRest(input, pos, 3, end - pos);
      body := TrimEdges(body);
      if |body| == 0 {
        return false;
      }
      AppendSpan(Done(), body, Entity(Pre, 0, |body|, "", lang, 0, 0));
      entities := entities + [Entity(Pre, |out|, |body|, "", lang, 0, 0)];
      out := out + body;
      pos := end + 3;
      return true;
    }

    static method SplitFence(body: string) returns (lang: string, rest: string)
      ensures (lang, rest) == FenceParts(body)
    {
      lang, rest := "", body;
      var nl := IndexRune(body, '\n');
      if nl >= 0 {
        var head := body[..nl];
        if head != "" && ' ' !in head && '\t' !in head {
          lang := head;
          rest := body[nl + 1..];
        }
      }
    }

    method TryCode() returns (ok: bool)
      requires pos <= |input|
      modifies this
      ensures ok == InlineCode(input[old(pos)..]).Took?
      ensures Consumed(InlineCode(input[old(pos)..]))
    {
      hide HasAt;
      ghost var s := input[pos..];
      HasAtInSuffix(input, pos, 0, "`");
      if !Has("`") {
        return false;
      }
      var end := FindFrom(pos + 1, "`");
      FindInSuffix(input, pos, 1, "`");
      if end < 0 || end == pos + 1 {
        return false;
      }
      var body := input[pos + 1..end];
      SliceOfRest(input, pos, 1, end - pos);
      if IndexRune(body, '\n') >= 0 {
        return false;
      }
      AppendSpan(Done(), body, Plain(Code, 0, |body|));
      entities := entities + [Plain(Code, |out|, |body|)];
      out := out + body;
      pos := end + 1;
      return true;
    }

    method TryLink() returns (ok: bool)
      requires pos <= |input|
      modifies this
      ensures ok == Link(input[old(pos)..]).Took?
      ensures Consumed(Link(input[old(pos)..]))
      decreases |input|, 1
    {
      hide HasAt, TrimSpace, ParseRunes, Wrap;
      ghost var s := input[pos..];
      HasAtInSuffix(input, pos, 0, "[");
      if !Has("[") {
        return false;
      }
      var closeAt := FindFrom(pos + 1, "](");
      FindInSuffix(input, pos, 1, "](");
      if closeAt < 0 || closeAt == pos + 1 {
        return false;
      }
      var end := FindFrom(closeAt + 2, ")");
      FindInSuffix(input, pos, closeAt + 2 - pos, ")");
      if end < 0 || end == closeAt + 2 {
        return false;
      }
      var url := TrimSpace(input[closeAt + 2..end]);
      SliceOfRest(input, pos, closeAt + 2 - pos, end - pos);
      if url == "" || ' ' in url || '\n' in url {
        return false;
      }
      assert LinkShape(s) == (closeAt - pos, end - pos, url);
      SliceOfRest(input, pos, 1, closeAt - pos);
      ok := Nest(input[pos + 1..closeAt], Entity(TextUrl, 0, 0, url, "", 0, 0), end + 1);
    }

    method TryPair() returns (ok: bool)
      requires pos <= |input|
      modifies this
      ensures ok == Pair(input[old(pos)..]).Took?
      ensures Consumed(Pair(input[old(pos)..]))
      decreases |input|, 1
    {
      hide HasAt, ParseRunes, Wrap;
      ghost var s := input[pos..];
      var markers := [Marker("**", Bold), Marker("__", Italic), Marker("~~", Strike), Marker("||", Spoiler)];
      assert markers[0].token == "**" && markers[1].token == "__";
      assert markers[2].token == "~~" && markers[3].token == "||";
      for i := 0 to |markers|
        invariant pos == old(pos) && Done() == old(Done())
        invariant forall k :: 0 <= k < i ==> !HasAt(s, 0, markers[k].token)
      {
        var m := markers[i];
        HasAtInSuffix(input, pos, 0, m.token);
        if Has(m.token) {
          assert MarkerAt(s) == m;
          var bodyStart := pos + |m.token|;
          var end := FindFrom(bodyStart, m.token);
          FindInSuffix(input, pos, 2, m.token);
          if end < 0 || end == bodyStart {
            return false;
          }
          assert s[2..end - pos] == input[bodyStart..end];
          ok := Nest(input[bodyStart..end], Plain(m.kind, 0, 0), end + |m.token|);
          return;
        }
      }
      assert MarkerAt(s) == NoMarker;
      return false;
    }

    /** Parses the body of a span and, if anything is left of it, takes it over. */
    method Nest(body: string, around: Entity, next: nat) returns (ok: bool)
      requires pos < next <= |input| && |body| < |input| - pos
      requires around.offset == 0
      modifies this
      ensures var t := Wrap(ParseRunes(body), around, next - old(pos)); ok == t.Took? && Consumed(t)
      decreases |input|, 0
    {
      var start := |out|;
      var inner := new Parser(body);
      inner.Run();
      var text, es := inner.out, inner.entities;
      if |text| == 0 {
        return false;
      }
      ghost var before := Done();
      out := out + text;
      for i := 0 to |es|
        invariant pos == old(pos) && out == before.text + text
        invariant entities == before.spans + Shift(es[..i], start)
      {
        assert Shift(es[..i + 1], start) == Shift(es[..i], start) + [ShiftOne(es[i], start)];
        entities := entities + [ShiftOne(es[i], start)];
      }
      assert es[..|es|] == es;
      ghost var last := around.(length := |text|);
      entities := entities + [around.(offset := start, length := |text|)];
      assert Shift(es + [last], start) == Shift(es, start) + [ShiftOne(last, start)];
      assert entities == before.spans + Shift(es + [last], start);
      pos := next;
      return true;
    }

    method TryAny() returns (ok: bool)
      requires pos <= |input|
      modifies this
      ensures ok == Step(input[old(pos)..]).Took?
      ensures Consumed(Step(input[old(pos)..]))
      decreases |input|, 2
    {
      ok := TryFence();
      if !ok { ok := TryCode(); }
      if !ok { ok := TryLink(); }
      if !ok { ok := TryPair(); }
    }

    method Run()
      requires pos == 0 && out == [] && entities == []
      modifies this
      ensures Done() == ParseRunes(input)
      decreases |input|, 3
    {
      AppendNothing(ParseRunes(input));
      while pos < |input|
        invariant pos <= |input|
        invariant Append(Done(), ParseRunes(input[pos..])) == ParseRunes(input)
        decreases |input| - pos
      {
        ghost var s, before, was := input[pos..], Done(), pos;
        var ok := TryAny();
        if ok {
          ghost var t := Step(s);
          assert Done() == Append(before, Parsed(t.text, t.spans));
          AppendAssoc(before, Parsed(t.text, t.spans), ParseRunes(s[t.size..]));
          assert s[t.size..] == input[pos..];
          continue;
        }
        out := out + [input[pos]];
        pos := pos + 1;
        assert Shift([], |before.text|) == [];
        assert Done() == Append(before, Parsed([s[0]], []));
        AppendAssoc(before, Parsed([s[0]], []), ParseRunes(s[1..]));
        assert s[1..] == input[pos..];
      }
      AppendNothing(Done());
    }
  }

  // ----- Parse

  const MARKER_RUNES := "*_~|`["

  predicate ContainsMarker(src: string) {
    exists i :: 0 <= i < |src| && src[i] in MARKER_RUNES
  }

  lemma NoTokenHere(src: string, tok: string)
    requires src != [] && tok != [] && src[0] != tok[0]
    ensures !HasAt(src, 0, tok)
  {
    if |tok| <= |src| { assert src[0 + 0] != tok[0]; }
  }

  lemma NoMarkupHere(src: string)
    requires src != [] && src[0] !in MARKER_RUNES
    ensures Step(src) == Nothing
  {
    hide HasAt, Find;
    assert src[0] != '*' && src[0] != '_' && src[0] != '~' && src[0] != '|' && src[0] != '`' && src[0] != '[' by {
      assert MARKER_RUNES == ['*', '_', '~', '|', '`', '['];
    }
    NoTokenHere(src, "```"); NoTokenHere(src, "`"); NoTokenHere(src, "[");
    NoTokenHere(src, "**"); NoTokenHere(src, "__"); NoTokenHere(src, "~~"); NoTokenHere(src, "||");
  }

  /** Nothing is markup in a text without marker runes. */
  lemma {:induction false} PlainParsesToItself(src: string)
    requires !ContainsMarker(src)
    ensures ParseRunes(src) == Parsed(src, [])
  {
    if src != [] {
      assert src[0] !in MARKER_RUNES;
      hide Step;
      NoMarkupHere(src);
      assert forall i :: 0 <= i < |src[1..]| ==> src[1..][i] == src[i + 1];
      PlainParsesToItself(src[1..]);
      assert [src[0]] + src[1..] == src;
    }
  }

  /** The plain text of a source and its spans, in order. */
  method Parse(src: string) returns (text: string, es: seq<Entity>)
    ensures text == ParseRunes(src).text
    ensures es == SortEntities(ParseRunes(src).spans)
  {
    if src == "" || !ContainsMarker(src) {
      PlainParsesToItself(src);
      return src, [];
    }
    var p := new Parser(src);
    p.Run();
    if |p.out| == 0 {
      ParseKeepsText(src);
      assert false;
    }
    if |p.entities| == 0 {
      return p.out, [];
    }
    return p.out, SortEntities(p.entities);
  }

  // ----- what every parse yields

  /** `a` is `b` with some runes left out. */
  ghost predicate Subsequence(a: string, b: string) {
    a == [] ||
    (b != [] && ((a[0] == b[0] && Subsequence(a[1..], b[1..])) || Subsequence(a, b[1..])))
  }

  lemma {:induction false} SubsequenceAppend(a: string, b: string, c: string, d: string)
    requires Subsequence(a, b) && Subsequence(c, d)
    ensures Subsequence(a + c, b + d)
    decreases |b|
  {
    if b == [] {
      assert a + c == c && b + d == d;
    } else {
      assert (b + d)[1..] == b[1..] + d;
      if a != [] && a[0] == b[0] && Subsequence(a[1..], b[1..]) {
        SubsequenceAppend(a[1..], b[1..], c, d);
        assert (a + c)[1..] == a[1..] + c;
      } else {
        SubsequenceAppend(a, b[1..], c, d);
      }
    }
  }

  /** Cutting runes away before and after leaves a subsequence. */
  lemma SubsequenceWithin(a: string, b: string, lo: nat, hi: nat)
    requires lo <= hi <= |b| && Subsequence(a, b[lo..hi])
    ensures Subsequence(a, b)
  {
    SubsequenceAppend([], b[..lo], a, b[lo..hi]);
    SubsequenceAppend([] + a, b[..lo] + b[lo..hi], [], b[hi..]);
    assert [] + a + [] == a;
    assert b[..lo] + b[lo..hi] + b[hi..] == b;
  }

  lemma {:induction false} SubsequenceSelf(a: string)
    ensures Subsequence(a, a)
  {
    if a != [] { SubsequenceSelf(a[1..]); }
  }

  lemma FencePartsIsSuffix(body: string)
    ensures |FenceParts(body).1| <= |body|
    ensures FenceParts(body).1 == body[|body| - |FenceParts(body).1|..]
  {
  }

  lemma FenceKeepsText(s: string)
    requires Fence(s).Took?
    ensures Subsequence(Fence(s).text, s[..Fence(s).size])
  {
    hide HasAt, FenceParts, TrimEdges, Subsequence;
    var t := Fence(s);
    var end := Find(s, 3, "```");
    var (lang, rest) := FenceParts(s[3..end]);
    FencePartsIsSuffix(s[3..end]);
    var lo: nat := end - |rest|;
    SliceOfSlice(s, 3, end, lo - 3, end - 3);
    var a, b := TrimEdgesIsSlice(rest);
    SliceOfSlice(s, lo, end, a, b);
    SliceOfSlice(s, 0, t.size, lo + a, lo + b);
    SubsequenceSelf(t.text);
    SubsequenceWithin(t.text, s[..t.size], lo + a, lo + b);
  }

  lemma {:induction false} StepKeepsText(s: string)
    requires Step(s).Took?
    ensures Step(s).text != [] && Subsequence(Step(s).text, s[..Step(s).size])
    decreases |s|, 0
  {
    hide HasAt, FenceParts, TrimEdges, Subsequence;
    var t := Step(s);
    if Fence(s).Took? {
      FenceKeepsText(s);
    } else if InlineCode(s).Took? {
      SliceOfSlice(s, 0, t.size, 1, t.size - 1);
      SubsequenceSelf(t.text);
      SubsequenceWithin(t.text, s[..t.size], 1, t.size - 1);
    } else if Link(s).Took? {
      var (closeAt, end, url) := LinkShape(s);
      ParseKeepsText(s[1..closeAt]);
      SliceOfSlice(s, 0, t.size, 1, closeAt);
      SubsequenceWithin(t.text, s[..t.size], 1, closeAt);
    } else {
      ParseKeepsText(s[2..t.size - 2]);
      SliceOfSlice(s, 0, t.size, 2, t.size - 2);
      SubsequenceWithin(t.text, s[..t.size], 2, t.size - 2);
    }
  }

  /** A parse only ever leaves runes out, and never all of them. */
  lemma {:induction false} ParseKeepsText(s: string)
    ensures Subsequence(ParseRunes(s).text, s)
    ensures s != [] ==> ParseRunes(s).text != []
    decreases |s|, 1
  {
    if s != [] {
      var t := Step(s);
      var n := if t.Took? then t.size else 1;
      ParseKeepsText(s[n..]);
      if t.Took? {
        StepKeepsText(s);
        SubsequenceAppend(t.text, s[..n], ParseRunes(s[n..]).text, s[n..]);
      } else {
        SubsequenceSelf([s[0]]);
        assert s[..1] == [s[0]];
        SubsequenceAppend([s[0]], s[..1], ParseRunes(s[1..]).text, s[1..]);
      }
      assert s[..n] + s[n..] == s;
    }
  }

  ghost predicate NoToken(s: string, tok: string) {
    forall i: nat :: i < |s| ==> !HasAt(s, i, tok)
  }

  lemma NoTokenWithin(s: string, tok: string, lo: nat, hi: nat)
    requires lo <= hi <= |s|
    requires forall i: nat :: lo <= i < hi && i + |tok| <= hi ==> !HasAt(s, i, tok)
    requires tok != []
    ensures NoToken(s[lo..hi], tok)
  {
    forall i: nat | i < |s[lo..hi]|
      ensures !HasAt(s[lo..hi], i, tok)
    {
      if i + |tok| <= hi - lo {
        assert !HasAt(s, lo + i, tok);
        var k :| 0 <= k < |tok| && s[lo + i + k] != tok[k];
        assert s[lo..hi][i + k] == s[lo + i + k];
      }
    }
  }

  /** The token a span of this kind cannot do without. */
  function TokenOf(k: Kind): string {
    match k
    case Bold => "**" case Italic => "__" case Strike => "~~" case Spoiler => "||"
    case TextUrl => "](" case Pre => "```" case Code => "`"
    case _ => ""
  }

  ghost predicate NoneOfKind(es: seq<Entity>, k: Kind) {
    forall i :: 0 <= i < |es| ==> es[i].kind != k
  }

  lemma {:induction false} StepNoSpan(s: string, k: Kind)
    requires TokenOf(k) != "" && !k.Pre? && !k.Code?
    requires NoToken(s, TokenOf(k)) && Step(s).Took?
    ensures NoneOfKind(Step(s).spans, k)
    decreases |s|, 0
  {
    hide HasAt, TrimSpace, FenceParts, TrimEdges;
    var t, tok := Step(s), TokenOf(k);
    if !Fence(s).Took? && !InlineCode(s).Took? {
      if Link(s).Took? {
        var (closeAt, end, url) := LinkShape(s);
        NoTokenWithin(s, tok, 1, closeAt);
        NoTokenNoSpan(s[1..closeAt], k);
        assert !HasAt(s, closeAt, tok);
      } else {
        var m := MarkerAt(s);
        NoTokenWithin(s, tok, 2, t.size - 2);
        NoTokenNoSpan(s[2..t.size - 2], k);
        assert !HasAt(s, 0, tok);
        assert m.kind != k;
        assert t == Wrap(ParseRunes(s[2..t.size - 2]), Plain(m.kind, 0, 0), t.size);
      }
    }
  }

  /** Without its token in the source, a parse yields no span of that kind. */
  lemma {:induction false} NoTokenNoSpan(s: string, k: Kind)
    requires TokenOf(k) != "" && !k.Pre? && !k.Code?
    requires NoToken(s, TokenOf(k))
    ensures NoneOfKind(ParseRunes(s).spans, k)
    decreases |s|, 1
  {
    hide HasAt, Step;
    if s != [] {
      var t, tok := Step(s), TokenOf(k);
      var n := if t.Took? then t.size else 1;
      assert forall i: nat :: i < |s| ==> !HasAt(s, i, tok);
      NoTokenWithin(s, tok, n, |s|);
      assert s[n..|s|] == s[n..];
      NoTokenNoSpan(s[n..], k);
      if t.Took? { StepNoSpan(s, k); }
    }
  }

  lemma LaminarWrap(es: seq<Entity>, around: Entity, n: int)
    requires InBounds(es, n) && Laminar(es) && NoneOfKind(es, around.kind)
    requires around.offset == 0 && around.length == n > 0 && !Leaf(around)
    ensures InBounds(es + [around], n) && Laminar(es + [around])
  {
    var all := es + [around];
    forall i, j | 0 <= i < j < |all|
      ensures Compatible(all[i], all[j])
    {
      if j < |es| { assert Compatible(es[i], es[j]); }
    }
  }

  lemma LaminarAppend(a: Parsed, b: Parsed)
    requires InBounds(a.spans, |a.text|) && Laminar(a.spans)
    requires InBounds(b.spans, |b.text|) && Laminar(b.spans)
    ensures InBounds(Append(a, b).spans, |Append(a, b).text|) && Laminar(Append(a, b).spans)
  {
    var all := Append(a, b).spans;
    forall i, j | 0 <= i < j < |all|
      ensures Compatible(all[i], all[j])
    {
      if j < |a.spans| {
        assert Compatible(a.spans[i], a.spans[j]);
      } else if i >= |a.spans| {
        assert Compatible(b.spans[i - |a.spans|], b.spans[j - |a.spans|]);
      }
    }
  }

  lemma {:induction false} StepIsLaminar(s: string)
    requires Step(s).Took?
    ensures InBounds(Step(s).spans, |Step(s).text|) && Laminar(Step(s).spans)
    decreases |s|, 0
  {
    hide HasAt, Compatible;
    var t := Step(s);
    if !Fence(s).Took? && !InlineCode(s).Took? {
      if Link(s).Took? {
        var (closeAt, end, url) := LinkShape(s);
        ParseIsLaminar(s[1..closeAt]);
        NoTokenWithin(s, "](", 1, closeAt);
        NoTokenNoSpan(s[1..closeAt], TextUrl);
        LaminarWrap(ParseRunes(s[1..closeAt]).spans, t.spans[|t.spans| - 1], |t.text|);
      } else {
        var m := MarkerAt(s);
        var end := Find(s, 2, m.token);
        ParseIsLaminar(s[2..end]);
        NoTokenWithin(s, m.token, 2, end);
        NoTokenNoSpan(s[2..end], m.kind);
        LaminarWrap(ParseRunes(s[2..end]).spans, t.spans[|t.spans| - 1], |t.text|);
      }
    }
  }

  /** The spans of a parse lie in its text and are laminar. */
  lemma {:induction false} ParseIsLaminar(s: string)
    ensures InBounds(ParseRunes(s).spans, |ParseRunes(s).text|)
    ensures Laminar(ParseRunes(s).spans)
    decreases |s|, 1
  {
    if s != [] {
      var t := Step(s);
      if t.Took? {
        StepIsLaminar(s);
        ParseIsLaminar(s[t.size..]);
        LaminarAppend(Parsed(t.text, t.spans), ParseRunes(s[t.size..]));
      } else {
        ParseIsLaminar(s[1..]);
        LaminarAppend(Parsed([s[0]], []), ParseRunes(s[1..]));
      }
    }
  }

  /** What Parse returns, for every source. */
  lemma ParseWellFormed(src: string)
    ensures var (text, es) := (ParseRunes(src).text, SortEntities(ParseRunes(src).spans));
      && Subsequence(text, src) && (src != [] ==> text != [])
      && Sorted(es) && InBounds(es, |text|) && Laminar(es)
      && multiset(es) == multiset(ParseRunes(src).spans)
  {
    var p := ParseRunes(src);
    ParseKeepsText(src);
    ParseIsLaminar(src);
    SortEntitiesSorts(p.spans);
    LaminarIsOrderFree(p.spans, SortEntities(p.spans), |p.text|);
  }
}
