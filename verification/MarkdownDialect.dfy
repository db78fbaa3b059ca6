/**
 * The dialect in its own characters (internal/core/markdown/markdown.go): what
 * every span of a parse covers and carries, what is refused and left as typed,
 * and what each kind is read from and written as.
 */
module MarkdownDialect {

  import opened Basics
  import opened Entities
  import opened MarkdownParser
  import opened MarkdownScan
  import opened MarkdownRender
  import opened MarkdownNesting
  import opened MarkdownRoundTrip

  // ----- what every span covers and carries

  predicate OneLineCode(inside: string) { inside != "" && '\n' !in inside && '`' !in inside }

  /** One word on the fence's line, or none. */
  predicate OneWord(lang: string) { ' ' !in lang && '\t' !in lang && '\n' !in lang }

  /** A target that is not empty, holds no blank or newline, and no space of any kind at its ends. */
  predicate Target(url: string) {
    url != "" && ' ' !in url && '\n' !in url && !IsSpace(url[0]) && !IsSpace(url[|url| - 1])
  }

  predicate Covers(text: string, e: Entity) {
    && 0 <= e.offset < e.End() <= |text|
    && (e.kind == Code ==> OneLineCode(text[e.offset..e.End()]))
    && (e.kind == Pre ==> OneWord(e.language))
    && (e.kind == TextUrl ==> Target(e.url) && ')' !in e.url)
  }

  predicate AllCover(text: string, es: seq<Entity>) {
    forall i :: 0 <= i < |es| ==> Covers(text, es[i])
  }

  lemma CoverAppend(a: Parsed, b: Parsed)
    requires AllCover(a.text, a.spans) && AllCover(b.text, b.spans)
    ensures AllCover(Append(a, b).text, Append(a, b).spans)
  {
    var r := Append(a, b);
    forall i | 0 <= i < |r.spans| ensures Covers(r.text, r.spans[i]) {
      var e := r.spans[i];
      if i < |a.spans| {
        assert Covers(a.text, e);
        assert r.text[e.offset..e.End()] == a.text[e.offset..e.End()];
      } else {
        var f := b.spans[i - |a.spans|];
        assert Covers(b.text, f) && e == ShiftOne(f, |a.text|);
        assert r.text[e.offset..e.End()] == b.text[f.offset..f.End()];
      }
    }
  }

  lemma CoverWrap(inner: Parsed, around: Entity)
    requires AllCover(inner.text, inner.spans) && Covers(inner.text, around)
    ensures AllCover(inner.text, inner.spans + [around])
  {
    hide Covers;
  }

  lemma FencePartsOneWord(body: string)
    ensures OneWord(FenceParts(body).0)
  {
  }

  lemma TrimmedEnds(s: string)
    ensures TrimSpace(s) != "" ==> !IsSpace(TrimSpace(s)[0]) && !IsSpace(TrimSpace(s)[|TrimSpace(s)| - 1])
    ensures forall c :: c in TrimSpace(s) ==> c in s
  {
    TrimRightPrefix(TrimLeft(s));
    TrimLeftSuffix(s);
  }

  lemma {:induction false} TrimRightPrefix(s: string)
    ensures TrimRight(s) <= s
  {
    if s != [] && IsSpace(s[|s| - 1]) { TrimRightPrefix(s[..|s| - 1]); }
  }

  lemma {:induction false} TrimLeftSuffix(s: string)
    ensures forall c :: c in TrimLeft(s) ==> c in s
  {
    if s != [] && IsSpace(s[0]) { TrimLeftSuffix(s[1..]); }
  }

  /** What a link's two halves are, in the characters of the source. */
  lemma LinkShapeTarget(s: string)
    requires LinkShape(s).0 != -1
    ensures Target(LinkShape(s).2) && ')' !in LinkShape(s).2
  {
    hide HasAt, TrimSpace, IsSpace;
    var (closeAt, end, url) := LinkShape(s);
    TrimmedEnds(s[closeAt + 2..end]);
    NoneBefore(s, closeAt + 2, end, ')');
  }

  /** Up to where a rune is found it does not stand. */
  lemma NoneBefore(s: string, from: nat, end: nat, c: char)
    requires from <= end <= |s| && Find(s, from, [c]) == end
    ensures c !in s[from..end]
  {
    forall i | from <= i < end ensures s[i] != c {
      assert !HasAt(s, i, [c]);
      assert s[i + 0] != [c][0];
    }
  }

  lemma CodeCovers(s: string)
    requires InlineCode(s).Took?
    ensures AllCover(InlineCode(s).text, InlineCode(s).spans)
  {
    hide HasAt;
    var end := Find(s, 1, "`");
    assert "`" == ['`'];
    NoneBefore(s, 1, end, '`');
    assert s[1..end][0..end - 1] == s[1..end];
  }

  lemma FenceCovers(s: string)
    requires Fence(s).Took?
    ensures AllCover(Fence(s).text, Fence(s).spans)
  {
    hide HasAt, Find, TrimEdges, FenceParts;
    FencePartsOneWord(s[3..Find(s, 3, "```")]);
  }

  lemma {:induction false} StepCovers(s: string)
    requires Step(s).Took?
    ensures AllCover(Step(s).text, Step(s).spans)
    decreases |s|, 0
  {
    hide HasAt, Covers, Fence, InlineCode, Find, AllCover;
    var t := Step(s);
    if Fence(s).Took? {
      FenceCovers(s);
    } else if InlineCode(s).Took? {
      CodeCovers(s);
    } else if Link(s).Took? {
      var (closeAt, end, url) := LinkShape(s);
      SpansCover(s[1..closeAt]);
      LinkShapeTarget(s);
      LinkCovers(t.text, url);
      CoverWrap(ParseRunes(s[1..closeAt]), Entity(TextUrl, 0, |t.text|, url, "", 0, 0));
    } else {
      var m := MarkerAt(s);
      var end := Find(s, 2, m.token);
      SpansCover(s[2..end]);
      PairCovers(t.text, m.kind, s);
      CoverWrap(ParseRunes(s[2..end]), Plain(m.kind, 0, |t.text|));
    }
  }

  lemma LinkCovers(text: string, url: string)
    requires text != "" && Target(url) && ')' !in url
    ensures Covers(text, Entity(TextUrl, 0, |text|, url, "", 0, 0))
  {
  }

  lemma PairCovers(text: string, k: Kind, s: string)
    requires text != "" && MarkerAt(s).Marker? && k == MarkerAt(s).kind
    ensures Covers(text, Plain(k, 0, |text|))
  {
  }

  /**
   * Whatever is typed: inline code covers one line without a backtick, a
   * fence's language is one word, and a link's target is not empty and holds
   * no blank, no newline and no closing parenthesis.
   */
  lemma {:induction false} SpansCover(s: string)
    ensures AllCover(ParseRunes(s).text, ParseRunes(s).spans)
    decreases |s|, 1
  {
    hide Step, Covers, AllCover;
    if s == [] {
      assert AllCover([], []) by { NothingCovers([]); }
    } else {
      var t := Step(s);
      var n := if t.Took? then t.size else 1;
      SpansCover(s[n..]);
      if t.Took? {
        StepCovers(s);
        CoverAppend(Parsed(t.text, t.spans), ParseRunes(s[n..]));
      } else {
        NothingCovers([s[0]]);
        CoverAppend(Parsed([s[0]], []), ParseRunes(s[1..]));
      }
    }
  }

  lemma NothingCovers(text: string)
    ensures AllCover(text, [])
  {
  }

  // ----- what is left as typed

  /** Where nothing starts at any place, the source is its own text. */
  lemma {:induction false} NothingStarts(s: string)
    requires forall i :: 0 <= i < |s| ==> Step(s[i..]) == Nothing
    ensures ParseRunes(s) == Parsed(s, [])
    decreases |s|
  {
    hide Step, ParseRunes;
    if s == [] {
      NothingParsed();
    } else {
      forall i | 0 <= i < |s[1..]| ensures Step(s[1..][i..]) == Nothing { assert s[1..][i..] == s[i + 1..]; }
      NothingStarts(s[1..]);
      assert s[0..] == s;
      assert s == [s[0]] + s[1..];
      LoneRune(s[0], s[1..], s);
    }
  }

  lemma NothingParsed()
    ensures ParseRunes([]) == Parsed([], [])
  {
  }

  /** Apart from some places, no rune of the source can start anything. */
  lemma StaysTyped(s: string, places: set<nat>)
    requires forall i :: 0 <= i < |s| && i !in places ==> s[i] !in MARKER_RUNES
    requires forall i :: i in places && i < |s| ==> Step(s[i..]) == Nothing
    ensures ParseRunes(s) == Parsed(s, [])
  {
    hide Step, ParseRunes;
    forall i | 0 <= i < |s| ensures Step(s[i..]) == Nothing {
      if i !in places { NoMarkupHere(s[i..]); }
    }
    NothingStarts(s);
  }

  lemma NoMarkers(s: string, i: int)
    requires !ContainsMarker(s) && 0 <= i < |s|
    ensures s[i] !in MARKER_RUNES && s[i] != '`' && s[i] != '[' && !MarkerRune(s[i])
  {
    assert MARKER_RUNES == ['*', '_', '~', '|', '`', '['];
  }

  lemma NotAFence(s: string)
    requires s != [] && (|s| == 1 || s[1] != '`')
    ensures !HasAt(s, 0, "```") && !Fence(s).Took?
  {
    if |s| > 1 { assert s[0 + 1] != "```"[1]; }
  }

  lemma BacktickOnly(s: string)
    requires s != [] && s[0] == '`' && !Fence(s).Took? && !InlineCode(s).Took?
    ensures Step(s) == Nothing
  {
    hide Fence, InlineCode, Find;
    NoTokenHere(s, "["); NoTokenHere(s, "**"); NoTokenHere(s, "__"); NoTokenHere(s, "~~"); NoTokenHere(s, "||");
  }

  /** A backtick at whose partner the line has ended, and one without a partner, start nothing. */
  lemma BrokenCode(a: string, rest: string)
    requires '\n' in a && '`' !in a
    ensures Step("`" + a + "`" + rest) == Nothing
  {
    hide Fence, HasAt, Find;
    var s := "`" + a + "`" + rest;
    assert s[1] == a[0];
    NotAFence(s);
    FindOne("`", a, '`', rest);
    assert "`" == ['`'];
    assert s[1..1 + |a|] == a;
    BacktickOnly(s);
  }

  lemma LoneBacktick(rest: string)
    requires '`' !in rest
    ensures Step("`" + rest) == Nothing
  {
    hide Fence, HasAt;
    var s := "`" + rest;
    if rest != [] { assert s[1] == rest[0]; }
    NotAFence(s);
    forall i: nat | 1 <= i < |s| ensures !HasAt(s, i, "`") { assert s[i] == rest[i - 1]; NoBacktickAt(s, i); }
    BacktickOnly(s);
  }

  lemma NoBacktickAt(s: string, i: nat)
    requires i < |s| && s[i] != '`'
    ensures !HasAt(s, i, "`")
  {
    assert s[i + 0] != "`"[0];
  }

  /** Backticks around text that runs over a line are left as typed. */
  lemma CodeAcrossLinesStays(p: string, a: string, q: string)
    requires !ContainsMarker(p) && !ContainsMarker(a) && !ContainsMarker(q) && '\n' in a
    ensures ParseRunes(p + "`" + a + "`" + q) == Parsed(p + "`" + a + "`" + q, [])
  {
    hide Step, ParseRunes, ContainsMarker;
    var s := p + "`" + a + "`" + q;
    var i, j := |p|, |p| + 1 + |a|;
    NoBackticks(a);
    NoBackticks(q);
    assert s[i..] == "`" + a + "`" + q && s[j..] == "`" + q;
    BrokenCode(a, q);
    LoneBacktick(q);
    forall k | 0 <= k < |s| && k !in {i, j} ensures s[k] !in MARKER_RUNES {
      if k < i { NoMarkers(p, k); } else if k < j { NoMarkers(a, k - i - 1); } else { NoMarkers(q, k - j - 1); }
    }
    StaysTyped(s, {i, j});
  }

  lemma NoBackticks(s: string)
    requires !ContainsMarker(s)
    ensures '`' !in s && '[' !in s
  {
    forall i | 0 <= i < |s| ensures s[i] != '`' && s[i] != '[' { NoMarkers(s, i); }
  }

  /** A bracket that no link takes up starts nothing. */
  lemma BracketOnly(s: string)
    requires s != [] && s[0] == '[' && LinkShape(s).0 == -1
    ensures Step(s) == Nothing
  {
    hide LinkShape, Find;
    BracketHere(s);
    NoTokenHere(s, "**"); NoTokenHere(s, "__"); NoTokenHere(s, "~~"); NoTokenHere(s, "||");
  }

  /** A target is refused when nothing but space is in it, or a blank or a newline inside. */
  predicate BadTarget(target: string) {
    var url := TrimSpace(target);
    url == "" || ' ' in url || '\n' in url
  }

  lemma BrokenLink(shown: string, target: string, rest: string)
    requires NoPair(shown, ']', '(') && ')' !in target && (shown == "" || BadTarget(target))
    ensures Step("[" + shown + "](" + target + ")" + rest) == Nothing
  {
    hide TrimSpace, HasAt, Find, NoPair, Step;
    var s := "[" + shown + "](" + target + ")" + rest;
    LinkFinds(shown, target, rest);
    BracketOnly(s);
  }

  lemma NothingTrimmed()
    ensures BadTarget("")
  {
  }

  /** A link without a label, or to a target that is refused, is left as typed. */
  lemma BrokenLinkStays(p: string, shown: string, target: string, q: string)
    requires !ContainsMarker(p) && !ContainsMarker(shown) && !ContainsMarker(target) && !ContainsMarker(q)
    requires NoPair(shown, ']', '(') && ')' !in target && (shown == "" || target == "" || BadTarget(target))
    ensures ParseRunes(p + "[" + shown + "](" + target + ")" + q) == Parsed(p + "[" + shown + "](" + target + ")" + q, [])
  {
    hide Step, ParseRunes, ContainsMarker, BadTarget, NoPair;
    var s := p + "[" + shown + "](" + target + ")" + q;
    NothingTrimmed();
    BrokenLink(shown, target, q);
    assert s[|p|..] == "[" + shown + "](" + target + ")" + q;
    forall k | 0 <= k < |s| && k !in {|p|} ensures s[k] !in MARKER_RUNES { NoMarkerInLink(p, shown, target, q, k); }
    StaysTyped(s, {|p|});
  }

  lemma NoMarkerInLink(p: string, shown: string, target: string, q: string, k: nat)
    requires !ContainsMarker(p) && !ContainsMarker(shown) && !ContainsMarker(target) && !ContainsMarker(q)
    requires k != |p| && k < |p + "[" + shown + "](" + target + ")" + q|
    ensures (p + "[" + shown + "](" + target + ")" + q)[k] !in MARKER_RUNES
  {
    hide ContainsMarker;
    var a, b, c := |p| + 1, |p| + 1 + |shown|, |p| + 3 + |shown| + |target|;
    if k < |p| { NoMarkers(p, k); }
    else if k < b { NoMarkers(shown, k - a); }
    else if b + 2 <= k < c { NoMarkers(target, k - b - 2); }
    else if k > c { NoMarkers(q, k - c - 1); }
  }

  /** Markers with nothing between them are left as typed. */
  lemma EmptyPairStays(c: char)
    requires MarkerRune(c)
    ensures ParseRunes([c, c, c, c]) == Parsed([c, c, c, c], [])
  {
    hide Step, ParseRunes;
    var s := [c, c, c, c];
    EmptyPair(c);
    assert s[0..] == s && s[1..] == [c, c, c] && s[2..] == [c, c] && s[3..] == [c];
    NothingStarts(s);
  }

  lemma EmptyPair(c: char)
    requires MarkerRune(c)
    ensures Step([c, c, c, c]) == Nothing && Step([c, c, c]) == Nothing && Step([c, c]) == Nothing && Step([c]) == Nothing
  {
    hide Fence, InlineCode, Link, ParseRunes, HasAt;
    var k := if c == '*' then Bold else if c == '_' then Italic else if c == '~' then Strike else Spoiler;
    var m := [c, c];
    MarkerHere(k, [c, c, c, c]);
    MarkerHere(k, [c, c, c]);
    MarkerHere(k, [c, c]);
    NoStepAt([c]);
    HasTwo([c, c, c, c], 2, c);
    HasTwo([c, c, c], 2, c);
    HasTwo([c, c], 2, c);
    FindIs([c, c, c, c], 2, m, 2);
    assert Find([c, c, c], 2, m) == -1;
    assert Find([c, c], 2, m) == -1;
  }

  lemma HasTwo(s: string, i: nat, c: char)
    requires forall k :: 0 <= k < |s| ==> s[k] == c
    ensures forall j: nat :: HasAt(s, j, [c, c]) <==> j + 2 <= |s|
  {
  }

  // ----- what is read

  /** Each pair of markers around plain text is its own kind of span over it. */
  lemma PairsRead(a: string)
    requires a != "" && !ContainsMarker(a)
    ensures ParseRunes("**" + a + "**") == Parsed(a, [Plain(Bold, 0, |a|)])
    ensures ParseRunes("__" + a + "__") == Parsed(a, [Plain(Italic, 0, |a|)])
    ensures ParseRunes("~~" + a + "~~") == Parsed(a, [Plain(Strike, 0, |a|)])
    ensures ParseRunes("||" + a + "||") == Parsed(a, [Plain(Spoiler, 0, |a|)])
  {
    hide Step, ParseRunes, ContainsMarker;
    PairReads(Bold, "**", a);
    PairReads(Italic, "__", a);
    PairReads(Strike, "~~", a);
    PairReads(Spoiler, "||", a);
  }

  lemma PairReads(k: Kind, token: string, a: string)
    requires Paired(k) && token == TokenOf(k) && |token| == 2 && a != "" && !ContainsMarker(a)
    ensures ParseRunes(token + a + token) == Parsed(a, [Plain(k, 0, |a|)])
  {
    hide Step, ParseRunes, ContainsMarker, TokenOf, NoPair;
    var s := token + a + token;
    PlainParsesToItself(a);
    NoMarkerPairs(a, RuneOf(k));
    StepPaired(k, a, "");
    assert s + "" == s;
    WholeStep(s);
    AppendNothing(Parsed(a, [] + [Plain(k, 0, |a|)]));
    assert [] + [Plain(k, 0, |a|)] == [Plain(k, 0, |a|)];
  }

  lemma NoMarkerPairs(a: string, c: char)
    requires !ContainsMarker(a) && MarkerRune(c) && a != ""
    ensures NoPair(a, c, c) && !EndsWith(a, c)
  {
    hide ContainsMarker;
    forall i | 0 <= i < |a| ensures a[i] != c { NoMarkers(a, i); }
  }

  /** A construct that takes the whole source. */
  lemma WholeStep(s: string)
    requires Step(s).Took? && Step(s).size == |s|
    ensures ParseRunes(s) == Append(Parsed(Step(s).text, Step(s).spans), Parsed([], []))
  {
    hide Step;
    assert s[|s|..] == [];
  }

  /** A line behind the opening fence with a blank in it is code, not a language. */
  lemma BlankLineIsCode(line: string, code: string, rest: string)
    requires '`' !in line && '\n' !in line && (' ' in line || '\t' in line) && '`' !in code
    ensures var t := "```" + line + "\n" + code + "\n```";
            var body := line + "\n" + code;
            Step(t + rest) == Took(body, [Entity(Pre, 0, |body|, "", "", 0, 0)], |t|)
  {
    hide InlineCode, Link, Pair, FenceParts, TrimEdges, Step;
    var s := "```" + line + "\n" + code + "\n```" + rest;
    var body := line + "\n" + code;
    FenceHere(line, code, rest);
    BlankParts(line, code + "\n");
    assert line + "\n" + (code + "\n") == body + "\n";
    TrimsLast(body);
    FenceFirst(s);
  }

  lemma BlankParts(line: string, tail: string)
    requires '\n' !in line && (' ' in line || '\t' in line)
    ensures FenceParts(line + "\n" + tail) == ("", line + "\n" + tail)
  {
    var body := line + "\n" + tail;
    assert body[|line|] == '\n' && body[..|line|] == line;
    assert IndexRune(body, '\n') == |line|;
  }

  lemma TrimsLast(body: string)
    requires body != "" && body[0] != '\n'
    ensures TrimEdges(body + "\n") == body
  {
    assert (body + "\n")[..|body|] == body;
  }

  /** A fence with its code on one line has no language. */
  lemma OneLineFence(code: string, rest: string)
    requires code != "" && '`' !in code && '\n' !in code
    ensures var t := "```" + code + "```";
            Step(t + rest) == Took(code, [Entity(Pre, 0, |code|, "", "", 0, 0)], |t|)
  {
    hide InlineCode, Link, Pair, Step, HasAt;
    var s := "```" + code + "```" + rest;
    FindFence("```", code, rest);
    assert s[3..3 + |code|] == code;
    assert HasAt(s, 0, "```") by { ThreeHere(s); }
    FenceFirst(s);
  }

  lemma ThreeHere(s: string)
    requires |s| >= 3 && s[0] == s[1] == s[2] == '`'
    ensures HasAt(s, 0, "```")
  {
  }

  /** Trimming takes exactly the white space off both ends. */
  lemma {:induction false} TrimsBlanks(a: string, url: string, b: string)
    requires (forall c :: c in a + b ==> IsSpace(c)) && url != "" && !IsSpace(url[0]) && !IsSpace(url[|url| - 1])
    ensures TrimSpace(a + url + b) == url
    decreases |a| + |b|
  {
    hide IsSpace;
    if a != [] {
      var s := a + url + b;
      assert s[0] == a[0] && a[0] in a + b;
      assert s[1..] == a[1..] + url + b;
      TrimsBlanks(a[1..], url, b);
    } else if b != [] {
      var s := url + b;
      assert a + url + b == s && s[|s| - 1] == b[|b| - 1] && b[|b| - 1] in a + b;
      assert s[..|s| - 1] == a + url + b[..|b| - 1];
      TrimsBlanks(a, url, b[..|b| - 1]);
    } else {
      assert a + url + b == url;
    }
  }

  /** A link around plain text, with white space around its target, is one span to the bare target. */
  lemma LinkReads(a: string, before: string, url: string, after: string)
    requires a != "" && !ContainsMarker(a) && NoPair(a, ']', '(') && Target(url) && ')' !in url
    requires forall c :: c in before + after ==> IsSpace(c)
    ensures ParseRunes("[" + a + "](" + (before + url + after) + ")") == Parsed(a, [Entity(TextUrl, 0, |a|, url, "", 0, 0)])
  {
    hide Step, ParseRunes, ContainsMarker, IsSpace, NoPair, TrimSpace;
    var target := before + url + after;
    var s := "[" + a + "](" + target + ")";
    ParenIsNoSpace();
    forall c | c in target ensures c != ')' { assert c in before + after || c in url; }
    TrimsBlanks(before, url, after);
    PlainParsesToItself(a);
    LinkStep(a, target, url);
    WholeStep(s);
    var e := Entity(TextUrl, 0, |a|, url, "", 0, 0);
    AppendNothing(Parsed(a, [] + [e]));
    assert [] + [e] == [e];
  }

  lemma TrimNothing()
    ensures TrimSpace("") == ""
  {
  }

  lemma ParenIsNoSpace()
    ensures !IsSpace(')')
  {
  }

  lemma LinkStep(a: string, target: string, url: string)
    requires a != "" && NoPair(a, ']', '(') && ')' !in target && TrimSpace(target) == url && Target(url)
    requires ParseRunes(a) == Parsed(a, [])
    ensures Step("[" + a + "](" + target + ")")
            == Took(a, [] + [Entity(TextUrl, 0, |a|, url, "", 0, 0)], |"[" + a + "](" + target + ")"|)
  {
    hide ParseRunes, TrimSpace, HasAt, Find, NoPair, Pair, IsSpace;
    var s := "[" + a + "](" + target + ")";
    assert s + "" == s;
    LinkFinds(a, target, "");
    BracketHere(s);
    TrimNothing();
    hide Fence, InlineCode;
    LinkIsFirst(s);
  }

  lemma LinkIsFirst(s: string)
    requires s != [] && s[0] == '[' && Link(s).Took?
    ensures Step(s) == Link(s)
  {
    hide Link;
    BracketHere(s);
  }

  // ----- what is written

  /** The markers of each kind. */
  lemma TokensAre(e: Entity)
    ensures e.kind == Bold ==> TokensFor(e) == Tokens("**", "**")
    ensures e.kind == Italic ==> TokensFor(e) == Tokens("__", "__")
    ensures e.kind == Strike ==> TokensFor(e) == Tokens("~~", "~~")
    ensures e.kind == Spoiler ==> TokensFor(e) == Tokens("||", "||")
    ensures e.kind == Code ==> TokensFor(e) == Tokens("`", "`")
    ensures e.kind == Pre ==> TokensFor(e) == Tokens("```" + e.language + "\n", "\n```")
    ensures e.kind == TextUrl ==> TokensFor(e) == Tokens("[", "](" + e.url + ")")
    ensures TokensFor(e) == NoTokens <==> e.kind !in {Bold, Italic, Strike, Spoiler, Code, Pre, TextUrl}
  {
  }

  /** A span that is written: of a kind with markers, of positive length, and starting inside the text. */
  predicate Written(e: Entity, n: nat) {
    e.kind in {Bold, Italic, Strike, Spoiler, Code, Pre, TextUrl} && e.length > 0 && 0 <= e.offset < n
  }

  /** Spans that are not leave the text as it is. */
  lemma NothingWritten(text: string, es: seq<Entity>)
    requires forall e :: e in es ==> !Written(e, |text|)
    ensures Rendering(text, es) == text
  {
    hide SortEntities, Weave, Flat;
    SortEntitiesSorts(es);
    var sorted := SortEntities(es);
    forall e | e in sorted ensures !Rendered(e, |text|) { assert e in multiset(sorted) && e in es; TokensAre(e); }
    NoneRendered(sorted, |es|, |text|);
    WeaveNothing(text, 0);
  }

  lemma {:induction false} NoneRendered(sorted: seq<Entity>, k: nat, n: nat)
    requires k <= |sorted| && forall e :: e in sorted ==> !Rendered(e, n)
    ensures Items(sorted, k, n) == [] && Edges(Items(sorted, k, n)) == [] && SortEdges(Edges(Items(sorted, k, n))) == []
  {
    if k > 0 { NoneRendered(sorted, k - 1, n); }
  }

  /** One that is, is written as its markers around the runes it covers, cut at the end of the text. */
  lemma OneWritten(text: string, e: Entity)
    requires Written(e, |text|)
    ensures var end := if e.End() > |text| then |text| else e.End();
            TokensFor(e).Tokens?
            && Rendering(text, [e])
               == text[..e.offset] + TokensFor(e).open + text[e.offset..end] + TokensFor(e).close + text[end..]
  {
    hide Rendering, SortEntities, Items, TokensFor, Markup, Nested;
    var n: nat := |text|;
    var it := Item(Clamp(e, n), 0);
    SortOne(e);
    OneItem(e, n);
    RenderIsMarkup(text, [e]);
    OneMarkup(text, it);
  }

  lemma OneItem(e: Entity, n: nat)
    requires Written(e, n)
    ensures var it := Item(Clamp(e, n), 0);
            TokensFor(e).Tokens? && TokensFor(it.span) == TokensFor(e) && Items([e], 1, n) == [it] && Nested([it], 0, n)
            && Off(it) == e.offset && Stop(it) == if e.End() > n then n else e.End()
  {
    TokensAre(e);
    assert Items([e], 0, n) == [];
  }

  lemma OneMarkup(text: string, it: Item)
    requires Nested([it], 0, |text|)
    ensures 0 <= Off(it) < Stop(it) <= |text| && TokensFor(it.span).Tokens?
    ensures Markup(text, [it], 0, |text|)
            == text[..Off(it)] + TokensFor(it.span).open + text[Off(it)..Stop(it)] + TokensFor(it.span).close + text[Stop(it)..]
  {
    hide TokensFor;
    NestedParts([it], 0, |text|);
    assert Kids([it]) == [] && Rest([it]) == [];
    assert text[Stop(it)..|text|] == text[Stop(it)..] && text[0..Off(it)] == text[..Off(it)];
  }

  lemma SortOne(e: Entity)
    ensures SortEntities([e]) == [e]
  {
    SortEntitiesSorts([e]);
    assert |multiset(SortEntities([e]))| == 1;
    assert SortEntities([e])[0] in multiset(SortEntities([e]));
  }
}
