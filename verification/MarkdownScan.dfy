/** How the parser reads one rendered span, whatever follows it. */
module MarkdownScan {

  import opened Basics
  import opened Entities
  import opened MarkdownParser

  /** `x` is never directly followed by `y`. */
  ghost predicate NoPair(s: string, x: char, y: char) {
    forall i :: 0 <= i < |s| - 1 ==> !PairAt(s, i, x, y)
  }

  predicate PairAt(s: string, i: int, x: char, y: char)
    requires 0 <= i < |s| - 1
  {
    s[i] == x && s[i + 1] == y
  }

  predicate EndsWith(s: string, c: char) { s != [] && s[|s| - 1] == c }
  predicate StartsWith(s: string, c: char) { s != [] && s[0] == c }

  lemma NoPairConcat(a: string, b: string, x: char, y: char)
    requires NoPair(a, x, y) && NoPair(b, x, y) && !(EndsWith(a, x) && StartsWith(b, y))
    ensures NoPair(a + b, x, y)
  {
    var s := a + b;
    forall i | 0 <= i < |s| - 1
      ensures !PairAt(s, i, x, y)
    {
      if i + 1 < |a| {
        assert !PairAt(a, i, x, y);
      } else if i >= |a| {
        assert !PairAt(b, i - |a|, x, y);
      }
    }
  }

  lemma NoPairSlice(s: string, x: char, y: char, lo: nat, hi: nat)
    requires lo <= hi <= |s| && NoPair(s, x, y)
    ensures NoPair(s[lo..hi], x, y)
  {
    forall i | 0 <= i < hi - lo - 1
      ensures !PairAt(s[lo..hi], i, x, y)
    {
      assert !PairAt(s, lo + i, x, y);
    }
  }

  lemma FindTwo(pre: string, inner: string, x: char, y: char, rest: string)
    requires NoPair(inner, x, y) && !(x == y && EndsWith(inner, x))
    ensures Find(pre + inner + [x, y] + rest, |pre|, [x, y]) == |pre| + |inner|
  {
    var s := pre + inner + [x, y] + rest;
    var at := |pre| + |inner|;
    forall i: nat | |pre| <= i < at
      ensures !HasAt(s, i, [x, y])
    {
      assert s[i] == inner[i - |pre|];
      if i + 1 < at {
        assert s[i + 1] == inner[i + 1 - |pre|];
        assert !PairAt(inner, i - |pre|, x, y);
      }
      assert [x, y][0] == x && [x, y][1] == y;
    }
    FindIs(s, |pre|, [x, y], at);
  }

  lemma FindOne(pre: string, inner: string, c: char, rest: string)
    requires c !in inner
    ensures Find(pre + inner + [c] + rest, |pre|, [c]) == |pre| + |inner|
  {
    var s := pre + inner + [c] + rest;
    var at := |pre| + |inner|;
    forall i: nat | |pre| <= i < at
      ensures !HasAt(s, i, [c])
    {
      assert s[i] == inner[i - |pre|];
      assert [c][0] == c;
    }
    FindIs(s, |pre|, [c], at);
  }

  lemma FindFence(pre: string, inner: string, rest: string)
    requires '`' !in inner
    ensures Find(pre + inner + "```" + rest, |pre|, "```") == |pre| + |inner|
  {
    var s := pre + inner + "```" + rest;
    var at := |pre| + |inner|;
    forall i: nat | |pre| <= i < at
      ensures !HasAt(s, i, "```")
    {
      assert s[i + 0] == inner[i - |pre|];
      assert "```"[0] == '`';
    }
    FindIs(s, |pre|, "```", at);
  }

  predicate MarkerRune(c: char) { c == '*' || c == '_' || c == '~' || c == '|' }

  /** A construct can only begin at a backtick, a bracket or a doubled marker rune. */
  lemma NoStepAt(s: string)
    requires s != [] && s[0] != '`' && s[0] != '['
    requires MarkerRune(s[0]) ==> |s| == 1 || s[1] != s[0]
    ensures Step(s) == Nothing
  {
    assert !HasAt(s, 0, "```") by { assert s[0 + 0] != "```"[0]; }
    assert !HasAt(s, 0, "`") by { assert s[0 + 0] != "`"[0]; }
    assert !HasAt(s, 0, "[") by { assert s[0 + 0] != "["[0]; }
    NoMarkerAt(s);
  }

  lemma NoMarkerAt(s: string)
    requires s != []
    requires MarkerRune(s[0]) ==> |s| == 1 || s[1] != s[0]
    ensures MarkerAt(s) == NoMarker
  {
    forall tok | tok in ["**", "__", "~~", "||"]
      ensures !HasAt(s, 0, tok)
    {
      assert |tok| == 2 && tok[0] == tok[1] && MarkerRune(tok[0]);
      if |s| >= 2 { assert s[0 + 0] != tok[0] || s[0 + 1] != tok[1]; }
    }
    assert "**" in ["**", "__", "~~", "||"] && "__" in ["**", "__", "~~", "||"];
    assert "~~" in ["**", "__", "~~", "||"] && "||" in ["**", "__", "~~", "||"];
  }

  // ----- one rendered span at the head of the source

  predicate Paired(k: Kind) { k.Bold? || k.Italic? || k.Strike? || k.Spoiler? }

  function RuneOf(k: Kind): char
    requires Paired(k)
  {
    if k.Bold? then '*' else if k.Italic? then '_' else if k.Strike? then '~' else '|'
  }

  lemma MarkerHere(k: Kind, s: string)
    requires Paired(k) && |s| >= 2 && s[0] == s[1] == RuneOf(k)
    ensures MarkerAt(s) == Marker(TokenOf(k), k)
    ensures TokenOf(k) == [RuneOf(k), RuneOf(k)]
    ensures !Fence(s).Took? && !InlineCode(s).Took? && !Link(s).Took?
  {
    var c := RuneOf(k);
    assert !HasAt(s, 0, "```") by { assert s[0 + 0] != "```"[0]; }
    assert !HasAt(s, 0, "`") by { assert s[0 + 0] != "`"[0]; }
    assert !HasAt(s, 0, "[") by { assert s[0 + 0] != "["[0]; }
    forall d: char
      ensures HasAt(s, 0, [d, d]) <==> d == c
    {
      assert [d, d][0] == d && [d, d][1] == d;
      if d != c { assert s[0 + 0] != [d, d][0]; }
    }
    assert HasAt(s, 0, "**") == (c == '*') && HasAt(s, 0, "__") == (c == '_');
    assert HasAt(s, 0, "~~") == (c == '~') && HasAt(s, 0, "||") == (c == '|');
  }

  lemma StepPaired(k: Kind, inner: string, rest: string)
    requires Paired(k) && inner != []
    requires NoPair(inner, RuneOf(k), RuneOf(k)) && !EndsWith(inner, RuneOf(k))
    ensures var t, p := TokenOf(k), ParseRunes(inner);
      Step(t + inner + t + rest) == Took(p.text, p.spans + [Plain(k, 0, |p.text|)], |t + inner + t|)
  {
    hide ParseRunes, HasAt, Fence, InlineCode, Link, MarkerAt;
    var t, p := TokenOf(k), ParseRunes(inner);
    var s := t + inner + t + rest;
    MarkerHere(k, s);
    FindTwo(t, inner, RuneOf(k), RuneOf(k), rest);
    assert s[2..2 + |inner|] == inner;
    ParseKeepsText(inner);
  }

  lemma BracketHere(s: string)
    requires s != [] && s[0] == '['
    ensures HasAt(s, 0, "[") && !HasAt(s, 0, "```") && !HasAt(s, 0, "`")
  {
    assert HasAt(s, 0, "[") by { assert s[0 + 0] == '['; }
    assert !HasAt(s, 0, "```") by { assert s[0 + 0] != "```"[0]; }
    assert !HasAt(s, 0, "`") by { assert s[0 + 0] != "`"[0]; }
  }

  lemma LinkShapeIs(s: string, closeAt: nat, end: nat, url: string)
    requires HasAt(s, 0, "[") && closeAt > 1 && end > closeAt + 2
    requires Find(s, 1, "](") == closeAt && Find(s, closeAt + 2, ")") == end
    requires s[closeAt + 2..end] == url
    requires url != "" && ' ' !in url && '\n' !in url && TrimSpace(url) == url
    ensures LinkShape(s) == (closeAt, end, url)
  {
    hide TrimSpace, HasAt;
  }

  function LinkText(inner: string, url: string, rest: string): string { "[" + inner + "](" + url + ")" + rest }

  lemma LinkFindsClose(inner: string, url: string, rest: string)
    requires NoPair(inner, ']', '(')
    ensures Find(LinkText(inner, url, rest), 1, "](") == 1 + |inner|
  {
    hide HasAt, Find, NoPair;
    FindTwo("[", inner, ']', '(', url + ")" + rest);
    assert [']', '('] == "](";
    assert LinkText(inner, url, rest) == "[" + inner + [']', '('] + (url + ")" + rest);
  }

  lemma LinkFindsEnd(inner: string, url: string, rest: string)
    requires ')' !in url
    ensures Find(LinkText(inner, url, rest), 3 + |inner|, ")") == 3 + |inner| + |url|
  {
    hide HasAt, Find;
    FindOne("[" + inner + "](", url, ')', rest);
    assert [')'] == ")";
  }

  lemma LinkParts(inner: string, url: string, rest: string)
    ensures var s := LinkText(inner, url, rest);
            |s| >= 4 + |inner| + |url| && s[0] == '['
            && s[1..1 + |inner|] == inner && s[3 + |inner|..3 + |inner| + |url|] == url
  {
    Middle("[", inner, "](" + url + ")" + rest);
    assert LinkText(inner, url, rest) == "[" + inner + ("](" + url + ")" + rest);
    Middle("[" + inner + "](", url, ")" + rest);
    assert LinkText(inner, url, rest) == ("[" + inner + "](") + url + (")" + rest);
  }

  /** The middle of three strings. */
  lemma Middle(a: string, b: string, c: string)
    ensures (a + b + c)[|a|..|a| + |b|] == b
  {
  }

  lemma LinkFinds(inner: string, url: string, rest: string)
    requires NoPair(inner, ']', '(') && ')' !in url
    ensures var s := "[" + inner + "](" + url + ")" + rest;
      && Find(s, 1, "](") == 1 + |inner|
      && Find(s, 3 + |inner|, ")") == 3 + |inner| + |url|
      && s[3 + |inner|..3 + |inner| + |url|] == url && s[1..1 + |inner|] == inner && s[0] == '['
  {
    hide HasAt, Find, NoPair;
    LinkFindsClose(inner, url, rest);
    LinkFindsEnd(inner, url, rest);
    LinkParts(inner, url, rest);
  }

  lemma LinkHere(inner: string, url: string, rest: string)
    requires inner != [] && NoPair(inner, ']', '(')
    requires url != "" && ')' !in url && ' ' !in url && '\n' !in url && TrimSpace(url) == url
    ensures var s := "[" + inner + "](" + url + ")" + rest;
      && LinkShape(s) == (1 + |inner|, 3 + |inner| + |url|, url) && s[1..1 + |inner|] == inner
      && !Fence(s).Took? && !InlineCode(s).Took?
  {
    hide TrimSpace, HasAt, Find, LinkShape;
    var s := "[" + inner + "](" + url + ")" + rest;
    LinkFinds(inner, url, rest);
    BracketHere(s);
    LinkShapeIs(s, 1 + |inner|, 3 + |inner| + |url|, url);
  }

  lemma StepLink(inner: string, url: string, rest: string)
    requires inner != [] && NoPair(inner, ']', '(')
    requires url != "" && ')' !in url && ' ' !in url && '\n' !in url && TrimSpace(url) == url
    ensures var t, p := "[" + inner + "](" + url + ")", ParseRunes(inner);
      Step(t + rest) == Took(p.text, p.spans + [Entity(TextUrl, 0, |p.text|, url, "", 0, 0)], |t|)
  {
    hide ParseRunes, TrimSpace, Fence, InlineCode, LinkShape, Pair, NoPair;
    LinkHere(inner, url, rest);
    ParseKeepsText(inner);
  }

  lemma StepCode(inner: string, rest: string)
    requires inner != [] && '`' !in inner && '\n' !in inner
    ensures var t := "`" + inner + "`";
      Step(t + rest) == Took(inner, [Plain(Code, 0, |inner|)], |t|)
  {
    hide Link, Pair;
    var s := "`" + inner + "`" + rest;
    assert s[0 + 1] == inner[0] != '`';
    assert !HasAt(s, 0, "```") by { assert s[0 + 1] != "```"[1]; }
    assert HasAt(s, 0, "`") by { assert s[0 + 0] == '`'; }
    hide HasAt;
    assert ['`'] == "`";
    FindOne("`", inner, '`', rest);
    assert s[1..1 + |inner|] == inner;
  }

  lemma StepPre(lang: string, inner: string, rest: string)
    requires inner != [] && '`' !in inner
    requires '`' !in lang && '\n' !in lang && ' ' !in lang && '\t' !in lang
    requires lang != "" ==> inner[0] != '\n'
    ensures var t := "```" + lang + "\n" + inner + "\n```";
      Step(t + rest) == Took(inner, [Entity(Pre, 0, |inner|, "", lang, 0, 0)], |t|)
  {
    FenceHere(lang, inner, rest);
    hide InlineCode, Link, Pair, FenceParts, TrimEdges;
    FenceBody(lang, inner);
  }

  lemma FenceHere(lang: string, inner: string, rest: string)
    requires '`' !in lang && '`' !in inner
    ensures var body := lang + "\n" + inner + "\n";
      var s := "```" + lang + "\n" + inner + "\n```" + rest;
      HasAt(s, 0, "```") && Find(s, 3, "```") == 3 + |body| && s[3..3 + |body|] == body
  {
    var s := "```" + lang + "\n" + inner + "\n```" + rest;
    assert HasAt(s, 0, "```") by { assert s[0 + 0] == s[0 + 1] == s[0 + 2] == '`'; }
    hide HasAt;
    var body := lang + "\n" + inner + "\n";
    assert s == "```" + body + "```" + rest;
    FindFence("```", body, rest);
  }

  /** A language line is what stands in front of the first newline. */
  lemma FencePartsOf(lang: string, tail: string)
    requires '\n' !in lang && ' ' !in lang && '\t' !in lang
    ensures FenceParts(lang + "\n" + tail) == if lang == "" then ("", "\n" + tail) else (lang, tail)
  {
    var body := lang + "\n" + tail;
    var nl := IndexRune(body, '\n');
    assert body[|lang|] == '\n';
    assert nl == |lang|;
    assert body[..nl] == lang && body[nl + 1..] == tail;
    assert lang == "" ==> body == "\n" + tail;
  }

  lemma FenceBody(lang: string, inner: string)
    requires inner != [] && '\n' !in lang && ' ' !in lang && '\t' !in lang
    requires lang != "" ==> inner[0] != '\n'
    ensures var (l, r) := FenceParts(lang + "\n" + inner + "\n"); l == lang && TrimEdges(r) == inner
  {
    FencePartsOf(lang, inner + "\n");
    assert lang + "\n" + (inner + "\n") == lang + "\n" + inner + "\n";
    assert ("\n" + (inner + "\n"))[1..] == inner + "\n";
    assert (inner + "\n")[..|inner|] == inner;
  }
}
