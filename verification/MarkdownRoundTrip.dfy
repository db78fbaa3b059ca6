/** When parsing what Render wrote gives back the text and its spans. */
module MarkdownRoundTrip {

  import opened Basics
  import opened Entities
  import opened MarkdownParser
  import opened MarkdownRender
  import opened MarkdownNesting
  import opened MarkdownScan

  // ----- what a text and its spans must look like to survive

  /** The payload a span of its kind carries, and no other. */
  predicate Canonical(e: Entity) {
    && e.userID == 0 && e.documentID == 0
    && (e.kind != TextUrl ==> e.url == "") && (e.kind != Pre ==> e.language == "")
  }

  predicate UrlOk(url: string) {
    url != "" && ')' !in url && ' ' !in url && '\n' !in url && TrimSpace(url) == url
  }

  predicate LanguageOk(lang: string) {
    '`' !in lang && '\n' !in lang && ' ' !in lang && '\t' !in lang
  }

  /** What one span demands of its payload and of the text it covers and touches. */
  ghost predicate SpanOk(text: string, e: Entity)
    requires 0 <= e.offset < e.End() <= |text|
  {
    var inside := text[e.offset..e.End()];
    && Canonical(e)
    && (Paired(e.kind) ==>
          && NoPair(inside, RuneOf(e.kind), RuneOf(e.kind)) && text[e.End() - 1] != RuneOf(e.kind)
          && (e.offset > 0 ==> text[e.offset - 1] != RuneOf(e.kind)))
    && (e.kind.Code? ==> '`' !in inside && '\n' !in inside)
    && (e.kind.Pre? ==> '`' !in inside && LanguageOk(e.language) && (e.language != "" ==> inside[0] != '\n'))
    && (e.kind.TextUrl? ==> UrlOk(e.url) && NoPair(inside, ']', '('))
  }

  /** The payload of `b` does not hold the token that would close `a`. */
  ghost predicate PayloadFits(a: Entity, b: Entity) {
    && (Paired(a.kind) ==>
          && NoPair(b.url, RuneOf(a.kind), RuneOf(a.kind))
          && NoPair(b.language, RuneOf(a.kind), RuneOf(a.kind)))
    && (a.kind.TextUrl? ==> NoPair(b.language, ']', '('))
  }

  /** Position `p` lies in no verbatim span. */
  ghost predicate Bare(items: seq<Item>, p: int) {
    forall k :: 0 <= k < |items| && Leaf(items[k].span) ==> !(Off(items[k]) <= p < Stop(items[k]))
  }

  /** Outside verbatim spans: no backtick, no bracket, no doubled marker rune. */
  ghost predicate BareOk(text: string, items: seq<Item>, lo: int, hi: int)
    requires 0 <= lo <= hi <= |text|
  {
    forall p :: lo <= p < hi && Bare(items, p) ==>
      && text[p] != '`' && text[p] != '['
      && (MarkerRune(text[p]) && p + 1 < hi && Bare(items, p + 1) ==> text[p + 1] != text[p])
  }

  ghost predicate SpansOk(text: string, items: seq<Item>, lo: int, hi: int)
    requires 0 <= lo <= hi <= |text| && Nested(items, lo, hi)
  {
    forall k :: 0 <= k < |items| ==> SpanOk(text, items[k].span)
  }

  ghost predicate Fits(a: Entity, b: Entity) {
    !Leaf(a) && a.kind != b.kind && PayloadFits(a, b)
  }

  /** Whatever starts inside a span may be inside it. */
  ghost predicate Fitting(items: seq<Item>) {
    forall i, j :: 0 <= i < j < |items| && Off(items[j]) < Stop(items[i]) ==> Fits(items[i].span, items[j].span)
  }

  ghost predicate InClass(text: string, items: seq<Item>, lo: int, hi: int) {
    && 0 <= lo <= hi <= |text| && Nested(items, lo, hi)
    && SpansOk(text, items, lo, hi) && Fitting(items) && BareOk(text, items, lo, hi)
  }

  lemma BareAround(items: seq<Item>, p: int)
    requires items != []
    ensures Stop(items[0]) <= p && Bare(Rest(items), p) ==>
              Bare(items, p) || exists k :: 0 <= k < |Kids(items)| && p < Stop(Kids(items)[k])
    ensures p < Stop(items[0]) && Bare(Kids(items), p) && !Leaf(items[0].span) ==>
              Bare(items, p) || exists k :: 0 <= k < |Rest(items)| && Off(Rest(items)[k]) <= p
  {
    hide Kids, Rest;
    KidsAndRest(items);
  }

  /** A stretch of fitting spans is fitting. */
  lemma ClassSlice(text: string, items: seq<Item>, lo: int, hi: int, a: nat, b: nat)
    requires InClass(text, items, lo, hi) && a <= b <= |items|
    ensures Fitting(items[a..b]) && forall k :: 0 <= k < b - a ==> SpanOk(text, items[a..b][k].span)
  {
    hide SpanOk, Fits, BareOk, Nested, Off, Stop;
  }

  lemma RestInClass(text: string, items: seq<Item>, lo: int, hi: int)
    requires InClass(text, items, lo, hi) && items != []
    ensures lo <= Off(items[0]) < Stop(items[0]) <= hi
    ensures InClass(text, Rest(items), Stop(items[0]), hi)
  {
    hide Kids, Rest, SpanOk, Fits, TokensFor, Bare;
    KidsAndRest(items);
    NestedParts(items, lo, hi);
    var kids, rest := Kids(items), Rest(items);
    assert rest == items[1 + |kids|..|items|];
    ClassSlice(text, items, lo, hi, 1 + |kids|, |items|);
    forall p | Stop(items[0]) <= p && Bare(rest, p)
      ensures Bare(items, p)
    {
      BareAround(items, p);
    }
  }

  lemma KidsFit(items: seq<Item>, lo: int, hi: int)
    requires Nested(items, lo, hi) && Fitting(items) && items != []
    ensures Leaf(items[0].span) ==> Kids(items) == []
    ensures forall k :: 0 <= k < |Kids(items)| ==> Fits(items[0].span, Kids(items)[k].span)
  {
    hide Kids, Rest, PayloadFits, TokensFor;
    KidsAndRest(items);
    var kids := Kids(items);
    assert forall k :: 0 <= k < |kids| ==> kids[k] == items[k + 1];
    if kids != [] { assert Fits(items[0].span, kids[0].span); }
  }

  lemma KidsInClass(text: string, items: seq<Item>, lo: int, hi: int)
    requires InClass(text, items, lo, hi) && items != [] && !Leaf(items[0].span)
    ensures InClass(text, Kids(items), Off(items[0]), Stop(items[0]))
  {
    hide Kids, Rest, SpanOk, Fits, TokensFor, Bare;
    KidsAndRest(items);
    NestedParts(items, lo, hi);
    var kids := Kids(items);
    assert kids == items[1..1 + |kids|];
    ClassSlice(text, items, lo, hi, 1, 1 + |kids|);
    hide Fitting;
    forall p | p < Stop(items[0]) && Bare(kids, p)
      ensures Bare(items, p)
    {
      BareAround(items, p);
    }
  }

  // ----- the body of a span does not hold the token that closes it

  predicate TokenSafe(t: string, x: char, y: char) {
    t != [] && t[0] != y && t[|t| - 1] != x
  }

  ghost predicate TokensSafe(e: Entity, x: char, y: char) {
    var t := TokensFor(e);
    t.Tokens? && TokenSafe(t.open, x, y) && TokenSafe(t.close, x, y)
    && NoPair(t.open, x, y) && NoPair(t.close, x, y)
  }

  ghost predicate AllSafe(items: seq<Item>, x: char, y: char) {
    forall k :: 0 <= k < |items| ==> TokensSafe(items[k].span, x, y)
  }

  lemma SafeParts(items: seq<Item>, x: char, y: char)
    requires AllSafe(items, x, y) && items != []
    ensures AllSafe(Kids(items), x, y) && AllSafe(Rest(items), x, y)
  {
    hide Kids, Rest, TokensSafe;
    KidsAndRest(items);
    var kids, rest := Kids(items), Rest(items);
    assert forall k :: 0 <= k < |kids| ==> kids[k] == items[k + 1];
    assert forall k :: 0 <= k < |rest| ==> rest[k] == items[k + 1 + |kids|];
  }

  lemma {:induction false} BodyHasNoPair(text: string, items: seq<Item>, lo: nat, hi: nat, x: char, y: char)
    requires Nested(items, lo, hi) && lo <= hi <= |text|
    requires NoPair(text[lo..hi], x, y) && AllSafe(items, x, y)
    ensures NoPair(Markup(text, items, lo, hi), x, y)
    ensures EndsWith(Markup(text, items, lo, hi), x) ==> lo < hi && text[hi - 1] == x
    decreases |items|
  {
    hide Kids, Rest, TokensFor, NoPair, Nested;
    if items != [] {
      var e, kids, rest := items[0], Kids(items), Rest(items);
      NestedParts(items, lo, hi);
      SafeParts(items, x, y);
      SlicesHaveNoPair(text, lo, Off(e), hi, x, y);
      SlicesHaveNoPair(text, Off(e), Stop(e), hi, x, y);
      BodyHasNoPair(text, kids, Off(e), Stop(e), x, y);
      BodyHasNoPair(text, rest, Stop(e), hi, x, y);
      assert TokensSafe(e.span, x, y);
      hide AllSafe;
      var t := TokensFor(e.span);
      var inner, after := Markup(text, kids, Off(e), Stop(e)), Markup(text, rest, Stop(e), hi);
      ChainHasNoPair(text[lo..Off(e)], t.open, inner, t.close, after, x, y);
    }
  }

  lemma SlicesHaveNoPair(text: string, lo: nat, mid: nat, hi: nat, x: char, y: char)
    requires lo <= mid <= hi <= |text| && NoPair(text[lo..hi], x, y)
    ensures NoPair(text[lo..mid], x, y) && NoPair(text[mid..hi], x, y)
  {
    hide NoPair;
    SliceOfSlice(text, lo, hi, 0, mid - lo);
    SliceOfSlice(text, lo, hi, mid - lo, hi - lo);
    NoPairSlice(text[lo..hi], x, y, 0, mid - lo);
    NoPairSlice(text[lo..hi], x, y, mid - lo, hi - lo);
  }

  lemma ChainHasNoPair(a: string, open: string, b: string, close: string, c: string, x: char, y: char)
    requires NoPair(a, x, y) && NoPair(b, x, y) && NoPair(c, x, y)
    requires NoPair(open, x, y) && TokenSafe(open, x, y) && NoPair(close, x, y) && TokenSafe(close, x, y)
    ensures NoPair(a + open + b + close + c, x, y)
    ensures EndsWith(a + open + b + close + c, x) ==> EndsWith(c, x)
  {
    hide NoPair;
    NoPairConcat(a, open, x, y);
    NoPairConcat(a + open, b, x, y);
    NoPairConcat(a + open + b, close, x, y);
    NoPairConcat(a + open + b + close, c, x, y);
  }

  /** The two runes whose adjacency would close a span of this kind. */
  function CloserOf(k: Kind): (char, char)
    requires Paired(k) || k.TextUrl?
  {
    if k.TextUrl? then (']', '(') else (RuneOf(k), RuneOf(k))
  }

  lemma FitsIsSafe(a: Entity, b: Entity)
    requires Fits(a, b) && (Paired(a.kind) || a.kind.TextUrl?) && TokensFor(b).Tokens?
    requires b.kind.TextUrl? ==> UrlOk(b.url)
    ensures TokensSafe(b, CloserOf(a.kind).0, CloserOf(a.kind).1)
  {
    var (x, y) := CloserOf(a.kind);
    var t := TokensFor(b);
    if b.kind.Pre? {
      NoPairConcat("```", b.language, x, y);
      NoPairConcat("```" + b.language, "\n", x, y);
    } else if b.kind.TextUrl? {
      NoPairConcat("](", b.url, x, y);
      NoPairConcat("](" + b.url, ")", x, y);
    }
  }

  // ----- reading it back

  /** Runes that start nothing are copied, whatever comes after them. */
  lemma {:induction false} PlainStretch(text: string, lo: nat, m: nat, rest: string)
    requires lo <= m <= |text|
    requires forall p :: lo <= p < m ==> text[p] != '`' && text[p] != '['
    requires forall p :: lo <= p < m - 1 && MarkerRune(text[p]) ==> text[p + 1] != text[p]
    requires lo < m && MarkerRune(text[m - 1]) ==> !StartsWith(rest, text[m - 1])
    ensures ParseRunes(text[lo..m] + rest) == Append(Parsed(text[lo..m], []), ParseRunes(rest))
    decreases m - lo
  {
    if lo == m {
      assert text[lo..m] + rest == rest;
      AppendNothing(ParseRunes(rest));
    } else {
      var s := text[lo..m] + rest;
      assert s[0] == text[lo] && s[1..] == text[lo + 1..m] + rest;
      if lo + 1 < m { assert s[1] == text[lo + 1]; } else { assert s[1..] == rest; }
      hide Step, ParseRunes, MarkerRune;
      NoStepAt(s);
      OneRune(s);
      PlainStretch(text, lo + 1, m, rest);
      AppendAssoc(Parsed([text[lo]], []), Parsed(text[lo + 1..m], []), ParseRunes(rest));
      assert text[lo..m] == [text[lo]] + text[lo + 1..m];
      assert Append(Parsed([text[lo]], []), Parsed(text[lo + 1..m], [])) == Parsed(text[lo..m], []);
    }
  }

  /** The spans in the order the parser finds them: the inner ones first. */
  function InnerFirst(items: seq<Item>): seq<Entity>
    decreases |items|
  {
    if items == [] then []
    else InnerFirst(Kids(items)) + [items[0].span] + InnerFirst(Rest(items))
  }

  function Spans(items: seq<Item>): seq<Entity> {
    seq(|items|, k requires 0 <= k < |items| => items[k].span)
  }

  lemma SpansOfParts(items: seq<Item>)
    requires items != []
    ensures Spans(items) == [items[0].span] + Spans(Kids(items)) + Spans(Rest(items))
  {
    hide Kids, Rest, Spans;
    KidsAndRest(items);
    SpansJoin([items[0]], Kids(items));
    SpansJoin([items[0]] + Kids(items), Rest(items));
    assert Spans([items[0]]) == [items[0].span] by { OneSpan(items[0]); }
  }

  lemma OneSpan(it: Item)
    ensures Spans([it]) == [it.span]
  {
  }

  lemma SpansJoin(a: seq<Item>, b: seq<Item>)
    ensures Spans(a + b) == Spans(a) + Spans(b)
  {
  }

  lemma MiddleFirst(a: seq<Entity>, e: Entity, b: seq<Entity>, a': seq<Entity>, b': seq<Entity>)
    requires multiset(a) == multiset(a') && multiset(b) == multiset(b')
    ensures multiset(a + [e] + b) == multiset([e] + a' + b')
  {
  }

  lemma {:induction false} InnerFirstIsAll(items: seq<Item>)
    ensures multiset(InnerFirst(items)) == multiset(Spans(items))
    decreases |items|
  {
    hide Kids, Rest, Spans;
    if items == [] {
      NoSpans();
    } else {
      var kids, rest := Kids(items), Rest(items);
      SpansOfParts(items);
      InnerFirstIsAll(kids);
      InnerFirstIsAll(rest);
      MiddleFirst(InnerFirst(kids), items[0].span, InnerFirst(rest), Spans(kids), Spans(rest));
    }
  }

  lemma NoSpans()
    ensures Spans([]) == []
  {
  }

  lemma ShiftTwice(es: seq<Entity>, a: int, b: int)
    ensures Shift(Shift(es, a), b) == Shift(es, a + b)
  {
  }

  lemma ShiftConcat(a: seq<Entity>, b: seq<Entity>, d: int)
    ensures Shift(a + b, d) == Shift(a, d) + Shift(b, d)
  {
  }

  /** What the first item's tokens and body parse to, given what its body parses to. */
  lemma StepSpan(text: string, e: Entity, inner: string, kids: seq<Entity>, rest: string)
    requires 0 <= e.offset < e.End() <= |text| && SpanOk(text, e) && TokensFor(e).Tokens?
    requires inner != []
    requires Leaf(e) ==> inner == text[e.offset..e.End()] && kids == []
    requires !Leaf(e) ==> ParseRunes(inner) == Parsed(text[e.offset..e.End()], Shift(kids, -e.offset))
    requires !Leaf(e) ==> NoPair(inner, CloserOf(e.kind).0, CloserOf(e.kind).1)
    requires Paired(e.kind) ==> !EndsWith(inner, RuneOf(e.kind))
    ensures var t := TokensFor(e);
      Step(t.open + inner + t.close + rest)
      == Took(text[e.offset..e.End()], Shift(kids + [e], -e.offset), |t.open + inner + t.close|)
  {
    hide ParseRunes, Step, NoPair, TrimSpace;
    var t := TokensFor(e);
    ShiftConcat(kids, [e], -e.offset);
    assert Shift([e], -e.offset) == [ShiftOne(e, -e.offset)];
    if Paired(e.kind) {
      StepPaired(e.kind, inner, rest);
    } else if e.kind.TextUrl? {
      StepLink(inner, e.url, rest);
      assert t.open + inner + t.close + rest == "[" + inner + "](" + e.url + ")" + rest;
    } else if e.kind.Code? {
      StepCode(inner, rest);
    } else {
      StepPre(e.language, inner, rest);
      assert t.open + inner + t.close + rest == "```" + e.language + "\n" + inner + "\n```" + rest;
    }
  }

  lemma BareBeforeFirst(items: seq<Item>, lo: int, hi: int, p: int)
    requires Nested(items, lo, hi)
    requires items != [] ==> p < Off(items[0])
    ensures Bare(items, p)
  {
  }

  /** The text in front of the first span is copied. */
  lemma ParseLead(text: string, items: seq<Item>, lo: nat, hi: nat, rest: string)
    requires InClass(text, items, lo, hi)
    requires items == [] ==> rest == []
    requires items != [] ==> var t := TokensFor(items[0].span); rest != [] && t.Tokens? && rest[0] == t.open[0]
    ensures var m: nat := if items == [] then hi else Off(items[0]);
      lo <= m <= hi && ParseRunes(text[lo..m] + rest) == Append(Parsed(text[lo..m], []), ParseRunes(rest))
  {
    hide ParseRunes, Fitting;
    var m: nat := if items == [] then hi else Off(items[0]);
    assert items != [] ==> SpanOk(text, items[0].span);
    hide NoPair;
    forall p | lo <= p < m
      ensures Bare(items, p)
    {
      BareBeforeFirst(items, lo, hi, p);
    }
    hide Bare;
    PlainStretch(text, lo, m, rest);
  }

  /** The body of a span, and that the token closing the span is not in it. */
  lemma BodyIsClosed(text: string, items: seq<Item>, lo: nat, hi: nat)
    requires InClass(text, items, lo, hi) && items != []
    ensures Nested(Kids(items), Off(items[0]), Stop(items[0]))
    ensures var e := items[0].span; var inner := Markup(text, Kids(items), Off(items[0]), Stop(items[0]));
      && (Leaf(e) ==> inner == text[e.offset..e.End()] && Kids(items) == [])
      && (!Leaf(e) ==> NoPair(inner, CloserOf(e.kind).0, CloserOf(e.kind).1))
      && (Paired(e.kind) ==> !EndsWith(inner, RuneOf(e.kind)))
  {
    hide Kids, Rest, BareOk, NoPair, PayloadFits, TokensSafe, EndsWith;
    var e, kids := items[0].span, Kids(items);
    NestedParts(items, lo, hi);
    KidsFit(items, lo, hi);
    KidsAndRest(items);
    assert SpanOk(text, e);
    if !Leaf(e) {
      var (x, y) := CloserOf(e.kind);
      forall k | 0 <= k < |kids|
        ensures TokensSafe(kids[k].span, x, y)
      {
        assert kids[k] == items[k + 1];
        assert SpanOk(text, items[k + 1].span);
        FitsIsSafe(e, kids[k].span);
      }
      BodyHasNoPair(text, kids, Off(items[0]), Stop(items[0]), x, y);
    }
  }

  lemma {:induction false} MarkupNotEmpty(text: string, items: seq<Item>, lo: nat, hi: nat)
    requires Nested(items, lo, hi) && lo < hi <= |text|
    ensures Markup(text, items, lo, hi) != []
  {
  }

  /** Every rendered text of the class parses to its text and its spans, the inner ones first. */
  lemma {:induction false} ParseMarkup(text: string, items: seq<Item>, lo: nat, hi: nat)
    requires InClass(text, items, lo, hi)
    ensures ParseRunes(Markup(text, items, lo, hi)) == Parsed(text[lo..hi], Shift(InnerFirst(items), 0 - lo))
    decreases |items|
  {
    hide Kids, Rest, ParseRunes, Step, NoPair, TokensFor, SpanOk, BareOk, Fitting, Nested, SpansOk;
    hide InnerFirst, Append, InClass;
    InnerFirstParts(items);
    BoundsOf(text, items, lo, hi);
    if items == [] {
      ParseLead(text, items, lo, hi, []);
      assert text[lo..hi] + [] == text[lo..hi];
      ParseNothing();
      AppendNothing(Parsed(text[lo..hi], []));
    } else {
      var e, kids, rest := items[0], Kids(items), Rest(items);
      NestedParts(items, lo, hi);
      RestInClass(text, items, lo, hi);
      BodyIsClosed(text, items, lo, hi);
      var t := TokensFor(e.span);
      var inner, after := Markup(text, kids, Off(e), Stop(e)), Markup(text, rest, Stop(e), hi);
      MarkupNotEmpty(text, kids, Off(e), Stop(e));
      if !Leaf(e.span) {
        KidsInClass(text, items, lo, hi);
        ParseMarkup(text, kids, Off(e), Stop(e));
      }
      FirstHasTokens(text, items, lo, hi);
      StepSpan(text, e.span, inner, InnerFirst(kids), after);
      ParseMarkup(text, rest, Stop(e), hi);
      ParseTaken(t.open + inner + t.close, after, text[Off(e)..Stop(e)], Shift(InnerFirst(kids) + [e.span], -Off(e)));
      ParseLead(text, items, lo, hi, t.open + inner + t.close + after);
      Regroup5(text[lo..Off(e)], t.open, inner, t.close, after);
      Assemble(text, lo, Off(e), Stop(e), hi, InnerFirst(kids) + [e.span], InnerFirst(rest));
    }
  }

  lemma InnerFirstParts(items: seq<Item>)
    ensures InnerFirst([]) == []
    ensures items != [] ==>
              InnerFirst(items) == InnerFirst(Kids(items)) + [items[0].span] + InnerFirst(Rest(items))
  {
  }

  lemma BoundsOf(text: string, items: seq<Item>, lo: int, hi: int)
    requires InClass(text, items, lo, hi)
    ensures 0 <= lo <= hi <= |text| && Nested(items, lo, hi)
  {
  }

  lemma ParseNothing()
    ensures ParseRunes([]) == Parsed([], [])
  {
  }

  lemma FirstHasTokens(text: string, items: seq<Item>, lo: int, hi: int)
    requires InClass(text, items, lo, hi) && items != []
    ensures var e := items[0].span;
      && 0 <= e.offset < e.End() <= |text| && SpanOk(text, e)
      && TokensFor(e).Tokens? && TokensFor(e).open != []
  {
  }

  /** A construct at the head is taken, and the rest is parsed on its own. */
  lemma ParseTaken(head: string, rest: string, text: string, spans: seq<Entity>)
    requires head != [] && Step(head + rest) == Took(text, spans, |head|)
    ensures ParseRunes(head + rest) == Append(Parsed(text, spans), ParseRunes(rest))
  {
    hide Step;
    assert (head + rest)[|head|..] == rest;
  }

  lemma Regroup5(a: string, b: string, c: string, d: string, e: string)
    ensures a + (b + c + d + e) == a + b + c + d + e
  {
  }

  /** The three parts of a parse put together again. */
  lemma Assemble(text: string, lo: nat, a: nat, b: nat, hi: nat, first: seq<Entity>, after: seq<Entity>)
    requires lo <= a <= b <= hi <= |text|
    ensures Append(Parsed(text[lo..a], []),
                   Append(Parsed(text[a..b], Shift(first, 0 - a)), Parsed(text[b..hi], Shift(after, 0 - b))))
         == Parsed(text[lo..hi], Shift(first + after, 0 - lo))
  {
    hide Shift;
    var spans := first + after;
    ShiftTwice(after, 0 - b, b - a);
    ShiftConcat(first, after, 0 - a);
    ShiftTwice(spans, 0 - a, a - lo);
    var inner := Append(Parsed(text[a..b], Shift(first, 0 - a)), Parsed(text[b..hi], Shift(after, 0 - b)));
    assert inner.text == text[a..hi];
    assert inner.spans == Shift(spans, 0 - a);
    assert text[lo..a] + text[a..hi] == text[lo..hi];
    assert [] + Shift(first + after, 0 - lo) == Shift(first + after, 0 - lo);
  }

  // ----- the round trip

  /** The spans this markup can write. */
  function Dialect(es: seq<Entity>): seq<Entity> {
    if es == [] then []
    else Dialect(es[..|es| - 1]) + (if TokensFor(es[|es| - 1]).Tokens? then [es[|es| - 1]] else [])
  }

  function ItemsOf(text: string, es: seq<Entity>): seq<Item> {
    Items(SortEntities(es), |es|, |text|)
  }

  /** What Parse makes of the rendering: the same text, the same spans, order aside. */
  ghost predicate RoundTrips(text: string, es: seq<Entity>) {
    var p := ParseRunes(Rendering(text, es));
    p.text == text && multiset(p.spans) == multiset(Dialect(es))
  }

  /**
   * What the markup can carry at all, however the spans lie to each other:
   * spans inside the text, payloads and text clear of the tokens around them,
   * and, of spans with one extent, a verbatim one listed last.
   */
  ghost predicate Writable(text: string, es: seq<Entity>) {
    var items := ItemsOf(text, es);
    && InBounds(Dialect(es), |text|)
    && (forall k :: 0 <= k < |items| ==> SpanOk(text, items[k].span))
    && (forall i, j :: 0 <= i < j < |items| && Overlap(items[i].span, items[j].span) ==>
          && PayloadFits(items[i].span, items[j].span)
          && (Contains(items[i].span, items[j].span) && Contains(items[j].span, items[i].span) ==> !Leaf(items[i].span)))
    && BareOk(text, items, 0, |text|)
  }

  lemma {:induction false} DialectCounts(es: seq<Entity>, e: Entity)
    ensures multiset(Dialect(es))[e] == if TokensFor(e).Tokens? then multiset(es)[e] else 0
  {
    if es != [] {
      var front, last := es[..|es| - 1], es[|es| - 1];
      DialectCounts(front, e);
      assert es == front + [last];
    }
  }

  lemma DialectIsOrderFree(a: seq<Entity>, b: seq<Entity>)
    requires multiset(a) == multiset(b)
    ensures multiset(Dialect(a)) == multiset(Dialect(b))
  {
    forall e: Entity
      ensures multiset(Dialect(a))[e] == multiset(Dialect(b))[e]
    {
      DialectCounts(a, e);
      DialectCounts(b, e);
    }
  }

  lemma {:induction false} DialectKeepsOrder(es: seq<Entity>)
    requires Sorted(es)
    ensures Sorted(Dialect(es))
    ensures forall i :: 0 <= i < |Dialect(es)| ==> Dialect(es)[i] in es
  {
    if es != [] {
      var front, last := es[..|es| - 1], es[|es| - 1];
      DialectKeepsOrder(front);
      var d := Dialect(front);
      forall i | 0 <= i < |d|
        ensures d[i] in es && !Before(last, d[i])
      {
        var k :| 0 <= k < |front| && front[k] == d[i];
        assert es[k] == d[i];
      }
    }
  }

  lemma {:induction false} ItemsAreDialect(sorted: seq<Entity>, k: nat, n: nat)
    requires k <= |sorted| && InBounds(Dialect(sorted[..k]), n)
    ensures Spans(Items(sorted, k, n)) == Dialect(sorted[..k])
  {
    if k > 0 {
      assert sorted[..k][..k - 1] == sorted[..k - 1];
      var front, all := Dialect(sorted[..k - 1]), Dialect(sorted[..k]);
      assert forall i :: 0 <= i < |front| ==> front[i] == all[i];
      ItemsAreDialect(sorted, k - 1, n);
      if TokensFor(sorted[k - 1]).Tokens? {
        assert all[|all| - 1] == sorted[k - 1];
      }
    }
  }

  lemma DialectOfSorted(text: string, es: seq<Entity>)
    requires InBounds(Dialect(es), |text|)
    ensures Spans(ItemsOf(text, es)) == Dialect(SortEntities(es))
    ensures multiset(Dialect(SortEntities(es))) == multiset(Dialect(es))
    ensures Sorted(Dialect(SortEntities(es)))
  {
    var sorted, n := SortEntities(es), |text|;
    SortEntitiesSorts(es);
    DialectIsOrderFree(sorted, es);
    DialectKeepsOrder(sorted);
    var d := Dialect(sorted);
    forall i | 0 <= i < |d|
      ensures 0 <= d[i].offset && 0 < d[i].length && d[i].End() <= n
    {
      assert d[i] in multiset(d);
      assert d[i] in Dialect(es);
    }
    assert sorted[..|es|] == sorted;
    ItemsAreDialect(sorted, |es|, n);
  }

  lemma LaminarIsNested(text: string, es: seq<Entity>)
    requires Writable(text, es) && Laminar(Dialect(es))
    ensures InClass(text, ItemsOf(text, es), 0, |text|)
  {
    hide SpanOk, PayloadFits, BareOk, TokensFor, Fits, Overlap;
    ItemsInOrder(text, es);
    ItemsInBounds(text, es);
  }

  /** The items are the sorted spans, so they come in printing order. */
  lemma ItemsInOrder(text: string, es: seq<Entity>)
    requires Writable(text, es) && Laminar(Dialect(es))
    ensures var items := ItemsOf(text, es);
            forall i, j :: 0 <= i < j < |items| ==>
              Off(items[i]) <= Off(items[j])
              && (Off(items[j]) < Stop(items[i]) ==> Stop(items[j]) <= Stop(items[i]) && Fits(items[i].span, items[j].span))
  {
    hide SpanOk, PayloadFits, BareOk, TokensFor, Compatible, Before, Overlap, Contains, Leaf;
    var items, n := ItemsOf(text, es), |text|;
    DialectOfSorted(text, es);
    var d := Dialect(SortEntities(es));
    LaminarIsOrderFree(Dialect(es), d, n);
    forall i, j | 0 <= i < j < |items|
      ensures Off(items[i]) <= Off(items[j])
      ensures Off(items[j]) < Stop(items[i]) ==> Stop(items[j]) <= Stop(items[i]) && Fits(items[i].span, items[j].span)
    {
      assert items[i].span == d[i] && items[j].span == d[j];
      CompatibleInOrder(d[i], d[j]);
    }
  }

  lemma ItemsInBounds(text: string, es: seq<Entity>)
    requires InBounds(Dialect(es), |text|)
    ensures forall k :: 0 <= k < |ItemsOf(text, es)| ==>
              0 <= Off(ItemsOf(text, es)[k]) < Stop(ItemsOf(text, es)[k]) <= |text|
              && TokensFor(ItemsOf(text, es)[k].span).Tokens?
  {
  }

  /** In printing order a later span starts later, and if it starts inside it is inside. */
  lemma CompatibleInOrder(a: Entity, b: Entity)
    requires Compatible(a, b) && !Before(b, a) && 0 < a.length && 0 < b.length
    ensures a.offset <= b.offset
    ensures b.offset < a.End() ==>
              Overlap(a, b) && b.End() <= a.End() && a.kind != b.kind && (Leaf(a) ==> Contains(a, b) && Contains(b, a))
  {
  }

  /** Parse never yields spans that are not laminar, so nothing else comes back. */
  lemma RoundTripNeedsLaminar(text: string, es: seq<Entity>)
    requires RoundTrips(text, es)
    ensures InBounds(Dialect(es), |text|) && Laminar(Dialect(es))
  {
    var src := Rendering(text, es);
    ParseIsLaminar(src);
    LaminarIsOrderFree(ParseRunes(src).spans, Dialect(es), |text|);
  }

  lemma LaminarRoundTrips(text: string, es: seq<Entity>)
    requires Writable(text, es) && Laminar(Dialect(es))
    ensures ParseRunes(Rendering(text, es)) == Parsed(text, InnerFirst(ItemsOf(text, es)))
    ensures multiset(InnerFirst(ItemsOf(text, es))) == multiset(Dialect(es))
  {
    hide *;
    WritableInBounds(text, es);
    var n: nat := |text|;
    LaminarIsNested(text, es);
    ClassRoundTrips(text, es);
    InnerFirstIsAll(ItemsOf(text, es));
    DialectOfSorted(text, es);
  }

  lemma WritableInBounds(text: string, es: seq<Entity>)
    requires Writable(text, es)
    ensures InBounds(Dialect(es), |text|)
  {
  }

  lemma ClassRoundTrips(text: string, es: seq<Entity>)
    requires InClass(text, ItemsOf(text, es), 0, |text|)
    ensures ParseRunes(Rendering(text, es)) == Parsed(text, InnerFirst(ItemsOf(text, es)))
  {
    ClassIsNested(text, es);
    hide *;
    RenderIsMarkup(text, es);
    WholeMarkup(text, ItemsOf(text, es));
  }

  lemma ClassIsNested(text: string, es: seq<Entity>)
    requires InClass(text, ItemsOf(text, es), 0, |text|)
    ensures ItemsOf(text, es) == Items(SortEntities(es), |es|, |text|)
    ensures Nested(Items(SortEntities(es), |es|, |text|), 0, |text|)
  {
    hide Items, SortEntities, BareOk, Fitting;
  }

  lemma WholeMarkup(text: string, items: seq<Item>)
    requires Nested(items, 0, |text|) && InClass(text, items, 0, |text|)
    ensures ParseRunes(Markup(text, items, 0, |text|)) == Parsed(text, InnerFirst(items))
  {
    hide *;
    var n: nat := |text|;
    ParseMarkup(text, items, 0, n);
    ShiftNothing(InnerFirst(items));
    assert text[0..n] == text;
  }

  lemma ShiftNothing(es: seq<Entity>)
    ensures Shift(es, 0) == es
  {
  }

  /** The round trip holds exactly for spans that are apart or nested and never in their own kind. */
  lemma RoundTripIffLaminar(text: string, es: seq<Entity>)
    requires Writable(text, es)
    ensures RoundTrips(text, es) <==> Laminar(Dialect(es))
  {
    hide ParseRunes, Rendering, Writable, Laminar, InnerFirst;
    if Laminar(Dialect(es)) {
      LaminarRoundTrips(text, es);
    }
    if RoundTrips(text, es) {
      RoundTripNeedsLaminar(text, es);
    }
  }

  /** Only a fence yields a fenced block. */
  lemma NoFenceNoPre(s: string)
    requires !Fence(s).Took? && Step(s).Took?
    ensures Step(s).spans != [] && Step(s).spans[|Step(s).spans| - 1].kind != Pre
  {
    hide Fence, ParseRunes, LinkShape, Find, HasAt;
  }

  lemma TrimmedOnce(code: string)
    requires code != "" && code[0] == '\n'
    ensures TrimEdges(code + "\n") == code[1..]
  {
    assert (code + "\n")[1..] == code[1..] + "\n";
    assert (code[1..] + "\n")[..|code| - 1] == code[1..];
  }

  /**
   * A written fence reads back if and only if it has no language or its code
   * does not start with a newline; otherwise it loses that newline, and with
   * it the whole block if the code was nothing else.
   */
  lemma FenceReadsBackIff(lang: string, code: string, rest: string)
    requires LanguageOk(lang) && '`' !in code && code != ""
    ensures var t := "```" + lang + "\n" + code + "\n```";
      Step(t + rest) == Took(code, [Entity(Pre, 0, |code|, "", lang, 0, 0)], |t|) <==> lang == "" || code[0] != '\n'
    ensures var t := "```" + lang + "\n" + code + "\n```";
      lang != "" && code[0] == '\n' && |code| > 1 ==> Step(t + rest).Took? && Step(t + rest).text == code[1..]
  {
    hide InlineCode, Link, Pair, IndexRune, FenceParts, TrimEdges, Step;
    if lang == "" || code[0] != '\n' {
      StepPre(lang, code, rest);
    } else {
      var s := "```" + lang + "\n" + code + "\n```" + rest;
      FenceHere(lang, code, rest);
      FencePartsOf(lang, code + "\n");
      assert lang + "\n" + (code + "\n") == lang + "\n" + code + "\n";
      TrimmedOnce(code);
      if |code| > 1 { FenceFirst(s); } else if Step(s).Took? { NoFenceNoPre(s); }
    }
  }

  lemma FenceFirst(s: string)
    requires Fence(s).Took?
    ensures Step(s) == Fence(s)
  {
  }

  // ----- crossing spans

  lemma NoPartner(k: Kind, b: string)
    requires Paired(k) && RuneOf(k) !in b
    ensures Step(TokenOf(k) + b) == Nothing
  {
    hide HasAt, Find, Fence, InlineCode, Link, MarkerAt;
    var c := RuneOf(k);
    var s := TokenOf(k) + b;
    MarkerHere(k, s);
    forall i: nat | 2 <= i < |s|
      ensures !HasAt(s, i, TokenOf(k))
    {
      NotAt(s, i, c, b);
    }
    assert Find(s, 2, TokenOf(k)) == -1;
  }

  /** A marker whose partner never comes is left as typed. */
  lemma LoneMarkerStays(a: string, k: Kind, b: string)
    requires Paired(k) && !ContainsMarker(a) && !ContainsMarker(b)
    ensures ParseRunes(a + TokenOf(k) + b) == Parsed(a + TokenOf(k) + b, [])
  {
    hide TokenOf, RuneOf, Step, ParseRunes, ContainsMarker, Append;
    PartnerlessHead(k, b);
    PlainLead(a, TokenOf(k) + b);
    assert a + (TokenOf(k) + b) == a + TokenOf(k) + b;
    assert Append(Parsed(a, []), Parsed(TokenOf(k) + b, [])) == Parsed(a + (TokenOf(k) + b), []) by {
      AppendPlain(a, TokenOf(k) + b);
    }
  }

  lemma AppendPlain(a: string, b: string)
    ensures Append(Parsed(a, []), Parsed(b, [])) == Parsed(a + b, [])
  {
  }

  /** The marker is at the head. */
  lemma PartnerlessHead(k: Kind, b: string)
    requires Paired(k) && !ContainsMarker(b)
    ensures ParseRunes(TokenOf(k) + b) == Parsed(TokenOf(k) + b, [])
  {
    hide TokenOf, RuneOf, Step, ParseRunes, Append, ContainsMarker;
    var c := RuneOf(k);
    RuneIsMarker(k);
    RuneAbsent(k, b);
    NoPartner(k, b);
    PlainParsesToItself(b);
    NoStepAt([c] + b);
    LoneRune(c, b, [c] + b);
    assert [c, c] + b == [c] + ([c] + b);
    LoneRune(c, [c] + b, [c, c] + b);
  }

  /** A rune at which nothing starts goes to the text. */
  lemma LoneRune(c: char, b: string, s: string)
    requires s == [c] + b && Step(s) == Nothing && ParseRunes(b) == Parsed(b, [])
    ensures ParseRunes(s) == Parsed(s, [])
  {
    hide Step, ParseRunes, Append;
    OneRune(s);
    assert s[1..] == b;
    AppendPlain([c], b);
  }

  lemma RuneIsMarker(k: Kind)
    requires Paired(k)
    ensures RuneOf(k) != '`' && RuneOf(k) != '[' && TokenOf(k) == [RuneOf(k), RuneOf(k)]
  {
  }

  lemma RuneAbsent(k: Kind, b: string)
    requires Paired(k) && !ContainsMarker(b)
    ensures RuneOf(k) !in b
  {
    assert RuneOf(k) in MARKER_RUNES;
  }

  lemma OneRune(s: string)
    requires s != [] && Step(s) == Nothing
    ensures ParseRunes(s) == Append(Parsed([s[0]], []), ParseRunes(s[1..]))
  {
    hide Step;
  }

  lemma NotAt(s: string, i: nat, c: char, b: string)
    requires s == [c, c] + b && c !in b && 2 <= i < |s|
    ensures !HasAt(s, i, [c, c])
  {
    assert s[i + 0] == b[i - 2];
    assert [c, c][0] == c;
  }

  lemma PlainLead(a: string, rest: string)
    requires !ContainsMarker(a)
    ensures ParseRunes(a + rest) == Append(Parsed(a, []), ParseRunes(rest))
  {
    forall p | 0 <= p < |a|
      ensures a[p] != '`' && a[p] != '[' && !MarkerRune(a[p])
    {
      assert a[p] !in MARKER_RUNES;
      assert '`' in MARKER_RUNES && '[' in MARKER_RUNES && '*' in MARKER_RUNES;
      assert '_' in MARKER_RUNES && '~' in MARKER_RUNES && '|' in MARKER_RUNES;
    }
    PlainStretch(a, 0, |a|, rest);
    assert a[0..|a|] == a;
  }

  lemma CrossingEdges(b: Entity, i: Entity)
    requires b == Plain(Bold, 0, 2) && i == Plain(Italic, 1, 2)
    ensures SortEntities([b, i]) == [b, i]
    ensures Items([b, i], 2, 3) == [Item(b, 0), Item(i, 1)]
    ensures Edges([Item(b, 0), Item(i, 1)])
         == [Edge(0, true, 0, "**"), Edge(2, false, 0, "**"), Edge(1, true, 1, "__"), Edge(3, false, -1, "__")]
  {
    hide Items, Edges, TokensFor, Rendered, Clamp, SortEntities, Opener, Closer;
    SortEntitiesKeepsSorted([b, i]);
    BoldAndItalicRendered(b, i);
    ItemsOfTwo(b, i, 3);
    EdgesOfTwo(Item(b, 0), Item(i, 1));
    EdgesOfBold(b, 0);
    EdgesOfItalic(i, 1);
  }

  lemma EdgesOfBold(b: Entity, order: int)
    requires b.kind == Bold
    ensures Opener(Item(b, order)) == Edge(b.offset, true, order, "**")
    ensures Closer(Item(b, order)) == Edge(b.End(), false, 0 - order, "**")
  {
  }

  lemma EdgesOfItalic(i: Entity, order: int)
    requires i.kind == Italic
    ensures Opener(Item(i, order)) == Edge(i.offset, true, order, "__")
    ensures Closer(Item(i, order)) == Edge(i.End(), false, 0 - order, "__")
  {
  }

  lemma BoldAndItalicRendered(b: Entity, i: Entity)
    requires b == Plain(Bold, 0, 2) && i == Plain(Italic, 1, 2)
    ensures Rendered(b, 3) && Rendered(i, 3) && Clamp(b, 3) == b && Clamp(i, 3) == i
    ensures TokensFor(b) == Tokens("**", "**") && TokensFor(i) == Tokens("__", "__")
  {
  }

  lemma ItemsOfTwo(b: Entity, i: Entity, n: nat)
    requires Rendered(b, n) && Rendered(i, n) && Clamp(b, n) == b && Clamp(i, n) == i
    ensures Items([b, i], 2, n) == [Item(b, 0), Item(i, 1)]
  {
    hide Rendered, Clamp;
    assert Items([b, i], 0, n) == [];
    assert Items([b, i], 1, n) == [Item(b, 0)];
  }

  lemma EdgesOfTwo(x: Item, y: Item)
    requires TokensFor(x.span).Tokens? && TokensFor(y.span).Tokens?
    ensures Edges([x, y]) == [Opener(x), Closer(x), Opener(y), Closer(y)]
  {
    hide TokensFor, Edges, Opener, Closer;
    OneEdgePair(x);
    OneEdgePair(y);
    EdgesOfSplit([x], [y]);
    assert [x] + [y] == [x, y];
  }

  lemma CrossingWeave(bo: Edge, io: Edge, bc: Edge, ic: Edge)
    requires bo == Edge(0, true, 0, "**") && io == Edge(1, true, 1, "__")
    requires bc == Edge(2, false, 0, "**") && ic == Edge(3, false, -1, "__")
    ensures Flat(Weave("abc", 0, [bo, io, bc, ic])) == "**a__b**c__"
  {
    hide Weave, Flat;
    var t := "abc";
    assert [bo, io, bc, ic] == [bo] + [io, bc, ic] && [io, bc, ic] == [io] + [bc, ic];
    assert [bc, ic] == [bc] + [ic] && [ic] == [ic] + [];
    WeaveMark(t, 0, bo, [io, bc, ic]);
    WeaveStretch(t, 0, 1, [io, bc, ic]);
    WeaveMark(t, 1, io, [bc, ic]);
    WeaveStretch(t, 1, 2, [bc, ic]);
    WeaveMark(t, 2, bc, [ic]);
    WeaveStretch(t, 2, 3, [ic]);
    WeaveMark(t, 3, ic, []);
    WeaveNothing(t, 3);
    assert t[0..1] == "a" && t[1..2] == "b" && t[2..3] == "c" && t[3..] == "";
  }

  lemma CrossingOrder(bo: Edge, io: Edge, bc: Edge, ic: Edge)
    requires bo == Edge(0, true, 0, "**") && io == Edge(1, true, 1, "__")
    requires bc == Edge(2, false, 0, "**") && ic == Edge(3, false, -1, "__")
    ensures SortEdges([bo, bc, io, ic]) == [bo, io, bc, ic]
  {
    hide SortEdges, InsertEdge;
    assert [bo][0] == bo && [bo, bc][1] == bc;
    assert !EdgeBefore(bc, bo) && EdgeBefore(io, bc) && !EdgeBefore(io, bo) && !EdgeBefore(ic, bc);
    hide EdgeBefore;
    var es := [bo, bc, io, ic];
    SortEdgesStep(es, 0);
    SortEdgesStep(es, 1);
    SortEdgesStep(es, 2);
    SortEdgesStep(es, 3);
    assert es[..0] == [] && es[..1] == [bo] && es[..2] == [bo, bc] && es[..3] == [bo, bc, io] && es[..4] == es;
    NoEdgesSorted();
    InsertLast([], bo);
    InsertLast([bo], bc);
    InsertEarlier([bo], bc, io);
    InsertLast([bo], io);
    InsertLast([bo, io, bc], ic);
    assert [] + [bo] == [bo] && [bo] + [bc] == [bo, bc] && [bo] + [io] + [bc] == [bo, io, bc];
    assert [bo, io, bc] + [ic] == [bo, io, bc, ic];
  }

  lemma InsertLast(t: seq<Edge>, e: Edge)
    requires t == [] || !EdgeBefore(e, t[|t| - 1])
    ensures InsertEdge(t, e) == t + [e]
  {
  }

  lemma InsertEarlier(t: seq<Edge>, last: Edge, e: Edge)
    requires EdgeBefore(e, last)
    ensures InsertEdge(t + [last], e) == InsertEdge(t, e) + [last]
  {
    assert (t + [last])[..|t|] == t;
  }

  lemma CrossingRendering()
    ensures Rendering("abc", [Plain(Bold, 0, 2), Plain(Italic, 1, 2)]) == "**a__b**c__"
  {
    hide SortEdges, Edges, Items, SortEntities, Weave, Flat;
    var b, i := Plain(Bold, 0, 2), Plain(Italic, 1, 2);
    var bo, bc := Edge(0, true, 0, "**"), Edge(2, false, 0, "**");
    var io, ic := Edge(1, true, 1, "__"), Edge(3, false, -1, "__");
    CrossingEdges(b, i);
    CrossingOrder(bo, io, bc, ic);
    CrossingWeave(bo, io, bc, ic);
    assert |"abc"| == 3;
  }

  /** Two spans that cross: what Render's comment promises for them does not hold. */
  lemma CrossingSpansAreLost()
    ensures var es := [Plain(Bold, 0, 2), Plain(Italic, 1, 2)];
      && Rendering("abc", es) == "**a__b**c__"
      && ParseRunes("**a__b**c__") == Parsed("a__bc__", [Plain(Bold, 0, 4)])
      && !RoundTrips("abc", es)
  {
    hide ParseRunes, Rendering, Step, Append;
    var es := [Plain(Bold, 0, 2), Plain(Italic, 1, 2)];
    CrossingRendering();
    LoneMarkerStays("a", Italic, "b");
    LoneMarkerStays("c", Italic, "");
    assert "a__b" == "a" + "__" + "b" && "c__" == "c" + "__" + "";
    StepPaired(Bold, "a__b", "c__");
    assert "**" + "a__b" + "**" + "c__" == "**a__b**" + "c__" == "**a__b**c__";
    ParseTaken("**a__b**", "c__", "a__b", [Plain(Bold, 0, 4)]);
    TwoParts();
    assert |ParseRunes("**a__b**c__").text| == 7;
  }

  lemma TwoParts()
    ensures Append(Parsed("a__b", [Plain(Bold, 0, 4)]), Parsed("c__", [])) == Parsed("a__bc__", [Plain(Bold, 0, 4)])
  {
    assert "a__b" + "c__" == "a__bc__";
  }
}
