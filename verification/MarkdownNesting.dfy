/** What the printer writes for nested spans: a properly bracketed word. */
module MarkdownNesting {
  import opened Entities
  import opened MarkdownRender

  function Off(it: Item): int { it.span.offset }
  function Stop(it: Item): int { it.span.End() }

  /** Spans in printing order, inside [lo, hi), each pair apart or the later inside the earlier. */
  ghost predicate Nested(items: seq<Item>, lo: int, hi: int) {
    && (forall k :: 0 <= k < |items| ==>
          lo <= Off(items[k]) < Stop(items[k]) <= hi && TokensFor(items[k].span).Tokens?)
    && (forall i, j :: 0 <= i < j < |items| ==>
          && items[i].order < items[j].order && Off(items[i]) <= Off(items[j])
          && (Off(items[j]) < Stop(items[i]) ==> Stop(items[j]) <= Stop(items[i])))
  }

  /** How many leading items start before `end`. */
  function Inside(items: seq<Item>, end: int): (k: nat)
    ensures k <= |items|
    ensures forall i :: 0 <= i < k ==> Off(items[i]) < end
    ensures k < |items| ==> end <= Off(items[k])
  {
    if items == [] || end <= Off(items[0]) then 0 else 1 + Inside(items[1..], end)
  }

  /** The items inside the first one, and those after it. */
  function Kids(items: seq<Item>): (r: seq<Item>)
    requires items != []
    ensures |r| < |items|
  {
    items[1..][..Inside(items[1..], Stop(items[0]))]
  }

  function Rest(items: seq<Item>): (r: seq<Item>)
    requires items != []
    ensures |r| < |items|
  {
    items[1..][Inside(items[1..], Stop(items[0]))..]
  }

  lemma KidsAndRest(items: seq<Item>)
    requires items != []
    ensures items == [items[0]] + Kids(items) + Rest(items)
    ensures forall k :: 0 <= k < |Kids(items)| ==> Off(Kids(items)[k]) < Stop(items[0])
    ensures Rest(items) != [] ==> Stop(items[0]) <= Off(Rest(items)[0])
  {
    hide Off, Stop;
    var tail := items[1..];
    var k := Inside(tail, Stop(items[0]));
    assert tail == tail[..k] + tail[k..];
    assert items == [items[0]] + tail;
  }

  lemma NestedParts(items: seq<Item>, lo: int, hi: int)
    requires Nested(items, lo, hi) && items != []
    ensures lo <= Off(items[0]) < Stop(items[0]) <= hi
    ensures Nested(Kids(items), Off(items[0]), Stop(items[0]))
    ensures Nested(Rest(items), Stop(items[0]), hi)
    ensures forall k :: 0 <= k < |Kids(items)| ==> items[0].order < Kids(items)[k].order
    ensures forall k :: 0 <= k < |Rest(items)| ==> items[0].order < Rest(items)[k].order
  {
    hide Kids, Rest, Off, Stop, TokensFor;
    KidsAndRest(items);
    var kids, rest := Kids(items), Rest(items);
    assert kids == items[1..1 + |kids|] && rest == items[1 + |kids|..];
    NestedSlice(items, lo, hi, 1, 1 + |kids|);
    NestedSlice(items, lo, hi, 1 + |kids|, |items|);
    assert items[1 + |kids|..|items|] == rest;
    NestedInside(kids, items[0], lo, hi);
    NestedAfter(rest, items[0], lo, hi);
  }

  /** A stretch of nested spans is nested, and comes after the first span. */
  lemma NestedSlice(items: seq<Item>, lo: int, hi: int, a: nat, b: nat)
    requires Nested(items, lo, hi) && 0 < a <= b <= |items|
    ensures Nested(items[a..b], lo, hi)
    ensures forall k :: 0 <= k < b - a ==> Follows(items[0], items[a..b][k])
  {
    hide Off, Stop, TokensFor;
  }

  /** A later span starts later, and if it starts inside it ends inside. */
  predicate Follows(first: Item, it: Item) {
    && first.order < it.order && Off(first) <= Off(it)
    && (Off(it) < Stop(first) ==> Stop(it) <= Stop(first))
  }

  lemma NestedInside(kids: seq<Item>, first: Item, lo: int, hi: int)
    requires Nested(kids, lo, hi)
    requires forall k :: 0 <= k < |kids| ==> Follows(first, kids[k]) && Off(kids[k]) < Stop(first)
    ensures Nested(kids, Off(first), Stop(first))
  {
    hide TokensFor;
  }

  lemma NestedAfter(rest: seq<Item>, first: Item, lo: int, hi: int)
    requires Nested(rest, lo, hi) && (rest != [] ==> Stop(first) <= Off(rest[0]))
    ensures Nested(rest, Stop(first), hi)
  {
    hide TokensFor;
  }

  ghost predicate AllTokens(items: seq<Item>) {
    forall k :: 0 <= k < |items| ==> TokensFor(items[k].span).Tokens?
  }

  lemma TokensOfParts(items: seq<Item>)
    requires AllTokens(items) && items != []
    ensures AllTokens(Kids(items)) && AllTokens(Rest(items))
  {
    hide Kids, Rest, TokensFor;
    KidsAndRest(items);
    var kids, rest := Kids(items), Rest(items);
    assert forall k :: 0 <= k < |kids| ==> kids[k] == items[k + 1];
    assert forall k :: 0 <= k < |rest| ==> rest[k] == items[k + 1 + |kids|];
  }

  /** The edges as brackets: each span opens, holds what is inside it, and closes. */
  function Brackets(items: seq<Item>): seq<Edge>
    requires AllTokens(items)
    decreases |items|
  {
    if items == [] then []
    else
      TokensOfParts(items);
      [Opener(items[0])] + Brackets(Kids(items)) + [Closer(items[0])] + Brackets(Rest(items))
  }

  /** The text of [lo, hi) with those brackets written into it. */
  function Markup(text: string, items: seq<Item>, lo: nat, hi: nat): string
    requires Nested(items, lo, hi) && lo <= hi <= |text|
    decreases |items|
  {
    if items == [] then text[lo..hi]
    else
      NestedParts(items, lo, hi);
      var e := items[0];
      text[lo..Off(e)]
      + TokensFor(e.span).open + Markup(text, Kids(items), Off(e), Stop(e)) + TokensFor(e.span).close
      + Markup(text, Rest(items), Stop(e), hi)
  }

  // ----- the brackets are the sorted edges

  lemma EdgesOfParts(first: Item, kids: seq<Item>, rest: seq<Item>)
    requires TokensFor(first.span).Tokens? && AllTokens(kids) && AllTokens(rest)
    ensures AllTokens([first] + kids + rest)
    ensures Edges([first] + kids + rest) == [Opener(first), Closer(first)] + Edges(kids) + Edges(rest)
  {
    hide TokensFor, Edges;
    OneEdgePair(first);
    EdgesOfSplit([first], kids);
    EdgesOfSplit([first] + kids, rest);
  }

  lemma {:induction false} BracketsAreEdges(items: seq<Item>)
    requires AllTokens(items)
    ensures multiset(Brackets(items)) == multiset(Edges(items))
    decreases |items|
  {
    hide Kids, Rest, TokensFor, Edges, Opener, Closer;
    if items == [] {
      NoEdges();
    } else {
      KidsAndRest(items);
      TokensOfParts(items);
      var kids, rest := Kids(items), Rest(items);
      EdgesOfParts(items[0], kids, rest);
      BracketsAreEdges(kids);
      BracketsAreEdges(rest);
      SameEdges(Opener(items[0]), Closer(items[0]), Brackets(kids), Brackets(rest), Edges(kids), Edges(rest));
    }
  }

  lemma SameEdges(o: Edge, c: Edge, a: seq<Edge>, b: seq<Edge>, a': seq<Edge>, b': seq<Edge>)
    requires multiset(a) == multiset(a') && multiset(b) == multiset(b')
    ensures multiset([o] + a + [c] + b) == multiset([o, c] + a' + b')
  {
  }

  lemma NoEdges()
    ensures Edges([]) == []
  {
  }

  lemma OneEdgePair(it: Item)
    requires TokensFor(it.span).Tokens?
    ensures Edges([it]) == [Opener(it), Closer(it)]
  {
  }

  /** Openers before hi, closers after lo, all of them of spans from `order` on. */
  ghost predicate Within(es: seq<Edge>, lo: int, hi: int, order: int) {
    forall k :: 0 <= k < |es| ==>
      && lo <= es[k].at <= hi
      && (es[k].open ==> es[k].at < hi && order <= es[k].order)
      && (!es[k].open ==> lo < es[k].at && es[k].order <= -order)
  }

  lemma SortedConcat(a: seq<Edge>, b: seq<Edge>)
    requires StrictlySorted(a) && StrictlySorted(b)
    requires forall i, j :: 0 <= i < |a| && 0 <= j < |b| ==> EdgeBefore(a[i], b[j])
    ensures StrictlySorted(a + b)
  {
  }

  lemma {:induction false} BracketsSorted(items: seq<Item>, lo: int, hi: int, order: int)
    requires Nested(items, lo, hi)
    requires forall k :: 0 <= k < |items| ==> order <= items[k].order
    ensures StrictlySorted(Brackets(items)) && Within(Brackets(items), lo, hi, order)
    decreases |items|
  {
    hide Kids, Rest, TokensFor;
    if items != [] {
      var e := items[0];
      NestedParts(items, lo, hi);
      BracketsSorted(Kids(items), Off(e), Stop(e), e.order + 1);
      BracketsSorted(Rest(items), Stop(e), hi, e.order + 1);
      hide Nested, StrictlySorted, Within;
      BracketsJoin(e, Brackets(Kids(items)), Brackets(Rest(items)), lo, hi, order);
    } else {
      NoBracketsSorted(lo, hi, order);
    }
  }

  lemma NoBracketsSorted(lo: int, hi: int, order: int)
    ensures StrictlySorted(Brackets([])) && Within(Brackets([]), lo, hi, order)
  {
  }

  /** A span around sorted edges, and more sorted edges after it. */
  lemma BracketsJoin(e: Item, kids: seq<Edge>, rest: seq<Edge>, lo: int, hi: int, order: int)
    requires TokensFor(e.span).Tokens? && lo <= Off(e) < Stop(e) <= hi && order <= e.order
    requires StrictlySorted(kids) && Within(kids, Off(e), Stop(e), e.order + 1)
    requires StrictlySorted(rest) && Within(rest, Stop(e), hi, e.order + 1)
    ensures StrictlySorted([Opener(e)] + kids + [Closer(e)] + rest)
    ensures Within([Opener(e)] + kids + [Closer(e)] + rest, lo, hi, order)
  {
    hide TokensFor;
    SortedConcat([Opener(e)], kids);
    SortedConcat([Opener(e)] + kids, [Closer(e)]);
    SortedConcat([Opener(e)] + kids + [Closer(e)], rest);
  }

  // ----- writing the brackets

  lemma {:induction false} WeaveStretch(text: string, i: nat, m: nat, edges: seq<Edge>)
    requires i <= m <= |text|
    requires edges != [] ==> m <= edges[0].at
    ensures Flat(Weave(text, i, edges)) == text[i..m] + Flat(Weave(text, m, edges))
    decreases m - i
  {
    if i < m {
      WeaveStretch(text, i + 1, m, edges);
      assert Weave(text, i, edges)[1..] == Weave(text, i + 1, edges);
      assert text[i..m] == [text[i]] + text[i + 1..m];
    }
  }

  lemma WeaveMark(text: string, i: nat, edge: Edge, edges: seq<Edge>)
    requires edge.at == i <= |text|
    ensures Flat(Weave(text, i, [edge] + edges)) == edge.s + Flat(Weave(text, i, edges))
  {
    assert ([edge] + edges)[1..] == edges;
    var w := Weave(text, i, [edge] + edges);
    assert w == [Mark(edge)] + Weave(text, i, edges);
    assert w[1..] == Weave(text, i, edges);
  }

  lemma BracketsThen(items: seq<Item>, tail: seq<Edge>)
    requires AllTokens(items) && items != []
    ensures AllTokens(Kids(items)) && AllTokens(Rest(items))
    ensures Brackets(items) + tail
         == [Opener(items[0])] + (Brackets(Kids(items)) + ([Closer(items[0])] + (Brackets(Rest(items)) + tail)))
  {
    hide Kids, Rest, AllTokens, TokensFor;
    TokensOfParts(items);
    HeadHasTokens(items);
    Assembled([Opener(items[0])], Brackets(Kids(items)), [Closer(items[0])], Brackets(Rest(items)), tail);
  }

  lemma HeadHasTokens(items: seq<Item>)
    requires AllTokens(items) && items != []
    ensures TokensFor(items[0].span).Tokens?
  {
  }

  lemma Assembled(a: seq<Edge>, b: seq<Edge>, c: seq<Edge>, d: seq<Edge>, tail: seq<Edge>)
    ensures a + b + c + d + tail == a + (b + (c + (d + tail)))
  {
  }

  lemma Regroup(a: string, b: string, c: string, d: string, e: string, f: string)
    ensures a + (b + (c + (d + (e + f)))) == a + b + c + d + e + f
  {
  }

  lemma {:induction false} WeaveBrackets(text: string, items: seq<Item>, lo: nat, hi: nat, tail: seq<Edge>)
    requires Nested(items, lo, hi) && lo <= hi <= |text|
    requires tail != [] ==> hi <= tail[0].at
    ensures Flat(Weave(text, lo, Brackets(items) + tail))
         == Markup(text, items, lo, hi) + Flat(Weave(text, hi, tail))
    decreases |items|
  {
    hide Kids, Rest, TokensFor, Weave, Flat, Brackets;
    if items == [] {
      NoBrackets(tail);
      WeaveStretch(text, lo, hi, tail);
    } else {
      var e := items[0];
      NestedParts(items, lo, hi);
      BracketsThen(items, tail);
      var after := Brackets(Rest(items)) + tail;
      var inner := Brackets(Kids(items)) + ([Closer(e)] + after);
      WeaveStretch(text, lo, Off(e), [Opener(e)] + inner);
      WeaveMark(text, Off(e), Opener(e), inner);
      WeaveBrackets(text, Kids(items), Off(e), Stop(e), [Closer(e)] + after);
      WeaveMark(text, Stop(e), Closer(e), after);
      WeaveBrackets(text, Rest(items), Stop(e), hi, tail);
      Regroup(text[lo..Off(e)], TokensFor(e.span).open, Markup(text, Kids(items), Off(e), Stop(e)),
              TokensFor(e.span).close, Markup(text, Rest(items), Stop(e), hi), Flat(Weave(text, hi, tail)));
    }
  }

  lemma NoBrackets(tail: seq<Edge>)
    ensures Brackets([]) + tail == tail
  {
  }

  /** For nested spans, what Render writes is the bracketed text. */
  lemma RenderIsMarkup(text: string, es: seq<Entity>)
    requires Nested(Items(SortEntities(es), |es|, |text|), 0, |text|)
    ensures Rendering(text, es) == Markup(text, Items(SortEntities(es), |es|, |text|), 0, |text|)
    ensures Marks(Pieces(text, es)) == Brackets(Items(SortEntities(es), |es|, |text|))
  {
    var n := |text|;
    var items := Items(SortEntities(es), |es|, n);
    RenderOrder(items, n);
    BracketsAreEdges(items);
    BracketsSorted(items, 0, n, 0);
    SortedIsUnique(SortEdges(Edges(items)), Brackets(items));
    assert Brackets(items) + [] == Brackets(items);
    WeaveBrackets(text, items, 0, n, []);
    assert Weave(text, n, []) == [];
    WeaveWritesAll(text, 0, Brackets(items));
  }
}
