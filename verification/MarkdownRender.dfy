/** The markup printer (internal/core/markdown/markdown.go, second half). */
module MarkdownRender {
  import opened Entities

  datatype Tokens = NoTokens | Tokens(open: string, close: string)

  function TokensFor(e: Entity): Tokens {
    match e.kind
    case Bold => Tokens("**", "**")
    case Italic => Tokens("__", "__")
    case Strike => Tokens("~~", "~~")
    case Spoiler => Tokens("||", "||")
    case Code => Tokens("`", "`")
    case Pre => Tokens("```" + e.language + "\n", "\n```")
    case TextUrl => Tokens("[", "](" + e.url + ")")
    case _ => NoTokens
  }

  /** One token to write, in front of the rune at `at`. */
  datatype Edge = Edge(at: int, open: bool, order: int, s: string)

  predicate EdgeBefore(a: Edge, b: Edge) {
    if a.at != b.at then a.at < b.at
    else if a.open != b.open then !a.open
    else a.order < b.order
  }

  /** EdgeBefore is a strict order, total on edges that differ in their keys. */
  lemma EdgeBeforeIsStrict(a: Edge, b: Edge, c: Edge)
    ensures !EdgeBefore(a, a)
    ensures EdgeBefore(a, b) && EdgeBefore(b, c) ==> EdgeBefore(a, c)
    ensures (a.at, a.open, a.order) != (b.at, b.open, b.order) <==> EdgeBefore(a, b) || EdgeBefore(b, a)
    ensures !(EdgeBefore(a, b) && EdgeBefore(b, a))
  {
  }

  // ----- from spans to edges

  /** A span that is written out, cut at the end of the text, with its place in the sorted list. */
  datatype Item = Item(span: Entity, order: int)

  predicate Rendered(e: Entity, n: nat) {
    TokensFor(e).Tokens? && e.length > 0 && 0 <= e.offset < n
  }

  function Clamp(e: Entity, n: nat): Entity {
    if e.End() > n then e.(length := n - e.offset) else e
  }

  /** The spans among the first `k` that are written out. */
  function Items(sorted: seq<Entity>, k: nat, n: nat): (r: seq<Item>)
    requires k <= |sorted|
    ensures forall i :: 0 <= i < |r| ==> 0 <= r[i].order < k && Rendered(r[i].span, n) && r[i].span.End() <= n
    ensures forall i, j :: 0 <= i < j < |r| ==> r[i].order < r[j].order
  {
    if k == 0 then []
    else Items(sorted, k - 1, n) +
         (if Rendered(sorted[k - 1], n) then [Item(Clamp(sorted[k - 1], n), k - 1)] else [])
  }

  function Opener(it: Item): Edge
    requires TokensFor(it.span).Tokens?
  {
    Edge(it.span.offset, true, it.order, TokensFor(it.span).open)
  }

  function Closer(it: Item): Edge
    requires TokensFor(it.span).Tokens?
  {
    Edge(it.span.End(), false, -it.order, TokensFor(it.span).close)
  }

  ghost predicate AllRendered(items: seq<Item>, n: nat) {
    forall i :: 0 <= i < |items| ==> Rendered(items[i].span, n) && items[i].span.End() <= n
  }

  function Edges(items: seq<Item>): seq<Edge>
    requires forall i :: 0 <= i < |items| ==> TokensFor(items[i].span).Tokens?
  {
    if items == [] then []
    else Edges(items[..|items| - 1]) + [Opener(items[|items| - 1]), Closer(items[|items| - 1])]
  }

  lemma {:induction false} EdgesOfSplit(a: seq<Item>, b: seq<Item>)
    requires forall i :: 0 <= i < |a| ==> TokensFor(a[i].span).Tokens?
    requires forall i :: 0 <= i < |b| ==> TokensFor(b[i].span).Tokens?
    ensures Edges(a + b) == Edges(a) + Edges(b)
  {
    if b == [] {
      assert a + b == a;
    } else {
      var c := b[..|b| - 1];
      assert (a + b)[..|a + b| - 1] == a + c;
      EdgesOfSplit(a, c);
    }
  }

  // ----- the order the edges are written in

  /** `t` with `e` slid down past every edge it must precede. */
  function InsertEdge(t: seq<Edge>, e: Edge): (r: seq<Edge>)
    ensures |r| == |t| + 1
  {
    if t == [] || !EdgeBefore(e, t[|t| - 1]) then t + [e]
    else InsertEdge(t[..|t| - 1], e) + [t[|t| - 1]]
  }

  function SortEdges(es: seq<Edge>): (r: seq<Edge>)
    ensures |r| == |es|
  {
    if es == [] then [] else InsertEdge(SortEdges(es[..|es| - 1]), es[|es| - 1])
  }

  ghost predicate StrictlySorted(es: seq<Edge>) {
    forall i, j :: 0 <= i < j < |es| ==> EdgeBefore(es[i], es[j])
  }

  ghost predicate Comparable(a: Edge, b: Edge) { EdgeBefore(a, b) || EdgeBefore(b, a) }

  lemma {:induction false} InsertEdgeSorts(t: seq<Edge>, e: Edge)
    requires StrictlySorted(t) && forall i :: 0 <= i < |t| ==> Comparable(t[i], e)
    ensures StrictlySorted(InsertEdge(t, e))
    ensures multiset(InsertEdge(t, e)) == multiset(t) + multiset{e}
  {
    if t == [] || !EdgeBefore(e, t[|t| - 1]) {
      forall i | 0 <= i < |t|
        ensures EdgeBefore(t[i], e)
      {
        assert i < |t| - 1 ==> EdgeBefore(t[i], t[|t| - 1]);
      }
    } else {
      var front, last := t[..|t| - 1], t[|t| - 1];
      InsertEdgeSorts(front, e);
      assert t == front + [last];
      var r := InsertEdge(front, e);
      hide EdgeBefore;
      forall i | 0 <= i < |r|
        ensures EdgeBefore(r[i], last)
      {
        FromMultiset(r, front, e, i);
      }
    }
  }

  lemma FromMultiset(r: seq<Edge>, front: seq<Edge>, e: Edge, i: nat)
    requires i < |r| && multiset(r) == multiset(front) + multiset{e}
    ensures r[i] == e || exists k :: 0 <= k < |front| && front[k] == r[i]
  {
    assert r[i] in multiset(r);
    assert r[i] == e || r[i] in multiset(front);
  }

  lemma NoEdgesSorted()
    ensures StrictlySorted([]) && SortEdges([]) == []
  {
  }

  lemma SortEdgesLast(es: seq<Edge>)
    requires es != []
    ensures SortEdges(es) == InsertEdge(SortEdges(es[..|es| - 1]), es[|es| - 1])
  {
  }

  lemma {:induction false} SortEdgesSorts(es: seq<Edge>)
    requires forall i, j :: 0 <= i < j < |es| ==> Comparable(es[i], es[j])
    ensures StrictlySorted(SortEdges(es))
    ensures multiset(SortEdges(es)) == multiset(es)
  {
    hide Comparable, StrictlySorted, SortEdges, InsertEdge;
    if es == [] {
      NoEdgesSorted();
    } else {
      var front, last := es[..|es| - 1], es[|es| - 1];
      SortEdgesSorts(front);
      var t := SortEdges(front);
      forall i | 0 <= i < |t|
        ensures Comparable(t[i], last)
      {
        assert t[i] in multiset(t);
        var k :| 0 <= k < |front| && front[k] == t[i];
        assert Comparable(es[k], last);
      }
      InsertEdgeSorts(t, last);
      SortEdgesLast(es);
      assert es == front + [last];
    }
  }

  lemma SortedPair(es: seq<Edge>, i: nat, j: nat)
    requires StrictlySorted(es) && i < j < |es|
    ensures EdgeBefore(es[i], es[j]) && !EdgeBefore(es[j], es[i])
  {
  }

  lemma SortedHeadIsLeast(a: seq<Edge>, b: seq<Edge>)
    requires StrictlySorted(a) && StrictlySorted(b) && multiset(a) == multiset(b) && a != []
    ensures b != [] && a[0] == b[0]
  {
    hide StrictlySorted, EdgeBefore;
    assert a[0] in multiset(b);
    var k :| 0 <= k < |b| && b[k] == a[0];
    assert b[0] in multiset(a);
    var m :| 0 <= m < |a| && a[m] == b[0];
    if k > 0 && m > 0 {
      SortedPair(b, 0, k);
      SortedPair(a, 0, m);
    }
  }

  /** A strictly sorted list is the only one with its elements. */
  lemma {:induction false} SortedIsUnique(a: seq<Edge>, b: seq<Edge>)
    requires StrictlySorted(a) && StrictlySorted(b) && multiset(a) == multiset(b)
    ensures a == b
  {
    hide EdgeBefore;
    if a == [] {
      assert |multiset(b)| == 0;
    } else {
      SortedHeadIsLeast(a, b);
      assert a == [a[0]] + a[1..] && b == [b[0]] + b[1..];
      assert multiset(a[1..]) == multiset(a) - multiset{a[0]};
      assert multiset(b[1..]) == multiset(b) - multiset{b[0]};
      SortedIsUnique(a[1..], b[1..]);
    }
  }

  lemma {:induction false} EdgesAreOfItems(items: seq<Item>, k: nat) returns (i: nat)
    requires forall i :: 0 <= i < |items| ==> TokensFor(items[i].span).Tokens?
    requires k < |Edges(items)|
    ensures i < |items| && i == k / 2 && |Edges(items)| == 2 * |items|
    ensures Edges(items)[k] == if k % 2 == 0 then Opener(items[i]) else Closer(items[i])
  {
    var front := items[..|items| - 1];
    EdgesLength(front);
    if k < |Edges(front)| {
      i := EdgesAreOfItems(front, k);
    } else {
      i := |items| - 1;
    }
  }

  lemma {:induction false} EdgesLength(items: seq<Item>)
    requires forall i :: 0 <= i < |items| ==> TokensFor(items[i].span).Tokens?
    ensures |Edges(items)| == 2 * |items|
  {
    if items != [] { EdgesLength(items[..|items| - 1]); }
  }

  /** No two edges of a list of spans tie. */
  lemma EdgesComparable(items: seq<Item>, n: nat)
    requires AllRendered(items, n)
    requires forall i, j :: 0 <= i < j < |items| ==> items[i].order < items[j].order
    ensures forall i, j :: 0 <= i < j < |Edges(items)| ==> Comparable(Edges(items)[i], Edges(items)[j])
    ensures forall i :: 0 <= i < |Edges(items)| ==> 0 <= Edges(items)[i].at <= n
  {
    var es := Edges(items);
    forall i | 0 <= i < |es|
      ensures 0 <= es[i].at <= n
    {
      var p := EdgesAreOfItems(items, i);
    }
    forall i, j | 0 <= i < j < |es|
      ensures Comparable(es[i], es[j])
    {
      var p := EdgesAreOfItems(items, i);
      var q := EdgesAreOfItems(items, j);
      if p != q { assert items[p].order < items[q].order; }
    }
  }

  /** The order Render writes the edges in: a strictly sorted permutation of them. */
  lemma RenderOrder(items: seq<Item>, n: nat)
    requires AllRendered(items, n)
    requires forall i, j :: 0 <= i < j < |items| ==> items[i].order < items[j].order
    ensures StrictlySorted(SortEdges(Edges(items)))
    ensures multiset(SortEdges(Edges(items))) == multiset(Edges(items))
    ensures forall i :: 0 <= i < |SortEdges(Edges(items))| ==> 0 <= SortEdges(Edges(items))[i].at <= n
  {
    var es := Edges(items);
    EdgesLength(items);
    EdgesComparable(items, n);
    SortEdgesSorts(es);
    var r := SortEdges(es);
    forall i | 0 <= i < |r|
      ensures 0 <= r[i].at <= n
    {
      assert r[i] in multiset(r);
      var k :| 0 <= k < |es| && es[k] == r[i];
    }
  }

  // ----- writing

  /** One thing written: a token, or a rune of the text. */
  datatype Piece = Mark(edge: Edge) | Rune(c: char)

  /** What the writing loop emits from position `i` with these edges left. */
  function Weave(text: string, i: nat, edges: seq<Edge>): seq<Piece>
    requires i <= |text|
    decreases |text| - i, |edges|
  {
    if edges != [] && edges[0].at == i then [Mark(edges[0])] + Weave(text, i, edges[1..])
    else if i < |text| then [Rune(text[i])] + Weave(text, i + 1, edges)
    else []
  }

  function Flat(ps: seq<Piece>): string {
    if ps == [] then []
    else (match ps[0] case Mark(e) => e.s case Rune(c) => [c]) + Flat(ps[1..])
  }

  function Erase(ps: seq<Piece>): string {
    if ps == [] then []
    else (if ps[0].Rune? then [ps[0].c] else []) + Erase(ps[1..])
  }

  function Marks(ps: seq<Piece>): seq<Edge> {
    if ps == [] then []
    else (if ps[0].Mark? then [ps[0].edge] else []) + Marks(ps[1..])
  }

  function Pieces(text: string, es: seq<Entity>): seq<Piece> {
    Weave(text, 0, SortEdges(Edges(Items(SortEntities(es), |es|, |text|))))
  }

  function Rendering(text: string, es: seq<Entity>): string {
    Flat(Pieces(text, es))
  }

  lemma ItemsStep(sorted: seq<Entity>, i: nat, n: nat)
    requires i < |sorted|
    ensures !Rendered(sorted[i], n) ==> Edges(Items(sorted, i + 1, n)) == Edges(Items(sorted, i, n))
    ensures Rendered(sorted[i], n) ==>
              var it := Item(Clamp(sorted[i], n), i);
              Edges(Items(sorted, i + 1, n)) == Edges(Items(sorted, i, n)) + [Opener(it), Closer(it)]
  {
    if Rendered(sorted[i], n) {
      var it := Item(Clamp(sorted[i], n), i);
      EdgesOfSplit(Items(sorted, i, n), [it]);
      assert Edges([it]) == [Opener(it), Closer(it)];
    } else {
      assert Items(sorted, i + 1, n) == Items(sorted, i, n);
    }
  }

  /** The text with its spans written back as markup. */
  method Render(text: string, es: seq<Entity>) returns (out: string)
    ensures out == Rendering(text, es)
  {
    if |es| == 0 {
      WeaveNothing(text, 0);
      return text;
    }
    var sorted := SortEntities(es);
    var edges := CollectEdges(sorted, |text|);
    if |edges| == 0 {
      WeaveNothing(text, 0);
      return text;
    }
    var a := new Edge[|edges|](i requires 0 <= i < |edges| => edges[i]);
    assert a[..] == edges;
    SortInPlace(a);
    out := WriteOut(text, a);
  }

  /** An opening and a closing edge for every span that is written out. */
  method CollectEdges(sorted: seq<Entity>, n: nat) returns (edges: seq<Edge>)
    ensures edges == Edges(Items(sorted, |sorted|, n))
  {
    hide Edges, Items;
    edges := [];
    assert Edges(Items(sorted, 0, n)) == [] by { NoItems(sorted, n); }
    for i := 0 to |sorted|
      invariant edges == Edges(Items(sorted, i, n))
    {
      ItemsStep(sorted, i, n);
      var e := sorted[i];
      var tokens := TokensFor(e);
      if tokens.NoTokens? || e.length <= 0 || e.offset < 0 || e.offset >= n {
        continue;
      }
      var end := if e.End() > n then n else e.End();
      edges := edges + [Edge(e.offset, true, i, tokens.open)];
      edges := edges + [Edge(end, false, -i, tokens.close)];
    }
  }

  lemma NoItems(sorted: seq<Entity>, n: nat)
    ensures Edges(Items(sorted, 0, n)) == []
  {
  }

  lemma SortEdgesStep(es: seq<Edge>, i: nat)
    requires i <= |es|
    ensures SortEdges([]) == []
    ensures i < |es| ==> SortEdges(es[..i + 1]) == InsertEdge(SortEdges(es[..i]), es[i])
  {
    if i < |es| { assert es[..i + 1][..i] == es[..i]; }
  }

  /** The insertion sort over the edges, where they lie. */
  method SortInPlace(a: array<Edge>)
    modifies a
    ensures a[..] == SortEdges(old(a[..]))
  {
    hide SortEdges;
    assert SortEdges([]) == [] by { SortEdgesStep([], 0); }
    ghost var was := a[..];
    var i := 0;
    while i < a.Length
      invariant 0 <= i <= a.Length
      invariant a[..i] == SortEdges(was[..i])
      invariant a[i..] == was[i..]
    {
      assert a[i] == a[i..][0] == was[i];
      assert a[i + 1..] == a[i..][1..] == was[i + 1..];
      SinkEdge(a, i);
      SortEdgesStep(was, i);
      i := i + 1;
    }
    assert a[..] == a[..i] && was == was[..i];
  }

  /** Swaps a[i] down to its place among the edges before it. */
  method SinkEdge(a: array<Edge>, i: nat)
    requires i < a.Length
    modifies a
    ensures a[..i + 1] == InsertEdge(old(a[..i]), old(a[i]))
    ensures a[i + 1..] == old(a[i + 1..])
  {
    hide InsertEdge, EdgeBefore;
    ghost var t, e := a[..i], a[i];
    ghost var behind := a[i + 1..];
    var j := i;
    assert t[..j] == t && t[j..] == [] && InsertEdge(t, e) + [] == InsertEdge(t, e);
    assert a[..i + 1] == t[..j] + [e] + t[j..];
    while j > 0 && EdgeBefore(a[j], a[j - 1])
      invariant 0 <= j <= i && a[i + 1..] == behind
      invariant a[..i + 1] == t[..j] + [e] + t[j..]
      invariant InsertEdge(t, e) == InsertEdge(t[..j], e) + t[j..]
    {
      ghost var u := a[..i + 1];
      assert u[j] == a[j] == e && u[j - 1] == a[j - 1] == t[j - 1];
      SlideOne(t, e, j);
      a[j - 1], a[j] := a[j], a[j - 1];
      assert a[..i + 1] == u[j - 1 := e][j := t[j - 1]];
      j := j - 1;
    }
    assert a[..i + 1][j] == a[j] && (j > 0 ==> a[..i + 1][j - 1] == a[j - 1]);
    SlideEnds(t, e, j);
  }

  /** One swap moves the new edge one place down, in the array and in the specification. */
  lemma SlideOne(t: seq<Edge>, e: Edge, j: nat)
    requires 0 < j <= |t| && EdgeBefore(e, t[j - 1])
    ensures InsertEdge(t[..j], e) + t[j..] == InsertEdge(t[..j - 1], e) + t[j - 1..]
    ensures (t[..j] + [e] + t[j..])[j - 1 := e][j := t[j - 1]] == t[..j - 1] + [e] + t[j - 1..]
  {
    assert t[..j][..j - 1] == t[..j - 1];
    assert [t[j - 1]] + t[j..] == t[j - 1..];
    assert InsertEdge(t[..j], e) == InsertEdge(t[..j - 1], e) + [t[j - 1]];
  }

  lemma SlideEnds(t: seq<Edge>, e: Edge, j: nat)
    requires j <= |t| && (j == 0 || !EdgeBefore(e, t[j - 1]))
    ensures InsertEdge(t[..j], e) == t[..j] + [e]
  {
  }

  lemma WeaveAtEdge(text: string, i: nat, edges: seq<Edge>)
    requires i <= |text| && edges != [] && edges[0].at == i
    ensures Flat(Weave(text, i, edges)) == edges[0].s + Flat(Weave(text, i, edges[1..]))
  {
    assert Weave(text, i, edges)[1..] == Weave(text, i, edges[1..]);
  }

  lemma WeaveAtRune(text: string, i: nat, edges: seq<Edge>)
    requires i <= |text| && (edges == [] || edges[0].at != i)
    ensures Flat(Weave(text, i, edges)) == if i < |text| then [text[i]] + Flat(Weave(text, i + 1, edges)) else []
  {
    if i < |text| { assert Weave(text, i, edges)[1..] == Weave(text, i + 1, edges); }
  }

  /** Walks the text, writing every edge in front of the rune it belongs to. */
  method WriteOut(text: string, a: array<Edge>) returns (out: string)
    ensures out == Flat(Weave(text, 0, a[..]))
  {
    hide Flat, Weave;
    var n := |text|;
    out := "";
    var k, i := 0, 0;
    assert a[0..] == a[..];
    while i <= n
      invariant 0 <= i <= n + 1 && 0 <= k <= a.Length
      invariant i <= n ==> out + Flat(Weave(text, i, a[k..])) == Flat(Weave(text, 0, a[..]))
      invariant i == n + 1 ==> out == Flat(Weave(text, 0, a[..]))
    {
      while k < a.Length && a[k].at == i
        invariant 0 <= k <= a.Length
        invariant out + Flat(Weave(text, i, a[k..])) == Flat(Weave(text, 0, a[..]))
      {
        assert a[k..][1..] == a[k + 1..];
        WeaveAtEdge(text, i, a[k..]);
        out := out + a[k].s;
        k := k + 1;
      }
      WeaveAtRune(text, i, a[k..]);
      if i < n {
        out := out + [text[i]];
      }
      i := i + 1;
    }
  }

  lemma {:induction false} WeaveNothing(text: string, i: nat)
    requires i <= |text|
    ensures Flat(Weave(text, i, [])) == text[i..]
    decreases |text| - i
  {
    if i < |text| {
      WeaveNothing(text, i + 1);
      assert Weave(text, i, [])[1..] == Weave(text, i + 1, []);
      assert [text[i]] + text[i + 1..] == text[i..];
    }
  }

  lemma {:induction false} WeaveWritesAll(text: string, i: nat, edges: seq<Edge>)
    requires i <= |text| && StrictlySorted(edges)
    requires forall k :: 0 <= k < |edges| ==> i <= edges[k].at <= |text|
    ensures Erase(Weave(text, i, edges)) == text[i..]
    ensures Marks(Weave(text, i, edges)) == edges
    decreases |text| - i, |edges|
  {
    hide Erase, Marks, EdgeBefore;
    EdgesGoUp(edges);
    if edges != [] && edges[0].at == i {
      WeaveWritesAll(text, i, edges[1..]);
      WroteMark(edges[0], Weave(text, i, edges[1..]));
      assert [edges[0]] + edges[1..] == edges;
    } else if i < |text| {
      WeaveWritesAll(text, i + 1, edges);
      WroteRune(text[i], Weave(text, i + 1, edges));
      assert [text[i]] + text[i + 1..] == text[i..];
    } else {
      WroteNothing();
    }
  }

  lemma EdgesGoUp(edges: seq<Edge>)
    requires StrictlySorted(edges)
    ensures forall k :: 0 < k < |edges| ==> edges[0].at <= edges[k].at
    ensures edges != [] ==> StrictlySorted(edges[1..])
  {
  }

  lemma WroteMark(e: Edge, w: seq<Piece>)
    ensures Erase([Mark(e)] + w) == Erase(w) && Marks([Mark(e)] + w) == [e] + Marks(w)
  {
    assert ([Mark(e)] + w)[1..] == w;
  }

  lemma WroteRune(c: char, w: seq<Piece>)
    ensures Erase([Rune(c)] + w) == [c] + Erase(w) && Marks([Rune(c)] + w) == Marks(w)
  {
    assert ([Rune(c)] + w)[1..] == w;
  }

  lemma WroteNothing()
    ensures Erase([]) == [] && Marks([]) == []
  {
  }

  /**
   * For any spans at all: erasing the tokens leaves the text, every edge is
   * written once, and the order they are written in is the sorted one.
   */
  lemma RenderErasesToText(text: string, es: seq<Entity>)
    ensures Erase(Pieces(text, es)) == text
    ensures var items := Items(SortEntities(es), |es|, |text|);
      && multiset(Marks(Pieces(text, es))) == multiset(Edges(items))
      && StrictlySorted(Marks(Pieces(text, es)))
  {
    var items := Items(SortEntities(es), |es|, |text|);
    RenderOrder(items, |text|);
    EdgesLength(items);
    WeaveWritesAll(text, 0, SortEdges(Edges(items)));
    assert text[0..] == text;
  }
}
