/** Formatted spans of a message (internal/core/domain/entities.go). */
module Entities {

  /** The kinds of formatting; `Other` keeps a name this build does not know. */
  datatype Kind =
    | Bold | Italic | Underline | Strike | Code | Pre | Spoiler | Blockquote
    | Url | TextUrl | Mention | MentionName | Hashtag | Cashtag | BotCommand
    | Email | Phone | CustomEmoji | Other(name: string)

  /** One span. Offset and length count runes. */
  datatype Entity = Entity(kind: Kind, offset: int, length: int,
                           url: string, language: string, userID: int, documentID: int)
  {
    function End(): int { offset + length }
  }

  /** A span that carries no payload. */
  function Plain(kind: Kind, offset: int, length: int): Entity {
    Entity(kind, offset, length, "", "", 0, 0)
  }

  /** The span moved `d` runes to the right. */
  function ShiftOne(e: Entity, d: int): Entity {
    e.(offset := e.offset + d)
  }

  function Shift(es: seq<Entity>, d: int): (r: seq<Entity>)
    ensures |r| == |es|
    ensures forall i :: 0 <= i < |es| ==> r[i] == ShiftOne(es[i], d)
  {
    seq(|es|, i requires 0 <= i < |es| => ShiftOne(es[i], d))
  }

  // ----- the order SortEntities establishes

  /** Starts earlier, or starts together and is longer. */
  predicate Before(a: Entity, b: Entity) {
    if a.offset != b.offset then a.offset < b.offset else a.length > b.length
  }

  ghost predicate Sorted(es: seq<Entity>) {
    forall i, j :: 0 <= i < j < |es| ==> !Before(es[j], es[i])
  }

  /** Puts `e` in front of the first span it must not follow. */
  function Insert(e: Entity, es: seq<Entity>): (r: seq<Entity>)
    ensures |r| == |es| + 1
  {
    if es == [] || !Before(es[0], e) then [e] + es
    else [es[0]] + Insert(e, es[1..])
  }

  /** The stable sort by offset, longer first among spans that start together. */
  function SortEntities(es: seq<Entity>): (r: seq<Entity>)
    ensures |r| == |es|
  {
    if es == [] then [] else Insert(es[0], SortEntities(es[1..]))
  }

  lemma {:induction false} InsertKeepsOrder(e: Entity, es: seq<Entity>)
    requires Sorted(es)
    ensures Sorted(Insert(e, es))
    ensures multiset(Insert(e, es)) == multiset{e} + multiset(es)
  {
    if es == [] || !Before(es[0], e) {
      assert Insert(e, es) == [e] + es;
    } else {
      InsertKeepsOrder(e, es[1..]);
      var rest := Insert(e, es[1..]);
      assert es == [es[0]] + es[1..];
      hide Insert;
      forall j | 0 <= j < |rest|
        ensures !Before(rest[j], es[0])
      {
        assert rest[j] in multiset(rest);
        assert rest[j] == e || rest[j] in multiset(es[1..]);
        if rest[j] != e {
          var k :| 0 <= k < |es[1..]| && es[1..][k] == rest[j];
          assert es[1..][k] == es[k + 1];
        }
      }
    }
  }

  /** Sorting orders the spans and only reorders them. */
  lemma {:induction false} SortEntitiesSorts(es: seq<Entity>)
    ensures Sorted(SortEntities(es))
    ensures multiset(SortEntities(es)) == multiset(es)
    ensures var r := SortEntities(es);
            forall i, j :: 0 <= i < j < |r| ==> r[i].offset < r[j].offset || (r[i].offset == r[j].offset && r[i].length >= r[j].length)
  {
    if es != [] {
      SortEntitiesSorts(es[1..]);
      InsertKeepsOrder(es[0], SortEntities(es[1..]));
      assert es == [es[0]] + es[1..];
    }
  }

  /** The spans of one extent, in the order the list holds them. */
  ghost function OfExtent(es: seq<Entity>, offset: int, length: int): seq<Entity> {
    if es == [] then []
    else (if es[0].offset == offset && es[0].length == length then [es[0]] else [])
         + OfExtent(es[1..], offset, length)
  }

  lemma {:induction false} InsertIsStable(e: Entity, es: seq<Entity>, offset: int, length: int)
    ensures OfExtent(Insert(e, es), offset, length) == OfExtent([e] + es, offset, length)
  {
    if es == [] || !Before(es[0], e) {
    } else {
      InsertIsStable(e, es[1..], offset, length);
      assert Insert(e, es)[1..] == Insert(e, es[1..]);
      assert ([e] + es)[1..] == es;
      assert ([e] + es[1..])[1..] == es[1..];
    }
  }

  /** Spans of the same extent keep their order, as sort.SliceStable promises. */
  lemma {:induction false} SortEntitiesIsStable(es: seq<Entity>, offset: int, length: int)
    ensures OfExtent(SortEntities(es), offset, length) == OfExtent(es, offset, length)
  {
    if es != [] {
      var rest := SortEntities(es[1..]);
      SortEntitiesIsStable(es[1..], offset, length);
      InsertIsStable(es[0], rest, offset, length);
      assert ([es[0]] + rest)[1..] == rest;
    }
  }

  /** A list already in order is left alone. */
  lemma {:induction false} SortEntitiesKeepsSorted(es: seq<Entity>)
    requires Sorted(es)
    ensures SortEntities(es) == es
  {
    if es != [] {
      SortEntitiesKeepsSorted(es[1..]);
      if |es| > 1 { assert !Before(es[1], es[0]); }
    }
  }

  // ----- how two spans lie to each other

  predicate Overlap(a: Entity, b: Entity) {
    a.offset < b.End() && b.offset < a.End()
  }

  predicate Contains(a: Entity, b: Entity) {
    a.offset <= b.offset && b.End() <= a.End()
  }

  /** Verbatim spans: nothing inside them is markup. */
  predicate Leaf(e: Entity) { e.kind.Code? || e.kind.Pre? }

  /**
   * Two spans that can come out of one parse: apart, or one inside the other,
   * never of the same kind, and never inside a verbatim span.
   */
  predicate Compatible(a: Entity, b: Entity) {
    Overlap(a, b) ==>
      && (Contains(a, b) || Contains(b, a))
      && a.kind != b.kind
      && (Leaf(a) ==> Contains(b, a) && !Leaf(b))
      && (Leaf(b) ==> Contains(a, b) && !Leaf(a))
  }

  ghost predicate Laminar(es: seq<Entity>) {
    forall i, j :: 0 <= i < j < |es| ==> Compatible(es[i], es[j])
  }

  ghost predicate InBounds(es: seq<Entity>, n: int) {
    forall i :: 0 <= i < |es| ==> 0 <= es[i].offset && 0 < es[i].length && es[i].End() <= n
  }

  /** Two occurrences in the multiset are two places in the sequence. */
  lemma {:induction false} TwoPlaces(es: seq<Entity>, e: Entity) returns (p: nat, q: nat)
    requires multiset(es)[e] >= 2
    ensures p < q < |es| && es[p] == e == es[q]
  {
    assert es == [es[0]] + es[1..];
    if es[0] == e {
      assert e in multiset(es[1..]);
      p := 0;
      var k :| 0 <= k < |es[1..]| && es[1..][k] == e;
      q := k + 1;
    } else {
      p, q := TwoPlaces(es[1..], e);
      p, q := p + 1, q + 1;
    }
  }

  lemma TwoPlacesCount(es: seq<Entity>, p: nat, q: nat)
    requires p < q < |es| && es[p] == es[q]
    ensures multiset(es)[es[p]] >= 2
  {
    assert es == es[..q] + es[q..];
    assert es[..q][p] == es[p] && es[q..][0] == es[q];
    assert es[p] in multiset(es[..q]) && es[p] in multiset(es[q..]);
  }

  /** Being laminar and in bounds does not depend on the order of the list. */
  lemma LaminarIsOrderFree(a: seq<Entity>, b: seq<Entity>, n: int)
    requires multiset(a) == multiset(b)
    requires InBounds(a, n) && Laminar(a)
    ensures InBounds(b, n) && Laminar(b)
  {
    forall i | 0 <= i < |b|
      ensures b[i] in a
    {
      assert b[i] in multiset(b);
    }
    forall i, j | 0 <= i < j < |b|
      ensures Compatible(b[i], b[j])
    {
      if b[i] == b[j] {
        TwoPlacesCount(b, i, j);
        var p, q := TwoPlaces(a, b[i]);
        assert Compatible(a[p], a[q]);
      } else {
        var p :| 0 <= p < |a| && a[p] == b[i];
        var q :| 0 <= q < |a| && a[q] == b[j];
        if p < q { assert Compatible(a[p], a[q]); } else { assert Compatible(a[q], a[p]); }
      }
    }
  }
}
