/**
 * Reserving a name and downloading into it (internal/core/files/store.go,
 * internal/core/files/download.go). One step is one file operation of one of
 * any number of downloads; a run is any sequence of them.
 */
module Downloads {

  import opened Basics

  type Path = string

  const PARTIAL: string := ".partial"

  predicate EndsPartial(p: Path) { |p| >= |PARTIAL| && p[|p| - |PARTIAL|..] == PARTIAL }

  function PartialOf(p: Path): Path { p + PARTIAL }

  lemma PartialOfFacts(p: Path, q: Path)
    ensures EndsPartial(PartialOf(p)) && |p| < |PartialOf(p)|
    ensures PartialOf(p) == PartialOf(q) ==> p == q
  {
    assert PartialOf(p)[..|PartialOf(p)| - |PARTIAL|] == p;
    assert PartialOf(q)[..|PartialOf(q)| - |PARTIAL|] == q;
  }

  /** A regular file: whole, of a download or from before; or a claim, held or left over. */
  datatype File = Whole(owner: Option<nat>) | Claim(owner: Option<nat>)

  /**
   * Where a download is. `split` is a history flag: since the exists-check
   * said its candidate was free, another download's rename landed on it, and
   * nobody took that file away again.
   */
  datatype Phase =
    | Checking(i: nat)
    | Creating(i: nat, split: bool)
    | Streaming(path: Path, split: bool)
    | Renaming(path: Path, split: bool)
    | Completed(path: Path)
    | Failed

  /** The names Reserve tries, in order, and where the download is. */
  datatype Download = Download(candidates: seq<Path>, phase: Phase)

  /** The downloads whose rename replaced a whole file, and those whose rename replaced a claim. */
  datatype State = State(fs: map<Path, File>, downloads: seq<Download>, overwrote: seq<nat>, overran: seq<nat>)

  datatype Action = Exists(d: nat) | Create(d: nat) | Stream(d: nat, ok: bool) | Rename(d: nat, ok: bool) | GiveUp(d: nat)

  function With(s: State, d: nat, p: Phase): State
    requires d < |s.downloads|
  {
    s.(downloads := s.downloads[d := s.downloads[d].(phase := p)])
  }

  predicate InFlight(p: Phase) { p.Streaming? || p.Renaming? }

  /** The path a download would take, while it looks for one or holds one. */
  function Target(x: Download): Option<Path> {
    match x.phase
    case Creating(i, _) => if i < |x.candidates| then Some(x.candidates[i]) else None
    case Streaming(p, _) => Some(p)
    case Renaming(p, _) => Some(p)
    case _ => None
  }

  function Split(p: Phase): bool {
    match p
    case Creating(_, split) => split
    case Streaming(_, split) => split
    case Renaming(_, split) => split
    case _ => false
  }

  function Marked(p: Phase, split: bool): Phase {
    match p
    case Creating(i, _) => Creating(i, split)
    case Streaming(path, _) => Streaming(path, split)
    case Renaming(path, _) => Renaming(path, split)
    case _ => p
  }

  /** A file that leaves a path, or lands on one, is noticed by the downloads that want the path. */
  function Noticed(x: Download, left: Path, landed: Option<Path>): Download {
    if Target(x) == Some(left) then x.(phase := Marked(x.phase, false))
    else if Target(x).Some? && Target(x) == landed then x.(phase := Marked(x.phase, true))
    else x
  }

  function AllNoticed(xs: seq<Download>, left: Path, landed: Option<Path>): (ys: seq<Download>)
    ensures |ys| == |xs| && forall k :: 0 <= k < |ys| ==> ys[k] == Noticed(xs[k], left, landed)
  {
    seq(|xs|, k requires 0 <= k < |xs| => Noticed(xs[k], left, landed))
  }

  /** A download that fails removes whatever is under its claim's name. */
  function Drops(s: State, d: nat): State
    requires d < |s.downloads| && InFlight(s.downloads[d].phase)
  {
    var claim := PartialOf(s.downloads[d].phase.path);
    With(s.(fs := s.fs - {claim}, downloads := AllNoticed(s.downloads, claim, None)), d, Failed)
  }

  /** A rename moves whatever is under the claim's name, over whatever is at the path. */
  function Lands(s: State, d: nat): State
    requires d < |s.downloads| && s.downloads[d].phase.Renaming?
    requires PartialOf(s.downloads[d].phase.path) in s.fs
  {
    var path := s.downloads[d].phase.path;
    var claim := PartialOf(path);
    With(s.(fs := (s.fs - {claim})[path := Whole(s.fs[claim].owner)],
            downloads := AllNoticed(s.downloads, claim, Some(path)),
            overwrote := if path in s.fs && s.fs[path].Whole? then s.overwrote + [d] else s.overwrote,
            overran := if path in s.fs && s.fs[path].Claim? then s.overran + [d] else s.overran),
         d, Completed(path))
  }

  function Apply(s: State, a: Action): State {
    if a.d >= |s.downloads| then s
    else
      var x := s.downloads[a.d];
      match a
      case Exists(d) =>
        if !x.phase.Checking? then s
        else if x.phase.i >= |x.candidates| then With(s, d, Failed)
        else if x.candidates[x.phase.i] in s.fs then With(s, d, Checking(x.phase.i + 1))
        else With(s, d, Creating(x.phase.i, false))
      case Create(d) =>
        if !x.phase.Creating? || x.phase.i >= |x.candidates| then s
        else
          var path := x.candidates[x.phase.i];
          if PartialOf(path) in s.fs then With(s, d, Checking(x.phase.i + 1))
          else With(s.(fs := s.fs[PartialOf(path) := Claim(Some(d))]), d, Streaming(path, x.phase.split))
      case Stream(d, ok) =>
        if !x.phase.Streaming? then s
        else if ok then With(s, d, Renaming(x.phase.path, x.phase.split))
        else Drops(s, d)
      case Rename(d, ok) =>
        if !x.phase.Renaming? then s
        else if ok && PartialOf(x.phase.path) in s.fs then Lands(s, d) else Drops(s, d)
      case GiveUp(d) => if x.phase.Checking? || x.phase.Creating? then With(s, d, Failed) else s
  }

  function Run(s: State, acts: seq<Action>): State
    decreases |acts|
  {
    if acts == [] then s else Run(Apply(s, acts[0]), acts[1..])
  }

  /** Any files from before, and any downloads that have not begun. */
  ghost predicate Fresh(s: State) {
    && s.overwrote == [] && s.overran == []
    && (forall d :: 0 <= d < |s.downloads| ==> s.downloads[d].phase == Checking(0))
    && (forall p :: p in s.fs ==> s.fs[p].owner.None?)
  }

  // ----- the invariant

  /** A download in flight has its claim's name at p. */
  ghost predicate Claimed(s: State, p: Path) {
    exists e :: 0 <= e < |s.downloads| && ClaimsAt(s.downloads[e], p)
  }

  predicate ClaimsAt(x: Download, p: Path) { InFlight(x.phase) && PartialOf(x.phase.path) == p }

  /** What is at a path somebody wants: a file that landed there, a claim that is named so, or nothing. */
  ghost predicate TargetHeld(s: State, p: Path, split: bool) {
    && (p in s.fs <==> split || Claimed(s, p))
    && (p in s.fs ==> s.fs[p].owner.Some? && (s.fs[p].Whole? <==> split))
  }

  /** Under the claim's name of a download in flight is its own claim, or a file that landed on it. */
  ghost predicate Holds(s: State, d: nat)
    requires d < |s.downloads|
  {
    var x := s.downloads[d];
    && (Target(x).Some? ==> TargetHeld(s, Target(x).value, Split(x.phase)))
    && (InFlight(x.phase) ==>
          var claim := PartialOf(x.phase.path);
          claim in s.fs && (s.fs[claim] == Claim(Some(d)) || (s.fs[claim].Whole? && s.fs[claim].owner.Some?)))
  }

  predicate Owned(s: State, p: Path)
    requires p in s.fs
  {
    s.fs[p].owner.Some? ==>
      var d := s.fs[p].owner.value;
      d < |s.downloads|
      && (if s.fs[p].Claim? then ClaimsAt(s.downloads[d], p) else s.downloads[d].phase.Completed?)
  }

  /** No two downloads in flight have one path. */
  predicate Exclusive(s: State) {
    forall d, e :: 0 <= d < e < |s.downloads| && InFlight(s.downloads[d].phase) && InFlight(s.downloads[e].phase) ==>
      s.downloads[d].phase.path != s.downloads[e].phase.path
  }

  /** Every download has at most one file. */
  ghost predicate OneFile(s: State) {
    forall p, q :: p in s.fs && q in s.fs && s.fs[p].owner.Some? && s.fs[p].owner == s.fs[q].owner ==> p == q
  }

  ghost predicate Orderly(s: State) {
    && Exclusive(s) && OneFile(s)
    && (forall p :: p in s.fs ==> Owned(s, p))
    && (forall d :: 0 <= d < |s.downloads| ==> Holds(s, d))
  }

  lemma Unclaimed(s: State, d: nat, p: Path)
    requires Exclusive(s) && d < |s.downloads| && ClaimsAt(s.downloads[d], p)
    ensures forall e :: 0 <= e < |s.downloads| && ClaimsAt(s.downloads[e], p) ==> e == d
  {
    forall e | 0 <= e < |s.downloads| && ClaimsAt(s.downloads[e], p) ensures e == d {
      PartialOfFacts(s.downloads[d].phase.path, s.downloads[e].phase.path);
    }
  }

  /** A download that holds nothing before and after moves. */
  lemma OrderlyMoves(s: State, d: nat, p: Phase)
    requires Orderly(s) && d < |s.downloads|
    requires !InFlight(s.downloads[d].phase) && !s.downloads[d].phase.Completed? && !InFlight(p)
    requires p.Creating? ==> !p.split && (p.i < |s.downloads[d].candidates| ==> s.downloads[d].candidates[p.i] !in s.fs)
    ensures Orderly(With(s, d, p))
  {
    hide PartialOf;
    var t := With(s, d, p);
    forall q ensures Claimed(t, q) == Claimed(s, q) { ClaimedSame(s, t, q); }
    forall k | 0 <= k < |t.downloads| ensures Holds(t, k) {
      assert Holds(s, k);
      if k == d && Target(t.downloads[d]).Some? { ClaimIsThere(s, Target(t.downloads[d]).value); }
    }
    forall q | q in t.fs ensures Owned(t, q) { assert Owned(s, q); }
  }

  lemma ClaimIsThere(s: State, p: Path)
    requires Orderly(s)
    ensures Claimed(s, p) ==> p in s.fs
  {
    if Claimed(s, p) {
      var e :| 0 <= e < |s.downloads| && ClaimsAt(s.downloads[e], p);
      assert Holds(s, e);
    }
  }

  lemma ClaimedSame(s: State, t: State, p: Path)
    requires |t.downloads| == |s.downloads|
    requires forall k :: 0 <= k < |s.downloads| ==> ClaimsAt(s.downloads[k], p) == ClaimsAt(t.downloads[k], p)
    ensures Claimed(t, p) == Claimed(s, p)
  {
    if Claimed(s, p) {
      var e :| 0 <= e < |s.downloads| && ClaimsAt(s.downloads[e], p);
      assert ClaimsAt(t.downloads[e], p);
    }
  }

  lemma OrderlyStreams(s: State, d: nat)
    requires Orderly(s) && d < |s.downloads| && s.downloads[d].phase.Streaming?
    ensures Orderly(With(s, d, Renaming(s.downloads[d].phase.path, s.downloads[d].phase.split)))
  {
    hide PartialOf;
    var t := With(s, d, Renaming(s.downloads[d].phase.path, s.downloads[d].phase.split));
    forall q ensures Claimed(t, q) == Claimed(s, q) { ClaimedSame(s, t, q); }
    forall k | 0 <= k < |t.downloads| ensures Holds(t, k) { assert Holds(s, k); }
    forall q | q in t.fs ensures Owned(t, q) { assert Owned(s, q); }
  }

  /** The claims after one download begins to hold its own. */
  lemma ClaimedCreates(s: State, t: State, d: nat, p: Path)
    requires d < |s.downloads| && |t.downloads| == |s.downloads| && InFlight(t.downloads[d].phase)
    requires forall k :: 0 <= k < |s.downloads| && k != d ==> t.downloads[k] == s.downloads[k]
    requires !InFlight(s.downloads[d].phase)
    ensures Claimed(t, p) <==> Claimed(s, p) || p == PartialOf(t.downloads[d].phase.path)
  {
    hide PartialOf;
    assert ClaimsAt(t.downloads[d], p) <==> p == PartialOf(t.downloads[d].phase.path);
    if Claimed(s, p) {
      var e :| 0 <= e < |s.downloads| && ClaimsAt(s.downloads[e], p);
      assert ClaimsAt(t.downloads[e], p);
    }
    if Claimed(t, p) {
      var e :| 0 <= e < |t.downloads| && ClaimsAt(t.downloads[e], p);
      assert e != d ==> ClaimsAt(s.downloads[e], p);
    }
  }

  lemma OrderlyClaims(s: State, d: nat, path: Path)
    requires Orderly(s) && d < |s.downloads| && PartialOf(path) !in s.fs
    requires s.downloads[d].phase.Creating? && Target(s.downloads[d]) == Some(path)
    ensures Orderly(With(s.(fs := s.fs[PartialOf(path) := Claim(Some(d))]), d, Streaming(path, s.downloads[d].phase.split)))
  {
    hide PartialOf;
    var t := With(s.(fs := s.fs[PartialOf(path) := Claim(Some(d))]), d, Streaming(path, s.downloads[d].phase.split));
    PartialOfFacts(path, path);
    forall q ensures Claimed(t, q) <==> Claimed(s, q) || q == PartialOf(path) { ClaimedCreates(s, t, d, q); }
    forall k | 0 <= k < |t.downloads| ensures Holds(t, k) { assert Holds(s, k) && Holds(s, d); }
    forall q | q in t.fs ensures Owned(t, q) { assert q in s.fs ==> Owned(s, q); }
    forall k | 0 <= k < |s.downloads| && InFlight(s.downloads[k].phase) ensures s.downloads[k].phase.path != path {
      assert Holds(s, k);
    }
    forall p, q | p in t.fs && q in t.fs && t.fs[p].owner.Some? && t.fs[p].owner == t.fs[q].owner ensures p == q {
      assert p in s.fs ==> Owned(s, p);
      assert q in s.fs ==> Owned(s, q);
    }
  }

  /** Noticing keeps where a download is and what it wants. */
  lemma NoticedKeeps(x: Download, left: Path, landed: Option<Path>, p: Path)
    ensures var y := Noticed(x, left, landed);
            Target(y) == Target(x) && ClaimsAt(y, p) == ClaimsAt(x, p) && InFlight(y.phase) == InFlight(x.phase)
            && y.phase.Completed? == x.phase.Completed? && y.candidates == x.candidates
            && (InFlight(x.phase) || x.phase.Completed? ==> y.phase.path == x.phase.path)
            && (x.phase.Completed? ==> y == x)
    ensures Target(x).Some? ==>
              Split(Noticed(x, left, landed).phase)
              == (if Target(x).value == left then false else if landed == Target(x) then true else Split(x.phase))
  {
    hide PartialOf;
  }

  /** The claims after one download ends. */
  lemma ClaimedEnds(s: State, t: State, d: nat, p: Path)
    requires Exclusive(s) && d < |s.downloads| && |t.downloads| == |s.downloads|
    requires InFlight(s.downloads[d].phase) && !InFlight(t.downloads[d].phase)
    requires forall k, q :: 0 <= k < |s.downloads| && k != d ==> ClaimsAt(t.downloads[k], q) == ClaimsAt(s.downloads[k], q)
    ensures Claimed(t, p) <==> Claimed(s, p) && p != PartialOf(s.downloads[d].phase.path)
  {
    hide PartialOf;
    var claim := PartialOf(s.downloads[d].phase.path);
    assert ClaimsAt(s.downloads[d], claim);
    Unclaimed(s, d, claim);
    if Claimed(s, p) && p != claim {
      var e :| 0 <= e < |s.downloads| && ClaimsAt(s.downloads[e], p);
      assert ClaimsAt(t.downloads[e], p);
    }
    if Claimed(t, p) {
      var e :| 0 <= e < |t.downloads| && ClaimsAt(t.downloads[e], p);
      assert ClaimsAt(s.downloads[e], p);
    }
  }

  /** What ending a download, with or without a rename, does to the others. */
  lemma Ends(s: State, t: State, d: nat, landed: Option<Path>)
    requires Exclusive(s) && d < |s.downloads| && InFlight(s.downloads[d].phase)
    requires |t.downloads| == |s.downloads| && !InFlight(t.downloads[d].phase)
    requires forall k :: 0 <= k < |s.downloads| && k != d ==>
               t.downloads[k] == Noticed(s.downloads[k], PartialOf(s.downloads[d].phase.path), landed)
    ensures Exclusive(t)
    ensures forall p :: Claimed(t, p) <==> Claimed(s, p) && p != PartialOf(s.downloads[d].phase.path)
  {
    hide PartialOf;
    var claim := PartialOf(s.downloads[d].phase.path);
    forall k, p | 0 <= k < |s.downloads| ensures ClaimsAt(Noticed(s.downloads[k], claim, landed), p) == ClaimsAt(s.downloads[k], p) {
      NoticedKeeps(s.downloads[k], claim, landed, p);
    }
    forall p ensures Claimed(t, p) <==> Claimed(s, p) && p != claim { ClaimedEnds(s, t, d, p); }
    forall k | 0 <= k < |s.downloads| && k != d
      ensures InFlight(t.downloads[k].phase) == InFlight(s.downloads[k].phase)
      ensures InFlight(s.downloads[k].phase) ==> t.downloads[k].phase.path == s.downloads[k].phase.path
    {
      NoticedKeeps(s.downloads[k], claim, landed, claim);
    }
  }

  lemma HoldsDrops(s: State, d: nat, k: nat)
    requires Exclusive(s) && d < |s.downloads| && InFlight(s.downloads[d].phase)
    requires k < |Drops(s, d).downloads| && Holds(s, k)
    ensures Holds(Drops(s, d), k)
  {
    hide PartialOf, Noticed, Claimed;
    var t, path := Drops(s, d), s.downloads[d].phase.path;
    Ends(s, t, d, None);
    if k != d {
      NoticedKeeps(s.downloads[k], PartialOf(path), None, path);
      if InFlight(s.downloads[k].phase) { PartialOfFacts(path, s.downloads[k].phase.path); }
    }
  }

  lemma OrderlyDrops(s: State, d: nat)
    requires Orderly(s) && d < |s.downloads| && InFlight(s.downloads[d].phase)
    ensures Orderly(Drops(s, d))
  {
    hide PartialOf, Noticed, Claimed, Holds, Owned;
    var t := Drops(s, d);
    Ends(s, t, d, None);
    forall k | 0 <= k < |t.downloads| ensures Holds(t, k) { HoldsDrops(s, d, k); }
    forall q | q in t.fs ensures Owned(t, q) { OwnedEnds(s, t, d, None, q); }
  }

  /** A file away from the ending download's path and claim belongs to whom it belonged. */
  lemma OwnedEnds(s: State, t: State, d: nat, landed: Option<Path>, q: Path)
    requires d < |s.downloads| && InFlight(s.downloads[d].phase) && |t.downloads| == |s.downloads|
    requires forall k :: 0 <= k < |s.downloads| && k != d ==>
               t.downloads[k] == Noticed(s.downloads[k], PartialOf(s.downloads[d].phase.path), landed)
    requires q in s.fs && q in t.fs && t.fs[q] == s.fs[q] && Owned(s, q) && q != PartialOf(s.downloads[d].phase.path)
    ensures Owned(t, q)
  {
    hide PartialOf;
    if s.fs[q].owner.Some? {
      var k := s.fs[q].owner.value;
      NoticedKeeps(s.downloads[k], PartialOf(s.downloads[d].phase.path), landed, q);
    }
  }

  lemma HoldsItsClaim(s: State, d: nat)
    requires d < |s.downloads| && Holds(s, d) && InFlight(s.downloads[d].phase)
    ensures PartialOf(s.downloads[d].phase.path) in s.fs
    ensures s.fs[PartialOf(s.downloads[d].phase.path)].owner.Some?
  {
  }

  lemma HoldsLands(s: State, d: nat, k: nat)
    requires Exclusive(s) && d < |s.downloads| && s.downloads[d].phase.Renaming? && Holds(s, d)
    requires PartialOf(s.downloads[d].phase.path) in s.fs
    requires k < |Lands(s, d).downloads| && Holds(s, k)
    ensures Holds(Lands(s, d), k)
  {
    hide PartialOf, Noticed, Claimed;
    var t, path := Lands(s, d), s.downloads[d].phase.path;
    PartialOfFacts(path, path);
    Ends(s, t, d, Some(path));
    NoticedKeeps(s.downloads[k], PartialOf(path), Some(path), path);
    if k != d && InFlight(s.downloads[k].phase) { PartialOfFacts(path, s.downloads[k].phase.path); }
  }

  lemma OwnedLands(s: State, d: nat)
    requires d < |s.downloads| && s.downloads[d].phase.Renaming? && Holds(s, d)
    requires PartialOf(s.downloads[d].phase.path) in s.fs && Owned(s, PartialOf(s.downloads[d].phase.path))
    ensures Owned(Lands(s, d), s.downloads[d].phase.path)
  {
    hide PartialOf, Noticed, Claimed;
    var path := s.downloads[d].phase.path;
    var claim := PartialOf(path);
    if s.fs[claim].Whole? { NoticedKeeps(s.downloads[s.fs[claim].owner.value], claim, Some(path), claim); }
  }

  lemma OrderlyLands(s: State, d: nat)
    requires Orderly(s) && d < |s.downloads| && s.downloads[d].phase.Renaming?
    ensures PartialOf(s.downloads[d].phase.path) in s.fs && Orderly(Lands(s, d))
  {
    hide PartialOf, Noticed, Claimed, Holds, Owned;
    var path := s.downloads[d].phase.path;
    HoldsItsClaim(s, d);
    var t := Lands(s, d);
    PartialOfFacts(path, path);
    Ends(s, t, d, Some(path));
    forall k | 0 <= k < |t.downloads| ensures Holds(t, k) { HoldsLands(s, d, k); }
    forall q | q in t.fs ensures Owned(t, q) {
      if q != path { OwnedEnds(s, t, d, Some(path), q); } else { OwnedLands(s, d); }
    }
  }

  lemma OrderlyStep(s: State, a: Action)
    requires Orderly(s)
    ensures Orderly(Apply(s, a)) && |Apply(s, a).downloads| == |s.downloads|
  {
    hide Orderly, PartialOf, Drops, Lands;
    if a.d < |s.downloads| {
      var x := s.downloads[a.d];
      match a
      case Exists(d) => if x.phase.Checking? { OrderlyMoves(s, d, Apply(s, a).downloads[d].phase); }
      case Create(d) =>
        if x.phase.Creating? && x.phase.i < |x.candidates| {
          if PartialOf(x.candidates[x.phase.i]) in s.fs { OrderlyMoves(s, d, Checking(x.phase.i + 1)); }
          else { OrderlyClaims(s, d, x.candidates[x.phase.i]); }
        }
      case Stream(d, ok) =>
        if x.phase.Streaming? {
          if ok { OrderlyStreams(s, d); } else { OrderlyDrops(s, d); DropsLength(s, d); }
        }
      case Rename(d, ok) =>
        if x.phase.Renaming? {
          OrderlyLands(s, d);
          OrderlyDrops(s, d);
          DropsLength(s, d);
        }
      case GiveUp(d) => if x.phase.Checking? || x.phase.Creating? { OrderlyMoves(s, d, Failed); }
    }
  }

  lemma DropsLength(s: State, d: nat)
    requires d < |s.downloads| && InFlight(s.downloads[d].phase)
    ensures |Drops(s, d).downloads| == |s.downloads|
    ensures s.downloads[d].phase.Renaming? && PartialOf(s.downloads[d].phase.path) in s.fs ==> |Lands(s, d).downloads| == |s.downloads|
  {
  }

  lemma {:induction false} OrderlyRun(s: State, acts: seq<Action>)
    requires Orderly(s)
    ensures Orderly(Run(s, acts)) && |Run(s, acts).downloads| == |s.downloads|
    decreases |acts|
  {
    hide Orderly, Apply;
    if acts != [] {
      OrderlyStep(s, acts[0]);
      OrderlyRun(Apply(s, acts[0]), acts[1..]);
    }
  }

  lemma FreshIsOrderly(s: State)
    requires Fresh(s)
    ensures Orderly(s)
  {
  }

  /** Two downloads in flight never hold the same reserved path, whatever their names. */
  lemma PathsAreExclusive(s: State, acts: seq<Action>, d: nat, e: nat)
    requires Fresh(s) && d < |s.downloads| && e < |s.downloads|
    requires |Run(s, acts).downloads| == |s.downloads|
    requires InFlight(Run(s, acts).downloads[d].phase) && InFlight(Run(s, acts).downloads[e].phase)
    ensures Run(s, acts).downloads[d].phase.path == Run(s, acts).downloads[e].phase.path ==> d == e
  {
    FreshIsOrderly(s);
    OrderlyRun(s, acts);
  }

  /**
   * A rename replaces a whole file exactly when another download's rename put
   * one there since this one's exists-check and it is still there, and
   * another download's claim exactly when no such rename came and the path is
   * the name of that claim.
   */
  lemma OverwritesExactlySplits(s: State, acts: seq<Action>, d: nat)
    requires Fresh(s) && d < |s.downloads|
    requires |Run(s, acts).downloads| == |s.downloads| && Run(s, acts).downloads[d].phase.Renaming?
    ensures var t := Run(s, acts);
            var u := Apply(t, Rename(d, true));
            var x := t.downloads[d].phase;
            u.downloads[d].phase == Completed(x.path)
            && u.overwrote == (if x.split then t.overwrote + [d] else t.overwrote)
            && u.overran == (if !x.split && Claimed(t, x.path) then t.overran + [d] else t.overran)
  {
    hide Run, PartialOf, Claimed;
    FreshIsOrderly(s);
    OrderlyRun(s, acts);
    assert Holds(Run(s, acts), d);
  }

  /**
   * A download is split by exactly one kind of operation: between its
   * exists-check and its exclusive create, another download of the same path
   * is renamed onto it.
   */
  lemma SplitsBetweenCheckAndCreate(s: State, acts: seq<Action>, d: nat, a: Action)
    requires Fresh(s) && d < |s.downloads|
    requires |Run(s, acts).downloads| == |s.downloads| && |Apply(Run(s, acts), a).downloads| == |s.downloads|
    ensures var t := Run(s, acts);
            !Split(t.downloads[d].phase) && Split(Apply(t, a).downloads[d].phase) <==>
              t.downloads[d].phase.Creating? && !t.downloads[d].phase.split && Target(t.downloads[d]).Some?
              && a.d != d && a == Rename(a.d, true) && a.d < |t.downloads| && t.downloads[a.d].phase.Renaming?
              && t.downloads[a.d].phase.path == Target(t.downloads[d]).value
  {
    hide Run, Orderly, Apply;
    FreshIsOrderly(s);
    OrderlyRun(s, acts);
    SplitStep(Run(s, acts), a, d);
  }

  lemma SplitStep(s: State, a: Action, d: nat)
    requires Orderly(s) && d < |s.downloads| && |Apply(s, a).downloads| == |s.downloads|
    ensures !Split(s.downloads[d].phase) && Split(Apply(s, a).downloads[d].phase) <==>
              s.downloads[d].phase.Creating? && !s.downloads[d].phase.split && Target(s.downloads[d]).Some?
              && a.d != d && a == Rename(a.d, true) && a.d < |s.downloads| && s.downloads[a.d].phase.Renaming?
              && s.downloads[a.d].phase.path == Target(s.downloads[d]).value
  {
    hide PartialOf, Noticed, Claimed, Drops, Lands;
    if a.d < |s.downloads| && InFlight(s.downloads[a.d].phase) {
      var e := a.d;
      assert Holds(s, e);
      DropsLength(s, e);
      SplitDrops(s, e, d);
      if s.downloads[e].phase.Renaming? { SplitLands(s, e, d); }
    }
  }

  lemma SplitDrops(s: State, e: nat, d: nat)
    requires e < |s.downloads| && d < |s.downloads| && InFlight(s.downloads[e].phase)
    requires |Drops(s, e).downloads| == |s.downloads|
    ensures Split(Drops(s, e).downloads[d].phase) ==> Split(s.downloads[d].phase)
  {
    hide PartialOf;
  }

  lemma SplitLands(s: State, e: nat, d: nat)
    requires Exclusive(s) && e < |s.downloads| && d < |s.downloads| && s.downloads[e].phase.Renaming?
    requires PartialOf(s.downloads[e].phase.path) in s.fs && |Lands(s, e).downloads| == |s.downloads|
    ensures !Split(s.downloads[d].phase) && Split(Lands(s, e).downloads[d].phase) <==>
              d != e && s.downloads[d].phase.Creating? && !s.downloads[d].phase.split
              && Target(s.downloads[d]) == Some(s.downloads[e].phase.path)
  {
    hide PartialOf;
    PartialOfFacts(s.downloads[e].phase.path, s.downloads[e].phase.path);
  }

  // ----- names that do not end like a claim

  /** No download is for a name that ends like a claim. */
  predicate PlainNames(s: State) {
    forall d, i :: 0 <= d < |s.downloads| && 0 <= i < |s.downloads[d].candidates| ==> !EndsPartial(s.downloads[d].candidates[i])
  }

  predicate Plain(x: Download) {
    && (forall i :: 0 <= i < |x.candidates| ==> !EndsPartial(x.candidates[i]))
    && (Target(x).Some? ==> !EndsPartial(Target(x).value))
  }

  lemma PlainNoticed(x: Download, left: Path, landed: Option<Path>)
    requires Plain(x)
    ensures Plain(Noticed(x, left, landed))
  {
    NoticedKeeps(x, left, landed, left);
  }

  predicate AllPlain(s: State) { s.overran == [] && forall d :: 0 <= d < |s.downloads| ==> Plain(s.downloads[d]) }

  lemma PlainDrops(s: State, d: nat)
    requires AllPlain(s) && d < |s.downloads| && InFlight(s.downloads[d].phase)
    ensures AllPlain(Drops(s, d))
  {
    hide PartialOf, EndsPartial, Noticed;
    forall k | 0 <= k < |s.downloads| ensures Plain(Drops(s, d).downloads[k]) {
      PlainNoticed(s.downloads[k], PartialOf(s.downloads[d].phase.path), None);
    }
  }

  lemma PlainLands(s: State, d: nat)
    requires AllPlain(s) && d < |s.downloads| && s.downloads[d].phase.Renaming? && Holds(s, d)
    requires PartialOf(s.downloads[d].phase.path) in s.fs
    ensures AllPlain(Lands(s, d))
  {
    hide PartialOf, EndsPartial, Noticed, Claimed;
    var path := s.downloads[d].phase.path;
    assert Plain(s.downloads[d]);
    ClaimedEndsPartial(s, path);
    forall k | 0 <= k < |s.downloads| ensures Plain(Lands(s, d).downloads[k]) {
      PlainNoticed(s.downloads[k], PartialOf(path), Some(path));
    }
  }

  lemma PlainStep(s: State, a: Action)
    requires Orderly(s) && AllPlain(s)
    ensures AllPlain(Apply(s, a))
  {
    hide PartialOf, EndsPartial, Drops, Lands;
    if a.d < |s.downloads| {
      assert Holds(s, a.d) && Plain(s.downloads[a.d]);
      if InFlight(s.downloads[a.d].phase) {
        PlainDrops(s, a.d);
        if s.downloads[a.d].phase.Renaming? { PlainLands(s, a.d); }
      }
    }
  }

  lemma ClaimedEndsPartial(s: State, p: Path)
    ensures Claimed(s, p) ==> EndsPartial(p)
  {
    if Claimed(s, p) {
      var e :| 0 <= e < |s.downloads| && ClaimsAt(s.downloads[e], p);
      PartialOfFacts(s.downloads[e].phase.path, p);
    }
  }

  lemma {:induction false} PlainRun(s: State, acts: seq<Action>)
    requires Orderly(s) && AllPlain(s)
    ensures Run(s, acts).overran == []
    decreases |acts|
  {
    hide Orderly, Apply, Plain;
    if acts != [] {
      OrderlyStep(s, acts[0]);
      PlainStep(s, acts[0]);
      PlainRun(Apply(s, acts[0]), acts[1..]);
    }
  }

  /** If no name tried ends like a claim, no rename ever replaces a claim. */
  lemma PlainNamesSpareClaims(s: State, acts: seq<Action>)
    requires Fresh(s) && PlainNames(s)
    ensures Run(s, acts).overran == []
  {
    hide EndsPartial;
    FreshIsOrderly(s);
    PlainRun(s, acts);
  }

  // ----- what becomes of finished files

  predicate InPlace(s: State, d: nat)
    requires d < |s.downloads| && s.downloads[d].phase.Completed?
  {
    s.downloads[d].phase.path in s.fs && s.fs[s.downloads[d].phase.path] == Whole(Some(d))
  }

  /** Every finished download has its own bytes at its path. */
  predicate AllInPlace(s: State) {
    forall d :: 0 <= d < |s.downloads| && s.downloads[d].phase.Completed? ==> InPlace(s, d)
  }

  predicate NoneReplaced(s: State) { s.overwrote == [] && s.overran == [] }

  /** With nothing replaced so far, every file and every claim is where its download left it. */
  predicate Kept(s: State) {
    NoneReplaced(s) ==>
      AllInPlace(s)
      && forall d :: 0 <= d < |s.downloads| && InFlight(s.downloads[d].phase) ==>
           PartialOf(s.downloads[d].phase.path) in s.fs && s.fs[PartialOf(s.downloads[d].phase.path)] == Claim(Some(d))
  }

  /**
   * A finished download whose bytes will not be at its path in the end: they
   * are gone, or were carried to a shorter path, or are at its path under a
   * claim's name.
   */
  ghost predicate Doomed(s: State, x: nat) {
    && x < |s.downloads| && s.downloads[x].phase.Completed?
    && forall p :: p in s.fs && s.fs[p].owner == Some(x) ==>
         |p| < |s.downloads[x].phase.path| || (p == s.downloads[x].phase.path && Claimed(s, p))
  }

  ghost predicate SomeDoomed(s: State) { exists x :: Doomed(s, x) }

  lemma KeptDrops(s: State, d: nat)
    requires Orderly(s) && Kept(s) && d < |s.downloads| && InFlight(s.downloads[d].phase)
    ensures Kept(Drops(s, d))
  {
    hide PartialOf, Noticed, Claimed;
    var t, claim := Drops(s, d), PartialOf(s.downloads[d].phase.path);
    if NoneReplaced(t) {
      forall k | 0 <= k < |t.downloads| && t.downloads[k].phase.Completed? ensures InPlace(t, k) {
        NoticedKeeps(s.downloads[k], claim, None, claim);
      }
      forall k | 0 <= k < |t.downloads| && InFlight(t.downloads[k].phase)
        ensures PartialOf(t.downloads[k].phase.path) in t.fs && t.fs[PartialOf(t.downloads[k].phase.path)] == Claim(Some(k))
      {
        NoticedKeeps(s.downloads[k], claim, None, claim);
        PartialOfFacts(s.downloads[k].phase.path, s.downloads[d].phase.path);
      }
    }
  }

  lemma KeptLands(s: State, d: nat)
    requires Orderly(s) && Kept(s) && d < |s.downloads| && s.downloads[d].phase.Renaming?
    requires PartialOf(s.downloads[d].phase.path) in s.fs
    ensures Kept(Lands(s, d))
  {
    hide PartialOf, Noticed, Claimed;
    var t, path := Lands(s, d), s.downloads[d].phase.path;
    var claim := PartialOf(path);
    PartialOfFacts(path, path);
    if NoneReplaced(t) {
      forall k | 0 <= k < |t.downloads| && t.downloads[k].phase.Completed? ensures InPlace(t, k) {
        NoticedKeeps(s.downloads[k], claim, Some(path), claim);
      }
      forall k | 0 <= k < |t.downloads| && InFlight(t.downloads[k].phase)
        ensures PartialOf(t.downloads[k].phase.path) in t.fs && t.fs[PartialOf(t.downloads[k].phase.path)] == Claim(Some(k))
      {
        NoticedKeeps(s.downloads[k], claim, Some(path), claim);
        PartialOfFacts(s.downloads[k].phase.path, path);
      }
    }
  }

  lemma KeptRest(s: State, a: Action)
    requires Orderly(s) && Kept(s) && (a.Exists? || a.Create? || a.GiveUp? || (a.Stream? && a.ok))
    ensures Kept(Apply(s, a))
  {
    hide PartialOf, Claimed;
    var t := Apply(s, a);
    if NoneReplaced(t) {
      forall k | 0 <= k < |t.downloads| && t.downloads[k].phase.Completed? ensures InPlace(t, k) {
        assert InPlace(s, k);
      }
    }
  }

  lemma KeptStep(s: State, a: Action)
    requires Orderly(s) && Kept(s)
    ensures Kept(Apply(s, a))
  {
    hide Orderly, Kept, Drops, Lands, PartialOf;
    if a.Exists? || a.Create? || a.GiveUp? || (a.Stream? && a.ok) {
      KeptRest(s, a);
    } else if a.d < |s.downloads| && InFlight(s.downloads[a.d].phase) {
      KeptDrops(s, a.d);
      if s.downloads[a.d].phase.Renaming? {
        OrderlyLands(s, a.d);
        KeptLands(s, a.d);
      }
    }
  }

  lemma DoomedDrops(s: State, d: nat, x: nat)
    requires Orderly(s) && Doomed(s, x) && d < |s.downloads| && InFlight(s.downloads[d].phase)
    ensures Doomed(Drops(s, d), x)
  {
    hide PartialOf, Noticed, Claimed;
    var t, claim := Drops(s, d), PartialOf(s.downloads[d].phase.path);
    NoticedKeeps(s.downloads[x], claim, None, claim);
    Ends(s, t, d, None);
  }

  lemma DoomedLands(s: State, d: nat, x: nat)
    requires Orderly(s) && Doomed(s, x) && d < |s.downloads| && s.downloads[d].phase.Renaming?
    requires PartialOf(s.downloads[d].phase.path) in s.fs
    ensures Doomed(Lands(s, d), x)
  {
    hide PartialOf, Noticed, Claimed;
    var t, path := Lands(s, d), s.downloads[d].phase.path;
    var claim := PartialOf(path);
    PartialOfFacts(path, path);
    NoticedKeeps(s.downloads[x], claim, Some(path), claim);
    Ends(s, t, d, Some(path));
  }

  /** A rename that replaces anything dooms somebody: the one whose file it was, or the one that landed. */
  lemma ReplacingDooms(s: State, d: nat)
    requires Orderly(s) && d < |s.downloads| && s.downloads[d].phase.Renaming?
    requires PartialOf(s.downloads[d].phase.path) in s.fs && s.downloads[d].phase.path in s.fs
    ensures SomeDoomed(Lands(s, d))
  {
    hide PartialOf, Noticed, Claimed;
    var t, path := Lands(s, d), s.downloads[d].phase.path;
    var claim := PartialOf(path);
    PartialOfFacts(path, path);
    assert Holds(s, d) && Owned(s, path) && Owned(s, claim);
    Ends(s, t, d, Some(path));
    if s.fs[path].Whole? {
      var x := s.fs[path].owner.value;
      NoticedKeeps(s.downloads[x], claim, Some(path), claim);
      assert Doomed(t, x);
    } else {
      forall p | p in s.fs && s.fs[p].owner == Some(d) ensures p == claim { assert Owned(s, p); }
      assert Doomed(t, d);
    }
  }

  lemma DoomedRest(s: State, a: Action, x: nat)
    requires Orderly(s) && Doomed(s, x) && (a.Exists? || a.Create? || a.GiveUp? || (a.Stream? && a.ok))
    ensures Doomed(Apply(s, a), x)
  {
    hide PartialOf, Claimed;
    var t := Apply(s, a);
    forall p | Claimed(s, p) ensures Claimed(t, p) { ClaimsStay(s, a, p); }
  }

  lemma ClaimsStay(s: State, a: Action, p: Path)
    requires Claimed(s, p) && (a.Exists? || a.Create? || a.GiveUp? || (a.Stream? && a.ok))
    ensures Claimed(Apply(s, a), p)
  {
    hide PartialOf;
    var e :| 0 <= e < |s.downloads| && ClaimsAt(s.downloads[e], p);
    assert ClaimsAt(Apply(s, a).downloads[e], p);
  }

  /** Doom stays, and something replaced means somebody is doomed. */
  lemma DoomedStep(s: State, a: Action)
    requires Orderly(s) && (NoneReplaced(s) || SomeDoomed(s))
    ensures NoneReplaced(Apply(s, a)) || SomeDoomed(Apply(s, a))
  {
    hide Orderly, Doomed, PartialOf, Noticed;
    if SomeDoomed(s) {
      var x :| Doomed(s, x);
      hide Drops, Lands;
      if a.Exists? || a.Create? || a.GiveUp? || (a.Stream? && a.ok) {
        DoomedRest(s, a, x);
      } else if a.d < |s.downloads| && InFlight(s.downloads[a.d].phase) {
        DoomedDrops(s, a.d, x);
        if s.downloads[a.d].phase.Renaming? {
          OrderlyLands(s, a.d);
          DoomedLands(s, a.d, x);
        }
      }
      assert Doomed(Apply(s, a), x);
    } else if a.Rename? && a.d < |s.downloads| && s.downloads[a.d].phase.Renaming? {
      OrderlyLands(s, a.d);
      if s.downloads[a.d].phase.path in s.fs { ReplacingDooms(s, a.d); }
    }
  }

  lemma {:induction false} KeptRun(s: State, acts: seq<Action>)
    requires Orderly(s) && Kept(s) && (NoneReplaced(s) || SomeDoomed(s))
    ensures Orderly(Run(s, acts)) && Kept(Run(s, acts)) && (NoneReplaced(Run(s, acts)) || SomeDoomed(Run(s, acts)))
    decreases |acts|
  {
    hide Orderly, Apply, Kept, SomeDoomed, NoneReplaced;
    if acts != [] {
      OrderlyStep(s, acts[0]);
      KeptStep(s, acts[0]);
      DoomedStep(s, acts[0]);
      KeptRun(Apply(s, acts[0]), acts[1..]);
    }
  }

  /** With nobody in flight, a doomed download's file is not in its place. */
  lemma DoomedIsGone(s: State, x: nat)
    requires Doomed(s, x) && forall d :: 0 <= d < |s.downloads| ==> !InFlight(s.downloads[d].phase)
    ensures !InPlace(s, x)
  {
    assert !Claimed(s, s.downloads[x].phase.path);
  }

  /**
   * As long as no rename has replaced anything, every finished download has
   * its bytes at its path; and when no download is in flight any more, that
   * is so if and only if no rename ever replaced anything.
   */
  lemma FinishedFilesKeptIff(s: State, acts: seq<Action>)
    requires Fresh(s)
    ensures NoneReplaced(Run(s, acts)) ==> AllInPlace(Run(s, acts))
    ensures (forall d :: 0 <= d < |Run(s, acts).downloads| ==> !InFlight(Run(s, acts).downloads[d].phase)) ==>
              (AllInPlace(Run(s, acts)) <==> NoneReplaced(Run(s, acts)))
  {
    hide Run, Doomed, Orderly, InPlace;
    FreshIsOrderly(s);
    KeptRun(s, acts);
    var t := Run(s, acts);
    if !NoneReplaced(t) && forall d :: 0 <= d < |t.downloads| ==> !InFlight(t.downloads[d].phase) {
      var x :| Doomed(t, x);
      DoomedIsGone(t, x);
      DoomedCompleted(t, x);
    }
  }

  lemma DoomedCompleted(s: State, x: nat)
    requires Doomed(s, x)
    ensures x < |s.downloads| && s.downloads[x].phase.Completed?
  {
  }

  // ----- a download by itself

  /** What Reserve does when nobody comes between: check each name, try to claim it, go on to the next one. */
  function Tries(s: State, d: nat, i: nat): seq<Action>
    requires d < |s.downloads|
    decreases |s.downloads[d].candidates| - i
  {
    var c := s.downloads[d].candidates;
    if i >= |c| then [Exists(d)]
    else if c[i] in s.fs then [Exists(d)] + Tries(s, d, i + 1)
    else if c[i] + ".partial" in s.fs then [Exists(d), Create(d)] + Tries(s, d, i + 1)
    else [Exists(d), Create(d)]
  }

  predicate Free(s: State, p: Path) { p !in s.fs && p + ".partial" !in s.fs }

  /** A download that holds no name yet has reached candidate i. */
  function At(s: State, d: nat, i: nat): State
    requires d < |s.downloads|
  {
    With(s, d, Checking(i))
  }

  lemma WithTwice(s: State, d: nat, p: Phase, q: Phase)
    requires d < |s.downloads|
    ensures With(With(s, d, p), d, q) == With(s, d, q)
  {
    assert s.downloads[d := s.downloads[d].(phase := p)][d := s.downloads[d].(phase := q)] == s.downloads[d := s.downloads[d].(phase := q)];
  }

  /** The check, and the create, at candidate i. */
  lemma AloneStep(s: State, d: nat, i: nat)
    requires d < |s.downloads| && i < |s.downloads[d].candidates|
    ensures var path := s.downloads[d].candidates[i];
            && Apply(At(s, d, i), Exists(d)) == (if path in s.fs then At(s, d, i + 1) else With(s, d, Creating(i, false)))
            && Apply(With(s, d, Creating(i, false)), Create(d))
               == if path + ".partial" in s.fs then At(s, d, i + 1)
                  else With(s.(fs := s.fs[path + ".partial" := Claim(Some(d))]), d, Streaming(path, false))
  {
    hide Lands, Drops;
    var path := s.downloads[d].candidates[i];
    WithTwice(s, d, Checking(i), Checking(i + 1));
    WithTwice(s, d, Checking(i), Creating(i, false));
    WithTwice(s, d, Creating(i, false), Checking(i + 1));
    WithTwice(s.(fs := s.fs[path + ".partial" := Claim(Some(d))]), d, Creating(i, false), Streaming(path, false));
  }

  lemma AloneStops(s: State, d: nat, i: nat)
    requires d < |s.downloads| && i >= |s.downloads[d].candidates|
    ensures Apply(At(s, d, i), Exists(d)) == With(s, d, Failed)
  {
    hide Lands, Drops;
    WithTwice(s, d, Checking(i), Failed);
  }

  lemma {:induction false} AloneReserves(s: State, d: nat, i: nat, k: nat)
    requires d < |s.downloads| && i <= k < |s.downloads[d].candidates|
    requires Free(s, s.downloads[d].candidates[k])
    requires forall j :: i <= j < k ==> !Free(s, s.downloads[d].candidates[j])
    ensures var path := s.downloads[d].candidates[k];
            Run(At(s, d, i), Tries(s, d, i))
            == With(s.(fs := s.fs[path + ".partial" := Claim(Some(d))]), d, Streaming(path, false))
    decreases k - i
  {
    hide Run, Apply, With;
    AloneStep(s, d, i);
    var c := s.downloads[d].candidates;
    var rest := if i < k then Tries(s, d, i + 1) else [];
    if c[i] in s.fs {
      RunOne(At(s, d, i), Exists(d), rest);
    } else {
      assert Tries(s, d, i) == [Exists(d)] + ([Create(d)] + rest);
      RunOne(At(s, d, i), Exists(d), [Create(d)] + rest);
      RunOne(With(s, d, Creating(i, false)), Create(d), rest);
    }
    if i < k { AloneReserves(s, d, i + 1, k); } else { RunNothing(Apply(With(s, d, Creating(i, false)), Create(d))); }
  }

  lemma {:induction false} AloneRunsOut(s: State, d: nat, i: nat)
    requires d < |s.downloads| && i <= |s.downloads[d].candidates|
    requires forall j :: i <= j < |s.downloads[d].candidates| ==> !Free(s, s.downloads[d].candidates[j])
    ensures Run(At(s, d, i), Tries(s, d, i)) == With(s, d, Failed)
    decreases |s.downloads[d].candidates| - i
  {
    hide Run, Apply, With;
    var c := s.downloads[d].candidates;
    if i == |c| {
      AloneStops(s, d, i);
      assert [Exists(d)] == [Exists(d)] + [];
      RunOne(At(s, d, i), Exists(d), []);
      RunNothing(With(s, d, Failed));
    } else {
      var rest := Tries(s, d, i + 1);
      AloneStep(s, d, i);
      if c[i] in s.fs {
        RunOne(At(s, d, i), Exists(d), rest);
      } else {
        assert Tries(s, d, i) == [Exists(d)] + ([Create(d)] + rest);
        RunOne(At(s, d, i), Exists(d), [Create(d)] + rest);
        RunOne(With(s, d, Creating(i, false)), Create(d), rest);
      }
      AloneRunsOut(s, d, i + 1);
    }
  }

  /** From the claim on: a download that works out leaves its file at its path and no claim, one that does not leaves nothing. */
  lemma AloneFinishes(s: State, d: nat, path: Path)
    requires d < |s.downloads| && Free(s, path)
    ensures var t := With(s.(fs := s.fs[path + ".partial" := Claim(Some(d))]), d, Streaming(path, false));
            var done := Apply(Apply(t, Stream(d, true)), Rename(d, true));
            var broken, unmoved := Apply(t, Stream(d, false)), Apply(Apply(t, Stream(d, true)), Rename(d, false));
            && done.fs == s.fs[path := Whole(Some(d))] && |done.downloads| == |s.downloads|
            && done.downloads[d].phase == Completed(path) && done.overwrote == s.overwrote && done.overran == s.overran
            && broken.fs == s.fs && |broken.downloads| == |s.downloads| && broken.downloads[d].phase == Failed
            && unmoved.fs == s.fs && |unmoved.downloads| == |s.downloads| && unmoved.downloads[d].phase == Failed
  {
    hide AllNoticed;
    assert path + ".partial" != path by { assert |path + ".partial"| > |path|; }
    assert s.fs[path + ".partial" := Claim(Some(d))] - {path + ".partial"} == s.fs;
  }

  /**
   * A download nobody comes between takes the first of its names that is free
   * as a file and as a claim; its file ends there, every other file is as it
   * was, and nothing is replaced. If no name is free it fails and changes nothing.
   */
  lemma AloneTakesFirstFree(s: State, d: nat)
    requires d < |s.downloads| && s.downloads[d].phase == Checking(0)
    ensures var c := s.downloads[d].candidates;
            forall k :: 0 <= k < |c| && Free(s, c[k]) && (forall j :: 0 <= j < k ==> !Free(s, c[j])) ==>
              var t := Apply(Apply(Run(s, Tries(s, d, 0)), Stream(d, true)), Rename(d, true));
              t.fs == s.fs[c[k] := Whole(Some(d))] && |t.downloads| == |s.downloads|
              && t.downloads[d].phase == Completed(c[k]) && t.overwrote == s.overwrote && t.overran == s.overran
    ensures var c := s.downloads[d].candidates;
            (forall j :: 0 <= j < |c| ==> !Free(s, c[j])) ==> Run(s, Tries(s, d, 0)) == With(s, d, Failed)
  {
    hide Run, Apply, Free, Tries;
    var c := s.downloads[d].candidates;
    assert s.downloads[d := s.downloads[d].(phase := Checking(0))] == s.downloads;
    assert At(s, d, 0) == s;
    forall k | 0 <= k < |c| && Free(s, c[k]) && (forall j :: 0 <= j < k ==> !Free(s, c[j]))
      ensures var t := Apply(Apply(Run(s, Tries(s, d, 0)), Stream(d, true)), Rename(d, true));
              t.fs == s.fs[c[k] := Whole(Some(d))] && |t.downloads| == |s.downloads|
              && t.downloads[d].phase == Completed(c[k]) && t.overwrote == s.overwrote && t.overran == s.overran
    {
      AloneReserves(s, d, 0, k);
      AloneFinishes(s, d, c[k]);
    }
    if forall j :: 0 <= j < |c| ==> !Free(s, c[j]) { AloneRunsOut(s, d, 0); }
  }

  // ----- the two ways to lose a file

  const VIDEO: Path := "video.mp4"
  const ONE := Download([VIDEO], Checking(0))

  function SplitRun(): seq<Action> {
    [Exists(0), Create(0), Exists(1), Stream(0, true), Rename(0, true), Create(1), Stream(1, true), Rename(1, true)]
  }

  function FirstClaimed(): State {
    State(map[PartialOf(VIDEO) := Claim(Some(0))],
          [ONE.(phase := Streaming(VIDEO, false)), ONE.(phase := Creating(0, false))], [], [])
  }

  function FirstLanded(): State {
    State(map[VIDEO := Whole(Some(0))], [ONE.(phase := Completed(VIDEO)), ONE.(phase := Creating(0, true))], [], [])
  }

  lemma FirstSplits()
    ensures Apply(Apply(Apply(State(map[], [ONE, ONE], [], []), Exists(0)), Create(0)), Exists(1)) == FirstClaimed()
    ensures Apply(Apply(FirstClaimed(), Stream(0, true)), Rename(0, true)) == FirstLanded()
  {
    hide PartialOf, Drops, AllNoticed;
    PartialOfFacts(VIDEO, VIDEO);
  }

  lemma SecondOverwrites()
    ensures Apply(Apply(Apply(FirstLanded(), Create(1)), Stream(1, true)), Rename(1, true))
            == State(map[VIDEO := Whole(Some(1))], [ONE.(phase := Completed(VIDEO)), ONE.(phase := Completed(VIDEO))], [1], [])
  {
    hide PartialOf, Drops, AllNoticed;
    PartialOfFacts(VIDEO, VIDEO);
  }

  /** Two downloads of one name: the second is between its check and its create when the first one is renamed. */
  lemma SplitOverwrites()
    ensures var t := Run(State(map[], [ONE, ONE], [], []), SplitRun());
            t.overwrote == [1] && |t.downloads| == 2
            && t.downloads[0].phase == Completed(VIDEO) && t.downloads[1].phase == Completed(VIDEO)
            && t.fs == map[VIDEO := Whole(Some(1))]
  {
    hide PartialOf, Run, Apply;
    FirstSplits();
    SecondOverwrites();
    RunEight(State(map[], [ONE, ONE], [], []), SplitRun());
  }

  /** A download of one name. */
  function Named(p: Path): Download { Download([p], Checking(0)) }

  function CarryRun(): seq<Action> {
    [Exists(0), Exists(1), Create(1), Create(0), Stream(0, true), Rename(0, true), Stream(1, true), Rename(1, true)]
  }

  /** Both have claimed: the second one's claim stands at the first one's path. */
  function BothClaimed(v: Path, p: Path): State {
    State(map[p := Claim(Some(1)), PartialOf(p) := Claim(Some(0))],
          [Named(p).(phase := Streaming(p, false)), Named(v).(phase := Streaming(v, false))], [], [])
  }

  function OneLanded(v: Path, p: Path): State {
    State(map[p := Whole(Some(0))], [Named(p).(phase := Completed(p)), Named(v).(phase := Streaming(v, false))], [], [0])
  }

  lemma BothClaim(v: Path, p: Path)
    requires p == PartialOf(v)
    ensures var s0 := State(map[], [Named(p), Named(v)], [], []);
            Apply(Apply(Apply(Apply(s0, Exists(0)), Exists(1)), Create(1)), Create(0)) == BothClaimed(v, p)
  {
    hide PartialOf, Drops, AllNoticed;
    PartialOfFacts(v, v);
    PartialOfFacts(p, p);
  }

  lemma FirstLands(v: Path, p: Path)
    requires p == PartialOf(v)
    ensures Apply(Apply(BothClaimed(v, p), Stream(0, true)), Rename(0, true)) == OneLanded(v, p)
  {
    hide PartialOf, Drops, AllNoticed;
    PartialOfFacts(v, v);
    PartialOfFacts(p, p);
  }

  lemma SecondCarries(v: Path, p: Path)
    requires p == PartialOf(v)
    ensures Apply(Apply(OneLanded(v, p), Stream(1, true)), Rename(1, true))
            == State(map[v := Whole(Some(0))], [Named(p).(phase := Completed(p)), Named(v).(phase := Completed(v))], [], [0])
  {
    hide PartialOf, Drops, AllNoticed;
    PartialOfFacts(v, v);
    PartialOfFacts(p, p);
  }

  /**
   * One file is called like the other one's claim: the first one's rename
   * lands on that claim, and the second one's rename carries the first one's
   * bytes to its own path. No split, both completed, one path empty.
   */
  lemma ClaimNameCarriesAway(v: Path)
    ensures var p := PartialOf(v);
            var t := Run(State(map[], [Named(p), Named(v)], [], []), CarryRun());
            t.overwrote == [] && t.overran == [0] && |t.downloads| == 2
            && t.downloads[0].phase == Completed(p) && t.downloads[1].phase == Completed(v)
            && t.fs == map[v := Whole(Some(0))]
  {
    hide PartialOf, Run, Apply;
    var p := PartialOf(v);
    BothClaim(v, p);
    FirstLands(v, p);
    SecondCarries(v, p);
    RunEight(State(map[], [Named(p), Named(v)], [], []), CarryRun());
  }

  lemma RunOne(s: State, a: Action, rest: seq<Action>)
    ensures Run(s, [a] + rest) == Run(Apply(s, a), rest)
  {
    hide Apply;
    assert ([a] + rest)[1..] == rest;
  }

  lemma RunEight(s: State, a: seq<Action>)
    requires |a| == 8
    ensures Run(s, a) == Apply(Apply(Apply(Apply(Apply(Apply(Apply(Apply(s, a[0]), a[1]), a[2]), a[3]), a[4]), a[5]), a[6]), a[7])
  {
    hide Apply, Run;
    RunFour(s, a[..4], a[4..]);
    RunFour(Apply(Apply(Apply(Apply(s, a[0]), a[1]), a[2]), a[3]), a[4..], []);
    assert a == a[..4] + a[4..] && a[4..] + [] == a[4..];
    RunNothing(Apply(Apply(Apply(Apply(Apply(Apply(Apply(Apply(s, a[0]), a[1]), a[2]), a[3]), a[4]), a[5]), a[6]), a[7]));
  }

  lemma RunNothing(s: State)
    ensures Run(s, []) == s
  {
  }

  lemma RunFour(s: State, a: seq<Action>, rest: seq<Action>)
    requires |a| == 4
    ensures Run(s, a + rest) == Run(Apply(Apply(Apply(Apply(s, a[0]), a[1]), a[2]), a[3]), rest)
  {
    hide Apply, Run;
    assert a + rest == [a[0]] + ([a[1]] + ([a[2]] + ([a[3]] + rest)));
    RunOne(s, a[0], [a[1]] + ([a[2]] + ([a[3]] + rest)));
    RunOne(Apply(s, a[0]), a[1], [a[2]] + ([a[3]] + rest));
    RunOne(Apply(Apply(s, a[0]), a[1]), a[2], [a[3]] + rest);
    RunOne(Apply(Apply(Apply(s, a[0]), a[1]), a[2]), a[3], rest);
  }
}
