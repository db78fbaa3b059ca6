/**
 * Any number of processes over one secrets file (internal/core/config/secrets.go,
 * internal/core/config/flock_unix.go). One step is one file operation: taking
 * the lock, the reread under it, the rename, the release, or a Get, which
 * takes no file lock. A process runs one operation at a time, under its mutex.
 */
module SharedSecrets {

  import opened Basics
  import opened SecretStore

  datatype Phase = Idle | Locked(op: Op) | Current(op: Op) | Finished(op: Op, committed: bool)

  /** `version` counts the committed changes its cache has seen. */
  datatype Process = Process(store: Store, phase: Phase, version: nat)

  /**
   * `exclusive` is false where the lock is a stub. `log` is the committed
   * changes in the order the file was replaced, `acknowledged` those whose
   * caller was told so, in the order of the releases.
   */
  datatype State = State(procs: seq<Process>, file: Option<Raw>, exclusive: bool, log: seq<Op>, acknowledged: seq<Op>)

  datatype Action =
    | Lock(p: nat, op: Op)
    | Reread(p: nat, w: Weather)
    | Persist(p: nat, salt: int, writes: bool)
    | Unlock(p: nat)
    | Get(p: nat, w: Weather)

  function Init(n: nat, file: Option<Raw>, exclusive: bool): State {
    State(seq(n, _ => Process(NEW_STORE, Idle, 0)), file, exclusive, [], [])
  }

  predicate Holds(p: Process) { p.phase != Idle }

  predicate LockFree(s: State) {
    forall q :: 0 <= q < |s.procs| ==> !Holds(s.procs[q])
  }

  predicate Enabled(s: State, a: Action) {
    a.p < |s.procs| &&
    match a
    case Lock(p, _) => s.procs[p].phase == Idle && (s.exclusive ==> LockFree(s))
    case Reread(p, _) => s.procs[p].phase.Locked?
    case Persist(p, _, _) => s.procs[p].phase.Current?
    case Unlock(p) => s.procs[p].phase.Finished?
    case Get(p, _) => s.procs[p].phase == Idle
  }

  function With(s: State, p: nat, q: Process): State
    requires p < |s.procs|
  {
    s.(procs := s.procs[p := q])
  }

  /** The store read the file as it is now. */
  function Seeing(q: Process, st: Store, s: State): Process {
    q.(store := st, version := if st.loaded && (!q.store.loaded || st.lastRaw == s.file) then |s.log| else q.version)
  }

  function Apply(s: State, a: Action): State
    requires Enabled(s, a)
  {
    var q := s.procs[a.p];
    match a
    case Lock(p, op) => With(s, p, q.(phase := Locked(op)))
    case Reread(p, w) =>
      var st := Refreshed(q.store, s.file, w);
      With(s, p, Seeing(q, st, s).(phase :=
        if Refreshes(q.store, s.file, w) then Current(q.phase.op) else Finished(q.phase.op, false)))
    case Persist(p, salt, writes) =>
      var op := q.phase.op;
      if !Changes(op, q.store.cache) || !writes then With(s, p, q.(phase := Finished(op, false)))
      else
        var raw := Sealed(q.store.passphrase, Applied(op, q.store.cache), salt);
        var st := q.store.(cache := raw.plain, lastRaw := Some(raw));
        With(s.(file := Some(raw), log := s.log + [op]), p, Process(st, Finished(op, true), |s.log| + 1))
    case Unlock(p) =>
      With(s.(acknowledged := if q.phase.committed then s.acknowledged + [q.phase.op] else s.acknowledged), p, q.(phase := Idle))
    case Get(p, w) => With(s, p, if q.store.loaded then q else Seeing(q, Loaded(q.store, s.file, w), s))
  }

  function Run(s: State, acts: seq<Action>): State
    decreases |acts|
  {
    if acts == [] then s
    else Run(if Enabled(s, acts[0]) then Apply(s, acts[0]) else s, acts[1..])
  }

  /** The changes made one after another. */
  function Replay(m: Secrets, log: seq<Op>): Secrets {
    if log == [] then m else Applied(log[|log| - 1], Replay(m, log[..|log| - 1]))
  }

  lemma ReplayOne(m: Secrets, log: seq<Op>, op: Op)
    ensures Replay(m, log + [op]) == Applied(op, Replay(m, log))
    ensures forall k :: 0 <= k <= |log| ==> (log + [op])[..k] == log[..k]
  {
    assert (log + [op])[..|log|] == log;
  }

  // ----- the invariant

  /** A loaded cache is a committed version, and a store under the lock has the newest. */
  predicate SeesVersion(q: Process, s: State, base: Secrets) {
    && Faithful(q.store)
    && q.version <= |s.log|
    && (q.store.loaded ==> q.store.cache == Replay(base, s.log[..q.version]))
    && (q.phase.Current? ==> q.store.loaded && q.store.cache == Contents(s.file))
  }

  predicate Alone(s: State) {
    forall p, q :: 0 <= p < q < |s.procs| ==> !Holds(s.procs[p]) || !Holds(s.procs[q])
  }

  function Pending(q: Process): seq<Op> {
    if q.phase.Finished? && q.phase.committed then [q.phase.op] else []
  }

  /** What is committed and not yet acknowledged is the lock holder's change. */
  predicate Acknowledging(s: State) {
    && s.acknowledged <= s.log
    && (forall p :: 0 <= p < |s.procs| && Holds(s.procs[p]) ==> s.log == s.acknowledged + Pending(s.procs[p]))
    && (LockFree(s) ==> s.log == s.acknowledged)
  }

  ghost predicate Consistent(s: State, base: Secrets) {
    && s.exclusive
    && Alone(s)
    && Contents(s.file) == Replay(base, s.log)
    && (forall p :: 0 <= p < |s.procs| ==> SeesVersion(s.procs[p], s, base))
    && Acknowledging(s)
  }

  lemma InitConsistent(n: nat, file: Option<Raw>)
    ensures Consistent(Init(n, file, true), Contents(file))
  {
  }

  /** Steps of one process that leave the file and the log alone. */
  lemma QuietStep(s: State, p: nat, q: Process, base: Secrets)
    requires Consistent(s, base) && p < |s.procs| && SeesVersion(q, s, base)
    requires Holds(q) ==> Holds(s.procs[p]) || LockFree(s)
    requires Holds(s.procs[p]) ==> Holds(q)
    requires Holds(q) ==> Pending(q) == Pending(s.procs[p])
    ensures Consistent(With(s, p, q), base)
  {
    var t := With(s, p, q);
    assert forall i :: 0 <= i < |t.procs| && i != p ==> t.procs[i] == s.procs[i];
    if LockFree(t) {
      assert forall i :: 0 <= i < |s.procs| ==> !Holds(s.procs[i]) by {
        forall i | 0 <= i < |s.procs| ensures !Holds(s.procs[i]) { assert !Holds(t.procs[i]); }
      }
    }
    if LockFree(s) { assert forall i :: 0 <= i < |s.procs| ==> !Holds(s.procs[i]); }
  }

  lemma SeesAfterReading(s: State, p: nat, w: Weather, base: Secrets)
    requires Consistent(s, base) && p < |s.procs|
    ensures var q := s.procs[p];
            var st := Refreshed(q.store, s.file, w);
            var r := Seeing(q, st, s);
            Faithful(st) && r.version <= |s.log| && (st.loaded ==> st.cache == Replay(base, s.log[..r.version]))
            && (Refreshes(q.store, s.file, w) ==> st.loaded && st.cache == Contents(s.file))
    ensures var q := s.procs[p];
            var st := Loaded(q.store, s.file, w);
            !q.store.loaded ==>
              Faithful(st) && (st.loaded ==> st.cache == Replay(base, s.log[..Seeing(q, st, s).version]))
  {
    hide Acknowledging, Alone, Replay;
    assert s.log[..|s.log|] == s.log;
    assert SeesVersion(s.procs[p], s, base);
    RefreshedIsCurrent(s.procs[p].store, s.file, w);
  }

  /** The rename: one more committed change, made to what the file held. */
  lemma CommitStep(s: State, a: Action, base: Secrets)
    requires Consistent(s, base) && a.Persist? && Enabled(s, a)
    requires a.writes && Changes(s.procs[a.p].phase.op, s.procs[a.p].store.cache)
    ensures Consistent(Apply(s, a), base)
  {
    hide Applied, Changes, Replay;
    var q := s.procs[a.p];
    var t := Apply(s, a);
    assert SeesVersion(q, s, base);
    ReplayOne(base, s.log, q.phase.op);
    forall i | 0 <= i < |t.procs| ensures SeesVersion(t.procs[i], t, base) {
      assert SeesVersion(s.procs[i], s, base);
      assert t.log[..|t.log|] == t.log;
    }
    assert Holds(t.procs[a.p]);
    forall i | 0 <= i < |t.procs| && i != a.p ensures !Holds(t.procs[i]) {
      assert t.procs[i] == s.procs[i] && Holds(s.procs[a.p]);
    }
    assert s.log == s.acknowledged + Pending(q);
  }

  lemma UnlockStep(s: State, p: nat, base: Secrets)
    requires Consistent(s, base) && Enabled(s, Unlock(p))
    ensures Consistent(Apply(s, Unlock(p)), base)
  {
    hide Replay;
    var t := Apply(s, Unlock(p));
    forall i | 0 <= i < |t.procs| ensures SeesVersion(t.procs[i], t, base) && !Holds(t.procs[i]) {
      assert SeesVersion(s.procs[i], s, base);
      assert i != p ==> t.procs[i] == s.procs[i] && !Holds(s.procs[i]);
    }
    assert s.log == s.acknowledged + Pending(s.procs[p]);
  }

  lemma ConsistentStep(s: State, a: Action, base: Secrets)
    requires Consistent(s, base) && Enabled(s, a)
    ensures Consistent(Apply(s, a), base)
  {
    hide Consistent, Replay, Applied, Changes, Refreshed, Refreshes, Loaded, LockFree;
    var q := s.procs[a.p];
    assert SeesVersion(q, s, base) by { SeesIt(s, a.p, base); }
    match a
    case Lock(p, op) => LockedAlone(s, base); QuietStep(s, p, q.(phase := Locked(op)), base);
    case Reread(p, w) =>
      SeesAfterReading(s, p, w, base);
      QuietStep(s, p, Apply(s, a).procs[p], base);
    case Persist(p, salt, writes) =>
      if Changes(q.phase.op, q.store.cache) && writes { CommitStep(s, a, base); }
      else { QuietStep(s, p, q.(phase := Finished(q.phase.op, false)), base); }
    case Unlock(p) => UnlockStep(s, p, base);
    case Get(p, w) =>
      SeesAfterReading(s, p, w, base);
      QuietStep(s, p, Apply(s, a).procs[p], base);
  }

  lemma SeesIt(s: State, p: nat, base: Secrets)
    requires Consistent(s, base) && p < |s.procs|
    ensures SeesVersion(s.procs[p], s, base)
  {
  }

  lemma LockedAlone(s: State, base: Secrets)
    requires Consistent(s, base)
    ensures s.exclusive
  {
  }

  /** A store's version, and the log, only ever grow. */
  lemma VersionStep(s: State, a: Action, base: Secrets, p: nat)
    requires Consistent(s, base) && Enabled(s, a) && p < |s.procs|
    ensures var t := Apply(s, a); |t.procs| == |s.procs| && s.log <= t.log && s.procs[p].version <= t.procs[p].version
  {
    hide Replay, Applied, Acknowledging, Alone;
    SeesIt(s, p, base);
    SeesIt(s, a.p, base);
  }

  lemma {:induction false} ConsistentRun(s: State, acts: seq<Action>, base: Secrets)
    requires Consistent(s, base)
    ensures Consistent(Run(s, acts), base)
    ensures |Run(s, acts).procs| == |s.procs| && s.log <= Run(s, acts).log
    ensures forall p :: 0 <= p < |s.procs| ==> s.procs[p].version <= Run(s, acts).procs[p].version
    decreases |acts|
  {
    hide Consistent, Apply;
    if acts != [] {
      var t := s;
      if Enabled(s, acts[0]) {
        t := Apply(s, acts[0]);
        ConsistentStep(s, acts[0], base);
        if |s.procs| > 0 { VersionStep(s, acts[0], base, 0); }
        forall p | 0 <= p < |s.procs| ensures |t.procs| == |s.procs| && s.procs[p].version <= t.procs[p].version {
          VersionStep(s, acts[0], base, p);
        }
      }
      ConsistentRun(t, acts[1..], base);
    }
  }

  // ----- the main results

  /** A key no change names keeps what it held. */
  lemma {:induction false} UnnamedStays(m: Secrets, log: seq<Op>, key: string)
    requires forall i :: 0 <= i < |log| ==> log[i].key != key
    ensures Held(Replay(m, log), key) == Held(m, key)
    decreases |log|
  {
    hide Applied, Held;
    if log != [] {
      var n := |log| - 1;
      UnnamedStays(m, log[..n], key);
      AppliedCarries(log[n], Replay(m, log[..n]));
    }
  }

  /** The last change of a key leaves the value it set, or nothing. */
  lemma {:induction false} LastChangeWins(m: Secrets, log: seq<Op>, i: nat)
    requires i < |log| && forall j :: i < j < |log| ==> log[j].key != log[i].key
    ensures Held(Replay(m, log), log[i].key) == if log[i].Set? then Some(log[i].value) else None
    decreases |log|
  {
    hide Applied, Held;
    var n := |log| - 1;
    var before := Replay(m, log[..n]);
    AppliedCarries(log[n], before);
    assert Carried(log[n], before, Replay(m, log));
    if i < n { LastChangeWins(m, log[..n], i); }
  }

  /**
   * No update is lost: in every run the file holds the committed changes
   * replayed on what it held at first, and every acknowledged change is among
   * them, in the order of the acknowledgements. So a key holds what the last
   * committed change of it left: the value of a Set, nothing after a Delete,
   * and what it held at first if none names it.
   */
  lemma NoLostUpdate(n: nat, file: Option<Raw>, acts: seq<Action>)
    ensures var t := Run(Init(n, file, true), acts);
            Contents(t.file) == Replay(Contents(file), t.log) && t.acknowledged <= t.log
            && (LockFree(t) ==> Contents(t.file) == Replay(Contents(file), t.acknowledged))
    ensures var t := Run(Init(n, file, true), acts);
            forall key ::
              (forall i :: 0 <= i < |t.log| ==> t.log[i].key != key) ==> Held(Contents(t.file), key) == Held(Contents(file), key)
    ensures var t := Run(Init(n, file, true), acts);
            forall i :: 0 <= i < |t.log| && (forall j :: i < j < |t.log| ==> t.log[j].key != t.log[i].key) ==>
              Held(Contents(t.file), t.log[i].key) == if t.log[i].Set? then Some(t.log[i].value) else None
  {
    hide Run, Replay, Held;
    InitConsistent(n, file);
    ConsistentRun(Init(n, file, true), acts, Contents(file));
    var t := Run(Init(n, file, true), acts);
    forall key | forall i :: 0 <= i < |t.log| ==> t.log[i].key != key ensures Held(Contents(t.file), key) == Held(Contents(file), key) {
      UnnamedStays(Contents(file), t.log, key);
    }
    forall i | 0 <= i < |t.log| && (forall j :: i < j < |t.log| ==> t.log[j].key != t.log[i].key)
      ensures Held(Contents(t.file), t.log[i].key) == if t.log[i].Set? then Some(t.log[i].value) else None
    {
      LastChangeWins(Contents(file), t.log, i);
    }
  }

  /** The four steps of one operation, whatever comes of it. */
  function Operation(p: nat, op: Op, w: Weather, salt: int, writes: bool): seq<Action> {
    [Lock(p, op), Reread(p, w), Persist(p, salt, writes), Unlock(p)]
  }

  function Next(s: State, a: Action): State { if Enabled(s, a) then Apply(s, a) else s }

  lemma RunNext(s: State, a: Action, rest: seq<Action>)
    ensures Run(s, [a] + rest) == Run(Next(s, a), rest)
    ensures Run(s, []) == s
  {
    hide Apply, Enabled;
    assert ([a] + rest)[1..] == rest;
  }

  lemma RunFour(s: State, p: nat, op: Op, w: Weather, salt: int, writes: bool)
    ensures Run(s, Operation(p, op, w, salt, writes))
            == Next(Next(Next(Next(s, Lock(p, op)), Reread(p, w)), Persist(p, salt, writes)), Unlock(p))
  {
    hide Next, Run;
    var a, b, c, d := Lock(p, op), Reread(p, w), Persist(p, salt, writes), Unlock(p);
    assert Operation(p, op, w, salt, writes) == [a] + ([b] + ([c] + ([d] + [])));
    RunNext(s, a, [b] + ([c] + ([d] + [])));
    RunNext(Next(s, a), b, [c] + ([d] + []));
    RunNext(Next(Next(s, a), b), c, [d] + []);
    RunNext(Next(Next(Next(s, a), b), c), d, []);
    RunNext(Next(Next(Next(Next(s, a), b), c), d), d, []);
  }

  /** The lock is taken and the file reread: the store has what the file holds, or the operation is over. */
  lemma LockAndReread(s: State, p: nat, op: Op, w: Weather, base: Secrets)
    requires Consistent(s, base) && Enabled(s, Lock(p, op))
    ensures var t := Next(Next(s, Lock(p, op)), Reread(p, w));
            t.file == s.file && t.log == s.log && t.acknowledged == s.acknowledged && |t.procs| == |s.procs|
            && (forall q :: 0 <= q < |s.procs| && q != p ==> t.procs[q] == s.procs[q])
            && (if Refreshes(s.procs[p].store, s.file, w)
                then t.procs[p].phase == Current(op) && t.procs[p].store.cache == Contents(s.file)
                else t.procs[p].phase == Finished(op, false))
  {
    hide LockFree, Refreshes, Refreshed, Acknowledging, Alone, Replay;
    assert SeesVersion(s.procs[p], s, base);
    RefreshedIsCurrent(s.procs[p].store, s.file, w);
  }

  lemma HeldByNobodyElse(s: State, p: nat, op: Op, base: Secrets)
    requires Consistent(s, base) && Enabled(s, Lock(p, op))
    ensures LockFree(s)
  {
  }

  /** The write and the release of an operation whose store has what the file holds. */
  lemma PersistAndUnlock(s: State, p: nat, op: Op, salt: int, writes: bool)
    requires p < |s.procs| && s.procs[p].phase == Current(op) && s.procs[p].store.cache == Contents(s.file)
    ensures var t := Next(Next(s, Persist(p, salt, writes)), Unlock(p));
            var change := writes && (op.Set? || op.key in Contents(s.file));
            Contents(t.file) == (if change then Applied(op, Contents(s.file)) else Contents(s.file))
            && (!change ==> t.file == s.file)
            && t.log == (if change then s.log + [op] else s.log)
            && t.acknowledged == (if change then s.acknowledged + [op] else s.acknowledged)
            && |t.procs| == |s.procs| && t.procs[p].phase == Idle
            && forall q :: 0 <= q < |s.procs| && q != p ==> t.procs[q] == s.procs[q]
  {
    hide Applied;
  }

  lemma OthersIdle(s: State, t: State, p: nat)
    requires LockFree(s) && |t.procs| == |s.procs| && p < |t.procs| && t.procs[p].phase == Idle
    requires forall q :: 0 <= q < |s.procs| && q != p ==> t.procs[q] == s.procs[q]
    ensures LockFree(t)
  {
    forall q | 0 <= q < |t.procs| ensures !Holds(t.procs[q]) { assert !Holds(s.procs[q]); }
  }

  /**
   * An operation that gets the lock, a file that opens and a write that works
   * is carried out and acknowledged: the file differs from what it held in the
   * one key, as asked, and a change that is one is committed exactly once.
   */
  lemma OperationCompletes(s: State, p: nat, op: Op, w: Weather, salt: int, base: Secrets)
    requires Consistent(s, base) && Enabled(s, Lock(p, op)) && Refreshes(s.procs[p].store, s.file, w)
    ensures var t := Run(s, Operation(p, op, w, salt, true));
            var change := op.Set? || op.key in Contents(s.file);
            Carried(op, Contents(s.file), Contents(t.file))
            && t.log == (if change then s.log + [op] else s.log)
            && t.acknowledged == (if change then s.acknowledged + [op] else s.acknowledged) && LockFree(t)
  {
    hide Consistent, Enabled, Refreshes, Apply, Next, Run, Applied, LockFree, Carried, Operation;
    RunFour(s, p, op, w, salt, true);
    LockAndReread(s, p, op, w, base);
    HeldByNobodyElse(s, p, op, base);
    var t := Next(Next(s, Lock(p, op)), Reread(p, w));
    IsThere(s, p, op);
    PersistAndUnlock(t, p, op, salt, true);
    OthersIdle(s, Next(Next(t, Persist(p, salt, true)), Unlock(p)), p);
    AppliedCarries(op, Contents(s.file));
    NothingToDelete(op, Contents(s.file));
  }

  lemma IsThere(s: State, p: nat, op: Op)
    requires Enabled(s, Lock(p, op))
    ensures p < |s.procs|
  {
  }

  lemma NothingToDelete(op: Op, m: Secrets)
    ensures op.Delete? && op.key !in m ==> Carried(op, m, m)
  {
  }

  /** A refresh or a write that fails leaves the file alone, and nothing is acknowledged. */
  lemma FailureChangesNothing(s: State, p: nat, op: Op, w: Weather, salt: int, writes: bool, base: Secrets)
    requires Consistent(s, base) && Enabled(s, Lock(p, op)) && (!Refreshes(s.procs[p].store, s.file, w) || !writes)
    ensures var t := Run(s, Operation(p, op, w, salt, writes));
            t.file == s.file && t.log == s.log && t.acknowledged == s.acknowledged && LockFree(t)
  {
    hide Consistent, Refreshes, LockFree, Run, Operation, Applied;
    RunFour(s, p, op, w, salt, writes);
    LockAndReread(s, p, op, w, base);
    HeldByNobodyElse(s, p, op, base);
    var t := Next(Next(s, Lock(p, op)), Reread(p, w));
    if Refreshes(s.procs[p].store, s.file, w) { PersistAndUnlock(t, p, op, salt, writes); } else { JustUnlocks(t, p, op, salt, writes); }
    OthersIdle(s, Next(Next(t, Persist(p, salt, writes)), Unlock(p)), p);
  }

  lemma JustUnlocks(s: State, p: nat, op: Op, salt: int, writes: bool)
    requires p < |s.procs| && s.procs[p].phase == Finished(op, false)
    ensures var t := Next(Next(s, Persist(p, salt, writes)), Unlock(p));
            t.file == s.file && t.log == s.log && t.acknowledged == s.acknowledged && |t.procs| == |s.procs|
            && t.procs[p].phase == Idle && forall q :: 0 <= q < |s.procs| && q != p ==> t.procs[q] == s.procs[q]
  {
  }

  /** The lock is there for an idle process when nobody holds it, or when it is a stub. */
  lemma LockTakenIff(s: State, p: nat, op: Op)
    requires p < |s.procs|
    ensures Enabled(s, Lock(p, op))
            <==> s.procs[p].phase == Idle && (s.exclusive ==> forall q :: 0 <= q < |s.procs| ==> s.procs[q].phase == Idle)
  {
    if LockFree(s) { assert forall q :: 0 <= q < |s.procs| ==> !Holds(s.procs[q]); }
    if forall q :: 0 <= q < |s.procs| ==> s.procs[q].phase == Idle { assert LockFree(s); }
  }

  /**
   * An idle process may Get at any time, whoever holds the lock: from its
   * cache once loaded, else from the file as it is then.
   */
  lemma GetReads(s: State, p: nat, w: Weather)
    requires p < |s.procs| && s.procs[p].phase == Idle
    ensures Enabled(s, Get(p, w))
    ensures var q, t := s.procs[p], Apply(s, Get(p, w));
            (q.store.loaded ==> t == s)
            && (!q.store.loaded ==>
                  t == s.(procs := t.procs) && t.procs == s.procs[p := t.procs[p]] && t.procs[p].phase == Idle
                  && t.procs[p].store == Loaded(q.store, s.file, w)
                  && t.procs[p].version == if Loads(q.store, s.file, w) then |s.log| else q.version)
  {
  }

  /** What a Get answers from is a committed version of the file, and later answers never come from an earlier one. */
  lemma CachesOnlyMoveForward(n: nat, file: Option<Raw>, acts: seq<Action>, more: seq<Action>, p: nat)
    requires p < n
    ensures var t := Run(Init(n, file, true), acts);
            var u := Run(t, more);
            p < |t.procs| && p < |u.procs| && t.procs[p].version <= u.procs[p].version <= |u.log|
            && (u.procs[p].store.loaded ==>
                  u.procs[p].store.cache == Replay(Contents(file), u.log[..u.procs[p].version])
                  && u.procs[p].store.cache == Contents(u.procs[p].store.lastRaw))
  {
    hide Run;
    var s := Init(n, file, true);
    InitConsistent(n, file);
    ConsistentRun(s, acts, Contents(file));
    ConsistentRun(Run(s, acts), more, Contents(file));
    SeesIt(Run(Run(s, acts), more), p, Contents(file));
  }

  /** Where the lock is a stub, two processes that reread the same file lose the first one's key. */
  lemma StubLockLosesAnUpdate()
    ensures var ok := Weather(Some("pw"), true);
            var t := Run(Init(2, None, false),
              [Lock(0, Set("a", "1")), Lock(1, Set("b", "2")), Reread(0, ok), Reread(1, ok), Persist(0, 7, true), Persist(1, 8, true)]);
            t.log == [Set("a", "1"), Set("b", "2")] && "a" !in Contents(t.file)
  {
    var ok := Weather(Some("pw"), true);
    var a, b := Set("a", "1"), Set("b", "2");
    var s0 := Init(2, None, false);
    var s2 := Apply(Apply(s0, Lock(0, a)), Lock(1, b));
    var s4 := Apply(Apply(s2, Reread(0, ok)), Reread(1, ok));
    var s6 := Apply(Apply(s4, Persist(0, 7, true)), Persist(1, 8, true));
    assert Run(s4, [Persist(0, 7, true), Persist(1, 8, true)]) == s6;
    assert Run(s2, [Reread(0, ok), Reread(1, ok), Persist(0, 7, true), Persist(1, 8, true)]) == s6;
  }
}
