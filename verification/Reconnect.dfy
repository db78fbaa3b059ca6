/**
 * What the reconnect manager makes of the depth-one disconnect channel
 * (internal/core/sync/reconnect.go, internal/tg/client.go): as long as no
 * teardown times out, a signal is never taken for another session's, and the
 * death of the session in use is never lost: the drain after its start may
 * throw its signal away, but then Ping fails.
 */
module Reconnect {

  import opened Basics
  import opened Session

  /** The manager is between a fresh start and the next signal. */
  predicate Fresh(m: Manager) { m.Listening? || m.Pinging? }

  /** Nobody has taken a signal of the newest session. */
  predicate Keeps(m: Manager) {
    m.Await? || m.TearLock? || m.TearCancel? || m.TearWait? || m.Dropping? || m == Pinging(false) || m == Listening(false)
  }

  /** The drain took the newest session's signal. */
  predicate Deaf(m: Manager) { m == Pinging(true) || m == Listening(true) }

  /** The newest session's run loop has returned and reported. */
  predicate Reported(s: State) {
    s.sessions != [] && (s.sessions[|s.sessions| - 1].phase.Signalled? || s.sessions[|s.sessions| - 1].phase == Gone)
  }

  /** Before the first disconnect there was one attempt and no retry. */
  predicate FirstAttempt(s: State) {
    s.attempt == 0 ==>
      |s.sessions| <= 1 && (s.manager.StartLock? ==> s.sessions == [])
      && (s.manager.StartLock? || s.manager.Await? || s.manager.TearLock? || s.manager.TearCancel? || s.manager.TearWait?
          || s.manager.MarkStopped? || s.manager == Listening(false) || s.manager.Off?)
  }

  /** The channel's signal is an older session's. */
  predicate Stale(s: State) { s.channel.Some? && s.channel.value.id < Newest(s) }

  predicate ChannelHeld(s: State)
    requires s.sessions != []
  {
    match s.sessions[|s.sessions| - 1].phase
    case Resending(_) => s.channel.None?
    case Signalled(_) => (s.channel.None? || Own(s)) && (Keeps(s.manager) ==> s.channel.Some?)
    case Gone => (s.channel.None? || Own(s)) && (Keeps(s.manager) ==> s.channel.Some?)
    case _ => s.channel.None? || Stale(s)
  }

  ghost predicate Handled(s: State) {
    forall k :: 0 <= k < |s.handled| ==> s.handled[k].0 + 1 == s.handled[k].1
  }

  ghost predicate Signals(s: State) {
    && FirstAttempt(s)
    && Handled(s)
    && (s.sessions == [] ==> s.channel.None? && (s.manager.StartLock? || s.manager.Off?))
    && (s.sessions != [] ==> ChannelHeld(s))
    && (Fresh(s.manager) ==> !Stale(s))
    && (Deaf(s.manager) ==> Reported(s) && s.channel.None?)
  }

  predicate Quiet(s: State) { s.stuck == {} }

  lemma StuckStays(s: State, a: Action)
    ensures s.stuck <= Apply(s, a).stuck
  {
    hide SessionSend, SessionFinish, StopperGo;
    StuckManager(s);
    if !a.Go? { StuckOthers(s, a); }
  }

  lemma StuckManager(s: State)
    ensures ManagerGo(s).stuck == s.stuck
  {
  }

  lemma StuckOthers(s: State, a: Action)
    requires !a.Go?
    ensures s.stuck <= Apply(s, a).stuck
  {
  }

  lemma SignalsStart(s: State)
    requires Ownership(s) && Signals(s) && Quiet(s) && s.manager.StartLock? && !s.stopped
    ensures Signals(StartSession(s))
  {
  }

  lemma SignalsReceive(s: State)
    requires Signals(s) && (s.manager.Listening? || s.manager.Dropping?)
    ensures Signals(ManagerGo(s))
  {
  }

  lemma SignalsTear(s: State)
    requires Ownership(s) && Signals(s) && (s.manager.TearLock? || s.manager.TearCancel? || s.manager.TearWait?)
    ensures Signals(ManagerGo(s))
  {
  }

  /** The manager moves on without touching the channel. */
  lemma SignalsMoves(s: State, t: State)
    requires Signals(s) && FirstAttempt(t) && |t.sessions| == |s.sessions| && s.sessions != []
    requires t.sessions[|s.sessions| - 1].phase == s.sessions[|s.sessions| - 1].phase
    requires t.channel == s.channel && t.handled == s.handled
    requires (Keeps(t.manager) ==> Keeps(s.manager)) && (Fresh(t.manager) ==> !Stale(s)) && !Deaf(t.manager)
    ensures Signals(t)
  {
  }

  lemma SignalsVerdict(s: State)
    requires Signals(s) && s.manager.Await?
    ensures Signals(ManagerGo(s))
  {
    hide Handled, ChannelHeld;
    var t := ManagerGo(s);
    if t.manager != s.manager {
      assert t.sessions[|s.sessions| - 1].phase == s.sessions[|s.sessions| - 1].phase;
      SignalsMoves(s, t);
    }
  }

  lemma SignalsRest(s: State)
    requires Ownership(s) && Signals(s) && (s.manager.StartLock? ==> s.stopped)
    requires !(s.manager.Listening? || s.manager.Dropping?)
    requires !(s.manager.Await? || s.manager.TearLock? || s.manager.TearCancel? || s.manager.TearWait?)
    ensures Signals(ManagerGo(s))
  {
    hide Handled, ChannelHeld, StartSession, Ownership;
    var t := ManagerGo(s);
    if s.sessions == [] {
      assert t.sessions == [] && t.handled == s.handled && t.channel == s.channel;
      EmptySignals(s, t);
    } else if t.manager != s.manager {
      assert t.sessions[|s.sessions| - 1].phase == s.sessions[|s.sessions| - 1].phase;
      SignalsMoves(s, t);
    }
  }

  lemma EmptySignals(s: State, t: State)
    requires Signals(s) && s.sessions == t.sessions == [] && t.handled == s.handled && t.channel == s.channel
    requires FirstAttempt(t) && (t.manager.StartLock? || t.manager.Off?)
    ensures Signals(t)
  {
  }

  lemma SignalsManager(s: State)
    requires Ownership(s) && Signals(s) && Quiet(s)
    ensures Signals(ManagerGo(s))
  {
    hide Ownership, Signals, StartSession;
    var m := s.manager;
    if m.StartLock? && !s.stopped { SignalsStart(s); }
    else if m.Listening? || m.Dropping? { SignalsReceive(s); }
    else if m.Await? { SignalsVerdict(s); }
    else if m.TearLock? || m.TearCancel? || m.TearWait? { SignalsTear(s); }
    else { SignalsRest(s); }
  }

  lemma SignalsTimeOut(s: State)
    requires Ownership(s) && Signals(s) && Quiet(s) && Quiet(ManagerTimeOut(s))
    ensures Signals(ManagerTimeOut(s))
  {
  }

  lemma OnlyNewestMoves(s: State, id: nat)
    requires Ownership(s) && Quiet(s) && id < |s.sessions|
    ensures s.sessions[id].phase == Gone || id == Newest(s)
  {
  }

  lemma SignalsSend(s: State, id: nat)
    requires Ownership(s) && Signals(s) && Quiet(s) && id < |s.sessions|
    ensures Signals(SessionSend(s, id))
  {
    hide Ownership;
    OnlyNewestMoves(s, id);
  }

  lemma SignalsFinish(s: State, id: nat)
    requires Ownership(s) && Signals(s) && Quiet(s) && id < |s.sessions| && s.sessions[id].phase.Signalled?
    ensures Signals(SessionFinish(s, id))
  {
  }

  /** Steps that leave the channel, the manager and every phase alone. */
  lemma SignalsFrame(s: State, t: State)
    requires Signals(s) && |t.sessions| == |s.sessions|
    requires forall id :: 0 <= id < |s.sessions| ==> t.sessions[id].phase == s.sessions[id].phase
    requires t.channel == s.channel && t.manager == s.manager && t.attempt == s.attempt
    requires t.maxAttempts == s.maxAttempts && t.handled == s.handled
    ensures Signals(t)
  {
  }

  lemma SignalsEnd(s: State, id: nat, err: Failure)
    requires Ownership(s) && Signals(s) && Quiet(s)
    ensures Signals(Apply(s, End(id, err)))
  {
  }

  lemma SignalsContext(s: State)
    requires Signals(s)
    ensures Signals(ManagerContextDone(s))
  {
  }

  lemma SignalsPing(s: State, ok: bool)
    requires Signals(s)
    ensures Signals(ManagerPing(s, ok))
  {
  }

  lemma SignalsStep(s: State, a: Action)
    requires Ownership(s) && Signals(s) && Quiet(Apply(s, a))
    ensures Signals(Apply(s, a))
  {
    hide ManagerGo, ManagerTimeOut, ManagerContextDone, ManagerPing, SessionSend, SessionFinish, Ownership, Signals;
    StuckStays(s, a);
    match a
    case Go => SignalsManager(s);
    case TimeOut => SignalsTimeOut(s);
    case ContextDone => SignalsContext(s);
    case Ping(ok) => SignalsPing(s, ok);
    case Send(id) => if id < |s.sessions| { SignalsSend(s, id); }
    case Finish(id) => if id < |s.sessions| && s.sessions[id].phase.Signalled? { SignalsFinish(s, id); }
    case End(id, err) => SignalsEnd(s, id, err);
    case _ => SignalsFrame(s, Apply(s, a));
  }

  lemma SignalsInit(maxAttempts: nat, stops: nat)
    ensures Ownership(Init(maxAttempts, stops)) && Signals(Init(maxAttempts, stops))
  {
  }

  lemma {:induction false} SignalsRun(s: State, acts: seq<Action>)
    requires Ownership(s) && (Quiet(s) ==> Signals(s))
    ensures Ownership(Run(s, acts)) && (Quiet(Run(s, acts)) ==> Signals(Run(s, acts)))
    decreases |acts|
  {
    hide Ownership, Signals, Apply;
    if acts != [] {
      var t := Apply(s, acts[0]);
      StuckStays(s, acts[0]);
      OwnershipStep(s, acts[0]);
      if Quiet(t) { SignalsStep(s, acts[0]); }
      SignalsRun(t, acts[1..]);
    }
  }

  /**
   * Run never handles a signal of a session that was already replaced: each
   * one it handled came from the newest session at that moment.
   */
  lemma NoSignalMistaken(maxAttempts: nat, stops: nat, acts: seq<Action>, k: nat)
    requires var t := Run(Init(maxAttempts, stops), acts); t.stuck == {} && k < |t.handled|
    ensures var t := Run(Init(maxAttempts, stops), acts); k < |t.handled| && t.handled[k].0 + 1 == t.handled[k].1
  {
    hide Run;
    SignalsRun(Init(maxAttempts, stops), acts);
  }

  /**
   * Ping tells: it never succeeds over a session whose run loop has returned
   * and reported, whose client is spent.
   */
  predicate PingTells(s: State, acts: seq<Action>)
    decreases |acts|
  {
    acts == []
    || ((acts[0] == Ping(true) && s.manager.Pinging? ==> !Reported(s)) && PingTells(Apply(s, acts[0]), acts[1..]))
  }

  /** A manager that listens to nothing got there by its last attempt. */
  predicate GaveUp(s: State) { s.manager == Listening(true) ==> 0 < s.maxAttempts <= s.attempt }

  /**
   * While Ping tells and no teardown times out, no reported death is lost: the
   * newest session's signal is in the channel of a listening manager, unless
   * it gave up after a capped number of attempts; without a cap it always is.
   * If the drain threw the signal away, the Ping that fails starts another
   * attempt.
   */
  lemma NoDeathLost(maxAttempts: nat, stops: nat, acts: seq<Action>)
    requires PingTells(Init(maxAttempts, stops), acts) && Run(Init(maxAttempts, stops), acts).stuck == {}
    ensures var t := Run(Init(maxAttempts, stops), acts);
            t.manager.Listening? && Reported(t) ==> Own(t) || 0 < maxAttempts <= t.attempt
    ensures var t := Run(Init(maxAttempts, stops), acts);
            t.manager.Pinging? && Reported(t) ==>
              Own(t) || Apply(t, Ping(false)).manager == Sleeping || 0 < maxAttempts <= t.attempt
  {
    hide Run, Ownership, Signals, PingTells, GaveUp;
    var s := Init(maxAttempts, stops);
    SignalsInit(maxAttempts, stops);
    SignalsRun(s, acts);
    GaveUpInit(maxAttempts, stops);
    GaveUpRun(s, acts);
    var t := Run(s, acts);
    if t.manager.Listening? || t.manager.Pinging? { KeptUnlessDropped(t); }
    GaveUpMeans(t);
    PingingReported(t);
  }

  lemma GaveUpInit(maxAttempts: nat, stops: nat)
    ensures GaveUp(Init(maxAttempts, stops))
  {
  }

  lemma GaveUpMeans(s: State)
    requires GaveUp(s)
    ensures s.manager.Listening? && s.manager.dropped ==> 0 < s.maxAttempts <= s.attempt
  {
  }

  /** The newest session's signal stays in the channel until it is drained. */
  lemma KeptUnlessDropped(s: State)
    requires Signals(s) && (s.manager.Listening? || s.manager.Pinging?)
    ensures s.sessions != [] && (Reported(s) ==> (Own(s) <==> !s.manager.dropped))
    ensures s.manager.dropped ==> Reported(s) && s.channel.None?
  {
  }

  lemma {:induction false} GaveUpRun(s: State, acts: seq<Action>)
    requires Ownership(s) && (Quiet(s) ==> Signals(s)) && GaveUp(s)
    requires PingTells(s, acts) && Quiet(Run(s, acts))
    ensures GaveUp(Run(s, acts)) && Run(s, acts).maxAttempts == s.maxAttempts
    decreases |acts|
  {
    hide Ownership, Signals, Apply, GaveUp, Reported;
    if acts != [] {
      var a := acts[0];
      var t := Apply(s, a);
      StuckStays(s, a);
      StuckToTheEnd(t, acts[1..]);
      OwnershipStep(s, a);
      SignalsStep(s, a);
      GaveUpStep(s, a);
      GaveUpRun(t, acts[1..]);
    }
  }

  lemma {:induction false} StuckToTheEnd(s: State, acts: seq<Action>)
    ensures s.stuck <= Run(s, acts).stuck
    decreases |acts|
  {
    hide Apply;
    if acts != [] {
      StuckStays(s, acts[0]);
      StuckToTheEnd(Apply(s, acts[0]), acts[1..]);
    }
  }

  lemma GaveUpStep(s: State, a: Action)
    requires Signals(s) && GaveUp(s)
    requires a == Ping(true) && s.manager.Pinging? ==> !Reported(s)
    ensures GaveUp(Apply(s, a)) && Apply(s, a).maxAttempts == s.maxAttempts
  {
    hide Signals, Apply;
    PingingReported(s);
    CapStays(s, a);
    if s.manager != Listening(true) {
      TurnsDeaf(s, a);
    }
  }

  lemma CapStays(s: State, a: Action)
    ensures Apply(s, a).maxAttempts == s.maxAttempts
    ensures (s.manager == Listening(true) || s.manager.Pinging?) && Apply(s, a).manager == Listening(true) ==>
              Apply(s, a).attempt == s.attempt
  {
    hide SessionSend, SessionFinish, StopperGo;
    if a.Go? { CapStaysGo(s); } else { CapStaysElse(s, a); }
  }

  lemma CapStaysGo(s: State)
    ensures ManagerGo(s).maxAttempts == s.maxAttempts
    ensures (s.manager == Listening(true) || s.manager.Pinging?) && ManagerGo(s).manager == Listening(true) ==>
              ManagerGo(s).attempt == s.attempt
  {
  }

  lemma CapStaysElse(s: State, a: Action)
    requires !a.Go?
    ensures Apply(s, a).maxAttempts == s.maxAttempts
    ensures (s.manager == Listening(true) || s.manager.Pinging?) && Apply(s, a).manager == Listening(true) ==>
              Apply(s, a).attempt == s.attempt
  {
  }

  /**
   * Whatever Ping answers: when the newest session of a listening manager has
   * died and reported, its signal is in the channel if and only if the drain
   * after its start did not throw it away; and a manager that listens after
   * such a drain listens to nothing.
   */
  lemma DeathKeptIff(maxAttempts: nat, stops: nat, acts: seq<Action>)
    requires var t := Run(Init(maxAttempts, stops), acts); t.stuck == {} && t.manager.Listening?
    ensures var t := Run(Init(maxAttempts, stops), acts); t.sessions != [] && (Reported(t) ==> (Own(t) <==> !t.manager.dropped))
    ensures var t := Run(Init(maxAttempts, stops), acts); t.manager.dropped ==> Reported(t) && t.channel.None?
  {
    hide Run;
    SignalsRun(Init(maxAttempts, stops), acts);
  }

  /**
   * The manager comes to listen to nothing exactly when the Ping after such a
   * drain succeeds although the session it tests has died, or fails as the
   * last of a capped number of attempts.
   */
  lemma DeathLostIff(maxAttempts: nat, stops: nat, acts: seq<Action>, a: Action)
    requires var t := Run(Init(maxAttempts, stops), acts); Apply(t, a).stuck == {} && t.manager != Listening(true)
    ensures var t := Run(Init(maxAttempts, stops), acts);
            Apply(t, a).manager == Listening(true) <==>
              t.manager == Pinging(true) && Reported(t)
              && (a == Ping(true) || (a == Ping(false) && 0 < t.maxAttempts <= t.attempt))
  {
    hide Run, Apply, Ownership, Signals;
    var t := Run(Init(maxAttempts, stops), acts);
    StuckStays(t, a);
    assert Quiet(t);
    SignalsInit(maxAttempts, stops);
    SignalsRun(Init(maxAttempts, stops), acts);
    PingingReported(t);
    TurnsDeaf(t, a);
  }

  lemma PingingReported(s: State)
    requires Signals(s)
    ensures Deaf(s.manager) ==> Reported(s)
    ensures s.manager.Pinging? ==> s.attempt > 0
  {
  }

  lemma TurnsDeaf(s: State, a: Action)
    requires s.manager.Pinging? ==> s.attempt > 0
    requires s.manager != Listening(true)
    ensures Apply(s, a).manager == Listening(true) <==>
              s.manager == Pinging(true) && (a == Ping(true) || (a == Ping(false) && 0 < s.maxAttempts <= s.attempt))
  {
    hide ManagerGo, ManagerTimeOut, SessionSend, SessionFinish, StopperGo;
    GoNotDeaf(s);
    TimeOutNotDeaf(s);
    if !a.Go? && !a.TimeOut? && !a.Ping? { OthersNotDeaf(s, a); }
  }

  lemma GoNotDeaf(s: State)
    requires s.manager != Listening(true)
    ensures ManagerGo(s).manager != Listening(true)
  {
  }

  lemma OthersNotDeaf(s: State, a: Action)
    requires s.manager != Listening(true) && !a.Go? && !a.TimeOut? && !a.Ping?
    ensures Apply(s, a).manager != Listening(true)
  {
  }

  lemma TimeOutNotDeaf(s: State)
    requires s.manager != Listening(true)
    ensures ManagerTimeOut(s).manager != Listening(true)
  {
  }

  /** Session 1 reported ready and died before the manager read either. */
  function DiedUnread(maxAttempts: nat): State {
    State([DEAD.(cancelled := true), FRESH.(ready := Some(Up), phase := Signalled(Broken))],
          Some(Signal(1, Broken)), Some(1), false, Await(1), 1, maxAttempts, Stops(0), {}, [(0, 1)])
  }

  lemma DiedUnreadReached(maxAttempts: nat, rest: seq<Action>)
    ensures Run(Init(maxAttempts, 0), ToReconnecting([Report(1, Up), End(1, Broken), Send(1)] + rest)) == Run(DiedUnread(maxAttempts), rest)
  {
    hide Run, Stops, StopperGo, ManagerGo, ManagerPing, ManagerContextDone, ManagerTimeOut, SessionFinish;
    RunOn(Reconnecting(maxAttempts, 0), Report(1, Up), End(1, Broken), Send(1), DiedUnread(maxAttempts), rest);
    ReconnectingReached(maxAttempts, 0, [Report(1, Up), End(1, Broken), Send(1)] + rest);
  }

  /** Session 1 dies before Ping, and its signal is dropped. */
  function ToDrained(rest: seq<Action>): seq<Action> {
    ToReconnecting([Report(1, Up), End(1, Broken), Send(1)] + ([Finish(1), Go, Go] + rest))
  }

  /** Session 1 has died and reported, and the drain threw its signal away. */
  function Drained(maxAttempts: nat): State {
    State([DEAD.(cancelled := true), FRESH.(phase := Gone)],
          None, Some(1), false, Pinging(true), 1, maxAttempts, Stops(0), {}, [(0, 1)])
  }

  lemma DrainedReached(maxAttempts: nat, rest: seq<Action>)
    ensures Run(Init(maxAttempts, 0), ToDrained(rest)) == Run(Drained(maxAttempts), rest)
  {
    hide Run, Stops, StopperGo, ManagerContextDone, ManagerTimeOut, SessionSend;
    RunOn(DiedUnread(maxAttempts), Finish(1), Go, Go, Drained(maxAttempts), rest);
    DiedUnreadReached(maxAttempts, [Finish(1), Go, Go] + rest);
  }

  /** With a cap of one attempt the failed Ping hands the channel back to Run, which waits for ever. */
  lemma DeathLostAtTheCap()
    ensures var t := Run(Init(1, 0), ToDrained([Ping(false), Go, Go] + []));
            t.manager == Listening(true) && t.channel.None? && Live(t) == {} && t.stuck == {}
  {
    hide Run, Stops, StopperGo, ManagerContextDone, ManagerTimeOut, SessionSend;
    var s7 := Drained(1).(manager := Listening(true));
    RunOn(Drained(1), Ping(false), Go, Go, s7, []);
    DrainedReached(1, [Ping(false), Go, Go] + []);
    RunNothing(s7);
  }

  /**
   * NoDeathLost needs that Ping tells: the client could not produce this run,
   * because a spent client answers with an error, but a Ping that succeeded
   * over the dead session would leave the manager listening for ever.
   */
  lemma DeathLostToAPing()
    ensures !PingTells(Drained(0), [Ping(true)])
    ensures var t := Run(Init(0, 0), ToDrained([Ping(true), Go, Go] + []));
            t.manager == Listening(true) && t.channel.None? && Live(t) == {} && t.stuck == {}
  {
    hide Run, Stops, StopperGo, ManagerContextDone, ManagerTimeOut, SessionSend;
    var s7 := Drained(0).(manager := Listening(true));
    RunOn(Drained(0), Ping(true), Go, Go, s7, []);
    DrainedReached(0, [Ping(true), Go, Go] + []);
    RunNothing(s7);
    assert Reported(Drained(0)) && [Ping(true)][0] == Ping(true);
  }
}
