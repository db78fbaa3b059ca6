/**
 * The session supervisor and the reconnect manager as one state machine
 * (cmd/lazytg/cmd/session.go, internal/core/sync/reconnect.go, internal/tg/client.go).
 * One action is one mutex section, one channel operation, one cancel call or
 * one wait; a run is any sequence of actions.
 */
module Session {

  import opened Basics
  import opened Sets

  /** What a run loop ends with: nil, an error wrapping context.Canceled, or another error. */
  datatype Failure = Clean | Canceled | Broken

  /** What arrives on `ready`; Aborted is an error wrapping context.Canceled. */
  datatype Verdict = Up | NotAuthorized | Failed | Aborted

  /**
   * A session's goroutine: inside Client.Run; returned and about to signal;
   * found the channel full and about to drain it; drained and about to send
   * again; signalled; and done closed.
   */
  datatype Phase = Running | Ended(err: Failure) | Draining(err: Failure) | Resending(err: Failure) | Signalled(err: Failure) | Gone

  /** `torn` records that a failed Start tore the session down, whoever held its handles then. */
  datatype Sess = Sess(cancelled: bool, torn: bool, ready: Option<Verdict>, phase: Phase)

  /** A disconnect signal, with the session it comes from. */
  datatype Signal = Signal(id: nat, err: Failure)

  /** Why Start failed, which decides what the manager does next. */
  datatype Why = Retry | Refused | Cancelled

  /**
   * The restarting caller: the first Start, then ReconnectManager.Run. `own`
   * says the teardown found the handles in place and emptied them; `dropped`
   * says the drain after the last restart threw away the newest session's signal.
   */
  datatype Manager =
    | StartLock
    | Await(id: nat)
    | TearLock(id: nat, why: Why) | TearCancel(id: nat, why: Why, own: bool) | TearWait(id: nat, why: Why)
    | MarkStopped
    | Listening(dropped: bool)
    | Sleeping
    | TakeLock | TakeCancel(id: nat) | TakeWait(id: nat)
    | Dropping | Pinging(dropped: bool)
    | Off

  /** One call of Stop. */
  datatype Stopper = StopMark | StopTake | StopCancel(id: nat) | StopWait(id: nat) | StopReturned

  /**
   * attempt is 0 during the first Start. Two fields record history: the
   * sessions a wait of the restarting caller gave up on, and each signal Run
   * handled, with how many sessions there were.
   */
  datatype State = State(
    sessions: seq<Sess>, channel: Option<Signal>, current: Option<nat>, stopped: bool,
    manager: Manager, attempt: nat, maxAttempts: nat, stoppers: seq<Stopper>,
    stuck: set<int>, handled: seq<(nat, nat)>)

  datatype Action =
    | Go | TimeOut | ContextDone | Ping(ok: bool)
    | Report(id: nat, v: Verdict) | End(id: nat, err: Failure) | Send(id: nat) | Finish(id: nat)
    | StopGo(i: nat) | StopTimeOut(i: nat)

  function Stops(n: nat): seq<Stopper> { seq(n, _ => StopMark) }

  function Init(maxAttempts: nat, stops: nat): State {
    State([], None, None, false, StartLock, 0, maxAttempts, Stops(stops), {}, [])
  }

  // ----- the steps

  function SetPhase(s: State, id: nat, p: Phase): State
    requires id < |s.sessions|
  {
    s.(sessions := s.sessions[id := s.sessions[id].(phase := p)])
  }

  function Cancel(s: State, id: nat): State
    requires id < |s.sessions|
  {
    s.(sessions := s.sessions[id := s.sessions[id].(cancelled := true)])
  }

  /** The cancel call of a failed Start. */
  function Tear(s: State, id: nat): State
    requires id < |s.sessions|
  {
    s.(sessions := s.sessions[id := s.sessions[id].(cancelled := true, torn := true)])
  }

  function Newest(s: State): int { |s.sessions| - 1 }

  predicate IsGone(s: State, id: nat) { id < |s.sessions| && s.sessions[id].phase == Gone }

  /** One more failed attempt: back off, or hand the channel back to Run. */
  function FailAttempt(s: State, dropped: bool): State {
    if s.attempt == 0 then s.(manager := Off)
    else if s.maxAttempts > 0 && s.attempt >= s.maxAttempts then s.(manager := Listening(dropped))
    else s.(manager := Sleeping, attempt := s.attempt + 1)
  }

  function StartFailed(s: State, why: Why): State {
    match why
    case Retry => FailAttempt(s, false)
    case Refused => s.(manager := MarkStopped)
    case Cancelled => s.(manager := Off)
  }

  function StartSession(s: State): State {
    var id := |s.sessions|;
    s.(sessions := s.sessions + [Sess(false, false, None, Running)], current := Some(id), manager := Await(id))
  }

  function ReadVerdict(s: State, id: nat): State
    requires id < |s.sessions| && s.sessions[id].ready.Some?
  {
    var read := s.(sessions := s.sessions[id := s.sessions[id].(ready := None)]);
    match s.sessions[id].ready.value
    case Up => read.(manager := if s.attempt == 0 then Listening(false) else Dropping)
    case NotAuthorized => read.(manager := TearLock(id, Refused))
    case Failed => read.(manager := TearLock(id, Retry))
    case Aborted => read.(manager := TearLock(id, Cancelled))
  }

  /** The channel's signal is the newest session's. */
  predicate Own(s: State) { s.channel.Some? && s.channel.value.id == Newest(s) }

  function ManagerGo(s: State): State {
    match s.manager
    case StartLock =>
      if s.stopped then s.(manager := Off) else StartSession(s)
    case Await(id) =>
      if id >= |s.sessions| || s.sessions[id].ready.None? then s else ReadVerdict(s, id)
    case TearLock(id, why) =>
      s.(current := if s.current == Some(id) then None else s.current, manager := TearCancel(id, why, s.current == Some(id)))
    case TearCancel(id, why, _) =>
      if id < |s.sessions| then Tear(s, id).(manager := TearWait(id, why)) else s
    case TearWait(id, why) => if IsGone(s, id) then StartFailed(s, why) else s
    case MarkStopped => s.(stopped := true, manager := Off)
    case Listening(_) =>
      if s.channel.None? then s
      else
        var sig := s.channel.value;
        var took := s.(channel := None, handled := s.handled + [(sig.id, |s.sessions|)]);
        if sig.err != Broken then took.(manager := Off) else took.(manager := Sleeping, attempt := 1)
    case Sleeping => s.(manager := TakeLock)
    case TakeLock =>
      s.(current := None, manager := if s.current.None? then StartLock else TakeCancel(s.current.value))
    case TakeCancel(id) => if id < |s.sessions| then Cancel(s, id).(manager := TakeWait(id)) else s
    case TakeWait(id) => if IsGone(s, id) then s.(manager := StartLock) else s
    case Dropping => s.(channel := None, manager := Pinging(Own(s)))
    case Pinging(_) => s
    case Off => s
  }

  function ManagerTimeOut(s: State): State {
    match s.manager
    case Await(id) =>
      if id < |s.sessions| && s.sessions[id].ready.None? then s.(manager := TearLock(id, Retry)) else s
    case TearWait(id, why) => StartFailed(s.(stuck := s.stuck + {id}), why)
    case TakeWait(id) => FailAttempt(s.(stuck := s.stuck + {id}), false)
    case _ => s
  }

  function ManagerContextDone(s: State): State {
    match s.manager
    case Listening(_) => s.(manager := Off)
    case Sleeping => s.(manager := Off)
    case Pinging(_) => s.(manager := Off)
    case Await(id) => s.(manager := TearLock(id, Cancelled))
    case _ => s
  }

  /** Ping may succeed or fail at any time; what its answer tells is a condition on runs, where one is needed. */
  function ManagerPing(s: State, ok: bool): State {
    match s.manager
    case Pinging(dropped) => if ok then s.(manager := Listening(dropped)) else FailAttempt(s, dropped)
    case _ => s
  }

  /** The send of signalDisconnect, one channel operation at a time. */
  function SessionSend(s: State, id: nat): State
    requires id < |s.sessions|
  {
    match s.sessions[id].phase
    case Ended(err) =>
      if s.channel.None? then SetPhase(s.(channel := Some(Signal(id, err))), id, Signalled(err))
      else SetPhase(s, id, Draining(err))
    case Draining(err) => SetPhase(s.(channel := None), id, Resending(err))
    case Resending(err) =>
      SetPhase(if s.channel.None? then s.(channel := Some(Signal(id, err))) else s, id, Signalled(err))
    case _ => s
  }

  /** The rest of run: the error goes to `ready` if there is room, then done closes. */
  function SessionFinish(s: State, id: nat): State
    requires id < |s.sessions| && s.sessions[id].phase.Signalled?
  {
    var x := s.sessions[id];
    var last := match x.phase.err case Clean => Up case Canceled => Aborted case Broken => Failed;
    s.(sessions := s.sessions[id := x.(phase := Gone, ready := if x.ready.None? then Some(last) else x.ready)])
  }

  function StopperGo(s: State, i: nat): State
    requires i < |s.stoppers|
  {
    match s.stoppers[i]
    case StopMark => s.(stopped := true, stoppers := s.stoppers[i := StopTake])
    case StopTake =>
      s.(current := None,
         stoppers := s.stoppers[i := if s.current.None? then StopReturned else StopCancel(s.current.value)])
    case StopCancel(id) =>
      if id < |s.sessions| then Cancel(s, id).(stoppers := s.stoppers[i := StopWait(id)]) else s
    case StopWait(id) => if IsGone(s, id) then s.(stoppers := s.stoppers[i := StopReturned]) else s
    case StopReturned => s
  }

  /** One action; an action that is not possible changes nothing. */
  function Apply(s: State, a: Action): State {
    match a
    case Go => ManagerGo(s)
    case TimeOut => ManagerTimeOut(s)
    case ContextDone => ManagerContextDone(s)
    case Ping(ok) => ManagerPing(s, ok)
    case Report(id, v) =>
      if id < |s.sessions| && s.sessions[id].phase == Running && s.sessions[id].ready.None?
      then s.(sessions := s.sessions[id := s.sessions[id].(ready := Some(v))]) else s
    case End(id, err) =>
      if id < |s.sessions| && s.sessions[id].phase == Running then SetPhase(s, id, Ended(err)) else s
    case Send(id) => if id < |s.sessions| then SessionSend(s, id) else s
    case Finish(id) =>
      if id < |s.sessions| && s.sessions[id].phase.Signalled? then SessionFinish(s, id) else s
    case StopGo(i) => if i < |s.stoppers| then StopperGo(s, i) else s
    case StopTimeOut(i) =>
      if i < |s.stoppers| && s.stoppers[i].StopWait? then s.(stoppers := s.stoppers[i := StopReturned]) else s
  }

  function Run(s: State, acts: seq<Action>): State
    decreases |acts|
  {
    if acts == [] then s else Run(Apply(s, acts[0]), acts[1..])
  }

  // ----- ownership: who holds a session's handles

  /** The session the restarting caller is working on. */
  function Subject(m: Manager): Option<nat> {
    match m
    case Await(i) => Some(i)
    case TearLock(i, _) => Some(i)
    case TearCancel(i, _, _) => Some(i)
    case TearWait(i, _) => Some(i)
    case TakeCancel(i) => Some(i)
    case TakeWait(i) => Some(i)
    case _ => None
  }

  function StopSubject(p: Stopper): Option<nat> {
    match p
    case StopCancel(i) => Some(i)
    case StopWait(i) => Some(i)
    case _ => None
  }

  /** Past the point where the restarting caller emptied the supervisor's handles. */
  predicate Emptied(m: Manager) {
    m.StartLock? || m.TearCancel? || m.TearWait? || m.MarkStopped? || m.TakeCancel? || m.TakeWait?
  }

  predicate Done(s: State, id: nat)
    requires id < |s.sessions|
  {
    s.sessions[id].phase == Gone || id in s.stuck
  }

  /** The newest session, once out of the supervisor's hands, is in the restarting caller's. */
  predicate InHand(s: State) {
    s.stopped || s.sessions == [] || Done(s, |s.sessions| - 1) || s.current.Some?
    || s.manager.TearCancel? || s.manager.TearWait? || s.manager.TakeCancel? || s.manager.TakeWait?
  }

  ghost predicate StoppersOwn(s: State) {
    forall i :: 0 <= i < |s.stoppers| && s.stoppers[i] != StopMark ==>
      s.stopped && (s.stoppers[i] == StopTake || s.current.None?)
      && (StopSubject(s.stoppers[i]).Some? ==> StopSubject(s.stoppers[i]).value == Newest(s))
  }

  ghost predicate OldDone(s: State) {
    forall id :: 0 <= id < |s.sessions| - 1 ==> s.sessions[id].phase == Gone || id in s.stuck
  }

  ghost predicate Ownership(s: State) {
    && OldDone(s)
    && StoppersOwn(s)
    && (forall id :: id in s.stuck ==> id < |s.sessions|)
    && (s.current.Some? ==> s.current.value == Newest(s) && Newest(s) !in s.stuck)
    && (Subject(s.manager).Some? ==> Subject(s.manager).value == Newest(s))
    && (Emptied(s.manager) ==> s.current.None?)
    && InHand(s)
  }

  /** Steps of the sessions themselves touch no handle and raise nobody from the dead. */
  lemma OwnershipFrame(s: State, t: State)
    requires Ownership(s) && |t.sessions| == |s.sessions|
    requires forall id :: 0 <= id < |s.sessions| && s.sessions[id].phase == Gone ==> t.sessions[id].phase == Gone
    requires t.(sessions := s.sessions, channel := s.channel) == s
    ensures Ownership(t)
  {
    assert t.stoppers == s.stoppers && t.manager == s.manager && t.current == s.current;
  }

  lemma OwnershipStart(s: State)
    requires Ownership(s) && s.manager.StartLock? && !s.stopped
    ensures Ownership(StartSession(s))
  {
  }

  predicate Cancelling(m: Manager) { m.TearCancel? || m.TearWait? || m.TakeCancel? || m.TakeWait? }

  /** The caller moves on without touching the supervisor's handles. */
  lemma OwnershipMoves(s: State, t: State)
    requires Ownership(s) && |t.sessions| == |s.sessions|
    requires forall id :: 0 <= id < |s.sessions| && s.sessions[id].phase == Gone ==> t.sessions[id].phase == Gone
    requires t.current == s.current && t.stoppers == s.stoppers && t.stuck == s.stuck
    requires s.stopped ==> t.stopped
    requires Subject(t.manager).Some? ==> Subject(t.manager) == Subject(s.manager)
    requires Emptied(t.manager) ==> Emptied(s.manager)
    requires !Cancelling(s.manager)
    ensures Ownership(t)
  {
  }

  lemma OwnershipCancel(s: State)
    requires Ownership(s) && Cancelling(s.manager)
    ensures Ownership(ManagerGo(s))
  {
  }

  lemma OwnershipTake(s: State)
    requires Ownership(s) && (s.manager.TearLock? || s.manager.TakeLock? || s.manager.Pinging? || s.manager.Off?)
    ensures Ownership(ManagerGo(s))
  {
  }

  lemma OwnershipManager(s: State)
    requires Ownership(s)
    ensures Ownership(ManagerGo(s))
  {
    hide StartSession, Ownership;
    var m := s.manager;
    if m.StartLock? {
      if s.stopped { OwnershipMoves(s, ManagerGo(s)); } else { OwnershipStart(s); }
    } else if m.Await? || m.Listening? || m.Dropping? || m.MarkStopped? || m.Sleeping? {
      OwnershipMoves(s, ManagerGo(s));
    } else if Cancelling(m) {
      OwnershipCancel(s);
    } else {
      OwnershipTake(s);
    }
  }

  lemma OwnershipTimeOut(s: State)
    requires Ownership(s)
    ensures Ownership(ManagerTimeOut(s))
  {
  }

  lemma OwnershipSession(s: State, id: nat)
    requires Ownership(s) && id < |s.sessions|
    ensures Ownership(SessionSend(s, id))
    ensures s.sessions[id].phase.Signalled? ==> Ownership(SessionFinish(s, id))
  {
    hide Ownership;
    OwnershipFrame(s, SessionSend(s, id));
    if s.sessions[id].phase.Signalled? { OwnershipFrame(s, SessionFinish(s, id)); }
  }

  lemma OwnershipStopper(s: State, i: nat)
    requires Ownership(s) && i < |s.stoppers|
    ensures Ownership(StopperGo(s, i))
  {
  }

  lemma OwnershipContext(s: State, ok: bool)
    requires Ownership(s)
    ensures Ownership(ManagerContextDone(s)) && Ownership(ManagerPing(s, ok))
  {
    hide Ownership;
    if !Cancelling(s.manager) {
      OwnershipMoves(s, ManagerContextDone(s));
      OwnershipMoves(s, ManagerPing(s, ok));
    }
  }

  lemma OwnershipStopTimeOut(s: State, i: nat)
    requires Ownership(s)
    ensures Ownership(Apply(s, StopTimeOut(i)))
  {
  }

  lemma OwnershipStep(s: State, a: Action)
    requires Ownership(s)
    ensures Ownership(Apply(s, a))
  {
    hide ManagerGo, ManagerTimeOut, ManagerContextDone, ManagerPing, SessionSend, SessionFinish, StopperGo, Ownership;
    match a
    case Go => OwnershipManager(s);
    case TimeOut => OwnershipTimeOut(s);
    case ContextDone => OwnershipContext(s, true);
    case Ping(ok) => OwnershipContext(s, ok);
    case StopTimeOut(i) => OwnershipStopTimeOut(s, i);
    case Send(id) => if id < |s.sessions| { OwnershipSession(s, id); }
    case Finish(id) => if id < |s.sessions| { OwnershipSession(s, id); }
    case StopGo(i) => if i < |s.stoppers| { OwnershipStopper(s, i); }
    case Report(_, _) => OwnershipFrame(s, Apply(s, a));
    case End(_, _) => OwnershipFrame(s, Apply(s, a));
  }

  lemma {:induction false} OwnershipRun(s: State, acts: seq<Action>)
    requires Ownership(s)
    ensures Ownership(Run(s, acts))
    decreases |acts|
  {
    if acts != [] {
      OwnershipStep(s, acts[0]);
      OwnershipRun(Apply(s, acts[0]), acts[1..]);
    }
  }

  // ----- at most one session

  function Live(s: State): set<int> {
    set id | 0 <= id < |s.sessions| && s.sessions[id].phase != Gone
  }

  /**
   * In every run at most one session is alive besides those whose teardown
   * the restarting caller gave up waiting for.
   */
  lemma OneLiveSession(maxAttempts: nat, stops: nat, acts: seq<Action>)
    ensures var t := Run(Init(maxAttempts, stops), acts); |Live(t)| <= 1 + |t.stuck|
    ensures var t := Run(Init(maxAttempts, stops), acts);
            forall id :: id in Live(t) && id !in t.stuck ==> id == Newest(t)
  {
    var t := Run(Init(maxAttempts, stops), acts);
    OwnershipRun(Init(maxAttempts, stops), acts);
    assert Live(t) <= t.stuck + {Newest(t)};
    SubsetSize(Live(t), t.stuck + {Newest(t)});
  }

  /** A run may be followed three actions at a time. */
  lemma RunOn(s: State, a: Action, b: Action, c: Action, t: State, rest: seq<Action>)
    requires Apply(Apply(Apply(s, a), b), c) == t
    ensures Run(s, [a, b, c] + rest) == Run(t, rest)
  {
    hide Apply, Run;
    assert [a, b, c] + rest == [a] + ([b] + ([c] + rest));
    RunFirst(s, a, [b] + ([c] + rest));
    RunFirst(Apply(s, a), b, [c] + rest);
    RunFirst(Apply(Apply(s, a), b), c, rest);
  }

  lemma RunFirst(s: State, a: Action, rest: seq<Action>)
    ensures Run(s, [a] + rest) == Run(Apply(s, a), rest)
  {
    hide Apply;
    assert ([a] + rest)[1..] == rest;
  }

  const DEAD := Sess(false, false, Some(Failed), Gone)
  const FRESH := Sess(false, false, None, Running)

  /** Session 0 was up and died; the manager replaced it and waits for session 1. */
  function Reconnecting(maxAttempts: nat, stops: nat): State {
    State([DEAD.(cancelled := true), FRESH], None, Some(1), false, Await(1), 1, maxAttempts, Stops(stops), {}, [(0, 1)])
  }

  function ToReconnecting(rest: seq<Action>): seq<Action> {
    [Go, Report(0, Up), Go] + ([End(0, Broken), Send(0), Finish(0)] + ([Go, Go, Go] + ([Go, Go, Go] + rest)))
  }

  lemma ReconnectingReached(maxAttempts: nat, stops: nat, rest: seq<Action>)
    ensures Run(Init(maxAttempts, stops), ToReconnecting(rest)) == Run(Reconnecting(maxAttempts, stops), rest)
  {
    hide Run, Stops, Apply, Init;
    FirstDies(maxAttempts, stops, [Go, Go, Go] + ([Go, Go, Go] + rest));
    FirstReplaced(maxAttempts, stops, rest);
  }

  /** Session 0 is up, and dies. */
  function FirstDead(maxAttempts: nat, stops: nat): State {
    State([DEAD], Some(Signal(0, Broken)), Some(0), false, Listening(false), 0, maxAttempts, Stops(stops), {}, [])
  }

  lemma FirstDies(maxAttempts: nat, stops: nat, rest: seq<Action>)
    ensures Run(Init(maxAttempts, stops), [Go, Report(0, Up), Go] + ([End(0, Broken), Send(0), Finish(0)] + rest))
            == Run(FirstDead(maxAttempts, stops), rest)
  {
    hide Run, Stops, StopperGo, ManagerTimeOut, ManagerPing, ManagerContextDone;
    var s1 := State([FRESH], None, Some(0), false, Listening(false), 0, maxAttempts, Stops(stops), {}, []);
    RunOn(s1, End(0, Broken), Send(0), Finish(0), FirstDead(maxAttempts, stops), rest);
    RunOn(Init(maxAttempts, stops), Go, Report(0, Up), Go, s1, [End(0, Broken), Send(0), Finish(0)] + rest);
  }

  lemma FirstReplaced(maxAttempts: nat, stops: nat, rest: seq<Action>)
    ensures Run(FirstDead(maxAttempts, stops), [Go, Go, Go] + ([Go, Go, Go] + rest)) == Run(Reconnecting(maxAttempts, stops), rest)
  {
    hide Run, Stops, StopperGo, ManagerTimeOut, ManagerPing, ManagerContextDone, SessionSend, SessionFinish;
    var s3 := State([DEAD], None, None, false, TakeCancel(0), 1, maxAttempts, Stops(stops), {}, [(0, 1)]);
    RunOn(s3, Go, Go, Go, Reconnecting(maxAttempts, stops), rest);
    RunOn(FirstDead(maxAttempts, stops), Go, Go, Go, s3, [Go, Go, Go] + rest);
  }

  /** Session 1 came up, its Ping failed, and Restart has just taken its handles. */
  function Taking(stops: nat): State {
    State([DEAD.(cancelled := true), FRESH], None, None, false, TakeCancel(1), 2, 0, Stops(stops), {}, [(0, 1)])
  }

  function ToTaking(rest: seq<Action>): seq<Action> {
    ToReconnecting([Report(1, Up), Go, Go] + ([Ping(false), Go, Go] + rest))
  }

  lemma TakingReached(stops: nat, rest: seq<Action>)
    ensures Run(Init(0, stops), ToTaking(rest)) == Run(Taking(stops), rest)
  {
    hide Run, Stops, StopperGo, SessionSend, SessionFinish, ManagerContextDone, ManagerTimeOut;
    var s5 := State([DEAD.(cancelled := true), FRESH], None, Some(1), false, Pinging(false), 1, 0, Stops(stops), {}, [(0, 1)]);
    RunOn(s5, Ping(false), Go, Go, Taking(stops), rest);
    RunOn(Reconnecting(0, stops), Report(1, Up), Go, Go, s5, [Ping(false), Go, Go] + rest);
    ReconnectingReached(0, stops, [Report(1, Up), Go, Go] + ([Ping(false), Go, Go] + rest));
  }

  /** Session 1's teardown times out: the next Restart sees nothing running and opens session 2. */
  function TwoLiveRun(): seq<Action> {
    ToTaking([Go, TimeOut, Go] + ([Go, Go, Report(2, Up)] + []))
  }

  lemma TwoLiveSessions()
    ensures var t := Run(Init(0, 0), TwoLiveRun());
            |t.sessions| == 3 && t.sessions[1].phase == Running && t.sessions[2].phase == Running && t.stuck == {1}
  {
    hide Run, Stops, StopperGo, SessionSend, SessionFinish, ManagerContextDone, ManagerPing;
    var first, down := DEAD.(cancelled := true), FRESH.(cancelled := true);
    var s7 := State([first, down], None, None, false, TakeLock, 3, 0, Stops(0), {1}, [(0, 1)]);
    var s8 := State([first, down, FRESH.(ready := Some(Up))], None, Some(2), false, Await(2), 3, 0, Stops(0), {1}, [(0, 1)]);
    RunOn(s7, Go, Go, Report(2, Up), s8, []);
    RunOn(Taking(0), Go, TimeOut, Go, s7, [Go, Go, Report(2, Up)] + []);
    TakingReached(0, [Go, TimeOut, Go] + ([Go, Go, Report(2, Up)] + []));
    RunNothing(s8);
  }

  lemma RunNothing(s: State)
    ensures Run(s, []) == s
  {
  }

  // ----- Stop

  /** The restarting caller took the handles and has yet to call cancel. */
  predicate AboutToCancel(m: Manager) { m.TakeCancel? || (m.TearCancel? && m.own) }

  ghost predicate StopAboutToCancel(s: State) {
    exists i :: 0 <= i < |s.stoppers| && s.stoppers[i].StopCancel?
  }

  ghost predicate OldCancelled(s: State) {
    forall id :: 0 <= id < |s.sessions| - 1 ==> s.sessions[id].cancelled
  }

  /** At most one caller is about to cancel what it took. */
  ghost predicate OneHolder(s: State) {
    && (AboutToCancel(s.manager) ==> !StopAboutToCancel(s))
    && (forall i, j :: 0 <= i < j < |s.stoppers| ==> !(s.stoppers[i].StopCancel? && s.stoppers[j].StopCancel?))
  }

  /** Somebody who has not called cancel yet has the newest session's handles. */
  ghost predicate Held(s: State)
    requires s.sessions != []
  {
    s.current.Some? || AboutToCancel(s.manager) || (StopAboutToCancel(s) && !s.sessions[|s.sessions| - 1].torn)
  }

  /** The only session that may not be cancelled is the newest, and it is not exactly while somebody holds it. */
  ghost predicate Released(s: State) {
    && OldCancelled(s) && OneHolder(s)
    && (s.sessions != [] ==>
          (Held(s) <==> !s.sessions[|s.sessions| - 1].cancelled)
          && (s.sessions[|s.sessions| - 1].torn ==> s.sessions[|s.sessions| - 1].cancelled))
  }

  /** Steps that move no handle and cancel nothing. */
  lemma ReleasedFrame(s: State, t: State)
    requires Released(s) && |t.sessions| == |s.sessions|
    requires forall id :: 0 <= id < |s.sessions| ==>
               t.sessions[id].cancelled == s.sessions[id].cancelled && t.sessions[id].torn == s.sessions[id].torn
    requires t.current == s.current && t.stoppers == s.stoppers
    requires AboutToCancel(t.manager) == AboutToCancel(s.manager)
    ensures Released(t)
  {
    assert StopAboutToCancel(t) == StopAboutToCancel(s);
  }

  lemma ReleasedStart(s: State)
    requires Ownership(s) && Released(s) && s.manager.StartLock? && !s.stopped
    ensures Released(StartSession(s))
  {
  }

  lemma ReleasedHandles(s: State)
    requires Ownership(s) && Released(s)
    requires s.manager.TearCancel? || s.manager.TakeCancel? || s.manager.TearLock? || s.manager.TakeLock?
    ensures Released(ManagerGo(s))
  {
    var t := ManagerGo(s);
    assert t.stoppers == s.stoppers;
    assert StopAboutToCancel(t) == StopAboutToCancel(s);
  }

  lemma ReleasedManager(s: State)
    requires Ownership(s) && Released(s)
    ensures Released(ManagerGo(s))
  {
    hide StartSession, Ownership, Released;
    var m := s.manager;
    if m.StartLock? && !s.stopped {
      ReleasedStart(s);
    } else if m.TearCancel? || m.TakeCancel? || m.TearLock? || m.TakeLock? {
      ReleasedHandles(s);
    } else {
      ReleasedFrame(s, ManagerGo(s));
    }
  }

  lemma ReleasedStopper(s: State, i: nat)
    requires Ownership(s) && Released(s) && i < |s.stoppers|
    ensures Released(StopperGo(s, i))
  {
    var t := StopperGo(s, i);
    assert forall j :: 0 <= j < |s.stoppers| && j != i ==> t.stoppers[j] == s.stoppers[j];
    if s.stoppers[i].StopTake? && s.current.Some? {
      assert t.stoppers[i].StopCancel?;
      assert StopAboutToCancel(t);
    } else if s.stoppers[i].StopCancel? {
      assert StopAboutToCancel(s) && !StopAboutToCancel(t);
    } else {
      assert StopAboutToCancel(t) == StopAboutToCancel(s);
    }
  }

  /** A wait given up moves no handle, and neither do Ping and the end of the context. */
  lemma ReleasedTimeOut(s: State)
    requires Released(s)
    ensures Released(ManagerTimeOut(s))
  {
    hide Released;
    ReleasedFrame(s, ManagerTimeOut(s));
  }

  lemma ReleasedContext(s: State, ok: bool)
    requires Released(s)
    ensures Released(ManagerContextDone(s)) && Released(ManagerPing(s, ok))
  {
    hide Released;
    ReleasedFrame(s, ManagerContextDone(s));
    ReleasedFrame(s, ManagerPing(s, ok));
  }

  lemma ReleasedSession(s: State, a: Action)
    requires Released(s) && (a.Report? || a.End? || a.Send? || a.Finish?)
    ensures Released(Apply(s, a))
  {
    hide Released, AboutToCancel, ManagerGo, ManagerTimeOut, ManagerContextDone, ManagerPing, StopperGo;
    ReleasedFrame(s, Apply(s, a));
  }

  lemma ReleasedStep(s: State, a: Action)
    requires Ownership(s) && Released(s)
    ensures Released(Apply(s, a))
  {
    hide ManagerGo, StopperGo, ManagerTimeOut, ManagerContextDone, ManagerPing, SessionSend, SessionFinish, Ownership, Released;
    match a
    case Go => ReleasedManager(s);
    case StopGo(i) => if i < |s.stoppers| { ReleasedStopper(s, i); }
    case StopTimeOut(i) => ReleasedStopTimeOut(s, i);
    case TimeOut => ReleasedTimeOut(s);
    case ContextDone => ReleasedContext(s, true);
    case Ping(ok) => ReleasedContext(s, ok);
    case _ => ReleasedSession(s, a);
  }

  lemma ReleasedStopTimeOut(s: State, i: nat)
    requires Released(s)
    ensures Released(Apply(s, StopTimeOut(i)))
  {
    var t := Apply(s, StopTimeOut(i));
    assert forall j :: 0 <= j < |s.stoppers| ==> t.stoppers[j].StopCancel? == s.stoppers[j].StopCancel?;
    assert StopAboutToCancel(t) == StopAboutToCancel(s);
  }

  /** What holds in every reachable state of the supervisor. */
  ghost predicate Supervised(s: State) {
    Ownership(s) && Released(s)
  }

  lemma {:induction false} SupervisedRun(s: State, acts: seq<Action>)
    requires Supervised(s)
    ensures Supervised(Run(s, acts))
    decreases |acts|
  {
    hide Ownership, Released, Apply;
    if acts != [] {
      OwnershipStep(s, acts[0]);
      ReleasedStep(s, acts[0]);
      SupervisedRun(Apply(s, acts[0]), acts[1..]);
    }
  }

  lemma StoppedManager(s: State)
    ensures |ManagerGo(s).stoppers| == |s.stoppers|
    ensures s.stopped ==> ManagerGo(s).stopped && |ManagerGo(s).sessions| == |s.sessions|
  {
  }

  lemma StoppedStep(s: State, a: Action)
    ensures |Apply(s, a).stoppers| == |s.stoppers|
    ensures s.stopped ==> Apply(s, a).stopped && |Apply(s, a).sessions| == |s.sessions|
  {
    hide ManagerGo;
    StoppedManager(s);
  }

  lemma {:induction false} StoppedRun(s: State, acts: seq<Action>)
    ensures |Run(s, acts).stoppers| == |s.stoppers|
    ensures s.stopped ==> Run(s, acts).stopped && |Run(s, acts).sessions| == |s.sessions|
    decreases |acts|
  {
    hide Apply;
    if acts != [] {
      StoppedStep(s, acts[0]);
      StoppedRun(Apply(s, acts[0]), acts[1..]);
    }
  }

  predicate AllCancelled(s: State) {
    forall id :: 0 <= id < |s.sessions| ==> s.sessions[id].cancelled
  }

  /**
   * Once a call of Stop has returned no session starts any more, and every
   * session but the newest is cancelled. The newest is left uncancelled if
   * and only if a caller that took its handles has yet to call cancel: the
   * restarting caller, or another Stop while no failed Start tore the session
   * down. With one Stop it is the restarting caller, whose next step cancels.
   */
  lemma StopReturns(maxAttempts: nat, stops: nat, acts: seq<Action>, i: nat, more: seq<Action>)
    requires i < stops
    requires var t := Run(Init(maxAttempts, stops), acts); i < |t.stoppers| && t.stoppers[i] == StopReturned
    ensures var t := Run(Init(maxAttempts, stops), acts);
            OldCancelled(t)
            && (t.sessions != [] ==>
                  var last := t.sessions[|t.sessions| - 1];
                  !last.cancelled <==> AboutToCancel(t.manager) || (StopAboutToCancel(t) && !last.torn))
    ensures var t := Run(Init(maxAttempts, stops), acts); |Run(t, more).sessions| == |t.sessions|
    ensures stops == 1 ==>
              var t := Run(Init(maxAttempts, stops), acts);
              (!AllCancelled(t) <==> AboutToCancel(t.manager)) && (AboutToCancel(t.manager) ==> AllCancelled(Apply(t, Go)))
  {
    hide Run, StopperGo, ManagerTimeOut;
    var s := Init(maxAttempts, stops);
    SupervisedRun(s, acts);
    StoppedRun(s, acts);
    StoppedRun(Run(s, acts), more);
  }

  /** Stop returns while Restart, holding session 1's handles, has not cancelled it yet. */
  function StopGapRun(): seq<Action> {
    ToTaking([StopGo(0), StopGo(0), StopGo(0)] + [])
  }

  lemma StopReturnsTooEarly()
    ensures var t := Run(Init(0, 1), StopGapRun());
            t.stoppers == [StopReturned] && |t.sessions| == 2 && t.sessions[1] == FRESH
  {
    hide Run, ManagerGo, SessionSend, SessionFinish, ManagerContextDone, ManagerTimeOut, ManagerPing;
    var s7 := Taking(1).(stopped := true, stoppers := [StopReturned]);
    RunOn(Taking(1), StopGo(0), StopGo(0), StopGo(0), s7, []);
    TakingReached(1, [StopGo(0), StopGo(0), StopGo(0)] + []);
    RunNothing(s7);
  }

  // ----- what a verdict leads to

  /** The restarting caller is on its way out: it waits for a verdict that ends it, tears down for good, or is gone. */
  predicate Leaving(s: State) {
    match s.manager
    case Await(id) => id < |s.sessions| && (s.sessions[id].ready == Some(NotAuthorized) || s.sessions[id].ready == Some(Aborted))
    case TearLock(_, why) => why != Retry
    case TearCancel(_, why, _) => why != Retry
    case TearWait(_, why) => why != Retry
    case MarkStopped => true
    case Off => true
    case _ => false
  }

  lemma LeavingManager(s: State)
    requires Leaving(s)
    ensures Leaving(ManagerGo(s)) && |ManagerGo(s).sessions| == |s.sessions|
    ensures Leaving(ManagerTimeOut(s)) && |ManagerTimeOut(s).sessions| == |s.sessions|
  {
  }

  lemma LeavingStep(s: State, a: Action)
    requires Leaving(s)
    ensures Leaving(Apply(s, a)) && |Apply(s, a).sessions| == |s.sessions|
  {
    hide ManagerGo, ManagerTimeOut;
    LeavingManager(s);
  }

  lemma {:induction false} LeavingRun(s: State, acts: seq<Action>)
    requires Leaving(s)
    ensures Leaving(Run(s, acts)) && |Run(s, acts).sessions| == |s.sessions|
    decreases |acts|
  {
    hide Leaving, Apply;
    if acts != [] {
      LeavingStep(s, acts[0]);
      LeavingRun(Apply(s, acts[0]), acts[1..]);
    }
  }

  /** Tearing a refused session down, marking the supervisor stopped, or gone with it stopped. */
  predicate Refusing(s: State) {
    match s.manager
    case TearLock(_, why) => why == Refused
    case TearCancel(_, why, _) => why == Refused
    case TearWait(_, why) => why == Refused
    case MarkStopped => true
    case Off => s.stopped
    case _ => false
  }

  lemma RefusingStep(s: State, a: Action)
    requires Refusing(s)
    ensures Refusing(Apply(s, a))
  {
    hide ManagerGo;
    if a.Go? { RefusingGo(s); } else { RefusingElse(s, a); }
  }

  lemma RefusingGo(s: State)
    requires Refusing(s)
    ensures Refusing(ManagerGo(s))
  {
  }

  lemma RefusingElse(s: State, a: Action)
    requires Refusing(s) && !a.Go?
    ensures Refusing(Apply(s, a))
  {
  }

  lemma {:induction false} RefusingRun(s: State, acts: seq<Action>)
    requires Refusing(s)
    ensures Refusing(Run(s, acts))
    decreases |acts|
  {
    hide Refusing, Apply;
    if acts != [] {
      RefusingStep(s, acts[0]);
      RefusingRun(Apply(s, acts[0]), acts[1..]);
    }
  }

  /**
   * Once not-authorized is what the restarting caller waits to read, no session
   * ever starts again, whatever happens: its context may end first. Once it
   * has read it, the caller can only end by being gone, with the supervisor
   * stopped.
   */
  lemma NotAuthorizedIsFinal(maxAttempts: nat, stops: nat, acts: seq<Action>, id: nat, more: seq<Action>)
    requires var t := Run(Init(maxAttempts, stops), acts);
             t.manager == Await(id) && id < |t.sessions| && t.sessions[id].ready == Some(NotAuthorized)
    ensures var t := Run(Init(maxAttempts, stops), acts); |Run(t, more).sessions| == |t.sessions|
    ensures var t := Run(Init(maxAttempts, stops), acts);
            var u := Run(Apply(t, Go), more);
            |u.sessions| == |t.sessions|
            && (u.manager.TearLock? || u.manager.TearCancel? || u.manager.TearWait? || u.manager.MarkStopped?
                || (u.manager.Off? && u.stopped))
  {
    hide Run, ManagerTimeOut, StopperGo;
    var t := Run(Init(maxAttempts, stops), acts);
    LeavingRun(t, more);
    LeavingRun(Apply(t, Go), more);
    RefusingRun(Apply(t, Go), more);
  }

  /** A run loop that ended by cancellation starts nothing either. */
  lemma AbortedIsFinal(maxAttempts: nat, stops: nat, acts: seq<Action>, id: nat, more: seq<Action>)
    requires var t := Run(Init(maxAttempts, stops), acts);
             t.manager == Await(id) && id < |t.sessions| && t.sessions[id].ready == Some(Aborted)
    ensures var t := Run(Init(maxAttempts, stops), acts); |Run(t, more).sessions| == |t.sessions|
  {
    hide Run;
    LeavingRun(Run(Init(maxAttempts, stops), acts), more);
  }

  /**
   * Where each verdict takes the restarting caller. A session that is up is
   * left alone: the caller listens, or drains and pings first. Any other one
   * is taken out of the supervisor's hands and cancelled, and after the wait,
   * however it ends, a failed start is tried again after a pause unless it was
   * the first or the last one allowed, an aborted one ends the caller, and an
   * unauthorized one marks the supervisor stopped and then ends it.
   */
  lemma VerdictLeads(s: State, id: nat, v: Verdict, wait: Action)
    requires s.manager == Await(id) && id < |s.sessions| && s.sessions[id].ready == Some(v)
    requires wait == TimeOut || (wait == Go && s.sessions[id].phase == Gone)
    ensures v == Up ==>
              Apply(s, Go) == s.(sessions := s.sessions[id := s.sessions[id].(ready := None)],
                                 manager := if s.attempt == 0 then Listening(false) else Dropping)
    ensures v != Up ==>
              var u := Apply(Apply(Apply(Apply(s, Go), Go), Go), wait);
              u.sessions == s.sessions[id := s.sessions[id].(ready := None, cancelled := true, torn := true)]
              && u.current == (if s.current == Some(id) then None else s.current) && u.stopped == s.stopped
              && (v == Aborted ==> u.manager == Off)
              && (v == NotAuthorized ==> u.manager == MarkStopped && Apply(u, Go).manager == Off && Apply(u, Go).stopped)
              && (v == Failed ==>
                    u.manager == (if s.attempt == 0 then Off
                                  else if 0 < s.maxAttempts <= s.attempt then Listening(false)
                                  else Sleeping)
                    && (u.manager == Sleeping ==> u.attempt == s.attempt + 1))
  {
    hide SessionSend, SessionFinish, StopperGo, ManagerContextDone, ManagerPing;
  }

  /** A verdict that does not come in time is a failed start; the end of the context is an aborted one. */
  lemma NoVerdictLeads(s: State, id: nat, wait: Action)
    requires s.manager == Await(id) && id < |s.sessions|
    requires wait == TimeOut || (wait == Go && s.sessions[id].phase == Gone)
    ensures s.sessions[id].ready.None? ==>
              var u := Apply(Apply(Apply(Apply(s, TimeOut), Go), Go), wait);
              u.sessions == s.sessions[id := s.sessions[id].(cancelled := true, torn := true)] && u.current != Some(id)
              && u.manager == (if s.attempt == 0 then Off
                               else if 0 < s.maxAttempts <= s.attempt then Listening(false)
                               else Sleeping)
    ensures var u := Apply(Apply(Apply(Apply(s, ContextDone), Go), Go), wait);
            u.sessions == s.sessions[id := s.sessions[id].(cancelled := true, torn := true)] && u.current != Some(id)
            && u.manager == Off
  {
    hide SessionSend, SessionFinish, StopperGo, ManagerPing;
  }

  /**
   * What a run loop's end tells a caller that still waits: an error is a
   * failed start, a cancellation an aborted one, and no error at all counts as
   * up; what was reported before stands.
   */
  lemma LoopEndLeads(s: State, id: nat)
    requires id < |s.sessions| && s.sessions[id].phase.Signalled?
    ensures var x := s.sessions[id];
            Apply(s, Finish(id)).sessions[id].phase == Gone
            && (x.ready.Some? ==> Apply(s, Finish(id)).sessions[id].ready == x.ready)
            && (x.ready.None? ==>
                  Apply(s, Finish(id)).sessions[id].ready
                  == Some(if x.phase.err == Broken then Failed else if x.phase.err == Canceled then Aborted else Up))
    ensures forall k :: 0 <= k < |s.sessions| && k != id ==> Apply(s, Finish(id)).sessions[k] == s.sessions[k]
  {
    hide ManagerGo, ManagerTimeOut, SessionSend, StopperGo;
  }

  /** A listening caller takes an error for a disconnect and pauses before its first attempt; nil and cancellation end it. */
  lemma SignalLeads(s: State)
    requires s.manager.Listening? && s.channel.Some?
    ensures var u := Apply(s, Go);
            u.channel.None? && u.sessions == s.sessions && u.current == s.current
            && (if s.channel.value.err == Broken then u.manager == Sleeping && u.attempt == 1 else u.manager == Off)
  {
    hide SessionSend, SessionFinish, StopperGo;
  }

  /**
   * After the pause: with no session in the supervisor's hands a new one is
   * started at once; one that is there is cancelled first and replaced only if
   * it is gone within the wait; and a stopped supervisor starts none.
   */
  lemma RestartLeads(s: State)
    requires s.manager == Sleeping && s.attempt > 0 && (s.current.Some? ==> s.current.value < |s.sessions|)
    ensures s.current.None? ==>
              var u := Apply(Apply(Apply(s, Go), Go), Go);
              if s.stopped then u.sessions == s.sessions && u.manager == Off
              else u.sessions == s.sessions + [FRESH] && u.current == Some(|s.sessions|) && u.manager == Await(|s.sessions|)
    ensures s.current.Some? ==>
              var id := s.current.value;
              var t := Apply(Apply(Apply(s, Go), Go), Go);
              t.current.None? && t.manager == TakeWait(id) && t.sessions == s.sessions[id := s.sessions[id].(cancelled := true)]
              && |Apply(t, TimeOut).sessions| == |s.sessions| && Apply(t, TimeOut).manager != StartLock
              && Apply(t, Go).manager == (if s.sessions[id].phase == Gone then StartLock else TakeWait(id))
  {
    hide SessionSend, SessionFinish, StopperGo, ManagerContextDone, ManagerPing;
  }
}
