/**
 * Read acknowledgements (internal/core/sync/read.go): a producer that reads
 * the bus, a queue of opened chats, a depth-one slot in which a newer
 * acknowledgement displaces an older one, and a worker that reports them.
 * One step is one channel operation or one call; a run is any sequence of them.
 */
module ReadReceipts {

  import opened Basics

  /** A request; maxId 0 asks for whatever is newest. */
  datatype Request = Request(chatId: int, maxId: int)

  /** An acknowledgement in the slot, with its number among those given to replaceAck. */
  datatype Ack = Ack(number: nat, request: Request)

  datatype Event = ChatOpened(chatId: int) | MessageReceived(chatId: int, id: int, edited: bool, outgoing: bool)

  datatype Producer = Reading | SlotWasFull(ack: Ack) | SlotDrained(ack: Ack) | ClosingOpens | Returned

  /** The worker: selecting; asking for the newest id; comparing; reporting; clearing the local counter; gone. */
  datatype Worker =
    | Selecting
    | Looking(chatId: int)
    | Comparing(request: Request)
    | Reporting(request: Request)
    | Clearing(chatId: int)
    | Exited

  /** What became of an acknowledgement. */
  datatype Fate = Waiting | Taken | DisplacedBy(number: nat)

  /** A look for the newest message of a chat, and what it found. */
  datatype Lookup = Lookup(chatId: int, answer: Option<int>)

  /** A local counter cleared, when this many reports had succeeded. */
  datatype Cleared = Cleared(chatId: int, reports: nat)

  const PENDING_READS: nat := 8

  /**
   * History: every event read, the place among them of each acknowledgement
   * given to replaceAck and what became of it, the chats of the opens that
   * were queued, the lookups made, what the server agreed to and refused, and
   * counters cleared.
   */
  datatype Log = Log(
    read: seq<Event>, given: seq<nat>, fates: seq<Fate>, asked: seq<int>, lookups: seq<Lookup>,
    reported: seq<Request>, refused: seq<Request>, cleared: seq<Cleared>)

  datatype State = State(
    producer: Producer, openChat: int, opens: seq<Request>, slot: Option<Ack>, opensClosed: bool, acksClosed: bool,
    worker: Worker, opensDone: bool, acksDone: bool, acknowledged: map<int, int>, log: Log)

  const START := State(Reading, 0, [], None, false, false, Selecting, false, false, map[], Log([], [], [], [], [], [], [], []))

  datatype Action =
    | Read(e: Event) | Stop | Send | Close
    | TakeOpen | TakeAck | NoMoreOpens | NoMoreAcks
    | Newest(id: Option<int>) | Compare | Report(ok: bool) | Clear(ok: bool) | Leave

  /** What an event asks for. */
  function RequestFor(s: State, e: Event): Option<Request> {
    match e
    case ChatOpened(c) => if c != 0 then Some(Request(c, 0)) else None
    case MessageReceived(c, id, edited, outgoing) =>
      if edited || outgoing || c == 0 || c != s.openChat then None else Some(Request(c, id))
  }

  function Sees(s: State, e: Event): State {
    s.(openChat := if e.ChatOpened? then e.chatId else s.openChat, log := s.log.(read := s.log.read + [e]))
  }

  function Queues(s: State, r: Request): State {
    if |s.opens| < PENDING_READS
    then s.(opens := s.opens + [r], log := s.log.(asked := s.log.asked + [r.chatId])) else s
  }

  /** replaceAck up to its first send; `place` is that of the message among the events read. */
  function Gives(s: State, r: Request, place: nat): State {
    var ack := Ack(|s.log.fates|, r);
    var log := s.log.(fates := s.log.fates + [Waiting], given := s.log.given + [place]);
    if s.slot.None? then s.(slot := Some(ack), log := log) else s.(producer := SlotWasFull(ack), log := log)
  }

  function Reads(s: State, e: Event): State {
    match RequestFor(s, e)
    case None => Sees(s, e)
    case Some(r) => if r.maxId == 0 then Queues(Sees(s, e), r) else Gives(Sees(s, e), r, |s.log.read|)
  }

  /** The rest of replaceAck: drain the slot, then send again if it is free. */
  function Sends(s: State): State {
    match s.producer
    case SlotWasFull(ack) =>
      if s.slot.Some? && s.slot.value.number < |s.log.fates|
      then s.(slot := None, producer := SlotDrained(ack), log := WithFate(s.log, s.slot.value.number, DisplacedBy(ack.number)))
      else s.(slot := None, producer := SlotDrained(ack))
    case SlotDrained(ack) => if s.slot.None? then s.(slot := Some(ack), producer := Reading) else s.(producer := Reading)
    case _ => s
  }

  function WithFate(log: Log, k: nat, fate: Fate): Log
    requires k < |log.fates|
  {
    log.(fates := log.fates[k := fate])
  }

  function Takes(s: State, r: Request): State {
    s.(worker := if r.chatId == 0 then Selecting else if r.maxId == 0 then Looking(r.chatId) else Comparing(r))
  }

  function Already(s: State, chatId: int): int { if chatId in s.acknowledged then s.acknowledged[chatId] else 0 }

  /** One action; one that is not possible changes nothing. */
  function Apply(s: State, a: Action): State {
    match a
    case Read(e) => if s.producer == Reading then Reads(s, e) else s
    case Stop => if s.producer == Reading then s.(acksClosed := true, producer := ClosingOpens) else s
    case Send => Sends(s)
    case Close => if s.producer == ClosingOpens then s.(opensClosed := true, producer := Returned) else s
    case TakeOpen =>
      if s.worker == Selecting && !s.opensDone && s.opens != []
      then Takes(s.(opens := s.opens[1..]), s.opens[0]) else s
    case TakeAck =>
      if s.worker == Selecting && !s.acksDone && s.slot.Some? && s.slot.value.number < |s.log.fates|
      then Takes(s.(slot := None, log := WithFate(s.log, s.slot.value.number, Taken)), s.slot.value.request) else s
    case NoMoreOpens => if s.worker == Selecting && s.opens == [] && s.opensClosed then s.(opensDone := true) else s
    case NoMoreAcks => if s.worker == Selecting && s.slot.None? && s.acksClosed then s.(acksDone := true) else s
    case Newest(id) =>
      if s.worker.Looking?
      then s.(worker := if id.None? then Selecting else Comparing(Request(s.worker.chatId, id.value)),
              log := s.log.(lookups := s.log.lookups + [Lookup(s.worker.chatId, id)]))
      else s
    case Compare =>
      if s.worker.Comparing?
      then s.(worker := if s.worker.request.maxId <= Already(s, s.worker.request.chatId) then Selecting else Reporting(s.worker.request))
      else s
    case Report(ok) =>
      if s.worker.Reporting? then
        var r := s.worker.request;
        if ok then s.(worker := Clearing(r.chatId), acknowledged := s.acknowledged[r.chatId := r.maxId],
                      log := s.log.(reported := s.log.reported + [r]))
        else s.(worker := Selecting, log := s.log.(refused := s.log.refused + [r]))
      else s
    case Clear(ok) =>
      if s.worker.Clearing?
      then s.(worker := Selecting,
              log := if ok then s.log.(cleared := s.log.cleared + [Cleared(s.worker.chatId, |s.log.reported|)]) else s.log)
      else s
    case Leave => if s.worker == Selecting && s.opensDone && s.acksDone then s.(worker := Exited) else s
  }

  function Run(s: State, acts: seq<Action>): State {
    if acts == [] then s else Apply(Run(s, acts[..|acts| - 1]), acts[|acts| - 1])
  }

  /** Both goroutines have returned, so done is closed. */
  predicate Done(s: State) { s.producer == Returned && s.worker == Exited }

  // ----- the slot and the queue

  /** The acknowledgement the producer is in the middle of sending. */
  function InHand(p: Producer): Option<nat> {
    match p
    case SlotWasFull(ack) => Some(ack.number)
    case SlotDrained(ack) => Some(ack.number)
    case _ => None
  }

  predicate FateHeld(s: State, k: nat)
    requires k < |s.log.fates|
  {
    match s.log.fates[k]
    case Waiting => (s.slot.Some? && s.slot.value.number == k) || InHand(s.producer) == Some(k)
    case Taken => true
    case DisplacedBy(j) => k + 1 == j < |s.log.fates|
  }

  /**
   * Every acknowledgement that waits is in the slot or in the producer's hand;
   * the slot holds the latest one given, or the one before it while the
   * producer is about to displace that; so each is displaced by the next one.
   */
  predicate Queued(s: State) {
    && (forall k :: 0 <= k < |s.log.fates| ==> FateHeld(s, k))
    && (s.slot.Some? ==>
          s.slot.value.number == |s.log.fates| - (if s.producer.SlotWasFull? then 2 else 1) && s.log.fates[s.slot.value.number] == Waiting)
    && (InHand(s.producer).Some? ==> InHand(s.producer).value == |s.log.fates| - 1 && s.log.fates[|s.log.fates| - 1] == Waiting)
    && (s.producer.SlotDrained? ==> s.slot.None?)
    && (s.acksDone ==> s.slot.None? && s.acksClosed)
    && (s.opensDone ==> s.opens == [] && s.opensClosed)
    && (s.acksClosed <==> s.producer == ClosingOpens || s.producer == Returned)
    && (s.opensClosed <==> s.producer == Returned)
    && (s.worker == Exited ==> s.opensDone && s.acksDone)
    && |s.opens| <= PENDING_READS
  }

  lemma QueuedSees(s: State, e: Event)
    requires Queued(s)
    ensures Queued(Sees(s, e))
  {
    forall k | 0 <= k < |s.log.fates| ensures FateHeld(Sees(s, e), k) { assert FateHeld(s, k); }
  }

  lemma QueuedOpens(s: State, r: Request)
    requires Queued(s) && s.producer == Reading
    ensures Queued(Queues(s, r))
  {
    forall k | 0 <= k < |s.log.fates| ensures FateHeld(Queues(s, r), k) { assert FateHeld(s, k); }
  }

  lemma QueuedGives(s: State, r: Request, place: nat)
    requires Queued(s) && s.producer == Reading
    ensures Queued(Gives(s, r, place))
  {
    var t := Gives(s, r, place);
    forall k | 0 <= k < |t.log.fates| ensures FateHeld(t, k) {
      assert k < |s.log.fates| ==> FateHeld(s, k);
    }
  }

  lemma QueuedReads(s: State, e: Event)
    requires Queued(s) && s.producer == Reading
    ensures Queued(Reads(s, e))
  {
    hide Queued, Queues, Gives;
    QueuedSees(s, e);
    if RequestFor(s, e).Some? {
      QueuedOpens(Sees(s, e), RequestFor(s, e).value);
      QueuedGives(Sees(s, e), RequestFor(s, e).value, |s.log.read|);
    }
  }

  lemma QueuedSends(s: State)
    requires Queued(s)
    ensures Queued(Sends(s))
  {
    forall k | 0 <= k < |Sends(s).log.fates| ensures FateHeld(Sends(s), k) {
      assert FateHeld(s, k);
    }
  }

  lemma QueuedTakes(s: State)
    requires Queued(s)
    ensures Queued(Apply(s, TakeAck)) && Queued(Apply(s, TakeOpen))
  {
    forall k | 0 <= k < |s.log.fates| ensures FateHeld(Apply(s, TakeAck), k) && FateHeld(Apply(s, TakeOpen), k) {
      assert FateHeld(s, k);
    }
  }

  lemma QueuedCloses(s: State, a: Action)
    requires Queued(s) && (a.Stop? || a.Close? || a.NoMoreOpens? || a.NoMoreAcks? || a.Leave?)
    ensures Queued(Apply(s, a))
  {
    forall k | 0 <= k < |s.log.fates| ensures FateHeld(Apply(s, a), k) { assert FateHeld(s, k); }
  }

  /** The worker at work moves nothing between the two of them. */
  lemma QueuedFrame(s: State, t: State)
    requires Queued(s) && s.worker != Exited && t.worker != Exited
    requires t.(worker := s.worker, acknowledged := s.acknowledged, log := s.log) == s
    requires t.log.fates == s.log.fates
    ensures Queued(t)
  {
    forall k | 0 <= k < |s.log.fates| ensures FateHeld(t, k) { assert FateHeld(s, k); }
  }

  lemma QueuedWorks(s: State, a: Action)
    requires Queued(s) && (a.Newest? || a.Compare? || a.Report? || a.Clear?)
    ensures Queued(Apply(s, a))
  {
    hide Queued;
    if s.worker.Looking? || s.worker.Comparing? || s.worker.Reporting? || s.worker.Clearing? { QueuedFrame(s, Apply(s, a)); }
  }

  lemma {:induction false} QueuedRun(acts: seq<Action>)
    ensures Queued(Run(START, acts))
  {
    hide Queued, Apply;
    if acts == [] {
      assert Queued(START) by { StartQueued(); }
    } else {
      QueuedRun(acts[..|acts| - 1]);
      QueuedStep(Run(START, acts[..|acts| - 1]), acts[|acts| - 1]);
    }
  }

  lemma StartQueued()
    ensures Queued(START)
  {
  }

  lemma QueuedStep(s: State, a: Action)
    requires Queued(s)
    ensures Queued(Apply(s, a))
  {
    hide Queued, Reads, Sends;
    if a.Read? {
      if s.producer == Reading { QueuedReads(s, a.e); }
    } else if a.Send? {
      QueuedSends(s);
    } else if a.TakeOpen? || a.TakeAck? {
      QueuedTakes(s);
    } else if a.Newest? || a.Compare? || a.Report? || a.Clear? {
      QueuedWorks(s, a);
    } else {
      QueuedCloses(s, a);
    }
  }

  // ----- the opens

  /** A chat is looked for while the worker asks for its newest id. */
  function Sought(w: Worker): seq<int> { if w.Looking? then [w.chatId] else [] }

  /** Every open queued is looked up already, being looked up, or still waiting, in the order queued. */
  predicate LookedUp(s: State) {
    && |s.log.asked| == |s.log.lookups| + |Sought(s.worker)| + |s.opens|
    && (forall i :: 0 <= i < |s.log.lookups| ==> s.log.asked[i] == s.log.lookups[i].chatId)
    && (s.worker.Looking? ==> s.log.asked[|s.log.lookups|] == s.worker.chatId)
    && (forall j :: 0 <= j < |s.opens| ==>
          s.opens[j] == Request(s.log.asked[|s.log.asked| - |s.opens| + j], 0) && s.opens[j].chatId != 0)
  }

  lemma LookedUpReads(s: State, e: Event)
    requires LookedUp(s)
    ensures LookedUp(Reads(s, e))
  {
    hide Gives, Queues, LookedUp, Sees;
    SeesOpensNothing(s, e);
    LookedUpFrame(s, Sees(s, e));
    if RequestFor(s, e).Some? {
      var r := RequestFor(s, e).value;
      GivesOpensNothing(Sees(s, e), r, |s.log.read|);
      LookedUpFrame(Sees(s, e), Gives(Sees(s, e), r, |s.log.read|));
      if r.maxId == 0 { LookedUpQueues(Sees(s, e), r); }
    }
  }

  lemma SeesOpensNothing(s: State, e: Event)
    ensures SameOpens(s, Sees(s, e))
  {
  }

  lemma LookedUpQueues(s: State, r: Request)
    requires LookedUp(s) && r.maxId == 0 && r.chatId != 0
    ensures LookedUp(Queues(s, r))
  {
  }

  /** What the opens and their lookups consist of. */
  predicate SameOpens(s: State, t: State) {
    t.opens == s.opens && t.log.asked == s.log.asked && t.log.lookups == s.log.lookups && Sought(t.worker) == Sought(s.worker)
  }

  lemma GivesOpensNothing(s: State, r: Request, place: nat)
    ensures SameOpens(s, Gives(s, r, place))
  {
  }

  lemma SendsOpensNothing(s: State)
    ensures SameOpens(s, Sends(s))
  {
  }

  lemma TakenAckSeeksNothing(s: State)
    requires Recorded(s)
    ensures SameOpens(s, Apply(s, TakeAck))
  {
    hide ScreenAfter;
  }

  lemma LookedUpStep(s: State, a: Action)
    requires LookedUp(s) && Recorded(s)
    ensures LookedUp(Apply(s, a))
  {
    hide Reads, Sends, Recorded, LookedUp;
    if a.Read? {
      LookedUpReads(s, a.e);
    } else if a.TakeOpen? || a.Newest? {
      LookedUpWorks(s, a);
    } else {
      if a.Send? { SendsOpensNothing(s); } else if a.TakeAck? { TakenAckSeeksNothing(s); }
      LookedUpFrame(s, Apply(s, a));
    }
  }

  lemma LookedUpFrame(s: State, t: State)
    requires LookedUp(s) && SameOpens(s, t)
    ensures LookedUp(t)
  {
  }

  lemma LookedUpWorks(s: State, a: Action)
    requires LookedUp(s) && (a.TakeOpen? || a.Newest?)
    ensures LookedUp(Apply(s, a))
  {
  }

  lemma {:induction false} LookedUpRun(acts: seq<Action>)
    ensures LookedUp(Run(START, acts))
  {
    hide LookedUp, Recorded, Apply;
    if acts == [] {
      assert LookedUp(START) by { StartLookedUp(); }
    } else {
      RecordedRun(acts[..|acts| - 1]);
      LookedUpRun(acts[..|acts| - 1]);
      LookedUpStep(Run(START, acts[..|acts| - 1]), acts[|acts| - 1]);
    }
  }

  lemma StartLookedUp()
    ensures LookedUp(START)
  {
  }

  /** The second send of replaceAck always finds the slot free: nothing is dropped there. */
  lemma SecondSendSucceeds(acts: seq<Action>)
    requires Run(START, acts).producer.SlotDrained?
    ensures var s := Run(START, acts); Apply(s, Send).slot == Some(s.producer.ack)
  {
    QueuedRun(acts);
  }

  /**
   * When done closes, every acknowledgement was taken by the worker or
   * displaced by the next one, the latest one was taken, and for every open
   * that found room in the queue the newest message was looked up, in the order
   * of the opens.
   */
  lemma NothingLeftBehind(acts: seq<Action>)
    requires Done(Run(START, acts))
    ensures var s := Run(START, acts);
            (forall k :: 0 <= k < |s.log.fates| ==>
               s.log.fates[k] == Taken || (s.log.fates[k] == DisplacedBy(k + 1) && k + 1 < |s.log.fates|))
            && (s.log.fates != [] ==> s.log.fates[|s.log.fates| - 1] == Taken)
            && s.opens == [] && |s.log.lookups| == |s.log.asked|
            && (forall i :: 0 <= i < |s.log.asked| ==> s.log.lookups[i].chatId == s.log.asked[i])
  {
    QueuedRun(acts);
    LookedUpRun(acts);
    var s := Run(START, acts);
    forall k | 0 <= k < |s.log.fates| ensures s.log.fates[k] == Taken || (s.log.fates[k] == DisplacedBy(k + 1) && k + 1 < |s.log.fates|) {
      assert FateHeld(s, k);
    }
  }

  /**
   * What replaceAck does when the slot is full: whoever is still there is
   * displaced, the worker may have taken it first, and the new one is in.
   */
  lemma FullSlotReplaced(acts: seq<Action>)
    requires Run(START, acts).producer.SlotWasFull?
    ensures var s := Run(START, acts);
            var t := Apply(Apply(s, Send), Send);
            t.slot == Some(s.producer.ack) && t.producer == Reading && s.producer.ack.number < |s.log.fates|
            && (s.slot.None? ==> t.log.fates == s.log.fates)
            && (s.slot.Some? ==>
                  s.slot.value.number + 1 == s.producer.ack.number
                  && t.log.fates == s.log.fates[s.slot.value.number := DisplacedBy(s.producer.ack.number)])
  {
    QueuedRun(acts);
  }

  lemma {:induction false} RunFirst(s: State, a: Action, more: seq<Action>)
    ensures Run(s, [a] + more) == Run(Apply(s, a), more)
    ensures Run(s, []) == s
    decreases |more|
  {
    hide Apply;
    var all := [a] + more;
    if more == [] {
      assert all[..|all| - 1] == [] && all[|all| - 1] == a;
      assert Run(s, []) == s;
    } else {
      assert all[..|all| - 1] == [a] + more[..|more| - 1];
      RunFirst(s, a, more[..|more| - 1]);
    }
  }

  function ProducerSteps(p: Producer): nat {
    match p case SlotWasFull(_) => 4 case SlotDrained(_) => 3 case Reading => 2 case ClosingOpens => 1 case Returned => 0
  }

  function WorkerSteps(w: Worker): nat {
    match w case Looking(_) => 3 case Comparing(_) => 3 case Reporting(_) => 2 case Clearing(_) => 2 case Selecting => 1 case Exited => 0
  }

  function Waiters(s: State): nat { |s.opens| + if s.slot.Some? then 1 else 0 }

  function Unseen(s: State): nat { (if s.opensDone then 0 else 1) + if s.acksDone then 0 else 1 }

  /** The next thing that is due once no more is read and every lookup and report fails. */
  function Due(s: State): Action {
    match s.producer
    case SlotWasFull(_) => Send
    case SlotDrained(_) => Send
    case Reading => Stop
    case ClosingOpens => Close
    case Returned =>
      match s.worker
      case Looking(_) => Newest(None)
      case Comparing(_) => Compare
      case Reporting(_) => Report(false)
      case Clearing(_) => Clear(false)
      case _ => if s.opens != [] then TakeOpen else if s.slot.Some? then TakeAck
                else if !s.opensDone then NoMoreOpens else if !s.acksDone then NoMoreAcks else Leave
  }

  predicate Nearer(s: State, t: State) {
    || ProducerSteps(t.producer) < ProducerSteps(s.producer)
    || (t.producer == s.producer == Returned
        && (|| Waiters(t) < Waiters(s)
            || (Waiters(t) == Waiters(s)
                && (Unseen(t) < Unseen(s) || (Unseen(t) == Unseen(s) && WorkerSteps(t.worker) < WorkerSteps(s.worker))))))
  }

  lemma DueIsNearer(s: State)
    requires Queued(s) && !Done(s)
    ensures Nearer(s, Apply(s, Due(s)))
  {
  }

  lemma {:induction false} QueuedFinishes(s: State) returns (more: seq<Action>)
    requires Queued(s)
    ensures Done(Run(s, more))
    decreases ProducerSteps(s.producer), Waiters(s), Unseen(s), WorkerSteps(s.worker)
  {
    hide Queued, Apply, Run, Due;
    if Done(s) {
      RunFirst(s, Stop, []);
      more := [];
    } else {
      DueIsNearer(s);
      QueuedStep(s, Due(s));
      var rest := QueuedFinishes(Apply(s, Due(s)));
      RunFirst(s, Due(s), rest);
      more := [Due(s)] + rest;
    }
  }

  /** Nothing ever gets stuck: from wherever a run has come to, both goroutines can still return. */
  lemma CanAlwaysFinish(acts: seq<Action>) returns (more: seq<Action>)
    ensures Done(Run(Run(START, acts), more))
  {
    QueuedRun(acts);
    more := QueuedFinishes(Run(START, acts));
  }

  // ----- the reports

  predicate Increasing(reported: seq<Request>) {
    forall i, j :: 0 <= i < j < |reported| && reported[i].chatId == reported[j].chatId ==> reported[i].maxId < reported[j].maxId
  }

  predicate Reports(s: State) {
    && Increasing(s.log.reported)
    && (forall i :: 0 <= i < |s.log.reported| ==>
          s.log.reported[i].chatId in s.acknowledged && s.log.reported[i].maxId <= s.acknowledged[s.log.reported[i].chatId])
    && (s.worker.Reporting? ==> s.worker.request.maxId > Already(s, s.worker.request.chatId))
    && (s.worker.Clearing? ==> s.log.reported != [] && s.log.reported[|s.log.reported| - 1].chatId == s.worker.chatId)
    && (forall i :: 0 <= i < |s.log.cleared| ==>
          0 < s.log.cleared[i].reports <= |s.log.reported|
          && s.log.reported[s.log.cleared[i].reports - 1].chatId == s.log.cleared[i].chatId)
  }

  /** Steps that report and clear nothing, and do not get the worker ready to. */
  lemma ReportsFrame(s: State, t: State)
    requires Reports(s) && t.log.reported == s.log.reported && t.log.cleared == s.log.cleared && t.acknowledged == s.acknowledged
    requires t.worker == s.worker || !(t.worker.Reporting? || t.worker.Clearing?)
    ensures Reports(t)
  {
  }

  lemma ReportsSucceeds(s: State)
    requires Reports(s) && s.worker.Reporting?
    ensures Reports(Apply(s, Report(true)))
  {
  }

  lemma ReportsCompares(s: State)
    requires Reports(s)
    ensures Reports(Apply(s, Compare))
  {
  }

  lemma ReportsClears(s: State, ok: bool)
    requires Reports(s)
    ensures Reports(Apply(s, Clear(ok)))
  {
    var t := Apply(s, Clear(ok));
    assert t.log.reported == s.log.reported && t.acknowledged == s.acknowledged;
    assert Increasing(t.log.reported);
    hide Increasing;
  }

  lemma ReportsQuiet(s: State, a: Action)
    requires Reports(s) && !a.Compare? && !a.Clear? && !(a.Report? && a.ok)
    ensures Reports(Apply(s, a))
  {
    hide Reports, Reads, Sends;
    ProducerReportsNothing(s);
    if a.Read? { ReadReportsNothing(s, a.e); }
    ReportsFrame(s, Apply(s, a));
  }

  /** What the worker and its reports consist of. */
  predicate SameReports(s: State, t: State) {
    t.log.reported == s.log.reported && t.log.refused == s.log.refused && t.log.cleared == s.log.cleared
    && t.acknowledged == s.acknowledged && t.worker == s.worker
  }

  lemma ReadReportsNothing(s: State, e: Event)
    ensures SameReports(s, Reads(s, e))
  {
    hide Queues, Gives, SameReports;
    SeesReportsNothing(s, e);
    if RequestFor(s, e).Some? { GivesReportsNothing(s, Sees(s, e), RequestFor(s, e).value, |s.log.read|); }
  }

  lemma SeesReportsNothing(s: State, e: Event)
    ensures SameReports(s, Sees(s, e))
  {
  }

  lemma GivesReportsNothing(s: State, t: State, r: Request, place: nat)
    requires SameReports(s, t)
    ensures SameReports(s, Queues(t, r)) && SameReports(s, Gives(t, r, place))
  {
  }

  lemma ProducerReportsNothing(s: State)
    ensures SameReports(s, Sends(s))
  {
  }

  lemma ReportsStep(s: State, a: Action)
    requires Reports(s)
    ensures Reports(Apply(s, a))
  {
    hide Reports;
    if a.Compare? {
      ReportsCompares(s);
    } else if a.Clear? {
      ReportsClears(s, a.ok);
    } else if a.Report? && a.ok {
      if s.worker.Reporting? { ReportsSucceeds(s); }
    } else {
      ReportsQuiet(s, a);
    }
  }

  lemma {:induction false} ReportsRun(acts: seq<Action>)
    ensures Reports(Run(START, acts))
  {
    if acts != [] {
      ReportsRun(acts[..|acts| - 1]);
      ReportsStep(Run(START, acts[..|acts| - 1]), acts[|acts| - 1]);
    }
  }

  /**
   * The ids the server agreed to strictly increase per chat, and a local
   * counter is cleared only right after the server agreed for that chat.
   */
  lemma ReportsIncrease(acts: seq<Action>, i: nat, j: nat)
    requires i < j < |Run(START, acts).log.reported|
    requires Run(START, acts).log.reported[i].chatId == Run(START, acts).log.reported[j].chatId
    ensures Run(START, acts).log.reported[i].maxId < Run(START, acts).log.reported[j].maxId
  {
    ReportsRun(acts);
  }

  lemma ClearedAfterAgreement(acts: seq<Action>, i: nat)
    requires i < |Run(START, acts).log.cleared|
    ensures var s := Run(START, acts);
            0 < s.log.cleared[i].reports <= |s.log.reported|
            && s.log.reported[s.log.cleared[i].reports - 1].chatId == s.log.cleared[i].chatId
  {
    ReportsRun(acts);
  }

  // ----- what a displaced acknowledgement leaves behind

  /** What an event asks for when it is acknowledged. */
  function RequestOf(e: Event): Request {
    match e
    case ChatOpened(c) => Request(c, 0)
    case MessageReceived(c, id, _, _) => Request(c, id)
  }

  /** The chat on screen after some events. */
  function ScreenAfter(c: int, events: seq<Event>): int {
    if events == [] then c
    else if events[|events| - 1].ChatOpened? then events[|events| - 1].chatId
    else ScreenAfter(c, events[..|events| - 1])
  }

  lemma {:induction false} ScreenSplits(c: int, a: seq<Event>, b: seq<Event>)
    ensures ScreenAfter(c, a + b) == ScreenAfter(ScreenAfter(c, a), b)
  {
    if b == [] {
      assert a + b == a;
    } else {
      assert (a + b)[..|a + b| - 1] == a + b[..|b| - 1];
      ScreenSplits(c, a, b[..|b| - 1]);
    }
  }

  /** If no other chat is opened, the chat stays on screen. */
  lemma {:induction false} ScreenStays(c: int, events: seq<Event>)
    requires forall e :: e in events && e.ChatOpened? ==> e.chatId == c
    ensures ScreenAfter(c, events) == c
  {
    if events != [] {
      assert events[|events| - 1] in events;
      ScreenStays(c, events[..|events| - 1]);
    }
  }

  /** The k-th acknowledgement is of a message read while its chat was on screen. */
  predicate Given(s: State, k: nat) {
    && k < |s.log.given| && s.log.given[k] < |s.log.read| && s.log.read[s.log.given[k]].MessageReceived?
    && ScreenAfter(0, s.log.read[..s.log.given[k]]) == s.log.read[s.log.given[k]].chatId
    && s.log.read[s.log.given[k]].chatId != 0 && s.log.read[s.log.given[k]].id != 0
  }

  function AckOf(s: State, k: nat): Request
    requires Given(s, k)
  {
    RequestOf(s.log.read[s.log.given[k]])
  }

  predicate Recalls(s: State, a: Ack) { Given(s, a.number) && a.request == AckOf(s, a.number) }

  predicate Recorded(s: State) {
    && |s.log.given| == |s.log.fates|
    && s.openChat == ScreenAfter(0, s.log.read)
    && (forall k :: 0 <= k < |s.log.given| ==> Given(s, k))
    && (forall j, k :: 0 <= j < k < |s.log.given| ==> s.log.given[j] < s.log.given[k])
    && (s.slot.Some? ==> Recalls(s, s.slot.value))
    && (s.producer.SlotWasFull? || s.producer.SlotDrained? ==> Recalls(s, s.producer.ack))
  }

  lemma RecordedSees(s: State, e: Event)
    requires Recorded(s)
    ensures Recorded(Sees(s, e))
  {
    hide ScreenAfter;
    var t := Sees(s, e);
    ScreenNext(s.log.read, e);
    forall k | 0 <= k < |s.log.given| ensures Given(t, k) && AckOf(t, k) == AckOf(s, k) {
      assert Given(s, k);
      assert t.log.read[..s.log.given[k]] == s.log.read[..s.log.given[k]];
    }
  }

  lemma GivesWhat(s: State, r: Request, place: nat)
    ensures var t := Gives(s, r, place);
            var ack := Ack(|s.log.fates|, r);
            t.log.read == s.log.read && t.log.given == s.log.given + [place] && t.log.fates == s.log.fates + [Waiting]
            && t.openChat == s.openChat
            && (if s.slot.None? then t.slot == Some(ack) && t.producer == s.producer
                else t.slot == s.slot && t.producer == SlotWasFull(ack))
  {
  }

  lemma RecordedGives(s: State, r: Request, place: nat)
    requires Recorded(s) && s.producer == Reading
    requires place < |s.log.read| && s.log.read[place].MessageReceived? && r == RequestOf(s.log.read[place])
    requires r.chatId != 0 && r.maxId != 0
    requires ScreenAfter(0, s.log.read[..place]) == r.chatId
    requires forall k :: 0 <= k < |s.log.given| ==> s.log.given[k] < place
    ensures Recorded(Gives(s, r, place))
  {
    hide ScreenAfter, Gives;
    GivesWhat(s, r, place);
    var t := Gives(s, r, place);
    forall k | 0 <= k < |t.log.given| ensures Given(t, k) && (k < |s.log.given| ==> AckOf(t, k) == AckOf(s, k)) {
      assert k < |s.log.given| ==> Given(s, k);
    }
  }

  lemma RecordedReads(s: State, e: Event)
    requires Recorded(s) && s.producer == Reading
    ensures Recorded(Reads(s, e))
  {
    hide ScreenAfter, Gives;
    RecordedSees(s, e);
    var t := Sees(s, e);
    assert t.log.read[..|s.log.read|] == s.log.read;
    if RequestFor(s, e).Some? && RequestFor(s, e).value.maxId != 0 {
      forall k | 0 <= k < |s.log.given| ensures s.log.given[k] < |s.log.read| { assert Given(s, k); }
      RecordedGives(t, RequestFor(s, e).value, |s.log.read|);
    } else {
      RecordedFrame(t, Reads(s, e));
    }
  }

  lemma ScreenNext(events: seq<Event>, e: Event)
    ensures ScreenAfter(0, events + [e]) == if e.ChatOpened? then e.chatId else ScreenAfter(0, events)
  {
    assert (events + [e])[..|events|] == events;
  }

  /** Steps that read nothing, and put nothing new into the slot or the producer's hand. */
  lemma RecordedFrame(s: State, t: State)
    requires Recorded(s) && t.log.read == s.log.read && t.log.given == s.log.given && |t.log.fates| == |s.log.fates|
    requires t.openChat == s.openChat
    requires t.slot.Some? ==> t.slot == s.slot || (s.producer.SlotDrained? && t.slot.value == s.producer.ack)
    requires t.producer.SlotWasFull? ==> t.producer == s.producer
    requires t.producer.SlotDrained? ==> t.producer == s.producer || (s.producer.SlotWasFull? && t.producer.ack == s.producer.ack)
    ensures Recorded(t)
  {
    hide ScreenAfter;
    forall k | 0 <= k < |s.log.given| ensures Given(t, k) { assert Given(s, k); }
  }

  lemma RecordedStep(s: State, a: Action)
    requires Recorded(s)
    ensures Recorded(Apply(s, a))
  {
    hide Recorded, Reads;
    if a.Read? {
      if s.producer == Reading { RecordedReads(s, a.e); }
    } else {
      RecordedFrame(s, Apply(s, a));
    }
  }

  lemma {:induction false} RecordedRun(acts: seq<Action>)
    ensures Recorded(Run(START, acts))
  {
    hide Recorded, Apply;
    if acts == [] {
      assert Recorded(START) by { StartRecorded(); }
    } else {
      RecordedRun(acts[..|acts| - 1]);
      RecordedStep(Run(START, acts[..|acts| - 1]), acts[|acts| - 1]);
    }
  }

  lemma StartRecorded()
    ensures Recorded(START)
  {
  }

  /** A message of someone else, not edited, in the chat on screen when it was read. */
  predicate Wanted(read: seq<Event>, place: nat)
    requires place < |read|
  {
    && read[place].MessageReceived? && !read[place].edited && !read[place].outgoing
    && read[place].chatId != 0 && read[place].id != 0 && read[place].chatId == ScreenAfter(0, read[..place])
  }

  predicate GivenAll(s: State) {
    && s.openChat == ScreenAfter(0, s.log.read)
    && forall i :: 0 <= i < |s.log.read| ==> (i in s.log.given <==> Wanted(s.log.read, i))
  }

  lemma GivenAllReads(s: State, e: Event)
    requires GivenAll(s) && forall i :: i in s.log.given ==> i < |s.log.read|
    ensures GivenAll(Reads(s, e))
  {
    hide ScreenAfter, Gives;
    ScreenNext(s.log.read, e);
    var t := Reads(s, e);
    if RequestFor(s, e).Some? { GivesWhat(Sees(s, e), RequestFor(s, e).value, |s.log.read|); }
    assert t.log.read == s.log.read + [e] && t.log.read[..|s.log.read|] == s.log.read;
    forall i | 0 <= i < |s.log.read| ensures Wanted(t.log.read, i) == Wanted(s.log.read, i) {
      assert t.log.read[..i] == s.log.read[..i];
    }
  }

  lemma SendsGivesNothing(s: State)
    ensures var t := Sends(s); t.openChat == s.openChat && t.log.read == s.log.read && t.log.given == s.log.given
  {
  }

  lemma GivenAllStep(s: State, a: Action)
    requires GivenAll(s) && forall i :: i in s.log.given ==> i < |s.log.read|
    ensures GivenAll(Apply(s, a))
  {
    hide ScreenAfter, Reads, Sends;
    SendsGivesNothing(s);
    if a.Read? { GivenAllReads(s, a.e); }
  }

  lemma {:induction false} GivenAllRun(acts: seq<Action>)
    ensures GivenAll(Run(START, acts))
  {
    if acts != [] {
      hide GivenAll, Apply;
      var s := Run(START, acts[..|acts| - 1]);
      RecordedRun(acts[..|acts| - 1]);
      forall i | i in s.log.given ensures i < |s.log.read| {
        var k :| 0 <= k < |s.log.given| && s.log.given[k] == i;
        assert Given(s, k);
      }
      GivenAllRun(acts[..|acts| - 1]);
      GivenAllStep(s, acts[|acts| - 1]);
    }
  }

  /**
   * In every run exactly the messages that the reader had on screen, of
   * someone else and not edited, are given to replaceAck, each once.
   */
  lemma GivenIff(acts: seq<Action>, i: nat)
    requires i < |Run(START, acts).log.read|
    ensures var s := Run(START, acts);
            (i in s.log.given <==> Wanted(s.log.read, i))
            && (forall j, k :: 0 <= j < k < |s.log.given| ==> s.log.given[j] != s.log.given[k])
  {
    GivenAllRun(acts);
    RecordedRun(acts);
  }

  /** The chat on screen is the one opened last. */
  lemma {:induction false} ScreenIsLastOpened(c: int, events: seq<Event>, n: nat)
    requires n < |events| && events[n].ChatOpened? && forall i :: n < i < |events| ==> !events[i].ChatOpened?
    ensures ScreenAfter(c, events) == events[n].chatId
  {
    if n < |events| - 1 { ScreenIsLastOpened(c, events[..|events| - 1], n); }
  }

  /** An open of a chat is queued unless eight are waiting; one of no chat is not. */
  lemma OpenQueuedIff(s: State, c: int)
    requires s.producer == Reading
    ensures var t := Apply(s, Read(ChatOpened(c)));
            t.openChat == c && t.producer == Reading
            && t.opens == (if c != 0 && |s.opens| < 8 then s.opens + [Request(c, 0)] else s.opens)
            && t.log.asked == (if c != 0 && |s.opens| < 8 then s.log.asked + [c] else s.log.asked)
  {
  }

  predicate Covers(later: Request, earlier: Request) { later.chatId == earlier.chatId && later.maxId >= earlier.maxId }

  /**
   * What was read from one acknowledged message up to another: the chat is
   * still, or again, on screen, and the id did not fall.
   */
  predicate Unbroken(s: State, j: nat, k: nat)
    requires Given(s, j) && Given(s, k) && s.log.given[j] <= s.log.given[k]
  {
    var first, last := s.log.read[s.log.given[j]], s.log.read[s.log.given[k]];
    ScreenAfter(first.chatId, s.log.read[s.log.given[j]..s.log.given[k]]) == first.chatId && first.id <= last.id
  }

  lemma CoversIff(s: State, j: nat, k: nat)
    requires Given(s, j) && Given(s, k) && s.log.given[j] <= s.log.given[k]
    ensures Covers(AckOf(s, k), AckOf(s, j)) <==> Unbroken(s, j, k)
  {
    var i, n := s.log.given[j], s.log.given[k];
    ScreenSplits(0, s.log.read[..i], s.log.read[i..n]);
    assert s.log.read[..i] + s.log.read[i..n] == s.log.read[..n];
  }

  lemma InOrder(s: State, j: nat, k: nat)
    requires Recorded(s) && j <= k < |s.log.fates|
    ensures Given(s, j) && Given(s, k) && s.log.given[j] <= s.log.given[k]
  {
  }

  /**
   * An acknowledgement is displaced by the next one only, and that one covers
   * it if and only if, of the chats opened in between, the last one is its own
   * chat (or none was opened), and the id read then is not smaller.
   */
  lemma DisplacedCoveredIff(acts: seq<Action>, k: nat)
    requires k < |Run(START, acts).log.fates| && Run(START, acts).log.fates[k].DisplacedBy?
    ensures var s := Run(START, acts);
            s.log.fates[k] == DisplacedBy(k + 1)
            && Given(s, k) && Given(s, k + 1) && s.log.given[k] < s.log.given[k + 1]
            && (Covers(AckOf(s, k + 1), AckOf(s, k)) <==> Unbroken(s, k, k + 1))
  {
    hide Run, ScreenAfter;
    QueuedRun(acts);
    RecordedRun(acts);
    var s := Run(START, acts);
    assert FateHeld(s, k);
    InOrder(s, k, k + 1);
    CoversIff(s, k, k + 1);
  }

  /** In particular if no other chat is opened in between and the id does not fall. */
  lemma NothingOpenedCovers(acts: seq<Action>, k: nat)
    requires k < |Run(START, acts).log.fates| && Run(START, acts).log.fates[k].DisplacedBy?
    requires var s := Run(START, acts); Given(s, k) && Given(s, k + 1)
    requires var s := Run(START, acts);
             (forall i :: s.log.given[k] <= i < s.log.given[k + 1] && s.log.read[i].ChatOpened? ==>
                s.log.read[i].chatId == s.log.read[s.log.given[k]].chatId)
             && s.log.read[s.log.given[k]].id <= s.log.read[s.log.given[k + 1]].id
    ensures var s := Run(START, acts); Covers(AckOf(s, k + 1), AckOf(s, k))
  {
    hide Run, ScreenAfter;
    DisplacedCoveredIff(acts, k);
    var s := Run(START, acts);
    ScreenStays(s.log.read[s.log.given[k]].chatId, s.log.read[s.log.given[k]..s.log.given[k + 1]]);
  }

  /** The acknowledgement the worker took for the k-th one: itself, or the last of those that displaced each other. */
  function TakenFor(fates: seq<Fate>, k: nat): (t: nat)
    requires k < |fates|
    ensures k <= t < |fates|
    ensures forall m :: k <= m < t ==> fates[m] != Taken
    ensures fates[|fates| - 1] == Taken ==> fates[t] == Taken
    decreases |fates| - k
  {
    if fates[k] == Taken || k == |fates| - 1 then k else TakenFor(fates, k + 1)
  }

  /**
   * When done closes, the acknowledgement taken for the k-th one follows it
   * by displacements only, and it covers it if and only if the chat is then on
   * screen and the id is not smaller; and so it is if no link is broken.
   */
  lemma TakenCoversIff(acts: seq<Action>, k: nat)
    requires Done(Run(START, acts)) && k < |Run(START, acts).log.fates|
    ensures var s := Run(START, acts);
            var t := TakenFor(s.log.fates, k);
            s.log.fates[t] == Taken && (forall m :: k <= m < t ==> s.log.fates[m] == DisplacedBy(m + 1))
            && Given(s, k) && Given(s, t) && s.log.given[k] <= s.log.given[t]
            && (Covers(AckOf(s, t), AckOf(s, k)) <==> Unbroken(s, k, t))
            && ((forall m: nat :: k <= m < t ==> Linked(s, m)) ==> Unbroken(s, k, t))
  {
    hide Run, ScreenAfter, Linked;
    NothingLeftBehind(acts);
    RecordedRun(acts);
    var s := Run(START, acts);
    var t := TakenFor(s.log.fates, k);
    InOrder(s, k, t);
    CoversIff(s, k, t);
    if forall m: nat :: k <= m < t ==> Linked(s, m) { LinksCover(s, k, t); }
  }

  /** Nothing is broken between an acknowledgement and the next one. */
  predicate Linked(s: State, m: nat) {
    Given(s, m) && Given(s, m + 1) && s.log.given[m] <= s.log.given[m + 1] && Unbroken(s, m, m + 1)
  }

  /** If no link up to the one taken for it is broken, the acknowledgement taken covers the k-th one. */
  lemma {:induction false} LinksCover(s: State, k: nat, t: nat)
    requires Given(s, k) && k <= t && forall m: nat :: k <= m < t ==> Linked(s, m)
    ensures Given(s, t) && Covers(AckOf(s, t), AckOf(s, k))
    decreases t - k
  {
    hide ScreenAfter, Unbroken;
    if k < t {
      assert Linked(s, k);
      CoversIff(s, k, k + 1);
      LinksCover(s, k + 1, t);
    }
  }

  /**
   * When done closes, the highest id given for a chat was taken if and only
   * if one of its readings is followed, up to the one taken for it, by no
   * break: the chat on screen again and an id that did not fall.
   */
  lemma HighestTakenIff(acts: seq<Action>, highest: Request)
    requires Done(Run(START, acts))
    requires forall k :: Given(Run(START, acts), k) && AckOf(Run(START, acts), k).chatId == highest.chatId ==>
               AckOf(Run(START, acts), k).maxId <= highest.maxId
    ensures var s := Run(START, acts);
            (exists t: nat :: Given(s, t) && t < |s.log.fates| && s.log.fates[t] == Taken && AckOf(s, t) == highest)
            <==> (exists k: nat :: Given(s, k) && k < |s.log.fates| && AckOf(s, k) == highest && Reaches(s, k))
  {
    hide Run, ScreenAfter, Unbroken, AckOf, Given;
    var s := Run(START, acts);
    if t: nat :| Given(s, t) && t < |s.log.fates| && s.log.fates[t] == Taken && AckOf(s, t) == highest {
      TakenCoversIff(acts, t);
      assert TakenFor(s.log.fates, t) == t;
      assert Reaches(s, t);
    }
    if k: nat :| Given(s, k) && k < |s.log.fates| && AckOf(s, k) == highest && Reaches(s, k) {
      TakenCoversIff(acts, k);
      var t := TakenFor(s.log.fates, k);
      assert AckOf(s, t) == highest;
    }
  }

  /** From the k-th acknowledgement to the one taken for it nothing is broken. */
  predicate Reaches(s: State, k: nat)
    requires Given(s, k) && k < |s.log.fates|
  {
    var t := TakenFor(s.log.fates, k);
    Given(s, t) && s.log.given[k] <= s.log.given[t] && Unbroken(s, k, t)
  }

  // ----- what the server knows in the end

  /** A request is in the worker's hand, or covered by what the server agreed to, or was refused. */
  predicate Met(s: State, r: Request) {
    r.maxId <= Already(s, r.chatId) || r in s.log.refused || s.worker == Comparing(r) || s.worker == Reporting(r)
  }

  lemma MetStays(s: State, a: Action, r: Request)
    requires Reports(s) && Met(s, r)
    ensures Met(Apply(s, a), r)
  {
    hide Reads, Sends, Increasing;
    ProducerReportsNothing(s);
    if a.Read? { ReadReportsNothing(s, a.e); }
  }

  /** A taken acknowledgement is met. */
  predicate Settled(s: State, k: nat)
    requires Given(s, k) && k < |s.log.fates|
  {
    s.log.fates[k] == Taken ==> Met(s, AckOf(s, k))
  }

  predicate AllSettled(s: State) {
    forall k :: 0 <= k < |s.log.fates| ==> Given(s, k) && Settled(s, k)
  }

  /** What was read and given stays. */
  predicate Onward(s: State, t: State) { s.log.read <= t.log.read && s.log.given <= t.log.given }

  lemma OnwardReads(s: State, e: Event)
    ensures Onward(s, Reads(s, e))
  {
    hide Gives;
    if RequestFor(s, e).Some? { GivesWhat(Sees(s, e), RequestFor(s, e).value, |s.log.read|); }
  }

  lemma OnwardSends(s: State)
    ensures Onward(s, Sends(s))
  {
  }

  lemma OnwardStep(s: State, a: Action)
    ensures Onward(s, Apply(s, a))
  {
    hide Reads, Sends;
    if a.Read? { OnwardReads(s, a.e); } else if a.Send? { OnwardSends(s); }
  }

  lemma GivenStays(s: State, a: Action, k: nat)
    requires Given(s, k)
    ensures Given(Apply(s, a), k) && AckOf(Apply(s, a), k) == AckOf(s, k)
  {
    hide ScreenAfter, Apply;
    OnwardStep(s, a);
    assert Apply(s, a).log.read[..s.log.given[k]] == s.log.read[..s.log.given[k]];
  }

  lemma SettledTakes(s: State)
    requires Recorded(s) && AllSettled(s)
    ensures AllSettled(Apply(s, TakeAck))
  {
    hide ScreenAfter;
    forall k | 0 <= k < |s.log.fates| ensures Given(Apply(s, TakeAck), k) && Settled(Apply(s, TakeAck), k) {
      GivenStays(s, TakeAck, k);
      assert Settled(s, k);
    }
  }

  /** Nothing is taken. */
  predicate TakesNone(s: State, t: State) {
    forall k :: 0 <= k < |t.log.fates| && t.log.fates[k] == Taken ==> k < |s.log.fates| && s.log.fates[k] == Taken
  }

  lemma SendsTakesNone(s: State)
    ensures TakesNone(s, Sends(s))
  {
  }

  lemma ReadsTakesNone(s: State, e: Event)
    ensures TakesNone(s, Reads(s, e))
  {
    hide Gives;
    if RequestFor(s, e).Some? { GivesWhat(Sees(s, e), RequestFor(s, e).value, |s.log.read|); }
  }

  lemma StepTakesNone(s: State, a: Action)
    requires !a.TakeAck?
    ensures TakesNone(s, Apply(s, a))
  {
    hide Reads, Sends;
    if a.Read? { ReadsTakesNone(s, a.e); } else if a.Send? { SendsTakesNone(s); }
  }

  lemma SettledStays(s: State, a: Action)
    requires Reports(s) && AllSettled(s) && Recorded(Apply(s, a)) && !a.TakeAck?
    ensures AllSettled(Apply(s, a))
  {
    hide ScreenAfter, AckOf, Given, Apply, Reports, Met;
    var t := Apply(s, a);
    StepTakesNone(s, a);
    forall k | 0 <= k < |t.log.fates| ensures Given(t, k) && Settled(t, k) {
      if t.log.fates[k] == Taken {
        assert Given(s, k) && Settled(s, k);
        GivenStays(s, a, k);
        MetStays(s, a, AckOf(s, k));
      }
    }
  }

  lemma SettledStep(s: State, a: Action)
    requires Recorded(s) && Reports(s) && AllSettled(s)
    ensures AllSettled(Apply(s, a))
  {
    hide Recorded, Reports, AllSettled, Apply;
    RecordedStep(s, a);
    if a.TakeAck? {
      SettledTakes(s);
    } else {
      SettledStays(s, a);
    }
  }

  lemma {:induction false} SettledRun(acts: seq<Action>)
    ensures AllSettled(Run(START, acts))
  {
    hide AllSettled, Apply;
    if acts == [] {
      assert AllSettled(START) by { StartSettled(); }
    } else {
      var before := acts[..|acts| - 1];
      RecordedRun(before);
      ReportsRun(before);
      SettledRun(before);
      SettledStep(Run(START, before), acts[|acts| - 1]);
    }
  }

  lemma StartSettled()
    ensures AllSettled(START)
  {
  }

  /**
   * When done closes, the server has agreed to at least the id of every
   * acknowledgement that no break cuts off from the one taken for it, unless
   * it refused that one.
   */
  lemma UnbrokenIsAcknowledged(acts: seq<Action>, k: nat)
    requires Done(Run(START, acts)) && k < |Run(START, acts).log.fates|
    ensures var s := Run(START, acts);
            Given(s, k)
            && (Reaches(s, k) ==>
                  AckOf(s, k).maxId <= Already(s, AckOf(s, k).chatId)
                  || (Given(s, TakenFor(s.log.fates, k)) && AckOf(s, TakenFor(s.log.fates, k)) in s.log.refused))
  {
    hide Run, ScreenAfter, Unbroken;
    TakenCoversIff(acts, k);
    SettledRun(acts);
    var s := Run(START, acts);
    assert Settled(s, TakenFor(s.log.fates, k));
  }

  // ----- what became of the opens

  /** Every id a lookup found is met. */
  predicate LookupsMet(s: State) {
    forall i :: 0 <= i < |s.log.lookups| && s.log.lookups[i].answer.Some? ==>
      Met(s, Request(s.log.lookups[i].chatId, s.log.lookups[i].answer.value))
  }

  lemma LookupsGrow(s: State, a: Action)
    ensures Apply(s, a).log.lookups
            == if a.Newest? && s.worker.Looking? then s.log.lookups + [Lookup(s.worker.chatId, a.id)] else s.log.lookups
  {
    hide Reads, Sends;
    SendsOpensNothing(s);
    if a.Read? { ReadsLookNothing(s, a.e); }
  }

  lemma ReadsLookNothing(s: State, e: Event)
    ensures Reads(s, e).log.lookups == s.log.lookups
  {
    hide Gives;
    if RequestFor(s, e).Some? { GivesOpensNothing(Sees(s, e), RequestFor(s, e).value, |s.log.read|); }
  }

  lemma LookupsMetStep(s: State, a: Action)
    requires Reports(s) && LookupsMet(s)
    ensures LookupsMet(Apply(s, a))
  {
    var t := Apply(s, a);
    if a.Newest? && s.worker.Looking? && a.id.Some? { assert Met(t, Request(s.worker.chatId, a.id.value)); }
    hide Apply, Reports, Met;
    LookupsGrow(s, a);
    forall i | 0 <= i < |s.log.lookups| && s.log.lookups[i].answer.Some?
      ensures Met(t, Request(s.log.lookups[i].chatId, s.log.lookups[i].answer.value))
    {
      MetStays(s, a, Request(s.log.lookups[i].chatId, s.log.lookups[i].answer.value));
    }
  }

  lemma {:induction false} LookupsMetRun(acts: seq<Action>)
    ensures LookupsMet(Run(START, acts))
  {
    hide Reports, Apply;
    if acts != [] {
      ReportsRun(acts[..|acts| - 1]);
      LookupsMetRun(acts[..|acts| - 1]);
      LookupsMetStep(Run(START, acts[..|acts| - 1]), acts[|acts| - 1]);
    }
  }

  /**
   * When done closes, for every open that found room the newest message of its
   * chat was looked up, and the server agreed to an id not below the one found,
   * unless it refused exactly that request.
   */
  lemma OpensAreReported(acts: seq<Action>)
    requires Done(Run(START, acts))
    ensures var s := Run(START, acts);
            |s.log.lookups| == |s.log.asked|
            && forall i :: 0 <= i < |s.log.asked| ==>
                 s.log.lookups[i].chatId == s.log.asked[i]
                 && (s.log.lookups[i].answer.Some? ==>
                       s.log.lookups[i].answer.value <= Already(s, s.log.asked[i])
                       || Request(s.log.asked[i], s.log.lookups[i].answer.value) in s.log.refused)
  {
    NothingLeftBehind(acts);
    LookupsMetRun(acts);
  }

  /** What the worker makes of a request in its hand: it is reported exactly when it is above what the server knows. */
  lemma RequestReportedIff(s: State, r: Request)
    requires s.worker == Comparing(r)
    ensures var t := Apply(s, Compare);
            var known := if r.chatId in s.acknowledged then s.acknowledged[r.chatId] else 0;
            && (r.maxId > known ==> t.worker == Reporting(r))
            && (r.maxId <= known ==> t.worker == Selecting)
            && Apply(t, Report(true)).log.reported == (if r.maxId > known then s.log.reported + [r] else s.log.reported)
            && Apply(t, Report(false)).log.refused == (if r.maxId > known then s.log.refused + [r] else s.log.refused)
  {
  }

  /**
   * Opening a chat again is worth a report exactly when something newer than
   * what the server knows is found, and nothing is asked of it when nothing is.
   */
  lemma OpenReportedIff(s: State, c: int, id: int)
    requires s.worker == Looking(c)
    ensures Apply(s, Newest(None)).worker == Selecting
    ensures var t := Apply(Apply(Apply(s, Newest(Some(id))), Compare), Report(true));
            var known := if c in s.acknowledged then s.acknowledged[c] else 0;
            t.log.reported == if id > known then s.log.reported + [Request(c, id)] else s.log.reported
  {
  }

  /** An agreed request is remembered and its counter cleared next; a refused one changes neither. */
  lemma AgreementClears(s: State, r: Request)
    requires s.worker == Reporting(r)
    ensures var t := Apply(s, Report(true));
            t.acknowledged == s.acknowledged[r.chatId := r.maxId] && t.worker == Clearing(r.chatId)
            && Apply(t, Clear(true)).log.cleared == s.log.cleared + [Cleared(r.chatId, |s.log.reported| + 1)]
            && Apply(t, Clear(false)).log.cleared == s.log.cleared
            && Apply(t, Clear(true)).worker == Selecting && Apply(t, Clear(false)).worker == Selecting
    ensures var t := Apply(s, Report(false));
            t.acknowledged == s.acknowledged && t.log.cleared == s.log.cleared && t.worker == Selecting
  {
  }

  // ----- the two ways to break

  /**
   * An acknowledgement is displaced by one of another chat: chat 1 was
   * reported up to 9, message 10 arrives, the reader moves on to chat 2, and
   * nothing on its way to the worker speaks of chat 1 any more.
   */
  function DisplacingRun(): seq<Action> {
    [Read(ChatOpened(1)), TakeOpen, Newest(Some(9)), Compare, Report(true), Clear(true),
     Read(MessageReceived(1, 10, false, false)), Read(ChatOpened(2)), Read(MessageReceived(2, 20, false, false)), Send, Send]
  }

  function ReportedNine(): State {
    START.(openChat := 1, acknowledged := map[1 := 9],
           log := Log([ChatOpened(1)], [], [], [1], [Lookup(1, Some(9))], [Request(1, 9)], [], [Cleared(1, 1)]))
  }

  function TwentyInHand(): State {
    ReportedNine().(
      openChat := 2, opens := [Request(2, 0)], slot := Some(Ack(0, Request(1, 10))), producer := SlotWasFull(Ack(1, Request(2, 20))),
      log := Log([ChatOpened(1), MessageReceived(1, 10, false, false), ChatOpened(2), MessageReceived(2, 20, false, false)],
                 [1, 3], [Waiting, Waiting], [1, 2], [Lookup(1, Some(9))], [Request(1, 9)], [], [Cleared(1, 1)]))
  }

  lemma NineReports()
    ensures var acts := DisplacingRun();
            Apply(Apply(Apply(Apply(Apply(Apply(START, acts[0]), acts[1]), acts[2]), acts[3]), acts[4]), acts[5]) == ReportedNine()
  {
    hide Sends, Gives;
  }

  lemma TenWaits()
    ensures var acts := DisplacingRun();
            Apply(Apply(Apply(ReportedNine(), acts[6]), acts[7]), acts[8]) == TwentyInHand()
  {
    hide Sends;
  }

  /** The acknowledgement of message 10 is gone. */
  function TwentyWaits(): State {
    TwentyInHand().(slot := Some(Ack(1, Request(2, 20))), producer := Reading,
                    log := TwentyInHand().log.(fates := [DisplacedBy(1), Waiting]))
  }

  lemma TwentyDisplaces()
    ensures Apply(Apply(TwentyInHand(), Send), Send) == TwentyWaits()
  {
    hide Reads;
  }

  lemma DisplacedByAnotherChat()
    ensures var s := Run(START, DisplacingRun());
            s.log.fates == [DisplacedBy(1), Waiting] && s.slot == Some(Ack(1, Request(2, 20))) && s.opens == [Request(2, 0)]
            && s.log.reported == [Request(1, 9)] && s.worker == Selecting
  {
    hide Run, Apply;
    var acts := DisplacingRun();
    assert acts[..0] == [] && acts[..11] == acts;
    NineReports();
    TenWaits();
    TwentyDisplaces();
    RunNothing(START);
    RunTo(acts, 0); RunTo(acts, 1); RunTo(acts, 2); RunTo(acts, 3); RunTo(acts, 4); RunTo(acts, 5);
    RunTo(acts, 6); RunTo(acts, 7); RunTo(acts, 8); RunTo(acts, 9); RunTo(acts, 10);
  }

  /** Inside one chat: message 41 is read before message 40, whose acknowledgement displaces it; both goroutines return. */
  function FallingRun(): seq<Action> {
    [Read(ChatOpened(1)), TakeOpen, Newest(None),
     Read(MessageReceived(1, 41, false, false)), Read(MessageReceived(1, 40, false, false)), Send, Send,
     TakeAck, Compare, Report(true), Clear(true), Stop, Close, NoMoreOpens, NoMoreAcks, Leave]
  }

  function FortyInHand(): State {
    START.(openChat := 1, slot := Some(Ack(0, Request(1, 41))), producer := SlotWasFull(Ack(1, Request(1, 40))),
           log := Log([ChatOpened(1), MessageReceived(1, 41, false, false), MessageReceived(1, 40, false, false)],
                      [1, 2], [Waiting, Waiting], [1], [Lookup(1, None)], [], [], []))
  }

  /** The acknowledgement of 40 is in the slot, that of 41 is gone. */
  function FortyWaits(): State {
    FortyInHand().(slot := Some(Ack(1, Request(1, 40))), producer := Reading,
                   log := FortyInHand().log.(fates := [DisplacedBy(1), Waiting]))
  }

  function FortyReported(): State {
    FortyWaits().(slot := None, acknowledged := map[1 := 40],
                  log := FortyWaits().log.(fates := [DisplacedBy(1), Taken], reported := [Request(1, 40)], cleared := [Cleared(1, 1)]))
  }

  /** Chat 1 was opened, and nothing found in it. */
  function NothingFound(): State {
    START.(openChat := 1, log := Log([ChatOpened(1)], [], [], [1], [Lookup(1, None)], [], [], []))
  }

  lemma NothingFoundAfter()
    ensures var acts := FallingRun(); Apply(Apply(Apply(START, acts[0]), acts[1]), acts[2]) == NothingFound()
  {
    hide Sends, Gives;
  }

  lemma FortyReadAfter()
    ensures var acts := FallingRun(); Apply(Apply(NothingFound(), acts[3]), acts[4]) == FortyInHand()
  {
    hide Sends;
  }

  lemma FortyDisplaces()
    ensures Apply(Apply(FortyInHand(), Send), Send) == FortyWaits()
  {
    hide Reads;
  }

  lemma FortyReports()
    ensures var acts := FallingRun();
            Apply(Apply(Apply(Apply(FortyWaits(), acts[7]), acts[8]), acts[9]), acts[10]) == FortyReported()
  {
    hide Sends, Reads;
  }

  lemma BothReturn()
    ensures var acts := FallingRun();
            Apply(Apply(Apply(Apply(Apply(FortyReported(), acts[11]), acts[12]), acts[13]), acts[14]), acts[15])
            == FortyReported().(producer := Returned, worker := Exited,
                                opensClosed := true, acksClosed := true, opensDone := true, acksDone := true)
  {
    hide Sends, Reads;
  }

  lemma HigherIdNeverReported()
    ensures var s := Run(START, FallingRun());
            Done(s) && s.log.fates == [DisplacedBy(1), Taken] && s.log.reported == [Request(1, 40)] && s.acknowledged == map[1 := 40]
  {
    hide Run, Apply;
    var acts := FallingRun();
    assert acts[..0] == [] && acts[..16] == acts;
    NothingFoundAfter();
    FortyReadAfter();
    FortyDisplaces();
    FortyReports();
    BothReturn();
    RunNothing(START);
    RunTo(acts, 0); RunTo(acts, 1); RunTo(acts, 2); RunTo(acts, 3); RunTo(acts, 4); RunTo(acts, 5); RunTo(acts, 6); RunTo(acts, 7);
    RunTo(acts, 8); RunTo(acts, 9); RunTo(acts, 10); RunTo(acts, 11); RunTo(acts, 12); RunTo(acts, 13); RunTo(acts, 14); RunTo(acts, 15);
  }

  lemma RunNothing(s: State)
    ensures Run(s, []) == s
  {
  }

  lemma RunTo(acts: seq<Action>, n: nat)
    requires n < |acts|
    ensures Run(START, acts[..n + 1]) == Apply(Run(START, acts[..n]), acts[n])
  {
    hide Apply;
    assert acts[..n + 1][..n] == acts[..n];
  }
}
