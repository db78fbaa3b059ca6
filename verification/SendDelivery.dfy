/**
 * Delivery of one outgoing message against an arbitrary script of sender
 * outcomes (internal/core/sync/send.go): retries, pauses, and what is stored
 * and published. Durations are nanoseconds.
 */
module SendDelivery {

  datatype Answer = Accepted(serverId: int) | FloodWait(retryAfter: int) | Invalid(reason: string) | Cancelled | Transient

  /**
   * One turn of the delivery loop: whether the limiter gave a token, what the
   * sender answered, whether the pause ran to its end, the jitter drawn for
   * it, and whether a state update reaches the store.
   */
  datatype Round = Round(token: bool, answer: Answer, sleeps: bool, jitter: real, updates: bool)

  type Script = nat -> Round

  datatype Stage = Pending | Sent(serverId: int) | Failed

  datatype Event = Event(localId: string, chatId: int, stage: Stage)

  datatype Pause = FloodPause(wait: int) | Backoff(base: int, wait: int)

  const SECOND := 1000000000

  function NextBackoff(d: int, maxWait: int): int { if d * 2 > maxWait then maxWait else d * 2 }

  /** Truncation toward zero. */
  function Trunc(x: real): int { if x >= 0.0 then x.Floor else 0 - (0.0 - x).Floor }

  function JitterDuration(d: int, j: real): int {
    if d <= 0 then 0 else d + Trunc(d as real * (1.0 / 10.0) * (j * 2.0 - 1.0))
  }

  /** The attempt with this number ends the delivery. */
  predicate EndsDelivery(r: Round, attempt: nat, maxRetries: nat) {
    !r.token ||
    match r.answer
    case Accepted(_) => true
    case FloodWait(_) => !r.sleeps
    case Invalid(_) => true
    case Cancelled => true
    case Transient => attempt >= maxRetries || !r.sleeps
  }

  /** The delivery ends with attempt k, the first one that can end it. */
  ghost predicate LastAttempt(script: Script, maxRetries: nat, k: nat) {
    EndsDelivery(script(k), k, maxRetries) && forall j: nat :: j < k ==> !EndsDelivery(script(j), j, maxRetries)
  }

  function FinalStage(r: Round): Stage {
    if r.token && r.answer.Accepted? then Sent(r.answer.serverId) else Failed
  }

  /** Transient failures among the first k answers. */
  function Transients(script: Script, k: nat): (n: nat)
    ensures n <= k
  {
    if k == 0 then 0 else Transients(script, k - 1) + if script(k - 1).answer == Transient then 1 else 0
  }

  function Floods(script: Script, k: nat): (n: nat)
    ensures n <= k
  {
    if k == 0 then 0 else Floods(script, k - 1) + if script(k - 1).answer.FloodWait? then 1 else 0
  }

  /** The unjittered wait before retry number m. */
  function BackoffAt(initial: int, cap: int, m: nat): int {
    if m == 0 then initial else NextBackoff(BackoffAt(initial, cap, m - 1), cap)
  }

  /** The pauses after the first k attempts of a delivery that goes on. */
  function Pauses(script: Script, initial: int, cap: int, k: nat): seq<Pause> {
    if k == 0 then []
    else
      var r := script(k - 1);
      var base := BackoffAt(initial, cap, Transients(script, k - 1));
      Pauses(script, initial, cap, k - 1) +
      match r.answer
      case FloodWait(d) => [FloodPause(if d <= 0 then SECOND else d)]
      case _ => [Backoff(base, JitterDuration(base, r.jitter))]
  }

  /** A delivery has one last attempt. */
  lemma LastAttemptIsUnique(script: Script, maxRetries: nat, j: nat, k: nat)
    requires LastAttempt(script, maxRetries, j) && LastAttempt(script, maxRetries, k)
    ensures j == k
  {
  }

  class SendService {
    const maxRetries: nat
    const initialBackoff: int
    const backoffCap: int
    var store: map<string, Stage>
    var events: seq<Event>

    constructor (maxRetries: int, initialBackoff: int, backoffCap: int)
      ensures this.maxRetries == (if maxRetries <= 0 then 3 else maxRetries)
      ensures this.initialBackoff == (if initialBackoff <= 0 then 500000000 else initialBackoff)
      ensures this.backoffCap == (if backoffCap <= 0 then 8000000000 else backoffCap)
      ensures this.initialBackoff > 0 && this.backoffCap > 0 && store == map[] && events == []
    {
      this.maxRetries := if maxRetries <= 0 then 3 else maxRetries;
      this.initialBackoff := if initialBackoff <= 0 then SECOND / 2 else initialBackoff;
      this.backoffCap := if backoffCap <= 0 then 8 * SECOND else backoffCap;
      store, events := map[], [];
    }

    /** Writes the transition if the store takes it, and publishes it either way. */
    method Mark(localId: string, chatId: int, stage: Stage, updates: bool)
      modifies this
      ensures store == if updates then old(store)[localId := stage] else old(store)
      ensures events == old(events) + [Event(localId, chatId, stage)]
    {
      if updates { store := store[localId := stage]; }
      events := events + [Event(localId, chatId, stage)];
    }

    /**
     * The retry loop. It ends for every script with finitely many FLOOD_WAITs,
     * at the first attempt that can end it, with one event.
     */
    method Deliver(localId: string, chatId: int, script: Script, ghost floodsEnd: nat) returns (calls: nat, pauses: seq<Pause>)
      requires forall k: nat :: k >= floodsEnd ==> !script(k).answer.FloodWait?
      modifies this
      ensures calls > 0 && LastAttempt(script, maxRetries, calls - 1)
      ensures pauses == Pauses(script, initialBackoff, backoffCap, calls - 1)
      ensures var r := script(calls - 1);
              events == old(events) + [Event(localId, chatId, FinalStage(r))]
              && store == if r.updates then old(store)[localId := FinalStage(r)] else old(store)
    {
      var backoff := initialBackoff;
      var attempt := 0;
      pauses := [];
      while true
        invariant events == old(events) && store == old(store)
        invariant forall j: nat :: j < attempt ==> !EndsDelivery(script(j), j, maxRetries)
        invariant backoff == BackoffAt(initialBackoff, backoffCap, Transients(script, attempt))
        invariant pauses == Pauses(script, initialBackoff, backoffCap, attempt)
        invariant attempt > floodsEnd ==> attempt <= maxRetries + 1
        decreases floodsEnd + maxRetries + 2 - attempt
      {
        var r := script(attempt);
        calls := attempt + 1;
        if !r.token {
          Mark(localId, chatId, Failed, r.updates);
          return;
        }
        match r.answer {
          case Accepted(serverId) =>
            Mark(localId, chatId, Sent(serverId), r.updates);
            return;
          case FloodWait(retryAfter) =>
            var d := retryAfter;
            if d <= 0 { d := SECOND; }
            if !r.sleeps {
              Mark(localId, chatId, Failed, r.updates);
              return;
            }
            pauses := pauses + [FloodPause(d)];
          case Invalid(_) =>
            Mark(localId, chatId, Failed, r.updates);
            return;
          case Cancelled =>
            Mark(localId, chatId, Failed, r.updates);
            return;
          case Transient =>
            if attempt >= maxRetries || !r.sleeps {
              Mark(localId, chatId, Failed, r.updates);
              return;
            }
            pauses := pauses + [Backoff(backoff, JitterDuration(backoff, r.jitter))];
            backoff := NextBackoff(backoff, backoffCap);
        }
        attempt := attempt + 1;
      }
    }

    /** A message that could be saved gets one pending event and then exactly one final one, of its only last attempt. */
    method SendText(localId: string, chatId: int, text: string, saves: bool, script: Script, ghost floodsEnd: nat) returns (ok: bool)
      requires forall k: nat :: k >= floodsEnd ==> !script(k).answer.FloodWait?
      modifies this
      ensures ok == (chatId != 0 && text != "" && saves)
      ensures !ok ==> events == old(events) && store == old(store)
      ensures ok ==> exists k: nat :: LastAttempt(script, maxRetries, k)
      ensures ok ==>
                (forall k: nat ::
                  LastAttempt(script, maxRetries, k) ==>
                  events == old(events) + [Event(localId, chatId, Pending), Event(localId, chatId, FinalStage(script(k)))]
                  && store == old(store)[localId := if script(k).updates then FinalStage(script(k)) else Pending])
    {
      if chatId == 0 || text == "" { return false; }
      if !saves { return false; }
      store := store[localId := Pending];
      events := events + [Event(localId, chatId, Pending)];
      var calls, pauses := Deliver(localId, chatId, script, floodsEnd);
      forall k: nat | LastAttempt(script, maxRetries, k) ensures k == calls - 1 {
        LastAttemptIsUnique(script, maxRetries, k, calls - 1);
      }
      ok := true;
    }
  }

  // ----- what the loop does

  /** A delivery goes on after a FLOOD_WAIT, whatever the budget, and after a transient failure within it, and after nothing else. */
  lemma GoesOnIff(r: Round, attempt: nat, maxRetries: nat)
    ensures !EndsDelivery(r, attempt, maxRetries)
            <==> r.token && r.sleeps && (r.answer.FloodWait? || (r.answer.Transient? && attempt < maxRetries))
  {
  }

  /**
   * A delivery fails exactly when its last attempt had no token, was refused
   * for good or cancelled, was cut short in its pause, or was the transient
   * failure that found the budget spent.
   */
  lemma FailsIff(script: Script, maxRetries: nat, k: nat)
    requires LastAttempt(script, maxRetries, k)
    ensures FinalStage(script(k)) == Failed
            <==> || !script(k).token || script(k).answer.Invalid? || script(k).answer.Cancelled?
                 || ((script(k).answer.FloodWait? || script(k).answer.Transient?) && !script(k).sleeps)
                 || (script(k).answer.Transient? && k >= maxRetries)
    ensures forall j: nat :: j < k ==>
              script(j).token && script(j).sleeps
              && (script(j).answer.FloodWait? || (script(j).answer.Transient? && j < maxRetries))
  {
    forall j: nat | j < k
      ensures script(j).token && script(j).sleeps
              && (script(j).answer.FloodWait? || (script(j).answer.Transient? && j < maxRetries))
    {
      assert !EndsDelivery(script(j), j, maxRetries);
    }
  }

  /**
   * "Sent" under a server's id is published exactly when some call of the
   * delivery was accepted under that id; no call follows one that was, and
   * every attempt before the last had its token and slept its pause out.
   */
  lemma SentMeansAccepted(script: Script, maxRetries: nat, k: nat, serverId: int)
    requires LastAttempt(script, maxRetries, k)
    ensures FinalStage(script(k)) == Sent(serverId) <==>
              exists j: nat :: j <= k && script(j).token && script(j).answer == Accepted(serverId)
    ensures forall j: nat :: j < k ==> !script(j).answer.Accepted? && script(j).token && script(j).sleeps
  {
    forall j: nat | j < k ensures !script(j).answer.Accepted? && script(j).token && script(j).sleeps {
      assert !EndsDelivery(script(j), j, maxRetries);
    }
  }

  /** Every attempt that is not the last is a FLOOD_WAIT or a transient failure. */
  lemma {:induction false} AttemptsAdd(script: Script, maxRetries: nat, k: nat, n: nat)
    requires forall j: nat :: j < k ==> !EndsDelivery(script(j), j, maxRetries)
    requires n <= k
    ensures Transients(script, n) + Floods(script, n) == n
  {
    if n > 0 {
      assert !EndsDelivery(script(n - 1), n - 1, maxRetries);
      AttemptsAdd(script, maxRetries, k, n - 1);
    }
  }

  /** Past the budget only FLOOD_WAITs keep a delivery alive. */
  lemma {:induction false} NoRetryPastBudget(script: Script, maxRetries: nat, k: nat, n: nat)
    requires forall j: nat :: j < k ==> !EndsDelivery(script(j), j, maxRetries)
    requires maxRetries <= n <= k
    ensures Transients(script, n) == Transients(script, maxRetries)
  {
    if n > maxRetries {
      assert !EndsDelivery(script(n - 1), n - 1, maxRetries);
      NoRetryPastBudget(script, maxRetries, k, n - 1);
    }
  }

  /**
   * Transient retries never exceed the budget. A delivery that gives up on a
   * transient failure had the whole budget exactly when no FLOOD_WAIT was
   * among the first maxRetries answers: each one there costs a retry.
   */
  lemma RetriesSpent(script: Script, maxRetries: nat, k: nat)
    requires LastAttempt(script, maxRetries, k)
    ensures Transients(script, k) <= maxRetries
    ensures k >= maxRetries ==> Transients(script, k) == maxRetries - Floods(script, maxRetries)
    ensures k >= maxRetries ==> (Transients(script, k) == maxRetries <==> forall j: nat :: j < maxRetries ==> !script(j).answer.FloodWait?)
  {
    if k >= maxRetries {
      NoRetryPastBudget(script, maxRetries, k, k);
      AttemptsAdd(script, maxRetries, k, maxRetries);
      NoFloodsIff(script, maxRetries);
    }
  }

  lemma {:induction false} NoFloodsIff(script: Script, n: nat)
    ensures Floods(script, n) == 0 <==> forall j: nat :: j < n ==> !script(j).answer.FloodWait?
  {
    if n > 0 { NoFloodsIff(script, n - 1); }
  }

  /** Three FLOOD_WAITs use up a budget of three: the first transient failure after them is final. */
  lemma FloodsSpendTheBudget()
    ensures var script := (k: nat) => Round(true, if k < 3 then FloodWait(SECOND) else Transient, true, 0.0, true);
            LastAttempt(script, 3, 3) && Transients(script, 3) == 0 && FinalStage(script(3)) == Failed
  {
    var script := (k: nat) => Round(true, if k < 3 then FloodWait(SECOND) else Transient, true, 0.0, true);
    assert Transients(script, 1) == 0 && Transients(script, 2) == 0;
  }

  /** A sender that answers FLOOD_WAIT for ever is called for ever. */
  lemma EndlessFloods(script: Script, maxRetries: nat, k: nat)
    requires forall j: nat :: script(j).token && script(j).sleeps && script(j).answer.FloodWait?
    ensures !LastAttempt(script, maxRetries, k)
  {
    assert script(k).answer.FloodWait?;
  }

  /** How many calls there are at most once the FLOOD_WAITs are over. */
  lemma CallsBounded(script: Script, maxRetries: nat, k: nat, floodsEnd: nat)
    requires LastAttempt(script, maxRetries, k)
    requires forall j: nat :: j >= floodsEnd ==> !script(j).answer.FloodWait?
    ensures k <= if floodsEnd > maxRetries then floodsEnd else maxRetries
  {
    if k > floodsEnd && k > maxRetries {
      assert EndsDelivery(script(k - 1), k - 1, maxRetries);
    }
  }

  // ----- the pauses

  function Power2(m: nat): (p: nat)
    ensures p > 0
  {
    if m == 0 then 1 else 2 * Power2(m - 1)
  }

  /** From the second retry on, the unjittered wait is the doubled start, cut at the cap. */
  lemma {:induction false} BackoffClosedForm(initial: int, cap: int, m: nat)
    requires initial > 0 && cap > 0 && m > 0
    ensures BackoffAt(initial, cap, m) == if initial * Power2(m) > cap then cap else initial * Power2(m)
    ensures 0 < BackoffAt(initial, cap, m) <= cap
  {
    assert initial * Power2(m) == 2 * (initial * Power2(m - 1));
    if m > 1 {
      BackoffClosedForm(initial, cap, m - 1);
    } else {
      assert Power2(0) == 1 && BackoffAt(initial, cap, 0) == initial;
    }
    assert initial * Power2(m) > 0;
  }

  /** Jitter moves a wait by a tenth at most. */
  lemma JitterWithin(d: int, j: real)
    requires d > 0 && 0.0 <= j < 1.0
    ensures 9 * d <= 10 * JitterDuration(d, j) <= 11 * d
  {
    var u := j * 2.0 - 1.0;
    var x := d as real * (1.0 / 10.0);
    assert -1.0 <= u <= 1.0;
    Scaled(x, u);
    TruncWithin(x * u, d);
  }

  lemma TruncWithin(y: real, d: int)
    requires 0.0 - d as real / 10.0 <= y <= d as real / 10.0
    ensures 0 - d <= 10 * Trunc(y) <= d
  {
  }

  /** The middle of the jitter changes nothing, the low end takes a tenth off, and truncation costs less than a nanosecond. */
  lemma JitterEnds(d: int, j: real)
    requires d > 0 && 0.0 <= j < 1.0
    ensures JitterDuration(d, 0.5) == d
    ensures 10 * JitterDuration(d, 0.0) == 9 * d + d % 10
    ensures var exact := d as real * (0.9 + 0.2 * j);
            if j >= 0.5 then exact - 1.0 < JitterDuration(d, j) as real <= exact
            else exact <= JitterDuration(d, j) as real < exact + 1.0
  {
    var x := d as real * (1.0 / 10.0);
    assert x * (0.0 * 2.0 - 1.0) == 0.0 - x;
    assert d as real * (0.9 + 0.2 * j) == d as real + x * (j * 2.0 - 1.0);
    Scaled(x, j * 2.0 - 1.0);
    if j >= 0.5 { Signs(x, j * 2.0 - 1.0); } else { Signs(x, 1.0 - j * 2.0); }
    TenthFloor(d);
  }

  lemma Signs(x: real, u: real)
    requires x > 0.0 && u >= 0.0
    ensures x * u >= 0.0
  {
  }

  lemma TenthFloor(d: int)
    requires d > 0
    ensures (d as real * (1.0 / 10.0)).Floor * 10 == d - d % 10
  {
    var q := d / 10;
    assert d as real * (1.0 / 10.0) == q as real + (d % 10) as real / 10.0;
  }

  /**
   * The i-th pause: as long as the server asked, or a second if it asked for
   * nothing; after a transient failure the start doubled once for every such
   * failure before it, cut at the cap from the second on, and jittered.
   */
  lemma {:induction false} PauseIs(script: Script, initial: int, cap: int, k: nat, i: nat)
    requires initial > 0 && cap > 0 && i < k && 0.0 <= script(i).jitter < 1.0
    ensures |Pauses(script, initial, cap, k)| == k
    ensures var m := Transients(script, i);
            var base := if m == 0 then initial else if initial * Power2(m) > cap then cap else initial * Power2(m);
            match script(i).answer
            case FloodWait(d) => Pauses(script, initial, cap, k)[i] == FloodPause(if d <= 0 then 1000000000 else d)
            case _ =>
              var wait := JitterDuration(base, script(i).jitter);
              Pauses(script, initial, cap, k)[i] == Backoff(base, wait) && 9 * base <= 10 * wait <= 11 * base
  {
    hide JitterDuration, Power2;
    PausesLength(script, initial, cap, k - 1);
    if i < k - 1 {
      PauseIs(script, initial, cap, k - 1, i);
    } else {
      var m := Transients(script, i);
      if m > 0 { BackoffClosedForm(initial, cap, m); }
      JitterWithin(BackoffAt(initial, cap, m), script(i).jitter);
    }
  }

  lemma {:induction false} PausesLength(script: Script, initial: int, cap: int, k: nat)
    ensures |Pauses(script, initial, cap, k)| == k
  {
    if k > 0 { PausesLength(script, initial, cap, k - 1); }
  }

  /** No pause of a delivery is empty, so the loop never spins: a FLOOD_WAIT of nothing still waits a second. */
  lemma {:induction false} NeverSpins(script: Script, initial: int, cap: int, k: nat)
    requires initial > 0 && cap > 0 && forall j: nat :: 0.0 <= script(j).jitter < 1.0
    ensures forall i :: 0 <= i < |Pauses(script, initial, cap, k)| ==> Pauses(script, initial, cap, k)[i].wait > 0
    ensures |Pauses(script, initial, cap, k)| == k
    ensures forall i: nat :: i < k && script(i).answer.FloodWait? && script(i).answer.retryAfter > 0 ==>
              Pauses(script, initial, cap, k)[i] == FloodPause(script(i).answer.retryAfter)
  {
    hide JitterDuration;
    if k > 0 {
      NeverSpins(script, initial, cap, k - 1);
      var m := Transients(script, k - 1);
      if m > 0 { BackoffClosedForm(initial, cap, m); }
      JitterWithin(BackoffAt(initial, cap, m), script(k - 1).jitter);
    }
  }

  lemma Scaled(x: real, u: real)
    requires x > 0.0 && -1.0 <= u <= 1.0
    ensures 0.0 - x <= x * u <= x
  {
    assert x * (1.0 - u) >= 0.0;
    assert x * (1.0 + u) >= 0.0;
  }
}
