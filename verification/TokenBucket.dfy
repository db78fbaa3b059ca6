/**
 * The token bucket (internal/core/sync/ratelimit.go). Times are nanoseconds,
 * levels and rates exact rationals; the sleep a refused call is told to make
 * is cut to whole nanoseconds, as in the source.
 */
module TokenBucket {

  const NANOS: real := 1000000000.0
  const MILLISECOND: int := 1000000

  datatype Level = Level(tokens: real, last: int)

  /** Tokens that accrue in d nanoseconds. */
  function Gain(rate: real, d: int): real { d as real * (rate / NANOS) }

  function Capped(x: real, capacity: real): real { if x > capacity then capacity else x }

  /** The level at a moment; a clock that stepped back adds nothing and moves nothing. */
  function Refilled(b: Level, rate: real, capacity: real, now: int): Level {
    if now > b.last then Level(Capped(b.tokens + Gain(rate, now - b.last), capacity), now) else b
  }

  /** What overflowed at that moment. */
  function Spilled(b: Level, rate: real, capacity: real, now: int): real {
    if now > b.last then b.tokens + Gain(rate, now - b.last) - Capped(b.tokens + Gain(rate, now - b.last), capacity) else 0.0
  }

  predicate Grants(b: Level, rate: real, capacity: real, now: int) { Refilled(b, rate, capacity, now).tokens >= 1.0 }

  function Taken(b: Level, rate: real, capacity: real, now: int): Level {
    var r := Refilled(b, rate, capacity, now);
    if r.tokens >= 1.0 then r.(tokens := r.tokens - 1.0) else r
  }

  /** How long a call is told to sleep when that much of a token is missing. */
  function Sleep(missing: real, rate: real): int
    requires rate > 0.0
  {
    var ns := (missing / (rate / NANOS)).Floor;
    if ns <= 0 then MILLISECOND else ns
  }

  predicate Within(b: Level, capacity: real) { 0.0 <= b.tokens <= capacity }

  /**
   * A call is granted exactly when what was left, with what accrued since,
   * makes a token; accruing stops at the capacity and at a clock that stands
   * still or steps back; a grant takes one token and a refusal none.
   */
  lemma GrantedIff(b: Level, rate: real, capacity: real, now: int)
    ensures var full := if now > b.last then b.tokens + (now - b.last) as real * (rate / 1000000000.0) else b.tokens;
            var level := if now > b.last && full > capacity then capacity else full;
            (Grants(b, rate, capacity, now) <==> level >= 1.0)
            && Taken(b, rate, capacity, now) == Level(if level >= 1.0 then level - 1.0 else level, if now > b.last then now else b.last)
            && Spilled(b, rate, capacity, now) == full - level
  {
  }

  // ----- any number of calls, at any times

  datatype History = History(level: Level, grants: nat, spilled: real)

  function Calls(b: Level, rate: real, capacity: real, times: seq<int>): History
    decreases |times|
  {
    if times == [] then History(b, 0, 0.0)
    else
      var n := |times| - 1;
      var h := Calls(b, rate, capacity, times[..n]);
      History(Taken(h.level, rate, capacity, times[n]),
        h.grants + (if Grants(h.level, rate, capacity, times[n]) then 1 else 0),
        h.spilled + Spilled(h.level, rate, capacity, times[n]))
  }

  function Max(a: int, b: int): int { if a >= b then a else b }

  /** The furthest the clock was ever seen to be. */
  function RunningMax(last: int, times: seq<int>): int {
    if times == [] then last else Max(RunningMax(last, times[..|times| - 1]), times[|times| - 1])
  }

  lemma GainGrows(rate: real, d: int)
    requires rate > 0.0 && d > 0
    ensures Gain(rate, d) > 0.0
  {
    Positive(d as real, rate / NANOS);
  }

  lemma Positive(x: real, y: real)
    requires x > 0.0 && y > 0.0
    ensures x * y > 0.0
  {
  }

  lemma GainAdds(rate: real, a: int, b: int)
    ensures Gain(rate, a) + Gain(rate, b) == Gain(rate, a + b)
  {
    var r := rate / NANOS;
    assert a as real * r + b as real * r == (a as real + b as real) * r;
  }

  /**
   * Nothing is made up and nothing is lost: what was granted, what is left and
   * what overflowed is what there was plus what accrued on the running maximum
   * of the clock, however it jumps.
   */
  lemma {:induction false} Conservation(b: Level, rate: real, capacity: real, times: seq<int>)
    requires rate > 0.0 && capacity >= 1.0 && Within(b, capacity)
    ensures var h := Calls(b, rate, capacity, times);
            Within(h.level, capacity) && h.spilled >= 0.0 && h.level.last == RunningMax(b.last, times) >= b.last
            && h.grants as real + h.level.tokens + h.spilled == b.tokens + Gain(rate, h.level.last - b.last)
    decreases |times|
  {
    if times == [] {
      assert Gain(rate, 0) == 0.0;
    } else {
      var n := |times| - 1;
      Conservation(b, rate, capacity, times[..n]);
      var h := Calls(b, rate, capacity, times[..n]);
      if times[n] > h.level.last {
        GainGrows(rate, times[n] - h.level.last);
        GainAdds(rate, h.level.last - b.last, times[n] - h.level.last);
      }
    }
  }

  /**
   * Between any two calls of a history at most capacity plus rate times the
   * advance of the clock are granted.
   */
  lemma WindowBound(b: Level, rate: real, capacity: real, before: seq<int>, window: seq<int>)
    requires rate > 0.0 && capacity >= 1.0 && Within(b, capacity)
    ensures var start := Calls(b, rate, capacity, before).level;
            Calls(start, rate, capacity, window).grants as real
            <= capacity + Gain(rate, RunningMax(start.last, window) - start.last)
  {
    Conservation(b, rate, capacity, before);
    Conservation(Calls(b, rate, capacity, before).level, rate, capacity, window);
  }

  // ----- one caller waiting

  /** The sleep is the longest in whole nanoseconds that is not too long, or a millisecond if that is none. */
  lemma SleepIs(missing: real, rate: real, ns: nat)
    requires rate > 0.0 && missing > 0.0
    requires ns as real * (rate / 1000000000.0) <= missing < (ns + 1) as real * (rate / 1000000000.0)
    ensures Sleep(missing, rate) == if ns == 0 then 1000000 else ns
  {
    var r := rate / NANOS;
    var q := missing / r;
    assert q * r == missing;
    QuotientBetween(missing, r, q, ns as real, (ns + 1) as real);
  }

  lemma QuotientBetween(m: real, r: real, q: real, low: real, high: real)
    requires r > 0.0 && q * r == m && low * r <= m < high * r
    ensures low <= q < high
  {
    if q < low { Below(q, low, r); }
    if high <= q { AtMost(high, q, r); }
  }

  /** The cut to whole nanoseconds costs less than one nanosecond's worth of tokens. */
  lemma SleepCovers(missing: real, rate: real)
    requires rate > 0.0 && 0.0 < missing <= 1.0
    ensures Sleep(missing, rate) > 0
    ensures missing - Gain(rate, Sleep(missing, rate)) < rate / NANOS
    ensures missing < rate / NANOS ==> missing <= Gain(rate, Sleep(missing, rate))
  {
    var r := rate / NANOS;
    var q := missing / r;
    assert q * r == missing;
    var ns := q.Floor;
    if ns <= 0 {
      assert q < 1.0;
      Below(q, 1.0, r);
      Below(1.0, MILLISECOND as real, r);
    } else {
      assert q - ns as real < 1.0;
      Below(q - ns as real, 1.0, r);
      assert (q - ns as real) * r == q * r - ns as real * r;
      if missing < r { Quotient(missing, r); }
    }
  }

  lemma Below(x: real, y: real, r: real)
    requires x < y && r > 0.0
    ensures x * r < y * r
  {
  }

  lemma Quotient(m: real, r: real)
    requires 0.0 < m < r
    ensures (m / r).Floor == 0
  {
    var q := m / r;
    Divides(m, r, q);
  }

  lemma Divides(m: real, r: real, q: real)
    requires 0.0 < m < r && q * r == m
    ensures 0.0 < q < 1.0
  {
    if q <= 0.0 { AtMost(q, 0.0, r); }
    if q >= 1.0 { AtMost(1.0, q, r); }
  }

  lemma AtMost(x: real, y: real, r: real)
    requires x <= y && r > 0.0
    ensures x * r <= y * r
  {
  }

  class TokenBucket {
    const rate: real
    const capacity: real
    var tokens: real
    var last: int

    ghost predicate Valid()
      reads this
    {
      rate > 0.0 && capacity >= 1.0 && Within(Now(), capacity)
    }

    ghost function Now(): Level
      reads this
    {
      Level(tokens, last)
    }

    constructor (rate: real, capacity: int, now: int)
      requires rate > 0.0 && capacity > 0
      ensures Valid() && this.rate == rate && this.capacity == capacity as real && Now() == Level(capacity as real, now)
    {
      this.rate, this.capacity := rate, capacity as real;
      tokens, last := capacity as real, now;
    }

    method Take(now: int) returns (wait: int, ok: bool)
      requires Valid()
      modifies this
      ensures Valid()
      ensures Now() == Taken(old(Now()), rate, capacity, now) && ok == Grants(old(Now()), rate, capacity, now)
      ensures ok ==> wait == 0
      ensures !ok ==> tokens < 1.0 && wait == Sleep(1.0 - tokens, rate) && wait > 0
    {
      var elapsed := now - last;
      if elapsed > 0 {
        GainGrows(rate, elapsed);
        tokens := tokens + elapsed as real * (rate / NANOS);
        if tokens > capacity { tokens := capacity; }
        last := now;
      }
      if tokens >= 1.0 {
        tokens := tokens - 1.0;
        return 0, true;
      }
      var missing := 1.0 - tokens;
      wait := (missing / (rate / NANOS)).Floor;
      if wait <= 0 { wait := MILLISECOND; }
      return wait, false;
    }

    /**
     * One caller alone: each timer fires no earlier than it was set for, and
     * late by late[k]. Its context may end during a sleep. Whatever the rate,
     * it gets its token by its third try, unless it was cancelled.
     */
    method Wait(now: int, late: nat -> nat, cancelAt: nat) returns (ok: bool, takes: nat)
      requires Valid() && now >= last
      modifies this
      ensures Valid()
      ensures 1 <= takes <= 3
      ensures ok || takes == cancelAt
      ensures takes == 1 ==> ok == Grants(old(Now()), rate, capacity, now) || cancelAt == 1
    {
      var clock := now;
      takes := 0;
      while true
        invariant Valid() && takes <= 2
        invariant takes == 0 ==> Now() == old(Now()) && clock == now
        invariant takes > 0 ==> Ripens(Now(), rate, clock, takes == 2)
        invariant last <= clock
        decreases 3 - takes
      {
        if takes > 0 { Ripe(Now(), rate, capacity, clock, takes == 2); }
        var wait;
        wait, ok := Take(clock);
        takes := takes + 1;
        if ok { return; }
        if takes == cancelAt { return; }
        SleepCovers(1.0 - tokens, rate);
        GainGrows(rate, wait);
        GainGrowsWith(rate, wait, wait + late(takes));
        clock := clock + wait + late(takes);
      }
    }
  }

  lemma GainGrowsWith(rate: real, a: int, b: int)
    requires rate > 0.0 && a <= b
    ensures Gain(rate, a) <= Gain(rate, b)
  {
    GainAdds(rate, a, b - a);
    if b > a { GainGrows(rate, b - a); }
  }

  /** At that moment all but a nanosecond's worth of a token will be there, or all of it. */
  predicate Ripens(b: Level, rate: real, clock: int, whole: bool) {
    clock > b.last
    && b.tokens + Gain(rate, clock - b.last) > 1.0 - rate / NANOS
    && (whole ==> b.tokens + Gain(rate, clock - b.last) >= 1.0)
  }

  lemma Ripe(b: Level, rate: real, capacity: real, clock: int, whole: bool)
    requires rate > 0.0 && capacity >= 1.0 && Ripens(b, rate, clock, whole)
    ensures whole ==> Grants(b, rate, capacity, clock)
    ensures !Grants(b, rate, capacity, clock) ==> 1.0 - Refilled(b, rate, capacity, clock).tokens < rate / NANOS
  {
  }

  /** Three tries do happen: at three tokens a second the first sleep is a third of a nanosecond short. */
  lemma ThirdTryNeeded()
    ensures var b := Level(0.0, 0);
            !Grants(b, 3.0, 1.0, 0) && Sleep(1.0, 3.0) == 333333333
            && !Grants(b, 3.0, 1.0, 333333333)
  {
    assert 1.0 / (3.0 / NANOS) == NANOS / 3.0;
    assert Gain(3.0, 333333333) == 333333333.0 * (3.0 / NANOS);
  }
}
