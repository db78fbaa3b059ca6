/** The download progress throttle (internal/core/files/progress.go). */
module Progress {

  const STEP: int := 0x100000
  const PERCENT: int := 5

  /** What was last reported for a file. */
  datatype Reported = Reported(bytes: int, pct: int)

  const NOTHING := Reported(0, 0)

  function Pct(bytes: int, total: int): int
    requires total > 0
  {
    bytes * 100 / total
  }

  /** Why a tick is reported: the first one, a whole step of bytes, or enough percent. */
  datatype Reason = First | Bytes | Percent | Silent

  function ReasonFor(st: Reported, bytes: int, total: int): Reason {
    if st.bytes == 0 && bytes > 0 then First
    else if bytes - st.bytes >= STEP then Bytes
    else if total > 0 && Pct(bytes, total) - st.pct >= PERCENT then Percent
    else Silent
  }

  function After(st: Reported, bytes: int, total: int): Reported {
    if ReasonFor(st, bytes, total) == Silent then st
    else Reported(bytes, if total > 0 then Pct(bytes, total) else st.pct)
  }

  class ProgressThrottler {
    var states: map<int, Reported>

    constructor ()
      ensures states == map[]
    {
      states := map[];
    }

    method Reset(fileId: int)
      modifies this
      ensures states == old(states)[fileId := NOTHING]
    {
      states := states[fileId := NOTHING];
    }

    method Release(fileId: int)
      modifies this
      ensures states == old(states) - {fileId}
    {
      states := states - {fileId};
    }

    method ShouldEmit(fileId: int, bytes: int, total: int) returns (emit: bool)
      modifies this
      ensures var st := if fileId in old(states) then old(states)[fileId] else NOTHING;
              emit == (ReasonFor(st, bytes, total) != Silent)
              && states == old(states)[fileId := After(st, bytes, total)]
    {
      var st := NOTHING;
      if fileId in states { st := states[fileId]; } else { states := states[fileId := st]; }
      if st.bytes == 0 && bytes > 0 {
        st := Reported(bytes, if total > 0 then Pct(bytes, total) else st.pct);
        states := states[fileId := st];
        return true;
      }
      if bytes - st.bytes >= STEP {
        st := Reported(bytes, if total > 0 then Pct(bytes, total) else st.pct);
        states := states[fileId := st];
        return true;
      }
      if total > 0 {
        var pct := Pct(bytes, total);
        if pct - st.pct >= PERCENT {
          states := states[fileId := Reported(bytes, pct)];
          return true;
        }
      }
      return false;
    }
  }

  /**
   * A tick is reported exactly when it is the first with bytes, a MiB past the
   * last report, or five points past it; a report is remembered with its
   * percentage if the total is known, and a silent tick changes nothing.
   */
  lemma ReportedIff(st: Reported, bytes: int, total: int)
    ensures ReasonFor(st, bytes, total) != Silent
            <==> || (st.bytes == 0 && bytes > 0) || bytes - st.bytes >= 1048576
                 || (total > 0 && bytes * 100 / total - st.pct >= 5)
    ensures After(st, bytes, total)
            == if ReasonFor(st, bytes, total) == Silent then st
               else Reported(bytes, if total > 0 then bytes * 100 / total else st.pct)
  {
  }

  // ----- a whole download

  /** Byte counts that never go down and end at most at the total. */
  predicate Stream(counts: seq<int>, total: int) {
    && (forall i, j :: 0 <= i < j < |counts| ==> counts[i] <= counts[j])
    && (forall i :: 0 <= i < |counts| ==> 0 <= counts[i] <= total)
  }

  function Final(counts: seq<int>, total: int): Reported {
    if counts == [] then NOTHING else After(Final(counts[..|counts| - 1], total), counts[|counts| - 1], total)
  }

  /** How many of the ticks were reported for a given reason. */
  function Count(counts: seq<int>, total: int, why: Reason): nat {
    if counts == [] then 0
    else
      var n := |counts| - 1;
      Count(counts[..n], total, why) + if ReasonFor(Final(counts[..n], total), counts[n], total) == why then 1 else 0
  }

  lemma PctGrows(a: int, b: int, total: int)
    requires 0 <= a <= b <= total && total > 0
    ensures 0 <= Pct(a, total) <= Pct(b, total) <= 100
  {
    Division(a * 100, b * 100, total);
    Division(b * 100, total * 100, total);
    assert total * 100 / total == 100;
    Division(0, a * 100, total);
  }

  lemma Division(x: int, y: int, n: int)
    requires x <= y && n > 0
    ensures x / n <= y / n
  {
    var p, q := x / n, y / n;
    if p > q { Whole(n, q, p); }
  }

  lemma Whole(n: int, q: int, p: int)
    requires n > 0 && q < p
    ensures n * p >= n * q + n
  {
    assert n * (p - q - 1) >= 0;
  }

  /** What the reports so far have used up. */
  lemma {:induction false} ReportsUsed(counts: seq<int>, total: int)
    requires Stream(counts, total) && total > 0
    ensures var st := Final(counts, total);
            0 <= st.bytes <= (if counts == [] then 0 else counts[|counts| - 1]) && st.pct == Pct(st.bytes, total)
            && STEP * Count(counts, total, Bytes) <= st.bytes && PERCENT * Count(counts, total, Percent) <= st.pct
            && Count(counts, total, First) == (if st.bytes > 0 then 1 else 0)
  {
    if counts != [] {
      var n := |counts| - 1;
      ReportsUsed(counts[..n], total);
      var st := Final(counts[..n], total);
      assert n > 0 ==> counts[n - 1] <= counts[n];
      PctGrows(st.bytes, counts[n], total);
    }
  }

  /** However finely a download ticks, it reports at most once plus once a MiB plus twenty times. */
  lemma ReportsBounded(counts: seq<int>, total: int)
    requires Stream(counts, total) && total > 0
    ensures Count(counts, total, First) + Count(counts, total, Bytes) + Count(counts, total, Percent) <= 1 + total / STEP + 20
  {
    ReportsUsed(counts, total);
    var st := Final(counts, total);
    PctGrows(st.bytes, total, total);
    assert st.bytes <= total;
    Division(STEP * Count(counts, total, Bytes), total, STEP);
  }

  /** After any tick with bytes, what is not reported yet is less than a MiB and less than five points. */
  lemma UnreportedSmall(counts: seq<int>, total: int)
    requires Stream(counts, total) && total > 0 && counts != [] && counts[|counts| - 1] > 0
    ensures var st := Final(counts, total);
            var now := counts[|counts| - 1];
            0 <= now - st.bytes < STEP && 0 <= Pct(now, total) - Pct(st.bytes, total) < PERCENT
  {
    var n := |counts| - 1;
    ReportsUsed(counts, total);
    ReportsUsed(counts[..n], total);
    PctGrows(Final(counts, total).bytes, counts[n], total);
  }
}
