/** The CoDel controller of one flow slot (RFC 8289). */
module CodelControl {
  import opened Checksum

  const U64: int := 0x1_0000_0000_0000_0000

  datatype Params = Params(target: nat, interval: nat)

  /** first_above_time, drop_next, last_drop_time, in_dropping, drop_count. */
  datatype Codel = Codel(firstAbove: nat, dropNext: nat, lastDrop: nat, dropping: bool, count: nat)

  const FRESH: Codel := Codel(0, 0, 0, false, 0)

  datatype Verdict = Verdict(drop: bool, next: Codel)

  // ---------------------------------------------------------------------------------
  // The control law.
  // ---------------------------------------------------------------------------------

  function Root(x: nat): (r: nat)
    ensures r * r <= x < (r + 1) * (r + 1)
  {
    if x == 0 then 0
    else
      var below := Root(x - 1);
      if (below + 1) * (below + 1) <= x then below + 1 else below
  }

  lemma DivBound(d: nat, x: nat)
    requires d > 0
    ensures d <= x / d <==> d * d <= x
  {
    var q := x / d;
    assert x == d * q + x % d;
    if d <= q {
      assert d * d <= d * q;
    } else {
      assert d * (q + 1) <= d * d;
    }
  }

  lemma RootUnique(x: nat, r: nat)
    requires r * r <= x < (r + 1) * (r + 1)
    ensures r == Root(x)
  {
    hide Root;
    var s := Root(x);
    if r < s {
      Squares(r + 1, s);
    } else if s < r {
      Squares(s + 1, r);
    }
  }

  lemma Squares(a: nat, b: nat)
    requires a <= b
    ensures a * a <= b * b
  {
    MulMono(a, a, b);
    MulMono(b, a, b);
    assert a * b == b * a;
  }

  lemma MulMono(c: nat, a: nat, b: nat)
    requires a <= b
    ensures c * a <= c * b
  {
  }

  method Isqrt32(x: nat) returns (r: nat)
    ensures r * r <= x < (r + 1) * (r + 1)
    ensures r == Root(x)
  {
    if x == 0 {
      return 0;
    }
    r := 1;
    DivBound(r + 1, x);
    while r + 1 <= x / (r + 1)
      invariant 1 <= r && r * r <= x
      invariant r + 1 <= x / (r + 1) <==> (r + 1) * (r + 1) <= x
      decreases x - r
    {
      assert r + 1 <= (r + 1) * (r + 1);
      r := r + 1;
      DivBound(r + 1, x);
    }
    RootUnique(x, r);
  }

  /** interval / isqrt(count), at least one millisecond. */
  function NextDropDelay(interval: nat, count: nat): (r: nat)
    ensures 1 <= r && (r <= interval || r == 1)
  {
    var root := Root(count);
    var step := interval / (if root == 0 then 1 else root);
    DivShrinks(interval, if root == 0 then 1 else root);
    if step == 0 then 1 else step
  }

  lemma DivShrinks(x: nat, d: nat)
    requires d > 0
    ensures 0 <= x / d <= x
  {
    var q := x / d;
    assert x == d * q + x % d;
    MulMono(q, 1, d);
    assert d * q == q * d;
  }

  /** 64-bit unsigned subtraction. */
  function Since(now: nat, earlier: nat): (r: int)
  {
    if now >= earlier then now - earlier else now - earlier + U64
  }

  /** The count after replaying the law forwards from the previous episode. */
  function Replay(interval: nat, count: nat, next: nat, now: nat): (r: nat)
    decreases count
  {
    if count > 1 && next + NextDropDelay(interval, count) <= now
    then Replay(interval, count - 1, next + NextDropDelay(interval, count), now)
    else count
  }

  predicate PhaseShift(p: Params, c: Codel, now: nat)
  {
    c.lastDrop != 0 && c.count > 1 && Since(now, c.lastDrop) < p.interval
  }

  function Above(c: Codel, now: nat): (r: Codel)
  {
    if c.firstAbove == 0 then c.(firstAbove := now) else c
  }

  /** One packet leaves the queue after `sojourn` milliseconds, at time `now`. */
  function Examine(p: Params, c: Codel, sojourn: nat, now: nat): (r: Verdict)
  {
    if sojourn <= p.target then Verdict(false, c.(firstAbove := 0, dropping := false))
    else
      var d := Above(c, now);
      if Since(now, d.firstAbove) < p.interval then Verdict(false, d)
      else if d.dropping then
        if now >= d.dropNext then
          var count := (d.count + 1) % U32;
          Verdict(true, d.(lastDrop := now, count := count, dropNext := now + NextDropDelay(p.interval, count)))
        else Verdict(false, d)
      else
        var count := if PhaseShift(p, d, now) then Replay(p.interval, d.count, d.lastDrop, now) else 1;
        Verdict(true, d.(dropping := true, count := count, dropNext := now + NextDropDelay(p.interval, count), lastDrop := now))
  }

  method DelayAfter(interval: nat, count: nat) returns (r: nat)
    ensures r == NextDropDelay(interval, count)
  {
    var root := Isqrt32(count);
    r := interval / (if root == 0 then 1 else root);
    if r == 0 {
      r := 1;
    }
  }

  method ReplayForward(interval: nat, start: nat, from: nat, now: nat) returns (count: nat)
    ensures count == Replay(interval, start, from, now)
  {
    count := start;
    var next := from;
    while count > 1
      invariant next >= 0
      invariant Replay(interval, count, next, now) == Replay(interval, start, from, now)
    {
      var step := DelayAfter(interval, count);
      if next + step > now {
        break;
      }
      next := next + step;
      count := count - 1;
    }
  }

  method CodelShouldDrop(p: Params, c: Codel, sojourn: nat, now: nat) returns (drop: bool, next: Codel)
    ensures Verdict(drop, next) == Examine(p, c, sojourn, now)
  {
    next := c;
    if sojourn <= p.target {
      next := next.(firstAbove := 0, dropping := false);
      return false, next;
    }
    if next.firstAbove == 0 {
      next := next.(firstAbove := now);
    }
    if Since(now, next.firstAbove) < p.interval {
      return false, next;
    }
    if next.dropping {
      if now >= next.dropNext {
        var count := (next.count + 1) % U32;
        var delay := DelayAfter(p.interval, count);
        next := next.(lastDrop := now, count := count, dropNext := now + delay);
        return true, next;
      }
      return false, next;
    }
    var count := 1;
    if next.lastDrop != 0 && next.count > 1 && Since(now, next.lastDrop) < p.interval {
      count := ReplayForward(p.interval, next.count, next.lastDrop, now);
    }
    var delay := DelayAfter(p.interval, count);
    next := next.(dropping := true, count := count, dropNext := now + delay, lastDrop := now);
    return true, next;
  }

  /** After a verdict the next packet examined at the same instant is let through. */
  lemma OneVerdictAnInstant(p: Params, c: Codel, sojourn: nat, later: nat, now: nat)
    requires Examine(p, c, sojourn, now).drop
    ensures !Examine(p, Examine(p, c, sojourn, now).next, later, now).drop
  {
  }

  // ---------------------------------------------------------------------------------
  // Every run of examinations on one slot, with a clock that does not go back.
  // ---------------------------------------------------------------------------------

  datatype Exam = Exam(sojourn: nat, now: nat)

  ghost predicate Clocked(run: seq<Exam>)
  {
    forall i, j :: 0 <= i < j < |run| ==> run[i].now <= run[j].now
  }

  ghost function After(p: Params, run: seq<Exam>): (c: Codel)
    decreases |run|, 1
  {
    if run == [] then FRESH else Judge(p, run, |run| - 1).next
  }

  /** The verdict on packet k. */
  ghost function Judge(p: Params, run: seq<Exam>, k: nat): (r: Verdict)
    requires k < |run|
    decreases |run|, 0
  {
    Examine(p, After(p, run[..k]), run[k].sojourn, run[k].now)
  }

  ghost predicate Over(p: Params, run: seq<Exam>, j: int, k: int)
    requires 0 <= j && k < |run|
  {
    forall m :: j <= m <= k ==> run[m].sojourn > p.target
  }

  /** What the state of a slot remembers about its past. */
  ghost predicate Remembers(p: Params, run: seq<Exam>, c: Codel)
  {
    && (c.lastDrop > 0 || c.firstAbove > 0 ==> run != [])
    && (run != [] ==> c.lastDrop <= run[|run| - 1].now && c.firstAbove <= run[|run| - 1].now)
    && (!c.dropping && c.firstAbove > 0 ==> c.firstAbove >= c.lastDrop)
    && (c.firstAbove > 0 ==> Since0(p, run, c.firstAbove))
  }

  /** Every packet from the one examined at time t0 on was over target. */
  ghost predicate Since0(p: Params, run: seq<Exam>, t0: nat)
  {
    exists j :: 0 <= j < |run| && run[j].now == t0 && Over(p, run, j, |run| - 1)
  }

  lemma {:induction false} RunRemembers(p: Params, run: seq<Exam>)
    requires Clocked(run)
    ensures Remembers(p, run, After(p, run))
  {
    if run != [] {
      var k := |run| - 1;
      var before := run[..k];
      RunRemembers(p, before);
      ExamRemembers(p, before, After(p, before), run[k]);
      assert run == before + [run[k]];
    }
  }

  lemma ExamRemembers(p: Params, run: seq<Exam>, c: Codel, e: Exam)
    requires Remembers(p, run, c) && (run != [] ==> run[|run| - 1].now <= e.now)
    ensures Remembers(p, run + [e], Examine(p, c, e.sojourn, e.now).next)
  {
    var d := Examine(p, c, e.sojourn, e.now).next;
    if e.sojourn > p.target {
      assert d.firstAbove == Above(c, e.now).firstAbove;
      if c.firstAbove > 0 {
        var j :| 0 <= j < |run| && run[j].now == c.firstAbove && Over(p, run, j, |run| - 1);
        assert Over(p, run + [e], j, |run|) && (run + [e])[j].now == c.firstAbove;
      } else {
        assert Over(p, run + [e], |run|, |run|) && (run + [e])[|run|].now == e.now;
      }
    }
  }

  /** A drop or mark verdict comes only after at least `interval` during which every packet
      examined on the slot had exceeded the target. */
  lemma VerdictLaw(p: Params, run: seq<Exam>, k: nat)
    requires Clocked(run) && k < |run| && Judge(p, run, k).drop
    ensures exists j :: 0 <= j <= k && run[k].now - run[j].now >= p.interval && Over(p, run, j, k)
  {
    var before := run[..k];
    var c := After(p, before);
    RunRemembers(p, before);
    if c.firstAbove > 0 {
      var j :| 0 <= j < |before| && before[j].now == c.firstAbove && Over(p, before, j, |before| - 1);
      assert run[j] == before[j];
      forall m | j <= m <= k
        ensures run[m].sojourn > p.target
      {
        assert m < k ==> before[m] == run[m];
      }
      assert Over(p, run, j, k);
    } else {
      assert Over(p, run, k, k);
    }
  }

  /** The phase-shift branch is dead: a return to dropping is at least `interval` after the last drop. */
  lemma PhaseShiftUnreachable(p: Params, run: seq<Exam>, k: nat)
    requires Clocked(run) && k < |run| && Judge(p, run, k).drop && !After(p, run[..k]).dropping
    ensures !PhaseShift(p, Above(After(p, run[..k]), run[k].now), run[k].now)
    ensures Judge(p, run, k).next.count == 1
  {
    RunRemembers(p, run[..k]);
  }

  /** Packet i got a verdict, and no packet after it up to k, exclusive, did. */
  ghost predicate LastVerdict(p: Params, run: seq<Exam>, i: nat, k: nat)
    requires k < |run|
  {
    i < k && Judge(p, run, i).drop && forall m :: i < m < k ==> !Judge(p, run, m).drop
  }

  lemma PrefixJudge(p: Params, run: seq<Exam>, k: nat, m: nat)
    requires m < k <= |run|
    ensures Judge(p, run[..k], m) == Judge(p, run, m)
  {
    assert run[..k][..m] == run[..m];
  }

  /** Between verdicts the schedule stands, or a packet within target has taken the slot out of
      the dropping state. */
  lemma {:induction false} Between(p: Params, run: seq<Exam>, i: nat, k: nat)
    requires Clocked(run) && k < |run| && LastVerdict(p, run, i, k)
    ensures var c, d := Judge(p, run, i).next, After(p, run[..k]);
            d.lastDrop == run[i].now && d.count == c.count &&
            (d.dropping ==> d.dropNext == c.dropNext) &&
            (!d.dropping ==> d.firstAbove == 0 || d.firstAbove >= run[i].now)
    ensures !After(p, run[..k]).dropping <==> !Over(p, run, i + 1, k - 1)
    ensures Over(p, run, i, k - 1) && p.interval > 0 ==>
              After(p, run[..k]).firstAbove == Judge(p, run, i).next.firstAbove > 0
    decreases k
  {
    hide NextDropDelay, Replay;
    var before := run[..k];
    PrefixJudge(p, run, k, k - 1);
    assert After(p, before) == Judge(p, run, k - 1).next;
    if i < k - 1 {
      Between(p, run, i, k - 1);
      assert Over(p, run, i + 1, k - 1) <==> Over(p, run, i + 1, k - 2) && run[k - 1].sojourn > p.target;
    } else {
      assert Judge(p, run, i).next.dropping;
    }
  }

  /** Packets leave in the order they came, and none before it came. */
  ghost predicate Fifo(run: seq<Exam>)
  {
    forall i, j :: 0 <= i < j < |run| ==> run[i].now - run[i].sojourn <= run[j].now - run[j].sojourn
  }

  /** In a queue a packet over target cannot follow one within target in the same instant. */
  lemma LaterInstant(p: Params, run: seq<Exam>, i: nat, k: nat)
    requires Clocked(run) && Fifo(run) && i < k < |run| && !Over(p, run, i + 1, k - 1) && run[k].sojourn > p.target
    ensures run[i].now < run[k].now
  {
    var m :| i + 1 <= m <= k - 1 && run[m].sojourn <= p.target;
    assert run[i].now <= run[m].now && run[m].now - run[m].sojourn <= run[k].now - run[k].sojourn;
  }

  /** Successive verdicts are at least interval / isqrt(count) apart, never less than one
      millisecond; and a slot that stays over target gets its next verdict as soon as that
      time has passed. */
  lemma SpacingLaw(p: Params, run: seq<Exam>, i: nat, k: nat)
    requires Clocked(run) && Fifo(run) && k < |run| && LastVerdict(p, run, i, k)
    ensures Judge(p, run, k).drop ==>
              run[k].now >= run[i].now + NextDropDelay(p.interval, Judge(p, run, i).next.count)
    ensures Over(p, run, i, k) ==>
              (Judge(p, run, k).drop <==>
               run[k].now >= run[i].now + NextDropDelay(p.interval, Judge(p, run, i).next.count))
  {
    hide NextDropDelay, Replay;
    Between(p, run, i, k);
    var c := Judge(p, run, i).next;
    assert c.dropNext == run[i].now + NextDropDelay(p.interval, c.count);
    RunRemembers(p, run[..k]);
    RunRemembers(p, run[..i]);
    if Judge(p, run, k).drop && !After(p, run[..k]).dropping {
      LaterInstant(p, run, i, k);
    }
  }
}
