/** What the scheduler decided about each packet it took from a slot, and why: a log that ties every
    drop and every mark to the CoDel examinations of the slot. */
module FqVerdicts {
  import opened Prelude
  import opened CodelControl
  import opened FqFlows

  datatype Fate = Passed | Marked | Dropped

  /** `exams` are the examinations of the slot since it was claimed, up to and with this one. */
  datatype Decision = Decision(slot: int, packet: Packet, now: nat, exams: seq<Exam>, fate: Fate)

  function ExamOf(p: Packet, now: nat): (r: Exam)
  {
    Exam(Sojourn(p, now), now)
  }

  function Exams(gone: seq<Packet>, now: nat): (r: seq<Exam>)
    ensures |r| == |gone| && forall k :: 0 <= k < |gone| ==> r[k] == ExamOf(gone[k], now)
  {
    seq(|gone|, k requires 0 <= k < |gone| => ExamOf(gone[k], now))
  }

  function FateOf(k: int, drops: int, marked: bool): (r: Fate)
  {
    if k < drops then Dropped else if marked then Marked else Passed
  }

  /** One visit: the first `drops` of the packets that left fell, a last one was delivered. */
  function Decisions(i: int, exams: seq<Exam>, now: nat, gone: seq<Packet>, drops: int, marked: bool): (r: seq<Decision>)
    ensures |r| == |gone|
  {
    seq(|gone|, k requires 0 <= k < |gone| =>
      Decision(i, gone[k], now, exams + Exams(gone[..k + 1], now), FateOf(k, drops, marked)))
  }

  // ---------------------------------------------------------------------------------
  // Reading the log.
  // ---------------------------------------------------------------------------------

  datatype Which = Sent | Lost | From(slot: int)

  predicate Takes(w: Which, r: Decision)
  {
    match w
    case Sent => !r.fate.Dropped?
    case Lost => r.fate.Dropped?
    case From(slot) => r.slot == slot
  }

  function Picked(log: seq<Decision>, w: Which): (r: seq<int>)
  {
    if log == [] then []
    else (if Takes(w, log[0]) then [log[0].packet.id] else []) + Picked(log[1..], w)
  }

  lemma {:induction false} PickedConcat(a: seq<Decision>, b: seq<Decision>, w: Which)
    ensures Picked(a + b, w) == Picked(a, w) + Picked(b, w)
  {
    if a == [] {
      assert a + b == b;
    } else {
      var head := if Takes(w, a[0]) then [a[0].packet.id] else [];
      assert (a + b)[1..] == a[1..] + b && (a + b)[0] == a[0];
      PickedConcat(a[1..], b, w);
      assert head + (Picked(a[1..], w) + Picked(b, w)) == head + Picked(a[1..], w) + Picked(b, w);
    }
  }

  lemma PickedOne(r: Decision, w: Which)
    ensures Picked([r], w) == if Takes(w, r) then [r.packet.id] else []
  {
    assert [r][1..] == [];
  }

  lemma PickedTwo(r: Decision, q: Decision, w: Which)
    ensures Picked([r, q], w) == (if Takes(w, r) then [r.packet.id] else []) + (if Takes(w, q) then [q.packet.id] else [])
  {
    assert [r, q][1..] == [q];
    PickedOne(q, w);
  }

  /** A visit, read each way. */
  lemma VisitPicked(i: int, exams: seq<Exam>, now: nat, gone: seq<Packet>, drops: int, marked: bool, k: int)
    requires |gone| <= 2 && 0 <= drops <= |gone|
    ensures var log := Decisions(i, exams, now, gone, drops, marked);
            && Picked(log, From(k)) == (if k == i then Ids(gone) else [])
            && Picked(log, Lost) == Ids(gone[..drops]) && Picked(log, Sent) == Ids(gone[drops..])
  {
    var log := Decisions(i, exams, now, gone, drops, marked);
    if |gone| == 1 {
      assert log == [log[0]];
      PickedOne(log[0], From(k));
      PickedOne(log[0], Lost);
      PickedOne(log[0], Sent);
    } else if |gone| == 2 {
      assert log == [log[0], log[1]];
      PickedTwo(log[0], log[1], From(k));
      PickedTwo(log[0], log[1], Lost);
      PickedTwo(log[0], log[1], Sent);
    }
  }

  // ---------------------------------------------------------------------------------
  // Each decision is the controller's.
  // ---------------------------------------------------------------------------------

  /** The packet fell or was marked exactly if the controller, after the slot's examinations, said so. */
  ghost predicate DecisionOk(p: Params, r: Decision)
  {
    r.exams != [] && r.exams[|r.exams| - 1] == ExamOf(r.packet, r.now) &&
    (r.fate != Passed <==> Judge(p, r.exams, |r.exams| - 1).drop)
  }

  /** The examinations of the slot as its last decision left them. */
  function History(log: seq<Decision>, slot: int): (r: seq<Exam>)
  {
    if log == [] then []
    else if log[|log| - 1].slot == slot then log[|log| - 1].exams
    else History(log[..|log| - 1], slot)
  }

  /** A decision continues the slot's history, or begins a new one. */
  predicate Continues(log: seq<Decision>, slot: int, exams: seq<Exam>)
  {
    exams == [] || exams == History(log, slot)
  }

  function Earlier(r: Decision): (exams: seq<Exam>)
  {
    if r.exams == [] then [] else r.exams[..|r.exams| - 1]
  }

  ghost predicate LogOk(p: Params, log: seq<Decision>)
  {
    forall m :: 0 <= m < |log| ==>
      DecisionOk(p, log[m]) && Continues(log[..m], log[m].slot, Earlier(log[m]))
  }

  lemma AfterAppend(p: Params, run: seq<Exam>, e: Exam)
    ensures Judge(p, run + [e], |run|) == Examine(p, After(p, run), e.sojourn, e.now)
    ensures After(p, run + [e]) == Judge(p, run + [e], |run|).next
  {
    assert (run + [e])[..|run|] == run;
  }

  lemma LogGrows(p: Params, log: seq<Decision>, r: Decision)
    requires LogOk(p, log) && DecisionOk(p, r) && Continues(log, r.slot, Earlier(r))
    ensures LogOk(p, log + [r])
  {
    hide DecisionOk, Continues, History, Earlier;
    var grown := log + [r];
    forall m | 0 <= m < |grown|
      ensures DecisionOk(p, grown[m]) && Continues(grown[..m], grown[m].slot, Earlier(grown[m]))
    {
      if m < |log| {
        assert grown[..m] == log[..m] && grown[m] == log[m];
      } else {
        assert grown[..m] == log;
      }
    }
  }

  lemma HistoryGrows(log: seq<Decision>, r: Decision, slot: int)
    ensures History(log + [r], slot) == if r.slot == slot then r.exams else History(log, slot)
  {
    assert (log + [r])[..|log|] == log;
  }

  /** One packet leaves slot i. */
  lemma OneDecision(p: Params, log: seq<Decision>, i: int, exams: seq<Exam>, packet: Packet, now: nat, fate: Fate)
    requires LogOk(p, log) && Continues(log, i, exams)
    requires fate != Passed <==> Examine(p, After(p, exams), Sojourn(packet, now), now).drop
    ensures var grown := exams + [ExamOf(packet, now)];
            var longer := log + [Decision(i, packet, now, grown, fate)];
            && LogOk(p, longer) && Continues(longer, i, grown)
            && (forall k, past: seq<Exam> :: k != i && Continues(log, k, past) ==> Continues(longer, k, past))
            && After(p, grown) == Examine(p, After(p, exams), Sojourn(packet, now), now).next
  {
    hide Examine, History;
    var e := ExamOf(packet, now);
    var grown := exams + [e];
    var r := Decision(i, packet, now, grown, fate);
    AfterAppend(p, exams, e);
    assert grown[..|grown| - 1] == exams;
    hide After, Judge, Continues;
    LogGrows(p, log, r);
    HistoryMoves(log, r);
  }

  lemma HistoryMoves(log: seq<Decision>, r: Decision)
    ensures Continues(log + [r], r.slot, r.exams)
    ensures forall k, past: seq<Exam> :: k != r.slot && Continues(log, k, past) ==> Continues(log + [r], k, past)
  {
    hide History;
    forall k, past: seq<Exam> | k == r.slot || Continues(log, k, past)
      ensures k == r.slot ==> Continues(log + [r], k, r.exams)
      ensures k != r.slot ==> Continues(log + [r], k, past)
    {
      HistoryGrows(log, r, k);
    }
    HistoryGrows(log, r, r.slot);
  }

  /** What one visit writes into the log is what CoDel decided. */
  ghost predicate Logged(p: Params, log: seq<Decision>, i: int, exams: seq<Exam>, now: nat, gone: seq<Packet>, drops: int,
                         marked: bool, codel: Codel)
  {
    var longer, grown := log + Decisions(i, exams, now, gone, drops, marked), exams + Exams(gone, now);
    && LogOk(p, longer) && Continues(longer, i, grown) && After(p, grown) == codel
    && (forall k, past: seq<Exam> :: k != i && Continues(log, k, past) ==> Continues(longer, k, past))
  }

  lemma LogNothing(p: Params, log: seq<Decision>, i: int, exams: seq<Exam>, now: nat, drops: int, marked: bool)
    requires LogOk(p, log) && Continues(log, i, exams)
    ensures Logged(p, log, i, exams, now, [], drops, marked, After(p, exams))
  {
    hide LogOk, Continues, After;
    assert log + Decisions(i, exams, now, [], drops, marked) == log && exams + Exams([], now) == exams;
  }

  lemma LogOne(p: Params, log: seq<Decision>, i: int, exams: seq<Exam>, now: nat, a: Packet, drops: int, marked: bool)
    requires LogOk(p, log) && Continues(log, i, exams)
    requires FateOf(0, drops, marked) != Passed <==> Examine(p, After(p, exams), Sojourn(a, now), now).drop
    ensures Logged(p, log, i, exams, now, [a], drops, marked, Examine(p, After(p, exams), Sojourn(a, now), now).next)
  {
    hide LogOk, Continues, After, Examine;
    OneDecision(p, log, i, exams, a, now, FateOf(0, drops, marked));
    assert [a][..1] == [a] && Exams([a], now) == [ExamOf(a, now)];
    assert Decisions(i, exams, now, [a], drops, marked) ==
           [Decision(i, a, now, exams + [ExamOf(a, now)], FateOf(0, drops, marked))];
  }

  lemma LogTwo(p: Params, log: seq<Decision>, i: int, exams: seq<Exam>, now: nat, a: Packet, b: Packet)
    requires LogOk(p, log) && Continues(log, i, exams)
    requires Examine(p, After(p, exams), Sojourn(a, now), now).drop
    ensures Logged(p, log, i, exams, now, [a, b], 1, false,
                   Examine(p, Examine(p, After(p, exams), Sojourn(a, now), now).next, Sojourn(b, now), now).next)
  {
    OneVerdictAnInstant(p, After(p, exams), Sojourn(a, now), Sojourn(b, now), now);
    hide LogOk, Continues, After, Examine;
    OneDecision(p, log, i, exams, a, now, Dropped);
    var once := exams + [ExamOf(a, now)];
    var first := Decision(i, a, now, once, Dropped);
    OneDecision(p, log + [first], i, once, b, now, Passed);
    hide Exams, Decisions;
    TwoDecisions(i, exams, now, a, b);
    assert log + [first] + [Decision(i, b, now, once + [ExamOf(b, now)], Passed)] == log + Decisions(i, exams, now, [a, b], 1, false);
  }

  lemma TwoDecisions(i: int, exams: seq<Exam>, now: nat, a: Packet, b: Packet)
    ensures var once := exams + [ExamOf(a, now)];
            var twice := once + [ExamOf(b, now)];
            && exams + Exams([a, b], now) == twice
            && Decisions(i, exams, now, [a, b], 1, false) == [Decision(i, a, now, once, Dropped), Decision(i, b, now, twice, Passed)]
  {
    assert [a, b][..1] == [a] && [a, b][..2] == [a, b] && Exams([a], now) == [ExamOf(a, now)];
    assert Exams([a, b], now) == [ExamOf(a, now), ExamOf(b, now)];
  }

  lemma ServedLogged(cfg: Config, f: Flow, now: nat, g: Flow, out: Option<Out>, dropped: seq<Packet>, gone: seq<Packet>,
                     log: seq<Decision>, i: int, exams: seq<Exam>)
    requires Served(cfg, f, now, g, out, dropped, gone)
    requires LogOk(cfg.codel, log) && Continues(log, i, exams) && f.codel == After(cfg.codel, exams)
    ensures Logged(cfg.codel, log, i, exams, now, gone, |dropped|, out.Some? && out.value.ceMarked, g.codel)
  {
    hide LogOk, Continues, After, Examine, Left, Logged;
    var marked := out.Some? && out.value.ceMarked;
    if gone == [] {
      LogNothing(cfg.codel, log, i, exams, now, |dropped|, marked);
    } else if |gone| == 1 {
      assert gone == [gone[0]];
      LogOne(cfg.codel, log, i, exams, now, gone[0], |dropped|, marked);
    } else {
      assert |gone| == 2 && gone == [gone[0], gone[1]] && |dropped| == 1;
      LogTwo(cfg.codel, log, i, exams, now, gone[0], gone[1]);
    }
  }

  // ---------------------------------------------------------------------------------
  // With a clock that does not go back, each slot's examinations are a run of a queue.
  // ---------------------------------------------------------------------------------

  ghost predicate Orderly(exams: seq<Exam>)
  {
    Clocked(exams) && Fifo(exams)
  }

  /** Everything about the slot happened by `clock`, in order. */
  ghost predicate SlotTimed(queue: seq<Packet>, exams: seq<Exam>, clock: nat)
  {
    && Orderly(exams)
    && (forall k :: 0 <= k < |exams| ==> exams[k].now <= clock)
    && (forall k :: 0 <= k < |queue| ==> queue[k].at <= clock)
    && (forall j, k :: 0 <= j < k < |queue| ==> queue[j].at <= queue[k].at)
    && (forall j, k :: 0 <= j < |exams| && 0 <= k < |queue| ==> exams[j].now - exams[j].sojourn <= queue[k].at)
  }

  ghost predicate LogTimed(log: seq<Decision>)
  {
    forall m :: 0 <= m < |log| ==> Orderly(log[m].exams)
  }

  lemma TimedPop(queue: seq<Packet>, exams: seq<Exam>, now: nat)
    requires SlotTimed(queue, exams, now) && queue != []
    ensures SlotTimed(queue[1..], exams + [ExamOf(queue[0], now)], now)
  {
    var e := ExamOf(queue[0], now);
    assert e.now - e.sojourn == queue[0].at;
  }

  lemma TimedVisit(queue: seq<Packet>, rest: seq<Packet>, exams: seq<Exam>, now: nat, log: seq<Decision>, i: int, gone: seq<Packet>,
                   drops: int, marked: bool)
    requires SlotTimed(queue, exams, now) && LogTimed(log) && queue == gone + rest && |gone| <= 2
    ensures SlotTimed(rest, exams + Exams(gone, now), now) && LogTimed(log + Decisions(i, exams, now, gone, drops, marked))
  {
    hide Orderly;
    if gone == [] {
      assert exams + Exams(gone, now) == exams && rest == queue;
    } else {
      TimedPop(queue, exams, now);
      var once := exams + [ExamOf(queue[0], now)];
      assert gone[..1] == [queue[0]] && Exams(gone[..1], now) == [ExamOf(queue[0], now)];
      if |gone| == 1 {
        assert queue[1..] == rest && gone == gone[..1];
      } else {
        TimedPop(queue[1..], once, now);
        assert queue[1..][1..] == rest && gone[..2] == gone;
        assert exams + Exams(gone, now) == once + [ExamOf(queue[1], now)];
      }
    }
  }

  lemma TimedPush(queue: seq<Packet>, exams: seq<Exam>, p: Packet, now: nat)
    requires SlotTimed(queue, exams, now) && p.at == now
    ensures SlotTimed(queue + [p], exams, now)
  {
    hide Orderly;
    forall j | 0 <= j < |exams|
      ensures exams[j].now - exams[j].sojourn <= p.at
    {
      assert exams[j].now <= now;
    }
  }

  lemma TimedLater(queue: seq<Packet>, exams: seq<Exam>, clock: nat, now: nat)
    requires SlotTimed(queue, exams, clock) && clock <= now
    ensures SlotTimed(queue, exams, now)
  {
    hide Orderly;
  }

  /** The two laws of CoDel for one decision: a drop or mark comes only after an interval over
      target, and at least a delay after the slot's last one; while the slot stays over target it
      comes as soon as that delay has passed. */
  ghost predicate Lawful(p: Params, r: Decision)
  {
    r.exams != [] &&
    var k := |r.exams| - 1;
    && (r.fate != Passed ==>
          exists j :: 0 <= j <= k && r.exams[k].now - r.exams[j].now >= p.interval && Over(p, r.exams, j, k))
    && forall i: nat :: i < k && LastVerdict(p, r.exams, i, k) ==>
         var due := r.exams[i].now + NextDropDelay(p.interval, Judge(p, r.exams, i).next.count);
         && (r.fate != Passed ==> r.exams[k].now >= due)
         && (Over(p, r.exams, i, k) ==> (r.fate != Passed <==> r.exams[k].now >= due))
  }

  lemma DecisionLaw(p: Params, r: Decision)
    requires DecisionOk(p, r) && Orderly(r.exams)
    ensures Lawful(p, r)
  {
    var k := |r.exams| - 1;
    hide Examine, After, NextDropDelay, Over, LastVerdict, Judge;
    if r.fate != Passed {
      VerdictLaw(p, r.exams, k);
    }
    forall i: nat | i < k && LastVerdict(p, r.exams, i, k)
      ensures var due := r.exams[i].now + NextDropDelay(p.interval, Judge(p, r.exams, i).next.count);
              && (r.fate != Passed ==> r.exams[k].now >= due)
              && (Over(p, r.exams, i, k) ==> (r.fate != Passed <==> r.exams[k].now >= due))
    {
      SpacingLaw(p, r.exams, i, k);
    }
  }
}
