/** The FQ-CoDel scheduler: linear-probed slots, new and old lists, deficit round robin. */
module FqCodel {
  import opened Prelude
  import opened Checksum
  import opened CodelControl
  import opened FqFlows
  import opened FqVerdicts

  datatype Totals = Totals(packets: int, bytes: int)

  /** One slot's account over an observation window: its deficit at the start, the quanta granted
      and the bytes removed since, its round, the leases that ever entered and left it, and its
      CoDel examinations since it was claimed. */
  datatype Entry = Entry(base: int, grants: int, removed: int, turn: int, arrived: seq<int>, departed: seq<int>, exams: seq<Exam>)

  /** History the scheduler never reads. `resident` are the slots that have been on the old list
      for the whole window. */
  datatype Book = Book(longest: int, entries: seq<Entry>, resident: set<int>, accepted: multiset<int>,
                       delivered: multiset<int>, dropped: multiset<int>, log: seq<Decision>)

  // ---------------------------------------------------------------------------------
  // Sums over the slots.
  // ---------------------------------------------------------------------------------

  function QueueLength(f: Flow): (r: int) { |f.queue| }

  function QueueBytes(f: Flow): (r: int) { f.queueBytes }

  function Sum(flows: seq<Flow>, weight: Flow -> int): (r: int)
  {
    if flows == [] then 0 else weight(flows[0]) + Sum(flows[1..], weight)
  }

  lemma {:induction false} SumUpdate(flows: seq<Flow>, i: int, g: Flow, weight: Flow -> int)
    requires 0 <= i < |flows|
    ensures Sum(flows[i := g], weight) == Sum(flows, weight) - weight(flows[i]) + weight(g)
  {
    if i == 0 {
      assert flows[0 := g][1..] == flows[1..];
    } else {
      assert flows[i := g][1..] == flows[1..][i - 1 := g];
      SumUpdate(flows[1..], i - 1, g, weight);
    }
  }

  lemma {:induction false} SumNonNegative(flows: seq<Flow>, weight: Flow -> int)
    requires forall i :: 0 <= i < |flows| ==> weight(flows[i]) >= 0
    ensures Sum(flows, weight) >= 0
    ensures forall i :: 0 <= i < |flows| ==> weight(flows[i]) <= Sum(flows, weight)
  {
    if flows != [] {
      SumNonNegative(flows[1..], weight);
      assert forall i :: 1 <= i < |flows| ==> flows[i] == flows[1..][i - 1];
    }
  }

  ghost function Queued(flows: seq<Flow>): (r: multiset<int>)
  {
    if flows == [] then multiset{} else multiset(Ids(flows[0].queue)) + Queued(flows[1..])
  }

  lemma Regroup(a: multiset<int>, before: multiset<int>, after: multiset<int>, f: multiset<int>, g: multiset<int>)
    requires after + f == before + g
    ensures a + after + f == a + before + g
  {
    assert a + after + f == a + (after + f) && a + before + g == a + (before + g);
  }

  lemma {:induction false} QueuedUpdate(flows: seq<Flow>, i: int, g: Flow)
    requires 0 <= i < |flows|
    ensures Queued(flows[i := g]) + multiset(Ids(flows[i].queue)) == Queued(flows) + multiset(Ids(g.queue))
  {
    if i == 0 {
      assert flows[0 := g][1..] == flows[1..];
    } else {
      hide Ids;
      assert flows[i := g][1..] == flows[1..][i - 1 := g] && flows[i := g][0] == flows[0];
      QueuedUpdate(flows[1..], i - 1, g);
      assert flows[1..][i - 1] == flows[i];
      Regroup(multiset(Ids(flows[0].queue)), Queued(flows[1..]), Queued(flows[i := g][1..]), multiset(Ids(flows[i].queue)),
              multiset(Ids(g.queue)));
    }
  }

  // ---------------------------------------------------------------------------------
  // The invariant.
  // ---------------------------------------------------------------------------------

  ghost predicate FlowOk(cfg: Config, longest: int, f: Flow)
  {
    && PacketsOk(f.queue, longest) && f.queueBytes == Bytes(f.queue)
    && |f.queue| <= cfg.maxQueueLength && f.queueBytes <= cfg.maxFlowQueueBytes
    && -longest <= f.deficit <= cfg.quantum + longest
    && (f.list.Unlisted? ==> f.queue == [] && f.deficit == 0)
  }

  ghost predicate FlowsOk(cfg: Config, longest: int, flows: seq<Flow>)
  {
    0 <= longest && forall i :: 0 <= i < |flows| ==> FlowOk(cfg, longest, flows[i])
  }

  ghost predicate ListOk(flows: seq<Flow>, list: seq<int>, kind: FlowList)
  {
    && (forall k :: 0 <= k < |list| ==> 0 <= list[k] < |flows| && flows[list[k]].list == kind)
    && (forall j, k :: 0 <= j < k < |list| ==> list[j] != list[k])
    && (forall i :: 0 <= i < |flows| && flows[i].list == kind ==> i in list)
  }

  ghost predicate TotalsOk(cfg: Config, flows: seq<Flow>, totals: Totals)
  {
    && totals == Totals(Sum(flows, QueueLength), Sum(flows, QueueBytes))
    && totals.packets <= cfg.maxTotalPackets && totals.bytes <= cfg.maxTotalBytes
  }

  function Credit(cfg: Config, grants: int): (r: int)
  {
    cfg.quantum * grants
  }

  /** served + change of deficit = quantum * grants, the slot is a FIFO, and its controller is where
      its examinations took it. */
  ghost predicate EntryOk(cfg: Config, longest: int, f: Flow, e: Entry)
  {
    && e.removed + f.deficit - e.base == Credit(cfg, e.grants)
    && -longest <= e.base <= cfg.quantum + longest
    && e.arrived == e.departed + Ids(f.queue)
    && f.codel == After(cfg.codel, e.exams)
  }

  ghost predicate EntriesOk(cfg: Config, longest: int, flows: seq<Flow>, entries: seq<Entry>)
  {
    |entries| == |flows| && forall i :: 0 <= i < |flows| ==> EntryOk(cfg, longest, flows[i], entries[i])
  }

  /** Along the old list rounds do not decrease, and no slot is two rounds ahead of another. */
  ghost predicate RoundsOk(entries: seq<Entry>, ring: seq<int>)
  {
    && (forall k :: 0 <= k < |ring| ==> 0 <= ring[k] < |entries|)
    && (forall j, k :: 0 <= j < k < |ring| ==> entries[ring[j]].turn <= entries[ring[k]].turn <= entries[ring[j]].turn + 1)
  }

  ghost predicate ResidentsOk(flows: seq<Flow>, entries: seq<Entry>, resident: set<int>)
  {
    |entries| == |flows| &&
    forall i :: i in resident ==> 0 <= i < |flows| && flows[i].list == Old && entries[i].turn == entries[i].grants
  }

  ghost predicate Conserved(flows: seq<Flow>, book: Book)
  {
    book.accepted == book.delivered + book.dropped + Queued(flows)
  }

  /** Every decision was CoDel's, on the examinations of its slot. */
  ghost predicate HistoriesOk(p: Params, log: seq<Decision>, entries: seq<Entry>)
  {
    LogOk(p, log) && forall i :: 0 <= i < |entries| ==> Continues(log, i, entries[i].exams)
  }

  datatype State = State(flows: seq<Flow>, newFlows: seq<int>, oldFlows: seq<int>, totals: Totals, book: Book)

  ghost predicate Ok(cfg: Config, s: State)
  {
    && FlowsOk(cfg, s.book.longest, s.flows)
    && ListOk(s.flows, s.newFlows, New) && ListOk(s.flows, s.oldFlows, Old)
    && TotalsOk(cfg, s.flows, s.totals)
    && EntriesOk(cfg, s.book.longest, s.flows, s.book.entries)
    && RoundsOk(s.book.entries, s.oldFlows)
    && ResidentsOk(s.flows, s.book.entries, s.book.resident)
    && Conserved(s.flows, s.book)
    && HistoriesOk(cfg.codel, s.book.log, s.book.entries)
  }

  /** Everything in the scheduler happened by `clock`, and in order. */
  ghost predicate Timed(s: State, clock: nat)
  {
    && |s.book.entries| == |s.flows| && LogTimed(s.book.log)
    && forall i :: 0 <= i < |s.flows| ==> SlotTimed(s.flows[i].queue, s.book.entries[i].exams, clock)
  }

  // ---------------------------------------------------------------------------------
  // Steps.
  // ---------------------------------------------------------------------------------

  lemma SameList(flows: seq<Flow>, i: int, g: Flow, list: seq<int>, kind: FlowList)
    requires ListOk(flows, list, kind) && 0 <= i < |flows| && (g.list == kind <==> flows[i].list == kind)
    ensures ListOk(flows[i := g], list, kind)
  {
  }

  lemma ListPops(flows: seq<Flow>, g: Flow, list: seq<int>, kind: FlowList)
    requires ListOk(flows, list, kind) && list != [] && g.list != kind
    ensures ListOk(flows[list[0] := g], list[1..], kind)
  {
    var i := list[0];
    forall k | 0 <= k < |flows| && flows[i := g][k].list == kind
      ensures k in list[1..]
    {
      assert k in list;
    }
  }

  lemma ListGrows(flows: seq<Flow>, i: int, g: Flow, list: seq<int>, kind: FlowList)
    requires ListOk(flows, list, kind) && 0 <= i < |flows| && flows[i].list != kind && g.list == kind
    ensures ListOk(flows[i := g], list + [i], kind)
  {
    assert i !in list;
    forall k | 0 <= k < |flows| && flows[i := g][k].list == kind
      ensures k in list + [i]
    {
      assert k == i || k in list;
    }
  }

  lemma ListRotates(flows: seq<Flow>, g: Flow, list: seq<int>, kind: FlowList)
    requires ListOk(flows, list, kind) && list != [] && g.list == kind
    ensures ListOk(flows[list[0] := g], list[1..] + [list[0]], kind)
  {
    var turned := list[1..] + [list[0]];
    forall k | k in list
      ensures k in turned
    {
      var j :| 0 <= j < |list| && list[j] == k;
      assert j > 0 ==> turned[j - 1] == k;
      assert turned[|list| - 1] == list[0];
    }
  }

  /** A slot and its account change together. */
  lemma SlotChanges(cfg: Config, s: State, i: int, g: Flow, e: Entry)
    requires Ok(cfg, s) && 0 <= i < |s.flows|
    requires FlowOk(cfg, s.book.longest, g) && EntryOk(cfg, s.book.longest, g, e)
    ensures FlowsOk(cfg, s.book.longest, s.flows[i := g])
    ensures EntriesOk(cfg, s.book.longest, s.flows[i := g], s.book.entries[i := e])
    ensures g.list == s.flows[i].list && (i in s.book.resident ==> e.turn == e.grants) ==>
              ResidentsOk(s.flows[i := g], s.book.entries[i := e], s.book.resident)
    ensures ResidentsOk(s.flows[i := g], s.book.entries[i := e], s.book.resident - {i})
    ensures e.turn == s.book.entries[i].turn || i !in s.oldFlows ==> RoundsOk(s.book.entries[i := e], s.oldFlows)
    ensures e.exams == s.book.entries[i].exams || e.exams == [] ==>
              HistoriesOk(cfg.codel, s.book.log, s.book.entries[i := e])
  {
    hide FlowOk, EntryOk, TotalsOk, Conserved, ListOk, LogOk, History;
  }

  lemma TotalsMove(cfg: Config, flows: seq<Flow>, totals: Totals, i: int, g: Flow, after: Totals)
    requires TotalsOk(cfg, flows, totals) && 0 <= i < |flows|
    requires after == Totals(totals.packets + |g.queue| - |flows[i].queue|, totals.bytes + g.queueBytes - flows[i].queueBytes)
    requires after.packets <= cfg.maxTotalPackets && after.bytes <= cfg.maxTotalBytes
    ensures TotalsOk(cfg, flows[i := g], after)
  {
    SumUpdate(flows, i, g, QueueLength);
    SumUpdate(flows, i, g, QueueBytes);
  }

  lemma SlotOf(cfg: Config, s: State, i: int)
    requires Ok(cfg, s) && 0 <= i < |s.flows|
    ensures FlowOk(cfg, s.book.longest, s.flows[i]) && |s.book.entries| == |s.flows|
    ensures EntryOk(cfg, s.book.longest, s.flows[i], s.book.entries[i])
    ensures i in s.newFlows <==> s.flows[i].list == New
    ensures i in s.oldFlows <==> s.flows[i].list == Old
    ensures LogOk(cfg.codel, s.book.log) && Continues(s.book.log, i, s.book.entries[i].exams)
  {
    hide FlowOk, EntryOk, TotalsOk, Conserved, LogOk, Continues;
  }

  // Serving.

  lemma PacketsOf(cfg: Config, s: State, i: int)
    requires Ok(cfg, s) && 0 <= i < |s.flows|
    ensures PacketsOk(s.flows[i].queue, s.book.longest) && |s.book.entries| == |s.flows|
  {
    SlotOf(cfg, s, i);
  }

  function AfterServe(s: State, i: int, now: nat, g: Flow, out: Option<Out>, dropped: seq<Packet>, gone: seq<Packet>): (r: State)
    requires 0 <= i < |s.flows| && |s.book.entries| == |s.flows|
  {
    var e := s.book.entries[i];
    s.(flows := s.flows[i := g],
       totals := Totals(s.totals.packets - |gone|, s.totals.bytes - Bytes(gone)),
       book := s.book.(entries := s.book.entries[i := e.(removed := e.removed + Bytes(gone), departed := e.departed + Ids(gone),
                                                         exams := e.exams + Exams(gone, now))],
                       log := s.book.log + Decisions(i, e.exams, now, gone, |dropped|, out.Some? && out.value.ceMarked),
                       delivered := s.book.delivered + (if out.Some? then multiset{out.value.id} else multiset{}),
                       dropped := s.book.dropped + multiset(Ids(dropped))))
  }

  lemma PacketsSplit(a: seq<Packet>, b: seq<Packet>, longest: int)
    requires PacketsOk(a + b, longest)
    ensures PacketsOk(a, longest) && PacketsOk(b, longest)
  {
    hide Octets;
    var q := a + b;
    assert forall i :: 0 <= i < |a| ==> a[i] == q[i];
    assert forall i :: 0 <= i < |b| ==> b[i] == q[|a| + i];
  }

  lemma TwoAtMost(gone: seq<Packet>, longest: int)
    requires PacketsOk(gone, longest) && |gone| <= 2
    ensures gone == [] ==> Bytes(gone) == 0
    ensures gone != [] ==> Bytes(gone) <= |gone[0].data| + (if |gone| == 2 then longest else 0)
  {
  }

  lemma ServedFlow(cfg: Config, longest: int, f: Flow, g: Flow, gone: seq<Packet>)
    requires FlowOk(cfg, longest, f) && Left(f, g, gone) && |gone| <= 2 && 0 <= longest
    requires f.queue != [] ==> f.deficit >= |f.queue[0].data|
    requires f.list != Unlisted
    ensures FlowOk(cfg, longest, g)
  {
    hide PacketsOk, Bytes;
    BytesConcat(gone, g.queue);
    PacketsSplit(gone, g.queue, longest);
    TwoAtMost(gone, longest);
    assert gone != [] ==> gone[0] == f.queue[0];
  }

  lemma ServedEntry(cfg: Config, longest: int, f: Flow, e: Entry, g: Flow, gone: seq<Packet>, exams: seq<Exam>)
    requires EntryOk(cfg, longest, f, e) && Left(f, g, gone) && g.codel == After(cfg.codel, exams)
    ensures EntryOk(cfg, longest, g, e.(removed := e.removed + Bytes(gone), departed := e.departed + Ids(gone), exams := exams))
  {
    hide Bytes, Ids, Credit, After;
    IdsConcat(gone, g.queue);
    assert e.departed + (Ids(gone) + Ids(g.queue)) == e.departed + Ids(gone) + Ids(g.queue);
  }

  lemma Balance(accepted: multiset<int>, delivered: multiset<int>, dropped: multiset<int>, before: multiset<int>,
                after: multiset<int>, f: multiset<int>, g: multiset<int>, out: multiset<int>, lost: multiset<int>)
    requires accepted == delivered + dropped + before
    requires after + f == before + g && f == lost + out + g
    ensures accepted == delivered + out + (dropped + lost) + after
  {
    forall x: int
      ensures (after + lost + out)[x] == before[x]
    {
      assert (after + f)[x] == (before + g)[x];
      assert f[x] == (lost + out + g)[x];
    }
    assert after + lost + out == before;
  }

  lemma ServedIds(f: Flow, g: Flow, out: Option<Out>, dropped: seq<Packet>, gone: seq<Packet>)
    requires f.queue == gone + g.queue
    requires out.None? ==> gone == dropped
    requires out.Some? ==> gone != [] && dropped == gone[..|gone| - 1] && out.value.id == gone[|gone| - 1].id
    ensures multiset(Ids(f.queue)) ==
            multiset(Ids(dropped)) + (if out.Some? then multiset{out.value.id} else multiset{}) + multiset(Ids(g.queue))
  {
    IdsConcat(gone, g.queue);
    if out.Some? {
      assert gone == dropped + [gone[|gone| - 1]];
      IdsConcat(dropped, [gone[|gone| - 1]]);
      assert Ids([gone[|gone| - 1]]) == [out.value.id];
    }
  }

  lemma ServeStep(cfg: Config, s: State, i: int, now: nat, g: Flow, out: Option<Out>, dropped: seq<Packet>, gone: seq<Packet>)
    requires Ok(cfg, s) && 0 <= i < |s.flows| && s.flows[i].list != Unlisted
    requires s.flows[i].queue != [] ==> s.flows[i].deficit >= |s.flows[i].queue[0].data|
    requires Served(cfg, s.flows[i], now, g, out, dropped, gone)
    ensures |s.book.entries| == |s.flows| && Ok(cfg, AfterServe(s, i, now, g, out, dropped, gone))
  {
    hide FlowOk, EntryOk, FlowsOk, EntriesOk, RoundsOk, ResidentsOk, ListOk, TotalsOk, Ids, Bytes, Examine, Queued, Octets, Logged,
         LogOk, Continues, After, Exams, Decisions, HistoriesOk;
    SlotOf(cfg, s, i);
    var f := s.flows[i];
    assert |gone| <= 2;
    assert 0 <= s.book.longest by { LongestOf(cfg, s); }
    ServedFlow(cfg, s.book.longest, f, g, gone);
    CodelOf(cfg, s.book.longest, f, s.book.entries[i]);
    var exams := s.book.entries[i].exams;
    ServedLogged(cfg, f, now, g, out, dropped, gone, s.book.log, i, exams);
    LoggedAfter(cfg.codel, s.book.log, i, exams, now, gone, |dropped|, out.Some? && out.value.ceMarked, g.codel);
    ServedEntry(cfg, s.book.longest, f, s.book.entries[i], g, gone, exams + Exams(gone, now));
    var d := AfterServe(s, i, now, g, out, dropped, gone);
    SlotChanges(cfg, s, i, g, d.book.entries[i]);
    HistoriesMove(cfg.codel, s.book.log, s.book.entries, i, now, gone, |dropped|, out.Some? && out.value.ceMarked, g.codel,
                  d.book.log, d.book.entries);
    SameList(s.flows, i, g, s.newFlows, New);
    SameList(s.flows, i, g, s.oldFlows, Old);
    ResidentSame(s, i);
    TotalsWithin(cfg, s);
    TotalsMove(cfg, s.flows, s.totals, i, g, d.totals);
    ServedIds(f, g, out, dropped, gone);
    QueuedUpdate(s.flows, i, g);
    Balance(s.book.accepted, s.book.delivered, s.book.dropped, Queued(s.flows), Queued(d.flows), multiset(Ids(f.queue)),
            multiset(Ids(g.queue)), if out.Some? then multiset{out.value.id} else multiset{}, multiset(Ids(dropped)));
  }

  lemma CodelOf(cfg: Config, longest: int, f: Flow, e: Entry)
    requires EntryOk(cfg, longest, f, e)
    ensures f.codel == After(cfg.codel, e.exams)
  {
  }

  lemma LoggedAfter(p: Params, log: seq<Decision>, i: int, exams: seq<Exam>, now: nat, gone: seq<Packet>, drops: int,
                    marked: bool, codel: Codel)
    requires Logged(p, log, i, exams, now, gone, drops, marked, codel)
    ensures After(p, exams + Exams(gone, now)) == codel
  {
  }

  lemma HistoriesMove(p: Params, log: seq<Decision>, entries: seq<Entry>, i: int, now: nat, gone: seq<Packet>, drops: int, marked: bool,
                      codel: Codel, longer: seq<Decision>, after: seq<Entry>)
    requires HistoriesOk(p, log, entries) && 0 <= i < |entries| == |after|
    requires Logged(p, log, i, entries[i].exams, now, gone, drops, marked, codel)
    requires longer == log + Decisions(i, entries[i].exams, now, gone, drops, marked)
    requires after[i].exams == entries[i].exams + Exams(gone, now) && forall k :: 0 <= k < |entries| && k != i ==> after[k] == entries[k]
    ensures HistoriesOk(p, longer, after)
  {
    hide LogOk, Continues, Decisions, Exams, After;
  }

  lemma ResidentSame(s: State, i: int)
    requires ResidentsOk(s.flows, s.book.entries, s.book.resident)
    ensures i in s.book.resident ==> 0 <= i < |s.flows| && s.book.entries[i].turn == s.book.entries[i].grants && s.flows[i].list == Old
  {
  }

  lemma LongestOf(cfg: Config, s: State)
    requires Ok(cfg, s)
    ensures 0 <= s.book.longest
  {
  }

  lemma TotalsWithin(cfg: Config, s: State)
    requires Ok(cfg, s)
    ensures s.totals.packets <= cfg.maxTotalPackets && s.totals.bytes <= cfg.maxTotalBytes
  {
  }

  // Granting a quantum.

  lemma GrantEntry(cfg: Config, longest: int, f: Flow, e: Entry, turn: int)
    requires EntryOk(cfg, longest, f, e)
    ensures EntryOk(cfg, longest, f.(deficit := f.deficit + cfg.quantum), e.(grants := e.grants + 1, turn := turn))
  {
    hide Ids;
    assert cfg.quantum * (e.grants + 1) == cfg.quantum * e.grants + cfg.quantum;
  }

  /** The front of the old list is granted a quantum and goes to the back. */
  function AfterGrant(cfg: Config, s: State): (r: State)
    requires s.oldFlows != [] && 0 <= s.oldFlows[0] < |s.flows| && |s.book.entries| == |s.flows|
  {
    var i := s.oldFlows[0];
    var f, e := s.flows[i], s.book.entries[i];
    s.(flows := s.flows[i := f.(deficit := f.deficit + cfg.quantum)], oldFlows := s.oldFlows[1..] + [i],
       book := s.book.(entries := s.book.entries[i := e.(grants := e.grants + 1, turn := e.turn + 1)]))
  }

  lemma RoundTurns(entries: seq<Entry>, ring: seq<int>, e: Entry)
    requires RoundsOk(entries, ring) && ring != [] && e.turn == entries[ring[0]].turn + 1
    requires forall j, k :: 0 <= j < k < |ring| ==> ring[j] != ring[k]
    ensures RoundsOk(entries[ring[0] := e], ring[1..] + [ring[0]])
  {
    var turned := ring[1..] + [ring[0]];
    assert forall k :: 0 <= k < |ring| - 1 ==> turned[k] == ring[k + 1];
  }

  lemma ListFacts(flows: seq<Flow>, list: seq<int>, kind: FlowList)
    requires ListOk(flows, list, kind)
    ensures forall j, k :: 0 <= j < k < |list| ==> list[j] != list[k]
    ensures list != [] ==> 0 <= list[0] < |flows| && flows[list[0]].list == kind
  {
  }

  lemma GrantStep(cfg: Config, s: State)
    requires Ok(cfg, s) && s.oldFlows != [] && 0 <= s.oldFlows[0] < |s.flows|
    requires var f := s.flows[s.oldFlows[0]]; f.queue != [] && f.deficit < |f.queue[0].data|
    ensures |s.book.entries| == |s.flows| && Ok(cfg, AfterGrant(cfg, s))
  {
    hide EntryOk, FlowsOk, EntriesOk, RoundsOk, ResidentsOk, ListOk, TotalsOk, Conserved, Ids, Bytes, Queued, Octets, HistoriesOk;
    var i := s.oldFlows[0];
    SlotOf(cfg, s, i);
    var d := AfterGrant(cfg, s);
    ListFacts(s.flows, s.oldFlows, Old);
    GrantEntry(cfg, s.book.longest, s.flows[i], s.book.entries[i], s.book.entries[i].turn + 1);
    SlotChanges(cfg, s, i, d.flows[i], d.book.entries[i]);
    ResidentSame(s, i);
    SameList(s.flows, i, d.flows[i], s.newFlows, New);
    ListRotates(s.flows, d.flows[i], s.oldFlows, Old);
    RoundTurns(s.book.entries, s.oldFlows, d.book.entries[i]);
    TotalsWithin(cfg, s);
    TotalsMove(cfg, s.flows, s.totals, i, d.flows[i], s.totals);
    SameQueues(s.flows, i, d.flows[i], s.book, d.book);
  }

  lemma SameQueues(flows: seq<Flow>, i: int, g: Flow, book: Book, after: Book)
    requires Conserved(flows, book) && 0 <= i < |flows| && Ids(g.queue) == Ids(flows[i].queue)
    requires after.accepted == book.accepted && after.delivered == book.delivered && after.dropped == book.dropped
    ensures Conserved(flows[i := g], after)
  {
    hide Queued, Ids;
    QueuedUpdate(flows, i, g);
    Cancel(Queued(flows), Queued(flows[i := g]), multiset(Ids(g.queue)));
  }

  lemma Cancel(a: multiset<int>, b: multiset<int>, c: multiset<int>)
    requires b + c == a + c
    ensures a == b
  {
    forall x: int
      ensures a[x] == b[x]
    {
      assert (b + c)[x] == (a + c)[x];
    }
  }

  /** A new flow without credit is granted a quantum in place. */
  function AfterCredit(cfg: Config, s: State, i: int): (r: State)
    requires 0 <= i < |s.flows| && |s.book.entries| == |s.flows|
  {
    var f, e := s.flows[i], s.book.entries[i];
    s.(flows := s.flows[i := f.(deficit := f.deficit + cfg.quantum)],
       book := s.book.(entries := s.book.entries[i := e.(grants := e.grants + 1)]))
  }

  lemma CreditStep(cfg: Config, s: State, i: int)
    requires Ok(cfg, s) && 0 <= i < |s.flows| && s.flows[i].list == New && s.flows[i].deficit <= 0
    ensures |s.book.entries| == |s.flows| && Ok(cfg, AfterCredit(cfg, s, i))
  {
    hide EntryOk, FlowsOk, EntriesOk, RoundsOk, ResidentsOk, ListOk, TotalsOk, Conserved, Ids, Bytes, Queued, Octets, HistoriesOk;
    SlotOf(cfg, s, i);
    LongestOf(cfg, s);
    var d := AfterCredit(cfg, s, i);
    GrantEntry(cfg, s.book.longest, s.flows[i], s.book.entries[i], s.book.entries[i].turn);
    SlotChanges(cfg, s, i, d.flows[i], d.book.entries[i]);
    ResidentSame(s, i);
    SameList(s.flows, i, d.flows[i], s.newFlows, New);
    SameList(s.flows, i, d.flows[i], s.oldFlows, Old);
    TotalsWithin(cfg, s);
    TotalsMove(cfg, s.flows, s.totals, i, d.flows[i], s.totals);
    SameQueues(s.flows, i, d.flows[i], s.book, d.book);
  }

  // Moving between lists.

  /** The front of the new list joins the back of the old one, in the round of its last member. */
  function AfterMature(s: State): (r: State)
    requires s.newFlows != [] && 0 <= s.newFlows[0] < |s.flows| && |s.book.entries| == |s.flows|
    requires s.oldFlows != [] ==> 0 <= s.oldFlows[|s.oldFlows| - 1] < |s.flows|
  {
    var i := s.newFlows[0];
    var turn := if s.oldFlows == [] then 0 else s.book.entries[s.oldFlows[|s.oldFlows| - 1]].turn;
    s.(flows := s.flows[i := s.flows[i].(list := Old)], newFlows := s.newFlows[1..], oldFlows := s.oldFlows + [i],
       book := s.book.(entries := s.book.entries[i := s.book.entries[i].(turn := turn)]))
  }

  lemma RoundJoins(entries: seq<Entry>, ring: seq<int>, i: int, e: Entry)
    requires RoundsOk(entries, ring) && 0 <= i < |entries| && i !in ring
    requires ring != [] ==> e.turn == entries[ring[|ring| - 1]].turn
    ensures RoundsOk(entries[i := e], ring + [i])
  {
  }

  lemma MatureStep(cfg: Config, s: State)
    requires Ok(cfg, s) && s.newFlows != []
    ensures |s.book.entries| == |s.flows| && 0 <= s.newFlows[0] < |s.flows|
    ensures s.oldFlows != [] ==> 0 <= s.oldFlows[|s.oldFlows| - 1] < |s.flows|
    ensures Ok(cfg, AfterMature(s))
  {
    hide EntryOk, FlowsOk, EntriesOk, ResidentsOk, TotalsOk, Conserved, Ids, Bytes, Queued, Octets, Credit, HistoriesOk;
    var i := s.newFlows[0];
    SlotOf(cfg, s, i);
    var d := AfterMature(s);
    assert EntryOk(cfg, s.book.longest, d.flows[i], d.book.entries[i]) by {
      TurnMoves(cfg, s.book.longest, s.flows[i], d.flows[i], s.book.entries[i], d.book.entries[i].turn);
    }
    hide ListOk, RoundsOk;
    SlotChanges(cfg, s, i, d.flows[i], d.book.entries[i]);
    ResidentSame(s, i);
    assert s.book.resident - {i} == s.book.resident;
    ListPops(s.flows, d.flows[i], s.newFlows, New);
    ListGrows(s.flows, i, d.flows[i], s.oldFlows, Old);
    RoundJoins(s.book.entries, s.oldFlows, i, d.book.entries[i]);
    TotalsWithin(cfg, s);
    TotalsMove(cfg, s.flows, s.totals, i, d.flows[i], s.totals);
    SameQueues(s.flows, i, d.flows[i], s.book, d.book);
  }

  lemma TurnMoves(cfg: Config, longest: int, f: Flow, g: Flow, e: Entry, turn: int)
    requires EntryOk(cfg, longest, f, e) && g.deficit == f.deficit && g.queue == f.queue && g.codel == f.codel
    ensures EntryOk(cfg, longest, g, e.(turn := turn))
  {
  }

  /** A drained slot at the front of its list is reset. */
  function AfterRelease(s: State, kind: FlowList): (r: State)
    requires |s.book.entries| == |s.flows|
    requires kind == New ==> s.newFlows != [] && 0 <= s.newFlows[0] < |s.flows|
    requires kind != New ==> s.oldFlows != [] && 0 <= s.oldFlows[0] < |s.flows|
  {
    var i := if kind == New then s.newFlows[0] else s.oldFlows[0];
    var e := s.book.entries[i];
    s.(flows := s.flows[i := IDLE], newFlows := if kind == New then s.newFlows[1..] else s.newFlows,
       oldFlows := if kind == New then s.oldFlows else s.oldFlows[1..],
       book := s.book.(entries := s.book.entries[i := Entry(0, 0, 0, e.turn, e.arrived, e.departed, [])],
                       resident := s.book.resident - {i}))
  }

  lemma IdleFits(cfg: Config, longest: int, f: Flow, e: Entry)
    requires EntryOk(cfg, longest, f, e) && f.queue == [] && 0 <= longest
    ensures FlowOk(cfg, longest, IDLE) && EntryOk(cfg, longest, IDLE, Entry(0, 0, 0, e.turn, e.arrived, e.departed, []))
  {
  }

  lemma ReleaseStep(cfg: Config, s: State, kind: FlowList)
    requires Ok(cfg, s) && kind != Unlisted
    requires kind == New ==> s.newFlows != [] && 0 <= s.newFlows[0] < |s.flows| && s.flows[s.newFlows[0]].queue == []
    requires kind == Old ==> s.oldFlows != [] && 0 <= s.oldFlows[0] < |s.flows| && s.flows[s.oldFlows[0]].queue == []
    ensures |s.book.entries| == |s.flows| && Ok(cfg, AfterRelease(s, kind))
  {
    hide FlowOk, EntryOk, FlowsOk, EntriesOk, ResidentsOk, TotalsOk, Conserved, Ids, Bytes, Queued, Credit, RoundsOk, ListOk,
         HistoriesOk;
    var list := if kind == New then s.newFlows else s.oldFlows;
    var i := list[0];
    SlotOf(cfg, s, i);
    LongestOf(cfg, s);
    var d := AfterRelease(s, kind);
    IdleFits(cfg, s.book.longest, s.flows[i], s.book.entries[i]);
    ListFacts(s.flows, list, kind);
    SlotChanges(cfg, s, i, IDLE, d.book.entries[i]);
    ListPops(s.flows, IDLE, list, kind);
    SameList(s.flows, i, IDLE, if kind == New then s.oldFlows else s.newFlows, if kind == New then Old else New);
    assert RoundsOk(d.book.entries, d.oldFlows) by { RoundDrops(d.book.entries, s.oldFlows); }
    TotalsWithin(cfg, s);
    assert s.flows[i].queueBytes == 0 by { SlotBytes(cfg, s.book.longest, s.flows[i]); }
    TotalsMove(cfg, s.flows, s.totals, i, IDLE, s.totals);
    SameQueues(s.flows, i, IDLE, s.book, d.book);
  }

  lemma RoundDrops(entries: seq<Entry>, ring: seq<int>)
    requires RoundsOk(entries, ring)
    ensures ring != [] ==> RoundsOk(entries, ring[1..])
  {
  }

  lemma SlotBytes(cfg: Config, longest: int, f: Flow)
    requires FlowOk(cfg, longest, f) && f.queue == []
    ensures f.queueBytes == 0
  {
  }

  // The termination measure of the old-list loop.

  /** How much credit the head packet of a slot still lacks. */
  function Gap(f: Flow): (r: nat)
  {
    if f.queue != [] && f.deficit < |f.queue[0].data| then |f.queue[0].data| - f.deficit else 0
  }

  ghost function Gaps(flows: seq<Flow>, list: seq<int>): (r: nat)
    requires forall k :: 0 <= k < |list| ==> 0 <= list[k] < |flows|
  {
    if list == [] then 0 else Gap(flows[list[0]]) + Gaps(flows, list[1..])
  }

  lemma {:induction false} GapsElsewhere(flows: seq<Flow>, list: seq<int>, i: int, g: Flow)
    requires forall k :: 0 <= k < |list| ==> 0 <= list[k] < |flows|
    requires 0 <= i < |flows| && i !in list
    ensures Gaps(flows[i := g], list) == Gaps(flows, list)
  {
    if list != [] {
      assert list[0] != i;
      GapsElsewhere(flows, list[1..], i, g);
    }
  }

  lemma {:induction false} GapsAppend(flows: seq<Flow>, list: seq<int>, i: int)
    requires forall k :: 0 <= k < |list| ==> 0 <= list[k] < |flows|
    requires 0 <= i < |flows|
    ensures Gaps(flows, list + [i]) == Gaps(flows, list) + Gap(flows[i])
  {
    if list != [] {
      assert (list + [i])[1..] == list[1..] + [i];
      GapsAppend(flows, list[1..], i);
    } else {
      assert list + [i] == [i];
    }
  }

  /** Each grant brings the slot's head packet closer, so the rotation cannot go on for ever. */
  lemma GrantShrinks(cfg: Config, flows: seq<Flow>, list: seq<int>)
    requires ListOk(flows, list, Old) && list != [] && cfg.quantum > 0 && Gap(flows[list[0]]) > 0
    ensures var f := flows[list[0]];
            var after := flows[list[0] := f.(deficit := f.deficit + cfg.quantum)];
            var turned := list[1..] + [list[0]];
            (forall k :: 0 <= k < |turned| ==> 0 <= turned[k] < |after|) && Gaps(after, turned) < Gaps(flows, list)
  {
    var i := list[0];
    var g := flows[i].(deficit := flows[i].deficit + cfg.quantum);
    assert i !in list[1..];
    GapsElsewhere(flows, list[1..], i, g);
    GapsAppend(flows[i := g], list[1..], i);
  }

  // Enqueueing.

  function Appended(f: Flow, p: Packet): (r: Flow)
  {
    var g := f.(queue := f.queue + [p], queueBytes := f.queueBytes + |p.data|);
    if f.list == Unlisted then g.(deficit := 0, list := New) else g
  }

  function AfterEnqueue(s: State, i: int, p: Packet): (r: State)
    requires 0 <= i < |s.flows| && |s.book.entries| == |s.flows|
  {
    var e := s.book.entries[i];
    s.(flows := s.flows[i := Appended(s.flows[i], p)],
       newFlows := if s.flows[i].list == Unlisted then s.newFlows + [i] else s.newFlows,
       totals := Totals(s.totals.packets + 1, s.totals.bytes + |p.data|),
       book := s.book.(longest := Max(s.book.longest, |p.data|), entries := s.book.entries[i := e.(arrived := e.arrived + [p.id])],
                       accepted := s.book.accepted + multiset{p.id}))
  }

  lemma LongestGrows(cfg: Config, s: State, longest: int)
    requires Ok(cfg, s) && s.book.longest <= longest
    ensures Ok(cfg, s.(book := s.book.(longest := longest)))
  {
    hide TotalsOk, ListOk, RoundsOk, ResidentsOk, Octets, Credit, Ids, Bytes, Queued, HistoriesOk, After;
  }

  lemma AppendedFlow(cfg: Config, longest: int, f: Flow, e: Entry, p: Packet)
    requires FlowOk(cfg, longest, f) && EntryOk(cfg, longest, f, e) && Octets(p.data) && |p.data| <= longest
    requires |f.queue| < cfg.maxQueueLength && f.queueBytes + |p.data| <= cfg.maxFlowQueueBytes
    ensures FlowOk(cfg, longest, Appended(f, p)) && EntryOk(cfg, longest, Appended(f, p), e.(arrived := e.arrived + [p.id]))
  {
    hide Bytes, Octets, Credit;
    BytesConcat(f.queue, [p]);
    assert Bytes([p]) == |p.data| by { OneBytes(p); }
    IdsConcat(f.queue, [p]);
    assert Ids([p]) == [p.id];
    assert e.departed + Ids(f.queue) + [p.id] == e.departed + (Ids(f.queue) + [p.id]);
  }

  lemma OneBytes(p: Packet)
    ensures Bytes([p]) == |p.data|
  {
  }

  lemma EnqueueStep(cfg: Config, s: State, i: int, p: Packet)
    requires Ok(cfg, s) && 0 <= i < |s.flows| && Octets(p.data)
    requires s.totals.packets + 1 <= cfg.maxTotalPackets && s.totals.bytes + |p.data| <= cfg.maxTotalBytes
    requires |s.flows[i].queue| < cfg.maxQueueLength && s.flows[i].queueBytes + |p.data| <= cfg.maxFlowQueueBytes
    ensures |s.book.entries| == |s.flows| && Ok(cfg, AfterEnqueue(s, i, p))
  {
    hide FlowOk, EntryOk, FlowsOk, EntriesOk, RoundsOk, ResidentsOk, ListOk, TotalsOk, Ids, Bytes, Queued, Octets, HistoriesOk;
    var longest := Max(s.book.longest, |p.data|);
    LongestGrows(cfg, s, longest);
    var t := s.(book := s.book.(longest := longest));
    SlotOf(cfg, t, i);
    AppendedFlow(cfg, longest, t.flows[i], t.book.entries[i], p);
    var d := AfterEnqueue(s, i, p);
    var g := d.flows[i];
    SlotChanges(cfg, t, i, g, d.book.entries[i]);
    ResidentSame(t, i);
    assert i !in s.book.resident ==> s.book.resident - {i} == s.book.resident;
    SameList(s.flows, i, g, s.oldFlows, Old);
    if s.flows[i].list == Unlisted {
      ListGrows(s.flows, i, g, s.newFlows, New);
    } else {
      SameList(s.flows, i, g, s.newFlows, New);
    }
    TotalsMove(cfg, s.flows, s.totals, i, g, d.totals);
    QueuedUpdate(s.flows, i, g);
    IdsConcat(s.flows[i].queue, [p]);
    OneId(p);
    Arrives(s.book.accepted, s.book.delivered + s.book.dropped, Queued(s.flows), Queued(d.flows),
            multiset(Ids(s.flows[i].queue)), p.id);
  }

  lemma OneId(p: Packet)
    ensures Ids([p]) == [p.id]
  {
  }

  lemma Arrives(accepted: multiset<int>, out: multiset<int>, before: multiset<int>, after: multiset<int>, f: multiset<int>, id: int)
    requires accepted == out + before && after + f == before + (f + multiset{id})
    ensures accepted + multiset{id} == out + after
  {
    forall x: int
      ensures after[x] == (before + multiset{id})[x]
    {
      assert (after + f)[x] == (before + (f + multiset{id}))[x];
    }
    assert after == before + multiset{id};
  }

  // Finding a slot.

  predicate Matches(f: Flow, hash: int)
  {
    (f.queue == [] && f.hash == 0) || f.hash == hash
  }

  /** How far linear probing from `start` goes before it looks at slot k. */
  function Distance(start: int, n: int, k: int): (r: int)
  {
    if k >= start then k - start else k - start + n
  }

  /** The first slot in probe order that is free or already carries the hash. */
  ghost predicate IsFirst(flows: seq<Flow>, hash: int, slot: Option<int>)
    requires 0 <= hash
  {
    match slot
    case None => forall k :: 0 <= k < |flows| ==> !Matches(flows[k], hash)
    case Some(i) => 0 <= i < |flows| && Matches(flows[i], hash) &&
                    var start := hash % |flows|;
                    forall k :: 0 <= k < |flows| && Distance(start, |flows|, k) < Distance(start, |flows|, i) ==>
                      !Matches(flows[k], hash)
  }

  method FindFlow(flows: seq<Flow>, hash: int) returns (slot: Option<int>)
    requires 0 <= hash
    ensures IsFirst(flows, hash, slot)
  {
    if flows == [] {
      return None;
    }
    var start := hash % |flows|;
    var at, i := start, 0;
    while i < |flows|
      invariant 0 <= i <= |flows| && 0 <= at < |flows|
      invariant i < |flows| ==> Distance(start, |flows|, at) == i
      invariant forall k :: 0 <= k < |flows| && Distance(start, |flows|, k) < i ==> !Matches(flows[k], hash)
    {
      if Matches(flows[at], hash) {
        return Some(at);
      }
      assert forall k :: 0 <= k < |flows| && Distance(start, |flows|, k) == i ==> k == at;
      at := if at + 1 < |flows| then at + 1 else 0;
      i := i + 1;
    }
    return None;
  }

  function AfterClaim(s: State, i: int, hash: int): (r: State)
    requires 0 <= i < |s.flows|
  {
    s.(flows := s.flows[i := s.flows[i].(hash := hash)])
  }

  lemma ClaimStep(cfg: Config, s: State, i: int, hash: int)
    requires Ok(cfg, s) && 0 <= i < |s.flows|
    ensures Ok(cfg, AfterClaim(s, i, hash))
  {
    hide FlowsOk, EntriesOk, RoundsOk, ResidentsOk, ListOk, TotalsOk, Conserved, Ids, Bytes, Queued, Octets, Credit, HistoriesOk;
    SlotOf(cfg, s, i);
    var g := s.flows[i].(hash := hash);
    var e := s.book.entries[i];
    SlotChanges(cfg, s, i, g, e);
    assert s.book.entries[i := e] == s.book.entries;
    ResidentSame(s, i);
    SameList(s.flows, i, g, s.newFlows, New);
    SameList(s.flows, i, g, s.oldFlows, Old);
    TotalsWithin(cfg, s);
    TotalsMove(cfg, s.flows, s.totals, i, g, s.totals);
    SameQueues(s.flows, i, g, s.book, s.book);
  }

  /** The limits of the whole scheduler, which come first, let the packet in. */
  predicate Admitted(cfg: Config, totals: Totals, lease: Lease)
  {
    lease.Lease? && totals.packets < cfg.maxTotalPackets && totals.bytes + |lease.data| <= cfg.maxTotalBytes
  }

  /** An empty flow has room for the packet. */
  predicate FitsFlow(cfg: Config, lease: Lease)
  {
    lease.Lease? && 1 <= cfg.maxQueueLength && |lease.data| <= cfg.maxFlowQueueBytes
  }

  /** Every slot on no list is free for any flow. */
  ghost predicate Tidy(flows: seq<Flow>)
  {
    forall i :: 0 <= i < |flows| && flows[i].list == Unlisted ==> flows[i].hash == 0
  }

  /** A slot stays tidy as long as it is listed or carries no hash. */
  lemma TidySlot(flows: seq<Flow>, i: int, g: Flow)
    requires Tidy(flows) && 0 <= i < |flows|
    ensures Tidy(flows[i := g]) <==> (g.list == Unlisted ==> g.hash == 0)
  {
    assert flows[i := g][i] == g;
  }

  /** A refused packet leaves its mark on an idle slot exactly if it carries a hash. */
  lemma ClaimTidy(s: State, i: int, hash: int)
    requires Tidy(s.flows) && 0 <= i < |s.flows|
    ensures Tidy(AfterClaim(s, i, hash).flows) <==> (s.flows[i].list == Unlisted ==> hash == 0)
  {
    TidySlot(s.flows, i, s.flows[i].(hash := hash));
  }

  lemma EnqueueTidy(s: State, i: int, hash: int, p: Packet)
    requires 0 <= i < |s.flows| == |s.book.entries|
    ensures Tidy(s.flows) ==> Tidy(AfterEnqueue(AfterClaim(s, i, hash), i, p).flows)
  {
    var claimed := AfterClaim(s, i, hash);
    var g := Appended(claimed.flows[i], p);
    assert claimed.flows[i := g] == s.flows[i := g];
    if Tidy(s.flows) {
      TidySlot(s.flows, i, g);
    }
  }

  lemma IdleFlow(cfg: Config, s: State, i: int)
    requires Ok(cfg, s) && 0 <= i < |s.flows| && s.flows[i].list == Unlisted
    ensures s.flows[i].queue == [] && s.flows[i].queueBytes == 0
  {
    SlotOf(cfg, s, i);
  }

  // Fairness.

  /** A new observation window starts. */
  ghost function Window(s: State): (r: State)
    requires |s.book.entries| == |s.flows|
  {
    s.(book := s.book.(entries := seq(|s.flows|, i requires 0 <= i < |s.flows| =>
                         Entry(s.flows[i].deficit, 0, 0, 0, s.book.entries[i].arrived, s.book.entries[i].departed, s.book.entries[i].exams)),
                       resident := set i | i in s.oldFlows))
  }

  lemma WindowStep(cfg: Config, s: State)
    requires Ok(cfg, s)
    ensures |s.book.entries| == |s.flows| && Ok(cfg, Window(s))
  {
    hide TotalsOk, Queued, Bytes, Octets, PacketsOk;
    var d := Window(s);
    forall i | 0 <= i < |s.flows|
      ensures EntryOk(cfg, s.book.longest, d.flows[i], d.book.entries[i])
    {
      assert EntryOk(cfg, s.book.longest, s.flows[i], s.book.entries[i]);
      assert FlowOk(cfg, s.book.longest, s.flows[i]);
    }
  }

  /** Two slots that have been on the old list for the whole window: their quanta differ by at
      most one, the bytes taken from them by at most three quanta and four packets. */
  lemma FairShares(cfg: Config, s: State, i: int, j: int)
    requires Ok(cfg, s) && i in s.book.resident && j in s.book.resident
    ensures 0 <= i < |s.book.entries| && 0 <= j < |s.book.entries|
    ensures var a, b := s.book.entries[i], s.book.entries[j];
            a.grants - b.grants <= 1 && a.removed - b.removed <= 3 * cfg.quantum + 4 * s.book.longest
  {
    hide TotalsOk, Conserved, Queued, Bytes, Octets, PacketsOk, Credit, FlowOk, EntryOk;
    SlotOf(cfg, s, i);
    SlotOf(cfg, s, j);
    assert i in s.oldFlows && j in s.oldFlows;
    var m :| 0 <= m < |s.oldFlows| && s.oldFlows[m] == i;
    var n :| 0 <= n < |s.oldFlows| && s.oldFlows[n] == j;
    var a, b := s.book.entries[i], s.book.entries[j];
    assert a.grants == a.turn && b.grants == b.turn;
    assert a.turn - b.turn <= 1;
    SharesDiffer(cfg, s.book.longest, s.flows[i], s.flows[j], a, b);
  }

  lemma SharesDiffer(cfg: Config, longest: int, f: Flow, g: Flow, a: Entry, b: Entry)
    requires FlowOk(cfg, longest, f) && FlowOk(cfg, longest, g) && EntryOk(cfg, longest, f, a) && EntryOk(cfg, longest, g, b)
    requires a.grants - b.grants <= 1
    ensures a.removed - b.removed <= 3 * cfg.quantum + 4 * longest
  {
    hide PacketsOk, Bytes, Ids, Credit;
    CreditDiffers(cfg, a.grants, b.grants);
  }

  lemma CreditDiffers(cfg: Config, m: int, n: int)
    requires m - n <= 1
    ensures Credit(cfg, m) - Credit(cfg, n) <= cfg.quantum
  {
    var q := cfg.quantum;
    assert q * m - q * n == q * (m - n);
    if m - n <= 0 {
      assert q * (m - n) <= 0;
    }
  }

  /** The slot was on the old list at every point observed. */
  ghost predicate OnAll(rings: seq<seq<int>>, i: int)
  {
    forall k :: 0 <= k < |rings| ==> i in rings[k]
  }

  lemma OnAllGrows(rings: seq<seq<int>>, ring: seq<int>)
    ensures forall i :: OnAll(rings + [ring], i) ==> OnAll(rings, i) && i in ring
  {
    forall i | OnAll(rings + [ring], i)
      ensures OnAll(rings, i) && i in ring
    {
      assert forall k :: 0 <= k < |rings| ==> (rings + [ring])[k] == rings[k];
      assert (rings + [ring])[|rings|] == ring;
    }
  }

  /** The front of the new list can pay for its head packet, after the quantum it is due, and has
      another packet should CoDel take the first. */
  predicate NewDue(cfg: Config, s: State)
  {
    s.newFlows != [] && 0 <= s.newFlows[0] < |s.flows| &&
    var f := s.flows[s.newFlows[0]];
    |f.queue| >= 2 && |f.queue[0].data| <= f.deficit + (if f.deficit <= 0 then cfg.quantum else 0)
  }

  lemma NothingNew(cfg: Config, s: State)
    ensures s.newFlows == [] ==> !NewDue(cfg, s) && !Starves(cfg, s)
  {
  }

  /** The front of the new list has a packet that no grant will ever pay for. */
  predicate Starves(cfg: Config, s: State)
  {
    cfg.quantum == 0 && s.newFlows != [] && 0 <= s.newFlows[0] < |s.flows| &&
    var f := s.flows[s.newFlows[0]];
    f.queue != [] && f.deficit < |f.queue[0].data|
  }

  /** The front of the old list can pay as it stands. */
  predicate OldDue(s: State)
  {
    s.oldFlows != [] && 0 <= s.oldFlows[0] < |s.flows| &&
    var f := s.flows[s.oldFlows[0]];
    |f.queue| >= 2 && |f.queue[0].data| <= f.deficit
  }

  datatype Event = Arrive(lease: Lease, hash: int, now: nat) | Serve(now: nat)

  /** A lease that entered a slot. */
  datatype Entrant = Entrant(slot: int, id: int)

  function Names(ins: seq<Entrant>): (r: seq<int>)
  {
    seq(|ins|, k requires 0 <= k < |ins| => ins[k].id)
  }

  function Into(ins: seq<Entrant>, slot: int): (r: seq<int>)
  {
    if ins == [] then [] else (if ins[0].slot == slot then [ins[0].id] else []) + Into(ins[1..], slot)
  }

  lemma NamesConcat(a: seq<Entrant>, b: seq<Entrant>)
    ensures Names(a + b) == Names(a) + Names(b)
  {
  }

  lemma {:induction false} IntoConcat(a: seq<Entrant>, b: seq<Entrant>, slot: int)
    ensures Into(a + b, slot) == Into(a, slot) + Into(b, slot)
  {
    if a == [] {
      assert a + b == b;
    } else {
      var head := if a[0].slot == slot then [a[0].id] else [];
      assert (a + b)[1..] == a[1..] + b && (a + b)[0] == a[0];
      IntoConcat(a[1..], b, slot);
      assert head + (Into(a[1..], slot) + Into(b, slot)) == head + Into(a[1..], slot) + Into(b, slot);
    }
  }

  /** The leases of a script that were accepted, in order. */
  function Taken(script: seq<Event>, oks: seq<bool>): (r: seq<int>)
    requires |oks| == |script|
  {
    if script == [] then []
    else
      var k := |script| - 1;
      var e := script[k];
      Taken(script[..k], oks[..k]) + if oks[k] && e.Arrive? && e.lease.Lease? then [e.lease.id] else []
  }

  function OutIds(outs: seq<Out>): (r: seq<int>)
  {
    seq(|outs|, k requires 0 <= k < |outs| => outs[k].id)
  }

  /** Every lease offered fits an empty flow. */
  ghost predicate AllFit(cfg: Config, script: seq<Event>)
  {
    forall k :: 0 <= k < |script| && script[k].Arrive? && script[k].lease.Lease? ==> FitsFlow(cfg, script[k].lease)
  }

  ghost predicate Ticking(script: seq<Event>)
  {
    forall j, k :: 0 <= j < k < |script| ==> script[j].now <= script[k].now
  }

  class FqCoDelScheduler {
    const config: Config
    var flows: seq<Flow>
    var newFlows: seq<int>
    var oldFlows: seq<int>
    var totals: Totals
    ghost var book: Book

    ghost function View(): (s: State)
      reads this
    {
      State(flows, newFlows, oldFlows, totals, book)
    }

    ghost predicate Valid()
      reads this
    {
      Ok(config, View())
    }

    constructor (config: Config, maxFlows: nat)
      ensures Valid() && totals == Totals(0, 0) && newFlows == oldFlows == [] && this.config == config
      ensures |flows| == maxFlows && forall i :: 0 <= i < |flows| ==> flows[i] == IDLE
      ensures forall clock: nat :: Timed(View(), clock)
      ensures Tidy(flows)
    {
      this.config := config;
      flows := seq(maxFlows, _ => IDLE);
      newFlows, oldFlows, totals := [], [], Totals(0, 0);
      book := Book(0, seq(maxFlows, _ => Entry(0, 0, 0, 0, [], [], [])), {}, multiset{}, multiset{}, multiset{}, []);
      new;
      FreshTimed(View());
      hide Ok, Timed;
      FreshOk(config, View());
    }

    method Enqueue(lease: Lease, hash: int, now: nat) returns (ok: bool, ghost slot: Option<int>)
      requires Valid() && 0 <= hash && (lease.Lease? ==> Octets(lease.data))
      modifies this
      ensures Valid() && IsFirst(old(flows), hash, slot)
      ensures ok <==> slot.Some? && Admitted(config, old(totals), lease) &&
                      |old(flows)[slot.value].queue| < config.maxQueueLength &&
                      old(flows)[slot.value].queueBytes + |lease.data| <= config.maxFlowQueueBytes
      ensures ok ==> |old(book).entries| == |old(flows)| &&
                     View() == AfterEnqueue(AfterClaim(old(View()), slot.value, hash), slot.value, Packet(lease.id, lease.data, now))
      ensures !ok ==> View() == if slot.Some? && Admitted(config, old(totals), lease) then AfterClaim(old(View()), slot.value, hash)
                                else old(View())
      ensures old(Tidy(flows)) ==>
                (Tidy(flows) <==> !(slot.Some? && Admitted(config, old(totals), lease) && hash != 0 &&
                                    old(flows)[slot.value].list == Unlisted && !FitsFlow(config, lease)))
      ensures ok ==> Moves(old(View()), View(), [Entrant(slot.value, lease.id)])
      ensures !ok ==> Moves(old(View()), View(), [])
      ensures Timed(old(View()), now) ==> Timed(View(), now)
    {
      hide Ok, IsFirst, Moves, Timed, Tidy;
      ghost var before := View();
      NothingMoves(config, before);
      var found := FindFlow(flows, hash);
      slot := found;
      if lease.NoLease? {
        return false, slot;
      }
      if totals.packets + 1 > config.maxTotalPackets || totals.bytes + |lease.data| > config.maxTotalBytes {
        return false, slot;
      }
      if found.None? {
        return false, slot;
      }
      var i := found.value;
      assert 0 <= i < |flows| by { SlotInRange(flows, hash, found); }
      ClaimMoves(config, before, i, hash, now);
      flows := flows[i := flows[i].(hash := hash)];
      if |flows[i].queue| >= config.maxQueueLength || flows[i].queueBytes + |lease.data| > config.maxFlowQueueBytes {
        return false, slot;
      }
      ghost var claimed := View();
      var pkt := Packet(lease.id, lease.data, now);
      EnqueueMoves(config, before, claimed, i, pkt, now);
      EnqueueTidy(before, i, hash, pkt);
      var inactive := flows[i].list == Unlisted;
      flows := flows[i := flows[i].(queue := flows[i].queue + [pkt], queueBytes := flows[i].queueBytes + |lease.data|)];
      totals := Totals(totals.packets + 1, totals.bytes + |lease.data|);
      if inactive {
        flows := flows[i := flows[i].(deficit := 0, list := New)];
        newFlows := newFlows + [i];
      }
      book := AfterEnqueue(claimed, i, pkt).book;
      assert View() == AfterEnqueue(claimed, i, pkt);
      ok := true;
    }

    method ServeFlow(i: int, now: nat) returns (out: Option<Out>)
      requires Valid() && 0 <= i < |flows| && flows[i].list != Unlisted && flows[i].queue != []
      requires flows[i].deficit >= |flows[i].queue[0].data|
      modifies this`flows, this`totals, this`book
      ensures Valid() && newFlows == old(newFlows) && oldFlows == old(oldFlows)
      ensures out.None? ==> |flows| > i && flows[i].queue == [] && |old(flows)[i].queue| <= 1
      ensures Onward(old(View()), View(), now) && book.resident == old(book.resident)
      ensures out.Some? ==> Delivered(old(View()), View(), i, out.value)
      ensures out.None? ==> Quiet(old(View()), View())
      ensures |flows| == |old(flows)| && flows[i].list == old(flows)[i].list
    {
      hide Ok, Served, Onward, Quiet, Delivered, Visited, Decisions, Exams, Ids, Bytes, PacketsOk;
      ghost var s := View();
      PacketsOf(config, s, i);
      var g, o;
      ghost var dropped, gone;
      g, o, dropped, gone := FqFlows.ServeFlow(config, flows[i], now, book.longest);
      ServeStep(config, s, i, now, g, o, dropped, gone);
      ServedFacts(config, s, i, now, g, o, dropped, gone);
      totals := Totals(totals.packets - (|flows[i].queue| - |g.queue|), totals.bytes - (flows[i].queueBytes - g.queueBytes));
      flows := flows[i := g];
      book := AfterServe(s, i, now, g, o, dropped, gone).book;
      assert View() == AfterServe(s, i, now, g, o, dropped, gone);
      out := o;
    }

    method ReleaseFront(kind: FlowList, ghost now: nat)
      requires Valid() && kind != Unlisted
      requires kind == New ==> newFlows != [] && 0 <= newFlows[0] < |flows| && flows[newFlows[0]].queue == []
      requires kind == Old ==> oldFlows != [] && 0 <= oldFlows[0] < |flows| && flows[oldFlows[0]].queue == []
      modifies this`flows, this`newFlows, this`oldFlows, this`book
      ensures Valid() && |old(book).entries| == |old(flows)| && View() == AfterRelease(old(View()), kind)
      ensures Onward(old(View()), View(), now) && Quiet(old(View()), View())
    {
      hide Ok, Onward, Quiet;
      ghost var t := View();
      ReleaseStep(config, t, kind);
      SlotOnward(t, AfterRelease(t, kind), if kind == New then newFlows[0] else oldFlows[0], now);
      if kind == New {
        flows := flows[newFlows[0] := IDLE];
        newFlows := newFlows[1..];
      } else {
        flows := flows[oldFlows[0] := IDLE];
        oldFlows := oldFlows[1..];
      }
      book := AfterRelease(t, kind).book;
    }

    method CreditNew(i: int, ghost now: nat)
      requires Valid() && 0 <= i < |flows| && flows[i].list == New && flows[i].deficit <= 0
      modifies this`flows, this`book
      ensures Valid() && |old(book).entries| == |old(flows)| && View() == AfterCredit(config, old(View()), i)
      ensures Onward(old(View()), View(), now) && Quiet(old(View()), View())
    {
      hide Ok, Onward, Quiet;
      ghost var t := View();
      CreditStep(config, t, i);
      SlotOnward(t, AfterCredit(config, t, i), i, now);
      flows := flows[i := flows[i].(deficit := flows[i].deficit + config.quantum)];
      book := AfterCredit(config, t, i).book;
    }

    method MatureFront(ghost now: nat)
      requires Valid() && newFlows != []
      modifies this`flows, this`newFlows, this`oldFlows, this`book
      ensures Valid() && newFlows == old(newFlows)[1..] && oldFlows == old(oldFlows) + [old(newFlows)[0]]
      ensures var i := old(newFlows)[0]; 0 <= i < |old(flows)| && flows == old(flows)[i := old(flows)[i].(list := Old)]
      ensures Onward(old(View()), View(), now) && Quiet(old(View()), View()) && book.resident == old(book.resident)
    {
      hide Ok, Onward, Quiet;
      ghost var t := View();
      MatureStep(config, t);
      var i := newFlows[0];
      SlotOnward(t, AfterMature(t), i, now);
      newFlows := newFlows[1..];
      flows := flows[i := flows[i].(list := Old)];
      oldFlows := oldFlows + [i];
      book := AfterMature(t).book;
      assert View() == AfterMature(t);
    }

    method GrantFront(ghost now: nat)
      requires Valid() && oldFlows != [] && 0 <= oldFlows[0] < |flows|
      requires var f := flows[oldFlows[0]]; f.queue != [] && f.deficit < |f.queue[0].data|
      modifies this`flows, this`oldFlows, this`book
      ensures Valid() && |old(book).entries| == |old(flows)| && View() == AfterGrant(config, old(View()))
      ensures Onward(old(View()), View(), now) && Quiet(old(View()), View())
    {
      hide Ok, Onward, Quiet;
      ghost var t := View();
      GrantStep(config, t);
      FrontOf(config, t);
      var i := oldFlows[0];
      SlotOnward(t, AfterGrant(config, t), i, now);
      flows := flows[i := flows[i].(deficit := flows[i].deficit + config.quantum)];
      oldFlows := oldFlows[1..] + [i];
      book := AfterGrant(config, t).book;
      assert View() == AfterGrant(config, t);
    }

    /** One visit to the front of the new list: it is released, matures, or is served. */
    method VisitNew(now: nat) returns (out: Option<Out>)
      requires Valid() && newFlows != []
      modifies this`flows, this`newFlows, this`oldFlows, this`totals, this`book
      ensures Valid() && Onward(old(View()), View(), now) && book.resident == old(book.resident)
      ensures out.None? ==> newFlows == old(newFlows)[1..] && Quiet(old(View()), View())
      ensures out.Some? ==> Delivered(old(View()), View(), old(newFlows)[0], out.value)
      ensures NewDue(config, old(View())) ==> out.Some?
      ensures Starves(config, old(View())) ==>
                out.None? && oldFlows == old(oldFlows) + [old(newFlows)[0]] && 0 <= old(newFlows)[0] < |flows| == |old(flows)| &&
                flows[old(newFlows)[0]] == old(flows)[old(newFlows)[0]].(list := Old)
    {
      hide Ok, Onward, Delivered, Quiet;
      ghost var s := View();
      OnwardSelf(config, s, now);
      var i := newFlows[0];
      FrontOf(config, s);
      if flows[i].queue == [] {
        ReleaseFront(New, now);
        return None;
      }
      if flows[i].deficit <= 0 {
        CreditNew(i, now);
      }
      ghost var u := View();
      if flows[i].deficit < |flows[i].queue[0].data| {
        MatureFront(now);
        OnwardChain(s, u, View(), now);
        return None;
      }
      out := ServeFlow(i, now);
      ghost var v := View();
      OnwardChain(s, u, v, now);
      FrontOf(config, v);
      if flows[i].queue == [] {
        ReleaseFront(New, now);
        OnwardChain(s, v, View(), now);
      }
    }

    /** The new-list loop: strict priority over old flows. */
    method DequeueNew(now: nat) returns (out: Option<Out>, ghost from: int)
      requires Valid()
      modifies this`flows, this`newFlows, this`oldFlows, this`totals, this`book
      ensures Valid() && Onward(old(View()), View(), now) && book.resident == old(book.resident)
      ensures out.None? ==> newFlows == [] && Quiet(old(View()), View())
      ensures out.Some? ==> from in old(newFlows) && Delivered(old(View()), View(), from, out.value)
      ensures NewDue(config, old(View())) ==> out.Some? && from == old(newFlows)[0]
      ensures old(newFlows) == [] ==> View() == old(View())
      ensures Starves(config, old(View())) && |old(newFlows)| == 1 && old(oldFlows) == [] ==>
                out.None? && oldFlows == old(newFlows) && 0 <= oldFlows[0] < |flows| == |old(flows)| &&
                flows[oldFlows[0]] == old(flows)[oldFlows[0]].(list := Old)
    {
      hide Ok, Onward, Delivered, NewDue, Quiet, Starves;
      ghost var s := View();
      OnwardSelf(config, s, now);
      from := 0;
      while newFlows != []
        invariant Valid() && Onward(s, View(), now) && Quiet(s, View()) && book.resident == s.book.resident
        invariant forall k :: 0 <= k < |newFlows| ==> newFlows[k] in s.newFlows
        invariant View() == s || (s.newFlows != [] && !NewDue(config, s))
        invariant Starves(config, s) && |s.newFlows| == 1 && s.oldFlows == [] ==>
                    View() == s || (newFlows == [] && oldFlows == s.newFlows && 0 <= oldFlows[0] < |flows| == |s.flows| &&
                                    flows[oldFlows[0]] == s.flows[oldFlows[0]].(list := Old))
        decreases |newFlows|
      {
        ghost var t := View();
        from := newFlows[0];
        out := VisitNew(now);
        OnwardChain(s, t, View(), now);
        if out.Some? {
          return;
        }
      }
      assert newFlows == [] && View() == s ==> !NewDue(config, s) && !Starves(config, s) by { NothingNew(config, s); }
      out := None;
    }

    /** The old-list loop: deficit round robin. With a quantum it ends, because every grant brings some
        head packet closer to being paid for. */
    method DequeueOld(now: nat) returns (out: Option<Out>, ghost from: int)
      requires Valid() && newFlows == [] && config.quantum > 0
      modifies this`flows, this`newFlows, this`oldFlows, this`totals, this`book
      ensures Valid() && Onward(old(View()), View(), now) && newFlows == []
      ensures book.resident <= old(book.resident)
      ensures forall k :: k in old(book.resident) && k in oldFlows ==> k in book.resident
      ensures out.None? ==> oldFlows == [] && Quiet(old(View()), View())
      ensures out.Some? ==> oldFlows != [] && from == oldFlows[0] && Delivered(old(View()), View(), from, out.value)
      ensures OldDue(old(View())) ==> out.Some? && from == old(oldFlows)[0]
    {
      hide Ok, Onward, Delivered, Quiet;
      ghost var s := View();
      OnwardSelf(config, s, now);
      from := 0;
      ghost var measure := OldGaps(config, s);
      while oldFlows != []
        invariant Valid() && Onward(s, View(), now) && newFlows == [] && Quiet(s, View())
        invariant View() == s || !OldDue(s)
        invariant book.resident <= s.book.resident
        invariant forall k :: k in s.book.resident && k in oldFlows ==> k in book.resident
        invariant measure == OldGaps(config, View())
        decreases |oldFlows|, measure
      {
        ghost var t := View();
        var i := oldFlows[0];
        FrontOf(config, t);
        if flows[i].queue == [] {
          ReleaseFront(Old, now);
          OnwardChain(s, t, View(), now);
          measure := OldGaps(config, View());
          continue;
        }
        if flows[i].deficit < |flows[i].queue[0].data| {
          GrantFront(now);
          OnwardChain(s, t, View(), now);
          GapsShrink(config, t);
          measure := OldGaps(config, View());
          continue;
        }
        out := ServeFlow(i, now);
        ghost var v := View();
        OnwardChain(s, t, v, now);
        FrontOf(config, v);
        if out.Some? {
          from := i;
          return;
        }
        ReleaseFront(Old, now);
        OnwardChain(s, v, View(), now);
        measure := OldGaps(config, View());
      }
      out := None;
    }

    /** New flows first, then old ones; nothing comes back only when nothing is queued. */
    method Dequeue(now: nat) returns (out: Option<Out>, ghost from: int)
      requires Valid() && config.quantum > 0
      modifies this
      ensures Valid() && Onward(old(View()), View(), now)
      ensures out.None? ==> totals == Totals(0, 0) && newFlows == oldFlows == [] && Quiet(old(View()), View())
      ensures out.Some? ==> Delivered(old(View()), View(), from, out.value)
      ensures out.Some? ==> from in old(newFlows) || (newFlows == [] && oldFlows != [] && from == oldFlows[0])
      ensures NewDue(config, old(View())) ==> out.Some? && from == old(newFlows)[0]
      ensures old(newFlows) == [] && OldDue(old(View())) ==> out.Some? && from == old(oldFlows)[0]
      ensures book.resident <= old(book.resident)
      ensures forall k :: k in old(book.resident) && k in oldFlows ==> k in book.resident
    {
      hide Ok, Onward, Delivered, Quiet, Starves;
      ghost var s := View();
      out, from := DequeueNew(now);
      if out.Some? {
        return;
      }
      ghost var t := View();
      out, from := DequeueOld(now);
      OnwardChain(s, t, View(), now);
      if out.None? {
        EmptyTotals(config, View());
      }
    }

    method Step(e: Event) returns (ok: bool, out: Option<Out>, ghost ins: seq<Entrant>)
      requires Valid() && config.quantum > 0
      requires e.Arrive? ==> 0 <= e.hash && (e.lease.Lease? ==> Octets(e.lease.data))
      modifies this
      ensures Valid() && forall k :: k in old(book.resident) && k in oldFlows ==> k in book.resident
      ensures Moves(old(View()), View(), ins) && (Timed(old(View()), e.now) ==> Timed(View(), e.now))
      ensures Names(ins) == if ok && e.Arrive? && e.lease.Lease? then [e.lease.id] else []
      ensures old(Tidy(flows)) && (e.Arrive? && e.lease.Lease? ==> FitsFlow(config, e.lease)) ==> Tidy(flows)
      ensures Picked(Added(old(View()), View()), Sent) == if out.Some? then [out.value.id] else []
    {
      hide Ok, Onward, Delivered, IsFirst, NewDue, OldDue, Moves, Timed, Picked, Quiet, Tidy, FitsFlow;
      ok, out, ins := false, None, [];
      ghost var s := View();
      match e {
        case Arrive(lease, hash, now) =>
          ghost var slot;
          ok, slot := Enqueue(lease, hash, now);
          if ok {
            ins := [Entrant(slot.value, lease.id)];
          }
          SameLog(s, View());
        case Serve(now) =>
          ghost var from;
          out, from := Dequeue(now);
          OnwardMoves(s, View(), now);
          SentMeans(s, View());
          assert Names([]) == [];
      }
    }

    method RunEvents(script: seq<Event>, ghost start: nat)
      returns (outs: seq<Out>, oks: seq<bool>, ghost ins: seq<Entrant>, ghost rings: seq<seq<int>>)
      requires Valid() && config.quantum > 0
      requires forall e :: e in script && e.Arrive? ==> 0 <= e.hash && (e.lease.Lease? ==> Octets(e.lease.data))
      requires book.resident == set i | i in oldFlows
      modifies this
      ensures Valid() && |oks| == |script| && Names(ins) == Taken(script, oks)
      ensures Moves(old(View()), View(), ins) && OutIds(outs) == Picked(Added(old(View()), View()), Sent)
      ensures |rings| == |script| + 1 && rings[0] == old(oldFlows) && rings[|script|] == oldFlows
      ensures forall i :: OnAll(rings, i) ==> i in book.resident
      ensures script != [] && Ticking(script) && start <= script[0].now && Timed(old(View()), start) ==>
                Timed(View(), script[|script| - 1].now)
      ensures old(Tidy(flows)) && AllFit(config, script) ==> Tidy(flows)
    {
      hide Octets, Ok, Moves, Timed, Picked, Names, Tidy, FitsFlow;
      ghost var s := View();
      outs, oks, ins, rings := [], [], [], [oldFlows];
      NothingMoves(config, s);
      assert forall i :: OnAll(rings, i) ==> i in rings[0];
      for k := 0 to |script|
        invariant Valid() && |rings| == k + 1 && rings[0] == s.oldFlows && rings[k] == oldFlows
        invariant forall i :: OnAll(rings, i) ==> i in book.resident
        invariant Moves(s, View(), ins) && OutIds(outs) == Picked(Added(s, View()), Sent)
        invariant |oks| == k && Names(ins) == Taken(script[..k], oks)
        invariant Tidy(s.flows) && AllFit(config, script) ==> Tidy(flows)
        invariant Ticking(script) && script != [] && start <= script[0].now && Timed(s, start) ==>
                    Timed(View(), if k == 0 then start else script[k - 1].now)
      {
        assert script[k] in script;
        ghost var t := View();
        if Ticking(script) && start <= script[0].now && Timed(s, start) {
          TimedLaterState(t, if k == 0 then start else script[k - 1].now, script[k].now);
        }
        var ok, out;
        ghost var more;
        ok, out, more := Step(script[k]);
        MovesChain(s, t, View(), ins, more);
        PickedConcat(Added(s, t), Added(t, View()), Sent);
        NamesConcat(ins, more);
        TakenGrows(script, oks, k, ok);
        ins, oks := ins + more, oks + [ok];
        if out.Some? {
          OutsGrow(outs, out.value);
          outs := outs + [out.value];
        }
        OnAllGrows(rings, oldFlows);
        rings := rings + [oldFlows];
      }
      assert script[..|script|] == script;
    }

    /** Any run of arrivals and services: the invariant holds throughout; every accepted lease is
        queued, delivered once or dropped once; what is handed out is what the log says was sent,
        each slot giving up its leases in the order they came; slots that never left the old list
        were served fairly; and with a clock that does not go back every drop and every mark obeyed
        the laws of CoDel. */
    method Run(script: seq<Event>) returns (outs: seq<Out>, oks: seq<bool>, ghost ins: seq<Entrant>, ghost rings: seq<seq<int>>)
      requires Valid() && config.quantum > 0
      requires forall e :: e in script && e.Arrive? ==> 0 <= e.hash && (e.lease.Lease? ==> Octets(e.lease.data))
      modifies this
      ensures Valid()
      ensures book.accepted == book.delivered + book.dropped + Queued(flows)
      ensures |oks| == |script| && Names(ins) == Taken(script, oks)
      ensures Moves(old(View()), View(), ins) && OutIds(outs) == Picked(Added(old(View()), View()), Sent)
      ensures InOrder(View())
      ensures Fair(config, book)
      ensures |rings| == |script| + 1 && rings[0] == old(oldFlows) && rings[|script|] == oldFlows
      ensures forall i :: OnAll(rings, i) ==> i in book.resident
      ensures script != [] && Ticking(script) && Timed(old(View()), script[0].now) ==>
                Timed(View(), script[|script| - 1].now) && forall m :: 0 <= m < |book.log| ==> Lawful(config.codel, book.log[m])
      ensures old(Tidy(flows)) && AllFit(config, script) ==> Tidy(flows)
    {
      hide Octets, Ok, Moves, Timed, Picked, Names, Queued, InOrder, Fair, Lawful, Tidy, AllFit;
      ghost var was := View();
      WindowStep(config, was);
      book := Window(was).book;
      ghost var s := View();
      WindowMoves(config, was);
      hide Window, SameBooks;
      assert s == Window(was);
      ghost var start := if script == [] then 0 else script[0].now;
      outs, oks, ins, rings := RunEvents(script, start);
      MovesFrom(was, s, View(), ins);
      ConservedOf(config, View());
      FairAll(config, View());
      if script != [] && Ticking(script) && Timed(was, start) {
        LogLaws(config, View(), script[|script| - 1].now);
      }
    }

    /** Back to the initial state; what was queued is released. */
    method Reset()
      requires Valid()
      modifies this
      ensures Valid() && totals == Totals(0, 0) && newFlows == oldFlows == []
      ensures |flows| == |old(flows)| && forall i :: 0 <= i < |flows| ==> flows[i] == IDLE
      ensures book.accepted == old(book.accepted) && book.delivered == old(book.delivered)
      ensures book.dropped == old(book.dropped) + Queued(old(flows))
    {
      ghost var s := View();
      flows := seq(|flows|, _ => IDLE);
      newFlows, oldFlows, totals := [], [], Totals(0, 0);
      book := AfterReset(s);
      ResetStep(config, s, View());
    }
  }

  // ---------------------------------------------------------------------------------
  // What every step of a Dequeue leaves alone.
  // ---------------------------------------------------------------------------------

  /** The decisions taken on the way from s to d. */
  function Added(s: State, d: State): (r: seq<Decision>)
  {
    if |s.book.log| <= |d.book.log| then d.book.log[|s.book.log|..] else []
  }

  /** From s to d the leases `ins` came in. Every other lease that moved has a decision in the log,
      each slot gave up its leases in the order of the log, and the totals follow. */
  ghost predicate Moves(s: State, d: State, ins: seq<Entrant>)
  {
    && |d.flows| == |s.flows| && |d.book.entries| == |s.book.entries| == |s.flows| && s.book.log <= d.book.log
    && d.book.accepted == s.book.accepted + multiset(Names(ins))
    && d.book.delivered == s.book.delivered + multiset(Picked(Added(s, d), Sent))
    && d.book.dropped == s.book.dropped + multiset(Picked(Added(s, d), Lost))
    && forall k :: 0 <= k < |s.flows| ==>
         d.book.entries[k].arrived == s.book.entries[k].arrived + Into(ins, k) &&
         d.book.entries[k].departed == s.book.entries[k].departed + Picked(Added(s, d), From(k))
  }

  lemma Associates(x: multiset<int>, a: seq<int>, b: seq<int>)
    ensures x + multiset(a + b) == x + multiset(a) + multiset(b)
  {
    assert multiset(a + b) == multiset(a) + multiset(b);
    assert x + (multiset(a) + multiset(b)) == x + multiset(a) + multiset(b);
  }

  lemma MovesChain(s: State, t: State, d: State, a: seq<Entrant>, b: seq<Entrant>)
    requires Moves(s, t, a) && Moves(t, d, b)
    ensures Moves(s, d, a + b) && Added(s, d) == Added(s, t) + Added(t, d)
  {
    hide Picked, Into, Names;
    var x, y := Added(s, t), Added(t, d);
    assert Added(s, d) == x + y;
    NamesConcat(a, b);
    PickedConcat(x, y, Sent);
    PickedConcat(x, y, Lost);
    Associates(s.book.accepted, Names(a), Names(b));
    Associates(s.book.delivered, Picked(x, Sent), Picked(y, Sent));
    Associates(s.book.dropped, Picked(x, Lost), Picked(y, Lost));
    forall k | 0 <= k < |s.flows|
      ensures d.book.entries[k].arrived == s.book.entries[k].arrived + Into(a + b, k)
      ensures d.book.entries[k].departed == s.book.entries[k].departed + Picked(x + y, From(k))
    {
      IntoConcat(a, b, k);
      PickedConcat(x, y, From(k));
    }
  }

  /** Inside one Dequeue. */
  ghost predicate Onward(s: State, d: State, now: nat)
  {
    Moves(s, d, []) && d.book.longest == s.book.longest && (Timed(s, now) ==> Timed(d, now)) && (Tidy(s.flows) ==> Tidy(d.flows))
  }

  /** No packet was handed out. */
  ghost predicate Quiet(s: State, d: State)
  {
    |s.book.log| <= |d.book.log| && Picked(Added(s, d), Sent) == []
  }

  /** One packet was handed out, and it is the one the last decision was about. */
  ghost predicate Delivered(s: State, d: State, from: int, o: Out)
  {
    && |s.book.log| < |d.book.log| && Picked(Added(s, d), Sent) == [o.id]
    && var last := d.book.log[|d.book.log| - 1];
       last.slot == from && Delivers(last.packet, o) && last.fate == if o.ceMarked then Marked else Passed
  }

  lemma OnwardSelf(cfg: Config, s: State, now: nat)
    requires Ok(cfg, s)
    ensures Onward(s, s, now) && Quiet(s, s)
  {
    assert Added(s, s) == [];
  }

  lemma OnwardChain(s: State, t: State, d: State, now: nat)
    requires Onward(s, t, now) && Onward(t, d, now)
    ensures Onward(s, d, now)
    ensures Quiet(s, t) && Quiet(t, d) ==> Quiet(s, d)
    ensures forall from: int, o: Out :: Quiet(s, t) && Delivered(t, d, from, o) ==> Delivered(s, d, from, o)
    ensures forall from: int, o: Out :: Delivered(s, t, from, o) && d.book.log == t.book.log ==> Delivered(s, d, from, o)
  {
    ChainMoves(s, t, d, now);
    hide Onward, Picked, Delivered, Delivers;
    PickedConcat(Added(s, t), Added(t, d), Sent);
    forall from: int, o: Out | Quiet(s, t) && Delivered(t, d, from, o)
      ensures Delivered(s, d, from, o)
    {
      DeliveredLater(s, t, d, from, o);
    }
    forall from: int, o: Out | Delivered(s, t, from, o) && d.book.log == t.book.log
      ensures Delivered(s, d, from, o)
    {
      DeliveredStays(s, t, d, from, o);
    }
  }

  lemma DeliveredLater(s: State, t: State, d: State, from: int, o: Out)
    requires Quiet(s, t) && Delivered(t, d, from, o) && Added(s, d) == Added(s, t) + Added(t, d)
    ensures Delivered(s, d, from, o)
  {
    PickedConcat(Added(s, t), Added(t, d), Sent);
    hide Picked, Delivers;
  }

  lemma DeliveredStays(s: State, t: State, d: State, from: int, o: Out)
    requires Delivered(s, t, from, o) && d.book.log == t.book.log
    ensures Delivered(s, d, from, o)
  {
    hide Picked, Delivers;
  }

  lemma ChainMoves(s: State, t: State, d: State, now: nat)
    requires Onward(s, t, now) && Onward(t, d, now)
    ensures Onward(s, d, now) && Added(s, d) == Added(s, t) + Added(t, d)
    ensures |s.book.log| <= |t.book.log| <= |d.book.log|
  {
    hide Timed, Picked, Tidy;
    var none: seq<Entrant> := [];
    assert none + none == none;
    assert |s.book.log| <= |t.book.log| <= |d.book.log|;
    hide Moves;
    MovesChain(s, t, d, none, none);
  }

  /** A slot changes, but neither its queue nor, unless both are cleared, its examinations. */
  lemma SlotMoves(s: State, d: State, i: int, now: nat)
    requires OneSlot(s, d, i)
    ensures Moves(s, d, []) && (Timed(s, now) ==> Timed(d, now)) && Quiet(s, d)
  {
    assert Added(s, d) == [];
    hide LogTimed;
    assert SlotTimed([], [], now);
    hide SlotTimed;
    if Timed(s, now) {
      assert SlotTimed(s.flows[i].queue, s.book.entries[i].exams, now);
    }
  }

  ghost predicate OneSlot(s: State, d: State, i: int)
  {
    && |s.flows| == |d.flows| == |s.book.entries| == |d.book.entries| && 0 <= i < |s.flows|
    && d.book.log == s.book.log && d.book.longest == s.book.longest && d.book.accepted == s.book.accepted
    && d.book.delivered == s.book.delivered && d.book.dropped == s.book.dropped
    && (forall k :: 0 <= k < |s.flows| && k != i ==> d.flows[k] == s.flows[k] && d.book.entries[k] == s.book.entries[k])
    && d.flows[i].queue == s.flows[i].queue
    && d.book.entries[i].arrived == s.book.entries[i].arrived && d.book.entries[i].departed == s.book.entries[i].departed
    && (d.book.entries[i].exams == s.book.entries[i].exams || (d.book.entries[i].exams == [] && d.flows[i].queue == []))
  }

  lemma SlotOnward(s: State, d: State, i: int, now: nat)
    requires OneSlot(s, d, i) && (d.flows[i].list == Unlisted ==> d.flows[i].hash == 0)
    ensures Onward(s, d, now) && Quiet(s, d)
  {
    hide Moves, Timed, Quiet;
    SlotMoves(s, d, i, now);
  }

  lemma ArrivalMoves(s: State, i: int, p: Packet, now: nat)
    requires 0 <= i < |s.flows| && |s.book.entries| == |s.flows| && p.at == now
    ensures Moves(s, AfterEnqueue(s, i, p), [Entrant(i, p.id)])
    ensures Timed(s, now) ==> Timed(AfterEnqueue(s, i, p), now)
  {
    hide LogTimed, SlotTimed, Picked, Into, Names;
    var d := AfterEnqueue(s, i, p);
    assert Added(s, d) == [];
    NonePicked();
    forall k | 0 <= k < |s.flows|
      ensures d.book.entries[k].arrived == s.book.entries[k].arrived + Into([Entrant(i, p.id)], k)
      ensures d.book.entries[k].departed == s.book.entries[k].departed + Picked([], From(k))
    {
      OneInto(i, p.id, k);
    }
    OneInto(i, p.id, i);
    if Timed(s, now) {
      TimedPush(s.flows[i].queue, s.book.entries[i].exams, p, now);
    }
  }

  lemma OneInto(i: int, id: int, k: int)
    ensures Into([Entrant(i, id)], k) == if k == i then [id] else []
    ensures Names([Entrant(i, id)]) == [id]
  {
    assert [Entrant(i, id)][1..] == [];
  }

  lemma NonePicked()
    ensures forall w: Which :: Picked([], w) == []
  {
  }

  lemma ClaimMoves(cfg: Config, s: State, i: int, hash: int, now: nat)
    requires Ok(cfg, s) && 0 <= i < |s.flows|
    ensures Ok(cfg, AfterClaim(s, i, hash)) && Moves(s, AfterClaim(s, i, hash), [])
    ensures Timed(s, now) ==> Timed(AfterClaim(s, i, hash), now)
    ensures Tidy(s.flows) ==> (Tidy(AfterClaim(s, i, hash).flows) <==> (s.flows[i].list == Unlisted ==> hash == 0))
    ensures s.flows[i].list == Unlisted ==> s.flows[i].queue == [] && s.flows[i].queueBytes == 0
    ensures |s.book.entries| == |s.flows|
  {
    if s.flows[i].list == Unlisted {
      IdleFlow(cfg, s, i);
    }
    if Tidy(s.flows) {
      ClaimTidy(s, i, hash);
    }
    ClaimStep(cfg, s, i, hash);
    SlotOf(cfg, s, i);
    hide Ok, Moves, Timed, Quiet;
    SlotMoves(s, AfterClaim(s, i, hash), i, now);
  }

  lemma EnqueueMoves(cfg: Config, before: State, s: State, i: int, p: Packet, now: nat)
    requires Ok(cfg, s) && 0 <= i < |s.flows| && Octets(p.data) && p.at == now
    requires Moves(before, s, []) && (Timed(before, now) ==> Timed(s, now))
    requires s.totals.packets + 1 <= cfg.maxTotalPackets && s.totals.bytes + |p.data| <= cfg.maxTotalBytes
    requires |s.flows[i].queue| < cfg.maxQueueLength && s.flows[i].queueBytes + |p.data| <= cfg.maxFlowQueueBytes
    ensures |s.book.entries| == |s.flows| && Ok(cfg, AfterEnqueue(s, i, p))
    ensures Moves(before, AfterEnqueue(s, i, p), [Entrant(i, p.id)])
    ensures Timed(before, now) ==> Timed(AfterEnqueue(s, i, p), now)
  {
    hide Ok, Moves, Timed, Octets;
    EnqueueStep(cfg, s, i, p);
    ArrivalMoves(s, i, p, now);
    MovesChain(before, s, AfterEnqueue(s, i, p), [], [Entrant(i, p.id)]);
    assert [] + [Entrant(i, p.id)] == [Entrant(i, p.id)];
  }

  lemma TimedLaterState(s: State, clock: nat, now: nat)
    requires Timed(s, clock) && clock <= now
    ensures Timed(s, now)
  {
    hide SlotTimed, LogTimed;
    forall i | 0 <= i < |s.flows|
      ensures SlotTimed(s.flows[i].queue, s.book.entries[i].exams, now)
    {
      TimedLater(s.flows[i].queue, s.book.entries[i].exams, clock, now);
    }
  }

  /** The fronts of the lists are slots of the right kind, and a new one is no resident. */
  lemma FrontOf(cfg: Config, s: State)
    requires Ok(cfg, s)
    ensures |s.book.entries| == |s.flows|
    ensures s.newFlows != [] ==> 0 <= s.newFlows[0] < |s.flows| && s.flows[s.newFlows[0]].list == New &&
                                 s.book.resident - {s.newFlows[0]} == s.book.resident
    ensures s.oldFlows != [] ==> 0 <= s.oldFlows[0] < |s.flows| && s.flows[s.oldFlows[0]].list == Old &&
                                 s.oldFlows[0] !in s.oldFlows[1..]
  {
    hide FlowOk, EntryOk, TotalsOk, Conserved, RoundsOk;
  }

  ghost function OldGaps(cfg: Config, s: State): (r: nat)
    requires Ok(cfg, s)
  {
    Gaps(s.flows, s.oldFlows)
  }

  lemma GapsShrink(cfg: Config, s: State)
    requires Ok(cfg, s) && s.oldFlows != [] && cfg.quantum > 0 && 0 <= s.oldFlows[0] < |s.flows| && |s.book.entries| == |s.flows|
    requires Ok(cfg, AfterGrant(cfg, s)) && Gap(s.flows[s.oldFlows[0]]) > 0
    ensures OldGaps(cfg, AfterGrant(cfg, s)) < OldGaps(cfg, s)
  {
    hide FlowsOk, TotalsOk, EntriesOk, ResidentsOk, RoundsOk, Conserved, Gap;
    GrantShrinks(cfg, s.flows, s.oldFlows);
  }

  // ---------------------------------------------------------------------------------
  // When the rotation of the old list ends.
  // ---------------------------------------------------------------------------------

  predicate Pays(f: Flow)
  {
    f.queue != [] && f.deficit >= |f.queue[0].data|
  }

  predicate Hungry(f: Flow)
  {
    f.queue != [] && f.deficit < |f.queue[0].data|
  }

  /** The loop leaves the rotation: the list is empty, or its front is served. */
  predicate Settled(s: State)
  {
    s.oldFlows == [] || (0 <= s.oldFlows[0] < |s.flows| && Pays(s.flows[s.oldFlows[0]]))
  }

  /** One round of the old-list loop that serves nobody. */
  ghost function Turn(cfg: Config, s: State): (r: State)
    requires Ok(cfg, s)
    ensures Ok(cfg, r)
  {
    FrontOf(cfg, s);
    if Settled(s) then s
    else if s.flows[s.oldFlows[0]].queue == [] then ReleaseStep(cfg, s, Old); AfterRelease(s, Old)
    else GrantStep(cfg, s); AfterGrant(cfg, s)
  }

  ghost function Turns(cfg: Config, s: State, n: nat): (r: State)
    requires Ok(cfg, s)
    ensures Ok(cfg, r)
    decreases n
  {
    if n == 0 then s else Turns(cfg, Turn(cfg, s), n - 1)
  }

  ghost predicate Settles(cfg: Config, s: State)
    requires Ok(cfg, s)
  {
    exists n: nat :: Settled(Turns(cfg, s, n))
  }

  ghost predicate AnyListed(s: State, test: Flow -> bool)
  {
    exists k :: 0 <= k < |s.oldFlows| && 0 <= s.oldFlows[k] < |s.flows| && test(s.flows[s.oldFlows[k]])
  }

  /** Somebody waits, and nobody on the list can pay. */
  ghost predicate Starved(s: State)
  {
    AnyListed(s, Hungry) && !AnyListed(s, Pays)
  }

  /** What a turn does to the list: the front goes, to the back if it was hungry. */
  lemma TurnList(cfg: Config, s: State)
    requires Ok(cfg, s) && !Settled(s)
    ensures var i, d := s.oldFlows[0], Turn(cfg, s);
            && 0 <= i < |s.flows| == |d.flows| && !Pays(s.flows[i])
            && d.oldFlows == s.oldFlows[1..] + (if Hungry(s.flows[i]) then [i] else [])
            && (forall k :: 0 <= k < |s.flows| && k != i ==> d.flows[k] == s.flows[k])
            && (cfg.quantum == 0 && Hungry(s.flows[i]) ==> d.flows == s.flows)
            && (Hungry(s.flows[i]) ==> OldGaps(cfg, d) < OldGaps(cfg, s) || cfg.quantum == 0)
            && i !in s.oldFlows[1..]
  {
    hide Ok, OldGaps;
    FrontOf(cfg, s);
    var i := s.oldFlows[0];
    if Hungry(s.flows[i]) {
      GrantStep(cfg, s);
      if cfg.quantum > 0 {
        GapsShrink(cfg, s);
      } else {
        assert s.flows[i].(deficit := s.flows[i].deficit + 0) == s.flows[i];
        assert s.flows[i := s.flows[i]] == s.flows;
      }
    } else {
      ReleaseStep(cfg, s, Old);
    }
  }

  lemma SettlesNow(cfg: Config, s: State)
    requires Ok(cfg, s) && Settled(s)
    ensures Settles(cfg, s)
  {
    assert Turns(cfg, s, 0) == s;
  }

  lemma SettlesNext(cfg: Config, s: State)
    requires Ok(cfg, s) && Settles(cfg, Turn(cfg, s))
    ensures Settles(cfg, s)
  {
    var n: nat :| Settled(Turns(cfg, Turn(cfg, s), n));
    assert Turns(cfg, s, n + 1) == Turns(cfg, Turn(cfg, s), n);
  }

  /** With a quantum the rotation ends from every state. */
  lemma {:induction false} QuantumSettles(cfg: Config, s: State)
    requires Ok(cfg, s) && cfg.quantum > 0
    ensures Settles(cfg, s)
    decreases |s.oldFlows|, OldGaps(cfg, s)
  {
    hide Ok, OldGaps, Settles, Turn;
    if Settled(s) {
      SettlesNow(cfg, s);
    } else {
      TurnList(cfg, s);
      QuantumSettles(cfg, Turn(cfg, s));
      SettlesNext(cfg, s);
    }
  }

  /** Without one, a flow that can pay comes to the front. */
  lemma {:induction false} PayerSettles(cfg: Config, s: State, k: nat)
    requires Ok(cfg, s) && cfg.quantum == 0 && k < |s.oldFlows| && 0 <= s.oldFlows[k] < |s.flows| && Pays(s.flows[s.oldFlows[k]])
    ensures Settles(cfg, s)
    decreases k
  {
    hide Ok, Settles, Turn, OldGaps;
    if Settled(s) {
      SettlesNow(cfg, s);
    } else {
      TurnList(cfg, s);
      var d := Turn(cfg, s);
      assert k > 0 && d.oldFlows[k - 1] == s.oldFlows[k] && s.oldFlows[k] in s.oldFlows[1..];
      PayerSettles(cfg, d, k - 1);
      SettlesNext(cfg, s);
    }
  }

  lemma {:induction false} IdleSettles(cfg: Config, s: State)
    requires Ok(cfg, s) && !AnyListed(s, Hungry)
    ensures Settles(cfg, s)
    decreases |s.oldFlows|
  {
    hide Ok, Settles, Turn, OldGaps;
    if Settled(s) {
      SettlesNow(cfg, s);
    } else {
      TurnList(cfg, s);
      var d := Turn(cfg, s);
      assert s.oldFlows[0] == s.oldFlows[0] && !Hungry(s.flows[s.oldFlows[0]]);
      forall k | 0 <= k < |d.oldFlows| && 0 <= d.oldFlows[k] < |d.flows|
        ensures !Hungry(d.flows[d.oldFlows[k]])
      {
        assert d.oldFlows[k] == s.oldFlows[k + 1] && d.oldFlows[k] in s.oldFlows[1..];
      }
      IdleSettles(cfg, d);
      SettlesNext(cfg, s);
    }
  }

  /** A starved list stays starved: hungry flows are granted nothing and go round. */
  lemma StarvedTurn(cfg: Config, s: State)
    requires Ok(cfg, s) && cfg.quantum == 0 && Starved(s)
    ensures !Settled(s) && Starved(Turn(cfg, s))
  {
    hide Ok, Turn, OldGaps;
    FrontOf(cfg, s);
    assert Settled(s) ==> AnyListed(s, Pays);
    TurnList(cfg, s);
    var d := Turn(cfg, s);
    NonePays(s, d);
    SomeHungry(s, d);
  }

  /** `d` is `s` with the front of the list gone, to the back if it is hungry. */
  ghost predicate Rotated(s: State, d: State)
  {
    && s.oldFlows != [] && 0 <= s.oldFlows[0] < |s.flows| == |d.flows|
    && var i := s.oldFlows[0];
       && d.oldFlows == s.oldFlows[1..] + (if Hungry(s.flows[i]) then [i] else [])
       && (forall k :: 0 <= k < |s.flows| && k != i ==> d.flows[k] == s.flows[k])
       && (Hungry(s.flows[i]) ==> d.flows == s.flows)
       && i !in s.oldFlows[1..]
  }

  lemma NonePays(s: State, d: State)
    requires Rotated(s, d) && !AnyListed(s, Pays)
    ensures !AnyListed(d, Pays)
  {
    forall k | 0 <= k < |d.oldFlows| && 0 <= d.oldFlows[k] < |d.flows|
      ensures !Pays(d.flows[d.oldFlows[k]])
    {
      if k < |s.oldFlows| - 1 {
        assert d.oldFlows[k] == s.oldFlows[k + 1] && d.oldFlows[k] in s.oldFlows[1..];
      } else {
        assert d.oldFlows[k] == s.oldFlows[0];
      }
    }
  }

  lemma SomeHungry(s: State, d: State)
    requires Rotated(s, d) && AnyListed(s, Hungry)
    ensures AnyListed(d, Hungry)
  {
    var h :| 0 <= h < |s.oldFlows| && 0 <= s.oldFlows[h] < |s.flows| && Hungry(s.flows[s.oldFlows[h]]);
    if h == 0 {
      assert d.oldFlows[|d.oldFlows| - 1] == s.oldFlows[0];
    } else {
      assert d.oldFlows[h - 1] == s.oldFlows[h] && s.oldFlows[h] in s.oldFlows[1..];
    }
  }

  lemma {:induction false} StarvedSpins(cfg: Config, s: State, n: nat)
    requires Ok(cfg, s) && cfg.quantum == 0 && Starved(s)
    ensures !Settled(Turns(cfg, s, n))
    decreases n
  {
    hide Ok, Turn, Settled, Starved;
    StarvedTurn(cfg, s);
    if n > 0 {
      StarvedSpins(cfg, Turn(cfg, s), n - 1);
    }
  }

  /** The old-list loop leaves the rotation exactly if there is a quantum, or somebody on the list
      can pay already, or nobody on it has a packet. */
  lemma SettlesIff(cfg: Config, s: State)
    requires Ok(cfg, s)
    ensures Settles(cfg, s) <==> cfg.quantum > 0 || !Starved(s)
  {
    if cfg.quantum > 0 {
      QuantumSettles(cfg, s);
    } else if Starved(s) {
      forall n: nat
        ensures !Settled(Turns(cfg, s, n))
      {
        StarvedSpins(cfg, s, n);
      }
    } else if AnyListed(s, Pays) {
      var k :| 0 <= k < |s.oldFlows| && 0 <= s.oldFlows[k] < |s.flows| && Pays(s.flows[s.oldFlows[k]]);
      PayerSettles(cfg, s, k);
    } else {
      IdleSettles(cfg, s);
    }
  }

  /** A packet that no flow has room for leaves the slot it was tried in claimed: on no list, so never
      released, and closed to every other flow. */
  method ClaimsUnused(cfg: Config, maxFlows: nat, lease: Lease, hash: int, now: nat) returns (q: FqCoDelScheduler, ghost slot: int)
    requires maxFlows > 0 && 0 < hash && Admitted(cfg, Totals(0, 0), lease) && Octets(lease.data) && !FitsFlow(cfg, lease)
    ensures fresh(q) && q.config == cfg && q.Valid() && !Tidy(q.flows)
    ensures 0 <= slot < |q.flows| && q.flows[slot] == IDLE.(hash := hash)
    ensures forall other: int :: other != hash ==> !Matches(q.flows[slot], other)
  {
    hide Ok, Moves, Timed, Onward, Quiet, Delivered, Octets, NewDue;
    q := new FqCoDelScheduler(cfg, maxFlows);
    var ok;
    ghost var at;
    FirstSlot(q.flows, hash);
    ok, at := q.Enqueue(lease, hash, now);
    slot := at.value;
  }

  /** Without a quantum one packet is enough: it is enqueued on a new scheduler, the new-list loop
      moves its slot to the old list, and there the rotation never ends. */
  method SpinsWithoutQuantum(cfg: Config, maxFlows: nat, lease: Lease, hash: int, now: nat) returns (q: FqCoDelScheduler)
    requires cfg.quantum == 0 && maxFlows > 0 && 0 <= hash && lease.Lease? && Octets(lease.data) && lease.data != []
    requires 1 <= cfg.maxTotalPackets && |lease.data| <= cfg.maxTotalBytes
    requires 1 <= cfg.maxQueueLength && |lease.data| <= cfg.maxFlowQueueBytes
    ensures fresh(q) && q.config == cfg && q.Valid() && q.newFlows == [] && |q.oldFlows| == 1
    ensures Starved(q.View()) && !Settles(cfg, q.View())
  {
    hide Ok, Moves, Timed, Onward, Quiet, Delivered, Octets, NewDue;
    q := new FqCoDelScheduler(cfg, maxFlows);
    var ok;
    ghost var slot;
    FirstSlot(q.flows, hash);
    ok, slot := q.Enqueue(lease, hash, now);
    assert q.newFlows == [slot.value] && q.flows[slot.value].queue == [Packet(lease.id, lease.data, now)];
    ghost var s := q.View();
    assert Starves(cfg, s);
    var out;
    ghost var from;
    out, from := q.DequeueNew(now);
    assert Hungry(q.flows[q.oldFlows[0]]);
    SettlesIff(cfg, q.View());
  }

  lemma FirstSlot(flows: seq<Flow>, hash: int)
    requires flows != [] && 0 <= hash && forall i :: 0 <= i < |flows| ==> flows[i] == IDLE
    ensures forall slot :: IsFirst(flows, hash, slot) ==> slot.Some?
  {
    assert Matches(flows[0], hash);
  }

  lemma ServedShape(cfg: Config, f: Flow, now: nat, g: Flow, out: Option<Out>, dropped: seq<Packet>, gone: seq<Packet>)
    requires Served(cfg, f, now, g, out, dropped, gone)
    ensures |gone| == |f.queue| - |g.queue| && Bytes(gone) == f.queueBytes - g.queueBytes
    ensures g.list == f.list && g.hash == f.hash && (out.None? ==> g.queue == [] && |f.queue| <= 1)
    ensures |gone| <= 2 && |dropped| <= |gone| && dropped == gone[..|dropped|] && f.queue == gone + g.queue
    ensures out.None? ==> gone[|dropped|..] == []
    ensures out.Some? ==> |dropped| == |gone| - 1 && gone[|dropped|..] == [gone[|dropped|]] && Delivers(gone[|dropped|], out.value)
  {
    hide Examine, Bytes;
  }

  lemma ServedFacts(cfg: Config, s: State, i: int, now: nat, g: Flow, out: Option<Out>, dropped: seq<Packet>, gone: seq<Packet>)
    requires 0 <= i < |s.flows| && |s.book.entries| == |s.flows| && Served(cfg, s.flows[i], now, g, out, dropped, gone)
    ensures |gone| == |s.flows[i].queue| - |g.queue| && Bytes(gone) == s.flows[i].queueBytes - g.queueBytes
    ensures g.list == s.flows[i].list && (out.None? ==> g.queue == [] && |s.flows[i].queue| <= 1)
    ensures Onward(s, AfterServe(s, i, now, g, out, dropped, gone), now)
    ensures out.None? ==> Quiet(s, AfterServe(s, i, now, g, out, dropped, gone))
    ensures out.Some? ==> Delivered(s, AfterServe(s, i, now, g, out, dropped, gone), i, out.value)
  {
    ServedShape(cfg, s.flows[i], now, g, out, dropped, gone);
    hide Served, Bytes, Timed, Moves, Quiet, Delivered, Delivers, Decisions, Exams, Ids;
    if Tidy(s.flows) {
      TidySlot(s.flows, i, g);
    }
    ServedMoves(s, i, now, g, out, dropped, gone);
    ServedSends(s, i, now, g, out, dropped, gone);
    if Timed(s, now) {
      ServedTimed(s, i, now, g, out, dropped, gone);
    }
  }

  lemma ServedMoves(s: State, i: int, now: nat, g: Flow, out: Option<Out>, dropped: seq<Packet>, gone: seq<Packet>)
    requires 0 <= i < |s.flows| && |s.book.entries| == |s.flows|
    requires |gone| <= 2 && |dropped| <= |gone| && dropped == gone[..|dropped|]
    requires out.None? ==> gone[|dropped|..] == []
    requires out.Some? ==> |dropped| == |gone| - 1 && gone[|dropped|..] == [gone[|dropped|]] && Delivers(gone[|dropped|], out.value)
    ensures Moves(s, AfterServe(s, i, now, g, out, dropped, gone), [])
  {
    hide Bytes, Picked, Decisions, Exams, Ids, Delivers;
    var d, marked := AfterServe(s, i, now, g, out, dropped, gone), out.Some? && out.value.ceMarked;
    var added := Decisions(i, s.book.entries[i].exams, now, gone, |dropped|, marked);
    assert Added(s, d) == added;
    VisitPicked(i, s.book.entries[i].exams, now, gone, |dropped|, marked, i);
    if out.Some? {
      OneIdOf(gone[|dropped|], out.value);
    } else {
      NoIds();
    }
    assert Names([]) == [];
    forall k | 0 <= k < |s.flows|
      ensures d.book.entries[k].arrived == s.book.entries[k].arrived + Into([], k)
      ensures d.book.entries[k].departed == s.book.entries[k].departed + Picked(added, From(k))
    {
      VisitPicked(i, s.book.entries[i].exams, now, gone, |dropped|, marked, k);
    }
  }

  lemma ServedSends(s: State, i: int, now: nat, g: Flow, out: Option<Out>, dropped: seq<Packet>, gone: seq<Packet>)
    requires 0 <= i < |s.flows| && |s.book.entries| == |s.flows|
    requires |gone| <= 2 && |dropped| <= |gone| && dropped == gone[..|dropped|]
    requires out.None? ==> gone[|dropped|..] == []
    requires out.Some? ==> |dropped| == |gone| - 1 && gone[|dropped|..] == [gone[|dropped|]] && Delivers(gone[|dropped|], out.value)
    ensures out.None? ==> Quiet(s, AfterServe(s, i, now, g, out, dropped, gone))
    ensures out.Some? ==> Delivered(s, AfterServe(s, i, now, g, out, dropped, gone), i, out.value)
  {
    hide Bytes, Picked, Decisions, Exams, Ids, Delivers;
    var d, marked := AfterServe(s, i, now, g, out, dropped, gone), out.Some? && out.value.ceMarked;
    assert Added(s, d) == Decisions(i, s.book.entries[i].exams, now, gone, |dropped|, marked);
    VisitPicked(i, s.book.entries[i].exams, now, gone, |dropped|, marked, i);
    if out.Some? {
      OneIdOf(gone[|dropped|], out.value);
      LastDecision(i, s.book.entries[i].exams, now, gone, |dropped|, marked);
    } else {
      NoIds();
    }
  }

  lemma NoIds()
    ensures Ids([]) == []
  {
  }

  lemma OneIdOf(p: Packet, o: Out)
    requires Delivers(p, o)
    ensures Ids([p]) == [o.id]
  {
  }

  lemma LastDecision(i: int, exams: seq<Exam>, now: nat, gone: seq<Packet>, drops: int, marked: bool)
    requires |gone| == drops + 1 && 0 <= drops
    ensures var last := Decisions(i, exams, now, gone, drops, marked)[drops];
            last.slot == i && last.packet == gone[drops] && last.fate == if marked then Marked else Passed
  {
  }

  lemma ServedTimed(s: State, i: int, now: nat, g: Flow, out: Option<Out>, dropped: seq<Packet>, gone: seq<Packet>)
    requires 0 <= i < |s.flows| && |s.book.entries| == |s.flows| && Timed(s, now)
    requires s.flows[i].queue == gone + g.queue && |gone| <= 2
    ensures Timed(AfterServe(s, i, now, g, out, dropped, gone), now)
  {
    hide Decisions, Exams, SlotTimed, LogTimed, Ids, Bytes;
    TimedVisit(s.flows[i].queue, g.queue, s.book.entries[i].exams, now, s.book.log, i, gone, |dropped|,
               out.Some? && out.value.ceMarked);
  }

  lemma {:induction false} AllEmpty(flows: seq<Flow>)
    requires forall i :: 0 <= i < |flows| ==> flows[i].queue == [] && flows[i].queueBytes == 0
    ensures Sum(flows, QueueLength) == Sum(flows, QueueBytes) == 0
  {
    if flows != [] {
      AllEmpty(flows[1..]);
    }
  }

  lemma EmptyTotals(cfg: Config, s: State)
    requires Ok(cfg, s) && s.newFlows == [] && s.oldFlows == []
    ensures s.totals == Totals(0, 0)
  {
    hide EntriesOk, Conserved, RoundsOk, ResidentsOk, Sum;
    forall i | 0 <= i < |s.flows|
      ensures s.flows[i].queue == [] && s.flows[i].queueBytes == 0
    {
      assert s.flows[i].list == Unlisted;
      assert FlowOk(cfg, s.book.longest, s.flows[i]);
    }
    AllEmpty(s.flows);
  }

  /** What entered a slot is what left it, in the same order, and what it still holds. */
  ghost predicate InOrder(s: State)
  {
    |s.book.entries| == |s.flows| &&
    forall k :: 0 <= k < |s.flows| ==> s.book.entries[k].arrived == s.book.entries[k].departed + Ids(s.flows[k].queue)
  }

  /** Residents of the old list got the same number of quanta but for one, and close to the same bytes. */
  ghost predicate Fair(cfg: Config, book: Book)
  {
    forall i, j :: i in book.resident && j in book.resident ==>
      0 <= i < |book.entries| && 0 <= j < |book.entries| &&
      book.entries[i].grants - book.entries[j].grants <= 1 &&
      book.entries[i].removed - book.entries[j].removed <= 3 * cfg.quantum + 4 * book.longest
  }

  lemma FairAll(cfg: Config, s: State)
    requires Ok(cfg, s)
    ensures Fair(cfg, s.book)
  {
    hide Ok;
    forall i, j | i in s.book.resident && j in s.book.resident
      ensures 0 <= i < |s.book.entries| && 0 <= j < |s.book.entries| &&
              s.book.entries[i].grants - s.book.entries[j].grants <= 1 &&
              s.book.entries[i].removed - s.book.entries[j].removed <= 3 * cfg.quantum + 4 * s.book.longest
    {
      FairShares(cfg, s, i, j);
    }
  }

  lemma ConservedOf(cfg: Config, s: State)
    requires Ok(cfg, s)
    ensures s.book.accepted == s.book.delivered + s.book.dropped + Queued(s.flows)
    ensures InOrder(s)
  {
    hide Ids, FlowsOk, ListOk, RoundsOk, ResidentsOk, TotalsOk, HistoriesOk, After, Queued;
  }

  ghost function AfterReset(s: State): (b: Book)
  {
    Book(s.book.longest,
         seq(|s.book.entries|, i requires 0 <= i < |s.book.entries| =>
           Entry(0, 0, 0, 0, s.book.entries[i].arrived, s.book.entries[i].arrived, [])),
         {}, s.book.accepted, s.book.delivered, s.book.dropped + Queued(s.flows), s.book.log)
  }

  lemma ResetStep(cfg: Config, s: State, d: State)
    requires Ok(cfg, s) && |d.flows| == |s.flows| && (forall i :: 0 <= i < |d.flows| ==> d.flows[i] == IDLE)
    requires d == State(d.flows, [], [], Totals(0, 0), AfterReset(s))
    ensures Ok(cfg, d)
  {
    hide Queued, Sum, Octets;
    AllIdle(d.flows);
    assert FlowOk(cfg, s.book.longest, IDLE);
  }

  lemma OnwardMoves(s: State, d: State, now: nat)
    requires Onward(s, d, now)
    ensures Moves(s, d, []) && (Timed(s, now) ==> Timed(d, now)) && s.book.log <= d.book.log && (Tidy(s.flows) ==> Tidy(d.flows))
  {
  }

  /** Enqueue decides nothing. */
  lemma SameLog(s: State, d: State)
    requires d.book.log == s.book.log
    ensures Picked(Added(s, d), Sent) == []
  {
    assert Added(s, d) == [];
  }

  lemma SentMeans(s: State, d: State)
    ensures Quiet(s, d) ==> |s.book.log| <= |d.book.log| && Picked(Added(s, d), Sent) == []
    ensures forall from: int, o: Out :: Delivered(s, d, from, o) ==> Picked(Added(s, d), Sent) == [o.id]
  {
  }

  lemma NothingMoves(cfg: Config, s: State)
    requires Ok(cfg, s)
    ensures Moves(s, s, []) && Picked(Added(s, s), Sent) == [] && Names([]) == []
  {
    assert Added(s, s) == [];
  }

  lemma TakenGrows(script: seq<Event>, oks: seq<bool>, k: nat, ok: bool)
    requires k < |script| && |oks| == k
    ensures var e := script[k];
            Taken(script[..k + 1], oks + [ok]) ==
            Taken(script[..k], oks) + if ok && e.Arrive? && e.lease.Lease? then [e.lease.id] else []
  {
    assert script[..k + 1][..k] == script[..k] && (oks + [ok])[..k] == oks;
  }

  lemma OutsGrow(outs: seq<Out>, o: Out)
    ensures OutIds(outs + [o]) == OutIds(outs) + [o.id]
  {
  }

  /** A new window changes no lease, no queue and no examination. */
  ghost predicate SameBooks(s: State, d: State)
  {
    && d.flows == s.flows && |d.book.entries| == |s.book.entries| == |s.flows| && d.book.log == s.book.log
    && d.book.accepted == s.book.accepted && d.book.delivered == s.book.delivered && d.book.dropped == s.book.dropped
    && forall k :: 0 <= k < |s.flows| ==>
         d.book.entries[k].arrived == s.book.entries[k].arrived && d.book.entries[k].departed == s.book.entries[k].departed &&
         d.book.entries[k].exams == s.book.entries[k].exams
  }

  lemma WindowMoves(cfg: Config, s: State)
    requires Ok(cfg, s)
    ensures |s.book.entries| == |s.flows| && SameBooks(s, Window(s)) && Window(s).book.resident == set i | i in s.oldFlows
    ensures forall clock: nat :: Timed(s, clock) ==> Timed(Window(s), clock)
  {
    hide LogTimed, SlotTimed;
  }

  lemma MovesFrom(s: State, t: State, d: State, ins: seq<Entrant>)
    requires SameBooks(s, t) && Moves(t, d, ins)
    ensures Moves(s, d, ins) && Added(s, d) == Added(t, d)
  {
    hide Picked, Into, Names;
  }

  lemma LogLaws(cfg: Config, s: State, now: nat)
    requires Ok(cfg, s) && Timed(s, now)
    ensures forall m :: 0 <= m < |s.book.log| ==> Lawful(cfg.codel, s.book.log[m])
  {
    hide FlowsOk, EntriesOk, RoundsOk, ResidentsOk, ListOk, TotalsOk, Conserved, Orderly, DecisionOk, Lawful, SlotTimed;
    forall m | 0 <= m < |s.book.log|
      ensures Lawful(cfg.codel, s.book.log[m])
    {
      DecisionLaw(cfg.codel, s.book.log[m]);
    }
  }

  lemma FreshTimed(s: State)
    requires forall i :: 0 <= i < |s.flows| ==> s.flows[i] == IDLE
    requires |s.book.entries| == |s.flows| && s.book.log == []
    requires forall i :: 0 <= i < |s.flows| ==> s.book.entries[i] == Entry(0, 0, 0, 0, [], [], [])
    ensures forall clock: nat :: Timed(s, clock)
  {
  }

  lemma SlotInRange(flows: seq<Flow>, hash: int, slot: Option<int>)
    requires 0 <= hash && IsFirst(flows, hash, slot)
    ensures slot.Some? ==> 0 <= slot.value < |flows|
  {
  }

  lemma FreshOk(cfg: Config, s: State)
    requires forall i :: 0 <= i < |s.flows| ==> s.flows[i] == IDLE
    requires |s.book.entries| == |s.flows|
    requires forall i :: 0 <= i < |s.flows| ==> s.book.entries[i] == Entry(0, 0, 0, 0, [], [], [])
    requires s == State(s.flows, [], [], Totals(0, 0), Book(0, s.book.entries, {}, multiset{}, multiset{}, multiset{}, []))
    ensures Ok(cfg, s)
  {
    hide Sum, Queued, FlowsOk, EntriesOk, After;
    AllIdle(s.flows);
    IdleSlots(cfg, s.flows, s.book.entries);
  }

  lemma IdleSlots(cfg: Config, flows: seq<Flow>, entries: seq<Entry>)
    requires |entries| == |flows|
    requires forall i :: 0 <= i < |flows| ==> flows[i] == IDLE && entries[i] == Entry(0, 0, 0, 0, [], [], [])
    ensures FlowsOk(cfg, 0, flows) && EntriesOk(cfg, 0, flows, entries)
  {
    assert FlowOk(cfg, 0, IDLE) && EntryOk(cfg, 0, IDLE, Entry(0, 0, 0, 0, [], [], []));
    hide FlowOk, EntryOk;
  }

  lemma {:induction false} AllIdle(flows: seq<Flow>)
    requires forall i :: 0 <= i < |flows| ==> flows[i] == IDLE
    ensures Sum(flows, QueueLength) == Sum(flows, QueueBytes) == 0 && Queued(flows) == multiset{}
  {
    if flows != [] {
      AllIdle(flows[1..]);
    }
  }
}
