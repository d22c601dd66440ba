/** Passive opens: the accounting of half-open connections, limits, memory and retry timers. */
module PassiveOpen {
  import opened Prelude
  import opened SeqSpace

  datatype Flow = Flow(source: int, sourcePort: int, destination: int, destinationPort: int)

  /** A listener is a destination address and port. */
  datatype Listener = Listener(destination: int, port: int)

  datatype State = SynReceived | Established | CloseWait | FinWait1 | FinWait2 | Closing | LastAck | TimeWait

  /** `memory` is that of the receive buffer, once there is one. */
  datatype Pcb = Pcb(flow: Flow, state: State, irs: Seq32, rcvNxt: Seq32, sndNxt: Seq32, stamps: bool, retryIndex: nat,
                     retryTimer: Option<int>, memory: Option<nat>)

  datatype Segment = Segment(flow: Flow, syn: bool, ack: bool, fin: bool, rst: bool, sequence: Seq32, acknowledgment: Seq32,
                             length: nat, optionsOk: bool, stampOk: bool, stampOffered: bool)

  datatype Timer = Timer(flow: Flow, deadline: int)

  datatype Config = Config(backlog: nat, halfOpenLimit: nat, pcbLimit: nat, memoryBudget: nat, window: nat, intervals: seq<nat>)

  const RETRIES: nat := 4

  datatype Reply = NoReply | SynAck | Reset | Other

  datatype Error = NoError | InvalidFlags | InvalidOptions | HalfOpenLimit | BacklogFull | PcbLimit | ReceiveBudget | TimerFailure | Shutdown

  /** What the established-state machinery, outside this model, makes of a connection. */
  datatype Fate = Gone | Stays(state: State)

  function ListenerOf(flow: Flow): (r: Listener)
  {
    Listener(flow.destination, flow.destinationPort)
  }

  /** The sequence test of the SYN-RECEIVED state, with its 32-bit differences. */
  predicate SequenceAcceptable(seg: Segment, rcvNxt: Seq32, window: nat)
  {
    var length := seg.length + (if seg.syn then 1 else 0) + (if seg.fin then 1 else 0);
    if window == 0 then length == 0 && seg.sequence == rcvNxt
    else
      var first := Sub32(seg.sequence, rcvNxt);
      if length == 0 then first < window
      else first < window || Wrap(seg.sequence + length - 1 - rcvNxt) < window
  }

  /** Storage and occupancy bitmap of a receive buffer. */
  function BufferMemory(capacity: nat): (r: nat)
  {
    capacity + (capacity + 63) / 64 * 8
  }

  function WireWindow(window: nat): (r: nat)
  {
    if window > 65535 then 65535 else window
  }

  // ---------------------------------------------------------------------------------
  // Counting.
  // ---------------------------------------------------------------------------------

  function Half(p: Pcb): (r: int)
  {
    if p.state == SynReceived then 1 else 0
  }

  function Memory(p: Pcb): (r: int)
  {
    if p.memory.Some? then p.memory.value else 0
  }

  function HalfAt(l: Listener): (r: Pcb -> int)
  {
    (p: Pcb) => if ListenerOf(p.flow) == l then Half(p) else 0
  }

  function Sum(pcbs: seq<Pcb>, weight: Pcb -> int): (r: int)
  {
    if pcbs == [] then 0 else Sum(pcbs[..|pcbs| - 1], weight) + weight(pcbs[|pcbs| - 1])
  }

  lemma {:induction false} SumUpdate(pcbs: seq<Pcb>, i: nat, p: Pcb, weight: Pcb -> int)
    requires i < |pcbs|
    ensures Sum(pcbs[i := p], weight) == Sum(pcbs, weight) - weight(pcbs[i]) + weight(p)
  {
    var n := |pcbs| - 1;
    if i == n {
      assert pcbs[i := p][..n] == pcbs[..n];
    } else {
      assert pcbs[i := p][..n] == pcbs[..n][i := p];
      SumUpdate(pcbs[..n], i, p, weight);
    }
  }

  lemma SumAppend(pcbs: seq<Pcb>, p: Pcb, weight: Pcb -> int)
    ensures Sum(pcbs + [p], weight) == Sum(pcbs, weight) + weight(p)
  {
    assert (pcbs + [p])[..|pcbs|] == pcbs;
  }

  /** The last control block takes the place of the one removed. */
  function SwapPop(pcbs: seq<Pcb>, i: nat): (r: seq<Pcb>)
    requires i < |pcbs|
    ensures |r| == |pcbs| - 1
  {
    var n := |pcbs| - 1;
    if i == n then pcbs[..n] else pcbs[..n][i := pcbs[n]]
  }

  lemma SumSwapPop(pcbs: seq<Pcb>, i: nat, weight: Pcb -> int)
    requires i < |pcbs|
    ensures Sum(SwapPop(pcbs, i), weight) == Sum(pcbs, weight) - weight(pcbs[i])
  {
    var n := |pcbs| - 1;
    if i < n {
      SumUpdate(pcbs[..n], i, pcbs[n], weight);
    }
  }

  lemma {:induction false} SumOfOne(pcbs: seq<Pcb>, i: nat, weight: Pcb -> int)
    requires i < |pcbs| && forall k :: 0 <= k < |pcbs| ==> weight(pcbs[k]) >= 0
    ensures weight(pcbs[i]) <= Sum(pcbs, weight)
  {
    var n := |pcbs| - 1;
    SumNonNegative(pcbs[..n], weight);
    if i < n {
      SumOfOne(pcbs[..n], i, weight);
    }
  }

  lemma {:induction false} SumNonNegative(pcbs: seq<Pcb>, weight: Pcb -> int)
    requires forall k :: 0 <= k < |pcbs| ==> weight(pcbs[k]) >= 0
    ensures Sum(pcbs, weight) >= 0
  {
    if pcbs != [] {
      SumNonNegative(pcbs[..|pcbs| - 1], weight);
    }
  }

  // ---------------------------------------------------------------------------------
  // The invariant.
  // ---------------------------------------------------------------------------------

  ghost predicate FlowsUnique(pcbs: seq<Pcb>)
  {
    forall i, j :: 0 <= i < j < |pcbs| ==> pcbs[i].flow != pcbs[j].flow
  }

  ghost predicate BacklogOk(pcbs: seq<Pcb>, backlog: nat)
  {
    forall l: Listener :: Sum(pcbs, HalfAt(l)) <= backlog
  }

  /** A half-open connection has no buffer yet and has used at most its retries. */
  ghost predicate PcbOk(p: Pcb)
  {
    p.retryIndex <= RETRIES && (p.state == SynReceived ==> p.memory.None?)
  }

  ghost predicate PcbsOk(pcbs: seq<Pcb>)
  {
    forall i :: 0 <= i < |pcbs| ==> PcbOk(pcbs[i])
  }

  /** Each half-open connection has exactly one live timer, and no other timer is live. */
  ghost predicate TimersOk(pcbs: seq<Pcb>, timers: map<int, Timer>)
  {
    && (forall i :: 0 <= i < |pcbs| ==> (pcbs[i].state == SynReceived <==> pcbs[i].retryTimer.Some?))
    && (forall i :: 0 <= i < |pcbs| && pcbs[i].retryTimer.Some? ==>
          pcbs[i].retryTimer.value in timers && timers[pcbs[i].retryTimer.value].flow == pcbs[i].flow)
    && (forall id :: id in timers ==> Owned(pcbs, id))
  }

  ghost predicate Owned(pcbs: seq<Pcb>, id: int)
  {
    exists i :: 0 <= i < |pcbs| && pcbs[i].retryTimer == Some(id)
  }

  ghost predicate ConfigOk(cfg: Config)
  {
    cfg.backlog > 0 && cfg.halfOpenLimit > 0 && cfg.pcbLimit > 0 && cfg.window > 0 && |cfg.intervals| == RETRIES
  }

  ghost predicate Ok(cfg: Config, pcbs: seq<Pcb>, halfOpen: int, memory: int, timers: map<int, Timer>)
  {
    && halfOpen == Sum(pcbs, Half) <= cfg.halfOpenLimit
    && memory == Sum(pcbs, Memory) <= cfg.memoryBudget
    && |pcbs| <= cfg.pcbLimit && BacklogOk(pcbs, cfg.backlog)
    && FlowsUnique(pcbs) && PcbsOk(pcbs) && TimersOk(pcbs, timers)
  }

  // ---------------------------------------------------------------------------------
  // Steps.
  // ---------------------------------------------------------------------------------

  function Forget(timers: map<int, Timer>, t: Option<int>): (r: map<int, Timer>)
  {
    if t.Some? then timers - {t.value} else timers
  }

  lemma UniqueSwapPop(pcbs: seq<Pcb>, i: nat)
    requires FlowsUnique(pcbs) && i < |pcbs|
    ensures FlowsUnique(SwapPop(pcbs, i)) && forall k :: 0 <= k < |pcbs| - 1 ==> SwapPop(pcbs, i)[k].flow != pcbs[i].flow
  {
  }

  lemma BacklogSwapPop(pcbs: seq<Pcb>, i: nat, backlog: nat)
    requires BacklogOk(pcbs, backlog) && i < |pcbs|
    ensures BacklogOk(SwapPop(pcbs, i), backlog)
  {
    forall l: Listener
      ensures Sum(SwapPop(pcbs, i), HalfAt(l)) <= backlog
    {
      SumSwapPop(pcbs, i, HalfAt(l));
    }
  }

  /** No two control blocks share a timer. */
  lemma TimersDistinct(pcbs: seq<Pcb>, timers: map<int, Timer>, i: nat, j: nat)
    requires TimersOk(pcbs, timers) && FlowsUnique(pcbs) && i < |pcbs| && j < |pcbs| && i != j
    ensures pcbs[i].retryTimer.Some? ==> pcbs[i].retryTimer != pcbs[j].retryTimer
  {
    assert pcbs[i].flow != pcbs[j].flow;
  }

  lemma TimersSwapPop(pcbs: seq<Pcb>, timers: map<int, Timer>, i: nat)
    requires TimersOk(pcbs, timers) && FlowsUnique(pcbs) && i < |pcbs|
    ensures TimersOk(SwapPop(pcbs, i), Forget(timers, pcbs[i].retryTimer))
  {
    var after, left := SwapPop(pcbs, i), Forget(timers, pcbs[i].retryTimer);
    var n := |pcbs| - 1;
    forall k | 0 <= k < n && after[k].retryTimer.Some?
      ensures after[k].retryTimer.value in left && left[after[k].retryTimer.value].flow == after[k].flow
    {
      TimersDistinct(pcbs, timers, if k == i then n else k, i);
    }
    forall id | id in left
      ensures Owned(after, id)
    {
      assert Owned(pcbs, id);
      var k :| 0 <= k < |pcbs| && pcbs[k].retryTimer == Some(id);
      assert k != i;
      assert after[if k == n then i else k].retryTimer == Some(id);
    }
  }

  lemma RemoveStep(cfg: Config, pcbs: seq<Pcb>, halfOpen: int, memory: int, timers: map<int, Timer>, i: nat)
    requires Ok(cfg, pcbs, halfOpen, memory, timers) && i < |pcbs|
    ensures halfOpen >= Half(pcbs[i]) && memory >= Memory(pcbs[i])
    ensures Ok(cfg, SwapPop(pcbs, i), halfOpen - Half(pcbs[i]), memory - Memory(pcbs[i]), Forget(timers, pcbs[i].retryTimer))
  {
    hide FlowsUnique, BacklogOk, TimersOk, Sum;
    SumSwapPop(pcbs, i, Half);
    SumSwapPop(pcbs, i, Memory);
    SumOfOne(pcbs, i, Half);
    SumOfOne(pcbs, i, Memory);
    UniqueSwapPop(pcbs, i);
    BacklogSwapPop(pcbs, i, cfg.backlog);
    TimersSwapPop(pcbs, timers, i);
  }

  lemma BacklogUpdate(pcbs: seq<Pcb>, i: nat, q: Pcb, backlog: nat)
    requires BacklogOk(pcbs, backlog) && i < |pcbs| && q.flow == pcbs[i].flow && Half(q) <= Half(pcbs[i])
    ensures BacklogOk(pcbs[i := q], backlog)
  {
    forall l: Listener
      ensures Sum(pcbs[i := q], HalfAt(l)) <= backlog
    {
      SumUpdate(pcbs, i, q, HalfAt(l));
    }
  }

  /** A control block keeps its flow and trades its timer for another, or for none. */
  lemma TimersUpdate(pcbs: seq<Pcb>, timers: map<int, Timer>, i: nat, q: Pcb, deadline: int)
    requires TimersOk(pcbs, timers) && FlowsUnique(pcbs) && i < |pcbs| && q.flow == pcbs[i].flow
    requires q.state == SynReceived <==> q.retryTimer.Some?
    requires q.retryTimer.Some? ==> q.retryTimer.value !in timers
    ensures TimersOk(pcbs[i := q],
                     if q.retryTimer.Some? then Forget(timers, pcbs[i].retryTimer)[q.retryTimer.value := Timer(q.flow, deadline)]
                     else Forget(timers, pcbs[i].retryTimer))
  {
    var left := Forget(timers, pcbs[i].retryTimer);
    var after := if q.retryTimer.Some? then left[q.retryTimer.value := Timer(q.flow, deadline)] else left;
    forall k | 0 <= k < |pcbs| && k != i && pcbs[k].retryTimer.Some?
      ensures pcbs[k].retryTimer.value in after && after[pcbs[k].retryTimer.value].flow == pcbs[k].flow
    {
      TimersDistinct(pcbs, timers, k, i);
    }
    forall id | id in after
      ensures Owned(pcbs[i := q], id)
    {
      if q.retryTimer == Some(id) {
        assert pcbs[i := q][i].retryTimer == Some(id);
      } else {
        assert Owned(pcbs, id);
        var k :| 0 <= k < |pcbs| && pcbs[k].retryTimer == Some(id);
        assert k != i;
        assert pcbs[i := q][k].retryTimer == Some(id);
      }
    }
  }

  lemma UpdateStep(cfg: Config, pcbs: seq<Pcb>, halfOpen: int, memory: int, timers: map<int, Timer>, i: nat, q: Pcb, deadline: int)
    requires Ok(cfg, pcbs, halfOpen, memory, timers) && i < |pcbs| && q.flow == pcbs[i].flow && PcbOk(q)
    requires Half(q) <= Half(pcbs[i]) && (q.state == SynReceived <==> q.retryTimer.Some?)
    requires q.retryTimer.Some? ==> q.retryTimer.value !in timers
    requires memory - Memory(pcbs[i]) + Memory(q) <= cfg.memoryBudget
    ensures halfOpen >= Half(pcbs[i])
    ensures Ok(cfg, pcbs[i := q], halfOpen - Half(pcbs[i]) + Half(q), memory - Memory(pcbs[i]) + Memory(q),
               if q.retryTimer.Some? then Forget(timers, pcbs[i].retryTimer)[q.retryTimer.value := Timer(q.flow, deadline)]
               else Forget(timers, pcbs[i].retryTimer))
  {
    hide BacklogOk, TimersOk, Sum;
    SumUpdate(pcbs, i, q, Half);
    SumUpdate(pcbs, i, q, Memory);
    SumOfOne(pcbs, i, Half);
    BacklogUpdate(pcbs, i, q, cfg.backlog);
    TimersUpdate(pcbs, timers, i, q, deadline);
  }

  lemma BacklogAppend(pcbs: seq<Pcb>, p: Pcb, backlog: nat)
    requires BacklogOk(pcbs, backlog) && Sum(pcbs, HalfAt(ListenerOf(p.flow))) + Half(p) <= backlog
    ensures BacklogOk(pcbs + [p], backlog)
  {
    forall l: Listener
      ensures Sum(pcbs + [p], HalfAt(l)) <= backlog
    {
      SumAppend(pcbs, p, HalfAt(l));
    }
  }

  lemma TimersAppend(pcbs: seq<Pcb>, timers: map<int, Timer>, p: Pcb, deadline: int)
    requires TimersOk(pcbs, timers) && p.state == SynReceived && p.retryTimer.Some? && p.retryTimer.value !in timers
    ensures TimersOk(pcbs + [p], timers[p.retryTimer.value := Timer(p.flow, deadline)])
  {
    var all, after := pcbs + [p], timers[p.retryTimer.value := Timer(p.flow, deadline)];
    forall id | id in after
      ensures Owned(all, id)
    {
      if p.retryTimer == Some(id) {
        assert all[|pcbs|].retryTimer == Some(id);
      } else {
        assert Owned(pcbs, id);
        var k :| 0 <= k < |pcbs| && pcbs[k].retryTimer == Some(id);
        assert all[k].retryTimer == Some(id);
      }
    }
  }

  lemma CreateStep(cfg: Config, pcbs: seq<Pcb>, halfOpen: int, memory: int, timers: map<int, Timer>, p: Pcb, deadline: int)
    requires Ok(cfg, pcbs, halfOpen, memory, timers) && PcbOk(p) && p.state == SynReceived
    requires p.retryTimer.Some? && p.retryTimer.value !in timers
    requires halfOpen < cfg.halfOpenLimit && |pcbs| < cfg.pcbLimit && Sum(pcbs, HalfAt(ListenerOf(p.flow))) < cfg.backlog
    requires forall k :: 0 <= k < |pcbs| ==> pcbs[k].flow != p.flow
    ensures Ok(cfg, pcbs + [p], halfOpen + 1, memory, timers[p.retryTimer.value := Timer(p.flow, deadline)])
  {
    hide BacklogOk, TimersOk, Sum;
    SumAppend(pcbs, p, Half);
    SumAppend(pcbs, p, Memory);
    BacklogAppend(pcbs, p, cfg.backlog);
    TimersAppend(pcbs, timers, p, deadline);
  }

  method FindIndex(pcbs: seq<Pcb>, flow: Flow) returns (r: Option<nat>)
    ensures r.Some? ==> r.value < |pcbs| && pcbs[r.value].flow == flow
    ensures r.None? ==> forall k :: 0 <= k < |pcbs| ==> pcbs[k].flow != flow
  {
    for i := 0 to |pcbs|
      invariant forall k :: 0 <= k < i ==> pcbs[k].flow != flow
    {
      if pcbs[i].flow == flow {
        return Some(i);
      }
    }
    return None;
  }

  method ListenerHalfOpenCount(pcbs: seq<Pcb>, flow: Flow) returns (count: nat)
    ensures count == Sum(pcbs, HalfAt(ListenerOf(flow)))
  {
    count := 0;
    for i := 0 to |pcbs|
      invariant count == Sum(pcbs[..i], HalfAt(ListenerOf(flow)))
    {
      assert pcbs[..i + 1][..i] == pcbs[..i];
      if pcbs[i].state == SynReceived && ListenerOf(pcbs[i].flow) == ListenerOf(flow) {
        count := count + 1;
      }
    }
    assert pcbs[..|pcbs|] == pcbs;
  }

  // ---------------------------------------------------------------------------------
  // The engine.
  // ---------------------------------------------------------------------------------

  /** What the surroundings decide about one event: the timer id the wheel hands out, whether the
      session factory accepts, the initial sequence number, and what becomes of an open connection. */
  datatype Env = Env(timer: Option<int>, accepts: bool, isn: Seq32, fate: Fate)

  datatype Event = Arrives(seg: Segment, now: nat, env: Env) | Fires(id: int, now: nat, env: Env) | Ends(flow: Flow)

  class TcpHandshakeEngine {
    const config: Config
    var pcbs: seq<Pcb>
    var halfOpen: int
    var memory: int
    var timers: map<int, Timer>

    ghost predicate Valid()
      reads this
    {
      ConfigOk(config) && Ok(config, pcbs, halfOpen, memory, timers)
    }

    constructor (config: Config)
      requires ConfigOk(config)
      ensures Valid() && pcbs == [] && timers == map[] && this.config == config
    {
      this.config := config;
      pcbs, halfOpen, memory, timers := [], 0, 0, map[];
    }

    method RemoveAt(i: nat)
      requires Valid()
      modifies this
      ensures Valid()
      ensures i < |old(pcbs)| ==> pcbs == SwapPop(old(pcbs), i) && timers == Forget(old(timers), old(pcbs)[i].retryTimer)
      ensures i >= |old(pcbs)| ==> pcbs == old(pcbs) && timers == old(timers) && halfOpen == old(halfOpen)
      ensures i < |old(pcbs)| ==> halfOpen == old(halfOpen) - Half(old(pcbs)[i])
    {
      hide Ok;
      if i >= |pcbs| {
        return;
      }
      RemoveStep(config, pcbs, halfOpen, memory, timers, i);
      var p := pcbs[i];
      if p.retryTimer.Some? {
        timers := timers - {p.retryTimer.value};
      }
      if p.memory.Some? {
        memory := if p.memory.value > memory then 0 else memory - p.memory.value;
      }
      if p.state == SynReceived && halfOpen > 0 {
        halfOpen := halfOpen - 1;
      }
      pcbs := SwapPop(pcbs, i);
    }

    /** The established-state machinery moves the connection on or ends it. */
    method Proceed(i: nat, fate: Fate)
      requires Valid() && i < |pcbs| && pcbs[i].state != SynReceived && (fate.Stays? ==> fate.state != SynReceived)
      modifies this
      ensures Valid()
      ensures fate.Stays? ==> pcbs == old(pcbs)[i := old(pcbs)[i].(state := fate.state)] && timers == old(timers)
      ensures fate.Gone? ==> pcbs == SwapPop(old(pcbs), i)
      ensures halfOpen == old(halfOpen)
    {
      hide Ok;
      if fate.Gone? {
        RemoveAt(i);
        return;
      }
      var q := pcbs[i].(state := fate.state);
      LaterFacts(config, pcbs, halfOpen, memory, timers, i);
      UpdateStep(config, pcbs, halfOpen, memory, timers, i, q, 0);
      pcbs := pcbs[i := q];
    }

    /** The third segment of the handshake has come: the connection gets its buffer or is dropped. */
    method Establish(i: nat, env: Env) returns (reply: Reply, error: Error)
      requires Valid() && i < |pcbs| && pcbs[i].state == SynReceived
      modifies this
      ensures Valid()
      ensures BufferMemory(config.window) > config.memoryBudget - old(memory) ==>
                reply == Reset && error == ReceiveBudget && pcbs == SwapPop(old(pcbs), i)
      ensures BufferMemory(config.window) <= config.memoryBudget - old(memory) && env.accepts ==>
                error == NoError && reply == NoReply && memory == old(memory) + BufferMemory(config.window) &&
                halfOpen == old(halfOpen) - 1 && timers == Forget(old(timers), old(pcbs)[i].retryTimer) &&
                pcbs == old(pcbs)[i := old(pcbs)[i].(state := Established, retryTimer := None, memory := Some(BufferMemory(config.window)))]
      ensures BufferMemory(config.window) <= config.memoryBudget - old(memory) && !env.accepts ==>
                reply == Reset && error == NoError && pcbs == SwapPop(old(pcbs), i) &&
                timers == Forget(old(timers), old(pcbs)[i].retryTimer)
      ensures halfOpen == old(halfOpen) - 1
    {
      hide Ok;
      HalfFacts(config, pcbs, halfOpen, memory, timers, i);
      var need := BufferMemory(config.window);
      if need > config.memoryBudget || memory > config.memoryBudget - need {
        RemoveAt(i);
        return Reset, ReceiveBudget;
      }
      var p := pcbs[i];
      var q := p.(state := Established, retryTimer := None, memory := Some(need));
      UpdateStep(config, pcbs, halfOpen, memory, timers, i, q, 0);
      memory := memory + need;
      if p.retryTimer.Some? {
        timers := timers - {p.retryTimer.value};
      }
      pcbs := pcbs[i := q];
      if halfOpen > 0 {
        halfOpen := halfOpen - 1;
      }
      if !env.accepts {
        SwapPopChanged(old(pcbs), i, q);
        RemoveAt(i);
        return Reset, NoError;
      }
      return NoReply, NoError;
    }

    /** A segment for a half-open connection. */
    method OnHalfOpen(i: nat, seg: Segment, env: Env) returns (reply: Reply, error: Error)
      requires Valid() && i < |pcbs| && pcbs[i].state == SynReceived && pcbs[i].flow == seg.flow
      requires env.fate.Stays? ==> env.fate.state != SynReceived
      modifies this
      ensures Valid()
      ensures HalfOpenOutcome(config, old(pcbs), old(halfOpen), old(memory), old(timers), i, seg, env, pcbs, halfOpen, memory, timers,
                              reply, error)
    {
      hide Ok;
      var p := pcbs[i];
      if seg.rst {
        if seg.sequence == p.rcvNxt {
          RemoveAt(i);
        }
        return NoReply, NoError;
      }
      if seg.syn {
        if !seg.ack && !seg.fin && seg.sequence == p.irs {
          return SynAck, NoError;
        }
        return NoReply, InvalidFlags;
      }
      if !SequenceAcceptable(seg, p.rcvNxt, WireWindow(config.window)) {
        return SynAck, NoError;
      }
      if seg.ack {
        if seg.acknowledgment == p.sndNxt {
          if p.stamps && !seg.stampOk {
            return NoReply, InvalidOptions;
          }
          reply, error := Establish(i, env);
          if error == NoError && reply == NoReply && (seg.length != 0 || seg.fin) {
            SwapPopChanged(old(pcbs), i, pcbs[i]);
            Proceed(i, env.fate);
            reply := Other;
          }
          return;
        }
        return Reset, NoError;
      }
      return NoReply, NoError;
    }

    /** A SYN for an unknown flow opens a connection exactly when every limit leaves room. */
    method OnSyn(seg: Segment, now: nat, env: Env) returns (reply: Reply, error: Error)
      requires Valid() && forall k :: 0 <= k < |pcbs| ==> pcbs[k].flow != seg.flow
      requires env.timer.Some? ==> env.timer.value !in timers
      modifies this
      ensures Valid()
      ensures SynOutcome(config, old(pcbs), old(halfOpen), old(memory), old(timers), seg, now, env, pcbs, halfOpen, memory, timers,
                         reply, error)
    {
      hide Ok, Sum;
      reply := NoReply;
      if halfOpen >= config.halfOpenLimit {
        return NoReply, HalfOpenLimit;
      }
      var queued := ListenerHalfOpenCount(pcbs, seg.flow);
      if queued >= config.backlog {
        return NoReply, BacklogFull;
      }
      if |pcbs| >= config.pcbLimit {
        return NoReply, PcbLimit;
      }
      if !seg.optionsOk {
        return NoReply, InvalidOptions;
      }
      if env.timer.None? {
        return NoReply, TimerFailure;
      }
      var p := Opened(seg, env);
      var deadline := SaturatingAdd(now, config.intervals[0]);
      CreateStep(config, pcbs, halfOpen, memory, timers, p, deadline);
      pcbs := pcbs + [p];
      halfOpen := halfOpen + 1;
      timers := timers[env.timer.value := Timer(seg.flow, deadline)];
      return SynAck, NoError;
    }

    /** Only a pure SYN opens, and it is answered. `at` is the connection of the segment's flow. */
    method OnSegment(seg: Segment, now: nat, env: Env) returns (reply: Reply, error: Error, ghost at: Option<nat>)
      requires Valid() && (env.fate.Stays? ==> env.fate.state != SynReceived)
      requires env.timer.Some? ==> env.timer.value !in timers
      modifies this
      ensures Valid()
      ensures halfOpen > old(halfOpen) ==> seg.syn && !seg.ack && !seg.rst && !seg.fin && reply == SynAck
      ensures !Known(old(pcbs), seg.flow) && (seg.rst || seg.ack || !seg.syn || seg.fin) ==>
                pcbs == old(pcbs) && timers == old(timers) && (reply == Reset <==> seg.ack && !seg.rst) &&
                (error == InvalidFlags <==> seg.syn && seg.fin && !seg.ack && !seg.rst)
      ensures at.Some? <==> Known(old(pcbs), seg.flow)
      ensures at.Some? ==> at.value < |old(pcbs)| && old(pcbs)[at.value].flow == seg.flow
      ensures at.None? && seg.syn && !seg.ack && !seg.rst && !seg.fin ==>
                SynOutcome(config, old(pcbs), old(halfOpen), old(memory), old(timers), seg, now, env, pcbs, halfOpen, memory, timers,
                           reply, error)
      ensures at.Some? && old(pcbs)[at.value].state == SynReceived ==>
                HalfOpenOutcome(config, old(pcbs), old(halfOpen), old(memory), old(timers), at.value, seg, env, pcbs, halfOpen, memory,
                                timers, reply, error)
      ensures at.Some? && old(pcbs)[at.value].state != SynReceived ==>
                reply == Other && error == NoError && halfOpen == old(halfOpen) &&
                pcbs == if env.fate.Stays? then old(pcbs)[at.value := old(pcbs)[at.value].(state := env.fate.state)]
                        else SwapPop(old(pcbs), at.value)
    {
      hide Ok, Sum, SynOutcome, HalfOpenOutcome;
      var found := FindIndex(pcbs, seg.flow);
      at := found;
      if found.Some? {
        var i := found.value;
        if pcbs[i].state == SynReceived {
          reply, error := OnHalfOpen(i, seg, env);
          HalfOpenFalls(config, old(pcbs), old(halfOpen), old(memory), old(timers), i, seg, env, pcbs, halfOpen, memory, timers, reply,
                        error);
          return;
        }
        Proceed(i, env.fate);
        return Other, NoError, at;
      }
      if seg.rst {
        return NoReply, NoError, at;
      }
      if seg.ack {
        return Reset, NoError, at;
      }
      if !seg.syn {
        return NoReply, NoError, at;
      }
      if seg.fin {
        return NoReply, InvalidFlags, at;
      }
      reply, error := OnSyn(seg, now, env);
      SynRises(config, old(pcbs), old(halfOpen), old(memory), old(timers), seg, now, env, pcbs, halfOpen, memory, timers, reply, error);
    }

    /** A retry timer fires: the SYN-ACK goes out again, or the fifth time the connection is dropped. */
    method OnRetry(id: int, now: nat, env: Env) returns (reply: Reply, ghost i: nat)
      requires Valid() && id in timers && (env.timer.Some? ==> env.timer.value !in timers)
      modifies this
      ensures Valid()
      ensures i < |old(pcbs)| && old(pcbs)[i].state == SynReceived && old(pcbs)[i].retryTimer == Some(id)
      ensures reply == SynAck <==> old(pcbs)[i].retryIndex < RETRIES
      ensures reply == SynAck && env.timer.Some? ==>
                pcbs == old(pcbs)[i := old(pcbs)[i].(retryIndex := old(pcbs)[i].retryIndex + 1, retryTimer := env.timer)] &&
                halfOpen == old(halfOpen)
      ensures reply != SynAck || env.timer.None? ==> pcbs == SwapPop(old(pcbs), i) && halfOpen == old(halfOpen) - 1
    {
      hide Ok, Sum, SwapPop;
      var flow := timers[id].flow;
      var found := FindIndex(pcbs, flow);
      TimerOwner(config, pcbs, halfOpen, memory, timers, id);
      var at := found.value;
      i := at;
      var p := pcbs[at];
      if p.retryIndex >= RETRIES {
        RemoveAt(at);
        return NoReply, at;
      }
      var next := p.retryIndex + 1;
      var interval := if next < RETRIES then config.intervals[next] else config.intervals[RETRIES - 1];
      if env.timer.None? {
        RemoveAt(at);
        return SynAck, at;
      }
      var q := p.(retryIndex := next, retryTimer := env.timer);
      HalfFacts(config, pcbs, halfOpen, memory, timers, at);
      UpdateStep(config, pcbs, halfOpen, memory, timers, at, q, SaturatingAdd(now, interval));
      timers := (timers - {id})[env.timer.value := Timer(flow, SaturatingAdd(now, interval))];
      pcbs := pcbs[at := q];
      return SynAck, at;
    }

    /** A connection is ended from outside. */
    method End(flow: Flow)
      requires Valid()
      modifies this
      ensures Valid() && forall k :: 0 <= k < |pcbs| ==> pcbs[k].flow != flow
    {
      hide Ok, Sum;
      var found := FindIndex(pcbs, flow);
      if found.Some? {
        assert FlowsUnique(pcbs) by { FlowsOf(config, pcbs, halfOpen, memory, timers); }
        UniqueSwapPop(pcbs, found.value);
        RemoveAt(found.value);
      }
    }

    method Shutdown()
      requires Valid()
      modifies this
      ensures Valid() && pcbs == [] && halfOpen == 0 && memory == 0 && timers == map[]
    {
      hide Ok;
      while pcbs != []
        invariant Valid()
        decreases |pcbs|
      {
        RemoveAt(|pcbs| - 1);
      }
      EmptyEngine(config, halfOpen, memory, timers);
    }

    /** Any run of segments, timers and closes keeps every limit and every account. */
    method Run(script: seq<Event>)
      requires Valid()
      requires forall e :: e in script && !e.Ends? && e.env.fate.Stays? ==> e.env.fate.state != SynReceived
      modifies this
      ensures Valid()
      ensures halfOpen == Sum(pcbs, Half) <= config.halfOpenLimit && |pcbs| <= config.pcbLimit
      ensures forall l: Listener :: Sum(pcbs, HalfAt(l)) <= config.backlog
      ensures memory == Sum(pcbs, Memory) <= config.memoryBudget
      ensures forall k :: 0 <= k < |pcbs| && pcbs[k].state == SynReceived ==>
                pcbs[k].retryIndex <= RETRIES && pcbs[k].retryTimer.Some? && pcbs[k].retryTimer.value in timers
      ensures FlowsUnique(pcbs)
    {
      for k := 0 to |script|
        invariant Valid()
      {
        hide Ok, Sum;
        assert script[k] in script;
        match script[k] {
          case Arrives(seg, now, env) =>
            if env.timer.None? || env.timer.value !in timers {
              var reply, error;
              ghost var at;
              reply, error, at := OnSegment(seg, now, env);
            }
          case Fires(id, now, env) =>
            if id in timers && (env.timer.None? || env.timer.value !in timers) {
              var reply;
              ghost var i;
              reply, i := OnRetry(id, now, env);
            }
          case Ends(flow) => End(flow);
        }
      }
    }
  }

  /** A pure SYN of an unknown flow: the first limit that is reached refuses it, otherwise it opens. */
  ghost predicate SynOutcome(cfg: Config, pcbs: seq<Pcb>, halfOpen: int, memory: int, timers: map<int, Timer>, seg: Segment, now: nat,
                             env: Env, pcbs': seq<Pcb>, halfOpen': int, memory': int, timers': map<int, Timer>, reply: Reply, error: Error)
    requires ConfigOk(cfg)
  {
    && error == (if halfOpen >= cfg.halfOpenLimit then HalfOpenLimit
                 else if Sum(pcbs, HalfAt(ListenerOf(seg.flow))) >= cfg.backlog then BacklogFull
                 else if |pcbs| >= cfg.pcbLimit then PcbLimit
                 else if !seg.optionsOk then InvalidOptions
                 else if env.timer.None? then TimerFailure
                 else NoError)
    && memory' == memory
    && if error == NoError then
         reply == SynAck && halfOpen' == halfOpen + 1 && pcbs' == pcbs + [Opened(seg, env)] && env.timer.Some? &&
         timers' == timers[env.timer.value := Timer(seg.flow, SaturatingAdd(now, cfg.intervals[0]))]
       else reply == NoReply && pcbs' == pcbs && timers' == timers && halfOpen' == halfOpen
  }

  function Promoted(p: Pcb, need: nat): (q: Pcb)
  {
    p.(state := Established, retryTimer := None, memory := Some(need))
  }

  /** A segment of a half-open connection: a reset at rcv_nxt removes it, an acknowledgment of the
      SYN-ACK gives it its buffer or drops it, and everything else leaves all as it was. */
  ghost predicate HalfOpenOutcome(cfg: Config, pcbs: seq<Pcb>, halfOpen: int, memory: int, timers: map<int, Timer>, i: nat, seg: Segment,
                                  env: Env, pcbs': seq<Pcb>, halfOpen': int, memory': int, timers': map<int, Timer>, reply: Reply,
                                  error: Error)
    requires i < |pcbs|
  {
    var p, need := pcbs[i], BufferMemory(cfg.window);
    if seg.rst && seg.sequence == p.rcvNxt then
      pcbs' == SwapPop(pcbs, i) && timers' == Forget(timers, p.retryTimer) && halfOpen' == halfOpen - Half(p) &&
      reply == NoReply && error == NoError
    else if !Completes(p, seg, cfg.window) then
      && pcbs' == pcbs && timers' == timers && halfOpen' == halfOpen && memory' == memory
      && reply == (if seg.rst then NoReply
                   else if seg.syn then if !seg.ack && !seg.fin && seg.sequence == p.irs then SynAck else NoReply
                   else if !SequenceAcceptable(seg, p.rcvNxt, WireWindow(cfg.window)) then SynAck
                   else if seg.ack && seg.acknowledgment != p.sndNxt then Reset
                   else NoReply)
      && error == (if !seg.rst && seg.syn && reply == NoReply then InvalidFlags
                   else if !seg.rst && !seg.syn && reply == NoReply && seg.ack then InvalidOptions
                   else NoError)
    else if need > cfg.memoryBudget - memory then
      reply == Reset && error == ReceiveBudget && pcbs' == SwapPop(pcbs, i) && halfOpen' == halfOpen - 1
    else if !env.accepts then
      reply == Reset && error == NoError && pcbs' == SwapPop(pcbs, i) && timers' == Forget(timers, p.retryTimer) &&
      halfOpen' == halfOpen - 1
    else
      && error == NoError && halfOpen' == halfOpen - 1
      && if seg.length == 0 && !seg.fin then
           reply == NoReply && memory' == memory + need && timers' == Forget(timers, p.retryTimer) && pcbs' == pcbs[i := Promoted(p, need)]
         else
           reply == Other &&
           pcbs' == if env.fate.Stays? then pcbs[i := Promoted(p, need).(state := env.fate.state)] else SwapPop(pcbs, i)
  }

  lemma HalfOpenFalls(cfg: Config, pcbs: seq<Pcb>, halfOpen: int, memory: int, timers: map<int, Timer>, i: nat, seg: Segment,
                      env: Env, pcbs': seq<Pcb>, halfOpen': int, memory': int, timers': map<int, Timer>, reply: Reply, error: Error)
    requires i < |pcbs| && HalfOpenOutcome(cfg, pcbs, halfOpen, memory, timers, i, seg, env, pcbs', halfOpen', memory', timers', reply, error)
    ensures halfOpen' <= halfOpen
  {
  }

  lemma SynRises(cfg: Config, pcbs: seq<Pcb>, halfOpen: int, memory: int, timers: map<int, Timer>, seg: Segment, now: nat,
                 env: Env, pcbs': seq<Pcb>, halfOpen': int, memory': int, timers': map<int, Timer>, reply: Reply, error: Error)
    requires ConfigOk(cfg)
    requires SynOutcome(cfg, pcbs, halfOpen, memory, timers, seg, now, env, pcbs', halfOpen', memory', timers', reply, error)
    ensures halfOpen' > halfOpen ==> reply == SynAck
  {
    hide Sum;
  }

  /** Removing a connection takes no notice of what it has become. */
  lemma SwapPopChanged(pcbs: seq<Pcb>, i: nat, q: Pcb)
    requires i < |pcbs|
    ensures SwapPop(pcbs[i := q], i) == SwapPop(pcbs, i)
  {
  }

  ghost predicate Known(pcbs: seq<Pcb>, flow: Flow)
  {
    exists k :: 0 <= k < |pcbs| && pcbs[k].flow == flow
  }

  /** The segment completes the handshake of a half-open connection. */
  predicate Completes(p: Pcb, seg: Segment, window: nat)
  {
    !seg.rst && !seg.syn && SequenceAcceptable(seg, p.rcvNxt, WireWindow(window)) && seg.ack &&
    seg.acknowledgment == p.sndNxt && (p.stamps ==> seg.stampOk)
  }

  function Opened(seg: Segment, env: Env): (p: Pcb)
  {
    Pcb(seg.flow, SynReceived, seg.sequence, Add32(seg.sequence, 1), Add32(env.isn, 1), seg.stampOffered, 0, env.timer, None)
  }

  /** A live timer belongs to the one half-open connection of its flow. */
  lemma TimerOwner(cfg: Config, pcbs: seq<Pcb>, halfOpen: int, memory: int, timers: map<int, Timer>, id: int)
    requires Ok(cfg, pcbs, halfOpen, memory, timers) && id in timers
    ensures exists k :: 0 <= k < |pcbs| && pcbs[k].flow == timers[id].flow
    ensures forall k :: 0 <= k < |pcbs| && pcbs[k].flow == timers[id].flow ==>
              pcbs[k].state == SynReceived && pcbs[k].retryTimer == Some(id)
  {
    hide Sum;
    assert Owned(pcbs, id);
    var i :| 0 <= i < |pcbs| && pcbs[i].retryTimer == Some(id);
    assert timers[id].flow == pcbs[i].flow;
  }

  lemma FlowsOf(cfg: Config, pcbs: seq<Pcb>, halfOpen: int, memory: int, timers: map<int, Timer>)
    requires Ok(cfg, pcbs, halfOpen, memory, timers)
    ensures FlowsUnique(pcbs)
  {
  }

  lemma EmptyEngine(cfg: Config, halfOpen: int, memory: int, timers: map<int, Timer>)
    requires Ok(cfg, [], halfOpen, memory, timers)
    ensures halfOpen == 0 && memory == 0 && timers == map[]
  {
    forall id
      ensures id !in timers
    {
      assert !Owned([], id);
    }
    assert timers.Keys == {};
  }

  lemma LaterFacts(cfg: Config, pcbs: seq<Pcb>, halfOpen: int, memory: int, timers: map<int, Timer>, i: nat)
    requires Ok(cfg, pcbs, halfOpen, memory, timers) && i < |pcbs| && pcbs[i].state != SynReceived
    ensures pcbs[i].retryTimer.None? && PcbOk(pcbs[i]) && memory <= cfg.memoryBudget
  {
  }

  lemma HalfFacts(cfg: Config, pcbs: seq<Pcb>, halfOpen: int, memory: int, timers: map<int, Timer>, i: nat)
    requires Ok(cfg, pcbs, halfOpen, memory, timers) && i < |pcbs| && pcbs[i].state == SynReceived
    ensures pcbs[i].retryTimer.Some? && PcbOk(pcbs[i]) && 0 <= memory <= cfg.memoryBudget
  {
    SumNonNegative(pcbs, Memory);
  }
}
