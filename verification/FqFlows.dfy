/** Flow slots of the FQ-CoDel scheduler: their packets, their accounts and what one visit does. */
module FqFlows {
  import opened Prelude
  import opened Checksum
  import opened CodelControl
  import opened CeMark

  datatype Config = Config(
    codel: Params,
    quantum: nat,
    maxQueueLength: nat,
    maxFlowQueueBytes: nat,
    maxTotalBytes: nat,
    maxTotalPackets: nat,
    ceMarking: bool)

  datatype Lease = NoLease | Lease(id: int, data: bytes)

  datatype Packet = Packet(id: int, data: bytes, at: nat)

  /** A packet handed to the caller. */
  datatype Out = Out(id: int, data: bytes, at: nat, hash: int, ceMarked: bool)

  datatype FlowList = Unlisted | New | Old

  datatype Flow = Flow(queue: seq<Packet>, queueBytes: int, deficit: int, list: FlowList, hash: int, codel: Codel)

  const IDLE: Flow := Flow([], 0, 0, Unlisted, 0, FRESH)

  function Bytes(q: seq<Packet>): (r: nat)
  {
    if q == [] then 0 else |q[0].data| + Bytes(q[1..])
  }

  lemma {:induction false} BytesConcat(a: seq<Packet>, b: seq<Packet>)
    ensures Bytes(a + b) == Bytes(a) + Bytes(b)
  {
    if a == [] {
      assert a + b == b;
    } else {
      assert (a + b)[1..] == a[1..] + b;
      BytesConcat(a[1..], b);
    }
  }

  function Ids(q: seq<Packet>): (r: seq<int>)
    ensures |r| == |q| && forall i :: 0 <= i < |q| ==> r[i] == q[i].id
  {
    seq(|q|, i requires 0 <= i < |q| => q[i].id)
  }

  lemma IdsConcat(a: seq<Packet>, b: seq<Packet>)
    ensures Ids(a + b) == Ids(a) + Ids(b)
  {
  }

  ghost predicate PacketsOk(q: seq<Packet>, longest: int)
  {
    forall i :: 0 <= i < |q| ==> Octets(q[i].data) && |q[i].data| <= longest
  }

  /** The packets `gone` have left the front of the queue, and the accounts say so. */
  ghost predicate Left(f: Flow, g: Flow, gone: seq<Packet>)
  {
    && f.queue == gone + g.queue && g.list == f.list && g.hash == f.hash
    && g.queueBytes == f.queueBytes - Bytes(gone) && g.deficit == f.deficit - Bytes(gone)
  }

  function Sojourn(p: Packet, now: nat): (r: nat)
  {
    if now >= p.at then now - p.at else 0
  }

  function Judged(cfg: Config, c: Codel, p: Packet, now: nat): (r: Verdict)
  {
    Examine(cfg.codel, c, Sojourn(p, now), now)
  }

  /** What one visit to a flow does: at most one packet falls to CoDel, the next survivor is
      delivered, and nothing is delivered only if the queue ran out. */
  ghost predicate Served(cfg: Config, f: Flow, now: nat, g: Flow, out: Option<Out>, dropped: seq<Packet>, gone: seq<Packet>)
  {
    && Left(f, g, gone)
    && (out.None? ==> g.queue == [] && gone == dropped)
    && (out.Some? ==> gone != [] && dropped == gone[..|gone| - 1] && Delivers(gone[|gone| - 1], out.value) &&
                      out.value.hash == f.hash &&
                      (out.value.ceMarked ==> cfg.ceMarking && Markable(gone[|gone| - 1].data)))
    && match |dropped|
       case 0 => (gone == [] ==> g.codel == f.codel) &&
                 (gone != [] ==> g.codel == Judged(cfg, f.codel, gone[0], now).next) &&
                 (out.Some? ==> (out.value.ceMarked <==> Judged(cfg, f.codel, gone[0], now).drop))
       case 1 => var first := Judged(cfg, f.codel, gone[0], now);
                 first.drop && !(cfg.ceMarking && Markable(gone[0].data)) &&
                 (|gone| == 1 ==> g.codel == first.next) &&
                 (|gone| == 2 ==> g.codel == Judged(cfg, first.next, gone[1], now).next &&
                                  (out.Some? ==> !out.value.ceMarked))
       case _ => false
  }

  ghost predicate Delivers(p: Packet, o: Out)
  {
    o.id == p.id && o.at == p.at && |o.data| == |p.data| && (!o.ceMarked ==> o.data == p.data)
  }

  function Pop(f: Flow): (r: Flow)
    requires f.queue != []
  {
    var size := |f.queue[0].data|;
    f.(queue := f.queue[1..], queueBytes := f.queueBytes - size, deficit := f.deficit - size)
  }

  lemma PopLeft(f: Flow, g: Flow, gone: seq<Packet>, c: Codel)
    requires Left(f, g, gone) && g.queue != []
    ensures Left(f, Pop(g).(codel := c), gone + [g.queue[0]])
  {
    BytesConcat(gone, [g.queue[0]]);
    assert g.queue == [g.queue[0]] + g.queue[1..];
  }

  /** Inside the loop: what has left so far fell to CoDel. */
  ghost predicate Progress(cfg: Config, f: Flow, now: nat, g: Flow, dropped: seq<Packet>)
  {
    && Left(f, g, dropped) && |dropped| <= 1
    && (dropped == [] ==> g.codel == f.codel)
    && (|dropped| == 1 ==>
          var first := Judged(cfg, f.codel, dropped[0], now);
          first.drop && g.codel == first.next && !(cfg.ceMarking && Markable(dropped[0].data)))
  }

  lemma VerdictIsFirst(cfg: Config, f: Flow, now: nat, g: Flow, dropped: seq<Packet>)
    requires Progress(cfg, f, now, g, dropped) && g.queue != [] && Judged(cfg, g.codel, g.queue[0], now).drop
    ensures dropped == []
  {
    hide Examine, Left;
    if |dropped| == 1 {
      OneVerdictAnInstant(cfg.codel, f.codel, Sojourn(dropped[0], now), Sojourn(g.queue[0], now), now);
    }
  }

  lemma ServeDelivers(cfg: Config, f: Flow, now: nat, g: Flow, dropped: seq<Packet>, o: Out)
    requires Progress(cfg, f, now, g, dropped) && g.queue != []
    requires Delivers(g.queue[0], o) && o.hash == f.hash
    requires o.ceMarked <==> Judged(cfg, g.codel, g.queue[0], now).drop
    requires o.ceMarked ==> cfg.ceMarking && Markable(g.queue[0].data)
    ensures Served(cfg, f, now, Pop(g).(codel := Judged(cfg, g.codel, g.queue[0], now).next), Some(o), dropped,
                   dropped + [g.queue[0]])
  {
    hide Left, Pop, Examine, Bytes, Markable;
    PopLeft(f, g, dropped, Judged(cfg, g.codel, g.queue[0], now).next);
    if Judged(cfg, g.codel, g.queue[0], now).drop {
      VerdictIsFirst(cfg, f, now, g, dropped);
    }
  }

  lemma ServeDrops(cfg: Config, f: Flow, now: nat, g: Flow, dropped: seq<Packet>)
    requires Progress(cfg, f, now, g, dropped) && g.queue != []
    requires Judged(cfg, g.codel, g.queue[0], now).drop && !(cfg.ceMarking && Markable(g.queue[0].data))
    ensures Progress(cfg, f, now, Pop(g).(codel := Judged(cfg, g.codel, g.queue[0], now).next), [g.queue[0]])
  {
    hide Left, Pop, Examine, Bytes, Markable;
    VerdictIsFirst(cfg, f, now, g, dropped);
    PopLeft(f, g, dropped, Judged(cfg, g.codel, g.queue[0], now).next);
    assert dropped + [g.queue[0]] == [g.queue[0]];
  }

  lemma ServeEnds(cfg: Config, f: Flow, now: nat, g: Flow, dropped: seq<Packet>)
    requires Progress(cfg, f, now, g, dropped) && g.queue == []
    ensures Served(cfg, f, now, g, None, dropped, dropped)
  {
    hide Left, Examine, Markable;
  }

  /** The same without the history: what is left is a suffix short of at most two packets, the one
      delivered is the last that left, and both accounts are charged for all that left. */
  ghost predicate Visited(f: Flow, g: Flow, out: Option<Out>)
  {
    var k := |f.queue| - |g.queue|;
    && 0 <= k <= 2 && g.queue == f.queue[k..] && g.list == f.list && g.hash == f.hash
    && f.queueBytes - g.queueBytes == f.deficit - g.deficit == Bytes(f.queue[..k])
    && (out.None? ==> g.queue == []) && (out.Some? ==> k > 0 && Delivers(f.queue[k - 1], out.value))
  }

  lemma ServedVisits(cfg: Config, f: Flow, now: nat, g: Flow, out: Option<Out>, dropped: seq<Packet>, gone: seq<Packet>)
    requires Served(cfg, f, now, g, out, dropped, gone)
    ensures Visited(f, g, out)
  {
    hide Examine, Markable, Bytes;
    assert |gone| <= 2;
    assert f.queue[..|gone|] == gone && f.queue[|gone|..] == g.queue;
  }

  method ServeFlow(cfg: Config, f: Flow, now: nat, ghost longest: int)
    returns (g: Flow, out: Option<Out>, ghost dropped: seq<Packet>, ghost gone: seq<Packet>)
    requires PacketsOk(f.queue, longest)
    ensures Served(cfg, f, now, g, out, dropped, gone)
    ensures Visited(f, g, out)
  {
    g, dropped := f, [];
    assert Progress(cfg, f, now, g, dropped);
    hide Progress, Served, Examine, Markable, Bytes, Visited;
    while g.queue != []
      invariant Progress(cfg, f, now, g, dropped) && PacketsOk(g.queue, longest)
      decreases |g.queue|
    {
      var pkt := g.queue[0];
      var drop, codel := CodelShouldDrop(cfg.codel, g.codel, Sojourn(pkt, now), now);
      ghost var before := g;
      g := Pop(g).(codel := codel);
      if !drop {
        out, gone := Some(Out(pkt.id, pkt.data, pkt.at, f.hash, false)), dropped + [pkt];
        ServeDelivers(cfg, f, now, before, dropped, out.value);
        ServedVisits(cfg, f, now, g, out, dropped, gone);
        return;
      }
      if cfg.ceMarking {
        var marked, data := MarkCe(pkt.data);
        if marked {
          out, gone := Some(Out(pkt.id, data, pkt.at, f.hash, true)), dropped + [pkt];
          ServeDelivers(cfg, f, now, before, dropped, out.value);
          ServedVisits(cfg, f, now, g, out, dropped, gone);
          return;
        }
      }
      ServeDrops(cfg, f, now, before, dropped);
      dropped := [pkt];
    }
    out, gone := None, dropped;
    ServeEnds(cfg, f, now, g, dropped);
    ServedVisits(cfg, f, now, g, out, dropped, gone);
  }
}
