/** One direction of a TCP connection: the send buffer of one end, the receive buffer of the
    other, and a network between them that loses, duplicates and reorders.

    Everything ever transmitted stays on the wire for good, so any delivery order, repetition
    or loss is a choice of which element to deliver next. */
module Link {
  import opened Prelude
  import opened SeqSpace
  import SendStream
  import SendChoice
  import Send
  import Receive
  import Delivery

  /** A transmitted segment. `at` is the absolute position behind its sequence number. */
  datatype Segment = Segment(at: int, sequence: Seq32, payload: seq<byte>, fin: bool)

  /** A transmitted acknowledgment number, with the position behind it. */
  datatype Ack = Ack(position: int, number: Seq32)

  datatype Event =
    | Write(data: seq<byte>)
    | Shut
    | Transmit(peerWindow: int, now: int, pooled: bool, pacingRate: nat)
    | DeliverSegment(segment: Segment, psh: bool)
    | Acknowledge(window: nat)
    | DeliverAck(ack: Ack, peerWindow: int, now: int, ackOnly: bool, ece: bool, blocks: seq<(Seq32, Seq32)>)
    | Read(answers: nat -> Delivery.Answer, callBudget: nat)
    | LowerMss(mss: int)

  /** What is on the wire is true of the stream and has been committed by the sender. */
  ghost predicate WireOk(c: SendStream.Core, wire: set<Segment>)
  {
    forall s :: s in wire ==>
      && s.sequence == Wrap(c.iss + s.at)
      && SendStream.FromStream(c, s.at, s.payload, s.fin)
      && s.at + |s.payload| + SendChoice.Fin(s.fin) <= c.nxt
  }

  /** The receiver's history map agrees with the sender's stream. */
  ghost predicate Agree(c: SendStream.Core, received: map<int, byte>)
  {
    forall p :: p in received ==> 0 <= p < |c.stream| && p < c.nxt && received[p] == c.stream[p]
  }

  /** The wire stays true while the stream grows before a FIN and snd_nxt advances. */
  lemma WireStable(c: SendStream.Core, d: SendStream.Core, wire: set<Segment>, received: map<int, byte>)
    requires WireOk(c, wire) && Agree(c, received)
    requires d.iss == c.iss && c.stream <= d.stream && c.nxt <= d.nxt
    requires c.q.finRequested ==> d.q.finRequested && d.stream == c.stream
    ensures WireOk(d, wire) && Agree(d, received)
  {
    hide Wrap;
    forall s | s in wire
      ensures SendStream.FromStream(d, s.at, s.payload, s.fin)
    {
      assert s.payload == c.stream[s.at .. s.at + |s.payload|] == d.stream[s.at .. s.at + |s.payload|];
    }
  }

  lemma WireAdd(c: SendStream.Core, d: SendStream.Core, wire: set<Segment>, s: Segment)
    requires WireOk(d, wire) && SendStream.FromStream(c, s.at, s.payload, s.fin) && s.sequence == Wrap(c.iss + s.at)
    requires d.iss == c.iss && d.stream == c.stream && d.q.finRequested == c.q.finRequested
    requires s.at + |s.payload| + SendChoice.Fin(s.fin) <= d.nxt
    ensures WireOk(d, wire + {s})
  {
    hide Wrap;
  }

  /** Storing a true segment keeps the agreement. */
  lemma AgreeStored(c: SendStream.Core, before: map<int, byte>, after: map<int, byte>, s: Segment, lo: int, hi: int)
    requires Agree(c, before) && SendStream.FromStream(c, s.at, s.payload, s.fin)
    requires s.at + |s.payload| <= c.nxt && s.at <= lo && hi <= s.at + |s.payload|
    requires Receive.Stored(before, after, s.payload, s.at, lo, hi)
    ensures Agree(c, after)
  {
    hide Wrap;
    forall p | p in after
      ensures 0 <= p < |c.stream| && p < c.nxt && after[p] == c.stream[p]
    {
      if p !in before {
        assert after[p] == s.payload[p - s.at];
      }
    }
  }

  lemma WireAt(c: SendStream.Core, wire: set<Segment>, s: Segment)
    requires WireOk(c, wire) && s in wire
    ensures s.sequence == Wrap(c.iss + s.at) && SendStream.FromStream(c, s.at, s.payload, s.fin)
    ensures s.at + |s.payload| + SendChoice.Fin(s.fin) <= c.nxt
  {
  }

  /** The received prefix cannot run ahead of what was sent. */
  lemma FrontBelow(c: SendStream.Core, receiver: Receive.TcpReceiveBuffer)
    requires receiver.Valid() && Agree(c, receiver.received) && 0 <= c.nxt
    ensures receiver.DataNxt() <= c.nxt && receiver.DataNxt() <= |c.stream|
  {
    hide Wrap;
    assert receiver.DataNxt() > 0 ==> receiver.DataNxt() - 1 in receiver.received;
  }

  /** Storing the byte at the old front moves the front past it. */
  lemma FrontAdvances(receiver: Receive.TcpReceiveBuffer, before: map<int, byte>, s: Segment, lo: int, hi: int)
    requires receiver.Valid() && lo == s.at < hi <= s.at + |s.payload| && s.at <= receiver.DataNxt()
    requires Receive.Stored(before, receiver.received, s.payload, s.at, lo, hi)
    ensures s.at < receiver.DataNxt()
  {
    hide Wrap, Receive.Stored;
    Receive.StoredHolds(before, receiver.received, s.payload, s.at, lo, hi, s.at);
    receiver.HeldCount();
  }

  lemma ReleasedKeepsFin(q: SendStream.Queues)
    ensures SendStream.Released(q).finRequested == q.finRequested
  {
  }

  /** The segment brings the byte at rcv_nxt, and the window has room for it. */
  predicate InOrder(s: Segment, rcv: int, promised: int)
  {
    s.at == rcv < promised && 0 < |s.payload| < Receive.MAXIMUM_CAPACITY
  }

  /** The observer's absolute counters; the ends themselves only know wire numbers. */
  datatype Counters = Counters(una: int, nxt: int, rcv: int)

  class Connection {
    const sender: Send.TcpSendBuffer
    const receiver: Receive.TcpReceiveBuffer
    var wire: set<Segment>
    var ackWire: set<Ack>
    var count: Counters

    /** Safety of the connection, in absolute positions. */
    ghost predicate Linked()
      reads this, sender, receiver
    {
      && sender.iss == receiver.initial
      && count == Counters(sender.una, sender.nxt, receiver.Nxt())
      && WireOk(sender.View(), wire)
      && Agree(sender.View(), receiver.received)
      && count.una <= count.rcv <= count.nxt
      && (receiver.finReceived ==> sender.q.finRequested && receiver.DataNxt() == |sender.stream|)
      && (forall a :: a in ackWire ==> a.position <= count.rcv && a.number == Wrap(sender.iss + a.position))
    }

    ghost predicate Valid()
      reads this, sender, sender.controller, receiver, receiver.storage, receiver.occupancy
    {
      sender.Valid() && receiver.Valid() && Linked() && sender.pending.kind == SendChoice.NoPending
    }

    constructor (sender: Send.TcpSendBuffer, receiver: Receive.TcpReceiveBuffer)
      requires sender.Valid() && receiver.Valid() && sender.iss == receiver.initial
      requires sender.stream == [] && sender.una == sender.nxt == 0 && sender.pending.kind == SendChoice.NoPending
      requires receiver.received == map[] && receiver.delivered == [] && !receiver.finReceived
      ensures Valid() && this.sender == sender && this.receiver == receiver
    {
      this.sender, this.receiver := sender, receiver;
      wire, ackWire, count := {}, {}, Counters(0, 0, 0);
      new;
      assert 0 !in receiver.received;
    }

    method AppWrite(data: seq<byte>) returns (accepted: nat)
      requires Valid()
      modifies sender`q, sender`stream
      ensures Valid() && accepted <= |data| && sender.stream == old(sender.stream) + data[..accepted]
      ensures accepted < |data| ==> sender.q.finRequested || sender.q.closed || |sender.q.unsent| >= sender.cfg.sendQueueLimit
    {
      hide Send.Inv, Receive.TcpReceiveBuffer.Valid, WireOk, Agree, Wrap;
      ghost var c := sender.View();
      accepted := sender.Enqueue(data);
      assert receiver.finReceived ==> c.q.finRequested;
      WireStable(c, sender.View(), wire, receiver.received);
    }

    method AppClose()
      requires Valid()
      modifies sender`q
      ensures Valid() && (sender.q.closed || sender.q.finRequested)
    {
      hide Send.Inv, Receive.TcpReceiveBuffer.Valid, WireOk, Agree, Wrap;
      ghost var c := sender.View();
      var ok := sender.RequestFin();
      WireStable(c, sender.View(), wire, receiver.received);
    }

    /** The send pump: describe, retain a copy, commit, put on the wire. Without a buffer the
        described transmission is forgotten. With one, a sender that has work sends, closes, or
        waits for a deadline. */
    method Transmit(peerWindow: int, now: int, pooled: bool, pacingRate: nat) returns (sent: set<Segment>)
      requires Valid() && 0 <= peerWindow <= U32_MAX && 0 <= now <= U64_MAX
      modifies this`wire, this`count, sender, sender.controller
      ensures Valid() && wire == old(wire) + sent && count.una == old(count.una) && count.rcv == old(count.rcv)
      ensures pooled && !old(sender.q.closed) && Send.HasWork(old(sender.q)) ==>
                sent != {} || sender.q.closed || sender.Waiting(now)
    {
      hide Send.Inv, Receive.TcpReceiveBuffer.Valid, WireOk, Agree, Wrap, SendStream.FromStream, SendChoice.ChoiceOk,
           Send.TcpSendBuffer.Waiting, Send.HasWork, SendStream.Released, Send.TcpSendBuffer.FreshDue, Send.KeepsEdge, Send.Commits;
      ghost var c := sender.View();
      sent := {};
      var r, at := sender.NextSegment(peerWindow, now);
      ReleasedKeepsFin(c.q);
      WireStable(c, sender.View(), wire, receiver.received);
      if !r.hasSegment {
        return;
      }
      if !pooled {
        sender.ResetPending();
        return;
      }
      var segment := PutOnWire(r, at, now, pacingRate);
      sent := {segment};
    }

    /** A described segment, with a copy of its payload retained, goes out. */
    method PutOnWire(r: SendChoice.NextResult, ghost at: int, now: int, pacingRate: nat) returns (segment: Segment)
      requires sender.Valid() && receiver.Valid() && Linked() && 0 <= now <= U64_MAX && r.hasSegment
      requires at == (if r.isRetransmission then sender.una else sender.nxt)
      requires SendChoice.ChoiceOk(sender.View(), sender.cfg.retransmitLimit, SendChoice.Transmit(r, sender.pending), at)
      modifies this`wire, this`count, sender, sender.controller
      ensures Valid() && wire == old(wire) + {segment} && count.una == old(count.una) && count.rcv == old(count.rcv)
    {
      hide Send.Inv, Receive.TcpReceiveBuffer.Valid, WireOk, Agree, Wrap, SendStream.FromStream, Send.Commits;
      segment := Segment(if r.isRetransmission then count.una else count.nxt, r.sequence, r.payload, r.isFin);
      var owner := if !r.isRetransmission && r.payload != [] then Some(r.payload) else None;
      sender.CopyBacks(r, at);
      ghost var d := sender.View();
      sender.OnSent(owner, 0, now, pacingRate);
      WireStable(d, sender.View(), wire, receiver.received);
      WireAdd(d, sender.View(), wire, segment);
      if !r.isRetransmission {
        count := count.(nxt := count.nxt + |r.payload| + SendChoice.Fin(r.isFin));
      }
      wire := wire + {segment};
    }

    /** Payload bytes of an arriving segment enter the ring. */
    method StoreArrival(segment: Segment, psh: bool) returns (r: Receive.ReceiveResult)
      requires Valid() && segment in wire && -HALF < segment.at - count.rcv < HALF && !receiver.finReceived
      modifies this`count, receiver, receiver.storage, receiver.occupancy
      ensures Valid() && !receiver.finReceived
      ensures r.disposition.Accepted? ==> segment.at + |segment.payload| > old(count.rcv)
      ensures old(count.rcv) <= count.rcv < old(count.rcv) + HALF
      ensures InOrder(segment, old(count.rcv), old(receiver.promised)) ==> count.rcv > old(count.rcv)
    {
      hide Send.TcpSendBuffer.Valid, Receive.Stored, WireOk, Agree, Wrap, Receive.RingOk, Receive.PromiseOk, Receive.FrontOk,
           Receive.TcpReceiveBuffer.RunAround, SequenceOffset, Sub32, Receive.RfcAcceptable, SendStream.FromStream;
      ghost var c := sender.View();
      ghost var held := receiver.received;
      WireAt(c, wire, segment);
      OffsetLaw(sender.iss + segment.at, sender.iss + count.rcv);
      var ready := receiver.readyBytes;
      ghost var placed := 1 <= |segment.payload| <= Receive.MAXIMUM_CAPACITY &&
                          receiver.IsSequenceAcceptable(segment.sequence, |segment.payload|);
      ghost var lo, hi := Max(segment.at, receiver.DataNxt()), Min(segment.at + |segment.payload|, receiver.promised);
      ghost var due := InOrder(segment, count.rcv, receiver.promised);
      if due {
        receiver.AcceptabilityLaw(segment.at, |segment.payload|);
      }
      ghost var newest;
      r, newest := receiver.OnSegment(segment.sequence, segment.payload, psh);
      assert placed ==> lo <= newest < hi;
      assert !placed ==> r.acceptedBytes == 0 && receiver.received == held;
      if placed {
        AgreeStored(c, held, receiver.received, segment, lo, hi);
      }
      if due {
        FrontAdvances(receiver, held, segment, lo, hi);
      }
      count := count.(rcv := count.rcv + receiver.readyBytes - ready);
      FrontBelow(c, receiver);
    }

    /** A FIN at rcv_nxt ends the stream. */
    method FinArrives(segment: Segment)
      requires Valid() && segment in wire && segment.fin && segment.at + |segment.payload| == count.rcv
      modifies this`count, receiver`rcvNxt, receiver`finReceived
      ensures Valid()
    {
      hide Send.TcpSendBuffer.Valid, Receive.TcpReceiveBuffer.Valid, WireOk, Agree, Wrap;
      WireAt(sender.View(), wire, segment);
      receiver.ConsumeFin();
      count := count.(rcv := count.rcv + 1);
    }

    /** Data and FIN of an arriving segment, as ProcessEstablished handles them. The network
        does not hold a segment for more than half the sequence space. */
    method Arrive(segment: Segment, psh: bool)
      requires Valid() && segment in wire && -HALF < segment.at - count.rcv < HALF
      modifies this`count, receiver, receiver.storage, receiver.occupancy
      ensures Valid() && count.rcv >= old(count.rcv) && count.una == old(count.una)
      ensures InOrder(segment, old(count.rcv), old(receiver.promised)) && !old(receiver.finReceived) ==> count.rcv > old(count.rcv)
    {
      hide Send.Inv, Receive.TcpReceiveBuffer.Numbers, WireOk, Agree, Wrap, Receive.RingOk, Receive.PromiseOk, Receive.FrontOk;
      var length := |segment.payload|;
      WireAt(sender.View(), wire, segment);
      Registers();
      Outstanding();
      if InOrder(segment, count.rcv, receiver.promised) && !receiver.finReceived {
        receiver.AcceptabilityLaw(segment.at, length + SendChoice.Fin(segment.fin));
      }
      if !receiver.IsSequenceAcceptable(segment.sequence, length + SendChoice.Fin(segment.fin)) {
        return;
      }
      if length == 0 {
        if segment.fin && segment.sequence == receiver.rcvNxt {
          SameWire(sender.iss + segment.at, sender.iss + count.rcv);
          FinArrives(segment);
        }
        return;
      }
      if receiver.finReceived {
        return;
      }
      var r := StoreArrival(segment, psh);
      if segment.fin && r.disposition.Accepted? {
        Registers();
        WrapAdd(sender.iss + segment.at, length);
        if Add32(segment.sequence, length) == receiver.rcvNxt {
          SameWire(sender.iss + segment.at + length, sender.iss + count.rcv);
          FinArrives(segment);
        }
      }
    }

    /** The receiver acknowledges rcv_nxt and records the window it offers. */
    method Acknowledge(window: nat)
      requires Valid()
      modifies this`ackWire, receiver`rcvAdv, receiver`promised
      ensures Valid() && ackWire == old(ackWire) + {Ack(count.rcv, receiver.rcvNxt)}
    {
      hide Send.TcpSendBuffer.Valid, WireOk, Agree, Wrap, Receive.RingOk, Receive.PromiseOk, Receive.FrontOk;
      Registers();
      receiver.RecordAdvertisedWindow(window);
      ackWire := ackWire + {Ack(count.rcv, receiver.rcvNxt)};
    }

    /** An acknowledgment arrives, with any window and any SACK blocks. */
    method AckArrives(ack: Ack, peerWindow: int, now: int, ackOnly: bool, ece: bool, blocks: seq<(Seq32, Seq32)>)
      requires Valid() && ack in ackWire && -HALF < ack.position - count.una
      requires 0 <= peerWindow <= U32_MAX && 0 <= now <= U64_MAX
      modifies this`count, sender, sender.controller
      ensures Valid() && count.una == Max(old(count.una), ack.position)
    {
      hide Send.Inv, Receive.TcpReceiveBuffer.Valid, WireOk, Agree, Wrap;
      ghost var c := sender.View();
      Registers();
      Outstanding();
      WrapSub(sender.iss + ack.position, sender.iss + count.una);
      SmallWrap(ack.position - count.una);
      var r := sender.OnAck(ack.number, peerWindow, now, ackOnly, ece);
      if r.duplicate {
        var newlySacked := sender.OnSack(blocks);
      }
      count := count.(una := Max(count.una, ack.position));
      WireStable(c, sender.View(), wire, receiver.received);
    }

    /** The session takes bytes from the ring. */
    method AppRead(answers: nat -> Delivery.Answer, callBudget: nat)
      requires Valid()
      modifies receiver`firstUndelivered, receiver`firstIndex, receiver`bytesHeld, receiver`readyBytes, receiver`delivered,
               receiver`blocked, receiver.occupancy
      ensures Valid() && old(receiver.delivered) <= receiver.delivered
    {
      hide Send.TcpSendBuffer.Valid, Receive.TcpReceiveBuffer.Valid, WireOk, Agree, Wrap;
      var r, handed, offered := Delivery.DrainTcpReceiveBuffer(receiver, answers, callBudget);
    }

    method LowerMss(mss: int)
      requires Valid() && 0 <= mss <= 0xFFFF
      modifies sender`mss, sender.controller
      ensures Valid()
    {
      hide Send.Inv, Receive.TcpReceiveBuffer.Valid, WireOk, Agree, Wrap;
      sender.UpdateMss(mss);
    }

    lemma Registers()
      requires Valid()
      ensures receiver.rcvNxt == Wrap(sender.iss + count.rcv) && sender.snd.una == Wrap(sender.iss + count.una)
    {
    }

    lemma Outstanding()
      requires Valid()
      ensures 0 <= count.nxt - count.una < HALF
    {
    }

    /** What safety means to the two applications: the bytes handed over are a prefix of the
        bytes written, nothing is acknowledged that was not received, and an acknowledged FIN
        means the whole stream arrived in order. */
    ghost predicate InOrderPrefix()
      reads sender, receiver
    {
      && receiver.delivered <= sender.stream
      && sender.una <= receiver.Nxt() <= sender.nxt
      && (forall p :: 0 <= p < receiver.DataNxt() ==>
            p < |sender.stream| && p in receiver.received && receiver.received[p] == sender.stream[p])
      && (sender.q.finAcked ==> receiver.finReceived && receiver.DataNxt() == |sender.stream|)
    }

    lemma SafetyTheorem()
      requires Valid()
      ensures InOrderPrefix()
    {
      hide Wrap;
      FrontBelow(sender.View(), receiver);
      forall p | 0 <= p < |receiver.delivered|
        ensures p < |sender.stream| && receiver.delivered[p] == sender.stream[p]
      {
        assert p in receiver.received;
      }
    }

    method Step(e: Event)
      requires Valid()
      modifies this, sender, sender.controller, receiver, receiver.storage, receiver.occupancy
      ensures Valid()
    {
      hide Valid;
      match e
      case Write(data) =>
        var accepted := AppWrite(data);
      case Shut => AppClose();
      case Transmit(peerWindow, now, pooled, pacingRate) =>
        if 0 <= peerWindow <= U32_MAX && 0 <= now <= U64_MAX {
          var sent := Transmit(peerWindow, now, pooled, pacingRate);
        }
      case DeliverSegment(segment, psh) =>
        if segment in wire && -HALF < segment.at - count.rcv < HALF {
          Arrive(segment, psh);
        }
      case Acknowledge(window) => Acknowledge(window);
      case DeliverAck(ack, peerWindow, now, ackOnly, ece, blocks) =>
        if ack in ackWire && -HALF < ack.position - count.una &&
           0 <= peerWindow <= U32_MAX && 0 <= now <= U64_MAX {
          AckArrives(ack, peerWindow, now, ackOnly, ece, blocks);
        }
      case Read(answers, callBudget) => AppRead(answers, callBudget);
      case LowerMss(mss) =>
        if 0 <= mss <= 0xFFFF {
          LowerMss(mss);
        }
    }

    /** End to end, for every interleaving of application calls, transmissions,
        retransmissions, probes, deliveries, losses, repetitions and reorderings. */
    method Run(script: seq<Event>)
      requires Valid()
      modifies this, sender, sender.controller, receiver, receiver.storage, receiver.occupancy
      ensures Valid() && InOrderPrefix()
    {
      hide Valid, InOrderPrefix;
      var i := 0;
      while i < |script|
        invariant Valid()
      {
        Step(script[i]);
        i := i + 1;
      }
      SafetyTheorem();
    }
  }
}
