/** What a TCP sender transmits next, as a function of its queues. */
module SendChoice {
  import opened Prelude
  import opened SeqSpace
  import opened SendStream

  datatype PendingKind =
    | NoPending | NewData | RtoRetransmit | FastRetransmit | PersistNew | PersistRetry | PersistExisting | PersistPromote

  /** The transmission described by NextSegment and not yet committed by OnSent. */
  datatype Pending = Pending(kind: PendingKind, isFin: bool, setCwr: bool, sequence: Seq32, len: int)

  datatype NextResult = NextResult(
    hasSegment: bool,
    isRetransmission: bool,
    isZeroWindowProbe: bool,
    isFin: bool,
    setCwr: bool,
    payload: seq<byte>,
    sequence: Seq32)

  datatype Choice = Nothing | Transmit(result: NextResult, pending: Pending)

  function Fin(fin: bool): (n: int)
  {
    if fin then 1 else 0
  }

  /** A record sent again in full. */
  function Again(r: SendRecord, kind: PendingKind, probe: bool, setCwr: bool): (c: Choice)
  {
    var fin := r.logicalLength > |r.data|;
    Transmit(NextResult(true, true, probe, fin, setCwr, r.data, r.sequence),
             Pending(kind, fin, setCwr, r.sequence, r.logicalLength))
  }

  /** New data from the front of the unsent queue. */
  function Fresh(q: Queues, kind: PendingKind, probe: bool, setCwr: bool, sndNxt: Seq32, n: int, fin: bool): (c: Choice)
    requires 0 <= n <= |q.unsent|
  {
    Transmit(NextResult(true, false, probe, fin, setCwr, q.unsent[..n], sndNxt),
             Pending(kind, fin, setCwr, sndNxt, n + Fin(fin)))
  }

  /** The zero-window branch once the persist timer has expired. */
  function ProbeChoice(q: Queues, sndNxt: Seq32, retransmitLimit: int, setCwr: bool): (c: Choice)
  {
    if q.probe.Some? then Again(q.probe.value, PersistRetry, true, setCwr)
    else if q.records != [] then
      var r := q.records[0];
      var n := if r.data == [] then 0 else 1;
      var fin := n == 0 && r.logicalLength > |r.data|;
      Transmit(NextResult(true, true, true, fin, setCwr, r.data[..n], r.sequence),
               Pending(PersistExisting, fin, setCwr, r.sequence, n + Fin(fin)))
    else if q.retransmitBytes >= retransmitLimit then Nothing
    else if q.unsent != [] then Fresh(q, PersistNew, true, setCwr, sndNxt, 1, false)
    else if q.finRequested && !q.finSent then Fresh(q, PersistNew, true, setCwr, sndNxt, 0, true)
    else Nothing
  }

  /** A timer-driven or fast retransmission of the front record, cut to the segment size. */
  function RetransmitChoice(r: SendRecord, kind: PendingKind, mss: int, peerWindow: int, setCwr: bool): (c: Choice)
    requires 1 <= mss && 1 <= peerWindow
  {
    var n := Min(|r.data|, Min(mss, peerWindow));
    var fin := r.logicalLength > |r.data| && n == |r.data| && n < peerWindow;
    if n == 0 && !fin then Nothing
    else Transmit(NextResult(true, true, false, fin, setCwr, r.data[..n], r.sequence),
                  Pending(kind, fin, setCwr, r.sequence, n + Fin(fin)))
  }

  function NewChoice(q: Queues, sndNxt: Seq32, mss: int, usable: int, available: int, setCwr: bool): (c: Choice)
    requires 0 <= mss && 0 <= usable && 0 <= available
  {
    var n := Min(Min(|q.unsent|, mss), Min(usable, available));
    var finDue := q.finRequested && !q.finSent;
    if n != 0 then
      Fresh(q, NewData, false, setCwr, sndNxt, n, finDue && n == |q.unsent| && n < usable && n < available)
    else if finDue && usable != 0 && available != 0 then Fresh(q, NewData, false, setCwr, sndNxt, 0, true)
    else Nothing
  }

  /** What NextSegment promised and OnSent may rely on. */
  ghost predicate PendingOk(c: Core, limit: int, p: Pending)
  {
    && (p.kind != NoPending ==> !c.q.closed)
    && (p.kind == NewData || p.kind == PersistNew ==>
          && c.q.probe.None? && 0 <= p.len - Fin(p.isFin) <= |c.q.unsent| && p.sequence == Wrap(c.iss + c.nxt)
          && 0 < p.len <= limit - c.q.retransmitBytes
          && (p.isFin ==> c.q.finRequested && !c.q.finSent && p.len == |c.q.unsent| + 1))
    && (p.kind == PersistNew ==> c.q.records == [] && p.len == 1)
  }

  /** Every transmission carries the stream bytes at its sequence number; retransmissions
      stay below snd_nxt, new data starts there, and the FIN sits at the stream's end. */
  ghost predicate ChoiceOk(c: Core, limit: int, choice: Choice, at: int)
  {
    choice.Transmit? ==>
      var r := choice.result;
      && r.hasSegment
      && FromStream(c, at, r.payload, r.isFin) && r.sequence == Wrap(c.iss + at)
      && c.una <= at && 0 < |r.payload| + Fin(r.isFin)
      && (if r.isRetransmission then at + |r.payload| + Fin(r.isFin) <= c.nxt else at == c.nxt)
      && choice.pending.len == |r.payload| + Fin(r.isFin) && choice.pending.isFin == r.isFin
      && choice.pending.kind != NoPending
      && (choice.pending.kind == NewData || choice.pending.kind == PersistNew <==> !r.isRetransmission)
      && PendingOk(c, limit, choice.pending)
  }

  /** Retransmissions repeat the oldest outstanding position, everything else continues. */
  ghost function Position(c: Core, choice: Choice): (at: int)
  {
    if choice.Transmit? && choice.result.isRetransmission then c.una else c.nxt
  }

  /** Anything cut from a good record is a good segment. */
  lemma RecordPrefix(c: Core, r: SendRecord, from: int, n: int, fin: bool)
    requires RecordOk(c, r, from) && 0 <= n <= |r.data| && (c.q.finSent ==> c.q.finRequested)
    requires fin ==> r.logicalLength > |r.data| && n == |r.data|
    ensures FromStream(c, from, r.data[..n], fin) && n + Fin(fin) <= r.logicalLength
  {
    hide Wrap;
    assert r.data[..n] == c.stream[from .. from + n];
  }

  lemma FreshOk(c: Core, limit: int, kind: PendingKind, probe: bool, setCwr: bool, sndNxt: Seq32, n: int, fin: bool)
    requires StreamOk(c, limit) && !c.q.closed && c.q.probe.None? && sndNxt == Wrap(c.iss + c.nxt)
    requires kind == NewData || (kind == PersistNew && c.q.records == [] && n + Fin(fin) == 1)
    requires 0 <= n <= |c.q.unsent| && 0 < n + Fin(fin) <= limit - c.q.retransmitBytes
    requires fin ==> c.q.finRequested && !c.q.finSent && n == |c.q.unsent|
    ensures ChoiceOk(c, limit, Fresh(c.q, kind, probe, setCwr, sndNxt, n, fin), c.nxt)
  {
    hide Wrap;
    if !c.q.finSent {
      assert c.q.unsent[..n] == c.stream[c.nxt .. c.nxt + n];
    }
  }

  lemma ProbeChoiceOk(c: Core, limit: int, sndNxt: Seq32, setCwr: bool)
    requires StreamOk(c, limit) && !c.q.closed && sndNxt == Wrap(c.iss + c.nxt) && 1 <= limit
    ensures var choice := ProbeChoice(c.q, sndNxt, limit, setCwr);
            ChoiceOk(c, limit, choice, Position(c, choice))
    ensures ProbeChoice(c.q, sndNxt, limit, setCwr).Transmit? <==>
              c.q.unsent != [] || c.q.records != [] || c.q.probe.Some? || (c.q.finRequested && !c.q.finSent)
  {
    hide Wrap;
    if c.q.probe.Some? {
      var r := c.q.probe.value;
      RecordPrefix(c, r, c.una, |r.data|, r.logicalLength > |r.data|);
      assert r.data[..|r.data|] == r.data;
    } else if c.q.records != [] {
      var r := c.q.records[0];
      TiledSpan(c, c.q.records[1..], c.una + r.logicalLength);
      RecordPrefix(c, r, c.una, if r.data == [] then 0 else 1, r.data == []);
    } else if c.q.unsent != [] {
      FreshOk(c, limit, PersistNew, true, setCwr, sndNxt, 1, false);
    } else if c.q.finRequested && !c.q.finSent {
      FreshOk(c, limit, PersistNew, true, setCwr, sndNxt, 0, true);
    }
  }

  lemma RetransmitChoiceOk(c: Core, limit: int, kind: PendingKind, mss: int, peerWindow: int, setCwr: bool)
    requires StreamOk(c, limit) && !c.q.closed && c.q.records != [] && 1 <= mss && 1 <= peerWindow
    requires kind == RtoRetransmit || kind == FastRetransmit
    ensures var choice := RetransmitChoice(c.q.records[0], kind, mss, peerWindow, setCwr);
            && choice.Transmit? && ChoiceOk(c, limit, choice, c.una) && choice.pending.len <= peerWindow
            && choice.result.isRetransmission && !choice.result.isZeroWindowProbe
  {
    hide Wrap;
    var r := c.q.records[0];
    var n := Min(|r.data|, Min(mss, peerWindow));
    TiledSpan(c, c.q.records[1..], c.una + r.logicalLength);
    RecordPrefix(c, r, c.una, n, r.logicalLength > |r.data| && n == |r.data| && n < peerWindow);
  }

  lemma PromoteChoiceOk(c: Core, limit: int, setCwr: bool)
    requires StreamOk(c, limit) && !c.q.closed && c.q.probe.Some?
    ensures ChoiceOk(c, limit, Again(c.q.probe.value, PersistPromote, false, setCwr), c.una)
    ensures c.q.probe.value.logicalLength == 1
  {
    hide Wrap;
    var r := c.q.probe.value;
    RecordPrefix(c, r, c.una, |r.data|, r.logicalLength > |r.data|);
    assert r.data[..|r.data|] == r.data;
  }

  lemma NewChoiceOk(c: Core, limit: int, sndNxt: Seq32, mss: int, usable: int, available: int, setCwr: bool)
    requires StreamOk(c, limit) && !c.q.closed && c.q.probe.None? && sndNxt == Wrap(c.iss + c.nxt)
    requires 1 <= mss && 0 < usable && 0 < available == limit - c.q.retransmitBytes
    requires c.q.unsent != [] || (c.q.finRequested && !c.q.finSent)
    ensures var choice := NewChoice(c.q, sndNxt, mss, usable, available, setCwr);
            && choice.Transmit? && ChoiceOk(c, limit, choice, c.nxt) && choice.pending.len <= usable
            && !choice.result.isRetransmission && !choice.result.isZeroWindowProbe
  {
    hide Wrap;
    var n := Min(Min(|c.q.unsent|, mss), Min(usable, available));
    var finDue := c.q.finRequested && !c.q.finSent;
    FreshOk(c, limit, NewData, false, setCwr, sndNxt, n,
            if n != 0 then finDue && n == |c.q.unsent| && n < usable && n < available else true);
  }
}
