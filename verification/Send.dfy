/** The TCP send buffer: unsent queue, retransmission queue, persist probe, SACK scoreboard
    and the RTO, persist and pacing deadlines. Congestion control is AIMD. */
module Send {
  import opened Prelude
  import opened SeqSpace
  import opened SendStream
  import opened SendChoice
  import opened Congestion

  datatype Config = Config(
    sendQueueLimit: int,
    retransmitLimit: int,
    minRtoMs: int,
    maxRtoMs: int,
    persistBaseMs: int,
    persistMaxMs: int,
    maxRetransmissions: int,
    maxPersistProbes: int)
  {
    /** What TcpSendConfig::Validate demands, with the retransmission limit kept below half
        the sequence space so that snd_una and snd_max stay comparable. */
    predicate Ok()
    {
      && 1 <= sendQueueLimit && 1 <= retransmitLimit < HALF
      && 1 <= minRtoMs <= maxRtoMs <= U64_MAX && 1 <= persistBaseMs <= persistMaxMs <= U64_MAX
      && 1 <= maxRetransmissions && 1 <= maxPersistProbes
    }
  }

  /** The retransmission timer and the round-trip estimator. */
  datatype Rto = Rto(ms: int, deadline: int, running: bool, srttValid: bool, srtt: int, rttvar: int)

  datatype Persist = Persist(deadline: int, current: int, probeCount: int)

  /** Duplicate-acknowledgment tracking. */
  datatype DupAcks = DupAcks(count: int, lastPeerWindow: int, windowValid: bool)

  /** Every deadline of the sender, and the flag that replaces one. */
  datatype Timers = Timers(rto: Rto, persist: Persist, nextSendMs: int, fastRetransmit: bool)

  /** snd_una, snd_nxt and snd_max. */
  datatype Registers = Registers(una: Seq32, nxt: Seq32, max: Seq32)

  datatype AckResult = AckResult(
    newlyAcked: int,
    duplicate: bool,
    fastRetransmit: bool,
    fullyAcked: bool,
    unacceptable: bool,
    retransmitQueueBytes: int)

  const NO_SEGMENT := NextResult(false, false, false, false, false, [], 0)
  const NO_PENDING := Pending(NoPending, false, false, 0, 0)

  predicate HasWork(q: Queues)
  {
    q.unsent != [] || q.records != [] || q.probe.Some? || (q.finRequested && !q.finSent)
  }

  // ---------------------------------------------------------------------------------
  // Timers.
  // ---------------------------------------------------------------------------------

  predicate RtoOk(cfg: Config, rto: Rto, records: seq<SendRecord>, fast: bool)
  {
    && cfg.minRtoMs <= rto.ms <= cfg.maxRtoMs && 0 <= rto.deadline <= U64_MAX
    && 0 <= rto.srtt <= U64_MAX && 0 <= rto.rttvar <= U64_MAX
    && (rto.running ==> records != [] && (rto.deadline > 0 || fast))
  }

  predicate PersistOk(cfg: Config, p: Persist)
  {
    cfg.persistBaseMs <= p.current <= cfg.persistMaxMs && 0 <= p.deadline <= U64_MAX
  }

  function Stopped(rto: Rto): (r: Rto)
  {
    rto.(running := false, deadline := 0)
  }

  /** ArmRto: running exactly while something is in flight, with a deadline in the future. */
  function Armed(rto: Rto, now: int, records: seq<SendRecord>): (r: Rto)
    ensures r.running <==> records != []
    ensures rto.ms > 0 && now >= 0 && r.running ==> 0 < r.deadline <= U64_MAX && (r.deadline > now || now >= U64_MAX)
  {
    if records == [] then Stopped(rto) else rto.(running := true, deadline := SaturatingAdd(now, rto.ms))
  }

  predicate RetransmitExpired(q: Queues, rto: Rto, now: int)
  {
    !q.closed && rto.running && rto.deadline != 0 && now >= rto.deadline
  }

  function PersistArmed(cfg: Config, p: Persist, q: Queues, now: int): (r: Persist)
  {
    if q.closed || !HasWork(q) || p.deadline != 0 then p
    else p.(current := cfg.persistBaseMs, deadline := SaturatingAdd(now, cfg.persistBaseMs))
  }

  predicate PersistExpired(q: Queues, p: Persist, now: int)
  {
    !q.closed && p.deadline != 0 && now >= p.deadline
  }

  function PersistCancelled(cfg: Config): (r: Persist)
  {
    Persist(0, cfg.persistBaseMs, 0)
  }

  /** ScheduleNextPersist: one more probe, the interval doubled up to its cap. */
  function PersistNext(cfg: Config, p: Persist, now: int): (r: Persist)
    requires cfg.Ok() && PersistOk(cfg, p)
    ensures r.current == Min(2 * p.current, cfg.persistMaxMs)
  {
    var doubled := if p.current >= cfg.persistMaxMs || p.current > cfg.persistMaxMs / 2 then cfg.persistMaxMs else p.current * 2;
    Persist(SaturatingAdd(now, doubled), doubled, p.probeCount + 1)
  }

  /** Exponential backoff, capped (section 5.5 of RFC 6298). */
  function BackedOff(cfg: Config, rto: Rto): (r: Rto)
    requires cfg.Ok() && cfg.minRtoMs <= rto.ms <= cfg.maxRtoMs
    ensures r.ms == Min(2 * rto.ms, cfg.maxRtoMs)
  {
    if rto.ms >= cfg.maxRtoMs || rto.ms > cfg.maxRtoMs / 2 then rto.(ms := cfg.maxRtoMs) else rto.(ms := rto.ms * 2)
  }

  /** The estimator of section 2 of RFC 6298, in wrapping 64-bit arithmetic. */
  function Sampled(cfg: Config, rto: Rto, rtt: int): (r: Rto)
    requires 0 <= rtt <= U64_MAX && 0 <= rto.srtt <= U64_MAX && 0 <= rto.rttvar <= U64_MAX
    requires cfg.minRtoMs <= cfg.maxRtoMs
    ensures cfg.minRtoMs <= r.ms <= cfg.maxRtoMs && 0 <= r.srtt <= U64_MAX && 0 <= r.rttvar <= U64_MAX
    ensures r.running == rto.running && r.deadline == rto.deadline
  {
    var difference := if rto.srtt > rtt then rto.srtt - rtt else rtt - rto.srtt;
    var rttvar := if rto.srttValid then ((3 * rto.rttvar + difference) % (U64_MAX + 1)) / 4 else rtt / 2;
    var srtt := if rto.srttValid then ((7 * rto.srtt + rtt) % (U64_MAX + 1)) / 8 else rtt;
    var variation := if rttvar > U64_MAX / 4 then U64_MAX else Max(1, rttvar * 4);
    rto.(srttValid := true, srtt := srtt, rttvar := rttvar,
         ms := Max(cfg.minRtoMs, Min(SaturatingAdd(srtt, variation), cfg.maxRtoMs)))
  }

  /** The deadlines after an acknowledgment of new data: an open window restarts the
      retransmission timer for what is still in flight, a closed one hands over to persist. */
  function AckTimers(cfg: Config, t: Timers, rto: Rto, q: Queues, peerWindow: int, now: int, recovering: bool,
                     partialRto: bool): (r: Timers)
    requires cfg.Ok() && PersistOk(cfg, t.persist) && 0 <= now <= U64_MAX && 0 <= t.nextSendMs <= U64_MAX
    requires cfg.minRtoMs <= rto.ms <= cfg.maxRtoMs && 0 <= rto.srtt <= U64_MAX && 0 <= rto.rttvar <= U64_MAX
    ensures RtoOk(cfg, r.rto, q.records, r.fastRetransmit) && PersistOk(cfg, r.persist) && 0 <= r.nextSendMs <= U64_MAX
    ensures r.rto.running <==> q.records != [] && peerWindow != 0
    ensures peerWindow == 0 && !q.closed && HasWork(q) ==> r.persist.deadline > 0
  {
    var redo := partialRto && peerWindow != 0 && q.records != [];
    Timers(if q.records == [] || peerWindow == 0 then Stopped(rto)
           else if redo then rto.(running := true, deadline := now)
           else Armed(rto, now, q.records),
           if peerWindow == 0 then PersistArmed(cfg, PersistCancelled(cfg), q, now) else PersistCancelled(cfg),
           t.nextSendMs,
           redo || (!recovering && t.fastRetransmit))
  }

  /** Milliseconds that `length` bytes take at `rate` bytes per second. */
  function PaceInterval(length: nat, rate: nat): (ms: nat)
    requires rate > 0
  {
    length * 1000 / rate
  }

  /** No outstanding record has used up its timer retransmissions. */
  ghost predicate LedgerOk(q: Queues, most: int)
  {
    && (forall i :: 0 <= i < |q.records| ==> q.records[i].rtoAttempts < most && 0 <= q.records[i].sentTime)
    && (q.probe.Some? ==> q.probe.value.rtoAttempts < most && 0 <= q.probe.value.sentTime)
  }

  ghost predicate TimersOk(cfg: Config, t: Timers, records: seq<SendRecord>)
  {
    RtoOk(cfg, t.rto, records, t.fastRetransmit) && PersistOk(cfg, t.persist) && 0 <= t.nextSendMs <= U64_MAX
  }

  /** The wire registers are residues of the absolute positions, and snd_max is snd_nxt. */
  ghost predicate NumbersOk(c: Core, snd: Registers)
  {
    snd.una == Wrap(c.iss + c.una) && snd.nxt == snd.max == Wrap(c.iss + c.nxt)
  }

  predicate SizesOk(cfg: Config, q: Queues, sack: Scoreboard)
  {
    |q.unsent| <= cfg.sendQueueLimit && 0 <= sack.sackedSequence < MODULUS && 0 <= sack.sackedBytes
  }

  ghost predicate Inv(cfg: Config, c: Core, snd: Registers, t: Timers, sack: Scoreboard, p: Pending)
  {
    && cfg.Ok()
    && StreamOk(c, cfg.retransmitLimit)
    && NumbersOk(c, snd)
    && TimersOk(cfg, t, c.q.records)
    && SizesOk(cfg, c.q, sack)
    && LedgerOk(c.q, cfg.maxRetransmissions)
    && PendingOk(c, cfg.retransmitLimit, p)
  }

  lemma NextRegister(c: Core, snd: Registers)
    requires NumbersOk(c, snd)
    ensures snd.nxt == Wrap(c.iss + c.nxt)
  {
  }

  /** What the open-window branch reads off the queues. */
  lemma OpenFacts(c: Core, limit: int)
    requires StreamOk(c, limit) && !c.q.closed
    ensures 0 <= c.q.retransmitBytes == c.nxt - c.una
    ensures c.q.records == [] || c.q.probe.Some? ==> c.q.inFlightSequence == 0
    ensures c.q.records == [] && c.q.probe.None? ==> c.q.retransmitBytes == 0
    ensures c.q.probe.None? ==> c.q.inFlightSequence == c.nxt - c.una
  {
    hide Wrap;
  }

  lemma ProbeIsProbe(q: Queues, sndNxt: Seq32, retransmitLimit: int, setCwr: bool)
    ensures var c := ProbeChoice(q, sndNxt, retransmitLimit, setCwr); c.Transmit? ==> c.result.isZeroWindowProbe
  {
  }

  lemma CutBounds(c: Core, limit: int, r: SendRecord, fin: bool)
    requires StreamOk(c, limit) && !c.q.closed && Cut(c, limit, r, fin)
    ensures 0 < r.logicalLength <= limit < HALF && |r.data| <= |c.q.unsent|
    ensures var q := Stored(c.q, r, fin);
            && q.records == c.q.records + [r] && q.probe == c.q.probe && |q.unsent| <= |c.q.unsent|
            && !q.closed && q.finRequested == c.q.finRequested
  {
    hide Wrap;
  }

  lemma LedgerStored(q: Queues, r: SendRecord, fin: bool, most: int)
    requires LedgerOk(q, most) && r.rtoAttempts < most && 0 <= r.sentTime && |r.data| <= |q.unsent|
    ensures LedgerOk(Stored(q, r, fin), most)
  {
  }

  /** Storing moves snd_nxt forward, so snd_max follows it. */
  lemma AheadLaw(from: int, amount: Seq32)
    requires 0 < amount < HALF
    ensures Add32(Wrap(from), amount) == Wrap(from + amount) && SequenceAfter(Wrap(from + amount), Wrap(from))
  {
    WrapAdd(from, amount);
    ComparisonLaw(from + amount, from);
  }

  lemma ProbeAlone(c: Core, limit: int)
    requires StreamOk(c, limit) && c.q.probe.Some?
    ensures !c.q.closed && c.q.records == []
  {
    hide Wrap;
  }

  lemma InFlight(c: Core, limit: int)
    requires StreamOk(c, limit) && c.q.records != []
    ensures !c.q.closed && 0 <= c.q.inFlightSequence < HALF
  {
    hide Wrap;
  }

  lemma FrontFacts(c: Core, limit: int)
    requires StreamOk(c, limit) && c.q.records != []
    ensures Tiled(c, c.q.records, c.una) && RecordOk(c, c.q.records[0], c.una) && !c.q.closed && c.q.probe.None?
    ensures 0 < c.q.records[0].logicalLength <= limit < HALF
  {
    hide Wrap;
    TiledSpan(c, c.q.records[1..], c.una + c.q.records[0].logicalLength);
  }

  lemma TrimFacts(c: Core, limit: int, most: int, p: Pending, take: int)
    requires StreamOk(c, limit) && c.q.records != [] && 0 < take < c.q.records[0].logicalLength && take < MODULUS
    requires LedgerOk(c.q, most) && PendingOk(c, limit, p)
    ensures var r, t := c.q.records[0], FrontTrimmed(c.q, take);
            && t.records == [Trimmed(r, take)] + c.q.records[1..] && t.records != []
            && t.records[0].rtoAttempts == r.rtoAttempts
            && LedgerOk(t, most) && PendingOk(c.(una := c.una + take, q := t), limit, p)
            && t.unsent == c.q.unsent && t.closed == c.q.closed && t.finRequested == c.q.finRequested && t.finSent == c.q.finSent
  {
    hide Wrap;
    var t := FrontTrimmed(c.q, take);
    assert forall k :: 0 < k < |t.records| ==> t.records[k] == c.q.records[k];
  }

  lemma SentInPast(q: Queues, most: int)
    requires LedgerOk(q, most) && q.records != []
    ensures 0 <= q.records[0].sentTime
  {
  }

  /** The two wrapping comparisons of OnAck, read on absolute positions. */
  lemma AckLaw(c: Core, limit: int, snd: Registers, ack: Seq32)
    requires StreamOk(c, limit) && NumbersOk(c, snd)
    ensures var d, w := Sub32(ack, snd.una), c.nxt - c.una;
            && 0 <= w < HALF
            && (SequenceAfter(ack, snd.max) <==> w < d < w + HALF)
            && (SequenceBefore(ack, snd.una) <==> HALF <= d)
            && (d == 0 <==> ack == snd.una)
            && ack == Wrap(c.iss + c.una + d)
  {
    hide OpenOk;
    var d := Sub32(ack, snd.una);
    WrapAdd(c.iss + c.una, d);
    WrapSub(c.iss + c.nxt, c.iss + c.una);
    SmallWrap(c.nxt - c.una);
  }

  lemma LandsNowhere(records: seq<SendRecord>)
    ensures !LandsInsideSacked(records, 0)
  {
  }

  lemma ClosedIsEmpty(c: Core, limit: int)
    requires StreamOk(c, limit)
    ensures c.q.closed ==> c.q.records == []
  {
  }

  lemma RecordsFacts(c: Core, limit: int)
    requires StreamOk(c, limit) && !c.q.closed
    ensures Tiled(c, c.q.records, c.una) && Span(c.q.records) <= limit < HALF
    ensures forall i :: 0 <= i < |c.q.records| ==> 0 < c.q.records[i].logicalLength < HALF
  {
    hide Wrap;
    TiledLengths(c, c.q.records, c.una, HALF);
  }

  /** Marking changes flags only. */
  lemma MarkStep(c: Core, cfg: Config, p: Pending, blocks: seq<(Seq32, Seq32)>, marked: seq<SendRecord>)
    requires cfg.Ok() && StreamOk(c, cfg.retransmitLimit) && !c.q.closed && LedgerOk(c.q, cfg.maxRetransmissions)
    requires PendingOk(c, cfg.retransmitLimit, p)
    requires |marked| == |c.q.records|
    requires forall i :: 0 <= i < |marked| ==>
               0 <= c.q.records[i].logicalLength < MODULUS && marked[i] == Mark(blocks, c.q.records[i])
    ensures var d := c.(q := c.q.(records := marked));
            && StreamOk(d, cfg.retransmitLimit) && LedgerOk(d.q, cfg.maxRetransmissions)
            && PendingOk(d, cfg.retransmitLimit, p)
            && 0 <= SackSpan(marked) < HALF
  {
    hide Wrap;
    var d := c.(q := c.q.(records := marked));
    RewriteStep(c, d, cfg.retransmitLimit);
    SackBounds(d, marked, d.una);
  }

  lemma TimersMark(cfg: Config, t: Timers, before: seq<SendRecord>, after: seq<SendRecord>)
    requires TimersOk(cfg, t, before) && |after| == |before|
    ensures TimersOk(cfg, t, after)
  {
  }

  lemma FastTimers(cfg: Config, t: Timers, records: seq<SendRecord>)
    requires TimersOk(cfg, t, records)
    ensures TimersOk(cfg, t.(fastRetransmit := true), records)
  {
  }

  lemma NumbersMark(c: Core, d: Core, snd: Registers)
    requires NumbersOk(c, snd) && d.iss == c.iss && d.una == c.una && d.nxt == c.nxt
    ensures NumbersOk(d, snd)
  {
  }

  /** A first transmission is the front of the unsent queue. */
  lemma NewPayload(c: Core, limit: int, choice: Choice)
    requires StreamOk(c, limit) && choice.Transmit? && !choice.result.isRetransmission
    requires ChoiceOk(c, limit, choice, c.nxt)
    ensures !c.q.closed && |choice.result.payload| <= |c.q.unsent|
    ensures choice.result.payload == c.q.unsent[..|choice.result.payload|]
  {
    hide Wrap;
  }

  lemma ReleasedIsClosed(q: Queues)
    ensures Released(q).closed && Released(q).finRequested == q.finRequested
  {
  }

  /** The scoreboard loop of OnSack. */
  method MarkAll(before: seq<SendRecord>, blocks: seq<(Seq32, Seq32)>)
    returns (marked: seq<SendRecord>, newBytes: int, newSpan: int, sackedCount: int)
    requires forall i :: 0 <= i < |before| ==> 0 < before[i].logicalLength < HALF
    ensures |marked| == |before|
    ensures forall i :: 0 <= i < |before| ==> marked[i] == Mark(blocks, before[i])
    ensures newBytes == SackBytes(marked) - SackBytes(before) && newBytes >= 0
    ensures newSpan == SackSpan(marked) - SackSpan(before) && newSpan >= 0
    ensures sackedCount <= |before|
  {
    hide Covers, AnyCovers;
    marked, newBytes, newSpan, sackedCount := [], 0, 0, 0;
    var i := 0;
    while i < |before|
      invariant i <= |before| && |marked| == i && sackedCount <= i
      invariant forall k :: 0 <= k < i ==> marked[k] == Mark(blocks, before[k])
      invariant newBytes == SackBytes(marked) - SackBytes(before[..i]) && newBytes >= 0
      invariant newSpan == SackSpan(marked) - SackSpan(before[..i]) && newSpan >= 0
    {
      var r := before[i];
      var m := Mark(blocks, r);
      if m.sacked && !r.sacked {
        newBytes := newBytes + |r.data|;
        newSpan := newSpan + r.logicalLength;
      }
      if m.sacked {
        sackedCount := sackedCount + 1;
      }
      SackAppend(marked, m);
      SackAppend(before[..i], r);
      assert before[..i + 1] == before[..i] + [r];
      marked := marked + [m];
      i := i + 1;
    }
    assert before[..i] == before;
  }

  /** New data leaves: the record joins the queue, and the retransmission timer runs. */
  ghost predicate Commits(before: Queues, t: Timers, r: SendRecord, fin: bool, now: int, pacingRate: nat, after: Queues, u: Timers)
  {
    && |r.data| <= |before.unsent| && after == Stored(before, r, fin)
    && u.rto == (if t.rto.running then t.rto else Armed(t.rto, now, after.records))
    && u == t.(rto := u.rto, nextSendMs := u.nextSendMs) && (pacingRate == 0 ==> u.nextSendMs == t.nextSendMs)
  }

  /** What the windows leave: SACKed positions do not count as in flight, not even against the peer's window. */
  function Usable(peerWindow: int, cwnd: int, inFlight: int, sacked: int): (w: int)
  {
    var allowed := Min(peerWindow, cwnd);
    var pipe := if inFlight > sacked then inFlight - sacked else 0;
    if allowed > pipe then allowed - pipe else 0
  }

  /** As much new data as the mss, the windows and the retransmission limit leave. */
  predicate Chosen(c: Choice, q: Queues, sndNxt: Seq32, mss: int, usable: int, available: int, setCwr: bool)
  {
    0 <= mss && 0 <= usable && 0 <= available && c == NewChoice(q, sndNxt, mss, usable, available, setCwr)
  }

  /** The SACKed positions fit in the part of the peer's window that congestion control withholds. */
  predicate KeepsEdge(peerWindow: int, cwnd: int, inFlight: int, sacked: int)
  {
    Min(peerWindow, cwnd) + Min(sacked, inFlight) <= peerWindow
  }

  predicate Inside(peerWindow: int, inFlight: int, n: int)
  {
    inFlight + n <= peerWindow
  }

  /** New data of every size the usable window allows stays inside the peer's right edge exactly
      under that condition. */
  lemma RightEdgeLaw(peerWindow: int, cwnd: int, inFlight: int, sacked: int)
    requires 0 <= inFlight && 0 <= sacked && Usable(peerWindow, cwnd, inFlight, sacked) > 0
    ensures KeepsEdge(peerWindow, cwnd, inFlight, sacked) <==>
            forall n :: 0 < n <= Usable(peerWindow, cwnd, inFlight, sacked) ==> Inside(peerWindow, inFlight, n)
  {
    var most := Usable(peerWindow, cwnd, inFlight, sacked);
    assert Inside(peerWindow, inFlight, most) ==> KeepsEdge(peerWindow, cwnd, inFlight, sacked);
  }

  class TcpSendBuffer {
    const cfg: Config
    const controller: AimdController

    var q: Queues
    var snd: Registers
    var timers: Timers
    var sack: Scoreboard
    var pending: Pending
    var dup: DupAcks
    var mss: int
    var retransmissionCount: int
    var ecnCwrQueued: bool
    var deliveredCe: int

    ghost const iss: Seq32
    ghost var stream: seq<byte>
    ghost var una: int
    ghost var nxt: int

    ghost function View(): (c: Core)
      reads this
    {
      Core(iss, stream, una, nxt, q)
    }

    ghost predicate Valid()
      reads this, controller
    {
      controller.Valid() && controller.mss == mss && Inv(cfg, View(), snd, timers, sack, pending)
    }

    constructor (initialSequence: Seq32, mss: int, cfg: Config, initialRtoMs: int)
      requires cfg.Ok() && 1 <= mss <= 0xFFFF && cfg.minRtoMs <= initialRtoMs <= cfg.maxRtoMs
      ensures Valid() && fresh(controller)
      ensures this.cfg == cfg && iss == initialSequence && stream == [] && una == nxt == 0
      ensures q == Queues([], [], None, 0, 0, 0, false, false, false, false) && sack == Scoreboard(0, 0)
      ensures pending.kind == NoPending && this.mss == mss && controller.cwnd == 2 * mss
      ensures !timers.rto.running && timers.nextSendMs == 0 && !timers.fastRetransmit && !ecnCwrQueued
    {
      this.cfg := cfg;
      controller := new AimdController(mss);
      q := Queues([], [], None, 0, 0, 0, false, false, false, false);
      snd := Registers(initialSequence, initialSequence, initialSequence);
      timers := Timers(Rto(initialRtoMs, 0, false, false, 0, 0), Persist(0, cfg.persistBaseMs, 0), 0, false);
      sack := Scoreboard(0, 0);
      pending := NO_PENDING;
      dup := DupAcks(0, 0, false);
      this.mss := mss;
      retransmissionCount := 0;
      ecnCwrQueued, deliveredCe := false, 0;
      iss, stream, una, nxt := initialSequence, [], 0, 0;
    }

    function UsableWindow(peerWindow: int): (w: int)
      reads this, controller
    {
      Usable(peerWindow, controller.cwnd, q.inFlightSequence, sack.sackedSequence)
    }

    predicate CanSendNew(peerWindow: int)
      reads this, controller
    {
      && peerWindow != 0 && UsableWindow(peerWindow) != 0 && q.retransmitBytes < cfg.retransmitLimit
      && (q.unsent != [] || (q.finRequested && !q.finSent))
    }

    /** Neither probe, retransmission nor pacing comes before new data. */
    predicate FreshDue(peerWindow: int, now: int)
      reads this, controller
    {
      && !q.closed && q.probe.None? && !timers.fastRetransmit && (q.records != [] ==> timers.rto.running)
      && !RetransmitExpired(q, timers.rto, now)
      && CanSendNew(peerWindow) && (timers.nextSendMs == 0 || timers.nextSendMs <= now)
    }

    /** What is left of the retransmission limit. */
    function Room(): (n: int)
      reads this
    {
      cfg.retransmitLimit - q.retransmitBytes
    }

    method Enqueue(data: seq<byte>) returns (accepted: nat)
      requires Valid()
      modifies this`q, this`stream
      ensures Valid()
      ensures accepted == if q.finRequested || q.closed then 0 else Min(|data|, cfg.sendQueueLimit - |old(q.unsent)|)
      ensures stream == old(stream) + data[..accepted] && q == old(q).(unsent := old(q.unsent) + data[..accepted])
    {
      hide StreamOk, Wrap;
      if |data| == 0 || q.finRequested || q.closed || |q.unsent| >= cfg.sendQueueLimit {
        assert data[..0] == [];
        return 0;
      }
      accepted := Min(|data|, cfg.sendQueueLimit - |q.unsent|);
      q := q.(unsent := q.unsent + data[..accepted]);
      stream := stream + data[..accepted];
      EnqueueStep(old(View()), View(), cfg.retransmitLimit, data[..accepted]);
    }

    method RequestFin() returns (ok: bool)
      requires Valid()
      modifies this`q
      ensures Valid()
      ensures ok <==> !old(q.finRequested) && !q.closed
      ensures q == old(q).(finRequested := old(q.finRequested) || !old(q.closed))
    {
      hide StreamOk, Wrap;
      if q.finRequested || q.closed {
        return false;
      }
      q := q.(finRequested := true);
      RequestFinStep(old(View()), View(), cfg.retransmitLimit);
      return true;
    }

    method Close()
      requires Valid()
      modifies this`q, this`timers, this`sack, this`pending, this`ecnCwrQueued, controller
      ensures Valid() && q == Released(old(q)) && pending.kind == NoPending
    {
      hide StreamOk, Wrap;
      timers := Timers(Stopped(timers.rto), timers.persist.(deadline := 0), 0, false);
      q := Released(q);
      sack := Scoreboard(0, 0);
      pending := pending.(kind := NoPending, setCwr := false);
      ecnCwrQueued := false;
      controller.Reset();
      CloseStep(old(View()), View(), cfg.retransmitLimit);
    }

    /** Some deadline that will call the sender back lies in the future. */
    predicate Waiting(now: int)
      reads this
    {
      || (timers.rto.running && timers.rto.deadline > now)
      || timers.persist.deadline > now
      || timers.nextSendMs > now
    }

    /** The zero-window branch: the persist timer governs, and each expiry sends one probe. */
    method ChooseProbe(now: int, setCwr: bool) returns (choice: Choice)
      requires Valid() && !q.closed && 0 <= now <= U64_MAX
      modifies this`q, this`timers, this`sack, this`pending, this`ecnCwrQueued, controller
      ensures Valid() && (pending.kind == old(pending.kind) || pending.kind == NoPending)
      ensures q == old(q) || (q == Released(old(q)) && choice.Nothing?)
      ensures ChoiceOk(View(), cfg.retransmitLimit, choice, Position(View(), choice))
      ensures choice.Transmit? ==> choice.result.isZeroWindowProbe
      ensures HasWork(old(q)) ==> choice.Transmit? || q.closed || Waiting(now)
      ensures var p := PersistArmed(cfg, old(timers.persist), old(q), now);
              var due, spent := PersistExpired(old(q), p, now), p.probeCount >= cfg.maxPersistProbes;
              && (q.closed <==> due && spent) && (choice.Transmit? ==> due && !spent)
              && (HasWork(old(q)) && due && !spent ==> choice.Transmit?)
    {
      hide StreamOk, Wrap, NumbersOk, LedgerOk, PendingOk, ProbeChoice, FromStream;
      timers := timers.(rto := Stopped(timers.rto), persist := PersistArmed(cfg, timers.persist, q, now));
      choice := Nothing;
      if !PersistExpired(q, timers.persist, now) {
        return;
      }
      if timers.persist.probeCount >= cfg.maxPersistProbes {
        Close();
        return;
      }
      NextRegister(View(), snd);
      ProbeChoiceOk(View(), cfg.retransmitLimit, snd.nxt, setCwr);
      ProbeIsProbe(q, snd.nxt, cfg.retransmitLimit, setCwr);
      choice := ProbeChoice(q, snd.nxt, cfg.retransmitLimit, setCwr);
    }

    /** The open-window branch: promote a probe, retransmit, or send new data. */
    method ChooseOpen(peerWindow: int, now: int, setCwr: bool) returns (choice: Choice)
      requires Valid() && !q.closed && 0 < peerWindow <= U32_MAX && 0 <= now <= U64_MAX
      modifies this`timers
      ensures Valid()
      ensures ChoiceOk(View(), cfg.retransmitLimit, choice, Position(View(), choice))
      ensures choice.Transmit? ==> !choice.result.isZeroWindowProbe
      ensures choice.Transmit? && choice.result.isRetransmission ==> choice.pending.len <= peerWindow
      ensures choice.Transmit? && !choice.result.isRetransmission &&
              KeepsEdge(peerWindow, controller.cwnd, q.inFlightSequence, sack.sackedSequence) ==>
                nxt + choice.pending.len <= una + peerWindow
      ensures HasWork(q) ==> choice.Transmit? || Waiting(now)
      ensures old(FreshDue(peerWindow, now)) ==>
                choice.Transmit? && !choice.result.isRetransmission &&
                Chosen(choice, q, snd.nxt, mss, UsableWindow(peerWindow), Room(), setCwr) &&
                timers == old(timers).(persist := PersistCancelled(cfg))
    {
      hide StreamOk, Wrap, NumbersOk, LedgerOk, PendingOk, FromStream, RetransmitChoice, NewChoice;
      timers := timers.(persist := PersistCancelled(cfg));
      choice := Nothing;
      NextRegister(View(), snd);
      OpenFacts(View(), cfg.retransmitLimit);
      if q.probe.Some? {
        PromoteChoiceOk(View(), cfg.retransmitLimit, setCwr);
        if UsableWindow(peerWindow) >= q.probe.value.logicalLength {
          choice := Again(q.probe.value, PersistPromote, false, setCwr);
        }
        return;
      }
      if q.records != [] && !timers.rto.running {
        timers := timers.(rto := Armed(timers.rto, now, q.records));
      }
      if q.records != [] && (timers.fastRetransmit || RetransmitExpired(q, timers.rto, now)) {
        var kind := if timers.fastRetransmit then FastRetransmit else RtoRetransmit;
        RetransmitChoiceOk(View(), cfg.retransmitLimit, kind, mss, peerWindow, setCwr);
        choice := RetransmitChoice(q.records[0], kind, mss, peerWindow, setCwr);
        return;
      }
      if !CanSendNew(peerWindow) || (timers.nextSendMs != 0 && now < timers.nextSendMs) {
        return;
      }
      var usable, available := UsableWindow(peerWindow), cfg.retransmitLimit - q.retransmitBytes;
      RightEdgeLaw(peerWindow, controller.cwnd, q.inFlightSequence, sack.sackedSequence);
      NewChoiceOk(View(), cfg.retransmitLimit, snd.nxt, mss, usable, available, setCwr);
      choice := NewChoice(q, snd.nxt, mss, usable, available, setCwr);
    }

    /** Determine the next segment. With work left and nothing pending it transmits, closes,
        or leaves a deadline in the future: the sender cannot stall. */
    method NextSegment(peerWindow: int, now: int) returns (r: NextResult, ghost at: int)
      requires Valid() && 0 <= peerWindow <= U32_MAX && 0 <= now <= U64_MAX
      modifies this`q, this`timers, this`sack, this`pending, this`dup, this`ecnCwrQueued, controller
      ensures Valid()
      ensures q == old(q) || (q == Released(old(q)) && !r.hasSegment)
      ensures old(q.closed) || old(pending.kind) != NoPending ==> !r.hasSegment && q == old(q) && pending == old(pending)
      ensures old(pending.kind) == NoPending && !r.hasSegment ==> pending.kind == NoPending
      ensures r.hasSegment ==>
                at == (if r.isRetransmission then una else nxt) && ChoiceOk(View(), cfg.retransmitLimit, Transmit(r, pending), at)
      ensures r.hasSegment && !r.isZeroWindowProbe && r.isRetransmission ==> |r.payload| + Fin(r.isFin) <= peerWindow
      ensures r.hasSegment && !r.isZeroWindowProbe && !r.isRetransmission &&
              old(KeepsEdge(peerWindow, controller.cwnd, q.inFlightSequence, sack.sackedSequence)) ==>
                at + |r.payload| + Fin(r.isFin) <= una + peerWindow
      ensures old(FreshDue(peerWindow, now)) && old(pending.kind) == NoPending ==>
                r.hasSegment && at == nxt &&
                Chosen(Transmit(r, pending), q, snd.nxt, mss, UsableWindow(peerWindow), Room(), old(ecnCwrQueued)) &&
                timers == old(timers).(persist := PersistCancelled(cfg)) &&
                sack == old(sack) && controller.cwnd == old(controller.cwnd)
      ensures !old(q.closed) && old(pending.kind) == NoPending && HasWork(old(q)) ==>
                r.hasSegment || q.closed || Waiting(now)
    {
      hide StreamOk, Wrap, NumbersOk, LedgerOk, FromStream, TimersOk, HasWork, Waiting, PersistArmed, PersistExpired, KeepsEdge, Released,
           Chosen;
      at := nxt;
      if q.closed || pending.kind != NoPending {
        return NO_SEGMENT, at;
      }
      if !dup.windowValid {
        dup := dup.(lastPeerWindow := peerWindow, windowValid := true);
      }
      var setCwr := ecnCwrQueued;
      pending := pending.(setCwr := setCwr);
      var choice;
      if peerWindow == 0 {
        choice := ChooseProbe(now, setCwr);
      } else {
        choice := ChooseOpen(peerWindow, now, setCwr);
      }
      match choice
      case Nothing =>
        r := NO_SEGMENT.(setCwr := setCwr);
      case Transmit(result, p) =>
        at := Position(View(), choice);
        pending := p;
        r := result;
    }

    /** The retained copy really is the payload that NextSegment described. */
    ghost predicate Backs(owner: Option<seq<byte>>, payloadOffset: nat)
      reads this
    {
      var n := pending.len - Fin(pending.isFin);
      (pending.kind == NewData || pending.kind == PersistNew) && owner.Some? && 0 <= n <= |q.unsent| &&
      payloadOffset + n <= |owner.value| ==>
        owner.value[payloadOffset .. payloadOffset + n] == q.unsent[..n]
    }

    /** The record OnSent makes out of the pending transmission, if the caller retained it. */
    function Cutting(p: Pending, owner: Option<seq<byte>>, payloadOffset: nat, now: int, probe: bool): (r: Option<SendRecord>)
    {
      var n := p.len - Fin(p.isFin);
      if n <= 0 then Some(SendRecord(p.sequence, p.len, [], now, 0, probe, false))
      else if owner.Some? && payloadOffset + n <= |owner.value| then
        Some(SendRecord(p.sequence, p.len, owner.value[payloadOffset .. payloadOffset + n], now, 0, probe, false))
      else None
    }

    method StoreNewRecord(r: SendRecord, fin: bool, now: int, pacingRate: nat)
      requires Valid() && pending.kind == NoPending && !q.closed && q.probe.None? && 0 <= now <= U64_MAX
      requires Cut(View(), cfg.retransmitLimit, r, fin) && r.rtoAttempts == 0 && 0 <= r.sentTime
      modifies this`q, this`snd, this`timers, this`nxt
      ensures Valid() && nxt == old(nxt) + r.logicalLength
      ensures q.finRequested == old(q.finRequested) && !q.closed
      ensures Commits(old(q), old(timers), r, fin, now, pacingRate, q, timers)
    {
      hide StreamOk, Wrap, Stored, FromStream, LedgerOk, Cut;
      CutBounds(View(), cfg.retransmitLimit, r, fin);
      LedgerStored(q, r, fin, cfg.maxRetransmissions);
      WrapAdd(iss + nxt, r.logicalLength);
      q := Stored(q, r, fin);
      nxt := nxt + r.logicalLength;
      var next := Add32(snd.nxt, r.logicalLength);
      AheadLaw(iss + old(nxt), r.logicalLength);
      snd := Registers(snd.una, next, if SequenceAfter(next, snd.max) then next else snd.max);
      if !timers.rto.running {
        timers := timers.(rto := Armed(timers.rto, now, q.records));
      }
      if pacingRate > 0 {
        timers := timers.(nextSendMs := SaturatingAdd(now, PaceInterval(r.logicalLength, pacingRate)));
      }
      StoreStep(old(View()), View(), cfg.retransmitLimit, r, fin);
    }

    method StoreProbe(r: SendRecord, fin: bool)
      requires Valid() && pending.kind == NoPending && !q.closed && q.probe.None? && q.records == []
      requires Cut(View(), cfg.retransmitLimit, r, fin) && r.logicalLength == 1 && r.rtoAttempts == 0 && 0 <= r.sentTime
      modifies this`q, this`snd, this`nxt
      ensures Valid() && q == Probed(old(q), r, fin) && nxt == old(nxt) + 1
      ensures q.finRequested == old(q.finRequested) && !q.closed && q.probe.Some?
    {
      hide StreamOk, Wrap, FromStream, Cut;
      CutBounds(View(), cfg.retransmitLimit, r, fin);
      q := Probed(q, r, fin);
      nxt := nxt + 1;
      var next := Add32(snd.nxt, 1);
      AheadLaw(iss + old(nxt), 1);
      snd := Registers(snd.una, next, if SequenceAfter(next, snd.max) then next else snd.max);
      ProbeStep(old(View()), View(), cfg.retransmitLimit, r, fin);
    }

    method PromoteProbe(now: int)
      requires Valid() && pending.kind == NoPending && q.probe.Some? && 0 <= now <= U64_MAX
      modifies this`q, this`timers
      ensures Valid() && q.closed == old(q.closed) && q.finRequested == old(q.finRequested)
      ensures q == Promoted(old(q), old(q.probe.value).(sentTime := now, retransmitted := true)) && timers.rto.running
    {
      hide StreamOk, Wrap, FromStream;
      ProbeAlone(View(), cfg.retransmitLimit);
      var r := q.probe.value.(sentTime := now, retransmitted := true);
      q := Promoted(q, r);
      timers := timers.(rto := Armed(timers.rto, now, q.records));
      PromoteStep(old(View()), View(), cfg.retransmitLimit, r);
    }

    /** Replace bookkeeping in the front record. */
    method RewriteFront(r: SendRecord)
      requires Valid() && pending.kind == NoPending && q.records != [] && SameCut(q.records[0], r)
      requires r.rtoAttempts < cfg.maxRetransmissions && 0 <= r.sentTime
      modifies this`q
      ensures Valid() && q == old(q).(records := [r] + old(q.records)[1..])
    {
      hide StreamOk, Wrap, FromStream;
      q := q.(records := [r] + q.records[1..]);
      assert forall k :: 0 <= k < |q.records| ==> k == 0 || q.records[k] == old(q.records)[k];
      RewriteStep(old(View()), View(), cfg.retransmitLimit);
    }

    /** A timer retransmission was sent: back off, shrink the window, and give up on the
        connection when the record has used up its attempts. */
    method TimerRetransmitted(now: int)
      requires Valid() && pending.kind == NoPending && q.records != [] && 0 <= now <= U64_MAX
      modifies this`q, this`timers, this`sack, this`pending, this`retransmissionCount, this`ecnCwrQueued, controller
      ensures Valid() && pending.kind == NoPending && q.finRequested == old(q.finRequested)
      ensures q.closed <==> old(q.closed) || old(q.records)[0].rtoAttempts + 1 >= cfg.maxRetransmissions
      ensures !q.closed ==> controller.cwnd == mss && |q.records| == |old(q.records)| &&
                            q.records[0].rtoAttempts == old(q.records)[0].rtoAttempts + 1 && q.records[1..] == old(q.records)[1..]
    {
      hide StreamOk, Wrap, FromStream, NumbersOk, Released;
      var r := q.records[0];
      retransmissionCount := retransmissionCount + 1;
      InFlight(View(), cfg.retransmitLimit);
      if r.rtoAttempts == 0 {
        controller.OnFastRecoveryEntry(q.inFlightSequence);
      }
      controller.OnRto();
      timers := timers.(fastRetransmit := false, rto := Armed(BackedOff(cfg, timers.rto), now, q.records));
      if r.rtoAttempts + 1 >= cfg.maxRetransmissions {
        Close();
        ReleasedIsClosed(old(q));
      } else {
        RewriteFront(r.(retransmitted := true, sentTime := now, rtoAttempts := r.rtoAttempts + 1));
      }
    }

    /** The segment NextSegment described has been queued for transmission. `owner` is the
        retained copy of its payload; without one, new data is not committed. */
    method OnSent(owner: Option<seq<byte>>, payloadOffset: nat, now: int, pacingRate: nat)
      requires Valid() && 0 <= now <= U64_MAX && Backs(owner, payloadOffset)
      modifies this`q, this`snd, this`timers, this`sack, this`pending, this`retransmissionCount, this`ecnCwrQueued,
               this`nxt, controller
      ensures Valid() && pending.kind == NoPending
      ensures q.finRequested == old(q.finRequested) && nxt >= old(nxt)
      ensures old(pending.kind) == NewData || old(pending.kind) == PersistNew ==>
                nxt == old(nxt) + if Cutting(old(pending), owner, payloadOffset, now, false).Some? then old(pending.len) else 0
      ensures old(pending.kind) != NewData && old(pending.kind) != PersistNew ==> nxt == old(nxt)
      ensures !q.closed || old(q.closed) || old(pending.kind) == RtoRetransmit
      ensures old(pending.kind) == RtoRetransmit && old(q.records) != [] ==>
                (q.closed <==> old(q.closed) || old(q.records)[0].rtoAttempts + 1 >= cfg.maxRetransmissions) &&
                (!q.closed ==> q.records != [] && q.records[0].rtoAttempts == old(q.records)[0].rtoAttempts + 1)
      ensures old(pending.kind) == NewData && Cutting(old(pending), owner, payloadOffset, now, false).Some? ==>
                var r := Cutting(old(pending), owner, payloadOffset, now, false).value;
                Commits(old(q), old(timers), r, old(pending.isFin), now, pacingRate, q, timers) &&
                sack == old(sack) && controller.cwnd == old(controller.cwnd)
    {
      hide StreamOk, Wrap, FromStream, NumbersOk, TimersOk, Released, Stored, Probed, Commits;
      var p := pending;
      pending := NO_PENDING;
      var accepted := true;
      match p.kind
      case NoPending =>
        return;
      case NewData =>
        var r := Cutting(p, owner, payloadOffset, now, false);
        accepted := r.Some?;
        if accepted {
          CuttingIsCut(View(), p, owner, payloadOffset, now, false, r.value);
          StoreNewRecord(r.value, p.isFin, now, pacingRate);
        }
      case PersistNew =>
        var r := Cutting(p, owner, payloadOffset, now, true);
        accepted := r.Some?;
        if accepted {
          CuttingIsCut(View(), p, owner, payloadOffset, now, true, r.value);
          StoreProbe(r.value, p.isFin);
        }
      case PersistPromote =>
        accepted := q.probe.Some?;
        if accepted {
          PromoteProbe(now);
        }
      case RtoRetransmit =>
        accepted := q.records != [];
        if accepted {
          TimerRetransmitted(now);
        }
      case FastRetransmit =>
        accepted := q.records != [];
        if accepted {
          FastRetransmitted(now);
        }
      case PersistRetry =>
        accepted := q.probe.Some?;
      case PersistExisting =>
        accepted := q.records != [];
      if accepted && (p.kind == PersistNew || p.kind == PersistRetry || p.kind == PersistExisting) {
        ProbeSent(now);
      }
      if accepted && p.setCwr {
        ecnCwrQueued := false;
      }
    }

    /** A caller that retains a copy of what NextSegment described satisfies OnSent's demand. */
    lemma CopyBacks(r: NextResult, at: int)
      requires Valid() && r.hasSegment && at == (if r.isRetransmission then una else nxt)
      requires ChoiceOk(View(), cfg.retransmitLimit, Transmit(r, pending), at)
      ensures Backs(if !r.isRetransmission && r.payload != [] then Some(r.payload) else None, 0)
      ensures pending.len == |r.payload| + Fin(r.isFin)
      ensures !r.isRetransmission <==> pending.kind == NewData || pending.kind == PersistNew
      ensures FromStream(View(), at, r.payload, r.isFin) && r.sequence == Wrap(iss + at)
      ensures r.isRetransmission ==> at + |r.payload| + Fin(r.isFin) <= nxt
    {
      hide StreamOk, Wrap, FromStream, PendingOk;
      if !r.isRetransmission {
        NewPayload(View(), cfg.retransmitLimit, Transmit(r, pending));
        assert r.payload[0 .. |r.payload|] == r.payload;
      }
    }

    method FastRetransmitted(now: int)
      requires Valid() && pending.kind == NoPending && q.records != [] && 0 <= now <= U64_MAX
      modifies this`q, this`timers, this`retransmissionCount
      ensures Valid() && !timers.fastRetransmit && timers.rto.running && q.closed == old(q.closed)
      ensures q == old(q).(records := [old(q.records)[0].(retransmitted := true, sentTime := now)] + old(q.records)[1..])
    {
      hide StreamOk, Wrap, FromStream, NumbersOk;
      retransmissionCount := retransmissionCount + 1;
      var r := q.records[0];
      RewriteFront(r.(retransmitted := true, sentTime := now));
      timers := timers.(fastRetransmit := false, rto := Armed(timers.rto, now, q.records));
    }

    /** A persist probe went out: mark what it repeated and double the interval. */
    method ProbeSent(now: int)
      requires Valid() && pending.kind == NoPending && (q.probe.Some? || q.records != []) && 0 <= now <= U64_MAX
      modifies this`q, this`timers
      ensures Valid() && q.closed == old(q.closed) && q.finRequested == old(q.finRequested)
      ensures timers.persist == PersistNext(cfg, old(timers.persist), now)
      ensures q == if old(q.probe).Some? then old(q).(probe := Some(old(q.probe).value.(retransmitted := true)))
                   else old(q).(records := [old(q.records)[0].(retransmitted := true)] + old(q.records)[1..])
    {
      hide StreamOk, Wrap, FromStream;
      timers := timers.(persist := PersistNext(cfg, timers.persist, now));
      if q.probe.Some? {
        q := q.(probe := Some(q.probe.value.(retransmitted := true)));
        RewriteStep(old(View()), View(), cfg.retransmitLimit);
      } else {
        RewriteFront(q.records[0].(retransmitted := true));
      }
    }

    lemma CuttingIsCut(c: Core, p: Pending, owner: Option<seq<byte>>, payloadOffset: nat, now: int, probe: bool, r: SendRecord)
      requires PendingOk(c, cfg.retransmitLimit, p) && (p.kind == NewData || p.kind == PersistNew)
      requires Cutting(p, owner, payloadOffset, now, probe) == Some(r)
      requires var n := p.len - Fin(p.isFin);
               n > 0 ==> owner.value[payloadOffset .. payloadOffset + n] == c.q.unsent[..n]
      ensures Cut(c, cfg.retransmitLimit, r, p.isFin) && r.rtoAttempts == 0 && r.sentTime == now && r.logicalLength == p.len
    {
      hide Wrap;
    }

    /** Stream positions, as opposed to the FIN's, below `p`. */
    ghost function Bytes(p: int): (n: int)
      reads this
    {
      if p <= |stream| then p else |stream|
    }

    /** The front record is fully acknowledged. */
    method PopFront()
      requires StreamOk(View(), cfg.retransmitLimit) && q.records != []
      requires LedgerOk(q, cfg.maxRetransmissions) && PendingOk(View(), cfg.retransmitLimit, pending) && SizesOk(cfg, q, sack)
      modifies this`q, this`sack, this`una
      ensures StreamOk(View(), cfg.retransmitLimit)
      ensures LedgerOk(q, cfg.maxRetransmissions) && PendingOk(View(), cfg.retransmitLimit, pending) && SizesOk(cfg, q, sack)
      ensures q == Popped(old(q)) && una == old(una) + old(q.records)[0].logicalLength
      ensures Bytes(una) == Bytes(old(una)) + |old(q.records)[0].data|
      ensures SackExact(old(q.records), old(sack)) ==> SackExact(q.records, sack)
    {
      hide Wrap, SackExact, StreamOk;
      var r := q.records[0];
      FrontFacts(View(), cfg.retransmitLimit);
      if SackExact(q.records, sack) {
        SackPop(View(), q.records, una, sack);
      }
      sack := ScoreAfter(sack, r.sacked, r.logicalLength, |r.data|);
      q := Popped(q);
      una := una + r.logicalLength;
      PopStep(old(View()), View(), cfg.retransmitLimit);
    }

    /** The front record is acknowledged up to, but not including, its last `logicalLength - take`. */
    method TrimFront(take: int)
      requires StreamOk(View(), cfg.retransmitLimit) && q.records != [] && 0 < take < q.records[0].logicalLength
      requires LedgerOk(q, cfg.maxRetransmissions) && PendingOk(View(), cfg.retransmitLimit, pending) && SizesOk(cfg, q, sack)
      modifies this`q, this`sack, this`una
      ensures StreamOk(View(), cfg.retransmitLimit)
      ensures LedgerOk(q, cfg.maxRetransmissions) && PendingOk(View(), cfg.retransmitLimit, pending) && SizesOk(cfg, q, sack)
      ensures una == old(una) + take && Bytes(una) == Bytes(old(una)) + PayloadTake(old(q.records)[0], take)
      ensures q.closed == old(q.closed) && q.finRequested == old(q.finRequested) && q.unsent == old(q.unsent)
      ensures q.records != [] && q.records[0].rtoAttempts == old(q.records)[0].rtoAttempts && q.finSent == old(q.finSent)
      ensures SackExact(old(q.records), old(sack)) ==> (SackExact(q.records, sack) <==> !old(q.records)[0].sacked)
    {
      hide Wrap, SackExact, StreamOk, FrontTrimmed, Trimmed, LedgerOk, PendingOk, Tiled;
      var r := q.records[0];
      FrontFacts(View(), cfg.retransmitLimit);
      TrimFacts(View(), cfg.retransmitLimit, cfg.maxRetransmissions, pending, take);
      if SackExact(q.records, sack) {
        SackTrim(View(), q.records, una, sack, take);
      }
      sack := ScoreAfter(sack, r.sacked, take, PayloadTake(r, take));
      q := FrontTrimmed(q, take);
      una := una + take;
      TrimStep(old(View()), View(), cfg.retransmitLimit, take);
    }

    /** The queues, the stream and the scoreboard agree, whatever the registers and timers say. */
    ghost predicate QueuesOk()
      reads this
    {
      && cfg.Ok() && StreamOk(View(), cfg.retransmitLimit) && SizesOk(cfg, q, sack)
      && LedgerOk(q, cfg.maxRetransmissions) && PendingOk(View(), cfg.retransmitLimit, pending)
    }

    /** What is left after the records is the probe, or an acknowledgment that arrives after closing. */
    method AckProbe(n: int) returns (payload: int)
      requires QueuesOk() && q.records == [] && 0 < n <= nxt - una
      modifies this`q, this`una
      ensures QueuesOk() && una == old(una) + n
      ensures payload == if q.closed then 0 else Bytes(una) - Bytes(old(una))
      ensures q.records == [] && q.unsent == old(q.unsent)
      ensures q.closed == old(q.closed) && q.finRequested == old(q.finRequested) && q.finSent == old(q.finSent)
    {
      hide Wrap;
      payload := 0;
      if q.probe.Some? {
        payload := PayloadTake(q.probe.value, n);
        q := ProbeAcked(q, n);
        una := una + n;
        ProbeAckedStep(old(View()), View(), cfg.retransmitLimit);
      } else {
        una := una + n;
      }
    }

    /** Acknowledge `n` more positions: pop covered records, trim the one the edge falls into,
        or settle the probe. */
    method AckRecords(n: int, now: int) returns (payload: int, rtt: Option<int>, covers: bool, partialRto: bool)
      requires QueuesOk() && 0 < n <= nxt - una && 0 <= now <= U64_MAX
      modifies this`q, this`sack, this`una
      ensures QueuesOk() && una == old(una) + n
      ensures payload == if q.closed then 0 else Bytes(una) - Bytes(old(una))
      ensures rtt.Some? ==> 0 <= rtt.value <= U64_MAX
      ensures partialRto ==> q.records != []
      ensures old(q.records) == [] ==> q.records == []
      ensures q.closed == old(q.closed) && q.finRequested == old(q.finRequested) && q.finSent == old(q.finSent)
      ensures q.unsent == old(q.unsent)
      ensures SackExact(old(q.records), old(sack)) ==>
                (SackExact(q.records, sack) <==> !LandsInsideSacked(old(q.records), n))
    {
      hide Wrap, SackExact, StreamOk, LedgerOk, PendingOk, Tiled;
      var remaining := n;
      payload, rtt, covers, partialRto := 0, None, false, false;
      while remaining != 0 && q.records != []
        invariant QueuesOk() && 0 <= remaining <= nxt - una && una == old(una) + n - remaining
        invariant payload == if q.closed then 0 else Bytes(una) - Bytes(old(una))
        invariant rtt.Some? ==> 0 <= rtt.value <= U64_MAX
        invariant old(q.records) == [] ==> q.records == []
        invariant q.closed == old(q.closed) && q.finRequested == old(q.finRequested) && q.finSent == old(q.finSent)
        invariant q.unsent == old(q.unsent)
        invariant SackExact(old(q.records), old(sack)) ==> SackExact(q.records, sack)
        invariant LandsInsideSacked(q.records, remaining) == LandsInsideSacked(old(q.records), n)
        decreases |q.records|
      {
        var r := q.records[0];
        FrontFacts(View(), cfg.retransmitLimit);
        SentInPast(q, cfg.maxRetransmissions);
        covers := covers || r.retransmitted;
        if remaining < r.logicalLength {
          payload := payload + PayloadTake(r, remaining);
          TrimFront(remaining);
          partialRto := r.rtoAttempts != 0;
          return;
        }
        if rtt.None? && !r.retransmitted && now >= r.sentTime {
          rtt := Some(now - r.sentTime);
        }
        payload := payload + |r.data|;
        remaining := remaining - r.logicalLength;
        PopFront();
      }
      if remaining != 0 {
        var more := AckProbe(remaining);
        payload := payload + more;
      }
    }

    /** An acknowledgment that repeats snd_una: count it towards fast retransmit, and let the
        advertised window choose between the retransmission and the persist timer. */
    method OnDuplicateAck(peerWindow: int, now: int, ackOnly: bool) returns (fastRetransmit: bool)
      requires Valid() && 0 <= peerWindow <= U32_MAX && 0 <= now <= U64_MAX
      modifies this`timers, this`dup, controller
      ensures Valid()
      ensures var counted := && ackOnly && (q.records != [] || q.probe.Some?) && peerWindow != 0
                             && old(dup.windowValid) && peerWindow == old(dup.lastPeerWindow);
              && dup == DupAcks(if counted then old(dup.count) + 1 else 0, peerWindow, true)
              && (fastRetransmit <==> counted && dup.count == 3 && q.records != [] && !old(controller.fastRecovery))
      ensures fastRetransmit ==> timers.fastRetransmit && controller.fastRecovery
      ensures peerWindow == 0 && !q.closed && HasWork(q) ==> timers.persist.deadline > 0 && !timers.rto.running
      ensures peerWindow != 0 && q.records != [] ==> timers.rto.running
    {
      hide StreamOk, Wrap, NumbersOk, LedgerOk, PendingOk;
      fastRetransmit := false;
      var counted := && ackOnly && (q.records != [] || q.probe.Some?) && peerWindow != 0
                     && dup.windowValid && peerWindow == dup.lastPeerWindow;
      var count := if counted then dup.count + 1 else 0;
      dup := DupAcks(count, peerWindow, true);
      if counted {
        var recovering := controller.fastRecovery;
        if recovering {
          controller.OnDupAck();
        }
        if count == 3 && q.records != [] && !recovering {
          InFlight(View(), cfg.retransmitLimit);
          controller.OnFastRecoveryEntry(q.inFlightSequence);
          timers := timers.(fastRetransmit := true);
          fastRetransmit := true;
        }
      }
      if peerWindow == 0 {
        timers := timers.(rto := Stopped(timers.rto), persist := PersistArmed(cfg, PersistCancelled(cfg), q, now));
      } else {
        timers := timers.(persist := PersistCancelled(cfg));
        if q.records != [] && !timers.rto.running {
          timers := timers.(rto := Armed(timers.rto, now, q.records));
        }
      }
    }

    /** An acknowledgment of `n` > 0 outstanding positions. */
    method OnNewAck(acknowledgment: Seq32, n: int, peerWindow: int, now: int) returns (payload: int)
      requires Valid() && 0 < n <= nxt - una && acknowledgment == Wrap(iss + una + n)
      requires 0 <= peerWindow <= U32_MAX && 0 <= now <= U64_MAX
      modifies this`q, this`snd, this`timers, this`sack, this`dup, this`una, controller
      ensures Valid() && una == old(una) + n
      ensures payload == if q.closed then 0 else Bytes(una) - Bytes(old(una))
      ensures q.closed == old(q.closed) && q.finRequested == old(q.finRequested) && q.finSent == old(q.finSent)
      ensures q.unsent == old(q.unsent) && dup == DupAcks(0, peerWindow, true)
      ensures SackExact(old(q.records), old(sack)) ==>
                (SackExact(q.records, sack) <==> !LandsInsideSacked(old(q.records), n))
      ensures timers.rto.running <==> q.records != [] && peerWindow != 0
    {
      hide StreamOk, Wrap, LedgerOk, PendingOk, SackExact, LandsInsideSacked, Sampled;
      var rtt, covers, partialRto;
      payload, rtt, covers, partialRto := AckRecords(n, now);
      snd := snd.(una := acknowledgment);
      dup := DupAcks(0, peerWindow, true);
      var recovering := controller.fastRecovery;
      if recovering {
        controller.OnFastRecoveryExit();
      } else {
        controller.OnAck(payload);
      }
      var sample := if rtt.Some? && !covers then Sampled(cfg, timers.rto, rtt.value) else timers.rto;
      timers := AckTimers(cfg, timers, sample, q, peerWindow, now, recovering, partialRto);
    }

    /** Process an acknowledgment. Measured from snd_una as d = ack - snd_una (mod 2^32), with
        w sequence numbers outstanding: 0 < d <= w advances, d = 0 is a duplicate, and the
        half of the space beyond snd_max is refused. */
    method OnAck(acknowledgment: Seq32, peerWindow: int, now: int, ackOnly: bool, ece: bool) returns (r: AckResult)
      requires Valid() && 0 <= peerWindow <= U32_MAX && 0 <= now <= U64_MAX
      modifies this`q, this`snd, this`timers, this`sack, this`dup, this`una, this`ecnCwrQueued, this`deliveredCe, controller
      ensures Valid()
      ensures var d, w := Sub32(acknowledgment, old(snd.una)), nxt - old(una);
              && (r.unacceptable <==> w < d < w + HALF)
              && (r.duplicate <==> d == 0)
              && una == old(una) + (if 0 < d <= w then d else 0)
              && (d > w ==> q == old(q) && r.newlyAcked == 0)
              && (d == 0 ==> q == old(q) && r.newlyAcked == 0)
              && (0 < d <= w && !q.closed ==> r.newlyAcked == Bytes(una) - Bytes(old(una)))
              && (d <= w ==> (r.fullyAcked <==> q.records == [] && q.probe.None?))
              && (SackExact(old(q.records), old(sack)) ==>
                    (SackExact(q.records, sack) <==> !(d <= w && LandsInsideSacked(old(q.records), d))))
      ensures r.fastRetransmit ==> timers.fastRetransmit && r.duplicate
      ensures q.closed == old(q.closed) && q.finRequested == old(q.finRequested) && q.finSent == old(q.finSent)
      ensures q.unsent == old(q.unsent)
    {
      hide StreamOk, Wrap, NumbersOk, LedgerOk, PendingOk, SackExact, LandsInsideSacked, TimersOk;
      AckLaw(View(), cfg.retransmitLimit, snd, acknowledgment);
      LandsNowhere(q.records);
      r := AckResult(0, false, false, false, false, q.inFlightBytes);
      if SequenceAfter(acknowledgment, snd.max) {
        return r.(unacceptable := true);
      }
      if SequenceBefore(acknowledgment, snd.una) {
        return;
      }
      if ece && !ecnCwrQueued {
        ecnCwrQueued := true;
        deliveredCe := deliveredCe + 1;
        controller.OnEcnCe();
      }
      if acknowledgment == snd.una {
        var fast := OnDuplicateAck(peerWindow, now, ackOnly);
        return AckResult(0, true, fast, q.records == [] && q.probe.None?, false, q.inFlightBytes);
      }
      var payload := OnNewAck(acknowledgment, Sub32(acknowledgment, snd.una), peerWindow, now);
      r := AckResult(payload, false, false, q.records == [] && q.probe.None?, false, q.inFlightBytes);
    }

    /** Mark records that a SACK block covers in full; three marked records start fast
        retransmit. The counters follow the flags exactly, in 32-bit arithmetic. */
    method OnSack(blocks: seq<(Seq32, Seq32)>) returns (newlySacked: int)
      requires Valid()
      modifies this`q, this`sack, this`timers, controller
      ensures Valid()
      ensures blocks == [] ==> q == old(q) && sack == old(sack) && newlySacked == 0
      ensures q == old(q).(records := q.records) && |q.records| == |old(q.records)|
      ensures blocks != [] ==> forall i :: 0 <= i < |q.records| ==>
                0 <= old(q.records)[i].logicalLength < MODULUS && q.records[i] == Mark(blocks, old(q.records)[i])
      ensures newlySacked == SackBytes(q.records) - SackBytes(old(q.records))
      ensures SackExact(old(q.records), old(sack)) ==> SackExact(q.records, sack)
      ensures |q.records| < 3 ==> timers == old(timers) && controller.cwnd == old(controller.cwnd)
    {
      hide StreamOk, Wrap, PendingOk, NumbersOk, TimersOk, Covers, Tiled, LedgerOk;
      newlySacked := 0;
      if blocks == [] || q.records == [] || q.closed {
        ClosedIsEmpty(View(), cfg.retransmitLimit);
        return;
      }
      RecordsFacts(View(), cfg.retransmitLimit);
      var before := q.records;
      var marked, newBytes, newSpan, sackedCount := MarkAll(before, blocks);
      newlySacked := newBytes;
      MarkStep(View(), cfg, pending, blocks, marked);
      sack := Scoreboard(sack.sackedBytes + newlySacked, (sack.sackedSequence + newSpan) % MODULUS);
      q := q.(records := marked);
      TimersMark(cfg, timers, before, marked);
      NumbersMark(old(View()), View(), snd);
      if sackedCount >= 3 && !controller.fastRecovery {
        InFlight(View(), cfg.retransmitLimit);
        controller.OnFastRecoveryEntry(q.inFlightSequence);
        FastTimers(cfg, timers, q.records);
        timers := timers.(fastRetransmit := true);
      }
    }

    /** A smaller path MTU takes effect for everything sent from now on. */
    method UpdateMss(newMss: int)
      requires Valid() && 0 <= newMss <= 0xFFFF
      modifies this`mss, controller
      ensures Valid() && mss == if newMss == 0 then old(mss) else newMss
    {
      hide Inv;
      if newMss == 0 || newMss == mss {
        return;
      }
      var pristine := snd.una == snd.max && q.records == [] && q.probe.None?;
      mss := newMss;
      controller.UpdateMss(newMss, pristine);
    }

    /** Forget a transmission that could not be queued. */
    method ResetPending()
      requires Valid()
      modifies this`pending
      ensures Valid() && pending == NO_PENDING
    {
      hide StreamOk, Wrap, NumbersOk, LedgerOk, TimersOk;
      pending := NO_PENDING;
    }

    predicate AllAcked()
      reads this
    {
      q.unsent == [] && q.records == [] && q.probe.None? && snd.una == snd.max && (!q.finRequested || q.finAcked)
    }

    /** AllAcked on an open sender means what it says: every byte ever enqueued, and the FIN
        if one was requested, has been acknowledged. */
    lemma AllAckedLaw()
      requires Valid() && !q.closed
      ensures AllAcked() <==> una == nxt == |stream| + Fin(q.finRequested)
    {
      hide Wrap;
      if una == nxt == |stream| + Fin(q.finRequested) {
        if q.records != [] {
          TiledSpan(View(), q.records, una);
        }
      }
    }
  }
}
