/** Runs of the sender that show where two expected properties fail: new data beyond the peer's right
    edge, and SACK counters that no longer count. Both hold for every stream, mss and initial sequence. */
module SendRuns {
  import opened Prelude
  import opened SeqSpace
  import opened SendStream
  import opened SendChoice
  import opened Send

  lemma SegmentBounds(s: TcpSendBuffer)
    requires s.Valid() && !s.q.closed
    ensures 1 <= s.mss && s.cfg.minRtoMs >= 1 && s.timers.rto.ms >= 1
  {
  }

  lemma FullSegment(q: Queues, sndNxt: Seq32, mss: int, usable: int, available: int, setCwr: bool, r: NextResult, p: Pending)
    requires Chosen(Transmit(r, p), q, sndNxt, mss, usable, available, setCwr)
    requires !q.finRequested && 1 <= mss <= |q.unsent| && mss <= usable && mss <= available
    ensures r.payload == q.unsent[..mss] && !r.isFin && !r.isRetransmission && !r.isZeroWindowProbe
    ensures p == Pending(NewData, false, setCwr, sndNxt, mss)
  {
  }

  lemma CommitFacts(before: Queues, t: Timers, r: SendRecord, after: Queues, u: Timers)
    requires Commits(before, t, r, false, 0, 0, after, u) && t.rto.ms >= 1 && !RetransmitExpired(before, t.rto, 0) && !before.closed
    ensures |r.data| <= |before.unsent| && after == Stored(before, r, false)
    ensures u.rto.running && !RetransmitExpired(after, u.rto, 0)
    ensures u.fastRetransmit == t.fastRetransmit && u.nextSendMs == t.nextSendMs
  {
  }

  /** A full segment of new data leaves at time 0. */
  method SendSegment(s: TcpSendBuffer, window: int) returns (ghost r: SendRecord)
    requires s.Valid() && s.pending.kind == NoPending && 0 < window <= U32_MAX && s.FreshDue(window, 0)
    requires !s.q.finRequested && s.mss <= |s.q.unsent| && s.mss <= s.UsableWindow(window) && s.mss <= s.Room()
    modifies s, s.controller
    ensures s.Valid() && s.pending.kind == NoPending && s.mss == old(s.mss) && s.una == old(s.una) && s.sack == old(s.sack)
    ensures s.nxt == old(s.nxt) + s.mss && s.controller.cwnd == old(s.controller.cwnd)
    ensures |r.data| == r.logicalLength == s.mss && !r.sacked && |r.data| <= |old(s.q.unsent)| && s.q == Stored(old(s.q), r, false)
    ensures s.timers.rto.running && !RetransmitExpired(s.q, s.timers.rto, 0)
    ensures !s.timers.fastRetransmit && s.timers.nextSendMs == old(s.timers.nextSendMs)
  {
    hide Inv, Wrap, ChoiceOk, Commits, Chosen, FromStream, KeepsEdge, Released, HasWork, TcpSendBuffer.Waiting, Stored;
    SegmentBounds(s);
    var cwr := s.ecnCwrQueued;
    var result, at := s.NextSegment(window, 0);
    FullSegment(s.q, s.snd.nxt, s.mss, s.UsableWindow(window), s.Room(), cwr, result, s.pending);
    s.CopyBacks(result, at);
    r := SendRecord(s.pending.sequence, s.mss, result.payload, 0, 0, false, false);
    assert result.payload[0 .. 0 + s.mss] == result.payload;
    ghost var before, timers := s.q, s.timers;
    s.OnSent(Some(result.payload), 0, 0, 0);
    CommitFacts(before, timers, r, s.q, s.timers);
  }

  predicate Roomy(cfg: Config, mss: int, rto: int, data: seq<byte>)
  {
    && cfg.Ok() && 2 <= mss <= 0xFFFF && cfg.minRtoMs <= rto <= cfg.maxRtoMs
    && 3 * mss <= |data| && 3 * mss <= cfg.sendQueueLimit && 3 * mss <= cfg.retransmitLimit
  }

  /** Two full segments are in flight and fill both windows; the peer may have SACKed the second. */
  ghost predicate BothSent(s: TcpSendBuffer, mss: int, sacked: bool)
    reads s, s.controller
  {
    && s.Valid() && s.pending.kind == NoPending && s.mss == mss && s.una == 0 && s.nxt == 2 * mss
    && s.controller.cwnd == 2 * mss && !s.q.finRequested && mss <= |s.q.unsent| && mss <= s.Room()
    && |s.q.records| == 2 && s.q.records[0].logicalLength == s.q.records[1].logicalLength == mss
    && !s.q.records[0].sacked && s.q.records[1].sacked == sacked && SackExact(s.q.records, s.sack)
    && s.q.inFlightSequence == 2 * mss && s.sack.sackedSequence == (if sacked then mss else 0)
    && !s.q.closed && s.q.probe.None? && !s.timers.fastRetransmit && s.timers.rto.running
    && !RetransmitExpired(s.q, s.timers.rto, 0) && s.timers.nextSendMs == 0
  }

  method TwoInFlight(iss: Seq32, mss: int, cfg: Config, rto: int, data: seq<byte>) returns (s: TcpSendBuffer)
    requires Roomy(cfg, mss, rto, data)
    ensures fresh(s) && fresh(s.controller) && BothSent(s, mss, false) && s.iss == iss && s.cfg == cfg
  {
    hide Inv, Wrap, SackExact;
    s := new TcpSendBuffer(iss, mss, cfg, rto);
    var n := s.Enqueue(data);
    assert n >= 3 * mss;
    ghost var a := SendSegment(s, 2 * mss);
    ghost var b := SendSegment(s, 2 * mss);
    assert s.q.records == [a, b];
    TwoExact(s.q.records, s.sack);
  }

  method SackSecond(s: TcpSendBuffer, mss: int)
    requires BothSent(s, mss, false) && 2 <= mss <= 0xFFFF
    modifies s, s.controller
    ensures BothSent(s, mss, true)
  {
    hide Inv, Wrap, SackExact, Covers;
    FirstRegister(s);
    WrapAdd(s.iss, mss);
    WrapAdd(s.iss, 2 * mss);
    var blocks := [(Add32(s.snd.una, mss), Add32(s.snd.una, 2 * mss))];
    SecondCovered(s, mss, blocks);
    var newly := s.OnSack(blocks);
    TwoExact(s.q.records, s.sack);
  }

  lemma SecondCovered(s: TcpSendBuffer, mss: int, blocks: seq<(Seq32, Seq32)>)
    requires s.Valid() && !s.q.closed && s.una == 0 && |s.q.records| == 2 && 2 <= mss <= 0xFFFF
    requires s.q.records[0].logicalLength == s.q.records[1].logicalLength == mss
    requires blocks == [(Wrap(s.iss + mss), Wrap(s.iss + 2 * mss))]
    ensures !AnyCovers(blocks, s.q.records[0]) && AnyCovers(blocks, s.q.records[1])
  {
    hide Wrap, NumbersOk, TimersOk, SizesOk, LedgerOk, PendingOk;
    var c := s.View();
    assert Tiled(c, c.q.records, 0) && RecordOk(c, c.q.records[0], 0);
    assert Tiled(c, c.q.records[1..], mss) && c.q.records[1..][0] == c.q.records[1];
    assert RecordOk(c, c.q.records[1], mss);
    CoversLaw(c, c.q.records[0], 0, mss, 2 * mss);
    CoversLaw(c, c.q.records[1], mss, mss, 2 * mss);
    hide Covers, RecordOk;
    assert Covers(blocks[0], c.q.records[1]) && !Covers(blocks[0], c.q.records[0]);
  }

  lemma TwoExact(records: seq<SendRecord>, sack: Scoreboard)
    requires |records| == 2 && !records[0].sacked
    ensures SackSpan(records) == (if records[1].sacked then records[1].logicalLength else 0)
    ensures SackBytes(records) == (if records[1].sacked then |records[1].data| else 0)
    ensures SackExact(records, sack) ==> sack.sackedSequence == SackSpan(records)
    ensures !records[1].sacked && sack == Scoreboard(0, 0) ==> SackExact(records, sack)
  {
    var tail := records[1..];
    assert tail[0] == records[1] && tail[1..] == [];
    assert SackSpan(tail) == (if tail[0].sacked then tail[0].logicalLength else 0) + SackSpan(tail[1..]);
    assert SackBytes(tail) == (if tail[0].sacked then |tail[0].data| else 0) + SackBytes(tail[1..]);
  }

  /** With the second segment SACKed the sender offers a third one, wholly beyond the peer's window. */
  method CrossesRightEdge(iss: Seq32, mss: int, cfg: Config, rto: int, data: seq<byte>)
    returns (s: TcpSendBuffer, r: NextResult, ghost at: int)
    requires Roomy(cfg, mss, rto, data)
    ensures fresh(s) && s.Valid() && r.hasSegment && !r.isRetransmission && !r.isZeroWindowProbe
    ensures s.una == 0 && at == 2 * mss && |r.payload| == mss
    ensures at + |r.payload| > s.una + 2 * mss
  {
    hide Inv, Wrap, ChoiceOk, Chosen, FromStream, KeepsEdge, Released, HasWork, TcpSendBuffer.Waiting, SackExact;
    s := TwoInFlight(iss, mss, cfg, rto, data);
    SackSecond(s, mss);
    var cwr := s.ecnCwrQueued;
    r, at := s.NextSegment(2 * mss, 0);
    FullSegment(s.q, s.snd.nxt, s.mss, s.UsableWindow(2 * mss), s.Room(), cwr, r, s.pending);
  }

  /** An acknowledgment that ends inside the SACKed segment leaves the counters wrong. */
  method CountersDrift(iss: Seq32, mss: int, cfg: Config, rto: int, data: seq<byte>) returns (s: TcpSendBuffer, ghost exact: bool)
    requires Roomy(cfg, mss, rto, data)
    ensures fresh(s) && s.Valid() && s.una == mss + 1
    ensures exact && !SackExact(s.q.records, s.sack)
  {
    hide Inv, Wrap, SackExact, Covers;
    s := TwoInFlight(iss, mss, cfg, rto, data);
    SackSecond(s, mss);
    exact := SackExact(s.q.records, s.sack);
    AckOffset(s.snd.una, mss + 1);
    assert LandsInsideSacked(s.q.records, mss + 1) by { LandsInSecond(s.q.records, mss); }
    var a := s.OnAck(Add32(s.snd.una, mss + 1), 2 * mss, 0, true, false);
  }

  lemma FirstRegister(s: TcpSendBuffer)
    requires s.Valid() && s.una == 0
    ensures s.snd.una == Wrap(s.iss)
  {
    hide Wrap;
  }

  lemma AckOffset(una: Seq32, n: int)
    requires 0 < n < HALF
    ensures Sub32(Add32(una, n), una) == n
  {
    assert Wrap(una) == una;
    WrapAdd(una, n);
    WrapSub(una + n, una);
    SmallWrap(n);
  }

  lemma LandsInSecond(records: seq<SendRecord>, mss: int)
    requires |records| == 2 && records[0].logicalLength == records[1].logicalLength == mss && mss >= 2 && records[1].sacked
    ensures LandsInsideSacked(records, mss + 1)
  {
    assert records[1..][0] == records[1];
    assert LandsInsideSacked(records[1..], 1);
  }
}
