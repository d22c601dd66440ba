/** The stream a TCP sender is responsible for, and the records that cut it into segments.

    Position p of the stream is the p-th byte ever enqueued; the FIN sits at position
    |stream|. Sequence numbers are positions offset by the initial sequence, modulo 2^32. */
module SendStream {
  import opened Prelude
  import opened SeqSpace

  datatype SendRecord = SendRecord(
    sequence: Seq32,
    logicalLength: int,
    data: seq<byte>,
    sentTime: int,
    rtoAttempts: int,
    retransmitted: bool,
    sacked: bool)

  /** The queues of the sender and the counters and flags that go with them. */
  datatype Queues = Queues(
    unsent: seq<byte>,
    records: seq<SendRecord>,
    probe: Option<SendRecord>,
    retransmitBytes: int,
    inFlightSequence: int,
    inFlightBytes: int,
    finRequested: bool,
    finSent: bool,
    finAcked: bool,
    closed: bool)

  /** The queues against the stream: everything enqueued so far, and the absolute positions
      behind snd_una and snd_nxt. */
  datatype Core = Core(iss: Seq32, stream: seq<byte>, una: int, nxt: int, q: Queues)

  function Span(records: seq<SendRecord>): (n: int)
  {
    if records == [] then 0 else records[0].logicalLength + Span(records[1..])
  }

  function DataSpan(records: seq<SendRecord>): (n: int)
  {
    if records == [] then 0 else |records[0].data| + DataSpan(records[1..])
  }

  ghost function Payloads(records: seq<SendRecord>): (s: seq<byte>)
  {
    if records == [] then [] else records[0].data + Payloads(records[1..])
  }

  /** The record stands for the stream from position `from` on, with the FIN only at the end. */
  ghost predicate RecordOk(c: Core, r: SendRecord, from: int)
  {
    && 0 <= from
    && r.sequence == Wrap(c.iss + from)
    && 0 < r.logicalLength
    && from + |r.data| <= |c.stream|
    && r.data == c.stream[from .. from + |r.data|]
    && (r.logicalLength == |r.data| ||
        (c.q.finSent && r.logicalLength == |r.data| + 1 && from + |r.data| == |c.stream|))
  }

  /** The records are contiguous from position `from` on. */
  ghost predicate Tiled(c: Core, records: seq<SendRecord>, from: int)
  {
    records == [] || (RecordOk(c, records[0], from) && Tiled(c, records[1..], from + records[0].logicalLength))
  }

  /** While the sender is open: acknowledged prefix, records, probe and unsent queue are the
      stream cut into consecutive pieces; a probe is alone; everything outstanding is counted. */
  ghost predicate OpenOk(c: Core, retransmitLimit: int)
  {
    && c.nxt == c.una + c.q.retransmitBytes && c.q.retransmitBytes <= retransmitLimit
    && Tiled(c, c.q.records, c.una)
    && c.q.inFlightSequence == Span(c.q.records) && c.q.inFlightBytes == DataSpan(c.q.records)
    && (c.q.probe.None? ==> c.q.retransmitBytes == Span(c.q.records))
    && (c.q.probe.Some? ==>
          c.q.records == [] && c.q.retransmitBytes == 1 == c.q.probe.value.logicalLength && RecordOk(c, c.q.probe.value, c.una))
    && (if c.q.finSent then c.q.unsent == [] && c.nxt == |c.stream| + 1
        else 0 <= c.nxt <= |c.stream| && c.q.unsent == c.stream[c.nxt..])
    && (c.q.finAcked <==> c.q.finSent && c.una == c.nxt)
  }

  ghost predicate StreamOk(c: Core, retransmitLimit: int)
  {
    && 0 <= c.una <= c.nxt <= c.una + retransmitLimit && retransmitLimit < HALF
    && c.nxt <= |c.stream| + (if c.q.finSent then 1 else 0)
    && (c.q.finSent ==> c.q.finRequested)
    && (c.q.finAcked ==> c.q.finSent && c.una == |c.stream| + 1)
    && (c.q.closed ==>
          && c.q.records == [] && c.q.probe.None? && c.q.unsent == []
          && c.q.retransmitBytes == c.q.inFlightSequence == c.q.inFlightBytes == 0)
    && (!c.q.closed ==> OpenOk(c, retransmitLimit))
  }

  /** Conservation: nothing enqueued is ever lost, duplicated or reordered by the sender. */
  lemma Conservation(c: Core, retransmitLimit: int)
    requires StreamOk(c, retransmitLimit) && !c.q.closed
    ensures var acked := if c.una <= |c.stream| then c.una else |c.stream|;
            c.stream == c.stream[..acked] + Payloads(c.q.records)
                        + (if c.q.probe.Some? then c.q.probe.value.data else []) + c.q.unsent
  {
    if c.q.records != [] {
      TiledPayloads(c, c.q.records, c.una, if c.nxt <= |c.stream| then c.nxt else |c.stream|);
    }
  }

  /** How far a tiling reaches, and that only its last record may hold the FIN. */
  lemma {:induction false} TiledSpan(c: Core, records: seq<SendRecord>, from: int)
    requires Tiled(c, records, from)
    ensures records != [] ==> 0 < Span(records) && from + Span(records) <= |c.stream| + 1
    ensures from + Span(records) <= |c.stream| ==> DataSpan(records) == Span(records)
  {
    hide Wrap;
    if records != [] {
      TiledSpan(c, records[1..], from + records[0].logicalLength);
    }
  }

  lemma SliceJoin(s: seq<byte>, a: int, b: int, c: int)
    requires 0 <= a <= b <= c <= |s|
    ensures s[a..b] + s[b..c] == s[a..c]
  {
  }

  lemma {:induction false} TiledPayloads(c: Core, records: seq<SendRecord>, from: int, stop: int)
    requires Tiled(c, records, from) && records != []
    requires stop == if from + Span(records) <= |c.stream| then from + Span(records) else |c.stream|
    ensures 0 <= from <= stop && Payloads(records) == c.stream[from..stop]
  {
    hide Wrap;
    var r, rest := records[0], records[1..];
    if rest == [] {
      assert Payloads(records) == r.data;
    } else {
      var next := from + r.logicalLength;
      TiledSpan(c, rest, next);
      TiledPayloads(c, rest, next, stop);
      SliceJoin(c.stream, from, next, stop);
    }
  }

  /** A transmitted segment carries exactly the stream bytes at its position. */
  ghost predicate FromStream(c: Core, at: int, payload: seq<byte>, fin: bool)
  {
    && 0 <= at && at + |payload| <= |c.stream|
    && payload == c.stream[at .. at + |payload|]
    && (fin ==> c.q.finRequested && at + |payload| == |c.stream|)
  }

  // ---------------------------------------------------------------------------------
  // The queue updates of the sender.
  // ---------------------------------------------------------------------------------

  /** A new record takes its bytes from the front of the unsent queue. */
  function Stored(q: Queues, r: SendRecord, fin: bool): (p: Queues)
    requires |r.data| <= |q.unsent|
  {
    q.(records := q.records + [r], unsent := q.unsent[|r.data|..],
       retransmitBytes := q.retransmitBytes + r.logicalLength,
       inFlightSequence := q.inFlightSequence + r.logicalLength,
       inFlightBytes := q.inFlightBytes + |r.data|, finSent := q.finSent || fin)
  }

  /** The same for a persist probe, which is outstanding but not counted in flight. */
  function Probed(q: Queues, r: SendRecord, fin: bool): (p: Queues)
    requires |r.data| <= |q.unsent|
  {
    q.(probe := Some(r), unsent := q.unsent[|r.data|..],
       retransmitBytes := q.retransmitBytes + r.logicalLength, finSent := q.finSent || fin)
  }

  function Promoted(q: Queues, r: SendRecord): (p: Queues)
  {
    q.(probe := None, records := q.records + [r], inFlightSequence := q.inFlightSequence + r.logicalLength,
       inFlightBytes := q.inFlightBytes + |r.data|)
  }

  /** The front record after `take` of it has been acknowledged. */
  function Trimmed(r: SendRecord, take: int): (s: SendRecord)
    requires 0 <= take <= r.logicalLength && take < MODULUS
  {
    SendRecord(Add32(r.sequence, take), r.logicalLength - take, r.data[PayloadTake(r, take)..], r.sentTime,
               r.rtoAttempts, r.retransmitted, false)
  }

  function PayloadTake(r: SendRecord, take: int): (n: int)
  {
    if take <= |r.data| then take else |r.data|
  }

  function Popped(q: Queues): (p: Queues)
    requires q.records != []
  {
    var r := q.records[0];
    q.(records := q.records[1..], retransmitBytes := q.retransmitBytes - r.logicalLength,
       inFlightSequence := q.inFlightSequence - r.logicalLength, inFlightBytes := q.inFlightBytes - |r.data|,
       finAcked := q.finAcked || r.logicalLength > |r.data|)
  }

  function FrontTrimmed(q: Queues, take: int): (p: Queues)
    requires q.records != [] && 0 < take < q.records[0].logicalLength && take < MODULUS
  {
    var r := q.records[0];
    q.(records := [Trimmed(r, take)] + q.records[1..], retransmitBytes := q.retransmitBytes - take,
       inFlightSequence := q.inFlightSequence - take, inFlightBytes := q.inFlightBytes - PayloadTake(r, take))
  }

  /** The probe holds one sequence number, so an acknowledgment takes all of it. */
  function ProbeAcked(q: Queues, take: int): (p: Queues)
    requires q.probe.Some?
  {
    q.(probe := None, retransmitBytes := q.retransmitBytes - take,
       finAcked := q.finAcked || q.probe.value.logicalLength > |q.probe.value.data|)
  }

  function Released(q: Queues): (p: Queues)
  {
    q.(closed := true, records := [], probe := None, unsent := [], retransmitBytes := 0, inFlightSequence := 0,
       inFlightBytes := 0)
  }

  // ---------------------------------------------------------------------------------
  // Each of them preserves StreamOk.
  // ---------------------------------------------------------------------------------

  /** Records keep their meaning while the stream only grows. */
  lemma {:induction false} TiledStable(c: Core, d: Core, records: seq<SendRecord>, from: int)
    requires Tiled(c, records, from)
    requires d.iss == c.iss && c.stream <= d.stream
    requires c.q.finSent ==> d.q.finSent && d.stream == c.stream
    ensures Tiled(d, records, from)
  {
    if records != [] {
      TiledStable(c, d, records[1..], from + records[0].logicalLength);
    }
  }

  lemma {:induction false} TiledAppend(c: Core, records: seq<SendRecord>, from: int, r: SendRecord)
    requires Tiled(c, records, from) && RecordOk(c, r, from + Span(records))
    ensures Tiled(c, records + [r], from)
    ensures Span(records + [r]) == Span(records) + r.logicalLength
    ensures DataSpan(records + [r]) == DataSpan(records) + |r.data|
  {
    var more := records + [r];
    if records == [] {
      assert more == [r] && more[1..] == [];
    } else {
      assert more[0] == records[0] && more[1..] == records[1..] + [r];
      TiledAppend(c, records[1..], from + records[0].logicalLength, r);
    }
  }

  lemma EnqueueStep(c: Core, d: Core, limit: int, more: seq<byte>)
    requires StreamOk(c, limit) && !c.q.closed && !c.q.finRequested
    requires d == c.(stream := c.stream + more, q := c.q.(unsent := c.q.unsent + more))
    ensures StreamOk(d, limit)
  {
    TiledStable(c, d, c.q.records, c.una);
  }

  lemma RequestFinStep(c: Core, d: Core, limit: int)
    requires StreamOk(c, limit) && d == c.(q := c.q.(finRequested := true))
    ensures StreamOk(d, limit)
  {
    if !c.q.closed {
      TiledStable(c, d, c.q.records, c.una);
    }
  }

  /** The record NextSegment described and OnSent cuts from the unsent queue. */
  ghost predicate Cut(c: Core, limit: int, r: SendRecord, fin: bool)
  {
    && r.sequence == Wrap(c.iss + c.nxt)
    && |r.data| <= |c.q.unsent| && r.data == c.q.unsent[..|r.data|]
    && r.logicalLength == |r.data| + (if fin then 1 else 0)
    && 0 < r.logicalLength <= limit - c.q.retransmitBytes
    && (fin ==> c.q.finRequested && !c.q.finSent && |r.data| == |c.q.unsent|)
  }

  lemma CutIsStream(c: Core, d: Core, limit: int, r: SendRecord, fin: bool)
    requires StreamOk(c, limit) && !c.q.closed && Cut(c, limit, r, fin)
    requires d.iss == c.iss && d.stream == c.stream && d.q.finSent == (c.q.finSent || fin)
    ensures RecordOk(d, r, c.nxt)
    ensures !c.q.finSent
    ensures c.q.unsent[|r.data|..] == c.stream[c.nxt + |r.data|..]
  {
  }

  lemma StoreStep(c: Core, d: Core, limit: int, r: SendRecord, fin: bool)
    requires StreamOk(c, limit) && !c.q.closed && c.q.probe.None? && Cut(c, limit, r, fin)
    requires d == c.(nxt := c.nxt + r.logicalLength, q := Stored(c.q, r, fin))
    ensures StreamOk(d, limit)
  {
    CutIsStream(c, d, limit, r, fin);
    TiledStable(c, d, c.q.records, c.una);
    TiledAppend(d, c.q.records, c.una, r);
  }

  lemma ProbeStep(c: Core, d: Core, limit: int, r: SendRecord, fin: bool)
    requires StreamOk(c, limit) && !c.q.closed && c.q.probe.None? && c.q.records == [] && Cut(c, limit, r, fin)
    requires r.logicalLength == 1
    requires d == c.(nxt := c.nxt + 1, q := Probed(c.q, r, fin))
    ensures StreamOk(d, limit)
  {
    CutIsStream(c, d, limit, r, fin);
  }

  /** Only bookkeeping differs between two versions of a record. */
  predicate SameCut(r: SendRecord, s: SendRecord)
  {
    r.sequence == s.sequence && r.logicalLength == s.logicalLength && r.data == s.data
  }

  lemma PromoteStep(c: Core, d: Core, limit: int, r: SendRecord)
    requires StreamOk(c, limit) && c.q.probe.Some? && SameCut(r, c.q.probe.value)
    requires d == c.(q := Promoted(c.q, r))
    ensures StreamOk(d, limit)
  {
    TiledAppend(d, [], d.una, r);
    assert [] + [r] == [r];
  }

  /** Rewriting bookkeeping fields of records changes nothing about the stream. */
  lemma {:induction false} TiledSame(c: Core, records: seq<SendRecord>, others: seq<SendRecord>, from: int)
    requires Tiled(c, records, from) && |others| == |records|
    requires forall i :: 0 <= i < |records| ==> SameCut(records[i], others[i])
    ensures Tiled(c, others, from) && Span(others) == Span(records) && DataSpan(others) == DataSpan(records)
  {
    if records != [] {
      assert forall i :: 0 <= i < |records[1..]| ==> records[1..][i] == records[i + 1] && others[1..][i] == others[i + 1];
      TiledSame(c, records[1..], others[1..], from + records[0].logicalLength);
    }
  }

  lemma RewriteStep(c: Core, d: Core, limit: int)
    requires StreamOk(c, limit) && |d.q.records| == |c.q.records|
    requires forall i :: 0 <= i < |c.q.records| ==> SameCut(c.q.records[i], d.q.records[i])
    requires d.q.probe == c.q.probe || (c.q.probe.Some? && d.q.probe.Some? && SameCut(c.q.probe.value, d.q.probe.value))
    requires d == c.(q := c.q.(records := d.q.records, probe := d.q.probe))
    ensures StreamOk(d, limit)
  {
    if !c.q.closed {
      TiledSame(c, c.q.records, d.q.records, c.una);
      TiledStable(c, d, d.q.records, c.una);
    }
  }

  lemma PopStep(c: Core, d: Core, limit: int)
    requires StreamOk(c, limit) && c.q.records != []
    requires d == c.(una := c.una + c.q.records[0].logicalLength, q := Popped(c.q))
    ensures StreamOk(d, limit)
  {
    var r := c.q.records[0];
    TiledSpan(c, c.q.records[1..], c.una + r.logicalLength);
    TiledStable(c, d, c.q.records[1..], c.una + r.logicalLength);
  }

  lemma TrimStep(c: Core, d: Core, limit: int, take: int)
    requires StreamOk(c, limit) && c.q.records != [] && 0 < take < c.q.records[0].logicalLength && take < MODULUS
    requires d == c.(una := c.una + take, q := FrontTrimmed(c.q, take))
    ensures StreamOk(d, limit)
  {
    var r := c.q.records[0];
    var t := Trimmed(r, take);
    TiledSpan(c, c.q.records[1..], c.una + r.logicalLength);
    TiledStable(c, d, c.q.records[1..], c.una + r.logicalLength);
    WrapAdd(c.iss + c.una, take);
    assert d.q.records[0] == t && d.q.records[1..] == c.q.records[1..];
    assert RecordOk(d, t, d.una);
  }

  lemma ProbeAckedStep(c: Core, d: Core, limit: int)
    requires StreamOk(c, limit) && c.q.probe.Some?
    requires d == c.(una := c.una + 1, q := ProbeAcked(c.q, 1))
    ensures StreamOk(d, limit)
  {
  }

  lemma CloseStep(c: Core, d: Core, limit: int)
    requires StreamOk(c, limit)
    requires d == c.(q := Released(c.q))
    ensures StreamOk(d, limit)
  {
  }

  // ---------------------------------------------------------------------------------
  // The SACK scoreboard.
  // ---------------------------------------------------------------------------------

  datatype Scoreboard = Scoreboard(sackedBytes: int, sackedSequence: int)

  ghost function SackSpan(records: seq<SendRecord>): (n: int)
  {
    if records == [] then 0 else (if records[0].sacked then records[0].logicalLength else 0) + SackSpan(records[1..])
  }

  ghost function SackBytes(records: seq<SendRecord>): (n: int)
  {
    if records == [] then 0 else (if records[0].sacked then |records[0].data| else 0) + SackBytes(records[1..])
  }

  /** The counters say exactly what the flags say. */
  ghost predicate SackExact(records: seq<SendRecord>, s: Scoreboard)
  {
    s.sackedSequence == SackSpan(records) && s.sackedBytes == SackBytes(records)
  }

  /** A cumulative acknowledgment of `n` more positions ends inside a SACKed record. */
  predicate LandsInsideSacked(records: seq<SendRecord>, n: int)
  {
    n > 0 && records != [] &&
    if n < records[0].logicalLength then records[0].sacked
    else LandsInsideSacked(records[1..], n - records[0].logicalLength)
  }

  lemma {:induction false} SackBounds(c: Core, records: seq<SendRecord>, from: int)
    requires Tiled(c, records, from)
    ensures 0 <= SackSpan(records) <= Span(records) && 0 <= SackBytes(records) <= DataSpan(records)
  {
    hide Wrap;
    if records != [] {
      SackBounds(c, records[1..], from + records[0].logicalLength);
    }
  }

  function Floor(left: int, right: int): (r: int)
  {
    if left >= right then left - right else 0
  }

  /** The scoreboard after `take` positions holding `bytes` payload bytes of a record are acknowledged. */
  function ScoreAfter(s: Scoreboard, sacked: bool, take: int, bytes: int): (t: Scoreboard)
  {
    if sacked then Scoreboard(Floor(s.sackedBytes, bytes), Floor(s.sackedSequence, take)) else s
  }

  lemma SackPop(c: Core, records: seq<SendRecord>, from: int, s: Scoreboard)
    requires Tiled(c, records, from) && records != [] && SackExact(records, s)
    ensures SackExact(records[1..], ScoreAfter(s, records[0].sacked, records[0].logicalLength, |records[0].data|))
  {
    hide Wrap;
    SackBounds(c, records[1..], from + records[0].logicalLength);
  }

  /** The partial acknowledgment is where the counters part from the flags: the flag is
      cleared for the whole rest of the record, the counter lowered by the acked part only. */
  lemma SackTrim(c: Core, records: seq<SendRecord>, from: int, s: Scoreboard, take: int)
    requires Tiled(c, records, from) && records != [] && SackExact(records, s)
    requires 0 < take < records[0].logicalLength && take < MODULUS
    ensures var r := records[0];
            SackExact([Trimmed(r, take)] + records[1..], ScoreAfter(s, r.sacked, take, PayloadTake(r, take))) <==> !r.sacked
  {
    hide Wrap;
    var more := [Trimmed(records[0], take)] + records[1..];
    assert more[0] == Trimmed(records[0], take) && more[1..] == records[1..];
    SackBounds(c, records[1..], from + records[0].logicalLength);
  }

  /** A SACK block covers [sequence, sequence + length) in full. */
  predicate Covers(block: (Seq32, Seq32), r: SendRecord)
    requires 0 <= r.logicalLength < MODULUS
  {
    && block.0 != block.1
    && !SequenceBefore(r.sequence, block.0)
    && !SequenceAfter(Add32(r.sequence, r.logicalLength), block.1)
  }

  predicate AnyCovers(blocks: seq<(Seq32, Seq32)>, r: SendRecord)
    requires 0 <= r.logicalLength < MODULUS
  {
    exists k :: 0 <= k < |blocks| && Covers(blocks[k], r)
  }

  /** A record after a SACK option was read: flags are only ever set, and only under cover. */
  function Mark(blocks: seq<(Seq32, Seq32)>, r: SendRecord): (s: SendRecord)
    requires 0 <= r.logicalLength < MODULUS
  {
    if r.sacked || AnyCovers(blocks, r) then r.(sacked := true) else r
  }

  /** On absolute positions less than half the space apart, cover means containment. */
  lemma CoversLaw(c: Core, r: SendRecord, from: int, a: int, b: int)
    requires RecordOk(c, r, from) && r.logicalLength < HALF && a < b < a + MODULUS
    requires -HALF < from - a < HALF && -HALF < from + r.logicalLength - b < HALF
    ensures Covers((Wrap(c.iss + a), Wrap(c.iss + b)), r) <==> a <= from && from + r.logicalLength <= b
  {
    hide Wrap;
    ComparisonLaw(c.iss + from, c.iss + a);
    ComparisonLaw(c.iss + from + r.logicalLength, c.iss + b);
    WrapAdd(c.iss + from, r.logicalLength);
    assert Wrap(c.iss + a) != Wrap(c.iss + b) by {
      if Wrap(c.iss + a) == Wrap(c.iss + b) {
        WrapSub(c.iss + b, c.iss + a);
        WrapIsMod(b - a);
      }
    }
  }

  lemma {:induction false} SackAppend(records: seq<SendRecord>, r: SendRecord)
    ensures SackSpan(records + [r]) == SackSpan(records) + (if r.sacked then r.logicalLength else 0)
    ensures SackBytes(records + [r]) == SackBytes(records) + (if r.sacked then |r.data| else 0)
  {
    var more := records + [r];
    if records == [] {
      assert more == [r] && more[1..] == [];
    } else {
      assert more[0] == records[0] && more[1..] == records[1..] + [r];
      SackAppend(records[1..], r);
    }
  }

  lemma {:induction false} TiledLengths(c: Core, records: seq<SendRecord>, from: int, bound: int)
    requires Tiled(c, records, from) && Span(records) < bound
    ensures forall i :: 0 <= i < |records| ==> 0 < records[i].logicalLength < bound
  {
    hide Wrap;
    if records != [] {
      TiledSpan(c, records[1..], from + records[0].logicalLength);
      TiledLengths(c, records[1..], from + records[0].logicalLength, bound);
      forall i | 0 <= i < |records|
        ensures 0 < records[i].logicalLength < bound
      {
        if i > 0 {
          assert records[i] == records[1..][i - 1];
        }
      }
    }
  }
}
