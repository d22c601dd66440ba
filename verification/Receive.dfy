/** The receive ring of one TCP connection: a fixed buffer with one occupancy flag per
    byte, addressed by wrapping sequence numbers.

    The ghost state gives every stored byte its absolute stream position. `received` is
    the history map from position to the first byte ever written there; `delivered` is
    what left through ConsumeReady. */
module Receive {
  import opened Prelude
  import opened SeqSpace

  const MAXIMUM_CAPACITY: int := 0x7fff_ffff

  datatype Disposition = Accepted | Duplicate | OutOfWindow | Invalid

  datatype AckDecision = NoAck | Delayed | Immediate

  datatype ReceiveResult = ReceiveResult(
    disposition: Disposition,
    ackDecision: AckDecision,
    acceptedBytes: nat,
    leftTrimmed: nat,
    rightTrimmed: nat,
    duplicateBytes: nat)

  datatype SackBlock = SackBlock(leftEdge: Seq32, rightEdge: Seq32)

  /** The segment acceptability test of section 3.10.7.4 of RFC 9293, on wire numbers. */
  predicate RfcAcceptable(sequence: Seq32, length: nat, nxt: Seq32, window: nat)
    requires length <= MAXIMUM_CAPACITY
  {
    if length == 0 && window == 0 then sequence == nxt
    else if length == 0 then Sub32(sequence, nxt) < window
    else window != 0 &&
         (Sub32(sequence, nxt) < window || Sub32(Add32(sequence, length - 1), nxt) < window)
  }

  /** `after` is `before` plus the bytes of a segment placed at absolute position `at` that
      land in [lo, hi) on positions nobody wrote before. */
  ghost predicate Stored(before: map<int, byte>, after: map<int, byte>, data: seq<byte>, at: int, lo: int, hi: int)
    requires at <= lo && hi <= at + |data|
  {
    && (forall p :: p in after <==> p in before || lo <= p < hi)
    && (forall p :: p in before ==> p in after && after[p] == before[p])
    && (forall p :: p in after && p !in before ==> after[p] == data[p - at])
  }

  lemma StoredStep(before: map<int, byte>, mid: map<int, byte>, data: seq<byte>, at: int, lo: nat, hi: nat)
    requires at <= lo <= hi < at + |data|
    requires Stored(before, mid, data, at, lo, hi)
    ensures hi in mid <==> hi in before
    ensures Stored(before, if hi in mid then mid else mid[hi := data[hi - at]], data, at, lo, hi + 1)
  {
  }

  lemma StoredHolds(before: map<int, byte>, after: map<int, byte>, data: seq<byte>, at: int, lo: int, hi: int, t: int)
    requires at <= lo && hi <= at + |data|
    requires Stored(before, after, data, at, lo, hi) && lo <= t < hi
    ensures t in after
  {
  }

  /** Positions of `held` at or beyond `from`. */
  ghost function Beyond(held: map<int, byte>, from: int): (s: set<int>)
  {
    set p | p in held && from <= p
  }

  lemma BeyondStep(held: map<int, byte>, from: nat)
    ensures |Beyond(held, from)| == |Beyond(held, from + 1)| + (if from in held then 1 else 0)
  {
    if from in held {
      assert Beyond(held, from) == Beyond(held, from + 1) + {from};
    } else {
      assert Beyond(held, from) == Beyond(held, from + 1);
    }
  }

  /** A map that holds every position below `prefix` has exactly |held| - prefix others. */
  lemma BeyondPrefix(held: map<int, byte>, prefix: nat)
    requires forall p :: 0 <= p < prefix ==> p in held
    requires forall p :: p in held ==> 0 <= p
    ensures |Beyond(held, prefix)| == |held| - prefix
    decreases prefix
  {
    if prefix == 0 {
      assert Beyond(held, 0) == held.Keys;
    } else {
      BeyondPrefix(held, prefix - 1);
      BeyondStep(held, prefix - 1);
    }
  }

  /** An occupied run accounts for exactly its length. */
  lemma {:induction false} BeyondRun(held: map<int, byte>, from: nat, a: int, b: int)
    requires from <= a <= b
    requires forall p :: from <= p < a ==> p !in held
    requires forall p :: a <= p < b ==> p in held
    ensures |Beyond(held, from)| == |Beyond(held, b)| + (b - a)
    decreases b - from
  {
    if from < b {
      BeyondStep(held, from);
      BeyondRun(held, from + 1, if from < a then a else from + 1, b);
    }
  }

  ghost predicate AllHeld(held: map<int, byte>, a: int, b: int)
  {
    forall p :: a <= p < b ==> p in held
  }

  /** [a, b) is a non-empty run of held positions strictly beyond `nxt`. */
  ghost predicate HeldRun(held: map<int, byte>, nxt: int, a: int, b: int)
  {
    nxt < a < b && forall p :: a <= p < b ==> p in held
  }

  /** ... that cannot be extended on either side. */
  ghost predicate MaximalRun(held: map<int, byte>, nxt: int, a: int, b: int)
  {
    HeldRun(held, nxt, a, b) && a - 1 !in held && b !in held
  }

  /** A list of held runs. From index `skip` on they are the maximal runs in ascending order
      up to `upTo`, and together they cover every byte held there. */
  ghost predicate RunList(held: map<int, byte>, nxt: int, runs: seq<(int, int)>, skip: nat, upTo: int)
  {
    && skip <= 1 && skip <= |runs|
    && (forall i :: 0 <= i < |runs| ==> HeldRun(held, nxt, runs[i].0, runs[i].1))
    && (forall i :: skip <= i < |runs| ==> MaximalRun(held, nxt, runs[i].0, runs[i].1) && runs[i].1 <= upTo)
    && (forall i, j :: skip <= i < j < |runs| ==> runs[i].1 < runs[j].0)
    && (forall p :: p in held && nxt < p < upTo ==> exists i :: 0 <= i < |runs| && runs[i].0 <= p < runs[i].1)
  }

  lemma RunListStart(held: map<int, byte>, nxt: int, run: (int, int))
    ensures RunList(held, nxt, [], 0, nxt)
    ensures HeldRun(held, nxt, run.0, run.1) ==> RunList(held, nxt, [run], 1, nxt)
  {
  }

  lemma RunListAppend(held: map<int, byte>, nxt: int, runs: seq<(int, int)>, skip: nat, upTo: int, a: int, b: int)
    requires RunList(held, nxt, runs, skip, upTo) && MaximalRun(held, nxt, a, b)
    requires upTo <= a && forall p :: upTo <= p < a ==> p !in held
    ensures RunList(held, nxt, runs + [(a, b)], skip, b)
  {
    var more := runs + [(a, b)];
    forall i | skip <= i < |runs|
      ensures runs[i].1 < a
    {
      assert runs[i].1 - 1 in held;
    }
    forall p | p in held && nxt < p < b
      ensures exists i :: 0 <= i < |more| && more[i].0 <= p < more[i].1
    {
      if p < upTo {
        var i :| 0 <= i < |runs| && runs[i].0 <= p < runs[i].1;
        assert more[i] == runs[i];
      } else {
        assert more[|runs|] == (a, b);
      }
    }
  }

  lemma RunListHeld(held: map<int, byte>, nxt: int, runs: seq<(int, int)>, skip: nat, upTo: int)
    requires RunList(held, nxt, runs, skip, upTo) && |runs| > 0
    ensures nxt < runs[0].0 < runs[0].1 && runs[0].1 - 1 in held
  {
  }

  lemma RunListRepeat(held: map<int, byte>, nxt: int, runs: seq<(int, int)>, skip: nat, upTo: int, a: int, b: int)
    requires RunList(held, nxt, runs, skip, upTo) && MaximalRun(held, nxt, a, b)
    requires upTo <= a && forall p :: upTo <= p < a ==> p !in held
    requires |runs| > 0 && runs[0] == (a, b)
    ensures RunList(held, nxt, runs, skip, b)
  {
    forall p | p in held && nxt < p < b
      ensures exists i :: 0 <= i < |runs| && runs[i].0 <= p < runs[i].1
    {
      if p >= upTo {
        assert runs[0].0 <= p < runs[0].1;
      }
    }
  }

  /** The absolute position the physical slot `j` of a ring stands for. */
  ghost function PosOf(base: nat, first: nat, capacity: nat, j: int): (p: int)
  {
    base + (if j >= first then j - first else j - first + capacity)
  }

  /** The ring refines the history map: a slot is occupied exactly when its position was
      written, it then holds the first byte written there, and what left is a prefix. */
  ghost predicate RingOk(storage: seq<byte>, occupied: seq<bool>, first: nat, bytesHeld: nat,
                         received: map<int, byte>, delivered: seq<byte>)
  {
    var capacity := |storage|;
    && 1 <= capacity <= MAXIMUM_CAPACITY
    && |occupied| == capacity
    && first < capacity
    && (forall j :: 0 <= j < capacity ==> (occupied[j] <==> PosOf(|delivered|, first, capacity, j) in received))
    && (forall j :: 0 <= j < capacity && occupied[j] ==> storage[j] == received[PosOf(|delivered|, first, capacity, j)])
    && (forall p :: p in received ==> 0 <= p < |delivered| + capacity)
    && (forall p :: 0 <= p < |delivered| ==> p in received && received[p] == delivered[p])
    && |received| == |delivered| + bytesHeld
  }

  /** `nxt` is the end of the maximal received prefix. */
  ghost predicate FrontOk(received: map<int, byte>, nxt: nat)
  {
    (forall p :: 0 <= p < nxt ==> p in received) && nxt !in received
  }

  /** Everything held lies below the promised right edge, which fits in the ring. */
  ghost predicate PromiseOk(received: map<int, byte>, base: nat, nxt: nat, promised: nat, capacity: nat)
  {
    nxt <= promised <= base + capacity && forall p :: p in received ==> p < promised
  }

  lemma StoreByte(storage: seq<byte>, occupied: seq<bool>, first: nat, bytesHeld: nat,
                  received: map<int, byte>, delivered: seq<byte>, j: nat, b: byte)
    requires RingOk(storage, occupied, first, bytesHeld, received, delivered)
    requires j < |storage| && !occupied[j]
    ensures RingOk(storage[j := b], occupied[j := true], first, bytesHeld + 1,
                   received[PosOf(|delivered|, first, |storage|, j) := b], delivered)
  {
  }

  /** The `n` bytes of a history map from position `base` on. */
  ghost function ReadOut(m: map<int, byte>, base: int, n: nat): (s: seq<byte>)
    requires forall p :: base <= p < base + n ==> p in m
    ensures |s| == n && forall k :: 0 <= k < n ==> s[k] == m[base + k]
  {
    if n == 0 then [] else ReadOut(m, base, n - 1) + [m[base + n - 1]]
  }

  /** `view` is what the history map holds from position `base` on. */
  ghost predicate Reads(m: map<int, byte>, base: int, view: seq<byte>)
  {
    forall p :: base <= p < base + |view| ==> p in m && m[p] == view[p - base]
  }

  lemma ReadOutReads(m: map<int, byte>, base: int, view: seq<byte>, n: nat)
    requires Reads(m, base, view) && n <= |view|
    ensures forall p :: base <= p < base + n ==> p in m
    ensures ReadOut(m, base, n) == view[..n]
  {
    forall k | 0 <= k < n
      ensures ReadOut(m, base, n)[k] == view[..n][k]
    {
      assert m[base + k] == view[k];
    }
  }

  /** Delivering the front of the ready prefix turns the ring without losing a byte. */
  lemma ConsumeRing(storage: seq<byte>, occupied: seq<bool>, cleared: seq<bool>, first: nat, next: nat,
                    bytesHeld: nat, bytesLeft: nat, received: map<int, byte>, before: seq<byte>, after: seq<byte>, n: nat)
    requires RingOk(storage, occupied, first, bytesHeld, received, before)
    requires n <= |storage| && bytesHeld == bytesLeft + n
    requires forall p :: |before| <= p < |before| + n ==> p in received
    requires after == before + ReadOut(received, |before|, n)
    requires next == if first + n < |storage| then first + n else first + n - |storage|
    requires |cleared| == |occupied|
    requires forall j :: 0 <= j < |occupied| ==>
               cleared[j] == (occupied[j] && !(PosOf(|before|, first, |storage|, j) < |before| + n))
    ensures RingOk(storage, cleared, next, bytesLeft, received, after)
  {
    var base, capacity := |before|, |storage|;
    forall j | 0 <= j < capacity
      ensures PosOf(|after|, next, capacity, j) ==
              PosOf(base, first, capacity, j) +
              if PosOf(base, first, capacity, j) < base + n then capacity else 0
    {
    }
    forall p | 0 <= p < |after|
      ensures p in received && received[p] == after[p]
    {
      if p >= base {
        assert after[p] == ReadOut(received, base, n)[p - base];
      }
    }
  }

  /** How a segment lies in the window: which bytes are cut on either side, where the rest
      starts (as an offset from rcv_nxt) and how many bytes remain. */
  datatype Placement =
    | Unplaced(disposition: Disposition)
    | Placed(leftTrimmed: nat, windowOffset: nat, candidateBytes: nat, rightTrimmed: nat)

  function Place(sequence: Seq32, length: nat, nxt: Seq32, window: nat): (r: Placement)
    requires 1 <= length <= MAXIMUM_CAPACITY && window <= MAXIMUM_CAPACITY
    ensures r.Placed? <==> RfcAcceptable(sequence, length, nxt, window)
    ensures var offset := SequenceOffset(sequence, nxt);
            r.Placed? ==>
              && offset.At?
              && r.leftTrimmed + r.candidateBytes + r.rightTrimmed == length
              && r.candidateBytes > 0
              && r.windowOffset == offset.value + r.leftTrimmed == Max(0, offset.value)
              && r.windowOffset + r.candidateBytes == Min(offset.value + length, window)
    ensures var offset := SequenceOffset(sequence, nxt);
            r.Unplaced? ==> r.disposition == if offset.At? && offset.value + length <= 0 then Duplicate else OutOfWindow
  {
    match SequenceOffset(sequence, nxt)
    case NoOffset => Unplaced(OutOfWindow)
    case At(begin) =>
      var end := begin + length;
      if window == 0 || !(0 <= begin < window || 0 <= end - 1 < window) then
        Unplaced(if end <= 0 then Duplicate else OutOfWindow)
      else
        var left := if begin < 0 then Min(length, -begin) else 0;
        var acceptedBegin, acceptedEnd := Max(0, begin), Min(end, window);
        Placed(left, acceptedBegin, acceptedEnd - acceptedBegin, length - left - (acceptedEnd - acceptedBegin))
  }

  /** The immediate-or-delayed decision of OnSegment. */
  function DecideAck(blocked: bool, psh: bool, pending: bool, place: Placement, accepted: nat, duplicates: nat, advanced: nat): (r: AckDecision)
    requires place.Placed? && accepted + duplicates == place.candidateBytes > 0
    ensures r.Delayed? <==>
              && !blocked && !psh && !pending && place.windowOffset == place.leftTrimmed == place.rightTrimmed == 0
              && accepted == place.candidateBytes && advanced <= accepted
    ensures r.Immediate? || r.Delayed?
  {
    var immediate :=
      || blocked || place.windowOffset > 0 || place.leftTrimmed != 0 || duplicates != 0 || place.rightTrimmed != 0
      || advanced > accepted || psh || accepted == 0;
    if immediate || pending then Immediate else Delayed
  }

  class TcpReceiveBuffer {
    const capacity: nat
    const storage: array<byte>
    const occupancy: array<bool>
    var firstUndelivered: Seq32
    var rcvNxt: Seq32
    var rcvAdv: Seq32
    var firstIndex: nat
    var bytesHeld: nat
    var readyBytes: nat
    var blocked: bool
    var delayedAckPending: bool
    var recentSack: SackBlock
    var recentSackValid: bool
    var finReceived: bool

    ghost const initial: Seq32
    ghost var received: map<int, byte>
    ghost var delivered: seq<byte>
    ghost var promised: nat

    /** Absolute position of the next in-order data byte. */
    ghost function DataNxt(): (p: nat)
      reads this
    {
      |delivered| + readyBytes
    }

    /** Absolute position behind rcv_nxt: the FIN occupies one position and no slot. */
    ghost function Nxt(): (p: nat)
      reads this
    {
      DataNxt() + if finReceived then 1 else 0
    }

    ghost predicate RingValid()
      reads this, storage, occupancy
    {
      && storage.Length == occupancy.Length == capacity
      && firstIndex < capacity <= MAXIMUM_CAPACITY
      && RingOk(storage[..], occupancy[..], firstIndex, bytesHeld, received, delivered)
    }

    /** Bytes: the ring, its maximal ready prefix and the promised right edge. */
    ghost predicate Content()
      reads this, storage, occupancy
    {
      && RingValid()
      && FrontOk(received, DataNxt())
      && readyBytes <= capacity
      && (!finReceived ==> PromiseOk(received, |delivered|, DataNxt(), promised, capacity))
    }

    /** Wire numbers: each register is the residue of its absolute position. */
    ghost predicate Numbers()
      reads this
    {
      && firstUndelivered == Wrap(initial + |delivered|)
      && rcvNxt == Wrap(initial + Nxt())
      && rcvAdv == Wrap(initial + promised)
    }

    ghost predicate Valid()
      reads this, storage, occupancy
    {
      Content() && Numbers()
    }

    constructor (capacity: nat, initialSequence: Seq32, initialAdvertisedWindow: nat)
      requires 1 <= capacity <= MAXIMUM_CAPACITY
      ensures Valid() && fresh(storage) && fresh(occupancy)
      ensures this.capacity == capacity && initial == initialSequence
      ensures received == map[] && delivered == [] && !finReceived && !blocked && AdvertisedWindow() == capacity && DataNxt() == 0
      ensures promised == if initialAdvertisedWindow == 0 then capacity else Min(initialAdvertisedWindow, capacity)
    {
      this.capacity := capacity;
      storage := new byte[capacity];
      occupancy := new bool[capacity](_ => false);
      var adv := if initialAdvertisedWindow == 0 then capacity else Min(initialAdvertisedWindow, capacity);
      firstUndelivered := initialSequence;
      rcvNxt := initialSequence;
      rcvAdv := Add32(initialSequence, adv);
      firstIndex, bytesHeld, readyBytes := 0, 0, 0;
      blocked, delayedAckPending, recentSackValid, finReceived := false, false, false, false;
      recentSack := SackBlock(0, 0);
      initial := initialSequence;
      received := map[];
      delivered := [];
      promised := adv;
    }

    function PhysicalIndex(logicalOffset: nat): (j: nat)
      reads this
      requires firstIndex < capacity
      requires logicalOffset <= capacity
      ensures j < capacity
      ensures logicalOffset < capacity ==> PosOf(|delivered|, firstIndex, capacity, j) == |delivered| + logicalOffset
    {
      var untilEnd := capacity - firstIndex;
      if logicalOffset < untilEnd then firstIndex + logicalOffset else logicalOffset - untilEnd
    }

    function AcceptableWindow(): (w: nat)
      reads this
      requires readyBytes <= capacity
    {
      var forward := Sub32(rcvAdv, rcvNxt);
      if forward < HALF then Min(forward, capacity - readyBytes) else 0
    }

    function AdvertisedWindow(): (w: int)
      reads this
    {
      if blocked then 0 else capacity - bytesHeld
    }

    /** Before the FIN the acceptable window is exactly what is still promised. */
    lemma WindowIsPromise()
      requires Valid() && !finReceived
      ensures AcceptableWindow() == promised - DataNxt()
    {
      WrapSub(initial + promised, initial + DataNxt());
    }

    /** The segment test: the source's signed offsets decide the RFC's wire predicate. */
    function IsSequenceAcceptable(sequence: Seq32, segmentLength: nat): (r: bool)
      reads this
      requires readyBytes <= capacity <= MAXIMUM_CAPACITY
      ensures segmentLength <= MAXIMUM_CAPACITY ==>
                (r <==> RfcAcceptable(sequence, segmentLength, rcvNxt, AcceptableWindow()))
    {
      if segmentLength > MAXIMUM_CAPACITY then false
      else
        match SequenceOffset(sequence, rcvNxt)
        case NoOffset => false
        case At(begin) =>
          var window := AcceptableWindow();
          if window == 0 then segmentLength == 0 && begin == 0
          else if segmentLength == 0 then 0 <= begin < window
          else
            var end := begin + segmentLength - 1;
            0 <= begin < window || 0 <= end < window
    }

    method RecordAdvertisedWindow(window: nat)
      requires Valid()
      modifies this`rcvAdv, this`promised
      ensures Valid()
      ensures promised >= old(promised)
      ensures !finReceived ==> promised == Max(old(promised), DataNxt() + Min(window, capacity - readyBytes))
    {
      hide Wrap;
      var bounded := Min(window, capacity - readyBytes);
      var candidate := Add32(rcvNxt, bounded);
      OfferLaw(initial + Nxt(), bounded, initial + promised);
      var offset := SequenceOffset(candidate, rcvAdv);
      if offset.At? && offset.value > 0 {
        rcvAdv := candidate;
        promised := promised + offset.value;
      }
    }

    method SetBlocked(value: bool)
      requires Valid()
      modifies this`blocked
      ensures Valid() && blocked == value
    {
      blocked := value;
    }

    /** One byte of the copy loop: a byte already held wins over the new one. */
    method StoreOne(offset: nat, b: byte) returns (stored: bool)
      requires RingValid() && offset < capacity
      modifies this`bytesHeld, this`received, storage, occupancy
      ensures RingValid()
      ensures stored <==> |delivered| + offset !in old(received)
      ensures received == if stored then old(received)[|delivered| + offset := b] else old(received)
      ensures bytesHeld == old(bytesHeld) + if stored then 1 else 0
    {
      var physical := PhysicalIndex(offset);
      assert occupancy[..][physical] == occupancy[physical];
      stored := !occupancy[physical];
      if stored {
        StoreByte(storage[..], occupancy[..], firstIndex, bytesHeld, received, delivered, physical, b);
        storage[physical] := b;
        occupancy[physical] := true;
        received := received[|delivered| + offset := b];
        bytesHeld := bytesHeld + 1;
      }
    }

    /** The copy loop of OnSegment. */
    method StoreRun(data: seq<byte>, skip: nat, offset: nat, count: nat, ghost at: int, ghost lo: int, ghost hi: int)
      returns (accepted: nat, duplicates: nat, firstNew: nat)
      requires RingValid()
      requires skip + count <= |data| && offset + count <= capacity
      requires lo == |delivered| + offset && at == lo - skip && hi == lo + count
      modifies this`bytesHeld, this`received, storage, occupancy
      ensures RingValid()
      ensures Stored(old(received), received, data, at, lo, hi)
      ensures accepted + duplicates == count && accepted == |received| - |old(received)|
      ensures firstNew <= count && (firstNew == count <==> accepted == 0)
      ensures firstNew < count ==> lo + firstNew !in old(received)
    {
      hide RingOk;
      accepted, duplicates, firstNew := 0, 0, count;
      ghost var before := received;
      var i := 0;
      while i < count
        invariant i <= count
        invariant RingValid()
        invariant Stored(before, received, data, at, lo, lo + i)
        invariant accepted + duplicates == i && accepted == |received| - |before|
        invariant firstNew == count || firstNew < i
        invariant firstNew == count <==> accepted == 0
        invariant firstNew < count ==> lo + firstNew !in before
      {
        StoredStep(before, received, data, at, lo, lo + i);
        var stored := StoreOne(offset + i, data[skip + i]);
        if stored {
          if firstNew == count {
            firstNew := i;
          }
          accepted := accepted + 1;
        } else {
          duplicates := duplicates + 1;
        }
        i := i + 1;
      }
    }

    /** The ready loop: extend the in-order prefix over every occupied slot. */
    method AdvanceReady() returns (advanced: nat)
      requires RingValid() && readyBytes <= capacity
      requires forall p :: 0 <= p < DataNxt() ==> p in received
      modifies this`readyBytes
      ensures FrontOk(received, DataNxt()) && readyBytes <= capacity
      ensures readyBytes == old(readyBytes) + advanced
    {
      var before := readyBytes;
      while readyBytes < capacity && occupancy[PhysicalIndex(readyBytes)]
        invariant before <= readyBytes <= capacity
        invariant forall p :: 0 <= p < DataNxt() ==> p in received
      {
        assert occupancy[..][PhysicalIndex(readyBytes)];
        readyBytes := readyBytes + 1;
      }
      advanced := readyBytes - before;
      if readyBytes < capacity {
        assert !occupancy[..][PhysicalIndex(readyBytes)];
      }
    }

    /** The maximal occupied run around an out-of-order slot, in logical offsets. */
    method FindRun(trigger: nat) returns (begin: nat, end: nat)
      requires RingValid() && FrontOk(received, DataNxt())
      requires readyBytes < trigger < capacity && |delivered| + trigger in received
      ensures begin <= trigger < end <= capacity
      ensures MaximalRun(received, DataNxt(), |delivered| + begin, |delivered| + end)
    {
      begin, end := trigger, trigger + 1;
      while begin > readyBytes && occupancy[PhysicalIndex(begin - 1)]
        invariant readyBytes < begin <= trigger
        invariant forall p :: |delivered| + begin <= p < |delivered| + end ==> p in received
      {
        assert occupancy[..][PhysicalIndex(begin - 1)];
        begin := begin - 1;
      }
      assert !occupancy[..][PhysicalIndex(begin - 1)];
      while end < capacity && occupancy[PhysicalIndex(end)]
        invariant trigger < end <= capacity
        invariant forall p :: |delivered| + begin <= p < |delivered| + end ==> p in received
      {
        assert occupancy[..][PhysicalIndex(end)];
        end := end + 1;
      }
      if end < capacity {
        assert !occupancy[..][PhysicalIndex(end)];
      }
    }

    /** The wire form of the run [a, b). */
    ghost function WireBlock(a: int, b: int): (r: SackBlock)
    {
      SackBlock(Wrap(initial + a), Wrap(initial + b))
    }

    method BlockAt(begin: nat, end: nat) returns (r: SackBlock)
      requires Numbers() && !finReceived && readyBytes <= begin <= end <= capacity <= MAXIMUM_CAPACITY
      ensures r == WireBlock(|delivered| + begin, |delivered| + end)
    {
      WrapAdd(initial + Nxt(), begin - readyBytes);
      WrapAdd(initial + Nxt(), end - readyBytes);
      r := SackBlock(Add32(rcvNxt, begin - readyBytes), Add32(rcvNxt, end - readyBytes));
    }

    /** The clearing loop of ConsumeReady. */
    method ClearFront(count: nat)
      requires firstIndex < capacity && occupancy.Length == capacity && count <= capacity
      modifies occupancy
      ensures forall j :: 0 <= j < capacity ==>
                occupancy[j] == (old(occupancy[j]) && !(PosOf(|delivered|, firstIndex, capacity, j) < |delivered| + count))
    {
      var i := 0;
      while i < count
        invariant i <= count
        invariant forall j :: 0 <= j < capacity ==>
                    occupancy[j] == (old(occupancy[j]) && !(PosOf(|delivered|, firstIndex, capacity, j) < |delivered| + i))
      {
        occupancy[PhysicalIndex(i)] := false;
        i := i + 1;
      }
    }

    method ConsumeContent(consumed: nat)
      requires Content() && consumed <= readyBytes
      modifies this`firstIndex, this`bytesHeld, this`readyBytes, this`delivered, occupancy
      ensures Content()
      ensures received == old(received) && DataNxt() == old(DataNxt())
      ensures delivered == old(delivered) + ReadOut(received, |old(delivered)|, consumed)
    {
      BeyondPrefix(received, DataNxt());
      ClearFront(consumed);
      firstIndex := PhysicalIndex(consumed);
      bytesHeld := bytesHeld - consumed;
      readyBytes := readyBytes - consumed;
      delivered := delivered + ReadOut(received, |delivered|, consumed);
      ConsumeRing(storage[..], old(occupancy[..]), occupancy[..], old(firstIndex), firstIndex,
                  old(bytesHeld), bytesHeld, received, old(delivered), delivered, consumed);
    }

    method ConsumeReady(length: nat) returns (consumed: nat)
      requires Valid()
      modifies this`firstUndelivered, this`firstIndex, this`bytesHeld, this`readyBytes, this`delivered, occupancy
      ensures Valid()
      ensures consumed == Min(length, old(readyBytes))
      ensures received == old(received) && Nxt() == old(Nxt())
      ensures delivered == old(delivered) + ReadOut(received, |old(delivered)|, consumed)
    {
      hide Wrap, RingOk, FrontOk, PromiseOk;
      consumed := Min(length, readyBytes);
      WrapAdd(initial + |delivered|, consumed);
      ConsumeContent(consumed);
      firstUndelivered := Add32(firstUndelivered, consumed);
    }

    /** Store the placed bytes and extend the ready prefix over them. */
    method Absorb(data: seq<byte>, skip: nat, windowOffset: nat, count: nat, ghost at: int, ghost lo: int, ghost hi: int)
      returns (accepted: nat, duplicates: nat, firstNew: nat, advanced: nat)
      requires Content() && !finReceived
      requires skip + count <= |data| && DataNxt() + windowOffset + count <= promised
      requires lo == DataNxt() + windowOffset && at == lo - skip && hi == lo + count
      modifies this`bytesHeld, this`received, this`readyBytes, storage, occupancy
      ensures Content()
      ensures Stored(old(received), received, data, at, lo, hi)
      ensures firstNew < count ==> lo + firstNew !in old(received)
      ensures accepted + duplicates == count && accepted == |received| - |old(received)|
      ensures firstNew <= count && (firstNew == count <==> accepted == 0)
      ensures DataNxt() == old(DataNxt()) + advanced
      ensures windowOffset == 0 ==> advanced >= count
    {
      accepted, duplicates, firstNew := StoreRun(data, skip, readyBytes + windowOffset, count, at, lo, hi);
      advanced := AdvanceReady();
      if DataNxt() > 0 {
        assert DataNxt() - 1 in received;
      }
    }

    /** `block` is the whole run of held bytes around position `t`. */
    ghost predicate RunAround(block: SackBlock, held: map<int, byte>, nxt: int, t: int)
    {
      exists a: int, b: int :: MaximalRun(held, nxt, a, b) && a <= t < b && block == WireBlock(a, b)
    }

    /** Remember the run around an out-of-order arrival: the first block of the next SACK
        option has to contain it (section 4 of RFC 2018). */
    method NoteArrival(trigger: Seq32, ghost t: nat)
      requires Valid() && !finReceived && |delivered| <= t && t in received && trigger == Wrap(initial + t)
      modifies this`recentSack, this`recentSackValid
      ensures Valid()
      ensures t > DataNxt() ==> recentSackValid && RunAround(recentSack, received, DataNxt(), t)
    {
      hide Wrap, RingOk;
      var offset := Sub32(trigger, rcvNxt);
      assert |delivered| <= DataNxt() <= |delivered| + capacity;
      assert t < promised;
      WrapSub(initial + t, initial + DataNxt());
      SmallWrap(t - DataNxt());
      if offset != 0 && offset < HALF {
        var begin, end := FindRun(readyBytes + offset);
        recentSack := BlockAt(begin, end);
        recentSackValid := true;
      }
    }

    /** Store a placed segment, advance rcv_nxt and remember an out-of-order arrival. */
    method StorePlaced(sequence: Seq32, data: seq<byte>, place: Placement, ghost at: int, ghost lo: int, ghost hi: int)
      returns (accepted: nat, duplicates: nat, advanced: nat, ghost newest: int)
      requires Valid() && !finReceived
      requires place.Placed? && place.leftTrimmed + place.candidateBytes <= |data| <= MAXIMUM_CAPACITY
      requires place.candidateBytes > 0 && DataNxt() + place.windowOffset + place.candidateBytes <= promised
      requires lo == DataNxt() + place.windowOffset && at == lo - place.leftTrimmed && hi == lo + place.candidateBytes
      requires sequence == Wrap(initial + at)
      modifies this`rcvNxt, this`bytesHeld, this`readyBytes, this`recentSack, this`recentSackValid, this`received,
               storage, occupancy
      ensures Valid()
      ensures accepted + duplicates == place.candidateBytes && accepted == |received| - |old(received)|
      ensures DataNxt() == old(DataNxt()) + advanced
      ensures place.windowOffset == 0 ==> advanced >= place.candidateBytes
      ensures Stored(old(received), received, data, at, lo, hi)
      ensures lo <= newest < hi
      ensures accepted > 0 ==> newest !in old(received)
      ensures place.windowOffset > 0 && newest > DataNxt() ==>
                recentSackValid && RunAround(recentSack, received, DataNxt(), newest)
    {
      hide Wrap, RingOk, FrontOk, PromiseOk, Stored, RunAround, Add32;
      var firstNew;
      accepted, duplicates, firstNew, advanced := 
        Absorb(data, place.leftTrimmed, place.windowOffset, place.candidateBytes, at, lo, hi);
      WrapAdd(initial + old(DataNxt()), advanced);
      rcvNxt := Add32(rcvNxt, advanced);
      var index := if firstNew < place.candidateBytes then firstNew else 0;
      newest := lo + index;
      if place.windowOffset > 0 {
        StoredHolds(old(received), received, data, at, lo, hi, newest);
        WrapAdd(initial + at, place.leftTrimmed + index);
        NoteArrival(Add32(sequence, place.leftTrimmed + index), newest);
      }
    }

    method OnSegment(sequence: Seq32, data: seq<byte>, psh: bool) returns (r: ReceiveResult, ghost newest: int)
      requires Valid() && !finReceived
      modifies this`rcvNxt, this`bytesHeld, this`readyBytes, this`delayedAckPending, this`recentSack,
               this`recentSackValid, this`received, storage, occupancy
      ensures Valid()
      ensures 1 <= |data| <= MAXIMUM_CAPACITY ==>
                r.acceptedBytes + r.duplicateBytes + r.leftTrimmed + r.rightTrimmed == |data|
      ensures r.acceptedBytes == |received| - |old(received)|
      ensures r.disposition.Accepted? <==> r.acceptedBytes > 0
      ensures DataNxt() >= old(DataNxt())
      ensures !(1 <= |data| <= MAXIMUM_CAPACITY) ==>
                r == ReceiveResult(Invalid, NoAck, 0, 0, 0, 0) && received == old(received)
      ensures 1 <= |data| <= MAXIMUM_CAPACITY ==>
                if old(IsSequenceAcceptable(sequence, |data|)) then
                  var at := old(DataNxt()) + SequenceOffset(sequence, old(rcvNxt)).value;
                  var lo, hi := Max(at, old(DataNxt())), Min(at + |data|, promised);
                  && Stored(old(received), received, data, at, lo, hi)
                  && r.leftTrimmed == lo - at && r.rightTrimmed == at + |data| - hi
                else
                  received == old(received) && r.acceptedBytes == r.duplicateBytes == 0 && r.ackDecision == Immediate
      ensures 1 <= |data| <= MAXIMUM_CAPACITY && old(IsSequenceAcceptable(sequence, |data|)) ==>
                var at := old(DataNxt()) + SequenceOffset(sequence, old(rcvNxt)).value;
                && Max(at, old(DataNxt())) <= newest < Min(at + |data|, promised)
                && (r.acceptedBytes > 0 ==> newest !in old(received))
                && (at > old(DataNxt()) && newest > DataNxt() ==>
                      recentSackValid && RunAround(recentSack, received, DataNxt(), newest))
      ensures r.ackDecision.Delayed? <==>
                && 1 <= |data| <= MAXIMUM_CAPACITY && old(IsSequenceAcceptable(sequence, |data|))
                && sequence == old(rcvNxt) && r.acceptedBytes == |data| == DataNxt() - old(DataNxt())
                && !blocked && !psh && !old(delayedAckPending)
      ensures r.ackDecision.Delayed? ==> delayedAckPending
      ensures r.ackDecision.Immediate? ==> !delayedAckPending
    {
      hide Wrap, RingOk, FrontOk, PromiseOk, Stored, RfcAcceptable, Place, DecideAck, SequenceOffset, Sub32, RunAround;
      if |data| == 0 || |data| > MAXIMUM_CAPACITY {
        return ReceiveResult(Invalid, NoAck, 0, 0, 0, 0), 0;
      }
      WindowIsPromise();
      var place := Place(sequence, |data|, rcvNxt, AcceptableWindow());
      if place.Unplaced? {
        delayedAckPending := false;
        return if place.disposition.Duplicate? then ReceiveResult(Duplicate, Immediate, 0, |data|, 0, 0)
               else ReceiveResult(OutOfWindow, Immediate, 0, 0, |data|, 0), 0;
      }
      OffsetIsCongruent(sequence, initial + DataNxt());
      OffsetZero(sequence, rcvNxt);
      var accepted, duplicates, advanced;
      ghost var at := DataNxt() + SequenceOffset(sequence, rcvNxt).value;
      ghost var lo, hi := Max(at, DataNxt()), Min(at + |data|, promised);
      accepted, duplicates, advanced, newest := StorePlaced(sequence, data, place, at, lo, hi);
      var ack := DecideAck(blocked, psh, delayedAckPending, place, accepted, duplicates, advanced);
      delayedAckPending := ack.Delayed?;
      r := ReceiveResult(if accepted == 0 then Duplicate else Accepted, ack, accepted, place.leftTrimmed,
                         place.rightTrimmed, duplicates);
    }

    /** Every byte of the remembered block is held now, beyond rcv_nxt. */
    ghost predicate StillHeld()
      reads this
    {
      recentSackValid &&
      var width, offset := Sub32(recentSack.rightEdge, recentSack.leftEdge), Sub32(recentSack.leftEdge, rcvNxt);
      width > 0 && offset < HALF && AllHeld(received, DataNxt() + offset, DataNxt() + offset + width)
    }

    /** Is the remembered block still held? It may be arbitrarily stale. */
    method RecentStillHeld() returns (complete: bool, ghost run: (int, int))
      requires Valid() && !finReceived
      ensures complete <==> StillHeld()
      ensures complete ==> recentSack == WireBlock(run.0, run.1) && HeldRun(received, DataNxt(), run.0, run.1)
    {
      hide Wrap, RingOk;
      run := (0, 0);
      complete := false;
      if !recentSackValid {
        return;
      }
      var width, offset := Sub32(recentSack.rightEdge, recentSack.leftEdge), Sub32(recentSack.leftEdge, rcvNxt);
      if offset >= HALF || width == 0 {
        return;
      }
      var begin := readyBytes + offset;
      var i := 0;
      while i < width
        invariant i <= width && (i > 0 ==> begin + i <= capacity)
        invariant forall p :: |delivered| + begin <= p < |delivered| + begin + i ==> p in received
      {
        if begin + i >= capacity {
          HeldFits();
          assert |delivered| + begin + i !in received;
          return;
        }
        SlotMeaning(begin + i);
        if !occupancy[PhysicalIndex(begin + i)] {
          return;
        }
        i := i + 1;
      }
      complete := true;
      run := (|delivered| + begin, |delivered| + begin + width);
      WrapAdd(initial + DataNxt(), offset);
      WrapAdd(initial + DataNxt() + offset, width);
      assert run.0 in received && DataNxt() !in received;
    }

    /** What an occupied slot says about the history map. */
    lemma SlotMeaning(logicalOffset: nat)
      requires RingValid() && logicalOffset < capacity
      ensures occupancy[PhysicalIndex(logicalOffset)] <==> |delivered| + logicalOffset in received
    {
      var j := PhysicalIndex(logicalOffset);
      assert occupancy[..][j] == occupancy[j];
    }

    /** The next maximal run at or after `from`, if any byte is left there. */
    method NextRun(from: nat) returns (begin: nat, end: nat)
      requires Content() && readyBytes <= from <= capacity && |delivered| + from !in received
      requires Beyond(received, |delivered| + from) != {}
      ensures from < begin < end <= capacity
      ensures MaximalRun(received, DataNxt(), |delivered| + begin, |delivered| + end)
      ensures forall p :: |delivered| + from <= p < |delivered| + begin ==> p !in received
    {
      hide RingOk, PromiseOk;
      HeldFits();
      begin := from;
      ghost var held :| held in Beyond(received, |delivered| + from);
      while begin < capacity && !occupancy[PhysicalIndex(begin)]
        invariant from <= begin <= capacity && |delivered| + begin <= held
        invariant forall p :: |delivered| + from <= p < |delivered| + begin ==> p !in received
      {
        SlotMeaning(begin);
        begin := begin + 1;
      }
      SlotMeaning(begin);
      end := begin + 1;
      while end < capacity && occupancy[PhysicalIndex(end)]
        invariant begin < end <= capacity
        invariant forall p :: |delivered| + begin <= p < |delivered| + end ==> p in received
      {
        SlotMeaning(end);
        end := end + 1;
      }
      if end < capacity {
        SlotMeaning(end);
      }
    }

    lemma HeldFits()
      requires RingValid()
      ensures forall p :: p in received ==> 0 <= p < |delivered| + capacity
    {
    }

    /** `blocks` are the wire forms of `runs`. */
    ghost predicate WireOf(blocks: seq<SackBlock>, runs: seq<(int, int)>)
    {
      |blocks| == |runs| && forall i :: 0 <= i < |blocks| ==> blocks[i] == WireBlock(runs[i].0, runs[i].1)
    }

    /** One round of the scan: the next run is listed unless it repeats the first block. */
    method ListRun(blocks: seq<SackBlock>, begin: nat, end: nat, ghost runs: seq<(int, int)>, ghost skip: nat, ghost upTo: int)
      returns (more: seq<SackBlock>, ghost listed: seq<(int, int)>)
      requires Valid() && !finReceived && WireOf(blocks, runs) && RunList(received, DataNxt(), runs, skip, upTo)
      requires readyBytes <= begin <= end <= capacity
      requires MaximalRun(received, DataNxt(), |delivered| + begin, |delivered| + end)
      requires upTo <= |delivered| + begin && forall p :: upTo <= p < |delivered| + begin ==> p !in received
      ensures WireOf(more, listed) && blocks <= more && |more| <= |blocks| + 1
      ensures RunList(received, DataNxt(), listed, skip, |delivered| + end)
    {
      hide Wrap, RingOk, PromiseOk, RunList;
      var block := BlockAt(begin, end);
      ghost var run := (|delivered| + begin, |delivered| + end);
      if |blocks| != 0 && block == blocks[0] {
        HeldFits();
        RunListHeld(received, DataNxt(), runs, skip, upTo);
        SameWire(initial + run.0, initial + runs[0].0);
        SameWire(initial + run.1, initial + runs[0].1);
        more, listed := blocks, runs;
        RunListRepeat(received, DataNxt(), runs, skip, upTo, run.0, run.1);
      } else {
        more, listed := blocks + [block], runs + [run];
        RunListAppend(received, DataNxt(), runs, skip, upTo, run.0, run.1);
      }
    }

    /** The SACK option. Every block lies strictly beyond rcv_nxt and covers only bytes held
        now, however stale the remembered block is; the scanned blocks are the maximal runs in
        ascending order; and unless the limit was reached, every held byte is covered. */
    method SackBlocks(maxBlocks: nat)
      returns (blocks: seq<SackBlock>, ghost runs: seq<(int, int)>, ghost skip: nat, ghost upTo: int)
      requires Valid() && !finReceived
      ensures |blocks| <= Min(maxBlocks, 4)
      ensures WireOf(blocks, runs) && RunList(received, DataNxt(), runs, skip, upTo)
      ensures maxBlocks > 0 ==> (skip == 1 <==> StillHeld())
      ensures skip == 1 ==> |blocks| > 0 && blocks[0] == recentSack
      ensures |blocks| < Min(maxBlocks, 4) ==> Beyond(received, upTo) == {}
    {
      hide Wrap, RingOk, PromiseOk, RunList, WireBlock, FrontOk, WireOf, Beyond, Numbers, StillHeld;
      blocks, runs, skip, upTo := [], [], 0, DataNxt();
      RunListStart(received, DataNxt(), (0, 0));
      WireStart((0, 0));
      var limit := Min(maxBlocks, 4);
      if limit == 0 {
        return;
      }
      var complete, run := RecentStillHeld();
      if complete {
        RunListStart(received, DataNxt(), run);
        WireStart(run);
        blocks, runs, skip := [recentSack], [run], 1;
      }
      HeldCount();
      var remaining := bytesHeld - readyBytes;
      var logical := readyBytes;
      while logical < capacity && |blocks| < limit && remaining != 0
        invariant readyBytes <= logical <= capacity && upTo == |delivered| + logical && upTo !in received
        invariant remaining == |Beyond(received, upTo)|
        invariant WireOf(blocks, runs) && RunList(received, DataNxt(), runs, skip, upTo)
        invariant |blocks| <= limit && (skip == 1 ==> |blocks| > 0 && blocks[0] == recentSack)
        decreases capacity - logical
      {
        var begin, end := NextRun(logical);
        BeyondRun(received, upTo, |delivered| + begin, |delivered| + end);
        blocks, runs := ListRun(blocks, begin, end, runs, skip, upTo);
        remaining := remaining - (end - begin);
        logical := end;
        upTo := |delivered| + end;
      }
    }

    lemma WireStart(run: (int, int))
      ensures WireOf([], []) && WireOf([WireBlock(run.0, run.1)], [run])
    {
    }

    /** bytes_held_ is the number of occupied slots; the rest of it lies out of order. */
    lemma HeldCount()
      requires Content()
      ensures |Beyond(received, |delivered|)| == bytesHeld
      ensures |Beyond(received, DataNxt())| == bytesHeld - readyBytes
      ensures Beyond(received, |delivered| + capacity) == {}
      ensures DataNxt() !in received
    {
      BeyondPrefix(received, |delivered|);
      BeyondPrefix(received, DataNxt());
    }

    /** The test on absolute positions: sequence numbers less than half the space away from
        rcv_nxt are accepted exactly when their segment begins or ends in the window. */
    lemma AcceptabilityLaw(p: int, length: nat)
      requires Valid() && !finReceived
      requires length <= MAXIMUM_CAPACITY && -HALF < p - DataNxt() < HALF
      ensures IsSequenceAcceptable(Wrap(initial + p), length) <==>
                if length == 0 then p == DataNxt() || DataNxt() <= p < promised
                else DataNxt() <= p < promised || DataNxt() <= p + length - 1 < promised
    {
      hide Wrap, RingOk, FrontOk;
      WindowIsPromise();
      OffsetLaw(initial + p, initial + DataNxt());
    }

    /** A byte at position p would be taken in. */
    ghost predicate Takes(p: int)
      reads this
      requires readyBytes <= capacity <= MAXIMUM_CAPACITY
    {
      IsSequenceAcceptable(Wrap(initial + p), 1)
    }

    /** Every position below the recorded edge and not yet received is acceptable, however long ago
        the window was recorded. */
    lemma PromiseKept(p: int)
      requires Valid() && !finReceived && DataNxt() <= p < promised
      ensures Takes(p)
    {
      AcceptabilityLaw(p, 1);
    }

    /** A window that goes out without being recorded, as on data segments, is honoured in full
        exactly if the recorded edge already covers it. */
    lemma OfferKept(window: nat)
      requires Valid() && !finReceived && window <= capacity
      ensures (forall p :: DataNxt() <= p < DataNxt() + window ==> Takes(p)) <==> DataNxt() + window <= promised
    {
      hide Wrap, RingOk, FrontOk, IsSequenceAcceptable;
      if DataNxt() + window <= promised {
        forall p | DataNxt() <= p < DataNxt() + window
          ensures Takes(p)
        {
          PromiseKept(p);
        }
      } else {
        AcceptabilityLaw(promised, 1);
        assert !Takes(promised);
      }
    }

    method ConsumeFin()
      requires Valid() && !finReceived
      modifies this`rcvNxt, this`finReceived
      ensures Valid() && finReceived && Nxt() == old(Nxt()) + 1
    {
      hide Wrap, RingOk, FrontOk;
      WrapAdd(initial + DataNxt(), 1);
      rcvNxt := Add32(rcvNxt, 1);
      finReceived := true;
    }

    /** The contiguous chunk offered to the session: real ring bytes, in stream order. */
    function ReadyView(): (view: seq<byte>)
      reads this, storage, occupancy
      requires Content()
      ensures |view| == Min(readyBytes, capacity - firstIndex)
      ensures Reads(received, |delivered|, view)
    {
      var view := storage[firstIndex .. firstIndex + Min(readyBytes, capacity - firstIndex)];
      assert Reads(received, |delivered|, view) by {
        forall p | |delivered| <= p < |delivered| + |view|
          ensures p in received && received[p] == view[p - |delivered|]
        {
          var j := firstIndex + p - |delivered|;
          assert storage[..][j] == view[p - |delivered|] && occupancy[..][j];
        }
      }
      view
    }
  }

  /** The recorded edge starts at the window of the SYN-ACK. With more room than that, the window
      computed for a data segment covers a position that would be refused. */
  method UnrecordedOffer(capacity: nat, initialSequence: Seq32, window: nat) returns (b: TcpReceiveBuffer)
    requires 1 <= window < capacity <= MAXIMUM_CAPACITY
    ensures fresh(b) && b.Valid() && b.AdvertisedWindow() == capacity && b.DataNxt() == 0
    ensures window < b.DataNxt() + b.AdvertisedWindow() && !b.Takes(window)
  {
    hide Wrap, RingOk, FrontOk;
    b := new TcpReceiveBuffer(capacity, initialSequence, window);
    b.AcceptabilityLaw(window, 1);
  }
}
