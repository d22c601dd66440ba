/** A shard lane: one producer, one consumer, a bounded ring and a byte budget, as atomic steps.

    Positions are counted without bound; a slot is a position modulo the capacity. */
module Lanes {
  import opened Prelude

  datatype Envelope = Envelope(id: int, size: nat)

  datatype Producer =
    | Ready
    | Reserve(env: Envelope, used: int)
    | LookTail(env: Envelope, used: int)
    | Store(env: Envelope, used: int)
    | Publish(env: Envelope, used: int)
    | Undo(env: Envelope)
    | Raise(after: int, seen: int)

  datatype Consumer = Waiting | TakeOut | Advance(env: Envelope) | Release(env: Envelope)

  /** `sent`, `received`, `offered`, `returned` and `overwrote` are history. */
  datatype Lane = Lane(
    capacity: nat, byteCapacity: nat, slots: seq<Option<Envelope>>, head: nat, tail: nat, bytes: int, high: int,
    producer: Producer, consumer: Consumer,
    sent: seq<Envelope>, received: seq<Envelope>, offered: multiset<Envelope>, returned: multiset<Envelope>, overwrote: bool)

  datatype Action = StartPush(env: Envelope) | StepPush(spurious: bool) | StartPop | StepPop

  // ---------------------------------------------------------------------------------
  // Slots.
  // ---------------------------------------------------------------------------------

  function Slot(p: int, capacity: nat): (r: int)
    requires capacity > 0
    ensures 0 <= r < capacity
  {
    p % capacity
  }

  lemma SlotPeriod(p: int, capacity: nat)
    requires capacity > 0
    ensures Slot(p + capacity, capacity) == Slot(p, capacity)
  {
    var q, r := p / capacity, p % capacity;
    assert p + capacity == capacity * (q + 1) + r;
    SlotUnique(p + capacity, q + 1, r, capacity);
  }

  lemma Multiple(c: int, d: int)
    requires c > 0
    ensures d >= 1 ==> c * d >= c
    ensures d <= -1 ==> c * d <= -c
    ensures d == 0 ==> c * d == 0
  {
  }

  lemma SlotUnique(x: int, q: int, r: int, capacity: nat)
    requires capacity > 0 && x == capacity * q + r && 0 <= r < capacity
    ensures x % capacity == r
  {
    var d := x / capacity - q;
    assert capacity * d == r - x % capacity;
    Multiple(capacity, d);
  }

  lemma SlotsDiffer(a: int, b: int, capacity: nat)
    requires capacity > 0 && a < b < a + capacity
    ensures Slot(a, capacity) != Slot(b, capacity)
  {
    var d := b / capacity - a / capacity;
    assert b - a == capacity * d + (b % capacity - a % capacity);
    Multiple(capacity, d);
  }

  // ---------------------------------------------------------------------------------
  // Steps.
  // ---------------------------------------------------------------------------------

  predicate Enabled(s: Lane, a: Action)
  {
    s.capacity > 0 && |s.slots| == s.capacity &&
    match a
    case StartPush(_) => s.producer.Ready?
    case StepPush(_) => !s.producer.Ready?
    case StartPop => s.consumer.Waiting?
    case StepPop => !s.consumer.Waiting? && (s.consumer.TakeOut? ==> s.slots[Slot(s.tail, s.capacity)].Some?)
  }

  /** The caller keeps the envelope. */
  function Refuse(s: Lane, env: Envelope): (r: Lane)
  {
    s.(producer := Ready, returned := s.returned + multiset{env})
  }

  function PushStep(s: Lane, spurious: bool): (r: Lane)
    requires Enabled(s, StepPush(spurious))
  {
    match s.producer
    case Reserve(env, used) =>
      if used > s.byteCapacity - env.size then Refuse(s, env)
      else if s.bytes == used && !spurious then s.(bytes := used + env.size, producer := LookTail(env, used))
      else s.(producer := Reserve(env, s.bytes))
    case LookTail(env, used) =>
      if s.head - s.tail > s.capacity - 1 then s.(producer := Undo(env)) else s.(producer := Store(env, used))
    case Store(env, used) =>
      var i := Slot(s.head, s.capacity);
      s.(slots := s.slots[i := Some(env)], overwrote := s.overwrote || s.slots[i].Some?, producer := Publish(env, used))
    case Publish(env, used) =>
      s.(head := s.head + 1, sent := s.sent + [env], producer := Raise(used + env.size, s.high))
    case Undo(env) => Refuse(s.(bytes := s.bytes - env.size), env)
    case Raise(after, seen) =>
      if after <= seen then s.(producer := Ready)
      else if s.high == seen && !spurious then s.(high := after, producer := Ready)
      else s.(producer := Raise(after, s.high))
  }

  function PopStep(s: Lane): (r: Lane)
    requires Enabled(s, StepPop)
  {
    match s.consumer
    case TakeOut =>
      var i := Slot(s.tail, s.capacity);
      s.(slots := s.slots[i := None], received := s.received + [s.slots[i].value], consumer := Advance(s.slots[i].value))
    case Advance(env) => s.(tail := s.tail + 1, consumer := Release(env))
    case Release(env) => s.(bytes := s.bytes - env.size, consumer := Waiting)
  }

  function Step(s: Lane, a: Action): (r: Lane)
    requires Enabled(s, a)
  {
    match a
    case StartPush(env) =>
      var t := s.(offered := s.offered + multiset{env});
      if env.size > s.byteCapacity then Refuse(t, env) else t.(producer := Reserve(env, s.bytes))
    case StepPush(spurious) => PushStep(s, spurious)
    case StartPop => if s.tail == s.head then s else s.(consumer := TakeOut)
    case StepPop => PopStep(s)
  }

  // ---------------------------------------------------------------------------------
  // The invariant.
  // ---------------------------------------------------------------------------------

  function Total(envs: seq<Envelope>): (r: nat)
  {
    if envs == [] then 0 else envs[0].size + Total(envs[1..])
  }

  lemma {:induction false} TotalAppend(envs: seq<Envelope>, e: Envelope)
    ensures Total(envs + [e]) == Total(envs) + e.size
  {
    if envs == [] {
      assert envs + [e] == [e];
    } else {
      assert (envs + [e])[1..] == envs[1..] + [e];
      TotalAppend(envs[1..], e);
    }
  }

  /** Bytes a push has reserved but not yet put in the ring. */
  function Reserved(p: Producer): (r: int)
  {
    match p
    case LookTail(env, _) => env.size
    case Store(env, _) => env.size
    case Publish(env, _) => env.size
    case Undo(env) => env.size
    case _ => 0
  }

  /** Bytes of an envelope that has left the ring but is not yet released. */
  function Held(c: Consumer): (r: int)
  {
    match c
    case Advance(env) => env.size
    case Release(env) => env.size
    case _ => 0
  }

  function Carried(p: Producer): (r: multiset<Envelope>)
  {
    match p
    case Reserve(env, _) => multiset{env}
    case LookTail(env, _) => multiset{env}
    case Store(env, _) => multiset{env}
    case Publish(env, _) => multiset{env}
    case Undo(env) => multiset{env}
    case _ => multiset{}
  }

  /** Unread positions hold what was sent there, the next one holds a stored but unpublished
      envelope, and the rest of the ring is empty. */
  ghost predicate RingOk(capacity: nat, slots: seq<Option<Envelope>>, head: int, first: int, sent: seq<Envelope>, stored: Option<Envelope>)
  {
    && 0 < capacity == |slots| && |sent| == head && 0 <= first <= head <= first + capacity
    && (stored.Some? ==> head < first + capacity)
    && (forall p :: first <= p < head ==> slots[Slot(p, capacity)] == Some(sent[p]))
    && (forall p :: head <= p < first + capacity ==>
          slots[Slot(p, capacity)] == if p == head && stored.Some? then stored else None)
  }

  function Stored(p: Producer): (r: Option<Envelope>)
  {
    if p.Publish? then Some(p.env) else None
  }

  /** Positions before this one have been taken. */
  function First(s: Lane): (r: int)
  {
    s.tail + if s.consumer.Advance? then 1 else 0
  }

  ghost predicate BytesOk(s: Lane)
  {
    |s.received| <= |s.sent| && s.bytes == Total(s.sent[|s.received|..]) + Reserved(s.producer) + Held(s.consumer) <= s.byteCapacity
  }

  ghost predicate ProducerOk(s: Lane)
  {
    match s.producer
    case Store(_, _) => s.head - s.tail < s.capacity
    case Publish(_, _) => s.head - s.tail < s.capacity
    case Reserve(env, used) => env.size <= s.byteCapacity
    case _ => true
  }

  ghost predicate HighOk(s: Lane)
  {
    0 <= s.high <= s.byteCapacity &&
    match s.producer
    case LookTail(env, used) => used + env.size <= s.byteCapacity
    case Store(env, used) => used + env.size <= s.byteCapacity
    case Publish(env, used) => used + env.size <= s.byteCapacity
    case Raise(after, seen) => after <= s.byteCapacity && 0 <= seen <= s.high
    case _ => true
  }

  ghost predicate OfferedOk(offered: multiset<Envelope>, sent: seq<Envelope>, returned: multiset<Envelope>, carried: multiset<Envelope>)
  {
    offered == multiset(sent) + returned + carried
  }

  /** What has been taken out is the front of what was put in. */
  ghost predicate OrderOk(s: Lane)
  {
    && First(s) == |s.received| <= |s.sent| && s.received == s.sent[..|s.received|]
    && (s.consumer.TakeOut? ==> s.tail < s.head)
  }

  ghost predicate Inv(s: Lane)
  {
    && RingOk(s.capacity, s.slots, s.head, First(s), s.sent, Stored(s.producer)) && OrderOk(s)
    && BytesOk(s) && ProducerOk(s) && HighOk(s) && !s.overwrote
    && OfferedOk(s.offered, s.sent, s.returned, Carried(s.producer))
  }

  // ---------------------------------------------------------------------------------
  // Every step preserves it.
  // ---------------------------------------------------------------------------------

  lemma RingStores(capacity: nat, slots: seq<Option<Envelope>>, head: int, first: int, sent: seq<Envelope>, env: Envelope)
    requires RingOk(capacity, slots, head, first, sent, None) && head < first + capacity
    ensures slots[Slot(head, capacity)] == None
    ensures RingOk(capacity, slots[Slot(head, capacity) := Some(env)], head, first, sent, Some(env))
  {
    hide Slot;
    var after := slots[Slot(head, capacity) := Some(env)];
    forall p | first <= p < first + capacity && p != head
      ensures after[Slot(p, capacity)] == slots[Slot(p, capacity)]
    {
      if p < head { SlotsDiffer(p, head, capacity); } else { SlotsDiffer(head, p, capacity); }
    }
  }

  lemma RingPublishes(capacity: nat, slots: seq<Option<Envelope>>, head: int, first: int, sent: seq<Envelope>, env: Envelope)
    requires RingOk(capacity, slots, head, first, sent, Some(env))
    ensures RingOk(capacity, slots, head + 1, first, sent + [env], None)
  {
    hide Slot;
  }

  lemma RingTakes(capacity: nat, slots: seq<Option<Envelope>>, head: int, first: int, sent: seq<Envelope>, stored: Option<Envelope>)
    requires RingOk(capacity, slots, head, first, sent, stored) && first < head
    ensures slots[Slot(first, capacity)] == Some(sent[first])
    ensures RingOk(capacity, slots[Slot(first, capacity) := None], head, first + 1, sent, stored)
  {
    hide Slot;
    var after := slots[Slot(first, capacity) := None];
    forall p | first < p < first + capacity
      ensures after[Slot(p, capacity)] == slots[Slot(p, capacity)]
    {
      SlotsDiffer(first, p, capacity);
    }
    SlotPeriod(first, capacity);
    assert after[Slot(first + capacity, capacity)] == None;
  }

  lemma Sends(offered: multiset<Envelope>, sent: seq<Envelope>, returned: multiset<Envelope>, env: Envelope)
    requires OfferedOk(offered, sent, returned, multiset{env})
    ensures OfferedOk(offered, sent + [env], returned, multiset{})
    ensures OfferedOk(offered, sent, returned + multiset{env}, multiset{})
  {
    assert multiset(sent + [env]) == multiset(sent) + multiset{env};
  }

  lemma Offers(offered: multiset<Envelope>, sent: seq<Envelope>, returned: multiset<Envelope>, env: Envelope)
    requires OfferedOk(offered, sent, returned, multiset{})
    ensures OfferedOk(offered + multiset{env}, sent, returned, multiset{env})
  {
  }

  lemma RingFacts(s: Lane)
    requires RingOk(s.capacity, s.slots, s.head, First(s), s.sent, Stored(s.producer))
    ensures |s.sent| == s.head && 0 <= First(s) <= s.head
  {
  }

  lemma StoreKeeps(s: Lane, env: Envelope, used: int)
    requires Inv(s) && s.producer == Store(env, used) && Enabled(s, StepPush(false))
    ensures Inv(PushStep(s, false))
  {
    hide Slot, RingOk, Total, OfferedOk;
    RingFacts(s);
    RingStores(s.capacity, s.slots, s.head, First(s), s.sent, env);
  }

  lemma PublishBooks(s: Lane, env: Envelope, used: int)
    requires Inv(s) && s.producer == Publish(env, used) && Enabled(s, StepPush(false))
    ensures BytesOk(PushStep(s, false)) && OrderOk(PushStep(s, false))
  {
    hide Slot, RingOk, Total, OfferedOk, ProducerOk, HighOk;
    SentGrows(s.sent, |s.received|, env);
  }

  lemma PublishKeeps(s: Lane, env: Envelope, used: int)
    requires Inv(s) && s.producer == Publish(env, used) && Enabled(s, StepPush(false))
    ensures Inv(PushStep(s, false))
  {
    PublishBooks(s, env, used);
    hide Slot, RingOk, Total, OfferedOk, BytesOk, OrderOk;
    RingFacts(s);
    RingPublishes(s.capacity, s.slots, s.head, First(s), s.sent, env);
    Sends(s.offered, s.sent, s.returned, env);
  }

  lemma SentGrows(sent: seq<Envelope>, n: nat, env: Envelope)
    requires n <= |sent|
    ensures (sent + [env])[..n] == sent[..n] && Total((sent + [env])[n..]) == Total(sent[n..]) + env.size
  {
    assert (sent + [env])[n..] == sent[n..] + [env];
    TotalAppend(sent[n..], env);
  }

  /** Only the producer, the byte counter, the high mark and the returned envelopes move. */
  lemma QuietKeeps(s: Lane, d: Lane)
    requires Inv(s) && Stored(d.producer) == Stored(s.producer)
    requires d == s.(producer := d.producer, bytes := d.bytes, high := d.high, returned := d.returned)
    requires d.bytes - Reserved(d.producer) == s.bytes - Reserved(s.producer) && d.bytes <= s.byteCapacity
    requires ProducerOk(d) && HighOk(d) && OfferedOk(d.offered, d.sent, d.returned, Carried(d.producer))
    ensures Inv(d)
  {
    hide Slot, RingOk, Total, OfferedOk, ProducerOk, HighOk;
  }

  lemma ReserveKeeps(s: Lane, spurious: bool)
    requires Inv(s) && s.producer.Reserve? && Enabled(s, StepPush(spurious))
    ensures Inv(PushStep(s, spurious))
  {
    hide Slot, RingOk, OfferedOk, OrderOk, Total;
    BytesNeverNegative(s);
    Sends(s.offered, s.sent, s.returned, s.producer.env);
    hide BytesOk;
    QuietKeeps(s, PushStep(s, spurious));
  }

  lemma LookKeeps(s: Lane)
    requires Inv(s) && s.producer.LookTail? && Enabled(s, StepPush(false))
    ensures Inv(PushStep(s, false))
  {
    hide Slot, RingOk, OfferedOk, OrderOk, Total;
    BytesNeverNegative(s);
    hide BytesOk;
    QuietKeeps(s, PushStep(s, false));
  }

  lemma UndoKeeps(s: Lane)
    requires Inv(s) && s.producer.Undo? && Enabled(s, StepPush(false))
    ensures Inv(PushStep(s, false))
  {
    hide Slot, RingOk, OfferedOk, OrderOk, Total;
    BytesNeverNegative(s);
    Sends(s.offered, s.sent, s.returned, s.producer.env);
    hide BytesOk;
    QuietKeeps(s, PushStep(s, false));
  }

  lemma RaiseKeeps(s: Lane, spurious: bool)
    requires Inv(s) && s.producer.Raise? && Enabled(s, StepPush(spurious))
    ensures Inv(PushStep(s, spurious))
  {
    hide Slot, RingOk, OfferedOk, OrderOk, Total;
    BytesNeverNegative(s);
    hide BytesOk;
    QuietKeeps(s, PushStep(s, spurious));
  }

  lemma BytesNeverNegative(s: Lane)
    requires Inv(s)
    ensures Reserved(s.producer) <= s.bytes <= s.byteCapacity
  {
  }

  lemma PushKeeps(s: Lane, spurious: bool)
    requires Inv(s) && Enabled(s, StepPush(spurious))
    ensures Inv(PushStep(s, spurious))
  {
    match s.producer
    case Reserve(_, _) => ReserveKeeps(s, spurious);
    case LookTail(_, _) => LookKeeps(s);
    case Store(env, used) => StoreKeeps(s, env, used);
    case Publish(env, used) => PublishKeeps(s, env, used);
    case Undo(_) => UndoKeeps(s);
    case Raise(_, _) => RaiseKeeps(s, spurious);
  }

  lemma PopKeeps(s: Lane)
    requires Inv(s) && Enabled(s, StepPop)
    ensures Inv(PopStep(s))
  {
    hide Slot, RingOk, Carried, OfferedOk;
    RingFacts(s);
    if s.consumer.TakeOut? {
      RingTakes(s.capacity, s.slots, s.head, s.tail, s.sent, Stored(s.producer));
      var n := |s.received|;
      assert s.sent[n..] == [s.sent[n]] + s.sent[n + 1..];
      assert s.sent[..n + 1] == s.sent[..n] + [s.sent[n]];
    }
  }

  lemma StartPushKeeps(s: Lane, env: Envelope)
    requires Inv(s) && s.producer.Ready? && Enabled(s, StartPush(env))
    ensures Inv(Step(s, StartPush(env)))
  {
    hide Slot, RingOk, Total, OfferedOk, OrderOk;
    Offers(s.offered, s.sent, s.returned, env);
    Sends(s.offered + multiset{env}, s.sent, s.returned, env);
    OrderSame(s, Step(s, StartPush(env)));
  }

  lemma OrderSame(s: Lane, d: Lane)
    requires OrderOk(s) && d.sent == s.sent && d.received == s.received && d.tail == s.tail && d.head == s.head && d.consumer == s.consumer
    ensures OrderOk(d)
  {
  }

  lemma StartPopKeeps(s: Lane)
    requires Inv(s) && Enabled(s, StartPop)
    ensures Inv(Step(s, StartPop))
  {
    hide Slot, RingOk, Total, OfferedOk;
    RingFacts(s);
  }

  /** Safety of one step. */
  lemma StepKeeps(s: Lane, a: Action)
    requires Inv(s) && Enabled(s, a)
    ensures Inv(Step(s, a))
  {
    hide Inv;
    match a
    case StartPush(env) => StartPushKeeps(s, env);
    case StepPush(spurious) => PushKeeps(s, spurious);
    case StartPop => StartPopKeeps(s);
    case StepPop => PopKeeps(s);
  }

  // ---------------------------------------------------------------------------------
  // Runs.
  // ---------------------------------------------------------------------------------

  function Initial(capacity: nat, byteCapacity: nat): (s: Lane)
  {
    Lane(capacity, byteCapacity, seq(capacity, _ => None), 0, 0, 0, 0, Ready, Waiting, [], [], multiset{}, multiset{}, false)
  }

  lemma InitialOk(capacity: nat, byteCapacity: nat)
    requires capacity > 0
    ensures Inv(Initial(capacity, byteCapacity))
  {
    hide Slot;
  }

  ghost predicate Legal(s: Lane, trace: seq<Action>)
    decreases |trace|
  {
    trace == [] || (Enabled(s, trace[0]) && Legal(Step(s, trace[0]), trace[1..]))
  }

  ghost function Final(s: Lane, trace: seq<Action>): (r: Lane)
    requires Legal(s, trace)
    decreases |trace|
  {
    if trace == [] then s else Final(Step(s, trace[0]), trace[1..])
  }

  /** In every interleaving of the producer and the consumer. */
  lemma {:induction false} RunSafe(s: Lane, trace: seq<Action>)
    requires Inv(s) && Legal(s, trace)
    ensures Inv(Final(s, trace))
    decreases |trace|
  {
    hide Inv, Step;
    if trace != [] {
      StepKeeps(s, trace[0]);
      RunSafe(Step(s, trace[0]), trace[1..]);
    }
  }

  /** What that means, at every point of every interleaving: first in, first out, nothing lost, doubled
      or overwritten; the byte counter is exact, counting what either side has in hand, and bounded; a
      refused push leaves its envelope with the caller; and neither side is ever stuck. */
  lemma LaneLaw(capacity: nat, byteCapacity: nat, trace: seq<Action>)
    requires capacity > 0 && Legal(Initial(capacity, byteCapacity), trace)
    ensures var s := Final(Initial(capacity, byteCapacity), trace);
            && s.received <= s.sent && !s.overwrote && |s.sent| - |s.received| <= s.capacity
            && 0 <= s.bytes == Total(s.sent[|s.received|..]) + Reserved(s.producer) + Held(s.consumer) <= s.byteCapacity
            && s.offered == multiset(s.sent) + s.returned + Carried(s.producer)
            && s.head == |s.sent| && s.tail + (if s.consumer.Advance? then 1 else 0) == |s.received|
            && (s.consumer.Waiting? || Enabled(s, StepPop)) && (s.producer.Ready? || Enabled(s, StepPush(false)))
  {
    InitialOk(capacity, byteCapacity);
    hide Slot, Inv, Legal, Final, Step, Initial, Enabled;
    RunSafe(Initial(capacity, byteCapacity), trace);
    LaneFacts(Final(Initial(capacity, byteCapacity), trace));
  }

  lemma LaneFacts(s: Lane)
    requires Inv(s)
    ensures s.received <= s.sent && !s.overwrote && |s.sent| - |s.received| <= s.capacity
    ensures 0 <= s.bytes == Total(s.sent[|s.received|..]) + Reserved(s.producer) + Held(s.consumer) <= s.byteCapacity
    ensures s.offered == multiset(s.sent) + s.returned + Carried(s.producer)
    ensures s.head == |s.sent| && s.tail + (if s.consumer.Advance? then 1 else 0) == |s.received|
    ensures (s.consumer.Waiting? || Enabled(s, StepPop)) && (s.producer.Ready? || Enabled(s, StepPush(false)))
  {
    hide Slot;
    if s.consumer.TakeOut? {
      RingTakes(s.capacity, s.slots, s.head, s.tail, s.sent, Stored(s.producer));
    }
  }

  // ---------------------------------------------------------------------------------
  // Machine words.
  // ---------------------------------------------------------------------------------

  /** One less than a power of two. */
  predicate IsMask(m: bv64)
  {
    m & (m + 1) == 0
  }

  /** The smear that fills every bit below the highest one set. */
  function Smear(a: bv64): (r: bv64)
  {
    var b := a | (a >> 1);
    var c := b | (b >> 2);
    var d := c | (c >> 4);
    var e := d | (d >> 8);
    var f := e | (e >> 16);
    f | (f >> 32)
  }

  function NextPow2Mask(capacity: bv64): (r: bv64)
  {
    if capacity == 0 then 0 else Smear(capacity - 1)
  }

  lemma SmearIsMask(a: bv64)
    ensures IsMask(Smear(a)) && Smear(a) >= a
  {
  }

  lemma SmearIsLeast(a: bv64, m: bv64)
    requires IsMask(m) && m >= a
    ensures Smear(a) <= m
  {
  }

  /** The result is a mask with room for the capacity. */
  lemma NextPow2MaskFits(capacity: bv64)
    requires capacity != 0
    ensures IsMask(NextPow2Mask(capacity)) && NextPow2Mask(capacity) >= capacity - 1
  {
    SmearIsMask(capacity - 1);
  }

  /** No smaller mask has room. */
  lemma NextPow2MaskIsLeast(capacity: bv64, m: bv64)
    requires capacity != 0 && IsMask(m) && m >= capacity - 1
    ensures NextPow2Mask(capacity) <= m
  {
    SmearIsLeast(capacity - 1, m);
  }

  /** Masking a wrapping 64-bit counter has the two properties the ring needs of a slot: it repeats
      after the capacity, and not before. */
  lemma MaskedSlots(x: bv64, y: bv64, m: bv64)
    requires IsMask(m)
    ensures (x + m + 1) & m == x & m
    ensures y - x != 0 && y - x <= m ==> x & m != y & m
  {
  }
}
