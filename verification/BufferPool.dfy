/** The packet-buffer pool as a state machine over its atomic steps, for any number of
    threads and every interleaving under sequential consistency.

    The free list is a stack threaded through free_next_, its head packed with a 32-bit tag
    that every successful compare-and-swap advances. `tag` here counts without bound; a
    compare-and-swap sees it modulo 2^32. */
module BufferPool {
  import opened Prelude

  const TAG_SPACE: int := 0x1_0000_0000

  datatype Head = Head(tag: int, idx: int)

  datatype SlotState = Free | Leased | Retained | Queued

  /** What a push does once the slot is on the stack. */
  datatype PushFor = Return | Release | DrainThenAllocate | DrainOnly

  /** Where a thread stands. `second` marks the retry of Allocate under the lock. */
  datatype Pc =
    | Idle
    | PopLoad(second: bool)
    | PopNext(second: bool, head: Head)
    | PopCas(second: bool, head: Head, next: int)
    | PopCount(second: bool, idx: int)
    | Mark(idx: int)
    | AllocLock
    | Drain(goal: PushFor)
    | PushLoad(goal: PushFor, idx: int)
    | PushLink(goal: PushFor, idx: int, head: Head)
    | PushCas(goal: PushFor, idx: int, head: Head)
    | PushCount(goal: PushFor)

  /** The one place a slot is in. */
  datatype Place = OnStack | InLease | InRef | InQueue | InHand(thread: int)

  /** `leases` counts the BufferLease objects alive for each slot. `stack` and `place` are
      history: the pool never reads them. */
  datatype Pool = Pool(
    n: int,
    owner: int,
    next: seq<int>,
    head: Head,
    freeCount: int,
    states: seq<SlotState>,
    outstanding: int,
    retained: int,
    refs: seq<int>,
    queue: seq<int>,
    lock: Option<int>,
    leases: multiset<int>,
    pcs: map<int, Pc>,
    crashed: bool,
    stack: seq<int>,
    place: seq<Place>)

  datatype Action =
    | StartAllocate
    | ReturnLease(idx: int)
    | RetainLease(idx: int)
    | CopyRef(idx: int)
    | DropRef(idx: int)
    | StartDrain
    | Advance(spurious: bool)

  function Goto(s: Pool, t: int, pc: Pc): (r: Pool)
  {
    s.(pcs := s.pcs[t := pc])
  }

  /** A compare-and-swap on the packed head sees the tag modulo 2^32 and may fail spuriously. */
  predicate CasSucceeds(current: Head, seen: Head, spurious: bool)
  {
    !spurious && current.tag % TAG_SPACE == seen.tag % TAG_SPACE && current.idx == seen.idx
  }

  predicate Holds(s: Pool, idx: int)
  {
    0 <= idx < s.n && |s.states| == |s.refs| == |s.place| == s.n && |s.next| == s.n + 1
  }

  /** Which actions a thread may take. A lease or reference can only be given up by a holder. */
  predicate Enabled(s: Pool, t: int, a: Action)
  {
    && t in s.pcs && !s.crashed
    && match a
       case StartAllocate => s.pcs[t].Idle?
       case ReturnLease(idx) => s.pcs[t].Idle? && idx in s.leases && Holds(s, idx) && (t != s.owner ==> s.lock.None?)
       case RetainLease(idx) => s.pcs[t].Idle? && idx in s.leases && Holds(s, idx) && s.lock.None?
       case CopyRef(idx) => s.pcs[t].Idle? && Holds(s, idx) && s.refs[idx] > 0
       case DropRef(idx) => s.pcs[t].Idle? && Holds(s, idx) && s.refs[idx] > 0 && (s.refs[idx] == 1 ==> s.lock.None?)
       case StartDrain => s.pcs[t].Idle? && s.lock.None?
       case Advance(_) =>
         match s.pcs[t]
         case Idle => false
         case PopLoad(_) => true
         case PopNext(_, h) => 0 <= h.idx && |s.next| == s.n + 1
         case PopCas(_, _, _) => true
         case PopCount(_, _) => true
         case Mark(idx) => Holds(s, idx)
         case AllocLock => s.lock.None?
         case Drain(_) => s.queue == [] || Holds(s, s.queue[0])
         case PushLoad(_, _) => true
         case PushLink(_, idx, _) => Holds(s, idx)
         case PushCas(_, idx, _) => Holds(s, idx)
         case PushCount(_) => true
  }

  /** states_[idx] := Free on the way to the free list. */
  function Freed(s: Pool, t: int, idx: int, goal: PushFor): (r: Pool)
    requires Holds(s, idx)
  {
    s.(states := s.states[idx := Free], outstanding := s.outstanding - 1, place := s.place[idx := InHand(t)],
       pcs := s.pcs[t := PushLoad(goal, idx)])
  }

  function Enqueued(s: Pool, idx: int): (r: Pool)
    requires Holds(s, idx)
  {
    s.(states := s.states[idx := Queued], queue := s.queue + [idx], place := s.place[idx := InQueue])
  }

  /** One atomic step of thread `t`. */
  function Step(s: Pool, t: int, a: Action): (r: Pool)
    requires Enabled(s, t, a)
  {
    match a
    case StartAllocate => Goto(s, t, PopLoad(false))
    case ReturnLease(idx) =>
      if s.states[idx] != Leased then s.(crashed := true)
      else
        var given := s.(leases := s.leases - multiset{idx});
        if t == s.owner then Freed(given, t, idx, Return) else Enqueued(given, idx)
    case RetainLease(idx) =>
      if s.states[idx] != Leased then s.(crashed := true)
      else s.(leases := s.leases - multiset{idx}, states := s.states[idx := Retained], retained := s.retained + 1,
              refs := s.refs[idx := 1], place := s.place[idx := InRef])
    case CopyRef(idx) => s.(refs := s.refs[idx := s.refs[idx] + 1])
    case DropRef(idx) =>
      if s.refs[idx] > 1 then s.(refs := s.refs[idx := s.refs[idx] - 1])
      else if s.states[idx] != Retained then s.(crashed := true)
      else
        var last := s.(refs := s.refs[idx := 0], retained := s.retained - 1);
        if t == s.owner then Freed(last, t, idx, Release).(lock := Some(t)) else Enqueued(last, idx)
    case StartDrain => Goto(s.(lock := Some(t)), t, Drain(DrainOnly))
    case Advance(spurious) => Run(s, t, spurious)
  }

  function Run(s: Pool, t: int, spurious: bool): (r: Pool)
    requires Enabled(s, t, Advance(spurious))
  {
    match s.pcs[t]
    case PopLoad(second) => Goto(s, t, PopNext(second, s.head))
    case PopNext(second, h) =>
      if h.idx >= s.n then
        if second then Goto(s.(lock := None), t, Idle) else Goto(s, t, AllocLock)
      else Goto(s, t, PopCas(second, h, s.next[h.idx]))
    case PopCas(second, h, next) =>
      if CasSucceeds(s.head, h, spurious) then
        s.(head := Head(s.head.tag + 1, next), stack := if s.stack == [] then [] else s.stack[1..],
           place := if 0 <= h.idx < |s.place| then s.place[h.idx := InHand(t)] else s.place,
           pcs := s.pcs[t := PopCount(second, h.idx)])
      else Goto(s, t, PopNext(second, s.head))
    case PopCount(second, idx) =>
      Goto(s.(freeCount := s.freeCount - 1, lock := if second then None else s.lock), t, Mark(idx))
    case Mark(idx) =>
      if s.states[idx] != Free then s.(crashed := true)
      else s.(states := s.states[idx := Leased], outstanding := s.outstanding + 1, leases := s.leases + multiset{idx},
              place := s.place[idx := InLease], pcs := s.pcs[t := Idle])
    case AllocLock => Goto(s.(lock := Some(t)), t, Drain(DrainThenAllocate))
    case Drain(goal) =>
      if s.queue == [] then
        if goal.DrainThenAllocate? then Goto(s, t, PopLoad(true)) else Goto(s.(lock := None), t, Idle)
      else if s.states[s.queue[0]] != Queued then s.(crashed := true)
      else Freed(s.(queue := s.queue[1..]), t, s.queue[0], goal)
    case PushLoad(goal, idx) => Goto(s, t, PushLink(goal, idx, s.head))
    case PushLink(goal, idx, h) => Goto(s.(next := s.next[idx := h.idx]), t, PushCas(goal, idx, h))
    case PushCas(goal, idx, h) =>
      if CasSucceeds(s.head, h, spurious) then
        s.(head := Head(s.head.tag + 1, idx), stack := [idx] + s.stack, place := s.place[idx := OnStack],
           pcs := s.pcs[t := PushCount(goal)])
      else Goto(s, t, PushLink(goal, idx, s.head))
    case PushCount(goal) =>
      var counted := s.(freeCount := s.freeCount + 1);
      match goal
      case Return => Goto(counted, t, Idle)
      case Release => Goto(counted.(lock := None), t, Idle)
      case DrainThenAllocate => Goto(counted, t, Drain(goal))
      case DrainOnly => Goto(counted, t, Drain(goal))
  }

  // ---------------------------------------------------------------------------------
  // The invariant.
  // ---------------------------------------------------------------------------------

  /** The stack is what free_next_ threads from free_head_: acyclic, and its end is the sentinel. */
  ghost predicate ChainOk(n: int, next: seq<int>, top: int, stack: seq<int>)
  {
    && |next| == n + 1
    && (forall i :: 0 <= i < |stack| ==> 0 <= stack[i] < n)
    && (forall i, j :: 0 <= i < j < |stack| ==> stack[i] != stack[j])
    && top == (if stack == [] then n else stack[0])
    && (forall i {:trigger stack[i]} :: 0 <= i < |stack| ==>
          next[stack[i]] == if i + 1 < |stack| then stack[i + 1] else n)
  }

  ghost predicate StackPlaces(place: seq<Place>, stack: seq<int>)
  {
    forall i :: 0 <= i < |place| ==> (place[i].OnStack? <==> i in stack)
  }

  /** Each leased slot has exactly one lease object, every other slot none. */
  ghost predicate LeasePlaces(place: seq<Place>, leases: multiset<int>)
  {
    && (forall i :: 0 <= i < |place| ==> leases[i] == if place[i].InLease? then 1 else 0)
    && (forall i :: i in leases ==> 0 <= i < |place|)
  }

  ghost predicate QueuePlaces(place: seq<Place>, queue: seq<int>)
  {
    && (forall i :: 0 <= i < |place| ==> (place[i].InQueue? <==> i in queue))
    && (forall i :: 0 <= i < |queue| ==> 0 <= queue[i] < |place|)
    && (forall i, j :: 0 <= i < j < |queue| ==> queue[i] != queue[j])
  }

  ghost predicate RefPlaces(place: seq<Place>, refs: seq<int>)
  {
    |refs| == |place| &&
    forall i :: 0 <= i < |place| ==> refs[i] >= 0 && (place[i].InRef? <==> refs[i] > 0)
  }

  function StateOf(p: Place): (r: SlotState)
  {
    match p
    case OnStack => Free
    case InHand(_) => Free
    case InLease => Leased
    case InRef => Retained
    case InQueue => Queued
  }

  ghost predicate StatePlaces(place: seq<Place>, states: seq<SlotState>)
  {
    |states| == |place| && forall i :: 0 <= i < |place| ==> states[i] == StateOf(place[i])
  }

  /** The slot a thread is carrying between two places. */
  function Hand(pc: Pc): (r: Option<int>)
  {
    match pc
    case PopCount(_, idx) => Some(idx)
    case Mark(idx) => Some(idx)
    case PushLoad(_, idx) => Some(idx)
    case PushLink(_, idx, _) => Some(idx)
    case PushCas(_, idx, _) => Some(idx)
    case _ => None
  }

  ghost predicate HandPlaces(place: seq<Place>, pcs: map<int, Pc>)
  {
    forall i :: 0 <= i < |place| && place[i].InHand? ==>
      place[i].thread in pcs && Hand(pcs[place[i].thread]) == Some(i)
  }

  predicate HoldsLock(pc: Pc)
  {
    match pc
    case PopLoad(second) => second
    case PopNext(second, _) => second
    case PopCas(second, _, _) => second
    case PopCount(second, _) => second
    case Drain(_) => true
    case PushLoad(goal, _) => goal != Return
    case PushLink(goal, _, _) => goal != Return
    case PushCas(goal, _, _) => goal != Return
    case PushCount(goal) => goal != Return
    case _ => false
  }

  /** A head seen earlier is either still the head or carries an older tag. */
  predicate Seen(n: int, head: Head, h: Head)
  {
    0 <= h.idx <= n && h.tag <= head.tag && (h.tag == head.tag ==> h == head)
  }

  /** What a thread remembers is right, or recognisably out of date. */
  ghost predicate PcOk(n: int, head: Head, next: seq<int>, pc: Pc)
    requires |next| == n + 1
  {
    match pc
    case PopNext(_, h) => Seen(n, head, h)
    case PopCas(_, h, nx) => Seen(n, head, h) && h.idx < n && (h.tag == head.tag ==> nx == next[h.idx])
    case PushLink(_, _, h) => Seen(n, head, h)
    case PushCas(_, idx, h) => Seen(n, head, h) && 0 <= idx < n && next[idx] == h.idx
    case Drain(goal) => goal.DrainThenAllocate? || goal.DrainOnly?
    case _ => true
  }

  ghost predicate MemoriesOk(n: int, head: Head, next: seq<int>, pcs: map<int, Pc>)
    requires |next| == n + 1
  {
    forall t :: t in pcs ==> PcOk(n, head, next, pcs[t])
  }

  /** A thread's slot is in its hand, and it is the lock holder exactly when its code says so. */
  ghost predicate GripsOk(place: seq<Place>, lock: Option<int>, pcs: map<int, Pc>)
  {
    && (forall t :: t in pcs ==> (HoldsLock(pcs[t]) <==> lock == Some(t)))
    && (forall t :: t in pcs && Hand(pcs[t]).Some? ==>
          0 <= Hand(pcs[t]).value < |place| && place[Hand(pcs[t]).value] == InHand(t))
    && (lock.Some? ==> lock.value in pcs)
  }

  ghost predicate Inv(s: Pool)
  {
    && 0 <= s.n == |s.place| && !s.crashed
    && ChainOk(s.n, s.next, s.head.idx, s.stack)
    && StackPlaces(s.place, s.stack) && LeasePlaces(s.place, s.leases) && QueuePlaces(s.place, s.queue)
    && RefPlaces(s.place, s.refs) && StatePlaces(s.place, s.states) && HandPlaces(s.place, s.pcs)
    && MemoriesOk(s.n, s.head, s.next, s.pcs)
    && GripsOk(s.place, s.lock, s.pcs)
  }

  /** A pop whose compare-and-swap matches although the successor it remembers is out of date. */
  predicate StaleSwap(s: Pool, t: int, a: Action)
    requires Enabled(s, t, a)
  {
    a.Advance? && s.pcs[t].PopCas? && CasSucceeds(s.head, s.pcs[t].head, a.spurious) &&
    !(0 <= s.pcs[t].head.idx < |s.next| && s.pcs[t].next == s.next[s.pcs[t].head.idx])
  }

  /** A popping thread's remembered tag is not a whole tag space behind when it compares. */
  predicate NoTagWrap(s: Pool, t: int)
    requires t in s.pcs
  {
    s.pcs[t].PopCas? ==> s.head.tag - s.pcs[t].head.tag < TAG_SPACE
  }

  /** Without tag wrap, a successful compare-and-swap means that nothing happened since the load. */
  lemma CasMeansUnchanged(n: int, current: Head, h: Head, spurious: bool)
    requires Seen(n, current, h) && current.tag - h.tag < TAG_SPACE && CasSucceeds(current, h, spurious)
    ensures current == h
  {
    var d := current.tag - h.tag;
    assert d % TAG_SPACE == 0;
  }

  lemma NoWrapNoStale(s: Pool, t: int, a: Action)
    requires Inv(s) && Enabled(s, t, a) && NoTagWrap(s, t)
    ensures !StaleSwap(s, t, a)
  {
    MemoryOf(s, t);
    hide Inv;
    if StaleSwap(s, t, a) {
      CasMeansUnchanged(s.n, s.head, s.pcs[t].head, a.spurious);
    }
  }

  // ---------------------------------------------------------------------------------
  // Every step preserves it.
  // ---------------------------------------------------------------------------------

  /** A thread moves on without touching the list or a slot. */
  lemma GotoStep(s: Pool, d: Pool, t: int, pc: Pc)
    requires Inv(s) && t in s.pcs
    requires d == s.(pcs := s.pcs[t := pc], lock := d.lock, freeCount := d.freeCount)
    requires Hand(pc) == Hand(s.pcs[t]) && PcOk(s.n, s.head, s.next, pc)
    requires HoldsLock(pc) <==> d.lock == Some(t)
    requires d.lock == s.lock || (s.lock.None? && d.lock == Some(t)) || (s.lock == Some(t) && d.lock.None?)
    ensures Inv(d)
  {
    hide ChainOk, StackPlaces, LeasePlaces, QueuePlaces, RefPlaces, StatePlaces, PcOk;
  }

  /** Moving slot i between two places that concern neither leases, queue nor references. */
  lemma MoveOthers(place: seq<Place>, i: int, p: Place, leases: multiset<int>, queue: seq<int>, refs: seq<int>)
    requires 0 <= i < |place|
    ensures LeasePlaces(place, leases) && !place[i].InLease? && !p.InLease? ==> LeasePlaces(place[i := p], leases)
    ensures QueuePlaces(place, queue) && !place[i].InQueue? && !p.InQueue? ==> QueuePlaces(place[i := p], queue)
    ensures RefPlaces(place, refs) && !place[i].InRef? && !p.InRef? ==> RefPlaces(place[i := p], refs)
  {
  }

  lemma MoveStates(place: seq<Place>, i: int, p: Place, states: seq<SlotState>)
    requires 0 <= i < |place| && StatePlaces(place, states)
    ensures StatePlaces(place[i := p], states[i := StateOf(p)])
    ensures StateOf(p) == StateOf(place[i]) ==> StatePlaces(place[i := p], states)
  {
    if StateOf(p) == StateOf(place[i]) {
      assert states[i := StateOf(p)] == states;
    }
  }

  /** A slot changes places, in or out of thread t's hand. */
  lemma MoveHands(place: seq<Place>, i: int, p: Place, lock: Option<int>, pcs: map<int, Pc>, t: int, pc: Pc, lock': Option<int>)
    requires 0 <= i < |place| && t in pcs && HandPlaces(place, pcs) && GripsOk(place, lock, pcs)
    requires place[i].InHand? ==> place[i].thread == t
    requires Hand(pcs[t]) == (if place[i].InHand? then Some(i) else None)
    requires p.InHand? ==> p.thread == t
    requires Hand(pc) == (if p.InHand? then Some(i) else None)
    requires HoldsLock(pc) <==> lock' == Some(t)
    requires lock' == lock || (lock.None? && lock' == Some(t)) || (lock == Some(t) && lock'.None?)
    ensures HandPlaces(place[i := p], pcs[t := pc]) && GripsOk(place[i := p], lock', pcs[t := pc])
  {
  }

  /** After a successful compare-and-swap every other memory is out of date. */
  lemma TagMoves(n: int, head: Head, head': Head, next: seq<int>, pcs: map<int, Pc>, t: int, pc: Pc)
    requires |next| == n + 1 && MemoriesOk(n, head, next, pcs) && head'.tag == head.tag + 1
    requires PcOk(n, head', next, pc)
    ensures MemoriesOk(n, head', next, pcs[t := pc])
  {
  }

  lemma PopStep(s: Pool, t: int, second: bool, h: Head, nx: int)
    requires Inv(s) && t in s.pcs && s.pcs[t] == PopCas(second, h, nx)
    requires CasSucceeds(s.head, h, false) && !StaleSwap(s, t, Advance(false))
    ensures Enabled(s, t, Advance(false)) && Inv(Run(s, t, false))
  {
    hide LeasePlaces, QueuePlaces, RefPlaces, StatePlaces, HandPlaces, GripsOk, MemoriesOk;
    var d := Run(s, t, false);
    assert PcOk(s.n, s.head, s.next, s.pcs[t]) by { MemoryOf(s, t); }
    assert s.stack[0] == h.idx && d.stack == s.stack[1..];
    MoveOthers(s.place, h.idx, InHand(t), s.leases, s.queue, s.refs);
    MoveStates(s.place, h.idx, InHand(t), s.states);
    GripOf(s, t);
    MoveHands(s.place, h.idx, InHand(t), s.lock, s.pcs, t, PopCount(second, h.idx), s.lock);
    TagMoves(s.n, s.head, d.head, s.next, s.pcs, t, PopCount(second, h.idx));
  }

  lemma MemoryOf(s: Pool, t: int)
    requires Inv(s) && t in s.pcs
    ensures PcOk(s.n, s.head, s.next, s.pcs[t])
  {
  }

  lemma GripOf(s: Pool, t: int)
    requires Inv(s) && t in s.pcs
    ensures HoldsLock(s.pcs[t]) <==> s.lock == Some(t)
    ensures Hand(s.pcs[t]).Some? ==> var i := Hand(s.pcs[t]).value; 0 <= i < s.n && s.place[i] == InHand(t)
  {
  }

  /** Linking writes only a slot that is in the thread's own hand. */
  lemma LinkStep(s: Pool, t: int, goal: PushFor, idx: int, h: Head)
    requires Inv(s) && t in s.pcs && s.pcs[t] == PushLink(goal, idx, h)
    ensures Enabled(s, t, Advance(false)) && Inv(Run(s, t, false))
  {
    hide LeasePlaces, QueuePlaces, RefPlaces, GripsOk;
    MemoryOf(s, t);
    GripOf(s, t);
    LengthsOf(s);
    assert idx !in s.stack;
    var d := Run(s, t, false);
    LinkMemories(s, t, goal, idx, h);
    assert GripsOk(d.place, d.lock, d.pcs) by { SameGrip(s.place, s.lock, s.pcs, t, PushCas(goal, idx, h)); }
  }

  lemma LengthsOf(s: Pool)
    requires Inv(s)
    ensures |s.states| == |s.refs| == |s.place| == s.n && |s.next| == s.n + 1
  {
  }

  lemma SameGrip(place: seq<Place>, lock: Option<int>, pcs: map<int, Pc>, t: int, pc: Pc)
    requires GripsOk(place, lock, pcs) && t in pcs && Hand(pc) == Hand(pcs[t]) && HoldsLock(pc) == HoldsLock(pcs[t])
    ensures GripsOk(place, lock, pcs[t := pc])
  {
  }

  lemma LinkMemories(s: Pool, t: int, goal: PushFor, idx: int, h: Head)
    requires Inv(s) && t in s.pcs && s.pcs[t] == PushLink(goal, idx, h) && 0 <= idx < s.n && idx !in s.stack
    ensures MemoriesOk(s.n, s.head, s.next[idx := h.idx], s.pcs[t := PushCas(goal, idx, h)])
  {
    hide LeasePlaces, QueuePlaces, RefPlaces, StatePlaces, StackPlaces;
    var next := s.next[idx := h.idx];
    forall u | u in s.pcs && u != t
      ensures PcOk(s.n, s.head, next, s.pcs[u])
    {
      assert PcOk(s.n, s.head, s.next, s.pcs[u]);
      match s.pcs[u]
      case PopCas(_, seen, _) =>
        if seen.tag == s.head.tag { assert s.stack[0] == seen.idx; }
      case PushCas(_, other, _) =>
        assert s.place[other] == InHand(u) && s.place[idx] == InHand(t);
      case _ =>
    }
  }

  lemma PushStep(s: Pool, t: int, goal: PushFor, idx: int, h: Head)
    requires Inv(s) && t in s.pcs && s.pcs[t] == PushCas(goal, idx, h) && s.head.idx == h.idx
    requires CasSucceeds(s.head, h, false)
    ensures Enabled(s, t, Advance(false)) && Inv(Run(s, t, false))
  {
    hide LeasePlaces, QueuePlaces, RefPlaces, StatePlaces, HandPlaces, GripsOk, MemoriesOk;
    MemoryOf(s, t);
    GripOf(s, t);
    LengthsOf(s);
    assert idx !in s.stack;
    var d := Run(s, t, false);
    MoveOthers(s.place, idx, OnStack, s.leases, s.queue, s.refs);
    MoveStates(s.place, idx, OnStack, s.states);
    MoveHands(s.place, idx, OnStack, s.lock, s.pcs, t, PushCount(goal), s.lock);
    TagMoves(s.n, s.head, d.head, s.next, s.pcs, t, PushCount(goal));
  }

  lemma LeaseEnds(place: seq<Place>, i: int, p: Place, leases: multiset<int>)
    requires 0 <= i < |place| && LeasePlaces(place, leases) && place[i].InLease? && !p.InLease?
    ensures LeasePlaces(place[i := p], leases - multiset{i})
  {
  }

  lemma LeaseBegins(place: seq<Place>, i: int, leases: multiset<int>)
    requires 0 <= i < |place| && LeasePlaces(place, leases) && !place[i].InLease?
    ensures LeasePlaces(place[i := InLease], leases + multiset{i})
  {
  }

  lemma QueueGrows(place: seq<Place>, i: int, queue: seq<int>)
    requires 0 <= i < |place| && QueuePlaces(place, queue) && !place[i].InQueue?
    ensures QueuePlaces(place[i := InQueue], queue + [i])
  {
  }

  lemma QueueShrinks(place: seq<Place>, p: Place, queue: seq<int>)
    requires QueuePlaces(place, queue) && queue != [] && !p.InQueue?
    ensures 0 <= queue[0] < |place| && place[queue[0]].InQueue? && QueuePlaces(place[queue[0] := p], queue[1..])
  {
    var i := queue[0];
    assert i in queue;
    forall k | 0 <= k < |place|
      ensures place[i := p][k].InQueue? <==> k in queue[1..]
    {
      if k != i && k in queue {
        var m :| 0 <= m < |queue| && queue[m] == k;
        assert queue[1..][m - 1] == k;
      }
    }
  }

  lemma StackKeeps(place: seq<Place>, i: int, p: Place, stack: seq<int>)
    requires 0 <= i < |place| && StackPlaces(place, stack) && !place[i].OnStack? && !p.OnStack?
    ensures StackPlaces(place[i := p], stack)
  {
  }

  lemma MemoriesKeep(n: int, head: Head, next: seq<int>, pcs: map<int, Pc>, t: int, pc: Pc)
    requires |next| == n + 1 && MemoriesOk(n, head, next, pcs) && PcOk(n, head, next, pc)
    ensures MemoriesOk(n, head, next, pcs[t := pc])
  {
  }

  /** A slot that nobody else can reach moves from one place to another. The caller supplies
      the new collections; the list is untouched. */
  lemma MoveStep(s: Pool, d: Pool, t: int, i: int, p: Place, pc: Pc)
    requires Inv(s) && t in s.pcs && 0 <= i < s.n && !s.place[i].OnStack? && !p.OnStack?
    requires d == s.(place := s.place[i := p], states := s.states[i := StateOf(p)], pcs := s.pcs[t := pc], lock := d.lock,
                     leases := d.leases, queue := d.queue, refs := d.refs, outstanding := d.outstanding, retained := d.retained)
    requires LeasePlaces(d.place, d.leases) && QueuePlaces(d.place, d.queue) && RefPlaces(d.place, d.refs)
    requires s.place[i].InHand? ==> s.place[i].thread == t
    requires Hand(s.pcs[t]) == (if s.place[i].InHand? then Some(i) else None)
    requires p.InHand? ==> p.thread == t
    requires Hand(pc) == (if p.InHand? then Some(i) else None)
    requires PcOk(s.n, s.head, s.next, pc)
    requires HoldsLock(pc) <==> d.lock == Some(t)
    requires d.lock == s.lock || (s.lock.None? && d.lock == Some(t)) || (s.lock == Some(t) && d.lock.None?)
    ensures Inv(d)
  {
    hide LeasePlaces, QueuePlaces, RefPlaces, StatePlaces, HandPlaces, GripsOk, MemoriesOk, ChainOk, StackPlaces, PcOk;
    StackKeeps(s.place, i, p, s.stack);
    MoveStates(s.place, i, p, s.states);
    MoveHands(s.place, i, p, s.lock, s.pcs, t, pc, d.lock);
    LengthsOf(s);
    MemoriesKeep(s.n, s.head, s.next, s.pcs, t, pc);
  }

  lemma PlaceOf(s: Pool, i: int)
    requires Inv(s)
    ensures i in s.leases ==> 0 <= i < s.n && s.place[i].InLease?
    ensures 0 <= i < s.n && s.refs[i] > 0 ==> s.place[i].InRef?
    ensures 0 <= i < s.n ==> s.states[i] == StateOf(s.place[i])
  {
    hide ChainOk, StackPlaces, QueuePlaces, HandPlaces, MemoriesOk, GripsOk;
  }

  /** Giving up a lease or the last reference: on the owner's thread the slot goes to its hand,
      elsewhere into the return queue. */
  lemma GiveUpStep(s: Pool, t: int, a: Action)
    requires Inv(s) && Enabled(s, t, a) && (a.ReturnLease? || a.RetainLease? || (a.DropRef? && s.refs[a.idx] == 1))
    ensures Inv(Step(s, t, a))
  {
    hide LeasePlaces, QueuePlaces, RefPlaces, StatePlaces, HandPlaces, GripsOk, MemoriesOk, ChainOk, StackPlaces;
    var d, i := Step(s, t, a), a.idx;
    PlaceOf(s, i);
    GripOf(s, t);
    LengthsOf(s);
    var p := d.place[i];
    assert s.pcs[t := s.pcs[t]] == s.pcs;
    MoveOthers(s.place, i, p, s.leases, s.queue, s.refs);
    if a.DropRef? {
      RefEnds(s.place, i, p, s.refs);
    } else {
      LeaseEnds(s.place, i, p, s.leases);
      if a.RetainLease? {
        RefBegins(s.place, i, s.refs);
      }
    }
    if p.InQueue? {
      QueueGrows(s.place, i, s.queue);
    }
    MoveStep(s, d, t, i, p, d.pcs[t]);
  }

  lemma RefEnds(place: seq<Place>, i: int, p: Place, refs: seq<int>)
    requires 0 <= i < |place| && RefPlaces(place, refs) && !p.InRef?
    ensures RefPlaces(place[i := p], refs[i := 0])
  {
  }

  lemma RefBegins(place: seq<Place>, i: int, refs: seq<int>)
    requires 0 <= i < |place| && RefPlaces(place, refs)
    ensures RefPlaces(place[i := InRef], refs[i := 1])
  {
  }

  lemma RefCounts(s: Pool, idx: int, count: int)
    requires Inv(s) && 0 <= idx < s.n && |s.refs| == s.n && s.refs[idx] > 0 && count > 0
    ensures Inv(s.(refs := s.refs[idx := count]))
  {
    hide ChainOk, StackPlaces, LeasePlaces, QueuePlaces, StatePlaces, HandPlaces, MemoriesOk, GripsOk;
  }

  /** The popped slot becomes a lease: its state is Free and nobody else holds it. */
  lemma MarkStep(s: Pool, t: int, idx: int)
    requires Inv(s) && t in s.pcs && s.pcs[t] == Mark(idx)
    ensures Enabled(s, t, Advance(false)) && Inv(Run(s, t, false)) && s.states[idx] == Free && s.leases[idx] == 0
  {
    hide LeasePlaces, QueuePlaces, RefPlaces, StatePlaces, HandPlaces, GripsOk, MemoriesOk, ChainOk, StackPlaces;
    GripOf(s, t);
    PlaceOf(s, idx);
    LengthsOf(s);
    MoveOthers(s.place, idx, InLease, s.leases, s.queue, s.refs);
    LeaseBegins(s.place, idx, s.leases);
    MoveStep(s, Run(s, t, false), t, idx, InLease, Idle);
  }

  lemma DrainStep(s: Pool, t: int, goal: PushFor)
    requires Inv(s) && t in s.pcs && s.pcs[t] == Drain(goal) && s.queue != []
    ensures Enabled(s, t, Advance(false)) && Inv(Run(s, t, false))
  {
    hide LeasePlaces, QueuePlaces, RefPlaces, StatePlaces, HandPlaces, GripsOk, MemoriesOk, ChainOk, StackPlaces;
    GripOf(s, t);
    MemoryOf(s, t);
    LengthsOf(s);
    QueueShrinks(s.place, InHand(t), s.queue);
    PlaceOf(s, s.queue[0]);
    MoveOthers(s.place, s.queue[0], InHand(t), s.leases, s.queue, s.refs);
    MoveStep(s, Run(s, t, false), t, s.queue[0], InHand(t), PushLoad(goal, s.queue[0]));
  }

  /** Steps of a thread that only move its program counter, the lock or a counter. */
  lemma QuietStep(s: Pool, t: int, spurious: bool)
    requires Inv(s) && Enabled(s, t, Advance(spurious))
    requires match s.pcs[t]
             case PopCas(_, h, _) => !CasSucceeds(s.head, h, spurious)
             case PushCas(_, _, h) => !CasSucceeds(s.head, h, spurious)
             case Mark(_) => false
             case PushLink(_, _, _) => false
             case Drain(_) => s.queue == []
             case _ => true
    ensures Inv(Run(s, t, spurious))
  {
    hide LeasePlaces, QueuePlaces, RefPlaces, StatePlaces, HandPlaces, GripsOk, MemoriesOk, StackPlaces;
    GripOf(s, t);
    MemoryOf(s, t);
    var d := Run(s, t, spurious);
    GotoStep(s, d, t, d.pcs[t]);
  }

  lemma StaleBreaks(s: Pool, t: int, a: Action)
    requires Inv(s) && Enabled(s, t, a) && StaleSwap(s, t, a)
    ensures !Inv(Step(s, t, a))
  {
    hide LeasePlaces, QueuePlaces, RefPlaces, StatePlaces, HandPlaces, GripsOk, MemoriesOk, StackPlaces;
    MemoryOf(s, t);
    assert s.stack[0] == s.head.idx;
  }

  /** Safety of one step: the free list stays exactly the set of pushed slots, every slot stays
      with one holder, and no ownership check of the pool fires. The one exception is a stale swap. */
  lemma StepKeepsInv(s: Pool, t: int, a: Action)
    requires Inv(s) && Enabled(s, t, a)
    ensures Inv(Step(s, t, a)) <==> !StaleSwap(s, t, a)
  {
    hide LeasePlaces, QueuePlaces, RefPlaces, StatePlaces, HandPlaces, GripsOk, MemoriesOk, ChainOk, StackPlaces;
    GripOf(s, t);
    MemoryOf(s, t);
    match a
    case StartAllocate => GotoStep(s, Step(s, t, a), t, PopLoad(false));
    case StartDrain => GotoStep(s, Step(s, t, a), t, Drain(DrainOnly));
    case ReturnLease(_) => GiveUpStep(s, t, a);
    case RetainLease(_) => GiveUpStep(s, t, a);
    case CopyRef(idx) => RefCounts(s, idx, s.refs[idx] + 1);
    case DropRef(idx) =>
      if s.refs[idx] == 1 {
        GiveUpStep(s, t, a);
      } else {
        RefCounts(s, idx, s.refs[idx] - 1);
      }
    case Advance(spurious) =>
      match s.pcs[t]
      case PopCas(second, h, nx) =>
        if CasSucceeds(s.head, h, spurious) {
          if StaleSwap(s, t, a) {
            StaleBreaks(s, t, a);
          } else {
            PopStep(s, t, second, h, nx);
          }
        } else {
          QuietStep(s, t, spurious);
        }
      case PushCas(goal, idx, h) =>
        if CasSucceeds(s.head, h, spurious) {
          PushStep(s, t, goal, idx, h);
        } else {
          QuietStep(s, t, spurious);
        }
      case PushLink(goal, idx, h) => LinkStep(s, t, goal, idx, h);
      case Mark(idx) => MarkStep(s, t, idx);
      case Drain(goal) =>
        if s.queue == [] {
          QuietStep(s, t, spurious);
        } else {
          DrainStep(s, t, goal);
        }
      case _ => QuietStep(s, t, spurious);
  }

  // ---------------------------------------------------------------------------------
  // The counters.
  // ---------------------------------------------------------------------------------

  /** How many slots are in one of the given states. */
  ghost function Tally(states: seq<SlotState>, which: set<SlotState>): (n: int)
  {
    if states == [] then 0 else (if states[0] in which then 1 else 0) + Tally(states[1..], which)
  }

  lemma {:induction false} TallyUpdate(states: seq<SlotState>, i: int, v: SlotState, which: set<SlotState>)
    requires 0 <= i < |states|
    ensures Tally(states[i := v], which) ==
            Tally(states, which) - (if states[i] in which then 1 else 0) + (if v in which then 1 else 0)
  {
    var after := states[i := v];
    if i == 0 {
      assert after[1..] == states[1..];
    } else {
      assert after[1..] == states[1..][i - 1 := v];
      TallyUpdate(states[1..], i - 1, v, which);
    }
  }

  const BUSY: set<SlotState> := {Leased, Retained, Queued}

  /** Threads between a compare-and-swap and the counter update that belongs to it. */
  ghost function Popping(pcs: map<int, Pc>): (r: set<int>)
  {
    set t | t in pcs && pcs[t].PopCount?
  }

  ghost function Pushing(pcs: map<int, Pc>): (r: set<int>)
  {
    set t | t in pcs && pcs[t].PushCount?
  }

  lemma SetMoves(a: set<int>, b: set<int>, t: int)
    requires forall u :: u != t ==> (u in a <==> u in b)
    ensures |b| == |a| - (if t in a then 1 else 0) + (if t in b then 1 else 0)
  {
    forall u
      ensures u in a - {t} <==> u in b - {t}
    {
      assert u != t ==> (u in a <==> u in b);
    }
    assert a - {t} == b - {t};
    assert |a - {t}| == |a| - (if t in a then 1 else 0);
    assert |b - {t}| == |b| - (if t in b then 1 else 0);
  }

  lemma ThreadTally(pcs: map<int, Pc>, t: int, pc: Pc)
    requires t in pcs
    ensures |Popping(pcs[t := pc])| ==
            |Popping(pcs)| - (if pcs[t].PopCount? then 1 else 0) + (if pc.PopCount? then 1 else 0)
    ensures |Pushing(pcs[t := pc])| ==
            |Pushing(pcs)| - (if pcs[t].PushCount? then 1 else 0) + (if pc.PushCount? then 1 else 0)
  {
    SetMoves(Popping(pcs), Popping(pcs[t := pc]), t);
    SetMoves(Pushing(pcs), Pushing(pcs[t := pc]), t);
  }

  ghost predicate Counts(s: Pool)
  {
    && s.outstanding == Tally(s.states, BUSY)
    && s.retained == Tally(s.states, {Retained})
    && s.freeCount == |s.stack| + |Popping(s.pcs)| - |Pushing(s.pcs)|
  }

  /** A step changes at most one slot's state, and moves the stack only with a thread that
      still owes the counter its update. */
  lemma CountsStep(s: Pool, d: Pool, t: int, i: int, v: SlotState, pc: Pc)
    requires Counts(s) && t in s.pcs && 0 <= i < |s.states|
    requires d.states == s.states[i := v] && d.pcs == s.pcs[t := pc]
    requires d.outstanding == s.outstanding - (if s.states[i] != Free then 1 else 0) + (if v != Free then 1 else 0)
    requires d.retained == s.retained - (if s.states[i] == Retained then 1 else 0) + (if v == Retained then 1 else 0)
    requires d.freeCount - |d.stack| - (if pc.PopCount? then 1 else 0) + (if pc.PushCount? then 1 else 0) ==
             s.freeCount - |s.stack| - (if s.pcs[t].PopCount? then 1 else 0) + (if s.pcs[t].PushCount? then 1 else 0)
    ensures Counts(d)
  {
    hide Tally, Popping, Pushing;
    TallyUpdate(s.states, i, v, BUSY);
    TallyUpdate(s.states, i, v, {Retained});
    ThreadTally(s.pcs, t, pc);
  }

  lemma QuietCounts(s: Pool, d: Pool, t: int, pc: Pc)
    requires Counts(s) && t in s.pcs && d.states == s.states && d.pcs == s.pcs[t := pc]
    requires d.outstanding == s.outstanding && d.retained == s.retained
    requires d.freeCount - |d.stack| - (if pc.PopCount? then 1 else 0) + (if pc.PushCount? then 1 else 0) ==
             s.freeCount - |s.stack| - (if s.pcs[t].PopCount? then 1 else 0) + (if s.pcs[t].PushCount? then 1 else 0)
    ensures Counts(d)
  {
    hide Tally, Popping, Pushing;
    ThreadTally(s.pcs, t, pc);
  }

  lemma GiveUpCounts(s: Pool, t: int, a: Action)
    requires Inv(s) && Counts(s) && Enabled(s, t, a)
    requires a.ReturnLease? || a.RetainLease? || (a.DropRef? && s.refs[a.idx] == 1)
    ensures Counts(Step(s, t, a))
  {
    hide LeasePlaces, QueuePlaces, RefPlaces, StatePlaces, HandPlaces, GripsOk, MemoriesOk, StackPlaces, ChainOk, Counts;
    var d := Step(s, t, a);
    PlaceOf(s, a.idx);
    assert s.pcs[t := s.pcs[t]] == s.pcs;
    CountsStep(s, d, t, a.idx, d.states[a.idx], d.pcs[t]);
  }

  lemma StackNotEmpty(s: Pool)
    requires Inv(s)
    ensures s.head.idx < s.n ==> s.stack != []
  {
  }

  lemma DrainCounts(s: Pool, t: int, goal: PushFor)
    requires Inv(s) && Counts(s) && t in s.pcs && s.pcs[t] == Drain(goal) && s.queue != []
    ensures Enabled(s, t, Advance(false)) && Counts(Run(s, t, false))
  {
    hide LeasePlaces, QueuePlaces, RefPlaces, StatePlaces, HandPlaces, GripsOk, MemoriesOk, StackPlaces, Counts, ChainOk;
    DrainStep(s, t, goal);
    QueueShrinks(s.place, InHand(t), s.queue);
    PlaceOf(s, s.queue[0]);
    CountsStep(s, Run(s, t, false), t, s.queue[0], Free, PushLoad(goal, s.queue[0]));
  }

  lemma PopCounts(s: Pool, t: int, second: bool, h: Head, nx: int)
    requires Inv(s) && Counts(s) && t in s.pcs && s.pcs[t] == PopCas(second, h, nx)
    requires CasSucceeds(s.head, h, false)
    ensures Counts(Run(s, t, false))
  {
    hide LeasePlaces, QueuePlaces, RefPlaces, StatePlaces, HandPlaces, GripsOk, MemoriesOk, StackPlaces, Counts, ChainOk;
    MemoryOf(s, t);
    StackNotEmpty(s);
    QuietCounts(s, Run(s, t, false), t, PopCount(second, h.idx));
  }

  lemma MarkCounts(s: Pool, t: int, idx: int)
    requires Inv(s) && Counts(s) && t in s.pcs && s.pcs[t] == Mark(idx)
    ensures Enabled(s, t, Advance(false)) && Counts(Run(s, t, false))
  {
    hide LeasePlaces, QueuePlaces, RefPlaces, StatePlaces, HandPlaces, GripsOk, MemoriesOk, StackPlaces, Counts, ChainOk;
    MarkStep(s, t, idx);
    CountsStep(s, Run(s, t, false), t, idx, Leased, Idle);
  }

  predicate SameBooks(s: Pool, d: Pool)
  {
    d.states == s.states && d.outstanding == s.outstanding && d.retained == s.retained
  }

  function Owed(s: Pool, pc: Pc): (r: int)
  {
    s.freeCount - |s.stack| - (if pc.PopCount? then 1 else 0) + (if pc.PushCount? then 1 else 0)
  }

  lemma QuietRun(s: Pool, t: int, spurious: bool)
    requires Enabled(s, t, Advance(spurious))
    requires !s.pcs[t].Mark? && (s.pcs[t].Drain? ==> s.queue == [])
    requires s.pcs[t].PopCas? ==> !CasSucceeds(s.head, s.pcs[t].head, spurious)
    ensures var d := Run(s, t, spurious);
            SameBooks(s, d) && t in d.pcs && d.pcs == s.pcs[t := d.pcs[t]] && Owed(d, d.pcs[t]) == Owed(s, s.pcs[t])
  {
    hide CasSucceeds;
  }

  lemma RunCounts(s: Pool, t: int, spurious: bool)
    requires Inv(s) && Counts(s) && Enabled(s, t, Advance(spurious))
    ensures Counts(Run(s, t, spurious))
  {
    var pc := s.pcs[t];
    if pc.Mark? {
      MarkCounts(s, t, pc.idx);
    } else if pc.Drain? && s.queue != [] {
      DrainCounts(s, t, pc.goal);
    } else if pc.PopCas? && CasSucceeds(s.head, pc.head, spurious) {
      PopCounts(s, t, pc.second, pc.head, pc.next);
    } else {
      hide Inv, Counts, Run;
      QuietRun(s, t, spurious);
      var d := Run(s, t, spurious);
      QuietCounts(s, d, t, d.pcs[t]);
    }
  }

  lemma StepKeepsCounts(s: Pool, t: int, a: Action)
    requires Inv(s) && Counts(s) && Enabled(s, t, a)
    ensures Counts(Step(s, t, a))
  {
    hide LeasePlaces, QueuePlaces, RefPlaces, StatePlaces, HandPlaces, GripsOk, MemoriesOk, StackPlaces, ChainOk;
    match a
    case StartAllocate => QuietCounts(s, Step(s, t, a), t, PopLoad(false));
    case StartDrain => QuietCounts(s, Step(s, t, a), t, Drain(DrainOnly));
    case ReturnLease(_) => GiveUpCounts(s, t, a);
    case RetainLease(_) => GiveUpCounts(s, t, a);
    case CopyRef(_) =>
    case DropRef(idx) => if s.refs[idx] == 1 { GiveUpCounts(s, t, a); }
    case Advance(spurious) => RunCounts(s, t, spurious);
  }

  /** Every swap moves the tag by one and the depth of the list by one. */
  predicate Parity(s: Pool)
  {
    (s.head.tag + |s.stack| - s.n) % 2 == 0
  }

  predicate SwapsOnce(s: Pool, d: Pool)
  {
    d.n == s.n &&
    if d.head.tag == s.head.tag then |d.stack| == |s.stack|
    else d.head.tag == s.head.tag + 1 && (|d.stack| == |s.stack| + 1 || |d.stack| + 1 == |s.stack|)
  }

  lemma RunSwapsOnce(s: Pool, t: int, spurious: bool)
    requires Enabled(s, t, Advance(spurious)) && (s.pcs[t].PopCas? && CasSucceeds(s.head, s.pcs[t].head, spurious) ==> s.stack != [])
    ensures SwapsOnce(s, Run(s, t, spurious))
  {
  }

  lemma OthersSwapNothing(s: Pool, t: int, a: Action)
    requires Enabled(s, t, a) && !a.Advance?
    ensures SwapsOnce(s, Step(s, t, a))
  {
  }

  lemma ParityMoves(s: Pool, d: Pool)
    requires Parity(s) && SwapsOnce(s, d)
    ensures Parity(d)
  {
    var x, y := s.head.tag + |s.stack| - s.n, d.head.tag + |d.stack| - d.n;
    assert y == x || y == x + 2;
  }

  lemma StepKeepsParity(s: Pool, t: int, a: Action)
    requires Inv(s) && Parity(s) && Enabled(s, t, a)
    ensures Parity(Step(s, t, a))
  {
    MemoryOf(s, t);
    StackNotEmpty(s);
    hide Inv, Run, Parity, SwapsOnce;
    if a.Advance? {
      RunSwapsOnce(s, t, a.spurious);
    } else {
      OthersSwapNothing(s, t, a);
    }
    ParityMoves(s, Step(s, t, a));
  }

  // ---------------------------------------------------------------------------------
  // Runs.
  // ---------------------------------------------------------------------------------

  /** Every slot free, threaded in index order, every thread idle. */
  ghost function Initial(n: nat, owner: int, threads: set<int>): (s: Pool)
  {
    var order := seq(n, i => i);
    Pool(n, owner, seq(n + 1, i => if i < n then i + 1 else n), Head(0, 0), n, seq(n, _ => Free), 0, 0, seq(n, _ => 0), [],
         None, multiset{}, map t | t in threads :: Idle, false, order, seq(n, _ => OnStack))
  }

  lemma InitialOk(n: nat, owner: int, threads: set<int>)
    ensures Inv(Initial(n, owner, threads)) && Counts(Initial(n, owner, threads)) && Parity(Initial(n, owner, threads))
  {
    hide ChainOk, StackPlaces, QueuePlaces, Tally;
    var s := Initial(n, owner, threads);
    assert Popping(s.pcs) == {} && Pushing(s.pcs) == {};
    AllFree(s.states);
    InitialList(n, s.next, s.stack, s.place);
  }

  lemma InitialList(n: nat, next: seq<int>, stack: seq<int>, place: seq<Place>)
    requires |next| == n + 1 && |stack| == |place| == n
    requires forall i :: 0 <= i < n ==> next[i] == i + 1 && stack[i] == i && place[i] == OnStack
    ensures ChainOk(n, next, 0, stack) && StackPlaces(place, stack) && QueuePlaces(place, [])
  {
    forall i | 0 <= i < |place|
      ensures i in stack
    {
      assert stack[i] == i;
    }
  }

  lemma {:induction false} AllFree(states: seq<SlotState>)
    requires forall i :: 0 <= i < |states| ==> states[i] == Free
    ensures Tally(states, BUSY) == 0 && Tally(states, {Retained}) == 0
  {
    if states != [] {
      AllFree(states[1..]);
    }
  }

  /** An interleaving: who steps, and how. */
  ghost predicate Legal(s: Pool, trace: seq<(int, Action)>)
    decreases |trace|
  {
    trace == [] ||
    (Enabled(s, trace[0].0, trace[0].1) && NoTagWrap(s, trace[0].0) && Legal(Step(s, trace[0].0, trace[0].1), trace[1..]))
  }

  ghost function Final(s: Pool, trace: seq<(int, Action)>): (r: Pool)
    requires Legal(s, trace)
    decreases |trace|
  {
    if trace == [] then s else Final(Step(s, trace[0].0, trace[0].1), trace[1..])
  }

  /** In every interleaving by any number of threads. */
  lemma {:induction false} RunSafe(s: Pool, trace: seq<(int, Action)>)
    requires Inv(s) && Counts(s) && Parity(s) && Legal(s, trace)
    ensures Inv(Final(s, trace)) && Counts(Final(s, trace)) && Parity(Final(s, trace))
    decreases |trace|
  {
    hide Inv, Counts, Parity;
    if trace != [] {
      NoWrapNoStale(s, trace[0].0, trace[0].1);
      StepKeepsInv(s, trace[0].0, trace[0].1);
      StepKeepsCounts(s, trace[0].0, trace[0].1);
      StepKeepsParity(s, trace[0].0, trace[0].1);
      RunSafe(Step(s, trace[0].0, trace[0].1), trace[1..]);
    }
  }

  // ---------------------------------------------------------------------------------
  // What the invariant means to a caller.
  // ---------------------------------------------------------------------------------

  /** A slot on the free list is held by nobody, a leased slot by exactly one lease, and every
      slot of the pool is accounted for. */
  lemma ExclusiveHolders(s: Pool, i: int)
    requires Inv(s) && 0 <= i < s.n
    ensures s.leases[i] <= 1
    ensures i in s.stack ==> s.leases[i] == 0 && s.refs[i] == 0 && i !in s.queue
    ensures i in s.leases ==> s.refs[i] == 0 && i !in s.queue && i !in s.stack
    ensures i in s.queue ==> s.refs[i] == 0 && i !in s.leases && i !in s.stack
  {
    hide ChainOk, HandPlaces, MemoriesOk, GripsOk;
  }

  predicate AllIdle(s: Pool)
  {
    forall t :: t in s.pcs ==> s.pcs[t].Idle?
  }

  lemma {:induction false} NoneTally(states: seq<SlotState>, kind: SlotState)
    requires forall i :: 0 <= i < |states| ==> states[i] != kind
    ensures Tally(states, {kind}) == 0
  {
    if states != [] {
      NoneTally(states[1..], kind);
    }
  }

  lemma {:induction false} TallySplits(states: seq<SlotState>)
    ensures Tally(states, BUSY) == Tally(states, {Leased}) + Tally(states, {Retained}) + Tally(states, {Queued})
    ensures |states| == Tally(states, {Free}) + Tally(states, BUSY)
  {
    if states != [] {
      assert states[0] == Free || states[0] in BUSY;
      TallySplits(states[1..]);
    }
  }

  /** A collection that holds each slot of one kind once, and nothing else, is as large as their number. */
  lemma {:induction false} TallyOf(states: seq<SlotState>, kind: SlotState, m: multiset<int>)
    requires forall i :: 0 <= i < |states| ==> m[i] == if states[i] == kind then 1 else 0
    requires forall i :: i in m ==> 0 <= i < |states|
    ensures Tally(states, {kind}) == |m|
    decreases |m|
  {
    hide Tally;
    if x :| x in m {
      var other := if kind == Free then Queued else Free;
      TallyUpdate(states, x, other, {kind});
      TallyOf(states[x := other], kind, m - multiset{x});
    } else {
      assert forall y: int :: m[y] == 0;
      assert m == multiset{};
      NoneTally(states, kind);
    }
  }

  lemma {:induction false} Once(xs: seq<int>, i: int)
    requires forall i, j :: 0 <= i < j < |xs| ==> xs[i] != xs[j]
    ensures multiset(xs)[i] == if i in xs then 1 else 0
  {
    if xs != [] {
      assert xs == [xs[0]] + xs[1..];
      Once(xs[1..], i);
    }
  }

  lemma ListTally(states: seq<SlotState>, kind: SlotState, xs: seq<int>)
    requires forall i, j :: 0 <= i < j < |xs| ==> xs[i] != xs[j]
    requires forall i :: 0 <= i < |states| ==> (i in xs <==> states[i] == kind)
    requires forall i :: 0 <= i < |xs| ==> 0 <= xs[i] < |states|
    ensures Tally(states, {kind}) == |xs|
  {
    hide Tally;
    forall i
      ensures multiset(xs)[i] == if i in xs then 1 else 0
    {
      Once(xs, i);
    }
    TallyOf(states, kind, multiset(xs));
  }

  lemma FreeTally(n: int, next: seq<int>, top: int, place: seq<Place>, states: seq<SlotState>, stack: seq<int>, pcs: map<int, Pc>)
    requires n == |place| && ChainOk(n, next, top, stack) && StackPlaces(place, stack) && StatePlaces(place, states)
    requires HandPlaces(place, pcs) && forall t :: t in pcs ==> pcs[t].Idle?
    ensures Tally(states, {Free}) == |stack|
  {
    hide Tally;
    forall i | 0 <= i < |states|
      ensures i in stack <==> states[i] == Free
    {
      assert place[i].OnStack? <==> i in stack;
      assert !place[i].InHand?;
    }
    ListTally(states, Free, stack);
  }

  lemma QueueTally(place: seq<Place>, states: seq<SlotState>, queue: seq<int>)
    requires QueuePlaces(place, queue) && StatePlaces(place, states)
    ensures Tally(states, {Queued}) == |queue|
  {
    hide Tally;
    forall i | 0 <= i < |states|
      ensures i in queue <==> states[i] == Queued
    {
      assert place[i].InQueue? <==> i in queue;
    }
    ListTally(states, Queued, queue);
  }

  lemma LeaseTally(place: seq<Place>, states: seq<SlotState>, leases: multiset<int>)
    requires LeasePlaces(place, leases) && StatePlaces(place, states)
    ensures Tally(states, {Leased}) == |leases|
  {
    hide Tally;
    TallyOf(states, Leased, leases);
  }

  lemma IdleCounts(pcs: map<int, Pc>)
    requires forall t :: t in pcs ==> pcs[t].Idle?
    ensures |Popping(pcs)| == |Pushing(pcs)| == 0
  {
    assert forall t :: t !in Popping(pcs) && t !in Pushing(pcs);
    assert Popping(pcs) == {} && Pushing(pcs) == {};
  }

  lemma IdleLock(place: seq<Place>, lock: Option<int>, pcs: map<int, Pc>)
    requires GripsOk(place, lock, pcs) && forall t :: t in pcs ==> pcs[t].Idle?
    ensures lock.None?
  {
    match lock
    case None =>
    case Some(t) => assert false;
  }

  /** Conservation at quiescence: free, leased, retained and queued slots add up to the pool,
      the lock is free, and the three counters are exact. */
  lemma Quiescence(s: Pool)
    requires Inv(s) && Counts(s) && AllIdle(s)
    ensures s.lock.None? && s.freeCount == |s.stack|
    ensures s.outstanding == |s.leases| + s.retained + |s.queue|
    ensures s.n == |s.stack| + s.outstanding
  {
    hide ChainOk, StackPlaces, LeasePlaces, QueuePlaces, RefPlaces, HandPlaces, StatePlaces, MemoriesOk, Tally, Popping, Pushing;
    LengthsOf(s);
    IdleLock(s.place, s.lock, s.pcs);
    IdleCounts(s.pcs);
    FreeTally(s.n, s.next, s.head.idx, s.place, s.states, s.stack, s.pcs);
    QueueTally(s.place, s.states, s.queue);
    LeaseTally(s.place, s.states, s.leases);
    TallySplits(s.states);
  }

  // ---------------------------------------------------------------------------------
  // Tag wrap.
  // ---------------------------------------------------------------------------------

  ghost predicate Reaches(s: Pool, trace: seq<(int, Action)>, d: Pool)
  {
    Legal(s, trace) && Final(s, trace) == d
  }

  lemma {:induction false} Chain(s: Pool, x: seq<(int, Action)>, d: Pool, y: seq<(int, Action)>, e: Pool)
    requires Reaches(s, x, d) && Reaches(d, y, e)
    ensures Reaches(s, x + y, e)
    decreases |x|
  {
    hide Enabled, Step, NoTagWrap;
    if x == [] {
      assert x + y == y;
    } else {
      Chain(Step(s, x[0].0, x[0].1), x[1..], d, y, e);
      assert (x + y)[1..] == x[1..] + y;
    }
  }

  /** One more step at the end of a run. */
  lemma Then(s: Pool, x: seq<(int, Action)>, d: Pool, t: int, a: Action)
    requires Reaches(s, x, d) && Enabled(d, t, a) && NoTagWrap(d, t)
    ensures Reaches(s, x + [(t, a)], Step(d, t, a))
  {
    hide Enabled, Step, NoTagWrap;
    var y := [(t, a)];
    assert y[0] == (t, a) && y[1..] == [];
    Start(Step(d, t, a));
    assert Legal(d, y);
    Chain(s, x, d, y, Step(d, t, a));
  }

  const GO: Action := Advance(false)

  /** A whole Allocate by t, undisturbed, on a non-empty list. */
  function PopTrace(t: int): (r: seq<(int, Action)>)
  {
    [(t, StartAllocate)] + [(t, GO)] + [(t, GO)] + [(t, GO)] + [(t, GO)] + [(t, GO)]
  }

  function Popped(s: Pool): (r: Pool)
    requires Holds(s, s.head.idx) && s.stack != []
  {
    var i := s.head.idx;
    s.(head := Head(s.head.tag + 1, s.next[i]), stack := s.stack[1..], place := s.place[i := InLease], freeCount := s.freeCount - 1,
       states := s.states[i := Leased], outstanding := s.outstanding + 1, leases := s.leases + multiset{i})
  }

  lemma PopRun(s: Pool, t: int)
    requires t in s.pcs && s.pcs[t].Idle? && !s.crashed && Holds(s, s.head.idx) && s.stack != []
    requires s.states[s.head.idx] == Free
    ensures Reaches(s, PopTrace(t), Popped(s))
  {
    hide Legal, Final, Reaches;
    var i, h := s.head.idx, s.head;
    var s1 := Goto(s, t, PopLoad(false));
    assert Step(s, t, StartAllocate) == s1;
    Start(s);
    Then(s, [], s, t, StartAllocate);
    assert [] + [(t, StartAllocate)] == [(t, StartAllocate)];
    var s2 := Goto(s, t, PopNext(false, h));
    assert Step(s1, t, GO) == s2;
    Then(s, [(t, StartAllocate)], s1, t, GO);
    var s3 := Goto(s, t, PopCas(false, h, s.next[i]));
    assert Step(s2, t, GO) == s3;
    Then(s, [(t, StartAllocate)] + [(t, GO)], s2, t, GO);
    var s4 := s.(head := Head(h.tag + 1, s.next[i]), stack := s.stack[1..], place := s.place[i := InHand(t)],
                 pcs := s.pcs[t := PopCount(false, i)]);
    assert Step(s3, t, GO) == s4;
    Then(s, [(t, StartAllocate)] + [(t, GO)] + [(t, GO)], s3, t, GO);
    var s5 := s4.(freeCount := s.freeCount - 1, pcs := s.pcs[t := Mark(i)]);
    assert Step(s4, t, GO) == s5;
    Then(s, [(t, StartAllocate)] + [(t, GO)] + [(t, GO)] + [(t, GO)], s4, t, GO);
    assert s.pcs[t := Idle] == s.pcs && s.place[i := InHand(t)][i := InLease] == s.place[i := InLease];
    assert Step(s5, t, GO) == Popped(s);
    Then(s, [(t, StartAllocate)] + [(t, GO)] + [(t, GO)] + [(t, GO)] + [(t, GO)], s5, t, GO);
  }

  lemma Start(s: Pool)
    ensures Reaches(s, [], s)
  {
  }

  /** The owner returns a lease, undisturbed. */
  function PushTrace(t: int, i: int): (r: seq<(int, Action)>)
  {
    [(t, ReturnLease(i))] + [(t, GO)] + [(t, GO)] + [(t, GO)] + [(t, GO)]
  }

  function Pushed(s: Pool, i: int): (r: Pool)
    requires Holds(s, i)
  {
    s.(head := Head(s.head.tag + 1, i), next := s.next[i := s.head.idx], stack := [i] + s.stack, place := s.place[i := OnStack],
       freeCount := s.freeCount + 1, states := s.states[i := Free], outstanding := s.outstanding - 1,
       leases := s.leases - multiset{i})
  }

  lemma PushRun(s: Pool, t: int, i: int)
    requires t in s.pcs && t == s.owner && s.pcs[t].Idle? && !s.crashed && Holds(s, i)
    requires i in s.leases && s.states[i] == Leased
    ensures Reaches(s, PushTrace(t, i), Pushed(s, i))
  {
    hide Legal, Final, Reaches;
    var h := s.head;
    var s1 := s.(leases := s.leases - multiset{i}, states := s.states[i := Free], outstanding := s.outstanding - 1,
                 place := s.place[i := InHand(t)], pcs := s.pcs[t := PushLoad(Return, i)]);
    assert Step(s, t, ReturnLease(i)) == s1;
    Start(s);
    Then(s, [], s, t, ReturnLease(i));
    assert [] + [(t, ReturnLease(i))] == [(t, ReturnLease(i))];
    var s2 := s1.(pcs := s.pcs[t := PushLink(Return, i, h)]);
    assert Step(s1, t, GO) == s2;
    Then(s, [(t, ReturnLease(i))], s1, t, GO);
    var s3 := s1.(next := s.next[i := h.idx], pcs := s.pcs[t := PushCas(Return, i, h)]);
    assert Step(s2, t, GO) == s3;
    Then(s, [(t, ReturnLease(i))] + [(t, GO)], s2, t, GO);
    var s4 := s3.(head := Head(h.tag + 1, i), stack := [i] + s.stack, place := s.place[i := OnStack],
                  pcs := s.pcs[t := PushCount(Return)]);
    assert s3.place[i := OnStack] == s4.place;
    assert Step(s3, t, GO) == s4;
    Then(s, [(t, ReturnLease(i))] + [(t, GO)] + [(t, GO)], s3, t, GO);
    assert s.pcs[t := Idle] == s.pcs;
    assert Step(s4, t, GO) == Pushed(s, i);
    Then(s, [(t, ReturnLease(i))] + [(t, GO)] + [(t, GO)] + [(t, GO)], s4, t, GO);
  }

  const OWNER: int := 0
  const SLEEPER: int := 7

  /** Three slots, two of them leased, the sleeper about to swap in what followed slot 0 at the start. */
  function Cycled(k: nat): (s: Pool)
  {
    Pool(3, OWNER, [3, 2, 3, 3], Head(4 + 2 * k, 0), 1, [Free, Leased, Leased], 2, 0, [0, 0, 0], [], None, multiset{1, 2},
         map[OWNER := Idle, SLEEPER := PopCas(false, Head(0, 0), 1)], false, [0], [OnStack, InLease, InLease])
  }

  function Cycles(k: nat): (r: seq<(int, Action)>)
  {
    if k == 0 then [] else Cycles(k - 1) + PopTrace(OWNER) + PushTrace(OWNER, 0)
  }

  /** All three slots leased. */
  function Drained(tag: int, link: int): (s: Pool)
  {
    Pool(3, OWNER, [link, 2, 3, 3], Head(tag, 3), 0, [Leased, Leased, Leased], 3, 0, [0, 0, 0], [], None, multiset{0, 1, 2},
         map[OWNER := Idle, SLEEPER := PopCas(false, Head(0, 0), 1)], false, [], [InLease, InLease, InLease])
  }

  lemma ReturnsZero(k: nat, link: int)
    ensures Reaches(Drained(3 + 2 * k, link), PushTrace(OWNER, 0), Cycled(k))
  {
    hide Reaches, PushTrace;
    var c, d := Drained(3 + 2 * k, link), Cycled(k);
    PushRun(c, OWNER, 0);
    assert c.next[0 := 3] == d.next && [0] + c.stack == d.stack && c.place[0 := OnStack] == d.place;
    assert c.states[0 := Free] == d.states && c.leases - multiset{0} == d.leases;
    assert Pushed(c, 0) == d;
  }

  lemma Cycle(k: nat)
    ensures Reaches(Cycled(k), PopTrace(OWNER) + PushTrace(OWNER, 0), Cycled(k + 1))
  {
    hide Reaches, PopTrace, PushTrace;
    var s, m := Cycled(k), Drained(5 + 2 * k, 3);
    PopRun(s, OWNER);
    assert s.stack[1..] == m.stack && s.place[0 := InLease] == m.place && s.states[0 := Leased] == m.states;
    assert s.leases + multiset{0} == m.leases;
    assert Popped(s) == m;
    ReturnsZero(k + 1, 3);
    Chain(s, PopTrace(OWNER), m, PushTrace(OWNER, 0), Cycled(k + 1));
  }

  lemma {:induction false} CyclesReach(k: nat)
    ensures Reaches(Cycled(0), Cycles(k), Cycled(k))
  {
    hide Reaches, PopTrace, PushTrace, Cycled;
    if k == 0 {
      Start(Cycled(0));
    } else {
      CyclesReach(k - 1);
      Cycle(k - 1);
      Chain(Cycled(0), Cycles(k - 1), Cycled(k - 1), PopTrace(OWNER) + PushTrace(OWNER, 0), Cycled(k));
      assert Cycles(k) == Cycles(k - 1) + (PopTrace(OWNER) + PushTrace(OWNER, 0));
    }
  }

  /** The sleeper loads the head and reads its successor. */
  function Asleep(): (s: Pool)
  {
    Pool(3, OWNER, [1, 2, 3, 3], Head(0, 0), 3, [Free, Free, Free], 0, 0, [0, 0, 0], [], None, multiset{},
         map[OWNER := Idle, SLEEPER := PopCas(false, Head(0, 0), 1)], false, [0, 1, 2], [OnStack, OnStack, OnStack])
  }

  lemma FallsAsleep()
    ensures Reaches(Initial(3, OWNER, {OWNER, SLEEPER}), [(SLEEPER, StartAllocate)] + [(SLEEPER, GO)] + [(SLEEPER, GO)], Asleep())
  {
    hide Reaches;
    var s, t := Initial(3, OWNER, {OWNER, SLEEPER}), SLEEPER;
    assert s == Asleep().(pcs := map[OWNER := Idle, SLEEPER := Idle]) by {
      assert s.next == [1, 2, 3, 3] && s.states == [Free, Free, Free] && s.refs == [0, 0, 0] && s.stack == [0, 1, 2];
      assert s.place == [OnStack, OnStack, OnStack] && s.pcs == map[OWNER := Idle, SLEEPER := Idle];
    }
    Start(s);
    var s1 := Goto(s, t, PopLoad(false));
    Then(s, [], s, t, StartAllocate);
    assert [] + [(t, StartAllocate)] == [(t, StartAllocate)];
    var s2 := Goto(s, t, PopNext(false, s.head));
    assert Step(s1, t, GO) == s2;
    Then(s, [(t, StartAllocate)], s1, t, GO);
    assert Step(s2, t, GO) == Asleep();
    Then(s, [(t, StartAllocate)] + [(t, GO)], s2, t, GO);
  }

  /** Meanwhile the owner empties the list. */
  lemma OwnerTakesThree()
    ensures Reaches(Asleep(), PopTrace(OWNER) + PopTrace(OWNER) + PopTrace(OWNER), Drained(3, 1))
  {
    hide Reaches, PopTrace;
    var s, p := Asleep(), PopTrace(OWNER);
    PopRun(s, OWNER);
    var a := Popped(s);
    assert a.stack == [1, 2] && a.place == [InLease, OnStack, OnStack] && a.states == [Leased, Free, Free];
    PopRun(a, OWNER);
    var b := Popped(a);
    assert b.stack == [2] && b.place == [InLease, InLease, OnStack] && b.states == [Leased, Leased, Free];
    PopRun(b, OWNER);
    var c := Popped(b);
    assert c.stack == [] && c.place == [InLease, InLease, InLease] && c.states == [Leased, Leased, Leased];
    assert c == Drained(3, 1);
    Chain(s, p, a, p, b);
    Chain(s, p + p, b, p, c);
  }

  /** And returns slot 0. */
  lemma OwnerTakesAll()
    ensures Reaches(Asleep(), PopTrace(OWNER) + PopTrace(OWNER) + PopTrace(OWNER) + PushTrace(OWNER, 0), Cycled(0))
  {
    hide Reaches, PopTrace, PushTrace, Cycled, Asleep;
    var p := PopTrace(OWNER);
    OwnerTakesThree();
    ReturnsZero(0, 1);
    Chain(Asleep(), p + p + p, Drained(3, 1), PushTrace(OWNER, 0), Cycled(0));
  }

  function WrapTrace(): (r: seq<(int, Action)>)
  {
    [(SLEEPER, StartAllocate)] + [(SLEEPER, GO)] + [(SLEEPER, GO)] +
    (PopTrace(OWNER) + PopTrace(OWNER) + PopTrace(OWNER) + PushTrace(OWNER, 0)) + Cycles(TAG_SPACE / 2 - 2)
  }

  /** The tag is what keeps the list right. From a new pool a legal run leads to a state in which
      a thread that slept through a whole tag space swaps in a stale successor: the list then
      starts with a slot that is leased. */
  lemma TagWrapBreaks()
    ensures var s := Initial(3, OWNER, {OWNER, SLEEPER});
            Legal(s, WrapTrace()) &&
            var d := Final(s, WrapTrace());
            && Inv(d) && Enabled(d, SLEEPER, GO) && StaleSwap(d, SLEEPER, GO)
            && var e := Step(d, SLEEPER, GO); !Inv(e) && e.head.idx == 1 && 1 in e.leases && e.states[1] == Leased
  {
    hide PopTrace, PushTrace, Cycles, Inv, Initial, Legal, Final;
    var s, k := Initial(3, OWNER, {OWNER, SLEEPER}), TAG_SPACE / 2 - 2;
    var x := [(SLEEPER, StartAllocate)] + [(SLEEPER, GO)] + [(SLEEPER, GO)];
    var y := PopTrace(OWNER) + PopTrace(OWNER) + PopTrace(OWNER) + PushTrace(OWNER, 0);
    FallsAsleep();
    OwnerTakesAll();
    Chain(s, x, Asleep(), y, Cycled(0));
    CyclesReach(k);
    Chain(s, x + y, Cycled(0), Cycles(k), Cycled(k));
    InitialOk(3, OWNER, {OWNER, SLEEPER});
    RunSafe(s, WrapTrace());
    StepKeepsInv(Cycled(k), SLEEPER, GO);
  }
}
