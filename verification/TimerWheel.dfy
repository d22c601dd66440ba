/** The timer wheel: a hashed wheel of lists that refines a map from timer id to deadline. */
module TimerWheel {
  import opened Prelude

  /** `callback` names what the timer runs. */
  datatype Entry = Entry(id: int, deadline: int, callback: int)

  function SlotOf(deadline: int, n: nat): (r: nat)
    requires n > 0
    ensures r < n
  {
    deadline % n
  }

  // ---------------------------------------------------------------------------------
  // Lists.
  // ---------------------------------------------------------------------------------

  function Due(list: seq<Entry>, now: int): (r: seq<Entry>)
  {
    if list == [] then [] else
      var rest := Due(list[..|list| - 1], now);
      if list[|list| - 1].deadline <= now then rest + [list[|list| - 1]] else rest
  }

  function Keep(list: seq<Entry>, now: int): (r: seq<Entry>)
  {
    if list == [] then [] else
      var rest := Keep(list[..|list| - 1], now);
      if list[|list| - 1].deadline <= now then rest else rest + [list[|list| - 1]]
  }

  /** All that is due, slot by slot. */
  function DueAll(slots: seq<seq<Entry>>, now: int): (r: seq<Entry>)
  {
    if slots == [] then [] else DueAll(slots[..|slots| - 1], now) + Due(slots[|slots| - 1], now)
  }

  function KeepAll(slots: seq<seq<Entry>>, now: int): (r: seq<seq<Entry>>)
    ensures |r| == |slots|
  {
    if slots == [] then [] else KeepAll(slots[..|slots| - 1], now) + [Keep(slots[|slots| - 1], now)]
  }

  ghost function Bag(slots: seq<seq<Entry>>): (r: multiset<Entry>)
  {
    if slots == [] then multiset{} else Bag(slots[..|slots| - 1]) + multiset(slots[|slots| - 1])
  }

  lemma {:induction false} SplitMembers(list: seq<Entry>, now: int)
    ensures multiset(list) == multiset(Due(list, now)) + multiset(Keep(list, now))
    ensures forall e :: e in Due(list, now) <==> e in list && e.deadline <= now
    ensures forall e :: e in Keep(list, now) <==> e in list && e.deadline > now
  {
    if list != [] {
      var front, last := list[..|list| - 1], list[|list| - 1];
      assert list == front + [last];
      SplitMembers(front, now);
    }
  }

  lemma {:induction false} SplitBag(slots: seq<seq<Entry>>, now: int)
    ensures Bag(slots) == multiset(DueAll(slots, now)) + Bag(KeepAll(slots, now))
  {
    if slots != [] {
      var front, last := slots[..|slots| - 1], slots[|slots| - 1];
      SplitBag(front, now);
      SplitMembers(last, now);
      var kept := KeepAll(slots, now);
      assert kept[..|kept| - 1] == KeepAll(front, now) && kept[|kept| - 1] == Keep(last, now);
    }
  }

  lemma {:induction false} KeepAllAt(slots: seq<seq<Entry>>, now: int, k: nat)
    requires k < |slots|
    ensures KeepAll(slots, now)[k] == Keep(slots[k], now)
  {
    if k < |slots| - 1 {
      KeepAllAt(slots[..|slots| - 1], now, k);
    }
  }

  lemma {:induction false} DueAllMembers(slots: seq<seq<Entry>>, now: int, e: Entry)
    ensures e in DueAll(slots, now) <==> exists k :: 0 <= k < |slots| && e in slots[k] && e.deadline <= now
  {
    if slots != [] {
      var front, last := slots[..|slots| - 1], slots[|slots| - 1];
      DueAllMembers(front, now, e);
      SplitMembers(last, now);
      assert forall k :: 0 <= k < |front| ==> front[k] == slots[k];
      if e in last && e.deadline <= now {
        assert e in slots[|slots| - 1];
      }
    }
  }

  lemma {:induction false} BagUpdate(slots: seq<seq<Entry>>, k: nat, list: seq<Entry>)
    requires k < |slots|
    ensures Bag(slots[k := list]) + multiset(slots[k]) == Bag(slots) + multiset(list)
  {
    var n := |slots| - 1;
    if k == n {
      assert slots[k := list][..n] == slots[..n];
    } else {
      assert slots[k := list][..n] == slots[..n][k := list] && slots[k := list][n] == slots[n];
      BagUpdate(slots[..n], k, list);
      assert slots[..n][k] == slots[k];
      Regroup(Bag(slots[..n][k := list]), Bag(slots[..n]), multiset(slots[n]), multiset(slots[k]), multiset(list));
    }
  }

  lemma Regroup(after: multiset<Entry>, before: multiset<Entry>, last: multiset<Entry>, f: multiset<Entry>, g: multiset<Entry>)
    requires after + f == before + g
    ensures after + last + f == before + last + g
  {
    assert after + last + f == (after + f) + last && before + last + g == (before + g) + last;
  }

  // ---------------------------------------------------------------------------------
  // The representation.
  // ---------------------------------------------------------------------------------

  ghost predicate DistinctIds(list: seq<Entry>)
  {
    forall i, j :: 0 <= i < j < |list| ==> list[i].id != list[j].id
  }

  /** Every entry of slot k is a pending timer hashed to k. */
  ghost predicate ListOk(list: seq<Entry>, k: int, n: nat, timers: map<int, Entry>)
    requires n > 0
  {
    && DistinctIds(list)
    && forall e :: e in list ==> e.id in timers && timers[e.id] == e && SlotOf(e.deadline, n) == k
  }

  ghost predicate WheelOk(slots: seq<seq<Entry>>, n: nat, timers: map<int, Entry>)
  {
    && 0 < n == |slots|
    && (forall k :: 0 <= k < n ==> ListOk(slots[k], k, n, timers))
    && (forall id :: id in timers ==> timers[id].id == id && timers[id] in slots[SlotOf(timers[id].deadline, n)])
  }

  ghost predicate IndexOk(byId: map<int, nat>, n: nat, timers: map<int, Entry>)
  {
    n > 0 && byId.Keys == timers.Keys && forall id :: id in timers ==> byId[id] == SlotOf(timers[id].deadline, n)
  }

  /** Pending timers lie ahead of the cursor and carry proper ids. */
  ghost predicate AheadOk(timers: map<int, Entry>, cursor: int)
  {
    forall id :: id in timers ==> cursor < timers[id].deadline <= U64_MAX && 1 <= id <= U64_MAX
  }

  function Without(timers: map<int, Entry>, now: int): (r: map<int, Entry>)
  {
    map id | id in timers && timers[id].deadline > now :: timers[id]
  }

  lemma ListAppends(list: seq<Entry>, k: int, n: nat, timers: map<int, Entry>, e: Entry)
    requires n > 0 && ListOk(list, k, n, timers) && e.id !in timers && SlotOf(e.deadline, n) == k
    ensures ListOk(list + [e], k, n, timers[e.id := e])
  {
    hide SlotOf;
  }

  lemma OtherList(list: seq<Entry>, k: int, n: nat, timers: map<int, Entry>, e: Entry)
    requires n > 0 && ListOk(list, k, n, timers) && e.id !in timers
    ensures ListOk(list, k, n, timers[e.id := e])
  {
    hide SlotOf;
  }

  lemma WheelAdds(slots: seq<seq<Entry>>, n: nat, timers: map<int, Entry>, e: Entry)
    requires WheelOk(slots, n, timers) && e.id !in timers
    ensures var k := SlotOf(e.deadline, n); WheelOk(slots[k := slots[k] + [e]], n, timers[e.id := e])
  {
    hide SlotOf, ListOk;
    var k := SlotOf(e.deadline, n);
    var after := slots[k := slots[k] + [e]];
    forall j | 0 <= j < n
      ensures ListOk(after[j], j, n, timers[e.id := e])
    {
      if j == k {
        ListAppends(slots[k], k, n, timers, e);
      } else {
        OtherList(slots[j], j, n, timers, e);
      }
    }
  }

  /** Where the entry with this id stands in a list. */
  function Find(list: seq<Entry>, id: int): (r: nat)
    requires exists e :: e in list && e.id == id
    ensures r < |list| && list[r].id == id
  {
    if list[0].id == id then 0 else 1 + Find(list[1..], id)
  }

  function Erase(list: seq<Entry>, at: nat): (r: seq<Entry>)
    requires at < |list|
  {
    list[..at] + list[at + 1..]
  }

  lemma EraseMembers(list: seq<Entry>, at: nat)
    requires DistinctIds(list) && at < |list|
    ensures DistinctIds(Erase(list, at)) && multiset(list) == multiset(Erase(list, at)) + multiset{list[at]}
    ensures forall e :: e in Erase(list, at) <==> e in list && e.id != list[at].id
  {
    assert list == list[..at] + [list[at]] + list[at + 1..];
    var r := Erase(list, at);
    assert forall i :: 0 <= i < |r| ==> r[i] == list[if i < at then i else i + 1];
    EraseIn(list, at);
    hide Erase;
  }

  lemma EraseIn(list: seq<Entry>, at: nat)
    requires DistinctIds(list) && at < |list|
    ensures forall e :: e in Erase(list, at) <==> e in list && e.id != list[at].id
  {
    forall e | e in list && e.id != list[at].id
      ensures e in Erase(list, at)
    {
      var i :| 0 <= i < |list| && list[i] == e;
      assert i < at ==> Erase(list, at)[i] == e;
      assert i > at ==> Erase(list, at)[i - 1] == e;
    }
    forall e | e in Erase(list, at)
      ensures e in list && e.id != list[at].id
    {
      var i :| 0 <= i < |list| - 1 && Erase(list, at)[i] == e;
      assert e == list[if i < at then i else i + 1];
    }
  }

  lemma WheelRemoves(slots: seq<seq<Entry>>, n: nat, timers: map<int, Entry>, id: int, at: nat)
    requires WheelOk(slots, n, timers) && id in timers
    requires var k := SlotOf(timers[id].deadline, n); at < |slots[k]| && slots[k][at].id == id
    ensures var k := SlotOf(timers[id].deadline, n);
            slots[k][at] == timers[id] && WheelOk(slots[k := Erase(slots[k], at)], n, timers - {id})
  {
    hide SlotOf, Erase;
    var k := SlotOf(timers[id].deadline, n);
    assert ListOk(slots[k], k, n, timers) && slots[k][at] in slots[k];
    EraseMembers(slots[k], at);
    var after, left := slots[k := Erase(slots[k], at)], timers - {id};
    forall j | 0 <= j < n
      ensures ListOk(after[j], j, n, left)
    {
      assert ListOk(slots[j], j, n, timers);
    }
  }

  lemma {:induction false} KeepDistinct(list: seq<Entry>, now: int)
    requires DistinctIds(list)
    ensures DistinctIds(Keep(list, now)) && DistinctIds(Due(list, now))
  {
    if list != [] {
      var front, last := list[..|list| - 1], list[|list| - 1];
      KeepDistinct(front, now);
      SplitMembers(front, now);
      forall i | 0 <= i < |Keep(front, now)|
        ensures Keep(front, now)[i].id != last.id
      {
        assert Keep(front, now)[i] in front;
      }
      forall i | 0 <= i < |Due(front, now)|
        ensures Due(front, now)[i].id != last.id
      {
        assert Due(front, now)[i] in front;
      }
    }
  }

  lemma WheelSwept(slots: seq<seq<Entry>>, n: nat, timers: map<int, Entry>, now: int)
    requires WheelOk(slots, n, timers)
    ensures WheelOk(KeepAll(slots, now), n, Without(timers, now))
  {
    hide SlotOf, Keep, KeepAll;
    var after, left := KeepAll(slots, now), Without(timers, now);
    forall k | 0 <= k < n
      ensures ListOk(after[k], k, n, left)
    {
      KeepAllAt(slots, now, k);
      assert ListOk(slots[k], k, n, timers);
      SplitMembers(slots[k], now);
      KeepDistinct(slots[k], now);
    }
    forall id | id in left
      ensures left[id] in after[SlotOf(left[id].deadline, n)]
    {
      var k := SlotOf(left[id].deadline, n);
      KeepAllAt(slots, now, k);
      SplitMembers(slots[k], now);
    }
  }

  // ---------------------------------------------------------------------------------
  // The sweep of AdvanceTo.
  // ---------------------------------------------------------------------------------

  ghost function Ids(list: seq<Entry>): (r: set<int>)
  {
    set e | e in list :: e.id
  }

  /** One slot: due entries leave the list and the index. */
  method SweepList(list: seq<Entry>, now: int, byId: map<int, nat>, pending: int)
    returns (kept: seq<Entry>, due: seq<Entry>, index: map<int, nat>, count: int)
    requires DistinctIds(list) && pending == |byId| && forall e :: e in list ==> e.id in byId
    ensures kept == Keep(list, now) && due == Due(list, now)
    ensures index == byId - Ids(due) && count == |index|
  {
    hide Keep, Due, Ids;
    kept, due, index, count := [], [], byId, pending;
    SweepStart(list, now, byId);
    for i := 0 to |list|
      invariant kept == Keep(list[..i], now) && due == Due(list[..i], now)
      invariant index == byId - Ids(due) && count == |index|
    {
      SweepNext(list, now, i);
      var e := list[i];
      assert e in list;
      if e.deadline <= now {
        IdsGrow(byId, due, e);
        Shrinks(index, e.id);
        index := index - {e.id};
        due := due + [e];
        count := count - 1;
      } else {
        kept := kept + [e];
      }
    }
    assert list[..|list|] == list;
  }

  lemma Shrinks(m: map<int, nat>, id: int)
    requires id in m
    ensures |m - {id}| == |m| - 1
  {
    assert (m - {id}).Keys == m.Keys - {id};
    assert |m| == |m.Keys| && |m - {id}| == |(m - {id}).Keys|;
  }

  lemma IdsGrow(byId: map<int, nat>, due: seq<Entry>, e: Entry)
    requires e.id in byId && e.id !in Ids(due)
    ensures e.id in byId - Ids(due) && byId - Ids(due) - {e.id} == byId - Ids(due + [e])
  {
    forall id
      ensures id in Ids(due + [e]) <==> id in Ids(due) || id == e.id
    {
      if id in Ids(due) {
        var d :| d in due && d.id == id;
        assert d in due + [e];
      }
      assert e in due + [e];
    }
    assert Ids(due + [e]) == Ids(due) + {e.id};
  }

  lemma SweepStart(list: seq<Entry>, now: int, byId: map<int, nat>)
    ensures Keep(list[..0], now) == [] && Due(list[..0], now) == [] && byId - Ids([]) == byId
  {
  }

  lemma SweepNext(list: seq<Entry>, now: int, i: nat)
    requires i < |list| && DistinctIds(list)
    ensures Keep(list[..i + 1], now) == if list[i].deadline <= now then Keep(list[..i], now) else Keep(list[..i], now) + [list[i]]
    ensures Due(list[..i + 1], now) == if list[i].deadline <= now then Due(list[..i], now) + [list[i]] else Due(list[..i], now)
    ensures list[i].id !in Ids(Due(list[..i], now))
  {
    assert list[..i + 1][..i] == list[..i];
    SplitMembers(list[..i], now);
    forall e | e in Due(list[..i], now)
      ensures e.id != list[i].id
    {
      assert e in list[..i];
    }
  }

  /** The index after the slots before k have been swept. */
  ghost predicate PartSwept(index: map<int, nat>, n: nat, timers: map<int, Entry>, now: int, k: int)
  {
    n > 0 &&
    (forall id :: id in index <==> id in timers && (timers[id].deadline > now || SlotOf(timers[id].deadline, n) >= k)) &&
    (forall id :: id in index ==> index[id] == SlotOf(timers[id].deadline, n))
  }

  lemma SlotSwept(slots: seq<seq<Entry>>, n: nat, timers: map<int, Entry>, now: int, k: nat, index: map<int, nat>)
    requires WheelOk(slots, n, timers) && k < n && PartSwept(index, n, timers, now, k)
    ensures forall e :: e in slots[k] ==> e.id in index
    ensures PartSwept(index - Ids(Due(slots[k], now)), n, timers, now, k + 1)
  {
    hide SlotOf, Due, Keep;
    assert ListOk(slots[k], k, n, timers);
    SplitMembers(slots[k], now);
    var gone := Ids(Due(slots[k], now));
    forall id | id in timers
      ensures id in gone <==> timers[id].deadline <= now && SlotOf(timers[id].deadline, n) == k
    {
      if timers[id].deadline <= now && SlotOf(timers[id].deadline, n) == k {
        assert timers[id] in Due(slots[k], now);
      }
      if id in gone {
        var e :| e in Due(slots[k], now) && e.id == id;
        assert e in slots[k];
      }
    }
  }

  /** The whole wheel: what is due, slot by slot, and what stays. */
  method Sweep(slots: seq<seq<Entry>>, now: int, byId: map<int, nat>, pending: int, ghost n: nat, ghost timers: map<int, Entry>)
    returns (kept: seq<seq<Entry>>, due: seq<Entry>, index: map<int, nat>, count: int)
    requires WheelOk(slots, n, timers) && IndexOk(byId, n, timers) && pending == |byId|
    ensures kept == KeepAll(slots, now) && due == DueAll(slots, now)
    ensures IndexOk(index, n, Without(timers, now)) && count == |index|
  {
    hide SlotOf, KeepAll, DueAll, ListOk;
    kept, due, index, count := [], [], byId, pending;
    AllStart(slots, now);
    for k := 0 to |slots|
      invariant kept == KeepAll(slots[..k], now) && due == DueAll(slots[..k], now)
      invariant PartSwept(index, n, timers, now, k) && count == |index|
    {
      SlotSwept(slots, n, timers, now, k, index);
      assert DistinctIds(slots[k]) by { DistinctAt(slots, n, timers, k); }
      var list, more;
      list, more, index, count := SweepList(slots[k], now, index, count);
      AllNext(slots, now, k);
      kept := kept + [list];
      due := due + more;
    }
    assert slots[..|slots|] == slots;
    FullySwept(index, n, timers, now);
  }

  lemma FullySwept(index: map<int, nat>, n: nat, timers: map<int, Entry>, now: int)
    requires PartSwept(index, n, timers, now, n)
    ensures IndexOk(index, n, Without(timers, now))
  {
    hide SlotOf;
    forall id
      ensures id in index.Keys <==> id in Without(timers, now).Keys
    {
      assert id in timers ==> SlotOf(timers[id].deadline, n) < n;
    }
  }

  lemma AllStart(slots: seq<seq<Entry>>, now: int)
    ensures KeepAll(slots[..0], now) == [] && DueAll(slots[..0], now) == []
  {
  }

  lemma AllNext(slots: seq<seq<Entry>>, now: int, k: nat)
    requires k < |slots|
    ensures KeepAll(slots[..k + 1], now) == KeepAll(slots[..k], now) + [Keep(slots[k], now)]
    ensures DueAll(slots[..k + 1], now) == DueAll(slots[..k], now) + Due(slots[k], now)
  {
    assert slots[..k + 1][..k] == slots[..k];
  }

  // ---------------------------------------------------------------------------------
  // Fresh ids.
  // ---------------------------------------------------------------------------------

  /** Ids run from 1 to 2^64 - 1 and start over. */
  function NextId(id: int): (r: int)
  {
    if id >= U64_MAX then 1 else id + 1
  }

  /** Steps from id to goal along that cycle. */
  function Ahead(id: int, goal: int): (r: int)
  {
    if id <= goal then goal - id else goal - id + U64_MAX
  }

  lemma {:induction false} SomeFree(keys: set<int>, top: nat)
    requires |keys| < top && forall k :: k in keys ==> 1 <= k <= top
    ensures exists f :: 1 <= f <= top && f !in keys
    decreases top
  {
    if top in keys {
      var fewer := keys - {top};
      SomeFree(fewer, top - 1);
      var f :| 1 <= f <= top - 1 && f !in fewer;
      assert f !in keys;
    }
  }

  // ---------------------------------------------------------------------------------
  // The wheel.
  // ---------------------------------------------------------------------------------

  /** What a callback may do to the wheel. */
  datatype Op = ScheduleOp(deadline: nat, callback: int) | CancelOp(id: int)

  /** Every timer ever scheduled, by fate. */
  datatype Fates = Fates(scheduled: multiset<Entry>, cancelled: multiset<Entry>, fired: multiset<Entry>)

  // ---------------------------------------------------------------------------------
  // What happened to the wheel.
  // ---------------------------------------------------------------------------------

  datatype Happening = Scheduled(e: Entry) | Cancelled(e: Entry) | Advanced(now: int, fired: seq<Entry>) | Nothing

  function Applied(timers: map<int, Entry>, h: Happening): (r: map<int, Entry>)
  {
    match h
    case Scheduled(e) => timers[e.id := e]
    case Cancelled(e) => timers - {e.id}
    case Advanced(now, _) => Without(timers, now)
    case Nothing => timers
  }

  /** The abstract wheel: the pending timers by id. */
  function Play(log: seq<Happening>): (timers: map<int, Entry>)
  {
    if log == [] then map[] else Applied(Play(log[..|log| - 1]), log[|log| - 1])
  }

  function Clock(log: seq<Happening>): (cursor: int)
  {
    if log == [] then 0
    else if log[|log| - 1].Advanced? then log[|log| - 1].now
    else Clock(log[..|log| - 1])
  }

  function Counted(f: Fates, h: Happening): (r: Fates)
  {
    match h
    case Scheduled(e) => f.(scheduled := f.scheduled + multiset{e})
    case Cancelled(e) => f.(cancelled := f.cancelled + multiset{e})
    case Advanced(_, fired) => f.(fired := f.fired + multiset(fired))
    case Nothing => f
  }

  /** Every timer of the log, by fate. */
  function FatesOf(log: seq<Happening>): (r: Fates)
  {
    if log == [] then Fates(multiset{}, multiset{}, multiset{}) else Counted(FatesOf(log[..|log| - 1]), log[|log| - 1])
  }

  /** New timers have unused ids and lie ahead; only pending timers are cancelled; an advance fires
      each pending timer that is due, once. */
  ghost predicate Happens(timers: map<int, Entry>, cursor: int, h: Happening)
  {
    match h
    case Scheduled(e) => e.id !in timers && e.deadline > cursor
    case Cancelled(e) => e.id in timers && timers[e.id] == e
    case Advanced(now, fired) => now > cursor && AreDue(fired, timers, now) && DistinctIds(fired)
    case Nothing => true
  }

  ghost predicate LogOk(log: seq<Happening>)
  {
    forall i :: 0 <= i < |log| ==> Happens(Play(log[..i]), Clock(log[..i]), log[i])
  }

  lemma LogGrows(log: seq<Happening>, h: Happening)
    requires LogOk(log) && Happens(Play(log), Clock(log), h)
    ensures LogOk(log + [h])
    ensures Play(log + [h]) == Applied(Play(log), h)
    ensures Clock(log + [h]) == if h.Advanced? then h.now else Clock(log)
    ensures FatesOf(log + [h]) == Counted(FatesOf(log), h)
  {
    hide Happens;
    var grown := log + [h];
    assert grown[..|log|] == log;
    forall i | 0 <= i < |grown|
      ensures Happens(Play(grown[..i]), Clock(grown[..i]), grown[i])
    {
      if i < |log| {
        assert grown[..i] == log[..i] && grown[i] == log[i];
      }
    }
  }

  /** The ghost account of the wheel is its history. */
  ghost predicate Recorded(log: seq<Happening>, timers: map<int, Entry>, cursor: int, fates: Fates)
  {
    LogOk(log) && timers == Play(log) && cursor == Clock(log) && fates == FatesOf(log)
  }

  lemma LogSchedules(log: seq<Happening>, timers: map<int, Entry>, cursor: int, fates: Fates, e: Entry)
    requires Recorded(log, timers, cursor, fates) && e.id !in timers && e.deadline > cursor
    ensures Recorded(log + [Scheduled(e)], timers[e.id := e], cursor, fates.(scheduled := fates.scheduled + multiset{e}))
  {
    hide LogOk, Play, Clock, FatesOf;
    LogGrows(log, Scheduled(e));
  }

  lemma LogCancels(log: seq<Happening>, timers: map<int, Entry>, cursor: int, fates: Fates, id: int)
    requires Recorded(log, timers, cursor, fates) && id in timers
    ensures timers[id].id == id
    ensures Recorded(log + [Cancelled(timers[id])], timers - {id}, cursor,
                     fates.(cancelled := fates.cancelled + multiset{timers[id]}))
  {
    PlayIds(log);
    hide LogOk, Play, Clock, FatesOf;
    LogGrows(log, Cancelled(timers[id]));
  }

  lemma LogAdvances(log: seq<Happening>, timers: map<int, Entry>, cursor: int, fates: Fates, now: int, fired: seq<Entry>)
    requires Recorded(log, timers, cursor, fates) && now > cursor && AreDue(fired, timers, now) && DistinctIds(fired)
    ensures Recorded(log + [Advanced(now, fired)], Without(timers, now), now, fates.(fired := fates.fired + multiset(fired)))
  {
    hide LogOk, Play, Clock, AreDue, DistinctIds, Without, FatesOf;
    LogGrows(log, Advanced(now, fired));
  }

  lemma LogIdles(log: seq<Happening>, timers: map<int, Entry>, cursor: int, fates: Fates)
    requires Recorded(log, timers, cursor, fates)
    ensures Recorded(log + [Nothing], timers, cursor, fates)
  {
    hide LogOk, Play, Clock, FatesOf;
    LogGrows(log, Nothing);
  }

  /** What one operation does to the wheel. */
  ghost predicate Did(timers: map<int, Entry>, cursor: int, op: Op, h: Happening)
  {
    match op
    case ScheduleOp(deadline, callback) =>
      if deadline <= cursor && cursor == U64_MAX then h.Nothing?
      else h.Scheduled? && h.e == Entry(h.e.id, if deadline <= cursor then cursor + 1 else deadline, callback)
    case CancelOp(id) => h == if id in timers then Cancelled(timers[id]) else Nothing
  }

  ghost predicate Follows(log: seq<Happening>, cursor: int, ops: seq<Op>, done: seq<Happening>)
  {
    |done| == |ops| && forall i :: 0 <= i < |ops| ==> Did(Play(log + done[..i]), cursor, ops[i], done[i])
  }

  lemma FollowsConcat(log: seq<Happening>, cursor: int, a: seq<Op>, x: seq<Happening>, b: seq<Op>, y: seq<Happening>)
    requires Follows(log, cursor, a, x) && Follows(log + x, cursor, b, y)
    ensures Follows(log, cursor, a + b, x + y)
  {
    hide Did, Play;
    forall i | 0 <= i < |a + b|
      ensures Did(Play(log + (x + y)[..i]), cursor, (a + b)[i], (x + y)[i])
    {
      if i < |a| {
        assert (x + y)[..i] == x[..i];
      } else {
        assert log + (x + y)[..i] == log + x + y[..i - |a|];
      }
    }
  }

  lemma FollowsOne(log: seq<Happening>, cursor: int, op: Op, h: Happening)
    requires Did(Play(log), cursor, op, h)
    ensures Follows(log, cursor, [op], [h])
  {
    hide Did, Play;
    assert log + [h][..0] == log;
  }

  /** The operations of the first n callbacks, in order. */
  function AllOps(reactions: nat -> seq<Op>, n: nat): (r: seq<Op>)
  {
    if n == 0 then [] else AllOps(reactions, n - 1) + reactions(n - 1)
  }

  /** The happening takes e off the wheel. */
  predicate Ends(h: Happening, e: Entry)
  {
    h == Cancelled(e) || (h.Advanced? && e.deadline <= h.now)
  }

  /** e was scheduled at i; up to j nobody cancelled it and no advance reached its deadline. */
  ghost predicate Waits(log: seq<Happening>, i: int, j: int, e: Entry)
  {
    0 <= i < j <= |log| && log[i] == Scheduled(e) && forall k :: i < k < j ==> !Ends(log[k], e)
  }

  predicate IsPending(timers: map<int, Entry>, e: Entry)
  {
    e.id in timers && timers[e.id] == e
  }

  lemma WaitsEarlier(log: seq<Happening>, i: int, j: int, m: int, e: Entry)
    requires 0 <= m <= |log| && j <= m
    ensures Waits(log, i, j, e) <==> Waits(log[..m], i, j, e)
  {
    hide Ends;
    if 0 <= i < j {
      assert forall k :: i <= k < j ==> log[..m][k] == log[k];
    }
  }

  /** A timer is on the wheel exactly if it was scheduled and has since been neither cancelled nor reached. */
  lemma {:induction false} PendingLaw(log: seq<Happening>, e: Entry)
    requires LogOk(log)
    ensures IsPending(Play(log), e) <==> exists i :: Waits(log, i, |log|, e)
  {
    if log != [] {
      var n := |log| - 1;
      var before, h := log[..n], log[n];
      assert LogOk(before) by { LogShorter(log, n); }
      PendingLaw(before, e);
      assert Happens(Play(before), Clock(before), h);
      if IsPending(Play(before), e) {
        var i :| Waits(before, i, n, e);
        WaitsEarlier(log, i, n, n, e);
        assert !Ends(h, e) ==> Waits(log, i, n + 1, e);
      }
      if h == Scheduled(e) {
        assert Waits(log, n, n + 1, e);
      }
      if exists i :: Waits(log, i, |log|, e) {
        var i :| Waits(log, i, |log|, e);
        if i < n {
          assert Waits(log, i, n, e);
          WaitsEarlier(log, i, n, n, e);
        }
      }
      EndsPending(Play(before), Clock(before), h, e);
    }
  }

  lemma EndsPending(timers: map<int, Entry>, cursor: int, h: Happening, e: Entry)
    requires Happens(timers, cursor, h)
    ensures IsPending(Applied(timers, h), e) <==> h == Scheduled(e) || (IsPending(timers, e) && !Ends(h, e))
  {
  }

  lemma LogShorter(log: seq<Happening>, n: nat)
    requires LogOk(log) && n <= |log|
    ensures LogOk(log[..n])
  {
    hide Happens;
    forall i | 0 <= i < n
      ensures Happens(Play(log[..n][..i]), Clock(log[..n][..i]), log[..n][i])
    {
      assert log[..n][..i] == log[..i];
    }
  }

  /** A timer fires at an advance exactly if that advance is the first to reach its deadline and no
      cancel came before; and then it fires once. */
  lemma FiresOnce(log: seq<Happening>, j: nat, e: Entry)
    requires LogOk(log) && j < |log| && log[j].Advanced?
    ensures e in log[j].fired <==> e.deadline <= log[j].now && exists i :: Waits(log, i, j, e)
    ensures multiset(log[j].fired)[e] <= 1
  {
    LogShorter(log, j);
    PendingLaw(log[..j], e);
    assert Happens(Play(log[..j]), Clock(log[..j]), log[j]);
    OnceIn(log[j].fired, e);
    forall i
      ensures Waits(log, i, j, e) <==> Waits(log[..j], i, j, e)
    {
      WaitsEarlier(log, i, j, j, e);
    }
  }

  lemma {:induction false} OnceIn(list: seq<Entry>, e: Entry)
    requires DistinctIds(list)
    ensures multiset(list)[e] == if e in list then 1 else 0
  {
    if list != [] {
      var front, last := list[..|list| - 1], list[|list| - 1];
      assert list == front + [last];
      OnceIn(front, e);
      assert forall k :: 0 <= k < |front| ==> front[k] == list[k] && front[k].id != last.id;
    }
  }

  class Wheel {
    const slotCount: nat
    var slots: seq<seq<Entry>>
    var byId: map<int, nat>
    var nextId: int
    var cursor: int
    var pending: int
    ghost var timers: map<int, Entry>
    ghost var fates: Fates
    ghost var log: seq<Happening>

    ghost predicate Valid()
      reads this
    {
      && WheelOk(slots, slotCount, timers) && IndexOk(byId, slotCount, timers) && AheadOk(timers, cursor)
      && pending == |byId| && 1 <= nextId <= U64_MAX && 0 <= cursor <= U64_MAX
      && fates.scheduled == fates.cancelled + fates.fired + Bag(slots)
      && Recorded(log, timers, cursor, fates)
    }

    constructor (wanted: nat)
      ensures Valid() && timers == map[] && cursor == 0 && log == []
    {
      slotCount := if wanted == 0 then 1 else wanted;
      slots := seq(if wanted == 0 then 1 else wanted, _ => []);
      byId, nextId, cursor, pending := map[], 1, 0, 0;
      timers, fates, log := map[], Fates(multiset{}, multiset{}, multiset{}), [];
      new;
      EmptyBag(slots);
    }

    /** An id no pending timer has; wrap-around included. */
    method FreshId() returns (id: int)
      requires Valid() && |timers| < U64_MAX
      modifies this`nextId
      ensures Valid() && id !in timers && 1 <= id <= U64_MAX
    {
      hide WheelOk, Bag, Recorded;
      assert exists f :: 1 <= f <= U64_MAX && f !in timers.Keys by {
        assert |timers| == |timers.Keys|;
        SomeFree(timers.Keys, U64_MAX);
      }
      ghost var f :| 1 <= f <= U64_MAX && f !in timers.Keys;
      id := nextId;
      nextId := NextId(nextId);
      while id in byId
        invariant 1 <= id <= U64_MAX && nextId == NextId(id)
        decreases Ahead(id, f)
      {
        id := nextId;
        nextId := NextId(nextId);
      }
    }

    /** A deadline not ahead of the cursor is moved to the next tick. None when the cursor is exhausted. */
    method Schedule(deadline: nat, callback: int) returns (r: Option<int>, ghost h: Happening)
      requires Valid() && |timers| < U64_MAX && deadline <= U64_MAX
      modifies this
      ensures Valid() && cursor == old(cursor) && log == old(log) + [h]
      ensures Did(old(timers), cursor, ScheduleOp(deadline, callback), h)
      ensures r.None? <==> deadline <= cursor && cursor == U64_MAX
      ensures r.None? ==> timers == old(timers) && fates == old(fates)
      ensures r.Some? ==>
                var e := Entry(r.value, if deadline <= cursor then cursor + 1 else deadline, callback);
                e.id !in old(timers) && timers == old(timers)[e.id := e] &&
                fates == old(fates).(scheduled := old(fates).scheduled + multiset{e})
    {
      hide WheelOk, Bag, SlotOf, IndexOk, AheadOk, Recorded;
      if deadline <= cursor && cursor == U64_MAX {
        LogIdles(log, timers, cursor, fates);
        log := log + [Nothing];
        return None, Nothing;
      }
      var at := if deadline <= cursor then cursor + 1 else deadline;
      var id := FreshId();
      var e := Entry(id, at, callback);
      Insert(e);
      return Some(id), Scheduled(e);
    }

    method Insert(e: Entry)
      requires Valid() && e.id !in timers && cursor < e.deadline <= U64_MAX && 1 <= e.id <= U64_MAX
      modifies this`slots, this`byId, this`pending, this`timers, this`fates, this`log
      ensures Valid() && timers == old(timers)[e.id := e] && log == old(log) + [Scheduled(e)]
      ensures fates == old(fates).(scheduled := old(fates).scheduled + multiset{e})
    {
      hide WheelOk, Bag, SlotOf, IndexOk, AheadOk, Recorded;
      LogSchedules(log, timers, cursor, fates, e);
      log := log + [Scheduled(e)];
      WheelFacts(slots, slotCount, timers);
      var k := SlotOf(e.deadline, slotCount);
      WheelAdds(slots, slotCount, timers, e);
      BagAdds(slots, k, e);
      IndexAdds(byId, slotCount, timers, e);
      AheadAdds(timers, cursor, e);
      ScheduledGrows(fates, Bag(slots), e);
      slots := slots[k := slots[k] + [e]];
      byId := byId[e.id := k];
      pending := pending + 1;
      timers := timers[e.id := e];
      fates := fates.(scheduled := fates.scheduled + multiset{e});
    }

    /** True exactly when the timer was still pending. */
    method Cancel(id: int) returns (r: bool, ghost h: Happening)
      requires Valid()
      modifies this
      ensures Valid() && cursor == old(cursor) && nextId == old(nextId) && log == old(log) + [h]
      ensures Did(old(timers), cursor, CancelOp(id), h)
      ensures r <==> id in old(timers)
      ensures !r ==> timers == old(timers) && fates == old(fates)
      ensures r ==> timers == old(timers) - {id} &&
                    fates == old(fates).(cancelled := old(fates).cancelled + multiset{old(timers)[id]})
    {
      hide WheelOk, Bag, SlotOf, Recorded;
      if id !in byId {
        LogIdles(log, timers, cursor, fates);
        log := log + [Nothing];
        return false, Nothing;
      }
      h := Cancelled(timers[id]);
      var k := byId[id];
      assert k < |slots| && timers[id] in slots[k] && timers[id].id == id && DistinctIds(slots[k]) by {
        WheelHas(slots, slotCount, timers, id);
      }
      Remove(id, k, Find(slots[k], id));
      r := true;
    }

    method Remove(id: int, k: nat, at: nat)
      requires Valid() && id in timers && k < |slots| && byId.Keys == timers.Keys && k == byId[id]
      requires at < |slots[k]| && slots[k][at].id == id && DistinctIds(slots[k])
      modifies this`slots, this`byId, this`pending, this`timers, this`fates, this`log
      ensures Valid() && timers == old(timers) - {id} && log == old(log) + [Cancelled(old(timers)[id])]
      ensures fates == old(fates).(cancelled := old(fates).cancelled + multiset{old(timers)[id]})
    {
      hide WheelOk, Bag, SlotOf, IndexOk, AheadOk, DistinctIds, Erase, Recorded, Find;
      ghost var e := timers[id];
      LogCancels(log, timers, cursor, fates, id);
      log := log + [Cancelled(e)];
      IndexAt(byId, slotCount, timers, id);
      WheelRemoves(slots, slotCount, timers, id, at);
      BagErases(slots, k, at);
      IndexRemoves(byId, slotCount, timers, id);
      AheadRemoves(timers, cursor, id);
      CancelledGrows(fates, Bag(slots[k := Erase(slots[k], at)]), e);
      slots := slots[k := Erase(slots[k], at)];
      byId := byId - {id};
      pending := pending - 1;
      timers := timers - {id};
      fates := fates.(cancelled := fates.cancelled + multiset{e});
    }

    /** One callback's doings: each operation in turn. */
    method React(ops: seq<Op>) returns (ghost done: seq<Happening>)
      requires Valid() && |timers| + |ops| < U64_MAX
      requires forall op :: op in ops && op.ScheduleOp? ==> op.deadline <= U64_MAX
      modifies this
      ensures Valid() && cursor == old(cursor) && fates.fired == old(fates.fired) && |timers| <= |old(timers)| + |ops|
      ensures log == old(log) + done && Follows(old(log), cursor, ops, done)
    {
      hide WheelOk, Bag, SlotOf, IndexOk, Recorded, Did, Follows, Play;
      RecordedMap(log, timers, cursor, fates);
      done := [];
      FollowsNothing(log, cursor);
      for i := 0 to |ops|
        invariant Valid() && cursor == old(cursor) && fates.fired == old(fates.fired) && |timers| <= |old(timers)| + i
        invariant log == old(log) + done && Follows(old(log), cursor, ops[..i], done) && timers == Play(log)
      {
        assert ops[i] in ops;
        ghost var before, h := timers, Nothing;
        ghost var past := log;
        match ops[i] {
          case ScheduleOp(deadline, callback) =>
            var r;
            r, h := Schedule(deadline, callback);
            if r.Some? { MapGrows(before, r.value, timers[r.value]); }
          case CancelOp(id) =>
            var r;
            r, h := Cancel(id);
            MapShrinks(before, id);
        }
        RecordedMap(log, timers, cursor, fates);
        FollowsOne(past, cursor, ops[i], h);
        FollowsConcat(old(log), cursor, ops[..i], done, [ops[i]], [h]);
        assert ops[..i + 1] == ops[..i] + [ops[i]];
        done := done + [h];
      }
      assert ops[..|ops|] == ops;
    }

    /** The sweep: due timers leave the wheel before any of them runs. */
    method Collect(now: nat) returns (due: seq<Entry>)
      requires Valid() && cursor < now <= U64_MAX
      modifies this`slots, this`byId, this`pending, this`cursor, this`timers, this`fates, this`log
      ensures Valid() && cursor == now && due == DueAll(old(slots), now) && timers == Without(old(timers), now)
      ensures log == old(log) + [Advanced(now, due)]
      ensures fates == old(fates).(fired := old(fates).fired + multiset(due))
    {
      hide WheelOk, Bag, SlotOf, DueAll, KeepAll, IndexOk, AheadOk, Recorded, AreDue, DistinctIds, Without;
      SplitBag(slots, now);
      AheadSwept(timers, now);
      DueLaw(slots, slotCount, timers, now);
      DueDistinct(slots, slotCount, timers, now);
      LogAdvances(log, timers, cursor, fates, now, DueAll(slots, now));
      log := log + [Advanced(now, DueAll(slots, now))];
      cursor := now;
      if pending == 0 {
        NothingDue(slots, slotCount, byId, timers, now);
        assert DueAll(slots, now) == [] && fates.fired + multiset(DueAll(slots, now)) == fates.fired;
        return [];
      }
      WheelSwept(slots, slotCount, timers, now);
      FiredGrows(fates, multiset(DueAll(slots, now)), Bag(KeepAll(slots, now)));
      slots, due, byId, pending := Sweep(slots, now, byId, pending, slotCount, timers);
      timers := Without(timers, now);
      fates := fates.(fired := fates.fired + multiset(due));
    }

    /** The callbacks run one after another. */
    method Fire(due: seq<Entry>, reactions: nat -> seq<Op>) returns (ghost done: seq<Happening>)
      requires Valid() && |timers| + TotalOps(reactions, |due|) < U64_MAX
      requires forall i, op :: op in reactions(i) && op.ScheduleOp? ==> op.deadline <= U64_MAX
      modifies this
      ensures Valid() && cursor == old(cursor) && fates.fired == old(fates.fired)
      ensures log == old(log) + done && Follows(old(log), cursor, AllOps(reactions, |due|), done)
    {
      hide WheelOk, Bag, SlotOf, IndexOk, AheadOk, Recorded, Follows;
      var i := 0;
      done := [];
      FollowsNothing(log, cursor);
      while i < |due|
        invariant Valid() && cursor == old(cursor) && 0 <= i <= |due| && fates.fired == old(fates.fired)
        invariant |timers| + TotalOps(reactions, |due|) - TotalOps(reactions, i) < U64_MAX
        invariant log == old(log) + done && Follows(old(log), cursor, AllOps(reactions, i), done)
      {
        OpsNext(reactions, i, |due|);
        ghost var more := React(reactions(i));
        FollowsConcat(old(log), cursor, AllOps(reactions, i), done, reactions(i), more);
        done := done + more;
        i := i + 1;
      }
    }

    /** Every timer whose deadline has been reached fires once, in slot order. Then the callbacks do
        what they do, operation by operation; nothing else touches the timers that stay. What the
        callbacks schedule lies ahead of the new cursor, so nothing of it fires now. */
    method AdvanceTo(now: nat, reactions: nat -> seq<Op>) returns (fired: seq<Entry>, ghost done: seq<Happening>)
      requires Valid() && now <= U64_MAX && |timers| + TotalOps(reactions, |DueAll(slots, now)|) < U64_MAX
      requires forall i, op :: op in reactions(i) && op.ScheduleOp? ==> op.deadline <= U64_MAX
      modifies this
      ensures Valid()
      ensures now <= old(cursor) ==>
                fired == [] && timers == old(timers) && fates == old(fates) && cursor == old(cursor) && log == old(log)
      ensures now > old(cursor) ==> cursor == now && fired == DueAll(old(slots), now) && AreDue(fired, old(timers), now)
      ensures now > old(cursor) ==>
                var swept := old(log) + [Advanced(now, fired)];
                log == swept + done && Play(swept) == Without(old(timers), now) &&
                Follows(swept, now, AllOps(reactions, |fired|), done)
      ensures now > old(cursor) ==>
                forall id :: id in Without(old(timers), now) && CancelOp(id) !in AllOps(reactions, |fired|) ==>
                  id in timers && timers[id] == old(timers)[id]
      ensures now > old(cursor) ==>
                forall id :: id in timers && id !in Without(old(timers), now) ==> Scheduled(timers[id]) in done
      ensures fates.fired == old(fates.fired) + multiset(fired)
    {
      hide WheelOk, Bag, SlotOf, IndexOk, DueAll, AheadOk, Without, AreDue, Recorded, Follows, Play;
      done := [];
      if now <= cursor {
        return [], [];
      }
      DueLaw(slots, slotCount, timers, now);
      WithoutFewer(timers, now);
      fired := Collect(now);
      ghost var swept := log;
      RecordedMap(log, timers, cursor, fates);
      done := Fire(fired, reactions);
      RecordedMap(log, timers, cursor, fates);
      WithoutSame(old(timers), now);
      forall id
        ensures id in Play(swept) && CancelOp(id) !in AllOps(reactions, |fired|) ==> id in timers && timers[id] == Play(swept)[id]
        ensures id in timers && id !in Play(swept) ==> Scheduled(timers[id]) in done
      {
        OpsKeep(swept, now, AllOps(reactions, |fired|), done, id);
      }
    }

    method Perform(call: Call)
      requires Valid() && CallOk(call)
      modifies this
      ensures Valid() && old(log) <= log
    {
      hide WheelOk, Bag, SlotOf, IndexOk, AheadOk, Recorded, DueAll, AreDue, Without, Follows;
      PendingCount(byId, slotCount, timers);
      match call {
        case Operate(ScheduleOp(deadline, callback)) =>
          if pending < U64_MAX {
            var r;
            ghost var h;
            r, h := Schedule(deadline, callback);
          }
        case Operate(CancelOp(id)) =>
          var r;
          ghost var h;
          r, h := Cancel(id);
        case Advance(now, reactions) =>
          if pending + TotalOps(reactions, |DueAll(slots, now)|) < U64_MAX {
            var fired;
            ghost var done;
            fired, done := AdvanceTo(now, reactions);
          }
      }
    }

    /** Any run of calls: what was ever scheduled was cancelled, has fired or is pending, and every
        advance fired exactly the timers it was the first to reach, each once. */
    method Run(script: seq<Call>)
      requires Valid() && forall c :: c in script ==> CallOk(c)
      modifies this
      ensures Valid() && old(log) <= log && OnceEach(log)
      ensures fates.scheduled == fates.cancelled + fates.fired + Bag(slots)
      ensures forall e :: IsPending(timers, e) <==> exists i :: Waits(log, i, |log|, e)
    {
      hide WheelOk, SlotOf, IndexOk, AheadOk, Recorded, Waits, OnceEach, CallOk, Play;
      for k := 0 to |script|
        invariant Valid() && old(log) <= log
      {
        assert script[k] in script;
        Perform(script[k]);
      }
      RecordedMap(log, timers, cursor, fates);
      FiresOnceAll(log);
      forall e
        ensures IsPending(timers, e) <==> exists i :: Waits(log, i, |log|, e)
      {
        PendingLaw(log, e);
      }
    }
  }

  datatype Call = Operate(op: Op) | Advance(now: nat, reactions: nat -> seq<Op>)

  ghost predicate CallOk(c: Call)
  {
    match c
    case Operate(op) => op.ScheduleOp? ==> op.deadline <= U64_MAX
    case Advance(now, reactions) =>
      now <= U64_MAX && forall i, op :: op in reactions(i) && op.ScheduleOp? ==> op.deadline <= U64_MAX
  }

  lemma PendingCount(byId: map<int, nat>, n: nat, timers: map<int, Entry>)
    requires IndexOk(byId, n, timers)
    ensures |byId| == |timers|
  {
    assert |byId| == |byId.Keys| && |timers| == |timers.Keys|;
  }

  /** The advance at j fires e exactly if e waits for it and is due, and then once. */
  ghost predicate FiredRightly(log: seq<Happening>, j: nat, e: Entry)
    requires j < |log| && log[j].Advanced?
  {
    && (e in log[j].fired <==> e.deadline <= log[j].now && exists i :: Waits(log, i, j, e))
    && multiset(log[j].fired)[e] <= 1
  }

  ghost predicate OnceEach(log: seq<Happening>)
  {
    forall j: nat, e: Entry :: j < |log| && log[j].Advanced? ==> FiredRightly(log, j, e)
  }

  lemma FiresOnceAll(log: seq<Happening>)
    requires LogOk(log)
    ensures OnceEach(log)
  {
    hide LogOk, Waits;
    forall j: nat, e: Entry | j < |log| && log[j].Advanced?
      ensures FiredRightly(log, j, e)
    {
      FiresOnce(log, j, e);
    }
  }

  lemma RecordedMap(log: seq<Happening>, timers: map<int, Entry>, cursor: int, fates: Fates)
    requires Recorded(log, timers, cursor, fates)
    ensures LogOk(log) && timers == Play(log)
  {
  }

  lemma FollowsNothing(log: seq<Happening>, cursor: int)
    ensures Follows(log, cursor, [], []) && log + [] == log
  {
  }

  lemma LastOp(log: seq<Happening>, cursor: int, ops: seq<Op>, done: seq<Happening>)
    requires LogOk(log + done) && Follows(log, cursor, ops, done) && ops != []
    ensures var n := |ops| - 1; var before := log + done[..n];
            && LogOk(before) && Follows(log, cursor, ops[..n], done[..n])
            && Happens(Play(before), Clock(before), done[n]) && Did(Play(before), cursor, ops[n], done[n])
            && Play(log + done) == Applied(Play(before), done[n])
  {
    hide Happens, Did, Applied;
    var n, grown := |ops| - 1, log + done;
    var before := log + done[..n];
    assert grown[..|before|] == before && grown[|before|] == done[n] && |grown| == |before| + 1;
    LogShorter(grown, |before|);
    FollowsShorter(log, cursor, ops, done, n);
  }

  /** Operations remove only the timers they cancel, and add only those they schedule. */
  lemma {:induction false} OpsKeep(log: seq<Happening>, cursor: int, ops: seq<Op>, done: seq<Happening>, id: int)
    requires LogOk(log + done) && Follows(log, cursor, ops, done)
    ensures id in Play(log) && CancelOp(id) !in ops ==> id in Play(log + done) && Play(log + done)[id] == Play(log)[id]
    ensures id in Play(log + done) && id !in Play(log) ==> Scheduled(Play(log + done)[id]) in done
    decreases |ops|
  {
    hide LogOk, Play, Clock, FatesOf, Applied, Happens, Did;
    if ops == [] {
      assert log + done == log;
    } else {
      hide Follows;
      var n := |ops| - 1;
      LastOp(log, cursor, ops, done);
      assert |done| == |ops| by { SameLength(log, cursor, ops, done); }
      var before := log + done[..n];
      OpsKeep(log, cursor, ops[..n], done[..n], id);
      PlayIds(before);
      OpKeeps(Play(before), Clock(before), cursor, ops[n], done[n]);
      assert ops[n] in ops && done[n] in done;
      assert forall op :: op in ops[..n] ==> op in ops;
      assert forall h :: h in done[..n] ==> h in done;
    }
  }

  lemma SameLength(log: seq<Happening>, cursor: int, ops: seq<Op>, done: seq<Happening>)
    requires Follows(log, cursor, ops, done)
    ensures |done| == |ops|
  {
  }

  lemma {:induction false} PlayIds(log: seq<Happening>)
    ensures forall id :: id in Play(log) ==> Play(log)[id].id == id
  {
    if log != [] {
      PlayIds(log[..|log| - 1]);
    }
  }

  lemma OpKeeps(timers: map<int, Entry>, clock: int, cursor: int, op: Op, h: Happening)
    requires Happens(timers, clock, h) && Did(timers, cursor, op, h) && forall id :: id in timers ==> timers[id].id == id
    ensures forall id :: id in timers && op != CancelOp(id) ==> id in Applied(timers, h) && Applied(timers, h)[id] == timers[id]
    ensures forall id :: id in Applied(timers, h) ==>
              if id in timers then Applied(timers, h)[id] == timers[id] else h == Scheduled(Applied(timers, h)[id])
  {
  }

  lemma WithoutSame(timers: map<int, Entry>, now: int)
    ensures forall id :: id in Without(timers, now) ==> id in timers && Without(timers, now)[id] == timers[id]
  {
  }

  lemma FollowsShorter(log: seq<Happening>, cursor: int, ops: seq<Op>, done: seq<Happening>, n: nat)
    requires Follows(log, cursor, ops, done) && n <= |ops|
    ensures Follows(log, cursor, ops[..n], done[..n])
  {
    hide Did, Play;
    forall i | 0 <= i < n
      ensures Did(Play(log + done[..n][..i]), cursor, ops[..n][i], done[..n][i])
    {
      assert done[..n][..i] == done[..i];
    }
  }

  lemma {:induction false} DueAllDistinct(slots: seq<seq<Entry>>, n: nat, timers: map<int, Entry>, now: int, m: nat)
    requires WheelOk(slots, n, timers) && m <= |slots|
    ensures DistinctIds(DueAll(slots[..m], now))
    decreases m
  {
    if m > 0 {
      hide SlotOf;
      DueAllDistinct(slots, n, timers, now, m - 1);
      var front, last := slots[..m - 1], slots[m - 1];
      assert slots[..m][..m - 1] == front;
      assert ListOk(last, m - 1, n, timers);
      KeepDistinct(last, now);
      var a, b := DueAll(front, now), Due(last, now);
      forall i, j | 0 <= i < |a| && 0 <= j < |b|
        ensures a[i].id != b[j].id
      {
        DueAllMembers(front, now, a[i]);
        assert a[i] in a && b[j] in b;
        var k :| 0 <= k < |front| && a[i] in front[k];
        assert ListOk(slots[k], k, n, timers);
        SplitMembers(last, now);
      }
      DistinctConcat(a, b);
    }
  }

  lemma DistinctConcat(a: seq<Entry>, b: seq<Entry>)
    requires DistinctIds(a) && DistinctIds(b) && forall i, j :: 0 <= i < |a| && 0 <= j < |b| ==> a[i].id != b[j].id
    ensures DistinctIds(a + b)
  {
  }

  /** Nothing is collected twice: an id stands in one slot only, and once. */
  lemma DueDistinct(slots: seq<seq<Entry>>, n: nat, timers: map<int, Entry>, now: int)
    requires WheelOk(slots, n, timers)
    ensures DistinctIds(DueAll(slots, now))
  {
    DueAllDistinct(slots, n, timers, now, |slots|);
    assert slots[..|slots|] == slots;
  }

  /** Exactly the pending timers whose deadline has come. */
  ghost predicate AreDue(fired: seq<Entry>, timers: map<int, Entry>, now: int)
  {
    forall e :: e in fired <==> e.id in timers && timers[e.id] == e && e.deadline <= now
  }

  /** How many operations the first n callbacks perform. */
  function TotalOps(reactions: nat -> seq<Op>, n: nat): (r: nat)
  {
    if n == 0 then 0 else TotalOps(reactions, n - 1) + |reactions(n - 1)|
  }

  lemma {:induction false} OpsNext(reactions: nat -> seq<Op>, i: nat, n: nat)
    requires i < n
    ensures TotalOps(reactions, i) + |reactions(i)| == TotalOps(reactions, i + 1) <= TotalOps(reactions, n)
    decreases n - i
  {
    if i + 1 < n {
      OpsNext(reactions, i + 1, n);
    }
  }

  lemma WithoutFewer(timers: map<int, Entry>, now: int)
    ensures |Without(timers, now)| <= |timers|
  {
    var left := Without(timers, now);
    assert left.Keys <= timers.Keys;
    assert timers.Keys == left.Keys + (timers.Keys - left.Keys);
    assert |left| == |left.Keys| && |timers| == |timers.Keys|;
  }

  /** What the sweep collects is exactly the pending timers that are due. */
  lemma DueLaw(slots: seq<seq<Entry>>, n: nat, timers: map<int, Entry>, now: int)
    requires WheelOk(slots, n, timers)
    ensures AreDue(DueAll(slots, now), timers, now)
  {
    hide SlotOf, DueAll;
    forall e
      ensures e in DueAll(slots, now) <==> e.id in timers && timers[e.id] == e && e.deadline <= now
    {
      DueAllMembers(slots, now, e);
      if e in DueAll(slots, now) {
        var k :| 0 <= k < |slots| && e in slots[k] && e.deadline <= now;
        assert ListOk(slots[k], k, n, timers);
      }
      if e.id in timers && timers[e.id] == e {
        assert e in slots[SlotOf(e.deadline, n)];
      }
    }
  }

  lemma SomeMember(list: seq<Entry>)
    ensures list != [] ==> exists e :: e in list
  {
    if list != [] {
      assert list[0] in list;
    }
  }

  lemma NothingDue(slots: seq<seq<Entry>>, n: nat, byId: map<int, nat>, timers: map<int, Entry>, now: int)
    requires WheelOk(slots, n, timers) && IndexOk(byId, n, timers) && |byId| == 0
    ensures DueAll(slots, now) == [] && Without(timers, now) == timers
  {
    hide SlotOf, DueAll;
    assert |byId.Keys| == 0;
    assert timers.Keys == {};
    DueLaw(slots, n, timers, now);
    SomeMember(DueAll(slots, now));
  }

  lemma AheadSwept(timers: map<int, Entry>, now: int)
    requires exists cursor :: AheadOk(timers, cursor)
    ensures AheadOk(Without(timers, now), now)
  {
  }

  lemma AheadAdds(timers: map<int, Entry>, cursor: int, e: Entry)
    requires AheadOk(timers, cursor) && cursor < e.deadline <= U64_MAX && 1 <= e.id <= U64_MAX
    ensures AheadOk(timers[e.id := e], cursor)
  {
  }

  lemma AheadRemoves(timers: map<int, Entry>, cursor: int, id: int)
    requires AheadOk(timers, cursor)
    ensures AheadOk(timers - {id}, cursor)
  {
  }

  lemma IndexAdds(byId: map<int, nat>, n: nat, timers: map<int, Entry>, e: Entry)
    requires IndexOk(byId, n, timers) && e.id !in timers
    ensures IndexOk(byId[e.id := SlotOf(e.deadline, n)], n, timers[e.id := e])
    ensures |byId[e.id := SlotOf(e.deadline, n)]| == |byId| + 1
  {
    hide SlotOf;
    Grows(byId, e.id, SlotOf(e.deadline, n));
  }

  lemma IndexAt(byId: map<int, nat>, n: nat, timers: map<int, Entry>, id: int)
    requires IndexOk(byId, n, timers) && id in timers
    ensures n > 0 && id in byId && byId[id] == SlotOf(timers[id].deadline, n)
  {
  }

  lemma IndexRemoves(byId: map<int, nat>, n: nat, timers: map<int, Entry>, id: int)
    requires IndexOk(byId, n, timers) && id in timers
    ensures IndexOk(byId - {id}, n, timers - {id}) && |byId - {id}| == |byId| - 1
  {
    hide SlotOf;
    Shrinks(byId, id);
  }

  lemma ScheduledGrows(f: Fates, bag: multiset<Entry>, e: Entry)
    requires f.scheduled == f.cancelled + f.fired + bag
    ensures f.scheduled + multiset{e} == f.cancelled + f.fired + (bag + multiset{e})
  {
  }

  lemma CancelledGrows(f: Fates, bag: multiset<Entry>, e: Entry)
    requires f.scheduled == f.cancelled + f.fired + (bag + multiset{e})
    ensures f.scheduled == f.cancelled + multiset{e} + f.fired + bag
  {
  }

  lemma FiredGrows(f: Fates, due: multiset<Entry>, bag: multiset<Entry>)
    requires f.scheduled == f.cancelled + f.fired + (due + bag)
    ensures f.scheduled == f.cancelled + (f.fired + due) + bag
  {
  }

  lemma MapGrows(m: map<int, Entry>, id: int, e: Entry)
    ensures |m[id := e]| <= |m| + 1
  {
    assert m[id := e].Keys == m.Keys + {id};
    assert |m| == |m.Keys| && |m[id := e]| == |m[id := e].Keys|;
  }

  lemma MapShrinks(m: map<int, Entry>, id: int)
    ensures |m - {id}| <= |m|
  {
    assert (m - {id}).Keys == m.Keys - {id};
    assert m.Keys - {id} <= m.Keys;
    assert |m| == |m.Keys| && |m - {id}| == |(m - {id}).Keys|;
  }

  lemma WheelFacts(slots: seq<seq<Entry>>, n: nat, timers: map<int, Entry>)
    requires WheelOk(slots, n, timers)
    ensures n == |slots| && n > 0
  {
  }

  lemma WheelHas(slots: seq<seq<Entry>>, n: nat, timers: map<int, Entry>, id: int)
    requires WheelOk(slots, n, timers) && id in timers
    ensures timers[id].id == id && SlotOf(timers[id].deadline, n) < |slots| && timers[id] in slots[SlotOf(timers[id].deadline, n)]
    ensures DistinctIds(slots[SlotOf(timers[id].deadline, n)])
  {
    DistinctAt(slots, n, timers, SlotOf(timers[id].deadline, n));
  }

  lemma DistinctAt(slots: seq<seq<Entry>>, n: nat, timers: map<int, Entry>, k: nat)
    requires WheelOk(slots, n, timers) && k < |slots|
    ensures DistinctIds(slots[k])
  {
    assert ListOk(slots[k], k, n, timers);
  }

  lemma BagAdds(slots: seq<seq<Entry>>, k: nat, e: Entry)
    requires k < |slots|
    ensures Bag(slots[k := slots[k] + [e]]) == Bag(slots) + multiset{e}
  {
    hide Bag;
    BagUpdate(slots, k, slots[k] + [e]);
    var a, b, c := Bag(slots[k := slots[k] + [e]]), Bag(slots), multiset(slots[k]);
    assert multiset(slots[k] + [e]) == c + multiset{e};
    Cancels(a, b + multiset{e}, c);
  }

  lemma BagErases(slots: seq<seq<Entry>>, k: nat, at: nat)
    requires k < |slots| && at < |slots[k]| && DistinctIds(slots[k])
    ensures Bag(slots) == Bag(slots[k := Erase(slots[k], at)]) + multiset{slots[k][at]}
  {
    hide Bag, Erase;
    EraseMembers(slots[k], at);
    BagUpdate(slots, k, Erase(slots[k], at));
    Cancels(Bag(slots), Bag(slots[k := Erase(slots[k], at)]) + multiset{slots[k][at]}, multiset(Erase(slots[k], at)));
  }

  lemma Cancels(a: multiset<Entry>, b: multiset<Entry>, c: multiset<Entry>)
    requires a + c == b + c
    ensures a == b
  {
    forall x: Entry
      ensures a[x] == b[x]
    {
      assert (a + c)[x] == (b + c)[x];
    }
  }

  lemma Grows(m: map<int, nat>, id: int, k: nat)
    requires id !in m
    ensures |m[id := k]| == |m| + 1
  {
    assert m[id := k].Keys == m.Keys + {id};
    assert |m| == |m.Keys| && |m[id := k]| == |m[id := k].Keys|;
  }

  lemma {:induction false} EmptyBag(slots: seq<seq<Entry>>)
    requires forall k :: 0 <= k < |slots| ==> slots[k] == []
    ensures Bag(slots) == multiset{}
  {
    if slots != [] {
      EmptyBag(slots[..|slots| - 1]);
    }
  }
}
