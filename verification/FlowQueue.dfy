/** The capacity-retaining ring that holds one flow's packets. */
module FlowRing {

  function Rotated<T>(slots: seq<T>, head: nat): (r: seq<T>)
    requires head <= |slots|
    ensures |r| == |slots|
    ensures forall i :: 0 <= i < |slots| ==> r[i] == slots[if head + i < |slots| then head + i else head + i - |slots|]
  {
    slots[head..] + slots[..head]
  }

  function Wrapped(i: nat, n: nat): (r: nat)
    requires i < 2 * n
    ensures r == if i < n then i else i - n
  {
    i % n
  }

  lemma StoredBack<T>(slots: seq<T>, head: nat, count: nat, x: T)
    requires head < |slots| && count < |slots|
    ensures Rotated(slots[Wrapped(head + count, |slots|) := x], head)[..count + 1] == Rotated(slots, head)[..count] + [x]
  {
    hide Wrapped;
    var i := Wrapped(head + count, |slots|);
    forall k | 0 <= k < count
      ensures Rotated(slots[i := x], head)[k] == Rotated(slots, head)[k]
    {
    }
  }

  class FlowQueue<T(0)> {
    var slots: array<T>
    var head: nat
    var count: nat
    const blank: T

    ghost predicate Valid()
      reads this
    {
      count <= slots.Length && (head < slots.Length || (head == 0 && slots.Length == 0))
    }

    /** The packets, oldest first. */
    ghost function Contents(): (r: seq<T>)
      requires Valid()
      reads this, slots
      ensures |r| == count
    {
      Rotated(slots[..], head)[..count]
    }

    constructor (empty: T)
      ensures Valid() && Contents() == [] && fresh(slots)
    {
      slots, head, count := new T[0], 0, 0;
      blank := empty;
    }

    /** Doubling, the packets copied to the front in order. */
    method Grow()
      requires Valid() && count == slots.Length
      modifies this`slots, this`head
      ensures Valid() && Contents() == old(Contents()) && fresh(slots)
      ensures slots.Length > count
    {
      ghost var was := Contents();
      var grown := new T[if slots.Length == 0 then 8 else slots.Length * 2];
      var i := 0;
      while i < count
        invariant grown != slots && unchanged(this) && unchanged(slots)
        invariant 0 <= i <= count && grown.Length > count && Contents() == was
        invariant forall k :: 0 <= k < i ==> grown[k] == was[k]
      {
        grown[i] := slots[Wrapped(head + i, slots.Length)];
        i := i + 1;
      }
      slots, head := grown, 0;
      assert Rotated(slots[..], 0) == slots[..];
    }

    method Store(x: T)
      requires Valid() && count < slots.Length
      modifies this`count, slots
      ensures Valid() && slots == old(slots) && Contents() == old(Contents()) + [x]
    {
      hide Rotated, Wrapped;
      StoredBack(slots[..], head, count, x);
      ghost var before := slots[..];
      slots[Wrapped(head + count, slots.Length)] := x;
      count := count + 1;
      assert slots[..] == before[Wrapped(head + count - 1, |before|) := x];
    }

    method PushBack(x: T)
      requires Valid()
      modifies this, slots
      ensures Valid() && Contents() == old(Contents()) + [x]
      ensures slots == old(slots) || fresh(slots)
    {
      hide Rotated;
      if count == slots.Length {
        Grow();
      }
      Store(x);
    }

    method PopFront() returns (x: T)
      requires Valid() && count > 0
      modifies this`head, this`count, slots
      ensures Valid() && slots == old(slots)
      ensures [x] + Contents() == old(Contents())
    {
      ghost var was := Contents();
      x := slots[head];
      slots[head] := blank;
      head := Wrapped(head + 1, slots.Length);
      count := count - 1;
      assert Contents() == was[1..];
    }

    /** Empties the queue and keeps the storage. */
    method Clear()
      requires Valid()
      modifies this`head, this`count, slots
      ensures Valid() && slots == old(slots) && Contents() == []
    {
      while count != 0
        invariant Valid() && slots == old(slots)
      {
        slots[head] := blank;
        head := Wrapped(head + 1, slots.Length);
        count := count - 1;
      }
      head := 0;
    }
  }
}
