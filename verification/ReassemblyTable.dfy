/** The per-shard reassembly table: keys, expiry and the byte budget. */
module ReassemblyTable {
  import opened Prelude
  import opened Reassembly

  const HARD_MAX_ENTRIES: nat := 256
  const DEFAULT_MAX_TOTAL: nat := 16 * 1024 * 1024
  const MAX_PAYLOAD_IPV4: nat := 65515
  const MAX_PAYLOAD_IPV6: nat := 65535

  function HeldBytes(entries: seq<Entry>): (r: nat)
  {
    if entries == [] then 0 else |entries[0].buffer| + HeldBytes(entries[1..])
  }

  lemma {:induction false} HeldUpdate(entries: seq<Entry>, i: nat, e: Entry)
    requires i < |entries|
    ensures HeldBytes(entries[i := e]) == HeldBytes(entries) - |entries[i].buffer| + |e.buffer|
  {
    if i == 0 {
      assert entries[0 := e][1..] == entries[1..];
    } else {
      assert entries[i := e][1..] == entries[1..][i - 1 := e];
      HeldUpdate(entries[1..], i - 1, e);
    }
  }

  lemma {:induction false} HeldAppend(entries: seq<Entry>, e: Entry)
    ensures HeldBytes(entries + [e]) == HeldBytes(entries) + |e.buffer|
  {
    if entries == [] {
      assert entries + [e] == [e];
    } else {
      assert (entries + [e])[1..] == entries[1..] + [e];
      HeldAppend(entries[1..], e);
    }
  }

  ghost predicate AllReady(entries: seq<Entry>)
  {
    forall i :: 0 <= i < |entries| ==> Ready(entries[i]) && (InUse(entries[i]) ==> entries[i].key.Key?)
  }

  /** At most one entry in use answers to a key. */
  ghost predicate Unique(entries: seq<Entry>)
  {
    forall i, j :: 0 <= i < j < |entries| && InUse(entries[i]) && InUse(entries[j]) ==> entries[i].key != entries[j].key
  }

  predicate Answers(e: Entry, key: Key)
  {
    InUse(e) && e.key == key
  }

  predicate Reusable(e: Entry, now: nat)
  {
    !InUse(e) || IsExpired(e, now)
  }

  function Fresh(key: Key): (r: Entry)
  {
    EMPTY.(key := key)
  }

  method FindMatch(entries: seq<Entry>, key: Key) returns (slot: Option<nat>)
    ensures slot.Some? ==> slot.value < |entries| && Answers(entries[slot.value], key)
    ensures slot.None? ==> forall k :: 0 <= k < |entries| ==> !Answers(entries[k], key)
  {
    for i := 0 to |entries|
      invariant forall k :: 0 <= k < i ==> !Answers(entries[k], key)
    {
      if InUse(entries[i]) && entries[i].key == key {
        return Some(i);
      }
    }
    return None;
  }

  method FindReusable(entries: seq<Entry>, now: nat) returns (slot: Option<nat>)
    ensures slot.Some? ==> slot.value < |entries| && Reusable(entries[slot.value], now)
    ensures slot.Some? ==> forall k :: 0 <= k < slot.value ==> !Reusable(entries[k], now)
    ensures slot.None? ==> forall k :: 0 <= k < |entries| ==> !Reusable(entries[k], now)
  {
    for i := 0 to |entries|
      invariant forall k :: 0 <= k < i ==> !Reusable(entries[k], now)
    {
      if !InUse(entries[i]) {
        return Some(i);
      }
      if IsExpired(entries[i], now) {
        return Some(i);
      }
    }
    return None;
  }

  /** Where a fragment goes: a live entry of its key as it stands, otherwise a fresh one, in the
      place of its expired entry, else in the first reusable place, else at the end. */
  ghost predicate Found(before: seq<Entry>, after: seq<Entry>, key: Key, now: nat, slot: nat)
  {
    && slot < |after| && |before| <= |after| <= |before| + 1 && (slot < |before| || slot == |before|)
    && (|after| == |before| + 1 ==> slot == |before| && forall k :: 0 <= k < |before| ==> !Reusable(before[k], now))
    && (forall k :: 0 <= k < |before| && k != slot ==> after[k] == before[k] && !Answers(before[k], key))
    && (if slot < |before| && Answers(before[slot], key) && !IsExpired(before[slot], now) then after[slot] == before[slot]
        else after[slot] == Fresh(key) && (slot < |before| ==> Reusable(before[slot], now)))
    && (slot < |before| && !Answers(before[slot], key) ==> forall k :: 0 <= k < slot ==> !Reusable(before[k], now))
  }

  /** The places below n whose entry is in use and past its deadline. */
  ghost function Stale(entries: seq<Entry>, n: nat, now: nat): (r: set<nat>)
    requires n <= |entries|
  {
    set i: nat | i < n && InUse(entries[i]) && IsExpired(entries[i], now)
  }

  lemma StaleGrows(entries: seq<Entry>, n: nat, now: nat)
    requires n < |entries|
    ensures |Stale(entries, n + 1, now)| ==
            |Stale(entries, n, now)| + if InUse(entries[n]) && IsExpired(entries[n], now) then 1 else 0
  {
    var here := if InUse(entries[n]) && IsExpired(entries[n], now) then {n} else {};
    assert Stale(entries, n + 1, now) == Stale(entries, n, now) + here;
  }

  ghost predicate TableOk(entries: seq<Entry>, bytes: int, maxEntries: nat, maxBytes: nat)
  {
    && AllReady(entries) && Unique(entries) && |entries| <= maxEntries
    && bytes == HeldBytes(entries) <= maxBytes
  }

  /** One entry changes; its key is not in use elsewhere. */
  lemma EntryChanges(entries: seq<Entry>, bytes: int, maxEntries: nat, maxBytes: nat, i: nat, e: Entry)
    requires TableOk(entries, bytes, maxEntries, maxBytes) && i < |entries| && Ready(e)
    requires InUse(e) ==> e.key.Key? && forall k :: 0 <= k < |entries| && k != i ==> !Answers(entries[k], e.key)
    requires bytes - |entries[i].buffer| + |e.buffer| <= maxBytes
    ensures TableOk(entries[i := e], bytes - |entries[i].buffer| + |e.buffer|, maxEntries, maxBytes)
  {
    hide Ready;
    HeldUpdate(entries, i, e);
  }

  lemma OthersDiffer(entries: seq<Entry>, i: nat, key: Key)
    requires Unique(entries) && i < |entries| && Answers(entries[i], key)
    ensures forall k :: 0 <= k < |entries| && k != i ==> !Answers(entries[k], key)
  {
  }

  lemma FreshReady(key: Key)
    ensures Ready(Fresh(key)) && !InUse(Fresh(key)) && |Fresh(key).buffer| == 0
  {
  }

  /** A fragment of `key` was added: refused exactly if no entry is, or can be made, its own; otherwise
      its entry met it with the bytes no entry holds as its budget. */
  ghost predicate Added(before: seq<Entry>, after: seq<Entry>, maxEntries: nat, maxTotalBytes: nat, key: Key, f: Fragment,
                        maxPayload: nat, now: nat, expires: nat, r: Result, slot: Option<nat>, met: Entry, budget: nat)
  {
    && (slot.None? <==> |before| >= maxEntries &&
                        forall k :: 0 <= k < |before| ==> !Answers(before[k], key) && !Reusable(before[k], now))
    && (slot.None? ==> r == Result(TooManyEntries, false, 0, 0, []) && after == before)
    && (slot.Some? ==>
          && slot.value < |after| && Ready(met) && Found(before, after[slot.value := met], key, now, slot.value)
          && Outcome(met, f, Limits(maxPayload, budget), now, expires, after[slot.value], r)
          && budget == maxTotalBytes - HeldBytes(after[slot.value := met]))
  }

  class FragmentReassembler {
    var entries: seq<Entry>
    var currentBytes: int
    const maxEntries: nat
    const maxTotalBytes: nat

    ghost predicate Valid()
      reads this
    {
      TableOk(entries, currentBytes, maxEntries, maxTotalBytes)
    }

    constructor (entriesWanted: nat, bytesWanted: nat)
      ensures Valid() && entries == [] && 1 <= maxEntries <= HARD_MAX_ENTRIES
      ensures 1 <= entriesWanted <= HARD_MAX_ENTRIES ==> maxEntries == entriesWanted
      ensures entriesWanted == 0 ==> maxEntries == 1
      ensures entriesWanted > HARD_MAX_ENTRIES ==> maxEntries == HARD_MAX_ENTRIES
      ensures maxTotalBytes == if bytesWanted == 0 then DEFAULT_MAX_TOTAL else bytesWanted
    {
      maxEntries := if entriesWanted == 0 then 1 else if entriesWanted > HARD_MAX_ENTRIES then HARD_MAX_ENTRIES else entriesWanted;
      maxTotalBytes := if bytesWanted == 0 then DEFAULT_MAX_TOTAL else bytesWanted;
      entries, currentBytes := [], 0;
    }

    method FindOrCreate(key: Key, now: nat) returns (slot: Option<nat>)
      requires Valid() && key.Key?
      modifies this
      ensures Valid()
      ensures slot.Some? ==> Found(old(entries), entries, key, now, slot.value)
      ensures slot.None? <==> |old(entries)| >= maxEntries &&
                              forall k :: 0 <= k < |old(entries)| ==> !Answers(old(entries)[k], key) && !Reusable(old(entries)[k], now)
      ensures slot.None? ==> entries == old(entries)
    {
      hide Ready, EMPTY, HeldBytes;
      FreshReady(key);
      slot := FindMatch(entries, key);
      if slot.Some? {
        var i := slot.value;
        OthersDiffer(entries, i, key);
        if IsExpired(entries[i], now) {
          EntryChanges(entries, currentBytes, maxEntries, maxTotalBytes, i, Fresh(key));
          currentBytes := currentBytes - |entries[i].buffer|;
          entries := entries[i := Fresh(key)];
        }
        return;
      }
      slot := FindReusable(entries, now);
      if slot.Some? {
        var i := slot.value;
        EntryChanges(entries, currentBytes, maxEntries, maxTotalBytes, i, Fresh(key));
        currentBytes := currentBytes - |entries[i].buffer|;
        entries := entries[i := Fresh(key)];
        return;
      }
      if |entries| < maxEntries {
        HeldAppend(entries, Fresh(key));
        entries := entries + [Fresh(key)];
        return Some(|entries| - 1);
      }
      return None;
    }

    /** Shared by AddIpv4Fragment and AddIpv6Fragment, which build the key and the limit. */
    method AddTo(key: Key, f: Fragment, now: nat, expires: nat, maxPayload: nat)
      returns (r: Result, ghost slot: Option<nat>, ghost met: Entry, ghost budget: nat)
      requires Valid() && key.Key?
      modifies this
      ensures Valid() && Added(old(entries), entries, maxEntries, maxTotalBytes, key, f, maxPayload, now, expires, r, slot, met, budget)
    {
      hide EMPTY, HeldBytes, Refusal, Ready, Add;
      EmptyReady();
      var found := FindOrCreate(key, now);
      slot, met, budget := found, Fresh(key), 0;
      if found.None? {
        return Result(TooManyEntries, false, 0, 0, []), slot, met, budget;
      }
      var i := found.value;
      var entry := entries[i];
      var spare := if currentBytes < maxTotalBytes then maxTotalBytes - currentBytes else 0;
      met, budget := entry, spare;
      FoundKey(old(entries), entries, key, now, i);
      var after;
      ReadyMeans(entry);
      after, r := AddFragment(entry, f, Limits(maxPayload, spare), now, expires);
      ReadyMeans(after);
      AddBudget(entry, f, Limits(maxPayload, spare), now, expires);
      ghost var table := entries;
      hide Found;
      Put(i, if r.complete then EMPTY else after);
      assert entries[i := met] == table;
    }

    /** An entry is stored back and the byte count follows its buffer. */
    method Put(i: nat, e: Entry)
      requires Valid() && i < |entries| && (e == EMPTY || Ready(e))
      requires InUse(e) ==> e.key.Key? && forall k :: 0 <= k < |entries| && k != i ==> !Answers(entries[k], e.key)
      requires currentBytes - |entries[i].buffer| + |e.buffer| <= maxTotalBytes
      modifies this
      ensures Valid() && entries == old(entries)[i := e]
    {
      hide Ready, HeldBytes;
      EmptyReady();
      EntryChanges(entries, currentBytes, maxEntries, maxTotalBytes, i, e);
      currentBytes := currentBytes - |entries[i].buffer| + |e.buffer|;
      entries := entries[i := e];
    }

    /** The hard limit of the address family caps what the caller asks for. */
    method AddIpv4Fragment(src: bytes, dst: bytes, protocol: int, identification: int, offset8: nat, more: bool,
                           payload: bytes, now: nat, expires: nat, wanted: nat, ecn: int)
      returns (r: Result, ghost slot: Option<nat>, ghost met: Entry, ghost budget: nat)
      requires Valid() && |src| == |dst| == 4
      modifies this
      ensures Valid()
      ensures |payload| == 0 || |payload| > U32_MAX ==>
                r == Result(if payload == [] then InvalidFragment else PayloadTooLarge, false, 0, 0, []) && entries == old(entries)
      ensures 0 < |payload| <= U32_MAX ==>
                Added(old(entries), entries, maxEntries, maxTotalBytes, Ipv4Key(src, dst, protocol, identification),
                      Fragment(offset8 * 8, payload, more, ecn), Cap(wanted, MAX_PAYLOAD_IPV4), now, expires, r, slot, met, budget)
      ensures r.complete ==> |r.payload| == r.total && !met.discarded
    {
      slot, met, budget := None, EMPTY, 0;
      if payload == [] {
        return Result(InvalidFragment, false, 0, 0, []), slot, met, budget;
      }
      if |payload| > U32_MAX {
        return Result(PayloadTooLarge, false, 0, 0, []), slot, met, budget;
      }
      var limit := Cap(wanted, MAX_PAYLOAD_IPV4);
      var f := Fragment(offset8 * 8, payload, more, ecn);
      r, slot, met, budget := AddTo(Ipv4Key(src, dst, protocol, identification), f, now, expires, limit);
      if slot.Some? {
        CompleteFits(met, f, Limits(limit, budget), now, expires, entries[slot.value], r);
      }
    }

    method AddIpv6Fragment(src: bytes, dst: bytes, identification: int, offset8: nat, more: bool,
                           payload: bytes, now: nat, expires: nat, wanted: nat, protocol: int, ecn: int)
      returns (r: Result, ghost slot: Option<nat>, ghost met: Entry, ghost budget: nat)
      requires Valid() && |src| == |dst| == 16
      modifies this
      ensures Valid()
      ensures |payload| == 0 || |payload| > U32_MAX ==>
                r == Result(if payload == [] then InvalidFragment else PayloadTooLarge, false, 0, 0, []) && entries == old(entries)
      ensures 0 < |payload| <= U32_MAX ==>
                Added(old(entries), entries, maxEntries, maxTotalBytes, Key(src, dst, 6, protocol, identification),
                      Fragment(offset8 * 8, payload, more, ecn), Cap(wanted, MAX_PAYLOAD_IPV6), now, expires, r, slot, met, budget)
      ensures r.complete ==> |r.payload| == r.total && !met.discarded
    {
      slot, met, budget := None, EMPTY, 0;
      if payload == [] {
        return Result(InvalidFragment, false, 0, 0, []), slot, met, budget;
      }
      if |payload| > U32_MAX {
        return Result(PayloadTooLarge, false, 0, 0, []), slot, met, budget;
      }
      var limit := Cap(wanted, MAX_PAYLOAD_IPV6);
      var f := Fragment(offset8 * 8, payload, more, ecn);
      r, slot, met, budget := AddTo(Key(src, dst, 6, protocol, identification), f, now, expires, limit);
      if slot.Some? {
        CompleteFits(met, f, Limits(limit, budget), now, expires, entries[slot.value], r);
      }
    }

    /** Every expired entry goes and is counted, no other changes. */
    method Purge(now: nat) returns (removed: nat)
      requires Valid()
      modifies this
      ensures Valid() && |entries| == |old(entries)| && removed == |Stale(old(entries), |entries|, now)|
      ensures forall i :: 0 <= i < |entries| ==>
                entries[i] == if InUse(old(entries)[i]) && IsExpired(old(entries)[i], now) then EMPTY else old(entries)[i]
    {
      hide Ready, HeldBytes, EMPTY;
      EmptyReady();
      removed := 0;
      assert |Stale(entries, 0, now)| == 0;
      hide Stale;
      var i := 0;
      while i < |entries|
        invariant Valid() && 0 <= i <= |entries| == |old(entries)|
        invariant removed == |Stale(old(entries), i, now)|
        invariant forall k :: i <= k < |entries| ==> entries[k] == old(entries)[k]
        invariant forall k :: 0 <= k < i ==>
                    entries[k] == if InUse(old(entries)[k]) && IsExpired(old(entries)[k], now) then EMPTY else old(entries)[k]
      {
        StaleGrows(old(entries), i, now);
        if InUse(entries[i]) && IsExpired(entries[i], now) {
          Put(i, EMPTY);
          removed := removed + 1;
        }
        i := i + 1;
      }
    }
  }

  function Cap(wanted: nat, hard: nat): (r: nat)
  {
    if wanted == 0 || wanted > hard then hard else wanted
  }

  lemma EmptyReady()
    ensures Ready(EMPTY) && !InUse(EMPTY) && |EMPTY.buffer| == 0
  {
  }

  function Mapped(address: bytes): (r: bytes)
  {
    [0, 0, 0, 0, 0, 0, 0, 0, 0, 0, 0xFF, 0xFF] + address
  }

  function Ipv4Key(src: bytes, dst: bytes, protocol: int, identification: int): (r: Key)
  {
    Key(Mapped(src), Mapped(dst), 4, protocol, identification)
  }

  /** The mapping keeps IPv4 datagrams apart. */
  lemma Ipv4KeyInjective(a: bytes, b: bytes, c: bytes, d: bytes, p: int, q: int, i: int, j: int)
    requires Ipv4Key(a, b, p, i) == Ipv4Key(c, d, q, j)
    ensures a == c && b == d && p == q && i == j
  {
    assert Mapped(a)[12..] == a && Mapped(c)[12..] == c && Mapped(b)[12..] == b && Mapped(d)[12..] == d;
  }

  /** The entry met a fragment as AddFragment does, and was reset if that completed it. */
  ghost predicate Outcome(met: Entry, f: Fragment, lim: Limits, now: nat, expires: nat, after: Entry, r: Result)
    requires Ready(met)
  {
    r == Add(met, f, lim, now, expires).1 && after == if r.complete then EMPTY else Add(met, f, lim, now, expires).0
  }

  /** A datagram that was discarded for an overlap is never the one that completes. */
  lemma CompleteFits(met: Entry, f: Fragment, lim: Limits, now: nat, expires: nat, after: Entry, r: Result)
    requires Ready(met) && Outcome(met, f, lim, now, expires, after, r)
    ensures r.complete ==> |r.payload| == r.total && !met.discarded
  {
    DiscardIsFinal(met, f, lim, now, expires);
    if r.complete {
      CompletedAt(met, f, lim, now, expires);
    }
  }

  lemma FoundKey(before: seq<Entry>, after: seq<Entry>, key: Key, now: nat, slot: nat)
    requires Found(before, after, key, now, slot)
    ensures after[slot].key == key && forall k :: 0 <= k < |after| && k != slot ==> !Answers(after[k], key)
  {
  }

  lemma ReadyMeans(e: Entry)
    ensures Ready(e) <==> EntryOk(e) && 0 <= e.ecn < 4
  {
  }

  /** Only an accepted fragment grows the buffer, and never beyond the budget. */
  lemma AddBudget(e: Entry, f: Fragment, lim: Limits, now: nat, expires: nat)
    requires Ready(e)
    ensures var (after, r) := Add(e, f, lim, now, expires);
            after.key == e.key &&
            (!r.complete ==> |after.buffer| <= |e.buffer| + lim.budget && (r.error != NoError ==> after.buffer == e.buffer))
  {
    hide Tiles, Collides;
  }
}
