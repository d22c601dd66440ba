/** Runs of the reassembly table, seen through one key: whatever happens to other datagrams, a live
    entry goes through exactly the fragments of its own. */
module ReassemblyRuns {
  import opened Prelude
  import opened Reassembly
  import opened ReassemblyTable

  datatype Call =
    | Add4(src: bytes, dst: bytes, protocol: int, identification: int, offset8: nat, more: bool, payload: bytes, now: nat,
           expires: nat, wanted: nat, ecn: int)
    | Add6(src: bytes, dst: bytes, protocol: int, identification: int, offset8: nat, more: bool, payload: bytes, now: nat,
           expires: nat, wanted: nat, ecn: int)
    | PurgeAt(now: nat)

  predicate CallOk(c: Call)
  {
    match c
    case Add4(src, dst, _, _, _, _, _, _, _, _, _) => |src| == |dst| == 4
    case Add6(src, dst, _, _, _, _, _, _, _, _, _) => |src| == |dst| == 16
    case PurgeAt(_) => true
  }

  /** The call brings a fragment as far as the table. */
  predicate Brings(c: Call)
  {
    !c.PurgeAt? && 0 < |c.payload| <= U32_MAX
  }

  function KeyOf(c: Call): (key: Key)
    requires !c.PurgeAt?
    ensures key.Key?
  {
    if c.Add4? then Ipv4Key(c.src, c.dst, c.protocol, c.identification) else Key(c.src, c.dst, 6, c.protocol, c.identification)
  }

  function FragmentOf(c: Call): (f: Fragment)
    requires !c.PurgeAt?
  {
    Fragment(c.offset8 * 8, c.payload, c.more, c.ecn)
  }

  function CapOf(c: Call): (n: nat)
    requires !c.PurgeAt?
  {
    Cap(c.wanted, if c.Add4? then MAX_PAYLOAD_IPV4 else MAX_PAYLOAD_IPV6)
  }

  function ArrivalOf(c: Call, budget: nat): (a: Arrival)
    requires !c.PurgeAt?
  {
    Arrival(FragmentOf(c), Limits(CapOf(c), budget), c.now, c.expires)
  }

  predicate IsFor(c: Call, key: Key)
  {
    Brings(c) && KeyOf(c) == key
  }

  // ---------------------------------------------------------------------------------
  // The table through one key.
  // ---------------------------------------------------------------------------------

  /** What the table knows about a key: its entry in use, or nothing. */
  ghost predicate Shows(entries: seq<Entry>, key: Key, e: Entry)
  {
    if exists i :: 0 <= i < |entries| && Answers(entries[i], key)
    then exists i :: 0 <= i < |entries| && Answers(entries[i], key) && entries[i] == e
    else e == Fresh(key)
  }

  lemma SomethingShows(entries: seq<Entry>, key: Key)
    ensures exists e :: Shows(entries, key, e)
  {
    if exists i :: 0 <= i < |entries| && Answers(entries[i], key) {
      var i :| 0 <= i < |entries| && Answers(entries[i], key);
      assert Shows(entries, key, entries[i]);
    } else {
      assert Shows(entries, key, Fresh(key));
    }
  }

  /** The entry will not be expired before `horizon`. */
  predicate Lives(e: Entry, horizon: nat)
  {
    InUse(e) ==> e.deadline >= horizon
  }

  lemma ShownReady(entries: seq<Entry>, key: Key, e: Entry)
    requires AllReady(entries) && Shows(entries, key, e)
    ensures Ready(e) && e.key == key && (!InUse(e) ==> e == Fresh(key))
  {
    FreshReady(key);
    hide Ready;
  }

  /** What one fragment of the key does to its entry. */
  ghost function Next(key: Key, e: Entry, a: Arrival): (r: Entry)
    requires Ready(e)
    ensures Ready(r)
  {
    AddReady(e, a.f, a.lim, a.now, a.expires);
    FreshReady(key);
    var step := Add(e, a.f, a.lim, a.now, a.expires);
    if step.1.complete then Fresh(key) else step.0
  }

  ghost function KeyAfter(key: Key, e: Entry, run: seq<Arrival>): (r: Entry)
    requires Ready(e)
    ensures Ready(r)
  {
    if run == [] then e else Next(key, KeyAfter(key, e, run[..|run| - 1]), run[|run| - 1])
  }

  ghost function AnswerTo(e: Entry, a: Arrival): (r: Result)
    requires Ready(e)
  {
    Add(e, a.f, a.lim, a.now, a.expires).1
  }

  /** A call for another key, or one that finds the table full, leaves a live entry alone. */
  lemma OthersLeave(before: seq<Entry>, mid: seq<Entry>, after: seq<Entry>, slot: nat, other: Key, key: Key, now: nat, e: Entry)
    requires Found(before, mid, other, now, slot) && |after| == |mid| && slot < |after|
    requires forall k :: 0 <= k < |mid| && k != slot ==> after[k] == mid[k]
    requires InUse(after[slot]) ==> after[slot].key == other
    requires other != key && Shows(before, key, e) && Lives(e, now + 1)
    ensures Shows(after, key, e)
  {
    if exists i :: 0 <= i < |before| && Answers(before[i], key) {
      var i :| 0 <= i < |before| && Answers(before[i], key) && before[i] == e;
      assert i != slot;
      assert after[i] == e;
    } else {
      forall k | 0 <= k < |after|
        ensures !Answers(after[k], key)
      {
      }
    }
  }

  /** A call for the key meets exactly that entry. */
  lemma OwnMeets(before: seq<Entry>, mid: seq<Entry>, slot: nat, key: Key, now: nat, e: Entry)
    requires Found(before, mid, key, now, slot) && Shows(before, key, e) && Lives(e, now + 1)
    ensures mid[slot] == e && forall k :: 0 <= k < |mid| && k != slot ==> !Answers(mid[k], key)
  {
  }

  lemma NextKeeps(key: Key, e: Entry, a: Arrival, horizon: nat)
    requires Ready(e) && e.key == key && (!InUse(e) ==> e == Fresh(key)) && Lives(e, horizon)
    requires Deadline(a.now, a.expires) >= horizon
    ensures var n := Next(key, e, a); n.key == key && (!InUse(n) ==> n == Fresh(key)) && Lives(n, horizon)
  {
    hide Refusal, Tiles, Written, Collides, Disjoint, Proper, Within;
    AddReady(e, a.f, a.lim, a.now, a.expires);
    if !InUse(Next(key, e, a)) {
      UnusedIsFresh(Next(key, e, a));
    }
  }

  lemma UnusedIsFresh(e: Entry)
    requires Ready(e) && !InUse(e)
    ensures e == Fresh(e.key)
  {
  }

  lemma OwnShows(mid: seq<Entry>, after: seq<Entry>, slot: nat, key: Key, n: Entry)
    requires |after| == |mid| && slot < |mid| && (forall k :: 0 <= k < |mid| && k != slot ==> after[k] == mid[k] && !Answers(mid[k], key))
    requires n.key == key && (!InUse(n) ==> n == Fresh(key))
    requires if InUse(n) then after[slot] == n else !InUse(after[slot])
    ensures Shows(after, key, n)
  {
    if InUse(n) {
      assert Answers(after[slot], key);
    }
  }

  lemma PurgeLeaves(before: seq<Entry>, after: seq<Entry>, key: Key, now: nat, e: Entry)
    requires |after| == |before| && Shows(before, key, e) && Lives(e, now + 1)
    requires forall i :: 0 <= i < |after| ==>
               after[i] == if InUse(before[i]) && IsExpired(before[i], now) then EMPTY else before[i]
    ensures Shows(after, key, e)
  {
    EmptyReady();
    if exists i :: 0 <= i < |before| && Answers(before[i], key) {
      var i :| 0 <= i < |before| && Answers(before[i], key) && before[i] == e;
      assert after[i] == e;
    } else {
      forall k | 0 <= k < |after|
        ensures !Answers(after[k], key)
      {
        assert !Answers(before[k], key);
      }
    }
  }

  lemma FoundHeld(before: seq<Entry>, mid: seq<Entry>, key: Key, now: nat, slot: nat)
    requires Found(before, mid, key, now, slot)
    ensures HeldBytes(mid) <= HeldBytes(before)
  {
    hide HeldBytes;
    FreshReady(key);
    if |mid| == |before| {
      assert mid == before[slot := mid[slot]];
      HeldUpdate(before, slot, mid[slot]);
    } else {
      assert mid == before + [Fresh(key)];
      HeldAppend(before, Fresh(key));
    }
  }

  // ---------------------------------------------------------------------------------
  // One call.
  // ---------------------------------------------------------------------------------

  /** What the call means for the key, whose entry was e and is n: its fragment met e, or nothing happened. */
  ghost predicate Turned(c: Call, key: Key, r: Result, held: nat, maxTotal: nat, e: Entry, turn: Option<Arrival>, n: Entry)
    requires Ready(e)
  {
    if IsFor(c, key) && r.error != TooManyEntries then
      && turn.Some? && turn.value == ArrivalOf(c, turn.value.lim.budget) && turn.value.lim.budget >= maxTotal - held
      && r == AnswerTo(e, turn.value) && n == Next(key, e, turn.value)
    else turn.None? && n == e
  }

  predicate InTime(c: Call, key: Key, horizon: nat)
  {
    c.now < horizon && (IsFor(c, key) ==> Deadline(c.now, c.expires) >= horizon)
  }

  lemma AddedTurns(before: seq<Entry>, after: seq<Entry>, maxEntries: nat, maxTotal: nat, c: Call, key: Key, horizon: nat, e: Entry,
                   r: Result, slot: Option<nat>, met: Entry, budget: nat) returns (turn: Option<Arrival>, n: Entry)
    requires AllReady(before) && Brings(c) && InTime(c, key, horizon) && Shows(before, key, e) && Lives(e, horizon)
    requires Added(before, after, maxEntries, maxTotal, KeyOf(c), FragmentOf(c), CapOf(c), c.now, c.expires, r, slot, met, budget)
    ensures Ready(e) && Turned(c, key, r, HeldBytes(before), maxTotal, e, turn, n) && Shows(after, key, n) && Lives(n, horizon)
  {
    hide HeldBytes, Found, Shows, Ready, Add, Next, AnswerTo;
    ShownReady(before, key, e);
    turn, n := None, e;
    if slot.Some? {
      var mid := after[slot.value := met];
      SlotBelow(before, mid, KeyOf(c), c.now, slot.value);
      FoundHeld(before, mid, KeyOf(c), c.now, slot.value);
      FoundKey(before, mid, KeyOf(c), c.now, slot.value);
      var a := ArrivalOf(c, budget);
      NeverTooMany(met, a);
      AfterKey(met, a, after[slot.value], r);
      if KeyOf(c) == key {
        OwnMeets(before, mid, slot.value, key, c.now, e);
        NextKeeps(key, e, a, horizon);
        turn, n := Some(a), Next(key, e, a);
        MetIsNext(key, e, a, after[slot.value], r);
        OwnShows(mid, after, slot.value, key, n);
      } else {
        OthersLeave(before, mid, after, slot.value, KeyOf(c), key, c.now, e);
      }
    }
  }

  lemma SlotBelow(before: seq<Entry>, mid: seq<Entry>, key: Key, now: nat, slot: nat)
    requires Found(before, mid, key, now, slot)
    ensures slot < |mid|
  {
  }

  /** The entry itself never answers that the table is full. */
  lemma NeverTooMany(e: Entry, a: Arrival)
    requires Ready(e)
    ensures AnswerTo(e, a).error != TooManyEntries
  {
    hide Tiles, Collides;
  }

  lemma AfterKey(e: Entry, a: Arrival, after: Entry, r: Result)
    requires Ready(e) && Outcome(e, a.f, a.lim, a.now, a.expires, after, r)
    ensures r == AnswerTo(e, a) && (InUse(after) ==> after.key == e.key)
  {
    hide Tiles, Collides, Refusal;
  }

  lemma MetIsNext(key: Key, e: Entry, a: Arrival, after: Entry, r: Result)
    requires Ready(e) && e.key == key && (!InUse(e) ==> e == Fresh(key)) && Outcome(e, a.f, a.lim, a.now, a.expires, after, r)
    ensures if InUse(Next(key, e, a)) then after == Next(key, e, a) else !InUse(after)
  {
    hide Tiles, Collides, Refusal;
    EmptyReady();
  }

  method Perform(t: FragmentReassembler, c: Call, ghost key: Key, ghost horizon: nat, ghost e: Entry)
    returns (r: Result, ghost turn: Option<Arrival>, ghost n: Entry)
    requires t.Valid() && CallOk(c)
    modifies t
    ensures t.Valid() && (c.PurgeAt? ==> !r.complete)
    ensures old(Shows(t.entries, key, e)) && Lives(e, horizon) && InTime(c, key, horizon) ==>
              Ready(e) && Turned(c, key, r, HeldBytes(old(t.entries)), t.maxTotalBytes, e, turn, n) &&
              Shows(t.entries, key, n) && Lives(n, horizon)
  {
    hide HeldBytes, Found, Shows, Ready, Turned, Added;
    turn, n, r := None, e, Result(NoError, false, 0, 0, []);
    ghost var before := t.entries;
    ghost var watched := Shows(before, key, e) && Lives(e, horizon) && InTime(c, key, horizon);
    TableReady(t);
    if c.PurgeAt? {
      var removed := t.Purge(c.now);
      if watched {
        ShownReady(before, key, e);
        PurgeLeaves(before, t.entries, key, c.now, e);
        NoTurn(c, key, r, HeldBytes(before), t.maxTotalBytes, e);
      }
      return;
    }
    ghost var slot, met, budget;
    if c.Add4? {
      r, slot, met, budget := t.AddIpv4Fragment(c.src, c.dst, c.protocol, c.identification, c.offset8, c.more, c.payload, c.now,
                                                c.expires, c.wanted, c.ecn);
    } else {
      r, slot, met, budget := t.AddIpv6Fragment(c.src, c.dst, c.identification, c.offset8, c.more, c.payload, c.now, c.expires,
                                                c.wanted, c.protocol, c.ecn);
    }
    if watched {
      if Brings(c) {
        turn, n := AddedTurns(before, t.entries, t.maxEntries, t.maxTotalBytes, c, key, horizon, e, r, slot, met, budget);
      } else {
        ShownReady(before, key, e);
        NoTurn(c, key, r, HeldBytes(before), t.maxTotalBytes, e);
      }
    }
  }

  lemma TableReady(t: FragmentReassembler)
    requires t.Valid()
    ensures AllReady(t.entries)
  {
  }

  lemma NoTurn(c: Call, key: Key, r: Result, held: nat, maxTotal: nat, e: Entry)
    requires Ready(e) && !Brings(c)
    ensures Turned(c, key, r, held, maxTotal, e, None, e)
  {
  }

  // ---------------------------------------------------------------------------------
  // Whole runs.
  // ---------------------------------------------------------------------------------

  /** Call `call` of the script brought the key a fragment. */
  datatype Turn = Turn(call: nat, arrival: Arrival)

  ghost function Arrivals(log: seq<Turn>): (r: seq<Arrival>)
    ensures |r| == |log|
  {
    seq(|log|, m requires 0 <= m < |log| => log[m].arrival)
  }

  ghost predicate TurnOk(script: seq<Call>, results: seq<Result>, held: seq<nat>, key: Key, maxTotal: nat, e: Entry, t: Turn)
    requires Ready(e)
  {
    && t.call < |script| && t.call < |results| && t.call < |held|
    && IsFor(script[t.call], key) && t.arrival == ArrivalOf(script[t.call], t.arrival.lim.budget)
    && t.arrival.lim.budget >= maxTotal - held[t.call]
    && results[t.call] == AnswerTo(e, t.arrival)
  }

  ghost predicate Logs(log: seq<Turn>, call: nat)
  {
    exists m :: 0 <= m < |log| && log[m].call == call
  }

  /** The log lists, in order, the calls that brought the key a fragment, and each was answered as the
      key's own entry, gone through the earlier ones, answers it. `held` is what the table held before
      each call. */
  ghost predicate Traced(script: seq<Call>, results: seq<Result>, held: seq<nat>, key: Key, maxTotal: nat, e: Entry, log: seq<Turn>)
    requires Ready(e)
  {
    && |results| == |held| == |script|
    && (forall m :: 0 <= m < |log| ==> TurnOk(script, results, held, key, maxTotal, KeyAfter(key, e, Arrivals(log[..m])), log[m]))
    && (forall i, j :: 0 <= i < j < |log| ==> log[i].call < log[j].call)
    && (forall j :: 0 <= j < |script| && IsFor(script[j], key) && results[j].error != TooManyEntries ==> Logs(log, j))
  }

  lemma ArrivalsNext(key: Key, e: Entry, log: seq<Turn>, t: Turn)
    requires Ready(e)
    ensures KeyAfter(key, e, Arrivals(log + [t])) == Next(key, KeyAfter(key, e, Arrivals(log)), t.arrival)
  {
    hide Next;
    var run := Arrivals(log + [t]);
    assert run[..|log|] == Arrivals(log) && run[|log|] == t.arrival;
  }

  lemma TurnLater(script: seq<Call>, results: seq<Result>, held: seq<nat>, key: Key, maxTotal: nat, e: Entry, t: Turn, c: Call,
                  r: Result, h: nat)
    requires Ready(e) && TurnOk(script, results, held, key, maxTotal, e, t)
    ensures TurnOk(script + [c], results + [r], held + [h], key, maxTotal, e, t)
  {
    hide AnswerTo;
  }

  lemma TracedStep(script: seq<Call>, results: seq<Result>, held: seq<nat>, key: Key, maxTotal: nat, e: Entry, log: seq<Turn>,
                   c: Call, r: Result, h: nat, turn: Option<Arrival>, n: Entry) returns (after: seq<Turn>)
    requires Ready(e) && Traced(script, results, held, key, maxTotal, e, log)
    requires Turned(c, key, r, h, maxTotal, KeyAfter(key, e, Arrivals(log)), turn, n)
    ensures Traced(script + [c], results + [r], held + [h], key, maxTotal, e, after) && n == KeyAfter(key, e, Arrivals(after))
  {
    hide Next, AnswerTo, KeyAfter, ArrivalOf, IsFor, TurnOk, Logs, Arrivals;
    after := log;
    if turn.Some? {
      var t := Turn(|script|, turn.value);
      after := log + [t];
      ArrivalsNext(key, e, log, t);
      TurnNow(script, results, held, key, maxTotal, KeyAfter(key, e, Arrivals(log)), c, r, h, turn.value, n);
    }
    forall m | 0 <= m < |after|
      ensures TurnOk(script + [c], results + [r], held + [h], key, maxTotal, KeyAfter(key, e, Arrivals(after[..m])), after[m])
    {
      if m < |log| {
        assert after[..m] == log[..m] && after[m] == log[m];
        TurnLater(script, results, held, key, maxTotal, KeyAfter(key, e, Arrivals(log[..m])), log[m], c, r, h);
      } else {
        assert after[..m] == log;
      }
    }
    forall m | 0 <= m < |log|
      ensures log[m].call < |script|
    {
      CallBelow(script, results, held, key, maxTotal, KeyAfter(key, e, Arrivals(log[..m])), log[m]);
    }
    LogsGrow(script, results, key, log, after, c, r);
  }

  lemma TurnNow(script: seq<Call>, results: seq<Result>, held: seq<nat>, key: Key, maxTotal: nat, e: Entry, c: Call, r: Result, h: nat,
                a: Arrival, n: Entry)
    requires Ready(e) && |script| == |results| == |held| && Turned(c, key, r, h, maxTotal, e, Some(a), n)
    ensures TurnOk(script + [c], results + [r], held + [h], key, maxTotal, e, Turn(|script|, a))
  {
    hide Next, AnswerTo;
  }

  lemma CallBelow(script: seq<Call>, results: seq<Result>, held: seq<nat>, key: Key, maxTotal: nat, e: Entry, t: Turn)
    requires Ready(e) && TurnOk(script, results, held, key, maxTotal, e, t)
    ensures t.call < |script|
  {
  }

  lemma LogsGrow(script: seq<Call>, results: seq<Result>, key: Key, log: seq<Turn>, after: seq<Turn>, c: Call, r: Result)
    requires |script| == |results| && log <= after
    requires forall j :: 0 <= j < |script| && IsFor(script[j], key) && results[j].error != TooManyEntries ==> Logs(log, j)
    requires IsFor(c, key) && r.error != TooManyEntries ==> |after| > |log| && after[|log|].call == |script|
    ensures forall j :: 0 <= j < |script + [c]| && IsFor((script + [c])[j], key) && (results + [r])[j].error != TooManyEntries ==>
              Logs(after, j)
  {
    hide IsFor;
    forall j | 0 <= j < |script + [c]| && IsFor((script + [c])[j], key) && (results + [r])[j].error != TooManyEntries
      ensures Logs(after, j)
    {
      if j < |script| {
        assert Logs(log, j);
        var m :| 0 <= m < |log| && log[m].call == j;
        assert after[m].call == j;
      } else {
        assert after[|log|].call == j;
      }
    }
  }

  ghost predicate Prompt(script: seq<Call>, key: Key, horizon: nat)
  {
    forall j :: 0 <= j < |script| ==> InTime(script[j], key, horizon)
  }

  /** Any run of calls, watched through one key whose entry does not expire meanwhile: the entry goes
      through exactly the fragments of its key, and each call answers as that entry does. */
  method Run(t: FragmentReassembler, script: seq<Call>, ghost key: Key, ghost horizon: nat, ghost e: Entry)
    returns (results: seq<Result>, ghost held: seq<nat>, ghost log: seq<Turn>)
    requires t.Valid() && forall c :: c in script ==> CallOk(c)
    modifies t
    ensures t.Valid() && |results| == |script|
    ensures old(Shows(t.entries, key, e)) && Lives(e, horizon) && Prompt(script, key, horizon) ==>
              Ready(e) && Traced(script, results, held, key, t.maxTotalBytes, e, log) &&
              Shows(t.entries, key, KeyAfter(key, e, Arrivals(log)))
  {
    hide Shows, Turned, HeldBytes, CallOk, InTime, Ready, Traced, KeyAfter, Arrivals, FragmentReassembler.Valid, Lives;
    ghost var watched := Shows(t.entries, key, e) && Lives(e, horizon) && Prompt(script, key, horizon);
    results, held, log := [], [], [];
    ghost var seen := e;
    if watched {
      TableReady(t);
      ShownReady(t.entries, key, e);
      NothingTraced(key, t.maxTotalBytes, e);
    }
    for i := 0 to |script|
      invariant t.Valid() && |results| == i
      invariant watched ==> Ready(e) && Shows(t.entries, key, seen) && Lives(seen, horizon) && seen == KeyAfter(key, e, Arrivals(log))
      invariant watched ==> Traced(script[..i], results, held, key, t.maxTotalBytes, e, log)
    {
      assert script[i] in script;
      ghost var h := HeldBytes(t.entries);
      var r;
      ghost var turn, n;
      r, turn, n := Perform(t, script[i], key, horizon, seen);
      if watched {
        log := TracedStep(script[..i], results, held, key, t.maxTotalBytes, e, log, script[i], r, h, turn, n);
      }
      assert script[..i + 1] == script[..i] + [script[i]];
      results, held, seen := results + [r], held + [h], n;
    }
    assert script[..|script|] == script;
  }

  lemma NothingTraced(key: Key, maxTotal: nat, e: Entry)
    requires Ready(e)
    ensures Traced([], [], [], key, maxTotal, e, []) && KeyAfter(key, e, Arrivals([])) == e
  {
  }

  // ---------------------------------------------------------------------------------
  // What that means for a datagram.
  // ---------------------------------------------------------------------------------

  /** Until it completes, the entry behind a key is an entry on its own. */
  lemma {:induction false} UntilComplete(key: Key, e: Entry, run: seq<Arrival>, n: nat)
    requires Ready(e) && n <= |run| && forall m :: 0 <= m < n ==> !ResultAt(e, run, m).complete
    ensures KeyAfter(key, e, run[..n]) == After(e, run[..n])
  {
    hide Add;
    if n > 0 {
      UntilComplete(key, e, run, n - 1);
      assert run[..n][..n - 1] == run[..n - 1];
      assert !ResultAt(e, run, n - 1).complete;
    }
  }

  lemma ResultsAre(script: seq<Call>, results: seq<Result>, held: seq<nat>, key: Key, maxTotal: nat, e: Entry, log: seq<Turn>, n: nat)
    requires Ready(e) && Traced(script, results, held, key, maxTotal, e, log) && n < |log|
    requires forall m :: 0 <= m < n ==> !ResultAt(e, Arrivals(log), m).complete
    ensures log[n].call < |results| == |held| && results[log[n].call] == ResultAt(e, Arrivals(log), n)
    ensures Arrivals(log)[n].lim.budget >= maxTotal - held[log[n].call]
  {
    hide Add, KeyAfter;
    var run := Arrivals(log);
    assert Arrivals(log[..n]) == run[..n];
    UntilComplete(key, e, run, n);
    assert TurnOk(script, results, held, key, maxTotal, KeyAfter(key, e, Arrivals(log[..n])), log[n]);
  }

  /** RFC 5722 for the table: once an overlap on an IPv6 datagram has been noticed, no later call for it
      completes, whatever happens to other datagrams. */
  lemma {:induction false} OverlapIsFinal(script: seq<Call>, results: seq<Result>, held: seq<nat>, key: Key, maxTotal: nat, e: Entry,
                                          log: seq<Turn>, k: nat, n: nat)
    requires Ready(e) && Traced(script, results, held, key, maxTotal, e, log) && k < n < |log| && Ipv6Entry(e)
    requires var run := Arrivals(log);
             && (forall m :: 0 <= m < k ==> !ResultAt(e, run, m).complete)
             && Collides(After(e, run[..k]), run[k].f) && PassesGuards(After(e, run[..k]), run[k].f, run[k].lim)
    ensures log[n].call < |results| && !results[log[n].call].complete
  {
    hide Add, Traced, Collides, PassesGuards, After;
    var run := Arrivals(log);
    forall m | 0 <= m <= n
      ensures !ResultAt(e, run, m).complete
    {
      if m == k {
        KeyStays(e, run, k);
        OverlapNoticed(After(e, run[..k]), run[k].f, run[k].lim, run[k].now, run[k].expires);
      } else if m > k {
        OverlapNeverCompletes(e, run, k, m);
      }
    }
    ResultsAre(script, results, held, key, maxTotal, e, log, n);
  }

  /** A cut whose fragments all come in time completes exactly on the last one, with its payload, as
      long as the payload fits beside what the table holds of other datagrams. */
  lemma {:induction false} CutCompletes(payload: bytes, script: seq<Call>, results: seq<Result>, held: seq<nat>, key: Key, maxTotal: nat,
                                        e: Entry, log: seq<Turn>, n: nat)
    requires Ready(e) && Traced(script, results, held, key, maxTotal, e, log) && n < |log| && e.pieces == []
    requires IsCut(payload, Arrivals(log))
    requires forall m :: 0 <= m <= n ==> RoomBeside(payload, held, maxTotal, e, log, m)
    ensures forall m :: 0 <= m <= n ==> AffordableAt(e, Arrivals(log), m)
    ensures log[n].call < |results| && results[log[n].call].error == NoError
    ensures results[log[n].call].complete <==> n == |log| - 1
    ensures n == |log| - 1 ==> results[log[n].call].payload == payload
    decreases n
  {
    hide Add, Traced, IsCut, After, EcnOf;
    var run := Arrivals(log);
    forall m | 0 <= m < n
      ensures AffordableAt(e, run, m) && !ResultAt(e, run, m).complete
    {
      CutCompletes(payload, script, results, held, key, maxTotal, e, log, n - 1);
      Confluence(payload, e, run, m);
    }
    ResultsAre(script, results, held, key, maxTotal, e, log, n);
    PieceFits(payload, run, n);
    assert RoomBeside(payload, held, maxTotal, e, log, n);
    Confluence(payload, e, run, n);
  }

  lemma PieceFits(payload: bytes, run: seq<Arrival>, n: nat)
    requires IsCut(payload, run) && n < |run|
    ensures SpanOf(run[n].f).end <= |payload|
  {
    assert PieceOf(payload, run[n]);
  }

  /** Before the call, the bytes of other datagrams and the whole payload fit the table. */
  ghost predicate RoomBeside(payload: bytes, held: seq<nat>, maxTotal: nat, e: Entry, log: seq<Turn>, m: nat)
    requires Ready(e) && m < |log|
  {
    log[m].call < |held| && held[log[m].call] - |After(e, Arrivals(log)[..m]).buffer| + |payload| <= maxTotal
  }
}
