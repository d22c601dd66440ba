/** IP fragment reassembly: one datagram's entry, and the order-independence of its completion. */
module Reassembly {
  import opened Prelude

  const MAX_PIECES: nat := 64
  const DEFAULT_TTL: nat := 60000

  datatype Error =
    | NoError | TooManyFragments | OverlapDetected | PayloadTooLarge | InvalidOffset | InvalidFragment
    | TooManyEntries | DuplicateTerminal | TerminalOverflow | ByteBudgetExceeded

  /** The half-open range [offset, end) a fragment fills. */
  datatype Span = Span(offset: int, end: int)

  datatype Key = NoKey | Key(src: bytes, dst: bytes, version: int, protocol: int, identification: int)

  /** highest_end_ is written and never read; it is left out. */
  datatype Entry = Entry(
    key: Key, pieces: seq<Span>, lastReceived: bool, total: int, deadline: int, discarded: bool, ecn: int, buffer: bytes)

  const EMPTY: Entry := Entry(NoKey, [], false, 0, 0, false, 0, [])

  datatype Result = Result(error: Error, complete: bool, total: int, ecn: int, payload: bytes)

  datatype Limits = Limits(maxPayload: nat, budget: nat)

  datatype Fragment = Fragment(offset: nat, data: bytes, more: bool, ecn: int)

  function SpanOf(f: Fragment): (r: Span)
  {
    Span(f.offset, f.offset + |f.data|)
  }

  // ---------------------------------------------------------------------------------
  // Coverage.
  // ---------------------------------------------------------------------------------

  predicate Overlap(a: Span, b: Span)
  {
    a.offset < b.end && b.offset < a.end
  }

  ghost predicate Disjoint(pieces: seq<Span>)
  {
    forall i, j :: 0 <= i < j < |pieces| ==> !Overlap(pieces[i], pieces[j])
  }

  ghost predicate Proper(pieces: seq<Span>)
  {
    forall p :: p in pieces ==> 0 <= p.offset < p.end
  }

  ghost predicate Within(pieces: seq<Span>, total: int)
  {
    forall p :: p in pieces ==> p.end <= total
  }

  predicate Holds(p: Span, x: int)
  {
    p.offset <= x < p.end
  }

  ghost predicate HeldBy(pieces: seq<Span>, x: int)
  {
    exists p :: p in pieces && Holds(p, x)
  }

  ghost predicate Covered(pieces: seq<Span>, total: int)
  {
    forall x :: 0 <= x < total ==> HeldBy(pieces, x)
  }

  /** The pieces fill [0, total) and nothing else. */
  ghost predicate Tiles(pieces: seq<Span>, total: int)
  {
    0 < total && Within(pieces, total) && Covered(pieces, total)
  }

  method HasOverlap(pieces: seq<Span>, span: Span) returns (r: bool)
    ensures r <==> exists i :: 0 <= i < |pieces| && Overlap(pieces[i], span)
  {
    for i := 0 to |pieces|
      invariant forall k :: 0 <= k < i ==> !Overlap(pieces[k], span)
    {
      if span.offset < pieces[i].end && pieces[i].offset < span.end {
        return true;
      }
    }
    return false;
  }

  // ---------------------------------------------------------------------------------
  // The completeness check: insertion sort and a chain walk.
  // ---------------------------------------------------------------------------------

  function Insert(s: seq<Span>, p: Span): (r: seq<Span>)
    ensures |r| == |s| + 1
  {
    if s == [] then [p]
    else if s[|s| - 1].offset > p.offset then Insert(s[..|s| - 1], p) + [s[|s| - 1]]
    else s + [p]
  }

  function Sort(s: seq<Span>): (r: seq<Span>)
    ensures |r| == |s|
  {
    if s == [] then [] else Insert(Sort(s[..|s| - 1]), s[|s| - 1])
  }

  ghost predicate Sorted(s: seq<Span>)
  {
    forall i, j :: 0 <= i < j < |s| ==> s[i].offset <= s[j].offset
  }

  lemma {:induction false} InsertKeeps(s: seq<Span>, p: Span)
    ensures multiset(Insert(s, p)) == multiset(s) + multiset{p}
  {
    if s != [] && s[|s| - 1].offset > p.offset {
      assert s == s[..|s| - 1] + [s[|s| - 1]];
      InsertKeeps(s[..|s| - 1], p);
    }
  }

  lemma {:induction false} InsertSorts(s: seq<Span>, p: Span, top: int)
    requires Sorted(s) && p.offset <= top && forall i :: 0 <= i < |s| ==> s[i].offset <= top
    ensures Sorted(Insert(s, p)) && forall i :: 0 <= i <= |s| ==> Insert(s, p)[i].offset <= top
  {
    if s != [] && s[|s| - 1].offset > p.offset {
      InsertSorts(s[..|s| - 1], p, s[|s| - 1].offset);
    }
  }

  lemma InsertOk(s: seq<Span>, p: Span)
    requires Sorted(s)
    ensures Sorted(Insert(s, p)) && multiset(Insert(s, p)) == multiset(s) + multiset{p}
  {
    InsertKeeps(s, p);
    var last := if s == [] then p.offset else s[|s| - 1].offset;
    InsertSorts(s, p, if last > p.offset then last else p.offset);
  }

  lemma NothingSorted()
    ensures Sorted([])
  {
  }

  lemma {:induction false} SortOk(s: seq<Span>)
    ensures Sorted(Sort(s)) && multiset(Sort(s)) == multiset(s)
  {
    hide Insert, Sorted;
    if s == [] {
      NothingSorted();
    } else {
      SortOk(s[..|s| - 1]);
      InsertOk(Sort(s[..|s| - 1]), s[|s| - 1]);
      assert s == s[..|s| - 1] + [s[|s| - 1]];
    }
  }

  /** Shifting the larger elements of a sorted prefix up to make room. */
  lemma {:induction false} InsertShift(s: seq<Span>, p: Span, j: nat)
    requires j <= |s| && forall k :: j <= k < |s| ==> s[k].offset > p.offset
    ensures Insert(s, p) == Insert(s[..j], p) + s[j..]
    decreases |s|
  {
    if j == |s| {
      assert s[..j] == s && s[j..] == [];
    } else {
      var front := s[..|s| - 1];
      InsertShift(front, p, j);
      assert front[..j] == s[..j] && s[j..] == front[j..] + [s[|s| - 1]];
    }
  }

  /** Insertion sort by offset, in place. */
  method SortSpans(a: array<Span>)
    modifies a
    ensures a[..] == Sort(old(a[..]))
  {
    ghost var was := a[..];
    var i := 0;
    while i < a.Length
      invariant 0 <= i <= a.Length && a[..i] == Sort(was[..i]) && a[i..] == was[i..]
    {
      assert was[..i + 1][..i] == was[..i] && a[i] == was[i];
      Place(a, i);
      assert a[i + 1..] == was[i + 1..];
      i := i + 1;
    }
    assert a[..] == a[..i] && was[..i] == was;
  }

  /** The inner loop. */
  method Place(a: array<Span>, i: nat)
    requires i < a.Length
    modifies a
    ensures a[..i + 1] == Insert(old(a[..i]), old(a[i])) && a[i + 1..] == old(a[i + 1..])
  {
    ghost var was := a[..];
    var key := a[i];
    var j := i;
    while j > 0 && a[j - 1].offset > key.offset
      invariant 0 <= j <= i
      invariant forall k :: 0 <= k < j ==> a[k] == was[k]
      invariant forall k :: j < k <= i ==> a[k] == was[k - 1]
      invariant forall k :: i < k < a.Length ==> a[k] == was[k]
      invariant forall k :: j <= k < i ==> was[k].offset > key.offset
    {
      a[j] := a[j - 1];
      j := j - 1;
    }
    a[j] := key;
    assert was[..i] == old(a[..i]);
    InsertAt(was[..i], key, j, a[..i + 1]);
  }

  lemma InsertAt(s: seq<Span>, p: Span, j: nat, r: seq<Span>)
    requires j <= |s| && (forall k :: j <= k < |s| ==> s[k].offset > p.offset) && (j > 0 ==> s[j - 1].offset <= p.offset)
    requires |r| == |s| + 1 && r[j] == p
    requires (forall k :: 0 <= k < j ==> r[k] == s[k]) && forall k :: j < k <= |s| ==> r[k] == s[k - 1]
    ensures r == Insert(s, p)
  {
    InsertShift(s, p, j);
    assert Insert(s[..j], p) == s[..j] + [p];
  }

  /** Sorted pieces that start at 0, follow one another, and end at `total`. */
  predicate Chained(s: seq<Span>, total: int)
  {
    s != [] && s[0].offset == 0 && (forall i :: 0 < i < |s| ==> s[i].offset == s[i - 1].end) && s[|s| - 1].end == total
  }

  method ChainCheck(s: seq<Span>, total: int) returns (r: bool)
    requires s != []
    ensures r <==> Chained(s, total)
  {
    if s[0].offset != 0 {
      return false;
    }
    var end := s[0].end;
    for i := 1 to |s|
      invariant end == s[i - 1].end && forall k :: 0 < k < i ==> s[k].offset == s[k - 1].end
    {
      if s[i].offset != end {
        return false;
      }
      end := s[i].end;
    }
    return end == total;
  }

  lemma {:induction false} ChainHolds(s: seq<Span>, k: nat, x: int)
    requires s != [] && k < |s| && s[0].offset == 0 && (forall i :: 0 < i < |s| ==> s[i].offset == s[i - 1].end)
    requires 0 <= x < s[k].end
    ensures HeldBy(s, x)
  {
    if s[k].offset <= x {
      assert Holds(s[k], x);
    } else {
      ChainHolds(s, k - 1, x);
    }
  }

  lemma {:induction false} ChainWithin(s: seq<Span>, k: nat)
    requires k < |s| && Proper(s) && forall i :: 0 < i < |s| ==> s[i].offset == s[i - 1].end
    ensures s[k].end <= s[|s| - 1].end
    decreases |s| - k
  {
    if k + 1 < |s| {
      ChainWithin(s, k + 1);
      assert s[k + 1] in s;
    }
  }

  lemma ChainTiles(s: seq<Span>, total: int)
    requires Chained(s, total) && Proper(s)
    ensures Tiles(s, total)
  {
    assert s[|s| - 1] in s;
    forall p | p in s
      ensures p.end <= total
    {
      var k :| 0 <= k < |s| && s[k] == p;
      ChainWithin(s, k);
    }
    assert s[0] in s;
    forall x | 0 <= x < total
      ensures HeldBy(s, x)
    {
      ChainHolds(s, |s| - 1, x);
    }
  }

  lemma GapIsBare(s: seq<Span>, i: nat)
    requires Proper(s) && Sorted(s) && Disjoint(s) && 0 < i <= |s| && (i < |s| ==> s[i].offset > s[i - 1].end)
    ensures !HeldBy(s, s[i - 1].end)
  {
    var x := s[i - 1].end;
    forall p | p in s
      ensures !Holds(p, x)
    {
      var k :| 0 <= k < |s| && s[k] == p;
      assert s[i - 1] in s;
      if k < i - 1 {
        assert !Overlap(s[k], s[i - 1]);
      } else if k >= i {
        assert s[i].offset <= s[k].offset;
      }
    }
  }

  lemma Neighbours(s: seq<Span>, i: nat)
    requires Proper(s) && Sorted(s) && Disjoint(s) && 0 < i < |s|
    ensures s[i].offset >= s[i - 1].end
  {
    assert s[i] in s && s[i - 1] in s;
    assert !Overlap(s[i - 1], s[i]);
  }

  /** In a sorted disjoint tiling nothing can start after the previous end: that byte would be held by nobody. */
  lemma TilesChain(s: seq<Span>, total: int)
    requires Tiles(s, total) && Proper(s) && Sorted(s) && Disjoint(s)
    ensures Chained(s, total)
  {
    TilesStart(s, total);
    forall i | 0 < i < |s|
      ensures s[i].offset == s[i - 1].end
    {
      Neighbours(s, i);
      assert s[i] in s && s[i - 1] in s;
      if s[i].offset > s[i - 1].end {
        GapIsBare(s, i);
      }
    }
    assert s[|s| - 1] in s;
    if s[|s| - 1].end < total {
      GapIsBare(s, |s|);
    }
  }

  lemma TilesStart(s: seq<Span>, total: int)
    requires Tiles(s, total) && Proper(s) && Sorted(s)
    ensures s != [] && s[0].offset == 0
  {
    assert HeldBy(s, 0);
    var p :| p in s && Holds(p, 0);
    var z :| 0 <= z < |s| && s[z] == p;
    assert s[0] in s;
  }

  /** Reordering keeps every set-level property. */
  lemma Reordered(s: seq<Span>, t: seq<Span>, total: int)
    requires multiset(s) == multiset(t) && Tiles(s, total)
    ensures Tiles(t, total)
  {
    SameMembers(s, t);
    forall x | 0 <= x < total
      ensures HeldBy(t, x)
    {
      assert HeldBy(s, x);
    }
  }

  lemma SameMembers(s: seq<Span>, t: seq<Span>)
    requires multiset(s) == multiset(t)
    ensures forall p :: p in s <==> p in t
  {
    assert forall p :: p in s <==> p in multiset(s);
    assert forall p :: p in t <==> p in multiset(t);
  }

  lemma DisjointReordered(s: seq<Span>, t: seq<Span>)
    requires multiset(s) == multiset(t) && Disjoint(s) && Proper(s)
    ensures Disjoint(t) && Proper(t)
  {
    SameMembers(s, t);
    forall i, j | 0 <= i < j < |t|
      ensures !Overlap(t[i], t[j])
    {
      assert t[i] in s && t[j] in s;
      if t[i] == t[j] {
        Twice(t, i, j);
        ProperDistinct(s);
        Once(s, t[i]);
      }
    }
  }

  lemma Twice<T>(t: seq<T>, i: nat, j: nat)
    requires i < j < |t| && t[i] == t[j]
    ensures multiset(t)[t[i]] >= 2
  {
    assert t == t[..i] + [t[i]] + t[i + 1..j] + [t[j]] + t[j + 1..];
  }

  lemma {:induction false} Once<T>(s: seq<T>, p: T)
    requires forall i, j :: 0 <= i < j < |s| ==> s[i] != s[j]
    ensures multiset(s)[p] <= 1
  {
    if s != [] {
      var front, last := s[..|s| - 1], s[|s| - 1];
      assert s == front + [last];
      Once(front, p);
      assert forall k :: 0 <= k < |front| ==> front[k] == s[k] != last;
    }
  }

  lemma ProperDistinct(s: seq<Span>)
    requires Disjoint(s) && Proper(s)
    ensures forall i, j :: 0 <= i < j < |s| ==> s[i] != s[j]
  {
    forall i, j | 0 <= i < j < |s|
      ensures s[i] != s[j]
    {
      assert !Overlap(s[i], s[j]) && s[i] in s;
    }
  }

  /** The sort and the chain walk decide exactly whether the pieces tile [0, total). */
  lemma CompletenessIsCoverage(pieces: seq<Span>, total: int)
    requires Disjoint(pieces) && Proper(pieces)
    ensures Chained(Sort(pieces), total) <==> Tiles(pieces, total)
  {
    var s := Sort(pieces);
    SortOk(pieces);
    DisjointReordered(pieces, s);
    if Chained(s, total) {
      ChainTiles(s, total);
      Reordered(s, pieces, total);
    }
    if Tiles(pieces, total) {
      Reordered(pieces, s, total);
      TilesChain(s, total);
    }
  }

  method Complete(pieces: seq<Span>, total: int) returns (r: bool)
    requires pieces != [] && Disjoint(pieces) && Proper(pieces)
    ensures r <==> Tiles(pieces, total)
  {
    var a := new Span[|pieces|](i requires 0 <= i < |pieces| => pieces[i]);
    assert a[..] == pieces;
    SortSpans(a);
    r := ChainCheck(a[..], total);
    CompletenessIsCoverage(pieces, total);
  }

  // ---------------------------------------------------------------------------------
  // One entry.
  // ---------------------------------------------------------------------------------

  ghost predicate EntryOk(e: Entry)
  {
    && Disjoint(e.pieces) && Proper(e.pieces) && Within(e.pieces, |e.buffer|) && |e.pieces| <= MAX_PIECES
    && (e.pieces == [] ==> e == EMPTY.(key := e.key))
  }

  predicate InUse(e: Entry)
  {
    e.pieces != []
  }

  predicate IsExpired(e: Entry, now: nat)
  {
    now >= e.deadline
  }

  ghost predicate Collides(e: Entry, f: Fragment)
  {
    exists i :: 0 <= i < |e.pieces| && Overlap(e.pieces[i], SpanOf(f))
  }

  /** Why a fragment is refused, in the order of the checks. */
  ghost function Refusal(e: Entry, f: Fragment, lim: Limits): (r: Error)
  {
    var end := SpanOf(f).end;
    if |f.data| == 0 then InvalidFragment
    else if |e.pieces| >= MAX_PIECES then TooManyFragments
    else if f.offset % 8 != 0 then InvalidOffset
    else if f.more && |f.data| % 8 != 0 then InvalidFragment
    else if end > U32_MAX || (lim.maxPayload > 0 && end > lim.maxPayload) then PayloadTooLarge
    else if e.lastReceived && end > e.total then TerminalOverflow
    else if !f.more && e.lastReceived && end != e.total then DuplicateTerminal
    else if Collides(e, f) || e.discarded then OverlapDetected
    else if end - |e.buffer| > lim.budget then ByteBudgetExceeded
    else NoError
  }

  function Deadline(now: nat, expires: nat): (r: int)
  {
    var ttl := if expires == 0 then DEFAULT_TTL else expires;
    if ttl > U64_MAX - now then U64_MAX else now + ttl
  }

  /** Bitwise or of two-bit codepoints. */
  function OrEcn(a: int, b: int): (r: int)
    requires 0 <= a < 4
    ensures 0 <= r < 4
    ensures r % 2 == 1 <==> a % 2 == 1 || b % 2 == 1
    ensures r / 2 == 1 <==> a / 2 == 1 || b % 4 / 2 == 1
  {
    (if a % 2 == 1 || b % 2 == 1 then 1 else 0) + (if a / 2 == 1 || b % 4 / 2 == 1 then 2 else 0)
  }

  function Zeros(n: nat): (r: bytes)
    ensures |r| == n
  {
    seq(n, _ => 0)
  }

  /** The buffer grown to hold the fragment, with its bytes copied in. */
  function Written(buffer: bytes, offset: nat, data: bytes): (r: bytes)
    ensures |r| == if |buffer| < offset + |data| then offset + |data| else |buffer|
  {
    var end := offset + |data|;
    var grown := if |buffer| < end then buffer + Zeros(end - |buffer|) else buffer;
    grown[..offset] + data + grown[end..]
  }

  function Stored(e: Entry, f: Fragment, now: nat, expires: nat): (r: Entry)
    requires 0 <= e.ecn < 4
  {
    var end := SpanOf(f).end;
    e.(pieces := e.pieces + [SpanOf(f)], lastReceived := e.lastReceived || !f.more, total := if f.more then e.total else end,
       deadline := if e.pieces == [] then Deadline(now, expires) else e.deadline, ecn := OrEcn(e.ecn, f.ecn),
       buffer := Written(e.buffer, f.offset, f.data))
  }

  /** What AddFragment does, with completeness read as coverage. */
  ghost function Add(e: Entry, f: Fragment, lim: Limits, now: nat, expires: nat): (r: (Entry, Result))
    requires 0 <= e.ecn < 4
  {
    var error := Refusal(e, f, lim);
    if error != NoError then
      (if error == OverlapDetected && Collides(e, f) && e.key.Key? && e.key.version == 6 then e.(discarded := true) else e,
       Result(error, false, 0, 0, []))
    else
      var s := Stored(e, f, now, expires);
      if s.lastReceived && Tiles(s.pieces, s.total) && s.total <= |s.buffer| then
        (s.(buffer := []), Result(NoError, true, s.total, s.ecn, s.buffer[..s.total]))
      else (s, Result(NoError, false, 0, 0, []))
  }

  lemma StoredOk(e: Entry, f: Fragment, now: nat, expires: nat)
    requires EntryOk(e) && 0 <= e.ecn < 4 && !Collides(e, f) && |f.data| > 0 && |e.pieces| < MAX_PIECES
    ensures EntryOk(Stored(e, f, now, expires))
    ensures var s := Stored(e, f, now, expires); s.lastReceived && Tiles(s.pieces, s.total) ==> s.total <= |s.buffer|
  {
    var s := Stored(e, f, now, expires);
    forall p | p in s.pieces
      ensures 0 <= p.offset < p.end && p.end <= |s.buffer|
    {
      assert p in e.pieces || p == SpanOf(f);
    }
    if Tiles(s.pieces, s.total) {
      assert HeldBy(s.pieces, s.total - 1);
    }
  }

  method AddFragment(e: Entry, f: Fragment, lim: Limits, now: nat, expires: nat) returns (after: Entry, r: Result)
    requires EntryOk(e) && 0 <= e.ecn < 4
    ensures (after, r) == Add(e, f, lim, now, expires)
    ensures !r.complete ==> EntryOk(after) && 0 <= after.ecn < 4
  {
    hide Tiles, Disjoint, Proper, Within, Written;
    after, r := e, Result(NoError, false, 0, 0, []);
    if |f.data| == 0 {
      r := r.(error := InvalidFragment);
      return;
    }
    if |e.pieces| >= MAX_PIECES {
      r := r.(error := TooManyFragments);
      return;
    }
    if f.offset != 0 && f.offset % 8 != 0 {
      r := r.(error := InvalidOffset);
      return;
    }
    if f.more && |f.data| % 8 != 0 {
      r := r.(error := InvalidFragment);
      return;
    }
    var end := f.offset + |f.data|;
    if end > U32_MAX {
      r := r.(error := PayloadTooLarge);
      return;
    }
    if lim.maxPayload > 0 && end > lim.maxPayload {
      r := r.(error := PayloadTooLarge);
      return;
    }
    if e.lastReceived && end > e.total {
      r := r.(error := TerminalOverflow);
      return;
    }
    if !f.more && e.lastReceived {
      if end != e.total {
        r := r.(error := DuplicateTerminal);
        return;
      }
    }
    var overlap := HasOverlap(e.pieces, Span(f.offset, end));
    if overlap {
      r := r.(error := OverlapDetected);
      if e.key.Key? && e.key.version == 6 {
        after := after.(discarded := true);
      }
      return;
    }
    if e.discarded {
      r := r.(error := OverlapDetected);
      return;
    }
    if end > |e.buffer| && end - |e.buffer| > lim.budget {
      r := r.(error := ByteBudgetExceeded);
      return;
    }
    StoredOk(e, f, now, expires);
    after := Stored(e, f, now, expires);
    if after.lastReceived {
      var complete := Complete(after.pieces, after.total);
      if complete {
        r := Result(NoError, true, after.total, after.ecn, after.buffer[..after.total]);
        after := after.(buffer := []);
      }
    }
  }

  // ---------------------------------------------------------------------------------
  // Runs on one entry.
  // ---------------------------------------------------------------------------------

  datatype Arrival = Arrival(f: Fragment, lim: Limits, now: nat, expires: nat)

  ghost predicate Ready(e: Entry)
  {
    EntryOk(e) && 0 <= e.ecn < 4
  }

  /** The entry after a run; a completed one has been handed over and takes no more. */
  ghost function After(e: Entry, run: seq<Arrival>): (r: Entry)
    requires Ready(e)
    ensures Ready(r)
  {
    if run == [] then e
    else
      var before := After(e, run[..|run| - 1]);
      var a := run[|run| - 1];
      var step := Add(before, a.f, a.lim, a.now, a.expires);
      AddReady(before, a.f, a.lim, a.now, a.expires);
      if step.1.complete then EMPTY else step.0
  }

  lemma AddReady(e: Entry, f: Fragment, lim: Limits, now: nat, expires: nat)
    requires Ready(e)
    ensures !Add(e, f, lim, now, expires).1.complete ==> Ready(Add(e, f, lim, now, expires).0)
  {
    hide Tiles, Written, Disjoint, Proper, Within;
    if Refusal(e, f, lim) == NoError {
      StoredOk(e, f, now, expires);
    }
  }

  ghost function ResultAt(e: Entry, run: seq<Arrival>, k: nat): (r: Result)
    requires Ready(e) && k < |run|
  {
    Add(After(e, run[..k]), run[k].f, run[k].lim, run[k].now, run[k].expires).1
  }

  /** The checks that come before the overlap test. */
  predicate PassesGuards(e: Entry, f: Fragment, lim: Limits)
  {
    var end := SpanOf(f).end;
    && 0 < |f.data| && |e.pieces| < MAX_PIECES && f.offset % 8 == 0 && (f.more ==> |f.data| % 8 == 0)
    && end <= U32_MAX && (lim.maxPayload > 0 ==> end <= lim.maxPayload)
    && (e.lastReceived ==> end <= e.total && (!f.more ==> end == e.total))
  }

  ghost predicate Ipv6Entry(e: Entry)
  {
    e.key.Key? && e.key.version == 6
  }

  /** Section 4 of RFC 5722 wants a datagram with an overlap discarded. The overlap is noticed
      exactly when the fragment passes the checks before it; otherwise the entry stays as it was. */
  lemma OverlapNoticed(e: Entry, f: Fragment, lim: Limits, now: nat, expires: nat)
    requires Ready(e) && Collides(e, f) && Ipv6Entry(e)
    ensures Add(e, f, lim, now, expires).0.discarded <==> e.discarded || PassesGuards(e, f, lim)
    ensures !Add(e, f, lim, now, expires).1.complete
    ensures !PassesGuards(e, f, lim) ==> Add(e, f, lim, now, expires).0 == e
  {
    hide Tiles, Written, Collides;
  }

  lemma DiscardIsFinal(e: Entry, f: Fragment, lim: Limits, now: nat, expires: nat)
    requires Ready(e)
    ensures e.discarded ==> !Add(e, f, lim, now, expires).1.complete && Add(e, f, lim, now, expires).0.discarded
  {
    hide Tiles, Written, Collides;
  }

  /** After a noticed overlap nothing completes the datagram, whatever else arrives. */
  lemma {:induction false} OverlapNeverCompletes(e: Entry, run: seq<Arrival>, k: nat, n: nat)
    requires Ready(e) && k < n < |run| && Ipv6Entry(e)
    requires forall m :: 0 <= m < k ==> !ResultAt(e, run, m).complete
    requires Collides(After(e, run[..k]), run[k].f) && PassesGuards(After(e, run[..k]), run[k].f, run[k].lim)
    ensures !ResultAt(e, run, n).complete && After(e, run[..n]).discarded
  {
    hide Refusal, Add, PassesGuards, Collides;
    KeyStays(e, run, k);
    OverlapNoticed(After(e, run[..k]), run[k].f, run[k].lim, run[k].now, run[k].expires);
    if n > k + 1 {
      OverlapNeverCompletes(e, run, k, n - 1);
    } else {
      assert !ResultAt(e, run, k).complete;
    }
    var a := run[n - 1];
    assert run[..n][..n - 1] == run[..n - 1];
    DiscardIsFinal(After(e, run[..n - 1]), a.f, a.lim, a.now, a.expires);
    DiscardIsFinal(After(e, run[..n]), run[n].f, run[n].lim, run[n].now, run[n].expires);
  }

  /** An overlap that an earlier check refuses leaves no trace: the run goes on as if that
      fragment had never come, so the datagram completes if the others complete it. */
  lemma {:induction false} UnnoticedLeavesNoTrace(e: Entry, run: seq<Arrival>, k: nat, n: nat)
    requires Ready(e) && k < n <= |run| && Ipv6Entry(e)
    requires forall m :: 0 <= m < k ==> !ResultAt(e, run, m).complete
    requires Collides(After(e, run[..k]), run[k].f) && !PassesGuards(After(e, run[..k]), run[k].f, run[k].lim)
    ensures After(e, run[..n]) == After(e, run[..k] + run[k + 1..n])
  {
    hide Refusal, Add, PassesGuards, Collides;
    assert run[..n][..n - 1] == run[..n - 1];
    if n == k + 1 {
      KeyStays(e, run, k);
      OverlapNoticed(After(e, run[..k]), run[k].f, run[k].lim, run[k].now, run[k].expires);
      assert run[..k] + run[k + 1..n] == run[..k];
    } else {
      UnnoticedLeavesNoTrace(e, run, k, n - 1);
      var rest := run[..k] + run[k + 1..n];
      assert rest[..|rest| - 1] == run[..k] + run[k + 1..n - 1];
    }
  }

  function Octets(offset: nat, more: bool, n: nat): (a: Arrival)
  {
    Arrival(Fragment(offset, Zeros(n), more, 0), Limits(0, 100), 0, 0)
  }

  /** An IPv6 datagram that completes although one of its fragments overlapped: the last
      eight bytes, then a fragment over them that runs past the end, then the first eight. */
  lemma OverlapCanComplete(key: Key)
    requires key.Key? && key.version == 6
    ensures var e, run := EMPTY.(key := key), [Octets(8, false, 8), Octets(8, true, 16), Octets(0, true, 8)];
            && Ready(e) && Collides(After(e, run[..1]), run[1].f) && ResultAt(e, run, 1).error == TerminalOverflow
            && ResultAt(e, run, 2).complete
  {
    hide Add, Refusal, Stored, Collides;
    var e, a, b, c := EMPTY.(key := key), Octets(8, false, 8), Octets(8, true, 16), Octets(0, true, 8);
    var run := [a, b, c];
    assert run[..0] == [] && run[..1] == [a] && [a][..0] == [] && run[..2] == [a, b] && [a, b][..1] == [a];
    LastEight(key);
    var first := Stored(e, a.f, 0, 0);
    assert After(e, []) == e && After(e, [a]) == first;
    PastTheEnd(first);
    assert After(e, [a, b]) == first;
    FirstEight(first);
  }

  lemma LastEight(key: Key)
    requires key.Key?
    ensures var e, a := EMPTY.(key := key), Octets(8, false, 8);
            var s := Stored(e, a.f, 0, 0);
            && Ready(e) && Ready(s) && Add(e, a.f, a.lim, 0, 0) == (s, Result(NoError, false, 0, 0, []))
            && s.pieces == [Span(8, 16)] && s.lastReceived && s.total == 16 && !s.discarded && |s.buffer| == 16
  {
    hide Written, Tiles;
    HoleIsBare();
    var e, a := EMPTY.(key := key), Octets(8, false, 8);
    StoredOk(e, a.f, 0, 0);
    assert Stored(e, a.f, 0, 0).pieces == [Span(8, 16)];
  }

  lemma PastTheEnd(s: Entry)
    requires Ready(s) && s.pieces == [Span(8, 16)] && s.lastReceived && s.total == 16
    ensures var b := Octets(8, true, 16);
            Collides(s, b.f) && Add(s, b.f, b.lim, 0, 0) == (s, Result(TerminalOverflow, false, 0, 0, []))
  {
    hide Written, Tiles;
    assert Overlap(s.pieces[0], SpanOf(Octets(8, true, 16).f));
  }

  lemma FirstEight(s: Entry)
    requires Ready(s) && s.pieces == [Span(8, 16)] && s.lastReceived && s.total == 16 && !s.discarded && |s.buffer| == 16
    ensures var c := Octets(0, true, 8); Add(s, c.f, c.lim, 0, 0).1.complete
  {
    hide Written, Tiles;
    assert Stored(s, Octets(0, true, 8).f, 0, 0).pieces == [Span(8, 16), Span(0, 8)];
    TwoHalves();
  }

  lemma HoleIsBare()
    ensures !Tiles([Span(8, 16)], 16)
  {
    assert !HeldBy([Span(8, 16)], 0);
  }

  lemma TwoHalves()
    ensures Tiles([Span(8, 16), Span(0, 8)], 16)
  {
    var pieces := [Span(8, 16), Span(0, 8)];
    forall x | 0 <= x < 16
      ensures HeldBy(pieces, x)
    {
      assert pieces[0] in pieces && pieces[1] in pieces;
      assert Holds(pieces[0], x) || Holds(pieces[1], x);
    }
  }

  lemma {:induction false} KeyStays(e: Entry, run: seq<Arrival>, k: nat)
    requires Ready(e) && k <= |run| && forall m :: 0 <= m < k ==> !ResultAt(e, run, m).complete
    ensures After(e, run[..k]).key == e.key
  {
    hide Refusal, Tiles, Collides;
    if k > 0 {
      KeyStays(e, run, k - 1);
      assert run[..k][..k - 1] == run[..k - 1];
      assert !ResultAt(e, run, k - 1).complete;
    }
  }

  // ---------------------------------------------------------------------------------
  // Confluence.
  // ---------------------------------------------------------------------------------

  ghost predicate PieceOf(payload: bytes, a: Arrival)
  {
    var end := a.f.offset + |a.f.data|;
    && 0 < |a.f.data| && end <= |payload| && a.f.data == payload[a.f.offset..end]
    && a.f.offset % 8 == 0 && (a.f.more <==> end < |payload|) && (a.f.more ==> |a.f.data| % 8 == 0)
    && (a.lim.maxPayload == 0 || |payload| <= a.lim.maxPayload)
  }

  /** The budget covers what the fragment adds to the entry's buffer. */
  predicate Affordable(e: Entry, a: Arrival)
  {
    SpanOf(a.f).end <= |e.buffer| + a.lim.budget
  }

  ghost predicate AffordableAt(e: Entry, run: seq<Arrival>, k: nat)
    requires Ready(e) && k < |run|
  {
    Affordable(After(e, run[..k]), run[k])
  }

  ghost function Spans(run: seq<Arrival>): (r: seq<Span>)
    ensures |r| == |run| && forall i :: 0 <= i < |run| ==> r[i] == SpanOf(run[i].f)
  {
    seq(|run|, i requires 0 <= i < |run| => SpanOf(run[i].f))
  }

  /** The arrivals are a payload cut into fragments, in any order. */
  ghost predicate IsCut(payload: bytes, run: seq<Arrival>)
  {
    && 0 < |payload| <= U32_MAX && |run| <= MAX_PIECES
    && (forall i :: 0 <= i < |run| ==> PieceOf(payload, run[i]))
    && Disjoint(Spans(run)) && Covered(Spans(run), |payload|)
  }

  /** The order is immaterial: every permutation of a cut is a cut. */
  lemma CutReordered(payload: bytes, a: seq<Arrival>, b: seq<Arrival>)
    requires IsCut(payload, a) && multiset(a) == multiset(b)
    ensures IsCut(payload, b)
  {
    assert |a| == |multiset(a)| == |b|;
    forall i | 0 <= i < |b|
      ensures b[i] in a
    {
      assert b[i] in multiset(b);
    }
    forall i, j | 0 <= i < j < |b|
      ensures !Overlap(Spans(b)[i], Spans(b)[j])
    {
      ReorderedDisjoint(payload, a, b, i, j);
    }
    forall x | 0 <= x < |payload|
      ensures HeldBy(Spans(b), x)
    {
      ReorderedHolds(payload, a, b, x);
    }
  }

  lemma ReorderedDisjoint(payload: bytes, a: seq<Arrival>, b: seq<Arrival>, i: nat, j: nat)
    requires IsCut(payload, a) && multiset(a) == multiset(b) && i < j < |b|
    ensures !Overlap(Spans(b)[i], Spans(b)[j])
  {
    ArrivalsDistinct(payload, a);
    assert b[i] in multiset(b) && b[j] in multiset(b);
    if b[i] == b[j] {
      Twice(b, i, j);
      Once(a, b[i]);
    }
    var m :| 0 <= m < |a| && a[m] == b[i];
    var n :| 0 <= n < |a| && a[n] == b[j];
    assert m < n ==> !Overlap(Spans(a)[m], Spans(a)[n]);
    assert n < m ==> !Overlap(Spans(a)[n], Spans(a)[m]);
  }

  lemma ReorderedHolds(payload: bytes, a: seq<Arrival>, b: seq<Arrival>, x: int)
    requires IsCut(payload, a) && multiset(a) == multiset(b) && 0 <= x < |payload|
    ensures HeldBy(Spans(b), x)
  {
    assert HeldBy(Spans(a), x);
    var p :| p in Spans(a) && Holds(p, x);
    var m :| 0 <= m < |a| && Spans(a)[m] == p;
    assert a[m] in multiset(a);
    var n :| 0 <= n < |b| && b[n] == a[m];
    assert Spans(b)[n] == p;
  }

  lemma ArrivalsDistinct(payload: bytes, a: seq<Arrival>)
    requires IsCut(payload, a)
    ensures forall i, j :: 0 <= i < j < |a| ==> a[i] != a[j]
  {
    forall i, j | 0 <= i < j < |a|
      ensures a[i] != a[j]
    {
      assert !Overlap(Spans(a)[i], Spans(a)[j]);
      assert PieceOf(payload, a[i]);
    }
  }

  /** Bytes copied so far agree with the payload. */
  ghost predicate Agrees(payload: bytes, e: Entry)
  {
    |e.buffer| <= |payload| &&
    forall x :: 0 <= x < |e.buffer| && HeldBy(e.pieces, x) ==> e.buffer[x] == payload[x]
  }

  ghost predicate EcnOf(e: Entry, run: seq<Arrival>)
  {
    && (e.ecn % 2 == 1 <==> exists i :: 0 <= i < |run| && run[i].f.ecn % 2 == 1)
    && (e.ecn / 2 == 1 <==> exists i :: 0 <= i < |run| && run[i].f.ecn % 4 / 2 == 1)
  }

  ghost predicate Partway(payload: bytes, e: Entry, run: seq<Arrival>)
  {
    && Ready(e) && e.pieces == Spans(run) && !e.discarded && Agrees(payload, e) && EcnOf(e, run)
    && (e.lastReceived ==> e.total == |payload|)
    && (e.lastReceived <==> exists i :: 0 <= i < |run| && !run[i].f.more)
  }

  lemma WrittenBytes(buffer: bytes, offset: nat, data: bytes, x: nat)
    requires x < |Written(buffer, offset, data)|
    ensures offset <= x < offset + |data| ==> Written(buffer, offset, data)[x] == data[x - offset]
    ensures x < |buffer| && !(offset <= x < offset + |data|) ==> Written(buffer, offset, data)[x] == buffer[x]
  {
  }

  lemma StoredAgrees(payload: bytes, e: Entry, a: Arrival)
    requires Ready(e) && Agrees(payload, e) && PieceOf(payload, a) && !Collides(e, a.f)
    ensures Agrees(payload, Stored(e, a.f, a.now, a.expires))
  {
    hide Written, Disjoint;
    var s := Stored(e, a.f, a.now, a.expires);
    forall x | 0 <= x < |s.buffer| && HeldBy(s.pieces, x)
      ensures s.buffer[x] == payload[x]
    {
      WrittenBytes(e.buffer, a.f.offset, a.f.data, x);
      if !Holds(SpanOf(a.f), x) {
        var p :| p in s.pieces && Holds(p, x);
        assert p in e.pieces;
        assert HeldBy(e.pieces, x) && p.end <= |e.buffer|;
      }
    }
  }

  lemma NoCollision(payload: bytes, e: Entry, run: seq<Arrival>, k: nat)
    requires IsCut(payload, run) && k < |run| && Partway(payload, e, run[..k])
    ensures !Collides(e, run[k].f)
  {
    forall i | 0 <= i < |e.pieces|
      ensures !Overlap(e.pieces[i], SpanOf(run[k].f))
    {
      assert e.pieces[i] == SpanOf(run[..k][i].f) == Spans(run)[i];
      assert !Overlap(Spans(run)[i], Spans(run)[k]);
    }
  }

  /** Nothing but the budget refuses the next fragment of a cut. */
  lemma NextIsAccepted(payload: bytes, e: Entry, run: seq<Arrival>, k: nat)
    requires IsCut(payload, run) && k < |run| && Partway(payload, e, run[..k])
    ensures Refusal(e, run[k].f, run[k].lim) == if Affordable(e, run[k]) then NoError else ByteBudgetExceeded
  {
    NoCollision(payload, e, run, k);
    assert PieceOf(payload, run[k]);
    hide Collides, Agrees, EcnOf, Disjoint, Covered;
  }

  lemma NextIsStored(payload: bytes, e: Entry, run: seq<Arrival>, k: nat)
    requires IsCut(payload, run) && k < |run| && Partway(payload, e, run[..k])
    ensures Partway(payload, Stored(e, run[k].f, run[k].now, run[k].expires), run[..k + 1])
  {
    hide Agrees, Covered, Written, Disjoint, EcnOf, Collides;
    var a := run[k];
    var s := Stored(e, a.f, a.now, a.expires);
    NoCollision(payload, e, run, k);
    assert PieceOf(payload, a);
    StoredOk(e, a.f, a.now, a.expires);
    StoredAgrees(payload, e, a);
    assert run[..k + 1] == run[..k] + [a];
    assert s.pieces == Spans(run[..k + 1]);
    StoredFlags(e, a, run[..k]);
  }

  lemma StoredFlags(e: Entry, a: Arrival, run: seq<Arrival>)
    requires 0 <= e.ecn < 4 && EcnOf(e, run)
    requires e.lastReceived <==> exists i :: 0 <= i < |run| && !run[i].f.more
    ensures EcnOf(Stored(e, a.f, a.now, a.expires), run + [a])
    ensures Stored(e, a.f, a.now, a.expires).lastReceived <==> exists i :: 0 <= i < |run + [a]| && !(run + [a])[i].f.more
  {
    var all := run + [a];
    var s := Stored(e, a.f, a.now, a.expires);
    hide Written;
    assert all[|run|] == a && forall i :: 0 <= i < |run| ==> all[i] == run[i];
    if e.lastReceived {
      var i :| 0 <= i < |run| && !run[i].f.more;
      assert !all[i].f.more;
    }
    if e.ecn % 2 == 1 {
      var i :| 0 <= i < |run| && run[i].f.ecn % 2 == 1;
      assert all[i].f.ecn % 2 == 1;
    }
    if e.ecn / 2 == 1 {
      var i :| 0 <= i < |run| && run[i].f.ecn % 4 / 2 == 1;
      assert all[i].f.ecn % 4 / 2 == 1;
    }
  }

  /** As long as a fragment is missing, its first byte is held by nobody. */
  lemma MissingIsBare(payload: bytes, e: Entry, run: seq<Arrival>, k: nat)
    requires IsCut(payload, run) && k < |run| && e.pieces == Spans(run[..k])
    ensures !Tiles(e.pieces, |payload|)
  {
    var x := run[|run| - 1].f.offset;
    assert PieceOf(payload, run[|run| - 1]);
    forall p | p in e.pieces
      ensures !Holds(p, x)
    {
      var i :| 0 <= i < k && e.pieces[i] == p;
      assert p == Spans(run)[i];
      assert !Overlap(Spans(run)[i], Spans(run)[|run| - 1]);
      assert PieceOf(payload, run[i]);
    }
    assert !HeldBy(e.pieces, x);
  }

  lemma TerminalIn(payload: bytes, run: seq<Arrival>)
    requires IsCut(payload, run)
    ensures exists i :: 0 <= i < |run| && !run[i].f.more && Spans(run)[i].end == |payload|
  {
    assert HeldBy(Spans(run), |payload| - 1);
    var p :| p in Spans(run) && Holds(p, |payload| - 1);
    var i :| 0 <= i < |run| && Spans(run)[i] == p;
    assert PieceOf(payload, run[i]);
  }

  lemma CutTiles(payload: bytes, run: seq<Arrival>)
    requires IsCut(payload, run)
    ensures Tiles(Spans(run), |payload|)
  {
    forall q | q in Spans(run)
      ensures q.end <= |payload|
    {
      var j :| 0 <= j < |run| && Spans(run)[j] == q;
      assert PieceOf(payload, run[j]);
    }
  }

  /** With all of them there, the buffer is the payload. */
  lemma AllThere(payload: bytes, e: Entry, run: seq<Arrival>)
    requires IsCut(payload, run) && Partway(payload, e, run)
    ensures e.lastReceived && e.total == |payload| && Tiles(e.pieces, e.total) && e.buffer == payload
  {
    TerminalIn(payload, run);
    CutTiles(payload, run);
    hide IsCut, EcnOf, Disjoint, PieceOf;
    var i :| 0 <= i < |run| && !run[i].f.more && Spans(run)[i].end == |payload|;
    assert Spans(run)[i] in e.pieces;
    forall x | 0 <= x < |payload|
      ensures HeldBy(e.pieces, x)
    {
    }
    assert e.buffer == payload;
  }

  lemma {:induction false} CutRuns(payload: bytes, e: Entry, run: seq<Arrival>, k: nat)
    requires IsCut(payload, run) && k < |run| && Ready(e) && e.pieces == []
    requires forall i :: 0 <= i < k ==> AffordableAt(e, run, i)
    ensures Partway(payload, After(e, run[..k]), run[..k])
    ensures k > 0 ==> ResultAt(e, run, k - 1) == Result(NoError, false, 0, 0, [])
  {
    if k == 0 {
      assert run[..0] == [] && Spans([]) == [];
    } else {
      CutRuns(payload, e, run, k - 1);
      var before := After(e, run[..k - 1]);
      var a := run[k - 1];
      assert AffordableAt(e, run, k - 1);
      NextIsAccepted(payload, before, run, k - 1);
      NextIsStored(payload, before, run, k - 1);
      var s := Stored(before, a.f, a.now, a.expires);
      MissingIsBare(payload, s, run, k);
      assert run[..k][..k - 1] == run[..k - 1];
      hide Refusal, IsCut, Tiles;
    }
  }

  /** Reassembly does not depend on the order of arrival. A fragment of the cut is refused exactly
      when the budget does not cover what it adds; if none was, the datagram completes exactly on the
      last one, with the original payload and the union of the ECN marks. */
  lemma Confluence(payload: bytes, e: Entry, run: seq<Arrival>, k: nat)
    requires IsCut(payload, run) && k < |run| && Ready(e) && e.pieces == []
    requires forall i :: 0 <= i < k ==> AffordableAt(e, run, i)
    ensures ResultAt(e, run, k).error == if AffordableAt(e, run, k) then NoError else ByteBudgetExceeded
    ensures ResultAt(e, run, k).complete <==> k == |run| - 1 && AffordableAt(e, run, k)
    ensures ResultAt(e, run, k).complete ==>
              ResultAt(e, run, k).payload == payload && ResultAt(e, run, k).total == |payload| &&
              EcnOf(e.(ecn := ResultAt(e, run, k).ecn), run)
  {
    hide Refusal, Tiles, EcnOf, Stored, PieceOf, Disjoint, Covered, Agrees, EntryOk, Written;
    if !AffordableAt(e, run, k) {
      CutRuns(payload, e, run, k);
      NextIsAccepted(payload, After(e, run[..k]), run, k);
    } else if k < |run| - 1 {
      CutRuns(payload, e, run, k + 1);
    } else {
      CutRuns(payload, e, run, k);
      LastCompletes(payload, After(e, run[..k]), run);
      hide Add, EcnOf, Partway, IsCut, Ready, After;
      EcnMoves(After(e, run[..k]), e, ResultAt(e, run, k).ecn, run);
    }
  }

  lemma EcnMoves(e: Entry, d: Entry, ecn: int, run: seq<Arrival>)
    requires EcnOf(e.(ecn := ecn), run)
    ensures EcnOf(d.(ecn := ecn), run)
  {
  }

  lemma LastCompletes(payload: bytes, e: Entry, run: seq<Arrival>)
    requires IsCut(payload, run) && run != [] && Partway(payload, e, run[..|run| - 1]) && Affordable(e, run[|run| - 1])
    ensures var a := run[|run| - 1]; var r := Add(e, a.f, a.lim, a.now, a.expires).1;
            r.error == NoError && r.complete && r.payload == payload && r.total == |payload| && EcnOf(e.(ecn := r.ecn), run)
  {
    var k, a := |run| - 1, run[|run| - 1];
    NextIsAccepted(payload, e, run, k);
    NextIsStored(payload, e, run, k);
    assert run[..k + 1] == run;
    var s := Stored(e, a.f, a.now, a.expires);
    AllThere(payload, s, run);
    assert EcnOf(s, run) && s == s.(ecn := s.ecn);
    EcnMoves(s, e, s.ecn, run);
    hide Refusal, IsCut, Tiles, EcnOf, Agrees, Spans, EntryOk, Stored;
  }

  ghost predicate Accepted(e: Entry, run: seq<Arrival>, k: nat)
    requires Ready(e) && k < |run|
  {
    ResultAt(e, run, k).error == NoError
  }

  /** The accepted fragment's bytes lie where it said. */
  predicate Placed(buffer: bytes, f: Fragment)
  {
    SpanOf(f).end <= |buffer| && buffer[f.offset..f.offset + |f.data|] == f.data
  }

  /** The pieces of an entry are exactly the fragments accepted, each with its bytes in place. */
  ghost predicate Faithful(e: Entry, run: seq<Arrival>, n: nat, pieces: seq<Span>, buffer: bytes)
    requires Ready(e) && n <= |run|
  {
    && (forall k :: 0 <= k < n && Accepted(e, run, k) ==> SpanOf(run[k].f) in pieces && Placed(buffer, run[k].f))
    && (forall p :: p in pieces ==> exists k :: 0 <= k < n && Accepted(e, run, k) && SpanOf(run[k].f) == p)
  }

  /** Some fragment accepted no later than the nth covers byte x. */
  ghost predicate Brought(e: Entry, run: seq<Arrival>, n: nat, x: int)
    requires Ready(e) && n < |run|
  {
    exists k :: 0 <= k <= n && Accepted(e, run, k) && Holds(SpanOf(run[k].f), x)
  }

  lemma PlacedStays(buffer: bytes, f: Fragment, g: Fragment)
    requires Placed(buffer, g) && !Overlap(SpanOf(g), SpanOf(f)) && |f.data| > 0 && |g.data| > 0
    ensures Placed(Written(buffer, f.offset, f.data), g)
  {
    var w := Written(buffer, f.offset, f.data);
    forall x | g.offset <= x < g.offset + |g.data|
      ensures w[x] == buffer[x]
    {
      WrittenBytes(buffer, f.offset, f.data, x);
    }
  }

  lemma PlacedNow(buffer: bytes, f: Fragment)
    ensures Placed(Written(buffer, f.offset, f.data), f)
  {
    var w := Written(buffer, f.offset, f.data);
    forall x | f.offset <= x < f.offset + |f.data|
      ensures w[x] == f.data[x - f.offset]
    {
      WrittenBytes(buffer, f.offset, f.data, x);
    }
  }

  lemma FaithfulStep(e: Entry, run: seq<Arrival>, n: nat, d: Entry)
    requires Ready(e) && n < |run| && Ready(d) && d == After(e, run[..n]) && Faithful(e, run, n, d.pieces, d.buffer)
    ensures Accepted(e, run, n) ==>
              var s := Stored(d, run[n].f, run[n].now, run[n].expires); Faithful(e, run, n + 1, s.pieces, s.buffer)
    ensures !Accepted(e, run, n) ==> Faithful(e, run, n + 1, d.pieces, d.buffer)
  {
    hide After, Tiles, Placed, Written, Disjoint, Within, Accepted;
    var f := run[n].f;
    assert Accepted(e, run, n) <==> Refusal(d, f, run[n].lim) == NoError by { AcceptedMeans(e, run, n, d); }
    if Accepted(e, run, n) {
      var s := Stored(d, f, run[n].now, run[n].expires);
      assert SpanOf(f) in s.pieces;
      PlacedNow(d.buffer, f);
      forall k | 0 <= k < n && Accepted(e, run, k)
        ensures SpanOf(run[k].f) in s.pieces && Placed(s.buffer, run[k].f)
      {
        var i :| 0 <= i < |d.pieces| && d.pieces[i] == SpanOf(run[k].f);
        assert !Overlap(d.pieces[i], SpanOf(f));
        PlacedStays(d.buffer, f, run[k].f);
      }
      forall p | p in s.pieces
        ensures exists k :: 0 <= k < n + 1 && Accepted(e, run, k) && SpanOf(run[k].f) == p
      {
        assert p in d.pieces || p == SpanOf(f);
      }
    }
  }

  lemma AcceptedMeans(e: Entry, run: seq<Arrival>, n: nat, d: Entry)
    requires Ready(e) && n < |run| && d == After(e, run[..n])
    ensures Accepted(e, run, n) <==> Refusal(d, run[n].f, run[n].lim) == NoError
  {
    hide Refusal, Tiles, After;
  }

  lemma NothingYet(e: Entry, run: seq<Arrival>)
    requires Ready(e)
    ensures Faithful(e, run, 0, [], e.buffer)
  {
  }

  lemma {:induction false} RunFaithful(e: Entry, run: seq<Arrival>, n: nat)
    requires Ready(e) && e.pieces == [] && n <= |run| && forall m :: 0 <= m < n ==> !ResultAt(e, run, m).complete
    ensures Faithful(e, run, n, After(e, run[..n]).pieces, After(e, run[..n]).buffer)
  {
    hide Refusal, Tiles, Faithful, Stored;
    if n == 0 {
      NothingYet(e, run);
    } else {
      RunFaithful(e, run, n - 1);
      var d := After(e, run[..n - 1]);
      FaithfulStep(e, run, n - 1, d);
      assert run[..n][..n - 1] == run[..n - 1];
      assert !ResultAt(e, run, n - 1).complete;
      AcceptedMeans(e, run, n - 1, d);
    }
  }

  /** Conversely, a datagram completes only when the fragments accepted since the entry was empty
      tile it, and then the payload is their bytes, each at the offset it came with. */
  lemma CompleteIsTiled(e: Entry, run: seq<Arrival>, n: nat)
    requires Ready(e) && e.pieces == [] && n < |run| && forall m :: 0 <= m < n ==> !ResultAt(e, run, m).complete
    requires ResultAt(e, run, n).complete
    ensures var r := ResultAt(e, run, n);
            && |r.payload| == r.total
            && (forall k :: 0 <= k <= n && Accepted(e, run, k) ==> Placed(r.payload, run[k].f))
            && (forall x :: 0 <= x < r.total ==> Brought(e, run, n, x))
  {
    hide Refusal, Placed, Written, After, Disjoint;
    RunFaithful(e, run, n);
    var d, a := After(e, run[..n]), run[n];
    FaithfulStep(e, run, n, d);
    AcceptedMeans(e, run, n, d);
    CompletedAt(d, a.f, a.lim, a.now, a.expires);
    var s := Stored(d, a.f, a.now, a.expires);
    forall k | 0 <= k <= n && Accepted(e, run, k)
      ensures Placed(s.buffer[..s.total], run[k].f)
    {
      PlacedInPrefix(s.buffer, run[k].f, s.total);
    }
    forall x | 0 <= x < s.total
      ensures Brought(e, run, n, x)
    {
      assert HeldBy(s.pieces, x);
    }
  }

  lemma PlacedInPrefix(buffer: bytes, f: Fragment, total: nat)
    requires Placed(buffer, f) && SpanOf(f).end <= total <= |buffer|
    ensures Placed(buffer[..total], f)
  {
  }

  lemma CompletedAt(e: Entry, f: Fragment, lim: Limits, now: nat, expires: nat)
    requires Ready(e) && Add(e, f, lim, now, expires).1.complete
    ensures var r, s := Add(e, f, lim, now, expires).1, Stored(e, f, now, expires);
            Refusal(e, f, lim) == NoError && Tiles(s.pieces, s.total) && r.total == s.total <= |s.buffer| && r.payload == s.buffer[..s.total]
  {
    hide Tiles, Written, Refusal;
  }
}
