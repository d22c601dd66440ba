/** The IPv6 header parser and its bounded walk over extension headers. */
module Ipv6 {
  import opened Prelude
  import opened Checksum
  import opened TcpOptions

  const HOP_BY_HOP: int := 0
  const ROUTING: int := 43
  const FRAGMENT: int := 44
  const NO_NEXT_HEADER: int := 59
  const DESTINATION_OPTIONS: int := 60
  const MAX_EXT_HEADERS: nat := 8
  const MAX_EXT_BYTES: nat := 1024
  const MAX_OPTIONS: nat := 64
  const PAD1: int := 0
  const JUMBO: int := 0xC2

  datatype Error =
    | TooShort | BadVersion | TruncatedPayload | TruncatedExtHeader | ExtHeaderLoop | ExtHeaderTooMany
    | ExtHeaderTooLong | BadExtHeaderOption | BadJumboPayload

  /** A TLV option; Pad1 has neither length nor data. */
  datatype Tlv = Tlv(kind: int, data: Option<bytes>)

  datatype FragmentHeader = FragmentHeader(offset: int, more: bool, identification: int, payload: bytes)

  datatype Header = Header(trafficClass: int, flowLabel: int, payloadLength: int, nextHeader: int, hopLimit: int,
                           src: bytes, dst: bytes)

  /** Where the walk stands: the header type to look at and where it starts. */
  datatype Walk = Walk(next: int, offset: nat, extBytes: nat, visited: seq<int>, fragment: Option<FragmentHeader>)

  datatype Walked = Stopped(error: Error) | Reached(walk: Walk)

  datatype Parsed = Failed(error: Error) |
                    Packet(header: Header, final: int, extCount: nat, fragment: Option<FragmentHeader>,
                           payloadOffset: nat, payloadLength: nat)

  predicate IsExtension(next: int)
  {
    next == HOP_BY_HOP || next == ROUTING || next == FRAGMENT || next == DESTINATION_OPTIONS
  }

  // ---------------------------------------------------------------------------------
  // TLV options.
  // ---------------------------------------------------------------------------------

  function OptionsFrom(rest: bytes, acc: seq<Tlv>): (r: Option<seq<Tlv>>)
    decreases |rest|
  {
    if rest == [] then Some(acc)
    else if |acc| >= MAX_OPTIONS then None
    else if rest[0] == PAD1 then OptionsFrom(rest[1..], acc + [Tlv(PAD1, Option.None)])
    else if |rest| < 2 || rest[1] < 0 || rest[1] > |rest| - 2 then None
    else OptionsFrom(rest[2 + rest[1]..], acc + [Tlv(rest[0], Some(rest[2..2 + rest[1]]))])
  }

  method ParseIpv6Options(data: bytes) returns (r: Option<seq<Tlv>>)
    requires Octets(data)
    ensures r == OptionsFrom(data, [])
  {
    var at, out := 0, [];
    assert data[0..] == data;
    while at < |data|
      invariant 0 <= at <= |data| && OptionsFrom(data[at..], out) == OptionsFrom(data, [])
    {
      if |out| >= MAX_OPTIONS {
        return Option.None;
      }
      var kind := data[at];
      if kind == PAD1 {
        assert data[at..][1..] == data[at + 1..];
        out := out + [Tlv(PAD1, Option.None)];
        at := at + 1;
        continue;
      }
      if at + 1 >= |data| {
        return Option.None;
      }
      var length := data[at + 1];
      if length > |data| - at - 2 {
        return Option.None;
      }
      assert data[at..][2..2 + length] == data[at + 2..at + 2 + length];
      assert data[at..][2 + length..] == data[at + 2 + length..];
      out := out + [Tlv(kind, Some(data[at + 2..at + 2 + length]))];
      at := at + 2 + length;
    }
    return Some(out);
  }

  /** The wire form of one option. */
  function PrintTlv(t: Tlv): (r: bytes)
  {
    match t.data
    case None => [t.kind]
    case Some(d) => [t.kind, |d|] + d
  }

  function PrintTlvs(list: seq<Tlv>): (r: bytes)
  {
    if list == [] then [] else PrintTlv(list[0]) + PrintTlvs(list[1..])
  }

  predicate TlvOk(t: Tlv)
  {
    t.data.None? <==> t.kind == PAD1
  }

  ghost predicate TlvsOk(list: seq<Tlv>)
  {
    forall i :: 0 <= i < |list| ==> TlvOk(list[i])
  }

  lemma {:induction false} OptionsExtend(rest: bytes, acc: seq<Tlv>)
    requires Octets(rest)
    ensures OptionsFrom(rest, acc).Some? ==> acc <= OptionsFrom(rest, acc).value
    ensures OptionsFrom(rest, acc) == Some(acc) ==> rest == []
    decreases |rest|
  {
    if rest != [] && |acc| < MAX_OPTIONS {
      if rest[0] == PAD1 {
        OptionsExtend(rest[1..], acc + [Tlv(PAD1, Option.None)]);
      } else if |rest| >= 2 && rest[1] <= |rest| - 2 {
        OptionsExtend(rest[2 + rest[1]..], acc + [Tlv(rest[0], Some(rest[2..2 + rest[1]]))]);
      }
    }
  }

  /** The parse of an option area, from a list read so far: the result is the list whose wire form
      the rest is. */
  lemma {:induction false} OptionsLaw(rest: bytes, acc: seq<Tlv>, list: seq<Tlv>)
    requires Octets(rest)
    ensures OptionsFrom(rest, acc) == Some(acc + list) <==>
            TlvsOk(list) && PrintTlvs(list) == rest && (list == [] || |acc| + |list| <= MAX_OPTIONS)
    decreases |rest|
  {
    OptionsExtend(rest, acc);
    if list == [] {
      assert acc + list == acc;
    } else if rest == [] {
      assert |PrintTlvs(list)| >= |PrintTlv(list[0])| > 0 && |acc + list| > |acc|;
    } else if |acc| < MAX_OPTIONS {
      if rest[0] == PAD1 {
        var t := Tlv(PAD1, Option.None);
        assert rest == PrintTlv(t) + rest[1..];
        OptionsLaw(rest[1..], acc + [t], list[1..]);
        OptionStep(rest, acc, list, t, rest[1..]);
      } else if |rest| >= 2 && rest[1] <= |rest| - 2 {
        var t, after := Tlv(rest[0], Some(rest[2..2 + rest[1]])), rest[2 + rest[1]..];
        assert rest == PrintTlv(t) + after;
        OptionsLaw(after, acc + [t], list[1..]);
        OptionStep(rest, acc, list, t, after);
      } else {
        NoOption(rest, list);
      }
    }
  }

  /** No list prints to an area whose first option is cut short. */
  lemma NoOption(rest: bytes, list: seq<Tlv>)
    requires Octets(rest) && rest != [] && rest[0] != PAD1 && (|rest| < 2 || rest[1] > |rest| - 2) && list != []
    ensures !(TlvsOk(list) && PrintTlvs(list) == rest)
  {
  }

  lemma PrintUnique(a: Tlv, x: bytes, b: Tlv, y: bytes)
    requires TlvOk(a) && TlvOk(b) && PrintTlv(a) + x == PrintTlv(b) + y
    ensures a == b && x == y
  {
    var p, q := PrintTlv(a) + x, PrintTlv(b) + y;
    assert p[0] == a.kind && q[0] == b.kind;
    if a.data.Some? {
      assert p[1] == |a.data.value| && q[1] == |b.data.value|;
      assert p[2..2 + |a.data.value|] == a.data.value && q[2..2 + |a.data.value|] == b.data.value;
    }
    assert p[|PrintTlv(a)|..] == x && q[|PrintTlv(a)|..] == y;
  }

  lemma OptionStep(rest: bytes, acc: seq<Tlv>, list: seq<Tlv>, t: Tlv, after: bytes)
    requires Octets(rest) && Octets(after) && rest == PrintTlv(t) + after && TlvOk(t) && list != [] && |acc| < MAX_OPTIONS
    requires OptionsFrom(rest, acc) == OptionsFrom(after, acc + [t])
    requires OptionsFrom(after, acc + [t]) == Some(acc + [t] + list[1..]) <==>
             TlvsOk(list[1..]) && PrintTlvs(list[1..]) == after && (list[1..] == [] || |acc + [t]| + |list[1..]| <= MAX_OPTIONS)
    ensures OptionsFrom(rest, acc) == Some(acc + list) <==>
            TlvsOk(list) && PrintTlvs(list) == rest && |acc| + |list| <= MAX_OPTIONS
  {
    hide OptionsFrom, PrintTlv;
    assert list == [list[0]] + list[1..];
    OptionsExtend(after, acc + [t]);
    if OptionsFrom(rest, acc) == Some(acc + list) {
      assert (acc + list)[|acc|] == list[0] && (acc + [t])[|acc|] == t;
      assert list[0] == t && acc + list == acc + [t] + list[1..];
    }
    if TlvsOk(list) && PrintTlvs(list) == rest && |acc| + |list| <= MAX_OPTIONS {
      PrintUnique(list[0], PrintTlvs(list[1..]), t, after);
      assert acc + list == acc + [t] + list[1..];
    }
  }

  /** ParseIpv6Options inverts the wire form: it returns a list exactly if the area is the wire form
      of that list and the list has at most 64 options. */
  lemma TlvLaw(data: bytes, list: seq<Tlv>)
    requires Octets(data)
    ensures OptionsFrom(data, []) == Some(list) <==> TlvsOk(list) && PrintTlvs(list) == data && |list| <= MAX_OPTIONS
  {
    OptionsLaw(data, [], list);
    assert [] + list == list;
  }

  /** The first Jumbo Payload option decides, and only if it is well formed. */
  function FindJumbo(opts: seq<Tlv>): (r: Option<int>)
  {
    if opts == [] then Option.None
    else if opts[0].kind == JUMBO then
      if opts[0].data.Some? && |opts[0].data.value| == 4 then Some(Read32(opts[0].data.value, 0)) else Option.None
    else FindJumbo(opts[1..])
  }

  /** The jumbo length an early look at a leading hop-by-hop header yields. */
  function PeekJumbo(data: bytes, next: int): (r: Option<int>)
    requires |data| >= 40
  {
    if next == HOP_BY_HOP && |data| >= 42 && 0 <= data[41] && (data[41] + 1) * 8 <= |data| - 40 then
      var opts := OptionsFrom(data[42..40 + (data[41] + 1) * 8], []);
      if opts.Some? then FindJumbo(opts.value) else Option.None
    else Option.None
  }

  // ---------------------------------------------------------------------------------
  // The walk.
  // ---------------------------------------------------------------------------------

  /** The 8-byte Fragment header at `at`; the fragmentable part runs to the end of the payload. */
  function ReadFragment(data: bytes, at: nat, end: nat): (r: FragmentHeader)
    requires at + 8 <= |data| && end <= |data|
  {
    var field := Read16(data, at + 2);
    FragmentHeader(field / 8, field % 2 == 1, Read32(data, at + 4), if at + 8 <= end then data[at + 8..end] else [])
  }

  function ExtSize(next: int, length: int): (r: int)
  {
    if next == FRAGMENT then 8 else (length + 1) * 8
  }

  /** What the options of one extension header must satisfy. */
  function CheckOptions(next: int, body: bytes, jumboAllowed: bool): (r: Option<Error>)
  {
    if next == HOP_BY_HOP then
      var opts := OptionsFrom(body, []);
      if opts.None? then Some(BadExtHeaderOption)
      else if FindJumbo(opts.value).Some? && !jumboAllowed then Some(BadJumboPayload)
      else Option.None
    else if next == DESTINATION_OPTIONS && OptionsFrom(body, []).None? then Some(BadExtHeaderOption)
    else Option.None
  }

  /** One extension header. */
  function Step(data: bytes, end: nat, jumboAllowed: bool, w: Walk): (r: Walked)
    requires Octets(data) && 40 <= end <= |data| && IsExtension(w.next)
  {
    if w.next == FRAGMENT && w.offset + 8 > |data| then Stopped(TruncatedExtHeader)
    else if w.next in w.visited then Stopped(ExtHeaderLoop)
    else if |w.visited| >= MAX_EXT_HEADERS then Stopped(ExtHeaderTooMany)
    else if w.offset + 2 > |data| then Stopped(TruncatedExtHeader)
    else
      var size := ExtSize(w.next, data[w.offset + 1]);
      if w.extBytes + size > MAX_EXT_BYTES then Stopped(ExtHeaderTooLong)
      else if w.offset + size > |data| || w.offset + size > end then Stopped(TruncatedExtHeader)
      else
        var bad := CheckOptions(w.next, data[w.offset + 2..w.offset + size], jumboAllowed);
        if bad.Some? then Stopped(bad.value)
        else
          Reached(Walk(data[w.offset], w.offset + size, w.extBytes + size, w.visited + [w.next],
                       if w.next == FRAGMENT then Some(ReadFragment(data, w.offset, end)) else w.fragment))
  }

  function WalkFrom(data: bytes, end: nat, jumboAllowed: bool, w: Walk): (r: Walked)
    requires Octets(data) && 40 <= end <= |data| && |w.visited| <= MAX_EXT_HEADERS
    decreases MAX_EXT_HEADERS - |w.visited|
  {
    if !IsExtension(w.next) then Reached(w)
    else
      var s := Step(data, end, jumboAllowed, w);
      if s.Stopped? then s else WalkFrom(data, end, jumboAllowed, s.walk)
  }

  function ReadHeader(data: bytes): (r: Header)
    requires |data| >= 40
  {
    Header(data[0] % 16 * 16 + data[1] / 16, data[1] % 16 * 0x1_0000 + data[2] * 256 + data[3], Read16(data, 4), data[6],
           data[7], data[8..24], data[24..40])
  }

  /** How much follows the fixed header. */
  function Extent(data: bytes, h: Header): (r: int)
    requires |data| >= 40
  {
    if h.payloadLength != 0 then h.payloadLength
    else
      var jumbo := PeekJumbo(data, h.nextHeader);
      if jumbo.Some? then jumbo.value else |data| - 40
  }

  function Parse(data: bytes): (r: Parsed)
    requires Octets(data)
  {
    if |data| < 40 then Failed(TooShort)
    else if data[0] / 16 != 6 then Failed(BadVersion)
    else
      var h := ReadHeader(data);
      var extent := Extent(data, h);
      if |data| - 40 < extent || extent < 0 then Failed(TruncatedPayload)
      else
        var w := WalkFrom(data, 40 + extent, h.payloadLength == 0, Walk(h.nextHeader, 40, 0, [], Option.None));
        if w.Stopped? then Failed(w.error)
        else Arrived(h, w.walk, 40 + extent)
  }

  function Arrived(h: Header, w: Walk, end: nat): (r: Parsed)
  {
    Packet(h, w.next, |w.visited|, w.fragment, w.offset,
           if w.next == NO_NEXT_HEADER || end < w.offset then 0 else end - w.offset)
  }

  /** The loop that walks the headers. */
  method WalkHeaders(data: bytes, end: nat, jumboAllowed: bool, first: int) returns (r: Walked)
    requires Octets(data) && 40 <= end <= |data|
    ensures r == WalkFrom(data, end, jumboAllowed, Walk(first, 40, 0, [], Option.None))
  {
    hide CheckOptions, ReadFragment;
    var w := Walk(first, 40, 0, [], Option.None);
    ghost var start := w;
    while IsExtension(w.next)
      invariant |w.visited| <= MAX_EXT_HEADERS
      invariant WalkFrom(data, end, jumboAllowed, w) == WalkFrom(data, end, jumboAllowed, start)
      decreases MAX_EXT_HEADERS - |w.visited|
    {
      var fragment := w.fragment;
      if w.next == FRAGMENT {
        if w.offset + 8 > |data| {
          return Stopped(TruncatedExtHeader);
        }
        fragment := Some(ReadFragment(data, w.offset, end));
      }
      var seen := Contains(w.visited, w.next);
      if seen {
        return Stopped(ExtHeaderLoop);
      }
      if |w.visited| >= MAX_EXT_HEADERS {
        return Stopped(ExtHeaderTooMany);
      }
      if w.offset + 2 > |data| {
        return Stopped(TruncatedExtHeader);
      }
      var size := if w.next == FRAGMENT then 8 else (data[w.offset + 1] + 1) * 8;
      if w.extBytes + size > MAX_EXT_BYTES {
        return Stopped(ExtHeaderTooLong);
      }
      if w.offset + size > |data| || w.offset + size > end {
        return Stopped(TruncatedExtHeader);
      }
      var bad := CheckOptions(w.next, data[w.offset + 2..w.offset + size], jumboAllowed);
      if bad.Some? {
        return Stopped(bad.value);
      }
      w := Walk(data[w.offset], w.offset + size, w.extBytes + size, w.visited + [w.next], fragment);
    }
    return Reached(w);
  }

  method Contains(xs: seq<int>, x: int) returns (r: bool)
    ensures r <==> x in xs
  {
    for i := 0 to |xs|
      invariant x !in xs[..i]
    {
      if xs[i] == x {
        return true;
      }
    }
    return false;
  }

  // ---------------------------------------------------------------------------------
  // What every walk keeps.
  // ---------------------------------------------------------------------------------

  ghost predicate WalkOk(w: Walk, end: nat)
  {
    && 40 <= w.offset <= end && w.extBytes == w.offset - 40 <= MAX_EXT_BYTES
    && (forall i :: 0 <= i < |w.visited| ==> IsExtension(w.visited[i]))
    && (forall i, j :: 0 <= i < j < |w.visited| ==> w.visited[i] != w.visited[j])
    && (w.fragment.Some? <==> FRAGMENT in w.visited)
  }

  /** Four kinds of header and no repeats: at most four steps. */
  lemma FewVisited(w: Walk, end: nat)
    requires WalkOk(w, end)
    ensures |w.visited| <= 4
  {
    var kinds := {HOP_BY_HOP, ROUTING, FRAGMENT, DESTINATION_OPTIONS};
    var seen := set x | x in w.visited;
    Distinct(w.visited);
    assert seen <= kinds;
    Subset(seen, kinds);
    assert |kinds| == 4;
  }

  lemma Subset(a: set<int>, b: set<int>)
    requires a <= b
    ensures |a| <= |b|
  {
    assert b == a + (b - a);
  }

  lemma {:induction false} Distinct(xs: seq<int>)
    requires forall i, j :: 0 <= i < j < |xs| ==> xs[i] != xs[j]
    ensures |set x | x in xs| == |xs|
  {
    if xs == [] {
      assert (set x | x in xs) == {};
    } else {
      Distinct(xs[1..]);
      assert (set x | x in xs) == {xs[0]} + set x | x in xs[1..];
    }
  }

  lemma StepOk(data: bytes, end: nat, jumboAllowed: bool, w: Walk)
    requires Octets(data) && 40 <= end <= |data| && IsExtension(w.next) && WalkOk(w, end)
    ensures var s := Step(data, end, jumboAllowed, w);
            s != Stopped(ExtHeaderTooMany) && (s.Reached? ==> WalkOk(s.walk, end) && s.walk.offset >= w.offset + 8)
  {
    hide OptionsFrom, FindJumbo;
    FewVisited(w, end);
  }

  /** The walk ends within the payload after at most four distinct headers; the bound of eight
      is never what stops it. */
  lemma {:induction false} WalkLaw(data: bytes, end: nat, jumboAllowed: bool, w: Walk)
    requires Octets(data) && 40 <= end <= |data| && |w.visited| <= MAX_EXT_HEADERS && WalkOk(w, end)
    ensures var r := WalkFrom(data, end, jumboAllowed, w);
            r != Stopped(ExtHeaderTooMany) &&
            (r.Reached? ==> WalkOk(r.walk, end) && |r.walk.visited| <= 4 && !IsExtension(r.walk.next))
    decreases MAX_EXT_HEADERS - |w.visited|
  {
    hide Step;
    FewVisited(w, end);
    if IsExtension(w.next) {
      StepOk(data, end, jumboAllowed, w);
      var s := Step(data, end, jumboAllowed, w);
      if s.Reached? {
        FewVisited(s.walk, end);
        VisitedGrows(data, end, jumboAllowed, w);
        WalkLaw(data, end, jumboAllowed, s.walk);
      }
    }
  }

  lemma VisitedGrows(data: bytes, end: nat, jumboAllowed: bool, w: Walk)
    requires Octets(data) && 40 <= end <= |data| && IsExtension(w.next) && Step(data, end, jumboAllowed, w).Reached?
    ensures |Step(data, end, jumboAllowed, w).walk.visited| == |w.visited| + 1
  {
    hide OptionsFrom, FindJumbo;
  }

  /** A parsed packet's upper-layer payload lies inside the buffer, right after the headers. */
  lemma ParseLaw(data: bytes)
    requires Octets(data)
    ensures Parse(data) != Failed(ExtHeaderTooMany)
    ensures Parse(data).Packet? ==>
              var p := Parse(data);
              40 <= p.payloadOffset && p.payloadOffset + p.payloadLength <= |data| && p.extCount <= 4 &&
              p.payloadOffset - 40 <= MAX_EXT_BYTES && !IsExtension(p.final) &&
              (p.final != NO_NEXT_HEADER ==> p.payloadOffset + p.payloadLength == 40 + Extent(data, p.header))
  {
    hide WalkFrom, Extent;
    if |data| >= 40 && data[0] / 16 == 6 {
      var h := ReadHeader(data);
      var extent := Extent(data, h);
      if 0 <= extent <= |data| - 40 {
        WalkLaw(data, 40 + extent, h.payloadLength == 0, Walk(h.nextHeader, 40, 0, [], Option.None));
      }
    }
  }
}
