/** A TCP packet on the wire: the printer, the parser, and that the parser undoes the printer. */
module Wire {
  import opened Prelude
  import opened Checksum
  import opened TcpOptions
  import Ipv6

  const FIN: int := 1
  const SYN: int := 2
  const ACK: int := 16

  datatype Address = V4(octets: bytes) | V6(octets: bytes)

  datatype Flow = Flow(source: Address, destination: Address, sourcePort: int, destinationPort: int, protocol: int)

  datatype Response = Response(
    valid: bool, flow: Flow, sequence: int, acknowledgment: int, flags: int, window: int, syn: SynOptions,
    stamped: bool, stampValue: int, stampEcho: int, blocks: seq<SackBlock>, ecn: int, payload: bytes)

  datatype Segment = Segment(
    flow: Flow, sequence: int, acknowledgment: int, flags: int, window: int, urgent: int, options: bytes, payload: bytes,
    ecn: int)

  datatype TcpError = AddressFamilyMismatch | TooShort | TooLong | BadDataOffset | BadChecksum

  datatype InputError = MalformedIp | BadIpv4Checksum | NotTcp | FragmentRequiresReassembly | UnsupportedIpVersion |
                        MalformedTcp(tcp: TcpError)

  datatype Result<T, E> = Success(value: T) | Failure(error: E)

  ghost predicate AddressOk(a: Address)
  {
    Octets(a.octets) && |a.octets| == if a.V4? then 4 else 16
  }

  predicate SameFamily(a: Address, b: Address)
  {
    a.V4? == b.V4?
  }

  // ---------------------------------------------------------------------------------
  // The parsers.
  // ---------------------------------------------------------------------------------

  /** The one's-complement seed of the pseudo-header. */
  function Seed(src: Address, dst: Address, length: int): (r: int)
  {
    WordSum(if src.V4? then Pseudo4(src.octets, dst.octets, 6, length) else Pseudo6(src.octets, dst.octets, 6, length))
  }

  function HeaderLength(data: bytes): (r: int)
    requires |data| >= 20
  {
    data[12] / 16 * 4
  }

  function ParseTcpSegment(src: Address, dst: Address, data: bytes, ecn: int): (r: Result<Segment, TcpError>)
    requires Octets(data)
  {
    if !SameFamily(src, dst) then Failure(AddressFamilyMismatch)
    else if |data| < 20 then Failure(TooShort)
    else if |data| >= U32 || (src.V4? && |data| > MAX16) then Failure(TcpError.TooLong)
    else
      var length := HeaderLength(data);
      if length < 20 || length > |data| then Failure(BadDataOffset)
      else if Complement(data, Seed(src, dst, |data|)) != 0 then Failure(BadChecksum)
      else
        Success(Segment(Flow(src, dst, Read16(data, 0), Read16(data, 2), 6), Read32(data, 4), Read32(data, 8), data[13],
                        Read16(data, 14), Read16(data, 18), data[20..length], data[length..], ecn % 4))
  }

  datatype Ipv4Header = Ipv4Header(ihl: int, dscp: int, ecn: int, total: int, identification: int, flags: int,
                                   fragmentOffset: int, ttl: int, protocol: int, src: bytes, dst: bytes)

  datatype Ipv4Packet = Ipv4Packet(header: Ipv4Header, payload: bytes, checksumOk: bool)

  function ReadIpv4(data: bytes): (r: Ipv4Header)
    requires |data| >= 20
  {
    Ipv4Header(data[0] % 16, data[1] / 4, data[1] % 4, Read16(data, 2), Read16(data, 4), Read16(data, 6) / 0x2000 % 8,
               Read16(data, 6) % 0x2000, data[8], data[9], data[12..16], data[16..20])
  }

  /** None on any of the length and version checks. */
  function ParseIpv4(data: bytes): (r: Result<Ipv4Packet, ()>)
    requires Octets(data)
  {
    if |data| < 20 || data[0] / 16 != 4 then Failure(())
    else
      var h := ReadIpv4(data);
      var length := h.ihl * 4;
      if h.ihl < 5 || |data| < length || h.total < length || |data| < h.total then Failure(())
      else Success(Ipv4Packet(h, data[length..h.total], Complement(data[..length], 0) == 0))
  }

  function FromTcp(r: Result<Segment, TcpError>): (s: Result<Segment, InputError>)
  {
    if r.Success? then Success(r.value) else Failure(MalformedTcp(r.error))
  }

  function ParseIpTcpPacket(packet: bytes): (r: Result<Segment, InputError>)
    requires Octets(packet)
  {
    if packet == [] then Failure(MalformedIp)
    else if packet[0] / 16 == 4 then
      var ip := ParseIpv4(packet);
      if ip.Failure? then Failure(MalformedIp)
      else if !ip.value.checksumOk then Failure(BadIpv4Checksum)
      else if ip.value.header.protocol != 6 then Failure(NotTcp)
      else if ip.value.header.fragmentOffset != 0 || ip.value.header.flags % 2 == 1 then Failure(FragmentRequiresReassembly)
      else FromTcp(ParseTcpSegment(V4(ip.value.header.src), V4(ip.value.header.dst), ip.value.payload, ip.value.header.ecn))
    else if packet[0] / 16 == 6 then
      var ip := Ipv6.Parse(packet);
      if ip.Failed? then Failure(MalformedIp)
      else if ip.final != 6 then Failure(NotTcp)
      else if ip.fragment.Some? then Failure(FragmentRequiresReassembly)
      else
        Ipv6.ParseLaw(packet);
        FromTcp(ParseTcpSegment(V6(ip.header.src), V6(ip.header.dst),
                                packet[ip.payloadOffset..ip.payloadOffset + ip.payloadLength], ip.header.trafficClass % 4))
    else Failure(UnsupportedIpVersion)
  }

  // ---------------------------------------------------------------------------------
  // The packet layout.
  // ---------------------------------------------------------------------------------

  function OptionsOf(r: Response): (o: bytes)
    ensures |o| <= CAPACITY && |o| % 4 == 0
  {
    if r.flags / SYN % 2 == 1 then SynBytes(r.syn)
    else if r.flags / ACK % 2 == 1 then AckBytes(r.stamped, r.stampValue, r.stampEcho, r.blocks)
    else []
  }

  function TcpLength(r: Response): (n: nat)
  {
    20 + |OptionsOf(r)| + |r.payload|
  }

  function HeaderBytes(sp: int, dp: int, q: int, a: int, optionLength: int, flags: int, w: int, checksum: int): (h: bytes)
    ensures |h| == 20
  {
    [sp / 256, sp % 256, dp / 256, dp % 256,
     q / 0x100_0000, q / 0x1_0000 % 256, q / 0x100 % 256, q % 256,
     a / 0x100_0000, a / 0x1_0000 % 256, a / 0x100 % 256, a % 256,
     (20 + optionLength) / 4 * 16, flags, w / 256, w % 256,
     checksum / 256, checksum % 256, 0, 0]
  }

  function TcpHeader(r: Response, checksum: int): (h: bytes)
    ensures |h| == 20
  {
    HeaderBytes(r.flow.sourcePort, r.flow.destinationPort, r.sequence, r.acknowledgment, |OptionsOf(r)|, r.flags, r.window,
                checksum)
  }

  function TcpBytes(r: Response, checksum: int): (s: bytes)
    ensures |s| == TcpLength(r)
  {
    TcpHeader(r, checksum) + OptionsOf(r) + r.payload
  }

  function TcpChecksum(r: Response): (c: int)
  {
    Complement(TcpBytes(r, 0), Seed(r.flow.source, r.flow.destination, TcpLength(r)))
  }

  function Ipv4Fixed(length: int, id: int, hops: int, ecn: int, checksum: int): (h: bytes)
    ensures |h| == 12
  {
    [0x45, ecn % 4, length / 256 % 256, length % 256, id / 256, id % 256, 0, 0, hops, 6, checksum / 256, checksum % 256]
  }

  function Ipv4Bytes(r: Response, id: int, hops: int, checksum: int): (h: bytes)
  {
    Ipv4Fixed(20 + TcpLength(r), id, hops, r.ecn, checksum) + r.flow.source.octets + r.flow.destination.octets
  }

  function Ipv6Fixed(length: int, hops: int, ecn: int): (h: bytes)
    ensures |h| == 8
  {
    [0x60, ecn % 4 * 16, 0, 0, length / 256 % 256, length % 256, 6, hops]
  }

  function Ipv6Bytes(r: Response, hops: int): (h: bytes)
  {
    Ipv6Fixed(TcpLength(r), hops, r.ecn) + r.flow.source.octets + r.flow.destination.octets
  }

  /** The whole packet. */
  function PacketBytes(r: Response, id: int, hops: int): (s: bytes)
  {
    var tcp := TcpBytes(r, TcpChecksum(r));
    if r.flow.source.V4? then Ipv4Bytes(r, id, hops, Complement(Ipv4Bytes(r, id, hops, 0), 0)) + tcp
    else Ipv6Bytes(r, hops) + tcp
  }

  /** Every field within its width. */
  ghost predicate Typed(r: Response)
  {
    && AddressOk(r.flow.source) && AddressOk(r.flow.destination)
    && U16(r.flow.sourcePort) && U16(r.flow.destinationPort) && Wide(r.sequence) && Wide(r.acknowledgment)
    && 0 <= r.flags < 256 && U16(r.window) && Fits(r.syn) && Wide(r.stampValue) && Wide(r.stampEcho) && BlocksFit(r.blocks)
    && 0 <= r.ecn < 4 && Octets(r.payload)
  }

  /** A response the printer accepts. */
  ghost predicate Sendable(r: Response)
  {
    r.valid && r.flow.protocol == 6 && Typed(r) && SameFamily(r.flow.source, r.flow.destination)
  }

  /** And its lengths fit 16 bits. */
  ghost predicate WellFormed(r: Response)
  {
    Sendable(r) && TcpLength(r) <= (if r.flow.source.V4? then MAX16 - 20 else MAX16)
  }

  // ---------------------------------------------------------------------------------
  // Octets.
  // ---------------------------------------------------------------------------------

  lemma {:induction false} BlockOctets(blocks: seq<SackBlock>)
    ensures Octets(BlockBytes(blocks))
  {
    if blocks != [] {
      BlockOctets(blocks[1..]);
    }
  }

  lemma OptionOctets(r: Response)
    requires Fits(r.syn)
    ensures Octets(OptionsOf(r))
  {
    BlockOctets(Kept(r.stamped, r.blocks));
    SynOctets(r.syn);
    AckOctets(r.stamped, r.stampValue, r.stampEcho, r.blocks);
    hide SynBytes, AckBytes;
  }

  lemma SynOctets(o: SynOptions)
    requires Fits(o)
    ensures Octets(SynBytes(o))
  {
    var a, b, c, d := MssBytes(o), SackPermittedBytes(o), StampBytes(o.stampPresent, o.stampValue, o.stampEcho), ScaleBytes(o);
    assert Octets(a) && Octets(b) && Octets(c) && Octets(d) && Octets(Padding(|SynBody(o)|));
    hide MssBytes, SackPermittedBytes, ScaleBytes, StampBytes, Padding, Octets;
    JoinOctets(a, b);
    JoinOctets(a + b, c);
    JoinOctets(a + b + c, d);
    JoinOctets(SynBody(o), Padding(|SynBody(o)|));
  }

  lemma AckOctets(stamped: bool, value: int, echo: int, blocks: seq<SackBlock>)
    ensures Octets(AckBytes(stamped, value, echo, blocks))
  {
    BlockOctets(Kept(stamped, blocks));
    assert Octets(SackBytes(Kept(stamped, blocks)));
    assert Octets(StampBytes(stamped, value, echo));
    hide SackBytes, StampBytes;
  }

  lemma TcpHeaderOctets(r: Response, checksum: int)
    requires Typed(r) && U16(checksum)
    ensures Octets(TcpHeader(r, checksum))
  {
    hide SynBytes, AckBytes;
  }

  lemma TcpOctets(r: Response, checksum: int)
    requires Typed(r) && U16(checksum)
    ensures Octets(TcpBytes(r, checksum))
  {
    OptionOctets(r);
    TcpHeaderOctets(r, checksum);
    hide TcpHeader, OptionsOf;
  }

  // ---------------------------------------------------------------------------------
  // Checksums on the way out.
  // ---------------------------------------------------------------------------------

  lemma SeedBound(r: Response)
    requires Sendable(r)
    ensures 0 <= Seed(r.flow.source, r.flow.destination, TcpLength(r)) < 0x20_0000
  {
    hide WordSum, TcpLength, OptionsOf;
    var src, dst, n := r.flow.source.octets, r.flow.destination.octets, TcpLength(r);
    if r.flow.source.V4? {
      assert Octets(Pseudo4(src, dst, 6, n));
      WordSumBound(Pseudo4(src, dst, 6, n));
    } else {
      assert Octets(Pseudo6(src, dst, 6, n));
      WordSumBound(Pseudo6(src, dst, 6, n));
    }
  }

  lemma TcpFilled(r: Response, c: int)
    requires U16(c)
    ensures var blank := TcpBytes(r, 0);
            |blank| >= 20 && blank[16] == blank[17] == 0 && WithField(blank, 16, c) == TcpBytes(r, c)
  {
    hide OptionsOf, WithField, HeaderBytes, TcpHeader;
    HeaderField(r, c);
    FrontField(TcpHeader(r, 0), OptionsOf(r) + r.payload, 16, c);
    assert TcpBytes(r, 0) == TcpHeader(r, 0) + (OptionsOf(r) + r.payload);
    assert TcpBytes(r, c) == TcpHeader(r, c) + (OptionsOf(r) + r.payload);
  }

  /** The transport checksum the printer inserts is the one the parser accepts. */
  lemma TcpVerifies(r: Response)
    requires WellFormed(r)
    ensures U16(TcpChecksum(r)) && Octets(TcpBytes(r, TcpChecksum(r)))
    ensures Complement(TcpBytes(r, TcpChecksum(r)), Seed(r.flow.source, r.flow.destination, TcpLength(r))) == 0
  {
    hide Complement, Seed, TcpBytes, OptionsOf, WithField, Octets;
    var blank, seed := TcpBytes(r, 0), Seed(r.flow.source, r.flow.destination, TcpLength(r));
    TcpOctets(r, 0);
    SeedBound(r);
    NoOverflow(blank, seed);
    TcpFilled(r, TcpChecksum(r));
    InsertVerifies(blank, 16, seed);
  }

  lemma HeaderField(r: Response, c: int)
    requires U16(c)
    ensures WithField(TcpHeader(r, 0), 16, c) == TcpHeader(r, c)
    ensures TcpHeader(r, 0)[16] == TcpHeader(r, 0)[17] == 0
  {
    hide OptionsOf;
  }

  lemma FrontField(h: bytes, rest: bytes, at: nat, v: int)
    requires at + 2 <= |h|
    ensures WithField(h + rest, at, v) == WithField(h, at, v) + rest
  {
  }

  function SegmentOf(r: Response): (s: Segment)
  {
    Segment(r.flow, r.sequence, r.acknowledgment, r.flags, r.window, 0, OptionsOf(r), r.payload, r.ecn)
  }

  lemma Word32(v: int)
    requires Wide(v)
    ensures 0x100_0000 * (v / 0x100_0000) + 0x1_0000 * (v / 0x1_0000 % 256) + 0x100 * (v / 0x100 % 256) + v % 256 == v
  {
    Be32Reads(v);
    assert v / 0x100_0000 % 256 == v / 0x100_0000;
  }

  lemma Word16(v: int)
    ensures 256 * (v / 256) + v % 256 == v
  {
  }

  lemma OffsetReads(n: int)
    requires n % 4 == 0
    ensures (20 + n) / 4 * 16 / 16 * 4 == 20 + n
  {
  }

  lemma FieldReads(sp: int, dp: int, q: int, a: int, n: int, flags: int, w: int, c: int)
    requires Wide(q) && Wide(a) && n % 4 == 0
    ensures var h := HeaderBytes(sp, dp, q, a, n, flags, w, c);
            && Read16(h, 0) == sp && Read16(h, 2) == dp && Read32(h, 4) == q && Read32(h, 8) == a
            && h[13] == flags && Read16(h, 14) == w && Read16(h, 18) == 0 && HeaderLength(h) == 20 + n
  {
    Word32(q);
    Word32(a);
    Word16(sp);
    Word16(dp);
    Word16(w);
    OffsetReads(n);
  }

  lemma FrontReads(h: bytes, rest: bytes, at: nat)
    ensures at + 2 <= |h| ==> Read16(h + rest, at) == Read16(h, at)
    ensures at + 4 <= |h| ==> Read32(h + rest, at) == Read32(h, at)
  {
  }

  /** The fields of the fixed header read back. */
  lemma HeaderReads(r: Response, c: int)
    requires Sendable(r)
    ensures var s := TcpBytes(r, c);
            && Read16(s, 0) == r.flow.sourcePort && Read16(s, 2) == r.flow.destinationPort
            && Read32(s, 4) == r.sequence && Read32(s, 8) == r.acknowledgment
            && s[13] == r.flags && Read16(s, 14) == r.window && Read16(s, 18) == 0
            && HeaderLength(s) == 20 + |OptionsOf(r)|
  {
    FieldReads(r.flow.sourcePort, r.flow.destinationPort, r.sequence, r.acknowledgment, |OptionsOf(r)|, r.flags, r.window, c);
    hide OptionsOf, HeaderBytes, Read16, Read32, WellFormed;
    var h, rest := TcpHeader(r, c), OptionsOf(r) + r.payload;
    assert TcpBytes(r, c) == h + rest;
    FrontReads(h, rest, 0);
    FrontReads(h, rest, 2);
    FrontReads(h, rest, 4);
    FrontReads(h, rest, 8);
    FrontReads(h, rest, 14);
    FrontReads(h, rest, 18);
  }

  lemma Parts(h: bytes, o: bytes, p: bytes)
    ensures (h + o + p)[|h|..|h| + |o|] == o && (h + o + p)[|h| + |o|..] == p
  {
  }

  lemma TcpParts(r: Response, c: int)
    ensures var s, n := TcpBytes(r, c), 20 + |OptionsOf(r)|; s[20..n] == OptionsOf(r) && s[n..] == r.payload
  {
    hide OptionsOf, TcpHeader;
    Parts(TcpHeader(r, c), OptionsOf(r), r.payload);
  }

  lemma SegmentRoundTrip(r: Response)
    requires WellFormed(r)
    ensures Octets(TcpBytes(r, TcpChecksum(r)))
    ensures ParseTcpSegment(r.flow.source, r.flow.destination, TcpBytes(r, TcpChecksum(r)), r.ecn) == Success(SegmentOf(r))
  {
    hide OptionsOf, TcpBytes, TcpChecksum, Seed, Complement, Read16, Read32, HeaderLength, Octets, AddressOk, BlocksFit;
    var c := TcpChecksum(r);
    TcpParts(r, c);
    TcpVerifies(r);
    HeaderReads(r, c);
    assert Flow(r.flow.source, r.flow.destination, r.flow.sourcePort, r.flow.destinationPort, 6) == r.flow;
  }

  lemma Ipv4Verifies(r: Response, id: int, hops: int)
    requires Sendable(r) && r.flow.source.V4? && U16(id) && 0 <= hops < 256
    ensures var c := Complement(Ipv4Bytes(r, id, hops, 0), 0); var h := Ipv4Bytes(r, id, hops, c);
            U16(c) && |h| == 20 && Octets(h) && Complement(h, 0) == 0
  {
    hide Complement, OptionsOf, TcpLength;
    var blank := Ipv4Bytes(r, id, hops, 0);
    assert Octets(Ipv4Fixed(20 + TcpLength(r), id, hops, r.ecn, 0));
    NoOverflow(blank, 0);
    InsertVerifies(blank, 10, 0);
    var c := Complement(blank, 0);
    assert WithField(blank, 10, c) == Ipv4Bytes(r, id, hops, c);
  }

  lemma Ipv4Reads(r: Response, id: int, hops: int, c: int, rest: bytes)
    requires Sendable(r) && r.flow.source.V4? && U16(id) && |rest| == TcpLength(r)
    ensures var s := Ipv4Bytes(r, id, hops, c) + rest;
            |s| == 20 + TcpLength(r) && s[0] == 0x45 && s[..20] == Ipv4Bytes(r, id, hops, c) && s[20..] == rest &&
            ReadIpv4(s) == Ipv4Header(5, 0, r.ecn, (20 + TcpLength(r)) % 0x1_0000, id, 0, 0, hops, 6, r.flow.source.octets,
                                      r.flow.destination.octets)
  {
    hide OptionsOf, TcpLength;
    var s, h, f := Ipv4Bytes(r, id, hops, c) + rest, Ipv4Bytes(r, id, hops, c), Ipv4Fixed(20 + TcpLength(r), id, hops, r.ecn, c);
    assert |h| == 20 && s[..20] == h && s[20..] == rest;
    assert forall i :: 0 <= i < 12 ==> s[i] == f[i];
    assert s[12..16] == r.flow.source.octets && s[16..20] == r.flow.destination.octets;
    WordOf(20 + TcpLength(r));
  }

  lemma Ipv4Parses(s: bytes, h: Ipv4Header, tcp: bytes)
    requires Octets(s) && |s| == 20 + |tcp| && s[0] == 0x45 && s[20..] == tcp && Complement(s[..20], 0) == 0
    requires ReadIpv4(s) == h && h.ihl == 5 && h.total == |s|
    ensures ParseIpv4(s) == Success(Ipv4Packet(h, tcp, true))
  {
    hide ReadIpv4, Complement;
    assert s[20..|s|] == tcp;
  }

  lemma Ipv4RoundTrip(r: Response, id: int, hops: int)
    requires WellFormed(r) && r.flow.source.V4? && U16(id) && 0 <= hops < 256
    ensures Octets(PacketBytes(r, id, hops)) && ParseIpTcpPacket(PacketBytes(r, id, hops)) == Success(SegmentOf(r))
  {
    hide TcpLength, TcpBytes, TcpChecksum, Complement, Ipv4Bytes, ReadIpv4, ParseTcpSegment, SegmentOf, Octets, ParseIpv4, Sendable;
    Families(r);
    SegmentRoundTrip(r);
    Ipv4Verifies(r, id, hops);
    var tcp := TcpBytes(r, TcpChecksum(r));
    var c := Complement(Ipv4Bytes(r, id, hops, 0), 0);
    Ipv4Reads(r, id, hops, c, tcp);
    var s := Ipv4Bytes(r, id, hops, c) + tcp;
    JoinOctets(Ipv4Bytes(r, id, hops, c), tcp);
    Ipv4Parses(s, ReadIpv4(s), tcp);
  }

  lemma JoinOctets(a: bytes, b: bytes)
    requires Octets(a) && Octets(b)
    ensures Octets(a + b)
  {
  }

  lemma Ipv6Reads(r: Response, hops: int, rest: bytes)
    requires Sendable(r) && r.flow.source.V6? && |rest| == TcpLength(r)
    ensures var s := Ipv6Bytes(r, hops) + rest;
            |s| == 40 + TcpLength(r) && s[0] == 0x60 && s[40..] == rest &&
            Ipv6.ReadHeader(s) == Ipv6.Header(r.ecn, 0, TcpLength(r) % 0x1_0000, 6, hops, r.flow.source.octets, r.flow.destination.octets)
  {
    hide OptionsOf, TcpLength;
    var s, f := Ipv6Bytes(r, hops) + rest, Ipv6Fixed(TcpLength(r), hops, r.ecn);
    assert |Ipv6Bytes(r, hops)| == 40;
    assert forall i :: 0 <= i < 8 ==> s[i] == f[i];
    assert s[8..24] == r.flow.source.octets && s[24..40] == r.flow.destination.octets;
    WordOf(TcpLength(r));
    assert r.ecn * 16 / 16 == r.ecn && r.ecn * 16 % 16 == 0;
  }

  /** Without extension headers the walk stops at once. */
  lemma Ipv6Parses(s: bytes, h: Ipv6.Header, length: nat)
    requires Octets(s) && |s| == 40 + length && 0 < length && s[0] == 0x60
    requires Ipv6.ReadHeader(s) == h && h.nextHeader == 6 && h.payloadLength == length
    ensures Ipv6.Parse(s) == Ipv6.Packet(h, 6, 0, Option.None, 40, length)
  {
    hide Ipv6.ReadHeader;
  }

  /** What ParseIpTcpPacket does once the IPv6 layer has parsed. */
  lemma Ipv6Hands(s: bytes, tcp: bytes, h: Ipv6.Header)
    requires Octets(s) && Octets(tcp) && s != [] && s[0] == 0x60 && |s| == 40 + |tcp| && s[40..] == tcp
    requires Ipv6.Parse(s) == Ipv6.Packet(h, 6, 0, Option.None, 40, |tcp|)
    ensures ParseIpTcpPacket(s) == FromTcp(ParseTcpSegment(V6(h.src), V6(h.dst), tcp, h.trafficClass % 4))
  {
    hide Ipv6.Parse, ParseTcpSegment, Octets;
    assert s[40..40 + |tcp|] == tcp;
  }

  lemma Families(r: Response)
    requires Sendable(r)
    ensures r.flow.source.V4? ==> r.flow.source == V4(r.flow.source.octets) && r.flow.destination == V4(r.flow.destination.octets)
    ensures r.flow.source.V6? ==> r.flow.source == V6(r.flow.source.octets) && r.flow.destination == V6(r.flow.destination.octets)
    ensures r.ecn % 4 == r.ecn && TcpLength(r) > 0
  {
  }

  lemma Ipv6RoundTrip(r: Response, hops: int)
    requires WellFormed(r) && r.flow.source.V6? && 0 <= hops < 256
    ensures Octets(PacketBytes(r, 0, hops)) && ParseIpTcpPacket(PacketBytes(r, 0, hops)) == Success(SegmentOf(r))
  {
    hide TcpLength, TcpBytes, TcpChecksum, Ipv6Bytes, ParseTcpSegment, SegmentOf, Octets, Ipv6.ReadHeader, Ipv6.Parse, Sendable,
      ParseIpTcpPacket;
    Families(r);
    SegmentRoundTrip(r);
    var tcp := TcpBytes(r, TcpChecksum(r));
    Ipv6Reads(r, hops, tcp);
    var s := Ipv6Bytes(r, hops) + tcp;
    Ipv6Octets(r, hops);
    JoinOctets(Ipv6Bytes(r, hops), tcp);
    Ipv6Parses(s, Ipv6.ReadHeader(s), TcpLength(r));
    Ipv6Hands(s, tcp, Ipv6.ReadHeader(s));
  }

  lemma Ipv6Octets(r: Response, hops: int)
    requires Sendable(r) && 0 <= hops < 256
    ensures Octets(Ipv6Bytes(r, hops))
  {
    hide OptionsOf, TcpLength;
    assert Octets(Ipv6Fixed(TcpLength(r), hops, r.ecn));
  }

  /** Parsing what was built gives back the flow, the numbers, the flags, the window, the ECN mark
      and the payload. */
  lemma RoundTrip(r: Response, id: int, hops: int)
    requires WellFormed(r) && U16(id) && 0 <= hops < 256
    ensures Octets(PacketBytes(r, id, hops)) && ParseIpTcpPacket(PacketBytes(r, id, hops)) == Success(SegmentOf(r))
  {
    if r.flow.source.V4? {
      Ipv4RoundTrip(r, id, hops);
    } else {
      Ipv6RoundTrip(r, hops);
      hide Ipv6Bytes, TcpBytes, ParseIpTcpPacket, TcpChecksum;
      assert PacketBytes(r, id, hops) == PacketBytes(r, 0, hops);
    }
  }

  /** And its option bytes parse back to the options that were asked for. */
  lemma OptionsRoundTrip(r: Response)
    requires WellFormed(r)
    ensures r.flags / SYN % 2 == 1 && !(r.syn.mssPresent && r.syn.mss == 0) ==> ParseSyn(SegmentOf(r).options) == Ok(Normal(r.syn))
    ensures r.flags / SYN % 2 == 0 && r.flags / ACK % 2 == 1 ==>
              ParseSack(SegmentOf(r).options) == Kept(r.stamped, r.blocks) &&
              ParseSyn(SegmentOf(r).options) ==
              Ok(if r.stamped then NONE.(stampPresent := true, stampValue := r.stampValue, stampEcho := r.stampEcho) else NONE)
  {
    SynRoundTrip(r.syn);
    SackRoundTrip(r.stamped, r.stampValue, r.stampEcho, r.blocks);
    StampRoundTrip(r.stamped, r.stampValue, r.stampEcho, r.blocks);
    hide ParseSyn, ParseSack, SynBytes, AckBytes;
  }

  // ---------------------------------------------------------------------------------
  // Building the packet in the caller's buffer.
  // ---------------------------------------------------------------------------------

  datatype OutputError = InvalidResponse | FamilyMismatch | BufferTooSmall | OptionsTooLong

  /** `data` written over `s` from position `at`. */
  function Put(s: bytes, at: nat, data: bytes): (r: bytes)
    requires at + |data| <= |s|
    ensures |r| == |s|
  {
    s[..at] + data + s[at + |data|..]
  }

  lemma PutUpdate(s: bytes, at: nat, x: bytes, k: nat, v: int)
    requires at + |x| <= |s| && k < |x|
    ensures Put(s, at, x)[at + k := v] == Put(s, at, x[k := v])
  {
  }

  /** Two adjacent writes are one. */
  lemma PutPut(s: bytes, at: nat, a: bytes, b: bytes)
    requires at + |a| + |b| <= |s|
    ensures Put(Put(s, at, a), at + |a|, b) == Put(s, at, a + b)
    ensures Put(Put(s, at + |a|, b), at, a) == Put(s, at, a + b)
  {
  }

  /** A later write hides an earlier one that it covers. */
  lemma PutOver(s: bytes, at: nat, a: bytes, b: bytes)
    requires at + |b| <= |s| && |a| <= |b|
    ensures Put(Put(s, at, a), at, b) == Put(s, at, b)
  {
  }

  method Copy(output: array<int>, at: nat, data: bytes)
    requires at + |data| <= output.Length
    modifies output
    ensures output[..] == Put(old(output[..]), at, data)
  {
    ghost var was := output[..];
    var i := 0;
    while i < |data|
      invariant 0 <= i <= |data|
      invariant forall k :: at <= k < at + i ==> output[k] == data[k - at]
      invariant forall k :: 0 <= k < output.Length && !(at <= k < at + i) ==> output[k] == was[k]
    {
      output[at + i] := data[i];
      i := i + 1;
    }
  }

  /** A byte of a region that holds `x`. */
  method Write8(output: array<int>, at: nat, k: nat, v: int, ghost s: bytes, ghost x: bytes)
    requires at + |x| <= |s| == output.Length && output[..] == Put(s, at, x) && k < |x|
    modifies output
    ensures output[..] == Put(s, at, x[k := v])
  {
    PutUpdate(s, at, x, k, v);
    hide Put;
    output[at + k] := v;
  }

  method Write16(output: array<int>, at: nat, k: nat, v: int, ghost s: bytes, ghost x: bytes)
    requires at + |x| <= |s| == output.Length && output[..] == Put(s, at, x) && k + 2 <= |x|
    modifies output
    ensures output[..] == Put(s, at, x[k := v / 256][k + 1 := v % 256])
  {
    hide Put;
    Write8(output, at, k, v / 256, s, x);
    Write8(output, at, k + 1, v % 256, s, x[k := v / 256]);
  }

  function Set32(x: bytes, k: nat, v: int): (r: bytes)
    requires k + 4 <= |x|
    ensures |r| == |x|
  {
    x[k := v / 0x100_0000][k + 1 := v / 0x1_0000 % 256][k + 2 := v / 0x100 % 256][k + 3 := v % 256]
  }

  method Write32(output: array<int>, at: nat, k: nat, v: int, ghost s: bytes, ghost x: bytes)
    requires at + |x| <= |s| == output.Length && output[..] == Put(s, at, x) && k + 4 <= |x|
    modifies output
    ensures output[..] == Put(s, at, Set32(x, k, v))
  {
    hide Put;
    Write8(output, at, k, v / 0x100_0000, s, x);
    Write8(output, at, k + 1, v / 0x1_0000 % 256, s, x[k := v / 0x100_0000]);
    Write8(output, at, k + 2, v / 0x100 % 256, s, x[k := v / 0x100_0000][k + 1 := v / 0x1_0000 % 256]);
    Write8(output, at, k + 3, v % 256, s, x[k := v / 0x100_0000][k + 1 := v / 0x1_0000 % 256][k + 2 := v / 0x100 % 256]);
  }

  const BLANK20: bytes := [0, 0, 0, 0, 0, 0, 0, 0, 0, 0, 0, 0, 0, 0, 0, 0, 0, 0, 0, 0]

  /** The fixed TCP header, over a zeroed region. */
  method WriteTcpHeader(output: array<int>, at: nat, r: Response, optionLength: nat, ghost s: bytes)
    requires at + 20 <= |s| == output.Length && output[..] == Put(s, at, BLANK20)
    requires optionLength == |OptionsOf(r)|
    modifies output
    ensures output[..] == Put(s, at, TcpHeader(r, 0))
  {
    hide Put, OptionsOf;
    var f := r.flow;
    Write16(output, at, 0, f.sourcePort, s, BLANK20);
    ghost var x := BLANK20[0 := f.sourcePort / 256][1 := f.sourcePort % 256];
    Write16(output, at, 2, f.destinationPort, s, x);
    x := x[2 := f.destinationPort / 256][3 := f.destinationPort % 256];
    Write32(output, at, 4, r.sequence, s, x);
    x := Set32(x, 4, r.sequence);
    Write32(output, at, 8, r.acknowledgment, s, x);
    x := Set32(x, 8, r.acknowledgment);
    Write8(output, at, 12, (20 + optionLength) / 4 * 16, s, x);
    x := x[12 := (20 + optionLength) / 4 * 16];
    Write8(output, at, 13, r.flags, s, x);
    x := x[13 := r.flags];
    Write16(output, at, 14, r.window, s, x);
    x := x[14 := r.window / 256][15 := r.window % 256];
    assert x == TcpHeader(r, 0);
  }

  lemma PutInner(s: bytes, at: nat, x: bytes, k: nat, data: bytes)
    requires at + |x| <= |s| && k + |data| <= |x|
    ensures Put(Put(s, at, x), at + k, data) == Put(s, at, Put(x, k, data))
  {
  }

  method CopyWithin(output: array<int>, at: nat, k: nat, data: bytes, ghost s: bytes, ghost x: bytes)
    requires at + |x| <= |s| == output.Length && output[..] == Put(s, at, x) && k + |data| <= |x|
    modifies output
    ensures output[..] == Put(s, at, Put(x, k, data))
  {
    PutInner(s, at, x, k, data);
    hide Put;
    Copy(output, at + k, data);
  }

  lemma Truncated(length: nat)
    ensures length % 0x1_0000 / 256 == length / 256 % 256 && length % 0x1_0000 % 256 == length % 256
  {
    WordOf(length);
    var w := length / 256 % 256;
    assert length % 0x1_0000 == 256 * w + length % 256;
  }

  /** The fixed part of the IPv4 header with the addresses, checksum still zero. */
  method WriteIpv4Fields(output: array<int>, r: Response, length: nat, id: int, hops: int, ghost s: bytes)
    requires 20 <= |s| == output.Length && output[..] == Put(s, 0, BLANK20) && length == 20 + TcpLength(r)
    requires |r.flow.source.octets| == |r.flow.destination.octets| == 4
    modifies output
    ensures output[..] == Put(s, 0, Ipv4Bytes(r, id, hops, 0))
  {
    hide Put, TcpLength;
    Write8(output, 0, 0, 0x45, s, BLANK20);
    ghost var x := BLANK20[0 := 0x45];
    Write8(output, 0, 1, r.ecn % 4, s, x);
    x := x[1 := r.ecn % 4];
    Write16(output, 0, 2, length % 0x1_0000, s, x);
    Truncated(length);
    x := x[2 := length / 256 % 256][3 := length % 256];
    Write16(output, 0, 4, id, s, x);
    x := x[4 := id / 256][5 := id % 256];
    Write8(output, 0, 8, hops, s, x);
    x := x[8 := hops];
    Write8(output, 0, 9, 6, s, x);
    x := x[9 := 6];
    CopyWithin(output, 0, 12, r.flow.source.octets, s, x);
    ghost var y := Put(x, 12, r.flow.source.octets);
    CopyWithin(output, 0, 16, r.flow.destination.octets, s, y);
    Ipv4Start(length, id, hops, r.ecn);
    Ipv4Assembled(x, r, id, hops);
  }

  lemma Ipv4Start(length: int, id: int, hops: int, ecn: int)
    ensures var x := BLANK20[0 := 0x45][1 := ecn % 4][2 := length / 256 % 256][3 := length % 256][4 := id / 256][5 := id % 256][8 := hops][9 := 6];
            x[..12] == Ipv4Fixed(length, id, hops, ecn, 0)
  {
    var x := BLANK20[0 := 0x45][1 := ecn % 4][2 := length / 256 % 256][3 := length % 256][4 := id / 256][5 := id % 256][8 := hops][9 := 6];
    var f := Ipv4Fixed(length, id, hops, ecn, 0);
    assert x[0] == f[0] && x[1] == f[1] && x[2] == f[2] && x[3] == f[3] && x[4] == f[4] && x[5] == f[5];
    assert x[6] == f[6] && x[7] == f[7] && x[8] == f[8] && x[9] == f[9] && x[10] == f[10] && x[11] == f[11];
  }

  lemma Ipv4Assembled(x: bytes, r: Response, id: int, hops: int)
    requires |x| == 20 && x[..12] == Ipv4Fixed(20 + TcpLength(r), id, hops, r.ecn, 0)
    requires |r.flow.source.octets| == |r.flow.destination.octets| == 4
    ensures Put(Put(x, 12, r.flow.source.octets), 16, r.flow.destination.octets) == Ipv4Bytes(r, id, hops, 0)
  {
    hide Ipv4Fixed, TcpLength;
  }

  lemma CheckWidth(data: bytes, seed: int)
    ensures U16(Complement(data, seed))
  {
    FoldLaw(Wrap32(seed + WordSum(data)));
  }

  lemma Ipv4Field(r: Response, id: int, hops: int, c: int)
    requires |r.flow.source.octets| == |r.flow.destination.octets| == 4
    ensures var x := Ipv4Bytes(r, id, hops, 0); |x| == 20 && x[10 := c / 256][11 := c % 256] == Ipv4Bytes(r, id, hops, c)
  {
    hide TcpLength;
  }

  lemma Ipv4BlankOctets(r: Response, id: int, hops: int)
    requires Typed(r) && r.flow.source.V4? && r.flow.destination.V4? && U16(id) && 0 <= hops < 256
    ensures Octets(Ipv4Bytes(r, id, hops, 0))
  {
    hide TcpLength;
    assert Octets(Ipv4Fixed(20 + TcpLength(r), id, hops, r.ecn, 0));
    JoinOctets(Ipv4Fixed(20 + TcpLength(r), id, hops, r.ecn, 0), r.flow.source.octets);
    JoinOctets(Ipv4Fixed(20 + TcpLength(r), id, hops, r.ecn, 0) + r.flow.source.octets, r.flow.destination.octets);
  }

  method WriteIpv4(output: array<int>, r: Response, length: nat, id: int, hops: int, ghost s: bytes)
    requires 20 <= |s| == output.Length && output[..] == Put(s, 0, BLANK20) && length == 20 + TcpLength(r)
    requires Typed(r) && r.flow.source.V4? && r.flow.destination.V4? && U16(id) && 0 <= hops < 256
    modifies output
    ensures output[..] == Put(s, 0, Ipv4Bytes(r, id, hops, Complement(Ipv4Bytes(r, id, hops, 0), 0)))
  {
    hide TcpLength, Complement, Octets, WordSum;
    WriteIpv4Fields(output, r, length, id, hops, s);
    ghost var x := Ipv4Bytes(r, id, hops, 0);
    Ipv4BlankOctets(r, id, hops);
    Ipv4Field(r, id, hops, Complement(x, 0));
    assert output[..20] == x by { PutFront(s, x, output[..]); }
    var c := InternetChecksum(output[..20], 0);
    hide Ipv4Bytes, Put;
    Write16(output, 0, 10, c, s, x);
  }

  lemma PutFront(s: bytes, x: bytes, out: bytes)
    requires |x| <= |s| && out == Put(s, 0, x)
    ensures out[..|x|] == x
  {
  }

  method WriteIpv6(output: array<int>, r: Response, length: nat, hops: int, ghost s: bytes)
    requires 40 <= |s| == output.Length && output[..] == Put(s, 0, BLANK20 + BLANK20) && length == TcpLength(r)
    requires |r.flow.source.octets| == |r.flow.destination.octets| == 16
    modifies output
    ensures output[..] == Put(s, 0, Ipv6Bytes(r, hops))
  {
    hide Put, TcpLength;
    ghost var x := BLANK20 + BLANK20;
    Write8(output, 0, 0, 0x60, s, x);
    x := x[0 := 0x60];
    Write8(output, 0, 1, r.ecn % 4 * 16, s, x);
    x := x[1 := r.ecn % 4 * 16];
    Write16(output, 0, 4, length % 0x1_0000, s, x);
    Truncated(length);
    x := x[4 := length / 256 % 256][5 := length % 256];
    Write8(output, 0, 6, 6, s, x);
    x := x[6 := 6];
    Write8(output, 0, 7, hops, s, x);
    x := x[7 := hops];
    CopyWithin(output, 0, 8, r.flow.source.octets, s, x);
    ghost var y := Put(x, 8, r.flow.source.octets);
    CopyWithin(output, 0, 24, r.flow.destination.octets, s, y);
    Ipv6Assembled(x, r, hops);
  }

  lemma Ipv6Assembled(x: bytes, r: Response, hops: int)
    requires |x| == 40 && x[..8] == Ipv6Fixed(TcpLength(r), hops, r.ecn)
    requires |r.flow.source.octets| == |r.flow.destination.octets| == 16
    ensures Put(Put(x, 8, r.flow.source.octets), 24, r.flow.destination.octets) == Ipv6Bytes(r, hops)
  {
    hide Ipv6Fixed, TcpLength;
  }

  lemma PutSame(s: bytes, at: nat, x: bytes)
    requires at + |x| <= |s| && s[at..at + |x|] == x
    ensures Put(s, at, x) == s
  {
  }

  /** Header, options and payload of the segment, checksum still zero. */
  method WriteTcp(output: array<int>, at: nat, r: Response, options: bytes, ghost s: bytes)
    requires s == output[..] && at + TcpLength(r) <= |s| && options == OptionsOf(r)
    requires s[at..at + 20] == BLANK20
    modifies output
    ensures output[..] == Put(s, at, TcpBytes(r, 0))
  {
    hide Put, OptionsOf, TcpHeader;
    PutSame(s, at, BLANK20);
    PutPut(s, at, TcpHeader(r, 0), options);
    PutPut(s, at, TcpHeader(r, 0) + options, r.payload);
    WriteTcpHeader(output, at, r, |options|, s);
    Copy(output, at + 20, options);
    Copy(output, at + 20 + |options|, r.payload);
  }

  function IpBytes(r: Response, id: int, hops: int): (h: bytes)
  {
    if r.flow.source.V4? then Ipv4Bytes(r, id, hops, Complement(Ipv4Bytes(r, id, hops, 0), 0)) else Ipv6Bytes(r, hops)
  }

  method WriteIp(output: array<int>, r: Response, id: int, hops: int, tcpTotal: nat, ghost s: bytes)
    requires Typed(r) && SameFamily(r.flow.source, r.flow.destination) && U16(id) && 0 <= hops < 256 && tcpTotal == TcpLength(r)
    requires s == output[..] && (if r.flow.source.V4? then 20 else 40) <= |s|
    requires if r.flow.source.V4? then s[..20] == BLANK20 else s[..40] == BLANK20 + BLANK20
    modifies output
    ensures |IpBytes(r, id, hops)| == (if r.flow.source.V4? then 20 else 40) && output[..] == Put(s, 0, IpBytes(r, id, hops))
  {
    hide TcpLength, Complement;
    if r.flow.source.V4? {
      PutSame(s, 0, BLANK20);
      Ipv4Field(r, id, hops, Complement(Ipv4Bytes(r, id, hops, 0), 0));
      hide Put;
      WriteIpv4(output, r, 20 + tcpTotal, id, hops, s);
    } else {
      PutSame(s, 0, BLANK20 + BLANK20);
      hide Put;
      WriteIpv6(output, r, tcpTotal, hops, s);
    }
  }

  method PseudoSeed(src: Address, dst: Address, length: nat) returns (seed: int)
    requires AddressOk(src) && AddressOk(dst) && SameFamily(src, dst) && length < U32
    ensures seed == Seed(src, dst, length) && 0 <= seed < 0x8000_0000
  {
    hide WordSum, Word;
    ghost var pseudo := if src.V4? then Pseudo4(src.octets, dst.octets, 6, length) else Pseudo6(src.octets, dst.octets, 6, length);
    assert Octets(pseudo);
    WordSumBound(pseudo);
    if src.V4? {
      seed := Ipv4PseudoHeaderSeed(src.octets, dst.octets, 6, length % 0x1_0000);
      Truncated(length);
      assert Be16(length % 0x1_0000) == Be16(length) by { SameBe16(length); }
    } else {
      seed := Ipv6PseudoHeaderSeed(src.octets, dst.octets, 6, length);
    }
  }

  lemma SameBe16(length: nat)
    ensures Be16(length % 0x1_0000) == Be16(length)
  {
    Truncated(length);
    var w := length % 0x1_0000;
    assert w / 256 % 256 == w / 256;
  }

  lemma PacketFilled(r: Response, id: int, hops: int, s: bytes)
    requires var ip, tcp := IpBytes(r, id, hops), TcpBytes(r, 0); |ip| + |tcp| <= |s|
    ensures var x := IpBytes(r, id, hops) + TcpBytes(r, 0); var k, c := |IpBytes(r, id, hops)| + 16, TcpChecksum(r);
            |x| >= k + 2 && x[k := c / 256][k + 1 := c % 256] == PacketBytes(r, id, hops)
    ensures Put(s, 0, IpBytes(r, id, hops) + TcpBytes(r, 0))[|IpBytes(r, id, hops)|..|IpBytes(r, id, hops)| + TcpLength(r)] == TcpBytes(r, 0)
  {
    hide TcpBytes, TcpChecksum, Ipv4Bytes, Ipv6Bytes, Complement, OptionsOf, Put;
    var ip, tcp, c := IpBytes(r, id, hops), TcpBytes(r, 0), TcpChecksum(r);
    assert U16(c) by {
      ChecksumMeans(r);
      CheckWidth(tcp, Seed(r.flow.source, r.flow.destination, TcpLength(r)));
    }
    TcpFilled(r, c);
    BackField(ip, tcp, c);
    PutSlice(s, ip, tcp);
  }

  lemma BackField(ip: bytes, tcp: bytes, c: int)
    requires |tcp| >= 18
    ensures (ip + tcp)[|ip| + 16 := c / 256][|ip| + 17 := c % 256] == ip + WithField(tcp, 16, c)
  {
  }

  lemma PutSlice(s: bytes, ip: bytes, tcp: bytes)
    requires |ip| + |tcp| <= |s|
    ensures Put(s, 0, ip + tcp)[|ip|..|ip| + |tcp|] == tcp
  {
  }

  method SerializeOptions(r: Response) returns (ok: bool, options: bytes)
    ensures ok && options == OptionsOf(r)
  {
    hide SynBytes, AckBytes;
    ok, options := true, [];
    if r.flags / SYN % 2 == 1 {
      ok, options := SerializeSynOptions(r.syn);
    } else if r.flags / ACK % 2 == 1 {
      ok, options := SerializeAckOptions(r.stamped, r.stampValue, r.stampEcho, r.blocks);
    }
  }

  lemma IpWidth(r: Response, id: int, hops: int)
    requires Typed(r) && SameFamily(r.flow.source, r.flow.destination)
    ensures |IpBytes(r, id, hops)| == if r.flow.source.V4? then 20 else 40
    ensures |PacketBytes(r, id, hops)| == |IpBytes(r, id, hops)| + TcpLength(r)
  {
    hide TcpLength, Complement, OptionsOf;
  }

  lemma ChecksumMeans(r: Response)
    ensures TcpChecksum(r) == Complement(TcpBytes(r, 0), Seed(r.flow.source, r.flow.destination, TcpLength(r)))
  {
  }

  function Zeros(n: nat): (r: bytes)
    ensures |r| == n && forall i :: 0 <= i < n ==> r[i] == 0
  {
    seq(n, _ => 0)
  }

  lemma Cleared(s: bytes, n: nat, at: nat)
    requires at + 20 <= n <= |s|
    ensures Put(s, 0, Zeros(n))[at..at + 20] == BLANK20
    ensures at == 20 ==> Put(s, 0, Zeros(n))[..20] == BLANK20
    ensures at == 40 ==> Put(s, 0, Zeros(n))[..40] == BLANK20 + BLANK20
  {
  }

  lemma FrontStays(s: bytes, at: nat, data: bytes)
    requires at + |data| <= |s|
    ensures Put(s, at, data)[..at] == s[..at]
  {
  }

  /** Everything but the transport checksum. */
  method WritePacket(output: array<int>, r: Response, options: bytes, id: int, hops: int, ghost s: bytes)
    requires Typed(r) && SameFamily(r.flow.source, r.flow.destination) && U16(id) && 0 <= hops < 256
    requires options == OptionsOf(r) && s == output[..] && (if r.flow.source.V4? then 20 else 40) + TcpLength(r) <= |s|
    modifies output
    ensures |IpBytes(r, id, hops)| == (if r.flow.source.V4? then 20 else 40)
    ensures output[..] == Put(s, 0, IpBytes(r, id, hops) + TcpBytes(r, 0))
  {
    hide TcpBytes, OptionsOf, IpBytes, Put;
    var at := if r.flow.source.V4? then 20 else 40;
    var blank := Zeros(at + 20 + |options|);
    Copy(output, 0, blank);
    ghost var cleared := output[..];
    Cleared(s, |blank|, at);
    WriteTcp(output, at, r, options, cleared);
    ghost var written := output[..];
    FrontStays(cleared, at, TcpBytes(r, 0));
    WriteIp(output, r, id, hops, 20 + |options| + |r.payload|, written);
    PutPut(cleared, 0, IpBytes(r, id, hops), TcpBytes(r, 0));
    PutOver(s, 0, blank, IpBytes(r, id, hops) + TcpBytes(r, 0));
  }

  /** Writes exactly the packet, or nothing when it refuses. Options never overflow their 40 bytes. */
  method BuildTcpControlPacket(r: Response, output: array<int>, id: int, hops: int) returns (result: Result<nat, OutputError>)
    requires Typed(r) && U16(id) && 0 <= hops < 256 && TcpLength(r) < U32
    modifies output
    ensures result ==
            if !r.valid || r.flow.protocol != 6 then Failure(InvalidResponse)
            else if !SameFamily(r.flow.source, r.flow.destination) then Failure(FamilyMismatch)
            else if output.Length < |PacketBytes(r, id, hops)| then Failure(BufferTooSmall)
            else Success(|PacketBytes(r, id, hops)|)
    ensures result.Failure? ==> output[..] == old(output[..])
    ensures result.Success? ==> output[..] == Put(old(output[..]), 0, PacketBytes(r, id, hops))
  {
    hide TcpBytes, TcpChecksum, Ipv4Bytes, Ipv6Bytes, Complement, OptionsOf, Seed, WordSum, Octets;
    if !r.valid || r.flow.protocol != 6 {
      return Failure(InvalidResponse);
    }
    if !SameFamily(r.flow.source, r.flow.destination) {
      return Failure(FamilyMismatch);
    }
    var ok, options := SerializeOptions(r);
    if !ok {
      return Failure(OptionsTooLong);
    }
    var ipLength := if r.flow.source.V4? then 20 else 40;
    IpWidth(r, id, hops);
    var tcpTotal := 20 + |options| + |r.payload|;
    var length := ipLength + tcpTotal;
    if output.Length < length {
      return Failure(BufferTooSmall);
    }
    ghost var was := output[..];
    WritePacket(output, r, options, id, hops, was);
    PacketFilled(r, id, hops, was);
    var seed := PseudoSeed(r.flow.source, r.flow.destination, tcpTotal);
    TcpOctets(r, 0);
    var checksum := InternetChecksum(output[ipLength..ipLength + tcpTotal], seed);
    assert checksum == TcpChecksum(r) by { ChecksumMeans(r); }
    hide Put, PacketBytes;
    Write16(output, 0, ipLength + 16, checksum, was, IpBytes(r, id, hops) + TcpBytes(r, 0));
    return Success(length);
  }
}
