/** How long a segment may be: the printer checks no length, so its 16-bit length fields may lie. */
module WireLimits {
  import opened Prelude
  import opened Checksum
  import opened TcpOptions
  import opened Wire
  import Ipv6

  /** Inserting the transport checksum does not carry out of the 32-bit accumulator. */
  ghost predicate NoCarry(r: Response)
  {
    Wrap32(Seed(r.flow.source, r.flow.destination, TcpLength(r)) + WordSum(TcpBytes(r, 0))) + TcpChecksum(r) < U32
  }

  /** The IPv6 length field reads zero, which the parser takes for "all that follows". */
  predicate ReadsAsAll(r: Response)
  {
    r.flow.source.V6? && TcpLength(r) % 0x1_0000 == 0
  }

  lemma ChecksumField(r: Response)
    requires Sendable(r)
    ensures U16(TcpChecksum(r)) && Octets(TcpBytes(r, TcpChecksum(r)))
    ensures Complement(TcpBytes(r, TcpChecksum(r)), Seed(r.flow.source, r.flow.destination, TcpLength(r))) == 0 <==> NoCarry(r)
  {
    hide Complement, Seed, TcpBytes, OptionsOf, WithField, Octets, Wrap32, WordSum, TcpLength;
    var blank, seed := TcpBytes(r, 0), Seed(r.flow.source, r.flow.destination, TcpLength(r));
    ComplementRange(blank, seed);
    TcpOctets(r, TcpChecksum(r));
    TcpFilled(r, TcpChecksum(r));
    InsertVerifiesIff(blank, 16, seed);
  }

  /** Over IPv6 the segment parser has no limit of its own below 2^32. */
  lemma SegmentIff(r: Response)
    requires Sendable(r) && r.flow.source.V6? && TcpLength(r) < U32
    ensures Octets(TcpBytes(r, TcpChecksum(r)))
    ensures ParseTcpSegment(r.flow.source, r.flow.destination, TcpBytes(r, TcpChecksum(r)), r.ecn) == Success(SegmentOf(r)) <==>
            NoCarry(r)
  {
    hide OptionsOf, TcpBytes, TcpChecksum, Seed, Complement, Read16, Read32, HeaderLength, Octets, AddressOk, BlocksFit, NoCarry;
    var c := TcpChecksum(r);
    TcpParts(r, c);
    ChecksumField(r);
    HeaderReads(r, c);
    assert Flow(r.flow.source, r.flow.destination, r.flow.sourcePort, r.flow.destinationPort, 6) == r.flow;
  }

  lemma PacketOctets(r: Response, id: int, hops: int)
    requires Sendable(r) && U16(id) && 0 <= hops < 256
    ensures Octets(PacketBytes(r, id, hops))
  {
    hide TcpLength, TcpBytes, TcpChecksum, Complement, Ipv4Bytes, Ipv6Bytes, Octets, NoCarry;
    ChecksumField(r);
    var tcp := TcpBytes(r, TcpChecksum(r));
    if r.flow.source.V4? {
      Ipv4Verifies(r, id, hops);
      JoinOctets(Ipv4Bytes(r, id, hops, Complement(Ipv4Bytes(r, id, hops, 0), 0)), tcp);
    } else {
      Ipv6Octets(r, hops);
      JoinOctets(Ipv6Bytes(r, hops), tcp);
    }
  }

  /** A parsed segment's payload is shorter than what it was parsed from, by the fixed header at least. */
  lemma PayloadShorter(src: Address, dst: Address, data: bytes, ecn: int)
    requires Octets(data)
    ensures ParseTcpSegment(src, dst, data, ecn).Success? ==> |ParseTcpSegment(src, dst, data, ecn).value.payload| <= |data| - 20
  {
    hide Complement, Seed, Octets, Read16, Read32;
  }

  lemma Ipv4Slice(s: bytes)
    requires Octets(s) && |s| >= 20 && s[0] / 16 == 4
    ensures ParseIpTcpPacket(s).Success? ==> |ParseIpTcpPacket(s).value.payload| + 40 <= ReadIpv4(s).total
  {
    var ip := ParseIpv4(s);
    if ip.Success? {
      hide ParseTcpSegment, Complement, Ipv6.Parse;
      PayloadShorter(V4(ip.value.header.src), V4(ip.value.header.dst), ip.value.payload, ip.value.header.ecn);
    }
  }

  lemma TooLong4(r: Response, id: int, hops: int)
    requires Sendable(r) && U16(id) && 0 <= hops < 256 && r.flow.source.V4? && 20 + TcpLength(r) > MAX16
    ensures Octets(PacketBytes(r, id, hops)) && ParseIpTcpPacket(PacketBytes(r, id, hops)) != Success(SegmentOf(r))
  {
    hide TcpBytes, TcpChecksum, Complement, Ipv4Bytes, ReadIpv4, ParseIpTcpPacket, Octets, Sendable;
    PacketOctets(r, id, hops);
    var tcp, c := TcpBytes(r, TcpChecksum(r)), Complement(Ipv4Bytes(r, id, hops, 0), 0);
    Ipv4Reads(r, id, hops, c, tcp);
    var s := Ipv4Bytes(r, id, hops, c) + tcp;
    Ipv4Slice(s);
    Truncates(20 + TcpLength(r));
    hide OptionsOf;
    assert |SegmentOf(r).payload| + 80 >= 20 + TcpLength(r);
  }

  lemma Truncates(n: int)
    requires n > MAX16
    ensures 0 <= n % 0x1_0000 <= n - 0x1_0000
  {
    assert n == 0x1_0000 * (n / 0x1_0000) + n % 0x1_0000;
  }

  lemma Ipv6Slice(s: bytes)
    requires Octets(s) && |s| >= 40 && s[0] / 16 == 6 && Ipv6.ReadHeader(s).payloadLength != 0
    ensures ParseIpTcpPacket(s).Success? ==> |ParseIpTcpPacket(s).value.payload| + 20 <= Ipv6.ReadHeader(s).payloadLength
  {
    var ip := Ipv6.Parse(s);
    Ipv6.ParseLaw(s);
    if ip.Packet? && ip.final == 6 && ip.fragment.None? {
      HeaderKept(s);
      hide ParseTcpSegment, Ipv6.Parse, ParseIpv4;
      PayloadShorter(V6(ip.header.src), V6(ip.header.dst), s[ip.payloadOffset..ip.payloadOffset + ip.payloadLength],
                     ip.header.trafficClass % 4);
    } else {
      hide ParseTcpSegment, Ipv6.Parse, ParseIpv4;
    }
  }

  lemma HeaderKept(s: bytes)
    requires Octets(s) && Ipv6.Parse(s).Packet?
    ensures |s| >= 40 && Ipv6.Parse(s).header == Ipv6.ReadHeader(s)
    ensures Ipv6.ReadHeader(s).payloadLength != 0 ==> Ipv6.Extent(s, Ipv6.ReadHeader(s)) == Ipv6.ReadHeader(s).payloadLength
  {
    hide Ipv6.WalkFrom;
  }

  lemma TooLong6(r: Response, hops: int)
    requires Sendable(r) && 0 <= hops < 256 && r.flow.source.V6? && TcpLength(r) > MAX16 && TcpLength(r) % 0x1_0000 != 0
    ensures Octets(PacketBytes(r, 0, hops)) && ParseIpTcpPacket(PacketBytes(r, 0, hops)) != Success(SegmentOf(r))
  {
    hide TcpBytes, TcpChecksum, Ipv6Bytes, Ipv6.ReadHeader, ParseIpTcpPacket, Octets, Sendable;
    PacketOctets(r, 0, hops);
    var tcp := TcpBytes(r, TcpChecksum(r));
    Ipv6Reads(r, hops, tcp);
    Ipv6Slice(Ipv6Bytes(r, hops) + tcp);
    Truncates(TcpLength(r));
    hide OptionsOf;
    assert |SegmentOf(r).payload| + 60 >= TcpLength(r);
  }

  lemma ZeroParses(s: bytes, h: Ipv6.Header, length: nat)
    requires Octets(s) && |s| == 40 + length && 0 < length && s[0] == 0x60
    requires Ipv6.ReadHeader(s) == h && h.nextHeader == 6 && h.payloadLength == 0
    ensures Ipv6.Parse(s) == Ipv6.Packet(h, 6, 0, Option.None, 40, length)
  {
    hide Ipv6.ReadHeader;
  }

  lemma ReadAsAll(r: Response, hops: int)
    requires Sendable(r) && 0 <= hops < 256 && ReadsAsAll(r) && TcpLength(r) < U32
    ensures Octets(PacketBytes(r, 0, hops))
    ensures ParseIpTcpPacket(PacketBytes(r, 0, hops)) == Success(SegmentOf(r)) <==> NoCarry(r)
  {
    hide TcpLength, TcpBytes, TcpChecksum, Ipv6Bytes, ParseTcpSegment, SegmentOf, Octets, Ipv6.ReadHeader, Ipv6.Parse, Sendable,
         ParseIpTcpPacket, NoCarry;
    Families(r);
    PacketOctets(r, 0, hops);
    SegmentIff(r);
    var tcp := TcpBytes(r, TcpChecksum(r));
    Ipv6Reads(r, hops, tcp);
    var s := Ipv6Bytes(r, hops) + tcp;
    ZeroParses(s, Ipv6.ReadHeader(s), TcpLength(r));
    Ipv6Hands(s, tcp, Ipv6.ReadHeader(s));
  }

  /** The packet parses back to what was asked for exactly if its lengths fit 16 bits, or, over IPv6,
      its length is a multiple of 2^16 and its checksum survives the 32-bit accumulator. */
  lemma RoundTripIff(r: Response, id: int, hops: int)
    requires Sendable(r) && U16(id) && 0 <= hops < 256 && TcpLength(r) < U32
    ensures Octets(PacketBytes(r, id, hops))
    ensures ParseIpTcpPacket(PacketBytes(r, id, hops)) == Success(SegmentOf(r)) <==> WellFormed(r) || (ReadsAsAll(r) && NoCarry(r))
  {
    hide ParseIpTcpPacket, Sendable, NoCarry, TcpLength, SegmentOf;
    if WellFormed(r) {
      RoundTrip(r, id, hops);
    } else if r.flow.source.V4? {
      TooLong4(r, id, hops);
    } else {
      hide Ipv6Bytes, TcpBytes, TcpChecksum;
      assert PacketBytes(r, id, hops) == PacketBytes(r, 0, hops);
      if ReadsAsAll(r) {
        ReadAsAll(r, hops);
      } else {
        TooLong6(r, hops);
      }
    }
  }

  /** The exception is real: with 2^16 bytes the accumulator cannot carry, so a segment of exactly that
      size goes through IPv6 with a length field of zero. */
  lemma ExactlyTwo16(r: Response, id: int, hops: int)
    requires Sendable(r) && U16(id) && 0 <= hops < 256 && r.flow.source.V6? && TcpLength(r) == 0x1_0000
    ensures Octets(PacketBytes(r, id, hops)) && ParseIpTcpPacket(PacketBytes(r, id, hops)) == Success(SegmentOf(r))
  {
    hide ParseIpTcpPacket, Sendable, PacketBytes, WordSum, TcpBytes, Seed, Complement, TcpLength;
    RoundTripIff(r, id, hops);
    TcpOctets16(r);
    SeedBound(r);
    ChecksumField(r);
    WordSumBound(TcpBytes(r, 0));
    assert (|TcpBytes(r, 0)| + 1) / 2 == 0x8000;
    SmallWrap(Seed(r.flow.source, r.flow.destination, TcpLength(r)) + WordSum(TcpBytes(r, 0)));
    assert NoCarry(r);
  }

  lemma TcpOctets16(r: Response)
    requires Sendable(r)
    ensures Octets(TcpBytes(r, 0)) && |TcpBytes(r, 0)| == TcpLength(r)
  {
    TcpOctets(r, 0);
  }
}
