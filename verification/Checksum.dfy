/** The Internet checksum of RFC 1071 and the pseudo-header seeds. */
module Checksum {
  import opened Prelude

  const U32: int := 0x1_0000_0000
  const MAX16: int := 0xFFFF

  ghost predicate Octets(s: bytes)
  {
    forall i :: 0 <= i < |s| ==> 0 <= s[i] < 256
  }

  function Word(hi: int, lo: int): (r: int)
  {
    256 * hi + lo
  }

  /** The sum of the big-endian 16-bit words, an odd last byte padded with zero. */
  function WordSum(s: bytes): (r: int)
  {
    if |s| == 0 then 0
    else if |s| == 1 then Word(s[0], 0)
    else Word(s[0], s[1]) + WordSum(s[2..])
  }

  lemma {:induction false} WordSumBound(s: bytes)
    requires Octets(s)
    ensures 0 <= WordSum(s) <= MAX16 * ((|s| + 1) / 2)
  {
    if |s| >= 2 {
      WordSumBound(s[2..]);
      assert (|s| + 1) / 2 == (|s[2..]| + 1) / 2 + 1;
    }
  }

  lemma {:induction false} WordSumConcat(a: bytes, b: bytes)
    requires |a| % 2 == 0
    ensures WordSum(a + b) == WordSum(a) + WordSum(b)
  {
    if a == [] {
      assert a + b == b;
    } else {
      assert (a + b)[2..] == a[2..] + b;
      WordSumConcat(a[2..], b);
    }
  }

  /** Folding carries until the sum fits 16 bits. */
  function Fold(acc: nat): (r: nat)
  {
    if acc <= MAX16 then acc else Fold(acc % 0x10000 + acc / 0x10000)
  }

  lemma {:induction false} FoldLaw(acc: nat)
    ensures Fold(acc) <= MAX16
    ensures Fold(acc) % MAX16 == acc % MAX16
    ensures Fold(acc) == 0 <==> acc == 0
    decreases acc
  {
    if acc > MAX16 {
      var h, l := acc / 0x10000, acc % 0x10000;
      FoldLaw(l + h);
      ModShift(l + h, h);
      assert acc == l + h + MAX16 * h;
    }
  }

  lemma ModShift(a: int, k: int)
    ensures (a + MAX16 * k) % MAX16 == a % MAX16
  {
    var q, r := a / MAX16, a % MAX16;
    assert a + MAX16 * k == MAX16 * (q + k) + r;
    ModUnique(a + MAX16 * k, q + k, r);
  }

  lemma ModUnique(x: int, q: int, r: int)
    requires x == MAX16 * q + r && 0 <= r < MAX16
    ensures x % MAX16 == r
  {
    assert MAX16 * (x / MAX16 - q) == r - x % MAX16;
  }

  /** A 16-bit value is fixed by its residue and by whether it is zero. */
  lemma FoldUnique(acc: nat, f: nat)
    requires f <= MAX16 && f % MAX16 == acc % MAX16 && (f == 0 <==> acc == 0)
    ensures Fold(acc) == f
  {
    FoldLaw(acc);
  }

  /** One's-complement addition: the carry out of bit 15 re-enters at bit 0. */
  function OnesAdd(a: int, b: int): (r: int)
  {
    if a + b <= MAX16 then a + b else a + b - MAX16
  }

  /** The RFC 1071 sum, word by word. */
  function OnesSum(s: bytes): (r: int)
  {
    if |s| == 0 then 0
    else if |s| == 1 then Word(s[0], 0)
    else OnesAdd(Word(s[0], s[1]), OnesSum(s[2..]))
  }

  lemma {:induction false} OnesSumIsFold(s: bytes)
    requires Octets(s)
    ensures WordSum(s) >= 0 && OnesSum(s) == Fold(WordSum(s))
  {
    WordSumBound(s);
    if |s| >= 2 {
      OnesSumIsFold(s[2..]);
      WordSumBound(s[2..]);
      var w, rest := Word(s[0], s[1]), WordSum(s[2..]);
      FoldLaw(rest);
      var f := Fold(rest);
      ModSum(w, f, rest);
      if w + f > MAX16 { ModShift(w + f, -1); }
      FoldUnique(w + rest, OnesAdd(w, f));
    }
  }

  lemma ModSum(w: int, f: int, rest: int)
    requires f % MAX16 == rest % MAX16
    ensures (w + f) % MAX16 == (w + rest) % MAX16
  {
    var k := rest / MAX16 - f / MAX16;
    assert rest == f + MAX16 * k;
    ModShift(w + f, k);
  }

  /** A 32-bit accumulator. */
  function Wrap32(x: int): (r: nat)
  {
    x % U32
  }

  /** What InternetChecksum returns: the complement of the folded accumulator. */
  function Complement(data: bytes, seed: int): (r: int)
  {
    MAX16 - Fold(Wrap32(seed + WordSum(data)))
  }

  method FoldCarries(start: nat) returns (acc: nat)
    ensures acc == Fold(start)
  {
    acc := start;
    while acc / 0x10000 != 0
      invariant Fold(acc) == Fold(start)
      decreases acc
    {
      acc := acc % 0x10000 + acc / 0x10000;
    }
  }

  lemma WrapAdd(total: int, add: int)
    ensures Wrap32(Wrap32(total) + add) == Wrap32(total + add)
  {
  }

  lemma SmallWrap(x: int)
    ensures 0 <= x < U32 ==> Wrap32(x) == x
  {
  }

  /** A big-endian 32-bit load contributes its two halves. */
  function Halves(a: int, b: int, c: int, d: int): (r: int)
    requires 0 <= a < 256 && 0 <= b < 256 && 0 <= c < 256 && 0 <= d < 256
    ensures r == Word(a, b) + Word(c, d)
  {
    var be := 0x100_0000 * a + 0x1_0000 * b + 0x100 * c + d;
    assert be == 0x1_0000 * Word(a, b) + Word(c, d);
    be % 0x1_0000 + be / 0x1_0000
  }

  lemma StepTwo(s: bytes, i: int)
    requires 0 <= i && i + 2 <= |s|
    ensures WordSum(s[i..]) == Word(s[i], s[i + 1]) + WordSum(s[i + 2..])
  {
    assert s[i..][2..] == s[i + 2..];
  }

  /** Two words a step while four bytes remain. */
  method AccumulateFours(data: bytes, seed: int) returns (acc: int, i: int)
    requires Octets(data) && 0 <= seed < U32
    ensures 0 <= i <= |data| < i + 4
    ensures acc == Wrap32(seed + WordSum(data) - WordSum(data[i..]))
  {
    acc, i := seed, 0;
    assert acc == Wrap32(seed);
    hide Wrap32, WordSum, Word, Halves;
    assert data[0..] == data;
    while i + 4 <= |data|
      invariant 0 <= i <= |data| && acc == Wrap32(seed + WordSum(data) - WordSum(data[i..]))
    {
      var add := Halves(data[i], data[i + 1], data[i + 2], data[i + 3]);
      StepTwo(data, i);
      StepTwo(data, i + 2);
      WrapAdd(seed + WordSum(data) - WordSum(data[i..]), add);
      acc := Wrap32(acc + add);
      i := i + 4;
    }
  }

  /** Four bytes a step, then two, then the odd one. */
  method Accumulate(data: bytes, seed: int) returns (acc: int)
    requires Octets(data) && 0 <= seed < U32
    ensures acc == Wrap32(seed + WordSum(data))
  {
    hide Wrap32, WordSum, Word, Halves;
    var i;
    acc, i := AccumulateFours(data, seed);
    while i + 1 < |data|
      invariant 0 <= i <= |data| && acc == Wrap32(seed + WordSum(data) - WordSum(data[i..]))
    {
      StepTwo(data, i);
      WrapAdd(seed + WordSum(data) - WordSum(data[i..]), Word(data[i], data[i + 1]));
      acc := Wrap32(acc + Word(data[i], data[i + 1]));
      i := i + 2;
    }
    LastByte(data, i);
    if i < |data| {
      WrapAdd(seed + WordSum(data) - WordSum(data[i..]), Word(data[i], 0));
      acc := Wrap32(acc + Word(data[i], 0));
    }
  }

  lemma LastByte(data: bytes, i: int)
    requires 0 <= i <= |data| <= i + 1
    ensures WordSum(data[i..]) == if i < |data| then Word(data[i], 0) else 0
  {
  }

  /** The whole routine. Its result is the RFC 1071 checksum as long as 32 bits hold the sum. */
  method InternetChecksum(data: bytes, seed: int) returns (r: int)
    requires Octets(data) && 0 <= seed < U32
    ensures r == Complement(data, seed)
    ensures seed == 0 && WordSum(data) < U32 ==> r == MAX16 - OnesSum(data)
  {
    hide Fold, WordSum, OnesSum, Wrap32;
    WordSumBound(data);
    OnesSumIsFold(data);
    SmallWrap(WordSum(data));
    var acc := Accumulate(data, seed);
    acc := FoldCarries(acc);
    r := MAX16 - acc;
  }

  /** A packet of at most 65,535 bytes cannot overflow the accumulator. */
  lemma NoOverflow(data: bytes, seed: int)
    requires Octets(data) && |data| <= MAX16 && 0 <= seed < 0x8000_0000
    ensures 0 <= seed + WordSum(data) < U32
    ensures Complement(data, seed) == MAX16 - Fold(seed + WordSum(data))
    ensures 0 <= Complement(data, seed) <= MAX16
  {
    hide Fold, WordSum;
    WordSumBound(data);
    FoldLaw(seed + WordSum(data));
    assert (|data| + 1) / 2 <= 0x8000;
  }

  /** Seeding with a pseudo-header is the same as prefixing it: the RFC 1071 sum of both. */
  lemma SeededChecksum(pseudo: bytes, data: bytes)
    requires Octets(pseudo) && Octets(data) && |pseudo| % 2 == 0 && |pseudo| <= 40 && |data| <= MAX16
    ensures Complement(data, WordSum(pseudo)) == MAX16 - OnesSum(pseudo + data)
  {
    hide Complement, WordSum, OnesSum, Fold;
    WordSumBound(pseudo);
    assert (|pseudo| + 1) / 2 <= 20;
    NoOverflow(data, WordSum(pseudo));
    WordSumConcat(pseudo, data);
    OnesSumIsFold(pseudo + data);
  }

  // ---------------------------------------------------------------------------------
  // Inserting the checksum makes verification return zero.
  // ---------------------------------------------------------------------------------

  function HighByte(v: int): (r: int) { v / 256 }

  function LowByte(v: int): (r: int) { v % 256 }

  /** The data with a 16-bit field at `at` replaced. */
  function WithField(data: bytes, at: int, v: int): (r: bytes)
    requires 0 <= at && at + 2 <= |data|
  {
    data[at := HighByte(v)][at + 1 := LowByte(v)]
  }

  lemma FieldSum(data: bytes, at: int, v: int)
    requires 0 <= at && at + 2 <= |data| && at % 2 == 0 && data[at] == data[at + 1] == 0
    ensures WordSum(WithField(data, at, v)) == WordSum(data) + v
  {
    var after := WithField(data, at, v);
    assert data == data[..at] + data[at..] && after == data[..at] + after[at..];
    WordSumConcat(data[..at], data[at..]);
    WordSumConcat(data[..at], after[at..]);
    assert data[at..][2..] == after[at..][2..];
  }

  lemma ComplementCancels(sum: nat)
    ensures Fold(sum) <= MAX16 && Fold(sum + MAX16 - Fold(sum)) == MAX16
  {
    FoldLaw(sum);
    var k := sum / MAX16 - Fold(sum) / MAX16;
    assert sum == Fold(sum) + MAX16 * k;
    ModShift(MAX16, k);
    FoldUnique(sum + MAX16 - Fold(sum), MAX16);
  }

  lemma InsertVerifies(data: bytes, at: int, seed: int)
    requires Octets(data) && |data| <= MAX16 && 0 <= seed < 0x8000_0000
    requires 0 <= at && at + 2 <= |data| && at % 2 == 0 && data[at] == data[at + 1] == 0
    ensures var done := WithField(data, at, Complement(data, seed));
            Octets(done) && |done| == |data| && Complement(done, seed) == 0
  {
    hide WordSum, Fold, Complement;
    NoOverflow(data, seed);
    ComplementCancels(seed + WordSum(data));
    var done := WithField(data, at, Complement(data, seed));
    FieldSum(data, at, Complement(data, seed));
    NoOverflow(done, seed);
  }

  lemma ComplementRange(data: bytes, seed: int)
    ensures 0 <= Complement(data, seed) <= MAX16
  {
    hide WordSum, Fold;
    FoldLaw(Wrap32(seed + WordSum(data)));
  }

  /** For data of any length: the inserted checksum verifies exactly if adding it does not carry out
      of the 32-bit accumulator. */
  lemma InsertVerifiesIff(data: bytes, at: int, seed: int)
    requires 0 <= at && at + 2 <= |data| && at % 2 == 0 && data[at] == data[at + 1] == 0
    ensures Complement(WithField(data, at, Complement(data, seed)), seed) == 0 <==>
            Wrap32(seed + WordSum(data)) + Complement(data, seed) < U32
  {
    hide WordSum, Fold, Wrap32, WithField;
    var acc, c := Wrap32(seed + WordSum(data)), Complement(data, seed);
    FieldSum(data, at, c);
    WrapAdd(seed + WordSum(data), c);
    ComplementRange(data, seed);
    ComplementCancels(acc);
    AccBound(seed + WordSum(data), c);
    if acc + c < U32 {
      SmallWrap(acc + c);
    } else {
      FoldIsMax(acc + c);
      CarryLost(acc + c);
      FoldIsMax(acc + c - U32);
    }
  }

  lemma AccBound(x: int, c: int)
    ensures Wrap32(x) < U32
    ensures 0 <= c <= MAX16 && Wrap32(x) + c >= U32 ==> Wrap32(Wrap32(x) + c) == Wrap32(x) + c - U32
  {
  }

  /** Dropping a carry of 2^32 changes a sum by one. */
  lemma CarryLost(x: int)
    requires x >= U32 && x % MAX16 == 0
    ensures (x - U32) % MAX16 == MAX16 - 1
  {
    var k := x / MAX16;
    assert x == MAX16 * k && U32 == MAX16 * 65537 + 1;
    ModUnique(x - U32, k - 65538, MAX16 - 1);
  }

  /** The converse use: a verified block is one whose one's-complement sum is all ones. */
  lemma VerifiesIff(data: bytes, seed: int)
    requires Octets(data) && |data| <= MAX16 && 0 <= seed < 0x8000_0000
    ensures Complement(data, seed) == 0 <==> seed + WordSum(data) > 0 && (seed + WordSum(data)) % MAX16 == 0
  {
    hide Complement, Fold, WordSum;
    NoOverflow(data, seed);
    FoldIsMax(seed + WordSum(data));
  }

  lemma FoldIsMax(sum: nat)
    ensures Fold(sum) == MAX16 <==> sum > 0 && sum % MAX16 == 0
  {
    hide Fold;
    FoldLaw(sum);
    ModUnique(MAX16, 1, 0);
    if sum > 0 && Fold(sum) != MAX16 {
      ModUnique(Fold(sum), 0, Fold(sum));
    }
  }

  // ---------------------------------------------------------------------------------
  // Pseudo-headers.
  // ---------------------------------------------------------------------------------

  function Be16(v: int): (r: bytes)
    ensures |r| == 2
  {
    [v / 256 % 256, v % 256]
  }

  function Be32(v: int): (r: bytes)
    ensures |r| == 4
  {
    [v / 0x100_0000 % 256, v / 0x1_0000 % 256, v / 0x100 % 256, v % 256]
  }

  /** RFC 793: source, destination, zero, protocol, length. */
  function Pseudo4(src: bytes, dst: bytes, protocol: int, length: int): (r: bytes)
  {
    src + dst + [0, protocol] + Be16(length)
  }

  /** Section 8.1 of RFC 8200: source, destination, 32-bit length, three zeros, next header. */
  function Pseudo6(src: bytes, dst: bytes, protocol: int, length: int): (r: bytes)
  {
    src + dst + Be32(length) + [0, 0, 0, protocol]
  }

  lemma WordsOf4(s: bytes)
    requires |s| == 4
    ensures WordSum(s) == Word(s[0], s[1]) + Word(s[2], s[3])
  {
    StepTwo(s, 0);
    StepTwo(s, 2);
    assert s[0..] == s;
  }

  lemma WordOf(x: int)
    requires 0 <= x
    ensures Word(x / 0x100 % 0x100, x % 0x100) == x % 0x1_0000
  {
    var b := x / 0x100;
    assert x == 0x100 * b + x % 0x100;
    assert b == 0x100 * (b / 0x100) + b % 0x100;
    LowHalf(x, b / 0x100, Word(b % 0x100, x % 0x100));
  }

  lemma LowHalf(x: int, q: int, w: int)
    requires x == 0x1_0000 * q + w && 0 <= w < 0x1_0000
    ensures x % 0x1_0000 == w
  {
    assert 0x1_0000 * (x / 0x1_0000 - q) == w - x % 0x1_0000;
  }

  lemma Be16Sum(v: int)
    requires 0 <= v <= MAX16
    ensures WordSum(Be16(v)) == v
  {
    StepTwo(Be16(v), 0);
  }

  lemma Be32Sum(v: int)
    requires 0 <= v < U32
    ensures WordSum(Be32(v)) == v / 0x1_0000 % 0x1_0000 + v % 0x1_0000
  {
    WordsOf4(Be32(v));
    WordOf(v / 0x1_0000);
    WordOf(v);
    assert v / 0x100_0000 == v / 0x1_0000 / 0x100;
  }

  method Ipv4PseudoHeaderSeed(src: bytes, dst: bytes, protocol: int, length: int) returns (seed: int)
    requires |src| == |dst| == 4 && 0 <= length <= MAX16
    ensures seed == WordSum(Pseudo4(src, dst, protocol, length))
  {
    seed := 0;
    seed := seed + Word(src[0], src[1]);
    seed := seed + Word(src[2], src[3]);
    seed := seed + Word(dst[0], dst[1]);
    seed := seed + Word(dst[2], dst[3]);
    seed := seed + protocol;
    seed := seed + length;
    WordsOf4(src);
    WordsOf4(dst);
    Be16Sum(length);
    WordSumConcat(src, dst);
    WordSumConcat(src + dst, [0, protocol]);
    WordSumConcat(src + dst + [0, protocol], Be16(length));
  }

  method AddWords(s: bytes, from: int) returns (seed: int)
    requires |s| == 16
    ensures seed == from + WordSum(s)
  {
    seed := from;
    assert s[0..] == s;
    var i := 0;
    while i < 16
      invariant 0 <= i <= 16 && i % 2 == 0 && seed + WordSum(s[i..]) == from + WordSum(s)
    {
      StepTwo(s, i);
      seed := seed + Word(s[i], s[i + 1]);
      i := i + 2;
    }
  }

  method Ipv6PseudoHeaderSeed(src: bytes, dst: bytes, protocol: int, length: int) returns (seed: int)
    requires |src| == |dst| == 16 && 0 <= length < U32
    ensures seed == WordSum(Pseudo6(src, dst, protocol, length))
  {
    seed := AddWords(src, 0);
    seed := AddWords(dst, seed);
    seed := seed + length / 0x1_0000 % 0x1_0000;
    seed := seed + length % 0x1_0000;
    seed := seed + protocol;
    Be32Sum(length);
    WordsOf4([0, 0, 0, protocol]);
    WordSumConcat(src, dst);
    WordSumConcat(src + dst, Be32(length));
    WordSumConcat(src + dst + Be32(length), [0, 0, 0, protocol]);
  }
}
