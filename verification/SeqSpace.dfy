/** 32-bit wrapping sequence numbers and their absolute-position meaning.
    An absolute position is an unbounded integer; a wire sequence number is that
    position modulo 2^32. */
module SeqSpace {

  const MODULUS: int := 0x1_0000_0000
  const HALF: int := 0x8000_0000

  /** Payload octets: the stream machinery moves them and never looks inside one. */
  type byte = int
  type Seq32 = x: int | 0 <= x < 0x1_0000_0000

  /** The wire number of an absolute position: its residue modulo 2^32. */
  function Wrap(position: int): (s: Seq32)
    decreases if position < 0 then 0x1_0000_0000 - position else position
  {
    if position < 0 then Wrap(position + 0x1_0000_0000)
    else if position < 0x1_0000_0000 then position
    else Wrap(position - 0x1_0000_0000)
  }

  lemma {:induction false} WrapIsMod(position: int)
    ensures Wrap(position) == position % 0x1_0000_0000
    decreases if position < 0 then 0x1_0000_0000 - position else position
  {
    if position < 0 {
      WrapIsMod(position + 0x1_0000_0000);
    } else if position >= 0x1_0000_0000 {
      WrapIsMod(position - 0x1_0000_0000);
    }
  }

  /** Unsigned 32-bit subtraction. */
  function Sub32(left: Seq32, right: Seq32): (d: Seq32)
  {
    if left >= right then left - right else left - right + 0x1_0000_0000
  }

  /** Unsigned 32-bit addition. */
  function Add32(left: Seq32, right: Seq32): (s: Seq32)
  {
    if left + right < 0x1_0000_0000 then left + right else left + right - 0x1_0000_0000
  }

  /** static_cast<int32_t>(left - right) < 0 */
  predicate SequenceBefore(left: Seq32, right: Seq32)
  {
    Sub32(left, right) >= HALF
  }

  /** static_cast<int32_t>(left - right) > 0 */
  predicate SequenceAfter(left: Seq32, right: Seq32)
  {
    0 < Sub32(left, right) < HALF
  }

  datatype Offset = NoOffset | At(value: int)

  /** Signed distance of `sequence` from `base`; undefined at exactly half the space. */
  function SequenceOffset(sequence: Seq32, base: Seq32): (r: Offset)
  {
    var forward := Sub32(sequence, base);
    if forward == HALF then NoOffset
    else if forward < HALF then At(forward)
    else var backward: int := Sub32(base, sequence); At(-backward)
  }

  lemma WrapSub(a: int, b: int)
    ensures Sub32(Wrap(a), Wrap(b)) == Wrap(a - b)
  {
    WrapIsMod(a);
    WrapIsMod(b);
    WrapIsMod(a - b);
  }

  lemma WrapAdd(a: int, n: Seq32)
    ensures Add32(Wrap(a), n) == Wrap(a + n)
  {
    WrapIsMod(a);
    WrapIsMod(a + n);
  }

  /** Distances below half the space wrap to themselves, or above half when negative. */
  lemma SmallWrap(d: int)
    requires -HALF < d < HALF
    ensures if d >= 0 then Wrap(d) == d else Wrap(d) > HALF
  {
    WrapIsMod(d);
  }

  /** The signed comparison agrees with the order of the absolute positions exactly on
      the pairs whose distance, reduced modulo 2^32, has not crossed half the space. */
  lemma ComparisonLaw(a: int, b: int)
    ensures SequenceAfter(Wrap(a), Wrap(b)) <==> 0 < Wrap(a - b) < HALF
    ensures SequenceBefore(Wrap(a), Wrap(b)) <==> HALF <= Wrap(a - b)
    ensures -HALF < a - b < HALF ==>
              (SequenceAfter(Wrap(a), Wrap(b)) <==> a > b) &&
              (SequenceBefore(Wrap(a), Wrap(b)) <==> a < b)
  {
    WrapSub(a, b);
    WrapIsMod(a - b);
  }

  /** SequenceOffset recovers the true distance if and only if it is below half the space. */
  lemma OffsetLaw(a: int, b: int)
    ensures SequenceOffset(Wrap(a), Wrap(b)) == At(a - b) <==> -HALF < a - b < HALF
  {
    WrapSub(a, b);
    WrapSub(b, a);
    WrapIsMod(a - b);
    WrapIsMod(b - a);
  }

  /** Whatever SequenceOffset answers is a position congruent to the sequence number. */
  lemma OffsetIsCongruent(sequence: Seq32, base: int)
    ensures var r := SequenceOffset(sequence, Wrap(base));
            r.At? ==> -HALF < r.value < HALF && Wrap(base + r.value) == sequence
  {
    var r := SequenceOffset(sequence, Wrap(base));
    if r.At? {
      WrapIsMod(base);
      WrapIsMod(base + r.value);
    }
  }

  lemma SameWire(a: int, b: int)
    requires Wrap(a) == Wrap(b) && -HALF < a - b < HALF
    ensures a == b
  {
    WrapSub(a, b);
    SmallWrap(a - b);
  }

  lemma OffsetZero(sequence: Seq32, base: Seq32)
    ensures SequenceOffset(sequence, base) == At(0) <==> sequence == base
  {
  }

  /** Offering `amount` beyond `from` against a known edge: the offset is congruent, and
      true whenever the two positions are less than half the space apart. */
  lemma OfferLaw(from: int, amount: Seq32, edge: int)
    ensures Add32(Wrap(from), amount) == Wrap(from + amount)
    ensures var r := SequenceOffset(Wrap(from + amount), Wrap(edge));
            && (r.At? ==> Wrap(edge + r.value) == Wrap(from + amount))
            && (-HALF < from + amount - edge < HALF ==> r == At(from + amount - edge))
  {
    WrapAdd(from, amount);
    OffsetIsCongruent(Wrap(from + amount), edge);
    OffsetLaw(from + amount, edge);
  }
}
