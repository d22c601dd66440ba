/** Marking Congestion Experienced in place of a CoDel drop. */
module CeMark {
  import opened Prelude
  import opened Checksum

  /** The two ECN bits: low bits of the IPv4 TOS byte, bits 4-5 of the second IPv6 byte. */
  function EcnOf(data: bytes): (r: int)
    requires |data| >= 20
  {
    if data[0] / 16 == 4 then data[1] % 4 else data[1] / 16 % 4
  }

  predicate Markable(data: bytes)
  {
    |data| >= 20 && (data[0] / 16 == 4 || (data[0] / 16 == 6 && |data| >= 40)) && EcnOf(data) in {1, 2}
  }

  function HeaderLength(data: bytes): (r: int)
    requires |data| > 0
  {
    data[0] % 16 * 4
  }

  function LowCe(b: int): (r: int)
    requires 0 <= b < 256
    ensures 0 <= r < 256 && r % 4 == 3 && r / 4 == b / 4
  {
    b / 4 * 4 + 3
  }

  function MiddleCe(b: int): (r: int)
    requires 0 <= b < 256
    ensures 0 <= r < 256 && r / 16 % 4 == 3 && r % 16 == b % 16 && r / 64 == b / 64
  {
    b / 64 * 64 + 48 + b % 16
  }

  /** Zero the checksum field and insert the checksum of the first `length` bytes. */
  method RefreshHeader(data: bytes, length: int) returns (out: bytes)
    requires Octets(data) && 20 <= length <= |data| && length <= 60
    ensures |out| == |data| && Octets(out) && Complement(out[..length], 0) == 0
    ensures forall i :: 0 <= i < |data| && i != 10 && i != 11 ==> out[i] == data[i]
  {
    hide Complement, WordSum, Fold;
    var blank := data[10 := 0][11 := 0];
    var header := blank[..length];
    var sum := InternetChecksum(header, 0);
    InsertVerifies(header, 10, 0);
    NoOverflow(header, 0);
    out := WithField(blank, 10, sum);
    assert WithField(header, 10, sum) == out[..length];
  }

  /** Exactly the ECN-capable packets are marked; only the ECN bits and the IPv4 header checksum
      change, and the header then verifies. */
  method MarkCe(data: bytes) returns (marked: bool, out: bytes)
    requires Octets(data)
    ensures marked <==> Markable(data)
    ensures !marked ==> out == data
    ensures |out| == |data| && Octets(out)
    ensures marked ==> EcnOf(out) == 3 && out[0] == data[0]
    ensures marked && data[0] / 16 == 4 ==> out[1] / 4 == data[1] / 4
    ensures marked && data[0] / 16 == 6 ==> out[1] % 16 == data[1] % 16 && out[1] / 64 == data[1] / 64
    ensures forall i :: 0 <= i < |data| && i != 1 && !(data[0] / 16 == 4 && (i == 10 || i == 11)) ==> out[i] == data[i]
    ensures marked && data[0] / 16 == 4 && 20 <= HeaderLength(data) <= |data| ==>
              Complement(out[..HeaderLength(data)], 0) == 0
  {
    hide Complement, LowCe, MiddleCe;
    out := data;
    if |data| < 20 {
      return false, out;
    }
    var version := data[0] / 16;
    if version == 4 {
      var ecn := data[1] % 4;
      if ecn != 1 && ecn != 2 {
        return false, out;
      }
      out := out[1 := LowCe(data[1])];
      var length := HeaderLength(data);
      if 20 <= length <= |data| {
        out := RefreshHeader(out, length);
      }
      return true, out;
    }
    if version == 6 {
      if |data| < 40 {
        return false, out;
      }
      var ecn := data[1] / 16 % 4;
      if ecn != 1 && ecn != 2 {
        return false, out;
      }
      out := out[1 := MiddleCe(data[1])];
      return true, out;
    }
    return false, out;
  }
}
