/** What several components share. */
module Prelude {

  datatype Option<T> = None | Some(value: T)

  /** Octets as integers; where it matters, `Checksum.Octets` bounds them. */
  type bytes = seq<int>

  const U32_MAX: int := 0xFFFF_FFFF
  const U64_MAX: int := 0xFFFF_FFFF_FFFF_FFFF

  function Min(a: int, b: int): (r: int)
  {
    if a <= b then a else b
  }

  function Max(a: int, b: int): (r: int)
  {
    if a <= b then b else a
  }

  /** 64-bit addition that stops at the top. */
  function SaturatingAdd(left: int, right: int): (r: int)
  {
    if right > U64_MAX - left then U64_MAX else left + right
  }
}
