// Shared vocabulary of the model: optional values, bytes, fixed-width
// integers and their little-endian encodings.

module Base {

  datatype Option<T> = None | Some(value: T)

  /** An octet, as `uint8_t` / `u8` in the sources. */
  type byte = b: int | 0 <= b < 256

  const TWO_8: int := 0x100
  const TWO_16: int := 0x1_0000
  const TWO_32: int := 0x1_0000_0000
  const TWO_64: int := 0x1_0000_0000_0000_0000

  predicate IsU8(x: int) { 0 <= x < TWO_8 }
  predicate IsU16(x: int) { 0 <= x < TWO_16 }
  predicate IsU32(x: int) { 0 <= x < TWO_32 }
  predicate IsU64(x: int) { 0 <= x < TWO_64 }
  predicate IsI32(x: int) { -0x8000_0000 <= x < 0x8000_0000 }

  function Min(a: int, b: int): int { if a < b then a else b }
  function Max(a: int, b: int): int { if a < b then b else a }

  function Pow256(n: nat): (r: nat)
    ensures r >= 1
  {
    if n == 0 then 1 else 256 * Pow256(n - 1)
  }

  /** The `n` low-order bytes of `x`, least significant first. */
  function LeBytes(x: nat, n: nat): (r: seq<byte>)
    ensures |r| == n
  {
    if n == 0 then [] else [x % 256] + LeBytes(x / 256, n - 1)
  }

  /** The number whose little-endian encoding is `b`. */
  function LeValue(b: seq<byte>): (v: nat)
    ensures v < Pow256(|b|)
  {
    if |b| == 0 then 0 else b[0] + 256 * LeValue(b[1..])
  }

  lemma {:induction false} LeRoundTrip(x: nat, n: nat)
    requires x < Pow256(n)
    ensures LeValue(LeBytes(x, n)) == x
  {
    if n > 0 {
      var r := LeBytes(x, n);
      assert r[1..] == LeBytes(x / 256, n - 1);
      LeRoundTrip(x / 256, n - 1);
    }
  }

  lemma {:induction false} LeBytesOfValue(b: seq<byte>)
    ensures LeBytes(LeValue(b), |b|) == b
  {
    if |b| > 0 {
      LeBytesOfValue(b[1..]);
    }
  }

  function Le16(x: int): (r: seq<byte>)
    requires IsU16(x)
    ensures |r| == 2 && r[0] == x % 256 && r[1] == x / 256
  {
    assert LeBytes(x / 256, 1) == [x / 256 % 256] + LeBytes(x / 256 / 256, 0);
    LeBytes(x, 2)
  }

  function Le32(x: int): (r: seq<byte>)
    requires IsU32(x)
    ensures |r| == 4
  {
    LeBytes(x, 4)
  }

  /** Two's-complement bit pattern of a 32-bit signed integer. */
  function U32OfI32(x: int): (r: int)
    requires IsI32(x)
    ensures IsU32(r)
  {
    if x < 0 then x + TWO_32 else x
  }

  function I32OfU32(x: int): (r: int)
    requires IsU32(x)
    ensures IsI32(r)
  {
    if x >= 0x8000_0000 then x - TWO_32 else x
  }

  /** The signed value of an octet read as `int8_t` / `i8`. */
  function AsInt8(b: byte): (r: int)
    ensures -128 <= r < 128
    ensures (r + 256) % 256 == b
  {
    if b < 128 then b else b - 256
  }

  lemma I32RoundTrip(x: int)
    requires IsI32(x)
    ensures I32OfU32(U32OfI32(x)) == x
  {
  }
}
