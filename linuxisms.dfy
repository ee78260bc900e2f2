// Linux helper macros of the ath10k port
// (drivers/wlan/third_party/atheros/ath10k/linuxisms.h): bit masks,
// rounding up to a power of two, and min.
//
// `unsigned long` is 64 bits wide; its values are natural numbers below
// 2^64 here, with `&` and `~` defined bit by bit. A shift by 64 or more,
// and __builtin_clzl of 0, are undefined in C; the as-written models
// return None for them.

module Ath10kLinuxisms {
  import opened Base

  /** Width of `unsigned long`. */
  const ULONG_BITS: nat := 64

  // ---------------------------------------------------------------------
  // Powers of two and bits of natural numbers

  function Pow2(n: nat): (r: nat)
    ensures r >= 1
  {
    if n == 0 then 1 else 2 * Pow2(n - 1)
  }

  predicate IsPow2(x: nat)
  {
    exists n: nat :: n < ULONG_BITS && Pow2(n) == x
  }

  lemma {:induction false} Pow2Monotonic(m: nat, n: nat)
    requires m <= n
    ensures Pow2(m) <= Pow2(n)
  {
    if m < n {
      Pow2Monotonic(m, n - 1);
    }
  }

  /** Bit i of x, counting from the least significant bit 0. */
  predicate Bit(x: nat, i: nat)
  {
    if i == 0 then x % 2 == 1 else Bit(x / 2, i - 1)
  }

  /** C's `&` on unsigned values, bit by bit. */
  function And(a: nat, b: nat): nat
  {
    if a == 0 || b == 0 then 0
    else 2 * And(a / 2, b / 2) + (if a % 2 == 1 && b % 2 == 1 then 1 else 0)
  }

  /** The number of significant bits of x: 0 for 0. */
  function BitLength(x: nat): nat
  {
    if x == 0 then 0 else 1 + BitLength(x / 2)
  }

  /** A positive x has BitLength(x) = k exactly when 2^(k-1) <= x < 2^k. */
  lemma {:induction false} BitLengthBounds(x: nat)
    requires x > 0
    ensures BitLength(x) >= 1
    ensures Pow2(BitLength(x) - 1) <= x < Pow2(BitLength(x))
  {
    if x / 2 > 0 {
      BitLengthBounds(x / 2);
    }
  }

  /** A value below 2^n has at most n significant bits. */
  lemma {:induction false} BitLengthBelow(x: nat, n: nat)
    requires x < Pow2(n)
    ensures BitLength(x) <= n
  {
    if x > 0 {
      BitLengthBelow(x / 2, n - 1);
    }
  }

  /** A value of at most n significant bits is below 2^n. */
  lemma BitLengthFits(x: nat, n: nat)
    requires BitLength(x) <= n
    ensures x < Pow2(n)
  {
    if x > 0 {
      BitLengthBounds(x);
      Pow2Monotonic(BitLength(x), n);
    }
  }

  /** An `unsigned long` value: at most 64 significant bits. */
  predicate IsULong(x: nat)
  {
    BitLength(x) <= ULONG_BITS
  }

  /** The unsigned long values are exactly 0 .. 2^64 - 1. */
  lemma ULongRange(x: nat)
    ensures IsULong(x) <==> x < Pow2(ULONG_BITS)
  {
    if IsULong(x) {
      BitLengthFits(x, ULONG_BITS);
    }
    if x < Pow2(ULONG_BITS) {
      BitLengthBelow(x, ULONG_BITS);
    }
  }

  /** C's `~` on an unsigned value of the given width. */
  function Complement(b: nat, width: nat): nat
    requires BitLength(b) <= width
  {
    BitLengthFits(b, width);
    Pow2(width) - 1 - b
  }

  lemma {:induction false} ZeroHasNoBits(i: nat)
    ensures !Bit(0, i)
  {
    if i > 0 {
      ZeroHasNoBits(i - 1);
    }
  }

  /** A bit of a & b is set exactly when it is set in both. */
  lemma {:induction false} AndBit(a: nat, b: nat, i: nat)
    ensures Bit(And(a, b), i) <==> Bit(a, i) && Bit(b, i)
  {
    if a == 0 || b == 0 {
      ZeroHasNoBits(i);
    } else if i > 0 {
      assert And(a, b) / 2 == And(a / 2, b / 2);
      AndBit(a / 2, b / 2, i - 1);
    }
  }

  /** A bit of ~b below the width is set exactly when it is clear in b. */
  lemma {:induction false} ComplementBit(b: nat, width: nat, i: nat)
    requires BitLength(b) <= width && i < width
    ensures Bit(Complement(b, width), i) <==> !Bit(b, i)
  {
    if i > 0 {
      assert Complement(b, width) / 2 == Complement(b / 2, width - 1);
      ComplementBit(b / 2, width - 1, i - 1);
    }
  }

  // ---------------------------------------------------------------------
  // GENMASK

  /** 2^val - 1 has exactly val significant bits. */
  lemma {:induction false} LowMaskLength(val: nat)
    ensures BitLength(Pow2(val) - 1) == val
  {
    if val > 0 {
      assert (Pow2(val) - 1) / 2 == Pow2(val - 1) - 1;
      LowMaskLength(val - 1);
    }
  }

  /** GENMASK1(val): 1UL << val, less one; defined for shifts below 64. */
  function GenMask1(val: nat): (r: nat)
    requires val < ULONG_BITS
    ensures IsULong(r)
  {
    LowMaskLength(val);
    Pow2(val) - 1
  }

  /** GENMASK(start, end): GENMASK1(start + 1) & ~GENMASK1(end); start + 1 must be a valid shift. */
  function GenMask(start: nat, end: nat): nat
    requires start + 1 < ULONG_BITS && end < ULONG_BITS
  {
    And(GenMask1(start + 1), Complement(GenMask1(end), ULONG_BITS))
  }

  /** 2^val - 1 has exactly bits 0..val-1 set. */
  lemma {:induction false} LowMaskBit(val: nat, i: nat)
    ensures Bit(Pow2(val) - 1, i) <==> i < val
  {
    if val == 0 {
      ZeroHasNoBits(i);
    } else if i > 0 {
      assert (Pow2(val) - 1) / 2 == Pow2(val - 1) - 1;
      LowMaskBit(val - 1, i - 1);
    }
  }

  /** GENMASK(start, end) has exactly bits end..start set; none when end > start. */
  lemma GenMaskBits(start: nat, end: nat, i: nat)
    requires start + 1 < ULONG_BITS && end < ULONG_BITS && i < ULONG_BITS
    ensures Bit(GenMask(start, end), i) <==> end <= i <= start
  {
    var high, low := GenMask1(start + 1), GenMask1(end);
    LowMaskBit(start + 1, i);
    LowMaskBit(end, i);
    assert Bit(high, i) <==> i <= start;
    ComplementBit(low, ULONG_BITS, i);
    assert Bit(Complement(low, ULONG_BITS), i) <==> end <= i;
    AndBit(high, Complement(low, ULONG_BITS), i);
  }

  // ---------------------------------------------------------------------
  // Leading zeros

  /** __builtin_clzl: the leading zero bits of a nonzero unsigned long. */
  function Clzl(x: nat): (r: nat)
    requires 0 < x && IsULong(x)
    ensures r < ULONG_BITS
  {
    ULONG_BITS - BitLength(x)
  }

  /** The leading zero count places the highest set bit: 2^(63 - clz) <= x < 2^(64 - clz). */
  lemma ClzlBounds(x: nat)
    requires 0 < x && IsULong(x)
    ensures Pow2(ULONG_BITS - 1 - Clzl(x)) <= x < Pow2(ULONG_BITS - Clzl(x))
  {
    var k := BitLength(x);
    BitLengthBounds(x);
    assert ULONG_BITS - Clzl(x) == k;
  }

  // ---------------------------------------------------------------------
  // roundup_pow_of_two and roundup_log2

  /**
   * roundup_pow_of_two as written: val itself for 0, otherwise
   * 1UL << (64 - clzl(val - 1)). For val = 1 that counts the leading zeros
   * of 0, and for val > 2^63 it shifts by 64; both are undefined (None).
   */
  function RoundupPowOfTwoAsWritten(val: nat): Option<nat>
    requires IsULong(val)
  {
    if val == 0 then Some(val)
    else if val - 1 == 0 then None
    else
      BitLengthMonotonic(val - 1, val);
      var shift := ULONG_BITS - Clzl(val - 1);
      if shift >= ULONG_BITS then None else Some(Pow2(shift))
  }

  /** roundup_log2 as written: the shift roundup_pow_of_two uses; undefined for val = 1. */
  function RoundupLog2AsWritten(val: nat): Option<nat>
    requires IsULong(val)
  {
    if val == 0 then Some(val)
    else if val - 1 == 0 then None
    else
      BitLengthMonotonic(val - 1, val);
      Some(ULONG_BITS - Clzl(val - 1))
  }

  lemma {:induction false} BitLengthMonotonic(x: nat, y: nat)
    requires x <= y
    ensures BitLength(x) <= BitLength(y)
  {
    if x > 0 {
      BitLengthMonotonic(x / 2, y / 2);
    }
  }

  /** The arguments for which a power of two is representable: 0 and 1 .. 2^63. */
  predicate RoundupInRange(val: nat)
  {
    val == 0 || BitLength(val - 1) < ULONG_BITS
  }

  /** RoundupInRange is exactly val <= 2^63. */
  lemma RoundupRange(val: nat)
    ensures RoundupInRange(val) <==> val <= Pow2(ULONG_BITS - 1)
  {
    if val > 0 {
      if val - 1 < Pow2(ULONG_BITS - 1) {
        BitLengthBelow(val - 1, ULONG_BITS - 1);
      }
      if BitLength(val - 1) < ULONG_BITS {
        BitLengthFits(val - 1, ULONG_BITS - 1);
      }
    }
  }

  /** roundup_pow_of_two as intended: 0 for 0, else the least power of two at least val. */
  function RoundupPowOfTwo(val: nat): nat
    requires RoundupInRange(val)
  {
    if val == 0 then 0 else Pow2(BitLength(val - 1))
  }

  /** roundup_log2 as intended: 0 for 0, else the exponent of RoundupPowOfTwo. */
  function RoundupLog2(val: nat): nat
    requires RoundupInRange(val)
  {
    if val == 0 then 0 else BitLength(val - 1)
  }

  /** RoundupPowOfTwo(val) is the least power of two that is at least val, for every val >= 1. */
  lemma RoundupPowOfTwoLeast(val: nat)
    requires 1 <= val && RoundupInRange(val)
    ensures IsPow2(RoundupPowOfTwo(val))
    ensures val <= RoundupPowOfTwo(val)
    ensures RoundupPowOfTwo(val) == 1 || RoundupPowOfTwo(val) / 2 < val
  {
    if val > 1 {
      BitLengthBounds(val - 1);
    }
  }

  /** roundup_log2 is the base-2 logarithm of roundup_pow_of_two for every val >= 1. */
  lemma RoundupLog2IsLog(val: nat)
    requires 1 <= val && RoundupInRange(val)
    ensures Pow2(RoundupLog2(val)) == RoundupPowOfTwo(val)
    ensures RoundupLog2(val) < ULONG_BITS
  {
  }

  /** The as-written macros agree with the intended ones wherever they are defined: 0 and 2..2^63. */
  lemma RoundupAsWrittenAgrees(val: nat)
    requires val != 1 && RoundupInRange(val)
    ensures IsULong(val)
    ensures RoundupPowOfTwoAsWritten(val) == Some(RoundupPowOfTwo(val))
    ensures RoundupLog2AsWritten(val) == Some(RoundupLog2(val))
  {
    if val != 0 {
      assert BitLength(val) <= BitLength(val - 1) + 1 by {
        BitLengthStep(val - 1);
      }
      assert ULONG_BITS - Clzl(val - 1) == BitLength(val - 1);
    }
  }

  /** Adding one grows the bit length by at most one. */
  lemma {:induction false} BitLengthStep(x: nat)
    ensures BitLength(x + 1) <= BitLength(x) + 1
  {
    if x > 0 {
      BitLengthStep(x / 2);
      BitLengthMonotonic((x + 1) / 2, x / 2 + 1);
    }
  }

  /** For val = 1 both macros count the leading zeros of 0, which is undefined; the intended results are 1 and 0. */
  lemma RoundupOfOneUndefined()
    ensures RoundupPowOfTwoAsWritten(1) == None && RoundupLog2AsWritten(1) == None
    ensures RoundupPowOfTwo(1) == 1 && RoundupLog2(1) == 0
  {
  }

  /** Above 2^63 roundup_pow_of_two shifts by 64, which is undefined: no power of two fits. */
  lemma RoundupAboveHalfUndefined(val: nat)
    requires IsULong(val) && !RoundupInRange(val)
    ensures RoundupPowOfTwoAsWritten(val) == None
  {
    BitLengthMonotonic(val - 1, val);
    assert ULONG_BITS - Clzl(val - 1) == BitLength(val - 1) == ULONG_BITS;
  }

  // ---------------------------------------------------------------------
  // min and min_t

  /** min(a, b): the smaller argument, b on a tie. */
  function MinOf(a: int, b: int): (r: int)
    ensures r <= a && r <= b
    ensures r == a || r == b
  {
    if a < b then a else b
  }

  /** min_t(t, a, b): both arguments cast to t, then the smaller cast value. */
  function MinT(cast: int -> int, a: int, b: int): (r: int)
    ensures r <= cast(a) && r <= cast(b)
    ensures r == cast(a) || r == cast(b)
  {
    if cast(a) < cast(b) then cast(a) else cast(b)
  }

  /** When both arguments already fit the type, min_t is min. */
  lemma MinTAgreesWhenFits(cast: int -> int, a: int, b: int)
    requires cast(a) == a && cast(b) == b
    ensures MinT(cast, a, b) == MinOf(a, b)
  {
  }

  /**
   * A truncating cast can make min_t return a value that is neither
   * argument: with an 8-bit cast, an `a` of 256 or more whose low byte is
   * below a `b` that fits gives that low byte (min_t(u8, 257, 5) is 1),
   * where min gives `b`.
   */
  lemma MinTTruncates(a: int, b: int)
    requires 256 <= a && 0 <= b < 256 && a % 256 < b
    ensures MinT(x => x % 256, a, b) == a % 256
    ensures MinT(x => x % 256, a, b) != a && MinT(x => x % 256, a, b) != b
    ensures MinOf(a, b) == b
  {
  }
}
