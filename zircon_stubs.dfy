// The ioctl opcode packing of fuchsia-llui
// (public/rust/crates/fuchsia-llui/src/zircon_stubs.rs): make_ioctl packs
// a kind, a family and a number into one 32-bit opcode.
//
// The Rust arguments are `i32`; `&`, `<<` and `|` act on their 32-bit
// two's-complement patterns, which is what `bv32` holds here.

module ZirconStubs {

  const IOCTL_KIND_DEFAULT: bv32 := 0
  const IOCTL_KIND_GET_HANDLE: bv32 := 0x1

  const IOCTL_FAMILY_DEVICE: bv32 := 0x01
  const IOCTL_FAMILY_CONSOLE: bv32 := 0x10
  const IOCTL_FAMILY_INPUT: bv32 := 0x11
  const IOCTL_FAMILY_DISPLAY: bv32 := 0x12

  /** make_ioctl: kind in bits 20..23, family in bits 8..15, number in bits 0..7. */
  function MakeIoctl(kind: bv32, family: bv32, number: bv32): bv32
  {
    ((kind & 0xF) << 20) | ((family & 0xFF) << 8) | (number & 0xFF)
  }

  /** Each field can be read back from the opcode: the low 4, 8 and 8 bits of the arguments. */
  lemma IoctlFields(kind: bv32, family: bv32, number: bv32)
    ensures (MakeIoctl(kind, family, number) >> 20) & 0xF == kind & 0xF
    ensures (MakeIoctl(kind, family, number) >> 8) & 0xFF == family & 0xFF
    ensures MakeIoctl(kind, family, number) & 0xFF == number & 0xFF
  {
  }

  /** Bits 16..19 and 24..31 of an opcode are always zero, so the opcode is a non-negative i32. */
  lemma IoctlReservedBitsZero(kind: bv32, family: bv32, number: bv32)
    ensures MakeIoctl(kind, family, number) & 0x000F_0000 == 0
    ensures MakeIoctl(kind, family, number) & 0xFF00_0000 == 0
    ensures MakeIoctl(kind, family, number) < 0x0100_0000
  {
  }

  /** Only the low 4 bits of kind and the low 8 bits of family and number matter. */
  lemma IoctlLowBitsOnly(kind: bv32, family: bv32, number: bv32)
    ensures MakeIoctl(kind, family, number) == MakeIoctl(kind & 0xF, family & 0xFF, number & 0xFF)
  {
  }

  /** Arguments within their fields give distinct opcodes, and are recovered from them. */
  lemma IoctlInjective(k1: bv32, f1: bv32, n1: bv32, k2: bv32, f2: bv32, n2: bv32)
    requires k1 <= 0xF && f1 <= 0xFF && n1 <= 0xFF
    requires k2 <= 0xF && f2 <= 0xFF && n2 <= 0xFF
    ensures MakeIoctl(k1, f1, n1) == MakeIoctl(k2, f2, n2) <==> k1 == k2 && f1 == f2 && n1 == n2
  {
    IoctlFields(k1, f1, n1);
    IoctlFields(k2, f2, n2);
  }
}
