// The emulated GICv2 distributor of machina
// (lib/machina/arch/arm64/gic_distributor.cpp): 32-bit MMIO reads and
// writes of the guest, decoded by register offset. Reads answer the type
// and peripheral-id registers and read the configuration registers as 0;
// writes to the enable, pending and configuration banks and to the control
// register are accepted and ignored; a write to the SGI register decodes a
// software-generated interrupt, which is logged and dropped. The bit
// helpers bits_shift and set_bits of hypervisor/bits.h are not part of this
// model: they are written out here as division and remainder by powers of
// two, extracting bits high..low of a `uint32_t` and placing a value there.

module GicDistributor {
  import opened Base
  import opened Zx

  const kMaxInterrupts: nat := 128
  const kGicRevision: nat := 2

  // GicdRegister offsets
  const kCtl: nat := 0x000
  const kType: nat := 0x004
  const kIsEnable0: nat := 0x100
  const kIsEnable15: nat := 0x13c
  const kIcEnable0: nat := 0x180
  const kIcEnable15: nat := 0x1bc
  const kIcPend0: nat := 0x280
  const kIcPend15: nat := 0x2bc
  const kIcfg0: nat := 0xc00
  const kIcfg31: nat := 0xc7c
  const kSgi: nat := 0xf00
  const kPid2: nat := 0xfe8

  /** What a register offset selects; the banks are the inclusive ranges of the switch's case ranges. */
  datatype GicdRegister = Ctl | Type | SetEnable | ClearEnable | ClearPending | Config | Sgi | Pid2 | Unknown

  function Classify(addr: nat): GicdRegister
  {
    if addr == kCtl then Ctl
    else if addr == kType then Type
    else if kIsEnable0 <= addr <= kIsEnable15 then SetEnable
    else if kIcEnable0 <= addr <= kIcEnable15 then ClearEnable
    else if kIcPend0 <= addr <= kIcPend15 then ClearPending
    else if kIcfg0 <= addr <= kIcfg31 then Config
    else if addr == kSgi then Sgi
    else if addr == kPid2 then Pid2
    else Unknown
  }

  // ---------------------------------------------------------------------
  // Software-generated interrupts

  /** A decoded SGI register value. */
  datatype SoftwareGeneratedInterrupt = SoftwareGeneratedInterrupt(target: nat, cpuMask: nat, nonSecure: bool, vector: nat)

  predicate InRange(s: SoftwareGeneratedInterrupt)
  {
    s.target < 4 && s.cpuMask < 256 && s.vector < 16
  }

  /** The constructor: target from bits 25:24, cpu_mask from 23:16, non_secure from bit 15, vector from bits 3:0. */
  function DecodeSgi(sgi: nat): (s: SoftwareGeneratedInterrupt)
    requires IsU32(sgi)
    ensures InRange(s)
  {
    SoftwareGeneratedInterrupt(
      (sgi / 0x100_0000) % 4,
      (sgi / 0x1_0000) % 256,
      (sgi / 0x8000) % 2 == 1,
      sgi % 16)
  }

  /** The register value with exactly these fields and every other bit clear. */
  function EncodeSgi(s: SoftwareGeneratedInterrupt): (sgi: nat)
    requires InRange(s)
    ensures IsU32(sgi)
  {
    s.target * 0x100_0000 + s.cpuMask * 0x1_0000 + (if s.nonSecure then 0x8000 else 0) + s.vector
  }

  /**
   * Decoding reads back the fields whatever the other bits hold: bits
   * 31:26 and 14:4 are ignored.
   */
  lemma DecodeSgiIgnores(s: SoftwareGeneratedInterrupt, high: nat, middle: nat)
    requires InRange(s) && high < 64 && middle < 0x800
    ensures IsU32(EncodeSgi(s) + middle * 16 + high * 0x400_0000)
    ensures DecodeSgi(EncodeSgi(s) + middle * 16 + high * 0x400_0000) == s
  {
    var x := EncodeSgi(s) + middle * 16 + high * 0x400_0000;
    var ns := if s.nonSecure then 1 else 0;
    var t := high * 4 + s.target;
    var c := t * 256 + s.cpuMask;
    var n := c * 2 + ns;
    DivMod(x, 16, n * 0x800 + middle, s.vector);
    DivMod(x, 0x8000, n, middle * 16 + s.vector);
    DivMod(x, 0x1_0000, c, ns * 0x8000 + middle * 16 + s.vector);
    DivMod(x, 0x100_0000, t, s.cpuMask * 0x1_0000 + ns * 0x8000 + middle * 16 + s.vector);
    DivMod(n, 2, c, ns);
    DivMod(c, 256, t, s.cpuMask);
    DivMod(t, 4, high, s.target);
  }

  /** Division and remainder are determined by any quotient and remainder in range. */
  lemma DivMod(a: int, b: int, q: int, r: int)
    requires b > 0 && a == q * b + r && 0 <= r < b
    ensures a / b == q && a % b == r
  {
    var q', r' := a / b, a % b;
    assert q * b + r == q' * b + r';
    if q > q' {
      MulAtLeast(q - q', b);
    } else if q < q' {
      MulAtLeast(q' - q, b);
    }
  }

  /** A positive multiple of b is at least b. */
  lemma {:induction false} MulAtLeast(k: int, b: int)
    requires k >= 1 && b > 0
    ensures k * b >= b
    decreases k
  {
    if k > 1 {
      MulAtLeast(k - 1, b);
      assert k * b == (k - 1) * b + b;
    }
  }

  /** Every field pattern is the decoding of its encoding. */
  lemma SgiRoundTrip(s: SoftwareGeneratedInterrupt)
    requires InRange(s)
    ensures DecodeSgi(EncodeSgi(s)) == s
  {
    DecodeSgiIgnores(s, 0, 0);
  }

  // ---------------------------------------------------------------------
  // Register values

  /** typer_it_lines: (num_interrupts >> 5) - 1 in bits 4:0, with the `uint32_t` subtraction wrapping. */
  function TyperItLines(numInterrupts: nat): (r: nat)
    requires IsU32(numInterrupts)
    ensures r < 32
  {
    ((numInterrupts / 32 + TWO_32 - 1) % TWO_32) % 32
  }

  /** pidr2_arch_rev: the revision in bits 7:4. */
  function Pidr2ArchRev(revision: nat): (r: nat)
    ensures r < 256 && r % 16 == 0
  {
    (revision % 16) * 16
  }

  /** For 32 to 1024 interrupts in whole lines of 32, the TYPE field plus one counts the lines. */
  lemma TyperCountsLines(numInterrupts: nat)
    requires 32 <= numInterrupts <= 1024 && numInterrupts % 32 == 0
    ensures (TyperItLines(numInterrupts) + 1) * 32 == numInterrupts
  {
  }

  /** The TYPE register reads 3, four lines of 32 interrupts; PID2 reads revision 2 in bits 7:4. */
  lemma RegisterValues()
    ensures TyperItLines(kMaxInterrupts) == 3 && (TyperItLines(kMaxInterrupts) + 1) * 32 == kMaxInterrupts
    ensures Pidr2ArchRev(kGicRevision) == 0x20 && (Pidr2ArchRev(kGicRevision) / 16) % 16 == kGicRevision
  {
    TyperCountsLines(kMaxInterrupts);
  }

  // ---------------------------------------------------------------------
  // Read and Write

  /** The status of an MMIO access and the value a read stores (None when the read stores nothing). */
  datatype IoResult = IoResult(status: Status, value: Option<nat>)

  /**
   * Read: anything but a 4-byte access fails; TYPE and PID2 read their
   * values, an aligned configuration register reads 0, and every other
   * offset is not supported.
   */
  function Read(addr: nat, accessSize: nat): IoResult
  {
    if accessSize != 4 then IoResult(ErrIoDataIntegrity, None)
    else match Classify(addr)
      case Type => IoResult(Ok, Some(TyperItLines(kMaxInterrupts)))
      case Config => if addr % 4 != 0 then IoResult(ErrIoDataIntegrity, None) else IoResult(Ok, Some(0))
      case Pid2 => IoResult(Ok, Some(Pidr2ArchRev(kGicRevision)))
      case _ => IoResult(ErrNotSupported, None)
  }

  /**
   * Write: the control register and aligned enable, pending and
   * configuration registers accept and drop the value; a misaligned one
   * fails; the SGI register decodes the interrupt (returned for the log);
   * every other offset is not supported.
   */
  function Write(addr: nat, value: nat): (Status, Option<SoftwareGeneratedInterrupt>)
    requires IsU32(value)
  {
    match Classify(addr)
    case Ctl => (Ok, None)
    case SetEnable => (if addr % 4 != 0 then ErrIoDataIntegrity else Ok, None)
    case ClearEnable => (if addr % 4 != 0 then ErrIoDataIntegrity else Ok, None)
    case ClearPending => (if addr % 4 != 0 then ErrIoDataIntegrity else Ok, None)
    case Config => (if addr % 4 != 0 then ErrIoDataIntegrity else Ok, None)
    case Sgi => (Ok, Some(DecodeSgi(value)))
    case _ => (ErrNotSupported, None)
  }

  /** The offsets a 4-byte read accepts: TYPE, PID2 and the aligned configuration registers. */
  predicate Readable(addr: nat)
  {
    addr == 0x004 || addr == 0xfe8 || (0xc00 <= addr <= 0xc7c && addr % 4 == 0)
  }

  /** The offsets a write accepts: CTL, SGI and the aligned registers of the four banks. */
  predicate Writable(addr: nat)
  {
    addr == 0x000 || addr == 0xf00 ||
    (addr % 4 == 0 && (0x100 <= addr <= 0x13c || 0x180 <= addr <= 0x1bc || 0x280 <= addr <= 0x2bc || 0xc00 <= addr <= 0xc7c))
  }

  /** The offsets inside a bank. */
  predicate InBank(addr: nat)
  {
    0x100 <= addr <= 0x13c || 0x180 <= addr <= 0x1bc || 0x280 <= addr <= 0x2bc || 0xc00 <= addr <= 0xc7c
  }

  /**
   * A read succeeds, storing a value, iff it is a 4-byte access of a
   * readable offset; it fails with IO_DATA_INTEGRITY iff the size is wrong
   * or a configuration register is misaligned, and with NOT_SUPPORTED
   * otherwise.
   */
  lemma ReadIff(addr: nat, accessSize: nat)
    ensures Read(addr, accessSize).status == Ok <==> accessSize == 4 && Readable(addr)
    ensures Read(addr, accessSize).status == Ok <==> Read(addr, accessSize).value.Some?
    ensures Read(addr, accessSize).status == ErrIoDataIntegrity <==>
      accessSize != 4 || (0xc00 <= addr <= 0xc7c && addr % 4 != 0)
    ensures Read(addr, accessSize).status == ErrNotSupported <==>
      accessSize == 4 && !Readable(addr) && !(0xc00 <= addr <= 0xc7c)
  {
  }

  /** The values reads store: the TYPE lines, 0 for a configuration register, the PID2 revision. */
  lemma ReadValues(addr: nat)
    requires Readable(addr)
    ensures Read(addr, 4).value == Some(if addr == 0x004 then 3 else if addr == 0xfe8 then 0x20 else 0)
  {
    RegisterValues();
  }

  /**
   * A write succeeds iff its offset is writable; it fails with
   * IO_DATA_INTEGRITY iff the offset is a misaligned bank register, with
   * NOT_SUPPORTED otherwise; only the SGI register yields an interrupt.
   */
  lemma WriteIff(addr: nat, value: nat)
    requires IsU32(value)
    ensures Write(addr, value).0 == Ok <==> Writable(addr)
    ensures Write(addr, value).0 == ErrIoDataIntegrity <==> InBank(addr) && addr % 4 != 0
    ensures Write(addr, value).0 == ErrNotSupported <==> !Writable(addr) && !InBank(addr)
    ensures Write(addr, value).1.Some? <==> addr == kSgi
    ensures addr == kSgi ==> Write(addr, value).1 == Some(DecodeSgi(value))
  {
  }
}
