// The data-path helpers of the Ralink (MediaTek) USB WLAN driver
// (drivers/wlan/mediatek/ralink/device.cpp): tx power extraction from the
// EEPROM, EEPROM word and byte reads, tx power compensation, the rate of a
// received frame, the cipher suite mapping, key writes, the length math and
// request bookkeeping of a queued tx packet, and the busy-wait register poll.

module RalinkDevice {
  import opened Base
  import opened Zx

  const kMaxBusyReads: nat := 20
  const kWriteBufSize: nat := 4096
  /** `sizeof(TxInfo)` and the terminal zero padding of a USB tx request, in bytes. */
  const kTxInfoLen: nat := 4
  const kTerminalPadLen: nat := 4

  /**
   * Constants that ralink.h defines; ralink.h is not part of this model, so
   * they are parameters: the tx power bounds of the 5 GHz (A) and 2.4 GHz
   * (BG) bands, the CCK mcs codes of the long 11 Mbps and short 1 and
   * 11 Mbps preambles, the HT duplicate mcs, and the key length of kNone.
   */
  datatype HeaderConsts = HeaderConsts(
    minTxPowerA: int, maxTxPowerA: int, minTxPowerBG: int, maxTxPowerBG: int,
    longPreamble11Mbps: nat, shortPreamble1Mbps: nat, shortPreamble11Mbps: nat,
    htDuplicateMcs: nat, noProtectionKeyLen: nat)

  // ---------------------------------------------------------------------
  // Tx power

  /** The EEPROM byte a tx power entry is in: the high byte of the word at an odd byte offset. */
  function PowerByte(byteOffset: int, word: nat): (b: byte)
    requires IsU16(word)
  {
    if byteOffset % 2 != 0 then word / 256 else word % 256
  }

  /**
   * extract_tx_power: the signed power in the selected byte, clamped to
   * the band's bounds (which the clamp demands be ordered).
   */
  function ExtractTxPower(c: HeaderConsts, byteOffset: int, is5Ghz: bool, word: nat): (r: int)
    requires IsU16(word)
    requires is5Ghz ==> c.minTxPowerA <= c.maxTxPowerA
    requires !is5Ghz ==> c.minTxPowerBG <= c.maxTxPowerBG
    ensures var lo := if is5Ghz then c.minTxPowerA else c.minTxPowerBG;
      var hi := if is5Ghz then c.maxTxPowerA else c.maxTxPowerBG;
      var p := AsInt8(PowerByte(byteOffset, word));
      && lo <= r <= hi
      && (lo <= p <= hi ==> r == p)
      && (p < lo ==> r == lo)
      && (p > hi ==> r == hi)
  {
    var power := AsInt8(PowerByte(byteOffset, word));
    var lo := if is5Ghz then c.minTxPowerA else c.minTxPowerBG;
    var hi := if is5Ghz then c.maxTxPowerA else c.maxTxPowerBG;
    if power < lo then lo else if hi < power then hi else power
  }

  /** The two entries of an EEPROM word: an even offset reads the low byte, an odd one the high byte. */
  lemma TxPowerOfWordBytes(c: HeaderConsts, byteOffset: int, is5Ghz: bool, low: byte, high: byte)
    requires is5Ghz ==> c.minTxPowerA <= c.maxTxPowerA
    requires !is5Ghz ==> c.minTxPowerBG <= c.maxTxPowerBG
    ensures var w := high * 256 + low;
      IsU16(w) &&
      ExtractTxPower(c, byteOffset, is5Ghz, w) ==
        ExtractTxPower(c, byteOffset, is5Ghz, if byteOffset % 2 != 0 then high * 256 else low)
  {
    var w := high * 256 + low;
    assert w / 256 == high && w % 256 == low;
    assert (high * 256) / 256 == high;
  }

  // ---------------------------------------------------------------------
  // Tx power compensation

  /** CompensateTx: each nibble of the power byte capped at 0x0c. */
  function CompensateTx(power: byte): (r: byte)
    ensures r / 16 == Min(power / 16, 0x0c)
    ensures r % 16 == Min(power % 16, 0x0c)
  {
    Min(power / 16, 0x0c) * 16 + Min(power % 16, 0x0c)
  }

  /** Compensating twice is compensating once; a byte is left alone iff neither nibble exceeds 0x0c. */
  lemma CompensateTxIdempotent(power: byte)
    ensures CompensateTx(CompensateTx(power)) == CompensateTx(power)
    ensures CompensateTx(power) == power <==> power / 16 <= 0x0c && power % 16 <= 0x0c
    ensures CompensateTx(power) <= 0xcc
  {
    var r := CompensateTx(power);
    assert r == r / 16 * 16 + r % 16;
    assert power == power / 16 * 16 + power % 16;
  }

  // ---------------------------------------------------------------------
  // Rate of a received frame

  /** The phy modes, numbered as the rows of kDataRates. */
  const kLegacyCck: nat := 0
  const kLegacyOfdm: nat := 1
  const kHtMixMode: nat := 2
  const kHtGreenfield: nat := 3

  /** kDataRates: the rate in units of 500 kbit/s per phy mode and table index. */
  const kDataRates: seq<seq<nat>> := [
    [2, 4, 11, 22, 0, 0, 0, 0],
    [12, 18, 24, 36, 48, 72, 96, 108],
    [13, 26, 39, 52, 78, 104, 117, 130],
    [13, 26, 39, 52, 78, 104, 117, 130]]

  /** The table index ralink_mcs_to_rate looks up, or None when it gives up and answers 0. */
  function RateIndex(c: HeaderConsts, phy: byte, mcs: byte): (r: Option<nat>)
    ensures r.Some? ==> phy < 4 && r.value < 8
    ensures phy >= 4 ==> r.None?
  {
    if phy >= 4 then None
    else
      var idx: int :=
        if phy == kLegacyCck then
          (if mcs <= c.longPreamble11Mbps then mcs
           else if c.shortPreamble1Mbps <= mcs <= c.shortPreamble11Mbps then mcs - c.shortPreamble1Mbps
           else -1)
        else if phy == kLegacyOfdm then mcs
        else if mcs == c.htDuplicateMcs then 0
        else mcs;
      if 0 <= idx < 8 then Some(idx) else None
  }

  /** The table rate scaled by 108/52 subcarriers at 40 MHz, in unbounded arithmetic. */
  function Rate40(rate: nat, is40Mhz: bool): nat
  {
    if is40Mhz then rate * 108 / 52 else rate
  }

  /** The rate scaled by 10/9 for a short guard interval, in unbounded arithmetic. */
  function RateSgi(rate: nat, isSgi: bool): nat
  {
    if isSgi then rate * 10 / 9 else rate
  }

  /**
   * ralink_mcs_to_rate as written: the 40 MHz product is stored back into
   * a `uint8_t` and so is the short guard interval one, each reduced
   * modulo 256.
   */
  function McsToRateAsWritten(c: HeaderConsts, phy: byte, mcs: byte, is40Mhz: bool, isSgi: bool): (r: byte)
    ensures RateIndex(c, phy, mcs).None? ==> r == 0
  {
    match RateIndex(c, phy, mcs)
    case None => 0
    case Some(i) =>
      var rate := Rate40(kDataRates[phy][i], is40Mhz) % 256;
      RateSgi(rate, isSgi) % 256
  }

  /** ralink_mcs_to_rate with the scaled rate kept whole: 0 for an invalid phy or index. */
  function McsToRate(c: HeaderConsts, phy: byte, mcs: byte, is40Mhz: bool, isSgi: bool): (r: nat)
    ensures RateIndex(c, phy, mcs).None? ==> r == 0
    ensures r <= 300
  {
    match RateIndex(c, phy, mcs)
    case None => 0
    case Some(i) =>
      var base := kDataRates[phy][i];
      assert base <= 130;
      var r40 := Rate40(base, is40Mhz);
      assert r40 <= 270;
      RateSgi(r40, isSgi)
  }

  /** A wider channel or a short guard interval never lowers the rate. */
  lemma McsToRateMonotone(c: HeaderConsts, phy: byte, mcs: byte, is40Mhz: bool, isSgi: bool)
    ensures McsToRate(c, phy, mcs, false, isSgi) <= McsToRate(c, phy, mcs, true, isSgi)
    ensures McsToRate(c, phy, mcs, is40Mhz, false) <= McsToRate(c, phy, mcs, is40Mhz, true)
  {
  }

  /** Where the whole rate fits a byte, the code as written computes it. */
  lemma McsToRateAgrees(c: HeaderConsts, phy: byte, mcs: byte, is40Mhz: bool, isSgi: bool)
    requires McsToRate(c, phy, mcs, is40Mhz, isSgi) < 256
    ensures McsToRateAsWritten(c, phy, mcs, is40Mhz, isSgi) == McsToRate(c, phy, mcs, is40Mhz, isSgi)
  {
    match RateIndex(c, phy, mcs)
    case None =>
    case Some(i) =>
      ScaledRateFits(kDataRates[phy][i], is40Mhz, isSgi);
  }

  /** Scaling never lowers a rate, so a final rate under 256 had no intermediate at or above it. */
  lemma ScaledRateFits(base: nat, is40Mhz: bool, isSgi: bool)
    requires RateSgi(Rate40(base, is40Mhz), isSgi) < 256
    ensures RateSgi(Rate40(base, is40Mhz) % 256, isSgi) % 256 == RateSgi(Rate40(base, is40Mhz), isSgi)
  {
    var r40 := Rate40(base, is40Mhz);
    assert r40 <= RateSgi(r40, isSgi);
  }

  /** HT mcs 7 at 40 MHz: 130 * 108 / 52 = 270 Mbit/2, which the byte holds as 14. */
  lemma McsToRateOverflows(c: HeaderConsts)
    requires c.htDuplicateMcs != 7
    ensures McsToRate(c, kHtMixMode, 7, true, false) == 270
    ensures McsToRateAsWritten(c, kHtMixMode, 7, true, false) == 14
  {
    assert RateIndex(c, kHtMixMode, 7) == Some(7);
  }

  // ---------------------------------------------------------------------
  // Cipher suites and keys

  /** The vendor key modes; the modes this driver never writes are OtherMode (ralink.h is not part of this model). */
  datatype KeyMode = NoProtection | Tkip | Aes | Unsupported | OtherMode(code: nat)

  /** The standard cipher suite OUI 00-0F-AC and its TKIP and CCMP-128 suite types, IEEE Std 802.11-2016 Table 9-131. */
  const kStandardOui: seq<byte> := [0x00, 0x0F, 0xAC]
  const kCipherTkip: byte := 2
  const kCipherCcmp128: byte := 4
  const kTkipKeyLenBytes: nat := 32
  const kCcmp128KeyLenBytes: nat := 16

  /** MapIeeeCipherSuiteToKeyMode: TKIP and CCMP-128 of the standard OUI map to their key modes, anything else is unsupported. */
  function MapCipherSuiteToKeyMode(oui: seq<byte>, cipherType: byte): (r: KeyMode)
    requires |oui| == 3
    ensures r == Tkip <==> oui == kStandardOui && cipherType == kCipherTkip
    ensures r == Aes <==> oui == kStandardOui && cipherType == kCipherCcmp128
    ensures r != Tkip && r != Aes ==> r == Unsupported
  {
    if oui != kStandardOui then Unsupported
    else if cipherType == kCipherTkip then Tkip
    else if cipherType == kCipherCcmp128 then Aes
    else Unsupported
  }

  /** The key length a mode demands, for the modes WriteKey accepts. */
  function KeyLength(c: HeaderConsts, mode: KeyMode): nat
  {
    match mode
    case NoProtection => c.noProtectionKeyLen
    case Tkip => kTkipKeyLenBytes
    case Aes => kCcmp128KeyLenBytes
    case _ => 0
  }

  /** The outcome of WriteKey and the key bytes of the entry it sends, if it sends one. */
  datatype KeyWrite = KeyWrite(status: Status, sent: Option<seq<byte>>)

  /**
   * WriteKey: a key of exactly the mode's length (a null key for kNone),
   * copied into a key entry that goes to the device; `usbStatus` and
   * `outLen` are what the USB control transfer reports, `entrySize` is
   * `sizeof(KeyEntry)`. A non-null key has `keyLen` bytes.
   */
  function WriteKey(c: HeaderConsts, key: Option<seq<byte>>, keyLen: nat, mode: KeyMode,
                    usbStatus: Status, outLen: nat, entrySize: nat): (r: KeyWrite)
    requires key.Some? ==> |key.value| == keyLen
    requires (mode == Tkip || mode == Aes) && keyLen == KeyLength(c, mode) ==> key.Some?
    ensures r.status == ErrNotSupported <==> !(mode == NoProtection || mode == Tkip || mode == Aes)
    ensures r.status == ErrInvalidArgs <==>
      (mode == NoProtection || mode == Tkip || mode == Aes) &&
      (keyLen != KeyLength(c, mode) || (mode == NoProtection && key.Some?))
    ensures r.sent.Some? <==> r.status == Ok || r.status == ErrIo
    ensures r.status == ErrIo <==> r.sent.Some? && (usbStatus != Ok || outLen < entrySize)
    ensures r.sent.Some? ==> r.sent.value == (if mode == NoProtection then [] else key.value)
  {
    match mode
    case NoProtection =>
      if keyLen != c.noProtectionKeyLen || key.Some? then KeyWrite(ErrInvalidArgs, None)
      else Send([], usbStatus, outLen, entrySize)
    case Tkip =>
      if keyLen != kTkipKeyLenBytes then KeyWrite(ErrInvalidArgs, None)
      else Send(key.value, usbStatus, outLen, entrySize)
    case Aes =>
      if keyLen != kCcmp128KeyLenBytes then KeyWrite(ErrInvalidArgs, None)
      else Send(key.value, usbStatus, outLen, entrySize)
    case _ => KeyWrite(ErrNotSupported, None)
  }

  /** The USB control write of a key entry: IO when it fails or writes short. */
  function Send(key: seq<byte>, usbStatus: Status, outLen: nat, entrySize: nat): KeyWrite
  {
    KeyWrite(if usbStatus != Ok || outLen < entrySize then ErrIo else Ok, Some(key))
  }

  // ---------------------------------------------------------------------
  // Tx packets

  /** The tail buffer of a tx packet and the offset its payload starts at. */
  datatype TailBuf = TailBuf(data: seq<byte>, offset: nat)

  /** The USB request a queued tx packet becomes: its id, its length, the TxInfo length field and its payload. */
  datatype TxRequest = TxRequest(req: nat, length: nat, txPktLength: nat, payload: seq<byte>)

  /** The frame length of a tx packet: the head, plus the tail past its offset; None when the offset is past the tail. */
  function FrameLength(head: seq<byte>, tail: Option<TailBuf>): (r: Option<nat>)
    ensures r.None? <==> tail.Some? && |tail.value.data| < tail.value.offset
  {
    match tail
    case None => Some(|head|)
    case Some(t) => if |t.data| < t.offset then None else Some(|head| + |t.data| - t.offset)
  }

  /** `((len + 3) & ~3) - len`: clearing the two low bits of len + 3 rounds it down to a multiple of 4. */
  function AlignPad(len: nat): (pad: nat)
    ensures pad < 4 && (len + pad) % 4 == 0
  {
    (len + 3) - (len + 3) % 4 - len
  }

  function TxwiLength(rt5592: bool): nat
  {
    if rt5592 then 20 else 16
  }

  function RequestLength(len: nat, rt5592: bool): nat
  {
    kTxInfoLen + TxwiLength(rt5592) + len + AlignPad(len) + kTerminalPadLen
  }

  /** A request is TxInfo, the TXWI fields and the padded payload, a whole number of 4-byte words. */
  lemma RequestLengthAligned(len: nat, rt5592: bool)
    ensures RequestLength(len, rt5592) % 4 == 0
    ensures RequestLength(len, rt5592) >= len + 24
  {
  }

  /** WritePayload and the zero padding: the head, the tail past its offset, then align and terminal zeros. */
  function Payload(head: seq<byte>, tail: Option<TailBuf>): (p: seq<byte>)
    requires FrameLength(head, tail).Some?
    ensures var len := FrameLength(head, tail).value;
      && |p| == len + AlignPad(len) + kTerminalPadLen && p[..|head|] == head
      && (tail.Some? ==> p[|head|..len] == tail.value.data[tail.value.offset..])
      && (forall i :: len <= i < |p| ==> p[i] == 0)
  {
    var body := match tail
      case None => head
      case Some(t) => head + t.data[t.offset..];
    var len := FrameLength(head, tail).value;
    body + seq(AlignPad(len) + kTerminalPadLen, _ => 0)
  }

  // ---------------------------------------------------------------------
  // Busy wait

  /** One register read of BusyWait: its status and whether the awaited predicate holds afterwards. */
  datatype RegRead = RegRead(status: Status, ready: bool)

  /**
   * BusyWait: reads the register until the predicate holds, at most
   * kMaxBusyReads times; a failed read ends the wait with its status, and
   * kMaxBusyReads reads without the predicate end it with TIMED_OUT.
   * `read(i)` is the outcome of the i-th read; `n` is the number of reads.
   */
  method BusyWait(read: nat -> RegRead) returns (status: Status, n: nat)
    ensures 1 <= n <= kMaxBusyReads
    ensures forall i :: 0 <= i < n - 1 ==> read(i) == RegRead(Ok, false)
    ensures status == Ok <==> read(n - 1) == RegRead(Ok, true)
    ensures status != Ok && read(n - 1).status != Ok ==> status == read(n - 1).status
    ensures read(n - 1) == RegRead(Ok, false) ==> n == kMaxBusyReads && status == ErrTimedOut
  {
    var busy := 0;
    while busy < kMaxBusyReads
      invariant 0 <= busy <= kMaxBusyReads
      invariant forall i :: 0 <= i < busy ==> read(i) == RegRead(Ok, false)
    {
      var r := read(busy);
      if r.status != Ok {
        return r.status, busy + 1;
      }
      if r.ready {
        return Ok, busy + 1;
      }
      busy := busy + 1;
    }
    return ErrTimedOut, kMaxBusyReads;
  }

  // ---------------------------------------------------------------------
  // The device

  /** The outcome of an EEPROM read: a failure status or the value read. */
  datatype EepromRead = Failed(status: Status) | Read(value: nat)

  class Device {
    /** eeprom_: the EEPROM contents as 16-bit words, already in host order. */
    var eeprom: seq<nat>
    /** free_write_reqs_: the ids of the USB write requests not in flight. */
    var freeWriteReqs: seq<nat>
    /** The requests handed to the USB stack, in order. */
    var queued: seq<TxRequest>
    /** Whether the chip is an RT5592, whose TXWI is 20 bytes instead of 16. */
    const rt5592: bool

    predicate Valid()
      reads this
    {
      forall i :: 0 <= i < |eeprom| ==> IsU16(eeprom[i])
    }

    constructor(eeprom: seq<nat>, writeReqs: seq<nat>, rt5592: bool)
      requires forall i :: 0 <= i < |eeprom| ==> IsU16(eeprom[i])
      ensures Valid()
      ensures this.eeprom == eeprom && freeWriteReqs == writeReqs && queued == [] && this.rt5592 == rt5592
    {
      this.eeprom := eeprom;
      this.freeWriteReqs := writeReqs;
      this.queued := [];
      this.rt5592 := rt5592;
    }

    /** ReadEepromField: the word at a word address, INVALID_ARGS past the end. */
    function ReadEepromField(addr: nat): (r: EepromRead)
      requires Valid() && IsU16(addr)
      reads this
      ensures r.Read? <==> addr < |eeprom|
      ensures r.Failed? ==> r.status == ErrInvalidArgs
      ensures r.Read? ==> IsU16(r.value)
    {
      if addr >= |eeprom| then Failed(ErrInvalidArgs) else Read(eeprom[addr])
    }

    /** ReadEepromByte: the high byte of word addr / 2 for an odd address, its low byte for an even one. */
    function ReadEepromByte(addr: nat): (r: EepromRead)
      requires Valid() && IsU16(addr)
      reads this
      ensures r.Read? <==> addr / 2 < |eeprom|
      ensures r.Failed? ==> r.status == ErrInvalidArgs
      ensures r.Read? ==> r.value < 256
    {
      match ReadEepromField(addr / 2)
      case Failed(s) => Failed(s)
      case Read(w) => if addr % 2 == 1 then Read(w / 256 % 256) else Read(w % 256)
    }

    /** The two byte addresses of a word read back the word, low byte first. */
    lemma EepromBytesComposeWord(k: nat)
      requires Valid() && k < |eeprom| && 2 * k + 1 < TWO_16
      ensures ReadEepromByte(2 * k).Read? && ReadEepromByte(2 * k + 1).Read?
      ensures ReadEepromByte(2 * k).value + 256 * ReadEepromByte(2 * k + 1).value == eeprom[k]
    {
      assert (2 * k) / 2 == k && (2 * k + 1) / 2 == k;
      assert (2 * k + 1) % 2 == 1 && (2 * k) % 2 == 0;
      var w := eeprom[k];
      assert w / 256 < 256;
    }

    /**
     * WlanmacQueueTx: INVALID_ARGS when the tail offset is past the tail,
     * BUFFER_TOO_SMALL when the padded request exceeds kWriteBufSize, IO
     * when no write request is free, the status of a failed map (the
     * request going back to the free list); otherwise the last free
     * request is taken and queued with the padded payload.
     */
    method QueueTx(head: seq<byte>, tail: Option<TailBuf>, mapStatus: Status) returns (status: Status)
      modifies this
      ensures eeprom == old(eeprom)
      ensures FrameLength(head, tail).None? ==> status == ErrInvalidArgs
      ensures FrameLength(head, tail).Some? && RequestLength(FrameLength(head, tail).value, rt5592) > kWriteBufSize ==>
        status == ErrBufferTooSmall
      ensures FrameLength(head, tail).Some? && RequestLength(FrameLength(head, tail).value, rt5592) <= kWriteBufSize ==>
        && (|old(freeWriteReqs)| == 0 ==> status == ErrIo)
        && (|old(freeWriteReqs)| > 0 && mapStatus != Ok ==> status == mapStatus)
      ensures status != Ok ==> freeWriteReqs == old(freeWriteReqs) && queued == old(queued)
      ensures status == Ok <==>
        FrameLength(head, tail).Some? && RequestLength(FrameLength(head, tail).value, rt5592) <= kWriteBufSize &&
        |old(freeWriteReqs)| > 0 && mapStatus == Ok
      ensures status == Ok ==>
        var len := FrameLength(head, tail).value;
        && freeWriteReqs == old(freeWriteReqs)[..|old(freeWriteReqs)| - 1]
        && queued == old(queued) + [TxRequest(old(freeWriteReqs)[|old(freeWriteReqs)| - 1],
                                              RequestLength(len, rt5592),
                                              TxwiLength(rt5592) + len + AlignPad(len),
                                              Payload(head, tail))]
    {
      var frame := FrameLength(head, tail);
      if frame.None? {
        return ErrInvalidArgs;
      }
      var len := frame.value;
      var reqLen := RequestLength(len, rt5592);
      if reqLen > kWriteBufSize {
        return ErrBufferTooSmall;
      }
      if |freeWriteReqs| == 0 {
        return ErrIo;
      }
      var req := freeWriteReqs[|freeWriteReqs| - 1];
      freeWriteReqs := freeWriteReqs[..|freeWriteReqs| - 1];
      if mapStatus != Ok {
        freeWriteReqs := freeWriteReqs + [req];
        return mapStatus;
      }
      queued := queued + [TxRequest(req, reqLen, TxwiLength(rt5592) + len + AlignPad(len), Payload(head, tail))];
      status := Ok;
    }
  }
}
