// The codec-side stream of the Intel HDA driver
// (drivers/audio/intel-hda/codecs/utils/stream-base.cpp): the stream format
// encoding of section 3.7.1 of the Intel High Definition Audio
// specification, the assignment of a DMA stream by the controller, and the
// checks of the stream's device ioctl and request channel.
//
// Channels are present or absent; what a channel write, a device add or the
// codec implementation's hooks return is a parameter of the method that makes
// the call.

module HdaStreamBase {
  import opened Base
  import opened Zx

  /** IHDA_INVALID_STREAM_ID, IHDA_INVALID_STREAM_TAG and AUDIO2_INVALID_TRANSACTION_ID. */
  const kInvalidStreamId: nat := 0
  const kInvalidStreamTag: nat := 0
  const kInvalidTransactionId: nat := 0

  /** sizeof(mx_handle_t): the out buffer of the get-channel ioctl holds one handle. */
  const kHandleSize: nat := 4

  datatype SampleFormat =
    | Bits8
    | Bits16
    | Bits20In32
    | Bits24In32
    | Bits32
    | Bits32Float
    | OtherFormat(code: nat)

  /** The format a client asks for (audio2 StreamSetFmtReq). */
  datatype StreamFormat = StreamFormat(framesPerSecond: nat, channels: nat, sampleFormat: SampleFormat)

  /** The BITS field of the format word, or None for a sample format HDA cannot carry. */
  function SampleBits(f: SampleFormat): (r: Option<nat>)
    ensures r.Some? <==> !f.OtherFormat?
    ensures r.Some? ==> r.value <= 4
  {
    match f
    case Bits8 => Some(0)
    case Bits16 => Some(1)
    case Bits20In32 => Some(2)
    case Bits24In32 => Some(3)
    case Bits32 => Some(4)
    case Bits32Float => Some(4)
    case OtherFormat(_) => None
  }

  /** A frame rate as a base rate (0: 48 kHz, 1: 44.1 kHz) times mult divided by div. */
  datatype RateEncoding = RateEncoding(rate: nat, base: nat, mult: nat, div: nat)

  predicate RateFieldsFit(e: RateEncoding)
  {
    e.base <= 1 && 1 <= e.mult <= 8 && 1 <= e.div <= 8
  }

  /** MAKE_RATE: BASE in bit 14, MULT - 1 in bits 13:11, DIV - 1 in bits 10:8 (disjoint, so | is +). */
  function RateBits(e: RateEncoding): nat
    requires RateFieldsFit(e)
  {
    e.base * 0x4000 + (e.mult - 1) * 0x800 + (e.div - 1) * 0x100
  }

  const kRateEncodings: seq<RateEncoding> := [
    // 48 kHz family
    RateEncoding(6000, 0, 1, 8),
    RateEncoding(8000, 0, 1, 6),
    RateEncoding(9600, 0, 1, 5),
    RateEncoding(16000, 0, 1, 3),
    RateEncoding(24000, 0, 1, 2),
    RateEncoding(32000, 0, 2, 3),
    RateEncoding(48000, 0, 1, 1),
    RateEncoding(96000, 0, 2, 1),
    RateEncoding(144000, 0, 3, 1),
    RateEncoding(192000, 0, 4, 1),
    // 44.1 kHz family
    RateEncoding(11025, 1, 1, 4),
    RateEncoding(22050, 1, 1, 2),
    RateEncoding(44100, 1, 1, 1),
    RateEncoding(88200, 1, 2, 1),
    RateEncoding(176400, 1, 4, 1)
  ]

  function BaseRate(base: nat): nat
  {
    if base == 0 then 48000 else 44100
  }

  /** The rate a BASE, MULT and DIV field stand for. */
  function FrameRate(base: nat, mult: nat, div: nat): nat
    requires div >= 1
  {
    BaseRate(base) * mult / div
  }

  /** Every row of the table fits the rate fields and encodes its own rate, base * mult / div, exactly. */
  lemma RateRowIsExact(e: RateEncoding)
    requires e in kRateEncodings
    ensures RateFieldsFit(e) && BaseRate(e.base) * e.mult == e.rate * e.div
    ensures FrameRate(e.base, e.mult, e.div) == e.rate
  {
  }

  /** The first row of the table for a rate. */
  function FindRate(table: seq<RateEncoding>, rate: nat): (r: Option<RateEncoding>)
    ensures r.Some? <==> exists i :: 0 <= i < |table| && table[i].rate == rate
    ensures r.Some? ==> r.value in table && r.value.rate == rate
  {
    if |table| == 0 then None
    else if table[0].rate == rate then Some(table[0])
    else FindRate(table[1..], rate)
  }

  /** The 16-bit format word for a stream format, or None when it is not supported. */
  function StreamFormatWord(fmt: StreamFormat): (r: Option<nat>)
    ensures r.Some? <==>
      && 1 <= fmt.channels <= 16
      && !fmt.sampleFormat.OtherFormat?
      && exists i :: 0 <= i < |kRateEncodings| && kRateEncodings[i].rate == fmt.framesPerSecond
  {
    if fmt.channels < 1 || fmt.channels > 16 then None
    else
      match SampleBits(fmt.sampleFormat)
      case None => None
      case Some(bits) =>
        match FindRate(kRateEncodings, fmt.framesPerSecond)
        case None => None
        case Some(e) =>
          RateRowIsExact(e);
          Some(RateBits(e) + (fmt.channels - 1) + bits * 0x10)
  }

  /** The fields of a format word. */
  datatype FormatFields = FormatFields(channels: nat, bits: nat, rate: nat)

  function DecodeFormatWord(w: nat): FormatFields
  {
    var base := (w / 0x4000) % 2;
    var mult := (w / 0x800) % 8 + 1;
    var div := (w / 0x100) % 8 + 1;
    FormatFields(w % 0x10 + 1, (w / 0x10) % 8, FrameRate(base, mult, div))
  }

  lemma FieldsOfWord(e: RateEncoding, c: nat, b: nat, w: nat)
    requires RateFieldsFit(e) && c < 16 && b < 8 && w == RateBits(e) + c + b * 0x10
    ensures w < TWO_16
    ensures w % 0x10 == c && (w / 0x10) % 8 == b
    ensures (w / 0x100) % 8 + 1 == e.div && (w / 0x800) % 8 + 1 == e.mult && (w / 0x4000) % 2 == e.base
  {
    var m1, d1 := e.mult - 1, e.div - 1;
    assert w == (e.base * 0x80 + m1 * 0x10 + d1 * 2) * 0x80 + b * 0x10 + c;
    assert w / 0x10 == (e.base * 0x80 + m1 * 0x10 + d1 * 2) * 8 + b;
    assert w / 0x100 == (e.base * 8 + m1) * 8 + d1;
    assert w / 0x800 == e.base * 8 + m1;
    assert w / 0x4000 == e.base;
  }

  lemma WordRoundTrip(e: RateEncoding, c: nat, b: nat, w: nat)
    requires RateFieldsFit(e) && c < 16 && b < 8 && w == RateBits(e) + c + b * 0x10
    ensures IsU16(w)
    ensures DecodeFormatWord(w) == FormatFields(c + 1, b, FrameRate(e.base, e.mult, e.div))
  {
    FieldsOfWord(e, c, b, w);
    var d := DecodeFormatWord(w);
    assert d.channels == c + 1;
    assert d.bits == b;
    assert d.rate == FrameRate(e.base, e.mult, e.div);
  }

  /** A supported format encodes into 16 bits, and the word gives back its channels, sample size and rate. */
  lemma FormatWordRoundTrip(fmt: StreamFormat)
    requires StreamFormatWord(fmt).Some?
    ensures IsU16(StreamFormatWord(fmt).value)
    ensures DecodeFormatWord(StreamFormatWord(fmt).value)
         == FormatFields(fmt.channels, SampleBits(fmt.sampleFormat).value, fmt.framesPerSecond)
  {
    var e := SupportedRate(fmt);
    WordRoundTrip(e, fmt.channels - 1, SampleBits(fmt.sampleFormat).value, StreamFormatWord(fmt).value);
  }

  /** The table row behind a supported format's word. */
  lemma SupportedRate(fmt: StreamFormat) returns (e: RateEncoding)
    requires StreamFormatWord(fmt).Some?
    ensures RateFieldsFit(e) && FrameRate(e.base, e.mult, e.div) == fmt.framesPerSecond
    ensures StreamFormatWord(fmt).value == RateBits(e) + (fmt.channels - 1) + SampleBits(fmt.sampleFormat).value * 0x10
  {
    e := FindRate(kRateEncodings, fmt.framesPerSecond).value;
    RateRowIsExact(e);
  }

  /**
   * EncodeStreamFormat: NOT_SUPPORTED for a channel count outside 1..16, a
   * sample format HDA has no BITS code for, or a rate missing from the table.
   */
  method EncodeStreamFormat(fmt: StreamFormat) returns (status: Status, encoded: nat)
    ensures status == Ok || status == ErrNotSupported
    ensures status == Ok <==> StreamFormatWord(fmt).Some?
    ensures status == Ok ==> encoded == StreamFormatWord(fmt).value
  {
    encoded := 0;
    if fmt.channels < 1 || fmt.channels > 16 {
      return ErrNotSupported, encoded;
    }
    var channels := fmt.channels - 1;
    var bits := SampleBits(fmt.sampleFormat);
    if bits.None? {
      return ErrNotSupported, encoded;
    }
    var rate := LookupRate(kRateEncodings, fmt.framesPerSecond);
    if rate.None? {
      return ErrNotSupported, encoded;
    }
    RateRowIsExact(rate.value);
    status, encoded := Ok, RateBits(rate.value) + channels + bits.value * 0x10;
  }

  /** The search of the rate table in EncodeStreamFormat. */
  method LookupRate(table: seq<RateEncoding>, rate: nat) returns (r: Option<RateEncoding>)
    ensures r == FindRate(table, rate)
  {
    var i := 0;
    while i < |table|
      invariant i <= |table|
      invariant FindRate(table, rate) == FindRate(table[i..], rate)
    {
      assert table[i..][1..] == table[i + 1..];
      if table[i].rate == rate {
        return Some(table[i]);
      }
      i := i + 1;
    }
    r := None;
  }

  /** The requests the stream channel understands (audio2 stream commands). */
  datatype StreamCommand = SetFormat | OtherCommand(cmd: nat)

  /** The byte sizes of the audio2 request header and set-format request; audio2-proto.h is not part of this model. */
  datatype RequestSizes = RequestSizes(header: nat, setFormat: nat)

  /** What DoSetStreamFormatLocked sent on the stream channel, if anything, and what it returns. */
  datatype SetFormatOutcome = SetFormatOutcome(status: Status, failureReply: Option<Status>)

  /** Whether SetDMAStreamLocked accepts an id and a tag while `current` is the assigned id. */
  predicate Assignable(streamId: nat, tag: nat, current: nat)
  {
    streamId != kInvalidStreamId && tag != kInvalidStreamTag && current == kInvalidStreamId
  }

  class IntelHdaStreamBase {
    const id: nat
    const isInput: bool
    var dmaStreamId: nat
    var dmaStreamTag: nat
    var setFormatTid: nat
    var encodedFmt: nat
    var shuttingDown: bool
    var codecChannel: bool
    var streamChannel: bool
    var parentDevice: bool

    /** A DMA stream id and tag are assigned together or not at all. */
    predicate Valid()
      reads this
    {
      (dmaStreamId == kInvalidStreamId) == (dmaStreamTag == kInvalidStreamTag)
    }

    constructor (id: nat, isInput: bool)
      ensures Valid() && this.id == id && this.isInput == isInput
      ensures dmaStreamId == kInvalidStreamId && setFormatTid == kInvalidTransactionId
      ensures !shuttingDown && !codecChannel && !streamChannel && !parentDevice
    {
      this.id := id;
      this.isInput := isInput;
      dmaStreamId := kInvalidStreamId;
      dmaStreamTag := kInvalidStreamTag;
      setFormatTid := kInvalidTransactionId;
      encodedFmt := 0;
      shuttingDown := false;
      codecChannel := false;
      streamChannel := false;
      parentDevice := false;
    }

    /**
     * Activate: BAD_STATE once shutting down or already bound to a codec
     * channel; otherwise the channel is kept, and the result is the
     * implementation's activation result or that of the stream request.
     */
    method Activate(onActivate: Status, requestWrite: Status) returns (status: Status)
      modifies `codecChannel
      ensures old(shuttingDown || codecChannel) ==> status == ErrBadState && codecChannel == old(codecChannel)
      ensures !old(shuttingDown || codecChannel) ==>
        codecChannel && status == (if onActivate != Ok then onActivate else requestWrite)
    {
      if shuttingDown || codecChannel {
        return ErrBadState;
      }
      codecChannel := true;
      if onActivate != Ok {
        return onActivate;
      }
      status := requestWrite;
    }

    /**
     * Deactivate: no new connections; the client channel and the codec
     * channel are dropped, the device node is removed, and an assigned DMA
     * stream is handed back (releaseSent) and forgotten.
     */
    method Deactivate() returns (releaseSent: bool)
      requires Valid()
      modifies this
      ensures Valid()
      ensures releaseSent <==> old(dmaStreamId) != kInvalidStreamId && old(codecChannel)
      ensures shuttingDown && !streamChannel && !codecChannel && !parentDevice
      ensures dmaStreamId == (if releaseSent then kInvalidStreamId else old(dmaStreamId))
      ensures dmaStreamTag == (if releaseSent then kInvalidStreamTag else old(dmaStreamTag))
      ensures setFormatTid == old(setFormatTid) && encodedFmt == old(encodedFmt)
    {
      shuttingDown := true;
      streamChannel := false;
      releaseSent := false;
      if dmaStreamId != kInvalidStreamId && codecChannel {
        releaseSent := true;
        dmaStreamId := kInvalidStreamId;
        dmaStreamTag := kInvalidStreamTag;
      }
      codecChannel := false;
      parentDevice := false;
    }

    /** PublishDevice: INVALID_ARGS without a driver and a device, BAD_STATE once shutting down or published. */
    method PublishDevice(haveDriver: bool, haveDevice: bool, add: Status) returns (status: Status)
      modifies `parentDevice
      ensures !(haveDriver && haveDevice) ==> status == ErrInvalidArgs && parentDevice == old(parentDevice)
      ensures haveDriver && haveDevice && (shuttingDown || old(parentDevice)) ==>
        status == ErrBadState && parentDevice == old(parentDevice)
      ensures haveDriver && haveDevice && !shuttingDown && !old(parentDevice) ==>
        status == add && parentDevice == (add == Ok)
    {
      if !haveDriver || !haveDevice {
        return ErrInvalidArgs;
      }
      if shuttingDown || parentDevice {
        return ErrBadState;
      }
      if add != Ok {
        return add;
      }
      parentDevice := true;
      status := Ok;
    }

    /**
     * SetDMAStreamLocked: INVALID_ARGS for the invalid id or tag, BAD_STATE
     * when a DMA stream is already assigned; otherwise both are recorded.
     */
    method SetDmaStream(streamId: nat, tag: nat) returns (status: Status)
      requires Valid()
      modifies `dmaStreamId, `dmaStreamTag
      ensures Valid()
      ensures status == Ok <==> Assignable(streamId, tag, old(dmaStreamId))
      ensures status != Ok ==>
        && status == (if streamId == kInvalidStreamId || tag == kInvalidStreamTag then ErrInvalidArgs else ErrBadState)
        && dmaStreamId == old(dmaStreamId) && dmaStreamTag == old(dmaStreamTag)
      ensures status == Ok ==> dmaStreamId == streamId && dmaStreamTag == tag
    {
      if streamId == kInvalidStreamId || tag == kInvalidStreamTag {
        return ErrInvalidArgs;
      }
      if dmaStreamId != kInvalidStreamId {
        return ErrBadState;
      }
      dmaStreamId := streamId;
      dmaStreamTag := tag;
      status := Ok;
    }

    /** ProcessRequestStream: BAD_STATE once shutting down; otherwise the assignment, then the implementation's hook. */
    method ProcessRequestStream(streamId: nat, tag: nat, onAssigned: Status) returns (status: Status)
      requires Valid()
      modifies `dmaStreamId, `dmaStreamTag
      ensures Valid()
      ensures shuttingDown ==> status == ErrBadState && dmaStreamId == old(dmaStreamId) && dmaStreamTag == old(dmaStreamTag)
      ensures !shuttingDown && Assignable(streamId, tag, old(dmaStreamId)) ==>
        status == onAssigned && dmaStreamId == streamId && dmaStreamTag == tag
      ensures !shuttingDown && !Assignable(streamId, tag, old(dmaStreamId)) ==>
        && status == (if streamId == kInvalidStreamId || tag == kInvalidStreamTag then ErrInvalidArgs else ErrBadState)
        && dmaStreamId == old(dmaStreamId) && dmaStreamTag == old(dmaStreamTag)
    {
      if shuttingDown {
        return ErrBadState;
      }
      status := SetDmaStream(streamId, tag);
      if status != Ok {
        return status;
      }
      status := onAssigned;
    }

    /**
     * ProcessSetStreamFmt: unless shutting down, always returns NO_ERROR and
     * clears the in-flight transaction. A pending format change is finished
     * and answered on the client channel, which is closed if either step
     * fails; with nothing pending or no client channel, nothing is sent.
     */
    method ProcessSetStreamFmt(finish: Status, reply: Status) returns (status: Status, replied: bool)
      modifies `setFormatTid, `streamChannel
      ensures old(shuttingDown) ==> status == ErrBadState && !replied && unchanged(this)
      ensures !old(shuttingDown) ==> (
        var pending := old(setFormatTid) != kInvalidTransactionId && old(streamChannel);
        && status == Ok
        && setFormatTid == kInvalidTransactionId
        && replied == (pending && finish == Ok)
        && streamChannel == (old(streamChannel) && (!pending || (finish == Ok && reply == Ok))))
    {
      replied := false;
      if shuttingDown {
        return ErrBadState, replied;
      }
      var res := Ok;
      if setFormatTid != kInvalidTransactionId && streamChannel {
        res := finish;
        if res == Ok {
          replied := true;
          res := reply;
        }
      }
      if res != Ok && streamChannel {
        streamChannel := false;
      }
      setFormatTid := kInvalidTransactionId;
      status := Ok;
    }

    /** SendCodecCommandLocked: BAD_STATE without a codec channel. */
    method SendCodecCommand(write: Status) returns (status: Status)
      ensures status == if codecChannel then write else ErrBadState
    {
      if !codecChannel {
        return ErrBadState;
      }
      status := write;
    }

    /**
     * DeviceIoctl: only the get-channel ioctl with a one-handle out buffer;
     * BAD_STATE while a client is bound or once shutting down; NO_MEMORY when
     * no channel can be channelAllocated; the client is bound when activation succeeds.
     */
    method DeviceIoctl(getChannel: bool, haveOutBuffer: bool, outLen: nat, channelAllocated: bool, activate: Status)
      returns (status: Status)
      modifies `streamChannel
      ensures !(getChannel && haveOutBuffer && outLen == kHandleSize) ==>
        status == ErrInvalidArgs && streamChannel == old(streamChannel)
      ensures getChannel && haveOutBuffer && outLen == kHandleSize ==>
        if old(streamChannel) || shuttingDown then status == ErrBadState && streamChannel == old(streamChannel)
        else if !channelAllocated then status == ErrNoMemory && !streamChannel
        else status == activate && streamChannel == (activate == Ok)
    {
      if !getChannel || !haveOutBuffer || outLen != kHandleSize {
        return ErrInvalidArgs;
      }
      if streamChannel {
        return ErrBadState;
      }
      if shuttingDown {
        return ErrBadState;
      }
      if !channelAllocated {
        return ErrNoMemory;
      }
      if activate == Ok {
        streamChannel := true;
      }
      status := activate;
    }

    /**
     * DoSetStreamFormatLocked: a request without an assigned DMA stream or
     * while a change is in flight fails with BAD_STATE, an unencodable format
     * with NOT_SUPPORTED, and one the implementation refuses with its
     * status; each failure is answered on the client channel and the answer's
     * write result is returned. Otherwise the codec request is written and,
     * if that succeeds, the transaction is in flight with the encoded format.
     */
    method DoSetStreamFormat(fmt: StreamFormat, tid: nat, begin: Status, codecWrite: Status, replyWrite: Status)
      returns (outcome: SetFormatOutcome)
      modifies `setFormatTid, `encodedFmt
      ensures var word := StreamFormatWord(fmt);
        if old(dmaStreamId) == kInvalidStreamId || old(setFormatTid) != kInvalidTransactionId then
          outcome == SetFormatOutcome(replyWrite, Some(ErrBadState)) && unchanged(this)
        else if word.None? then
          outcome == SetFormatOutcome(replyWrite, Some(ErrNotSupported)) && unchanged(this)
        else if begin != Ok then
          outcome == SetFormatOutcome(replyWrite, Some(begin)) && unchanged(this)
        else if codecWrite != Ok then
          outcome == SetFormatOutcome(codecWrite, None) && unchanged(this)
        else
          outcome == SetFormatOutcome(Ok, None) && setFormatTid == tid && encodedFmt == word.value
      ensures outcome.failureReply.Some? <==> old(SetFormatRefused(fmt, begin))
    {
      var res: Status;
      if dmaStreamId == kInvalidStreamId || setFormatTid != kInvalidTransactionId {
        return SetFormatOutcome(replyWrite, Some(ErrBadState));
      }
      var encoded;
      res, encoded := EncodeStreamFormat(fmt);
      if res != Ok {
        return SetFormatOutcome(replyWrite, Some(res));
      }
      if begin != Ok {
        return SetFormatOutcome(replyWrite, Some(begin));
      }
      if codecWrite != Ok {
        return SetFormatOutcome(codecWrite, None);
      }
      setFormatTid := tid;
      encodedFmt := encoded;
      outcome := SetFormatOutcome(Ok, None);
    }

    /**
     * ProcessChannel: NO_ERROR when the client channel is already closed;
     * BAD_STATE when shutting down or without a codec channel; INVALID_ARGS
     * for a request shorter than the header, with the invalid transaction
     * id, or a set-format request of the wrong size; NOT_SUPPORTED for any
     * other command. A set-format request of the right size is handed to
     * DoSetStreamFormatLocked, whose result is returned: the answer's write
     * result when the request is refused, otherwise the codec write's, and
     * only a successful codec write puts the change in flight.
     */
    method ProcessChannel(sizes: RequestSizes, read: Status, reqSize: nat, tid: nat, cmd: StreamCommand,
                          fmt: StreamFormat, begin: Status, codecWrite: Status, replyWrite: Status)
      returns (status: Status)
      modifies `setFormatTid, `encodedFmt
      ensures !streamChannel ==> status == Ok
      ensures streamChannel && (shuttingDown || !codecChannel) ==> status == ErrBadState
      ensures Connected() && read != Ok ==> status == read
      ensures Connected() && read == Ok && (reqSize < sizes.header || tid == kInvalidTransactionId) ==>
        status == ErrInvalidArgs
      ensures Connected() && read == Ok && reqSize >= sizes.header && tid != kInvalidTransactionId ==>
        && (cmd.OtherCommand? ==> status == ErrNotSupported)
        && (cmd == SetFormat && reqSize != sizes.setFormat ==> status == ErrInvalidArgs)
      ensures !Handled(sizes, read, reqSize, tid, cmd) ==> unchanged(this)
      ensures Handled(sizes, read, reqSize, tid, cmd) ==>
        if old(SetFormatRefused(fmt, begin)) then status == replyWrite && unchanged(this)
        else if codecWrite != Ok then status == codecWrite && unchanged(this)
        else status == Ok && setFormatTid == tid && encodedFmt == StreamFormatWord(fmt).value
    {
      if !streamChannel {
        return Ok;
      }
      if shuttingDown || !codecChannel {
        return ErrBadState;
      }
      if read != Ok {
        return read;
      }
      if reqSize < sizes.header || tid == kInvalidTransactionId {
        return ErrInvalidArgs;
      }
      match cmd
      case SetFormat =>
        if reqSize != sizes.setFormat {
          return ErrInvalidArgs;
        }
        var outcome := DoSetStreamFormat(fmt, tid, begin, codecWrite, replyWrite);
        status := outcome.status;
      case OtherCommand(_) =>
        status := ErrNotSupported;
    }

    /** A client is bound, the codec channel is up, and the stream is not shutting down. */
    predicate Connected()
      reads this
    {
      streamChannel && !shuttingDown && codecChannel
    }

    /**
     * Whether DoSetStreamFormatLocked refuses a format before writing to the
     * codec: no DMA stream, a change already in flight, a format that cannot
     * be encoded, or the implementation's refusal.
     */
    predicate SetFormatRefused(fmt: StreamFormat, begin: Status)
      reads this
    {
      || dmaStreamId == kInvalidStreamId || setFormatTid != kInvalidTransactionId
      || StreamFormatWord(fmt).None? || begin != Ok
    }

    /** Whether ProcessChannel gets as far as DoSetStreamFormatLocked. */
    predicate Handled(sizes: RequestSizes, read: Status, reqSize: nat, tid: nat, cmd: StreamCommand)
      reads this
    {
      && Connected() && read == Ok && tid != kInvalidTransactionId && cmd == SetFormat
      && reqSize >= sizes.header && reqSize == sizes.setFormat
    }

    /** NotifyChannelDeactivated: only the stream's own client channel is forgotten. */
    method NotifyChannelDeactivated(ours: bool)
      modifies `streamChannel
      ensures streamChannel == (old(streamChannel) && !ours)
    {
      if ours {
        streamChannel := false;
      }
    }
  }
}
