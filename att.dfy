// Protocol constants of the Attribute Protocol (Bluetooth Core Specification
// v5.0, Vol 3, Part F) as the Bluetooth library's `att.h` names them; that
// header and `common/uuid.cc` are not part of this model, so the values are
// taken from the specification sections cited beside them.

module Att {
  import opened Base

  /** Attribute handles are 16-bit; 0 is never a valid handle (section 3.2.2). */
  const kInvalidHandle: int := 0x0000
  const kHandleMin: int := 0x0001
  const kHandleMax: int := 0xFFFF

  /** The default and minimum ATT_MTU over LE (section 3.2.8). */
  const kLEMinMTU: int := 23

  /** The minimum ATT_MTU over BR/EDR (Vol 3, Part G, section 5.2.1). */
  const kBREDRMinMTU: int := 48

  /** The longest attribute value (section 3.2.9). */
  const kMaxAttributeValueLength: int := 512

  /**
   * The entry length of a Read By Type / Read By Group Type response is one
   * octet (sections 3.4.4.2 and 3.4.4.10), so a value fits in 255 minus the
   * handle fields of its entry.
   */
  const kMaxReadByTypeValueLength: int := 253
  const kMaxReadByGroupTypeValueLength: int := 251

  /** Attribute opcodes (section 3.4.8). */
  const kInvalidOpCode: int := 0x00
  const kErrorResponse: int := 0x01
  const kExchangeMTURequest: int := 0x02
  const kExchangeMTUResponse: int := 0x03
  const kFindInformationRequest: int := 0x04
  const kFindInformationResponse: int := 0x05
  const kFindByTypeValueRequest: int := 0x06
  const kFindByTypeValueResponse: int := 0x07
  const kReadByTypeRequest: int := 0x08
  const kReadByTypeResponse: int := 0x09
  const kReadRequest: int := 0x0A
  const kReadResponse: int := 0x0B
  const kReadBlobRequest: int := 0x0C
  const kReadBlobResponse: int := 0x0D
  const kReadMultipleRequest: int := 0x0E
  const kReadMultipleResponse: int := 0x0F
  const kReadByGroupTypeRequest: int := 0x10
  const kReadByGroupTypeResponse: int := 0x11
  const kWriteRequest: int := 0x12
  const kWriteResponse: int := 0x13
  const kPrepareWriteRequest: int := 0x16
  const kPrepareWriteResponse: int := 0x17
  const kExecuteWriteRequest: int := 0x18
  const kExecuteWriteResponse: int := 0x19
  const kNotification: int := 0x1B
  const kIndication: int := 0x1D
  const kConfirmation: int := 0x1E
  const kWriteCommand: int := 0x52
  const kSignedWriteCommand: int := 0xD2

  /** Bit 6 of an opcode marks a command (section 3.3.1). */
  const kCommandFlag: int := 0x40

  /** Error codes (section 3.4.1.1, table 3.3); 0 is the library's "no error". */
  datatype ErrorCode =
    | NoError
    | InvalidHandle
    | ReadNotPermitted
    | WriteNotPermitted
    | InvalidPDU
    | InsufficientAuthentication
    | RequestNotSupported
    | InvalidOffset
    | InsufficientAuthorization
    | PrepareQueueFull
    | AttributeNotFound
    | AttributeNotLong
    | InsufficientEncryptionKeySize
    | InvalidAttributeValueLength
    | UnlikelyError
    | InsufficientEncryption
    | UnsupportedGroupType
    | InsufficientResources

  function ErrorCodeValue(e: ErrorCode): (v: int)
    ensures IsU8(v)
    ensures v == 0 <==> e == NoError
  {
    match e
    case NoError => 0x00
    case InvalidHandle => 0x01
    case ReadNotPermitted => 0x02
    case WriteNotPermitted => 0x03
    case InvalidPDU => 0x04
    case InsufficientAuthentication => 0x05
    case RequestNotSupported => 0x06
    case InvalidOffset => 0x07
    case InsufficientAuthorization => 0x08
    case PrepareQueueFull => 0x09
    case AttributeNotFound => 0x0A
    case AttributeNotLong => 0x0B
    case InsufficientEncryptionKeySize => 0x0C
    case InvalidAttributeValueLength => 0x0D
    case UnlikelyError => 0x0E
    case InsufficientEncryption => 0x0F
    case UnsupportedGroupType => 0x10
    case InsufficientResources => 0x11
  }

  /**
   * A UUID: a 16-bit one, or any other in its 128-bit form (16 octets, least
   * significant first). 32-bit UUIDs are kept in their 128-bit form. A
   * 128-bit form that lies in the 16-bit range of the Base UUID is never
   * Long, so each UUID has exactly one representation.
   */
  datatype Uuid = Short(id: int) | Long(octets: seq<byte>)
  {
    predicate Valid()
    {
      if Short? then IsU16(id)
      else |octets| == 16 && !(octets[..12] == kBaseUuidLow && octets[14] == 0 && octets[15] == 0)
    }

    /** The UUID's full 16-octet form, least significant octet first. */
    function Full(): (b: seq<byte>)
      requires Valid()
      ensures |b| == 16
    {
      if Short? then kBaseUuidLow + Le16(id) + [0, 0] else octets
    }

    /** A 128-bit UUID of the Base UUID range: a 32-bit UUID in its long form. */
    predicate Is32Bit() { Long? && |octets| == 16 && octets[..12] == kBaseUuidLow }

    /**
     * The size of the shortest encoding (UUID::CompactSize): 2 octets for a
     * 16-bit UUID, 4 for a 32-bit one when allow32 is set, 16 otherwise.
     */
    function CompactSize(allow32: bool): nat
    {
      if Short? then 2 else if allow32 && Is32Bit() then 4 else 16
    }

    /** The UUID in its compact form without the 32-bit one, little-endian. */
    function Bytes(): (b: seq<byte>)
      requires Valid()
      ensures |b| == CompactSize(false)
    {
      if Short? then Le16(id) else octets
    }
  }

  /**
   * The Bluetooth Base UUID 00000000-0000-1000-8000-00805F9B34FB without its
   * top 32 bits, least significant octet first (Vol 3, Part B, section 2.5.1).
   */
  const kBaseUuidLow: seq<byte> := [0xFB, 0x34, 0x9B, 0x5F, 0x80, 0x00, 0x00, 0x80, 0x00, 0x10, 0x00, 0x00]

  /** Reads a UUID from its 16-octet form: a 16-bit UUID when it lies in the base range. */
  function UuidFrom128(b: seq<byte>): (u: Uuid)
    requires |b| == 16
    ensures u.Valid()
    ensures u.Short? <==> b[..12] == kBaseUuidLow && b[14] == 0 && b[15] == 0
    ensures u.Short? ==> u.id == LeValue(b[12..14])
    ensures u.Long? ==> u.octets == b
  {
    if b[..12] == kBaseUuidLow && b[14] == 0 && b[15] == 0 then Short(LeValue(b[12..14])) else Long(b)
  }

  /**
   * A 32-bit UUID above the 16-bit range, in its 16-octet form, has the
   * 4-octet compact size when 32-bit forms are allowed and 16 octets otherwise.
   */
  lemma UuidFrom128Of32Bit(v: int)
    requires IsU32(v) && v >= TWO_16
    ensures UuidFrom128(kBaseUuidLow + Le32(v)).CompactSize(true) == 4
    ensures UuidFrom128(kBaseUuidLow + Le32(v)).CompactSize(false) == 16
  {
    var b := kBaseUuidLow + Le32(v);
    assert b[..12] == kBaseUuidLow;
    assert b[12..] == Le32(v);
    var hi := LeBytes(v / 256 / 256, 2);
    assert LeBytes(v / 256, 3) == [v / 256 % 256] + hi;
    assert Le32(v) == [v % 256] + LeBytes(v / 256, 3);
    assert Le32(v)[2..] == hi;
    LeRoundTrip(v / 256 / 256, 2);
    assert LeValue(hi) == hi[0] as int + 256 * (hi[1] as int + 256 * LeValue(hi[2..]));
    assert b[14] != 0 || b[15] != 0;
  }

  /** Every valid UUID reads back from its full 16-octet form: the representation is unique. */
  lemma UuidFullRoundTrip(u: Uuid)
    requires u.Valid()
    ensures UuidFrom128(u.Full()) == u
  {
    if u.Short? {
      UuidFrom128OfShort(u.id);
    }
  }

  /** Two valid UUIDs are equal exactly when their full 16-octet forms are. */
  lemma UuidEqualIff(u: Uuid, v: Uuid)
    requires u.Valid() && v.Valid()
    ensures u == v <==> u.Full() == v.Full()
  {
    UuidFullRoundTrip(u);
    UuidFullRoundTrip(v);
  }

  /** The 16-octet form of a 16-bit UUID reads back as the same UUID. */
  lemma UuidFrom128OfShort(id: int)
    requires IsU16(id)
    ensures UuidFrom128(kBaseUuidLow + Le16(id) + [0, 0]) == Short(id)
  {
    var b := kBaseUuidLow + Le16(id) + [0, 0];
    assert b[..12] == kBaseUuidLow;
    assert b[12..14] == Le16(id);
    LeRoundTrip(id, 2);
  }
}
