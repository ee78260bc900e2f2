// The conversions of the Bluetooth GATT server's FIDL front end
// (bin/bluetooth/gatt_server_fidl_impl.cc): FIDL error codes to ATT error
// codes, a FIDL list of characteristic properties to the properties and
// extended-properties bit fields of the GATT characteristic declaration
// (section 3.3.1.1 and 3.3.3.1 of the Bluetooth Core Specification, Vol 3,
// Part G), and optional FIDL security requirements to ATT access
// requirements. The bit-field constants are those of
// drivers/bluetooth/lib/gatt/gatt.h.

module GattServerFidl {
  import opened Base
  import opened Att
  import opened AttAttribute

  // ---------------------------------------------------------------------
  // Error codes

  /** The FIDL error codes a delegate reports; any other code is `Other`. */
  datatype FidlErrorCode = FidlNoError | FidlInvalidOffset | FidlInvalidValueLength | FidlNotPermitted | Other(code: int)

  /** The ATT error code reported for a delegate's FIDL error code. */
  function GattErrorCodeFromFidl(errorCode: FidlErrorCode, isRead: bool): ErrorCode
  {
    match errorCode
    case FidlNoError => NoError
    case FidlInvalidOffset => InvalidOffset
    case FidlInvalidValueLength => InvalidAttributeValueLength
    case FidlNotPermitted => if isRead then ReadNotPermitted else WriteNotPermitted
    case Other(_) => UnlikelyError
  }

  /**
   * The mapping in both directions: only NO_ERROR maps to "no error";
   * NOT_PERMITTED is read- or write-not-permitted as the access is a read
   * or a write; every unknown code is UnlikelyError; and the result is one
   * of these six codes.
   */
  lemma ErrorCodeIff(errorCode: FidlErrorCode, isRead: bool)
    ensures GattErrorCodeFromFidl(errorCode, isRead) == NoError <==> errorCode == FidlNoError
    ensures GattErrorCodeFromFidl(errorCode, isRead) == InvalidOffset <==> errorCode == FidlInvalidOffset
    ensures GattErrorCodeFromFidl(errorCode, isRead) == InvalidAttributeValueLength <==> errorCode == FidlInvalidValueLength
    ensures GattErrorCodeFromFidl(errorCode, isRead) == ReadNotPermitted <==> errorCode == FidlNotPermitted && isRead
    ensures GattErrorCodeFromFidl(errorCode, isRead) == WriteNotPermitted <==> errorCode == FidlNotPermitted && !isRead
    ensures GattErrorCodeFromFidl(errorCode, isRead) == UnlikelyError <==> errorCode.Other?
    ensures GattErrorCodeFromFidl(errorCode, isRead) in
      {NoError, InvalidOffset, InvalidAttributeValueLength, ReadNotPermitted, WriteNotPermitted, UnlikelyError}
  {
  }

  // ---------------------------------------------------------------------
  // Characteristic properties

  /** The FIDL characteristic properties. */
  datatype CharacteristicProperty =
    | Broadcast
    | Read
    | WriteWithoutResponse
    | Write
    | Notify
    | Indicate
    | AuthenticatedSignedWrites
    | ReliableWrite
    | WritableAuxiliaries

  // Properties bit field
  const kBroadcast: bv8 := 0x01
  const kRead: bv8 := 0x02
  const kWriteWithoutResponse: bv8 := 0x04
  const kWrite: bv8 := 0x08
  const kNotify: bv8 := 0x10
  const kIndicate: bv8 := 0x20
  const kAuthenticatedSignedWrites: bv8 := 0x40
  const kExtendedProperties: bv8 := 0x80

  // Extended properties bit field
  const kReliableWrite: bv16 := 0x0001
  const kWritableAuxiliaries: bv16 := 0x0002

  /** The bit a property ORs into the properties field. */
  function PropertyBit(p: CharacteristicProperty): bv8
  {
    match p
    case Broadcast => kBroadcast
    case Read => kRead
    case WriteWithoutResponse => kWriteWithoutResponse
    case Write => kWrite
    case Notify => kNotify
    case Indicate => kIndicate
    case AuthenticatedSignedWrites => kAuthenticatedSignedWrites
    case ReliableWrite => kExtendedProperties
    case WritableAuxiliaries => kExtendedProperties
  }

  /** The bits a property ORs into the extended-properties field. */
  function ExtendedBit(p: CharacteristicProperty): bv16
  {
    match p
    case ReliableWrite => kReliableWrite
    case WritableAuxiliaries => kWritableAuxiliaries
    case _ => 0
  }

  /** The properties field after the listed properties, from 0. */
  function PropertiesOf(ps: seq<CharacteristicProperty>): bv8
  {
    if |ps| == 0 then 0 else PropertiesOf(ps[..|ps| - 1]) | PropertyBit(ps[|ps| - 1])
  }

  /** The extended-properties field after the listed properties, from 0. */
  function ExtendedPropertiesOf(ps: seq<CharacteristicProperty>): bv16
  {
    if |ps| == 0 then 0 else ExtendedPropertiesOf(ps[..|ps| - 1]) | ExtendedBit(ps[|ps| - 1])
  }

  /**
   * ParseProperties: both fields start at 0 and stay 0 for a null or empty
   * list; each listed property ORs in its bits.
   */
  method ParseProperties(properties: Option<seq<CharacteristicProperty>>) returns (props: bv8, extProps: bv16)
    ensures properties.None? ==> props == 0 && extProps == 0
    ensures properties.Some? ==> props == PropertiesOf(properties.value) && extProps == ExtendedPropertiesOf(properties.value)
  {
    props := 0;
    extProps := 0;
    if properties.Some? && |properties.value| != 0 {
      var ps := properties.value;
      var i := 0;
      while i < |ps|
        invariant 0 <= i <= |ps|
        invariant props == PropertiesOf(ps[..i]) && extProps == ExtendedPropertiesOf(ps[..i])
      {
        FoldStep(ps, i);
        props, extProps := AddProperty(props, extProps, ps[i]);
        i := i + 1;
      }
      assert ps[..i] == ps;
    }
  }

  /** The switch of the loop: one property ORs its bits into the fields. */
  method AddProperty(props: bv8, extProps: bv16, p: CharacteristicProperty) returns (props': bv8, extProps': bv16)
    ensures props' == props | PropertyBit(p) && extProps' == extProps | ExtendedBit(p)
  {
    props', extProps' := props, extProps;
    match p {
      case Broadcast => props' := props' | kBroadcast;
      case Read => props' := props' | kRead;
      case WriteWithoutResponse => props' := props' | kWriteWithoutResponse;
      case Write => props' := props' | kWrite;
      case Notify => props' := props' | kNotify;
      case Indicate => props' := props' | kIndicate;
      case AuthenticatedSignedWrites => props' := props' | kAuthenticatedSignedWrites;
      case ReliableWrite =>
        props' := props' | kExtendedProperties;
        extProps' := extProps' | kReliableWrite;
      case WritableAuxiliaries =>
        props' := props' | kExtendedProperties;
        extProps' := extProps' | kWritableAuxiliaries;
    }
  }

  /** One more property ORs its bits into both fields. */
  lemma FoldStep(ps: seq<CharacteristicProperty>, i: nat)
    requires i < |ps|
    ensures PropertiesOf(ps[..i + 1]) == PropertiesOf(ps[..i]) | PropertyBit(ps[i])
    ensures ExtendedPropertiesOf(ps[..i + 1]) == ExtendedPropertiesOf(ps[..i]) | ExtendedBit(ps[i])
  {
    assert ps[..i + 1][..i] == ps[..i];
  }

  /** A mask meets an OR iff it meets one of its operands. */
  lemma OrBit8(a: bv8, b: bv8, m: bv8)
    ensures (a | b) & m != 0 <==> a & m != 0 || b & m != 0
  {
  }

  lemma OrBit16(a: bv16, b: bv16, m: bv16)
    ensures (a | b) & m != 0 <==> a & m != 0 || b & m != 0
  {
  }

  /** Each property brings a single bit, or none: a bit it meets is that bit. */
  lemma SingleBits(q: CharacteristicProperty, p: CharacteristicProperty)
    ensures PropertyBit(q) & PropertyBit(p) != 0 <==> PropertyBit(q) == PropertyBit(p)
    ensures p.ReliableWrite? || p.WritableAuxiliaries? ==>
      (ExtendedBit(q) & ExtendedBit(p) != 0 <==> ExtendedBit(q) == ExtendedBit(p))
  {
  }

  /** A property's bit is set in the properties field iff some listed property brings the same bit. */
  lemma {:induction false} PropertiesBits(ps: seq<CharacteristicProperty>, p: CharacteristicProperty)
    ensures PropertiesOf(ps) & PropertyBit(p) != 0 <==> exists i :: 0 <= i < |ps| && PropertyBit(ps[i]) == PropertyBit(p)
  {
    if |ps| != 0 {
      var init, last := ps[..|ps| - 1], ps[|ps| - 1];
      PropertiesBits(init, p);
      assert PropertiesOf(ps) == PropertiesOf(init) | PropertyBit(last);
      OrBit8(PropertiesOf(init), PropertyBit(last), PropertyBit(p));
      SingleBits(last, p);
      if PropertyBit(last) == PropertyBit(p) {
        assert PropertyBit(ps[|ps| - 1]) == PropertyBit(p);
      } else if PropertiesOf(init) & PropertyBit(p) != 0 {
        var i :| 0 <= i < |init| && PropertyBit(init[i]) == PropertyBit(p);
        assert ps[i] == init[i];
      }
      if PropertiesOf(ps) & PropertyBit(p) == 0 {
        forall i | 0 <= i < |ps|
          ensures PropertyBit(ps[i]) != PropertyBit(p)
        {
          if i < |ps| - 1 {
            assert ps[i] == init[i];
          }
        }
      }
    }
  }

  /** An extended property's bit is set in the extended field iff that property is listed. */
  lemma {:induction false} ExtendedBits(ps: seq<CharacteristicProperty>, p: CharacteristicProperty)
    requires p.ReliableWrite? || p.WritableAuxiliaries?
    ensures ExtendedPropertiesOf(ps) & ExtendedBit(p) != 0 <==> exists i :: 0 <= i < |ps| && ExtendedBit(ps[i]) == ExtendedBit(p)
  {
    if |ps| != 0 {
      var init, last := ps[..|ps| - 1], ps[|ps| - 1];
      ExtendedBits(init, p);
      assert ExtendedPropertiesOf(ps) == ExtendedPropertiesOf(init) | ExtendedBit(last);
      OrBit16(ExtendedPropertiesOf(init), ExtendedBit(last), ExtendedBit(p));
      SingleBits(last, p);
      if ExtendedBit(last) == ExtendedBit(p) {
        assert ExtendedBit(ps[|ps| - 1]) == ExtendedBit(p);
      } else if ExtendedPropertiesOf(init) & ExtendedBit(p) != 0 {
        var i :| 0 <= i < |init| && ExtendedBit(init[i]) == ExtendedBit(p);
        assert ps[i] == init[i];
      }
      if ExtendedPropertiesOf(ps) & ExtendedBit(p) == 0 {
        forall i | 0 <= i < |ps|
          ensures ExtendedBit(ps[i]) != ExtendedBit(p)
        {
          if i < |ps| - 1 {
            assert ps[i] == init[i];
          }
        }
      }
    }
  }

  /** Only the two extended properties touch the extended field, and only its two low bits. */
  lemma {:induction false} ExtendedLow(ps: seq<CharacteristicProperty>)
    ensures ExtendedPropertiesOf(ps) & 0xFFFC == 0
  {
    if |ps| != 0 {
      var init := ps[..|ps| - 1];
      ExtendedLow(init);
      var a, b := ExtendedPropertiesOf(init), ExtendedBit(ps[|ps| - 1]);
      assert b & 0xFFFC == 0;
      assert (a | b) & 0xFFFC == 0;
    }
  }

  /**
   * Each of the seven plain properties has its bit set iff it is listed;
   * the extended-properties flag is set iff reliable write or writable
   * auxiliaries is listed.
   */
  lemma PropertiesIff(ps: seq<CharacteristicProperty>, p: CharacteristicProperty)
    ensures !p.ReliableWrite? && !p.WritableAuxiliaries? ==>
      (PropertiesOf(ps) & PropertyBit(p) != 0 <==> p in ps)
    ensures PropertiesOf(ps) & kExtendedProperties != 0 <==> ReliableWrite in ps || WritableAuxiliaries in ps
  {
    PropertiesBits(ps, ReliableWrite);
    if ReliableWrite in ps || WritableAuxiliaries in ps {
      var i :| 0 <= i < |ps| && (ps[i] == ReliableWrite || ps[i] == WritableAuxiliaries);
      assert PropertyBit(ps[i]) == PropertyBit(ReliableWrite);
    }
    if !p.ReliableWrite? && !p.WritableAuxiliaries? {
      PropertiesBits(ps, p);
      if p in ps {
        var i :| 0 <= i < |ps| && ps[i] == p;
        assert PropertyBit(ps[i]) == PropertyBit(p);
      }
    }
  }

  /**
   * The reliable-write bit is set iff reliable write is listed, the
   * writable-auxiliaries bit iff writable auxiliaries is listed, and no
   * other extended bit is ever set.
   */
  lemma ExtendedIff(ps: seq<CharacteristicProperty>)
    ensures ExtendedPropertiesOf(ps) & kReliableWrite != 0 <==> ReliableWrite in ps
    ensures ExtendedPropertiesOf(ps) & kWritableAuxiliaries != 0 <==> WritableAuxiliaries in ps
    ensures ExtendedPropertiesOf(ps) & 0xFFFC == 0
  {
    ExtendedBits(ps, ReliableWrite);
    ExtendedBits(ps, WritableAuxiliaries);
    if ReliableWrite in ps {
      var i :| 0 <= i < |ps| && ps[i] == ReliableWrite;
      assert ExtendedBit(ps[i]) == kReliableWrite;
    }
    if WritableAuxiliaries in ps {
      var i :| 0 <= i < |ps| && ps[i] == WritableAuxiliaries;
      assert ExtendedBit(ps[i]) == kWritableAuxiliaries;
    }
    ExtendedLow(ps);
  }

  // ---------------------------------------------------------------------
  // Security requirements

  /** The FIDL security requirements: three flags. */
  datatype SecurityRequirements = SecurityRequirements(
    encryptionRequired: bool, authenticationRequired: bool, authorizationRequired: bool)

  /**
   * Null requirements allow no access; otherwise access is allowed with
   * exactly the requested security.
   */
  function ParseSecurityRequirements(reqs: Option<SecurityRequirements>): (r: AccessRequirements)
    ensures reqs.None? ==> r == NoAccess() && !r.allowed
    ensures reqs.Some? ==>
      r.allowed && r.encryption == reqs.value.encryptionRequired &&
      r.authentication == reqs.value.authenticationRequired && r.authorization == reqs.value.authorizationRequired
    ensures r.allowed <==> reqs.Some?
  {
    if reqs.None? then NoAccess()
    else Requirements(reqs.value.encryptionRequired, reqs.value.authenticationRequired, reqs.value.authorizationRequired)
  }
}
