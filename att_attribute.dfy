// Attributes and attribute groupings of the Bluetooth ATT server
// (drivers/bluetooth/lib/att/attribute.cc).
//
// An attribute is a value here; the read and write handlers are represented
// by whether they are set, and calling one is the `true` result of
// ReadAsync / WriteAsync. A grouping is a value too: AddAttribute returns the
// extended grouping together with the handle of the new attribute.

module AttAttribute {
  import opened Base
  import opened Att

  /**
   * The permission bits of an attribute: whether the access is allowed at
   * all, and which security levels it requires.
   */
  datatype AccessRequirements = AccessRequirements(
    allowed: bool, encryption: bool, authentication: bool, authorization: bool)
  {
    predicate AllowedWithoutSecurity() {
      allowed && !encryption && !authentication && !authorization
    }
  }

  /** The default requirements: the value 0, which allows nothing. */
  function NoAccess(): (r: AccessRequirements)
    ensures !r.allowed && !r.AllowedWithoutSecurity()
  {
    AccessRequirements(false, false, false, false)
  }

  /** The flagged constructor: access is allowed, with exactly the requested security. */
  function Requirements(encryption: bool, authentication: bool, authorization: bool): (r: AccessRequirements)
    ensures r.allowed
    ensures r.encryption == encryption && r.authentication == authentication && r.authorization == authorization
    ensures r.AllowedWithoutSecurity() <==> !encryption && !authentication && !authorization
  {
    AccessRequirements(true, encryption, authentication, authorization)
  }

  datatype Attribute = Attribute(
    handle: int,
    attrType: Uuid,
    readReqs: AccessRequirements,
    writeReqs: AccessRequirements,
    value: Option<seq<byte>>,
    hasReadHandler: bool,
    hasWriteHandler: bool)
  {
    predicate IsInitialized() { handle != kInvalidHandle }
  }

  /** A fresh attribute: no static value and no handlers. */
  function NewAttribute(handle: int, attrType: Uuid, readReqs: AccessRequirements, writeReqs: AccessRequirements): (a: Attribute)
    requires handle != kInvalidHandle
    ensures a.IsInitialized() && a.value.None? && !a.hasReadHandler && !a.hasWriteHandler
  {
    Attribute(handle, attrType, readReqs, writeReqs, None, false, false)
  }

  /** SetValue: a static value is non-empty, at most 512 octets, and only for attributes that cannot be written. */
  function SetValue(a: Attribute, v: seq<byte>): (r: Attribute)
    requires 0 < |v| <= kMaxAttributeValueLength
    requires !a.writeReqs.allowed
    ensures r.value == Some(v)
    ensures r.(value := a.value) == a
  {
    a.(value := Some(v))
  }

  /** ReadAsync: whether the read handler is called. */
  function ReadAsync(a: Attribute): (called: bool)
    ensures called ==> a.IsInitialized() && a.hasReadHandler && a.readReqs.allowed
    ensures !called ==> !a.IsInitialized() || !a.hasReadHandler || !a.readReqs.allowed
  {
    a.IsInitialized() && a.hasReadHandler && a.readReqs.allowed
  }

  /** WriteAsync: whether the write handler is called. */
  function WriteAsync(a: Attribute): (called: bool)
    ensures called ==> a.IsInitialized() && a.hasWriteHandler && a.writeReqs.allowed
    ensures !called ==> !a.IsInitialized() || !a.hasWriteHandler || !a.writeReqs.allowed
  {
    a.IsInitialized() && a.hasWriteHandler && a.writeReqs.allowed
  }

  /** An attribute with the default requirements can be neither read nor written, whatever its handlers. */
  lemma NoAccessBlocksHandlers(a: Attribute)
    requires a.readReqs == NoAccess() && a.writeReqs == NoAccess()
    ensures !ReadAsync(a) && !WriteAsync(a)
  {
  }

  /**
   * A contiguous run of attributes from `start` to `end`; the first is the
   * group declaration. It is complete once it holds end - start + 1
   * attributes.
   */
  datatype AttributeGrouping = AttributeGrouping(
    groupType: Uuid, start: int, end: int, attributes: seq<Attribute>, active: bool)
  {
    predicate Complete() { |attributes| == end - start + 1 }

    /** Attribute i sits at handle start + i, and the grouping never exceeds its range. */
    predicate Valid()
    {
      && kInvalidHandle < start <= end <= kHandleMax
      && 1 <= |attributes| <= end - start + 1
      && (forall i :: 0 <= i < |attributes| ==> attributes[i].handle == start + i)
      && attributes[0].attrType == groupType
      && attributes[0].readReqs.AllowedWithoutSecurity()
      && !attributes[0].writeReqs.allowed
      && attributes[0].value.Some? && 0 < |attributes[0].value.value|
    }

    /** The value of the group declaration (`decl_value()`). */
    function DeclValue(): (v: seq<byte>)
      requires Valid()
      ensures 0 < |v| && attributes[0].value == Some(v)
    {
      attributes[0].value.value
    }

    predicate Declares(declValue: seq<byte>)
      requires |attributes| > 0
    {
      && attributes[0].handle == start
      && attributes[0].attrType == groupType
      && attributes[0].readReqs.AllowedWithoutSecurity()
      && !attributes[0].writeReqs.allowed
      && attributes[0].value == Some(declValue)
    }
  }

  /**
   * The range check the AttributeGrouping constructor asserts
   * (attribute.cc:78). It rejects a grouping whose end handle would be
   * kHandleMax, although 0xFFFF is a valid attribute handle and a database
   * may extend to it.
   */
  predicate GroupingRangeCheckAsWritten(start: int, attrCount: nat)
  {
    kHandleMax - start > attrCount
  }

  /** The range the constructor evidently needs: the last handle, start + attrCount, is at most kHandleMax. */
  predicate GroupingRangeCheck(start: int, attrCount: nat)
  {
    start + attrCount <= kHandleMax
  }

  /** Every grouping the check as written admits is admitted by the corrected check, but not conversely. */
  lemma GroupingRangeCheckWeakened()
    ensures forall start: int, n: nat :: GroupingRangeCheckAsWritten(start, n) ==> GroupingRangeCheck(start, n)
    ensures GroupingRangeCheck(1, 0xFFFE) && !GroupingRangeCheckAsWritten(1, 0xFFFE)
  {
  }

  /**
   * The AttributeGrouping constructor: a grouping of `attrCount` attributes
   * after the declaration, inactive, holding only the declaration, which
   * anyone may read and nobody may write.
   */
  function NewGrouping(groupType: Uuid, start: int, attrCount: nat, declValue: seq<byte>): (g: AttributeGrouping)
    requires start != kInvalidHandle && 0 <= start
    requires GroupingRangeCheck(start, attrCount)
    requires 0 < |declValue| <= kMaxAttributeValueLength
    ensures g.Valid() && !g.active
    ensures g.end == start + attrCount && g.end - g.start == attrCount
    ensures |g.attributes| == 1 && g.Declares(declValue)
    ensures g.Complete() <==> attrCount == 0
  {
    var decl := NewAttribute(start, groupType, Requirements(false, false, false), NoAccess());
    AttributeGrouping(groupType, start, start + attrCount, [SetValue(decl, declValue)], false)
  }

  /**
   * AddAttribute: nothing (and the grouping unchanged) when it is complete;
   * otherwise the attribute at the next handle, start + current count.
   */
  function AddAttribute(g: AttributeGrouping, attrType: Uuid, readReqs: AccessRequirements, writeReqs: AccessRequirements)
    : (r: (AttributeGrouping, Option<int>))
    requires g.Valid()
    ensures r.0.Valid()
    ensures r.1.None? <==> g.Complete()
    ensures r.1.None? ==> r.0 == g
    ensures r.1.Some? ==>
      && r.1.value == g.start + |g.attributes| <= g.end
      && r.0.attributes == g.attributes + [NewAttribute(r.1.value, attrType, readReqs, writeReqs)]
      && r.0 == g.(attributes := r.0.attributes)
  {
    if g.Complete() then (g, None)
    else
      var h := g.start + |g.attributes|;
      (g.(attributes := g.attributes + [NewAttribute(h, attrType, readReqs, writeReqs)]), Some(h))
  }

  /** Adds attributes of the given types, each with the given requirements. */
  function AddAll(g: AttributeGrouping, types: seq<Uuid>, readReqs: AccessRequirements, writeReqs: AccessRequirements)
    : (r: AttributeGrouping)
    requires g.Valid()
    ensures r.Valid()
    decreases |types|
  {
    if |types| == 0 then g
    else AddAll(AddAttribute(g, types[0], readReqs, writeReqs).0, types[1..], readReqs, writeReqs)
  }

  /**
   * Adding exactly as many attributes as the grouping has room for completes
   * it, and the declaration stays first; adding more changes nothing further.
   */
  lemma {:induction false} AddAllCompletes(g: AttributeGrouping, types: seq<Uuid>, readReqs: AccessRequirements, writeReqs: AccessRequirements)
    requires g.Valid()
    requires |types| >= g.end - g.start + 1 - |g.attributes|
    ensures var r := AddAll(g, types, readReqs, writeReqs);
      r.Complete() && r.start == g.start && r.end == g.end && r.attributes[0] == g.attributes[0]
    decreases |types|
  {
    if |types| > 0 {
      var g' := AddAttribute(g, types[0], readReqs, writeReqs).0;
      AddAllCompletes(g', types[1..], readReqs, writeReqs);
    }
  }
}
