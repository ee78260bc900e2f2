// The local GATT service registry of the Bluetooth host library
// (drivers/bluetooth/lib/gatt/local_service_manager.cc): validation of a
// service hierarchy, its layout as one attribute grouping of the ATT
// database (Bluetooth Core Specification v5.0, Vol 3, Part G, section 3),
// the permission checks of the read and write handlers it installs, and the
// numbering of registered services.
//
// The handlers themselves are represented by the `hasReadHandler` and
// `hasWriteHandler` flags of an attribute; what a handler does when called is
// a separate pure function of the state it captured.

module GattLocalServiceManager {
  import opened Base
  import opened Att
  import opened AttAttribute
  import opened AttDatabase

  // ---------------------------------------------------------------------
  // Service hierarchy

  datatype Descriptor = Descriptor(id: nat, dtype: Uuid, readReqs: AccessRequirements, writeReqs: AccessRequirements)

  datatype Characteristic = Characteristic(
    id: nat, ctype: Uuid, properties: byte,
    readReqs: AccessRequirements, writeReqs: AccessRequirements,
    descriptors: seq<Descriptor>)

  datatype Service = Service(primary: bool, stype: Uuid, characteristics: seq<Characteristic>)

  /** Every UUID of the hierarchy is well formed. */
  predicate WellFormed(s: Service)
  {
    && s.stype.Valid()
    && (forall i :: 0 <= i < |s.characteristics| ==> s.characteristics[i].ctype.Valid())
    && (forall i, j :: 0 <= i < |s.characteristics| && 0 <= j < |s.characteristics[i].descriptors| ==>
          s.characteristics[i].descriptors[j].dtype.Valid())
  }

  /** Attribute types of the GATT profile (Vol 3, Part G, sections 3.1 to 3.3). */
  const kPrimaryServiceGroupType: Uuid := Short(0x2800)
  const kSecondaryServiceGroupType: Uuid := Short(0x2801)
  const kCharacteristicDeclarationType: Uuid := Short(0x2803)
  const kCEPType: Uuid := Short(0x2900)
  const kCCCType: Uuid := Short(0x2902)
  const kSCCType: Uuid := Short(0x2903)

  /** Characteristic property bits (Vol 3, Part G, section 3.3.1.1). */
  const kCharacteristicPropertyRead: int := 0x02
  const kCharacteristicPropertyWriteWithoutResponse: int := 0x04
  const kCharacteristicPropertyWrite: int := 0x08

  function HasProperty(properties: byte, bit: int): bool
    requires bit in {kCharacteristicPropertyRead, kCharacteristicPropertyWriteWithoutResponse, kCharacteristicPropertyWrite}
  {
    (properties / bit) % 2 == 1
  }

  // ---------------------------------------------------------------------
  // Validation

  function DescId(d: Descriptor): seq<nat> { [d.id] }

  function DescIds(ds: seq<Descriptor>): seq<nat> { FlatMap(DescId, ds) }

  /** The identifiers of a characteristic in the order they are checked: its own, then its descriptors'. */
  function ChrcIds(c: Characteristic): seq<nat> { [c.id] + DescIds(c.descriptors) }

  function Ids(cs: seq<Characteristic>): seq<nat> { FlatMap(ChrcIds, cs) }

  predicate Distinct(xs: seq<nat>)
  {
    forall i, j :: 0 <= i < j < |xs| ==> xs[i] != xs[j]
  }

  /** Descriptor types the server manages itself and does not accept from a service. */
  predicate Disallowed(d: Descriptor)
  {
    d.dtype == kCEPType || d.dtype == kCCCType || d.dtype == kSCCType
  }

  predicate AllowedDescriptors(ds: seq<Descriptor>)
  {
    forall j :: 0 <= j < |ds| ==> !Disallowed(ds[j])
  }

  predicate Allowed(cs: seq<Characteristic>)
  {
    forall i :: 0 <= i < |cs| ==> AllowedDescriptors(cs[i].descriptors)
  }

  /** Attributes after the service declaration: a declaration and a value per characteristic, one per descriptor. */
  function ChrcAttrCount(c: Characteristic): nat { 2 + |c.descriptors| }

  function AttrCount(cs: seq<Characteristic>): nat
  {
    if |cs| == 0 then 0 else AttrCount(cs[..|cs| - 1]) + ChrcAttrCount(cs[|cs| - 1])
  }

  /** The verdict of ValidateService: the attribute count of a hierarchy with distinct ids and no managed descriptor. */
  function Validation(s: Service): Option<nat>
  {
    if Distinct(Ids(s.characteristics)) && Allowed(s.characteristics) then Some(AttrCount(s.characteristics))
    else None
  }

  lemma DistinctPrefix(xs: seq<nat>, ys: seq<nat>)
    requires Distinct(xs + ys)
    ensures Distinct(xs)
  {
    forall i, j | 0 <= i < j < |xs| ensures xs[i] != xs[j] {
      assert xs[i] == (xs + ys)[i] && xs[j] == (xs + ys)[j];
    }
  }

  lemma DistinctSnoc(xs: seq<nat>, x: nat)
    ensures Distinct(xs + [x]) <==> Distinct(xs) && x !in xs
  {
    var ys := xs + [x];
    if Distinct(ys) {
      DistinctPrefix(xs, [x]);
      forall i | 0 <= i < |xs| ensures xs[i] != x {
        assert ys[i] == xs[i] && ys[|xs|] == x;
      }
    }
    if Distinct(xs) && x !in xs {
      forall i, j | 0 <= i < j < |ys| ensures ys[i] != ys[j] {
        if j == |xs| {
          assert ys[i] == xs[i];
        } else {
          assert ys[i] == xs[i] && ys[j] == xs[j];
        }
      }
    }
  }

  /** The identifiers of cs split after characteristic i. */
  lemma IdsSplitAfter(cs: seq<Characteristic>, i: nat)
    requires i < |cs|
    ensures Ids(cs) == Ids(cs[..i]) + [cs[i].id] + DescIds(cs[i].descriptors) + Ids(cs[i + 1..])
  {
    var front, mid, back := cs[..i], [cs[i]], cs[i + 1..];
    assert cs == front + mid + back;
    FlatMapConcat(ChrcIds, front + mid, back);
    FlatMapConcat(ChrcIds, front, mid);
    assert FlatMap(ChrcIds, mid) == ChrcIds(cs[i]) by {
      assert mid[..0] == [];
    }
    var a, d, b := Ids(front), DescIds(cs[i].descriptors), Ids(back);
    assert Ids(cs) == a + ([cs[i].id] + d) + b;
    assert a + ([cs[i].id] + d) + b == a + [cs[i].id] + d + b;
  }

  /** A repeated identifier anywhere in the hierarchy fails validation. */
  lemma RepeatedIdRejected(s: Service, i: nat, j: nat)
    requires i < j < |Ids(s.characteristics)| && Ids(s.characteristics)[i] == Ids(s.characteristics)[j]
    ensures Validation(s).None?
  {
  }

  /** A managed descriptor type anywhere in the hierarchy fails validation. */
  lemma DisallowedDescriptorRejected(s: Service, i: nat, j: nat)
    requires i < |s.characteristics| && j < |s.characteristics[i].descriptors|
    requires s.characteristics[i].descriptors[j].dtype in {kCEPType, kCCCType, kSCCType}
    ensures Validation(s).None?
  {
  }

  /** The attribute count of a hierarchy: two per characteristic, one per descriptor. */
  lemma {:induction false} AttrCountIsTwoPerCharacteristicPlusDescriptors(cs: seq<Characteristic>)
    ensures AttrCount(cs) == 2 * |cs| + |FlatMap(ChrcDescriptors, cs)|
  {
    if |cs| > 0 {
      AttrCountIsTwoPerCharacteristicPlusDescriptors(cs[..|cs| - 1]);
    }
  }

  function ChrcDescriptors(c: Characteristic): seq<Descriptor> { c.descriptors }

  /** The descriptor loop of ValidateService, from the identifiers seen so far. */
  method CheckDescriptors(ghost seen: seq<nat>, ids0: set<nat>, count0: nat, ds: seq<Descriptor>)
    returns (ok: bool, ids: set<nat>, count: nat)
    requires Distinct(seen) && forall x :: x in ids0 <==> x in seen
    ensures ok <==> Distinct(seen + DescIds(ds)) && AllowedDescriptors(ds)
    ensures ok ==> (forall x :: x in ids <==> x in seen + DescIds(ds)) && count == count0 + |ds|
  {
    ids, count := ids0, count0;
    var j := 0;
    while j < |ds|
      invariant j <= |ds|
      invariant Distinct(seen + DescIds(ds[..j])) && AllowedDescriptors(ds[..j])
      invariant forall x :: x in ids <==> x in seen + DescIds(ds[..j])
      invariant count == count0 + j
    {
      var d := ds[j];
      FlatMapStep(DescId, ds, j);
      assert seen + DescIds(ds[..j + 1]) == (seen + DescIds(ds[..j])) + [d.id];
      if d.id in ids {
        DistinctSnoc(seen + DescIds(ds[..j]), d.id);
        DescIdsPrefixNotDistinct(seen, ds, j + 1);
        return false, ids, count;
      }
      if d.dtype == kCEPType || d.dtype == kCCCType || d.dtype == kSCCType {
        assert Disallowed(ds[j]);
        return false, ids, count;
      }
      DistinctSnoc(seen + DescIds(ds[..j]), d.id);
      ids := ids + {d.id};
      count := count + 1;
      j := j + 1;
    }
    assert ds[..j] == ds;
    ok := true;
  }

  lemma DescIdsPrefixNotDistinct(seen: seq<nat>, ds: seq<Descriptor>, n: nat)
    requires n <= |ds| && !Distinct(seen + DescIds(ds[..n]))
    ensures !Distinct(seen + DescIds(ds))
  {
    assert ds == ds[..n] + ds[n..];
    FlatMapConcat(DescId, ds[..n], ds[n..]);
    assert seen + DescIds(ds) == (seen + DescIds(ds[..n])) + DescIds(ds[n..]);
    if Distinct(seen + DescIds(ds)) {
      DistinctPrefix(seen + DescIds(ds[..n]), DescIds(ds[n..]));
    }
  }

  lemma IdsPrefixNotDistinct(cs: seq<Characteristic>, i: nat, tail: seq<nat>)
    requires i < |cs| && !Distinct(Ids(cs[..i]) + [cs[i].id] + tail)
    requires tail == DescIds(cs[i].descriptors)
    ensures !Distinct(Ids(cs))
  {
    IdsSplitAfter(cs, i);
    if Distinct(Ids(cs)) {
      DistinctPrefix(Ids(cs[..i]) + [cs[i].id] + tail, Ids(cs[i + 1..]));
    }
  }

  lemma CharacteristicStep(cs: seq<Characteristic>, i: nat)
    requires i < |cs|
    ensures Ids(cs[..i + 1]) == Ids(cs[..i]) + [cs[i].id] + DescIds(cs[i].descriptors)
    ensures AttrCount(cs[..i + 1]) == AttrCount(cs[..i]) + 2 + |cs[i].descriptors|
    ensures Allowed(cs[..i + 1]) <==> Allowed(cs[..i]) && AllowedDescriptors(cs[i].descriptors)
  {
    FlatMapStep(ChrcIds, cs, i);
    assert cs[..i + 1][..i] == cs[..i];
  }

  lemma RepeatedCharacteristicId(cs: seq<Characteristic>, i: nat)
    requires i < |cs| && cs[i].id in Ids(cs[..i])
    ensures !Distinct(Ids(cs))
  {
    var a := Ids(cs[..i]) + [cs[i].id];
    DistinctSnoc(Ids(cs[..i]), cs[i].id);
    if Distinct(a + DescIds(cs[i].descriptors)) {
      DistinctPrefix(a, DescIds(cs[i].descriptors));
    }
    IdsPrefixNotDistinct(cs, i, DescIds(cs[i].descriptors));
  }

  lemma RejectedCharacteristic(cs: seq<Characteristic>, i: nat)
    requires i < |cs|
    requires !(Distinct(Ids(cs[..i]) + [cs[i].id] + DescIds(cs[i].descriptors)) && AllowedDescriptors(cs[i].descriptors))
    ensures !(Distinct(Ids(cs)) && Allowed(cs))
  {
    if !Distinct(Ids(cs[..i]) + [cs[i].id] + DescIds(cs[i].descriptors)) {
      IdsPrefixNotDistinct(cs, i, DescIds(cs[i].descriptors));
    }
  }

  /**
   * ValidateService: walks the hierarchy keeping the set of identifiers seen;
   * a repeated identifier or a managed descriptor type fails it, and
   * otherwise it counts the attributes.
   */
  method ValidateService(s: Service) returns (r: Option<nat>)
    ensures r == Validation(s)
  {
    var cs := s.characteristics;
    var ids: set<nat> := {};
    var count: nat := 0;
    var i := 0;
    while i < |cs|
      invariant i <= |cs|
      invariant Distinct(Ids(cs[..i])) && Allowed(cs[..i])
      invariant forall x :: x in ids <==> x in Ids(cs[..i])
      invariant count == AttrCount(cs[..i])
    {
      var c := cs[i];
      if c.id in ids {
        RepeatedCharacteristicId(cs, i);
        return None;
      }
      DistinctSnoc(Ids(cs[..i]), c.id);
      var ok, ids', count' := CheckDescriptors(Ids(cs[..i]) + [c.id], ids + {c.id}, count + 2, c.descriptors);
      if !ok {
        RejectedCharacteristic(cs, i);
        return None;
      }
      CharacteristicStep(cs, i);
      ids, count := ids', count';
      i := i + 1;
    }
    assert cs[..i] == cs;
    r := Some(count);
  }

  // ---------------------------------------------------------------------
  // Ordering by UUID size

  /** The compact size std::sort compares: UUID::CompactSize with 32-bit forms allowed. */
  function SizeOf<T>(x: T, uuidOf: T -> Uuid): nat { uuidOf(x).CompactSize(true) }

  /** The items whose UUID has compact size n, in their order. */
  function Keep<T>(xs: seq<T>, n: nat, uuidOf: T -> Uuid): (r: seq<T>)
    ensures |r| <= |xs|
  {
    if |xs| == 0 then []
    else Keep(xs[..|xs| - 1], n, uuidOf) + (if SizeOf(xs[|xs| - 1], uuidOf) == n then [xs[|xs| - 1]] else [])
  }

  /**
   * The order std::sort gives by compact UUID size: the 16-bit UUIDs, then
   * the 32-bit ones, then the 128-bit ones. Among equal sizes the model
   * keeps the given order.
   */
  function SortBySize<T>(xs: seq<T>, uuidOf: T -> Uuid): seq<T>
  {
    Keep(xs, 2, uuidOf) + Keep(xs, 4, uuidOf) + Keep(xs, 16, uuidOf)
  }

  lemma {:induction false} KeepMembers<T>(xs: seq<T>, n: nat, uuidOf: T -> Uuid)
    ensures forall k :: 0 <= k < |Keep(xs, n, uuidOf)| ==> SizeOf(Keep(xs, n, uuidOf)[k], uuidOf) == n
  {
    if |xs| > 0 {
      KeepMembers(xs[..|xs| - 1], n, uuidOf);
    }
  }

  lemma KeepSnoc<T>(xs: seq<T>, last: T, n: nat, uuidOf: T -> Uuid)
    ensures Keep(xs + [last], n, uuidOf) == Keep(xs, n, uuidOf) + (if SizeOf(last, uuidOf) == n then [last] else [])
  {
    assert (xs + [last])[..|xs|] == xs;
  }

  /** The three size classes together hold every item once. */
  predicate KeepsAll<T(==)>(xs: seq<T>, uuidOf: T -> Uuid)
  {
    multiset(Keep(xs, 2, uuidOf)) + multiset(Keep(xs, 4, uuidOf)) + multiset(Keep(xs, 16, uuidOf)) == multiset(xs)
  }

  lemma {:induction false} KeepSplit<T>(xs: seq<T>, uuidOf: T -> Uuid)
    ensures KeepsAll(xs, uuidOf)
  {
    if |xs| > 0 {
      var front, last := xs[..|xs| - 1], xs[|xs| - 1];
      KeepSplit(front, uuidOf);
      KeepSplitStep(front, last, uuidOf);
      assert xs == front + [last];
    }
  }

  lemma KeepSplitStep<T>(front: seq<T>, last: T, uuidOf: T -> Uuid)
    requires KeepsAll(front, uuidOf)
    ensures KeepsAll(front + [last], uuidOf)
  {
    KeepSnoc(front, last, 2, uuidOf);
    KeepSnoc(front, last, 4, uuidOf);
    KeepSnoc(front, last, 16, uuidOf);
  }

  /**
   * Sorting by size is a permutation whose compact sizes never decrease:
   * 16-bit UUIDs before 32-bit ones before 128-bit ones.
   */
  lemma SortBySizeSorts<T>(xs: seq<T>, uuidOf: T -> Uuid)
    ensures multiset(SortBySize(xs, uuidOf)) == multiset(xs)
    ensures |SortBySize(xs, uuidOf)| == |xs|
    ensures forall i, j :: 0 <= i < j < |SortBySize(xs, uuidOf)| ==>
              SizeOf(SortBySize(xs, uuidOf)[i], uuidOf) <= SizeOf(SortBySize(xs, uuidOf)[j], uuidOf)
  {
    SortBySizePermutes(xs, uuidOf);
    SortBySizeSplits(xs, uuidOf);
  }

  lemma SortBySizePermutes<T>(xs: seq<T>, uuidOf: T -> Uuid)
    ensures multiset(SortBySize(xs, uuidOf)) == multiset(xs)
    ensures |SortBySize(xs, uuidOf)| == |xs|
  {
    KeepSplit(xs, uuidOf);
    var r := SortBySize(xs, uuidOf);
    assert multiset(r) == multiset(Keep(xs, 2, uuidOf)) + multiset(Keep(xs, 4, uuidOf)) + multiset(Keep(xs, 16, uuidOf));
    assert |multiset(r)| == |r| && |multiset(xs)| == |xs|;
  }

  /** The 2-octet UUIDs come first, then the 4-octet ones, then the 16-octet ones. */
  lemma SortBySizeSplits<T>(xs: seq<T>, uuidOf: T -> Uuid)
    ensures var r, n2, n4 := SortBySize(xs, uuidOf), |Keep(xs, 2, uuidOf)|, |Keep(xs, 4, uuidOf)|;
      forall i :: 0 <= i < |r| ==>
        SizeOf(r[i], uuidOf) == (if i < n2 then 2 else if i < n2 + n4 then 4 else 16)
  {
    KeepMembers(xs, 2, uuidOf);
    KeepMembers(xs, 4, uuidOf);
    KeepMembers(xs, 16, uuidOf);
    var k2, k4, k16 := Keep(xs, 2, uuidOf), Keep(xs, 4, uuidOf), Keep(xs, 16, uuidOf);
    var r := SortBySize(xs, uuidOf);
    forall i | 0 <= i < |r|
      ensures SizeOf(r[i], uuidOf) == (if i < |k2| then 2 else if i < |k2| + |k4| then 4 else 16)
    {
      if i < |k2| {
        assert r[i] == k2[i];
      } else if i < |k2| + |k4| {
        assert r[i] == k4[i - |k2|];
      } else {
        assert r[i] == k16[i - |k2| - |k4|];
      }
    }
  }

  function ChrcType(c: Characteristic): Uuid { c.ctype }
  function DescType(d: Descriptor): Uuid { d.dtype }

  /** The attribute count, like any sum over the characteristics, does not depend on their order. */
  lemma {:induction false} AttrCountConcat(xs: seq<Characteristic>, ys: seq<Characteristic>)
    ensures AttrCount(xs + ys) == AttrCount(xs) + AttrCount(ys)
    decreases |ys|
  {
    if |ys| == 0 {
      assert xs + ys == xs;
    } else {
      var front := ys[..|ys| - 1];
      assert (xs + ys)[..|xs + ys| - 1] == xs + front;
      AttrCountConcat(xs, front);
    }
  }

  lemma {:induction false} AttrCountKeep(cs: seq<Characteristic>)
    ensures AttrCount(Keep(cs, 2, ChrcType)) + AttrCount(Keep(cs, 4, ChrcType)) + AttrCount(Keep(cs, 16, ChrcType))
            == AttrCount(cs)
  {
    if |cs| > 0 {
      var front, last := cs[..|cs| - 1], cs[|cs| - 1];
      AttrCountKeep(front);
      assert [last][..0] == [];
      assert AttrCount([last]) == ChrcAttrCount(last);
      assert cs == front + [last];
      AttrCountSnoc(front, last, 2);
      AttrCountSnoc(front, last, 4);
      AttrCountSnoc(front, last, 16);
    }
  }

  lemma AttrCountSnoc(front: seq<Characteristic>, last: Characteristic, n: nat)
    ensures AttrCount(Keep(front + [last], n, ChrcType))
            == AttrCount(Keep(front, n, ChrcType)) + (if SizeOf(last, ChrcType) == n then ChrcAttrCount(last) else 0)
  {
    KeepSnoc(front, last, n, ChrcType);
    assert [last][..0] == [];
    assert AttrCount([last]) == ChrcAttrCount(last);
    if SizeOf(last, ChrcType) == n {
      AttrCountConcat(Keep(front, n, ChrcType), [last]);
    } else {
      assert Keep(front, n, ChrcType) + [] == Keep(front, n, ChrcType);
    }
  }

  lemma SortedAttrCount(cs: seq<Characteristic>)
    ensures AttrCount(SortBySize(cs, ChrcType)) == AttrCount(cs)
  {
    AttrCountConcat(Keep(cs, 2, ChrcType), Keep(cs, 4, ChrcType));
    AttrCountConcat(Keep(cs, 2, ChrcType) + Keep(cs, 4, ChrcType), Keep(cs, 16, ChrcType));
    AttrCountKeep(cs);
  }

  // ---------------------------------------------------------------------
  // Layout of a service in its grouping

  /** The handles of the grouping not yet taken by an attribute. */
  function Room(g: AttributeGrouping): int { g.end - g.start + 1 - |g.attributes| }

  /** The characteristic declaration value: properties, the value handle (LE), then the compact UUID. */
  function DeclarationValue(properties: byte, valueHandle: int, t: Uuid): (v: seq<byte>)
    requires IsU16(valueHandle) && t.Valid()
    ensures |v| == 3 + t.CompactSize(false) && (|v| == 5 || |v| == 19)
    ensures v[0] == properties && v[1] as int + 256 * (v[2] as int) == valueHandle && v[3..] == t.Bytes()
  {
    [properties] + Le16(valueHandle) + t.Bytes()
  }

  /** An attribute whose read and write handlers are set. */
  function WithHandlers(a: Attribute): Attribute
  {
    a.(hasReadHandler := true, hasWriteHandler := true)
  }

  /**
   * InsertCharacteristicAttribute: the declaration (readable without
   * security, not writable, holding the declaration value) and then the
   * value attribute with the characteristic's permissions and both handlers.
   */
  function InsertCharacteristic(g: AttributeGrouping, c: Characteristic): (r: AttributeGrouping)
    requires g.Valid() && Room(g) >= 2 && c.ctype.Valid()
    ensures r.Valid() && Room(r) == Room(g) - 2
    ensures r == g.(attributes := r.attributes) && g.attributes < r.attributes
    ensures var n, h := |g.attributes|, g.start + |g.attributes|;
      && |r.attributes| == n + 2
      && r.attributes[n] == Attribute(h, kCharacteristicDeclarationType, Requirements(false, false, false), NoAccess(),
                                      Some(DeclarationValue(c.properties, h + 1, c.ctype)), false, false)
      && r.attributes[n + 1] == Attribute(h + 1, c.ctype, c.readReqs, c.writeReqs, None, true, true)
  {
    var (g1, declHandle) := AddAttribute(g, kCharacteristicDeclarationType, Requirements(false, false, false), NoAccess());
    var (g2, valueHandle) := AddAttribute(g1, c.ctype, c.readReqs, c.writeReqs);
    var n := |g.attributes|;
    var decl := SetValue(g2.attributes[n], DeclarationValue(c.properties, valueHandle.value, c.ctype));
    var r := g2.(attributes := g2.attributes[n := decl][n + 1 := WithHandlers(g2.attributes[n + 1])]);
    assert r.attributes[0] == g.attributes[0];
    r
  }

  /** InsertDescriptorAttribute: the descriptor's attribute with its permissions and both handlers. */
  function InsertDescriptor(g: AttributeGrouping, d: Descriptor): (r: AttributeGrouping)
    requires g.Valid() && Room(g) >= 1
    ensures r.Valid() && Room(r) == Room(g) - 1
    ensures r == g.(attributes := g.attributes + [Attribute(g.start + |g.attributes|, d.dtype, d.readReqs, d.writeReqs, None, true, true)])
  {
    var (g1, handle) := AddAttribute(g, d.dtype, d.readReqs, d.writeReqs);
    g1.(attributes := g1.attributes[|g.attributes| := WithHandlers(g1.attributes[|g.attributes|])])
  }

  function AddDescriptors(g: AttributeGrouping, ds: seq<Descriptor>): (r: AttributeGrouping)
    requires g.Valid() && Room(g) >= |ds|
    ensures r.Valid() && Room(r) == Room(g) - |ds|
    ensures r == g.(attributes := r.attributes) && g.attributes <= r.attributes
  {
    if |ds| == 0 then g
    else InsertDescriptor(AddDescriptors(g, ds[..|ds| - 1]), ds[|ds| - 1])
  }

  /** AddCharacteristic: the characteristic's two attributes, then its descriptors sorted by UUID size. */
  function AddCharacteristic(g: AttributeGrouping, c: Characteristic): (r: AttributeGrouping)
    requires g.Valid() && Room(g) >= ChrcAttrCount(c) && c.ctype.Valid()
    ensures r.Valid() && Room(r) == Room(g) - ChrcAttrCount(c)
    ensures r == g.(attributes := r.attributes) && g.attributes <= r.attributes
  {
    SortBySizeSorts(c.descriptors, DescType);
    AddDescriptors(InsertCharacteristic(g, c), SortBySize(c.descriptors, DescType))
  }

  predicate TypesValid(cs: seq<Characteristic>)
  {
    forall i :: 0 <= i < |cs| ==> cs[i].ctype.Valid()
  }

  function AddCharacteristics(g: AttributeGrouping, cs: seq<Characteristic>): (r: AttributeGrouping)
    requires g.Valid() && Room(g) >= AttrCount(cs) && TypesValid(cs)
    ensures r.Valid() && Room(r) == Room(g) - AttrCount(cs)
    ensures r == g.(attributes := r.attributes) && g.attributes <= r.attributes
  {
    if |cs| == 0 then g
    else
      var front := AddCharacteristics(g, cs[..|cs| - 1]);
      AddCharacteristic(front, cs[|cs| - 1])
  }

  lemma SortedTypesValid(cs: seq<Characteristic>)
    requires TypesValid(cs)
    ensures TypesValid(SortBySize(cs, ChrcType))
  {
    SortBySizeSorts(cs, ChrcType);
    var r := SortBySize(cs, ChrcType);
    forall i | 0 <= i < |r| ensures r[i].ctype.Valid() {
      assert r[i] in multiset(cs);
    }
  }

  /**
   * The grouping of a registered service: the declaration of the service
   * type, then its characteristics sorted by UUID size; their attributes
   * fill it exactly, and it is active.
   */
  function ServiceGrouping(s: Service, start: int, attrCount: nat): (g: AttributeGrouping)
    requires WellFormed(s) && 0 < start && GroupingRangeCheck(start, attrCount)
    requires attrCount == AttrCount(s.characteristics)
    ensures g.Valid() && g.active && g.start == start && g.end == start + attrCount
    ensures g.Complete()
    ensures g.groupType == (if s.primary then kPrimaryServiceGroupType else kSecondaryServiceGroupType)
    ensures g.attributes[0].value == Some(s.stype.Bytes())
  {
    SortedAttrCount(s.characteristics);
    SortedTypesValid(s.characteristics);
    var g0 := AttAttribute.NewGrouping(if s.primary then kPrimaryServiceGroupType else kSecondaryServiceGroupType,
                                       start, attrCount, s.stype.Bytes());
    AddCharacteristics(g0, SortBySize(s.characteristics, ChrcType)).(active := true)
  }

  // ---------------------------------------------------------------------
  // The handlers installed on each attribute

  datatype HandlerResult =
    | Reply(code: ErrorCode)  // result_cb is called with this error
    | Forward                 // the service's own handler is called
    | Drop                    // nothing is called

  /** The characteristic read handler; `alive` is whether the service is still registered. */
  function ChrcRead(alive: bool, properties: byte): (r: HandlerResult)
    ensures r == Forward <==> alive && HasProperty(properties, kCharacteristicPropertyRead)
    ensures r != Forward ==> r == Reply(if alive then ReadNotPermitted else UnlikelyError)
  {
    if !alive then Reply(UnlikelyError)
    else if !HasProperty(properties, kCharacteristicPropertyRead) then Reply(ReadNotPermitted)
    else Forward
  }

  /** The characteristic write handler; `withResponse` is whether a result callback was given. */
  function ChrcWrite(alive: bool, properties: byte, withResponse: bool): (r: HandlerResult)
    ensures r == Forward <==>
      (alive && (if withResponse then HasProperty(properties, kCharacteristicPropertyWrite)
                 else HasProperty(properties, kCharacteristicPropertyWriteWithoutResponse)))
    ensures r == Drop <==> !withResponse && r != Forward
    ensures r.Reply? ==> r.code == (if alive then WriteNotPermitted else UnlikelyError)
  {
    if !alive then (if withResponse then Reply(UnlikelyError) else Drop)
    else if withResponse && !HasProperty(properties, kCharacteristicPropertyWrite) then Reply(WriteNotPermitted)
    else if !withResponse && !HasProperty(properties, kCharacteristicPropertyWriteWithoutResponse) then Drop
    else Forward
  }

  function DescRead(alive: bool): (r: HandlerResult)
    ensures r == Forward <==> alive
    ensures r != Forward ==> r == Reply(UnlikelyError)
  {
    if !alive then Reply(UnlikelyError) else Forward
  }

  /** Descriptors cannot be written without response. */
  function DescWrite(alive: bool, withResponse: bool): (r: HandlerResult)
    ensures r == Forward <==> alive && withResponse
    ensures r == Drop <==> !withResponse
    ensures r.Reply? ==> r.code == UnlikelyError
  {
    if !withResponse then Drop else if !alive then Reply(UnlikelyError) else Forward
  }

  // ---------------------------------------------------------------------
  // The registry

  function Starts(gs: seq<AttributeGrouping>): set<int>
  {
    set i | 0 <= i < |gs| :: gs[i].start
  }

  lemma StartsInsert(gs: seq<AttributeGrouping>, k: nat, g: AttributeGrouping)
    requires k <= |gs|
    ensures Starts(gs[..k] + [g] + gs[k..]) == Starts(gs) + {g.start}
  {
    var r := gs[..k] + [g] + gs[k..];
    forall x | x in Starts(r) ensures x in Starts(gs) + {g.start} {
      var i :| 0 <= i < |r| && r[i].start == x;
      if i < k { assert r[i] == gs[i]; } else if i > k { assert r[i] == gs[i - 1]; }
    }
    forall x | x in Starts(gs) ensures x in Starts(r) {
      var i :| 0 <= i < |gs| && gs[i].start == x;
      if i < k { assert r[i] == gs[i]; } else { assert r[i + 1] == gs[i]; }
    }
    assert r[k] == g;
  }

  lemma StartsRemove(gs: seq<AttributeGrouping>, i: nat)
    requires i < |gs| && Disjoint(gs) && AllValid(gs)
    ensures Starts(gs[..i] + gs[i + 1..]) == Starts(gs) - {gs[i].start}
  {
    StartsRemoveSub(gs, i);
    StartsRemoveSuper(gs, i);
  }

  lemma StartsRemoveSub(gs: seq<AttributeGrouping>, i: nat)
    requires i < |gs| && Disjoint(gs) && AllValid(gs)
    ensures Starts(gs[..i] + gs[i + 1..]) <= Starts(gs) - {gs[i].start}
  {
    var r := gs[..i] + gs[i + 1..];
    forall j | 0 <= j < |r| ensures r[j].start in Starts(gs) && r[j].start != gs[i].start {
      var j' := if j < i then j else j + 1;
      assert r[j] == gs[j'];
      DistinctStarts(gs, i, j');
    }
  }

  lemma DistinctStarts(gs: seq<AttributeGrouping>, a: nat, b: nat)
    requires Disjoint(gs) && AllValid(gs) && a < |gs| && b < |gs| && a != b
    ensures gs[a].start != gs[b].start
  {
    if a < b {
      assert gs[a].end < gs[b].start && gs[a].Valid();
    } else {
      assert gs[b].end < gs[a].start && gs[b].Valid();
    }
  }

  lemma StartsRemoveSuper(gs: seq<AttributeGrouping>, i: nat)
    requires i < |gs|
    ensures Starts(gs) - {gs[i].start} <= Starts(gs[..i] + gs[i + 1..])
  {
    var r := gs[..i] + gs[i + 1..];
    forall x | x in Starts(gs) - {gs[i].start} ensures x in Starts(r) {
      var j :| 0 <= j < |gs| && gs[j].start == x;
      var j' := if j < i then j else j - 1;
      assert r[j'] == gs[j];
    }
  }

  /** A grouping placed in a free run starts at a handle no other grouping starts at. */
  lemma FreeStartIsNew(gs: seq<AttributeGrouping>, start: int, n: nat)
    requires AllValid(gs) && Free(gs, start, n)
    ensures start !in Starts(gs)
  {
  }

  predicate Injective(m: map<nat, int>)
  {
    forall a, b :: a in m && b in m && m[a] == m[b] ==> a == b
  }

  predicate AllActiveAndComplete(gs: seq<AttributeGrouping>)
  {
    forall i :: 0 <= i < |gs| ==> gs[i].active && gs[i].Complete()
  }

  /**
   * The registry maps service ids to the start handles of their groupings:
   * one service per grouping, and every grouping complete and active.
   */
  predicate Registry(services: map<nat, int>, gs: seq<AttributeGrouping>)
  {
    Injective(services) && services.Values == Starts(gs) && AllActiveAndComplete(gs)
  }

  lemma RegistryInsert(services: map<nat, int>, gs: seq<AttributeGrouping>, k: nat, g: AttributeGrouping, id: nat)
    requires Registry(services, gs) && k <= |gs| && id !in services && g.start !in Starts(gs)
    requires g.active && g.Complete()
    ensures Registry(services[id := g.start], gs[..k] + [g] + gs[k..])
  {
    var r := gs[..k] + [g] + gs[k..];
    var m := services[id := g.start];
    StartsInsert(gs, k, g);
    assert m.Values == services.Values + {g.start} by {
      forall v | v in m.Values ensures v in services.Values + {g.start} {
        var a :| a in m && m[a] == v;
        if a != id { assert a in services; }
      }
      assert m[id] == g.start;
      forall v | v in services.Values ensures v in m.Values {
        var a :| a in services && services[a] == v;
        assert m[a] == v;
      }
    }
    forall j | 0 <= j < |r| ensures r[j].active && r[j].Complete() {
      if j < k { assert r[j] == gs[j]; } else if j > k { assert r[j] == gs[j - 1]; }
    }
  }

  lemma RegistryRemove(services: map<nat, int>, gs: seq<AttributeGrouping>, i: nat, id: nat)
    requires Registry(services, gs) && Disjoint(gs) && AllValid(gs)
    requires id in services && i < |gs| && gs[i].start == services[id]
    ensures Registry(services - {id}, gs[..i] + gs[i + 1..])
  {
    var r := gs[..i] + gs[i + 1..];
    var m := services - {id};
    StartsRemove(gs, i);
    assert m.Values == services.Values - {gs[i].start} by {
      forall v | v in services.Values - {gs[i].start} ensures v in m.Values {
        var a :| a in services && services[a] == v;
        assert a != id;
        assert m[a] == v;
      }
    }
    forall j | 0 <= j < |r| ensures r[j].active && r[j].Complete() {
      if j < i { assert r[j] == gs[j]; } else { assert r[j] == gs[j + 1]; }
    }
  }

  lemma ServiceHasGrouping(services: map<nat, int>, gs: seq<AttributeGrouping>, id: nat)
    requires Registry(services, gs) && id in services
    ensures exists i :: 0 <= i < |gs| && gs[i].start == services[id]
  {
    assert services[id] in services.Values;
  }

  /** Start handles tell groupings of a disjoint layout apart. */
  lemma SameStartSameIndex(gs: seq<AttributeGrouping>, i: nat, k: nat)
    requires Disjoint(gs) && AllValid(gs) && i < |gs| && k < |gs| && gs[i].start == gs[k].start
    ensures i == k
  {
  }

  /** Replacing the grouping that shares the start of the one just placed replaces the one just placed. */
  lemma ReplacePlaced(gs0: seq<AttributeGrouping>, gs1: seq<AttributeGrouping>, gs2: seq<AttributeGrouping>,
                      k: nat, i: nat, g0: AttributeGrouping, g: AttributeGrouping, lo: int, hi: int)
    requires k <= |gs0| && gs1 == gs0[..k] + [g0] + gs0[k..] && Layout(gs1, lo, hi)
    requires i < |gs1| && gs1[i].start == g.start && g0.start == g.start
    requires gs2 == gs1[i := g]
    ensures gs2 == gs0[..k] + [g] + gs0[k..]
  {
    assert gs1[k] == g0;
    SameStartSameIndex(gs1, i, k);
    assert gs2 == gs1[..k] + [g] + gs1[k + 1..];
    assert gs1[..k] == gs0[..k] && gs1[k + 1..] == gs0[k..];
  }

  /** The grouping list after a service's grouping has been placed at index k. */
  predicate PlacedService(gs0: seq<AttributeGrouping>, gs: seq<AttributeGrouping>, k: nat, s: Service, start: int, count: nat)
  {
    && k <= |gs0| && WellFormed(s) && 0 < start && GroupingRangeCheck(start, count) && count == AttrCount(s.characteristics)
    && gs == gs0[..k] + [ServiceGrouping(s, start, count)] + gs0[k..]
  }

  class LocalServiceManager {
    const db: Database
    var services: map<nat, int>
    var nextServiceId: nat

    /** Every id handed out is below the next one, and the registry matches the database. */
    predicate Valid()
      reads this, db
    {
      && db.Valid()
      && 1 <= nextServiceId
      && (forall id :: id in services ==> 1 <= id < nextServiceId)
      && Registry(services, db.groupings)
    }

    /** LocalServiceManager::LocalServiceManager: an empty database over every handle, and ids from 1. */
    constructor ()
      ensures Valid() && fresh(db) && services == map[] && nextServiceId == 1
      ensures db.groupings == [] && db.rangeStart == kHandleMin && db.rangeEnd == kHandleMax
    {
      db := new Database(kHandleMin, kHandleMax);
      services := map[];
      nextServiceId := 1;
    }

    /**
     * RegisterService: 0 when the next id is taken, when the hierarchy is
     * invalid or when the database has no room; otherwise the service's
     * grouping is placed, populated and activated, and the id is the next one.
     */
    method RegisterService(s: Service) returns (id: nat)
      requires Valid() && WellFormed(s)
      modifies this, db
      ensures Valid()
      ensures db.rangeStart == old(db.rangeStart) && db.rangeEnd == old(db.rangeEnd)
      ensures id == 0 <==>
        (|| old(nextServiceId) in old(services)
         || Validation(s).None?
         || Placement(old(db.groupings), db.rangeStart, db.rangeEnd, Validation(s).value).None?)
      ensures id == 0 ==> services == old(services) && nextServiceId == old(nextServiceId) && db.groupings == old(db.groupings)
      ensures id != 0 ==>
        && id == old(nextServiceId) && nextServiceId == id + 1
        && Validation(s).Some? && Placement(old(db.groupings), db.rangeStart, db.rangeEnd, Validation(s).value).Some?
        && var p := Placement(old(db.groupings), db.rangeStart, db.rangeEnd, Validation(s).value).value;
        && services == old(services)[id := p.1]
        && PlacedService(old(db.groupings), db.groupings, p.0, s, p.1, Validation(s).value)
    {
      id := 0;
      if nextServiceId in services {
        return;
      }
      var count := ValidateService(s);
      if count.None? {
        return 0;
      }
      id := Install(s, count.value);
    }

    /** The second half of RegisterService, for a valid hierarchy and a free id. */
    method Install(s: Service, count: nat) returns (id: nat)
      requires Valid() && WellFormed(s) && nextServiceId !in services && Validation(s) == Some(count)
      modifies this, db
      ensures Valid()
      ensures db.rangeStart == old(db.rangeStart) && db.rangeEnd == old(db.rangeEnd)
      ensures id == 0 <==> Placement(old(db.groupings), db.rangeStart, db.rangeEnd, count).None?
      ensures id == 0 ==> services == old(services) && nextServiceId == old(nextServiceId) && db.groupings == old(db.groupings)
      ensures id != 0 ==>
        && id == old(nextServiceId) && nextServiceId == id + 1
        && var p := Placement(old(db.groupings), db.rangeStart, db.rangeEnd, count).value;
        && services == old(services)[id := p.1]
        && PlacedService(old(db.groupings), db.groupings, p.0, s, p.1, count)
    {
      ghost var gs0 := db.groupings;
      var start := AddServiceGrouping(db, s, count);
      if start.None? {
        return 0;
      }
      ghost var k := Placement(gs0, db.rangeStart, db.rangeEnd, count).value.0;
      id := Register(start.value, gs0, k, ServiceGrouping(s, start.value, count));
    }

    /** The registry half of RegisterService: the next id is handed out for the grouping just placed at `start`. */
    method Register(start: int, ghost gs0: seq<AttributeGrouping>, ghost k: nat, ghost g: AttributeGrouping) returns (id: nat)
      requires db.Valid() && 1 <= nextServiceId && (forall id :: id in services ==> 1 <= id < nextServiceId)
      requires Registry(services, gs0) && nextServiceId !in services
      requires k <= |gs0| && db.groupings == gs0[..k] + [g] + gs0[k..]
      requires g.start == start && start !in Starts(gs0) && g.active && g.Complete()
      modifies this
      ensures Valid()
      ensures id == old(nextServiceId) && nextServiceId == id + 1 && services == old(services)[id := start]
    {
      RegistryInsert(services, gs0, k, g, nextServiceId);
      id := nextServiceId;
      nextServiceId := nextServiceId + 1;
      services := services[id := start];
    }

    /** UnregisterService: false for an unknown id; otherwise the service's grouping and entry are removed. */
    method UnregisterService(id: nat) returns (removed: bool)
      requires Valid()
      modifies this, db
      ensures Valid()
      ensures db.rangeStart == old(db.rangeStart) && db.rangeEnd == old(db.rangeEnd) && nextServiceId == old(nextServiceId)
      ensures removed <==> id in old(services)
      ensures !removed ==> services == old(services) && db.groupings == old(db.groupings)
      ensures removed ==>
        && services == old(services) - {id}
        && exists i :: 0 <= i < |old(db.groupings)| && old(db.groupings)[i].start == old(services)[id]
                       && db.groupings == old(db.groupings)[..i] + old(db.groupings)[i + 1..]
    {
      if id !in services {
        return false;
      }
      var start := services[id];
      ghost var gs0 := db.groupings;
      ServiceHasGrouping(services, gs0, id);
      var ok := db.RemoveGrouping(start);
      ghost var i :| 0 <= i < |gs0| && gs0[i].start == start && db.groupings == gs0[..i] + gs0[i + 1..];
      RegistryRemove(services, gs0, i, id);
      services := services - {id};
      removed := true;
    }
  }

  /**
   * The database part of RegisterService: a grouping of the service's type
   * for count attributes, populated by the characteristics and activated.
   */
  method AddServiceGrouping(db: Database, s: Service, count: nat) returns (start: Option<int>)
    requires db.Valid() && WellFormed(s) && count == AttrCount(s.characteristics)
    modifies db
    ensures db.Valid() && db.rangeStart == old(db.rangeStart) && db.rangeEnd == old(db.rangeEnd)
    ensures start.None? <==> Placement(old(db.groupings), db.rangeStart, db.rangeEnd, count).None?
    ensures start.None? ==> db.groupings == old(db.groupings)
    ensures start.Some? ==>
      var p := Placement(old(db.groupings), db.rangeStart, db.rangeEnd, count).value;
      && start.value == p.1 && start.value !in Starts(old(db.groupings))
      && PlacedService(old(db.groupings), db.groupings, p.0, s, p.1, count)
  {
    ghost var gs0 := db.groupings;
    start := db.NewGrouping(if s.primary then kPrimaryServiceGroupType else kSecondaryServiceGroupType,
                            count, s.stype.Bytes());
    if start.None? {
      return;
    }
    ghost var k := Placement(gs0, db.rangeStart, db.rangeEnd, count).value.0;
    ghost var g0 := AttAttribute.NewGrouping(if s.primary then kPrimaryServiceGroupType else kSecondaryServiceGroupType,
                                             start.value, count, s.stype.Bytes());
    ghost var gs1 := db.groupings;
    var g := ServiceGrouping(s, start.value, count);
    assert gs1[k] == g0;
    var found := db.UpdateGrouping(g);
    ghost var i :| 0 <= i < |gs1| && gs1[i].start == g.start && db.groupings == gs1[i := g];
    ReplacePlaced(gs0, gs1, db.groupings, k, i, g0, g, db.rangeStart, db.rangeEnd);
    FreeStartIsNew(gs0, start.value, count);
  }

  /** Every id registered is below the counter, so the "ran out of ids" branch never fires with an unbounded counter. */
  lemma NextIdIsFree(m: LocalServiceManager)
    requires m.Valid()
    ensures m.nextServiceId !in m.services
  {
  }
}
