// The GATT server's request handlers (drivers/bluetooth/lib/gatt/server.cc):
// Exchange MTU and Read By Group Type, answered from the attribute database
// (Bluetooth Core Specification v5.0, Vol 3, Part F, sections 3.4.2 and
// 3.4.4.9).
//
// A handler's answer is a Reply: an Error Response for a handle, or the PDU
// of the response. The bearer's transaction bookkeeping (EndTransaction,
// ReplyWithError, set_mtu) is not part of this model; Exchange MTU returns
// the MTU it would set.

module GattServer {
  import opened Base
  import opened Att
  import opened AttAttribute
  import opened AttDatabase

  const kPrimaryService: int := 0x2800
  const kSecondaryService: int := 0x2801

  datatype Reply = ErrorReply(handle: int, code: ErrorCode) | Response(pdu: seq<byte>)

  // ---------------------------------------------------------------------
  // Exchange MTU (server.cc:37-65)

  /** The size of the Exchange MTU request parameters: the client's receive MTU. */
  const kExchangeMtuParamsSize: int := 2

  /**
   * The answer to an Exchange MTU request with the given payload, and the
   * MTU the bearer takes on: the smaller of the two sides, but never below
   * the LE default.
   */
  function ExchangeMtu(payload: seq<byte>, preferredMtu: int): (r: (Reply, Option<int>))
    requires IsU16(preferredMtu)
    ensures |payload| != kExchangeMtuParamsSize <==> r == (ErrorReply(kInvalidHandle, InvalidPDU), None)
  {
    if |payload| != kExchangeMtuParamsSize then (ErrorReply(kInvalidHandle, InvalidPDU), None)
    else
      var clientMtu := LeValue(payload);
      (Response([kExchangeMTUResponse] + Le16(preferredMtu)), Some(Max(kLEMinMTU, Min(clientMtu, preferredMtu))))
  }

  /**
   * A well-formed request is answered with the server's MTU, and the MTU
   * agreed on is the smaller side's, raised to the LE minimum; it never
   * exceeds what either side can receive unless that is below the minimum.
   */
  lemma ExchangeMtuNegotiates(clientMtu: int, preferredMtu: int)
    requires IsU16(clientMtu) && IsU16(preferredMtu)
    ensures var (reply, mtu) := ExchangeMtu(Le16(clientMtu), preferredMtu);
      && reply.Response? && |reply.pdu| == 3 && reply.pdu[0] == kExchangeMTUResponse
      && LeValue(reply.pdu[1..]) == preferredMtu
      && mtu.Some? && mtu.value >= kLEMinMTU
      && (mtu.value == kLEMinMTU || (mtu.value <= clientMtu && mtu.value <= preferredMtu))
      && (mtu.value == clientMtu || mtu.value == preferredMtu || mtu.value == kLEMinMTU)
  {
    LeRoundTrip(clientMtu, 2);
    LeRoundTrip(preferredMtu, 2);
    var reply := ExchangeMtu(Le16(clientMtu), preferredMtu).0;
    assert reply.pdu[1..] == LeBytes(preferredMtu, 2);
  }

  // ---------------------------------------------------------------------
  // Read By Group Type (server.cc:67-151)

  datatype GroupTypeRequest = GroupTypeRequest(start: int, end: int, groupType: Uuid)

  /** The request parameters: two handles and a 16-bit or a 128-bit group type; any other size is malformed. */
  function ParseGroupTypeRequest(payload: seq<byte>): (r: Option<GroupTypeRequest>)
    ensures r.Some? <==> |payload| == 6 || |payload| == 20
    ensures r.Some? ==> IsU16(r.value.start) && IsU16(r.value.end) && r.value.groupType.Valid()
  {
    if |payload| == 6 then
      Some(GroupTypeRequest(LeValue(payload[0..2]), LeValue(payload[2..4]), Short(LeValue(payload[4..6]))))
    else if |payload| == 20 then
      Some(GroupTypeRequest(LeValue(payload[0..2]), LeValue(payload[2..4]), UuidFrom128(payload[4..20])))
    else None
  }

  /** The parameters of a request for a 16-bit group type. */
  function EncodeGroupTypeRequest(start: int, end: int, groupType: int): (p: seq<byte>)
    requires IsU16(start) && IsU16(end) && IsU16(groupType)
    ensures |p| == 6
  {
    Le16(start) + Le16(end) + Le16(groupType)
  }

  lemma {:induction false} ParseGroupTypeRequestRoundTrip(start: int, end: int, groupType: int)
    requires IsU16(start) && IsU16(end) && IsU16(groupType)
    ensures ParseGroupTypeRequest(EncodeGroupTypeRequest(start, end, groupType))
      == Some(GroupTypeRequest(start, end, Short(groupType)))
  {
    var p := EncodeGroupTypeRequest(start, end, groupType);
    var a, b, c := Le16(start), Le16(end), Le16(groupType);
    assert p == a + b + c;
    assert p[0..2] == a;
    assert p[2..4] == b;
    assert p[4..6] == c;
    LeRoundTrip(start, 2);
    LeRoundTrip(end, 2);
    LeRoundTrip(groupType, 2);
  }

  /** The opcode and the length octet precede the entries. */
  const kGroupHeaderSize: int := 2

  /** An entry's fixed part: the start and end handles of the group. */
  const kGroupEntryHandlesSize: int := 4

  /** The group declaration value (empty for a grouping without one). */
  function DeclBytes(g: AttributeGrouping): (v: seq<byte>)
    ensures |v| == DeclSize(g)
  {
    if |g.attributes| > 0 && g.attributes[0].value.Some? then g.attributes[0].value.value else []
  }

  /** What each entry carries of its declaration value: the first one's size, cut to fit the MTU only when it is alone. */
  function ValueSize(rs: seq<AttributeGrouping>, mtu: int): (n: nat)
    requires |rs| > 0
    ensures n <= DeclSize(rs[0])
    ensures |rs| == 1 ==> n <= mtu - kGroupHeaderSize - kGroupEntryHandlesSize || n == 0
  {
    var maxValueSize := Min(mtu - kGroupHeaderSize - kGroupEntryHandlesSize, kMaxReadByGroupTypeValueLength);
    if |rs| == 1 then (if maxValueSize < 0 then 0 else Min(DeclSize(rs[0]), maxValueSize)) else DeclSize(rs[0])
  }

  /** The entries can carry `n` octets of each declaration value. */
  predicate EntriesFit(rs: seq<AttributeGrouping>, n: nat)
  {
    forall i :: 0 <= i < |rs| ==> n <= DeclSize(rs[i]) && IsU16(rs[i].start) && IsU16(rs[i].end)
  }

  /** One attribute group data entry: start handle, end handle, the first n octets of the declaration value. */
  function EntryBytes(g: AttributeGrouping, n: nat): (e: seq<byte>)
    requires n <= DeclSize(g) && IsU16(g.start) && IsU16(g.end)
    ensures |e| == kGroupEntryHandlesSize + n
  {
    Le16(g.start) + Le16(g.end) + DeclBytes(g)[..n]
  }

  function Entries(rs: seq<AttributeGrouping>, n: nat): seq<byte>
    requires EntriesFit(rs, n)
  {
    if |rs| == 0 then [] else Entries(rs[..|rs| - 1], n) + EntryBytes(rs[|rs| - 1], n)
  }

  lemma EntriesFitPrefix(rs: seq<AttributeGrouping>, n: nat, i: nat)
    requires EntriesFit(rs, n) && i <= |rs|
    ensures EntriesFit(rs[..i], n)
  {
    assert forall j :: 0 <= j < i ==> rs[..i][j] == rs[j];
  }

  /** Entries(rs[..i + 1]) adds entry i to Entries(rs[..i]). */
  lemma EntriesSnoc(rs: seq<AttributeGrouping>, n: nat, i: nat)
    requires EntriesFit(rs, n) && i < |rs|
    ensures EntriesFit(rs[..i], n) && EntriesFit(rs[..i + 1], n)
    ensures Entries(rs[..i + 1], n) == Entries(rs[..i], n) + EntryBytes(rs[i], n)
  {
    EntriesFitPrefix(rs, n, i);
    EntriesFitPrefix(rs, n, i + 1);
    assert rs[..i + 1][..i] == rs[..i];
  }

  lemma MulSucc(k: int, e: int)
    ensures (k + 1) * e == k * e + e
  {
  }

  /** Every entry has the same length, so the entries of rs take |rs| * (4 + n) octets. */
  lemma {:induction false} EntriesLength(rs: seq<AttributeGrouping>, n: nat)
    requires EntriesFit(rs, n)
    ensures |Entries(rs, n)| == |rs| * (kGroupEntryHandlesSize + n)
  {
    if |rs| > 0 {
      EntriesSnoc(rs, n, |rs| - 1);
      assert rs[..|rs|] == rs;
      EntriesLength(rs[..|rs| - 1], n);
      MulSucc(|rs| - 1, kGroupEntryHandlesSize + n);
    }
  }

  /** The entries of a prefix of rs are a prefix of the entries of rs. */
  lemma {:induction false} EntriesPrefix(rs: seq<AttributeGrouping>, n: nat, i: nat)
    requires EntriesFit(rs, n) && i <= |rs|
    ensures EntriesFit(rs[..i], n)
    ensures Entries(rs[..i], n) <= Entries(rs, n)
    decreases |rs| - i
  {
    EntriesFitPrefix(rs, n, i);
    if i == |rs| {
      assert rs[..i] == rs;
    } else {
      EntriesPrefix(rs, n, i + 1);
      EntriesSnoc(rs, n, i);
      var a := Entries(rs[..i], n);
      var b := Entries(rs[..i + 1], n);
      var c := Entries(rs, n);
      assert a <= b;
      assert forall k :: 0 <= k < |a| ==> a[k] == b[k] == c[k];
    }
  }

  /** Entry i sits at offset i * (4 + n). */
  lemma EntryAt(rs: seq<AttributeGrouping>, n: nat, i: nat)
    requires EntriesFit(rs, n) && i < |rs|
    ensures var e := kGroupEntryHandlesSize + n;
      i * e + e <= |Entries(rs, n)| && Entries(rs, n)[i * e .. i * e + e] == EntryBytes(rs[i], n)
  {
    var e := kGroupEntryHandlesSize + n;
    EntriesPrefix(rs, n, i + 1);
    EntriesSnoc(rs, n, i);
    EntriesLength(rs[..i], n);
    EntriesLength(rs[..i + 1], n);
    MulSucc(i, e);
    var before := Entries(rs[..i], n);
    var upto := Entries(rs[..i + 1], n);
    assert upto == Entries(rs, n)[..i * e + e];
    assert upto[i * e ..] == EntryBytes(rs[i], n);
    assert Entries(rs, n)[i * e .. i * e + e] == upto[i * e ..];
  }

  /** The Read By Group Type response: opcode, the entry length as one octet, the entries. */
  function GroupResponsePdu(rs: seq<AttributeGrouping>, n: nat): seq<byte>
    requires EntriesFit(rs, n)
  {
    [kReadByGroupTypeResponse, (kGroupEntryHandlesSize + n) % 256] + Entries(rs, n)
  }

  /** The groupings of a valid database have valid handles, and share the first one's declaration size. */
  lemma ResultsFit(gs: seq<AttributeGrouping>, rs: seq<AttributeGrouping>, mtu: int)
    requires AllValid(gs) && |rs| > 0
    requires forall g :: g in rs ==> g in gs
    requires forall i :: 0 <= i < |rs| ==> DeclSize(rs[i]) == DeclSize(rs[0])
    ensures EntriesFit(rs, ValueSize(rs, mtu))
  {
    forall i | 0 <= i < |rs| ensures IsU16(rs[i].start) && IsU16(rs[i].end) {
      assert rs[i] in gs;
      var j :| 0 <= j < |gs| && gs[j] == rs[i];
      assert gs[j].Valid();
    }
  }

  /** What the handler relies on from a successful search: groupings of the database, of one declaration size, within the payload. */
  lemma GroupSearchFound(gs: seq<AttributeGrouping>, startHandle: int, endHandle: int, groupType: Uuid, maxPayload: nat)
    requires ReadByGroupTypeResult(gs, startHandle, endHandle, groupType, maxPayload).0 == NoError
    ensures var rs := ReadByGroupTypeResult(gs, startHandle, endHandle, groupType, maxPayload).1;
      && |rs| > 0
      && (forall g :: g in rs ==> g in gs)
      && (forall i :: 0 <= i < |rs| ==> DeclSize(rs[i]) == DeclSize(rs[0]))
      && |rs| * Min(GroupCap(rs[0]), maxPayload) <= maxPayload
  {
    ReadByGroupTypeCharacterized(gs, startHandle, endHandle, groupType, maxPayload);
  }

  /** The answer to a Read By Group Type request with the given payload, over an MTU of `mtu`. */
  function GroupTypeReply(gs: seq<AttributeGrouping>, mtu: int, payload: seq<byte>): Reply
    requires AllValid(gs) && kLEMinMTU <= mtu && IsU16(mtu)
  {
    match ParseGroupTypeRequest(payload)
    case None => ErrorReply(kInvalidHandle, InvalidPDU)
    case Some(req) =>
      if req.groupType != Short(kPrimaryService) && req.groupType != Short(kSecondaryService) then
        ErrorReply(req.start, UnsupportedGroupType)
      else
        var (err, rs) := ReadByGroupTypeResult(gs, req.start, req.end, req.groupType, mtu - kGroupHeaderSize);
        if err != NoError then ErrorReply(req.start, err)
        else
          GroupSearchFound(gs, req.start, req.end, req.groupType, mtu - kGroupHeaderSize);
          ResultsFit(gs, rs, mtu);
          Response(GroupResponsePdu(rs, ValueSize(rs, mtu)))
  }

  /**
   * The layout of a response: the opcode, the entry length, then entry i
   * at offset 2 + i * (4 + n): the group's start and end handles, little
   * endian, and the first n octets of its declaration value.
   */
  lemma GroupResponseLayout(rs: seq<AttributeGrouping>, n: nat)
    requires EntriesFit(rs, n)
    ensures var pdu := GroupResponsePdu(rs, n); var e := kGroupEntryHandlesSize + n;
      && |pdu| == kGroupHeaderSize + |rs| * e
      && pdu[0] == kReadByGroupTypeResponse && pdu[1] == e % 256
      && (forall i :: 0 <= i < |rs| ==>
            && kGroupHeaderSize + i * e + e <= |pdu|
            && pdu[kGroupHeaderSize + i * e .. kGroupHeaderSize + i * e + e]
               == Le16(rs[i].start) + Le16(rs[i].end) + DeclBytes(rs[i])[..n])
  {
    var pdu := GroupResponsePdu(rs, n);
    var e := kGroupEntryHandlesSize + n;
    var es := Entries(rs, n);
    EntriesLength(rs, n);
    forall i | 0 <= i < |rs|
      ensures kGroupHeaderSize + i * e + e <= |pdu|
      ensures pdu[kGroupHeaderSize + i * e .. kGroupHeaderSize + i * e + e] == EntryBytes(rs[i], n)
    {
      EntryAt(rs, n, i);
      SliceAfterHeader(pdu[..kGroupHeaderSize], es, i * e, i * e + e);
    }
  }

  /** A slice of the part after a header is the same slice of the whole, shifted by the header. */
  lemma SliceAfterHeader(header: seq<byte>, body: seq<byte>, from: int, to: int)
    requires 0 <= from <= to <= |body|
    ensures (header + body)[|header| + from .. |header| + to] == body[from .. to]
  {
  }

  /**
   * What a Read By Group Type request is answered with: a malformed request
   * gets kInvalidPDU at handle 0; a type other than a service declaration
   * gets kUnsupportedGroupType at the start handle; an error of the
   * database's search is reported at the start handle; otherwise the
   * response lists the groupings the search found (laid out as
   * GroupResponseLayout states), each with the first n octets of its
   * declaration value, where n is the first one's size, cut to what the MTU
   * allows only when it is alone.
   */
  lemma GroupTypeReplyCharacterized(gs: seq<AttributeGrouping>, mtu: int, payload: seq<byte>)
    requires AllValid(gs) && kLEMinMTU <= mtu && IsU16(mtu)
    ensures var reply := GroupTypeReply(gs, mtu, payload);
      var req := ParseGroupTypeRequest(payload);
      && (req.None? ==> reply == ErrorReply(kInvalidHandle, InvalidPDU))
      && (req.Some? ==>
            var (err, rs) := ReadByGroupTypeResult(gs, req.value.start, req.value.end, req.value.groupType, mtu - kGroupHeaderSize);
            if req.value.groupType !in {Short(kPrimaryService), Short(kSecondaryService)} then
              reply == ErrorReply(req.value.start, UnsupportedGroupType)
            else if err != NoError then
              reply == ErrorReply(req.value.start, err)
            else
              && |rs| > 0
              && EntriesFit(rs, ValueSize(rs, mtu))
              && reply == Response(GroupResponsePdu(rs, ValueSize(rs, mtu)))
              && (|rs| == 1 ==> ValueSize(rs, mtu) == Min(DeclSize(rs[0]), Min(mtu - 6, kMaxReadByGroupTypeValueLength)))
              && (|rs| > 1 ==> ValueSize(rs, mtu) == DeclSize(rs[0])))
  {
    var req := ParseGroupTypeRequest(payload);
    if req.Some? {
      var r := req.value;
      var (err, rs) := ReadByGroupTypeResult(gs, r.start, r.end, r.groupType, mtu - kGroupHeaderSize);
      if err == NoError {
        GroupSearchFound(gs, r.start, r.end, r.groupType, mtu - kGroupHeaderSize);
        ResultsFit(gs, rs, mtu);
      }
    }
  }

  lemma EntriesWithinPayload(count: nat, cap: int, maxPayload: int, e: int)
    requires count * Min(cap, maxPayload) <= maxPayload
    requires cap == e <= maxPayload
    ensures count * e <= maxPayload
  {
  }

  /**
   * Service declarations hold UUIDs, at most 16 octets. With such values the
   * checks the handler makes of a successful search hold: the value size is
   * within what the MTU and the entry length allow, the entry length fits
   * its octet (so the response carries it unchanged, by
   * GroupResponseLayout), and the response fits the MTU.
   */
  lemma ServiceEntriesFitMtu(gs: seq<AttributeGrouping>, mtu: int, startHandle: int, endHandle: int, groupType: Uuid)
    requires AllValid(gs) && kLEMinMTU <= mtu && IsU16(mtu)
    requires forall i :: 0 <= i < |gs| ==> DeclSize(gs[i]) <= 16
    ensures var (err, rs) := ReadByGroupTypeResult(gs, startHandle, endHandle, groupType, mtu - kGroupHeaderSize);
      err == NoError ==>
        |rs| > 0 &&
        var n := ValueSize(rs, mtu);
        && n <= Min(mtu - kGroupHeaderSize - kGroupEntryHandlesSize, kMaxReadByGroupTypeValueLength)
        && kGroupEntryHandlesSize + n <= 255
        && kGroupHeaderSize + |rs| * (kGroupEntryHandlesSize + n) <= mtu
  {
    var maxPayload := mtu - kGroupHeaderSize;
    var (err, rs) := ReadByGroupTypeResult(gs, startHandle, endHandle, groupType, maxPayload);
    if err == NoError {
      GroupSearchFound(gs, startHandle, endHandle, groupType, maxPayload);
      var n := ValueSize(rs, mtu);
      var e := kGroupEntryHandlesSize + n;
      assert rs[0] in gs;
      var j :| 0 <= j < |gs| && gs[j] == rs[0];
      assert DeclSize(rs[0]) <= 16;
      if |rs| > 1 {
        EntriesWithinPayload(|rs|, GroupCap(rs[0]), maxPayload, e);
      }
    }
  }

  // ---------------------------------------------------------------------
  // The handlers

  /** Writes one entry into the response buffer at `offset`, leaving what comes before it as it was. */
  method WriteEntry(buf: array<byte>, offset: nat, g: AttributeGrouping, n: nat)
    requires n <= DeclSize(g) && IsU16(g.start) && IsU16(g.end)
    requires offset + kGroupEntryHandlesSize + n <= buf.Length
    modifies buf
    ensures buf[..offset] == old(buf[..offset])
    ensures buf[offset .. offset + kGroupEntryHandlesSize + n] == EntryBytes(g, n)
  {
    var entry := EntryBytes(g, n);
    var j := 0;
    while j < |entry|
      invariant 0 <= j <= |entry|
      invariant buf[..offset] == old(buf[..offset])
      invariant buf[offset .. offset + j] == entry[..j]
    {
      buf[offset + j] := entry[j];
      j := j + 1;
    }
  }

  /** Writing entry i behind the first i entries gives the first i + 1. */
  lemma AppendEntry(b: seq<byte>, offset: nat, header: seq<byte>, rs: seq<AttributeGrouping>, n: nat, i: nat)
    requires EntriesFit(rs, n) && i < |rs|
    requires offset + kGroupEntryHandlesSize + n <= |b|
    requires EntriesFit(rs[..i], n) && EntriesFit(rs[..i + 1], n)
    requires Entries(rs[..i + 1], n) == Entries(rs[..i], n) + EntryBytes(rs[i], n)
    requires b[..offset] == header + Entries(rs[..i], n)
    requires b[offset .. offset + kGroupEntryHandlesSize + n] == EntryBytes(rs[i], n)
    ensures b[..offset + kGroupEntryHandlesSize + n] == header + Entries(rs[..i + 1], n)
  {
    var e := kGroupEntryHandlesSize + n;
    assert b[..offset + e] == b[..offset] + b[offset .. offset + e];
  }

  /** Builds the Read By Group Type response into a buffer of exactly its size, entry by entry. */
  method BuildGroupResponse(rs: seq<AttributeGrouping>, n: nat) returns (buf: array<byte>)
    requires EntriesFit(rs, n)
    ensures buf[..] == GroupResponsePdu(rs, n)
  {
    var e := kGroupEntryHandlesSize + n;
    EntriesLength(rs, n);
    buf := new byte[kGroupHeaderSize + |rs| * e];
    buf[0] := kReadByGroupTypeResponse;
    buf[1] := e % 256;
    var i := 0;
    var offset := kGroupHeaderSize;
    while i < |rs|
      invariant 0 <= i <= |rs|
      invariant EntriesFit(rs[..i], n)
      invariant offset == kGroupHeaderSize + |Entries(rs[..i], n)|
      invariant offset <= buf.Length
      invariant buf[..offset] == [kReadByGroupTypeResponse, e % 256] + Entries(rs[..i], n)
    {
      EntriesPrefix(rs, n, i + 1);
      EntriesSnoc(rs, n, i);
      WriteEntry(buf, offset, rs[i], n);
      AppendEntry(buf[..], offset, [kReadByGroupTypeResponse, e % 256], rs, n, i);
      i := i + 1;
      offset := offset + e;
    }
    assert rs[..i] == rs;
  }

  /** Server::OnExchangeMTU */
  method OnExchangeMtu(payload: seq<byte>, preferredMtu: int) returns (reply: Reply, newMtu: Option<int>)
    requires IsU16(preferredMtu)
    ensures (reply, newMtu) == ExchangeMtu(payload, preferredMtu)
  {
    if |payload| != kExchangeMtuParamsSize {
      return ErrorReply(kInvalidHandle, InvalidPDU), None;
    }
    var clientMtu := LeValue(payload);
    reply := Response([kExchangeMTUResponse] + Le16(preferredMtu));
    newMtu := Some(Max(kLEMinMTU, Min(clientMtu, preferredMtu)));
  }

  /** Server::OnReadByGroupType, over the database `db` and a bearer whose MTU is `mtu`. */
  method OnReadByGroupType(db: Database, mtu: int, payload: seq<byte>) returns (reply: Reply)
    requires db.Valid() && kLEMinMTU <= mtu && IsU16(mtu)
    ensures reply == GroupTypeReply(db.groupings, mtu, payload)
  {
    var req := ParseGroupTypeRequest(payload);
    if req.None? {
      return ErrorReply(kInvalidHandle, InvalidPDU);
    }
    var r := req.value;
    if r.groupType != Short(kPrimaryService) && r.groupType != Short(kSecondaryService) {
      return ErrorReply(r.start, UnsupportedGroupType);
    }
    var err, rs := db.ReadByGroupType(r.start, r.end, r.groupType, mtu - kGroupHeaderSize);
    if err != NoError {
      return ErrorReply(r.start, err);
    }
    GroupSearchFound(db.groupings, r.start, r.end, r.groupType, mtu - kGroupHeaderSize);
    ResultsFit(db.groupings, rs, mtu);
    var n := ValueSize(rs, mtu);
    var buf := BuildGroupResponse(rs, n);
    reply := Response(buf[..]);
  }
}
