// The ATT bearer (drivers/bluetooth/lib/att/bearer.cc): classifies PDUs by
// opcode, sends commands and notifications directly, and runs requests and
// indications as transactions, one outstanding at a time per queue.
//
// The L2CAP channel is represented by the log of what the bearer does in
// order: PDUs sent on the channel, transaction callbacks, error callbacks and
// the closed callback. Callbacks are represented by whether they are set.
// Timers are represented by a flag per queue; their expiry is the method
// OnTransactionTimeout.

module AttBearer {
  import opened Base
  import opened Att

  datatype MethodType = Invalid | Request | Response | Command | Notification | Indication | Confirmation

  predicate HasCommandFlag(opcode: byte) { (opcode / kCommandFlag) % 2 == 1 }

  predicate IsRequestCode(opcode: byte)
  {
    opcode in {kExchangeMTURequest, kFindInformationRequest, kFindByTypeValueRequest, kReadByTypeRequest,
               kReadRequest, kReadBlobRequest, kReadMultipleRequest, kReadByGroupTypeRequest, kWriteRequest,
               kPrepareWriteRequest, kExecuteWriteRequest}
  }

  predicate IsResponseCode(opcode: byte)
  {
    opcode in {kErrorResponse, kExchangeMTUResponse, kFindInformationResponse, kFindByTypeValueResponse,
               kReadByTypeResponse, kReadResponse, kReadBlobResponse, kReadMultipleResponse,
               kReadByGroupTypeResponse, kWriteResponse, kPrepareWriteResponse, kExecuteWriteResponse}
  }

  /**
   * The kind of method an opcode names. The command bit wins over
   * everything; an opcode the protocol does not define is a request.
   */
  function GetMethodType(opcode: byte): (r: MethodType)
    ensures HasCommandFlag(opcode) ==> r == Command
    ensures r == Invalid <==> opcode == kInvalidOpCode
    ensures r == Response <==> IsResponseCode(opcode)
    ensures r == Indication <==> opcode == kIndication
    ensures r == Confirmation <==> opcode == kConfirmation
    ensures r == Notification <==> opcode == kNotification
    ensures r == Command <==> HasCommandFlag(opcode)
    ensures r == Request <==>
      (!HasCommandFlag(opcode) && !IsResponseCode(opcode)
       && opcode !in {kInvalidOpCode, kNotification, kIndication, kConfirmation})
  {
    if HasCommandFlag(opcode) then Command
    else if opcode == kInvalidOpCode then Invalid
    else if IsRequestCode(opcode) then Request
    else if IsResponseCode(opcode) then Response
    else if opcode == kNotification then Notification
    else if opcode == kIndication then Indication
    else if opcode == kConfirmation then Confirmation
    else if opcode == kWriteCommand || opcode == kSignedWriteCommand then Command
    else Request
  }

  /**
   * The opcode of the transaction that `endCode` ends: the request one below
   * each response (other than the error response), the indication for a
   * confirmation, and the invalid opcode for anything else.
   */
  function MatchingTransactionCode(endCode: byte): (r: byte)
    ensures r != kInvalidOpCode <==>
      (GetMethodType(endCode) == Response && endCode != kErrorResponse) || endCode == kConfirmation
    ensures r != kInvalidOpCode && endCode != kConfirmation ==> r == endCode - 1 && GetMethodType(r) == Request
    ensures endCode == kConfirmation ==> GetMethodType(r) == Indication
  {
    if endCode == kConfirmation then kIndication
    else if IsResponseCode(endCode) && endCode != kErrorResponse then endCode - 1
    else kInvalidOpCode
  }

  /** A transaction: the opcode of its request or indication and the PDU. */
  datatype Transaction = Transaction(opcode: byte, pdu: seq<byte>)

  /** What the bearer does, in order. */
  datatype Event =
    | Sent(pdu: seq<byte>)
    | Completed(t: Transaction, response: seq<byte>)
    | Failed(t: Transaction, timeout: bool, errorCode: byte, handle: int)
    | Closed

  /** A transaction queue: the outstanding transaction and those waiting behind it. */
  datatype Queue = Queue(current: Option<Transaction>, waiting: seq<Transaction>)

  function Pending(q: Queue): (ts: seq<Transaction>)
    ensures |ts| == |q.waiting| + (if q.current.Some? then 1 else 0)
  {
    (if q.current.Some? then [q.current.value] else []) + q.waiting
  }

  /** The error callback of each of `ts`, in order, with no error code and no handle. */
  function FailAll(ts: seq<Transaction>, timeout: bool): seq<Event>
  {
    if |ts| == 0 then [] else FailAll(ts[..|ts| - 1], timeout) + [Failed(ts[|ts| - 1], timeout, 0, kInvalidHandle)]
  }

  /** Every pending transaction is told of the failure exactly once, in queue order. */
  lemma {:induction false} FailAllNotifiesEach(ts: seq<Transaction>, timeout: bool)
    ensures |FailAll(ts, timeout)| == |ts|
    ensures forall i :: 0 <= i < |ts| ==> FailAll(ts, timeout)[i] == Failed(ts[i], timeout, 0, kInvalidHandle)
  {
    if |ts| > 0 {
      FailAllNotifiesEach(ts[..|ts| - 1], timeout);
    }
  }

  /** TrySendNext: nothing while a transaction is outstanding; otherwise the next one becomes current and is sent. */
  function SendNext(q: Queue): (r: (Queue, seq<Event>))
    ensures Pending(r.0) == Pending(q)
    ensures q.current.Some? ==> r == (q, [])
    ensures r.0.current.None? ==> r.0.waiting == [] && r.1 == []
    ensures q.current.None? && q.waiting != [] ==> r.1 == [Sent(q.waiting[0].pdu)] && r.0.current == Some(q.waiting[0])
  {
    if q.current.Some? || q.waiting == [] then (q, [])
    else (Queue(Some(q.waiting[0]), q.waiting[1..]), [Sent(q.waiting[0].pdu)])
  }

  datatype BearerState = BearerState(
    open: bool, mtu: int, requests: Queue, indications: Queue, log: seq<Event>, hasClosedCallback: bool)

  function QueueOf(s: BearerState, onRequests: bool): Queue
  {
    if onRequests then s.requests else s.indications
  }

  function WithQueue(s: BearerState, onRequests: bool, q: Queue): BearerState
  {
    if onRequests then s.(requests := q) else s.(indications := q)
  }

  /** A transaction the bearer accepted: its PDU starts with its opcode, which is of the queue's kind. */
  predicate WellFormed(t: Transaction, kind: MethodType)
  {
    0 < |t.pdu| && t.pdu[0] == t.opcode && GetMethodType(t.opcode) == kind
  }

  /** A transaction waits only behind an outstanding one, and every pending one is of the queue's kind. */
  predicate QueueOk(q: Queue, kind: MethodType)
  {
    && (q.current.None? ==> q.waiting == [])
    && (forall t :: t in Pending(q) ==> WellFormed(t, kind))
  }

  /** The bearer invariant: requests and indications in their own queues, and nothing pending once closed. */
  predicate Inv(s: BearerState)
  {
    && QueueOk(s.requests, Request)
    && QueueOk(s.indications, Indication)
    && (!s.open ==> s.requests == Queue(None, []) && s.indications == Queue(None, []))
  }

  /** ShutDownInternal closes the bearer, fails every pending transaction, then runs the closed callback. */
  function Close(s: BearerState, timeout: bool): BearerState
  {
    s.(open := false, requests := Queue(None, []), indications := Queue(None, []),
       log := s.log + FailAll(Pending(s.requests), timeout) + FailAll(Pending(s.indications), timeout)
         + (if s.hasClosedCallback then [Closed] else []))
  }

  /** ShutDown: Close (not due to a timeout), and nothing once closed. */
  function CloseIfOpen(s: BearerState): BearerState
  {
    if s.open then Close(s, false) else s
  }

  predicate PacketValid(s: BearerState, pdu: seq<byte>) { |pdu| != 0 && |pdu| <= s.mtu }

  /** Queue a transaction and start it if its queue is idle. */
  function Begin(s: BearerState, onRequests: bool, t: Transaction): BearerState
  {
    var q := QueueOf(s, onRequests);
    var next := SendNext(Queue(q.current, q.waiting + [t]));
    WithQueue(s, onRequests, next.0).(log := s.log + next.1)
  }

  /** SendInternal: the new state and whether the PDU was accepted. */
  function Send(s: BearerState, pdu: seq<byte>, hasCallback: bool, hasErrorCallback: bool): (BearerState, bool)
  {
    if !s.open || !PacketValid(s, pdu) then (s, false)
    else
      var kind := GetMethodType(pdu[0]);
      if kind == Command || kind == Notification then
        if hasCallback || hasErrorCallback then (s, false) else (s.(log := s.log + [Sent(pdu)]), true)
      else if kind != Request && kind != Indication then (s, false)
      else if !hasCallback || !hasErrorCallback then (s, false)
      else (Begin(s, kind == Request, Transaction(pdu[0], pdu)), true)
  }

  /** How a PDU that ends a transaction is read: which opcode it answers, and the error it reports. */
  datatype EndTarget = EndTarget(reportError: bool, target: byte, errorCode: byte, handle: int)

  /** The size of the Error Response parameters: request opcode, handle, error code. */
  const kErrorResponseParamsSize: int := 4

  function EndTargetOf(packet: seq<byte>): (e: EndTarget)
    requires |packet| >= 1
    ensures e.reportError <==> packet[0] == kErrorResponse && |packet| == 1 + kErrorResponseParamsSize
    ensures e.reportError ==>
      e.target == packet[1] && e.handle == LeValue(packet[2..4]) && e.errorCode == packet[4]
    ensures !e.reportError ==> e.errorCode == 0 && e.handle == kInvalidHandle
    ensures packet[0] == kErrorResponse && !e.reportError ==> e.target == kInvalidOpCode
    ensures packet[0] != kErrorResponse ==> e.target == MatchingTransactionCode(packet[0])
  {
    if packet[0] == kErrorResponse then
      if |packet| == 1 + kErrorResponseParamsSize then EndTarget(true, packet[1], packet[4], LeValue(packet[2..4]))
      else EndTarget(false, kInvalidOpCode, 0, kInvalidHandle)
    else EndTarget(false, MatchingTransactionCode(packet[0]), 0, kInvalidHandle)
  }

  /**
   * HandleEndTransaction: a PDU ending no outstanding transaction, or one
   * that does not answer it, shuts the bearer down; otherwise the
   * transaction completes, the next one starts, and then the callback runs.
   */
  function EndTransaction(s: BearerState, onRequests: bool, packet: seq<byte>): BearerState
    requires |packet| >= 1
  {
    var q := QueueOf(s, onRequests);
    if q.current.None? then CloseIfOpen(s)
    else
      var e := EndTargetOf(packet);
      if q.current.value.opcode != e.target then CloseIfOpen(s)
      else
        var next := SendNext(Queue(None, q.waiting));
        var notice := if e.reportError then Failed(q.current.value, false, e.errorCode, e.handle)
                      else Completed(q.current.value, packet);
        WithQueue(s, onRequests, next.0).(log := s.log + next.1 + [notice])
  }

  /** The Error Response PDU: opcode, request opcode, handle (little-endian), error code. */
  function ErrorResponsePdu(requestOpcode: byte, handle: int, code: byte): (p: seq<byte>)
    requires IsU16(handle)
    ensures |p| == 1 + kErrorResponseParamsSize && p[0] == kErrorResponse
    ensures EndTargetOf(p) == EndTarget(true, requestOpcode, code, handle)
  {
    var h := Le16(handle);
    assert LeValue(h) == handle by {
      assert h == LeBytes(handle, 2);
      LeRoundTrip(handle, 2);
    }
    assert ([kErrorResponse, requestOpcode] + h + [code])[2..4] == h;
    [kErrorResponse, requestOpcode] + h + [code]
  }

  /** OnRxBFrame: a PDU of bad length shuts the bearer down; responses and confirmations end transactions; anything else is refused. */
  function Receive(s: BearerState, sdu: seq<byte>): BearerState
  {
    if |sdu| < 1 || |sdu| > s.mtu then CloseIfOpen(s)
    else
      var kind := GetMethodType(sdu[0]);
      if kind == Response then EndTransaction(s, true, sdu)
      else if kind == Confirmation then EndTransaction(s, false, sdu)
      else s.(log := s.log + [Sent(ErrorResponsePdu(sdu[0], 0, ErrorCodeValue(RequestNotSupported)))])
  }

  // ---------------------------------------------------------------------
  // Properties of the bearer
  // ---------------------------------------------------------------------

  lemma ShutDownInternalKeepsInv(s: BearerState, timeout: bool)
    ensures Inv(Close(s, timeout))
  {
  }

  lemma ShutDownKeepsInv(s: BearerState)
    requires Inv(s)
    ensures Inv(CloseIfOpen(s))
  {
  }

  /** Shutting down twice is shutting down once. */
  lemma ShutDownIdempotent(s: BearerState)
    ensures CloseIfOpen(CloseIfOpen(s)) == CloseIfOpen(s)
    ensures !CloseIfOpen(s).open
  {
  }

  /**
   * Shutting an open bearer down fails every pending request, then every
   * pending indication, each exactly once and with no error code, and leaves
   * nothing pending.
   */
  lemma ShutDownNotifiesAll(s: BearerState)
    requires s.open
    ensures var r := CloseIfOpen(s);
      var rs := Pending(s.requests);
      var ns := Pending(s.indications);
      && r.log[..|s.log|] == s.log
      && |r.log| == |s.log| + |rs| + |ns| + (if s.hasClosedCallback then 1 else 0)
      && (forall i :: 0 <= i < |rs| ==> r.log[|s.log| + i] == Failed(rs[i], false, 0, kInvalidHandle))
      && (forall i :: 0 <= i < |ns| ==> r.log[|s.log| + |rs| + i] == Failed(ns[i], false, 0, kInvalidHandle))
      && (s.hasClosedCallback ==> r.log[|r.log| - 1] == Closed)
      && Pending(r.requests) == [] && Pending(r.indications) == []
  {
    var rs, ns := Pending(s.requests), Pending(s.indications);
    var a, b := FailAll(rs, false), FailAll(ns, false);
    var c := if s.hasClosedCallback then [Closed] else [];
    FailAllNotifiesEach(rs, false);
    FailAllNotifiesEach(ns, false);
    AppendedParts(s.log, a, b, c);
  }

  /** Where each part of a log extended by three parts lies. */
  lemma AppendedParts<T>(l: seq<T>, a: seq<T>, b: seq<T>, c: seq<T>)
    ensures var w := l + a + b + c;
      && |w| == |l| + |a| + |b| + |c| && w[..|l|] == l
      && (forall i :: 0 <= i < |a| ==> w[|l| + i] == a[i])
      && (forall i :: 0 <= i < |b| ==> w[|l| + |a| + i] == b[i])
      && (forall i :: 0 <= i < |c| ==> w[|l| + |a| + |b| + i] == c[i])
      && (c != [] ==> w[|w| - 1] == c[|c| - 1])
  {
  }

  lemma BeginKeepsInv(s: BearerState, onRequests: bool, t: Transaction)
    requires Inv(s) && s.open
    requires WellFormed(t, if onRequests then Request else Indication)
    ensures Inv(Begin(s, onRequests, t))
  {
    var q := QueueOf(s, onRequests);
    var q' := Queue(q.current, q.waiting + [t]);
    assert Pending(q') == Pending(q) + [t];
  }

  lemma SendKeepsInv(s: BearerState, pdu: seq<byte>, hasCallback: bool, hasErrorCallback: bool)
    requires Inv(s)
    ensures Inv(Send(s, pdu, hasCallback, hasErrorCallback).0)
  {
    if s.open && PacketValid(s, pdu) {
      var kind := GetMethodType(pdu[0]);
      if (kind == Request || kind == Indication) && hasCallback && hasErrorCallback {
        BeginKeepsInv(s, kind == Request, Transaction(pdu[0], pdu));
      }
    }
  }

  /**
   * Send accepts exactly: on an open bearer, a PDU of valid length that is a
   * command or notification without callbacks, or a request or indication
   * with both callbacks. A refused PDU changes nothing.
   */
  lemma SendAccepts(s: BearerState, pdu: seq<byte>, hasCallback: bool, hasErrorCallback: bool)
    ensures var r := Send(s, pdu, hasCallback, hasErrorCallback);
      && (r.1 <==>
          s.open && PacketValid(s, pdu) &&
           ((GetMethodType(pdu[0]) in {Command, Notification} && !hasCallback && !hasErrorCallback)
            || (GetMethodType(pdu[0]) in {Request, Indication} && hasCallback && hasErrorCallback)))
      && (!r.1 ==> r.0 == s)
      && r.0.open == s.open && r.0.mtu == s.mtu
  {
  }

  /**
   * A request is put on the wire only when no other request is outstanding:
   * behind an outstanding one it waits and nothing is sent; on an idle queue
   * it is sent at once and becomes the outstanding one.
   */
  lemma RequestWaitsForOutstanding(s: BearerState, pdu: seq<byte>)
    requires Inv(s) && s.open && PacketValid(s, pdu) && GetMethodType(pdu[0]) == Request
    ensures var r := Send(s, pdu, true, true).0;
      && r.indications == s.indications
      && (s.requests.current.Some? ==>
           r.log == s.log && r.requests == Queue(s.requests.current, s.requests.waiting + [Transaction(pdu[0], pdu)]))
      && (s.requests.current.None? ==>
           r.log == s.log + [Sent(pdu)] && r.requests == Queue(Some(Transaction(pdu[0], pdu)), []))
  {
  }

  /** The checks HandleEndTransaction makes of the outstanding transaction hold for every state the bearer reaches. */
  lemma OutstandingRequestIsNoIndication(s: BearerState)
    requires Inv(s) && s.requests.current.Some?
    ensures s.requests.current.value.opcode != kIndication
    ensures s.requests.current.value.opcode != kInvalidOpCode
  {
    assert s.requests.current.value in Pending(s.requests);
  }

  lemma EndTransactionKeepsInv(s: BearerState, onRequests: bool, packet: seq<byte>)
    requires Inv(s) && s.open && |packet| >= 1
    ensures Inv(EndTransaction(s, onRequests, packet))
  {
    var q := QueueOf(s, onRequests);
    if q.current.Some? && q.current.value.opcode == EndTargetOf(packet).target {
      assert Pending(Queue(None, q.waiting)) == q.waiting;
      assert forall t :: t in q.waiting ==> t in Pending(q);
    }
  }

  lemma ReceiveKeepsInv(s: BearerState, sdu: seq<byte>)
    requires Inv(s) && s.open
    ensures Inv(Receive(s, sdu))
  {
    if 1 <= |sdu| <= s.mtu {
      var kind := GetMethodType(sdu[0]);
      if kind == Response {
        EndTransactionKeepsInv(s, true, sdu);
      } else if kind == Confirmation {
        EndTransactionKeepsInv(s, false, sdu);
      }
    }
  }

  /**
   * A response that answers the outstanding request completes it: the
   * callback gets the response, the next waiting request is sent first, and
   * the bearer stays open. A response that answers anything else closes it.
   */
  lemma ResponseEndsOutstanding(s: BearerState, sdu: seq<byte>)
    requires Inv(s) && s.open && 1 <= |sdu| <= s.mtu
    requires GetMethodType(sdu[0]) == Response && sdu[0] != kErrorResponse
    requires s.requests.current.Some?
    ensures var r := Receive(s, sdu);
      var t := s.requests.current.value;
      if t.opcode == MatchingTransactionCode(sdu[0]) then
        && r.open
        && r.log == s.log + (if s.requests.waiting == [] then [] else [Sent(s.requests.waiting[0].pdu)]) + [Completed(t, sdu)]
        && Pending(r.requests) == s.requests.waiting
      else
        !r.open && Pending(r.requests) == []
  {
  }

  /**
   * A well-formed error response naming the outstanding request fails it
   * with the reported code and handle and keeps the bearer open; a malformed
   * one, or one naming another request, closes the bearer.
   */
  lemma ErrorResponseEndsOutstanding(s: BearerState, sdu: seq<byte>)
    requires Inv(s) && s.open && 1 <= |sdu| <= s.mtu && sdu[0] == kErrorResponse
    requires s.requests.current.Some?
    ensures var r := Receive(s, sdu);
      var t := s.requests.current.value;
      if |sdu| == 1 + kErrorResponseParamsSize && sdu[1] == t.opcode then
        && r.open
        && r.log[|r.log| - 1] == Failed(t, false, sdu[4], LeValue(sdu[2..4]))
        && Pending(r.requests) == s.requests.waiting
      else
        !r.open
  {
    OutstandingRequestIsNoIndication(s);
  }

  /** A PDU that ends a transaction when none is outstanding closes the bearer. */
  lemma UnexpectedEndClosesBearer(s: BearerState, sdu: seq<byte>)
    requires s.open && 1 <= |sdu| <= s.mtu
    requires (GetMethodType(sdu[0]) == Response && s.requests.current.None?)
          || (GetMethodType(sdu[0]) == Confirmation && s.indications.current.None?)
    ensures !Receive(s, sdu).open
  {
  }

  /** A confirmation always answers the outstanding indication. */
  lemma ConfirmationEndsIndication(s: BearerState, sdu: seq<byte>)
    requires Inv(s) && s.open && 1 <= |sdu| <= s.mtu && sdu[0] == kConfirmation
    requires s.indications.current.Some?
    ensures var r := Receive(s, sdu);
      && r.open
      && r.log[|r.log| - 1] == Completed(s.indications.current.value, sdu)
      && Pending(r.indications) == s.indications.waiting
      && r.requests == s.requests
  {
    assert s.indications.current.value in Pending(s.indications);
  }

  // ---------------------------------------------------------------------
  // The implementation
  // ---------------------------------------------------------------------

  class TransactionQueue {
    var current: Option<Transaction>
    var queue: seq<Transaction>
    var timeoutArmed: bool

    /** The timeout runs exactly while a transaction is outstanding. */
    predicate Valid()
      reads this
    {
      timeoutArmed <==> current.Some?
    }

    function Value(): Queue
      reads this
    {
      Queue(current, queue)
    }

    constructor()
      ensures Valid() && Value() == Queue(None, [])
    {
      current := None;
      queue := [];
      timeoutArmed := false;
    }

    method ClearCurrent() returns (t: Transaction)
      requires Valid() && current.Some?
      modifies this
      ensures Valid() && t == old(current.value) && Value() == Queue(None, old(queue))
    {
      t := current.value;
      timeoutArmed := false;
      current := None;
    }

    method Enqueue(t: Transaction)
      modifies this
      ensures Value() == Queue(old(current), old(queue) + [t]) && timeoutArmed == old(timeoutArmed)
    {
      queue := queue + [t];
    }

    /** Returns what is sent on the channel. */
    method TrySendNext() returns (sent: seq<Event>)
      requires Valid()
      modifies this
      ensures Valid() && (Value(), sent) == SendNext(old(Value()))
    {
      sent := [];
      if current.Some? {
        return;
      }
      if queue != [] {
        current := Some(queue[0]);
        queue := queue[1..];
        timeoutArmed := true;
        sent := [Sent(current.value.pdu)];
      }
    }

    method Reset()
      modifies this
      ensures Valid() && Value() == Queue(None, [])
    {
      timeoutArmed := false;
      queue := [];
      current := None;
    }

    /** Returns the error callbacks invoked, in order. */
    method InvokeErrorAll(timeout: bool) returns (events: seq<Event>)
      ensures events == FailAll(Pending(Value()), timeout)
    {
      var first := if current.Some? then [current.value] else [];
      events := FailAll(first, timeout);
      var i := 0;
      while i < |queue|
        invariant 0 <= i <= |queue|
        invariant events == FailAll(first + queue[..i], timeout)
      {
        assert (first + queue[..i + 1])[..|first| + i] == first + queue[..i];
        events := events + [Failed(queue[i], timeout, 0, kInvalidHandle)];
        i := i + 1;
      }
      assert queue[..i] == queue;
    }
  }

  class Bearer {
    var open: bool
    var mtu: int
    const minMtu: int
    const preferredMtu: int
    const hasClosedCallback: bool
    var log: seq<Event>
    const requests: TransactionQueue
    const indications: TransactionQueue

    function State(): BearerState
      reads this, requests, indications
    {
      BearerState(open, mtu, requests.Value(), indications.Value(), log, hasClosedCallback)
    }

    predicate Sound()
      reads this, requests, indications
    {
      requests != indications && requests.Valid() && indications.Valid()
    }

    predicate Valid()
      reads this, requests, indications
    {
      Sound() && Inv(State())
    }

    /** The MTU starts at the link's minimum; the preferred MTU is the channel's, but never below the minimum. */
    constructor(linkIsLE: bool, txMtu: int, rxMtu: int, hasClosedCallback: bool)
      ensures Valid() && fresh(requests) && fresh(indications)
      ensures minMtu == (if linkIsLE then kLEMinMTU else kBREDRMinMTU)
      ensures preferredMtu >= minMtu && (preferredMtu == minMtu || preferredMtu == Min(txMtu, rxMtu))
      ensures State() == BearerState(true, minMtu, Queue(None, []), Queue(None, []), [], hasClosedCallback)
    {
      minMtu := if linkIsLE then kLEMinMTU else kBREDRMinMTU;
      var m := if linkIsLE then kLEMinMTU else kBREDRMinMTU;
      mtu := m;
      preferredMtu := Max(m, Min(txMtu, rxMtu));
      this.hasClosedCallback := hasClosedCallback;
      open := true;
      log := [];
      requests := new TransactionQueue();
      indications := new TransactionQueue();
    }

    method ShutDown()
      requires Valid()
      modifies this, requests, indications
      ensures Valid() && State() == CloseIfOpen(old(State()))
    {
      if open {
        ShutDownInternal(false);
      }
    }

    method ShutDownInternal(timeout: bool)
      requires Valid() && open
      modifies this, requests, indications
      ensures Valid() && State() == Close(old(State()), timeout)
    {
      open := false;
      var fromRequests := requests.InvokeErrorAll(timeout);
      requests.Reset();
      var fromIndications := indications.InvokeErrorAll(timeout);
      indications.Reset();
      log := log + fromRequests + fromIndications + (if hasClosedCallback then [Closed] else []);
      ShutDownInternalKeepsInv(old(State()), timeout);
    }

    /** The timeout of the outstanding transaction of a queue fires. */
    method OnTransactionTimeout(onRequests: bool)
      requires Valid() && open
      requires (if onRequests then requests else indications).timeoutArmed
      modifies this, requests, indications
      ensures Valid() && State() == Close(old(State()), true)
    {
      ShutDownInternal(true);
    }

    method OnChannelClosed()
      requires Valid()
      modifies this, requests, indications
      ensures Valid() && State() == CloseIfOpen(old(State()))
    {
      ShutDown();
    }

    method StartTransaction(pdu: seq<byte>) returns (ok: bool)
      requires Valid()
      modifies this, requests, indications
      ensures Valid() && (State(), ok) == Send(old(State()), pdu, true, true)
    {
      ok := SendInternal(pdu, true, true);
    }

    method SendWithoutResponse(pdu: seq<byte>) returns (ok: bool)
      requires Valid()
      modifies this, requests, indications
      ensures Valid() && (State(), ok) == Send(old(State()), pdu, false, false)
    {
      ok := SendInternal(pdu, false, false);
    }

    method SendInternal(pdu: seq<byte>, hasCallback: bool, hasErrorCallback: bool) returns (ok: bool)
      requires Valid()
      modifies this, requests, indications
      ensures Valid() && (State(), ok) == Send(old(State()), pdu, hasCallback, hasErrorCallback)
    {
      SendKeepsInv(State(), pdu, hasCallback, hasErrorCallback);
      if !open {
        return false;
      }
      if !IsPacketValid(pdu) {
        return false;
      }
      var kind := GetMethodType(pdu[0]);
      if kind == Command || kind == Notification {
        if hasCallback || hasErrorCallback {
          return false;
        }
        log := log + [Sent(pdu)];
        return true;
      }
      var tq: TransactionQueue;
      if kind == Request {
        tq := requests;
      } else if kind == Indication {
        tq := indications;
      } else {
        return false;
      }
      if !hasCallback || !hasErrorCallback {
        return false;
      }
      tq.Enqueue(Transaction(pdu[0], pdu));
      TryStartNextTransaction(tq);
      ok := true;
    }

    predicate IsPacketValid(packet: seq<byte>)
      reads this
      ensures IsPacketValid(packet) <==> 0 < |packet| <= mtu
    {
      |packet| != 0 && |packet| <= mtu
    }

    method TryStartNextTransaction(tq: TransactionQueue)
      requires Sound() && open && (tq == requests || tq == indications)
      modifies this, tq
      ensures Sound() && open == old(open) && mtu == old(mtu)
      ensures var next := SendNext(old(tq.Value()));
        tq.Value() == next.0 && log == old(log) + next.1
    {
      var sent := tq.TrySendNext();
      log := log + sent;
    }

    method SendErrorResponse(requestOpcode: byte, handle: int, code: ErrorCode)
      requires IsU16(handle)
      modifies `log
      ensures log == old(log) + [Sent(ErrorResponsePdu(requestOpcode, handle, ErrorCodeValue(code)))]
    {
      log := log + [Sent(ErrorResponsePdu(requestOpcode, handle, ErrorCodeValue(code)))];
    }

    method HandleEndTransaction(onRequests: bool, packet: seq<byte>)
      requires Valid() && open && |packet| >= 1
      modifies this, requests, indications
      ensures Valid() && State() == EndTransaction(old(State()), onRequests, packet)
    {
      EndTransactionKeepsInv(State(), onRequests, packet);
      var tq := if onRequests then requests else indications;
      if tq.current.None? {
        ShutDown();
        return;
      }
      var e := EndTargetOf(packet);
      if tq.current.value.opcode != e.target {
        ShutDown();
        return;
      }
      var t := tq.ClearCurrent();
      TryStartNextTransaction(tq);
      if !e.reportError {
        log := log + [Completed(t, packet)];
      } else {
        log := log + [Failed(t, false, e.errorCode, e.handle)];
      }
    }

    method OnRxBFrame(sdu: seq<byte>)
      requires Valid() && open
      modifies this, requests, indications
      ensures Valid() && State() == Receive(old(State()), sdu)
    {
      ReceiveKeepsInv(State(), sdu);
      if |sdu| < 1 {
        ShutDown();
        return;
      }
      if |sdu| > mtu {
        ShutDown();
        return;
      }
      var kind := GetMethodType(sdu[0]);
      if kind == Response {
        HandleEndTransaction(true, sdu);
      } else if kind == Confirmation {
        HandleEndTransaction(false, sdu);
      } else {
        SendErrorResponse(sdu[0], 0, RequestNotSupported);
      }
    }
  }
}
