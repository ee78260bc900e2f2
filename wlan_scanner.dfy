// The channel scanner of the WLAN MLME (drivers/wlan/wlan/scanner.cpp): a
// scan request is validated, then each channel of its list is visited in
// turn, the scan timer stepping through probe delay, minimum and maximum
// channel dwell times; when the last channel is done the response, holding
// the neighbouring BSSs whose SSID matches, goes to the service and the
// scanner resets. The timer, the device and the service are parameters
// giving the status of each call; the clock is the `now` parameter.

module WlanScanner {
  import opened Base
  import opened Zx

  /** A time unit (IEEE Std 802.11-2016, section 3.1) is 1024 microseconds; times are in nanoseconds. */
  const kTuNanos: nat := 1024000

  function Tu(x: nat): nat
  {
    x * kTuNanos
  }

  datatype ScanType = Passive | Active | UnknownScanType(code: int)

  /** A scan request: the channels, the dwell times and probe delay in time units, the BSS and scan types, the SSID. */
  datatype ScanRequest = ScanRequest(channelList: seq<nat>, minChannelTime: nat, maxChannelTime: nat,
                                     probeDelay: nat, bssTypeValid: bool, scanType: ScanType, ssid: string)

  datatype ScanResultCode = Success | NotSupported

  /** A neighbouring BSS as the scan reports it. */
  datatype Bss = Bss(bssid: seq<byte>, ssid: string)

  datatype ScanResponse = ScanResponse(resultCode: ScanResultCode, bssDescriptions: seq<Bss>)

  /** The outcome of the calls that deliver a response: whether a buffer was available, the serializer's and the send's status. */
  datatype ServiceIo = ServiceIo(bufferOk: bool, serializeStatus: Status, sendStatus: Status)

  /** The request checks of Start: a non-empty channel list, ordered dwell times, known BSS and scan types. */
  predicate ValidRequest(r: ScanRequest)
  {
    |r.channelList| > 0 && r.maxChannelTime >= r.minChannelTime && r.bssTypeValid && !r.scanType.UnknownScanType?
  }

  /** The BSSs a response reports: all of them when no SSID is asked for, else those with that SSID. */
  function Matching(nbrs: seq<Bss>, ssid: string): (r: seq<Bss>)
  {
    if |nbrs| == 0 then []
    else (if |ssid| == 0 || ssid == nbrs[0].ssid then [nbrs[0]] else []) + Matching(nbrs[1..], ssid)
  }

  /** A BSS is reported exactly when it is a neighbour and its SSID matches a non-empty requested SSID. */
  lemma {:induction false} MatchingExact(nbrs: seq<Bss>, ssid: string, b: Bss)
    ensures b in Matching(nbrs, ssid) <==> b in nbrs && (|ssid| == 0 || b.ssid == ssid)
  {
    if |nbrs| > 0 {
      MatchingExact(nbrs[1..], ssid, b);
      assert nbrs == [nbrs[0]] + nbrs[1..];
    }
  }

  /** With no SSID asked for, every neighbour is reported, in order. */
  lemma {:induction false} MatchingAll(nbrs: seq<Bss>)
    ensures Matching(nbrs, "") == nbrs
  {
    if |nbrs| > 0 {
      MatchingAll(nbrs[1..]);
      assert nbrs == [nbrs[0]] + nbrs[1..];
    }
  }

  /**
   * Upsert of the BSS table: the heard BSS replaces any entry with its BSSID.
   * The table is keyed by BSSID; here the newest entry goes last.
   */
  function Upsert(nbrs: seq<Bss>, b: Bss): (r: seq<Bss>)
    ensures b in r
    ensures forall x :: x in r ==> x == b || (x in nbrs && x.bssid != b.bssid)
    ensures forall x :: x in nbrs && x.bssid != b.bssid ==> x in r
  {
    if |nbrs| == 0 then [b]
    else if nbrs[0].bssid == b.bssid then Upsert(nbrs[1..], b)
    else [nbrs[0]] + Upsert(nbrs[1..], b)
  }

  /**
   * A heard BSS whose SSID matches is reported, and apart from it the report
   * holds what it held before, less the entries the BSS replaced.
   */
  lemma UpsertReported(nbrs: seq<Bss>, b: Bss, ssid: string)
    requires |ssid| == 0 || b.ssid == ssid
    ensures b in Matching(Upsert(nbrs, b), ssid)
    ensures forall x :: x in Matching(Upsert(nbrs, b), ssid) ==> x == b || (x in Matching(nbrs, ssid) && x.bssid != b.bssid)
  {
    MatchingExact(Upsert(nbrs, b), ssid, b);
    forall x | x in Matching(Upsert(nbrs, b), ssid)
      ensures x == b || (x in Matching(nbrs, ssid) && x.bssid != b.bssid)
    {
      MatchingExact(Upsert(nbrs, b), ssid, x);
      MatchingExact(nbrs, ssid, x);
    }
  }

  /** The status SendScanResponse returns for the given service outcome. */
  function SendStatus(io: ServiceIo): Status
  {
    if !io.bufferOk then ErrNoResources
    else if io.serializeStatus != Ok then io.serializeStatus
    else io.sendStatus
  }

  /** InitialTimeout: the end of the minimum dwell time for a passive scan, of the probe delay for an active one. */
  function InitialTimeout(r: ScanRequest, channelStart: int): (t: int)
    ensures r.scanType == Passive ==> t == channelStart + Tu(r.minChannelTime)
    ensures r.scanType != Passive ==> t == channelStart + Tu(r.probeDelay)
  {
    channelStart + (if r.scanType == Passive then Tu(r.minChannelTime) else Tu(r.probeDelay))
  }

  class Scanner {
    /** req_: the running scan's request; the scanner runs iff there is one. */
    var req: Option<ScanRequest>
    /** resp_: the response being built. */
    var resp: Option<ScanResponse>
    var channelIndex: nat
    var channelStart: int
    /** The deadline the scan timer is set to, if it is set. */
    var timer: Option<int>
    /** nbrs_bss_: the BSSs heard on the channels so far, in the map's order. */
    var nbrs: seq<Bss>
    /** The responses handed to the service, in order. */
    var sent: seq<ScanResponse>
    /** The channels the device was switched to, in order. */
    var channelsSet: seq<nat>
    /** The channels a probe request was sent on, in order. */
    var probes: seq<nat>

    /** Idle, the scanner holds no channel position and no neighbours; running, its request is valid and its channel in range. */
    predicate Valid()
      reads this
    {
      && (req.None? ==> channelIndex == 0 && channelStart == 0 && nbrs == [])
      && (req.Some? ==> ValidRequest(req.value) && channelIndex < |req.value.channelList| && resp.Some?)
    }

    predicate IsRunning()
      reads this
    {
      req.Some?
    }

    constructor()
      ensures Valid() && !IsRunning() && resp.None? && timer.None? && sent == [] && channelsSet == [] && probes == []
    {
      req := None;
      resp := None;
      channelIndex := 0;
      channelStart := 0;
      timer := None;
      nbrs := [];
      sent := [];
      channelsSet := [];
      probes := [];
    }

    /** Reset: no request, no response, channel index and start zero, timer cancelled, no neighbours. */
    method Reset()
      modifies this
      ensures Valid() && !IsRunning()
      ensures resp.None? && channelIndex == 0 && channelStart == 0 && timer.None? && nbrs == []
      ensures sent == old(sent) && channelsSet == old(channelsSet) && probes == old(probes)
    {
      req := None;
      resp := None;
      channelIndex := 0;
      channelStart := 0;
      timer := None;
      nbrs := [];
    }

    /**
     * SendScanResponse: the matching neighbours are appended to the
     * response, which is handed to the service if a buffer is available
     * and it serializes; the neighbours are forgotten unless no buffer was
     * available.
     */
    method SendScanResponse(io: ServiceIo) returns (status: Status)
      requires Valid() && resp.Some?
      modifies `resp, `nbrs, `sent
      ensures Valid()
      ensures status == SendStatus(io)
      ensures var ssid := if old(req).Some? then old(req).value.ssid else "";
        resp == Some(old(resp).value.(bssDescriptions := old(resp).value.bssDescriptions + Matching(old(nbrs), ssid)))
      ensures sent == if io.bufferOk && io.serializeStatus == Ok then old(sent) + [resp.value] else old(sent)
      ensures nbrs == if io.bufferOk then [] else old(nbrs)
    {
      var ssid := if req.Some? then req.value.ssid else "";
      resp := Some(resp.value.(bssDescriptions := resp.value.bssDescriptions + Matching(nbrs, ssid)));
      if !io.bufferOk {
        return ErrNoResources;
      }
      status := io.serializeStatus;
      if status == Ok {
        sent := sent + [resp.value];
        status := io.sendStatus;
      }
      nbrs := [];
    }

    /**
     * Start (the MLME's form): UNAVAILABLE while a scan runs; an invalid
     * request is answered at once with NOT_SUPPORTED; otherwise the scan
     * starts on the first channel with the timer at the initial timeout. A
     * failed channel switch or timer answers the scan and resets.
     */
    method Start(r: ScanRequest, now: int, channelStatus: Status, timerStatus: Status, io: ServiceIo)
      returns (status: Status)
      requires Valid()
      modifies this
      ensures Valid()
      ensures old(IsRunning()) ==> status == ErrUnavailable && unchanged(this)
      ensures !old(IsRunning()) && !ValidRequest(r) ==>
        && status == SendStatus(io) && !IsRunning()
        && resp == Some(ScanResponse(NotSupported, []))
        && sent == (if io.bufferOk && io.serializeStatus == Ok then old(sent) + [ScanResponse(NotSupported, [])] else old(sent))
      ensures !old(IsRunning()) && ValidRequest(r) ==>
        channelsSet == old(channelsSet) + [r.channelList[0]]
      ensures !old(IsRunning()) && ValidRequest(r) && channelStatus == Ok && timerStatus == Ok ==>
        && status == Ok && req == Some(r) && channelIndex == 0 && channelStart == now
        && timer == Some(InitialTimeout(r, now)) && resp == Some(ScanResponse(Success, []))
        && sent == old(sent)
      ensures !old(IsRunning()) && ValidRequest(r) && (channelStatus != Ok || timerStatus != Ok) ==>
        && status == (if channelStatus != Ok then channelStatus else timerStatus)
        && !IsRunning() && resp.None? && timer.None?
        && sent == (if io.bufferOk && io.serializeStatus == Ok
                    then old(sent) + [ScanResponse(if channelStatus != Ok then Success else NotSupported, [])]
                    else old(sent))
      ensures probes == old(probes)
    {
      if req.Some? {
        return ErrUnavailable;
      }
      if !ValidRequest(r) {
        resp := Some(ScanResponse(NotSupported, []));
        status := Answer(io);
        return;
      }
      status := BeginScan(r, now, channelStatus, timerStatus, io);
    }

    /** Start with a valid request on an idle scanner: the first channel is set and the timer armed. */
    method BeginScan(r: ScanRequest, now: int, channelStatus: Status, timerStatus: Status, io: ServiceIo)
      returns (status: Status)
      requires Valid() && !IsRunning() && ValidRequest(r)
      modifies this
      ensures Valid()
      ensures channelsSet == old(channelsSet) + [r.channelList[0]] && probes == old(probes)
      ensures channelStatus == Ok && timerStatus == Ok ==>
        && status == Ok && req == Some(r) && channelIndex == 0 && channelStart == now
        && timer == Some(InitialTimeout(r, now)) && resp == Some(ScanResponse(Success, []))
        && sent == old(sent)
      ensures channelStatus != Ok || timerStatus != Ok ==>
        && status == (if channelStatus != Ok then channelStatus else timerStatus)
        && !IsRunning() && resp.None? && timer.None?
        && sent == (if io.bufferOk && io.serializeStatus == Ok
                    then old(sent) + [ScanResponse(if channelStatus != Ok then Success else NotSupported, [])]
                    else old(sent))
    {
      resp := Some(ScanResponse(Success, []));
      req := Some(r);
      channelStart := now;
      var timeout := InitialTimeout(r, now);
      channelsSet := channelsSet + [r.channelList[0]];
      if channelStatus != Ok {
        AbortStart(Success, io);
        return channelStatus;
      }
      if timerStatus != Ok {
        AbortStart(NotSupported, io);
        return timerStatus;
      }
      timer := Some(timeout);
      status := Ok;
    }

    /** SendScanResponse before any neighbour was heard: the response goes out as it is. */
    method Answer(io: ServiceIo) returns (status: Status)
      requires Valid() && resp.Some? && nbrs == []
      modifies `resp, `nbrs, `sent
      ensures Valid() && resp == old(resp) && nbrs == []
      ensures status == SendStatus(io)
      ensures sent == if io.bufferOk && io.serializeStatus == Ok then old(sent) + [resp.value] else old(sent)
    {
      assert Matching(nbrs, "") == [];
      assert req.Some? ==> Matching(nbrs, req.value.ssid) == [];
      status := SendScanResponse(io);
      assert resp.value.bssDescriptions == old(resp).value.bssDescriptions;
    }

    /** A scan that could not start: it is answered with the given result code and the scanner resets. */
    method AbortStart(code: ScanResultCode, io: ServiceIo)
      requires Valid() && nbrs == [] && IsRunning()
      modifies this
      ensures Valid() && !IsRunning() && resp.None? && timer.None?
      ensures sent == if io.bufferOk && io.serializeStatus == Ok then old(sent) + [ScanResponse(code, [])] else old(sent)
      ensures channelsSet == old(channelsSet) && probes == old(probes)
    {
      resp := Some(ScanResponse(code, []));
      var _ := Answer(io);
      Reset();
    }

    /**
     * Start with a caller's response, as written: the response is taken
     * over and marked NOT_SUPPORTED before the running check, so a refused
     * call replaces the running scan's response.
     */
    method StartWithResponseAsWritten(r: ScanRequest, response: ScanResponse, now: int, timerStatus: Status)
      returns (status: Status)
      requires Valid()
      modifies this
      ensures Valid()
      ensures old(IsRunning()) ==>
        && status == ErrUnavailable && req == old(req) && nbrs == old(nbrs) && sent == old(sent)
        && resp == Some(response.(resultCode := NotSupported, bssDescriptions := []))
    {
      resp := Some(response.(resultCode := NotSupported, bssDescriptions := []));
      if req.Some? {
        return ErrUnavailable;
      }
      status := StartWithResponseIdle(r, now, timerStatus);
    }

    /**
     * Start with a caller's response: UNAVAILABLE with nothing changed
     * while a scan runs; INVALID_ARGS for an invalid request; otherwise the
     * scan starts and the status of setting the timer at the initial
     * timeout is returned.
     */
    method StartWithResponse(r: ScanRequest, response: ScanResponse, now: int, timerStatus: Status)
      returns (status: Status)
      requires Valid()
      modifies this
      ensures Valid()
      ensures old(IsRunning()) ==> status == ErrUnavailable && unchanged(this)
      ensures !old(IsRunning()) && !ValidRequest(r) ==>
        status == ErrInvalidArgs && !IsRunning() && resp == Some(ScanResponse(NotSupported, []))
      ensures !old(IsRunning()) && ValidRequest(r) ==>
        && status == timerStatus && req == Some(r) && channelIndex == 0 && channelStart == now
        && resp == Some(ScanResponse(Success, []))
        && timer == (if timerStatus == Ok then Some(InitialTimeout(r, now)) else old(timer))
      ensures sent == old(sent) && channelsSet == old(channelsSet) && probes == old(probes)
    {
      if req.Some? {
        return ErrUnavailable;
      }
      resp := Some(response.(resultCode := NotSupported, bssDescriptions := []));
      status := StartWithResponseIdle(r, now, timerStatus);
    }

    /** The part of Start with a caller's response that follows the running check. */
    method StartWithResponseIdle(r: ScanRequest, now: int, timerStatus: Status) returns (status: Status)
      requires Valid() && !IsRunning()
      modifies `req, `resp, `channelStart, `timer
      ensures Valid()
      ensures !ValidRequest(r) ==> status == ErrInvalidArgs && unchanged(`req, `channelStart, `timer) && resp == old(resp)
      ensures ValidRequest(r) ==>
        && status == timerStatus && req == Some(r) && channelStart == now
        && resp == Some(ScanResponse(Success, []))
        && timer == (if timerStatus == Ok then Some(InitialTimeout(r, now)) else old(timer))
    {
      if !ValidRequest(r) {
        return ErrInvalidArgs;
      }
      resp := Some(ScanResponse(Success, []));
      req := Some(r);
      channelStart := now;
      if timerStatus == Ok {
        timer := Some(InitialTimeout(r, now));
      }
      status := timerStatus;
    }

    /**
     * HandleTimeout: past the maximum dwell time the scan moves to the
     * next channel, or, after the last one, answers and resets; past the
     * minimum dwell time the timer is set to the maximum; an active scan
     * past its probe delay sets the timer to the minimum and probes. A
     * failed timer answers the scan and resets.
     */
    method HandleTimeout(now: int, timerStatus: Status, channelStatus: Status, io: ServiceIo)
      returns (status: Status)
      requires Valid() && IsRunning()
      modifies this
      ensures Valid()
      ensures var r := old(req).value;
        now >= old(channelStart) + Tu(r.maxChannelTime) && old(channelIndex) + 1 >= |r.channelList| ==>
          && status == SendStatus(io) && !IsRunning() && resp.None? && timer.None?
          && sent == (if io.bufferOk && io.serializeStatus == Ok
                      then old(sent) + [old(resp).value.(bssDescriptions := old(resp).value.bssDescriptions + Matching(old(nbrs), r.ssid))]
                      else old(sent))
      ensures var r := old(req).value;
        now >= old(channelStart) + Tu(r.maxChannelTime) && old(channelIndex) + 1 < |r.channelList| && timerStatus == Ok ==>
          && status == channelStatus && req == old(req) && channelIndex == old(channelIndex) + 1
          && channelStart == now && timer == Some(InitialTimeout(r, now))
          && channelsSet == old(channelsSet) + [r.channelList[channelIndex]]
          && probes == old(probes) && nbrs == old(nbrs) && resp == old(resp) && sent == old(sent)
      ensures var r := old(req).value;
        now < old(channelStart) + Tu(r.maxChannelTime) && now >= old(channelStart) + Tu(r.minChannelTime) && timerStatus == Ok ==>
          && status == Ok && req == old(req) && channelIndex == old(channelIndex) && channelStart == old(channelStart)
          && timer == Some(old(channelStart) + Tu(r.maxChannelTime))
          && channelsSet == old(channelsSet) && probes == old(probes)
          && nbrs == old(nbrs) && resp == old(resp) && sent == old(sent)
      ensures var r := old(req).value;
        now < old(channelStart) + Tu(r.minChannelTime) && r.scanType == Active && now >= old(channelStart) + Tu(r.probeDelay) && timerStatus == Ok ==>
          && status == Ok && req == old(req) && channelIndex == old(channelIndex)
          && timer == Some(old(channelStart) + Tu(r.minChannelTime))
          && probes == old(probes) + [r.channelList[channelIndex]] && channelStart == old(channelStart)
          && channelsSet == old(channelsSet) && nbrs == old(nbrs) && resp == old(resp) && sent == old(sent)
      ensures var r := old(req).value;
        now < old(channelStart) + Tu(r.minChannelTime) && !(r.scanType == Active && now >= old(channelStart) + Tu(r.probeDelay)) ==>
          status == Ok && unchanged(this)
      ensures var r, cs := old(req).value, old(channelStart);
        var setsTimer :=
          || (now >= cs + Tu(r.maxChannelTime) && old(channelIndex) + 1 < |r.channelList|)
          || (now < cs + Tu(r.maxChannelTime) && now >= cs + Tu(r.minChannelTime))
          || (now < cs + Tu(r.minChannelTime) && r.scanType == Active && now >= cs + Tu(r.probeDelay));
        setsTimer && timerStatus != Ok ==>
          && status == SendStatus(io) && !IsRunning() && resp.None? && timer.None?
          && sent == (if io.bufferOk && io.serializeStatus == Ok
                      then old(sent) + [old(resp).value.(bssDescriptions := old(resp).value.bssDescriptions + Matching(old(nbrs), r.ssid))]
                      else old(sent))
          && channelsSet == old(channelsSet) && probes == old(probes)
      ensures IsRunning() ==> req == old(req)
    {
      var r := req.value;
      if now >= channelStart + Tu(r.maxChannelTime) {
        // The index moves past the last channel only to be reset.
        var next := channelIndex + 1;
        if next >= |r.channelList| {
          timer := None;
          status := SendScanResponse(io);
          Reset();
          return;
        }
        channelIndex := next;
        channelStart := now;
        if timerStatus != Ok {
          status := TimerFailed(io);
          return;
        }
        timer := Some(InitialTimeout(r, now));
        channelsSet := channelsSet + [r.channelList[channelIndex]];
        return channelStatus;
      }
      if now >= channelStart + Tu(r.minChannelTime) {
        if timerStatus != Ok {
          status := TimerFailed(io);
          return;
        }
        timer := Some(channelStart + Tu(r.maxChannelTime));
        return Ok;
      }
      if r.scanType == Active && now >= channelStart + Tu(r.probeDelay) {
        if timerStatus != Ok {
          status := TimerFailed(io);
          return;
        }
        timer := Some(channelStart + Tu(r.minChannelTime));
        probes := probes + [r.channelList[channelIndex]];
        return Ok;
      }
      status := Ok;
    }

    /** The timer_fail path: the scan is answered and the scanner resets. */
    method TimerFailed(io: ServiceIo) returns (status: Status)
      requires Valid() && resp.Some?
      modifies this
      ensures Valid() && !IsRunning() && resp.None? && timer.None?
      ensures status == SendStatus(io)
      ensures sent == if io.bufferOk && io.serializeStatus == Ok then old(sent) + [old(resp).value.(bssDescriptions :=
        old(resp).value.bssDescriptions + Matching(old(nbrs), if old(req).Some? then old(req).value.ssid else ""))] else old(sent)
      ensures channelsSet == old(channelsSet) && probes == old(probes)
    {
      status := SendScanResponse(io);
      Reset();
    }

    /**
     * HandleBeaconOrProbeResponse: a frame whose BSSID is not its sender's
     * address is ignored; otherwise the BSS is upserted into the table. A
     * failed upsert (`upsertStatus`) is only logged. The answer is always OK.
     */
    method HandleBeaconOrProbeResponse(bssid: seq<byte>, srcAddr: seq<byte>, ssid: string, upsertStatus: Status)
      returns (status: Status)
      requires Valid() && IsRunning()
      modifies `nbrs
      ensures Valid() && status == Ok
      ensures bssid != srcAddr || upsertStatus != Ok ==> nbrs == old(nbrs)
      ensures bssid == srcAddr && upsertStatus == Ok ==> nbrs == Upsert(old(nbrs), Bss(bssid, ssid))
    {
      if bssid != srcAddr {
        return Ok;
      }
      if upsertStatus == Ok {
        nbrs := Upsert(nbrs, Bss(bssid, ssid));
      }
      status := Ok;
    }

    /** HandleError: a fresh NOT_SUPPORTED response is sent. */
    method HandleError(io: ServiceIo) returns (status: Status)
      requires Valid()
      modifies `resp, `nbrs, `sent
      ensures Valid()
      ensures status == SendStatus(io)
      ensures var ssid := if old(req).Some? then old(req).value.ssid else "";
        resp == Some(ScanResponse(NotSupported, Matching(old(nbrs), ssid)))
      ensures sent == if io.bufferOk && io.serializeStatus == Ok then old(sent) + [resp.value] else old(sent)
      ensures nbrs == if io.bufferOk then [] else old(nbrs)
    {
      resp := Some(ScanResponse(NotSupported, []));
      ghost var ssid := if req.Some? then req.value.ssid else "";
      assert [] + Matching(nbrs, ssid) == Matching(nbrs, ssid);
      status := SendScanResponse(io);
    }
  }
}
