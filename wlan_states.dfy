// The WLAN client state machine (go/src/wlan/wlan/states.go): starting a
// BSS, scanning, joining, authenticating, associating and associated. Each
// handler returns the state the client moves to; the scan state also keeps
// its pause and running flags and a pending scan command. Timeouts are in
// seconds; sending an MLME request is a parameter saying whether it failed.

module WlanStates {
  import opened Base

  const kInfiniteTimeout: nat := 0
  const kStartBssTimeout: nat := 30
  const kDefaultScanInterval: nat := 5
  const kScanTimeout: nat := 30

  /** The scan configuration: the SSID and BSSID to join, the scan interval and the passphrase. */
  datatype Config = Config(ssid: string, bssid: string, scanInterval: int, password: string)

  /** An access point found by a scan. */
  datatype Ap = Ap(ssid: string, bssid: string)

  /** What the client keeps across states: its configuration and the access point it joins. */
  datatype Client = Client(cfg: Option<Config>, ap: Option<Ap>)

  datatype CommandId = CmdScan | CmdSetScanConfig | CmdDisconnect

  /** The argument of a command, as the dynamic type it carries. */
  datatype CommandArg = ScanArg(timeout: int) | ConfigArg(cfg: Config) | OtherArg

  datatype CommandRequest = CommandRequest(id: CommandId, arg: CommandArg)

  datatype ErrCode = InvalidArgs | NotSupported | Internal

  /** A command result sent on the command's reply channel. */
  datatype CommandResult = ScanResults(aps: seq<Ap>) | Done | Failed(code: ErrCode)

  datatype Reply = Reply(cmd: CommandRequest, result: CommandResult)

  datatype State =
    | StartingBss(running: bool)
    | Scanning(pause: bool, running: bool, cmdPending: Option<CommandRequest>)
    | Joining
    | Authenticating
    | Associating
    | Associated

  /**
   * The MLME messages. A scan response carries what CollectScanResults
   * makes of it with no filter and with the configured SSID and BSSID
   * (CollectScanResults is not part of this model).
   */
  datatype MlmeMsg =
    | StartResponse
    | ScanResponse(all: seq<Ap>, matching: seq<Ap>)
    | JoinResponse(success: bool)
    | AuthenticateResponse(success: bool)
    | AssociateResponse(success: bool)
    | DisassociateIndication
    | DeauthenticateResponse
    | DeauthenticateIndication
    | SignalReportIndication
    | EapolIndication
    | EapolResponse
    | OtherMsg

  /** What a handler returns: the next state, the client, the replies sent and whether it reports an error. */
  datatype Transition = Transition(next: State, client: Client, replies: seq<Reply>, err: bool)

  predicate HasSsid(cfg: Option<Config>)
  {
    cfg.Some? && cfg.value.ssid != ""
  }

  /** newScanState: scanning periodically (not paused) exactly when an SSID is configured. */
  function NewScanState(cfg: Option<Config>): (s: State)
    ensures s.Scanning? && !s.running && s.cmdPending.None?
    ensures s.pause <==> !HasSsid(cfg)
  {
    Scanning(!HasSsid(cfg), false, None)
  }

  /** The messages each state handles; any other message is unexpected there. */
  predicate Expected(s: State, msg: MlmeMsg)
  {
    match s
    case StartingBss(_) => msg.StartResponse?
    case Scanning(_, _, _) => msg.ScanResponse?
    case Joining => msg.JoinResponse?
    case Authenticating => msg.AuthenticateResponse?
    case Associating => msg.AssociateResponse?
    case Associated =>
      msg.DisassociateIndication? || msg.DeauthenticateResponse? || msg.DeauthenticateIndication? ||
      msg.SignalReportIndication? || msg.EapolIndication? || msg.EapolResponse?
  }

  /** handleMLMEMsg of every state. */
  function HandleMlmeMsg(s: State, msg: MlmeMsg, c: Client): (t: Transition)
    ensures !Expected(s, msg) ==> t == Transition(s, c, [], true)
    ensures Expected(s, msg) ==> !t.err
  {
    if !Expected(s, msg) then Transition(s, c, [], true)
    else match s
      case StartingBss(_) => Transition(StartingBss(false), c, [], false)
      case Scanning(pause, _, pending) => ScanResponseStep(pause, pending, msg.all, msg.matching, c)
      case Joining =>
        Transition(if msg.success then Authenticating else NewScanState(c.cfg), c, [], false)
      case Authenticating =>
        Transition(if msg.success then Associating else NewScanState(c.cfg), c, [], false)
      case Associating =>
        Transition(if msg.success then Associated else NewScanState(c.cfg), c, [], false)
      case Associated =>
        if msg.DisassociateIndication? then Transition(Associating, c, [], false)
        else if msg.DeauthenticateResponse? then
          Transition(NewScanState(None), c.(cfg := None), [], false)
        else if msg.DeauthenticateIndication? then Transition(Authenticating, c, [], false)
        else Transition(Associated, c, [], false)
  }

  /**
   * The scan state's handling of a scan response: a pending scan command
   * gets the unfiltered results; otherwise, with an SSID configured, the
   * first match is joined, and no match pauses scanning.
   */
  function ScanResponseStep(pause: bool, pending: Option<CommandRequest>, all: seq<Ap>, matching: seq<Ap>,
                            c: Client): (t: Transition)
    ensures !t.err
    ensures t.next.Joining? <==> !(pending.Some? && pending.value.id == CmdScan) && HasSsid(c.cfg) && |matching| > 0
    ensures t.next.Joining? ==> t.client == c.(ap := Some(matching[0]))
    ensures !t.next.Joining? ==> t.client == c && t.next.Scanning? && !t.next.running
  {
    if pending.Some? && pending.value.id == CmdScan then
      Transition(Scanning(pause, false, None), c, [Reply(pending.value, ScanResults(all))], false)
    else if HasSsid(c.cfg) then
      if |matching| > 0 then Transition(Joining, c.(ap := Some(matching[0])), [], false)
      else Transition(Scanning(true, false, pending), c, [], false)
    else Transition(Scanning(pause, false, pending), c, [], false)
  }

  /** The states that work with a chosen access point. */
  predicate NeedsAp(s: State)
  {
    s.Joining? || s.Authenticating? || s.Associating? || s.Associated?
  }

  /** The client has chosen an access point whenever it is past scanning. */
  predicate ApInvariant(s: State, c: Client)
  {
    NeedsAp(s) ==> c.ap.Some?
  }

  /** Every MLME message keeps the access point invariant. */
  lemma HandleMlmeMsgKeepsAp(s: State, msg: MlmeMsg, c: Client)
    requires ApInvariant(s, c)
    ensures var t := HandleMlmeMsg(s, msg, c); ApInvariant(t.next, t.client)
  {
    if Expected(s, msg) && s.Scanning? {
      var t := ScanResponseStep(s.pause, s.cmdPending, msg.all, msg.matching, c);
      assert t.next.Joining? ==> t.client.ap.Some?;
    }
  }

  /**
   * The success path: a successful join, authentication and association
   * lead from joining to associated, and a failure at any step goes back to
   * scanning.
   */
  lemma ConnectSequence(c: Client, join: bool, auth: bool, assoc: bool)
    ensures var t1 := HandleMlmeMsg(Joining, JoinResponse(join), c);
      var t2 := HandleMlmeMsg(t1.next, AuthenticateResponse(auth), t1.client);
      var t3 := HandleMlmeMsg(t2.next, AssociateResponse(assoc), t2.client);
      (join && auth && assoc ==> t3.next == Associated && t3.client == c) &&
      (!join ==> t1.next == NewScanState(c.cfg)) &&
      (join && !auth ==> t2.next == NewScanState(c.cfg)) &&
      (join && auth && !assoc ==> t3.next == NewScanState(c.cfg))
  {
  }

  /**
   * Leaving the associated state: a deauthentication response (the user
   * disconnecting) clears the configuration and scans without pausing
   * for it, a disassociation re-associates, a deauthentication indication
   * re-authenticates; reports and EAPOL frames keep it associated.
   */
  lemma AssociatedTransitions(c: Client, msg: MlmeMsg)
    requires Expected(Associated, msg)
    ensures var t := HandleMlmeMsg(Associated, msg, c);
      && (msg.DeauthenticateResponse? ==> t.next == Scanning(true, false, None) && t.client == c.(cfg := None))
      && (msg.DisassociateIndication? ==> t.next == Associating && t.client == c)
      && (msg.DeauthenticateIndication? ==> t.next == Authenticating && t.client == c)
      && (msg.SignalReportIndication? || msg.EapolIndication? || msg.EapolResponse? ==> t.next == Associated && t.client == c)
  {
  }

  /** Commands are held back while a scan runs and while connecting. */
  function CommandIsDisabled(s: State): (r: bool)
    ensures s.Scanning? ==> (r <==> s.running)
    ensures NeedsAp(s) && !s.Associated? ==> r
    ensures s.StartingBss? || s.Associated? ==> !r
  {
    match s
    case StartingBss(_) => false
    case Scanning(_, running, _) => running
    case Joining => true
    case Authenticating => true
    case Associating => true
    case Associated => false
  }

  /** needTimer: a scan pause timer runs only between scans with an SSID configured. */
  function NeedTimer(s: State, c: Client): (r: (bool, nat))
    ensures r.0 <==> s.Scanning? && !s.running && HasSsid(c.cfg)
    ensures !r.0 ==> r.1 == 0
    ensures r.0 ==> r.1 > 0
    ensures r.0 && c.cfg.value.scanInterval <= 0 ==> r.1 == kDefaultScanInterval
    ensures r.0 && c.cfg.value.scanInterval > 0 ==> r.1 == c.cfg.value.scanInterval
  {
    if !s.Scanning? || s.running || !HasSsid(c.cfg) then (false, 0)
    else if c.cfg.value.scanInterval > 0 then (true, c.cfg.value.scanInterval)
    else (true, kDefaultScanInterval)
  }

  /** timerExpired and handleMLMETimeout: the scan state stops pausing; other states stay as they are. */
  function TimerExpired(s: State): (r: State)
    ensures s.Scanning? ==> r == s.(pause := false)
    ensures !s.Scanning? ==> r == s
  {
    if s.Scanning? then s.(pause := false) else s
  }

  /** The scan request run() sends: the SSID it scans for. */
  datatype RunResult = RunResult(timeout: nat, next: State, sent: Option<string>, err: bool) | RunPanic

  /**
   * scanState.run: a pending scan command scans for any SSID, with its own
   * timeout when positive; otherwise a configured SSID is scanned for
   * unless paused. A failed send returns a zero timeout and leaves the scan
   * not running. A pending command whose argument is not a scan request
   * fails its type assertion.
   */
  function ScanRun(s: State, c: Client, sendFails: bool): (r: RunResult)
    requires s.Scanning?
    ensures r.RunPanic? <==> s.cmdPending.Some? && s.cmdPending.value.id == CmdScan && !s.cmdPending.value.arg.ScanArg?
    ensures r.RunResult? ==>
      (r.sent.Some? <==> (s.cmdPending.Some? && s.cmdPending.value.id == CmdScan) || (HasSsid(c.cfg) && !s.pause))
    ensures r.RunResult? && r.sent.None? ==> r.next == s && !r.err && r.timeout == kScanTimeout
    ensures r.RunResult? && r.sent.Some? ==>
      (r.err <==> sendFails) && r.next == (if sendFails then s else s.(running := true))
    ensures r.RunResult? && r.sent.Some? && s.cmdPending.None? ==> r.sent.value == c.cfg.value.ssid
    ensures r.RunResult? && s.cmdPending.Some? && s.cmdPending.value.id == CmdScan ==>
      r.sent == Some("") &&
      (!sendFails && s.cmdPending.value.arg.timeout > 0 ==> r.timeout == s.cmdPending.value.arg.timeout)
  {
    var scanCmd := s.cmdPending.Some? && s.cmdPending.value.id == CmdScan;
    if scanCmd && !s.cmdPending.value.arg.ScanArg? then RunPanic
    else
      var timeout: nat := if scanCmd && s.cmdPending.value.arg.timeout > 0 then s.cmdPending.value.arg.timeout else kScanTimeout;
      var req: Option<string> :=
        if scanCmd then Some("")
        else if HasSsid(c.cfg) && !s.pause then Some(c.cfg.value.ssid)
        else None;
      if req.None? then RunResult(timeout, s, None, false)
      else if sendFails then RunResult(0, s, req, true)
      else RunResult(timeout, s.(running := true), req, false)
  }

  /**
   * scanState.handleCommand as written: a scan command whose argument is
   * not a scan request gets an INVALID_ARGS reply and is still kept
   * pending.
   */
  function ScanHandleCommandAsWritten(s: State, cmd: CommandRequest, c: Client): (t: Transition)
    requires s.Scanning?
    ensures cmd.id == CmdScan ==> t.next == s.(cmdPending := Some(cmd))
  {
    match cmd.id
    case CmdScan =>
      var replies := if cmd.arg.ScanArg? then [] else [Reply(cmd, Failed(InvalidArgs))];
      Transition(s.(cmdPending := Some(cmd)), c, replies, false)
    case CmdSetScanConfig => SetScanConfig(s, cmd, c)
    case CmdDisconnect => Transition(s, c, [Reply(cmd, Failed(NotSupported))], false)
  }

  /** CmdSetScanConfig in the scan state: a configuration argument replaces the configuration. */
  function SetScanConfig(s: State, cmd: CommandRequest, c: Client): (t: Transition)
    ensures t.next == s && |t.replies| == 1 && !t.err
    ensures cmd.arg.ConfigArg? ==> t.client == c.(cfg := Some(cmd.arg.cfg)) && t.replies[0].result == Done
    ensures !cmd.arg.ConfigArg? ==> t.client == c && t.replies[0].result == Failed(InvalidArgs)
  {
    if cmd.arg.ConfigArg? then Transition(s, c.(cfg := Some(cmd.arg.cfg)), [Reply(cmd, Done)], false)
    else Transition(s, c, [Reply(cmd, Failed(InvalidArgs))], false)
  }

  /** A scan command with a wrong argument is answered INVALID_ARGS, then makes the next run fail. */
  lemma BadScanCommandPanics(c: Client)
    ensures var s := NewScanState(c.cfg);
      var cmd := CommandRequest(CmdScan, OtherArg);
      var t := ScanHandleCommandAsWritten(s, cmd, c);
      t.replies == [Reply(cmd, Failed(InvalidArgs))] && ScanRun(t.next, t.client, false).RunPanic?
  {
  }

  /** scanState.handleCommand, a scan command with a wrong argument answered and dropped. */
  function ScanHandleCommand(s: State, cmd: CommandRequest, c: Client): (t: Transition)
    requires s.Scanning?
    ensures cmd.id == CmdScan && cmd.arg.ScanArg? ==> t.next == s.(cmdPending := Some(cmd)) && t.replies == []
    ensures cmd.id == CmdScan && !cmd.arg.ScanArg? ==> t.next == s && t.replies == [Reply(cmd, Failed(InvalidArgs))]
    ensures cmd.id == CmdDisconnect ==> t.next == s && t.client == c && t.replies == [Reply(cmd, Failed(NotSupported))]
  {
    match cmd.id
    case CmdScan =>
      if cmd.arg.ScanArg? then Transition(s.(cmdPending := Some(cmd)), c, [], false)
      else Transition(s, c, [Reply(cmd, Failed(InvalidArgs))], false)
    case CmdSetScanConfig => SetScanConfig(s, cmd, c)
    case CmdDisconnect => Transition(s, c, [Reply(cmd, Failed(NotSupported))], false)
  }

  /** A pending command is a scan command carrying a scan request. */
  predicate PendingWellTyped(s: State)
  {
    s.Scanning? && s.cmdPending.Some? ==> s.cmdPending.value.id == CmdScan && s.cmdPending.value.arg.ScanArg?
  }

  /** Commands, messages and timers keep the pending command well typed, so run() never fails its type assertion. */
  lemma PendingStaysWellTyped(s: State, cmd: CommandRequest, msg: MlmeMsg, c: Client, sendFails: bool)
    requires PendingWellTyped(s)
    ensures s.Scanning? ==> PendingWellTyped(ScanHandleCommand(s, cmd, c).next)
    ensures PendingWellTyped(HandleMlmeMsg(s, msg, c).next)
    ensures PendingWellTyped(TimerExpired(s))
    ensures s.Scanning? ==> ScanRun(s, c, sendFails).RunResult?
    ensures s.Scanning? && ScanRun(s, c, sendFails).RunResult? ==> PendingWellTyped(ScanRun(s, c, sendFails).next)
  {
  }

  /**
   * associatedState.handleCommand: a disconnect sends a deauthentication
   * request and answers INTERNAL when that fails; other commands are not
   * supported. The state stays associated.
   */
  function AssociatedHandleCommand(cmd: CommandRequest, c: Client, sendFails: bool): (t: Transition)
    ensures t.next == Associated && t.client == c && |t.replies| == 1 && t.replies[0].cmd == cmd
    ensures cmd.id == CmdDisconnect ==> t.replies[0].result == (if sendFails then Failed(Internal) else Done)
    ensures cmd.id != CmdDisconnect ==> t.replies[0].result == Failed(NotSupported)
  {
    if cmd.id == CmdDisconnect then
      Transition(Associated, c, [Reply(cmd, if sendFails then Failed(Internal) else Done)], false)
    else Transition(Associated, c, [Reply(cmd, Failed(NotSupported))], false)
  }

  // ---------------------------------------------------------------------
  // The association RSNE

  datatype CipherType = Tkip | Ccmp128
  datatype AkmType = Psk

  /** The RSNE the client announces: group cipher, pairwise ciphers, AKM suites (all with the default OUI) and capabilities. */
  datatype Rsne = Rsne(group: CipherType, pairwise: seq<CipherType>, akms: seq<AkmType>, caps: nat)

  /**
   * createAssociationRSNE: CCMP-128 pairwise, PSK, zero capabilities, and a
   * CCMP-128 group cipher unless the beacon's group cipher is not CCMP-128,
   * when it falls back to TKIP.
   */
  function CreateAssociationRsne(beaconGroupIsCcmp128: bool): (r: Rsne)
    ensures r.group == Ccmp128 <==> beaconGroupIsCcmp128
    ensures r.group == Tkip <==> !beaconGroupIsCcmp128
    ensures r.pairwise == [Ccmp128] && r.akms == [Psk] && r.caps == 0
  {
    Rsne(if beaconGroupIsCcmp128 then Ccmp128 else Tkip, [Ccmp128], [Psk], 0)
  }

  /** TKIP is never offered as a pairwise cipher, whatever the beacon says. */
  lemma PairwiseNeverTkip(beaconGroupIsCcmp128: bool)
    ensures Tkip !in CreateAssociationRsne(beaconGroupIsCcmp128).pairwise
  {
  }
}
