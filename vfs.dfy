// The remote-I/O connection of the `fuchsia-vfs` crate (src/vfs.rs): one
// message read from a client channel is validated against its header and
// dispatched; OPEN resolves a path through the filesystem and answers with
// a little-endian status/protocol object.
//
// The constants and macros of the remote-I/O protocol come from the
// `remoteio` module, which is not part of this model: they are the fields
// of `Wire`. Channel reads and writes, the tokio reactor and the Vnode that
// `Vfs::open` resolves are outside the model; `Vfs::open` is represented by
// its answer (`Resolution`).

module Vfs {
  import opened Base
  import opened Zx

  /** Constants and macros of the remote-I/O protocol. */
  datatype Wire = Wire(
    hdrSize: nat,              // ZXRIO_HDR_SZ
    chunkSize: nat,            // FDIO_CHUNK_SIZE
    maxHandles: nat,           // FDIO_MAX_HANDLES
    objectExtra: nat,          // ZXRIO_OBJECT_EXTRA
    pathMax: nat,              // PATH_MAX
    openOp: int,               // ZXRIO_OPEN
    pipelineFlag: bv32,        // O_PIPELINE
    protocolRemote: int,       // FDIO_PROTOCOL_REMOTE
    opOf: int -> int,          // ZXRIO_OP!(op)
    handleCountOf: int -> int) // ZXRIO_HC!(op)
  {
    predicate Valid() { IsU32(protocolRemote) }
  }

  /**
   * A message as received: its bytes, the number of handles that came with
   * it, and the header fields of `zxrio_msg_t` read from those bytes.
   * `arg` is the open flags, an `i32` kept as its bit pattern.
   */
  datatype Message = Message(bytes: seq<byte>, handles: nat, op: int, datalen: int, arg: bv32, mode: int)

  /** The answer of `Vfs::open`: a vnode, or an error status. */
  datatype Resolution = Opened | OpenFailed(status: Status)

  /** The default `Vfs::open` resolves nothing. */
  function DefaultVfsOpen(path: seq<byte>, flags: bv32, mode: int): (r: Resolution)
    ensures r.OpenFailed? && Code(r.status) != 0
  {
    OpenFailed(ErrNotSupported)
  }

  /** The error of an `io::Result`: a Zircon status, or `ErrorKind::InvalidInput`. */
  datatype IoError = StatusError(status: Status) | InvalidInput

  /** The channel a reply is written to: the connection's own, or the one that came with OPEN. */
  datatype Target = Connection | Child

  datatype Reply = Reply(target: Target, bytes: seq<byte>)

  /** The arguments `open` passes to `Vfs::open`. */
  datatype OpenCall = OpenCall(path: seq<byte>, flags: bv32, mode: int)

  /**
   * What handling one message does: the replies written, the call made to
   * `Vfs::open`, the flags the opened vnode is served with, and the error
   * returned (`None` for `Ok(())`). `Panic` is the `expect` that fires when
   * an OPEN message carries no handle.
   */
  datatype Outcome =
    | Outcome(replies: seq<Reply>, openCall: Option<OpenCall>, served: Option<bv32>, error: Option<IoError>)
    | Panic

  /** The decoded form of a `zxrio_object` reply. */
  datatype Object = Object(status: Status, proto: int, extra: seq<byte>)

  /** write_zxrio_object: the bytes written, or `None` for the InvalidInput error. */
  function EncodeObject(w: Wire, status: Status, proto: int, extra: seq<byte>, handles: nat): (r: Option<seq<byte>>)
    requires IsU32(proto)
    ensures r.None? <==> |extra| > w.objectExtra || handles > w.maxHandles
    ensures r.Some? ==> |r.value| == 8 + |extra| && r.value[8..] == extra
  {
    if |extra| > w.objectExtra || handles > w.maxHandles then None
    else Some(Le32(U32OfI32(Code(status))) + Le32(proto) + extra)
  }

  /** Reads a `zxrio_object` back: i32 status, u32 protocol, then the extra bytes. */
  function DecodeObject(b: seq<byte>): (r: Option<Object>)
  {
    if |b| < 8 then None
    else
      match StatusOfCode(I32OfU32(LeValue(b[..4])))
      case None => None
      case Some(s) => Some(Object(s, LeValue(b[4..8]), b[8..]))
  }

  /** Decoding an encoded reply gives back its status, protocol and extra bytes. */
  lemma EncodeDecodeRoundTrip(w: Wire, status: Status, proto: int, extra: seq<byte>, handles: nat)
    requires IsU32(proto)
    requires |extra| <= w.objectExtra && handles <= w.maxHandles
    ensures EncodeObject(w, status, proto, extra, handles).Some?
    ensures DecodeObject(EncodeObject(w, status, proto, extra, handles).value) == Some(Object(status, proto, extra))
  {
    var b := EncodeObject(w, status, proto, extra, handles).value;
    var c := U32OfI32(Code(status));
    assert b[..4] == LeBytes(c, 4);
    assert b[4..8] == LeBytes(proto, 4);
    LeRoundTrip(c, 4);
    LeRoundTrip(proto, 4);
    I32RoundTrip(Code(status));
    CodeRoundTrip(status);
  }

  /** reply_status: an object with the status, protocol 0, no extra bytes and no handles. */
  function StatusReply(w: Wire, status: Status): (b: seq<byte>)
    ensures DecodeObject(b) == Some(Object(status, 0, []))
  {
    EncodeDecodeRoundTrip(w, status, 0, [], 0);
    EncodeObject(w, status, 0, [], 0).value
  }

  predicate Pipelined(w: Wire, flags: bv32) { flags & w.pipelineFlag != 0 }

  /** `flags & !O_PIPELINE`: the flags without the pipeline bit, every other bit kept. */
  function StripPipeline(w: Wire, flags: bv32): (r: bv32)
    ensures !Pipelined(w, r)
    ensures r | (flags & w.pipelineFlag) == flags
  {
    flags & !w.pipelineFlag
  }

  /**
   * Connection::open. The vnode's handle list is empty and the status stays
   * NoError on success, so the two early returns of vfs.rs:153-160 cannot be
   * taken; the writes on the success path ignore their result.
   */
  function Open(w: Wire, path: seq<byte>, flags: bv32, mode: int, resolution: Resolution): (o: Outcome)
    requires w.Valid()
  {
    var openFlags := StripPipeline(w, flags);
    var call := Some(OpenCall(path, openFlags, mode));
    var replies :=
      if Pipelined(w, flags) then []
      else match resolution
        case Opened => [Reply(Child, EncodeObject(w, Ok, w.protocolRemote, [], 0).value)]
        case OpenFailed(e) => [Reply(Child, StatusReply(w, e))];
    var served := if resolution.Opened? then Some(openFlags) else None;
    Outcome(replies, call, served, None)
  }

  /** The four header checks of vfs.rs:96-98. */
  predicate HeaderValid(w: Wire, m: Message)
  {
    && |m.bytes| <= w.chunkSize
    && m.handles <= w.maxHandles
    && |m.bytes| == m.datalen + w.hdrSize
    && m.handles == w.handleCountOf(m.op)
  }

  /** Connection::dispatch for one received message. */
  function Dispatch(w: Wire, m: Message, resolution: Resolution): (o: Outcome)
    requires w.Valid()
    ensures o.Outcome? && o.served.Some? ==> o.openCall.Some? && o.served.value == o.openCall.value.flags
    ensures o.Outcome? ==> |o.replies| <= 1
  {
    if |m.bytes| < w.hdrSize then
      Outcome([], None, None, Some(StatusError(ErrIo)))
    else if !HeaderValid(w, m) then
      Outcome([Reply(Connection, StatusReply(w, ErrInvalidArgs))], None, None, Some(StatusError(ErrInvalidArgs)))
    else if w.opOf(m.op) == w.openOp then
      if m.handles == 0 then Panic
      else if m.datalen < 1 || m.datalen > w.pathMax then
        Outcome([Reply(Child, StatusReply(w, ErrInvalidArgs))], None, None, Some(StatusError(ErrInvalidArgs)))
      else
        Open(w, m.bytes[w.hdrSize..w.hdrSize + m.datalen], m.arg, m.mode, resolution)
    else
      Outcome([Reply(Connection, StatusReply(w, ErrNotSupported))], None, None, None)
  }

  /** A reply on channel `t` that decodes to status `s`. */
  predicate RepliesStatus(o: Outcome, t: Target, s: Status)
  {
    o.Outcome? && |o.replies| == 1 && o.replies[0].target == t
    && DecodeObject(o.replies[0].bytes).Some? && DecodeObject(o.replies[0].bytes).value.status == s
  }

  /** A message shorter than the header is refused with ErrIo and answered with nothing. */
  lemma ShortMessageFailsSilently(w: Wire, m: Message, resolution: Resolution)
    requires w.Valid() && |m.bytes| < w.hdrSize
    ensures var o := Dispatch(w, m, resolution);
      o.Outcome? && o.replies == [] && o.openCall.None? && o.error == Some(StatusError(ErrIo))
  {
  }

  /**
   * For a message at least as long as the header: dispatch answers
   * ErrInvalidArgs on the connection's own channel and fails with it exactly
   * when one of the header checks fails.
   */
  lemma MalformedHeaderRejected(w: Wire, m: Message, resolution: Resolution)
    requires w.Valid() && |m.bytes| >= w.hdrSize
    ensures var o := Dispatch(w, m, resolution);
      (RepliesStatus(o, Connection, ErrInvalidArgs) && o.error == Some(StatusError(ErrInvalidArgs)))
      <==> !HeaderValid(w, m)
  {
  }

  /** An OPEN whose path is empty or longer than PATH_MAX is answered on the child channel, not the parent. */
  lemma OpenBadPathRejectedOnChild(w: Wire, m: Message, resolution: Resolution)
    requires w.Valid() && |m.bytes| >= w.hdrSize && HeaderValid(w, m)
    requires w.opOf(m.op) == w.openOp && m.handles > 0
    requires m.datalen < 1 || m.datalen > w.pathMax
    ensures var o := Dispatch(w, m, resolution);
      RepliesStatus(o, Child, ErrInvalidArgs) && o.openCall.None? && o.error == Some(StatusError(ErrInvalidArgs))
  {
  }

  /** An OPEN whose header allows no handle reaches the `expect` and panics. */
  lemma OpenWithoutHandlePanics(w: Wire, m: Message, resolution: Resolution)
    requires w.Valid() && |m.bytes| >= w.hdrSize && HeaderValid(w, m)
    ensures Dispatch(w, m, resolution).Panic? <==> w.opOf(m.op) == w.openOp && m.handles == 0
  {
  }

  /** Any other opcode is answered ErrNotSupported on the connection's channel, and dispatch succeeds. */
  lemma UnknownOpNotSupported(w: Wire, m: Message, resolution: Resolution)
    requires w.Valid() && |m.bytes| >= w.hdrSize && HeaderValid(w, m)
    requires w.opOf(m.op) != w.openOp
    ensures var o := Dispatch(w, m, resolution);
      RepliesStatus(o, Connection, ErrNotSupported) && o.openCall.None? && o.error.None?
  {
  }

  /**
   * A well-formed OPEN calls `Vfs::open` with the path bytes and the flags
   * without the pipeline bit; a reply is written exactly when the pipeline
   * bit is clear; a resolved vnode is served with the stripped flags.
   */
  lemma OpenStripsPipelineFlag(w: Wire, m: Message, resolution: Resolution)
    requires w.Valid() && |m.bytes| >= w.hdrSize && HeaderValid(w, m)
    requires w.opOf(m.op) == w.openOp && m.handles > 0 && 1 <= m.datalen <= w.pathMax
    ensures var o := Dispatch(w, m, resolution);
      && o.Outcome? && o.error.None?
      && o.openCall == Some(OpenCall(m.bytes[w.hdrSize..], StripPipeline(w, m.arg), m.mode))
      && !Pipelined(w, o.openCall.value.flags)
      && (o.replies == [] <==> Pipelined(w, m.arg))
      && (o.served.Some? <==> resolution.Opened?)
  {
    var path := m.bytes[w.hdrSize..w.hdrSize + m.datalen];
    assert path == m.bytes[w.hdrSize..];
  }

  /** Without the pipeline bit, a successful open answers NoError with FDIO_PROTOCOL_REMOTE. */
  lemma OpenedReplyCarriesProtocol(w: Wire, m: Message)
    requires w.Valid() && |m.bytes| >= w.hdrSize && HeaderValid(w, m)
    requires w.opOf(m.op) == w.openOp && m.handles > 0 && 1 <= m.datalen <= w.pathMax
    requires !Pipelined(w, m.arg)
    ensures var o := Dispatch(w, m, Opened);
      o.Outcome? && |o.replies| == 1 && o.replies[0].target == Child
      && DecodeObject(o.replies[0].bytes) == Some(Object(Ok, w.protocolRemote, []))
  {
    EncodeDecodeRoundTrip(w, Ok, w.protocolRemote, [], 0);
  }

  /** Without the pipeline bit, a failed open answers the filesystem's error with protocol 0, and dispatch still succeeds. */
  lemma FailedOpenReplyCarriesError(w: Wire, m: Message, e: Status)
    requires w.Valid() && |m.bytes| >= w.hdrSize && HeaderValid(w, m)
    requires w.opOf(m.op) == w.openOp && m.handles > 0 && 1 <= m.datalen <= w.pathMax
    requires !Pipelined(w, m.arg)
    ensures var o := Dispatch(w, m, OpenFailed(e));
      o.Outcome? && |o.replies| == 1 && o.replies[0].target == Child
      && DecodeObject(o.replies[0].bytes) == Some(Object(e, 0, []))
      && o.served.None? && o.error.None?
  {
  }

  /** With the default `Vfs::open`, every well-formed unpipelined OPEN is answered ErrNotSupported. */
  lemma DefaultVfsAnswersNotSupported(w: Wire, m: Message)
    requires w.Valid() && |m.bytes| >= w.hdrSize && HeaderValid(w, m)
    requires w.opOf(m.op) == w.openOp && m.handles > 0 && 1 <= m.datalen <= w.pathMax
    requires !Pipelined(w, m.arg)
    ensures var path := m.bytes[w.hdrSize..w.hdrSize + m.datalen];
      RepliesStatus(Dispatch(w, m, DefaultVfsOpen(path, StripPipeline(w, m.arg), m.mode)), Child, ErrNotSupported)
  {
  }
}
