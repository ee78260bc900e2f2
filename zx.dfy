// Zircon status codes, with the numeric values of Zircon's `zircon/errors.h`
// (that header is not part of this model). The Rust binding names the same
// codes `NoError`, `ErrNotSupported`, ...

module Zx {
  import opened Base

  datatype Status =
    | Ok
    | ErrInternal
    | ErrNotSupported
    | ErrNoResources
    | ErrNoMemory
    | ErrInvalidArgs
    | ErrBadHandle
    | ErrWrongType
    | ErrOutOfRange
    | ErrBufferTooSmall
    | ErrBadState
    | ErrTimedOut
    | ErrShouldWait
    | ErrPeerClosed
    | ErrNotFound
    | ErrUnavailable
    | ErrAccessDenied
    | ErrIo
    | ErrIoDataIntegrity

  /** The `zx_status_t` value of a status. */
  function Code(s: Status): (c: int)
    ensures IsI32(c)
    ensures c == 0 <==> s == Ok
    ensures c <= 0
  {
    match s
    case Ok => 0
    case ErrInternal => -1
    case ErrNotSupported => -2
    case ErrNoResources => -3
    case ErrNoMemory => -4
    case ErrInvalidArgs => -10
    case ErrBadHandle => -11
    case ErrWrongType => -12
    case ErrOutOfRange => -14
    case ErrBufferTooSmall => -15
    case ErrBadState => -20
    case ErrTimedOut => -21
    case ErrShouldWait => -22
    case ErrPeerClosed => -24
    case ErrNotFound => -25
    case ErrUnavailable => -28
    case ErrAccessDenied => -30
    case ErrIo => -40
    case ErrIoDataIntegrity => -42
  }

  /** The status a `zx_status_t` value names, if any. */
  function StatusOfCode(c: int): (r: Option<Status>)
  {
    if c == 0 then Some(Ok)
    else if c == -1 then Some(ErrInternal)
    else if c == -2 then Some(ErrNotSupported)
    else if c == -3 then Some(ErrNoResources)
    else if c == -4 then Some(ErrNoMemory)
    else if c == -10 then Some(ErrInvalidArgs)
    else if c == -11 then Some(ErrBadHandle)
    else if c == -12 then Some(ErrWrongType)
    else if c == -14 then Some(ErrOutOfRange)
    else if c == -15 then Some(ErrBufferTooSmall)
    else if c == -20 then Some(ErrBadState)
    else if c == -21 then Some(ErrTimedOut)
    else if c == -22 then Some(ErrShouldWait)
    else if c == -24 then Some(ErrPeerClosed)
    else if c == -25 then Some(ErrNotFound)
    else if c == -28 then Some(ErrUnavailable)
    else if c == -30 then Some(ErrAccessDenied)
    else if c == -40 then Some(ErrIo)
    else if c == -42 then Some(ErrIoDataIntegrity)
    else None
  }

  /** Distinct statuses have distinct codes, so a code identifies its status. */
  lemma CodeRoundTrip(s: Status)
    ensures StatusOfCode(Code(s)) == Some(s)
  {
  }
}
