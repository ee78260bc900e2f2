// Input handling of the low-level UI crate (fuchsia-llui/src/input.rs):
// boot-protocol mouse reports are split into Mouse events, the protocol an
// input device reports picks its report handler, and a Cursor clamps its
// position to the screen and reports, per button, whether it went down, up
// or stayed. Device enumeration, ioctls and the event channel are I/O; the
// bytes a device delivers are parameters.

module LluiInput {
  import opened Base

  // ---------------------------------------------------------------------
  // Reports and handlers

  datatype InputEvent =
    | Mouse(source: int, deltaX: int, deltaY: int, buttons: int)
    | Keyboard(keycode: byte, pressed: bool)

  /** The size of a boot mouse report: buttons, rel_x, rel_y. */
  const kMouseReportSize: nat := 3

  /** The event of the mouse report at `index`: signed deltas, unsigned buttons. */
  function MouseEvent(source: int, buffer: seq<byte>, index: nat): InputEvent
    requires index + kMouseReportSize <= |buffer|
  {
    Mouse(source, AsInt8(buffer[index + 1]), AsInt8(buffer[index + 2]), buffer[index])
  }

  /** The events of the whole reports in a buffer, in order. */
  function MouseEvents(source: int, buffer: seq<byte>): (r: seq<InputEvent>)
    ensures |r| == |buffer| / kMouseReportSize
  {
    if |buffer| < kMouseReportSize then []
    else [MouseEvent(source, buffer, 0)] + MouseEvents(source, buffer[kMouseReportSize..])
  }

  /**
   * The event read from a last report of two bytes: buttons and rel_x from
   * the buffer, rel_y from the byte just past its end (`pastEnd`), which the
   * unsafe read of the whole report takes.
   */
  function TruncatedEvent(source: int, buffer: seq<byte>, pastEnd: byte): InputEvent
    requires |buffer| >= 2
  {
    Mouse(source, AsInt8(buffer[|buffer| - 1]), AsInt8(pastEnd), buffer[|buffer| - 2])
  }

  /**
   * What MouseReportHandler::parse sends: one Mouse event per whole report
   * and, when the usize subtraction wraps instead of panicking (overflow
   * checks off, as in a release build) and two bytes are left over, one
   * more event read partly past the end.
   */
  function SentEvents(source: int, buffer: seq<byte>, overflowChecks: bool, pastEnd: byte): (r: seq<InputEvent>)
    ensures |r| == |buffer| / kMouseReportSize + (if !overflowChecks && |buffer| % kMouseReportSize == 2 then 1 else 0)
  {
    MouseEvents(source, buffer) +
      (if !overflowChecks && |buffer| % kMouseReportSize == 2 then [TruncatedEvent(source, buffer, pastEnd)] else [])
  }

  /**
   * MouseReportHandler::parse: one Mouse event per 3-byte report, in
   * order. A buffer whose length is not a multiple of 3 panics at its last,
   * partial report: with one byte left the two-byte slice is out of range;
   * with two left the slice fits, and the subtraction from byte_length
   * underflows, which panics when overflow checks are on and otherwise
   * wraps, so the loop sends one more event and then panics on the slice
   * past the end. `overflowChecks` is the build's setting and `pastEnd`
   * the byte past the buffer that the unsafe read takes.
   */
  method ParseMouse(source: int, buffer: seq<byte>, overflowChecks: bool, pastEnd: byte)
    returns (events: seq<InputEvent>, panicked: bool)
    requires |buffer| < TWO_64
    ensures panicked <==> |buffer| % kMouseReportSize != 0
    ensures events == SentEvents(source, buffer, overflowChecks, pastEnd)
  {
    var byteLength := |buffer|;
    var index := 0;
    events := [];
    while byteLength > 0
      invariant 0 <= byteLength < TWO_64
      invariant InReports(source, buffer, index, byteLength, events) ||
                Wrapped(source, buffer, overflowChecks, pastEnd, index, byteLength, events)
      decreases |buffer| + 2 - index
    {
      if index + 2 > |buffer| {
        // The slice buffer[index..index + 2] is out of range.
        return events, true;
      }
      var third := if index + 2 < |buffer| then buffer[index + 2] else pastEnd;
      var event := Mouse(source, AsInt8(buffer[index + 1]), AsInt8(third), buffer[index]);
      if byteLength < kMouseReportSize {
        if overflowChecks {
          return events, true;
        }
        WrapStep(source, buffer, pastEnd, index, events);
        events := events + [event];
        byteLength := byteLength + TWO_64 - kMouseReportSize;
      } else {
        ReportStep(source, buffer, index, events);
        events := events + [event];
        byteLength := byteLength - kMouseReportSize;
      }
      index := index + kMouseReportSize;
    }
    if InReports(source, buffer, index, byteLength, events) {
      assert buffer[index..] == [];
    }
    panicked := false;
  }

  /** The loop over whole reports: `events` are those of the reports before `index`. */
  predicate InReports(source: int, buffer: seq<byte>, index: nat, byteLength: int, events: seq<InputEvent>)
  {
    && 0 <= byteLength && index + byteLength == |buffer| && index % kMouseReportSize == 0
    && events + MouseEvents(source, buffer[index..]) == MouseEvents(source, buffer)
  }

  /** After byte_length wrapped: everything is sent and the next slice is past the end. */
  predicate Wrapped(source: int, buffer: seq<byte>, overflowChecks: bool, pastEnd: byte, index: nat, byteLength: int,
                    events: seq<InputEvent>)
  {
    && !overflowChecks && |buffer| % kMouseReportSize == 2 && index == |buffer| + 1 && byteLength == TWO_64 - 1
    && events == SentEvents(source, buffer, overflowChecks, pastEnd)
  }

  lemma ReportStep(source: int, buffer: seq<byte>, index: nat, events: seq<InputEvent>)
    requires InReports(source, buffer, index, |buffer| - index, events) && index + kMouseReportSize <= |buffer|
    ensures InReports(source, buffer, index + kMouseReportSize, |buffer| - index - kMouseReportSize,
                      events + [Mouse(source, AsInt8(buffer[index + 1]), AsInt8(buffer[index + 2]), buffer[index])])
  {
    assert buffer[index..][kMouseReportSize..] == buffer[index + kMouseReportSize..];
  }

  lemma WrapStep(source: int, buffer: seq<byte>, pastEnd: byte, index: nat, events: seq<InputEvent>)
    requires index + 2 == |buffer| && InReports(source, buffer, index, 2, events)
    ensures |buffer| % kMouseReportSize == 2
    ensures events + [Mouse(source, AsInt8(buffer[index + 1]), AsInt8(pastEnd), buffer[index])]
            == SentEvents(source, buffer, false, pastEnd)
  {
    assert MouseEvents(source, buffer[index..]) == [];
  }

  /** The report a Mouse event with in-range fields comes from. */
  function EncodeMouse(e: InputEvent): seq<byte>
    requires e.Mouse? && -128 <= e.deltaX < 128 && -128 <= e.deltaY < 128 && 0 <= e.buttons < 256
  {
    [e.buttons, (e.deltaX + 256) % 256, (e.deltaY + 256) % 256]
  }

  predicate Encodable(source: int, events: seq<InputEvent>)
  {
    forall i :: 0 <= i < |events| ==>
      events[i].Mouse? && events[i].source == source &&
      -128 <= events[i].deltaX < 128 && -128 <= events[i].deltaY < 128 && 0 <= events[i].buttons < 256
  }

  function EncodeMice(source: int, events: seq<InputEvent>): (r: seq<byte>)
    requires Encodable(source, events)
    ensures |r| == kMouseReportSize * |events|
  {
    if |events| == 0 then [] else EncodeMouse(events[0]) + EncodeMice(source, events[1..])
  }

  /** Parsing the reports of a run of mouse events gives the events back. */
  lemma {:induction false} ParseEncodeRoundTrip(source: int, events: seq<InputEvent>)
    requires Encodable(source, events)
    ensures MouseEvents(source, EncodeMice(source, events)) == events
  {
    if |events| > 0 {
      var b := EncodeMice(source, events);
      assert b[kMouseReportSize..] == EncodeMice(source, events[1..]);
      ParseEncodeRoundTrip(source, events[1..]);
    }
  }

  datatype ReportHandler = KeyboardHandler | MouseHandler

  /** InputHandler::new_handler: protocol 1 is a keyboard, 2 a mouse, anything else unsupported. */
  function NewHandler(protocol: int): (r: Option<ReportHandler>)
    ensures r == Some(KeyboardHandler) <==> protocol == 1
    ensures r == Some(MouseHandler) <==> protocol == 2
    ensures r.None? <==> protocol != 1 && protocol != 2
  {
    if protocol == 1 then Some(KeyboardHandler)
    else if protocol == 2 then Some(MouseHandler)
    else None
  }

  /** A handler's parse: the keyboard handler produces nothing. */
  method Parse(h: ReportHandler, source: int, buffer: seq<byte>, overflowChecks: bool, pastEnd: byte)
    returns (events: seq<InputEvent>, panicked: bool)
    requires |buffer| < TWO_64
    ensures h == KeyboardHandler ==> events == [] && !panicked
    ensures h == MouseHandler ==>
      events == SentEvents(source, buffer, overflowChecks, pastEnd) && (panicked <==> |buffer| % kMouseReportSize != 0)
  {
    match h {
      case KeyboardHandler =>
        return [], false;
      case MouseHandler =>
        events, panicked := ParseMouse(source, buffer, overflowChecks, pastEnd);
    }
  }

  /**
   * InputDevice::check_for_events: false when the report-size ioctl fails
   * (`rc` negative) or reports less than one byte; otherwise a zeroed
   * buffer of the maximum report size receives the bytes read, and the
   * whole buffer, not only the bytes read, is parsed when anything was read.
   */
  method CheckForEvents(h: ReportHandler, source: int, rc: int, maxReportLen: int, read: seq<byte>,
                        overflowChecks: bool, pastEnd: byte)
    returns (ok: bool, events: seq<InputEvent>, panicked: bool)
    requires maxReportLen < 0x8000_0000_0000_0000
    requires maxReportLen >= 1 ==> |read| <= maxReportLen
    ensures ok <==> rc >= 0 && maxReportLen >= 1
    ensures !ok || |read| == 0 ==> events == [] && !panicked
    ensures ok && |read| > 0 && h == MouseHandler ==>
      && events == SentEvents(source, read + seq(maxReportLen - |read|, _ => 0), overflowChecks, pastEnd)
      && (panicked <==> maxReportLen % kMouseReportSize != 0)
    ensures h == KeyboardHandler ==> events == [] && !panicked
  {
    if rc < 0 || maxReportLen < 1 {
      return false, [], false;
    }
    var buffer: seq<byte> := read + seq(maxReportLen - |read|, _ => 0);
    ok, events, panicked := true, [], false;
    if |read| > 0 {
      events, panicked := Parse(h, source, buffer, overflowChecks, pastEnd);
    }
  }

  // ---------------------------------------------------------------------
  // The cursor

  datatype ButtonAction = NoChange | Down | Up

  const kButtonCount: nat := 8

  /** The masks of buttons 0..8: bit i for button i. */
  const kMasks: seq<bv32> := [1, 2, 4, 8, 16, 32, 64, 128, 256]

  /** The mask of button i. */
  function Mask(i: nat): bv32
    requires i <= kButtonCount
  {
    kMasks[i]
  }

  /** Each mask is the one before shifted left once, as create_event steps it. */
  lemma MaskStep(i: nat)
    requires i < kButtonCount
    ensures Mask(i + 1) == Mask(i) << 1
  {
    assert i == 0 || i == 1 || i == 2 || i == 3 || i == 4 || i == 5 || i == 6 || i == 7;
  }

  /** Whether button i is down in the button set `v` (the bit pattern of an `i32`). */
  predicate Pressed(v: bv32, i: nat)
    requires i < kButtonCount
  {
    v & Mask(i) != 0
  }

  /** The action create_event records for button i when the buttons go from `o` to `n`. */
  function ButtonActionOf(o: bv32, n: bv32, i: nat): ButtonAction
    requires i < kButtonCount
  {
    ActionFor(o, n, Mask(i))
  }

  /** The action for the button of mask m: a change of its bit, to set (Down) or to clear (Up). */
  function ActionFor(o: bv32, n: bv32, m: bv32): ButtonAction
  {
    ChangeAction(o ^ n, n, m)
  }

  /** The action for the button of mask m, given the bits that changed and the new bits. */
  function ChangeAction(changed: bv32, n: bv32, m: bv32): ButtonAction
  {
    if HasBit(changed, m) then (if HasBit(n, m) then Down else Up) else NoChange
  }

  /** Whether `x` has any of the bits of `m`. */
  predicate HasBit(x: bv32, m: bv32)
  {
    x & m != 0
  }

  /** A mask of a single bit. */
  predicate SingleBit(m: bv32)
  {
    m != 0 && m & (m - 1) == 0
  }

  /** Under a single-bit mask, the exclusive or of two sets has the bit iff exactly one of them has it. */
  lemma XorBit(o: bv32, n: bv32, m: bv32)
    requires SingleBit(m)
    ensures (o ^ n) & m != 0 <==> (o & m != 0) != (n & m != 0)
  {
  }

  /** The masks of buttons 0..7 are single bits. */
  lemma MaskSingle(i: nat)
    requires i < kButtonCount
    ensures SingleBit(Mask(i))
  {
    assert i == 0 || i == 1 || i == 2 || i == 3 || i == 4 || i == 5 || i == 6 || i == 7;
  }

  /** Under a single-bit mask, the action is Down iff the bit goes from clear to set, Up iff from set to clear. */
  lemma ActionForIff(o: bv32, n: bv32, m: bv32)
    requires SingleBit(m)
    ensures ActionFor(o, n, m) == Down <==> o & m == 0 && n & m != 0
    ensures ActionFor(o, n, m) == Up <==> o & m != 0 && n & m == 0
    ensures ActionFor(o, n, m) == NoChange <==> (o & m != 0 <==> n & m != 0)
  {
    XorBit(o, n, m);
  }

  /** A button goes down iff it was up and is down, up iff it was down and is up, and stays otherwise. */
  lemma ButtonActionIff(o: bv32, n: bv32, i: nat)
    requires i < kButtonCount
    ensures ButtonActionOf(o, n, i) == Down <==> !Pressed(o, i) && Pressed(n, i)
    ensures ButtonActionOf(o, n, i) == Up <==> Pressed(o, i) && !Pressed(n, i)
    ensures ButtonActionOf(o, n, i) == NoChange <==> Pressed(o, i) == Pressed(n, i)
  {
    MaskSingle(i);
    ActionForIff(o, n, Mask(i));
    assert ActionFor(o, n, Mask(i)) == Down <==> o & Mask(i) == 0 && n & Mask(i) != 0;
    assert ActionFor(o, n, Mask(i)) == Up <==> o & Mask(i) != 0 && n & Mask(i) == 0;
    assert ActionFor(o, n, Mask(i)) == NoChange <==> (o & Mask(i) != 0 <==> n & Mask(i) != 0);
  }

  /** Whether a button is down after the action. */
  function Apply(pressed: bool, a: ButtonAction): bool
  {
    match a
    case NoChange => pressed
    case Down => true
    case Up => false
  }

  /** Applying each button's recorded action to its old state gives its new state. */
  lemma ActionRestores(o: bv32, n: bv32, i: nat)
    requires i < kButtonCount
    ensures Apply(Pressed(o, i), ButtonActionOf(o, n, i)) == Pressed(n, i)
  {
    ButtonActionIff(o, n, i);
  }

  /** The eight recorded actions determine the new buttons' low eight bits. */
  lemma ActionsDetermine(o: bv32, n1: bv32, n2: bv32)
    requires forall i :: 0 <= i < kButtonCount ==> ButtonActionOf(o, n1, i) == ButtonActionOf(o, n2, i)
    ensures n1 & 0xFF == n2 & 0xFF
  {
    forall i | 0 <= i < kButtonCount
      ensures n1 & kMasks[i] == n2 & kMasks[i]
    {
      ActionRestores(o, n1, i);
      ActionRestores(o, n2, i);
      MaskSingle(i);
      SingleBitAgree(n1, n2, Mask(i));
    }
    assert kMasks[0] == 1 && kMasks[1] == 2 && kMasks[2] == 4 && kMasks[3] == 8;
    assert kMasks[4] == 16 && kMasks[5] == 32 && kMasks[6] == 64 && kMasks[7] == 128;
    assert n1 & kMasks[0] == n2 & kMasks[0] && n1 & kMasks[1] == n2 & kMasks[1];
    assert n1 & kMasks[2] == n2 & kMasks[2] && n1 & kMasks[3] == n2 & kMasks[3];
    assert n1 & kMasks[4] == n2 & kMasks[4] && n1 & kMasks[5] == n2 & kMasks[5];
    assert n1 & kMasks[6] == n2 & kMasks[6] && n1 & kMasks[7] == n2 & kMasks[7];
    LowByte(n1, n2);
  }

  /** Two sets that agree on whether a single bit is set agree on that bit. */
  lemma SingleBitAgree(a: bv32, b: bv32, m: bv32)
    requires SingleBit(m) && (a & m != 0 <==> b & m != 0)
    ensures a & m == b & m
  {
  }

  /** Two sets that agree on each of the low eight bits agree on the low byte. */
  lemma LowByte(a: bv32, b: bv32)
    requires a & 1 == b & 1 && a & 2 == b & 2 && a & 4 == b & 4 && a & 8 == b & 8
    requires a & 16 == b & 16 && a & 32 == b & 32 && a & 64 == b & 64 && a & 128 == b & 128
    ensures a & 0xFF == b & 0xFF
  {
  }

  /** One button of create_event's loop: its action given the changed buttons, the new ones and its mask. */
  method ButtonActionAt(n: bv32, changed: bv32, mask: bv32) returns (action: ButtonAction)
    ensures action == ChangeAction(changed, n, mask)
  {
    if HasBit(changed, mask) {
      action := if HasBit(n, mask) then Down else Up;
    } else {
      action := NoChange;
    }
  }

  /**
   * The button loop of create_event: for each of the eight buttons, from
   * mask 1 upwards, the action its bit's change between `o` and `n` calls
   * for.
   */
  method ButtonActions(o: bv32, n: bv32) returns (actions: map<nat, ButtonAction>)
    ensures forall i :: i in actions <==> 0 <= i < kButtonCount
    ensures forall i :: 0 <= i < kButtonCount ==> actions[i] == ButtonActionOf(o, n, i)
  {
    var changed := o ^ n;
    actions := map[];
    var mask: bv32 := 1;
    var i := 0;
    while i < kButtonCount
      invariant 0 <= i <= kButtonCount && mask == Mask(i) && changed == o ^ n
      invariant forall j :: j in actions <==> 0 <= j < i
      invariant forall j :: 0 <= j < i ==> actions[j] == ButtonActionOf(o, n, j)
    {
      var action := ButtonActionAt(n, changed, mask);
      assert action == ButtonActionOf(o, n, i);
      actions := actions[i := action];
      MaskStep(i);
      mask := mask << 1;
      i := i + 1;
    }
  }

  /** The clamped coordinate: at most the maximum, then at least 0. */
  function Clamp(v: int, max: int): (r: int)
    ensures max >= 0 ==> 0 <= r <= max
    ensures max < 0 ==> r == 0
    ensures 0 <= v <= max ==> r == v
  {
    Max(0, Min(max, v))
  }

  class Cursor {
    const maxX: int
    const maxY: int
    var x: int
    var y: int
    /** The buttons as the bit pattern of their `i32`. */
    var buttons: bv32

    /** The position stays on the screen (at 0 for a negative maximum), and every field is an `i32`. */
    predicate Valid()
      reads this
    {
      IsI32(maxX) && IsI32(maxY) &&
      0 <= x <= Max(0, maxX) && 0 <= y <= Max(0, maxY)
    }

    constructor(maxX: int, maxY: int)
      requires IsI32(maxX) && IsI32(maxY)
      ensures Valid() && this.maxX == maxX && this.maxY == maxY && x == 0 && y == 0 && buttons == 0
    {
      this.maxX := maxX;
      this.maxY := maxY;
      x, y, buttons := 0, 0, 0;
    }

    /**
     * Cursor::create_event: the position moves by the deltas and is
     * clamped to the screen; each of the eight buttons gets the action its
     * bit's change calls for; the buttons become the new ones.
     */
    method CreateEvent(eventSource: int, deltaX: int, deltaY: int, newButtons: bv32)
      returns (actions: map<nat, ButtonAction>)
      requires Valid() && IsI32(deltaX) && IsI32(deltaY)
      requires IsI32(x + deltaX) && IsI32(y + deltaY)
      modifies this
      ensures Valid()
      ensures x == Clamp(old(x) + deltaX, maxX) && y == Clamp(old(y) + deltaY, maxY)
      ensures buttons == newButtons
      ensures forall i :: i in actions <==> 0 <= i < kButtonCount
      ensures forall i :: 0 <= i < kButtonCount ==> actions[i] == ButtonActionOf(old(buttons), newButtons, i)
    {
      x := x + deltaX;
      x := Min(maxX, x);
      x := Max(0, x);
      y := y + deltaY;
      y := Min(maxY, y);
      y := Max(0, y);
      actions := ButtonActions(buttons, newButtons);
      buttons := newButtons;
    }
  }
}
