/** The one joystick report that the keyboard and the mouse both write. */
module Joystick {
  import opened Bits

  /** The sixteen bits of the buttons, least significant first: the hat's nibble, then one bit for each button. */
  type Word = bits: seq<bool> | |bits| == 16 witness seq(16, _ => false)

  // The source's button masks have one bit each; here a button is the position of that bit.
  const RIGHT_HAT := 15
  const LEFT_HAT := 14
  const START := 13
  const SELECT := 12
  const R2 := 11
  const L2 := 10
  const R1 := 9
  const L1 := 8
  const TRIANGLE := 7
  const CIRCLE := 6
  const CROSS := 5
  const SQUARE := 4

  // Hat directions, as the number in the low nibble.
  const UP := 0
  const RIGHT := 2
  const DOWN := 4
  const LEFT := 6
  const NO_BUTTON := 8

  type Button = b: nat | 4 <= b < 16 witness 4
  type Dir = d: nat | d < 16

  const IDLE := 128

  datatype Action = Press(button: Button) | Release(button: Button) | Direction(dir: Dir) | MoveX(pos: byte) | MoveY(pos: byte) | Nothing

  function PressOrRelease(button: Button, released: bool): Action { if released then Release(button) else Press(button) }
  function DirectionOrNone(dir: Dir, released: bool): Action { Direction(if released then NO_BUTTON else dir) }
  function Axis(pos: byte, released: bool): byte { if released then 0x80 else pos }

  /** What a key that is not extended does; extended keys do nothing. */
  function KeyAction(code: byte, released: bool): Action {
    match code
    case 0x29 => PressOrRelease(CROSS, released)
    case 0x14 => PressOrRelease(CIRCLE, released)
    case 0x24 => PressOrRelease(TRIANGLE, released)
    case 0x2D => PressOrRelease(SQUARE, released)
    case 0x1C => MoveX(Axis(0x00, released))
    case 0x23 => MoveX(Axis(0xFF, released))
    case 0x1D => MoveY(Axis(0x00, released))
    case 0x1B => MoveY(Axis(0xFF, released))
    case 0x12 => PressOrRelease(LEFT_HAT, released)
    case 0x76 => PressOrRelease(START, released)
    case 0x0D => PressOrRelease(SELECT, released)
    case 0x16 => DirectionOrNone(UP, released)
    case 0x1E => DirectionOrNone(RIGHT, released)
    case 0x26 => DirectionOrNone(LEFT, released)
    case 0x25 => DirectionOrNone(DOWN, released)
    case 0x34 => PressOrRelease(R2, released)
    case 0x2B => PressOrRelease(RIGHT_HAT, released)
    case 0x2C => PressOrRelease(L2, released)
    case _ => Nothing
  }

  /** The report's fields, and the mouse buttons the dispatcher remembers. */
  datatype Pad = Pad(buttons: Word, x: byte, y: byte, z: byte, rz: byte, left: bool, right: bool, middle: bool)

  const CENTRED := Pad(Digits(NO_BUTTON, 16), IDLE, IDLE, IDLE, IDLE, false, false, false)

  function Pressed(buttons: Word, button: Button): Word { buttons[button := true] }
  function Released(buttons: Word, button: Button): Word { buttons[button := false] }
  function Directed(buttons: Word, dir: Dir): Word { Digits(dir, 4) + buttons[4..] }
  function Hat(buttons: Word): nat { Value(buttons[..4]) }

  function Act(p: Pad, action: Action): Pad {
    match action
    case Press(button) => p.(buttons := Pressed(p.buttons, button))
    case Release(button) => p.(buttons := Released(p.buttons, button))
    case Direction(dir) => p.(buttons := Directed(p.buttons, dir))
    case MoveX(pos) => p.(x := pos)
    case MoveY(pos) => p.(y := pos)
    case Nothing => p
  }

  // Mouse movement

  /** The magnitude of a movement: two's complement if the sign bit is set, 126 on overflow. */
  function Magnitude(data: byte, sign: bool, overflow: bool): byte {
    if overflow then 126 else if sign then (256 - data) % 256 else data
  }

  /** Three steps per count beyond a dead zone of 25, clipped to the ends of the axis. */
  function Position(magnitude: byte, sign: bool): byte {
    var scaled: nat := 3 * magnitude;
    var val := if scaled > 0 then scaled + 25 else 0;
    if val <= 126 then (if sign then IDLE - val else IDLE + val) else if sign then 0 else 255
  }

  /** The same for a signed movement, as the two's complement number that sign bit and data stand for. */
  function Deflection(delta: int): int {
    if delta == 0 then 128
    else if delta > 0 then (if 3 * delta + 25 <= 126 then 128 + 3 * delta + 25 else 255)
    else if -3 * delta + 25 <= 126 then 128 + 3 * delta - 25 else 0
  }

  function Delta(data: byte, sign: bool): int { if sign then data - 256 else data }

  /** Where a movement takes its axis: to the end on overflow, else as far as its signed value says, but for -256. */
  function AxisAfter(data: byte, sign: bool, overflow: bool): int {
    if overflow then (if sign then 0 else 255)
    else if Delta(data, sign) == -256 then 128
    else Deflection(Delta(data, sign))
  }

  /** Every movement but -256 moves the axis as far as its signed value says, and an overflow moves it all the way. */
  lemma AxisFollowsMovement(data: byte, sign: bool, overflow: bool)
    ensures Position(Magnitude(data, sign, overflow), sign) == AxisAfter(data, sign, overflow)
  {
  }

  lemma DeflectionMonotone(a: int, b: int)
    requires -255 <= a < b <= 255
    ensures 0 <= Deflection(a) <= Deflection(b) <= 255
    ensures (a < 0 ==> Deflection(a) < 128) && (b > 0 ==> Deflection(b) > 128)
  {
  }

  function Change(buttons: Word, button: Button, was: bool, now: bool): Word {
    if was == now then buttons else if now then Pressed(buttons, button) else Released(buttons, button)
  }

  /** The wheel: up presses R2, down presses L2, rest releases both. */
  function Wheel(buttons: Word, z: byte): Word {
    if z == 0 then Released(Released(buttons, R2), L2)
    else if z <= 128 then Pressed(buttons, R2)
    else Pressed(buttons, L2)
  }

  datatype Packet = Packet(header: byte, x: byte, y: byte, z: byte) {
    predicate Left() { And(header, 0x01) != 0 }
    predicate Right() { And(header, 0x02) != 0 }
    predicate Middle() { And(header, 0x04) != 0 }
    predicate XSign() { And(header, 0x10) != 0 }
    predicate YSign() { And(header, 0x20) != 0 }
    predicate XOverflow() { And(header, 0x40) != 0 }
    predicate YOverflow() { And(header, 0x80) != 0 }
  }

  function Dispatch(p: Pad, m: Packet): Pad {
    var b1 := Change(p.buttons, R1, p.left, m.Left());
    var b2 := Change(b1, L1, p.right, m.Right());
    var b3 := Change(b2, RIGHT_HAT, p.middle, m.Middle());
    p.(z := Position(Magnitude(m.x, m.XSign(), m.XOverflow()), m.XSign()),
       rz := 0xFF - Position(Magnitude(m.y, m.YSign(), m.YOverflow()), m.YSign()),
       buttons := Wheel(b3, m.z), left := m.Left(), right := m.Right(), middle := m.Middle())
  }

  /** The mouse has been still for a while. */
  function Rest(p: Pad): Pad {
    p.(z := IDLE, rz := IDLE, buttons := Released(Released(Directed(p.buttons, NO_BUTTON), R2), L2))
  }

  // Every run

  datatype Event = Key(code: byte, released: bool) | Mouse(packet: Packet) | Timeout

  function React(p: Pad, event: Event): Pad {
    match event
    case Key(code, released) => Act(p, KeyAction(code, released))
    case Mouse(packet) => Dispatch(p, packet)
    case Timeout => Rest(p)
  }

  function ReactAll(p: Pad, events: seq<Event>): Pad
    decreases |events|
  {
    if events == [] then p else ReactAll(React(p, events[0]), events[1..])
  }

  /** The hat is in one of the four directions a key can choose, or at rest; R1 and L1 follow the mouse buttons. */
  predicate Coherent(p: Pad) {
    && Hat(p.buttons) in {0, 2, 4, 6, 8}
    && p.buttons[9] == p.left
    && p.buttons[8] == p.right
  }

  lemma HatDirected(buttons: Word, dir: Dir)
    ensures Hat(Directed(buttons, dir)) == dir
  {
    hide Digits, Value;
    assert Pow2(4) == 16;
    ValueDigits(dir, 4);
    assert Directed(buttons, dir)[..4] == Digits(dir, 4);
  }

  lemma HatUnmoved(buttons: Word, button: Button, level: bool)
    ensures Hat(buttons[button := level]) == Hat(buttons)
  {
    hide Value;
    assert buttons[button := level][..4] == buttons[..4];
  }

  /** A key only touches its own field: one button's bit, the hat's nibble, or one axis. */
  lemma KeyChanges(p: Pad, code: byte, released: bool)
    requires Coherent(p)
    ensures var action, after := KeyAction(code, released), Act(p, KeyAction(code, released));
            && Coherent(after)
            && (after.z, after.rz, after.left, after.right, after.middle) == (p.z, p.rz, p.left, p.right, p.middle)
            && after.x == (if action.MoveX? then action.pos else p.x)
            && after.y == (if action.MoveY? then action.pos else p.y)
            && (match action
                case Press(b) => after.buttons[b] && b != R1 && b != L1
                case Release(b) => !after.buttons[b] && b != R1 && b != L1
                case Direction(d) => Hat(after.buttons) == d
                case _ => after.buttons == p.buttons)
            && (forall i :: 4 <= i < 16 && action != Press(i) && action != Release(i) ==> after.buttons[i] == p.buttons[i])
            && (!action.Direction? ==> Hat(after.buttons) == Hat(p.buttons))
  {
    hide Digits, Value;
    match KeyAction(code, released) {
      case Press(b) => HatUnmoved(p.buttons, b, true);
      case Release(b) => HatUnmoved(p.buttons, b, false);
      case Direction(d) => HatDirected(p.buttons, d);
      case _ =>
    }
  }

  /** The button bit that a key works, by its place in the report's word, in plain numbers; 0 for other keys. */
  function ButtonOf(code: byte): nat {
    match code
    case 0x29 => 5
    case 0x14 => 6
    case 0x24 => 7
    case 0x2D => 4
    case 0x12 => 14
    case 0x76 => 13
    case 0x0D => 12
    case 0x34 => 11
    case 0x2B => 15
    case 0x2C => 10
    case _ => 0
  }

  /** The hat direction that a key chooses; 8 for other keys. */
  function DirectionOf(code: byte): nat {
    match code
    case 0x16 => 0
    case 0x1E => 2
    case 0x25 => 4
    case 0x26 => 6
    case _ => 8
  }

  /** What every key does to the report: its button follows it, or the hat, or the left stick, or nothing happens. */
  lemma KeyTable(p: Pad, code: byte, released: bool)
    ensures var after := React(p, Key(code, released));
            if ButtonOf(code) >= 4 then after == p.(buttons := p.buttons[ButtonOf(code) := !released])
            else if DirectionOf(code) < 8 then
              && Hat(after.buttons) == (if released then 8 else DirectionOf(code))
              && after == p.(buttons := after.buttons) && after.buttons[4..] == p.buttons[4..]
            else if code == 0x1C then after == p.(x := if released then 0x80 else 0)
            else if code == 0x23 then after == p.(x := if released then 0x80 else 0xFF)
            else if code == 0x1D then after == p.(y := if released then 0x80 else 0)
            else if code == 0x1B then after == p.(y := if released then 0x80 else 0xFF)
            else after == p
  {
    hide Digits, Hat;
    if DirectionOf(code) < 8 {
      HatDirected(p.buttons, if released then 8 else DirectionOf(code));
    }
  }

  /** The bits of a packet's header in plain numbers. */
  lemma HeaderBits(m: Packet)
    ensures (m.Left() <==> m.header % 2 == 1) && (m.Right() <==> m.header / 2 % 2 == 1) && (m.Middle() <==> m.header / 4 % 2 == 1)
    ensures (m.XSign() <==> m.header / 16 % 2 == 1) && (m.YSign() <==> m.header / 32 % 2 == 1)
    ensures (m.XOverflow() <==> m.header / 64 % 2 == 1) && (m.YOverflow() <==> m.header / 128 % 2 == 1)
  {
    hide And;
    Powers();
    AndTests(m.header, 0);
    AndTests(m.header, 1);
    AndTests(m.header, 2);
    AndTests(m.header, 4);
    AndTests(m.header, 5);
    AndTests(m.header, 6);
    AndTests(m.header, 7);
  }

  /** The mouse only touches R1, L1, the right hat, R2, L2 and the right stick. */
  lemma MouseChanges(p: Pad, m: Packet)
    requires Coherent(p)
    ensures var after := Dispatch(p, m);
            && Coherent(after)
            && Hat(after.buttons) == Hat(p.buttons) && (after.x, after.y) == (p.x, p.y)
            && (forall i :: 4 <= i < 16 && i !in {8, 9, 10, 11, 15} ==> after.buttons[i] == p.buttons[i])
  {
    hide And, Magnitude, Position, Value, Coherent;
    MouseKeepsCoherent(p, m);
    assert Dispatch(p, m).buttons[..4] == p.buttons[..4];
  }

  lemma MouseKeepsCoherent(p: Pad, m: Packet)
    requires Coherent(p)
    ensures Coherent(Dispatch(p, m))
  {
    hide And, Magnitude, Position, Value;
    assert Dispatch(p, m).buttons[..4] == p.buttons[..4];
  }

  /**
   * The right stick follows the movement, its vertical axis inverted. Either wheel direction adds its button, a still
   * wheel clears both; the right hat follows the middle button when that changes; the buttons are remembered.
   */
  lemma MouseSets(p: Pad, m: Packet)
    ensures var after := Dispatch(p, m);
            && after.z == AxisAfter(m.x, m.XSign(), m.XOverflow())
            && after.rz == 255 - AxisAfter(m.y, m.YSign(), m.YOverflow())
            && (after.left, after.right, after.middle) == (m.Left(), m.Right(), m.Middle())
            && after.buttons[11] == (0 < m.z <= 128 || (m.z > 128 && p.buttons[11]))
            && after.buttons[10] == (m.z > 128 || (0 < m.z <= 128 && p.buttons[10]))
            && after.buttons[9] == (if m.Left() == p.left then p.buttons[9] else m.Left())
            && after.buttons[8] == (if m.Right() == p.right then p.buttons[8] else m.Right())
            && after.buttons[15] == (if m.Middle() == p.middle then p.buttons[15] else m.Middle())
  {
    hide And, Magnitude, Position, Deflection, Delta;
    AxisFollowsMovement(m.x, m.XSign(), m.XOverflow());
    AxisFollowsMovement(m.y, m.YSign(), m.YOverflow());
  }

  lemma RestChanges(p: Pad)
    requires Coherent(p)
    ensures var after := Rest(p);
            && Coherent(after)
            && Hat(after.buttons) == 8 && !after.buttons[11] && !after.buttons[10]
            && (after.x, after.y) == (p.x, p.y) && after.z == after.rz == 128
            && (after.left, after.right, after.middle) == (p.left, p.right, p.middle)
            && (forall i :: 4 <= i < 16 && i != 11 && i != 10 ==> after.buttons[i] == p.buttons[i])
  {
    hide Digits, Value;
    var directed := Directed(p.buttons, NO_BUTTON);
    HatDirected(p.buttons, NO_BUTTON);
    HatUnmoved(directed, R2, false);
    HatUnmoved(Released(directed, R2), L2, false);
  }

  lemma ReactKeeps(p: Pad, event: Event)
    requires Coherent(p)
    ensures Coherent(React(p, event))
  {
    hide Coherent, Dispatch, Act, Rest, KeyAction;
    match event {
      case Key(code, released) => KeyChanges(p, code, released);
      case Mouse(packet) => MouseChanges(p, packet);
      case Timeout => RestChanges(p);
    }
  }

  /** In every interleaving of keys, mouse packets and timeouts the report stays coherent. */
  lemma {:induction false} AlwaysCoherent(p: Pad, events: seq<Event>)
    requires Coherent(p)
    ensures Coherent(ReactAll(p, events))
    decreases |events|
  {
    hide Coherent, React;
    if events != [] {
      ReactKeeps(p, events[0]);
      AlwaysCoherent(React(p, events[0]), events[1..]);
    }
  }

  /** The key that alone works a button, for the buttons that neither the mouse nor another key can reach. */
  predicate OwnKey(code: byte, button: Button) {
    match code
    case 0x29 => button == 5
    case 0x14 => button == 6
    case 0x24 => button == 7
    case 0x2D => button == 4
    case 0x12 => button == 14
    case 0x76 => button == 13
    case 0x0D => button == 12
    case _ => false
  }

  /** Whether a key is down after the events, given whether it was down before. */
  function Held(events: seq<Event>, code: byte, before: bool): bool {
    if events == [] then before
    else Held(events[1..], code, if events[0].Key? && events[0].code == code then !events[0].released else before)
  }

  lemma OwnButtonStep(p: Pad, event: Event, code: byte, button: Button)
    requires OwnKey(code, button) && Coherent(p)
    ensures React(p, event).buttons[button] ==
            if event.Key? && event.code == code then !event.released else p.buttons[button]
  {
    hide Coherent, Act, Dispatch, Rest, Hat, Digits;
    match event {
      case Key(c, released) => KeyChanges(p, c, released);
      case Mouse(packet) => MouseChanges(p, packet);
      case Timeout => RestChanges(p);
    }
  }

  /** Whatever else happens in between, such a button is in the report exactly while its key is held down. */
  lemma {:induction false} ButtonIsKeyHeld(p: Pad, events: seq<Event>, code: byte, button: Button)
    requires OwnKey(code, button) && Coherent(p)
    ensures ReactAll(p, events).buttons[button] == Held(events, code, p.buttons[button])
    decreases |events|
  {
    hide React, OwnKey, Coherent;
    if events != [] {
      OwnButtonStep(p, events[0], code, button);
      ReactKeeps(p, events[0]);
      ButtonIsKeyHeld(React(p, events[0]), events[1..], code, button);
    }
  }

  // The driver

  class JoystickReport {
    var buttons: Word
    var x: byte
    var y: byte
    var z: byte
    var rz: byte
    var left: bool
    var right: bool
    var middle: bool

    function View(): Pad
      reads this
    {
      Pad(buttons, x, y, z, rz, left, right, middle)
    }

    constructor ()
      ensures View() == CENTRED && Coherent(View()) && x == y == z == rz == 128 && !left && !right && !middle
    {
      buttons, x, y, z, rz := Digits(NO_BUTTON, 16), IDLE, IDLE, IDLE, IDLE;
      left, right, middle := false, false, false;
      new;
      StartsCoherent();
    }

    method PressButton(button: Button)
      modifies `buttons
      ensures buttons == old(buttons)[button := true]
    {
      buttons := buttons[button := true];
    }

    method ReleaseButton(button: Button)
      modifies `buttons
      ensures buttons == old(buttons)[button := false]
    {
      buttons := buttons[button := false];
    }

    method PressDirection(dir: Dir)
      modifies `buttons
      ensures Hat(buttons) == dir && buttons[..4] == Digits(dir, 4) && buttons[4..] == old(buttons)[4..]
    {
      hide Hat, Digits;
      HatDirected(buttons, dir);
      buttons := Digits(dir, 4) + buttons[4..];
    }

    method KeyEvent(code: byte, released: bool)
      modifies this
      ensures View() == React(old(View()), Key(code, released))
    {
      hide KeyAction, Digits;
      match KeyAction(code, released) {
        case Press(button) => PressButton(button);
        case Release(button) => ReleaseButton(button);
        case Direction(dir) =>
          PressDirection(dir);
          assert buttons == buttons[..4] + buttons[4..];
        case MoveX(pos) => x := pos;
        case MoveY(pos) => y := pos;
        case Nothing =>
      }
    }

    method EventDispatcher(m: Packet)
      modifies this
      ensures View() == React(old(View()), Mouse(m))
    {
      hide And, Position, Magnitude, Wheel, Change;
      z := Position(Magnitude(m.x, m.XSign(), m.XOverflow()), m.XSign());
      rz := 0xFF - Position(Magnitude(m.y, m.YSign(), m.YOverflow()), m.YSign());
      left := Follow(R1, left, m.Left());
      right := Follow(L1, right, m.Right());
      middle := Follow(RIGHT_HAT, middle, m.Middle());
      TurnWheel(m.z);
    }

    /** Remembers a mouse button's state and, if it has changed, passes it on. */
    method Follow(button: Button, was: bool, now: bool) returns (remembered: bool)
      modifies `buttons
      ensures remembered == now && buttons == Change(old(buttons), button, was, now)
    {
      remembered := was;
      if now != was {
        remembered := now;
        SetButton(button, now);
      }
    }

    method SetButton(button: Button, down: bool)
      modifies `buttons
      ensures buttons == old(buttons)[button := down]
    {
      if down {
        PressButton(button);
      } else {
        ReleaseButton(button);
      }
    }

    method TurnWheel(movement: byte)
      modifies `buttons
      ensures buttons == Wheel(old(buttons), movement)
    {
      var down := movement > 128;
      var steps := if down then (256 - movement) % 256 else movement;
      if steps > 0 {
        PressButton(if down then L2 else R2);
      } else {
        ReleaseButton(R2);
        ReleaseButton(L2);
      }
    }

    method IdleTimeout()
      modifies this
      ensures View() == React(old(View()), Timeout)
    {
      hide Digits;
      z, rz := IDLE, IDLE;
      PressDirection(NO_BUTTON);
      assert buttons == Digits(NO_BUTTON, 4) + old(buttons)[4..];
      ReleaseButton(R2);
      ReleaseButton(L2);
    }

    /** The six bytes of a report; the host can recover every field from them. */
    method SendCodes() returns (codes: seq<byte>)
      ensures |codes| == 6 && codes[..4] == [x, y, z, rz]
      ensures Unpack(codes[4]) + Unpack(codes[5]) == buttons
      ensures forall k :: 0 <= k < 8 ==> buttons[k] == Digit(codes[4], k) && buttons[8 + k] == Digit(codes[5], k)
    {
      hide Digit;
      hide Digits, Value;
      DigitsValue(buttons[..8]);
      DigitsValue(buttons[8..]);
      codes := [x, y, z, rz, Pack(buttons[..8]), Pack(buttons[8..])];
      forall k | 0 <= k < 8 ensures buttons[k] == Digit(codes[4], k) && buttons[8 + k] == Digit(codes[5], k) {
        DigitsAt(codes[4], 8, k);
        DigitsAt(codes[5], 8, k);
      }
    }
  }

  lemma StartsCoherent()
    ensures Coherent(CENTRED)
  {
    hide Digits, Value, Digit;
    var bits := Digits(NO_BUTTON, 16);
    forall k | 0 <= k < 4 ensures bits[k] == Digits(8, 4)[k] {
      DigitsAt(8, 16, k);
      DigitsAt(8, 4, k);
    }
    assert bits[..4] == Digits(8, 4);
    Powers();
    ValueDigits(8, 4);
    forall k | k == 8 || k == 9 ensures !bits[k] {
      DigitsAt(8, 16, k);
      HighDigit(8, 4, k);
    }
  }
}
