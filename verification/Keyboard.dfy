/** The keyboard: scancode prefixes, and the lock-light handshake with its retry counter. */
module Keyboard {
  import opened Bits
  import opened Ring

  const EXTENDED: byte := 0xE0
  const RELEASED: byte := 0xF0
  const DEVICE := 1

  datatype Key = Key(extended: bool, released: bool, code: byte) {
    predicate Valid() { code != EXTENDED && code != RELEASED }
  }

  /** A packed event: four bits of device, four of trigger, eight of value. */
  function NewEvent(device: nat, trigger: nat, value: byte): nat {
    Or(Or(device * Pow2(12), trigger * Pow2(8)), value)
  }

  function Trigger(key: Key): nat { (if key.extended then 2 else 0) + if key.released then 1 else 0 }

  function Packed(key: Key): nat { NewEvent(DEVICE, Trigger(key), key.code) }

  lemma PackedValue(trigger: nat, value: byte)
    requires trigger < 16
    ensures NewEvent(DEVICE, trigger, value) == 0x1000 + 0x100 * trigger + value
  {
    hide Or;
    ByteBound();
    assert Pow2(10) == 1024 && Pow2(12) == 4096;
    assert 4096 == 16 * Pow2(8) && trigger * Pow2(8) < 4096;
    OrBelow(1, trigger * Pow2(8), 12);
    OrBelow(16 + trigger, value, 8);
  }

  /** Packed events are non-zero, and determine the key event they stand for. */
  lemma PackedFaithful(a: Key, b: Key)
    ensures Packed(a) > 0
    ensures Packed(a) == Packed(b) ==> a == b
  {
    hide NewEvent;
    PackedValue(Trigger(a), a.code);
    PackedValue(Trigger(b), b.code);
  }

  /** The bytes a keyboard sends for a key event. */
  function Print(key: Key): seq<byte> {
    (if key.extended then [EXTENDED] else []) + (if key.released then [RELEASED] else []) + [key.code]
  }

  /** One call of the decoder on a byte: the prefix flags left behind, and the packed event, 0 when there is none. */
  function Decode(flags: nat, b: byte): (r: (nat, nat))
    requires flags < 4
    ensures r.0 < 4
  {
    if b == EXTENDED then (2, 0)
    else if b == RELEASED then (if flags % 2 == 0 then flags + 1 else flags, 0)
    else (0, NewEvent(DEVICE, flags, b))
  }

  /** The flags and the non-zero results of decoding a whole stream. */
  function DecodeAll(flags: nat, bytes: seq<byte>): (r: (nat, seq<nat>))
    requires flags < 4
    ensures r.0 < 4
    decreases |bytes|
  {
    if bytes == [] then (flags, []) else
    var (next, event) := Decode(flags, bytes[0]);
    var (last, events) := DecodeAll(next, bytes[1..]);
    (last, (if event > 0 then [event] else []) + events)
  }

  lemma {:induction false} DecodeConcat(flags: nat, a: seq<byte>, b: seq<byte>)
    requires flags < 4
    ensures var (mid, first) := DecodeAll(flags, a);
            var (last, second) := DecodeAll(mid, b);
            DecodeAll(flags, a + b).0 == last && DecodeAll(flags, a + b).1 == first + second
    decreases |a|
  {
    hide NewEvent;
    if a == [] {
      assert a + b == b;
    } else {
      assert (a + b)[1..] == a[1..] + b;
      var (next, event) := Decode(flags, a[0]);
      DecodeConcat(next, a[1..], b);
      var (mid, first) := DecodeAll(next, a[1..]);
      var (last, second) := DecodeAll(mid, b);
      var head := if event > 0 then [event] else [];
      assert head + (first + second) == head + first + second;
    }
  }

  lemma DecodeOne(flags: nat, b: byte)
    requires flags < 4
    ensures DecodeAll(flags, [b]) == (Decode(flags, b).0, if Decode(flags, b).1 > 0 then [Decode(flags, b).1] else [])
  {
    hide NewEvent;
    assert [b][1..] == [];
    var head := if Decode(flags, b).1 > 0 then [Decode(flags, b).1] else [];
    assert head + [] == head;
  }

  function PrintAll(keys: seq<Key>): seq<byte> {
    if keys == [] then [] else Print(keys[0]) + PrintAll(keys[1..])
  }

  function PackAll(keys: seq<Key>): (events: seq<nat>)
    ensures |events| == |keys|
  {
    seq(|keys|, i requires 0 <= i < |keys| => Packed(keys[i]))
  }

  lemma DecodePrinted(key: Key)
    requires key.Valid()
    ensures DecodeAll(0, Print(key)).0 == 0 && DecodeAll(0, Print(key)).1 == [Packed(key)]
  {
    hide NewEvent, DecodeAll;
    PackedFaithful(key, key);
    var e, r := if key.extended then [EXTENDED] else [], if key.released then [RELEASED] else [];
    DecodeOne(0, EXTENDED);
    DecodeOne(0, RELEASED);
    DecodeOne(2, RELEASED);
    DecodeOne(Trigger(key), key.code);
    DecodeNone(0);
    DecodeNone(2);
    DecodeConcat(0, e, r);
    DecodeConcat(0, e + r, [key.code]);
  }

  lemma DecodeNone(flags: nat)
    requires flags < 4
    ensures DecodeAll(flags, []) == (flags, [])
  {
  }

  /** Decoding is the inverse of printing, for every sequence of key events. */
  lemma {:induction false} DecodeInvertsPrint(keys: seq<Key>)
    requires forall key :: key in keys ==> key.Valid()
    ensures DecodeAll(0, PrintAll(keys)).0 == 0 && DecodeAll(0, PrintAll(keys)).1 == PackAll(keys)
  {
    hide NewEvent, DecodeAll, Print, Packed;
    DecodeNone(0);
    if keys != [] {
      DecodePrinted(keys[0]);
      DecodeConcat(0, Print(keys[0]), PrintAll(keys[1..]));
      DecodeInvertsPrint(keys[1..]);
      assert PackAll(keys) == [Packed(keys[0])] + PackAll(keys[1..]);
    }
  }

  /** In plain numbers: a code alone is pressed, 0xF0 before it releases it, and 0xE0 before that marks an extended key. */
  lemma DecodedEvents(code: byte)
    requires code != 0xE0 && code != 0xF0
    ensures DecodeAll(0, [code]) == (0, [0x1000 + code])
    ensures DecodeAll(0, [0xF0, code]) == (0, [0x1100 + code])
    ensures DecodeAll(0, [0xE0, code]) == (0, [0x1200 + code])
    ensures DecodeAll(0, [0xE0, 0xF0, code]) == (0, [0x1300 + code])
  {
    hide NewEvent, DecodeAll;
    var press, release := Key(false, false, code), Key(false, true, code);
    var extended, released := Key(true, false, code), Key(true, true, code);
    PackedValue(0, code);
    PackedValue(1, code);
    PackedValue(2, code);
    PackedValue(3, code);
    DecodePrinted(press);
    DecodePrinted(release);
    DecodePrinted(extended);
    DecodePrinted(released);
    assert Print(press) == [code] && Print(release) == [0xF0, code];
    assert Print(extended) == [0xE0, code] && Print(released) == [0xE0, 0xF0, code];
  }

  /** Whether RELEASED occurs after the last EXTENDED. */
  predicate ReleasedSinceExtended(prefix: seq<byte>) {
    prefix != [] &&
    var last := prefix[|prefix| - 1];
    last == RELEASED || (last != EXTENDED && ReleasedSinceExtended(prefix[..|prefix| - 1]))
  }

  /**
   * For prefixes in any order and number: a code is reported as extended if any EXTENDED came before it, and as
   * released if a RELEASED came after the last EXTENDED.
   */
  lemma {:induction false} PrefixMeaning(prefix: seq<byte>, code: byte)
    requires forall b :: b in prefix ==> b == EXTENDED || b == RELEASED
    requires code != EXTENDED && code != RELEASED
    ensures DecodeAll(0, prefix + [code]).0 == 0
    ensures DecodeAll(0, prefix + [code]).1 == [Packed(Key(EXTENDED in prefix, ReleasedSinceExtended(prefix), code))]
  {
    hide NewEvent;
    var key := Key(EXTENDED in prefix, ReleasedSinceExtended(prefix), code);
    PrefixFlags(prefix);
    DecodeConcat(0, prefix, [code]);
    DecodeOne(Trigger(key), code);
    PackedFaithful(key, key);
  }

  lemma {:induction false} PrefixFlags(prefix: seq<byte>)
    requires forall b :: b in prefix ==> b == EXTENDED || b == RELEASED
    ensures DecodeAll(0, prefix).0 == Trigger(Key(EXTENDED in prefix, ReleasedSinceExtended(prefix), 0))
    ensures DecodeAll(0, prefix).1 == []
  {
    hide NewEvent;
    if prefix != [] {
      var front, last := prefix[..|prefix| - 1], prefix[|prefix| - 1];
      assert prefix == front + [last];
      forall b | b in front ensures b in prefix {}
      PrefixFlags(front);
      DecodeConcat(0, front, [last]);
      var flags := DecodeAll(0, front).0;
      DecodeOne(flags, last);
      assert last in prefix;
    }
  }

  // Lock lights

  const SET_LEDS: byte := 0xED
  const RESET: byte := 0xFF

  /** What a scancode means to the lights; `command` is the light that a lock key toggles. */
  datatype Event = Lock(command: byte) | Ack | Nak | Other

  function Meaning(scancode: nat): Event {
    if scancode == NewEvent(DEVICE, 0, 0x7E) then Lock(1)
    else if scancode == NewEvent(DEVICE, 0, 0x77) then Lock(2)
    else if scancode == NewEvent(DEVICE, 0, 0x58) then Lock(4)
    else if scancode == NewEvent(DEVICE, 0, 0xFA) then Ack
    else if scancode == NewEvent(DEVICE, 0, 0xFE) then Nak
    else Other
  }

  datatype Lights = Lights(lastByte: byte, retry: byte, leds: byte, command: byte, sent: seq<byte>)

  const DARK := Lights(0, 0, 0, 0, [])

  /** One event. The retry counter is eight bits wide and, past the resends, counts twice per NAK. */
  function React(l: Lights, event: Event): Lights {
    match event
    case Lock(command) => l.(lastByte := SET_LEDS, sent := l.sent + [SET_LEDS], command := command, retry := 0)
    case Ack =>
      if l.lastByte != SET_LEDS then l else
      var leds := Xor(l.leds, l.command) % 256;
      l.(leds := leds, lastByte := leds, sent := l.sent + [leds], retry := 0)
    case Nak =>
      if l.retry < 4 then l.(retry := l.retry + 1, sent := l.sent + [l.lastByte])
      else if (l.retry + 1) % 256 < 8 then l.(retry := (l.retry + 2) % 256, lastByte := RESET, sent := l.sent + [RESET])
      else l.(retry := (l.retry + 2) % 256)
    case Other => l
  }

  function ReactAll(l: Lights, events: seq<Event>): Lights
    decreases |events|
  {
    if events == [] then l else ReactAll(React(l, events[0]), events[1..])
  }

  /** How the lights' part of the filter acts on a scancode. */
  function Filter(l: Lights, scancode: nat): Lights { React(l, Meaning(scancode)) }

  /**
   * A pressed lock key and the keyboard's acknowledgement, in plain numbers: scroll lock toggles bit 0 of the lights,
   * num lock bit 1, caps lock bit 2, and the keyboard is sent 0xED and then the new lights.
   */
  lemma LockKeys(l: Lights, code: byte, light: nat)
    requires l.leds < 8 && (code, light) in {(0x7E, 0), (0x77, 1), (0x58, 2)}
    ensures var after := Filter(Filter(l, 0x1000 + code), 0x10FA);
            && after.sent == l.sent + [0xED, after.leds] && after.leds < 8 && after.retry == 0
            && (forall k :: 0 <= k < 3 ==> Digit(after.leds, k) == (Digit(l.leds, k) != (k == light)))
  {
    hide NewEvent, Xor, Digit;
    EventCodes();
    var command: nat := if light == 0 then 1 else if light == 1 then 2 else 4;
    ThreeLights(l.leds, command);
    forall k | 0 <= k < 3 ensures Digit(Xor(l.leds, command), k) == (Digit(l.leds, k) != (k == light)) {
      XorDigit(l.leds, command, k);
      LightDigit(light, k);
    }
    var after := Filter(Filter(l, 0x1000 + code), 0x10FA);
    assert l.sent + [0xED] + [after.leds] == l.sent + [0xED, after.leds];
  }

  lemma LightDigit(light: nat, k: nat)
    requires light < 3 && k < 3
    ensures Digit(if light == 0 then 1 else if light == 1 then 2 else 4, k) == (k == light)
  {
    Powers();
  }

  /** All other scancodes, and an acknowledgement of something else, leave the lights' part alone. */
  lemma OtherScancodes(l: Lights, scancode: nat)
    requires scancode !in {0x107E, 0x1077, 0x1058, 0x10FE}
    ensures (scancode == 0x10FA ==> l.lastByte != 0xED) ==> Filter(l, scancode) == l
  {
    hide NewEvent, Xor;
    EventCodes();
  }

  /** The first four 0xFE after a request get the last byte again, the next two a reset of the keyboard. */
  lemma ResendRequests(l: Lights)
    ensures var after := Filter(l, 0x10FE);
            && (l.retry < 4 ==> after == l.(retry := l.retry + 1, sent := l.sent + [l.lastByte]))
            && (4 <= l.retry < 7 ==> after == l.(retry := l.retry + 2, lastByte := 0xFF, sent := l.sent + [0xFF]))
            && (7 <= l.retry < 255 ==> after.sent == l.sent && after.lastByte == l.lastByte)
  {
    hide NewEvent;
    EventCodes();
  }

  predicate ProperEvent(event: Event) {
    event.Lock? ==> event.command == 1 || event.command == 2 || event.command == 4
  }

  function Naks(events: seq<Event>): nat {
    if events == [] then 0 else (if events[0] == Nak then 1 else 0) + Naks(events[1..])
  }

  /**
   * A lock request is acknowledged by the events after it if an Ack comes before the next lock request and after no
   * more than four NAKs, `spent` of which have come already: the fifth NAK resets the keyboard instead.
   */
  ghost predicate Acknowledged(after: seq<Event>, spent: nat) {
    exists i :: 0 <= i < |after| && after[i] == Ack && (forall j :: 0 <= j < i ==> !after[j].Lock?) && Naks(after[..i]) + spent <= 4
  }

  /** The lights that the acknowledged requests among the events toggle. */
  ghost function Toggled(events: seq<Event>): nat {
    if events == [] then 0
    else Xor(if events[0].Lock? && Acknowledged(events[1..], 0) then events[0].command else 0, Toggled(events[1..]))
  }

  lemma AcknowledgedStep(events: seq<Event>, spent: nat)
    requires events != []
    ensures Acknowledged(events, spent) <==>
            match events[0]
            case Lock(_) => false
            case Ack => spent <= 4
            case Nak => Acknowledged(events[1..], spent + 1)
            case Other => Acknowledged(events[1..], spent)
  {
    var rest := events[1..];
    var more := spent + if events[0] == Nak then 1 else 0;
    if Acknowledged(rest, more) && !events[0].Lock? {
      var i :| 0 <= i < |rest| && rest[i] == Ack && (forall j :: 0 <= j < i ==> !rest[j].Lock?) && Naks(rest[..i]) + more <= 4;
      assert events[..i + 1][1..] == rest[..i];
      assert events[i + 1] == Ack;
    }
    if Acknowledged(events, spent) && events[0] != Ack {
      var i :| 0 <= i < |events| && events[i] == Ack && (forall j :: 0 <= j < i ==> !events[j].Lock?) && Naks(events[..i]) + spent <= 4;
      assert !events[0].Lock? && events[..i][1..] == rest[..i - 1];
      assert rest[i - 1] == Ack && forall j :: 0 <= j < i - 1 ==> !rest[j].Lock? by {
        forall j | 0 <= j < i - 1 ensures !rest[j].Lock? { assert rest[j] == events[j + 1]; }
      }
    }
    if events[0] == Ack && spent <= 4 {
      assert events[..0] == [];
    }
  }

  /** While a request is open at most four NAKs have been answered. */
  predicate Sound(l: Lights) {
    && l.leds < 8 && l.command < 8
    && (l.lastByte == SET_LEDS ==> l.retry <= 4)
  }

  lemma {:induction false} LightsFrom(l: Lights, events: seq<Event>)
    requires Sound(l) && forall e :: e in events ==> ProperEvent(e)
    ensures Sound(ReactAll(l, events))
    ensures ReactAll(l, events).leds ==
            Xor(Xor(l.leds, if l.lastByte == SET_LEDS && Acknowledged(events, l.retry) then l.command else 0), Toggled(events))
    decreases |events|
  {
    hide Xor, Acknowledged, Pow2;
    if events == [] {
      XorZero(l.leds);
      assert !Acknowledged([], l.retry) by { NeverAcknowledged(l.retry); }
    } else {
      var next := React(l, events[0]);
      AcknowledgedStep(events, l.retry);
      ThreeLights(l.leds, l.command);
      assert ProperEvent(events[0]);
      LightsFrom(next, events[1..]);
      var later := Toggled(events[1..]);
      XorZero(l.leds);
      XorZero(later);
      match events[0] {
        case Lock(command) =>
          XorAssoc(l.leds, if Acknowledged(events[1..], 0) then command else 0, later);
        case Ack =>
          XorZero(Xor(l.leds, l.command));
        case Nak =>
          if l.retry == 4 {
            SpentOut(events[1..], 5);
          }
        case Other =>
      }
    }
  }

  lemma SpentOut(events: seq<Event>, spent: nat)
    requires spent > 4
    ensures !Acknowledged(events, spent)
  {
  }

  lemma NeverAcknowledged(spent: nat)
    ensures !Acknowledged([], spent)
  {
  }

  lemma ThreeLights(a: nat, b: nat)
    requires a < 8 && b < 8
    ensures Xor(a, b) < 8
  {
    assert Pow2(3) == 8;
    XorBound(a, b, 3);
  }

  /**
   * In every run from power-up the lights are the exclusive or of the commands of the acknowledged requests, so a
   * request toggles its light at most once, and only the three low bits are ever used.
   */
  lemma LightsAreAcknowledgedRequests(events: seq<Event>)
    requires forall e :: e in events ==> ProperEvent(e)
    ensures ReactAll(DARK, events).leds == Toggled(events) < 8
  {
    hide Toggled, ReactAll, Acknowledged, Xor;
    LightsFrom(DARK, events);
    XorZero(0);
    XorZero(Toggled(events));
  }

  // NAKs in a row

  function Repeated(n: nat): (events: seq<Event>)
    ensures |events| == n
  {
    seq(n, _ => Nak)
  }

  /** The answer to the n-th NAK since a request, counting from 0. */
  function NakAnswer(last: byte, n: nat): seq<byte> {
    var k := n % 130;
    if k < 4 then [if n < 4 then last else 0xFF] else if k < 6 then [0xFF] else []
  }

  function NakAnswers(last: byte, n: nat): seq<byte> {
    if n == 0 then [] else NakAnswers(last, n - 1) + NakAnswer(last, n - 1)
  }

  function RetryAfter(n: nat): byte {
    var k := n % 130;
    if k <= 4 then k else if k == 5 then 6 else 2 * k - 4
  }

  /** However many NAKs arrive in a row, the answer to each depends only on its number modulo 130. */
  lemma {:induction false} NakPeriod(l: Lights, n: nat)
    requires l.retry == 0
    ensures ReactAll(l, Repeated(n)) ==
            l.(retry := RetryAfter(n), lastByte := if n < 5 then l.lastByte else RESET, sent := l.sent + NakAnswers(l.lastByte, n))
  {
    if n == 0 {
      assert RetryAfter(0) == 0 && l.sent + [] == l.sent;
    } else {
      hide NakAnswer, RetryAfter, React;
      NakPeriod(l, n - 1);
      ReactLast(l, n - 1);
      var before := ReactAll(l, Repeated(n - 1));
      assert l.sent + NakAnswers(l.lastByte, n) == before.sent + NakAnswer(l.lastByte, n - 1);
      NakStep(before, l.lastByte, n - 1);
    }
  }

  lemma NakStep(l: Lights, last: byte, n: nat)
    requires l.retry == RetryAfter(n) && l.lastByte == if n < 5 then last else RESET
    ensures React(l, Nak) == l.(retry := RetryAfter(n + 1), lastByte := if n + 1 < 5 then last else RESET, sent := l.sent + NakAnswer(last, n))
  {
    assert (n + 1) % 130 == if n % 130 == 129 then 0 else n % 130 + 1;
    assert l.sent + [] == l.sent;
  }

  lemma {:induction false} ReactLast(l: Lights, n: nat)
    ensures ReactAll(l, Repeated(n + 1)) == React(ReactAll(l, Repeated(n)), Nak)
    decreases n
  {
    hide React;
    assert Repeated(n + 1)[1..] == Repeated(n);
    if n > 0 {
      ReactLast(React(l, Nak), n - 1);
      assert Repeated(n)[1..] == Repeated(n - 1);
    }
  }

  // The driver

  class KeyboardDriver {
    const ring: RingBuffer
    var e0f0: nat
    var lastByte: byte
    var retry: byte
    var leds: byte
    var command: byte
    var sent: seq<byte>

    ghost predicate Valid()
      reads this, ring
    {
      ring.Valid() && e0f0 < 4
    }

    function View(): Lights
      reads this
    {
      Lights(lastByte, retry, leds, command, sent)
    }

    constructor ()
      ensures Valid() && fresh(ring) && ring.Contents() == [] && e0f0 == 0 && View() == DARK
    {
      ring := new RingBuffer(8);
      e0f0, lastByte, retry, leds, command, sent := 0, 0, 0, 0, 0, [];
    }

    /** Takes at most one byte; 0 stands for no event. */
    method GetScancode() returns (scancode: nat)
      requires Valid()
      modifies `e0f0, ring
      ensures Valid()
      ensures old(ring.Contents()) == [] ==> scancode == 0 && e0f0 == old(e0f0) && ring.Contents() == []
      ensures old(ring.Contents()) != [] ==>
                && (e0f0, scancode) == Decode(old(e0f0), old(ring.Contents())[0])
                && ring.Contents() == old(ring.Contents())[1..]
    {
      hide NewEvent;
      scancode := 0;
      var has := ring.HasElement();
      if has {
        var b := ring.GetElement();
        assert old(ring.Contents())[1..] == ring.Contents();
        if b == 0xE0 {
          e0f0 := 2;
        } else if b == 0xF0 {
          e0f0 := if e0f0 % 2 == 0 then e0f0 + 1 else e0f0;
        } else {
          scancode := NewEvent(DEVICE, e0f0, b);
          e0f0 := 0;
        }
      }
    }

    method Send(data: byte)
      modifies `sent
      ensures sent == old(sent) + [data]
    {
      sent := sent + [data];
    }

    /** The lights' part of the event filter. `resetMouse` tells that the M key was pressed. */
    method LightFilter(scancode: nat) returns (resetMouse: bool)
      modifies `lastByte, `retry, `leds, `command, `sent
      ensures View() == React(old(View()), Meaning(scancode))
      ensures resetMouse <==> scancode == 0x103A
    {
      hide Xor, NewEvent;
      EventCodes();
      resetMouse := false;
      if scancode == 0x103A {
        resetMouse := true;
      } else if scancode == 0x107E {
        lastByte := 0xED;
        Send(lastByte);
        command := 0x01;
        retry := 0;
      } else if scancode == 0x1077 {
        lastByte := 0xED;
        Send(lastByte);
        command := 0x02;
        retry := 0;
      } else if scancode == 0x1058 {
        lastByte := 0xED;
        Send(lastByte);
        command := 0x04;
        retry := 0;
      } else if scancode == 0x10FA && lastByte == 0xED {
        leds := Xor(leds, command) % 256;
        lastByte := leds;
        Send(lastByte);
        retry := 0;
      } else if scancode == 0x10FE {
        var before := retry;
        retry := (retry + 1) % 256;
        if before < 4 {
          Send(lastByte);
        } else {
          before := retry;
          retry := (retry + 1) % 256;
          if before < 8 {
            lastByte := 0xFF;
            Send(lastByte);
          }
        }
      }
    }
  }

  lemma EventCodes()
    ensures NewEvent(DEVICE, 0, 0x3A) == 0x103A && NewEvent(DEVICE, 0, 0x7E) == 0x107E && NewEvent(DEVICE, 0, 0x77) == 0x1077
    ensures NewEvent(DEVICE, 0, 0x58) == 0x1058 && NewEvent(DEVICE, 0, 0xFA) == 0x10FA && NewEvent(DEVICE, 0, 0xFE) == 0x10FE
  {
    hide NewEvent;
    PackedValue(0, 0x3A);
    PackedValue(0, 0x7E);
    PackedValue(0, 0x77);
    PackedValue(0, 0x58);
    PackedValue(0, 0xFA);
    PackedValue(0, 0xFE);
  }
}
