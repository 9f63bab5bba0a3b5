/** What the mouse receiver makes of whole transmissions, over a wire that may corrupt bits. */
module Wire {
  import opened Bits
  import opened Receiver

  /** The receiver together with every byte it has queued and all levels it has driven towards the device. */
  datatype Trace = Trace(rx: Rx, accepted: seq<byte>, driven: seq<seq<bool>>) {
    predicate Valid() { rx.Valid() }

    /** How the receiver begins to ask for a resend. */
    function Asking(): Trace { this.(rx := rx.(line := Idle, error := true), driven := driven + [Frame(0xFE)]) }
  }

  function Clock(t: Trace, level: bool): (r: Trace)
    requires t.Valid()
    ensures r.Valid()
  {
    var (rx, effect) := Edge(t.rx, level);
    match effect
    case Nothing => t.(rx := rx)
    case Drive(levels) => t.(rx := rx, driven := t.driven + [levels])
    case Accept(b) => t.(rx := rx, accepted := t.accepted + [b])
  }

  function Run(t: Trace, levels: seq<bool>): (r: Trace)
    requires t.Valid()
    ensures r.Valid()
    decreases |levels|
  {
    if levels == [] then t else Run(Clock(t, levels[0]), levels[1..])
  }

  /** The byte that a device reads off the levels a host has driven; -1 if they are no frame with right parity. */
  function Heard(levels: seq<bool>): int {
    if |levels| == 11 && !levels[0] && levels[10] && Ones(levels[1..10]) % 2 == 1 then Pack(levels[1..9]) else -1
  }

  /** A device that is interrupted sends again only if it has been asked to, by the byte 0xFE. */
  function Answer(levels: seq<bool>, again: seq<bool>): seq<bool> { if Heard(levels) == 0xFE then again else [] }

  lemma HeardFrame(b: byte)
    ensures Heard(Frame(b)) == b
  {
    hide Digits, OddOnes, Ones, Value;
    FrameBits(b);
    assert Frame(b)[1..9] == Unpack(b);
    PackUnpack(b);
  }

  lemma Granted(again: seq<bool>)
    ensures Answer(Frame(0xFE), again) == again
  {
    hide Heard, Frame;
    HeardFrame(0xFE);
  }

  /** The device clocks out `bits`; if the host drives the line it drops the rest and clocks out its answer to that. */
  function Transmit(t: Trace, bits: seq<bool>, again: seq<bool>): (r: Trace)
    requires t.Valid()
    ensures r.Valid()
    decreases |bits|
  {
    if bits == [] then t else
    var next := Clock(t, bits[0]);
    if |next.driven| > |t.driven| then Run(next, Answer(next.driven[|t.driven|], again)) else Transmit(next, bits[1..], again)
  }

  /** Line noise on one transmission of a frame: at most one data (1-8), parity (9) or stop (10) bit is inverted. */
  datatype Fault = Clean | Flip(at: nat) {
    predicate Valid() { Flip? ==> 1 <= at <= 10 }
  }

  function Corrupt(b: byte, fault: Fault): (f: seq<bool>)
    requires fault.Valid()
    ensures |f| == 11
  {
    if fault.Clean? then Frame(b) else Frame(b)[fault.at := !Frame(b)[fault.at]]
  }

  function Repeat(level: bool, n: nat): (s: seq<bool>)
    ensures |s| == n
  {
    seq(n, _ => level)
  }

  /** What the host drives when it asks for n resends. */
  function Asked(n: nat): (driven: seq<seq<bool>>)
    ensures |driven| == n
  {
    seq(n, _ => Frame(0xFE))
  }

  const STOP := 10
  const PARITY := 9

  // Runs and concatenation

  lemma {:induction false} RunConcat(t: Trace, a: seq<bool>, b: seq<bool>)
    requires t.Valid()
    ensures Run(t, a + b) == Run(Run(t, a), b)
    decreases |a|
  {
    if a == [] {
      assert a + b == b;
    } else {
      assert (a + b)[1..] == a[1..] + b;
      RunConcat(Clock(t, a[0]), a[1..], b);
    }
  }

  lemma {:induction false} RequestsGrow(t: Trace, levels: seq<bool>)
    requires t.Valid()
    ensures |Run(t, levels).driven| >= |t.driven|
    decreases |levels|
  {
    if levels != [] {
      RequestsGrow(Clock(t, levels[0]), levels[1..]);
    }
  }

  /** As long as nothing is asked of it, the device just keeps clocking. */
  lemma {:induction false} TransmitQuietly(t: Trace, a: seq<bool>, b: seq<bool>, again: seq<bool>)
    requires t.Valid() && Run(t, a).driven == t.driven
    ensures Transmit(t, a + b, again) == Transmit(Run(t, a), b, again)
    decreases |a|
  {
    if a == [] {
      assert a + b == b;
    } else {
      assert (a + b)[1..] == a[1..] + b;
      RequestsGrow(Clock(t, a[0]), a[1..]);
      TransmitQuietly(Clock(t, a[0]), a[1..], b, again);
    }
  }

  lemma {:induction false} RunIdle(t: Trace, n: nat)
    requires t.Valid() && t.rx.line == Idle
    ensures Run(t, Repeat(true, n)) == t
  {
    if n > 0 {
      assert Repeat(true, n)[1..] == Repeat(true, n - 1);
      RunIdle(t, n - 1);
    }
  }

  lemma {:induction false} RunData(t: Trace, d: seq<bool>)
    requires t.Valid() && t.rx.line.Data? && |t.rx.line.bits| + |d| <= 8
    ensures Run(t, d) == t.(rx := t.rx.(line := Data(t.rx.line.bits + d)))
    decreases |d|
  {
    if d == [] {
      assert t.rx.line.bits + d == t.rx.line.bits;
    } else {
      assert t.rx.line.bits + [d[0]] + d[1..] == t.rx.line.bits + d;
      RunData(Clock(t, d[0]), d[1..]);
    }
  }

  /** After idle edges, a start bit and eight data bits, the receiver holds exactly the data bits. */
  lemma RunHead(t: Trace, lead: nat, d: seq<bool>)
    requires t.Valid() && t.rx.line == Idle && |d| == 8
    ensures Run(t, Repeat(true, lead) + ([false] + d)) == t.(rx := t.rx.(line := Data(d)))
  {
    RunIdle(t, lead);
    RunConcat(t, Repeat(true, lead), [false] + d);
    assert ([false] + d)[1..] == d;
    RunData(Clock(t, false), d);
    assert [] + d == d;
  }

  lemma RunOne(t: Trace, level: bool)
    requires t.Valid()
    ensures Run(t, [level]) == Clock(t, level)
  {
    assert Run(Clock(t, level), [level][1..]) == Clock(t, level);
  }

  // A frame seen as data, parity bit and stop bit

  function DataOf(b: byte, fault: Fault): (d: seq<bool>)
    requires fault.Valid()
    ensures |d| == 8
  {
    if fault.Flip? && fault.at <= 8 then Unpack(b)[fault.at - 1 := !Unpack(b)[fault.at - 1]] else Unpack(b)
  }

  function ParityOf(b: byte, fault: Fault): bool {
    OddOnes(Unpack(b)) == (fault == Flip(PARITY))
  }

  function StopOf(fault: Fault): bool { fault != Flip(STOP) }

  lemma CorruptParts(b: byte, fault: Fault)
    requires fault.Valid()
    ensures Corrupt(b, fault) == [false] + DataOf(b, fault) + [ParityOf(b, fault), StopOf(fault)]
    ensures (ParityOf(b, fault) != OddOnes(DataOf(b, fault))) == (fault.Clean? || fault.at == STOP)
    ensures Pack(DataOf(b, fault)) == b <==> fault.Clean? || fault.at > 8
  {
    hide Digits, Value, OddOnes;
    PackUnpack(b);
    if fault.Flip? && fault.at <= 8 {
      FlipChangesParity(Unpack(b), fault.at - 1);
      DigitsValue(DataOf(b, fault));
    }
  }

  /** A whole frame, clocked open loop: the data bits land in the receiver, then parity and stop bit decide. */
  lemma RunFrame(t: Trace, b: byte, lead: nat, fault: Fault)
    requires t.Valid() && t.rx.line == Idle && fault.Valid()
    ensures var t9 := t.(rx := t.rx.(line := Data(DataOf(b, fault))));
            && Run(t, Repeat(true, lead) + ([false] + DataOf(b, fault))) == t9
            && Run(t, Repeat(true, lead) + Corrupt(b, fault)) == Clock(Clock(t9, ParityOf(b, fault)), StopOf(fault))
  {
    hide OddOnes, Corrupt, DataOf, ParityOf, Digits, Edge;
    var d, p, s := DataOf(b, fault), ParityOf(b, fault), StopOf(fault);
    CorruptParts(b, fault);
    RunHead(t, lead, d);
    var head := Repeat(true, lead) + ([false] + d);
    assert Repeat(true, lead) + Corrupt(b, fault) == head + ([p] + [s]);
    RunConcat(t, head, [p] + [s]);
    RunConcat(Run(t, head), [p], [s]);
    RunOne(Run(t, head), p);
    RunOne(Clock(Run(t, head), p), s);
  }

  /** What a resend leaves behind when the receiver is already in error; `trail` idle edges follow the frame. */
  lemma SecondAttempt(t: Trace, b: byte, gap: nat, fault: Fault, trail: nat)
    requires t.Valid() && t.rx == Rx(Idle, true, MOUSE_PIN) && fault.Valid()
    ensures Run(Run(t, Repeat(true, gap) + Corrupt(b, fault)), Repeat(true, trail))
            == AfterResend(t, b, fault, trail)
  {
    hide OddOnes, Corrupt, DataOf, ParityOf, Digits;
    CorruptParts(b, fault);
    RunFrame(t, b, gap, fault);
    var t11 := Run(t, Repeat(true, gap) + Corrupt(b, fault));
    if fault.Clean? {
      RunIdle(t11, trail);
    } else if t11.rx.line.Stop? && trail > 0 {
      assert Repeat(true, trail)[1..] == Repeat(true, trail - 1);
      RunIdle(Clock(t11, true), trail - 1);
    } else if t11.rx.line.Data? {
      RunStuck(t11, trail);
    }
  }

  /** A receiver in error whose data has odd weight ignores high levels for ever. */
  lemma {:induction false} RunStuck(t: Trace, n: nat)
    requires t.Valid() && t.rx.pin == MOUSE_PIN && t.rx.error && t.rx.line.Data? && |t.rx.line.bits| == 8 && OddOnes(t.rx.line.bits)
    ensures Run(t, Repeat(true, n)) == t
  {
    hide OddOnes;
    if n > 0 {
      assert Repeat(true, n)[1..] == Repeat(true, n - 1);
      RunStuck(t, n - 1);
    }
  }

  /** A closed form for the outcome of a resend. */
  function AfterResend(t: Trace, b: byte, fault: Fault, trail: nat): Trace
    requires fault.Valid()
  {
    var d := DataOf(b, fault);
    if fault.Clean? then t.(rx := Ready, accepted := t.accepted + [b])
    else if fault.at != STOP && OddOnes(d) then t.(rx := Rx(Data(d), true, MOUSE_PIN))
    else if trail == 0 then t.(rx := Rx(Stop(d), true, MOUSE_PIN))
    else t.(rx := Ready, accepted := t.accepted + [Pack(d)])
  }

  /** The first transmission: clean frames are queued at once, a corrupt one is answered by exactly one request. */
  lemma FirstAttempt(t: Trace, b: byte, lead: nat, fault: Fault, again: seq<bool>)
    requires t.Valid() && t.rx == Ready && fault.Valid()
    ensures Transmit(t, Repeat(true, lead) + Corrupt(b, fault), again) ==
            if fault.Clean? then t.(accepted := t.accepted + [b])
            else Run(t.Asking(), again)
  {
    hide OddOnes, Corrupt, DataOf, ParityOf, Digits;
    var d, p, s := DataOf(b, fault), ParityOf(b, fault), StopOf(fault);
    CorruptParts(b, fault);
    RunFrame(t, b, lead, fault);
    var head := Repeat(true, lead) + ([false] + d);
    assert Repeat(true, lead) + Corrupt(b, fault) == head + [p, s];
    TransmitQuietly(t, head, [p, s], again);
    hide Heard, Frame, Answer;
    Granted(again);
    TransmitTwo(Run(t, head), p, s, again);
  }

  /** The last two bits of a transmission. */
  lemma TransmitTwo(t: Trace, p: bool, s: bool, again: seq<bool>)
    requires t.Valid()
    ensures var next := Clock(t, p);
            var last := Clock(next, s);
            Transmit(t, [p, s], again) ==
            if |next.driven| > |t.driven| then Run(next, Answer(next.driven[|t.driven|], again))
            else if |last.driven| > |next.driven| then Run(last, Answer(last.driven[|next.driven|], again))
            else last
  {
    hide Edge, Answer;
    assert [p, s][1..] == [s] && [s][1..] == [];
    var next := Clock(t, p);
    if |next.driven| <= |t.driven| {
      assert Transmit(t, [p, s], again) == Transmit(next, [s], again);
      assert Transmit(Clock(next, s), [], again) == Clock(next, s);
    }
  }

  /** One byte: a first transmission, and, if the host asks for it, a second one; then `trail` idle edges. */
  function Deliver(t: Trace, b: byte, lead: nat, first: Fault, gap: nat, second: Fault, trail: nat): (r: Trace)
    requires t.Valid() && first.Valid() && second.Valid()
    ensures r.Valid()
  {
    Run(Transmit(t, Repeat(true, lead) + Corrupt(b, first), Repeat(true, gap) + Corrupt(b, second)), Repeat(true, trail))
  }

  /**
   * Exactly once, and when not. The byte arrives and the receiver is ready for the next one if and only if the
   * first transmission or the resend is clean, or the resend is wrong only in its stop bit or, for a byte of even
   * weight, only in its parity bit, and an idle edge follows before the next start bit.
   */
  lemma DeliveredExactlyOnce(t: Trace, b: byte, lead: nat, first: Fault, gap: nat, second: Fault, trail: nat)
    requires t.Valid() && t.rx == Ready && first.Valid() && second.Valid()
    ensures var after := Deliver(t, b, lead, first, gap, second, trail);
            && after.driven == t.driven + Asked(if first.Clean? then 0 else 1)
            && (after.rx == Ready && after.accepted == t.accepted + [b] <==>
                || first.Clean? || second.Clean?
                || (trail > 0 && (second.at == STOP || (second.at == PARITY && !OddOnes(Unpack(b))))))
  {
    hide OddOnes, Corrupt, ParityOf, Digits;
    FirstAttempt(t, b, lead, first, Repeat(true, gap) + Corrupt(b, second));
    CorruptParts(b, second);
    if first.Clean? {
      RunIdle(t.(accepted := t.accepted + [b]), trail);
    } else {
      SecondAttempt(t.Asking(), b, gap, second, trail);
      hide Pack;
      assert (t.accepted + [b])[|t.accepted|] == b;
      assert (t.accepted + [Pack(DataOf(b, second))])[|t.accepted|] == Pack(DataOf(b, second));
    }
  }

  /**
   * A resend with a wrong data bit is never noticed: a byte of odd weight is queued in corrupted form at the next
   * idle edge, and a byte of even weight leaves the receiver waiting in the middle of the frame.
   */
  lemma CorruptResend(t: Trace, b: byte, lead: nat, first: Fault, gap: nat, at: nat, trail: nat)
    requires t.Valid() && t.rx == Ready && first.Valid() && first.Flip? && 1 <= at <= 8 && trail > 0
    ensures var after := Deliver(t, b, lead, first, gap, Flip(at), trail);
            if OddOnes(Unpack(b)) then after.rx == Ready && exists wrong: byte :: wrong != b && after.accepted == t.accepted + [wrong]
            else after.rx.line.Data? && after.rx.error && after.accepted == t.accepted
  {
    hide OddOnes, Corrupt, ParityOf, Digits;
    FirstAttempt(t, b, lead, first, Repeat(true, gap) + Corrupt(b, Flip(at)));
    SecondAttempt(t.Asking(), b, gap, Flip(at), trail);
    CorruptParts(b, Flip(at));
    FlipChangesParity(Unpack(b), at - 1);
    hide Pack;
    if OddOnes(Unpack(b)) {
      var wrong := Pack(DataOf(b, Flip(at)));
      assert wrong != b;
    }
  }

  // Sequences of bytes

  datatype Sending = Sending(b: byte, lead: nat, fault: Fault, gap: nat)

  function SendAll(t: Trace, sendings: seq<Sending>): (r: Trace)
    requires t.Valid() && forall s :: s in sendings ==> s.fault.Valid()
    ensures r.Valid()
    decreases |sendings|
  {
    if sendings == [] then t else
    var s := sendings[0];
    SendAll(Deliver(t, s.b, s.lead, s.fault, s.gap, Clean, 0), sendings[1..])
  }

  function Payload(sendings: seq<Sending>): (bytes: seq<byte>)
    ensures |bytes| == |sendings|
  {
    seq(|sendings|, i requires 0 <= i < |sendings| => sendings[i].b)
  }

  function Faults(sendings: seq<Sending>): nat {
    if sendings == [] then 0 else (if sendings[0].fault.Clean? then 0 else 1) + Faults(sendings[1..])
  }

  /** Any number of bytes, each corrupted at most once in its first transmission, arrive exactly once and in order. */
  lemma {:induction false} AllDelivered(t: Trace, sendings: seq<Sending>)
    requires t.Valid() && t.rx == Ready && forall s :: s in sendings ==> s.fault.Valid()
    ensures SendAll(t, sendings) == Trace(Ready, t.accepted + Payload(sendings), t.driven + Asked(Faults(sendings)))
    decreases |sendings|
  {
    hide Deliver, OddOnes, Digits;
    if sendings != [] {
      var s := sendings[0];
      DeliveredExactlyOnce(t, s.b, s.lead, s.fault, s.gap, Clean, 0);
      AllDelivered(Deliver(t, s.b, s.lead, s.fault, s.gap, Clean, 0), sendings[1..]);
      assert Payload(sendings) == [s.b] + Payload(sendings[1..]);
      assert Asked(if s.fault.Clean? then 0 else 1) + Asked(Faults(sendings[1..])) == Asked(Faults(sendings));
    }
  }

  // Arbitrary line levels

  /**
   * The only shape of line levels that queues `b`: a low start bit, the bits of `b`, `rejected` wrong parity bits,
   * the right parity bit, `delayed` low stop bits and a high stop bit.
   */
  function Accepted(b: byte, rejected: nat, delayed: nat): seq<bool> {
    [false] + Unpack(b) + Repeat(OddOnes(Unpack(b)), rejected) + [!OddOnes(Unpack(b))] + Repeat(false, delayed) + [true]
  }

  ghost predicate Occurs(history: seq<bool>, from: nat, to: nat, b: byte, rejected: nat, delayed: nat) {
    from <= to <= |history| && history[from..to] == Accepted(b, rejected, delayed)
  }

  /** Each queued byte stems from its own accepted stretch of the history, in order and without overlap. */
  ghost predicate Explains(history: seq<bool>, queued: seq<byte>)
    decreases |queued|
  {
    queued == [] ||
    var last := queued[|queued| - 1];
    exists from: nat, to: nat, rejected: nat, delayed: nat ::
      Occurs(history, from, to, last, rejected, delayed) && Explains(history[..from], queued[..|queued| - 1])
  }

  /** What the history must look like from the start bit at `from` on, in the middle of a frame. */
  ghost predicate Partial(line: Line, tail: seq<bool>, rejected: nat, delayed: nat) {
    match line
    case Idle => true
    case Data(bits) =>
      && tail == [false] + bits + Repeat(OddOnes(bits), rejected)
      && (|bits| < 8 ==> rejected == 0)
    case Stop(bits) =>
      tail == [false] + bits + Repeat(OddOnes(bits), rejected) + [!OddOnes(bits)] + Repeat(false, delayed)
  }

  lemma {:induction false} ExplainsLonger(history: seq<bool>, level: bool, queued: seq<byte>)
    requires Explains(history, queued)
    ensures Explains(history + [level], queued)
  {
    if queued != [] {
      var last := queued[|queued| - 1];
      var from: nat, to: nat, rejected: nat, delayed: nat :|
        && Occurs(history, from, to, last, rejected, delayed)
        && Explains(history[..from], queued[..|queued| - 1]);
      var longer := history + [level];
      assert longer[from..to] == history[from..to] && longer[..from] == history[..from];
      assert Occurs(longer, from, to, last, rejected, delayed);
    }
  }

  lemma ExplainsAccepted(history: seq<bool>, from: nat, b: byte, rejected: nat, delayed: nat, queued: seq<byte>)
    requires from <= |history| && history[from..] == Accepted(b, rejected, delayed)
    requires Explains(history[..from], queued)
    ensures Explains(history, queued + [b])
  {
    hide Accepted;
    assert history[from..|history|] == history[from..];
    assert Occurs(history, from, |history|, b, rejected, delayed);
    var longer := queued + [b];
    assert longer[..|longer| - 1] == queued && longer[|longer| - 1] == b;
    assert Explains(history[..from], longer[..|longer| - 1]);
  }

  /** One edge keeps the account of the history. */
  lemma Account(t: Trace, history: seq<bool>, from: nat, rejected: nat, delayed: nat, level: bool)
    returns (from': nat, rejected': nat, delayed': nat)
    requires t.Valid() && t.rx.pin == MOUSE_PIN && from <= |history|
    requires Explains(history[..from], t.accepted) && Partial(t.rx.line, history[from..], rejected, delayed)
    ensures var next, longer := Clock(t, level), history + [level];
            && from' <= |longer| && next.rx.pin == MOUSE_PIN
            && Explains(longer[..from'], next.accepted) && Partial(next.rx.line, longer[from'..], rejected', delayed')
  {
    hide OddOnes, Digits, Value, Explains;
    var next, longer := Clock(t, level), history + [level];
    from', rejected', delayed' := from, rejected, delayed;
    assert longer[..from] == history[..from] && longer[from..] == history[from..] + [level];
    if next.rx.line == Idle {
      from' := |longer|;
      assert longer[..from'] == longer;
      if next.accepted != t.accepted {
        DigitsValue(t.rx.line.bits);
        ExplainsAccepted(longer, from, Pack(t.rx.line.bits), rejected, delayed, t.accepted);
      } else {
        ExplainsAll(history[..from], longer[from..], t.accepted);
        assert history[..from] + longer[from..] == longer;
      }
    } else if t.rx.line == Idle {
      from', rejected', delayed' := |history|, 0, 0;
      ExplainsAll(history[..from], history[from..], t.accepted);
      assert history[..from] + history[from..] == history == longer[..from'];
      assert longer[from'..] == [false] + [] + Repeat(false, 0);
    } else if t.rx.line.Data? && next.rx.line.Data? && |t.rx.line.bits| == 8 {
      rejected' := rejected + 1;
      assert Repeat(level, rejected) + [level] == Repeat(level, rejected + 1);
    } else if t.rx.line.Data? && next.rx.line.Stop? {
      delayed' := 0;
    } else if t.rx.line.Stop? {
      delayed' := delayed + 1;
      assert Repeat(false, delayed) + [false] == Repeat(false, delayed + 1);
    }
  }

  lemma {:induction false} ExplainsAll(history: seq<bool>, more: seq<bool>, queued: seq<byte>)
    requires Explains(history, queued)
    ensures Explains(history + more, queued)
    decreases |more|
  {
    if more == [] {
      assert history + more == history;
    } else {
      ExplainsLonger(history, more[0], queued);
      ExplainsAll(history + [more[0]], more[1..], queued);
      assert history + [more[0]] + more[1..] == history + more;
    }
  }

  /**
   * For every stream of line levels, noise included, every byte the receiver ever queues was on the line as a start
   * bit and its eight data bits, followed by a parity bit that makes the weight odd and then by a high stop bit.
   */
  lemma EveryByteJustified(levels: seq<bool>)
    ensures Explains(levels, Run(Trace(Ready, [], []), levels).accepted)
  {
    Justify(Trace(Ready, [], []), [], 0, 0, 0, levels);
    assert [] + levels == levels;
  }

  lemma {:induction false} Justify(t: Trace, history: seq<bool>, from: nat, rejected: nat, delayed: nat, levels: seq<bool>)
    requires t.Valid() && t.rx.pin == MOUSE_PIN && from <= |history|
    requires Explains(history[..from], t.accepted) && Partial(t.rx.line, history[from..], rejected, delayed)
    ensures Explains(history + levels, Run(t, levels).accepted)
    decreases |levels|
  {
    hide Partial, Edge;
    if levels == [] {
      ExplainsAll(history[..from], history[from..], t.accepted);
      assert history[..from] + history[from..] == history == history + levels;
    } else {
      var from', rejected', delayed' := Account(t, history, from, rejected, delayed, levels[0]);
      Justify(Clock(t, levels[0]), history + [levels[0]], from', rejected', delayed', levels[1..]);
      assert history + [levels[0]] + levels[1..] == history + levels;
    }
  }

  // The keyboard

  /**
   * The keyboard samples pin 1 of its port with a masking macro, so a high level reads as 2 and never equals the
   * data's parity, which is 0 or 1. Apart from that its receiver is the mouse's.
   */
  const KeyboardReady := Rx(Idle, false, KEYBOARD_PIN)

  /**
   * The mouse's parity test finds every single inverted data or parity bit. The keyboard's never raises a false
   * alarm, but misses an inverted data bit in bytes of even weight and an inverted parity bit in bytes of odd weight.
   */
  lemma KeyboardMissesHalf(b: byte, fault: Fault)
    requires fault.Valid()
    ensures RejectsParity(MOUSE_PIN, ParityOf(b, fault), DataOf(b, fault)) <==> fault.Flip? && fault.at <= PARITY
    ensures RejectsParity(KEYBOARD_PIN, ParityOf(b, fault), DataOf(b, fault)) <==>
            fault.Flip? && fault.at <= PARITY && OddOnes(Unpack(b)) == (fault.at < PARITY)
  {
    hide OddOnes, Digits;
    if fault.Flip? && fault.at < PARITY {
      FlipChangesParity(Unpack(b), fault.at - 1);
    }
  }

  /** The faults that the keyboard's receiver answers with a request, for bytes of odd or even weight. */
  predicate KeyboardNotices(odd: bool, fault: Fault) {
    fault.Flip? && (fault.at == STOP || odd == (fault.at < PARITY))
  }

  /** The transmissions that end with the right byte queued. */
  predicate KeyboardTakes(odd: bool, fault: Fault) {
    fault.Clean? || (fault.at == PARITY && odd)
  }

  lemma KeyboardFirst(t: Trace, b: byte, lead: nat, fault: Fault, again: seq<bool>)
    requires t.Valid() && t.rx == KeyboardReady && fault.Valid()
    ensures Transmit(t, Repeat(true, lead) + Corrupt(b, fault), again) ==
            if KeyboardNotices(OddOnes(Unpack(b)), fault) then
              Run(t.Asking(), again)
            else t.(accepted := t.accepted + [Pack(DataOf(b, fault))])
  {
    hide OddOnes, Corrupt, DataOf, ParityOf, Digits, RejectsParity;
    var d, p, s := DataOf(b, fault), ParityOf(b, fault), StopOf(fault);
    CorruptParts(b, fault);
    KeyboardMissesHalf(b, fault);
    RunFrame(t, b, lead, fault);
    var head := Repeat(true, lead) + ([false] + d);
    assert Repeat(true, lead) + Corrupt(b, fault) == head + [p, s];
    TransmitQuietly(t, head, [p, s], again);
    hide Heard, Frame, Answer;
    Granted(again);
    TransmitTwo(Run(t, head), p, s, again);
  }

  /** A resend, with `trail` idle edges after it: what the test finds wrong is passed by the next high level. */
  lemma KeyboardSecond(t: Trace, b: byte, gap: nat, fault: Fault, trail: nat)
    requires t.Valid() && t.rx == Rx(Idle, true, KEYBOARD_PIN) && fault.Valid()
    ensures Run(Run(t, Repeat(true, gap) + Corrupt(b, fault)), Repeat(true, trail)) ==
            if !KeyboardNotices(OddOnes(Unpack(b)), fault) || trail > 0 then
              t.(rx := KeyboardReady, accepted := t.accepted + [Pack(DataOf(b, fault))])
            else t.(rx := Rx(Stop(DataOf(b, fault)), true, KEYBOARD_PIN))
  {
    hide OddOnes, Corrupt, DataOf, ParityOf, Digits;
    CorruptParts(b, fault);
    KeyboardMissesHalf(b, fault);
    RunFrame(t, b, gap, fault);
    var t11 := Run(t, Repeat(true, gap) + Corrupt(b, fault));
    if t11.rx.line == Idle {
      RunIdle(t11, trail);
    } else if trail > 0 {
      hide Repeat;
      RunRepeat(t11, true, trail);
      RunIdle(Clock(t11, true), trail - 1);
    }
  }

  lemma RunRepeat(t: Trace, level: bool, n: nat)
    requires t.Valid() && n > 0
    ensures Run(t, Repeat(level, n)) == Run(Clock(t, level), Repeat(level, n - 1))
  {
    hide Edge;
    assert Repeat(level, n)[1..] == Repeat(level, n - 1);
  }

  /**
   * Exactly once for the keyboard: if and only if the first transmission is clean or wrong only in the parity bit of a
   * byte of odd weight; or it is noticed, and the resend is such a one, or, with an idle edge after it, wrong only in
   * its stop bit or in the parity bit of a byte of even weight. A data bit inverted in a byte of even weight is queued.
   */
  lemma KeyboardDeliveredExactlyOnce(t: Trace, b: byte, lead: nat, first: Fault, gap: nat, second: Fault, trail: nat)
    requires t.Valid() && t.rx == KeyboardReady && first.Valid() && second.Valid()
    ensures var after, odd := Deliver(t, b, lead, first, gap, second, trail), OddOnes(Unpack(b));
            && after.driven == t.driven + Asked(if KeyboardNotices(odd, first) then 1 else 0)
            && (after.rx == KeyboardReady && after.accepted == t.accepted + [b] <==>
                || KeyboardTakes(odd, first)
                || (KeyboardNotices(odd, first) &&
                    (KeyboardTakes(odd, second) || (trail > 0 && second.at >= PARITY))))
  {
    hide OddOnes, Corrupt, ParityOf, DataOf, Digits, Pack;
    var odd := OddOnes(Unpack(b));
    KeyboardFirst(t, b, lead, first, Repeat(true, gap) + Corrupt(b, second));
    CorruptParts(b, first);
    CorruptParts(b, second);
    var d1, d2 := Pack(DataOf(b, first)), Pack(DataOf(b, second));
    assert (t.accepted + [b])[|t.accepted|] == b && (t.accepted + [d1])[|t.accepted|] == d1 && (t.accepted + [d2])[|t.accepted|] == d2;
    if KeyboardNotices(odd, first) {
      KeyboardSecond(t.Asking(), b, gap, second, trail);
    } else {
      RunIdle(t.(accepted := t.accepted + [d1]), trail);
    }
  }
}
