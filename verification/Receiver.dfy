/** The mouse clock interrupt: reassembles bytes from one line level per falling clock edge. */
module Receiver {
  import opened Bits
  import opened Ring

  /** Where in a frame the receiver is; `Data` holds the bits sampled so far, `Stop` a byte whose parity was right. */
  datatype Line = Idle | Data(bits: seq<bool>) | Stop(bits: seq<bool>)

  /** `pin` is the value that a high level has in the parity test: that of the port's bit it is read from. */
  datatype Rx = Rx(line: Line, error: bool, pin: nat) {
    predicate Valid() {
      match line
      case Idle => true
      case Data(bits) => |bits| <= 8
      case Stop(bits) => |bits| == 8
    }
  }

  /** What an edge leads to: `Drive` puts levels on the line towards the device. */
  datatype Effect = Nothing | Drive(levels: seq<bool>) | Accept(b: byte)

  const MOUSE_PIN := 1
  const KEYBOARD_PIN := 2

  const Ready := Rx(Idle, false, MOUSE_PIN)

  /** The parity test compares the masked pin with the weight of the data, 0 or 1. */
  predicate RejectsParity(pin: nat, level: bool, bits: seq<bool>) {
    (if level then pin else 0) == (if OddOnes(bits) then 1 else 0)
  }

  /** One clock edge. Only the first error of a run of errors asks for a resend; later ones keep the position. */
  function Edge(rx: Rx, level: bool): (r: (Rx, Effect))
    requires rx.Valid()
    ensures r.0.Valid()
  {
    match rx.line
    case Idle => (if level then rx else rx.(line := Data([])), Nothing)
    case Data(bits) =>
      if |bits| < 8 then (rx.(line := Data(bits + [level])), Nothing)
      else if RejectsParity(rx.pin, level, bits) then Rejected(rx)
      else (rx.(line := Stop(bits)), Nothing)
    case Stop(bits) =>
      if level then (rx.(line := Idle, error := false), Accept(Pack(bits))) else Rejected(rx)
  }

  function Rejected(rx: Rx): (Rx, Effect) {
    if rx.error then (rx, Nothing) else (rx.(line := Idle, error := true), Drive(Frame(RESEND)))
  }

  const RESEND: byte := 0xFE

  function Driven(effect: Effect): seq<bool> { if effect.Drive? then effect.levels else [] }

  /** The static variables of the driver that the interrupt owns, and the bytes it has sent to the mouse. */
  class MouseReceiver {
    var bitN: nat
    var buffer: byte
    var error: bool
    const ring: RingBuffer
    var sent: seq<byte>
    const timeout: nat
    var timer: nat
    var action: bool

    ghost predicate Valid()
      reads `bitN, `buffer, ring
    {
      InRange() && ring.Valid()
    }

    ghost predicate InRange()
      reads `bitN, `buffer
    {
      && 1 <= bitN <= 11
      && (bitN == 1 ==> buffer == 0)
      && (2 <= bitN <= 10 ==> buffer < Pow2(bitN - 2))
    }

    ghost function State(): (rx: Rx)
      requires InRange()
      reads `bitN, `buffer, `error
      ensures rx.Valid()
    {
      Rx(if bitN == 1 then Idle
         else if bitN <= 10 then Data(Digits(buffer, bitN - 2))
         else Stop(Unpack(buffer)), error, MOUSE_PIN)
    }

    constructor (size: nat)
      requires size < 256
      ensures Valid() && fresh(ring) && fresh(ring.data)
      ensures State() == Ready && ring.Contents() == [] && sent == [] && ring.data.Length == size
      ensures timeout == 15 && timer == 0 && !action
    {
      bitN, buffer, error, sent := 1, 0, false, [];
      timeout, timer, action := 15, 0, false;
      ring := new RingBuffer(size);
    }

    /**
     * Host to device transmission. The levels put on the data line form the very frame a device uses, and
     * whatever the receiver had collected is forgotten.
     */
    method SendByte(data: byte) returns (wire: seq<bool>)
      requires InRange()
      modifies `bitN, `buffer, `error, `sent
      ensures InRange() && State() == Ready
      ensures wire == Frame(data)
      ensures sent == old(sent) + [data]
    {
      hide Digits, OddOnes, And;
      buffer, error, bitN := 0, false, 1;
      wire := [false];
      var mask: byte := 1;
      ghost var k := 0;
      while mask != 0
        invariant 0 <= k <= 8 && mask == if k < 8 then Pow2(k) else 0
        invariant wire == [false] + Unpack(data)[..k]
        decreases 8 - k
        modifies {}
      {
        AndMask(data, 8, k);
        ByteBound();
        wire := wire + [And(data, mask) != 0];
        mask := (mask * 2) % 256;
        k := k + 1;
      }
      wire := wire + [!OddOnes(Unpack(data))];
      wire := wire + [true];
      sent := sent + [data];
    }

    /** A frame is corrupt: ask for it again unless the previous frame was corrupt too. */
    method AskForResend() returns (wire: seq<bool>)
      requires InRange() && bitN >= 10
      modifies `bitN, `buffer, `error, `sent
      ensures InRange() && State() == Rejected(old(State())).0
      ensures wire == Driven(Rejected(old(State())).1) == if old(error) then [] else Frame(0xFE)
      ensures sent == if old(error) then old(sent) else old(sent) + [0xFE]
    {
      wire := [];
      if !error {
        wire := SendByte(RESEND);
      }
      error := true;
    }

    /** Bits 2 to 9: the level joins the bits collected so far. */
    method DataBit(level: bool)
      requires InRange() && 2 <= bitN <= 9
      modifies `bitN, `buffer
      ensures InRange() && State() == Edge(old(State()), level).0
    {
      hide Digits, OddOnes, Value, Pow2, Or;
      AppendDigit(buffer, bitN - 2, level);
      ByteRange(bitN - 2);
      if level {
        buffer := Or(buffer, Pow2(bitN - 2));
      }
      bitN := bitN + 1;
    }

    /** Bit 10: the parity bit must make the weight odd. */
    method ParityBit(level: bool) returns (wire: seq<bool>)
      requires InRange() && bitN == 10
      modifies `bitN, `buffer, `error, `sent
      ensures InRange() && State() == Edge(old(State()), level).0
      ensures wire == Driven(Edge(old(State()), level).1)
      ensures sent == if Edge(old(State()), level).1.Drive? then old(sent) + [0xFE] else old(sent)
    {
      hide Digits, OddOnes, Value, Pow2, Frame;
      wire := [];
      if level == OddOnes(Unpack(buffer)) {
        wire := AskForResend();
        return;
      }
      bitN := bitN + 1;
    }

    /** Bit 11: a high level queues the byte. */
    method StopBit(level: bool) returns (wire: seq<bool>)
      requires Valid() && bitN == 11
      modifies `bitN, `buffer, `error, `sent, ring, ring.data
      ensures Valid() && State() == Edge(old(State()), level).0
      ensures wire == Driven(Edge(old(State()), level).1)
      ensures sent == if Edge(old(State()), level).1.Drive? then old(sent) + [0xFE] else old(sent)
      ensures ring.Contents() == if level then Offer(old(ring.Contents()), ring.data.Length, old(buffer)) else old(ring.Contents())
    {
      hide Digits, OddOnes, Value, Pow2, Frame;
      wire := [];
      if !level {
        wire := AskForResend();
        return;
      } else {
        var _ := ring.AddElement(buffer);
      }
      buffer, bitN, error := 0, 0, false;
      bitN := bitN + 1;
    }

    /** `wire` is what the interrupt puts on the line: nothing, or the frame that asks the device to send again. */
    method ClockInterrupt(level: bool) returns (wire: seq<bool>)
      requires Valid()
      modifies this, ring, ring.data
      ensures Valid()
      ensures State() == Edge(old(State()), level).0
      ensures match Edge(old(State()), level).1
              case Nothing => sent == old(sent) && ring.Contents() == old(ring.Contents())
              case Drive(levels) => sent == old(sent) + [0xFE] && ring.Contents() == old(ring.Contents())
              case Accept(b) => sent == old(sent) && ring.Contents() == Offer(old(ring.Contents()), ring.data.Length, b)
      ensures wire == Driven(Edge(old(State()), level).1)
      ensures timer == timeout && !action
    {
      hide Digits, OddOnes, Value, Pow2, Or, Frame;
      timer, action, wire := timeout, false, [];
      if bitN == 1 && level {
        return;
      } else if 2 <= bitN <= 9 {
        DataBit(level);
      } else if bitN == 10 {
        wire := ParityBit(level);
      } else if bitN == 11 {
        PackUnpack(buffer);
        wire := StopBit(level);
      } else {
        bitN := bitN + 1;
      }
    }

    method TimerInterrupt()
      modifies `timer, `action
      ensures timer == if old(timer) == 0 then 0 else old(timer) - 1
      ensures action <==> old(action) || old(timer) == 1
    {
      if timer > 0 {
        timer := timer - 1;
        if timer == 0 && !action {
          action := true;
        }
      }
    }
  }
}
