/** A control request sent by the host: setup, data and status stages over a pipe that may fail at any wait. */
module HostControl {
  import opened Bits

  const SUCCESSFUL := 0
  const SOFTWARE_TIMEOUT := 4
  const TIMEOUT_MS := 1000

  /** Disconnected, pipe error or stalled. */
  type Fault = code: nat | 1 <= code <= 3 witness 1

  /** One wait for the pipe: ready after so many milliseconds, unless a fault strikes in an earlier millisecond. */
  datatype Wait = Wait(readyAfter: nat, faultAfter: nat, fault: Fault) {
    function Code(): nat {
      if readyAfter <= TIMEOUT_MS && readyAfter <= faultAfter then SUCCESSFUL
      else if faultAfter <= TIMEOUT_MS then fault
      else SOFTWARE_TIMEOUT
    }

    function Duration(): nat {
      if Code() == SUCCESSFUL then readyAfter else if Code() == SOFTWARE_TIMEOUT then TIMEOUT_MS + 1 else faultAfter + 1
    }
  }

  const NEVER := Wait(TIMEOUT_MS + 1, TIMEOUT_MS + 1, 1)

  function First(waits: seq<Wait>): Wait { if waits == [] then NEVER else waits[0] }
  function Rest<T>(script: seq<T>): seq<T> { if script == [] then [] else script[1..] }
  function FirstPacket(packets: seq<seq<byte>>): seq<byte> { if packets == [] then [] else packets[0] }

  datatype Token = Setup | In | Out

  /** One packet that the pipe has handed to the bus or taken from it, under the token then selected. */
  datatype Transfer = Transfer(token: Token, data: seq<byte>)

  function Tagged(token: Token, packets: seq<seq<byte>>): (bus: seq<Transfer>)
    ensures |bus| == |packets|
  {
    seq(|packets|, i requires 0 <= i < |packets| => Transfer(token, packets[i]))
  }

  /** A wait in plain numbers: ready within 1000 ms and before any fault, else that fault within 1000 ms, else a timeout. */
  lemma WaitOutcome(wait: Wait)
    ensures (wait.Code(), wait.Duration()) ==
            if wait.readyAfter <= 1000 && wait.readyAfter <= wait.faultAfter then (0, wait.readyAfter)
            else if wait.faultAfter <= 1000 then (wait.fault as nat, wait.faultAfter + 1)
            else (4, 1001)
  {
  }

  // The data stages as functions of what the device does

  /** What an IN data stage of `len` bytes receives, out of which packets, and how it fares. */
  datatype Reception = Reception(code: nat, data: seq<byte>, taken: seq<seq<byte>>, waits: seq<Wait>, ms: nat)

  function Receive(waits: seq<Wait>, packets: seq<seq<byte>>, len: nat): (r: Reception)
    ensures |r.data| <= len
    decreases len
  {
    if len == 0 then Reception(SUCCESSFUL, [], [], waits, 0) else
    var wait, packet := First(waits), FirstPacket(packets);
    if wait.Code() != SUCCESSFUL then Reception(wait.Code(), [], [], Rest(waits), wait.Duration())
    else if packet == [] then Reception(SUCCESSFUL, [], [packet], Rest(waits), wait.Duration())
    else if |packet| >= len then Reception(SUCCESSFUL, packet[..len], [packet], Rest(waits), wait.Duration())
    else
      var r := Receive(Rest(waits), Rest(packets), len - |packet|);
      Reception(r.code, packet + r.data, [packet] + r.taken, r.waits, wait.Duration() + r.ms)
  }

  /** What an OUT data stage puts on the bus; the last wait is for the last packet to leave. */
  datatype Emission = Emission(code: nat, packets: seq<seq<byte>>, waits: seq<Wait>, ms: nat)

  /** With a packet size of zero every turn sends an empty packet and takes nothing from the data. */
  function Emit(waits: seq<Wait>, data: seq<byte>, size: nat): Emission
    decreases |waits|
  {
    var wait := First(waits);
    if wait.Code() != SUCCESSFUL || data == [] then Emission(wait.Code(), [], Rest(waits), wait.Duration())
    else
      var n := if |data| < size then |data| else size;
      var e := Emit(Rest(waits), data[n..], size);
      Emission(e.code, [data[..n]] + e.packets, e.waits, wait.Duration() + e.ms)
  }

  /** The packets a device sends before its first empty one. */
  function UntilEmpty(packets: seq<seq<byte>>): seq<seq<byte>> {
    if packets == [] || packets[0] == [] then [] else [packets[0]] + UntilEmpty(packets[1..])
  }

  /** A successful reception is the concatenation of the packets, cut at the length asked for or at an empty packet. */
  lemma {:induction false} ReceivedData(waits: seq<Wait>, packets: seq<seq<byte>>, len: nat)
    ensures var r, all := Receive(waits, packets, len), Joined(UntilEmpty(packets));
            && r.data <= all
            && (r.code == SUCCESSFUL ==> r.data == if |all| < len then all else all[..len])
    decreases len
  {
    if len > 0 && packets != [] && packets[0] != [] {
      var first, rest := packets[0], UntilEmpty(packets[1..]);
      assert UntilEmpty(packets) == [first] + rest;
      JoinedFirst(first, rest);
      hide Joined, UntilEmpty;
      if |first| < len {
        ReceivedData(Rest(waits), packets[1..], len - |first|);
        CutAfter(first, Joined(rest), len);
        PrefixAfter(first, Receive(Rest(waits), packets[1..], len - |first|).data, Joined(rest));
      }
    }
  }

  lemma CutAfter(first: seq<byte>, later: seq<byte>, len: nat)
    requires |first| < len
    ensures (if |first + later| < len then first + later else (first + later)[..len])
         == first + (if |later| < len - |first| then later else later[..len - |first|])
  {
  }

  /** The packets taken are the first ones of the device, an empty one last if it has no more. */
  lemma {:induction false} TakenPackets(waits: seq<Wait>, packets: seq<seq<byte>>, len: nat)
    ensures Receive(waits, packets, len).taken <= packets + [[]]
    decreases len
  {
    if len > 0 && First(waits).Code() == SUCCESSFUL {
      var packet := FirstPacket(packets);
      assert (packets + [[]])[0] == packet;
      if 0 < |packet| < len {
        TakenPackets(Rest(waits), packets[1..], len - |packet|);
        assert packets + [[]] == [packet] + (packets[1..] + [[]]);
      }
    }
  }

  /** And the data are exactly theirs, up to the length asked for, however the reception ends. */
  lemma {:induction false} TakenData(waits: seq<Wait>, packets: seq<seq<byte>>, len: nat)
    ensures var r := Receive(waits, packets, len);
            var all := Joined(r.taken);
            r.data == if |all| < len then all else all[..len]
    decreases len
  {
    if len > 0 && First(waits).Code() == SUCCESSFUL {
      var packet := FirstPacket(packets);
      if 0 < |packet| < len {
        TakenData(Rest(waits), packets[1..], len - |packet|);
        var rest := Receive(Rest(waits), packets[1..], len - |packet|);
        JoinedFirst(packet, rest.taken);
        hide Joined, First, Rest;
        CutAfter(packet, Joined(rest.taken), len);
      } else {
        JoinedFirst(packet, []);
      }
    }
  }

  lemma JoinedFirst(packet: seq<byte>, packets: seq<seq<byte>>)
    ensures Joined([packet] + packets) == packet + Joined(packets)
    ensures packets == [] ==> [packet] + packets == [packet] && Joined([packet]) == packet
  {
    assert ([packet] + packets)[1..] == packets;
    assert packet + [] == packet;
  }

  /** A successful emission sends exactly the data, in full packets but for the last one, none of them empty. */
  lemma EmittedData(waits: seq<Wait>, data: seq<byte>, size: nat)
    ensures var e := Emit(waits, data, size);
            && Joined(e.packets) <= data
            && (e.code == SUCCESSFUL ==> Joined(e.packets) == data && (size == 0 ==> e.packets == []))
            && (forall i :: 0 <= i < |e.packets| ==> |e.packets[i]| <= size && (size > 0 ==> |e.packets[i]| > 0))
            && (forall i :: 0 <= i < |e.packets| - 1 ==> |e.packets[i]| == size)
  {
    hide Joined;
    EmittedJoined(waits, data, size);
    EmittedSizes(waits, data, size);
  }

  lemma {:induction false} EmittedJoined(waits: seq<Wait>, data: seq<byte>, size: nat)
    ensures var e := Emit(waits, data, size);
            Joined(e.packets) <= data && (e.code == SUCCESSFUL ==> Joined(e.packets) == data)
    decreases |waits|
  {
    EmitStep(waits, data, size);
    if First(waits).Code() == SUCCESSFUL && data != [] {
      var n := if |data| < size then |data| else size;
      ReadyUsesUp(waits);
      hide Joined, First, Rest, Emit;
      var rest := Emit(Rest(waits), data[n..], size);
      EmittedJoined(Rest(waits), data[n..], size);
      JoinedFirst(data[..n], rest.packets);
      PrefixAfter(data[..n], Joined(rest.packets), data[n..]);
      assert data[..n] + data[n..] == data;
    }
  }

  lemma {:induction false} EmittedSizes(waits: seq<Wait>, data: seq<byte>, size: nat)
    ensures var e := Emit(waits, data, size);
            (e.code == SUCCESSFUL && size == 0 ==> e.packets == []) && Sized(e.packets, size)
    decreases |waits|
  {
    if First(waits).Code() == SUCCESSFUL && data != [] {
      var n := if |data| < size then |data| else size;
      EmittedSizes(Rest(waits), data[n..], size);
      var rest := Emit(Rest(waits), data[n..], size);
      assert n < size ==> data[n..] == [];
      assert Emit(waits, data, size).packets == [data[..n]] + rest.packets;
      hide Emit, First, Rest;
      SizesFirst(data[..n], rest.packets, size);
    }
  }

  predicate Sized(packets: seq<seq<byte>>, size: nat) {
    && (forall i :: 0 <= i < |packets| ==> |packets[i]| <= size && (size > 0 ==> |packets[i]| > 0))
    && (forall i :: 0 <= i < |packets| - 1 ==> |packets[i]| == size)
  }

  lemma SizesFirst(packet: seq<byte>, packets: seq<seq<byte>>, size: nat)
    requires Sized(packets, size) && |packet| <= size && (size > 0 ==> |packet| > 0) && (|packet| < size ==> packets == [])
    ensures Sized([packet] + packets, size)
  {
    var all := [packet] + packets;
    forall i | 0 < i < |all| ensures all[i] == packets[i - 1] {}
  }

  lemma PrefixAfter(first: seq<byte>, a: seq<byte>, b: seq<byte>)
    ensures a <= b ==> first + a <= first + b
  {
  }

  lemma WaitBound(wait: Wait)
    ensures wait.Duration() <= 1001
  {
  }

  lemma {:induction false} ReceiveBound(waits: seq<Wait>, packets: seq<seq<byte>>, len: nat)
    ensures Receive(waits, packets, len).ms <= len * 1001
    decreases len
  {
    if len > 0 {
      WaitBound(First(waits));
      var packet := FirstPacket(packets);
      if 0 < |packet| < len {
        ReceiveBound(Rest(waits), Rest(packets), len - |packet|);
        assert (len - |packet|) * 1001 <= (len - 1) * 1001;
      }
    }
  }

  lemma {:induction false} EmitBound(waits: seq<Wait>, data: seq<byte>, size: nat)
    requires size > 0 || data == []
    ensures Emit(waits, data, size).ms <= (|data| + 1) * 1001
    decreases |data|
  {
    WaitBound(First(waits));
    if data != [] && First(waits).Code() == SUCCESSFUL {
      var n := if |data| < size then |data| else size;
      EmitBound(Rest(waits), data[n..], size);
      assert (|data| - n + 1) * 1001 <= |data| * 1001;
    }
  }

  // The request

  function DeviceToHost(header: seq<byte>): bool
    requires |header| == 8
  {
    And(header[0], 0x80) != 0
  }

  function Length(header: seq<byte>): nat
    requires |header| == 8
  {
    var low: int, high: int := header[6], header[7];
    low + 256 * high
  }

  /** Code of a request, the bytes received, the packets of its data stage, everything on the bus, and the time waited. */
  datatype Result = Result(code: nat, data: seq<byte>, packets: seq<seq<byte>>, bus: seq<Transfer>, ms: nat)

  /** What happens from the waits before the first data stage on. `pauses` are the two one-millisecond waits. */
  function Request(header: seq<byte>, buffer: Option<seq<byte>>, size: nat,
                   pauses: (nat, nat), waits: seq<Wait>, packets: seq<seq<byte>>): Result
    requires |header| == 8 && (buffer.Some? ==> |buffer.value| >= Length(header))
  {
    if pauses.0 != SUCCESSFUL then Result(pauses.0, [], [], [], 1) else
    var setup, rest, begun := First(waits), Rest(waits), [Transfer(Setup, header)];
    if setup.Code() != SUCCESSFUL then Result(setup.Code(), [], [], begun, 1 + setup.Duration())
    else if pauses.1 != SUCCESSFUL then Result(pauses.1, [], [], begun, 2 + setup.Duration())
    else Begun(begun, 2 + setup.Duration(),
               if DeviceToHost(header) then InStages(if buffer.None? then 0 else Length(header), rest, packets)
               else OutStages(if buffer.None? then None else Some(buffer.value[..Length(header)]), size, rest))
  }

  /** A request preceded by what is on the bus already and by some waiting. */
  function Begun(bus: seq<Transfer>, ms: nat, r: Result): Result {
    Result(r.code, r.data, r.packets, bus + r.bus, ms + r.ms)
  }

  /** Data to the host, none if `len` is 0, and an OUT status stage. */
  function InStages(len: nat, waits: seq<Wait>, packets: seq<seq<byte>>): Result {
    var r := Receive(waits, packets, len);
    var bus := Tagged(In, r.taken);
    if r.code != SUCCESSFUL then Result(r.code, r.data, r.taken, bus, r.ms) else
    var status := StatusOut(r.waits);
    Result(status.0, r.data, r.taken, bus + status.2, r.ms + status.1)
  }

  /** Data to the device, if any are given, and an IN status stage. */
  function OutStages(data: Option<seq<byte>>, size: nat, waits: seq<Wait>): Result {
    var e := if data.None? then Emission(SUCCESSFUL, [], waits, 0) else Emit(waits, data.value, size);
    var bus := Tagged(Out, e.packets);
    if e.code != SUCCESSFUL then Result(e.code, [], e.packets, bus, e.ms) else
    var status := First(e.waits);
    Result(status.Code(), [], e.packets, if status.Code() == SUCCESSFUL then bus + [Transfer(In, [])] else bus, e.ms + status.Duration())
  }

  /** The OUT status stage waits before and after its empty packet. */
  function StatusOut(waits: seq<Wait>): (nat, nat, seq<Transfer>) {
    var one, two := First(waits), First(Rest(waits));
    if one.Code() != SUCCESSFUL then (one.Code(), one.Duration(), [])
    else (two.Code(), one.Duration() + two.Duration(), [Transfer(Out, [])])
  }

  /** Bit 7 of the first byte is the direction, and the last two bytes are the length, low byte first. */
  lemma HeaderFields(header: seq<byte>)
    requires |header| == 8
    ensures DeviceToHost(header) <==> header[0] >= 128
    ensures Length(header) == header[6] as int + 256 * header[7] as int
  {
    hide And;
    Powers();
    AndTests(header[0], 7);
  }

  datatype Option<T> = None | Some(value: T)

  /**
   * A successful request with a buffer has moved the right bytes, and nothing else: the header, the packets of the
   * data stage in the header's direction, and an empty packet of the other direction as its status stage.
   */
  lemma RightBytes(header: seq<byte>, buffer: seq<byte>, size: nat, pauses: (nat, nat), waits: seq<Wait>, packets: seq<seq<byte>>)
    requires |header| == 8 && |buffer| >= Length(header)
    requires Request(header, Some(buffer), size, pauses, waits, packets).code == SUCCESSFUL
    ensures Length(header) == header[6] as int + 256 * header[7] as int
    ensures var r, len := Request(header, Some(buffer), size, pauses, waits, packets), header[6] as int + 256 * header[7] as int;
            var all := Joined(UntilEmpty(packets));
            if header[0] >= 128 then
              && r.data == (if |all| < len then all else all[..len])
              && r.bus == [Transfer(Setup, header)] + Tagged(In, r.packets) + [Transfer(Out, [])]
              && r.packets <= packets + [[]] && r.data <= Joined(r.packets)
            else
              && r.data == [] && Joined(r.packets) == buffer[..len]
              && r.bus == [Transfer(Setup, header)] + Tagged(Out, r.packets) + [Transfer(In, [])]
              && (forall i :: 0 <= i < |r.packets| ==> 0 < |r.packets[i]| <= size)
              && (forall i :: 0 <= i < |r.packets| - 1 ==> |r.packets[i]| == size)
  {
    HeaderFields(header);
    hide DeviceToHost, Length, InStages, OutStages, Tagged, UntilEmpty, Joined;
    var len, rest, begun := Length(header), Rest(waits), [Transfer(Setup, header)];
    if header[0] >= 128 {
      RightBytesIn(len, rest, packets);
      var r := InStages(len, rest, packets);
      assert begun + (Tagged(In, r.packets) + [Transfer(Out, [])]) == begun + Tagged(In, r.packets) + [Transfer(Out, [])];
    } else {
      RightBytesOut(buffer[..len], size, rest);
      var r := OutStages(Some(buffer[..len]), size, rest);
      assert begun + (Tagged(Out, r.packets) + [Transfer(In, [])]) == begun + Tagged(Out, r.packets) + [Transfer(In, [])];
    }
  }

  /** Without a buffer a successful request is its header and its status stage. */
  lemma NoBytes(header: seq<byte>, size: nat, pauses: (nat, nat), waits: seq<Wait>, packets: seq<seq<byte>>)
    requires |header| == 8
    requires Request(header, None, size, pauses, waits, packets).code == SUCCESSFUL
    ensures Request(header, None, size, pauses, waits, packets).bus ==
            [Transfer(Setup, header), Transfer(if header[0] >= 128 then Out else In, [])]
  {
    HeaderFields(header);
    hide DeviceToHost, Length;
    ReceiveNothing(Rest(waits), packets);
  }

  lemma RightBytesIn(len: nat, waits: seq<Wait>, packets: seq<seq<byte>>)
    requires InStages(len, waits, packets).code == SUCCESSFUL
    ensures var r, all := InStages(len, waits, packets), Joined(UntilEmpty(packets));
            && r.data == (if |all| < len then all else all[..len])
            && r.bus == Tagged(In, r.packets) + [Transfer(Out, [])]
            && r.packets <= packets + [[]] && r.data <= Joined(r.packets)
  {
    hide Receive, Tagged, UntilEmpty, Joined;
    ReceivedData(waits, packets, len);
    TakenPackets(waits, packets, len);
    TakenData(waits, packets, len);
  }

  lemma RightBytesOut(data: seq<byte>, size: nat, waits: seq<Wait>)
    requires OutStages(Some(data), size, waits).code == SUCCESSFUL
    ensures var r := OutStages(Some(data), size, waits);
            && r.data == [] && Joined(r.packets) == data
            && r.bus == Tagged(Out, r.packets) + [Transfer(In, [])]
            && (forall i :: 0 <= i < |r.packets| ==> 0 < |r.packets[i]| <= size)
            && (forall i :: 0 <= i < |r.packets| - 1 ==> |r.packets[i]| == size)
  {
    hide Emit, Tagged, Joined;
    EmittedData(waits, data, size);
  }

  // How a request fares

  /** What has fared so after some time, and goes on as `later` if it has not failed. */
  function Since(code: nat, ms: nat, later: (nat, nat)): (nat, nat) {
    if code != SUCCESSFUL then (code, ms) else (later.0, ms + later.1)
  }

  /** How k waits fare up to the first that fails: code and time. */
  function Outcome(waits: seq<Wait>, k: nat): (nat, nat) {
    if k == 0 then (SUCCESSFUL, 0) else Since(First(waits).Code(), First(waits).Duration(), Outcome(Rest(waits), k - 1))
  }

  lemma {:induction false} ReceiveOutcome(waits: seq<Wait>, packets: seq<seq<byte>>, len: nat, k: nat)
    requires k > 0
    ensures var r := Receive(waits, packets, len);
            Outcome(waits, |r.taken| + k) == Since(r.code, r.ms, Outcome(r.waits, k))
    decreases len
  {
    hide First, Wait.Code, Wait.Duration;
    if len == 0 {
    } else if First(waits).Code() == SUCCESSFUL {
      var packet := FirstPacket(packets);
      OutcomeAfter(waits, |Receive(waits, packets, len).taken| + k);
      if 0 < |packet| < len {
        ReceiveOutcome(Rest(waits), Rest(packets), len - |packet|, k);
      }
      hide Outcome;
    } else {
      assert Receive(waits, packets, len).taken == [];
    }
  }

  lemma {:induction false} EmitOutcome(waits: seq<Wait>, data: seq<byte>, size: nat, k: nat)
    ensures var e := Emit(waits, data, size);
            Outcome(waits, |e.packets| + 1 + k) == Since(e.code, e.ms, Outcome(e.waits, k))
    decreases |waits|
  {
    EmitStep(waits, data, size);
    if First(waits).Code() == SUCCESSFUL && data != [] {
      var n := if |data| < size then |data| else size;
      ReadyUsesUp(waits);
      EmitOutcome(Rest(waits), data[n..], size, k);
    }
  }

  lemma InOutcome(len: nat, waits: seq<Wait>, packets: seq<seq<byte>>)
    ensures var r := InStages(len, waits, packets);
            var n := |r.packets|;
            && (r.code, r.ms) == Outcome(waits, n + 2)
            && (r.code != SUCCESSFUL ==> r.bus == if Outcome(waits, n + 1).0 == SUCCESSFUL then Tagged(In, r.packets) + [Transfer(Out, [])] else Tagged(In, r.packets))
  {
    hide Receive, First, Rest, Tagged;
    var r := Receive(waits, packets, len);
    ReceiveOutcome(waits, packets, len, 1);
    ReceiveOutcome(waits, packets, len, 2);
    assert Tagged(In, r.taken) + [] == Tagged(In, r.taken);
    Two(r.waits);
  }

  lemma Two(waits: seq<Wait>)
    ensures Outcome(waits, 1) == (First(waits).Code(), First(waits).Duration())
    ensures Outcome(waits, 2) == Since(First(waits).Code(), First(waits).Duration(), (First(Rest(waits)).Code(), First(Rest(waits)).Duration()))
  {
    assert Outcome(Rest(waits), 1) == Since(First(Rest(waits)).Code(), First(Rest(waits)).Duration(), (SUCCESSFUL, 0));
  }

  lemma OutOutcome(data: Option<seq<byte>>, size: nat, waits: seq<Wait>)
    ensures var r := OutStages(data, size, waits);
            && (r.code, r.ms) == Outcome(waits, if data.None? then 1 else |r.packets| + 2)
            && (r.code != SUCCESSFUL ==> r.bus == Tagged(Out, r.packets))
  {
    hide Emit, First, Rest, Tagged;
    if data.Some? {
      EmitOutcome(waits, data.value, size, 1);
      Two(Emit(waits, data.value, size).waits);
    } else {
      Two(waits);
    }
  }

  /**
   * With both pauses passed, a request ends exactly as its waits do, up to the first that fails: one for the header,
   * one for each packet of data, and two more, or one if there is no buffer to send from.
   */
  lemma FirstFailureDecides(header: seq<byte>, buffer: Option<seq<byte>>, size: nat, waits: seq<Wait>, packets: seq<seq<byte>>)
    requires |header| == 8 && (buffer.Some? ==> |buffer.value| >= Length(header)) && First(waits).Code() == 0
    ensures var r := Request(header, buffer, size, (0, 0), waits, packets);
            (r.code as int, r.ms - 2) == Outcome(waits, if header[0] < 128 && buffer.None? then 2 else |r.packets| + 3)
  {
    HeaderPassed(header, buffer, size, waits, packets);
    var len, rest := Length(header), Rest(waits);
    var n := |Request(header, buffer, size, (0, 0), waits, packets).packets|;
    OutcomeAfter(waits, n + 3);
    OutcomeAfter(waits, 2);
    hide Length, InStages, OutStages, First, Rest, Wait.Code, Wait.Duration, Outcome, Request;
    if header[0] >= 128 {
      InOutcome(if buffer.None? then 0 else len, rest, packets);
    } else {
      OutOutcome(if buffer.None? then None else Some(buffer.value[..len]), size, rest);
    }
  }

  /**
   * A request that fails after its header has put the header and its packets on the bus, and the empty packet of an
   * OUT status stage if and only if nothing but the very last wait has failed.
   */
  lemma FailedBus(header: seq<byte>, buffer: Option<seq<byte>>, size: nat, waits: seq<Wait>, packets: seq<seq<byte>>)
    requires |header| == 8 && (buffer.Some? ==> |buffer.value| >= Length(header)) && First(waits).Code() == 0
    requires Request(header, buffer, size, (0, 0), waits, packets).code != 0
    ensures var r := Request(header, buffer, size, (0, 0), waits, packets);
            r.bus == [Transfer(Setup, header)] +
                     if header[0] < 128 then Tagged(Out, r.packets)
                     else if Outcome(waits, |r.packets| + 2).0 == 0 then Tagged(In, r.packets) + [Transfer(Out, [])]
                     else Tagged(In, r.packets)
  {
    HeaderPassed(header, buffer, size, waits, packets);
    var len, rest := Length(header), Rest(waits);
    OutcomeAfter(waits, |Request(header, buffer, size, (0, 0), waits, packets).packets| + 2);
    hide Length, InStages, OutStages, First, Rest, Wait.Code, Wait.Duration, Outcome, Request, Tagged;
    if header[0] >= 128 {
      InOutcome(if buffer.None? then 0 else len, rest, packets);
    } else {
      OutOutcome(if buffer.None? then None else Some(buffer.value[..len]), size, rest);
    }
  }

  lemma HeaderPassed(header: seq<byte>, buffer: Option<seq<byte>>, size: nat, waits: seq<Wait>, packets: seq<seq<byte>>)
    requires |header| == 8 && (buffer.Some? ==> |buffer.value| >= Length(header)) && First(waits).Code() == 0
    ensures Request(header, buffer, size, (0, 0), waits, packets) ==
            Begun([Transfer(Setup, header)], 2 + First(waits).Duration(),
                  if header[0] >= 128 then InStages(if buffer.None? then 0 else Length(header), Rest(waits), packets)
                  else OutStages(if buffer.None? then None else Some(buffer.value[..Length(header)]), size, Rest(waits)))
  {
    HeaderFields(header);
    hide InStages, OutStages, DeviceToHost, Length, First, Rest;
  }

  lemma OutcomeAfter(waits: seq<Wait>, k: nat)
    requires k > 0 && First(waits).Code() == SUCCESSFUL
    ensures var later := Outcome(Rest(waits), k - 1); Outcome(waits, k) == (later.0, First(waits).Duration() + later.1)
  {
  }

  /** However a request ends, its bytes are those of the packets it has taken, up to the length asked for. */
  lemma KeptBytes(header: seq<byte>, buffer: Option<seq<byte>>, size: nat, pauses: (nat, nat), waits: seq<Wait>, packets: seq<seq<byte>>)
    requires |header| == 8 && (buffer.Some? ==> |buffer.value| >= Length(header))
    ensures var r := Request(header, buffer, size, pauses, waits, packets);
            var all, len := Joined(r.packets), if buffer.None? then 0 else header[6] as int + 256 * header[7] as int;
            r.data == if header[0] < 128 then [] else if |all| < len then all else all[..len]
  {
    HeaderFields(header);
    hide Receive, Emit, DeviceToHost, Length, First, Rest, Tagged, Wait.Code, Wait.Duration;
    TakenData(Rest(waits), packets, if buffer.None? then 0 else Length(header));
    assert Joined([]) == [];
  }

  /** A request whose pauses or whose header fail ends there, with the code of that failure. */
  lemma EarlyFailures(header: seq<byte>, buffer: Option<seq<byte>>, size: nat, pauses: (nat, nat), waits: seq<Wait>, packets: seq<seq<byte>>)
    requires |header| == 8 && (buffer.Some? ==> |buffer.value| >= Length(header))
    ensures var r, setup := Request(header, buffer, size, pauses, waits, packets), First(waits);
            && (pauses.0 != 0 ==> (r.code, r.ms, r.bus, r.data) == (pauses.0, 1, [], []))
            && (pauses.0 == 0 && setup.Code() != 0 ==>
                  (r.code, r.ms, r.bus, r.data) == (setup.Code(), 1 + setup.Duration(), [Transfer(Setup, header)], []))
            && (pauses.0 == 0 && setup.Code() == 0 && pauses.1 != 0 ==>
                  (r.code, r.ms, r.bus, r.data) == (pauses.1, 2 + setup.Duration(), [Transfer(Setup, header)], []))
  {
    hide InStages, OutStages, DeviceToHost, Length;
  }

  // How long a request waits

  function Bound(header: seq<byte>): nat
    requires |header| == 8
  {
    2 + (Length(header) + 3) * 1001
  }

  /** Whether the request has data to send, and a device that takes packets of no byte. */
  predicate Stuck(header: seq<byte>, buffer: Option<seq<byte>>, size: nat)
    requires |header| == 8
  {
    size == 0 && !DeviceToHost(header) && buffer.Some? && Length(header) > 0
  }

  lemma {:induction false} RequestBound(header: seq<byte>, buffer: Option<seq<byte>>, size: nat, pauses: (nat, nat), waits: seq<Wait>, packets: seq<seq<byte>>)
    requires |header| == 8 && (buffer.Some? ==> |buffer.value| >= Length(header))
    requires !Stuck(header, buffer, size) || pauses != (SUCCESSFUL, SUCCESSFUL) || First(waits).Code() != SUCCESSFUL
    ensures Request(header, buffer, size, pauses, waits, packets).ms <= Bound(header)
  {
    hide DeviceToHost, Length, Receive, Emit;
    var len, rest := Length(header), Rest(waits);
    WaitBound(First(waits));
    var wanted := if buffer.None? then 0 else len;
    ReceiveBound(rest, packets, wanted);
    var r := Receive(rest, packets, wanted);
    assert wanted * 1001 <= len * 1001;
    WaitBound(First(r.waits));
    WaitBound(First(Rest(r.waits)));
    WaitBound(First(rest));
    WaitBound(First(Rest(rest)));
    if buffer.Some? && !Stuck(header, buffer, size) && !DeviceToHost(header) {
      EmitBound(rest, buffer.value[..len], size);
      WaitBound(First(Emit(rest, buffer.value[..len], size).waits));
    }
    assert (len + 3) * 1001 == len * 1001 + 3 * 1001;
    assert (len + 1) * 1001 == len * 1001 + 1001;
  }

  /** The number of waits at the front that succeed, and the time they take. */
  function Patient(waits: seq<Wait>): (nat, nat) {
    if waits == [] || waits[0].Code() != SUCCESSFUL then (0, 0) else
    var (n, ms) := Patient(waits[1..]);
    (n + 1, waits[0].Duration() + ms)
  }

  function Empties(n: nat): seq<seq<byte>> { seq(n, _ => []) }

  /** With a packet size of zero n successful waits send n empty packets, and only a failing wait ends the stage. */
  lemma {:induction false} EmptyPackets(waits: seq<Wait>, data: seq<byte>)
    requires data != []
    ensures var e, (n, ms) := Emit(waits, data, 0), Patient(waits);
            && e.packets == Empties(n)
            && n <= |waits| && e.code == First(waits[n..]).Code() != SUCCESSFUL
            && e.ms == ms + First(waits[n..]).Duration()
    decreases |waits|
  {
    if waits != [] && waits[0].Code() == SUCCESSFUL {
      var rest := waits[1..];
      EmptyPackets(rest, data);
      assert data[0..] == data;
      assert [data[..0]] + Empties(Patient(rest).0) == Empties(Patient(rest).0 + 1);
      assert rest[Patient(rest).0..] == waits[Patient(rest).0 + 1..];
    }
  }

  const SLOW := Wait(TIMEOUT_MS, TIMEOUT_MS, 1)

  lemma {:induction false} PatientSlow(n: nat)
    ensures Patient(seq(n, _ => SLOW)) == (n, n * 1000)
  {
    if n > 0 {
      assert seq(n, _ => SLOW)[1..] == seq(n - 1, _ => SLOW);
      PatientSlow(n - 1);
      assert (n - 1) * 1000 + 1000 == n * 1000;
    }
  }

  /** A device that keeps being ready only just in time exceeds the bound if it takes packets of no byte. */
  lemma StuckExceeds(header: seq<byte>, buffer: Option<seq<byte>>, packets: seq<seq<byte>>) returns (waits: seq<Wait>)
    requires |header| == 8 && (buffer.Some? ==> |buffer.value| >= Length(header)) && Stuck(header, buffer, 0)
    ensures Request(header, buffer, 0, (SUCCESSFUL, SUCCESSFUL), waits, packets).ms > Bound(header)
  {
    hide DeviceToHost, Length, Emit, Patient;
    var len := Length(header);
    var n := 2 * len + 5;
    waits := [SLOW] + seq(n, _ => SLOW);
    assert Rest(waits) == seq(n, _ => SLOW);
    PatientSlow(n);
    EmptyPackets(Rest(waits), buffer.value[..len]);
    assert n * 1000 == len * 2000 + 5000 && (len + 3) * 1001 == len * 1001 + 3003;
  }

  /**
   * Over all devices the time a request waits is bounded, linearly in its length, if and only if the packet size is
   * not zero, or there is no data to send, or one of its two pauses fails.
   */
  lemma WaitsBounded(header: seq<byte>, buffer: Option<seq<byte>>, size: nat, pauses: (nat, nat), packets: seq<seq<byte>>)
    requires |header| == 8 && (buffer.Some? ==> |buffer.value| >= Length(header))
    ensures (forall waits :: Request(header, buffer, size, pauses, waits, packets).ms <= Bound(header)) <==>
            !Stuck(header, buffer, size) || pauses != (SUCCESSFUL, SUCCESSFUL)
  {
    hide Request, Bound;
    if !Stuck(header, buffer, size) || pauses != (SUCCESSFUL, SUCCESSFUL) {
      forall waits ensures Request(header, buffer, size, pauses, waits, packets).ms <= Bound(header) {
        RequestBound(header, buffer, size, pauses, waits, packets);
      }
    } else {
      var waits := StuckExceeds(header, buffer, packets);
    }
  }

  // The driver

  /** The host's control pipe. `bus` is what has passed on the bus; the scripts say what the device does. */
  class ControlPipe {
    var frozen: bool
    var suspended: bool
    var resets: nat
    var token: Token
    var bank: seq<byte>
    var bus: seq<Transfer>
    var ms: nat
    var waits: seq<Wait>
    var packets: seq<seq<byte>>

    constructor (suspended: bool, waits: seq<Wait>, packets: seq<seq<byte>>)
      ensures frozen && this.suspended == suspended && resets == 0 && bus == [] && ms == 0
      ensures this.waits == waits && this.packets == packets
    {
      frozen, this.suspended, resets, token, bank := true, suspended, 0, Setup, [];
      bus, ms := [], 0;
      this.waits, this.packets := waits, packets;
    }

    /** Polls once per millisecond until the pipe is ready, a fault strikes, or the counter has run down. */
    method WaitForIOS() returns (code: nat)
      modifies `ms, `waits
      ensures code == First(old(waits)).Code()
      ensures ms == old(ms) + First(old(waits)).Duration() && waits == Rest(old(waits))
    {
      var wait := First(waits);
      waits := Rest(waits);
      var timeoutCounter := TIMEOUT_MS;
      var elapsed := 0;
      while elapsed < wait.readyAfter
        invariant elapsed <= wait.readyAfter && elapsed <= wait.faultAfter
        invariant timeoutCounter + elapsed == TIMEOUT_MS && 0 <= timeoutCounter
        invariant ms == old(ms) + elapsed && waits == Rest(old(waits))
      {
        ms := ms + 1;
        if elapsed == wait.faultAfter {
          return wait.fault;
        }
        if timeoutCounter == 0 {
          return SOFTWARE_TIMEOUT;
        }
        timeoutCounter := timeoutCounter - 1;
        elapsed := elapsed + 1;
      }
      code := SUCCESSFUL;
    }

    method ReceiveData(buffer: array<byte>, len: nat) returns (code: nat)
      requires len <= buffer.Length && token == In
      modifies this, buffer
      ensures unchanged(`suspended) && unchanged(`resets)
      ensures var r := Receive(old(waits), old(packets), len);
              && code == r.code && waits == r.waits && ms == old(ms) + r.ms && bus == old(bus) + Tagged(In, r.taken)
              && buffer[..] == r.data + old(buffer[..])[|r.data|..]
    {
      hide Receive, First, FirstPacket, Rest, Wait.Code, Wait.Duration, Overlaid, After, Put, Tagged;
      var dataLen: nat, stream := len, 0;
      ghost var was := buffer[..];
      OverlaidIs(was, []);
      ghost var total := Receive(waits, packets, len);
      ghost var data: seq<byte>, taken: seq<seq<byte>>, waited: nat := [], [], 0;
      code := SUCCESSFUL;
      AfterNothing(total);
      TaggedNone(In);
      while dataLen > 0
        invariant stream + dataLen <= len && stream == |data| && code == SUCCESSFUL
        invariant unchanged(`suspended) && unchanged(`resets) && token == In && bus == old(bus) + Tagged(In, taken)
        invariant |data| <= |was| && buffer[..] == Overlaid(was, data) && ms == old(ms) + waited
        invariant total == After(data, taken, waited, Receive(waits, packets, dataLen))
        decreases dataLen
      {
        ReceiveStep(waits, packets, dataLen);
        ghost var packet, wait := FirstPacket(packets), First(waits);
        ghost var n := if |packet| < dataLen then |packet| else dataLen;
        Splice(was, data, packet, n);
        code, stream, dataLen := ReceivePacket(buffer, stream, dataLen);
        if code != SUCCESSFUL {
          AfterEmpty(data, taken, waited, code, waits, wait.Duration());
          OverlaidIs(was, data);
          return;
        }
        AfterAfter(data, taken, waited, packet[..n], [packet], wait.Duration(), Receive(waits, packets, dataLen));
        TaggedMore(In, old(bus), taken, packet);
        data, taken, waited := data + packet[..n], taken + [packet], waited + wait.Duration();
      }
      ReceiveNothing(waits, packets);
      AfterEmpty(data, taken, waited, SUCCESSFUL, waits, 0);
      OverlaidIs(was, data);
    }

    /** One turn of the IN loop: a packet is awaited, read as far as wanted, and handed back. */
    method ReceivePacket(buffer: array<byte>, start: nat, wanted: nat) returns (code: nat, stream: nat, dataLen: nat)
      requires start + wanted <= buffer.Length && wanted > 0
      modifies this, buffer
      ensures unchanged(`suspended) && unchanged(`resets) && unchanged(`token)
      ensures var wait, packet := First(old(waits)), FirstPacket(old(packets));
              var n := if |packet| < wanted then |packet| else wanted;
              && code == wait.Code() && waits == Rest(old(waits)) && ms == old(ms) + wait.Duration()
              && (code != SUCCESSFUL ==> buffer[..] == old(buffer[..]) && stream == start && bus == old(bus))
              && (code == SUCCESSFUL ==>
                    && frozen && packets == Rest(old(packets)) && bus == old(bus) + [Transfer(token, packet)]
                    && stream == start + n && dataLen == (if packet == [] then 0 else wanted - n)
                    && buffer[..] == Put(old(buffer[..]), packet, start, n))
    {
      stream, dataLen := start, wanted;
      frozen := false;
      code := WaitForIOS();
      if code != SUCCESSFUL {
        return;
      }
      bank, packets := FirstPacket(packets), Rest(packets);
      var packet := bank;
      if bank == [] {
        dataLen := 0;
      }
      stream, dataLen := TakeBank(buffer, stream, dataLen);
      frozen := true;
      bus := bus + [Transfer(token, packet)];
      bank := [];
    }

    /** Reads the bank into the buffer as long as bytes are wanted. */
    method TakeBank(buffer: array<byte>, start: nat, wanted: nat) returns (stream: nat, dataLen: nat)
      requires start + wanted <= buffer.Length
      modifies `bank, buffer
      ensures var n := if |old(bank)| < wanted then |old(bank)| else wanted;
              && stream == start + n && dataLen == wanted - n
              && buffer[..] == Put(old(buffer[..]), old(bank), start, n)
    {
      stream, dataLen := start, wanted;
      ghost var packet := bank;
      ghost var n := 0;
      while bank != [] && dataLen > 0
        invariant 0 <= n <= |packet| && n + dataLen == wanted && stream == start + n && bank == packet[n..]
        invariant buffer[..] == Put(old(buffer[..]), packet, start, n)
        decreases dataLen
      {
        PutNext(old(buffer[..]), packet, start, n);
        ghost var before := buffer[..];
        buffer[stream] := bank[0];
        assert buffer[..] == before[stream := packet[n]];
        bank := bank[1..];
        stream, dataLen, n := stream + 1, dataLen - 1, n + 1;
      }
    }

    /** Fills a packet from the data and hands it to the bus. */
    method SendPacket(buffer: array<byte>, start: nat, left: nat, size: nat) returns (code: nat, stream: nat, dataLen: nat)
      requires start + left <= buffer.Length && left > 0 && bank == []
      modifies this
      ensures unchanged(`suspended) && unchanged(`resets) && unchanged(`token) && unchanged(`packets) && unchanged(`frozen)
      ensures var wait := First(old(waits));
              var n := if left < size then left else size;
              && code == wait.Code() && waits == Rest(old(waits)) && ms == old(ms) + wait.Duration() && bank == []
              && (code != SUCCESSFUL ==> bus == old(bus))
              && (code == SUCCESSFUL ==>
                    stream == start + n && dataLen == left - n && bus == old(bus) + [Transfer(token, buffer[start..start + n])])
    {
      stream, dataLen := start, left;
      code := WaitForIOS();
      if code != SUCCESSFUL {
        return;
      }
      ghost var later, spent := waits, ms;
      while dataLen > 0 && |bank| < size
        invariant |bank| + dataLen == left && stream == start + |bank| && |bank| <= size
        invariant bank == buffer[start..start + |bank|]
        invariant unchanged(`suspended) && unchanged(`resets) && unchanged(`token) && unchanged(`packets) && unchanged(`frozen)
        invariant bus == old(bus) && waits == later && ms == spent
        decreases dataLen
      {
        bank := bank + [buffer[stream]];
        stream, dataLen := stream + 1, dataLen - 1;
      }
      bus := bus + [Transfer(token, bank)];
      bank := [];
    }

    method SendData(buffer: array<byte>, len: nat, size: nat) returns (code: nat)
      requires len <= buffer.Length && token == Out
      modifies this
      ensures unchanged(`suspended) && unchanged(`resets) && unchanged(`packets)
      ensures var e := Emit(old(waits), buffer[..len], size);
              && code == e.code && waits == e.waits && ms == old(ms) + e.ms && bus == old(bus) + Tagged(Out, e.packets)
    {
      hide Emit, First, Rest, Wait.Code, Wait.Duration, Tagged;
      TaggedNone(Out);
      bank := [];
      frozen := false;
      var dataLen: nat, stream: nat := len, 0;
      ghost var all := buffer[..len];
      ghost var total := Emit(waits, all, size);
      ghost var done: seq<seq<byte>>, waited: nat := [], 0;
      code := SUCCESSFUL;
      EmittedAll(total);
      assert all[0..] == all;
      while dataLen > 0
        invariant stream + dataLen == len && bank == [] && all == buffer[..len]
        invariant unchanged(`suspended) && unchanged(`resets) && unchanged(`packets) && token == Out
        invariant bus == old(bus) + Tagged(Out, done) && ms == old(ms) + waited
        invariant total == Following(done, waited, Emit(waits, all[stream..], size))
        decreases |waits|
      {
        EmitStep(waits, all[stream..], size);
        ghost var wait := First(waits);
        ghost var n := if dataLen < size then dataLen else size;
        Cut(all, stream, n);
        ReadyUsesUp(waits);
        code, stream, dataLen := SendPacket(buffer, stream, dataLen, size);
        if code != SUCCESSFUL {
          assert done + [] == done;
          return;
        }
        ghost var packet := all[stream - n..stream];
        assert packet == buffer[stream - n..stream];
        FollowingFollowing(done, waited, [packet], wait.Duration(), Emit(waits, all[stream..], size));
        TaggedMore(Out, old(bus), done, packet);
        done, waited := done + [packet], waited + wait.Duration();
      }
      EmitStep(waits, all[stream..], size);
      code := WaitForIOS();
      assert done + [] == done;
      if code == SUCCESSFUL {
        frozen := true;
      }
    }

    /** Everything up to the common exit. */
    method Exchange(header: seq<byte>, buffer: array?<byte>, size: nat, pauses: (nat, nat)) returns (code: nat)
      requires |header| == 8 && (buffer != null ==> Length(header) <= buffer.Length)
      modifies this, buffer
      ensures unchanged(`suspended) && unchanged(`resets)
      ensures var r := Request(header, old(Given(buffer)), size, pauses, old(waits), old(packets));
              && code == r.code && ms == old(ms) + r.ms && bus == old(bus) + r.bus
              && (buffer != null ==> buffer[..] == r.data + old(buffer[..])[|r.data|..])
    {
      hide InStages, OutStages, First, Rest, Wait.Code, Wait.Duration, DeviceToHost, Length;
      assert bus + [] == bus;
      ms := ms + 1;
      if pauses.0 != SUCCESSFUL {
        return pauses.0;
      }
      token, frozen := Setup, false;
      bus := bus + [Transfer(token, header)];
      code := WaitForIOS();
      if code != SUCCESSFUL {
        return;
      }
      frozen := true;
      ms := ms + 1;
      if pauses.1 != SUCCESSFUL {
        return pauses.1;
      }
      if DeviceToHost(header) {
        code := ExchangeIn(buffer, Length(header));
      } else {
        code := ExchangeOut(buffer, Length(header), size);
      }
    }

    method ExchangeIn(buffer: array?<byte>, len: nat) returns (code: nat)
      requires buffer != null ==> len <= buffer.Length
      modifies this, buffer
      ensures unchanged(`suspended) && unchanged(`resets)
      ensures var r := InStages(if buffer == null then 0 else len, old(waits), old(packets));
              && code == r.code && ms == old(ms) + r.ms && bus == old(bus) + r.bus
              && (buffer != null ==> buffer[..] == r.data + old(buffer[..])[|r.data|..])
    {
      hide Receive, First, Rest, Wait.Code, Wait.Duration, Tagged;
      ReceiveNothing(waits, packets);
      TaggedNone(In);
      ghost var r := Receive(waits, packets, if buffer == null then 0 else len);
      ghost var was := bus;
      token := In;
      if buffer != null {
        code := ReceiveData(buffer, len);
        if code != SUCCESSFUL {
          return;
        }
      }
      assert bus == was + Tagged(In, r.taken);
      token, frozen := Out, false;
      code := WaitForIOS();
      if code != SUCCESSFUL {
        assert bus == was + (Tagged(In, r.taken) + []);
        return;
      }
      bus := bus + [Transfer(token, [])];
      assert bus == was + (Tagged(In, r.taken) + [Transfer(Out, [])]);
      code := WaitForIOS();
    }

    method ExchangeOut(buffer: array?<byte>, len: nat, size: nat) returns (code: nat)
      requires buffer != null ==> len <= buffer.Length
      modifies this
      ensures unchanged(`suspended) && unchanged(`resets)
      ensures var r := OutStages(if buffer == null then None else Some(old(buffer[..len])), size, old(waits));
              code == r.code && ms == old(ms) + r.ms && bus == old(bus) + r.bus && r.data == []
    {
      hide Emit, First, Rest, Wait.Code, Wait.Duration, Tagged;
      TaggedNone(Out);
      ghost var e := if buffer == null then Emission(SUCCESSFUL, [], waits, 0) else Emit(waits, buffer[..len], size);
      ghost var was := bus;
      if buffer != null {
        token := Out;
        code := SendData(buffer, len, size);
        if code != SUCCESSFUL {
          return;
        }
      }
      assert bus == was + Tagged(Out, e.packets);
      token, frozen := In, false;
      code := WaitForIOS();
      if code == SUCCESSFUL {
        bus := bus + [Transfer(token, [])];
        assert bus == was + (Tagged(Out, e.packets) + [Transfer(In, [])]);
      }
    }

    /** On every path the pipe ends up frozen and reset once, and the bus as suspended as it was. */
    method SendControlRequest(header: seq<byte>, buffer: array?<byte>, size: nat, pauses: (nat, nat)) returns (code: nat)
      requires |header| == 8 && (buffer != null ==> Length(header) <= buffer.Length)
      modifies this, buffer
      ensures frozen && suspended == old(suspended) && resets == old(resets) + 1
      ensures var r := Request(header, old(Given(buffer)), size, pauses, old(waits), old(packets));
              && code == r.code && ms == old(ms) + r.ms && bus == old(bus) + r.bus
              && (buffer != null ==> buffer[..] == r.data + old(buffer[..])[|r.data|..])
    {
      hide Request;
      var busSuspended := suspended;
      suspended := false;
      code := Exchange(header, buffer, size, pauses);
      frozen := true;
      if busSuspended {
        suspended := true;
      }
      resets := resets + 1;
    }
  }

  function Given(buffer: array?<byte>): Option<seq<byte>>
    reads buffer
  {
    if buffer == null then None else Some(buffer[..])
  }

  /** An emission preceded by `done` and by some waiting. */
  function Following(done: seq<seq<byte>>, ms: nat, rest: Emission): Emission {
    Emission(rest.code, done + rest.packets, rest.waits, ms + rest.ms)
  }

  lemma FollowingFollowing(done: seq<seq<byte>>, ms: nat, more: seq<seq<byte>>, later: nat, rest: Emission)
    ensures Following(done, ms, Following(more, later, rest)) == Following(done + more, ms + later, rest)
  {
    assert done + (more + rest.packets) == done + more + rest.packets;
  }

  lemma Cut(all: seq<byte>, from: nat, n: nat)
    requires from + n <= |all|
    ensures all[from..][..n] == all[from..from + n] && all[from..][n..] == all[from + n..]
  {
  }

  lemma ReadyUsesUp(waits: seq<Wait>)
    ensures First(waits).Code() == SUCCESSFUL ==> |Rest(waits)| < |waits|
  {
  }

  lemma EmittedAll(e: Emission)
    ensures Following([], 0, e) == e
  {
  }

  lemma EmitStep(waits: seq<Wait>, data: seq<byte>, size: nat)
    ensures var wait := First(waits);
            var n := if |data| < size then |data| else size;
            Emit(waits, data, size) ==
            if wait.Code() != SUCCESSFUL || data == [] then Emission(wait.Code(), [], Rest(waits), wait.Duration())
            else Following([data[..n]], wait.Duration(), Emit(Rest(waits), data[n..], size))
  {
  }

  /** A buffer with the first n bytes of a packet written into it. */
  function Put(was: seq<byte>, packet: seq<byte>, start: nat, n: nat): seq<byte>
    requires start + n <= |was| && n <= |packet|
  {
    was[..start] + packet[..n] + was[start + n..]
  }

  lemma PutNext(was: seq<byte>, packet: seq<byte>, start: nat, n: nat)
    requires start + n < |was| && n < |packet|
    ensures Put(was, packet, start, n)[start + n := packet[n]] == Put(was, packet, start, n + 1)
  {
  }

  /** A buffer whose front has been overwritten. */
  function Overlaid(was: seq<byte>, data: seq<byte>): (now: seq<byte>)
    requires |data| <= |was|
    ensures |now| == |was|
  {
    data + was[|data|..]
  }

  lemma OverlaidIs(was: seq<byte>, data: seq<byte>)
    requires |data| <= |was|
    ensures Overlaid(was, data) == data + was[|data|..]
    ensures data == [] ==> Overlaid(was, data) == was
  {
  }

  lemma Splice(was: seq<byte>, data: seq<byte>, packet: seq<byte>, n: nat)
    requires n <= |packet| && |data| + n <= |was|
    ensures Put(Overlaid(was, data), packet, |data|, n) == Overlaid(was, data + packet[..n])
  {
  }

  lemma TaggedNone(token: Token)
    ensures Tagged(token, []) == []
  {
  }

  lemma TaggedMore(token: Token, bus: seq<Transfer>, packets: seq<seq<byte>>, packet: seq<byte>)
    ensures bus + Tagged(token, packets) + [Transfer(token, packet)] == bus + Tagged(token, packets + [packet])
  {
    assert Tagged(token, packets + [packet]) == Tagged(token, packets) + [Transfer(token, packet)];
  }

  /** A reception preceded by `data` from the packets `taken` and by some waiting. */
  function After(data: seq<byte>, taken: seq<seq<byte>>, ms: nat, rest: Reception): Reception {
    Reception(rest.code, data + rest.data, taken + rest.taken, rest.waits, ms + rest.ms)
  }

  lemma AfterNothing(r: Reception)
    ensures After([], [], 0, r) == r
  {
  }

  lemma AfterEmpty(data: seq<byte>, taken: seq<seq<byte>>, ms: nat, code: nat, waits: seq<Wait>, later: nat)
    ensures After(data, taken, ms, Reception(code, [], [], waits, later)) == Reception(code, data, taken, waits, ms + later)
  {
    assert data + [] == data && taken + [] == taken;
  }

  lemma AfterAfter(data: seq<byte>, taken: seq<seq<byte>>, ms: nat, more: seq<byte>, packets: seq<seq<byte>>, later: nat, rest: Reception)
    ensures After(data, taken, ms, After(more, packets, later, rest)) == After(data + more, taken + packets, ms + later, rest)
  {
    assert data + (more + rest.data) == data + more + rest.data;
    assert taken + (packets + rest.taken) == taken + packets + rest.taken;
  }

  lemma ReceiveStep(waits: seq<Wait>, packets: seq<seq<byte>>, len: nat)
    requires len > 0
    ensures var wait, packet := First(waits), FirstPacket(packets);
            var n := if |packet| < len then |packet| else len;
            Receive(waits, packets, len) ==
            if wait.Code() != SUCCESSFUL then Reception(wait.Code(), [], [], Rest(waits), wait.Duration())
            else
              After(packet[..n], [packet], wait.Duration(), Receive(Rest(waits), Rest(packets), if packet == [] then 0 else len - n))
  {
  }

  lemma ReceiveNothing(waits: seq<Wait>, packets: seq<seq<byte>>)
    ensures Receive(waits, packets, 0) == Reception(SUCCESSFUL, [], [], waits, 0)
  {
  }
}
