/** Reading the data stage of a control transfer into a buffer, forwards or backwards. */
module ControlRead {
  import opened Bits

  /**
   * What one turn of a polling loop finds on the control endpoint. A host that sends nothing more is in the end
   * seen as gone: polls that run out stand for a detached device.
   */
  datatype Poll = SetupArrived | Detached | Nothing | InReady | Packet(bytes: seq<byte>)

  datatype Code = NoError | HostAborted | DeviceDisconnected

  /** The data the host sends before it starts another request or goes away. */
  function Payload(polls: seq<Poll>): seq<byte> {
    if polls == [] then [] else
    match polls[0]
    case SetupArrived => []
    case Detached => []
    case Packet(bytes) => bytes + Payload(polls[1..])
    case _ => Payload(polls[1..])
  }

  /** What ends a transfer that stays short. */
  function Interruption(polls: seq<Poll>): Code {
    if polls == [] || polls[0] == Detached then DeviceDisconnected
    else if polls[0] == SetupArrived then HostAborted
    else Interruption(polls[1..])
  }

  function StatusStage(polls: seq<Poll>): Code {
    if polls == [] || polls[0] == Detached then DeviceDisconnected
    else if polls[0] == InReady then NoError
    else StatusStage(polls[1..])
  }

  /** The polls that remain once `length` bytes have arrived; the last packet is given up whole. */
  function AfterData(polls: seq<Poll>, length: nat): seq<Poll>
    requires |Payload(polls)| >= length
  {
    if length == 0 then polls
    else if polls[0].Packet? then AfterData(polls[1..], if |polls[0].bytes| < length then length - |polls[0].bytes| else 0)
    else AfterData(polls[1..], length)
  }

  /** The packets given back to the host while `length` bytes are awaited. */
  function Packets(polls: seq<Poll>, length: nat): nat {
    if length == 0 || polls == [] then 0 else
    match polls[0]
    case SetupArrived => 0
    case Detached => 0
    case Packet(bytes) => 1 + Packets(polls[1..], if |bytes| < length then length - |bytes| else 0)
    case _ => Packets(polls[1..], length)
  }

  /** The bytes a transfer of `length` bytes delivers: all of them, or what came before the interruption. */
  function Delivered(polls: seq<Poll>, length: nat): (data: seq<byte>)
    ensures |data| <= length
  {
    var payload := Payload(polls);
    if |payload| < length then payload else payload[..length]
  }

  function Verdict(polls: seq<Poll>, length: nat): Code {
    if |Payload(polls)| < length then Interruption(polls) else StatusStage(AfterData(polls, length))
  }

  /** Success means that every byte asked for has been delivered. */
  lemma SuccessIsComplete(polls: seq<Poll>, length: nat)
    requires Verdict(polls, length) == NoError
    ensures |Delivered(polls, length)| == length
  {
    if |Payload(polls)| < length {
      Interrupted(polls);
    }
  }

  lemma {:induction false} Interrupted(polls: seq<Poll>)
    ensures Interruption(polls) != NoError
  {
    if polls != [] && polls[0] != Detached && polls[0] != SetupArrived {
      Interrupted(polls[1..]);
    }
  }

  /** Where the host's data end: at the first poll that finds a new SETUP packet or the device detached. */
  function FirstBreak(polls: seq<Poll>): (k: nat)
    ensures k <= |polls|
    ensures k < |polls| ==> polls[k] == SetupArrived || polls[k] == Detached
    ensures forall j :: 0 <= j < k ==> polls[j] != SetupArrived && polls[j] != Detached
  {
    if polls == [] || polls[0] == SetupArrived || polls[0] == Detached then 0 else
    var k := FirstBreak(polls[1..]);
    assert forall j :: 0 < j < k + 1 ==> polls[j] == polls[1..][j - 1];
    k + 1
  }

  function BytesOf(polls: seq<Poll>): seq<byte> {
    if polls == [] then [] else (if polls[0].Packet? then polls[0].bytes else []) + BytesOf(polls[1..])
  }

  /** What is delivered comes from the packets before that, and it decides how a transfer that stays short ends. */
  lemma {:induction false} PayloadEnds(polls: seq<Poll>)
    ensures var k := FirstBreak(polls);
            && Payload(polls) == BytesOf(polls[..k])
            && Interruption(polls) == if k < |polls| && polls[k] == SetupArrived then HostAborted else DeviceDisconnected
  {
    var k := FirstBreak(polls);
    if k > 0 {
      PayloadEnds(polls[1..]);
      assert polls[..k][1..] == polls[1..][..k - 1];
    }
  }

  function PacketsOf(polls: seq<Poll>): seq<seq<byte>> {
    if polls == [] || polls[0] == SetupArrived || polls[0] == Detached then []
    else (if polls[0].Packet? then [polls[0].bytes] else []) + PacketsOf(polls[1..])
  }

  function Total(packets: seq<seq<byte>>): nat {
    if packets == [] then 0 else |packets[0]| + Total(packets[1..])
  }

  /** Packets are handed back one by one until they hold the bytes awaited or no more come, and not one beyond. */
  lemma {:induction false} PacketsHandedBack(polls: seq<Poll>, length: nat)
    ensures var n, all := Packets(polls, length), PacketsOf(polls);
            && n <= |all|
            && (Total(all[..n]) >= length || n == |all|)
            && (n > 0 ==> Total(all[..n - 1]) < length)
    decreases |polls|
  {
    if length > 0 && polls != [] && polls[0] != SetupArrived && polls[0] != Detached {
      if polls[0].Packet? {
        var size := |polls[0].bytes|;
        var left := if size < length then length - size else 0;
        PacketsHandedBack(polls[1..], left);
        var n, all := Packets(polls, length), PacketsOf(polls);
        assert all[..n][1..] == PacketsOf(polls[1..])[..n - 1];
        if n > 1 {
          assert all[..n - 1][1..] == PacketsOf(polls[1..])[..n - 2];
        }
      } else {
        PacketsHandedBack(polls[1..], length);
        assert PacketsOf(polls) == PacketsOf(polls[1..]);
      }
    }
  }

  /** The status stage begins if the endpoint is found ready before the device is found detached. */
  lemma {:induction false} StatusStageBegins(polls: seq<Poll>, k: nat)
    requires k <= |polls| && (k < |polls| ==> polls[k] == InReady || polls[k] == Detached)
    requires forall j :: 0 <= j < k ==> polls[j] != InReady && polls[j] != Detached
    ensures StatusStage(polls) == if k < |polls| && polls[k] == InReady then NoError else DeviceDisconnected
  {
    if k > 0 {
      assert polls[0] != InReady && polls[0] != Detached;
      forall j | 0 <= j < k - 1 ensures polls[1..][j] != InReady && polls[1..][j] != Detached { assert polls[j + 1] != InReady; }
      StatusStageBegins(polls[1..], k - 1);
    }
  }

  /** How the host cuts its data into packets makes no difference to what is delivered. */
  lemma {:induction false} SplitIndifferent(chunks: seq<seq<byte>>, rest: seq<Poll>)
    ensures Payload(AsPackets(chunks) + rest) == Joined(chunks) + Payload(rest)
  {
    if chunks == [] {
      assert AsPackets(chunks) + rest == rest;
    } else {
      assert (AsPackets(chunks) + rest)[1..] == AsPackets(chunks[1..]) + rest;
      SplitIndifferent(chunks[1..], rest);
    }
  }

  function AsPackets(chunks: seq<seq<byte>>): (polls: seq<Poll>)
    ensures |polls| == |chunks|
  {
    seq(|chunks|, i requires 0 <= i < |chunks| => Packet(chunks[i]))
  }

  function Reversed(data: seq<byte>): (r: seq<byte>)
    ensures |r| == |data|
  {
    seq(|data|, i requires 0 <= i < |data| => data[|data| - 1 - i])
  }

  /** A buffer whose region of `len` bytes at `offset` has received `data`, from its start or from its end. */
  function Filled(was: seq<byte>, offset: nat, len: nat, data: seq<byte>, bigEndian: bool): (now: seq<byte>)
    requires offset + len <= |was| && |data| <= len
    ensures |now| == |was|
  {
    if bigEndian then was[..offset + len - |data|] + Reversed(data) + was[offset + len..]
    else was[..offset] + data + was[offset + |data|..]
  }

  lemma FillOne(was: seq<byte>, offset: nat, len: nat, data: seq<byte>, b: byte, bigEndian: bool)
    requires offset + len <= |was| && |data| < len
    ensures Filled(was, offset, len, data + [b], bigEndian) ==
            Filled(was, offset, len, data, bigEndian)[Place(offset, len, |data|, bigEndian) := b]
  {
    assert Reversed(data + [b]) == [b] + Reversed(data);
  }

  /** Where the k-th byte of a transfer of `len` bytes goes. */
  function Place(offset: nat, len: nat, k: nat, bigEndian: bool): int {
    if bigEndian then offset + len - 1 - k else offset + k
  }

  function Taken(bytes: seq<byte>, length: nat): (taken: seq<byte>)
    ensures |taken| <= length && |taken| <= |bytes| && (|taken| == length || |taken| == |bytes|)
  {
    if |bytes| < length then bytes else bytes[..length]
  }

  /** The inner loop: takes a packet's bytes as long as some are wanted. */
  method TakePacket(buffer: array<byte>, offset: nat, len: nat, bigEndian: bool, bytes: seq<byte>,
                    dataStream: int, length: nat, ghost was: seq<byte>, ghost data: seq<byte>)
    returns (dataStream': int, length': nat)
    requires |was| == buffer.Length && offset + len <= |was| && |data| + length == len
    requires dataStream == Place(offset, len, |data|, bigEndian)
    requires buffer[..] == Filled(was, offset, len, data, bigEndian)
    modifies buffer
    ensures length' == if |bytes| < length then length - |bytes| else 0
    ensures dataStream' == Place(offset, len, len - length', bigEndian)
    ensures buffer[..] == Filled(was, offset, len, data + Taken(bytes, length), bigEndian)
  {
    hide Filled;
    dataStream', length' := dataStream, length;
    var taken := 0;
    assert data + bytes[..0] == data;
    while length' > 0 && taken < |bytes|
      invariant 0 <= taken <= |bytes| && taken + length' == length
      invariant dataStream' == Place(offset, len, |data| + taken, bigEndian)
      invariant buffer[..] == Filled(was, offset, len, data + bytes[..taken], bigEndian)
    {
      FillOne(was, offset, len, data + bytes[..taken], bytes[taken], bigEndian);
      assert data + bytes[..taken] + [bytes[taken]] == data + bytes[..taken + 1];
      ghost var before := buffer[..];
      buffer[dataStream'] := bytes[taken];
      assert buffer[..] == before[dataStream' := bytes[taken]];
      taken := taken + 1;
      dataStream' := if bigEndian then dataStream' - 1 else dataStream' + 1;
      length' := length' - 1;
    }
    assert bytes[..taken] == Taken(bytes, length);
  }

  /** The data loop: ends when all bytes have arrived, or with the code of what has interrupted it. */
  method ReadData(buffer: array<byte>, offset: nat, len: nat, bigEndian: bool, polls: seq<Poll>)
    returns (code: Code, clears: nat, p: nat)
    requires offset + len <= buffer.Length
    modifies buffer
    ensures p <= |polls|
    ensures Verdict(polls, len) == if code != NoError then code else StatusStage(polls[p..])
    ensures clears == if len == 0 then 1 else Packets(polls, len)
    ensures buffer[..] == Filled(old(buffer[..]), offset, len, Delivered(polls, len), bigEndian)
  {
    hide Reversed, Filled, Delivered, Payload, Verdict, Packets, StatusStage, Taken;
    ghost var was := buffer[..];
    ghost var data: seq<byte> := [];
    Unstarted(was, offset, len, bigEndian);
    var dataStream := if bigEndian then offset + len - 1 else offset;
    var length: nat := len;
    p := 0;
    clears := if length == 0 then 1 else 0;
    while length > 0
      invariant 0 <= p <= |polls| && |data| + length == len
      invariant dataStream == Place(offset, len, |data|, bigEndian)
      invariant buffer[..] == Filled(was, offset, len, data, bigEndian)
      invariant Delivered(polls, len) == data + Delivered(polls[p..], length)
      invariant Verdict(polls, len) == Verdict(polls[p..], length)
      invariant len > 0 ==> clears + Packets(polls[p..], length) == Packets(polls, len)
      invariant len == 0 ==> clears == 1
      decreases |polls| - p
    {
      Step(polls, p, length);
      assert data + [] == data;
      if p == |polls| {
        return DeviceDisconnected, clears, p;
      }
      match polls[p] {
        case SetupArrived => return HostAborted, clears, p;
        case Detached => return DeviceDisconnected, clears, p;
        case Packet(bytes) =>
          ghost var before := length;
          dataStream, length := TakePacket(buffer, offset, len, bigEndian, bytes, dataStream, length, was, data);
          data := data + Taken(bytes, before);
          clears := clears + 1;
        case _ =>
      }
      p := p + 1;
    }
    DataComplete(polls[p..]);
    assert data + [] == data;
    code := NoError;
  }

  /**
   * Both instances of the template: the buffer receives what is delivered, in order or reversed, and nothing else
   * in it changes, whether or not the transfer is cut short. `clears` counts the packets handed back.
   */
  method ReadControlStream(buffer: array<byte>, offset: nat, len: nat, bigEndian: bool, polls: seq<Poll>)
    returns (code: Code, clears: nat)
    requires offset + len <= buffer.Length
    modifies buffer
    ensures code == Verdict(polls, len)
    ensures clears == if len == 0 then 1 else Packets(polls, len)
    ensures buffer[..] == Filled(old(buffer[..]), offset, len, Delivered(polls, len), bigEndian)
    ensures forall k :: 0 <= k < |Delivered(polls, len)| ==>
              Delivered(polls, len)[k] == buffer[if bigEndian then offset + len - 1 - k else offset + k]
    ensures var n := |Delivered(polls, len)|;
            forall i :: 0 <= i < buffer.Length && (if bigEndian then i < offset + len - n || offset + len <= i else i < offset || offset + n <= i)
              ==> buffer[i] == old(buffer[i])
  {
    hide Filled, Delivered, Verdict, Packets, StatusStage;
    var p;
    ghost var was := buffer[..];
    code, clears, p := ReadData(buffer, offset, len, bigEndian, polls);
    FilledBytes(was, offset, len, Delivered(polls, len), bigEndian);
    ghost var now := buffer[..];
    assert forall i :: 0 <= i < buffer.Length ==> now[i] == buffer[i] && was[i] == old(buffer[i]);
    if code == NoError {
      code := AwaitStatusStage(polls, p);
    }
  }

  /** The closing loop: waits until the status stage may begin. */
  method AwaitStatusStage(polls: seq<Poll>, start: nat) returns (code: Code)
    requires start <= |polls|
    ensures code == StatusStage(polls[start..])
  {
    hide StatusStage;
    var p := start;
    while p < |polls| && polls[p] != InReady
      invariant start <= p <= |polls| && StatusStage(polls[p..]) == StatusStage(polls[start..])
    {
      StatusStep(polls, p);
      if polls[p] == Detached {
        return DeviceDisconnected;
      }
      p := p + 1;
    }
    StatusStep(polls, p);
    code := if p == |polls| then DeviceDisconnected else NoError;
  }

  /** Byte by byte: the k-th byte lies k places from the start, or from the end, and the rest is as it was. */
  lemma FilledBytes(was: seq<byte>, offset: nat, len: nat, data: seq<byte>, bigEndian: bool)
    requires offset + len <= |was| && |data| <= len
    ensures var now := Filled(was, offset, len, data, bigEndian);
            && (forall k :: 0 <= k < |data| ==> data[k] == now[if bigEndian then offset + len - 1 - k else offset + k])
            && (forall i :: 0 <= i < |was| && (if bigEndian then i < offset + len - |data| || offset + len <= i else i < offset || offset + |data| <= i)
                  ==> now[i] == was[i])
  {
  }

  lemma Unstarted(was: seq<byte>, offset: nat, len: nat, bigEndian: bool)
    requires offset + len <= |was|
    ensures Filled(was, offset, len, [], bigEndian) == was
  {
  }

  lemma DataComplete(polls: seq<Poll>)
    ensures Delivered(polls, 0) == [] && Verdict(polls, 0) == StatusStage(polls) && Packets(polls, 0) == 0
  {
  }

  lemma StatusStep(polls: seq<Poll>, p: nat)
    requires p <= |polls|
    ensures StatusStage(polls[p..]) == if p == |polls| || polls[p] == Detached then DeviceDisconnected
                                       else if polls[p] == InReady then NoError else StatusStage(polls[p + 1..])
  {
    assert p < |polls| ==> polls[p..][1..] == polls[p + 1..];
  }

  /** What one turn of the polling loop settles about the rest of the transfer. */
  lemma Step(polls: seq<Poll>, p: nat, length: nat)
    requires p <= |polls| && length > 0
    ensures p == |polls| || polls[p] == Detached ==>
              Delivered(polls[p..], length) == [] && Verdict(polls[p..], length) == DeviceDisconnected && Packets(polls[p..], length) == 0
    ensures p < |polls| && polls[p] == SetupArrived ==>
              Delivered(polls[p..], length) == [] && Verdict(polls[p..], length) == HostAborted && Packets(polls[p..], length) == 0
    ensures p < |polls| && (polls[p] == Nothing || polls[p] == InReady) ==>
              && Delivered(polls[p..], length) == Delivered(polls[p + 1..], length)
              && Verdict(polls[p..], length) == Verdict(polls[p + 1..], length)
              && Packets(polls[p..], length) == Packets(polls[p + 1..], length)
    ensures p < |polls| && polls[p].Packet? ==>
              var bytes := polls[p].bytes;
              var next := if |bytes| < length then length - |bytes| else 0;
              && Delivered(polls[p..], length) == Taken(bytes, length) + Delivered(polls[p + 1..], next)
              && Verdict(polls[p..], length) == Verdict(polls[p + 1..], next)
              && Packets(polls[p..], length) == 1 + Packets(polls[p + 1..], next)
  {
    if p < |polls| {
      assert polls[p..][0] == polls[p] && polls[p..][1..] == polls[p + 1..];
      if polls[p].Packet? {
        PacketDelivers(polls[p].bytes, polls[p + 1..], length);
        assert [polls[p]] + polls[p + 1..] == polls[p..];
      }
    }
  }

  lemma PacketDelivers(bytes: seq<byte>, rest: seq<Poll>, length: nat)
    requires length > 0
    ensures var polls := [Packet(bytes)] + rest;
            var next := if |bytes| < length then length - |bytes| else 0;
            && Delivered(polls, length) == Taken(bytes, length) + Delivered(rest, next)
            && Verdict(polls, length) == Verdict(rest, next)
  {
    assert ([Packet(bytes)] + rest)[1..] == rest;
  }
}
