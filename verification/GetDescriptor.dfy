/** The joystick's answer to GET_DESCRIPTOR: a table lookup and a segmented control transfer. */
module GetDescriptor {
  import opened Bits

  const PACKET_SIZE := 32
  const ENTRY_SIZE := 7

  /** A table entry; descriptors are at most 255 bytes long. */
  datatype Entry = Entry(value: nat, index: nat, data: seq<byte>) {
    predicate Valid() { |data| < 256 }
    predicate Matches(wValue: nat, wIndex: nat) { value == wValue && index == wIndex }
  }

  /** The place of the first entry that matches a request; the size of the table if none does. */
  function Find(table: seq<Entry>, wValue: nat, wIndex: nat): (k: nat)
    ensures k <= |table|
    ensures k < |table| ==> table[k].Matches(wValue, wIndex)
    ensures forall j :: 0 <= j < k ==> !table[j].Matches(wValue, wIndex)
    decreases |table|
  {
    if table == [] || table[0].Matches(wValue, wIndex) then 0 else
    var k := Find(table[1..], wValue, wIndex);
    assert forall j :: 0 < j < k + 1 ==> table[j] == table[1..][j - 1];
    k + 1
  }

  /** How much of a descriptor is sent. */
  function Amount(length: nat, wLength: nat): (n: nat) {
    var cut := if wLength < 256 then wLength else 255;
    if cut > length then length else cut
  }

  /** A transfer: full packets, then one short packet that ends it, empty if need be. */
  function Segments(data: seq<byte>): (packets: seq<seq<byte>>)
    decreases |data|
  {
    if |data| < PACKET_SIZE then [data] else [data[..PACKET_SIZE]] + Segments(data[PACKET_SIZE..])
  }

  /** The segments carry the data in order, and exactly the last one is short: the host can tell where they end. */
  lemma {:induction false} SegmentsCarry(data: seq<byte>)
    ensures var packets := Segments(data);
            && Joined(packets) == data
            && |packets| == |data| / 32 + 1
            && (forall i :: 0 <= i < |packets| - 1 ==> |packets[i]| == 32)
            && |packets[|packets| - 1]| == |data| % 32
    decreases |data|
  {
    if |data| >= PACKET_SIZE {
      SegmentsCarry(data[PACKET_SIZE..]);
      assert Segments(data)[1..] == Segments(data[PACKET_SIZE..]);
      assert data[..PACKET_SIZE] + data[PACKET_SIZE..] == data;
    }
  }

  /** A host that knows the packet size reads the data back from any stream that starts with the segments. */
  function ReadBack(packets: seq<seq<byte>>): seq<byte> {
    if packets == [] then [] else if |packets[0]| < 32 then packets[0] else packets[0] + ReadBack(packets[1..])
  }

  lemma {:induction false} ReadBackSegments(data: seq<byte>, more: seq<seq<byte>>)
    ensures ReadBack(Segments(data) + more) == data
    decreases |data|
  {
    if |data| >= PACKET_SIZE {
      ReadBackSegments(data[PACKET_SIZE..], more);
      assert (Segments(data) + more)[1..] == Segments(data[PACKET_SIZE..]) + more;
      assert data[..PACKET_SIZE] + data[PACKET_SIZE..] == data;
    }
  }

  /** What the host sees of a request when it lets `accepts` packets through before it aborts. */
  function Answer(table: seq<Entry>, wValue: nat, wIndex: nat, wLength: nat, accepts: nat): (bool, seq<seq<byte>>) {
    var k := Find(table, wValue, wIndex);
    if k == |table| then (true, []) else
    var packets := Segments(table[k].data[..Amount(|table[k].data|, wLength)]);
    (false, if accepts < |packets| then packets[..accepts] else packets)
  }

  /** The smallest of the length asked for, 255 and the descriptor's length. */
  function Shortest(wLength: nat, length: nat): (n: nat)
    ensures n <= wLength && n <= 255 && n <= length && (n == wLength || n == 255 || n == length)
  {
    if wLength <= 255 && wLength <= length then wLength else if length <= 255 then length else 255
  }

  /** The request is stalled if and only if no entry matches; otherwise a patient host reads the descriptor it asked for. */
  lemma PatientHostReads(table: seq<Entry>, wValue: nat, wIndex: nat, wLength: nat, accepts: nat)
    requires forall e :: e in table ==> e.Valid()
    ensures var (stalled, packets) := Answer(table, wValue, wIndex, wLength, accepts);
            && (stalled <==> forall e :: e in table ==> e.value != wValue || e.index != wIndex)
            && (stalled ==> packets == [])
            && (!stalled ==>
                  exists k :: 0 <= k < |table| && table[k].value == wValue && table[k].index == wIndex
                    && (forall j :: 0 <= j < k ==> table[j].value != wValue || table[j].index != wIndex)
                    && var n := Shortest(wLength, |table[k].data|);
                       accepts > n / 32 ==> ReadBack(packets) == table[k].data[..n] && |packets| == n / 32 + 1)
  {
    var k := Find(table, wValue, wIndex);
    assert forall j :: 0 <= j < k ==> !table[j].Matches(wValue, wIndex);
    if k < |table| {
      var data := table[k].data[..Amount(|table[k].data|, wLength)];
      SegmentsCarry(data);
      ReadBackSegments(data, []);
      assert Segments(data) + [] == Segments(data);
      assert table[k] in table;
    }
  }

  /** Reads of the table in program memory: seven bytes an entry, the words at offsets 0 and 2. */
  function WordAt(table: seq<Entry>, list: nat): nat
    requires list < ENTRY_SIZE * |table| && (list % ENTRY_SIZE == 0 || list % ENTRY_SIZE == 2)
  {
    var entry := table[list / ENTRY_SIZE];
    if list % ENTRY_SIZE == 0 then entry.value else entry.index
  }

  class ControlEndpoint {
    var stalled: bool
    var sent: seq<seq<byte>>

    constructor ()
      ensures !stalled && sent == []
    {
      stalled, sent := false, [];
    }

    /** Walks the table with a byte pointer; `entry` is the number of the entry found. */
    method Lookup(table: seq<Entry>, wValue: nat, wIndex: nat) returns (entry: nat)
      modifies `stalled
      ensures entry == Find(table, wValue, wIndex)
      ensures stalled <==> old(stalled) || entry == |table|
    {
      var list, i := 0, 0;
      while true
        invariant 0 <= i <= |table| && list == ENTRY_SIZE * i
        invariant forall j :: 0 <= j < i ==> !table[j].Matches(wValue, wIndex)
        invariant stalled == old(stalled)
        decreases |table| - i
      {
        if i >= |table| {
          stalled := true;
          FindUnique(table, wValue, wIndex, i);
          return i;
        }
        if WordAt(table, list) != wValue {
          list := list + ENTRY_SIZE;
        } else {
          list := list + 2;
          if WordAt(table, list) != wIndex {
            list := list + ENTRY_SIZE - 2;
          } else {
            FindUnique(table, wValue, wIndex, i);
            return i;
          }
        }
        i := i + 1;
      }
    }

    method Request(table: seq<Entry>, wValue: nat, wIndex: nat, wLength: nat, accepts: nat)
      requires forall e :: e in table ==> e.Valid()
      modifies this
      ensures var (stalls, packets) := Answer(table, wValue, wIndex, wLength, accepts);
              stalled == (old(stalled) || stalls) && sent == old(sent) + packets
    {
      hide Segments, Find;
      var entry := Lookup(table, wValue, wIndex);
      if entry == |table| {
        return;
      }
      var length := |table[entry].data|;
      var len := if wLength < 256 then wLength else 255;
      if len > length {
        len := length;
      }
      Transfer(table[entry].data, len, accepts);
    }

    /** Sends the first `length` bytes of a descriptor until a short packet has gone out or the host aborts. */
    method Transfer(descriptor: seq<byte>, length: nat, accepts: nat)
      requires length <= |descriptor|
      modifies `sent
      ensures var packets := Segments(descriptor[..length]);
              sent == old(sent) + if accepts < |packets| then packets[..accepts] else packets
    {
      hide Segments;
      ghost var data, packets: seq<seq<byte>> := descriptor[..length], [];
      var address, len, n, count := 0, length, PACKET_SIZE, 0;
      assert data[0..] == data && packets + Segments(data) == Segments(data);
      while len > 0 || n == PACKET_SIZE
        invariant 0 <= len && address + len == |data| && 0 <= n <= PACKET_SIZE
        invariant len > 0 ==> n == PACKET_SIZE
        invariant sent == old(sent) + packets && count == |packets| <= accepts
        invariant Segments(data) == packets + if n == PACKET_SIZE then Segments(data[address..]) else []
        decreases len, n
      {
        Segment(data[address..]);
        if count == accepts {
          assert Segments(data)[..accepts] == packets;
          return;
        }
        n := if len < PACKET_SIZE then len else PACKET_SIZE;
        var packet := descriptor[address..address + n];
        Cut(descriptor, length, address, n);
        assert packets + ([packet] + Segments(data[address + n..])) == packets + [packet] + Segments(data[address + n..]);
        assert old(sent) + packets + [packet] == old(sent) + (packets + [packet]);
        address := address + n;
        len := len - n;
        sent := sent + [packet];
        packets := packets + [packet];
        count := count + 1;
      }
    }
  }

  lemma Cut(descriptor: seq<byte>, length: nat, from: nat, n: nat)
    requires from + n <= length <= |descriptor|
    ensures var left := descriptor[..length][from..];
            left[..n] == descriptor[from..from + n] && left[n..] == descriptor[..length][from + n..]
  {
  }

  lemma Segment(data: seq<byte>)
    ensures Segments(data) == if |data| < PACKET_SIZE then [data] else [data[..PACKET_SIZE]] + Segments(data[PACKET_SIZE..])
  {
  }

  lemma {:induction false} FindUnique(table: seq<Entry>, wValue: nat, wIndex: nat, k: nat)
    requires k <= |table| && (k < |table| ==> table[k].Matches(wValue, wIndex))
    requires forall j :: 0 <= j < k ==> !table[j].Matches(wValue, wIndex)
    ensures Find(table, wValue, wIndex) == k
    decreases |table|
  {
    if k > 0 {
      forall j | 0 <= j < k - 1 ensures !table[1..][j].Matches(wValue, wIndex) { assert !table[j + 1].Matches(wValue, wIndex); }
      FindUnique(table[1..], wValue, wIndex, k - 1);
    }
  }
}
