/** The ring buffer shared by a clock interrupt (the only producer) and the main loop (the only consumer). */
module Ring {
  import opened Bits

  /** A bounded queue that refuses the newest byte when it is full. */
  function Offer(queue: seq<byte>, capacity: nat, x: byte): seq<byte> {
    if |queue| < capacity then queue + [x] else queue
  }

  /** The `n` bytes that start at `out` and go round the end. */
  function Window(stored: seq<byte>, out: nat, n: nat): (queue: seq<byte>)
    requires n <= |stored| && out <= |stored|
    ensures |queue| == n
  {
    (stored + stored)[out..out + n]
  }

  function Wrapped(pos: nat, size: nat): nat { if pos < size then pos else pos - size }

  /** A byte stored behind the last of them joins them. */
  lemma WindowGrows(stored: seq<byte>, out: nat, n: nat, x: byte)
    requires out < |stored| && n < |stored|
    ensures Window(stored[Wrapped(out + n, |stored|) := x], out, n + 1) == Window(stored, out, n) + [x]
  {
  }

  lemma WindowShrinks(stored: seq<byte>, out: nat, n: nat)
    requires out < |stored| && 0 < n <= |stored|
    ensures Window(stored, out, n) == [stored[out]] + Window(stored, Wrapped(out + 1, |stored|), n - 1)
  {
  }

  /** `inPos`, `outPos` and `elements` are the fields `in`, `out` and `elements`; each method is one atomic block. */
  class RingBuffer {
    const data: array<byte>
    var inPos: nat
    var outPos: nat
    var elements: nat

    ghost predicate Valid()
      reads this
    {
      && data.Length < 256
      && elements <= data.Length
      && (outPos < data.Length || outPos == data.Length == 0)
      && inPos == Wrapped(outPos + elements, data.Length)
    }

    /** The queued bytes, oldest first. */
    ghost function Contents(): (queue: seq<byte>)
      requires Valid()
      reads this, data
      ensures |queue| == elements
    {
      Window(data[..], outPos, elements)
    }

    constructor (size: nat)
      requires size < 256
      ensures Valid() && fresh(data)
      ensures data.Length == size && Contents() == []
    {
      data := new byte[size](_ => 0);
      inPos, outPos, elements := 0, 0, 0;
    }

    /** The result is the argument even when the ring was full and the byte was dropped. */
    method AddElement(x: byte) returns (r: byte)
      requires Valid()
      modifies this, data
      ensures Valid()
      ensures r == x
      ensures Contents() == Offer(old(Contents()), data.Length, x)
           == if |old(Contents())| < data.Length then old(Contents()) + [x] else old(Contents())
    {
      hide Window;
      if elements < data.Length {
        WindowGrows(data[..], outPos, elements, x);
        ghost var stored := data[..][inPos := x];
        data[inPos] := x;
        assert data[..] == stored;
        inPos := inPos + 1;
        if inPos == data.Length {
          inPos := 0;
        }
        elements := elements + 1;
      }
      r := x;
    }

    /** An empty ring yields the byte 0, which is no sentinel: callers poll HasElement first. */
    method GetElement() returns (x: byte)
      requires Valid()
      modifies this
      ensures Valid()
      ensures old(Contents()) == [] ==> x == 0 && Contents() == []
      ensures old(Contents()) != [] ==> old(Contents()) == [x] + Contents()
    {
      hide Window;
      x := 0;
      if elements > 0 {
        WindowShrinks(data[..], outPos, elements);
        x := data[outPos];
        outPos := outPos + 1;
        if outPos == data.Length {
          outPos := 0;
        }
        elements := elements - 1;
      }
    }

    method HasElement() returns (has: bool)
      requires Valid()
      ensures has <==> Contents() != []
    {
      has := elements > 0;
    }
  }

  /** Atomic operations in the order in which the interrupt and the main loop happen to run. */
  datatype Op = Add(x: byte) | Get

  /** What became of every byte so far: still queued, handed to the main loop, or refused. */
  datatype History = History(queue: seq<byte>, accepted: seq<byte>, consumed: seq<byte>, refused: seq<byte>)

  function Apply(h: History, capacity: nat, op: Op): History {
    match op
    case Add(x) =>
      if |h.queue| < capacity then h.(queue := Offer(h.queue, capacity, x), accepted := h.accepted + [x])
      else h.(refused := h.refused + [x])
    case Get =>
      if h.queue == [] then h
      else h.(queue := h.queue[1..], consumed := h.consumed + [h.queue[0]])
  }

  function ApplyAll(h: History, capacity: nat, ops: seq<Op>): History
    decreases |ops|
  {
    if ops == [] then h else ApplyAll(Apply(h, capacity, ops[0]), capacity, ops[1..])
  }

  /** Whatever the interleaving, the main loop sees exactly the accepted bytes, in order, and the ring never overfills. */
  lemma {:induction false} ConsumedInOrder(h: History, capacity: nat, ops: seq<Op>)
    requires h.accepted == h.consumed + h.queue && |h.queue| <= capacity
    ensures var after := ApplyAll(h, capacity, ops);
            after.accepted == after.consumed + after.queue && |after.queue| <= capacity
    decreases |ops|
  {
    if ops != [] {
      var next := Apply(h, capacity, ops[0]);
      assert next.accepted == next.consumed + next.queue;
      ConsumedInOrder(next, capacity, ops[1..]);
    }
  }

  function Adds(xs: seq<byte>): (ops: seq<Op>)
    ensures |ops| == |xs|
  {
    seq(|xs|, i requires 0 <= i < |xs| => Add(xs[i]))
  }

  /**
   * Once HasElement has answered true, nothing the interrupt adds can take the promise back: the consumer's
   * next GetElement returns the byte that was oldest at the time of the question.
   */
  lemma {:induction false} PromiseKept(h: History, capacity: nat, xs: seq<byte>)
    requires h.queue != []
    ensures var after := ApplyAll(h, capacity, Adds(xs));
            && after.queue != []
            && Apply(after, capacity, Get).consumed == h.consumed + [h.queue[0]]
    decreases |xs|
  {
    if xs != [] {
      assert Adds(xs)[1..] == Adds(xs[1..]);
      PromiseKept(Apply(h, capacity, Add(xs[0])), capacity, xs[1..]);
    } else {
      assert Adds(xs) == [];
    }
  }
}
