/**
 * Discarding a stream from an OUT endpoint (or an IN pipe): the plain byte loop, and the unrolled loop that jumps
 * into its own middle.
 */
module Discard {
  type ErrorCode = code: nat | code > 0 witness 1

  /** The outcome of waiting for a packet: one with `size` bytes, or an error code. */
  datatype Wait = Ready(size: nat) | Failed(code: ErrorCode)

  const NO_ERROR := 0
  const CALLBACK_ABORTED := 4
  const TIMEOUT := 3

  /**
   * The selected endpoint: bytes left in its bank, what the host will do at each wait, what the stream callback will
   * answer at each call, and how often it has been called. A host that has no more to send makes the wait time out.
   */
  datatype State = State(bank: nat, waits: seq<Wait>, aborts: seq<bool>, calls: nat)

  function Await(s: State): (r: (State, nat))
    ensures r.1 == NO_ERROR ==> |r.0.waits| < |s.waits|
    ensures r.0.waits == if s.waits == [] then [] else s.waits[1..]
  {
    if s.waits == [] then (s, TIMEOUT) else
    match s.waits[0]
    case Ready(size) => (s.(bank := size, waits := s.waits[1..]), NO_ERROR)
    case Failed(code) => (s.(waits := s.waits[1..]), code)
  }

  /** Releases the bank, asks the callback, if there is one, whether to go on, and waits for the next packet. */
  function NextPacket(s: State, callback: bool): (r: (State, nat))
    ensures r.1 == NO_ERROR ==> |r.0.waits| < |s.waits|
  {
    var released := s.(bank := 0);
    if !callback then Await(released) else
    var asked := released.(calls := s.calls + 1, aborts := if s.aborts == [] then [] else s.aborts[1..]);
    if s.aborts != [] && s.aborts[0] then (asked, CALLBACK_ABORTED) else Await(asked)
  }

  /**
   * In this order: the bank is released, the callback asked, and only if it lets the discard go on a packet awaited.
   * An abort ends it with code 4; a wait that fails with the wait's own code, and one that gets nothing with code 3.
   */
  lemma NextPacketIs(s: State, callback: bool)
    ensures var (next, code) := NextPacket(s, callback);
            var aborted := callback && s.aborts != [] && s.aborts[0];
            && next.calls == s.calls + (if callback then 1 else 0)
            && next.aborts == (if callback && s.aborts != [] then s.aborts[1..] else s.aborts)
            && next.waits == (if aborted || s.waits == [] then s.waits else s.waits[1..])
            && (code, next.bank) == (if aborted then (4, 0)
                                     else if s.waits == [] then (3, 0)
                                     else if s.waits[0].Failed? then (s.waits[0].code as nat, 0)
                                     else (0, s.waits[0].size))
  {
  }

  /** Reading an empty bank takes nothing out of it. */
  function Drop(s: State, n: nat): State {
    s.(bank := if n <= s.bank then s.bank - n else 0)
  }

  /** The plain loop. */
  function Plain(s: State, callback: bool, length: nat): (r: (State, nat))
    decreases |s.waits|, length
  {
    if length == 0 then (s, NO_ERROR)
    else if s.bank > 0 then Plain(Drop(s, 1), callback, length - 1)
    else
      var (next, code) := NextPacket(s, callback);
      if code != NO_ERROR then (next, code) else Plain(next, callback, length)
  }

  /** The unrolled loop, eight bytes a turn, which looks at the bank only before each turn. */
  function Unrolled(s: State, callback: bool, length: nat): (r: (State, nat))
    decreases length
  {
    if length < 8 then Plain(s, callback, length)
    else if s.bank > 0 then Unrolled(Drop(s, 8), callback, length - 8)
    else
      var (next, code) := NextPacket(s, callback);
      if code != NO_ERROR then (next, code) else Unrolled(Drop(next, 8), callback, length - 8)
  }

  function Fast(s: State, callback: bool, length: nat): (State, nat) {
    var toAlignment := s.bank % 8;
    if length < 8 then Plain(s, callback, length)
    else Unrolled(Drop(s, toAlignment), callback, length - toAlignment)
  }

  /** Each of the unrolled turns finds all of its eight bytes in the bank. */
  predicate Aligned(s: State, callback: bool, length: nat)
    decreases length
  {
    length < 8 ||
    if s.bank > 0 then s.bank >= 8 && Aligned(Drop(s, 8), callback, length - 8)
    else
      var (next, code) := NextPacket(s, callback);
      code != NO_ERROR || (next.bank >= 8 && Aligned(Drop(next, 8), callback, length - 8))
  }

  /** The bytes still to be had: in the bank and in the packets to come. */
  function Left(s: State): nat { s.bank + Sizes(s.waits) }

  function Sizes(waits: seq<Wait>): nat {
    if waits == [] then 0 else (if waits[0].Ready? then waits[0].size else 0) + Sizes(waits[1..])
  }

  lemma {:induction false} PlainSkips(s: State, callback: bool, length: nat, n: nat)
    requires n <= s.bank && n <= length
    ensures Plain(s, callback, length) == Plain(Drop(s, n), callback, length - n)
    decreases n
  {
    hide NextPacket;
    if n > 0 {
      PlainSkips(Drop(s, 1), callback, length - 1, n - 1);
    }
  }

  lemma {:induction false} PlainTakes(s: State, callback: bool, length: nat)
    ensures var (after, code) := Plain(s, callback, length);
            code == NO_ERROR ==> Left(after) + length == Left(s)
    decreases |s.waits|, length
  {
    if length > 0 && s.bank > 0 {
      PlainTakes(Drop(s, 1), callback, length - 1);
    } else if length > 0 {
      var (next, code) := NextPacket(s, callback);
      if code == NO_ERROR {
        PlainTakes(next, callback, length);
      }
    }
  }

  /** A plain loop that fails would have failed in the same way with more bytes to discard. */
  lemma {:induction false} PlainFails(s: State, callback: bool, length: nat, longer: nat)
    requires length <= longer && Plain(s, callback, length).1 != NO_ERROR
    ensures Plain(s, callback, longer) == Plain(s, callback, length)
    decreases |s.waits|, length
  {
    hide NextPacket;
    if s.bank > 0 {
      PlainFails(Drop(s, 1), callback, length - 1, longer - 1);
    } else {
      var (next, code) := NextPacket(s, callback);
      if code == NO_ERROR {
        PlainFails(next, callback, length, longer);
      }
    }
  }

  lemma {:induction false} UnrolledFails(s: State, callback: bool, length: nat, longer: nat)
    requires length <= longer && Unrolled(s, callback, length).1 != NO_ERROR
    ensures Plain(s, callback, longer) == Unrolled(s, callback, length)
    decreases length
  {
    hide NextPacket, Plain;
    if length < 8 {
      PlainFails(s, callback, length, longer);
    } else if s.bank > 0 {
      var n := if s.bank < 8 then s.bank else 8;
      PlainSkips(s, callback, longer, n);
      assert Drop(s, n) == Drop(s, 8);
      UnrolledFails(Drop(s, 8), callback, length - 8, longer - n);
    } else {
      PlainWaits(s, callback, longer);
      var (next, code) := NextPacket(s, callback);
      if code == NO_ERROR {
        var n := if next.bank < 8 then next.bank else 8;
        PlainSkips(next, callback, longer, n);
        assert Drop(next, n) == Drop(next, 8);
        UnrolledFails(Drop(next, 8), callback, length - 8, longer - n);
      }
    }
  }

  lemma PlainWaits(s: State, callback: bool, length: nat)
    requires s.bank == 0 && length > 0
    ensures var (next, code) := NextPacket(s, callback);
            Plain(s, callback, length) == if code != NO_ERROR then (next, code) else Plain(next, callback, length)
  {
    hide NextPacket;
  }

  lemma NextPacketLeft(s: State, callback: bool)
    requires s.bank == 0 && NextPacket(s, callback).1 == NO_ERROR
    ensures Left(NextPacket(s, callback).0) == Left(s)
  {
  }

  /** Aligned turns do what the plain loop does; a misaligned one takes too little without noticing. */
  lemma {:induction false} UnrolledTakes(s: State, callback: bool, length: nat)
    ensures Aligned(s, callback, length) ==> Unrolled(s, callback, length) == Plain(s, callback, length)
    ensures var (after, code) := Unrolled(s, callback, length);
            code == NO_ERROR ==> Left(after) + length >= Left(s) && (!Aligned(s, callback, length) ==> Left(after) + length > Left(s))
    decreases length
  {
    hide NextPacket, Plain;
    if length < 8 {
      PlainTakes(s, callback, length);
    } else if s.bank > 0 {
      UnrolledTakes(Drop(s, 8), callback, length - 8);
      if s.bank >= 8 {
        PlainSkips(s, callback, length, 8);
      }
    } else {
      PlainWaits(s, callback, length);
      var (next, code) := NextPacket(s, callback);
      if code == NO_ERROR {
        NextPacketLeft(s, callback);
        UnrolledTakes(Drop(next, 8), callback, length - 8);
        if next.bank >= 8 {
          PlainSkips(next, callback, length, 8);
        }
      }
    }
  }

  // Which packets make the two agree

  /** The sizes of the packets that arrive before the first failing wait or the first abort by the callback. */
  function Supply(waits: seq<Wait>, aborts: seq<bool>, callback: bool): seq<nat> {
    if (callback && aborts != [] && aborts[0]) || waits == [] || waits[0].Failed? then []
    else [waits[0].size] + Supply(waits[1..], if callback && aborts != [] then aborts[1..] else aborts, callback)
  }

  function SupplyOf(s: State, callback: bool): seq<nat> { Supply(s.waits, s.aborts, callback) }

  function Sum(sizes: seq<nat>): nat { if sizes == [] then 0 else sizes[0] + Sum(sizes[1..]) }

  /** The turns of eight bytes that a packet serves, the last of them perhaps not in full. */
  function Serves(bank: nat): nat { (bank + 7) / 8 }

  /** A packet awaited by a turn serves at least that turn. */
  function ServesNext(size: nat): nat { if size == 0 then 1 else Serves(size) }

  /**
   * Whether the bytes run out: the packets do not serve all the turns, or after the last turn the packet in the bank,
   * which serves `serves` of them, and the later packets together hold fewer than `rest` bytes.
   */
  predicate RunsOut(bank: nat, serves: nat, sizes: seq<nat>, turns: nat, rest: nat)
    decreases |sizes|
  {
    if turns <= serves then (if bank > 8 * turns then bank - 8 * turns else 0) + Sum(sizes) < rest
    else sizes == [] || RunsOut(sizes[0], ServesNext(sizes[0]), sizes[1..], turns - serves, rest)
  }

  /** Whether every packet that serves turns is one of whole turns, except that the last may hold more bytes. */
  predicate WholeTurns(bank: nat, sizes: seq<nat>, turns: nat)
    decreases |sizes|
  {
    || 8 * turns <= bank
    || (bank % 8 == 0 && (sizes == [] || (sizes[0] >= 8 && WholeTurns(sizes[0], sizes[1..], turns - bank / 8))))
  }

  predicate FastRunsOut(s: State, callback: bool, length: nat) {
    if length < 8 then s.bank + Sum(SupplyOf(s, callback)) < length else
    var bank, left := s.bank - s.bank % 8, length - s.bank % 8;
    RunsOut(bank, Serves(bank), SupplyOf(s, callback), left / 8, left % 8)
  }

  predicate FastWholeTurns(s: State, callback: bool, length: nat) {
    length < 8 || WholeTurns(s.bank - s.bank % 8, SupplyOf(s, callback), (length - s.bank % 8) / 8)
  }

  /** The next packet is the first of the supply; without supply there is an error. */
  lemma NextOfSupply(s: State, callback: bool)
    ensures var (next, code) := NextPacket(s, callback);
            if SupplyOf(s, callback) == [] then code != NO_ERROR
            else code == NO_ERROR && [next.bank] + SupplyOf(next, callback) == SupplyOf(s, callback)
  {
  }

  function Turned(bank: nat): nat { if bank > 8 then bank - 8 else 0 }

  /** One turn uses up one of the turns that a packet serves. */
  lemma TurnRunsOut(bank: nat, serves: nat, sizes: seq<nat>, turns: nat, rest: nat)
    requires turns > 0 && serves > 0
    ensures RunsOut(bank, serves, sizes, turns, rest) <==> RunsOut(Turned(bank), serves - 1, sizes, turns - 1, rest)
  {
  }

  lemma TurnServes(bank: nat)
    ensures Serves(Turned(bank)) == (if bank == 0 then 0 else Serves(bank) - 1) == ServesNext(bank) - 1
    ensures (bank == 0 <==> Serves(bank) == 0) && ServesNext(bank) > 0
  {
  }

  lemma TurnIsWhole(bank: nat, sizes: seq<nat>, turns: nat)
    requires turns > 0 && bank > 0
    ensures WholeTurns(bank, sizes, turns) <==> bank >= 8 && WholeTurns(bank - 8, sizes, turns - 1)
  {
    if bank >= 8 {
      assert (bank - 8) % 8 == bank % 8 && (bank - 8) / 8 == bank / 8 - 1;
    }
  }

  /** The plain discard fails exactly if there are too few bytes. */
  lemma {:induction false} PlainFailsWhen(s: State, callback: bool, length: nat)
    ensures Plain(s, callback, length).1 != NO_ERROR <==> s.bank + Sum(SupplyOf(s, callback)) < length
    decreases |s.waits|, length
  {
    hide NextPacket, Supply;
    if length > 0 && s.bank > 0 {
      PlainFailsWhen(Drop(s, 1), callback, length - 1);
    } else if length > 0 {
      NextOfSupply(s, callback);
      var (next, code) := NextPacket(s, callback);
      if code == NO_ERROR {
        PlainFailsWhen(next, callback, length);
      }
    }
  }

  /** The unrolled one fails exactly if the bytes run out. */
  lemma {:induction false} UnrolledFailsWhen(s: State, callback: bool, length: nat)
    ensures Unrolled(s, callback, length).1 != NO_ERROR <==>
            RunsOut(s.bank, Serves(s.bank), SupplyOf(s, callback), length / 8, length % 8)
    decreases length
  {
    hide NextPacket, Supply, Plain, Serves, ServesNext;
    TurnServes(s.bank);
    if length < 8 {
      PlainFailsWhen(s, callback, length);
      assert length / 8 == 0 && length % 8 == length;
    } else if s.bank > 0 {
      UnrolledFailsWhen(Drop(s, 8), callback, length - 8);
      assert (length - 8) / 8 == length / 8 - 1 && (length - 8) % 8 == length % 8;
      hide RunsOut, Unrolled;
      TurnRunsOut(s.bank, Serves(s.bank), SupplyOf(s, callback), length / 8, length % 8);
    } else {
      NextOfSupply(s, callback);
      var (next, code) := NextPacket(s, callback);
      if code == NO_ERROR {
        UnrolledFailsWhen(Drop(next, 8), callback, length - 8);
        assert (length - 8) / 8 == length / 8 - 1 && (length - 8) % 8 == length % 8;
        assert SupplyOf(s, callback)[1..] == SupplyOf(next, callback);
        TurnServes(next.bank);
        TurnRunsOut(next.bank, ServesNext(next.bank), SupplyOf(next, callback), length / 8, length % 8);
      }
    }
  }

  lemma {:induction false} AlignedWhen(s: State, callback: bool, length: nat)
    ensures Aligned(s, callback, length) <==> WholeTurns(s.bank, SupplyOf(s, callback), length / 8)
    decreases length
  {
    hide NextPacket, Supply;
    if length < 8 {
    } else if s.bank > 0 {
      AlignedWhen(Drop(s, 8), callback, length - 8);
      assert (length - 8) / 8 == length / 8 - 1;
      hide WholeTurns;
      TurnIsWhole(s.bank, SupplyOf(s, callback), length / 8);
    } else {
      NextOfSupply(s, callback);
      var (next, code) := NextPacket(s, callback);
      if code == NO_ERROR {
        AlignedWhen(Drop(next, 8), callback, length - 8);
        assert (length - 8) / 8 == length / 8 - 1;
        if next.bank > 0 {
          TurnIsWhole(next.bank, SupplyOf(next, callback), length / 8);
        }
        assert SupplyOf(s, callback)[1..] == SupplyOf(next, callback);
      }
    }
  }

  /**
   * The unrolled discard and the plain one leave the same endpoint, return the same code and call the callback as
   * often if and only if the packets that serve the unrolled turns hold whole turns, or the bytes run out. Both are
   * matters of the bank and of the sizes of the packets before the first fault or abort.
   */
  lemma FastIsPlain(s: State, callback: bool, length: nat)
    ensures Fast(s, callback, length) == Plain(s, callback, length) <==>
            FastWholeTurns(s, callback, length) || FastRunsOut(s, callback, length)
    ensures Fast(s, callback, length).1 != NO_ERROR <==> FastRunsOut(s, callback, length)
  {
    hide NextPacket, Plain, Unrolled, Aligned, RunsOut, WholeTurns, Supply;
    if length < 8 {
      PlainFailsWhen(s, callback, length);
    } else {
      var toAlignment := s.bank % 8;
      var start := Drop(s, toAlignment);
      PlainSkips(s, callback, length, toAlignment);
      UnrolledTakes(start, callback, length - toAlignment);
      PlainTakes(start, callback, length - toAlignment);
      UnrolledFailsWhen(start, callback, length - toAlignment);
      AlignedWhen(start, callback, length - toAlignment);
      if Unrolled(start, callback, length - toAlignment).1 != NO_ERROR {
        UnrolledFails(start, callback, length - toAlignment, length - toAlignment);
      }
    }
  }

  lemma {:induction false} MultiplesAreWholeTurns(bank: nat, sizes: seq<nat>, turns: nat)
    requires bank % 8 == 0 && forall size :: size in sizes ==> size > 0 && size % 8 == 0
    ensures WholeTurns(bank, sizes, turns)
    decreases |sizes|
  {
    if 8 * turns > bank && sizes != [] {
      assert sizes[0] in sizes && forall size :: size in sizes[1..] ==> size in sizes;
      MultiplesAreWholeTurns(sizes[0], sizes[1..], turns - bank / 8);
    }
  }

  /** So a host whose packets, after the first, have non-zero multiples of eight bytes cannot tell the builds apart. */
  lemma FastIsPlainOnMultiplesOfEight(s: State, callback: bool, length: nat)
    requires forall size :: size in SupplyOf(s, callback) ==> size > 0 && size % 8 == 0
    ensures Fast(s, callback, length) == Plain(s, callback, length)
  {
    hide Plain, Unrolled, RunsOut, WholeTurns, Supply;
    FastIsPlain(s, callback, length);
    if length >= 8 {
      MultiplesAreWholeTurns(s.bank - s.bank % 8, SupplyOf(s, callback), (length - s.bank % 8) / 8);
    }
  }

  /** A second packet of four bytes is enough to tell them apart: the unrolled loop stops four bytes short. */
  lemma FastIsNotPlain()
    ensures var s := State(8, [Ready(4), Ready(8)], [], 0);
            Fast(s, false, 16).0.bank == 0 && Fast(s, false, 16).0.waits == [Ready(8)]
            && Plain(s, false, 16).0.bank == 4 && Plain(s, false, 16).0.waits == []
  {
    var s := State(8, [Ready(4), Ready(8)], [], 0);
    PlainSkips(s, false, 16, 8);
    var second := NextPacket(Drop(s, 8), false).0;
    PlainSkips(second, false, 8, 4);
    var third := NextPacket(Drop(second, 4), false).0;
    PlainSkips(third, false, 4, 4);
    assert Plain(Drop(third, 4), false, 0) == (Drop(third, 4), NO_ERROR);
    assert third.waits == [] && second.waits == [Ready(8)];
    assert Unrolled(s, false, 16) == Unrolled(Drop(s, 8), false, 8);
    assert Unrolled(Drop(second, 8), false, 0) == (Drop(second, 8), NO_ERROR);
  }

  class Endpoint {
    var bank: nat
    var waits: seq<Wait>
    var aborts: seq<bool>
    var calls: nat

    function View(): State
      reads this
    {
      State(bank, waits, aborts, calls)
    }

    constructor (waits: seq<Wait>, aborts: seq<bool>)
      ensures View() == State(0, waits, aborts, 0)
    {
      bank, calls := 0, 0;
      this.waits, this.aborts := waits, aborts;
    }

    method WaitUntilReady() returns (code: nat)
      modifies this
      ensures (View(), code) == Await(old(View()))
    {
      if waits == [] {
        return TIMEOUT;
      }
      match waits[0]
      case Ready(size) =>
        bank, waits, code := size, waits[1..], NO_ERROR;
      case Failed(error) =>
        waits, code := waits[1..], error;
    }

    method AskCallback() returns (abort: bool)
      modifies `aborts, `calls
      ensures abort <==> old(aborts) != [] && old(aborts)[0]
      ensures calls == old(calls) + 1 && aborts == if old(aborts) == [] then [] else old(aborts)[1..]
    {
      calls := calls + 1;
      abort := aborts != [] && aborts[0];
      if aborts != [] {
        aborts := aborts[1..];
      }
    }

    method DiscardByte()
      modifies `bank
      ensures View() == Drop(old(View()), 1)
    {
      if bank > 0 {
        bank := bank - 1;
      }
    }

    /** The step both loops take when the bank is used up. */
    method Advance(callback: bool) returns (code: nat)
      modifies this
      ensures (View(), code) == NextPacket(old(View()), callback)
    {
      bank := 0;
      if callback {
        var abort := AskCallback();
        if abort {
          return CALLBACK_ABORTED;
        }
      }
      code := WaitUntilReady();
    }

    /**
     * A whole discard in the plain build, or with `fast` in the build with unrolled loops. The bytes that the source
     * discards by jumping into the middle of its first turn are a loop of their own here.
     */
    method DiscardStream(len: nat, callback: bool, fast: bool) returns (code: nat)
      modifies this
      ensures var (ready, error) := Await(old(View()));
              (View(), code) == if error != NO_ERROR then (ready, error)
                                else if fast then Fast(ready, callback, len) else Plain(ready, callback, len)
    {
      hide NextPacket;
      code := WaitUntilReady();
      if code != NO_ERROR {
        return;
      }
      ghost var start := View();
      var length: nat := len;
      if fast {
        var toAlignment := bank % 8;
        if length >= 8 {
          length := length - toAlignment;
          for i := 0 to toAlignment
            invariant View() == Drop(start, i)
          {
            DiscardByte();
          }
          while length >= 8
            invariant Unrolled(View(), callback, length) == Fast(start, callback, len)
          {
            if bank == 0 {
              code := Advance(callback);
              if code != NO_ERROR {
                return;
              }
            }
            length := length - 8;
            ghost var turn := View();
            for i := 0 to 8
              invariant View() == Drop(turn, i)
            {
              DiscardByte();
            }
          }
        }
      }
      while length > 0
        invariant Plain(View(), callback, length) == if fast then Fast(start, callback, len) else Plain(start, callback, len)
        decreases |waits|, length
      {
        if bank == 0 {
          ghost var before := View();
          code := Advance(callback);
          if code != NO_ERROR {
            return;
          }
        } else {
          DiscardByte();
          length := length - 1;
        }
      }
      code := NO_ERROR;
    }
  }
}
