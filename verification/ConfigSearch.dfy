/** Searching a configuration descriptor, a chain of descriptors that each begin with their size and type. */
module ConfigSearch {
  import opened Bits

  /** `rem` bytes from `loc` on are whole descriptors; two more bytes, of any value, can be read after them. */
  predicate WellFormed(mem: seq<byte>, loc: nat, rem: nat)
    decreases rem
  {
    && loc + rem + 2 <= |mem|
    && (rem > 0 ==> 2 <= mem[loc] <= rem && WellFormed(mem, loc + mem[loc], rem - mem[loc]))
  }

  /** Where the descriptors after the current one start. */
  function Later(mem: seq<byte>, loc: nat, rem: nat): (locs: seq<nat>)
    requires WellFormed(mem, loc, rem)
    ensures forall l :: l in locs ==> loc < l < loc + rem && l + 2 <= |mem|
    decreases rem
  {
    if rem == 0 || rem == mem[loc] then []
    else
      var next, left := loc + mem[loc], rem - mem[loc];
      [next] + Later(mem, next, left)
  }

  /** The number of values that the 16-bit count of remaining bytes has. */
  const COUNTS := 0x10000

  function Less(rem: nat, size: byte): nat { (rem + COUNTS - size) % COUNTS }

  function Type(mem: seq<byte>, loc: nat): byte
    requires loc + 2 <= |mem|
  {
    mem[loc + 1]
  }

  /** The place in `locs` of the first location that satisfies the test; their number if there is none. */
  function FirstIndex(locs: seq<nat>, test: nat -> bool): (k: nat)
    ensures k <= |locs|
    ensures k < |locs| ==> test(locs[k])
    ensures forall j :: 0 <= j < k ==> !test(locs[j])
  {
    if locs == [] || test(locs[0]) then 0 else
    var k := FirstIndex(locs[1..], test);
    assert forall j :: 0 < j < k + 1 ==> locs[j] == locs[1..][j - 1];
    k + 1
  }

  function IsType(mem: seq<byte>, t: byte): nat -> bool {
    (l: nat) => l + 2 <= |mem| && Type(mem, l) == t
  }

  /** The type is the second byte of a descriptor, and the searches are for its value. */
  lemma TypeIsSecondByte(mem: seq<byte>, l: nat, t: byte, u: byte)
    requires l + 2 <= |mem|
    ensures Type(mem, l) == mem[l + 1]
    ensures IsType(mem, t)(l) <==> mem[l + 1] == t
    ensures IsEither(mem, t, u)(l) <==> mem[l + 1] == t || mem[l + 1] == u
  {
  }

  lemma {:induction false} FirstIndexUnique(locs: seq<nat>, test: nat -> bool, k: nat)
    requires k < |locs| && test(locs[k]) && forall j :: 0 <= j < k ==> !test(locs[j])
    ensures FirstIndex(locs, test) == k
  {
    if k > 0 {
      assert !test(locs[0]);
      forall j | 0 <= j < k - 1 ensures !test(locs[1..][j]) { assert !test(locs[j + 1]); }
      FirstIndexUnique(locs[1..], test, k - 1);
    }
  }

  function IsEither(mem: seq<byte>, t: byte, u: byte): nat -> bool {
    (l: nat) => l + 2 <= |mem| && (Type(mem, l) == t || Type(mem, l) == u)
  }

  function HasOpinion(comparator: nat -> Verdict): nat -> bool {
    (l: nat) => comparator(l) != NotFound
  }

  datatype Verdict = Found | Fail | NotFound

  datatype Outcome = CompFound | CompFail | EndOfDescriptor

  /** The locations a comparator is asked about: the later descriptors, and the place where the chain ends. */
  function Visited(mem: seq<byte>, loc: nat, rem: nat): seq<nat>
    requires WellFormed(mem, loc, rem)
  {
    if rem == 0 then [] else Later(mem, loc, rem) + [loc + rem]
  }

  /** Moving to the next descriptor takes the first of the later ones, or the end. */
  lemma Advance(mem: seq<byte>, loc: nat, rem: nat)
    requires WellFormed(mem, loc, rem) && rem > 0
    ensures var next, left := loc + mem[loc], rem - mem[loc];
            && WellFormed(mem, next, left)
            && Later(mem, loc, rem) == (if left == 0 then [] else [next] + Later(mem, next, left))
            && Visited(mem, loc, rem) == [next] + Visited(mem, next, left)
  {
  }

  lemma NothingLater(mem: seq<byte>, loc: nat)
    ensures WellFormed(mem, loc, 0) ==> Later(mem, loc, 0) == []
  {
  }

  /** A cursor that has come to the k-th of the locations it could go to, with the others still ahead. */
  ghost predicate Reached(mem: seq<byte>, loc: nat, rem: nat, k: nat, loc': nat, rem': nat)
    requires WellFormed(mem, loc, rem)
  {
    var locs := Later(mem, loc, rem);
    && k < |locs| && loc' == locs[k] && rem' > 0
    && WellFormed(mem, loc', rem') && Later(mem, loc', rem') == locs[k + 1..]
  }

  lemma ReachedAhead(mem: seq<byte>, loc: nat, rem: nat, k: nat, loc': nat, rem': nat)
    requires WellFormed(mem, loc, rem) && Reached(mem, loc, rem, k, loc', rem')
    ensures WellFormed(mem, loc', rem') && rem' > 0
    ensures k < |Later(mem, loc, rem)| && Later(mem, loc', rem') == Later(mem, loc, rem)[k + 1..]
  {
  }

  lemma ReachedTwice(mem: seq<byte>, loc: nat, rem: nat, k: nat, loc': nat, rem': nat, m: nat, loc'': nat, rem'': nat)
    requires WellFormed(mem, loc, rem) && Reached(mem, loc, rem, k, loc', rem')
    requires WellFormed(mem, loc', rem') && Reached(mem, loc', rem', m, loc'', rem'')
    ensures Reached(mem, loc, rem, k + 1 + m, loc'', rem'')
  {
    var locs := Later(mem, loc, rem);
    assert locs[k + 1..][m] == locs[k + 1 + m] && locs[k + 1..][m + 1..] == locs[k + 1 + m + 1..];
  }

  /** The position that the library's functions update through their two pointers. */
  class Cursor {
    const mem: seq<byte>
    var loc: nat
    var rem: nat

    ghost predicate Valid()
      reads this
    {
      rem < COUNTS && loc + 2 <= |mem| && WellFormed(mem, loc, rem)
    }

    ghost function Ahead(): seq<nat>
      requires Valid()
      reads this
    {
      Later(mem, loc, rem)
    }

    constructor (mem: seq<byte>, loc: nat, rem: nat)
      requires rem < COUNTS && WellFormed(mem, loc, rem)
      ensures Valid() && this.mem == mem && this.loc == loc && this.rem == rem
    {
      this.mem, this.loc, this.rem := mem, loc, rem;
    }

    /** Any size is taken on trust, and the count wraps around; in a well-formed chain this is the next descriptor. */
    method GetNextDescriptor()
      requires loc < |mem| && rem < COUNTS
      modifies this
      ensures loc == old(loc) + mem[old(loc)] && rem == Less(old(rem), mem[old(loc)])
      ensures old(Valid() && rem > 0) ==>
                && Valid() && loc + rem == old(loc + rem)
                && old(loc) < loc && loc + 2 <= |mem|
                && (if rem == 0 then old(Ahead()) == [] == Ahead() else old(Ahead()) == [loc] + Ahead())
                && old(Visited(mem, loc, rem)) == [loc] + Visited(mem, loc, rem)
    {
      if Valid() && rem > 0 {
        Advance(mem, loc, rem);
      }
      var size := mem[loc];
      loc := loc + size;
      rem := Less(rem, size);
    }

    /** Bytes remain if and only if there is a later descriptor of the type; then the cursor is at the first one. */
    method GetNextDescriptorOfType(t: byte)
      requires Valid()
      modifies this
      ensures Valid() && loc + rem == old(loc) + old(rem)
      ensures var k := FirstIndex(old(Ahead()), IsType(mem, t));
              if k < |old(Ahead())| then Reached(mem, old(loc), old(rem), k, loc, rem) else rem == 0
      ensures rem > 0 ==> mem[loc + 1] == t
    {
      hide WellFormed, Later, FirstIndex;
      ghost var locs, test := Ahead(), IsType(mem, t);
      ghost var n := 0;
      while rem > 0
        invariant Valid() && loc + rem == old(loc) + old(rem)
        invariant 0 <= n <= |locs| && Ahead() == locs[n..]
        invariant forall j :: 0 <= j < n ==> !test(locs[j])
        decreases rem
      {
        GetNextDescriptor();
        if rem > 0 {
          assert locs[n] == loc && locs[n..][1..] == locs[n + 1..];
        }
        if Type(mem, loc) == t {
          if rem > 0 {
            FirstIndexUnique(locs, test, n);
          } else {
            NoneOf(locs, test);
          }
          return;
        }
        n := if rem > 0 then n + 1 else n;
      }
      NothingLater(mem, loc);
      NoneOf(locs, test);
    }

    /**
     * Bytes remain if and only if the first later descriptor of either type is of the wanted one; the location is
     * then that descriptor. Being stopped at the other type zeroes the bytes remaining and keeps the location there.
     */
    method GetNextDescriptorOfTypeBefore(t: byte, before: byte)
      requires Valid()
      modifies this
      ensures Valid()
      ensures var k := FirstIndex(old(Ahead()), IsEither(mem, t, before));
              if k < |old(Ahead())| && Type(mem, old(Ahead())[k]) == t then
                Reached(mem, old(loc), old(rem), k, loc, rem) && loc + rem == old(loc) + old(rem)
              else
                rem == 0 && loc == if k < |old(Ahead())| then old(Ahead())[k] else old(loc) + old(rem)
    {
      ghost var locs := Ahead();
      hide WellFormed, Later, FirstIndex;
      ghost var either := IsEither(mem, t, before);
      ghost var n := 0;
      while rem > 0
        invariant Valid() && loc + rem == old(loc) + old(rem)
        invariant 0 <= n <= |locs| && Ahead() == locs[n..]
        invariant forall j :: 0 <= j < n ==> !either(locs[j])
        decreases rem
      {
        GetNextDescriptor();
        if rem > 0 {
          assert locs[n] == loc && locs[n..][1..] == locs[n + 1..];
          if either(loc) {
            FirstIndexUnique(locs, either, n);
          }
        } else {
          NoneOf(locs, either);
        }
        if Type(mem, loc) == t {
          return;
        } else if Type(mem, loc) == before {
          rem := 0;
          return;
        }
        n := if rem > 0 then n + 1 else n;
      }
      NothingLater(mem, loc);
      NoneOf(locs, either);
    }

    /** The first descriptor of the wanted type among those after the first one of the other type. */
    method GetNextDescriptorOfTypeAfter(t: byte, after: byte)
      requires Valid()
      modifies this
      ensures Valid() && loc + rem == old(loc) + old(rem)
      ensures var locs := old(Ahead());
              var k := FirstIndex(locs, IsType(mem, after));
              var m := if k < |locs| then k + 1 + FirstIndex(locs[k + 1..], IsType(mem, t)) else |locs|;
              if m < |locs| then Reached(mem, old(loc), old(rem), m, loc, rem) else rem == 0
      ensures rem > 0 ==> mem[loc + 1] == t
    {
      hide WellFormed, Later, FirstIndex, Reached;
      GetNextDescriptorOfType(after);
      ghost var k, middle, left := FirstIndex(old(Ahead()), IsType(mem, after)), loc, rem;
      if k < |old(Ahead())| {
        ReachedAhead(mem, old(loc), old(rem), k, loc, rem);
      }
      if rem > 0 {
        ghost var m := FirstIndex(Ahead(), IsType(mem, t));
        GetNextDescriptorOfType(t);
        if m < |Later(mem, middle, left)| {
          ReachedTwice(mem, old(loc), old(rem), k, middle, left, m, loc, rem);
        }
      }
    }

    /**
     * The comparator decides at the first visited location on which it has an opinion. Failing there leaves the
     * cursor one step before, so that the next search meets the failing descriptor first.
     */
    method GetNextDescriptorComp(comparator: nat -> Verdict) returns (outcome: Outcome)
      requires Valid()
      modifies this
      ensures Valid() && loc + rem == old(loc) + old(rem)
      ensures var visited := old(Visited(mem, loc, rem));
              var k := FirstIndex(visited, HasOpinion(comparator));
              if k == |visited| then outcome == EndOfDescriptor && rem == 0
              else if comparator(visited[k]) == Found then outcome == CompFound && loc == visited[k]
              else outcome == CompFail && rem > 0 && Visited(mem, loc, rem) == visited[k..]
    {
      hide WellFormed, Later, FirstIndex;
      ghost var visited, test := Visited(mem, loc, rem), HasOpinion(comparator);
      ghost var n := 0;
      while rem > 0
        invariant Valid() && loc + rem == old(loc) + old(rem)
        invariant 0 <= n <= |visited| && Visited(mem, loc, rem) == visited[n..]
        invariant forall j :: 0 <= j < n ==> !test(visited[j])
        decreases rem
      {
        var prevLoc, prevRem := loc, rem;
        GetNextDescriptor();
        assert visited[n] == loc && visited[n..][1..] == visited[n + 1..];
        if comparator(loc) != NotFound {
          FirstIndexUnique(visited, test, n);
          if comparator(loc) == Fail {
            loc, rem := prevLoc, prevRem;
            return CompFail;
          }
          return CompFound;
        }
        n := n + 1;
      }
      NoneOf(visited, test);
      outcome := EndOfDescriptor;
    }
  }

  lemma NoneOf(locs: seq<nat>, test: nat -> bool)
    requires forall j :: 0 <= j < |locs| ==> !test(locs[j])
    ensures FirstIndex(locs, test) == |locs|
  {
  }

  // Chains of any kind

  /** A search for a type in the middle of its loop, or returned. */
  datatype Search = Searching(loc: nat, rem: nat) | Returned(loc: nat, rem: nat)

  /** One turn of the loop, in a memory that can be read everywhere. */
  function Turn(memory: nat -> byte, t: byte, s: Search): Search {
    if s.Returned? then s
    else if s.rem == 0 then Returned(s.loc, s.rem)
    else
      var size := memory(s.loc);
      var loc, rem := s.loc + size, Less(s.rem, size);
      if memory(loc + 1) == t then Returned(loc, rem) else Searching(loc, rem)
  }

  function Turns(memory: nat -> byte, t: byte, s: Search, n: nat): Search
    decreases n
  {
    if n == 0 then s else Turns(memory, t, Turn(memory, t, s), n - 1)
  }

  ghost predicate Terminates(memory: nat -> byte, t: byte, loc: nat, rem: nat) {
    exists n: nat :: Turns(memory, t, Searching(loc, rem), n).Returned?
  }

  /** What a chain leads to: a return, a descriptor of size 0, or a place beyond its end with a count that has wrapped. */
  datatype Fate = Returns | Stuck | Overruns(loc: nat, rem: nat)

  function FateOf(memory: nat -> byte, t: byte, loc: nat, rem: nat): Fate
    decreases rem
  {
    if rem == 0 then Returns else
    var size := memory(loc);
    if memory(loc + size + 1) == t then Returns
    else if size == 0 then Stuck
    else if size > rem then Overruns(loc + size, rem + COUNTS - size)
    else FateOf(memory, t, loc + size, rem - size)
  }

  lemma {:induction false} StuckForEver(memory: nat -> byte, t: byte, loc: nat, rem: nat, n: nat)
    requires 0 < rem < COUNTS && memory(loc) == 0 && memory(loc + 1) != t
    ensures Turns(memory, t, Searching(loc, rem), n) == Searching(loc, rem)
  {
    if n > 0 {
      StuckForEver(memory, t, loc, rem, n - 1);
    }
  }

  lemma OneTurn(memory: nat -> byte, t: byte, loc: nat, rem: nat)
    requires rem > 0
    ensures var size := memory(loc);
            var next, left := loc + size, Less(rem, size);
            Terminates(memory, t, loc, rem) <==> memory(next + 1) == t || Terminates(memory, t, next, left)
  {
    var s := Searching(loc, rem);
    var next := Turn(memory, t, s);
    if next.Returned? {
      assert Turns(memory, t, s, 1) == Turns(memory, t, next, 0);
    } else {
      forall n: nat | Turns(memory, t, s, n).Returned? ensures n > 0 && Turns(memory, t, next, n - 1).Returned? {}
      forall n: nat | Turns(memory, t, next, n).Returned? ensures Turns(memory, t, s, n + 1).Returned? {}
    }
  }

  /**
   * When a search ends, in any memory: always if the wanted type is met or the sizes use up the count exactly, never if
   * a descriptor of size 0 comes first; and if a size exceeds the bytes left, just when it ends beyond the chain's end,
   * where it goes on with almost the whole address range still to search.
   */
  lemma {:induction false} SearchTerminates(memory: nat -> byte, t: byte, loc: nat, rem: nat)
    requires rem < COUNTS
    ensures match FateOf(memory, t, loc, rem)
            case Returns => Terminates(memory, t, loc, rem)
            case Stuck => !Terminates(memory, t, loc, rem)
            case Overruns(next, left) =>
              && (Terminates(memory, t, loc, rem) <==> Terminates(memory, t, next, left))
              && next > loc + rem && 0xFF00 < left < COUNTS
    decreases rem
  {
    if rem == 0 {
      assert Turns(memory, t, Searching(loc, rem), 1) == Turns(memory, t, Returned(loc, rem), 0);
    } else {
      hide Terminates;
      OneTurn(memory, t, loc, rem);
      var size := memory(loc);
      if memory(loc + size + 1) != t {
        if size == 0 {
          NeverReturns(memory, t, loc, rem);
        } else if size <= rem {
          SearchTerminates(memory, t, loc + size, rem - size);
        }
      }
    }
  }

  lemma NeverReturns(memory: nat -> byte, t: byte, loc: nat, rem: nat)
    requires 0 < rem < COUNTS && memory(loc) == 0 && memory(loc + 1) != t
    ensures !Terminates(memory, t, loc, rem)
  {
    forall n: nat ensures Turns(memory, t, Searching(loc, rem), n).Searching? { StuckForEver(memory, t, loc, rem, n); }
  }

  /** In a well-formed chain every search ends. */
  lemma {:induction false} WellFormedReturns(mem: seq<byte>, memory: nat -> byte, t: byte, loc: nat, rem: nat)
    requires WellFormed(mem, loc, rem) && forall l :: 0 <= l < |mem| ==> memory(l) == mem[l]
    ensures FateOf(memory, t, loc, rem) == Returns
    decreases rem
  {
    if rem > 0 {
      WellFormedReturns(mem, memory, t, loc + mem[loc], rem - mem[loc]);
    }
  }
}
