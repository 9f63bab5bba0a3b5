/** Bytes, their bits, and the serial frame that both directions of the PS/2 wire use. */
module Bits {
  type byte = x: int | 0 <= x < 256

  function Pow2(n: nat): (p: nat)
    ensures p > 0
  {
    if n == 0 then 1 else 2 * Pow2(n - 1)
  }

  /** The number whose binary digits, least significant first, are `bits`. */
  function Value(bits: seq<bool>): nat {
    if bits == [] then 0 else (if bits[0] then 1 else 0) + 2 * Value(bits[1..])
  }

  /** The lowest `width` binary digits of `v`, least significant first. */
  function Digits(v: nat, width: nat): (bits: seq<bool>)
    ensures |bits| == width
  {
    if width == 0 then [] else [v % 2 == 1] + Digits(v / 2, width - 1)
  }

  function Unpack(b: byte): seq<bool> { Digits(b, 8) }

  lemma {:induction false} ValueBound(bits: seq<bool>)
    ensures Value(bits) < Pow2(|bits|)
  {
    if bits != [] {
      ValueBound(bits[1..]);
    }
  }

  lemma ByteBound()
    ensures Pow2(8) == 256
  {
    assert Pow2(4) == 16;
    assert Pow2(6) == 64;
  }

  lemma {:induction false} ByteRange(n: nat)
    requires n < 8
    ensures Pow2(n + 1) <= 256
    decreases 8 - n
  {
    if n < 7 {
      ByteRange(n + 1);
    } else {
      ByteBound();
    }
  }

  function Pack(bits: seq<bool>): byte
    requires |bits| == 8
  {
    ValueBound(bits);
    ByteBound();
    Value(bits)
  }

  lemma {:induction false} ValueDigits(v: nat, width: nat)
    requires v < Pow2(width)
    ensures Value(Digits(v, width)) == v
  {
    if width > 0 {
      ValueDigits(v / 2, width - 1);
    }
  }

  lemma {:induction false} DigitsValue(bits: seq<bool>)
    ensures Digits(Value(bits), |bits|) == bits
  {
    if bits != [] {
      DigitsValue(bits[1..]);
    }
  }

  lemma PackUnpack(b: byte)
    ensures Pack(Unpack(b)) == b
  {
    ByteBound();
    ValueDigits(b, 8);
  }

  lemma {:induction false} ValueAppend(bits: seq<bool>, bit: bool)
    ensures Value(bits + [bit]) == Value(bits) + if bit then Pow2(|bits|) else 0
  {
    if bits != [] {
      assert (bits + [bit])[1..] == bits[1..] + [bit];
      ValueAppend(bits[1..], bit);
    }
  }

  /** Bitwise `&`, `|` and `^` of C on unsigned numbers. */
  function And(a: nat, b: nat): nat {
    if a == 0 then 0 else 2 * And(a / 2, b / 2) + if a % 2 == 1 && b % 2 == 1 then 1 else 0
  }

  function Or(a: nat, b: nat): nat {
    if a == 0 then b else 2 * Or(a / 2, b / 2) + if a % 2 == 1 || b % 2 == 1 then 1 else 0
  }

  function Xor(a: nat, b: nat): nat
    decreases a + b
  {
    if a == 0 && b == 0 then 0 else 2 * Xor(a / 2, b / 2) + if a % 2 != b % 2 then 1 else 0
  }

  lemma {:induction false} AndMask(v: nat, width: nat, n: nat)
    requires n < width
    ensures (And(v, Pow2(n)) != 0) == Digits(v, width)[n]
  {
    if v == 0 {
      ZeroDigits(width);
    } else if n == 0 {
      AndZero(v / 2);
    } else {
      assert Pow2(n) / 2 == Pow2(n - 1) && Pow2(n) % 2 == 0;
      AndMask(v / 2, width - 1, n - 1);
    }
  }

  lemma {:induction false} ZeroDigits(width: nat)
    ensures forall n :: 0 <= n < width ==> !Digits(0, width)[n]
  {
    if width > 0 {
      ZeroDigits(width - 1);
    }
  }

  lemma {:induction false} AndZero(v: nat)
    ensures And(v, 0) == 0
  {
    if v > 0 {
      AndZero(v / 2);
    }
  }

  /** `|=` with a mask above all collected bits adds the mask. */
  lemma {:induction false} OrAbove(v: nat, n: nat)
    requires v < Pow2(n)
    ensures Or(v, Pow2(n)) == v + Pow2(n)
  {
    if v > 0 {
      assert Pow2(n) / 2 == Pow2(n - 1) && Pow2(n) % 2 == 0;
      OrAbove(v / 2, n - 1);
    }
  }

  /** `|` of numbers without common digits adds them. */
  lemma {:induction false} OrBelow(high: nat, low: nat, n: nat)
    requires low < Pow2(n)
    ensures Or(high * Pow2(n), low) == high * Pow2(n) + low
  {
    if n == 0 {
      OrZero(high);
    } else {
      var h := high * Pow2(n - 1);
      assert high * Pow2(n) == 2 * h;
      OrBelow(high, low / 2, n - 1);
    }
  }

  lemma {:induction false} OrZero(v: nat)
    ensures Or(v, 0) == v
  {
    if v > 0 {
      OrZero(v / 2);
    }
  }

  lemma {:induction false} XorZero(a: nat)
    ensures Xor(a, 0) == a == Xor(0, a)
  {
    if a != 0 {
      XorZero(a / 2);
    }
  }

  lemma {:induction false} XorAssoc(a: nat, b: nat, c: nat)
    ensures Xor(Xor(a, b), c) == Xor(a, Xor(b, c))
    decreases a + b + c
  {
    if a == 0 {
      XorZero(b);
      XorZero(Xor(b, c));
    } else if b == 0 {
      XorZero(a);
      XorZero(c);
    } else if c == 0 {
      XorZero(Xor(a, b));
      XorZero(b);
    } else {
      XorAssoc(a / 2, b / 2, c / 2);
      XorHalf(a, b);
      XorHalf(b, c);
    }
  }

  lemma XorHalf(a: nat, b: nat)
    ensures Xor(a, b) / 2 == Xor(a / 2, b / 2)
    ensures Xor(a, b) % 2 == if a % 2 != b % 2 then 1 else 0
  {
  }

  lemma {:induction false} XorBound(a: nat, b: nat, n: nat)
    requires a < Pow2(n) && b < Pow2(n)
    ensures Xor(a, b) < Pow2(n)
    decreases n
  {
    if n > 0 {
      XorBound(a / 2, b / 2, n - 1);
    }
  }

  /** A bit written above all collected bits appends a digit. */
  lemma AppendDigit(v: nat, n: nat, bit: bool)
    requires v < Pow2(n)
    ensures var next := if bit then Or(v, Pow2(n)) else v;
            next < Pow2(n + 1) && Digits(next, n + 1) == Digits(v, n) + [bit]
  {
    var d := Digits(v, n);
    OrAbove(v, n);
    ValueDigits(v, n);
    ValueAppend(d, bit);
    ValueBound(d + [bit]);
    DigitsValue(d + [bit]);
  }

  /** Whether an odd number of the bits are set. */
  function OddOnes(bits: seq<bool>): bool {
    if bits == [] then false else bits[0] != OddOnes(bits[1..])
  }

  lemma {:induction false} FlipChangesParity(bits: seq<bool>, at: nat)
    requires at < |bits|
    ensures OddOnes(bits[at := !bits[at]]) == !OddOnes(bits)
  {
    var flipped := bits[at := !bits[at]];
    if at == 0 {
      assert flipped[1..] == bits[1..];
    } else {
      assert flipped[1..] == bits[1..][at - 1 := !bits[at]];
      FlipChangesParity(bits[1..], at - 1);
    }
  }

  /** An 11-bit frame: low start bit, data least significant bit first, odd parity, high stop bit. */
  function Frame(b: byte): (f: seq<bool>)
    ensures |f| == 11
  {
    [false] + Unpack(b) + [!OddOnes(Unpack(b)), true]
  }

  // What these definitions come to in plain numbers

  /** The k-th binary digit of v, least significant first. */
  predicate Digit(v: nat, k: nat) { v / Pow2(k) % 2 == 1 }

  lemma {:induction false} DigitLater(v: nat, k: nat)
    requires k > 0
    ensures Digit(v, k) == Digit(v / 2, k - 1)
  {
    assert Pow2(k) == 2 * Pow2(k - 1);
    assert v / (2 * Pow2(k - 1)) == v / 2 / Pow2(k - 1) by { DivideTwice(v, Pow2(k - 1)); }
  }

  lemma DivideTwice(v: nat, p: nat)
    requires p > 0
    ensures v / (2 * p) == v / 2 / p
  {
    var q, r := v / 2 / p, v / 2 % p;
    assert v / 2 == q * p + r;
    assert v == q * (2 * p) + (2 * r + v % 2);
    QuotientIs(v, 2 * p, q, 2 * r + v % 2);
  }

  lemma QuotientIs(v: nat, d: nat, q: nat, r: nat)
    requires r < d && v == q * d + r
    ensures v / d == q
  {
    assert v == v / d * d + v % d;
    ProductsApart(q, v / d, d);
    ProductsApart(v / d, q, d);
  }

  lemma {:induction false} ProductsApart(a: nat, b: nat, d: nat)
    ensures a < b ==> a * d + d <= b * d
    decreases b
  {
    if a + 1 < b {
      ProductsApart(a, b - 1, d);
      assert b * d == (b - 1) * d + d;
    } else if a + 1 == b {
      assert b * d == a * d + d;
    }
  }

  lemma {:induction false} DigitsAt(v: nat, width: nat, k: nat)
    requires k < width
    ensures Digits(v, width)[k] == Digit(v, k)
  {
    if k > 0 {
      DigitLater(v, k);
      DigitsAt(v / 2, width - 1, k - 1);
    }
  }

  lemma DigitFirst(v: nat)
    ensures Digit(v, 0) == (v % 2 == 1)
  {
  }

  lemma AndHalf(a: nat, b: nat)
    ensures And(a, b) / 2 == And(a / 2, b / 2) && (And(a, b) % 2 == 1 <==> a % 2 == 1 && b % 2 == 1)
  {
  }

  lemma OrHalf(a: nat, b: nat)
    ensures Or(a, b) / 2 == Or(a / 2, b / 2) && (Or(a, b) % 2 == 1 <==> a % 2 == 1 || b % 2 == 1)
  {
  }

  lemma {:induction false} AndDigit(a: nat, b: nat, k: nat)
    ensures Digit(And(a, b), k) <==> Digit(a, k) && Digit(b, k)
    decreases k
  {
    hide Digit, And;
    AndHalf(a, b);
    if k == 0 {
      DigitFirst(a);
      DigitFirst(b);
      DigitFirst(And(a, b));
    } else {
      DigitLater(a, k);
      DigitLater(b, k);
      DigitLater(And(a, b), k);
      AndDigit(a / 2, b / 2, k - 1);
    }
  }

  lemma {:induction false} OrDigit(a: nat, b: nat, k: nat)
    ensures Digit(Or(a, b), k) <==> Digit(a, k) || Digit(b, k)
    decreases k
  {
    hide Digit, Or;
    OrHalf(a, b);
    if k == 0 {
      DigitFirst(a);
      DigitFirst(b);
      DigitFirst(Or(a, b));
    } else {
      DigitLater(a, k);
      DigitLater(b, k);
      DigitLater(Or(a, b), k);
      OrDigit(a / 2, b / 2, k - 1);
    }
  }

  lemma {:induction false} XorDigit(a: nat, b: nat, k: nat)
    ensures Digit(Xor(a, b), k) <==> Digit(a, k) != Digit(b, k)
    decreases k
  {
    hide Digit, Xor;
    XorHalf(a, b);
    if k == 0 {
      DigitFirst(a);
      DigitFirst(b);
      DigitFirst(Xor(a, b));
    } else {
      DigitLater(a, k);
      DigitLater(b, k);
      DigitLater(Xor(a, b), k);
      XorDigit(a / 2, b / 2, k - 1);
    }
  }

  /** `&` with a mask of one bit tests that digit. */
  lemma AndTests(v: byte, k: nat)
    requires k < 8
    ensures And(v, Pow2(k)) != 0 <==> Digit(v, k)
  {
    AndMask(v, 8, k);
    DigitsAt(v, 8, k);
  }

  /** `&` with a mask of low bits takes the remainder. */
  lemma {:induction false} AndLow(v: nat, n: nat)
    ensures And(v, Pow2(n) - 1) == v % Pow2(n)
    decreases n
  {
    if n == 0 {
      AndZero(v);
    } else {
      var p := Pow2(n - 1);
      assert Pow2(n) == 2 * p;
      hide Pow2, And;
      AndLow(v / 2, n - 1);
      RemainderTwice(v, p);
      AndOdd(v, p - 1);
    }
  }

  lemma AndOdd(v: nat, m: nat)
    ensures And(v, 2 * m + 1) == 2 * And(v / 2, m) + v % 2
  {
    assert (2 * m + 1) / 2 == m && (2 * m + 1) % 2 == 1;
  }

  lemma RemainderTwice(v: nat, p: nat)
    requires p > 0
    ensures v % (2 * p) == 2 * (v / 2 % p) + v % 2
  {
    var q, r := v / 2 / p, v / 2 % p;
    assert v / 2 == q * p + r;
    var rest := 2 * r + v % 2;
    assert v == q * (2 * p) + rest;
    QuotientIs(v, 2 * p, q, rest);
    assert v == v / (2 * p) * (2 * p) + v % (2 * p);
  }

  lemma Powers()
    ensures Pow2(0) == 1 && Pow2(1) == 2 && Pow2(2) == 4 && Pow2(3) == 8 && Pow2(4) == 16
    ensures Pow2(5) == 32 && Pow2(6) == 64 && Pow2(7) == 128
  {
    assert Pow2(2) == 4 && Pow2(4) == 16 && Pow2(6) == 64;
  }

  lemma {:induction false} HighDigit(v: nat, n: nat, k: nat)
    requires v < Pow2(n) && n <= k
    ensures !Digit(v, k)
    decreases k
  {
    hide Digit;
    if k == 0 {
      DigitFirst(v);
    } else {
      DigitLater(v, k);
      HighDigit(v / 2, if n == 0 then 0 else n - 1, k - 1);
    }
  }

  function Ones(bits: seq<bool>): nat {
    if bits == [] then 0 else (if bits[0] then 1 else 0) + Ones(bits[1..])
  }

  lemma {:induction false} OddOnesCounts(bits: seq<bool>)
    ensures OddOnes(bits) <==> Ones(bits) % 2 == 1
  {
    if bits != [] {
      OddOnesCounts(bits[1..]);
    }
  }

  lemma {:induction false} OnesAppend(bits: seq<bool>, bit: bool)
    ensures Ones(bits + [bit]) == Ones(bits) + if bit then 1 else 0
  {
    if bits == [] {
      assert bits + [bit] == [bit];
    } else {
      assert (bits + [bit])[1..] == bits[1..] + [bit];
      OnesAppend(bits[1..], bit);
    }
  }

  /** A frame bit by bit: 0, the digits of the byte from the lowest up, a bit that makes their ones odd, 1. */
  lemma FrameBits(b: byte)
    ensures var f := Frame(b);
            && |f| == 11 && !f[0] && f[10]
            && (forall k :: 0 <= k < 8 ==> f[1 + k] == Digit(b, k))
            && Ones(f[1..10]) % 2 == 1
  {
    hide Digits, OddOnes, Ones, Digit;
    var f := Frame(b);
    forall k | 0 <= k < 8 ensures f[1 + k] == Digit(b, k) { DigitsAt(b, 8, k); }
    assert f[1..10] == Unpack(b) + [!OddOnes(Unpack(b))];
    OnesAppend(Unpack(b), !OddOnes(Unpack(b)));
    OddOnesCounts(Unpack(b));
  }

  /** The bytes of a sequence of packets, one packet after the other. */
  function Joined(packets: seq<seq<byte>>): seq<byte> {
    if packets == [] then [] else packets[0] + Joined(packets[1..])
  }
}
