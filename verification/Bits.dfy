/** Bitwise operations of unsigned words, as functions of natural numbers, and what the masks, shifts
    and bit tricks of the queues amount to in arithmetic. */
module Bits {

  function Pow2(k: nat): (r: nat)
    ensures r >= 1
  {
    if k == 0 then 1 else 2 * Pow2(k - 1)
  }

  function And(x: nat, y: nat): nat {
    if x == 0 then 0 else 2 * And(x / 2, y / 2) + (if x % 2 == 1 && y % 2 == 1 then 1 else 0)
  }

  function Or(x: nat, y: nat): nat
    decreases x + y
  {
    if x == 0 && y == 0 then 0
    else 2 * Or(x / 2, y / 2) + (if x % 2 == 1 || y % 2 == 1 then 1 else 0)
  }

  function Xor(x: nat, y: nat): nat
    decreases x + y
  {
    if x == 0 && y == 0 then 0 else 2 * Xor(x / 2, y / 2) + (if x % 2 == y % 2 then 0 else 1)
  }

  function Shr(x: nat, k: nat): nat
    decreases k
  {
    if k == 0 then x else Shr(x / 2, k - 1)
  }

  function Shl(x: nat, k: nat): nat { x * Pow2(k) }

  // ---------------------------------------------------------------- powers of two

  lemma {:induction false} Pow2Sum(a: nat, b: nat)
    ensures Pow2(a + b) == Pow2(a) * Pow2(b)
  {
    if a != 0 {
      Pow2Sum(a - 1, b);
      assert Pow2(a + b) == 2 * Pow2(a - 1 + b);
      MulAssoc(2, Pow2(a - 1), Pow2(b));
    }
  }

  lemma Pow2Values()
    ensures Pow2(8) == 0x100 && Pow2(16) == 0x1_0000 && Pow2(32) == 0x1_0000_0000
    ensures Pow2(64) == 0x1_0000_0000_0000_0000
  {
    assert Pow2(4) == 16;
    Pow2Sum(4, 4);
    Pow2Sum(8, 8);
    Pow2Sum(16, 16);
    Pow2Sum(32, 32);
  }

  lemma MulAssoc(a: int, b: int, c: int)
    ensures a * b * c == a * (b * c)
  {
  }

  lemma {:induction false} Pow2Mono(a: nat, b: nat)
    requires a < b
    ensures Pow2(a) < Pow2(b)
  {
    if a + 1 < b { Pow2Mono(a, b - 1); }
  }

  lemma Pow2Le(a: nat, b: nat)
    ensures a <= b ==> Pow2(a) <= Pow2(b)
  {
    if a < b { Pow2Mono(a, b); }
  }

  lemma MulBounds(d: int, m: nat)
    ensures d >= 1 ==> d * m >= m
    ensures d <= -1 ==> d * m <= -(m as int)
    ensures d == 0 ==> d * m == 0
  {
    if d >= 1 { assert (d - 1) * m >= 0; }
    if d <= -1 { assert (-d - 1) * m >= 0; }
  }

  /** Quotient and remainder are determined by their equation. */
  lemma DivModUnique(q: nat, r: nat, m: nat)
    requires r < m
    ensures (q * m + r) / m == q && (q * m + r) % m == r
  {
    var x := q * m + r;
    var d := x / m - q;
    assert x == (x / m) * m + x % m;
    assert d * m == (x / m) * m - q * m;
    MulBounds(d, m);
  }

  /** Numbers less than `m` apart have different remainders. */
  lemma SameRemainder(a: nat, b: nat, m: nat)
    requires a <= b < a + m
    ensures a % m == b % m <==> a == b
  {
    var qa, ra := Decompose(a, m);
    var qb, rb := Decompose(b, m);
    if ra == rb {
      assert (qb - qa) * m == b - a;
      MulBounds(qb - qa, m);
    }
  }

  // ---------------------------------------------------------------- splitting words

  lemma HalveShift(a: nat, b: nat, k: nat)
    requires k > 0 && b < Pow2(k)
    ensures (a * Pow2(k) + b) / 2 == a * Pow2(k - 1) + b / 2
    ensures (a * Pow2(k) + b) % 2 == b % 2
    ensures b / 2 < Pow2(k - 1)
  {
    assert a * Pow2(k) == 2 * (a * Pow2(k - 1)) by { MulAssoc(2, a, Pow2(k - 1)); MulAssoc(a, 2, Pow2(k - 1)); }
  }

  lemma {:induction false} AndSplit(a: nat, b: nat, c: nat, d: nat, k: nat)
    requires b < Pow2(k) && d < Pow2(k)
    ensures And(a * Pow2(k) + b, c * Pow2(k) + d) == And(a, c) * Pow2(k) + And(b, d)
    ensures And(b, d) < Pow2(k)
  {
    if k != 0 {
      HalveShift(a, b, k);
      HalveShift(c, d, k);
      AndSplit(a, b / 2, c, d / 2, k - 1);
      assert And(a, c) * Pow2(k) == 2 * (And(a, c) * Pow2(k - 1)) by {
        MulAssoc(2, And(a, c), Pow2(k - 1));
        MulAssoc(And(a, c), 2, Pow2(k - 1));
      }
    }
  }

  lemma {:induction false} XorSplit(a: nat, b: nat, c: nat, d: nat, k: nat)
    requires b < Pow2(k) && d < Pow2(k)
    ensures Xor(a * Pow2(k) + b, c * Pow2(k) + d) == Xor(a, c) * Pow2(k) + Xor(b, d)
    ensures Xor(b, d) < Pow2(k)
  {
    if k != 0 {
      HalveShift(a, b, k);
      HalveShift(c, d, k);
      XorSplit(a, b / 2, c, d / 2, k - 1);
      assert Xor(a, c) * Pow2(k) == 2 * (Xor(a, c) * Pow2(k - 1)) by {
        MulAssoc(2, Xor(a, c), Pow2(k - 1));
        MulAssoc(Xor(a, c), 2, Pow2(k - 1));
      }
    }
  }

  lemma {:induction false} XorZero(x: nat)
    ensures Xor(x, 0) == x && Xor(0, x) == x
  {
    if x != 0 { XorZero(x / 2); }
  }

  lemma {:induction false} XorCancels(x: nat, y: nat)
    ensures Xor(x, Xor(x, y)) == y && Xor(y, Xor(x, y)) == x
    decreases x + y
  {
    if x != 0 || y != 0 { XorCancels(x / 2, y / 2); }
  }

  // ---------------------------------------------------------------- masks

  lemma {:induction false} AndFull(x: nat, k: nat)
    requires x < Pow2(k)
    ensures And(x, Pow2(k) - 1) == x
  {
    if k != 0 {
      AndFull(x / 2, k - 1);
      assert (Pow2(k) - 1) / 2 == Pow2(k - 1) - 1;
    }
  }

  lemma Decompose(x: nat, m: nat) returns (q: nat, r: nat)
    requires m > 0
    ensures x == q * m + r && r < m
    ensures q == x / m && r == x % m
  {
    q, r := x / m, x % m;
  }

  /** `x & (2^k - 1)` is the remainder. */
  lemma AndOnes(x: nat, k: nat)
    ensures And(x, Pow2(k) - 1) == x % Pow2(k)
  {
    var q, r := Decompose(x, Pow2(k));
    AndLow(x, q, r, k);
  }

  lemma AndLow(x: nat, q: nat, r: nat, k: nat)
    requires r < Pow2(k) && x == q * Pow2(k) + r
    ensures And(x, Pow2(k) - 1) == r
  {
    AndZero(q);
    AndFull(r, k);
    AndSplit(q, r, 0, Pow2(k) - 1, k);
    NoMultiple(Pow2(k), Pow2(k) - 1);
    NoMultiple(Pow2(k), r);
  }

  lemma NoMultiple(m: nat, r: int)
    ensures 0 * m + r == r
  {
  }

  lemma {:induction false} AndZero(x: nat)
    ensures And(x, 0) == 0
  {
    if x != 0 { AndZero(x / 2); }
  }

  /** `x & ~(2^k - 1)` on words of `w` bits clears the low `k` bits. */
  lemma AndClears(x: nat, k: nat, w: nat)
    requires k <= w && x < Pow2(w)
    ensures Pow2(w) >= Pow2(k) && And(x, Pow2(w) - Pow2(k)) == x - x % Pow2(k)
  {
    var q, r := Decompose(x, Pow2(k));
    Pow2Sum(w - k, k);
    AndHigh(x, q, r, k, Pow2(w), w - k);
  }

  lemma AndHigh(x: nat, q: nat, r: nat, k: nat, all: nat, high: nat)
    requires r < Pow2(k) && x == q * Pow2(k) + r && x < all == Pow2(high) * Pow2(k)
    ensures all >= Pow2(k) && And(x, all - Pow2(k)) == x - r
  {
    var n := Pow2(high);
    MulBounds(n, Pow2(k));
    MulPred(n, Pow2(k));
    QuotientBelow(q, r, n, Pow2(k));
    AndHighPart(q, r, k, high);
  }

  lemma AndHighPart(q: nat, r: nat, k: nat, high: nat)
    requires r < Pow2(k) && q < Pow2(high)
    ensures And(q * Pow2(k) + r, (Pow2(high) - 1) * Pow2(k)) == q * Pow2(k)
  {
    AndSplit(q, r, Pow2(high) - 1, 0, k);
    AndFull(q, high);
    AndZero(r);
  }

  lemma MulPred(n: nat, m: nat)
    ensures n * m - m == (n - 1) * m
  {
  }

  lemma QuotientBelow(q: nat, r: nat, n: nat, m: nat)
    requires q * m + r < n * m
    ensures q < n
  {
    MulBounds(n - q, m);
  }

  lemma {:induction false} ShrIsQuotient(q: nat, r: nat, k: nat)
    requires r < Pow2(k)
    ensures Shr(q * Pow2(k) + r, k) == q
    decreases k
  {
    if k != 0 {
      HalveShift(q, r, k);
      ShrIsQuotient(q, r / 2, k - 1);
    }
  }

  // ---------------------------------------------------------------- the next power of two

  function Bit(x: nat, i: nat): bool { Shr(x, i) % 2 == 1 }

  /** `x | x >> u` */
  function OrEqual(x: nat, u: nat): nat { Or(x, Shr(x, u)) }

  /** The ladder of conqueue.h:294-299 and atomic_queue.h:133-135: x |= x >> 1, 2, 4, 8, 16. */
  function Smear(x: nat): nat {
    OrEqual(OrEqual(OrEqual(OrEqual(OrEqual(x, 1), 2), 4), 8), 16)
  }

  /** round_up_to_power_of_2 of a 32-bit word. */
  function RoundUp(size: nat): nat
    requires size > 0
  {
    Smear(size - 1) + 1
  }

  lemma {:induction false} OrBit(x: nat, y: nat, i: nat)
    ensures Bit(Or(x, y), i) <==> Bit(x, i) || Bit(y, i)
  {
    if i == 0 {
    } else {
      BitHalf(Or(x, y), i);
      BitHalf(x, i);
      BitHalf(y, i);
      OrBit(x / 2, y / 2, i - 1);
    }
  }

  lemma BitHalf(x: nat, i: nat)
    requires i > 0
    ensures Bit(x, i) == Bit(x / 2, i - 1)
  {
  }

  lemma {:induction false} BitShr(x: nat, u: nat, i: nat)
    ensures Bit(Shr(x, u), i) == Bit(x, i + u)
    decreases u
  {
    if u != 0 { BitShr(x / 2, u - 1, i); }
  }

  /** Some of the `w` bits of `x` from `i` on is set. */
  ghost predicate AnyBit(x: nat, i: nat, w: nat) { exists j: nat :: i <= j < i + w && Bit(x, j) }

  /** Bit i of `y` is the disjunction of the `w` bits of `x` from i on. */
  ghost predicate Window(x: nat, y: nat, w: nat) { forall i: nat :: Bit(y, i) <==> AnyBit(x, i, w) }

  lemma AnyOfTwice(x: nat, i: nat, w: nat)
    ensures AnyBit(x, i, w + w) <==> AnyBit(x, i, w) || AnyBit(x, i + w, w)
  {
  }

  lemma WindowDoubles(x: nat, y: nat, w: nat)
    requires Window(x, y, w)
    ensures Window(x, OrEqual(y, w), w + w)
  {
    forall i: nat ensures Bit(OrEqual(y, w), i) <==> AnyBit(x, i, w + w) {
      OrBit(y, Shr(y, w), i);
      BitShr(y, w, i);
      AnyOfTwice(x, i, w);
      assert Bit(y, i + w) <==> AnyBit(x, i + w, w);
    }
  }

  lemma BitZero(x: nat)
    ensures Bit(x, 0) <==> x % 2 == 1
  {
  }

  lemma {:induction false} NoBits(x: nat, k: nat)
    requires forall i: nat :: i >= k ==> !Bit(x, i)
    ensures x < Pow2(k)
    decreases x
  {
    if k == 0 {
      if x != 0 {
        forall i: nat ensures !Bit(x / 2, i) { BitHalf(x, i + 1); }
        NoBits(x / 2, 0);
        BitZero(x);
      }
    } else if x != 0 {
      forall i: nat | i >= k - 1 ensures !Bit(x / 2, i) { BitHalf(x, i + 1); }
      NoBits(x / 2, k - 1);
    }
  }

  lemma {:induction false} HighBitsZero(x: nat, k: nat, i: nat)
    requires x < Pow2(k) && i >= k
    ensures !Bit(x, i)
  {
    if i != 0 { HighBitsZero(x / 2, if k == 0 then 0 else k - 1, i - 1); }
  }

  lemma {:induction false} OnesBit(k: nat, i: nat)
    ensures Bit(Pow2(k) - 1, i) <==> i < k
  {
    if i != 0 {
      BitHalf(Pow2(k) - 1, i);
      if k == 0 {
        HighBitsZero(0, 0, i);
      } else {
        OnesBit(k - 1, i - 1);
        assert (Pow2(k) - 1) / 2 == Pow2(k - 1) - 1;
      }
    }
  }

  lemma {:induction false} BitsDetermine(x: nat, y: nat)
    requires forall i: nat :: Bit(x, i) == Bit(y, i)
    ensures x == y
    decreases x + y
  {
    if x != 0 || y != 0 {
      assert Bit(x, 0) == Bit(y, 0);
      forall i: nat ensures Bit(x / 2, i) == Bit(y / 2, i) { BitHalf(x, i + 1); BitHalf(y, i + 1); }
      BitsDetermine(x / 2, y / 2);
    }
  }

  /** The exponent of the least power of two above `x`. */
  ghost function Length(x: nat): (k: nat)
    ensures x < Pow2(k) && (k > 0 ==> Pow2(k - 1) <= x)
  {
    if x == 0 then 0 else Length(x / 2) + 1
  }

  lemma SmearWindow(x: nat)
    ensures Window(x, Smear(x), 32)
  {
    forall i: nat ensures Bit(x, i) <==> AnyBit(x, i, 1) {}
    WindowDoubles(x, x, 1);
    var a := OrEqual(x, 1);
    WindowDoubles(x, a, 2);
    var b := OrEqual(a, 2);
    WindowDoubles(x, b, 4);
    var c := OrEqual(b, 4);
    WindowDoubles(x, c, 8);
    WindowDoubles(x, OrEqual(c, 8), 16);
  }

  /** A word of `w` bits has a bit at or above `i` exactly when it is at least 2^i. */
  lemma BitAbove(x: nat, i: nat, w: nat)
    requires x < Pow2(w)
    ensures AnyBit(x, i, w) <==> i < Length(x)
  {
    var k := Length(x);
    if i < k {
      var j := SomeBit(x, i);
      if j >= w { HighBitsZero(x, w, j); }
    } else {
      forall j: nat | j >= i ensures !Bit(x, j) { HighBitsZero(x, k, j); }
    }
  }

  lemma SomeBit(x: nat, i: nat) returns (j: nat)
    requires i < Length(x)
    ensures j >= i && Bit(x, j)
  {
    var k := Length(x);
    if i < k - 1 { Pow2Mono(i, k - 1); }
    if forall j: nat :: j >= i ==> !Bit(x, j) { NoBits(x, i); }
    j :| j >= i && Bit(x, j);
  }

  lemma WindowBit(x: nat, y: nat, w: nat, i: nat)
    requires x < Pow2(w) && Window(x, y, w)
    ensures Bit(y, i) == Bit(Pow2(Length(x)) - 1, i)
  {
    assert Bit(y, i) <==> AnyBit(x, i, w);
    OnesBit(Length(x), i);
    BitAbove(x, i, w);
  }

  lemma WindowIsOnes(x: nat, y: nat, w: nat)
    requires x < Pow2(w) && Window(x, y, w)
    ensures y == Pow2(Length(x)) - 1
  {
    forall i: nat ensures Bit(y, i) == Bit(Pow2(Length(x)) - 1, i) { WindowBit(x, y, w, i); }
    BitsDetermine(y, Pow2(Length(x)) - 1);
  }

  /** round_up_to_power_of_2 and aligned_size return the least power of two that is not below the
      size, for every 32-bit size that has one. */
  lemma RoundUpIsLeast(size: nat, j: nat)
    requires 0 < size <= Pow2(31)
    ensures Length(size - 1) <= 31 && RoundUp(size) == Pow2(Length(size - 1))
    ensures size <= RoundUp(size)
    ensures size <= Pow2(j) ==> RoundUp(size) <= Pow2(j)
  {
    RoundUpOf(size - 1, 31, j);
  }

  lemma RoundUpOf(x: nat, w: nat, j: nat)
    requires x < Pow2(w) && w <= 31
    ensures Length(x) <= w && RoundUp(x + 1) == Pow2(Length(x)) > x
    ensures x + 1 <= Pow2(j) ==> Pow2(Length(x)) <= Pow2(j)
  {
    LengthBounded(x, w);
    Pow2Le(w, 31);
    SmearUp(x);
    if x + 1 <= Pow2(j) { LeastAbove(x + 1, Length(x), j); }
  }

  lemma SmearUp(x: nat)
    requires x < Pow2(31)
    ensures Smear(x) + 1 == Pow2(Length(x))
  {
    Pow2Mono(31, 32);
    SmearWindow(x);
    WindowIsOnes(x, Smear(x), 32);
  }

  lemma LengthBounded(x: nat, k: nat)
    requires x < Pow2(k)
    ensures Length(x) <= k
  {
    if Length(x) > 0 { Pow2Le(k, Length(x) - 1); }
  }

  lemma LeastAbove(size: nat, k: nat, j: nat)
    requires k > 0 ==> Pow2(k - 1) < size
    requires size <= Pow2(j)
    ensures Pow2(k) <= Pow2(j)
  {
    if j < k - 1 { Pow2Mono(j, k - 1); }
    if k < j { Pow2Mono(k, j); }
  }
}
