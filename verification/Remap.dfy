/** The index remapping of AtomicQueue (queue-bench/atomic_queue.h:67-104, 378-401): for a ring whose size
    is a power of two, the position in a cache line and the low bits of the line change places. */
module Remap {
  import opened Bits

  /** remap_index<bits> on a 32-bit index; no bit is lost on the left for `bits` up to 8. */
  function Index(bits: nat, index: nat): nat {
    if bits == 0 then index
    else
      var mix := And(Xor(index, Shr(index, bits)), Pow2(bits) - 1);
      Xor(Xor(index, mix), Shl(mix, bits))
  }

  /** GetIndexShuffleBits; `bits` is the logarithm of the elements of a cache line. */
  function ShuffleBits(minimizeContention: bool, size: nat, bits: nat): nat {
    if minimizeContention && size >= Pow2(bits * 2) then bits else 0
  }

  /** `a` times 2^bits, plus `b`. */
  function Glue(a: nat, b: nat, bits: nat): nat { a * Pow2(bits) + b }

  /** The two groups of `bits` bits change places and the rest stays. */
  lemma Swaps(bits: nat, rest: nat, line: nat, offset: nat)
    requires line < Pow2(bits) && offset < Pow2(bits)
    ensures Index(bits, Glue(Glue(rest, line, bits), offset, bits)) == Glue(Glue(rest, offset, bits), line, bits)
  {
    if bits != 0 {
      var high := Glue(rest, line, bits);
      var index := Glue(high, offset, bits);
      ShrIsQuotient(high, offset, bits);
      XorSplit(high, offset, rest, line, bits);
      AndLow(Xor(index, high), Xor(high, rest), Xor(offset, line), bits);
      SwapLow(high, offset, line, bits);
      SwapHigh(rest, offset, line, bits);
    }
  }

  lemma XorSmall(a: nat, b: nat, bits: nat)
    requires a < Pow2(bits) && b < Pow2(bits)
    ensures Xor(a, b) < Pow2(bits)
  {
    XorSplit(0, a, 0, b, bits);
  }

  lemma XorLow(a: nat, b: nat, m: nat, bits: nat)
    requires b < Pow2(bits) && m < Pow2(bits)
    ensures Xor(Glue(a, b, bits), m) == Glue(a, Xor(b, m), bits)
  {
    XorSplit(a, b, 0, m, bits);
    XorZero(a);
    assert 0 * Pow2(bits) + m == m;
  }

  lemma XorHigh(a: nat, b: nat, m: nat, bits: nat)
    requires b < Pow2(bits)
    ensures Xor(Glue(a, b, bits), Shl(m, bits)) == Glue(Xor(a, m), b, bits)
  {
    XorSplit(a, b, m, 0, bits);
    XorZero(b);
  }

  lemma SwapLow(high: nat, offset: nat, line: nat, bits: nat)
    requires line < Pow2(bits) && offset < Pow2(bits)
    ensures Xor(Glue(high, offset, bits), Xor(offset, line)) == Glue(high, line, bits)
  {
    XorSmall(offset, line, bits);
    XorLow(high, offset, Xor(offset, line), bits);
    XorCancels(offset, line);
  }

  lemma SwapHigh(rest: nat, offset: nat, line: nat, bits: nat)
    requires line < Pow2(bits) && offset < Pow2(bits)
    ensures Xor(Glue(Glue(rest, line, bits), line, bits), Shl(Xor(offset, line), bits)) ==
            Glue(Glue(rest, offset, bits), line, bits)
  {
    XorSmall(offset, line, bits);
    XorHigh(Glue(rest, line, bits), line, Xor(offset, line), bits);
    XorLow(rest, line, Xor(offset, line), bits);
    XorCancels(offset, line);
  }

  lemma Parts(bits: nat, index: nat) returns (rest: nat, line: nat, offset: nat)
    ensures line < Pow2(bits) && offset < Pow2(bits)
    ensures index == Glue(Glue(rest, line, bits), offset, bits)
  {
    var high, o := Decompose(index, Pow2(bits));
    var r, l := Decompose(high, Pow2(bits));
    rest, line, offset := r, l, o;
  }

  /** Remapping twice gives the index back, so distinct indexes keep distinct cells. */
  lemma Involution(bits: nat, index: nat)
    ensures Index(bits, Index(bits, index)) == index
  {
    var rest, line, offset := Parts(bits, index);
    Swaps(bits, rest, line, offset);
    Swaps(bits, rest, offset, line);
  }

  lemma Injective(bits: nat, a: nat, b: nat)
    ensures Index(bits, a) == Index(bits, b) <==> a == b
  {
    Involution(bits, a);
    Involution(bits, b);
  }

  lemma GlueBelow(a: nat, b: nat, bits: nat, n: nat)
    requires b < Pow2(bits)
    ensures Glue(a, b, bits) < n * Pow2(bits) <==> a < n
  {
    MulBounds((n as int) - a, Pow2(bits));
    assert ((n as int) - a) * Pow2(bits) == n * Pow2(bits) - a * Pow2(bits);
  }

  /** With room for both groups the indexes below the size are permuted. */
  lemma Permutes(bits: nat, n: nat, index: nat)
    requires n >= 2 * bits
    ensures Index(bits, index) < Pow2(n) <==> index < Pow2(n)
  {
    var rest, line, offset := Parts(bits, index);
    Swaps(bits, rest, line, offset);
    Pow2Sum(n - bits, bits);
    Pow2Sum(n - bits - bits, bits);
    GlueBelow(rest, line, bits, Pow2(n - bits - bits));
    GlueBelow(rest, offset, bits, Pow2(n - bits - bits));
    GlueBelow(Glue(rest, line, bits), offset, bits, Pow2(n - bits));
    GlueBelow(Glue(rest, offset, bits), line, bits, Pow2(n - bits));
  }

  /** Without it some index leaves the ring: the bound in GetIndexShuffleBits is exact. */
  lemma StaysExactly(bits: nat, n: nat)
    requires bits > 0 && n > 0
    ensures (forall index: nat :: index < Pow2(n) ==> Index(bits, index) < Pow2(n)) <==> n >= 2 * bits
  {
    if n >= 2 * bits {
      forall index: nat | index < Pow2(n) ensures Index(bits, index) < Pow2(n) { Permutes(bits, n, index); }
    } else {
      var index := Leaves(bits, n);
    }
  }

  lemma Leaves(bits: nat, n: nat) returns (index: nat)
    requires bits > 0 && 0 < n < 2 * bits
    ensures index < Pow2(n) && Index(bits, index) >= Pow2(n)
  {
    var k := if n > bits then n - bits else 0;
    index := Pow2(k);
    Pow2Mono(k, n);
    Pow2Mono(k, bits);
    Swaps(bits, 0, 0, Pow2(k));
    Pow2Sum(k, bits);
    Pow2Le(n, k + bits);
  }

  // ---------------------------------------------------------------- the cell of a position

  /** A ring of any size without shuffling, or of a power of two with room for the shuffle. */
  ghost predicate Layout(size: nat, bits: nat) {
    size > 0 && (bits == 0 || exists n: nat :: n >= 2 * bits && size == Pow2(n))
  }

  lemma IndexBelow(size: nat, bits: nat, index: nat)
    requires Layout(size, bits) && index < size
    ensures Index(bits, index) < size
  {
    if bits != 0 {
      var n: nat :| n >= 2 * bits && size == Pow2(n);
      Permutes(bits, n, index);
    }
  }

  ghost function Cell(size: nat, bits: nat, position: nat): (c: nat)
    requires Layout(size, bits)
    ensures c < size
  {
    IndexBelow(size, bits, position % size);
    Index(bits, position % size)
  }

  /** Positions less than a ring apart have distinct cells. */
  lemma CellsApart(size: nat, bits: nat, a: nat, b: nat)
    requires Layout(size, bits) && a < b < a + size
    ensures Cell(size, bits, a) != Cell(size, bits, b)
  {
    SameRemainder(a, b, size);
    Injective(bits, a % size, b % size);
  }

  /** The layout that the templates choose: with `minimizeContention` the size is rounded up. */
  lemma ChosenLayout(minimizeContention: bool, wanted: nat, lineBits: nat)
    requires 0 < wanted <= Pow2(31)
    ensures var size := if minimizeContention then RoundUp(wanted) else wanted;
            size >= wanted && Layout(size, ShuffleBits(minimizeContention, size, lineBits))
  {
    if minimizeContention {
      RoundUpIsLeast(wanted, 0);
      var n := Length(wanted - 1);
      if n < lineBits * 2 { Pow2Mono(n, lineBits * 2); }
    }
  }
}
