/** The growing circular block index of ImplicitProducer (queue-bench/moodycamel.h:2785-2908) as a value:
    what its entries hold, and what inserting, rewinding, releasing, growing and looking up do to them.
    Entries are shared between an index and its larger successor and are named by numbers here.  Block
    bases are 64-bit words; blocks are numbered without bound in the specification. */
module BlockIndex {
  import opened Options
  import opened Bits
  import opened Word64

  type Block = nat

  const INVALID_BLOCK_BASE: nat := 1

  lemma Range(bits: nat)
    requires bits <= 64
    ensures Pow2(64 - bits) * Pow2(bits) == WORD
  {
    Pow2Values();
    Pow2Sum(64 - bits, bits);
  }

  lemma BelowHalf(bits: nat)
    requires bits <= 63
    ensures Pow2(bits) <= HALF
  {
    Pow2Values();
    Pow2Le(bits, 63);
  }

  /** `x & ~(2^bits - 1)` on a 64-bit word */
  lemma ClearLow(x: nat, bits: nat)
    requires x < WORD && bits <= 64
    ensures Pow2(bits) <= WORD && And(x, WORD - Pow2(bits)) == x - x % Pow2(bits)
  {
    Pow2Values();
    AndClears(x, bits, 64);
  }

  /** The base index of block `b`, as a word. */
  function Base(blockBits: nat, b: int): nat { Word(b * Pow2(blockBits)) }

  // ---------------------------------------------------------------- slots of a circular buffer

  /** `k` slots back from `slot`. */
  function Back(slot: nat, capacity: nat, k: nat): (r: nat)
    requires slot < capacity && k <= capacity
    ensures r < capacity
  {
    if k <= slot then slot - k else slot + capacity - k
  }

  function Forth(slot: nat, capacity: nat): (r: nat)
    requires slot < capacity
    ensures r < capacity
  {
    if slot + 1 == capacity then 0 else slot + 1
  }

  /** `(slot + 1) & (capacity - 1)` */
  lemma MaskForth(slot: nat, log: nat)
    requires slot < Pow2(log)
    ensures And(slot + 1, Pow2(log) - 1) == Forth(slot, Pow2(log))
  {
    AndOnes(slot + 1, log);
    if slot + 1 == Pow2(log) { DivModUnique(1, 0, Pow2(log)); } else { DivModUnique(0, slot + 1, Pow2(log)); }
  }

  lemma WordBefore(slot: nat)
    requires slot <= WORD
    ensures Word(slot - 1) == if slot == 0 then WORD - 1 else slot - 1
  {
  }

  lemma WordSame(x: nat)
    requires x < WORD
    ensures Word(x) == x
  {
  }

  lemma Remainder(x: nat, m: nat)
    requires x < m
    ensures x % m == x
  {
    DivModUnique(0, x, m);
  }

  /** `(slot - 1) & (capacity - 1)`, with the wrap of a 64-bit word */
  lemma MaskBack(slot: nat, log: nat)
    requires slot < Pow2(log) && log <= 64
    ensures And(Word(slot - 1), Pow2(log) - 1) == Back(slot, Pow2(log), 1)
  {
    var w := Word(slot - 1);
    AndOnes(w, log);
    Range(log);
    MulBounds(Pow2(64 - log), Pow2(log));
    WordBefore(slot);
    if slot > 0 { Remainder(w, Pow2(log)); } else { MaskOfOnes(Pow2(64 - log), Pow2(log)); }
  }

  lemma MaskOfOnes(n: nat, m: nat)
    requires n * m == WORD
    ensures (WORD - 1) % m == m - 1
  {
    MulPred(n, m);
    DivModUnique(n - 1, m - 1, m);
  }

  // ---------------------------------------------------------------- what the entries hold

  ghost function Held(live: map<int, Block>, b: int): Option<Block> {
    if b in live then Some(live[b]) else None
  }

  /** The entry for block `b`: from block `lo` on it has the base of its block as key, and the block as
      value unless the block is `skip`, just inserted; before that it is free. */
  ghost predicate EntryOk(blockBits: nat, key: nat, value: Option<Block>, b: int, lo: int, live: map<int, Block>, skip: int) {
    if b >= lo then key == Base(blockBits, b) && (b != skip ==> value == Held(live, b))
    else key == INVALID_BLOCK_BASE || value == None
  }

  /** The index as values: `slots` are the entries by slot. */
  datatype Index = Index(keys: seq<nat>, values: seq<Option<Block>>, slots: seq<nat>)

  ghost predicate Shaped(x: Index) {
    && |x.slots| > 0 && |x.keys| == |x.values|
    && (forall i :: 0 <= i < |x.slots| ==> x.slots[i] < |x.keys|)
    && (forall i, j :: 0 <= i < j < |x.slots| ==> x.slots[i] != x.slots[j])
  }

  /** The entry `k` slots back from `slot`, which has block `top - 1`. */
  ghost predicate BackOk(x: Index, blockBits: nat, slot: nat, k: nat, top: int, lo: int, live: map<int, Block>, skip: int)
    requires Shaped(x) && slot < |x.slots|
  {
    k < |x.slots| ==>
      var e := x.slots[Back(slot, |x.slots|, k)];
      EntryOk(blockBits, x.keys[e], x.values[e], top - 1 - k, lo, live, skip)
  }

  /** Going back from `slot` the entries are for the blocks before `top`; all live blocks are among
      those with true keys. */
  ghost predicate Table(x: Index, blockBits: nat, slot: nat, top: int, lo: int, live: map<int, Block>, skip: int) {
    && Shaped(x) && slot < |x.slots| && top - |x.slots| <= lo <= top
    && (forall k: nat {:trigger BackOk(x, blockBits, slot, k, top, lo, live, skip)} ::
          BackOk(x, blockBits, slot, k, top, lo, live, skip))
    && (forall b :: b in live ==> lo <= b < top && b != skip)
  }

  lemma BaseIsValid(blockBits: nat, b: int)
    requires 0 < blockBits
    ensures Base(blockBits, b) != INVALID_BLOCK_BASE
  {
    var n := b * Pow2(blockBits - 1);
    assert b * Pow2(blockBits) == 2 * n by { MulAssoc(2, b, Pow2(blockBits - 1)); MulAssoc(b, 2, Pow2(blockBits - 1)); }
    EvenWord(n);
  }

  lemma EvenWord(n: int)
    ensures Word(2 * n) != 1
  {
  }

  // ---------------------------------------------------------------- inserting, rewinding, growing

  function SetKey(x: Index, e: nat, key: nat): Index
    requires e < |x.keys|
  {
    x.(keys := x.keys[e := key])
  }

  function SetValue(x: Index, e: nat, value: Option<Block>): Index
    requires e < |x.values|
  {
    x.(values := x.values[e := value])
  }

  function Max(a: int, b: int): int { if a > b then a else b }

  function Min(a: int, b: int): int { if a < b then a else b }

  lemma BackForth(slot: nat, capacity: nat, k: nat)
    requires slot < capacity && k < capacity
    ensures Back(Forth(slot, capacity), capacity, k) == if k == 0 then Forth(slot, capacity) else Back(slot, capacity, k - 1)
    ensures Back(slot, capacity, capacity - 1) == Forth(slot, capacity)
  {
  }

  lemma BackDistinct(slot: nat, capacity: nat, j: nat, k: nat)
    requires slot < capacity && j < capacity && k < capacity
    ensures Back(slot, capacity, j) == Back(slot, capacity, k) <==> j == k
  {
  }

  /** A free entry after the last one is taken for the next block. */
  lemma InsertKeeps(x: Index, blockBits: nat, slot: nat, top: int, lo: int, live: map<int, Block>)
    requires blockBits > 0 && Table(x, blockBits, slot, top, lo, live, top)
    requires var e := x.slots[Forth(slot, |x.slots|)]; x.keys[e] == INVALID_BLOCK_BASE || x.values[e] == None
    ensures var slot' := Forth(slot, |x.slots|);
            Table(SetKey(x, x.slots[slot'], Base(blockBits, top)), blockBits, slot', top + 1,
                  Max(lo, top + 1 - |x.slots|), live, top)
  {
    var n := |x.slots|;
    var slot' := Forth(slot, n);
    var e := x.slots[slot'];
    var r := SetKey(x, e, Base(blockBits, top));
    var lo' := Max(lo, top + 1 - n);
    BackForth(slot, n, n - 1);
    assert BackOk(x, blockBits, slot, n - 1, top, lo, live, top);
    BaseIsValid(blockBits, top - n);
    assert top - n !in live;
    var top' := top + 1;
    forall k: nat ensures BackOk(r, blockBits, slot', k, top', lo', live, top) {
      if k < n {
        BackForth(slot, n, k);
        if k > 0 {
          assert BackOk(x, blockBits, slot, k - 1, top, lo, live, top);
          BackDistinct(slot, n, k - 1, n - 1);
        }
      }
    }
  }

  /** The block just inserted gets its value. */
  lemma ValueKeeps(x: Index, blockBits: nat, slot: nat, top: int, lo: int, live: map<int, Block>, value: Option<Block>)
    requires Table(x, blockBits, slot, top, lo, live, top - 1) && lo < top
    ensures var live' := if value.Some? then live[top - 1 := value.value] else live;
            Table(SetValue(x, x.slots[slot], value), blockBits, slot, top, lo, live', top)
  {
    var live' := if value.Some? then live[top - 1 := value.value] else live;
    var r := SetValue(x, x.slots[slot], value);
    forall k: nat ensures BackOk(r, blockBits, slot, k, top, lo, live', top) {
      assert BackOk(x, blockBits, slot, k, top, lo, live, top - 1);
    }
  }

  /** A value is removed, wherever its block is. */
  lemma RemoveKeeps(x: Index, blockBits: nat, slot: nat, top: int, lo: int, live: map<int, Block>, skip: int, k: nat)
    requires Table(x, blockBits, slot, top, lo, live, skip) && k < |x.slots| && top - 1 - k >= lo
    ensures Table(SetValue(x, x.slots[Back(slot, |x.slots|, k)], None), blockBits, slot, top, lo,
                  live - {top - 1 - k}, skip)
  {
    var n := |x.slots|;
    var r := SetValue(x, x.slots[Back(slot, n, k)], None);
    var live' := live - {top - 1 - k};
    forall j: nat ensures BackOk(r, blockBits, slot, j, top, lo, live', skip) {
      assert BackOk(x, blockBits, slot, j, top, lo, live, skip);
      if j < n { BackDistinct(slot, n, j, k); }
    }
  }

  /** Without its block the last entry no longer counts. */
  lemma ShrinkKeeps(x: Index, blockBits: nat, slot: nat, top: int, lo: int, live: map<int, Block>)
    requires Table(x, blockBits, slot, top, lo, live, top) && top - 1 !in live
    ensures Table(x, blockBits, Back(slot, |x.slots|, 1), top - 1, Min(lo, top - 1), live, top - 1)
  {
    var n := |x.slots|;
    var slot' := Back(slot, n, 1);
    var top', lo' := top - 1, Min(lo, top - 1);
    forall k: nat ensures BackOk(x, blockBits, slot', k, top', lo', live, top') {
      if k < n {
        assert BackOk(x, blockBits, slot, 0, top, lo, live, top);
        if k + 1 < n { assert BackOk(x, blockBits, slot, k + 1, top, lo, live, top); }
      }
    }
  }

  /** An insertion without a block is undone. */
  lemma WithdrawKeeps(x: Index, blockBits: nat, slot: nat, top: int, lo: int, live: map<int, Block>)
    requires Table(x, blockBits, slot, top, lo, live, top - 1) && lo < top
    ensures Table(SetValue(x, x.slots[slot], None), blockBits, Back(slot, |x.slots|, 1), top - 1, Min(lo, top - 1), live, top - 1)
  {
    ValueKeeps(x, blockBits, slot, top, lo, live, None);
    ShrinkKeeps(SetValue(x, x.slots[slot], None), blockBits, slot, top, lo, live);
  }

  /** The slots of the larger index: those of `x` from the oldest to the last, then new entries. */
  ghost predicate Grown(x: Index, slot: nat, r: Index)
    requires Shaped(x) && slot < |x.slots|
  {
    var n := |x.slots|;
    && |r.slots| == 2 * n && |r.keys| == |r.values| == |x.keys| + n
    && (forall i :: 0 <= i < |x.keys| ==> r.keys[i] == x.keys[i] && r.values[i] == x.values[i])
    && (forall i :: |x.keys| <= i < |r.keys| ==> r.keys[i] == INVALID_BLOCK_BASE)
    && (forall i :: 0 <= i < n ==> r.slots[i] == x.slots[Back(slot, n, n - 1 - i)])
    && (forall i :: n <= i < 2 * n ==> r.slots[i] == |x.keys| + i - n)
  }

  lemma GrowShaped(x: Index, slot: nat, r: Index)
    requires Shaped(x) && slot < |x.slots| && Grown(x, slot, r)
    ensures Shaped(r)
  {
    var n := |x.slots|;
    forall i, j | 0 <= i < j < 2 * n ensures r.slots[i] != r.slots[j] {
      if j < n { BackDistinct(slot, n, n - 1 - i, n - 1 - j); }
    }
  }

  lemma GrowKeeps(x: Index, blockBits: nat, slot: nat, top: int, lo: int, live: map<int, Block>, r: Index)
    requires Table(x, blockBits, slot, top, lo, live, top) && Grown(x, slot, r)
    ensures Table(r, blockBits, |x.slots| - 1, top, lo, live, top)
  {
    var n := |x.slots|;
    var last := n - 1;
    GrowShaped(x, slot, r);
    forall k: nat ensures BackOk(r, blockBits, last, k, top, lo, live, top) {
      if k < n {
        assert BackOk(x, blockBits, slot, k, top, lo, live, top);
        assert Back(last, 2 * n, k) == n - 1 - k;
      }
    }
  }

  // ---------------------------------------------------------------- looking up

  /** What get_block_index_index_for_index computes from two bases.  The division is unsigned: the block
      size is a `size_t`, so the signed difference is converted back. */
  function LookupSlot(blockBits: nat, log: nat, tail: nat, base: nat, tailBase: nat): nat {
    And(Word(tail + Offset(blockBits, base, tailBase)), Pow2(log) - 1)
  }

  function Quotient(x: nat, m: nat): nat
    requires m > 0
  {
    x / m
  }

  function Offset(blockBits: nat, base: nat, tailBase: nat): nat { Quotient(Word(base - tailBase), Pow2(blockBits)) }

  lemma BaseDifference(blockBits: nat, b: int, t: int)
    ensures Word(Base(blockBits, b) - Base(blockBits, t)) == Word((b - t) * Pow2(blockBits))
  {
    WordOfDifference(b * Pow2(blockBits), t * Pow2(blockBits));
    Distribute(b, t, Pow2(blockBits));
  }

  lemma Distribute(b: int, t: int, size: int)
    ensures b * size - t * size == (b - t) * size
  {
  }

  /** The quotient of the difference of the bases of two blocks less than an index apart. */
  lemma OffsetMeans(d: int, size: nat, all: nat)
    requires -(all as int) < d < all && all * size == WORD && size > 0
    ensures Quotient(Word(d * size), size) == if d >= 0 then d else all + d
  {
    if d >= 0 { WordOfMultiple(d, size, all); } else { WordOfNegative(d, size, all); }
  }

  lemma WordOfMultiple(d: nat, size: nat, all: nat)
    requires d < all && all * size == WORD && size > 0
    ensures Quotient(Word(d * size), size) == d
  {
    MulBounds(all - d, size);
    assert (all - d) * size == all * size - d * size;
    DivModUnique(d, 0, size);
  }

  lemma WordOfNegative(d: int, size: nat, all: nat)
    requires -(all as int) < d < 0 && all * size == WORD && size > 0
    ensures Quotient(Word(d * size), size) == all + d
  {
    MulBounds(d, size);
    MulBounds(all + d, size);
    assert (all + d) * size == all * size + d * size;
    DivModUnique(all + d, 0, size);
  }

  lemma SlotOfSum(x: nat, tail: nat, n: nat, d: int, turns: nat)
    requires tail < n && -(n as int) < d < n && x == tail + d + turns * n
    ensures x % n == if d <= 0 then Back(tail, n, -d) else Back(tail, n, n - d)
  {
    if tail + d < 0 {
      assert (turns - 1) * n == turns * n - n;
      MulBounds(turns, n);
      DivModUnique(turns - 1, tail + d + n, n);
    } else if tail + d >= n {
      assert (turns + 1) * n == turns * n + n;
      DivModUnique(turns + 1, tail + d - n, n);
    } else {
      DivModUnique(turns, tail + d, n);
    }
  }

  lemma MaskOfSum(x: nat, log: nat)
    requires x < WORD
    ensures And(Word(x), Pow2(log) - 1) == x % Pow2(log)
  {
    WordSame(x);
    AndOnes(x, log);
  }

  lemma SumBelow(tail: nat, offset: nat, log: nat)
    requires log <= 63 && tail < Pow2(log) && offset < HALF
    ensures tail + offset < WORD
  {
    BelowHalf(log);
  }

  lemma MaskedSum(tail: nat, offset: nat, log: nat, d: int, turns: nat)
    requires log <= 63 && tail < Pow2(log) && offset < HALF && -(Pow2(log) as int) < d < Pow2(log)
    requires offset == d + turns * Pow2(log)
    ensures And(Word(tail + offset), Pow2(log) - 1) ==
            if d <= 0 then Back(tail, Pow2(log), -d) else Back(tail, Pow2(log), Pow2(log) - d)
  {
    SumBelow(tail, offset, log);
    MaskOfSum(tail + offset, log);
    SlotOfSum(tail + offset, tail, Pow2(log), d, turns);
  }

  lemma LookupOffset(blockBits: nat, log: nat, b: int, t: int)
    requires blockBits > 0 && blockBits + log <= 64 && -(Pow2(log) as int) < b - t < Pow2(log)
    ensures var offset := Offset(blockBits, Base(blockBits, b), Base(blockBits, t));
            offset == (if b >= t then b - t else b - t + Pow2(64 - blockBits - log) * Pow2(log)) && offset < HALF
  {
    var all := Pow2(64 - blockBits);
    BaseDifference(blockBits, b, t);
    RangeParts(blockBits, log);
    OffsetMeans(b - t, Pow2(blockBits), all);
  }

  lemma RangeParts(blockBits: nat, log: nat)
    requires blockBits > 0 && blockBits + log <= 64
    ensures Pow2(64 - blockBits) * Pow2(blockBits) == WORD
    ensures Pow2(64 - blockBits) == Pow2(64 - blockBits - log) * Pow2(log)
    ensures Pow2(log) <= Pow2(64 - blockBits) <= HALF
  {
    Range(blockBits);
    Pow2Sum(64 - blockBits - log, log);
    Pow2Le(log, 64 - blockBits);
    BelowHalf(64 - blockBits);
  }

  /** The slot found is as many slots from the tail as the blocks are apart, backwards or forwards, as
      long as an index of blocks does not exceed the range of the words. */
  lemma LookupFinds(blockBits: nat, log: nat, tail: nat, b: int, t: int)
    requires blockBits > 0 && blockBits + log <= 64
    requires tail < Pow2(log) && -(Pow2(log) as int) < b - t < Pow2(log)
    ensures LookupSlot(blockBits, log, tail, Base(blockBits, b), Base(blockBits, t)) ==
            if b <= t then Back(tail, Pow2(log), t - b) else Back(tail, Pow2(log), Pow2(log) - (b - t))
  {
    LookupOffset(blockBits, log, b, t);
    MaskedSum(tail, Offset(blockBits, Base(blockBits, b), Base(blockBits, t)), log, b - t,
              if b >= t then 0 else Pow2(64 - blockBits - log));
  }

  /** Beyond that range the neighbour of the tail's block is not found behind it: the bound is exact. */
  lemma LookupBound(blockBits: nat, log: nat, tail: nat, t: int)
    requires 0 < blockBits <= 64 && log <= 63 && tail < Pow2(log)
    ensures LookupSlot(blockBits, log, tail, Base(blockBits, t - 1), Base(blockBits, t)) == Back(tail, Pow2(log), 1) <==>
            blockBits + log <= 64
  {
    if blockBits + log > 64 {
      OffsetBeyond(blockBits, log, t);
      SumBelow(tail, Pow2(64 - blockBits) - 1, log);
      MaskOfSum(tail + (Pow2(64 - blockBits) - 1), log);
      NotBack(tail, Pow2(log), Pow2(64 - blockBits));
    } else if log > 0 {
      Pow2Mono(0, log);
      LookupFinds(blockBits, log, tail, t - 1, t);
    } else {
      LookupOfOne(blockBits, tail, t);
    }
  }

  lemma OffsetBeyond(blockBits: nat, log: nat, t: int)
    requires 0 < blockBits <= 64 < blockBits + log
    ensures Offset(blockBits, Base(blockBits, t - 1), Base(blockBits, t)) == Pow2(64 - blockBits) - 1
    ensures Pow2(64 - blockBits) < Pow2(log) && Pow2(64 - blockBits) <= HALF
  {
    BaseDifference(blockBits, t - 1, t);
    Range(blockBits);
    Pow2Mono(64 - blockBits, log);
    BelowHalf(64 - blockBits);
    if blockBits < 64 {
      Pow2Mono(0, 64 - blockBits);
      OffsetMeans(-1, Pow2(blockBits), Pow2(64 - blockBits));
    } else {
      OffsetOfAll(Pow2(blockBits));
    }
  }

  lemma OffsetOfAll(size: nat)
    requires size == WORD
    ensures Quotient(Word(-1 * size), size) == 0
  {
  }

  lemma LookupOfOne(blockBits: nat, tail: nat, t: int)
    requires tail == 0
    ensures LookupSlot(blockBits, 0, tail, Base(blockBits, t - 1), Base(blockBits, t)) == 0
  {
    AndZero(Word(tail + Offset(blockBits, Base(blockBits, t - 1), Base(blockBits, t))));
  }

  lemma NotBack(tail: nat, n: nat, all: nat)
    requires tail < n && 0 < all < n
    ensures (tail + (all - 1)) % n != Back(tail, n, 1)
  {
    if tail + (all - 1) < n { DivModUnique(0, tail + (all - 1), n); } else { DivModUnique(1, tail + (all - 1) - n, n); }
  }

  /** A base is its own block's base. */
  lemma MaskOfBase(blockBits: nat, b: nat)
    requires blockBits <= 64
    ensures Pow2(blockBits) <= WORD && And(Base(blockBits, b), WORD - Pow2(blockBits)) == Base(blockBits, b)
  {
    BaseOfIndex(blockBits, b * Pow2(blockBits));
    DivModUnique(b, 0, Pow2(blockBits));
  }

  lemma PrefixSame<T>(a: seq<T>, b: seq<T>)
    requires |a| <= |b| && b[..|a|] == a
    ensures forall i :: 0 <= i < |a| ==> b[i] == a[i]
  {
  }

  lemma LastSlotOfGrown(log: nat)
    ensures And(Pow2(log) - 1, 2 * Pow2(log) - 1) == Pow2(log) - 1
  {
    AndFull(Pow2(log) - 1, log + 1);
  }

  /** The entry after the last one is free exactly if the block of an index before is not live. */
  lemma FreeMeans(x: Index, blockBits: nat, slot: nat, top: int, lo: int, live: map<int, Block>)
    requires blockBits > 0 && Table(x, blockBits, slot, top, lo, live, top)
    ensures var e := x.slots[Forth(slot, |x.slots|)];
            x.keys[e] == INVALID_BLOCK_BASE || x.values[e] == None <==> top - |x.slots| !in live
  {
    var n := |x.slots|;
    BackForth(slot, n, n - 1);
    assert BackOk(x, blockBits, slot, n - 1, top, lo, live, top);
    BaseIsValid(blockBits, top - n);
  }

  /** `index & ~(BLOCK_SIZE - 1)` of the word of a position is the base of its block. */
  lemma BaseOfIndex(blockBits: nat, p: nat)
    requires blockBits <= 64
    ensures Pow2(blockBits) <= WORD
    ensures And(Word(p), WORD - Pow2(blockBits)) == Base(blockBits, p / Pow2(blockBits))
  {
    ClearLow(Word(p), blockBits);
    Range(blockBits);
    BaseOfWord(p, Pow2(64 - blockBits), Pow2(blockBits));
  }

  lemma BaseOfWord(p: nat, all: nat, size: nat)
    requires size > 0 && all * size == WORD
    ensures Word(p) - Word(p) % size == Word(p / size * size)
  {
    var q, w := Decompose(p, WORD);
    var c, t := Decompose(w, size);
    NestedParts(q, all, size, c, t);
    DivModUnique(q * all + c, t, size);
    DivModUnique(q, c * size, WORD);
  }

  lemma NestedParts(q: nat, all: nat, size: nat, c: nat, t: nat)
    ensures q * (all * size) + (c * size + t) == (q * all + c) * size + t
    ensures (q * all + c) * size == q * (all * size) + c * size
  {
    MulAssoc(q, all, size);
  }

  /** `base + BLOCK_SIZE` on words is the base of the next block. */
  lemma NextBase(blockBits: nat, b: int)
    ensures Word(Base(blockBits, b) + Pow2(blockBits)) == Base(blockBits, b + 1)
  {
    WordOfSum(b * Pow2(blockBits), Pow2(blockBits));
    Distribute(b + 1, b, Pow2(blockBits));
  }

  lemma WordOfSum(x: int, y: int)
    ensures Word(Word(x) + y) == Word(x + y)
  {
  }

  lemma BackBack(slot: nat, n: nat, j: nat, k: nat)
    requires slot < n && j <= n && k <= n
    ensures j + k <= n ==> Back(Back(slot, n, j), n, k) == Back(slot, n, j + k)
    ensures j + k >= n ==> Back(Back(slot, n, j), n, k) == Back(slot, n, j + k - n)
  {
  }

  /** With the tail `j` slots back from the newest block, a lookup still finds every live block, behind
      the tail or ahead of it; so it does while the newest block has no value yet. */
  lemma FindsBlock(x: Index, blockBits: nat, log: nat, slot: nat, top: int, lo: int, live: map<int, Block>, skip: int,
                   j: nat, b: int)
    requires Table(x, blockBits, slot, top, lo, live, skip) && |x.slots| == Pow2(log)
    requires blockBits > 0 && blockBits + log <= 64 && j < |x.slots| && top - 1 - j >= lo && b in live
    ensures var n := |x.slots|;
            var tailBase := x.keys[x.slots[Back(slot, n, j)]];
            var idx := LookupSlot(blockBits, log, Back(slot, n, j), Base(blockBits, b), tailBase);
            && tailBase == Base(blockBits, top - 1 - j) != INVALID_BLOCK_BASE
            && idx == Back(slot, n, top - 1 - b)
            && x.keys[x.slots[idx]] == Base(blockBits, b) && x.values[x.slots[idx]] == Some(live[b])
  {
    var n := |x.slots|;
    assert BackOk(x, blockBits, slot, j, top, lo, live, skip);
    assert BackOk(x, blockBits, slot, top - 1 - b, top, lo, live, skip);
    BaseIsValid(blockBits, top - 1 - j);
    var t := top - 1 - j;
    LookupFinds(blockBits, log, Back(slot, n, j), b, t);
    BackBack(slot, n, j, if b <= t then t - b else n - (b - t));
  }

  /** What one round of the rollback finds and leaves. */
  lemma RollbackKeeps(x: Index, blockBits: nat, log: nat, slot: nat, top: int, lo: int, live: map<int, Block>, j: nat, b: nat)
    requires Table(x, blockBits, slot, top, lo, live, top) && |x.slots| == Pow2(log)
    requires blockBits > 0 && blockBits + log <= 64 && j < |x.slots| && top - 1 - j >= lo && b in live
    ensures var tail := Back(slot, |x.slots|, j);
            Pow2(blockBits) <= WORD &&
            var idx := LookupSlot(blockBits, log, tail, And(Base(blockBits, b), WORD - Pow2(blockBits)),
                                  x.keys[x.slots[tail]]);
            && idx == Back(slot, |x.slots|, top - 1 - b)
            && Table(SetValue(x, x.slots[idx], None), blockBits, slot, top, lo, live - {b as int}, top)
  {
    MaskOfBase(blockBits, b);
    FindsBlock(x, blockBits, log, slot, top, lo, live, top, j, b);
    RemoveKeeps(x, blockBits, slot, top, lo, live, top, top - 1 - b);
  }

  /** Blocks from `top` down that are not live no longer count. */
  lemma {:induction false} ShrinkMany(x: Index, blockBits: nat, slot: nat, top: int, lo: int, live: map<int, Block>, m: nat)
    requires Table(x, blockBits, slot, top, lo, live, top) && m <= |x.slots|
    requires forall b :: top - m <= b < top ==> b !in live
    ensures Table(x, blockBits, Back(slot, |x.slots|, m), top - m, Min(lo, top - m), live, top - m)
  {
    if m > 0 {
      ShrinkMany(x, blockBits, slot, top, lo, live, m - 1);
      ShrinkKeeps(x, blockBits, Back(slot, |x.slots|, m - 1), top - (m - 1), Min(lo, top - (m - 1)), live);
      BackBack(slot, |x.slots|, m - 1, 1);
    }
  }

  lemma FreeBack(x: Index, blockBits: nat, slot: nat, top: int, lo: int, live: map<int, Block>, m: nat)
    requires Table(x, blockBits, slot, top, lo, live, top) && lo <= top - m
    requires forall b :: top - m <= b < top ==> b !in live
    ensures forall k: nat :: k < m && k < |x.slots| ==> x.values[x.slots[Back(slot, |x.slots|, k)]] == None
  {
    forall k: nat | k < m && k < |x.slots| ensures x.values[x.slots[Back(slot, |x.slots|, k)]] == None {
      assert BackOk(x, blockBits, slot, k, top, lo, live, top);
      var b := top - 1 - k;
      assert b !in live;
    }
  }

  /** Whether `capacity` entries can be doubled without exceeding the blocks that words have indexes for. */
  predicate MayDouble(blockBits: nat, capacity: nat) { blockBits < 64 && capacity <= Pow2(63 - blockBits) }

  lemma MayDoubleMeans(blockBits: nat, log: nat)
    ensures MayDouble(blockBits, Pow2(log)) <==> blockBits + log < 64
  {
    if blockBits < 64 {
      Pow2Le(log, 63 - blockBits);
      if log > 63 - blockBits { Pow2Mono(63 - blockBits, log); }
    }
  }
}
