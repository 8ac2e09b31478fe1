/** A lookup loads the index and its tail, and only then the entries (queue-bench/moodycamel.h:2838-2861).
    In between the producer may insert, rewind and grow the index any number of times, and consumers may
    release blocks: the entry that a block had in the index loaded is still its entry. */
module BlockSnapshots {
  import opened Options
  import opened Bits
  import opened BlockIndex
  import opened Word64

  /** The slots and the tail of the index that was loaded, when block `top - 1` was the newest. */
  datatype Snapshot = Snapshot(slots: seq<nat>, tail: nat, top: int)

  /** The entry of block `b`, at or before the tail or after it. */
  function EntryOf(x: Index, slot: nat, top: int, b: int): nat
    requires slot < |x.slots| && top - |x.slots| <= b < top + |x.slots|
  {
    x.slots[if b < top then Back(slot, |x.slots|, top - 1 - b) else Back(slot, |x.slots|, |x.slots| - 1 - (b - top))]
  }

  /** The entry that block `b` had in the index loaded. */
  function EntryThen(o: Snapshot, b: int): nat
    requires o.tail < |o.slots| && o.top - |o.slots| <= b < o.top
  {
    o.slots[Back(o.tail, |o.slots|, o.top - 1 - b)]
  }

  ghost predicate Room(o: Snapshot, x: Index, slot: nat, top: int, lo: int) {
    && Shaped(x) && slot < |x.slots| && top - |x.slots| <= lo <= top
    && o.tail < |o.slots| <= |x.slots| && o.top <= lo + |o.slots|
  }

  /** The block still has the entry that it had then; if it was given back, the entry is free. */
  ghost predicate SameEntry(o: Snapshot, x: Index, slot: nat, top: int, lo: int, b: int)
    requires Room(o, x, slot, top, lo)
  {
    lo <= b < o.top ==>
      var e := EntryOf(x, slot, top, b);
      e == EntryThen(o, b) && (b >= top ==> x.values[e] == None)
  }

  /** What is left of a snapshot: the blocks from `lo` on, and the key of its tail as long as any is left. */
  ghost predicate Shares(o: Snapshot, x: Index, blockBits: nat, slot: nat, top: int, lo: int) {
    && Room(o, x, slot, top, lo)
    && (forall b: int {:trigger SameEntry(o, x, slot, top, lo, b)} :: SameEntry(o, x, slot, top, lo, b))
    && (lo < o.top ==> EntryThen(o, o.top - 1) < |x.keys| && x.keys[EntryThen(o, o.top - 1)] == Base(blockBits, o.top - 1))
  }

  lemma LoadShares(x: Index, blockBits: nat, slot: nat, top: int, lo: int, live: map<int, Block>, skip: int)
    requires Table(x, blockBits, slot, top, lo, live, skip)
    ensures Shares(Snapshot(x.slots, slot, top), x, blockBits, slot, top, lo)
  {
    var o := Snapshot(x.slots, slot, top);
    assert BackOk(x, blockBits, slot, 0, top, lo, live, skip);
    forall b: int ensures SameEntry(o, x, slot, top, lo, b) {}
  }

  /** The lookup through a snapshot finds the block, behind the tail loaded. */
  lemma FindsThrough(o: Snapshot, x: Index, blockBits: nat, oldLog: nat, slot: nat, top: int, lo: int,
                     live: map<int, Block>, skip: int, b: int)
    requires Table(x, blockBits, slot, top, lo, live, skip) && Shares(o, x, blockBits, slot, top, lo)
    requires |o.slots| == Pow2(oldLog) && blockBits > 0 && blockBits + oldLog <= 64
    requires b in live && b < o.top
    ensures o.slots[o.tail] < |x.keys| && x.keys[o.slots[o.tail]] == Base(blockBits, o.top - 1) != INVALID_BLOCK_BASE
    ensures var idx := LookupSlot(blockBits, oldLog, o.tail, Base(blockBits, b), x.keys[o.slots[o.tail]]);
            && idx < |o.slots| && o.slots[idx] < |x.keys|
            && x.keys[o.slots[idx]] == Base(blockBits, b) && x.values[o.slots[idx]] == Some(live[b])
  {
    BaseIsValid(blockBits, o.top - 1);
    assert SameEntry(o, x, slot, top, lo, b);
    assert BackOk(x, blockBits, slot, top - 1 - b, top, lo, live, skip);
    assert EntryThen(o, o.top - 1) == o.slots[o.tail];
    LookupFinds(blockBits, oldLog, o.tail, b, o.top - 1);
  }

  /** Only values change, and none of a block given back. */
  lemma ShareValue(o: Snapshot, x: Index, blockBits: nat, slot: nat, top: int, lo: int, k: nat, value: Option<Block>)
    requires Shares(o, x, blockBits, slot, top, lo) && k < |x.slots| && (value == None || (k == 0 && lo < top))
    ensures Shares(o, SetValue(x, x.slots[Back(slot, |x.slots|, k)], value), blockBits, slot, top, lo)
  {
    var n := |x.slots|;
    var e := x.slots[Back(slot, n, k)];
    var r := SetValue(x, e, value);
    forall b: int ensures SameEntry(o, r, slot, top, lo, b) {
      assert SameEntry(o, x, slot, top, lo, b);
      if lo <= b < o.top && b >= top && value != None { BackDistinct(slot, n, 0, n - 1 - (b - top)); }
    }
  }

  /** A block is inserted at the entry after the tail. */
  lemma ShareInsert(o: Snapshot, x: Index, blockBits: nat, slot: nat, top: int, lo: int)
    requires Shares(o, x, blockBits, slot, top, lo)
    ensures var slot' := Forth(slot, |x.slots|);
            Shares(o, SetKey(x, x.slots[slot'], Base(blockBits, top)), blockBits, slot', top + 1,
                   Max(lo, top + 1 - |x.slots|))
  {
    var n := |x.slots|;
    var slot' := Forth(slot, n);
    var r := SetKey(x, x.slots[slot'], Base(blockBits, top));
    var top' := top + 1;
    var lo' := Max(lo, top' - n);
    forall b: int ensures SameEntry(o, r, slot', top', lo', b) {
      assert SameEntry(o, x, slot, top, lo, b);
      if lo' <= b < o.top { assert EntryOf(r, slot', top', b) == EntryOf(x, slot, top, b); }
    }
    if lo' < o.top {
      var t := o.top - 1;
      assert SameEntry(o, x, slot, top, lo, t);
      InsertsElsewhere(x, slot, top, t);
    }
  }

  /** The entry after the tail is that of no block an index around it but the one inserted. */
  lemma InsertsElsewhere(x: Index, slot: nat, top: int, t: int)
    requires Shaped(x) && slot < |x.slots| && top + 1 - |x.slots| <= t < top + |x.slots|
    ensures EntryOf(x, slot, top, t) == x.slots[Forth(slot, |x.slots|)] <==> t == top
  {
  }

  /** The tail goes back over blocks that are free now. */
  lemma ShareBack(o: Snapshot, x: Index, blockBits: nat, slot: nat, top: int, lo: int, m: nat)
    requires Shares(o, x, blockBits, slot, top, lo) && lo <= top - m && m <= |x.slots|
    requires forall k: nat :: k < m && k < |x.slots| ==> x.values[x.slots[Back(slot, |x.slots|, k)]] == None
    ensures Shares(o, x, blockBits, Back(slot, |x.slots|, m), top - m, lo)
  {
    var n := |x.slots|;
    var slot', top' := Back(slot, n, m), top - m;
    forall b: int ensures SameEntry(o, x, slot', top', lo, b) {
      assert SameEntry(o, x, slot, top, lo, b);
      if lo <= b < o.top { BackMore(x, slot, top, m, b); }
    }
  }

  lemma BackMore(x: Index, slot: nat, top: int, m: nat, b: int)
    requires slot < |x.slots| && m <= |x.slots| && top - |x.slots| <= b < top - m + |x.slots|
    ensures EntryOf(x, Back(slot, |x.slots|, m), top - m, b) == EntryOf(x, slot, top, b)
  {
  }

  /** A larger index takes over, when the next entry of the smaller one is not free. */
  lemma ShareGrow(o: Snapshot, x: Index, blockBits: nat, slot: nat, top: int, lo: int, r: Index)
    requires Shares(o, x, blockBits, slot, top, lo) && Grown(x, slot, r)
    requires x.values[x.slots[Forth(slot, |x.slots|)]] != None
    ensures Shares(o, r, blockBits, |x.slots| - 1, top, lo)
  {
    var n := |x.slots|;
    var last := n - 1;
    GrowShaped(x, slot, r);
    BackForth(slot, n, n - 1);
    assert SameEntry(o, x, slot, top, lo, top);
    forall b: int ensures SameEntry(o, r, last, top, lo, b) {
      assert SameEntry(o, x, slot, top, lo, b);
      if lo <= b < o.top {
        assert o.top <= top;
        GrownEntry(x, slot, top, b, r);
      }
    }
  }

  lemma GrownEntry(x: Index, slot: nat, top: int, b: int, r: Index)
    requires Shaped(x) && slot < |x.slots| && Grown(x, slot, r) && top - |x.slots| <= b < top
    ensures EntryOf(r, |x.slots| - 1, top, b) == EntryOf(x, slot, top, b)
  {
  }
}
