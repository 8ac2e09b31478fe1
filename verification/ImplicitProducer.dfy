/** The methods of ImplicitProducer on its block index (queue-bench/moodycamel.h:2411-2443, 2549-2606,
    2785-2908): the producer inserts and rewinds entries at the tail, any thread looks up and releases. */
module ImplicitProducer {
  import opened Options
  import opened Bits
  import opened BlockIndex
  import opened BlockSnapshots
  import opened Word64

  class ImplicitProducerIndex {
    const blockBits: nat            // BLOCK_SIZE is 2 to this
    ghost var log: nat              // the capacity is 2 to this
    var x: Index
    var tail: nat
    var nextBlockIndexCapacity: nat

    ghost var next: int             // the number of the next block to insert
    ghost var lo: int               // from this block on the keys are true
    ghost var live: map<int, Block>
    ghost var pending: bool         // the last block is inserted and has no value yet

    ghost predicate Valid()
      reads this
    {
      && blockBits > 0 && blockBits + log <= 64
      && |x.slots| == Pow2(log) && nextBlockIndexCapacity == 2 * |x.slots|
      && (pending ==> lo < next)
      && Table(x, blockBits, tail, next, lo, live, Skip())
    }

    /** An index and a tail loaded earlier still lead to the blocks that were there then. */
    ghost predicate Sees(o: Snapshot)
      reads this
    {
      Shares(o, x, blockBits, tail, next, lo)
    }

    /** The first new_block_index, with memory to be had.  `next` is the block of the starting index, and
        `junk` what the values of new entries happen to be. */
    constructor (blockBits: nat, ghost initialLog: nat, initialSize: nat, ghost next: nat, junk: Option<Block>)
      requires blockBits > 0 && blockBits + initialLog <= 64 && initialSize == Pow2(initialLog)
      ensures Valid() && !pending && live == map[]
      ensures this.blockBits == blockBits && this.next == next && log == initialLog
    {
      this.blockBits := blockBits;
      log, this.next, lo, live, pending := initialLog, next, next, map[], false;
      tail := initialSize - 1;
      nextBlockIndexCapacity := 2 * initialSize;
      x := Index(seq(initialSize, _ => INVALID_BLOCK_BASE), seq(initialSize, _ => junk), seq(initialSize, i => i));
      new;
      ghost var last := initialSize - 1;
      forall k: nat ensures BackOk(x, blockBits, last, k, next, next, map[], next) {}
    }

    /** new_block_index.  `memory` says whether the allocation succeeds; an index of more blocks than words
        have indexes for is not allocated. */
    method NewBlockIndex(memory: bool, junk: Option<Block>) returns (ok: bool)
      requires Valid() && !pending && (memory ==> blockBits + log < 64)
      modifies this
      ensures Valid() && !pending && next == old(next) && live == old(live) && lo == old(lo)
      ensures ok == memory
      ensures !ok ==> x == old(x) && tail == old(tail) && log == old(log)
      ensures log == if ok then old(log) + 1 else old(log)
      ensures ok ==> |x.slots| == 2 * old(|x.slots|) && tail + 1 == old(|x.slots|)
      ensures ok ==> x.keys[x.slots[tail + 1]] == INVALID_BLOCK_BASE
      ensures old(x.values[x.slots[Forth(tail, |x.slots|)]] != None) ==>
                forall o: Snapshot {:trigger Sees(o)} :: old(Sees(o)) ==> Sees(o)
    {
      if !memory { return false; }
      var slots, prevPos := CopySlots();
      var r := AddEntries(slots, junk);
      Publish(r);
      if old(x.values[x.slots[Forth(tail, |x.slots|)]]) != None {
        forall o: Snapshot | old(Sees(o)) ensures Sees(o) {
          ShareGrow(o, old(x), blockBits, old(tail), next, lo, r);
        }
      }
      return true;
    }

    /** The larger index takes over. */
    method Publish(r: Index)
      requires Valid() && !pending && blockBits + log < 64 && Grown(x, tail, r)
      modifies this
      ensures Valid() && !pending && next == old(next) && live == old(live) && lo == old(lo) && log == old(log) + 1
      ensures x == r && tail + 1 == old(|x.slots|)
    {
      var n := |x.slots|;
      GrowKeeps(x, blockBits, tail, next, lo, live, r);
      LastSlotOfGrown(log);
      x := r;
      tail := And(n - 1, nextBlockIndexCapacity - 1);
      log := log + 1;
      nextBlockIndexCapacity := 2 * nextBlockIndexCapacity;
    }

    /** The loop that makes the new entries. */
    method AddEntries(copied: seq<nat>, junk: Option<Block>) returns (r: Index)
      requires Shaped(x) && tail < |x.slots| == |copied|
      requires forall i :: 0 <= i < |copied| ==> copied[i] == x.slots[Back(tail, |x.slots|, |x.slots| - 1 - i)]
      ensures Grown(x, tail, r)
    {
      var n := |x.slots|;
      var keys, values, slots := x.keys, x.values, copied;
      var i := 0;
      while i != n
        invariant 0 <= i <= n && |keys| == |values| == |x.keys| + i && |slots| == n + i
        invariant keys[..|x.keys|] == x.keys && values[..|x.keys|] == x.values && slots[..n] == copied
        invariant forall j :: |x.keys| <= j < |keys| ==> keys[j] == INVALID_BLOCK_BASE
        invariant forall j :: n <= j < n + i ==> slots[j] == |x.keys| + j - n
      {
        keys, values, slots := keys + [INVALID_BLOCK_BASE], values + [junk], slots + [|x.keys| + i];
        i := i + 1;
      }
      r := Index(keys, values, slots);
      PrefixSame(x.keys, keys);
      PrefixSame(x.values, values);
      PrefixSame(copied, slots);
    }

    /** The loop that copies the entries, from the oldest to the last. */
    method CopySlots() returns (slots: seq<nat>, prevPos: nat)
      requires Valid()
      ensures |slots| == |x.slots|
      ensures forall i :: 0 <= i < |slots| ==> slots[i] == x.slots[Back(tail, |x.slots|, |x.slots| - 1 - i)]
    {
      var n := |x.slots|;
      MaskForth(tail, log);
      prevPos := And(tail + 1, n - 1);
      slots := [x.slots[prevPos]];
      while prevPos != tail
        invariant 1 <= |slots| <= n && prevPos == Back(tail, n, n - |slots|)
        invariant forall i :: 0 <= i < |slots| ==> slots[i] == x.slots[Back(tail, n, n - 1 - i)]
        decreases n - |slots|
      {
        MaskForth(prevPos, log);
        prevPos := And(prevPos + 1, n - 1);
        slots := slots + [x.slots[prevPos]];
      }
    }

    /** insert_block_index_entry: it succeeds exactly if the block an index before the new one is free or
        the index may grow; on a larger index the assertion about the new slot holds. */
    method Insert(base: nat, canAlloc: bool, memory: bool, junk: Option<Block>) returns (ok: bool, e: nat)
      requires Valid() && !pending && base == Base(blockBits, next)
      requires memory ==> blockBits + log < 64
      modifies this
      ensures Valid() && live == old(live) && pending == ok
      ensures next == if ok then old(next) + 1 else old(next)
      ensures ok <==> old(next - |x.slots|) !in old(live) || (canAlloc && memory)
      ensures log == if old(next - |x.slots|) in old(live) && ok then old(log) + 1 else old(log)
      ensures ok ==> e == x.slots[tail]
      ensures forall o: Snapshot {:trigger Sees(o)} :: old(Sees(o)) ==> Sees(o)
    {
      MaskForth(tail, log);
      FreeMeans(x, blockBits, tail, next, lo, live);
      var newTail := And(tail + 1, |x.slots| - 1);
      e := x.slots[newTail];
      if x.keys[e] == INVALID_BLOCK_BASE || x.values[e] == None {
        Take(e, newTail, base);
        return true, e;
      }
      if !canAlloc { return false, e; }
      ok, e := InsertLarger(base, memory, junk);
    }

    /** The part of insert_block_index_entry that allocates. */
    method InsertLarger(base: nat, memory: bool, junk: Option<Block>) returns (ok: bool, e: nat)
      requires Valid() && !pending && base == Base(blockBits, next) && (memory ==> blockBits + log < 64)
      requires x.values[x.slots[Forth(tail, |x.slots|)]] != None
      modifies this
      ensures Valid() && live == old(live) && pending == ok == memory
      ensures log == if ok then old(log) + 1 else old(log)
      ensures next == if ok then old(next) + 1 else old(next)
      ensures ok ==> e == x.slots[tail]
      ensures forall o: Snapshot {:trigger Sees(o)} :: old(Sees(o)) ==> Sees(o)
    {
      ok := NewBlockIndex(memory, junk);
      if !ok { return false, 0; }
      MaskForth(tail, log);
      var newTail := And(tail + 1, |x.slots| - 1);
      e := x.slots[newTail];
      assert x.keys[e] == INVALID_BLOCK_BASE;
      Take(e, newTail, base);
    }

    method Take(e: nat, newTail: nat, base: nat)
      requires Valid() && !pending && base == Base(blockBits, next)
      requires newTail == Forth(tail, |x.slots|) && e == x.slots[newTail]
      requires x.keys[e] == INVALID_BLOCK_BASE || x.values[e] == None
      modifies this
      ensures Valid() && pending && live == old(live) && next == old(next) + 1 && e == x.slots[tail] && log == old(log)
      ensures forall o: Snapshot {:trigger Sees(o)} :: old(Sees(o)) ==> Sees(o)
    {
      InsertKeeps(x, blockBits, tail, next, lo, live);
      forall o: Snapshot | Sees(o)
        ensures Shares(o, SetKey(x, e, base), blockBits, newTail, next + 1, Max(lo, next + 1 - |x.slots|))
      {
        ShareInsert(o, x, blockBits, tail, next, lo);
      }
      x := SetKey(x, e, base);
      tail := newTail;
      lo := Max(lo, next + 1 - |x.slots|);
      next := next + 1;
      pending := true;
    }

    /** The new block becomes the entry's value. */
    method StoreBlock(e: nat, block: Block)
      requires Valid() && pending && e == x.slots[tail]
      modifies this
      ensures Valid() && !pending && next == old(next) && log == old(log)
      ensures live == old(live)[next - 1 := block]
      ensures forall o: Snapshot {:trigger Sees(o)} :: old(Sees(o)) ==> Sees(o)
    {
      ValueKeeps(x, blockBits, tail, next, lo, live, Some(block));
      forall o: Snapshot | Sees(o) ensures Shares(o, SetValue(x, e, Some(block)), blockBits, tail, next, lo) {
        ShareValue(o, x, blockBits, tail, next, lo, 0, Some(block));
      }
      x := SetValue(x, e, Some(block));
      live := live[next - 1 := block];
      pending := false;
    }

    lemma WithdrawnShares()
      requires Valid() && pending
      ensures forall o: Snapshot {:trigger Sees(o)} :: Sees(o) ==>
                Shares(o, SetValue(x, x.slots[tail], None), blockBits, Back(tail, |x.slots|, 1), next - 1, lo)
    {
      forall o: Snapshot | Sees(o)
        ensures Shares(o, SetValue(x, x.slots[tail], None), blockBits, Back(tail, |x.slots|, 1), next - 1, lo)
      {
        ShareValue(o, x, blockBits, tail, next, lo, 0, None);
        ShareBack(o, SetValue(x, x.slots[tail], None), blockBits, tail, next, lo, 1);
      }
    }

    /** rewind_block_index_tail */
    method RewindTail()
      requires tail < |x.slots| == Pow2(log) && log <= 64
      modifies this`tail
      ensures tail == Back(old(tail), |x.slots|, 1)
    {
      MaskBack(tail, log);
      tail := And(Word(tail - 1), |x.slots| - 1);
    }

    /** Without a block the insertion is undone: the tail is rewound and the value cleared. */
    method Withdraw(e: nat)
      requires Valid() && pending && e == x.slots[tail]
      modifies this
      ensures Valid() && !pending && next + 1 == old(next) && live == old(live) && log == old(log)
      ensures forall o: Snapshot {:trigger Sees(o)} :: old(Sees(o)) ==> Sees(o)
    {
      WithdrawKeeps(x, blockBits, tail, next, lo, live);
      WithdrawnShares();
      RewindTail();
      x := SetValue(x, e, None);
      next := next - 1;
      pending := false;
    }

    /** get_block_index_index_for_index */
    method GetIndexIndex(index: nat) returns (idx: nat)
      requires Shaped(x) && tail < |x.slots| == Pow2(log) && blockBits <= 64 && index < WORD
      ensures Pow2(blockBits) <= WORD
      ensures idx == LookupSlot(blockBits, log, tail, And(index, WORD - Pow2(blockBits)), x.keys[x.slots[tail]])
    {
      ClearLow(index, blockBits);
      var base := And(index, WORD - Pow2(blockBits));
      var tailBase := x.keys[x.slots[tail]];
      idx := And(Word(tail + Offset(blockBits, base, tailBase)), |x.slots| - 1);
    }

    /** The newest block has no value while it is pending. */
    ghost function Skip(): int
      reads this
    {
      if pending then next - 1 else next
    }

    /** The lookup of an index in a live block: the assertions hold and the slot is that block's. */
    method Lookup(index: nat, ghost p: nat) returns (idx: nat)
      requires Valid() && index == Word(p) && p / Pow2(blockBits) in live
      ensures idx == Back(tail, |x.slots|, next - 1 - p / Pow2(blockBits))
      ensures x.keys[x.slots[tail]] != INVALID_BLOCK_BASE
      ensures x.keys[x.slots[idx]] == Base(blockBits, p / Pow2(blockBits))
      ensures x.values[x.slots[idx]] == Some(live[p / Pow2(blockBits)])
    {
      BaseOfIndex(blockBits, p);
      FindsBlock(x, blockBits, log, tail, next, lo, live, Skip(), 0, p / Pow2(blockBits));
      idx := GetIndexIndex(index);
    }

    ghost function Now(): Snapshot
      reads this
    {
      Snapshot(x.slots, tail, next)
    }

    /** What is loaded now leads to every live block. */
    lemma SeesNow()
      requires Valid()
      ensures Sees(Now()) && forall b :: b in live ==> b < Now().top
    {
      LoadShares(x, blockBits, tail, next, lo, live, Skip());
    }

    /** The same lookup with an index and a tail that were loaded earlier: it finds every block that was there
        then and still is, whatever was inserted, rewound, released or grown since. */
    method LookupThrough(slots: seq<nat>, oldTail: nat, ghost top: int, ghost oldLog: nat, index: nat, ghost p: nat)
      returns (idx: nat)
      requires Valid() && Sees(Snapshot(slots, oldTail, top)) && |slots| == Pow2(oldLog)
      requires index == Word(p) && p / Pow2(blockBits) in live && p / Pow2(blockBits) < top
      ensures slots[oldTail] < |x.keys| && x.keys[slots[oldTail]] != INVALID_BLOCK_BASE
      ensures idx < |slots| && slots[idx] < |x.keys| && x.keys[slots[idx]] == Base(blockBits, p / Pow2(blockBits))
      ensures x.values[slots[idx]] == Some(live[p / Pow2(blockBits)])
    {
      BaseOfIndex(blockBits, p);
      ClearLow(index, blockBits);
      if oldLog > log { Pow2Mono(log, oldLog); }
      FindsThrough(Snapshot(slots, oldTail, top), x, blockBits, oldLog, tail, next, lo, live, Skip(), p / Pow2(blockBits));
      var base := And(index, WORD - Pow2(blockBits));
      var tailBase := x.keys[slots[oldTail]];
      idx := And(Word(oldTail + Offset(blockBits, base, tailBase)), |slots| - 1);
    }

    /** A consumer that has emptied a block clears its entry. */
    method Release(idx: nat, ghost b: int)
      requires Valid() && b in live && idx == Back(tail, |x.slots|, next - 1 - b)
      modifies this
      ensures Valid() && pending == old(pending) && next == old(next) && log == old(log) && live == old(live) - {b}
      ensures forall o: Snapshot {:trigger Sees(o)} :: old(Sees(o)) ==> Sees(o)
    {
      forall o: Snapshot | Sees(o) ensures Shares(o, SetValue(x, x.slots[idx], None), blockBits, tail, next, lo) {
        ShareValue(o, x, blockBits, tail, next, lo, next - 1 - b, None);
      }
      RemoveKeeps(x, blockBits, tail, next, lo, live, Skip(), next - 1 - b);
      x := SetValue(x, x.slots[idx], None);
      live := live - {b};
    }

    /** The body of the rollback loop, with the tail `j` slots back from the newest block. */
    method RollbackOne(last: nat, ghost slot: nat, ghost top: int, ghost j: nat, ghost b: nat) returns (cur: nat)
      requires blockBits > 0 && blockBits + log <= 64 && j < |x.slots| == Pow2(log) && top - 1 - j >= lo
      requires Table(x, blockBits, slot, top, lo, live, top) && tail == Back(slot, |x.slots|, j)
      requires b in live && last == Base(blockBits, b - 1)
      modifies this`x, this`tail, this`live
      ensures |x.slots| == old(|x.slots|) && live == old(live) - {b as int} && cur == Base(blockBits, b)
      ensures Table(x, blockBits, slot, top, lo, live, top) && tail == Back(slot, |x.slots|, j + 1)
      ensures slot < |x.slots| && old(b < top <= b + |x.slots|)
      ensures x == SetValue(old(x), old(x).slots[Back(slot, |old(x).slots|, top - 1 - b)], None)
    {
      NextBase(blockBits, b - 1);
      cur := Word(last + Pow2(blockBits));
      var idx := GetIndexIndex(cur);
      RollbackKeeps(x, blockBits, log, slot, top, lo, live, j, b);
      BackBack(slot, Pow2(log), j, 1);
      x := SetValue(x, x.slots[idx], None);
      live := live - {b as int};
      RewindTail();
    }

    lemma ClearedShares(before: Index, after: Index, slot: nat, top: int, k: nat)
      requires slot < |before.slots| && k < |before.slots| && before.slots[Back(slot, |before.slots|, k)] < |before.values|
      requires after == SetValue(before, before.slots[Back(slot, |before.slots|, k)], None)
      ensures forall o: Snapshot {:trigger Shares(o, after, blockBits, slot, top, lo)} ::
                Shares(o, before, blockBits, slot, top, lo) ==> Shares(o, after, blockBits, slot, top, lo)
    {
      forall o: Snapshot | Shares(o, before, blockBits, slot, top, lo) ensures Shares(o, after, blockBits, slot, top, lo) {
        ShareValue(o, before, blockBits, slot, top, lo, k, None);
      }
    }

    /** The rollback loop: from the first of the last `m` blocks to the newest, each is looked up from a tail
        that has already gone back, cleared, and the tail rewound. */
    method RollbackLoop(m: nat, current: nat, ghost top: int)
      requires blockBits > 0 && blockBits + log <= 64 && |x.slots| == Pow2(log)
      requires Table(x, blockBits, tail, top, lo, live, top) && top >= m && current == Base(blockBits, top - m - 1)
      requires forall b :: top - m <= b < top ==> b in live
      modifies this`x, this`tail, this`live
      ensures |x.slots| == old(|x.slots|) && m <= |x.slots| && tail == Back(old(tail), |x.slots|, m)
      ensures m == 0 || lo <= top - m
      ensures Table(x, blockBits, old(tail), top, lo, live, top) && live == Without(old(live), top - m, top)
      ensures forall o: Snapshot {:trigger Shares(o, x, blockBits, old(tail), top, lo)} ::
                old(Shares(o, x, blockBits, tail, top, lo)) ==> Shares(o, x, blockBits, old(tail), top, lo)
    {
      ghost var slot := tail;
      assert m > 0 ==> top - m in live;
      var cur := current;
      var j := 0;
      assert live == Without(live, top - m, top - m);
      while j < m
        invariant 0 <= j <= m <= |x.slots| == Pow2(log) && (m == 0 || lo <= top - m)
        invariant Table(x, blockBits, slot, top, lo, live, top)
        invariant tail == Back(slot, |x.slots|, j) && cur == Base(blockBits, top - m - 1 + j)
        invariant live == Without(old(live), top - m, top - m + j)
        invariant forall o: Snapshot {:trigger Shares(o, x, blockBits, slot, top, lo)} ::
                    old(Shares(o, x, blockBits, tail, top, lo)) ==> Shares(o, x, blockBits, slot, top, lo)
      {
        WithoutOne(old(live), top - m, top - m + j);
        ghost var before := x;
        cur := RollbackOne(cur, slot, top, j, top - m + j);
        ClearedShares(before, x, slot, top, m - 1 - j);
        j := j + 1;
      }
    }

    /** The rollback of a bulk reservation, lines 2574-2580. */
    method Rollback(m: nat, current: nat)
      requires Valid() && !pending && next >= m && current == Base(blockBits, next - m - 1)
      requires forall b :: next - m <= b < next ==> b in live
      modifies this
      ensures Valid() && !pending && next == old(next) - m && log == old(log)
      ensures live == Without(old(live), next, next + m)
      ensures forall o: Snapshot {:trigger Sees(o)} :: old(Sees(o)) ==> Sees(o)
    {
      ghost var top, slot := next, tail;
      RollbackLoop(m, current, top);
      if m > 0 {
        ShrinkMany(x, blockBits, slot, top, lo, live, m);
        FreeBack(x, blockBits, slot, top, lo, live, m);
        forall o: Snapshot | old(Sees(o)) ensures Shares(o, x, blockBits, tail, top - m, lo) {
          ShareBack(o, x, blockBits, slot, top, lo, m);
        }
      }
      next := top - m;
    }

    /** One round of the reservation: an index entry and a block, or neither. */
    method ReserveOne(cur: nat, room: bool, canAlloc: bool, memory: bool, block: Option<Block>, junk: Option<Block>)
      returns (ok: bool)
      requires Valid() && !pending && cur == Base(blockBits, next) && (memory ==> blockBits + log < 64)
      modifies this
      ensures Valid() && !pending
      ensures log == if room && old(next - |x.slots|) in old(live) && canAlloc && memory then old(log) + 1 else old(log)
      ensures ok <==> room && block.Some? && (old(next - |x.slots|) !in old(live) || (canAlloc && memory))
      ensures !ok ==> next == old(next) && live == old(live)
      ensures ok ==> next == old(next) + 1 && live == old(live)[old(next) := block.value]
      ensures forall o: Snapshot {:trigger Sees(o)} :: old(Sees(o)) ==> Sees(o)
    {
      var inserted, e := false, 0;
      if room { inserted, e := Insert(cur, canAlloc, memory, junk); }
      if !inserted || block.None? {
        if inserted { Withdraw(e); }
        return false;
      }
      StoreBlock(e, block.value);
      return true;
    }

    /** What was reserved so far is given back. */
    method GiveUp(i: nat, current: nat, ghost before: map<int, Block>, blocks: seq<Option<Block>>)
      requires Valid() && !pending && next >= i && current == Base(blockBits, next - i - 1)
      requires i <= |blocks| && (forall j :: 0 <= j < i ==> blocks[j].Some?)
      requires (forall b :: b in before ==> b < next - i) && live == Reserved(before, next - i, blocks, i)
      modifies this
      ensures Valid() && !pending && next == old(next) - i && live == before && log == old(log)
      ensures forall o: Snapshot {:trigger Sees(o)} :: old(Sees(o)) ==> Sees(o)
    {
      ReservedMeans(before, next - i, blocks, i);
      Rollback(i, current);
    }

    /** One round of the loop, with all that came before given back if it fails. */
    method Round(i: nat, last: nat, current: nat, ghost before: map<int, Block>, ghost first: int, ghost capacity: nat,
                 room: seq<bool>, canAlloc: bool, memory: seq<bool>, blocks: seq<Option<Block>>, junk: Option<Block>)
      returns (ok: bool, cur: nat)
      requires Valid() && !pending && 0 <= first == next - i && last == Base(blockBits, next - 1)
      requires current == Base(blockBits, first - 1) && capacity > 0
      requires i < |blocks| == |room| == |memory| && (forall j :: 0 <= j < i ==> blocks[j].Some?)
      requires (forall b :: b in before ==> b < first) && live == Reserved(before, first, blocks, i)
      requires |x.slots| == CapacityAt(blockBits, capacity, before, first, canAlloc, memory, i)
      requires AllServed(blockBits, capacity, before, first, room, canAlloc, memory, blocks, i)
      modifies this
      ensures Valid() && !pending
      ensures ok <==> AllServed(blockBits, capacity, before, first, room, canAlloc, memory, blocks, i + 1)
      ensures !ok ==> next == first && live == before
      ensures ok ==> next == old(next) + 1 && cur == Base(blockBits, next - 1) && blocks[i].Some?
      ensures ok ==> live == Reserved(before, first, blocks, i + 1)
      ensures ok ==> |x.slots| == CapacityAt(blockBits, capacity, before, first, canAlloc, memory, i + 1)
      ensures forall o: Snapshot {:trigger Sees(o)} :: old(Sees(o)) ==> Sees(o)
    {
      MayDoubleMeans(blockBits, log);
      RoundServed(blockBits, capacity, before, first, room, canAlloc, memory, blocks, i);
      NextBase(blockBits, next - 1);
      cur := Word(last + Pow2(blockBits));
      ok := ReserveOne(cur, room[i], canAlloc, memory[i] && MayDouble(blockBits, |x.slots|), blocks[i], junk);
      if !ok { GiveUp(i, current, before, blocks); }
    }

    lemma LiveBelow()
      requires Valid() && !pending
      ensures forall b :: b in live ==> b < next
    {
    }

    /** The reservation of enqueue_bulk, lines 2549-2606, of one block for each element of `blocks`, where
        `room[i]` is the test of the queue's size, `memory[i]` whether a larger index can be allocated (never
        one of more blocks than words have indexes for) and `blocks[i]` the block that requisition_block
        yields: all of them exactly if every round can be served, or else nothing. */
    method ReserveBlocks(current: nat, room: seq<bool>, canAlloc: bool, memory: seq<bool>, blocks: seq<Option<Block>>,
                         junk: Option<Block>) returns (ok: bool)
      requires Valid() && !pending && next >= 0 && current == Base(blockBits, next - 1)
      requires |room| == |memory| == |blocks|
      modifies this
      ensures Valid() && !pending
      ensures ok <==> old(AllServed(blockBits, |x.slots|, live, next, room, canAlloc, memory, blocks, |blocks|))
      ensures !ok ==> next == old(next) && live == old(live)
      ensures ok ==> next == old(next) + |blocks|
      ensures ok ==> |x.slots| == old(CapacityAt(blockBits, |x.slots|, live, next, canAlloc, memory, |blocks|))
      ensures ok ==> (forall i :: 0 <= i < |blocks| ==> blocks[i].Some?)
      ensures ok ==> live == Reserved(old(live), old(next), blocks, |blocks|)
      ensures forall o: Snapshot {:trigger Sees(o)} :: old(Sees(o)) ==> Sees(o)
    {
      var cur := current;
      var i := 0;
      ghost var before, first, capacity := live, next, |x.slots|;
      LiveBelow();
      while i < |blocks|
        invariant 0 <= i <= |blocks| && Valid() && !pending && next == first + i
        invariant cur == Base(blockBits, next - 1)
        invariant forall j :: 0 <= j < i ==> blocks[j].Some?
        invariant live == Reserved(before, first, blocks, i)
        invariant |x.slots| == CapacityAt(blockBits, capacity, before, first, canAlloc, memory, i)
        invariant AllServed(blockBits, capacity, before, first, room, canAlloc, memory, blocks, i)
        invariant forall o: Snapshot {:trigger Sees(o)} :: old(Sees(o)) ==> Sees(o)
      {
        ok, cur := Round(i, cur, current, before, first, capacity, room, canAlloc, memory, blocks, junk);
        if !ok {
          FewerServed(blockBits, capacity, before, first, room, canAlloc, memory, blocks, i + 1);
          return false;
        }
        i := i + 1;
      }
      return true;
    }
  }

  /** The block a whole index before the one of round `k` is in use by then: it was live, or one of the earlier
      rounds inserted it. */
  ghost predicate InUse(live: map<int, Block>, first: int, k: nat, capacity: nat) {
    first + k - capacity in live || first <= first + k - capacity < first + k
  }

  ghost predicate MayGrow(blockBits: nat, capacity: nat, canAlloc: bool, memory: bool) {
    canAlloc && memory && MayDouble(blockBits, capacity)
  }

  /** The capacity of the index before round `k`: a round doubles it if it has to and may. */
  ghost function CapacityAt(blockBits: nat, capacity: nat, live: map<int, Block>, first: int, canAlloc: bool,
                            memory: seq<bool>, k: nat): (c: nat)
    requires k <= |memory|
    ensures c >= capacity
  {
    if k == 0 then capacity
    else
      var c := CapacityAt(blockBits, capacity, live, first, canAlloc, memory, k - 1);
      if InUse(live, first, k - 1, c) && MayGrow(blockBits, c, canAlloc, memory[k - 1]) then 2 * c else c
  }

  /** Round `k` has room in the queue, a block, and an entry of the index for it. */
  ghost predicate Served(blockBits: nat, capacity: nat, live: map<int, Block>, first: int, room: bool, canAlloc: bool,
                         memory: seq<bool>, block: Option<Block>, k: nat)
    requires k < |memory|
  {
    var c := CapacityAt(blockBits, capacity, live, first, canAlloc, memory, k);
    room && block.Some? && (!InUse(live, first, k, c) || MayGrow(blockBits, c, canAlloc, memory[k]))
  }

  ghost predicate AllServed(blockBits: nat, capacity: nat, live: map<int, Block>, first: int, room: seq<bool>,
                            canAlloc: bool, memory: seq<bool>, blocks: seq<Option<Block>>, n: nat)
    requires n <= |room| == |memory| == |blocks|
  {
    forall k :: 0 <= k < n ==> Served(blockBits, capacity, live, first, room[k], canAlloc, memory, blocks[k], k)
  }

  lemma FewerServed(blockBits: nat, capacity: nat, live: map<int, Block>, first: int, room: seq<bool>,
                    canAlloc: bool, memory: seq<bool>, blocks: seq<Option<Block>>, n: nat)
    requires n <= |room| == |memory| == |blocks|
    ensures AllServed(blockBits, capacity, live, first, room, canAlloc, memory, blocks, |blocks|) ==>
              AllServed(blockBits, capacity, live, first, room, canAlloc, memory, blocks, n)
  {
  }

  /** What round `i` needs, in terms of the blocks live by then. */
  lemma RoundServed(blockBits: nat, capacity: nat, live: map<int, Block>, first: int, room: seq<bool>,
                    canAlloc: bool, memory: seq<bool>, blocks: seq<Option<Block>>, i: nat)
    requires capacity > 0 && i < |room| == |memory| == |blocks| && (forall b :: b in live ==> b < first)
    requires (forall j :: 0 <= j < i ==> blocks[j].Some?)
    requires AllServed(blockBits, capacity, live, first, room, canAlloc, memory, blocks, i)
    ensures var c := CapacityAt(blockBits, capacity, live, first, canAlloc, memory, i);
            var inUse := first + i - c in Reserved(live, first, blocks, i);
            var grows := canAlloc && memory[i] && MayDouble(blockBits, c);
            && CapacityAt(blockBits, capacity, live, first, canAlloc, memory, i + 1) == (if inUse && grows then 2 * c else c)
            && (AllServed(blockBits, capacity, live, first, room, canAlloc, memory, blocks, i + 1) <==>
                  room[i] && blocks[i].Some? && (!inUse || grows))
  {
    ReservedMeans(live, first, blocks, i);
    var c := CapacityAt(blockBits, capacity, live, first, canAlloc, memory, i);
    assert InUse(live, first, i, c) <==> first + i - c in Reserved(live, first, blocks, i);
    assert Served(blockBits, capacity, live, first, room[i], canAlloc, memory, blocks[i], i) <==>
           room[i] && blocks[i].Some? && (!InUse(live, first, i, c) || MayGrow(blockBits, c, canAlloc, memory[i]));
  }

  /** The live blocks with those of a bulk reservation. */
  ghost function Reserved(live: map<int, Block>, first: int, blocks: seq<Option<Block>>, i: nat): map<int, Block>
    requires i <= |blocks| && forall j :: 0 <= j < i ==> blocks[j].Some?
  {
    if i == 0 then live else Reserved(live, first, blocks, i - 1)[first + i - 1 := blocks[i - 1].value]
  }

  lemma {:induction false} ReservedMeans(live: map<int, Block>, first: int, blocks: seq<Option<Block>>, i: nat)
    requires i <= |blocks| && (forall j :: 0 <= j < i ==> blocks[j].Some?) && forall b :: b in live ==> b < first
    ensures var r := Reserved(live, first, blocks, i);
            && (forall b :: b in r <==> b in live || first <= b < first + i)
            && (forall b :: b in live ==> r[b] == live[b])
            && Without(r, first, first + i) == live
  {
    if i > 0 { ReservedMeans(live, first, blocks, i - 1); }
  }

  /** The live blocks without those from `from` to before `to`. */
  ghost function Without(live: map<int, Block>, from: int, to: int): map<int, Block> {
    map b | b in live && !(from <= b < to) :: live[b]
  }

  lemma WithoutOne(live: map<int, Block>, from: int, to: int)
    requires from <= to
    ensures Without(live, from, to + 1) == Without(live, from, to) - {to}
    ensures to in live ==> to in Without(live, from, to)
  {
  }
}
