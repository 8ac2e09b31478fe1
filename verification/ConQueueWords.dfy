/** The 32-bit words of ConQueue: every comparison its code makes on truncated positions and counts
    agrees with the unbounded one as long as no loaded value lags its counter by 2^32 or more (and, for
    the full test, by more than 2^32 - capacity), and `to_id` of a truncated position is the slot. */
module ConQueueWords {
  import opened HeadTail
  import opened ConQueue
  import Bits
  import opened Word32

  // ---------------------------------------------------------------- the tests, as the code writes them

  /** `oh.pos - cons_tail.pos == capacity()`, line 89 */
  predicate FullTest(pos: nat, consTail: nat, capacity: nat) { Word(Word(pos) - Word(consTail)) == capacity }

  /** `min(capacity() - oh.pos + cons_tail.pos, count)`, line 133 */
  function BulkRoom(pos: nat, consTail: nat, capacity: nat, count: nat): nat {
    var room := Word(Word(capacity - Word(pos)) + Word(consTail));
    if room < count then room else count
  }

  /** `ot.pos == prod_tail.pos`, line 176 */
  predicate EmptyTest(pos: nat, prodTail: nat) { Word(pos) == Word(prodTail) }

  /** `min(count, prod_tail.pos - ot.pos)`, line 224 */
  function BulkAvailable(pos: nat, prodTail: nat, count: nat): nat {
    var there := Word(Word(prodTail) - Word(pos));
    if count < there then count else there
  }

  /** What thread `t` loaded is not too old for 32 bits.  Where a count goes with the position it is the
      number of claims since that matters. */
  predicate Recent(s: Side, t: Tid, limit: nat)
    requires t < |s.pcs|
  {
    match s.pcs[t]
    case LoadLimit(_, pos, _) => limit - pos < WORD
    case CasHead(_, pos, cnt, _) => if s.mode.Relaxed? then s.headCnt - cnt < WORD else s.head - pos < WORD
    case RtsCas(_, pos, cnt, _, hcnt) => s.tailCnt - cnt < WORD && hcnt - cnt <= WORD
    case _ => true
  }

  lemma LoadedBelowLimit(s: Side, limit: nat, t: Tid)
    requires Inv(s, limit) && t < |s.pcs| && s.pcs[t].LoadLimit?
    ensures s.pcs[t].pos <= limit
  {
    assert PcOk(s, limit, t, s.pcs[t]);
  }

  /** A producer that loads the consumer tail decides as the model does. */
  lemma ProducerTestsAgree<T>(q0: Queue<T>, es: seq<Event<T>>, t: Tid)
    requires Initially(q0) && q0.capacity < WORD
    requires var q := Exec(q0, es);
             && t < |q.prod.pcs| && q.prod.pcs[t].LoadLimit? && q.prod.pcs[t].n > 0
             && Recent(q.prod, t, q.cons.tail + q.capacity)
    ensures var q := Exec(q0, es);
            SameRoom(q.prod.pcs[t].pos, q.cons.tail, q.capacity, q.prod.pcs[t].n)
  {
    ExecKeepsInv(q0, es);
    ProducerWordsIn(Exec(q0, es), t);
  }

  lemma ProducerWordsIn(q: Queue, t: Tid)
    requires QInv(q) && q.capacity < WORD
    requires t < |q.prod.pcs| && q.prod.pcs[t].LoadLimit? && q.prod.pcs[t].n > 0
    requires Recent(q.prod, t, q.cons.tail + q.capacity)
    ensures SameRoom(q.prod.pcs[t].pos, q.cons.tail, q.capacity, q.prod.pcs[t].n)
  {
    ProducerWordsOf(q.prod, t, q.cons.tail, q.capacity);
  }

  /** The test for full and the room for a bulk come out as on unbounded positions. */
  predicate SameRoom(pos: nat, consTail: nat, capacity: nat, n: nat) {
    && (FullTest(pos, consTail, capacity) <==> Room(pos, consTail + capacity, n) == 0)
    && BulkRoom(pos, consTail, capacity, n) == Room(pos, consTail + capacity, n)
  }

  lemma ProducerWordsOf(s: Side, t: Tid, consTail: nat, capacity: nat)
    requires Inv(s, consTail + capacity) && t < |s.pcs| && s.pcs[t].LoadLimit? && s.pcs[t].n > 0
    requires Recent(s, t, consTail + capacity) && capacity < WORD
    ensures SameRoom(s.pcs[t].pos, consTail, capacity, s.pcs[t].n)
  {
    LoadedBelowLimit(s, consTail + capacity, t);
    ProducerWords(s.pcs[t].pos, consTail, capacity);
  }

  lemma ProducerWords(pos: nat, consTail: nat, capacity: nat)
    requires capacity < WORD && pos <= consTail + capacity && consTail + capacity - pos < WORD
    ensures FullTest(pos, consTail, capacity) <==> pos == consTail + capacity
    ensures Word(Word(capacity - Word(pos)) + Word(consTail)) == consTail + capacity - pos
  {
    WordOfDifference(pos, consTail);
    if pos <= consTail { WordAddMultiple(pos - consTail, 1); }
    WordOfSum(capacity - Word(pos), consTail);
    WordOfRest(capacity + consTail, pos);
  }

  lemma WordOfRest(a: int, pos: nat)
    requires 0 <= a - pos < WORD
    ensures Word(a - Word(pos)) == a - pos
  {
    var q, r := Bits.Decompose(pos, WORD);
    WordAddMultiple(a - pos, q);
  }

  lemma ConsumerTestsAgree<T>(q0: Queue<T>, es: seq<Event<T>>, t: Tid)
    requires Initially(q0)
    requires var q := Exec(q0, es);
             && t < |q.cons.pcs| && q.cons.pcs[t].LoadLimit? && q.cons.pcs[t].n > 0
             && Recent(q.cons, t, q.prod.tail)
    ensures var q := Exec(q0, es);
            var pos, n := q.cons.pcs[t].pos, q.cons.pcs[t].n;
            && (EmptyTest(pos, q.prod.tail) <==> Room(pos, q.prod.tail, n) == 0)
            && BulkAvailable(pos, q.prod.tail, n) == Room(pos, q.prod.tail, n)
  {
    ExecKeepsInv(q0, es);
    var q := Exec(q0, es);
    ConsumerWordsOf(q.cons, t, q.prod.tail);
  }

  lemma ConsumerWordsOf(s: Side, t: Tid, prodTail: nat)
    requires Inv(s, prodTail) && t < |s.pcs| && s.pcs[t].LoadLimit? && s.pcs[t].n > 0
    requires Recent(s, t, prodTail)
    ensures var pos, n := s.pcs[t].pos, s.pcs[t].n;
            && (EmptyTest(pos, prodTail) <==> Room(pos, prodTail, n) == 0)
            && BulkAvailable(pos, prodTail, n) == Room(pos, prodTail, n)
  {
    LoadedBelowLimit(s, prodTail, t);
    Bits.SameRemainder(s.pcs[t].pos, prodTail, WORD);
    WordOfDifference(prodTail, s.pcs[t].pos);
  }

  /** The comparison of `raw`: both halves as words. */
  predicate SameRaw(pos: nat, cnt: nat, pos': nat, cnt': nat) { Word(pos) == Word(pos') && Word(cnt) == Word(cnt') }

  /** The compare-exchanges of either side, of both halves of the head or tail word, succeed on the words
      exactly when they do on the counters, and so does the relaxed tail's count test. */
  lemma SideTestsAgree(s: Side, limit: nat, t: Tid)
    requires Inv(s, limit) && t < |s.pcs| && Recent(s, t, limit)
    ensures s.pcs[t].CasHead? ==>
              var pos, cnt := s.pcs[t].pos, s.pcs[t].cnt;
              SameRaw(s.head, s.headCnt, pos, cnt) <==> s.head == pos && s.headCnt == cnt
    ensures s.pcs[t].RtsCas? ==>
              var pos, cnt, hcnt := s.pcs[t].pos, s.pcs[t].cnt, s.pcs[t].hcnt;
              && (SameRaw(s.tail, s.tailCnt, pos, cnt) <==> s.tail == pos && s.tailCnt == cnt)
              && (s.tailCnt == cnt ==> (Word(cnt + 1) == Word(hcnt) <==> cnt + 1 == hcnt))
  {
    assert ClaimOk(s, t, s.pcs[t]) && PcOk(s, limit, t, s.pcs[t]);
    match s.pcs[t] {
      case CasHead(_, pos, cnt, _) => HeadAgrees(s, limit, pos, cnt);
      case RtsCas(c, _, cnt, _, hcnt) =>
        Bits.SameRemainder(cnt, s.tailCnt, WORD);
        if s.tailCnt == cnt {
          DoneBounded(s.done + {c}, hcnt);
          Bits.SameRemainder(cnt + 1, hcnt, WORD);
        }
      case _ =>
    }
  }

  lemma HeadAgrees(s: Side, limit: nat, pos: nat, cnt: nat)
    requires Inv(s, limit) && HeadSeen(s, pos, cnt)
    requires if s.mode.Relaxed? then s.headCnt - cnt < WORD else s.head - pos < WORD
    ensures SameRaw(s.head, s.headCnt, pos, cnt) <==> s.head == pos && s.headCnt == cnt
  {
    if s.mode.Relaxed? {
      Bits.SameRemainder(cnt, s.headCnt, WORD);
    } else {
      Bits.SameRemainder(pos, s.head, WORD);
    }
  }

  /** The wait for one's turn ends on the words exactly when it does on the positions. */
  predicate SameTurn(s: Side, t: Tid) {
    t < |s.pcs| && s.pcs[t].Turn? ==>
      var start := End(s.ends, s.pcs[t].c);
      Word(s.tail) == Word(start) <==> s.tail == start
  }

  /** It does in a side whose claims in flight span less than 2^32 positions. */
  lemma TurnWords(s: Side, limit: nat, t: Tid)
    requires Inv(s, limit) && s.head - s.tail < WORD
    ensures SameTurn(s, t)
  {
    if t < |s.pcs| && s.pcs[t].Turn? {
      var c := s.pcs[t].c;
      assert ClaimOk(s, t, s.pcs[t]);
      EndsMonotone(s, s.low, c);
      EndBelowHead(s, c);
      Bits.SameRemainder(s.tail, s.ends[c], WORD);
    }
  }

  /** As the claims in flight never exceed the capacity, no wait of default_update_ht is misled, on either
      side of any reachable queue. */
  lemma TurnTestAgrees<T>(q0: Queue<T>, es: seq<Event<T>>, t: Tid)
    requires Initially(q0) && q0.capacity < WORD
    ensures SameTurn(Exec(q0, es).prod, t) && SameTurn(Exec(q0, es).cons, t)
  {
    ExecKeepsInv(q0, es);
    var q := Exec(q0, es);
    CountersInOrder(q);
    TurnWords(q.prod, q.cons.tail + q.capacity, t);
    TurnWords(q.cons, q.prod.tail, t);
  }

  // ---------------------------------------------------------------- slots

  /** `aligned_size(max_size, flags) - 1`, lines 51 and 292-302; the exact mode keeps the size itself. */
  function CountMask(maxSize: nat, exact: bool): nat
    requires maxSize > 0
  {
    if exact then maxSize else Bits.RoundUp(maxSize) - 1
  }

  /** `to_id` on a 32-bit position, lines 287-290 */
  function ToIdWord(maxSize: nat, exact: bool, word: nat): nat
    requires maxSize > 0
  {
    if exact then word % CountMask(maxSize, exact) else Bits.And(word, CountMask(maxSize, exact))
  }

  function RingSize(maxSize: nat, exact: bool): nat
    requires maxSize > 0
  {
    if exact then maxSize else Bits.RoundUp(maxSize)
  }

  /** Outside the exact mode the slot of a position survives the wrap of its 32-bit word; the ring has
      the least power of two of slots that holds the capacity. */
  lemma MaskedSlot(maxSize: nat, p: nat, k: nat)
    requires 0 < maxSize <= Bits.Pow2(31)
    ensures ToIdWord(maxSize, false, Word(p)) == p % RingSize(maxSize, false)
    ensures maxSize <= RingSize(maxSize, false)
    ensures maxSize <= Bits.Pow2(k) ==> RingSize(maxSize, false) <= Bits.Pow2(k)
  {
    Bits.RoundUpIsLeast(maxSize, k);
    MaskedId(maxSize, p, Bits.Length(maxSize - 1));
  }

  lemma MaskedId(maxSize: nat, p: nat, b: nat)
    requires maxSize > 0 && b <= 32 && Bits.RoundUp(maxSize) == Bits.Pow2(b)
    ensures ToIdWord(maxSize, false, Word(p)) == p % RingSize(maxSize, false)
  {
    MaskedWord(p, b);
  }

  lemma MaskedWord(p: nat, b: nat)
    requires b <= 32
    ensures Bits.And(Word(p), Bits.Pow2(b) - 1) == p % Bits.Pow2(b)
  {
    Bits.AndOnes(Word(p), b);
    WordMod(p, b);
  }

  lemma WordMod(p: nat, b: nat)
    requires b <= 32
    ensures Word(p) % Bits.Pow2(b) == p % Bits.Pow2(b)
  {
    var h, m := Split(b);
    ModOfMod(p, h, m);
  }

  lemma Split(b: nat) returns (h: nat, m: nat)
    requires b <= 32
    ensures m == Bits.Pow2(b) && h * m == WORD
  {
    h, m := Bits.Pow2(32 - b), Bits.Pow2(b);
    Bits.Pow2Sum(32 - b, b);
    Bits.Pow2Values();
  }

  /** In the exact mode it does so, for all positions, exactly when the size divides 2^32. */
  lemma ExactSlot(maxSize: nat)
    requires maxSize > 0
    ensures (forall p: nat :: ToIdWord(maxSize, true, Word(p)) == p % RingSize(maxSize, true)) <==> WORD % maxSize == 0
  {
    RemainderOfWord(maxSize);
    if forall p: nat :: ToIdWord(maxSize, true, Word(p)) == p % RingSize(maxSize, true) {
      forall p: nat ensures Word(p) % maxSize == p % maxSize {
        assert ToIdWord(maxSize, true, Word(p)) == p % RingSize(maxSize, true);
      }
    }
  }

  /** Otherwise two positions less than the ring apart get the same slot at the wrap. */
  lemma ExactSlotsApart(maxSize: nat)
    requires maxSize > 0
    ensures (forall p: nat, r: nat :: p < r < p + maxSize ==>
               ToIdWord(maxSize, true, Word(p)) != ToIdWord(maxSize, true, Word(r))) <==>
            WORD % maxSize == 0
  {
    ExactSlot(maxSize);
    var h, rest := Bits.Decompose(WORD, maxSize);
    if rest == 0 {
      forall p: nat, r: nat | p < r < p + maxSize
        ensures ToIdWord(maxSize, true, Word(p)) != ToIdWord(maxSize, true, Word(r))
      {
        assert ToIdWord(maxSize, true, Word(p)) == p % maxSize && ToIdWord(maxSize, true, Word(r)) == r % maxSize;
        Bits.SameRemainder(p, r, maxSize);
      }
    } else {
      var p: nat, r: nat := WORD - rest, WORD;
      SlotsMeet(maxSize, h, rest);
      assert ToIdWord(maxSize, true, Word(p)) == ToIdWord(maxSize, true, Word(r));
    }
  }

  lemma SlotsMeet(maxSize: nat, h: nat, rest: nat)
    requires 0 < rest < maxSize && WORD == h * maxSize + rest
    ensures Word(WORD - rest) % maxSize == 0 == Word(WORD) % maxSize
  {
    Bits.MulBounds(h, maxSize);
    assert Word(WORD - rest) == h * maxSize;
    Bits.DivModUnique(h, 0, maxSize);
    Bits.DivModUnique(0, 0, maxSize);
  }

  /** The sizes whose slots survive the wrap. */
  predicate WrapsWell(maxSize: nat, exact: bool) {
    maxSize > 0 && if exact then WORD % maxSize == 0 else maxSize <= Bits.Pow2(31)
  }

  lemma SlotOfWord(maxSize: nat, exact: bool, p: nat)
    requires WrapsWell(maxSize, exact)
    ensures ToIdWord(maxSize, exact, Word(p)) == p % RingSize(maxSize, exact)
  {
    if exact { ExactSlot(maxSize); } else { MaskedSlot(maxSize, p, 31); }
  }

  /** The slot at which a working thread is, by its 32-bit position. */
  function WorkWord(maxSize: nat, exact: bool, s: Side, t: Tid): nat
    requires maxSize > 0 && Works(s, t)
  {
    ToIdWord(maxSize, exact, Word(WorkPos(s, t)))
  }

  /** In every reachable state, however often the words have wrapped, two operations in flight are at
      different slots of the ring. */
  lemma WordSlotsNeverShared<T>(q0: Queue<T>, es: seq<Event<T>>, maxSize: nat, exact: bool, t: Tid, u: Tid)
    requires WrapsWell(maxSize, exact)
    requires Initially(q0) && q0.capacity == maxSize && q0.ringSize == RingSize(maxSize, exact)
    ensures var q := Exec(q0, es);
            && (Works(q.prod, t) && Works(q.cons, u) ==>
                  WorkWord(maxSize, exact, q.prod, t) != WorkWord(maxSize, exact, q.cons, u))
            && (Works(q.prod, t) && Works(q.prod, u) && t != u ==>
                  WorkWord(maxSize, exact, q.prod, t) != WorkWord(maxSize, exact, q.prod, u))
            && (Works(q.cons, t) && Works(q.cons, u) && t != u ==>
                  WorkWord(maxSize, exact, q.cons, t) != WorkWord(maxSize, exact, q.cons, u))
  {
    SlotsNeverShared(q0, es, t, u);
    var q := Exec(q0, es);
    if Works(q.prod, t) { WorkWordIs(q, maxSize, exact, q.prod, t); }
    if Works(q.prod, u) { WorkWordIs(q, maxSize, exact, q.prod, u); }
    if Works(q.cons, t) { WorkWordIs(q, maxSize, exact, q.cons, t); }
    if Works(q.cons, u) { WorkWordIs(q, maxSize, exact, q.cons, u); }
  }

  lemma WorkWordIs(q: Queue, maxSize: nat, exact: bool, s: Side, t: Tid)
    requires WrapsWell(maxSize, exact) && q.ringSize == RingSize(maxSize, exact) > 0 && Works(s, t)
    ensures WorkWord(maxSize, exact, s, t) == WorkSlot(q, s, t)
  {
    SlotOfWord(maxSize, exact, WorkPos(s, t));
  }
}
