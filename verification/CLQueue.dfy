/** CLQueue with one producer and one consumer (conqueue.h:334-408, 437-447, 484, 492-501, 562-621): a ring
    of lines of slots with two 16-bit counters a line.  Positions are unbounded.  The test for full compares
    the counters as numbers, and `Misses` is the state in which it fails. */
module CLQueue {
  import opened Options
  import opened Word16
  import opened Bits

  /** `inline` is SLOT_MAX_INLINE, and the number of lines is 2 to `bits`. */
  datatype Mode = Mode(useBlock: bool, inline: nat, bits: nat)

  const BLOCK_WIDTH: nat := 64

  function Lines(m: Mode): nat { Pow2(m.bits) }

  /** With blocks there must be a whole block of lines. */
  predicate Fits(m: Mode) { 0 < m.inline < WORD && (m.useBlock ==> m.bits >= 6) }

  /** get_li */
  function Line(m: Mode, n: nat): nat
    requires m.inline > 0
  {
    if m.useBlock then
      And(n % BLOCK_WIDTH + n / (m.inline * BLOCK_WIDTH) * BLOCK_WIDTH, Lines(m) - 1)
    else And(n, Lines(m) - 1)
  }

  /** get_si */
  function Slot(m: Mode, n: nat): nat
    requires m.inline > 0
  {
    if m.useBlock then n % (m.inline * BLOCK_WIDTH) / BLOCK_WIDTH
    else Shr(n, m.bits) % m.inline
  }

  // ---------------------------------------------------------------- the visits of a line

  /** The lines of a block, in blocks of lines. */
  function Columns(m: Mode): nat
    requires m.bits >= 6
  {
    Pow2(m.bits - 6)
  }

  /** The position of the `k`-th visit to line `l`. */
  function Visit(m: Mode, l: nat, k: nat): nat
    requires Fits(m)
  {
    if m.useBlock then
      Glue(k / m.inline, Columns(m), l / BLOCK_WIDTH, m.inline, k % m.inline, l % BLOCK_WIDTH)
    else k * Lines(m) + l
  }

  /** Round, column, row and place in the block make a position. */
  function Glue(r: nat, columns: nat, c: nat, inline: nat, j: nat, w: nat): nat {
    ((r * columns + c) * inline + j) * BLOCK_WIDTH + w
  }

  lemma LinesInBlocks(m: Mode)
    requires m.bits >= 6
    ensures Lines(m) == Columns(m) * BLOCK_WIDTH
  {
    assert Pow2(6) == 64;
    Pow2Sum(m.bits - 6, 6);
  }

  /** The parts of a position, with blocks: round, column, row and place in the block. */
  lemma BlockParts(m: Mode, n: nat) returns (r: nat, c: nat, j: nat, w: nat)
    requires Fits(m) && m.useBlock
    ensures c < Columns(m) && j < m.inline && w < BLOCK_WIDTH
    ensures n == Glue(r, Columns(m), c, m.inline, j, w)
  {
    var b, w0 := Decompose(n, BLOCK_WIDTH);
    var q, j0 := Decompose(b, m.inline);
    var r0, c0 := Decompose(q, Columns(m));
    r, c, j, w := r0, c0, j0, w0;
  }

  lemma BlockPlace(m: Mode, r: nat, c: nat, j: nat, w: nat)
    requires Fits(m) && m.useBlock && c < Columns(m) && j < m.inline && w < BLOCK_WIDTH
    ensures var n := Glue(r, Columns(m), c, m.inline, j, w);
            Line(m, n) == c * BLOCK_WIDTH + w && Slot(m, n) == j && c * BLOCK_WIDTH + w < Lines(m)
  {
    var q := r * Columns(m) + c;
    var b := q * m.inline + j;
    var n := b * BLOCK_WIDTH + w;
    var size := m.inline * BLOCK_WIDTH;
    LinesInBlocks(m);
    DivModUnique(b, w, BLOCK_WIDTH);
    assert n == q * size + (j * BLOCK_WIDTH + w) by { MulAssoc(q, m.inline, BLOCK_WIDTH); }
    assert j * BLOCK_WIDTH + w < size by { MulBounds(m.inline - j, BLOCK_WIDTH); }
    DivModUnique(q, j * BLOCK_WIDTH + w, size);
    DivModUnique(j, w, BLOCK_WIDTH);
    var x := w + q * BLOCK_WIDTH;
    assert x == r * Lines(m) + (c * BLOCK_WIDTH + w) by { MulAssoc(r, Columns(m), BLOCK_WIDTH); }
    assert c * BLOCK_WIDTH + w < Lines(m) by { MulBounds(Columns(m) - c, BLOCK_WIDTH); }
    AndLow(x, r, c * BLOCK_WIDTH + w, m.bits);
  }

  lemma PlainPlace(m: Mode, k: nat, l: nat)
    requires Fits(m) && !m.useBlock && l < Lines(m)
    ensures Line(m, k * Lines(m) + l) == l && Slot(m, k * Lines(m) + l) == k % m.inline
  {
    AndLow(k * Lines(m) + l, k, l, m.bits);
    ShrIsQuotient(k, l, m.bits);
  }

  lemma ColumnBelow(m: Mode, l: nat)
    requires m.bits >= 6 && l < Lines(m)
    ensures l / BLOCK_WIDTH < Columns(m)
  {
    LinesInBlocks(m);
    var c, w := Decompose(l, BLOCK_WIDTH);
    MulBounds(c - Columns(m), BLOCK_WIDTH);
  }

  /** A visit is to its line, at the slot of its number. */
  lemma VisitPlace(m: Mode, l: nat, k: nat)
    requires Fits(m) && l < Lines(m)
    ensures Line(m, Visit(m, l, k)) == l && Slot(m, Visit(m, l, k)) == k % m.inline
  {
    if m.useBlock { BlockVisitPlace(m, l, k); } else { PlainPlace(m, k, l); }
  }

  lemma BlockVisitPlace(m: Mode, l: nat, k: nat)
    requires Fits(m) && l < Lines(m) && m.useBlock
    ensures Line(m, Visit(m, l, k)) == l && Slot(m, Visit(m, l, k)) == k % m.inline
  {
    var c, w := Decompose(l, BLOCK_WIDTH);
    ColumnBelow(m, l);
    BlockPlace(m, k / m.inline, c, k % m.inline, w);
  }

  lemma VisitOfParts(m: Mode, r: nat, c: nat, j: nat, w: nat) returns (k: nat)
    requires Fits(m) && m.useBlock && j < m.inline && w < BLOCK_WIDTH
    ensures Visit(m, c * BLOCK_WIDTH + w, k) == Glue(r, Columns(m), c, m.inline, j, w)
  {
    k := r * m.inline + j;
    DivModUnique(r, j, m.inline);
    DivModUnique(c, w, BLOCK_WIDTH);
  }

  /** Every position is a visit. */
  lemma IsVisit(m: Mode, n: nat) returns (k: nat)
    requires Fits(m)
    ensures Line(m, n) < Lines(m) && n == Visit(m, Line(m, n), k)
  {
    if m.useBlock {
      var r, c, j, w := BlockParts(m, n);
      BlockPlace(m, r, c, j, w);
      k := VisitOfParts(m, r, c, j, w);
    } else {
      var q, l := Decompose(n, Lines(m));
      PlainPlace(m, q, l);
      k := q;
    }
  }

  /** As many visits later as a line has slots, the position is a whole queue later. */
  lemma VisitPeriod(m: Mode, l: nat, k: nat)
    requires Fits(m) && l < Lines(m)
    ensures Visit(m, l, k + m.inline) == Visit(m, l, k) + m.inline * Lines(m)
  {
    if m.useBlock {
      var r, j := Decompose(k, m.inline);
      assert k + m.inline == (r + 1) * m.inline + j;
      DivModUnique(r + 1, j, m.inline);
      LinesInBlocks(m);
      GluePeriod(r, Columns(m), l / BLOCK_WIDTH, m.inline, j, l % BLOCK_WIDTH);
    } else {
      assert (k + m.inline) * Lines(m) == k * Lines(m) + m.inline * Lines(m);
    }
  }

  lemma GluePeriod(r: nat, columns: nat, c: nat, inline: nat, j: nat, w: nat)
    ensures Glue(r + 1, columns, c, inline, j, w) == Glue(r, columns, c, inline, j, w) + inline * (columns * BLOCK_WIDTH)
  {
    var a := r * columns + c;
    assert (r + 1) * columns + c == a + columns;
    assert (a + columns) * inline == a * inline + columns * inline;
    assert columns * inline * BLOCK_WIDTH == inline * (columns * BLOCK_WIDTH) by { MulAssoc(inline, columns, BLOCK_WIDTH); }
  }

  lemma GlueGrows(r: nat, columns: nat, c: nat, inline: nat, j: nat, w: nat)
    requires columns > 0 && j < inline
    ensures Glue(r, columns, c, inline, j, w) < Glue(r, columns, c, inline, j + 1, w)
    ensures Glue(r, columns, c, inline, j, w) < Glue(r + 1, columns, c, inline, 0, w)
  {
    var a := r * columns + c;
    assert (r + 1) * columns + c == a + columns;
    assert (a + columns) * inline == a * inline + columns * inline;
    MulBounds(columns, inline);
  }

  lemma VisitNext(m: Mode, l: nat, k: nat)
    requires Fits(m) && l < Lines(m)
    ensures Visit(m, l, k) < Visit(m, l, k + 1)
  {
    if m.useBlock {
      var r, j := Decompose(k, m.inline);
      GlueGrows(r, Columns(m), l / BLOCK_WIDTH, m.inline, j, l % BLOCK_WIDTH);
      NextQuotient(k, r, j, m.inline);
    } else {
      assert (k + 1) * Lines(m) == k * Lines(m) + Lines(m);
    }
  }

  lemma NextQuotient(k: nat, r: nat, j: nat, inline: nat)
    requires k == r * inline + j && j < inline
    ensures (k + 1) / inline == if j + 1 < inline then r else r + 1
    ensures (k + 1) % inline == if j + 1 < inline then j + 1 else 0
  {
    if j + 1 < inline {
      DivModUnique(r, j + 1, inline);
    } else {
      assert k + 1 == (r + 1) * inline + 0;
      DivModUnique(r + 1, 0, inline);
    }
  }

  lemma {:induction false} VisitGrows(m: Mode, l: nat, j: nat, k: nat)
    requires Fits(m) && l < Lines(m) && j < k
    ensures Visit(m, l, j) < Visit(m, l, k)
    decreases k
  {
    VisitNext(m, l, k - 1);
    if j < k - 1 { VisitGrows(m, l, j, k - 1); }
  }

  // ---------------------------------------------------------------- counting the visits

  /** How many of the positions below `n` are in line `l`. */
  function Count(m: Mode, n: nat, l: nat): (c: nat)
    requires m.inline > 0
    ensures c <= n
  {
    if n == 0 then 0 else Count(m, n - 1, l) + if Line(m, n - 1) == l then 1 else 0
  }

  /** The count is the number of the first visit not below `n`. */
  lemma {:induction false} CountIsVisit(m: Mode, n: nat, l: nat)
    requires Fits(m) && l < Lines(m)
    ensures n <= Visit(m, l, Count(m, n, l))
    ensures Count(m, n, l) > 0 ==> Visit(m, l, Count(m, n, l) - 1) < n
    decreases n, 0
  {
    if n != 0 {
      CountIsVisit(m, n - 1, l);
      var c := Count(m, n - 1, l);
      if Line(m, n - 1) == l {
        NextVisitIs(m, n - 1);
        VisitNext(m, l, c);
      } else {
        VisitPlace(m, l, c);
      }
    }
  }

  /** A number between two visits determines the first of them. */
  lemma {:induction false} CountUnique(m: Mode, n: nat, l: nat, c: nat)
    requires Fits(m) && l < Lines(m)
    requires n <= Visit(m, l, c) && (c > 0 ==> Visit(m, l, c - 1) < n)
    ensures Count(m, n, l) == c
    decreases n, 1
  {
    CountIsVisit(m, n, l);
    var d := Count(m, n, l);
    if c < d - 1 { VisitGrows(m, l, c, d - 1); }
    if d < c - 1 { VisitGrows(m, l, d, c - 1); }
  }

  /** The visit of a position is numbered by the earlier visits of its line, and its slot is that number
      modulo the slots of a line. */
  lemma {:induction false} NextVisitIs(m: Mode, n: nat)
    requires Fits(m)
    ensures var l := Line(m, n); l < Lines(m) && n == Visit(m, l, Count(m, n, l))
    ensures Slot(m, n) == Count(m, n, Line(m, n)) % m.inline
    decreases n, 2
  {
    var k := IsVisit(m, n);
    var l := Line(m, n);
    if k > 0 { VisitGrows(m, l, k - 1, k); }
    CountUnique(m, n, l, k);
    VisitPlace(m, l, k);
  }

  /** The first round is within the queue. */
  lemma FirstRound(m: Mode, l: nat)
    requires Fits(m) && l < Lines(m)
    ensures Visit(m, l, m.inline - 1) < m.inline * Lines(m)
  {
    if m.useBlock {
      var c, w := Decompose(l, BLOCK_WIDTH);
      DivModUnique(0, m.inline - 1, m.inline);
      LinesInBlocks(m);
      ColumnBelow(m, l);
      GlueBelow(Columns(m), c, m.inline, w);
    } else {
      DivModUnique(0, m.inline - 1, m.inline);
      MulPred(m.inline, Lines(m));
    }
  }

  lemma GlueBelow(columns: nat, c: nat, inline: nat, w: nat)
    requires c < columns && inline > 0 && w < BLOCK_WIDTH
    ensures Glue(0, columns, c, inline, inline - 1, w) < inline * (columns * BLOCK_WIDTH)
  {
    MulBounds(columns - c, inline);
    assert (columns - c) * inline == columns * inline - c * inline;
    assert columns * inline * BLOCK_WIDTH == inline * (columns * BLOCK_WIDTH) by { MulAssoc(inline, columns, BLOCK_WIDTH); }
  }

  /** A whole queue later every line has been visited once for each of its slots. */
  lemma CountPeriod(m: Mode, n: nat, l: nat)
    requires Fits(m) && l < Lines(m)
    ensures Count(m, n + m.inline * Lines(m), l) == Count(m, n, l) + m.inline
  {
    CountIsVisit(m, n, l);
    var c := Count(m, n, l);
    VisitPeriod(m, l, c);
    if c > 0 { VisitPeriod(m, l, c - 1); } else { FirstRound(m, l); }
    CountUnique(m, n + m.inline * Lines(m), l, c + m.inline);
  }

  // ---------------------------------------------------------------- what the line counters tell

  lemma {:induction false} CountGrows(m: Mode, a: nat, b: nat, l: nat)
    requires m.inline > 0 && a <= b
    ensures Count(m, a, l) <= Count(m, b, l)
    ensures a < b && Line(m, a) == l ==> Count(m, a, l) < Count(m, b, l)
    decreases b
  {
    if a + 1 < b { CountGrows(m, a, b - 1, l); }
  }

  function Size(m: Mode): nat { m.inline * Lines(m) }

  /** The counters of the head's line tell whether the whole queue is full. */
  lemma FullByLine(m: Mode, head: nat, tail: nat)
    requires Fits(m) && tail <= head <= tail + Size(m)
    ensures var l := Line(m, head);
            Count(m, head, l) - Count(m, tail, l) == m.inline <==> head - tail == Size(m)
  {
    var l := Line(m, head);
    NextVisitIs(m, head);
    CountPeriod(m, tail, l);
    CountGrows(m, head, tail + Size(m), l);
  }

  /** Those of the tail's line tell whether it is empty. */
  lemma EmptyByLine(m: Mode, head: nat, tail: nat)
    requires Fits(m) && tail <= head
    ensures var l := Line(m, tail); Count(m, head, l) == Count(m, tail, l) <==> head == tail
  {
    CountGrows(m, tail, head, Line(m, tail));
  }

  /** Positions less than the size apart are at different slots. */
  lemma SlotsApart(m: Mode, p: nat, q: nat)
    requires Fits(m) && p < q < p + Size(m)
    ensures Line(m, p) != Line(m, q) || Slot(m, p) != Slot(m, q)
  {
    var l := Line(m, p);
    if Line(m, q) == l {
      NextVisitIs(m, p);
      NextVisitIs(m, q);
      CountPeriod(m, p, l);
      CountGrows(m, p, q, l);
      CountGrows(m, q, p + Size(m), l);
      Bits.SameRemainder(Count(m, p, l), Count(m, q, l), m.inline);
    }
  }

  /** A whole queue later the slot is the same. */
  lemma SameSlot(m: Mode, n: nat)
    requires Fits(m)
    ensures Line(m, n) < Lines(m) && Slot(m, n) < m.inline
    ensures Line(m, n + Size(m)) == Line(m, n) && Slot(m, n + Size(m)) == Slot(m, n)
  {
    var l := Line(m, n);
    NextVisitIs(m, n);
    VisitPeriod(m, l, Count(m, n, l));
    VisitPlace(m, l, Count(m, n, l) + m.inline);
    DivModPeriod(Count(m, n, l), m.inline);
  }

  lemma DivModPeriod(k: nat, m: nat)
    requires m > 0
    ensures (k + m) % m == k % m
  {
    var q, r := Decompose(k, m);
    assert k + m == (q + 1) * m + r;
    DivModUnique(q + 1, r, m);
  }

  /** Without a whole block of lines two positions of the same round share a slot: the condition in
      `Fits` is exact. */
  lemma BlockOfLinesNeeded(m: Mode)
    requires m.inline > 1 && m.useBlock && m.bits < 6
    ensures exists p: nat, q: nat :: p < q < p + Size(m) && Line(m, p) == Line(m, q) && Slot(m, p) == Slot(m, q)
  {
    assert Pow2(6) == 64;
    Pow2Mono(m.bits, 6);
    var n := Lines(m);
    MulBounds(m.inline - 1, n);
    assert m.inline * n == (m.inline - 1) * n + n;
    FirstBlock(m, 0);
    FirstBlock(m, n);
    AndLow(n, 1, 0, m.bits);
    assert 0 < n < 0 + Size(m) && Line(m, 0) == Line(m, n) && Slot(m, 0) == Slot(m, n);
  }

  lemma FirstBlock(m: Mode, n: nat)
    requires m.inline > 1 && m.useBlock && n < BLOCK_WIDTH
    ensures Line(m, n) == And(n, Lines(m) - 1) && Slot(m, n) == 0
  {
    assert m.inline * BLOCK_WIDTH > BLOCK_WIDTH;
    DivModUnique(0, n, m.inline * BLOCK_WIDTH);
  }

  // ---------------------------------------------------------------- 16-bit counters

  /** What a 16-bit counter shows of line `l` after the visits below `n`; both counters begin at 1. */
  function Shown(m: Mode, n: nat, l: nat): nat
    requires m.inline > 0
  {
    Word(1 + Count(m, n, l))
  }

  function Wraps(m: Mode, n: nat, l: nat): nat
    requires m.inline > 0
  {
    (1 + Count(m, n, l)) / WORD
  }

  /** The test for full compares the difference of the two words as `int`: it is right exactly while both
      counters of the head's line have wrapped equally often. */
  lemma FullTestExactly(m: Mode, head: nat, tail: nat)
    requires Fits(m) && tail <= head <= tail + Size(m)
    ensures var l := Line(m, head);
            Shown(m, head, l) - Shown(m, tail, l) == m.inline <==>
            head - tail == Size(m) && Wraps(m, head, l) == Wraps(m, tail, l)
  {
    var l := Line(m, head);
    NextVisitIs(m, head);
    FullByLine(m, head, tail);
    CountGrows(m, tail, head, l);
    CountGrows(m, head, tail + Size(m), l);
    CountPeriod(m, tail, l);
    WordDifference(1 + Count(m, head, l), 1 + Count(m, tail, l), m.inline);
  }

  lemma WordDifference(a: nat, b: nat, inline: nat)
    requires 0 < inline < WORD && b <= a <= b + inline
    ensures Word(a) - Word(b) == inline <==> a - b == inline && a / WORD == b / WORD
  {
  }

  /** On one line of 7 slots: 65535 pushes and 65528 pops later the queue is full, and the test says not. */
  lemma FullIsMissed()
    ensures var m := Mode(false, 7, 0);
            Size(m) == 7 && Shown(m, 65535, Line(m, 65535)) - Shown(m, 65528, Line(m, 65535)) != 7
  {
    var m := Mode(false, 7, 0);
    assert Size(m) == 7;
    NextVisitIs(m, 65535);
    PlainPlace(m, 65535, 0);
    FullByLine(m, 65535, 65528);
    OneLine(m, 65535);
    OneLine(m, 65528);
  }

  lemma {:induction false} OneLine(m: Mode, n: nat)
    requires m.inline > 0 && !m.useBlock && m.bits == 0
    ensures Count(m, n, 0) == n
  {
    if n > 0 {
      OneLine(m, n - 1);
      AndLow(n - 1, n - 1, 0, 0);
    }
  }

  /** Before the first wrap of a counter the test is right: that is so for as many rounds of the queue as
      fit into 16 bits. */
  lemma EarlyIsExact(m: Mode, head: nat, tail: nat, l: nat, rounds: nat)
    requires Fits(m) && l < Lines(m) && tail <= head <= rounds * Size(m) && 1 + rounds * m.inline < WORD
    ensures Wraps(m, head, l) == Wraps(m, tail, l) == 0
  {
    CountGrows(m, tail, head, l);
    CountGrows(m, head, rounds * Size(m), l);
    CountRounds(m, rounds, l);
    SmallQuotient(1 + Count(m, head, l));
    SmallQuotient(1 + Count(m, tail, l));
  }

  lemma SmallQuotient(x: nat)
    requires x < WORD
    ensures x / WORD == 0
  {
  }

  lemma {:induction false} CountRounds(m: Mode, rounds: nat, l: nat)
    requires Fits(m) && l < Lines(m)
    ensures Count(m, rounds * Size(m), l) == rounds * m.inline
  {
    if rounds == 0 {
      assert 0 * Size(m) == 0;
    } else {
      CountRounds(m, rounds - 1, l);
      CountPeriod(m, (rounds - 1) * Size(m), l);
      assert rounds * Size(m) == (rounds - 1) * Size(m) + Size(m);
      assert rounds * m.inline == (rounds - 1) * m.inline + m.inline;
    }
  }

  /** The words are equal exactly if the counts differ by a multiple of 2^16, so while a line is no more
      than full the test for empty is right; after a missed full and 2^16 visits more it is not. */
  lemma EmptyTestExactly(m: Mode, head: nat, tail: nat)
    requires Fits(m) && tail <= head
    ensures var l := Line(m, tail);
            Shown(m, head, l) == Shown(m, tail, l) <==> Multiple(Count(m, head, l) - Count(m, tail, l))
    ensures head <= tail + Size(m) ==> (Shown(m, head, Line(m, tail)) == Shown(m, tail, Line(m, tail)) <==> head == tail)
  {
    var l := Line(m, tail);
    CountGrows(m, tail, head, l);
    EqualWords(1 + Count(m, head, l), 1 + Count(m, tail, l));
    if head <= tail + Size(m) { EmptyTestNear(m, head, tail); }
  }

  predicate Multiple(d: int) { d % WORD == 0 }

  lemma EqualWords(a: nat, b: nat)
    requires b <= a
    ensures Word(a) == Word(b) <==> Multiple(a - b)
  {
  }

  lemma EmptyTestNear(m: Mode, head: nat, tail: nat)
    requires Fits(m) && tail <= head <= tail + Size(m)
    ensures Shown(m, head, Line(m, tail)) == Shown(m, tail, Line(m, tail)) <==> head == tail
  {
    var l := Line(m, tail);
    NextVisitIs(m, tail);
    EmptyByLine(m, head, tail);
    CountPeriod(m, tail, l);
    CountGrows(m, tail, head, l);
    CountGrows(m, head, tail + Size(m), l);
    SameRemainder(1 + Count(m, tail, l), 1 + Count(m, head, l), WORD);
  }

  lemma ShownNext(m: Mode, n: nat, l: nat)
    requires m.inline > 0
    ensures Shown(m, n + 1, l) == if Line(m, n) == l then Word(Shown(m, n, l) + 1) else Shown(m, n, l)
  {
    WordNext(1 + Count(m, n, l));
  }

  /** All the counters after one line's has gone on by one. */
  lemma ShownStep(m: Mode, before: seq<nat>, after: seq<nat>, n: nat)
    requires m.inline > 0 && |before| == Lines(m) && Line(m, n) < Lines(m)
    requires forall l: nat :: l < |before| ==> before[l] == Shown(m, n, l)
    requires after == before[Line(m, n) := Word(before[Line(m, n)] + 1)]
    ensures forall l: nat :: l < |after| ==> after[l] == Shown(m, n + 1, l)
  {
    forall l: nat | l < |after| ensures after[l] == Shown(m, n + 1, l) { ShownNext(m, n, l); }
  }

  lemma WordNext(n: nat)
    ensures Word(Word(n) + 1) == Word(n + 1)
  {
  }

  // ---------------------------------------------------------------- the class

  class SpscQueue<T> {
    const m: Mode
    var head: nat
    var tail: nat
    const hf2: array<nat>
    const tf2: array<nat>
    const slots: array2<Option<T>>

    ghost var hist: seq<T>       // the pushed values by position
    ghost var producing: bool    // between the claim of a push and its publication
    ghost var written: bool
    ghost var consuming: bool    // between the claim of a pop and its release
    ghost var taken: bool

    /** The positions published, and those released. */
    ghost function Published(): int
      reads this
    {
      if producing then head - 1 else head
    }

    ghost function Released(): int
      reads this
    {
      if consuming then tail - 1 else tail
    }

    ghost predicate Laid()
      reads this
    {
      && Fits(m) && hf2 != tf2 && hf2.Length == tf2.Length == Lines(m)
      && slots.Length0 == Lines(m) && slots.Length1 == m.inline && head == |hist|
    }

    ghost predicate Ordered()
      reads this
    {
      0 <= Released() <= tail <= Published() <= head && head - Released() <= Size(m)
    }

    ghost predicate Counted(a: array<nat>, n: nat)
      reads a
      requires Fits(m)
    {
      a.Length == Lines(m) && forall l: nat :: l < Lines(m) ==> a[l] == Shown(m, n, l)
    }

    ghost predicate Holds(p: nat)
      reads this, slots
      requires Laid() && p < head
    {
      Line(m, p) < Lines(m) && Slot(m, p) < m.inline && slots[Line(m, p), Slot(m, p)] == Some(hist[p])
    }

    /** Nothing is left at position `p`. */
    ghost predicate Gone(p: nat)
      reads this, slots
      requires Laid()
    {
      Line(m, p) < Lines(m) && Slot(m, p) < m.inline && slots[Line(m, p), Slot(m, p)] == None
    }

    ghost predicate Valid()
      reads this, hf2, tf2, slots
    {
      && Laid() && Ordered() && Counted(hf2, Published()) && Counted(tf2, Released())
      && (forall p: nat {:trigger Holds(p)} :: tail <= p < Published() ==> Holds(p))
      && (producing && written ==> Holds(head - 1))
      && (consuming && !taken ==> Holds(tail - 1))
    }

    /** The queue is full, and the counters of the head's line have wrapped unequally often. */
    ghost predicate Misses()
      reads this
      requires Laid() && Ordered()
    {
      var l := Line(m, head);
      head - Released() == Size(m) && Wraps(m, head, l) != Wraps(m, Released(), l)
    }

    /** The values published and not claimed. */
    ghost function Contents(): seq<T>
      reads this
      requires Laid() && Ordered()
    {
      hist[tail..Published()]
    }

    constructor (m: Mode)
      requires m.inline > 0
      ensures Fits(m) ==> Valid()
      ensures this.m == m && head == tail == 0 && hist == [] && !producing && !consuming
      ensures fresh(hf2) && fresh(tf2) && fresh(slots)
    {
      this.m := m;
      head, tail, hist, producing, written, consuming, taken := 0, 0, [], false, false, false, false;
      hf2 := new nat[Lines(m)](_ => 1);
      tf2 := new nat[Lines(m)](_ => 1);
      slots := new Option<T>[Lines(m), m.inline]((_, _) => None);
    }

    // -------------------------------------------------------------- the producer's steps

    /** The test of a push: `false` exactly if the queue is full and the words show it.  Room is something
        that a consumer can only enlarge. */
    method PushTest() returns (room: bool)
      requires Valid() && !producing
      ensures room <==> head - Released() < Size(m) || Misses()
    {
      var li := Line(m, head);
      NextVisitIs(m, head);
      FullTestExactly(m, head, Released());
      room := (hf2[li] as int) - tf2[li] != m.inline;
    }

    method PushClaim(ghost x: T)
      requires Laid() && !producing
      modifies this`head, this`hist, this`producing, this`written
      ensures Laid() && producing && !written && head == old(head) + 1 && hist == old(hist) + [x]
      ensures old(Valid() && head - Released() < Size(m)) ==> Valid()
    {
      head := head + 1;
      hist := hist + [x];
      producing, written := true, false;
      if old(Valid() && head - Released() < Size(m)) {
        forall p: nat | tail <= p < Published() ensures Holds(p) { assert old(Holds(p)); }
        assert consuming && !taken ==> old(Holds(tail - 1));
      }
    }

    method PushWrite(x: T)
      requires Laid() && producing && head > 0 && x == hist[head - 1]
      modifies this`written, slots
      ensures Laid() && producing && written && Holds(head - 1)
      ensures old(Valid()) ==> Valid()
    {
      var p := head - 1;
      var li, si := Line(m, p), Slot(m, p);
      NextVisitIs(m, p);
      SlotBelow(m, p);
      slots[li, si] := Some(x);
      written := true;
      if old(Valid()) { PushKeeps(); }
    }

    /** The other values are elsewhere. */
    twostate lemma PushKeeps()
      requires old(Valid()) && producing && written && old(producing) && old(head) > 0
      requires head == old(head) && tail == old(tail) && hist == old(hist) && consuming == old(consuming) && taken == old(taken)
      requires old(hf2[..]) == hf2[..] && old(tf2[..]) == tf2[..]
      requires Laid() && Holds(head - 1)
      requires forall i, j :: 0 <= i < slots.Length0 && 0 <= j < slots.Length1 && (i != Line(m, head - 1) || j != Slot(m, head - 1)) ==>
                 slots[i, j] == old(slots[i, j])
      ensures Valid()
    {
      var p := head - 1;
      forall q: nat | Released() <= q < p && old(q < head && Holds(q)) ensures Holds(q) {
        SlotsApart(m, q, p);
      }
      forall q: nat | tail <= q < Published() ensures Holds(q) { assert old(Holds(q)); }
      assert consuming && !taken ==> old(Holds(tail - 1));
      assert old(Counted(hf2, Published())) && old(Counted(tf2, Released()));
      assert forall l: nat :: l < Lines(m) ==> hf2[l] == hf2[..][l] && tf2[l] == tf2[..][l];
    }

    method PushPublish()
      requires Laid() && producing && head > 0
      modifies this`producing, hf2
      ensures Laid() && !producing
      ensures old(Valid() && written) ==> Valid()
    {
      var li := Line(m, head - 1);
      NextVisitIs(m, head - 1);
      hf2[li] := Word(hf2[li] + 1);
      producing := false;
      if old(Valid() && written) {
        ShownStep(m, old(hf2[..]), hf2[..], head - 1);
        PublishKeeps();
      }
    }

    twostate lemma PublishKeeps()
      requires old(Valid() && producing && written) && !producing && Laid()
      requires head == old(head) && tail == old(tail) && hist == old(hist) && consuming == old(consuming) && taken == old(taken)
      requires unchanged(tf2) && unchanged(slots) && forall l: nat :: l < |hf2[..]| ==> hf2[..][l] == Shown(m, head, l)
      ensures Valid()
    {
      assert forall l: nat :: l < Lines(m) ==> hf2[l] == hf2[..][l];
      forall q: nat | tail <= q < Published() ensures Holds(q) { assert q < head - 1 ==> old(Holds(q)); }
      assert consuming && !taken ==> old(Holds(tail - 1));
    }

    /** push.  It puts the value at the back exactly if the queue is not full, unless the test misses that it
        is: then it overwrites the oldest value that is not released. */
    method Push(x: T) returns (ok: bool)
      requires Valid() && !producing
      modifies this`head, this`hist, this`producing, this`written, hf2, slots
      ensures Laid() && !producing && (ok ==> head == old(head) + 1)
      ensures !old(Misses()) ==> Valid() && (ok <==> old(head - Released()) < Size(m))
      ensures !old(Misses()) ==> Contents() == if ok then old(Contents()) + [x] else old(Contents())
      ensures old(Misses()) ==> ok && old(Line(m, Released()) < Lines(m) && Slot(m, Released()) < m.inline)
      ensures old(Misses()) ==> slots[old(Line(m, Released())), old(Slot(m, Released()))] == Some(x)
    {
      ok := PushTest();
      if old(Misses()) { SameSlot(m, Released()); }
      if ok { PushPut(x); }
    }

    /** What push does once its test has found room, or has missed that there is none. */
    method PushPut(x: T)
      requires Laid() && !producing
      modifies this`head, this`hist, this`producing, this`written, hf2, slots
      ensures Laid() && !producing && head == old(head) + 1 && hist == old(hist) + [x]
      ensures Line(m, old(head)) < Lines(m) && Slot(m, old(head)) < m.inline
      ensures slots[Line(m, old(head)), Slot(m, old(head))] == Some(x)
      ensures old(Valid() && head - Released() < Size(m)) ==> Valid()
    {
      PushClaim(x);
      PushWrite(x);
      PushPublish();
    }

    // -------------------------------------------------------------- the consumer's steps

    method PopTest() returns (there: bool)
      requires Valid() && !consuming
      ensures there <==> tail < Published()
    {
      var li := Line(m, tail);
      NextVisitIs(m, tail);
      EmptyTestExactly(m, Published(), tail);
      there := hf2[li] != tf2[li];
    }

    method PopClaim()
      requires Valid() && !consuming && tail < Published()
      modifies this`tail, this`consuming, this`taken
      ensures Valid() && consuming && !taken && tail == old(tail) + 1
    {
      assert Holds(tail);
      tail := tail + 1;
      consuming, taken := true, false;
      forall q: nat | tail <= q < Published() ensures Holds(q) { assert old(Holds(q)); }
      assert Holds(tail - 1) by { assert old(Holds(tail)); }
      assert producing && written ==> old(Holds(head - 1));
    }

    method PopTake() returns (x: T)
      requires Valid() && consuming && !taken
      modifies this`taken, slots
      ensures Valid() && consuming && taken && x == hist[tail - 1] && Gone(tail - 1)
    {
      var p := tail - 1;
      assert Holds(p);
      var li, si := Line(m, p), Slot(m, p);
      x := slots[li, si].value;
      slots[li, si] := None;
      taken := true;
      forall q: nat | p < q < head && old(Holds(q)) ensures Holds(q) {
        SlotsApart(m, p, q);
      }
      forall q: nat | tail <= q < Published() ensures Holds(q) { assert old(Holds(q)); }
      assert producing && written ==> old(Holds(head - 1));
    }

    method PopRelease()
      requires Valid() && consuming && taken
      modifies this`consuming, tf2
      ensures Valid() && !consuming
    {
      var li := Line(m, tail - 1);
      NextVisitIs(m, tail - 1);
      tf2[li] := Word(tf2[li] + 1);
      consuming := false;
      ShownStep(m, old(tf2[..]), tf2[..], tail - 1);
      ReleaseKeeps();
    }

    twostate lemma ReleaseKeeps()
      requires old(Valid() && consuming && taken) && !consuming && Laid()
      requires head == old(head) && tail == old(tail) && hist == old(hist) && producing == old(producing) && written == old(written)
      requires unchanged(hf2) && unchanged(slots) && forall l: nat :: l < |tf2[..]| ==> tf2[..][l] == Shown(m, tail, l)
      ensures Valid()
    {
      assert forall l: nat :: l < Lines(m) ==> tf2[l] == tf2[..][l];
      forall q: nat | tail <= q < Published() ensures Holds(q) { assert old(Holds(q)); }
      assert producing && written ==> old(Holds(head - 1));
    }

    /** pop */
    method Pop() returns (x: Option<T>)
      requires Valid() && !consuming
      modifies this`tail, this`consuming, this`taken, tf2, slots
      ensures Valid() && !consuming
      ensures x.None? <==> old(Contents()) == []
      ensures x.None? ==> Contents() == old(Contents())
      ensures x.Some? ==> old(Contents()) == [x.value] + Contents()
      ensures tail == if x.None? then old(tail) else old(tail) + 1
    {
      var there := PopTest();
      if !there { return None; }
      PopClaim();
      var v := PopTake();
      PopRelease();
      return Some(v);
    }

    /** The elements from the tail to the head are destroyed. */
    method ClearSlots()
      requires Laid() && tail <= head
      modifies slots
      ensures forall p: nat {:trigger Gone(p)} :: tail <= p < head ==> Gone(p)
    {
      var i := tail;
      while i != head
        invariant tail <= i <= head
        invariant forall p: nat {:trigger Gone(p)} :: tail <= p < i ==> Gone(p)
      {
        ClearSlot(i);
        i := i + 1;
      }
    }

    method ClearSlot(i: nat)
      requires Laid()
      modifies slots
      ensures Gone(i) && forall p: nat {:trigger Gone(p)} :: old(Gone(p)) ==> Gone(p)
    {
      NextVisitIs(m, i);
      SlotBelow(m, i);
      slots[Line(m, i), Slot(m, i)] := None;
    }

    method ResetCounters()
      requires Laid()
      modifies hf2, tf2
      ensures forall l :: 0 <= l < Lines(m) ==> hf2[l] == tf2[l] == 1
    {
      var li := 0;
      while li < hf2.Length
        invariant 0 <= li <= hf2.Length
        invariant forall l :: 0 <= l < li ==> hf2[l] == tf2[l] == 1
      {
        hf2[li], tf2[li] := 1, 1;
        li := li + 1;
      }
    }

    /** clear, with no call in progress */
    method Clear()
      requires Valid() && !producing && !consuming
      modifies this, hf2, tf2, slots
      ensures Valid() && !producing && !consuming && Contents() == [] && head == tail == 0
      ensures forall p: nat {:trigger Gone(p)} :: old(tail) <= p < old(head) ==> Gone(p)
    {
      ClearSlots();
      label Cleared:
      head, tail, hist := 0, 0, [];
      ResetCounters();
      forall p: nat | old(tail) <= p < old(head) ensures Gone(p) { assert old@Cleared(Gone(p)); }
      FreshValid();
    }

    lemma FreshValid()
      requires Laid() && head == tail == 0 && !producing && !consuming
      requires forall l :: 0 <= l < Lines(m) ==> hf2[l] == tf2[l] == 1
      ensures Valid()
    {
      forall l: nat ensures Shown(m, 0, l) == 1 {}
    }
  }

  // ---------------------------------------------------------------- making a queue

  /** The least number of lines, a power of two, whose slots are `maxSize` or more. */
  method LinesFor(maxSize: nat, inline: nat) returns (s: nat, bits: nat)
    requires inline > 0
    ensures s == inline * Pow2(bits) && s >= maxSize
    ensures forall j: nat :: inline * Pow2(j) >= maxSize ==> bits <= j
  {
    s, bits := inline, 0;
    while s < maxSize
      invariant s > 0 && s == inline * Pow2(bits)
      invariant forall j: nat :: inline * Pow2(j) >= maxSize ==> bits <= j
      decreases maxSize - s
    {
      assert inline * Pow2(bits + 1) == 2 * s by { MulAssoc(2, inline, Pow2(bits)); MulAssoc(inline, 2, Pow2(bits)); }
      s, bits := 2 * s, bits + 1;
    }
  }

  /** The constructor; for a size of 0 it throws.  With blocks the mapping is sound exactly if the size
      needs a whole block of lines. */
  method Create<T>(maxSize: nat, useBlock: bool, inline: nat) returns (q: SpscQueue?<T>)
    requires 0 < inline < WORD
    ensures q == null <==> maxSize == 0
    ensures q != null ==> q.m.inline == inline && q.m.useBlock == useBlock && Size(q.m) >= maxSize
    ensures q != null ==> forall j: nat :: inline * Pow2(j) >= maxSize ==> q.m.bits <= j
    ensures q != null ==> (Fits(q.m) <==> !useBlock || maxSize > 32 * inline)
    ensures q != null && Fits(q.m) ==> q.Valid() && !q.producing && !q.consuming && q.Contents() == []
  {
    if maxSize == 0 { return null; }
    var s, bits := LinesFor(maxSize, inline);
    EnoughLines(maxSize, inline, bits);
    q := new SpscQueue(Mode(useBlock, inline, bits));
  }

  lemma EnoughLines(maxSize: nat, inline: nat, bits: nat)
    requires inline > 0 && inline * Pow2(bits) >= maxSize
    requires forall j: nat :: inline * Pow2(j) >= maxSize ==> bits <= j
    ensures bits >= 6 <==> maxSize > 32 * inline
  {
    assert Pow2(5) == 32;
    if bits < 6 { FewLines(inline, bits); } else { assert !(inline * Pow2(5) >= maxSize); }
  }

  lemma FewLines(inline: nat, bits: nat)
    ensures bits < 6 ==> inline * Pow2(bits) <= 32 * inline
  {
    assert Pow2(5) == 32;
    if bits < 6 {
      Pow2Le(bits, 5);
      assert (32 - Pow2(bits)) * inline == 32 * inline - inline * Pow2(bits);
    }
  }

  // ---------------------------------------------------------------- runs of a producer and a consumer

  /** A producer that pushes the values in order: `p` is its place, 0 before a test to 3 before the
      publication. */
  ghost predicate Producing<T>(q: SpscQueue<T>, p: nat, values: seq<T>)
    reads q, q.hf2, q.tf2, q.slots
  {
    && q.Valid() && p <= 3 && q.head <= |values| && q.hist == values[..q.head]
    && q.producing == (p >= 2) && (p >= 2 ==> q.written == (p == 3))
    && (p == 1 ==> q.head < |values| && q.head - q.Released() < Size(q.m))
  }

  /** A consumer that has popped `out`: `c` is its place, 0 before a test to 3 before the release. */
  ghost predicate Consuming<T>(q: SpscQueue<T>, c: nat, out: seq<T>)
    reads q, q.hf2, q.tf2, q.slots
  {
    && q.Valid() && c <= 3
    && q.consuming == (c >= 2) && (c >= 2 ==> q.taken == (c == 3))
    && (c == 1 ==> q.tail < q.Published())
    && |out| == q.tail - (if c == 2 then 1 else 0) && out == q.hist[..|out|]
  }

  /** One step of the producer, unless its test misses that the queue is full. */
  method RunProducer<T>(q: SpscQueue<T>, p: nat, values: seq<T>, c: nat, ghost out: seq<T>)
    returns (p': nat, missed: bool)
    requires Producing(q, p, values) && Consuming(q, c, out)
    modifies q, q.hf2, q.slots
    ensures Producing(q, p', values) && Consuming(q, c, out)
    ensures (missed ==> q.Misses()) && (missed <==> old(p == 0 && q.head < |values| && q.Misses()))
  {
    p', missed := p, false;
    if p == 0 {
      if q.head < |values| { p', missed := RunTest(q, values, c, out); }
    } else if p == 1 {
      q.PushClaim(values[q.head]);
      p' := 2;
    } else if p == 2 {
      q.PushWrite(values[q.head - 1]);
      p' := 3;
    } else {
      q.PushPublish();
      p' := 0;
    }
  }

  method RunTest<T>(q: SpscQueue<T>, values: seq<T>, c: nat, ghost out: seq<T>) returns (p: nat, missed: bool)
    requires Producing(q, 0, values) && Consuming(q, c, out) && q.head < |values|
    ensures Producing(q, p, values) && (missed <==> q.Misses())
  {
    var room := q.PushTest();
    missed := room && q.head - (if c >= 2 then q.tail - 1 else q.tail) == Size(q.m);
    p := if room && !missed then 1 else 0;
  }

  method RunConsumer<T>(q: SpscQueue<T>, c: nat, out: seq<T>, ghost p: nat, ghost values: seq<T>)
    returns (c': nat, out': seq<T>)
    requires Producing(q, p, values) && Consuming(q, c, out)
    modifies q, q.tf2, q.slots
    ensures Producing(q, p, values) && Consuming(q, c', out')
  {
    c', out' := c, out;
    if c == 0 {
      var there := q.PopTest();
      if there { c' := 1; }
    } else if c == 1 {
      q.PopClaim();
      c' := 2;
    } else if c == 2 {
      var x := q.PopTake();
      out' := out + [x];
      c' := 3;
    } else {
      q.PopRelease();
      c' := 0;
    }
  }

  method RunOne<T>(q: SpscQueue<T>, p: nat, c: nat, values: seq<T>, out: seq<T>, producer: bool)
    returns (p': nat, c': nat, out': seq<T>, missed: bool)
    requires Producing(q, p, values) && Consuming(q, c, out)
    modifies q, q.hf2, q.tf2, q.slots
    ensures Producing(q, p', values) && Consuming(q, c', out') && (missed ==> q.Misses())
  {
    p', c', out', missed := p, c, out, false;
    if producer { p', missed := RunProducer(q, p, values, c, out); }
    else { c', out' := RunConsumer(q, c, out, p, values); }
  }

  lemma RunMeans<T>(q: SpscQueue<T>, p: nat, c: nat, values: seq<T>, out: seq<T>)
    requires Producing(q, p, values) && Consuming(q, c, out)
    ensures |out| <= q.head <= |values| && q.head <= |out| + Size(q.m) && out == values[..|out|]
    ensures q.Misses() ==>
              forall rounds: nat :: 1 + rounds * q.m.inline < WORD ==> q.head > rounds * Size(q.m)
  {
    if q.Misses() { LateMiss(q.m, q.head, q.Released()); }
  }

  /** A fresh queue, a producer that pushes `values` in order and tries again when the queue is full, and
      a consumer that pops: `schedule` says at each step which of them runs.  In every run the popped
      values are a beginning of the pushed ones, in their order, and at most the size behind, up to the
      first push whose test misses that the queue is full; there is none in the rounds that fit into 16 bits. */
  method Run<T>(m: Mode, values: seq<T>, schedule: seq<bool>) returns (out: seq<T>, pushed: nat, missed: bool)
    requires Fits(m)
    ensures |out| <= pushed <= |values| && pushed <= |out| + Size(m)
    ensures out == values[..|out|]
    ensures missed ==> forall rounds: nat :: 1 + rounds * m.inline < WORD ==> pushed > rounds * Size(m)
  {
    var q := new SpscQueue(m);
    var p, c := 0, 0;
    out, missed := [], false;
    var i := 0;
    while i < |schedule| && !missed
      invariant 0 <= i <= |schedule|
      invariant fresh(q) && fresh(q.hf2) && fresh(q.tf2) && fresh(q.slots) && q.m == m
      invariant Producing(q, p, values) && Consuming(q, c, out) && (missed ==> q.Misses())
    {
      p, c, out, missed := RunOne(q, p, c, values, out, schedule[i]);
      i := i + 1;
    }
    RunMeans(q, p, c, values, out);
    pushed := q.head;
  }

  lemma LateMiss(m: Mode, head: nat, tail: nat)
    requires Fits(m) && tail <= head && Wraps(m, head, Line(m, head)) != Wraps(m, tail, Line(m, head))
    ensures forall rounds: nat :: 1 + rounds * m.inline < WORD ==> head > rounds * Size(m)
  {
    NextVisitIs(m, head);
    forall rounds: nat | 1 + rounds * m.inline < WORD ensures head > rounds * Size(m) {
      if head <= rounds * Size(m) { EarlyIsExact(m, head, tail, Line(m, head), rounds); }
    }
  }

  lemma SlotBelow(m: Mode, n: nat)
    requires Fits(m)
    ensures Slot(m, n) < m.inline
  {
    NextVisitIs(m, n);
  }

  // ---------------------------------------------------------------- the missed full

  /** As many pops that a queue full after them has a head counter that has just wrapped. */
  function FirstMiss(m: Mode): nat
    requires Fits(m)
  {
    Visit(m, 0, WORD - 1 - m.inline)
  }

  lemma FirstMissMeans(m: Mode)
    requires Fits(m)
    ensures var head := FirstMiss(m) + Size(m);
            Wraps(m, head, Line(m, head)) == 1 && Wraps(m, FirstMiss(m), Line(m, head)) == 0
  {
    Pow2Le(0, m.bits);
    var k := WORD - 1 - m.inline;
    VisitPlace(m, 0, k);
    SameSlot(m, FirstMiss(m));
    CountOfVisit(m, 0, k);
    CountPeriod(m, FirstMiss(m), 0);
  }

  lemma CountOfVisit(m: Mode, l: nat, k: nat)
    requires Fits(m) && l < Lines(m)
    ensures Count(m, Visit(m, l, k), l) == k
  {
    if k > 0 { VisitNext(m, l, k - 1); }
    CountUnique(m, Visit(m, l, k), l, k);
  }

  /** Pushes and pops in turn, each of which succeeds. */
  method PushAndPop<T>(q: SpscQueue<T>, x: T, rounds: nat)
    requires q.Valid() && !q.producing && !q.consuming && q.head == q.tail && Size(q.m) > 0
    modifies q, q.hf2, q.tf2, q.slots
    ensures q.Valid() && !q.producing && !q.consuming && q.head == q.tail == old(q.tail) + rounds
  {
    var i := 0;
    while i < rounds
      invariant 0 <= i <= rounds && q.Valid() && !q.producing && !q.consuming && q.head == q.tail == old(q.tail) + i
    {
      var ok := q.Push(x);
      var y := q.Pop();
      i := i + 1;
    }
  }

  /** Pushes alone, each of which succeeds while there is room. */
  method PushMany<T>(q: SpscQueue<T>, x: T, n: nat)
    requires q.Valid() && !q.producing && !q.consuming && q.head - q.tail + n <= Size(q.m)
    modifies q, q.hf2, q.slots
    ensures q.Valid() && !q.producing && !q.consuming && q.head == old(q.head) + n && q.tail == old(q.tail)
  {
    var i := 0;
    while i < n
      invariant 0 <= i <= n && q.Valid() && !q.producing && !q.consuming
      invariant q.head == old(q.head) + i && q.tail == old(q.tail)
    {
      var ok := q.Push(x);
      i := i + 1;
    }
  }

  /** In every mode there is a run of calls to a queue that is full and whose test says that it is not. */
  method FullMissed<T>(m: Mode, x: T) returns (q: SpscQueue<T>)
    requires Fits(m)
    ensures fresh(q) && q.m == m && q.Valid() && !q.producing && !q.consuming && q.Misses()
    ensures q.head == FirstMiss(m) + Size(m) && q.tail == FirstMiss(m)
  {
    q := new SpscQueue(m);
    Pow2Le(0, m.bits);
    MulBounds(m.inline, Lines(m));
    PushAndPop(q, x, FirstMiss(m));
    PushMany(q, x, Size(m));
    FirstMissMeans(m);
  }
}
