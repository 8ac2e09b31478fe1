/** try_push and try_pop of AtomicQueue and AtomicQueue2 with many producers and consumers
    (queue-bench/atomic_queue.h:176-315): positions are claimed by compare-and-swap on two counters, and
    values are handed over cell by cell.  One shared access of one thread per step. `pushed` and `popped`
    (the values of the completed calls) are history variables, and so is the thread in a busy state. */
module AtomicQueue {
  import opened Counting
  import opened Remap
  import opened Word32

  type Tid = nat

  /** The states of AtomicQueue2; for AtomicQueue a cell that holds NIL is `Empty` and any other
      `Stored`. */
  datatype Phase = Empty | Storing(who: Tid) | Stored | Loading(who: Tid)

  datatype Cell<T> = Cell(phase: Phase, element: T)

  datatype PC<T> =
    | Idle
    | PushLoad(value: T)
    | PushTest(value: T, h: nat)
    | PushCas(value: T, h: nat)
    | PushCell(value: T, c: nat)
    | PushWrite(value: T, c: nat)
    | PushPublish(value: T, c: nat)
    | PopLoad
    | PopTest(h: nat)
    | PopCas(h: nat)
    | PopCell(c: nat)
    | PopRead(c: nat)
    | PopRelease(value: T, c: nat)

  datatype State<T> = State(
    atomic: bool,            // AtomicQueue or AtomicQueue2
    size: nat,
    bits: nat,
    head: nat,
    tail: nat,
    cells: seq<Cell<T>>,
    pcs: seq<PC<T>>,
    pushed: multiset<T>,
    popped: multiset<T>)

  datatype Event<T> = TryPush(t: Tid, value: T) | TryPop(t: Tid) | Run(t: Tid)

  // ---------------------------------------------------------------- the machine

  function Move<T>(s: State<T>, t: Tid, pc: PC<T>): State<T>
    requires t < |s.pcs|
  {
    s.(pcs := s.pcs[t := pc])
  }

  function Put<T>(s: State<T>, c: nat, phase: Phase, element: T): State<T>
    requires c < |s.cells|
  {
    s.(cells := s.cells[c := Cell(phase, element)])
  }

  ghost predicate Shaped(s: State) { Layout(s.size, s.bits) && |s.cells| == s.size }

  /** Lines 279-297 up to the claim, and do_push_atomic and do_push_any, lines 202-219 and 251-276. */
  ghost function Push<T>(s: State<T>, t: Tid, pc: PC<T>): (r: State<T>)
    requires Shaped(s) && t < |s.pcs|
    ensures Shaped(r) && |r.pcs| == |s.pcs|
  {
    match pc
    case PushLoad(v) => Move(s, t, PushTest(v, s.head))
    case PushTest(v, h) => Move(s, t, if h - s.tail >= s.size then Idle else PushCas(v, h))
    case PushCas(v, h) =>
      if s.head == h then Move(s.(head := h + 1), t, PushCell(v, Remap.Cell(s.size, s.bits, h)))
      else Move(s, t, PushTest(v, s.head))
    case PushCell(v, c) =>
      if c < s.size && s.cells[c].phase == Empty then
        if s.atomic then Move(Put(s, c, Stored, v).(pushed := s.pushed + multiset{v}), t, Idle)
        else Move(Put(s, c, Storing(t), s.cells[c].element), t, PushWrite(v, c))
      else s
    case PushWrite(v, c) =>
      if c < s.size then Move(Put(s, c, s.cells[c].phase, v), t, PushPublish(v, c)) else s
    case PushPublish(v, c) =>
      if c < s.size then
        Move(Put(s, c, Stored, s.cells[c].element).(pushed := s.pushed + multiset{v}), t, Idle)
      else s
    case _ => s
  }

  /** Lines 299-315 up to the claim, and do_pop_atomic and do_pop_any, lines 176-200 and 223-249. */
  ghost function Pop<T>(s: State<T>, t: Tid, pc: PC<T>): (r: State<T>)
    requires Shaped(s) && t < |s.pcs|
    ensures Shaped(r) && |r.pcs| == |s.pcs|
  {
    match pc
    case PopLoad => Move(s, t, PopTest(s.tail))
    case PopTest(h) => Move(s, t, if s.head - h <= 0 then Idle else PopCas(h))
    case PopCas(h) =>
      if s.tail == h then Move(s.(tail := h + 1), t, PopCell(Remap.Cell(s.size, s.bits, h)))
      else Move(s, t, PopTest(s.tail))
    case PopCell(c) =>
      if c < s.size && s.cells[c].phase == Stored then
        if s.atomic then
          Move(Put(s, c, Empty, s.cells[c].element).(popped := s.popped + multiset{s.cells[c].element}), t, Idle)
        else Move(Put(s, c, Loading(t), s.cells[c].element), t, PopRead(c))
      else s
    case PopRead(c) => if c < s.size then Move(s, t, PopRelease(s.cells[c].element, c)) else s
    case PopRelease(v, c) =>
      if c < s.size then
        Move(Put(s, c, Empty, s.cells[c].element).(popped := s.popped + multiset{v}), t, Idle)
      else s
    case _ => s
  }

  predicate Pushes<T>(pc: PC<T>) {
    pc.PushLoad? || pc.PushTest? || pc.PushCas? || pc.PushCell? || pc.PushWrite? || pc.PushPublish?
  }

  ghost function Next<T>(s: State<T>, e: Event<T>): (r: State<T>)
    requires Shaped(s)
    ensures Shaped(r) && |r.pcs| == |s.pcs|
  {
    if e.t >= |s.pcs| then s
    else
      match e
      case TryPush(t, v) => if s.pcs[t].Idle? then Move(s, t, PushLoad(v)) else s
      case TryPop(t) => if s.pcs[t].Idle? then Move(s, t, PopLoad) else s
      case Run(t) => if Pushes(s.pcs[t]) then Push(s, t, s.pcs[t]) else Pop(s, t, s.pcs[t])
  }

  ghost function Exec<T>(s: State<T>, es: seq<Event<T>>): (r: State<T>)
    requires Shaped(s)
    ensures Shaped(r) && |r.pcs| == |s.pcs|
  {
    if es == [] then s else Next(Exec(s, es[..|es| - 1]), es[|es| - 1])
  }

  ghost predicate Initial(s: State) {
    && Shaped(s) && s.head == s.tail == 0 && s.pushed == s.popped == multiset{}
    && (forall c :: 0 <= c < s.size ==> s.cells[c].phase == Empty)
    && forall t: Tid :: t < |s.pcs| ==> s.pcs[t].Idle?
  }

  // ---------------------------------------------------------------- the invariant

  /** The thread has claimed a position of cell `c` and has not finished there. */
  predicate PushPending<T>(pc: PC<T>, c: nat) { (pc.PushCell? || pc.PushWrite? || pc.PushPublish?) && pc.c == c }

  predicate PopPending<T>(pc: PC<T>, c: nat) { (pc.PopCell? || pc.PopRead? || pc.PopRelease?) && pc.c == c }

  function PushesAt<T>(c: nat): PC<T> -> bool { (pc: PC<T>) => PushPending(pc, c) }

  function PopsAt<T>(c: nat): PC<T> -> bool { (pc: PC<T>) => PopPending(pc, c) }

  function Held(phase: Phase): nat { if phase.Stored? || phase.Loading? then 1 else 0 }

  /** How many of the positions below `n` have cell `c`. */
  ghost function Claims(size: nat, bits: nat, n: nat, c: nat): nat
    requires Layout(size, bits)
  {
    if n == 0 then 0 else Claims(size, bits, n - 1, c) + if Remap.Cell(size, bits, n - 1) == c then 1 else 0
  }

  /** What is in a cell, plus what is coming, minus what is spoken for, is the number of positions
      between the counters that have the cell. */
  ghost predicate Balanced<T>(s: State<T>, c: nat)
    requires Shaped(s)
  {
    c < s.size ==>
      Held(s.cells[c].phase) + Count(s.pcs, PushesAt(c)) - Count(s.pcs, PopsAt(c)) ==
      Claims(s.size, s.bits, s.head, c) - Claims(s.size, s.bits, s.tail, c)
  }

  predicate Busy<T>(s: State<T>, t: Tid, pc: PC<T>) {
    match pc
    case PushWrite(_, c) => !s.atomic && c < |s.cells| && s.cells[c].phase == Storing(t)
    case PushPublish(v, c) => !s.atomic && c < |s.cells| && s.cells[c].phase == Storing(t) && s.cells[c].element == v
    case PopRead(c) => !s.atomic && c < |s.cells| && s.cells[c].phase == Loading(t)
    case PopRelease(v, c) => !s.atomic && c < |s.cells| && s.cells[c].phase == Loading(t) && s.cells[c].element == v
    case PushCell(_, c) => c < |s.cells|
    case PopCell(c) => c < |s.cells|
    case PushTest(_, h) => h <= s.head
    case PushCas(_, h) => h <= s.head && h - s.tail < s.size
    case PopTest(h) => h <= s.tail
    case PopCas(h) => h <= s.tail && h < s.head
    case _ => true
  }

  /** The thread that a busy cell names is there. */
  predicate Named<T>(s: State<T>, c: nat) {
    c < |s.cells| ==>
      match s.cells[c].phase
      case Storing(t) => t < |s.pcs| && (s.pcs[t].PushWrite? || s.pcs[t].PushPublish?) && s.pcs[t].c == c
      case Loading(t) => t < |s.pcs| && (s.pcs[t].PopRead? || s.pcs[t].PopRelease?) && s.pcs[t].c == c
      case _ => true
  }

  ghost predicate ThreadsInv<T>(s: State<T>) {
    && (forall t: Tid {:trigger Busy(s, t, s.pcs[t])} :: t < |s.pcs| ==> Busy(s, t, s.pcs[t]))
    && (forall c: nat {:trigger Named(s, c)} :: Named(s, c))
  }

  ghost function Own<T>(cell: Cell<T>): multiset<T> {
    if Held(cell.phase) == 1 then multiset{cell.element} else multiset{}
  }

  /** The elements in the cells that hold one. */
  ghost function Bag<T>(cells: seq<Cell<T>>): multiset<T> {
    if cells == [] then multiset{} else Bag(cells[..|cells| - 1]) + Own(cells[|cells| - 1])
  }

  ghost predicate Inv<T>(s: State<T>) {
    && Shaped(s) && s.tail <= s.head <= s.tail + s.size
    && (forall c: nat {:trigger Balanced(s, c)} :: Balanced(s, c))
    && ThreadsInv(s)
    && s.pushed == s.popped + Bag(s.cells)
  }

  // ---------------------------------------------------------------- balance

  lemma Reorder<T>(a: multiset<T>, b: multiset<T>, c: multiset<T>)
    ensures a + b + c == a + c + b
  {
  }

  lemma AddBoth<T>(a: multiset<T>, b: multiset<T>, c: multiset<T>)
    requires a == b
    ensures a + c == b + c
  {
  }

  lemma {:induction false} BagUpdate<T>(cells: seq<Cell<T>>, c: nat, x: Cell<T>)
    requires c < |cells|
    ensures Bag(cells[c := x]) + Own(cells[c]) == Bag(cells) + Own(x)
  {
    var k := |cells| - 1;
    if c < k {
      BagUpdate(cells[..k], c, x);
      assert cells[c := x][..k] == cells[..k][c := x];
      AddBoth(Bag(cells[..k][c := x]) + Own(cells[c]), Bag(cells[..k]) + Own(x), Own(cells[k]));
      Reorder(Bag(cells[..k][c := x]), Own(cells[c]), Own(cells[k]));
      Reorder(Bag(cells[..k]), Own(x), Own(cells[k]));
    } else {
      assert cells[c := x][..k] == cells[..k];
    }
  }

  /** The position after a window shorter than the ring has a cell that the window does not. */
  lemma {:induction false} NextCellIsFree(size: nat, bits: nat, a: nat, b: nat, c: nat)
    requires Layout(size, bits) && a <= b < a + size
    ensures Claims(size, bits, b, c) >= Claims(size, bits, a, c)
    ensures Claims(size, bits, b, c) > Claims(size, bits, a, c) ==> Remap.Cell(size, bits, b) != c
    decreases b - a
  {
    if a < b {
      CellsApart(size, bits, a, b);
      NextCellIsFree(size, bits, a + 1, b, c);
    }
  }

  /** At most one of the positions in a window of the ring has a given cell. */
  lemma {:induction false} ClaimsInWindow(size: nat, bits: nat, a: nat, b: nat, c: nat)
    requires Layout(size, bits) && a <= b <= a + size
    ensures 0 <= Claims(size, bits, b, c) - Claims(size, bits, a, c) <= 1
    decreases b - a
  {
    if a < b {
      ClaimsInWindow(size, bits, a, b - 1, c);
      NextCellIsFree(size, bits, a, b - 1, c);
    }
  }

  /** A thread moves without a claim before or after. */
  lemma PassBalanced<T>(s: State<T>, t: Tid, pc: PC<T>)
    requires Shaped(s) && t < |s.pcs|
    requires forall c: nat {:trigger Balanced(s, c)} :: Balanced(s, c)
    requires forall c: nat :: PushPending(pc, c) == PushPending(s.pcs[t], c) && PopPending(pc, c) == PopPending(s.pcs[t], c)
    ensures forall c: nat {:trigger Balanced(Move(s, t, pc), c)} :: Balanced(Move(s, t, pc), c)
  {
    forall c: nat ensures Balanced(Move(s, t, pc), c) {
      assert Balanced(s, c);
      CountUpdate(s.pcs, t, pc, PushesAt(c));
      CountUpdate(s.pcs, t, pc, PopsAt(c));
    }
  }

  function Weight<T>(pc: PC<T>, c: nat): int {
    (if PushPending(pc, c) then 1 else 0) - (if PopPending(pc, c) then 1 else 0)
  }

  /** A thread works at its cell. */
  lemma CellBalanced<T>(s: State<T>, t: Tid, pc: PC<T>, c: nat, phase: Phase, element: T)
    requires Shaped(s) && t < |s.pcs| && c < s.size
    requires forall d: nat {:trigger Balanced(s, d)} :: Balanced(s, d)
    requires Held(phase) + Weight(pc, c) == Held(s.cells[c].phase) + Weight(s.pcs[t], c)
    requires forall d: nat :: d != c ==> Weight(pc, d) == 0 == Weight(s.pcs[t], d)
    ensures var r := Move(Put(s, c, phase, element), t, pc);
            forall d: nat {:trigger Balanced(r, d)} :: Balanced(r, d)
  {
    var r := Move(Put(s, c, phase, element), t, pc);
    forall d: nat ensures Balanced(r, d) {
      assert Balanced(s, d);
      CountUpdate(s.pcs, t, pc, PushesAt(d));
      CountUpdate(s.pcs, t, pc, PopsAt(d));
      if d != c { assert Weight(pc, d) == Weight(s.pcs[t], d); }
    }
  }

  /** A claim of the position at the head or at the tail. */
  lemma ClaimBalanced<T>(s: State<T>, t: Tid, pc: PC<T>, push: bool)
    requires Shaped(s) && t < |s.pcs|
    requires forall d: nat {:trigger Balanced(s, d)} :: Balanced(s, d)
    requires var c := Remap.Cell(s.size, s.bits, if push then s.head else s.tail);
             forall d: nat :: Weight(s.pcs[t], d) == 0 && Weight(pc, d) == if d != c then 0 else if push then 1 else -1
    ensures var r := Move(if push then s.(head := s.head + 1) else s.(tail := s.tail + 1), t, pc);
            forall d: nat {:trigger Balanced(r, d)} :: Balanced(r, d)
  {
    var r := Move(if push then s.(head := s.head + 1) else s.(tail := s.tail + 1), t, pc);
    forall d: nat ensures Balanced(r, d) {
      assert Balanced(s, d);
      CountUpdate(s.pcs, t, pc, PushesAt(d));
      CountUpdate(s.pcs, t, pc, PopsAt(d));
      assert Weight(s.pcs[t], d) == 0;
      assert Weight(pc, d) == 0 || Weight(pc, d) == 1 || Weight(pc, d) == -1;
    }
  }

  // ---------------------------------------------------------------- the threads' places

  /** The other threads do not mind a step at a cell that no one but `t` may keep busy. */
  lemma CellThreads<T>(s: State<T>, t: Tid, pc: PC<T>, c: nat, phase: Phase, element: T)
    requires ThreadsInv(s) && t < |s.pcs| && c < |s.cells|
    requires phase == Empty || phase == Stored || phase == Storing(t) || phase == Loading(t)
    requires s.cells[c].phase == Empty || s.cells[c].phase == Stored || s.cells[c].phase == Storing(t) ||
             s.cells[c].phase == Loading(t)
    requires (s.pcs[t].PushWrite? || s.pcs[t].PushPublish? || s.pcs[t].PopRead? || s.pcs[t].PopRelease?) ==> s.pcs[t].c == c
    requires var r := Move(Put(s, c, phase, element), t, pc); Busy(r, t, pc) && Named(r, c)
    ensures ThreadsInv(Move(Put(s, c, phase, element), t, pc))
  {
    var r := Move(Put(s, c, phase, element), t, pc);
    forall u: Tid | u < |s.pcs| ensures Busy(r, u, r.pcs[u]) { assert Busy(s, u, s.pcs[u]); }
    forall d: nat ensures Named(r, d) { assert Named(s, d); }
  }

  /** A thread moves and the cells stay. */
  lemma PassThreads<T>(s: State<T>, r: State<T>, t: Tid)
    requires ThreadsInv(s) && t < |s.pcs| == |r.pcs| && r.pcs == s.pcs[t := r.pcs[t]]
    requires r.atomic == s.atomic && r.size == s.size && r.cells == s.cells && r.head >= s.head && r.tail >= s.tail
    requires Busy(r, t, r.pcs[t])
    requires forall c: nat :: c < |s.cells| ==> s.cells[c].phase != Storing(t) && s.cells[c].phase != Loading(t)
    ensures ThreadsInv(r)
  {
    forall u: Tid | u < |s.pcs| ensures Busy(r, u, r.pcs[u]) { assert Busy(s, u, s.pcs[u]); }
    forall d: nat ensures Named(r, d) { assert Named(s, d); }
  }

  /** A thread that is not busy at a cell is named by none. */
  lemma NotNamed<T>(s: State<T>, t: Tid)
    requires ThreadsInv(s) && t < |s.pcs|
    ensures !(s.pcs[t].PushWrite? || s.pcs[t].PushPublish?) ==>
              forall c: nat :: c < |s.cells| ==> s.cells[c].phase != Storing(t)
    ensures !(s.pcs[t].PopRead? || s.pcs[t].PopRelease?) ==>
              forall c: nat :: c < |s.cells| ==> s.cells[c].phase != Loading(t)
  {
    forall c: nat | c < |s.cells|
      ensures !(s.pcs[t].PushWrite? || s.pcs[t].PushPublish?) ==> s.cells[c].phase != Storing(t)
      ensures !(s.pcs[t].PopRead? || s.pcs[t].PopRelease?) ==> s.cells[c].phase != Loading(t)
    {
      assert Named(s, c);
    }
  }

  // ---------------------------------------------------------------- every step

  /** The thread has claimed a position and not finished there. */
  predicate Pending<T>(pc: PC<T>) {
    pc.PushCell? || pc.PushWrite? || pc.PushPublish? || pc.PopCell? || pc.PopRead? || pc.PopRelease?
  }

  /** The steps before a claim. */
  lemma PassKeeps<T>(s: State<T>, t: Tid, pc: PC<T>)
    requires Inv(s) && t < |s.pcs| && Busy(s, t, pc) && !Pending(pc) && !Pending(s.pcs[t])
    ensures Inv(Move(s, t, pc))
  {
    PassBalanced(s, t, pc);
    NotNamed(s, t);
    PassThreads(s, Move(s, t, pc), t);
  }

  lemma ClaimKeeps<T>(s: State<T>, t: Tid, push: bool)
    requires Inv(s) && t < |s.pcs|
    requires if push then s.pcs[t].PushCas? && s.pcs[t].h == s.head else s.pcs[t].PopCas? && s.pcs[t].h == s.tail
    ensures Inv(if push then Push(s, t, s.pcs[t]) else Pop(s, t, s.pcs[t]))
  {
    assert Busy(s, t, s.pcs[t]);
    var c := Remap.Cell(s.size, s.bits, s.pcs[t].h);
    var pc := if push then PushCell(s.pcs[t].value, c) else PopCell(c);
    var r := Move(if push then s.(head := s.head + 1) else s.(tail := s.tail + 1), t, pc);
    ClaimBalanced(s, t, pc, push);
    NotNamed(s, t);
    PassThreads(s, r, t);
  }

  /** What completes is what leaves or enters the cells. */
  lemma Conserve<T>(pushed: multiset<T>, popped: multiset<T>, bag: multiset<T>, bag': multiset<T>,
                    own: multiset<T>, own': multiset<T>, dPush: multiset<T>, dPop: multiset<T>)
    requires pushed == popped + bag && bag' + own == bag + own' && dPush + own == dPop + own'
    ensures pushed + dPush == popped + dPop + bag'
  {
    forall x ensures (pushed + dPush)[x] == (popped + dPop + bag')[x] {
      assert (bag' + own)[x] == (bag + own')[x];
      assert (dPush + own)[x] == (dPop + own')[x];
    }
  }

  /** A step at the thread's own cell: `dPush` and `dPop` are what completes by it. */
  lemma WorkKeeps<T>(s: State<T>, t: Tid, pc: PC<T>, c: nat, x: Cell<T>, dPush: multiset<T>, dPop: multiset<T>)
    requires Inv(s) && t < |s.pcs| && c < s.size
    requires Pending(s.pcs[t]) && s.pcs[t].c == c && (Pending(pc) ==> pc.c == c)
    requires Held(x.phase) + Weight(pc, c) == Held(s.cells[c].phase) + Weight(s.pcs[t], c)
    requires x.phase == Empty || x.phase == Stored || x.phase == Storing(t) || x.phase == Loading(t)
    requires var p := s.cells[c].phase; p == Empty || p == Stored || p == Storing(t) || p == Loading(t)
    requires var m := Move(Put(s, c, x.phase, x.element), t, pc); Busy(m, t, pc) && Named(m, c)
    requires dPush + Own(s.cells[c]) == dPop + Own(x)
    ensures Inv(Move(Put(s, c, x.phase, x.element), t, pc).(pushed := s.pushed + dPush, popped := s.popped + dPop))
  {
    var m := Move(Put(s, c, x.phase, x.element), t, pc);
    var r := m.(pushed := s.pushed + dPush, popped := s.popped + dPop);
    CellBalanced(s, t, pc, c, x.phase, x.element);
    CellThreads(s, t, pc, c, x.phase, x.element);
    AnyHistory(r, m);
    BagUpdate(s.cells, c, x);
    Conserve(s.pushed, s.popped, Bag(s.cells), Bag(r.cells), Own(s.cells[c]), Own(x), dPush, dPop);
  }

  /** The balance and the threads do not depend on the histories. */
  lemma AnyHistory<T>(r: State<T>, m: State<T>)
    requires Shaped(m) && m == r.(pushed := m.pushed, popped := m.popped)
    requires (forall d: nat {:trigger Balanced(m, d)} :: Balanced(m, d)) && ThreadsInv(m)
    ensures Shaped(r) && (forall d: nat {:trigger Balanced(r, d)} :: Balanced(r, d)) && ThreadsInv(r)
  {
    forall d: nat ensures Balanced(r, d) { assert Balanced(m, d); }
    forall u: Tid | u < |r.pcs| ensures Busy(r, u, r.pcs[u]) { assert Busy(m, u, m.pcs[u]); }
    forall d: nat ensures Named(r, d) { assert Named(m, d); }
  }

  lemma PushCellKeeps<T>(s: State<T>, t: Tid)
    requires Inv(s) && t < |s.pcs| && s.pcs[t].PushCell?
    ensures Inv(Push(s, t, s.pcs[t]))
  {
    var v, c := s.pcs[t].value, s.pcs[t].c;
    assert Busy(s, t, s.pcs[t]);
    assert s.pushed + multiset{} == s.pushed && s.popped + multiset{} == s.popped;
    if s.cells[c].phase == Empty {
      if s.atomic { WorkKeeps(s, t, Idle, c, Cell(Stored, v), multiset{v}, multiset{}); }
      else { WorkKeeps(s, t, PushWrite(v, c), c, Cell(Storing(t), s.cells[c].element), multiset{}, multiset{}); }
    }
  }

  lemma PushWriteKeeps<T>(s: State<T>, t: Tid)
    requires Inv(s) && t < |s.pcs| && s.pcs[t].PushWrite?
    ensures Inv(Push(s, t, s.pcs[t]))
  {
    var v, c := s.pcs[t].value, s.pcs[t].c;
    assert Busy(s, t, s.pcs[t]);
    assert s.pushed + multiset{} == s.pushed && s.popped + multiset{} == s.popped;
    WorkKeeps(s, t, PushPublish(v, c), c, Cell(s.cells[c].phase, v), multiset{}, multiset{});
  }

  lemma PushPublishKeeps<T>(s: State<T>, t: Tid)
    requires Inv(s) && t < |s.pcs| && s.pcs[t].PushPublish?
    ensures Inv(Push(s, t, s.pcs[t]))
  {
    var v, c := s.pcs[t].value, s.pcs[t].c;
    assert Busy(s, t, s.pcs[t]);
    assert s.popped + multiset{} == s.popped;
    WorkKeeps(s, t, Idle, c, Cell(Stored, s.cells[c].element), multiset{v}, multiset{});
  }

  lemma PopCellKeeps<T>(s: State<T>, t: Tid)
    requires Inv(s) && t < |s.pcs| && s.pcs[t].PopCell?
    ensures Inv(Pop(s, t, s.pcs[t]))
  {
    var c := s.pcs[t].c;
    assert Busy(s, t, s.pcs[t]);
    assert s.pushed + multiset{} == s.pushed && s.popped + multiset{} == s.popped;
    if s.cells[c].phase == Stored {
      var v := s.cells[c].element;
      if s.atomic { WorkKeeps(s, t, Idle, c, Cell(Empty, v), multiset{}, multiset{v}); }
      else { WorkKeeps(s, t, PopRead(c), c, Cell(Loading(t), v), multiset{}, multiset{}); }
    }
  }

  lemma PopReadKeeps<T>(s: State<T>, t: Tid)
    requires Inv(s) && t < |s.pcs| && s.pcs[t].PopRead?
    ensures Inv(Pop(s, t, s.pcs[t]))
  {
    var c := s.pcs[t].c;
    assert Busy(s, t, s.pcs[t]);
    assert s.pushed + multiset{} == s.pushed && s.popped + multiset{} == s.popped;
    assert s.cells[c := s.cells[c]] == s.cells;
    WorkKeeps(s, t, PopRelease(s.cells[c].element, c), c, s.cells[c], multiset{}, multiset{});
  }

  lemma PopReleaseKeeps<T>(s: State<T>, t: Tid)
    requires Inv(s) && t < |s.pcs| && s.pcs[t].PopRelease?
    ensures Inv(Pop(s, t, s.pcs[t]))
  {
    var v, c := s.pcs[t].value, s.pcs[t].c;
    assert Busy(s, t, s.pcs[t]);
    assert s.pushed + multiset{} == s.pushed;
    WorkKeeps(s, t, Idle, c, Cell(Empty, s.cells[c].element), multiset{}, multiset{v});
  }

  lemma PushKeeps<T>(s: State<T>, t: Tid)
    requires Inv(s) && t < |s.pcs| && Pushes(s.pcs[t])
    ensures Inv(Push(s, t, s.pcs[t]))
  {
    assert Busy(s, t, s.pcs[t]);
    match s.pcs[t] {
      case PushLoad(v) => PassKeeps(s, t, PushTest(v, s.head));
      case PushTest(v, h) => PassKeeps(s, t, if h - s.tail >= s.size then Idle else PushCas(v, h));
      case PushCas(v, h) => if s.head == h { ClaimKeeps(s, t, true); } else { PassKeeps(s, t, PushTest(v, s.head)); }
      case PushCell(_, _) => PushCellKeeps(s, t);
      case PushWrite(_, _) => PushWriteKeeps(s, t);
      case PushPublish(_, _) => PushPublishKeeps(s, t);
    }
  }

  lemma PopKeeps<T>(s: State<T>, t: Tid)
    requires Inv(s) && t < |s.pcs| && !Pushes(s.pcs[t])
    ensures Inv(Pop(s, t, s.pcs[t]))
  {
    assert Busy(s, t, s.pcs[t]);
    match s.pcs[t] {
      case Idle =>
      case PopLoad => PassKeeps(s, t, PopTest(s.tail));
      case PopTest(h) => PassKeeps(s, t, if s.head - h <= 0 then Idle else PopCas(h));
      case PopCas(h) => if s.tail == h { ClaimKeeps(s, t, false); } else { PassKeeps(s, t, PopTest(s.tail)); }
      case PopCell(_) => PopCellKeeps(s, t);
      case PopRead(_) => PopReadKeeps(s, t);
      case PopRelease(_, _) => PopReleaseKeeps(s, t);
    }
  }

  lemma NextKeepsInv<T>(s: State<T>, e: Event<T>)
    requires Inv(s)
    ensures Inv(Next(s, e))
  {
    if e.t < |s.pcs| {
      match e {
        case TryPush(t, v) => if s.pcs[t].Idle? { PassKeeps(s, t, PushLoad(v)); }
        case TryPop(t) => if s.pcs[t].Idle? { PassKeeps(s, t, PopLoad); }
        case Run(t) => if Pushes(s.pcs[t]) { PushKeeps(s, t); } else { PopKeeps(s, t); }
      }
    }
  }

  lemma {:induction false} EmptyBag<T>(cells: seq<Cell<T>>)
    requires forall c :: 0 <= c < |cells| ==> cells[c].phase == Empty
    ensures Bag(cells) == multiset{}
  {
    if cells != [] { EmptyBag(cells[..|cells| - 1]); }
  }

  lemma InitialInv<T>(s: State<T>)
    requires Initial(s)
    ensures Inv(s)
  {
    EmptyBag(s.cells);
    forall c: nat ensures Balanced(s, c) {
      CountNone(s.pcs, PushesAt(c));
      CountNone(s.pcs, PopsAt(c));
    }
  }

  lemma {:induction false} ExecKeepsInv<T>(s: State<T>, es: seq<Event<T>>)
    requires Initial(s)
    ensures Inv(Exec(s, es))
  {
    if es == [] {
      InitialInv(s);
    } else {
      ExecKeepsInv(s, es[..|es| - 1]);
      NextKeepsInv(Exec(s, es[..|es| - 1]), es[|es| - 1]);
    }
  }

  // ---------------------------------------------------------------- what every run promises

  /** The values of the completed pushes are those of the completed pops and those in the cells, and the
      counters are never more than the ring apart. */
  lemma Conservation<T>(s0: State<T>, es: seq<Event<T>>)
    requires Initial(s0)
    ensures var s := Exec(s0, es);
            s.pushed == s.popped + Bag(s.cells) && s.tail <= s.head <= s.tail + s.size
  {
    ExecKeepsInv(s0, es);
  }

  /** A try_push ends by adding its own value to what was pushed, or at an instant when as many positions are
      claimed and not released as there are cells; a try_pop by taking away one value, or when there are none.
      So it is wherever the call is when it ends. */
  lemma FailsOnlyAtLimit<T>(s0: State<T>, es: seq<Event<T>>, t: Tid)
    requires Initial(s0) && t < |Exec(s0, es).pcs| && !Exec(s0, es).pcs[t].Idle?
    requires Next(Exec(s0, es), Run(t)).pcs[t].Idle?
    ensures var s := Exec(s0, es);
            var r := Next(s, Run(t));
            if Pushes(s.pcs[t]) then
              r.popped == s.popped &&
              (r.pushed == s.pushed + multiset{s.pcs[t].value} || (r.pushed == s.pushed && s.head == s.tail + s.size))
            else
              r.pushed == s.pushed &&
              (|r.popped| == |s.popped| + 1 || (r.popped == s.popped && s.head == s.tail))
  {
    ExecKeepsInv(s0, es);
    assert Busy(Exec(s0, es), t, Exec(s0, es).pcs[t]);
  }

  predicate Waits<T>(s: State<T>, t: Tid) {
    && t < |s.pcs| && (s.pcs[t].PushCell? || s.pcs[t].PopCell?) && s.pcs[t].c < |s.cells|
    && s.cells[s.pcs[t].c].phase != (if s.pcs[t].PushCell? then Empty else Stored)
  }

  /** A pop that waits at an empty cell has a push that waits there too, and a push at a stored one a pop. */
  lemma PartnerComes<T>(s: State<T>, t: Tid) returns (u: Tid)
    requires Inv(s) && Waits(s, t)
    ensures u < |s.pcs| && Pending(s.pcs[u]) && s.pcs[u].c == s.pcs[t].c
    ensures match s.cells[s.pcs[t].c].phase
            case Storing(w) => u == w && (s.pcs[u].PushWrite? || s.pcs[u].PushPublish?)
            case Loading(w) => u == w && (s.pcs[u].PopRead? || s.pcs[u].PopRelease?)
            case Empty => PushPending(s.pcs[u], s.pcs[t].c)
            case Stored => PopPending(s.pcs[u], s.pcs[t].c)
  {
    var c := s.pcs[t].c;
    assert Named(s, c) && Balanced(s, c);
    ClaimsInWindow(s.size, s.bits, s.tail, s.head, c);
    CountUpdate(s.pcs, t, Idle, PushesAt(c));
    CountUpdate(s.pcs, t, Idle, PopsAt(c));
    match s.cells[c].phase {
      case Storing(w) => u := w;
      case Loading(w) => u := w;
      case Empty => u := CountSome(s.pcs, PushesAt(c));
      case Stored => u := CountSome(s.pcs, PopsAt(c));
    }
  }

  lemma PartnerGoesOn<T>(s: State<T>, t: Tid, u: Tid)
    requires Inv(s) && Waits(s, t) && u < |s.pcs| && Pending(s.pcs[u]) && s.pcs[u].c == s.pcs[t].c
    requires s.cells[s.pcs[t].c].phase.Empty? ==> PushPending(s.pcs[u], s.pcs[t].c)
    requires s.cells[s.pcs[t].c].phase.Stored? ==> PopPending(s.pcs[u], s.pcs[t].c)
    requires s.cells[s.pcs[t].c].phase.Storing? || s.cells[s.pcs[t].c].phase.Loading? ==>
               !s.pcs[u].PushCell? && !s.pcs[u].PopCell?
    ensures Next(s, Run(u)).pcs[u] != s.pcs[u]
    ensures s.pcs[t].PopCell? && s.cells[s.pcs[t].c].phase.Empty? ==> s.pcs[u].PushCell?
    ensures s.pcs[t].PushCell? && s.cells[s.pcs[t].c].phase.Stored? ==> s.pcs[u].PopCell?
  {
    assert Busy(s, u, s.pcs[u]);
  }

  /** A pop that waits at a cell finds there a push that can go on now: the cell is empty and the push
      is about to take it, or the push has it and is storing; and the other way round. */
  lemma NobodyIsStuck<T>(s0: State<T>, es: seq<Event<T>>, t: Tid) returns (u: Tid)
    requires Initial(s0) && t < |Exec(s0, es).pcs| && Pending(Exec(s0, es).pcs[t])
    requires Next(Exec(s0, es), Run(t)).pcs[t] == Exec(s0, es).pcs[t]
    ensures var s := Exec(s0, es);
            && Waits(s, t) && u < |s.pcs| && Pending(s.pcs[u]) && s.pcs[u].c == s.pcs[t].c
            && (s.pcs[t].PopCell? && s.cells[s.pcs[t].c].phase.Empty? ==> s.pcs[u].PushCell?)
            && (s.pcs[t].PushCell? && s.cells[s.pcs[t].c].phase.Stored? ==> s.pcs[u].PopCell?)
            && Next(s, Run(u)).pcs[u] != s.pcs[u]
  {
    ExecKeepsInv(s0, es);
    var s := Exec(s0, es);
    assert Busy(s, t, s.pcs[t]);
    u := PartnerComes(s, t);
    PartnerGoesOn(s, t, u);
  }

  // ---------------------------------------------------------------- running alone

  /** The steps that a call still takes alone up to its claim or its end. */
  function AloneLeft<T>(s: State<T>, pc: PC<T>): nat {
    match pc
    case PushLoad(_) => 3
    case PushTest(_, h) => if h == s.head then 2 else 4
    case PushCas(_, h) => if h == s.head then 1 else 3
    case PopLoad => 3
    case PopTest(h) => if h == s.tail then 2 else 4
    case PopCas(h) => if h == s.tail then 1 else 3
    case _ => 0
  }

  /** Before its claim a call that runs alone comes nearer to it, or to its end, with every step: a counter that
      has moved is loaded again. */
  lemma GoesOnAlone<T>(s: State<T>, t: Tid)
    requires Shaped(s) && t < |s.pcs| && !s.pcs[t].Idle? && !Pending(s.pcs[t])
    ensures var r := Next(s, Run(t));
            AloneLeft(r, r.pcs[t]) < AloneLeft(s, s.pcs[t]) && (AloneLeft(r, r.pcs[t]) == 0 ==> r.pcs[t].Idle? || Pending(r.pcs[t]))
  {
  }

  ghost function RunFor<T>(s: State<T>, t: Tid, k: nat): (r: State<T>)
    requires Shaped(s)
    ensures Shaped(r) && |r.pcs| == |s.pcs|
    decreases k
  {
    if k == 0 then s else RunFor(Next(s, Run(t)), t, k - 1)
  }

  /** A try_push of `v` that started in `s` and has run alone. */
  ghost predicate Pushing<T>(s: State<T>, r: State<T>, t: Tid, v: T)
    requires Shaped(s)
  {
    var c := Remap.Cell(s.size, s.bits, s.head);
    && t < |s.pcs| == |r.pcs| && Shaped(r) && c < s.size
    && match r.pcs[t] {
         case PushLoad(x) => x == v && r == Move(s, t, r.pcs[t])
         case PushTest(x, h) => x == v && h == s.head && r == Move(s, t, r.pcs[t])
         case PushCas(x, h) => x == v && h == s.head && s.head - s.tail < s.size && r == Move(s, t, r.pcs[t])
         case PushCell(x, d) =>
           x == v && d == c && s.head - s.tail < s.size && r == Move(s.(head := s.head + 1), t, r.pcs[t])
         case PushWrite(x, d) =>
           && x == v && d == c && s.head - s.tail < s.size
           && r == Move(Put(s, c, Storing(t), s.cells[c].element).(head := s.head + 1), t, r.pcs[t])
         case PushPublish(x, d) =>
           && x == v && d == c && s.head - s.tail < s.size
           && r == Move(Put(s, c, Storing(t), v).(head := s.head + 1), t, r.pcs[t])
         case Idle =>
           if s.head - s.tail >= s.size then r == s
           else r == Put(s, c, Stored, v).(head := s.head + 1, pushed := s.pushed + multiset{v})
         case _ => false
       }
  }

  /** A try_pop that started in `s` and has run alone. */
  ghost predicate Popping<T>(s: State<T>, r: State<T>, t: Tid)
    requires Shaped(s)
  {
    var c := Remap.Cell(s.size, s.bits, s.tail);
    && t < |s.pcs| == |r.pcs| && Shaped(r) && c < s.size
    && match r.pcs[t] {
         case PopLoad => r == Move(s, t, r.pcs[t])
         case PopTest(h) => h == s.tail && r == Move(s, t, r.pcs[t])
         case PopCas(h) => h == s.tail && s.head > s.tail && r == Move(s, t, r.pcs[t])
         case PopCell(d) => d == c && s.head > s.tail && r == Move(s.(tail := s.tail + 1), t, r.pcs[t])
         case PopRead(d) =>
           && d == c && s.head > s.tail
           && r == Move(Put(s, c, Loading(t), s.cells[c].element).(tail := s.tail + 1), t, r.pcs[t])
         case PopRelease(x, d) =>
           && x == s.cells[c].element && d == c && s.head > s.tail
           && r == Move(Put(s, c, Loading(t), s.cells[c].element).(tail := s.tail + 1), t, r.pcs[t])
         case Idle =>
           if s.head - s.tail <= 0 then r == s
           else r == Put(s, c, Empty, s.cells[c].element).(tail := s.tail + 1,
                                                          popped := s.popped + multiset{s.cells[c].element})
         case _ => false
       }
  }

  /** At most so many steps to the end of a call that does not wait. */
  function ToGo<T>(pc: PC<T>): nat {
    match pc
    case Idle => 0
    case PushLoad(_) | PopLoad => 6
    case PushTest(_, _) | PopTest(_) => 5
    case PushCas(_, _) | PopCas(_) => 4
    case PushCell(_, _) | PopCell(_) => 3
    case PushWrite(_, _) | PopRead(_) => 2
    case PushPublish(_, _) | PopRelease(_, _) => 1
  }

  lemma PushingStep<T>(s: State<T>, r: State<T>, t: Tid, v: T)
    requires Shaped(s) && Pushing(s, r, t, v) && !r.pcs[t].Idle? && s.pcs[t].Idle?
    requires s.head - s.tail < s.size ==> s.cells[Remap.Cell(s.size, s.bits, s.head)].phase == Empty
    ensures var q := Next(r, Run(t)); Pushing(s, q, t, v) && ToGo(q.pcs[t]) < ToGo(r.pcs[t])
  {
    if Pending(r.pcs[t]) { PushingAtCell(s, r, t, v); } else { PushingToClaim(s, r, t, v); }
  }

  lemma PushingToClaim<T>(s: State<T>, r: State<T>, t: Tid, v: T)
    requires Shaped(s) && Pushing(s, r, t, v) && !r.pcs[t].Idle? && s.pcs[t].Idle? && !Pending(r.pcs[t])
    ensures var q := Next(r, Run(t)); Pushing(s, q, t, v) && ToGo(q.pcs[t]) < ToGo(r.pcs[t])
  {
    assert s.pcs[t := Idle] == s.pcs;
  }

  lemma PushingAtCell<T>(s: State<T>, r: State<T>, t: Tid, v: T)
    requires Shaped(s) && Pushing(s, r, t, v) && s.pcs[t].Idle? && Pending(r.pcs[t])
    requires s.head - s.tail < s.size ==> s.cells[Remap.Cell(s.size, s.bits, s.head)].phase == Empty
    ensures var q := Next(r, Run(t)); Pushing(s, q, t, v) && ToGo(q.pcs[t]) < ToGo(r.pcs[t])
  {
    assert s.pcs[t := Idle] == s.pcs;
  }

  lemma PoppingStep<T>(s: State<T>, r: State<T>, t: Tid)
    requires Shaped(s) && Popping(s, r, t) && !r.pcs[t].Idle? && s.pcs[t].Idle?
    requires s.head > s.tail ==> s.cells[Remap.Cell(s.size, s.bits, s.tail)].phase == Stored
    ensures var q := Next(r, Run(t)); Popping(s, q, t) && ToGo(q.pcs[t]) < ToGo(r.pcs[t])
  {
    if Pending(r.pcs[t]) { PoppingAtCell(s, r, t); } else { PoppingToClaim(s, r, t); }
  }

  lemma PoppingToClaim<T>(s: State<T>, r: State<T>, t: Tid)
    requires Shaped(s) && Popping(s, r, t) && !r.pcs[t].Idle? && s.pcs[t].Idle? && !Pending(r.pcs[t])
    ensures var q := Next(r, Run(t)); Popping(s, q, t) && ToGo(q.pcs[t]) < ToGo(r.pcs[t])
  {
    assert s.pcs[t := Idle] == s.pcs;
  }

  lemma PoppingAtCell<T>(s: State<T>, r: State<T>, t: Tid)
    requires Shaped(s) && Popping(s, r, t) && s.pcs[t].Idle? && Pending(r.pcs[t])
    requires s.head > s.tail ==> s.cells[Remap.Cell(s.size, s.bits, s.tail)].phase == Stored
    ensures var q := Next(r, Run(t)); Popping(s, q, t) && ToGo(q.pcs[t]) < ToGo(r.pcs[t])
  {
    assert s.pcs[t := Idle] == s.pcs;
  }

  lemma {:induction false} PushingRun<T>(s: State<T>, r: State<T>, t: Tid, v: T, k: nat)
    requires Shaped(s) && Pushing(s, r, t, v) && ToGo(r.pcs[t]) <= k && s.pcs[t].Idle?
    requires s.head - s.tail < s.size ==> s.cells[Remap.Cell(s.size, s.bits, s.head)].phase == Empty
    ensures Pushing(s, RunFor(r, t, k), t, v) && RunFor(r, t, k).pcs[t].Idle?
    decreases k
  {
    if k > 0 {
      if r.pcs[t].Idle? { assert Next(r, Run(t)) == r; } else { PushingStep(s, r, t, v); }
      PushingRun(s, Next(r, Run(t)), t, v, k - 1);
    }
  }

  lemma {:induction false} PoppingRun<T>(s: State<T>, r: State<T>, t: Tid, k: nat)
    requires Shaped(s) && Popping(s, r, t) && ToGo(r.pcs[t]) <= k && s.pcs[t].Idle?
    requires s.head > s.tail ==> s.cells[Remap.Cell(s.size, s.bits, s.tail)].phase == Stored
    ensures Popping(s, RunFor(r, t, k), t) && RunFor(r, t, k).pcs[t].Idle?
    decreases k
  {
    if k > 0 {
      if r.pcs[t].Idle? { assert Next(r, Run(t)) == r; } else { PoppingStep(s, r, t); }
      PoppingRun(s, Next(r, Run(t)), t, k - 1);
    }
  }

  /** With no thread at a cell, the cells of the positions between the counters are stored and the others empty. */
  lemma CellsAtRest<T>(s: State<T>)
    requires Inv(s) && forall t: Tid :: t < |s.pcs| ==> !Pending(s.pcs[t])
    ensures var c := Remap.Cell(s.size, s.bits, s.head);
            c < s.size && (s.head - s.tail < s.size ==> s.cells[c].phase == Empty)
    ensures var c := Remap.Cell(s.size, s.bits, s.tail);
            c < s.size && (s.head > s.tail ==> s.cells[c].phase == Stored)
  {
    var h, l := Remap.Cell(s.size, s.bits, s.head), Remap.Cell(s.size, s.bits, s.tail);
    HeldAtRest(s, h);
    HeldAtRest(s, l);
    if s.head - s.tail < s.size { NextCellIsFree(s.size, s.bits, s.tail, s.head, h); }
    if s.head > s.tail { ClaimsGrow(s.size, s.bits, s.tail + 1, s.head, l); }
  }

  lemma HeldAtRest<T>(s: State<T>, c: nat)
    requires Inv(s) && c < s.size && forall t: Tid :: t < |s.pcs| ==> !Pending(s.pcs[t])
    ensures Held(s.cells[c].phase) == Claims(s.size, s.bits, s.head, c) - Claims(s.size, s.bits, s.tail, c)
    ensures s.cells[c].phase == Empty || s.cells[c].phase == Stored
  {
    assert Balanced(s, c) && Named(s, c);
    CountNone(s.pcs, PushesAt(c));
    CountNone(s.pcs, PopsAt(c));
  }

  lemma {:induction false} ClaimsGrow(size: nat, bits: nat, a: nat, b: nat, c: nat)
    requires Layout(size, bits) && a <= b
    ensures Claims(size, bits, a, c) <= Claims(size, bits, b, c)
    decreases b - a
  {
    if a < b { ClaimsGrow(size, bits, a, b - 1, c); }
  }

  /** With no call at a cell, a try_push that runs alone is over after six steps: it has stored its value in the
      cell of the head and moved the head, or has changed nothing if the ring is full. */
  lemma PushesAlone<T>(s0: State<T>, es: seq<Event<T>>, t: Tid, v: T)
    requires Initial(s0) && t < |Exec(s0, es).pcs| && Exec(s0, es).pcs[t].Idle?
    requires forall u: Tid :: u < |Exec(s0, es).pcs| ==> !Pending(Exec(s0, es).pcs[u])
    ensures var s := Exec(s0, es);
            var r := RunFor(Next(s, TryPush(t, v)), t, 6);
            if s.head == s.tail + s.size then r == s
            else
              && r.pcs == s.pcs && r.head == s.head + 1 && r.tail == s.tail && r.popped == s.popped
              && r.pushed == s.pushed + multiset{v}
              && |r.cells| == s.size && Remap.Cell(s.size, s.bits, s.head) < s.size
              && r.cells == s.cells[Remap.Cell(s.size, s.bits, s.head) := Cell(Stored, v)]
  {
    ExecKeepsInv(s0, es);
    var s := Exec(s0, es);
    CellsAtRest(s);
    PushingRun(s, Next(s, TryPush(t, v)), t, v, 6);
  }

  /** And a try_pop takes the value in the cell of the tail, or nothing if there is none. */
  lemma PopsAlone<T>(s0: State<T>, es: seq<Event<T>>, t: Tid)
    requires Initial(s0) && t < |Exec(s0, es).pcs| && Exec(s0, es).pcs[t].Idle?
    requires forall u: Tid :: u < |Exec(s0, es).pcs| ==> !Pending(Exec(s0, es).pcs[u])
    ensures var s := Exec(s0, es);
            var r := RunFor(Next(s, TryPop(t)), t, 6);
            if s.head == s.tail then r == s
            else
              && r.pcs == s.pcs && r.head == s.head && r.tail == s.tail + 1 && r.pushed == s.pushed
              && Remap.Cell(s.size, s.bits, s.tail) < s.size
              && r.popped == s.popped + multiset{s.cells[Remap.Cell(s.size, s.bits, s.tail)].element}
  {
    ExecKeepsInv(s0, es);
    var s := Exec(s0, es);
    CellsAtRest(s);
    PoppingRun(s, Next(s, TryPop(t)), t, 6);
  }

  // ---------------------------------------------------------------- the queue at rest

  ghost function Sum(size: nat, bits: nat, n: nat, k: nat): nat
    requires Layout(size, bits)
  {
    if k == 0 then 0 else Sum(size, bits, n, k - 1) + Claims(size, bits, n, k - 1)
  }

  lemma {:induction false} SumStep(size: nat, bits: nat, n: nat, k: nat)
    requires Layout(size, bits)
    ensures Sum(size, bits, n + 1, k) == Sum(size, bits, n, k) + if Remap.Cell(size, bits, n) < k then 1 else 0
  {
    if k != 0 { SumStep(size, bits, n, k - 1); }
  }

  lemma {:induction false} SumIsAll(size: nat, bits: nat, n: nat)
    requires Layout(size, bits)
    ensures Sum(size, bits, n, size) == n
  {
    if n == 0 { SumZero(size, bits, size); } else { SumIsAll(size, bits, n - 1); SumStep(size, bits, n - 1, size); }
  }

  lemma {:induction false} SumZero(size: nat, bits: nat, k: nat)
    requires Layout(size, bits)
    ensures Sum(size, bits, 0, k) == 0
  {
    if k != 0 { SumZero(size, bits, k - 1); }
  }

  lemma BagGrows<T>(cells: seq<Cell<T>>, k: nat)
    requires 0 < k <= |cells|
    ensures |Bag(cells[..k])| == |Bag(cells[..k - 1])| + Held(cells[k - 1].phase)
  {
    assert cells[..k][..k - 1] == cells[..k - 1];
  }

  lemma {:induction false} BagSize<T>(s: State<T>, k: nat)
    requires Shaped(s) && k <= s.size
    requires forall c :: 0 <= c < k ==>
               Held(s.cells[c].phase) == Claims(s.size, s.bits, s.head, c) - Claims(s.size, s.bits, s.tail, c)
    ensures |Bag(s.cells[..k])| == Sum(s.size, s.bits, s.head, k) - Sum(s.size, s.bits, s.tail, k)
  {
    if k != 0 {
      BagSize(s, k - 1);
      BagGrows(s.cells, k);
    }
  }

  /** With no thread at a cell, the size that the counters give is the number of values stored. */
  lemma SizeAtRest<T>(s0: State<T>, es: seq<Event<T>>)
    requires Initial(s0) && forall t: Tid :: t < |Exec(s0, es).pcs| ==> !Pending(Exec(s0, es).pcs[t])
    ensures var s := Exec(s0, es); s.head - s.tail == |Bag(s.cells)|
  {
    ExecKeepsInv(s0, es);
    var s := Exec(s0, es);
    forall c | 0 <= c < s.size
      ensures Held(s.cells[c].phase) == Claims(s.size, s.bits, s.head, c) - Claims(s.size, s.bits, s.tail, c)
    {
      assert Balanced(s, c);
      CountNone(s.pcs, PushesAt(c));
      CountNone(s.pcs, PopsAt(c));
    }
    BagSize(s, s.size);
    assert s.cells[..s.size] == s.cells;
    SumIsAll(s.size, s.bits, s.head);
    SumIsAll(s.size, s.bits, s.tail);
  }

  // ---------------------------------------------------------------- words

  /** A 32-bit word as a signed number. */
  function Signed(w: nat): int { if w >= 0x8000_0000 then w - WORD else w }

  /** The tests on 32-bit words, with signed conversion, are those on the counters exactly as long as
      the size is below 2^31 and the loaded counter is less than 2^31 from the other one. */
  lemma WordTestsAgree(a: nat, b: nat, size: nat)
    requires -0x8000_0000 <= a - b < 0x8000_0000
    ensures Signed(Word(Word(a) - Word(b))) == a - b
    ensures size < 0x8000_0000 ==> (Signed(Word(Word(a) - Word(b))) >= Signed(size) <==> a - b >= size)
    ensures size == 0x8000_0000 ==> Signed(Word(Word(a) - Word(b))) >= Signed(size)
  {
    WordOfDifference(a, b);
    WordOf(a - b);
  }

  lemma WordOf(d: int)
    requires -WORD <= d < WORD
    ensures Word(d) == if d < 0 then d + WORD else d
  {
  }

  /** The index `position % size` of the 32-bit word is that of the position exactly if the size divides
      2^32, as the rounded sizes do. */
  lemma WordIndexAgrees(size: nat)
    requires size > 0
    ensures (forall p: nat :: Word(p) % size == p % size) <==> WORD % size == 0
  {
    RemainderOfWord(size);
  }
}
