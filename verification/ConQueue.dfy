/** ConQueue (conqueue.h:25-332): a bounded ring between a producer side and a consumer side, each in
    any of its three modes.  `hist` (the values by position), `args` and `outs` (what each producer
    pushes and each consumer has moved out) are history variables. */
module ConQueue {
  import opened HeadTail
  import Bits

  datatype Slot<T> = Empty | Full(value: T)

  datatype Queue<T> = Queue(
    capacity: nat,
    ringSize: nat,         // what `to_id` reduces positions by
    ring: seq<Slot<T>>,
    prod: Side,
    cons: Side,
    args: seq<seq<T>>,
    outs: seq<seq<T>>,
    hist: seq<T>)

  /** `push` is `PushBulk` of one value and `pop` is `PopBulk` of one; a single-threaded consumer side
      has only `pop`. */
  datatype Event<T> =
    | PushBulk(t: Tid, values: seq<T>)
    | PopBulk(t: Tid, n: nat)
    | RunProducer(t: Tid, x: Chance)
    | RunConsumer(t: Tid, x: Chance)

  // ---------------------------------------------------------------- the machine

  /** conqueue.h:287-290 on a position */
  function ToId(q: Queue, p: nat): nat
    requires q.ringSize > 0
  {
    p % q.ringSize
  }

  function StepProducer<T>(q: Queue<T>, t: Tid, x: Chance): (r: Queue<T>)
    requires q.ringSize > 0 && |q.ring| == q.ringSize && |q.args| == |q.prod.pcs| && t < |q.prod.pcs|
    ensures |r.ring| == r.ringSize == q.ringSize && |r.args| == |r.prod.pcs| == |q.prod.pcs|
    ensures r.cons == q.cons && r.outs == q.outs
  {
    var prod' := Advance(q.prod, t, q.cons.tail + q.capacity, x);
    var q1 := q.(prod := prod');
    if Claims(prod') > Claims(q.prod) then
      var len := prod'.head - q.prod.head;
      if 0 <= len <= |q.args[t]| then q1.(hist := q.hist + q.args[t][..len]) else q1
    else if q.prod.pcs[t].Work? && q.prod.pcs[t].i < |q.args[t]| then
      var p := End(q.prod.ends, q.prod.pcs[t].c) + q.prod.pcs[t].i;
      q1.(ring := q.ring[ToId(q, p) := Full(q.args[t][q.prod.pcs[t].i])])
    else q1
  }

  function StepConsumer<T>(q: Queue<T>, t: Tid, x: Chance): (r: Queue<T>)
    requires q.ringSize > 0 && |q.ring| == q.ringSize && |q.outs| == |q.cons.pcs| && t < |q.cons.pcs|
    ensures |r.ring| == r.ringSize == q.ringSize && |r.outs| == |r.cons.pcs| == |q.cons.pcs|
    ensures r.prod == q.prod && r.args == q.args && r.hist == q.hist
  {
    var cons' := Advance(q.cons, t, q.prod.tail, x);
    var q1 := q.(cons := cons');
    if Claims(cons') > Claims(q.cons) then q1.(outs := q.outs[t := []])
    else if q.cons.pcs[t].Work? then
      var id := ToId(q, End(q.cons.ends, q.cons.pcs[t].c) + q.cons.pcs[t].i);
      q1.(ring := q.ring[id := Empty],
          outs := if q.ring[id].Full? then q.outs[t := q.outs[t] + [q.ring[id].value]] else q.outs)
    else q1
  }

  ghost predicate Shaped(q: Queue) {
    && q.ringSize > 0 && |q.ring| == q.ringSize
    && |q.args| == |q.prod.pcs| && |q.outs| == |q.cons.pcs|
  }

  ghost function Next<T>(q: Queue<T>, e: Event<T>): (r: Queue<T>)
    requires Shaped(q)
    ensures Shaped(r) && r.capacity == q.capacity && r.ringSize == q.ringSize
  {
    match e
    case PushBulk(t, values) =>
      var prod' := Begin(q.prod, t, |values|);
      if prod' != q.prod && t < |q.args| then q.(prod := prod', args := q.args[t := values]) else q
    case PopBulk(t, n) => if q.cons.mode.Single? && n > 1 then q else q.(cons := Begin(q.cons, t, n))
    case RunProducer(t, x) => if t < |q.prod.pcs| then StepProducer(q, t, x) else q
    case RunConsumer(t, x) => if t < |q.cons.pcs| then StepConsumer(q, t, x) else q
  }

  ghost function Exec<T>(q: Queue<T>, es: seq<Event<T>>): (r: Queue<T>)
    requires Shaped(q)
    ensures Shaped(r) && r.capacity == q.capacity && r.ringSize == q.ringSize
  {
    if es == [] then q else Next(Exec(q, es[..|es| - 1]), es[|es| - 1])
  }

  /** A new queue; both `aligned_size` and the exact mode give a ring of at least the capacity. */
  ghost predicate Initially(q: Queue) {
    && Shaped(q) && 0 < q.capacity <= q.ringSize
    && Initial(q.prod) && Initial(q.cons) && q.hist == []
  }

  // ---------------------------------------------------------------- the invariant

  ghost predicate ArgOk<T>(ends: seq<nat>, pc: PC, arg: seq<T>, hist: seq<T>) {
    match pc
    case LoadHead(n) => n == |arg|
    case LoadLimit(n, _, _) => n == |arg|
    case CasHead(n, _, _, len) => len <= n == |arg|
    case Work(c, _) =>
      var a, len := End(ends, c), Length(ends, c);
      a + len <= |hist| && len <= |arg| && hist[a..a + len] == arg[..len]
    case _ => true
  }

  ghost predicate ArgsOk<T>(prod: Side, args: seq<seq<T>>, hist: seq<T>) {
    && |args| == |prod.pcs| && |hist| == prod.head
    && forall t: Tid {:trigger ArgOk(prod.ends, prod.pcs[t], args[t], hist)} :: t < |prod.pcs| ==> ArgOk(prod.ends, prod.pcs[t], args[t], hist)
  }

  /** Slots written and not yet moved out hold the value of their position. */
  ghost predicate RingOk<T>(q: Queue<T>)
    requires Shaped(q)
  {
    forall p: nat :: p in q.prod.worked && p !in q.cons.worked && p < |q.hist| ==>
      q.ring[ToId(q, p)] == Full(q.hist[p])
  }

  /** A consumer's output so far is the values of its claim, in order. */
  ghost predicate OutsOk<T>(cons: Side, outs: seq<seq<T>>, hist: seq<T>) {
    && |outs| == |cons.pcs|
    && forall t: Tid {:trigger OutOk(cons.ends, cons.pcs[t], outs[t], hist)} :: t < |cons.pcs| ==> OutOk(cons.ends, cons.pcs[t], outs[t], hist)
  }

  ghost predicate OutOk<T>(ends: seq<nat>, pc: PC, out: seq<T>, hist: seq<T>) {
    Holds(pc) ==>
      var a := End(ends, pc.c);
      var n := if pc.Work? then pc.i else Length(ends, pc.c);
      a + n <= |hist| && out == hist[a..a + n]
  }

  ghost predicate QInv<T>(q: Queue<T>) {
    && Shaped(q) && q.capacity <= q.ringSize
    && Inv(q.prod, q.cons.tail + q.capacity)
    && Inv(q.cons, q.prod.tail)
    && ArgsOk(q.prod, q.args, q.hist)
    && RingOk(q)
    && OutsOk(q.cons, q.outs, q.hist)
  }

  // ---------------------------------------------------------------- slots

  /** A claimed, unreleased slot is not the slot of any other claimed, unreleased position. */
  lemma SlotExclusive<T>(q: Queue<T>, p: nat, r: nat)
    requires QInv(q) && p != r
    requires q.cons.tail <= p < q.prod.head && q.cons.tail <= r < q.prod.head
    ensures ToId(q, p) != ToId(q, r)
  {
    if p < r { Bits.SameRemainder(p, r, q.ringSize); } else { Bits.SameRemainder(r, p, q.ringSize); }
  }

  // ---------------------------------------------------------------- every step keeps it

  lemma CountersInOrder(q: Queue)
    requires QInv(q)
    ensures q.cons.tail <= q.cons.head <= q.prod.tail <= q.prod.head <= q.cons.tail + q.capacity
  {
    BelowTailWorked(q.prod, q.cons.tail + q.capacity);
    BelowTailWorked(q.cons, q.prod.tail);
  }

  lemma ArgExtends<T>(ends: seq<nat>, ends': seq<nat>, pc: PC, arg: seq<T>, hist: seq<T>, hist': seq<T>)
    requires ArgOk(ends, pc, arg, hist) && ends <= ends' && hist <= hist'
    requires Holds(pc) ==> pc.c + 1 < |ends|
    ensures ArgOk(ends', pc, arg, hist')
  {
    if pc.Work? {
      var a, len := End(ends, pc.c), Length(ends, pc.c);
      assert hist'[a..a + len] == hist[a..a + len];
    }
  }

  lemma ClaimLength<T>(q: Queue<T>, t: Tid, x: Chance)
    requires QInv(q) && t < |q.prod.pcs|
    requires Claims(StepProducer(q, t, x).prod) > Claims(q.prod)
    ensures var len := Wanted(q.prod, t, q.cons.tail + q.capacity);
            0 < len <= |q.args[t]| && StepProducer(q, t, x).prod.head == q.prod.head + len
  {
    StepShape(q.prod, q.cons.tail + q.capacity, t, x);
    assert ArgOk(q.prod.ends, q.prod.pcs[t], q.args[t], q.hist);
    assert PcOk(q.prod, q.cons.tail + q.capacity, t, q.prod.pcs[t]);
  }

  lemma AppendedSlice<T>(a: seq<T>, b: seq<T>)
    ensures (a + b)[|a|..|a| + |b|] == b
  {
  }

  /** The values of a claim just made are those appended. */
  lemma ClaimedArg<T>(ends: seq<nat>, c: nat, arg: seq<T>, hist: seq<T>, len: nat)
    requires ends != [] && c == |ends| - 1 && ends[c] == |hist| && len <= |arg|
    ensures ArgOk(ends + [|hist| + len], Work(c, 0), arg, hist + arg[..len])
  {
    AppendedSlice(hist, arg[..len]);
  }

  lemma ClaimShows<T>(q: Queue<T>, t: Tid, x: Chance)
    requires QInv(q) && t < |q.prod.pcs|
    requires Claims(StepProducer(q, t, x).prod) > Claims(q.prod)
    ensures var r := StepProducer(q, t, x);
            var len := Wanted(q.prod, t, q.cons.tail + q.capacity);
            && 0 < len <= |q.args[t]| && r.hist == q.hist + q.args[t][..len]
            && r.prod.ends == q.prod.ends + [|q.hist| + len] && r.prod.pcs[t] == Work(|q.prod.owner|, 0)
  {
    StepShape(q.prod, q.cons.tail + q.capacity, t, x);
    ClaimLength(q, t, x);
  }

  /** A claim appends to the history the prefix of the values that got room. */
  lemma ProducerClaims<T>(q: Queue<T>, t: Tid, x: Chance)
    requires QInv(q) && t < |q.prod.pcs|
    requires Claims(StepProducer(q, t, x).prod) > Claims(q.prod)
    ensures var r := StepProducer(q, t, x);
            var len := Wanted(q.prod, t, q.cons.tail + q.capacity);
            && 0 < len <= |q.args[t]| && r.hist == q.hist + q.args[t][..len]
            && ArgOk(r.prod.ends, r.prod.pcs[t], q.args[t], r.hist)
  {
    ClaimShows(q, t, x);
    ClaimedArg(q.prod.ends, |q.prod.owner|, q.args[t], q.hist, Wanted(q.prod, t, q.cons.tail + q.capacity));
  }

  lemma ProducerOwnArg<T>(q: Queue<T>, t: Tid, x: Chance)
    requires QInv(q) && t < |q.prod.pcs|
    ensures var r := StepProducer(q, t, x);
            t < |r.prod.pcs| && ArgOk(r.prod.ends, r.prod.pcs[t], q.args[t], r.hist) && q.hist <= r.hist
  {
    if Claims(StepProducer(q, t, x).prod) > Claims(q.prod) { ProducerClaims(q, t, x); } else { ProducerPass(q, t, x); }
  }

  lemma ProducerPass<T>(q: Queue<T>, t: Tid, x: Chance)
    requires QInv(q) && t < |q.prod.pcs| && Claims(StepProducer(q, t, x).prod) <= Claims(q.prod)
    ensures var r := StepProducer(q, t, x);
            t < |r.prod.pcs| && ArgOk(r.prod.ends, r.prod.pcs[t], q.args[t], r.hist) && q.hist <= r.hist
  {
    EarlyShape(q.prod, t, q.cons.tail + q.capacity, x);
    assert ArgOk(q.prod.ends, q.prod.pcs[t], q.args[t], q.hist);
  }

  lemma ProducerOtherArg<T>(q: Queue<T>, t: Tid, x: Chance, u: Tid)
    requires QInv(q) && t < |q.prod.pcs| && u < |q.prod.pcs| && u != t && q.hist <= StepProducer(q, t, x).hist
    ensures var r := StepProducer(q, t, x);
            u < |r.prod.pcs| && ArgOk(r.prod.ends, r.prod.pcs[u], q.args[u], r.hist)
  {
    var r := StepProducer(q, t, x);
    StepShape(q.prod, q.cons.tail + q.capacity, t, x);
    assert ClaimOk(q.prod, u, q.prod.pcs[u]) && ArgOk(q.prod.ends, q.prod.pcs[u], q.args[u], q.hist);
    ArgExtends(q.prod.ends, r.prod.ends, q.prod.pcs[u], q.args[u], q.hist, r.hist);
  }

  lemma ProducerHist<T>(q: Queue<T>, t: Tid, x: Chance)
    requires QInv(q) && t < |q.prod.pcs|
    ensures var r := StepProducer(q, t, x);
            |r.prod.pcs| == |q.prod.pcs| && r.args == q.args && |r.hist| == r.prod.head
  {
    StepShape(q.prod, q.cons.tail + q.capacity, t, x);
    if Claims(StepProducer(q, t, x).prod) > Claims(q.prod) { ProducerClaims(q, t, x); }
  }

  lemma ProducerArgs<T>(q: Queue<T>, t: Tid, x: Chance)
    requires QInv(q) && t < |q.prod.pcs|
    ensures var r := StepProducer(q, t, x); ArgsOk(r.prod, r.args, r.hist) && q.hist <= r.hist
  {
    var r := StepProducer(q, t, x);
    ProducerHist(q, t, x);
    ProducerOwnArg(q, t, x);
    forall u: Tid | u < |q.prod.pcs|
      ensures ArgOk(r.prod.ends, r.prod.pcs[u], q.args[u], r.hist)
    {
      if u != t { ProducerOtherArg(q, t, x, u); }
    }
  }

  lemma ProducerWrites<T>(q: Queue<T>, t: Tid, x: Chance)
    requires QInv(q) && t < |q.prod.pcs| && q.prod.pcs[t].Work?
    ensures var r := StepProducer(q, t, x);
            var i := q.prod.pcs[t].i;
            var p := End(q.prod.ends, q.prod.pcs[t].c) + i;
            && q.prod.tail <= p < q.prod.head && i < |q.args[t]| && q.args[t][i] == q.hist[p] && r.hist == q.hist
            && r.ring == q.ring[ToId(q, p) := Full(q.hist[p])] && r.prod.worked == q.prod.worked + {p}
  {
    StepShape(q.prod, q.cons.tail + q.capacity, t, x);
    WorkPosition(q.prod, q.cons.tail + q.capacity, t);
    assert ArgOk(q.prod.ends, q.prod.pcs[t], q.args[t], q.hist);
    var i, len := q.prod.pcs[t].i, Length(q.prod.ends, q.prod.pcs[t].c);
    assert q.args[t][..len][i] == q.args[t][i];
  }

  lemma ProducerRing<T>(q: Queue<T>, t: Tid, x: Chance)
    requires QInv(q) && t < |q.prod.pcs|
    ensures RingOk(StepProducer(q, t, x))
  {
    if q.prod.pcs[t].Work? {
      ProducerWrites(q, t, x);
      WrittenRing(q, StepProducer(q, t, x), End(q.prod.ends, q.prod.pcs[t].c) + q.prod.pcs[t].i);
    } else {
      SameRing(q, t, x);
    }
  }

  lemma SameRing<T>(q: Queue<T>, t: Tid, x: Chance)
    requires QInv(q) && t < |q.prod.pcs| && !q.prod.pcs[t].Work?
    ensures RingOk(StepProducer(q, t, x))
  {
    StepShape(q.prod, q.cons.tail + q.capacity, t, x);
    BelowTailWorked(q.prod, q.cons.tail + q.capacity);
    ProducerArgs(q, t, x);
    var r := StepProducer(q, t, x);
    assert r.ring == q.ring && r.prod.worked == q.prod.worked && q.hist <= r.hist;
  }

  lemma WrittenRing<T>(q: Queue<T>, r: Queue<T>, p: nat)
    requires QInv(q) && Shaped(r) && r.ringSize == q.ringSize && r.hist == q.hist && r.cons == q.cons
    requires q.prod.tail <= p < q.prod.head == |q.hist|
    requires r.ring == q.ring[ToId(q, p) := Full(q.hist[p])] && r.prod.worked == q.prod.worked + {p}
    ensures RingOk(r)
  {
    CountersInOrder(q);
    BelowTailWorked(q.cons, q.prod.tail);
    forall o: nat | o in r.prod.worked && o !in r.cons.worked && o < |r.hist|
      ensures r.ring[ToId(r, o)] == Full(r.hist[o])
    {
      if o != p { SlotExclusive(q, p, o); }
    }
  }

  lemma HistGrows<T>(cons: Side, outs: seq<seq<T>>, hist: seq<T>, hist': seq<T>)
    requires OutsOk(cons, outs, hist) && hist <= hist'
    ensures OutsOk(cons, outs, hist')
  {
    forall t: Tid | t < |cons.pcs|
      ensures OutOk(cons.ends, cons.pcs[t], outs[t], hist')
    {
      OutExtends(cons.ends, cons.ends, cons.pcs[t], outs[t], hist, hist');
    }
  }

  lemma OutExtends<T>(ends: seq<nat>, ends': seq<nat>, pc: PC, out: seq<T>, hist: seq<T>, hist': seq<T>)
    requires OutOk(ends, pc, out, hist) && ends <= ends' && hist <= hist'
    requires Holds(pc) ==> ends == ends' || pc.c + 1 < |ends|
    ensures OutOk(ends', pc, out, hist')
  {
    if Holds(pc) {
      var a := End(ends, pc.c);
      var n := if pc.Work? then pc.i else Length(ends, pc.c);
      assert hist'[a..a + n] == hist[a..a + n];
    }
  }

  lemma ProducerShape<T>(q: Queue<T>, t: Tid, x: Chance)
    requires Shaped(q) && t < |q.prod.pcs|
    ensures var r := StepProducer(q, t, x);
            && r.prod == Advance(q.prod, t, q.cons.tail + q.capacity, x) && r.cons == q.cons
            && r.outs == q.outs && r.capacity == q.capacity && r.ringSize == q.ringSize
  {
  }

  lemma ProducerStep<T>(q: Queue<T>, t: Tid, x: Chance)
    requires QInv(q) && t < |q.prod.pcs|
    ensures QInv(StepProducer(q, t, x))
  {
    ProducerArgs(q, t, x);
    ProducerRing(q, t, x);
    HistGrows(q.cons, q.outs, q.hist, StepProducer(q, t, x).hist);
    ProducerShape(q, t, x);
    StepKeepsBoth(q.prod, q.cons.tail + q.capacity, t, x, q.cons, 0);
    Assemble(StepProducer(q, t, x), Advance(q.prod, t, q.cons.tail + q.capacity, x), q.cons);
  }

  lemma Assemble<T>(q: Queue<T>, prod: Side, cons: Side)
    requires Shaped(q) && q.capacity <= q.ringSize && q.prod == prod && q.cons == cons
    requires Inv(prod, cons.tail + q.capacity) && Inv(cons, prod.tail)
    requires ArgsOk(q.prod, q.args, q.hist) && RingOk(q) && OutsOk(q.cons, q.outs, q.hist)
    ensures QInv(q)
  {
  }

  /** A consumer moves out the value of the position it has claimed. */
  lemma ReadsItsValue<T>(q: Queue<T>, t: Tid)
    requires QInv(q) && t < |q.cons.pcs| && q.cons.pcs[t].Work?
    ensures var p := End(q.cons.ends, q.cons.pcs[t].c) + q.cons.pcs[t].i;
            p < |q.hist| && q.ring[ToId(q, p)] == Full(q.hist[p])
  {
    WorkPosition(q.cons, q.prod.tail, t);
    BelowTailWorked(q.prod, q.cons.tail + q.capacity);
  }

  lemma ConsumerRing<T>(q: Queue<T>, t: Tid, x: Chance)
    requires QInv(q) && t < |q.cons.pcs|
    ensures RingOk(StepConsumer(q, t, x))
  {
    StepShape(q.cons, q.prod.tail, t, x);
    if q.cons.pcs[t].Work? {
      WorkPosition(q.cons, q.prod.tail, t);
      EmptiedRing(q, StepConsumer(q, t, x), End(q.cons.ends, q.cons.pcs[t].c) + q.cons.pcs[t].i);
    }
  }

  lemma EmptiedRing<T>(q: Queue<T>, r: Queue<T>, p: nat)
    requires QInv(q) && Shaped(r) && r.ringSize == q.ringSize && r.hist == q.hist && r.prod == q.prod
    requires q.cons.tail <= p < q.prod.tail
    requires r.ring == q.ring[ToId(q, p) := Empty] && r.cons.worked == q.cons.worked + {p}
    ensures RingOk(r)
  {
    CountersInOrder(q);
    BelowTailWorked(q.cons, q.prod.tail);
    forall o: nat | o in r.prod.worked && o !in r.cons.worked && o < |r.hist|
      ensures r.ring[ToId(r, o)] == Full(r.hist[o])
    {
      SlotExclusive(q, p, o);
    }
  }

  lemma ConsumerOuts<T>(q: Queue<T>, t: Tid, x: Chance)
    requires QInv(q) && t < |q.cons.pcs|
    ensures var r := StepConsumer(q, t, x); OutsOk(r.cons, r.outs, r.hist)
  {
    var r := StepConsumer(q, t, x);
    StepShape(q.cons, q.prod.tail, t, x);
    forall u: Tid | u < |r.cons.pcs|
      ensures OutOk(r.cons.ends, r.cons.pcs[u], r.outs[u], r.hist)
    {
      if u == t { OwnOut(q, t, x); }
      else {
        assert ClaimOk(q.cons, u, q.cons.pcs[u]);
        OutExtends(q.cons.ends, r.cons.ends, q.cons.pcs[u], q.outs[u], q.hist, q.hist);
      }
    }
  }

  lemma OwnOut<T>(q: Queue<T>, t: Tid, x: Chance)
    requires QInv(q) && t < |q.cons.pcs|
    ensures var r := StepConsumer(q, t, x);
            t < |r.cons.pcs| && t < |r.outs| && OutOk(r.cons.ends, r.cons.pcs[t], r.outs[t], r.hist)
  {
    if Claims(StepConsumer(q, t, x).cons) > Claims(q.cons) { OwnClaim(q, t, x); }
    else if q.cons.pcs[t].Work? { OwnWork(q, t, x); }
    else { OwnPass(q, t, x); }
  }

  lemma OwnClaim<T>(q: Queue<T>, t: Tid, x: Chance)
    requires QInv(q) && t < |q.cons.pcs| && Claims(StepConsumer(q, t, x).cons) > Claims(q.cons)
    ensures var r := StepConsumer(q, t, x);
            t < |r.cons.pcs| && t < |r.outs| && OutOk(r.cons.ends, r.cons.pcs[t], r.outs[t], r.hist)
  {
    StepShape(q.cons, q.prod.tail, t, x);
    CountersInOrder(q);
  }

  lemma OwnPass<T>(q: Queue<T>, t: Tid, x: Chance)
    requires QInv(q) && t < |q.cons.pcs| && Claims(StepConsumer(q, t, x).cons) <= Claims(q.cons)
    requires !q.cons.pcs[t].Work?
    ensures var r := StepConsumer(q, t, x);
            t < |r.cons.pcs| && t < |r.outs| && OutOk(r.cons.ends, r.cons.pcs[t], r.outs[t], r.hist)
  {
    PassShape(q.cons, q.prod.tail, t, x);
    assert OutOk(q.cons.ends, q.cons.pcs[t], q.outs[t], q.hist);
  }

  lemma ConsumerReads<T>(q: Queue<T>, t: Tid, x: Chance)
    requires QInv(q) && t < |q.cons.pcs| && q.cons.pcs[t].Work?
    ensures var r := StepConsumer(q, t, x);
            var c, i := q.cons.pcs[t].c, q.cons.pcs[t].i;
            var p := End(q.cons.ends, c) + i;
            && i < Length(q.cons.ends, c) && p < |q.hist| && r.outs[t] == q.outs[t] + [q.hist[p]]
            && r.cons.ends == q.cons.ends
            && r.cons.pcs[t] == if i + 1 < Length(q.cons.ends, c) then Work(c, i + 1) else Release(q.cons.mode, c)
  {
    ReadsItsValue(q, t);
    WorkShape(q.cons, q.prod.tail, t, x);
    assert ClaimOk(q.cons, t, q.cons.pcs[t]);
  }

  lemma OwnWork<T>(q: Queue<T>, t: Tid, x: Chance)
    requires QInv(q) && t < |q.cons.pcs| && q.cons.pcs[t].Work?
    ensures var r := StepConsumer(q, t, x); OutOk(r.cons.ends, r.cons.pcs[t], r.outs[t], r.hist)
  {
    ConsumerReads(q, t, x);
    assert OutOk(q.cons.ends, q.cons.pcs[t], q.outs[t], q.hist);
    OutGrows(q.cons.ends, q.cons.mode, q.cons.pcs[t].c, q.cons.pcs[t].i, q.outs[t], q.hist);
  }

  lemma OutGrows<T>(ends: seq<nat>, mode: Mode, c: nat, i: nat, out: seq<T>, hist: seq<T>)
    requires OutOk(ends, Work(c, i), out, hist) && End(ends, c) + i < |hist| && i < Length(ends, c)
    ensures OutOk(ends, if i + 1 < Length(ends, c) then Work(c, i + 1) else Release(mode, c),
                  out + [hist[End(ends, c) + i]], hist)
  {
    var a := End(ends, c);
    assert hist[a..a + i] + [hist[a + i]] == hist[a..a + (i + 1)];
  }

  lemma ConsumerStep<T>(q: Queue<T>, t: Tid, x: Chance)
    requires QInv(q) && t < |q.cons.pcs|
    ensures QInv(StepConsumer(q, t, x))
  {
    StepKeepsBoth(q.cons, q.prod.tail, t, x, q.prod, q.capacity);
    ConsumerRing(q, t, x);
    ConsumerOuts(q, t, x);
  }

  lemma PushBegins<T>(q: Queue<T>, t: Tid, values: seq<T>)
    requires QInv(q)
    ensures QInv(Next(q, PushBulk(t, values)))
  {
    BeginKeepsInv(q.prod, q.cons.tail + q.capacity, t, |values|);
  }

  lemma PopBegins<T>(q: Queue<T>, t: Tid, n: nat)
    requires QInv(q)
    ensures QInv(Next(q, PopBulk(t, n)))
  {
    BeginKeepsInv(q.cons, q.prod.tail, t, n);
  }

  lemma NextKeepsInv<T>(q: Queue<T>, e: Event<T>)
    requires QInv(q)
    ensures QInv(Next(q, e))
  {
    match e {
      case PushBulk(t, values) => PushBegins(q, t, values);
      case PopBulk(t, n) => PopBegins(q, t, n);
      case RunProducer(t, x) => if t < |q.prod.pcs| { ProducerStep(q, t, x); }
      case RunConsumer(t, x) => if t < |q.cons.pcs| { ConsumerStep(q, t, x); }
    }
  }

  lemma {:induction false} ExecKeepsInv<T>(q: Queue<T>, es: seq<Event<T>>)
    requires Initially(q)
    ensures QInv(Exec(q, es))
  {
    if es != [] {
      ExecKeepsInv(q, es[..|es| - 1]);
      NextKeepsInv(Exec(q, es[..|es| - 1]), es[|es| - 1]);
    }
  }

  // ---------------------------------------------------------------- what follows for every run

  /** The slot that a thread of a side writes or empties. */
  function WorkSlot<T>(q: Queue<T>, s: Side, t: Tid): nat
    requires q.ringSize > 0 && t < |s.pcs| && s.pcs[t].Work?
  {
    ToId(q, End(s.ends, s.pcs[t].c) + s.pcs[t].i)
  }

  predicate Works(s: Side, t: Tid) { t < |s.pcs| && s.pcs[t].Work? }

  function WorkPos(s: Side, t: Tid): nat
    requires Works(s, t)
  {
    End(s.ends, s.pcs[t].c) + s.pcs[t].i
  }

  /** A slot at work is claimed and not released. */
  lemma ProducerAt(q: Queue, t: Tid)
    requires QInv(q) && Works(q.prod, t)
    ensures q.cons.tail <= q.prod.tail <= WorkPos(q.prod, t) < q.prod.head
  {
    CountersInOrder(q);
    WorkPosition(q.prod, q.cons.tail + q.capacity, t);
  }

  lemma ConsumerAt(q: Queue, t: Tid)
    requires QInv(q) && Works(q.cons, t)
    ensures q.cons.tail <= WorkPos(q.cons, t) < q.prod.tail <= q.prod.head
  {
    CountersInOrder(q);
    WorkPosition(q.cons, q.prod.tail, t);
  }

  lemma SidesApart(q: Queue, t: Tid, u: Tid)
    requires QInv(q) && Works(q.prod, t) && Works(q.cons, u)
    ensures WorkSlot(q, q.prod, t) != WorkSlot(q, q.cons, u)
  {
    ProducerAt(q, t);
    ConsumerAt(q, u);
    SlotExclusive(q, WorkPos(q.prod, t), WorkPos(q.cons, u));
  }

  lemma ProducersApart(q: Queue, t: Tid, u: Tid)
    requires QInv(q) && Works(q.prod, t) && Works(q.prod, u) && t != u
    ensures WorkSlot(q, q.prod, t) != WorkSlot(q, q.prod, u)
  {
    ProducerAt(q, t);
    ProducerAt(q, u);
    WorkersApart(q.prod, q.cons.tail + q.capacity, t, u);
    SlotExclusive(q, WorkPos(q.prod, t), WorkPos(q.prod, u));
  }

  lemma ConsumersApart(q: Queue, t: Tid, u: Tid)
    requires QInv(q) && Works(q.cons, t) && Works(q.cons, u) && t != u
    ensures WorkSlot(q, q.cons, t) != WorkSlot(q, q.cons, u)
  {
    ConsumerAt(q, t);
    ConsumerAt(q, u);
    WorkersApart(q.cons, q.prod.tail, t, u);
    SlotExclusive(q, WorkPos(q.cons, t), WorkPos(q.cons, u));
  }

  /** The four counters stay in order, so that a slot a producer may be writing or a consumer may be
      emptying is never the slot of another operation in flight. */
  lemma SlotsNeverShared<T>(q0: Queue<T>, es: seq<Event<T>>, t: Tid, u: Tid)
    requires Initially(q0)
    ensures var q := Exec(q0, es);
            && q.cons.tail <= q.cons.head <= q.prod.tail <= q.prod.head <= q.cons.tail + q.capacity
            && (Works(q.prod, t) && Works(q.cons, u) ==> WorkSlot(q, q.prod, t) != WorkSlot(q, q.cons, u))
            && (Works(q.prod, t) && Works(q.prod, u) && t != u ==> WorkSlot(q, q.prod, t) != WorkSlot(q, q.prod, u))
            && (Works(q.cons, t) && Works(q.cons, u) && t != u ==> WorkSlot(q, q.cons, t) != WorkSlot(q, q.cons, u))
  {
    ExecKeepsInv(q0, es);
    var q := Exec(q0, es);
    CountersInOrder(q);
    if Works(q.prod, t) && Works(q.cons, u) { SidesApart(q, t, u); }
    if Works(q.prod, t) && Works(q.prod, u) && t != u { ProducersApart(q, t, u); }
    if Works(q.cons, t) && Works(q.cons, u) && t != u { ConsumersApart(q, t, u); }
  }

  /** The abstract queue: the values claimed by producers and not yet by consumers, oldest first. */
  ghost function Contents<T>(q: Queue<T>): seq<T>
    requires QInv(q)
  {
    BelowTailWorked(q.cons, q.prod.tail);
    BelowTailWorked(q.prod, q.cons.tail + q.capacity);
    q.hist[q.cons.head..]
  }

  /** A step of the bounded FIFO: a producer's claim puts the accepted prefix of its values at the back,
      a consumer's claim takes a run from the front, which is exactly what it will have moved out when it
      is done, and every other step leaves the queue alone. */
  ghost predicate FifoStep<T>(q: Queue<T>, e: Event<T>, r: Queue<T>)
    requires QInv(q) && QInv(r)
  {
    if r.prod.head != q.prod.head then Enqueued(q, e.t, r.prod.head - q.prod.head, r) && e.RunProducer?
    else if r.cons.head != q.cons.head then Dequeued(q, e.t, r.cons.head - q.cons.head, r) && e.RunConsumer?
    else Contents(r) == Contents(q)
  }

  ghost predicate Enqueued<T>(q: Queue<T>, t: Tid, len: int, r: Queue<T>)
    requires QInv(q) && QInv(r)
  {
    && t < |q.args| && 0 < len <= |q.args[t]|
    && Contents(r) == Contents(q) + q.args[t][..len] && |Contents(r)| <= q.capacity
  }

  ghost predicate Dequeued<T>(q: Queue<T>, t: Tid, len: int, r: Queue<T>)
    requires QInv(q) && QInv(r)
  {
    0 < len <= |Contents(q)| && Contents(r) == Contents(q)[len..] && Promised(r, t, Contents(q)[..len])
  }

  /** Consumer `t` has just made a claim whose positions hold `values`. */
  ghost predicate Promised<T>(q: Queue<T>, t: Tid, values: seq<T>) {
    && t < |q.cons.pcs| && q.cons.pcs[t].Work? && q.cons.pcs[t].i == 0
    && var a, n := End(q.cons.ends, q.cons.pcs[t].c), Length(q.cons.ends, q.cons.pcs[t].c);
       a + n <= |q.hist| && values == q.hist[a..a + n]
  }

  lemma RefinesFifo<T>(q0: Queue<T>, es: seq<Event<T>>, e: Event<T>)
    requires Initially(q0)
    ensures QInv(Exec(q0, es)) && QInv(Next(Exec(q0, es), e))
    ensures FifoStep(Exec(q0, es), e, Next(Exec(q0, es), e))
  {
    ExecKeepsInv(q0, es);
    var q := Exec(q0, es);
    NextKeepsInv(q, e);
    match e {
      case PushBulk(_, _) =>
      case PopBulk(_, _) =>
      case RunProducer(t, x) => if t < |q.prod.pcs| { ProducerRefines(q, t, x); }
      case RunConsumer(t, x) => if t < |q.cons.pcs| { ConsumerRefines(q, t, x); }
    }
  }

  lemma ProducerRefines<T>(q: Queue<T>, t: Tid, x: Chance)
    requires QInv(q) && t < |q.prod.pcs| && QInv(StepProducer(q, t, x))
    ensures FifoStep(q, RunProducer(t, x), StepProducer(q, t, x))
  {
    StepShape(q.prod, q.cons.tail + q.capacity, t, x);
    if Claims(StepProducer(q, t, x).prod) > Claims(q.prod) { ProducerEnqueues(q, t, x); }
  }

  lemma ProducerEnqueues<T>(q: Queue<T>, t: Tid, x: Chance)
    requires QInv(q) && t < |q.prod.pcs| && QInv(StepProducer(q, t, x))
    requires Claims(StepProducer(q, t, x).prod) > Claims(q.prod)
    ensures var r := StepProducer(q, t, x);
            r.prod.head > q.prod.head && Enqueued(q, t, r.prod.head - q.prod.head, r)
  {
    StepShape(q.prod, q.cons.tail + q.capacity, t, x);
    ProducerClaims(q, t, x);
    EnqueuedBy(q, StepProducer(q, t, x), t, Wanted(q.prod, t, q.cons.tail + q.capacity));
  }

  lemma EnqueuedBy<T>(q: Queue<T>, r: Queue<T>, t: Tid, len: nat)
    requires QInv(q) && QInv(r) && r.cons == q.cons && r.capacity == q.capacity
    requires t < |q.args| && 0 < len <= |q.args[t]| && r.hist == q.hist + q.args[t][..len]
    ensures Enqueued(q, t, len, r)
  {
    CountersInOrder(q);
    CountersInOrder(r);
    SuffixAppends(q.hist, q.args[t][..len], q.cons.head);
  }

  lemma SuffixAppends<T>(hist: seq<T>, more: seq<T>, k: nat)
    requires k <= |hist|
    ensures (hist + more)[k..] == hist[k..] + more
  {
  }

  lemma ConsumerRefines<T>(q: Queue<T>, t: Tid, x: Chance)
    requires QInv(q) && t < |q.cons.pcs| && QInv(StepConsumer(q, t, x))
    ensures FifoStep(q, RunConsumer(t, x), StepConsumer(q, t, x))
  {
    StepShape(q.cons, q.prod.tail, t, x);
    if Claims(StepConsumer(q, t, x).cons) > Claims(q.cons) { ConsumerDequeues(q, t, x); }
  }

  lemma ConsumerDequeues<T>(q: Queue<T>, t: Tid, x: Chance)
    requires QInv(q) && t < |q.cons.pcs| && QInv(StepConsumer(q, t, x))
    requires Claims(StepConsumer(q, t, x).cons) > Claims(q.cons)
    ensures var r := StepConsumer(q, t, x);
            r.cons.head > q.cons.head && Dequeued(q, t, r.cons.head - q.cons.head, r)
  {
    var r := StepConsumer(q, t, x);
    StepShape(q.cons, q.prod.tail, t, x);
    CountersInOrder(q);
    CountersInOrder(r);
    var len := r.cons.head - q.cons.head;
    assert ClaimOk(r.cons, t, r.cons.pcs[t]);
    assert Contents(r) == Contents(q)[len..];
    assert Promised(r, t, Contents(q)[..len]);
  }

  /** And the promise is kept: a consumer that has emptied its slots has moved out, in order, the
      values that producers put at the positions it claimed. */
  lemma PromiseKept<T>(q0: Queue<T>, es: seq<Event<T>>, t: Tid)
    requires Initially(q0)
    requires var q := Exec(q0, es); t < |q.cons.pcs| && Holds(q.cons.pcs[t]) && !q.cons.pcs[t].Work?
    ensures var q := Exec(q0, es);
            var a, n := End(q.cons.ends, q.cons.pcs[t].c), Length(q.cons.ends, q.cons.pcs[t].c);
            t < |q.outs| && a + n <= |q.hist| && q.outs[t] == q.hist[a..a + n]
  {
    ExecKeepsInv(q0, es);
    var q := Exec(q0, es);
    assert OutOk(q.cons.ends, q.cons.pcs[t], q.outs[t], q.hist);
  }

  /** A push that has something to push gives up, wherever it is, only at an instant when the capacity is
      claimed and unreleased. */
  lemma PushFailsOnlyWhenFull<T>(q0: Queue<T>, es: seq<Event<T>>, t: Tid, x: Chance)
    requires Initially(q0)
    requires var q := Exec(q0, es); t < |q.prod.pcs| && Early(q.prod.pcs[t]) && q.prod.pcs[t].n > 0
    ensures var q := Exec(q0, es);
            t < |Next(q, RunProducer(t, x)).prod.pcs| &&
            (Next(q, RunProducer(t, x)).prod.pcs[t] == Idle <==>
             q.prod.pcs[t].LoadLimit? && q.prod.pcs[t].pos == q.prod.head == q.cons.tail + q.capacity)
  {
    ExecKeepsInv(q0, es);
    ProducerGivesUp(Exec(q0, es), t, x);
  }

  lemma ProducerGivesUp<T>(q: Queue<T>, t: Tid, x: Chance)
    requires QInv(q) && t < |q.prod.pcs| && Early(q.prod.pcs[t]) && q.prod.pcs[t].n > 0
    ensures t < |StepProducer(q, t, x).prod.pcs|
    ensures StepProducer(q, t, x).prod.pcs[t] == Idle <==>
            q.prod.pcs[t].LoadLimit? && q.prod.pcs[t].pos == q.prod.head == q.cons.tail + q.capacity
  {
    FailsOnlyAtLimit(q.prod, q.cons.tail + q.capacity, t, x);
    ProducerShape(q, t, x);
  }

  /** A pop gives up, wherever it is, only at an instant when nothing is published and unclaimed. */
  lemma PopFailsOnlyWhenEmpty<T>(q0: Queue<T>, es: seq<Event<T>>, t: Tid, x: Chance)
    requires Initially(q0)
    requires var q := Exec(q0, es); t < |q.cons.pcs| && Early(q.cons.pcs[t]) && q.cons.pcs[t].n > 0
    ensures var q := Exec(q0, es);
            t < |Next(q, RunConsumer(t, x)).cons.pcs| &&
            (Next(q, RunConsumer(t, x)).cons.pcs[t] == Idle <==>
             q.cons.pcs[t].LoadLimit? && q.cons.pcs[t].pos == q.cons.head == q.prod.tail)
  {
    ExecKeepsInv(q0, es);
    var q := Exec(q0, es);
    FailsOnlyAtLimit(q.cons, q.prod.tail, t, x);
  }

  /** The oldest claim of the side that is not released has an owner, who is at work on it or has its turn. */
  predicate OldestAtWork(s: Side) {
    && s.low < |s.owner| && s.owner[s.low] < |s.pcs| && Holds(s.pcs[s.owner[s.low]])
    && s.pcs[s.owner[s.low]].c == s.low && Left(s.mode, s.ends, s.pcs[s.owner[s.low]]) > 0
  }

  /** A thread that cannot go on waits for its turn, and the oldest claim is at work. */
  predicate WaitsWell(s: Side, limit: nat, t: Tid, x: Chance) {
    t < |s.pcs| && s.pcs[t] != Idle && Advance(s, t, limit, x) == s ==> s.pcs[t].Turn? && OldestAtWork(s)
  }

  /** No operation waits in vain, on either side of any reachable queue. */
  lemma NobodyWaitsInVain<T>(q0: Queue<T>, es: seq<Event<T>>, t: Tid, x: Chance)
    requires Initially(q0)
    ensures var q := Exec(q0, es);
            WaitsWell(q.prod, q.cons.tail + q.capacity, t, x) && WaitsWell(q.cons, q.prod.tail, t, x)
  {
    ExecKeepsInv(q0, es);
    BothWait(Exec(q0, es), t, x);
  }

  lemma BothWait<T>(q: Queue<T>, t: Tid, x: Chance)
    requires QInv(q)
    ensures WaitsWell(q.prod, q.cons.tail + q.capacity, t, x) && WaitsWell(q.cons, q.prod.tail, t, x)
  {
    SideWaits(q.prod, q.cons.tail + q.capacity, t, x);
    SideWaits(q.cons, q.prod.tail, t, x);
  }

  lemma SideWaits(s: Side, limit: nat, t: Tid, x: Chance)
    requires Inv(s, limit)
    ensures WaitsWell(s, limit, t, x)
  {
    if t < |s.pcs| && s.pcs[t] != Idle && Advance(s, t, limit, x) == s { var u := NobodyIsStuck(s, limit, t, x); }
  }
}
