/** In which order AtomicQueue delivers (queue-bench/atomic_queue.h:176-315).  A position is claimed by one
    push and by one pop; delivery is in order if the pop gets the value of that push.  The history of a run
    is kept beside the queue, and no step of the queue reads it: which position each thread has claimed last, which
    position's value each cell has got last, the value of each position, and what the completed pops got. */
module AtomicOrder {
  import opened Counting
  import opened AtomicQueue
  import Bits
  import Remap

  datatype History<T> = History(
    s: State<T>,
    at: seq<nat>,              // by thread
    inside: seq<nat>,          // by cell
    claimed: seq<T>,           // by position
    log: seq<(nat, T)>)        // position and value of the completed pops

  ghost predicate Fits(h: History) { Shaped(h.s) && |h.at| == |h.s.pcs| && |h.inside| == h.s.size }

  ghost function Step<T>(h: History<T>, e: Event<T>): (r: History<T>)
    requires Fits(h)
    ensures Fits(r) && r.s == Next(h.s, e) && |r.s.pcs| == |h.s.pcs|
  {
    var s, r := h.s, Next(h.s, e);
    if e.t >= |s.pcs| || !e.Run? then h.(s := r)
    else
      match s.pcs[e.t]
      case PushCas(v, p) =>
        if s.head == p then h.(s := r, at := h.at[e.t := p], claimed := h.claimed + [v]) else h.(s := r)
      case PopCas(p) => if s.tail == p then h.(s := r, at := h.at[e.t := p]) else h.(s := r)
      case PushCell(_, c) => if r.pcs[e.t].Idle? then h.(s := r, inside := h.inside[c := h.at[e.t]]) else h.(s := r)
      case PushPublish(_, c) => if r.pcs[e.t].Idle? then h.(s := r, inside := h.inside[c := h.at[e.t]]) else h.(s := r)
      case PopCell(c) => if r.pcs[e.t].Idle? then h.(s := r, log := h.log + [(h.at[e.t], s.cells[c].element)]) else h.(s := r)
      case PopRelease(v, c) => if r.pcs[e.t].Idle? then h.(s := r, log := h.log + [(h.at[e.t], v)]) else h.(s := r)
      case _ => h.(s := r)
  }

  ghost function Record<T>(h: History<T>, es: seq<Event<T>>): (r: History<T>)
    requires Fits(h)
    ensures Fits(r) && |r.s.pcs| == |h.s.pcs|
  {
    if es == [] then h else Step(Record(h, es[..|es| - 1]), es[|es| - 1])
  }

  ghost function Start<T>(s: State<T>): (h: History<T>)
    requires Shaped(s)
    ensures Fits(h)
  {
    History(s, seq(|s.pcs|, _ => 0), seq(s.size, _ => 0), [], [])
  }

  /** The history only watches. */
  lemma {:induction false} SameRun<T>(h: History<T>, es: seq<Event<T>>)
    requires Fits(h)
    ensures Record(h, es).s == Exec(h.s, es)
  {
    if es != [] { SameRun(h, es[..|es| - 1]); }
  }

  /** Every completed pop got the value of the push that claimed the same position. */
  ghost predicate InOrder<T>(h: History<T>) {
    forall i :: 0 <= i < |h.log| ==> h.log[i].0 < |h.claimed| && h.log[i].1 == h.claimed[h.log[i].0]
  }

  /** Only threads in `producers` call try_push and only threads in `consumers` try_pop. */
  predicate Uses<T>(es: seq<Event<T>>, producers: set<Tid>, consumers: set<Tid>) {
    forall i :: 0 <= i < |es| ==>
      (es[i].TryPush? ==> es[i].t in producers) && (es[i].TryPop? ==> es[i].t in consumers)
  }

  // ---------------------------------------------------------------- two threads

  predicate PushAt<T>(h: History<T>, t: Tid, p: nat) {
    && t < |h.s.pcs| && t < |h.at| && h.at[t] == p
    && (h.s.pcs[t].PushCell? || h.s.pcs[t].PushWrite? || h.s.pcs[t].PushPublish?)
  }

  predicate PopAt<T>(h: History<T>, t: Tid, p: nat) {
    && t < |h.s.pcs| && t < |h.at| && h.at[t] == p
    && (h.s.pcs[t].PopCell? || h.s.pcs[t].PopRead? || h.s.pcs[t].PopRelease?)
  }

  ghost function CellOf<T>(h: History<T>, p: nat): (c: nat)
    requires Shaped(h.s)
    ensures c < h.s.size
  {
    Remap.Cell(h.s.size, h.s.bits, p)
  }

  /** The push of position `p` is done and its pop is not; `a` and `b` are the threads that may be at it. */
  predicate Live<T>(h: History<T>, a: Tid, b: Tid, p: nat) {
    && p < h.s.head && !PushAt(h, a, p) && !PushAt(h, b, p)
    && (p >= h.s.tail || PopAt(h, a, p) || PopAt(h, b, p))
  }

  ghost predicate LiveOk<T>(h: History<T>, a: Tid, b: Tid, p: nat)
    requires Fits(h)
  {
    Live(h, a, b, p) ==>
      var c := CellOf(h, p);
      p < |h.claimed| && Held(h.s.cells[c].phase) == 1 && h.inside[c] == p && h.s.cells[c].element == h.claimed[p]
  }

  ghost predicate PlaceOk<T>(h: History<T>, a: Tid, b: Tid, t: Tid)
    requires Fits(h)
  {
    t < |h.s.pcs| ==>
      var p := h.at[t];
      match h.s.pcs[t]
      case PushCell(v, c) => p < |h.claimed| && c == CellOf(h, p) && v == h.claimed[p]
      case PushWrite(v, c) => p < |h.claimed| && c == CellOf(h, p) && v == h.claimed[p]
      case PushPublish(v, c) => p < |h.claimed| && c == CellOf(h, p) && v == h.claimed[p]
      case PopCell(c) => p < h.s.tail && c == CellOf(h, p)
      case PopRead(c) => p < h.s.tail && c == CellOf(h, p) && !PushAt(h, a, p) && !PushAt(h, b, p)
      case PopRelease(v, c) => p < h.s.tail && c == CellOf(h, p) && !PushAt(h, a, p) && !PushAt(h, b, p)
      case _ => true
  }

  /** While `a` waits for a value that `b` has not stored, nobody claims further positions. */
  predicate PairOk<T>(h: History<T>, a: Tid, b: Tid)
  {
    a != b && a < |h.at| && PopAt(h, a, h.at[a]) ==>
      && !PopAt(h, b, h.at[a])
      && (PushAt(h, b, h.at[a]) ==> h.s.head <= h.at[a] + h.s.size)
  }

  ghost predicate AllLive<T>(h: History<T>, a: Tid, b: Tid)
    requires Fits(h)
  {
    forall p: nat {:trigger LiveOk(h, a, b, p)} :: LiveOk(h, a, b, p)
  }

  ghost predicate TwoInv<T>(h: History<T>, a: Tid, b: Tid) {
    && Fits(h) && Inv(h.s) && |h.claimed| == h.s.head
    && (forall t: Tid :: t < |h.s.pcs| && t != a && t != b ==> h.s.pcs[t].Idle?)
    && PlaceOk(h, a, b, a) && PlaceOk(h, a, b, b) && PairOk(h, a, b) && PairOk(h, b, a)
    && AllLive(h, a, b)
    && InOrder(h)
  }

  lemma TwoSymmetric<T>(h: History<T>, a: Tid, b: Tid)
    requires TwoInv(h, a, b)
    ensures TwoInv(h, b, a)
  {
    forall p: nat ensures LiveOk(h, b, a, p) { assert LiveOk(h, a, b, p); }
  }

  /** A position that is live before and after, with its cell untouched. */
  lemma LiveStays<T>(h: History<T>, r: History<T>, a: Tid, b: Tid, p: nat)
    requires Fits(h) && Fits(r) && LiveOk(h, a, b, p) && r.s.size == h.s.size && r.s.bits == h.s.bits
    requires Live(r, a, b, p) ==> Live(h, a, b, p)
    requires r.s.cells[CellOf(h, p)] == h.s.cells[CellOf(h, p)] && r.inside[CellOf(h, p)] == h.inside[CellOf(h, p)]
    requires h.claimed <= r.claimed
    ensures LiveOk(r, a, b, p)
  {
  }

  /** A step before a claim. */
  lemma PassOrder<T>(h: History<T>, a: Tid, b: Tid, pc: PC<T>)
    requires TwoInv(h, a, b) && a < |h.s.pcs| && !Pending(pc) && !Pending(h.s.pcs[a])
    requires Inv(Move(h.s, a, pc))
    ensures TwoInv(h.(s := Move(h.s, a, pc)), a, b)
  {
    var r := h.(s := Move(h.s, a, pc));
    forall p: nat ensures LiveOk(r, a, b, p) { assert LiveOk(h, a, b, p); LiveStays(h, r, a, b, p); }
  }

  lemma PushClaimOrder<T>(h: History<T>, a: Tid, b: Tid)
    requires TwoInv(h, a, b) && a < |h.s.pcs| && h.s.pcs[a].PushCas? && h.s.pcs[a].h == h.s.head
    requires Inv(Step(h, Run(a)).s)
    ensures TwoInv(Step(h, Run(a)), a, b)
  {
    var r := Step(h, Run(a));
    forall p: nat ensures LiveOk(r, a, b, p) { assert LiveOk(h, a, b, p); LiveStays(h, r, a, b, p); }
  }

  lemma PopClaimOrder<T>(h: History<T>, a: Tid, b: Tid)
    requires TwoInv(h, a, b) && a < |h.s.pcs| && h.s.pcs[a].PopCas? && h.s.pcs[a].h == h.s.tail
    requires Inv(Step(h, Run(a)).s)
    ensures TwoInv(Step(h, Run(a)), a, b)
  {
    var r := Step(h, Run(a));
    forall p: nat ensures LiveOk(r, a, b, p) { assert LiveOk(h, a, b, p); LiveStays(h, r, a, b, p); }
  }

  /** A step at a cell that holds no value before it: no live position has the cell. */
  lemma FillLive<T>(h: History<T>, r: History<T>, a: Tid, b: Tid, c: nat, own: nat)
    requires Fits(h) && Fits(r) && AllLive(h, a, b) && r.s.size == h.s.size && r.s.bits == h.s.bits
    requires c < h.s.size && Held(h.s.cells[c].phase) == 0 && r.claimed == h.claimed
    requires forall d :: 0 <= d < h.s.size && d != c ==> r.s.cells[d] == h.s.cells[d] && r.inside[d] == h.inside[d]
    requires forall p: nat :: p != own && Live(r, a, b, p) ==> Live(h, a, b, p)
    requires LiveOk(r, a, b, own)
    ensures AllLive(r, a, b)
  {
    forall p: nat ensures LiveOk(r, a, b, p) {
      assert LiveOk(h, a, b, p);
      if p != own && CellOf(h, p) != c { LiveStays(h, r, a, b, p); }
    }
  }

  /** The value becomes visible in a cell that held none. */
  lemma StoreOrder<T>(h: History<T>, a: Tid, b: Tid)
    requires TwoInv(h, a, b) && a < |h.s.pcs| && (h.s.pcs[a].PushCell? || h.s.pcs[a].PushPublish?)
    requires Step(h, Run(a)).s.pcs[a].Idle? && Inv(Step(h, Run(a)).s)
    ensures TwoInv(Step(h, Run(a)), a, b)
  {
    var r := Step(h, Run(a));
    var c, own := h.s.pcs[a].c, h.at[a];
    assert Busy(h.s, a, h.s.pcs[a]);
    assert r.s.cells == h.s.cells[c := Cell(Stored, h.claimed[own])];
    FillLive(h, r, a, b, c, own);
  }

  /** A push takes its cell, or writes the value there. */
  lemma WriteOrder<T>(h: History<T>, a: Tid, b: Tid)
    requires TwoInv(h, a, b) && a < |h.s.pcs| && (h.s.pcs[a].PushCell? || h.s.pcs[a].PushWrite?)
    requires Step(h, Run(a)).s.pcs[a] != h.s.pcs[a] && !Step(h, Run(a)).s.pcs[a].Idle?
    requires Inv(Step(h, Run(a)).s)
    ensures TwoInv(Step(h, Run(a)), a, b)
  {
    var r := Step(h, Run(a));
    var c := h.s.pcs[a].c;
    assert Busy(h.s, a, h.s.pcs[a]);
    FillLive(h, r, a, b, c, h.at[a]);
  }

  /** No position from `lo` to before `hi` has the cell of `p`. */
  lemma {:induction false} NoClaims(size: nat, bits: nat, p: nat, lo: nat, hi: nat)
    requires Remap.Layout(size, bits) && p < lo <= hi <= p + size
    ensures Claims(size, bits, hi, Remap.Cell(size, bits, p)) == Claims(size, bits, lo, Remap.Cell(size, bits, p))
    decreases hi
  {
    if lo < hi {
      NoClaims(size, bits, p, lo, hi - 1);
      Remap.CellsApart(size, bits, p, hi - 1);
    }
  }

  /** With `a` the only thread that pops and `b` a thread that pushes at cell `c`. */
  lemma OnlyPop<T>(pcs: seq<PC<T>>, a: Tid, b: Tid, c: nat)
    requires a < |pcs| && b < |pcs| && a != b && PushPending(pcs[b], c) && PopPending(pcs[a], c)
    requires forall t: Tid :: t < |pcs| && t != a && t != b ==> pcs[t].Idle?
    ensures Count(pcs, PushesAt(c)) >= 1 && Count(pcs, PopsAt(c)) == 1
  {
    CountUpdate(pcs, b, Idle, PushesAt(c));
    CountUpdate(pcs, a, Idle, PopsAt(c));
    CountNone(pcs[a := Idle], PopsAt(c));
  }

  /** A pop that finds a value finds that of its own position. */
  lemma TakesOwn<T>(h: History<T>, a: Tid, b: Tid)
    requires TwoInv(h, a, b) && a < |h.s.pcs| && h.s.pcs[a].PopCell?
    requires h.s.cells[CellOf(h, h.at[a])].phase == Stored
    ensures !PushAt(h, b, h.at[a])
  {
    var p := h.at[a];
    if PushAt(h, b, p) {
      var c := CellOf(h, p);
      assert Balanced(h.s, c);
      OnlyPop(h.s.pcs, a, b, c);
      NoClaims(h.s.size, h.s.bits, p, h.s.tail, h.s.head);
      assert false;
    }
  }

  /** The value of position `own` leaves its cell. */
  lemma LeaveLive<T>(h: History<T>, r: History<T>, a: Tid, b: Tid, c: nat, own: nat)
    requires Fits(h) && Fits(r) && AllLive(h, a, b) && r.s.size == h.s.size && r.s.bits == h.s.bits
    requires c < h.s.size && h.inside[c] == own && r.claimed == h.claimed && r.inside == h.inside
    requires forall d :: 0 <= d < h.s.size && d != c ==> r.s.cells[d] == h.s.cells[d]
    requires forall p: nat :: Live(r, a, b, p) ==> p != own && Live(h, a, b, p)
    ensures AllLive(r, a, b)
  {
    forall p: nat ensures LiveOk(r, a, b, p) {
      assert LiveOk(h, a, b, p);
      if CellOf(h, p) != c { LiveStays(h, r, a, b, p); }
    }
  }

  lemma TakeOrder<T>(h: History<T>, a: Tid, b: Tid)
    requires TwoInv(h, a, b) && a < |h.s.pcs| && (h.s.pcs[a].PopCell? || h.s.pcs[a].PopRelease?)
    requires Step(h, Run(a)).s.pcs[a].Idle? && Inv(Step(h, Run(a)).s)
    ensures TwoInv(Step(h, Run(a)), a, b)
  {
    var r := Step(h, Run(a));
    var c, own := h.s.pcs[a].c, h.at[a];
    assert Busy(h.s, a, h.s.pcs[a]);
    if h.s.pcs[a].PopCell? { TakesOwn(h, a, b); }
    assert LiveOk(h, a, b, own) && Live(h, a, b, own);
    LeaveLive(h, r, a, b, c, own);
    assert r.log == h.log + [(own, h.claimed[own])];
  }

  /** A pop takes its cell, or reads the value there. */
  lemma ReadOrder<T>(h: History<T>, a: Tid, b: Tid)
    requires TwoInv(h, a, b) && a < |h.s.pcs| && (h.s.pcs[a].PopCell? || h.s.pcs[a].PopRead?)
    requires Step(h, Run(a)).s.pcs[a] != h.s.pcs[a] && !Step(h, Run(a)).s.pcs[a].Idle?
    requires Inv(Step(h, Run(a)).s)
    ensures TwoInv(Step(h, Run(a)), a, b)
  {
    var r := Step(h, Run(a));
    assert Busy(h.s, a, h.s.pcs[a]);
    if h.s.pcs[a].PopCell? { TakesOwn(h, a, b); }
    forall p: nat ensures LiveOk(r, a, b, p) { assert LiveOk(h, a, b, p); }
  }

  lemma PushRunOrder<T>(h: History<T>, a: Tid, b: Tid)
    requires TwoInv(h, a, b) && a < |h.s.pcs| && Pushes(h.s.pcs[a])
    ensures TwoInv(Step(h, Run(a)), a, b)
  {
    NextKeepsInv(h.s, Run(a));
    var s, r := h.s, Step(h, Run(a));
    match s.pcs[a] {
      case PushLoad(v) => PassOrder(h, a, b, PushTest(v, s.head));
      case PushTest(v, p) => PassOrder(h, a, b, if p - s.tail >= s.size then Idle else PushCas(v, p));
      case PushCas(v, p) => if s.head == p { PushClaimOrder(h, a, b); } else { PassOrder(h, a, b, PushTest(v, s.head)); }
      case PushCell(_, _) =>
        if r.s.pcs[a].Idle? { StoreOrder(h, a, b); } else if r.s.pcs[a] != s.pcs[a] { WriteOrder(h, a, b); }
      case PushWrite(_, _) => assert Busy(s, a, s.pcs[a]); WriteOrder(h, a, b);
      case PushPublish(_, _) => assert Busy(s, a, s.pcs[a]); StoreOrder(h, a, b);
    }
  }

  lemma PopRunOrder<T>(h: History<T>, a: Tid, b: Tid)
    requires TwoInv(h, a, b) && a < |h.s.pcs| && !Pushes(h.s.pcs[a])
    ensures TwoInv(Step(h, Run(a)), a, b)
  {
    NextKeepsInv(h.s, Run(a));
    var s, r := h.s, Step(h, Run(a));
    match s.pcs[a] {
      case Idle =>
      case PopLoad => PassOrder(h, a, b, PopTest(s.tail));
      case PopTest(p) => PassOrder(h, a, b, if s.head - p <= 0 then Idle else PopCas(p));
      case PopCas(p) => if s.tail == p { PopClaimOrder(h, a, b); } else { PassOrder(h, a, b, PopTest(s.tail)); }
      case PopCell(_) =>
        if r.s.pcs[a].Idle? { TakeOrder(h, a, b); } else if r.s.pcs[a] != s.pcs[a] { ReadOrder(h, a, b); }
      case PopRead(_) => assert Busy(s, a, s.pcs[a]); ReadOrder(h, a, b);
      case PopRelease(_, _) => assert Busy(s, a, s.pcs[a]); TakeOrder(h, a, b);
    }
  }

  lemma TwoStep<T>(h: History<T>, a: Tid, b: Tid, e: Event<T>)
    requires TwoInv(h, a, b) && (e.Run? || e.t == a || e.t == b)
    ensures TwoInv(Step(h, e), a, b)
  {
    if e.t >= |h.s.pcs| {
    } else if e.t == a {
      OwnStep(h, a, b, e);
    } else if e.t == b {
      TwoSymmetric(h, a, b);
      OwnStep(h, b, a, e);
      TwoSymmetric(Step(h, e), b, a);
    }
  }

  lemma OwnStep<T>(h: History<T>, a: Tid, b: Tid, e: Event<T>)
    requires TwoInv(h, a, b) && e.t == a < |h.s.pcs|
    ensures TwoInv(Step(h, e), a, b)
  {
    NextKeepsInv(h.s, e);
    match e {
      case TryPush(_, v) => if h.s.pcs[a].Idle? { PassOrder(h, a, b, PushLoad(v)); }
      case TryPop(_) => if h.s.pcs[a].Idle? { PassOrder(h, a, b, PopLoad); }
      case Run(_) => if Pushes(h.s.pcs[a]) { PushRunOrder(h, a, b); } else { PopRunOrder(h, a, b); }
    }
  }

  lemma {:induction false} TwoThreads<T>(s0: State<T>, es: seq<Event<T>>, a: Tid, b: Tid)
    requires Initial(s0) && forall i :: 0 <= i < |es| ==> es[i].Run? || es[i].t == a || es[i].t == b
    ensures TwoInv(Record(Start(s0), es), a, b)
  {
    if es == [] {
      InitialInv(s0);
      var h := Start(s0);
      forall p: nat ensures LiveOk(h, a, b, p) {}
    } else {
      TwoThreads(s0, es[..|es| - 1], a, b);
      TwoStep(Record(Start(s0), es[..|es| - 1]), a, b, es[|es| - 1]);
    }
  }

  // ---------------------------------------------------------------- one consumer

  function Values<T>(log: seq<(nat, T)>): seq<T> { seq(|log|, i requires 0 <= i < |log| => log[i].1) }

  /** The completed pops had the positions 0, 1, 2 and so on, and only `b` pops. */
  ghost predicate InTurn<T>(h: History<T>, b: Tid) {
    && Fits(h)
    && (forall t: Tid :: t < |h.s.pcs| && t != b ==> Pushes(h.s.pcs[t]) || h.s.pcs[t].Idle?)
    && (forall i :: 0 <= i < |h.log| ==> h.log[i].0 == i)
    && |h.log| == h.s.tail - (if b < |h.s.pcs| && PopAt(h, b, h.at[b]) then 1 else 0)
    && (b < |h.s.pcs| && PopAt(h, b, h.at[b]) ==> h.at[b] + 1 == h.s.tail)
  }

  lemma PushTurn<T>(h: History<T>, b: Tid, t: Tid)
    requires InTurn(h, b) && t < |h.s.pcs| && Pushes(h.s.pcs[t])
    ensures InTurn(Step(h, Run(t)), b)
  {
    var r := Step(h, Run(t));
    assert r.s.tail == h.s.tail && r.log == h.log;
    assert r.s.pcs == h.s.pcs[t := r.s.pcs[t]];
  }

  lemma PopTurn<T>(h: History<T>, b: Tid)
    requires InTurn(h, b) && b < |h.s.pcs| && !Pushes(h.s.pcs[b])
    ensures InTurn(Step(h, Run(b)), b)
  {
    var r := Step(h, Run(b));
    assert r.s.pcs == h.s.pcs[b := r.s.pcs[b]];
    assert r.log == h.log || (|r.log| == |h.log| + 1 && r.log[..|h.log|] == h.log && r.log[|h.log|].0 == h.at[b]);
  }

  lemma TurnStep<T>(h: History<T>, b: Tid, e: Event<T>)
    requires InTurn(h, b) && (e.TryPop? ==> e.t == b)
    ensures InTurn(Step(h, e), b)
  {
    if e.t < |h.s.pcs| && e.Run? {
      if Pushes(h.s.pcs[e.t]) { PushTurn(h, b, e.t); } else if e.t == b { PopTurn(h, b); }
    }
  }

  lemma {:induction false} OneConsumer<T>(s0: State<T>, es: seq<Event<T>>, b: Tid)
    requires Initial(s0) && forall i :: 0 <= i < |es| && es[i].TryPop? ==> es[i].t == b
    ensures InTurn(Record(Start(s0), es), b)
  {
    if es != [] {
      OneConsumer(s0, es[..|es| - 1], b);
      TurnStep(Record(Start(s0), es[..|es| - 1]), b, es[|es| - 1]);
    }
  }

  /** With one producer and one consumer the popped values are a prefix of the pushed ones. */
  lemma OneToOneIsFifo<T>(s0: State<T>, es: seq<Event<T>>, a: Tid, b: Tid)
    requires Initial(s0) && Uses(es, {a}, {b})
    ensures var h := Record(Start(s0), es); Values(h.log) <= h.claimed && h.s.popped == multiset(Values(h.log))
  {
    TwoThreads(s0, es, a, b);
    OneConsumer(s0, es, b);
    LogIsPopped(s0, es);
  }

  /** The log has the values that the queue has given away. */
  lemma {:induction false} LogIsPopped<T>(s0: State<T>, es: seq<Event<T>>)
    requires Initial(s0)
    ensures var h := Record(Start(s0), es); h.s.popped == multiset(Values(h.log))
  {
    if es != [] {
      LogIsPopped(s0, es[..|es| - 1]);
      LogStep(Record(Start(s0), es[..|es| - 1]), es[|es| - 1]);
    }
  }

  lemma LogOne<T>(h: History<T>, r: History<T>, p: nat, v: T)
    requires h.s.popped == multiset(Values(h.log)) && r.s.popped == h.s.popped + multiset{v} && r.log == h.log + [(p, v)]
    ensures r.s.popped == multiset(Values(r.log))
  {
    assert Values(r.log) == Values(h.log) + [v];
  }

  lemma LogStep<T>(h: History<T>, e: Event<T>)
    requires Fits(h) && h.s.popped == multiset(Values(h.log))
    ensures Step(h, e).s.popped == multiset(Values(Step(h, e).log))
  {
    var r := Step(h, e);
    if e.t < |h.s.pcs| && e.Run? {
      match h.s.pcs[e.t] {
        case PopCell(c) => if r.s.pcs[e.t].Idle? { LogOne(h, r, h.at[e.t], h.s.cells[c].element); }
        case PopRelease(v, c) => if r.s.pcs[e.t].Idle? { LogOne(h, r, h.at[e.t], v); }
        case _ => assert r.log == h.log && r.s.popped == h.s.popped;
      }
    }
  }

  // ---------------------------------------------------------------- calls that run alone

  lemma {:induction false} RecordSplit<T>(h: History<T>, xs: seq<Event<T>>, ys: seq<Event<T>>)
    requires Fits(h)
    ensures Record(h, xs + ys) == Record(Record(h, xs), ys)
  {
    if ys == [] {
      assert xs + ys == xs;
    } else {
      RecordSplit(h, xs, ys[..|ys| - 1]);
      assert (xs + ys)[..|xs + ys| - 1] == xs + ys[..|ys| - 1];
    }
  }

  lemma RecordOne<T>(h: History<T>, e: Event<T>)
    requires Fits(h)
    ensures Record(h, [e]) == Step(h, e)
  {
    assert [e][..0] == [];
    assert Record(h, []) == h;
  }

  lemma RecordMore<T>(h: History<T>, es: seq<Event<T>>, e: Event<T>)
    requires Fits(h)
    ensures Record(h, es + [e]) == Step(Record(h, es), e)
  {
    RecordSplit(h, es, [e]);
    RecordOne(Record(h, es), e);
  }

  ghost function PushClaimed<T>(h: History<T>, t: Tid, v: T): History<T>
    requires Fits(h) && t < |h.s.pcs|
  {
    h.(s := Move(h.s.(head := h.s.head + 1), t, PushCell(v, CellOf(h, h.s.head))),
       at := h.at[t := h.s.head], claimed := h.claimed + [v])
  }

  /** try_push of `v` by `t` up to its claim. */
  lemma PushClaims<T>(h: History<T>, t: Tid, v: T) returns (es: seq<Event<T>>)
    requires Fits(h) && t < |h.s.pcs| && h.s.pcs[t].Idle? && h.s.head - h.s.tail < h.s.size
    ensures Record(h, es) == PushClaimed(h, t, v) && Uses(es, {t}, {})
  {
    var h1 := h.(s := Move(h.s, t, PushLoad(v)));
    var h2 := h.(s := Move(h.s, t, PushTest(v, h.s.head)));
    var h3 := h.(s := Move(h.s, t, PushCas(v, h.s.head)));
    FourSteps(h, TryPush(t, v), t);
    assert Step(h, TryPush(t, v)) == h1;
    assert Step(h1, Run(t)) == h2;
    assert Step(h2, Run(t)) == h3;
    assert Step(h3, Run(t)) == PushClaimed(h, t, v);
    es := [TryPush(t, v)] + [Run(t)] + [Run(t)] + [Run(t)];
  }

  lemma FourSteps<T>(h: History<T>, call: Event<T>, t: Tid)
    requires Fits(h)
    ensures Record(h, [call] + [Run(t)] + [Run(t)] + [Run(t)]) == Step(Step(Step(Step(h, call), Run(t)), Run(t)), Run(t))
  {
    RecordOne(h, call);
    RecordMore(h, [call], Run(t));
    RecordMore(h, [call] + [Run(t)], Run(t));
    RecordMore(h, [call] + [Run(t)] + [Run(t)], Run(t));
  }

  ghost function PopClaimed<T>(h: History<T>, t: Tid): History<T>
    requires Fits(h) && t < |h.s.pcs|
  {
    h.(s := Move(h.s.(tail := h.s.tail + 1), t, PopCell(CellOf(h, h.s.tail))), at := h.at[t := h.s.tail])
  }

  /** try_pop by `t` up to its claim. */
  lemma PopClaims<T>(h: History<T>, t: Tid) returns (es: seq<Event<T>>)
    requires Fits(h) && t < |h.s.pcs| && h.s.pcs[t].Idle? && h.s.head > h.s.tail
    ensures Record(h, es) == PopClaimed(h, t) && Uses(es, {}, {t})
  {
    var h1 := h.(s := Move(h.s, t, PopLoad));
    var h2 := h.(s := Move(h.s, t, PopTest(h.s.tail)));
    var h3 := h.(s := Move(h.s, t, PopCas(h.s.tail)));
    FourSteps(h, TryPop(t), t);
    assert Step(h, TryPop(t)) == h1;
    assert Step(h1, Run(t)) == h2;
    assert Step(h2, Run(t)) == h3;
    assert Step(h3, Run(t)) == PopClaimed(h, t);
    es := [TryPop(t)] + [Run(t)] + [Run(t)] + [Run(t)];
  }

  ghost function Done<T>(h: History<T>, t: Tid, c: nat, x: Cell<T>): History<T>
    requires t < |h.s.pcs| && c < |h.s.cells|
  {
    h.(s := Move(h.s.(cells := h.s.cells[c := x]), t, Idle))
  }

  ghost function PushDone<T>(h: History<T>, t: Tid): History<T>
    requires Fits(h) && t < |h.s.pcs| && h.s.pcs[t].PushCell? && h.s.pcs[t].c < h.s.size
  {
    var v, c := h.s.pcs[t].value, h.s.pcs[t].c;
    var r := Done(h, t, c, Cell(Stored, v));
    r.(s := r.s.(pushed := h.s.pushed + multiset{v}), inside := h.inside[c := h.at[t]])
  }

  predicate OnlyRuns<T>(es: seq<Event<T>>) { forall i :: 0 <= i < |es| ==> es[i].Run? }

  /** A claimed push whose cell is empty goes through. */
  lemma PushEnds<T>(h: History<T>, t: Tid) returns (es: seq<Event<T>>)
    requires Fits(h) && t < |h.s.pcs| && h.s.pcs[t].PushCell? && h.s.pcs[t].c < h.s.size
    requires h.s.cells[h.s.pcs[t].c].phase.Empty?
    ensures Record(h, es) == PushDone(h, t) && OnlyRuns(es)
  {
    RecordOne(h, Run(t));
    if h.s.atomic {
      es := [Run(t)];
    } else {
      var v, c := h.s.pcs[t].value, h.s.pcs[t].c;
      var h1 := h.(s := Move(Put(h.s, c, Storing(t), h.s.cells[c].element), t, PushWrite(v, c)));
      var h2 := h.(s := Move(Put(h.s, c, Storing(t), v), t, PushPublish(v, c)));
      es := [Run(t)] + [Run(t)] + [Run(t)];
      RecordMore(h, [Run(t)], Run(t));
      RecordMore(h, [Run(t)] + [Run(t)], Run(t));
      assert Step(h, Run(t)) == h1;
      assert Step(h1, Run(t)) == h2;
      assert Step(h2, Run(t)) == PushDone(h, t);
    }
  }

  ghost function PopDone<T>(h: History<T>, t: Tid): History<T>
    requires Fits(h) && t < |h.s.pcs| && h.s.pcs[t].PopCell? && h.s.pcs[t].c < h.s.size
  {
    var c := h.s.pcs[t].c;
    var v := h.s.cells[c].element;
    var r := Done(h, t, c, Cell(Empty, v));
    r.(s := r.s.(popped := h.s.popped + multiset{v}), log := h.log + [(h.at[t], v)])
  }

  /** A claimed pop whose cell has a value goes through. */
  lemma PopEnds<T>(h: History<T>, t: Tid) returns (es: seq<Event<T>>)
    requires Fits(h) && t < |h.s.pcs| && h.s.pcs[t].PopCell? && h.s.pcs[t].c < h.s.size
    requires h.s.cells[h.s.pcs[t].c].phase.Stored?
    ensures Record(h, es) == PopDone(h, t) && OnlyRuns(es)
  {
    RecordOne(h, Run(t));
    if h.s.atomic {
      es := [Run(t)];
    } else {
      var c := h.s.pcs[t].c;
      var v := h.s.cells[c].element;
      var h1 := h.(s := Move(Put(h.s, c, Loading(t), v), t, PopRead(c)));
      var h2 := h.(s := Move(Put(h.s, c, Loading(t), v), t, PopRelease(v, c)));
      es := [Run(t)] + [Run(t)] + [Run(t)];
      RecordMore(h, [Run(t)], Run(t));
      RecordMore(h, [Run(t)] + [Run(t)], Run(t));
      assert Step(h, Run(t)) == h1;
      assert Step(h1, Run(t)) == h2;
      assert Step(h2, Run(t)) == PopDone(h, t);
    }
  }

  // ---------------------------------------------------------------- three threads

  lemma CellAgain<T>(h: History<T>)
    requires Shaped(h.s)
    ensures CellOf(h, h.s.size) == CellOf(h, 0)
  {
    Bits.DivModUnique(1, 0, h.s.size);
    Bits.DivModUnique(0, 0, h.s.size);
  }

  lemma UsesSum<T>(xs: seq<Event<T>>, ys: seq<Event<T>>, producers: set<Tid>, consumers: set<Tid>)
    requires Uses(xs, producers, consumers) && (Uses(ys, producers, consumers) || OnlyRuns(ys))
    ensures Uses(xs + ys, producers, consumers)
  {
  }

  /** A whole try_push. */
  lemma PushWhole<T>(h: History<T>, t: Tid, v: T) returns (es: seq<Event<T>>)
    requires Fits(h) && t < |h.s.pcs| && h.s.pcs[t].Idle? && h.s.head - h.s.tail < h.s.size
    requires h.s.cells[CellOf(h, h.s.head)].phase.Empty?
    ensures Record(h, es) == PushDone(PushClaimed(h, t, v), t) && Uses(es, {t}, {})
  {
    var xs := PushClaims(h, t, v);
    var ys := PushEnds(PushClaimed(h, t, v), t);
    es := xs + ys;
    RecordSplit(h, xs, ys);
  }

  /** A whole try_pop. */
  lemma PopWhole<T>(h: History<T>, t: Tid) returns (es: seq<Event<T>>)
    requires Fits(h) && t < |h.s.pcs| && h.s.pcs[t].Idle? && h.s.head > h.s.tail
    requires h.s.cells[CellOf(h, h.s.tail)].phase.Stored?
    ensures Record(h, es) == PopDone(PopClaimed(h, t), t) && Uses(es, {}, {t})
  {
    var xs := PopClaims(h, t);
    var ys := PopEnds(PopClaimed(h, t), t);
    es := xs + ys;
    RecordSplit(h, xs, ys);
  }

  /** A push has claimed position 0 and stands still, `c` waits at its cell, and `b` has pushed the
      positions from 1 to before `i`. */
  ghost predicate PushAhead(h: History<nat>, b: Tid, c: Tid, i: nat) {
    && Fits(h) && b < |h.s.pcs| && c < |h.s.pcs| && b != c && 1 <= i <= h.s.size && h.s.head == i && h.s.tail == 1
    && h.s.pcs[b].Idle? && h.s.pcs[c] == PopCell(CellOf(h, 0)) && h.at[c] == 0
    && |h.claimed| == i && h.claimed[0] == 0 && h.log == []
    && forall p: nat {:trigger CellOf(h, p)} :: i <= p <= h.s.size ==> h.s.cells[CellOf(h, p)].phase.Empty?
  }

  lemma {:induction false} PushRounds(h: History<nat>, b: Tid, c: Tid, i: nat) returns (es: seq<Event<nat>>)
    requires PushAhead(h, b, c, i)
    ensures var r := Record(h, es); PushAhead(r, b, c, r.s.size)
    ensures Uses(es, {b}, {})
    decreases h.s.size - i
  {
    if i == h.s.size {
      es := [];
    } else {
      assert h.s.cells[CellOf(h, i)].phase.Empty?;
      var xs := PushWhole(h, b, i);
      var r := Record(h, xs);
      forall p: nat | i + 1 <= p <= r.s.size ensures r.s.cells[CellOf(r, p)].phase.Empty? {
        assert h.s.cells[CellOf(h, p)].phase.Empty?;
        Remap.CellsApart(h.s.size, h.s.bits, i, p);
      }
      var ys := PushRounds(r, b, c, i + 1);
      es := xs + ys;
      RecordSplit(h, xs, ys);
      UsesSum(xs, ys, {b}, {});
    }
  }

  /** `b` goes once round, and `c` gets its value instead of that of position 0. */
  lemma PushOvertakes(h: History<nat>, b: Tid, c: Tid) returns (es: seq<Event<nat>>)
    requires PushAhead(h, b, c, 1)
    ensures !InOrder(Record(h, es)) && Uses(es, {b}, {})
  {
    var xs := PushRounds(h, b, c, 1);
    var r := Record(h, xs);
    var n := r.s.size;
    CellAgain(r);
    assert r.s.cells[CellOf(r, n)].phase.Empty?;
    var ys := PushWhole(r, b, n);
    var m := Record(r, ys);
    var zs := PopEnds(m, c);
    assert Record(m, zs).log[0] == (0, n) && Record(m, zs).claimed[0] == 0;
    RecordSplit(h, xs, ys);
    RecordSplit(h, xs + ys, zs);
    UsesSum(xs, ys, {b}, {});
    es := xs + ys + zs;
  }

  /** `b` has claimed position 0 and stands still before its value, and the positions from 1 to before `i`
      are popped. */
  ghost predicate PopAhead(h: History<nat>, a: Tid, b: Tid, c: Tid, i: nat) {
    && Fits(h) && a < |h.s.pcs| && b < |h.s.pcs| && c < |h.s.pcs| && a != b && b != c && a != c
    && 1 <= i <= h.s.size && h.s.head == h.s.tail == i && h.s.pcs[a].Idle? && h.s.pcs[c].Idle?
    && h.s.cells[CellOf(h, 0)] == Cell(Stored, 0) && |h.claimed| == i
    && forall p: nat {:trigger CellOf(h, p)} :: i <= p < h.s.size ==> h.s.cells[CellOf(h, p)].phase.Empty?
  }

  lemma PopRound(h: History<nat>, a: Tid, b: Tid, c: Tid, i: nat) returns (es: seq<Event<nat>>)
    requires PopAhead(h, a, b, c, i) && i < h.s.size
    ensures PopAhead(Record(h, es), a, b, c, i + 1) && Uses(es, {a}, {c}) && Record(h, es).s.size == h.s.size
  {
    assert h.s.cells[CellOf(h, i)].phase.Empty?;
    var xs := PushWhole(h, a, i);
    var m := Record(h, xs);
    var ys := PopWhole(m, c);
    var r := Record(m, ys);
    Remap.CellsApart(h.s.size, h.s.bits, 0, i);
    forall p: nat | i + 1 <= p < r.s.size ensures r.s.cells[CellOf(r, p)].phase.Empty? {
      assert h.s.cells[CellOf(h, p)].phase.Empty?;
      Remap.CellsApart(h.s.size, h.s.bits, i, p);
    }
    es := xs + ys;
    RecordSplit(h, xs, ys);
  }

  lemma {:induction false} PopRounds(h: History<nat>, a: Tid, b: Tid, c: Tid, i: nat) returns (es: seq<Event<nat>>)
    requires PopAhead(h, a, b, c, i)
    ensures var r := Record(h, es); PopAhead(r, a, b, c, r.s.size)
    ensures Uses(es, {a}, {c})
    decreases h.s.size - i
  {
    if i == h.s.size {
      es := [];
    } else {
      var xs := PopRound(h, a, b, c, i);
      var ys := PopRounds(Record(h, xs), a, b, c, i + 1);
      es := xs + ys;
      RecordSplit(h, xs, ys);
      UsesSum(xs, ys, {a}, {c});
    }
  }

  /** After a whole round `c` finds the value of position 0 where that of the next one is to come. */
  lemma TakesOld(h: History<nat>, a: Tid, b: Tid, c: Tid) returns (es: seq<Event<nat>>)
    requires PopAhead(h, a, b, c, h.s.size)
    ensures !InOrder(Record(h, es)) && Uses(es, {a}, {c})
  {
    var n := h.s.size;
    CellAgain(h);
    var xs := PushClaims(h, a, n);
    var m := Record(h, xs);
    var ys := PopWhole(m, c);
    var z := Record(m, ys);
    assert z.log[|h.log|] == (n, 0) && z.claimed[n] == n;
    RecordSplit(h, xs, ys);
    es := xs + ys;
  }

  lemma PopOvertakes(h: History<nat>, a: Tid, b: Tid, c: Tid) returns (es: seq<Event<nat>>)
    requires PopAhead(h, a, b, c, 1)
    ensures !InOrder(Record(h, es)) && Uses(es, {a}, {c})
  {
    var xs := PopRounds(h, a, b, c, 1);
    var ys := TakesOld(Record(h, xs), a, b, c);
    RecordSplit(h, xs, ys);
    UsesSum(xs, ys, {a}, {c});
    es := xs + ys;
  }

  lemma UsesMore<T>(es: seq<Event<T>>, p: set<Tid>, c: set<Tid>, producers: set<Tid>, consumers: set<Tid>)
    requires Uses(es, p, c) && p <= producers && c <= consumers
    ensures Uses(es, producers, consumers)
  {
  }

  /** `a` claims position 0 to push, and `c` to pop. */
  lemma PushStalls(s0: State<nat>, a: Tid, b: Tid, c: Tid) returns (es: seq<Event<nat>>)
    requires Initial(s0) && a < |s0.pcs| && b < |s0.pcs| && c < |s0.pcs| && a != b && b != c && a != c
    ensures PushAhead(Record(Start(s0), es), b, c, 1) && Uses(es, {a}, {c})
  {
    var h := Start(s0);
    var xs := PushClaims(h, a, 0);
    var m := Record(h, xs);
    var ys := PopClaims(m, c);
    RecordSplit(h, xs, ys);
    UsesMore(xs, {a}, {}, {a}, {c});
    UsesMore(ys, {}, {c}, {a}, {c});
    UsesSum(xs, ys, {a}, {c});
    es := xs + ys;
  }

  lemma TwoProducersFail(s0: State<nat>, a: Tid, b: Tid, c: Tid) returns (es: seq<Event<nat>>)
    requires Initial(s0) && a < |s0.pcs| && b < |s0.pcs| && c < |s0.pcs| && a != b && b != c && a != c
    ensures !InOrder(Record(Start(s0), es)) && Uses(es, {a, b}, {c})
  {
    var xs := PushStalls(s0, a, b, c);
    var ys := PushOvertakes(Record(Start(s0), xs), b, c);
    RecordSplit(Start(s0), xs, ys);
    UsesMore(xs, {a}, {c}, {a, b}, {c});
    UsesMore(ys, {b}, {}, {a, b}, {c});
    UsesSum(xs, ys, {a, b}, {c});
    es := xs + ys;
  }

  lemma StalledPop(s0: State<nat>, a: Tid, b: Tid, c: Tid)
    requires Initial(s0) && a < |s0.pcs| && b < |s0.pcs| && c < |s0.pcs| && a != b && b != c && a != c
    ensures PopAhead(PopClaimed(PushDone(PushClaimed(Start(s0), a, 0), a), b), a, b, c, 1)
  {
    var h := Start(s0);
    var r := PopClaimed(PushDone(PushClaimed(h, a, 0), a), b);
    forall p: nat | 1 <= p < r.s.size ensures r.s.cells[CellOf(r, p)].phase.Empty? {
      Remap.CellsApart(h.s.size, h.s.bits, 0, p);
    }
  }

  /** `a` pushes position 0 and `b` claims it. */
  lemma PopStalls(s0: State<nat>, a: Tid, b: Tid, c: Tid) returns (es: seq<Event<nat>>)
    requires Initial(s0) && a < |s0.pcs| && b < |s0.pcs| && c < |s0.pcs| && a != b && b != c && a != c
    ensures PopAhead(Record(Start(s0), es), a, b, c, 1) && Uses(es, {a}, {b})
  {
    var h := Start(s0);
    var xs := PushWhole(h, a, 0);
    var m := Record(h, xs);
    var ys := PopClaims(m, b);
    RecordSplit(h, xs, ys);
    StalledPop(s0, a, b, c);
    UsesMore(xs, {a}, {}, {a}, {b});
    UsesMore(ys, {}, {b}, {a}, {b});
    UsesSum(xs, ys, {a}, {b});
    es := xs + ys;
  }

  lemma TwoConsumersFail(s0: State<nat>, a: Tid, b: Tid, c: Tid) returns (es: seq<Event<nat>>)
    requires Initial(s0) && a < |s0.pcs| && b < |s0.pcs| && c < |s0.pcs| && a != b && b != c && a != c
    ensures !InOrder(Record(Start(s0), es)) && Uses(es, {a}, {b, c})
  {
    var xs := PopStalls(s0, a, b, c);
    var ys := PopOvertakes(Record(Start(s0), xs), a, b, c);
    RecordSplit(Start(s0), xs, ys);
    UsesMore(xs, {a}, {b}, {a}, {b, c});
    UsesMore(ys, {a}, {c}, {a}, {b, c});
    UsesSum(xs, ys, {a}, {b, c});
    es := xs + ys;
  }

  // ---------------------------------------------------------------- when delivery is in order

  ghost predicate NoPush<T>(h: History<T>) {
    && Fits(h) && h.log == [] && h.s.head == h.s.tail == 0
    && forall t: Tid :: t < |h.s.pcs| ==> h.s.pcs[t].Idle? || h.s.pcs[t].PopLoad? || h.s.pcs[t].PopTest?
  }

  ghost predicate NoPop<T>(h: History<T>) {
    && Fits(h) && h.log == []
    && forall t: Tid :: t < |h.s.pcs| ==> Pushes(h.s.pcs[t]) || h.s.pcs[t].Idle?
  }

  lemma NoPushStep<T>(h: History<T>, e: Event<T>)
    requires NoPush(h) && !e.TryPush?
    ensures NoPush(Step(h, e))
  {
    if e.t < |h.s.pcs| {
      var r := Step(h, e);
      assert r.s.pcs == h.s.pcs[e.t := r.s.pcs[e.t]];
    }
  }

  lemma NoPopStep<T>(h: History<T>, e: Event<T>)
    requires NoPop(h) && !e.TryPop?
    ensures NoPop(Step(h, e))
  {
    if e.t < |h.s.pcs| {
      var r := Step(h, e);
      assert r.s.pcs == h.s.pcs[e.t := r.s.pcs[e.t]];
    }
  }

  /** Without a producer nothing is claimed, and without a consumer nothing is popped. */
  lemma {:induction false} NothingDelivered<T>(s0: State<T>, es: seq<Event<T>>, producers: set<Tid>, consumers: set<Tid>)
    requires Initial(s0) && Uses(es, producers, consumers)
    ensures var h := Record(Start(s0), es); (producers == {} ==> NoPush(h)) && (consumers == {} ==> NoPop(h))
  {
    if es != [] {
      NothingDelivered(s0, es[..|es| - 1], producers, consumers);
      var h, e := Record(Start(s0), es[..|es| - 1]), es[|es| - 1];
      if producers == {} { NoPushStep(h, e); }
      if consumers == {} { NoPopStep(h, e); }
    }
  }

  lemma Third(s: set<Tid>, a: Tid, b: Tid) returns (c: Tid)
    requires |s| >= 3
    ensures c in s && c != a && c != b
  {
    if s <= {a, b} {
      SubsetSize(s, {a, b});
      assert false;
    }
    c :| c in s && c !in {a, b};
  }

  /** A set of at most two threads. */
  lemma AtMostTwo(s: set<Tid>) returns (a: Tid, b: Tid)
    requires |s| <= 2
    ensures s <= {a, b}
  {
    if s == {} {
      a, b := 0, 0;
    } else {
      a :| a in s;
      if s == {a} { b := a; } else { b :| b in s && b != a; SubsetSize({a, b}, s); OneLeft(s, a, b); }
    }
  }

  lemma OneLeft(s: set<Tid>, a: Tid, b: Tid)
    requires |s| <= 2 && a in s && b in s && a != b
    ensures s == {a, b}
  {
    assert |s - {a} - {b}| == 0;
  }

  /** Three threads of which one pushes and another pops. */
  lemma Cast(producers: set<Tid>, consumers: set<Tid>) returns (a: Tid, b: Tid, c: Tid)
    requires producers != {} && consumers != {} && |producers + consumers| > 2
    ensures a in producers && c in consumers && b in producers + consumers && a != b && b != c && a != c
  {
    a :| a in producers;
    c :| c in consumers;
    if a == c {
      var d := Third(producers + consumers, a, a);
      if d in producers { a := d; } else { c := d; }
    }
    b := Third(producers + consumers, a, c);
  }

  lemma SomeRunFails(s0: State<nat>, producers: set<Tid>, consumers: set<Tid>) returns (es: seq<Event<nat>>)
    requires Initial(s0) && forall t :: t in producers + consumers ==> t < |s0.pcs|
    requires producers != {} && consumers != {} && |producers + consumers| > 2
    ensures Uses(es, producers, consumers) && !InOrder(Record(Start(s0), es))
  {
    var a, b, c := Cast(producers, consumers);
    if b in producers {
      es := TwoProducersFail(s0, a, b, c);
      UsesMore(es, {a, b}, {c}, producers, consumers);
    } else {
      es := TwoConsumersFail(s0, a, b, c);
      UsesMore(es, {a}, {b, c}, producers, consumers);
    }
  }

  /** For every layout and both kinds of elements: all runs deliver in order exactly if at most two threads
      use the queue, or it is only pushed to or only popped from. */
  lemma InOrderExactly(s0: State<nat>, producers: set<Tid>, consumers: set<Tid>)
    requires Initial(s0) && forall t :: t in producers + consumers ==> t < |s0.pcs|
    ensures (forall es :: Uses(es, producers, consumers) ==> InOrder(Record(Start(s0), es))) <==>
            |producers + consumers| <= 2 || producers == {} || consumers == {}
  {
    if |producers + consumers| <= 2 || producers == {} || consumers == {} {
      forall es: seq<Event<nat>> | Uses(es, producers, consumers) ensures InOrder(Record(Start(s0), es)) {
        FewInOrder(s0, es, producers, consumers);
      }
    } else {
      var es := SomeRunFails(s0, producers, consumers);
    }
  }

  lemma FewInOrder<T>(s0: State<T>, es: seq<Event<T>>, producers: set<Tid>, consumers: set<Tid>)
    requires Initial(s0) && Uses(es, producers, consumers)
    requires |producers + consumers| <= 2 || producers == {} || consumers == {}
    ensures InOrder(Record(Start(s0), es))
  {
    if producers == {} || consumers == {} {
      NothingDelivered(s0, es, producers, consumers);
    } else {
      var a, b := AtMostTwo(producers + consumers);
      TwoThreads(s0, es, a, b);
    }
  }
}
