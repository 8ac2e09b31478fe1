/** Whole operations of ConQueue (conqueue.h:79-255) while no other operation of their side is in progress: a push
    or a pop in any mode, from its call to its end. */
module ConQueueAlone {
  import opened HeadTail
  import opened ConQueue
  import opened ConQueueAmounts

  // ---------------------------------------------------------------- one side

  ghost predicate OthersIdle(s: Side, t: Tid) {
    t < |s.pcs| && forall u: Tid :: u < |s.pcs| && u != t ==> s.pcs[u] == Idle
  }

  /** At most so many steps to the end of the operation. */
  function ToEnd(s: Side, pc: PC): nat {
    match pc
    case Idle => 0
    case LoadHead(n) => n + 5 + AloneLeft(s, pc)
    case LoadLimit(n, _, _) => n + 5 + AloneLeft(s, pc)
    case CasHead(n, _, _, len) => (if len > n then len else n) + 5 + AloneLeft(s, pc)
    case Work(c, i) => (if i < Length(s.ends, c) then Length(s.ends, c) - i else 1) + 3
    case Turn(_) => 3
    case LoadOwn(_) => 2
    case Store(_, _) => 1
    case _ => AloneLeft(s, pc)
  }

  lemma ItsTurn(s: Side, limit: nat, t: Tid)
    requires Inv(s, limit) && OthersIdle(s, t) && s.pcs[t].Turn?
    ensures s.tail == End(s.ends, s.pcs[t].c)
  {
    if s.tail != End(s.ends, s.pcs[t].c) {
      var x := Chance(false, 0);
      assert Advance(s, t, limit, x) == s;
      var u := NobodyIsStuck(s, limit, t, x);
    }
  }

  /** Every step of the only operation of a side brings its end nearer. */
  lemma NearsEnd(s: Side, limit: nat, t: Tid, x: Chance)
    requires Inv(s, limit) && OthersIdle(s, t) && s.pcs[t] != Idle && !x.fail
    ensures var r := Advance(s, t, limit, x); OthersIdle(r, t) && ToEnd(r, r.pcs[t]) < ToEnd(s, s.pcs[t])
  {
    StepShape(s, limit, t, x);
    if Early(s.pcs[t]) { NearsClaim(s, limit, t, x); } else { NearsRelease(s, limit, t, x); }
  }

  lemma NearsClaim(s: Side, limit: nat, t: Tid, x: Chance)
    requires Inv(s, limit) && t < |s.pcs| && Early(s.pcs[t]) && !x.fail
    ensures var r := Advance(s, t, limit, x); t < |r.pcs| && ToEnd(r, r.pcs[t]) < ToEnd(s, s.pcs[t])
  {
    GoesOnAlone(s, limit, t, x);
    StepShape(s, limit, t, x);
    assert PcOk(s, limit, t, s.pcs[t]);
  }

  lemma NearsRelease(s: Side, limit: nat, t: Tid, x: Chance)
    requires Inv(s, limit) && OthersIdle(s, t) && Holds(s.pcs[t]) && !x.fail
    ensures var r := Advance(s, t, limit, x); t < |r.pcs| && ToEnd(r, r.pcs[t]) < ToEnd(s, s.pcs[t])
  {
    if s.pcs[t].Turn? { ItsTurn(s, limit, t); }
    assert ClaimOk(s, t, s.pcs[t]);
  }

  /** Where a step before a claim leads that claims nothing. */
  lemma EarlyOnward(s: Side, limit: nat, t: Tid, x: Chance)
    requires Inv(s, limit) && t < |s.pcs| && Early(s.pcs[t]) && Inv(Advance(s, t, limit, x), limit)
    requires Claims(Advance(s, t, limit, x)) <= Claims(s)
    ensures var pc := s.pcs[t];
            var r := Advance(s, t, limit, x);
            && |r.pcs| == |s.pcs| && r.head == s.head
            && ((r.pcs[t].LoadLimit? && r.pcs[t].n == pc.n && r.pcs[t].pos == s.head) ||
                (pc.LoadLimit? && if Room(pc.pos, limit, pc.n) == 0 then r.pcs[t] == Idle
                                  else r.pcs[t] == CasHead(pc.n, pc.pos, pc.cnt, Room(pc.pos, limit, pc.n))))
  {
    StepShape(s, limit, t, x);
    var r := Advance(s, t, limit, x);
    assert PcOk(r, limit, t, r.pcs[t]);
  }

  /** After its claim an operation keeps it up to its end. */
  lemma HoldsOnward(s: Side, limit: nat, t: Tid, x: Chance)
    requires Inv(s, limit) && t < |s.pcs| && Holds(s.pcs[t])
    ensures var r := Advance(s, t, limit, x);
            && |r.pcs| == |s.pcs| && r.head == s.head && r.ends == s.ends && Claims(r) == Claims(s)
            && (r.pcs[t] == Idle || (Holds(r.pcs[t]) && r.pcs[t].c == s.pcs[t].c))
            && (r.pcs[t] == Idle ==> !s.pcs[t].Work?)
  {
    StepShape(s, limit, t, x);
  }

  // ---------------------------------------------------------------- a push

  ghost function RunFor<T>(q: Queue<T>, producer: bool, t: Tid, x: Chance, k: nat): (r: Queue<T>)
    requires Shaped(q)
    ensures Shaped(r)
    decreases k
  {
    if k == 0 then q else RunFor(Next(q, RunOf(producer, t, x)), producer, t, x, k - 1)
  }

  lemma IdleStays<T>(q: Queue<T>, producer: bool, t: Tid, x: Chance)
    requires Shaped(q) && t < |SideOf(q, producer).pcs| && SideOf(q, producer).pcs[t] == Idle
    ensures Next(q, RunOf(producer, t, x)) == q
  {
  }

  /** After the next step `inv` holds again, and the measure is less, or 0 as it was. */
  ghost predicate Keeps<T>(z: Queue<T>, producer: bool, t: Tid, x: Chance, inv: Queue<T> -> bool, m: Queue<T> -> nat) {
    && Shaped(z)
    && var y := Next(z, RunOf(producer, t, x));
       inv(y) && (m(z) > 0 ==> m(y) < m(z)) && (m(z) == 0 ==> m(y) == 0)
  }

  /** So the measure comes to 0, and `inv` holds. */
  lemma {:induction false} RunsOn<T>(r: Queue<T>, producer: bool, t: Tid, x: Chance, k: nat,
                                     inv: Queue<T> -> bool, m: Queue<T> -> nat)
    requires inv(r) && m(r) <= k && forall z: Queue<T> {:trigger inv(z)} :: inv(z) ==> Keeps(z, producer, t, x, inv, m)
    ensures Shaped(r) && inv(RunFor(r, producer, t, x, k)) && m(RunFor(r, producer, t, x, k)) == 0
    decreases k
  {
    assert Keeps(r, producer, t, x, inv, m);
    if k > 0 { RunsOn(Next(r, RunOf(producer, t, x)), producer, t, x, k - 1, inv, m); }
  }

  /** Steps to the end of the operation of `t`, and to its claim. */
  function EndLeft<T>(q: Queue<T>, producer: bool, t: Tid): nat {
    var s := SideOf(q, producer);
    if t < |s.pcs| then ToEnd(s, s.pcs[t]) else 0
  }

  function ClaimLeft<T>(q: Queue<T>, producer: bool, t: Tid): nat {
    var s := SideOf(q, producer);
    if t < |s.pcs| && Early(s.pcs[t]) then AloneLeft(s, s.pcs[t]) else 0
  }

  /** Before its claim an operation comes nearer to it, and after it there is no way back. */
  lemma NearsOrStays(s: Side, limit: nat, t: Tid, x: Chance)
    requires Inv(s, limit) && t < |s.pcs| && !x.fail
    ensures var r := Advance(s, t, limit, x);
            && |r.pcs| == |s.pcs|
            && (if Early(s.pcs[t]) then Early(r.pcs[t]) ==> AloneLeft(r, r.pcs[t]) < AloneLeft(s, s.pcs[t])
                else !Early(r.pcs[t]))
  {
    StepShape(s, limit, t, x);
    if Early(s.pcs[t]) { GoesOnAlone(s, limit, t, x); }
    else if Holds(s.pcs[t]) { HoldsOnward(s, limit, t, x); }
  }

  /** A push of `values` that began in `q` has come to `r` alone; `n` is how many of them there is room for. */
  ghost predicate Pushing<T>(q: Queue<T>, r: Queue<T>, t: Tid, values: seq<T>, n: nat) {
    QInv(r) && PushedSoFar(q, r, t, values, n)
  }

  ghost predicate PushedSoFar<T>(q: Queue<T>, r: Queue<T>, t: Tid, values: seq<T>, n: nat)
    requires Shaped(r)
  {
    && r.cons == q.cons && r.capacity == q.capacity && t < |r.prod.pcs|
    && n == Room(q.prod.head, q.cons.tail + q.capacity, |values|) && n <= |values|
    && if Early(r.prod.pcs[t]) then
         && r.prod.head == q.prod.head && r.hist == q.hist && r.args[t] == values
         && BeforeClaim(r.prod.pcs[t], q.prod.head, |values|, n)
       else r.hist == q.hist + values[..n]
  }

  ghost predicate BeforeClaim(pc: PC, head: nat, asked: nat, n: nat) {
    Early(pc) && pc.n == asked && (pc.LoadLimit? ==> pc.pos == head) && (pc.CasHead? ==> pc.len == n)
  }

  lemma PushingStep<T>(q: Queue<T>, r: Queue<T>, t: Tid, values: seq<T>, n: nat, x: Chance)
    requires Pushing(q, r, t, values, n) && OthersIdle(r.prod, t) && r.prod.pcs[t] != Idle && !x.fail
    ensures var z := Next(r, RunOf(true, t, x));
            && Pushing(q, z, t, values, n) && OthersIdle(z.prod, t)
            && ToEnd(z.prod, z.prod.pcs[t]) < ToEnd(r.prod, r.prod.pcs[t])
  {
    NearsEnd(r.prod, r.cons.tail + r.capacity, t, x);
    ProducerShape(r, t, x);
    PushingOn(q, r, t, values, n, x);
  }

  lemma PushingOn<T>(q: Queue<T>, r: Queue<T>, t: Tid, values: seq<T>, n: nat, x: Chance)
    requires Pushing(q, r, t, values, n) && r.prod.pcs[t] != Idle
    ensures Pushing(q, Next(r, RunOf(true, t, x)), t, values, n)
  {
    NextKeepsInv(r, RunProducer(t, x));
    if Claims(StepProducer(r, t, x).prod) > Claims(r.prod) {
      PushingClaims(q, r, t, values, n, x);
    } else if Early(r.prod.pcs[t]) {
      PushingEarly(q, r, t, values, n, x);
    } else {
      PushingHolds(q, r, t, values, n, x);
    }
  }

  lemma PushingEarly<T>(q: Queue<T>, r: Queue<T>, t: Tid, values: seq<T>, n: nat, x: Chance)
    requires Pushing(q, r, t, values, n) && Early(r.prod.pcs[t])
    requires QInv(StepProducer(r, t, x))
    requires Claims(StepProducer(r, t, x).prod) <= Claims(r.prod)
    ensures PushedSoFar(q, StepProducer(r, t, x), t, values, n)
  {
    ProducerShape(r, t, x);
    EarlyOnward(r.prod, r.cons.tail + r.capacity, t, x);
    HistStays(r, t, x);
    assert values[..0] == [];
  }

  lemma HistStays<T>(r: Queue<T>, t: Tid, x: Chance)
    requires Shaped(r) && t < |r.prod.pcs|
    requires Claims(StepProducer(r, t, x).prod) <= Claims(r.prod)
    ensures var z := StepProducer(r, t, x); z.hist == r.hist && z.args == r.args
  {
  }

  lemma PushingHolds<T>(q: Queue<T>, r: Queue<T>, t: Tid, values: seq<T>, n: nat, x: Chance)
    requires Pushing(q, r, t, values, n) && Holds(r.prod.pcs[t])
    ensures PushedSoFar(q, StepProducer(r, t, x), t, values, n)
  {
    ProducerShape(r, t, x);
    HoldsOnward(r.prod, r.cons.tail + r.capacity, t, x);
    HistStays(r, t, x);
  }

  lemma PushingClaims<T>(q: Queue<T>, r: Queue<T>, t: Tid, values: seq<T>, n: nat, x: Chance)
    requires Pushing(q, r, t, values, n) && Claims(StepProducer(r, t, x).prod) > Claims(r.prod)
    ensures PushedSoFar(q, StepProducer(r, t, x), t, values, n)
  {
    ProducerShape(r, t, x);
    ClaimsRoom(r.prod, r.cons.tail + r.capacity, t, q.prod.head, |values|, n, x);
    ClaimHist(r, t, x);
  }

  lemma ClaimHist<T>(r: Queue<T>, t: Tid, x: Chance)
    requires QInv(r) && t < |r.prod.pcs| && Claims(StepProducer(r, t, x).prod) > Claims(r.prod)
    ensures var len := Wanted(r.prod, t, r.cons.tail + r.capacity);
            len <= |r.args[t]| && StepProducer(r, t, x).hist == r.hist + r.args[t][..len]
  {
    ProducerClaims(r, t, x);
  }

  lemma ClaimsRoom(s: Side, limit: nat, t: Tid, head: nat, asked: nat, n: nat, x: Chance)
    requires Inv(s, limit) && t < |s.pcs| && Claims(Advance(s, t, limit, x)) > Claims(s)
    requires Early(s.pcs[t]) ==> BeforeClaim(s.pcs[t], head, asked, n) && n == Room(head, limit, asked)
    ensures t < |Advance(s, t, limit, x).pcs| && Advance(s, t, limit, x).pcs[t].Work?
    ensures Early(s.pcs[t]) && Wanted(s, t, limit) == n
  {
    StepShape(s, limit, t, x);
  }

  ghost predicate SideIdle(s: Side) { forall u: Tid :: u < |s.pcs| ==> s.pcs[u] == Idle }

  /** An idle thread may begin a call, on a single-threaded side if nobody else is in one. */
  ghost predicate MayBegin(s: Side, t: Tid) {
    t < |s.pcs| && s.pcs[t] == Idle && (s.mode.Single? ==> SideIdle(s))
  }

  /** A push that is alone on its side and does not fail spuriously is over after eight steps and one for each of
      its values.  It has appended as many of its values as there is room for, all of them published. */
  lemma PushesAlone<T>(q0: Queue<T>, es: seq<Event<T>>, t: Tid, values: seq<T>, x: Chance)
    requires Initially(q0) && !x.fail
    requires t < |Exec(q0, es).prod.pcs| && SideIdle(Exec(q0, es).prod)
    ensures var q := Exec(q0, es);
            var r := RunFor(Next(q, PushBulk(t, values)), true, t, x, |values| + 8);
            var n := Min(|values|, ToClaim(q, true));
            && QInv(q) && QInv(r) && 0 <= n <= |values| && Contents(r) == Contents(q) + values[..n]
            && SideIdle(r.prod) && r.prod.tail == r.prod.head && r.cons == q.cons
  {
    ExecKeepsInv(q0, es);
    var q := Exec(q0, es);
    var n := Room(q.prod.head, q.cons.tail + q.capacity, |values|);
    var b := Next(q, PushBulk(t, values));
    NextKeepsInv(q, PushBulk(t, values));
    PushBeginsAlone(q, t, values, n);
    var inv := (r: Queue<T>) => Pushing(q, r, t, values, n) && OthersIdle(r.prod, t);
    var m := (r: Queue<T>) => EndLeft(r, true, t);
    forall z: Queue<T> | inv(z) ensures Keeps(z, true, t, x, inv, m) { PushingEnds(q, z, t, values, n, x); }
    RunsOn(b, true, t, x, |values| + 8, inv, m);
    Pushed(q, RunFor(b, true, t, x, |values| + 8), t, values, n);
  }

  lemma PushingEnds<T>(q: Queue<T>, r: Queue<T>, t: Tid, values: seq<T>, n: nat, x: Chance)
    requires Pushing(q, r, t, values, n) && OthersIdle(r.prod, t) && !x.fail
    ensures var z := Next(r, RunOf(true, t, x));
            && Pushing(q, z, t, values, n) && OthersIdle(z.prod, t)
            && (EndLeft(r, true, t) > 0 ==> EndLeft(z, true, t) < EndLeft(r, true, t))
            && (EndLeft(r, true, t) == 0 ==> EndLeft(z, true, t) == 0)
  {
    if r.prod.pcs[t] != Idle { PushingStep(q, r, t, values, n, x); } else { IdleStays(r, true, t, x); }
  }

  lemma PushBeginsAlone<T>(q: Queue<T>, t: Tid, values: seq<T>, n: nat)
    requires QInv(q) && t < |q.prod.pcs| && MayBegin(q.prod, t) && QInv(Next(q, PushBulk(t, values)))
    requires n == Room(q.prod.head, q.cons.tail + q.capacity, |values|)
    ensures var b := Next(q, PushBulk(t, values));
            && Pushing(q, b, t, values, n) && ClaimLeft(b, true, t) <= 3 && EndLeft(b, true, t) <= |values| + 8
            && (SideIdle(q.prod) ==> OthersIdle(b.prod, t))
  {
  }

  lemma Pushed<T>(q: Queue<T>, r: Queue<T>, t: Tid, values: seq<T>, n: nat)
    requires QInv(q) && Pushing(q, r, t, values, n) && EndLeft(r, true, t) == 0 && OthersIdle(r.prod, t)
    ensures n == Min(|values|, ToClaim(q, true)) && Contents(r) == Contents(q) + values[..n]
    ensures SideIdle(r.prod) && r.prod.tail == r.prod.head
  {
    CountersInOrder(q);
    SuffixAppends(q.hist, values[..n], q.cons.head);
    QuietReleased(r.prod, r.cons.tail + r.capacity);
  }

  /** Wherever the other operations are, a push that runs alone from its call has claimed after three steps: in the
      abstract queue as many of its values as there is room for are at the back. */
  lemma PushClaimsAtOnce<T>(q0: Queue<T>, es: seq<Event<T>>, t: Tid, values: seq<T>, x: Chance)
    requires Initially(q0) && !x.fail && MayBegin(Exec(q0, es).prod, t)
    ensures var q := Exec(q0, es);
            var r := RunFor(Next(q, PushBulk(t, values)), true, t, x, 3);
            var n := Min(|values|, ToClaim(q, true));
            QInv(q) && QInv(r) && 0 <= n <= |values| && Contents(r) == Contents(q) + values[..n]
  {
    ExecKeepsInv(q0, es);
    var q := Exec(q0, es);
    var n := Room(q.prod.head, q.cons.tail + q.capacity, |values|);
    var b := Next(q, PushBulk(t, values));
    NextKeepsInv(q, PushBulk(t, values));
    PushBeginsAlone(q, t, values, n);
    var inv := (r: Queue<T>) => Pushing(q, r, t, values, n);
    var m := (r: Queue<T>) => ClaimLeft(r, true, t);
    forall z: Queue<T> | inv(z) ensures Keeps(z, true, t, x, inv, m) { PushingNears(q, z, t, values, n, x); }
    RunsOn(b, true, t, x, 3, inv, m);
    PushedTo(q, RunFor(b, true, t, x, 3), t, values, n);
  }

  lemma PushingNears<T>(q: Queue<T>, r: Queue<T>, t: Tid, values: seq<T>, n: nat, x: Chance)
    requires Pushing(q, r, t, values, n) && !x.fail
    ensures var z := Next(r, RunOf(true, t, x));
            && Pushing(q, z, t, values, n)
            && (ClaimLeft(r, true, t) > 0 ==> ClaimLeft(z, true, t) < ClaimLeft(r, true, t))
            && (ClaimLeft(r, true, t) == 0 ==> ClaimLeft(z, true, t) == 0)
  {
    if r.prod.pcs[t] != Idle { PushingOn(q, r, t, values, n, x); } else { IdleStays(r, true, t, x); }
    ProducerNears(r, t, x);
  }

  lemma ProducerNears<T>(r: Queue<T>, t: Tid, x: Chance)
    requires QInv(r) && t < |r.prod.pcs| && !x.fail
    ensures var z := Next(r, RunOf(true, t, x));
            && (ClaimLeft(r, true, t) > 0 ==> ClaimLeft(z, true, t) < ClaimLeft(r, true, t))
            && (ClaimLeft(r, true, t) == 0 ==> ClaimLeft(z, true, t) == 0)
  {
    ProducerShape(r, t, x);
    NearsOrStays(r.prod, r.cons.tail + r.capacity, t, x);
  }

  lemma PushedTo<T>(q: Queue<T>, r: Queue<T>, t: Tid, values: seq<T>, n: nat)
    requires QInv(q) && Pushing(q, r, t, values, n) && ClaimLeft(r, true, t) == 0
    ensures n == Min(|values|, ToClaim(q, true)) && Contents(r) == Contents(q) + values[..n]
  {
    CountersInOrder(q);
    SuffixAppends(q.hist, values[..n], q.cons.head);
  }

  // ---------------------------------------------------------------- a pop

  /** A pop of `asked` values that began in `q` has come to `r` alone; `n` is how many it can have. */
  ghost predicate Popping<T>(q: Queue<T>, r: Queue<T>, t: Tid, asked: nat, n: nat) {
    QInv(r) && PoppedSoFar(q, r, t, asked, n)
  }

  ghost predicate PoppedSoFar<T>(q: Queue<T>, r: Queue<T>, t: Tid, asked: nat, n: nat)
    requires Shaped(r)
  {
    && r.prod == q.prod && r.hist == q.hist && t < |r.cons.pcs|
    && n == Room(q.cons.head, q.prod.tail, asked) && q.cons.head + n <= |q.hist|
    && if Early(r.cons.pcs[t]) then r.cons.head == q.cons.head && BeforeClaim(r.cons.pcs[t], q.cons.head, asked, n)
       else
         && r.cons.head == q.cons.head + n
         && (Holds(r.cons.pcs[t]) ==>
               n > 0 && End(r.cons.ends, r.cons.pcs[t].c) == q.cons.head && Length(r.cons.ends, r.cons.pcs[t].c) == n)
         && (!r.cons.pcs[t].Work? && n > 0 ==> r.outs[t] == q.hist[q.cons.head..q.cons.head + n])
  }

  lemma PoppingStep<T>(q: Queue<T>, r: Queue<T>, t: Tid, asked: nat, n: nat, x: Chance)
    requires Popping(q, r, t, asked, n) && OthersIdle(r.cons, t) && r.cons.pcs[t] != Idle && !x.fail
    ensures var z := Next(r, RunOf(false, t, x));
            && Popping(q, z, t, asked, n) && OthersIdle(z.cons, t)
            && ToEnd(z.cons, z.cons.pcs[t]) < ToEnd(r.cons, r.cons.pcs[t])
  {
    NearsEnd(r.cons, r.prod.tail, t, x);
    PoppingOn(q, r, t, asked, n, x);
  }

  lemma PoppingOn<T>(q: Queue<T>, r: Queue<T>, t: Tid, asked: nat, n: nat, x: Chance)
    requires Popping(q, r, t, asked, n) && r.cons.pcs[t] != Idle
    ensures Popping(q, Next(r, RunOf(false, t, x)), t, asked, n)
  {
    NextKeepsInv(r, RunConsumer(t, x));
    if Claims(StepConsumer(r, t, x).cons) > Claims(r.cons) {
      PoppingClaims(q, r, t, asked, n, x);
    } else if Early(r.cons.pcs[t]) {
      PoppingEarly(q, r, t, asked, n, x);
    } else if r.cons.pcs[t].Work? {
      PoppingWork(q, r, t, asked, n, x);
    } else {
      PoppingRelease(q, r, t, asked, n, x);
    }
  }

  lemma PoppingEarly<T>(q: Queue<T>, r: Queue<T>, t: Tid, asked: nat, n: nat, x: Chance)
    requires Popping(q, r, t, asked, n) && Early(r.cons.pcs[t])
    requires Claims(StepConsumer(r, t, x).cons) <= Claims(r.cons)
    ensures PoppedSoFar(q, StepConsumer(r, t, x), t, asked, n)
  {
    AdvanceKeepsInv(r.cons, r.prod.tail, t, x);
    EarlyOnward(r.cons, r.prod.tail, t, x);
  }

  lemma PoppingClaims<T>(q: Queue<T>, r: Queue<T>, t: Tid, asked: nat, n: nat, x: Chance)
    requires Popping(q, r, t, asked, n) && Claims(StepConsumer(r, t, x).cons) > Claims(r.cons)
    ensures PoppedSoFar(q, StepConsumer(r, t, x), t, asked, n)
  {
    StepShape(r.cons, r.prod.tail, t, x);
    assert PcOk(r.cons, r.prod.tail, t, r.cons.pcs[t]);
  }

  lemma PoppingWork<T>(q: Queue<T>, r: Queue<T>, t: Tid, asked: nat, n: nat, x: Chance)
    requires Popping(q, r, t, asked, n) && r.cons.pcs[t].Work?
    ensures PoppedSoFar(q, StepConsumer(r, t, x), t, asked, n)
  {
    var z := StepConsumer(r, t, x);
    HoldsOnward(r.cons, r.prod.tail, t, x);
    ConsumerOuts(r, t, x);
    assert OutOk(z.cons.ends, z.cons.pcs[t], z.outs[t], z.hist);
  }

  lemma PoppingRelease<T>(q: Queue<T>, r: Queue<T>, t: Tid, asked: nat, n: nat, x: Chance)
    requires Popping(q, r, t, asked, n) && Holds(r.cons.pcs[t]) && !r.cons.pcs[t].Work?
    ensures PoppedSoFar(q, StepConsumer(r, t, x), t, asked, n)
  {
    HoldsOnward(r.cons, r.prod.tail, t, x);
    PassShape(r.cons, r.prod.tail, t, x);
    ReleaseOuts(r, t, x);
  }

  lemma ReleaseOuts<T>(r: Queue<T>, t: Tid, x: Chance)
    requires Shaped(r) && t < |r.cons.pcs| && !r.cons.pcs[t].Work?
    requires Claims(StepConsumer(r, t, x).cons) <= Claims(r.cons)
    ensures StepConsumer(r, t, x).outs == r.outs
  {
  }

  /** A pop that is alone on its side ends likewise: it has moved out the oldest values, as many as it asked for or
      as are published, and they are gone from the queue. */
  lemma PopsAlone<T>(q0: Queue<T>, es: seq<Event<T>>, t: Tid, asked: nat, x: Chance)
    requires Initially(q0) && !x.fail
    requires t < |Exec(q0, es).cons.pcs| && SideIdle(Exec(q0, es).cons) && (Exec(q0, es).cons.mode.Single? ==> asked <= 1)
    ensures var q := Exec(q0, es);
            var r := RunFor(Next(q, PopBulk(t, asked)), false, t, x, asked + 8);
            var n := Min(asked, ToClaim(q, false));
            && QInv(q) && QInv(r) && 0 <= n <= |Contents(q)| && Contents(r) == Contents(q)[n..]
            && t < |r.outs| && (n > 0 ==> r.outs[t] == Contents(q)[..n])
            && SideIdle(r.cons) && r.cons.tail == r.cons.head && r.prod == q.prod
  {
    ExecKeepsInv(q0, es);
    var q := Exec(q0, es);
    var n := Room(q.cons.head, q.prod.tail, asked);
    var b := Next(q, PopBulk(t, asked));
    NextKeepsInv(q, PopBulk(t, asked));
    PopBeginsAlone(q, t, asked, n);
    var inv := (r: Queue<T>) => Popping(q, r, t, asked, n) && OthersIdle(r.cons, t);
    var m := (r: Queue<T>) => EndLeft(r, false, t);
    forall z: Queue<T> | inv(z) ensures Keeps(z, false, t, x, inv, m) { PoppingEnds(q, z, t, asked, n, x); }
    RunsOn(b, false, t, x, asked + 8, inv, m);
    Popped(q, RunFor(b, false, t, x, asked + 8), t, asked, n);
  }

  lemma PoppingEnds<T>(q: Queue<T>, r: Queue<T>, t: Tid, asked: nat, n: nat, x: Chance)
    requires Popping(q, r, t, asked, n) && OthersIdle(r.cons, t) && !x.fail
    ensures var z := Next(r, RunOf(false, t, x));
            && Popping(q, z, t, asked, n) && OthersIdle(z.cons, t)
            && (EndLeft(r, false, t) > 0 ==> EndLeft(z, false, t) < EndLeft(r, false, t))
            && (EndLeft(r, false, t) == 0 ==> EndLeft(z, false, t) == 0)
  {
    if r.cons.pcs[t] != Idle { PoppingStep(q, r, t, asked, n, x); } else { IdleStays(r, false, t, x); }
  }

  lemma PopBeginsAlone<T>(q: Queue<T>, t: Tid, asked: nat, n: nat)
    requires QInv(q) && t < |q.cons.pcs| && MayBegin(q.cons, t) && QInv(Next(q, PopBulk(t, asked)))
    requires n == Room(q.cons.head, q.prod.tail, asked) && (q.cons.mode.Single? ==> asked <= 1)
    ensures var b := Next(q, PopBulk(t, asked));
            && Popping(q, b, t, asked, n) && ClaimLeft(b, false, t) <= 3 && EndLeft(b, false, t) <= asked + 8
            && (SideIdle(q.cons) ==> OthersIdle(b.cons, t))
  {
    CountersInOrder(q);
  }

  lemma Popped<T>(q: Queue<T>, r: Queue<T>, t: Tid, asked: nat, n: nat)
    requires QInv(q) && Popping(q, r, t, asked, n) && EndLeft(r, false, t) == 0 && OthersIdle(r.cons, t)
    ensures n == Min(asked, ToClaim(q, false)) <= |Contents(q)| && Contents(r) == Contents(q)[n..]
    ensures n > 0 ==> r.outs[t] == Contents(q)[..n]
    ensures SideIdle(r.cons) && r.cons.tail == r.cons.head
  {
    CountersInOrder(q);
    QuietReleased(r.cons, r.prod.tail);
  }

  /** And a pop has taken the oldest values, as many as it asked for or as are published and not claimed. */
  lemma PopClaimsAtOnce<T>(q0: Queue<T>, es: seq<Event<T>>, t: Tid, asked: nat, x: Chance)
    requires Initially(q0) && !x.fail && MayBegin(Exec(q0, es).cons, t)
    requires Exec(q0, es).cons.mode.Single? ==> asked <= 1
    ensures var q := Exec(q0, es);
            var r := RunFor(Next(q, PopBulk(t, asked)), false, t, x, 3);
            var n := Min(asked, ToClaim(q, false));
            QInv(q) && QInv(r) && 0 <= n <= |Contents(q)| && Contents(r) == Contents(q)[n..]
  {
    ExecKeepsInv(q0, es);
    var q := Exec(q0, es);
    var n := Room(q.cons.head, q.prod.tail, asked);
    var b := Next(q, PopBulk(t, asked));
    NextKeepsInv(q, PopBulk(t, asked));
    PopBeginsAlone(q, t, asked, n);
    var inv := (r: Queue<T>) => Popping(q, r, t, asked, n);
    var m := (r: Queue<T>) => ClaimLeft(r, false, t);
    forall z: Queue<T> | inv(z) ensures Keeps(z, false, t, x, inv, m) { PoppingNears(q, z, t, asked, n, x); }
    RunsOn(b, false, t, x, 3, inv, m);
    PoppedTo(q, RunFor(b, false, t, x, 3), t, asked, n);
  }

  lemma PoppingNears<T>(q: Queue<T>, r: Queue<T>, t: Tid, asked: nat, n: nat, x: Chance)
    requires Popping(q, r, t, asked, n) && !x.fail
    ensures var z := Next(r, RunOf(false, t, x));
            && Popping(q, z, t, asked, n)
            && (ClaimLeft(r, false, t) > 0 ==> ClaimLeft(z, false, t) < ClaimLeft(r, false, t))
            && (ClaimLeft(r, false, t) == 0 ==> ClaimLeft(z, false, t) == 0)
  {
    if r.cons.pcs[t] != Idle { PoppingOn(q, r, t, asked, n, x); } else { IdleStays(r, false, t, x); }
    NearsOrStays(r.cons, r.prod.tail, t, x);
  }

  lemma PoppedTo<T>(q: Queue<T>, r: Queue<T>, t: Tid, asked: nat, n: nat)
    requires QInv(q) && Popping(q, r, t, asked, n) && ClaimLeft(r, false, t) == 0
    ensures n == Min(asked, ToClaim(q, false)) <= |Contents(q)| && Contents(r) == Contents(q)[n..]
  {
    CountersInOrder(q);
  }
}
