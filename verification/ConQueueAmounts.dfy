/** How much an operation of ConQueue gets (conqueue.h:79-255).  What a call asked for is read off the events of
    the run, and how much there was to claim off the states that it went through. */
module ConQueueAmounts {
  import opened HeadTail
  import opened ConQueue

  function SideOf<T>(q: Queue<T>, producer: bool): Side { if producer then q.prod else q.cons }

  /** Up to where the side may claim: a producer the released positions, a consumer the published ones. */
  function LimitOf<T>(q: Queue<T>, producer: bool): nat {
    if producer then q.cons.tail + q.capacity else q.prod.tail
  }

  /** What there is for the side to claim: free places for a producer, published values for a consumer. */
  function ToClaim<T>(q: Queue<T>, producer: bool): int { LimitOf(q, producer) - SideOf(q, producer).head }

  function Min(a: int, b: int): int { if a < b then a else b }

  /** What the last call of `t` that began asked for. */
  ghost function Asked<T>(q0: Queue<T>, es: seq<Event<T>>, producer: bool, t: Tid): nat
    requires Shaped(q0)
  {
    if es == [] then 0
    else
      var e := es[|es| - 1];
      if producer && e.PushBulk? && Begins(Exec(q0, es[..|es| - 1]), e, producer, t) then |e.values|
      else if !producer && e.PopBulk? && Begins(Exec(q0, es[..|es| - 1]), e, producer, t) then e.n
      else Asked(q0, es[..|es| - 1], producer, t)
  }

  ghost predicate Begins<T>(q: Queue<T>, e: Event<T>, producer: bool, t: Tid)
    requires Shaped(q)
  {
    var s, r := SideOf(q, producer), SideOf(Next(q, e), producer);
    t < |s.pcs| == |r.pcs| && s.pcs[t].Idle? && !r.pcs[t].Idle?
  }

  /** Thread `t` has been in the same call since the first `i` events. */
  ghost predicate SameCall<T>(q0: Queue<T>, es: seq<Event<T>>, producer: bool, t: Tid, i: nat)
    requires Shaped(q0) && i <= |es|
  {
    forall j {:trigger es[..j]} :: i <= j <= |es| ==>
      var s := SideOf(Exec(q0, es[..j]), producer);
      t < |s.pcs| && Early(s.pcs[t])
  }

  // ---------------------------------------------------------------- what an event does to a side

  /** The side goes on by one step of one thread, begins a call, or stays. */
  ghost predicate SideStep(s: Side, r: Side, limit: nat, own: bool, u: Tid, x: Chance) {
    if own then u < |s.pcs| && r == Advance(s, u, limit, x) else r == s
  }

  lemma RunsSide<T>(q: Queue<T>, e: Event<T>, producer: bool)
    requires Shaped(q) && (e.RunProducer? || e.RunConsumer?)
    ensures var own := (if producer then e.RunProducer? else e.RunConsumer?) && e.t < |SideOf(q, producer).pcs|;
            SideStep(SideOf(q, producer), SideOf(Next(q, e), producer), LimitOf(q, producer), own, e.t, e.x)
  {
  }

  lemma CallsSide<T>(q: Queue<T>, e: Event<T>, producer: bool)
    requires Shaped(q) && (e.PushBulk? || e.PopBulk?)
    ensures var s, r := SideOf(q, producer), SideOf(Next(q, e), producer);
            r == s || (producer && e.PushBulk? && r == Begin(s, e.t, |e.values|)) ||
            (!producer && e.PopBulk? && r == Begin(s, e.t, e.n))
  {
  }

  lemma AdvanceEarly(s: Side, limit: nat, u: Tid, x: Chance, t: Tid)
    requires Inv(s, limit) && t < |s.pcs| && u < |s.pcs|
    ensures var r := Advance(s, u, limit, x);
            && |r.pcs| == |s.pcs| && r.head >= s.head
            && (Early(r.pcs[t]) ==> Early(s.pcs[t]) && r.pcs[t].n == s.pcs[t].n)
            && (r.pcs[t].CasHead? ==>
                  r.pcs[t] == s.pcs[t] ||
                  (s.pcs[t].LoadLimit? && !s.mode.Single? &&
                   r.pcs[t] == CasHead(s.pcs[t].n, s.pcs[t].pos, s.pcs[t].cnt, Room(s.pcs[t].pos, limit, s.pcs[t].n))))
            && (s.pcs[t].Idle? ==> r.pcs[t].Idle?)
  {
    StepShape(s, limit, u, x);
  }

  lemma BeginEarly(s: Side, u: Tid, n: nat, t: Tid)
    requires t < |s.pcs|
    ensures var r := Begin(s, u, n);
            && |r.pcs| == |s.pcs| && r.head == s.head && (r.pcs[t] == s.pcs[t] || (s.pcs[t].Idle? && r.pcs[t] == LoadHead(n)))
  {
  }

  /** What an event leaves of an operation before its claim. */
  lemma NextEarly<T>(q: Queue<T>, e: Event<T>, producer: bool, t: Tid)
    requires QInv(q) && t < |SideOf(q, producer).pcs|
    ensures var s, r := SideOf(q, producer), SideOf(Next(q, e), producer);
            && |r.pcs| == |s.pcs| && r.head >= s.head
            && (Early(r.pcs[t]) && !s.pcs[t].Idle? ==> Early(s.pcs[t]) && r.pcs[t].n == s.pcs[t].n)
            && (s.pcs[t].Idle? && !r.pcs[t].Idle? ==>
                  r.pcs[t] == LoadHead(if producer && e.PushBulk? then |e.values| else if e.PopBulk? then e.n else 0) &&
                  (if producer then e.PushBulk? else e.PopBulk?))
            && (r.pcs[t].CasHead? ==>
                  r.pcs[t] == s.pcs[t] ||
                  (s.pcs[t].LoadLimit? && !s.mode.Single? &&
                   r.pcs[t] == CasHead(s.pcs[t].n, s.pcs[t].pos, s.pcs[t].cnt, Room(s.pcs[t].pos, LimitOf(q, producer), s.pcs[t].n))))
  {
    var s := SideOf(q, producer);
    if e.RunProducer? || e.RunConsumer? {
      RunsSide(q, e, producer);
      if (if producer then e.RunProducer? else e.RunConsumer?) && e.t < |s.pcs| {
        AdvanceEarly(s, LimitOf(q, producer), e.t, e.x, t);
      }
    } else {
      CallsSide(q, e, producer);
      if e.PushBulk? { BeginEarly(s, e.t, |e.values|, t); } else { BeginEarly(s, e.t, e.n, t); }
    }
  }

  // ---------------------------------------------------------------- what a call asked for

  /** An operation carries what its call asked for. */
  lemma {:induction false} CarriesAsked<T>(q0: Queue<T>, es: seq<Event<T>>, producer: bool, t: Tid)
    requires Initially(q0) && t < |SideOf(Exec(q0, es), producer).pcs|
    ensures var s := SideOf(Exec(q0, es), producer); Early(s.pcs[t]) ==> s.pcs[t].n == Asked(q0, es, producer, t)
  {
    if es != [] {
      var before := es[..|es| - 1];
      ExecKeepsInv(q0, before);
      SameSize(q0, before, producer);
      SameSize(q0, es, producer);
      CarriesAsked(q0, before, producer, t);
      NextEarly(Exec(q0, before), es[|es| - 1], producer, t);
    }
  }

  lemma {:induction false} SameSize<T>(q0: Queue<T>, es: seq<Event<T>>, producer: bool)
    requires Initially(q0)
    ensures |SideOf(Exec(q0, es), producer).pcs| == |SideOf(q0, producer).pcs|
  {
    if es != [] {
      var before := es[..|es| - 1];
      SameSize(q0, before, producer);
      ExecKeepsInv(q0, before);
      if |SideOf(q0, producer).pcs| > 0 { NextEarly(Exec(q0, before), es[|es| - 1], producer, 0); }
      else { NoThreads(Exec(q0, before), es[|es| - 1], producer); }
    }
  }

  lemma NoThreads<T>(q: Queue<T>, e: Event<T>, producer: bool)
    requires Shaped(q) && |SideOf(q, producer).pcs| == 0
    ensures |SideOf(Next(q, e), producer).pcs| == 0
  {
  }

  /** And a producer's values are those of its call. */
  ghost function Given<T>(q0: Queue<T>, es: seq<Event<T>>, t: Tid): seq<T>
    requires Shaped(q0)
  {
    if es == [] then []
    else
      var e := es[|es| - 1];
      if e.PushBulk? && Begins(Exec(q0, es[..|es| - 1]), e, true, t) then e.values else Given(q0, es[..|es| - 1], t)
  }

  lemma {:induction false} ArgsAreGiven<T>(q0: Queue<T>, es: seq<Event<T>>, t: Tid)
    requires Initially(q0) && t < |Exec(q0, es).prod.pcs| && !Exec(q0, es).prod.pcs[t].Idle?
    ensures Exec(q0, es).args[t] == Given(q0, es, t)
  {
    if es != [] {
      var before := es[..|es| - 1];
      SameSize(q0, before, true);
      SameSize(q0, es, true);
      ExecKeepsInv(q0, before);
      ArgsStep(Exec(q0, before), es[|es| - 1], t);
      if !Exec(q0, before).prod.pcs[t].Idle? { ArgsAreGiven(q0, before, t); }
    }
  }

  lemma ArgsStep<T>(q: Queue<T>, e: Event<T>, t: Tid)
    requires QInv(q) && t < |q.prod.pcs| && !Next(q, e).prod.pcs[t].Idle?
    ensures if q.prod.pcs[t].Idle? then e.PushBulk? && Next(q, e).args[t] == e.values else Next(q, e).args[t] == q.args[t]
  {
    if e.PushBulk? { ArgsOfCall(q, e, t); } else { ArgsStay(q, e); NextEarly(q, e, true, t); }
  }

  lemma ArgsOfCall<T>(q: Queue<T>, e: Event<T>, t: Tid)
    requires Shaped(q) && e.PushBulk? && t < |q.prod.pcs|
    ensures var r := Next(q, e);
            t < |r.prod.pcs| &&
            (if q.prod.pcs[t].Idle? then r.prod.pcs[t].Idle? || r.args[t] == e.values else r.args[t] == q.args[t])
  {
  }

  lemma ArgsStay<T>(q: Queue<T>, e: Event<T>)
    requires Shaped(q) && !e.PushBulk?
    ensures Next(q, e).args == q.args
  {
  }

  // ---------------------------------------------------------------- what there was to claim

  /** After the first `i` events the thread saw room for `len`. */
  ghost predicate Saw<T>(q0: Queue<T>, es: seq<Event<T>>, producer: bool, t: Tid, i: nat, n: nat, pos: nat, len: nat)
    requires Shaped(q0)
  {
    && i <= |es| && SameCall(q0, es, producer, t, i)
    && var a := Exec(q0, es[..i]);
       var s := SideOf(a, producer);
       && t < |s.pcs| && pos <= s.head <= SideOf(Exec(q0, es), producer).head
       && len == Room(pos, LimitOf(a, producer), n)
  }

  lemma SawStays<T>(q0: Queue<T>, es: seq<Event<T>>, producer: bool, t: Tid, i: nat, n: nat, pos: nat, len: nat)
    requires Initially(q0) && es != [] && Saw(q0, es[..|es| - 1], producer, t, i, n, pos, len)
    requires var s, r := SideOf(Exec(q0, es[..|es| - 1]), producer), SideOf(Exec(q0, es), producer);
             t < |r.pcs| && Early(r.pcs[t]) && s.head <= r.head
    ensures Saw(q0, es, producer, t, i, n, pos, len)
  {
    var before := es[..|es| - 1];
    forall j | i <= j <= |es|
      ensures var s := SideOf(Exec(q0, es[..j]), producer); t < |s.pcs| && Early(s.pcs[t])
    {
      if j < |es| { assert es[..j] == before[..j]; } else { assert es[..j] == es; }
    }
    assert es[..i] == before[..i];
  }

  lemma SawNow<T>(q0: Queue<T>, es: seq<Event<T>>, producer: bool, t: Tid, n: nat, pos: nat)
    requires Initially(q0)
    requires var q := Exec(q0, es);
             var s := SideOf(q, producer);
             t < |s.pcs| && Early(s.pcs[t]) && pos <= s.head
    ensures var q := Exec(q0, es); Saw(q0, es, producer, t, |es|, n, pos, Room(pos, LimitOf(q, producer), n))
  {
    assert es[..|es|] == es;
  }

  /** A thread at its compare-exchange has seen as much room as it is about to claim. */
  lemma {:induction false} CasSaw<T>(q0: Queue<T>, es: seq<Event<T>>, producer: bool, t: Tid) returns (i: nat)
    requires Initially(q0)
    requires var s := SideOf(Exec(q0, es), producer); t < |s.pcs| && s.pcs[t].CasHead?
    ensures var pc := SideOf(Exec(q0, es), producer).pcs[t]; Saw(q0, es, producer, t, i, pc.n, pc.pos, pc.len)
  {
    SameSize(q0, es, producer);
    i := 0;
    if es != [] {
      var before := es[..|es| - 1];
      ExecKeepsInv(q0, before);
      SameSize(q0, before, producer);
      NextEarly(Exec(q0, before), es[|es| - 1], producer, t);
      var s, r := SideOf(Exec(q0, before), producer), SideOf(Exec(q0, es), producer);
      if r.pcs[t] == s.pcs[t] {
        i := CasSaw(q0, before, producer, t);
      } else {
        i := |before|;
        SeenHead(Exec(q0, before), producer, t);
        SawNow(q0, before, producer, t, s.pcs[t].n, s.pcs[t].pos);
      }
      SawStays(q0, es, producer, t, i, r.pcs[t].n, r.pcs[t].pos, r.pcs[t].len);
    }
  }

  lemma SeenHead<T>(q: Queue<T>, producer: bool, t: Tid)
    requires QInv(q) && t < |SideOf(q, producer).pcs|
    requires SideOf(q, producer).pcs[t].LoadLimit? || SideOf(q, producer).pcs[t].CasHead?
    ensures SideOf(q, producer).pcs[t].pos <= SideOf(q, producer).head
  {
    assert PcOk(SideOf(q, producer), LimitOf(q, producer), t, SideOf(q, producer).pcs[t]);
  }

  // ---------------------------------------------------------------- how much is claimed

  function RunOf<T>(producer: bool, t: Tid, x: Chance): Event<T> {
    if producer then RunProducer(t, x) else RunConsumer(t, x)
  }

  /** A step that claims: the claim is of what the thread had seen to be there for it. */
  lemma ClaimOfSeen<T>(q: Queue<T>, producer: bool, t: Tid, x: Chance)
    requires QInv(q)
    requires var s, r := SideOf(q, producer), SideOf(Next(q, RunOf(producer, t, x)), producer); Claims(r) > Claims(s)
    ensures var s, r := SideOf(q, producer), SideOf(Next(q, RunOf(producer, t, x)), producer);
            && t < |s.pcs| && (s.pcs[t].LoadLimit? || s.pcs[t].CasHead?) && s.pcs[t].pos == s.head && r.head > s.head
            && r.head - s.head == if s.pcs[t].CasHead? then s.pcs[t].len else Room(s.head, LimitOf(q, producer), s.pcs[t].n)
  {
    RunsSide(q, RunOf(producer, t, x), producer);
    var s := SideOf(q, producer);
    if t < |s.pcs| { SideClaims(s, LimitOf(q, producer), t, x); }
  }

  lemma SideClaims(s: Side, limit: nat, t: Tid, x: Chance)
    requires Inv(s, limit) && t < |s.pcs| && Claims(Advance(s, t, limit, x)) > Claims(s)
    ensures var r := Advance(s, t, limit, x);
            && (s.pcs[t].LoadLimit? || s.pcs[t].CasHead?) && s.pcs[t].pos == s.head && r.head > s.head
            && r.head - s.head == if s.pcs[t].CasHead? then s.pcs[t].len else Room(s.head, limit, s.pcs[t].n)
  {
    StepShape(s, limit, t, x);
    assert PcOk(s, limit, t, s.pcs[t]);
  }

  /** The claim of an operation, a push or a pop in any mode, is of exactly as many positions as its call asked
      for, or as there were to claim at an instant of that call if that was less: for a producer the capacity
      less the positions claimed and not released, for a consumer the published values not claimed.  Nobody
      claimed anything in between. */
  lemma ClaimsExactly<T>(q0: Queue<T>, es: seq<Event<T>>, producer: bool, t: Tid, x: Chance) returns (i: nat)
    requires Initially(q0)
    requires var q := Exec(q0, es);
             Claims(SideOf(Next(q, RunOf(producer, t, x)), producer)) > Claims(SideOf(q, producer))
    ensures i <= |es| && SameCall(q0, es, producer, t, i)
    ensures var q, a := Exec(q0, es), Exec(q0, es[..i]);
            && SideOf(a, producer).head == SideOf(q, producer).head
            && SideOf(Next(q, RunOf(producer, t, x)), producer).head - SideOf(q, producer).head ==
               Min(Asked(q0, es, producer, t), ToClaim(a, producer)) > 0
  {
    ExecKeepsInv(q0, es);
    var q := Exec(q0, es);
    var s := SideOf(q, producer);
    ClaimOfSeen(q, producer, t, x);
    CarriesAsked(q0, es, producer, t);
    if s.pcs[t].CasHead? {
      i := CasSaw(q0, es, producer, t);
    } else {
      i := |es|;
      SawNow(q0, es, producer, t, s.pcs[t].n, s.pcs[t].pos);
    }
  }

  /** So a pop, which asks for one value, takes exactly one; and what a producer claims is filled with as many
      of its own values, in their order. */
  lemma PopTakesOne<T>(q0: Queue<T>, es: seq<Event<T>>, t: Tid, x: Chance)
    requires Initially(q0) && Asked(q0, es, false, t) == 1
    requires var q := Exec(q0, es); Claims(Next(q, RunConsumer(t, x)).cons) > Claims(q.cons)
    ensures var q, r := Exec(q0, es), Next(Exec(q0, es), RunConsumer(t, x));
            QInv(q) && QInv(r) && |Contents(q)| > 0 && Contents(r) == Contents(q)[1..]
  {
    var i := ClaimsExactly(q0, es, false, t, x);
    ExecKeepsInv(q0, es);
    NextKeepsInv(Exec(q0, es), RunConsumer(t, x));
    ConsumerDequeues(Exec(q0, es), t, x);
  }

  lemma PushAppendsItsOwn<T>(q0: Queue<T>, es: seq<Event<T>>, t: Tid, x: Chance) returns (i: nat)
    requires Initially(q0)
    requires var q := Exec(q0, es); Claims(Next(q, RunProducer(t, x)).prod) > Claims(q.prod)
    ensures i <= |es| && SameCall(q0, es, true, t, i)
    ensures var q, r := Exec(q0, es), Next(Exec(q0, es), RunProducer(t, x));
            var n := Min(|Given(q0, es, t)|, ToClaim(Exec(q0, es[..i]), true));
            QInv(q) && QInv(r) && 0 < n <= |Given(q0, es, t)| && Contents(r) == Contents(q) + Given(q0, es, t)[..n]
  {
    i := ClaimsExactly(q0, es, true, t, x);
    ExecKeepsInv(q0, es);
    NextKeepsInv(Exec(q0, es), RunProducer(t, x));
    ProducerEnqueues(Exec(q0, es), t, x);
    ClaimOfSeen(Exec(q0, es), true, t, x);
    ArgsAreGiven(q0, es, t);
    AskedIsGiven(q0, es, t);
  }

  lemma {:induction false} AskedIsGiven<T>(q0: Queue<T>, es: seq<Event<T>>, t: Tid)
    requires Initially(q0)
    ensures Asked(q0, es, true, t) == |Given(q0, es, t)|
  {
    if es != [] { AskedIsGiven(q0, es[..|es| - 1], t); }
  }
}
