/** The optimistic dequeue of moodycamel's sub-queues (queue-bench/moodycamel.h:1873-1968,
    2157-2247, 2461-2530, 2683-2783): any number of consumers, one at a time or in bulk, against one
    producer.  One atomic load or fetch_add of one thread per step.

    The counters are kept unbounded; the program sees them modulo 2^64 and compares them with
    `circular_less_than`.  `tickets` and `log` are history variables: ticket i is the i-th unit
    claimed from `dequeueOptimisticCount`. */
module Dequeue {
  import Counting
  import opened Options
  import opened Word64

  type Tid = nat

  /** details::circular_less_than, lines 395-409. */
  predicate CircularLess(a: nat, b: nat) { Word(a - b) > HALF }

  function Min(a: nat, b: nat): nat { if a < b then a else b }

  datatype Kind = One | Bulk(max: nat)

  datatype Ticket = Pending(t: Tid) | Won(t: Tid) | Taken | Lost

  /** `tail`, `over` and `mine` are values the thread has loaded. */
  datatype PC =
    | Idle
    | LoadTail(kind: Kind)
    | LoadOver(kind: Kind, tail: nat)
    | Probe(kind: Kind, tail: nat, over: nat)
    | Claim(kind: Kind, over: nat, desired: nat)
    | Check(kind: Kind, over: nat, desired: nat, mine: nat)
    | GiveBack(mine: nat, won: nat, lost: nat)
    | Take(mine: nat, won: nat)

  datatype Delivery = Delivery(t: Tid, first: nat, count: nat)

  datatype State = State(
    tail: nat,
    head: nat,
    opt: nat,
    over: nat,
    pcs: seq<PC>,
    tickets: seq<Ticket>,
    log: seq<Delivery>)

  datatype Event = Enqueue(count: nat) | Call(t: Tid, kind: Kind) | Run(t: Tid)

  // ---------------------------------------------------------------- the machine

  /** The first test: how many units to claim, if any. */
  function Desired(kind: Kind, tail: nat, over: nat, opt: nat): Option<nat> {
    match kind
    case One =>
      if CircularLess(Word(opt - over), Word(tail)) then Some(1) else None
    case Bulk(max) =>
      var d := Word(tail - (opt - over));
      if CircularLess(0, d) then Some(Min(d, max)) else None
  }

  /** The second test: how many of the claimed units are there to take. */
  function Actual(kind: Kind, tail: nat, over: nat, mine: nat, desired: nat): nat {
    match kind
    case One =>
      if CircularLess(Word(mine - over), Word(tail)) then 1 else 0
    case Bulk(_) =>
      var a := Word(tail - (mine - over));
      if CircularLess(0, a) then Min(desired, a) else 0
  }

  /** `tickets` with those from `a` up to `b` replaced. */
  function Mark(tickets: seq<Ticket>, a: nat, b: nat, x: Ticket): (r: seq<Ticket>)
    ensures |r| == |tickets|
    ensures forall i :: 0 <= i < |r| ==> r[i] == if a <= i < b then x else tickets[i]
  {
    seq(|tickets|, i requires 0 <= i < |tickets| => if a <= i < b then x else tickets[i])
  }

  function Move(s: State, t: Tid, pc: PC): State
    requires t < |s.pcs|
  {
    s.(pcs := s.pcs[t := pc])
  }

  /** After the first test. */
  function Probed(kind: Kind, over: nat, desired: Option<nat>): PC {
    match desired case None => Idle case Some(n) => Claim(kind, over, n)
  }

  /** After the second test, which lets `won` of the units through. */
  function Decide(s: State, t: Tid, mine: nat, desired: nat, won: nat): State
    requires t < |s.pcs| && won <= desired
  {
    Move(s.(tickets := Mark(s.tickets, mine, mine + won, Won(t))), t,
         if won < desired then GiveBack(mine, won, desired - won) else Take(mine, won))
  }

  function Advance(s: State, t: Tid): State
    requires t < |s.pcs|
  {
    match s.pcs[t]
    case Idle => s
    case LoadTail(kind) => Move(s, t, LoadOver(kind, s.tail))
    case LoadOver(kind, tail) => Move(s, t, Probe(kind, tail, s.over))
    case Probe(kind, tail, over) =>
      Move(s, t, Probed(kind, over, Desired(kind, tail, over, s.opt)))
    case Claim(kind, over, desired) =>
      Move(s.(opt := s.opt + desired, tickets := s.tickets + seq(desired, _ => Pending(t))),
           t, Check(kind, over, desired, s.opt))
    case Check(kind, over, desired, mine) =>
      Decide(s, t, mine, desired, Min(Actual(kind, s.tail, over, mine, desired), desired))
    case GiveBack(mine, won, lost) =>
      var s1 := s.(over := s.over + lost, tickets := Mark(s.tickets, mine + won, mine + won + lost, Lost));
      if won == 0 then Move(s1, t, Idle) else Move(s1, t, Take(mine, won))
    case Take(mine, won) =>
      Move(s.(head := s.head + won, tickets := Mark(s.tickets, mine, mine + won, Taken),
              log := s.log + [Delivery(t, s.head, won)]), t, Idle)
  }

  function Next(s: State, e: Event): State {
    match e
    case Enqueue(count) => s.(tail := s.tail + count)
    case Call(t, kind) => if t < |s.pcs| && s.pcs[t].Idle? then Move(s, t, LoadTail(kind)) else s
    case Run(t) => if t < |s.pcs| then Advance(s, t) else s
  }

  function Exec(s: State, es: seq<Event>): State {
    if es == [] then s else Next(Exec(s, es[..|es| - 1]), es[|es| - 1])
  }

  predicate Initial(s: State) {
    && s.tail == s.head == s.opt == s.over == 0
    && s.tickets == [] && s.log == []
    && forall t: Tid :: t < |s.pcs| ==> s.pcs[t] == Idle
  }

  /** No test compares counters 2^63 or more apart. */
  predicate InWindow(s: State) {
    forall t: Tid :: t < |s.pcs| ==>
      match s.pcs[t] {
        case Probe(_, tail, over) => -HALF < s.opt - over - tail < HALF
        case Check(_, over, _, mine) => -HALF < mine - over - s.tail < HALF
        case _ => true
      }
  }

  ghost predicate WindowedRun(s: State, es: seq<Event>) {
    forall k :: 0 <= k <= |es| ==> InWindow(Exec(s, es[..k]))
  }

  // ---------------------------------------------------------------- words and counters

  /** circular_less_than orders counters truly exactly when their distance is inside the half word. */
  lemma CircularLessMeans(x: nat, y: nat)
    ensures -HALF <= y - x < HALF ==> (CircularLess(Word(x), Word(y)) <==> x < y)
    ensures x < y && y - x < WORD ==> (CircularLess(Word(x), Word(y)) <==> y - x < HALF)
  {
    WordOfDifference(x, y);
  }

  // ---------------------------------------------------------------- counting the tickets

  datatype Class = IsPending | IsWon | IsTaken | IsLost

  function ClassOf(x: Ticket): Class {
    match x case Pending(_) => IsPending case Won(_) => IsWon case Taken => IsTaken case Lost => IsLost
  }

  function Is(c: Class): Ticket -> bool { (x: Ticket) => ClassOf(x) == c }

  function Count(tickets: seq<Ticket>, c: Class): nat { Counting.Count(tickets, Is(c)) }

  function LostIn(tickets: seq<Ticket>): nat { Count(tickets, IsLost) }

  predicate Winner(x: Ticket) { x.Won? || x.Taken? }

  // ---------------------------------------------------------------- the invariant

  /** A winning ticket: not counting the tickets before it that are known to be lost, there are
      enough elements for all tickets up to it. */
  predicate Fits(tickets: seq<Ticket>, tail: nat, j: nat) {
    j < |tickets| && Winner(tickets[j]) ==> j + 1 - LostIn(tickets[..j]) <= tail
  }

  ghost predicate WinnersFit(tickets: seq<Ticket>, tail: nat) {
    forall j: nat {:trigger Fits(tickets, tail, j)} :: Fits(tickets, tail, j)
  }

  ghost predicate AllAre(tickets: seq<Ticket>, a: nat, b: nat, x: Ticket) {
    a <= b <= |tickets| && forall j :: a <= j < b ==> tickets[j] == x
  }

  ghost predicate PcOk(tickets: seq<Ticket>, over: nat, t: Tid, pc: PC) {
    match pc
    case Probe(_, _, seen) => seen <= over
    case Claim(_, seen, _) => seen <= over
    case Check(_, seen, desired, mine) =>
      AllAre(tickets, mine, mine + desired, Pending(t)) && seen <= LostIn(tickets[..mine])
    case GiveBack(mine, won, lost) =>
      AllAre(tickets, mine, mine + won, Won(t)) && AllAre(tickets, mine + won, mine + won + lost, Pending(t))
    case Take(mine, won) => AllAre(tickets, mine, mine + won, Won(t))
    case _ => true
  }

  ghost predicate PcsOk(tickets: seq<Ticket>, over: nat, pcs: seq<PC>) {
    forall t: Tid :: t < |pcs| ==> PcOk(tickets, over, t, pcs[t])
  }

  /** An undecided or untaken ticket belongs to a thread that is still at it. */
  predicate TicketOk(pcs: seq<PC>, j: nat, x: Ticket) {
    match x
    case Pending(t) => t < |pcs| &&
      match pcs[t] {
        case Check(_, _, desired, mine) => mine <= j < mine + desired
        case GiveBack(mine, won, lost) => mine + won <= j < mine + won + lost
        case _ => false
      }
    case Won(t) => t < |pcs| &&
      match pcs[t] {
        case GiveBack(mine, won, _) => mine <= j < mine + won
        case Take(mine, won) => mine <= j < mine + won
        case _ => false
      }
    case _ => true
  }

  /** Deliveries are consecutive runs of indexes, from 0 up to the head index. */
  predicate LogOk(log: seq<Delivery>, head: nat) {
    if log == [] then head == 0
    else
      var d := log[|log| - 1];
      d.first + d.count == head && LogOk(log[..|log| - 1], d.first)
  }

  ghost predicate TicketsOk(pcs: seq<PC>, tickets: seq<Ticket>) {
    forall j: nat :: j < |tickets| ==> TicketOk(pcs, j, tickets[j])
  }

  ghost predicate Inv(s: State) {
    && |s.tickets| == s.opt
    && LostIn(s.tickets) == s.over
    && Count(s.tickets, IsTaken) == s.head
    && WinnersFit(s.tickets, s.tail)
    && PcsOk(s.tickets, s.over, s.pcs)
    && TicketsOk(s.pcs, s.tickets)
    && LogOk(s.log, s.head)
  }

  // ---------------------------------------------------------------- counting

  lemma {:induction false} CountsBound(tickets: seq<Ticket>)
    ensures Count(tickets, IsWon) + Count(tickets, IsTaken) + LostIn(tickets) <= |tickets|
  {
    if tickets != [] { CountsBound(tickets[..|tickets| - 1]); }
  }

  /** Losing a ticket is for ever, so known losses before any ticket only grow. */
  lemma {:induction false} LostGrows(a: seq<Ticket>, b: seq<Ticket>)
    requires |a| <= |b|
    requires forall j :: 0 <= j < |a| && a[j].Lost? ==> b[j].Lost?
    ensures LostIn(a) <= LostIn(b)
  {
    if |a| < |b| {
      LostGrows(a, b[..|b| - 1]);
    } else if a != [] {
      LostGrows(a[..|a| - 1], b[..|b| - 1]);
    }
  }

  /** Marking a run of equal tickets moves exactly its length from one count to another. */
  lemma {:induction false} MarkCounts(tickets: seq<Ticket>, a: nat, b: nat, x: Ticket, y: Ticket, c: Class)
    requires AllAre(tickets, a, b, x)
    ensures Count(Mark(tickets, a, b, y), c) ==
            Count(tickets, c) + (if ClassOf(y) == c then b - a else 0) - (if ClassOf(x) == c then b - a else 0)
  {
    var n := |tickets|;
    if n == 0 || a == b {
      assert Mark(tickets, a, b, y) == tickets;
    } else {
      var b' := if b == n then n - 1 else b;
      CountMarked(tickets, a, b, b', y, c);
      CountLast(tickets, c);
      MarkCounts(tickets[..n - 1], a, b', x, y, c);
    }
  }

  lemma CountMarked(tickets: seq<Ticket>, a: nat, b: nat, b': nat, y: Ticket, c: Class)
    requires a <= b' <= |tickets| - 1 && b <= |tickets| && b' == if b == |tickets| then b - 1 else b
    ensures Count(Mark(tickets, a, b, y), c) ==
            Count(Mark(tickets[..|tickets| - 1], a, b', y), c) +
            if ClassOf(if b == |tickets| then y else tickets[|tickets| - 1]) == c then 1 else 0
  {
    MarkPrefix(tickets, a, b, b', y);
    CountLast(Mark(tickets, a, b, y), c);
  }

  lemma CountLast(tickets: seq<Ticket>, c: Class)
    requires tickets != []
    ensures Count(tickets, c) ==
            Count(tickets[..|tickets| - 1], c) + if ClassOf(tickets[|tickets| - 1]) == c then 1 else 0
  {
  }

  lemma MarkPrefix(tickets: seq<Ticket>, a: nat, b: nat, b': nat, y: Ticket)
    requires a <= b' <= |tickets| - 1 && b <= |tickets| && b' == if b == |tickets| then b - 1 else b
    ensures Mark(tickets, a, b, y)[..|tickets| - 1] == Mark(tickets[..|tickets| - 1], a, b', y)
  {
  }

  lemma {:induction false} AppendCounts(tickets: seq<Ticket>, n: nat, t: Tid, c: Class)
    requires c != IsPending
    ensures Count(tickets + seq(n, _ => Pending(t)), c) == Count(tickets, c)
  {
    var r := tickets + seq(n, _ => Pending(t));
    if n == 0 {
      assert r == tickets;
    } else {
      assert r[..|r| - 1] == tickets + seq(n - 1, _ => Pending(t));
      AppendCounts(tickets, n - 1, t, c);
    }
  }

  /** The ticket argument: the winners, wherever they are, number at most `tail`. */
  lemma {:induction false} WinnersBounded(tickets: seq<Ticket>, tail: nat)
    requires WinnersFit(tickets, tail)
    ensures Count(tickets, IsWon) + Count(tickets, IsTaken) <= tail
  {
    if tickets != [] {
      var last := |tickets| - 1;
      if Winner(tickets[last]) {
        assert Fits(tickets, tail, last);
        CountsBound(tickets[..last]);
      } else {
        forall j: nat
          ensures Fits(tickets[..last], tail, j)
        {
          assert Fits(tickets, tail, j);
          if j < last { assert tickets[..last][..j] == tickets[..j]; }
        }
        WinnersBounded(tickets[..last], tail);
      }
    }
  }

  // ---------------------------------------------------------------- every step keeps it

  lemma MarkGrowsLost(tickets: seq<Ticket>, a: nat, b: nat, x: Ticket, y: Ticket, k: nat)
    requires AllAre(tickets, a, b, x) && !x.Lost? && k <= |tickets|
    ensures LostIn(tickets[..k]) <= LostIn(Mark(tickets, a, b, y)[..k])
  {
    LostGrows(tickets[..k], Mark(tickets, a, b, y)[..k]);
  }

  lemma MarkKeepsAll(tickets: seq<Ticket>, a: nat, b: nat, x: Ticket, y: Ticket, c: nat, d: nat, z: Ticket)
    requires AllAre(tickets, a, b, x) && AllAre(tickets, c, d, z) && x != z
    ensures AllAre(Mark(tickets, a, b, y), c, d, z)
  {
    forall j | c <= j < d
      ensures Mark(tickets, a, b, y)[j] == z
    {
      assert tickets[j] == z;
    }
  }

  /** Marking tickets of thread `t` leaves every other thread what it relies on. */
  lemma MarkKeepsOthers(tickets: seq<Ticket>, over: nat, over': nat, pcs: seq<PC>, t: Tid,
                        a: nat, b: nat, x: Ticket, y: Ticket)
    requires PcsOk(tickets, over, pcs) && over <= over'
    requires AllAre(tickets, a, b, x) && (x == Pending(t) || x == Won(t))
    ensures forall u: Tid :: u < |pcs| && u != t ==> PcOk(Mark(tickets, a, b, y), over', u, pcs[u])
  {
    forall u: Tid | u < |pcs| && u != t
      ensures PcOk(Mark(tickets, a, b, y), over', u, pcs[u])
    {
      assert PcOk(tickets, over, u, pcs[u]);
      match pcs[u] {
        case Check(_, _, desired, mine) =>
          MarkGrowsLost(tickets, a, b, x, y, mine);
          MarkKeepsAll(tickets, a, b, x, y, mine, mine + desired, Pending(u));
        case GiveBack(mine, won, lost) =>
          MarkKeepsAll(tickets, a, b, x, y, mine, mine + won, Won(u));
          MarkKeepsAll(tickets, a, b, x, y, mine + won, mine + won + lost, Pending(u));
        case Take(mine, won) =>
          MarkKeepsAll(tickets, a, b, x, y, mine, mine + won, Won(u));
        case _ =>
      }
    }
  }

  /** New winners must fit; old ones still do. */
  lemma MarkKeepsFit(tickets: seq<Ticket>, tail: nat, a: nat, b: nat, x: Ticket, y: Ticket)
    requires WinnersFit(tickets, tail) && AllAre(tickets, a, b, x) && !x.Lost?
    requires Winner(y) && !Winner(x) ==> a == b || b - LostIn(tickets[..a]) <= tail
    ensures WinnersFit(Mark(tickets, a, b, y), tail)
  {
    var r := Mark(tickets, a, b, y);
    forall j: nat | j < |r|
      ensures Fits(r, tail, j)
    {
      assert Fits(tickets, tail, j);
      MarkGrowsLost(tickets, a, b, x, y, j);
      if a <= j < b && !Winner(x) {
        LostGrows(tickets[..a], tickets[..j]);
      }
    }
  }

  lemma OwnTickets(s: State, t: Tid)
    requires Inv(s) && t < |s.pcs|
    ensures forall j: nat :: j < |s.tickets| && (s.tickets[j] == Pending(t) || s.tickets[j] == Won(t)) ==>
              match s.pcs[t] {
                case Check(_, _, desired, mine) => s.tickets[j].Pending? && mine <= j < mine + desired
                case GiveBack(mine, won, lost) =>
                  mine <= j < mine + won + lost && (s.tickets[j].Pending? <==> mine + won <= j)
                case Take(mine, won) => s.tickets[j].Won? && mine <= j < mine + won
                case _ => false
              }
  {
    forall j: nat | j < |s.tickets| ensures TicketOk(s.pcs, j, s.tickets[j]) {}
  }

  /** The tickets of thread `t` fit its new place and nobody else's have changed. */
  lemma TicketsMove(pcs: seq<PC>, tickets: seq<Ticket>, t: Tid, pc: PC, r: seq<Ticket>)
    requires TicketsOk(pcs, tickets) && t < |pcs| && |tickets| <= |r|
    requires forall j: nat :: j < |r| && (r[j] == Pending(t) || r[j] == Won(t)) ==> TicketOk(pcs[t := pc], j, r[j])
    requires forall j: nat :: j < |r| && (r[j].Pending? || r[j].Won?) && r[j].t != t ==>
               j < |tickets| && tickets[j] == r[j]
    ensures TicketsOk(pcs[t := pc], r)
  {
    forall j: nat | j < |r|
      ensures TicketOk(pcs[t := pc], j, r[j])
    {
      if (r[j].Pending? || r[j].Won?) && r[j].t != t { assert TicketOk(pcs, j, tickets[j]); }
    }
  }

  lemma PcsMove(tickets: seq<Ticket>, over: nat, pcs: seq<PC>, t: Tid, pc: PC)
    requires t < |pcs| && PcOk(tickets, over, t, pc)
    requires forall u: Tid :: u < |pcs| && u != t ==> PcOk(tickets, over, u, pcs[u])
    ensures PcsOk(tickets, over, pcs[t := pc])
  {
  }

  lemma ClaimStep(s: State, t: Tid)
    requires Inv(s) && t < |s.pcs| && s.pcs[t].Claim?
    ensures Inv(Advance(s, t))
  {
    var r := s.tickets + seq(s.pcs[t].desired, _ => Pending(t));
    AppendCounts(s.tickets, s.pcs[t].desired, t, IsLost);
    AppendCounts(s.tickets, s.pcs[t].desired, t, IsTaken);
    forall k | 0 <= k <= |s.tickets|
      ensures r[..k] == s.tickets[..k]
    {
    }
    forall j: nat ensures Fits(r, s.tail, j) { assert Fits(s.tickets, s.tail, j); }
    assert s.tickets[..|s.tickets|] == s.tickets;
    assert PcOk(s.tickets, s.over, t, s.pcs[t]);
    forall u: Tid | u < |s.pcs| && u != t
      ensures PcOk(r, s.over, u, s.pcs[u])
    {
      assert PcOk(s.tickets, s.over, u, s.pcs[u]);
    }
    OwnTickets(s, t);
    TicketsMove(s.pcs, s.tickets, t, Advance(s, t).pcs[t], r);
    PcsMove(r, s.over, s.pcs, t, Advance(s, t).pcs[t]);
  }

  lemma ZeroLess(d: int)
    requires -HALF < d < HALF
    ensures CircularLess(0, Word(d)) <==> d > 0
    ensures d >= 0 ==> Word(d) == d
  {
    WordOfDifference(0, d);
  }

  /** Inside the window the word arithmetic of the second test is the plain one, so that every unit
      it lets through fits under the tail. */
  lemma ActualFits(kind: Kind, tail: nat, over: nat, mine: nat, desired: nat)
    requires -HALF < mine - over - tail < HALF && over <= mine
    ensures var won := Min(Actual(kind, tail, over, mine, desired), desired);
            won == 0 || mine + won - over <= tail
  {
    CircularLessMeans(mine - over, tail);
    ZeroLess(tail - (mine - over));
  }

  /** Thread `t` marks the run `a` to `b` of its tickets `y` and goes to `pc`, publishing the losses
      in `over` and the takings in `head`. */
  lemma MarkStep(s: State, t: Tid, a: nat, b: nat, x: Ticket, y: Ticket, pc: PC, s': State)
    requires Inv(s) && t < |s.pcs| && AllAre(s.tickets, a, b, x)
    requires (x == Pending(t) && (y == Won(t) || y == Lost)) || (x == Won(t) && y == Taken)
    requires y.Won? && a != b ==> b - LostIn(s.tickets[..a]) <= s.tail
    requires s' == s.(tickets := Mark(s.tickets, a, b, y), pcs := s.pcs[t := pc],
                      over := s'.over, head := s'.head, log := s'.log)
    requires s'.over == s.over + (if y.Lost? then b - a else 0)
    requires s'.head == s.head + (if y.Taken? then b - a else 0)
    requires LogOk(s'.log, s'.head)
    requires PcOk(s'.tickets, s'.over, t, pc)
    requires forall j: nat :: j < |s.tickets| && (s'.tickets[j] == Pending(t) || s'.tickets[j] == Won(t)) ==>
               TicketOk(s'.pcs, j, s'.tickets[j])
    ensures Inv(s')
  {
    MarkKeepsFit(s.tickets, s.tail, a, b, x, y);
    MarkKeepsOthers(s.tickets, s.over, s'.over, s.pcs, t, a, b, x, y);
    MarkCounts(s.tickets, a, b, x, y, IsLost);
    MarkCounts(s.tickets, a, b, x, y, IsTaken);
    TicketsMove(s.pcs, s.tickets, t, pc, s'.tickets);
    PcsMove(s'.tickets, s'.over, s.pcs, t, pc);
  }

  /** What the second test lets through fits under the tail, for all that is known to be lost. */
  lemma WonFits(s: State, t: Tid)
    requires Inv(s) && InWindow(s) && t < |s.pcs| && s.pcs[t].Check?
    ensures var Check(kind, over, desired, mine) := s.pcs[t];
            var won := Min(Actual(kind, s.tail, over, mine, desired), desired);
            && AllAre(s.tickets, mine, mine + desired, Pending(t))
            && (won == 0 || mine + won - LostIn(s.tickets[..mine]) <= s.tail)
  {
    var Check(kind, over, desired, mine) := s.pcs[t];
    assert PcOk(s.tickets, s.over, t, s.pcs[t]);
    CountsBound(s.tickets[..mine]);
    ActualFits(kind, s.tail, over, mine, desired);
  }

  lemma DecideStep(s: State, t: Tid, won: nat)
    requires Inv(s) && t < |s.pcs| && s.pcs[t].Check? && won <= s.pcs[t].desired
    requires won == 0 || s.pcs[t].mine + won - LostIn(s.tickets[..s.pcs[t].mine]) <= s.tail
    requires AllAre(s.tickets, s.pcs[t].mine, s.pcs[t].mine + s.pcs[t].desired, Pending(t))
    ensures Inv(Decide(s, t, s.pcs[t].mine, s.pcs[t].desired, won))
  {
    var mine, desired := s.pcs[t].mine, s.pcs[t].desired;
    OwnTickets(s, t);
    MarkStep(s, t, mine, mine + won, Pending(t), Won(t),
             if won < desired then GiveBack(mine, won, desired - won) else Take(mine, won), Decide(s, t, mine, desired, won));
  }

  lemma CheckStep(s: State, t: Tid)
    requires Inv(s) && InWindow(s) && t < |s.pcs| && s.pcs[t].Check?
    ensures Inv(Advance(s, t))
  {
    var Check(kind, over, desired, mine) := s.pcs[t];
    WonFits(s, t);
    DecideStep(s, t, Min(Actual(kind, s.tail, over, mine, desired), desired));
  }

  lemma GiveBackStep(s: State, t: Tid)
    requires Inv(s) && t < |s.pcs| && s.pcs[t].GiveBack?
    ensures Inv(Advance(s, t))
  {
    var GiveBack(mine, won, lost) := s.pcs[t];
    assert PcOk(s.tickets, s.over, t, s.pcs[t]);
    OwnTickets(s, t);
    var pc := if won == 0 then Idle else Take(mine, won);
    MarkStep(s, t, mine + won, mine + won + lost, Pending(t), Lost, pc, Advance(s, t));
  }

  lemma TakeStep(s: State, t: Tid)
    requires Inv(s) && t < |s.pcs| && s.pcs[t].Take?
    ensures Inv(Advance(s, t))
  {
    var Take(mine, won) := s.pcs[t];
    assert PcOk(s.tickets, s.over, t, s.pcs[t]);
    OwnTickets(s, t);
    var s' := Advance(s, t);
    assert s'.log[..|s'.log| - 1] == s.log;
    MarkStep(s, t, mine, mine + won, Won(t), Taken, Idle, s');
  }

  /** A thread that owns no ticket takes a step that touches no counter. */
  lemma PassKeeps(s: State, t: Tid, pc: PC)
    requires Inv(s) && t < |s.pcs| && PcOk(s.tickets, s.over, t, pc)
    requires !s.pcs[t].Check? && !s.pcs[t].GiveBack? && !s.pcs[t].Take?
    ensures Inv(Move(s, t, pc))
  {
    forall j: nat | j < |s.tickets|
      ensures TicketOk(s.pcs[t := pc], j, s.tickets[j])
    {
      assert TicketOk(s.pcs, j, s.tickets[j]);
    }
  }

  lemma EnqueueKeepsFit(tickets: seq<Ticket>, tail: nat, tail': nat)
    requires WinnersFit(tickets, tail) && tail <= tail'
    ensures WinnersFit(tickets, tail')
  {
    forall j: nat | j < |tickets|
      ensures Fits(tickets, tail', j)
    {
      assert Fits(tickets, tail, j);
    }
  }

  lemma NextKeepsInv(s: State, e: Event)
    requires Inv(s) && InWindow(s)
    ensures Inv(Next(s, e))
  {
    match e {
      case Enqueue(count) => EnqueueKeepsFit(s.tickets, s.tail, s.tail + count);
      case Call(t, kind) =>
        if t < |s.pcs| && s.pcs[t].Idle? { PassKeeps(s, t, LoadTail(kind)); }
      case Run(t) =>
        if t < |s.pcs| {
          assert PcOk(s.tickets, s.over, t, s.pcs[t]);
          match s.pcs[t] {
            case Idle =>
            case Claim(_, _, _) => ClaimStep(s, t);
            case Check(_, _, _, _) => CheckStep(s, t);
            case GiveBack(_, _, _) => GiveBackStep(s, t);
            case Take(_, _) => TakeStep(s, t);
            case _ => PassKeeps(s, t, Advance(s, t).pcs[t]);
          }
        }
    }
  }

  lemma {:induction false} ExecKeepsInv(s: State, es: seq<Event>)
    requires Initial(s) && WindowedRun(s, es)
    ensures Inv(Exec(s, es))
  {
    if es != [] {
      var es' := es[..|es| - 1];
      forall k | 0 <= k <= |es'|
        ensures InWindow(Exec(s, es'[..k]))
      {
        assert es'[..k] == es[..k];
      }
      assert es'[..|es'|] == es';
      ExecKeepsInv(s, es');
      NextKeepsInv(Exec(s, es'), es[|es| - 1]);
    }
  }

  // ---------------------------------------------------------------- the window

  /** What a thread has loaded of the tail is not beyond it. */
  ghost predicate TailSeen(s: State) {
    forall t: Tid :: t < |s.pcs| && (s.pcs[t].LoadOver? || s.pcs[t].Probe?) ==> s.pcs[t].tail <= s.tail
  }

  lemma SmallInWindow(s: State)
    requires Inv(s) && TailSeen(s) && s.tail < HALF && s.opt < HALF
    ensures InWindow(s)
  {
    CountsBound(s.tickets);
    forall t: Tid | t < |s.pcs| && s.pcs[t].Check? ensures s.pcs[t].over <= s.pcs[t].mine <= s.opt {
      assert PcOk(s.tickets, s.over, t, s.pcs[t]);
      CountsBound(s.tickets[..s.pcs[t].mine]);
    }
    forall t: Tid | t < |s.pcs| && s.pcs[t].Probe? ensures s.pcs[t].over <= s.opt {
      assert PcOk(s.tickets, s.over, t, s.pcs[t]);
    }
  }

  lemma CountersGrow(s: State, e: Event)
    requires TailSeen(s)
    ensures TailSeen(Next(s, e)) && s.tail <= Next(s, e).tail && s.opt <= Next(s, e).opt
  {
  }

  lemma {:induction false} AlwaysSeen(s0: State, es: seq<Event>)
    requires Initial(s0)
    ensures TailSeen(Exec(s0, es))
  {
    if es != [] {
      AlwaysSeen(s0, es[..|es| - 1]);
      CountersGrow(Exec(s0, es[..|es| - 1]), es[|es| - 1]);
    }
  }

  /** A run that ends with fewer than 2^63 elements enqueued and units claimed was in the window throughout. */
  lemma {:induction false} SmallRun(s0: State, es: seq<Event>)
    requires Initial(s0) && Exec(s0, es).tail < HALF && Exec(s0, es).opt < HALF
    ensures WindowedRun(s0, es)
  {
    AlwaysSeen(s0, es);
    if es == [] {
      assert es[..0] == es;
    } else {
      var es' := es[..|es| - 1];
      var s := Exec(s0, es');
      AlwaysSeen(s0, es');
      CountersGrow(s, es[|es| - 1]);
      SmallRun(s0, es');
      ExecKeepsInv(s0, es');
      assert InWindow(s) by { assert es'[..|es'|] == es'; }
      NextKeepsInv(s, es[|es| - 1]);
      SmallInWindow(Exec(s0, es));
      forall k | 0 <= k <= |es| ensures InWindow(Exec(s0, es[..k])) {
        if k < |es| { assert es[..k] == es'[..k]; } else { assert es[..k] == es; }
      }
    }
  }

  // ---------------------------------------------------------------- what follows for every run

  /** The head index never passes the tail index, counting also every unit that a consumer has been
      promised and not yet taken. */
  lemma HeadNeverPassesTail(s0: State, es: seq<Event>)
    requires Initial(s0) && WindowedRun(s0, es)
    ensures var s := Exec(s0, es); s.head + Count(s.tickets, IsWon) <= s.tail
  {
    ExecKeepsInv(s0, es);
    WinnersBounded(Exec(s0, es).tickets, Exec(s0, es).tail);
  }

  /** A consumer about to advance the head index will get only indexes below the tail. */
  lemma TakenIsPublished(s0: State, es: seq<Event>, t: Tid)
    requires Initial(s0) && WindowedRun(s0, es)
    requires t < |Exec(s0, es).pcs| && Exec(s0, es).pcs[t].Take?
    ensures var s := Exec(s0, es); s.head + s.pcs[t].won <= s.tail
  {
    ExecKeepsInv(s0, es);
    var s := Exec(s0, es);
    var Take(mine, won) := s.pcs[t];
    assert PcOk(s.tickets, s.over, t, s.pcs[t]);
    MarkCounts(s.tickets, mine, mine + won, Won(t), Taken, IsWon);
    HeadNeverPassesTail(s0, es);
  }

  /** The assert on `overcommit <= myDequeueCount`. */
  lemma OvercommitBelowMine(s0: State, es: seq<Event>, t: Tid)
    requires Initial(s0) && WindowedRun(s0, es)
    requires t < |Exec(s0, es).pcs| && Exec(s0, es).pcs[t].Check?
    ensures Exec(s0, es).pcs[t].over <= Exec(s0, es).pcs[t].mine
  {
    ExecKeepsInv(s0, es);
    var s := Exec(s0, es);
    assert PcOk(s.tickets, s.over, t, s.pcs[t]);
    CountsBound(s.tickets[..s.pcs[t].mine]);
  }

  ghost predicate Quiet(s: State) { forall t: Tid :: t < |s.pcs| ==> s.pcs[t] == Idle }

  /** With no consumer at work the optimistic count, less the overcommit, is the head index. */
  lemma QuietCounters(s0: State, es: seq<Event>)
    requires Initial(s0) && WindowedRun(s0, es) && Quiet(Exec(s0, es))
    ensures var s := Exec(s0, es); s.opt - s.over == s.head <= s.tail
  {
    ExecKeepsInv(s0, es);
    var s := Exec(s0, es);
    forall j: nat | j < |s.tickets|
      ensures s.tickets[j].Taken? || s.tickets[j].Lost?
    {
      assert TicketOk(s.pcs, j, s.tickets[j]);
    }
    DecidedCount(s.tickets);
    HeadNeverPassesTail(s0, es);
  }

  lemma {:induction false} DecidedCount(tickets: seq<Ticket>)
    requires forall j: nat :: j < |tickets| ==> tickets[j].Taken? || tickets[j].Lost?
    ensures Count(tickets, IsTaken) + LostIn(tickets) == |tickets|
  {
    if tickets != [] { DecidedCount(tickets[..|tickets| - 1]); }
  }

  function Wanted(kind: Kind): nat { match kind case One => 1 case Bulk(max) => max }

  // ---------------------------------------------------------------- how much a dequeue gets

  /** A dequeue claims no more units than it wants, and a single one claims one. */
  predicate AskOk(pc: PC) {
    match pc
    case Claim(kind, _, desired) => desired <= Wanted(kind) && (kind.One? ==> desired == 1)
    case Check(kind, _, desired, _) => desired <= Wanted(kind) && (kind.One? ==> desired == 1)
    case _ => true
  }

  lemma {:induction false} AlwaysAsks(s0: State, es: seq<Event>, t: Tid)
    requires Initial(s0) && t < |Exec(s0, es).pcs|
    ensures AskOk(Exec(s0, es).pcs[t])
  {
    if es != [] {
      var s := Exec(s0, es[..|es| - 1]);
      SameThreads(s, es[|es| - 1]);
      AlwaysAsks(s0, es[..|es| - 1], t);
      AskStep(s, es[|es| - 1], t);
    }
  }

  lemma SameThreads(s: State, e: Event)
    ensures |Next(s, e).pcs| == |s.pcs|
  {
  }

  lemma AskStep(s: State, e: Event, t: Tid)
    requires t < |s.pcs| && AskOk(s.pcs[t])
    ensures |Next(s, e).pcs| == |s.pcs| && AskOk(Next(s, e).pcs[t])
  {
  }

  /** What there is beyond `claimed` units when `tail` elements are published. */
  function Beyond(tail: nat, claimed: int): nat { if tail <= claimed then 0 else tail - claimed }

  /** The first test: a dequeue claims as many units as it wants, or as there are beyond the units claimed by
      then, less the losses that it has seen; it gives up at once only if there are none. */
  lemma ClaimsExactly(s0: State, es: seq<Event>, t: Tid)
    requires Initial(s0) && WindowedRun(s0, es)
    requires t < |Exec(s0, es).pcs| && Exec(s0, es).pcs[t].Probe? && Wanted(Exec(s0, es).pcs[t].kind) > 0
    ensures Claimed(Exec(s0, es), Next(Exec(s0, es), Run(t)), t)
  {
    WindowedEnd(s0, es);
    ProbeClaims(Exec(s0, es), t);
  }

  lemma ProbeClaims(s: State, t: Tid)
    requires Inv(s) && InWindow(s) && t < |s.pcs| && s.pcs[t].Probe? && Wanted(s.pcs[t].kind) > 0
    ensures Claimed(s, Next(s, Run(t)), t)
  {
    OverBelowOpt(s, t);
    DesiredExactly(s.pcs[t].kind, s.pcs[t].tail, s.pcs[t].over, s.opt);
  }

  ghost predicate Claimed(s: State, r: State, t: Tid)
    requires t < |s.pcs| && s.pcs[t].Probe?
  {
    var Probe(kind, tail, over) := s.pcs[t];
    var n := Min(Beyond(tail, s.opt - over), Wanted(kind));
    r == Move(s, t, if n == 0 then Idle else Claim(kind, over, n))
  }

  lemma OverBelowOpt(s: State, t: Tid)
    requires Inv(s) && InWindow(s) && t < |s.pcs| && s.pcs[t].Probe?
    ensures s.pcs[t].over <= s.opt && -HALF < s.opt - s.pcs[t].over - s.pcs[t].tail < HALF
  {
    assert PcOk(s.tickets, s.over, t, s.pcs[t]);
    CountsBound(s.tickets);
  }

  lemma WindowedEnd(s0: State, es: seq<Event>)
    requires Initial(s0) && WindowedRun(s0, es)
    ensures Inv(Exec(s0, es)) && InWindow(Exec(s0, es))
  {
    assert es[..|es|] == es;
    ExecKeepsInv(s0, es);
  }

  lemma DesiredExactly(kind: Kind, tail: nat, over: nat, opt: nat)
    requires -HALF < opt - over - tail < HALF && over <= opt && Wanted(kind) > 0
    ensures var n := Min(Beyond(tail, opt - over), Wanted(kind));
            Desired(kind, tail, over, opt) == if n == 0 then None else Some(n)
  {
    CircularLessMeans(opt - over, tail);
    ZeroLess(tail - (opt - over));
  }

  lemma ActualExactly(kind: Kind, tail: nat, over: nat, mine: nat, desired: nat)
    requires -HALF < mine - over - tail < HALF && over <= mine && (kind.One? ==> desired == 1)
    ensures Min(Actual(kind, tail, over, mine, desired), desired) == Min(Beyond(tail, mine - over), desired)
  {
    CircularLessMeans(mine - over, tail);
    ZeroLess(tail - (mine - over));
  }

  /** The second test: of the units claimed from ticket `mine` on the dequeue wins all those for which there are
      elements, and gives back the others and no more: only if the tickets up to the last it wins, less the
      losses that it had seen, reach the tail. */
  lemma WinsExactly(s0: State, es: seq<Event>, t: Tid)
    requires Initial(s0) && WindowedRun(s0, es)
    requires t < |Exec(s0, es).pcs| && Exec(s0, es).pcs[t].Check?
    ensures Decided(Exec(s0, es), Next(Exec(s0, es), Run(t)), t)
  {
    WindowedEnd(s0, es);
    AlwaysAsks(s0, es, t);
    CheckDecides(Exec(s0, es), t);
  }

  ghost predicate Decided(s: State, r: State, t: Tid)
    requires t < |s.pcs| && s.pcs[t].Check?
  {
    var Check(kind, over, desired, mine) := s.pcs[t];
    var won := Count(r.tickets, IsWon) - Count(s.tickets, IsWon);
    && 0 <= won == Min(Beyond(s.tail, mine - over), desired)
    && (won == desired || mine + won - over >= s.tail)
    && |r.pcs| == |s.pcs|
    && r.pcs[t] == if won < desired then GiveBack(mine, won, desired - won) else Take(mine, won)
  }

  lemma CheckDecides(s: State, t: Tid)
    requires Inv(s) && InWindow(s) && t < |s.pcs| && s.pcs[t].Check? && AskOk(s.pcs[t])
    ensures Decided(s, Next(s, Run(t)), t)
  {
    var Check(kind, over, desired, mine) := s.pcs[t];
    CheckFacts(s, t);
    ActualExactly(kind, s.tail, over, mine, desired);
    WinsCounted(s, t, mine, desired, Min(Beyond(s.tail, mine - over), desired));
  }

  lemma CheckFacts(s: State, t: Tid)
    requires Inv(s) && InWindow(s) && t < |s.pcs| && s.pcs[t].Check?
    ensures var Check(kind, over, desired, mine) := s.pcs[t];
            && AllAre(s.tickets, mine, mine + desired, Pending(t)) && over <= mine && -HALF < mine - over - s.tail < HALF
  {
    assert PcOk(s.tickets, s.over, t, s.pcs[t]);
    CountsBound(s.tickets[..s.pcs[t].mine]);
  }

  lemma WinsCounted(s: State, t: Tid, mine: nat, desired: nat, won: nat)
    requires t < |s.pcs| && won <= desired && AllAre(s.tickets, mine, mine + desired, Pending(t))
    ensures Count(Decide(s, t, mine, desired, won).tickets, IsWon) == Count(s.tickets, IsWon) + won
  {
    MarkCounts(s.tickets, mine, mine + won, Pending(t), Won(t), IsWon);
  }

  // ---------------------------------------------------------------- a dequeue on its own

  ghost predicate SoloOutcome(s: State, t: Tid, kind: Kind) {
    var n := Min(Beyond(s.tail, s.opt - s.over), Wanted(kind));
    var s1 := Next(Next(Next(Next(s, Call(t, kind)), Run(t)), Run(t)), Run(t));
    if n == 0 then s1 == s
    else
      var s2 := Next(Next(Next(s1, Run(t)), Run(t)), Run(t));
      && s2.log == s.log + [Delivery(t, s.head, n)] && s2.head == s.head + n
      && s2.pcs == s.pcs && s2.over == s.over && s2.tail == s.tail
  }

  /** What nobody has claimed is what is beyond the head. */
  predicate AtRest(s: State) { s.head <= s.tail && Beyond(s.tail, s.opt - s.over) == s.tail - s.head }

  lemma RestIs(s: State)
    requires s.opt - s.over == s.head <= s.tail
    ensures AtRest(s)
  {
  }

  /** So a dequeue that runs alone, wherever the other consumers are, gets from the head index on as much as it
      asked for, or as there is beyond what the others have claimed and not given back: with no other at work,
      beyond the head.  It gets nothing only if there is nothing. */
  lemma SoloDequeue(s0: State, es: seq<Event>, t: Tid, kind: Kind)
    requires Initial(s0) && WindowedRun(s0, es)
    requires t < |Exec(s0, es).pcs| && Exec(s0, es).pcs[t] == Idle && Wanted(kind) > 0
    requires -HALF < Exec(s0, es).opt - Exec(s0, es).over - Exec(s0, es).tail < HALF
    ensures SoloOutcome(Exec(s0, es), t, kind)
    ensures Quiet(Exec(s0, es)) ==> AtRest(Exec(s0, es))
  {
    WindowedEnd(s0, es);
    LossesWithin(Exec(s0, es));
    SoloFrom(Exec(s0, es), t, kind);
    if Quiet(Exec(s0, es)) {
      QuietCounters(s0, es);
      RestIs(Exec(s0, es));
    }
  }

  lemma LossesWithin(s: State)
    requires Inv(s)
    ensures |s.tickets| == s.opt && s.over <= s.opt
  {
    CountsBound(s.tickets);
  }

  lemma SoloFrom(s: State, t: Tid, kind: Kind)
    requires t < |s.pcs| && s.pcs[t] == Idle && Wanted(kind) > 0 && |s.tickets| == s.opt
    requires s.over <= s.opt && -HALF < s.opt - s.over - s.tail < HALF
    ensures SoloOutcome(s, t, kind)
  {
    var n := Min(Beyond(s.tail, s.opt - s.over), Wanted(kind));
    DesiredExactly(kind, s.tail, s.over, s.opt);
    var a := Move(s, t, Probe(kind, s.tail, s.over));
    assert a == Next(Next(Next(s, Call(t, kind)), Run(t)), Run(t));
    if n == 0 {
      assert s.pcs[t := Idle] == s.pcs;
    } else {
      ActualExactly(kind, s.tail, s.over, s.opt, n);
      SoloClaimed(s, a, t, kind, n);
    }
  }

  lemma SoloClaimed(s: State, a: State, t: Tid, kind: Kind, n: nat)
    requires t < |s.pcs| && s.pcs[t] == Idle && |s.tickets| == s.opt && n > 0
    requires a == Move(s, t, Probe(kind, s.tail, s.over)) && Desired(kind, s.tail, s.over, s.opt) == Some(n)
    requires Min(Actual(kind, s.tail, s.over, s.opt, n), n) == n
    ensures var r := Next(Next(Next(Next(a, Run(t)), Run(t)), Run(t)), Run(t));
            && r.log == s.log + [Delivery(t, s.head, n)] && r.head == s.head + n
            && r.pcs == s.pcs && r.over == s.over && r.tail == s.tail
  {
    assert Next(a, Run(t)) == Move(s, t, Claim(kind, s.over, n));
    var b := Next(Next(a, Run(t)), Run(t));
    assert b.pcs == s.pcs[t := Check(kind, s.over, n, s.opt)];
    var c := Next(b, Run(t));
    assert c.pcs == s.pcs[t := Take(s.opt, n)];
    assert Next(c, Run(t)).pcs == s.pcs;
  }

  /** No index is delivered twice and none is skipped: every index below the head belongs to exactly
      one delivery. */
  lemma DeliveredOnce(s0: State, es: seq<Event>, index: nat)
    requires Initial(s0) && WindowedRun(s0, es) && index < Exec(s0, es).head
    ensures var log := Exec(s0, es).log;
            exists i :: 0 <= i < |log| && InDelivery(log[i], index) &&
                        forall j :: 0 <= j < |log| && j != i ==> !InDelivery(log[j], index)
  {
    ExecKeepsInv(s0, es);
    var i := FindDelivery(Exec(s0, es).log, Exec(s0, es).head, index);
  }

  predicate InDelivery(d: Delivery, index: nat) { d.first <= index < d.first + d.count }

  lemma {:induction false} FindDelivery(log: seq<Delivery>, head: nat, index: nat) returns (i: nat)
    requires LogOk(log, head) && index < head
    ensures i < |log| && InDelivery(log[i], index)
    ensures forall j :: 0 <= j < |log| && j != i ==> !InDelivery(log[j], index)
  {
    var last := |log| - 1;
    if log[last].first <= index {
      i := last;
      DeliveriesBelow(log[..last], log[last].first);
      assert forall j :: 0 <= j < last ==> log[..last][j] == log[j];
    } else {
      i := FindDelivery(log[..last], log[last].first, index);
      assert forall j :: 0 <= j < last ==> log[..last][j] == log[j];
    }
  }

  lemma {:induction false} DeliveriesBelow(log: seq<Delivery>, head: nat)
    requires LogOk(log, head)
    ensures forall j :: 0 <= j < |log| ==> log[j].first + log[j].count <= head
  {
    if log != [] {
      var last := |log| - 1;
      DeliveriesBelow(log[..last], log[last].first);
      assert forall j :: 0 <= j < last ==> log[..last][j] == log[j];
    }
  }
}
