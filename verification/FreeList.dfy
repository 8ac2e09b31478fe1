/** moodycamel's reference-counted free list (queue-bench/moodycamel.h:1340-1453), as a machine that
    takes one atomic load, store or read-modify-write of one thread per step.

    `loc`, `chain` and `log` are history variables: no step reads them except that `add` may only be
    called for a node its caller owns.  Everything else is a variable of the program. */
module FreeList {
  import opened Counting

  type Node = nat
  type Tid = nat

  datatype Ptr = Null | At(node: Node)

  const WORD: nat := 0x1_0000_0000
  const SHOULD_BE_ON_FREELIST: nat := 0x8000_0000

  /** `refs & REFS_MASK` */
  function Low(word: nat): nat { word % SHOULD_BE_ON_FREELIST }

  /** A 32-bit `fetch_add`. */
  function Plus(word: nat, delta: int): (r: nat)
    ensures r < WORD
    ensures 0 <= word + delta < WORD ==> r == word + delta
  {
    (word + delta) % WORD
  }

  /** Where `add_knowing_refcount_is_zero` goes back to. */
  datatype Return = ToCaller | ToLoop(head: Ptr)

  datatype PC =
    | Idle
    | AddRefs(n: Node)
    | LinkLoad(n: Node, ret: Return)
    | LinkNext(n: Node, seen: Ptr, ret: Return)
    | LinkRefs(n: Node, seen: Ptr, ret: Return)
    | LinkCas(n: Node, seen: Ptr, ret: Return)
    | LinkUndo(n: Node, seen: Ptr, ret: Return)
    | GetHead
    | GetRefs(n: Node)
    | GetInc(n: Node, word: nat)
    | GetNext(n: Node)
    | GetCas(n: Node, next: Ptr)
    | GetAssert(n: Node)
    | GetDrop(n: Node)
    | GetDec(n: Node, seen: Ptr)

  /** The one place a node is in. */
  datatype Loc =
    | Client              // owned by a client
    | Adding(t: Tid)      // handed to `add`, whose first fetch_add is still to come
    | Waiting             // flagged; the last reader to leave will link it
    | Held(t: Tid)        // inside add_knowing_refcount_is_zero with no reference left
    | Linking(t: Tid)     // its count is one again and the head CAS is pending or has failed
    | Listed              // on the list
    | Taken(t: Tid)       // unlinked, both references still counted

  datatype Entry = Gave(n: Node) | Got(n: Node)

  datatype State = State(
    head: Ptr,
    refs: seq<nat>,
    next: seq<Ptr>,
    pcs: seq<PC>,
    loc: seq<Loc>,
    chain: seq<Node>,
    log: seq<Entry>)

  datatype Event = CallAdd(t: Tid, n: Node) | CallTryGet(t: Tid) | Run(t: Tid)

  // ---------------------------------------------------------------- the machine

  predicate KnownPtr(nodes: nat, p: Ptr) { p.At? ==> p.node < nodes }

  predicate KnownRet(nodes: nat, r: Return) { r.ToLoop? ==> KnownPtr(nodes, r.head) }

  predicate KnownPC(nodes: nat, pc: PC) {
    match pc
    case Idle | GetHead => true
    case LinkLoad(n, r) => n < nodes && KnownRet(nodes, r)
    case LinkNext(n, p, r) => n < nodes && KnownPtr(nodes, p) && KnownRet(nodes, r)
    case LinkRefs(n, p, r) => n < nodes && KnownPtr(nodes, p) && KnownRet(nodes, r)
    case LinkCas(n, p, r) => n < nodes && KnownPtr(nodes, p) && KnownRet(nodes, r)
    case LinkUndo(n, p, r) => n < nodes && KnownPtr(nodes, p) && KnownRet(nodes, r)
    case GetCas(n, p) => n < nodes && KnownPtr(nodes, p)
    case GetDec(n, p) => n < nodes && KnownPtr(nodes, p)
    case _ => pc.n < nodes
  }

  ghost predicate Typed(s: State) {
    && |s.next| == |s.refs| == |s.loc|
    && KnownPtr(|s.refs|, s.head)
    && (forall n: Node :: n < |s.next| ==> KnownPtr(|s.refs|, s.next[n]))
    && (forall t: Tid :: t < |s.pcs| ==> KnownPC(|s.refs|, s.pcs[t]))
  }

  /** The test of try_get's `while (head != nullptr)`. */
  function LoopTest(head: Ptr): PC {
    if head.Null? then Idle else GetRefs(head.node)
  }

  function Resume(ret: Return): PC {
    match ret case ToCaller => Idle case ToLoop(head) => LoopTest(head)
  }

  function Move(s: State, t: Tid, pc: PC): State
    requires t < |s.pcs|
  {
    s.(pcs := s.pcs[t := pc])
  }

  /** `add`, lines 1362-1374. */
  ghost function AddStep(s: State, t: Tid, n: Node): (r: State)
    requires Typed(s) && t < |s.pcs| && n < |s.refs|
    ensures Typed(r)
  {
    var word := s.refs[n];
    var s1 := s.(refs := s.refs[n := Plus(word, SHOULD_BE_ON_FREELIST)]);
    if word == 0 then Move(s1.(loc := s.loc[n := Held(t)]), t, LinkLoad(n, ToCaller))
    else Move(s1.(loc := s.loc[n := Waiting]), t, Idle)
  }

  /** `add_knowing_refcount_is_zero`, lines 1419-1441. */
  ghost function LinkStep(s: State, t: Tid, pc: PC): (r: State)
    requires Typed(s) && t < |s.pcs| && KnownPC(|s.refs|, pc)
    ensures Typed(r)
  {
    match pc
    case LinkLoad(n, ret) => Move(s, t, LinkNext(n, s.head, ret))
    case LinkNext(n, seen, ret) => Move(s.(next := s.next[n := seen]), t, LinkRefs(n, seen, ret))
    case LinkRefs(n, seen, ret) =>
      Move(s.(refs := s.refs[n := 1], loc := s.loc[n := Linking(t)]), t, LinkCas(n, seen, ret))
    case LinkCas(n, seen, ret) =>
      if s.head == seen then
        Move(s.(head := At(n), loc := s.loc[n := Listed], chain := [n] + s.chain), t, Resume(ret))
      else Move(s, t, LinkUndo(n, s.head, ret))
    case LinkUndo(n, seen, ret) =>
      var word := s.refs[n];
      var s1 := s.(refs := s.refs[n := Plus(word, SHOULD_BE_ON_FREELIST - 1)]);
      if word == 1 then Move(s1.(loc := s.loc[n := Held(t)]), t, LinkNext(n, seen, ret))
      else Move(s1.(loc := s.loc[n := Waiting]), t, Resume(ret))
    case _ => s
  }

  /** `try_get` up to its CAS on the head, lines 1381-1393. */
  ghost function GetStep(s: State, t: Tid, pc: PC): (r: State)
    requires Typed(s) && t < |s.pcs| && KnownPC(|s.refs|, pc)
    ensures Typed(r)
  {
    match pc
    case GetHead => Move(s, t, LoopTest(s.head))
    case GetRefs(n) =>
      if Low(s.refs[n]) == 0 then Move(s, t, GetHead) else Move(s, t, GetInc(n, s.refs[n]))
    case GetInc(n, word) =>
      if s.refs[n] == word then Move(s.(refs := s.refs[n := Plus(word, 1)]), t, GetNext(n))
      else Move(s, t, GetHead)
    case GetNext(n) => Move(s, t, GetCas(n, s.next[n]))
    case GetCas(n, next) =>
      if s.head == At(n) then
        Move(s.(head := next, loc := s.loc[n := Taken(t)],
                chain := if s.chain == [] then [] else s.chain[1..]), t, GetAssert(n))
      else Move(s, t, GetDec(n, s.head))
    case _ => s
  }

  /** The rest of `try_get`, lines 1396-1409. */
  ghost function DropStep(s: State, t: Tid, pc: PC): (r: State)
    requires Typed(s) && t < |s.pcs| && KnownPC(|s.refs|, pc)
    ensures Typed(r)
  {
    match pc
    case GetAssert(n) => Move(s, t, GetDrop(n))
    case GetDrop(n) =>
      Move(s.(refs := s.refs[n := Plus(s.refs[n], -2)], loc := s.loc[n := Client],
              log := s.log + [Got(n)]), t, Idle)
    case GetDec(n, seen) =>
      var word := s.refs[n];
      var s1 := s.(refs := s.refs[n := Plus(word, -1)]);
      if word == SHOULD_BE_ON_FREELIST + 1 then
        Move(s1.(loc := s.loc[n := Held(t)]), t, LinkLoad(n, ToLoop(seen)))
      else Move(s1, t, LoopTest(seen))
    case _ => s
  }

  /** One step of thread `t`. */
  ghost function Advance(s: State, t: Tid): (r: State)
    requires Typed(s) && t < |s.pcs|
    ensures Typed(r)
  {
    match s.pcs[t]
    case Idle => s
    case AddRefs(n) => AddStep(s, t, n)
    case GetAssert(_) | GetDrop(_) | GetDec(_, _) => DropStep(s, t, s.pcs[t])
    case GetHead | GetRefs(_) | GetInc(_, _) | GetNext(_) | GetCas(_, _) => GetStep(s, t, s.pcs[t])
    case _ => LinkStep(s, t, s.pcs[t])
  }

  /** An event that is not enabled changes nothing. */
  ghost function Next(s: State, e: Event): (r: State)
    requires Typed(s)
    ensures Typed(r)
  {
    match e
    case CallAdd(t, n) =>
      if t < |s.pcs| && s.pcs[t].Idle? && n < |s.loc| && s.loc[n].Client? then
        Move(s.(loc := s.loc[n := Adding(t)], log := s.log + [Gave(n)]), t, AddRefs(n))
      else s
    case CallTryGet(t) =>
      if t < |s.pcs| && s.pcs[t].Idle? then Move(s, t, GetHead) else s
    case Run(t) => if t < |s.pcs| then Advance(s, t) else s
  }

  ghost function Exec(s: State, es: seq<Event>): (r: State)
    requires Typed(s)
    ensures Typed(r)
  {
    if es == [] then s else Next(Exec(s, es[..|es| - 1]), es[|es| - 1])
  }

  /** Every node is new and in its creator's hands; fewer than 2^31 - 1 threads. */
  ghost predicate Initial(s: State) {
    && Typed(s)
    && s.head == Null && s.chain == [] && s.log == []
    && (forall n: Node :: n < |s.refs| ==> s.refs[n] == 0 && s.loc[n] == Client)
    && (forall t: Tid :: t < |s.pcs| ==> s.pcs[t] == Idle)
    && |s.pcs| + 1 < SHOULD_BE_ON_FREELIST
  }

  // ---------------------------------------------------------------- the invariant

  /** The threads that counted a reference to `n` in try_get and have not given it back. */
  predicate Reads(pc: PC, n: Node) {
    match pc
    case GetNext(m) => m == n
    case GetCas(m, _) => m == n
    case GetAssert(m) => m == n
    case GetDrop(m) => m == n
    case GetDec(m, _) => m == n
    case _ => false
  }

  ghost function ReadsOf(n: Node): PC -> bool { (pc: PC) => Reads(pc, n) }

  ghost function Readers(pcs: seq<PC>, n: Node): nat { Count(pcs, ReadsOf(n)) }

  /** 1 for the reference of the list, or of the thread that is putting the node on it. */
  function ListRef(l: Loc): nat {
    match l case Listed => 1 case Linking(_) => 1 case Taken(_) => 1 case _ => 0
  }

  function Flag(l: Loc): nat {
    match l case Waiting => SHOULD_BE_ON_FREELIST case Held(_) => SHOULD_BE_ON_FREELIST case _ => 0
  }

  /** The whole word of a node follows from where it is and how many threads read it. */
  predicate WordOk(word: nat, l: Loc, readers: nat) {
    && word == Flag(l) + ListRef(l) + readers
    && (l.Waiting? ==> readers != 0)
    && (l.Held? ==> readers == 0)
  }

  ghost predicate WordsOk(refs: seq<nat>, loc: seq<Loc>, pcs: seq<PC>)
    requires |refs| == |loc|
  {
    forall n: Node :: n < |refs| ==> WordOk(refs[n], loc[n], Readers(pcs, n))
  }

  /** What thread `t` at `pc` may rely on. */
  predicate PcOk(loc: seq<Loc>, next: seq<Ptr>, t: Tid, pc: PC)
    requires |next| == |loc| && KnownPC(|loc|, pc)
  {
    match pc
    case AddRefs(n) => loc[n] == Adding(t)
    case LinkLoad(n, _) => loc[n] == Held(t)
    case LinkNext(n, _, _) => loc[n] == Held(t)
    case LinkRefs(n, seen, _) => loc[n] == Held(t) && next[n] == seen
    case LinkCas(n, seen, _) => loc[n] == Linking(t) && next[n] == seen
    case LinkUndo(n, _, _) => loc[n] == Linking(t)
    case GetInc(_, word) => Low(word) != 0
    case GetCas(n, nx) => next[n] == nx
    case GetAssert(n) => loc[n] == Taken(t)
    case GetDrop(n) => loc[n] == Taken(t)
    case _ => true
  }

  ghost predicate PcsOk(loc: seq<Loc>, next: seq<Ptr>, pcs: seq<PC>) {
    && |next| == |loc|
    && forall t: Tid :: t < |pcs| ==> KnownPC(|loc|, pcs[t]) && PcOk(loc, next, t, pcs[t])
  }

  /** A place that names a thread is where that thread is at work on the node. */
  predicate LocOk(pcs: seq<PC>, n: Node, l: Loc) {
    match l
    case Adding(t) => t < |pcs| && pcs[t] == AddRefs(n)
    case Held(t) => t < |pcs| &&
      match pcs[t] {
        case LinkLoad(m, _) => m == n
        case LinkNext(m, _, _) => m == n
        case LinkRefs(m, _, _) => m == n
        case _ => false
      }
    case Linking(t) => t < |pcs| &&
      match pcs[t] {
        case LinkCas(m, _, _) => m == n
        case LinkUndo(m, _, _) => m == n
        case _ => false
      }
    case Taken(t) => t < |pcs| && (pcs[t] == GetAssert(n) || pcs[t] == GetDrop(n))
    case _ => true
  }

  /** Following `next` from `head` visits exactly `chain` and ends in null. */
  ghost predicate IsChain(head: Ptr, next: seq<Ptr>, chain: seq<Node>)
    decreases chain
  {
    if chain == [] then head == Null
    else head == At(chain[0]) && chain[0] < |next| && IsChain(next[chain[0]], next, chain[1..])
  }

  ghost predicate Distinct(chain: seq<Node>) {
    forall i, j :: 0 <= i < j < |chain| ==> chain[i] != chain[j]
  }

  ghost predicate LocsOk(pcs: seq<PC>, loc: seq<Loc>) {
    forall n: Node :: n < |loc| ==> LocOk(pcs, n, loc[n])
  }

  ghost predicate ChainOk(head: Ptr, next: seq<Ptr>, loc: seq<Loc>, chain: seq<Node>) {
    && IsChain(head, next, chain)
    && Distinct(chain)
    && (forall n: Node :: n < |loc| ==> (loc[n] == Listed <==> n in chain))
  }

  /** Does a client own `n` after these calls and deliveries? */
  function Owned(log: seq<Entry>, n: Node): bool {
    if log == [] then true
    else if log[|log| - 1] == Got(n) then true
    else if log[|log| - 1] == Gave(n) then false
    else Owned(log[..|log| - 1], n)
  }

  /** Only owned nodes are given and only unowned nodes are delivered. */
  ghost predicate LogOk(log: seq<Entry>) {
    forall i :: 0 <= i < |log| ==> (Owned(log[..i], log[i].n) <==> log[i].Gave?)
  }

  ghost predicate OwnersOk(loc: seq<Loc>, log: seq<Entry>) {
    forall n: Node :: n < |loc| ==> (loc[n].Client? <==> Owned(log, n))
  }

  ghost predicate Inv(s: State) {
    && Typed(s)
    && |s.pcs| + 1 < SHOULD_BE_ON_FREELIST
    && WordsOk(s.refs, s.loc, s.pcs)
    && PcsOk(s.loc, s.next, s.pcs)
    && LocsOk(s.pcs, s.loc)
    && ChainOk(s.head, s.next, s.loc, s.chain)
    && LogOk(s.log)
    && OwnersOk(s.loc, s.log)
  }

  // ---------------------------------------------------------------- every step keeps it

  lemma ReadersBounded(pcs: seq<PC>, n: Node)
    ensures Readers(pcs, n) <= |pcs|
  {
    CountBounded(pcs, ReadsOf(n));
  }

  /** How the readers of a node change when one thread moves. */
  lemma ReadersMove(pcs: seq<PC>, t: Tid, pc: PC, n: Node)
    requires t < |pcs|
    ensures Readers(pcs[t := pc], n) ==
            Readers(pcs, n) - (if Reads(pcs[t], n) then 1 else 0) + (if Reads(pc, n) then 1 else 0)
    ensures Reads(pcs[t], n) ==> Readers(pcs, n) >= 1
  {
    CountUpdate(pcs, t, pc, ReadsOf(n));
  }

  /** No thread but `t` is at work on a node in place `l`. */
  predicate FreeFor(l: Loc, t: Tid) {
    match l
    case Adding(u) => u == t
    case Held(u) => u == t
    case Linking(u) => u == t
    case Taken(u) => u == t
    case _ => true
  }

  /** A step that reads or holds no node but `n`. */
  predicate WorksOn(pc: PC, n: Node) { Passes(pc) || pc.n == n }

  /** Thread `t`, which reads and holds no node but `n`, goes to `pc`, writes the word of `n` and
      moves `n` to `l`. */
  ghost predicate Moves(s: State, t: Tid, pc: PC, n: Node, word: nat, l: Loc) {
    && Inv(s) && t < |s.pcs| && n < |s.refs| && KnownPC(|s.refs|, pc)
    && WorksOn(s.pcs[t], n) && WorksOn(pc, n) && (l == s.loc[n] || FreeFor(s.loc[n], t))
    && WordOk(word, l, Readers(s.pcs[t := pc], n))
    && LocOk(s.pcs[t := pc], n, l)
    && PcOk(s.loc[n := l], s.next, t, pc)
  }

  lemma WordsMove(s: State, t: Tid, pc: PC, n: Node, word: nat, l: Loc)
    requires Moves(s, t, pc, n, word, l)
    ensures WordsOk(s.refs[n := word], s.loc[n := l], s.pcs[t := pc])
  {
    forall m: Node | m < |s.refs| && m != n
      ensures WordOk(s.refs[m], s.loc[m], Readers(s.pcs[t := pc], m))
    {
      ReadersMove(s.pcs, t, pc, m);
    }
  }

  lemma LocsMove(s: State, t: Tid, pc: PC, n: Node, word: nat, l: Loc)
    requires Moves(s, t, pc, n, word, l)
    ensures LocsOk(s.pcs[t := pc], s.loc[n := l])
  {
  }

  lemma PcsMove(s: State, t: Tid, pc: PC, n: Node, word: nat, l: Loc)
    requires Moves(s, t, pc, n, word, l)
    ensures PcsOk(s.loc[n := l], s.next, s.pcs[t := pc])
  {
    var loc, pcs := s.loc[n := l], s.pcs[t := pc];
    forall u: Tid | u < |pcs| ensures PcOk(loc, s.next, u, pcs[u]) {
      assert PcOk(s.loc, s.next, u, s.pcs[u]);
    }
  }

  lemma MoveKeeps(s: State, t: Tid, pc: PC, n: Node, word: nat, l: Loc)
    requires Moves(s, t, pc, n, word, l)
    ensures WordsOk(s.refs[n := word], s.loc[n := l], s.pcs[t := pc])
    ensures LocsOk(s.pcs[t := pc], s.loc[n := l])
    ensures PcsOk(s.loc[n := l], s.next, s.pcs[t := pc])
  {
    WordsMove(s, t, pc, n, word, l);
    LocsMove(s, t, pc, n, word, l);
    PcsMove(s, t, pc, n, word, l);
  }

  lemma WordsPass(refs: seq<nat>, loc: seq<Loc>, pcs: seq<PC>, t: Tid, pc: PC)
    requires |refs| == |loc| && WordsOk(refs, loc, pcs) && t < |pcs| && Passes(pcs[t]) && Passes(pc)
    ensures WordsOk(refs, loc, pcs[t := pc])
  {
    forall m: Node | m < |refs| ensures WordOk(refs[m], loc[m], Readers(pcs[t := pc], m)) {
      ReadersMove(pcs, t, pc, m);
    }
  }

  /** A thread that neither reads nor works on a node goes on to another such step. */
  lemma PassKeeps(s: State, t: Tid, pc: PC)
    requires Inv(s) && t < |s.pcs| && KnownPC(|s.refs|, pc) && PcOk(s.loc, s.next, t, pc)
    requires Passes(s.pcs[t]) && Passes(pc)
    ensures Inv(Move(s, t, pc))
  {
    WordsPass(s.refs, s.loc, s.pcs, t, pc);
  }

  predicate Passes(pc: PC) { pc.Idle? || pc.GetHead? || pc.GetRefs? || pc.GetInc? }

  lemma AppendKeepsLog(log: seq<Entry>, e: Entry)
    requires LogOk(log)
    requires Owned(log, e.n) <==> e.Gave?
    ensures LogOk(log + [e])
    ensures forall n :: Owned(log + [e], n) == if e.n == n then e.Got? else Owned(log, n)
  {
    var log' := log + [e];
    assert log'[..|log'| - 1] == log;
    forall i | 0 <= i < |log'|
      ensures Owned(log'[..i], log'[i].n) <==> log'[i].Gave?
    {
      if i < |log| { assert log'[..i] == log[..i]; }
    }
  }

  lemma ChainKeepsLoc(s: State, n: Node, l: Loc)
    requires Inv(s) && n < |s.loc| && s.loc[n] != Listed && l != Listed
    ensures ChainOk(s.head, s.next, s.loc[n := l], s.chain)
  {
  }

  /** Relinking a node that is not on the list does not touch the list. */
  lemma {:induction false} ChainKeepsNext(head: Ptr, next: seq<Ptr>, chain: seq<Node>, n: Node, p: Ptr)
    requires IsChain(head, next, chain) && n < |next| && n !in chain
    ensures IsChain(head, next[n := p], chain)
    decreases chain
  {
    if chain != [] { ChainKeepsNext(next[chain[0]], next, chain[1..], n, p); }
  }

  lemma AddRefsStep(s: State, t: Tid, n: Node)
    requires Inv(s) && t < |s.pcs| && s.pcs[t] == AddRefs(n)
    ensures Inv(Advance(s, t))
  {
    var s' := Advance(s, t);
    ReadersBounded(s.pcs, n);
    ReadersMove(s.pcs, t, s'.pcs[t], n);
    MoveKeeps(s, t, s'.pcs[t], n, s'.refs[n], s'.loc[n]);
    ChainKeepsLoc(s, n, s'.loc[n]);
  }

  lemma LinkNextStep(s: State, t: Tid, n: Node, seen: Ptr, ret: Return)
    requires Inv(s) && t < |s.pcs| && s.pcs[t] == LinkNext(n, seen, ret)
    ensures Inv(Advance(s, t))
  {
    var pc := LinkRefs(n, seen, ret);
    ReadersMove(s.pcs, t, pc, n);
    forall m: Node | m < |s.refs| && m != n
      ensures WordOk(s.refs[m], s.loc[m], Readers(s.pcs[t := pc], m))
    {
      ReadersMove(s.pcs, t, pc, m);
    }
    forall u: Tid | u < |s.pcs| && u != t
      ensures PcOk(s.loc, s.next[n := seen], u, s.pcs[u])
    {
      // No thread holds a `GetCas` on a node without readers.
      ReadersMove(s.pcs, u, Idle, n);
    }
    ChainKeepsNext(s.head, s.next, s.chain, n, seen);
  }

  lemma LinkRefsStep(s: State, t: Tid, n: Node)
    requires Inv(s) && t < |s.pcs| && s.pcs[t].LinkRefs? && s.pcs[t].n == n
    ensures Inv(Advance(s, t))
  {
    var s' := Advance(s, t);
    ReadersMove(s.pcs, t, s'.pcs[t], n);
    MoveKeeps(s, t, s'.pcs[t], n, 1, Linking(t));
    ChainKeepsLoc(s, n, Linking(t));
  }

  lemma LinkCasStep(s: State, t: Tid, n: Node)
    requires Inv(s) && t < |s.pcs| && s.pcs[t].LinkCas? && s.pcs[t].n == n
    ensures Inv(Advance(s, t))
  {
    var s' := Advance(s, t);
    ReadersMove(s.pcs, t, s'.pcs[t], n);
    if s.head == s.pcs[t].seen {
      LinkedKeeps(s, t, s.pcs[t].ret, n);
      assert s'.chain[1..] == s.chain;
    } else {
      MoveKeeps(s, t, s'.pcs[t], n, s.refs[n], s.loc[n]);
    }
  }

  /** The node is on the list and its thread leaves for the caller or for its try_get loop. */
  lemma LinkedKeeps(s: State, t: Tid, ret: Return, n: Node)
    requires Inv(s) && t < |s.pcs| && s.pcs[t].LinkCas? && s.pcs[t].n == n && s.pcs[t].ret == ret
    ensures WordsOk(s.refs, s.loc[n := Listed], s.pcs[t := Resume(ret)])
    ensures LocsOk(s.pcs[t := Resume(ret)], s.loc[n := Listed])
    ensures PcsOk(s.loc[n := Listed], s.next, s.pcs[t := Resume(ret)])
  {
    forall m: Node | m < |s.refs|
      ensures Readers(s.pcs[t := Resume(ret)], m) == Readers(s.pcs, m)
    {
      ReadersMove(s.pcs, t, Resume(ret), m);
    }
  }

  lemma LinkUndoStep(s: State, t: Tid, n: Node)
    requires Inv(s) && t < |s.pcs| && s.pcs[t].LinkUndo? && s.pcs[t].n == n
    ensures Inv(Advance(s, t))
  {
    var s' := Advance(s, t);
    ReadersBounded(s.pcs, n);
    ReadersMove(s.pcs, t, s'.pcs[t], n);
    MoveKeeps(s, t, s'.pcs[t], n, s'.refs[n], s'.loc[n]);
    ChainKeepsLoc(s, n, s'.loc[n]);
  }

  lemma GetIncStep(s: State, t: Tid, n: Node)
    requires Inv(s) && t < |s.pcs| && s.pcs[t].GetInc? && s.pcs[t].n == n
    ensures Inv(Advance(s, t))
  {
    if s.refs[n] == s.pcs[t].word {
      var s' := Advance(s, t);
      ReadersBounded(s.pcs, n);
      ReadersMove(s.pcs, t, s'.pcs[t], n);
      CountedWord(s.refs[n], s.loc[n], Readers(s.pcs, n), |s.pcs|);
      WordsMove(s, t, s'.pcs[t], n, s'.refs[n], s.loc[n]);
      MoveKeeps(s, t, s'.pcs[t], n, s'.refs[n], s.loc[n]);
    } else {
      PassKeeps(s, t, GetHead);
    }
  }

  /** A word whose count is not zero is not held, and one more reader does not reach the flag. */
  lemma CountedWord(word: nat, l: Loc, readers: nat, threads: nat)
    requires WordOk(word, l, readers) && readers <= threads && threads + 1 < SHOULD_BE_ON_FREELIST
    ensures Low(word) == ListRef(l) + readers
    ensures WordOk(word + 1, l, readers + 1) <==> !l.Held?
    ensures word + 1 < WORD
  {
  }

  lemma GetNextStep(s: State, t: Tid, n: Node)
    requires Inv(s) && t < |s.pcs| && s.pcs[t] == GetNext(n)
    ensures Inv(Advance(s, t))
  {
    var pc := GetCas(n, s.next[n]);
    ReadersMove(s.pcs, t, pc, n);
    MoveKeeps(s, t, pc, n, s.refs[n], s.loc[n]);
  }

  lemma GetCasStep(s: State, t: Tid, n: Node)
    requires Inv(s) && t < |s.pcs| && s.pcs[t].GetCas? && s.pcs[t].n == n
    ensures Inv(Advance(s, t))
  {
    var s' := Advance(s, t);
    ReadersMove(s.pcs, t, s'.pcs[t], n);
    if s.head == At(n) {
      MoveKeeps(s, t, s'.pcs[t], n, s.refs[n], Taken(t));
      assert s.chain[0] == n;
    } else {
      MoveKeeps(s, t, s'.pcs[t], n, s.refs[n], s.loc[n]);
    }
  }

  lemma GetAssertStep(s: State, t: Tid, n: Node)
    requires Inv(s) && t < |s.pcs| && s.pcs[t] == GetAssert(n)
    ensures Inv(Advance(s, t))
  {
    ReadersMove(s.pcs, t, GetDrop(n), n);
    MoveKeeps(s, t, GetDrop(n), n, s.refs[n], s.loc[n]);
  }

  lemma GetDropStep(s: State, t: Tid, n: Node)
    requires Inv(s) && t < |s.pcs| && s.pcs[t] == GetDrop(n)
    ensures Inv(Advance(s, t))
  {
    var s' := Advance(s, t);
    ReadersBounded(s.pcs, n);
    ReadersMove(s.pcs, t, Idle, n);
    MoveKeeps(s, t, Idle, n, s'.refs[n], Client);
    ChainKeepsLoc(s, n, Client);
    AppendKeepsLog(s.log, Got(n));
  }

  lemma GetDecStep(s: State, t: Tid, n: Node)
    requires Inv(s) && t < |s.pcs| && s.pcs[t].GetDec? && s.pcs[t].n == n
    ensures Inv(Advance(s, t))
  {
    var s' := Advance(s, t);
    ReadersBounded(s.pcs, n);
    ReadersMove(s.pcs, t, s'.pcs[t], n);
    if s.refs[n] == SHOULD_BE_ON_FREELIST + 1 {
      MoveKeeps(s, t, s'.pcs[t], n, s'.refs[n], Held(t));
      ChainKeepsLoc(s, n, Held(t));
    } else {
      LeaveMoves(s, t, s.pcs[t].seen, n);
    }
  }

  /** A reader gives its reference back and returns to the loop test. */
  lemma LeaveMoves(s: State, t: Tid, seen: Ptr, n: Node)
    requires Inv(s) && t < |s.pcs| && s.pcs[t] == GetDec(n, seen)
    requires s.refs[n] != SHOULD_BE_ON_FREELIST + 1
    ensures Inv(Advance(s, t))
  {
    var pc := LoopTest(seen);
    ReadersBounded(s.pcs, n);
    ReadersMove(s.pcs, t, pc, n);
    assert WordOk(s.refs[n] - 1, s.loc[n], Readers(s.pcs[t := pc], n));
    MoveKeeps(s, t, pc, n, s.refs[n] - 1, s.loc[n]);
  }

  lemma AdvanceKeepsInv(s: State, t: Tid)
    requires Inv(s) && t < |s.pcs|
    ensures Inv(Advance(s, t))
  {
    match s.pcs[t] {
      case Idle =>
      case AddRefs(n) => AddRefsStep(s, t, n);
      case LinkLoad(n, ret) =>
        ReadersMove(s.pcs, t, LinkNext(n, s.head, ret), n);
        MoveKeeps(s, t, LinkNext(n, s.head, ret), n, s.refs[n], s.loc[n]);
      case LinkNext(n, seen, ret) => LinkNextStep(s, t, n, seen, ret);
      case LinkRefs(n, _, _) => LinkRefsStep(s, t, n);
      case LinkCas(n, _, _) => LinkCasStep(s, t, n);
      case LinkUndo(n, _, _) => LinkUndoStep(s, t, n);
      case GetHead => PassKeeps(s, t, LoopTest(s.head));
      case GetRefs(n) =>
        PassKeeps(s, t, if Low(s.refs[n]) == 0 then GetHead else GetInc(n, s.refs[n]));
      case GetInc(n, _) => GetIncStep(s, t, n);
      case GetNext(n) => GetNextStep(s, t, n);
      case GetCas(n, _) => GetCasStep(s, t, n);
      case GetAssert(n) => GetAssertStep(s, t, n);
      case GetDrop(n) => GetDropStep(s, t, n);
      case GetDec(n, _) => GetDecStep(s, t, n);
    }
  }

  lemma NextKeepsInv(s: State, e: Event)
    requires Inv(s)
    ensures Inv(Next(s, e))
  {
    match e {
      case CallAdd(t, n) =>
        if Next(s, e) != s {
          ReadersMove(s.pcs, t, AddRefs(n), n);
          MoveKeeps(s, t, AddRefs(n), n, s.refs[n], Adding(t));
          ChainKeepsLoc(s, n, Adding(t));
          AppendKeepsLog(s.log, Gave(n));
        }
      case CallTryGet(t) =>
        if Next(s, e) != s { PassKeeps(s, t, GetHead); }
      case Run(t) =>
        if t < |s.pcs| { AdvanceKeepsInv(s, t); }
    }
  }

  /** Every interleaving, of any length, keeps the invariant. */
  lemma {:induction false} ExecKeepsInv(s: State, es: seq<Event>)
    requires Initial(s)
    ensures Inv(Exec(s, es))
  {
    if es == [] {
      forall n: Node | n < |s.refs|
        ensures Readers(s.pcs, n) == 0
      {
        IdleReadersNone(s.pcs, n);
      }
    } else {
      ExecKeepsInv(s, es[..|es| - 1]);
      NextKeepsInv(Exec(s, es[..|es| - 1]), es[|es| - 1]);
    }
  }

  lemma IdleReadersNone(pcs: seq<PC>, n: Node)
    requires forall t: Tid :: t < |pcs| ==> pcs[t] == Idle
    ensures Readers(pcs, n) == 0
  {
    CountNone(pcs, ReadsOf(n));
  }

  // ---------------------------------------------------------------- what follows for every run

  /** Thread `t` has the node to itself: it is adding, linking or delivering it. */
  predicate WorkingOn(pc: PC, n: Node) {
    match pc
    case AddRefs(m) => m == n
    case LinkLoad(m, _) => m == n
    case LinkNext(m, _, _) => m == n
    case LinkRefs(m, _, _) => m == n
    case LinkCas(m, _, _) => m == n
    case LinkUndo(m, _, _) => m == n
    case GetAssert(m) => m == n
    case GetDrop(m) => m == n
    case _ => false
  }

  predicate Flagged(s: State, n: Node)
    requires n < |s.refs|
  {
    s.refs[n] >= SHOULD_BE_ON_FREELIST
  }

  ghost predicate Worked(s: State, n: Node) { exists t: Tid :: t < |s.pcs| && WorkingOn(s.pcs[t], n) }

  /** Exactly one of: owned by a client, flagged with a reader still to leave, worked on by exactly
      one thread, or on the list (once, by `Distinct`). */
  lemma OnePlace(s0: State, es: seq<Event>, n: Node)
    requires Initial(s0) && n < |s0.refs|
    ensures var s := Exec(s0, es);
            && |s.refs| == |s0.refs| && Distinct(s.chain) && IsChain(s.head, s.next, s.chain)
            && var client, listed, worked := Owned(s.log, n), n in s.chain, Worked(s, n);
               var waiting := Flagged(s, n) && !worked;
            && (client || listed || worked || waiting)
            && !(client && listed) && !(client && worked) && !(listed && worked)
            && (waiting ==> !client && !listed && Readers(s.pcs, n) >= 1)
    ensures forall t: Tid, u: Tid :: var s := Exec(s0, es);
              t < |s.pcs| && u < |s.pcs| && WorkingOn(s.pcs[t], n) && WorkingOn(s.pcs[u], n) ==> t == u
  {
    ExecKeepsInv(s0, es);
    ExecKeepsSize(s0, es);
    var s := Exec(s0, es);
    ReadersBounded(s.pcs, n);
    assert WordOk(s.refs[n], s.loc[n], Readers(s.pcs, n));
    forall t: Tid | t < |s.pcs|
      ensures WorkingOn(s.pcs[t], n) <==> !s.loc[n].Client? && !s.loc[n].Waiting? && !s.loc[n].Listed? && s.loc[n].t == t
    {
      WorkerIsPlace(s, t, n);
    }
    PlaceHasWorker(s, n);
  }

  lemma WorkerIsPlace(s: State, t: Tid, n: Node)
    requires Inv(s) && t < |s.pcs| && n < |s.loc|
    ensures WorkingOn(s.pcs[t], n) <==> !s.loc[n].Client? && !s.loc[n].Waiting? && !s.loc[n].Listed? && s.loc[n].t == t
  {
    assert KnownPC(|s.loc|, s.pcs[t]) && PcOk(s.loc, s.next, t, s.pcs[t]);
    assert LocOk(s.pcs, n, s.loc[n]);
  }

  lemma PlaceHasWorker(s: State, n: Node)
    requires Inv(s) && n < |s.loc|
    ensures s.loc[n].Client? || s.loc[n].Waiting? || s.loc[n].Listed? || s.loc[n].t < |s.pcs|
  {
    assert LocOk(s.pcs, n, s.loc[n]);
  }

  lemma {:induction false} ExecKeepsSize(s0: State, es: seq<Event>)
    requires Typed(s0)
    ensures |Exec(s0, es).refs| == |s0.refs| && |Exec(s0, es).pcs| == |s0.pcs|
  {
    if es != [] {
      ExecKeepsSize(s0, es[..|es| - 1]);
      var s := Exec(s0, es[..|es| - 1]);
      match es[|es| - 1] {
        case Run(t) => if t < |s.pcs| { AdvanceKeepsSize(s, t); }
        case _ =>
      }
    }
  }

  lemma AdvanceKeepsSize(s: State, t: Tid)
    requires Typed(s) && t < |s.pcs|
    ensures |Advance(s, t).refs| == |s.refs| && |Advance(s, t).pcs| == |s.pcs|
  {
  }

  /** The low 31 bits count the list's (or linking thread's) reference and the readers, exactly; the
      top bit is set exactly while the node waits or is held to be linked. */
  lemma RefcountMeaning(s0: State, es: seq<Event>, n: Node)
    requires Initial(s0) && n < |Exec(s0, es).refs|
    ensures var s := Exec(s0, es);
            && Low(s.refs[n]) == ListRef(s.loc[n]) + Readers(s.pcs, n)
            && s.refs[n] == Low(s.refs[n]) + Flag(s.loc[n])
            && (n in s.chain ==> Low(s.refs[n]) == 1 + Readers(s.pcs, n))
  {
    ExecKeepsInv(s0, es);
    var s := Exec(s0, es);
    ReadersBounded(s.pcs, n);
    CountedWord(s.refs[n], s.loc[n], Readers(s.pcs, n), |s.pcs|);
  }

  /** No ABA: while anything counts a reference to a node, no step changes its next pointer. */
  lemma NextStableWhileReferenced(s0: State, es: seq<Event>, e: Event, n: Node)
    requires Initial(s0) && n < |Exec(s0, es).refs|
    requires Low(Exec(s0, es).refs[n]) != 0
    ensures n < |Next(Exec(s0, es), e).next|
    ensures Next(Exec(s0, es), e).next[n] == Exec(s0, es).next[n]
  {
    ExecKeepsInv(s0, es);
    var s := Exec(s0, es);
    ReadersBounded(s.pcs, n);
    CountedWord(s.refs[n], s.loc[n], Readers(s.pcs, n), |s.pcs|);
    if Next(s, e).next != s.next {
      OnlyLinkNextWrites(s, e);
      assert PcOk(s.loc, s.next, e.t, s.pcs[e.t]);
    }
  }

  lemma OnlyLinkNextWrites(s: State, e: Event)
    requires Typed(s) && Next(s, e).next != s.next
    ensures e.Run? && e.t < |s.pcs| && s.pcs[e.t].LinkNext?
    ensures Next(s, e).next == s.next[s.pcs[e.t].n := s.pcs[e.t].seen]
  {
  }

  /** So the head CAS of try_get, when it succeeds, installs the node's true successor: the list loses
      its first node and nothing else.  The assert after it holds. */
  lemma CasInstallsSuccessor(s0: State, es: seq<Event>, t: Tid)
    requires Initial(s0)
    requires var s := Exec(s0, es);
             t < |s.pcs| && s.pcs[t].GetCas? && s.head == At(s.pcs[t].n)
    ensures LosesFirst(Exec(s0, es), Next(Exec(s0, es), Run(t)), Exec(s0, es).pcs[t].n)
  {
    ExecKeepsInv(s0, es);
    NextKeepsInv(Exec(s0, es), Run(t));
    TakesFirst(Exec(s0, es), t);
  }

  ghost predicate LosesFirst(s: State, r: State, n: Node) {
    && s.chain == [n] + r.chain && n !in r.chain
    && n < |s.next| && r.head == s.next[n]
    && IsChain(r.head, r.next, r.chain)
  }

  lemma TakesFirst(s: State, t: Tid)
    requires Inv(s) && t < |s.pcs| && s.pcs[t].GetCas? && s.head == At(s.pcs[t].n) && Inv(Advance(s, t))
    ensures LosesFirst(s, Advance(s, t), s.pcs[t].n)
  {
    assert PcOk(s.loc, s.next, t, s.pcs[t]);
    assert s.chain[0] == s.pcs[t].n;
  }

  lemma AssertHolds(s0: State, es: seq<Event>, t: Tid)
    requires Initial(s0)
    requires var s := Exec(s0, es); t < |s.pcs| && s.pcs[t].GetAssert?
    ensures var s := Exec(s0, es);
            s.pcs[t].n < |s.refs| && !Flagged(s, s.pcs[t].n) && s.refs[s.pcs[t].n] >= 2
  {
    ExecKeepsInv(s0, es);
    var s := Exec(s0, es);
    var n := s.pcs[t].n;
    assert PcOk(s.loc, s.next, t, s.pcs[t]) && KnownPC(|s.loc|, s.pcs[t]);
    ReadersBounded(s.pcs, n);
    ReadersMove(s.pcs, t, Idle, n);
    assert WordOk(s.refs[n], s.loc[n], Readers(s.pcs, n));
  }

  /** No node is delivered to two callers: between two deliveries of a node it was given back. */
  lemma GivenBetweenDeliveries(s0: State, es: seq<Event>, i: nat, j: nat)
    requires Initial(s0)
    requires var log := Exec(s0, es).log; i < j < |log| && log[i].Got? && log[j] == log[i]
    ensures exists k :: i < k < j && Exec(s0, es).log[k] == Gave(Exec(s0, es).log[i].n)
  {
    ExecKeepsInv(s0, es);
    var log := Exec(s0, es).log;
    var n := log[i].n;
    assert !Owned(log[..j], n);
    GaveAfter(log[..j], n, i);
  }

  lemma {:induction false} GaveAfter(log: seq<Entry>, n: Node, i: nat)
    requires i < |log| && log[i] == Got(n) && !Owned(log, n)
    ensures exists k :: i < k < |log| && log[k] == Gave(n)
  {
    var last := |log| - 1;
    if log[last] == Gave(n) {
      assert i < last;
    } else {
      GaveAfter(log[..last], n, i);
      var k :| i < k < last && log[..last][k] == Gave(n);
      assert log[k] == Gave(n);
    }
  }

  ghost predicate Quiet(s: State) { forall t: Tid :: t < |s.pcs| ==> s.pcs[t] == Idle }

  /** No node is lost: with no call in progress every node is a client's or on the list. */
  lemma QuietPartition(s0: State, es: seq<Event>, n: Node)
    requires Initial(s0) && Quiet(Exec(s0, es)) && n < |Exec(s0, es).refs|
    ensures var s := Exec(s0, es); Owned(s.log, n) <==> n !in s.chain
  {
    ExecKeepsInv(s0, es);
    var s := Exec(s0, es);
    IdleReadersNone(s.pcs, n);
    assert WordOk(s.refs[n], s.loc[n], Readers(s.pcs, n));
    assert LocOk(s.pcs, n, s.loc[n]);
  }

  // ---------------------------------------------------------------- a try_get that finds nothing

  /** The thread is inside try_get. */
  predicate InGet(pc: PC) {
    match pc
    case Idle | AddRefs(_) => false
    case LinkLoad(_, ret) => ret.ToLoop?
    case LinkNext(_, _, ret) => ret.ToLoop?
    case LinkRefs(_, _, ret) => ret.ToLoop?
    case LinkCas(_, _, ret) => ret.ToLoop?
    case LinkUndo(_, _, ret) => ret.ToLoop?
    case _ => true
  }

  /** Its next loop test finds null. */
  predicate SeenNull(pc: PC) {
    match pc
    case LinkLoad(_, ret) => ret == ToLoop(Null)
    case LinkNext(_, _, ret) => ret == ToLoop(Null)
    case LinkRefs(_, _, ret) => ret == ToLoop(Null)
    case LinkCas(_, _, ret) => ret == ToLoop(Null)
    case LinkUndo(_, _, ret) => ret == ToLoop(Null)
    case GetDec(_, seen) => seen.Null?
    case _ => false
  }

  /** The list was empty after the first `i` events, and `t` has been in the same try_get since then. */
  ghost predicate EmptyDuring(s0: State, es: seq<Event>, t: Tid, i: nat)
    requires Typed(s0)
  {
    && i <= |es| && Exec(s0, es[..i]).chain == []
    && forall j {:trigger es[..j]} :: i <= j <= |es| ==> Within(Exec(s0, es[..j]), t)
  }

  predicate Within(s: State, t: Tid) { t < |s.pcs| && InGet(s.pcs[t]) }

  lemma NullIsSeen(s: State, e: Event, t: Tid)
    requires Typed(s) && t < |s.pcs| == |Next(s, e).pcs| && SeenNull(Next(s, e).pcs[t])
    ensures InGet(s.pcs[t]) && (SeenNull(s.pcs[t]) || s.head == Null)
  {
    if e.Run? && e.t < |s.pcs| { NullAdvance(s, e.t, t); }
  }

  lemma NullAdvance(s: State, u: Tid, t: Tid)
    requires Typed(s) && u < |s.pcs| && t < |s.pcs| == |Advance(s, u).pcs| && SeenNull(Advance(s, u).pcs[t])
    ensures InGet(s.pcs[t]) && (SeenNull(s.pcs[t]) || s.head == Null)
  {
    if u != t { OthersStay(s, u, t); }
  }

  lemma OthersStay(s: State, u: Tid, t: Tid)
    requires Typed(s) && u < |s.pcs| && t < |s.pcs| && t != u
    ensures |Advance(s, u).pcs| == |s.pcs| && Advance(s, u).pcs[t] == s.pcs[t]
  {
  }

  lemma HeadIsChain(s: State)
    requires Inv(s)
    ensures s.head == Null <==> s.chain == []
  {
  }

  lemma DuringNow(s0: State, es: seq<Event>, t: Tid)
    requires Typed(s0) && Exec(s0, es).chain == [] && Within(Exec(s0, es), t)
    ensures EmptyDuring(s0, es, t, |es|)
  {
    assert es[..|es|] == es;
  }

  lemma DuringStays(s0: State, es: seq<Event>, t: Tid, i: nat)
    requires Typed(s0) && es != [] && EmptyDuring(s0, es[..|es| - 1], t, i) && Within(Exec(s0, es), t)
    ensures EmptyDuring(s0, es, t, i)
  {
    var before := es[..|es| - 1];
    forall j | i <= j <= |es| ensures Within(Exec(s0, es[..j]), t) {
      if j < |es| { assert es[..j] == before[..j]; } else { assert es[..j] == es; }
    }
    assert es[..i] == before[..i];
  }

  lemma {:induction false} SeenNullWasEmpty(s0: State, es: seq<Event>, t: Tid) returns (i: nat)
    requires Initial(s0) && t < |Exec(s0, es).pcs| && SeenNull(Exec(s0, es).pcs[t])
    ensures EmptyDuring(s0, es, t, i)
  {
    i := 0;
    if es != [] {
      var before := es[..|es| - 1];
      ExecKeepsInv(s0, before);
      ExecKeepsSize(s0, before);
      ExecKeepsSize(s0, es);
      var s := Exec(s0, before);
      NullIsSeen(s, es[|es| - 1], t);
      if SeenNull(s.pcs[t]) {
        i := SeenNullWasEmpty(s0, before, t);
      } else {
        HeadIsChain(s);
        i := |before|;
        DuringNow(s0, before, t);
      }
      DuringStays(s0, es, t, i);
    }
  }

  lemma GetEnds(s: State, t: Tid)
    requires Typed(s) && t < |s.pcs| && InGet(s.pcs[t]) && Advance(s, t).pcs[t].Idle?
    ensures if Advance(s, t).log == s.log then SeenNull(s.pcs[t]) || (s.pcs[t].GetHead? && s.head == Null)
            else s.pcs[t].GetDrop? && Advance(s, t).log == s.log + [Got(s.pcs[t].n)]
  {
  }

  /** In every run, a try_get that ends either delivers the node it took or found the list empty at an instant
      of that call. */
  lemma NothingOnlyIfEmpty(s0: State, es: seq<Event>, t: Tid) returns (i: nat)
    requires Initial(s0)
    requires var s := Exec(s0, es); t < |s.pcs| && InGet(s.pcs[t])
    requires Next(Exec(s0, es), Run(t)).pcs[t].Idle?
    ensures var s, r := Exec(s0, es), Next(Exec(s0, es), Run(t));
            if r.log == s.log then EmptyDuring(s0, es, t, i)
            else s.pcs[t].GetDrop? && r.log == s.log + [Got(s.pcs[t].n)]
  {
    ExecKeepsInv(s0, es);
    var s := Exec(s0, es);
    GetEnds(s, t);
    i := 0;
    if SeenNull(s.pcs[t]) {
      i := SeenNullWasEmpty(s0, es, t);
    } else if s.pcs[t].GetHead? {
      HeadIsChain(s);
      i := |es|;
      DuringNow(s0, es, t);
    }
  }

  // ---------------------------------------------------------------- running alone

  /** How many steps `t` still takes, at most, if it runs alone: whatever it loaded before may be stale. */
  ghost function AloneLeft(s: State, t: Tid): (k: nat)
    requires Typed(s) && t < |s.pcs|
    ensures k <= 19 && (k == 0 <==> s.pcs[t].Idle?)
  {
    match s.pcs[t]
    case Idle => 0
    case AddRefs(_) => 16
    case LinkLoad(_, _) => 15
    case LinkNext(_, seen, _) => if seen == s.head then 14 else 18
    case LinkRefs(_, seen, _) => if seen == s.head then 13 else 17
    case LinkCas(_, seen, _) => if seen == s.head then 12 else 16
    case LinkUndo(_, seen, _) => if seen == s.head then 15 else 19
    case GetHead => 7
    case GetRefs(n) => if s.head == At(n) then 6 else 11
    case GetInc(n, word) => if s.refs[n] != word then 8 else if s.head == At(n) then 5 else 10
    case GetNext(n) => if s.head == At(n) then 4 else if s.refs[n] == SHOULD_BE_ON_FREELIST + 1 then 18 else 9
    case GetCas(n, _) => if s.head == At(n) then 3 else if s.refs[n] == SHOULD_BE_ON_FREELIST + 1 then 17 else 8
    case GetAssert(_) => 2
    case GetDrop(_) => 1
    case GetDec(n, seen) =>
      if s.refs[n] == SHOULD_BE_ON_FREELIST + 1 then 16 else if seen == s.head then 7 else 12
  }

  ghost predicate ComesNearer(s: State, r: State, t: Tid) {
    Typed(s) && Typed(r) && t < |s.pcs| == |r.pcs| && AloneLeft(r, t) < AloneLeft(s, t)
  }

  /** Every step of a call that runs alone brings its end nearer, whatever the other threads were at: each is
      over after nineteen. */
  lemma GoesOnAlone(s0: State, es: seq<Event>, t: Tid)
    requires Initial(s0) && t < |Exec(s0, es).pcs| && !Exec(s0, es).pcs[t].Idle?
    ensures ComesNearer(Exec(s0, es), Next(Exec(s0, es), Run(t)), t)
  {
    ExecKeepsInv(s0, es);
    StepAlone(Exec(s0, es), t);
  }

  lemma StepAlone(s: State, t: Tid)
    requires Inv(s) && t < |s.pcs| && !s.pcs[t].Idle?
    ensures ComesNearer(s, Next(s, Run(t)), t)
  {
    match s.pcs[t] {
      case GetRefs(n) => RefsAlone(s, t, n);
      case GetInc(n, word) => IncAlone(s, t, n, word);
      case GetHead | GetNext(_) | GetCas(_, _) => GetAlone(s, t);
      case GetAssert(_) | GetDrop(_) | GetDec(_, _) => DropAlone(s, t);
      case _ => LinkAlone(s, t);
    }
  }

  lemma RefsAlone(s: State, t: Tid, n: Node)
    requires Inv(s) && t < |s.pcs| && s.pcs[t] == GetRefs(n)
    ensures ComesNearer(s, Advance(s, t), t)
  {
    assert WordOk(s.refs[n], s.loc[n], Readers(s.pcs, n));
    ReadersBounded(s.pcs, n);
    CountedWord(s.refs[n], s.loc[n], Readers(s.pcs, n), |s.pcs|);
    if s.head == At(n) { assert s.chain[0] == n; }
  }

  lemma IncAlone(s: State, t: Tid, n: Node, word: nat)
    requires Inv(s) && t < |s.pcs| && s.pcs[t] == GetInc(n, word)
    ensures ComesNearer(s, Advance(s, t), t)
  {
    assert PcOk(s.loc, s.next, t, s.pcs[t]);
    PlusOneUnflagged(word);
  }

  /** Counting a reference to a word that has one does not make it the flag and a single reference. */
  lemma PlusOneUnflagged(word: nat)
    requires Low(word) != 0
    ensures Plus(word, 1) != SHOULD_BE_ON_FREELIST + 1
  {
  }

  lemma GetAlone(s: State, t: Tid)
    requires Inv(s) && t < |s.pcs| && (s.pcs[t].GetHead? || s.pcs[t].GetNext? || s.pcs[t].GetCas?)
    ensures ComesNearer(s, Advance(s, t), t)
  {
  }

  lemma DropAlone(s: State, t: Tid)
    requires Inv(s) && t < |s.pcs| && (s.pcs[t].GetAssert? || s.pcs[t].GetDrop? || s.pcs[t].GetDec?)
    ensures ComesNearer(s, Advance(s, t), t)
  {
  }

  lemma LinkAlone(s: State, t: Tid)
    requires Inv(s) && t < |s.pcs|
    requires s.pcs[t].AddRefs? || s.pcs[t].LinkLoad? || s.pcs[t].LinkNext? || s.pcs[t].LinkRefs? || s.pcs[t].LinkCas? ||
             s.pcs[t].LinkUndo?
    ensures ComesNearer(s, Advance(s, t), t)
  {
  }

  /** An add that runs alone ends with the node in front of the list, or flagged for the last of the readers that
      it still has. */
  lemma SoloAdd(s0: State, es: seq<Event>, t: Tid, n: Node)
    requires Initial(s0)
    requires var s := Exec(s0, es); t < |s.pcs| && s.pcs[t].Idle? && n < |s.refs| && Owned(s.log, n)
    ensures var s := Exec(s0, es);
            var s1 := Next(Next(s, CallAdd(t, n)), Run(t));
            var s3 := Next(Next(Next(Next(s1, Run(t)), Run(t)), Run(t)), Run(t));
            if Readers(s.pcs, n) == 0 then s3.pcs == s.pcs && s3.chain == [n] + s.chain && s3.log == s.log + [Gave(n)]
            else && s1.pcs == s.pcs && s1.chain == s.chain && s1.log == s.log + [Gave(n)]
                 && n < |s1.refs| && Flagged(s1, n)
  {
    ExecKeepsInv(s0, es);
    var s := Exec(s0, es);
    ReadersBounded(s.pcs, n);
    assert WordOk(s.refs[n], s.loc[n], Readers(s.pcs, n));
    var a := Move(s.(loc := s.loc[n := Adding(t)], log := s.log + [Gave(n)]), t, AddRefs(n));
    assert a == Next(s, CallAdd(t, n));
    if Readers(s.pcs, n) == 0 {
      var b := Move(a.(refs := s.refs[n := SHOULD_BE_ON_FREELIST], loc := s.loc[n := Held(t)]), t, LinkLoad(n, ToCaller));
      assert b == Next(a, Run(t));
      SoloLink(s, b, t, n);
    }
  }

  lemma SoloLink(s: State, b: State, t: Tid, n: Node)
    requires Typed(b) && t < |b.pcs| && b.pcs[t] == LinkLoad(n, ToCaller) && n < |b.refs|
    requires |s.pcs| == |b.pcs| && s.pcs[t] == Idle && b.pcs == s.pcs[t := LinkLoad(n, ToCaller)]
    ensures var r := Next(Next(Next(Next(b, Run(t)), Run(t)), Run(t)), Run(t));
            r.pcs == s.pcs && r.chain == [n] + b.chain && r.log == b.log
  {
    var c := Move(b, t, LinkNext(n, b.head, ToCaller));
    assert c == Next(b, Run(t));
    var d := Move(c.(next := c.next[n := b.head]), t, LinkRefs(n, b.head, ToCaller));
    assert d == Next(c, Run(t));
    var e := Move(d.(refs := d.refs[n := 1], loc := d.loc[n := Linking(t)]), t, LinkCas(n, b.head, ToCaller));
    assert e == Next(d, Run(t));
    assert Next(e, Run(t)).pcs == s.pcs;
  }

  /** A try_get that runs alone delivers the first node of the list, or nothing if the list is empty. */
  lemma SoloTryGet(s0: State, es: seq<Event>, t: Tid)
    requires Initial(s0) && t < |Exec(s0, es).pcs| && Exec(s0, es).pcs[t].Idle?
    ensures var s := Exec(s0, es);
            var s1 := Next(Next(s, CallTryGet(t)), Run(t));
            if s.chain == [] then s1 == s
            else
              var s2 := Next(Next(Next(s1, Run(t)), Run(t)), Run(t));
              var s3 := Next(Next(Next(s2, Run(t)), Run(t)), Run(t));
              s3.log == s.log + [Got(s.chain[0])] && s3.chain == s.chain[1..] && s3.pcs == s.pcs
  {
    ExecKeepsInv(s0, es);
    var s := Exec(s0, es);
    if s.chain == [] {
      assert s.pcs[t := GetHead][t := Idle] == s.pcs;
    } else {
      var n := s.chain[0];
      SoloUpToCas(s, t, n);
      SoloFromCas(s, Counted(s, t, n), t, n);
    }
  }

  /** `s` with thread `t` about to take its first node, whose references it has counted. */
  ghost function Counted(s: State, t: Tid, n: Node): State
    requires t < |s.pcs| && n < |s.refs| && n < |s.next|
  {
    s.(refs := s.refs[n := s.refs[n] + 1], pcs := s.pcs[t := GetCas(n, s.next[n])])
  }

  lemma SoloUpToCas(s: State, t: Tid, n: Node)
    requires Inv(s) && t < |s.pcs| && s.pcs[t].Idle? && s.chain != [] && n == s.chain[0]
    ensures n < |s.refs| && n < |s.next|
    ensures Next(Next(Next(Next(Next(s, CallTryGet(t)), Run(t)), Run(t)), Run(t)), Run(t)) == Counted(s, t, n)
  {
    SoloUpToInc(s, t, n);
    var c := Move(s, t, GetInc(n, s.refs[n]));
    var d := Move(s.(refs := s.refs[n := s.refs[n] + 1]), t, GetNext(n));
    assert d == Next(c, Run(t));
  }

  lemma SoloUpToInc(s: State, t: Tid, n: Node)
    requires Inv(s) && t < |s.pcs| && s.pcs[t].Idle? && s.chain != [] && n == s.chain[0]
    ensures n < |s.refs| && s.refs[n] + 1 < WORD
    ensures Next(Next(Next(s, CallTryGet(t)), Run(t)), Run(t)) == Move(s, t, GetInc(n, s.refs[n]))
  {
    ReadersBounded(s.pcs, n);
    assert WordOk(s.refs[n], s.loc[n], Readers(s.pcs, n));
    CountedWord(s.refs[n], s.loc[n], Readers(s.pcs, n), |s.pcs|);
    var a := Move(s, t, GetHead);
    assert Move(s, t, GetRefs(n)) == Next(a, Run(t));
  }

  lemma SoloFromCas(s: State, c: State, t: Tid, n: Node)
    requires Inv(s) && t < |s.pcs| && s.pcs[t].Idle? && s.chain != [] && n == s.chain[0]
    requires n < |s.refs| && n < |s.next| && c == Counted(s, t, n) && Typed(c)
    ensures var r := Next(Next(Next(c, Run(t)), Run(t)), Run(t));
            r.log == s.log + [Got(n)] && r.chain == s.chain[1..] && r.pcs == s.pcs
  {
    var d := Move(c.(head := s.next[n], loc := s.loc[n := Taken(t)], chain := s.chain[1..]), t, GetAssert(n));
    assert d == Next(c, Run(t));
    var e := Move(d, t, GetDrop(n));
    assert e == Next(d, Run(t));
    assert Next(e, Run(t)).pcs == s.pcs;
  }
}
