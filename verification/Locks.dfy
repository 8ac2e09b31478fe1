/** The locks of extend_mutex.h, from their integer encodings: one atomic operation of one thread per
    step, words of bounded width. */
module LockWord {

  /** A word at most one modulus out of range comes back into it. */
  function Wrap(x: int, modulus: nat): (r: nat)
    requires -(modulus as int) <= x < 2 * modulus
    ensures r < modulus
  {
    if x < 0 then x + modulus else if x >= modulus then x - modulus else x
  }
}

module SharedMutex {
  import opened Counting
  import opened LockWord

  type Tid = nat

  datatype Op = Lock | TryLock | LockShared | TryLockShared

  datatype PC =
    | Idle
    | CasWriter(once: bool)   // lock spins, try_lock tries once
    | Writing
    | AddReader(once: bool)
    | AwaitWriter
    | Undo
    | Reading

  /** `modulus` is 2 to the width of the lock word. */
  datatype State = State(modulus: nat, l: nat, pcs: seq<PC>)

  datatype Event = Call(t: Tid, op: Op) | Run(t: Tid, fail: bool)

  /** `fetch_xor(1)` */
  function XorOne(x: nat): nat { if x % 2 == 1 then x - 1 else x + 1 }

  function Move(s: State, t: Tid, l: nat, pc: PC): State
    requires t < |s.pcs|
  {
    s.(l := l, pcs := s.pcs[t := pc])
  }

  /** `Writing` and `Reading` run as unlock and unlock_shared. */
  function Advance(s: State, t: Tid, fail: bool): State
    requires s.l < s.modulus && s.modulus > 2 && t < |s.pcs|
  {
    match s.pcs[t]
    case Idle => s
    case CasWriter(once) =>
      if s.l == 0 && !fail then Move(s, t, 1, Writing)
      else if once then Move(s, t, s.l, Idle) else s
    case Writing => Move(s, t, XorOne(s.l), Idle)
    case AddReader(once) =>
      Move(s, t, Wrap(s.l + 2, s.modulus), if s.l % 2 == 0 then Reading else if once then Undo else AwaitWriter)
    case AwaitWriter => if s.l % 2 == 0 then Move(s, t, s.l, Reading) else s
    case Undo => Move(s, t, Wrap(s.l - 2, s.modulus), Idle)
    case Reading => Move(s, t, Wrap(s.l - 2, s.modulus), Idle)
  }

  function Start(op: Op): PC {
    match op
    case Lock => CasWriter(false)
    case TryLock => CasWriter(true)
    case LockShared => AddReader(false)
    case TryLockShared => AddReader(true)
  }

  function Next(s: State, e: Event): (r: State)
    requires s.l < s.modulus && s.modulus > 2 && s.modulus % 2 == 0
    ensures r.l < r.modulus == s.modulus
  {
    if e.t >= |s.pcs| then s
    else
      match e
      case Call(t, op) => if s.pcs[t].Idle? then Move(s, t, s.l, Start(op)) else s
      case Run(t, fail) => Advance(s, t, fail)
  }

  function Exec(s: State, es: seq<Event>): (r: State)
    requires s.l < s.modulus && s.modulus > 2 && s.modulus % 2 == 0
    ensures r.l < r.modulus == s.modulus
  {
    if es == [] then s else Next(Exec(s, es[..|es| - 1]), es[|es| - 1])
  }

  /** At most 2^(w-1) threads: 128 for a one-byte lock. */
  ghost predicate Initial(s: State) {
    && s.modulus > 2 && s.modulus % 2 == 0 && 2 * |s.pcs| <= s.modulus
    && s.l == 0 && forall t: Tid :: t < |s.pcs| ==> s.pcs[t] == Idle
  }

  predicate IsWriting(pc: PC) { pc.Writing? }

  predicate IsReading(pc: PC) { pc.Reading? }

  predicate Registered(pc: PC) { pc.AwaitWriter? || pc.Undo? || pc.Reading? }

  predicate IsCounted(pc: PC) { IsWriting(pc) || Registered(pc) }

  /** Twice the registered readers, plus the writer. */
  ghost function Load(s: State): nat { 2 * Count(s.pcs, Registered) + Count(s.pcs, IsWriting) }

  /** The lock word is the load; with every thread of a full house registered it wraps to zero. */
  ghost predicate Inv(s: State) {
    && s.modulus > 2 && s.modulus % 2 == 0 && 2 * |s.pcs| <= s.modulus
    && Load(s) <= s.modulus
    && s.l == Wrap(Load(s), s.modulus)
    && Count(s.pcs, IsWriting) <= 1
    && (Count(s.pcs, IsWriting) == 1 ==> Count(s.pcs, IsReading) == 0)
  }

  function Weight(pc: PC): nat { if pc.Writing? then 1 else if Registered(pc) then 2 else 0 }

  /** A move of thread `t` that changes the load as its place does. */
  lemma MoveKeeps(s: State, t: Tid, l: nat, pc: PC)
    requires Inv(s) && t < |s.pcs|
    requires Load(s) - Weight(s.pcs[t]) + Weight(pc) <= s.modulus
    requires l == Wrap(Load(s) - Weight(s.pcs[t]) + Weight(pc), s.modulus)
    requires pc.Writing? ==> Load(s) == 0
    requires pc.Reading? ==> Count(s.pcs, IsWriting) == 0
    ensures Inv(Move(s, t, l, pc))
  {
    CountImplies(s.pcs, IsReading, Registered);
    CountUpdate(s.pcs, t, pc, Registered);
    CountUpdate(s.pcs, t, pc, IsWriting);
    CountUpdate(s.pcs, t, pc, IsReading);
  }

  /** How much room the others leave in the word, and what its parity says. */
  lemma LoadOfOthers(s: State, t: Tid)
    requires Inv(s) && t < |s.pcs|
    ensures Weight(s.pcs[t]) <= Load(s)
    ensures Weight(s.pcs[t]) == 0 ==> Load(s) + 2 <= s.modulus
    ensures s.pcs[t].Writing? ==> Load(s) < s.modulus && Count(s.pcs, IsWriting) == 1
    ensures s.l % 2 == Count(s.pcs, IsWriting)
  {
    CountUpdate(s.pcs, t, Idle, Registered);
    CountUpdate(s.pcs, t, Idle, IsWriting);
    CountUpdate(s.pcs, t, Reading, IsCounted);
    CountBounded(s.pcs[t := Reading], IsCounted);
    CountUpdate(s.pcs, t, Idle, IsCounted);
    CountedSplit(s.pcs);
  }

  lemma {:induction false} CountedSplit(pcs: seq<PC>)
    ensures Count(pcs, IsCounted) == Count(pcs, Registered) + Count(pcs, IsWriting)
  {
    if pcs != [] { CountedSplit(pcs[..|pcs| - 1]); }
  }

  lemma NextKeepsInv(s: State, e: Event)
    requires Inv(s)
    ensures Inv(Next(s, e))
  {
    if e.t < |s.pcs| {
      LoadOfOthers(s, e.t);
      match e {
        case Call(t, op) => if s.pcs[t].Idle? { MoveKeeps(s, t, s.l, Start(op)); }
        case Run(t, fail) => AdvanceKeepsInv(s, t, fail);
      }
    }
  }

  lemma AdvanceKeepsInv(s: State, t: Tid, fail: bool)
    requires Inv(s) && t < |s.pcs|
    ensures Inv(Advance(s, t, fail))
  {
    LoadOfOthers(s, t);
    match s.pcs[t] {
      case Idle =>
      case CasWriter(once) =>
        if s.l == 0 && !fail { MoveKeeps(s, t, 1, Writing); }
        else if once { MoveKeeps(s, t, s.l, Idle); }
      case Writing => MoveKeeps(s, t, s.l - 1, Idle);
      case AddReader(once) =>
        MoveKeeps(s, t, Wrap(s.l + 2, s.modulus),
                  if s.l % 2 == 0 then Reading else if once then Undo else AwaitWriter);
      case AwaitWriter => if s.l % 2 == 0 { MoveKeeps(s, t, s.l, Reading); }
      case Undo => MoveKeeps(s, t, Wrap(s.l - 2, s.modulus), Idle);
      case Reading => MoveKeeps(s, t, Wrap(s.l - 2, s.modulus), Idle);
    }
  }

  lemma {:induction false} ExecKeepsInv(s: State, es: seq<Event>)
    requires Initial(s)
    ensures Inv(Exec(s, es))
  {
    if es == [] {
      CountNone(s.pcs, Registered);
      CountNone(s.pcs, IsWriting);
    } else {
      ExecKeepsInv(s, es[..|es| - 1]);
      NextKeepsInv(Exec(s, es[..|es| - 1]), es[|es| - 1]);
    }
  }

  lemma WriterAlone(s: State, t: Tid, u: Tid)
    requires Inv(s) && t < |s.pcs| && u < |s.pcs| && t != u && s.pcs[t].Writing?
    ensures !s.pcs[u].Writing? && !s.pcs[u].Reading? && s.l % 2 == 1
  {
    LoadOfOthers(s, t);
    CountUpdate(s.pcs, t, Idle, IsWriting);
    CountUpdate(s.pcs[t := Idle], u, Idle, IsWriting);
    CountUpdate(s.pcs, u, Idle, IsReading);
  }

  /** A writer excludes every other writer and every reader, in every run. */
  lemma WriterExcludes(s0: State, es: seq<Event>, t: Tid, u: Tid)
    requires Initial(s0)
    requires var s := Exec(s0, es); t < |s.pcs| && u < |s.pcs| && t != u && s.pcs[t].Writing?
    ensures var s := Exec(s0, es); !s.pcs[u].Writing? && !s.pcs[u].Reading? && s.l % 2 == 1
  {
    ExecKeepsInv(s0, es);
    WriterAlone(Exec(s0, es), t, u);
  }

  // ---------------------------------------------------------------- one thread more is too many

  /** `k` threads call lock_shared and get it, one after the other. */
  function Readers(k: nat): seq<Event> {
    if k == 0 then [] else Readers(k - 1) + [Call(k - 1, LockShared), Run(k - 1, false)]
  }

  /** The first `k` threads hold the lock for reading and the others are idle. */
  predicate FirstRead(s: State, k: nat) {
    && 0 < s.modulus && 2 * k <= s.modulus && s.l == Wrap(2 * k, s.modulus)
    && forall t: Tid :: t < |s.pcs| ==> s.pcs[t] == if t < k then Reading else Idle
  }

  lemma OneMoreReads(s: State, k: nat)
    requires s.l < s.modulus && s.modulus > 2 && s.modulus % 2 == 0
    requires k < |s.pcs| && 2 * k + 2 <= s.modulus && FirstRead(s, k)
    ensures var r := Next(Next(s, Call(k, LockShared)), Run(k, false)); FirstRead(r, k + 1) && |r.pcs| == |s.pcs|
  {
    assert Next(s, Call(k, LockShared)) == Move(s, k, s.l, AddReader(false));
  }

  lemma NobodyReads(s: State)
    requires s.modulus > 2 && s.l == 0 && forall t: Tid :: t < |s.pcs| ==> s.pcs[t] == Idle
    ensures FirstRead(s, 0)
  {
  }

  lemma {:induction false} ReadersRegister(s: State, k: nat)
    requires s.modulus > 2 && s.modulus % 2 == 0 && s.l == 0
    requires k <= |s.pcs| && 2 * k <= s.modulus && forall t: Tid :: t < |s.pcs| ==> s.pcs[t] == Idle
    ensures var r := Exec(s, Readers(k)); FirstRead(r, k) && |r.pcs| == |s.pcs|
  {
    if k == 0 {
      NobodyReads(s);
    } else {
      ReadersRegister(s, k - 1);
      OneMoreReads(Exec(s, Readers(k - 1)), k - 1);
      ExecTwo(s, Readers(k - 1), Call(k - 1, LockShared), Run(k - 1, false));
    }
  }

  lemma ExecTwo(s: State, es: seq<Event>, e: Event, f: Event)
    requires s.l < s.modulus && s.modulus > 2 && s.modulus % 2 == 0
    ensures Exec(s, es + [e, f]) == Next(Next(Exec(s, es), e), f)
  {
    assert (es + [e, f])[..|es| + 1] == es + [e];
    assert (es + [e])[..|es|] == es;
  }

  /** With more threads than `Initial` allows, half as many readers as the word has values wrap it to zero,
      and a writer comes in. */
  lemma TooManyThreads(s: State) returns (es: seq<Event>)
    requires s.modulus > 2 && s.modulus % 2 == 0 && s.l == 0
    requires 2 * |s.pcs| > s.modulus && forall t: Tid :: t < |s.pcs| ==> s.pcs[t] == Idle
    ensures var r := Exec(s, es); s.modulus / 2 < |r.pcs| && r.pcs[0].Reading? && r.pcs[s.modulus / 2].Writing?
  {
    var k := s.modulus / 2;
    ReadersRegister(s, k);
    var a := Readers(k);
    es := LockOnZero(s, a, k);
    assert Exec(s, es).pcs == Exec(s, a).pcs[k := Writing];
  }

  ghost predicate Excludes(s: State) {
    forall t: Tid, u: Tid :: t < |s.pcs| && u < |s.pcs| && t != u && s.pcs[t].Writing? ==>
      !s.pcs[u].Writing? && !s.pcs[u].Reading?
  }

  /** A writer excludes all others in all runs exactly if there are at most half as many threads as the word
      has values. */
  lemma ExclusiveExactly(s: State)
    requires s.modulus > 2 && s.modulus % 2 == 0 && s.l == 0 && forall t: Tid :: t < |s.pcs| ==> s.pcs[t] == Idle
    ensures (forall es :: Excludes(Exec(s, es))) <==> 2 * |s.pcs| <= s.modulus
  {
    if 2 * |s.pcs| <= s.modulus {
      forall es ensures Excludes(Exec(s, es)) {
        ExecKeepsInv(s, es);
        EachExcludes(Exec(s, es));
      }
    } else {
      var es := TooManyThreads(s);
      assert !Excludes(Exec(s, es));
    }
  }

  lemma EachExcludes(s: State)
    requires Inv(s)
    ensures Excludes(s)
  {
    forall t: Tid, u: Tid | t < |s.pcs| && u < |s.pcs| && t != u && s.pcs[t].Writing?
      ensures !s.pcs[u].Writing? && !s.pcs[u].Reading?
    {
      WriterAlone(s, t, u);
    }
  }

  /** An idle thread that calls lock while the word is zero gets it. */
  lemma LockOnZero(s: State, a: seq<Event>, t: Tid) returns (c: seq<Event>)
    requires s.l < s.modulus && s.modulus > 2 && s.modulus % 2 == 0
    requires t < |Exec(s, a).pcs| && Exec(s, a).pcs[t] == Idle && Exec(s, a).l == 0
    ensures Exec(s, c) == Move(Exec(s, a), t, 1, Writing)
  {
    var b := a + [Call(t, Lock)];
    c := b + [Run(t, false)];
    assert b[..|b| - 1] == a && c[..|c| - 1] == b;
    assert Exec(s, b) == Move(Exec(s, a), t, 0, CasWriter(false));
    assert Exec(s, c) == Move(Exec(s, b), t, 1, Writing);
  }

  // ---------------------------------------------------------------- who gets it

  lemma NobodyCounted(s: State)
    requires Inv(s)
    ensures Load(s) == 0 <==> forall u: Tid :: u < |s.pcs| ==> !IsWriting(s.pcs[u]) && !Registered(s.pcs[u])
    ensures Count(s.pcs, IsWriting) == 0 <==> forall u: Tid :: u < |s.pcs| ==> !IsWriting(s.pcs[u])
  {
    CountZero(s.pcs, Registered);
    CountZero(s.pcs, IsWriting);
  }

  /** An attempt to write, if it does not fail spuriously, succeeds exactly if nobody writes, reads or asks to
      read; an attempt to read exactly if nobody writes; and a reader that waits gets in as soon as nobody
      writes.  Without success lock and lock_shared wait, and only the attempts end. */
  lemma GetsExactly(s0: State, es: seq<Event>, t: Tid, fail: bool)
    requires Initial(s0) && t < |Exec(s0, es).pcs|
    ensures var s, r := Exec(s0, es), Next(Exec(s0, es), Run(t, fail));
            && |r.pcs| == |s.pcs|
            && (s.pcs[t].CasWriter? ==>
                  (r.pcs[t].Writing? <==>
                     !fail && forall u: Tid :: u < |s.pcs| ==> !IsWriting(s.pcs[u]) && !Registered(s.pcs[u])))
            && (s.pcs[t].AddReader? || s.pcs[t].AwaitWriter? ==>
                  (r.pcs[t].Reading? <==> forall u: Tid :: u < |s.pcs| ==> !IsWriting(s.pcs[u])))
            && (s.pcs[t].CasWriter? && !r.pcs[t].Writing? ==> r.pcs[t] == if s.pcs[t].once then Idle else s.pcs[t])
            && (s.pcs[t].AddReader? && !r.pcs[t].Reading? ==> r.pcs[t] == if s.pcs[t].once then Undo else AwaitWriter)
            && (s.pcs[t].AwaitWriter? && !r.pcs[t].Reading? ==> r.pcs[t] == AwaitWriter)
  {
    ExecKeepsInv(s0, es);
    var s := Exec(s0, es);
    LoadOfOthers(s, t);
    NobodyCounted(s);
  }

  /** A call gets the mutex at its first step, whatever the other threads are at, if it wants to write and nobody
      writes or has asked to read, or wants to read and nobody writes; and the unlock gives the word back. */
  lemma LocksAlone(s0: State, es: seq<Event>, t: Tid, op: Op)
    requires Initial(s0) && t < |Exec(s0, es).pcs| && Exec(s0, es).pcs[t] == Idle
    requires forall u: Tid :: u < |Exec(s0, es).pcs| ==> !IsWriting(Exec(s0, es).pcs[u])
    requires op.Lock? || op.TryLock? ==> forall u: Tid :: u < |Exec(s0, es).pcs| ==> !Registered(Exec(s0, es).pcs[u])
    ensures var s := Exec(s0, es);
            var r := Next(Next(s, Call(t, op)), Run(t, false));
            && r.pcs == s.pcs[t := if op.Lock? || op.TryLock? then Writing else Reading]
            && Next(r, Run(t, false)) == s
  {
    ExecKeepsInv(s0, es);
    LoadOfOthers(Exec(s0, es), t);
    NobodyCounted(Exec(s0, es));
    LockAlone(Exec(s0, es), t, op);
  }

  lemma LockAlone(s: State, t: Tid, op: Op)
    requires s.modulus > 2 && s.modulus % 2 == 0 && s.l < s.modulus && s.l % 2 == 0 && t < |s.pcs| && s.pcs[t] == Idle
    requires op.Lock? || op.TryLock? ==> s.l == 0
    ensures var r := Next(Next(s, Call(t, op)), Run(t, false));
            && r.pcs == s.pcs[t := if op.Lock? || op.TryLock? then Writing else Reading]
            && Next(r, Run(t, false)) == s
  {
    assert Next(s, Call(t, op)) == Move(s, t, s.l, Start(op));
    var r := Next(Move(s, t, s.l, Start(op)), Run(t, false));
    assert Next(r, Run(t, false)).pcs == s.pcs;
  }

  // ---------------------------------------------------------------- nobody waits in vain

  lemma OtherGoesOn(s: State) returns (u: Tid)
    requires Inv(s) && s.l != 0
    ensures u < |s.pcs| && Advance(s, u, false).pcs[u] != s.pcs[u]
  {
    if Count(s.pcs, IsWriting) > 0 {
      u := CountSome(s.pcs, IsWriting);
    } else {
      assert s.l % 2 == 0;
      u := CountSome(s.pcs, Registered);
    }
  }

  /** As long as any thread is in a call or holds the mutex, some thread can go on. */
  lemma NobodyIsStuck(s0: State, es: seq<Event>, t: Tid) returns (u: Tid)
    requires Initial(s0) && t < |Exec(s0, es).pcs| && Exec(s0, es).pcs[t] != Idle
    ensures var s := Exec(s0, es); u < |s.pcs| == |Next(s, Run(u, false)).pcs| && Next(s, Run(u, false)).pcs[u] != s.pcs[u]
  {
    ExecKeepsInv(s0, es);
    var s := Exec(s0, es);
    u := t;
    LoadOfOthers(s, t);
    if Advance(s, t, false).pcs[t] == s.pcs[t] { u := OtherGoesOn(s); }
  }
}

module IntentionMutex {
  import opened Counting
  import opened LockWord

  type Tid = nat

  /** `seen` is the value of `l_` in lock_shared. */
  datatype PC =
    | Idle
    | LoadWord
    | CasReader(seen: nat)
    | Reading
    | Promote          // try_lock_prompt, called by a reader
    | Leave
    | AwaitReaders
    | Exclusive

  datatype State = State(modulus: nat, l: nat, pcs: seq<PC>)

  datatype Event = LockShared(t: Tid) | TryLockPrompt(t: Tid) | Run(t: Tid, fail: bool)

  function OrOne(x: nat): nat { if x % 2 == 1 then x else x + 1 }

  function Move(s: State, t: Tid, l: nat, pc: PC): State
    requires t < |s.pcs|
  {
    s.(l := l, pcs := s.pcs[t := pc])
  }

  /** `Reading` and `Exclusive` run as unlock_shared and unlock. */
  function Advance(s: State, t: Tid, fail: bool): State
    requires s.l < s.modulus && s.modulus > 2 && t < |s.pcs|
  {
    match s.pcs[t]
    case Idle => s
    case LoadWord => Move(s, t, s.l, CasReader(s.l))
    case CasReader(seen) =>
      if seen % 2 == 0 && s.l == seen && !fail then Move(s, t, Wrap(s.l + 2, s.modulus), Reading)
      else Move(s, t, s.l, CasReader(s.l))
    case Reading => Move(s, t, Wrap(s.l - 2, s.modulus), Idle)
    case Promote => Move(s, t, OrOne(s.l), if s.l % 2 == 1 then Reading else Leave)
    case Leave => Move(s, t, Wrap(s.l - 2, s.modulus), AwaitReaders)
    case AwaitReaders => if s.l <= 1 then Move(s, t, s.l, Exclusive) else s
    case Exclusive => Move(s, t, 0, Idle)
  }

  function Next(s: State, e: Event): (r: State)
    requires s.l < s.modulus && s.modulus > 2 && s.modulus % 2 == 0
    ensures r.l < r.modulus == s.modulus
  {
    if e.t >= |s.pcs| then s
    else
      match e
      case LockShared(t) => if s.pcs[t].Idle? then Move(s, t, s.l, LoadWord) else s
      case TryLockPrompt(t) => if s.pcs[t].Reading? then Move(s, t, s.l, Promote) else s
      case Run(t, fail) => Advance(s, t, fail)
  }

  function Exec(s: State, es: seq<Event>): (r: State)
    requires s.l < s.modulus && s.modulus > 2 && s.modulus % 2 == 0
    ensures r.l < r.modulus == s.modulus
  {
    if es == [] then s else Next(Exec(s, es[..|es| - 1]), es[|es| - 1])
  }

  ghost predicate Initial(s: State) {
    && s.modulus > 2 && s.modulus % 2 == 0 && 2 * |s.pcs| <= s.modulus
    && s.l == 0 && forall t: Tid :: t < |s.pcs| ==> s.pcs[t] == Idle
  }

  predicate Holder(pc: PC) { pc.Reading? || pc.Promote? || pc.Leave? }

  predicate Winner(pc: PC) { pc.Leave? || pc.AwaitReaders? || pc.Exclusive? }

  predicate IsExclusive(pc: PC) { pc.Exclusive? }

  function Weight(pc: PC): nat { (if Holder(pc) then 2 else 0) + (if Winner(pc) then 1 else 0) }

  /** Twice the readers, plus the winner of the upgrade. */
  ghost function Load(s: State): nat { 2 * Count(s.pcs, Holder) + Count(s.pcs, Winner) }

  ghost predicate Inv(s: State) {
    && s.modulus > 2 && s.modulus % 2 == 0 && 2 * |s.pcs| <= s.modulus
    && Load(s) <= s.modulus + 1
    && s.l == Wrap(Load(s), s.modulus)
    && Count(s.pcs, Winner) <= 1
    && (Count(s.pcs, IsExclusive) >= 1 ==> Count(s.pcs, Holder) == 0)
  }

  lemma MoveKeeps(s: State, t: Tid, l: nat, pc: PC)
    requires Inv(s) && t < |s.pcs|
    requires Load(s) - Weight(s.pcs[t]) + Weight(pc) <= s.modulus + 1
    requires l == Wrap(Load(s) - Weight(s.pcs[t]) + Weight(pc), s.modulus)
    requires Winner(pc) && !Winner(s.pcs[t]) ==> Count(s.pcs, Winner) == 0
    requires pc.Exclusive? ==> Count(s.pcs, Holder) == 0
    requires Holder(pc) && !Holder(s.pcs[t]) ==> Count(s.pcs, Winner) == 0
    ensures Inv(Move(s, t, l, pc))
  {
    CountImplies(s.pcs, IsExclusive, Winner);
    CountUpdate(s.pcs, t, pc, Holder);
    CountUpdate(s.pcs, t, pc, Winner);
    CountUpdate(s.pcs, t, pc, IsExclusive);
  }

  lemma LoadOfOthers(s: State, t: Tid)
    requires Inv(s) && t < |s.pcs|
    ensures Weight(s.pcs[t]) <= Load(s)
    ensures !Holder(s.pcs[t]) ==> 2 * Count(s.pcs, Holder) + 2 <= s.modulus
    ensures Holder(s.pcs[t]) ==> Count(s.pcs, Holder) >= 1
    ensures Winner(s.pcs[t]) ==> Count(s.pcs, Winner) == 1
    ensures s.pcs[t].Exclusive? ==> s.l == 1 && Load(s) == 1
    ensures s.l % 2 == Count(s.pcs, Winner)
  {
    CountUpdate(s.pcs, t, Idle, Holder);
    CountUpdate(s.pcs, t, Idle, Winner);
    CountUpdate(s.pcs, t, Idle, IsExclusive);
    CountUpdate(s.pcs, t, Reading, Holder);
    CountBounded(s.pcs[t := Reading], Holder);
  }

  lemma NextKeepsInv(s: State, e: Event)
    requires Inv(s)
    ensures Inv(Next(s, e))
  {
    if e.t < |s.pcs| {
      LoadOfOthers(s, e.t);
      match e {
        case LockShared(t) => if s.pcs[t].Idle? { MoveKeeps(s, t, s.l, LoadWord); }
        case TryLockPrompt(t) => if s.pcs[t].Reading? { MoveKeeps(s, t, s.l, Promote); }
        case Run(t, fail) => AdvanceKeepsInv(s, t, fail);
      }
    }
  }

  /** The steps of a reader that comes or goes. */
  lemma ReaderKeepsInv(s: State, t: Tid, fail: bool)
    requires Inv(s) && t < |s.pcs| && (s.pcs[t].LoadWord? || s.pcs[t].CasReader? || s.pcs[t].Reading?)
    ensures Inv(Advance(s, t, fail))
  {
    LoadOfOthers(s, t);
    match s.pcs[t] {
      case LoadWord => MoveKeeps(s, t, s.l, CasReader(s.l));
      case CasReader(seen) =>
        if seen % 2 == 0 && s.l == seen && !fail { MoveKeeps(s, t, Wrap(s.l + 2, s.modulus), Reading); }
        else { MoveKeeps(s, t, s.l, CasReader(s.l)); }
      case Reading => MoveKeeps(s, t, Wrap(s.l - 2, s.modulus), Idle);
    }
  }

  /** The steps of an upgrade. */
  lemma UpgradeKeepsInv(s: State, t: Tid, fail: bool)
    requires Inv(s) && t < |s.pcs|
    requires s.pcs[t].Promote? || s.pcs[t].Leave? || s.pcs[t].AwaitReaders? || s.pcs[t].Exclusive?
    ensures Inv(Advance(s, t, fail))
  {
    LoadOfOthers(s, t);
    match s.pcs[t] {
      case Promote => MoveKeeps(s, t, OrOne(s.l), if s.l % 2 == 1 then Reading else Leave);
      case Leave => MoveKeeps(s, t, Wrap(s.l - 2, s.modulus), AwaitReaders);
      case AwaitReaders => if s.l <= 1 { MoveKeeps(s, t, s.l, Exclusive); }
      case Exclusive => MoveKeeps(s, t, 0, Idle);
    }
  }

  lemma AdvanceKeepsInv(s: State, t: Tid, fail: bool)
    requires Inv(s) && t < |s.pcs|
    ensures Inv(Advance(s, t, fail))
  {
    match s.pcs[t] {
      case Idle =>
      case LoadWord | CasReader(_) | Reading => ReaderKeepsInv(s, t, fail);
      case _ => UpgradeKeepsInv(s, t, fail);
    }
  }

  lemma {:induction false} ExecKeepsInv(s: State, es: seq<Event>)
    requires Initial(s)
    ensures Inv(Exec(s, es))
  {
    if es == [] {
      CountNone(s.pcs, Holder);
      CountNone(s.pcs, Winner);
      CountNone(s.pcs, IsExclusive);
    } else {
      ExecKeepsInv(s, es[..|es| - 1]);
      NextKeepsInv(Exec(s, es[..|es| - 1]), es[|es| - 1]);
    }
  }

  /** The exclusive holder is alone: nobody reads or upgrades, and it unlocks from the value 1. */
  lemma ExclusiveIsAlone(s0: State, es: seq<Event>, t: Tid, u: Tid)
    requires Initial(s0)
    requires var s := Exec(s0, es); t < |s.pcs| && u < |s.pcs| && t != u && s.pcs[t].Exclusive?
    ensures var s := Exec(s0, es); !Holder(s.pcs[u]) && !Winner(s.pcs[u]) && s.l == 1
  {
    ExecKeepsInv(s0, es);
    var s := Exec(s0, es);
    LoadOfOthers(s, t);
    CountUpdate(s.pcs, u, Idle, Holder);
    CountUpdate(s.pcs, t, Idle, Winner);
    CountUpdate(s.pcs[t := Idle], u, Idle, Winner);
  }

  /** An upgrade has at most one winner at a time, and while its bit is set no step of any thread adds
      a reader. */
  lemma OneWinnerNoNewReader(s0: State, es: seq<Event>, e: Event)
    requires Initial(s0)
    ensures Count(Exec(s0, es).pcs, Winner) <= 1
    ensures Exec(s0, es).l % 2 == 1 <==> Count(Exec(s0, es).pcs, Winner) == 1
    ensures Exec(s0, es).l % 2 == 1 ==>
              Count(Next(Exec(s0, es), e).pcs, Holder) <= Count(Exec(s0, es).pcs, Holder)
  {
    ExecKeepsInv(s0, es);
    ParityIsWinner(Exec(s0, es));
    NoNewReader(Exec(s0, es), e);
  }

  lemma ParityIsWinner(s: State)
    requires Inv(s)
    ensures s.l % 2 == Count(s.pcs, Winner)
  {
  }

  lemma NoNewReader(s: State, e: Event)
    requires Inv(s)
    ensures s.l % 2 == 1 ==> Count(Next(s, e).pcs, Holder) <= Count(s.pcs, Holder)
  {
    if e.t < |s.pcs| { CountUpdate(s.pcs, e.t, Next(s, e).pcs[e.t], Holder); }
  }

  // ---------------------------------------------------------------- who gets it

  lemma NobodyCounted(s: State)
    requires Inv(s)
    ensures Count(s.pcs, Holder) == 0 <==> forall u: Tid :: u < |s.pcs| ==> !Holder(s.pcs[u])
    ensures Count(s.pcs, Winner) == 0 <==> forall u: Tid :: u < |s.pcs| ==> !Winner(s.pcs[u])
  {
    CountZero(s.pcs, Holder);
    CountZero(s.pcs, Winner);
  }

  /** A reader gets in, if it has the current word and does not fail spuriously, exactly if there is no winner;
      a try_lock_prompt wins exactly if nobody else has; and the winner gets the mutex exactly when nobody
      holds it any more. */
  lemma GetsExactly(s0: State, es: seq<Event>, t: Tid, fail: bool)
    requires Initial(s0) && t < |Exec(s0, es).pcs|
    ensures var s, r := Exec(s0, es), Next(Exec(s0, es), Run(t, fail));
            && |r.pcs| == |s.pcs|
            && (s.pcs[t].LoadWord? ==> r.pcs[t] == CasReader(r.l))
            && (s.pcs[t].CasReader? ==> r.pcs[t].Reading? || r.pcs[t] == CasReader(r.l))
            && (s.pcs[t] == CasReader(s.l) && !fail ==>
                  (r.pcs[t].Reading? <==> forall u: Tid :: u < |s.pcs| ==> !Winner(s.pcs[u])))
            && (s.pcs[t].Promote? ==>
                  r.pcs[t] == if forall u: Tid :: u < |s.pcs| ==> !Winner(s.pcs[u]) then Leave else Reading)
            && (s.pcs[t].AwaitReaders? ==>
                  (r.pcs[t].Exclusive? <==> forall u: Tid :: u < |s.pcs| ==> !Holder(s.pcs[u])))
  {
    ExecKeepsInv(s0, es);
    var s := Exec(s0, es);
    LoadOfOthers(s, t);
    NobodyCounted(s);
  }

  /** With nobody upgrading a thread gets to read at once, whoever else reads, and its unlock gives the word back;
      if nobody else reads it upgrades, and the unlock leaves the mutex free. */
  lemma UpgradesAlone(s0: State, es: seq<Event>, t: Tid)
    requires Initial(s0) && t < |Exec(s0, es).pcs| && Exec(s0, es).pcs[t] == Idle
    requires forall u: Tid :: u < |Exec(s0, es).pcs| ==> !Winner(Exec(s0, es).pcs[u])
    ensures var s := Exec(s0, es);
            var r := Next(Next(Next(s, LockShared(t)), Run(t, false)), Run(t, false));
            r.pcs == s.pcs[t := Reading] && Next(r, Run(t, false)) == s
    ensures var s := Exec(s0, es);
            var r := Next(Next(Next(s, LockShared(t)), Run(t, false)), Run(t, false));
            var q := Next(Next(Next(Next(r, TryLockPrompt(t)), Run(t, false)), Run(t, false)), Run(t, false));
            (forall u: Tid :: u < |s.pcs| ==> !Holder(s.pcs[u])) ==>
              q.pcs == s.pcs[t := Exclusive] && Next(q, Run(t, false)) == s
  {
    ExecKeepsInv(s0, es);
    var s := Exec(s0, es);
    LoadOfOthers(s, t);
    NobodyCounted(s);
    ReadsAlone(s, t);
    if forall u: Tid :: u < |s.pcs| ==> !Holder(s.pcs[u]) { UpgradeAlone(s, Move(s, t, 2, Reading), t); }
  }

  lemma ReadsAlone(s: State, t: Tid)
    requires s.modulus > 2 && s.modulus % 2 == 0 && s.l < s.modulus && s.l % 2 == 0 && t < |s.pcs| && s.pcs[t] == Idle
    ensures var r := Move(s, t, Wrap(s.l + 2, s.modulus), Reading);
            Next(Next(Next(s, LockShared(t)), Run(t, false)), Run(t, false)) == r && Next(r, Run(t, false)) == s
  {
    assert Next(s, LockShared(t)) == Move(s, t, s.l, LoadWord);
    assert Next(Move(s, t, s.l, LoadWord), Run(t, false)) == Move(s, t, s.l, CasReader(s.l));
    assert Next(Move(s, t, Wrap(s.l + 2, s.modulus), Reading), Run(t, false)).pcs == s.pcs;
  }

  lemma UpgradeAlone(s: State, r: State, t: Tid)
    requires s.modulus > 2 && s.modulus % 2 == 0 && s.l == 0 && t < |s.pcs| && s.pcs[t] == Idle
    requires r == Move(s, t, 2, Reading)
    ensures var q := Next(Next(Next(Next(r, TryLockPrompt(t)), Run(t, false)), Run(t, false)), Run(t, false));
            q == Move(s, t, 1, Exclusive) && Next(q, Run(t, false)) == s
  {
    assert Next(r, TryLockPrompt(t)) == Move(s, t, 2, Promote);
    assert Next(Move(s, t, 2, Promote), Run(t, false)) == Move(s, t, 3, Leave);
    assert Next(Move(s, t, 3, Leave), Run(t, false)) == Move(s, t, 1, AwaitReaders);
    assert Next(Move(s, t, 1, Exclusive), Run(t, false)).pcs == s.pcs;
  }

  // ---------------------------------------------------------------- nobody waits in vain

  lemma OtherGoesOn(s: State) returns (u: Tid)
    requires Inv(s) && s.l % 2 == 1
    ensures u < |s.pcs| && Advance(s, u, false).pcs[u] != s.pcs[u]
  {
    u := CountSome(s.pcs, Winner);
    if s.pcs[u].AwaitReaders? && s.l > 1 { u := CountSome(s.pcs, Holder); }
  }

  /** As long as any thread is in a call or holds the mutex, some thread can go on. */
  lemma NobodyIsStuck(s0: State, es: seq<Event>, t: Tid) returns (u: Tid)
    requires Initial(s0) && t < |Exec(s0, es).pcs| && Exec(s0, es).pcs[t] != Idle
    ensures var s := Exec(s0, es); u < |s.pcs| == |Next(s, Run(u, false)).pcs| && Next(s, Run(u, false)).pcs[u] != s.pcs[u]
  {
    ExecKeepsInv(s0, es);
    var s := Exec(s0, es);
    u := t;
    LoadOfOthers(s, t);
    if Advance(s, t, false).pcs[t] == s.pcs[t] { u := OtherGoesOn(s); }
  }
}

module TicketMutex {
  import opened Counting
  import opened Word16
  import Bits

  type Tid = nat

  /** `ticket` and the pair seen by try_lock are unbounded; the program has their low 16 bits. */
  datatype PC =
    | Idle
    | TakeTicket
    | Await(ticket: nat)
    | TryLoad
    | TryCas(h: nat, l: nat)
    | Holding(ticket: nat)

  /** `owner[i]` is the thread that took ticket i. */
  datatype State = State(h: nat, l: nat, pcs: seq<PC>, owner: seq<Tid>)

  datatype Event = Lock(t: Tid) | TryLock(t: Tid) | Run(t: Tid, fail: bool)

  function Move(s: State, t: Tid, pc: PC): State
    requires t < |s.pcs|
  {
    s.(pcs := s.pcs[t := pc])
  }

  /** `Holding` runs as unlock. */
  function Advance(s: State, t: Tid, fail: bool): State
    requires t < |s.pcs|
  {
    match s.pcs[t]
    case Idle => s
    case TakeTicket => Move(s.(h := s.h + 1, owner := s.owner + [t]), t, Await(s.h))
    case Await(ticket) => if Word(s.l) == Word(ticket) then Move(s, t, Holding(ticket)) else s
    case TryLoad => if Word(s.h) != Word(s.l) then Move(s, t, Idle) else Move(s, t, TryCas(s.h, s.l))
    case TryCas(h, l) =>
      if Word(s.h) == Word(h) && Word(s.l) == Word(l) && !fail
      then Move(s.(h := s.h + 1, owner := s.owner + [t]), t, Holding(s.h))
      else Move(s, t, Idle)
    case Holding(_) => Move(s.(l := s.l + 1), t, Idle)
  }

  function Next(s: State, e: Event): State {
    if e.t >= |s.pcs| then s
    else
      match e
      case Lock(t) => if s.pcs[t].Idle? then Move(s, t, TakeTicket) else s
      case TryLock(t) => if s.pcs[t].Idle? then Move(s, t, TryLoad) else s
      case Run(t, fail) => Advance(s, t, fail)
  }

  function Exec(s: State, es: seq<Event>): State {
    if es == [] then s else Next(Exec(s, es[..|es| - 1]), es[|es| - 1])
  }

  /** Fewer than 2^16 threads, so fewer than 2^16 tickets outstanding. */
  predicate Initial(s: State) {
    s.h == s.l == 0 && s.owner == [] && |s.pcs| < WORD && forall t: Tid :: t < |s.pcs| ==> s.pcs[t] == Idle
  }

  predicate HasTicket(pc: PC) { pc.Await? || pc.Holding? }

  ghost predicate Inv(s: State) {
    && s.l <= s.h == |s.owner| && |s.pcs| < WORD
    && (forall t: Tid :: t < |s.pcs| && HasTicket(s.pcs[t]) ==>
          s.l <= s.pcs[t].ticket < s.h && s.owner[s.pcs[t].ticket] == t)
    && (forall i :: s.l <= i < s.h ==>
          s.owner[i] < |s.pcs| && HasTicket(s.pcs[s.owner[i]]) && s.pcs[s.owner[i]].ticket == i)
    && (forall t: Tid :: t < |s.pcs| && s.pcs[t].Holding? ==> s.pcs[t].ticket == s.l)
    && (forall t: Tid :: t < |s.pcs| && s.pcs[t].TryCas? ==> s.pcs[t].h == s.pcs[t].l <= s.l)
  }

  lemma OutstandingBounded(s: State)
    requires Inv(s)
    ensures s.h - s.l <= |s.pcs|
  {
    var out := s.owner[s.l..];
    forall i, j | 0 <= i < j < |out|
      ensures out[i] != out[j]
    {
      assert out[i] == s.owner[s.l + i] && out[j] == s.owner[s.l + j];
    }
    forall i | 0 <= i < |out| ensures out[i] < |s.pcs| { assert out[i] == s.owner[s.l + i]; }
    Pigeonhole(out, |s.pcs|);
  }

  lemma NextKeepsInv(s: State, e: Event)
    requires Inv(s)
    ensures Inv(Next(s, e))
  {
    if e.t < |s.pcs| {
      match e {
        case Run(t, fail) => AdvanceKeepsInv(s, t, fail);
        case Lock(t) => if s.pcs[t].Idle? { PassStep(s, t, TakeTicket); }
        case TryLock(t) => if s.pcs[t].Idle? { PassStep(s, t, TryLoad); }
      }
    }
  }

  lemma AdvanceKeepsInv(s: State, t: Tid, fail: bool)
    requires Inv(s) && t < |s.pcs|
    ensures Inv(Advance(s, t, fail))
  {
    match s.pcs[t] {
      case Idle =>
      case TakeTicket => TakeStep(s, t, Await(s.h));
      case Await(ticket) => AwaitStep(s, t, ticket);
      case TryLoad =>
        WordsAtRest(s);
        PassStep(s, t, if Word(s.h) != Word(s.l) then Idle else TryCas(s.h, s.l));
      case TryCas(_, _) => TryCasStep(s, t, fail);
      case Holding(_) => UnlockStep(s, t);
    }
  }

  lemma PassStep(s: State, t: Tid, pc: PC)
    requires Inv(s) && t < |s.pcs| && !HasTicket(s.pcs[t]) && !HasTicket(pc)
    requires pc.TryCas? ==> pc.h == pc.l <= s.l
    ensures Inv(Move(s, t, pc))
  {
  }

  lemma UnlockStep(s: State, t: Tid)
    requires Inv(s) && t < |s.pcs| && s.pcs[t].Holding?
    ensures Inv(Move(s.(l := s.l + 1), t, Idle))
  {
  }

  lemma AwaitStep(s: State, t: Tid, ticket: nat)
    requires Inv(s) && t < |s.pcs| && s.pcs[t] == Await(ticket)
    ensures Inv(Advance(s, t, false))
  {
    OutstandingBounded(s);
    Bits.SameRemainder(s.l, ticket, WORD);
  }

  lemma TakeStep(s: State, t: Tid, pc: PC)
    requires Inv(s) && t < |s.pcs| && !HasTicket(s.pcs[t])
    requires pc == Await(s.h) || (pc == Holding(s.h) && s.h == s.l)
    ensures Inv(Move(s.(h := s.h + 1, owner := s.owner + [t]), t, pc))
  {
  }

  /** The two words are equal exactly if no ticket is outstanding. */
  lemma WordsAtRest(s: State)
    requires Inv(s)
    ensures Word(s.h) == Word(s.l) <==> s.h == s.l
  {
    OutstandingBounded(s);
    Bits.SameRemainder(s.l, s.h, WORD);
  }

  lemma TryCasStep(s: State, t: Tid, fail: bool)
    requires Inv(s) && t < |s.pcs| && s.pcs[t].TryCas?
    ensures Inv(Advance(s, t, fail))
  {
    WordsAtRest(s);
    if Advance(s, t, fail).h > s.h { TakeStep(s, t, Holding(s.h)); }
  }

  lemma {:induction false} ExecKeepsInv(s: State, es: seq<Event>)
    requires Initial(s)
    ensures Inv(Exec(s, es))
  {
    if es != [] {
      ExecKeepsInv(s, es[..|es| - 1]);
      NextKeepsInv(Exec(s, es[..|es| - 1]), es[|es| - 1]);
    }
  }

  /** At most one thread holds the lock, and it holds the oldest outstanding ticket: tickets are served
      in the order they were taken, through any number of wraps of the 16-bit words. */
  lemma ServedInOrder(s0: State, es: seq<Event>, t: Tid, u: Tid)
    requires Initial(s0)
    requires var s := Exec(s0, es); t < |s.pcs| && u < |s.pcs| && t != u && s.pcs[t].Holding?
    ensures var s := Exec(s0, es);
            !s.pcs[u].Holding? && (s.pcs[u].Await? ==> s.pcs[t].ticket < s.pcs[u].ticket)
  {
    ExecKeepsInv(s0, es);
  }

  /** The words tell a waiting thread its turn exactly. */
  lemma TurnIsExact(s0: State, es: seq<Event>, t: Tid)
    requires Initial(s0)
    requires var s := Exec(s0, es); t < |s.pcs| && s.pcs[t].Await?
    ensures var s := Exec(s0, es);
            t < |Next(s, Run(t, false)).pcs| &&
            (Next(s, Run(t, false)).pcs[t].Holding? <==> s.pcs[t].ticket == s.l)
  {
    ExecKeepsInv(s0, es);
    var s := Exec(s0, es);
    OutstandingBounded(s);
    Bits.SameRemainder(s.l, s.pcs[t].ticket, WORD);
  }

  /** try_lock goes on exactly if nobody has a ticket, and then it gets the lock unless it fails spuriously or
      somebody took a ticket meanwhile. */
  lemma GetsExactly(s0: State, es: seq<Event>, t: Tid, fail: bool)
    requires Initial(s0) && t < |Exec(s0, es).pcs|
    ensures Tries(Exec(s0, es), Next(Exec(s0, es), Run(t, fail)), t, fail)
  {
    ExecKeepsInv(s0, es);
    TryStep(Exec(s0, es), t, fail);
  }

  predicate Tries(s: State, r: State, t: Tid, fail: bool) {
    && t < |r.pcs| == |s.pcs|
    && (s.pcs[t].TryLoad? ==>
          r.pcs[t] == if forall u: Tid :: u < |s.pcs| ==> !HasTicket(s.pcs[u]) then TryCas(s.h, s.l) else Idle)
    && (s.pcs[t].TryCas? ==> r.pcs[t] == Idle || r.pcs[t] == Holding(s.h))
    && (s.pcs[t].TryCas? && !fail && r.pcs[t] == Idle ==> s.pcs[t].h < s.h)
  }

  lemma TryStep(s: State, t: Tid, fail: bool)
    requires Inv(s) && t < |s.pcs|
    ensures Tries(s, Next(s, Run(t, fail)), t, fail)
  {
    WordsAtRest(s);
    Outstanding(s);
  }

  lemma Outstanding(s: State)
    requires Inv(s)
    ensures s.h == s.l <==> forall u: Tid :: u < |s.pcs| ==> !HasTicket(s.pcs[u])
  {
    if s.l < s.h { assert HasTicket(s.pcs[s.owner[s.l]]); }
  }

  /** If nobody has a ticket lock and try_lock get the lock with the next one, and the unlock calls the one after
      it. */
  lemma LocksAlone(s0: State, es: seq<Event>, t: Tid, try: bool)
    requires Initial(s0) && t < |Exec(s0, es).pcs| && Exec(s0, es).pcs[t] == Idle
    requires forall u: Tid :: u < |Exec(s0, es).pcs| ==> !HasTicket(Exec(s0, es).pcs[u])
    ensures var s := Exec(s0, es);
            var r := Next(Next(Next(s, if try then TryLock(t) else Lock(t)), Run(t, false)), Run(t, false));
            && r.pcs == s.pcs[t := Holding(s.h)]
            && var q := Next(r, Run(t, false)); q.pcs == s.pcs && q.h == q.l == s.h + 1
  {
    ExecKeepsInv(s0, es);
    var s := Exec(s0, es);
    Outstanding(s);
    if try { TriesAlone(s, t); } else { TakesAlone(s, t); }
    assert s.pcs[t := Idle] == s.pcs;
  }

  /** A thread that has just got the lock. */
  function Locked(s: State, t: Tid): State
    requires t < |s.pcs|
  {
    Move(s.(h := s.h + 1, owner := s.owner + [t]), t, Holding(s.h))
  }

  lemma TriesAlone(s: State, t: Tid)
    requires s.h == s.l && t < |s.pcs| && s.pcs[t] == Idle
    ensures Next(Next(Next(s, TryLock(t)), Run(t, false)), Run(t, false)) == Locked(s, t)
  {
    assert Next(s, TryLock(t)) == Move(s, t, TryLoad);
    assert Next(Move(s, t, TryLoad), Run(t, false)) == Move(s, t, TryCas(s.h, s.l));
  }

  lemma TakesAlone(s: State, t: Tid)
    requires s.h == s.l && t < |s.pcs| && s.pcs[t] == Idle
    ensures Next(Next(Next(s, Lock(t)), Run(t, false)), Run(t, false)) == Locked(s, t)
  {
    assert Next(s, Lock(t)) == Move(s, t, TakeTicket);
    var a := Move(s.(h := s.h + 1, owner := s.owner + [t]), t, Await(s.h));
    assert Next(Move(s, t, TakeTicket), Run(t, false)) == a;
  }

  /** As long as any thread is in a call or holds the mutex, some thread can go on: one that waits for its
      turn has the thread of the oldest ticket before it. */
  lemma NobodyIsStuck(s0: State, es: seq<Event>, t: Tid) returns (u: Tid)
    requires Initial(s0) && t < |Exec(s0, es).pcs| && Exec(s0, es).pcs[t] != Idle
    ensures var s := Exec(s0, es); u < |s.pcs| == |Next(s, Run(u, false)).pcs| && Next(s, Run(u, false)).pcs[u] != s.pcs[u]
  {
    ExecKeepsInv(s0, es);
    var s := Exec(s0, es);
    u := if s.pcs[t].Await? then s.owner[s.l] else t;
  }
}

module SpinMutex {
  import opened Bits

  type Tid = nat

  /** One lock per bit of the word. */
  datatype PC = Idle | Test(i: nat) | Set(i: nat) | Holding(i: nat)

  /** `width` is the number of bits of the word. */
  datatype State = State(width: nat, l: nat, pcs: seq<PC>)

  datatype Event = TryLock(t: Tid, i: nat) | Run(t: Tid)

  function Move(s: State, t: Tid, l: nat, pc: PC): State
    requires t < |s.pcs|
  {
    s.(l := l, pcs := s.pcs[t := pc])
  }

  /** `1UL << i`, converted to the word; the shift is of 64 bits. */
  function Mask(width: nat, i: nat): nat { if i < width then Pow2(i) else 0 }

  /** `Holding` runs as unlock; lock is try_lock again and again. */
  function Advance(s: State, t: Tid): State
    requires t < |s.pcs|
  {
    match s.pcs[t]
    case Idle => s
    case Test(i) => Move(s, t, s.l, if Bit(s.l, i) then Idle else Set(i))
    case Set(i) => Move(s, t, Or(s.l, Mask(s.width, i)), if Bit(s.l, i) then Idle else Holding(i))
    case Holding(i) => Move(s, t, Xor(s.l, Mask(s.width, i)), Idle)
  }

  function Next(s: State, e: Event): State {
    if e.t >= |s.pcs| then s
    else
      match e
      case TryLock(t, i) => if s.pcs[t].Idle? && i < 64 then Move(s, t, s.l, Test(i)) else s
      case Run(t) => Advance(s, t)
  }

  function Exec(s: State, es: seq<Event>): State {
    if es == [] then s else Next(Exec(s, es[..|es| - 1]), es[|es| - 1])
  }

  predicate Initial(s: State) { s.width <= 64 && s.l == 0 && forall t: Tid :: t < |s.pcs| ==> s.pcs[t] == Idle }

  /** A bit is set exactly while one thread, and only one, holds its lock; what is no bit of the word is
      never set. */
  ghost predicate Inv(s: State) {
    && (forall i: nat :: Bit(s.l, i) <==> i < s.width && exists t: Tid :: t < |s.pcs| && s.pcs[t] == Holding(i))
    && (forall t: Tid, u: Tid :: t < u < |s.pcs| && s.pcs[t].Holding? && s.pcs[u].Holding? && s.pcs[t].i < s.width ==>
          s.pcs[t].i != s.pcs[u].i)
  }

  lemma {:induction false} OneBit(i: nat, j: nat)
    ensures Bit(Pow2(i), j) <==> i == j
  {
    if j == 0 {
    } else if i == 0 {
      HighBitsZero(0, 0, j - 1);
    } else {
      OneBit(i - 1, j - 1);
    }
  }

  lemma MaskBit(width: nat, i: nat, j: nat)
    ensures Bit(Mask(width, i), j) <==> i == j < width
  {
    if i < width { OneBit(i, j); } else { HighBitsZero(0, 0, j); }
  }

  lemma XorHalf(x: nat, y: nat)
    ensures Xor(x, y) / 2 == Xor(x / 2, y / 2)
    ensures Xor(x, y) % 2 == 1 <==> x % 2 != y % 2
  {
  }

  lemma {:induction false} XorBit(x: nat, y: nat, i: nat)
    ensures Bit(Xor(x, y), i) <==> Bit(x, i) != Bit(y, i)
  {
    XorHalf(x, y);
    if i == 0 {
      BitZero(Xor(x, y));
      BitZero(x);
      BitZero(y);
    } else {
      BitHalf(Xor(x, y), i);
      BitHalf(x, i);
      BitHalf(y, i);
      XorBit(x / 2, y / 2, i - 1);
    }
  }

  lemma NextKeepsInv(s: State, e: Event)
    requires Inv(s)
    ensures Inv(Next(s, e))
  {
    var r := Next(s, e);
    if e.t < |s.pcs| && r != s {
      var pc := s.pcs[e.t];
      forall j: nat
        ensures Bit(r.l, j) <==> j < r.width && exists t: Tid :: t < |r.pcs| && r.pcs[t] == Holding(j)
      {
        if pc.Set? && e.Run? { MaskBit(s.width, pc.i, j); OrBit(s.l, Mask(s.width, pc.i), j); }
        if pc.Holding? && e.Run? { MaskBit(s.width, pc.i, j); XorBit(s.l, Mask(s.width, pc.i), j); }
        HoldersMove(s, r, e.t, j);
      }
    }
  }

  lemma HoldersMove(s: State, r: State, t: Tid, j: nat)
    requires Inv(s) && t < |s.pcs| && |r.pcs| == |s.pcs| && r.pcs == s.pcs[t := r.pcs[t]]
    ensures (exists u: Tid :: u < |r.pcs| && r.pcs[u] == Holding(j)) <==>
            r.pcs[t] == Holding(j) || exists u: Tid :: u < |s.pcs| && u != t && s.pcs[u] == Holding(j)
  {
    if u: Tid :| u < |s.pcs| && s.pcs[u] == Holding(j) && u != t {
      assert r.pcs[u] == Holding(j);
    }
  }

  lemma {:induction false} ExecKeepsInv(s: State, es: seq<Event>)
    requires Initial(s)
    ensures Inv(Exec(s, es))
  {
    if es == [] {
      forall i: nat ensures !Bit(0, i) { HighBitsZero(0, 0, i); }
    } else {
      ExecKeepsInv(s, es[..|es| - 1]);
      NextKeepsInv(Exec(s, es[..|es| - 1]), es[|es| - 1]);
    }
  }

  /** Each bit of the word is a mutual exclusion of its own: holders of different bits do not disturb each
      other. */
  lemma BitsExclude(s0: State, es: seq<Event>, t: Tid, u: Tid)
    requires Initial(s0)
    requires var s := Exec(s0, es);
             t < u < |s.pcs| && s.pcs[t].Holding? && s.pcs[u].Holding? && s.pcs[t].i < s.width && s.pcs[u].i < s.width
    ensures var s := Exec(s0, es);
            s.pcs[t].i != s.pcs[u].i && Bit(s.l, s.pcs[t].i) && Bit(s.l, s.pcs[u].i)
  {
    ExecKeepsInv(s0, es);
  }

  /** An attempt gets lock `i` exactly if nobody holds it, or if it is no bit of the word. */
  lemma GetsExactly(s0: State, es: seq<Event>, t: Tid)
    requires Initial(s0) && t < |Exec(s0, es).pcs| && (Exec(s0, es).pcs[t].Test? || Exec(s0, es).pcs[t].Set?)
    ensures var s, r := Exec(s0, es), Next(Exec(s0, es), Run(t));
            var i := s.pcs[t].i;
            var held := i < s.width && exists u: Tid :: u < |s.pcs| && s.pcs[u] == Holding(i);
            && |r.pcs| == |s.pcs|
            && r.pcs[t] == if held then Idle else if s.pcs[t].Test? then Set(i) else Holding(i)
  {
    ExecKeepsInv(s0, es);
  }

  /** A thread that asks for a lock that nobody holds, with no step of another thread between, gets it, and the
      unlock gives the word back as it was. */
  lemma LocksAlone(s0: State, es: seq<Event>, t: Tid, i: nat)
    requires Initial(s0) && t < |Exec(s0, es).pcs| && Exec(s0, es).pcs[t] == Idle && i < s0.width
    requires forall u: Tid :: u < |Exec(s0, es).pcs| ==> Exec(s0, es).pcs[u] != Holding(i)
    ensures var s := Exec(s0, es);
            var r := Next(Next(Next(s, TryLock(t, i)), Run(t)), Run(t));
            r.pcs == s.pcs[t := Holding(i)] && Next(r, Run(t)) == s
  {
    ExecKeepsInv(s0, es);
    SameWidth(s0, es);
    var s := Exec(s0, es);
    assert Next(s, TryLock(t, i)) == Move(s, t, s.l, Test(i));
    assert Next(Move(s, t, s.l, Test(i)), Run(t)) == Move(s, t, s.l, Set(i));
    var r := Next(Move(s, t, s.l, Set(i)), Run(t));
    SetAndClear(s.l, s.width, i);
    assert Next(r, Run(t)).pcs == s.pcs;
  }

  lemma SetAndClear(l: nat, width: nat, i: nat)
    requires i < width && !Bit(l, i)
    ensures Xor(Or(l, Mask(width, i)), Mask(width, i)) == l
  {
    var m := Mask(width, i);
    forall j: nat ensures Bit(Xor(Or(l, m), m), j) == Bit(l, j) {
      MaskBit(width, i, j);
      OrBit(l, m, j);
      XorBit(Or(l, m), m, j);
    }
    BitsDetermine(Xor(Or(l, m), m), l);
  }

  lemma ExecPlus(s: State, es: seq<Event>, e: Event)
    ensures Exec(s, es + [e]) == Next(Exec(s, es), e)
  {
    assert (es + [e])[..|es|] == es;
  }

  /** A lock that is no bit of the word is given to whoever asks. */
  lemma AlwaysFree(s: State, es: seq<Event>, t: Tid, i: nat) returns (es': seq<Event>)
    requires Inv(Exec(s, es)) && t < |Exec(s, es).pcs| && Exec(s, es).pcs[t].Idle? && Exec(s, es).width <= i < 64
    ensures Exec(s, es').pcs == Exec(s, es).pcs[t := Holding(i)]
  {
    var es1 := es + [TryLock(t, i)];
    var es2 := es1 + [Run(t)];
    es' := es2 + [Run(t)];
    ExecPlus(s, es, TryLock(t, i));
    ExecPlus(s, es1, Run(t));
    ExecPlus(s, es2, Run(t));
    FreeCall(Exec(s, es), t, i);
  }

  lemma FreeCall(r: State, t: Tid, i: nat)
    requires Inv(r) && t < |r.pcs| && r.pcs[t].Idle? && r.width <= i < 64
    ensures Next(Next(Next(r, TryLock(t, i)), Run(t)), Run(t)).pcs == r.pcs[t := Holding(i)]
  {
    assert !Bit(r.l, i);
    assert Next(r, TryLock(t, i)) == Move(r, t, r.l, Test(i));
    assert Next(Move(r, t, r.l, Test(i)), Run(t)) == Move(r, t, r.l, Set(i));
  }

  lemma BothHold(s: State, i: nat) returns (es: seq<Event>)
    requires Initial(s) && |s.pcs| >= 2 && s.width <= i < 64
    ensures var r := Exec(s, es); |r.pcs| >= 2 && r.pcs[0] == r.pcs[1] == Holding(i)
  {
    var a: seq<Event> := [];
    ExecKeepsInv(s, a);
    var b := AlwaysFree(s, a, 0, i);
    ExecKeepsInv(s, b);
    SameWidth(s, b);
    es := AlwaysFree(s, b, 1, i);
  }

  predicate Excludes(s: State, i: nat) {
    forall t: Tid, u: Tid :: t < u < |s.pcs| && s.pcs[t] == Holding(i) ==> s.pcs[u] != Holding(i)
  }

  /** Lock `i` is exclusive in all runs of two or more threads exactly if it is a bit of the word. */
  lemma ExclusiveExactly(s0: State, i: nat)
    requires Initial(s0) && |s0.pcs| >= 2 && i < 64
    ensures (forall es :: Excludes(Exec(s0, es), i)) <==> i < s0.width
  {
    if i < s0.width {
      forall es ensures Excludes(Exec(s0, es), i) { ExecKeepsInv(s0, es); SameWidth(s0, es); }
    } else {
      var es := BothHold(s0, i);
      assert !Excludes(Exec(s0, es), i);
    }
  }

  lemma {:induction false} SameWidth(s: State, es: seq<Event>)
    ensures Exec(s, es).width == s.width && |Exec(s, es).pcs| == |s.pcs|
  {
    if es != [] { SameWidth(s, es[..|es| - 1]); }
  }
}
