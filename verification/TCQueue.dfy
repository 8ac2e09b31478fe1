/** TCQueue::task_enqueue (tcq.h:134-145, 174-289): one caller leads a batch, the others follow, and a
    shared mutex taken and released by the leader is the barrier between them.  One shared access of
    one thread per step; the mutex is the machine of `SharedMutex`, called by these steps.

    A task, its uid and its promise travel together and are represented by the number of the call.
    `leader`, `claimed`, `claimer`, `confirmed`, `over`, `batches`, `spot` and `callers` are history
    variables. */
module TCQueue {
  import opened Counting
  import opened Options
  import SM = SharedMutex

  type Tid = nat

  datatype Slot = Empty | Full(id: nat)

  /** `id` is the call, `idx` its place in the queues, `ver` the version a follower read.  Versions are
      unbounded here; the program has their low 8 bits. */
  datatype PC =
    | Idle
    | TryTest(id: nat)                    // en_lck.try_lock
    | TrySet(id: nat)
    // the leader
    | ZeroCount(id: nat)
    | ZeroTry(id: nat)
    | Install(id: nat)
    | NewVersion(id: nat)
    | LeadReady(id: nat)
    | MakeValid(id: nat, idx: nat)
    | LeadWrite(id: nat, idx: nat)
    | LeadConfirm(id: nat, idx: nat)
    | Poll(id: nat)
    | MakeInvalid(id: nat)
    | BarrierLock(id: nat)
    | BarrierUnlock(id: nat)
    | ReadLength(id: nat)
    | TakeBatch(id: nat, len: nat)
    | Resign(id: nat)
    // a follower
    | TestValid(id: nat)
    | Enter(id: nat)
    | TestAgain(id: nat)
    | Back(id: nat)
    | Ready(id: nat)
    | Write(id: nat, idx: nat)
    | Confirm(id: nat, idx: nat)
    | Leave(id: nat)
    | FullVersion(id: nat)
    | FullLeave(id: nat, ver: nat)
    | FullValid(id: nat, ver: nat)
    | FullTest(id: nat, ver: nat)

  datatype State = State(
    max: nat,
    en: nat,
    wlck: SM.State,
    valid: bool,
    ver: nat,
    count: nat,
    tryCount: nat,
    slots: seq<Slot>,
    pcs: seq<PC>,
    leader: Option<Tid>,
    claimed: seq<nat>,       // the calls that got a place in the open batch, by place
    claimer: seq<Tid>,       // and their threads
    confirmed: set<nat>,     // the places whose threads have confirmed
    over: set<Tid>,          // the threads that asked for a place of this batch in vain
    batches: seq<seq<Slot>>,
    spot: map<nat, (nat, nat)>,   // batch and place of every call that got one
    callers: seq<Tid>)       // the thread of every call made

  datatype Event = Enqueue(t: Tid) | Run(t: Tid, fail: bool, timeout: bool)

  // ---------------------------------------------------------------- the machine

  function Move(s: State, t: Tid, pc: PC): State
    requires t < |s.pcs|
  {
    s.(pcs := s.pcs[t := pc])
  }

  /** The mutex word and modulus are those of `SharedMutex`. */
  predicate Usable(wlck: SM.State) { wlck.l < wlck.modulus && wlck.modulus > 2 && wlck.modulus % 2 == 0 }

  /** enqueue_ready, with a place to be had. */
  function Claim(s: State, t: Tid, id: nat, pc: PC): State
    requires t < |s.pcs|
  {
    Move(s.(count := s.count + 1, claimed := s.claimed + [id], claimer := s.claimer + [t],
            spot := s.spot[id := (|s.batches|, |s.claimed|)]), t, pc)
  }

  /** Without one. */
  function Refuse(s: State, t: Tid, pc: PC): State
    requires t < |s.pcs|
  {
    Move(s.(count := s.count + 1, over := s.over + {t}), t, pc)
  }

  function Put(s: State, t: Tid, idx: nat, id: nat, pc: PC): State
    requires t < |s.pcs|
  {
    Move(if idx < |s.slots| then s.(slots := s.slots[idx := Full(id)]) else s, t, pc)
  }

  function Confirmed(s: State, t: Tid, idx: nat, pc: PC): State
    requires t < |s.pcs|
  {
    Move(s.(tryCount := s.tryCount + 1, confirmed := s.confirmed + {idx}), t, pc)
  }

  /** A step of the mutex, after which the thread goes on if the mutex let it. */
  function Lock(s: State, t: Tid, fail: bool, done: SM.PC, pc: PC): (r: State)
    requires t < |s.pcs| && Usable(s.wlck)
    ensures Usable(r.wlck)
  {
    var w := SM.Next(s.wlck, SM.Run(t, fail));
    if t < |w.pcs| && w.pcs[t] == done then Move(s.(wlck := w), t, pc) else s.(wlck := w)
  }

  function CallLock(s: State, t: Tid, op: SM.Op, pc: PC): (r: State)
    requires t < |s.pcs| && Usable(s.wlck)
    ensures Usable(r.wlck)
  {
    Move(s.(wlck := SM.Next(s.wlck, SM.Call(t, op))), t, pc)
  }

  /** task_enqueue up to `queue_valid = true`, lines 180-201. */
  function LeadIn(s: State, t: Tid, pc: PC): (r: State)
    requires t < |s.pcs|
    ensures r.wlck == s.wlck && |r.pcs| == |s.pcs| && r.batches == s.batches
  {
    match pc
    case TryTest(id) => Move(s, t, if s.en % 2 == 1 then TestValid(id) else TrySet(id))
    case TrySet(id) =>
      if s.en % 2 == 1 then Move(s, t, TestValid(id))
      else Move(s.(en := s.en + 1, leader := Some(t)), t, ZeroCount(id))
    case ZeroCount(id) =>
      Move(s.(count := 0, claimed := [], claimer := [], confirmed := {}, over := {}), t, ZeroTry(id))
    case ZeroTry(id) => Move(s.(tryCount := 0), t, Install(id))
    case Install(id) => Move(s.(slots := seq(s.max, _ => Empty)), t, NewVersion(id))
    case NewVersion(id) => Move(s.(ver := s.ver + 1), t, LeadReady(id))
    case LeadReady(id) =>
      // The code uses the result without a test.
      if s.count < s.max then Claim(s, t, id, MakeValid(id, s.count)) else Refuse(s, t, Poll(id))
    case MakeValid(id, idx) => Move(s.(valid := true), t, LeadWrite(id, idx))
    case _ => s
  }

  /** The rest of the leader's part, lines 207-235. */
  function LeadOut(s: State, t: Tid, pc: PC, fail: bool, timeout: bool): (r: State)
    requires t < |s.pcs| && Usable(s.wlck)
    ensures Usable(r.wlck) && |r.pcs| == |s.pcs| && s.batches <= r.batches
  {
    match pc
    case LeadWrite(id, idx) => Put(s, t, idx, id, LeadConfirm(id, idx))
    case LeadConfirm(id, idx) => Confirmed(s, t, idx, Poll(id))
    case Poll(id) => if timeout || s.tryCount >= s.max then Move(s, t, MakeInvalid(id)) else s
    case MakeInvalid(id) => CallLock(s.(valid := false), t, SM.Lock, BarrierLock(id))
    case BarrierLock(id) => Lock(s, t, fail, SM.Writing, BarrierUnlock(id))
    case BarrierUnlock(id) => Lock(s, t, fail, SM.Idle, ReadLength(id))
    case ReadLength(id) => Move(s, t, TakeBatch(id, s.tryCount))
    case TakeBatch(id, len) =>
      Move(s.(batches := s.batches + [if len <= |s.slots| then s.slots[..len] else s.slots], slots := [],
              claimed := [], claimer := [], confirmed := {}), t, Resign(id))
    case Resign(id) => Move(s.(en := if s.en % 2 == 1 then s.en - 1 else s.en + 1, leader := None), t, Idle)
    case _ => s
  }

  /** The versions as bytes. */
  predicate SameByte(a: nat, b: nat) { a % 256 == b % 256 }

  /** A follower's part, lines 252-286. */
  function Follow(s: State, t: Tid, pc: PC, fail: bool): (r: State)
    requires t < |s.pcs| && Usable(s.wlck)
    ensures Usable(r.wlck) && |r.pcs| == |s.pcs| && r.batches == s.batches
  {
    match pc
    case TestValid(id) => if s.valid then CallLock(s, t, SM.LockShared, Enter(id)) else Move(s, t, TryTest(id))
    case Enter(id) => Lock(s, t, fail, SM.Reading, TestAgain(id))
    case TestAgain(id) => Move(s, t, if s.valid then Ready(id) else Back(id))
    case Back(id) => Lock(s, t, fail, SM.Idle, TryTest(id))
    case Ready(id) =>
      if s.count < s.max then Claim(s, t, id, Write(id, s.count)) else Refuse(s, t, FullVersion(id))
    case Write(id, idx) => Put(s, t, idx, id, Confirm(id, idx))
    case Confirm(id, idx) => Confirmed(s, t, idx, Leave(id))
    case Leave(id) => Lock(s, t, fail, SM.Idle, Idle)
    case FullVersion(id) => Move(s, t, FullLeave(id, s.ver))
    case FullLeave(id, ver) => Lock(s, t, fail, SM.Idle, FullValid(id, ver))
    case FullValid(id, ver) => Move(s, t, if s.valid then FullTest(id, ver) else TryTest(id))
    case FullTest(id, ver) => Move(s, t, if SameByte(ver, s.ver) then FullValid(id, ver) else TryTest(id))
    case _ => s
  }

  predicate LeadsIn(pc: PC) {
    pc.TryTest? || pc.TrySet? || pc.ZeroCount? || pc.ZeroTry? || pc.Install? || pc.NewVersion? ||
    pc.LeadReady? || pc.MakeValid?
  }

  predicate LeadsOut(pc: PC) {
    pc.LeadWrite? || pc.LeadConfirm? || pc.Poll? || pc.MakeInvalid? || pc.BarrierLock? ||
    pc.BarrierUnlock? || pc.ReadLength? || pc.TakeBatch? || pc.Resign?
  }

  function Next(s: State, e: Event): (r: State)
    requires Usable(s.wlck)
    ensures Usable(r.wlck) && |r.pcs| == |s.pcs| && s.batches <= r.batches
  {
    if e.t >= |s.pcs| then s
    else
      match e
      case Enqueue(t) =>
        if s.pcs[t].Idle? then Move(s.(callers := s.callers + [t]), t, TryTest(|s.callers|)) else s
      case Run(t, fail, timeout) =>
        if LeadsIn(s.pcs[t]) then LeadIn(s, t, s.pcs[t])
        else if LeadsOut(s.pcs[t]) then LeadOut(s, t, s.pcs[t], fail, timeout)
        else Follow(s, t, s.pcs[t], fail)
  }

  function Exec(s: State, es: seq<Event>): (r: State)
    requires Usable(s.wlck)
    ensures Usable(r.wlck) && |r.pcs| == |s.pcs|
  {
    if es == [] then s else Next(Exec(s, es[..|es| - 1]), es[|es| - 1])
  }

  /** A new queue with room for a task, a one-byte barrier mutex and at most 128 threads. */
  ghost predicate Initial(s: State) {
    && s.max >= 1 && s.en == 0 && !s.valid && s.leader == None
    && SM.Initial(s.wlck) && s.wlck.modulus == 256 && |s.wlck.pcs| == |s.pcs|
    && s.claimed == [] && s.claimer == [] && s.confirmed == {} && s.over == {}
    && s.batches == [] && s.spot == map[] && s.callers == []
    && forall t: Tid :: t < |s.pcs| ==> s.pcs[t] == Idle
  }

  // ---------------------------------------------------------------- the invariant

  predicate Leads(pc: PC) { LeadsOut(pc) || (LeadsIn(pc) && !pc.TryTest? && !pc.TrySet?) }

  /** The batch is open to followers. */
  predicate Open(pc: PC) { pc.LeadWrite? || pc.LeadConfirm? || pc.Poll? || pc.MakeInvalid? }

  /** A follower that may still touch the queues. */
  predicate Inside(pc: PC) { pc.Ready? || pc.Write? || pc.Confirm? }

  /** The thread has a place in the open batch and has not confirmed it. */
  predicate HasPlace(pc: PC) {
    pc.MakeValid? || pc.LeadWrite? || pc.LeadConfirm? || pc.Write? || pc.Confirm?
  }

  predicate Written(pc: PC) { pc.LeadConfirm? || pc.Confirm? }

  /** A follower that counts on the open batch: it holds the mutex and has not given it up. */
  predicate Within(pc: PC) { Inside(pc) || pc.FullVersion? }

  /** The call has no place yet. */
  predicate Unplaced(pc: PC) {
    (LeadsIn(pc) && !pc.MakeValid?) || pc.TestValid? || pc.Enter? || pc.TestAgain? || pc.Back? || pc.Ready? ||
    pc.FullVersion? || pc.FullLeave? || pc.FullValid? || pc.FullTest?
  }

  predicate AwaitsNext(pc: PC) { pc.FullVersion? || HasVersion(pc) }

  predicate HasVersion(pc: PC) { pc.FullLeave? || pc.FullValid? || pc.FullTest? }

  /** Where the barrier mutex has the thread. */
  predicate Link(pc: PC, w: SM.PC) {
    match pc
    case BarrierLock(_) => w == SM.CasWriter(false)
    case BarrierUnlock(_) => w == SM.Writing
    case Enter(_) => w == SM.AddReader(false) || w == SM.AwaitWriter
    case TestAgain(_) | Back(_) | Ready(_) | Leave(_) | FullVersion(_) => w == SM.Reading
    case Write(_, _) | Confirm(_, _) | FullLeave(_, _) => w == SM.Reading
    case _ => w == SM.Idle
  }

  ghost predicate LockInv(s: State) {
    && SM.Inv(s.wlck) && |s.wlck.pcs| == |s.pcs|
    && forall t: Tid {:trigger s.pcs[t]} :: t < |s.pcs| ==> Link(s.pcs[t], s.wlck.pcs[t])
  }

  function LeaderPc(s: State): PC {
    if s.leader.Some? && s.leader.value < |s.pcs| then s.pcs[s.leader.value] else Idle
  }

  ghost predicate LeadInv(s: State) {
    && s.en == (if s.leader.Some? then 1 else 0)
    && (s.leader.Some? ==> s.leader.value < |s.pcs|)
    && (forall t: Tid :: t < |s.pcs| ==> (Leads(s.pcs[t]) <==> s.leader == Some(t)))
    && (s.valid <==> Open(LeaderPc(s)))
    && (forall t: Tid :: t < |s.pcs| && Within(s.pcs[t]) ==> Open(LeaderPc(s)) || LeaderPc(s).BarrierLock?)
  }

  /** The counters and queues, by the leader's place. */
  ghost predicate EraInv(s: State) {
    && s.max >= 1 && |s.claimed| == |s.claimer|
    && (match LeaderPc(s)
        case ZeroTry(_) => s.claimed == [] && s.count == 0 && s.over == {}
        case Install(_) => s.claimed == [] && s.count == 0 && s.over == {} && s.tryCount == 0
        case NewVersion(_) | LeadReady(_) =>
          s.claimed == [] && s.count == 0 && s.over == {} && s.tryCount == 0 && |s.slots| == s.max
        case MakeValid(_, _) => Counted(s) && s.over == {}
        case LeadWrite(_, _) | LeadConfirm(_, _) | Poll(_) => Counted(s)
        case MakeInvalid(_) | BarrierLock(_) | BarrierUnlock(_) | ReadLength(_) => Counted(s)
        case TakeBatch(_, len) => Counted(s) && len == |s.claimed|
        case _ => s.claimed == [])
    && (s.claimed == [] ==> s.confirmed == {})
    && (forall i :: i in s.confirmed ==> i < |s.claimed|)
  }

  /** The claim counter counts the places given and the refusals, the confirmation counter the
      confirmed places. */
  ghost predicate Counted(s: State) {
    && s.count == |s.claimed| + |s.over| && |s.claimed| <= s.max && |s.slots| == s.max
    && s.tryCount == |s.confirmed|
    && (s.over != {} ==> |s.claimed| == s.max)
  }

  ghost predicate PlaceOk(s: State, t: Tid, pc: PC) {
    HasPlace(pc) ==>
      && pc.idx < |s.claimed| && pc.idx < |s.claimer| && s.claimed[pc.idx] == pc.id && s.claimer[pc.idx] == t
      && pc.idx !in s.confirmed
      && (Written(pc) ==> pc.idx < |s.slots| && s.slots[pc.idx] == Full(pc.id))
  }

  /** A place is confirmed and written, or its thread still holds it. */
  ghost predicate ClaimOk(s: State, i: nat) {
    i < |s.claimed| && i < |s.claimer| ==>
      if i in s.confirmed then i < |s.slots| && s.slots[i] == Full(s.claimed[i])
      else s.claimer[i] < |s.pcs| && HasPlace(s.pcs[s.claimer[i]]) && s.pcs[s.claimer[i]].idx == i
  }

  ghost predicate PlacesInv(s: State) {
    && (forall t: Tid {:trigger PlaceOk(s, t, s.pcs[t])} :: t < |s.pcs| ==> PlaceOk(s, t, s.pcs[t]))
    && (forall i: nat {:trigger ClaimOk(s, i)} :: ClaimOk(s, i))
  }

  /** The thread is in its call `id`. */
  predicate Calls(s: State, t: Tid, id: nat) { t < |s.pcs| && s.pcs[t] != Idle && s.pcs[t].id == id }

  ghost predicate IdsInv(s: State) {
    && (forall id :: id in s.spot ==> id < |s.callers|)
    && (forall id :: 0 <= id < |s.callers| ==> id in s.spot || Calls(s, s.callers[id], id))
    && (forall t: Tid :: t < |s.pcs| && s.pcs[t] != Idle ==> s.pcs[t].id < |s.callers| && s.callers[s.pcs[t].id] == t)
    && (forall t: Tid :: t < |s.pcs| && s.pcs[t] != Idle ==> (s.pcs[t].id in s.spot <==> !Unplaced(s.pcs[t])))
  }

  /** Every placed call sits at its spot, in a closed batch or in the open one, and nothing else sits
      anywhere. */
  ghost predicate SpotsInv(s: State) {
    && (forall id :: id in s.spot ==> SpotOk(s, id, s.spot[id].0, s.spot[id].1))
    && (forall e, i :: 0 <= e < |s.batches| && 0 <= i < |s.batches[e]| ==>
          s.batches[e][i].Full? && s.batches[e][i].id in s.spot && s.spot[s.batches[e][i].id] == (e, i))
    && (forall i :: 0 <= i < |s.claimed| ==> s.claimed[i] in s.spot && s.spot[s.claimed[i]] == (|s.batches|, i))
  }

  predicate SpotOk(s: State, id: nat, e: nat, i: nat) {
    if e < |s.batches| then i < |s.batches[e]| && s.batches[e][i] == Full(id)
    else e == |s.batches| && i < |s.claimed| && s.claimed[i] == id
  }

  /** A thread refused by the open batch waits for the next one. */
  ghost predicate OverInv(s: State) {
    && (forall t :: t in s.over ==> t < |s.pcs|)
    && (forall t: Tid :: t < |s.pcs| && t in s.over ==>
          !Inside(s.pcs[t]) &&
          (s.valid ==> AwaitsNext(s.pcs[t]) && (!s.pcs[t].FullVersion? ==> s.pcs[t].ver == s.ver)))
  }

  /** A batch is open, or opened for the first time with its version. */
  predicate Accepting(s: State) { s.valid || LeaderPc(s).LeadReady? || LeaderPc(s).MakeValid? }

  /** A thread with the current version was refused by the current batch. */
  ghost predicate VersionOk(s: State, t: Tid, pc: PC) {
    && (pc.FullVersion? ==> t in s.over)
    && (HasVersion(pc) ==> pc.ver <= s.ver && (pc.ver == s.ver && Accepting(s) ==> t in s.over))
  }

  ghost predicate VersionsInv(s: State) {
    forall t: Tid {:trigger VersionOk(s, t, s.pcs[t])} :: t < |s.pcs| ==> VersionOk(s, t, s.pcs[t])
  }

  ghost predicate Inv(s: State) {
    && LockInv(s) && LeadInv(s) && EraInv(s) && PlacesInv(s) && IdsInv(s) && SpotsInv(s) && OverInv(s)
    && VersionsInv(s)
  }

  // ---------------------------------------------------------------- steps of the mutex and of one thread

  /** The leader gathers the batch, or has closed it and not taken it. */
  predicate Gathers(pc: PC) {
    pc.LeadWrite? || pc.LeadConfirm? || pc.Poll? || pc.MakeInvalid? || pc.BarrierLock? || pc.BarrierUnlock? ||
    pc.ReadLength?
  }

  ghost predicate NoneInside(s: State) { forall t: Tid :: t < |s.pcs| ==> !Within(s.pcs[t]) }

  /** What a step of the mutex by `t` leaves. */
  ghost predicate LockStep(s: State, w: SM.State, t: Tid) {
    && t < |s.pcs| && SM.Inv(w) && |w.pcs| == |s.pcs| && |s.wlck.pcs| == |s.pcs|
    && forall u: Tid :: u < |s.pcs| && u != t ==> w.pcs[u] == s.wlck.pcs[u]
  }

  function Go(s: State, t: Tid, w: SM.State, v: bool, pc: PC): State
    requires t < |s.pcs|
  {
    Move(s.(wlck := w, valid := v), t, pc)
  }

  /** Thread `t` goes from one place to another of the same standing, where the leader may close the
      batch and a call may end. */
  lemma GoKeeps(s: State, t: Tid, w: SM.State, v: bool, pc: PC)
    requires Inv(s) && LockStep(s, w, t) && Link(pc, w.pcs[t])
    requires s.pcs[t] != Idle && (pc != Idle ==> pc.id == s.pcs[t].id)
    requires !HasPlace(pc) && !HasPlace(s.pcs[t]) && (Unplaced(pc) <==> Unplaced(s.pcs[t]))
    requires Leads(pc) <==> Leads(s.pcs[t])
    requires Leads(pc) ==> Gathers(pc) && Gathers(s.pcs[t]) && (v <==> Open(pc)) && (v ==> s.valid)
    requires Leads(pc) ==> Open(pc) || pc.BarrierLock? || NoneInside(s)
    requires !Leads(pc) ==> v == s.valid
    requires Inside(pc) && !Inside(s.pcs[t]) ==> v && t !in s.over
    requires t in s.over && v ==> AwaitsNext(pc) && (!pc.FullVersion? ==> pc.ver == s.ver)
    requires VersionOk(s, t, pc) && !pc.FullVersion?
    ensures Inv(Go(s, t, w, v, pc))
  {
    var r := Go(s, t, w, v, pc);
    GoKeepsLeader(s, t, w, v, pc);
    GoKeepsOver(s, t, w, v, pc);
    VersionsKept(s, r, t);
    PlacesKept(s, r, t);
    IdsKept(s, r, t);
    SpotsKept(s, r);
  }

  lemma VersionsKept(s: State, r: State, t: Tid)
    requires VersionsInv(s) && t < |s.pcs| == |r.pcs| && r.pcs == s.pcs[t := r.pcs[t]]
    requires s.over <= r.over && r.ver == s.ver && (Accepting(r) ==> Accepting(s))
    requires VersionOk(s, t, r.pcs[t]) || VersionOk(r, t, r.pcs[t])
    ensures VersionsInv(r)
  {
    forall u: Tid | u < |r.pcs| ensures VersionOk(r, u, r.pcs[u]) {
      if u != t { assert VersionOk(s, u, s.pcs[u]); }
    }
  }

  lemma GoKeepsOver(s: State, t: Tid, w: SM.State, v: bool, pc: PC)
    requires OverInv(s) && t < |s.pcs| && (v ==> s.valid) && (Inside(pc) && !Inside(s.pcs[t]) ==> v && t !in s.over)
    requires t in s.over && v ==> AwaitsNext(pc) && (!pc.FullVersion? ==> pc.ver == s.ver)
    ensures OverInv(Go(s, t, w, v, pc))
  {
  }

  lemma GoKeepsLeader(s: State, t: Tid, w: SM.State, v: bool, pc: PC)
    requires EraInv(s) && LeadInv(s) && t < |s.pcs|
    requires Leads(pc) <==> Leads(s.pcs[t])
    requires Leads(pc) ==> Gathers(pc) && Gathers(s.pcs[t]) && (v <==> Open(pc)) && (v ==> s.valid)
    requires Leads(pc) ==> Open(pc) || pc.BarrierLock? || NoneInside(s)
    requires !Leads(pc) ==> v == s.valid
    requires Within(pc) && !Within(s.pcs[t]) ==> v
    ensures EraInv(Go(s, t, w, v, pc)) && LeadInv(Go(s, t, w, v, pc))
  {
  }

  /** Calls keep their numbers and their standing. */
  lemma IdsKept(s: State, r: State, t: Tid)
    requires IdsInv(s) && t < |s.pcs| == |r.pcs| && r.spot == s.spot && r.callers == s.callers
    requires forall u: Tid :: u < |s.pcs| && u != t ==> r.pcs[u] == s.pcs[u]
    requires s.pcs[t] != Idle && (r.pcs[t] != Idle ==> r.pcs[t].id == s.pcs[t].id)
    requires Unplaced(r.pcs[t]) <==> Unplaced(s.pcs[t])
    ensures IdsInv(r)
  {
  }

  lemma SpotsKept(s: State, r: State)
    requires SpotsInv(s) && r.spot == s.spot && r.batches == s.batches && r.claimed == s.claimed
    ensures SpotsInv(r)
  {
    forall id | id in r.spot ensures SpotOk(r, id, r.spot[id].0, r.spot[id].1) {
      assert SpotOk(s, id, s.spot[id].0, s.spot[id].1);
    }
  }

  /** A thread without a place moves and the places stay. */
  lemma PlacesKept(s: State, r: State, t: Tid)
    requires PlacesInv(s) && t < |s.pcs| == |r.pcs|
    requires r.slots == s.slots && r.claimed == s.claimed && r.claimer == s.claimer && r.confirmed == s.confirmed
    requires forall u: Tid :: u < |s.pcs| && u != t ==> r.pcs[u] == s.pcs[u]
    requires !HasPlace(r.pcs[t]) && !HasPlace(s.pcs[t])
    ensures PlacesInv(r)
  {
    forall u: Tid | u < |s.pcs| ensures PlaceOk(r, u, r.pcs[u]) { assert PlaceOk(s, u, s.pcs[u]); }
    forall i: nat ensures ClaimOk(r, i) { assert ClaimOk(s, i); }
  }

  /** Nobody has a place while none is given. */
  lemma PlacesEmpty(s: State, r: State, t: Tid)
    requires PlacesInv(s) && s.claimed == [] && r.claimed == [] && t < |s.pcs| == |r.pcs|
    requires forall u: Tid :: u < |s.pcs| && u != t ==> r.pcs[u] == s.pcs[u]
    requires !HasPlace(r.pcs[t])
    ensures PlacesInv(r)
  {
    forall u: Tid | u < |s.pcs| ensures PlaceOk(r, u, r.pcs[u]) { assert PlaceOk(s, u, s.pcs[u]); }
  }

  // ---------------------------------------------------------------- opening a batch

  lemma BecomeStanding(s: State, t: Tid, id: nat)
    requires LockInv(s) && LeadInv(s) && EraInv(s) && OverInv(s)
    requires t < |s.pcs| && s.pcs[t] == TrySet(id) && s.en % 2 == 0
    ensures var r := Move(s.(en := s.en + 1, leader := Some(t)), t, ZeroCount(id));
            LockInv(r) && LeadInv(r) && EraInv(r) && OverInv(r) && !Accepting(r)
  {
  }

  lemma BecomeLeader(s: State, t: Tid, id: nat)
    requires Inv(s) && t < |s.pcs| && s.pcs[t] == TrySet(id) && s.en % 2 == 0
    ensures Inv(Move(s.(en := s.en + 1, leader := Some(t)), t, ZeroCount(id)))
  {
    var r := Move(s.(en := s.en + 1, leader := Some(t)), t, ZeroCount(id));
    BecomeStanding(s, t, id);
    VersionsKept(s, r, t);
    PlacesKept(s, r, t);
    IdsKept(s, r, t);
    SpotsKept(s, r);
  }

  predicate Prepares(pc: PC) {
    pc.ZeroCount? || pc.ZeroTry? || pc.Install? || pc.NewVersion? || pc.LeadReady?
  }

  /** The leader's steps before the batch has a place. */
  lemma PrepareKeeps(s: State, t: Tid)
    requires Inv(s) && t < |s.pcs| && Prepares(s.pcs[t]) && !s.pcs[t].LeadReady?
    ensures Inv(LeadIn(s, t, s.pcs[t]))
  {
    var r := LeadIn(s, t, s.pcs[t]);
    PrepareStanding(s, t);
    PrepareVersions(s, t);
    PlacesEmpty(s, r, t);
    IdsKept(s, r, t);
    SpotsKept(s, r);
    PrepareEra(s, t);
  }

  lemma PrepareVersions(s: State, t: Tid)
    requires LeadInv(s) && VersionsInv(s) && t < |s.pcs| && Prepares(s.pcs[t]) && !s.pcs[t].LeadReady?
    ensures VersionsInv(LeadIn(s, t, s.pcs[t]))
  {
    var r := LeadIn(s, t, s.pcs[t]);
    assert s.leader == Some(t) && LeaderPc(s) == s.pcs[t] && LeaderPc(r) == r.pcs[t] && NoneInside(s);
    forall u: Tid | u < |r.pcs| ensures VersionOk(r, u, r.pcs[u]) {
      if u != t { assert VersionOk(s, u, s.pcs[u]) && !Within(s.pcs[u]); }
    }
  }

  lemma PrepareStanding(s: State, t: Tid)
    requires LockInv(s) && LeadInv(s) && EraInv(s) && t < |s.pcs| && Prepares(s.pcs[t]) && !s.pcs[t].LeadReady?
    ensures LockInv(LeadIn(s, t, s.pcs[t])) && LeadInv(LeadIn(s, t, s.pcs[t])) && s.claimed == []
  {
    assert s.leader == Some(t) && LeaderPc(s) == s.pcs[t];
  }

  lemma PrepareEra(s: State, t: Tid)
    requires LeadInv(s) && EraInv(s) && t < |s.pcs| && Prepares(s.pcs[t]) && !s.pcs[t].LeadReady?
    ensures EraInv(LeadIn(s, t, s.pcs[t]))
  {
  }

  lemma OpenStanding(s: State, t: Tid, id: nat, idx: nat)
    requires LockInv(s) && LeadInv(s) && EraInv(s) && OverInv(s) && t < |s.pcs| && s.pcs[t] == MakeValid(id, idx)
    ensures var r := Move(s.(valid := true), t, LeadWrite(id, idx));
            LockInv(r) && LeadInv(r) && EraInv(r) && OverInv(r) && Accepting(s)
  {
    Leading(s, t);
  }

  /** The leader's place, and what it says of the others. */
  lemma Leading(s: State, t: Tid)
    requires LeadInv(s) && t < |s.pcs| && Leads(s.pcs[t])
    ensures s.leader == Some(t) && LeaderPc(s) == s.pcs[t] && (s.valid <==> Open(s.pcs[t]))
    ensures !Open(s.pcs[t]) && !s.pcs[t].BarrierLock? ==> NoneInside(s)
  {
  }

  lemma OpenBatch(s: State, t: Tid, id: nat, idx: nat)
    requires Inv(s) && t < |s.pcs| && s.pcs[t] == MakeValid(id, idx)
    ensures Inv(Move(s.(valid := true), t, LeadWrite(id, idx)))
  {
    var r := Move(s.(valid := true), t, LeadWrite(id, idx));
    OpenStanding(s, t, id, idx);
    forall u: Tid | u < |s.pcs| ensures PlaceOk(r, u, r.pcs[u]) { assert PlaceOk(s, u, s.pcs[u]); }
    forall i: nat ensures ClaimOk(r, i) { assert ClaimOk(s, i); }
    VersionsKept(s, r, t);
    IdsKept(s, r, t);
    SpotsKept(s, r);
  }

  // ---------------------------------------------------------------- places

  predicate Asks(pc: PC) { pc.LeadReady? || pc.Ready? }

  function Given(pc: PC, idx: nat): PC
    requires Asks(pc)
  {
    if pc.LeadReady? then MakeValid(pc.id, idx) else Write(pc.id, idx)
  }

  /** A thread that asks finds the counters right, whether it leads or follows. */
  lemma AskCounted(s: State, t: Tid)
    requires LeadInv(s) && EraInv(s) && t < |s.pcs| && Asks(s.pcs[t])
    ensures Counted(s)
    ensures s.count < s.max <==> |s.claimed| < s.max
    ensures s.count < s.max ==> s.over == {} && s.count == |s.claimed|
    ensures s.pcs[t].LeadReady? ==> s.count < s.max && LeaderPc(s) == s.pcs[t]
    ensures s.pcs[t].Ready? ==> s.leader != Some(t) && (Open(LeaderPc(s)) || LeaderPc(s).BarrierLock?)
  {
  }

  lemma ClaimKeeps(s: State, t: Tid)
    requires Inv(s) && t < |s.pcs| && Asks(s.pcs[t]) && s.count < s.max
    ensures Inv(Claim(s, t, s.pcs[t].id, Given(s.pcs[t], s.count)))
  {
    var id := s.pcs[t].id;
    var r := Claim(s, t, id, Given(s.pcs[t], s.count));
    AskCounted(s, t);
    ClaimStanding(s, t);
    VersionsKept(s, r, t);
    ClaimPlaces(s, t);
    ClaimIds(s, r, t);
    ClaimSpots(s, r, id);
    assert OverInv(r);
  }

  lemma ClaimStanding(s: State, t: Tid)
    requires LockInv(s) && LeadInv(s) && EraInv(s) && t < |s.pcs| && Asks(s.pcs[t]) && s.count < s.max
    ensures var r := Claim(s, t, s.pcs[t].id, Given(s.pcs[t], s.count)); LockInv(r) && LeadInv(r) && EraInv(r) && (Accepting(r) ==> Accepting(s))
  {
    var r := Claim(s, t, s.pcs[t].id, Given(s.pcs[t], s.count));
    AskCounted(s, t);
    assert s.pcs[t].Ready? ==> LeaderPc(r) == LeaderPc(s);
    assert s.pcs[t].LeadReady? ==> s.leader == Some(t) && LeaderPc(r) == r.pcs[t];
    assert LeadInv(r);
    assert Counted(r);
  }

  lemma ClaimPlaces(s: State, t: Tid)
    requires PlacesInv(s) && t < |s.pcs| && Asks(s.pcs[t]) && s.count == |s.claimed| == |s.claimer|
    requires forall i :: i in s.confirmed ==> i < |s.claimed|
    ensures PlacesInv(Claim(s, t, s.pcs[t].id, Given(s.pcs[t], s.count)))
  {
    var r := Claim(s, t, s.pcs[t].id, Given(s.pcs[t], s.count));
    forall u: Tid | u < |s.pcs| ensures PlaceOk(r, u, r.pcs[u]) { assert PlaceOk(s, u, s.pcs[u]); }
    forall i: nat ensures ClaimOk(r, i) { assert ClaimOk(s, i); }
  }

  lemma ClaimIds(s: State, r: State, t: Tid)
    requires IdsInv(s) && t < |s.pcs| && Asks(s.pcs[t]) && r.pcs == s.pcs[t := Given(s.pcs[t], s.count)]
    requires r.callers == s.callers && r.spot == s.spot[s.pcs[t].id := (|s.batches|, |s.claimed|)]
    ensures IdsInv(r) && s.pcs[t].id !in s.spot
  {
  }

  lemma ClaimSpots(s: State, r: State, id: nat)
    requires SpotsInv(s) && id !in s.spot && r.batches == s.batches && r.claimed == s.claimed + [id]
    requires r.spot == s.spot[id := (|s.batches|, |s.claimed|)]
    ensures SpotsInv(r)
  {
    forall x | x in r.spot ensures SpotOk(r, x, r.spot[x].0, r.spot[x].1) {
      if x != id { assert SpotOk(s, x, s.spot[x].0, s.spot[x].1); }
    }
  }

  /** Thread `t` keeps its part in the mutex and in the leadership. */
  lemma StandingKept(s: State, r: State, t: Tid)
    requires LockInv(s) && LeadInv(s) && t < |s.pcs| == |r.pcs| && r.pcs == s.pcs[t := r.pcs[t]]
    requires r.wlck == s.wlck && r.valid == s.valid && r.en == s.en && r.leader == s.leader
    requires Link(r.pcs[t], s.wlck.pcs[t])
    requires Leads(r.pcs[t]) <==> Leads(s.pcs[t])
    requires Leads(r.pcs[t]) ==> Open(r.pcs[t]) && Open(s.pcs[t])
    requires Within(r.pcs[t]) ==> Within(s.pcs[t])
    ensures LockInv(r) && LeadInv(r)
    ensures Gathers(LeaderPc(s)) ==> Gathers(LeaderPc(r))
    ensures Accepting(r) ==> Accepting(s)
  {
  }

  lemma OverKept(s: State, r: State, t: Tid)
    requires OverInv(s) && t < |s.pcs| == |r.pcs| && r.pcs == s.pcs[t := r.pcs[t]] && r.over == s.over
    requires r.valid == s.valid && r.ver == s.ver && !AwaitsNext(s.pcs[t])
    requires Inside(r.pcs[t]) ==> Inside(s.pcs[t])
    ensures OverInv(r)
  {
  }

  lemma EraByCounters(s: State)
    requires s.max >= 1 && |s.claimed| == |s.claimer| && Gathers(LeaderPc(s)) && Counted(s)
    requires (s.claimed == [] ==> s.confirmed == {}) && (forall i :: i in s.confirmed ==> i < |s.claimed|)
    ensures EraInv(s)
  {
  }

  lemma RefuseCounts(s: State, t: Tid)
    requires Counted(s) && OverInv(s) && t < |s.pcs| && s.pcs[t].Ready? && s.count >= s.max
    ensures var r := Refuse(s, t, FullVersion(s.pcs[t].id)); Counted(r) && OverInv(r)
  {
    assert t !in s.over;
  }

  lemma RefuseStanding(s: State, t: Tid)
    requires LockInv(s) && LeadInv(s) && EraInv(s) && OverInv(s) && VersionsInv(s)
    requires t < |s.pcs| && s.pcs[t].Ready? && s.count >= s.max
    ensures var r := Refuse(s, t, FullVersion(s.pcs[t].id));
            LockInv(r) && LeadInv(r) && EraInv(r) && OverInv(r) && VersionsInv(r)
  {
    var r := Refuse(s, t, FullVersion(s.pcs[t].id));
    AskCounted(s, t);
    RefuseCounts(s, t);
    StandingKept(s, r, t);
    VersionsKept(s, r, t);
    EraByCounters(r);
  }

  lemma RefuseKeeps(s: State, t: Tid)
    requires Inv(s) && t < |s.pcs| && s.pcs[t].Ready? && s.count >= s.max
    ensures Inv(Refuse(s, t, FullVersion(s.pcs[t].id)))
  {
    var r := Refuse(s, t, FullVersion(s.pcs[t].id));
    RefuseStanding(s, t);
    PlacesKept(s, r, t);
    IdsKept(s, r, t);
    SpotsKept(s, r);
  }

  predicate Writes(pc: PC) { pc.LeadWrite? || pc.Write? }

  function Onward(pc: PC): PC
    requires Writes(pc) || Written(pc)
  {
    match pc
    case LeadWrite(id, idx) => LeadConfirm(id, idx)
    case Write(id, idx) => Confirm(id, idx)
    case LeadConfirm(id, _) => Poll(id)
    case Confirm(id, _) => Leave(id)
  }

  /** A thread that works at its place changes neither the standing of the threads nor the era. */
  lemma WorkStanding(s: State, r: State, t: Tid)
    requires LockInv(s) && LeadInv(s) && EraInv(s) && OverInv(s) && t < |s.pcs| == |r.pcs| && r.pcs == s.pcs[t := r.pcs[t]]
    requires Writes(s.pcs[t]) || Written(s.pcs[t])
    requires r.pcs[t] == Onward(s.pcs[t])
    requires r.wlck == s.wlck && r.valid == s.valid && r.en == s.en && r.leader == s.leader
    requires r.over == s.over && r.ver == s.ver && r.max == s.max && r.claimed == s.claimed && r.claimer == s.claimer
    requires Counted(r) && forall i :: i in r.confirmed ==> i < |r.claimed|
    requires VersionsInv(s)
    ensures LockInv(r) && LeadInv(r) && EraInv(r) && OverInv(r) && VersionsInv(r)
  {
    WorkEra(s, t);
    StandingKept(s, r, t);
    OverKept(s, r, t);
    VersionsKept(s, r, t);
    EraByCounters(r);
  }

  lemma PutPlaces(s: State, t: Tid)
    requires PlacesInv(s) && t < |s.pcs| && Writes(s.pcs[t]) && |s.claimed| == |s.claimer| <= |s.slots|
    ensures PlacesInv(Put(s, t, s.pcs[t].idx, s.pcs[t].id, Onward(s.pcs[t])))
  {
    var r := Put(s, t, s.pcs[t].idx, s.pcs[t].id, Onward(s.pcs[t]));
    assert PlaceOk(s, t, s.pcs[t]);
    forall u: Tid | u < |s.pcs| ensures PlaceOk(r, u, r.pcs[u]) { assert PlaceOk(s, u, s.pcs[u]); }
    forall i: nat ensures ClaimOk(r, i) { assert ClaimOk(s, i); }
  }

  lemma PutKeeps(s: State, t: Tid)
    requires Inv(s) && t < |s.pcs| && Writes(s.pcs[t])
    ensures Inv(Put(s, t, s.pcs[t].idx, s.pcs[t].id, Onward(s.pcs[t])))
  {
    var r := Put(s, t, s.pcs[t].idx, s.pcs[t].id, Onward(s.pcs[t]));
    assert PlaceOk(s, t, s.pcs[t]);
    WorkEra(s, t);
    PutPlaces(s, t);
    IdsKept(s, r, t);
    SpotsKept(s, r);
    WorkStanding(s, r, t);
  }

  lemma ConfirmPlaces(s: State, t: Tid)
    requires PlacesInv(s) && t < |s.pcs| && Written(s.pcs[t])
    ensures PlacesInv(Confirmed(s, t, s.pcs[t].idx, Onward(s.pcs[t])))
  {
    var r := Confirmed(s, t, s.pcs[t].idx, Onward(s.pcs[t]));
    assert PlaceOk(s, t, s.pcs[t]);
    forall u: Tid | u < |s.pcs| ensures PlaceOk(r, u, r.pcs[u]) { assert PlaceOk(s, u, s.pcs[u]); }
    forall i: nat ensures ClaimOk(r, i) { assert ClaimOk(s, i); }
  }

  lemma ConfirmCounts(s: State, t: Tid)
    requires Counted(s) && t < |s.pcs| && PlaceOk(s, t, s.pcs[t]) && Written(s.pcs[t])
    ensures Counted(Confirmed(s, t, s.pcs[t].idx, Onward(s.pcs[t])))
    ensures s.pcs[t].idx < |s.claimed|
  {
  }

  lemma ConfirmStanding(s: State, t: Tid)
    requires LockInv(s) && LeadInv(s) && EraInv(s) && OverInv(s) && VersionsInv(s) && PlacesInv(s)
    requires t < |s.pcs| && Written(s.pcs[t])
    ensures var r := Confirmed(s, t, s.pcs[t].idx, Onward(s.pcs[t]));
            LockInv(r) && LeadInv(r) && EraInv(r) && OverInv(r) && VersionsInv(r)
  {
    assert PlaceOk(s, t, s.pcs[t]);
    WorkEra(s, t);
    ConfirmCounts(s, t);
    WorkStanding(s, Confirmed(s, t, s.pcs[t].idx, Onward(s.pcs[t])), t);
  }

  lemma ConfirmKeeps(s: State, t: Tid)
    requires Inv(s) && t < |s.pcs| && Written(s.pcs[t])
    ensures Inv(Confirmed(s, t, s.pcs[t].idx, Onward(s.pcs[t])))
  {
    var r := Confirmed(s, t, s.pcs[t].idx, Onward(s.pcs[t]));
    ConfirmStanding(s, t);
    ConfirmPlaces(s, t);
    IdsKept(s, r, t);
    SpotsKept(s, r);
  }

  /** While a thread works at its place the batch is being gathered. */
  lemma WorkEra(s: State, t: Tid)
    requires LeadInv(s) && EraInv(s) && t < |s.pcs| && (Writes(s.pcs[t]) || Written(s.pcs[t]))
    ensures Counted(s) && Gathers(LeaderPc(s)) && |s.slots| == s.max
    ensures Leads(s.pcs[t]) ==> LeaderPc(s) == s.pcs[t]
  {
  }

  // ---------------------------------------------------------------- closing a batch

  predicate Closing(pc: PC) { pc.ReadLength? || pc.TakeBatch? }

  /** Behind the barrier every place is written and confirmed, and the confirmation counter is the
      number of places. */
  lemma BehindBarrier(s: State, t: Tid)
    requires LeadInv(s) && EraInv(s) && PlacesInv(s) && t < |s.pcs| && Closing(s.pcs[t])
    ensures LeaderPc(s) == s.pcs[t] && Counted(s) && NoneInside(s)
    ensures s.tryCount == |s.claimed| && |s.claimed| <= |s.slots|
    ensures forall i :: 0 <= i < |s.claimed| ==> s.slots[i] == Full(s.claimed[i])
    ensures forall u: Tid :: u < |s.pcs| ==> !HasPlace(s.pcs[u])
  {
    assert s.leader == Some(t);
    forall i | 0 <= i < |s.claimed|
      ensures i in s.confirmed && s.slots[i] == Full(s.claimed[i])
    {
      assert ClaimOk(s, i);
    }
    assert s.confirmed == Below(|s.claimed|);
  }

  lemma ReadLengthStanding(s: State, t: Tid, id: nat)
    requires LockInv(s) && LeadInv(s) && EraInv(s) && OverInv(s) && t < |s.pcs| && s.pcs[t] == ReadLength(id)
    requires Counted(s) && s.tryCount == |s.claimed|
    ensures var r := Move(s, t, TakeBatch(id, s.tryCount));
            LockInv(r) && LeadInv(r) && EraInv(r) && OverInv(r) && !Accepting(r)
  {
    Leading(s, t);
    assert LeaderPc(Move(s, t, TakeBatch(id, s.tryCount))) == TakeBatch(id, s.tryCount);
  }

  lemma ReadLengthKeeps(s: State, t: Tid, id: nat)
    requires Inv(s) && t < |s.pcs| && s.pcs[t] == ReadLength(id)
    ensures Inv(Move(s, t, TakeBatch(id, s.tryCount)))
  {
    var r := Move(s, t, TakeBatch(id, s.tryCount));
    BehindBarrier(s, t);
    ReadLengthStanding(s, t, id);
    VersionsKept(s, r, t);
    PlacesKept(s, r, t);
    IdsKept(s, r, t);
    SpotsKept(s, r);
  }

  lemma TakeKeeps(s: State, t: Tid)
    requires Inv(s) && t < |s.pcs| && s.pcs[t].TakeBatch?
    ensures Inv(LeadOut(s, t, s.pcs[t], false, false))
  {
    var r := LeadOut(s, t, s.pcs[t], false, false);
    BehindBarrier(s, t);
    TakeStanding(s, t);
    VersionsKept(s, r, t);
    IdsKept(s, r, t);
    TakeSpots(s, r);
    forall u: Tid | u < |s.pcs| ensures PlaceOk(r, u, r.pcs[u]) { assert PlaceOk(s, u, s.pcs[u]); }
  }

  lemma TakeStanding(s: State, t: Tid)
    requires LockInv(s) && LeadInv(s) && EraInv(s) && OverInv(s) && t < |s.pcs| && s.pcs[t].TakeBatch?
    ensures var r := LeadOut(s, t, s.pcs[t], false, false);
            LockInv(r) && LeadInv(r) && EraInv(r) && OverInv(r) && !Accepting(r)
  {
    assert s.leader == Some(t) && LeaderPc(s) == s.pcs[t];
  }

  lemma TakeSpots(s: State, r: State)
    requires SpotsInv(s) && |s.claimed| <= |s.slots|
    requires forall i :: 0 <= i < |s.claimed| ==> s.slots[i] == Full(s.claimed[i])
    requires r.batches == s.batches + [s.slots[..|s.claimed|]] && r.claimed == [] && r.spot == s.spot
    ensures SpotsInv(r)
  {
    forall id | id in r.spot ensures SpotOk(r, id, r.spot[id].0, r.spot[id].1) {
      assert SpotOk(s, id, s.spot[id].0, s.spot[id].1);
    }
  }

  lemma ResignStanding(s: State, t: Tid, id: nat)
    requires LockInv(s) && LeadInv(s) && EraInv(s) && OverInv(s) && t < |s.pcs| && s.pcs[t] == Resign(id)
    ensures var r := Move(s.(en := s.en - 1, leader := None), t, Idle);
            LockInv(r) && LeadInv(r) && EraInv(r) && OverInv(r) && !Accepting(r)
  {
    Leading(s, t);
  }

  lemma ResignKeeps(s: State, t: Tid, id: nat)
    requires Inv(s) && t < |s.pcs| && s.pcs[t] == Resign(id)
    ensures s.en == 1 && Inv(Move(s.(en := s.en - 1, leader := None), t, Idle))
  {
    Leading(s, t);
    var r := Move(s.(en := s.en - 1, leader := None), t, Idle);
    ResignStanding(s, t, id);
    VersionsKept(s, r, t);
    PlacesKept(s, r, t);
    IdsKept(s, r, t);
    SpotsKept(s, r);
  }

  lemma EnqueueKeeps(s: State, t: Tid)
    requires Inv(s) && t < |s.pcs| && s.pcs[t].Idle?
    ensures Inv(Move(s.(callers := s.callers + [t]), t, TryTest(|s.callers|)))
  {
    var r := Move(s.(callers := s.callers + [t]), t, TryTest(|s.callers|));
    EnqueueIds(s, t);
    EnqueueStanding(s, r, t);
    VersionsKept(s, r, t);
    PlacesKept(s, r, t);
    SpotsKept(s, r);
  }

  lemma EnqueueStanding(s: State, r: State, t: Tid)
    requires LockInv(s) && LeadInv(s) && EraInv(s) && OverInv(s) && t < |s.pcs| && s.pcs[t].Idle?
    requires r == Move(s.(callers := s.callers + [t]), t, TryTest(|s.callers|))
    ensures LockInv(r) && LeadInv(r) && EraInv(r) && OverInv(r) && (Accepting(r) ==> Accepting(s))
  {
    assert LeaderPc(r) == LeaderPc(s);
    StandingKept(s, r, t);
    OverKept(s, r, t);
  }

  lemma EnqueueIds(s: State, t: Tid)
    requires IdsInv(s) && t < |s.pcs| && s.pcs[t].Idle?
    ensures IdsInv(Move(s.(callers := s.callers + [t]), t, TryTest(|s.callers|)))
  {
  }

  // ---------------------------------------------------------------- every step

  lemma TryTestKeeps(s: State, t: Tid, id: nat)
    requires Inv(s) && t < |s.pcs| && s.pcs[t] == TryTest(id)
    ensures Inv(LeadIn(s, t, s.pcs[t]))
  {
    GoKeeps(s, t, s.wlck, s.valid, if s.en % 2 == 1 then TestValid(id) else TrySet(id));
  }

  lemma TrySetKeeps(s: State, t: Tid, id: nat)
    requires Inv(s) && t < |s.pcs| && s.pcs[t] == TrySet(id)
    ensures Inv(LeadIn(s, t, s.pcs[t]))
  {
    if s.en % 2 == 1 { GoKeeps(s, t, s.wlck, s.valid, TestValid(id)); } else { BecomeLeader(s, t, id); }
  }

  lemma LeadInKeeps(s: State, t: Tid)
    requires Inv(s) && t < |s.pcs| && LeadsIn(s.pcs[t])
    ensures Inv(LeadIn(s, t, s.pcs[t]))
  {
    if s.pcs[t].TryTest? { TryTestKeeps(s, t, s.pcs[t].id); }
    else if s.pcs[t].TrySet? { TrySetKeeps(s, t, s.pcs[t].id); }
    else if s.pcs[t].LeadReady? { FirstKeeps(s, t); }
    else if s.pcs[t].MakeValid? { OpenKeeps(s, t); }
    else { PrepareKeeps(s, t); }
  }

  lemma FirstKeeps(s: State, t: Tid)
    requires Inv(s) && t < |s.pcs| && s.pcs[t].LeadReady?
    ensures Inv(LeadIn(s, t, s.pcs[t]))
  {
    AskCounted(s, t);
    ClaimKeeps(s, t);
  }

  lemma OpenKeeps(s: State, t: Tid)
    requires Inv(s) && t < |s.pcs| && s.pcs[t].MakeValid?
    ensures Inv(LeadIn(s, t, s.pcs[t]))
  {
    OpenBatch(s, t, s.pcs[t].id, s.pcs[t].idx);
  }

  /** What the mutex does for the thread that runs it. */
  lemma LockRuns(s: State, t: Tid, fail: bool)
    requires LockInv(s) && t < |s.pcs|
    ensures var w := SM.Next(s.wlck, SM.Run(t, fail));
            LockStep(s, w, t) && (var o, n := s.wlck.pcs[t], w.pcs[t];
              && (o == SM.CasWriter(false) ==> n == o || n == SM.Writing)
              && (o == SM.Writing ==> n == SM.Idle)
              && (o == SM.AddReader(false) ==> n == SM.Reading || n == SM.AwaitWriter)
              && (o == SM.AwaitWriter ==> n == SM.Reading || n == SM.AwaitWriter)
              && (o == SM.Reading ==> n == SM.Idle))
  {
    SM.NextKeepsInv(s.wlck, SM.Run(t, fail));
  }

  lemma LockCalled(s: State, t: Tid, op: SM.Op)
    requires LockInv(s) && t < |s.pcs| && s.wlck.pcs[t] == SM.Idle
    ensures var w := SM.Next(s.wlck, SM.Call(t, op)); LockStep(s, w, t) && w.pcs[t] == SM.Start(op)
  {
    SM.NextKeepsInv(s.wlck, SM.Call(t, op));
  }

  lemma LockKeeps(s: State, t: Tid, fail: bool, done: SM.PC, pc: PC)
    requires Inv(s) && t < |s.pcs| && pc != s.pcs[t]
    requires var w := SM.Next(s.wlck, SM.Run(t, fail));
             && LockStep(s, w, t)
             && (if w.pcs[t] == done then Inv(Go(s, t, w, s.valid, pc)) else Inv(Go(s, t, w, s.valid, s.pcs[t])))
    ensures Inv(Lock(s, t, fail, done, pc))
  {
    var w := SM.Next(s.wlck, SM.Run(t, fail));
    assert s.pcs[t := s.pcs[t]] == s.pcs;
    assert Go(s, t, w, s.valid, s.pcs[t]) == s.(wlck := w);
  }

  /** The barrier: when the leader has the mutex no follower is at the queues. */
  lemma BarrierHolds(s: State, w: SM.State, t: Tid)
    requires LockInv(s) && LockStep(s, w, t) && w.pcs[t] == SM.Writing && Leads(s.pcs[t])
    ensures NoneInside(s)
  {
    forall u: Tid | u < |s.pcs| ensures !Within(s.pcs[u]) {
      if u != t {
        SM.WriterAlone(w, t, u);
        assert Link(s.pcs[u], s.wlck.pcs[u]);
      }
    }
  }

  lemma BarrierLocked(s: State, t: Tid, id: nat, w: SM.State)
    requires Inv(s) && t < |s.pcs| && s.pcs[t] == BarrierLock(id) && LockStep(s, w, t) && w.pcs[t] == SM.Writing
    ensures Inv(Go(s, t, w, s.valid, BarrierUnlock(id)))
  {
    Leading(s, t);
    BarrierHolds(s, w, t);
    GoKeeps(s, t, w, s.valid, BarrierUnlock(id));
  }

  lemma BarrierWaits(s: State, t: Tid, id: nat, w: SM.State)
    requires Inv(s) && t < |s.pcs| && s.pcs[t] == BarrierLock(id) && LockStep(s, w, t) && w.pcs[t] == SM.CasWriter(false)
    ensures Inv(Go(s, t, w, s.valid, s.pcs[t]))
  {
    Leading(s, t);
    GoKeeps(s, t, w, s.valid, s.pcs[t]);
  }

  lemma BarrierLockKeeps(s: State, t: Tid, id: nat, fail: bool)
    requires Inv(s) && t < |s.pcs| && s.pcs[t] == BarrierLock(id)
    ensures Inv(Lock(s, t, fail, SM.Writing, BarrierUnlock(id)))
  {
    var w := SM.Next(s.wlck, SM.Run(t, fail));
    LockRuns(s, t, fail);
    if w.pcs[t] == SM.Writing { BarrierLocked(s, t, id, w); } else { BarrierWaits(s, t, id, w); }
    LockKeeps(s, t, fail, SM.Writing, BarrierUnlock(id));
  }

  lemma BarrierUnlocked(s: State, t: Tid, id: nat, w: SM.State)
    requires Inv(s) && t < |s.pcs| && s.pcs[t] == BarrierUnlock(id) && LockStep(s, w, t) && w.pcs[t] == SM.Idle
    ensures Inv(Go(s, t, w, s.valid, ReadLength(id)))
  {
    Leading(s, t);
    GoKeeps(s, t, w, s.valid, ReadLength(id));
  }

  lemma BarrierUnlockKeeps(s: State, t: Tid, id: nat, fail: bool)
    requires Inv(s) && t < |s.pcs| && s.pcs[t] == BarrierUnlock(id)
    ensures Inv(Lock(s, t, fail, SM.Idle, ReadLength(id)))
  {
    LockRuns(s, t, fail);
    BarrierUnlocked(s, t, id, SM.Next(s.wlck, SM.Run(t, fail)));
    LockKeeps(s, t, fail, SM.Idle, ReadLength(id));
  }

  lemma CloseKeeps(s: State, t: Tid, id: nat)
    requires Inv(s) && t < |s.pcs| && s.pcs[t] == MakeInvalid(id)
    ensures Inv(CallLock(s.(valid := false), t, SM.Lock, BarrierLock(id)))
  {
    LockCalled(s, t, SM.Lock);
    GoKeeps(s, t, SM.Next(s.wlck, SM.Call(t, SM.Lock)), false, BarrierLock(id));
  }

  lemma PollKeeps(s: State, t: Tid, id: nat)
    requires Inv(s) && t < |s.pcs| && s.pcs[t] == Poll(id)
    ensures Inv(Move(s, t, MakeInvalid(id)))
  {
    assert s.valid && LeaderPc(s) == s.pcs[t];
    GoKeeps(s, t, s.wlck, s.valid, MakeInvalid(id));
  }

  lemma LeadOutKeeps(s: State, t: Tid, fail: bool, timeout: bool)
    requires Inv(s) && t < |s.pcs| && LeadsOut(s.pcs[t])
    ensures Inv(LeadOut(s, t, s.pcs[t], fail, timeout))
  {
    match s.pcs[t] {
      case LeadWrite(_, _) => PutKeeps(s, t);
      case LeadConfirm(_, _) => ConfirmKeeps(s, t);
      case Poll(id) => PollKeeps(s, t, id);
      case MakeInvalid(id) => CloseKeeps(s, t, id);
      case BarrierLock(id) => BarrierLockKeeps(s, t, id, fail);
      case BarrierUnlock(id) => BarrierUnlockKeeps(s, t, id, fail);
      case ReadLength(id) => ReadLengthKeeps(s, t, id);
      case TakeBatch(_, _) => TakeKeeps(s, t);
      case Resign(id) => ResignKeeps(s, t, id);
    }
  }

  lemma Entered(s: State, t: Tid, id: nat, w: SM.State, pc: PC)
    requires Inv(s) && t < |s.pcs| && s.pcs[t] == Enter(id) && LockStep(s, w, t)
    requires if pc == TestAgain(id) then w.pcs[t] == SM.Reading else pc == Enter(id) && w.pcs[t] == SM.AwaitWriter
    ensures Inv(Go(s, t, w, s.valid, pc))
  {
    Follower(s, t);
    GoKeeps(s, t, w, s.valid, pc);
  }

  /** A follower takes the mutex for reading. */
  lemma EnterKeeps(s: State, t: Tid, id: nat, fail: bool)
    requires Inv(s) && t < |s.pcs| && s.pcs[t] == Enter(id)
    ensures Inv(Lock(s, t, fail, SM.Reading, TestAgain(id)))
  {
    var w := SM.Next(s.wlck, SM.Run(t, fail));
    LockRuns(s, t, fail);
    Entered(s, t, id, w, if w.pcs[t] == SM.Reading then TestAgain(id) else Enter(id));
    LockKeeps(s, t, fail, SM.Reading, TestAgain(id));
  }

  /** A follower gives it back. */
  lemma ReleaseKeeps(s: State, t: Tid, fail: bool, pc: PC)
    requires Inv(s) && t < |s.pcs| && s.wlck.pcs[t] == SM.Reading && s.pcs[t] != pc && s.pcs[t] != Idle
    requires !Leads(s.pcs[t]) && !Leads(pc) && !HasPlace(s.pcs[t]) && !HasPlace(pc) && !Inside(pc) && Link(pc, SM.Idle)
    requires (pc != Idle ==> pc.id == s.pcs[t].id) && (Unplaced(pc) <==> Unplaced(s.pcs[t]))
    requires t in s.over && s.valid ==> AwaitsNext(pc) && (!pc.FullVersion? ==> pc.ver == s.ver)
    requires VersionOk(s, t, pc) && !pc.FullVersion?
    ensures Inv(Lock(s, t, fail, SM.Idle, pc))
  {
    var w := SM.Next(s.wlck, SM.Run(t, fail));
    LockRuns(s, t, fail);
    GoKeeps(s, t, w, s.valid, pc);
    LockKeeps(s, t, fail, SM.Idle, pc);
  }

  lemma Follower(s: State, t: Tid)
    requires Inv(s) && t < |s.pcs|
    ensures Link(s.pcs[t], s.wlck.pcs[t])
    ensures t in s.over && s.valid ==>
              AwaitsNext(s.pcs[t]) && (!s.pcs[t].FullVersion? ==> s.pcs[t].ver == s.ver)
    ensures VersionOk(s, t, s.pcs[t])
  {
  }

  lemma OpenTestKeeps(s: State, t: Tid, id: nat)
    requires Inv(s) && t < |s.pcs| && s.pcs[t] == TestValid(id) && s.valid
    ensures Inv(CallLock(s, t, SM.LockShared, Enter(id)))
  {
    Follower(s, t);
    LockCalled(s, t, SM.LockShared);
    GoKeeps(s, t, SM.Next(s.wlck, SM.Call(t, SM.LockShared)), s.valid, Enter(id));
  }

  lemma ClosedTestKeeps(s: State, t: Tid, id: nat)
    requires Inv(s) && t < |s.pcs| && s.pcs[t] == TestValid(id) && !s.valid
    ensures Inv(Move(s, t, TryTest(id)))
  {
    GoKeeps(s, t, s.wlck, s.valid, TryTest(id));
  }

  lemma AgainKeeps(s: State, t: Tid, id: nat)
    requires Inv(s) && t < |s.pcs| && s.pcs[t] == TestAgain(id)
    ensures Inv(Move(s, t, if s.valid then Ready(id) else Back(id)))
  {
    GoKeeps(s, t, s.wlck, s.valid, if s.valid then Ready(id) else Back(id));
  }

  lemma VersionKeeps(s: State, t: Tid, fail: bool)
    requires Inv(s) && t < |s.pcs| && s.pcs[t].FullVersion?
    ensures Inv(Follow(s, t, s.pcs[t], fail))
  {
    Follower(s, t);
    GoKeeps(s, t, s.wlck, s.valid, FullLeave(s.pcs[t].id, s.ver));
  }

  /** The loop of a refused follower. */
  lemma FullValidKeeps(s: State, t: Tid, fail: bool)
    requires Inv(s) && t < |s.pcs| && s.pcs[t].FullValid?
    ensures Inv(Follow(s, t, s.pcs[t], fail))
  {
    var FullValid(id, ver) := s.pcs[t];
    Follower(s, t);
    GoKeeps(s, t, s.wlck, s.valid, if s.valid then FullTest(id, ver) else TryTest(id));
  }

  lemma FullTestKeeps(s: State, t: Tid, fail: bool)
    requires Inv(s) && t < |s.pcs| && s.pcs[t].FullTest?
    ensures Inv(Follow(s, t, s.pcs[t], fail))
  {
    var FullTest(id, ver) := s.pcs[t];
    Follower(s, t);
    GoKeeps(s, t, s.wlck, s.valid, if SameByte(ver, s.ver) then FullValid(id, ver) else TryTest(id));
  }

  lemma BackKeeps(s: State, t: Tid, id: nat, fail: bool)
    requires Inv(s) && t < |s.pcs| && s.pcs[t] == Back(id)
    ensures Inv(Lock(s, t, fail, SM.Idle, TryTest(id)))
  {
    Follower(s, t);
    ReleaseKeeps(s, t, fail, TryTest(id));
  }

  lemma LeaveKeeps(s: State, t: Tid, id: nat, fail: bool)
    requires Inv(s) && t < |s.pcs| && s.pcs[t] == Leave(id)
    ensures Inv(Lock(s, t, fail, SM.Idle, Idle))
  {
    Follower(s, t);
    ReleaseKeeps(s, t, fail, Idle);
  }

  lemma FullLeaveKeeps(s: State, t: Tid, fail: bool)
    requires Inv(s) && t < |s.pcs| && s.pcs[t].FullLeave?
    ensures Inv(Follow(s, t, s.pcs[t], fail))
  {
    var FullLeave(id, ver) := s.pcs[t];
    Follower(s, t);
    ReleaseKeeps(s, t, fail, FullValid(id, ver));
  }

  /** A follower on its way to a place. */
  predicate Comes(pc: PC) { pc.TestValid? || pc.Enter? || pc.TestAgain? || pc.Back? || pc.Ready? }

  lemma ComeKeeps(s: State, t: Tid, fail: bool)
    requires Inv(s) && t < |s.pcs| && Comes(s.pcs[t])
    ensures Inv(Follow(s, t, s.pcs[t], fail))
  {
    match s.pcs[t] {
      case TestValid(id) => if s.valid { OpenTestKeeps(s, t, id); } else { ClosedTestKeeps(s, t, id); }
      case Enter(id) => EnterKeeps(s, t, id, fail);
      case TestAgain(id) => AgainKeeps(s, t, id);
      case Back(id) => BackKeeps(s, t, id, fail);
      case Ready(_) => if s.count < s.max { ClaimKeeps(s, t); } else { RefuseKeeps(s, t); }
    }
  }

  /** A follower that was refused. */
  predicate Refused(pc: PC) { pc.FullVersion? || pc.FullLeave? || pc.FullValid? || pc.FullTest? }

  lemma RefusedKeeps(s: State, t: Tid, fail: bool)
    requires Inv(s) && t < |s.pcs| && Refused(s.pcs[t])
    ensures Inv(Follow(s, t, s.pcs[t], fail))
  {
    if s.pcs[t].FullVersion? { VersionKeeps(s, t, fail); }
    else if s.pcs[t].FullLeave? { FullLeaveKeeps(s, t, fail); }
    else if s.pcs[t].FullValid? { FullValidKeeps(s, t, fail); }
    else { FullTestKeeps(s, t, fail); }
  }

  lemma FollowKeeps(s: State, t: Tid, fail: bool)
    requires Inv(s) && t < |s.pcs| && !LeadsIn(s.pcs[t]) && !LeadsOut(s.pcs[t])
    ensures Inv(Follow(s, t, s.pcs[t], fail))
  {
    if Comes(s.pcs[t]) { ComeKeeps(s, t, fail); }
    else if Refused(s.pcs[t]) { RefusedKeeps(s, t, fail); }
    else {
      match s.pcs[t] {
        case Idle =>
        case Write(_, _) => PutKeeps(s, t);
        case Confirm(_, _) => ConfirmKeeps(s, t);
        case Leave(id) => LeaveKeeps(s, t, id, fail);
      }
    }
  }

  lemma NextKeepsInv(s: State, e: Event)
    requires Inv(s)
    ensures Inv(Next(s, e))
  {
    if e.t < |s.pcs| {
      match e {
        case Enqueue(t) => if s.pcs[t].Idle? { EnqueueKeeps(s, t); }
        case Run(t, fail, timeout) =>
          if LeadsIn(s.pcs[t]) { LeadInKeeps(s, t); }
          else if LeadsOut(s.pcs[t]) { LeadOutKeeps(s, t, fail, timeout); }
          else { FollowKeeps(s, t, fail); }
      }
    }
  }

  lemma InitialInv(s: State)
    requires Initial(s)
    ensures Inv(s)
  {
    SM.ExecKeepsInv(s.wlck, []);
    assert LeaderPc(s) == Idle;
  }

  lemma {:induction false} ExecKeepsInv(s: State, es: seq<Event>)
    requires Initial(s)
    ensures Inv(Exec(s, es))
  {
    if es == [] {
      InitialInv(s);
    } else {
      ExecKeepsInv(s, es[..|es| - 1]);
      NextKeepsInv(Exec(s, es[..|es| - 1]), es[|es| - 1]);
    }
  }

  // ---------------------------------------------------------------- what every run promises

  /** A follower touches the queues only while a leader keeps the batch open or still waits for the
      barrier; behind the barrier, and until the next leader opens a batch, nobody does. */
  lemma FollowersOnlyWhileOpen(s0: State, es: seq<Event>, t: Tid)
    requires Initial(s0) && t < |Exec(s0, es).pcs| && Inside(Exec(s0, es).pcs[t])
    ensures var s := Exec(s0, es);
            && s.leader.Some? && s.leader != Some(t)
            && (Open(LeaderPc(s)) || LeaderPc(s).BarrierLock?)
            && (s.valid <==> Open(LeaderPc(s)))
  {
    ExecKeepsInv(s0, es);
  }

  /** There is one leader at a time. */
  lemma OneLeader(s0: State, es: seq<Event>, t: Tid, u: Tid)
    requires Initial(s0) && t < |Exec(s0, es).pcs| && u < |Exec(s0, es).pcs|
    requires Leads(Exec(s0, es).pcs[t]) && Leads(Exec(s0, es).pcs[u])
    ensures t == u && Exec(s0, es).en == 1
  {
    ExecKeepsInv(s0, es);
  }

  /** Two threads never work at the same place of the queues. */
  lemma PlacesApart(s0: State, es: seq<Event>, t: Tid, u: Tid)
    requires Initial(s0) && t < |Exec(s0, es).pcs| && u < |Exec(s0, es).pcs| && t != u
    requires HasPlace(Exec(s0, es).pcs[t]) && HasPlace(Exec(s0, es).pcs[u])
    ensures var s := Exec(s0, es);
            s.pcs[t].idx != s.pcs[u].idx && s.pcs[t].idx < |s.slots| == s.max && s.pcs[u].idx < |s.slots|
  {
    ExecKeepsInv(s0, es);
    var s := Exec(s0, es);
    assert PlaceOk(s, t, s.pcs[t]) && PlaceOk(s, u, s.pcs[u]);
    PlaceEra(s, t);
  }

  lemma PlaceEra(s: State, t: Tid)
    requires LeadInv(s) && EraInv(s) && t < |s.pcs| && HasPlace(s.pcs[t])
    ensures |s.claimed| <= |s.slots| == s.max
  {
  }

  /** The batch the leader takes: the queues are resized to exactly the places given, every one of them
      is written with the call it was given to, and nobody is still at the queues. */
  lemma BatchIsComplete(s0: State, es: seq<Event>, t: Tid)
    requires Initial(s0) && t < |Exec(s0, es).pcs| && Exec(s0, es).pcs[t].TakeBatch?
    ensures var s := Exec(s0, es);
            && s.pcs[t].len == |s.claimed| <= |s.slots|
            && (forall i :: 0 <= i < |s.claimed| ==> s.slots[i] == Full(s.claimed[i]))
            && NoneInside(s)
            && |Next(s, Run(t, false, false)).batches| == |s.batches| + 1
            && (forall id :: id in Next(s, Run(t, false, false)).batches[|s.batches|] <==>
                  id.Full? && id.id in s.claimed)
  {
    ExecKeepsInv(s0, es);
    var s := Exec(s0, es);
    BehindBarrier(s, t);
    assert s.pcs[t].len == |s.claimed|;
    var b := s.slots[..|s.claimed|];
    assert Next(s, Run(t, false, false)).batches == s.batches + [b];
    forall id | id in s.claimed ensures Full(id) in b {
      var i :| 0 <= i < |s.claimed| && s.claimed[i] == id;
      assert b[i] == Full(id);
    }
  }

  /** Every call is still without a place and in progress, or it sits at exactly one place of exactly
      one batch. */
  lemma AcceptedOnce(s0: State, es: seq<Event>, id: nat)
    requires Initial(s0) && id < |Exec(s0, es).callers|
    ensures var s := Exec(s0, es);
            if id in s.spot then
              && SpotOk(s, id, s.spot[id].0, s.spot[id].1)
              && (forall e, i :: 0 <= e < |s.batches| && 0 <= i < |s.batches[e]| && s.batches[e][i] == Full(id) ==>
                    (e, i) == s.spot[id])
              && (forall i :: 0 <= i < |s.claimed| && s.claimed[i] == id ==> (|s.batches|, i) == s.spot[id])
            else Calls(s, s.callers[id], id) && Unplaced(s.pcs[s.callers[id]])
  {
    ExecKeepsInv(s0, es);
  }

  /** A batch once taken is never changed. */
  lemma {:induction false} BatchesStay(s: State, es: seq<Event>)
    requires Usable(s.wlck)
    ensures s.batches <= Exec(s, es).batches
  {
    if es != [] {
      BatchesStay(s, es[..|es| - 1]);
      assert Exec(s, es[..|es| - 1]).batches <= Exec(s, es).batches;
    }
  }

  /** What queue_ver is for: a refused follower goes on waiting while the low 8 bits of the version are
      those it read.  As long as fewer than 256 batches have been opened since, that is only for the
      batch that refused it. */
  lemma RefusedWaitsForItsBatch(s0: State, es: seq<Event>, t: Tid)
    requires Initial(s0) && t < |Exec(s0, es).pcs| && Exec(s0, es).pcs[t].FullTest?
    ensures var s := Exec(s0, es);
            var ver := s.pcs[t].ver;
            && ver <= s.ver
            && (Next(s, Run(t, false, false)).pcs[t].FullValid? <==> SameByte(ver, s.ver))
            && (s.ver - ver < 256 ==> (SameByte(ver, s.ver) <==> ver == s.ver))
            && (ver == s.ver && s.valid ==> t in s.over)
  {
    ExecKeepsInv(s0, es);
    Follower(Exec(s0, es), t);
    TestStep(Exec(s0, es), t);
    NearBytes(Exec(s0, es).pcs[t].ver, Exec(s0, es).ver);
  }

  lemma TestStep(s: State, t: Tid)
    requires Usable(s.wlck) && t < |s.pcs| && s.pcs[t].FullTest?
    ensures Next(s, Run(t, false, false)).pcs[t].FullValid? <==> SameByte(s.pcs[t].ver, s.ver)
  {
  }

  lemma NearBytes(a: nat, b: nat)
    ensures a <= b && b - a < 256 ==> (SameByte(a, b) <==> a == b)
  {
  }

  /** The leader always gets the first place, so that the code may use it without a test. */
  lemma LeaderIsFirst(s0: State, es: seq<Event>, t: Tid)
    requires Initial(s0) && t < |Exec(s0, es).pcs| && Exec(s0, es).pcs[t].LeadReady?
    ensures var s := Exec(s0, es);
            s.count == 0 < s.max && Next(s, Run(t, false, false)).pcs[t] == MakeValid(s.pcs[t].id, 0)
  {
    ExecKeepsInv(s0, es);
    AskCounted(Exec(s0, es), t);
  }

  lemma OverRoom(s: State, t: Tid)
    requires OverInv(s) && t < |s.pcs| && Asks(s.pcs[t]) && (s.pcs[t].LeadReady? ==> s.over == {})
    ensures |s.over| < |s.pcs|
  {
    assert t !in s.over;
    assert s.over + {t} <= Below(|s.pcs|);
    SubsetSize(s.over + {t}, Below(|s.pcs|));
  }

  lemma CountWithin(s: State)
    requires Counted(s)
    ensures s.count <= s.max + |s.over|
    ensures s.count > s.max ==> s.over != {}
  {
  }

  /** The claim counter passes the limit by less than the number of threads: with
      max_count + 128 <= 2^32 it does not wrap while it is used. */
  lemma CounterBounded(s0: State, es: seq<Event>, t: Tid)
    requires Initial(s0) && t < |Exec(s0, es).pcs| && Asks(Exec(s0, es).pcs[t])
    ensures var s := Exec(s0, es); s.count < s.max + |s.pcs| && (s.count > s.max ==> s.over != {})
  {
    ExecKeepsInv(s0, es);
    var s := Exec(s0, es);
    AskCounted(s, t);
    CountWithin(s);
    OverRoom(s, t);
  }

  // ---------------------------------------------------------------- when a batch closes and who gets in

  /** Without a timeout the leader closes the batch exactly when it is full: every place of it is given and
      confirmed, and written with its call. */
  lemma ClosesWhenFull(s0: State, es: seq<Event>, t: Tid, fail: bool)
    requires Initial(s0) && t < |Exec(s0, es).pcs| && Exec(s0, es).pcs[t].Poll?
    ensures var s := Exec(s0, es);
            Next(s, Run(t, fail, false)).pcs[t] ==
            if s.confirmed == Below(s.max) then MakeInvalid(s.pcs[t].id) else s.pcs[t]
    ensures var s := Exec(s0, es);
            s.confirmed == Below(s.max) ==>
              |s.claimed| == |s.slots| == s.max && forall i :: 0 <= i < s.max ==> s.slots[i] == Full(s.claimed[i])
  {
    ExecKeepsInv(s0, es);
    Polls(Exec(s0, es), t);
    PollOfFull(Exec(s0, es), t, fail);
    FullIsWritten(Exec(s0, es));
  }

  lemma Polls(s: State, t: Tid)
    requires LeadInv(s) && EraInv(s) && t < |s.pcs| && s.pcs[t].Poll?
    ensures Counted(s)
  {
  }

  lemma PollOfFull(s: State, t: Tid, fail: bool)
    requires Usable(s.wlck) && EraInv(s) && Counted(s) && t < |s.pcs| && s.pcs[t].Poll?
    ensures Next(s, Run(t, fail, false)).pcs[t] ==
            if s.confirmed == Below(s.max) then MakeInvalid(s.pcs[t].id) else s.pcs[t]
  {
    AllConfirmed(s);
  }

  lemma FullIsWritten(s: State)
    requires PlacesInv(s) && EraInv(s) && Counted(s)
    ensures s.confirmed == Below(s.max) ==>
              |s.claimed| == |s.slots| == s.max && forall i :: 0 <= i < s.max ==> s.slots[i] == Full(s.claimed[i])
  {
    if s.confirmed == Below(s.max) {
      assert s.max - 1 in s.confirmed;
      forall i | 0 <= i < s.max ensures s.slots[i] == Full(s.claimed[i]) {
        assert ClaimOk(s, i) && i in s.confirmed;
      }
    }
  }

  /** The confirmation counter has reached the limit exactly if all places are confirmed. */
  lemma AllConfirmed(s: State)
    requires Counted(s) && forall i :: i in s.confirmed ==> i < |s.claimed|
    ensures s.tryCount >= s.max <==> s.confirmed == Below(s.max)
  {
    assert s.confirmed <= Below(s.max);
    if |s.confirmed| >= s.max && s.confirmed != Below(s.max) {
      var i :| i in Below(s.max) && i !in s.confirmed;
      SubsetSize(s.confirmed + {i}, Below(s.max));
    }
  }

  function RunFor(s: State, t: Tid, k: nat): (r: State)
    requires Usable(s.wlck)
    ensures Usable(r.wlck) && |r.pcs| == |s.pcs|
    decreases k
  {
    if k == 0 then s else RunFor(Next(s, Run(t, false, true)), t, k - 1)
  }

  /** A call of `t` that found the batch of `s` open, on its way to place `p`. */
  ghost predicate Joining(s: State, r: State, t: Tid, id: nat, p: nat) {
    && t < |r.pcs| == |r.wlck.pcs| && Usable(r.wlck) && r.batches == s.batches
    && p < r.max == |r.slots|
    && match r.pcs[t] {
         case TestValid(i) =>
           i == id && r.valid && r.count == |r.claimed| == p && r.wlck.pcs[t].Idle? && r.wlck.l % 2 == 0
         case Enter(i) =>
           i == id && r.valid && r.count == |r.claimed| == p && r.wlck.pcs[t] == SM.AddReader(false) && r.wlck.l % 2 == 0
         case TestAgain(i) => i == id && r.valid && r.count == |r.claimed| == p && r.wlck.pcs[t].Reading?
         case Ready(i) => i == id && r.count == |r.claimed| == p && r.wlck.pcs[t].Reading?
         case Write(i, idx) => i == id && idx == p && GivenPlace(r, id, p) && r.wlck.pcs[t].Reading?
         case Confirm(i, idx) =>
           i == id && idx == p && GivenPlace(r, id, p) && r.slots[p] == Full(id) && r.wlck.pcs[t].Reading?
         case Leave(i) => i == id && Joined(r, id, p) && r.wlck.pcs[t].Reading?
         case Idle => Joined(r, id, p)
         case _ => false
       }
  }

  ghost predicate GivenPlace(r: State, id: nat, p: nat) {
    p + 1 == |r.claimed| && r.claimed[p] == id && id in r.spot && r.spot[id] == (|r.batches|, p)
  }

  ghost predicate Joined(r: State, id: nat, p: nat) {
    GivenPlace(r, id, p) && p < |r.slots| && r.slots[p] == Full(id) && p in r.confirmed
  }

  function JoinLeft(pc: PC): nat {
    match pc
    case TestValid(_) => 7
    case Enter(_) => 6
    case TestAgain(_) => 5
    case Ready(_) => 4
    case Write(_, _) => 3
    case Confirm(_, _) => 2
    case Leave(_) => 1
    case _ => 0
  }

  lemma JoinStep(s: State, r: State, t: Tid, id: nat, p: nat)
    requires Joining(s, r, t, id, p) && r.pcs[t] != Idle
    ensures var q := Next(r, Run(t, false, true)); Joining(s, q, t, id, p) && JoinLeft(q.pcs[t]) + 1 == JoinLeft(r.pcs[t])
  {
  }

  lemma {:induction false} JoinRun(s: State, r: State, t: Tid, id: nat, p: nat)
    requires Joining(s, r, t, id, p)
    ensures var q := RunFor(r, t, JoinLeft(r.pcs[t])); Joining(s, q, t, id, p) && q.pcs[t] == Idle
    decreases JoinLeft(r.pcs[t])
  {
    if r.pcs[t] != Idle {
      JoinStep(s, r, t, id, p);
      JoinRun(s, Next(r, Run(t, false, true)), t, id, p);
    }
  }

  /** A call made while the batch is open with room, wherever the other calls are, is in the batch after eight steps
      if it runs alone: it has the next place, which is written and confirmed. */
  lemma JoinsOpenBatch(s0: State, es: seq<Event>, t: Tid)
    requires Initial(s0) && t < |Exec(s0, es).pcs| && Exec(s0, es).pcs[t] == Idle
    requires Exec(s0, es).valid && |Exec(s0, es).claimed| < Exec(s0, es).max
    ensures var s, r := Exec(s0, es), RunFor(Next(Exec(s0, es), Enqueue(t)), t, 8);
            r.pcs[t] == Idle && r.batches == s.batches && Joined(r, |s.callers|, |s.claimed|)
  {
    ExecKeepsInv(s0, es);
    var s := Exec(s0, es);
    var r := Next(Next(s, Enqueue(t)), Run(t, false, true));
    FollowsFromCall(s, t);
    NextKeepsInv(s, Enqueue(t));
    NextKeepsInv(Next(s, Enqueue(t)), Run(t, false, true));
    MayJoin(r, t);
    JoinRun(r, r, t, |s.callers|, |s.claimed|);
  }

  lemma FollowsFromCall(s: State, t: Tid)
    requires Inv(s) && t < |s.pcs| && s.pcs[t] == Idle && s.valid
    ensures Next(Next(s, Enqueue(t)), Run(t, false, true)) ==
            Move(s.(callers := s.callers + [t]), t, TestValid(|s.callers|))
  {
    assert s.leader.Some?;
    assert Next(s, Enqueue(t)) == Move(s.(callers := s.callers + [t]), t, TryTest(|s.callers|));
  }

  lemma MayJoin(s: State, t: Tid)
    requires Inv(s) && t < |s.pcs| && s.pcs[t].TestValid? && s.valid && |s.claimed| < s.max
    ensures Joining(s, s, t, s.pcs[t].id, |s.claimed|)
  {
    if s.wlck.l % 2 == 1 {
      WriterIsLeader(s);
      assert false;
    }
    assert Link(s.pcs[t], s.wlck.pcs[t]);
  }

  /** A call on its own, from the queue at rest in `s`. */
  ghost predicate OnItsOwn(s: State, r: State, t: Tid, id: nat) {
    && t < |r.pcs| == |r.wlck.pcs| == |s.pcs| && Usable(r.wlck) && r.max == s.max >= 1
    && (forall u: Tid :: u < |r.pcs| && u != t ==> r.pcs[u] == Idle)
    && (r.pcs[t] != Idle ==> r.pcs[t].id == id)
    && r.batches == (if r.pcs[t].Idle? || r.pcs[t].Resign? then s.batches + [[Full(id)]] else s.batches)
    && r.en == (if r.pcs[t].Idle? || r.pcs[t].TryTest? || r.pcs[t].TrySet? then 0 else 1)
    && r.wlck.l == (if r.pcs[t].BarrierUnlock? then 1 else 0)
    && r.wlck.pcs[t] == (if r.pcs[t].BarrierUnlock? then SM.Writing
                         else if r.pcs[t].BarrierLock? then SM.CasWriter(false) else SM.Idle)
    && match r.pcs[t] {
         case ZeroTry(_) | Install(_) => r.count == 0 && (r.pcs[t].Install? ==> r.tryCount == 0)
         case NewVersion(_) | LeadReady(_) => r.count == r.tryCount == 0 && |r.slots| == r.max
         case MakeValid(_, idx) => idx == r.tryCount == 0 && |r.slots| == r.max
         case LeadWrite(_, idx) => idx == r.tryCount == 0 && |r.slots| == r.max
         case LeadConfirm(_, _) => r.tryCount == 0 && |r.slots| == r.max && r.slots[0] == Full(id)
         case Poll(_) | MakeInvalid(_) | BarrierLock(_) | BarrierUnlock(_) | ReadLength(_) =>
           r.tryCount == 1 && |r.slots| == r.max && r.slots[0] == Full(id)
         case TakeBatch(_, len) => len == 1 && |r.slots| == r.max && r.slots[0] == Full(id)
         case Idle | TryTest(_) | TrySet(_) | ZeroCount(_) | Resign(_) => true
         case _ => false
       }
  }

  function LeadLeft(pc: PC): nat {
    match pc
    case TryTest(_) => 17
    case TrySet(_) => 16
    case ZeroCount(_) => 15
    case ZeroTry(_) => 14
    case Install(_) => 13
    case NewVersion(_) => 12
    case LeadReady(_) => 11
    case MakeValid(_, _) => 10
    case LeadWrite(_, _) => 9
    case LeadConfirm(_, _) => 8
    case Poll(_) => 7
    case MakeInvalid(_) => 6
    case BarrierLock(_) => 5
    case BarrierUnlock(_) => 4
    case ReadLength(_) => 3
    case TakeBatch(_, _) => 2
    case Resign(_) => 1
    case _ => 0
  }

  lemma LeadInAlone(s: State, r: State, t: Tid, id: nat)
    requires OnItsOwn(s, r, t, id) && LeadsIn(r.pcs[t])
    ensures var q := Next(r, Run(t, false, true)); OnItsOwn(s, q, t, id) && LeadLeft(q.pcs[t]) + 1 == LeadLeft(r.pcs[t])
  {
  }

  predicate AtBarrier(pc: PC) { pc.MakeInvalid? || pc.BarrierLock? || pc.BarrierUnlock? }

  lemma BarrierAlone(s: State, r: State, t: Tid, id: nat)
    requires OnItsOwn(s, r, t, id) && AtBarrier(r.pcs[t])
    ensures var q := Next(r, Run(t, false, true)); OnItsOwn(s, q, t, id) && LeadLeft(q.pcs[t]) + 1 == LeadLeft(r.pcs[t])
  {
  }

  lemma LeadOutAlone(s: State, r: State, t: Tid, id: nat)
    requires OnItsOwn(s, r, t, id) && LeadsOut(r.pcs[t]) && !AtBarrier(r.pcs[t])
    ensures var q := Next(r, Run(t, false, true)); OnItsOwn(s, q, t, id) && LeadLeft(q.pcs[t]) + 1 == LeadLeft(r.pcs[t])
  {
    if r.pcs[t].TakeBatch? { assert r.slots[..1] == [Full(id)]; }
  }

  lemma {:induction false} LeadRun(s: State, r: State, t: Tid, id: nat)
    requires OnItsOwn(s, r, t, id)
    ensures var q := RunFor(r, t, LeadLeft(r.pcs[t])); OnItsOwn(s, q, t, id) && q.pcs[t] == Idle
    decreases LeadLeft(r.pcs[t])
  {
    if r.pcs[t] != Idle {
      if LeadsIn(r.pcs[t]) { LeadInAlone(s, r, t, id); }
      else if AtBarrier(r.pcs[t]) { BarrierAlone(s, r, t, id); }
      else { LeadOutAlone(s, r, t, id); }
      LeadRun(s, Next(r, Run(t, false, true)), t, id);
    }
  }

  ghost predicate Quiet(s: State) { forall t: Tid :: t < |s.pcs| ==> s.pcs[t] == Idle }

  /** With no other call in progress a call leads its own batch: once its time is out it is over after seventeen
      steps, with one batch more, of that call alone, and the queue at rest. */
  lemma LeadsAlone(s0: State, es: seq<Event>, t: Tid)
    requires Initial(s0) && Quiet(Exec(s0, es)) && t < |Exec(s0, es).pcs|
    ensures var s := Exec(s0, es);
            var r := RunFor(Next(s, Enqueue(t)), t, 17);
            Quiet(r) && r.batches == s.batches + [[Full(|s.callers|)]]
  {
    ExecKeepsInv(s0, es);
    var s := Exec(s0, es);
    RestOfLock(s);
    LeadRun(s, Next(s, Enqueue(t)), t, |s.callers|);
  }

  lemma RestOfLock(s: State)
    requires Inv(s) && Quiet(s)
    ensures s.en == 0 && s.wlck.l == 0 && forall t: Tid :: t < |s.pcs| == |s.wlck.pcs| ==> s.wlck.pcs[t] == SM.Idle
  {
    forall t: Tid | t < |s.pcs| ensures s.wlck.pcs[t] == SM.Idle { assert Link(s.pcs[t], s.wlck.pcs[t]); }
    CountNone(s.wlck.pcs, SM.Registered);
    CountNone(s.wlck.pcs, SM.IsWriting);
    assert forall t: Tid :: t < |s.pcs| ==> !Leads(s.pcs[t]);
  }

  // ---------------------------------------------------------------- nobody waits in vain

  /** The thread's next step leads it round a loop that it has to wait in. */
  predicate Waits(s: State, t: Tid)
    requires t < |s.pcs| && |s.wlck.pcs| == |s.pcs|
  {
    match s.pcs[t]
    case Idle => true
    case TryTest(_) | TrySet(_) => s.en % 2 == 1
    case TestValid(_) => s.en % 2 == 1 && !s.valid
    case FullValid(_, _) => s.valid
    case FullTest(_, ver) => s.valid && SameByte(ver, s.ver)
    case Enter(_) => s.wlck.pcs[t].AwaitWriter? && s.wlck.l % 2 == 1
    case BarrierLock(_) => s.wlck.l != 0
    case _ => false
  }

  /** The threads that the mutex counts: a writer is the leader past its barrier. */
  lemma WriterIsLeader(s: State)
    requires LockInv(s) && LeadInv(s) && s.wlck.l % 2 == 1
    ensures LeaderPc(s).BarrierUnlock?
  {
    if Count(s.wlck.pcs, SM.IsWriting) == 0 {
      NoWriterIsEven(s.wlck);
      assert false;
    }
    var w := CountSome(s.wlck.pcs, SM.IsWriting);
    assert Link(s.pcs[w], s.wlck.pcs[w]);
  }

  lemma NoWriterIsEven(w: SM.State)
    requires SM.Inv(w) && Count(w.pcs, SM.IsWriting) == 0
    ensures w.l % 2 == 0
  {
  }

  /** While the word is not zero and the leader waits at its barrier, some follower holds the mutex, or can
      have it. */
  lemma HolderGoesOn(s: State) returns (u: Tid)
    requires LockInv(s) && LeadInv(s) && LeaderPc(s).BarrierLock? && s.wlck.l != 0
    ensures u < |s.pcs| && !Waits(s, u)
  {
    if s.wlck.l % 2 == 1 {
      WriterIsLeader(s);
      assert false;
    }
    SomeRegistered(s.wlck);
    u := CountSome(s.wlck.pcs, SM.Registered);
    assert Link(s.pcs[u], s.wlck.pcs[u]);
  }

  lemma SomeRegistered(w: SM.State)
    requires SM.Inv(w) && w.l != 0 && w.l % 2 == 0
    ensures Count(w.pcs, SM.Registered) > 0
  {
  }

  lemma NotAlone(s: State, t: Tid) returns (u: Tid)
    requires LockInv(s) && LeadInv(s) && t < |s.pcs| && s.pcs[t] != Idle
    ensures u < |s.pcs| && !Waits(s, u)
  {
    if s.leader.Some? {
      u := s.leader.value;
      assert Leads(s.pcs[u]) && Link(s.pcs[u], s.wlck.pcs[u]);
      if s.pcs[u].BarrierLock? && s.wlck.l != 0 { u := HolderGoesOn(s); }
    } else {
      u := t;
      assert !Leads(s.pcs[t]);
      if s.wlck.l % 2 == 1 {
        WriterIsLeader(s);
        assert false;
      }
    }
  }

  predicate Moved(s: State, r: State, u: Tid) {
    && |r.wlck.pcs| == |s.wlck.pcs| && |r.pcs| == |s.pcs| && u < |s.pcs| && u < |s.wlck.pcs|
    && (r.pcs[u] != s.pcs[u] || r.wlck.pcs[u] != s.wlck.pcs[u])
  }

  lemma LeaderMoves(s: State, u: Tid)
    requires LockInv(s) && u < |s.pcs| && !Waits(s, u) && (LeadsIn(s.pcs[u]) || LeadsOut(s.pcs[u]))
    ensures Moved(s, Next(s, Run(u, false, true)), u)
  {
    assert Link(s.pcs[u], s.wlck.pcs[u]);
    if LeadsIn(s.pcs[u]) { assert Next(s, Run(u, false, true)) == LeadIn(s, u, s.pcs[u]); }
  }

  lemma FollowerMoves(s: State, u: Tid)
    requires LockInv(s) && u < |s.pcs| && !Waits(s, u) && !LeadsIn(s.pcs[u]) && !LeadsOut(s.pcs[u])
    ensures Moved(s, Next(s, Run(u, false, true)), u)
  {
    assert Link(s.pcs[u], s.wlck.pcs[u]);
  }

  /** As long as any call is in progress some thread does not wait, and goes on if it is run, in the queue or
      in the barrier mutex. */
  lemma NobodyIsStuck(s0: State, es: seq<Event>, t: Tid) returns (u: Tid)
    requires Initial(s0) && t < |Exec(s0, es).pcs| && Exec(s0, es).pcs[t] != Idle
    ensures var s := Exec(s0, es);
            |s.wlck.pcs| == |s.pcs| && u < |s.pcs| && !Waits(s, u) && Moved(s, Next(s, Run(u, false, true)), u)
  {
    ExecKeepsInv(s0, es);
    var s := Exec(s0, es);
    u := NotAlone(s, t);
    if LeadsIn(s.pcs[u]) || LeadsOut(s.pcs[u]) { LeaderMoves(s, u); } else { FollowerMoves(s, u); }
  }
}
