/** One side of ConQueue (conqueue.h:79-201, 304-331): threads claim a run of positions by moving a
    head word, work on the claimed slots, and release them by moving a tail word.  The producer side
    and the consumer side run the same protocol; what they may claim up to is the `limit`, which the
    other side moves forward.

    Positions are unbounded here; `ConQueueWords` relates them to the 32-bit words of the program.
    `ends`, `owner`, `done`, `low` and `worked` are history variables, and so is the head of a
    single-threaded side, whose program has only a tail. */
module HeadTail {
  import opened Counting

  type Tid = nat

  /** F_SP_ENQ / F_SC_DEQ, F_MP_ENQ / F_MC_DEQ, F_MP_RTS_ENQ / F_MC_RTS_DEQ */
  datatype Mode = Single | Ordered | Relaxed

  /** `pos`, `cnt`, `hpos`, `hcnt` and `seen` are values the thread has loaded; `c` is the number of
      the thread's claim and `i` the slots of it already worked on. */
  datatype PC =
    | Idle
    | LoadHead(n: nat)
    | LoadLimit(n: nat, pos: nat, cnt: nat)
    | CasHead(n: nat, pos: nat, cnt: nat, len: nat)
    | Work(c: nat, i: nat)
    | Turn(c: nat)
    | LoadOwn(c: nat)
    | Store(c: nat, seen: nat)
    | RtsTail(c: nat)
    | RtsHead(c: nat, pos: nat, cnt: nat)
    | RtsCas(c: nat, pos: nat, cnt: nat, hpos: nat, hcnt: nat)

  datatype Side = Side(
    mode: Mode,
    head: nat, headCnt: nat,
    tail: nat, tailCnt: nat,
    pcs: seq<PC>,
    ends: seq<nat>,      // claim c is the positions from ends[c] up to ends[c + 1]
    owner: seq<Tid>,     // who made claim c
    done: set<nat>,      // the claims whose owners have moved the tail word
    low: nat,            // the tail position is ends[low]
    worked: set<nat>)    // the positions whose slots have been worked on

  /** A compare-exchange may fail spuriously, and an ordered side writes an arbitrary count. */
  datatype Chance = Chance(fail: bool, count: nat)

  // ---------------------------------------------------------------- the machine

  function Claims(s: Side): nat { if s.ends == [] then 0 else |s.ends| - 1 }

  /** How many positions a claim of up to `n` from `pos` gets. */
  function Room(pos: nat, limit: nat, n: nat): nat {
    if limit <= pos then 0 else if limit - pos < n then limit - pos else n
  }

  function Move(s: Side, t: Tid, pc: PC): Side
    requires t < |s.pcs|
  {
    s.(pcs := s.pcs[t := pc])
  }

  function Claim(s: Side, t: Tid, len: nat, cnt: nat): Side
    requires t < |s.pcs|
  {
    Move(s.(head := s.head + len, headCnt := cnt, ends := s.ends + [s.head + len], owner := s.owner + [t]),
         t, Work(Claims(s), 0))
  }

  function Begin(s: Side, t: Tid, n: nat): Side {
    if t < |s.pcs| && s.pcs[t].Idle? && (s.mode.Single? ==> forall u: Tid :: u < |s.pcs| ==> s.pcs[u].Idle?)
    then Move(s, t, LoadHead(n)) else s
  }

  function End(ends: seq<nat>, c: nat): nat { if c < |ends| then ends[c] else 0 }

  function Length(ends: seq<nat>, c: nat): nat {
    if End(ends, c) <= End(ends, c + 1) then End(ends, c + 1) - End(ends, c) else 0
  }

  /** What a thread does once its slots are done. */
  function Release(mode: Mode, c: nat): PC {
    match mode case Single => LoadOwn(c) case Ordered => Turn(c) case Relaxed => RtsTail(c)
  }

  function Advance(s: Side, t: Tid, limit: nat, x: Chance): Side
    requires t < |s.pcs|
  {
    match s.pcs[t]
    case Idle => s
    case LoadHead(n) =>
      if s.mode.Single? then Move(s, t, LoadLimit(n, s.tail, s.tailCnt))
      else Move(s, t, LoadLimit(n, s.head, s.headCnt))
    case LoadLimit(n, pos, cnt) =>
      var len := Room(pos, limit, n);
      if len == 0 then Move(s, t, Idle)
      else if s.mode.Single? then Claim(s, t, len, s.headCnt)
      else Move(s, t, CasHead(n, pos, cnt, len))
    case CasHead(n, pos, cnt, len) =>
      if !x.fail && s.head == pos && s.headCnt == cnt
      then Claim(s, t, len, if s.mode.Relaxed? then cnt + 1 else x.count)
      else Move(s, t, LoadLimit(n, s.head, s.headCnt))
    case Work(c, i) =>
      Move(s.(worked := s.worked + {End(s.ends, c) + i}), t,
           if i + 1 < Length(s.ends, c) then Work(c, i + 1) else Release(s.mode, c))
    // default_update_ht
    case Turn(c) => if s.tail == End(s.ends, c) then Move(s, t, LoadOwn(c)) else s
    case LoadOwn(c) => Move(s, t, Store(c, s.tail))
    case Store(c, seen) =>
      Move(s.(tail := seen + Length(s.ends, c), done := s.done + {c}, low := c + 1), t, Idle)
    // rts_update_ht
    case RtsTail(c) => Move(s, t, RtsHead(c, s.tail, s.tailCnt))
    case RtsHead(c, pos, cnt) => Move(s, t, RtsCas(c, pos, cnt, s.head, s.headCnt))
    case RtsCas(c, pos, cnt, hpos, hcnt) =>
      if !x.fail && s.tail == pos && s.tailCnt == cnt then
        var s1 := s.(tailCnt := cnt + 1, done := s.done + {c});
        if cnt + 1 == hcnt then Move(s1.(tail := hpos, low := hcnt), t, Idle) else Move(s1, t, Idle)
      else Move(s, t, RtsHead(c, s.tail, s.tailCnt))
  }

  ghost predicate Initial(s: Side) {
    && s.head == s.tail == s.low == 0 && s.headCnt == s.tailCnt == 0
    && s.ends == [0] && s.owner == [] && s.done == {} && s.worked == {}
    && forall t: Tid :: t < |s.pcs| ==> s.pcs[t] == Idle
  }

  // ---------------------------------------------------------------- the invariant

  ghost predicate Increasing(ends: seq<nat>) {
    forall i, j :: 0 <= i < j < |ends| ==> ends[i] < ends[j]
  }

  /** The thread holds claim `pc.c`. */
  predicate Holds(pc: PC) {
    pc.Work? || pc.Turn? || pc.LoadOwn? || pc.Store? || pc.RtsTail? || pc.RtsHead? || pc.RtsCas?
  }

  ghost predicate AllWorked(ends: seq<nat>, worked: set<nat>, c: nat) {
    forall p: nat :: End(ends, c) <= p < End(ends, c + 1) ==> p in worked
  }

  ghost predicate ClaimOk(s: Side, t: Tid, pc: PC) {
    Holds(pc) ==>
      && pc.c < |s.owner| && s.owner[pc.c] == t && pc.c !in s.done && pc.c + 1 < |s.ends|
      && (if pc.Work? then pc.i < Length(s.ends, pc.c) &&
            forall p: nat :: s.ends[pc.c] <= p < s.ends[pc.c + 1] ==> (p in s.worked <==> p < s.ends[pc.c] + pc.i)
          else AllWorked(s.ends, s.worked, pc.c))
  }

  /** The two halves of a head word loaded: the position has not changed without the count being the same,
      and the count of a relaxed side is the number of claims below the position. */
  ghost predicate HeadSeen(s: Side, pos: nat, cnt: nat) {
    && pos <= s.head && (pos == s.head ==> cnt == s.headCnt)
    && (s.mode.Relaxed? ==> cnt < |s.ends| && pos == s.ends[cnt])
  }

  ghost predicate PcOk(s: Side, limit: nat, t: Tid, pc: PC) {
    match pc
    case LoadLimit(_, pos, cnt) => if s.mode.Single? then pos == s.tail == s.head else HeadSeen(s, pos, cnt)
    case CasHead(_, pos, cnt, len) => !s.mode.Single? && HeadSeen(s, pos, cnt) && 0 < len && pos + len <= limit
    case Turn(_) => s.mode.Ordered?
    case LoadOwn(c) => !s.mode.Relaxed? && s.low == c
    case Store(c, seen) => !s.mode.Relaxed? && s.low == c && seen == s.tail
    case RtsTail(_) => s.mode.Relaxed?
    case RtsHead(_, pos, cnt) =>
      s.mode.Relaxed? && cnt <= s.tailCnt && (cnt == s.tailCnt ==> pos == s.tail)
    case RtsCas(c, pos, cnt, hpos, hcnt) =>
      && s.mode.Relaxed? && cnt <= s.tailCnt && c < hcnt < |s.ends| && hpos == s.ends[hcnt]
      && (cnt == s.tailCnt ==> pos == s.tail && forall d :: d in s.done ==> d < hcnt)
    case _ => true
  }

  /** Claims, their owners and the tail word. */
  ghost predicate ClaimsOk(s: Side) {
    && |s.ends| == |s.owner| + 1 && s.ends[0] == 0 && Increasing(s.ends)
    && s.head == s.ends[|s.owner|]
    && (forall c :: c in s.done ==> c < |s.owner|)
    && (forall c: nat {:trigger AllWorked(s.ends, s.worked, c)} :: c in s.done ==> AllWorked(s.ends, s.worked, c))
    && s.low < |s.ends| && s.tail == s.ends[s.low]
    && (forall c: nat :: c < s.low ==> c in s.done)
    && (!s.mode.Relaxed? ==> forall c :: c in s.done ==> c < s.low)
    && (s.mode.Relaxed? ==> s.headCnt == |s.owner| && s.tailCnt == |s.done|)
    && (s.mode.Relaxed? && s.tailCnt == s.headCnt ==> s.low == |s.owner|)
    && (forall p :: p in s.worked ==> p < s.head)
  }

  /** A claim that is not done is in its owner's hands. */
  ghost predicate OwnersOk(s: Side) {
    forall c: nat :: c < |s.owner| && c !in s.done ==>
      s.owner[c] < |s.pcs| && Holds(s.pcs[s.owner[c]]) && s.pcs[s.owner[c]].c == c
  }

  ghost predicate PcsOk(s: Side, limit: nat) {
    forall t: Tid {:trigger ClaimOk(s, t, s.pcs[t])} {:trigger PcOk(s, limit, t, s.pcs[t])} ::
      t < |s.pcs| ==> ClaimOk(s, t, s.pcs[t]) && PcOk(s, limit, t, s.pcs[t])
  }

  ghost predicate AloneIfSingle(s: Side) {
    s.mode.Single? ==>
      forall t: Tid, u: Tid :: t < |s.pcs| && u < |s.pcs| && s.pcs[t] != Idle && s.pcs[u] != Idle ==> t == u
  }

  ghost predicate Inv(s: Side, limit: nat) {
    && ClaimsOk(s) && OwnersOk(s) && PcsOk(s, limit) && AloneIfSingle(s)
    && s.head <= limit
  }

  // ---------------------------------------------------------------- every step keeps it

  /** The other side moving on only gives more room. */
  lemma LimitGrows(s: Side, limit: nat, limit': nat)
    requires Inv(s, limit) && limit <= limit'
    ensures Inv(s, limit')
  {
    forall t: Tid | t < |s.pcs| ensures PcOk(s, limit', t, s.pcs[t]) { assert PcOk(s, limit, t, s.pcs[t]); }
  }

  /** A thread that keeps its claim, or has none, moves on without touching anything shared. */
  lemma PassKeeps(s: Side, limit: nat, t: Tid, pc: PC)
    requires Inv(s, limit) && t < |s.pcs|
    requires Holds(pc) <==> Holds(s.pcs[t])
    requires Holds(pc) ==> pc.c == s.pcs[t].c
    requires s.mode.Single? ==> pc == Idle || forall u: Tid :: u < |s.pcs| && u != t ==> s.pcs[u] == Idle
    requires ClaimOk(s, t, pc) && PcOk(s, limit, t, pc)
    ensures Inv(Move(s, t, pc), limit)
  {
    var s' := Move(s, t, pc);
    forall u: Tid | u < |s.pcs|
      ensures ClaimOk(s', u, s'.pcs[u]) && PcOk(s', limit, u, s'.pcs[u])
    {
      assert ClaimOk(s, u, s'.pcs[u]) && PcOk(s, limit, u, s'.pcs[u]);
    }
  }

  /** In a single-threaded side with no claim in flight the tail has caught up. */
  lemma SingleCaughtUp(s: Side, limit: nat, t: Tid)
    requires Inv(s, limit) && s.mode.Single? && t < |s.pcs| && s.pcs[t] != Idle && !Holds(s.pcs[t])
    ensures s.low == |s.owner| && s.tail == s.head
  {
    assert s.low < |s.owner| ==> s.low !in s.done;
  }

  /** In a single-threaded side the claim in flight is the only one that is not done. */
  lemma SingleLow(s: Side, limit: nat, t: Tid)
    requires Inv(s, limit) && s.mode.Single? && t < |s.pcs| && Holds(s.pcs[t])
    ensures s.low == s.pcs[t].c
  {
    assert ClaimOk(s, t, s.pcs[t]);
    assert s.low !in s.done;
  }

  lemma EndsDiffer(ends: seq<nat>, c: nat, d: nat)
    requires Increasing(ends) && c < |ends| && d < |ends|
    ensures c != d ==> ends[c] != ends[d]
  {
    if c < d {} else if d < c {}
  }

  lemma IntervalsDisjoint(ends: seq<nat>, c: nat, d: nat)
    requires Increasing(ends) && c + 1 < |ends| && d + 1 < |ends| && c != d
    ensures ends[c + 1] <= ends[d] || ends[d + 1] <= ends[c]
  {
    if c < d {
      assert c + 1 == d || ends[c + 1] < ends[d];
    } else {
      assert d + 1 == c || ends[d + 1] < ends[c];
    }
  }

  lemma ClaimKeepsClaims(s: Side, t: Tid, len: nat, cnt: nat)
    requires ClaimsOk(s) && OwnersOk(s) && t < |s.pcs| && !Holds(s.pcs[t]) && 0 < len
    requires s.mode.Relaxed? ==> cnt == s.headCnt + 1
    ensures ClaimsOk(Claim(s, t, len, cnt)) && OwnersOk(Claim(s, t, len, cnt))
  {
    var s' := Claim(s, t, len, cnt);
    assert forall d: nat :: d < |s.ends| ==> s'.ends[d] == s.ends[d];
    forall d | d in s.done ensures AllWorked(s'.ends, s'.worked, d) { assert AllWorked(s.ends, s.worked, d); }
    if s.mode.Relaxed? { DoneBounded(s.done, |s.owner|); }
  }

  lemma ClaimKeepsOther(s: Side, limit: nat, t: Tid, len: nat, cnt: nat, u: Tid)
    requires ClaimsOk(s) && t < |s.pcs| && u < |s.pcs| && u != t && 0 < len
    requires ClaimOk(s, u, s.pcs[u]) && PcOk(s, limit, u, s.pcs[u])
    requires s.mode.Single? ==> s.pcs[u] == Idle
    ensures var s' := Claim(s, t, len, cnt); ClaimOk(s', u, s.pcs[u]) && PcOk(s', limit, u, s.pcs[u])
  {
  }

  lemma ClaimStep(s: Side, limit: nat, t: Tid, len: nat, cnt: nat)
    requires Inv(s, limit) && t < |s.pcs| && !Holds(s.pcs[t]) && s.pcs[t] != Idle
    requires 0 < len && s.head + len <= limit
    requires s.mode.Relaxed? ==> cnt == s.headCnt + 1
    ensures Inv(Claim(s, t, len, cnt), limit)
  {
    var s' := Claim(s, t, len, cnt);
    ClaimKeepsClaims(s, t, len, cnt);
    forall u: Tid | u < |s.pcs| && u != t
      ensures ClaimOk(s', u, s'.pcs[u]) && PcOk(s', limit, u, s'.pcs[u])
    {
      ClaimKeepsOther(s, limit, t, len, cnt, u);
    }
    assert ClaimOk(s', t, s'.pcs[t]);
  }

  lemma {:induction false} DoneBounded(done: set<nat>, n: nat)
    requires forall c :: c in done ==> c < n
    ensures |done| <= n
  {
    if n != 0 {
      DoneBounded(done - {n - 1}, n - 1);
    }
  }

  /** A set of `n - 1` numbers below `n` that misses `c` has all the others. */
  lemma {:induction false} AllButOne(done: set<nat>, n: nat, c: nat)
    requires c < n && c !in done && |done| == n - 1
    requires forall d :: d in done ==> d < n
    ensures forall d: nat :: d < n && d != c ==> d in done
  {
    forall d: nat | d < n && d != c
      ensures d in done
    {
      if d !in done {
        DoneBounded(done + {c, d}, n);
      }
    }
  }

  lemma WorkKeepsOthers(s: Side, limit: nat, t: Tid, p: nat, u: Tid)
    requires Inv(s, limit) && t < |s.pcs| && u < |s.pcs| && u != t && s.pcs[t].Work?
    requires p == End(s.ends, s.pcs[t].c) + s.pcs[t].i
    ensures ClaimOk(s.(worked := s.worked + {p}), u, s.pcs[u])
  {
    assert ClaimOk(s, t, s.pcs[t]) && ClaimOk(s, u, s.pcs[u]);
    if Holds(s.pcs[u]) { IntervalsDisjoint(s.ends, s.pcs[t].c, s.pcs[u].c); }
  }

  lemma WorkStep(s: Side, limit: nat, t: Tid, x: Chance)
    requires Inv(s, limit) && t < |s.pcs| && s.pcs[t].Work?
    ensures Inv(Advance(s, t, limit, x), limit)
  {
    var s' := Advance(s, t, limit, x);
    if s.mode.Single? { SingleLow(s, limit, t); }
    WorkKeepsClaims(s, limit, t, x);
    forall u: Tid | u < |s.pcs| && u != t
      ensures ClaimOk(s', u, s'.pcs[u]) && PcOk(s', limit, u, s'.pcs[u])
    {
      WorkKeepsOthers(s, limit, t, End(s.ends, s.pcs[t].c) + s.pcs[t].i, u);
      assert PcOk(s, limit, u, s.pcs[u]);
    }
    WorkKeepsOwn(s, limit, t, x);
  }

  lemma WorkKeepsClaims(s: Side, limit: nat, t: Tid, x: Chance)
    requires Inv(s, limit) && t < |s.pcs| && s.pcs[t].Work?
    ensures ClaimsOk(Advance(s, t, limit, x)) && OwnersOk(Advance(s, t, limit, x))
  {
    var s' := Advance(s, t, limit, x);
    assert ClaimOk(s, t, s.pcs[t]);
    EndBelowHead(s, s.pcs[t].c + 1);
    forall d | d in s.done ensures AllWorked(s'.ends, s'.worked, d) { assert AllWorked(s.ends, s.worked, d); }
  }

  lemma EndBelowHead(s: Side, c: nat)
    requires ClaimsOk(s) && c < |s.ends|
    ensures s.ends[c] <= s.head
  {
    assert c == |s.owner| || s.ends[c] < s.ends[|s.owner|];
  }

  lemma WorkKeepsOwn(s: Side, limit: nat, t: Tid, x: Chance)
    requires Inv(s, limit) && t < |s.pcs| && s.pcs[t].Work?
    requires s.mode.Single? ==> s.low == s.pcs[t].c
    ensures var s' := Advance(s, t, limit, x); ClaimOk(s', t, s'.pcs[t]) && PcOk(s', limit, t, s'.pcs[t])
  {
    assert ClaimOk(s, t, s.pcs[t]);
  }

  /** The thread's claim is done and `low` claims lie below the new tail. */
  lemma DoneKeeps(s: Side, limit: nat, t: Tid, s': Side)
    requires Inv(s, limit) && t < |s.pcs| && Holds(s.pcs[t]) && !s.pcs[t].Work?
    requires s' == s.(pcs := s.pcs[t := Idle], done := s.done + {s.pcs[t].c},
                      tail := s'.tail, tailCnt := s'.tailCnt, low := s'.low)
    requires ClaimsOk(s')
    requires s.tailCnt <= s'.tailCnt && (s.mode.Relaxed? ==> s.tailCnt < s'.tailCnt)
    requires !s.mode.Relaxed? ==> s.low == s.pcs[t].c && s'.low == s.low + 1
    ensures Inv(s', limit)
  {
    assert ClaimOk(s, t, s.pcs[t]);
    forall u: Tid | u < |s.pcs| && u != t
      ensures ClaimOk(s', u, s'.pcs[u]) && PcOk(s', limit, u, s'.pcs[u])
    {
      assert ClaimOk(s, u, s.pcs[u]) && PcOk(s, limit, u, s.pcs[u]);
    }
  }

  lemma StoreStep(s: Side, limit: nat, t: Tid, x: Chance)
    requires Inv(s, limit) && t < |s.pcs| && s.pcs[t].Store?
    ensures Inv(Advance(s, t, limit, x), limit)
  {
    var s' := Advance(s, t, limit, x);
    assert ClaimOk(s, t, s.pcs[t]) && PcOk(s, limit, t, s.pcs[t]);
    forall c | c in s.done ensures AllWorked(s'.ends, s'.worked, c) { assert AllWorked(s.ends, s.worked, c); }
    DoneKeeps(s, limit, t, s');
  }

  /** The counting argument: if the head count read is one ahead of the tail count still current, the
      thread's own claim is the only one below the head position read that is not done. */
  lemma RtsCasStep(s: Side, limit: nat, t: Tid, x: Chance)
    requires Inv(s, limit) && t < |s.pcs| && s.pcs[t].RtsCas?
    requires !x.fail && s.tail == s.pcs[t].pos && s.tailCnt == s.pcs[t].cnt
    ensures Inv(Advance(s, t, limit, x), limit)
  {
    var s' := Advance(s, t, limit, x);
    var RtsCas(c, pos, cnt, hpos, hcnt) := s.pcs[t];
    assert ClaimOk(s, t, s.pcs[t]) && PcOk(s, limit, t, s.pcs[t]);
    DoneBounded(s'.done, hcnt);
    if cnt + 1 == hcnt { AllButOne(s.done, hcnt, c); }
    forall d | d in s'.done ensures AllWorked(s'.ends, s'.worked, d) { assert AllWorked(s.ends, s.worked, d); }
    assert ClaimsOk(s');
    DoneKeeps(s, limit, t, s');
  }

  lemma LoadLimitStep(s: Side, limit: nat, t: Tid, x: Chance)
    requires Inv(s, limit) && t < |s.pcs| && s.pcs[t].LoadLimit?
    ensures Inv(Advance(s, t, limit, x), limit)
  {
    var LoadLimit(n, pos, cnt) := s.pcs[t];
    var len := Room(pos, limit, n);
    assert PcOk(s, limit, t, s.pcs[t]);
    if len == 0 { PassKeeps(s, limit, t, Idle); }
    else if s.mode.Single? { ClaimStep(s, limit, t, len, s.headCnt); }
    else { PassKeeps(s, limit, t, CasHead(n, pos, cnt, len)); }
  }

  lemma CasHeadStep(s: Side, limit: nat, t: Tid, x: Chance)
    requires Inv(s, limit) && t < |s.pcs| && s.pcs[t].CasHead?
    ensures Inv(Advance(s, t, limit, x), limit)
  {
    var CasHead(n, pos, cnt, len) := s.pcs[t];
    assert PcOk(s, limit, t, s.pcs[t]);
    if !x.fail && s.head == pos && s.headCnt == cnt {
      ClaimStep(s, limit, t, len, if s.mode.Relaxed? then cnt + 1 else x.count);
    } else {
      PassKeeps(s, limit, t, LoadLimit(n, s.head, s.headCnt));
    }
  }

  lemma AdvanceKeepsInv(s: Side, limit: nat, t: Tid, x: Chance)
    requires Inv(s, limit) && t < |s.pcs|
    ensures Inv(Advance(s, t, limit, x), limit)
  {
    assert ClaimOk(s, t, s.pcs[t]) && PcOk(s, limit, t, s.pcs[t]);
    if s.mode.Single? && s.pcs[t].LoadHead? { SingleCaughtUp(s, limit, t); }
    match s.pcs[t] {
      case Idle =>
      case LoadHead(_) => PassKeeps(s, limit, t, Advance(s, t, limit, x).pcs[t]);
      case LoadLimit(_, _, _) => LoadLimitStep(s, limit, t, x);
      case CasHead(_, _, _, _) => CasHeadStep(s, limit, t, x);
      case Work(_, _) => WorkStep(s, limit, t, x);
      case Turn(c) =>
        if s.tail == End(s.ends, c) { TurnStep(s, limit, t, x); }
      case Store(_, _) => StoreStep(s, limit, t, x);
      case RtsCas(_, pos, cnt, _, _) =>
        if !x.fail && s.tail == pos && s.tailCnt == cnt { RtsCasStep(s, limit, t, x); }
        else { PassKeeps(s, limit, t, Advance(s, t, limit, x).pcs[t]); }
      case _ => PassKeeps(s, limit, t, Advance(s, t, limit, x).pcs[t]);
    }
  }

  /** In an ordered side the tail stands at the start of a claim only when all before it are done. */
  lemma TurnStep(s: Side, limit: nat, t: Tid, x: Chance)
    requires Inv(s, limit) && t < |s.pcs| && s.pcs[t].Turn? && s.tail == End(s.ends, s.pcs[t].c)
    ensures Inv(Advance(s, t, limit, x), limit)
  {
    var c := s.pcs[t].c;
    assert ClaimOk(s, t, s.pcs[t]) && PcOk(s, limit, t, s.pcs[t]);
    EndsDiffer(s.ends, c, s.low);
    PassKeeps(s, limit, t, LoadOwn(c));
  }

  lemma BeginKeepsInv(s: Side, limit: nat, t: Tid, n: nat)
    requires Inv(s, limit)
    ensures Inv(Begin(s, t, n), limit)
  {
    if Begin(s, t, n) != s { PassKeeps(s, limit, t, LoadHead(n)); }
  }

  // ---------------------------------------------------------------- what the other side may rely on

  /** How many positions thread `t` would claim now. */
  function Wanted(s: Side, t: Tid, limit: nat): nat
    requires t < |s.pcs|
  {
    match s.pcs[t]
    case LoadLimit(n, pos, _) => Room(pos, limit, n)
    case CasHead(_, _, _, len) => len
    case _ => 0
  }

  ghost predicate StepShaped(s: Side, limit: nat, t: Tid, s': Side)
    requires t < |s.pcs|
  {
    && |s'.pcs| == |s.pcs| && s'.pcs == s.pcs[t := s'.pcs[t]]
    && s'.worked == s.worked + (if s.pcs[t].Work? then {End(s.ends, s.pcs[t].c) + s.pcs[t].i} else {})
    && if Claims(s') > Claims(s) then
         && (s.pcs[t].LoadLimit? || s.pcs[t].CasHead?)
         && s'.head == s.head + Wanted(s, t, limit)
         && s'.ends == s.ends + [s'.head] && s'.pcs[t] == Work(|s.owner|, 0)
         && s'.worked == s.worked
       else s'.ends == s.ends && s'.head == s.head
  }

  lemma ClaimShape(s: Side, limit: nat, t: Tid, x: Chance)
    requires Inv(s, limit) && t < |s.pcs| && (s.pcs[t].LoadLimit? || s.pcs[t].CasHead?)
    ensures StepShaped(s, limit, t, Advance(s, t, limit, x))
  {
    assert ClaimOk(s, t, s.pcs[t]) && PcOk(s, limit, t, s.pcs[t]);
  }

  lemma OtherShape(s: Side, limit: nat, t: Tid, x: Chance)
    requires t < |s.pcs| && s.ends != [] && !s.pcs[t].LoadLimit? && !s.pcs[t].CasHead?
    ensures StepShaped(s, limit, t, Advance(s, t, limit, x))
  {
  }

  /** A step claims, or works on one slot, or does neither. */
  lemma StepShape(s: Side, limit: nat, t: Tid, x: Chance)
    requires Inv(s, limit) && t < |s.pcs|
    ensures StepShaped(s, limit, t, Advance(s, t, limit, x))
  {
    if s.pcs[t].LoadLimit? || s.pcs[t].CasHead? { ClaimShape(s, limit, t, x); } else { OtherShape(s, limit, t, x); }
  }

  /** Outside the work and without a claim a thread keeps the claim it has. */
  lemma PassShape(s: Side, limit: nat, t: Tid, x: Chance)
    requires t < |s.pcs| && s.ends != [] && !s.pcs[t].Work? && Claims(Advance(s, t, limit, x)) <= Claims(s)
    ensures var s' := Advance(s, t, limit, x);
            && |s'.pcs| == |s.pcs| && !s'.pcs[t].Work? && s'.ends == s.ends
            && (Holds(s'.pcs[t]) ==> Holds(s.pcs[t]) && s'.pcs[t].c == s.pcs[t].c)
  {
  }

  lemma WorkShape(s: Side, limit: nat, t: Tid, x: Chance)
    requires t < |s.pcs| && s.pcs[t].Work?
    ensures var s' := Advance(s, t, limit, x);
            var c, i := s.pcs[t].c, s.pcs[t].i;
            && |s'.pcs| == |s.pcs| && s'.ends == s.ends
            && s'.pcs[t] == if i + 1 < Length(s.ends, c) then Work(c, i + 1) else Release(s.mode, c)
  {
  }

  /** Without a claim a producer that still has its values to push still has as many. */
  lemma EarlyShape(s: Side, t: Tid, limit: nat, x: Chance)
    requires t < |s.pcs| && s.ends != [] && Claims(Advance(s, t, limit, x)) <= Claims(s)
    ensures var pc, pc' := s.pcs[t], Advance(s, t, limit, x).pcs[t];
            && |Advance(s, t, limit, x).pcs| == |s.pcs| && Advance(s, t, limit, x).ends == s.ends
            && (pc'.LoadHead? ==> pc' == pc)
            && (pc'.LoadLimit? ==> (pc.LoadHead? || pc.LoadLimit? || pc.CasHead?) && pc'.n == pc.n)
            && (pc'.CasHead? ==> (pc.LoadLimit? || pc.CasHead?) && pc'.n == pc.n && (pc.LoadLimit? ==> pc'.len <= pc.n) &&
                                 (pc.CasHead? ==> pc' == pc))
            && (pc'.Work? ==> pc.Work? && pc'.c == pc.c)
  {
  }

  lemma EndsMonotone(s: Side, c: nat, d: nat)
    requires ClaimsOk(s) && c < |s.ends| && d < |s.ends|
    ensures c <= d ==> s.ends[c] <= s.ends[d]
  {
    if c < d {}
  }

  lemma TailMovesForward(s: Side, limit: nat, t: Tid, x: Chance)
    requires Inv(s, limit) && t < |s.pcs|
    ensures s.tail <= Advance(s, t, limit, x).tail
  {
    assert PcOk(s, limit, t, s.pcs[t]);
    if s.pcs[t].RtsCas? {
      assert s.low > 0 ==> s.low - 1 in s.done;
      EndsMonotone(s, s.low, s.pcs[t].hcnt);
    }
  }

  /** A step keeps its own side and gives the other side no less room. */
  lemma StepKeepsBoth(s: Side, limit: nat, t: Tid, x: Chance, other: Side, extra: nat)
    requires Inv(s, limit) && t < |s.pcs| && Inv(other, s.tail + extra)
    ensures Inv(Advance(s, t, limit, x), limit)
    ensures Inv(other, Advance(s, t, limit, x).tail + extra)
  {
    AdvanceKeepsInv(s, limit, t, x);
    TailMovesForward(s, limit, t, x);
    LimitGrows(other, s.tail + extra, Advance(s, t, limit, x).tail + extra);
  }

  /** The tail position only takes values below which every slot is finished. */
  lemma BelowTailWorked(s: Side, limit: nat)
    requires Inv(s, limit)
    ensures s.tail <= s.head <= limit
    ensures forall p: nat :: p < s.tail ==> p in s.worked
    ensures forall p :: p in s.worked ==> p < s.head
  {
    EndBelowHead(s, s.low);
    forall p: nat | p < s.tail
      ensures p in s.worked
    {
      BelowEndWorked(s, p, s.low);
    }
  }

  lemma {:induction false} BelowEndWorked(s: Side, p: nat, k: nat)
    requires ClaimsOk(s) && k <= s.low && p < s.ends[k]
    ensures p in s.worked
  {
    if p < s.ends[k - 1] {
      BelowEndWorked(s, p, k - 1);
    } else {
      assert AllWorked(s.ends, s.worked, k - 1);
    }
  }

  /** The slot a thread is about to work on is claimed, not released and not worked on. */
  lemma WorkPosition(s: Side, limit: nat, t: Tid)
    requires Inv(s, limit) && t < |s.pcs| && s.pcs[t].Work?
    ensures s.pcs[t].c + 1 < |s.ends| && s.pcs[t].i < Length(s.ends, s.pcs[t].c)
    ensures var p := s.ends[s.pcs[t].c] + s.pcs[t].i; s.tail <= p < s.head && p !in s.worked
  {
    assert ClaimOk(s, t, s.pcs[t]);
    BelowTailWorked(s, limit);
    EndBelowHead(s, s.pcs[t].c + 1);
  }

  /** Two threads never work on the same slot position. */
  lemma WorkersApart(s: Side, limit: nat, t: Tid, u: Tid)
    requires Inv(s, limit) && t < |s.pcs| && u < |s.pcs| && t != u && s.pcs[t].Work? && s.pcs[u].Work?
    ensures End(s.ends, s.pcs[t].c) + s.pcs[t].i != End(s.ends, s.pcs[u].c) + s.pcs[u].i
  {
    assert ClaimOk(s, t, s.pcs[t]) && ClaimOk(s, u, s.pcs[u]);
    IntervalsDisjoint(s.ends, s.pcs[t].c, s.pcs[u].c);
  }

  /** The operation has not claimed anything yet. */
  predicate Early(pc: PC) { pc.LoadHead? || pc.LoadLimit? || pc.CasHead? }

  /** An operation that wants something gives up, wherever it is before its claim, only at an instant when the
      side is at its limit, and does so if it sees that. */
  lemma FailsOnlyAtLimit(s: Side, limit: nat, t: Tid, x: Chance)
    requires Inv(s, limit) && t < |s.pcs| && Early(s.pcs[t]) && s.pcs[t].n > 0
    ensures Advance(s, t, limit, x).pcs[t] == Idle <==> s.pcs[t].LoadLimit? && s.pcs[t].pos == s.head == limit
  {
    assert PcOk(s, limit, t, s.pcs[t]);
  }

  /** Steps that an operation still takes alone, if nothing fails spuriously: up to its claim, and again for a
      relaxed side's release. */
  function AloneLeft(s: Side, pc: PC): nat {
    match pc
    case LoadHead(_) => if s.mode.Single? then 2 else 3
    case LoadLimit(_, pos, cnt) => if s.mode.Single? then 1 else if pos == s.head && cnt == s.headCnt then 2 else 4
    case CasHead(_, pos, cnt, _) => if pos == s.head && cnt == s.headCnt then 1 else 3
    case RtsTail(_) => 3
    case RtsHead(_, pos, cnt) => if pos == s.tail && cnt == s.tailCnt then 2 else 4
    case RtsCas(_, pos, cnt, _, _) => if pos == s.tail && cnt == s.tailCnt then 1 else 3
    case _ => 0
  }

  /** Each of them brings its claim or release nearer: whatever was loaded before is loaded again at most once. */
  lemma GoesOnAlone(s: Side, limit: nat, t: Tid, x: Chance)
    requires t < |s.pcs| && s.ends != [] && AloneLeft(s, s.pcs[t]) > 0 && !x.fail
    ensures var r := Advance(s, t, limit, x);
            && |r.pcs| == |s.pcs|
            && AloneLeft(r, r.pcs[t]) < AloneLeft(s, s.pcs[t])
            && (AloneLeft(r, r.pcs[t]) == 0 ==>
                  if Early(s.pcs[t]) then r.pcs[t].Idle? || (r.pcs[t].Work? && Claims(r) == Claims(s) + 1)
                  else r.pcs[t].Idle? && r.done == s.done + {s.pcs[t].c})
  {
  }

  ghost function InFlight(s: Side): set<nat> { set c: nat | c < |s.owner| && c !in s.done }

  /** In a relaxed side the two counts differ by the claims in flight, each with a thread of its own;
      when they agree so do the positions. */
  lemma RtsCounts(s: Side, limit: nat)
    requires Inv(s, limit) && s.mode.Relaxed?
    ensures s.headCnt - s.tailCnt == |InFlight(s)|
    ensures forall c :: c in InFlight(s) ==>
              s.owner[c] < |s.pcs| && Holds(s.pcs[s.owner[c]]) && s.pcs[s.owner[c]].c == c
    ensures s.headCnt == s.tailCnt ==> s.head == s.tail
  {
    assert InFlight(s) == Below(|s.owner|) - s.done;
    assert s.done <= Below(|s.owner|);
  }

  /** With nobody at work every claim has been released. */
  lemma QuietReleased(s: Side, limit: nat)
    requires Inv(s, limit) && forall t: Tid :: t < |s.pcs| ==> s.pcs[t] == Idle
    ensures s.tail == s.head && s.low == |s.owner|
  {
    assert s.low < |s.owner| ==> s.low !in s.done || s.mode.Relaxed?;
    if s.mode.Relaxed? {
      RtsCounts(s, limit);
      assert InFlight(s) == {};
    }
  }

  // ---------------------------------------------------------------- waiting for one's turn

  /** How many steps the holder of a claim still takes, given its turn. */
  function Left(mode: Mode, ends: seq<nat>, pc: PC): nat {
    match pc
    case Work(c, i) =>
      (if i < Length(ends, c) then Length(ends, c) - i else 1) + (if mode.Single? then 2 else 3)
    case Turn(_) => 3
    case LoadOwn(_) => 2
    case Store(_, _) => 1
    case _ => 0
  }

  lemma MovesOn(s: Side, limit: nat, t: Tid, x: Chance)
    requires Inv(s, limit) && t < |s.pcs| && s.pcs[t] != Idle && Advance(s, t, limit, x) == s
    ensures s.pcs[t].Turn? && s.tail != End(s.ends, s.pcs[t].c)
  {
    assert ClaimOk(s, t, s.pcs[t]);
    assert Advance(s, t, limit, x).pcs[t] == s.pcs[t];
    if s.pcs[t].CasHead? || s.pcs[t].Work? { assert false; }
  }

  /** The only wait is for one's turn, and then the owner of the oldest claim not released is at work, or has
      its turn. */
  lemma NobodyIsStuck(s: Side, limit: nat, t: Tid, x: Chance) returns (u: Tid)
    requires Inv(s, limit) && t < |s.pcs| && s.pcs[t] != Idle && Advance(s, t, limit, x) == s
    ensures s.pcs[t].Turn? && s.low < s.pcs[t].c && s.low < |s.owner| && u == s.owner[s.low] < |s.pcs|
    ensures Holds(s.pcs[u]) && s.pcs[u].c == s.low && Left(s.mode, s.ends, s.pcs[u]) > 0
  {
    MovesOn(s, limit, t, x);
    assert ClaimOk(s, t, s.pcs[t]) && PcOk(s, limit, t, s.pcs[t]);
    assert s.low !in s.done;
    u := s.owner[s.low];
    assert ClaimOk(s, u, s.pcs[u]) && PcOk(s, limit, u, s.pcs[u]);
  }

  /** Each step of that owner brings its release nearer by one, and the last one moves the tail to the next
      claim. */
  lemma OldestGoesOn(s: Side, limit: nat, u: Tid, x: Chance)
    requires Inv(s, limit) && !s.mode.Relaxed? && s.low < |s.owner| && u == s.owner[s.low] < |s.pcs|
    requires Holds(s.pcs[u]) && s.pcs[u].c == s.low
    ensures var s' := Advance(s, u, limit, x);
            if Left(s.mode, s.ends, s.pcs[u]) == 1 then
              s'.low == s.low + 1 && s'.tail == s.ends[s.low + 1] && s'.pcs[u] == Idle
            else
              && s'.low == s.low && s'.ends == s.ends && Holds(s'.pcs[u]) && s'.pcs[u].c == s.low
              && Left(s.mode, s.ends, s'.pcs[u]) + 1 == Left(s.mode, s.ends, s.pcs[u])
  {
    assert ClaimOk(s, u, s.pcs[u]) && PcOk(s, limit, u, s.pcs[u]);
    EndsMonotone(s, s.low, s.low + 1);
  }
}
