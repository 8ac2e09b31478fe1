/** future_leader_state (tcq.h:81-132, 231-246): the leader's map from uids to promises, and process_batch,
    which hands the results of the batch to the promises.  The vector that the return hook yields is a
    parameter; a C++ exception is an outcome. */
module BatchResults {
  type Uid = nat

  datatype Promise<R> = Unset | Set(value: R)

  datatype Outcome = Done | SizeError | UidError | AlreadySatisfied

  datatype Answer<R> = Answer(uid: Uid, result: R)

  // ---------------------------------------------------------------- what the loops compute

  /** The map after `insert` for each uid in turn: an insert under a key that is there does nothing. */
  function MapOf(uids: seq<Uid>): (m: map<Uid, nat>)
    ensures forall u :: u in m <==> u in uids
    ensures forall u :: u in m ==> m[u] < |uids| && uids[m[u]] == u && u !in uids[..m[u]]
  {
    if uids == [] then map[]
    else
      var k := |uids| - 1;
      var m := MapOf(uids[..k]);
      assert uids == uids[..k] + [uids[k]];
      assert forall u :: u in m ==> uids[..k][..m[u]] == uids[..m[u]];
      if uids[k] in m then m else m[uids[k] := k]
  }

  datatype Progress<R> = Progress(outcome: Outcome, promises: seq<Promise<R>>)

  /** The promises after the answers `b` in turn, up to the first failure. */
  ghost function Deliver<R>(m: map<Uid, nat>, p: seq<Promise<R>>, b: seq<Answer<R>>): (r: Progress<R>)
    requires forall u :: u in m ==> m[u] < |p|
    ensures |r.promises| == |p|
  {
    if b == [] then Progress(Done, p)
    else
      var r := Deliver(m, p, b[..|b| - 1]);
      var a := b[|b| - 1];
      if r.outcome != Done then r
      else if a.uid !in m then Progress(UidError, r.promises)
      else if r.promises[m[a.uid]].Set? then Progress(AlreadySatisfied, r.promises)
      else Progress(Done, r.promises[m[a.uid] := Set(a.result)])
  }

  ghost function Fresh<R>(n: nat): seq<Promise<R>> { seq(n, _ => Unset) }

  ghost predicate Distinct(uids: seq<Uid>) { forall i, j :: 0 <= i < j < |uids| ==> uids[i] != uids[j] }

  function Uids<R>(b: seq<Answer<R>>): (r: seq<Uid>)
    ensures |r| == |b| && forall i :: 0 <= i < |b| ==> r[i] == b[i].uid
  {
    seq(|b|, i requires 0 <= i < |b| => b[i].uid)
  }

  // ---------------------------------------------------------------- the class

  class LeaderState<R> {
    var uidMap: map<Uid, nat>
    const promises: array<Promise<R>>
    var processed: bool

    ghost predicate Valid()
      reads this
    {
      forall u :: u in uidMap ==> uidMap[u] < promises.Length
    }

    /** A state for the batch with these uids. */
    constructor (uids: seq<Uid>)
      ensures Valid() && fresh(promises)
      ensures uidMap == MapOf(uids) && promises[..] == Fresh(|uids|) && !processed
    {
      uidMap, processed := map[], false;
      promises := new Promise<R>[|uids|](_ => Unset);
      new;
      assert promises[..] == Fresh(|uids|);
      var i := 0;
      assert uids[..0] == [];
      while i < |uids|
        invariant 0 <= i <= |uids|
        invariant uidMap == MapOf(uids[..i])
        invariant promises[..] == Fresh(|uids|) && !processed
        modifies this`uidMap
      {
        assert uids[..i + 1][..i] == uids[..i];
        if uids[i] !in uidMap { uidMap := uidMap[uids[i] := i]; }
        i := i + 1;
      }
      assert uids[..|uids|] == uids;
    }

    /** process_batch.  `b` is what the return hook would yield, were it called. */
    method ProcessBatch(b: seq<Answer<R>>) returns (outcome: Outcome)
      requires Valid()
      modifies this`processed, promises
      ensures Valid()
      ensures old(processed) ==> outcome == Done && promises[..] == old(promises[..])
      ensures !old(processed) && |b| != |uidMap| ==> outcome == SizeError && promises[..] == old(promises[..])
      ensures !old(processed) && |b| == |uidMap| ==>
                Progress(outcome, promises[..]) == Deliver(uidMap, old(promises[..]), b)
      ensures processed <==> outcome == Done
    {
      if processed { return Done; }
      if |b| != |uidMap| { return SizeError; }
      var i := 0;
      assert b[..0] == [];
      while i < |b|
        invariant 0 <= i <= |b| && !processed && Valid()
        invariant Progress(Done, promises[..]) == Deliver(uidMap, old(promises[..]), b[..i])
        modifies promises
      {
        assert b[..i + 1][..i] == b[..i];
        if b[i].uid !in uidMap {
          DeliverStops(uidMap, old(promises[..]), b, i + 1);
          return UidError;
        }
        var idx := uidMap[b[i].uid];
        if promises[idx].Set? {
          DeliverStops(uidMap, old(promises[..]), b, i + 1);
          return AlreadySatisfied;
        }
        promises[idx] := Set(b[i].result);
        i := i + 1;
      }
      assert b[..|b|] == b;
      processed := true;
      return Done;
    }
  }

  lemma {:induction false} DeliverStops<R>(m: map<Uid, nat>, p: seq<Promise<R>>, b: seq<Answer<R>>, k: nat)
    requires forall u :: u in m ==> m[u] < |p|
    requires k <= |b| && Deliver(m, p, b[..k]).outcome != Done
    ensures Deliver(m, p, b) == Deliver(m, p, b[..k])
  {
    if k < |b| {
      assert b[..|b| - 1][..k] == b[..k];
      DeliverStops(m, p, b[..|b| - 1], k);
    } else {
      assert b[..k] == b;
    }
  }

  // ---------------------------------------------------------------- what delivery achieves

  ghost predicate Injective(m: map<Uid, nat>) { forall u, v :: u in m && v in m && m[u] == m[v] ==> u == v }

  /** The loop ends without an exception exactly if every answer is for a uid of the batch and no uid
      is answered twice; then the answered promises, and no others, are set, each to its own result. */
  lemma {:induction false} DeliverMeans<R>(m: map<Uid, nat>, n: nat, b: seq<Answer<R>>)
    requires Injective(m) && forall u :: u in m ==> m[u] < n
    ensures var r := Deliver(m, Fresh(n), b);
            && (r.outcome == Done <==> (forall j :: 0 <= j < |b| ==> b[j].uid in m) && Distinct(Uids(b)))
            && (r.outcome == Done ==>
                  && (forall j :: 0 <= j < |b| ==> r.promises[m[b[j].uid]] == Set(b[j].result))
                  && (forall u :: u in m && u !in Uids(b) ==> r.promises[m[u]] == Unset)
                  && (forall i :: 0 <= i < n && i !in m.Values ==> r.promises[i] == Unset))
  {
    if b != [] {
      DeliverMeans(m, n, b[..|b| - 1]);
      assert Uids(b) == Uids(b[..|b| - 1]) + [b[|b| - 1].uid];
      if Deliver(m, Fresh(n), b[..|b| - 1]).outcome == Done { LastAnswer(m, n, b); } else { StillFails(m, b); }
    }
  }

  /** The last answer is taken exactly if it is for a uid of the batch not answered before. */
  lemma LastAnswer<R>(m: map<Uid, nat>, n: nat, b: seq<Answer<R>>)
    requires Injective(m) && (forall u :: u in m ==> m[u] < n) && b != []
    requires var c := b[..|b| - 1]; var q := Deliver(m, Fresh(n), c);
             && q.outcome == Done && Distinct(Uids(c)) && (forall j :: 0 <= j < |c| ==> c[j].uid in m)
             && (forall j :: 0 <= j < |c| ==> q.promises[m[c[j].uid]] == Set(c[j].result))
             && (forall u :: u in m && u !in Uids(c) ==> q.promises[m[u]] == Unset)
    ensures Deliver(m, Fresh(n), b).outcome == Done <==> b[|b| - 1].uid in m && Distinct(Uids(b))
    ensures Deliver(m, Fresh(n), b).outcome == Done ==> b[|b| - 1].uid !in Uids(b[..|b| - 1])
  {
    var k := |b| - 1;
    var c := b[..k];
    assert Uids(c) == Uids(b)[..k];
    if b[k].uid in m {
      if b[k].uid in Uids(c) {
        var j :| 0 <= j < k && Uids(c)[j] == b[k].uid;
        assert Deliver(m, Fresh(n), c).promises[m[c[j].uid]] == Set(c[j].result);
        assert Uids(b)[j] == Uids(b)[k];
      } else {
        NewIsDistinct(b);
      }
    }
  }

  lemma StillFails<R>(m: map<Uid, nat>, b: seq<Answer<R>>)
    requires b != []
    requires var c := b[..|b| - 1]; !((forall j :: 0 <= j < |c| ==> c[j].uid in m) && Distinct(Uids(c)))
    ensures !((forall j :: 0 <= j < |b| ==> b[j].uid in m) && Distinct(Uids(b)))
  {
    var c := b[..|b| - 1];
    if j :| 0 <= j < |c| && c[j].uid !in m {
      assert b[j].uid !in m;
    } else {
      var i, j :| 0 <= i < j < |c| && Uids(c)[i] == Uids(c)[j];
      assert Uids(b)[i] == Uids(b)[j];
    }
  }

  lemma NewIsDistinct<R>(b: seq<Answer<R>>)
    requires b != [] && Distinct(Uids(b[..|b| - 1])) && b[|b| - 1].uid !in Uids(b[..|b| - 1])
    ensures Distinct(Uids(b))
  {
    var k := |b| - 1;
    assert Uids(b[..k]) == Uids(b)[..k];
    forall i, j | 0 <= i < j < |b| ensures Uids(b)[i] != Uids(b)[j] {
      assert Uids(b)[i] == Uids(b[..k])[i];
      if j < k { assert Uids(b)[j] == Uids(b[..k])[j]; }
    }
  }

  /** Answer `k` is the first for no uid of the batch, or for one answered before. */
  ghost predicate FirstBad<R>(m: map<Uid, nat>, b: seq<Answer<R>>, k: nat) {
    && k < |b| && (forall j :: 0 <= j < k ==> b[j].uid in m) && Distinct(Uids(b[..k]))
    && (b[k].uid !in m || b[k].uid in Uids(b[..k]))
  }

  /** An exception comes from the first bad answer and tells its kind, and by then exactly the promises of the
      answers before it are set, each to its own result. */
  lemma FailsAtFirstBad<R>(m: map<Uid, nat>, n: nat, b: seq<Answer<R>>) returns (k: nat)
    requires Injective(m) && (forall u :: u in m ==> m[u] < n) && Deliver(m, Fresh(n), b).outcome != Done
    ensures FirstBad(m, b, k)
    ensures var r := Deliver(m, Fresh(n), b);
            && r.outcome == (if b[k].uid !in m then UidError else AlreadySatisfied)
            && (forall j :: 0 <= j < k ==> r.promises[m[b[j].uid]] == Set(b[j].result))
            && (forall u :: u in m && u !in Uids(b[..k]) ==> r.promises[m[u]] == Unset)
            && (forall i :: 0 <= i < n && i !in m.Values ==> r.promises[i] == Unset)
  {
    k := StoppedAt(m, n, b);
    DeliverMeans(m, n, b[..k]);
    DeliverStops(m, Fresh(n), b, k + 1);
    OneMore(m, Fresh(n), b, k);
    if b[k].uid in m && b[k].uid !in Uids(b[..k]) { assert false; }
  }

  lemma OneMore<R>(m: map<Uid, nat>, p: seq<Promise<R>>, b: seq<Answer<R>>, k: nat)
    requires (forall u :: u in m ==> m[u] < |p|) && k < |b| && Deliver(m, p, b[..k]).outcome == Done
    ensures var q, r := Deliver(m, p, b[..k]), Deliver(m, p, b[..k + 1]);
            r == if b[k].uid !in m then Progress(UidError, q.promises)
                 else if q.promises[m[b[k].uid]].Set? then Progress(AlreadySatisfied, q.promises)
                 else Progress(Done, q.promises[m[b[k].uid] := Set(b[k].result)])
  {
    assert b[..k + 1][..k] == b[..k];
  }

  lemma {:induction false} StoppedAt<R>(m: map<Uid, nat>, n: nat, b: seq<Answer<R>>) returns (k: nat)
    requires (forall u :: u in m ==> m[u] < n) && Deliver(m, Fresh(n), b).outcome != Done
    ensures k < |b| && Deliver(m, Fresh(n), b[..k]).outcome == Done && Deliver(m, Fresh(n), b[..k + 1]).outcome != Done
  {
    var c := b[..|b| - 1];
    if Deliver(m, Fresh(n), c).outcome == Done {
      k := |b| - 1;
      assert b[..k + 1] == b;
    } else {
      k := StoppedAt(m, n, c);
      assert c[..k] == b[..k] && c[..k + 1] == b[..k + 1];
    }
  }

  // ---------------------------------------------------------------- the futures of a batch

  ghost function Elements(s: seq<Uid>): (r: set<Uid>)
    ensures forall u :: u in r <==> u in s
  {
    set u | u in s
  }

  /** A sequence has at most as many elements as places, and as many exactly if they are distinct. */
  lemma {:induction false} DistinctSize(s: seq<Uid>)
    ensures |Elements(s)| <= |s|
    ensures |Elements(s)| == |s| <==> Distinct(s)
    ensures Distinct(s) <==> forall u :: multiset(s)[u] <= 1
  {
    if s != [] {
      var k := |s| - 1;
      var t := s[..k];
      DistinctSize(t);
      assert s == t + [s[k]];
      assert Elements(s) == Elements(t) + {s[k]};
      if s[k] in t {
        var i :| 0 <= i < k && t[i] == s[k];
        assert s[i] == s[k];
        assert multiset(s)[s[k]] >= 2;
      } else if !Distinct(t) {
        var i, j :| 0 <= i < j < k && t[i] == t[j];
        assert s[i] == s[j];
        var u :| multiset(t)[u] > 1;
        assert multiset(s)[u] > 1;
      }
    }
  }

  lemma SameSetSameBag(a: seq<Uid>, b: seq<Uid>)
    requires Distinct(a) && Distinct(b)
    ensures multiset(a) == multiset(b) <==> Elements(a) == Elements(b)
  {
    DistinctSize(a);
    DistinctSize(b);
    if multiset(a) == multiset(b) {
      forall u ensures u in a <==> u in b { assert u in a <==> u in multiset(a); }
    } else if Elements(a) == Elements(b) {
      forall u ensures multiset(a)[u] == multiset(b)[u] { assert u in a <==> u in b; }
    }
  }

  lemma SubsetOfSize<T>(a: set<T>, b: set<T>)
    requires a <= b && |a| == |b|
    ensures a == b
  {
    assert |b - a| == |b| - |a|;
  }

  lemma MapSize(uids: seq<Uid>)
    ensures |MapOf(uids)| == |Elements(uids)|
    ensures Injective(MapOf(uids))
  {
    assert MapOf(uids).Keys == Elements(uids);
    forall u, v | u in MapOf(uids) && v in MapOf(uids) && MapOf(uids)[u] == MapOf(uids)[v] ensures u == v {
      assert uids[MapOf(uids)[u]] == u;
    }
  }

  /** Answers of the right number are all delivered exactly if their uids are those of the batch, each
      once; with distinct uids in the batch, exactly if they are a permutation of them. */
  lemma DoneExactly<R>(uids: seq<Uid>, b: seq<Answer<R>>)
    requires |b| == |MapOf(uids)|
    ensures Deliver(MapOf(uids), Fresh(|uids|), b).outcome == Done <==>
              Distinct(Uids(b)) && Elements(Uids(b)) == Elements(uids)
    ensures Distinct(uids) ==>
              (Deliver(MapOf(uids), Fresh(|uids|), b).outcome == Done <==> multiset(Uids(b)) == multiset(uids))
  {
    var m := MapOf(uids);
    MapSize(uids);
    DeliverMeans(m, |uids|, b);
    DistinctSize(Uids(b));
    DistinctSize(uids);
    if (forall j :: 0 <= j < |b| ==> b[j].uid in m) && Distinct(Uids(b)) {
      assert Elements(Uids(b)) <= Elements(uids);
      SubsetOfSize(Elements(Uids(b)), Elements(uids));
    }
    if Elements(Uids(b)) == Elements(uids) {
      forall j | 0 <= j < |b| ensures b[j].uid in m {
        assert Uids(b)[j] in Elements(Uids(b));
      }
    }
    if Distinct(uids) && Distinct(Uids(b)) { SameSetSameBag(Uids(b), uids); }
  }

  lemma EarlierIn(s: seq<Uid>, k: nat, i: nat)
    requires k < |s| && i <= |s|
    ensures k < i ==> s[k] in s[..i]
  {
    if k < i { assert s[..i][k] == s[k]; }
  }

  lemma FirstIsMapped(uids: seq<Uid>, i: nat)
    requires i < |uids| && uids[i] !in uids[..i]
    ensures uids[i] in MapOf(uids) && MapOf(uids)[uids[i]] == i
  {
    var k := MapOf(uids)[uids[i]];
    EarlierIn(uids, k, i);
    EarlierIn(uids, i, k);
  }

  lemma FirstIsAnswered<R>(uids: seq<Uid>, b: seq<Answer<R>>, i: nat)
    requires |b| == |MapOf(uids)| && Deliver(MapOf(uids), Fresh(|uids|), b).outcome == Done
    requires i < |uids| && uids[i] !in uids[..i]
    ensures var p := Deliver(MapOf(uids), Fresh(|uids|), b).promises;
            exists j :: 0 <= j < |b| && b[j].uid == uids[i] && p[i] == Set(b[j].result)
  {
    MapSize(uids);
    DeliverMeans(MapOf(uids), |uids|, b);
    DoneExactly(uids, b);
    FirstIsMapped(uids, i);
    assert uids[i] in Elements(Uids(b));
    var j :| 0 <= j < |b| && Uids(b)[j] == uids[i];
    assert b[j].uid == uids[i];
  }

  lemma RepeatIsUnanswered<R>(uids: seq<Uid>, b: seq<Answer<R>>, i: nat)
    requires Deliver(MapOf(uids), Fresh(|uids|), b).outcome == Done
    requires i < |uids| && uids[i] in uids[..i]
    ensures Deliver(MapOf(uids), Fresh(|uids|), b).promises[i] == Unset
  {
    MapSize(uids);
    DeliverMeans(MapOf(uids), |uids|, b);
    assert i !in MapOf(uids).Values;
  }

  lemma DistinctHasNoRepeat(uids: seq<Uid>)
    ensures Distinct(uids) <==> forall i :: 0 <= i < |uids| ==> uids[i] !in uids[..i]
  {
    if !Distinct(uids) {
      var i, j :| 0 <= i < j < |uids| && uids[i] == uids[j];
      EarlierIn(uids, i, j);
    }
  }

  /** After a batch that ends without an exception, the promise of a task whose uid is the first of its
      kind holds the one answer for that uid, and a task that repeats an earlier uid has a promise that
      nobody has set: every future of the batch is answered exactly if the uids are distinct. */
  lemma EachToItsOwn<R>(uids: seq<Uid>, b: seq<Answer<R>>)
    requires |b| == |MapOf(uids)| && Deliver(MapOf(uids), Fresh(|uids|), b).outcome == Done
    ensures var p := Deliver(MapOf(uids), Fresh(|uids|), b).promises;
            && (forall i :: 0 <= i < |uids| && uids[i] !in uids[..i] ==>
                  exists j :: 0 <= j < |b| && b[j].uid == uids[i] && p[i] == Set(b[j].result))
            && (forall i :: 0 <= i < |uids| && uids[i] in uids[..i] ==> p[i] == Unset)
            && ((forall i :: 0 <= i < |uids| ==> p[i].Set?) <==> Distinct(uids))
  {
    var p := Deliver(MapOf(uids), Fresh(|uids|), b).promises;
    forall i | 0 <= i < |uids| && uids[i] !in uids[..i]
      ensures exists j :: 0 <= j < |b| && b[j].uid == uids[i] && p[i] == Set(b[j].result)
    {
      FirstIsAnswered(uids, b, i);
    }
    forall i | 0 <= i < |uids| && uids[i] in uids[..i] ensures p[i] == Unset {
      RepeatIsUnanswered(uids, b, i);
    }
    DistinctHasNoRepeat(uids);
  }
}
