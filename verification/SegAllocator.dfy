/** SegAllocator (seg_allocator.h:10-125): a best-fit allocator over one region, with its free segments
    indexed by size and by offset.  Addresses are unbounded numbers and a null result is `None`.  `live`
    (the outstanding blocks, size by offset) is a history variable. */
module SegAllocator {
  import opened Options

  /** Size by offset. */
  type Segments = map<nat, nat>

  // ---------------------------------------------------------------- segment maps

  predicate Spans(o: nat, n: nat, a: nat) { o <= a < o + n }

  ghost predicate Covers(m: Segments, a: nat) { exists o :: o in m && Spans(o, m[o], a) }

  ghost predicate Positive(m: Segments) { forall o :: o in m ==> m[o] > 0 }

  ghost predicate Disjoint(m: Segments) { forall o, p :: o in m && p in m && o < p ==> o + m[o] <= p }

  /** Non-empty, disjoint, and with a gap between any two. */
  ghost predicate Coalesced(m: Segments) {
    Positive(m) && forall o, p :: o in m && p in m && o < p ==> o + m[o] < p
  }

  ghost predicate SameAddresses(m: Segments, n: Segments) { forall a: nat :: Covers(m, a) <==> Covers(n, a) }

  lemma CoveredBy(m: Segments, o: nat, a: nat)
    requires o in m && Spans(o, m[o], a)
    ensures Covers(m, a)
  {
  }

  /** The addresses beside a segment are not covered. */
  lemma EdgesFree(m: Segments, o: nat)
    requires Coalesced(m) && o in m
    ensures !Covers(m, o + m[o])
    ensures o > 0 ==> !Covers(m, o - 1)
  {
  }

  lemma SegmentKept(m: Segments, n: Segments, o: nat)
    requires Coalesced(m) && Coalesced(n) && SameAddresses(m, n) && o in m
    ensures o in n && n[o] == m[o]
  {
    CoveredBy(m, o, o);
    EdgesFree(m, o);
    var p :| p in n && Spans(p, n[p], o);
    EdgesFree(n, p);
    if o > 0 { Uncovered(n, p, o - 1); }
    Uncovered(n, p, o + m[o]);
    Uncovered(m, o, p + n[p]);
  }

  lemma Uncovered(m: Segments, o: nat, a: nat)
    requires o in m && !Covers(m, a)
    ensures !Spans(o, m[o], a)
  {
  }

  /** A coalesced segment map is determined by the addresses it covers. */
  lemma CanonicalForm(m: Segments, n: Segments)
    requires Coalesced(m) && Coalesced(n)
    ensures SameAddresses(m, n) <==> m == n
  {
    if SameAddresses(m, n) {
      forall o | o in m ensures o in n && n[o] == m[o] { SegmentKept(m, n, o); }
      forall o | o in n ensures o in m { SegmentKept(n, m, o); }
    }
  }

  // ---------------------------------------------------------------- carving and filling

  /** Of the segment at `o` the block of `size` at `off` is taken. */
  function Carve(m: Segments, o: nat, off: nat, size: nat): Segments
    requires o in m && o <= off && off + size <= o + m[o]
  {
    var n := m[o];
    var m1 := if o < off then m[o := off - o] else m - {o};
    if off + size < o + n then m1[off + size := o + n - (off + size)] else m1
  }

  lemma CarveCoalesced(m: Segments, o: nat, off: nat, size: nat)
    requires Coalesced(m) && o in m && o <= off && off + size <= o + m[o] && size > 0
    ensures Coalesced(Carve(m, o, off, size))
  {
  }

  lemma CarveKeeps(m: Segments, o: nat, off: nat, size: nat, a: nat)
    requires Coalesced(m) && o in m && o <= off && off + size <= o + m[o] && Covers(m, a) && !Spans(off, size, a)
    ensures Covers(Carve(m, o, off, size), a)
  {
    var r := Carve(m, o, off, size);
    var p :| p in m && Spans(p, m[p], a);
    if p == o { CoveredBy(r, if a < off then o else off + size, a); } else { CarveOther(m, o, off, size, p, a); }
  }

  lemma CarveOther(m: Segments, o: nat, off: nat, size: nat, p: nat, a: nat)
    requires Coalesced(m) && o in m && o <= off && off + size <= o + m[o]
    requires p in m && p != o && Spans(p, m[p], a) && !Spans(off, size, a)
    ensures Covers(Carve(m, o, off, size), a)
  {
    var r := Carve(m, o, off, size);
    CoveredBy(r, p, a);
  }

  lemma CarveUncovers(m: Segments, o: nat, off: nat, size: nat, a: nat)
    requires Coalesced(m) && o in m && o <= off && off + size <= o + m[o] && size > 0 && Covers(Carve(m, o, off, size), a)
    ensures Covers(m, a) && !Spans(off, size, a)
  {
    var r := Carve(m, o, off, size);
    var p :| p in r && Spans(p, r[p], a);
    CoveredBy(m, if p == off + size && off + size < o + m[o] then o else p, a);
  }

  lemma CarveCovers(m: Segments, o: nat, off: nat, size: nat, a: nat)
    requires Coalesced(m) && o in m && o <= off && off + size <= o + m[o] && size > 0
    ensures Covers(Carve(m, o, off, size), a) <==> Covers(m, a) && !Spans(off, size, a)
  {
    if Covers(m, a) && !Spans(off, size, a) { CarveKeeps(m, o, off, size, a); }
    if Covers(Carve(m, o, off, size), a) { CarveUncovers(m, o, off, size, a); }
  }

  /** The block is put back, joined with its neighbours. */
  function Fill(m: Segments, off: nat, size: nat, prev: Option<nat>, next: Option<nat>): Segments
    requires prev.Some? ==> prev.value in m && prev.value < off
    requires next.Some? ==> next.value in m && next.value >= off
  {
    var joinsPrev := prev.Some? && prev.value + m[prev.value] == off;
    var joinsNext := next.Some? && off + size == next.value;
    if joinsPrev && joinsNext then (m - {next.value})[prev.value := m[prev.value] + size + m[next.value]]
    else if joinsPrev then m[prev.value := m[prev.value] + size]
    else if joinsNext then (m - {next.value})[off := m[next.value] + size]
    else m[off := size]
  }

  /** `prev` and `next` are the neighbours that the map has around `off`. */
  ghost predicate Neighbours(m: Segments, off: nat, prev: Option<nat>, next: Option<nat>) {
    && (match prev
        case Some(p) => p in m && p < off && forall k :: k in m && k < off ==> k <= p
        case None => forall k :: k in m ==> k >= off)
    && (match next
        case Some(n) => n in m && n >= off && forall k :: k in m && k >= off ==> n <= k
        case None => forall k :: k in m ==> k < off)
  }

  /** The block is clear of the segments. */
  ghost predicate Clear(m: Segments, off: nat, size: nat) {
    forall o :: o in m ==> o + m[o] <= off || off + size <= o
  }

  /** A segment with gaps to all others. */
  lemma PutCoalesced(m: Segments, o: nat, n: nat)
    requires Coalesced(m) && n > 0
    requires forall p :: p in m && p != o ==> p + m[p] < o || o + n < p
    ensures Coalesced(m[o := n])
  {
  }

  predicate Joins(m: Segments, off: nat, prev: Option<nat>)
    requires prev.Some? ==> prev.value in m
  {
    prev.Some? && prev.value + m[prev.value] == off
  }

  predicate Meets(end: nat, next: Option<nat>) { next.Some? && end == next.value }

  /** The segment that the block becomes, and the segments that stay. */
  function Home(m: Segments, off: nat, prev: Option<nat>): nat
    requires prev.Some? ==> prev.value in m
  {
    if Joins(m, off, prev) then prev.value else off
  }

  function End(m: Segments, end: nat, next: Option<nat>): nat
    requires next.Some? ==> next.value in m
  {
    if Meets(end, next) then end + m[next.value] else end
  }

  function Rest(m: Segments, end: nat, next: Option<nat>): Segments {
    if Meets(end, next) then m - {next.value} else m
  }

  lemma FillIs(m: Segments, off: nat, size: nat, prev: Option<nat>, next: Option<nat>)
    requires (prev.Some? ==> prev.value in m && prev.value < off) && (next.Some? ==> next.value in m && next.value >= off)
    ensures Home(m, off, prev) <= off && End(m, off + size, next) >= off + size
    ensures Fill(m, off, size, prev, next) ==
            Rest(m, off + size, next)[Home(m, off, prev) := End(m, off + size, next) - Home(m, off, prev)]
  {
  }

  /** It has gaps to all the others. */
  lemma FillApart(m: Segments, off: nat, size: nat, prev: Option<nat>, next: Option<nat>, p: nat)
    requires Coalesced(m) && Neighbours(m, off, prev, next) && Clear(m, off, size) && size > 0
    requires p in Rest(m, off + size, next) && p != Home(m, off, prev)
    ensures p in m && (p + m[p] < Home(m, off, prev) || End(m, off + size, next) < p)
  {
    assert p + m[p] <= off || off + size <= p;
    if p < off { assert p <= prev.value; } else { assert next.value <= p; }
  }

  lemma FillCoalesced(m: Segments, off: nat, size: nat, prev: Option<nat>, next: Option<nat>)
    requires Coalesced(m) && Neighbours(m, off, prev, next) && Clear(m, off, size) && size > 0
    ensures Coalesced(Fill(m, off, size, prev, next))
  {
    FillIs(m, off, size, prev, next);
    var rest, o, end := Rest(m, off + size, next), Home(m, off, prev), End(m, off + size, next);
    forall p | p in rest && p != o ensures p + rest[p] < o || end < p { FillApart(m, off, size, prev, next, p); }
    RestCoalesced(m, rest);
    PutCoalesced(rest, o, end - o);
  }

  lemma RestCoalesced(m: Segments, rest: Segments)
    requires Coalesced(m) && forall p :: p in rest ==> p in m && rest[p] == m[p]
    ensures Coalesced(rest)
  {
  }

  lemma FillCovers(m: Segments, off: nat, size: nat, prev: Option<nat>, next: Option<nat>, a: nat)
    requires Coalesced(m) && Neighbours(m, off, prev, next) && Clear(m, off, size) && size > 0
    ensures Covers(Fill(m, off, size, prev, next), a) <==> Covers(m, a) || Spans(off, size, a)
  {
    var r := Fill(m, off, size, prev, next);
    FillCoversAll(m, off, size, prev, next, a);
    var home := if prev.Some? && prev.value + m[prev.value] == off then prev.value else off;
    if Covers(r, a) && !Spans(off, size, a) {
      var p :| p in r && Spans(p, r[p], a);
      if p != home { CoveredBy(m, p, a); }
      else if a < off { CoveredBy(m, p, a); }
      else { CoveredBy(m, next.value, a); }
    }
  }

  lemma FillCoversAll(m: Segments, off: nat, size: nat, prev: Option<nat>, next: Option<nat>, a: nat)
    requires Coalesced(m) && Neighbours(m, off, prev, next) && Clear(m, off, size) && size > 0
    ensures Covers(m, a) || Spans(off, size, a) ==> Covers(Fill(m, off, size, prev, next), a)
  {
    var r := Fill(m, off, size, prev, next);
    var home := if prev.Some? && prev.value + m[prev.value] == off then prev.value else off;
    if Spans(off, size, a) { CoveredBy(r, home, a); }
    if Covers(m, a) {
      var p :| p in m && Spans(p, m[p], a);
      CoveredBy(r, if next.Some? && off + size == next.value && p == next.value then home else p, a);
    }
  }

  // ---------------------------------------------------------------- the two indexes

  /** The index by size holds the same segments as the one by offset. */
  ghost predicate SameSegments(bySize: set<(nat, nat)>, byOff: Segments) {
    forall n, o :: (n, o) in bySize <==> o in byOff && byOff[o] == n
  }

  predicate Before(x: (nat, nat), y: (nat, nat)) { x.0 < y.0 || (x.0 == y.0 && x.1 <= y.1) }

  ghost predicate IsLowerBound(s: set<(nat, nat)>, size: nat, x: (nat, nat)) {
    x in s && x.0 >= size && forall y :: y in s && y.0 >= size ==> Before(x, y)
  }

  lemma {:induction false} LowerBoundExists(s: set<(nat, nat)>, size: nat, y: (nat, nat))
    requires y in s && y.0 >= size
    ensures exists x :: IsLowerBound(s, size, x)
    decreases y.0, y.1
  {
    if z :| z in s && z.0 >= size && !Before(y, z) {
      LowerBoundExists(s, size, z);
    } else {
      assert IsLowerBound(s, size, y);
    }
  }

  lemma {:induction false} NextExists(m: Segments, off: nat, k: nat)
    requires k in m && k >= off
    ensures exists n :: n in m && n >= off && forall j :: j in m && j >= off ==> n <= j
    decreases k
  {
    if j :| j in m && off <= j < k { NextExists(m, off, j); }
  }

  lemma {:induction false} PrevExists(m: Segments, off: nat, k: nat)
    requires k in m && k < off
    ensures exists n :: n in m && n < off && forall j :: j in m && j < off ==> j <= n
    decreases off - k
  {
    if j :| j in m && k < j < off { PrevExists(m, off, j); }
  }

  /** `lower_bound` of the index by size. */
  method LowerBoundBySize(s: set<(nat, nat)>, size: nat) returns (iter: Option<(nat, nat)>)
    ensures match iter
            case Some(x) => IsLowerBound(s, size, x)
            case None => forall y :: y in s ==> y.0 < size
  {
    if y :| y in s && y.0 >= size {
      LowerBoundExists(s, size, y);
      var x :| x in s && x.0 >= size && forall z :: z in s && z.0 >= size ==> Before(x, z);
      iter := Some(x);
    } else {
      iter := None;
    }
  }

  /** `lower_bound` of the index by offset. */
  method LowerBound(m: Segments, off: nat) returns (next: Option<nat>)
    ensures match next
            case Some(n) => n in m && n >= off && forall k :: k in m && k >= off ==> n <= k
            case None => forall k :: k in m ==> k < off
  {
    if k: nat :| k in m && k >= off {
      NextExists(m, off, k);
      var n :| n in m && n >= off && forall j :: j in m && j >= off ==> n <= j;
      next := Some(n);
    } else {
      next := None;
    }
  }

  /** The segment before an offset. */
  method Predecessor(m: Segments, off: nat) returns (prev: Option<nat>)
    ensures match prev
            case Some(p) => p in m && p < off && forall k :: k in m && k < off ==> k <= p
            case None => forall k :: k in m ==> k >= off
  {
    if k: nat :| k in m && k < off {
      PrevExists(m, off, k);
      var n :| n in m && n < off && forall j :: j in m && j < off ==> j <= n;
      prev := Some(n);
    } else {
      prev := None;
    }
  }

  /** The region is parted into the free segments, which are coalesced, and the outstanding blocks. */
  ghost predicate Parts(base: nat, size: nat, free: Segments, live: Segments) {
    && Coalesced(free) && Positive(live) && Disjoint(live)
    && (forall a: nat :: Spans(base, size, a) <==> Covers(free, a) || Covers(live, a))
    && (forall a: nat :: !(Covers(free, a) && Covers(live, a)))
  }

  /** A part of a free segment becomes a block. */
  lemma TakePart(base: nat, size: nat, free: Segments, live: Segments, o: nat, off: nat, n: nat)
    requires Parts(base, size, free, live) && o in free && o <= off && off + n <= o + free[o] && n > 0
    ensures Parts(base, size, Carve(free, o, off, n), live[off := n])
  {
    CarveCoalesced(free, o, off, n);
    CoveredBy(free, o, off);
    assert off !in live by { if off in live { CoveredBy(live, off, off); } }
    forall p | p in live ensures p + live[p] <= off || off + n <= p {
      ApartFromFree(free, live, o, off, n, p);
    }
    forall a: nat
      ensures Covers(live[off := n], a) <==> Covers(live, a) || Spans(off, n, a)
      ensures Covers(Carve(free, o, off, n), a) <==> Covers(free, a) && !Spans(off, n, a)
      ensures Spans(off, n, a) ==> Covers(free, a)
    {
      AddCovers(live, off, n, a);
      CarveCovers(free, o, off, n, a);
      if Spans(off, n, a) { CoveredBy(free, o, a); }
    }
  }

  lemma AddCovers(m: Segments, off: nat, n: nat, a: nat)
    requires off !in m
    ensures Covers(m[off := n], a) <==> Covers(m, a) || Spans(off, n, a)
  {
    var r := m[off := n];
    if Spans(off, n, a) { CoveredBy(r, off, a); }
    if p :| p in m && Spans(p, m[p], a) { CoveredBy(r, p, a); }
  }

  lemma ApartFromFree(free: Segments, live: Segments, o: nat, off: nat, n: nat, p: nat)
    requires (forall a: nat :: !(Covers(free, a) && Covers(live, a))) && Positive(live)
    requires o in free && o <= off && off + n <= o + free[o] && n > 0 && p in live
    ensures p + live[p] <= off || off + n <= p
  {
    var a := if p < off then off else p;
    assert Spans(o, free[o], a) ==> Covers(free, a);
    assert Spans(p, live[p], a) ==> Covers(live, a);
  }

  /** A block is put back. */
  lemma PutBack(base: nat, size: nat, free: Segments, live: Segments, off: nat, prev: Option<nat>, next: Option<nat>)
    requires Parts(base, size, free, live) && off in live && Neighbours(free, off, prev, next)
    ensures Parts(base, size, Fill(free, off, live[off], prev, next), live - {off})
  {
    var n := live[off];
    forall o | o in free ensures o + free[o] <= off || off + n <= o {
      ApartFromFree(free, live, o, o, free[o], off);
    }
    FillCoalesced(free, off, n, prev, next);
    forall a: nat
      ensures Covers(live - {off}, a) <==> Covers(live, a) && !Spans(off, n, a)
      ensures Covers(Fill(free, off, n, prev, next), a) <==> Covers(free, a) || Spans(off, n, a)
      ensures Spans(off, n, a) ==> Covers(live, a)
    {
      FillCovers(free, off, n, prev, next, a);
      RemoveCovers(live, off, a);
      if Spans(off, n, a) { CoveredBy(live, off, a); }
    }
  }

  lemma RemoveCovers(m: Segments, off: nat, a: nat)
    requires Disjoint(m) && off in m
    ensures Covers(m - {off}, a) <==> Covers(m, a) && !Spans(off, m[off], a)
  {
    var r := m - {off};
    if Covers(m, a) && !Spans(off, m[off], a) {
      var p :| p in m && Spans(p, m[p], a);
      CoveredBy(r, p, a);
    }
  }

  /** A free segment that is dropped is lost. */
  lemma Lost(base: nat, size: nat, free: Segments, live: Segments, o: nat)
    requires Parts(base, size, free, live) && o in free
    ensures !Parts(base, size, free - {o}, live)
  {
    CoveredBy(free, o, o);
    assert Spans(base, size, o) && !Covers(live, o);
    assert !Covers(free - {o}, o);
  }

  ghost predicate ValidState(base: nat, size: nat, bySize: set<(nat, nat)>, byOff: Segments, live: Segments) {
    SameSegments(bySize, byOff) && Parts(base, size, byOff, live)
  }

  /** `insert` of the map: a key that is there keeps its value. */
  function Insert(m: Segments, o: nat, n: nat): Segments { if o in m then m else m[o := n] }

  /** The index by offset after an allocation, as the code computes it. */
  function OffAfter(byOff: Segments, iter: (nat, nat), size: nat): Segments
    requires iter.0 >= size
  {
    (if iter.0 > size then Insert(byOff, iter.1 + size, iter.0 - size) else byOff) - {iter.1}
  }

  function SizAfter(bySize: set<(nat, nat)>, iter: (nat, nat), size: nat): set<(nat, nat)>
    requires iter.0 >= size
  {
    (if iter.0 > size then bySize + {(iter.0 - size, iter.1 + size)} else bySize) - {iter}
  }

  lemma AllocationIndexed(bySize: set<(nat, nat)>, byOff: Segments, iter: (nat, nat), size: nat)
    requires SameSegments(bySize, byOff) && Coalesced(byOff) && iter in bySize && iter.0 >= size
    ensures SameSegments(SizAfter(bySize, iter, size), OffAfter(byOff, iter, size))
    ensures iter.1 in byOff && byOff[iter.1] == iter.0
    ensures OffAfter(byOff, iter, size) ==
              if size > 0 then Carve(byOff, iter.1, iter.1, size) else byOff - {iter.1}
  {
  }

  /** The smallest segment that suffices, the lowest on ties. */
  ghost predicate BestFit(m: Segments, size: nat, o: nat) {
    && o in m && m[o] >= size
    && forall p :: p in m && m[p] >= size ==> m[o] < m[p] || (m[o] == m[p] && o <= p)
  }

  lemma NoFit(bySize: set<(nat, nat)>, byOff: Segments, size: nat)
    requires SameSegments(bySize, byOff) && forall y :: y in bySize ==> y.0 < size
    ensures forall o :: o in byOff ==> byOff[o] < size
  {
    forall o | o in byOff ensures byOff[o] < size { assert (byOff[o], o) in bySize; }
  }

  lemma FitByIndex(bySize: set<(nat, nat)>, byOff: Segments, size: nat, x: (nat, nat))
    requires SameSegments(bySize, byOff) && IsLowerBound(bySize, size, x)
    ensures BestFit(byOff, size, x.1) && byOff[x.1] == x.0
  {
    forall p | p in byOff && byOff[p] >= size ensures x.0 < byOff[p] || (x.0 == byOff[p] && x.1 <= p) {
      assert (byOff[p], p) in bySize;
    }
  }

  /** The block that an allocation adds. */
  function Outstanding(live: Segments, p: nat, size: nat): Segments { if size > 0 then live[p := size] else live }

  lemma AllocationValid(base: nat, all: nat, bySize: set<(nat, nat)>, byOff: Segments, live: Segments,
                        iter: (nat, nat), size: nat)
    requires ValidState(base, all, bySize, byOff, live) && IsLowerBound(bySize, size, iter)
    ensures BestFit(byOff, size, iter.1)
    ensures OffAfter(byOff, iter, size) ==
              if size > 0 then Carve(byOff, iter.1, iter.1, size) else byOff - {iter.1}
    ensures size > 0 <==> ValidState(base, all, SizAfter(bySize, iter, size), OffAfter(byOff, iter, size),
                                     Outstanding(live, iter.1, size))
  {
    FitByIndex(bySize, byOff, size, iter);
    AllocationIndexed(bySize, byOff, iter, size);
    if size > 0 { TakePart(base, all, byOff, live, iter.1, iter.1, size); } else { Lost(base, all, byOff, live, iter.1); }
  }

  // ---------------------------------------------------------------- placement and release, on both indexes

  /** The segment in which the block fits. */
  ghost predicate Fits(m: Segments, o: nat, p: nat, size: nat) { o in m && o <= p && p + size <= o + m[o] }

  ghost predicate StrictlyInside(m: Segments, p: nat) { exists o :: o in m && o < p < o + m[o] }

  /** The index by offset after a placement, as the code computes it. */
  function PlaceOff(m: Segments, o: nat, p: nat, size: nat): Segments
    requires o in m && o <= p && p + size <= o + m[o]
  {
    var less := m[o] - size;
    if o == p then Insert(m - {o}, p, less)
    else if o + m[o] == p + size then m[o := less]
    else Insert(m[o := p - o], p + size, less - (p - o))
  }

  function PlaceSiz(s: set<(nat, nat)>, m: Segments, o: nat, p: nat, size: nat): set<(nat, nat)>
    requires o in m && o <= p && p + size <= o + m[o]
  {
    var less := m[o] - size;
    var s1 := s - {(m[o], o)};
    if o == p then s1 + {(less, p)}
    else if o + m[o] == p + size then s1 + {(less, o)}
    else s1 + {(p - o, o)} + {(less - (p - o), p + size)}
  }

  lemma PlacementIndexed(s: set<(nat, nat)>, m: Segments, o: nat, p: nat, size: nat)
    requires SameSegments(s, m) && Coalesced(m) && Fits(m, o, p, size) && o < p && size > 0
    ensures PlaceOff(m, o, p, size) == Carve(m, o, p, size)
    ensures SameSegments(PlaceSiz(s, m, o, p, size), PlaceOff(m, o, p, size))
  {
  }

  lemma PlacementMeans(s: set<(nat, nat)>, m: Segments, o: nat, p: nat, size: nat)
    requires SameSegments(s, m) && Coalesced(m) && Fits(m, o, p, size) && m[o] != size
    ensures p in m <==> o == p
    ensures o < p && size > 0 ==> PlaceOff(m, o, p, size) == Carve(m, o, p, size)
    ensures o == p ==> PlaceOff(m, o, p, size) == m[p := m[p] - size]
  {
    if o < p && size > 0 { PlacementIndexed(s, m, o, p, size); }
  }

  /** The prefix branch records the rest of the segment where the block is. */
  lemma PrefixOverlaps(base: nat, size: nat, free: Segments, live: Segments, p: nat, n: nat)
    requires Coalesced(free) && p in free && 0 < n < free[p]
    ensures !Parts(base, size, free[p := free[p] - n], live[p := n])
  {
    CoveredBy(free[p := free[p] - n], p, p);
    CoveredBy(live[p := n], p, p);
  }

  /** An empty block placed inside a segment splits it. */
  lemma EmptySplits(free: Segments, o: nat, p: nat)
    requires o in free && o < p < o + free[o]
    ensures !Coalesced(Insert(free[o := p - o], p, o + free[o] - p))
  {
    var r := Insert(free[o := p - o], p, o + free[o] - p);
    assert o in r && p in r;
  }

  /** Of an empty block only the strict inside of a segment is spoilt; of any other, the beginning. */
  lemma PlacementValid(base: nat, all: nat, bySize: set<(nat, nat)>, byOff: Segments, live: Segments,
                       o: nat, p: nat, size: nat)
    requires ValidState(base, all, bySize, byOff, live) && Fits(byOff, o, p, size) && byOff[o] != size
    ensures ValidState(base, all, PlaceSiz(bySize, byOff, o, p, size), PlaceOff(byOff, o, p, size),
                       Outstanding(live, p, size)) <==>
              if size > 0 then o < p else !StrictlyInside(byOff, p)
  {
    if size == 0 { EmptyPlacement(base, all, bySize, byOff, live, o, p); }
    else if o == p { PrefixOverlaps(base, all, byOff, live, p, size); assert PlaceOff(byOff, o, p, size) == byOff[p := byOff[p] - size]; }
    else { PlacementIndexed(bySize, byOff, o, p, size); TakePart(base, all, byOff, live, o, p, size); }
  }

  lemma EmptyPlacement(base: nat, all: nat, bySize: set<(nat, nat)>, byOff: Segments, live: Segments, o: nat, p: nat)
    requires ValidState(base, all, bySize, byOff, live) && Fits(byOff, o, p, 0)
    ensures ValidState(base, all, PlaceSiz(bySize, byOff, o, p, 0), PlaceOff(byOff, o, p, 0), live) <==>
              !StrictlyInside(byOff, p)
  {
    assert (byOff[o], o) in bySize;
    if o < p < o + byOff[o] {
      EmptySplits(byOff, o, p);
    } else {
      assert !StrictlyInside(byOff, p);
      assert PlaceOff(byOff, o, p, 0) == byOff;
      assert PlaceSiz(bySize, byOff, o, p, 0) == bySize;
    }
  }

  /** The index by size after a release. */
  function SizFilled(bySize: set<(nat, nat)>, m: Segments, off: nat, size: nat, prev: Option<nat>, next: Option<nat>):
      set<(nat, nat)>
    requires prev.Some? ==> prev.value in m && prev.value < off
    requires next.Some? ==> next.value in m && next.value >= off
  {
    var joinsPrev := prev.Some? && prev.value + m[prev.value] == off;
    var joinsNext := next.Some? && off + size == next.value;
    if joinsPrev && joinsNext then
      bySize - {(m[prev.value], prev.value)} - {(m[next.value], next.value)} +
      {(m[prev.value] + (size + m[next.value]), prev.value)}
    else if joinsPrev then bySize - {(m[prev.value], prev.value)} + {(m[prev.value] + size, prev.value)}
    else if joinsNext then bySize - {(m[next.value], next.value)} + {(m[next.value] + size, off)}
    else bySize + {(size, off)}
  }

  lemma FillIndexed(bySize: set<(nat, nat)>, m: Segments, off: nat, size: nat, prev: Option<nat>, next: Option<nat>)
    requires SameSegments(bySize, m) && Coalesced(m) && Neighbours(m, off, prev, next) && Clear(m, off, size) && size > 0
    ensures SameSegments(SizFilled(bySize, m, off, size, prev, next), Fill(m, off, size, prev, next))
  {
  }

  lemma ClearOfLive(free: Segments, live: Segments, p: nat)
    requires (forall a: nat :: !(Covers(free, a) && Covers(live, a))) && Positive(live) && Positive(free) && p in live
    ensures Clear(free, p, live[p])
  {
    forall o | o in free ensures o + free[o] <= p || p + live[p] <= o {
      ApartFromFree(free, live, o, o, free[o], p);
    }
  }

  lemma ReleaseValid(base: nat, all: nat, bySize: set<(nat, nat)>, byOff: Segments, live: Segments,
                     p: nat, prev: Option<nat>, next: Option<nat>)
    requires ValidState(base, all, bySize, byOff, live) && p in live && Neighbours(byOff, p, prev, next)
    ensures ValidState(base, all, SizFilled(bySize, byOff, p, live[p], prev, next),
                       Fill(byOff, p, live[p], prev, next), live - {p})
    ensures p !in byOff
  {
    PutBack(base, all, byOff, live, p, prev, next);
    ClearOfLive(byOff, live, p);
    FillIndexed(bySize, byOff, p, live[p], prev, next);
  }

  class SegAllocator {
    const base: nat
    const size: nat
    var bySize: set<(nat, nat)>
    var byOff: Segments
    ghost var live: Segments

    ghost predicate Valid()
      reads this
    {
      ValidState(base, size, bySize, byOff, live)
    }

    constructor (base: nat, size: nat)
      ensures this.base == base && this.size == size
      ensures byOff == map[base := size] && bySize == {(size, base)} && live == map[]
      ensures size > 0 ==> Valid()
    {
      this.base, this.size := base, size;
      bySize, byOff := {(size, base)}, map[base := size];
      live := map[];
      new;
      assert byOff[base] == size;
    }

    /** allocate */
    method Allocate(size: nat) returns (p: Option<nat>)
      requires Valid()
      modifies this
      ensures p.None? <==> forall o :: o in old(byOff) ==> old(byOff)[o] < size
      ensures p.None? ==> byOff == old(byOff) && bySize == old(bySize) && live == old(live)
      ensures p.Some? ==>
                && BestFit(old(byOff), size, p.value)
                && live == Outstanding(old(live), p.value, size)
                && byOff == if size > 0 then Carve(old(byOff), p.value, p.value, size) else old(byOff) - {p.value}
      ensures Valid() <==> size > 0 || p.None?
    {
      var found := LowerBoundBySize(bySize, size);
      if found.None? {
        NoFit(bySize, byOff, size);
        return None;
      }
      var iter := found.value;
      AllocationValid(base, this.size, bySize, byOff, live, iter, size);
      Take(iter, size);
      live := Outstanding(live, iter.1, size);
      return Some(iter.1);
    }

    /** The block is cut from the beginning of the segment, on both indexes. */
    method Take(iter: (nat, nat), size: nat)
      requires iter.0 >= size
      modifies this`bySize, this`byOff
      ensures bySize == SizAfter(old(bySize), iter, size)
      ensures byOff == OffAfter(old(byOff), iter, size)
    {
      var off := iter.1;
      var less := iter.0 - size;
      if less > 0 {
        byOff := Insert(byOff, off + size, less);
        bySize := bySize + {(less, off + size)};
      }
      byOff := byOff - {iter.1};
      bySize := bySize - {iter};
    }

    /** placement_allocate, but for the branch of an exact fit, which reads an erased element. */
    method PlacementAllocate(p: nat, size: nat) returns (r: Option<nat>)
      requires Valid()
      requires p in byOff ==> byOff[p] != size
      modifies this
      ensures r.None? <==> forall o :: !Fits(old(byOff), o, p, size)
      ensures r.None? ==> byOff == old(byOff) && bySize == old(bySize) && live == old(live)
      ensures r.Some? ==> r.value == p && live == Outstanding(old(live), p, size)
      ensures r.Some? && size > 0 && p !in old(byOff) ==>
                exists o :: Fits(old(byOff), o, p, size) && byOff == Carve(old(byOff), o, p, size)
      ensures r.Some? && size > 0 && p in old(byOff) ==> byOff == old(byOff)[p := old(byOff)[p] - size]
      ensures Valid() <==>
                r.None? || if size > 0 then p !in old(byOff) else !StrictlyInside(old(byOff), p)
    {
      var iter := Predecessor(byOff, p + 1);
      if iter.None? || iter.value + byOff[iter.value] < p + size {
        forall o ensures !Fits(byOff, o, p, size) {}
        return None;
      }
      var o := iter.value;
      assert Fits(byOff, o, p, size);
      PlacementValid(base, this.size, bySize, byOff, live, o, p, size);
      PlacementMeans(bySize, byOff, o, p, size);
      Place(o, p, size);
      live := Outstanding(live, p, size);
      return Some(p);
    }

    /** The prefix, suffix and interior cases of a placement, on both indexes. */
    method Place(o: nat, p: nat, size: nat)
      requires Fits(byOff, o, p, size)
      modifies this`bySize, this`byOff
      ensures bySize == PlaceSiz(old(bySize), old(byOff), o, p, size)
      ensures byOff == PlaceOff(old(byOff), o, p, size)
    {
      var less := byOff[o] - size;
      if o == p {
        bySize := bySize - {(byOff[o], o)};
        byOff := byOff - {o};
        byOff := Insert(byOff, p, less);
        bySize := bySize + {(less, p)};
      } else if o + byOff[o] == p + size {
        bySize := bySize - {(byOff[o], o)};
        byOff := byOff[o := less];
        bySize := bySize + {(byOff[o], o)};
      } else {
        bySize := bySize - {(byOff[o], o)};
        byOff := byOff[o := p - o];
        bySize := bySize + {(byOff[o], o)};
        bySize := bySize + {(less - byOff[o], p + size)};
        byOff := Insert(byOff, p + size, less - byOff[o]);
      }
    }

    /** deallocate, of an outstanding block with its size */
    method Deallocate(p: nat, size: nat)
      requires Valid()
      requires p in live && live[p] == size
      modifies this
      ensures Valid()
      ensures live == old(live) - {p}
    {
      var next := LowerBound(byOff, p);
      var prev := Predecessor(byOff, p);
      ReleaseValid(base, this.size, bySize, byOff, live, p, prev, next);
      Join(p, size, prev, next);
      live := live - {p};
    }

    /** The four cases of a release, on both indexes. */
    method Join(p: nat, size: nat, prev: Option<nat>, next: Option<nat>)
      requires (prev.Some? ==> prev.value in byOff && prev.value < p) && p !in byOff && size > 0
      requires next.Some? ==> next.value in byOff && next.value > p
      modifies this`bySize, this`byOff
      ensures bySize == SizFilled(old(bySize), old(byOff), p, size, prev, next)
      ensures byOff == Fill(old(byOff), p, size, prev, next)
    {
      var joinsNext := next.Some? && p + size == next.value;
      var joinsPrev := prev.Some? && prev.value + byOff[prev.value] == p;
      if !joinsNext && !joinsPrev {
        bySize := bySize + {(size, p)};
        byOff := Insert(byOff, p, size);
      } else if joinsNext && !joinsPrev {
        var n := next.value;
        bySize := bySize - {(byOff[n], n)};
        bySize := bySize + {(byOff[n] + size, n - size)};
        byOff := Insert(byOff, n - size, byOff[n] + size);
        byOff := byOff - {n};
        assert byOff == (old(byOff) - {n})[p := old(byOff)[n] + size];
      } else if !joinsNext {
        var o := prev.value;
        bySize := bySize - {(byOff[o], o)};
        byOff := byOff[o := byOff[o] + size];
        bySize := bySize + {(byOff[o], o)};
      } else {
        var o, n := prev.value, next.value;
        bySize := bySize - {(byOff[o], o)};
        bySize := bySize - {(byOff[n], n)};
        byOff := byOff[o := byOff[o] + (size + byOff[n])];
        byOff := byOff - {n};
        assert byOff == (old(byOff) - {n})[o := old(byOff)[o] + size + old(byOff)[n]];
        bySize := bySize + {(byOff[o], o)};
      }
    }
  }

  // ---------------------------------------------------------------- what the blocks determine

  /** Both indexes are determined by the outstanding blocks. */
  lemma DeterminedByBlocks(base: nat, size: nat, s1: set<(nat, nat)>, m1: Segments, s2: set<(nat, nat)>, m2: Segments,
                           live: Segments)
    requires SameSegments(s1, m1) && Parts(base, size, m1, live)
    requires SameSegments(s2, m2) && Parts(base, size, m2, live)
    ensures m1 == m2 && s1 == s2
  {
    CanonicalForm(m1, m2);
    forall x ensures x in s1 <==> x in s2 { assert x == (x.0, x.1); }
  }

  /** Without blocks the region is one segment. */
  lemma AllFree(base: nat, size: nat, bySize: set<(nat, nat)>, byOff: Segments)
    requires SameSegments(bySize, byOff) && Parts(base, size, byOff, map[]) && size > 0
    ensures byOff == map[base := size] && bySize == {(size, base)}
  {
    var m: Segments := map[base := size];
    assert m[base] == size;
    DeterminedByBlocks(base, size, bySize, byOff, {(size, base)}, m, map[]);
  }

  /** An allocation that is given back leaves no trace in either index. */
  method AllocateAndDeallocate(a: SegAllocator, size: nat)
    requires a.Valid() && size > 0
    modifies a
    ensures a.Valid() && a.live == old(a.live)
    ensures a.byOff == old(a.byOff) && a.bySize == old(a.bySize)
  {
    ghost var siz, free, live := a.bySize, a.byOff, a.live;
    var p := a.Allocate(size);
    if p.Some? {
      FreshBlock(a.base, a.size, free, live, p.value);
      a.Deallocate(p.value, size);
      assert a.live == live;
      DeterminedByBlocks(a.base, a.size, siz, free, a.bySize, a.byOff, live);
    }
  }

  lemma FreshBlock(base: nat, size: nat, free: Segments, live: Segments, p: nat)
    requires Parts(base, size, free, live) && p in free
    ensures p !in live
  {
    CoveredBy(free, p, p);
    if p in live { CoveredBy(live, p, p); }
  }

  /** The outstanding blocks are those of `blocks` from `i` on. */
  ghost predicate LeftOver(live: Segments, blocks: seq<(nat, nat)>, i: nat) {
    && (forall j :: i <= j < |blocks| ==> blocks[j].0 in live && live[blocks[j].0] == blocks[j].1)
    && (forall o :: o in live ==> exists j :: i <= j < |blocks| && blocks[j].0 == o)
  }

  ghost predicate Distinct(blocks: seq<(nat, nat)>) {
    forall i, j :: 0 <= i < j < |blocks| ==> blocks[i].0 != blocks[j].0
  }

  lemma OneLess(live: Segments, blocks: seq<(nat, nat)>, i: nat)
    requires LeftOver(live, blocks, i) && i < |blocks| && Distinct(blocks)
    ensures LeftOver(live - {blocks[i].0}, blocks, i + 1)
  {
    var live' := live - {blocks[i].0};
    forall o | o in live' ensures exists j :: i + 1 <= j < |blocks| && blocks[j].0 == o {
      var j :| i <= j < |blocks| && blocks[j].0 == o;
      assert i + 1 <= j < |blocks| && blocks[j].0 == o;
    }
  }

  /** Giving back every outstanding block, in any order, leaves the one segment of a new allocator. */
  method DeallocateAll(a: SegAllocator, blocks: seq<(nat, nat)>)
    requires a.Valid() && a.size > 0 && LeftOver(a.live, blocks, 0) && Distinct(blocks)
    modifies a
    ensures a.Valid() && a.live == map[]
    ensures a.byOff == map[a.base := a.size] && a.bySize == {(a.size, a.base)}
  {
    var i := 0;
    while i < |blocks|
      invariant 0 <= i <= |blocks| && a.Valid() && LeftOver(a.live, blocks, i)
    {
      OneLess(a.live, blocks, i);
      a.Deallocate(blocks[i].0, blocks[i].1);
      i := i + 1;
    }
    AllFree(a.base, a.size, a.bySize, a.byOff);
  }
}
