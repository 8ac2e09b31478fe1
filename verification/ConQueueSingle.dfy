/** pop_bulk of a single-threaded consumer side and top of ConQueue (conqueue.h:69, 209-220, 287-290), which work
    on the 32-bit word of the consumer tail as it is.  The positions are unbounded here and the program has their
    low 32 bits; `prodTail` is what the producers have published. */
module ConQueueSingle {
  import opened Options
  import opened Word32
  import Bits

  datatype Slot<T> = Empty | Full(value: T)

  /** to_id of the word of a position, in a ring of `size` slots, masked or exact. */
  function SlotOf(p: nat, size: nat): nat
    requires size > 0
  {
    Word(p) % size
  }

  /** The ring after `n` slots from position `c` on have been moved out. */
  function Emptied<T>(ring: seq<Slot<T>>, c: nat, n: nat): (r: seq<Slot<T>>)
    requires |ring| > 0
    ensures |r| == |ring|
  {
    if n == 0 then ring else Emptied(ring, c, n - 1)[SlotOf(c + n - 1, |ring|) := Empty]
  }

  /** What was in them. */
  function MovedOut<T>(ring: seq<Slot<T>>, c: nat, n: nat): (r: seq<Slot<T>>)
    requires |ring| > 0
    ensures |r| == n
  {
    if n == 0 then [] else MovedOut(ring, c, n - 1) + [Emptied(ring, c, n - 1)[SlotOf(c + n - 1, |ring|)]]
  }

  class SingleConsumer<T> {
    const ring: array<Slot<T>>
    var consTail: nat
    var prodTail: nat

    ghost predicate Valid()
      reads this
    {
      0 < ring.Length < WORD && consTail <= prodTail <= consTail + ring.Length
    }

    /** pop_bulk with F_SC_DEQ, while no producer publishes: the loop test compares the words of the two tails, and
        neither changes in the loop. */
    method PopBulk(count: nat) returns (out: seq<Slot<T>>)
      requires Valid() && count < WORD
      modifies this`consTail, ring
      ensures |out| == if Word(old(consTail)) < Word(prodTail) then count else 0
      ensures out == MovedOut(old(ring[..]), old(consTail), |out|)
      ensures ring[..] == Emptied(old(ring[..]), old(consTail), |out|)
      ensures consTail == old(consTail) + |out|
      ensures Valid() <==> |out| <= prodTail - old(consTail)
    {
      out := MoveOut(count);
      consTail := consTail + |out|;
    }

    method MoveOut(count: nat) returns (out: seq<Slot<T>>)
      requires ring.Length > 0
      modifies ring
      ensures |out| == if Word(consTail) < Word(prodTail) then count else 0
      ensures out == MovedOut(old(ring[..]), consTail, |out|)
      ensures ring[..] == Emptied(old(ring[..]), consTail, |out|)
    {
      ghost var all := ring[..];
      var left, l := count, 0;
      out := [];
      while left != 0 && Word(consTail) < Word(prodTail)
        invariant left + l == count && |out| == l && (l > 0 ==> Word(consTail) < Word(prodTail))
        invariant out == MovedOut(all, consTail, l) && ring[..] == Emptied(all, consTail, l)
      {
        out := TakeSlot(out, all);
        left, l := left - 1, l + 1;
      }
    }

    method TakeSlot(out: seq<Slot<T>>, ghost all: seq<Slot<T>>) returns (r: seq<Slot<T>>)
      requires |all| == ring.Length > 0
      requires out == MovedOut(all, consTail, |out|) && ring[..] == Emptied(all, consTail, |out|)
      modifies ring
      ensures |r| == |out| + 1
      ensures r == MovedOut(all, consTail, |r|) && ring[..] == Emptied(all, consTail, |r|)
    {
      var id := SlotOf(consTail + |out|, ring.Length);
      r := out + [ring[id]];
      ring[id] := Empty;
    }

    /** top, which uses the word of the tail without to_id; outside the ring there is nothing to refer to. */
    method Top() returns (x: Option<Slot<T>>)
      requires Valid()
      ensures x.Some? <==> SlotOf(consTail, ring.Length) == Word(consTail)
      ensures x.Some? ==> x.value == ring[SlotOf(consTail, ring.Length)]
    {
      var id := Word(consTail);
      if id < ring.Length { return Some(ring[id]); }
      return None;
    }
  }

  function Min(a: int, b: int): int { if a < b then a else b }

  /** The words of two positions less than 2^32 apart are in order unless the word wraps between them. */
  lemma WordsInOrder(c: nat, p: nat)
    requires c < p < c + WORD
    ensures Word(c) < Word(p) <==> c / WORD == p / WORD
  {
  }

  /** So pop_bulk takes what is there, up to what it was asked for, if and only if it was asked for nothing, or
      nothing is there, or it was asked for no more than is there and the word does not wrap on the way. */
  lemma TakesRightExactly(c: nat, p: nat, count: nat)
    requires c <= p < c + WORD
    ensures (if Word(c) < Word(p) then count else 0) == Min(count, p - c) <==>
              count == 0 || c == p || (count <= p - c && c / WORD == p / WORD)
  {
    if c < p { WordsInOrder(c, p); }
  }

  /** Asked for more than is there it moves out a slot that nobody has published: of one value it takes two. */
  lemma TakesTooMany<T>(x: T)
    ensures MovedOut([Full(x), Empty], 0, 2) == [Full(x), Empty]
    ensures Word(0) < Word(1) && Min(2, 1 - 0) == 1
  {
    assert Emptied([Full(x), Empty], 0, 1) == [Full(x), Empty][SlotOf(0, 2) := Empty];
    assert MovedOut([Full(x), Empty], 0, 1) == [Full(x)];
  }

  /** None of the `n` slots from position `c` on. */
  ghost predicate Untouched(c: nat, n: nat, size: nat, id: nat)
    requires size > 0
  {
    forall p: nat {:trigger SlotOf(p, size)} :: c <= p < c + n ==> SlotOf(p, size) != id
  }

  ghost predicate InOrder<T>(ring: seq<Slot<T>>, c: nat, out: seq<Slot<T>>)
    requires |ring| > 0
  {
    forall p: nat {:trigger SlotOf(p, |ring|)} :: c <= p < c + |out| ==> out[p - c] == ring[SlotOf(p, |ring|)]
  }

  /** When it takes what it should, in a ring whose slots survive the wrap, these are the slots of its positions
      in their order. */
  lemma {:induction false} MovesOutInOrder<T>(ring: seq<Slot<T>>, c: nat, n: nat)
    requires 0 < |ring| && n <= |ring| && (WORD % |ring| == 0 || c / WORD == (c + n) / WORD)
    ensures InOrder(ring, c, MovedOut(ring, c, n))
    ensures forall id {:trigger Untouched(c, n, |ring|, id)} :: 0 <= id < |ring| && Untouched(c, n, |ring|, id) ==>
              Emptied(ring, c, n)[id] == ring[id]
  {
    if n > 0 {
      SameTurn(c, n);
      MovesOutInOrder(ring, c, n - 1);
      LastApart(c, n, |ring|);
      OneMore(ring, c, n);
    }
  }

  lemma LastApart(c: nat, n: nat, size: nat)
    requires 0 < n <= size && (WORD % size == 0 || c / WORD == (c + n) / WORD)
    ensures Untouched(c, n - 1, size, SlotOf(c + n - 1, size))
  {
    forall p: nat | c <= p < c + (n - 1) ensures SlotOf(p, size) != SlotOf(c + n - 1, size) {
      SlotsApart(c, p - c, n, size);
    }
  }

  lemma OneMore<T>(ring: seq<Slot<T>>, c: nat, n: nat)
    requires 0 < n && 0 < |ring| && InOrder(ring, c, MovedOut(ring, c, n - 1))
    requires Untouched(c, n - 1, |ring|, SlotOf(c + n - 1, |ring|))
    requires forall id {:trigger Untouched(c, n - 1, |ring|, id)} :: 0 <= id < |ring| && Untouched(c, n - 1, |ring|, id) ==>
               Emptied(ring, c, n - 1)[id] == ring[id]
    ensures InOrder(ring, c, MovedOut(ring, c, n))
    ensures forall id {:trigger Untouched(c, n, |ring|, id)} :: 0 <= id < |ring| && Untouched(c, n, |ring|, id) ==>
              Emptied(ring, c, n)[id] == ring[id]
  {
    forall id | 0 <= id < |ring| && Untouched(c, n, |ring|, id) ensures Emptied(ring, c, n)[id] == ring[id] {
      assert Untouched(c, n - 1, |ring|, id);
      assert SlotOf(c + n - 1, |ring|) != id;
    }
  }

  lemma SameTurn(c: nat, n: nat)
    requires n > 0
    ensures c / WORD == (c + n) / WORD ==> c / WORD == (c + (n - 1)) / WORD
  {
  }

  lemma SlotsApart(c: nat, k: nat, n: nat, size: nat)
    requires k < n - 1 && n <= size && (WORD % size == 0 || c / WORD == (c + n) / WORD)
    ensures SlotOf(c + k, size) != SlotOf(c + n - 1, size)
  {
    if WORD % size == 0 {
      RemainderOfWord(size);
      Bits.SameRemainder(c + k, c + n - 1, size);
    } else {
      WordsWithin(c, k, n);
      Bits.SameRemainder(Word(c + k), Word(c + n - 1), size);
    }
  }

  lemma WordsWithin(c: nat, k: nat, n: nat)
    requires k < n - 1 && c / WORD == (c + n) / WORD
    ensures Word(c + k) == Word(c) + k && Word(c + n - 1) == Word(c) + n - 1
  {
  }
}
