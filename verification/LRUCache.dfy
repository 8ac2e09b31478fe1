/** LRUCache (cache.h:9-52): a hash map from keys to list nodes and values, beside a list of the keys from
    the most to the least recently used.  A list node keeps its identity when it is spliced. */
module LRUCache {
  import opened Counting
  import opened Options

  datatype Entry<K, V> = Entry(key: K, value: V)

  // ---------------------------------------------------------------- the recency sequence

  ghost predicate HasKey<K, V>(s: seq<Entry<K, V>>, k: K) { exists i :: 0 <= i < |s| && s[i].key == k }

  ghost predicate DistinctKeys<K, V>(s: seq<Entry<K, V>>) {
    forall i, j :: 0 <= i < j < |s| ==> s[i].key != s[j].key
  }

  ghost function Place<K, V>(s: seq<Entry<K, V>>, k: K): (i: nat)
    requires HasKey(s, k)
    ensures i < |s| && s[i].key == k
  {
    var i :| 0 <= i < |s| && s[i].key == k;
    i
  }

  ghost function Without<K, V>(s: seq<Entry<K, V>>, i: nat): seq<Entry<K, V>>
    requires i < |s|
  {
    s[..i] + s[i + 1..]
  }

  ghost function SpecPut<K, V>(capacity: nat, s: seq<Entry<K, V>>, k: K, v: V): seq<Entry<K, V>>
    requires capacity > 0
  {
    if HasKey(s, k) then [Entry(k, v)] + Without(s, Place(s, k))
    else if |s| == capacity then [Entry(k, v)] + s[..|s| - 1]
    else [Entry(k, v)] + s
  }

  ghost function SpecGet<K, V>(s: seq<Entry<K, V>>, k: K): seq<Entry<K, V>> {
    if HasKey(s, k) then [s[Place(s, k)]] + Without(s, Place(s, k)) else s
  }

  ghost function Lookup<K, V>(s: seq<Entry<K, V>>, k: K): Option<V> {
    if HasKey(s, k) then Some(s[Place(s, k)].value) else None
  }

  // ---------------------------------------------------------------- the class

  type Node = nat

  function Splice(order: seq<Node>, i: nat): (r: seq<Node>)
    requires i < |order|
    ensures |r| == |order|
  {
    [order[i]] + order[..i] + order[i + 1..]
  }

  /** The map and the list hold the same keys, each key's node in both. */
  ghost predicate Agree<K, V>(cache: map<K, (Node, V)>, order: seq<Node>, keyOf: map<Node, K>) {
    && (forall i, j :: 0 <= i < j < |order| ==> order[i] != order[j])
    && (forall n :: n in order ==> n < |order| && n in keyOf && keyOf[n] in cache && cache[keyOf[n]].0 == n)
    && (forall k :: k in cache ==> cache[k].0 in order && keyOf[cache[k].0] == k)
    && |cache| == |order|
  }

  ghost function EntriesOf<K, V>(cache: map<K, (Node, V)>, order: seq<Node>, keyOf: map<Node, K>): (s: seq<Entry<K, V>>)
    requires Agree(cache, order, keyOf)
    ensures |s| == |order|
    ensures forall i :: 0 <= i < |s| ==> s[i] == Entry(keyOf[order[i]], cache[keyOf[order[i]]].1)
  {
    seq(|order|, i requires 0 <= i < |order| => Entry(keyOf[order[i]], cache[keyOf[order[i]]].1))
  }

  class LRUCache<K(==), V> {
    const capacity: nat
    var cache: map<K, (Node, V)>
    var order: seq<Node>
    var keyOf: map<Node, K>

    ghost predicate Valid()
      reads this
    {
      |order| <= capacity && Agree(cache, order, keyOf)
    }

    ghost function Entries(): (s: seq<Entry<K, V>>)
      reads this
      requires Valid()
      ensures |s| <= capacity && DistinctKeys(s)
    {
      AgreeMeans(cache, order, keyOf);
      EntriesOf(cache, order, keyOf)
    }

    constructor (capacity: nat)
      ensures Valid() && this.capacity == capacity && Entries() == []
    {
      this.capacity := capacity;
      cache, order, keyOf := map[], [], map[];
    }

    /** put.  Of an empty list the code would read the back. */
    method Put(key: K, value: V)
      requires Valid() && capacity > 0
      modifies this
      ensures Valid() && Entries() == SpecPut(capacity, old(Entries()), key, value)
    {
      KeyIsHere(cache, order, keyOf, key);
      if key in cache {
        Renew(key, value);
      } else if |cache| == capacity {
        Evict(key, value);
      } else {
        PushFront(key, value);
      }
    }

    /** The key exists: its value is replaced and its node moved to the front. */
    method Renew(key: K, value: V)
      requires Valid() && key in cache
      modifies this
      ensures Valid() && HasKey(old(Entries()), key)
      ensures Entries() == [Entry(key, value)] + Without(old(Entries()), Place(old(Entries()), key))
    {
      var node := cache[key].0;
      var i :| 0 <= i < |order| && order[i] == node;
      HitKeeps(cache, order, keyOf, i, value);
      cache := cache[key := (node, value)];
      order := Splice(order, i);
    }

    /** The last node is moved to the front for the new key. */
    method Reuse(key: K, value: V)
      requires |order| > 0 && order[|order| - 1] in keyOf
      modifies this
      ensures order == old(Splice(order, |order| - 1))
      ensures keyOf == old(keyOf)[old(order[|order| - 1]) := key]
      ensures cache == old(cache - {keyOf[order[|order| - 1]]})[key := (old(order[|order| - 1]), value)]
    {
      cache := cache - {keyOf[order[|order| - 1]]};
      order := Splice(order, |order| - 1);
      keyOf := keyOf[order[0] := key];
      cache := cache[key := (order[0], value)];
    }

    /** The cache is full: the least recently used entry goes. */
    method Evict(key: K, value: V)
      requires Valid() && key !in cache && |order| > 0
      modifies this
      ensures Valid() && Entries() == [Entry(key, value)] + old(Entries()[..|Entries()| - 1])
    {
      EvictKeeps(cache, order, keyOf, key, value);
      Reuse(key, value);
    }

    method PushFront(key: K, value: V)
      requires Valid() && key !in cache && |order| < capacity
      modifies this
      ensures Valid() && Entries() == [Entry(key, value)] + old(Entries())
    {
      InsertKeeps(cache, order, keyOf, key, value);
      var node := |order|;
      order := [node] + order;
      keyOf := keyOf[node := key];
      cache := cache[key := (order[0], value)];
    }

    /** The key exists: its node is moved to the front and its value returned. */
    method Touch(key: K) returns (value: Option<V>)
      requires Valid() && key in cache
      modifies this
      ensures Valid() && HasKey(old(Entries()), key)
      ensures Entries() == [old(Entries())[Place(old(Entries()), key)]] + Without(old(Entries()), Place(old(Entries()), key))
      ensures value == Some(old(Entries())[Place(old(Entries()), key)].value)
    {
      var node := cache[key].0;
      var i :| 0 <= i < |order| && order[i] == node;
      TouchKeeps(cache, order, keyOf, key, i);
      order := Splice(order, i);
      return Some(cache[key].1);
    }

    /** get */
    method Get(key: K) returns (value: Option<V>)
      requires Valid()
      modifies this
      ensures Valid() && Entries() == SpecGet(old(Entries()), key)
      ensures value == Lookup(old(Entries()), key)
    {
      if key !in cache {
        MissMeans(cache, order, keyOf, key);
        return None;
      }
      value := Touch(key);
    }
  }

  lemma AgreeMeans<K, V>(cache: map<K, (Node, V)>, order: seq<Node>, keyOf: map<Node, K>)
    requires Agree(cache, order, keyOf)
    ensures DistinctKeys(EntriesOf(cache, order, keyOf))
    ensures forall k :: k in cache <==> HasKey(EntriesOf(cache, order, keyOf), k)
  {
    var s := EntriesOf(cache, order, keyOf);
    forall i, j | 0 <= i < j < |s| ensures s[i].key != s[j].key {
      assert cache[keyOf[order[i]]].0 == order[i] && cache[keyOf[order[j]]].0 == order[j];
    }
    forall k | k in cache ensures HasKey(s, k) {
      var i :| 0 <= i < |order| && order[i] == cache[k].0;
      assert s[i].key == k;
    }
  }

  lemma {:induction false} KeyIsHere<K, V>(cache: map<K, (Node, V)>, order: seq<Node>, keyOf: map<Node, K>, key: K)
    requires Agree(cache, order, keyOf)
    ensures key in cache <==> HasKey(EntriesOf(cache, order, keyOf), key)
  {
    AgreeMeans(cache, order, keyOf);
  }

  lemma {:induction false} MissMeans<K, V>(cache: map<K, (Node, V)>, order: seq<Node>, keyOf: map<Node, K>, key: K)
    requires Agree(cache, order, keyOf) && key !in cache
    ensures var s := EntriesOf(cache, order, keyOf); SpecGet(s, key) == s && Lookup(s, key) == None
  {
    AgreeMeans(cache, order, keyOf);
  }

  /** A hit moves the key's node to the front. */
  lemma {:induction false} TouchKeeps<K, V>(cache: map<K, (Node, V)>, order: seq<Node>, keyOf: map<Node, K>, key: K, i: nat)
    requires Agree(cache, order, keyOf) && key in cache && i < |order| && order[i] == cache[key].0
    ensures var s := EntriesOf(cache, order, keyOf);
            && HasKey(s, key) && Place(s, key) == i && s[i].value == cache[key].1
            && Agree(cache, Splice(order, i), keyOf)
            && EntriesOf(cache, Splice(order, i), keyOf) == [s[i]] + Without(s, i)
  {
    AgreeMeans(cache, order, keyOf);
    OnePlace(EntriesOf(cache, order, keyOf), key, i);
    SpliceKeeps(cache, order, keyOf, i);
  }

  /** In a sequence of distinct keys each has one place. */
  lemma OnePlace<K, V>(s: seq<Entry<K, V>>, k: K, i: nat)
    requires DistinctKeys(s) && i < |s| && s[i].key == k
    ensures HasKey(s, k) && Place(s, k) == i
  {
  }

  /** Where the element at `j` was before the splice. */
  function Origin(i: nat, j: nat): nat { if j == 0 then i else if j <= i then j - 1 else j }

  lemma SpliceAt(order: seq<Node>, i: nat, j: nat)
    requires i < |order| && j < |order|
    ensures Origin(i, j) < |order| && Splice(order, i)[j] == order[Origin(i, j)]
  {
  }

  lemma SpliceMembers(order: seq<Node>, i: nat)
    requires i < |order|
    ensures forall n :: n in Splice(order, i) <==> n in order
  {
    assert order == order[..i] + [order[i]] + order[i + 1..];
  }

  lemma SpliceDistinct(order: seq<Node>, i: nat)
    requires i < |order| && forall j, l :: 0 <= j < l < |order| ==> order[j] != order[l]
    ensures forall j, l :: 0 <= j < l < |order| ==> Splice(order, i)[j] != Splice(order, i)[l]
  {
    forall j, l | 0 <= j < l < |order| ensures Splice(order, i)[j] != Splice(order, i)[l] {
      SpliceAt(order, i, j);
      SpliceAt(order, i, l);
    }
  }

  lemma SpliceAgrees<K, V>(cache: map<K, (Node, V)>, order: seq<Node>, keyOf: map<Node, K>, i: nat)
    requires Agree(cache, order, keyOf) && i < |order|
    ensures Agree(cache, Splice(order, i), keyOf)
  {
    SpliceMembers(order, i);
    SpliceDistinct(order, i);
  }

  lemma SpliceKeeps<K, V>(cache: map<K, (Node, V)>, order: seq<Node>, keyOf: map<Node, K>, i: nat)
    requires Agree(cache, order, keyOf) && i < |order|
    ensures Agree(cache, Splice(order, i), keyOf)
    ensures var s := EntriesOf(cache, order, keyOf);
            EntriesOf(cache, Splice(order, i), keyOf) == [s[i]] + Without(s, i)
  {
    SpliceAgrees(cache, order, keyOf, i);
    var s := EntriesOf(cache, order, keyOf);
    var t := EntriesOf(cache, Splice(order, i), keyOf);
    var u := [s[i]] + Without(s, i);
    assert |t| == |u|;
    forall j | 0 <= j < |t| ensures t[j] == u[j] {
      SpliceAt(order, i, j);
      FrontAt(s, i, j);
    }
  }

  lemma {:induction false} FrontAt<K, V>(s: seq<Entry<K, V>>, i: nat, j: nat)
    requires i < |s| && j < |s|
    ensures ([s[i]] + Without(s, i))[j] == s[Origin(i, j)]
  {
  }

  /** The value of the key at `i` is replaced. */
  lemma UpdateKeeps<K, V>(cache: map<K, (Node, V)>, order: seq<Node>, keyOf: map<Node, K>, i: nat, value: V)
    requires Agree(cache, order, keyOf) && i < |order|
    ensures var cache' := cache[keyOf[order[i]] := (order[i], value)];
            && Agree(cache', order, keyOf)
            && EntriesOf(cache', order, keyOf) == EntriesOf(cache, order, keyOf)[i := Entry(keyOf[order[i]], value)]
  {
    var k := keyOf[order[i]];
    var cache' := cache[k := (order[i], value)];
    assert Agree(cache', order, keyOf);
    var s := EntriesOf(cache, order, keyOf);
    var t := EntriesOf(cache', order, keyOf);
    forall j | 0 <= j < |t| ensures t[j] == s[i := Entry(k, value)][j] {
      if j != i { assert cache[keyOf[order[j]]].0 != order[i]; }
    }
  }

  lemma HitKeeps<K, V>(cache: map<K, (Node, V)>, order: seq<Node>, keyOf: map<Node, K>, i: nat, value: V)
    requires Agree(cache, order, keyOf) && i < |order|
    ensures var k := keyOf[order[i]];
            var s := EntriesOf(cache, order, keyOf);
            var cache' := cache[k := (order[i], value)];
            && HasKey(s, k) && Place(s, k) == i
            && Agree(cache', Splice(order, i), keyOf)
            && EntriesOf(cache', Splice(order, i), keyOf) == [Entry(k, value)] + Without(s, i)
  {
    var k := keyOf[order[i]];
    var s := EntriesOf(cache, order, keyOf);
    AgreeMeans(cache, order, keyOf);
    OnePlace(s, k, i);
    UpdateKeeps(cache, order, keyOf, i, value);
    SpliceKeeps(cache[k := (order[i], value)], order, keyOf, i);
    assert Without(s[i := Entry(k, value)], i) == Without(s, i);
  }

  /** The key of the first node is replaced by another. */
  lemma RenameKeeps<K, V>(cache: map<K, (Node, V)>, order: seq<Node>, keyOf: map<Node, K>, key: K, value: V)
    requires Agree(cache, order, keyOf) && key !in cache && |order| > 0
    ensures var front := order[0];
            var cache' := (cache - {keyOf[front]})[key := (front, value)];
            && Agree(cache', order, keyOf[front := key])
            && EntriesOf(cache', order, keyOf[front := key]) == [Entry(key, value)] + EntriesOf(cache, order, keyOf)[1..]
  {
    var front := order[0];
    var cache1 := cache - {keyOf[front]};
    var cache' := cache1[key := (front, value)];
    var keyOf' := keyOf[front := key];
    assert cache == cache1[keyOf[front] := cache[keyOf[front]]];
    forall k | k in cache' ensures cache'[k].0 in order && keyOf'[cache'[k].0] == k {
      if k != key { assert cache[k].0 in order && cache[k].0 != front; }
    }
    forall i | 0 <= i < |order| ensures keyOf'[order[i]] in cache' && cache'[keyOf'[order[i]]].0 == order[i] {
      if i > 0 { assert cache[keyOf[order[i]]].0 == order[i] && order[i] != front; }
    }
    assert Agree(cache', order, keyOf');
    RenamedEntries(cache, cache', order, keyOf, key, value);
  }

  lemma RenamedEntries<K, V>(cache: map<K, (Node, V)>, cache': map<K, (Node, V)>, order: seq<Node>, keyOf: map<Node, K>,
                             key: K, value: V)
    requires Agree(cache, order, keyOf) && |order| > 0 && key !in cache
    requires cache' == (cache - {keyOf[order[0]]})[key := (order[0], value)]
    requires Agree(cache', order, keyOf[order[0] := key])
    ensures EntriesOf(cache', order, keyOf[order[0] := key]) == [Entry(key, value)] + EntriesOf(cache, order, keyOf)[1..]
  {
    var t := EntriesOf(cache', order, keyOf[order[0] := key]);
    var u := [Entry(key, value)] + EntriesOf(cache, order, keyOf)[1..];
    forall j | 0 <= j < |t| ensures t[j] == u[j] {
      if j > 0 { assert order[j] != order[0]; }
    }
  }

  lemma EvictKeeps<K, V>(cache: map<K, (Node, V)>, order: seq<Node>, keyOf: map<Node, K>, key: K, value: V)
    requires Agree(cache, order, keyOf) && key !in cache && |order| > 0
    ensures var back := order[|order| - 1];
            var cache' := (cache - {keyOf[back]})[key := (back, value)];
            var order' := Splice(order, |order| - 1);
            var s := EntriesOf(cache, order, keyOf);
            && Agree(cache', order', keyOf[back := key])
            && EntriesOf(cache', order', keyOf[back := key]) == [Entry(key, value)] + s[..|s| - 1]
  {
    var k := |order| - 1;
    var s := EntriesOf(cache, order, keyOf);
    SpliceKeeps(cache, order, keyOf, k);
    RenameKeeps(cache, Splice(order, k), keyOf, key, value);
    assert ([s[k]] + Without(s, k))[1..] == s[..k];
  }

  lemma InsertAgrees<K, V>(cache: map<K, (Node, V)>, order: seq<Node>, keyOf: map<Node, K>, key: K, value: V)
    requires Agree(cache, order, keyOf) && key !in cache
    ensures Agree(cache[key := (|order|, value)], [|order|] + order, keyOf[|order| := key])
  {
    var node := |order|;
    var cache' := cache[key := (node, value)];
    var r := [node] + order;
    forall i, j | 0 <= i < j < |r| ensures r[i] != r[j] {
      assert r[j] == order[j - 1] && order[j - 1] in order;
    }
    forall k | k in cache' ensures cache'[k].0 in r && keyOf[node := key][cache'[k].0] == k {
      if k != key { assert cache[k].0 in order; }
    }
    forall n | n in r
      ensures n < |r| && n in keyOf[node := key] && keyOf[node := key][n] in cache' && cache'[keyOf[node := key][n]].0 == n
    {
      if n != node { assert n in order; }
    }
  }

  /** The entry of a node that was there before. */
  lemma OldEntry<K, V>(cache: map<K, (Node, V)>, order: seq<Node>, keyOf: map<Node, K>, j: nat)
    requires Agree(cache, order, keyOf) && j < |order|
    ensures var n := order[j]; n < |order| && n in keyOf && keyOf[n] in cache
    ensures EntriesOf(cache, order, keyOf)[j] == Entry(keyOf[order[j]], cache[keyOf[order[j]]].1)
  {
    assert order[j] in order;
  }

  lemma EntriesEqual<K, V>(cache: map<K, (Node, V)>, order: seq<Node>, keyOf: map<Node, K>, u: seq<Entry<K, V>>)
    requires Agree(cache, order, keyOf) && |u| == |order|
    requires forall j :: 0 <= j < |order| ==>
               order[j] in keyOf && keyOf[order[j]] in cache && u[j] == Entry(keyOf[order[j]], cache[keyOf[order[j]]].1)
    ensures EntriesOf(cache, order, keyOf) == u
  {
  }

  lemma InsertedEntries<K, V>(cache: map<K, (Node, V)>, order: seq<Node>, keyOf: map<Node, K>, key: K, value: V)
    requires Agree(cache, order, keyOf) && key !in cache
    requires Agree(cache[key := (|order|, value)], [|order|] + order, keyOf[|order| := key])
    ensures EntriesOf(cache[key := (|order|, value)], [|order|] + order, keyOf[|order| := key]) ==
            [Entry(key, value)] + EntriesOf(cache, order, keyOf)
  {
    var s := EntriesOf(cache, order, keyOf);
    var cache', order', keyOf' := cache[key := (|order|, value)], [|order|] + order, keyOf[|order| := key];
    forall j | 0 <= j < |order'|
      ensures order'[j] in keyOf' && keyOf'[order'[j]] in cache'
      ensures ([Entry(key, value)] + s)[j] == Entry(keyOf'[order'[j]], cache'[keyOf'[order'[j]]].1)
    {
      if j > 0 {
        OldEntry(cache, order, keyOf, j - 1);
        assert order'[j] == order[j - 1] && ([Entry(key, value)] + s)[j] == s[j - 1];
      }
    }
    EntriesEqual(cache', order', keyOf', [Entry(key, value)] + s);
  }

  lemma InsertKeeps<K, V>(cache: map<K, (Node, V)>, order: seq<Node>, keyOf: map<Node, K>, key: K, value: V)
    requires Agree(cache, order, keyOf) && key !in cache
    ensures var cache' := cache[key := (|order|, value)];
            && Agree(cache', [|order|] + order, keyOf[|order| := key])
            && EntriesOf(cache', [|order|] + order, keyOf[|order| := key]) ==
               [Entry(key, value)] + EntriesOf(cache, order, keyOf)
  {
    InsertAgrees(cache, order, keyOf, key, value);
    InsertedEntries(cache, order, keyOf, key, value);
  }

  // ---------------------------------------------------------------- traces

  datatype Op<K, V> = Put(key: K, value: V) | Get(key: K)

  ghost function Step<K, V>(c: nat, s: seq<Entry<K, V>>, op: Op<K, V>): seq<Entry<K, V>>
    requires c > 0
  {
    if op.Put? then SpecPut(c, s, op.key, op.value) else SpecGet(s, op.key)
  }

  /** The entries of a cache of capacity `c` after a trace. */
  ghost function Run<K, V>(c: nat, ops: seq<Op<K, V>>): seq<Entry<K, V>>
    requires c > 0
  {
    if ops == [] then [] else Step(c, Run(c, ops[..|ops| - 1]), ops[|ops| - 1])
  }

  /** Without the entries of key `k`. */
  ghost function Drop<K, V>(s: seq<Entry<K, V>>, k: K): seq<Entry<K, V>> {
    if s == [] then [] else
      var n := |s| - 1;
      Drop(s[..n], k) + if s[n].key == k then [] else [s[n]]
  }

  lemma {:induction false} DropAbsent<K, V>(s: seq<Entry<K, V>>, k: K)
    requires !HasKey(s, k)
    ensures Drop(s, k) == s
  {
    if s != [] {
      var n := |s| - 1;
      assert s[n].key != k;
      forall i | 0 <= i < n ensures s[..n][i].key != k { assert s[i].key != k; }
      DropAbsent(s[..n], k);
    }
  }

  lemma {:induction false} DropIsWithout<K, V>(s: seq<Entry<K, V>>, k: K, i: nat)
    requires DistinctKeys(s) && i < |s| && s[i].key == k
    ensures Drop(s, k) == Without(s, i)
  {
    var n := |s| - 1;
    if i < n {
      DropIsWithout(s[..n], k, i);
      assert Without(s, i) == Without(s[..n], i) + [s[n]];
    } else {
      forall j | 0 <= j < n ensures s[..n][j].key != k { assert s[j].key != s[n].key; }
      DropAbsent(s[..n], k);
    }
  }

  lemma {:induction false} DropMembers<K, V>(s: seq<Entry<K, V>>, k: K)
    ensures forall e :: e in Drop(s, k) <==> e in s && e.key != k
    ensures |Drop(s, k)| <= |s|
  {
    if s != [] {
      DropMembers(s[..|s| - 1], k);
      assert s == s[..|s| - 1] + [s[|s| - 1]];
    }
  }

  /** What a step does, by the key's presence: it comes to the front, or the trace does not notice. */
  lemma StepMeans<K, V>(c: nat, s: seq<Entry<K, V>>, op: Op<K, V>)
    requires c > 0 && DistinctKeys(s) && |s| <= c
    ensures var r := Step(c, s, op);
            if HasKey(s, op.key) then
              r == [Entry(op.key, if op.Put? then op.value else Lookup(s, op.key).value)] + Drop(s, op.key)
            else if op.Get? then r == s
            else r == [Entry(op.key, op.value)] + if |s| == c then s[..|s| - 1] else s
  {
    if HasKey(s, op.key) { DropIsWithout(s, op.key, Place(s, op.key)); }
  }

  lemma {:induction false} DropDistinct<K, V>(s: seq<Entry<K, V>>, k: K)
    requires DistinctKeys(s)
    ensures DistinctKeys(Drop(s, k)) && !HasKey(Drop(s, k), k)
    ensures HasKey(s, k) ==> |Drop(s, k)| == |s| - 1
  {
    DropMembers(s, k);
    if HasKey(s, k) { DropIsWithout(s, k, Place(s, k)); } else { DropAbsent(s, k); }
    forall i | 0 <= i < |Drop(s, k)| ensures Drop(s, k)[i].key != k { assert Drop(s, k)[i] in Drop(s, k); }
  }

  lemma {:induction false} RunDistinct<K, V>(c: nat, ops: seq<Op<K, V>>)
    requires c > 0
    ensures DistinctKeys(Run(c, ops)) && |Run(c, ops)| <= c
  {
    if ops != [] {
      var s, op := Run(c, ops[..|ops| - 1]), ops[|ops| - 1];
      RunDistinct(c, ops[..|ops| - 1]);
      StepMeans(c, s, op);
      if HasKey(s, op.key) { DropDistinct(s, op.key); }
      else { assert forall i :: 0 <= i < |s| ==> s[i].key != op.key; }
    }
  }

  // ---------------------------------------------------------------- a larger cache holds a smaller one

  /** `a` is a subsequence of `b`. */
  ghost predicate Within<K, V>(a: seq<Entry<K, V>>, b: seq<Entry<K, V>>) {
    if a == [] then true
    else if b == [] then false
    else if a[|a| - 1] == b[|b| - 1] then Within(a[..|a| - 1], b[..|b| - 1])
    else Within(a, b[..|b| - 1])
  }

  lemma {:induction false} WithinMembers<K, V>(a: seq<Entry<K, V>>, b: seq<Entry<K, V>>)
    requires Within(a, b)
    ensures forall e :: e in a ==> e in b
    ensures |a| <= |b|
  {
    if a != [] {
      WithinMembers(if a[|a| - 1] == b[|b| - 1] then a[..|a| - 1] else a, b[..|b| - 1]);
      assert a == a[..|a| - 1] + [a[|a| - 1]];
    }
  }

  lemma {:induction false} WithinSelf<K, V>(a: seq<Entry<K, V>>)
    ensures Within(a, a)
  {
    if a != [] { WithinSelf(a[..|a| - 1]); }
  }

  lemma {:induction false} WithinFront<K, V>(a: seq<Entry<K, V>>, b: seq<Entry<K, V>>, e: Entry<K, V>)
    requires Within(a, b)
    ensures Within([e] + a, [e] + b)
  {
    if a == [] {
      OneWithin(b, e);
      assert [e] + a == [e];
    } else {
      var n := |b| - 1;
      assert ([e] + b)[..n + 1] == [e] + b[..n];
      assert ([e] + a)[..|a|] == [e] + a[..|a| - 1];
      WithinFront(if a[|a| - 1] == b[n] then a[..|a| - 1] else a, b[..n], e);
    }
  }

  lemma {:induction false} OneWithin<K, V>(b: seq<Entry<K, V>>, e: Entry<K, V>)
    ensures Within([e], [e] + b)
  {
    if b != [] {
      OneWithin(b[..|b| - 1], e);
      assert ([e] + b)[..|b|] == [e] + b[..|b| - 1];
    }
  }

  lemma {:induction false} WithinDrop<K, V>(a: seq<Entry<K, V>>, b: seq<Entry<K, V>>, k: K)
    requires Within(a, b)
    ensures Within(Drop(a, k), Drop(b, k))
  {
    if a != [] {
      var m, n := |a| - 1, |b| - 1;
      WithinDrop(if a[m] == b[n] then a[..m] else a, b[..n], k);
      assert forall s: seq<Entry<K, V>> :: s + [] == s;
      if a[m] == b[n] {
        if b[n].key != k { WithinBoth(Drop(a[..m], k), Drop(b[..n], k), b[n]); }
      } else if b[n].key != k {
        WithinMore(Drop(a, k), Drop(b[..n], k), b[n]);
      }
    }
  }

  lemma WithinBoth<K, V>(a: seq<Entry<K, V>>, b: seq<Entry<K, V>>, e: Entry<K, V>)
    requires Within(a, b)
    ensures Within(a + [e], b + [e])
  {
    assert (a + [e])[..|a|] == a && (b + [e])[..|b|] == b;
  }

  /** A longer sequence still holds `a`. */
  lemma {:induction false} WithinMore<K, V>(a: seq<Entry<K, V>>, b: seq<Entry<K, V>>, e: Entry<K, V>)
    requires Within(a, b)
    ensures Within(a, b + [e])
    decreases |a| + |b|, 1
  {
    assert (b + [e])[..|b|] == b;
    if a != [] && a[|a| - 1] == e { WithinLess(a, b); }
  }

  lemma {:induction false} WithinLess<K, V>(a: seq<Entry<K, V>>, b: seq<Entry<K, V>>)
    requires Within(a, b) && a != []
    ensures Within(a[..|a| - 1], b) && Within(a[..|a| - 1], b[..|b| - 1])
    decreases |a| + |b|, 0
  {
    var n := |b| - 1;
    if a[|a| - 1] != b[n] { WithinLess(a, b[..n]); }
    assert b == b[..n] + [b[n]];
    WithinMore(a[..|a| - 1], b[..n], b[n]);
  }

  /** A smaller cache holds part of what a larger one does, in the same order, and all of it while it is
      not full. */
  ghost predicate Smaller<K, V>(c: nat, a: seq<Entry<K, V>>, b: seq<Entry<K, V>>) {
    Within(a, b) && (|a| < c ==> a == b)
  }

  lemma StepKeepsSmaller<K, V>(c: nat, d: nat, a: seq<Entry<K, V>>, b: seq<Entry<K, V>>, op: Op<K, V>)
    requires 0 < c <= d && Smaller(c, a, b) && DistinctKeys(a) && DistinctKeys(b) && |a| <= c && |b| <= d
    ensures Smaller(c, Step(c, a, op), Step(d, b, op))
  {
    StepMeans(c, a, op);
    StepMeans(d, b, op);
    WithinMembers(a, b);
    var k := op.key;
    if HasKey(a, k) {
      assert a[Place(a, k)] in b;
      var j :| 0 <= j < |b| && b[j] == a[Place(a, k)];
      OnePlace(b, k, j);
      DropDistinct(a, k);
      WithinDrop(a, b, k);
      WithinFront(Drop(a, k), Drop(b, k), Step(c, a, op)[0]);
    } else if op.Put? {
      NewKeySmaller(c, d, a, b, op);
    } else if HasKey(b, k) {
      DropAbsent(a, k);
      WithinDrop(a, b, k);
      WithinLonger(a, Drop(b, k), Step(d, b, op)[0]);
    }
  }

  lemma {:induction false} WithinLonger<K, V>(a: seq<Entry<K, V>>, b: seq<Entry<K, V>>, e: Entry<K, V>)
    requires Within(a, b)
    ensures Within(a, [e] + b)
  {
    if a != [] {
      var n := |b| - 1;
      assert ([e] + b)[..n + 1] == [e] + b[..n];
      WithinLonger(if a[|a| - 1] == b[n] then a[..|a| - 1] else a, b[..n], e);
    }
  }

  lemma NewKeySmaller<K, V>(c: nat, d: nat, a: seq<Entry<K, V>>, b: seq<Entry<K, V>>, op: Op<K, V>)
    requires 0 < c <= d && Smaller(c, a, b) && DistinctKeys(a) && DistinctKeys(b) && |a| <= c && |b| <= d
    requires op.Put? && !HasKey(a, op.key)
    ensures Smaller(c, Step(c, a, op), Step(d, b, op))
  {
    var k := op.key;
    var e := Entry(k, op.value);
    StepMeans(c, a, op);
    StepMeans(d, b, op);
    var a' := if |a| == c then a[..|a| - 1] else a;
    if HasKey(b, k) {
      DropAbsent(a, k);
      WithinDrop(a, b, k);
      if a != [] { WithinLess(a, Drop(b, k)); }
      WithinFront(a', Drop(b, k), e);
    } else {
      if a != [] { WithinLess(a, b); }
      var b' := if |b| == d then b[..|b| - 1] else b;
      WithinFront(a', b', e);
    }
  }

  lemma {:induction false} Inclusion<K, V>(c: nat, d: nat, ops: seq<Op<K, V>>)
    requires 0 < c <= d
    ensures Smaller(c, Run(c, ops), Run(d, ops))
  {
    if ops != [] {
      var ops' := ops[..|ops| - 1];
      Inclusion(c, d, ops');
      RunDistinct(c, ops');
      RunDistinct(d, ops');
      StepKeepsSmaller(c, d, Run(c, ops'), Run(d, ops'), ops[|ops| - 1]);
    }
  }

  /** On the same trace a larger cache never misses where a smaller one hits, and finds the same value. */
  lemma LargerNeverMisses<K, V>(c: nat, d: nat, ops: seq<Op<K, V>>, k: K)
    requires 0 < c <= d && Lookup(Run(c, ops), k).Some?
    ensures Lookup(Run(d, ops), k) == Lookup(Run(c, ops), k)
  {
    var a, b := Run(c, ops), Run(d, ops);
    Inclusion(c, d, ops);
    WithinMembers(a, b);
    RunDistinct(d, ops);
    assert a[Place(a, k)] in b;
    var j :| 0 <= j < |b| && b[j] == a[Place(a, k)];
    OnePlace(b, k, j);
  }

  // ---------------------------------------------------------------- what is held, from the trace alone

  /** One more than the place of the last operation with the key, or zero. */
  ghost function Last<K, V>(ops: seq<Op<K, V>>, k: K): (n: nat)
    ensures n <= |ops|
  {
    if ops == [] then 0
    else if ops[|ops| - 1].key == k then |ops|
    else Last(ops[..|ops| - 1], k)
  }

  ghost function LastPut<K, V>(ops: seq<Op<K, V>>, k: K): Option<V> {
    if ops == [] then None
    else if ops[|ops| - 1].key == k && ops[|ops| - 1].Put? then Some(ops[|ops| - 1].value)
    else LastPut(ops[..|ops| - 1], k)
  }

  /** Most recently used first, each key with the value last put. */
  ghost predicate Fresh<K, V>(ops: seq<Op<K, V>>, s: seq<Entry<K, V>>) {
    && (forall i :: 0 <= i < |s| ==> LastPut(ops, s[i].key) == Some(s[i].value) && Last(ops, s[i].key) > 0)
    && (forall i, j :: 0 <= i < j < |s| ==> Last(ops, s[i].key) > Last(ops, s[j].key))
  }

  lemma {:induction false} FreshOther<K, V>(ops: seq<Op<K, V>>, s: seq<Entry<K, V>>)
    requires ops != [] && Fresh(ops[..|ops| - 1], s) && !HasKey(s, ops[|ops| - 1].key)
    ensures Fresh(ops, s)
  {
    assert forall i :: 0 <= i < |s| ==> s[i].key != ops[|ops| - 1].key;
  }

  lemma {:induction false} DropFrom<K, V>(s: seq<Entry<K, V>>, k: K, i: nat) returns (j: nat)
    requires i < |Drop(s, k)|
    ensures j < |s| && s[j] == Drop(s, k)[i]
  {
    var n := |s| - 1;
    if i < |Drop(s[..n], k)| { j := DropFrom(s[..n], k, i); } else { j := n; }
  }

  lemma {:induction false} FreshDrop<K, V>(ops: seq<Op<K, V>>, s: seq<Entry<K, V>>, k: K)
    requires Fresh(ops, s)
    ensures Fresh(ops, Drop(s, k))
  {
    if s != [] {
      var n := |s| - 1;
      FreshDrop(ops, s[..n], k);
      forall i | 0 <= i < |Drop(s[..n], k)|
        ensures Last(ops, Drop(s[..n], k)[i].key) > Last(ops, s[n].key)
      {
        var j := DropFrom(s[..n], k, i);
        assert s[j].key == Drop(s[..n], k)[i].key;
      }
    }
  }

  /** In every cache the entries are in the order of their last use in the trace, with the values last
      put. */
  lemma {:induction false} HeldInOrder<K, V>(c: nat, ops: seq<Op<K, V>>)
    requires c > 0
    ensures Fresh(ops, Run(c, ops))
  {
    if ops != [] {
      var ops', op := ops[..|ops| - 1], ops[|ops| - 1];
      var s := Run(c, ops');
      HeldInOrder(c, ops');
      RunDistinct(c, ops');
      StepMeans(c, s, op);
      if HasKey(s, op.key) {
        FreshDrop(ops', s, op.key);
        DropDistinct(s, op.key);
        FreshOther(ops, Drop(s, op.key));
        FreshFront(ops, Drop(s, op.key), Run(c, ops)[0]);
      } else {
        assert forall i :: 0 <= i < |s| ==> s[i].key != op.key;
        FreshOther(ops, if op.Put? && |s| == c then s[..|s| - 1] else s);
        if op.Put? { FreshFront(ops, if |s| == c then s[..|s| - 1] else s, Run(c, ops)[0]); }
      }
    }
  }

  lemma {:induction false} FreshFront<K, V>(ops: seq<Op<K, V>>, s: seq<Entry<K, V>>, e: Entry<K, V>)
    requires ops != [] && Fresh(ops, s) && !HasKey(s, e.key) && e.key == ops[|ops| - 1].key
    requires LastPut(ops, e.key) == Some(e.value)
    ensures Fresh(ops, [e] + s)
  {
    forall i | 0 <= i < |s| ensures Last(ops, s[i].key) < |ops| { assert s[i].key != e.key; }
  }

  /** The keys of the operations from place `n` on. */
  ghost function KeysFrom<K, V>(ops: seq<Op<K, V>>, n: nat): set<K>
    requires n <= |ops|
  {
    if n == |ops| then {} else KeysFrom(ops[..|ops| - 1], n) + {ops[|ops| - 1].key}
  }

  ghost function KeysOf<K, V>(s: seq<Entry<K, V>>): set<K> {
    if s == [] then {} else KeysOf(s[..|s| - 1]) + {s[|s| - 1].key}
  }

  lemma {:induction false} KeyIn<K, V>(s: seq<Entry<K, V>>, k: K)
    ensures k in KeysOf(s) <==> HasKey(s, k)
  {
    if s != [] {
      var n := |s| - 1;
      KeyIn(s[..n], k);
      if HasKey(s[..n], k) { assert s[Place(s[..n], k)].key == k; }
      if HasKey(s, k) && Place(s, k) < n { assert s[..n][Place(s, k)].key == k; }
    }
  }

  lemma {:induction false} KeysSize<K, V>(s: seq<Entry<K, V>>)
    requires DistinctKeys(s)
    ensures |KeysOf(s)| == |s|
  {
    if s != [] {
      var n := |s| - 1;
      KeysSize(s[..n]);
      KeyIn(s[..n], s[n].key);
    }
  }

  lemma {:induction false} LaterIsIn<K, V>(ops: seq<Op<K, V>>, n: nat, k: K)
    requires n <= |ops|
    ensures k in KeysFrom(ops, n) <==> Last(ops, k) > n
  {
    if n < |ops| { LaterIsIn(ops[..|ops| - 1], n, k); }
  }

  /** A key that was in the cache after its last operation is still there if since then fewer than
      `c` other keys were used. */
  lemma {:induction false} RecentStays<K, V>(c: nat, ops: seq<Op<K, V>>, k: K)
    requires c > 0 && Last(ops, k) > 0 && HasKey(Run(c, ops[..Last(ops, k)]), k)
    requires |KeysFrom(ops, Last(ops, k))| < c
    ensures HasKey(Run(c, ops), k)
  {
    var n := Last(ops, k);
    if n == |ops| {
      assert ops[..n] == ops;
    } else {
      var ops', op := ops[..|ops| - 1], ops[|ops| - 1];
      assert ops'[..n] == ops[..n];
      SubsetSize(KeysFrom(ops', n), KeysFrom(ops, n));
      RecentStays(c, ops', k);
      StaysOneMore(c, ops', k, op, KeysFrom(ops, n));
      assert ops == ops' + [op];
    }
  }

  lemma {:induction false} StaysOneMore<K, V>(c: nat, ops: seq<Op<K, V>>, k: K, op: Op<K, V>, used: set<K>)
    requires c > 0 && HasKey(Run(c, ops), k) && op.key != k
    requires used == KeysFrom(ops, Last(ops, k)) + {op.key} && |used| < c
    ensures HasKey(Step(c, Run(c, ops), op), k)
  {
    var s := Run(c, ops);
    var r := Step(c, s, op);
    RunDistinct(c, ops);
    StepMeans(c, s, op);
    var i := Place(s, k);
    if HasKey(s, op.key) {
      DropHas(s, op.key, k);
      FrontHas(r[0], Drop(s, op.key), k);
    } else if op.Put? {
      if |s| == c && i == c - 1 { EvictionNeedsMany(c, ops, k, op.key); }
      assert r[i + 1].key == k;
    }
  }

  /** If `k` is the last of a full cache, `c - 1` other keys have been used since. */
  lemma {:induction false} EvictionNeedsMany<K, V>(c: nat, ops: seq<Op<K, V>>, k: K, x: K)
    requires c > 0 && |Run(c, ops)| == c && Run(c, ops)[c - 1].key == k && !HasKey(Run(c, ops), x)
    ensures |KeysFrom(ops, Last(ops, k)) + {x}| >= c
  {
    var s := Run(c, ops);
    RunDistinct(c, ops);
    HeldInOrder(c, ops);
    var ahead := s[..c - 1];
    KeysSize(ahead);
    forall y | y in KeysOf(ahead) ensures y in KeysFrom(ops, Last(ops, k)) && y != x {
      KeyIn(ahead, y);
      var i := Place(ahead, y);
      assert s[i].key == y && Last(ops, s[i].key) > Last(ops, s[c - 1].key);
      LaterIsIn(ops, Last(ops, k), y);
      assert HasKey(s, y);
    }
    SubsetSize(KeysOf(ahead) + {x}, KeysFrom(ops, Last(ops, k)) + {x});
  }

  ghost predicate AllPuts<K, V>(ops: seq<Op<K, V>>, n: nat) { forall i :: n <= i < |ops| ==> ops[i].Put? }

  /** Only an operation with the key brings it in. */
  lemma {:induction false} StillThere<K, V>(c: nat, ops: seq<Op<K, V>>, k: K, op: Op<K, V>)
    requires c > 0 && op.key != k && HasKey(Step(c, Run(c, ops), op), k)
    ensures HasKey(Run(c, ops), k)
  {
    var s := Run(c, ops);
    var r := Step(c, s, op);
    RunDistinct(c, ops);
    StepMeans(c, s, op);
    DropMembers(s, op.key);
    var i := Place(r, k);
    assert r[i] in s;
    var j :| 0 <= j < |s| && s[j] == r[i];
    assert s[j].key == k;
  }

  /** A key used later than one that stays, stays. */
  lemma {:induction false} KeptAhead<K, V>(c: nat, ops: seq<Op<K, V>>, k: K, y: K, op: Op<K, V>)
    requires c > 0 && HasKey(Run(c, ops), k) && HasKey(Run(c, ops), y) && Last(ops, y) > Last(ops, k)
    requires op.key != k && op.key != y && HasKey(Step(c, Run(c, ops), op), k)
    ensures HasKey(Step(c, Run(c, ops), op), y)
  {
    RunDistinct(c, ops);
    HeldInOrder(c, ops);
    AheadStays(c, Run(c, ops), k, y, op);
  }

  lemma {:induction false} AheadStays<K, V>(c: nat, s: seq<Entry<K, V>>, k: K, y: K, op: Op<K, V>)
    requires c > 0 && DistinctKeys(s) && |s| <= c
    requires HasKey(s, k) && HasKey(s, y) && Place(s, y) < Place(s, k)
    requires op.key != k && op.key != y
    ensures HasKey(Step(c, s, op), y)
  {
    StepMeans(c, s, op);
    if HasKey(s, op.key) {
      DropHas(s, op.key, y);
      FrontHas(Step(c, s, op)[0], Drop(s, op.key), y);
    } else if op.Put? {
      var kept := if |s| == c then s[..|s| - 1] else s;
      assert kept[Place(s, y)].key == y;
      FrontHas(Entry(op.key, op.value), kept, y);
    }
  }

  lemma {:induction false} DropHas<K, V>(s: seq<Entry<K, V>>, x: K, y: K)
    requires HasKey(s, y) && x != y
    ensures HasKey(Drop(s, x), y)
  {
    DropMembers(s, x);
    assert s[Place(s, y)] in Drop(s, x);
    var l :| 0 <= l < |Drop(s, x)| && Drop(s, x)[l] == s[Place(s, y)];
    assert Drop(s, x)[l].key == y;
  }

  lemma {:induction false} FrontHas<K, V>(e: Entry<K, V>, s: seq<Entry<K, V>>, y: K)
    requires HasKey(s, y)
    ensures HasKey([e] + s, y)
  {
    assert ([e] + s)[Place(s, y) + 1].key == y;
  }

  /** Of a key that is still there, every key put since is there too. */
  lemma {:induction false} PutSinceIsHeld<K, V>(c: nat, ops: seq<Op<K, V>>, k: K, y: K)
    requires c > 0 && Last(ops, k) > 0 && AllPuts(ops, Last(ops, k)) && HasKey(Run(c, ops), k)
    requires y in KeysFrom(ops, Last(ops, k))
    ensures HasKey(Run(c, ops), y) && y != k
  {
    var n := Last(ops, k);
    LaterIsIn(ops, n, y);
    var ops', op := ops[..|ops| - 1], ops[|ops| - 1];
    if y == op.key {
      RunDistinct(c, ops');
      StepMeans(c, Run(c, ops'), op);
      assert Run(c, ops)[0].key == y;
    } else {
      StillThere(c, ops', k, op);
      PutSinceIsHeld(c, ops', k, y);
      LaterIsIn(ops', n, y);
      KeptAhead(c, ops', k, y, op);
    }
  }

  /** If only puts followed its last operation, a key that was in the cache then is still there exactly
      if they were with fewer than `c` keys. */
  lemma {:induction false} StaysExactly<K, V>(c: nat, ops: seq<Op<K, V>>, k: K)
    requires c > 0 && Last(ops, k) > 0 && HasKey(Run(c, ops[..Last(ops, k)]), k)
    requires AllPuts(ops, Last(ops, k))
    ensures HasKey(Run(c, ops), k) <==> |KeysFrom(ops, Last(ops, k))| < c
  {
    if |KeysFrom(ops, Last(ops, k))| < c {
      RecentStays(c, ops, k);
    } else if HasKey(Run(c, ops), k) {
      var s, used := Run(c, ops), KeysFrom(ops, Last(ops, k));
      RunDistinct(c, ops);
      KeysSize(s);
      KeyIn(s, k);
      forall y | y in used ensures y in KeysOf(s) && y != k { PutSinceIsHeld(c, ops, k, y); KeyIn(s, y); }
      SubsetSize(used + {k}, KeysOf(s));
      assert false;
    }
  }
}
