/** Where the six hash functions let an item sit, as facts about a slot array and an overflow list. */
module Cuckoo {
  import opened Bits

  type Key = seq<byte>

  /** hash(i, k): the i-th seeded 32-bit hash of a key. Nothing is assumed about it. */
  type Hasher = (nat, Key) -> nat

  const HASHFN_COUNT: nat := 6
  const CUCKOO_RETRY: nat := 12

  /** The pointer field an item uses both for its cached first hash and for its basket link. */
  datatype Ptr<V> = Null | HashWord(word: nat) | Next(item: Item<V>)

  class Item<V> {
    const str: Key
    var len: nat
    var val: V
    var ptr: Ptr<V>
    var next: Item?<V>

    constructor (key: Key, v: V)
      ensures str == key && len == |key| && val == v && ptr == Null && next == null
    {
      str, len, val, ptr, next := key, |key|, v, Null, null;
    }
  }

  /** `hash & mask`, always a slot number. */
  function Idx<V>(h: Hasher, i: nat, k: Key, b: seq<Item?<V>>): (j: nat)
    requires |b| > 0
    ensures j < |b|
  {
    And(h(i, k), |b| - 1)
  }

  /** The first n probes for the key hit occupied slots. */
  ghost predicate Reach<V>(h: Hasher, b: seq<Item?<V>>, n: nat, k: Key)
    requires |b| > 0
  {
    forall i :: 0 <= i < n ==> b[Idx(h, i, k, b)] != null
  }

  /** The probe sequence of the key gets to slot j. */
  ghost predicate Probes<V>(h: Hasher, b: seq<Item?<V>>, k: Key, i: nat, j: nat)
    requires |b| > 0
  {
    i < HASHFN_COUNT && Idx(h, i, k, b) == j && Reach(h, b, i, k)
  }

  ghost predicate Seated<V>(h: Hasher, b: seq<Item?<V>>, it: Item<V>)
    requires |b| > 0
  {
    exists i: nat :: Probes(h, b, it.str, i, Idx(h, i, it.str, b)) && b[Idx(h, i, it.str, b)] == it
  }

  ghost predicate Stranded<V>(h: Hasher, b: seq<Item?<V>>, o: seq<Item<V>>, it: Item<V>)
    requires |b| > 0
  {
    it in o && Reach(h, b, HASHFN_COUNT, it.str)
  }

  /** A live item is in one of its slots, the earlier ones occupied, or in the basket, all six occupied. */
  ghost predicate Located<V>(h: Hasher, b: seq<Item?<V>>, o: seq<Item<V>>, it: Item<V>)
    requires |b| > 0
  {
    Seated(h, b, it) || Stranded(h, b, o, it)
  }

  ghost predicate Absent<V>(b: seq<Item?<V>>, o: seq<Item<V>>, it: Item?<V>) {
    it != null ==> it !in b && it !in o
  }

  /** No item is stored twice. */
  ghost predicate OnceEach<V>(b: seq<Item?<V>>, o: seq<Item<V>>) {
    && (forall i, j :: 0 <= i < j < |b| && b[i] != null ==> b[i] != b[j])
    && (forall p, q :: 0 <= p < q < |o| ==> o[p] != o[q])
    && (forall p :: 0 <= p < |o| ==> o[p] !in b)
  }

  /** The items in slots and basket. */
  ghost function Held<V>(b: seq<Item?<V>>, o: seq<Item<V>>): set<Item<V>> {
    (set x: Item<V> | x in b) + (set x: Item<V> | x in o)
  }

  /** The number of occupied slots. */
  ghost function Filled<V>(b: seq<Item?<V>>): nat {
    if b == [] then 0 else Filled(b[..|b| - 1]) + if b[|b| - 1] == null then 0 else 1
  }

  lemma {:induction false} FilledUpdate<V>(b: seq<Item?<V>>, j: nat, x: Item<V>)
    requires j < |b|
    ensures Filled(b[j := x]) == Filled(b) + if b[j] == null then 1 else 0
  {
    var n := |b| - 1;
    var b' := b[j := x];
    if j == n {
      assert b'[..n] == b[..n];
    } else {
      assert b'[..n] == b[..n][j := x];
      FilledUpdate(b[..n], j, x);
    }
  }

  lemma {:induction false} FilledEmpty<V>(b: seq<Item?<V>>)
    requires forall j :: 0 <= j < |b| ==> b[j] == null
    ensures Filled(b) == 0
  {
    if b != [] { FilledEmpty(b[..|b| - 1]); }
  }

  /** Every directory item but the pending one is located, and the pending one is nowhere. */
  ghost predicate Layout<V>(h: Hasher, b: seq<Item?<V>>, o: seq<Item<V>>, dir: map<Key, Item<V>>,
                            pending: Item?<V>)
  {
    && |b| > 0
    && OnceEach(b, o)
    && Absent(b, o, pending)
    && (forall k :: k in dir ==> dir[k].str == k && (dir[k] == pending || Located(h, b, o, dir[k])))
  }

  /** A record that is no longer listed may stay where it is. */
  lemma FewerKeepLayout<V>(h: Hasher, b: seq<Item?<V>>, o: seq<Item<V>>, dir: map<Key, Item<V>>, key: Key)
    requires Layout(h, b, o, dir, null) && key in dir
    ensures Layout(h, b, o, dir - {key}, null) && dir[key].str == key
  {
    hide OnceEach, Absent, Located;
  }

  lemma ReachUpdate<V>(h: Hasher, b: seq<Item?<V>>, n: nat, k: Key, j: nat, x: Item<V>)
    requires j < |b| && Reach(h, b, n, k)
    ensures Reach(h, b[j := x], n, k)
  {
    var b' := b[j := x];
    forall i | 0 <= i < n ensures b'[Idx(h, i, k, b')] != null {
      assert Idx(h, i, k, b') == Idx(h, i, k, b);
      assert b[Idx(h, i, k, b)] != null;
    }
  }

  /** Overwriting a slot by an item moves nobody but its occupant. */
  lemma LocatedUpdate<V>(h: Hasher, b: seq<Item?<V>>, o: seq<Item<V>>, it: Item<V>, j: nat, x: Item<V>)
    requires j < |b| && Located(h, b, o, it) && b[j] != it
    ensures Located(h, b[j := x], o, it)
  {
    var b' := b[j := x];
    if Seated(h, b, it) {
      var i: nat :| Probes(h, b, it.str, i, Idx(h, i, it.str, b)) && b[Idx(h, i, it.str, b)] == it;
      ReachUpdate(h, b, i, it.str, j, x);
      assert Idx(h, i, it.str, b') == Idx(h, i, it.str, b);
      assert Probes(h, b', it.str, i, Idx(h, i, it.str, b'));
    } else {
      ReachUpdate(h, b, HASHFN_COUNT, it.str, j, x);
    }
  }

  /** Putting the pending item into a slot its probing reaches makes the old occupant, if any, pending. */
  lemma SwapKeepsLayout<V>(h: Hasher, b: seq<Item?<V>>, o: seq<Item<V>>, dir: map<Key, Item<V>>,
                           x: Item<V>, i: nat, j: nat)
    requires Layout(h, b, o, dir, x) && j < |b| && Probes(h, b, x.str, i, j)
    ensures Layout(h, b[j := x], o, dir, b[j])
  {
    var b' := b[j := x];
    SwapKeepsOnce(b, o, x, j);
    ReachUpdate(h, b, i, x.str, j, x);
    assert Idx(h, i, x.str, b') == j;
    assert Probes(h, b', x.str, i, Idx(h, i, x.str, b'));
    assert Seated(h, b', x);
    forall k | k in dir && dir[k] != b[j] ensures Located(h, b', o, dir[k]) {
      if dir[k] != x { LocatedUpdate(h, b, o, dir[k], j, x); }
    }
  }

  lemma SwapKeepsOnce<V>(b: seq<Item?<V>>, o: seq<Item<V>>, x: Item<V>, j: nat)
    requires OnceEach(b, o) && Absent(b, o, x) && j < |b|
    ensures OnceEach(b[j := x], o) && Absent(b[j := x], o, b[j])
    ensures Held(b[j := x], o) == Held(b, o) + {x} - (if b[j] == null then {} else {b[j]})
  {
    var b', y := b[j := x], b[j];
    assert x in b' by { assert b'[j] == x; }
    forall z: Item<V> | z in b' ensures z == x || (z in b && z != y) {
      var l :| 0 <= l < |b'| && b'[l] == z;
      if l != j { assert b[l] == z; }
    }
    forall z: Item<V> | z in b && z != y ensures z in b' {
      var l :| 0 <= l < |b| && b[l] == z;
      assert b'[l] == z;
    }
    forall p | 0 <= p < |o| ensures o[p] !in b' { }
    assert Held(b', o) == Held(b, o) + {x} - (if y == null then {} else {y});
  }

  /** A pending item none of whose six slots is free may go to the basket. */
  lemma StrandKeepsLayout<V>(h: Hasher, b: seq<Item?<V>>, o: seq<Item<V>>, dir: map<Key, Item<V>>, x: Item<V>)
    requires Layout(h, b, o, dir, x) && Reach(h, b, HASHFN_COUNT, x.str)
    ensures Layout(h, b, [x] + o, dir, null)
    ensures Held(b, [x] + o) == Held(b, o) + {x}
  {
    var o' := [x] + o;
    forall k | k in dir ensures Located(h, b, o', dir[k]) {
      if dir[k] != x && Stranded(h, b, o, dir[k]) { assert Stranded(h, b, o', dir[k]); }
    }
    forall p, q | 0 <= p < q < |o'| ensures o'[p] != o'[q] {
      assert o'[q] == o[q - 1];
    }
    assert forall p :: 0 <= p < |o| ==> o'[p + 1] == o[p];
    assert Held(b, o') == Held(b, o) + {x};
  }

  lemma RemoveOrphan<V>(h: Hasher, b: seq<Item?<V>>, o: seq<Item<V>>, dir: map<Key, Item<V>>, p: nat)
    requires Layout(h, b, o, dir, null) && p < |o|
    requires forall k :: k in dir ==> dir[k] != o[p]
    ensures Layout(h, b, o[..p] + o[p + 1..], dir, null)
    ensures o[p] in Held(b, o) && Held(b, o[..p] + o[p + 1..]) == Held(b, o) - {o[p]}
  {
    var o' := o[..p] + o[p + 1..];
    assert forall q :: 0 <= q < |o'| ==> o'[q] == o[if q < p then q else q + 1];
    forall y: Item<V> | y in o && y != o[p] ensures y in o' {
      var q :| 0 <= q < |o| && o[q] == y;
      assert o'[if q < p then q else q - 1] == y;
    }
    forall k | k in dir ensures Located(h, b, o', dir[k]) {
      if Stranded(h, b, o, dir[k]) { assert Stranded(h, b, o', dir[k]); }
    }
    assert Held(b, o') == Held(b, o) - {o[p]};
  }

  lemma NewKeepsLayout<V>(h: Hasher, b: seq<Item?<V>>, o: seq<Item<V>>, dir: map<Key, Item<V>>, x: Item<V>)
    requires Layout(h, b, o, dir, null) && x !in b && x !in o
    ensures Layout(h, b, o, dir[x.str := x], x) && Layout(h, b, o, dir, x)
  {
  }

  /** None of the first n probes for the key finds the item. */
  ghost predicate NotMet<V>(h: Hasher, b: seq<Item?<V>>, k: Key, n: nat, it: Item<V>)
    requires |b| > 0
  {
    forall i :: 0 <= i < n ==> b[Idx(h, i, k, b)] != it
  }

  /** One more probe hit an occupied slot that does not hold the item, if there is one. */
  lemma ProbeOn<V>(h: Hasher, b: seq<Item?<V>>, k: Key, n: nat, it: Item?<V>)
    requires |b| > 0 && Reach(h, b, n, k) && b[Idx(h, n, k, b)] != null
    requires it != null ==> NotMet(h, b, k, n, it) && b[Idx(h, n, k, b)] != it
    ensures Reach(h, b, n + 1, k) && (it != null ==> NotMet(h, b, k, n + 1, it))
  {
  }

  /** The holder of a key, if there is one, is met by probing before any free slot. */
  lemma MetBeforeFreeSlot<V>(h: Hasher, b: seq<Item?<V>>, o: seq<Item<V>>, k: Key, it: Item?<V>, n: nat)
    requires |b| > 0 && n < HASHFN_COUNT && b[Idx(h, n, k, b)] == null
    requires it != null ==> it.str == k && Located(h, b, o, it)
    ensures it != null ==> !NotMet(h, b, k, n, it)
  {
    if it != null {
      var i: nat :| Probes(h, b, it.str, i, Idx(h, i, it.str, b)) && b[Idx(h, i, it.str, b)] == it;
      assert i <= n;
    }
  }

  /** The holder of a key that no probe meets is in the basket. */
  lemma NotSeatedMeansOrphan<V>(h: Hasher, b: seq<Item?<V>>, o: seq<Item<V>>, k: Key, it: Item?<V>)
    requires |b| > 0
    requires it != null ==> it.str == k && Located(h, b, o, it) && NotMet(h, b, k, HASHFN_COUNT, it)
    ensures it != null ==> it in o && Reach(h, b, HASHFN_COUNT, k)
  {
  }

  /** The pending item takes a free slot that its probing found. */
  lemma FillKeepsLayout<V>(h: Hasher, b: seq<Item?<V>>, o: seq<Item<V>>, dir: map<Key, Item<V>>,
                           x: Item<V>, i: nat, j: nat)
    requires Layout(h, b, o, dir, x)
    requires j < |b| && b[j] == null && Probes(h, b, x.str, i, j)
    ensures Layout(h, b[j := x], o, dir, null)
    ensures Held(b[j := x], o) == Held(b, o) + {x}
    ensures Filled(b[j := x]) == Filled(b) + 1
  {
    SwapKeepsLayout(h, b, o, dir, x, i, j);
    SwapKeepsOnce(b, o, x, j);
    FilledUpdate(b, j, x);
  }

  /** The pending item takes an occupied slot of its own; the occupant becomes the pending one. */
  lemma EvictKeepsLayout<V>(h: Hasher, b: seq<Item?<V>>, o: seq<Item<V>>, dir: map<Key, Item<V>>,
                            x: Item<V>, i: nat, j: nat)
    requires Layout(h, b, o, dir, x)
    requires j < |b| && b[j] != null && Probes(h, b, x.str, i, j)
    ensures Layout(h, b[j := x], o, dir, b[j])
    ensures b[j] in Held(b, o) && x !in Held(b, o)
    ensures Held(b[j := x], o) == Held(b, o) + {x} - {b[j]}
    ensures Filled(b[j := x]) == Filled(b)
  {
    SwapKeepsLayout(h, b, o, dir, x, i, j);
    SwapKeepsOnce(b, o, x, j);
    FilledUpdate(b, j, x);
  }

  lemma EmptyLayout<V>(h: Hasher, b: seq<Item?<V>>)
    requires b != [] && forall j :: 0 <= j < |b| ==> b[j] == null
    ensures Layout(h, b, [], map[], null) && Held(b, []) == {} && Filled(b) == 0
  {
    FilledEmpty(b);
  }
}
