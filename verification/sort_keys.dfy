/** The comparator that the cache ships for sorting: bytes up to the length of the shorter key. */
module SortKeys {
  import opened Bits
  import opened Cuckoo
  import opened Entries
  import opened MergeSort

  /** `memcmp`: the first difference among the first n bytes decides. */
  function Memcmp(a: Key, b: Key, n: nat): int {
    if n == 0 || a == [] || b == [] then 0
    else if a[0] != b[0] then a[0] - b[0]
    else Memcmp(a[1..], b[1..], n - 1)
  }

  /** `cache_sort_keys` */
  function CompareKeys<V>(key0: Key, key1: Key, n: nat, val0: V, val1: V): int {
    Memcmp(key0, key1, n)
  }

  /** Two keys of which one is the beginning of the other compare as equal. */
  predicate Tied(a: Key, b: Key) {
    a <= b || b <= a
  }

  function KeyOf<V>(x: Item<V>): Key
    reads x`len
  {
    if x.len <= |x.str| then x.str[..x.len] else x.str
  }

  function Sign(x: Key, y: Key): int {
    Memcmp(x, y, Min(|x|, |y|))
  }

  lemma {:induction false} MemcmpPrefix(a: Key, b: Key, m: nat, n: nat)
    requires m <= |a| && n <= |b|
    ensures Memcmp(a, b, Min(m, n)) == Sign(a[..m], b[..n])
  {
    if m > 0 && n > 0 && a[0] == b[0] {
      MemcmpPrefix(a[1..], b[1..], m - 1, n - 1);
      assert a[..m][1..] == a[1..][..m - 1] && b[..n][1..] == b[1..][..n - 1];
    }
  }

  /** Either order of the arguments gives the same answer, and it is 0 exactly for tied keys. */
  lemma {:induction false} SignMeans(a: Key, b: Key)
    ensures Sign(a, b) == -Sign(b, a) && (Sign(a, b) == 0 <==> Tied(a, b))
  {
    if a != [] && b != [] && a[0] == b[0] {
      SignMeans(a[1..], b[1..]);
      assert a == [a[0]] + a[1..] && b == [b[0]] + b[1..];
    } else if a == [] || b == [] {
      assert Tied(a, b);
    } else {
      assert !Tied(a, b);
    }
  }

  /** The order fails to be transitive only around a key that is the beginning of the two others. */
  lemma {:induction false} BreaksAtPrefix(a: Key, b: Key, c: Key)
    requires Sign(a, b) <= 0 && Sign(b, c) <= 0 && Sign(a, c) > 0
    ensures b <= a && b <= c
  {
    if b != [] {
      BreaksAtPrefix(a[1..], b[1..], c[1..]);
    }
  }

  /** No key is the beginning of two others that differ before one of them ends; a dead record has the empty key. */
  ghost predicate Unforked<V>(e: seq<Item<V>>)
    reads e`len
  {
    forall x, y, z :: x in e && y in e && z in e && KeyOf(y) <= KeyOf(x) && KeyOf(y) <= KeyOf(z) ==>
      Tied(KeyOf(x), KeyOf(z))
  }

  lemma LeIsSign<V>(e: seq<Item<V>>, x: Item<V>, y: Item<V>)
    requires x in e && y in e && x.len <= |x.str| && y.len <= |y.str|
    ensures Chosen(CompareKeys<V>, ASC, Elems(e))(x, y) <==> Sign(KeyOf(x), KeyOf(y)) <= 0
  {
    MemcmpPrefix(x.str, y.str, x.len, y.len);
    assert Judges(Chosen(CompareKeys<V>, ASC, Elems(e)), CompareKeys<V>, ASC, Elems(e));
  }

  /** The comparison of keys is a total preorder on the records of a list exactly if the keys do not fork. */
  lemma {:induction false} PreorderIffUnforked<V>(e: seq<Item<V>>)
    requires forall x :: x in e ==> x.len <= |x.str|
    ensures TotalPreorder(Chosen(CompareKeys<V>, ASC, Elems(e)), e) <==> Unforked(e)
  {
    hide Chosen, KeyOf, Sign, Tied, Transitive;
    var le := Chosen(CompareKeys<V>, ASC, Elems(e));
    forall x, y | x in e && y in e ensures le(x, y) <==> Sign(KeyOf(x), KeyOf(y)) <= 0 { LeIsSign(e, x, y); }
    forall x, y | x in e && y in e ensures le(x, y) || le(y, x) { SignMeans(KeyOf(x), KeyOf(y)); }
    if Unforked(e) {
      UnforkedTransitive(e, le);
    }
    if Transitive(le, e) {
      TransitiveUnforked(e, le);
    }
  }

  lemma UnforkedTransitive<V>(e: seq<Item<V>>, le: Order<Item<V>>)
    requires Unforked(e)
    requires forall x, y :: x in e && y in e ==> (le(x, y) <==> Sign(KeyOf(x), KeyOf(y)) <= 0)
    ensures Transitive(le, e)
  {
    hide KeyOf, Sign, Tied;
    forall x, y, z | x in e && y in e && z in e && le(x, y) && le(y, z) ensures le(x, z) {
      if Sign(KeyOf(x), KeyOf(z)) > 0 {
        BreaksAtPrefix(KeyOf(x), KeyOf(y), KeyOf(z));
        SignMeans(KeyOf(x), KeyOf(z));
      }
    }
  }

  lemma TransitiveUnforked<V>(e: seq<Item<V>>, le: Order<Item<V>>)
    requires Transitive(le, e)
    requires forall x, y :: x in e && y in e ==> (le(x, y) <==> Sign(KeyOf(x), KeyOf(y)) <= 0)
    ensures Unforked(e)
  {
    hide KeyOf, Sign;
    forall x, y, z | x in e && y in e && z in e && KeyOf(y) <= KeyOf(x) && KeyOf(y) <= KeyOf(z)
      ensures Tied(KeyOf(x), KeyOf(z))
    {
      SignMeans(KeyOf(x), KeyOf(y));
      SignMeans(KeyOf(y), KeyOf(z));
      SignMeans(KeyOf(x), KeyOf(z));
      assert le(x, y) && le(y, z) && le(z, y) && le(y, x);
      assert le(x, z) && le(z, x);
    }
  }

  /** With a dead record in the list, whose key is empty, no two keys may differ before one of them ends. */
  lemma DeadRecordForks<V>(e: seq<Item<V>>, dead: Item<V>)
    requires dead in e && dead.len == 0
    ensures Unforked(e) <==> forall x, z :: x in e && z in e ==> Tied(KeyOf(x), KeyOf(z))
  {
    assert KeyOf(dead) == [];
  }

  // A list that the comparator leaves unsorted.

  lemma MergesToFour<T>(take: Order<T>, w: T, x: T, y: T, z: T)
    requires take(w, y) && take(x, y)
    ensures Merge(take, [w, x], [y, z]) == [w, x, y, z]
  {
    assert [w, x][1..] == [x] && [x][1..] == [];
    assert Merge(take, [], [y, z]) == [y, z];
    assert Merge(take, [x], [y, z]) == [x] + [y, z];
  }

  lemma PairsStay<T>(take: Order<T>, w: T, x: T, y: T, z: T)
    requires take(w, x) && take(y, z)
    ensures Pass(take, [w, x, y, z], 1) == [w, x, y, z]
  {
    var e := [w, x, y, z];
    MergesToTwo(take, w, x);
    MergesToTwo(take, y, z);
    assert e[..1] == [w] && e[1..2] == [x] && e[2..] == [y, z];
    assert [y, z][..1] == [y] && [y, z][1..2] == [z] && [y, z][2..] == [];
    assert Pass(take, [y, z], 1) == [y, z] + Pass(take, [], 1);
  }

  lemma MergesToTwo<T>(take: Order<T>, w: T, x: T)
    requires take(w, x)
    ensures Merge(take, [w], [x]) == [w, x]
  {
    assert [w][1..] == [];
  }

  /** Four records that are taken in the order in which they stand when they meet. */
  lemma FourStay<T>(take: Order<T>, w: T, x: T, y: T, z: T)
    requires take(w, x) && take(y, z) && take(w, y) && take(x, y)
    ensures Sort(take, [w, x, y, z], 1) == [w, x, y, z]
  {
    hide Merge;
    var e := [w, x, y, z];
    PairsStay(take, w, x, y, z);
    MergesToFour(take, w, x, y, z);
    assert e[..2] == [w, x] && e[2..4] == [y, z] && e[4..] == [];
    assert Pass(take, e, 2) == e + Pass(take, [], 2);
    assert Sort(take, e, 2) == e;
  }

  lemma LastDiffers()
    ensures Sign([97, 97, 98], [97, 97, 97]) == 1
  {
    var x, y: Key := [97, 97, 98], [97, 97, 97];
    assert x[1..] == [97, 98] && y[1..] == [97, 97];
    assert x[1..][1..] == [98] && y[1..][1..] == [97];
    assert Memcmp(x[1..][1..], y[1..][1..], 1) == 1;
    assert Memcmp(x[1..], y[1..], 2) == 1;
  }

  lemma TiedIsTaken<V>(e: seq<Item<V>>, x: Item<V>, y: Item<V>)
    requires x in e && y in e && x.len <= |x.str| && y.len <= |y.str| && Tied(KeyOf(x), KeyOf(y))
    ensures Chosen(CompareKeys<V>, ASC, Elems(e))(x, y)
  {
    hide Chosen, KeyOf, Sign, Tied;
    LeIsSign(e, x, y);
    SignMeans(KeyOf(x), KeyOf(y));
  }

  /** The keys "aab", "aa", "a" and "aaa" fork at "aa". */
  predicate ForkedKeys(w: Key, x: Key, y: Key, z: Key) {
    w == [97, 97, 98] && x == [97, 97] && y == [97] && z == [97, 97, 97]
  }

  lemma ForkedTies(w: Key, x: Key, y: Key, z: Key)
    requires ForkedKeys(w, x, y, z)
    ensures Tied(w, x) && Tied(y, z) && Tied(w, y) && Tied(x, y) && x <= w && x <= z && !Tied(w, z) && Sign(w, z) > 0
  {
    hide Sign;
    LastDiffers();
    SignMeans(w, z);
  }

  /**
   * Such a list is left by the sort as it is, although its first key is greater than its last: the comparator is no
   * total preorder there.
   */
  lemma ForkedStaysUnsorted<V>(e: seq<Item<V>>)
    requires |e| == 4 && forall x :: x in e ==> x.len <= |x.str|
    requires ForkedKeys(KeyOf(e[0]), KeyOf(e[1]), KeyOf(e[2]), KeyOf(e[3]))
    ensures var le := Chosen(CompareKeys<V>, ASC, Elems(e));
      !Unforked(e) && !TotalPreorder(le, e) && Sort(le, e, 1) == e && !Sorted(le, e)
  {
    hide Chosen, KeyOf, Sign, Sort, TotalPreorder, Tied, ForkedKeys;
    var le, w, x, y, z := Chosen(CompareKeys<V>, ASC, Elems(e)), e[0], e[1], e[2], e[3];
    ForkedTies(KeyOf(w), KeyOf(x), KeyOf(y), KeyOf(z));
    TiedIsTaken(e, w, x);
    TiedIsTaken(e, y, z);
    TiedIsTaken(e, w, y);
    TiedIsTaken(e, x, y);
    FourStay(le, w, x, y, z);
    assert e == [w, x, y, z];
    LeIsSign(e, w, z);
    PreorderIffUnforked(e);
  }
}
