/** Bottom-up merge sort on sequences of distinct elements, and what it does for a total preorder. */
module MergeSort {
  import opened Bits

  type Order<!T> = (T, T) -> bool

  /** Merges two runs; take(x, y) says that x of the first run goes before y of the second. */
  function Merge<T>(take: Order<T>, a: seq<T>, b: seq<T>): (c: seq<T>)
    ensures |c| == |a| + |b|
  {
    if b == [] then a
    else if a == [] then b
    else if take(a[0], b[0]) then [a[0]] + Merge(take, a[1..], b)
    else [b[0]] + Merge(take, a, b[1..])
  }

  /** One pass: merges the runs of the given size two by two. */
  function Pass<T>(take: Order<T>, xs: seq<T>, size: nat): (ys: seq<T>)
    requires size > 0
    ensures |ys| == |xs|
    decreases |xs|
  {
    if xs == [] then []
    else
      var m, n := Min(size, |xs|), Min(2 * size, |xs|);
      Merge(take, xs[..m], xs[m..n]) + Pass(take, xs[n..], size)
  }

  /** Passes with doubling run size, up to one that merges a single pair of runs. */
  function Sort<T>(take: Order<T>, xs: seq<T>, size: nat): (ys: seq<T>)
    requires size > 0
    ensures |ys| == |xs|
    decreases |xs| - size
  {
    var ys := Pass(take, xs, size);
    if |xs| > 2 * size then Sort(take, ys, 2 * size) else ys
  }

  ghost predicate Same<T>(a: seq<T>, b: seq<T>) {
    multiset(a) == multiset(b)
  }

  lemma {:induction false} MergePermutes<T>(take: Order<T>, a: seq<T>, b: seq<T>)
    ensures multiset(Merge(take, a, b)) == multiset(a) + multiset(b)
  {
    if a != [] && b != [] {
      assert a == [a[0]] + a[1..] && b == [b[0]] + b[1..];
      if take(a[0], b[0]) { MergePermutes(take, a[1..], b); } else { MergePermutes(take, a, b[1..]); }
    }
  }

  lemma {:induction false} PassPermutes<T>(take: Order<T>, xs: seq<T>, size: nat)
    requires size > 0
    ensures Same(Pass(take, xs, size), xs)
    decreases |xs|
  {
    if xs != [] {
      var m, n := Min(size, |xs|), Min(2 * size, |xs|);
      MergePermutes(take, xs[..m], xs[m..n]);
      PassPermutes(take, xs[n..], size);
      assert xs == xs[..m] + xs[m..n] + xs[n..];
    }
  }

  lemma {:induction false} SortPermutes<T>(take: Order<T>, xs: seq<T>, size: nat)
    requires size > 0
    ensures Same(Sort(take, xs, size), xs)
    decreases |xs| - size
  {
    PassPermutes(take, xs, size);
    if |xs| > 2 * size { SortPermutes(take, Pass(take, xs, size), 2 * size); }
  }

  ghost predicate Sorted<T>(q: Order<T>, s: seq<T>) {
    forall i, j :: 0 <= i < j < |s| ==> q(s[i], s[j])
  }

  ghost predicate Transitive<T>(q: Order<T>, u: seq<T>) {
    forall x, y, z :: x in u && y in u && z in u && q(x, y) && q(y, z) ==> q(x, z)
  }

  /** For x before y in the original list, take chooses as q does. */
  ghost predicate Agree<T>(take: Order<T>, q: Order<T>, e: seq<T>) {
    forall i, j :: 0 <= i < j < |e| ==> if take(e[i], e[j]) then q(e[i], e[j]) else q(e[j], e[i])
  }

  ghost predicate Cross<T>(take: Order<T>, q: Order<T>, a: seq<T>, b: seq<T>) {
    forall x, y :: x in a && y in b ==> if take(x, y) then q(x, y) else q(y, x)
  }

  lemma MergeElements<T>(take: Order<T>, a: seq<T>, b: seq<T>, x: T)
    requires x in Merge(take, a, b)
    ensures x in a || x in b
  {
    MergePermutes(take, a, b);
    assert x in multiset(Merge(take, a, b));
  }

  lemma SortedCons<T>(q: Order<T>, x: T, s: seq<T>)
    requires Sorted(q, s) && forall y :: y in s ==> q(x, y)
    ensures Sorted(q, [x] + s)
  {
  }

  lemma {:induction false} MergeSorts<T>(take: Order<T>, q: Order<T>, a: seq<T>, b: seq<T>)
    requires Sorted(q, a) && Sorted(q, b) && Cross(take, q, a, b) && Transitive(q, a + b)
    ensures Sorted(q, Merge(take, a, b))
  {
    if a != [] && b != [] {
      var x, y := a[0], b[0];
      if take(x, y) {
        HeadFirst(q, x, a, y, b);
        assert forall z :: z in a[1..] + b ==> z in a + b;
        MergeSorts(take, q, a[1..], b);
        forall z | z in Merge(take, a[1..], b) ensures q(x, z) { MergeElements(take, a[1..], b, z); }
        SortedCons(q, x, Merge(take, a[1..], b));
      } else {
        HeadFirst(q, y, b, x, a);
        assert forall z :: z in a + b[1..] ==> z in a + b;
        MergeSorts(take, q, a, b[1..]);
        forall z | z in Merge(take, a, b[1..]) ensures q(y, z) { MergeElements(take, a, b[1..], z); }
        SortedCons(q, y, Merge(take, a, b[1..]));
      }
    }
  }

  lemma HeadFirst<T>(q: Order<T>, x: T, a: seq<T>, y: T, b: seq<T>)
    requires a != [] && x == a[0] && b != [] && y == b[0] && q(x, y)
    requires Sorted(q, a) && Sorted(q, b)
    requires Transitive(q, a + b) || Transitive(q, b + a)
    ensures forall z :: z in a[1..] || z in b ==> q(x, z)
  {
    forall z | z in a[1..] || z in b ensures q(x, z) {
      if z in a[1..] {
        var i :| 0 <= i < |a| - 1 && a[1..][i] == z;
        assert q(a[0], a[i + 1]);
      } else if z != y {
        var i :| 0 <= i < |b| && b[i] == z;
        assert q(b[0], b[i]);
        assert x in a + b && y in a + b && z in a + b;
        assert x in b + a && y in b + a && z in b + a;
      }
    }
  }

  /** xs is e cut into runs of the given size, each one permuted and sorted by q. */
  ghost predicate Runs<T>(q: Order<T>, xs: seq<T>, e: seq<T>, size: nat)
    requires size > 0
    decreases |xs|
  {
    |xs| == |e| &&
    (xs != [] ==>
      var m := Min(size, |xs|);
      Same(xs[..m], e[..m]) && Sorted(q, xs[..m]) && Runs(q, xs[m..], e[m..], size))
  }

  lemma SameElements<T>(a: seq<T>, b: seq<T>)
    requires Same(a, b)
    ensures |a| == |b| && forall x :: x in a <==> x in b
  {
    assert |a| == |multiset(a)| && |b| == |multiset(b)|;
    forall x ensures x in a <==> x in b {
      assert x in multiset(a) <==> x in multiset(b);
    }
  }

  lemma AgreeMeansCross<T>(take: Order<T>, q: Order<T>, e: seq<T>, m: nat, n: nat, a: seq<T>, b: seq<T>)
    requires Agree(take, q, e) && m <= n <= |e| && Same(a, e[..m]) && Same(b, e[m..n])
    ensures Cross(take, q, a, b)
  {
    SameElements(a, e[..m]);
    SameElements(b, e[m..n]);
    forall x, y | x in a && y in b ensures if take(x, y) then q(x, y) else q(y, x) {
      var i :| 0 <= i < m && e[..m][i] == x;
      var j :| 0 <= j < n - m && e[m..n][j] == y;
      assert e[i] == x && e[m + j] == y;
    }
  }

  lemma PairElements<T>(a: seq<T>, b: seq<T>, e: seq<T>, m: nat, n: nat)
    requires m <= n <= |e| && Same(a, e[..m]) && Same(b, e[m..n])
    ensures forall x :: x in a + b ==> x in e
  {
    forall x | x in a + b ensures x in e {
      if x in a {
        assert x in multiset(e[..m]);
        assert x in e[..m];
      } else {
        assert x in multiset(b) && x in multiset(e[m..n]);
        assert x in e[m..n];
      }
    }
  }

  /** A pass doubles the size of the sorted runs. */
  lemma {:induction false} PassRuns<T>(take: Order<T>, q: Order<T>, xs: seq<T>, e: seq<T>, size: nat)
    requires size > 0 && Runs(q, xs, e, size) && Agree(take, q, e) && Transitive(q, e)
    ensures Runs(q, Pass(take, xs, size), e, 2 * size)
    decreases |xs|
  {
    if xs != [] {
      var n := Min(2 * size, |xs|);
      PairSorts(take, q, xs, e, size);
      assert forall x :: x in e[n..] ==> x in e;
      PassRuns(take, q, xs[n..], e[n..], size);
      var ys := Pass(take, xs, size);
      assert ys[n..] == Pass(take, xs[n..], size);
    }
  }

  lemma MergeSame<T>(take: Order<T>, a: seq<T>, b: seq<T>, e: seq<T>, m: nat, n: nat)
    requires m <= n <= |e| && Same(a, e[..m]) && Same(b, e[m..n])
    ensures Same(Merge(take, a, b), e[..n])
  {
    MergePermutes(take, a, b);
    assert e[..n] == e[..m] + e[m..n];
  }

  lemma PassHead<T>(take: Order<T>, xs: seq<T>, size: nat)
    requires size > 0 && xs != []
    ensures var m, n := Min(size, |xs|), Min(2 * size, |xs|);
      Pass(take, xs, size)[..n] == Merge(take, xs[..m], xs[m..n])
  {
  }

  /** The first two runs of a list merge into a sorted permutation of what they were cut from. */
  lemma PairSorts<T>(take: Order<T>, q: Order<T>, xs: seq<T>, e: seq<T>, size: nat)
    requires size > 0 && xs != [] && Runs(q, xs, e, size) && Agree(take, q, e) && Transitive(q, e)
    ensures var n := Min(2 * size, |xs|); var ys := Pass(take, xs, size);
      Same(ys[..n], e[..n]) && Sorted(q, ys[..n]) && Runs(q, xs[n..], e[n..], size)
  {
    var m, n := Min(size, |xs|), Min(2 * size, |xs|);
    SecondRun(q, xs, e, size);
    RunsMerge(take, q, xs[..m], xs[m..n], e, m, n);
    PassHead(take, xs, size);
  }

  lemma RunsMerge<T>(take: Order<T>, q: Order<T>, a: seq<T>, b: seq<T>, e: seq<T>, m: nat, n: nat)
    requires m <= n <= |e| && Same(a, e[..m]) && Same(b, e[m..n]) && Sorted(q, a) && Sorted(q, b)
    requires Agree(take, q, e) && Transitive(q, e)
    ensures Same(Merge(take, a, b), e[..n]) && Sorted(q, Merge(take, a, b))
  {
    AgreeMeansCross(take, q, e, m, n, a, b);
    MergeSame(take, a, b, e, m, n);
    PairElements(a, b, e, m, n);
    MergeSorts(take, q, a, b);
  }

  lemma SecondRun<T>(q: Order<T>, xs: seq<T>, e: seq<T>, size: nat)
    requires size > 0 && xs != [] && Runs(q, xs, e, size)
    ensures var m, n := Min(size, |xs|), Min(2 * size, |xs|);
      && Same(xs[m..n], e[m..n]) && Sorted(q, xs[m..n]) && Runs(q, xs[n..], e[n..], size)
  {
    hide Same, Sorted;
    var m, n := Min(size, |xs|), Min(2 * size, |xs|);
    var xs', e' := xs[m..], e[m..];
    if xs' != [] {
      assert xs'[..n - m] == xs[m..n] && e'[..n - m] == e[m..n];
      assert xs'[n - m..] == xs[n..] && e'[n - m..] == e[n..];
    } else {
      assert xs[m..n] == [] && e[m..n] == [];
      EmptyRun(q);
    }
  }

  lemma EmptyRun<T>(q: Order<T>)
    ensures Same<T>([], []) && Sorted(q, [])
  {
  }

  /** The whole sort puts a list in q order whenever take agrees with q on it. */
  lemma {:induction false} SortSorts<T>(take: Order<T>, q: Order<T>, xs: seq<T>, e: seq<T>, size: nat)
    requires size > 0 && Runs(q, xs, e, size) && Agree(take, q, e) && Transitive(q, e)
    ensures Sorted(q, Sort(take, xs, size))
    decreases |xs| - size
  {
    PassRuns(take, q, xs, e, size);
    var ys := Pass(take, xs, size);
    if |xs| > 2 * size {
      SortSorts(take, q, ys, e, 2 * size);
    } else {
      assert ys[..|ys|] == ys;
    }
  }

  lemma {:induction false} Singletons<T>(q: Order<T>, e: seq<T>)
    ensures Runs(q, e, e, 1)
  {
    if e != [] { Singletons(q, e[1..]); }
  }

  // A total preorder on the elements of a list without duplicates, and the strict order that breaks its
  // ties by the original position.

  ghost predicate TotalPreorder<T>(le: Order<T>, e: seq<T>) {
    && (forall x, y :: x in e && y in e ==> le(x, y) || le(y, x))
    && Transitive(le, e)
  }

  ghost predicate Distinct<T>(e: seq<T>) {
    forall i, j :: 0 <= i < j < |e| ==> e[i] != e[j]
  }

  ghost function Position<T>(e: seq<T>, x: T): nat {
    if e == [] || e[0] == x then 0 else 1 + Position(e[1..], x)
  }

  lemma {:induction false} PositionOf<T>(e: seq<T>, i: nat)
    requires Distinct(e) && i < |e|
    ensures Position(e, e[i]) == i
  {
    if i > 0 { PositionOf(e[1..], i - 1); }
  }

  ghost predicate Stable<T>(le: Order<T>, e: seq<T>, x: T, y: T) {
    le(x, y) && (le(y, x) ==> Position(e, x) < Position(e, y))
  }

  ghost function Ascending<T>(le: Order<T>, e: seq<T>): Order<T> {
    (x, y) => Stable(le, e, x, y)
  }

  ghost function Descending<T>(le: Order<T>, e: seq<T>): Order<T> {
    (x, y) => Stable(le, e, y, x)
  }

  lemma StableTransitive<T>(le: Order<T>, e: seq<T>)
    requires TotalPreorder(le, e)
    ensures Transitive(Ascending(le, e), e) && Transitive(Descending(le, e), e)
  {
    forall x, y, z | x in e && y in e && z in e && Stable(le, e, x, y) && Stable(le, e, y, z)
      ensures Stable(le, e, x, z)
    {
      assert le(z, x) ==> le(y, x) && le(z, y);
    }
  }

  /** take chooses as the comparison says, for the ascending sort. */
  ghost predicate Follows<T>(take: Order<T>, le: Order<T>, e: seq<T>) {
    forall x, y :: x in e && y in e ==> (take(x, y) <==> le(x, y))
  }

  /** take chooses the other way round, for the descending sort. */
  ghost predicate Opposes<T>(take: Order<T>, le: Order<T>, e: seq<T>) {
    forall x, y :: x in e && y in e ==> (take(x, y) <==> !le(x, y))
  }

  lemma StableAgrees<T>(take: Order<T>, le: Order<T>, e: seq<T>)
    requires TotalPreorder(le, e) && Distinct(e)
    ensures Follows(take, le, e) ==> Agree(take, Ascending(le, e), e)
    ensures Opposes(take, le, e) ==> Agree(take, Descending(le, e), e)
  {
    forall i, j | 0 <= i < j < |e|
      ensures if le(e[i], e[j]) then Stable(le, e, e[i], e[j]) else Stable(le, e, e[j], e[i])
      ensures e[i] in e && e[j] in e
    {
      assert e[i] in e && e[j] in e;
      PositionOf(e, i);
      PositionOf(e, j);
    }
  }

  /** The order that the two directions of the sort establish. */
  lemma SortIsStable<T>(take: Order<T>, le: Order<T>, e: seq<T>)
    requires TotalPreorder(le, e) && Distinct(e)
    ensures Follows(take, le, e) ==> Sorted(Ascending(le, e), Sort(take, e, 1))
    ensures Opposes(take, le, e) ==> Sorted(Descending(le, e), Sort(take, e, 1))
  {
    StableTransitive(le, e);
    StableAgrees(take, le, e);
    Singletons(Ascending(le, e), e);
    Singletons(Descending(le, e), e);
    if Follows(take, le, e) { SortSorts(take, Ascending(le, e), e, e, 1); }
    if Opposes(take, le, e) { SortSorts(take, Descending(le, e), e, e, 1); }
  }

  function Reverse<T>(s: seq<T>): (r: seq<T>)
    ensures |r| == |s| && forall i :: 0 <= i < |s| ==> r[i] == s[|s| - 1 - i]
  {
    if s == [] then [] else Reverse(s[1..]) + [s[0]]
  }

  lemma {:induction false} ReversePermutes<T>(s: seq<T>)
    ensures Same(Reverse(s), s)
  {
    if s != [] {
      ReversePermutes(s[1..]);
      assert s == [s[0]] + s[1..];
    }
  }

  lemma FirstOf<T>(q: Order<T>, s: seq<T>, x: T)
    requires Sorted(q, s) && x in s
    ensures x == s[0] || q(s[0], x)
  {
  }

  lemma SameTail<T>(a: seq<T>, b: seq<T>)
    requires a != [] && b != [] && a[0] == b[0] && Same(a, b)
    ensures Same(a[1..], b[1..])
  {
    assert a == [a[0]] + a[1..] && b == [b[0]] + b[1..];
    assert multiset(a[1..]) == multiset(a) - multiset{a[0]};
    assert multiset(b[1..]) == multiset(b) - multiset{b[0]};
  }

  /** A list sorted by an asymmetric relation is determined by its elements. */
  lemma {:induction false} SortedUnique<T>(q: Order<T>, a: seq<T>, b: seq<T>)
    requires Sorted(q, a) && Sorted(q, b) && Same(a, b)
    requires forall x, y :: x in a && y in a && q(x, y) ==> !q(y, x)
    ensures a == b
  {
    SameElements(a, b);
    if a != [] {
      assert a[0] in b && b[0] in a;
      FirstOf(q, b, a[0]);
      FirstOf(q, a, b[0]);
      SameTail(a, b);
      assert a == [a[0]] + a[1..] && b == [b[0]] + b[1..];
      SortedUnique(q, a[1..], b[1..]);
    }
  }

  /** The descending result is the ascending one read backwards. */
  lemma DescendingIsReverse<T>(up: Order<T>, down: Order<T>, le: Order<T>, e: seq<T>)
    requires TotalPreorder(le, e) && Distinct(e) && Follows(up, le, e) && Opposes(down, le, e)
    ensures Sort(down, e, 1) == Reverse(Sort(up, e, 1))
  {
    var asc, desc := Sort(up, e, 1), Sort(down, e, 1);
    SortIsStable(up, le, e);
    SortIsStable(down, le, e);
    SortPermutes(up, e, 1);
    SortPermutes(down, e, 1);
    ReversePermutes(asc);
    SameElements(desc, e);
    assert Sorted(Descending(le, e), Reverse(asc));
    SortedUnique(Descending(le, e), desc, Reverse(asc));
  }
}
