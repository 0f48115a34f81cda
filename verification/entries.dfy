/** The list of all records of a cache, and its merge sort in place. */
module Entries {
  import opened Bits
  import opened Cuckoo
  import opened MergeSort

  /** The entry list: distinct records linked through their next fields. */
  ghost predicate EntryChain<V>(head: Item?<V>, e: seq<Item<V>>)
    reads e`next
  {
    if e == [] then head == null
    else head == e[0] && e[0] !in e[1..] && EntryChain(e[0].next, e[1..])
  }

  ghost function Front<V>(s: seq<Item<V>>): seq<Item<V>> {
    if s == [] then [] else s[..|s| - 1]
  }

  /** Distinct records, each linked to the next; nothing is said of where the last one points. */
  ghost predicate Linked<V>(s: seq<Item<V>>)
    reads Front(s)`next
  {
    |s| >= 2 ==> Front(s)[1..] == Front(s[1..]) && s[0] !in s[1..] && s[0].next == s[1] && Linked(s[1..])
  }

  ghost predicate Apart<V>(a: seq<Item<V>>, b: seq<Item<V>>) {
    forall x :: x in a ==> x !in b
  }

  ghost function Last<V>(s: seq<Item<V>>): Item?<V> {
    if s == [] then null else s[|s| - 1]
  }

  ghost function First<V>(s: seq<Item<V>>): Item?<V> {
    if s == [] then null else s[0]
  }

  lemma {:induction false} LastNotInFront<V>(s: seq<Item<V>>)
    requires Linked(s)
    ensures s != [] ==> s[|s| - 1] !in Front(s)
  {
    if |s| >= 2 {
      LastNotInFront(s[1..]);
      assert Front(s) == [s[0]] + Front(s[1..]);
    }
  }

  lemma {:induction false} LinkedSnoc<V>(s: seq<Item<V>>, x: Item<V>)
    requires Linked(s) && x !in s && (s != [] ==> s[|s| - 1].next == x)
    ensures Linked(s + [x])
  {
    if s == [] {
    } else {
      assert (s + [x])[1..] == s[1..] + [x];
      if |s| == 1 {
        assert s + [x] == [s[0], x];
      } else {
        LinkedSnoc(s[1..], x);
      }
      assert Front(s + [x]) == s;
      assert Front(s[1..] + [x]) == s[1..];
    }
  }

  lemma {:induction false} LinkedCloses<V>(s: seq<Item<V>>)
    requires Linked(s) && s != [] && s[|s| - 1].next == null
    ensures EntryChain(s[0], s)
  {
    if |s| >= 2 {
      LinkedCloses(s[1..]);
    }
  }

  /** The first c records of a list are linked, and the list goes on after them. */
  lemma {:induction false} ChainSplit<V>(head: Item?<V>, e: seq<Item<V>>, c: nat) returns (mid: Item?<V>)
    requires EntryChain(head, e) && c <= |e|
    ensures Linked(e[..c]) && Apart(e[..c], e[c..]) && EntryChain(mid, e[c..])
    ensures c > 0 ==> head == e[0] && mid == e[c - 1].next
    ensures c == 0 ==> mid == head
  {
    if c == 0 {
      mid := head;
    } else {
      mid := ChainSplit(e[0].next, e[1..], c - 1);
      assert e[1..][c - 1..] == e[c..] && e[..c][1..] == e[1..][..c - 1];
      assert c >= 2 ==> Front(e[..c])[1..] == Front(e[..c][1..]);
    }
  }

  type Comparator<!V> = (Key, Key, nat, V, V) -> int

  const ASC: nat := 0
  const DESC: nat := 1

  function Compare<V>(cmp: Comparator<V>, x: Item<V>, y: Item<V>): int
    reads x`len, x`val, y`len, y`val
  {
    cmp(x.str, y.str, Min(x.len, y.len), x.val, y.val)
  }

  /** take is what the comparison of two records of the list makes the merge choose. */
  ghost predicate Judges<V>(take: Order<Item<V>>, cmp: Comparator<V>, order: nat, e: set<Item<V>>)
    reads e`len, e`val
  {
    forall x, y :: x in e && y in e ==> (take(x, y) <==> (Compare(cmp, x, y) <= 0) == (order == ASC))
  }

  /** What the comparison makes the merge choose among the records of a set. */
  ghost function Chosen<V>(cmp: Comparator<V>, order: nat, e: set<Item<V>>): (take: Order<Item<V>>)
    reads e`len, e`val
    ensures Judges(take, cmp, order, e)
  {
    var pairs := set x, y | x in e && y in e && (Compare(cmp, x, y) <= 0) == (order == ASC) :: (x, y);
    (x, y) => (x, y) in pairs
  }

  /** Puts a record at the end of the output list. */
  method Emit<V>(head: Item?<V>, tail: Item?<V>, bucket: Item<V>, ghost out: seq<Item<V>>) returns (head': Item<V>)
    requires Linked(out) && head == First(out) && tail == Last(out) && bucket !in out
    modifies (if tail == null then {} else {tail})`next
    ensures Linked(out + [bucket]) && head' == First(out + [bucket])
  {
    LastNotInFront(out);
    if tail != null {
      tail.next := bucket;
      head' := head;
    } else {
      head' := bucket;
    }
    LinkedSnoc(out, bucket);
  }

  /** The lists of a merge in progress: the output, what is left of the first run, and the rest of the list. */
  ghost predicate Weaving<V>(head: Item?<V>, tail: Item?<V>, out: seq<Item<V>>,
                             l0: Item?<V>, a: seq<Item<V>>, l1: Item?<V>, r: seq<Item<V>>)
    reads Front(out)`next, Front(a)`next, r`next
  {
    && Linked(out) && head == First(out) && tail == Last(out)
    && Linked(a) && (a != [] ==> l0 == a[0])
    && EntryChain(l1, r)
    && Apart(out, a) && Apart(out, r) && Apart(a, r)
  }

  lemma TailOutside<V>(out: seq<Item<V>>, a: seq<Item<V>>, r: seq<Item<V>>)
    requires Apart(out, a) && Apart(out, r)
    ensures out != [] ==> Last(out) !in Front(a) && Last(out) !in a && Last(out) !in r
  {
    if out != [] {
      assert out[|out| - 1] in out;
    }
  }

  /** Moving the first element of s behind out keeps out, s and t apart. */
  lemma MoveApart<V>(out: seq<Item<V>>, s: seq<Item<V>>, t: seq<Item<V>>)
    requires s != [] && s[0] !in s[1..] && Apart(out, s) && Apart(out, t) && (Apart(s, t) || Apart(t, s))
    ensures s[0] !in out && Apart(out + [s[0]], s[1..]) && Apart(out + [s[0]], t)
    ensures (Apart(s, t) ==> Apart(s[1..], t)) && (Apart(t, s) ==> Apart(t, s[1..]))
  {
    assert forall x :: x in s[1..] ==> x in s;
    assert s[0] in s;
  }

  /** Moves the first record of the first run to the output. */
  method TakeFirst<V>(head: Item?<V>, tail: Item?<V>, ghost out: seq<Item<V>>,
                      l0: Item<V>, ghost a: seq<Item<V>>, ghost l1: Item?<V>, ghost r: seq<Item<V>>)
    returns (head': Item<V>, l0': Item?<V>)
    requires Weaving(head, tail, out, l0, a, l1, r) && a != []
    modifies (if tail == null then {} else {tail})`next
    ensures Weaving(head', l0, out + [l0], l0', a[1..], l1, r)
  {
    TailOutside(out, a, r);
    MoveApart(out, a, r);
    head' := Emit(head, tail, l0, out);
    l0' := l0.next;
  }

  /** Moves the first record of the rest to the output. */
  method TakeSecond<V>(head: Item?<V>, tail: Item?<V>, ghost out: seq<Item<V>>,
                       ghost l0: Item?<V>, ghost a: seq<Item<V>>, l1: Item<V>, ghost r: seq<Item<V>>)
    returns (head': Item<V>, l1': Item?<V>)
    requires Weaving(head, tail, out, l0, a, l1, r)
    modifies (if tail == null then {} else {tail})`next
    ensures r != [] && Weaving(head', l1, out + [l1], l0, a, l1', r[1..])
  {
    TailOutside(out, a, r);
    MoveApart(out, r, a);
    head' := Emit(head, tail, l1, out);
    l1' := l1.next;
  }

  ghost function Elems<V>(s: seq<Item<V>>): set<Item<V>> {
    set e | e in s
  }

  /** A merge in progress over the records S, at the counts c0 and c1. */
  ghost predicate Underway<V>(head: Item?<V>, tail: Item?<V>, out: seq<Item<V>>, l0: Item?<V>, a: seq<Item<V>>, c0: int,
                              l1: Item?<V>, r: seq<Item<V>>, c1: int, S: set<Item<V>>)
    reads S`next
  {
    && c0 == |a| && 0 <= c1
    && Elems(out) <= S && Elems(a) <= S && Elems(r) <= S
    && Weaving(head, tail, out, l0, a, l1, r)
  }

  /** The pass will end as the list goal: what is out, the merge of a and b, and the pairs of runs of the rest. */
  ghost predicate Aiming<V>(take: Order<Item<V>>, out: seq<Item<V>>, a: seq<Item<V>>, b: seq<Item<V>>,
                            rest: seq<Item<V>>,
                            size: nat, goal: seq<Item<V>>)
  {
    size > 0 && out + (Merge(take, a, b) + Pass(take, rest, size)) == goal
  }

  lemma AimFirst<V>(take: Order<Item<V>>, out: seq<Item<V>>, a: seq<Item<V>>, b: seq<Item<V>>, rest: seq<Item<V>>,
                    size: nat, goal: seq<Item<V>>)
    requires Aiming(take, out, a, b, rest, size, goal) && a != [] && (b != [] ==> take(a[0], b[0]))
    ensures Aiming(take, out + [a[0]], a[1..], b, rest, size, goal)
  {
    assert Merge(take, a, b) == [a[0]] + Merge(take, a[1..], b);
  }

  lemma AimSecond<V>(take: Order<Item<V>>, out: seq<Item<V>>, a: seq<Item<V>>, b: seq<Item<V>>, rest: seq<Item<V>>,
                     size: nat, goal: seq<Item<V>>)
    requires Aiming(take, out, a, b, rest, size, goal) && b != [] && (a != [] ==> !take(a[0], b[0]))
    ensures Aiming(take, out + [b[0]], a, b[1..], rest, size, goal)
  {
    var m, m' := Merge(take, a, b), Merge(take, a, b[1..]);
    if a == [] {
      assert m == b && m' == b[1..];
    }
    assert m == [b[0]] + m';
  }

  method StepFirst<V>(head: Item?<V>, tail: Item?<V>, ghost out: seq<Item<V>>, l0: Item?<V>, ghost a: seq<Item<V>>,
                      ghost c0: nat, ghost l1: Item?<V>, ghost r: seq<Item<V>>, ghost c1: nat, ghost S: set<Item<V>>)
    returns (head': Item<V>, l0': Item?<V>, bucket: Item<V>)
    requires Underway(head, tail, out, l0, a, c0, l1, r, c1, S) && c0 > 0
    modifies S`next
    ensures bucket == a[0] && Underway(head', bucket, out + [bucket], l0', a[1..], c0 - 1, l1, r, c1, S)
  {
    assert l0 in a && (tail != null ==> tail in out);
    bucket := l0;
    head', l0' := TakeFirst(head, tail, out, l0, a, l1, r);
    ElemsNext(out, a, S);
  }

  method StepSecond<V>(head: Item?<V>, tail: Item?<V>, ghost out: seq<Item<V>>, ghost l0: Item?<V>,
                       ghost a: seq<Item<V>>,
                       ghost c0: nat, l1: Item?<V>, ghost r: seq<Item<V>>, ghost c1: nat, ghost S: set<Item<V>>)
    returns (head': Item<V>, l1': Item?<V>, bucket: Item<V>)
    requires Underway(head, tail, out, l0, a, c0, l1, r, c1, S) && c1 > 0 && l1 != null
    modifies S`next
    ensures r != [] && bucket == r[0] && Underway(head', bucket, out + [bucket], l0, a, c0, l1', r[1..], c1 - 1, S)
  {
    assert l1 in r && (tail != null ==> tail in out);
    bucket := l1;
    head', l1' := TakeSecond(head, tail, out, l0, a, l1, r);
    ElemsNext(out, r, S);
  }

  lemma ElemsNext<V>(out: seq<Item<V>>, s: seq<Item<V>>, S: set<Item<V>>)
    requires s != [] && Elems(out) <= S && Elems(s) <= S
    ensures Elems(out + [s[0]]) <= S && Elems(s[1..]) <= S
  {
    assert s[0] in s;
  }

  /** Which list the next record comes from: 0 for the first run, 1 for the second. */
  method Choose<V>(l0: Item?<V>, ghost a: seq<Item<V>>, c0: nat, l1: Item?<V>, ghost b: seq<Item<V>>, c1: nat,
                   cmp: Comparator<V>, order: nat, ghost take: Order<Item<V>>, ghost S: set<Item<V>>)
    returns (i: nat)
    requires (order == ASC || order == DESC) && Judges(take, cmp, order, S)
    requires c0 == |a| && (a != [] ==> l0 == a[0] && l0 in S) && (b != [] ==> l1 == b[0] && l1 in S)
    requires b != [] <==> l1 != null && c1 > 0
    requires a != [] || b != []
    ensures i == 0 ==> a != [] && (b != [] ==> take(a[0], b[0]))
    ensures i != 0 ==> b != [] && (a != [] ==> !take(a[0], b[0]))
  {
    i := 0;
    if l1 != null && c1 > 0 {
      if c0 > 0 {
        if Compare(cmp, l0, l1) <= 0 { i := 0 + order; } else { i := 1 - order; }
      } else {
        i := 1;
      }
    }
  }

  /** The second run ends where its count or the list does. */
  ghost predicate Counts<V>(b: seq<Item<V>>, rest: seq<Item<V>>, c1: int) {
    |b| <= c1 && (|b| < c1 ==> rest == [])
  }

  lemma Heads<V>(head: Item?<V>, tail: Item?<V>, out: seq<Item<V>>, l0: Item?<V>, a: seq<Item<V>>, c0: int,
                 l1: Item?<V>, b: seq<Item<V>>, rest: seq<Item<V>>, c1: int, S: set<Item<V>>)
    requires Underway(head, tail, out, l0, a, c0, l1, b + rest, c1, S) && Counts(b, rest, c1)
    ensures c0 == |a| && (a != [] ==> l0 == a[0] && l0 in S) && (b != [] ==> l1 == b[0] && l1 in S)
    ensures b != [] <==> l1 != null && c1 > 0
    ensures b != [] ==> (b + rest)[0] == b[0] && (b + rest)[1..] == b[1..] + rest
    ensures b == [] ==> b + rest == rest
  {
    if b != [] { assert (b + rest)[0] in b + rest; }
    if a != [] { assert a[0] in a; }
  }

  /** Merges the first run with the second one; both come out of the list at the end of the output. */
  method Weave<V>(head0: Item?<V>, tail0: Item?<V>, ghost out0: seq<Item<V>>,
                  first: Item<V>, c: nat, ghost a0: seq<Item<V>>, second: Item?<V>, ghost b0: seq<Item<V>>,
                  ghost rest: seq<Item<V>>, size: nat, cmp: Comparator<V>, order: nat,
                  ghost take: Order<Item<V>>, ghost S: set<Item<V>>, ghost goal: seq<Item<V>>)
    returns (head: Item?<V>, tail: Item?<V>, l1: Item?<V>, ghost out: seq<Item<V>>)
    requires (order == ASC || order == DESC) && Judges(take, cmp, order, S)
    requires Underway(head0, tail0, out0, first, a0, c, second, b0 + rest, size, S) && Counts(b0, rest, size)
    requires Aiming(take, out0, a0, b0, rest, size, goal)
    modifies S`next
    ensures Underway(head, tail, out, null, [], 0, l1, rest, 0, S)
    ensures Aiming(take, out, [], [], rest, size, goal)
  {
    var l0: Item?<V> := first;
    head, tail, l1 := head0, tail0, second;
    var c0: nat, c1: nat := c, size;
    ghost var a, b := a0, b0;
    out := out0;
    while c0 > 0 || (l1 != null && c1 > 0)
      invariant Underway(head, tail, out, l0, a, c0, l1, b + rest, c1, S) && Counts(b, rest, c1)
      invariant Aiming(take, out, a, b, rest, size, goal)
      decreases c0 + c1
    {
      Heads(head, tail, out, l0, a, c0, l1, b, rest, c1, S);
      var i := Choose(l0, a, c0, l1, b, c1, cmp, order, take, S);
      var bucket;
      if i == 0 {
        AimFirst(take, out, a, b, rest, size, goal);
        head, l0, bucket := StepFirst(head, tail, out, l0, a, c0, l1, b + rest, c1, S);
        a, c0 := a[1..], c0 - 1;
      } else {
        AimSecond(take, out, a, b, rest, size, goal);
        head, l1, bucket := StepSecond(head, tail, out, l0, a, c0, l1, b + rest, c1, S);
        b, c1 := b[1..], c1 - 1;
      }
      tail, out := bucket, out + [bucket];
    }
    Heads(head, tail, out, l0, a, c0, l1, b, rest, c1, S);
  }

  /** Finds the end of the run of up to size records that starts at l0. */
  method Split<V>(l0: Item<V>, ghost r: seq<Item<V>>, size: nat) returns (c0: nat, l1: Item?<V>)
    requires size > 0 && EntryChain(l0, r)
    ensures c0 == Min(size, |r|) && Linked(r[..c0]) && Apart(r[..c0], r[c0..]) && EntryChain(l1, r[c0..])
  {
    c0, l1 := 0, l0;
    while c0 < size
      invariant c0 <= size && c0 < |r| && EntryChain(l1, r[c0..])
    {
      assert r[c0..][1..] == r[c0 + 1..];
      l1 := l1.next;
      if l1 == null {
        c0 := c0 + 1;
        break;
      }
      c0 := c0 + 1;
    }
    ghost var mid := ChainSplit(l0, r, c0);
  }

  lemma StartPair<V>(head: Item?<V>, tail: Item?<V>, out: seq<Item<V>>, l0: Item<V>, r: seq<Item<V>>, c0: nat,
                     l1: Item?<V>,
                     size: nat, S: set<Item<V>>, b: seq<Item<V>>, rest: seq<Item<V>>)
    requires size > 0 && Underway(head, tail, out, null, [], 0, l0, r, 0, S)
    requires c0 == Min(size, |r|) && Linked(r[..c0]) && Apart(r[..c0], r[c0..]) && EntryChain(l1, r[c0..])
    requires b == r[c0..Min(2 * size, |r|)] && rest == r[Min(2 * size, |r|)..]
    ensures Underway(head, tail, out, l0, r[..c0], c0, l1, b + rest, size, S) && Counts(b, rest, size)
  {
    assert b + rest == r[c0..];
    assert forall x :: x in r[..c0] || x in r[c0..] ==> x in r;
  }

  lemma AimPair<V>(take: Order<Item<V>>, out: seq<Item<V>>, r: seq<Item<V>>, size: nat, goal: seq<Item<V>>)
    requires r != [] && Aiming(take, out, [], [], r, size, goal)
    ensures var m, n := Min(size, |r|), Min(2 * size, |r|);
      Aiming(take, out, r[..m], r[m..n], r[n..], size, goal)
  {
  }

  /** One pair of runs of a pass, and the split that starts it. */
  method MergePair<V>(head0: Item?<V>, tail0: Item?<V>, ghost out0: seq<Item<V>>, l0: Item<V>, ghost r0: seq<Item<V>>,
                      size: nat, cmp: Comparator<V>, order: nat, ghost take: Order<Item<V>>, ghost S: set<Item<V>>,
                      ghost goal: seq<Item<V>>)
    returns (head: Item?<V>, tail: Item?<V>, l1: Item?<V>, ghost out: seq<Item<V>>)
    requires (order == ASC || order == DESC) && Judges(take, cmp, order, S)
    requires Underway(head0, tail0, out0, null, [], 0, l0, r0, 0, S)
    requires Aiming(take, out0, [], [], r0, size, goal)
    modifies S`next
    ensures r0 != [] && Underway(head, tail, out, null, [], 0, l1, r0[Min(2 * size, |r0|)..], 0, S)
    ensures Aiming(take, out, [], [], r0[Min(2 * size, |r0|)..], size, goal)
  {
    var c0;
    c0, l1 := Split(l0, r0, size);
    ghost var n := Min(2 * size, |r0|);
    StartPair(head0, tail0, out0, l0, r0, c0, l1, size, S, r0[c0..n], r0[n..]);
    AimPair(take, out0, r0, size, goal);
    head, tail, l1, out :=
      Weave(head0, tail0, out0, l0, c0, r0[..c0], l1, r0[c0..n], r0[n..], size, cmp, order, take, S, goal);
  }

  /** One pass over the list; the number of pairs merged tells whether it left more than one run. */
  method MergePass<V>(index: Item?<V>, ghost e: seq<Item<V>>, size: nat, cmp: Comparator<V>, order: nat,
                      ghost take: Order<Item<V>>, ghost S: set<Item<V>>)
    returns (head: Item?<V>, merge: nat, ghost out: seq<Item<V>>)
    requires size > 0 && (order == ASC || order == DESC) && Judges(take, cmp, order, S)
    requires EntryChain(index, e) && Elems(e) <= S
    modifies S`next
    ensures out == Pass(take, e, size) && EntryChain(head, out) && Elems(out) <= S
    ensures merge > 1 <==> |e| > 2 * size
  {
    var l0 := index;
    var tail: Item?<V> := null;
    head, merge, out := null, 0, [];
    ghost var r := e;
    ghost var goal := Pass(take, e, size);
    while l0 != null
      invariant Underway(head, tail, out, null, [], 0, l0, r, 0, S) && Aiming(take, out, [], [], r, size, goal)
      invariant merge == 0 ==> r == e
      invariant merge == 1 ==> r == e[Min(2 * size, |e|)..]
      invariant merge > 1 ==> |e| > 2 * size
      decreases |r|
    {
      head, tail, l0, out := MergePair(head, tail, out, l0, r, size, cmp, order, take, S, goal);
      r := r[Min(2 * size, |r|)..];
      merge := merge + 1;
    }
    if tail != null {
      LastNotInFront(out);
      assert tail in out;
      tail.next := null;
      LinkedCloses(out);
    }
  }

  /** `size <<= 1` on 32 bits. */
  function Doubled(size: nat): (d: nat)
    ensures size < 0x8000_0000 ==> d == 2 * size
  {
    size * 2 % TWO32
  }

  /** `cache_sort` on the list: passes with doubling run size. */
  method SortList<V>(index: Item?<V>, ghost e: seq<Item<V>>, cmp: Comparator<V>, order: nat, ghost take: Order<Item<V>>)
    returns (head: Item?<V>, ghost out: seq<Item<V>>)
    requires (order == ASC || order == DESC) && Judges(take, cmp, order, Elems(e))
    requires EntryChain(index, e) && |e| < 0x8000_0000
    modifies Elems(e)`next
    ensures out == Sort(take, e, 1) && EntryChain(head, out)
  {
    var size, merge := 1, 2;
    head, out := index, e;
    ghost var S := Elems(e);
    while merge > 1
      invariant size > 0 && |out| == |e| && EntryChain(head, out) && Elems(out) <= S
      invariant merge > 1 ==> size == 1 || size < |e|
      invariant if merge > 1 then Sort(take, out, size) == Sort(take, e, 1) else out == Sort(take, e, 1)
      decreases if merge > 1 then |e| - size + 2 else 0
    {
      head, merge, out := MergePass(head, out, size, cmp, order, take, S);
      size := Doubled(size);
    }
  }

  /** For a comparator that is a total preorder on the records: what a finished sort has established. */
  lemma SortMeaning<V>(take: Order<Item<V>>, le: Order<Item<V>>, cmp: Comparator<V>, order: nat, e: seq<Item<V>>)
    requires Judges(take, cmp, order, Elems(e)) && Judges(le, cmp, ASC, Elems(e))
    requires TotalPreorder(le, e) && Distinct(e)
    ensures Same(Sort(take, e, 1), e)
    ensures order == ASC ==> Sorted(Ascending(le, e), Sort(take, e, 1))
    ensures order != ASC ==> Sorted(Descending(le, e), Sort(take, e, 1))
    ensures order != ASC ==> Sort(take, e, 1) == Reverse(Sort(le, e, 1))
  {
    SortPermutes(take, e, 1);
    SortIsStable(take, le, e);
    if order != ASC {
      DescendingIsReverse(le, take, le, e);
    }
  }

  /** The records compare as a total preorder. */
  ghost predicate Preordered<V>(cmp: Comparator<V>, e: seq<Item<V>>)
    reads e`len, e`val
  {
    && (forall x, y :: x in e && y in e ==> Compare(cmp, x, y) <= 0 || Compare(cmp, y, x) <= 0)
    && (forall x, y, z :: x in e && y in e && z in e && Compare(cmp, x, y) <= 0 && Compare(cmp, y, z) <= 0 ==>
          Compare(cmp, x, z) <= 0)
  }

  lemma ChosenAscends<V>(cmp: Comparator<V>, e: seq<Item<V>>)
    requires Preordered(cmp, e)
    ensures TotalPreorder(Chosen(cmp, ASC, Elems(e)), e)
    ensures forall x, y :: x in e && y in e ==> (Chosen(cmp, ASC, Elems(e))(x, y) <==> Compare(cmp, x, y) <= 0)
  {
    hide Chosen, Compare;
    var le := Chosen(cmp, ASC, Elems(e));
    forall x, y | x in e && y in e ensures le(x, y) <==> Compare(cmp, x, y) <= 0 {
      assert x in Elems(e) && y in Elems(e);
    }
  }

  lemma SortedByCompare<V>(cmp: Comparator<V>, order: nat, e: seq<Item<V>>)
    requires Distinct(e) && (order == ASC || order == DESC) && Preordered(cmp, e)
    ensures var s := Sort(Chosen(cmp, order, Elems(e)), e, 1);
      && multiset(s) == multiset(e)
      && forall i, j :: 0 <= i < j < |s| ==>
           if order == ASC then Compare(cmp, s[i], s[j]) <= 0 else Compare(cmp, s[j], s[i]) <= 0
  {
    hide Chosen, Sort, Compare, Preordered, TotalPreorder;
    var le, take := Chosen(cmp, ASC, Elems(e)), Chosen(cmp, order, Elems(e));
    ChosenAscends(cmp, e);
    SortMeaning(take, le, cmp, order, e);
    var s := Sort(take, e, 1);
    SameElems(s, e);
    forall i, j | 0 <= i < j < |s|
      ensures if order == ASC then Compare(cmp, s[i], s[j]) <= 0 else Compare(cmp, s[j], s[i]) <= 0
    {
      assert s[i] in Elems(s) && s[j] in Elems(s);
    }
  }

  /**
   * What `cache_sort` leaves, in terms of the callback alone: a permutation in which no record is greater than a later
   * one, or with the other order none is less.
   */
  lemma SortedByCallback<V>(cmp: Comparator<V>, order: nat, e: seq<Item<V>>)
    requires Distinct(e) && (order == 0 || order == 1) && Preordered(cmp, e)
    ensures var s := Sort(Chosen(cmp, order, Elems(e)), e, 1);
      && multiset(s) == multiset(e)
      && (order == 0 ==> forall i, j :: 0 <= i < j < |s| ==>
            cmp(s[i].str, s[j].str, Min(s[i].len, s[j].len), s[i].val, s[j].val) <= 0)
      && (order == 1 ==> forall i, j :: 0 <= i < j < |s| ==>
            cmp(s[j].str, s[i].str, Min(s[j].len, s[i].len), s[j].val, s[i].val) <= 0)
  {
    hide Chosen, Sort, Preordered;
    SortedByCompare(cmp, order, e);
  }

  lemma {:induction false} ChainDistinct<V>(head: Item?<V>, e: seq<Item<V>>)
    requires EntryChain(head, e)
    ensures Distinct(e)
  {
    if e != [] { ChainDistinct(e[0].next, e[1..]); }
  }

  lemma SameElems<V>(a: seq<Item<V>>, b: seq<Item<V>>)
    requires Same(a, b)
    ensures Elems(a) == Elems(b)
  {
    forall x | x in a ensures x in b { assert x in multiset(b); }
    forall x | x in b ensures x in a { assert x in multiset(a); }
  }

  lemma SortElems<V>(take: Order<Item<V>>, e: seq<Item<V>>)
    ensures Elems(Sort(take, e, 1)) == Elems(e)
  {
    SortPermutes(take, e, 1);
    SameElems(Sort(take, e, 1), e);
  }
}
