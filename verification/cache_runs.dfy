/** Whole runs of a cache against whole runs of a finite map. */
module CacheRuns {
  import opened Bits
  import opened Cuckoo
  import opened Cache
  import opened Options

  datatype Op<!V> =
    | PushOp(k: Key, v: V)
    | AddOp(k: Key, v: V)
    | PopOp(k: Key)
    | FindOp(k: Key)
    | ForeachOp(f: (Key, V) -> int)

  /** What the operations mean for a finite map: the map afterwards and the value returned. */
  datatype Outcome<V> = Outcome(m: map<Key, V>, r: Option<V>)

  function Get<V>(m: map<Key, V>, k: Key): Option<V> {
    if k in m then Some(m[k]) else None
  }

  function Step<V>(m: map<Key, V>, op: Op<V>): Outcome<V> {
    match op
    case PushOp(k, v) =>
      if Cut(k) == [] then Outcome(m, Some(v)) else Outcome(m[Cut(k) := v], Get(m, Cut(k)))
    case AddOp(k, v) =>
      if Cut(k) == [] || Cut(k) in m then Outcome(m, Some(v)) else Outcome(m[Cut(k) := v], None)
    case PopOp(k) => Outcome(m - {k}, Get(m, k))
    case FindOp(k) => Outcome(m, Get(m, k))
    case ForeachOp(f) => Outcome(map k | k in m && f(k, m[k]) != -1 :: m[k], None)
  }

  /**
   * The answer of a map to an operation. A key whose stored length is empty changes nothing; what a push of it returns
   * is nothing or the value that some dead record had, what an add returns is nothing or the value itself.
   */
  ghost predicate Fits<V>(m: map<Key, V>, op: Op<V>, r: Option<V>) {
    if op.PushOp? && Unshown(op.k) then true
    else if op.AddOp? && Unshown(op.k) then r == None || r == Some(op.v)
    else r == Step(m, op).r
  }

  /** rs are the answers of a map m to the first operations, and the map they leave is last. */
  ghost predicate Answers<V>(m: map<Key, V>, ops: seq<Op<V>>, rs: seq<Option<V>>, last: map<Key, V>)
    decreases |rs|
  {
    if rs == [] then last == m
    else ops != [] && Fits(m, ops[0], rs[0]) && Answers(Step(m, ops[0]).m, ops[1..], rs[1..], last)
  }

  lemma AnswersCons<V>(m: map<Key, V>, ops: seq<Op<V>>, r: Option<V>, m': map<Key, V>, rs: seq<Option<V>>,
                       last: map<Key, V>)
    requires ops != [] && m' == Step(m, ops[0]).m && Fits(m, ops[0], r) && Answers(m', ops[1..], rs, last)
    ensures Answers(m, ops, [r] + rs, last)
  {
    assert ([r] + rs)[1..] == rs;
  }

  /** The keys of a cache, none of which has more than 65535 bytes. */
  ghost predicate ShortKeys<V>(m: map<Key, V>) {
    forall k :: k in m ==> 0 < |k| < 0x1_0000
  }

  lemma StepKeepsShort<V>(m: map<Key, V>, op: Op<V>)
    requires ShortKeys(m)
    ensures ShortKeys(Step(m, op).m)
  {
  }

  /** What was pushed under a key is found under it exactly if the key has less than 65536 bytes. */
  lemma FoundAfterPush<V>(m: map<Key, V>, k: Key, v: V)
    requires ShortKeys(m) && k != []
    ensures var m' := Step(m, PushOp(k, v)).m;
      (Step(m', FindOp(k)).r == Some(v) <==> |k| < 0x1_0000) && (|k| >= 0x1_0000 ==> Step(m', FindOp(k)).r == None)
  {
    StepKeepsShort(m, PushOp(k, v));
    if |k| < 0x1_0000 { assert Cut(k) == k; }
  }

  /**
   * A key whose length is a positive multiple of 65536 is pushed as a record of length 0: no search takes that record
   * for its own, and a search for that key takes no record of the cache for its own.
   */
  lemma NothingFoundAfterPush<V>(it: Item<V>, other: Item<V>, k: Key, key: Key)
    requires Unshown(k) && it.len == |Cut(k)| && it.len <= |it.str|
    requires other.len <= |other.str| && other.len < 0x1_0000 && key != []
    ensures it.len == 0 && !SameKey(it, key) && !SameKey(other, k)
  {
    assert |other.str[..other.len]| == other.len;
  }

  lemma StoreFits<V>(m: map<Key, V>, k: Key, v: V, replace: int, m': map<Key, V>, r: Option<V>)
    requires replace == 1 || replace == -1
    requires k == [] ==> r == Some(v) && m' == m
    requires var c := Cut(k); c != [] && c !in m ==> r == None && m' == m[c := v]
    requires var c := Cut(k); c in m && replace == -1 ==> r == Some(v) && m' == m
    requires var c := Cut(k); c in m && replace != -1 ==> r == Some(m[c]) && m' == m[c := v]
    requires Unshown(k) ==> m' == m && (r != None && replace == -1 ==> r == Some(v))
    requires [] !in m
    ensures var op := if replace == 1 then PushOp(k, v) else AddOp(k, v); m' == Step(m, op).m && Fits(m, op, r)
  {
  }

  lemma PopFits<V>(m: map<Key, V>, k: Key, m': map<Key, V>, r: Option<V>)
    requires r == (if k in m then Some(m[k]) else None) && k !in m'
    requires forall x :: x != k ==> (x in m' <==> x in m)
    requires forall x :: x in m' ==> x in m && m'[x] == m[x]
    ensures m' == Step(m, PopOp(k)).m && Fits(m, PopOp(k), r)
  {
    assert m' == m - {k};
  }

  lemma FindFits<V>(m: map<Key, V>, k: Key, r: Option<V>)
    requires r == if k in m then Some(m[k]) else None
    ensures m == Step(m, FindOp(k)).m && Fits(m, FindOp(k), r)
  {
  }

  lemma ForeachFits<V>(m: map<Key, V>, f: (Key, V) -> int, m': map<Key, V>)
    requires forall k :: k in m' <==> k in m && f(k, m[k]) != -1
    requires forall k :: k in m' ==> k in m && m'[k] == m[k]
    ensures m' == Step(m, ForeachOp(f)).m && Fits(m, ForeachOp(f), None)
  {
  }

  lemma NoEmptyIn<V>(c: Cache<V>)
    requires c.Valid()
    ensures [] !in c.Contents()
  {
    c.NoEmptyKey(c.Records());
  }

  method Put<V>(c: Cache<V>, k: Key, v: V, replace: int) returns (r: Option<V>)
    requires c.Valid() && c.Small() && (replace == 1 || replace == -1)
    modifies c, c.bucket, c.Records()
    ensures c.Valid()
    ensures c.bucket == old(c.bucket) || fresh(c.bucket)
    ensures forall e :: e in c.Records() ==> e in old(c.Records()) || fresh(e)
    ensures var op := if replace == 1 then PushOp(k, v) else AddOp(k, v);
      c.Contents() == Step(old(c.Contents()), op).m && Fits(old(c.Contents()), op, r)
  {
    hide Cache.Contents, Cache.Valid, Step, Fits;
    ghost var m := c.Contents();
    NoEmptyIn(c);
    r := c.Add(k, v, replace);
    StoreFits(m, k, v, replace, c.Contents(), r);
  }

  method Execute<V>(c: Cache<V>, op: Op<V>) returns (r: Option<V>)
    requires c.Valid() && c.Small()
    modifies c, c.bucket, c.Records()
    ensures c.Valid()
    ensures c.bucket == old(c.bucket) || fresh(c.bucket)
    ensures forall e :: e in c.Records() ==> e in old(c.Records()) || fresh(e)
    ensures c.Contents() == Step(old(c.Contents()), op).m && Fits(old(c.Contents()), op, r)
  {
    hide Cache.Contents, Cache.Valid, Step, Fits, Cut;
    ghost var m := c.Contents();
    NoEmptyIn(c);
    match op
    case PushOp(k, v) => r := Put(c, k, v, 1);
    case AddOp(k, v) => r := Put(c, k, v, -1);
    case PopOp(k) =>
      r := c.Pop(k);
      PopFits(m, k, c.Contents(), r);
    case FindOp(k) =>
      r := c.Find(k, None);
      FindFits(m, k, r);
    case ForeachOp(f) =>
      c.Foreach(f);
      r := None;
      ForeachFits(m, f, c.Contents());
  }

  /** Any sequence of operations answers as on a map, as long as the table has not outgrown its sizes. */
  method Run<V>(c: Cache<V>, ops: seq<Op<V>>) returns (rs: seq<Option<V>>)
    requires c.Valid()
    modifies c, c.bucket, c.Records()
    ensures c.Valid() && Answers(old(c.Contents()), ops, rs, c.Contents())
    ensures |rs| <= |ops| && (|rs| < |ops| ==> !c.Small())
    decreases |ops|
  {
    if ops == [] || !c.Small() {
      return [];
    }
    var r := Execute(c, ops[0]);
    ghost var m := c.Contents();
    rs := Run(c, ops[1..]);
    AnswersCons(old(c.Contents()), ops, r, m, rs, c.Contents());
    rs := [r] + rs;
  }

  // What a whole run answers for one key.

  /** The operation stores something under the key. */
  predicate Stores<V>(op: Op<V>, k: Key) {
    (op.PushOp? || op.AddOp?) && op.k[..|op.k| % 0x1_0000] == k
  }

  lemma {:induction false} AbsenceStays<V>(m: map<Key, V>, k: Key, ops: seq<Op<V>>, rs: seq<Option<V>>,
                                           last: map<Key, V>)
    requires Answers(m, ops, rs, last) && k !in m
    requires forall i :: 0 <= i < |ops| ==> !Stores(ops[i], k)
    ensures k !in last && |rs| <= |ops|
    ensures forall i :: 0 <= i < |rs| && (ops[i].FindOp? || ops[i].PopOp?) && ops[i].k == k ==> rs[i] == None
    decreases |rs|
  {
    if rs != [] {
      assert !Stores(ops[0], k);
      AbsenceStays(Step(m, ops[0]).m, k, ops[1..], rs[1..], last);
      forall i | 0 <= i < |rs| && (ops[i].FindOp? || ops[i].PopOp?) && ops[i].k == k ensures rs[i] == None {
        if i > 0 { assert ops[i] == ops[1..][i - 1] && rs[i] == rs[1..][i - 1]; }
      }
    }
  }

  /** The operation leaves the value of the key alone. */
  predicate Spares<V>(op: Op<V>, k: Key, v: V) {
    match op
    case PushOp(x, _) => x[..|x| % 0x1_0000] != k
    case AddOp(_, _) => true
    case PopOp(x) => x != k
    case FindOp(_) => true
    case ForeachOp(f) => f(k, v) != -1
  }

  lemma {:induction false} ValueStays<V>(m: map<Key, V>, k: Key, v: V, ops: seq<Op<V>>, rs: seq<Option<V>>,
                                         last: map<Key, V>)
    requires Answers(m, ops, rs, last) && k in m && m[k] == v
    requires forall i :: 0 <= i < |ops| ==> Spares(ops[i], k, v)
    ensures k in last && last[k] == v && |rs| <= |ops|
    ensures forall i :: 0 <= i < |rs| && ops[i].FindOp? && ops[i].k == k ==> rs[i] == Some(v)
    decreases |rs|
  {
    if rs != [] {
      assert Spares(ops[0], k, v);
      ValueStays(Step(m, ops[0]).m, k, v, ops[1..], rs[1..], last);
      forall i | 0 <= i < |rs| && ops[i].FindOp? && ops[i].k == k ensures rs[i] == Some(v) {
        if i > 0 { assert ops[i] == ops[1..][i - 1] && rs[i] == rs[1..][i - 1]; }
      }
    }
  }

  lemma AnswersFirst<V>(m: map<Key, V>, op: Op<V>, ops: seq<Op<V>>, rs: seq<Option<V>>, last: map<Key, V>)
    requires Answers(m, [op] + ops, rs, last) && rs != []
    ensures Fits(m, op, rs[0]) && Answers(Step(m, op).m, ops, rs[1..], last)
  {
    assert ([op] + ops)[1..] == ops;
  }

  /** A key that was popped is not found, and not popped, until something is stored under it again. */
  lemma {:induction false} PoppedStaysAway<V>(m: map<Key, V>, k: Key, ops: seq<Op<V>>, rs: seq<Option<V>>,
                                              last: map<Key, V>)
    requires Answers(m, [PopOp(k)] + ops, rs, last) && rs != []
    requires forall i :: 0 <= i < |ops| ==> !Stores(ops[i], k)
    ensures rs[0] == (if k in m then Some(m[k]) else None) && k !in last && |rs| <= |ops| + 1
    ensures forall i :: 0 <= i < |rs| - 1 && (ops[i].FindOp? || ops[i].PopOp?) && ops[i].k == k ==> rs[i + 1] == None
  {
    AnswersFirst(m, PopOp(k), ops, rs, last);
    AbsenceStays(Step(m, PopOp(k)).m, k, ops, rs[1..], last);
    assert forall i :: 0 <= i < |rs| - 1 ==> rs[i + 1] == rs[1..][i];
  }

  /** What was pushed is found until it is pushed over, popped or given up by a callback; the old value is returned. */
  lemma {:induction false} PushedStays<V>(m: map<Key, V>, k: Key, v: V, ops: seq<Op<V>>, rs: seq<Option<V>>,
                                          last: map<Key, V>)
    requires Answers(m, [PushOp(k, v)] + ops, rs, last) && rs != [] && 0 < |k| < 0x1_0000
    requires forall i :: 0 <= i < |ops| ==> Spares(ops[i], k, v)
    ensures rs[0] == (if k in m then Some(m[k]) else None) && k in last && last[k] == v && |rs| <= |ops| + 1
    ensures forall i :: 0 <= i < |rs| - 1 && ops[i].FindOp? && ops[i].k == k ==> rs[i + 1] == Some(v)
  {
    AnswersFirst(m, PushOp(k, v), ops, rs, last);
    assert Cut(k) == k;
    ValueStays(Step(m, PushOp(k, v)).m, k, v, ops, rs[1..], last);
    assert forall i :: 0 <= i < |rs| - 1 ==> rs[i + 1] == rs[1..][i];
  }

  /** So is what was added, or what was there when it was; only then the value comes back. */
  lemma {:induction false} AddedStays<V>(m: map<Key, V>, k: Key, v: V, ops: seq<Op<V>>, rs: seq<Option<V>>,
                                         last: map<Key, V>)
    requires Answers(m, [AddOp(k, v)] + ops, rs, last) && rs != [] && 0 < |k| < 0x1_0000
    requires forall i :: 0 <= i < |ops| ==> Spares(ops[i], k, if k in m then m[k] else v)
    ensures rs[0] == (if k in m then Some(v) else None) && |rs| <= |ops| + 1
    ensures k in last && last[k] == if k in m then m[k] else v
    ensures forall i :: 0 <= i < |rs| - 1 && ops[i].FindOp? && ops[i].k == k ==>
              rs[i + 1] == Some(if k in m then m[k] else v)
  {
    AnswersFirst(m, AddOp(k, v), ops, rs, last);
    assert Cut(k) == k;
    ValueStays(Step(m, AddOp(k, v)).m, k, if k in m then m[k] else v, ops, rs[1..], last);
    assert forall i :: 0 <= i < |rs| - 1 ==> rs[i + 1] == rs[1..][i];
  }

  /** What a callback gives up is not found until something is stored under the key again. */
  lemma {:induction false} GivenUpStaysAway<V>(m: map<Key, V>, k: Key, f: (Key, V) -> int, ops: seq<Op<V>>,
                                               rs: seq<Option<V>>, last: map<Key, V>)
    requires Answers(m, [ForeachOp(f)] + ops, rs, last) && rs != [] && (k in m ==> f(k, m[k]) == -1)
    requires forall i :: 0 <= i < |ops| ==> !Stores(ops[i], k)
    ensures k !in last && |rs| <= |ops| + 1
    ensures forall i :: 0 <= i < |rs| - 1 && (ops[i].FindOp? || ops[i].PopOp?) && ops[i].k == k ==> rs[i + 1] == None
  {
    AnswersFirst(m, ForeachOp(f), ops, rs, last);
    AbsenceStays(Step(m, ForeachOp(f)).m, k, ops, rs[1..], last);
    assert forall i :: 0 <= i < |rs| - 1 ==> rs[i + 1] == rs[1..][i];
  }
}
