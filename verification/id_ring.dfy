/** The ring of socket ids: zero marks a free slot, the head index wraps lazily, the tail index at once. */
module IdRing {

  /** The ring as seen from its head. */
  function View(slots: seq<nat>, head: nat): (v: seq<nat>)
    requires head <= |slots|
    ensures |v| == |slots|
  {
    slots[head..] + slots[..head]
  }

  /** The index k slots behind another one. */
  function Behind(max: nat, head: nat, k: nat): nat {
    if head + k < max then head + k else head + k - max
  }

  ghost predicate Zeros(v: seq<nat>, from: nat) {
    forall i :: from <= i < |v| ==> v[i] == 0
  }

  /** The ids in the ring, first in first: at the head, followed by free slots, of which there is at least one. */
  ghost predicate Carries(slots: seq<nat>, head: nat, q: seq<nat>) {
    && head <= |slots| && |q| < |slots|
    && 0 !in q && View(slots, head)[..|q|] == q && Zeros(View(slots, head), |q|)
  }

  /** The tail index, when it has been wrapped. */
  ghost predicate TailAt(max: nat, head: nat, tail: nat, q: seq<nat>) {
    tail < max && tail == Behind(max, if head == max then 0 else head, |q|)
  }

  lemma ViewAt(slots: seq<nat>, head: nat, k: nat)
    requires head < |slots| && k < |slots|
    ensures Behind(|slots|, head, k) < |slots| && View(slots, head)[k] == slots[Behind(|slots|, head, k)]
  {
  }

  lemma ViewSet(slots: seq<nat>, head: nat, k: nat, x: nat)
    requires head < |slots| && k < |slots|
    ensures Behind(|slots|, head, k) < |slots|
    ensures View(slots[Behind(|slots|, head, k) := x], head) == View(slots, head)[k := x]
  {
  }

  lemma LazyWrap(slots: seq<nat>, q: seq<nat>)
    requires Carries(slots, |slots|, q)
    ensures Carries(slots, 0, q)
  {
    assert View(slots, |slots|) == View(slots, 0);
  }

  /** Writing an id at the tail. */
  lemma Put(slots: seq<nat>, head: nat, tail: nat, q: seq<nat>, id: nat)
    requires Carries(slots, head, q) && TailAt(|slots|, head, tail, q) && id != 0 && |q| + 1 < |slots|
    ensures Carries(slots[tail := id], head, q + [id])
  {
    var h := if head == |slots| then 0 else head;
    if head == |slots| { LazyWrap(slots, q); }
    ViewSet(slots, h, |q|, id);
    var v := View(slots[tail := id], h);
    assert v == View(slots, h)[|q| := id];
    assert v[..|q| + 1] == q + [id];
    assert View(slots[tail := id], head) == v;
  }

  /** The zero written behind the tail changes nothing: the slot is free. */
  lemma Terminator(slots: seq<nat>, head: nat, tail: nat, q: seq<nat>)
    requires Carries(slots, head, q) && TailAt(|slots|, head, tail, q)
    ensures slots[tail] == 0 && slots[tail := 0] == slots
  {
    var h := if head == |slots| then 0 else head;
    if head == |slots| { LazyWrap(slots, q); }
    ViewAt(slots, h, |q|);
  }

  /** The tail index behind a new id: one further, wrapped at the end. */
  lemma NextTail(max: nat, head: nat, tail: nat, q: seq<nat>, id: nat)
    requires head <= max && TailAt(max, head, tail, q) && |q| + 1 < max
    ensures TailAt(max, head, if tail + 1 == max then 0 else tail + 1, q + [id])
  {
  }

  /** What the head shows: the first id, or zero when there is none. */
  lemma AtHead(slots: seq<nat>, head: nat, q: seq<nat>)
    requires Carries(slots, head, q) && head < |slots|
    ensures slots[head] == if q == [] then 0 else q[0]
  {
    ViewAt(slots, head, 0);
    assert q != [] ==> View(slots, head)[..|q|][0] == q[0];
  }

  /** Taking the id at the head. */
  lemma Take(slots: seq<nat>, head: nat, q: seq<nat>)
    requires Carries(slots, head, q) && head < |slots| && q != []
    ensures Carries(slots[head := 0], head + 1, q[1..])
  {
    var v, w := View(slots, head), View(slots[head := 0], head + 1);
    assert w == v[1..] + [0];
    assert w[..|q| - 1] == v[..|q|][1..];
  }

  lemma TakeTail(max: nat, head: nat, tail: nat, q: seq<nat>)
    requires head < max && TailAt(max, head, tail, q) && q != [] && |q| < max
    ensures TailAt(max, head + 1, tail, q[1..])
  {
  }

  class Ring {
    const slots: array<nat>
    var head: nat
    var tail: nat

    /** The ids that wait in the ring. */
    ghost var q: seq<nat>

    ghost predicate Valid()
      reads this, slots
    {
      Carries(slots[..], head, q) && TailAt(slots.Length, head, tail, q)
    }

    /** The slot at which a get looks. */
    function Shown(): nat
      reads this
    {
      if head == slots.Length then 0 else head
    }

    /** `socket_queue_alloc`, with the number of slots as a parameter. */
    constructor (max: nat)
      requires max > 0
      ensures Valid() && q == [] && slots.Length == max && fresh(slots)
    {
      slots := new nat[max](_ => 0);
      head, tail, q := 0, 0, [];
    }

    /**
     * `socket_queue_add`. With room for the id and for the zero behind it, the id waits behind the others; without, the
     * zero falls on the oldest id, and the next get finds the ring empty.
     */
    method Add(id: nat) returns (r: int)
      requires Valid()
      modifies this, slots
      ensures id == 0 ==> r == -1 && q == old(q) && Valid()
      ensures id != 0 && old(|q|) + 1 < slots.Length ==> r == 0 && q == old(q) + [id] && Valid()
      ensures id != 0 && old(|q|) + 1 == slots.Length ==> r == 0 && Shown() < slots.Length && slots[Shown()] == 0
    {
      if id == 0 { return -1; }
      if |q| + 1 < slots.Length {
        Put(slots[..], head, tail, q, id);
        NextTail(slots.Length, head, tail, q, id);
      }
      slots[tail] := id;
      tail := tail + 1;
      if tail == slots.Length { tail := 0; }
      if |q| + 1 < slots.Length {
        q := q + [id];
        Terminator(slots[..], head, tail, q);
      }
      slots[tail] := 0;
      r := 0;
    }

    /** `socket_queue_get`: the ids in the order in which they were added, zero when there is none. */
    method Get() returns (id: nat)
      requires Valid()
      modifies this, slots
      ensures Valid()
      ensures old(q) == [] ==> id == 0 && q == []
      ensures old(q) != [] ==> id == old(q)[0] && q == old(q)[1..]
    {
      if head == slots.Length {
        LazyWrap(slots[..], q);
        head := 0;
      }
      AtHead(slots[..], head, q);
      id := slots[head];
      if id != 0 {
        Take(slots[..], head, q);
        TakeTail(slots.Length, head, tail, q);
        slots[head] := 0;
        head := head + 1;
        q := q[1..];
      }
    }
  }
}
