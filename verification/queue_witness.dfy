/** The case that the invariant of the queue allows for does occur: the tail points to a freed node. */
module QueueWitness {
  import opened Queue
  import opened Options

  function C(t: Thread, op: Op): Choice {
    Choice(t, op, 1)
  }

  lemma RunThreeMore(s: State, cs: seq<Choice>, a: Choice, b: Choice, c: Choice)
    requires Run(s, cs).Next? && Step(Run(s, cs).s, a).Next? && Step(Step(Run(s, cs).s, a).s, b).Next?
    ensures Run(s, cs + [a, b, c]) ==
      match Step(Step(Step(Run(s, cs).s, a).s, b).s, c)
      case Blocked => Step(Step(Run(s, cs).s, a).s, b)
      case o => o
  {
    hide Step;
    RunOneMore(s, cs, a);
    RunOneMore(s, cs + [a], b);
    RunOneMore(s, cs + [a] + [b], c);
    assert cs + [a] + [b] + [c] == cs + [a, b, c];
  }

  lemma RunOneMore(s: State, cs: seq<Choice>, c: Choice)
    requires Run(s, cs).Next?
    ensures Run(s, cs + [c]) == match Step(Run(s, cs).s, c) case Blocked => Run(s, cs) case o => o
  {
    hide Step;
    assert (cs + [c])[..|cs|] == cs;
  }

  function Linked(h: seq<Event>): State {
    State(map[0 := Node(Some(1), None), 1 := Node(None, Some(7))], 0, 0, None, Some(1), map[1 := AddLinked(1, 7)], h)
  }

  /** Thread 1 begins an add and links its node. */
  lemma Links(s: State)
    requires s == Init(0)
    ensures Step(s, C(1, Add(7))).Next? && Step(Step(s, C(1, Add(7))).s, C(1, Add(7))).Next?
    ensures Step(Step(Step(s, C(1, Add(7))).s, C(1, Add(7))).s, C(1, Add(7)))
      == Next(Linked([Call(1, Add(7)), Effect(1, Add(7), Done)]))
  {
    assert [] + [Call(1, Add(7))] == [Call(1, Add(7))];
    assert [Call(1, Add(7))] + [Effect(1, Add(7), Done)] == [Call(1, Add(7)), Effect(1, Add(7), Done)];
  }

  function Loaded(h: seq<Event>): State {
    Linked(h).(headLock := Some(2), pcs := map[1 := AddLinked(1, 7), 2 := GetNext(0, 1)])
  }

  /** Thread 2 gets: it locks the head and reads the link. */
  lemma Reads(s: State, h: seq<Event>)
    requires s == Linked(h)
    ensures Step(s, C(2, Get)).Next? && Step(Step(s, C(2, Get)).s, C(2, Get)).Next?
    ensures Step(Step(Step(s, C(2, Get)).s, C(2, Get)).s, C(2, Get)) == Next(Loaded(h + [Call(2, Get)]))
  {
    var s1 := Step(s, C(2, Get)).s;
    assert s1 == Linked(h + [Call(2, Get)]).(pcs := map[1 := AddLinked(1, 7), 2 := GetReady]);
    var s2 := Step(s1, C(2, Get)).s;
    assert s2 == s1.(headLock := Some(2), pcs := map[1 := AddLinked(1, 7), 2 := GetLocked]);
  }

  /** It moves the head and frees the node that the tail still points to. */
  lemma Frees(s: State, h: seq<Event>)
    requires s == Loaded(h)
    ensures Step(s, C(2, Get)).Next? && Step(Step(s, C(2, Get)).s, C(2, Get)).Next?
    ensures var o := Step(Step(Step(s, C(2, Get)).s, C(2, Get)).s, C(2, Get)); o.Next? && o.s.tail !in o.s.heap
  {
  }

  ghost predicate Dangles(s: State) {
    s.tail !in s.heap
  }

  lemma TailMayDangle()
    ensures exists cs :: Run(Init(0), cs).Next? && Dangles(Run(Init(0), cs).s)
  {
    hide Step;
    var start: seq<Choice> := [];
    RunNothing(0);
    Links(Init(0));
    RunThreeMore(Init(0), start, C(1, Add(7)), C(1, Add(7)), C(1, Add(7)));
    var linked := start + [C(1, Add(7)), C(1, Add(7)), C(1, Add(7))];
    var h := [Call(1, Add(7)), Effect(1, Add(7), Done)];
    Reads(Linked(h), h);
    RunThreeMore(Init(0), linked, C(2, Get), C(2, Get), C(2, Get));
    var loaded := linked + [C(2, Get), C(2, Get), C(2, Get)];
    Frees(Loaded(h + [Call(2, Get)]), h + [Call(2, Get)]);
    RunThreeMore(Init(0), loaded, C(2, Get), C(2, Get), C(2, Get));
    var freed := loaded + [C(2, Get), C(2, Get), C(2, Get)];
    assert Dangles(Run(Init(0), freed).s);
  }

  lemma RunNothing(dummy: Addr)
    ensures Run(Init(dummy), []) == Next(Init(dummy))
  {
  }
}
