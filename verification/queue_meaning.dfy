/** What the answers of the queue mean by what went in and came out, and that every call can be brought to its end. */
module QueueMeaning {
  import opened Options
  import opened Queue
  import opened QueueSafety
  import opened QueueRuns

  // Answers.

  lemma EmptyByCount(h: seq<Event>)
    requires Legal(h)
    ensures Deque(h) == [] <==> Entered(h) == Left(h)
  {
    hide Deque, Entered, Left, Legal;
    ElementsConserved(h);
    if Deque(h) != [] { assert Deque(h)[0] in multiset(Deque(h)); }
  }

  /** A test answers that the queue is empty exactly when all that was put in has come out. */
  lemma EmptyAnswers(g: seq<Event>, t: Thread, res: Res)
    requires Legal(g + [Effect(t, Empty, res)])
    ensures res == Is(Entered(g) == Left(g))
  {
    hide Deque, Entered, Left;
    LastEffect(g, Effect(t, Empty, res));
    EmptyByCount(g);
  }

  /** So does a get that answers NULL; any other hands out something that was put in and has not come out. */
  lemma GetAnswers(g: seq<Event>, t: Thread, res: Res)
    requires Legal(g + [Effect(t, Get, res)])
    ensures res.Got? && (res.ptr == None <==> Entered(g) == Left(g))
    ensures res.ptr.Some? ==> res.ptr.value in Entered(g) - Left(g)
  {
    hide Deque, Entered, Left;
    LastEffect(g, Effect(t, Get, res));
    EmptyByCount(g);
    ElementsConserved(g);
  }

  /** Adds and pushes succeed. */
  lemma PutAnswers(g: seq<Event>, t: Thread, op: Op, res: Res)
    requires Legal(g + [Effect(t, op, res)]) && (op.Add? || op.Push?)
    ensures res == Done
  {
    LastEffect(g, Effect(t, op, res));
  }

  lemma LastEffect(g: seq<Event>, e: Event)
    requires Legal(g + [e])
    ensures Legal(g) && (e.Effect? ==> e.res == Result(Deque(g), e.op))
  {
    assert (g + [e])[..|g|] == g;
  }

  /** The event neither pushes nor hands out an element. */
  predicate KeepsFront(e: Event) {
    e.Effect? ==> e.op.Add? || e.op.Empty?
  }

  lemma {:induction false} FrontStays(g: seq<Event>, h: seq<Event>)
    requires Deque(g) != [] && forall i :: 0 <= i < |h| ==> KeepsFront(h[i])
    ensures Deque(g + h) != [] && Deque(g + h)[0] == Deque(g)[0]
  {
    if h == [] {
      assert g + h == g;
    } else {
      var n := |h| - 1;
      FrontStays(g, h[..n]);
      assert (g + h)[..|g| + n] == g + h[..n] && (g + h)[|g| + n] == h[n];
      assert KeepsFront(h[n]);
    }
  }

  lemma PushedFront(g: seq<Event>, t: Thread, v: Value, res: Res)
    ensures Deque(g + [Effect(t, Push(v), res)]) == [v] + Deque(g)
  {
    assert (g + [Effect(t, Push(v), res)])[..|g|] == g;
  }

  /** What was pushed last is handed out first, whatever was added meanwhile. */
  lemma LastPushedFirst(g: seq<Event>, t: Thread, v: Value, res: Res, h: seq<Event>, u: Thread, got: Res)
    requires Legal(g + [Effect(t, Push(v), res)] + h + [Effect(u, Get, got)])
    requires forall i :: 0 <= i < |h| ==> KeepsFront(h[i])
    ensures got == Got(Some(v))
  {
    hide Deque, Legal, KeepsFront;
    var p := g + [Effect(t, Push(v), res)];
    PushedFront(g, t, v, res);
    FrontStays(p, h);
    LastEffect(p + h, Effect(u, Get, got));
  }

  // Calls.

  /** A thread in no call can begin one, given memory for its node, and the history tells which. */
  lemma CallBegins(s: State, c: Choice)
    requires PcOf(s, c.t) == Idle && (c.op.Add? || c.op.Push? ==> c.addr !in s.heap)
    ensures Step(s, c).Next? && Step(s, c).s.history == s.history + [Call(c.t, c.op)]
    ensures PcOf(Step(s, c).s, c.t) != Idle
    ensures Step(s, c).s.head == s.head && Step(s, c).s.tail == s.tail
  {
  }

  /** The next step of a thread in a call; the operation and the address do not matter. */
  function Go(t: Thread): Choice {
    Choice(t, Empty, 0)
  }

  function Rank(pc: Pc): nat {
    match pc
    case Idle => 0
    case AddReady(_, _) => 4
    case AddLocked(_, _) => 3
    case AddLinked(_, _) => 2
    case AddDone(_) => 1
    case PushReady(_, _) => 5
    case PushLocked(_, _) => 4
    case PushStored(_, _) => 3
    case PushLinked(_, _) => 2
    case PushDone(_) => 1
    case GetReady => 6
    case GetLocked => 5
    case GetNext(_, _) => 4
    case GetData(_, _, _) => 3
    case GetMoved(_, _) => 2
    case GetDone(_) => 1
    case EmptyReady => 3
    case EmptyLocked => 2
    case EmptyDone(_) => 1
  }

  /** No other thread holds the lock that the thread needs. */
  predicate Clear(s: State, t: Thread) {
    PcOf(s, t) == Idle || if InAdd(PcOf(s, t)) then s.tailLock in {None, Some(t)} else s.headLock in {None, Some(t)}
  }

  /** The history goes on, but with no call. */
  ghost predicate NoNewCall(h: seq<Event>, h': seq<Event>) {
    h <= h' && forall i :: |h| <= i < |h'| ==> !h'[i].Call?
  }

  /** Other threads stay where they are, and the locks that they hold or that are free stay so. */
  ghost predicate Alone(s: State, s': State, t: Thread) {
    && (forall u: Thread :: u != t ==> PcOf(s', u) == PcOf(s, u))
    && (s'.headLock == s.headLock || (s.headLock in {None, Some(t)} && s'.headLock in {None, Some(t)}))
    && (s'.tailLock == s.tailLock || (s.tailLock in {None, Some(t)} && s'.tailLock in {None, Some(t)}))
  }

  /** The thread gets nearer to the end of its call, and only it moves. */
  ghost predicate Nearer(s: State, o: Outcome, t: Thread) {
    && o.Next? && Alone(s, o.s, t) && Clear(o.s, t) && Rank(PcOf(o.s, t)) < Rank(PcOf(s, t))
    && NoNewCall(s.history, o.s.history)
  }

  lemma AdderMoves(s: State, t: Thread)
    requires InAdd(PcOf(s, t)) && Clear(s, t) && LocksOk(s) && Step(s, Go(t)) != Crash
    ensures Nearer(s, Step(s, Go(t)), t)
  {
    hide Begin, PushStep, GetStep, EmptyStep;
    assert HoldsTail(PcOf(s, t)) <==> s.tailLock == Some(t);
  }

  lemma PusherMoves(s: State, t: Thread)
    requires InPush(PcOf(s, t)) && Clear(s, t) && LocksOk(s) && Step(s, Go(t)) != Crash
    ensures Nearer(s, Step(s, Go(t)), t)
  {
    hide Begin, AddStep, GetStep, EmptyStep;
    assert HoldsHead(PcOf(s, t)) <==> s.headLock == Some(t);
  }

  lemma GetterMoves(s: State, t: Thread)
    requires InGet(PcOf(s, t)) && Clear(s, t) && LocksOk(s) && Step(s, Go(t)) != Crash
    ensures Nearer(s, Step(s, Go(t)), t)
  {
    hide Begin, AddStep, PushStep, EmptyStep;
    assert HoldsHead(PcOf(s, t)) <==> s.headLock == Some(t);
  }

  lemma Moves(s: State, t: Thread)
    requires PcOf(s, t) != Idle && Clear(s, t) && LocksOk(s) && Step(s, Go(t)) != Crash
    ensures Nearer(s, Step(s, Go(t)), t)
  {
    hide Begin, AddStep, PushStep, GetStep;
    if InAdd(PcOf(s, t)) {
      AdderMoves(s, t);
    } else if InPush(PcOf(s, t)) {
      PusherMoves(s, t);
    } else if InGet(PcOf(s, t)) {
      GetterMoves(s, t);
    } else {
      assert HoldsHead(PcOf(s, t)) <==> s.headLock == Some(t);
    }
  }

  lemma AloneOn(s: State, s': State, s'': State, t: Thread)
    requires Alone(s, s', t) && Alone(s', s'', t)
    ensures Alone(s, s'', t)
  {
  }

  lemma {:induction false} RunFirst(s: State, c: Choice, ms: seq<Choice>)
    requires Step(s, c).Next?
    ensures Run(s, [c] + ms) == Run(Step(s, c).s, ms)
  {
    hide Step;
    if ms == [] {
      assert [c] + ms == [c] && [c][..0] == [];
      assert Run(s, []) == Next(s);
    } else {
      var n := |ms| - 1;
      RunFirst(s, c, ms[..n]);
      assert ([c] + ms)[..n + 1] == [c] + ms[..n];
    }
  }

  lemma Nothing(s: State, t: Thread)
    ensures Run(s, []) == Next(s) && Alone(s, s, t)
  {
  }

  /** A thread whose lock is free or its own comes to the end of its call. */
  lemma {:induction false} Finish(s: State, t: Thread, nodes: seq<Addr>) returns (ms: seq<Choice>, nodes': seq<Addr>)
    requires Inv(s, nodes) && Clear(s, t)
    ensures var o := Run(s, ms);
      o.Next? && Inv(o.s, nodes') && PcOf(o.s, t) == Idle && Alone(s, o.s, t) && NoNewCall(s.history, o.s.history)
    decreases Rank(PcOf(s, t))
  {
    hide Inv, Step, Alone, Clear, Rank, Run, InAdd, LocksOk;
    if PcOf(s, t) == Idle {
      ms, nodes' := [], nodes;
      Nothing(s, t);
    } else {
      var n := StepKeeps(s, Go(t), nodes);
      InvLocks(s, nodes);
      Moves(s, t);
      var s1 := Step(s, Go(t)).s;
      var rest;
      rest, nodes' := Finish(s1, t, n);
      ms := [Go(t)] + rest;
      RunFirst(s, Go(t), rest);
      AloneOn(s, s1, Run(s1, rest).s, t);
    }
  }

  lemma InvLocks(s: State, nodes: seq<Addr>)
    requires Inv(s, nodes)
    ensures LocksOk(s)
  {
    hide MemoryOk, TailOk, Apart, HistoryOk;
  }

  lemma {:induction false} RunOn(s: State, cs: seq<Choice>, ms: seq<Choice>)
    requires Run(s, cs).Next?
    ensures Run(s, cs + ms) == Run(Run(s, cs).s, ms)
  {
    hide Step;
    if ms == [] {
      assert cs + ms == cs;
    } else {
      var n := |ms| - 1;
      RunOn(s, cs, ms[..n]);
      assert (cs + ms)[..|cs| + n] == cs + ms[..n];
    }
  }

  /** Whoever holds a lock comes to the end of its call; then both locks are free. */
  lemma FreeLocks(s: State, nodes: seq<Addr>) returns (ms: seq<Choice>, nodes': seq<Addr>)
    requires Inv(s, nodes)
    ensures var o := Run(s, ms);
      && o.Next? && Inv(o.s, nodes') && o.s.headLock == None && o.s.tailLock == None
      && NoNewCall(s.history, o.s.history) && forall u: Thread :: PcOf(o.s, u) in {Idle, PcOf(s, u)}
  {
    hide Inv, Run, LocksOk;
    InvLocks(s, nodes);
    ms, nodes' := [], nodes;
    Nothing(s, 0);
    if s.headLock.Some? {
      HolderIsClear(s, s.headLock.value);
      ms, nodes' := Finish(s, s.headLock.value, nodes);
      InvLocks(Run(s, ms).s, nodes');
      IdleHoldsNone(Run(s, ms).s, s.headLock.value);
    }
    var s1 := Run(s, ms).s;
    InvLocks(s1, nodes');
    if s1.tailLock.Some? {
      HolderIsClear(s1, s1.tailLock.value);
      var rest, n := Finish(s1, s1.tailLock.value, nodes');
      InvLocks(Run(s1, rest).s, n);
      IdleHoldsNone(Run(s1, rest).s, s1.tailLock.value);
      RunOn(s, ms, rest);
      ms, nodes' := ms + rest, n;
    }
  }

  lemma HolderIsClear(s: State, t: Thread)
    requires LocksOk(s) && (s.headLock == Some(t) || s.tailLock == Some(t))
    ensures Clear(s, t)
  {
    assert HoldsTail(PcOf(s, t)) <==> s.tailLock == Some(t);
    assert HoldsHead(PcOf(s, t)) <==> s.headLock == Some(t);
  }

  lemma IdleHoldsNone(s: State, t: Thread)
    requires LocksOk(s) && PcOf(s, t) == Idle
    ensures s.headLock != Some(t) && s.tailLock != Some(t)
  {
    assert HoldsTail(PcOf(s, t)) <==> s.tailLock == Some(t);
    assert HoldsHead(PcOf(s, t)) <==> s.headLock == Some(t);
  }

  /** When both locks are free the threads can come to the end of their calls one after the other. */
  lemma {:induction false} FinishAll(s: State, ts: set<Thread>, nodes: seq<Addr>) returns (ms: seq<Choice>)
    requires Inv(s, nodes) && s.headLock == None && s.tailLock == None
    requires forall u: Thread :: u !in ts ==> PcOf(s, u) == Idle
    ensures var o := Run(s, ms);
      o.Next? && NoNewCall(s.history, o.s.history) && forall u: Thread :: PcOf(o.s, u) == Idle
    decreases |ts|
  {
    hide Inv, Run, LocksOk;
    Nothing(s, 0);
    if ts == {} {
      ms := [];
    } else {
      var t :| t in ts;
      var n;
      ms, n := Finish(s, t, nodes);
      var s1 := Run(s, ms).s;
      InvLocks(s1, n);
      IdleHoldsNone(s1, t);
      var rest := FinishAll(s1, ts - {t}, n);
      RunOn(s, ms, rest);
      ms := ms + rest;
    }
  }

  /** From every reachable state all calls can be brought to their end, without a new one. */
  lemma {:induction false} CallsCanEnd(dummy: Addr, cs: seq<Choice>) returns (ms: seq<Choice>)
    ensures Run(Init(dummy), cs).Next?
    ensures var s, o := Run(Init(dummy), cs).s, Run(Init(dummy), cs + ms);
      o.Next? && NoNewCall(s.history, o.s.history) && forall u: Thread :: PcOf(o.s, u) == Idle
  {
    hide Inv, Run, Init;
    var nodes := RunKeeps(dummy, cs);
    var s := Run(Init(dummy), cs).s;
    var first, n := FreeLocks(s, nodes);
    var s1 := Run(s, first).s;
    var rest := FinishAll(s1, s.pcs.Keys, n);
    RunOn(s, first, rest);
    RunOn(Init(dummy), cs, first + rest);
    ms := first + rest;
  }
}
