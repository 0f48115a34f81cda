/** Whole runs of the two-lock queue: every interleaving is linearizable, and no node is used after it was freed. */
module QueueRuns {
  import opened Queue
  import opened QueueSafety
  import opened Options

  /** A call and the new place of its thread. */
  lemma CallHistory(s: State, s': State, t: Thread, op: Op, pc: Pc)
    requires HistoryOk(s) && PcOf(s, t) == Idle && StatusOf(pc) == Called(op)
    requires s'.history == s.history + [Call(t, op)] && Moves(s, s', t, pc)
    ensures HistoryOk(s') && Deque(s'.history) == Deque(s.history)
  {
    LoggedHistory(s, s', t, pc, Call(t, op));
    HistoryExtends(s.history, Call(t, op));
  }

  lemma CallAddKeeps(s: State, c: Choice, nodes: seq<Addr>)
    requires Inv(s, nodes) && PcOf(s, c.t) == Idle && c.op.Add? && Begin(s, c).Next?
    ensures Inv(Begin(s, c).s, nodes)
  {
    hide Deque, HistoryOk, MemoryOk, LocksOk, Apart, TailOk;
    var pc, s' := AddReady(c.addr, c.op.v), Begin(s, c).s;
    CallHistory(s, s', c.t, c.op, pc);
    AllocStep(s, s', nodes, c.t, pc, c.addr, Node(None, Some(c.op.v)));
  }

  lemma CallPushKeeps(s: State, c: Choice, nodes: seq<Addr>)
    requires Inv(s, nodes) && PcOf(s, c.t) == Idle && c.op.Push? && Begin(s, c).Next?
    ensures Inv(Begin(s, c).s, nodes)
  {
    hide Deque, HistoryOk, MemoryOk, LocksOk, Apart, TailOk;
    var pc, s' := PushReady(c.addr, c.op.v), Begin(s, c).s;
    CallHistory(s, s', c.t, c.op, pc);
    AllocStep(s, s', nodes, c.t, pc, c.addr, Node(None, None));
  }

  /** A call that allocates nothing. */
  lemma CallKeeps(s: State, c: Choice, nodes: seq<Addr>, pc: Pc)
    requires Inv(s, nodes) && PcOf(s, c.t) == Idle
    requires (c.op == Get && pc == GetReady) || (c.op == Empty && pc == EmptyReady)
    ensures Begin(s, c).Next? && Inv(Begin(s, c).s, nodes)
  {
    hide Deque, HistoryOk, Linked, ThreadsOk, LocksOk, Apart, TailOk, PcOk;
    var s' := Begin(s, c).s;
    CallHistory(s, s', c.t, c.op, pc);
    ControlStays(s, s', nodes, nodes, c.t, pc);
    PlainOk(s.heap, nodes, Deque(s.history), pc);
    QuietMemory(s, s', nodes, c.t, pc);
  }

  lemma BeginKeeps(s: State, c: Choice, nodes: seq<Addr>)
    requires Inv(s, nodes) && PcOf(s, c.t) == Idle
    ensures Begin(s, c).Next? ==> Inv(Begin(s, c).s, nodes)
  {
    hide Inv, Begin;
    if Begin(s, c).Next? {
      match c.op
      case Add(v) => CallAddKeeps(s, c, nodes);
      case Push(v) => CallPushKeeps(s, c, nodes);
      case Get => CallKeeps(s, c, nodes, GetReady);
      case Empty => CallKeeps(s, c, nodes, EmptyReady);
    }
  }

  lemma AddKeeps(s: State, t: Thread, nodes: seq<Addr>) returns (nodes': seq<Addr>)
    requires Inv(s, nodes) && InAdd(PcOf(s, t))
    ensures AddStep(s, t, PcOf(s, t)) != Crash
    ensures AddStep(s, t, PcOf(s, t)).Next? ==> Inv(AddStep(s, t, PcOf(s, t)).s, nodes')
  {
    hide Inv;
    nodes' := nodes;
    var o := AddStep(s, t, PcOf(s, t));
    match PcOf(s, t)
    case AddReady(n, v) => if o.Next? { LockTailStep(s, o.s, nodes, t, n, v); }
    case AddLocked(n, v) =>
      TailIsLast(s, nodes, t, n, v);
      LinkStep(s, o.s, nodes, t, n, v);
      nodes' := nodes + [n];
    case AddLinked(n, v) => SwingStep(s, o.s, nodes, t, n, v);
    case AddDone(v) => LeaveTailStep(s, o.s, nodes, t, v);
  }

  /** The nodes that a push, a get or an emptiness test dereferences are allocated. */
  lemma PushReaches(s: State, t: Thread, nodes: seq<Addr>, n: Addr, v: Value)
    requires Inv(s, nodes) && PcOf(s, t) == PushStored(n, v)
    ensures n in s.heap
  {
    hide Deque, Linked;
    assert PcOk(PcOf(s, t), s.heap, nodes, Deque(s.history));
  }

  lemma PushKeeps(s: State, t: Thread, nodes: seq<Addr>) returns (nodes': seq<Addr>)
    requires Inv(s, nodes) && InPush(PcOf(s, t))
    ensures PushStep(s, t, PcOf(s, t)) != Crash
    ensures PushStep(s, t, PcOf(s, t)).Next? ==> Inv(PushStep(s, t, PcOf(s, t)).s, nodes')
  {
    hide Inv, Deque;
    nodes' := nodes;
    var o := PushStep(s, t, PcOf(s, t));
    match PcOf(s, t)
    case PushReady(n, v) =>
      PlainPushOk(s, nodes, t, n, v);
      if o.Next? { TakeHeadStep(s, o.s, nodes, t, PushLocked(n, v)); }
    case PushLocked(n, v) =>
      HeadLink(s, nodes);
      StoreStep(s, o.s, nodes, t, n, v);
    case PushStored(n, v) =>
      PushReaches(s, t, nodes, n, v);
      LinkHeadStep(s, o.s, nodes, t, n, v);
    case PushLinked(n, v) =>
      PushHeadStep(s, o.s, nodes, t, n, v);
      nodes' := [n] + nodes;
    case PushDone(v) => LeaveHeadStep(s, o.s, nodes, t, Push(v), Done);
  }

  lemma PlainPushOk(s: State, nodes: seq<Addr>, t: Thread, n: Addr, v: Value)
    requires Inv(s, nodes) && PcOf(s, t) == PushReady(n, v)
    ensures PcOk(PushLocked(n, v), s.heap, nodes, Deque(s.history))
  {
    hide Deque, Linked;
    assert PcOk(PcOf(s, t), s.heap, nodes, Deque(s.history));
  }

  /** `next = node->next` on an empty queue: the get takes effect. */
  lemma GetReadsNull(s: State, t: Thread, nodes: seq<Addr>)
    requires Inv(s, nodes) && PcOf(s, t) == GetLocked && s.head in s.heap && s.heap[s.head].next == None
    ensures Inv(At(Log(s, Effect(t, Get, Got(None))), t, GetDone(None)), nodes)
  {
    hide Inv, Deque;
    HeadLink(s, nodes);
    HeadFirst(s, nodes);
    EffectStep(s, At(Log(s, Effect(t, Get, Got(None))), t, GetDone(None)), nodes, t, Get, Got(None), GetDone(None));
  }

  /** The node behind the head, and its data. */
  lemma SecondKnown(s: State, nodes: seq<Addr>)
    requires Inv(s, nodes) && s.head in s.heap && s.heap[s.head].next.Some?
    ensures PcOk(GetNext(s.head, s.heap[s.head].next.value), s.heap, nodes, Deque(s.history))
  {
    hide Inv, Deque;
    HeadLink(s, nodes);
    HeadFirst(s, nodes);
  }

  lemma HeadFirst(s: State, nodes: seq<Addr>)
    requires Inv(s, nodes)
    ensures nodes != [] && nodes[0] == s.head
  {
    hide Linked, Deque, ThreadsOk;
  }

  lemma NextKnown(s: State, t: Thread, nodes: seq<Addr>, node: Addr, next: Addr)
    requires Inv(s, nodes) && PcOf(s, t) == GetNext(node, next)
    ensures Deque(s.history) != [] && |nodes| > 1 && node == nodes[0] && next == nodes[1]
  {
    hide Deque, Linked;
    assert PcOk(PcOf(s, t), s.heap, nodes, Deque(s.history));
  }

  lemma DataKnown(s: State, t: Thread, nodes: seq<Addr>, node: Addr, next: Addr)
    requires Inv(s, nodes) && PcOf(s, t) == GetNext(node, next)
    ensures next in s.heap && PcOk(GetData(node, next, s.heap[next].data), s.heap, nodes, Deque(s.history))
  {
    hide Inv, Deque;
    NextKnown(s, t, nodes, node, next);
    HeadLink(s, nodes);
  }

  lemma GetReadsNode(s: State, t: Thread, nodes: seq<Addr>)
    requires Inv(s, nodes) && PcOf(s, t) == GetLocked && s.head in s.heap && s.heap[s.head].next.Some?
    ensures Inv(At(s, t, GetNext(s.head, s.heap[s.head].next.value)), nodes)
  {
    hide Inv, Deque, PcOk;
    SecondKnown(s, nodes);
    var pc := GetNext(s.head, s.heap[s.head].next.value);
    ReadStep(s, At(s, t, pc), nodes, t, pc);
  }

  lemma GetLoads(s: State, t: Thread, nodes: seq<Addr>, node: Addr, next: Addr)
    requires Inv(s, nodes) && PcOf(s, t) == GetNext(node, next)
    ensures next in s.heap && Inv(At(s, t, GetData(node, next, s.heap[next].data)), nodes)
  {
    hide Inv, Deque, PcOk;
    DataKnown(s, t, nodes, node, next);
    var pc := GetData(node, next, s.heap[next].data);
    ReadStep(s, At(s, t, pc), nodes, t, pc);
  }

  lemma FreeReaches(s: State, t: Thread, nodes: seq<Addr>, node: Addr, data: Option<Value>)
    requires Inv(s, nodes) && PcOf(s, t) == GetMoved(node, data)
    ensures node in s.heap
  {
    hide MemoryOk;
    FreedKnown(s, nodes, t, node, data);
  }

  lemma GetKeeps(s: State, t: Thread, nodes: seq<Addr>) returns (nodes': seq<Addr>)
    requires Inv(s, nodes) && InGet(PcOf(s, t))
    ensures GetStep(s, t, PcOf(s, t)) != Crash
    ensures GetStep(s, t, PcOf(s, t)).Next? ==> Inv(GetStep(s, t, PcOf(s, t)).s, nodes')
  {
    hide Inv, Deque, PcOk;
    nodes' := nodes;
    var o := GetStep(s, t, PcOf(s, t));
    match PcOf(s, t)
    case GetReady =>
      HeadFirst(s, nodes);
      PlainOk(s.heap, nodes, Deque(s.history), GetLocked);
      if o.Next? { TakeHeadStep(s, o.s, nodes, t, GetLocked); }
    case GetLocked =>
      HeadLink(s, nodes);
      if s.heap[s.head].next == None { GetReadsNull(s, t, nodes); } else { GetReadsNode(s, t, nodes); }
    case GetNext(node, next) => GetLoads(s, t, nodes, node, next);
    case GetData(node, next, data) =>
      GetHeadStep(s, o.s, nodes, t, node, next, data);
      nodes' := nodes[1..];
    case GetMoved(node, data) =>
      FreeReaches(s, t, nodes, node, data);
      FreeStep(s, o.s, nodes, t, node, data);
    case GetDone(data) => LeaveHeadStep(s, o.s, nodes, t, Get, Got(data));
  }

  lemma EmptyReads(s: State, t: Thread, nodes: seq<Addr>)
    requires Inv(s, nodes) && PcOf(s, t) == EmptyLocked
    ensures EmptyStep(s, t, EmptyLocked).Next? && Inv(EmptyStep(s, t, EmptyLocked).s, nodes)
  {
    hide Inv, Deque;
    HeadLink(s, nodes);
    HeadFirst(s, nodes);
    var b := s.heap[s.head].next == None;
    EffectStep(s, EmptyStep(s, t, EmptyLocked).s, nodes, t, Empty, Is(b), EmptyDone(b));
  }

  lemma EmptyKeeps(s: State, t: Thread, nodes: seq<Addr>)
    requires Inv(s, nodes)
    requires PcOf(s, t).EmptyReady? || PcOf(s, t).EmptyLocked? || PcOf(s, t).EmptyDone?
    ensures EmptyStep(s, t, PcOf(s, t)) != Crash
    ensures EmptyStep(s, t, PcOf(s, t)).Next? ==> Inv(EmptyStep(s, t, PcOf(s, t)).s, nodes)
  {
    hide Inv, Deque, PcOk;
    var o := EmptyStep(s, t, PcOf(s, t));
    match PcOf(s, t)
    case EmptyReady =>
      HeadFirst(s, nodes);
      PlainOk(s.heap, nodes, Deque(s.history), EmptyLocked);
      if o.Next? { TakeHeadStep(s, o.s, nodes, t, EmptyLocked); }
    case EmptyLocked => EmptyReads(s, t, nodes);
    case EmptyDone(b) => LeaveHeadStep(s, o.s, nodes, t, Empty, Is(b));
  }

  /** Any step of any thread keeps the invariant, and none uses a node that is not allocated. */
  lemma StepKeeps(s: State, c: Choice, nodes: seq<Addr>) returns (nodes': seq<Addr>)
    requires Inv(s, nodes)
    ensures Step(s, c) != Crash
    ensures Step(s, c).Next? ==> Inv(Step(s, c).s, nodes')
  {
    hide Inv, Begin, AddStep, PushStep, GetStep, EmptyStep;
    var pc := PcOf(s, c.t);
    nodes' := nodes;
    if pc == Idle {
      BeginKeeps(s, c, nodes);
      BeginCannotCrash(s, c);
    } else if InAdd(pc) {
      nodes' := AddKeeps(s, c.t, nodes);
    } else if InPush(pc) {
      nodes' := PushKeeps(s, c.t, nodes);
    } else if InGet(pc) {
      nodes' := GetKeeps(s, c.t, nodes);
    } else {
      EmptyKeeps(s, c.t, nodes);
    }
  }

  lemma BeginCannotCrash(s: State, c: Choice)
    ensures Begin(s, c) != Crash
  {
  }

  lemma {:induction false} RunKeeps(dummy: Addr, cs: seq<Choice>) returns (nodes: seq<Addr>)
    ensures Run(Init(dummy), cs).Next? && Inv(Run(Init(dummy), cs).s, nodes)
  {
    if cs == [] {
      InitInv(dummy);
      nodes := [dummy];
    } else {
      hide Inv, Step;
      nodes := RunKeeps(dummy, cs[..|cs| - 1]);
      nodes := StepOrWait(Run(Init(dummy), cs[..|cs| - 1]).s, cs[|cs| - 1], nodes);
    }
  }

  lemma StepOrWait(s: State, c: Choice, nodes: seq<Addr>) returns (nodes': seq<Addr>)
    requires Inv(s, nodes)
    ensures Step(s, c) != Crash && Inv(if Step(s, c).Next? then Step(s, c).s else s, nodes')
  {
    hide Inv, Step;
    nodes' := StepKeeps(s, c, nodes);
    if !Step(s, c).Next? { nodes' := nodes; }
  }

  /**
   * Every interleaving of adds, pushes, gets and emptiness tests, from a new queue on, is linearizable to a deque; no
   * step uses a freed node; and the list in memory is the deque.
   */
  lemma {:induction false} QueueIsLinearizable(dummy: Addr, cs: seq<Choice>)
    ensures Run(Init(dummy), cs).Next?
    ensures var s := Run(Init(dummy), cs).s;
      Linearizable(s.history) &&
      exists nodes :: nodes != [] && nodes[0] == s.head && Linked(s.heap, nodes, Deque(s.history))
  {
    hide Run, Init, StatusIn, Deque, Legal;
    var nodes := RunKeeps(dummy, cs);
    var s := Run(Init(dummy), cs).s;
    forall t: Thread ensures StatusIn(s.history, t) != Broken {
      assert StatusIn(s.history, t) == StatusOf(PcOf(s, t));
    }
  }

  // What a legal history means for the elements.

  function Gain(op: Op): multiset<Value> {
    if op.Add? || op.Push? then multiset{op.v} else multiset{}
  }

  function Loss(res: Res): multiset<Value> {
    if res.Got? && res.ptr.Some? then multiset{res.ptr.value} else multiset{}
  }

  /** What the effects of a history put in. */
  function Entered(h: seq<Event>): multiset<Value> {
    if h == [] then multiset{}
    else Entered(h[..|h| - 1]) + if h[|h| - 1].Effect? then Gain(h[|h| - 1].op) else multiset{}
  }

  /** What they handed out. */
  function Left(h: seq<Event>): multiset<Value> {
    if h == [] then multiset{}
    else Left(h[..|h| - 1]) + if h[|h| - 1].Effect? then Loss(h[|h| - 1].res) else multiset{}
  }

  /** Nothing is lost, duplicated or invented. */
  lemma {:induction false} ElementsConserved(h: seq<Event>)
    requires Legal(h)
    ensures Entered(h) == Left(h) + multiset(Deque(h))
  {
    if h != [] {
      var g, e := h[..|h| - 1], h[|h| - 1];
      ElementsConserved(g);
      if e.Effect? {
        EffectConserves(Deque(g), e.op);
        hide Gain, Loss;
        assert Left(g) + multiset(Deque(g)) + Gain(e.op) == Left(g) + (multiset(Deque(h)) + Loss(e.res));
      }
    }
  }

  lemma EffectConserves(d: seq<Value>, op: Op)
    ensures multiset(d) + Gain(op) == multiset(After(d, op)) + Loss(Result(d, op))
  {
    if op.Get? && d != [] { assert d == [d[0]] + d[1..]; }
  }

  function AddedInOrder(h: seq<Event>): seq<Value> {
    if h == [] then []
    else
      var e := h[|h| - 1];
      AddedInOrder(h[..|h| - 1]) + if e.Effect? && e.op.Add? then [e.op.v] else []
  }

  function GotInOrder(h: seq<Event>): seq<Value> {
    if h == [] then []
    else
      var e := h[|h| - 1];
      GotInOrder(h[..|h| - 1]) + if e.Effect? && e.res.Got? && e.res.ptr.Some? then [e.res.ptr.value] else []
  }

  ghost predicate NoPush(h: seq<Event>) {
    forall i :: 0 <= i < |h| && h[i].Effect? ==> !h[i].op.Push?
  }

  /** Without pushes, elements leave in the order in which they were added. */
  lemma {:induction false} FirstInFirstOut(h: seq<Event>)
    requires Legal(h) && NoPush(h)
    ensures AddedInOrder(h) == GotInOrder(h) + Deque(h)
  {
    if h != [] {
      var g, e := h[..|h| - 1], h[|h| - 1];
      assert NoPush(g);
      FirstInFirstOut(g);
      if e.Effect? && e.op.Get? && Deque(g) != [] {
        assert Deque(g) == [Deque(g)[0]] + Deque(g)[1..];
      }
    }
  }
}
