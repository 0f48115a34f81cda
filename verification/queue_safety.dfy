/** What every step of the two-lock queue keeps. */
module QueueSafety {
  import opened Queue
  import opened Options

  // The list in memory.

  function Follower(nodes: seq<Addr>, i: nat): Option<Addr> {
    if i + 1 < |nodes| then Some(nodes[i + 1]) else None
  }

  ghost predicate Distinct(nodes: seq<Addr>) {
    forall i, j :: 0 <= i < j < |nodes| ==> nodes[i] != nodes[j]
  }

  ghost predicate Links(heap: map<Addr, Node>, nodes: seq<Addr>) {
    forall i :: 0 <= i < |nodes| ==> nodes[i] in heap && heap[nodes[i]].next == Follower(nodes, i)
  }

  ghost predicate Carries(heap: map<Addr, Node>, nodes: seq<Addr>, d: seq<Value>) {
    |nodes| == |d| + 1 &&
    forall i :: 0 < i < |nodes| ==> nodes[i] in heap && heap[nodes[i]].data == Some(d[i - 1])
  }

  /** The nodes from the head to the last one; all but the first carry the elements of the deque. */
  ghost predicate Linked(heap: map<Addr, Node>, nodes: seq<Addr>, d: seq<Value>) {
    Distinct(nodes) && Links(heap, nodes) && Carries(heap, nodes, d)
  }

  lemma LinkedFrame(heap: map<Addr, Node>, heap': map<Addr, Node>, nodes: seq<Addr>, d: seq<Value>)
    requires Linked(heap, nodes, d)
    requires forall a :: a in nodes ==> a in heap' && (a in heap ==> heap'[a] == heap[a])
    ensures Linked(heap', nodes, d)
  {
    forall i | 0 <= i < |nodes|
      ensures nodes[i] in heap' && heap'[nodes[i]] == heap[nodes[i]]
    {
      assert nodes[i] in nodes;
    }
  }

  /** `_tail->next = node` */
  function Appended(heap: map<Addr, Node>, last: Addr, n: Addr): map<Addr, Node>
    requires last in heap
  {
    heap[last := heap[last].(next := Some(n))]
  }

  lemma LinkedAppend(heap: map<Addr, Node>, nodes: seq<Addr>, d: seq<Value>, n: Addr, v: Value)
    requires Linked(heap, nodes, d) && n in heap && n !in nodes && heap[n] == Node(None, Some(v))
    ensures Linked(Appended(heap, nodes[|nodes| - 1], n), nodes + [n], d + [v])
  {
  }

  /** `_head->data = ptr` */
  function Stored(heap: map<Addr, Node>, head: Addr, v: Value): map<Addr, Node>
    requires head in heap
  {
    heap[head := heap[head].(data := Some(v))]
  }

  lemma LinkedStore(heap: map<Addr, Node>, nodes: seq<Addr>, d: seq<Value>, v: Value)
    requires Linked(heap, nodes, d)
    ensures Linked(Stored(heap, nodes[0], v), nodes, d)
  {
  }

  lemma LinksPrepend(heap: map<Addr, Node>, nodes: seq<Addr>, n: Addr)
    requires nodes != [] && Links(heap, nodes) && n in heap && heap[n].next == Some(nodes[0])
    ensures Links(heap, [n] + nodes)
  {
    var all := [n] + nodes;
    forall i | 0 <= i < |all| ensures all[i] in heap && heap[all[i]].next == Follower(all, i) {
      if i > 0 {
        var k := i - 1;
        assert all[i] == nodes[k] && heap[nodes[k]].next == Follower(nodes, k);
      }
    }
  }

  lemma CarriesPrepend(heap: map<Addr, Node>, nodes: seq<Addr>, d: seq<Value>, n: Addr, v: Value)
    requires Carries(heap, nodes, d) && nodes[0] in heap && heap[nodes[0]].data == Some(v)
    ensures Carries(heap, [n] + nodes, [v] + d)
  {
    var all := [n] + nodes;
    forall i | 0 < i < |all| ensures all[i] in heap && heap[all[i]].data == Some(([v] + d)[i - 1]) {
      var k := i - 1;
      assert all[i] == nodes[k];
    }
  }

  lemma LinkedPrepend(heap: map<Addr, Node>, nodes: seq<Addr>, d: seq<Value>, n: Addr, v: Value)
    requires Linked(heap, nodes, d) && n in heap && n !in nodes
    requires nodes != [] && nodes[0] in heap && heap[n].next == Some(nodes[0]) && heap[nodes[0]].data == Some(v)
    ensures Linked(heap, [n] + nodes, [v] + d)
  {
    hide Links, Carries;
    LinksPrepend(heap, nodes, n);
    CarriesPrepend(heap, nodes, d, n, v);
  }

  lemma LinkedRemove(heap: map<Addr, Node>, nodes: seq<Addr>, d: seq<Value>)
    requires Linked(heap, nodes, d) && d != []
    ensures Linked(heap, nodes[1..], d[1..]) && nodes[0] !in nodes[1..]
  {
    var rest := nodes[1..];
    forall i | 0 <= i < |rest| ensures rest[i] in heap && heap[rest[i]].next == Follower(rest, i) {
      var k := i + 1;
      assert rest[i] == nodes[k] && heap[nodes[k]].next == Follower(nodes, k);
    }
    forall i | 0 < i < |rest| ensures rest[i] in heap && heap[rest[i]].data == Some(d[1..][i - 1]) {
      assert rest[i] == nodes[i + 1];
    }
  }

  // What holds of each thread.

  /** The node that only this thread knows. */
  function Owned(pc: Pc): Option<Addr> {
    match pc
    case AddReady(n, _) => Some(n)
    case AddLocked(n, _) => Some(n)
    case PushReady(n, _) => Some(n)
    case PushLocked(n, _) => Some(n)
    case PushStored(n, _) => Some(n)
    case PushLinked(n, _) => Some(n)
    case GetMoved(node, _) => Some(node)
    case _ => None
  }

  predicate HoldsHead(pc: Pc) {
    pc.PushLocked? || pc.PushStored? || pc.PushLinked? || pc.PushDone? || pc.GetLocked? || pc.GetNext? ||
    pc.GetData? || pc.GetMoved? || pc.GetDone? || pc.EmptyLocked? || pc.EmptyDone?
  }

  predicate HoldsTail(pc: Pc) {
    pc.AddLocked? || pc.AddLinked? || pc.AddDone?
  }

  /** What a thread may rely on at its place. */
  ghost predicate PcOk(pc: Pc, heap: map<Addr, Node>, nodes: seq<Addr>, d: seq<Value>) {
    && nodes != []
    && (Owned(pc).Some? ==> Owned(pc).value in heap && Owned(pc).value !in nodes)
    && match pc
       case AddReady(n, v) => heap[n] == Node(None, Some(v))
       case AddLocked(n, v) => heap[n] == Node(None, Some(v))
       case AddLinked(n, v) => nodes[|nodes| - 1] == n
       case PushStored(n, v) => nodes[0] in heap && heap[nodes[0]].data == Some(v)
       case PushLinked(n, v) =>
         nodes[0] in heap && heap[nodes[0]].data == Some(v) && heap[n].next == Some(nodes[0])
       case GetNext(node, next) => d != [] && node == nodes[0] && |nodes| > 1 && next == nodes[1]
       case GetData(node, next, data) =>
         d != [] && node == nodes[0] && |nodes| > 1 && next == nodes[1] && data == Some(d[0])
       case _ => true
  }

  function StatusOf(pc: Pc): Status {
    match pc
    case Idle => Out
    case AddReady(_, v) => Called(Add(v))
    case AddLocked(_, v) => Called(Add(v))
    case AddLinked(_, v) => Effective(Add(v), Done)
    case AddDone(v) => Effective(Add(v), Done)
    case PushReady(_, v) => Called(Push(v))
    case PushLocked(_, v) => Called(Push(v))
    case PushStored(_, v) => Called(Push(v))
    case PushLinked(_, v) => Called(Push(v))
    case PushDone(v) => Effective(Push(v), Done)
    case GetReady => Called(Get)
    case GetLocked => Called(Get)
    case GetNext(_, _) => Called(Get)
    case GetData(_, _, _) => Called(Get)
    case GetMoved(_, data) => Effective(Get, Got(data))
    case GetDone(data) => Effective(Get, Got(data))
    case EmptyReady => Called(Empty)
    case EmptyLocked => Called(Empty)
    case EmptyDone(b) => Effective(Empty, Is(b))
  }

  // The invariant.

  ghost predicate LocksOk(s: State) {
    forall t: Thread ::
      (HoldsHead(PcOf(s, t)) <==> s.headLock == Some(t)) && (HoldsTail(PcOf(s, t)) <==> s.tailLock == Some(t))
  }

  ghost predicate ThreadsOk(s: State, nodes: seq<Addr>) {
    forall t: Thread :: PcOk(PcOf(s, t), s.heap, nodes, Deque(s.history))
  }

  ghost predicate Apart(s: State) {
    forall t: Thread, u: Thread :: t != u && Owned(PcOf(s, t)).Some? ==> Owned(PcOf(s, t)) != Owned(PcOf(s, u))
  }

  /** `_tail` is the last node, but between the two writes of an add it may even point to a freed one. */
  ghost predicate TailOk(s: State, nodes: seq<Addr>)
    requires nodes != []
  {
    s.tail == nodes[|nodes| - 1] || (s.tailLock.Some? && PcOf(s, s.tailLock.value).AddLinked?)
  }

  ghost predicate HistoryOk(s: State) {
    Legal(s.history) && forall t: Thread :: StatusIn(s.history, t) == StatusOf(PcOf(s, t))
  }

  /** The list and what the threads know of it. */
  ghost predicate MemoryOk(s: State, nodes: seq<Addr>) {
    nodes != [] && Linked(s.heap, nodes, Deque(s.history)) && nodes[0] == s.head && ThreadsOk(s, nodes)
  }

  ghost predicate Inv(s: State, nodes: seq<Addr>) {
    MemoryOk(s, nodes) && TailOk(s, nodes) && LocksOk(s) && Apart(s) && HistoryOk(s)
  }

  lemma InitInv(dummy: Addr)
    ensures Inv(Init(dummy), [dummy])
  {
  }

  // Parts of the invariant that follow from the new place of one thread alone.

  lemma HistoryExtends(h: seq<Event>, e: Event)
    ensures var h' := h + [e];
      Deque(h') == (if e.Effect? then After(Deque(h), e.op) else Deque(h)) &&
      (Legal(h') <==> Legal(h) && (e.Effect? ==> e.res == Result(Deque(h), e.op)))
  {
    assert (h + [e])[..|h|] == h;
  }

  lemma StatusExtends(h: seq<Event>, e: Event, t: Thread)
    ensures StatusIn(h + [e], t) == if e.t == t then Advance(StatusIn(h, t), e) else StatusIn(h, t)
  {
    assert (h + [e])[..|h|] == h;
  }

  /** A step that logs nothing. */
  lemma SilentHistory(s: State, s': State, t: Thread, pc: Pc)
    requires HistoryOk(s) && s'.history == s.history && s'.pcs == s.pcs[t := pc]
    requires StatusOf(pc) == StatusOf(PcOf(s, t))
    ensures HistoryOk(s')
  {
    forall u: Thread ensures StatusIn(s'.history, u) == StatusOf(PcOf(s', u)) {
    }
  }

  /** A step that logs an event. */
  lemma LoggedHistory(s: State, s': State, t: Thread, pc: Pc, e: Event)
    requires HistoryOk(s) && s'.history == s.history + [e] && s'.pcs == s.pcs[t := pc] && e.t == t
    requires StatusOf(pc) == Advance(StatusOf(PcOf(s, t)), e)
    requires e.Effect? ==> e.res == Result(Deque(s.history), e.op)
    ensures HistoryOk(s')
  {
    HistoryExtends(s.history, e);
    forall u: Thread ensures StatusIn(s'.history, u) == StatusOf(PcOf(s', u)) {
      StatusExtends(s.history, e, u);
    }
  }

  /** A step that takes and leaves no lock. */
  lemma LocksStay(s: State, s': State, t: Thread, pc: Pc)
    requires LocksOk(s) && s'.pcs == s.pcs[t := pc] && s'.headLock == s.headLock && s'.tailLock == s.tailLock
    requires HoldsHead(pc) == HoldsHead(PcOf(s, t)) && HoldsTail(pc) == HoldsTail(PcOf(s, t))
    ensures LocksOk(s')
  {
    forall u: Thread
      ensures HoldsHead(PcOf(s', u)) <==> s'.headLock == Some(u)
      ensures HoldsTail(PcOf(s', u)) <==> s'.tailLock == Some(u)
    {
      assert PcOf(s', u) == if u == t then pc else PcOf(s, u);
    }
  }

  /** A step that takes or leaves the head lock. */
  lemma HeadLockMoves(s: State, s': State, t: Thread, pc: Pc)
    requires LocksOk(s) && s'.pcs == s.pcs[t := pc] && s'.tailLock == s.tailLock
    requires s.headLock == None || s.headLock == Some(t)
    requires s'.headLock == (if HoldsHead(pc) then Some(t) else None) && HoldsTail(pc) == HoldsTail(PcOf(s, t))
    ensures LocksOk(s')
  {
    forall u: Thread
      ensures HoldsHead(PcOf(s', u)) <==> s'.headLock == Some(u)
      ensures HoldsTail(PcOf(s', u)) <==> s'.tailLock == Some(u)
    {
      assert PcOf(s', u) == if u == t then pc else PcOf(s, u);
      assert HoldsHead(PcOf(s, u)) <==> s.headLock == Some(u);
    }
  }

  lemma TailLockMoves(s: State, s': State, t: Thread, pc: Pc)
    requires LocksOk(s) && s'.pcs == s.pcs[t := pc] && s'.headLock == s.headLock
    requires s.tailLock == None || s.tailLock == Some(t)
    requires s'.tailLock == (if HoldsTail(pc) then Some(t) else None) && HoldsHead(pc) == HoldsHead(PcOf(s, t))
    ensures LocksOk(s')
  {
    forall u: Thread
      ensures HoldsHead(PcOf(s', u)) <==> s'.headLock == Some(u)
      ensures HoldsTail(PcOf(s', u)) <==> s'.tailLock == Some(u)
    {
      assert PcOf(s', u) == if u == t then pc else PcOf(s, u);
      assert HoldsTail(PcOf(s, u)) <==> s.tailLock == Some(u);
    }
  }

  /** What a thread owns after a step is what it owned before, nothing, or a node that nobody else owns. */
  lemma ApartStays(s: State, s': State, t: Thread, pc: Pc)
    requires Apart(s) && s'.pcs == s.pcs[t := pc]
    requires Owned(pc) == None || Owned(pc) == Owned(PcOf(s, t)) ||
      forall u: Thread :: u != t ==> Owned(PcOf(s, u)) != Owned(pc)
    ensures Apart(s')
  {
    forall u: Thread, w: Thread | u != w && Owned(PcOf(s', u)).Some? ensures Owned(PcOf(s', u)) != Owned(PcOf(s', w)) {
      assert PcOf(s', u) == if u == t then pc else PcOf(s, u);
      assert PcOf(s', w) == if w == t then pc else PcOf(s, w);
    }
  }

  // What the other threads rely on survives each change of the memory.

  lemma PcFrame(pc: Pc, heap: map<Addr, Node>, heap': map<Addr, Node>, nodes: seq<Addr>, d: seq<Value>)
    requires PcOk(pc, heap, nodes, d)
    requires nodes[0] in heap ==> nodes[0] in heap' && heap'[nodes[0]] == heap[nodes[0]]
    requires Owned(pc).Some? ==> Owned(pc).value in heap' && heap'[Owned(pc).value] == heap[Owned(pc).value]
    ensures PcOk(pc, heap', nodes, d)
  {
  }

  lemma PcAppend(pc: Pc, heap: map<Addr, Node>, nodes: seq<Addr>, d: seq<Value>, n: Addr, v: Value)
    requires PcOk(pc, heap, nodes, d) && !HoldsTail(pc) && Owned(pc) != Some(n)
    requires |nodes| == |d| + 1 && nodes[|nodes| - 1] in heap
    ensures PcOk(pc, Appended(heap, nodes[|nodes| - 1], n), nodes + [n], d + [v])
  {
    assert Owned(pc).Some? ==> Owned(pc).value != nodes[|nodes| - 1];
  }

  lemma PcStore(pc: Pc, heap: map<Addr, Node>, nodes: seq<Addr>, d: seq<Value>, v: Value)
    requires PcOk(pc, heap, nodes, d) && !HoldsHead(pc) && nodes[0] in heap
    ensures PcOk(pc, Stored(heap, nodes[0], v), nodes, d)
  {
    assert Owned(pc).Some? ==> Owned(pc).value != nodes[0];
  }

  lemma PcPrepend(pc: Pc, heap: map<Addr, Node>, nodes: seq<Addr>, d: seq<Value>, n: Addr, v: Value)
    requires PcOk(pc, heap, nodes, d) && !HoldsHead(pc) && Owned(pc) != Some(n)
    ensures PcOk(pc, heap, [n] + nodes, [v] + d)
  {
  }

  lemma PcRemove(pc: Pc, heap: map<Addr, Node>, nodes: seq<Addr>, d: seq<Value>)
    requires PcOk(pc, heap, nodes, d) && !HoldsHead(pc) && |nodes| > 1 && d != []
    ensures PcOk(pc, heap, nodes[1..], d[1..])
  {
  }

  // The steps.

  /** Only one thread is in a section, and only one knows a new node. */
  ghost predicate OnlyHead(s: State, t: Thread) {
    forall u: Thread :: u != t ==> !HoldsHead(PcOf(s, u))
  }

  ghost predicate OnlyTail(s: State, t: Thread) {
    forall u: Thread :: u != t ==> !HoldsTail(PcOf(s, u))
  }

  ghost predicate OnlyOwner(s: State, t: Thread, n: Addr) {
    forall u: Thread :: u != t ==> Owned(PcOf(s, u)) != Some(n)
  }

  lemma HeadIsMine(s: State, t: Thread)
    requires LocksOk(s) && HoldsHead(PcOf(s, t))
    ensures OnlyHead(s, t)
  {
    assert s.headLock == Some(t);
  }

  lemma TailIsMine(s: State, t: Thread)
    requires LocksOk(s) && HoldsTail(PcOf(s, t))
    ensures OnlyTail(s, t)
  {
    assert s.tailLock == Some(t);
  }

  lemma NodeIsMine(s: State, t: Thread, n: Addr)
    requires Apart(s) && Owned(PcOf(s, t)) == Some(n)
    ensures OnlyOwner(s, t, n)
  {
  }

  ghost predicate Moves(s: State, s': State, t: Thread, pc: Pc) {
    s'.pcs == s.pcs[t := pc]
  }

  /** What the others rely on, and what the thread itself relies on at its new place. */
  lemma Together(s: State, s': State, nodes': seq<Addr>, t: Thread, pc: Pc)
    requires nodes' != [] && nodes'[0] == s'.head && Moves(s, s', t, pc) && Linked(s'.heap, nodes', Deque(s'.history))
    requires PcOk(pc, s'.heap, nodes', Deque(s'.history))
    requires forall u: Thread :: u != t ==> PcOk(PcOf(s, u), s'.heap, nodes', Deque(s'.history))
    ensures MemoryOk(s', nodes')
  {
    hide Deque, Linked, PcOk;
    forall u: Thread ensures PcOk(PcOf(s', u), s'.heap, nodes', Deque(s'.history)) {
      assert PcOf(s', u) == if u == t then pc else PcOf(s, u);
    }
  }

  /** A step that changes the place of one thread and nothing in the memory. */
  lemma QuietMemory(s: State, s': State, nodes: seq<Addr>, t: Thread, pc: Pc)
    requires MemoryOk(s, nodes) && Moves(s, s', t, pc)
    requires s'.heap == s.heap && s'.head == s.head && Deque(s'.history) == Deque(s.history)
    requires PcOk(pc, s.heap, nodes, Deque(s.history))
    ensures MemoryOk(s', nodes)
  {
    hide Deque, Linked, PcOk;
    Together(s, s', nodes, t, pc);
  }

  lemma QuietStep(s: State, s': State, nodes: seq<Addr>, t: Thread, pc: Pc)
    requires Inv(s, nodes) && Moves(s, s', t, pc)
    requires s'.heap == s.heap && s'.head == s.head && Deque(s'.history) == Deque(s.history)
    requires PcOk(pc, s.heap, nodes, Deque(s.history)) && (Owned(pc) == None || Owned(pc) == Owned(PcOf(s, t)))
    requires TailOk(s', nodes) && LocksOk(s') && HistoryOk(s')
    ensures Inv(s', nodes)
  {
    hide Deque, PcOk, LocksOk, HistoryOk, TailOk;
    ApartStays(s, s', t, pc);
    QuietMemory(s, s', nodes, t, pc);
  }

  /** An address that is not allocated is not in the list and not owned. */
  lemma NewIsUnknown(s: State, nodes: seq<Addr>, t: Thread, n: Addr)
    requires MemoryOk(s, nodes) && n !in s.heap
    ensures n !in nodes && OnlyOwner(s, t, n)
  {
    hide Deque;
    assert forall i :: 0 <= i < |nodes| ==> nodes[i] in s.heap;
    assert forall u: Thread :: PcOk(PcOf(s, u), s.heap, nodes, Deque(s.history));
  }

  /** A change of one node that is not in the list and that no other thread knows. */
  lemma PrivateMemory(s: State, s': State, nodes: seq<Addr>, t: Thread, pc: Pc, n: Addr)
    requires MemoryOk(s, nodes) && Moves(s, s', t, pc) && OnlyOwner(s, t, n) && n !in nodes
    requires s'.head == s.head && Deque(s'.history) == Deque(s.history) && s'.heap - {n} == s.heap - {n}
    requires PcOk(pc, s'.heap, nodes, Deque(s.history))
    ensures MemoryOk(s', nodes)
  {
    hide Deque;
    var d := Deque(s.history);
    assert forall a :: a != n ==> (a in s.heap <==> a in s.heap - {n}) && (a in s'.heap <==> a in s'.heap - {n});
    assert forall a :: a != n && a in s.heap ==> a in s'.heap && s'.heap[a] == (s'.heap - {n})[a];
    InHeap(s.heap, nodes, d);
    LinkedFrame(s.heap, s'.heap, nodes, d);
    forall u: Thread | u != t ensures PcOk(PcOf(s, u), s'.heap, nodes, d) {
      PcFrame(PcOf(s, u), s.heap, s'.heap, nodes, d);
    }
    Together(s, s', nodes, t, pc);
  }

  lemma InHeap(heap: map<Addr, Node>, nodes: seq<Addr>, d: seq<Value>)
    requires Linked(heap, nodes, d)
    ensures forall a :: a in nodes ==> a in heap
  {
  }

  /** The locks stay with whom they are, and the thread owns what it owned, nothing, or something new. */
  lemma ControlStays(s: State, s': State, nodes: seq<Addr>, nodes': seq<Addr>, t: Thread, pc: Pc)
    requires LocksOk(s) && Apart(s) && nodes != [] && TailOk(s, nodes) && nodes' != []
    requires nodes'[|nodes'| - 1] == nodes[|nodes| - 1] && !pc.AddLinked? && !PcOf(s, t).AddLinked?
    requires Moves(s, s', t, pc) && s'.headLock == s.headLock && s'.tailLock == s.tailLock && s'.tail == s.tail
    requires HoldsHead(pc) == HoldsHead(PcOf(s, t)) && HoldsTail(pc) == HoldsTail(PcOf(s, t))
    requires Owned(pc) == None || Owned(pc) == Owned(PcOf(s, t)) || OnlyOwner(s, t, Owned(pc).value)
    ensures LocksOk(s') && Apart(s') && TailOk(s', nodes')
  {
    LocksStay(s, s', t, pc);
    ApartStays(s, s', t, pc);
  }

  lemma NewOk(heap: map<Addr, Node>, nodes: seq<Addr>, d: seq<Value>, pc: Pc, n: Addr)
    requires nodes != [] && n in heap && n !in nodes
    requires (pc.PushReady? && pc.n == n) || (pc.AddReady? && pc.n == n && heap[n] == Node(None, Some(pc.v)))
    ensures PcOk(pc, heap, nodes, d)
  {
  }

  /** A call with a new node: the address may be one that was freed before, but nobody knows it now. */
  lemma AllocStep(s: State, s': State, nodes: seq<Addr>, t: Thread, pc: Pc, n: Addr, node: Node)
    requires Inv(s, nodes) && PcOf(s, t) == Idle && n !in s.heap
    requires Moves(s, s', t, pc) && s'.heap == s.heap[n := node] && s'.head == s.head && s'.tail == s.tail
    requires s'.headLock == s.headLock && s'.tailLock == s.tailLock && Deque(s'.history) == Deque(s.history)
    requires pc.PushReady? || (pc.AddReady? && node == Node(None, Some(pc.v)))
    requires pc.n == n && HistoryOk(s')
    ensures Inv(s', nodes)
  {
    hide Deque, HistoryOk, Linked, ThreadsOk, PcOk, LocksOk, Apart, TailOk, OnlyHead, OnlyTail, OnlyOwner;
    NewIsUnknown(s, nodes, t, n);
    ControlStays(s, s', nodes, nodes, t, pc);
    NewOk(s'.heap, nodes, Deque(s.history), pc, n);
    PrivateMemory(s, s', nodes, t, pc, n);
  }

  /** `_tail->next = node`: the add takes effect. */
  lemma LinkMemory(s: State, s': State, nodes: seq<Addr>, t: Thread, n: Addr, v: Value)
    requires MemoryOk(s, nodes) && PcOf(s, t) == AddLocked(n, v) && OnlyTail(s, t) && OnlyOwner(s, t, n)
    requires s'.heap == Appended(s.heap, nodes[|nodes| - 1], n) && Moves(s, s', t, AddLinked(n, v))
    requires s'.head == s.head && Deque(s'.history) == Deque(s.history) + [v]
    ensures MemoryOk(s', nodes + [n])
  {
    hide Deque;
    var d := Deque(s.history);
    assert PcOk(PcOf(s, t), s.heap, nodes, d);
    LinkedAppend(s.heap, nodes, d, n, v);
    forall u: Thread | u != t ensures PcOk(PcOf(s, u), s'.heap, nodes + [n], d + [v]) {
      PcAppend(PcOf(s, u), s.heap, nodes, d, n, v);
    }
    Together(s, s', nodes + [n], t, AddLinked(n, v));
  }

  /** The tail that an add dereferences is the last node. */
  lemma TailIsLast(s: State, nodes: seq<Addr>, t: Thread, n: Addr, v: Value)
    requires Inv(s, nodes) && PcOf(s, t) == AddLocked(n, v)
    ensures s.tail == nodes[|nodes| - 1] && s.tail in s.heap
  {
    hide Deque, HistoryOk, StatusOf;
    assert s.tailLock == Some(t);
  }

  lemma LinkHistory(s: State, s': State, t: Thread, n: Addr, v: Value)
    requires HistoryOk(s) && PcOf(s, t) == AddLocked(n, v) && AddStep(s, t, PcOf(s, t)) == Next(s')
    ensures HistoryOk(s') && Deque(s'.history) == Deque(s.history) + [v]
  {
    var e := Effect(t, Add(v), Done);
    LoggedHistory(s, s', t, AddLinked(n, v), e);
    HistoryExtends(s.history, e);
  }

  lemma LinkControl(s: State, s': State, nodes': seq<Addr>, t: Thread, n: Addr, v: Value)
    requires LocksOk(s) && Apart(s) && nodes' != []
    requires PcOf(s, t) == AddLocked(n, v) && Moves(s, s', t, AddLinked(n, v))
    requires s'.headLock == s.headLock && s'.tailLock == s.tailLock
    ensures LocksOk(s') && Apart(s') && TailOk(s', nodes')
  {
    assert s.tailLock == Some(t);
    LocksStay(s, s', t, AddLinked(n, v));
    ApartStays(s, s', t, AddLinked(n, v));
  }

  lemma {:induction false} LinkStep(s: State, s': State, nodes: seq<Addr>, t: Thread, n: Addr, v: Value)
    requires Inv(s, nodes) && PcOf(s, t) == AddLocked(n, v) && AddStep(s, t, PcOf(s, t)) == Next(s')
    ensures Inv(s', nodes + [n])
  {
    hide Deque, HistoryOk, Linked, ThreadsOk, PcOk, LocksOk, Apart, TailOk, OnlyHead, OnlyTail, OnlyOwner;
    TailIsLast(s, nodes, t, n, v);
    LinkHistory(s, s', t, n, v);
    LinkControl(s, s', nodes + [n], t, n, v);
    TailIsMine(s, t);
    NodeIsMine(s, t, n);
    LinkMemory(s, s', nodes, t, n, v);
  }

  /** `_head->data = ptr` */
  lemma StoreMemory(s: State, s': State, nodes: seq<Addr>, t: Thread, n: Addr, v: Value)
    requires MemoryOk(s, nodes) && PcOf(s, t) == PushLocked(n, v) && OnlyHead(s, t)
    requires s.head in s.heap && s'.heap == Stored(s.heap, s.head, v) && Moves(s, s', t, PushStored(n, v))
    requires s'.head == s.head && Deque(s'.history) == Deque(s.history)
    ensures MemoryOk(s', nodes)
  {
    hide Deque;
    var d := Deque(s.history);
    assert PcOk(PcOf(s, t), s.heap, nodes, d);
    LinkedStore(s.heap, nodes, d, v);
    forall u: Thread | u != t ensures PcOk(PcOf(s, u), s'.heap, nodes, d) {
      PcStore(PcOf(s, u), s.heap, nodes, d, v);
    }
    Together(s, s', nodes, t, PushStored(n, v));
  }

  lemma QuietHistory(s: State, s': State, t: Thread, pc: Pc)
    requires HistoryOk(s) && s'.history == s.history && Moves(s, s', t, pc)
    requires StatusOf(pc) == StatusOf(PcOf(s, t))
    ensures HistoryOk(s') && Deque(s'.history) == Deque(s.history)
  {
    SilentHistory(s, s', t, pc);
  }

  lemma StoreStep(s: State, s': State, nodes: seq<Addr>, t: Thread, n: Addr, v: Value)
    requires Inv(s, nodes) && PcOf(s, t) == PushLocked(n, v) && PushStep(s, t, PcOf(s, t)) == Next(s')
    ensures Inv(s', nodes)
  {
    hide Deque, HistoryOk, Linked, ThreadsOk, PcOk, LocksOk, Apart, TailOk, OnlyHead, OnlyTail, OnlyOwner;
    QuietHistory(s, s', t, PushStored(n, v));
    HeadIsMine(s, t);
    ControlStays(s, s', nodes, nodes, t, PushStored(n, v));
    StoreMemory(s, s', nodes, t, n, v);
  }

  /** `node->next = _head` */
  lemma LinkedHeadKnown(s: State, s': State, nodes: seq<Addr>, t: Thread, n: Addr, v: Value)
    requires MemoryOk(s, nodes) && PcOf(s, t) == PushStored(n, v) && PushStep(s, t, PcOf(s, t)) == Next(s')
    ensures n !in nodes && PcOk(PushLinked(n, v), s'.heap, nodes, Deque(s.history))
  {
    hide Deque;
    assert PcOk(PcOf(s, t), s.heap, nodes, Deque(s.history));
  }

  lemma LinkHeadStep(s: State, s': State, nodes: seq<Addr>, t: Thread, n: Addr, v: Value)
    requires Inv(s, nodes) && PcOf(s, t) == PushStored(n, v) && PushStep(s, t, PcOf(s, t)) == Next(s')
    ensures Inv(s', nodes)
  {
    hide Deque, HistoryOk, Linked, ThreadsOk, PcOk, LocksOk, Apart, TailOk, OnlyHead, OnlyTail, OnlyOwner;
    QuietHistory(s, s', t, PushLinked(n, v));
    LinkedHeadKnown(s, s', nodes, t, n, v);
    NodeIsMine(s, t, n);
    ControlStays(s, s', nodes, nodes, t, PushLinked(n, v));
    PrivateMemory(s, s', nodes, t, PushLinked(n, v), n);
  }

  /** `_head = node`: the push takes effect. */
  lemma PushMemory(s: State, s': State, nodes: seq<Addr>, t: Thread, n: Addr, v: Value)
    requires MemoryOk(s, nodes) && PcOf(s, t) == PushLinked(n, v) && OnlyHead(s, t) && OnlyOwner(s, t, n)
    requires s'.heap == s.heap && Moves(s, s', t, PushDone(v))
    requires s'.head == n && Deque(s'.history) == [v] + Deque(s.history)
    ensures MemoryOk(s', [n] + nodes)
  {
    hide Deque;
    var d := Deque(s.history);
    assert PcOk(PcOf(s, t), s.heap, nodes, d);
    LinkedPrepend(s.heap, nodes, d, n, v);
    forall u: Thread | u != t ensures PcOk(PcOf(s, u), s'.heap, [n] + nodes, [v] + d) {
      PcPrepend(PcOf(s, u), s.heap, nodes, d, n, v);
    }
    Together(s, s', [n] + nodes, t, PushDone(v));
  }

  lemma PushHistory(s: State, s': State, t: Thread, n: Addr, v: Value)
    requires HistoryOk(s) && PcOf(s, t) == PushLinked(n, v) && PushStep(s, t, PcOf(s, t)) == Next(s')
    ensures HistoryOk(s') && Deque(s'.history) == [v] + Deque(s.history)
  {
    var e := Effect(t, Push(v), Done);
    LoggedHistory(s, s', t, PushDone(v), e);
    HistoryExtends(s.history, e);
  }

  lemma PushHeadStep(s: State, s': State, nodes: seq<Addr>, t: Thread, n: Addr, v: Value)
    requires Inv(s, nodes) && PcOf(s, t) == PushLinked(n, v) && PushStep(s, t, PcOf(s, t)) == Next(s')
    ensures Inv(s', [n] + nodes)
  {
    hide Deque, HistoryOk, Linked, ThreadsOk, PcOk, LocksOk, Apart, TailOk, OnlyHead, OnlyTail, OnlyOwner;
    PushHistory(s, s', t, n, v);
    HeadIsMine(s, t);
    NodeIsMine(s, t, n);
    ControlStays(s, s', nodes, [n] + nodes, t, PushDone(v));
    PushMemory(s, s', nodes, t, n, v);
  }

  lemma GetKnows(s: State, nodes: seq<Addr>, t: Thread, node: Addr, next: Addr, data: Option<Value>)
    requires MemoryOk(s, nodes) && PcOf(s, t) == GetData(node, next, data)
    ensures Deque(s.history) != [] && |nodes| > 1 && node == nodes[0] && next == nodes[1]
    ensures node in s.heap && data == Some(Deque(s.history)[0])
  {
    hide Deque;
    assert PcOk(PcOf(s, t), s.heap, nodes, Deque(s.history));
  }

  lemma HeadIsUnowned(s: State, nodes: seq<Addr>, t: Thread)
    requires MemoryOk(s, nodes)
    ensures OnlyOwner(s, t, s.head)
  {
    hide Deque;
    assert forall u: Thread :: PcOk(PcOf(s, u), s.heap, nodes, Deque(s.history));
  }

  /** `_head = next`: the get takes effect; the old head is now known to this thread alone. */
  lemma GetMemory(s: State, s': State, nodes: seq<Addr>, t: Thread, pc: Pc)
    requires MemoryOk(s, nodes) && |nodes| > 1 && Deque(s.history) != [] && OnlyHead(s, t)
    requires pc.GetMoved? && pc.node == nodes[0] && s'.heap == s.heap && Moves(s, s', t, pc)
    requires s'.head == nodes[1] && Deque(s'.history) == Deque(s.history)[1..]
    ensures MemoryOk(s', nodes[1..])
  {
    hide Deque;
    var d := Deque(s.history);
    LinkedRemove(s.heap, nodes, d);
    forall u: Thread | u != t ensures PcOk(PcOf(s, u), s'.heap, nodes[1..], d[1..]) {
      PcRemove(PcOf(s, u), s.heap, nodes, d);
    }
    Together(s, s', nodes[1..], t, pc);
  }

  lemma GetHistory(s: State, s': State, t: Thread, node: Addr, next: Addr, data: Option<Value>)
    requires HistoryOk(s) && PcOf(s, t) == GetData(node, next, data) && GetStep(s, t, PcOf(s, t)) == Next(s')
    requires Deque(s.history) != [] && data == Some(Deque(s.history)[0])
    ensures HistoryOk(s') && Deque(s'.history) == Deque(s.history)[1..]
  {
    var e := Effect(t, Get, Got(data));
    LoggedHistory(s, s', t, GetMoved(node, data), e);
    HistoryExtends(s.history, e);
  }

  lemma {:induction false} GetHeadStep(s: State, s': State, nodes: seq<Addr>, t: Thread, node: Addr, next: Addr,
                                       data: Option<Value>)
    requires Inv(s, nodes) && PcOf(s, t) == GetData(node, next, data) && GetStep(s, t, PcOf(s, t)) == Next(s')
    ensures nodes != [] && Inv(s', nodes[1..])
  {
    hide Deque, HistoryOk, Linked, ThreadsOk, PcOk, LocksOk, Apart, TailOk, OnlyHead, OnlyTail, OnlyOwner;
    var pc := GetMoved(node, data);
    GetKnows(s, nodes, t, node, next, data);
    GetHistory(s, s', t, node, next, data);
    HeadIsMine(s, t);
    HeadIsUnowned(s, nodes, t);
    ControlStays(s, s', nodes, nodes[1..], t, pc);
    GetMemory(s, s', nodes, t, pc);
  }

  lemma FreedKnown(s: State, nodes: seq<Addr>, t: Thread, node: Addr, data: Option<Value>)
    requires MemoryOk(s, nodes) && PcOf(s, t) == GetMoved(node, data)
    ensures node in s.heap && node !in nodes
  {
    hide Deque;
    assert PcOk(PcOf(s, t), s.heap, nodes, Deque(s.history));
  }

  /** Places at which nothing is relied on. */
  lemma PlainOk(heap: map<Addr, Node>, nodes: seq<Addr>, d: seq<Value>, pc: Pc)
    requires nodes != [] && Owned(pc) == None && !pc.AddLinked? && !pc.GetNext? && !pc.GetData?
    ensures PcOk(pc, heap, nodes, d)
  {
  }

  /** `free(node)`: also while `_tail` still points to it. */
  lemma {:induction false} FreeStep(s: State, s': State, nodes: seq<Addr>, t: Thread, node: Addr, data: Option<Value>)
    requires Inv(s, nodes) && PcOf(s, t) == GetMoved(node, data) && GetStep(s, t, PcOf(s, t)) == Next(s')
    ensures Inv(s', nodes)
  {
    hide Deque, HistoryOk, Linked, ThreadsOk, PcOk, LocksOk, Apart, TailOk, OnlyHead, OnlyTail, OnlyOwner;
    QuietHistory(s, s', t, GetDone(data));
    FreedKnown(s, nodes, t, node, data);
    NodeIsMine(s, t, node);
    ControlStays(s, s', nodes, nodes, t, GetDone(data));
    PlainOk(s'.heap, nodes, Deque(s.history), GetDone(data));
    PrivateMemory(s, s', nodes, t, GetDone(data), node);
  }

  /** Taking the head lock. */
  lemma TakeHeadStep(s: State, s': State, nodes: seq<Addr>, t: Thread, pc: Pc)
    requires Inv(s, nodes) && TakeHead(s, t, pc) == Next(s')
    requires HoldsHead(pc) && !HoldsTail(pc) && !HoldsTail(PcOf(s, t)) && StatusOf(pc) == StatusOf(PcOf(s, t))
    requires PcOk(pc, s.heap, nodes, Deque(s.history)) && (Owned(pc) == None || Owned(pc) == Owned(PcOf(s, t)))
    ensures Inv(s', nodes)
  {
    SilentHistory(s, s', t, pc);
    hide Deque, HistoryOk, StatusOf, Linked, PcOk;
    HeadLockMoves(s, s', t, pc);
    QuietStep(s, s', nodes, t, pc);
  }

  /** Leaving the head lock and returning. */
  lemma LeaveHeadStep(s: State, s': State, nodes: seq<Addr>, t: Thread, op: Op, res: Res)
    requires Inv(s, nodes) && LeaveHead(s, t, op, res) == Next(s')
    requires HoldsHead(PcOf(s, t)) && !HoldsTail(PcOf(s, t)) && StatusOf(PcOf(s, t)) == Effective(op, res)
    ensures Inv(s', nodes)
  {
    var e := Return(t, op, res);
    LoggedHistory(s, s', t, Idle, e);
    HistoryExtends(s.history, e);
    hide Deque, HistoryOk, StatusOf, Linked;
    HeadLockMoves(s, s', t, Idle);
    QuietStep(s, s', nodes, t, Idle);
  }

  /** A step under the head lock that only reads. */
  lemma ReadStep(s: State, s': State, nodes: seq<Addr>, t: Thread, pc: Pc)
    requires Inv(s, nodes) && s' == At(s, t, pc) && StatusOf(pc) == StatusOf(PcOf(s, t))
    requires HoldsHead(pc) && HoldsHead(PcOf(s, t)) && Owned(pc) == None
    requires PcOk(pc, s.heap, nodes, Deque(s.history))
    ensures Inv(s', nodes)
  {
    SilentHistory(s, s', t, pc);
    hide Deque, HistoryOk, StatusOf, Linked, PcOk;
    LocksStay(s, s', t, pc);
    QuietStep(s, s', nodes, t, pc);
  }

  /** A read under the head lock by which an operation takes effect without changing the deque. */
  lemma EffectStep(s: State, s': State, nodes: seq<Addr>, t: Thread, op: Op, res: Res, pc: Pc)
    requires Inv(s, nodes) && s' == At(Log(s, Effect(t, op, res)), t, pc)
    requires StatusOf(PcOf(s, t)) == Called(op) && StatusOf(pc) == Effective(op, res)
    requires res == Result(Deque(s.history), op) && After(Deque(s.history), op) == Deque(s.history)
    requires HoldsHead(pc) && HoldsHead(PcOf(s, t)) && Owned(pc) == None && !pc.GetNext? && !pc.GetData?
    ensures Inv(s', nodes)
  {
    var e := Effect(t, op, res);
    LoggedHistory(s, s', t, pc, e);
    HistoryExtends(s.history, e);
    hide Deque, HistoryOk, StatusOf, Linked;
    LocksStay(s, s', t, pc);
    QuietStep(s, s', nodes, t, pc);
  }

  /** The head's link tells whether the deque is empty. */
  lemma HeadLink(s: State, nodes: seq<Addr>)
    requires Inv(s, nodes)
    ensures s.head in s.heap && s.heap[s.head].next == Follower(nodes, 0)
    ensures Deque(s.history) == [] <==> |nodes| == 1
    ensures |nodes| > 1 ==> nodes[1] in s.heap && s.heap[nodes[1]].data == Some(Deque(s.history)[0])
  {
    hide Deque, HistoryOk;
    assert nodes[0] in s.heap && s.heap[nodes[0]].next == Follower(nodes, 0);
  }

  lemma LockTailStep(s: State, s': State, nodes: seq<Addr>, t: Thread, n: Addr, v: Value)
    requires Inv(s, nodes) && PcOf(s, t) == AddReady(n, v) && AddStep(s, t, PcOf(s, t)) == Next(s')
    ensures Inv(s', nodes)
  {
    var pc := AddLocked(n, v);
    SilentHistory(s, s', t, pc);
    hide Deque, HistoryOk, StatusOf, Linked;
    TailLockMoves(s, s', t, pc);
    QuietStep(s, s', nodes, t, pc);
  }

  /** `_tail = node` */
  lemma SwingStep(s: State, s': State, nodes: seq<Addr>, t: Thread, n: Addr, v: Value)
    requires Inv(s, nodes) && PcOf(s, t) == AddLinked(n, v) && AddStep(s, t, PcOf(s, t)) == Next(s')
    ensures Inv(s', nodes)
  {
    var pc := AddDone(v);
    SilentHistory(s, s', t, pc);
    hide Deque, HistoryOk, StatusOf, Linked;
    TailLockMoves(s, s', t, pc);
    QuietStep(s, s', nodes, t, pc);
  }

  lemma LeaveTailStep(s: State, s': State, nodes: seq<Addr>, t: Thread, v: Value)
    requires Inv(s, nodes) && PcOf(s, t) == AddDone(v) && AddStep(s, t, PcOf(s, t)) == Next(s')
    ensures Inv(s', nodes)
  {
    var e := Return(t, Add(v), Done);
    LoggedHistory(s, s', t, Idle, e);
    HistoryExtends(s.history, e);
    hide Deque, HistoryOk, StatusOf, Linked;
    TailLockMoves(s, s', t, Idle);
    QuietStep(s, s', nodes, t, Idle);
  }
}
