/**
 * The two-lock queue as interleaved steps: every read or write of a shared pointer is a step of its own, nodes are
 * allocated and freed, and freed addresses may be given out again.
 */
module Queue {
  import opened Options

  type Thread = nat
  type Addr = nat
  /** What the queue carries: pointers that are not NULL. */
  type Value = nat

  datatype Node = Node(next: Option<Addr>, data: Option<Value>)

  // The deque that the queue stands for.

  datatype Op = Add(v: Value) | Push(v: Value) | Get | Empty

  /** What an operation returns: `queue_get` a pointer or NULL, `queue_empty` a truth value, the others success. */
  datatype Res = Done | Got(ptr: Option<Value>) | Is(empty: bool)

  function Result(d: seq<Value>, op: Op): Res {
    match op
    case Add(_) => Done
    case Push(_) => Done
    case Get => Got(if d == [] then None else Some(d[0]))
    case Empty => Is(d == [])
  }

  function After(d: seq<Value>, op: Op): seq<Value> {
    match op
    case Add(v) => d + [v]
    case Push(v) => [v] + d
    case Get => if d == [] then d else d[1..]
    case Empty => d
  }

  /** What happens in a run: a call, the moment an operation takes effect, a return. */
  datatype Event = Call(t: Thread, op: Op) | Effect(t: Thread, op: Op, res: Res) | Return(t: Thread, op: Op, res: Res)

  /** The deque after the effects of a history. */
  function Deque(h: seq<Event>): seq<Value> {
    if h == [] then []
    else
      var d := Deque(h[..|h| - 1]);
      if h[|h| - 1].Effect? then After(d, h[|h| - 1].op) else d
  }

  /** Every effect has the result that the deque gives at that moment. */
  ghost predicate Legal(h: seq<Event>) {
    h == [] ||
    (Legal(h[..|h| - 1]) &&
     (h[|h| - 1].Effect? ==> h[|h| - 1].res == Result(Deque(h[..|h| - 1]), h[|h| - 1].op)))
  }

  /** Where a thread stands, by the events of a history; `Broken` when they are out of order. */
  datatype Status = Out | Called(op: Op) | Effective(op: Op, res: Res) | Broken

  function Advance(s: Status, e: Event): Status {
    match e
    case Call(_, op) => if s == Out then Called(op) else Broken
    case Effect(_, op, res) => if s == Called(op) then Effective(op, res) else Broken
    case Return(_, op, res) => if s == Effective(op, res) then Out else Broken
  }

  function StatusIn(h: seq<Event>, t: Thread): Status {
    if h == [] then Out
    else
      var s := StatusIn(h[..|h| - 1], t);
      if h[|h| - 1].t == t then Advance(s, h[|h| - 1]) else s
  }

  /**
   * A history is linearizable: between its call and its return every operation takes effect exactly once, with the
   * result it returns, and the effects in their order are a legal sequence of operations on one deque.
   */
  ghost predicate Linearizable(h: seq<Event>) {
    Legal(h) && forall t :: StatusIn(h, t) != Broken
  }

  // The threads.

  /** Where a thread is in its operation; what follows the last step under a lock is the unlock and the return. */
  datatype Pc =
    | Idle
    | AddReady(n: Addr, v: Value)
    | AddLocked(n: Addr, v: Value)
    | AddLinked(n: Addr, v: Value)
    | AddDone(v: Value)
    | PushReady(n: Addr, v: Value)
    | PushLocked(n: Addr, v: Value)
    | PushStored(n: Addr, v: Value)
    | PushLinked(n: Addr, v: Value)
    | PushDone(v: Value)
    | GetReady
    | GetLocked
    | GetNext(node: Addr, next: Addr)
    | GetData(node: Addr, next: Addr, data: Option<Value>)
    | GetMoved(node: Addr, data: Option<Value>)
    | GetDone(data: Option<Value>)
    | EmptyReady
    | EmptyLocked
    | EmptyDone(b: bool)

  datatype State = State(
    heap: map<Addr, Node>, head: Addr, tail: Addr,
    headLock: Option<Thread>, tailLock: Option<Thread>,
    pcs: map<Thread, Pc>, history: seq<Event>)

  function PcOf(s: State, t: Thread): Pc {
    if t in s.pcs then s.pcs[t] else Idle
  }

  function At(s: State, t: Thread, pc: Pc): State {
    s.(pcs := s.pcs[t := pc])
  }

  function Log(s: State, e: Event): State {
    s.(history := s.history + [e])
  }

  /** The outcome of a step; a crash is the use of a node that is not allocated. */
  datatype Outcome = Next(s: State) | Blocked | Crash

  /** The next step of a thread: an idle one starts an operation, with the address that `malloc` gives it. */
  datatype Choice = Choice(t: Thread, op: Op, addr: Addr)

  function Begin(s: State, c: Choice): Outcome {
    var l := Log(s, Call(c.t, c.op));
    match c.op
    case Add(v) =>
      if c.addr in s.heap then Blocked
      else Next(At(l, c.t, AddReady(c.addr, v)).(heap := s.heap[c.addr := Node(None, Some(v))]))
    case Push(v) =>
      if c.addr in s.heap then Blocked
      else Next(At(l, c.t, PushReady(c.addr, v)).(heap := s.heap[c.addr := Node(None, None)]))
    case Get => Next(At(l, c.t, GetReady))
    case Empty => Next(At(l, c.t, EmptyReady))
  }

  function TakeHead(s: State, t: Thread, pc: Pc): Outcome {
    if s.headLock == None then Next(At(s, t, pc).(headLock := Some(t))) else Blocked
  }

  function LeaveHead(s: State, t: Thread, op: Op, res: Res): Outcome {
    Next(At(Log(s, Return(t, op, res)), t, Idle).(headLock := None))
  }

  /** `queue_add` */
  function AddStep(s: State, t: Thread, pc: Pc): Outcome {
    match pc
    case AddReady(n, v) =>
      if s.tailLock == None then Next(At(s, t, AddLocked(n, v)).(tailLock := Some(t))) else Blocked
    case AddLocked(n, v) =>
      if s.tail in s.heap then
        Next(At(Log(s, Effect(t, Add(v), Done)), t, AddLinked(n, v))
             .(heap := s.heap[s.tail := s.heap[s.tail].(next := Some(n))]))
      else Crash
    case AddLinked(n, v) => Next(At(s, t, AddDone(v)).(tail := n))
    case AddDone(v) => Next(At(Log(s, Return(t, Add(v), Done)), t, Idle).(tailLock := None))
    case _ => Blocked
  }

  /** `queue_push` */
  function PushStep(s: State, t: Thread, pc: Pc): Outcome {
    match pc
    case PushReady(n, v) => TakeHead(s, t, PushLocked(n, v))
    case PushLocked(n, v) =>
      if s.head in s.heap then
        Next(At(s, t, PushStored(n, v)).(heap := s.heap[s.head := s.heap[s.head].(data := Some(v))]))
      else Crash
    case PushStored(n, v) =>
      if n in s.heap then
        Next(At(s, t, PushLinked(n, v)).(heap := s.heap[n := s.heap[n].(next := Some(s.head))]))
      else Crash
    case PushLinked(n, v) => Next(At(Log(s, Effect(t, Push(v), Done)), t, PushDone(v)).(head := n))
    case PushDone(v) => LeaveHead(s, t, Push(v), Done)
    case _ => Blocked
  }

  /** `queue_get` */
  function GetStep(s: State, t: Thread, pc: Pc): Outcome {
    match pc
    case GetReady => TakeHead(s, t, GetLocked)
    case GetLocked =>
      if s.head in s.heap then
        var next := s.heap[s.head].next;
        if next == None then Next(At(Log(s, Effect(t, Get, Got(None))), t, GetDone(None)))
        else Next(At(s, t, GetNext(s.head, next.value)))
      else Crash
    case GetNext(node, next) =>
      if next in s.heap then Next(At(s, t, GetData(node, next, s.heap[next].data))) else Crash
    case GetData(node, next, data) =>
      Next(At(Log(s, Effect(t, Get, Got(data))), t, GetMoved(node, data)).(head := next))
    case GetMoved(node, data) =>
      if node in s.heap then Next(At(s, t, GetDone(data)).(heap := s.heap - {node})) else Crash
    case GetDone(data) => LeaveHead(s, t, Get, Got(data))
    case _ => Blocked
  }

  /** `queue_empty` */
  function EmptyStep(s: State, t: Thread, pc: Pc): Outcome {
    match pc
    case EmptyReady => TakeHead(s, t, EmptyLocked)
    case EmptyLocked =>
      if s.head in s.heap then
        var b := s.heap[s.head].next == None;
        Next(At(Log(s, Effect(t, Empty, Is(b))), t, EmptyDone(b)))
      else Crash
    case EmptyDone(b) => LeaveHead(s, t, Empty, Is(b))
    case _ => Blocked
  }

  predicate InAdd(pc: Pc) {
    pc.AddReady? || pc.AddLocked? || pc.AddLinked? || pc.AddDone?
  }

  predicate InPush(pc: Pc) {
    pc.PushReady? || pc.PushLocked? || pc.PushStored? || pc.PushLinked? || pc.PushDone?
  }

  predicate InGet(pc: Pc) {
    pc.GetReady? || pc.GetLocked? || pc.GetNext? || pc.GetData? || pc.GetMoved? || pc.GetDone?
  }

  function Step(s: State, c: Choice): Outcome {
    var pc := PcOf(s, c.t);
    if pc == Idle then Begin(s, c)
    else if InAdd(pc) then AddStep(s, c.t, pc)
    else if InPush(pc) then PushStep(s, c.t, pc)
    else if InGet(pc) then GetStep(s, c.t, pc)
    else EmptyStep(s, c.t, pc)
  }

  /** `queue_alloc`: one node without data. */
  function Init(dummy: Addr): State {
    State(map[dummy := Node(None, None)], dummy, dummy, None, None, map[], [])
  }

  /** A run: any thread may move at any time; a blocked one waits. */
  function Run(s: State, cs: seq<Choice>): Outcome {
    if cs == [] then Next(s)
    else
      match Run(s, cs[..|cs| - 1])
      case Next(r) => (match Step(r, cs[|cs| - 1]) case Blocked => Next(r) case o => o)
      case o => o
  }
}
