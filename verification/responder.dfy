/**
 * Delivery of queued replies on one socket, as interleaved steps: any thread may queue a reply between two steps of the
 * responder, and every attempt meets its own clock and its own answers of the system.
 */
module Responder {
  import opened Delivery

  /** A queued reply: its number, all its bytes, and what is left of it. */
  datatype Job = Job(id: nat, whole: seq<Unit>, left: Reply)

  /** A byte on the wire, with the reply it comes from. */
  datatype Mark = Mark(id: nat, unit: Unit)

  /** Where the thread is that answers on this socket. */
  datatype Place =
    | Idle                            // nobody has the socket
    | Loop                            // about to take a reply off the queue
    | Hand(job: Job)                  // about to attempt it
    | Waiting(job: Job)               // it is delayed: about to look whether it is alone
    | Rotate(job: Job, alone: bool)   // about to put it at the end of the queue
    | PutBack(job: Job)               // about to put it back in front
    | Complete(job: Job)              // it is sent: about to notify the plugin
    | Closed(lost: seq<Job>)          // the socket is closed, by an error in the middle of a reply or after one

  /** `out` are the replies that left the queue for good, `done` those of them that were sent completely. */
  datatype State = State(
    owner: nat, queue: seq<Job>, place: Place, wire: seq<Mark>, clock: nat,
    queued: seq<Job>, out: seq<Job>, done: seq<Job>, acks: seq<nat>)

  datatype Choice =
    | Queue(r: Reply)
    | Move(world: World, notify: bool)

  function Marks(id: nat, u: seq<Unit>): (m: seq<Mark>)
    ensures |m| == |u|
  {
    if u == [] then [] else Marks(id, u[..|u| - 1]) + [Mark(id, u[|u| - 1])]
  }

  /** `server_send_reply` */
  function QueueStep(s: State, r: Reply): State {
    var job := Job(|s.queued|, Remaining(r), r);
    s.(queue := s.queue + [job], queued := s.queued + [job])
  }

  /** What follows an attempt. */
  function Judge(s: State, job: Job, code: int): State {
    if code == EPARAM then s.(place := Idle, out := s.out + [job])
    else if code == EDELAY then s.(place := Waiting(job))
    else if code == EFATAL then s.(place := Closed([job]))
    else if code == EAGAIN then s.(place := PutBack(job))
    else s.(place := Complete(job))
  }

  function TryStep(s: State, job: Job, world: World): State {
    var p := Process(job.left, s.owner, world);
    Judge(s.(clock := world.now, wire := s.wire + Marks(job.id, p.sent)), job.(left := p.rest), p.code)
  }

  /** The notification, if the plugin takes it, and the end of the connection, if the reply asks for it. */
  function FinishStep(s: State, job: Job, notify: bool): State {
    s.(out := s.out + [job], done := s.done + [job],
       acks := if job.left.ack && notify then s.acks + [job.id] else s.acks,
       place := if job.left.end then Closed([]) else Loop)
  }

  /** `_server_respond` */
  function MoveStep(s: State, world: World, notify: bool): State {
    match s.place
    case Idle => s.(place := Loop)
    case Loop => if s.queue == [] then s.(place := Idle) else s.(place := Hand(s.queue[0]), queue := s.queue[1..])
    case Hand(job) => TryStep(s, job, world)
    case Waiting(job) => s.(place := Rotate(job, s.queue == []))
    case Rotate(job, alone) => s.(place := if alone then Idle else Loop, queue := s.queue + [job])
    case PutBack(job) => s.(place := Idle, queue := [job] + s.queue)
    case Complete(job) => FinishStep(s, job, notify)
    case Closed(_) => s
  }

  function Step(s: State, c: Choice): State {
    match c
    case Queue(r) => QueueStep(s, r)
    case Move(world, notify) => MoveStep(s, world, notify)
  }

  function Init(owner: nat): State {
    State(owner, [], Idle, [], 0, [], [], [], [])
  }

  function Run(owner: nat, cs: seq<Choice>): State {
    if cs == [] then Init(owner) else Step(Run(owner, cs[..|cs| - 1]), cs[|cs| - 1])
  }

  /** The clock does not go back from one attempt to the next. */
  ghost predicate Monotonic(owner: nat, cs: seq<Choice>) {
    cs == [] ||
    (Monotonic(owner, cs[..|cs| - 1]) &&
     var s := Run(owner, cs[..|cs| - 1]);
     cs[|cs| - 1].Move? && s.place.Hand? ==> s.clock <= cs[|cs| - 1].world.now)
  }

  /** The step is an attempt at a reply that is found waiting although some of it has been sent. */
  ghost predicate WaitsAgain(s: State, c: Choice) {
    c.Move? && s.place.Hand? && Of(s.wire, s.place.job.id) != [] && Waits(s.place.job.left, c.world.now)
  }

  /** No reply that has begun waits again. */
  ghost predicate Steady(owner: nat, cs: seq<Choice>) {
    cs == [] ||
    (Steady(owner, cs[..|cs| - 1]) && !WaitsAgain(Run(owner, cs[..|cs| - 1]), cs[|cs| - 1]))
  }

  // What the wire shows.

  function UnitsOf(wire: seq<Mark>): (u: seq<Unit>)
    ensures |u| == |wire|
  {
    if wire == [] then [] else UnitsOf(wire[..|wire| - 1]) + [wire[|wire| - 1].unit]
  }

  /** The bytes of one reply. */
  function Of(wire: seq<Mark>, id: nat): seq<Unit> {
    if wire == [] then []
    else
      var m := wire[|wire| - 1];
      Of(wire[..|wire| - 1], id) + if m.id == id then [m.unit] else []
  }

  lemma OneMore(wire: seq<Mark>, m: Mark, id: nat)
    ensures Of(wire + [m], id) == Of(wire, id) + if m.id == id then [m.unit] else []
    ensures UnitsOf(wire + [m]) == UnitsOf(wire) + [m.unit]
  {
    assert (wire + [m])[..|wire|] == wire;
  }

  lemma {:induction false} OfAppend(wire: seq<Mark>, n: nat, u: seq<Unit>, id: nat)
    ensures Of(wire + Marks(n, u), id) == Of(wire, id) + if n == id then u else []
  {
    hide Of;
    if u == [] {
      assert wire + Marks(n, u) == wire;
    } else {
      var v, m := u[..|u| - 1], Mark(n, u[|u| - 1]);
      OfAppend(wire, n, v, id);
      assert wire + Marks(n, u) == wire + Marks(n, v) + [m];
      OneMore(wire + Marks(n, v), m, id);
    }
  }

  lemma {:induction false} UnitsOfAppend(wire: seq<Mark>, n: nat, u: seq<Unit>)
    ensures UnitsOf(wire + Marks(n, u)) == UnitsOf(wire) + u
  {
    hide Of, UnitsOf;
    if u == [] {
      assert wire + Marks(n, u) == wire;
    } else {
      var v, m := u[..|u| - 1], Mark(n, u[|u| - 1]);
      UnitsOfAppend(wire, n, v);
      assert wire + Marks(n, u) == wire + Marks(n, v) + [m];
      OneMore(wire + Marks(n, v), m, n);
    }
  }

  /** The replies, one after the other. */
  function Flat(jobs: seq<Job>): seq<Unit> {
    if jobs == [] then [] else Flat(jobs[..|jobs| - 1]) + jobs[|jobs| - 1].whole
  }

  /** The numbers of the replies without a delay. */
  function Prompt(jobs: seq<Job>): seq<nat> {
    if jobs == [] then []
    else Prompt(jobs[..|jobs| - 1]) + if Delayed(jobs[|jobs| - 1].left) then [] else [jobs[|jobs| - 1].id]
  }

  lemma {:induction false} PromptAppend(x: seq<Job>, y: seq<Job>)
    ensures Prompt(x + y) == Prompt(x) + Prompt(y)
  {
    if y == [] {
      assert x + y == x;
    } else {
      PromptAppend(x, y[..|y| - 1]);
      assert (x + y)[..|x| + |y| - 1] == x + y[..|y| - 1];
    }
  }

  lemma PromptOne(job: Job)
    ensures Prompt([job]) == if Delayed(job.left) then [] else [job.id]
  {
    assert [job][..0] == [];
  }
}
