/** What the wire looks like when no reply that has begun waits again, and the results about whole runs. */
module ResponderOrder {
  import opened Delivery
  import opened Responder
  import opened ResponderRuns

  /** The only reply of which a part may be on the wire: in hand, lost, or in front of the queue. */
  function Current(s: State): seq<Job> {
    match s.place
    case Idle => if s.queue == [] then [] else [s.queue[0]]
    case Loop => if s.queue == [] then [] else [s.queue[0]]
    case Hand(job) => [job]
    case Waiting(_) => []
    case Rotate(_, _) => []
    case PutBack(job) => [job]
    case Complete(job) => [job]
    case Closed(lost) => if lost == [] then [] else [lost[0]]
  }

  /** The replies that wait behind it. */
  function Others(s: State): seq<Job> {
    match s.place
    case Idle => if s.queue == [] then [] else s.queue[1..]
    case Loop => if s.queue == [] then [] else s.queue[1..]
    case Hand(_) => s.queue
    case Waiting(job) => [job] + s.queue
    case Rotate(job, _) => [job] + s.queue
    case PutBack(_) => s.queue
    case Complete(_) => s.queue
    case Closed(_) => s.queue
  }

  function Front(wire: seq<Mark>, current: seq<Job>): seq<Unit> {
    if current == [] then [] else Of(wire, current[0].id)
  }

  ghost predicate Untouched(wire: seq<Mark>, jobs: seq<Job>) {
    forall k :: 0 <= k < |jobs| ==> Of(wire, jobs[k].id) == []
  }

  /** A reply that has begun is for this socket. */
  ghost predicate Begun(s: State, job: Job) {
    Of(s.wire, job.id) != [] ==> job.left.token == s.owner
  }

  ghost predicate InOrder(s: State) {
    && UnitsOf(s.wire) == Flat(s.done) + Front(s.wire, Current(s))
    && Untouched(s.wire, Others(s))
    && (Current(s) != [] ==> Begun(s, Current(s)[0]))
  }

  /** The first of several untouched replies becomes the current one. */
  lemma NextCurrent(s: State, s': State, jobs: seq<Job>)
    requires UnitsOf(s'.wire) == Flat(s'.done) && Untouched(s'.wire, jobs)
    requires Current(s') == (if jobs == [] then [] else [jobs[0]])
    requires Others(s') == (if jobs == [] then [] else jobs[1..])
    ensures InOrder(s')
  {
    hide UnitsOf, Flat, Of;
    assert UnitsOf(s'.wire) == Flat(s'.done) + [];
  }

  lemma QueueOrder(s: State, r: Reply)
    requires Inv(s) && InOrder(s)
    ensures InOrder(QueueStep(s, r))
  {
    hide UnitsOf, Flat, Of, Remaining, JobsOk, DoneOk, AcksOk, EndOk, PlaceOk, Distinct, AllInLine, Prompt;
    var s' := QueueStep(s, r);
    assert Of(s.wire, |s.queued|) == [];
    if s.place.Idle? || s.place.Loop? {
      if s.queue == [] {
        assert Flat(s.done) + [] == Flat(s.done);
        NextCurrent(s, s', [s'.queue[0]]);
      } else {
        assert Others(s') == Others(s) + [s'.queue[|s.queue|]];
      }
    } else {
      assert Others(s') == Others(s) + [s'.queue[|s.queue|]];
      assert Current(s') == Current(s);
    }
  }

  /** The replies in the queue are others than the one in hand. */
  lemma QueueIsOther(s: State, job: Job)
    requires Distinct(Line(s)) && Held(s.place) == [job]
    ensures forall k :: 0 <= k < |s.queue| ==> s.queue[k].id != job.id
  {
    assert Line(s)[|s.out|] == job;
    forall k | 0 <= k < |s.queue| ensures s.queue[k].id != job.id {
      assert Line(s)[|s.out| + 1 + k] == s.queue[k];
    }
  }

  lemma TryWire(s: State, job: Job, sent: seq<Unit>)
    requires InOrder(s) && s.place == Hand(job) && Distinct(Line(s))
    ensures var wire := s.wire + Marks(job.id, sent);
      UnitsOf(wire) == Flat(s.done) + Of(wire, job.id) && Untouched(wire, s.queue) &&
      Of(wire, job.id) == Of(s.wire, job.id) + sent
  {
    hide UnitsOf, Flat, Of, Marks;
    QueueIsOther(s, job);
    UnitsOfAppend(s.wire, job.id, sent);
    OfAppend(s.wire, job.id, sent, job.id);
    var wire := s.wire + Marks(job.id, sent);
    forall k | 0 <= k < |s.queue| ensures Of(wire, s.queue[k].id) == [] {
      OfAppend(s.wire, job.id, sent, s.queue[k].id);
    }
  }

  lemma TryOrder(s: State, job: Job, world: World)
    requires Inv(s) && InOrder(s) && s.place == Hand(job) && !WaitsAgain(s, Move(world, false))
    ensures InOrder(TryStep(s, job, world))
  {
    hide UnitsOf, Flat, Of, Marks, Process, Remaining;
    hide JobsOk, AllInLine, Prompt, NoneYet, DoneOk, AcksOk, EndOk, PlaceOk;
    var p := Process(job.left, s.owner, world);
    var s' := TryStep(s, job, world);
    AttemptKeeps(job.left, s.owner, world);
    TryWire(s, job, p.sent);
    if p.code == EPARAM {
      assert Of(s.wire, job.id) == [];
      assert Flat(s.done) + [] == Flat(s.done);
      NextCurrent(s, s', s.queue);
    } else if p.code == EDELAY {
      assert Of(s.wire, job.id) == [];
      RotatesFresh(s'.wire, job.(left := p.rest), s.queue);
    }
  }

  lemma RotatesFresh(wire: seq<Mark>, job: Job, queue: seq<Job>)
    requires Of(wire, job.id) == [] && Untouched(wire, queue)
    ensures Untouched(wire, [job] + queue) && Untouched(wire, queue + [job])
  {
    hide Of;
  }

  lemma RotateOrder(s: State, job: Job, alone: bool, world: World, notify: bool)
    requires InOrder(s) && s.place == Rotate(job, alone)
    ensures InOrder(MoveStep(s, world, notify))
  {
    hide UnitsOf, Flat, Of;
    var s' := MoveStep(s, world, notify);
    assert Untouched(s.wire, s.queue) && Of(s.wire, job.id) == [] by {
      assert Others(s)[0] == job;
      assert forall k :: 0 <= k < |s.queue| ==> s.queue[k] == Others(s)[k + 1];
    }
    RotatesFresh(s.wire, job, s.queue);
    assert Flat(s.done) + [] == Flat(s.done);
    NextCurrent(s, s', s'.queue);
  }

  lemma CompleteIsWhole(s: State, job: Job)
    requires Inv(s) && s.place == Complete(job)
    ensures Of(s.wire, job.id) == job.whole
  {
    hide Of, Remaining, AllInLine, Prompt, NoneYet, DoneOk, AcksOk, EndOk, Distinct;
    assert Line(s)[|s.out|] == job;
    assert JobOk(s.wire, s.queued, job);
    assert Of(s.wire, job.id) + [] == Of(s.wire, job.id);
  }

  lemma FinishOrder(s: State, job: Job, notify: bool)
    requires Inv(s) && InOrder(s) && s.place == Complete(job)
    ensures InOrder(FinishStep(s, job, notify))
  {
    hide UnitsOf, Flat, Of, Inv;
    var s' := FinishStep(s, job, notify);
    CompleteIsWhole(s, job);
    FlatOne(s.done, job);
    if job.left.end {
      assert UnitsOf(s'.wire) == Flat(s'.done) + [];
    } else {
      NextCurrent(s, s', s.queue);
    }
  }

  lemma FlatOne(done: seq<Job>, job: Job)
    ensures Flat(done + [job]) == Flat(done) + job.whole
  {
    assert (done + [job])[..|done|] == done;
  }

  lemma MoveOrder(s: State, world: World, notify: bool)
    requires Inv(s) && InOrder(s) && !WaitsAgain(s, Move(world, notify))
    ensures InOrder(MoveStep(s, world, notify))
  {
    hide UnitsOf, Flat, Of, Inv, TryStep, FinishStep;
    var s' := MoveStep(s, world, notify);
    match s.place
    case Idle =>
    case Loop =>
    case Hand(job) => TryOrder(s, job, world);
    case Waiting(job) =>
    case Rotate(job, alone) => RotateOrder(s, job, alone, world, notify);
    case PutBack(job) => assert s'.queue[1..] == s.queue;
    case Complete(job) => FinishOrder(s, job, notify);
    case Closed(_) =>
  }

  lemma StepOrder(s: State, c: Choice)
    requires Inv(s) && InOrder(s) && !WaitsAgain(s, c)
    ensures InOrder(Step(s, c))
  {
    hide Inv, InOrder, QueueStep, MoveStep;
    match c
    case Queue(r) => QueueOrder(s, r);
    case Move(world, notify) => MoveOrder(s, world, notify);
  }

  lemma {:induction false} RunOrder(owner: nat, cs: seq<Choice>)
    requires Steady(owner, cs)
    ensures InOrder(Run(owner, cs))
  {
    hide Inv, InOrder, Step;
    if cs == [] {
      InitOrder(owner);
    } else {
      RunOrder(owner, cs[..|cs| - 1]);
      RunKeeps(owner, cs[..|cs| - 1]);
      StepOrder(Run(owner, cs[..|cs| - 1]), cs[|cs| - 1]);
    }
  }

  lemma InitOrder(owner: nat)
    ensures InOrder(Init(owner))
  {
  }

  // The results.

  /** Under any clock each byte of each reply goes out at most once, and in order. */
  ghost predicate OnceInOrder(s: State) {
    && (forall id: nat :: id < |s.queued| ==> Of(s.wire, id) <= s.queued[id].whole)
    && (forall k :: 0 <= k < |s.done| ==> Of(s.wire, s.done[k].id) == s.done[k].whole)
  }

  lemma LineOnce(s: State, id: nat)
    requires Inv(s) && id < |s.queued|
    ensures Of(s.wire, id) <= s.queued[id].whole
  {
    hide Of, Remaining, Prompt, NoneYet, DoneOk, AcksOk, EndOk, PlaceOk, Distinct, Line;
    assert InLine(Line(s), id);
    var k :| 0 <= k < |Line(s)| && Line(s)[k].id == id;
    assert JobOk(s.wire, s.queued, Line(s)[k]);
  }

  lemma EachByteOnce(owner: nat, cs: seq<Choice>)
    ensures OnceInOrder(Run(owner, cs))
  {
    hide Run, Inv;
    RunKeeps(owner, cs);
    var s := Run(owner, cs);
    forall id: nat | id < |s.queued| ensures Of(s.wire, id) <= s.queued[id].whole {
      LineOnce(s, id);
    }
    DoneIsWhole(s);
  }

  lemma DoneIsWhole(s: State)
    requires Inv(s)
    ensures forall k :: 0 <= k < |s.done| ==> Of(s.wire, s.done[k].id) == s.done[k].whole
  {
    hide LineOk, AcksOk, EndOk, PlaceOk, Of;
  }

  /**
   * When no reply that has begun waits again, the bytes on the wire are those of the completed replies, one after the
   * other, and then a beginning of at most one more: no other bytes come between those of a reply.
   */
  lemma {:induction false} RepliesAreNotInterleaved(owner: nat, cs: seq<Choice>)
    requires Steady(owner, cs)
    ensures var s := Run(owner, cs);
      |Current(s)| <= 1 && Flat(s.done) <= UnitsOf(s.wire) <= Flat(s.done + Current(s))
  {
    hide Run, Inv, Steady, InOrder;
    RunKeeps(owner, cs);
    RunOrder(owner, cs);
    OrderIsPrefix(Run(owner, cs));
  }

  lemma OrderIsPrefix(s: State)
    requires Inv(s) && InOrder(s)
    ensures |Current(s)| <= 1 && Flat(s.done) <= UnitsOf(s.wire) <= Flat(s.done + Current(s))
  {
    hide UnitsOf, Flat, Of, Inv;
    if Current(s) == [] {
      assert s.done + Current(s) == s.done;
    } else {
      var job := Current(s)[0];
      CurrentPrefix(s, job);
      FlatOne(s.done, job);
    }
  }

  lemma CurrentPrefix(s: State, job: Job)
    requires Inv(s) && Current(s) == [job]
    ensures Of(s.wire, job.id) <= job.whole
  {
    hide Of, Remaining, Prompt, NoneYet, AllInLine, DoneOk, AcksOk, EndOk, Distinct;
    if s.place.Idle? || s.place.Loop? {
      assert Line(s)[|s.out|] == s.queue[0];
    } else {
      assert Line(s)[|s.out|] == job;
    }
    assert JobOk(s.wire, s.queued, job);
  }

  /** A reply is acknowledged only when all its bytes are on the wire. */
  lemma {:induction false} AcknowledgedIsSent(owner: nat, cs: seq<Choice>, id: nat)
    requires id in Run(owner, cs).acks
    ensures var s := Run(owner, cs); id < |s.queued| && Of(s.wire, id) == s.queued[id].whole
  {
    hide Run, Inv;
    RunKeeps(owner, cs);
    AckSent(Run(owner, cs), id);
  }

  lemma AckSent(s: State, id: nat)
    requires Inv(s) && id in s.acks
    ensures id < |s.queued| && Of(s.wire, id) == s.queued[id].whole
  {
    hide LineOk, EndOk, PlaceOk, Of;
    assert Acknowledged(s, id);
  }

  /**
   * Behind a reply that ends the connection nothing follows: it is the last, the socket is closed, and however the run
   * goes on no byte is sent and no reply completed any more.
   */
  lemma {:induction false} NothingAfterTheEnd(owner: nat, cs: seq<Choice>, k: nat, more: seq<Choice>)
    requires k < |Run(owner, cs).done| && Run(owner, cs).done[k].left.end
    ensures var s, s' := Run(owner, cs), Run(owner, cs + more);
      && k == |s.done| - 1 && s.place == s'.place == Closed([])
      && s'.wire == s.wire && s'.done == s.done && s'.acks == s.acks
  {
    hide Run, Inv;
    RunKeeps(owner, cs);
    EndIsLast(Run(owner, cs), k);
    ClosedStays(owner, cs, more);
  }

  lemma {:induction false} ClosedStays(owner: nat, cs: seq<Choice>, more: seq<Choice>)
    requires Run(owner, cs).place.Closed?
    ensures var s, s' := Run(owner, cs), Run(owner, cs + more);
      s'.place == s.place && s'.wire == s.wire && s'.done == s.done && s'.acks == s.acks
  {
    hide Step;
    if more == [] {
      assert cs + more == cs;
    } else {
      var n := |more| - 1;
      ClosedStays(owner, cs, more[..n]);
      assert (cs + more)[..|cs| + n] == cs + more[..n];
      ClosedStep(Run(owner, cs + more[..n]), more[n]);
    }
  }

  lemma ClosedStep(s: State, c: Choice)
    requires s.place.Closed?
    ensures var s' := Step(s, c); s'.place == s.place && s'.wire == s.wire && s'.done == s.done && s'.acks == s.acks
  {
    hide TryStep, FinishStep, Remaining;
  }

  lemma EndIsLast(s: State, k: nat)
    requires Inv(s) && k < |s.done| && s.done[k].left.end
    ensures k == |s.done| - 1 && s.place == Closed([])
  {
    hide LineOk, DoneOk, AcksOk, PlaceOk;
  }
}
