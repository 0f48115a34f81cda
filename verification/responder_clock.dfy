/** When no reply that has begun waits again: what the clock must do for it, and that nothing less keeps the order. */
module ResponderClock {
  import opened Delivery
  import opened Responder
  import opened ResponderRuns
  import opened ResponderOrder
  import opened ResponderDelivery

  // A clock that does not go back is enough.

  /** A reply that has begun does not wait at the time of the last attempt. */
  ghost predicate Due(s: State) {
    Current(s) != [] && Of(s.wire, Current(s)[0].id) != [] ==> !Waits(Current(s)[0].left, s.clock)
  }

  lemma QueueDue(s: State, r: Reply)
    requires Inv(s) && Due(s)
    ensures Due(QueueStep(s, r))
  {
    hide UnitsOf, Flat, Of, Remaining, JobsOk, DoneOk, AcksOk, EndOk, PlaceOk, Distinct, AllInLine, Prompt;
    assert Of(s.wire, |s.queued|) == [];
  }

  /** An attempt that sends a byte of a reply shows that the reply does not wait. */
  lemma TryDue(s: State, job: Job, world: World)
    requires Inv(s) && InOrder(s) && s.place == Hand(job)
    ensures Due(TryStep(s, job, world))
  {
    hide UnitsOf, Flat, Of, Process, Remaining;
    hide JobsOk, AllInLine, Prompt, NoneYet, DoneOk, AcksOk, EndOk, PlaceOk, Distinct;
    var p := Process(job.left, s.owner, world);
    AttemptKeeps(job.left, s.owner, world);
    if p.code == EPARAM {
      assert s.wire + Marks(job.id, []) == s.wire;
    }
  }

  lemma MoveDue(s: State, world: World, notify: bool)
    requires Inv(s) && InOrder(s) && Due(s)
    ensures Due(MoveStep(s, world, notify))
  {
    hide UnitsOf, Flat, Of, Inv, TryStep, Waits;
    var s' := MoveStep(s, world, notify);
    match s.place
    case Hand(job) => TryDue(s, job, world);
    case Rotate(job, alone) =>
      assert Others(s)[0] == job;
      assert s.queue != [] ==> Others(s)[1] == s.queue[0];
    case _ =>
  }

  lemma StepDue(s: State, c: Choice)
    requires Inv(s) && InOrder(s) && Due(s)
    ensures Due(Step(s, c))
  {
    hide Inv, InOrder, Due, QueueStep, MoveStep;
    match c
    case Queue(r) => QueueDue(s, r);
    case Move(world, notify) => MoveDue(s, world, notify);
  }

  lemma DueIsSteady(s: State, c: Choice)
    requires Due(s) && (c.Move? && s.place.Hand? ==> s.clock <= c.world.now)
    ensures !WaitsAgain(s, c)
  {
    hide Of;
  }

  /** Under a clock that does not go back from one attempt to the next, no reply that has begun waits again. */
  lemma {:induction false} MonotonicIsSteady(owner: nat, cs: seq<Choice>)
    requires Monotonic(owner, cs)
    ensures Steady(owner, cs) && Due(Run(owner, cs))
  {
    hide Inv, InOrder, Step, Due, WaitsAgain;
    if cs == [] {
      InitDue(owner);
    } else {
      var before := cs[..|cs| - 1];
      MonotonicIsSteady(owner, before);
      RunKeeps(owner, before);
      RunOrder(owner, before);
      DueIsSteady(Run(owner, before), cs[|cs| - 1]);
      StepDue(Run(owner, before), cs[|cs| - 1]);
    }
  }

  lemma InitDue(owner: nat)
    ensures Due(Init(owner))
  {
  }

  // Nothing less is enough.

  /** Of all replies that are still to be sent, only the first may have begun. */
  ghost predicate OnlyFirstHasBegun(s: State) {
    forall k :: 1 <= k < |Pending(s)| ==> Of(s.wire, Pending(s)[k].id) == []
  }

  lemma OrderedIsFirst(s: State)
    requires Inv(s) && InOrder(s)
    ensures OnlyFirstHasBegun(s)
  {
    hide Of, UnitsOf, Flat, LineOk, DoneOk, AcksOk, EndOk;
    forall k | 1 <= k < |Pending(s)| ensures Of(s.wire, Pending(s)[k].id) == [] {
      if s.place.Waiting? || s.place.Rotate? || s.place == Closed([]) {
        assert Pending(s)[k] == Others(s)[k];
      } else {
        assert Pending(s)[k] == Others(s)[k - 1];
      }
    }
  }

  /** Some thread queues a reply, and the responder makes two steps. */
  function Meanwhile(r: Reply): seq<Choice> {
    var go := Move(World(0, NoRoom, NoRoom, NoRoom), false);
    [Queue(r), go, go]
  }

  function After(s: State, r: Reply): State {
    Step(Step(Step(s, Meanwhile(r)[0]), Meanwhile(r)[1]), Meanwhile(r)[2])
  }

  /** The choices one by one. */
  lemma Steps(cs: seq<Choice>, r: Reply)
    ensures var m := Meanwhile(r);
      && (cs + m)[..|cs + m| - 1] == cs + m[..2] && (cs + m)[|cs + m| - 1] == m[2]
      && (cs + m[..2])[..|cs + m[..2]| - 1] == cs + m[..1] && (cs + m[..2])[|cs + m[..2]| - 1] == m[1]
      && (cs + m[..1])[..|cs + m[..1]| - 1] == cs && (cs + m[..1])[|cs + m[..1]| - 1] == m[0]
  {
  }

  lemma RunMeanwhile(owner: nat, cs: seq<Choice>, r: Reply)
    ensures var m, s := Meanwhile(r), Run(owner, cs);
      && Run(owner, cs + m[..1]) == Step(s, m[0])
      && Run(owner, cs + m[..2]) == Step(Step(s, m[0]), m[1])
      && Run(owner, cs + m) == After(s, r)
  {
    hide Step;
    Steps(cs, r);
    var m := Meanwhile(r);
    assert Run(owner, cs + m[..1]) == Step(Run(owner, cs), m[0]);
    assert Run(owner, cs + m[..2]) == Step(Run(owner, cs + m[..1]), m[1]);
    assert Run(owner, cs + m) == Step(Run(owner, cs + m[..2]), m[2]);
  }

  lemma SteadyMeanwhile(owner: nat, cs: seq<Choice>, r: Reply)
    requires Steady(owner, cs) && AfterAttempt(Run(owner, cs).place)
    ensures Steady(owner, cs + Meanwhile(r))
  {
    hide Step, Run, WaitsAgain;
    var m := Meanwhile(r);
    Steps(cs, r);
    NoAttempt(Run(owner, cs), r);
    RunMeanwhile(owner, cs, r);
    assert Steady(owner, cs + m[..1]);
    assert Steady(owner, cs + m[..2]);
  }

  /** Where an attempt can leave the responder. */
  predicate AfterAttempt(p: Place) {
    p.Idle? || p.Waiting? || p.Closed? || p.PutBack? || p.Complete?
  }

  lemma NoAttempt(s: State, r: Reply)
    requires AfterAttempt(s.place)
    ensures !WaitsAgain(s, Meanwhile(r)[0])
    ensures var s' := Step(s, Meanwhile(r)[0]);
      !WaitsAgain(s', Meanwhile(r)[1]) && !WaitsAgain(Step(s', Meanwhile(r)[1]), Meanwhile(r)[2])
  {
    hide Of, Remaining, TryStep;
  }

  lemma AttemptEnds(s: State, c: Choice)
    requires c.Move? && s.place.Hand?
    ensures AfterAttempt(Step(s, c).place)
  {
    hide Marks, Process;
  }

  /** A reply that waits although it has begun falls behind the reply that is queued meanwhile. */
  lemma FallsBehind(s: State, c: Choice, r: Reply)
    requires InOrder(s) && WaitsAgain(s, c)
    ensures !OnlyFirstHasBegun(After(Step(s, c), r))
  {
    hide Of, Remaining, UnitsOf, Flat, Header;
    var job := s.place.job;
    assert s.wire + Marks(job.id, []) == s.wire;
    var s' := After(Step(s, c), r);
    assert s'.place == Loop && s'.wire == s.wire;
    assert Pending(s')[|s.queue| + 1] == job;
  }

  lemma {:induction false} FirstWait(owner: nat, cs: seq<Choice>) returns (k: nat)
    requires !Steady(owner, cs)
    ensures k < |cs| && Steady(owner, cs[..k]) && WaitsAgain(Run(owner, cs[..k]), cs[k])
  {
    hide WaitsAgain, Run;
    var n := |cs| - 1;
    if Steady(owner, cs[..n]) {
      k := n;
    } else {
      k := FirstWait(owner, cs[..n]);
      assert cs[..n][..k] == cs[..k];
    }
  }

  lemma {:induction false} SteadyBefore(owner: nat, cs: seq<Choice>, k: nat)
    requires Steady(owner, cs) && k <= |cs|
    ensures Steady(owner, cs[..k])
  {
    hide WaitsAgain;
    if k < |cs| {
      SteadyBefore(owner, cs[..|cs| - 1], k);
      assert cs[..|cs| - 1][..k] == cs[..k];
    } else {
      assert cs[..k] == cs;
    }
  }

  /** The choice with this number is an attempt. */
  ghost predicate AttemptAt(owner: nat, cs: seq<Choice>, k: nat)
    requires k < |cs|
  {
    cs[k].Move? && Run(owner, cs[..k]).place.Hand?
  }

  /** Whatever is queued right after an attempt, it comes behind a reply that has begun. */
  ghost predicate NoneIsPassed(owner: nat, cs: seq<Choice>, r: Reply) {
    forall k: nat :: k < |cs| && AttemptAt(owner, cs, k) ==>
      OnlyFirstHasBegun(Run(owner, cs[..k + 1] + Meanwhile(r)))
  }

  lemma NotPassedAt(owner: nat, cs: seq<Choice>, k: nat, r: Reply)
    requires Steady(owner, cs) && k < |cs| && AttemptAt(owner, cs, k)
    ensures OnlyFirstHasBegun(Run(owner, cs[..k + 1] + Meanwhile(r)))
  {
    hide Step, WaitsAgain, InOrder, OnlyFirstHasBegun, Meanwhile, Steady, Inv;
    SteadyBefore(owner, cs, k + 1);
    assert cs[..k + 1][..k] == cs[..k];
    AttemptEnds(Run(owner, cs[..k]), cs[k]);
    SteadyMeanwhile(owner, cs[..k + 1], r);
    RunOrder(owner, cs[..k + 1] + Meanwhile(r));
    RunKeeps(owner, cs[..k + 1] + Meanwhile(r));
    OrderedIsFirst(Run(owner, cs[..k + 1] + Meanwhile(r)));
  }

  /**
   * The condition is exact: no reply that has begun waits again if and only if a reply queued right after an attempt
   * never overtakes one that has begun.
   */
  lemma {:induction false} SteadyIffNoneIsPassed(owner: nat, cs: seq<Choice>, r: Reply)
    ensures Steady(owner, cs) <==> NoneIsPassed(owner, cs, r)
  {
    hide Run, Step, WaitsAgain, InOrder, OnlyFirstHasBegun, Meanwhile, AttemptAt, Steady, After;
    if Steady(owner, cs) {
      forall k: nat | k < |cs| && AttemptAt(owner, cs, k)
        ensures OnlyFirstHasBegun(Run(owner, cs[..k + 1] + Meanwhile(r)))
      {
        NotPassedAt(owner, cs, k, r);
      }
    } else {
      var k := FirstWait(owner, cs);
      RunOrder(owner, cs[..k]);
      FallsBehind(Run(owner, cs[..k]), cs[k], r);
      PassedAt(owner, cs, k, r);
    }
  }

  lemma PassedAt(owner: nat, cs: seq<Choice>, k: nat, r: Reply)
    requires k < |cs| && WaitsAgain(Run(owner, cs[..k]), cs[k])
    ensures AttemptAt(owner, cs, k)
    ensures Run(owner, cs[..k + 1] + Meanwhile(r)) == After(Step(Run(owner, cs[..k]), cs[k]), r)
  {
    hide Step, Meanwhile, After, Of;
    RunMeanwhile(owner, cs[..k + 1], r);
    assert cs[..k + 1][..k] == cs[..k];
  }
}
