/** In which order the replies that belong to a socket are delivered, and what that means for the bytes on the wire. */
module ResponderDelivery {
  import opened Delivery
  import opened Responder
  import opened ResponderRuns
  import opened ResponderOrder

  /** The replies made for this socket; `server_reply_process` refuses all others. */
  function Own(owner: nat, jobs: seq<Job>): seq<Job> {
    if jobs == [] then []
    else
      var last := jobs[|jobs| - 1];
      Own(owner, jobs[..|jobs| - 1]) + if last.left.token == owner then [last] else []
  }

  lemma OwnOne(owner: nat, job: Job)
    ensures Own(owner, [job]) == if job.left.token == owner then [job] else []
  {
    assert [job][..0] == [];
  }

  lemma {:induction false} OwnAppend(owner: nat, x: seq<Job>, y: seq<Job>)
    ensures Own(owner, x + y) == Own(owner, x) + Own(owner, y)
  {
    if y == [] {
      assert x + y == x;
    } else {
      OwnAppend(owner, x, y[..|y| - 1]);
      assert (x + y)[..|x| + |y| - 1] == x + y[..|y| - 1];
    }
  }

  // The completed replies are those of this socket among the replies that left, in the same order.

  ghost predicate DoneInOrder(s: State) {
    && s.done == Own(s.owner, s.out)
    && (s.place.Complete? ==> s.place.job.left.token == s.owner)
  }

  lemma OutOne(s: State, job: Job)
    ensures Own(s.owner, s.out + [job]) == Own(s.owner, s.out) + if job.left.token == s.owner then [job] else []
  {
    hide Own;
    OwnAppend(s.owner, s.out, [job]);
    OwnOne(s.owner, job);
  }

  lemma TryDelivers(s: State, job: Job, world: World)
    requires DoneInOrder(s) && s.place == Hand(job)
    ensures DoneInOrder(TryStep(s, job, world))
  {
    hide Own, Process, Marks, Remaining;
    AttemptKeeps(job.left, s.owner, world);
    OutOne(s, job.(left := Process(job.left, s.owner, world).rest));
  }

  lemma StepDelivers(s: State, c: Choice)
    requires DoneInOrder(s)
    ensures DoneInOrder(Step(s, c))
  {
    hide Own, TryStep, Remaining;
    if c.Move? {
      match s.place
      case Hand(job) => TryDelivers(s, job, c.world);
      case Complete(job) => OutOne(s, job);
      case _ =>
    }
  }

  lemma {:induction false} RunDelivers(owner: nat, cs: seq<Choice>)
    ensures DoneInOrder(Run(owner, cs)) && Run(owner, cs).owner == owner
  {
    hide Own, Step;
    if cs == [] {
      InitDelivers(owner);
    } else {
      var s := Run(owner, cs[..|cs| - 1]);
      RunDelivers(owner, cs[..|cs| - 1]);
      StepDelivers(s, cs[|cs| - 1]);
      OwnerStays(s, cs[|cs| - 1]);
    }
  }

  lemma InitDelivers(owner: nat)
    ensures DoneInOrder(Init(owner))
  {
  }

  lemma OwnerStays(s: State, c: Choice)
    ensures Step(s, c).owner == s.owner
  {
  }

  // The same selection on the numbers of the replies.

  function Mine(owner: nat, queued: seq<Job>, ids: seq<nat>): seq<nat> {
    if ids == [] then []
    else
      var id := ids[|ids| - 1];
      Mine(owner, queued, ids[..|ids| - 1]) + if id < |queued| && queued[id].left.token == owner then [id] else []
  }

  /** The job is a queued reply of which parts may have been sent. */
  ghost predicate Genuine(queued: seq<Job>, job: Job) {
    job.id < |queued| && queued[job.id].whole == job.whole && SameButParts(queued[job.id].left, job.left)
  }

  ghost predicate AllGenuine(queued: seq<Job>, jobs: seq<Job>) {
    forall k :: 0 <= k < |jobs| ==> Genuine(queued, jobs[k])
  }

  lemma {:induction false} PromptOfOwn(owner: nat, queued: seq<Job>, jobs: seq<Job>)
    requires AllGenuine(queued, jobs)
    ensures Prompt(Own(owner, jobs)) == Mine(owner, queued, Prompt(jobs))
  {
    hide Own, Prompt, Mine;
    if jobs == [] {
      NoneOfNone(owner, queued);
    } else {
      var n := |jobs| - 1;
      PromptOfOwn(owner, queued, jobs[..n]);
      assert jobs == jobs[..n] + [jobs[n]];
      assert Genuine(queued, jobs[n]);
      PromptOwnStep(owner, jobs[..n], jobs[n]);
      MineStep(owner, queued, Prompt(jobs[..n]), jobs[n].id);
      PromptAppend(jobs[..n], [jobs[n]]);
      PromptOne(jobs[n]);
      assert Prompt(jobs[..n]) + [] == Prompt(jobs[..n]);
    }
  }

  lemma NoneOfNone(owner: nat, queued: seq<Job>)
    ensures Prompt(Own(owner, [])) == Mine(owner, queued, Prompt([]))
  {
  }

  lemma PromptOwnStep(owner: nat, jobs: seq<Job>, job: Job)
    ensures Prompt(Own(owner, jobs + [job]))
         == Prompt(Own(owner, jobs)) + if job.left.token == owner && !Delayed(job.left) then [job.id] else []
  {
    hide Prompt, Own;
    OwnAppend(owner, jobs, [job]);
    OwnOne(owner, job);
    PromptAppend(Own(owner, jobs), [job]);
    PromptOne(job);
    assert Own(owner, jobs) + [] == Own(owner, jobs);
  }

  lemma MineStep(owner: nat, queued: seq<Job>, ids: seq<nat>, id: nat)
    ensures Mine(owner, queued, ids + [id])
         == Mine(owner, queued, ids) + if id < |queued| && queued[id].left.token == owner then [id] else []
  {
    assert (ids + [id])[..|ids|] == ids;
  }

  lemma LineIsGenuine(s: State)
    requires Inv(s)
    ensures AllGenuine(s.queued, Line(s)) && AllGenuine(s.queued, s.queued)
  {
    hide Of, Remaining, Prompt, DoneOk, AcksOk, EndOk, PlaceOk, Line;
    forall k | 0 <= k < |Line(s)| ensures Genuine(s.queued, Line(s)[k]) {
      assert JobOk(s.wire, s.queued, Line(s)[k]);
    }
  }

  lemma SamePrompt(s: State)
    requires Inv(s)
    ensures Prompt(Line(s)) == Prompt(s.queued)
  {
    hide Prompt, Of, JobsOk, DoneOk, AcksOk, EndOk, PlaceOk, Line;
  }

  /**
   * Among the replies of this socket, too, those without a delay are in the line in the order in which they were
   * queued.
   */
  lemma OwnPrompt(s: State)
    requires Inv(s)
    ensures Prompt(Own(s.owner, s.queued)) == Prompt(Own(s.owner, Line(s)))
  {
    hide *;
    LineIsGenuine(s);
    SamePrompt(s);
    PromptOfOwn(s.owner, s.queued, Line(s));
    PromptOfOwn(s.owner, s.queued, s.queued);
  }

  /** What is not yet delivered. */
  function Pending(s: State): seq<Job> {
    Held(s.place) + s.queue
  }

  lemma OwnLine(s: State)
    requires Inv(s) && DoneInOrder(s)
    ensures Prompt(Own(s.owner, s.queued)) == Prompt(s.done) + Prompt(Own(s.owner, Pending(s)))
  {
    hide Prompt, Own, Inv, Held;
    OwnPrompt(s);
    assert Line(s) == s.out + Pending(s);
    OwnAppend(s.owner, s.out, Pending(s));
    PromptAppend(s.done, Own(s.owner, Pending(s)));
  }

  /**
   * Replies without a delay leave the queue in exactly the order in which they were queued, and those of them that
   * belong to this socket are delivered in that order: the delivered ones are the first that were queued for it, none
   * is passed.
   */
  lemma {:induction false} PromptRepliesKeepTheirOrder(owner: nat, cs: seq<Choice>)
    ensures var s := Run(owner, cs);
      && Prompt(s.queued) == Prompt(s.out) + Prompt(Held(s.place)) + Prompt(s.queue)
      && s.done == Own(owner, s.out)
      && Prompt(Own(owner, s.queued)) == Prompt(s.done) + Prompt(Own(owner, Held(s.place) + s.queue))
  {
    hide *;
    RunKeeps(owner, cs);
    RunDelivers(owner, cs);
    var s := Run(owner, cs);
    LinePrompt(s);
    DoneIsOwn(s);
    OwnLine(s);
    PendingIs(s);
  }

  lemma DoneIsOwn(s: State)
    requires DoneInOrder(s)
    ensures s.done == Own(s.owner, s.out)
  {
  }

  lemma PendingIs(s: State)
    ensures Pending(s) == Held(s.place) + s.queue
  {
  }

  lemma LinePrompt(s: State)
    requires Inv(s)
    ensures Prompt(s.queued) == Prompt(s.out) + Prompt(Held(s.place)) + Prompt(s.queue)
  {
    hide Prompt, DoneOk, AcksOk, EndOk, PlaceOk, JobsOk;
    PromptAppend(s.out + Held(s.place), s.queue);
    PromptAppend(s.out, Held(s.place));
  }

  // The wire.

  /** The replies that the wire shows: the completed ones and the one that has begun, if any. */
  function Shown(s: State): seq<Job> {
    s.done + if Front(s.wire, Current(s)) == [] then [] else Current(s)
  }

  lemma CurrentIsNext(s: State)
    requires Inv(s) && Current(s) != []
    ensures Pending(s) != [] && Current(s) == [Pending(s)[0]]
  {
    hide LineOk, DoneOk, AcksOk, EndOk;
  }

  lemma ShownOrder(s: State)
    requires Inv(s) && InOrder(s) && DoneInOrder(s)
    ensures Prompt(Shown(s)) <= Prompt(Own(s.owner, s.queued))
  {
    hide Prompt, Own, Of, UnitsOf, Flat, Inv, DoneInOrder;
    OwnLine(s);
    if Front(s.wire, Current(s)) == [] {
      assert Shown(s) == s.done;
    } else {
      CurrentIsNext(s);
      var job, rest := Pending(s)[0], Pending(s)[1..];
      assert Pending(s) == [job] + rest;
      OwnAppend(s.owner, [job], rest);
      OwnOne(s.owner, job);
      PromptAppend([job], Own(s.owner, rest));
      PromptAppend(s.done, [job]);
    }
  }

  lemma ShownBytes(s: State)
    requires Inv(s) && InOrder(s)
    ensures Flat(s.done) <= UnitsOf(s.wire) <= Flat(Shown(s)) && s.done <= Shown(s)
  {
    hide UnitsOf, Flat, Of, Inv;
    if Front(s.wire, Current(s)) == [] {
      assert Shown(s) == s.done;
      assert Flat(s.done) + [] == Flat(s.done);
    } else {
      OrderIsPrefix(s);
    }
  }

  lemma {:induction false} OwnIsOwn(owner: nat, jobs: seq<Job>)
    ensures forall k :: 0 <= k < |Own(owner, jobs)| ==>
              Own(owner, jobs)[k].left.token == owner && Own(owner, jobs)[k] in jobs
  {
    if jobs != [] { OwnIsOwn(owner, jobs[..|jobs| - 1]); }
  }

  lemma InLineIsGenuine(s: State, job: Job)
    requires Inv(s) && job in Line(s)
    ensures Genuine(s.queued, job)
  {
    hide Inv, Line;
    LineIsGenuine(s);
    var k :| 0 <= k < |Line(s)| && Line(s)[k] == job;
    assert Genuine(s.queued, Line(s)[k]);
  }

  /** Every reply shown is a queued reply of this socket. */
  lemma ShownAreOwn(s: State)
    requires Inv(s) && InOrder(s) && DoneInOrder(s)
    ensures AllGenuine(s.queued, Shown(s))
    ensures forall k :: 0 <= k < |Shown(s)| ==> Shown(s)[k].left.token == s.owner
  {
    hide Own, Of, UnitsOf, Flat, Inv, Genuine, Held;
    OwnIsOwn(s.owner, s.out);
    forall k | 0 <= k < |Shown(s)| ensures Genuine(s.queued, Shown(s)[k]) && Shown(s)[k].left.token == s.owner {
      var job := Shown(s)[k];
      if k < |s.done| {
        assert job in s.out;
      } else {
        CurrentIsNext(s);
        assert job == Pending(s)[0];
        assert Line(s)[|s.out|] == job;
      }
      InLineIsGenuine(s, job);
    }
  }

  /**
   * When no reply that has begun waits again, the bytes on the wire are a beginning of those of the replies shown, each
   * a queued reply of this socket with all its bytes; and the replies without a delay among them are the first of their
   * kind that were queued for this socket, in the order in which they were queued.
   */
  lemma {:induction false} WireFollowsTheQueue(owner: nat, cs: seq<Choice>)
    requires Steady(owner, cs)
    ensures var s := Run(owner, cs);
      && Flat(s.done) <= UnitsOf(s.wire) <= Flat(Shown(s)) && s.done <= Shown(s)
      && AllGenuine(s.queued, Shown(s))
      && (forall k :: 0 <= k < |Shown(s)| ==> Shown(s)[k].left.token == owner)
      && Prompt(Shown(s)) <= Prompt(Own(owner, s.queued))
  {
    hide *;
    RunKeeps(owner, cs);
    RunOrder(owner, cs);
    RunDelivers(owner, cs);
    ShownBytes(Run(owner, cs));
    ShownAreOwn(Run(owner, cs));
    ShownOrder(Run(owner, cs));
  }

  // When no reply has a delay.

  ghost predicate NoDelay(jobs: seq<Job>) {
    forall k :: 0 <= k < |jobs| ==> !Delayed(jobs[k].left)
  }

  lemma {:induction false} PromptOfAll(jobs: seq<Job>)
    requires NoDelay(jobs)
    ensures |Prompt(jobs)| == |jobs| && forall k :: 0 <= k < |jobs| ==> Prompt(jobs)[k] == jobs[k].id
  {
    if jobs != [] { PromptOfAll(jobs[..|jobs| - 1]); }
  }

  lemma {:induction false} FlatSame(a: seq<Job>, b: seq<Job>)
    requires |a| <= |b| && forall k :: 0 <= k < |a| ==> a[k].whole == b[k].whole
    ensures Flat(a) <= Flat(b)
    decreases |b|
  {
    if |a| < |b| {
      FlatSame(a, b[..|b| - 1]);
    } else if a != [] {
      FlatEqual(a, b);
    }
  }

  lemma {:induction false} FlatEqual(a: seq<Job>, b: seq<Job>)
    requires |a| == |b| && forall k :: 0 <= k < |a| ==> a[k].whole == b[k].whole
    ensures Flat(a) == Flat(b)
  {
    if a != [] { FlatEqual(a[..|a| - 1], b[..|b| - 1]); }
  }

  /** The same numbers in front mean the same bytes in front. */
  lemma PromptBytes(queued: seq<Job>, a: seq<Job>, b: seq<Job>)
    requires AllGenuine(queued, a) && AllGenuine(queued, b) && NoDelay(a) && NoDelay(b) && Prompt(a) <= Prompt(b)
    ensures Flat(a) <= Flat(b)
  {
    hide Prompt, Flat;
    PromptOfAll(a);
    PromptOfAll(b);
    forall k | 0 <= k < |a| ensures a[k].whole == b[k].whole {
      assert Prompt(a)[k] == Prompt(b)[k];
      assert Genuine(queued, a[k]) && Genuine(queued, b[k]);
    }
    FlatSame(a, b);
  }

  lemma GenuineNoDelay(queued: seq<Job>, jobs: seq<Job>)
    requires NoDelay(queued) && AllGenuine(queued, jobs)
    ensures NoDelay(jobs)
  {
    forall k | 0 <= k < |jobs| ensures !Delayed(jobs[k].left) {
      assert Genuine(queued, jobs[k]) && !Delayed(queued[jobs[k].id].left);
    }
  }

  lemma OwnIsGenuine(owner: nat, queued: seq<Job>)
    requires AllGenuine(queued, queued)
    ensures AllGenuine(queued, Own(owner, queued))
  {
    hide Own, Genuine;
    OwnIsOwn(owner, queued);
  }

  /** Without delays the socket carries one stream: the replies queued for it, in this order, as far as it has come. */
  lemma {:induction false} WithoutDelaysOneStream(owner: nat, cs: seq<Choice>)
    requires Steady(owner, cs) && NoDelay(Run(owner, cs).queued)
    ensures UnitsOf(Run(owner, cs).wire) <= Flat(Own(owner, Run(owner, cs).queued))
  {
    hide *;
    var s := Run(owner, cs);
    WireFollowsTheQueue(owner, cs);
    RunKeeps(owner, cs);
    LineIsGenuine(s);
    OwnIsGenuine(owner, s.queued);
    GenuineNoDelay(s.queued, Shown(s));
    GenuineNoDelay(s.queued, Own(owner, s.queued));
    PromptBytes(s.queued, Shown(s), Own(owner, s.queued));
  }
}
