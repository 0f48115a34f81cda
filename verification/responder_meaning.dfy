/** That replies get through: what is queued, sent and acknowledged, told by the choices of a run and its outcome. */
module ResponderMeaning {
  import opened Bits
  import opened Options
  import opened Delivery
  import opened Responder
  import opened ResponderRuns
  import opened ResponderOrder
  import opened ResponderDelivery

  // One attempt.

  /** All bytes of a reply: its header, out of band if it is urgent, then the range of its file, then its footer. */
  lemma RemainingIs(r: Reply, i: nat)
    ensures |Remaining(r)| == |r.header| + |r.range| + |r.footer|
    ensures i < |r.header| ==> Remaining(r)[i] == Unit(r.header[i], r.urgent)
    ensures i < |r.range| ==> Remaining(r)[|r.header| + i] == Unit(r.range[i], false)
    ensures i < |r.footer| ==> Remaining(r)[|r.header| + |r.range| + i] == Unit(r.footer[i], false)
  {
    hide Units;
  }

  /** The answer that decides about the first part that is left. */
  predicate Meets(r: Reply, w: World, a: Answer, size: nat) {
    if r.header != [] then a == w.first && size == |r.header|
    else if r.range != [] then a == w.second && size == |r.range|
    else a == w.third && size == |r.footer|
  }

  /** An attempt at a reply that need not wait does what the system allows for the first part that is left. */
  lemma AttemptMoves(r: Reply, owner: nat, w: World, a: Answer, size: nat)
    requires r.token == owner && !(r.timer != 0 && r.delay != 0 && r.timer + r.delay > w.now)
    requires Meets(r, w, a, size) && size > 0
    ensures var p := Process(r, owner, w);
      match a
      case NoRoom => p.code == EAGAIN && p.sent == [] && p.rest == r
      case Failed => p.code == EFATAL && p.sent == [] && p.rest == r
      case Takes(n) => |p.sent| >= Min(size, if n == 0 then 1 else n)
  {
    hide Units, Footer;
    if r.header == [] && r.range == [] { FooterMoves(r, a); }
  }

  lemma FooterMoves(r: Reply, a: Answer)
    requires r.header == [] && r.range == [] && r.footer != []
    ensures var p := Footer(r, a);
      match a
      case NoRoom => p.code == EAGAIN && p.sent == [] && p.rest == r
      case Failed => p.code == EFATAL && p.sent == [] && p.rest == r
      case Takes(n) => |p.sent| >= Min(|r.footer|, if n == 0 then 1 else n)
  {
  }

  /** The clock and the system let the whole reply pass. */
  predicate Passes(r: Reply, w: World) {
    && !(r.timer != 0 && r.delay != 0 && r.timer + r.delay > w.now)
    && w.first.Takes? && w.first.count >= |r.header|
    && w.second.Takes? && w.second.count >= |r.range|
    && w.third.Takes? && w.third.count >= |r.footer|
  }

  lemma AttemptCompletes(r: Reply, owner: nat, w: World)
    requires r.token == owner && Passes(r, w)
    ensures Process(r, owner, w).code == 0 && Process(r, owner, w).sent == Remaining(r)
  {
    hide Units, Remaining;
    AttemptKeeps(r, owner, w);
    var p := Process(r, owner, w);
    assert p.sent + [] == p.sent;
  }

  // What is queued.

  /** The replies of the choices, in order. */
  function Given(cs: seq<Choice>): seq<Reply> {
    if cs == [] then []
    else Given(cs[..|cs| - 1]) + match cs[|cs| - 1] case Queue(r) => [r] case Move(_, _) => []
  }

  /** Exactly the replies given are queued, each with all its bytes. */
  lemma {:induction false} QueuedAreGiven(owner: nat, cs: seq<Choice>)
    ensures var q := Run(owner, cs).queued;
      |q| == |Given(cs)| && forall i: nat :: i < |q| ==> q[i] == Job(i, Remaining(Given(cs)[i]), Given(cs)[i])
  {
    hide Remaining, Step;
    if cs != [] {
      QueuedAreGiven(owner, cs[..|cs| - 1]);
      QueuedStep(Run(owner, cs[..|cs| - 1]), cs[|cs| - 1]);
    }
  }

  lemma QueuedStep(s: State, c: Choice)
    ensures Step(s, c).queued ==
      match c case Queue(r) => s.queued + [Job(|s.queued|, Remaining(r), r)] case Move(_, _) => s.queued
  {
    hide Remaining, Process, Marks;
  }

  // What is acknowledged.

  /** Whether the plugin took the notification, for each completed reply in order. */
  function Taken(owner: nat, cs: seq<Choice>): seq<bool> {
    if cs == [] then []
    else
      var before, last := cs[..|cs| - 1], cs[|cs| - 1];
      Taken(owner, before) +
      if last.Move? && |Run(owner, cs).done| > |Run(owner, before).done| then [last.notify] else []
  }

  /** The replies that asked for an acknowledgement and whose notification was taken, in order. */
  function Asking(jobs: seq<Job>, taken: seq<bool>): seq<nat>
    requires |taken| == |jobs|
  {
    if jobs == [] then []
    else
      var n := |jobs| - 1;
      Asking(jobs[..n], taken[..n]) + if jobs[n].left.ack && taken[n] then [jobs[n].id] else []
  }

  lemma AskingMore(jobs: seq<Job>, taken: seq<bool>, job: Job, b: bool)
    requires |taken| == |jobs|
    ensures Asking(jobs + [job], taken + [b]) == Asking(jobs, taken) + if job.left.ack && b then [job.id] else []
  {
    assert (jobs + [job])[..|jobs|] == jobs && (taken + [b])[..|jobs|] == taken;
  }

  /** Only the end of a reply changes what is completed and what is acknowledged. */
  lemma DoneStep(s: State, c: Choice)
    ensures var s' := Step(s, c);
      if c.Move? && s.place.Complete? then
        && s'.done == s.done + [s.place.job]
        && s'.acks == s.acks + if s.place.job.left.ack && c.notify then [s.place.job.id] else []
      else s'.done == s.done && s'.acks == s.acks
  {
    hide Process, Marks, Remaining;
    assert s.acks + [] == s.acks;
  }

  /** Acknowledged is exactly what asked for it and whose notification the plugin took, in order and once each. */
  lemma {:induction false} AcksAreExact(owner: nat, cs: seq<Choice>)
    ensures |Taken(owner, cs)| == |Run(owner, cs).done|
    ensures Run(owner, cs).acks == Asking(Run(owner, cs).done, Taken(owner, cs))
  {
    hide Step, Asking;
    if cs == [] {
      InitAcks(owner);
    } else {
      var before, c := cs[..|cs| - 1], cs[|cs| - 1];
      var s := Run(owner, before);
      AcksAreExact(owner, before);
      DoneStep(s, c);
      if c.Move? && s.place.Complete? { AskingMore(s.done, Taken(owner, before), s.place.job, c.notify); }
      assert Taken(owner, before) + [] == Taken(owner, before);
    }
  }

  lemma InitAcks(owner: nat)
    ensures Init(owner).acks == Asking(Init(owner).done, [])
  {
  }

  ghost predicate AlwaysTaken(cs: seq<Choice>) {
    forall i :: 0 <= i < |cs| && cs[i].Move? ==> cs[i].notify
  }

  lemma {:induction false} AllTaken(owner: nat, cs: seq<Choice>)
    requires AlwaysTaken(cs)
    ensures forall i :: 0 <= i < |Taken(owner, cs)| ==> Taken(owner, cs)[i]
  {
    hide Run;
    if cs != [] { AllTaken(owner, cs[..|cs| - 1]); }
  }

  ghost predicate Asked(jobs: seq<Job>, id: nat) {
    exists k :: 0 <= k < |jobs| && jobs[k].id == id && jobs[k].left.ack
  }

  lemma AskedMore(jobs: seq<Job>, id: nat)
    requires jobs != []
    ensures var n := |jobs| - 1;
      Asked(jobs, id) <==> Asked(jobs[..n], id) || (jobs[n].id == id && jobs[n].left.ack)
  {
    var n := |jobs| - 1;
    if k :| 0 <= k < n && jobs[..n][k].id == id && jobs[..n][k].left.ack {
      assert jobs[k].id == id && jobs[k].left.ack;
    }
    if k :| 0 <= k < n && jobs[k].id == id && jobs[k].left.ack {
      assert jobs[..n][k].id == id && jobs[..n][k].left.ack;
    }
  }

  lemma {:induction false} AskingAll(jobs: seq<Job>, taken: seq<bool>, id: nat)
    requires |taken| == |jobs| && forall i :: 0 <= i < |taken| ==> taken[i]
    ensures id in Asking(jobs, taken) <==> Asked(jobs, id)
  {
    hide Asked;
    if jobs == [] {
      NoneAsked(id);
    } else {
      AskingAll(jobs[..|jobs| - 1], taken[..|jobs| - 1], id);
      AskedMore(jobs, id);
    }
  }

  lemma NoneAsked(id: nat)
    ensures !Asked([], id)
  {
  }

  /** When the plugin takes every notification, a completed reply is acknowledged if and only if it asked for that. */
  lemma {:induction false} EveryRequestIsAcknowledged(owner: nat, cs: seq<Choice>, k: nat)
    requires AlwaysTaken(cs) && k < |Run(owner, cs).done|
    ensures var s := Run(owner, cs);
      var id := s.done[k].id;
      id < |s.queued| && (id in s.acks <==> s.queued[id].left.ack)
  {
    hide Run, Inv, Asking, Taken;
    var s := Run(owner, cs);
    AcksAreExact(owner, cs);
    AllTaken(owner, cs);
    RunKeeps(owner, cs);
    RunDelivers(owner, cs);
    var id := s.done[k].id;
    AskingAll(s.done, Taken(owner, cs), id);
    forall j | 0 <= j < |s.done| ensures Genuine(s.queued, s.done[j]) { DoneIsGenuine(s, j); }
    assert Genuine(s.queued, s.done[k]);
  }

  lemma DoneIsGenuine(s: State, j: nat)
    requires Inv(s) && DoneInOrder(s) && j < |s.done|
    ensures Genuine(s.queued, s.done[j])
  {
    hide Own, Inv, Genuine, Held;
    OwnIsOwn(s.owner, s.out);
    var job := s.done[j];
    assert job in s.out;
    assert job in Line(s);
    InLineIsGenuine(s, job);
  }

  // Everything gets through.

  /** The clock and the system let all these replies pass. */
  ghost predicate AllPass(jobs: seq<Job>, w: World) {
    forall k :: 0 <= k < |jobs| ==> Passes(jobs[k].left, w)
  }

  function Enough(jobs: seq<Job>): nat {
    if jobs == [] then 1
    else
      var r := jobs[0].left;
      Enough(jobs[1..]) + r.timer + r.delay + |r.header| + |r.range| + |r.footer|
  }

  lemma {:induction false} EnoughPasses(jobs: seq<Job>, n: nat)
    requires n >= Enough(jobs)
    ensures AllPass(jobs, World(n, Takes(n), Takes(n), Takes(n)))
  {
    if jobs != [] {
      EnoughPasses(jobs[1..], n);
      var w := World(n, Takes(n), Takes(n), Takes(n));
      forall k | 0 <= k < |jobs| ensures Passes(jobs[k].left, w) {
        if k > 0 { assert jobs[k] == jobs[1..][k - 1]; }
      }
    }
  }

  /** Nothing is left to do. */
  predicate AtRest(s: State) {
    (s.place == Idle && s.queue == []) || s.place.Closed?
  }

  function Stage(p: Place): nat {
    match p
    case Waiting(_) => 7
    case Rotate(_, _) => 6
    case PutBack(_) => 5
    case Idle => 4
    case Loop => 3
    case Hand(_) => 2
    case Complete(_) => 1
    case Closed(_) => 0
  }

  /** How far the responder is from rest, if everything passes. */
  function Distance(s: State): nat {
    if AtRest(s) then 0 else 10 * |Pending(s)| + Stage(s.place)
  }

  lemma GetsNearer(s: State, w: World)
    requires !AtRest(s) && AllPass(Pending(s), w)
    ensures var s' := MoveStep(s, w, true);
      && Distance(s') < Distance(s) && AllPass(Pending(s'), w) && s'.queued == s.queued
      && (s'.place.Closed? ==> s'.done != [] && s'.done[|s'.done| - 1].left.end)
  {
    hide Passes, TryStep;
    var s' := MoveStep(s, w, true);
    match s.place
    case Hand(job) =>
      assert Pending(s)[0] == job;
      assert forall k :: 0 <= k < |s.queue| ==> Pending(s)[k + 1] == s.queue[k];
      HandPasses(s, job, w);
    case Rotate(job, alone) =>
      assert forall k :: 0 <= k < |s.queue| ==> Pending(s)[k + 1] == s.queue[k];
      assert Pending(s)[0] == job;
    case Loop =>
      if s.queue != [] { assert Pending(s') == Pending(s); }
    case Complete(job) =>
      assert forall k :: 0 <= k < |s.queue| ==> Pending(s)[k + 1] == s.queue[k];
    case Waiting(_) => assert Pending(s') == Pending(s);
    case PutBack(_) => assert Pending(s') == Pending(s);
    case Idle => assert Pending(s') == Pending(s);
    case Closed(_) =>
  }

  lemma HandPasses(s: State, job: Job, w: World)
    requires s.place == Hand(job) && Passes(job.left, w)
    ensures var s' := TryStep(s, job, w);
      && s'.queue == s.queue && s'.queued == s.queued
      && (s'.place == Idle || (s'.place.Complete? && Passes(s'.place.job.left, w)))
  {
    hide Process, Marks;
    var p := Process(job.left, s.owner, w);
    AttemptKeeps(job.left, s.owner, w);
    if job.left.token == s.owner {
      AttemptCompletes(job.left, s.owner, w);
      RestPasses(job.left, p, w);
    }
  }

  lemma RestPasses(r: Reply, p: Attempt, w: World)
    requires Passes(r, w) && SameButParts(r, p.rest) && Remaining(p.rest) == []
    ensures Passes(p.rest, w)
  {
    RemainingIs(p.rest, 0);
  }

  lemma RunMore(owner: nat, cs: seq<Choice>, c: Choice)
    ensures Run(owner, cs + [c]) == Step(Run(owner, cs), c)
  {
    assert (cs + [c])[..|cs|] == cs;
  }

  /** The connection is closed because a completed reply asked for that. */
  ghost predicate EndedByReply(s: State) {
    s.place.Closed? ==> s.done != [] && s.done[|s.done| - 1].left.end
  }

  lemma {:induction false} ComesToRest(owner: nat, cs: seq<Choice>, w: World) returns (more: seq<Choice>)
    requires AllPass(Pending(Run(owner, cs)), w) && EndedByReply(Run(owner, cs))
    ensures forall i :: 0 <= i < |more| ==> more[i].Move?
    ensures var s := Run(owner, cs + more);
      AtRest(s) && EndedByReply(s) && s.queued == Run(owner, cs).queued
    decreases Distance(Run(owner, cs))
  {
    hide Run, Step, AllPass, Distance, AtRest, EndedByReply, Pending;
    var s := Run(owner, cs);
    if AtRest(s) {
      more := [];
      assert cs + more == cs;
    } else {
      var c := Move(w, true);
      OneMoveNearer(s, w);
      RunMore(owner, cs, c);
      var rest := ComesToRest(owner, cs + [c], w);
      more := [c] + rest;
      assert cs + [c] + rest == cs + more;
    }
  }

  lemma OneMoveNearer(s: State, w: World)
    requires !AtRest(s) && AllPass(Pending(s), w)
    ensures var s' := Step(s, Move(w, true));
      Distance(s') < Distance(s) && AllPass(Pending(s'), w) && s'.queued == s.queued && EndedByReply(s')
  {
    hide MoveStep, Distance, AllPass, Pending, AtRest;
    GetsNearer(s, w);
  }

  /** Every reply for this socket has been delivered. */
  ghost predicate AllDelivered(s: State) {
    forall id: nat :: id < |s.queued| && s.queued[id].left.token == s.owner ==>
      exists k :: 0 <= k < |s.done| && s.done[k].id == id
  }

  lemma {:induction false} OwnHas(owner: nat, jobs: seq<Job>, k: nat)
    requires k < |jobs| && jobs[k].left.token == owner
    ensures jobs[k] in Own(owner, jobs)
  {
    if k < |jobs| - 1 { OwnHas(owner, jobs[..|jobs| - 1], k); }
  }

  lemma RestIsDelivered(s: State)
    requires Inv(s) && DoneInOrder(s) && s.place == Idle && s.queue == []
    ensures AllDelivered(s)
  {
    hide Own, Of, Remaining, Prompt, DoneOk, AcksOk, EndOk, PlaceOk;
    assert Line(s) == s.out;
    forall id: nat | id < |s.queued| && s.queued[id].left.token == s.owner
      ensures exists k :: 0 <= k < |s.done| && s.done[k].id == id
    {
      assert InLine(Line(s), id);
      var k :| 0 <= k < |s.out| && s.out[k].id == id;
      assert JobOk(s.wire, s.queued, Line(s)[k]);
      OwnHas(s.owner, s.out, k);
      var j :| 0 <= j < |s.done| && s.done[j] == s.out[k];
    }
  }

  /**
   * From every reachable state in which the socket is not closed the responder can come to rest without a new reply: it
   * has delivered every reply that was queued for the socket, unless one of them asked for the end of the connection.
   */
  lemma {:induction false} EverythingGetsThrough(owner: nat, cs: seq<Choice>) returns (more: seq<Choice>)
    requires !Run(owner, cs).place.Closed?
    ensures forall i :: 0 <= i < |more| ==> more[i].Move?
    ensures var s := Run(owner, cs + more);
      && s.queued == Run(owner, cs).queued
      && if s.place.Closed? then s.done != [] && s.done[|s.done| - 1].left.end
         else s.place == Idle && s.queue == [] &&
              forall id: nat :: id < |s.queued| && s.queued[id].left.token == owner ==>
                exists k :: 0 <= k < |s.done| && s.done[k].id == id
  {
    hide Run, Inv, DoneInOrder, Pending, Enough;
    var s := Run(owner, cs);
    var n := Enough(Pending(s));
    EnoughPasses(Pending(s), n);
    more := ComesToRest(owner, cs, World(n, Takes(n), Takes(n), Takes(n)));
    var s' := Run(owner, cs + more);
    RunKeeps(owner, cs + more);
    RunDelivers(owner, cs + more);
    if !s'.place.Closed? { RestIsDelivered(s'); }
  }

  /** A delayed reply goes to the end of the queue; if no other was there when the responder looked, it stops. */
  lemma DelayedYields(s: State, job: Job, w: World, v: World)
    requires s.place == Waiting(job)
    ensures var s' := MoveStep(MoveStep(s, w, true), v, true);
      s'.queue == s.queue + [job] && s'.place == if s.queue == [] then Idle else Loop
  {
  }
}
