/** Whole runs of the responder: what is on the wire, in which order replies leave, and when they are acknowledged. */
module ResponderRuns {
  import opened Delivery
  import opened Responder

  /** The reply that the responder has in hand, or lost with its connection. */
  function Held(p: Place): seq<Job> {
    match p
    case Idle => []
    case Loop => []
    case Hand(job) => [job]
    case Waiting(job) => [job]
    case Rotate(job, _) => [job]
    case PutBack(job) => [job]
    case Complete(job) => [job]
    case Closed(lost) => lost
  }

  /** All replies that were queued: those that left, the one in hand, and those that wait. */
  function Line(s: State): seq<Job> {
    s.out + Held(s.place) + s.queue
  }

  /** The bytes of a reply on the wire and those left to send are all its bytes. */
  ghost predicate JobOk(wire: seq<Mark>, queued: seq<Job>, job: Job) {
    && job.id < |queued| && queued[job.id].whole == job.whole && SameButParts(queued[job.id].left, job.left)
    && Of(wire, job.id) + Remaining(job.left) == job.whole
  }

  // What holds under any clock.

  ghost predicate Numbered(queued: seq<Job>) {
    forall i :: 0 <= i < |queued| ==> queued[i].id == i
  }

  ghost predicate JobsOk(line: seq<Job>, wire: seq<Mark>, queued: seq<Job>) {
    forall k :: 0 <= k < |line| ==> JobOk(wire, queued, line[k])
  }

  /** Every queued reply is in the line exactly once. */
  ghost predicate Distinct(line: seq<Job>) {
    forall i, j :: 0 <= i < j < |line| ==> line[i].id != line[j].id
  }

  ghost predicate InLine(line: seq<Job>, id: nat) {
    exists k :: 0 <= k < |line| && line[k].id == id
  }

  ghost predicate AllInLine(line: seq<Job>, queued: seq<Job>) {
    forall id: nat :: id < |queued| ==> InLine(line, id)
  }

  ghost predicate NoneYet(wire: seq<Mark>, queued: seq<Job>) {
    forall id: nat :: id >= |queued| ==> Of(wire, id) == []
  }

  ghost predicate LineOk(line: seq<Job>, wire: seq<Mark>, queued: seq<Job>) {
    && Numbered(queued) && JobsOk(line, wire, queued) && Distinct(line) && AllInLine(line, queued)
    && NoneYet(wire, queued) && Prompt(line) == Prompt(queued)
  }

  ghost predicate DoneOk(s: State) {
    && (forall k :: 0 <= k < |s.done| ==>
          s.done[k].id < |s.queued| && s.queued[s.done[k].id].whole == s.done[k].whole == Of(s.wire, s.done[k].id))
    && (forall k :: 0 <= k < |s.done| ==> InLine(s.out, s.done[k].id))
  }

  ghost predicate Acknowledged(s: State, id: nat) {
    exists k :: 0 <= k < |s.done| && s.done[k].id == id && s.done[k].left.ack
  }

  ghost predicate AcksOk(s: State) {
    forall a :: a in s.acks ==> Acknowledged(s, a)
  }

  /** A reply that asks for the end of the connection is the last one. */
  ghost predicate EndOk(s: State) {
    forall k :: 0 <= k < |s.done| && s.done[k].left.end ==> k == |s.done| - 1 && s.place == Closed([])
  }

  ghost predicate PlaceOk(s: State) {
    && (s.place.Complete? ==> Remaining(s.place.job.left) == [])
    && (s.place.Waiting? || s.place.Rotate? ==> Delayed(s.place.job.left))
    && (s.place.Closed? ==> |s.place.lost| <= 1)
  }

  ghost predicate Inv(s: State) {
    LineOk(Line(s), s.wire, s.queued) && DoneOk(s) && AcksOk(s) && EndOk(s) && PlaceOk(s)
  }

  lemma InitInv(owner: nat)
    ensures Inv(Init(owner))
  {
  }

  // A reply is queued.

  lemma QueueLine(line: seq<Job>, wire: seq<Mark>, queued: seq<Job>, job: Job)
    requires LineOk(line, wire, queued) && job.id == |queued| && job.whole == Remaining(job.left)
    ensures LineOk(line + [job], wire, queued + [job])
  {
    var line', queued' := line + [job], queued + [job];
    PromptAppend(line, [job]);
    PromptAppend(queued, [job]);
    hide Prompt, Of, Remaining;
    assert Of(wire, job.id) == [];
    assert [] + job.whole == job.whole;
    forall k | 0 <= k < |line'| ensures JobOk(wire, queued', line'[k]) {
      if k < |line| { assert JobOk(wire, queued, line[k]); }
    }
    forall i, j | 0 <= i < j < |line'| ensures line'[i].id != line'[j].id {
      assert JobOk(wire, queued, line[i]);
    }
    forall id: nat | id < |queued'| ensures InLine(line', id) {
      if id < |queued| {
        assert InLine(line, id);
        var k :| 0 <= k < |line| && line[k].id == id;
        assert line'[k].id == id;
      } else {
        assert line'[|line|].id == id;
      }
    }
  }

  lemma QueueRest(s: State, r: Reply)
    requires DoneOk(s) && AcksOk(s) && EndOk(s) && PlaceOk(s)
    ensures var s' := QueueStep(s, r); DoneOk(s') && AcksOk(s') && EndOk(s') && PlaceOk(s')
  {
    hide Remaining, Of;
    var s' := QueueStep(s, r);
    forall a | a in s'.acks ensures Acknowledged(s', a) {
      assert Acknowledged(s, a);
    }
  }

  lemma QueueKeeps(s: State, r: Reply)
    requires Inv(s)
    ensures Inv(QueueStep(s, r))
  {
    hide LineOk, DoneOk, AcksOk, EndOk, PlaceOk, Remaining;
    var job := Job(|s.queued|, Remaining(r), r);
    QueueLine(Line(s), s.wire, s.queued, job);
    QueueRest(s, r);
    assert Line(QueueStep(s, r)) == Line(s) + [job];
  }

  // An attempt.

  /** Bytes of one reply go out; the others are not touched. */
  lemma TryLine(line: seq<Job>, wire: seq<Mark>, queued: seq<Job>, k: nat, job: Job, sent: seq<Unit>)
    requires LineOk(line, wire, queued) && k < |line|
    requires job.id == line[k].id && job.whole == line[k].whole && SameButParts(line[k].left, job.left)
    requires sent + Remaining(job.left) == Remaining(line[k].left)
    ensures LineOk(line[k := job], wire + Marks(job.id, sent), queued)
  {
    hide Prompt, Of, Remaining, Marks;
    var line', wire' := line[k := job], wire + Marks(job.id, sent);
    forall i | 0 <= i < |line'| ensures JobOk(wire', queued, line'[i]) {
      assert JobOk(wire, queued, line[i]);
      OfAppend(wire, job.id, sent, line'[i].id);
      assert i != k ==> line[i].id != line[k].id;
      assert i == k ==>
        Of(wire, job.id) + sent + Remaining(job.left) == Of(wire, job.id) + (sent + Remaining(job.left));
    }
    assert JobOk(wire, queued, line[k]);
    forall id: nat | id >= |queued| ensures Of(wire', id) == [] {
      OfAppend(wire, job.id, sent, id);
    }
    assert Distinct(line');
    forall id: nat | id < |queued| ensures InLine(line', id) {
      assert InLine(line, id);
      var i :| 0 <= i < |line| && line[i].id == id;
      assert line'[i].id == id;
    }
    PromptReplace(line, k, job);
  }

  lemma {:induction false} PromptReplace(line: seq<Job>, k: nat, job: Job)
    requires k < |line| && job.id == line[k].id && SameButParts(line[k].left, job.left)
    ensures Prompt(line[k := job]) == Prompt(line)
  {
    var n := |line| - 1;
    if k < n {
      PromptReplace(line[..n], k, job);
      assert line[k := job][..n] == line[..n][k := job];
    } else {
      assert line[k := job][..n] == line[..n];
    }
  }

  lemma TryDone(s: State, s': State, id: nat, sent: seq<Unit>)
    requires DoneOk(s) && s'.done == s.done && s'.queued == s.queued && s'.wire == s.wire + Marks(id, sent)
    requires forall k :: 0 <= k < |s.done| ==> s.done[k].id != id
    requires s.out <= s'.out
    ensures DoneOk(s')
  {
    hide Of, Marks;
    forall k | 0 <= k < |s'.done| ensures Of(s'.wire, s'.done[k].id) == Of(s.wire, s.done[k].id) {
      OfAppend(s.wire, id, sent, s'.done[k].id);
    }
    forall k | 0 <= k < |s'.done| ensures InLine(s'.out, s'.done[k].id) {
      OutGrows(s.out, s'.out, s.done[k].id);
    }
  }

  lemma OutGrows(out: seq<Job>, out': seq<Job>, id: nat)
    requires InLine(out, id) && out <= out'
    ensures InLine(out', id)
  {
    var i :| 0 <= i < |out| && out[i].id == id;
    assert out'[i].id == id;
  }

  /** A reply that is still in hand has not been sent before. */
  lemma HandIsNotDone(s: State, job: Job)
    requires Inv(s) && Held(s.place) == [job]
    ensures forall k :: 0 <= k < |s.done| ==> s.done[k].id != job.id
  {
    hide Prompt, Of, Remaining, JobsOk, NoneYet, AllInLine, AcksOk, EndOk, PlaceOk;
    forall k | 0 <= k < |s.done| ensures s.done[k].id != job.id {
      assert InLine(s.out, s.done[k].id);
      var i :| 0 <= i < |s.out| && s.out[i].id == s.done[k].id;
      assert Line(s)[i] == s.out[i] && Line(s)[|s.out|] == job;
    }
  }

  lemma TryLineOk(s: State, job: Job, world: World)
    requires LineOk(Line(s), s.wire, s.queued) && s.place == Hand(job)
    ensures LineOk(Line(TryStep(s, job, world)), TryStep(s, job, world).wire, s.queued)
  {
    hide LineOk, Process, Marks, Remaining, SameButParts, Line, Judge;
    var p := Process(job.left, s.owner, world);
    var job' := job.(left := p.rest);
    AttemptKeeps(job.left, s.owner, world);
    HandLine(s, job, job', s.(clock := world.now, wire := s.wire + Marks(job.id, p.sent)), p.code);
    TryLine(Line(s), s.wire, s.queued, |s.out|, job', p.sent);
  }

  /** Wherever the reply goes after an attempt, it keeps its place in the line. */
  lemma HandLine(s: State, job: Job, job': Job, s': State, code: int)
    requires s.place == Hand(job) && s'.out == s.out && s'.queue == s.queue
    ensures |s.out| < |Line(s)| && Line(s)[|s.out|] == job
    ensures Line(Judge(s', job', code)) == Line(s)[|s.out| := job']
    ensures Judge(s', job', code).wire == s'.wire
  {
    assert s.out + [job'] + s.queue == (s.out + [job] + s.queue)[|s.out| := job'];
  }

  lemma TryKeeps(s: State, job: Job, world: World)
    requires Inv(s) && s.place == Hand(job)
    ensures Inv(TryStep(s, job, world))
  {
    hide LineOk, DoneOk, Process, Marks, Remaining, Line;
    var p := Process(job.left, s.owner, world);
    var s' := TryStep(s, job, world);
    AttemptKeeps(job.left, s.owner, world);
    TryLineOk(s, job, world);
    HandIsNotDone(s, job);
    TryDone(s, s', job.id, p.sent);
    TryAcks(s, s');
  }

  lemma TryAcks(s: State, s': State)
    requires AcksOk(s) && s'.acks == s.acks && s.done <= s'.done
    ensures AcksOk(s')
  {
    forall a | a in s'.acks ensures Acknowledged(s', a) {
      assert Acknowledged(s, a);
      var k :| 0 <= k < |s.done| && s.done[k].id == a && s.done[k].left.ack;
      assert s'.done[k] == s.done[k];
    }
  }

  // A delayed reply goes to the end.

  lemma RotateLine(out: seq<Job>, job: Job, queue: seq<Job>, wire: seq<Mark>, queued: seq<Job>)
    requires LineOk(out + [job] + queue, wire, queued) && Delayed(job.left)
    ensures LineOk(out + (queue + [job]), wire, queued)
  {
    var a, b := out + [job] + queue, out + (queue + [job]);
    PromptAppend(out + [job], queue);
    PromptAppend(out, [job]);
    PromptAppend(out, queue + [job]);
    PromptAppend(queue, [job]);
    PromptOne(job);
    hide Prompt, Of, Remaining;
    RotateParts(out, job, queue, wire, queued);
  }

  function Source(out: nat, n: nat, k: nat): nat {
    if k < out then k else if k < n - 1 then k + 1 else out
  }

  lemma RotateParts(out: seq<Job>, job: Job, queue: seq<Job>, wire: seq<Mark>, queued: seq<Job>)
    requires Distinct(out + [job] + queue) && AllInLine(out + [job] + queue, queued)
    requires JobsOk(out + [job] + queue, wire, queued)
    ensures Distinct(out + (queue + [job])) && AllInLine(out + (queue + [job]), queued)
    ensures JobsOk(out + (queue + [job]), wire, queued)
  {
    hide JobOk;
    var a, b := out + [job] + queue, out + (queue + [job]);
    forall k | 0 <= k < |b| ensures b[k] == a[Source(|out|, |a|, k)] {
    }
    forall k | 0 <= k < |b| ensures JobOk(wire, queued, b[k]) {
      assert b[k] == a[Source(|out|, |a|, k)];
    }
    forall i, j | 0 <= i < j < |b| ensures b[i].id != b[j].id {
      assert b[i] == a[Source(|out|, |a|, i)] && b[j] == a[Source(|out|, |a|, j)];
    }
    forall id: nat | id < |queued| ensures InLine(b, id) {
      assert InLine(a, id);
      var k :| 0 <= k < |a| && a[k].id == id;
      var m := if k < |out| then k else if k == |out| then |a| - 1 else k - 1;
      assert b[m] == a[k];
    }
  }

  lemma RotateKeeps(s: State, job: Job, alone: bool, world: World, notify: bool)
    requires Inv(s) && s.place == Rotate(job, alone)
    ensures Inv(MoveStep(s, world, notify))
  {
    hide LineOk, DoneOk;
    var s' := MoveStep(s, world, notify);
    RotateLine(s.out, job, s.queue, s.wire, s.queued);
    assert Line(s') == s.out + (s.queue + [job]);
    SameDone(s, s');
    TryAcks(s, s');
  }

  lemma SameDone(s: State, s': State)
    requires DoneOk(s) && s'.done == s.done && s'.queued == s.queued && s'.wire == s.wire && s'.out == s.out
    ensures DoneOk(s')
  {
  }

  // A reply is complete.

  lemma FinishDone(s: State, job: Job, notify: bool)
    requires Inv(s) && s.place == Complete(job)
    ensures DoneOk(FinishStep(s, job, notify))
  {
    hide Of, Remaining, Prompt, AllInLine, NoneYet, AcksOk, EndOk, Distinct;
    var s' := FinishStep(s, job, notify);
    assert Line(s)[|s.out|] == job;
    assert JobOk(s.wire, s.queued, job);
    assert Of(s.wire, job.id) + [] == Of(s.wire, job.id);
    forall k | 0 <= k < |s'.done| ensures InLine(s'.out, s'.done[k].id) {
      if k < |s.done| {
        OutGrows(s.out, s'.out, s.done[k].id);
      } else {
        assert s'.out[|s.out|].id == job.id;
      }
    }
  }

  lemma FinishKeeps(s: State, job: Job, notify: bool)
    requires Inv(s) && s.place == Complete(job)
    ensures Inv(FinishStep(s, job, notify))
  {
    hide LineOk, DoneOk, AcksOk;
    var s' := FinishStep(s, job, notify);
    FinishDone(s, job, notify);
    FinishAcks(s, job, notify);
    assert Line(s') == Line(s);
  }

  lemma FinishAcks(s: State, job: Job, notify: bool)
    requires AcksOk(s)
    ensures AcksOk(FinishStep(s, job, notify))
  {
    var s' := FinishStep(s, job, notify);
    forall a | a in s'.acks ensures Acknowledged(s', a) {
      if a in s.acks {
        assert Acknowledged(s, a);
        var k :| 0 <= k < |s.done| && s.done[k].id == a && s.done[k].left.ack;
        assert s'.done[k] == s.done[k];
      } else {
        assert s'.done[|s.done|] == job;
      }
    }
  }

  /** The other moves leave the line as it is. */
  lemma MoveKeeps(s: State, world: World, notify: bool)
    requires Inv(s)
    ensures Inv(MoveStep(s, world, notify))
  {
    hide LineOk, DoneOk, AcksOk, TryStep, FinishStep;
    var s' := MoveStep(s, world, notify);
    match s.place
    case Hand(job) => TryKeeps(s, job, world);
    case Rotate(job, alone) => RotateKeeps(s, job, alone, world, notify);
    case Complete(job) => FinishKeeps(s, job, notify);
    case _ =>
      LineSame(s, world, notify);
      SameDone(s, s');
      TryAcks(s, s');
  }

  lemma LineSame(s: State, world: World, notify: bool)
    requires s.place.Idle? || s.place.Loop? || s.place.Waiting? || s.place.PutBack? || s.place.Closed?
    ensures Line(MoveStep(s, world, notify)) == Line(s)
  {
    if s.place.Loop? && s.queue != [] { assert [s.queue[0]] + s.queue[1..] == s.queue; }
  }

  lemma StepKeeps(s: State, c: Choice)
    requires Inv(s)
    ensures Inv(Step(s, c))
  {
    hide Inv, QueueStep, MoveStep;
    match c
    case Queue(r) => QueueKeeps(s, r);
    case Move(world, notify) => MoveKeeps(s, world, notify);
  }

  lemma {:induction false} RunKeeps(owner: nat, cs: seq<Choice>)
    ensures Inv(Run(owner, cs))
  {
    hide Inv, Step;
    if cs == [] {
      InitInv(owner);
    } else {
      RunKeeps(owner, cs[..|cs| - 1]);
      StepKeeps(Run(owner, cs[..|cs| - 1]), cs[|cs| - 1]);
    }
  }
}
