/**
 * The discipline is needed: behind every call that is not allowed, the pending calls alone can use a destroyed socket.
 */
module SocketLocksNecessity {
  import opened Options
  import opened SocketLocks
  import opened SocketLocksSafety
  import opened SocketLocksRuns
  import opened SocketLocksOrder
  import opened SocketLocksProgress
  import opened SocketLocksDiscipline

  /** Thread u is about to take the socket out of the array, or it is out. */
  ghost predicate Follows(s: State, u: Thread, x: Sock) {
    x in s.ever && (PcOf(s, u) == CloseStart(x) || PcOf(s, u) == CloseArray(x) || !Registered(s, x))
  }

  /** The call of the choice is no opening, acquisition or close. */
  predicate Goes(c: Choice) {
    c.call.Continue? || c.call.Release?
  }

  lemma FollowsStep(s: State, c: Choice, u: Thread, x: Sock)
    requires Inv(s) && Follows(s, u, x) && Goes(c) && Step(s, c).Next?
    ensures Follows(Step(s, c).s, u, x)
  {
    hide Inv, Step, Registered;
    TableStep(s, c, x);
    if c.t != u {
      OthersStay(s, c, u);
    } else if PcOf(s, u) == CloseStart(x) || PcOf(s, u) == CloseArray(x) {
      FollowerMoves(s, c, x);
    }
  }

  lemma FollowerMoves(s: State, c: Choice, x: Sock)
    requires Step(s, c).Next? && (PcOf(s, c.t) == CloseStart(x) || PcOf(s, c.t) == CloseArray(x))
    ensures PcOf(s, c.t) == CloseStart(x) ==> PcOf(Step(s, c).s, c.t) == CloseArray(x)
  {
    hide Begin, AcquireStep, ReleaseStep;
  }

  lemma {:induction false} FollowsRun(s: State, ms: seq<Choice>, u: Thread, x: Sock)
    requires Inv(s) && Follows(s, u, x) && OnlyMoves(ms) && Run(s, ms).Next?
    ensures Inv(Run(s, ms).s) && Follows(Run(s, ms).s, u, x)
  {
    hide Inv, Step, Follows;
    if ms != [] {
      var n := |ms| - 1;
      FollowsRun(s, ms[..n], u, x);
      var r := Run(s, ms[..n]).s;
      assert Goes(ms[n]);
      StepKeeps(r, ms[n]);
      if Step(r, ms[n]).Next? { FollowsStep(r, ms[n], u, x); }
    }
  }

  // Threads that keep nothing while they are in a call.

  /** A thread that keeps a socket is in no call, and keeps no other. */
  ghost predicate Light(s: State) {
    && (forall t: Thread, x: Sock :: Has(s, t, x) ==> PcOf(s, t) == Idle)
    && (forall t: Thread, x: Sock, y: Sock :: Has(s, t, x) && Has(s, t, y) ==> x == y)
  }

  /** An acquisition or a close is called by a thread that keeps no socket. */
  ghost predicate Bare(s: State, c: Choice) {
    PcOf(s, c.t) == Idle && (c.call.Acquire? || c.call.Close?) ==> forall x :: !Has(s, c.t, x)
  }

  ghost predicate AllBare(cs: seq<Choice>) {
    cs == [] ||
    (AllBare(cs[..|cs| - 1]) &&
     (Run(Init(), cs[..|cs| - 1]).Next? ==> Bare(Run(Init(), cs[..|cs| - 1]).s, cs[|cs| - 1])))
  }

  lemma LightMover(s: State, c: Choice, x: Sock)
    requires Light(s) && Bare(s, c) && Step(s, c).Next? && Has(Step(s, c).s, c.t, x)
    ensures PcOf(Step(s, c).s, c.t) == Idle && (Has(s, c.t, x) || PcOf(s, c.t) == AcqLeave(Some(x)))
  {
    hide Light, Bare, AcquireStep, ReleaseStep, CloseStep;
    if PcOf(s, c.t) == Idle {
      LightCaller(s, c, x);
    } else {
      LightInCall(s, c, x);
      if Has(s, c.t, x) { LightIsIdle(s, c.t, x); }
    }
  }

  lemma LightIsIdle(s: State, t: Thread, x: Sock)
    requires Light(s) && Has(s, t, x)
    ensures PcOf(s, t) == Idle
    ensures forall y :: Has(s, t, y) ==> y == x
  {
  }

  lemma LightCaller(s: State, c: Choice, x: Sock)
    requires Light(s) && Bare(s, c) && PcOf(s, c.t) == Idle && Step(s, c).Next? && Has(Step(s, c).s, c.t, x)
    ensures PcOf(Step(s, c).s, c.t) == Idle && Has(s, c.t, x)
  {
    hide Light, AcquireStep, ReleaseStep, CloseStep;
    assert Has(s, c.t, x);
    LightIsIdle(s, c.t, x);
  }

  lemma LightInCall(s: State, c: Choice, x: Sock)
    requires PcOf(s, c.t) != Idle && Step(s, c).Next? && Has(Step(s, c).s, c.t, x)
    ensures Has(s, c.t, x) || (PcOf(s, c.t) == AcqLeave(Some(x)) && PcOf(Step(s, c).s, c.t) == Idle)
  {
  }

  lemma LightStep(s: State, c: Choice)
    requires Light(s) && Bare(s, c) && Step(s, c).Next?
    ensures Light(Step(s, c).s)
  {
    hide Step, Bare;
    var s' := Step(s, c).s;
    forall t: Thread, x: Sock | Has(s', t, x) ensures PcOf(s', t) == Idle {
      if t == c.t { LightMover(s, c, x); } else { OthersStay(s, c, t); }
    }
    forall t: Thread, x: Sock, y: Sock | Has(s', t, x) && Has(s', t, y) ensures x == y {
      if t == c.t {
        LightMover(s, c, x);
        LightMover(s, c, y);
      } else {
        OthersStay(s, c, t);
      }
    }
  }

  lemma BareIsNotNested(s: State, c: Choice)
    requires Bare(s, c)
    ensures !Nested(s, c)
  {
  }

  lemma {:induction false} BareRun(cs: seq<Choice>)
    requires AllBare(cs)
    ensures Untangled(cs) && (Run(Init(), cs).Next? ==> Light(Run(Init(), cs).s))
  {
    hide Step, Bare, Nested, Light, Init;
    if cs == [] {
      InitLight();
    } else {
      BareRun(cs[..|cs| - 1]);
      var o, c := Run(Init(), cs[..|cs| - 1]), cs[|cs| - 1];
      if o.Next? {
        BareIsNotNested(o.s, c);
        if Step(o.s, c).Next? { LightStep(o.s, c); }
      }
    }
  }

  lemma InitLight()
    ensures Light(Init())
  {
  }

  /** The order of the sockets that left the array, and that threads in calls keep nothing. */
  ghost predicate Tidy(s: State, r: map<Sock, nat>, n: nat) {
    Inv(s) && Ordered(s, r, n) && Light(s)
  }

  lemma GoesIsBare(s: State, c: Choice)
    requires Goes(c)
    ensures Bare(s, c) && !Nested(s, c)
  {
  }

  lemma TidyStep(s: State, c: Choice, r: map<Sock, nat>, n: nat)
    requires Tidy(s, r, n) && Bare(s, c) && Step(s, c).Next?
    ensures Tidy(Step(s, c).s, Numbers(s, c, r, n), n + 1)
  {
    hide Inv, Ordered, Light, Step, Numbers, Nested, Bare;
    StepKeeps(s, c);
    BareIsNotNested(s, c);
    OrderStep(s, c, r, n);
    LightStep(s, c);
  }

  lemma InCallStands(s: State, f: Thread)
    requires Light(s) && (PcOf(s, f).CloseStart? || PcOf(s, f).RelSignal?)
    ensures Stands(s, f)
  {
  }

  predicate StillAt(pc: Pc) {
    pc.CloseStart? || pc.RelSignal?
  }

  /** When all other threads are idle, the socket that a closer followed is gone. */
  lemma IdleMeansGone(s: State, f: Thread, u: Thread, x: Sock)
    requires Inv(s) && AllIdleBut(s, f) && StillAt(PcOf(s, f)) && u != f && Follows(s, u, x)
    ensures x !in s.mem
  {
    hide ArrayLockOk, MutexesOk, ThreadsOk, ArrayOk, Apart, TakenIsHeld;
    assert forall t: Thread :: Closing(PcOf(s, t)) == None;
    assert !BeingClosed(s, x);
  }

  lemma IdleMeansUnlocked(s: State, f: Thread)
    requires Inv(s) && AllIdleBut(s, f) && StillAt(PcOf(s, f))
    ensures s.writer == None && s.readers == {}
  {
    hide MutexesOk, ThreadsOk, ArrayOk, Apart, TakenIsHeld, MemoryOk, Covered;
    WriterOf(s);
    assert forall t: Thread :: !Reads(PcOf(s, t));
  }

  lemma SignalCrashes(s: State, f: Thread, x: Sock)
    requires PcOf(s, f) == RelSignal(x) && x !in s.mem
    ensures Run(s, [Move(f)]) == Crash
  {
    RunOne(s, Move(f));
  }

  lemma CloserCrashes(s: State, f: Thread, x: Sock)
    requires PcOf(s, f) == CloseStart(x) && x !in s.mem && s.writer == None && s.readers == {}
    ensures Run(s, [Move(f), Move(f)]) == Crash
  {
    RunOne(s, Move(f));
    var s' := Step(s, Move(f)).s;
    assert PcOf(s', f) == CloseArray(x) && s'.mem == s.mem;
    RunOne(s', Move(f));
    RunOn(s, [Move(f)], [Move(f)]);
    assert [Move(f)] + [Move(f)] == [Move(f), Move(f)];
  }

  /** A thread about to signal, or to close a second time, waits until the socket is gone. */
  lemma LateComer(s: State, f: Thread, u: Thread, x: Sock, r: map<Sock, nat>, n: nat) returns (ms: seq<Choice>)
    requires Tidy(s, r, n) && u != f && Follows(s, u, x)
    requires PcOf(s, f) == CloseStart(x) || PcOf(s, f) == RelSignal(x)
    ensures OnlyMoves(ms) && Run(s, ms) == Crash
  {
    hide Inv, Step, Follows, AllIdleBut, Listed, Ordered, Light, Stands;
    InCallStands(s, f);
    var ts := Callers(s, f);
    ms := Drain(s, f, ts, r, n);
    if Run(s, ms).Next? {
      FollowsRun(s, ms, u, x);
      var s' := Run(s, ms).s;
      IdleMeansGone(s', f, u, x);
      IdleMeansUnlocked(s', f);
      var end: seq<Choice>;
      if PcOf(s, f) == RelSignal(x) {
        SignalCrashes(s', f, x);
        end := [Move(f)];
      } else {
        CloserCrashes(s', f, x);
        end := [Move(f), Move(f)];
      }
      RunOn(s, ms, end);
      ms := ms + end;
    }
  }

  /** While the only closer stands still, a user of the socket stays one up to its signal. */
  ghost predicate OnlyCloserIs(s: State, u: Thread, x: Sock) {
    PcOf(s, u) == CloseStart(x) && forall w: Thread :: w != u ==> !Closes(PcOf(s, w), x)
  }

  lemma CloserStays(s: State, c: Choice, u: Thread, x: Sock)
    requires Inv(s) && OnlyCloserIs(s, u, x) && c.t != u && Goes(c) && Step(s, c).Next?
    ensures OnlyCloserIs(Step(s, c).s, u, x)
  {
    hide Inv, Step, Late, Closes;
    var s' := Step(s, c).s;
    OthersStay(s, c, u);
    forall w: Thread | w != u ensures !Closes(PcOf(s', w), x) {
      ClosesFalls(s, c, w, x);
    }
  }

  lemma ClosesFalls(s: State, c: Choice, w: Thread, x: Sock)
    requires Inv(s) && Goes(c) && Step(s, c).Next?
    ensures Closes(PcOf(Step(s, c).s, w), x) ==> Closes(PcOf(s, w), x)
  {
    hide Inv, Step, Closes;
    if PcOf(s, c.t) != Idle {
      LateFalls(s, c, w, x);
    } else if c.call.Release? {
      GiveOthers(s, c, w, x);
    } else {
      NothingContinues(s, c);
    }
  }

  lemma FoundStays(s: State, c: Choice, id: Id, x: Sock)
    requires Inv(s) && Goes(c) && !Closes(PcOf(s, c.t), x) && Step(s, c).Next? && Found(s, id, x)
    ensures Found(Step(s, c).s, id, x)
  {
    hide Inv, OnlyHolder, OnlyInMutex;
  }

  lemma NotLeaving(s: State, u: Thread, x: Sock)
    requires Inv(s) && OnlyCloserIs(s, u, x)
    ensures !Leaving(s, x)
  {
    hide Inv;
    WriterOf(s);
  }

  /** The user moves. */
  lemma UserMoves(s: State, v: Thread, x: Sock)
    requires Inv(s) && Uses(s, v, x) && PcOf(s, v) != RelSignal(x) && PcOf(s, v) != Idle && Step(s, Move(v)).Next?
    ensures Uses(Step(s, Move(v)).s, v, x)
  {
    hide Inv, OnlyHolder, OnlyInMutex, Begin;
    Known(s, v);
    InMemory(s, v);
  }

  lemma UserGives(s: State, v: Thread, x: Sock)
    requires PcOf(s, v) == Idle && Has(s, v, x)
    ensures Step(s, GiveBack(v, x)).Next? && Uses(Step(s, GiveBack(v, x)).s, v, x)
    ensures PcOf(Step(s, GiveBack(v, x)).s, v) == RelLock(x)
  {
  }

  /** Another thread moves. */
  lemma UserStays(s: State, c: Choice, v: Thread, u: Thread, x: Sock)
    requires Inv(s) && OnlyCloserIs(s, u, x) && c.t != u && c.t != v && Goes(c) && Step(s, c).Next?
    requires Uses(s, v, x)
    ensures Uses(Step(s, c).s, v, x)
  {
    hide Inv, Step, Leaving, Closes, OnlyCloserIs;
    var s' := Step(s, c).s;
    OthersStay(s, c, v);
    CloserStays(s, c, u, x);
    StepKeeps(s, c);
    NotLeaving(s', u, x);
    OnlyOne(s, u, x, c.t);
    if Has(s, v, x) {
      OthersKeep(s, c, v, x);
    } else if PcOf(s, v).AcqStart? || PcOf(s, v).AcqRead? {
      FoundStays(s, c, PcOf(s, v).id, x);
    }
  }

  lemma OnlyOne(s: State, u: Thread, x: Sock, m: Thread)
    requires OnlyCloserIs(s, u, x) && m != u
    ensures !Closes(PcOf(s, m), x)
  {
  }

  lemma IdleUserHas(s: State, v: Thread, x: Sock)
    requires Uses(s, v, x)
    ensures PcOf(s, v) == Idle ==> Has(s, v, x)
  {
  }

  lemma StillCloser(s: State, u: Thread, x: Sock)
    requires OnlyCloserIs(s, u, x)
    ensures PcOf(s, u) == CloseStart(x)
  {
  }

  /** What the others do next to bring a user on; an idle user gives the socket back. */
  lemma NextForUser(s: State, v: Thread, u: Thread, x: Sock, ts: seq<Thread>, r: map<Sock, nat>, n: nat)
    returns (c: Choice)
    requires Tidy(s, r, n) && OnlyCloserIs(s, u, x) && v != u && Uses(s, v, x) && PcOf(s, v) != RelSignal(x)
    requires Listed(s, u, ts)
    ensures c.t != u && Goes(c)
    ensures Step(s, c) == Crash || (Step(s, c).Next? && Uses(Step(s, c).s, v, x) && Listed(Step(s, c).s, u, ts) &&
      Total(Step(s, c).s, ts) < Total(s, ts))
  {
    hide Inv, Step, Uses, OnlyCloserIs, Total, Advances, Listed, Ordered, Light, Stands, Numbers, Has;
    IdleUserHas(s, v, x);
    StillCloser(s, u, x);
    InCallStands(s, u);
    if PcOf(s, v) == Idle {
      c := GiveBack(v, x);
      UserGives(s, v, x);
      CanGive(s, v, x);
      CanMove(s, c);
      RanksStay(s, c);
      AdvancesTotal(s, c, ts);
    } else {
      c := Progress(s, u, v, ts, r, n);
      if Step(s, c).Next? {
        if c.t == v { UserContinues(s, c, v, x); } else { UserStays(s, c, v, u, x); }
      }
    }
    MoverListed(s, c, u, ts);
    if Step(s, c).Next? { ListStays(s, c, u, ts); }
  }

  lemma CanGive(s: State, v: Thread, x: Sock)
    requires PcOf(s, v) == Idle && Has(s, v, x)
    ensures Can(s, GiveBack(v, x))
  {
  }

  lemma UserContinues(s: State, c: Choice, v: Thread, x: Sock)
    requires Inv(s) && Uses(s, v, x) && PcOf(s, v) != RelSignal(x) && PcOf(s, v) != Idle && c.t == v
    requires Step(s, c).Next? && (c.call.Release? ==> PcOf(s, v) == Idle) && Goes(c)
    ensures Uses(Step(s, c).s, v, x)
  {
    hide Inv, Step, Uses;
    assert c == Move(v);
    UserMoves(s, v, x);
  }

  /** The user of a socket that is about to be closed comes to its signal, while the closer stands still. */
  lemma {:induction false} Bring(s: State, v: Thread, u: Thread, x: Sock, ts: seq<Thread>, r: map<Sock, nat>, n: nat)
    returns (ms: seq<Choice>, r': map<Sock, nat>, n': nat)
    requires Tidy(s, r, n) && OnlyCloserIs(s, u, x) && v != u && Uses(s, v, x) && Listed(s, u, ts)
    ensures OnlyMoves(ms)
    ensures Run(s, ms) == Crash || (Run(s, ms).Next? && Tidy(Run(s, ms).s, r', n') &&
      OnlyCloserIs(Run(s, ms).s, u, x) && PcOf(Run(s, ms).s, v) == RelSignal(x))
    decreases Total(s, ts)
  {
    hide Inv, Step, Uses, OnlyCloserIs, Total, Listed, Ordered, Light, Numbers, Bare;
    ms, r', n' := [], r, n;
    if PcOf(s, v) != RelSignal(x) {
      var c := NextForUser(s, v, u, x, ts, r, n);
      RunOne(s, c);
      ms := [c];
      if Step(s, c).Next? {
        CloserStays(s, c, u, x);
        GoesIsBare(s, c);
        TidyStep(s, c, r, n);
        var rest;
        rest, r', n' := Bring(Step(s, c).s, v, u, x, ts, Numbers(s, c, r, n), n + 1);
        ms := [c] + rest;
        RunOn(s, [c], rest);
      }
    }
  }

  lemma UserAndCloser(s: State, v: Thread, u: Thread, x: Sock, r: map<Sock, nat>, n: nat) returns (ms: seq<Choice>)
    requires Tidy(s, r, n) && OnlyCloserIs(s, u, x) && v != u && Uses(s, v, x)
    ensures OnlyMoves(ms) && Run(s, ms) == Crash
  {
    hide Inv, Step, Uses, Listed, Ordered, Light;
    var ts := Callers(s, u);
    var r', n';
    ms, r', n' := Bring(s, v, u, x, ts, r, n);
    if Run(s, ms).Next? {
      var s' := Run(s, ms).s;
      InEver(s', u, x);
      var rest := LateComer(s', v, u, x, r', n');
      RunOn(s, ms, rest);
      ms := ms + rest;
    }
  }

  lemma InEver(s: State, u: Thread, x: Sock)
    requires Inv(s) && OnlyCloserIs(s, u, x)
    ensures Follows(s, u, x)
  {
    hide Inv;
    ClosesEver(s, u, x);
  }

  // A call that is not allowed.

  /** A socket that is closed or gone, or about to be closed, when another close of it begins. */
  lemma SecondClose(s: State, t: Thread, u: Thread, x: Sock, r: map<Sock, nat>, n: nat) returns (ms: seq<Choice>)
    requires Tidy(s, r, n) && PcOf(s, t) == Idle && x in s.ever && u != t && (x in s.gone || Closes(PcOf(s, u), x))
    requires Bare(s, Choice(t, Close(x))) && Step(s, Choice(t, Close(x))).Next?
    ensures OnlyMoves(ms) && Run(Step(s, Choice(t, Close(x))).s, ms) == Crash
  {
    hide Inv, Ordered, Light, Bare, Numbers;
    var c := Choice(t, Close(x));
    TidyStep(s, c, r, n);
    CloserFollows(s, u, x);
    ms := LateComer(Step(s, c).s, t, u, x, Numbers(s, c, r, n), n + 1);
  }

  lemma CloserFollows(s: State, u: Thread, x: Sock)
    requires Inv(s) && x in s.ever && (x in s.gone || Closes(PcOf(s, u), x))
    ensures Follows(s, u, x)
  {
    hide ArrayLockOk, MutexesOk, Apart, Covered, TakenIsHeld;
    assert ThreadOk(s, PcOf(s, u));
  }

  /** A socket that is in use when its first close begins. */
  lemma CloseInUse(s: State, t: Thread, v: Thread, x: Sock, r: map<Sock, nat>, n: nat) returns (ms: seq<Choice>)
    requires Tidy(s, r, n) && PcOf(s, t) == Idle && x in s.ever && v != t && Uses(s, v, x)
    requires forall w: Thread :: w != t ==> !Closes(PcOf(s, w), x)
    requires Bare(s, Choice(t, Close(x))) && Step(s, Choice(t, Close(x))).Next?
    ensures OnlyMoves(ms) && Run(Step(s, Choice(t, Close(x))).s, ms) == Crash
  {
    hide Inv, Uses, Closes, Late, Ordered, Light, Bare, Numbers;
    var c := Choice(t, Close(x));
    TidyStep(s, c, r, n);
    OnlyNow(s, t, x);
    StillUses(s, c, v, x);
    ms := UserAndCloser(Step(s, c).s, v, t, x, Numbers(s, c, r, n), n + 1);
  }

  lemma OnlyNow(s: State, t: Thread, x: Sock)
    requires PcOf(s, t) == Idle && x in s.ever && forall w: Thread :: w != t ==> !Closes(PcOf(s, w), x)
    ensures OnlyCloserIs(Step(s, Choice(t, Close(x))).s, t, x)
  {
    hide Closes;
    var s' := Step(s, Choice(t, Close(x))).s;
    assert forall w: Thread :: w != t ==> PcOf(s', w) == PcOf(s, w);
  }

  lemma StillUses(s: State, c: Choice, v: Thread, x: Sock)
    requires Inv(s) && PcOf(s, c.t) == Idle && v != c.t && (c.call.Acquire? || c.call.Close?) && Step(s, c).Next?
    requires Uses(s, v, x)
    ensures var s' := Step(s, c).s; Uses(s', v, x)
  {
    hide Inv;
    WriterOf(s);
  }

  /** An acquisition that begins while a closer waits for the array. */
  lemma AcquireTooLate(s: State, t: Thread, u: Thread, id: Id, r: map<Sock, nat>, n: nat) returns (ms: seq<Choice>)
    requires Tidy(s, r, n) && Calm(s) && PcOf(s, t) == Idle && id in s.table && PcOf(s, u) == CloseStart(s.table[id])
    requires Bare(s, Choice(t, Acquire(id)))
    ensures OnlyMoves(ms) && Run(Step(s, Choice(t, Acquire(id))).s, ms) == Crash
  {
    hide Inv, Uses, Closes, Late, Ordered, Light, Bare, Numbers;
    var x, c := s.table[id], Choice(t, Acquire(id));
    TidyStep(s, c, r, n);
    SoleCloser(s, t, u, id, x);
    ms := UserAndCloser(Step(s, c).s, t, u, x, Numbers(s, c, r, n), n + 1);
  }

  lemma SoleCloser(s: State, t: Thread, u: Thread, id: Id, x: Sock)
    requires Inv(s) && Calm(s) && PcOf(s, t) == Idle && Found(s, id, x) && PcOf(s, u) == CloseStart(x)
    ensures var s' := Step(s, Choice(t, Acquire(id))).s;
      OnlyCloserIs(s', u, x) && Uses(s', t, x) && x in s'.ever
  {
    hide Inv;
    var s' := Step(s, Choice(t, Acquire(id))).s;
    assert Late(s, u, x);
    assert forall w: Thread :: w != t ==> PcOf(s', w) == PcOf(s, w);
    ClosesEver(s, u, x);
    StepKeeps(s, Choice(t, Acquire(id)));
    NotLeaving(s', u, x);
  }

  lemma CloseFails(s: State, t: Thread, x: Sock, r: map<Sock, nat>, n: nat) returns (ms: seq<Choice>)
    requires Tidy(s, r, n) && PcOf(s, t) == Idle && x in s.ever && !Allowed(s, Choice(t, Close(x)))
    requires Bare(s, Choice(t, Close(x)))
    ensures Step(s, Choice(t, Close(x))).Next?
    ensures OnlyMoves(ms) && Run(Step(s, Choice(t, Close(x))).s, ms) == Crash
  {
    hide Inv, Uses, Closes, Ordered, Light, Bare;
    if x in s.gone {
      ms := SecondClose(s, t, t + 1, x, r, n);
    } else if w: Thread :| w != t && Closes(PcOf(s, w), x) {
      ms := SecondClose(s, t, w, x, r, n);
    } else {
      var v: Thread :| v != t && Uses(s, v, x);
      ms := CloseInUse(s, t, v, x, r, n);
    }
  }

  /** Behind every call that is not allowed some run uses a destroyed socket, without any further call. */
  lemma NotAllowedFails(s: State, c: Choice, r: map<Sock, nat>, n: nat) returns (ms: seq<Choice>)
    requires Tidy(s, r, n) && Calm(s) && !Allowed(s, c) && Bare(s, c)
    ensures Step(s, c).Next? && OnlyMoves(ms) && Run(Step(s, c).s, ms) == Crash
  {
    hide Inv, Calm, Uses, Closes, Ordered, Light, Bare;
    match c.call
    case Close(x) => ms := CloseFails(s, c.t, x, r, n);
    case Acquire(id) =>
      var u: Thread :| PcOf(s, u) == CloseStart(s.table[id]);
      ms := AcquireTooLate(s, c.t, u, id, r, n);
  }

  lemma TidyRun(cs: seq<Choice>) returns (r: map<Sock, nat>, n: nat)
    requires AllBare(cs) && Run(Init(), cs).Next?
    ensures Tidy(Run(Init(), cs).s, r, n)
  {
    hide Run, Inv, Ordered, Light, Init;
    BareRun(cs);
    RunKeeps(cs);
    r, n := RunOrdered(cs);
  }

  /** The first call that is not allowed, and how the run goes wrong behind it. */
  lemma {:induction false} FirstFailure(cs: seq<Choice>) returns (k: nat, ms: seq<Choice>)
    requires !Disciplined(cs) && AllBare(cs)
    ensures k <= |cs| && OnlyMoves(ms) && Run(Init(), cs[..k] + ms) == Crash
  {
    hide Inv, Calm, Step, Allowed, Init, Bare, Tidy;
    var m := |cs| - 1;
    if Disciplined(cs[..m]) {
      DisciplinedRuns(cs[..m]);
      var s := Run(Init(), cs[..m]).s;
      var r, n := TidyRun(cs[..m]);
      ms := NotAllowedFails(s, cs[m], r, n);
      k := m + 1;
      assert cs[..k] == cs;
      RunOn(Init(), cs, ms);
    } else {
      k, ms := FirstFailure(cs[..m]);
      assert cs[..m][..k] == cs[..k];
    }
  }

  /**
   * Under the discipline no destroyed socket is used, in a run or in the way in which its pending calls go on at any
   * point; and where every acquisition and every close is called by a thread that keeps no socket, the discipline is
   * exactly what it takes.
   */
  lemma {:induction false} HarmlessIffDisciplined(cs: seq<Choice>)
    ensures Disciplined(cs) ==> Harmless(cs)
    ensures AllBare(cs) ==> (Harmless(cs) <==> Disciplined(cs))
  {
    hide Run, Disciplined, AllBare, Init;
    if Disciplined(cs) {
      DisciplineSuffices(cs);
    } else if AllBare(cs) {
      var k, ms := FirstFailure(cs);
      assert Run(Init(), cs[..k] + ms) == Crash;
    }
  }
}
