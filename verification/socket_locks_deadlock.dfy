/**
 * What may happen to a thread that begins a call while it keeps a socket that others can find: behind such a call the
 * other threads can act so that it never comes to its end.
 */
module SocketLocksDeadlock {
  import opened Options
  import opened SocketLocks
  import opened SocketLocksSafety
  import opened SocketLocksRuns
  import opened SocketLocksOrder
  import opened SocketLocksProgress

  /** However the run goes on, with whatever calls, the call of the thread does not end, by a crash as little. */
  ghost predicate Hangs(s: State, t: Thread) {
    forall ms :: Run(s, ms).Next? ==> PcOf(Run(s, ms).s, t) != Idle && Step(Run(s, ms).s, Move(t)) != Crash
  }

  /** An acquirer that has found the socket, and has the array locked, until it gets it. */
  predicate Awaits(pc: Pc, x: Sock) {
    pc in {AcqLock(x), AcqCheck(x), AcqWait(x)}
  }

  /**
   * Thread u waits for a socket that t keeps; and t is the same thread, or it is going to close a socket, for which it
   * needs the array, or it waits in its turn for a socket that u keeps.
   */
  ghost predicate Knot(s: State, t: Thread, u: Thread, x: Sock, y: Sock) {
    && Has(s, t, x) && Awaits(PcOf(s, u), x)
    && (u == t || PcOf(s, t).CloseStart? || (Awaits(PcOf(s, t), y) && Has(s, u, y)))
  }

  lemma AwaitStep(s: State, c: Choice, x: Sock)
    requires Inv(s) && Awaits(PcOf(s, c.t), x) && x in s.owned && Step(s, c).Next?
    ensures Awaits(PcOf(Step(s, c).s, c.t), x) && Step(s, c).s.owned == s.owned
  {
    hide Inv, Begin, ReleaseStep, CloseStep;
    OwnedInMemory(s, x);
  }

  lemma StarterIsBlocked(s: State, c: Choice, u: Thread, x: Sock)
    requires Inv(s) && PcOf(s, c.t).CloseStart? && Awaits(PcOf(s, u), x)
    ensures Step(s, c) == Blocked
  {
    hide Inv, Begin, AcquireStep, ReleaseStep;
    WriterOf(s);
  }

  lemma KnotStep(s: State, c: Choice, t: Thread, u: Thread, x: Sock, y: Sock)
    requires Inv(s) && Knot(s, t, u, x, y) && Step(s, c).Next?
    ensures Knot(Step(s, c).s, t, u, x, y)
  {
    hide Inv, Step, Awaits;
    if c.t == t && PcOf(s, t).CloseStart? { StarterIsBlocked(s, c, u, x); }
    if c.t != t {
      OthersKeep(s, c, t, x);
      OthersStay(s, c, t);
    }
    if c.t != u { OthersStay(s, c, u); }
    if c.t == u { AwaitStep(s, c, x); }
    if u != t && Awaits(PcOf(s, t), y) && Has(s, u, y) {
      if c.t == t { AwaitStep(s, c, y); }
      if c.t != u { OthersKeep(s, c, u, y); }
    }
  }

  lemma {:induction false} KnotRun(s: State, ms: seq<Choice>, t: Thread, u: Thread, x: Sock, y: Sock)
    requires Inv(s) && Knot(s, t, u, x, y) && Run(s, ms).Next?
    ensures Inv(Run(s, ms).s) && Knot(Run(s, ms).s, t, u, x, y)
  {
    hide Inv, Step, Knot;
    if ms != [] {
      var n := |ms| - 1;
      KnotRun(s, ms[..n], t, u, x, y);
      var r := Run(s, ms[..n]).s;
      StepKeeps(r, ms[n]);
      if Step(r, ms[n]).Next? { KnotStep(r, ms[n], t, u, x, y); }
    }
  }

  lemma KnotStands(s: State, t: Thread, u: Thread, x: Sock, y: Sock)
    requires Inv(s) && Knot(s, t, u, x, y)
    ensures PcOf(s, t) != Idle && Step(s, Move(t)) != Crash
  {
    hide Inv, Begin, ReleaseStep;
    if PcOf(s, t).CloseStart? {
    } else if u == t {
      OwnedInMemory(s, x);
    } else {
      OwnedInMemory(s, y);
    }
  }

  lemma KnotHangs(s: State, t: Thread, u: Thread, x: Sock, y: Sock)
    requires Inv(s) && Knot(s, t, u, x, y)
    ensures Hangs(s, t)
  {
    hide Inv, Run, Step, Knot;
    forall ms | Run(s, ms).Next? ensures PcOf(Run(s, ms).s, t) != Idle && Step(Run(s, ms).s, Move(t)) != Crash {
      KnotRun(s, ms, t, u, x, y);
      KnotStands(Run(s, ms).s, t, u, x, y);
    }
  }

  // Ways to a knot.

  lemma Then(s: State, ms: seq<Choice>, c: Choice)
    requires Run(s, ms).Next?
    ensures var r := Run(s, ms).s; Run(s, ms + [c]) == match Step(r, c) case Blocked => Next(r) case o => o
  {
    hide Step;
    assert (ms + [c])[..|ms|] == ms;
  }

  /**
   * The thread t has not moved and keeps what it kept; and every socket can still be found that could be found and was
   * not just about to be taken out.
   */
  ghost predicate Waited(s: State, s': State, t: Thread) {
    && Inv(s') && PcOf(s', t) == PcOf(s, t) && (forall x :: Has(s, t, x) <==> Has(s', t, x))
    && forall x: Sock :: Registered(s, x) && !Leaving(s, x) ==>
         Registered(s', x) && !Leaving(s', x) && IdOf(s', x) == IdOf(s, x)
  }

  lemma WaitedOn(s: State, s': State, s'': State, t: Thread)
    requires Waited(s, s', t) && Waited(s', s'', t)
    ensures Waited(s, s'', t)
  {
    hide Inv, Leaving;
  }

  /** A step of another thread that is no call to close. */
  lemma WaitedStep(s: State, c: Choice, t: Thread)
    requires Inv(s) && Step(s, c).Next? && c.t != t && !PcOf(s, c.t).CloseStart?
    ensures Waited(s, Step(s, c).s, t)
  {
    hide Inv, Step, Registered;
    var s' := Step(s, c).s;
    StepKeeps(s, c);
    OthersStay(s, c, t);
    forall x ensures Has(s, t, x) <==> Has(s', t, x) { if Has(s, t, x) { OthersKeep(s, c, t, x); } }
    forall x: Sock | Registered(s, x) && !Leaving(s, x)
      ensures Registered(s', x) && !Leaving(s', x) && x in s.mem && x in s'.mem && IdOf(s', x) == IdOf(s, x)
    {
      TableStep(s, c, x);
      NotLeavingStays(s, c, x);
      RegisteredIn(s, x);
      RegisteredIn(s', x);
      IdStep(s, c, x);
    }
  }

  lemma RegisteredIn(s: State, x: Sock)
    requires Inv(s) && Registered(s, x)
    ensures x in s.mem && x in s.ever && s.mem[x].state >= 0
  {
    hide ArrayLockOk, MutexesOk, ThreadsOk, Apart, Covered, TakenIsHeld, OwnedOk;
  }

  /** A socket keeps its id. */
  lemma IdStep(s: State, c: Choice, x: Sock)
    requires x in s.ever && Step(s, c).Next?
    ensures var s' := Step(s, c).s; x in s'.mem ==> x in s.mem && IdOf(s', x) == IdOf(s, x)
  {
  }

  lemma NotLeavingStays(s: State, c: Choice, x: Sock)
    requires Inv(s) && !Leaving(s, x) && Step(s, c).Next? && !PcOf(s, c.t).CloseStart?
    ensures !Leaving(Step(s, c).s, x) && !TakesOut(s, c, x)
  {
    hide MutexesOk, ArrayOk, MemoryOk, ThreadsOk, Apart, Covered, TakenIsHeld, OwnedOk;
  }

  /** A thread with the write lock leaves it. */
  lemma WriterLeaves(s: State, w: Thread)
    requires Inv(s) && PcOf(s, w).CloseLeave?
    ensures Step(s, Move(w)).Next? && Step(s, Move(w)).s.writer == None
  {
    hide Inv;
  }

  lemma WriterTakes(s: State, w: Thread)
    requires PcOf(s, w).CloseArray?
    ensures Step(s, Move(w)) == Crash || (Step(s, Move(w)).Next? && PcOf(Step(s, Move(w)).s, w).CloseLeave?)
  {
  }

  lemma ClearArray(s: State, t: Thread) returns (ms: seq<Choice>)
    requires Inv(s) && !Writes(PcOf(s, t))
    ensures OnlyMoves(ms)
    ensures Run(s, ms) == Crash || (Run(s, ms).Next? && Run(s, ms).s.writer == None && Waited(s, Run(s, ms).s, t))
  {
    hide Inv, Step, Registered, Leaving;
    ms := [];
    if s.writer != None {
      var w := s.writer.value;
      WriterOf(s);
      ms := [Move(w)];
      RunOne(s, Move(w));
      if PcOf(s, w).CloseLeave? {
        WriterLeaves(s, w);
        WaitedStep(s, Move(w), t);
      } else {
        WriterTakes(s, w);
        if Step(s, Move(w)).Next? {
          var s1 := Step(s, Move(w)).s;
          WaitedStep(s, Move(w), t);
          WriterLeaves(s1, w);
          WaitedStep(s1, Move(w), t);
          WaitedOn(s, s1, Step(s1, Move(w)).s, t);
          Then(s, ms, Move(w));
          ms := ms + [Move(w)];
        }
      }
    }
  }

  /** An acquirer that has just called finds the socket. */
  lemma Finds(s: State, u: Thread, x: Sock)
    requires Inv(s) && Registered(s, x) && PcOf(s, u) == AcqStart(IdOf(s, x)) && s.writer == None
    ensures var o := Run(s, [Move(u), Move(u)]);
      o.Next? && o.s.writer == None && o.s.mem == s.mem && o.s.table == s.table && o.s.owned == s.owned &&
      PcOf(o.s, u) == AcqLock(x) && Inv(o.s) && forall t: Thread :: t != u ==> PcOf(o.s, t) == PcOf(s, t)
  {
    hide Inv, Run;
    RunOne(s, Move(u));
    var s1 := Step(s, Move(u)).s;
    StepKeeps(s, Move(u));
    StepKeeps(s1, Move(u));
    Then(s, [Move(u)], Move(u));
    assert [Move(u)] + [Move(u)] == [Move(u), Move(u)];
  }

  lemma CallAcquire(s: State, u: Thread, id: Id)
    requires Inv(s) && PcOf(s, u) == Idle
    ensures Step(s, Choice(u, Acquire(id))) == Next(At(s, u, AcqStart(id))) && Inv(At(s, u, AcqStart(id)))
  {
    hide Inv;
    StepKeeps(s, Choice(u, Acquire(id)));
  }

  /** A thread that is in no call acquires the socket, as far as finding it. */
  lemma CallsAndFinds(s: State, u: Thread, x: Sock) returns (ms: seq<Choice>)
    requires Inv(s) && Registered(s, x) && PcOf(s, u) == Idle && s.writer == None
    ensures var o := Run(s, ms);
      o.Next? && o.s.writer == None && o.s.mem == s.mem && o.s.table == s.table && o.s.owned == s.owned &&
      PcOf(o.s, u) == AcqLock(x) && Inv(o.s) && forall t: Thread :: t != u ==> PcOf(o.s, t) == PcOf(s, t)
    ensures ms == [Choice(u, Acquire(IdOf(s, x))), Move(u), Move(u)]
  {
    hide Inv, Run;
    var c := Choice(u, Acquire(IdOf(s, x)));
    CallAcquire(s, u, IdOf(s, x));
    RunOne(s, c);
    Finds(At(s, u, AcqStart(IdOf(s, x))), u, x);
    RunOn(s, [c], [Move(u), Move(u)]);
    ms := [c] + [Move(u), Move(u)];
  }

  /** Another thread asks for the socket, and the closer cannot lock the array any more. */
  lemma CloserHangs(s: State, t: Thread, x: Sock) returns (ms: seq<Choice>)
    requires Inv(s) && PcOf(s, t).CloseStart? && Has(s, t, x) && Registered(s, x) && !Leaving(s, x)
    ensures Run(s, ms) == Crash || (Run(s, ms).Next? && Hangs(Run(s, ms).s, t))
    ensures Run(s, ms) == Crash ==> OnlyMoves(ms)
  {
    hide Inv, Run, Registered, Leaving, Hangs;
    ms := ClearArray(s, t);
    if Run(s, ms).Next? {
      var s1 := Run(s, ms).s;
      var u := Outsider(s1, {t});
      var rest := CallsAndFinds(s1, u, x);
      RunOn(s, ms, rest);
      ms := ms + rest;
      KnotHangs(Run(s1, rest).s, t, u, x, x);
    }
  }

  /** The thread itself waits for the socket that it keeps. */
  lemma OwnerHangs(s: State, t: Thread, x: Sock) returns (ms: seq<Choice>)
    requires Inv(s) && Has(s, t, x) && Registered(s, x) && !Leaving(s, x) && PcOf(s, t) == AcqStart(IdOf(s, x))
    ensures Run(s, ms) == Crash || (Run(s, ms).Next? && Hangs(Run(s, ms).s, t))
    ensures Run(s, ms) == Crash ==> OnlyMoves(ms)
  {
    hide Inv, Run, Registered, Leaving, Hangs;
    ms := ClearArray(s, t);
    if Run(s, ms).Next? {
      var s1 := Run(s, ms).s;
      Finds(s1, t, x);
      RunOn(s, ms, [Move(t), Move(t)]);
      KnotHangs(Run(s1, [Move(t), Move(t)]).s, t, t, x, x);
      ms := ms + [Move(t), Move(t)];
    }
  }

  // Another thread gets the socket that is asked for.

  /** What a thread in a mutex does next is to leave it, or to prepare to. */
  predicate LeavesNext(pc: Pc) {
    pc.AcqTaken? || pc.AcqBroken? || pc.RelDone? || pc.CloseTaken? || pc.CloseBroken? || pc.BreakDone?
  }

  lemma MutexMove(s: State, w: Thread, z: Sock)
    requires Inv(s) && MutexOf(PcOf(s, w)) == Some(z)
    ensures Step(s, Move(w)).Next?
    ensures var s' := Step(s, Move(w)).s;
      z in s'.mem && (s'.mem[z].owner != None ==>
        !LeavesNext(PcOf(s, w)) && LeavesNext(PcOf(s', w)) && MutexOf(PcOf(s', w)) == Some(z))
    ensures Step(s, Move(w)).s.owned == s.owned && Step(s, Move(w)).s.writer == s.writer
  {
    hide Inv, OnlyHolder, OnlyInMutex;
    Known(s, w);
    InMemory(s, w);
    MutexOwner(s, w, z);
  }

  lemma MutexOwner(s: State, w: Thread, z: Sock)
    requires Inv(s) && MutexOf(PcOf(s, w)) == Some(z)
    ensures z in s.mem && s.mem[z].owner == Some(w)
  {
    hide ArrayLockOk, ArrayOk, MemoryOk, ThreadsOk, Apart, Covered, TakenIsHeld, OwnedOk;
  }

  /** The mutex of a socket becomes free; only threads that had it move, and t is none of them. */
  lemma FreeMutex(s: State, t: Thread, z: Sock) returns (ms: seq<Choice>)
    requires Inv(s) && z in s.mem && s.writer == None && MutexOf(PcOf(s, t)) == None
    ensures OnlyMoves(ms) && Run(s, ms).Next?
    ensures var s' := Run(s, ms).s;
      Waited(s, s', t) && s'.writer == None && s'.owned == s.owned && IsFree(s', z) &&
      forall u: Thread :: MutexOf(PcOf(s, u)) != Some(z) ==> PcOf(s', u) == PcOf(s, u)
  {
    hide Inv, Step, Registered, Leaving, LeavesNext;
    ms := [];
    WaitedNow(s, t);
    if s.mem[z].owner != None {
      var w := s.mem[z].owner.value;
      OwnerIn(s, z);
      MutexMove(s, w, z);
      RunOne(s, Move(w));
      ms := [Move(w)];
      var s1 := Step(s, Move(w)).s;
      NoCall(s, w);
      WaitedStep(s, Move(w), t);
      forall u: Thread | u != w ensures PcOf(s1, u) == PcOf(s, u) { OthersStay(s, Move(w), u); }
      if s1.mem[z].owner != None {
        MutexMove(s1, w, z);
        NoCall(s1, w);
        WaitedStep(s1, Move(w), t);
        var s2 := Step(s1, Move(w)).s;
        WaitedOn(s, s1, s2, t);
        forall u: Thread | u != w ensures PcOf(s2, u) == PcOf(s1, u) { OthersStay(s1, Move(w), u); }
        Then(s, ms, Move(w));
        ms := ms + [Move(w)];
      }
    }
  }

  lemma WaitedNow(s: State, t: Thread)
    requires Inv(s)
    ensures Waited(s, s, t)
  {
    hide Inv, Leaving;
  }

  lemma OwnerIn(s: State, z: Sock)
    requires Inv(s) && z in s.mem && s.mem[z].owner.Some?
    ensures MutexOf(PcOf(s, s.mem[z].owner.value)) == Some(z)
  {
    hide ArrayLockOk, ArrayOk, MemoryOk, ThreadsOk, Apart, Covered, TakenIsHeld, OwnedOk;
  }

  lemma NoCall(s: State, w: Thread)
    requires MutexOf(PcOf(s, w)).Some?
    ensures !PcOf(s, w).CloseStart? && PcOf(s, w) != Idle
  {
  }

  /** One step of a release. */
  lemma ReleaseMove(s: State, h: Thread)
    requires Inv(s) && InRelease(PcOf(s, h)) && (PcOf(s, h).RelLock? ==> IsFree(s, PcOf(s, h).x))
    ensures var o := Step(s, Move(h));
      o == Crash || (o.Next? && o.s.owned == s.owned && o.s.writer == s.writer &&
      (PcOf(o.s, h) == Idle || (InRelease(PcOf(o.s, h)) && !PcOf(o.s, h).RelLock? &&
      Rank(o.s, PcOf(o.s, h)) < Rank(s, PcOf(s, h)))))
  {
    hide Inv, OnlyHolder, OnlyInMutex, Begin, AcquireStep, CloseStep;
    Known(s, h);
  }

  /** A release comes to its end; what the thread keeps besides it keeps. */
  lemma {:induction false} FinishRelease(s: State, t: Thread, h: Thread) returns (ms: seq<Choice>)
    requires Inv(s) && s.writer == None && h != t && (PcOf(s, h) == Idle || InRelease(PcOf(s, h)))
    requires PcOf(s, h).RelLock? ==> IsFree(s, PcOf(s, h).x)
    ensures OnlyMoves(ms)
    ensures Run(s, ms) == Crash || (Run(s, ms).Next? && PcOf(Run(s, ms).s, h) == Idle &&
      Waited(s, Run(s, ms).s, t) && Run(s, ms).s.writer == None && Run(s, ms).s.owned == s.owned)
    decreases Rank(s, PcOf(s, h))
  {
    hide Inv, Step, Registered, Leaving, Rank;
    if PcOf(s, h) == Idle {
      ms := [];
      WaitedNow(s, t);
    } else {
      ReleaseMove(s, h);
      RunOne(s, Move(h));
      ms := [Move(h)];
      if Step(s, Move(h)).Next? {
        var s1 := Step(s, Move(h)).s;
        WaitedStep(s, Move(h), t);
        IdleRank(s1, h);
        ReleaseRank(s, h);
        var rest := FinishRelease(s1, t, h);
        RunOn(s, [Move(h)], rest);
        if Run(s1, rest).Next? { WaitedOn(s, s1, Run(s1, rest).s, t); }
        ms := [Move(h)] + rest;
      }
    }
  }

  lemma IdleRank(s: State, h: Thread)
    ensures PcOf(s, h) == Idle ==> Rank(s, PcOf(s, h)) == 0
  {
  }

  lemma ReleaseRank(s: State, h: Thread)
    requires InRelease(PcOf(s, h))
    ensures Rank(s, PcOf(s, h)) > 0
  {
  }

  /** Some thread other than t is in no call and keeps the socket. */
  ghost predicate Got(s: State, s': State, t: Thread, u: Thread, y: Sock) {
    Waited(s, s', t) && s'.writer == None && u != t && PcOf(s', u) == Idle && Has(s', u, y)
  }

  /** A free socket is taken by a thread from outside. */
  lemma TakesFree(s: State, u: Thread, y: Sock)
    requires Inv(s) && PcOf(s, u) == AcqLock(y) && IsFree(s, y) && s.mem[y].state == 1
    ensures var o := Run(s, [Move(u), Move(u)]);
      o.Next? && PcOf(o.s, u) == AcqTaken(y) && o.s.writer == s.writer && Inv(o.s)
    ensures forall t: Thread :: t != u ==> Waited(s, Run(s, [Move(u), Move(u)]).s, t)
  {
    hide Inv, Run, Waited;
    RunOne(s, Move(u));
    var s1 := Step(s, Move(u)).s;
    StepKeeps(s, Move(u));
    assert PcOf(s1, u) == AcqCheck(y);
    var s2 := Step(s1, Move(u)).s;
    StepKeeps(s1, Move(u));
    assert PcOf(s2, u) == AcqTaken(y);
    Then(s, [Move(u)], Move(u));
    assert [Move(u)] + [Move(u)] == [Move(u), Move(u)];
    TwoWaits(s, Move(u), Move(u));
  }

  lemma TwoWaits(s: State, c: Choice, d: Choice)
    requires Inv(s) && c.t == d.t && Step(s, c).Next? && Step(Step(s, c).s, d).Next?
    requires !PcOf(s, c.t).CloseStart? && !PcOf(Step(s, c).s, d.t).CloseStart?
    ensures forall t: Thread :: t != c.t ==> Waited(s, Step(Step(s, c).s, d).s, t)
  {
    hide Inv, Step, Waited;
    StepKeeps(s, c);
    forall t: Thread | t != c.t ensures Waited(s, Step(Step(s, c).s, d).s, t) {
      WaitedStep(s, c, t);
      WaitedStep(Step(s, c).s, d, t);
      WaitedOn(s, Step(s, c).s, Step(Step(s, c).s, d).s, t);
    }
  }

  lemma KeepsTaken(s: State, u: Thread, y: Sock)
    requires Inv(s) && PcOf(s, u) == AcqTaken(y)
    ensures var o := Run(s, [Move(u), Move(u)]);
      o.Next? && PcOf(o.s, u) == Idle && Has(o.s, u, y) && o.s.writer == s.writer && Inv(o.s)
    ensures forall t: Thread :: t != u ==> Waited(s, Run(s, [Move(u), Move(u)]).s, t)
  {
    hide Inv, Run, Waited, OnlyHolder, OnlyInMutex;
    Known(s, u);
    RunOne(s, Move(u));
    var s1 := Step(s, Move(u)).s;
    StepKeeps(s, Move(u));
    assert PcOf(s1, u) == AcqLeave(Some(y));
    var s2 := Step(s1, Move(u)).s;
    StepKeeps(s1, Move(u));
    assert PcOf(s2, u) == Idle && Has(s2, u, y);
    Then(s, [Move(u)], Move(u));
    assert [Move(u)] + [Move(u)] == [Move(u), Move(u)];
    TwoWaits(s, Move(u), Move(u));
  }

  /** No other thread than t keeps a socket in a call that others can find. */
  ghost predicate LooseBut(s: State, t: Thread) {
    forall h: Thread :: h != t ==> LooseAt(s, h)
  }

  /** Continuing and giving back tangles nobody. */
  lemma {:induction false} MovesLoose(s: State, ms: seq<Choice>, t: Thread)
    requires Inv(s) && LooseBut(s, t) && OnlyMoves(ms) && Run(s, ms).Next?
    ensures Inv(Run(s, ms).s) && LooseBut(Run(s, ms).s, t)
  {
    hide Inv, Step, LooseAt, Entangled;
    if ms != [] {
      var n := |ms| - 1;
      MovesLoose(s, ms[..n], t);
      var r := Run(s, ms[..n]).s;
      assert ms[n].call.Continue? || ms[n].call.Release?;
      StepKeeps(r, ms[n]);
      if Step(r, ms[n]).Next? {
        forall h: Thread | h != t ensures LooseAt(Step(r, ms[n]).s, h) { LooseAtStep(r, ms[n], h); }
      }
    }
  }

  /** A thread from outside gets a socket that is free and whose mutex is free. */
  lemma GetsFree(s: State, t: Thread, y: Sock) returns (ms: seq<Choice>, u: Thread)
    requires Inv(s) && Registered(s, y) && s.writer == None && IsFree(s, y) && s.mem[y].state == 1
    ensures Run(s, ms).Next? && Got(s, Run(s, ms).s, t, u, y)
  {
    hide Inv, Run, Step, Waited;
    u := Outsider(s, {t});
    var c := Choice(u, Acquire(IdOf(s, y)));
    ms := CallsAndFinds(s, u, y);
    var s1 := Run(s, ms).s;
    CallWaits(s, u, t, y, s1);
    RegisteredIn(s1, y);
    TakesFree(s1, u, y);
    var two := [Move(u), Move(u)];
    var s2 := Run(s1, two).s;
    KeepsTaken(s2, u, y);
    RunOn(s1, two, two);
    RunOn(s, ms, two + two);
    ms := ms + (two + two);
    WaitedOn(s, s1, s2, t);
    WaitedOn(s, s2, Run(s2, two).s, t);
  }

  lemma CallWaits(s: State, u: Thread, t: Thread, y: Sock, s1: State)
    requires Inv(s1) && s1.writer == None && s1.mem == s.mem && s1.table == s.table && s1.owned == s.owned && t != u
    requires Registered(s, y) && PcOf(s1, t) == PcOf(s, t)
    ensures Waited(s, s1, t) && Registered(s1, y) && IsFree(s, y) ==> IsFree(s1, y)
    ensures Waited(s, s1, t) && Registered(s1, y)
  {
    hide Inv;
  }

  /** Who holds up a registered socket while its mutex is free. */
  lemma HolderPlace(s: State, h: Thread, y: Sock)
    requires Inv(s) && Registered(s, y) && IsFree(s, y) && Holds(PcOf(s, h)) == Some(y)
    ensures PcOf(s, h) == AcqLeave(Some(y)) || PcOf(s, h) == RelLock(y)
  {
    hide Inv, OnlyHolder, OnlyInMutex;
    Known(s, h);
    if MutexOf(PcOf(s, h)) == Some(y) { MutexOwner(s, h, y); }
  }

  lemma LeavesWithIt(s: State, h: Thread, t: Thread, y: Sock)
    requires Inv(s) && PcOf(s, h) == AcqLeave(Some(y)) && s.writer == None && h != t
    ensures Run(s, [Move(h)]).Next? && Got(s, Run(s, [Move(h)]).s, t, h, y)
  {
    hide Inv, Run, Waited;
    RunOne(s, Move(h));
    WaitedStep(s, Move(h), t);
  }

  /** The lock is added to and left; the signal may come later. */
  lemma GivesUp(s: State, h: Thread, t: Thread, y: Sock)
    requires Inv(s) && PcOf(s, h) == RelLock(y) && IsFree(s, y) && s.writer == None && h != t
    ensures var o := Run(s, [Move(h), Move(h), Move(h)]);
      o.Next? && Waited(s, o.s, t) && o.s.writer == None && IsFree(o.s, y) && o.s.mem[y].state == 1
  {
    hide Inv, Run, Waited, OnlyHolder, OnlyInMutex;
    Known(s, h);
    RunOne(s, Move(h));
    var s1 := Step(s, Move(h)).s;
    StepKeeps(s, Move(h));
    WaitedStep(s, Move(h), t);
    assert PcOf(s1, h) == RelAdd(y) && s1.mem[y].state == 0;
    var s2 := AddsOne(s1, h, t, y);
    WaitedOn(s, s1, s2, t);
    Then(s, [Move(h)], Move(h));
    var s3 := UnlocksOne(s2, h, t, y);
    WaitedOn(s, s2, s3, t);
    Then(s, [Move(h)] + [Move(h)], Move(h));
    assert [Move(h)] + [Move(h)] + [Move(h)] == [Move(h), Move(h), Move(h)];
  }

  lemma AddsOne(s: State, h: Thread, t: Thread, y: Sock) returns (s': State)
    requires Inv(s) && PcOf(s, h) == RelAdd(y) && y in s.mem && s.mem[y].state == 0 && s.writer == None && h != t
    ensures Step(s, Move(h)) == Next(s') && PcOf(s', h) == RelDone(y) && y in s'.mem && s'.mem[y].state == 1
    ensures s'.writer == None && Waited(s, s', t) && Inv(s')
  {
    hide Inv, Waited;
    s' := Step(s, Move(h)).s;
    StepKeeps(s, Move(h));
    WaitedStep(s, Move(h), t);
  }

  lemma UnlocksOne(s: State, h: Thread, t: Thread, y: Sock) returns (s': State)
    requires Inv(s) && PcOf(s, h) == RelDone(y) && y in s.mem && s.mem[y].state == 1 && s.writer == None && h != t
    ensures Step(s, Move(h)) == Next(s') && IsFree(s', y) && s'.mem[y].state == 1
    ensures s'.writer == None && Waited(s, s', t) && Inv(s')
  {
    hide Inv, Waited;
    s' := Step(s, Move(h)).s;
    StepKeeps(s, Move(h));
    WaitedStep(s, Move(h), t);
  }

  /** Whoever keeps a registered socket is in no call that may wait. */
  lemma KeeperPlace(s: State, h: Thread, y: Sock)
    requires Inv(s) && LooseAt(s, h) && Has(s, h, y) && Registered(s, y) && s.writer == None
    ensures PcOf(s, h) == Idle || InRelease(PcOf(s, h))
  {
    hide Inv;
  }

  /** A thread that keeps the socket comes to the end of its present release. */
  lemma KeeperGets(s: State, t: Thread, h: Thread, y: Sock) returns (ms: seq<Choice>)
    requires Inv(s) && LooseBut(s, t) && Has(s, h, y) && Registered(s, y) && s.writer == None && h != t
    requires AtStart(PcOf(s, t))
    ensures Run(s, ms) == Crash || (Run(s, ms).Next? && Got(s, Run(s, ms).s, t, h, y))
    ensures Run(s, ms) == Crash ==> OnlyMoves(ms)
  {
    hide Inv, Run, Waited, LooseAt, Registered;
    KeeperPlace(s, h, y);
    if PcOf(s, h).RelLock? {
      var z := PcOf(s, h).x;
      ReleasedIn(s, h);
      StartHasNoMutex(s, t);
      ms := FreeMutex(s, t, z);
      var s1 := Run(s, ms).s;
      WaitedInv(s, s1, t);
      var rest := FinishRelease(s1, t, h);
      RunOn(s, ms, rest);
      ms := ms + rest;
      if Run(s1, rest).Next? { WaitedOn(s, s1, Run(s1, rest).s, t); }
    } else {
      ms := FinishRelease(s, t, h);
    }
  }

  lemma WaitedInv(s: State, s': State, t: Thread)
    requires Waited(s, s', t)
    ensures Inv(s') && PcOf(s', t) == PcOf(s, t)
  {
  }

  lemma ReleasedIn(s: State, h: Thread)
    requires Inv(s) && PcOf(s, h).RelLock?
    ensures PcOf(s, h).x in s.mem && MutexOf(PcOf(s, h)) == None
  {
    hide Inv, OnlyHolder, OnlyInMutex;
    Known(s, h);
  }

  lemma StartHasNoMutex(s: State, t: Thread)
    requires AtStart(PcOf(s, t))
    ensures MutexOf(PcOf(s, t)) == None && Holds(PcOf(s, t)) == None && !Writes(PcOf(s, t)) && PcOf(s, t) != Idle
  {
  }

  lemma Stays(s: State, s': State, t: Thread, y: Sock)
    requires Waited(s, s', t) && Registered(s, y) && !Leaving(s, y)
    ensures Registered(s', y) && !Leaving(s', y) && y in s.mem && y in s'.mem && IdOf(s', y) == IdOf(s, y)
  {
    hide Inv, Leaving;
  }

  lemma NoWriterLeaves(s: State, y: Sock)
    requires s.writer == None
    ensures !Leaving(s, y)
  {
  }

  /** Some thread other than t comes to keep a registered socket that t does not keep. */
  lemma Obtain(s: State, t: Thread, y: Sock) returns (ms: seq<Choice>, u: Thread)
    requires Inv(s) && LooseBut(s, t) && Registered(s, y) && s.writer == None && AtStart(PcOf(s, t)) && !Has(s, t, y)
    ensures Run(s, ms) == Crash || (Run(s, ms).Next? && Got(s, Run(s, ms).s, t, u, y))
    ensures Run(s, ms) == Crash ==> OnlyMoves(ms)
  {
    hide Inv, Run, Waited, LooseAt, Registered, Got, Leaving;
    RegisteredIn(s, y);
    StartHasNoMutex(s, t);
    ms := FreeMutex(s, t, y);
    MovesLoose(s, ms, t);
    var s1 := Run(s, ms).s;
    NoWriterLeaves(s, y);
    Stays(s, s1, t, y);
    WaitedInv(s, s1, t);
    var rest;
    rest, u := ObtainFreed(s1, t, y);
    RunOn(s, ms, rest);
    if Run(s1, rest).Next? { GotOn(s, s1, Run(s1, rest).s, t, u, y); }
    ms := ms + rest;
  }

  lemma GotOn(s: State, s1: State, s2: State, t: Thread, u: Thread, y: Sock)
    requires Waited(s, s1, t) && Got(s1, s2, t, u, y)
    ensures Got(s, s2, t, u, y)
  {
    hide Waited;
    WaitedOn(s, s1, s2, t);
  }

  lemma ObtainFreed(s: State, t: Thread, y: Sock) returns (ms: seq<Choice>, u: Thread)
    requires Inv(s) && LooseBut(s, t) && Registered(s, y) && s.writer == None && AtStart(PcOf(s, t)) && !Has(s, t, y)
    requires IsFree(s, y)
    ensures Run(s, ms) == Crash || (Run(s, ms).Next? && Got(s, Run(s, ms).s, t, u, y))
    ensures Run(s, ms) == Crash ==> OnlyMoves(ms)
  {
    hide Inv, Run, Waited, LooseAt, Registered, Got, Leaving;
    RegisteredIn(s, y);
    StateBound(s, y);
    if s.mem[y].state == 1 {
      ms, u := GetsFree(s, t, y);
    } else {
      u := HolderOf(s, y);
      StartHasNoMutex(s, t);
      if Has(s, u, y) {
        ms := KeeperGets(s, t, u, y);
      } else {
        HolderPlace(s, u, y);
        if PcOf(s, u) == AcqLeave(Some(y)) {
          LeavesWithIt(s, u, t, y);
          ms := [Move(u)];
        } else {
          GivesUp(s, u, t, y);
          ms := [Move(u), Move(u), Move(u)];
          var s1 := Run(s, ms).s;
          NoWriterLeaves(s, y);
          Stays(s, s1, t, y);
          WaitedInv(s, s1, t);
          var rest;
          rest, u := GetsFree(s1, t, y);
          RunOn(s, ms, rest);
          GotOn(s, s1, Run(s1, rest).s, t, u, y);
          ms := ms + rest;
        }
      }
    }
  }

  lemma StateBound(s: State, y: Sock)
    requires Inv(s) && y in s.mem
    ensures s.mem[y].state <= 1
  {
    hide ArrayLockOk, MutexesOk, ArrayOk, ThreadsOk, Apart, Covered, TakenIsHeld, OwnedOk;
  }

  /** Two threads wait for what the other keeps. */
  lemma CrossHangs(s: State, t: Thread, x: Sock, y: Sock) returns (ms: seq<Choice>)
    requires Inv(s) && LooseBut(s, t) && Has(s, t, x) && Registered(s, x) && !Leaving(s, x)
    requires Registered(s, y) && !Leaving(s, y) && PcOf(s, t) == AcqStart(IdOf(s, y)) && !Has(s, t, y)
    ensures Run(s, ms) == Crash || (Run(s, ms).Next? && Hangs(Run(s, ms).s, t))
    ensures Run(s, ms) == Crash ==> OnlyMoves(ms)
  {
    hide Inv, Run, Waited, LooseAt, Registered, Got, Leaving, Hangs;
    ms := ClearArray(s, t);
    if Run(s, ms).Next? {
      MovesLoose(s, ms, t);
      var s1 := Run(s, ms).s;
      Stays(s, s1, t, x);
      Stays(s, s1, t, y);
      WaitedHas(s, s1, t, x);
      var rest, u := Obtain(s1, t, y);
      RunOn(s, ms, rest);
      ms := ms + rest;
      if Run(s1, rest).Next? {
        var s2 := Run(s1, rest).s;
        GotFacts(s1, s2, t, u, y, x);
        var last := CrossKnot(s2, t, u, x, y);
        RunOn(s, ms, last);
        ms := ms + last;
      }
    }
  }

  lemma WaitedHas(s: State, s': State, t: Thread, x: Sock)
    requires Waited(s, s', t) && Has(s, t, x)
    ensures Inv(s') && PcOf(s', t) == PcOf(s, t) && Has(s', t, x) && forall y :: Has(s', t, y) ==> Has(s, t, y)
  {
    hide Inv, Registered, Leaving;
  }

  lemma GotFacts(s: State, s': State, t: Thread, u: Thread, y: Sock, x: Sock)
    requires Got(s, s', t, u, y) && Has(s, t, x)
    requires Registered(s, x) && !Leaving(s, x) && Registered(s, y) && !Leaving(s, y)
    ensures Inv(s') && PcOf(s', t) == PcOf(s, t) && Has(s', t, x) && u != t && PcOf(s', u) == Idle && Has(s', u, y)
    ensures Registered(s', x) && Registered(s', y) && s'.writer == None
    ensures y in s.mem && y in s'.mem && IdOf(s', y) == IdOf(s, y)
  {
    hide Inv, Leaving;
  }

  lemma CrossKnot(s: State, t: Thread, u: Thread, x: Sock, y: Sock) returns (ms: seq<Choice>)
    requires Inv(s) && t != u && s.writer == None
    requires Has(s, t, x) && Has(s, u, y) && Registered(s, x) && Registered(s, y)
    requires PcOf(s, u) == Idle && PcOf(s, t) == AcqStart(IdOf(s, y))
    ensures Run(s, ms).Next? && Hangs(Run(s, ms).s, t)
  {
    hide Inv, Run, Hangs;
    ms := CallsAndFinds(s, u, x);
    var s1 := Run(s, ms).s;
    Finds(s1, t, y);
    var two := [Move(t), Move(t)];
    RunOn(s, ms, two);
    KnotHangs(Run(s1, two).s, t, u, x, y);
    ms := ms + two;
  }

  /** An acquisition of a socket that can be found. */
  ghost predicate FindsOne(s: State, c: Choice) {
    c.call.Acquire? ==> c.call.id in s.table && !Leaving(s, s.table[c.call.id])
  }

  lemma FoundRegistered(s: State, id: Id)
    requires Inv(s) && id in s.table
    ensures Registered(s, s.table[id]) && IdOf(s, s.table[id]) == id
  {
    hide ArrayLockOk, MutexesOk, MemoryOk, ThreadsOk, Apart, Covered, TakenIsHeld, OwnedOk;
  }

  /** The call changes nothing but the place of the thread. */
  lemma NestedBegins(s: State, c: Choice, x: Sock)
    requires Inv(s) && PcOf(s, c.t) == Idle && (c.call.Acquire? || c.call.Close?) && Step(s, c).Next?
    ensures var s' := Step(s, c).s;
      && Inv(s') && s'.owned == s.owned && s'.table == s.table && s'.mem == s.mem && s'.writer == s.writer
      && PcOf(s', c.t) == (if c.call.Acquire? then AcqStart(c.call.id) else CloseStart(c.call.x))
      && (Registered(s', x) <==> Registered(s, x)) && (Leaving(s', x) <==> Leaving(s, x))
  {
    hide Inv;
    StepKeeps(s, c);
    WriterOf(s);
  }

  lemma BeginLoose(s: State, c: Choice)
    requires Inv(s) && Loose(s) && PcOf(s, c.t) == Idle && (c.call.Acquire? || c.call.Close?) && Step(s, c).Next?
    ensures LooseBut(Step(s, c).s, c.t)
  {
    hide Inv, Step, Registered, Leaving;
    forall h: Thread | h != c.t ensures LooseAt(Step(s, c).s, h) {
      assert LooseAt(s, h);
      OthersStay(s, c, h);
      forall x: Sock | Has(Step(s, c).s, h, x) && Busy(PcOf(s, h)) && Registered(Step(s, c).s, x)
        ensures AtStart(PcOf(s, h)) && Leaving(Step(s, c).s, x)
      {
        NestedBegins(s, c, x);
      }
    }
  }

  /**
   * Behind every nested call, made when no call was nested so far, the run can go on so that the call never ends;
   * unless it is the acquisition of a socket that is not in the array, or the calls that are already made use a
   * destroyed socket before that.
   */
  lemma NestedHangs(s: State, c: Choice) returns (ms: seq<Choice>)
    requires Inv(s) && Loose(s) && Nested(s, c) && FindsOne(s, c) && Step(s, c).Next?
    ensures var s' := Step(s, c).s; Run(s', ms) == Crash || (Run(s', ms).Next? && Hangs(Run(s', ms).s, c.t))
    ensures Run(Step(s, c).s, ms) == Crash ==> OnlyMoves(ms)
  {
    hide Inv, Run, Step, Loose, Registered, Leaving, Hangs;
    var x :| Has(s, c.t, x) && Registered(s, x) && !Leaving(s, x);
    var s' := Step(s, c).s;
    NestedBegins(s, c, x);
    if c.call.Close? {
      ms := CloserHangs(s', c.t, x);
    } else {
      var y := s.table[c.call.id];
      FoundRegistered(s, c.call.id);
      NestedBegins(s, c, y);
      if Has(s, c.t, y) {
        ms := OwnerHangs(s', c.t, y);
      } else {
        BeginLoose(s, c);
        ms := CrossHangs(s', c.t, x, y);
      }
    }
  }

  /** The same at the end of a run without nested calls. */
  lemma {:induction false} NestedCallHangs(cs: seq<Choice>, c: Choice) returns (ms: seq<Choice>)
    requires Untangled(cs) && Run(Init(), cs).Next?
    requires var s := Run(Init(), cs).s; Nested(s, c) && FindsOne(s, c) && Step(s, c).Next?
    ensures Run(Init(), cs + [c] + ms) == Crash ||
      (Run(Init(), cs + [c] + ms).Next? && Hangs(Run(Init(), cs + [c] + ms).s, c.t))
    ensures Run(Init(), cs + [c] + ms) == Crash ==> OnlyMoves(ms)
  {
    hide Inv, Run, Init, Step, Ordered, Nested, FindsOne, Hangs;
    var s := Run(Init(), cs).s;
    RunKeeps(cs);
    var r, n := RunOrdered(cs);
    OrderedIsLoose(s, r, n);
    ms := NestedHangs(s, c);
    RunOn(Init(), cs, [c]);
    RunOne(s, c);
    RunOn(Init(), cs + [c], ms);
  }

  lemma OrderedIsLoose(s: State, r: map<Sock, nat>, n: nat)
    requires Ordered(s, r, n)
    ensures Loose(s)
  {
  }
}
