/** Which calls lead to the use of a destroyed socket: exactly those that overlap with the closing of their socket. */
module SocketLocksDiscipline {
  import opened Options
  import opened SocketLocks
  import opened SocketLocksSafety
  import opened SocketLocksRuns
  import opened SocketLocksOrder
  import opened SocketLocksProgress

  /** A thread at work on closing a socket, from the call on. */
  predicate Closes(pc: Pc, x: Sock) {
    pc == CloseStart(x) || pc == CloseArray(x) || Closing(pc) == Some(x)
  }

  /** A thread that acquires, owns or releases a socket, from the call that will find it to the last signal. */
  ghost predicate Uses(s: State, t: Thread, x: Sock) {
    var pc := PcOf(s, t);
    || Has(s, t, x)
    || (pc.AcqStart? && pc.id in s.table && s.table[pc.id] == x && !Leaving(s, x))
    || (pc.AcqRead? && pc.id in s.table && s.table[pc.id] == x)
    || pc in {AcqLock(x), AcqCheck(x), AcqWait(x), AcqTaken(x), AcqLeave(Some(x))}
    || pc in {RelLock(x), RelAdd(x), RelDone(x), RelSignal(x)}
  }

  /** A thread that is still going to read the socket without a lock on it. */
  ghost predicate Late(s: State, t: Thread, x: Sock) {
    Uses(s, t, x) || PcOf(s, t) == CloseStart(x) || PcOf(s, t) == CloseArray(x)
  }

  /**
   * What a caller has to know before a call. A socket is closed only once, and only when nobody acquires, owns or
   * releases it; and no acquisition begins under the id of a socket of which the closing has begun and that is not out
   * of the array.
   */
  ghost predicate Allowed(s: State, c: Choice) {
    PcOf(s, c.t) == Idle ==>
      match c.call
      case Open(_, _) => true
      case Acquire(id) => id in s.table ==> forall u: Thread :: PcOf(s, u) != CloseStart(s.table[id])
      case Close(x) =>
        x in s.ever ==>
          x !in s.gone && forall u: Thread :: u != c.t ==> !Closes(PcOf(s, u), x) && !Uses(s, u, x)
      case Release(_) => true
      case Continue => true
  }

  /** Every call of a run is allowed at the moment it is made. */
  ghost predicate Disciplined(cs: seq<Choice>) {
    cs == [] ||
    (Disciplined(cs[..|cs| - 1]) &&
     (Run(Init(), cs[..|cs| - 1]).Next? ==> Allowed(Run(Init(), cs[..|cs| - 1]).s, cs[|cs| - 1])))
  }

  /** However the calls made at any point of a run go on, no destroyed socket is used. */
  ghost predicate Harmless(cs: seq<Choice>) {
    forall k: nat, ms: seq<Choice> :: k <= |cs| && OnlyMoves(ms) ==> Run(Init(), cs[..k] + ms) != Crash
  }

  // The discipline suffices.

  /** Nobody will read a socket that another thread closes or that is gone. */
  ghost predicate Calm(s: State) {
    && (forall t: Thread, u: Thread, x: Sock :: t != u && Closes(PcOf(s, u), x) ==> !Late(s, t, x))
    && (forall t: Thread, x: Sock :: x in s.gone ==> !Late(s, t, x))
  }

  lemma CalmCannotCrash(s: State, c: Choice)
    requires Inv(s) && Calm(s)
    ensures Step(s, c) != Crash
  {
    hide Inv, Step;
    StepKeeps(s, c);
    assert UsesGone(s, PcOf(s, c.t)) ==> Late(s, c.t, PcOf(s, c.t).x);
  }

  /** A step of a thread in a call makes it no reader and no closer of a socket of which it was none before. */
  ghost predicate Shrinks(s: State, s': State, t: Thread, x: Sock) {
    && (Late(s', t, x) ==> Late(s, t, x))
    && (Closes(PcOf(s', t), x) ==> Closes(PcOf(s, t), x))
  }

  lemma FindingFalls(s: State, c: Choice, x: Sock)
    requires Inv(s) && (PcOf(s, c.t).AcqStart? || PcOf(s, c.t).AcqRead?) && Step(s, c).Next?
    ensures Shrinks(s, Step(s, c).s, c.t, x)
  {
    hide Inv, OnlyHolder, OnlyInMutex, Begin, ReleaseStep, CloseStep;
    WriterOf(s);
  }

  lemma AcquireFalls(s: State, c: Choice, x: Sock)
    requires Inv(s) && InAcquire(PcOf(s, c.t)) && Step(s, c).Next?
    ensures Shrinks(s, Step(s, c).s, c.t, x)
  {
    hide Inv, Step, Late, Closes, Wants;
    if PcOf(s, c.t).AcqStart? || PcOf(s, c.t).AcqRead? {
      FindingFalls(s, c, x);
    } else {
      FoundSteps(s, c);
      WantsUses(s, c.t, x);
      WantsUses(Step(s, c).s, c.t, x);
    }
  }

  /** An acquirer that has looked into the array. */
  predicate HasLooked(pc: Pc) {
    InAcquire(pc) && !pc.AcqStart? && !pc.AcqRead? && !pc.AcqBroken?
  }

  lemma FoundSteps(s: State, c: Choice)
    requires Inv(s) && InAcquire(PcOf(s, c.t)) && !PcOf(s, c.t).AcqStart? && !PcOf(s, c.t).AcqRead? && Step(s, c).Next?
    ensures HasLooked(PcOf(s, c.t))
    ensures var s', w := Step(s, c).s, Wants(PcOf(s, c.t));
      || (HasLooked(PcOf(s', c.t)) && Wants(PcOf(s', c.t)) == w && s'.owned == s.owned)
      || (PcOf(s', c.t) == Idle && s'.owned == if w.Some? then s.owned[w.value := c.t] else s.owned)
  {
    hide Inv, OnlyHolder, OnlyInMutex, Begin, ReleaseStep, CloseStep;
    Known(s, c.t);
    InMemory(s, c.t);
  }

  lemma WantsUses(s: State, t: Thread, x: Sock)
    requires PcOf(s, t) == Idle || HasLooked(PcOf(s, t))
    ensures Late(s, t, x) <==> Has(s, t, x) || (HasLooked(PcOf(s, t)) && Wants(PcOf(s, t)) == Some(x))
    ensures !Closes(PcOf(s, t), x)
  {
  }

  lemma ReleaseFalls(s: State, c: Choice, x: Sock)
    requires InRelease(PcOf(s, c.t)) && Step(s, c).Next?
    ensures Shrinks(s, Step(s, c).s, c.t, x)
  {
  }

  lemma CloseFalls(s: State, c: Choice, x: Sock)
    requires PcOf(s, c.t) != Idle && !InAcquire(PcOf(s, c.t)) && !InRelease(PcOf(s, c.t)) && Step(s, c).Next?
    ensures Shrinks(s, Step(s, c).s, c.t, x)
  {
    hide Begin, AcquireStep, ReleaseStep, CloseStep;
    if Closing(PcOf(s, c.t)).Some? { ClosingFalls(s, c, x); } else { ArrayFalls(s, c, x); }
  }

  lemma ArrayFalls(s: State, c: Choice, x: Sock)
    requires PcOf(s, c.t).CloseStart? || PcOf(s, c.t).CloseArray? || PcOf(s, c.t).CloseLeave?
    requires Step(s, c).Next?
    ensures Shrinks(s, Step(s, c).s, c.t, x)
  {
    hide Begin, AcquireStep, ReleaseStep;
  }

  lemma ClosingFalls(s: State, c: Choice, x: Sock)
    requires Closing(PcOf(s, c.t)).Some? && Step(s, c).Next?
    ensures Shrinks(s, Step(s, c).s, c.t, x)
  {
    hide Step, Late, Closes, Closing;
    ClosingSteps(s, c);
    ClosingUses(s, c.t, x);
    ClosingUses(Step(s, c).s, c.t, x);
  }

  lemma ClosingSteps(s: State, c: Choice)
    requires Closing(PcOf(s, c.t)).Some? && Step(s, c).Next?
    ensures var s' := Step(s, c).s;
      s'.owned == s.owned && (PcOf(s', c.t) == Idle || Closing(PcOf(s', c.t)) == Closing(PcOf(s, c.t)))
  {
    hide Begin, AcquireStep, ReleaseStep;
  }

  lemma ClosingUses(s: State, t: Thread, x: Sock)
    requires PcOf(s, t) == Idle || Closing(PcOf(s, t)).Some?
    ensures (Late(s, t, x) <==> Has(s, t, x)) && (Closes(PcOf(s, t), x) <==> Closing(PcOf(s, t)) == Some(x))
    ensures PcOf(s, t) == Idle ==> Closing(PcOf(s, t)) == None
  {
  }

  lemma MoverFalls(s: State, c: Choice, x: Sock)
    requires Inv(s) && PcOf(s, c.t) != Idle && Step(s, c).Next?
    ensures Shrinks(s, Step(s, c).s, c.t, x)
  {
    hide Inv, Step, Shrinks;
    if InAcquire(PcOf(s, c.t)) {
      AcquireFalls(s, c, x);
    } else if InRelease(PcOf(s, c.t)) {
      ReleaseFalls(s, c, x);
    } else {
      CloseFalls(s, c, x);
    }
  }

  /** The sockets that can still be found in the array. */
  ghost predicate Found(s: State, id: Id, x: Sock) {
    id in s.table && s.table[id] == x
  }

  lemma FoundFalls(s: State, c: Choice, id: Id, x: Sock)
    requires Inv(s) && PcOf(s, c.t) != Idle && Step(s, c).Next?
    ensures var s' := Step(s, c).s;
      (Found(s', id, x) ==> Found(s, id, x)) && (Found(s', id, x) && !Leaving(s', x) ==> !Leaving(s, x))
  {
    hide MutexesOk, MemoryOk, ThreadsOk, Apart, Covered, TakenIsHeld;
    WriterOf(s);
  }

  lemma OtherFalls(s: State, c: Choice, t: Thread, x: Sock)
    requires Inv(s) && PcOf(s, c.t) != Idle && Step(s, c).Next? && t != c.t
    ensures var s' := Step(s, c).s;
      PcOf(s', t) == PcOf(s, t) && (Late(s', t, x) ==> Late(s, t, x))
  {
    hide Inv, Leaving;
    OthersStay(s, c, t);
    if PcOf(s, t).AcqStart? || PcOf(s, t).AcqRead? { FoundFalls(s, c, PcOf(s, t).id, x); }
  }

  lemma GoneGrows(s: State, c: Choice, x: Sock)
    requires PcOf(s, c.t) != Idle && Step(s, c).Next?
    ensures x in Step(s, c).s.gone ==> x in s.gone || (PcOf(s, c.t) == Destroy(x) && PcOf(Step(s, c).s, c.t) == Idle)
  {
  }

  lemma CalmMove(s: State, c: Choice)
    requires Inv(s) && Calm(s) && PcOf(s, c.t) != Idle && Step(s, c).Next?
    ensures Calm(Step(s, c).s)
  {
    hide Inv, Step, Late, Closes;
    var s' := Step(s, c).s;
    StepKeeps(s, c);
    forall t: Thread, u: Thread, x: Sock | t != u && Closes(PcOf(s', u), x) ensures !Late(s', t, x) {
      LateFalls(s, c, t, x);
      LateFalls(s, c, u, x);
    }
    forall t: Thread, x: Sock | x in s'.gone ensures !Late(s', t, x) {
      LateFalls(s, c, t, x);
      GoneGrows(s, c, x);
      DestroyCloses(x);
      if PcOf(s', t) == Idle { IdleIsNotLate(s', t, x); }
    }
  }

  lemma DestroyCloses(x: Sock)
    ensures Closes(Destroy(x), x)
  {
  }

  lemma IdleIsNotLate(s: State, t: Thread, x: Sock)
    requires Inv(s) && PcOf(s, t) == Idle && x in s.gone
    ensures !Late(s, t, x)
  {
    hide ArrayLockOk, MutexesOk, ThreadsOk, ArrayOk, Apart, Covered, TakenIsHeld;
  }

  lemma LateFalls(s: State, c: Choice, t: Thread, x: Sock)
    requires Inv(s) && PcOf(s, c.t) != Idle && Step(s, c).Next?
    ensures var s' := Step(s, c).s;
      (Late(s', t, x) ==> Late(s, t, x)) && (Closes(PcOf(s', t), x) ==> Closes(PcOf(s, t), x))
  {
    hide Inv, Step, Late, Closes;
    if t == c.t { MoverFalls(s, c, x); } else { OtherFalls(s, c, t, x); }
  }

  // Calls.

  /** A call changes only the place of the thread that makes it. */
  lemma CallOthers(s: State, c: Choice, t: Thread, x: Sock)
    requires Inv(s) && PcOf(s, c.t) == Idle && (c.call.Acquire? || c.call.Close?) && Step(s, c).Next? && t != c.t
    ensures var s' := Step(s, c).s;
      (Late(s', t, x) <==> Late(s, t, x)) && PcOf(s', t) == PcOf(s, t) && s'.gone == s.gone
  {
    hide Inv;
    WriterOf(s);
  }

  /** An acquisition will find the socket only when no closer has the write lock or waits for it. */
  lemma AcquirerIsCalm(s: State, c: Choice, u: Thread, x: Sock)
    requires Inv(s) && PcOf(s, c.t) == Idle && c.call.Acquire? && Allowed(s, c) && u != c.t
    ensures var s' := Step(s, c).s;
      Step(s, c).Next? && ((Closes(PcOf(s, u), x) || x in s.gone) && !Late(s, c.t, x) ==> !Late(s', c.t, x))
  {
    hide Inv;
    WriterOf(s);
    if Found(s, c.call.id, x) { FoundIsNotClosed(s, c.call.id, x, u); }
  }

  lemma AcquireIsCalm(s: State, c: Choice)
    requires Inv(s) && Calm(s) && PcOf(s, c.t) == Idle && c.call.Acquire? && Allowed(s, c)
    ensures Step(s, c).Next? && Calm(Step(s, c).s)
  {
    hide Inv, Late, Allowed;
    var s' := Step(s, c).s;
    forall t: Thread, u: Thread, x: Sock | t != u && Closes(PcOf(s', u), x) ensures !Late(s', t, x) {
      if u != c.t { CallOthers(s, c, u, x); }
      if t == c.t { AcquirerIsCalm(s, c, u, x); } else { CallOthers(s, c, t, x); }
    }
    forall t: Thread, x: Sock | x in s'.gone ensures !Late(s', t, x) {
      if t == c.t { AcquirerIsCalm(s, c, t + 1, x); } else { CallOthers(s, c, t, x); }
    }
  }

  lemma FoundIsNotClosed(s: State, id: Id, x: Sock, u: Thread)
    requires Inv(s) && Found(s, id, x)
    ensures Closing(PcOf(s, u)) != Some(x) && x !in s.gone && Registered(s, x)
  {
    hide ArrayLockOk, MutexesOk, Apart, Covered, TakenIsHeld;
    assert ThreadOk(s, PcOf(s, u));
  }

  lemma CloseIsCalm(s: State, c: Choice)
    requires Inv(s) && Calm(s) && PcOf(s, c.t) == Idle && c.call.Close? && Allowed(s, c) && Step(s, c).Next?
    ensures Calm(Step(s, c).s)
  {
    hide Inv, Uses, Late, Step, Closes;
    var s' := Step(s, c).s;
    forall t: Thread, u: Thread, x: Sock | t != u && Closes(PcOf(s', u), x) ensures !Late(s', t, x) {
      CloserIsLate(s, c, x);
      if u != c.t { CallOthers(s, c, u, x); } else { CloserCloses(s, c, x); }
      if t != c.t {
        CallOthers(s, c, t, x);
        if u == c.t { NotLateIfUnused(s, t, x); }
      }
    }
    forall t: Thread, x: Sock | x in s'.gone ensures !Late(s', t, x) {
      if t == c.t { CloserIsLate(s, c, x); } else { CallOthers(s, c, t, x); }
    }
  }

  lemma CloserCloses(s: State, c: Choice, x: Sock)
    requires PcOf(s, c.t) == Idle && c.call.Close? && Step(s, c).Next?
    ensures Closes(PcOf(Step(s, c).s, c.t), x) ==> x == c.call.x
  {
  }

  lemma NotLateIfUnused(s: State, t: Thread, x: Sock)
    requires !Uses(s, t, x) && !Closes(PcOf(s, t), x)
    ensures !Late(s, t, x)
  {
  }

  lemma CloserIsLate(s: State, c: Choice, x: Sock)
    requires PcOf(s, c.t) == Idle && c.call.Close? && Step(s, c).Next?
    ensures Late(Step(s, c).s, c.t, x) ==> Late(s, c.t, x) || x == c.call.x
    ensures Step(s, c).s.gone == s.gone && c.call.x in s.ever
  {
  }

  lemma OpenOthers(s: State, c: Choice, t: Thread, x: Sock)
    requires PcOf(s, c.t) == Idle && c.call.Open? && Step(s, c).Next?
    ensures var s' := Step(s, c).s;
      PcOf(s', t) == PcOf(s, t) && s'.gone == s.gone &&
      (x != c.call.x ==> (Late(s', t, x) ==> Late(s, t, x)))
  {
  }

  lemma OpenIsCalm(s: State, c: Choice)
    requires Inv(s) && Calm(s) && PcOf(s, c.t) == Idle && c.call.Open? && Step(s, c).Next?
    ensures Calm(Step(s, c).s)
  {
    hide Inv, Late, Closes;
    var s' := Step(s, c).s;
    forall t: Thread, u: Thread, x: Sock | t != u && Closes(PcOf(s', u), x) ensures !Late(s', t, x) {
      OpenOthers(s, c, t, x);
      OpenOthers(s, c, u, x);
      ClosesEver(s, u, x);
    }
    forall t: Thread, x: Sock | x in s'.gone ensures !Late(s', t, x) {
      OpenOthers(s, c, t, x);
      ClosesEver(s, t, x);
    }
  }

  lemma ClosesEver(s: State, u: Thread, x: Sock)
    requires Inv(s)
    ensures Closes(PcOf(s, u), x) ==> x in s.ever
    ensures x in s.gone ==> x in s.ever
  {
    hide ArrayLockOk, MutexesOk, Apart, Covered, TakenIsHeld, ArrayOk;
    assert ThreadOk(s, PcOf(s, u));
  }

  lemma CalmStep(s: State, c: Choice)
    requires Inv(s) && Calm(s) && Allowed(s, c)
    ensures Step(s, c) != Crash && (Step(s, c).Next? ==> Inv(Step(s, c).s) && Calm(Step(s, c).s))
  {
    hide Inv, Calm, Step, Allowed, UsesGone;
    CalmCannotCrash(s, c);
    StepKeeps(s, c);
    if Step(s, c).Next? {
      if PcOf(s, c.t) != Idle {
        CalmMove(s, c);
      } else {
        match c.call
        case Open(_, _) => OpenIsCalm(s, c);
        case Acquire(_) => AcquireIsCalm(s, c);
        case Close(_) => CloseIsCalm(s, c);
        case Release(_) => ReleaseIsCalm(s, c);
        case Continue => NothingContinues(s, c);
      }
    }
  }

  /** Giving back begins with a socket that the thread keeps. */
  lemma GiveOthers(s: State, c: Choice, t: Thread, x: Sock)
    requires PcOf(s, c.t) == Idle && c.call.Release? && Step(s, c).Next?
    ensures var s' := Step(s, c).s;
      (Late(s', t, x) ==> Late(s, t, x)) && (Closes(PcOf(s', t), x) ==> Closes(PcOf(s, t), x)) && s'.gone == s.gone
  {
  }

  lemma ReleaseIsCalm(s: State, c: Choice)
    requires Inv(s) && Calm(s) && PcOf(s, c.t) == Idle && c.call.Release? && Step(s, c).Next?
    ensures Calm(Step(s, c).s)
  {
    hide Inv, Step, Late, Closes;
    var s' := Step(s, c).s;
    forall t: Thread, u: Thread, x: Sock | t != u && Closes(PcOf(s', u), x) ensures !Late(s', t, x) {
      GiveOthers(s, c, t, x);
      GiveOthers(s, c, u, x);
    }
    forall t: Thread, x: Sock | x in s'.gone ensures !Late(s', t, x) {
      GiveOthers(s, c, t, x);
    }
  }

  lemma NothingContinues(s: State, c: Choice)
    requires PcOf(s, c.t) == Idle && c.call.Continue?
    ensures Step(s, c) == Blocked
  {
  }

  lemma InitCalm()
    ensures Inv(Init()) && Calm(Init())
  {
    hide Inv;
    InitInv();
  }

  lemma {:induction false} DisciplinedRuns(cs: seq<Choice>)
    requires Disciplined(cs)
    ensures Run(Init(), cs).Next? && Inv(Run(Init(), cs).s) && Calm(Run(Init(), cs).s)
  {
    hide Inv, Calm, Step, Allowed, Init;
    if cs == [] {
      InitCalm();
    } else {
      DisciplinedRuns(cs[..|cs| - 1]);
      CalmStep(Run(Init(), cs[..|cs| - 1]).s, cs[|cs| - 1]);
    }
  }

  lemma {:induction false} DisciplinedPrefix(cs: seq<Choice>, k: nat)
    requires Disciplined(cs) && k <= |cs|
    ensures Disciplined(cs[..k])
  {
    hide Run, Allowed;
    if k < |cs| {
      DisciplinedPrefix(cs[..|cs| - 1], k);
      assert cs[..|cs| - 1][..k] == cs[..k];
    } else {
      assert cs[..k] == cs;
    }
  }

  /** Going on with the calls made is always allowed. */
  lemma {:induction false} MovesAllowed(cs: seq<Choice>, ms: seq<Choice>)
    requires Disciplined(cs) && OnlyMoves(ms)
    ensures Disciplined(cs + ms)
  {
    hide Run;
    if ms == [] {
      assert cs + ms == cs;
    } else {
      var n := |ms| - 1;
      MovesAllowed(cs, ms[..n]);
      assert (cs + ms)[..|cs| + n] == cs + ms[..n];
      assert ms[n].call.Continue? || ms[n].call.Release?;
    }
  }

  lemma {:induction false} DisciplineSuffices(cs: seq<Choice>)
    requires Disciplined(cs)
    ensures Harmless(cs)
  {
    hide Run, Disciplined, Inv, Calm, Init;
    forall k: nat, ms: seq<Choice> | k <= |cs| && OnlyMoves(ms) ensures Run(Init(), cs[..k] + ms) != Crash {
      DisciplinedPrefix(cs, k);
      MovesAllowed(cs[..k], ms);
      DisciplinedRuns(cs[..k] + ms);
    }
  }
}
