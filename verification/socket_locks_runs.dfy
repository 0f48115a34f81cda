/** Whole runs of acquiring, releasing and closing sockets. */
module SocketLocksRuns {
  import opened SocketLocks
  import opened SocketLocksSafety
  import opened Options

  lemma InitInv()
    ensures Inv(Init())
  {
  }

  /** What a thread knows at its place. */
  lemma Known(s: State, t: Thread)
    requires Inv(s)
    ensures ThreadOk(s, PcOf(s, t))
    ensures MutexOf(PcOf(s, t)).Some? ==> OnlyInMutex(s, t, MutexOf(PcOf(s, t)).value)
    ensures Holds(PcOf(s, t)).Some? ==> OnlyHolder(s, t, Holds(PcOf(s, t)).value)
    ensures forall x :: x in s.mem ==> -1 <= s.mem[x].state <= 1
  {
    hide ArrayLockOk, Covered, ThreadOk;
    RolesAreMine(s, t);
  }

  lemma InMemory(s: State, t: Thread)
    requires Inv(s)
    ensures var pc := PcOf(s, t);
      (Wants(pc).Some? ==> Wants(pc).value in s.mem && s.mem[Wants(pc).value].state >= 0) &&
      (MutexOf(pc).Some? ==> MutexOf(pc).value in s.mem)
  {
    hide Apart, Covered, ArrayLockOk;
    assert ThreadOk(s, PcOf(s, t));
  }

  // socket_acquire

  lemma AcqStartKeeps(s: State, t: Thread, id: Id)
    requires Inv(s) && PcOf(s, t) == AcqStart(id)
    ensures AcquireStep(s, t, PcOf(s, t)).Next? ==> Inv(AcquireStep(s, t, PcOf(s, t)).s)
  {
    hide ThreadsOk, MutexesOk, ArrayLockOk, Apart, ArrayOk, MemoryOk, Covered, TakenIsHeld, OwnedOk;
    var o := AcquireStep(s, t, PcOf(s, t));
    if o.Next? {
      ReadLocked(s, o.s, t, AcqRead(id));
      ArrayLockStep(s, o.s, t, AcqRead(id));
    }
  }

  lemma AcqReadKeeps(s: State, t: Thread, id: Id)
    requires Inv(s) && PcOf(s, t) == AcqRead(id)
    ensures AcquireStep(s, t, PcOf(s, t)).Next? && Inv(AcquireStep(s, t, PcOf(s, t)).s)
  {
    hide ThreadsOk, MutexesOk, ArrayLockOk, Apart, MemoryOk, Covered, TakenIsHeld, OwnedOk;
    PlainStep(s, AcquireStep(s, t, PcOf(s, t)).s, t, if id in s.table then AcqLock(s.table[id]) else AcqLeave(None));
  }

  lemma AcqCheckKeeps(s: State, t: Thread, x: Sock)
    requires Inv(s) && PcOf(s, t) == AcqCheck(x)
    ensures AcquireStep(s, t, PcOf(s, t)).Next? && Inv(AcquireStep(s, t, PcOf(s, t)).s) && x in s.mem
    ensures var s' := AcquireStep(s, t, PcOf(s, t)).s;
      if s.mem[x].state == 0 then PcOf(s', t) == AcqWait(x) && s'.mem[x] == s.mem[x].(owner := None)
      else PcOf(s', t) == AcqTaken(x) && s.mem[x].state == 1 && s'.mem[x] == s.mem[x].(state := 0)
  {
    hide Inv, OnlyHolder, OnlyInMutex;
    Known(s, t);
    InMemory(s, t);
    var s' := AcquireStep(s, t, PcOf(s, t)).s;
    if s.mem[x].state == 0 {
      UnlockStep(s, s', t, x, AcqWait(x));
    } else {
      FreeNow(s, t, x);
      StateStep(s, s', t, x, 0, AcqTaken(x));
    }
  }

  lemma FreeNow(s: State, t: Thread, x: Sock)
    requires Inv(s) && x in s.mem && s.mem[x].state != 0
    ensures OnlyHolder(s, t, x)
  {
    hide ThreadsOk, OnlyHolder, OwnedOk;
    FreeIsUnheld(s, t, x);
  }

  lemma AcqLeaveKeeps(s: State, t: Thread, r: Option<Sock>)
    requires Inv(s) && PcOf(s, t) == AcqLeave(r)
    ensures AcquireStep(s, t, PcOf(s, t)).Next? && Inv(AcquireStep(s, t, PcOf(s, t)).s)
  {
    hide ThreadsOk, MutexesOk, ArrayLockOk, Apart, ArrayOk, MemoryOk, Covered, TakenIsHeld, OwnedOk;
    hide OnlyHolder, OnlyInMutex;
    Known(s, t);
    var s' := AcquireStep(s, t, PcOf(s, t)).s;
    if r.Some? {
      KeepStep(s, s', t, r.value);
    } else {
      ReadUnlocked(s, s', t, Idle);
      ArrayLockStep(s, s', t, Idle);
    }
  }

  lemma AcquireKeeps(s: State, t: Thread)
    requires Inv(s) && InAcquire(PcOf(s, t))
    ensures AcquireStep(s, t, PcOf(s, t)) != Crash
    ensures AcquireStep(s, t, PcOf(s, t)).Next? ==> Inv(AcquireStep(s, t, PcOf(s, t)).s)
  {
    hide Inv, OnlyHolder, OnlyInMutex, CheckState;
    Known(s, t);
    InMemory(s, t);
    var o := AcquireStep(s, t, PcOf(s, t));
    match PcOf(s, t)
    case AcqStart(id) => AcqStartKeeps(s, t, id);
    case AcqRead(id) => AcqReadKeeps(s, t, id);
    case AcqLock(x) => if o.Next? { LockStep(s, o.s, t, x, AcqCheck(x)); }
    case AcqCheck(x) => AcqCheckKeeps(s, t, x);
    case AcqWait(x) => if o.Next? { LockStep(s, o.s, t, x, AcqCheck(x)); }
    case AcqTaken(x) => UnlockStep(s, o.s, t, x, AcqLeave(Some(x)));
    case AcqBroken(x) =>
    case AcqLeave(r) => AcqLeaveKeeps(s, t, r);
  }

  // socket_release

  lemma RelAddKeeps(s: State, t: Thread, x: Sock)
    requires Inv(s) && PcOf(s, t) == RelAdd(x)
    ensures ReleaseStep(s, t, PcOf(s, t)).Next? && Inv(ReleaseStep(s, t, PcOf(s, t)).s)
  {
    hide Inv, OnlyHolder, OnlyInMutex;
    Known(s, t);
    StateStep(s, ReleaseStep(s, t, PcOf(s, t)).s, t, x, 1, RelDone(x));
  }

  /** The two places at which a thread uses a socket without a lock on it, when the socket is gone. */
  ghost predicate UsesGone(s: State, pc: Pc) {
    (pc.CloseArray? || pc.RelSignal?) && pc.x in s.gone
  }

  lemma IsEver(s: State, t: Thread, x: Sock)
    requires Inv(s) && MutexOf(PcOf(s, t)) == Some(x)
    ensures x in s.ever
  {
    hide ThreadsOk, Apart, Covered, TakenIsHeld, ArrayLockOk, ArrayOk;
  }

  /** A socket that was opened and is not in memory is gone. */
  lemma GoneNow(s: State, x: Sock)
    requires Inv(s) && x in s.ever && x !in s.mem
    ensures x in s.gone
  {
    hide ArrayLockOk, MutexesOk, TakenIsHeld, Apart, ArrayOk;
    assert forall t: Thread :: ThreadOk(s, PcOf(s, t));
    assert BeingClosed(s, x) ==> x in s.mem;
  }

  lemma ReleaseKeeps(s: State, t: Thread)
    requires Inv(s) && InRelease(PcOf(s, t))
    ensures ReleaseStep(s, t, PcOf(s, t)) == Crash ==> UsesGone(s, PcOf(s, t))
    ensures ReleaseStep(s, t, PcOf(s, t)).Next? ==> Inv(ReleaseStep(s, t, PcOf(s, t)).s)
  {
    hide Inv, OnlyHolder, OnlyInMutex;
    Known(s, t);
    InMemory(s, t);
    var o := ReleaseStep(s, t, PcOf(s, t));
    match PcOf(s, t)
    case RelLock(x) => if o.Next? { LockStep(s, o.s, t, x, RelAdd(x)); }
    case RelAdd(x) => RelAddKeeps(s, t, x);
    case RelDone(x) =>
      IsEver(s, t, x);
      UnlockStep(s, o.s, t, x, RelSignal(x));
    case RelSignal(x) =>
      if x in s.mem { PlainStep(s, o.s, t, Idle); } else { GoneNow(s, x); }
  }

  // socket_close

  lemma CloseStartKeeps(s: State, t: Thread, x: Sock)
    requires Inv(s) && PcOf(s, t) == CloseStart(x)
    ensures CloseStep(s, t, PcOf(s, t)).Next? ==> Inv(CloseStep(s, t, PcOf(s, t)).s)
  {
    hide ThreadsOk, MutexesOk, ArrayLockOk, Apart, ArrayOk, MemoryOk, Covered, TakenIsHeld, OwnedOk;
    hide OnlyHolder, OnlyInMutex;
    Known(s, t);
    var o := CloseStep(s, t, PcOf(s, t));
    if o.Next? {
      WriteLocked(s, o.s, t, CloseArray(x));
      ArrayLockStep(s, o.s, t, CloseArray(x));
    }
  }

  lemma CloseArrayKeeps(s: State, t: Thread, x: Sock)
    requires Inv(s) && PcOf(s, t) == CloseArray(x)
    ensures CloseStep(s, t, PcOf(s, t)) == Crash ==> UsesGone(s, PcOf(s, t))
    ensures CloseStep(s, t, PcOf(s, t)).Next? ==> Inv(CloseStep(s, t, PcOf(s, t)).s)
  {
    hide Inv, OnlyHolder, OnlyInMutex;
    Known(s, t);
    var o := CloseStep(s, t, PcOf(s, t));
    if x !in s.mem {
      GoneNow(s, x);
    } else if Registered(s, x) {
      RemoveStep(s, o.s, t, x);
    } else {
      PlainStep(s, o.s, t, CloseLeave(None));
    }
  }

  lemma CloseLeaveKeeps(s: State, t: Thread, r: Option<Sock>)
    requires Inv(s) && PcOf(s, t) == CloseLeave(r)
    ensures CloseStep(s, t, PcOf(s, t)).Next? && Inv(CloseStep(s, t, PcOf(s, t)).s)
  {
    hide ThreadsOk, MutexesOk, ArrayLockOk, Apart, ArrayOk, MemoryOk, Covered, TakenIsHeld, OwnedOk;
    hide OnlyHolder, OnlyInMutex;
    Known(s, t);
    var s' := CloseStep(s, t, PcOf(s, t)).s;
    var pc := if r == None then Idle else CloseLock(r.value);
    WriteUnlocked(s, s', t, pc);
    ArrayLockStep(s, s', t, pc);
  }

  lemma CloseCheckKeeps(s: State, t: Thread, x: Sock)
    requires Inv(s) && PcOf(s, t) == CloseCheck(x)
    ensures CloseStep(s, t, PcOf(s, t)).Next? && Inv(CloseStep(s, t, PcOf(s, t)).s) && x in s.mem
    ensures var s' := CloseStep(s, t, PcOf(s, t)).s;
      if s.mem[x].state == 0 then PcOf(s', t) == CloseWait(x) && s'.mem[x] == s.mem[x].(owner := None)
      else PcOf(s', t) == CloseTaken(x) && s.mem[x].state == 1 && s'.mem[x] == s.mem[x].(state := 0)
  {
    hide Inv, OnlyHolder, OnlyInMutex;
    Known(s, t);
    var s' := CloseStep(s, t, PcOf(s, t)).s;
    if s.mem[x].state == 0 {
      UnlockStep(s, s', t, x, CloseWait(x));
    } else {
      FreeNow(s, t, x);
      StateStep(s, s', t, x, 0, CloseTaken(x));
    }
  }

  lemma BreakSetKeeps(s: State, t: Thread, x: Sock)
    requires Inv(s) && PcOf(s, t) == BreakSet(x)
    ensures CloseStep(s, t, PcOf(s, t)).Next? && Inv(CloseStep(s, t, PcOf(s, t)).s)
  {
    hide Inv, OnlyHolder, OnlyInMutex;
    Known(s, t);
    StateStep(s, CloseStep(s, t, PcOf(s, t)).s, t, x, -1, BreakDone(x));
  }

  predicate Early(pc: Pc) {
    pc.CloseStart? || pc.CloseArray? || pc.CloseLeave? || pc.CloseCheck? || pc.BreakSet? || pc.Destroy?
  }

  lemma CloseKeepsEarly(s: State, t: Thread)
    requires Inv(s) && Early(PcOf(s, t))
    ensures CloseStep(s, t, PcOf(s, t)) == Crash ==> UsesGone(s, PcOf(s, t))
    ensures CloseStep(s, t, PcOf(s, t)).Next? ==> Inv(CloseStep(s, t, PcOf(s, t)).s)
  {
    hide Inv, OnlyHolder, OnlyInMutex, CheckState;
    Known(s, t);
    match PcOf(s, t)
    case CloseStart(x) => CloseStartKeeps(s, t, x);
    case CloseArray(x) => CloseArrayKeeps(s, t, x);
    case CloseLeave(r) => CloseLeaveKeeps(s, t, r);
    case CloseCheck(x) => CloseCheckKeeps(s, t, x);
    case BreakSet(x) => BreakSetKeeps(s, t, x);
    case Destroy(x) =>
      assert x in s.mem;
      DestroyStep(s, CloseStep(s, t, PcOf(s, t)).s, t, x);
  }

  lemma CloseKeepsLate(s: State, t: Thread)
    requires Inv(s) && Closing(PcOf(s, t)).Some? && !Early(PcOf(s, t))
    ensures CloseStep(s, t, PcOf(s, t)) == Crash ==> UsesGone(s, PcOf(s, t))
    ensures CloseStep(s, t, PcOf(s, t)).Next? ==> Inv(CloseStep(s, t, PcOf(s, t)).s)
  {
    hide Inv, OnlyHolder, OnlyInMutex;
    Known(s, t);
    var o := CloseStep(s, t, PcOf(s, t));
    match PcOf(s, t)
    case CloseLock(x) => if o.Next? { LockStep(s, o.s, t, x, CloseCheck(x)); }
    case CloseWait(x) => if o.Next? { LockStep(s, o.s, t, x, CloseCheck(x)); }
    case CloseTaken(x) => UnlockStep(s, o.s, t, x, BreakLock(x));
    case CloseBroken(x) =>
    case BreakLock(x) => if o.Next? { LockStep(s, o.s, t, x, BreakSet(x)); }
    case BreakDone(x) => UnlockStep(s, o.s, t, x, BreakSignal(x));
    case BreakSignal(x) => PlainStep(s, o.s, t, Destroy(x));
  }

  lemma BeginKeeps(s: State, c: Choice)
    requires Inv(s) && PcOf(s, c.t) == Idle
    ensures Begin(s, c) != Crash && (Begin(s, c).Next? ==> Inv(Begin(s, c).s))
  {
    hide Inv;
    var o := Begin(s, c);
    match c.call
    case Open(id, x) => if o.Next? { OpenKeeps(s, o.s, id, x); }
    case Acquire(id) => PlainStep(s, o.s, c.t, AcqStart(id));
    case Close(x) => if o.Next? { PlainStep(s, o.s, c.t, CloseStart(x)); }
    case Release(x) => if o.Next? { GiveStep(s, o.s, c.t, x); }
    case Continue =>
  }

  lemma GoneCrashes(s: State, c: Choice)
    requires Inv(s) && UsesGone(s, PcOf(s, c.t))
    ensures Step(s, c) == Crash
  {
    hide ThreadsOk, MutexesOk, ArrayLockOk, Apart, ArrayOk, Covered, TakenIsHeld, Begin, AcquireStep;
  }

  /**
   * Any step of any thread keeps the invariant, or it is one of two uses of a destroyed socket: a closer that lost
   * reads the id of the socket, or a releaser signals behind its unlock.
   */
  lemma {:induction false} StepKeeps(s: State, c: Choice)
    requires Inv(s)
    ensures Step(s, c) == Crash <==> UsesGone(s, PcOf(s, c.t))
    ensures Step(s, c).Next? ==> Inv(Step(s, c).s)
  {
    hide Inv, Begin, AcquireStep, ReleaseStep, CloseStep, UsesGone;
    if UsesGone(s, PcOf(s, c.t)) { GoneCrashes(s, c); }
    var pc := PcOf(s, c.t);
    if pc == Idle {
      BeginKeeps(s, c);
    } else if InAcquire(pc) {
      AcquireKeeps(s, c.t);
    } else if InRelease(pc) {
      ReleaseKeeps(s, c.t);
    } else if Early(pc) {
      CloseKeepsEarly(s, c.t);
    } else {
      CloseKeepsLate(s, c.t);
    }
  }

  lemma {:induction false} RunKeeps(cs: seq<Choice>)
    ensures Run(Init(), cs).Next? ==> Inv(Run(Init(), cs).s)
  {
    hide Inv, Step;
    if cs == [] {
      InitInv();
    } else {
      RunKeeps(cs[..|cs| - 1]);
      if Run(Init(), cs[..|cs| - 1]).Next? { StepKeeps(Run(Init(), cs[..|cs| - 1]).s, cs[|cs| - 1]); }
    }
  }

  /** A thread that has acquired a socket and has not given it back. */
  predicate Acquired(s: State, t: Thread, x: Sock) {
    Has(s, t, x) || PcOf(s, t) == AcqLeave(Some(x)) || PcOf(s, t) == RelLock(x)
  }

  /** Of every opened socket exactly one holds: it is registered, or one thread closes it, or it is gone. */
  ghost predicate OneFate(s: State, x: Sock) {
    && (Registered(s, x) || BeingClosed(s, x) || x in s.gone)
    && !(Registered(s, x) && BeingClosed(s, x)) && !(Registered(s, x) && x in s.gone)
    && !(BeingClosed(s, x) && x in s.gone)
    && (forall t: Thread, u: Thread :: Closing(PcOf(s, t)) == Some(x) && Closing(PcOf(s, u)) == Some(x) ==> t == u)
  }

  /** What a reachable state guarantees. */
  ghost predicate Safe(s: State) {
    && (forall t: Thread, u: Thread, x: Sock :: Acquired(s, t, x) && Acquired(s, u, x) ==> t == u)
    && (forall x :: x in s.ever ==> OneFate(s, x))
    && (forall t: Thread, x: Sock :: PcOf(s, t) == Destroy(x) ==> Deserted(s, t, x))
    && (forall t: Thread, x: Sock :: Acquired(s, t, x) ==> x in s.mem && s.mem[x].state == 0)
  }

  lemma FateIsOne(s: State, x: Sock)
    requires Inv(s) && x in s.ever
    ensures OneFate(s, x)
  {
    hide ArrayLockOk, MutexesOk;
    assert forall t: Thread :: ThreadOk(s, PcOf(s, t));
    assert Registered(s, x) ==> x in s.mem;
    assert BeingClosed(s, x) ==> x in s.mem && !Registered(s, x);
  }

  lemma OneOwner(s: State, t: Thread, u: Thread, x: Sock)
    requires Inv(s) && Acquired(s, t, x)
    ensures x in s.mem && s.mem[x].state == 0 && (Acquired(s, u, x) ==> t == u)
  {
    hide ArrayLockOk, MutexesOk, Covered, MemoryOk, ArrayOk;
    assert ThreadOk(s, PcOf(s, t));
    assert t != u && Holds(PcOf(s, t)) == Some(x) ==> Holds(PcOf(s, u)) != Some(x);
  }

  lemma InvIsSafe(s: State)
    requires Inv(s)
    ensures Safe(s)
  {
    hide Inv, OneFate, Deserted, Acquired;
    forall t: Thread, u: Thread, x: Sock | Acquired(s, t, x) && Acquired(s, u, x) ensures t == u {
      OneOwner(s, t, u, x);
    }
    forall x | x in s.ever ensures OneFate(s, x) {
      FateIsOne(s, x);
    }
    forall t: Thread, x: Sock | PcOf(s, t) == Destroy(x) ensures Deserted(s, t, x) {
      DestroyDeserted(s, t, x);
    }
    forall t: Thread, x: Sock | Acquired(s, t, x) ensures x in s.mem && s.mem[x].state == 0 {
      OneOwner(s, t, t, x);
    }
  }

  lemma DestroyDeserted(s: State, t: Thread, x: Sock)
    requires Inv(s) && PcOf(s, t) == Destroy(x)
    ensures Deserted(s, t, x)
  {
    hide ThreadsOk, ArrayOk, Apart;
    BrokenIsDeserted(s, t, x);
  }

  /**
   * In every run, as far as no step uses a destroyed socket: a socket has at most one owner; every socket that leaves
   * the array is destroyed by exactly one closer; and when it is, nobody owns it or waits for it.
   */
  lemma {:induction false} LocksAreSafe(cs: seq<Choice>)
    ensures Run(Init(), cs).Next? ==> Safe(Run(Init(), cs).s)
  {
    hide Run, Init, Inv, Safe;
    RunKeeps(cs);
    if Run(Init(), cs).Next? { InvIsSafe(Run(Init(), cs).s); }
  }

  /** A broken lock stays broken until its socket is gone, and no thread takes it. */
  lemma BrokenStaysBroken(s: State, c: Choice, x: Sock)
    requires Inv(s) && x in s.mem && s.mem[x].state == -1 && Step(s, c).Next?
    ensures var s' := Step(s, c).s;
      (x in s'.mem ==> s'.mem[x].state == -1) && (x !in s'.mem ==> x in s'.gone)
    ensures forall t: Thread :: !Acquired(Step(s, c).s, t, x)
  {
    hide Safe, Inv, Step, Acquired;
    StepKeeps(s, c);
    BrokenStep(s, c, x);
    forall t: Thread ensures !Acquired(Step(s, c).s, t, x) {
      NotAcquired(Step(s, c).s, t, x);
    }
  }

  lemma NotAcquired(s: State, t: Thread, x: Sock)
    requires Inv(s) && (x in s.mem ==> s.mem[x].state == -1)
    ensures !Acquired(s, t, x)
  {
    hide Inv;
    if Acquired(s, t, x) { OneOwner(s, t, t, x); }
  }

  lemma BrokenStep(s: State, c: Choice, x: Sock)
    requires Inv(s) && x in s.mem && s.mem[x].state == -1 && Step(s, c).Next?
    ensures var s' := Step(s, c).s;
      (x in s'.mem ==> s'.mem[x].state == -1) && (x !in s'.mem ==> x in s'.gone)
  {
    hide ArrayLockOk, Covered, Apart, MutexesOk, TakenIsHeld;
    assert ThreadOk(s, PcOf(s, c.t));
  }
}
