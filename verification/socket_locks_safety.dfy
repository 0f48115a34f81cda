/** What every step of acquiring, releasing and closing sockets keeps. */
module SocketLocksSafety {
  import opened SocketLocks
  import opened Options

  ghost predicate Moves(s: State, s': State, t: Thread, pc: Pc) {
    s'.pcs == s.pcs[t := pc] && s'.ever == s.ever
  }

  lemma MovedPc(s: State, s': State, t: Thread, pc: Pc, u: Thread)
    requires Moves(s, s', t, pc)
    ensures PcOf(s', u) == if u == t then pc else PcOf(s, u)
  {
  }

  /** The array and the states of all locks are as before; only owners of mutexes may differ. */
  ghost predicate SameStates(s: State, s': State) {
    && s'.table == s.table && s'.ever == s.ever && s'.gone == s.gone && s'.mem.Keys == s.mem.Keys
    && s'.owned == s.owned
    && forall x :: x in s.mem ==> s'.mem[x].state == s.mem[x].state && s'.mem[x].id == s.mem[x].id
  }

  ghost predicate SameArrayLock(s: State, s': State) {
    s'.readers == s.readers && s'.writer == s.writer
  }

  lemma ThreadsTogether(s: State, s': State, t: Thread, pc: Pc)
    requires Moves(s, s', t, pc) && ThreadOk(s', pc)
    requires forall u: Thread :: u != t ==> ThreadOk(s', PcOf(s, u))
    ensures ThreadsOk(s')
  {
    hide ThreadOk;
    forall u: Thread ensures ThreadOk(s', PcOf(s', u)) {
      MovedPc(s, s', t, pc, u);
    }
  }

  lemma ThreadFrame(s: State, s': State, pc: Pc)
    requires ThreadOk(s, pc) && SameStates(s, s')
    ensures ThreadOk(s', pc)
  {
  }

  lemma ThreadsStay(s: State, s': State, t: Thread, pc: Pc)
    requires ThreadsOk(s) && SameStates(s, s') && Moves(s, s', t, pc) && ThreadOk(s, pc)
    ensures ThreadsOk(s')
  {
    hide ThreadOk, SameStates;
    ThreadFrame(s, s', pc);
    forall u: Thread | u != t ensures ThreadOk(s', PcOf(s, u)) {
      ThreadFrame(s, s', PcOf(s, u));
    }
    ThreadsTogether(s, s', t, pc);
  }

  lemma ArrayStays(s: State, s': State)
    requires ArrayOk(s) && MemoryOk(s) && SameStates(s, s')
    ensures ArrayOk(s') && MemoryOk(s')
  {
  }

  lemma ApartStays(s: State, s': State, t: Thread, pc: Pc)
    requires Apart(s) && Moves(s, s', t, pc)
    requires Holds(pc).Some? && Holds(pc) != Holds(PcOf(s, t)) ==> OnlyHolder(s, t, Holds(pc).value)
    requires Closing(pc).Some? && Closing(pc) != Closing(PcOf(s, t)) ==> OnlyCloser(s, t, Closing(pc).value)
    ensures Apart(s')
  {
    forall u: Thread, w: Thread | u != w
      ensures Holds(PcOf(s', u)).Some? ==> Holds(PcOf(s', u)) != Holds(PcOf(s', w))
      ensures Closing(PcOf(s', u)).Some? ==> Closing(PcOf(s', u)) != Closing(PcOf(s', w))
    {
      MovedPc(s, s', t, pc, u);
      MovedPc(s, s', t, pc, w);
    }
  }

  ghost predicate OnlyHolder(s: State, t: Thread, x: Sock) {
    x !in s.owned && forall u: Thread :: u != t ==> Holds(PcOf(s, u)) != Some(x)
  }

  ghost predicate OnlyCloser(s: State, t: Thread, x: Sock) {
    forall u: Thread :: u != t ==> Closing(PcOf(s, u)) != Some(x)
  }

  lemma CoveredStays(s: State, s': State, t: Thread, pc: Pc)
    requires Covered(s) && Moves(s, s', t, pc)
    requires forall x: Sock :: Registered(s, x) ==> Registered(s', x) || Closing(pc) == Some(x)
    requires forall x :: x in s.gone ==> x in s'.gone
    requires forall x: Sock :: Closing(PcOf(s, t)) == Some(x) ==> Closing(pc) == Some(x) || x in s'.gone
    ensures Covered(s')
  {
    hide Registered;
    forall x | x in s'.ever ensures Registered(s', x) || BeingClosed(s', x) || x in s'.gone {
      MovedPc(s, s', t, pc, t);
      assert Closing(PcOf(s', t)) == Some(x) ==> BeingClosed(s', x);
      if BeingClosed(s, x) {
        var u: Thread :| Closing(PcOf(s, u)) == Some(x);
        MovedPc(s, s', t, pc, u);
        assert u != t ==> Closing(PcOf(s', u)) == Some(x);
      }
    }
  }

  lemma HeldStays(s: State, s': State, t: Thread, pc: Pc)
    requires TakenIsHeld(s) && Moves(s, s', t, pc)
    requires forall x :: x in s'.mem && s'.mem[x].state == 0 ==>
      Holds(pc) == Some(x) || x in s'.owned ||
      (x in s.mem && s.mem[x].state == 0 && Holds(PcOf(s, t)) != Some(x) && x !in s.owned)
    ensures TakenIsHeld(s')
  {
    forall x | x in s'.mem && s'.mem[x].state == 0 ensures IsHeld(s', x) {
      MovedPc(s, s', t, pc, t);
      if Holds(pc) != Some(x) && x !in s'.owned {
        assert IsHeld(s, x);
        var u: Thread :| Holds(PcOf(s, u)) == Some(x);
        MovedPc(s, s', t, pc, u);
      }
      assert Holds(PcOf(s', t)) == Some(x) ==> IsHeld(s', x);
    }
  }

  /** Nothing that is kept changes hands or its state. */
  lemma OwnedStays(s: State, s': State, t: Thread, pc: Pc)
    requires OwnedOk(s) && Moves(s, s', t, pc) && s'.owned == s.owned
    requires forall x :: x in s.owned ==> x in s'.mem && s'.mem[x].state == 0
    requires Holds(pc).Some? && Holds(pc) != Holds(PcOf(s, t)) ==> Holds(pc).value !in s.owned
    ensures OwnedOk(s')
  {
    forall u: Thread, x: Sock | x in s'.owned ensures Holds(PcOf(s', u)) != Some(x) {
      MovedPc(s, s', t, pc, u);
    }
  }

  lemma ArrayLockStays(s: State, s': State, t: Thread, pc: Pc)
    requires ArrayLockOk(s) && Moves(s, s', t, pc) && SameArrayLock(s, s')
    requires Reads(pc) == Reads(PcOf(s, t)) && Writes(pc) == Writes(PcOf(s, t))
    ensures ArrayLockOk(s')
  {
    forall u: Thread
      ensures (Reads(PcOf(s', u)) <==> u in s'.readers) && (Writes(PcOf(s', u)) <==> s'.writer == Some(u))
    {
      MovedPc(s, s', t, pc, u);
    }
  }

  /** Taking and leaving the mutex of a socket. */
  lemma MutexLocked(s: State, s': State, t: Thread, x: Sock, pc: Pc)
    requires MutexesOk(s) && Moves(s, s', t, pc) && MutexOf(PcOf(s, t)) == None && MutexOf(pc) == Some(x)
    requires x in s.mem && s.mem[x].owner == None && s'.mem == s.mem[x := s.mem[x].(owner := Some(t))]
    ensures MutexesOk(s')
  {
    forall u: Thread | MutexOf(PcOf(s', u)).Some?
      ensures MutexOf(PcOf(s', u)).value in s'.mem && s'.mem[MutexOf(PcOf(s', u)).value].owner == Some(u)
    {
      MovedPc(s, s', t, pc, u);
    }
    forall y | y in s'.mem && s'.mem[y].owner.Some? ensures MutexOf(PcOf(s', s'.mem[y].owner.value)) == Some(y) {
      MovedPc(s, s', t, pc, s'.mem[y].owner.value);
    }
  }

  lemma MutexUnlocked(s: State, s': State, t: Thread, x: Sock, pc: Pc)
    requires MutexesOk(s) && Moves(s, s', t, pc) && MutexOf(PcOf(s, t)) == Some(x) && MutexOf(pc) == None
    requires x in s.mem && s'.mem == s.mem[x := s.mem[x].(owner := None)]
    ensures MutexesOk(s')
  {
    forall u: Thread | MutexOf(PcOf(s', u)).Some?
      ensures MutexOf(PcOf(s', u)).value in s'.mem && s'.mem[MutexOf(PcOf(s', u)).value].owner == Some(u)
    {
      MovedPc(s, s', t, pc, u);
    }
    forall y | y in s'.mem && s'.mem[y].owner.Some? ensures MutexOf(PcOf(s', s'.mem[y].owner.value)) == Some(y) {
      MovedPc(s, s', t, pc, s'.mem[y].owner.value);
    }
  }

  /** A step after which the thread holds the same mutex as before, and no owner has changed. */
  lemma MutexesStay(s: State, s': State, t: Thread, pc: Pc)
    requires MutexesOk(s) && Moves(s, s', t, pc) && MutexOf(pc) == MutexOf(PcOf(s, t))
    requires s'.mem.Keys == s.mem.Keys && forall y :: y in s.mem ==> s'.mem[y].owner == s.mem[y].owner
    ensures MutexesOk(s')
  {
    forall u: Thread | MutexOf(PcOf(s', u)).Some?
      ensures MutexOf(PcOf(s', u)).value in s'.mem && s'.mem[MutexOf(PcOf(s', u)).value].owner == Some(u)
    {
      MovedPc(s, s', t, pc, u);
    }
    forall y | y in s'.mem && s'.mem[y].owner.Some? ensures MutexOf(PcOf(s', s'.mem[y].owner.value)) == Some(y) {
      assert y in s.mem && s.mem[y].owner == s'.mem[y].owner;
      MovedPc(s, s', t, pc, s'.mem[y].owner.value);
    }
  }

  /** What a thread is to a socket does not change. */
  ghost predicate SameRole(pc: Pc, pc': Pc) {
    Holds(pc') == Holds(pc) && Closing(pc') == Closing(pc) && Reads(pc') == Reads(pc) && Writes(pc') == Writes(pc)
  }

  /** A step that changes neither the array nor any lock state. */
  lemma QuietStep(s: State, s': State, t: Thread, pc: Pc)
    requires Inv(s) && Moves(s, s', t, pc) && SameStates(s, s')
    requires Holds(pc) == Holds(PcOf(s, t)) && Closing(pc) == Closing(PcOf(s, t))
    requires ThreadOk(s, pc) && MutexesOk(s') && ArrayLockOk(s')
    ensures Inv(s')
  {
    hide ThreadsOk, ThreadOk, MutexesOk, ArrayLockOk, Apart, ArrayOk, MemoryOk, Covered, TakenIsHeld, OwnedOk;
    ThreadsStay(s, s', t, pc);
    ArrayStays(s, s');
    ApartStays(s, s', t, pc);
    CoveredStays(s, s', t, pc);
    HeldStays(s, s', t, pc);
    QuietOwned(s, s', t, pc);
  }

  lemma QuietOwned(s: State, s': State, t: Thread, pc: Pc)
    requires OwnedOk(s) && Moves(s, s', t, pc) && SameStates(s, s') && Holds(pc) == Holds(PcOf(s, t))
    ensures OwnedOk(s')
  {
    hide OwnedOk;
    assert forall x :: x in s.owned ==> x in s.mem && s.mem[x].state == 0 by { OwnedKnown(s); }
    OwnedStays(s, s', t, pc);
  }

  /** The memory stays as it is. */
  lemma SameOwned(s: State, s': State, t: Thread, pc: Pc)
    requires OwnedOk(s) && Moves(s, s', t, pc) && s'.mem == s.mem && s'.owned == s.owned
    requires Holds(pc) == Holds(PcOf(s, t))
    ensures OwnedOk(s')
  {
    OwnedStays(s, s', t, pc);
  }

  lemma OwnedKnown(s: State)
    requires OwnedOk(s)
    ensures forall x :: x in s.owned ==> x in s.mem && s.mem[x].state == 0
  {
  }

  lemma LockStep(s: State, s': State, t: Thread, x: Sock, pc: Pc)
    requires Inv(s) && LockMutex(s, t, x, pc) == Next(s') && SameRole(PcOf(s, t), pc)
    requires MutexOf(PcOf(s, t)) == None && MutexOf(pc) == Some(x) && ThreadOk(s, pc)
    ensures Inv(s')
  {
    hide ThreadsOk, ThreadOk, MutexesOk, ArrayLockOk, Apart, ArrayOk, MemoryOk, Covered, TakenIsHeld, OwnedOk;
    MutexLocked(s, s', t, x, pc);
    ArrayLockStays(s, s', t, pc);
    QuietStep(s, s', t, pc);
  }

  lemma UnlockStep(s: State, s': State, t: Thread, x: Sock, pc: Pc)
    requires Inv(s) && UnlockMutex(s, t, x, pc) == Next(s') && SameRole(PcOf(s, t), pc)
    requires MutexOf(PcOf(s, t)) == Some(x) && MutexOf(pc) == None && ThreadOk(s, pc)
    ensures Inv(s')
  {
    hide ThreadsOk, ThreadOk, MutexesOk, ArrayLockOk, Apart, ArrayOk, MemoryOk, Covered, TakenIsHeld, OwnedOk;
    MutexUnlocked(s, s', t, x, pc);
    ArrayLockStays(s, s', t, pc);
    QuietStep(s, s', t, pc);
  }

  // Changing the state of a lock.

  ghost predicate OnlyInMutex(s: State, t: Thread, x: Sock) {
    forall u: Thread :: u != t ==> MutexOf(PcOf(s, u)) != Some(x)
  }

  lemma MutexIsMine(s: State, t: Thread, x: Sock)
    requires MutexesOk(s) && MutexOf(PcOf(s, t)) == Some(x)
    ensures OnlyInMutex(s, t, x) && x in s.mem
  {
  }

  lemma RolesAreMine(s: State, t: Thread)
    requires Apart(s) && OwnedOk(s)
    ensures Holds(PcOf(s, t)).Some? ==> OnlyHolder(s, t, Holds(PcOf(s, t)).value)
    ensures Closing(PcOf(s, t)).Some? ==> OnlyCloser(s, t, Closing(PcOf(s, t)).value)
  {
  }

  /** From a free lock to a taken one: nobody held it. */
  lemma FreeIsUnheld(s: State, t: Thread, x: Sock)
    requires ThreadsOk(s) && OwnedOk(s) && x in s.mem && s.mem[x].state != 0
    ensures OnlyHolder(s, t, x)
  {
    forall u: Thread | u != t ensures Holds(PcOf(s, u)) != Some(x) {
      assert ThreadOk(s, PcOf(s, u));
    }
  }

  /**
   * The other threads after a change of a state: they do not hold the lock or are not in the mutex, and a change to or
   * from -1 is made by the only closer.
   */
  lemma StateThreads(s: State, s': State, t: Thread, x: Sock, v: int, pc: Pc)
    requires ThreadsOk(s) && SetState(s, t, x, v, pc) == Next(s') && OnlyInMutex(s, t, x) && OnlyHolder(s, t, x)
    requires (v == -1 ==> OnlyCloser(s, t, x)) && s.mem[x].state != -1
    requires ThreadOk(s', pc)
    ensures ThreadsOk(s')
  {
    forall u: Thread | u != t ensures ThreadOk(s', PcOf(s, u)) {
      assert ThreadOk(s, PcOf(s, u));
    }
    ThreadsTogether(s, s', t, pc);
  }

  lemma HeldState(s: State, s': State, t: Thread, x: Sock, v: int, pc: Pc)
    requires TakenIsHeld(s) && SetState(s, t, x, v, pc) == Next(s') && MutexOf(PcOf(s, t)) == Some(x)
    requires (v == 0 ==> Holds(pc) == Some(x)) && x !in s.owned
    requires Holds(PcOf(s, t)).Some? ==> Holds(PcOf(s, t)) == MutexOf(PcOf(s, t))
    ensures TakenIsHeld(s')
  {
    hide TakenIsHeld;
    HeldStays(s, s', t, pc);
  }

  lemma StateOwned(s: State, s': State, t: Thread, x: Sock, v: int, pc: Pc)
    requires OwnedOk(s) && SetState(s, t, x, v, pc) == Next(s') && OnlyHolder(s, t, x)
    requires Holds(pc) == Some(x) || Holds(pc) == None
    ensures OwnedOk(s') && x !in s.owned
  {
    OwnedStays(s, s', t, pc);
  }

  lemma StateStep(s: State, s': State, t: Thread, x: Sock, v: int, pc: Pc)
    requires Inv(s) && SetState(s, t, x, v, pc) == Next(s') && -1 <= v <= 1 && s.mem[x].state != -1
    requires MutexOf(PcOf(s, t)) == Some(x) && MutexOf(pc) == Some(x) && OnlyHolder(s, t, x)
    requires Reads(pc) == Reads(PcOf(s, t)) && Writes(pc) == Writes(PcOf(s, t))
    requires Holds(pc) == Some(x) || Holds(pc) == None
    requires Closing(pc) == Closing(PcOf(s, t)) && (v == -1 ==> Closing(pc) == Some(x) && !Registered(s, x))
    requires v == 0 ==> Holds(pc) == Some(x)
    requires ThreadOk(s', pc)
    ensures Inv(s')
  {
    hide ThreadsOk, ThreadOk, MutexesOk, ArrayLockOk, Apart, MemoryOk, Covered, OnlyHolder, OnlyCloser, OnlyInMutex;
    hide TakenIsHeld, OwnedOk;
    MutexIsMine(s, t, x);
    RolesAreMine(s, t);
    StateOwned(s, s', t, x, v, pc);
    StateThreads(s, s', t, x, v, pc);
    MutexesStay(s, s', t, pc);
    ArrayLockStays(s, s', t, pc);
    StateMemory(s, s', t, x, v, pc);
    ApartStays(s, s', t, pc);
    CoveredStays(s, s', t, pc);
    HeldState(s, s', t, x, v, pc);
  }

  lemma StateMemory(s: State, s': State, t: Thread, x: Sock, v: int, pc: Pc)
    requires MemoryOk(s) && SetState(s, t, x, v, pc) == Next(s') && -1 <= v <= 1
    ensures MemoryOk(s')
  {
  }

  // Between its calls a thread keeps the sockets that it has acquired.

  /** What a thread had locked in a call it keeps afterwards. */
  lemma KeepOwned(s: State, s': State, t: Thread, x: Sock)
    requires OwnedOk(s) && Apart(s) && ThreadOk(s, PcOf(s, t)) && Holds(PcOf(s, t)) == Some(x)
    requires Moves(s, s', t, Idle) && s'.owned == s.owned[x := t] && s'.mem == s.mem
    ensures OwnedOk(s')
  {
    forall u: Thread, y: Sock | y in s'.owned ensures Holds(PcOf(s', u)) != Some(y) {
      MovedPc(s, s', t, Idle, u);
    }
  }

  lemma KeepStep(s: State, s': State, t: Thread, x: Sock)
    requires Inv(s) && PcOf(s, t) == AcqLeave(Some(x)) && AcquireStep(s, t, PcOf(s, t)) == Next(s')
    ensures Inv(s')
  {
    hide ThreadsOk, MutexesOk, ArrayLockOk, Apart, MemoryOk, ArrayOk, Covered, TakenIsHeld, OwnedOk;
    hide ThreadOk, Registered;
    KnownThread(s, t);
    IdleOk(s);
    KeepOwned(s, s', t, x);
    ReadUnlocked(s, s', t, Idle);
    MutexesStay(s, s', t, Idle);
    KeptThreads(s, s', t, Idle);
    KeptMemory(s, s');
    ApartStays(s, s', t, Idle);
    CoveredStays(s, s', t, Idle);
    HeldStays(s, s', t, Idle);
  }

  lemma IdleOk(s: State)
    ensures ThreadOk(s, Idle)
  {
  }

  lemma KnownThread(s: State, t: Thread)
    requires ThreadsOk(s)
    ensures ThreadOk(s, PcOf(s, t))
  {
  }

  lemma KeptThreads(s: State, s': State, t: Thread, pc: Pc)
    requires ThreadsOk(s) && Moves(s, s', t, pc) && ThreadOk(s, pc)
    requires s'.mem == s.mem && s'.table == s.table
    ensures ThreadsOk(s')
    ensures forall x: Sock :: Registered(s', x) <==> Registered(s, x)
  {
    forall u: Thread | u != t ensures ThreadOk(s', PcOf(s, u)) {
      assert ThreadOk(s, PcOf(s, u));
    }
    ThreadsTogether(s, s', t, pc);
  }

  lemma KeptMemory(s: State, s': State)
    requires ArrayOk(s) && MemoryOk(s)
    requires s'.mem == s.mem && s'.table == s.table && s'.ever == s.ever && s'.gone == s.gone
    ensures ArrayOk(s') && MemoryOk(s')
  {
  }

  lemma GiveOwned(s: State, s': State, t: Thread, x: Sock)
    requires OwnedOk(s) && Has(s, t, x) && Moves(s, s', t, RelLock(x)) && s'.owned == s.owned - {x} && s'.mem == s.mem
    ensures OwnedOk(s') && OnlyHolder(s', t, x) && ThreadOk(s, RelLock(x))
    ensures forall u: Thread :: u != t ==> Holds(PcOf(s, u)) != Some(x)
  {
    forall u: Thread, y: Sock | y in s'.owned ensures Holds(PcOf(s', u)) != Some(y) {
      MovedPc(s, s', t, RelLock(x), u);
    }
    forall u: Thread | u != t ensures Holds(PcOf(s', u)) != Some(x) {
      MovedPc(s, s', t, RelLock(x), u);
    }
  }

  lemma GiveStep(s: State, s': State, t: Thread, x: Sock)
    requires Inv(s) && PcOf(s, t) == Idle && Has(s, t, x)
    requires s' == At(s, t, RelLock(x)).(owned := s.owned - {x})
    ensures Inv(s')
  {
    hide ThreadsOk, MutexesOk, ArrayLockOk, Apart, MemoryOk, ArrayOk, Covered, TakenIsHeld, OwnedOk;
    hide ThreadOk, Registered;
    var pc := RelLock(x);
    GiveOwned(s, s', t, x);
    ArrayLockStays(s, s', t, pc);
    MutexesStay(s, s', t, pc);
    KeptThreads(s, s', t, pc);
    KeptMemory(s, s');
    ApartGiven(s, s', t, x);
    CoveredStays(s, s', t, pc);
    HeldStays(s, s', t, pc);
  }

  lemma ApartGiven(s: State, s': State, t: Thread, x: Sock)
    requires Apart(s) && Moves(s, s', t, RelLock(x)) && forall u: Thread :: u != t ==> Holds(PcOf(s, u)) != Some(x)
    ensures Apart(s')
  {
    forall u: Thread, w: Thread | u != w
      ensures Holds(PcOf(s', u)).Some? ==> Holds(PcOf(s', u)) != Holds(PcOf(s', w))
      ensures Closing(PcOf(s', u)).Some? ==> Closing(PcOf(s', u)) != Closing(PcOf(s', w))
    {
      MovedPc(s, s', t, RelLock(x), u);
      MovedPc(s, s', t, RelLock(x), w);
    }
  }

  // The array and its lock.

  /** A step that changes only the place of a thread and the lock of the array. */
  lemma ArrayLockStep(s: State, s': State, t: Thread, pc: Pc)
    requires Inv(s) && Moves(s, s', t, pc) && SameStates(s, s') && s'.mem == s.mem && ArrayLockOk(s')
    requires Holds(pc) == Holds(PcOf(s, t)) && Closing(pc) == Closing(PcOf(s, t))
    requires MutexOf(pc) == MutexOf(PcOf(s, t)) && ThreadOk(s, pc)
    ensures Inv(s')
  {
    hide ThreadsOk, ThreadOk, MutexesOk, ArrayLockOk, Apart, ArrayOk, MemoryOk, Covered, TakenIsHeld, OwnedOk;
    MutexesStay(s, s', t, pc);
    QuietStep(s, s', t, pc);
  }

  /** A step that changes only the place of a thread. */
  lemma PlainStep(s: State, s': State, t: Thread, pc: Pc)
    requires Inv(s) && s' == At(s, t, pc) && SameRole(PcOf(s, t), pc)
    requires MutexOf(pc) == MutexOf(PcOf(s, t)) && ThreadOk(s, pc)
    ensures Inv(s')
  {
    hide ThreadsOk, ThreadOk, MutexesOk, ArrayLockOk, Apart, ArrayOk, MemoryOk, Covered, TakenIsHeld, OwnedOk;
    ArrayLockStays(s, s', t, pc);
    ArrayLockStep(s, s', t, pc);
  }

  lemma ReadLocked(s: State, s': State, t: Thread, pc: Pc)
    requires ArrayLockOk(s) && Moves(s, s', t, pc) && s.writer == None && s'.writer == None
    requires s'.readers == s.readers + {t} && Reads(pc) && !Writes(pc)
    ensures ArrayLockOk(s')
  {
    forall u: Thread
      ensures (Reads(PcOf(s', u)) <==> u in s'.readers) && (Writes(PcOf(s', u)) <==> s'.writer == Some(u))
    {
      MovedPc(s, s', t, pc, u);
    }
  }

  lemma ReadUnlocked(s: State, s': State, t: Thread, pc: Pc)
    requires ArrayLockOk(s) && Moves(s, s', t, pc) && Reads(PcOf(s, t)) && s'.writer == s.writer
    requires s'.readers == s.readers - {t} && !Reads(pc) && !Writes(pc)
    ensures ArrayLockOk(s')
  {
    forall u: Thread
      ensures (Reads(PcOf(s', u)) <==> u in s'.readers) && (Writes(PcOf(s', u)) <==> s'.writer == Some(u))
    {
      MovedPc(s, s', t, pc, u);
    }
  }

  lemma WriteLocked(s: State, s': State, t: Thread, pc: Pc)
    requires ArrayLockOk(s) && Moves(s, s', t, pc) && s.writer == None && s.readers == {} && s'.readers == {}
    requires s'.writer == Some(t) && !Reads(pc) && Writes(pc)
    ensures ArrayLockOk(s')
  {
    forall u: Thread
      ensures (Reads(PcOf(s', u)) <==> u in s'.readers) && (Writes(PcOf(s', u)) <==> s'.writer == Some(u))
    {
      MovedPc(s, s', t, pc, u);
    }
  }

  lemma WriteUnlocked(s: State, s': State, t: Thread, pc: Pc)
    requires ArrayLockOk(s) && Moves(s, s', t, pc) && Writes(PcOf(s, t)) && s'.readers == s.readers
    requires s'.writer == None && !Reads(pc) && !Writes(pc)
    ensures ArrayLockOk(s')
  {
    assert s.writer == Some(t);
    forall u: Thread
      ensures (Reads(PcOf(s', u)) <==> u in s'.readers) && (Writes(PcOf(s', u)) <==> s'.writer == Some(u))
    {
      MovedPc(s, s', t, pc, u);
    }
  }

  // A socket leaves the array.

  /** While a thread has the write lock, no other thread has found a socket in the array. */
  lemma WriterIsAlone(s: State, t: Thread)
    requires ArrayLockOk(s) && Writes(PcOf(s, t))
    ensures forall u: Thread :: Wants(PcOf(s, u)) == None
  {
    assert s.writer == Some(t) && s.readers == {};
    forall u: Thread ensures Wants(PcOf(s, u)) == None {
      assert Reads(PcOf(s, u)) <==> u in s.readers;
    }
  }

  lemma RegisteredIsNotClosed(s: State, t: Thread, x: Sock)
    requires ThreadsOk(s) && Registered(s, x)
    ensures OnlyCloser(s, t, x)
  {
    forall u: Thread | u != t ensures Closing(PcOf(s, u)) != Some(x) {
      assert ThreadOk(s, PcOf(s, u));
    }
  }

  lemma RemoveThreads(s: State, s': State, t: Thread, x: Sock)
    requires ThreadsOk(s) && ArrayOk(s) && Registered(s, x) && forall u: Thread :: Wants(PcOf(s, u)) == None
    requires s' == At(s, t, CloseLeave(Some(x))).(table := s.table - {IdOf(s, x)})
    ensures ThreadsOk(s')
  {
    forall u: Thread | u != t ensures ThreadOk(s', PcOf(s, u)) {
      assert ThreadOk(s, PcOf(s, u));
      assert Wants(PcOf(s, u)) == None;
    }
    ThreadsTogether(s, s', t, CloseLeave(Some(x)));
  }

  lemma {:induction false} RemoveStep(s: State, s': State, t: Thread, x: Sock)
    requires Inv(s) && PcOf(s, t) == CloseArray(x) && Registered(s, x)
    requires s' == At(s, t, CloseLeave(Some(x))).(table := s.table - {IdOf(s, x)})
    ensures Inv(s')
  {
    hide ThreadsOk, ThreadOk, MutexesOk, ArrayLockOk, Apart, MemoryOk, Covered, OnlyCloser, TakenIsHeld, OwnedOk;
    var pc := CloseLeave(Some(x));
    SameOwned(s, s', t, pc);
    WriterIsAlone(s, t);
    RegisteredIsNotClosed(s, t, x);
    RemoveThreads(s, s', t, x);
    MutexesStay(s, s', t, pc);
    ArrayLockStays(s, s', t, pc);
    RemoveMemory(s, s');
    ApartStays(s, s', t, pc);
    CoveredStays(s, s', t, pc);
    HeldStays(s, s', t, pc);
  }

  lemma RemoveMemory(s: State, s': State)
    requires MemoryOk(s) && s'.mem == s.mem && s'.ever == s.ever && s'.gone == s.gone
    ensures MemoryOk(s')
  {
  }

  // The end of a socket.

  /** Nobody else owns the socket, waits for it, is in its mutex or closes it. */
  ghost predicate Deserted(s: State, t: Thread, x: Sock) {
    x !in s.owned && forall u: Thread :: u != t ==>
      Holds(PcOf(s, u)) != Some(x) && Wants(PcOf(s, u)) != Some(x) && MutexOf(PcOf(s, u)) != Some(x) &&
      Closing(PcOf(s, u)) != Some(x) && !(PcOf(s, u).RelDone? && PcOf(s, u).x == x)
  }

  lemma BrokenIsDeserted(s: State, t: Thread, x: Sock)
    requires ThreadsOk(s) && ArrayOk(s) && Apart(s) && OwnedOk(s) && PcOf(s, t) == Destroy(x)
    ensures x in s.mem && s.mem[x].state == -1 && !Registered(s, x) && Deserted(s, t, x)
  {
    assert ThreadOk(s, PcOf(s, t));
    forall u: Thread | u != t
      ensures Holds(PcOf(s, u)) != Some(x) && Wants(PcOf(s, u)) != Some(x) && MutexOf(PcOf(s, u)) != Some(x)
      ensures Closing(PcOf(s, u)) != Some(x) && !(PcOf(s, u).RelDone? && PcOf(s, u).x == x)
    {
      assert ThreadOk(s, PcOf(s, u));
      assert Closing(PcOf(s, t)) != Closing(PcOf(s, u));
    }
  }

  lemma DestroyThreads(s: State, s': State, t: Thread, x: Sock)
    requires ThreadsOk(s) && Deserted(s, t, x) && Moves(s, s', t, Idle) && x in s.mem
    requires s'.mem == s.mem - {x} && s'.table == s.table
    ensures ThreadsOk(s')
  {
    forall u: Thread | u != t ensures ThreadOk(s', PcOf(s, u)) {
      assert ThreadOk(s, PcOf(s, u));
    }
    ThreadsTogether(s, s', t, Idle);
  }

  lemma DestroyMutexes(s: State, s': State, t: Thread, x: Sock)
    requires MutexesOk(s) && Deserted(s, t, x) && Moves(s, s', t, Idle) && PcOf(s, t) == Destroy(x)
    requires s'.mem == s.mem - {x}
    ensures MutexesOk(s')
  {
    forall u: Thread | MutexOf(PcOf(s', u)).Some?
      ensures MutexOf(PcOf(s', u)).value in s'.mem && s'.mem[MutexOf(PcOf(s', u)).value].owner == Some(u)
    {
      MovedPc(s, s', t, Idle, u);
    }
    forall y | y in s'.mem && s'.mem[y].owner.Some? ensures MutexOf(PcOf(s', s'.mem[y].owner.value)) == Some(y) {
      assert y in s.mem && s.mem[y].owner == s'.mem[y].owner;
      MovedPc(s, s', t, Idle, s'.mem[y].owner.value);
    }
  }

  lemma DestroyMemory(s: State, s': State, x: Sock)
    requires MemoryOk(s) && ArrayOk(s) && x in s.mem && !Registered(s, x) && s'.ever == s.ever
    requires s'.mem == s.mem - {x} && s'.gone == s.gone + {x} && s'.table == s.table
    ensures MemoryOk(s') && ArrayOk(s')
  {
  }

  lemma DestroyOwned(s: State, s': State, t: Thread, x: Sock)
    requires OwnedOk(s) && Deserted(s, t, x) && Moves(s, s', t, Idle) && s'.mem == s.mem - {x} && s'.owned == s.owned
    ensures OwnedOk(s')
  {
    OwnedStays(s, s', t, Idle);
  }

  lemma DestroyStep(s: State, s': State, t: Thread, x: Sock)
    requires Inv(s) && PcOf(s, t) == Destroy(x) && CloseStep(s, t, PcOf(s, t)) == Next(s')
    ensures Inv(s')
  {
    hide ThreadsOk, ThreadOk, MutexesOk, ArrayLockOk, Apart, ArrayOk, MemoryOk, Covered, Deserted, TakenIsHeld;
    BrokenIsDeserted(s, t, x);
    DestroyThreads(s, s', t, x);
    DestroyMutexes(s, s', t, x);
    DestroyMemory(s, s', x);
    DestroyOwned(s, s', t, x);
    ArrayLockStays(s, s', t, Idle);
    ApartStays(s, s', t, Idle);
    CoveredStays(s, s', t, Idle);
    HeldStays(s, s', t, Idle);
  }

  // A socket is opened.

  lemma OpenRegistered(s: State, s': State, id: Id, x: Sock)
    requires MemoryOk(s) && OpenStep(s, id, x) == Next(s')
    ensures x !in s.mem && Registered(s', x) && forall y: Sock :: y != x ==> (Registered(s', y) <==> Registered(s, y))
  {
  }

  lemma OpenThread(s: State, s': State, pc: Pc, id: Id, x: Sock)
    requires ThreadOk(s, pc) && OpenStep(s, id, x) == Next(s') && x !in s.mem && !Registered(s, x)
    requires forall y: Sock :: y != x ==> (Registered(s', y) <==> Registered(s, y))
    ensures ThreadOk(s', pc)
  {
    hide Registered;
  }

  lemma OpenThreads(s: State, s': State, id: Id, x: Sock)
    requires Inv(s) && OpenStep(s, id, x) == Next(s')
    ensures ThreadsOk(s')
  {
    hide Apart, Covered, ArrayLockOk, MutexesOk, MemoryOk, ArrayOk, ThreadOk, TakenIsHeld;
    OpenRegistered(s, s', id, x);
    forall t: Thread ensures ThreadOk(s', PcOf(s', t)) {
      OpenThread(s, s', PcOf(s, t), id, x);
    }
  }

  lemma OpenMutexes(s: State, s': State, id: Id, x: Sock)
    requires MutexesOk(s) && MemoryOk(s) && OpenStep(s, id, x) == Next(s')
    ensures MutexesOk(s') && MemoryOk(s')
  {
    assert forall t: Thread :: PcOf(s', t) == PcOf(s, t);
  }

  lemma OpenArray(s: State, s': State, id: Id, x: Sock)
    requires ArrayOk(s) && MemoryOk(s) && OpenStep(s, id, x) == Next(s')
    ensures ArrayOk(s') && Registered(s', x) && forall y: Sock :: Registered(s, y) ==> Registered(s', y)
  {
    forall y: Sock | Registered(s, y) ensures Registered(s', y) {
      assert y != x;
    }
  }

  lemma OpenCovered(s: State, s': State, id: Id, x: Sock)
    requires Covered(s) && OpenStep(s, id, x) == Next(s')
    requires Registered(s', x) && forall y: Sock :: Registered(s, y) ==> Registered(s', y)
    ensures Covered(s')
  {
    hide Registered;
    forall y | y in s'.ever ensures Registered(s', y) || BeingClosed(s', y) || y in s'.gone {
      if y != x && BeingClosed(s, y) {
        var u: Thread :| Closing(PcOf(s, u)) == Some(y);
        assert PcOf(s', u) == PcOf(s, u);
      }
    }
  }

  lemma OpenHeld(s: State, s': State, id: Id, x: Sock)
    requires TakenIsHeld(s) && OpenStep(s, id, x) == Next(s')
    ensures TakenIsHeld(s')
  {
    forall y | y in s'.mem && s'.mem[y].state == 0 ensures IsHeld(s', y) {
      assert IsHeld(s, y);
      if y !in s.owned {
        var u: Thread :| Holds(PcOf(s, u)) == Some(y);
        assert PcOf(s', u) == PcOf(s, u);
      }
    }
  }

  lemma OpenOwned(s: State, s': State, id: Id, x: Sock)
    requires OwnedOk(s) && MemoryOk(s) && OpenStep(s, id, x) == Next(s')
    ensures OwnedOk(s')
  {
    assert forall t: Thread :: PcOf(s', t) == PcOf(s, t);
  }

  lemma OpenKeeps(s: State, s': State, id: Id, x: Sock)
    requires Inv(s) && OpenStep(s, id, x) == Next(s')
    ensures Inv(s')
  {
    hide ThreadsOk, MutexesOk, ArrayOk, MemoryOk, Covered, TakenIsHeld, OwnedOk;
    OpenHeld(s, s', id, x);
    OpenOwned(s, s', id, x);
    OpenThreads(s, s', id, x);
    OpenMutexes(s, s', id, x);
    OpenArray(s, s', id, x);
    OpenCovered(s, s', id, x);
    assert forall t: Thread :: PcOf(s', t) == PcOf(s, t);
  }
}
