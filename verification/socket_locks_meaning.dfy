/** What an acquisition, a release and a close come to when no other call is under way. */
module SocketLocksMeaning {
  import opened Options
  import opened SocketLocks
  import opened SocketLocksSafety
  import opened SocketLocksRuns
  import opened SocketLocksOrder
  import opened SocketLocksProgress
  import opened SocketLocksWitness

  /** No thread is in a call. */
  ghost predicate Quiet(s: State) {
    Inv(s) && forall u: Thread :: PcOf(s, u) == Idle
  }

  lemma QuietLocks(s: State)
    requires Quiet(s)
    ensures s.readers == {} && s.writer == None && forall x :: x in s.mem ==> s.mem[x].owner == None
  {
    hide ArrayOk, MemoryOk, ThreadsOk, Apart, Covered, TakenIsHeld, OwnedOk;
    forall u: Thread ensures u !in s.readers {
      assert !Reads(PcOf(s, u));
    }
    assert s.writer.Some? ==> Writes(PcOf(s, s.writer.value));
    forall x | x in s.mem ensures s.mem[x].owner == None {
      assert s.mem[x].owner.Some? ==> MutexOf(PcOf(s, s.mem[x].owner.value)) == Some(x);
    }
  }

  /** A registered socket is free if nobody has it, and taken if somebody has. */
  lemma QuietState(s: State, x: Sock)
    requires Quiet(s) && x in s.mem && (x in s.owned || Registered(s, x))
    ensures s.mem[x].state == if x in s.owned then 0 else 1
  {
    hide ArrayLockOk, MutexesOk, ThreadsOk, Apart, Covered;
    assert IsHeld(s, x) ==> x in s.owned by { NoneHolds(s); }
  }

  lemma NoneHolds(s: State)
    requires forall u: Thread :: PcOf(s, u) == Idle
    ensures forall u: Thread :: Holds(PcOf(s, u)) == None
  {
  }

  /** The state with the thread at a point of its call, and the socket as it is then. */
  function With(s: State, t: Thread, readers: set<Thread>, x: Sock, sem: Sem, pc: Pc): State {
    s.(readers := readers, mem := s.mem[x := sem], pcs := s.pcs[t := pc])
  }

  /** The points of an acquisition that finds a free socket. */
  function Acquiring(s: State, t: Thread, id: Id, x: Sock, n: nat): State {
    match n
    case 0 => With(s, t, {}, x, Sem(1, None, id), AcqStart(id))
    case 1 => With(s, t, {t}, x, Sem(1, None, id), AcqRead(id))
    case 2 => With(s, t, {t}, x, Sem(1, None, id), AcqLock(x))
    case 3 => With(s, t, {t}, x, Sem(1, Some(t), id), AcqCheck(x))
    case 4 => With(s, t, {t}, x, Sem(0, Some(t), id), AcqTaken(x))
    case 5 => With(s, t, {t}, x, Sem(0, None, id), AcqLeave(Some(x)))
    case _ => With(s, t, {}, x, Sem(0, None, id), Idle).(owned := s.owned[x := t])
  }

  lemma Twice<K, V>(m: map<K, V>, k: K, a: V, b: V)
    ensures m[k := a][k := b] == m[k := b]
  {
  }

  lemma Seeks(s: State, t: Thread, id: Id, x: Sock, n: nat)
    requires n < 3 && s.writer == None && s.readers == {} && id in s.table && s.table[id] == x
    ensures Step(Acquiring(s, t, id, x, n), Move(t)) == Next(Acquiring(s, t, id, x, n + 1))
  {
    hide Run, Rep, Begin, ReleaseStep, CloseStep;
    var a, b := Acquiring(s, t, id, x, n), Acquiring(s, t, id, x, n + 1);
    Twice(s.pcs, t, a.pcs[t], b.pcs[t]);
    Twice(s.mem, x, a.mem[x], b.mem[x]);
    assert {} + {t} == {t} && {t} - {t} == {};
  }

  lemma Takes(s: State, t: Thread, id: Id, x: Sock, n: nat)
    requires 3 <= n < 6 && s.writer == None && s.readers == {} && id in s.table && s.table[id] == x
    ensures Step(Acquiring(s, t, id, x, n), Move(t)) == Next(Acquiring(s, t, id, x, n + 1))
  {
    hide Run, Rep, Begin, ReleaseStep, CloseStep;
    var a, b := Acquiring(s, t, id, x, n), Acquiring(s, t, id, x, n + 1);
    Twice(s.pcs, t, a.pcs[t], b.pcs[t]);
    Twice(s.mem, x, a.mem[x], b.mem[x]);
    assert {} + {t} == {t} && {t} - {t} == {};
  }

  /** An acquisition of a registered socket that nobody has: the thread has it then, and nothing else is different. */
  lemma {:induction false} AcquireSucceeds(s: State, t: Thread, id: Id)
    requires Quiet(s) && id in s.table && s.table[id] !in s.owned
    ensures var x := s.table[id];
      && x in s.mem
      && Run(s, [Choice(t, Acquire(id))] + Rep(t, 6)) ==
         Next(s.(owned := s.owned[x := t], mem := s.mem[x := Sem(0, None, id)], pcs := s.pcs[t := Idle]))
  {
    hide Quiet, Inv, Step, Run, Rep;
    var x, c := s.table[id], Choice(t, Acquire(id));
    FoundIn(s, id);
    QuietState(s, x);
    QuietLocks(s);
    var path := (n: nat) => Acquiring(s, t, id, x, n);
    forall i: nat | i < 6 ensures Step(path(i), Move(t)) == Next(path(i + 1)) {
      if i < 3 { Seeks(s, t, id, x, i); } else { Takes(s, t, id, x, i); }
    }
    Along(path, t, 6);
    CallBegins(s, t, id);
    SameSem(s.mem, x);
    RunOne(s, c);
    RunOn(s, [c], Rep(t, 6));
  }

  lemma CallBegins(s: State, t: Thread, id: Id)
    requires Quiet(s)
    ensures Step(s, Choice(t, Acquire(id))) == Next(At(s, t, AcqStart(id)))
  {
    hide Inv;
  }

  lemma SameSem(m: map<Sock, Sem>, x: Sock)
    requires x in m
    ensures m[x := m[x]] == m
  {
  }

  lemma FoundIn(s: State, id: Id)
    requires Quiet(s) && id in s.table
    ensures s.table[id] in s.mem && s.mem[s.table[id]].id == id && Registered(s, s.table[id])
  {
    hide ArrayLockOk, MutexesOk, MemoryOk, ThreadsOk, Apart, Covered, TakenIsHeld, OwnedOk;
  }

  /** An acquisition of an id that is not in the array fails and leaves everything as it was. */
  lemma {:induction false} AcquireFails(s: State, t: Thread, id: Id)
    requires Quiet(s) && id !in s.table
    ensures Run(s, [Choice(t, Acquire(id))] + Rep(t, 3)) == Next(s.(pcs := s.pcs[t := Idle]))
  {
    hide Quiet, Inv, Step, Run, Rep;
    QuietLocks(s);
    var c := Choice(t, Acquire(id));
    var path := (n: nat) => Missing(s, t, id, n);
    forall i: nat | i < 3 ensures Step(path(i), Move(t)) == Next(path(i + 1)) {
      if i < 2 { Looks(s, t, id, i); } else { Misses(s, t, id, i); }
    }
    Along(path, t, 3);
    CallBegins(s, t, id);
    RunOne(s, c);
    RunOn(s, [c], Rep(t, 3));
  }

  function Missing(s: State, t: Thread, id: Id, n: nat): State {
    match n
    case 0 => At(s, t, AcqStart(id))
    case 1 => At(s, t, AcqRead(id)).(readers := {t})
    case 2 => At(s, t, AcqLeave(None)).(readers := {t})
    case _ => At(s, t, Idle)
  }

  lemma Looks(s: State, t: Thread, id: Id, n: nat)
    requires n < 2 && s.writer == None && s.readers == {} && id !in s.table
    ensures Step(Missing(s, t, id, n), Move(t)) == Next(Missing(s, t, id, n + 1))
  {
    hide Run, Rep, Begin, ReleaseStep, CloseStep;
    Twice(s.pcs, t, Missing(s, t, id, n).pcs[t], Missing(s, t, id, n + 1).pcs[t]);
    assert {} + {t} == {t} && {t} - {t} == {};
  }

  lemma Misses(s: State, t: Thread, id: Id, n: nat)
    requires n == 2 && s.writer == None && s.readers == {} && id !in s.table
    ensures Step(Missing(s, t, id, n), Move(t)) == Next(Missing(s, t, id, n + 1))
  {
    hide Run, Rep, Begin, ReleaseStep, CloseStep;
    Twice(s.pcs, t, Missing(s, t, id, n).pcs[t], Missing(s, t, id, n + 1).pcs[t]);
    assert {} + {t} == {t} && {t} - {t} == {};
  }

  /** The points of a release. */
  function Releasing(s: State, t: Thread, x: Sock, id: Id, n: nat): State {
    match n
    case 0 => With(s, t, {}, x, Sem(0, None, id), RelLock(x)).(owned := s.owned - {x})
    case 1 => With(s, t, {}, x, Sem(0, Some(t), id), RelAdd(x)).(owned := s.owned - {x})
    case 2 => With(s, t, {}, x, Sem(1, Some(t), id), RelDone(x)).(owned := s.owned - {x})
    case 3 => With(s, t, {}, x, Sem(1, None, id), RelSignal(x)).(owned := s.owned - {x})
    case _ => With(s, t, {}, x, Sem(1, None, id), Idle).(owned := s.owned - {x})
  }

  lemma Returns(s: State, t: Thread, x: Sock, id: Id, n: nat)
    requires n < 2 && s.readers == {}
    ensures Step(Releasing(s, t, x, id, n), Move(t)) == Next(Releasing(s, t, x, id, n + 1))
  {
    hide Run, Rep, Begin, AcquireStep, CloseStep;
    var a, b := Releasing(s, t, x, id, n), Releasing(s, t, x, id, n + 1);
    Twice(s.pcs, t, a.pcs[t], b.pcs[t]);
    Twice(s.mem, x, a.mem[x], b.mem[x]);
  }

  lemma Signals(s: State, t: Thread, x: Sock, id: Id, n: nat)
    requires 2 <= n < 4 && s.readers == {}
    ensures Step(Releasing(s, t, x, id, n), Move(t)) == Next(Releasing(s, t, x, id, n + 1))
  {
    hide Run, Rep, Begin, AcquireStep, CloseStep;
    var a, b := Releasing(s, t, x, id, n), Releasing(s, t, x, id, n + 1);
    Twice(s.pcs, t, a.pcs[t], b.pcs[t]);
    Twice(s.mem, x, a.mem[x], b.mem[x]);
  }

  /** A release of a socket that the thread has: it is free then, and nothing else is different. */
  lemma {:induction false} ReleaseFrees(s: State, t: Thread, x: Sock)
    requires Quiet(s) && x in s.owned && s.owned[x] == t
    ensures x in s.mem
    ensures Run(s, [Choice(t, Release(x))] + Rep(t, 4)) ==
            Next(s.(owned := s.owned - {x}, mem := s.mem[x := Sem(1, None, s.mem[x].id)], pcs := s.pcs[t := Idle]))
  {
    hide Quiet, Inv, Step, Run, Rep;
    var c := Choice(t, Release(x));
    OwnedIn(s, x);
    QuietState(s, x);
    QuietLocks(s);
    var id := s.mem[x].id;
    var path := (n: nat) => Releasing(s, t, x, id, n);
    forall i: nat | i < 4 ensures Step(path(i), Move(t)) == Next(path(i + 1)) {
      if i < 2 { Returns(s, t, x, id, i); } else { Signals(s, t, x, id, i); }
    }
    Along(path, t, 4);
    ReleaseBegins(s, t, x);
    SameSem(s.mem, x);
    RunOne(s, c);
    RunOn(s, [c], Rep(t, 4));
  }

  lemma OwnedIn(s: State, x: Sock)
    requires Quiet(s) && x in s.owned
    ensures x in s.mem
  {
    hide ArrayLockOk, MutexesOk, ArrayOk, MemoryOk, ThreadsOk, Apart, Covered, TakenIsHeld;
  }

  lemma ReleaseBegins(s: State, t: Thread, x: Sock)
    requires Quiet(s) && x in s.owned && s.owned[x] == t
    ensures Step(s, Choice(t, Release(x))) == Next(At(s, t, RelLock(x)).(owned := s.owned - {x}))
  {
    hide Inv;
  }

  /** The points of a close of a free socket. */
  function Destroying(s: State, t: Thread, x: Sock, id: Id, n: nat): State {
    var out := s.(table := s.table - {id});
    match n
    case 0 => With(s, t, {}, x, Sem(1, None, id), CloseStart(x))
    case 1 => With(s, t, {}, x, Sem(1, None, id), CloseArray(x)).(writer := Some(t))
    case 2 => With(out, t, {}, x, Sem(1, None, id), CloseLeave(Some(x))).(writer := Some(t))
    case 3 => With(out, t, {}, x, Sem(1, None, id), CloseLock(x))
    case 4 => With(out, t, {}, x, Sem(1, Some(t), id), CloseCheck(x))
    case 5 => With(out, t, {}, x, Sem(0, Some(t), id), CloseTaken(x))
    case 6 => With(out, t, {}, x, Sem(0, None, id), BreakLock(x))
    case 7 => With(out, t, {}, x, Sem(0, Some(t), id), BreakSet(x))
    case 8 => With(out, t, {}, x, Sem(-1, Some(t), id), BreakDone(x))
    case 9 => With(out, t, {}, x, Sem(-1, None, id), BreakSignal(x))
    case 10 => With(out, t, {}, x, Sem(-1, None, id), Destroy(x))
    case _ => out.(mem := s.mem - {x}, gone := s.gone + {x}, pcs := s.pcs[t := Idle])
  }

  lemma ClosesFirst(s: State, t: Thread, x: Sock, id: Id, n: nat)
    requires n < 2 && s.writer == None && s.readers == {} && id in s.table && s.table[id] == x
    ensures Step(Destroying(s, t, x, id, n), Move(t)) == Next(Destroying(s, t, x, id, n + 1))
  {
    hide Run, Rep, Begin, AcquireStep, ReleaseStep;
    var a, b := Destroying(s, t, x, id, n), Destroying(s, t, x, id, n + 1);
    Twice(s.pcs, t, a.pcs[t], b.pcs[t]);
    Twice(s.mem, x, a.mem[x], b.mem[x]);
  }

  lemma ClosesEarly(s: State, t: Thread, x: Sock, id: Id, n: nat)
    requires 2 <= n < 4 && s.writer == None && s.readers == {} && id in s.table && s.table[id] == x
    ensures Step(Destroying(s, t, x, id, n), Move(t)) == Next(Destroying(s, t, x, id, n + 1))
  {
    hide Run, Rep, Begin, AcquireStep, ReleaseStep;
    var a, b := Destroying(s, t, x, id, n), Destroying(s, t, x, id, n + 1);
    Twice(s.pcs, t, a.pcs[t], b.pcs[t]);
    Twice(s.mem, x, a.mem[x], b.mem[x]);
  }

  lemma ClosesMiddle(s: State, t: Thread, x: Sock, id: Id, n: nat)
    requires 4 <= n < 8 && s.writer == None && s.readers == {} && x in s.mem
    ensures Step(Destroying(s, t, x, id, n), Move(t)) == Next(Destroying(s, t, x, id, n + 1))
  {
    hide Run, Rep, Begin, AcquireStep, ReleaseStep;
    var a, b := Destroying(s, t, x, id, n), Destroying(s, t, x, id, n + 1);
    Twice(s.pcs, t, a.pcs[t], b.pcs[t]);
    Twice(s.mem, x, a.mem[x], b.mem[x]);
  }

  lemma ClosesLate(s: State, t: Thread, x: Sock, id: Id, n: nat)
    requires 8 <= n < 11 && s.writer == None && s.readers == {} && x in s.mem
    ensures Step(Destroying(s, t, x, id, n), Move(t)) == Next(Destroying(s, t, x, id, n + 1))
  {
    hide Run, Rep, Begin, AcquireStep, ReleaseStep;
    var a, b := Destroying(s, t, x, id, n), Destroying(s, t, x, id, n + 1);
    Twice(s.pcs, t, a.pcs[t], b.pcs[t]);
    if n < 10 {
      Twice(s.mem, x, a.mem[x], b.mem[x]);
    } else {
      assert a.mem - {x} == s.mem - {x};
    }
  }

  /** A close of a registered socket that nobody has: it leaves the array and the memory; nothing else is different. */
  lemma {:induction false} CloseDestroys(s: State, t: Thread, id: Id)
    requires Quiet(s) && id in s.table && s.table[id] !in s.owned
    ensures var x := s.table[id];
      Run(s, [Choice(t, Close(x))] + Rep(t, 11)) ==
      Next(s.(table := s.table - {id}, mem := s.mem - {x}, gone := s.gone + {x}, pcs := s.pcs[t := Idle]))
  {
    hide Quiet, Inv, Step, Run, Rep;
    var x := s.table[id];
    var c := Choice(t, Close(x));
    FoundIn(s, id);
    QuietState(s, x);
    QuietLocks(s);
    var path := (n: nat) => Destroying(s, t, x, id, n);
    forall i: nat | i < 11 ensures Step(path(i), Move(t)) == Next(path(i + 1)) {
      if i < 2 {
        ClosesFirst(s, t, x, id, i);
      } else if i < 4 {
        ClosesEarly(s, t, x, id, i);
      } else if i < 8 {
        ClosesMiddle(s, t, x, id, i);
      } else {
        ClosesLate(s, t, x, id, i);
      }
    }
    Along(path, t, 11);
    CloseBegins(s, t, x);
    SameSem(s.mem, x);
    RunOne(s, c);
    RunOn(s, [c], Rep(t, 11));
  }

  lemma CloseBegins(s: State, t: Thread, x: Sock)
    requires Quiet(s) && x in s.mem
    ensures Step(s, Choice(t, Close(x))) == Next(At(s, t, CloseStart(x)))
  {
    hide ArrayLockOk, MutexesOk, ArrayOk, ThreadsOk, Apart, Covered, TakenIsHeld, OwnedOk;
  }

  /** A new socket is in the array, free, under the id given. */
  lemma OpenRegisters(s: State, t: Thread, id: Id, x: Sock)
    requires Quiet(s) && id !in s.table && x !in s.ever
    ensures Run(s, [Choice(t, Open(id, x))]) ==
            Next(s.(table := s.table[id := x], mem := s.mem[x := Sem(1, None, id)], ever := s.ever + {x}))
  {
    hide Quiet, Inv, Run;
    QuietLocks(s);
    QuietIdle(s, t);
    RunOne(s, Choice(t, Open(id, x)));
  }

  lemma QuietIdle(s: State, t: Thread)
    requires Quiet(s)
    ensures PcOf(s, t) == Idle
  {
  }
}
