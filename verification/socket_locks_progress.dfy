/** No deadlock: as long as a call is pending some thread can move, and moving ends all calls. */
module SocketLocksProgress {
  import opened Options
  import opened SocketLocks
  import opened SocketLocksSafety
  import opened SocketLocksRuns
  import opened SocketLocksOrder

  /** The next step of a thread in a call. */
  function Move(t: Thread): Choice {
    Choice(t, Continue)
  }

  function GiveBack(t: Thread, x: Sock): Choice {
    Choice(t, Release(x))
  }

  /** No thread begins an acquisition or a close. */
  ghost predicate OnlyMoves(ms: seq<Choice>) {
    forall i :: 0 <= i < |ms| ==> ms[i].call.Continue? || ms[i].call.Release?
  }

  /** Whether the check of the lock state is going to wait. */
  ghost predicate WillWait(s: State, x: Sock) {
    x in s.mem && s.mem[x].state == 0
  }

  /** How far a thread is from the end of its call. */
  ghost function Rank(s: State, pc: Pc): nat {
    match pc
    case Idle => 0
    case AcqStart(_) => 20
    case AcqRead(_) => 19
    case AcqLock(_) => 18
    case AcqCheck(x) => if WillWait(s, x) then 17 else 15
    case AcqWait(_) => 16
    case AcqTaken(_) => 14
    case AcqBroken(_) => 14
    case AcqLeave(_) => 13
    case RelLock(_) => 11
    case RelAdd(_) => 10
    case RelDone(_) => 9
    case RelSignal(_) => 8
    case CloseStart(_) => 21
    case CloseArray(_) => 20
    case CloseLeave(_) => 19
    case CloseLock(_) => 18
    case CloseCheck(x) => if WillWait(s, x) then 17 else 15
    case CloseWait(_) => 16
    case CloseTaken(_) => 14
    case CloseBroken(_) => 14
    case BreakLock(_) => 13
    case BreakSet(_) => 12
    case BreakDone(_) => 11
    case BreakSignal(_) => 10
    case Destroy(_) => 9
  }

  /** The sockets that a thread keeps. */
  function Kept(s: State, t: Thread): set<Sock> {
    set x | x in s.owned && s.owned[x] == t
  }

  /** And how far from having given back what it keeps. */
  ghost function RankOf(s: State, t: Thread): nat {
    Rank(s, PcOf(s, t)) + 12 * |Kept(s, t)|
  }

  /** A thread that has no lock and keeps no socket can stay where it is without holding up the others. */
  ghost predicate Stands(s: State, f: Thread) {
    (PcOf(s, f).Idle? || PcOf(s, f).CloseStart? || PcOf(s, f).RelSignal?) && forall x :: !Has(s, f, x)
  }

  ghost predicate IsFree(s: State, x: Sock) {
    x in s.mem && s.mem[x].owner == None
  }

  /** The thread can make its next step. */
  ghost predicate Ready(s: State, pc: Pc) {
    match pc
    case Idle => false
    case AcqStart(_) => s.writer == None
    case AcqLock(x) => IsFree(s, x)
    case AcqWait(x) => IsFree(s, x) && !WillWait(s, x)
    case RelLock(x) => IsFree(s, x)
    case CloseStart(_) => s.writer == None && s.readers == {}
    case CloseLock(x) => IsFree(s, x)
    case CloseWait(x) => IsFree(s, x) && !WillWait(s, x)
    case BreakLock(x) => IsFree(s, x)
    case _ => true
  }

  /** The thread can continue, or give back a socket. */
  ghost predicate Can(s: State, c: Choice) {
    match c.call
    case Continue => Ready(s, PcOf(s, c.t))
    case Release(x) => PcOf(s, c.t) == Idle && Has(s, c.t, x)
    case _ => false
  }

  /** One thread gets nearer to the end of its call; the others stay. */
  ghost predicate Advances(s: State, s': State, m: Thread) {
    && (forall u: Thread :: u != m ==> PcOf(s', u) == PcOf(s, u) && Kept(s', u) == Kept(s, u))
    && RankOf(s', m) < RankOf(s, m)
  }

  /** The same for a step that does not change what threads keep. */
  ghost predicate Falls(s: State, s': State, m: Thread) {
    && (forall u: Thread :: u != m ==> PcOf(s', u) == PcOf(s, u))
    && s'.owned == s.owned && Rank(s', PcOf(s', m)) < Rank(s, PcOf(s, m))
  }

  lemma FallsAdvances(s: State, s': State, m: Thread)
    requires Falls(s, s', m)
    ensures Advances(s, s', m)
  {
    hide Rank;
    assert forall u: Thread :: Kept(s', u) == Kept(s, u);
  }

  lemma AcquireMoves(s: State, m: Thread)
    requires Inv(s) && InAcquire(PcOf(s, m)) && Ready(s, PcOf(s, m))
    ensures Step(s, Move(m)).Next?
    ensures if PcOf(s, m).AcqLeave? && PcOf(s, m).r.Some? then LeavesWith(s, Step(s, Move(m)).s, m, PcOf(s, m).r.value)
            else Falls(s, Step(s, Move(m)).s, m)
  {
    hide Inv, OnlyHolder, OnlyInMutex, Begin, ReleaseStep, CloseStep;
    Known(s, m);
    InMemory(s, m);
  }

  /** The thread has acquired a socket and keeps it. */
  ghost predicate LeavesWith(s: State, s': State, m: Thread, x: Sock) {
    && (forall u: Thread :: u != m ==> PcOf(s', u) == PcOf(s, u))
    && PcOf(s, m) == AcqLeave(Some(x)) && PcOf(s', m) == Idle && s'.owned == s.owned[x := m]
  }

  lemma LeavesAdvances(s: State, s': State, m: Thread, x: Sock)
    requires LeavesWith(s, s', m, x) && x !in s.owned
    ensures Advances(s, s', m)
  {
    assert Kept(s', m) == Kept(s, m) + {x};
    assert forall u: Thread :: u != m ==> Kept(s', u) == Kept(s, u);
  }

  lemma GivesAdvances(s: State, c: Choice)
    requires Can(s, c) && c.call.Release?
    ensures Step(s, c).Next? && Advances(s, Step(s, c).s, c.t)
  {
    var x, s' := c.call.x, Step(s, c).s;
    assert s'.owned == s.owned - {x} && PcOf(s', c.t) == RelLock(x);
    assert Kept(s', c.t) == Kept(s, c.t) - {x};
    assert x in Kept(s, c.t);
    assert forall u: Thread :: u != c.t ==> Kept(s', u) == Kept(s, u);
  }

  lemma ReleaseMoves(s: State, m: Thread)
    requires Inv(s) && InRelease(PcOf(s, m)) && Ready(s, PcOf(s, m))
    ensures Step(s, Move(m)) == Crash || (Step(s, Move(m)).Next? && Falls(s, Step(s, Move(m)).s, m))
  {
    hide Inv, OnlyHolder, OnlyInMutex, Begin, AcquireStep, CloseStep;
    Known(s, m);
    InMemory(s, m);
  }

  lemma CloseMoves(s: State, m: Thread)
    requires Inv(s) && Busy(PcOf(s, m)) && !InAcquire(PcOf(s, m)) && Ready(s, PcOf(s, m))
    ensures Step(s, Move(m)) == Crash || (Step(s, Move(m)).Next? && Falls(s, Step(s, Move(m)).s, m))
  {
    hide Inv, Begin, AcquireStep, ReleaseStep, CloseStep;
    if Early(PcOf(s, m)) { EarlyMoves(s, m); } else { LateMoves(s, m); }
  }

  lemma EarlyMoves(s: State, m: Thread)
    requires Inv(s) && Early(PcOf(s, m)) && Ready(s, PcOf(s, m))
    ensures Step(s, Move(m)) == Crash || (Step(s, Move(m)).Next? && Falls(s, Step(s, Move(m)).s, m))
  {
    hide Inv, OnlyHolder, OnlyInMutex, Begin, AcquireStep, ReleaseStep;
    Known(s, m);
    InMemory(s, m);
  }

  lemma LateMoves(s: State, m: Thread)
    requires Inv(s) && Busy(PcOf(s, m)) && !InAcquire(PcOf(s, m)) && !Early(PcOf(s, m)) && Ready(s, PcOf(s, m))
    ensures Step(s, Move(m)) == Crash || (Step(s, Move(m)).Next? && Falls(s, Step(s, Move(m)).s, m))
  {
    hide Inv, OnlyHolder, OnlyInMutex, Begin, AcquireStep, ReleaseStep;
    Known(s, m);
    InMemory(s, m);
  }

  lemma NotOwned(s: State, m: Thread, x: Sock)
    requires Inv(s) && Holds(PcOf(s, m)) == Some(x)
    ensures x !in s.owned
  {
    hide ArrayLockOk, MutexesOk, ArrayOk, MemoryOk, ThreadsOk, Apart, Covered, TakenIsHeld;
  }

  lemma CanMove(s: State, c: Choice)
    requires Inv(s) && Can(s, c)
    ensures Step(s, c) == Crash || (Step(s, c).Next? && Advances(s, Step(s, c).s, c.t))
  {
    hide Inv, Step, Advances, Ready, Falls;
    var m := c.t;
    if c.call.Release? {
      GivesAdvances(s, c);
    } else {
      NotIdle(s, m);
      if InAcquire(PcOf(s, m)) {
        AcquireMoves(s, m);
        if PcOf(s, m).AcqLeave? && PcOf(s, m).r.Some? {
          NotOwned(s, m, PcOf(s, m).r.value);
          LeavesAdvances(s, Step(s, c).s, m, PcOf(s, m).r.value);
        } else {
          FallsAdvances(s, Step(s, c).s, m);
        }
      } else {
        if InRelease(PcOf(s, m)) { ReleaseMoves(s, m); } else { CloseMoves(s, m); }
        if Step(s, c).Next? { FallsAdvances(s, Step(s, c).s, m); }
      }
    }
  }

  lemma NotIdle(s: State, m: Thread)
    requires Ready(s, PcOf(s, m))
    ensures PcOf(s, m) != Idle
  {
  }

  // Some thread can go on; f stands still.

  lemma OwnerReady(s: State, f: Thread, x: Sock) returns (c: Choice)
    requires Inv(s) && x in s.mem && s.mem[x].owner != None && Stands(s, f)
    ensures Can(s, c) && c.t != f
  {
    hide ArrayLockOk, ArrayOk, MemoryOk, ThreadsOk, Apart, Covered, TakenIsHeld, OwnedOk;
    c := Move(s.mem[x].owner.value);
  }

  /** A thread at a mutex, or its owner. */
  lemma LockerReady(s: State, f: Thread, t: Thread, x: Sock) returns (c: Choice)
    requires Inv(s) && x in s.mem && PcOf(s, t) in {AcqLock(x), RelLock(x), CloseLock(x), BreakLock(x)} && Stands(s, f)
    ensures Can(s, c) && c.t != f
  {
    hide Inv;
    if s.mem[x].owner == None { c := Move(t); } else { c := OwnerReady(s, f, x); }
  }

  lemma WriterReady(s: State, f: Thread) returns (c: Choice)
    requires Inv(s) && s.writer != None && Stands(s, f)
    ensures Can(s, c) && c.t != f
  {
    hide Inv;
    WriterOf(s);
    c := Move(s.writer.value);
  }

  /** A thread that keeps a socket and is in no call that may wait for another. */
  lemma KeeperReady(s: State, f: Thread, h: Thread, x: Sock) returns (c: Choice)
    requires Inv(s) && Has(s, h, x) && !Busy(PcOf(s, h)) && Stands(s, f)
    ensures Can(s, c) && c.t != f
  {
    hide Inv, OnlyHolder, OnlyInMutex;
    if PcOf(s, h) == Idle {
      c := GiveBack(h, x);
    } else if PcOf(s, h).RelLock? {
      Known(s, h);
      c := LockerReady(s, f, h, PcOf(s, h).x);
    } else {
      c := Move(h);
    }
  }

  /** The thread that holds a socket up, if it is in a call that has it locked. */
  lemma HolderReady(s: State, f: Thread, h: Thread, x: Sock) returns (c: Choice)
    requires Inv(s) && Holds(PcOf(s, h)) == Some(x) && IsFree(s, x) && Stands(s, f)
    ensures Can(s, c) && c.t != f
  {
    hide Inv;
    c := Move(h);
  }

  lemma HolderOf(s: State, x: Sock) returns (h: Thread)
    requires Inv(s) && WillWait(s, x)
    ensures Has(s, h, x) || Holds(PcOf(s, h)) == Some(x)
  {
    hide ArrayLockOk, MutexesOk, ArrayOk, MemoryOk, ThreadsOk, Apart, Covered, OwnedOk;
    assert IsHeld(s, x);
    if x in s.owned { h := s.owned[x]; } else { h :| Holds(PcOf(s, h)) == Some(x); }
  }

  /** Whoever keeps a socket that an acquirer waits for is in no call that may wait. */
  lemma KeeperIsFree(s: State, h: Thread, t: Thread, x: Sock)
    requires Inv(s) && Loose(s) && Has(s, h, x) && PcOf(s, t) == AcqWait(x)
    ensures !Busy(PcOf(s, h))
  {
    hide Inv, OnlyHolder, OnlyInMutex;
    Known(s, t);
    WriterOf(s);
    assert LooseAt(s, h);
  }

  lemma WaiterReady(s: State, f: Thread, t: Thread, x: Sock) returns (c: Choice)
    requires Inv(s) && Loose(s) && x in s.mem && PcOf(s, t) == AcqWait(x) && Stands(s, f)
    ensures Can(s, c) && c.t != f
  {
    hide Inv, Loose, Busy;
    if s.mem[x].owner != None {
      c := OwnerReady(s, f, x);
    } else if WillWait(s, x) {
      var h := HolderOf(s, x);
      if Has(s, h, x) {
        KeeperIsFree(s, h, t, x);
        c := KeeperReady(s, f, h, x);
      } else {
        c := HolderReady(s, f, h, x);
      }
    } else {
      c := Move(t);
    }
  }

  lemma AcquirerReady(s: State, f: Thread, t: Thread) returns (c: Choice)
    requires Inv(s) && Loose(s) && InAcquire(PcOf(s, t)) && Stands(s, f)
    ensures Can(s, c) && c.t != f
  {
    hide Inv, OnlyHolder, OnlyInMutex, Loose;
    Known(s, t);
    InMemory(s, t);
    c := Move(t);
    match PcOf(s, t)
    case AcqStart(_) => if s.writer != None { c := WriterReady(s, f); }
    case AcqLock(x) => c := LockerReady(s, f, t, x);
    case AcqWait(x) => c := WaiterReady(s, f, t, x);
    case _ =>
  }

  lemma SomeReader(s: State) returns (r: Thread)
    requires Inv(s) && s.readers != {}
    ensures InAcquire(PcOf(s, r))
  {
    hide Inv;
    WriterOf(s);
    r :| r in s.readers;
    assert Reads(PcOf(s, r));
  }

  lemma StarterReady(s: State, f: Thread, t: Thread) returns (c: Choice)
    requires Inv(s) && Loose(s) && PcOf(s, t).CloseStart? && Stands(s, f) && t != f
    ensures Can(s, c) && c.t != f
  {
    hide Inv, Loose;
    if s.writer != None {
      c := WriterReady(s, f);
    } else if s.readers != {} {
      var u := SomeReader(s);
      c := AcquirerReady(s, f, u);
    } else {
      c := Move(t);
    }
  }

  /** A closer that waits for a socket, or whoever it waits for: another closer only if its socket is a later one. */
  lemma ClosingReady(s: State, f: Thread, t: Thread, x: Sock, r: map<Sock, nat>, n: nat) returns (c: Choice)
    requires Inv(s) && Ordered(s, r, n) && PcOf(s, t) == CloseWait(x) && x in s.mem && Stands(s, f)
    ensures Can(s, c) && c.t != f
    decreases n - (if x in r then r[x] else 0)
  {
    hide Inv, Loose, Busy, Ranked;
    if s.mem[x].owner != None {
      c := OwnerReady(s, f, x);
    } else if WillWait(s, x) {
      var h := HolderOf(s, x);
      if !Has(s, h, x) {
        c := HolderReady(s, f, h, x);
      } else if !Busy(PcOf(s, h)) {
        c := KeeperReady(s, f, h, x);
      } else if InAcquire(PcOf(s, h)) {
        c := AcquirerReady(s, f, h);
      } else if PcOf(s, h).CloseStart? {
        c := StarterReady(s, f, h);
      } else if PcOf(s, h).CloseWait? {
        var y := PcOf(s, h).x;
        NextInChain(s, r, n, h, x, y);
        c := ClosingReady(s, f, h, y, r, n);
      } else {
        c := OtherCloserReady(s, f, h);
      }
    } else {
      c := Move(t);
    }
  }

  lemma NextInChain(s: State, r: map<Sock, nat>, n: nat, h: Thread, x: Sock, y: Sock)
    requires Inv(s) && Ordered(s, r, n) && Has(s, h, x) && PcOf(s, h) == CloseWait(y)
    ensures y in s.mem && x in r && y in r && r[x] < r[y] < n
  {
    hide Inv, OnlyHolder, OnlyInMutex, Loose;
    Known(s, h);
  }

  lemma OtherCloserReady(s: State, f: Thread, t: Thread) returns (c: Choice)
    requires Inv(s) && Busy(PcOf(s, t)) && !InAcquire(PcOf(s, t)) && !PcOf(s, t).CloseStart? && !PcOf(s, t).CloseWait?
    requires Stands(s, f)
    ensures Can(s, c) && c.t != f
  {
    hide Inv, OnlyHolder, OnlyInMutex;
    Known(s, t);
    c := Move(t);
    match PcOf(s, t)
    case CloseLock(x) => c := LockerReady(s, f, t, x);
    case BreakLock(x) => c := LockerReady(s, f, t, x);
    case _ =>
  }

  /** As long as any other thread is in a call, some other thread can go on. */
  lemma SomeReady(s: State, f: Thread, t: Thread, r: map<Sock, nat>, n: nat) returns (c: Choice)
    requires Inv(s) && Ordered(s, r, n) && PcOf(s, t) != Idle && t != f && Stands(s, f)
    ensures Can(s, c) && c.t != f
  {
    hide Inv, Loose, Ranked, Chained;
    var pc := PcOf(s, t);
    if InAcquire(pc) {
      c := AcquirerReady(s, f, t);
    } else if InRelease(pc) {
      c := ReleaserReady(s, f, t);
    } else if pc.CloseStart? {
      c := StarterReady(s, f, t);
    } else if pc.CloseWait? {
      InMemoryNow(s, t);
      c := ClosingReady(s, f, t, pc.x, r, n);
    } else {
      c := OtherCloserReady(s, f, t);
    }
  }

  lemma InMemoryNow(s: State, t: Thread)
    requires Inv(s) && PcOf(s, t).CloseWait?
    ensures PcOf(s, t).x in s.mem
  {
    hide Inv, OnlyHolder, OnlyInMutex;
    Known(s, t);
  }

  lemma ReleaserReady(s: State, f: Thread, t: Thread) returns (c: Choice)
    requires Inv(s) && InRelease(PcOf(s, t)) && Stands(s, f) && t != f
    ensures Can(s, c) && c.t != f
  {
    hide Inv, OnlyHolder, OnlyInMutex;
    Known(s, t);
    if PcOf(s, t).RelLock? { c := LockerReady(s, f, t, PcOf(s, t).x); } else { c := Move(t); }
  }

  // Runs of moves.

  lemma {:induction false} RunOn(s: State, cs: seq<Choice>, ds: seq<Choice>)
    ensures Run(s, cs + ds) == match Run(s, cs) case Next(r) => Run(r, ds) case o => o
  {
    hide Step;
    if ds == [] {
      assert cs + ds == cs;
    } else {
      RunOn(s, cs, ds[..|ds| - 1]);
      assert (cs + ds)[..|cs| + |ds| - 1] == cs + ds[..|ds| - 1];
    }
  }

  lemma RunOne(s: State, c: Choice)
    ensures Run(s, [c]) == match Step(s, c) case Blocked => Next(s) case o => o
  {
    hide Step;
    assert [c][..0] == [];
    assert Run(s, []) == Next(s);
  }

  /** How far all listed threads are from the end of their calls and from having given back everything. */
  ghost function Total(s: State, ts: seq<Thread>): nat {
    if ts == [] then 0 else Total(s, ts[..|ts| - 1]) + RankOf(s, ts[|ts| - 1])
  }

  ghost predicate SameRank(s: State, s': State, m: Thread) {
    forall u: Thread :: u != m ==> RankOf(s', u) == RankOf(s, u)
  }

  lemma {:induction false} TotalFalls(s: State, s': State, m: Thread, ts: seq<Thread>)
    requires SameRank(s, s', m) && RankOf(s', m) < RankOf(s, m)
    ensures Total(s', ts) <= Total(s, ts) && (m in ts ==> Total(s', ts) < Total(s, ts))
  {
    hide RankOf;
    if ts != [] { TotalFalls(s, s', m, ts[..|ts| - 1]); }
  }

  /** No move changes the lock state under a thread that checks it. */
  lemma RanksStay(s: State, c: Choice)
    requires Inv(s) && Step(s, c).Next? && Advances(s, Step(s, c).s, c.t)
    ensures SameRank(s, Step(s, c).s, c.t)
  {
    hide Inv, Step, WillWait;
    var s', m := Step(s, c).s, c.t;
    forall u: Thread | u != m ensures RankOf(s', u) == RankOf(s, u) {
      if PcOf(s, u).AcqCheck? || PcOf(s, u).CloseCheck? { CheckStays(s, c, u, PcOf(s, u).x); }
    }
  }

  lemma CheckStays(s: State, c: Choice, u: Thread, x: Sock)
    requires Inv(s) && u != c.t && Step(s, c).Next? && PcOf(s, u) in {AcqCheck(x), CloseCheck(x)}
    ensures WillWait(Step(s, c).s, x) == WillWait(s, x)
  {
    hide Inv, OnlyHolder, OnlyInMutex;
    Known(s, c.t);
    Known(s, u);
    CheckedIsNotDestroyed(s, c.t, u, x);
    MutexIsSingle(s, c.t, u, x);
  }

  lemma MutexIsSingle(s: State, m: Thread, u: Thread, x: Sock)
    requires Inv(s) && u != m && MutexOf(PcOf(s, u)) == Some(x)
    ensures MutexOf(PcOf(s, m)) != Some(x) && x in s.mem && x in s.ever
  {
    hide ArrayLockOk, ArrayOk, ThreadsOk, Apart, Covered, TakenIsHeld, OwnedOk;
  }

  lemma CheckedIsNotDestroyed(s: State, m: Thread, u: Thread, x: Sock)
    requires Inv(s) && u != m && PcOf(s, u) in {AcqCheck(x), CloseCheck(x)}
    ensures PcOf(s, m) != Destroy(x)
  {
    hide Inv, Deserted;
    if PcOf(s, m) == Destroy(x) {
      DestroyDeserted(s, m, x);
      DesertedCheck(s, m, u, x);
    }
  }

  lemma DesertedCheck(s: State, m: Thread, u: Thread, x: Sock)
    requires Deserted(s, m, x) && u != m
    ensures MutexOf(PcOf(s, u)) != Some(x)
  {
  }

  /** Some other thread than f gets nearer to the end of its call, or a destroyed socket is used. */
  lemma Progress(s: State, f: Thread, t: Thread, ts: seq<Thread>, r: map<Sock, nat>, n: nat) returns (c: Choice)
    requires Inv(s) && Ordered(s, r, n) && PcOf(s, t) != Idle && t != f && Stands(s, f)
    ensures c.t != f && (c.call.Continue? || c.call.Release?)
    ensures c.call.Release? ==> PcOf(s, c.t) == Idle && Has(s, c.t, c.call.x)
    ensures c.call.Continue? ==> PcOf(s, c.t) != Idle
    ensures Step(s, c) == Crash || (Step(s, c).Next? && Advances(s, Step(s, c).s, c.t) && Inv(Step(s, c).s) &&
      Ordered(Step(s, c).s, Numbers(s, c, r, n), n + 1))
    ensures c.t in ts && Step(s, c).Next? ==> Total(Step(s, c).s, ts) < Total(s, ts)
  {
    hide Inv, Step, Ordered, Ready, Numbers, Advances;
    c := SomeReady(s, f, t, r, n);
    CanMove(s, c);
    StepKeeps(s, c);
    if c.call.Continue? { NotIdle(s, c.t); }
    if Step(s, c).Next? {
      OrderStep(s, c, r, n);
      RanksStay(s, c);
      AdvancesTotal(s, c, ts);
    }
  }

  lemma AdvancesTotal(s: State, c: Choice, ts: seq<Thread>)
    requires Step(s, c).Next? && Advances(s, Step(s, c).s, c.t) && SameRank(s, Step(s, c).s, c.t)
    ensures c.t in ts ==> Total(Step(s, c).s, ts) < Total(s, ts)
  {
    hide Step, RankOf, Total;
    TotalFalls(s, Step(s, c).s, c.t, ts);
  }

  /** Every thread other than f that is in a call or keeps a socket is in the list. */
  ghost predicate Listed(s: State, f: Thread, ts: seq<Thread>) {
    forall u: Thread :: u != f && (PcOf(s, u) != Idle || Kept(s, u) != {}) ==> u in ts
  }

  lemma ListStays(s: State, c: Choice, f: Thread, ts: seq<Thread>)
    requires Listed(s, f, ts) && c.t in ts && Step(s, c).Next? && Advances(s, Step(s, c).s, c.t)
    ensures Listed(Step(s, c).s, f, ts)
  {
    hide Step, RankOf, Kept;
  }

  lemma MoverListed(s: State, c: Choice, f: Thread, ts: seq<Thread>)
    requires Listed(s, f, ts) && c.t != f
    requires PcOf(s, c.t) != Idle || (c.call.Release? && Has(s, c.t, c.call.x))
    ensures c.t in ts
  {
    assert c.call.Release? && Has(s, c.t, c.call.x) ==> c.call.x in Kept(s, c.t);
  }

  ghost predicate AllIdleBut(s: State, f: Thread) {
    forall u: Thread :: u != f ==> PcOf(s, u) == Idle
  }

  lemma StandsOn(s: State, c: Choice, f: Thread)
    requires Stands(s, f) && c.t != f && Step(s, c).Next?
    ensures Stands(Step(s, c).s, f) && PcOf(Step(s, c).s, f) == PcOf(s, f)
  {
    hide Step;
    OthersStay(s, c, f);
  }

  /** All calls but that of f can be brought to their end, unless a destroyed socket is used before. */
  lemma {:induction false} Drain(s: State, f: Thread, ts: seq<Thread>, r: map<Sock, nat>, n: nat)
    returns (ms: seq<Choice>)
    requires Inv(s) && Ordered(s, r, n) && Stands(s, f) && Listed(s, f, ts)
    ensures OnlyMoves(ms)
    ensures Run(s, ms) == Crash ||
      (Run(s, ms).Next? && AllIdleBut(Run(s, ms).s, f) && PcOf(Run(s, ms).s, f) == PcOf(s, f))
    decreases Total(s, ts)
  {
    hide Inv, Step, Ordered, Numbers, Listed, Advances, Stands, Total;
    if t: Thread :| t != f && PcOf(s, t) != Idle {
      var c := Progress(s, f, t, ts, r, n);
      MoverListed(s, c, f, ts);
      RunOne(s, c);
      if Step(s, c) == Crash {
        ms := [c];
      } else {
        ListStays(s, c, f, ts);
        StandsOn(s, c, f);
        var rest := Drain(Step(s, c).s, f, ts, Numbers(s, c, r, n), n + 1);
        ms := [c] + rest;
        RunOn(s, [c], rest);
      }
    } else {
      ms := [];
    }
  }

  lemma {:induction false} SetToSeq(ts: set<Thread>) returns (q: seq<Thread>)
    ensures forall t :: t in ts ==> t in q
    decreases |ts|
  {
    if ts == {} {
      q := [];
    } else {
      var t :| t in ts;
      q := SetToSeq(ts - {t});
      q := q + [t];
    }
  }

  lemma Callers(s: State, f: Thread) returns (ts: seq<Thread>)
    ensures Listed(s, f, ts)
  {
    ts := SetToSeq(s.pcs.Keys + s.owned.Values);
    forall u: Thread | PcOf(s, u) != Idle || Kept(s, u) != {} ensures u in ts {
      if Kept(s, u) != {} {
        var x :| x in Kept(s, u);
        assert s.owned[x] in s.owned.Values;
      }
    }
  }

  /** A thread beyond all of a set. */
  lemma {:induction false} Beyond(ts: set<Thread>) returns (f: Thread)
    ensures forall t :: t in ts ==> t < f
    decreases |ts|
  {
    if ts == {} {
      f := 0;
    } else {
      var t :| t in ts;
      f := Beyond(ts - {t});
      assert forall u :: u in ts ==> u == t || u in ts - {t};
      if f <= t { f := t + 1; }
    }
  }

  /** There is always a thread that has nothing to do with any socket. */
  lemma Outsider(s: State, also: set<Thread>) returns (f: Thread)
    ensures PcOf(s, f) == Idle && Stands(s, f) && f !in also
  {
    f := Beyond(s.pcs.Keys + s.owned.Values + also);
    forall x ensures !Has(s, f, x) {
      if x in s.owned { assert s.owned[x] in s.owned.Values; }
    }
  }

  /**
   * As long as no thread begins an acquisition or a close while it keeps a socket that others can find, no run is
   * stuck: from every state all calls can be brought to their end, unless a destroyed socket is used before.
   */
  lemma {:induction false} NoDeadlock(cs: seq<Choice>) returns (ms: seq<Choice>)
    requires Untangled(cs) && Run(Init(), cs).Next?
    ensures OnlyMoves(ms)
    ensures Run(Init(), cs + ms) == Crash ||
      (Run(Init(), cs + ms).Next? && forall u: Thread :: PcOf(Run(Init(), cs + ms).s, u) == Idle)
  {
    hide Inv, Run, Init, Listed, Ordered, Stands;
    var s := Run(Init(), cs).s;
    RunKeeps(cs);
    var r, n := RunOrdered(cs);
    var f := Outsider(s, {});
    var ts := Callers(s, f);
    ms := Drain(s, f, ts, r, n);
    RunOn(Init(), cs, ms);
  }
}
