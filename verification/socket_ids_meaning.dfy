/** That removals remove and registrations register, and that every call can be brought to its end. */
module SocketIdsMeaning {
  import opened IdRing
  import opened SocketIds
  import opened SocketIdsSafety
  import opened SocketIdsOpen
  import opened SocketIdsRuns
  import opened SocketIdsAstray
  import opened Options

  /** What every run with careful removals reaches. */
  ghost predicate Sound(s: State) {
    && IdInv(s) && SockInv(s)
    && (forall id :: id in s.sockets ==> s.sockets[id] in s.stored)
    && (forall x :: x in s.live ==> InArray(s, x) || InHand(s, x))
    && (forall x :: x in s.opening ==> InHand(s, x))
  }

  ghost predicate InArray(s: State, x: Sock) {
    exists id :: id in s.sockets && s.sockets[id] == x
  }

  /** Some thread is at work on the socket. */
  ghost predicate InHand(s: State, x: Sock) {
    exists t: Thread :: SockOf(PcOf(s, t)) == Some(x)
  }

  lemma OthersInHand(s: State, s': State, t: Thread, x: Sock)
    requires forall u: Thread :: u != t ==> PcOf(s', u) == PcOf(s, u)
    requires InHand(s, x) && SockOf(PcOf(s, t)) != Some(x)
    ensures InHand(s', x)
  {
    var u: Thread :| SockOf(PcOf(s, u)) == Some(x);
    assert PcOf(s', u) == PcOf(s, u);
  }

  lemma CallPlace(s: State, c: Choice, x: Sock)
    requires Step(s, c).Next? && PcOf(s, c.t) == Idle && x in Step(s, c).s.live
    requires x in s.live ==> InArray(s, x) || InHand(s, x)
    ensures var s' := Step(s, c).s; InArray(s', x) || InHand(s', x)
    ensures x in Step(s, c).s.opening && (x in s.opening ==> InHand(s, x)) ==> InHand(Step(s, c).s, x)
  {
    hide RegStep, DerStep;
    var s' := Step(s, c).s;
    if x !in s.live {
      assert SockOf(PcOf(s', c.t)) == Some(x);
    } else if InHand(s, x) {
      OthersInHand(s, s', c.t, x);
    } else {
      var id :| id in s.sockets && s.sockets[id] == x;
      assert id !in s'.sockets ==> SockOf(PcOf(s', c.t)) == Some(x);
      assert id in s'.sockets ==> s'.sockets[id] == x;
    }
  }

  /** A thread in a call keeps its socket in hand, or leaves it in the array, open, or gone. */
  lemma HandStays(s: State, c: Choice)
    requires IdInv(s) && SockInv(s) && PcOf(s, c.t) != Idle && Step(s, c).Next?
    ensures var s', x := Step(s, c).s, PcOf(s, c.t).x;
      || SockOf(PcOf(s', c.t)) == Some(x)
      || (x !in s'.opening && (x in s'.live ==> InArray(s', x)))
    ensures forall id :: id in s.sockets ==> id in Step(s, c).s.sockets && Step(s, c).s.sockets[id] == s.sockets[id]
    ensures Step(s, c).s.live <= s.live && Step(s, c).s.opening <= s.opening
    ensures forall u: Thread :: u != c.t ==> PcOf(Step(s, c).s, u) == PcOf(s, u)
  {
    hide LocksOk, RingOk, Apart, Covered, Free, IdsOk, SocksApart, AsksOk;
    assert HeldOk(s, PcOf(s, c.t)) && SockOk(s, PcOf(s, c.t));
  }

  lemma MovePlace(s: State, c: Choice, x: Sock)
    requires IdInv(s) && SockInv(s) && PcOf(s, c.t) != Idle && Step(s, c).Next? && x in Step(s, c).s.live
    requires x in s.live ==> InArray(s, x) || InHand(s, x)
    ensures var s' := Step(s, c).s; InArray(s', x) || InHand(s', x)
    ensures x in Step(s, c).s.opening && (x in s.opening ==> InHand(s, x)) ==> InHand(Step(s, c).s, x)
  {
    hide Step, IdInv, SockInv;
    var s' := Step(s, c).s;
    HandStays(s, c);
    if InHand(s, x) && SockOf(PcOf(s, c.t)) != Some(x) {
      OthersInHand(s, s', c.t, x);
    } else if !InHand(s, x) {
      var id :| id in s.sockets && s.sockets[id] == x;
      assert s'.sockets[id] == x;
    } else if SockOf(PcOf(s', c.t)) == Some(x) {
      assert InHand(s', x);
    }
  }

  lemma PlaceStays(s: State, c: Choice, x: Sock)
    requires Sound(s) && Step(s, c).Next?
    ensures var s' := Step(s, c).s;
      (x in s'.live ==> InArray(s', x) || InHand(s', x)) && (x in s'.opening ==> InHand(s', x))
  {
    hide Step, IdInv, InArray, InHand, SockOk, SocksApart;
    var s' := Step(s, c).s;
    OpeningIsLive(s, c);
    if x in s'.live {
      if PcOf(s, c.t) == Idle { CallPlace(s, c, x); } else { MovePlace(s, c, x); }
    }
  }

  lemma OpeningIsLive(s: State, c: Choice)
    requires IdInv(s) && SockInv(s) && Step(s, c).Next?
    ensures Step(s, c).s.opening <= Step(s, c).s.live
  {
    hide LocksOk, RingOk, Apart, Covered, Free, IdsOk, AsksOk, HeldOk;
    if PcOf(s, c.t) != Idle { assert SockOk(s, PcOf(s, c.t)); }
  }

  lemma StoredStays(s: State, c: Choice)
    requires Sound(s) && Step(s, c).Next?
    ensures var s' := Step(s, c).s; forall id :: id in s'.sockets ==> s'.sockets[id] in s'.stored
  {
    hide IdInv, SockOk, SocksApart;
  }

  lemma SoundStep(s: State, c: Choice)
    requires Sound(s) && Careful(s, c)
    ensures Step(s, c) != Crash && (Step(s, c).Next? ==> Sound(Step(s, c).s))
  {
    hide IdInv, SockInv, Step, Astray, Dangling, Careful, InArray, InHand;
    StepKeeps(s, c);
    StepKeepsSocks(s, c);
    if Step(s, c).Next? {
      StoredStays(s, c);
      forall x ensures var s' := Step(s, c).s;
        (x in s'.live ==> InArray(s', x) || InHand(s', x)) && (x in s'.opening ==> InHand(s', x))
      {
        PlaceStays(s, c, x);
      }
    }
  }

  lemma {:induction false} RunIsSound(max: nat, cs: seq<Choice>)
    requires max > 0 && AllCareful(Init(max), cs)
    ensures Run(Init(max), cs).Next? && Sound(Run(Init(max), cs).s)
  {
    hide Sound, Step, Careful;
    if cs == [] {
      InitSound(max);
    } else {
      RunIsSound(max, cs[..|cs| - 1]);
      SoundStep(Run(Init(max), cs[..|cs| - 1]).s, cs[|cs| - 1]);
    }
  }

  lemma InitSound(max: nat)
    requires max > 0
    ensures Sound(Init(max))
  {
    InitInv(max);
  }

  // A removal.

  lemma OpenIsKnown(s: State, id: Id)
    requires Sound(s) && id in s.sockets && s.sockets[id] !in s.opening
    ensures var x := s.sockets[id]; x in s.stored && x in s.flags && s.flags[x] == id < s.max && x in s.live
  {
    hide LocksOk, RingOk, ThreadsOk, Apart, Covered, SockOk, SocksApart, Free;
  }

  /** A thread in no call removes an open socket: the array loses just this one, and its id stays with the thread. */
  lemma {:induction false} RemovalRemoves(max: nat, cs: seq<Choice>, t: Thread, id: Id)
    requires max > 0 && AllCareful(Init(max), cs) && Run(Init(max), cs).Next?
    requires var s := Run(Init(max), cs).s; PcOf(s, t) == Idle && id in s.sockets && s.sockets[id] !in s.opening
    ensures var s := Run(Init(max), cs).s;
      var o := Run(Init(max), cs + [Choice(t, Remove(s.sockets[id]))]);
      && o.Next? && o.s.sockets == s.sockets - {id}
      && PcOf(o.s, t) == DerFree(s.sockets[id], id) && forall u: Thread :: u != t ==> PcOf(o.s, u) == PcOf(s, u)
  {
    hide Run, Sound, Init, AllCareful, Step;
    RunIsSound(max, cs);
    var s := Run(Init(max), cs).s;
    OpenRemoval(s, t, id);
    Then(Init(max), cs, Choice(t, Remove(s.sockets[id])));
  }

  lemma OpenRemoval(s: State, t: Thread, id: Id)
    requires Sound(s) && PcOf(s, t) == Idle && id in s.sockets && s.sockets[id] !in s.opening
    ensures var o := Step(s, Choice(t, Remove(s.sockets[id])));
      && o.Next? && o.s.sockets == s.sockets - {id}
      && PcOf(o.s, t) == DerFree(s.sockets[id], id) && forall u: Thread :: u != t ==> PcOf(o.s, u) == PcOf(s, u)
  {
    hide Sound;
    OpenIsKnown(s, id);
  }

  /** Nothing but its removal takes a socket out of the array. */
  lemma StaysStep(s: State, c: Choice, id: Id)
    requires IdInv(s) && id in s.sockets && c.call != Remove(s.sockets[id]) && Step(s, c).Next?
    ensures var s' := Step(s, c).s; id in s'.sockets && s'.sockets[id] == s.sockets[id]
  {
    hide LocksOk, RingOk, Apart, Covered, Free, IdsOk;
    assert HeldOk(s, PcOf(s, c.t));
  }

  lemma {:induction false} RegisteredUntilRemoved(max: nat, cs: seq<Choice>, ms: seq<Choice>, id: Id)
    requires max > 0 && AllCareful(Init(max), cs + ms) && Run(Init(max), cs).Next?
    requires id in Run(Init(max), cs).s.sockets
    requires forall i :: 0 <= i < |ms| ==> ms[i].call != Remove(Run(Init(max), cs).s.sockets[id])
    ensures var s, o := Run(Init(max), cs).s, Run(Init(max), cs + ms);
      o.Next? && id in o.s.sockets && o.s.sockets[id] == s.sockets[id]
  {
    hide IdInv, SockInv, Step, Init, Careful;
    if ms == [] {
      assert cs + ms == cs;
    } else {
      var n := |ms| - 1;
      assert (cs + ms)[..|cs| + n] == cs + ms[..n] && (cs + ms)[|cs| + n] == ms[n];
      RegisteredUntilRemoved(max, cs, ms[..n], id);
      RunKeeps(max, cs + ms[..n]);
      RunKeeps(max, cs + ms);
      var r := Run(Init(max), cs + ms[..n]).s;
      if Step(r, ms[n]).Next? { StaysStep(r, ms[n], id); }
    }
  }

  /** The socket is not in the array, and no call is about to put it there. */
  ghost predicate Away(s: State, x: Sock) {
    x !in s.opening && forall id :: id in s.sockets ==> s.sockets[id] != x
  }

  lemma AwayStep(s: State, c: Choice, x: Sock)
    requires Sound(s) && Away(s, x) && Step(s, c).Next? && !(c.call.Register? && c.call.x == x)
    ensures Away(Step(s, c).s, x)
  {
    hide IdInv, SocksApart, SocksOk;
    assert SockOk(s, PcOf(s, c.t));
  }

  lemma {:induction false} AwayUntilRegistered(max: nat, cs: seq<Choice>, ms: seq<Choice>, x: Sock)
    requires max > 0 && AllCareful(Init(max), cs + ms) && Run(Init(max), cs).Next? && Away(Run(Init(max), cs).s, x)
    requires forall i :: 0 <= i < |ms| ==> !(ms[i].call.Register? && ms[i].call.x == x)
    ensures Run(Init(max), cs + ms).Next? && Away(Run(Init(max), cs + ms).s, x)
  {
    hide Sound, Step, Init, Careful, Away;
    if ms == [] {
      assert cs + ms == cs;
    } else {
      var n := |ms| - 1;
      assert (cs + ms)[..|cs| + n] == cs + ms[..n] && (cs + ms)[|cs| + n] == ms[n];
      AwayUntilRegistered(max, cs, ms[..n], x);
      RunIsSound(max, cs + ms[..n]);
      RunIsSound(max, cs + ms);
      var r := Run(Init(max), cs + ms[..n]).s;
      if Step(r, ms[n]).Next? { AwayStep(r, ms[n], x); }
    }
  }

  // The end of calls.

  /** The next step of a thread in a call. */
  function Go(t: Thread): Choice {
    Choice(t, Remove(0))
  }

  function Rank(pc: Pc): nat {
    match pc
    case Idle => 0
    case RegStart(_) => 9
    case RegTry(_) => 8
    case RegReuse(_) => 7
    case RegHead(_) => 6
    case RegNone(_) => 1
    case RegSeen(_, _) => 5
    case RegTaken(_, _) => 4
    case RegStore(_, _) => 3
    case RegFlag(_, _) => 2
    case DerFree(_, _) => 4
    case DerTail(_, _) => 3
    case DerWritten(_) => 2
    case DerDone(_) => 1
  }

  /** No other thread holds the lock that the thread may need. */
  predicate Clear(s: State, t: Thread) {
    PcOf(s, t) == Idle || if InReg(PcOf(s, t)) then s.headLock in {None, Some(t)} else s.tailLock in {None, Some(t)}
  }

  ghost predicate Alone(s: State, s': State, t: Thread) {
    && (forall u: Thread :: u != t ==> PcOf(s', u) == PcOf(s, u))
    && (s'.headLock == s.headLock || (s.headLock in {None, Some(t)} && s'.headLock in {None, Some(t)}))
    && (s'.tailLock == s.tailLock || (s.tailLock in {None, Some(t)} && s'.tailLock in {None, Some(t)}))
  }

  /** The thread gets nearer to the end of its call, and only it moves. */
  ghost predicate Nearer(s: State, o: Outcome, t: Thread) {
    && o.Next? && Alone(s, o.s, t) && Clear(o.s, t) && Rank(PcOf(o.s, t)) < Rank(PcOf(s, t))
  }

  lemma Moves(s: State, t: Thread)
    requires PcOf(s, t) != Idle && Clear(s, t) && LocksOk(s) && Step(s, Go(t)) != Crash
    ensures Nearer(s, Step(s, Go(t)), t)
  {
    hide Begin, RegStep, DerStep;
    if InReg(PcOf(s, t)) { RegistrarMoves(s, t); } else { RemoverMoves(s, t); }
  }

  lemma RegistrarMoves(s: State, t: Thread)
    requires InReg(PcOf(s, t)) && Clear(s, t) && LocksOk(s) && Step(s, Go(t)) != Crash
    ensures Nearer(s, Step(s, Go(t)), t)
  {
    hide Begin, DerStep;
    assert HoldsHead(PcOf(s, t)) <==> s.headLock == Some(t);
  }

  lemma RemoverMoves(s: State, t: Thread)
    requires PcOf(s, t) != Idle && !InReg(PcOf(s, t)) && Clear(s, t) && LocksOk(s) && Step(s, Go(t)) != Crash
    ensures Nearer(s, Step(s, Go(t)), t)
  {
    hide Begin, RegStep;
    assert HoldsTail(PcOf(s, t)) <==> s.tailLock == Some(t);
  }

  lemma AloneOn(s: State, s': State, s'': State, t: Thread)
    requires Alone(s, s', t) && Alone(s', s'', t)
    ensures Alone(s, s'', t)
  {
  }

  lemma {:induction false} RunFirst(s: State, c: Choice, ms: seq<Choice>)
    requires Step(s, c).Next?
    ensures Run(s, [c] + ms) == Run(Step(s, c).s, ms)
  {
    hide Step;
    if ms == [] {
      assert [c] + ms == [c] && [c][..0] == [];
      assert Run(s, []) == Next(s);
    } else {
      var n := |ms| - 1;
      RunFirst(s, c, ms[..n]);
      assert ([c] + ms)[..n + 1] == [c] + ms[..n];
    }
  }

  lemma {:induction false} RunOn(s: State, cs: seq<Choice>, ms: seq<Choice>)
    requires Run(s, cs).Next?
    ensures Run(s, cs + ms) == Run(Run(s, cs).s, ms)
  {
    hide Step;
    if ms == [] {
      assert cs + ms == cs;
    } else {
      var n := |ms| - 1;
      RunOn(s, cs, ms[..n]);
      assert (cs + ms)[..|cs| + n] == cs + ms[..n];
    }
  }

  lemma Nothing(s: State, t: Thread)
    ensures Run(s, []) == Next(s) && Alone(s, s, t) && OnlyPending(s, [])
  {
  }

  lemma SoundLocks(s: State)
    requires Sound(s)
    ensures LocksOk(s)
  {
    hide RingOk, IdsOk, ThreadsOk, Apart, Covered, SockInv;
  }

  lemma GoesOn(s: State, t: Thread)
    requires Sound(s) && PcOf(s, t) != Idle && Clear(s, t)
    ensures Nearer(s, Step(s, Go(t)), t) && Sound(Step(s, Go(t)).s)
  {
    hide Sound, Step, Nearer, Clear, LocksOk;
    SoundLocks(s);
    SoundStep(s, Go(t));
    Moves(s, t);
    MovedOn(s, t);
  }

  lemma MovedOn(s: State, t: Thread)
    requires Nearer(s, Step(s, Go(t)), t)
    ensures Step(s, Go(t)).Next?
  {
  }

  /** Every move is the next step of a thread that is in a call at that moment: no call is begun. */
  ghost predicate OnlyPending(s: State, ms: seq<Choice>)
    decreases |ms|
  {
    ms == [] ||
    (ms[0] == Go(ms[0].t) && PcOf(s, ms[0].t) != Idle && Step(s, ms[0]).Next? && OnlyPending(Step(s, ms[0]).s, ms[1..]))
  }

  lemma {:induction false} PendingOn(s: State, ms: seq<Choice>, ns: seq<Choice>)
    requires OnlyPending(s, ms) && Run(s, ms).Next? && OnlyPending(Run(s, ms).s, ns)
    ensures OnlyPending(s, ms + ns)
    decreases |ms|
  {
    hide Step;
    if ms == [] {
      assert ms + ns == ns;
    } else {
      assert ms == [ms[0]] + ms[1..];
      RunFirst(s, ms[0], ms[1..]);
      PendingOn(Step(s, ms[0]).s, ms[1..], ns);
      assert (ms + ns)[1..] == ms[1..] + ns;
    }
  }

  lemma PendingFirst(s: State, c: Choice, ms: seq<Choice>)
    requires c == Go(c.t) && PcOf(s, c.t) != Idle && Step(s, c).Next? && OnlyPending(Step(s, c).s, ms)
    ensures OnlyPending(s, [c] + ms)
  {
    hide Step;
    assert ([c] + ms)[1..] == ms;
  }

  lemma {:induction false} PendingIsCareful(s: State, cs: seq<Choice>, ms: seq<Choice>)
    requires AllCareful(s, cs) && Run(s, cs).Next? && OnlyPending(Run(s, cs).s, ms)
    ensures AllCareful(s, cs + ms)
    decreases |ms|
  {
    hide Step;
    if ms == [] {
      assert cs + ms == cs;
    } else {
      assert (cs + [ms[0]])[..|cs|] == cs;
      PendingIsCareful(s, cs + [ms[0]], ms[1..]);
      assert cs + [ms[0]] + ms[1..] == cs + ms;
    }
  }

  lemma {:induction false} PendingAreGoes(s: State, ms: seq<Choice>)
    requires OnlyPending(s, ms)
    ensures forall i :: 0 <= i < |ms| ==> ms[i] == Go(ms[i].t)
    decreases |ms|
  {
    hide Step;
    if ms != [] { PendingAreGoes(Step(s, ms[0]).s, ms[1..]); }
  }

  /** A thread whose lock is free or its own comes to the end of its call. */
  lemma {:induction false} Finish(s: State, t: Thread) returns (ms: seq<Choice>)
    requires Sound(s) && Clear(s, t)
    ensures OnlyPending(s, ms) && forall i :: 0 <= i < |ms| ==> ms[i].t == t
    ensures var o := Run(s, ms); o.Next? && Sound(o.s) && PcOf(o.s, t) == Idle && Alone(s, o.s, t)
    decreases Rank(PcOf(s, t))
  {
    hide Sound, Step, Alone, Clear, Rank, Run, OnlyPending;
    if PcOf(s, t) == Idle {
      ms := [];
      Nothing(s, t);
    } else {
      GoesOn(s, t);
      var s1 := Step(s, Go(t)).s;
      var rest := Finish(s1, t);
      ms := [Go(t)] + rest;
      RunFirst(s, Go(t), rest);
      PendingFirst(s, Go(t), rest);
      AloneOn(s, s1, Run(s1, rest).s, t);
    }
  }

  lemma HolderIsClear(s: State, t: Thread)
    requires LocksOk(s) && (s.headLock == Some(t) || s.tailLock == Some(t))
    ensures Clear(s, t)
  {
    assert HoldsTail(PcOf(s, t)) <==> s.tailLock == Some(t);
    assert HoldsHead(PcOf(s, t)) <==> s.headLock == Some(t);
  }

  lemma IdleHoldsNone(s: State, t: Thread)
    requires LocksOk(s) && PcOf(s, t) == Idle
    ensures s.headLock != Some(t) && s.tailLock != Some(t)
  {
    assert HoldsTail(PcOf(s, t)) <==> s.tailLock == Some(t);
    assert HoldsHead(PcOf(s, t)) <==> s.headLock == Some(t);
  }

  /** Whoever holds a lock comes to the end of its call; then both locks are free. */
  lemma FreeLocks(s: State) returns (ms: seq<Choice>)
    requires Sound(s)
    ensures OnlyPending(s, ms)
    ensures var o := Run(s, ms);
      && o.Next? && Sound(o.s) && o.s.headLock == None && o.s.tailLock == None
      && forall u: Thread :: PcOf(o.s, u) in {Idle, PcOf(s, u)}
  {
    hide Sound, Run, LocksOk, OnlyPending;
    SoundLocks(s);
    ms := [];
    Nothing(s, 0);
    if s.headLock.Some? {
      HolderIsClear(s, s.headLock.value);
      ms := Finish(s, s.headLock.value);
      SoundLocks(Run(s, ms).s);
      IdleHoldsNone(Run(s, ms).s, s.headLock.value);
    }
    var s1 := Run(s, ms).s;
    SoundLocks(s1);
    if s1.tailLock.Some? {
      HolderIsClear(s1, s1.tailLock.value);
      var rest := Finish(s1, s1.tailLock.value);
      SoundLocks(Run(s1, rest).s);
      IdleHoldsNone(Run(s1, rest).s, s1.tailLock.value);
      RunOn(s, ms, rest);
      PendingOn(s, ms, rest);
      ms := ms + rest;
    }
  }

  lemma {:induction false} FinishAll(s: State, ts: set<Thread>) returns (ms: seq<Choice>)
    requires Sound(s) && s.headLock == None && s.tailLock == None
    requires forall u: Thread :: u !in ts ==> PcOf(s, u) == Idle
    ensures OnlyPending(s, ms)
    ensures var o := Run(s, ms); o.Next? && Sound(o.s) && forall u: Thread :: PcOf(o.s, u) == Idle
    decreases |ts|
  {
    hide Sound, Run, LocksOk, OnlyPending;
    Nothing(s, 0);
    if ts == {} {
      ms := [];
    } else {
      var t :| t in ts;
      ms := Finish(s, t);
      var s1 := Run(s, ms).s;
      SoundLocks(s1);
      IdleHoldsNone(s1, t);
      var rest := FinishAll(s1, ts - {t});
      RunOn(s, ms, rest);
      PendingOn(s, ms, rest);
      ms := ms + rest;
    }
  }

  lemma EndAll(s: State) returns (ms: seq<Choice>)
    requires Sound(s)
    ensures OnlyPending(s, ms)
    ensures var o := Run(s, ms); o.Next? && Sound(o.s) && forall u: Thread :: PcOf(o.s, u) == Idle
  {
    hide Sound, Run, OnlyPending;
    ms := FreeLocks(s);
    var rest := FinishAll(Run(s, ms).s, s.pcs.Keys);
    RunOn(s, ms, rest);
    PendingOn(s, ms, rest);
    ms := ms + rest;
  }

  /** When no thread is in a call, the sockets are those in the array, all open, and the ids theirs or in the ring. */
  lemma RestMeans(s: State)
    requires Sound(s) && forall u: Thread :: PcOf(s, u) == Idle
    ensures s.opening == {} && forall x :: x in s.live <==> InArray(s, x)
    ensures forall id :: 1 <= id < s.next <==> id in s.sockets || id in Free(s)
    ensures forall id :: id in s.sockets ==> id !in Free(s)
  {
    hide LocksOk, RingOk, ThreadsOk, Apart, Free, SockOk, SocksApart, InArray;
    RestHasNone(s);
    forall x | InArray(s, x) ensures x in s.live { ArrayIsLive(s, x); }
    assert Covered(s);
    forall id | Issued(s, id) ensures id in s.sockets || id in Free(s) { assert !InFlight(s, id); }
  }

  lemma RestHasNone(s: State)
    requires forall u: Thread :: PcOf(s, u) == Idle
    ensures (forall x :: !InHand(s, x)) && forall id :: !InFlight(s, id)
  {
  }

  lemma ArrayIsLive(s: State, x: Sock)
    requires SockInv(s) && InArray(s, x)
    ensures x in s.live
  {
    hide SockOk, SocksApart;
  }

  /**
   * From every state that careful removals lead to, all calls can be brought to their end without a new one. The
   * sockets are then exactly those in the array, and every id issued so far is there or in the ring, never both.
   */
  lemma {:induction false} AllCallsEnd(max: nat, cs: seq<Choice>) returns (ms: seq<Choice>)
    requires max > 0 && AllCareful(Init(max), cs)
    ensures Run(Init(max), cs).Next? && OnlyPending(Run(Init(max), cs).s, ms) && Run(Init(max), cs + ms).Next?
    ensures var s := Run(Init(max), cs + ms).s;
      && (forall u: Thread :: PcOf(s, u) == Idle)
      && (forall x :: x in s.live <==> exists id :: id in s.sockets && s.sockets[id] == x)
      && (forall id :: 1 <= id < s.next <==> id in s.sockets || id in Free(s))
      && (forall id :: id in s.sockets ==> id !in Free(s))
  {
    hide Run, Sound, Init, AllCareful, OnlyPending, Free;
    RunIsSound(max, cs);
    ms := EndAll(Run(Init(max), cs).s);
    RunOn(Init(max), cs, ms);
    RestMeans(Run(Init(max), cs + ms).s);
  }

  /** A removal can be brought to its end: the socket is gone, and its id is in the ring or in use by another socket. */
  lemma {:induction false} RemovedIsGone(max: nat, cs: seq<Choice>, t: Thread, id: Id) returns (ms: seq<Choice>)
    requires max > 0 && AllCareful(Init(max), cs) && Run(Init(max), cs).Next?
    requires var s := Run(Init(max), cs).s; PcOf(s, t) == Idle && id in s.sockets && s.sockets[id] !in s.opening
    ensures var x := Run(Init(max), cs).s.sockets[id];
      var o := Run(Init(max), cs + [Choice(t, Remove(x))] + ms);
      && Run(Init(max), cs + [Choice(t, Remove(x))]).Next?
      && OnlyPending(Run(Init(max), cs + [Choice(t, Remove(x))]).s, ms)
      && o.Next? && (forall u: Thread :: PcOf(o.s, u) == Idle)
      && x !in o.s.live && (forall j :: j in o.s.sockets ==> o.s.sockets[j] != x)
      && (id in Free(o.s) || id in o.s.sockets)
  {
    hide Run, Sound, Init, AllCareful, OnlyPending, Free, Step;
    RunIsSound(max, cs);
    var s := Run(Init(max), cs).s;
    var x := s.sockets[id];
    var cs1 := cs + [Choice(t, Remove(x))];
    RemovalRemoves(max, cs, t, id);
    RemovalIsCareful(max, cs, t, x);
    OpenRemoval(s, t, id);
    Then(Init(max), cs, Choice(t, Remove(x)));
    AwayNow(s, Run(Init(max), cs1).s, t, id);
    ms := AllCallsEnd(max, cs1);
    PendingIsCareful(Init(max), cs1, ms);
    PendingAreGoes(Run(Init(max), cs1).s, ms);
    AwayUntilRegistered(max, cs1, ms, x);
    assert cs + ([Choice(t, Remove(x))] + ms) == cs1 + ms;
    IssuedStays(max, cs, [Choice(t, Remove(x))] + ms, id);
  }

  lemma RemovalIsCareful(max: nat, cs: seq<Choice>, t: Thread, x: Sock)
    requires AllCareful(Init(max), cs) && Run(Init(max), cs).Next? && x !in Run(Init(max), cs).s.opening
    ensures AllCareful(Init(max), cs + [Choice(t, Remove(x))])
  {
    hide Run, Init, Step;
    assert (cs + [Choice(t, Remove(x))])[..|cs|] == cs;
  }

  lemma AwayNow(s: State, s': State, t: Thread, id: Id)
    requires Sound(s) && id in s.sockets && s.sockets[id] !in s.opening && PcOf(s, t) == Idle
    requires Step(s, Choice(t, Remove(s.sockets[id]))) == Next(s')
    ensures Away(s', s.sockets[id])
  {
    hide IdInv, SockOk, SocksApart, InArray, InHand;
  }

  lemma {:induction false} IssuedStays(max: nat, cs: seq<Choice>, ms: seq<Choice>, id: Id)
    requires max > 0 && Run(Init(max), cs).Next? && Run(Init(max), cs + ms).Next? && id in Run(Init(max), cs).s.sockets
    ensures 1 <= id < Run(Init(max), cs + ms).s.next
  {
    hide Step, Init, IdInv;
    if ms == [] {
      assert cs + ms == cs;
      RunKeeps(max, cs);
      RegisteredIsIssued(Run(Init(max), cs).s, id);
    } else {
      var n := |ms| - 1;
      assert (cs + ms)[..|cs| + n] == cs + ms[..n] && (cs + ms)[|cs| + n] == ms[n];
      IssuedStays(max, cs, ms[..n], id);
      NextGrows(Run(Init(max), cs + ms[..n]).s, ms[n]);
    }
  }

  lemma RegisteredIsIssued(s: State, id: Id)
    requires IdInv(s) && id in s.sockets
    ensures 1 <= id < s.next
  {
    hide LocksOk, RingOk, ThreadsOk, Apart, Covered, Free;
  }

  lemma NextGrows(s: State, c: Choice)
    ensures Step(s, c).Next? ==> Step(s, c).s.next >= s.next
  {
  }

  // A registration.

  /** What the registration of a thread that is at this point comes to: there is an id for it. */
  predicate WillRegister(s: State, pc: Pc) {
    match pc
    case RegStart(_) => s.next < s.max || Free(s) != []
    case RegTry(_) => s.next < s.max || Free(s) != []
    case RegReuse(_) => Free(s) != []
    case RegHead(_) => Free(s) != []
    case RegNone(_) => false
    case _ => true
  }

  /** How the array and the flags change on the way to the end of a registration. */
  ghost predicate Registers(s: State, s': State, x: Sock, will: bool) {
    if will then
      exists id: Id :: id !in s.sockets && s'.sockets == s.sockets[id := x] && x in s'.flags && s'.flags[x] == id
    else s'.sockets == s.sockets && x !in s'.live
  }

  /** One step before the id is stored. */
  lemma RegistrationStep(s: State, t: Thread)
    requires Sound(s) && InReg(PcOf(s, t)) && s.headLock in {None, Some(t)}
    requires var pc := PcOf(s, t); !pc.RegStore? && !pc.RegFlag? && !pc.RegNone?
    ensures var o := Step(s, Go(t));
      && o.Next? && InReg(PcOf(o.s, t)) && PcOf(o.s, t).x == PcOf(s, t).x && !PcOf(o.s, t).RegFlag?
      && o.s.sockets == s.sockets && WillRegister(o.s, PcOf(o.s, t)) == WillRegister(s, PcOf(s, t))
      && Rank(PcOf(o.s, t)) < Rank(PcOf(s, t)) && o.s.headLock in {None, Some(t)} && Alone(s, o.s, t)
  {
    hide Begin, DerStep, Sound, Free, LocksOk;
    SoundStep(s, Go(t));
    SoundLocks(s);
    if PcOf(s, t).RegReuse? { NotHolding(s, t); }
    if PcOf(s, t).RegHead? { HeadFinds(s, t, PcOf(s, t).x); }
    if !PcOf(s, t).RegSeen? { SameFree(s, Step(s, Go(t)).s); }
  }

  lemma NotHolding(s: State, t: Thread)
    requires LocksOk(s) && PcOf(s, t).RegReuse?
    ensures s.headLock != Some(t)
  {
    assert HoldsHead(PcOf(s, t)) <==> s.headLock == Some(t);
  }

  lemma HeadFinds(s: State, t: Thread, x: Sock)
    requires Sound(s) && PcOf(s, t) == RegHead(x)
    ensures var o := RegStep(s, t, RegHead(x)); o.Next? && (PcOf(o.s, t) == RegNone(x) <==> Free(s) == [])
  {
    hide IdInv, SockInv, InArray, InHand;
    FailsOnlyWithoutFreeIds(s, t, x);
  }

  lemma StoreFacts(s: State, t: Thread, x: Sock, id: Id)
    requires Sound(s) && PcOf(s, t) == RegStore(x, id)
    ensures id < s.max && id !in s.sockets && x in s.live
  {
    hide LocksOk, RingOk, Apart, Covered, Free, SocksApart, SocksOk, AsksOk, InArray, InHand;
    assert HeldOk(s, PcOf(s, t)) && SockOk(s, PcOf(s, t));
    assert IdsOk(s);
  }

  lemma Stores(s: State, t: Thread, x: Sock, id: Id)
    requires Sound(s) && PcOf(s, t) == RegStore(x, id)
    ensures var o := Step(s, Go(t));
      && o.Next? && Sound(o.s) && PcOf(o.s, t) == RegFlag(x, id) && id !in s.sockets && x in o.s.live
      && o.s.sockets == s.sockets[id := x]
  {
    hide Sound, Free, Begin, DerStep;
    StoreFacts(s, t, x, id);
    SoundStep(s, Go(t));
  }

  lemma Flags(s: State, t: Thread, x: Sock, id: Id)
    requires Sound(s) && PcOf(s, t) == RegFlag(x, id) && x in s.live
    ensures var o := Step(s, Go(t));
      && o.Next? && Sound(o.s) && PcOf(o.s, t) == Idle && o.s.sockets == s.sockets
      && x in o.s.flags && o.s.flags[x] == id
  {
    hide Sound, Free, Begin, DerStep;
    SoundStep(s, Go(t));
  }

  /** The id is stored in the array and in the flags. */
  lemma StoresAndFlags(s: State, t: Thread, x: Sock, id: Id)
    requires Sound(s) && PcOf(s, t) == RegStore(x, id)
    ensures var o := Run(s, [Go(t), Go(t)]);
      o.Next? && Sound(o.s) && PcOf(o.s, t) == Idle && Registers(s, o.s, x, true) && OnlyPending(s, [Go(t), Go(t)])
  {
    hide Sound, Free, Step, Run;
    Stores(s, t, x, id);
    var s1 := Step(s, Go(t)).s;
    Flags(s1, t, x, id);
    var s2 := Step(s1, Go(t)).s;
    Nothing(s2, t);
    RunFirst(s1, Go(t), []);
    RunFirst(s, Go(t), [Go(t)]);
    PendingFirst(s1, Go(t), []);
    PendingFirst(s, Go(t), [Go(t)]);
    assert [Go(t)] + [] == [Go(t)] && [Go(t)] + [Go(t)] == [Go(t), Go(t)];
    assert s2.sockets == s.sockets[id := x] && s2.flags[x] == id;
  }

  lemma Fails(s: State, t: Thread, x: Sock)
    requires Sound(s) && PcOf(s, t) == RegNone(x)
    ensures var o := Run(s, [Go(t)]);
      && o.Next? && Sound(o.s) && PcOf(o.s, t) == Idle && Registers(s, o.s, x, false) && OnlyPending(s, [Go(t)])
  {
    hide Sound, Free;
    SoundStep(s, Go(t));
    RunFirst(s, Go(t), []);
    assert [Go(t)] + [] == [Go(t)] && [Go(t)][1..] == [];
  }

  /** A registration whose lock is not held by another thread comes to its end: with an id exactly if there is one. */
  lemma {:induction false} RegistrationEnds(s: State, t: Thread) returns (ms: seq<Choice>)
    requires Sound(s) && InReg(PcOf(s, t)) && !PcOf(s, t).RegFlag? && s.headLock in {None, Some(t)}
    ensures OnlyPending(s, ms) && forall i :: 0 <= i < |ms| ==> ms[i].t == t
    ensures var o := Run(s, ms);
      o.Next? && PcOf(o.s, t) == Idle && Registers(s, o.s, PcOf(s, t).x, WillRegister(s, PcOf(s, t)))
    decreases Rank(PcOf(s, t))
  {
    hide Sound, Step, Alone, Rank, Run, OnlyPending, Registers, Free;
    var pc := PcOf(s, t);
    if pc.RegStore? {
      StoresAndFlags(s, t, pc.x, pc.id);
      ms := [Go(t), Go(t)];
    } else if pc.RegNone? {
      Fails(s, t, pc.x);
      ms := [Go(t)];
    } else {
      RegistrationStep(s, t);
      SoundStep(s, Go(t));
      var s1 := Step(s, Go(t)).s;
      var rest := RegistrationEnds(s1, t);
      ms := [Go(t)] + rest;
      RunFirst(s, Go(t), rest);
      PendingFirst(s, Go(t), rest);
      SameArray(s, s1, Run(s1, rest).s, pc.x, WillRegister(s, pc));
    }
  }

  lemma SameArray(s: State, s': State, s'': State, x: Sock, will: bool)
    requires s'.sockets == s.sockets && Registers(s', s'', x, will)
    ensures Registers(s, s'', x, will)
  {
  }

  /**
   * A thread registers a new socket while no other is in a call: it enters the array under an id that no socket had,
   * its flags say so, and nothing else changes there; only when every id is given away and none is free it fails.
   */
  lemma {:induction false} RegistrationRegisters(max: nat, cs: seq<Choice>, t: Thread, x: Sock, garbage: Id)
    returns (ms: seq<Choice>)
    requires max > 0 && AllCareful(Init(max), cs) && Run(Init(max), cs).Next?
    requires var s := Run(Init(max), cs).s; x !in s.live && forall u: Thread :: PcOf(s, u) == Idle
    ensures forall i :: 0 <= i < |ms| ==> ms[i].t == t
    ensures var s, o := Run(Init(max), cs).s, Run(Init(max), cs + [Choice(t, Register(x, garbage))] + ms);
      && o.Next? && PcOf(o.s, t) == Idle
      && if s.next < s.max || Free(s) != [] then
           exists id: Id ::
             id !in s.sockets && o.s.sockets == s.sockets[id := x] && x in o.s.flags && o.s.flags[x] == id
         else o.s.sockets == s.sockets && x !in o.s.live
  {
    hide Run, Sound, Init, AllCareful, OnlyPending, Free, Step;
    RunIsSound(max, cs);
    var s := Run(Init(max), cs).s;
    var c := Choice(t, Register(x, garbage));
    SoundLocks(s);
    RegistrationBegins(s, t, x, garbage);
    Then(Init(max), cs, c);
    ms := RegistrationEnds(Step(s, c).s, t);
    RunOn(Init(max), cs + [c], ms);
  }

  lemma RegistrationBegins(s: State, t: Thread, x: Sock, garbage: Id)
    requires Sound(s) && x !in s.live && forall u: Thread :: PcOf(s, u) == Idle
    ensures var c := Choice(t, Register(x, garbage));
      && Step(s, c).Next? && Sound(Step(s, c).s) && PcOf(Step(s, c).s, t) == RegStart(x)
      && Step(s, c).s.sockets == s.sockets && Step(s, c).s.next == s.next && Step(s, c).s.max == s.max
      && Free(Step(s, c).s) == Free(s) && Step(s, c).s.headLock == None
  {
    hide Sound, LocksOk;
    SoundStep(s, Choice(t, Register(x, garbage)));
    SoundLocks(s);
    NoLocks(s);
  }

  lemma NoLocks(s: State)
    requires LocksOk(s) && forall u: Thread :: PcOf(s, u) == Idle
    ensures s.headLock == None
  {
    assert forall u: Thread :: !HoldsHead(PcOf(s, u));
  }
}
