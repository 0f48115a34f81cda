/** Threads that keep sockets while they make further calls, and in what order such sockets left the array. */
module SocketLocksOrder {
  import opened Options
  import opened SocketLocks
  import opened SocketLocksSafety
  import opened SocketLocksRuns

  /** A thread in an acquisition or in a close; releasing needs nothing that another thread keeps. */
  predicate Busy(pc: Pc) {
    pc != Idle && !InRelease(pc)
  }

  /** A call that has not come to the array. */
  predicate AtStart(pc: Pc) {
    pc.AcqStart? || pc.CloseStart?
  }

  /** A closer with the write lock is about to take the socket out of the array. */
  ghost predicate Leaving(s: State, x: Sock) {
    s.writer.Some? && PcOf(s, s.writer.value) == CloseArray(x)
  }

  /** The thread keeps a socket that others can still find in the array. */
  ghost predicate Entangled(s: State, t: Thread) {
    exists x :: Has(s, t, x) && Registered(s, x) && !Leaving(s, x)
  }

  /** An acquisition or a close that begins while the thread keeps a socket that others can find. */
  ghost predicate Nested(s: State, c: Choice) {
    PcOf(s, c.t) == Idle && (c.call.Acquire? || c.call.Close?) && Entangled(s, c.t)
  }

  /** No call of the run is nested. */
  ghost predicate Untangled(cs: seq<Choice>) {
    cs == [] ||
    (Untangled(cs[..|cs| - 1]) &&
     (Run(Init(), cs[..|cs| - 1]).Next? ==> !Nested(Run(Init(), cs[..|cs| - 1]).s, cs[|cs| - 1])))
  }

  lemma WriterOf(s: State)
    requires Inv(s)
    ensures s.writer.Some? ==> Writes(PcOf(s, s.writer.value)) && s.readers == {}
    ensures forall u: Thread :: Writes(PcOf(s, u)) ==> s.writer == Some(u)
    ensures forall u: Thread :: Reads(PcOf(s, u)) <==> u in s.readers
  {
    hide MutexesOk, ArrayOk, MemoryOk, ThreadsOk, Apart, Covered, TakenIsHeld, OwnedOk;
  }

  lemma OwnedInMemory(s: State, x: Sock)
    requires Inv(s) && x in s.owned
    ensures x in s.mem && s.mem[x].state == 0 && x in s.ever
  {
    hide ArrayLockOk, MutexesOk, ArrayOk, ThreadsOk, Apart, Covered, TakenIsHeld;
  }

  // The array under a step.

  /** The step takes this socket out of the array. */
  ghost predicate TakesOut(s: State, c: Choice, x: Sock) {
    PcOf(s, c.t) == CloseArray(x) && Registered(s, x)
  }

  ghost predicate Opens(s: State, c: Choice, x: Sock) {
    PcOf(s, c.t) == Idle && c.call.Open? && c.call.x == x
  }

  lemma OpenTable(s: State, c: Choice, y: Sock)
    requires Inv(s) && PcOf(s, c.t) == Idle && c.call.Open? && Step(s, c).Next?
    ensures Registered(Step(s, c).s, y) <==> Registered(s, y) || Opens(s, c, y)
    ensures forall x :: x in Step(s, c).s.ever <==> x in s.ever || Opens(s, c, x)
    ensures c.call.x !in s.ever
  {
    hide ArrayLockOk, MutexesOk, ThreadsOk, Apart, Covered, TakenIsHeld, OwnedOk, ArrayOk;
  }

  lemma MoveTable(s: State, c: Choice, y: Sock)
    requires Inv(s) && !(PcOf(s, c.t) == Idle && c.call.Open?) && Step(s, c).Next?
    ensures Registered(Step(s, c).s, y) <==> Registered(s, y) && !TakesOut(s, c, y)
    ensures Step(s, c).s.ever == s.ever
  {
    hide Inv, Begin, AcquireStep, ReleaseStep, CloseStep, Registered;
    if PcOf(s, c.t) == Idle {
      BeginTable(s, c, y);
    } else if InAcquire(PcOf(s, c.t)) {
      AcquireTable(s, c, y);
    } else if InRelease(PcOf(s, c.t)) {
      ReleaseTable(s, c, y);
    } else {
      CloseTable(s, c, y);
    }
  }

  lemma AcquireTable(s: State, c: Choice, y: Sock)
    requires InAcquire(PcOf(s, c.t)) && Step(s, c).Next?
    ensures Registered(Step(s, c).s, y) <==> Registered(s, y)
    ensures Step(s, c).s.ever == s.ever
  {
    hide Begin, ReleaseStep, CloseStep;
  }

  lemma ReleaseTable(s: State, c: Choice, y: Sock)
    requires InRelease(PcOf(s, c.t)) && Step(s, c).Next?
    ensures Registered(Step(s, c).s, y) <==> Registered(s, y)
    ensures Step(s, c).s.ever == s.ever
  {
    hide Begin, AcquireStep, CloseStep;
  }

  lemma CloseTable(s: State, c: Choice, y: Sock)
    requires Inv(s) && Busy(PcOf(s, c.t)) && !InAcquire(PcOf(s, c.t)) && Step(s, c).Next?
    ensures Registered(Step(s, c).s, y) <==> Registered(s, y) && !TakesOut(s, c, y)
    ensures Step(s, c).s.ever == s.ever
  {
    hide ArrayLockOk, MutexesOk, Apart, Covered, TakenIsHeld, OwnedOk, MemoryOk, Begin, AcquireStep, ReleaseStep;
    assert ThreadOk(s, PcOf(s, c.t));
  }

  lemma BeginTable(s: State, c: Choice, y: Sock)
    requires PcOf(s, c.t) == Idle && !c.call.Open? && Step(s, c).Next?
    ensures Registered(Step(s, c).s, y) <==> Registered(s, y)
    ensures Step(s, c).s.ever == s.ever
  {
  }

  lemma TableStep(s: State, c: Choice, y: Sock)
    requires Inv(s) && Step(s, c).Next?
    ensures Registered(Step(s, c).s, y) <==> (Registered(s, y) && !TakesOut(s, c, y)) || Opens(s, c, y)
    ensures forall x :: x in Step(s, c).s.ever <==> x in s.ever || Opens(s, c, x)
    ensures Opens(s, c, y) ==> y !in s.ever
  {
    hide Inv, Step, Registered;
    if PcOf(s, c.t) == Idle && c.call.Open? { OpenTable(s, c, y); } else { MoveTable(s, c, y); }
  }

  lemma OthersStay(s: State, c: Choice, t: Thread)
    requires Step(s, c).Next? && t != c.t
    ensures PcOf(Step(s, c).s, t) == PcOf(s, t)
    ensures forall x :: Has(Step(s, c).s, t, x) ==> Has(s, t, x)
  {
    hide AcquireStep, CloseStep;
    if InAcquire(PcOf(s, c.t)) {
      AcquirerLeavesOthers(s, c, t);
    } else if Busy(PcOf(s, c.t)) {
      CloserLeavesOthers(s, c, t);
    }
  }

  lemma AcquirerLeavesOthers(s: State, c: Choice, t: Thread)
    requires Step(s, c).Next? && t != c.t && InAcquire(PcOf(s, c.t))
    ensures PcOf(Step(s, c).s, t) == PcOf(s, t)
    ensures forall x :: Has(Step(s, c).s, t, x) ==> Has(s, t, x)
  {
    hide Begin, ReleaseStep, CloseStep;
  }

  lemma CloserLeavesOthers(s: State, c: Choice, t: Thread)
    requires Step(s, c).Next? && t != c.t && Busy(PcOf(s, c.t)) && !InAcquire(PcOf(s, c.t))
    ensures PcOf(Step(s, c).s, t) == PcOf(s, t)
    ensures forall x :: Has(Step(s, c).s, t, x) ==> Has(s, t, x)
  {
    hide Begin, AcquireStep, ReleaseStep;
  }

  /** What other threads keep they keep on. */
  lemma OthersKeep(s: State, c: Choice, t: Thread, x: Sock)
    requires Inv(s) && Step(s, c).Next? && t != c.t && Has(s, t, x)
    ensures Has(Step(s, c).s, t, x)
  {
    hide ArrayLockOk, MutexesOk, ArrayOk, ThreadsOk, Apart, Covered, TakenIsHeld, MemoryOk;
    assert Holds(PcOf(s, c.t)) != Some(x);
  }

  // The order in which sockets left the array.

  /** Every socket that is out of the array has a number below n. */
  ghost predicate Ranked(s: State, r: map<Sock, nat>, n: nat) {
    && (forall x :: x in r ==> r[x] < n && x in s.ever && !Registered(s, x))
    && (forall x :: x in s.ever && !Registered(s, x) ==> x in r)
  }

  /** What the thread keeps while it is in a call nobody can find any more. */
  ghost predicate LooseAt(s: State, t: Thread) {
    forall x: Sock :: Has(s, t, x) && Busy(PcOf(s, t)) && Registered(s, x) ==> AtStart(PcOf(s, t)) && Leaving(s, x)
  }

  ghost predicate Loose(s: State) {
    forall t: Thread :: LooseAt(s, t)
  }

  /** What a closer keeps left the array before the socket that it closes. */
  ghost predicate Chained(s: State, r: map<Sock, nat>) {
    forall t: Thread, x: Sock :: Has(s, t, x) && Closing(PcOf(s, t)).Some? ==>
      x in r && Closing(PcOf(s, t)).value in r && r[x] < r[Closing(PcOf(s, t)).value]
  }

  ghost predicate Ordered(s: State, r: map<Sock, nat>, n: nat) {
    Ranked(s, r, n) && Loose(s) && Chained(s, r)
  }

  lemma LooseOthers(s: State, c: Choice, t: Thread, x: Sock)
    requires Inv(s) && LooseAt(s, t) && Step(s, c).Next? && t != c.t
    requires var s' := Step(s, c).s; Has(s', t, x) && Busy(PcOf(s', t)) && Registered(s', x)
    ensures AtStart(PcOf(s, t)) && Leaving(Step(s, c).s, x)
  {
    hide Inv, Step, Registered;
    OthersStay(s, c, t);
    TableStep(s, c, x);
    OwnedInMemory(s, x);
    WriterOf(s);
    LeavingStays(s, c, x);
  }

  /** Until the closer takes the socket out. */
  lemma LeavingStays(s: State, c: Choice, x: Sock)
    requires Inv(s) && Leaving(s, x) && Registered(s, x) && Step(s, c).Next?
    ensures Leaving(Step(s, c).s, x) || TakesOut(s, c, x)
  {
    hide MutexesOk, ArrayOk, MemoryOk, ThreadsOk, Apart, Covered, TakenIsHeld, OwnedOk;
  }

  lemma LooseMover(s: State, c: Choice, x: Sock)
    requires Inv(s) && LooseAt(s, c.t) && Step(s, c).Next? && !Nested(s, c)
    requires var s' := Step(s, c).s; Has(s', c.t, x) && Busy(PcOf(s', c.t)) && Registered(s', x)
    ensures var s' := Step(s, c).s; AtStart(PcOf(s', c.t)) && Leaving(s', x)
  {
    hide Inv, Registered;
    WriterOf(s);
    TableStep(s, c, x);
  }

  lemma LooseStep(s: State, c: Choice)
    requires Inv(s) && Loose(s) && Step(s, c).Next? && !Nested(s, c)
    ensures Loose(Step(s, c).s)
  {
    hide Inv, Step, LooseAt, Nested;
    forall t: Thread ensures LooseAt(Step(s, c).s, t) { LooseAtStep(s, c, t); }
  }

  lemma LooseAtStep(s: State, c: Choice, t: Thread)
    requires Inv(s) && LooseAt(s, t) && Step(s, c).Next? && !Nested(s, c)
    ensures LooseAt(Step(s, c).s, t)
  {
    hide Inv, Step, Registered, Leaving, Nested;
    var s' := Step(s, c).s;
    forall x: Sock | Has(s', t, x) && Busy(PcOf(s', t)) && Registered(s', x)
      ensures AtStart(PcOf(s', t)) && Leaving(s', x)
    {
      if t == c.t {
        LooseMover(s, c, x);
      } else {
        OthersStay(s, c, t);
        LooseOthers(s, c, t, x);
      }
    }
  }

  /** The numbers after a step: a socket that leaves the array gets the next one. */
  ghost function Numbers(s: State, c: Choice, r: map<Sock, nat>, n: nat): map<Sock, nat> {
    if PcOf(s, c.t).CloseArray? && Registered(s, PcOf(s, c.t).x) then r[PcOf(s, c.t).x := n] else r
  }

  lemma RankedStep(s: State, c: Choice, r: map<Sock, nat>, n: nat)
    requires Inv(s) && Ranked(s, r, n) && Step(s, c).Next?
    ensures Ranked(Step(s, c).s, Numbers(s, c, r, n), n + 1)
  {
    hide Inv, Step, Registered;
    var s', r' := Step(s, c).s, Numbers(s, c, r, n);
    forall x | x in r' ensures r'[x] < n + 1 && x in s'.ever && !Registered(s', x) {
      TableStep(s, c, x);
      if TakesOut(s, c, x) { RegisteredIsEver(s, x); }
    }
    forall x | x in s'.ever && !Registered(s', x) ensures x in r' {
      TableStep(s, c, x);
    }
  }

  lemma RegisteredIsEver(s: State, x: Sock)
    requires Inv(s) && Registered(s, x)
    ensures x in s.ever
  {
    hide ArrayLockOk, MutexesOk, ArrayOk, ThreadsOk, Apart, Covered, TakenIsHeld, OwnedOk;
  }

  lemma ChainedMover(s: State, c: Choice, r: map<Sock, nat>, n: nat, x: Sock)
    requires Inv(s) && Ordered(s, r, n) && Step(s, c).Next?
    requires Has(Step(s, c).s, c.t, x) && Closing(PcOf(Step(s, c).s, c.t)).Some?
    ensures var r', y := Numbers(s, c, r, n), Closing(PcOf(Step(s, c).s, c.t)).value;
      x in r' && y in r' && r'[x] < r'[y]
  {
    hide Inv, Step, Registered, Closing;
    assert LooseAt(s, c.t);
    ClosesNow(s, c, x);
    OwnedInMemory(s, x);
    NotBoth(PcOf(s, c.t));
  }

  /** A closer closed the socket before, or has just taken it out of the array. */
  lemma ClosesNow(s: State, c: Choice, x: Sock)
    requires Step(s, c).Next? && Closing(PcOf(Step(s, c).s, c.t)).Some? && Has(Step(s, c).s, c.t, x)
    ensures Has(s, c.t, x)
    ensures var y := Closing(PcOf(Step(s, c).s, c.t)).value; Closing(PcOf(s, c.t)) == Some(y) || TakesOut(s, c, y)
  {
    hide Begin, AcquireStep, ReleaseStep;
    if PcOf(s, c.t) == Idle {
      CallerClosesNone(s, c);
    } else if InAcquire(PcOf(s, c.t)) {
      AcquirerClosesNone(s, c);
    } else if InRelease(PcOf(s, c.t)) {
      ReleaserClosesNone(s, c);
    }
  }

  lemma CallerClosesNone(s: State, c: Choice)
    requires PcOf(s, c.t) == Idle && Step(s, c).Next?
    ensures Closing(PcOf(Step(s, c).s, c.t)) == None
  {
    hide AcquireStep, ReleaseStep, CloseStep;
  }

  lemma AcquirerClosesNone(s: State, c: Choice)
    requires InAcquire(PcOf(s, c.t)) && Step(s, c).Next?
    ensures Closing(PcOf(Step(s, c).s, c.t)) == None
  {
    hide Begin, ReleaseStep, CloseStep;
  }

  lemma ReleaserClosesNone(s: State, c: Choice)
    requires InRelease(PcOf(s, c.t)) && Step(s, c).Next?
    ensures Closing(PcOf(Step(s, c).s, c.t)) == None
  {
    hide Begin, AcquireStep, CloseStep;
  }

  lemma NotBoth(pc: Pc)
    ensures Closing(pc).Some? ==> !pc.CloseArray?
  {
  }

  lemma ChainedStep(s: State, c: Choice, r: map<Sock, nat>, n: nat)
    requires Inv(s) && Ordered(s, r, n) && Step(s, c).Next?
    ensures Chained(Step(s, c).s, Numbers(s, c, r, n))
  {
    hide Inv, Step, Registered, Loose;
    var s', r' := Step(s, c).s, Numbers(s, c, r, n);
    forall t: Thread, x: Sock | Has(s', t, x) && Closing(PcOf(s', t)).Some?
      ensures x in r' && Closing(PcOf(s', t)).value in r' && r'[x] < r'[Closing(PcOf(s', t)).value]
    {
      if t == c.t { ChainedMover(s, c, r, n, x); } else { OthersStay(s, c, t); }
    }
  }

  lemma OrderStep(s: State, c: Choice, r: map<Sock, nat>, n: nat)
    requires Inv(s) && Ordered(s, r, n) && Step(s, c).Next? && !Nested(s, c)
    ensures Ordered(Step(s, c).s, Numbers(s, c, r, n), n + 1)
  {
    hide Inv, Step, Nested, Numbers, Ranked, Loose, Chained;
    RankedStep(s, c, r, n);
    LooseStep(s, c);
    ChainedStep(s, c, r, n);
  }

  lemma {:induction false} RunOrdered(cs: seq<Choice>) returns (r: map<Sock, nat>, n: nat)
    requires Untangled(cs) && Run(Init(), cs).Next?
    ensures Ordered(Run(Init(), cs).s, r, n)
  {
    hide Inv, Step, Nested, Ordered, Init;
    if cs == [] {
      InitOrdered();
      r, n := map[], 0;
    } else {
      r, n := RunOrdered(cs[..|cs| - 1]);
      var s, c := Run(Init(), cs[..|cs| - 1]).s, cs[|cs| - 1];
      RunKeeps(cs[..|cs| - 1]);
      if Step(s, c).Next? {
        OrderStep(s, c, r, n);
        r, n := Numbers(s, c, r, n), n + 1;
      }
    }
  }

  lemma InitOrdered()
    ensures Ordered(Init(), map[], 0)
  {
  }
}
