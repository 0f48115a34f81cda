/** Runs in which a destroyed socket is used, or a call never ends, step by step. */
module SocketLocksWitness {
  import opened Options
  import opened SocketLocks
  import opened SocketLocksSafety
  import opened SocketLocksRuns
  import opened SocketLocksOrder
  import opened SocketLocksProgress
  import opened SocketLocksDeadlock
  import opened SocketLocksDiscipline

  /** One thread moves n times. */
  function Rep(u: Thread, n: nat): (ms: seq<Choice>)
    ensures |ms| == n
  {
    if n == 0 then [] else Rep(u, n - 1) + [Move(u)]
  }

  /** A thread that goes through the states of a path in one move each. */
  lemma {:induction false} Along(path: nat -> State, u: Thread, n: nat)
    requires forall i: nat :: i < n ==> Step(path(i), Move(u)) == Next(path(i + 1))
    ensures Run(path(0), Rep(u, n)) == Next(path(n))
  {
    hide Step;
    if n > 0 {
      Along(path, u, n - 1);
      assert Rep(u, n)[..n - 1] == Rep(u, n - 1);
      assert Step(path(n - 1), Move(u)) == Next(path(n - 1 + 1));
    }
  }

  /** Socket 7 with id 3. */
  function Opened(table: map<Id, Sock>, readers: set<Thread>, writer: Option<Thread>, sem: Sem,
                  pcs: map<Thread, Pc>): State
  {
    State(table, readers, writer, map[7 := sem], {7}, {}, map[], pcs)
  }

  /** Nobody is in a lock. */
  function Free(pcs: map<Thread, Pc>): State {
    Opened(map[3 := 7], {}, None, Sem(1, None, 3), pcs)
  }

  function Removed(writer: Option<Thread>, sem: Sem, pcs: map<Thread, Pc>): State {
    Opened(map[], {}, writer, sem, pcs)
  }

  function Empty(pcs: map<Thread, Pc>): State {
    State(map[], {}, None, map[], {7}, {7}, map[], pcs)
  }

  // A closer takes the socket out of the array, breaks its lock and destroys it.

  /** The states on its way, from its call to the end. */
  function CloserUpTo(u: Thread, pcs: map<Thread, Pc>, n: nat): State {
    match n
    case 0 => Free(pcs[u := CloseStart(7)])
    case 1 => Opened(map[3 := 7], {}, Some(u), Sem(1, None, 3), pcs[u := CloseArray(7)])
    case 2 => Removed(Some(u), Sem(1, None, 3), pcs[u := CloseLeave(Some(7))])
    case 3 => Removed(None, Sem(1, None, 3), pcs[u := CloseLock(7)])
    case 4 => Removed(None, Sem(1, Some(u), 3), pcs[u := CloseCheck(7)])
    case 5 => Removed(None, Sem(0, Some(u), 3), pcs[u := CloseTaken(7)])
    case 6 => Removed(None, Sem(0, None, 3), pcs[u := BreakLock(7)])
    case 7 => Removed(None, Sem(0, Some(u), 3), pcs[u := BreakSet(7)])
    case 8 => Removed(None, Sem(-1, Some(u), 3), pcs[u := BreakDone(7)])
    case 9 => Removed(None, Sem(-1, None, 3), pcs[u := BreakSignal(7)])
    case 10 => Removed(None, Sem(-1, None, 3), pcs[u := Destroy(7)])
    case _ => Empty(pcs[u := Idle])
  }

  lemma TakesOut(u: Thread, pcs: map<Thread, Pc>, n: nat)
    requires n < 3
    ensures Step(CloserUpTo(u, pcs, n), Move(u)) == Next(CloserUpTo(u, pcs, n + 1))
  {
    hide Run, Rep, Begin, AcquireStep, ReleaseStep;
  }

  lemma TakesLock(u: Thread, pcs: map<Thread, Pc>, n: nat)
    requires 3 <= n < 6
    ensures Step(CloserUpTo(u, pcs, n), Move(u)) == Next(CloserUpTo(u, pcs, n + 1))
  {
    hide Run, Rep, Begin, AcquireStep, ReleaseStep;
  }

  lemma BreaksLock(u: Thread, pcs: map<Thread, Pc>, n: nat)
    requires 6 <= n < 9
    ensures Step(CloserUpTo(u, pcs, n), Move(u)) == Next(CloserUpTo(u, pcs, n + 1))
  {
    hide Run, Rep, Begin, AcquireStep, ReleaseStep;
  }

  lemma Destroys(u: Thread, pcs: map<Thread, Pc>, n: nat)
    requires 9 <= n < 11
    ensures Step(CloserUpTo(u, pcs, n), Move(u)) == Next(CloserUpTo(u, pcs, n + 1))
  {
    hide Run, Rep, Begin, AcquireStep, ReleaseStep;
  }

  lemma CloserDestroys(u: Thread, pcs: map<Thread, Pc>)
    ensures Run(Free(pcs[u := CloseStart(7)]), Rep(u, 11)) == Next(Empty(pcs[u := Idle]))
  {
    hide Step, Run, Rep, Free, Empty, Removed, Opened;
    var path := (n: nat) => CloserUpTo(u, pcs, n);
    forall i: nat | i < 11 ensures Step(path(i), Move(u)) == Next(path(i + 1)) {
      if i < 3 { TakesOut(u, pcs, i); }
      else if i < 6 { TakesLock(u, pcs, i); }
      else if i < 9 { BreaksLock(u, pcs, i); }
      else { Destroys(u, pcs, i); }
    }
    Along(path, u, 11);
  }

  // Another closer comes too late.

  /** Two threads close the same socket, as after `socket_release(s); s = socket_close(s);` in both. */
  lemma BothClose(u: Thread, v: Thread)
    requires u != v
    ensures Run(Init(), [Choice(u, Open(3, 7)), Choice(u, Close(7)), Choice(v, Close(7))])
         == Next(Free(map[u := CloseStart(7), v := CloseStart(7)]))
  {
    hide Run;
    var a, b, c := Choice(u, Open(3, 7)), Choice(u, Close(7)), Choice(v, Close(7));
    RunOne(Init(), a);
    assert Step(Init(), a) == Next(Free(map[]));
    RunOne(Free(map[]), b);
    assert Step(Free(map[]), b) == Next(Free(map[u := CloseStart(7)]));
    RunOne(Free(map[u := CloseStart(7)]), c);
    RunOn(Init(), [a], [b]);
    RunOn(Init(), [a] + [b], [c]);
    assert [a] + [b] + [c] == [a, b, c];
  }

  /** After the choices a thread is at a point where its next move uses a socket that is gone. */
  ghost predicate EndsInCrash(cs: seq<Choice>, v: Thread, pc: Pc) {
    var o := Run(Init(), cs);
    o.Next? && PcOf(o.s, v) == pc && 7 in o.s.gone && Step(o.s, Move(v)) == Crash
  }

  lemma StartsLate(v: Thread, pcs: map<Thread, Pc>)
    requires v in pcs && pcs[v] == CloseStart(7)
    ensures var r := Empty(pcs[v := CloseArray(7)]).(writer := Some(v));
            && Step(Empty(pcs), Move(v)) == Next(r)
            && PcOf(r, v) == CloseArray(7) && 7 in r.gone && Step(r, Move(v)) == Crash
  {
    hide Run, Rep;
  }

  /** The closer that lost reads the id of the socket after the other one has destroyed it. */
  lemma LoserReadsDestroyed(u: Thread, v: Thread)
    requires u != v
    ensures exists cs :: EndsInCrash(cs, v, CloseArray(7))
  {
    hide Run, Rep, Step, Empty, Free;
    var start := [Choice(u, Open(3, 7)), Choice(u, Close(7)), Choice(v, Close(7))];
    var pcs := map[u := CloseStart(7), v := CloseStart(7)];
    BothClose(u, v);
    assert pcs[u := CloseStart(7)] == pcs;
    CloserDestroys(u, pcs);
    RunOn(Init(), start, Rep(u, 11));
    var e := Empty(pcs[u := Idle]);
    StartsLate(v, pcs[u := Idle]);
    RunOne(e, Move(v));
    RunOn(Init(), start + Rep(u, 11), [Move(v)]);
    assert EndsInCrash(start + Rep(u, 11) + [Move(v)], v, CloseArray(7));
  }

  // A releaser has still to signal.

  function Using(v: Thread, readers: set<Thread>, sem: Sem, pc: Pc): State {
    Opened(map[3 := 7], readers, None, sem, map[v := pc])
  }

  /** A thread keeps the socket. */
  function Keeping(v: Thread): State {
    Using(v, {}, Sem(0, None, 3), Idle).(owned := map[7 := v])
  }

  /** The states of a thread from its acquisition to the end of it. */
  function Acquiring(v: Thread, n: nat): State {
    match n
    case 0 => Using(v, {}, Sem(1, None, 3), AcqStart(3))
    case 1 => Using(v, {v}, Sem(1, None, 3), AcqRead(3))
    case 2 => Using(v, {v}, Sem(1, None, 3), AcqLock(7))
    case 3 => Using(v, {v}, Sem(1, Some(v), 3), AcqCheck(7))
    case 4 => Using(v, {v}, Sem(0, Some(v), 3), AcqTaken(7))
    case 5 => Using(v, {v}, Sem(0, None, 3), AcqLeave(Some(7)))
    case _ => Keeping(v)
  }

  lemma Seeks(v: Thread, n: nat)
    requires n < 3
    ensures Step(Acquiring(v, n), Move(v)) == Next(Acquiring(v, n + 1))
  {
    hide Run, Rep, Begin, ReleaseStep, CloseStep;
  }

  lemma Acquires(v: Thread, n: nat)
    requires 3 <= n < 6
    ensures Step(Acquiring(v, n), Move(v)) == Next(Acquiring(v, n + 1))
  {
    hide Run, Rep, Begin, ReleaseStep, CloseStep;
  }

  /** From the release of the socket to the signal. */
  function Releasing(v: Thread, n: nat): State {
    match n
    case 0 => Using(v, {}, Sem(0, None, 3), RelLock(7))
    case 1 => Using(v, {}, Sem(0, Some(v), 3), RelAdd(7))
    case 2 => Using(v, {}, Sem(1, Some(v), 3), RelDone(7))
    case _ => Using(v, {}, Sem(1, None, 3), RelSignal(7))
  }

  lemma Releases(v: Thread, n: nat)
    requires n < 3
    ensures Step(Releasing(v, n), Move(v)) == Next(Releasing(v, n + 1))
  {
    hide Run, Rep, Begin, AcquireStep, CloseStep;
  }

  lemma AcquiresSocket(v: Thread)
    ensures Run(Using(v, {}, Sem(1, None, 3), AcqStart(3)), Rep(v, 6)) == Next(Keeping(v))
  {
    hide Step, Run, Rep, Using, Keeping;
    var path := (n: nat) => Acquiring(v, n);
    forall i: nat | i < 6 ensures Step(path(i), Move(v)) == Next(path(i + 1)) {
      if i < 3 { Seeks(v, i); } else { Acquires(v, i); }
    }
    Along(path, v, 6);
  }

  lemma ReleasesSocket(v: Thread)
    ensures Run(Using(v, {}, Sem(0, None, 3), RelLock(7)), Rep(v, 3))
         == Next(Using(v, {}, Sem(1, None, 3), RelSignal(7)))
  {
    hide Step, Run, Rep, Using;
    var path := (n: nat) => Releasing(v, n);
    forall i: nat | i < 3 ensures Step(path(i), Move(v)) == Next(path(i + 1)) { Releases(v, i); }
    Along(path, v, 3);
  }

  function Opening(v: Thread): seq<Choice> {
    [Choice(v, Open(3, 7)), Choice(v, Acquire(3))]
  }

  lemma UpToTheSocket(v: Thread)
    ensures Run(Init(), Opening(v) + Rep(v, 6)) == Next(Keeping(v))
  {
    hide Run, Rep, Keeping;
    var a, b := Choice(v, Open(3, 7)), Choice(v, Acquire(3));
    RunOne(Init(), a);
    assert Step(Init(), a) == Next(Free(map[]));
    RunOne(Free(map[]), b);
    assert Step(Free(map[]), b) == Next(Using(v, {}, Sem(1, None, 3), AcqStart(3)));
    RunOn(Init(), [a], [b]);
    assert [a] + [b] == [a, b];
    AcquiresSocket(v);
    RunOn(Init(), [a, b], Rep(v, 6));
  }

  lemma GivesBack(v: Thread)
    ensures Step(Keeping(v), GiveBack(v, 7)) == Next(Using(v, {}, Sem(0, None, 3), RelLock(7)))
  {
    hide Run, Rep;
  }

  lemma UpToTheSignal(v: Thread)
    ensures Run(Init(), Opening(v) + Rep(v, 6) + [GiveBack(v, 7)] + Rep(v, 3)) == Next(Free(map[v := RelSignal(7)]))
  {
    hide Run, Rep, Keeping, Opening;
    UpToTheSocket(v);
    GivesBack(v);
    RunOne(Keeping(v), GiveBack(v, 7));
    RunOn(Init(), Opening(v) + Rep(v, 6), [GiveBack(v, 7)]);
    ReleasesSocket(v);
    RunOn(Init(), Opening(v) + Rep(v, 6) + [GiveBack(v, 7)], Rep(v, 3));
  }

  lemma SignalsLate(v: Thread, pcs: map<Thread, Pc>)
    requires v in pcs && pcs[v] == RelSignal(7)
    ensures PcOf(Empty(pcs), v) == RelSignal(7) && 7 in Empty(pcs).gone && Step(Empty(pcs), Move(v)) == Crash
  {
    hide Run, Rep;
  }

  lemma BeginsClose(s: State, u: Thread)
    requires PcOf(s, u) == Idle && 7 in s.ever
    ensures Run(s, [Choice(u, Close(7))]) == Next(At(s, u, CloseStart(7)))
  {
    hide Run, Rep;
    RunOne(s, Choice(u, Close(7)));
  }

  /** A releaser signals on the condition of a socket that was destroyed between its unlock and the signal. */
  lemma SignalAfterDestroy(u: Thread, v: Thread)
    requires u != v
    ensures exists cs :: EndsInCrash(cs, v, RelSignal(7))
  {
    hide Run, Rep, Step, Empty, Opening;
    var start := Opening(v) + Rep(v, 6) + [GiveBack(v, 7)] + Rep(v, 3);
    var pcs := map[v := RelSignal(7), u := CloseStart(7)];
    UpToTheSignal(v);
    BeginsClose(Free(map[v := RelSignal(7)]), u);
    RunOn(Init(), start, [Choice(u, Close(7))]);
    var closing := start + [Choice(u, Close(7))];
    assert pcs[u := CloseStart(7)] == pcs;
    CloserDestroys(u, pcs);
    RunOn(Init(), closing, Rep(u, 11));
    SignalsLate(v, pcs[u := Idle]);
    assert EndsInCrash(closing + Rep(u, 11), v, RelSignal(7));
  }

  // Threads that keep the socket while they make another call.

  lemma KeepingIsReached(v: Thread)
    ensures Inv(Keeping(v)) && Registered(Keeping(v), 7) && IdOf(Keeping(v), 7) == 3 && Has(Keeping(v), v, 7)
  {
    hide Inv, Run, Rep, Opening;
    RunKeeps(Opening(v) + Rep(v, 6));
    UpToTheSocket(v);
  }

  /** A run, and a thread in a call that never ends after it. */
  ghost predicate EndsInHang(cs: seq<Choice>, v: Thread) {
    var o := Run(Init(), cs);
    o.Next? && Hangs(o.s, v)
  }

  /** A thread acquires the id of the socket that it keeps, as a plugin may from its own callback. */
  lemma AcquiringTwiceHangs(v: Thread)
    ensures EndsInHang(Opening(v) + Rep(v, 6) + [Choice(v, Acquire(3)), Move(v), Move(v)], v)
  {
    hide Inv, Run, Rep, Opening, Keeping, Hangs, Step;
    UpToTheSocket(v);
    KeepingIsReached(v);
    IdleKeeper(v);
    var s := Keeping(v);
    var ms := CallsAndFinds(s, v, 7);
    RunOn(Init(), Opening(v) + Rep(v, 6), ms);
    KnotHangs(Run(s, ms).s, v, v, 7, 7);
  }

  lemma IdleKeeper(v: Thread)
    ensures forall u: Thread :: PcOf(Keeping(v), u) == Idle
    ensures Keeping(v).writer == None && Keeping(v).gone == {}
  {
  }

  /** The poller keeps socket 7 and is about to close socket 8, with id 4. */
  function Polling(v: Thread): State {
    State(map[3 := 7, 4 := 8], {}, None, map[7 := Sem(0, None, 3), 8 := Sem(1, None, 4)], {7, 8}, {}, map[7 := v],
          map[v := CloseStart(8)])
  }

  lemma Polls(v: Thread)
    ensures Run(Keeping(v), [Choice(v, Open(4, 8)), Choice(v, Close(8))]) == Next(Polling(v))
  {
    hide Run, Rep;
    var a, b := Choice(v, Open(4, 8)), Choice(v, Close(8));
    RunOne(Keeping(v), a);
    var s := Polling(v).(pcs := map[v := Idle]);
    assert Step(Keeping(v), a) == Next(s);
    RunOne(s, b);
    assert Step(s, b) == Next(Polling(v));
    RunOn(Keeping(v), [a], [b]);
    assert [a] + [b] == [a, b];
  }

  /**
   * The poller, which keeps what it has acquired so far, closes a socket while another thread waits for one that it
   * keeps: the closer needs the array, and the other thread has it locked.
   */
  lemma PollerHangs(u: Thread, v: Thread)
    requires u != v
    ensures EndsInHang(Opening(v) + Rep(v, 6) + [Choice(v, Open(4, 8)), Choice(v, Close(8))] +
                       [Choice(u, Acquire(3)), Move(u), Move(u)], v)
  {
    hide Inv, Run, Rep, Opening, Keeping, Hangs, Step;
    UpToTheSocket(v);
    Polls(v);
    var start := Opening(v) + Rep(v, 6);
    var calls := [Choice(v, Open(4, 8)), Choice(v, Close(8))];
    RunOn(Init(), start, calls);
    RunKeeps(start + calls);
    var s := Polling(v);
    assert Registered(s, 7) && IdOf(s, 7) == 3 && PcOf(s, u) == Idle && PcOf(s, v) == CloseStart(8) && Has(s, v, 7);
    var ms := CallsAndFinds(s, u, 7);
    RunOn(Init(), start + calls, ms);
    KnotHangs(Run(s, ms).s, v, u, 7, 7);
  }

  // A closer that keeps its socket hangs, and then another close of it does no harm.

  /** The closer waits for the socket that it keeps, and the others at most find that it is out of the array. */
  ghost predicate Frozen(s: State, v: Thread) {
    && Inv(s) && s.gone == {} && Has(s, v, 7) && PcOf(s, v) in {CloseLock(7), CloseCheck(7), CloseWait(7)}
    && forall u: Thread :: u != v ==> PcOf(s, u) in {Idle, CloseStart(7), CloseArray(7), CloseLeave(None)}
  }

  lemma FrozenSelf(s: State, c: Choice)
    requires Frozen(s, c.t) && Step(s, c).Next?
    ensures PcOf(Step(s, c).s, c.t) in {CloseLock(7), CloseCheck(7), CloseWait(7)} && Step(s, c).s.owned == s.owned
    ensures Step(s, c).s.gone == s.gone
  {
    hide Inv, Begin, AcquireStep, ReleaseStep;
    OwnedInMemory(s, 7);
  }

  lemma FrozenOther(s: State, c: Choice, v: Thread)
    requires Frozen(s, v) && c.t != v && (c.call.Continue? || c.call.Release?) && Step(s, c).Next?
    requires forall x :: !Has(s, c.t, x)
    ensures PcOf(Step(s, c).s, c.t) in {Idle, CloseStart(7), CloseArray(7), CloseLeave(None)}
    ensures Step(s, c).s.gone == s.gone
  {
    hide Inv, OnlyHolder, OnlyInMutex, AcquireStep, ReleaseStep;
    Known(s, v);
  }

  ghost predicate OnlyOwner(s: State, v: Thread) {
    forall x, u: Thread :: Has(s, u, x) ==> u == v
  }

  lemma FrozenStep(s: State, c: Choice, v: Thread)
    requires Frozen(s, v) && OnlyOwner(s, v) && (c.call.Continue? || c.call.Release?)
    ensures Step(s, c) != Crash
    ensures Step(s, c).Next? ==> Frozen(Step(s, c).s, v) && OnlyOwner(Step(s, c).s, v)
  {
    hide Inv, Step;
    StepKeeps(s, c);
    if Step(s, c).Next? {
      var s' := Step(s, c).s;
      forall u: Thread | u != c.t ensures PcOf(s', u) == PcOf(s, u) { OthersStay(s, c, u); }
      if c.t == v { FrozenSelf(s, c); } else { FrozenOther(s, c, v); OthersKeep(s, c, v, 7); }
      forall x, u: Thread | Has(s', u, x) ensures u == v {
        if u != c.t { OthersStay(s, c, u); } else if u != v { NothingNew(s, c, x, v); }
      }
    }
  }

  lemma NothingNew(s: State, c: Choice, x: Sock, v: Thread)
    requires Frozen(s, v) && c.t != v && Step(s, c).Next? && Has(Step(s, c).s, c.t, x)
    ensures Has(s, c.t, x)
  {
    hide Inv;
  }

  lemma {:induction false} FrozenRun(s: State, ms: seq<Choice>, v: Thread)
    requires Frozen(s, v) && OnlyOwner(s, v) && OnlyMoves(ms)
    ensures Run(s, ms).Next? && Frozen(Run(s, ms).s, v) && OnlyOwner(Run(s, ms).s, v)
  {
    hide Frozen, OnlyOwner, Step;
    if ms != [] {
      var n := |ms| - 1;
      FrozenRun(s, ms[..n], v);
      assert ms[n].call.Continue? || ms[n].call.Release?;
      FrozenStep(Run(s, ms[..n]).s, ms[n], v);
    }
  }

  /** The states of a closer that keeps its socket, up to its wait for it. */
  function SelfClosing(v: Thread, n: nat): State {
    match n
    case 0 => Keeping(v).(pcs := map[v := CloseStart(7)])
    case 1 => Keeping(v).(pcs := map[v := CloseArray(7)], writer := Some(v))
    case 2 => Keeping(v).(pcs := map[v := CloseLeave(Some(7))], writer := Some(v), table := map[])
    case _ => Keeping(v).(pcs := map[v := CloseLock(7)], table := map[])
  }

  lemma ClosesSelf(v: Thread, n: nat)
    requires n < 3
    ensures Step(SelfClosing(v, n), Move(v)) == Next(SelfClosing(v, n + 1))
  {
    hide Run, Rep, Begin, AcquireStep, ReleaseStep;
  }

  /** Up to the moment at which the closer has the socket out of the array. */
  function SelfCloser(v: Thread): seq<Choice> {
    Opening(v) + Rep(v, 6) + [Choice(v, Close(7))] + Rep(v, 3)
  }

  lemma SelfCloserRuns(v: Thread)
    ensures Run(Init(), SelfCloser(v)) == Next(SelfClosing(v, 3))
  {
    hide Run, Rep, Opening, Step;
    UpToTheSocket(v);
    CallsClose(v);
    RunOne(Keeping(v), Choice(v, Close(7)));
    RunOn(Init(), Opening(v) + Rep(v, 6), [Choice(v, Close(7))]);
    var path := (n: nat) => SelfClosing(v, n);
    forall i: nat | i < 3 ensures Step(path(i), Move(v)) == Next(path(i + 1)) { ClosesSelf(v, i); }
    Along(path, v, 3);
    RunOn(Init(), Opening(v) + Rep(v, 6) + [Choice(v, Close(7))], Rep(v, 3));
  }

  lemma CallsClose(v: Thread)
    ensures Step(Keeping(v), Choice(v, Close(7))) == Next(SelfClosing(v, 0))
  {
    hide Run, Rep;
  }

  lemma {:induction false} RepMoves(v: Thread, n: nat)
    ensures OnlyMoves(Rep(v, n))
  {
    if n > 0 { RepMoves(v, n - 1); }
  }

  lemma OneMore(cs: seq<Choice>, c: Choice)
    requires Disciplined(cs) && (Run(Init(), cs).Next? ==> Allowed(Run(Init(), cs).s, c))
    ensures Disciplined(cs + [c])
  {
    hide Run, Allowed;
    assert (cs + [c])[..|cs|] == cs;
  }

  lemma OpeningIsDisciplined(v: Thread)
    ensures Disciplined(Opening(v))
  {
    hide Run, Step;
    var a, b := Choice(v, Open(3, 7)), Choice(v, Acquire(3));
    assert Disciplined([]);
    assert Allowed(Init(), a);
    StartsEmpty();
    OneMore([], a);
    assert [] + [a] == [a];
    RunOne(Init(), a);
    OpensFirst(a);
    OneMore([a], b);
    assert [a] + [b] == [a, b];
  }

  lemma StartsEmpty()
    ensures Run(Init(), []) == Next(Init())
  {
  }

  lemma OpensFirst(a: Choice)
    requires a.call == Open(3, 7)
    ensures Step(Init(), a) == Next(Free(map[]))
  {
    hide Run, Rep;
  }

  lemma SelfCloserIsDisciplined(v: Thread)
    ensures Disciplined(SelfCloser(v))
  {
    hide Disciplined, Run, Rep, Opening, Step, Allowed;
    OpeningIsDisciplined(v);
    RepMoves(v, 6);
    MovesAllowed(Opening(v), Rep(v, 6));
    UpToTheSocket(v);
    ClosingOwnIsAllowed(v);
    OneMore(Opening(v) + Rep(v, 6), Choice(v, Close(7)));
    RepMoves(v, 3);
    MovesAllowed(Opening(v) + Rep(v, 6) + [Choice(v, Close(7))], Rep(v, 3));
  }

  lemma ClosingOwnIsAllowed(v: Thread)
    ensures Allowed(Keeping(v), Choice(v, Close(7)))
  {
    hide Run, Rep;
  }

  lemma SecondIsNotAllowed(u: Thread, v: Thread)
    requires u != v
    ensures !Allowed(SelfClosing(v, 3), Choice(u, Close(7)))
    ensures Step(SelfClosing(v, 3), Choice(u, Close(7))).Next?
    ensures var s := Step(SelfClosing(v, 3), Choice(u, Close(7))).s; Inv(SelfClosing(v, 3)) && Inv(s) ==>
      Frozen(s, v) && OnlyOwner(s, v)
  {
    hide Run, Rep, Inv;
    assert Closes(PcOf(SelfClosing(v, 3), v), 7);
  }

  /**
   * Without the condition on what callers keep the discipline is more than it takes: here a call is made that it does
   * not allow, and yet no destroyed socket is ever used, because the first closer waits for itself.
   */
  lemma HangingIsHarmless(u: Thread, v: Thread)
    requires u != v
    ensures var cs := SelfCloser(v) + [Choice(u, Close(7))]; Harmless(cs) && !Disciplined(cs)
  {
    hide Inv, Run, Step, Allowed, Disciplined, SelfCloser, SelfClosing, Frozen, OnlyOwner;
    var n, c := |SelfCloser(v)|, Choice(u, Close(7));
    var cs := SelfCloser(v) + [c];
    SelfCloserRuns(v);
    SelfCloserIsDisciplined(v);
    SecondIsNotAllowed(u, v);
    RunKeeps(SelfCloser(v));
    StepKeeps(SelfClosing(v, 3), c);
    RunOne(SelfClosing(v, 3), c);
    RunOn(Init(), SelfCloser(v), [c]);
    LastIsNotAllowed(SelfCloser(v), c);
    DisciplineSuffices(SelfCloser(v));
    forall k: nat, ms: seq<Choice> | k <= |cs| && OnlyMoves(ms) ensures Run(Init(), cs[..k] + ms) != Crash {
      if k <= n {
        assert cs[..k] == SelfCloser(v)[..k];
      } else {
        assert cs[..k] == cs;
        FrozenRun(Step(SelfClosing(v, 3), c).s, ms, v);
        RunOn(Init(), cs, ms);
      }
    }
  }

  lemma LastIsNotAllowed(cs: seq<Choice>, c: Choice)
    requires Run(Init(), cs).Next? && !Allowed(Run(Init(), cs).s, c)
    ensures !Disciplined(cs + [c])
  {
    hide Run, Allowed;
    assert (cs + [c])[..|cs|] == cs;
  }
}
