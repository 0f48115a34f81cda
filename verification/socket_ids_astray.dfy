/** What goes wrong when a socket is removed while it is being opened, and exactly when. */
module SocketIdsAstray {
  import opened SocketIds
  import opened SocketIdsSafety
  import opened SocketIdsOpen
  import opened SocketIdsRuns
  import opened Options

  /** The same choice, but for what the memory of a new socket holds. */
  predicate SameCall(c: Choice, d: Choice) {
    c.t == d.t && (c.call == d.call || (c.call.Register? && d.call.Register? && c.call.x == d.call.x))
  }

  predicate SameCalls(cs: seq<Choice>, ds: seq<Choice>) {
    |cs| == |ds| && forall i :: 0 <= i < |cs| ==> SameCall(cs[i], ds[i])
  }

  /**
   * Whatever the memory of new sockets holds, at no point of the run does an index leave its array or a registration
   * write to a socket that is not there.
   */
  ghost predicate NeverAstray(max: nat, cs: seq<Choice>) {
    forall k: nat, ds: seq<Choice> :: k <= |cs| && SameCalls(cs[..k], ds) ==> Run(Init(max), ds) != Crash
  }

  // Careful removals never go astray.

  /** The states differ at most in the flags of sockets that are being opened. */
  ghost predicate Alike(s: State, s': State) {
    && s' == s.(flags := s'.flags) && s'.flags.Keys == s.flags.Keys
    && forall x :: x in s.flags && x !in s.opening ==> s'.flags[x] == s.flags[x]
  }

  lemma AlikeCall(s: State, s': State, c: Choice, d: Choice)
    requires Alike(s, s') && SameCall(c, d) && Careful(s, c) && PcOf(s, c.t) == Idle && Step(s, c) != Crash
    ensures if Step(s, c).Next? then Step(s', d).Next? && Alike(Step(s, c).s, Step(s', d).s) else Step(s', d) == Blocked
  {
  }

  lemma AlikeMove(s: State, s': State, c: Choice, d: Choice)
    requires Alike(s, s') && SameCall(c, d) && PcOf(s, c.t) != Idle && Step(s, c) != Crash
    ensures if Step(s, c).Next? then Step(s', d).Next? && Alike(Step(s, c).s, Step(s', d).s) else Step(s', d) == Blocked
  {
  }

  lemma {:induction false} AlikeRun(max: nat, cs: seq<Choice>, ds: seq<Choice>)
    requires max > 0 && AllCareful(Init(max), cs) && SameCalls(cs, ds)
    ensures Run(Init(max), cs).Next? && Run(Init(max), ds).Next?
    ensures Alike(Run(Init(max), cs).s, Run(Init(max), ds).s)
  {
    hide Step, Alike, SameCall, Careful, Init;
    if cs == [] {
      InitAlike(max);
    } else {
      var n := |cs| - 1;
      AlikeRun(max, cs[..n], ds[..n]);
      RunKeeps(max, cs);
      var s, s' := Run(Init(max), cs[..n]).s, Run(Init(max), ds[..n]).s;
      if PcOf(s, cs[n].t) == Idle {
        AlikeCall(s, s', cs[n], ds[n]);
      } else {
        AlikeMove(s, s', cs[n], ds[n]);
      }
    }
  }

  lemma InitAlike(max: nat)
    ensures Alike(Init(max), Init(max))
  {
  }

  lemma {:induction false} CarefulPrefix(s: State, cs: seq<Choice>, k: nat)
    requires AllCareful(s, cs) && k <= |cs|
    ensures AllCareful(s, cs[..k])
  {
    hide Run, Careful;
    if k < |cs| {
      CarefulPrefix(s, cs[..|cs| - 1], k);
      assert cs[..|cs| - 1][..k] == cs[..k];
    } else {
      assert cs[..k] == cs;
    }
  }

  // The first removal that is not careful goes astray when all fresh memory holds a number that is no index.

  function Filled(c: Choice, g: Id): (d: Choice)
    ensures SameCall(c, d)
  {
    if c.call.Register? then Choice(c.t, Register(c.call.x, g)) else c
  }

  function AllFilled(cs: seq<Choice>, g: Id): (ds: seq<Choice>)
    ensures |ds| == |cs| && SameCalls(cs, ds)
  {
    if cs == [] then [] else AllFilled(cs[..|cs| - 1], g) + [Filled(cs[|cs| - 1], g)]
  }

  /** The flags of all sockets that are being opened hold this number. */
  ghost predicate Raw(s: State, g: Id) {
    forall x :: x in s.opening && x in s.flags ==> s.flags[x] == g
  }

  lemma RawStep(s: State, c: Choice, g: Id)
    requires Raw(s, g) && Step(s, Filled(c, g)).Next?
    ensures Raw(Step(s, Filled(c, g)).s, g)
  {
  }

  lemma {:induction false} RawRun(max: nat, cs: seq<Choice>, g: Id)
    ensures Run(Init(max), AllFilled(cs, g)).Next? ==> Raw(Run(Init(max), AllFilled(cs, g)).s, g)
  {
    hide Step, Raw, Init, Filled;
    if cs == [] {
      InitRaw(max, g);
    } else {
      var n := |cs| - 1;
      RawRun(max, cs[..n], g);
      assert AllFilled(cs, g)[..n] == AllFilled(cs[..n], g);
      var o := Run(Init(max), AllFilled(cs[..n], g));
      if o.Next? && Step(o.s, Filled(cs[n], g)).Next? { RawStep(o.s, cs[n], g); }
    }
  }

  lemma InitRaw(max: nat, g: Id)
    ensures Raw(Init(max), g)
  {
  }

  lemma RemovesRaw(s: State, s': State, c: Choice, g: Id)
    requires Alike(s, s') && Raw(s', g) && !Careful(s, c) && g >= s.max
    ensures Step(s', Filled(c, g)) == Crash
  {
  }

  /** The first careless removal. */
  lemma {:induction false} FirstAstray(max: nat, cs: seq<Choice>) returns (k: nat)
    requires max > 0 && !AllCareful(Init(max), cs)
    ensures k <= |cs| && Run(Init(max), AllFilled(cs[..k], max)) == Crash
  {
    hide Step, Alike, Raw, Careful, Init, Filled, SameCalls, SameCall;
    var n := |cs| - 1;
    if AllCareful(Init(max), cs[..n]) {
      k := n + 1;
      assert cs[..k] == cs;
      var ds := AllFilled(cs[..n], max);
      AlikeRun(max, cs[..n], ds);
      RawRun(max, cs[..n], max);
      RunMax(max, cs[..n]);
      RemovesRaw(Run(Init(max), cs[..n]).s, Run(Init(max), ds).s, cs[n], max);
      assert AllFilled(cs, max)[..n] == ds;
    } else {
      k := FirstAstray(max, cs[..n]);
      assert cs[..n][..k] == cs[..k];
    }
  }

  /**
   * No contents of fresh memory can make a removal index the array by a number that is none, or a registration write to
   * a socket that is gone, at any point of the run, exactly if no socket is removed before the call that opens it has
   * stored its id.
   */
  lemma {:induction false} NeverAstrayIffCareful(max: nat, cs: seq<Choice>)
    requires max > 0
    ensures NeverAstray(max, cs) <==> AllCareful(Init(max), cs)
  {
    hide Run, Init, AllCareful, SameCalls;
    if AllCareful(Init(max), cs) {
      forall k: nat, ds: seq<Choice> | k <= |cs| && SameCalls(cs[..k], ds) ensures Run(Init(max), ds) != Crash {
        CarefulPrefix(Init(max), cs, k);
        AlikeRun(max, cs[..k], ds);
      }
    } else {
      var k := FirstAstray(max, cs);
      assert SameCalls(cs[..k], AllFilled(cs[..k], max));
    }
  }

  // A run that goes astray.

  /** The thread t registers the first socket, up to the point at which it is in the array and its flags are not set. */
  function Storing(max: nat, t: Thread, x: Sock, garbage: Id, n: nat): State
    requires max > 0
  {
    var s := Init(max).(live := {x}, opening := {x}, flags := map[x := garbage]);
    match n
    case 0 => s.(pcs := map[t := RegStart(x)])
    case 1 => s.(pcs := map[t := RegTry(x)])
    case 2 => s.(pcs := map[t := RegStore(x, 1)], next := 2)
    case _ => s.(pcs := map[t := RegFlag(x, 1)], next := 2, sockets := map[1 := x], stored := {x})
  }

  lemma StoringStep(max: nat, t: Thread, x: Sock, garbage: Id, n: nat, call: Call)
    requires max > 1 && n < 3
    ensures Step(Storing(max, t, x, garbage, n), Choice(t, call)) == Next(Storing(max, t, x, garbage, n + 1))
  {
    hide Run;
  }

  lemma Then(s: State, cs: seq<Choice>, c: Choice)
    requires Run(s, cs).Next?
    ensures Run(s, cs + [c]) == match Step(Run(s, cs).s, c) case Blocked => Next(Run(s, cs).s) case o => o
  {
    hide Step;
    assert (cs + [c])[..|cs|] == cs;
  }

  lemma RegisterFirst(max: nat, t: Thread, x: Sock, garbage: Id)
    requires max > 0
    ensures Run(Init(max), [Choice(t, Register(x, garbage))]) == Next(Storing(max, t, x, garbage, 0))
  {
    var c := Choice(t, Register(x, garbage));
    assert [c][..0] == [];
    assert Run(Init(max), []) == Next(Init(max));
    assert Step(Init(max), c) == Next(Storing(max, t, x, garbage, 0));
  }

  /** The opening thread has put the socket into the array and not yet set its flags. */
  lemma StoredUpTo(max: nat, t: Thread, x: Sock, garbage: Id)
    requires max > 1
    ensures var c := Choice(t, Register(x, garbage));
      Run(Init(max), [c, c, c, c]) == Next(Storing(max, t, x, garbage, 3))
  {
    hide Run, Step, Storing;
    var c := Choice(t, Register(x, garbage));
    RegisterFirst(max, t, x, garbage);
    StoringStep(max, t, x, garbage, 0, c.call);
    StoringStep(max, t, x, garbage, 1, c.call);
    StoringStep(max, t, x, garbage, 2, c.call);
    Then(Init(max), [c], c);
    Then(Init(max), [c] + [c], c);
    Then(Init(max), [c] + [c] + [c], c);
    assert [c] + [c] + [c] + [c] == [c, c, c, c];
  }

  lemma RemovedEarly(max: nat, t: Thread, u: Thread, x: Sock, garbage: Id)
    requires t != u && garbage >= max > 1
    ensures Step(Storing(max, t, x, garbage, 3), Choice(u, Remove(x))) == Crash
  {
    hide Run;
  }

  /** Between the store in the array and the store of the flags another thread finds the socket and closes it. */
  lemma EarlyRemovalStrays(max: nat, t: Thread, u: Thread, x: Sock, garbage: Id)
    requires t != u && garbage >= max > 1
    ensures var c := Choice(t, Register(x, garbage)); Run(Init(max), [c, c, c, c, Choice(u, Remove(x))]) == Crash
  {
    hide Run, Step, Storing;
    var c, d := Choice(t, Register(x, garbage)), Choice(u, Remove(x));
    StoredUpTo(max, t, x, garbage);
    RemovedEarly(max, t, u, x, garbage);
    Then(Init(max), [c, c, c, c], d);
    assert [c, c, c, c] + [d] == [c, c, c, c, d];
  }

  // A run that writes to a socket that is gone.

  /** The memory of the new socket happens to hold its id, and u removes the socket to the end. */
  function Removing(max: nat, t: Thread, u: Thread, x: Sock, n: nat): State
    requires max > 1
  {
    var s := Storing(max, t, x, 1, 3).(sockets := map[]);
    var q := s.(slots := s.slots[0 := 1], tail := 1, tailLock := Some(u), freed := [1]);
    var pcs := map[t := RegFlag(x, 1)];
    match n
    case 0 => s.(pcs := pcs[u := DerFree(x, 1)])
    case 1 => s.(tailLock := Some(u), pcs := pcs[u := DerTail(x, 1)])
    case 2 => q.(pcs := pcs[u := DerWritten(x)])
    case 3 => q.(slots := q.slots[1 := 0], pcs := pcs[u := DerDone(x)])
    case _ => q.(slots := q.slots[1 := 0], tailLock := None, live := {}, pcs := pcs[u := Idle])
  }

  lemma RemovalBegins(max: nat, t: Thread, u: Thread, x: Sock)
    requires t != u && max > 1
    ensures Step(Storing(max, t, x, 1, 3), Choice(u, Remove(x))) == Next(Removing(max, t, u, x, 0))
  {
    hide Run;
    assert map[1 := x] - {1} == map[];
  }

  lemma RemovingStep(max: nat, t: Thread, u: Thread, x: Sock, n: nat)
    requires t != u && max > 1 && n < 4
    ensures Step(Removing(max, t, u, x, n), Choice(u, Remove(x))) == Next(Removing(max, t, u, x, n + 1))
  {
    hide Run, Begin, RegStep;
    var pcs := map[t := RegFlag(x, 1)];
    assert pcs[u := DerFree(x, 1)][u := DerTail(x, 1)] == pcs[u := DerTail(x, 1)];
    assert pcs[u := DerTail(x, 1)][u := DerWritten(x)] == pcs[u := DerWritten(x)];
    assert pcs[u := DerWritten(x)][u := DerDone(x)] == pcs[u := DerDone(x)];
    assert pcs[u := DerDone(x)][u := Idle] == pcs[u := Idle];
    assert {x} - {x} == {};
    assert [] + [1] == [1];
  }

  lemma WritesToNothing(max: nat, t: Thread, u: Thread, x: Sock, call: Call)
    requires t != u && max > 1
    ensures Step(Removing(max, t, u, x, 4), Choice(t, call)) == Crash
  {
    hide Run;
  }

  /**
   * Between the store in the array and the store of the flags, another thread finds the socket and closes it; the flags
   * happen to hold the id already, so that the removal succeeds, and the registration writes to the socket that is
   * gone.
   */
  lemma EarlyRemovalDangles(max: nat, t: Thread, u: Thread, x: Sock)
    requires t != u && max > 1
    ensures var c, d := Choice(t, Register(x, 1)), Choice(u, Remove(x));
      Run(Init(max), [c, c, c, c] + [d, d, d, d, d] + [c]) == Crash
  {
    hide Run, Step, Storing, Removing;
    var c, d := Choice(t, Register(x, 1)), Choice(u, Remove(x));
    StoredUpTo(max, t, x, 1);
    RemovalBegins(max, t, u, x);
    Then(Init(max), [c, c, c, c], d);
    var n, cs := 0, [c, c, c, c] + [d];
    while n < 4
      invariant n <= 4 && |cs| == 5 + n
      invariant cs[..4] == [c, c, c, c] && forall i :: 4 <= i < |cs| ==> cs[i] == d
      invariant Run(Init(max), cs) == Next(Removing(max, t, u, x, n))
    {
      RemovingStep(max, t, u, x, n);
      Then(Init(max), cs, d);
      n, cs := n + 1, cs + [d];
    }
    assert cs == [c, c, c, c] + [d, d, d, d, d];
    WritesToNothing(max, t, u, x, c.call);
    Then(Init(max), cs, c);
  }
}
