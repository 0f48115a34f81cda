/** Which calls come to an end, for callers that keep the discipline under which no destroyed socket is used. */
module SocketLocksEndings {
  import opened SocketLocks
  import opened SocketLocksOrder
  import opened SocketLocksProgress
  import opened SocketLocksDiscipline
  import opened SocketLocksDeadlock

  /** What was called so far can go on without the use of a destroyed socket. */
  lemma MovesDoNotCrash(cs: seq<Choice>, ms: seq<Choice>)
    requires Disciplined(cs) && OnlyMoves(ms)
    ensures Run(Init(), cs + ms) != Crash
  {
    hide Run, Disciplined, Init;
    DisciplineSuffices(cs);
    assert cs[..|cs|] == cs;
  }

  /** As long as no call is nested, all calls can be brought to their end. */
  lemma {:induction false} AllCallsCanEnd(cs: seq<Choice>) returns (ms: seq<Choice>)
    requires Untangled(cs) && Disciplined(cs)
    ensures OnlyMoves(ms) && Run(Init(), cs + ms).Next?
    ensures forall u: Thread :: PcOf(Run(Init(), cs + ms).s, u) == Idle
  {
    hide Run, Disciplined, Untangled, Init, OnlyMoves, Inv, Calm;
    DisciplinedRuns(cs);
    ms := NoDeadlock(cs);
    MovesDoNotCrash(cs, ms);
  }

  /** The first nested call can be made to hang: however the run goes on from there, it never ends. */
  lemma {:induction false} FirstNestedCanHang(cs: seq<Choice>, c: Choice) returns (ms: seq<Choice>)
    requires Untangled(cs) && Disciplined(cs + [c]) && Run(Init(), cs).Next?
    requires var s := Run(Init(), cs).s; Nested(s, c) && FindsOne(s, c) && Step(s, c).Next?
    ensures Run(Init(), cs + [c] + ms).Next? && Hangs(Run(Init(), cs + [c] + ms).s, c.t)
  {
    hide Run, Disciplined, Untangled, Init, OnlyMoves, Hangs, Step, Nested, FindsOne;
    ms := NestedCallHangs(cs, c);
    if OnlyMoves(ms) { MovesDoNotCrash(cs + [c], ms); }
  }
}
