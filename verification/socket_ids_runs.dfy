/** Whole runs of registering and removing sockets. */
module SocketIdsRuns {
  import opened IdRing
  import opened SocketIds
  import opened SocketIdsSafety
  import opened SocketIdsOpen
  import opened Options

  lemma InitInv(max: nat)
    requires max > 0
    ensures IdInv(Init(max)) && SockInv(Init(max))
  {
    var s := Init(max);
    assert View(s.slots, 0)[..0] == [];
  }

  lemma RegKeepsEarly(s: State, t: Thread)
    requires IdInv(s)
    requires PcOf(s, t).RegStart? || PcOf(s, t).RegTry? || PcOf(s, t).RegReuse? || PcOf(s, t).RegTaken?
    ensures RegStep(s, t, PcOf(s, t)) != Crash
    ensures RegStep(s, t, PcOf(s, t)).Next? ==> IdInv(RegStep(s, t, PcOf(s, t)).s)
  {
    hide LocksOk, RingOk, ThreadsOk, Apart, Covered, Free;
    var pc := PcOf(s, t);
    var o := RegStep(s, t, pc);
    QuietFacts(s, t);
    match pc
    case RegStart(x) =>
      LocksStay(s, o.s, t, if s.next < s.max then RegTry(x) else RegReuse(x));
      QuietStep(s, o.s, t, if s.next < s.max then RegTry(x) else RegReuse(x));
    case RegTry(x) =>
      if s.next < s.max {
        TakeNew(s, o.s, t, x);
      } else {
        LocksStay(s, o.s, t, RegReuse(x));
        QuietStep(s, o.s, t, RegReuse(x));
      }
    case RegReuse(x) =>
      if o.Next? {
        HeadLockMoves(s, o.s, t, RegHead(x));
        QuietStep(s, o.s, t, RegHead(x));
      }
    case RegTaken(x, id) =>
      HeadLockMoves(s, o.s, t, RegStore(x, id));
      QuietStep(s, o.s, t, RegStore(x, id));
  }

  lemma QuietFacts(s: State, t: Thread)
    requires IdInv(s)
    ensures AsksOk(s, PcOf(s, t)) && (HoldsHead(PcOf(s, t)) ==> s.headLock == Some(t)) && s.next <= s.max
  {
    hide RingOk, Apart, Covered, Free;
  }

  lemma RegKeepsLate(s: State, t: Thread)
    requires IdInv(s)
    requires var pc := PcOf(s, t); pc.RegHead? || pc.RegNone? || pc.RegSeen? || pc.RegStore? || pc.RegFlag?
    ensures RegStep(s, t, PcOf(s, t)) == Crash <==> PcOf(s, t).RegFlag? && PcOf(s, t).x !in s.live
    ensures RegStep(s, t, PcOf(s, t)).Next? ==> IdInv(RegStep(s, t, PcOf(s, t)).s)
  {
    hide IdInv, Free;
    var pc := PcOf(s, t);
    var o := RegStep(s, t, pc);
    IndexFacts(s, t);
    match pc
    case RegHead(x) =>
      var head := if s.head == s.max then 0 else s.head;
      HeadStep(s, o.s, t, x, if s.slots[head] == 0 then RegNone(x) else RegSeen(x, s.slots[head]), head);
    case RegNone(x) => FailStep(s, o.s, t, x);
    case RegSeen(x, id) => TakeFree(s, o.s, t, x, id);
    case RegStore(x, id) => StoreStep(s, o.s, t, x, id);
    case RegFlag(x, id) =>
      if x in s.live { FlagStep(s, o.s, t, x, id); }
  }

  /** No index leaves the ring or the array. */
  lemma IndexFacts(s: State, t: Thread)
    requires IdInv(s)
    ensures |s.slots| == s.max > 0 && s.head <= s.max && s.tail <= s.max
    ensures PcOf(s, t).RegSeen? ==> s.head < s.max
    ensures PcOf(s, t).DerTail? ==> s.tail < s.max
    ensures PcOf(s, t).RegStore? ==> PcOf(s, t).id < s.max
  {
    hide Free, Apart, Covered;
    assert HeldOk(s, PcOf(s, t)) && AsksOk(s, PcOf(s, t));
    CarriesRoom(s.slots, s.head, Free(s));
    assert PcOf(s, t).DerTail? ==> s.tailLock == Some(t);
  }

  lemma RegKeeps(s: State, t: Thread)
    requires IdInv(s) && InReg(PcOf(s, t))
    ensures RegStep(s, t, PcOf(s, t)) == Crash <==> PcOf(s, t).RegFlag? && PcOf(s, t).x !in s.live
    ensures RegStep(s, t, PcOf(s, t)).Next? ==> IdInv(RegStep(s, t, PcOf(s, t)).s)
  {
    hide IdInv, RegStep;
    var pc := PcOf(s, t);
    if pc.RegStart? || pc.RegTry? || pc.RegReuse? || pc.RegTaken? {
      RegKeepsEarly(s, t);
    } else {
      RegKeepsLate(s, t);
    }
  }

  lemma DerLockKeeps(s: State, t: Thread, x: Sock, id: Id)
    requires IdInv(s) && PcOf(s, t) == DerFree(x, id)
    ensures DerStep(s, t, PcOf(s, t)).Next? ==> IdInv(DerStep(s, t, PcOf(s, t)).s)
  {
    hide LocksOk, RingOk, ThreadsOk, Apart, Covered, Free;
    var o := DerStep(s, t, PcOf(s, t));
    if o.Next? {
      TailWrapped(s);
      TailLockMoves(s, o.s, t, DerTail(x, id));
      QuietStep(s, o.s, t, DerTail(x, id));
    }
  }

  /** The tail index is past the end only while a thread holds the tail lock. */
  lemma TailWrapped(s: State)
    requires IdInv(s) && s.tailLock == None
    ensures s.tail < s.max
  {
    hide Free, Apart, Covered, ThreadsOk, LocksOk, Carries;
  }

  lemma DerKeeps(s: State, t: Thread)
    requires IdInv(s) && PcOf(s, t) != Idle && !InReg(PcOf(s, t))
    ensures DerStep(s, t, PcOf(s, t)) != Crash
    ensures DerStep(s, t, PcOf(s, t)).Next? ==> IdInv(DerStep(s, t, PcOf(s, t)).s)
  {
    hide IdInv, Free;
    var o := DerStep(s, t, PcOf(s, t));
    IndexFacts(s, t);
    match PcOf(s, t)
    case DerFree(x, id) => DerLockKeeps(s, t, x, id);
    case DerTail(x, id) => PutStep(s, o.s, t, x, id);
    case DerWritten(x) => ZeroStep(s, o.s, t, x, if s.tail == s.max then 0 else s.tail);
    case DerDone(x) => EndStep(s, o.s, t, x);
  }

  lemma BeginKeeps(s: State, c: Choice)
    requires IdInv(s) && PcOf(s, c.t) == Idle
    ensures (Begin(s, c) == Crash <==> Astray(s, c)) && (Begin(s, c).Next? ==> IdInv(Begin(s, c).s))
  {
    hide IdInv;
    match c.call
    case Register(x, garbage) =>
      if Begin(s, c).Next? { BeginRegister(s, Begin(s, c).s, c.t, x, garbage); }
    case Remove(x) =>
      if Begin(s, c).Next? { BeginRemove(s, Begin(s, c).s, c.t, x); }
  }

  /**
   * Any step of any thread keeps the invariant of the ids; no index leaves its array but that of an astray removal, and
   * no socket is written that is not there but by a dangling registration.
   */
  lemma {:induction false} StepKeeps(s: State, c: Choice)
    requires IdInv(s)
    ensures (Step(s, c) == Crash <==> Astray(s, c) || Dangling(s, c)) && (Step(s, c).Next? ==> IdInv(Step(s, c).s))
  {
    hide IdInv, Begin, RegStep, DerStep;
    var pc := PcOf(s, c.t);
    if pc == Idle {
      BeginKeeps(s, c);
    } else if InReg(pc) {
      RegKeeps(s, c.t);
    } else {
      DerKeeps(s, c.t);
    }
  }

  lemma {:induction false} RunKeeps(max: nat, cs: seq<Choice>)
    requires max > 0
    ensures Run(Init(max), cs).Next? ==> IdInv(Run(Init(max), cs).s)
    ensures AllCareful(Init(max), cs) ==> Run(Init(max), cs).Next? && SockInv(Run(Init(max), cs).s)
  {
    hide IdInv, SockInv, Step, Careful, Astray, Dangling;
    if cs == [] {
      InitInv(max);
    } else {
      RunKeeps(max, cs[..|cs| - 1]);
      var r, c := Run(Init(max), cs[..|cs| - 1]), cs[|cs| - 1];
      if r.Next? {
        StepKeeps(r.s, c);
        if AllCareful(Init(max), cs) { StepKeepsSocks(r.s, c); }
      }
    }
  }

  /** An id is in exactly one place: with a socket, in the ring, or with one thread. */
  ghost predicate InOnePlace(s: State, id: Id) {
    && (id in s.sockets || id in Free(s) || InFlight(s, id))
    && !(id in s.sockets && id in Free(s))
    && (InFlight(s, id) ==> id !in s.sockets && id !in Free(s))
    && (forall t: Thread, u: Thread :: Held(PcOf(s, t)) == Some(id) && Held(PcOf(s, u)) == Some(id) ==> t == u)
  }

  lemma OnePlace(s: State, id: Id)
    requires IdInv(s)
    ensures Issued(s, id) <==> InOnePlace(s, id)
  {
    hide Free, RingOk, LocksOk, AsksOk;
    assert forall t: Thread :: HeldOk(s, PcOf(s, t));
    assert forall t: Thread, u: Thread :: t != u && Held(PcOf(s, t)).Some? ==> Held(PcOf(s, t)) != Held(PcOf(s, u));
  }

  /**
   * In every run the ids issued so far are those registered, those free and those in flight, each in one place; the
   * free ones are in the ring, with a zero behind them, in the order in which they were freed.
   */
  lemma {:induction false} IdsArePartitioned(max: nat, cs: seq<Choice>)
    requires max > 0 && Run(Init(max), cs).Next?
    ensures var s := Run(Init(max), cs).s;
      && (forall id :: Issued(s, id) <==> InOnePlace(s, id))
      && s.freed == s.reused + Free(s) && Carries(s.slots, s.head, Free(s)) && |s.slots| == max
  {
    hide Run, Init, Step;
    RunKeeps(max, cs);
    RunMax(max, cs);
    ReachedPartition(Run(Init(max), cs).s);
  }

  lemma ReachedPartition(s: State)
    requires IdInv(s)
    ensures forall id :: Issued(s, id) <==> InOnePlace(s, id)
    ensures s.freed == s.reused + Free(s) && Carries(s.slots, s.head, Free(s)) && |s.slots| == s.max
  {
    hide InOnePlace, Carries, Issued, ThreadsOk, Apart, Covered, LocksOk;
    forall id ensures Issued(s, id) <==> InOnePlace(s, id) {
      OnePlace(s, id);
    }
    assert s.freed == s.freed[..|s.reused|] + s.freed[|s.reused|..];
  }

  /**
   * As long as no socket is removed before the call that opens it has stored its id, no index leaves its array, no
   * socket is written that is not there, and open sockets carry the id under which the array holds them, so that no two
   * share one.
   */
  lemma {:induction false} OpenSocketsCarryTheirIds(max: nat, cs: seq<Choice>)
    requires max > 0 && AllCareful(Init(max), cs)
    ensures Run(Init(max), cs).Next?
    ensures var s := Run(Init(max), cs).s;
      && (forall id :: id in s.sockets && s.sockets[id] !in s.opening ==>
            s.sockets[id] in s.flags && s.flags[s.sockets[id]] == id)
      && (forall i, j :: i in s.sockets && j in s.sockets && i != j ==> s.sockets[i] != s.sockets[j])
  {
    hide Run, Init, Step, AllCareful;
    RunKeeps(max, cs);
    CarriedIds(Run(Init(max), cs).s);
  }

  lemma CarriedIds(s: State)
    requires SockInv(s)
    ensures forall id :: id in s.sockets && s.sockets[id] !in s.opening ==>
              s.sockets[id] in s.flags && s.flags[s.sockets[id]] == id
    ensures forall i, j :: i in s.sockets && j in s.sockets && i != j ==> s.sockets[i] != s.sockets[j]
  {
    hide SockOk, SocksApart;
  }

  lemma {:induction false} RunMax(max: nat, cs: seq<Choice>)
    ensures Run(Init(max), cs).Next? ==> Run(Init(max), cs).s.max == max
  {
    hide Step;
    if cs != [] {
      RunMax(max, cs[..|cs| - 1]);
      var r := Run(Init(max), cs[..|cs| - 1]);
      if r.Next? { StepMax(r.s, cs[|cs| - 1]); }
    }
  }

  lemma StepMax(s: State, c: Choice)
    ensures Step(s, c).Next? ==> Step(s, c).s.max == s.max
  {
  }

  /** A registration sees an empty ring only when every id is registered or in flight: none is free. */
  lemma FailsOnlyWithoutFreeIds(s: State, t: Thread, x: Sock)
    requires IdInv(s) && PcOf(s, t) == RegHead(x)
    ensures var o := RegStep(s, t, RegHead(x));
      o.Next? && (PcOf(o.s, t) == RegNone(x) <==> Free(s) == []) && s.next == s.max
    ensures Free(s) == [] ==> forall id :: 1 <= id < s.max ==> id in s.sockets || InFlight(s, id)
  {
    hide Free, ThreadsOk, Apart, LocksOk, IdsOk, RingOk;
    HeadFacts(s, t, x);
    assert Free(s) == [] ==> forall id :: Issued(s, id) ==> id in s.sockets || InFlight(s, id);
  }

  lemma HeadFacts(s: State, t: Thread, x: Sock)
    requires IdInv(s) && PcOf(s, t) == RegHead(x)
    ensures s.next == s.max && |s.slots| == s.max > 0
    ensures var head := if s.head == s.max then 0 else s.head;
      head < s.max && (s.slots[head] == 0 <==> Free(s) == [])
  {
    hide Free, Apart, LocksOk, Covered, Carries, TailAt;
    assert AsksOk(s, PcOf(s, t));
    CarriesRoom(s.slots, s.head, Free(s));
    var head := if s.head == s.max then 0 else s.head;
    if s.head == s.max { LazyWrap(s.slots, Free(s)); }
    AtHead(s.slots, head, Free(s));
    assert Free(s) != [] ==> Free(s)[0] in Free(s);
  }
}
