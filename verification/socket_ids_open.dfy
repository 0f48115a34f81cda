/** What holds of the sockets themselves as long as none is removed while it is being opened. */
module SocketIdsOpen {
  import opened SocketIds
  import opened SocketIdsSafety
  import opened Options

  ghost predicate SockThreads(s: State) {
    forall t: Thread :: SockOk(s, PcOf(s, t))
  }

  lemma SocksTogether(s: State, s': State, t: Thread, pc: Pc)
    requires Moves(s, s', t, pc) && SockOk(s', pc) && forall u: Thread :: u != t ==> SockOk(s', PcOf(s, u))
    ensures SockThreads(s')
  {
    hide SockOk;
    forall u: Thread ensures SockOk(s', PcOf(s', u)) {
      MovedPc(s, s', t, pc, u);
    }
  }

  ghost predicate OnlySock(s: State, t: Thread, x: Sock) {
    forall u: Thread :: u != t ==> SockOf(PcOf(s, u)) != Some(x)
  }

  lemma MySock(s: State, t: Thread)
    requires SocksApart(s)
    ensures SockOf(PcOf(s, t)).Some? ==> OnlySock(s, t, SockOf(PcOf(s, t)).value)
  {
  }

  lemma SocksApartStays(s: State, s': State, t: Thread, pc: Pc)
    requires SocksApart(s) && Moves(s, s', t, pc) && (SockOf(pc).Some? ==> OnlySock(s, t, SockOf(pc).value))
    ensures SocksApart(s')
  {
    forall u: Thread, w: Thread | u != w && SockOf(PcOf(s', u)).Some?
      ensures SockOf(PcOf(s', u)) != SockOf(PcOf(s', w))
    {
      MovedPc(s, s', t, pc, u);
      MovedPc(s, s', t, pc, w);
    }
  }

  lemma Split(s: State)
    ensures SockInv(s) <==> SockThreads(s) && SocksApart(s) && SocksOk(s)
  {
  }

  /** A step that leaves the array, the flags and the sockets alone. */
  lemma QuietSocks(s: State, s': State, t: Thread, pc: Pc)
    requires SockInv(s) && Moves(s, s', t, pc) && s'.sockets == s.sockets && s'.flags == s.flags
    requires s'.live == s.live && s'.opening == s.opening && !PcOf(s, t).RegFlag? && !pc.RegFlag?
    requires PcOf(s, t) != Idle && pc != Idle && pc.x == PcOf(s, t).x && InReg(pc) == InReg(PcOf(s, t))
    ensures SockInv(s')
  {
    hide SocksOk, SocksApart;
    assert SocksOk(s') by { assert SocksOk(s); SameSocks(s, s'); }
    Split(s');
    MySock(s, t);
    SocksApartStays(s, s', t, pc);
    assert SockOk(s, PcOf(s, t));
    forall u: Thread | u != t ensures SockOk(s', PcOf(s, u)) {
      assert SockOk(s, PcOf(s, u));
    }
    SocksTogether(s, s', t, pc);
  }

  lemma SameSocks(s: State, s': State)
    requires SocksOk(s) && s'.sockets == s.sockets && s'.flags == s.flags
    requires s'.live == s.live && s'.opening == s.opening && s'.max == s.max
    ensures SocksOk(s')
  {
  }

  lemma RegisterSocks(s: State, t: Thread, x: Sock, garbage: Id)
    requires SockInv(s) && PcOf(s, t) == Idle && Begin(s, Choice(t, Register(x, garbage))).Next?
    ensures SockInv(Begin(s, Choice(t, Register(x, garbage))).s)
  {
    var s' := Begin(s, Choice(t, Register(x, garbage))).s;
    hide SocksApart;
    Split(s');
    forall u: Thread | u != t ensures SockOf(PcOf(s, u)) != Some(x) && SockOk(s', PcOf(s, u)) {
      assert SockOk(s, PcOf(s, u));
    }
    SocksApartStays(s, s', t, RegStart(x));
    SocksTogether(s, s', t, RegStart(x));
  }

  lemma RemoveSocks(s: State, t: Thread, x: Sock)
    requires SockInv(s) && PcOf(s, t) == Idle && x !in s.opening && x in s.flags
    requires s.flags[x] in s.sockets && s.sockets[s.flags[x]] == x
    ensures SockInv(At(s, t, DerFree(x, s.flags[x])).(sockets := s.sockets - {s.flags[x]}))
  {
    var pc := DerFree(x, s.flags[x]);
    var s' := At(s, t, pc).(sockets := s.sockets - {s.flags[x]});
    hide SocksApart;
    Split(s');
    forall u: Thread | u != t ensures SockOf(PcOf(s, u)) != Some(x) && SockOk(s', PcOf(s, u)) {
      assert SockOk(s, PcOf(s, u));
    }
    SocksApartStays(s, s', t, pc);
    SocksTogether(s, s', t, pc);
  }

  lemma StoreSocks(s: State, t: Thread, x: Sock, id: Id)
    requires IdInv(s) && SockInv(s) && PcOf(s, t) == RegStore(x, id)
    ensures SockInv(At(s, t, RegFlag(x, id)).(sockets := s.sockets[id := x], stored := s.stored + {x}))
  {
    hide Free, RingOk, LocksOk, Apart, Covered, AsksOk, SocksApart;
    var s' := At(s, t, RegFlag(x, id)).(sockets := s.sockets[id := x], stored := s.stored + {x});
    Split(s');
    assert HeldOk(s, PcOf(s, t)) && SockOk(s, PcOf(s, t));
    MySock(s, t);
    forall u: Thread | u != t ensures SockOk(s', PcOf(s, u)) {
      assert SockOk(s, PcOf(s, u));
    }
    SocksApartStays(s, s', t, RegFlag(x, id));
    SocksTogether(s, s', t, RegFlag(x, id));
  }

  lemma FlagSocks(s: State, t: Thread, x: Sock, id: Id)
    requires SockInv(s) && PcOf(s, t) == RegFlag(x, id) && id < s.max
    ensures SockInv(At(s, t, Idle).(flags := s.flags[x := id], opening := s.opening - {x}))
  {
    hide SocksApart;
    var s' := At(s, t, Idle).(flags := s.flags[x := id], opening := s.opening - {x});
    Split(s');
    assert SockOk(s, PcOf(s, t));
    MySock(s, t);
    forall u: Thread | u != t ensures SockOk(s', PcOf(s, u)) {
      assert SockOk(s, PcOf(s, u));
    }
    SocksApartStays(s, s', t, Idle);
    SocksTogether(s, s', t, Idle);
  }

  /** A failed registration or the end of a removal: the socket goes. */
  lemma EndSocks(s: State, s': State, t: Thread, x: Sock)
    requires SockInv(s) && SockOf(PcOf(s, t)) == Some(x) && !PcOf(s, t).RegFlag? && Moves(s, s', t, Idle)
    requires s'.sockets == s.sockets && s'.live == s.live - {x} && s'.opening == s.opening - {x}
    requires s'.flags == (if InReg(PcOf(s, t)) then s.flags - {x} else s.flags)
    ensures SockInv(s')
  {
    hide SocksApart;
    Split(s');
    assert SockOk(s, PcOf(s, t));
    MySock(s, t);
    forall u: Thread | u != t ensures SockOk(s', PcOf(s, u)) {
      assert SockOk(s, PcOf(s, u));
    }
    SocksApartStays(s, s', t, Idle);
    SocksTogether(s, s', t, Idle);
  }

  lemma StoredId(s: State, t: Thread)
    requires IdInv(s) && SockInv(s) && PcOf(s, t).RegFlag?
    ensures PcOf(s, t).id < s.max
  {
    hide Free, RingOk, LocksOk, Apart, Covered, AsksOk, SocksApart, HeldOk;
    assert SockOk(s, PcOf(s, t));
  }

  lemma RegSocks(s: State, t: Thread)
    requires IdInv(s) && SockInv(s) && InReg(PcOf(s, t)) && RegStep(s, t, PcOf(s, t)).Next?
    ensures SockInv(RegStep(s, t, PcOf(s, t)).s)
  {
    hide IdInv, SockInv;
    var s' := RegStep(s, t, PcOf(s, t)).s;
    match PcOf(s, t)
    case RegStore(x, id) => StoreSocks(s, t, x, id);
    case RegFlag(x, id) =>
      StoredId(s, t);
      FlagSocks(s, t, x, id);
    case RegNone(x) => EndSocks(s, s', t, x);
    case _ => QuietSocks(s, s', t, PcOf(s', t));
  }

  lemma DerSocks(s: State, t: Thread)
    requires SockInv(s) && PcOf(s, t) != Idle && !InReg(PcOf(s, t)) && DerStep(s, t, PcOf(s, t)).Next?
    ensures SockInv(DerStep(s, t, PcOf(s, t)).s)
  {
    hide IdInv, SockInv;
    var s' := DerStep(s, t, PcOf(s, t)).s;
    match PcOf(s, t)
    case DerDone(x) =>
      NotOpening(s, t, x);
      EndSocks(s, s', t, x);
    case _ => QuietSocks(s, s', t, PcOf(s', t));
  }

  lemma NotOpening(s: State, t: Thread, x: Sock)
    requires SockInv(s) && PcOf(s, t) == DerDone(x)
    ensures s.opening - {x} == s.opening
  {
    hide SocksApart, SocksOk;
    assert SockOk(s, PcOf(s, t));
  }

  /** The socket that a thread works on is allocated. */
  lemma WorksOnLive(s: State, t: Thread)
    requires SockInv(s) && PcOf(s, t) != Idle
    ensures PcOf(s, t).x in s.live
  {
    hide SocksApart, SocksOk;
    assert SockOk(s, PcOf(s, t));
  }

  /** The flags of an open socket are an index of the array. */
  lemma FlagInRange(s: State, x: Sock)
    requires SockInv(s) && x in s.flags && x !in s.opening
    ensures s.flags[x] < s.max
  {
    hide SockOk, SocksApart;
  }

  /**
   * As long as removals are careful, every step keeps what open sockets carry, the index of every removal is sound, and
   * every registration writes the flags of a socket that is still there.
   */
  lemma {:induction false} StepKeepsSocks(s: State, c: Choice)
    requires IdInv(s) && SockInv(s) && Careful(s, c)
    ensures !Astray(s, c) && !Dangling(s, c) && (Step(s, c).Next? ==> SockInv(Step(s, c).s))
  {
    hide IdInv, SockInv, RegStep, DerStep, InReg;
    if PcOf(s, c.t) != Idle { WorksOnLive(s, c.t); }
    var pc := PcOf(s, c.t);
    if pc == Idle {
      match c.call
      case Register(x, garbage) =>
        if Step(s, c).Next? { RegisterSocks(s, c.t, x, garbage); }
      case Remove(x) =>
        if Removes(s, c) {
          FlagInRange(s, x);
          if s.flags[x] in s.sockets && s.sockets[s.flags[x]] == x { RemoveSocks(s, c.t, x); }
        }
    } else if InReg(pc) {
      if Step(s, c).Next? { RegSocks(s, c.t); }
    } else {
      if Step(s, c).Next? { DerSocks(s, c.t); }
    }
  }
}
