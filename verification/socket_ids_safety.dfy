/** What every step of registering and removing sockets keeps. */
module SocketIdsSafety {
  import opened IdRing
  import opened SocketIds
  import opened Options

  ghost predicate Moves(s: State, s': State, t: Thread, pc: Pc) {
    s'.pcs == s.pcs[t := pc] && s'.max == s.max
  }

  lemma MovedPc(s: State, s': State, t: Thread, pc: Pc, u: Thread)
    requires Moves(s, s', t, pc)
    ensures PcOf(s', u) == if u == t then pc else PcOf(s, u)
  {
  }

  // Locks.

  lemma LocksStay(s: State, s': State, t: Thread, pc: Pc)
    requires LocksOk(s) && Moves(s, s', t, pc) && s'.headLock == s.headLock && s'.tailLock == s.tailLock
    requires HoldsHead(pc) == HoldsHead(PcOf(s, t)) && HoldsTail(pc) == HoldsTail(PcOf(s, t))
    ensures LocksOk(s')
  {
    forall u: Thread
      ensures HoldsHead(PcOf(s', u)) <==> s'.headLock == Some(u)
      ensures HoldsTail(PcOf(s', u)) <==> s'.tailLock == Some(u)
    {
      MovedPc(s, s', t, pc, u);
    }
  }

  lemma HeadLockMoves(s: State, s': State, t: Thread, pc: Pc)
    requires LocksOk(s) && Moves(s, s', t, pc) && s'.tailLock == s.tailLock
    requires s.headLock == None || s.headLock == Some(t)
    requires s'.headLock == (if HoldsHead(pc) then Some(t) else None) && HoldsTail(pc) == HoldsTail(PcOf(s, t))
    ensures LocksOk(s')
  {
    forall u: Thread
      ensures HoldsHead(PcOf(s', u)) <==> s'.headLock == Some(u)
      ensures HoldsTail(PcOf(s', u)) <==> s'.tailLock == Some(u)
    {
      MovedPc(s, s', t, pc, u);
      assert HoldsHead(PcOf(s, u)) <==> s.headLock == Some(u);
    }
  }

  lemma TailLockMoves(s: State, s': State, t: Thread, pc: Pc)
    requires LocksOk(s) && Moves(s, s', t, pc) && s'.headLock == s.headLock
    requires s.tailLock == None || s.tailLock == Some(t)
    requires s'.tailLock == (if HoldsTail(pc) then Some(t) else None) && HoldsHead(pc) == HoldsHead(PcOf(s, t))
    ensures LocksOk(s')
  {
    forall u: Thread
      ensures HoldsHead(PcOf(s', u)) <==> s'.headLock == Some(u)
      ensures HoldsTail(PcOf(s', u)) <==> s'.tailLock == Some(u)
    {
      MovedPc(s, s', t, pc, u);
      assert HoldsTail(PcOf(s, u)) <==> s.tailLock == Some(u);
    }
  }

  // Facts about the other threads.

  ghost predicate OnlyHead(s: State, t: Thread) {
    forall u: Thread :: u != t ==> !HoldsHead(PcOf(s, u))
  }

  ghost predicate OnlyId(s: State, t: Thread, id: Id) {
    forall u: Thread :: u != t ==> Held(PcOf(s, u)) != Some(id)
  }

  lemma HeadIsMine(s: State, t: Thread)
    requires LocksOk(s) && HoldsHead(PcOf(s, t))
    ensures OnlyHead(s, t)
  {
    assert s.headLock == Some(t);
  }

  lemma Mine(s: State, t: Thread)
    requires Apart(s)
    ensures Held(PcOf(s, t)).Some? ==> OnlyId(s, t, Held(PcOf(s, t)).value)
  {
  }

  lemma ApartStays(s: State, s': State, t: Thread, pc: Pc)
    requires Apart(s) && Moves(s, s', t, pc)
    requires Held(pc).Some? ==> OnlyId(s, t, Held(pc).value)
    ensures Apart(s')
  {
    forall u: Thread, w: Thread | u != w
      ensures Held(PcOf(s', u)).Some? ==> Held(PcOf(s', u)) != Held(PcOf(s', w))
    {
      MovedPc(s, s', t, pc, u);
      MovedPc(s, s', t, pc, w);
    }
  }

  ghost predicate ThreadOk(s: State, pc: Pc) {
    HeldOk(s, pc) && AsksOk(s, pc)
  }

  lemma ThreadsTogether(s: State, s': State, t: Thread, pc: Pc)
    requires Moves(s, s', t, pc) && ThreadOk(s', pc)
    requires forall u: Thread :: u != t ==> ThreadOk(s', PcOf(s, u))
    ensures ThreadsOk(s')
  {
    hide HeldOk, AsksOk;
    forall u: Thread ensures HeldOk(s', PcOf(s', u)) && AsksOk(s', PcOf(s', u)) {
      MovedPc(s, s', t, pc, u);
      assert u != t ==> ThreadOk(s', PcOf(s, u));
    }
  }

  lemma SameFree(s: State, s': State)
    requires s'.freed == s.freed && s'.reused == s.reused
    ensures Free(s') == Free(s)
  {
  }

  // Every issued id stays somewhere.

  ghost predicate Somewhere(s: State, pc: Pc, id: Id) {
    id in s.sockets || id in Free(s) || Held(pc) == Some(id)
  }

  lemma CoveredStays(s: State, s': State, t: Thread, pc: Pc)
    requires Covered(s) && Moves(s, s', t, pc)
    requires forall id :: Issued(s', id) && (!Issued(s, id) || Somewhere(s, PcOf(s, t), id)) ==> Somewhere(s', pc, id)
    ensures Covered(s')
  {
    hide Free;
    forall id | Issued(s', id) ensures id in s'.sockets || id in Free(s') || InFlight(s', id) {
      MovedPc(s, s', t, pc, t);
      if !Issued(s, id) || Somewhere(s, PcOf(s, t), id) {
        assert Somewhere(s', pc, id);
        assert Held(PcOf(s', t)) == Some(id) ==> InFlight(s', id);
      } else {
        var u: Thread :| Held(PcOf(s, u)) == Some(id);
        MovedPc(s, s', t, pc, u);
        assert Held(PcOf(s', u)) == Some(id);
      }
    }
  }

  // The ring.

  lemma RingStays(s: State, s': State, t: Thread, pc: Pc)
    requires RingOk(s) && Moves(s, s', t, pc)
    requires s'.slots == s.slots && s'.head == s.head && s'.tail == s.tail
    requires s'.freed == s.freed && s'.reused == s.reused
    requires !PcOf(s, t).DerWritten? && !pc.DerWritten? && (s'.tailLock == s.tailLock || s.tail < s.max)
    ensures RingOk(s') && Free(s') == Free(s)
  {
    if s.tail == s.max { MovedPc(s, s', t, pc, s.tailLock.value); }
  }

  /** A step that changes only the place of a thread and the locks. */
  lemma QuietStep(s: State, s': State, t: Thread, pc: Pc)
    requires IdInv(s) && Moves(s, s', t, pc) && LocksOk(s') && (s'.tailLock == s.tailLock || s.tail < s.max)
    requires s'.slots == s.slots && s'.head == s.head && s'.tail == s.tail && s'.next == s.next
    requires s'.freed == s.freed && s'.reused == s.reused && s'.sockets == s.sockets
    requires !PcOf(s, t).DerWritten? && !pc.DerWritten?
    requires Held(pc) == Held(PcOf(s, t)) && AsksOk(s, pc)
    ensures IdInv(s')
  {
    hide Carries, Free, TailAt, LocksOk, RingOk;
    RingStays(s, s', t, pc);
    Mine(s, t);
    ApartStays(s, s', t, pc);
    CoveredStays(s, s', t, pc);
    assert forall u: Thread :: ThreadOk(s, PcOf(s, u));
    assert forall u: Thread :: ThreadOk(s', PcOf(s, u));
    ThreadsTogether(s, s', t, pc);
  }

  // Registration of a new socket begins.

  lemma BeginRegister(s: State, s': State, t: Thread, x: Sock, garbage: Id)
    requires IdInv(s) && PcOf(s, t) == Idle && Begin(s, Choice(t, Register(x, garbage))) == Next(s')
    ensures s' != s ==> IdInv(s')
  {
    hide Carries, Free, TailAt, RingOk;
    var pc := RegStart(x);
    LocksStay(s, s', t, pc);
    RingStays(s, s', t, pc);
    ApartStays(s, s', t, pc);
    CoveredStays(s, s', t, pc);
    forall u: Thread | u != t ensures ThreadOk(s', PcOf(s, u)) {
      assert ThreadOk(s, PcOf(s, u));
    }
    ThreadsTogether(s, s', t, pc);
  }

  // A socket leaves the array.

  lemma RemoveThreads(s: State, s': State, t: Thread, x: Sock, id: Id)
    requires IdInv(s) && PcOf(s, t) == Idle && id in s.sockets
    requires s' == At(s, t, DerFree(x, id)).(sockets := s.sockets - {id})
    ensures ThreadsOk(s')
  {
    hide Free, RingOk, LocksOk;
    SameFree(s, s');
    forall u: Thread | u != t ensures ThreadOk(s', PcOf(s, u)) {
      assert ThreadOk(s, PcOf(s, u));
    }
    ThreadsTogether(s, s', t, DerFree(x, id));
  }

  lemma RemoveAlone(s: State, t: Thread, id: Id)
    requires IdInv(s) && id in s.sockets
    ensures OnlyId(s, t, id)
  {
    hide Free, RingOk, LocksOk, Apart, Covered;
    forall u: Thread | u != t ensures Held(PcOf(s, u)) != Some(id) {
      assert HeldOk(s, PcOf(s, u));
    }
  }

  lemma {:induction false} BeginRemove(s: State, s': State, t: Thread, x: Sock)
    requires IdInv(s) && PcOf(s, t) == Idle && Begin(s, Choice(t, Remove(x))) == Next(s')
    ensures s' != s ==> IdInv(s')
  {
    hide Carries, Free, TailAt, RingOk, ThreadsOk;
    var id := s.flags[x];
    if id in s.sockets && s.sockets[id] == x {
      var pc := DerFree(x, id);
      LocksStay(s, s', t, pc);
      RingStays(s, s', t, pc);
      RemoveAlone(s, t, id);
      ApartStays(s, s', t, pc);
      CoveredStays(s, s', t, pc);
      RemoveThreads(s, s', t, x, id);
    }
  }

  // A new id is issued.

  lemma TakeNewThreads(s: State, s': State, t: Thread, x: Sock)
    requires ThreadsOk(s) && IdsOk(s) && PcOf(s, t) == RegTry(x) && s.next < s.max
    requires s' == At(s, t, RegStore(x, s.next)).(next := s.next + 1)
    ensures ThreadsOk(s') && OnlyId(s, t, s.next)
  {
    hide Free;
    SameFree(s, s');
    assert ThreadOk(s, PcOf(s, t));
    forall u: Thread | u != t ensures ThreadOk(s', PcOf(s, u)) && Held(PcOf(s, u)) != Some(s.next) {
      assert ThreadOk(s, PcOf(s, u));
    }
    ThreadsTogether(s, s', t, RegStore(x, s.next));
  }

  lemma {:induction false} TakeNew(s: State, s': State, t: Thread, x: Sock)
    requires IdInv(s) && PcOf(s, t) == RegTry(x) && s.next < s.max
    requires s' == At(s, t, RegStore(x, s.next)).(next := s.next + 1)
    ensures IdInv(s')
  {
    hide Carries, Free, TailAt, RingOk, ThreadsOk, LocksOk, Apart, Covered;
    var pc := RegStore(x, s.next);
    LocksStay(s, s', t, pc);
    RingStays(s, s', t, pc);
    Mine(s, t);
    TakeNewThreads(s, s', t, x);
    ApartStays(s, s', t, pc);
    CoveredStays(s, s', t, pc);
  }

  // A free id is taken from the ring.

  lemma SeenKnown(s: State, t: Thread, x: Sock, id: Id)
    requires ThreadsOk(s) && PcOf(s, t) == RegSeen(x, id)
    ensures Free(s) != [] && Free(s)[0] == id && s.head < s.max && s.next == s.max
  {
    hide Free, HeldOk;
    assert AsksOk(s, PcOf(s, t));
  }

  /** `_ring[_head_index ++] = 0` */
  lemma PopRing(s: State, s': State, t: Thread, pc: Pc)
    requires RingOk(s) && Moves(s, s', t, pc) && Free(s) != [] && s.head < s.max
    requires s'.slots == s.slots[s.head := 0] && s'.head == s.head + 1 && s'.reused == s.reused + [Free(s)[0]]
    requires s'.tail == s.tail && s'.freed == s.freed && s'.tailLock == s.tailLock
    requires !PcOf(s, t).DerWritten? && !pc.DerWritten?
    ensures RingOk(s') && Free(s') == Free(s)[1..]
  {
    hide Carries, TailAt;
    assert s'.freed[..|s'.reused|] == s.freed[..|s.reused|] + [s.freed[|s.reused|]];
    assert Free(s') == Free(s)[1..];
    CarriesRoom(s.slots, s.head, Free(s));
    Take(s.slots, s.head, Free(s));
    TakeTail(s.max, s.head, if s.tail == s.max then 0 else s.tail, Free(s));
    if s.tail == s.max { MovedPc(s, s', t, pc, s.tailLock.value); }
  }

  lemma CarriesRoom(slots: seq<nat>, head: nat, q: seq<nat>)
    requires Carries(slots, head, q)
    ensures |q| < |slots| && head <= |slots| && 0 !in q
  {
  }

  lemma PopThreads(s: State, s': State, t: Thread, x: Sock, id: Id)
    requires ThreadsOk(s) && IdsOk(s) && PcOf(s, t) == RegSeen(x, id) && OnlyHead(s, t)
    requires Free(s) != [] && Free(s)[0] == id && Free(s') == Free(s)[1..] && s.next == s.max
    requires Moves(s, s', t, RegTaken(x, id)) && s'.next == s.next && s'.sockets == s.sockets
    ensures ThreadsOk(s')
  {
    hide Free;
    assert ThreadOk(s, PcOf(s, t));
    TailDistinct(Free(s), Free(s'));
    assert Free(s)[0] in Free(s);
    forall u: Thread | u != t ensures ThreadOk(s', PcOf(s, u)) {
      assert ThreadOk(s, PcOf(s, u));
    }
    ThreadsTogether(s, s', t, RegTaken(x, id));
  }

  lemma PopIds(s: State, s': State)
    requires IdsOk(s) && Free(s) != [] && Free(s') == Free(s)[1..]
    requires s'.next == s.next && s'.max == s.max && s'.sockets == s.sockets
    ensures IdsOk(s')
  {
    hide Free;
    TailDistinct(Free(s), Free(s'));
  }

  ghost predicate Distinct(q: seq<Id>) {
    forall i, j :: 0 <= i < j < |q| ==> q[i] != q[j]
  }

  lemma TailDistinct(q: seq<Id>, r: seq<Id>)
    requires q != [] && r == q[1..] && Distinct(q)
    ensures Distinct(r) && q[0] !in r && forall x :: x in r ==> x in q
  {
    assert forall i :: 0 <= i < |r| ==> r[i] == q[i + 1];
    forall i, j | 0 <= i < j < |r| ensures r[i] != r[j] {
      assert r[i] == q[i + 1] && r[j] == q[j + 1];
    }
  }

  lemma PopAlone(s: State, t: Thread, id: Id)
    requires ThreadsOk(s) && id in Free(s)
    ensures OnlyId(s, t, id)
  {
    hide Free, AsksOk;
    forall u: Thread | u != t ensures Held(PcOf(s, u)) != Some(id) {
      assert HeldOk(s, PcOf(s, u));
    }
  }

  lemma PopCovered(s: State, s': State, t: Thread, pc: Pc)
    requires Covered(s) && Moves(s, s', t, pc) && Free(s) != [] && Free(s') == Free(s)[1..]
    requires s'.next == s.next && s'.sockets == s.sockets && Held(pc) == Some(Free(s)[0]) && Held(PcOf(s, t)) == None
    ensures Covered(s')
  {
    hide Free;
    assert Free(s) == [Free(s)[0]] + Free(s');
    CoveredStays(s, s', t, pc);
  }

  lemma {:induction false} TakeFree(s: State, s': State, t: Thread, x: Sock, id: Id)
    requires IdInv(s) && PcOf(s, t) == RegSeen(x, id) && RegStep(s, t, PcOf(s, t)) == Next(s')
    ensures IdInv(s')
  {
    hide Carries, Free, TailAt, RingOk, ThreadsOk, LocksOk, Apart, Covered, IdsOk, OnlyHead, OnlyId;
    var pc := RegTaken(x, id);
    SeenKnown(s, t, x, id);
    LocksStay(s, s', t, pc);
    HeadIsMine(s, t);
    Mine(s, t);
    PopRing(s, s', t, pc);
    PopAlone(s, t, id);
    ApartStays(s, s', t, pc);
    PopIds(s, s');
    PopThreads(s, s', t, x, id);
    PopCovered(s, s', t, pc);
  }

  // Into the array, and the flags.

  lemma StoreThreads(s: State, s': State, t: Thread, x: Sock, id: Id)
    requires ThreadsOk(s) && IdsOk(s) && PcOf(s, t) == RegStore(x, id) && OnlyId(s, t, id)
    requires s' == At(s, t, RegFlag(x, id)).(sockets := s.sockets[id := x], stored := s.stored + {x})
    ensures ThreadsOk(s') && IdsOk(s') && 1 <= id < s.max && id !in s.sockets
  {
    hide Free;
    SameFree(s, s');
    assert ThreadOk(s, PcOf(s, t));
    forall u: Thread | u != t ensures ThreadOk(s', PcOf(s, u)) {
      assert ThreadOk(s, PcOf(s, u));
    }
    ThreadsTogether(s, s', t, RegFlag(x, id));
  }

  lemma {:induction false} StoreStep(s: State, s': State, t: Thread, x: Sock, id: Id)
    requires IdInv(s) && PcOf(s, t) == RegStore(x, id)
    requires s' == At(s, t, RegFlag(x, id)).(sockets := s.sockets[id := x], stored := s.stored + {x})
    ensures IdInv(s')
  {
    hide Carries, Free, TailAt, RingOk, ThreadsOk, LocksOk, Apart, Covered, IdsOk, OnlyId;
    var pc := RegFlag(x, id);
    LocksStay(s, s', t, pc);
    RingStays(s, s', t, pc);
    Mine(s, t);
    ApartStays(s, s', t, pc);
    CoveredStays(s, s', t, pc);
    StoreThreads(s, s', t, x, id);
  }

  lemma FlagThreads(s: State, s': State, t: Thread, x: Sock, id: Id)
    requires ThreadsOk(s) && PcOf(s, t) == RegFlag(x, id)
    requires s' == At(s, t, Idle).(flags := s.flags[x := id], opening := s.opening - {x})
    ensures ThreadsOk(s')
  {
    hide Free;
    SameFree(s, s');
    assert ThreadOk(s, PcOf(s, t));
    forall u: Thread | u != t ensures ThreadOk(s', PcOf(s, u)) {
      assert ThreadOk(s, PcOf(s, u));
    }
    ThreadsTogether(s, s', t, Idle);
  }

  lemma FlagStep(s: State, s': State, t: Thread, x: Sock, id: Id)
    requires IdInv(s) && PcOf(s, t) == RegFlag(x, id) && RegStep(s, t, PcOf(s, t)) == Next(s')
    ensures IdInv(s')
  {
    hide Carries, Free, TailAt, RingOk, ThreadsOk, LocksOk, Apart, Covered, OnlyId;
    LocksStay(s, s', t, Idle);
    RingStays(s, s', t, Idle);
    Mine(s, t);
    ApartStays(s, s', t, Idle);
    CoveredStays(s, s', t, Idle);
    FlagThreads(s, s', t, x, id);
  }

  // The head of the ring is read.

  lemma HeadThreads(s: State, s': State, t: Thread, x: Sock, pc: Pc, head: nat)
    requires ThreadsOk(s) && PcOf(s, t) == RegHead(x) && OnlyHead(s, t) && head < s.max
    requires s' == At(s, t, pc).(head := head)
    requires pc == RegNone(x) || (pc.RegSeen? && pc.x == x && Free(s) != [] && Free(s)[0] == pc.id)
    ensures ThreadsOk(s')
  {
    hide Free;
    SameFree(s, s');
    assert ThreadOk(s, PcOf(s, t));
    forall u: Thread | u != t ensures ThreadOk(s', PcOf(s, u)) {
      assert ThreadOk(s, PcOf(s, u));
    }
    ThreadsTogether(s, s', t, pc);
  }

  /** The lazy wrap. */
  lemma HeadRing(s: State, s': State, t: Thread, pc: Pc, head: nat)
    requires RingOk(s) && s.max > 0 && head == (if s.head == s.max then 0 else s.head)
    requires s' == At(s, t, pc).(head := head) && !PcOf(s, t).DerWritten? && !pc.DerWritten?
    ensures RingOk(s') && head < |s.slots| == s.max && s.slots[head] == if Free(s) == [] then 0 else Free(s)[0]
    ensures Free(s) != [] ==> Free(s)[0] != 0
  {
    hide Carries, TailAt, Free;
    SameFree(s, s');
    CarriesRoom(s.slots, s.head, Free(s));
    if s.head == s.max {
      LazyWrap(s.slots, Free(s));
      WrapTail(s.max, if s.tail == s.max then 0 else s.tail, Free(s));
    }
    AtHead(s.slots, head, Free(s));
    if s.tail == s.max { MovedPc(s, s', t, pc, s.tailLock.value); }
  }

  lemma WrapTail(max: nat, tail: nat, q: seq<nat>)
    requires max > 0 && TailAt(max, max, tail, q)
    ensures TailAt(max, 0, tail, q)
  {
  }

  lemma HeadStep(s: State, s': State, t: Thread, x: Sock, pc: Pc, head: nat)
    requires IdInv(s) && PcOf(s, t) == RegHead(x) && head == (if s.head == s.max then 0 else s.head)
    requires head < |s.slots| && pc == if s.slots[head] == 0 then RegNone(x) else RegSeen(x, s.slots[head])
    requires s' == At(s, t, pc).(head := head)
    ensures IdInv(s') && (pc == RegNone(x) ==> Free(s) == [])
  {
    hide Carries, Free, TailAt, RingOk, ThreadsOk, LocksOk, Apart, Covered, OnlyHead, OnlyId;
    SameFree(s, s');
    LocksStay(s, s', t, pc);
    HeadRing(s, s', t, pc, head);
    HeadIsMine(s, t);
    Mine(s, t);
    ApartStays(s, s', t, pc);
    CoveredStays(s, s', t, pc);
    HeadThreads(s, s', t, x, pc, head);
  }

  // A registration fails, or a removal ends: the socket is freed.

  lemma EndThreads(s: State, s': State, t: Thread)
    requires ThreadsOk(s) && Moves(s, s', t, Idle)
    requires s'.sockets == s.sockets && s'.next == s.next && Free(s') == Free(s) && s'.head == s.head
    ensures ThreadsOk(s')
  {
    hide Free;
    assert ThreadOk(s, PcOf(s, t));
    forall u: Thread | u != t ensures ThreadOk(s', PcOf(s, u)) {
      assert ThreadOk(s, PcOf(s, u));
    }
    ThreadsTogether(s, s', t, Idle);
  }

  lemma FailStep(s: State, s': State, t: Thread, x: Sock)
    requires IdInv(s) && PcOf(s, t) == RegNone(x) && RegStep(s, t, PcOf(s, t)) == Next(s')
    ensures IdInv(s')
  {
    hide Carries, Free, TailAt, RingOk, ThreadsOk, LocksOk, Apart, Covered, OnlyId;
    SameFree(s, s');
    HeadOwner(s, t);
    HeadLockMoves(s, s', t, Idle);
    RingStays(s, s', t, Idle);
    Mine(s, t);
    ApartStays(s, s', t, Idle);
    CoveredStays(s, s', t, Idle);
    EndThreads(s, s', t);
  }

  lemma HeadOwner(s: State, t: Thread)
    requires LocksOk(s)
    ensures HoldsHead(PcOf(s, t)) ==> s.headLock == Some(t)
    ensures HoldsTail(PcOf(s, t)) ==> s.tailLock == Some(t)
  {
  }

  // A freed id goes into the ring.

  /** As many different numbers as fit below the next id. */
  lemma {:induction false} Pigeonhole(q: seq<Id>, n: nat)
    requires Distinct(q) && n > 0 && forall x :: x in q ==> 1 <= x < n
    ensures |q| < n
    decreases n
  {
    if q == [] { return; }
    assert q[0] in q;
    if n - 1 in q {
      var k :| 0 <= k < |q| && q[k] == n - 1;
      var r := q[..k] + q[k + 1..];
      forall i | 0 <= i < |r| ensures r[i] in q && r[i] != n - 1 {
        assert r[i] == q[if i < k then i else i + 1];
      }
      forall i, j | 0 <= i < j < |r| ensures r[i] != r[j] {
        assert r[i] == q[if i < k then i else i + 1] && r[j] == q[if j < k then j else j + 1];
      }
      Pigeonhole(r, n - 1);
    } else {
      Pigeonhole(q, n - 1);
    }
  }

  lemma PutDistinct(q: seq<Id>, id: Id)
    requires Distinct(q) && id !in q
    ensures Distinct(q + [id])
  {
  }

  lemma PutRing(s: State, s': State, t: Thread, x: Sock, id: Id)
    requires RingOk(s) && LocksOk(s) && PcOf(s, t) == DerTail(x, id) && id != 0 && |Free(s)| + 1 < s.max
    requires s' == At(s, t, DerWritten(x)).(slots := s.slots[s.tail := id], tail := s.tail + 1, freed := s.freed + [id])
    requires s.tail < |s.slots|
    ensures RingOk(s') && Free(s') == Free(s) + [id]
  {
    hide Carries, TailAt;
    assert s.tailLock == Some(t);
    assert Free(s') == Free(s) + [id];
    CarriesRoom(s.slots, s.head, Free(s));
    Put(s.slots, s.head, s.tail, Free(s), id);
    NextTail(s.max, s.head, s.tail, Free(s), id);
  }

  lemma PutKnown(s: State, t: Thread, x: Sock, id: Id)
    requires ThreadsOk(s) && IdsOk(s) && RingOk(s) && LocksOk(s) && PcOf(s, t) == DerTail(x, id)
    ensures Issued(s, id) && id !in s.sockets && id !in Free(s) && |Free(s)| + 1 < s.max && s.tail < |s.slots|
  {
    hide Free, Carries, TailAt;
    assert s.tailLock == Some(t);
    assert ThreadOk(s, PcOf(s, t));
    PutDistinct(Free(s), id);
    Pigeonhole(Free(s) + [id], s.next);
  }

  lemma PutThreads(s: State, s': State, t: Thread, x: Sock, id: Id)
    requires ThreadsOk(s) && PcOf(s, t) == DerTail(x, id) && OnlyId(s, t, id) && Free(s') == Free(s) + [id]
    requires Moves(s, s', t, DerWritten(x)) && s'.next == s.next && s'.sockets == s.sockets && s'.head == s.head
    ensures ThreadsOk(s')
  {
    hide Free;
    assert ThreadOk(s, PcOf(s, t));
    forall u: Thread | u != t ensures ThreadOk(s', PcOf(s, u)) {
      assert ThreadOk(s, PcOf(s, u));
    }
    ThreadsTogether(s, s', t, DerWritten(x));
  }

  lemma PutIds(s: State, s': State, id: Id)
    requires IdsOk(s) && Free(s') == Free(s) + [id] && Issued(s, id) && id !in s.sockets && id !in Free(s)
    requires s'.next == s.next && s'.max == s.max && s'.sockets == s.sockets
    ensures IdsOk(s')
  {
    hide Free;
    PutDistinct(Free(s), id);
  }

  lemma PutStep(s: State, s': State, t: Thread, x: Sock, id: Id)
    requires IdInv(s) && PcOf(s, t) == DerTail(x, id) && s.tail < |s.slots|
    requires s' == At(s, t, DerWritten(x)).(slots := s.slots[s.tail := id], tail := s.tail + 1, freed := s.freed + [id])
    ensures IdInv(s')
  {
    hide Carries, Free, TailAt, RingOk, ThreadsOk, LocksOk, Apart, Covered, IdsOk, OnlyId;
    var pc := DerWritten(x);
    PutKnown(s, t, x, id);
    LocksStay(s, s', t, pc);
    PutRing(s, s', t, x, id);
    Mine(s, t);
    ApartStays(s, s', t, pc);
    CoveredStays(s, s', t, pc);
    PutThreads(s, s', t, x, id);
    PutIds(s, s', id);
  }

  /** The tail index wraps and a zero is written to a slot that is free anyway. */
  lemma ZeroRing(s: State, s': State, t: Thread, x: Sock, tail: nat)
    requires RingOk(s) && LocksOk(s) && PcOf(s, t) == DerWritten(x) && s.max > 0
    requires tail == (if s.tail == s.max then 0 else s.tail) && tail < |s.slots|
    requires s' == At(s, t, DerDone(x)).(slots := s.slots[tail := 0], tail := tail)
    ensures RingOk(s') && Free(s') == Free(s) && s'.slots == s.slots
  {
    hide Carries;
    SameFree(s, s');
    Terminator(s.slots, s.head, tail, Free(s));
  }

  lemma ZeroThreads(s: State, s': State, t: Thread, x: Sock)
    requires ThreadsOk(s) && PcOf(s, t) == DerWritten(x) && Free(s') == Free(s) && Moves(s, s', t, DerDone(x))
    requires s'.next == s.next && s'.sockets == s.sockets && s'.head == s.head
    ensures ThreadsOk(s')
  {
    hide Free;
    assert ThreadOk(s, PcOf(s, t));
    forall u: Thread | u != t ensures ThreadOk(s', PcOf(s, u)) {
      assert ThreadOk(s, PcOf(s, u));
    }
    ThreadsTogether(s, s', t, DerDone(x));
  }

  lemma ZeroStep(s: State, s': State, t: Thread, x: Sock, tail: nat)
    requires IdInv(s) && PcOf(s, t) == DerWritten(x)
    requires tail == (if s.tail == s.max then 0 else s.tail) && tail < |s.slots|
    requires s' == At(s, t, DerDone(x)).(slots := s.slots[tail := 0], tail := tail)
    ensures IdInv(s')
  {
    hide Carries, Free, TailAt, RingOk, ThreadsOk, LocksOk, Apart, Covered, OnlyId;
    LocksStay(s, s', t, DerDone(x));
    ZeroRing(s, s', t, x, tail);
    Mine(s, t);
    ApartStays(s, s', t, DerDone(x));
    CoveredStays(s, s', t, DerDone(x));
    ZeroThreads(s, s', t, x);
  }

  lemma EndStep(s: State, s': State, t: Thread, x: Sock)
    requires IdInv(s) && PcOf(s, t) == DerDone(x) && DerStep(s, t, PcOf(s, t)) == Next(s')
    ensures IdInv(s')
  {
    hide Carries, Free, TailAt, RingOk, ThreadsOk, LocksOk, Apart, Covered, OnlyId;
    SameFree(s, s');
    HeadOwner(s, t);
    TailLockMoves(s, s', t, Idle);
    EndRing(s, s', t);
    Mine(s, t);
    ApartStays(s, s', t, Idle);
    CoveredStays(s, s', t, Idle);
    EndThreads(s, s', t);
  }

  lemma EndRing(s: State, s': State, t: Thread)
    requires RingOk(s) && LocksOk(s) && PcOf(s, t).DerDone? && Moves(s, s', t, Idle)
    requires s'.slots == s.slots && s'.head == s.head && s'.tail == s.tail
    requires s'.freed == s.freed && s'.reused == s.reused
    ensures RingOk(s')
  {
    hide Carries, TailAt;
    assert s.tailLock == Some(t);
    SameFree(s, s');
  }
}
