/**
 * Registration of sockets as interleaved steps: every access to the shared id counter, the socket array and the ring of
 * free ids is a step of its own.
 */
module SocketIds {
  import opened IdRing
  import opened Options

  type Thread = nat
  /** The address of a socket structure. */
  type Sock = nat
  type Id = nat

  /** Where a thread is in `_socket_reg` or `_socket_dereg`. */
  datatype Pc =
    | Idle
    | RegStart(x: Sock)
    | RegTry(x: Sock)
    | RegReuse(x: Sock)
    | RegHead(x: Sock)
    | RegNone(x: Sock)
    | RegSeen(x: Sock, id: Id)
    | RegTaken(x: Sock, id: Id)
    | RegStore(x: Sock, id: Id)
    | RegFlag(x: Sock, id: Id)
    | DerFree(x: Sock, id: Id)
    | DerTail(x: Sock, id: Id)
    | DerWritten(x: Sock)
    | DerDone(x: Sock)

  /**
   * The shared variables: `_id`, the entries of `_socket` that are not NULL, the id in the flags of each socket, the
   * ring with its two indices and two locks. Then which sockets are allocated, which of them are still being opened,
   * which were put into the array since they were allocated, so that other threads may have their address, and the ids
   * that went into the ring and came out of it so far.
   */
  datatype State = State(
    max: nat, next: Id, sockets: map<Id, Sock>, flags: map<Sock, Id>,
    slots: seq<nat>, head: nat, tail: nat, headLock: Option<Thread>, tailLock: Option<Thread>,
    live: set<Sock>, opening: set<Sock>, stored: set<Sock>, freed: seq<Id>, reused: seq<Id>,
    pcs: map<Thread, Pc>)

  function PcOf(s: State, t: Thread): Pc {
    if t in s.pcs then s.pcs[t] else Idle
  }

  function At(s: State, t: Thread, pc: Pc): State {
    s.(pcs := s.pcs[t := pc])
  }

  /** A crash is an index outside its array, or a write to a socket that is not allocated. */
  datatype Outcome = Next(s: State) | Blocked | Crash

  /** An idle thread registers a newly allocated socket, whose flags hold anything, or removes a socket. */
  datatype Call = Register(x: Sock, garbage: Id) | Remove(x: Sock)

  datatype Choice = Choice(t: Thread, call: Call)

  /**
   * The removal from the array happens with the call: only if the array holds this very socket under the id in its
   * flags. Anyone who found a socket in the array may remove it, even before its registration has stored that id in the
   * flags; what they hold until then may be no index of the array.
   */
  function Begin(s: State, c: Choice): Outcome {
    match c.call
    case Register(x, garbage) =>
      if x in s.live then Blocked
      else Next(At(s, c.t, RegStart(x))
                .(live := s.live + {x}, opening := s.opening + {x}, stored := s.stored - {x},
                  flags := s.flags[x := garbage]))
    case Remove(x) =>
      if x !in s.stored || x !in s.flags then Blocked
      else if s.flags[x] >= s.max then Crash
      else if s.flags[x] in s.sockets && s.sockets[s.flags[x]] == x then
        Next(At(s, c.t, DerFree(x, s.flags[x])).(sockets := s.sockets - {s.flags[x]}))
      else Next(s)
  }

  /** `_socket_reg` */
  function RegStep(s: State, t: Thread, pc: Pc): Outcome {
    match pc
    case RegStart(x) => Next(At(s, t, if s.next < s.max then RegTry(x) else RegReuse(x)))
    case RegTry(x) =>
      if s.next < s.max then Next(At(s, t, RegStore(x, s.next)).(next := s.next + 1))
      else Next(At(s, t, RegReuse(x)))
    case RegReuse(x) =>
      if s.headLock == None then Next(At(s, t, RegHead(x)).(headLock := Some(t))) else Blocked
    case RegHead(x) =>
      var head := if s.head == s.max then 0 else s.head;
      if head < |s.slots| then
        Next(At(s, t, if s.slots[head] == 0 then RegNone(x) else RegSeen(x, s.slots[head])).(head := head))
      else Crash
    case RegSeen(x, id) =>
      if s.head < |s.slots| then
        Next(At(s, t, RegTaken(x, id))
             .(slots := s.slots[s.head := 0], head := s.head + 1, reused := s.reused + [id]))
      else Crash
    case RegNone(x) =>
      Next(At(s, t, Idle)
           .(headLock := None, live := s.live - {x}, opening := s.opening - {x}, flags := s.flags - {x}))
    case RegTaken(x, id) => Next(At(s, t, RegStore(x, id)).(headLock := None))
    case RegStore(x, id) =>
      if id < s.max then Next(At(s, t, RegFlag(x, id)).(sockets := s.sockets[id := x], stored := s.stored + {x}))
      else Crash
    case RegFlag(x, id) =>
      if x in s.live then Next(At(s, t, Idle).(flags := s.flags[x := id], opening := s.opening - {x}))
      else Crash
    case _ => Blocked
  }

  /** The rest of `_socket_dereg`, and the end of the socket. */
  function DerStep(s: State, t: Thread, pc: Pc): Outcome {
    match pc
    case DerFree(x, id) =>
      if s.tailLock == None then Next(At(s, t, DerTail(x, id)).(tailLock := Some(t))) else Blocked
    case DerTail(x, id) =>
      if s.tail < |s.slots| then
        Next(At(s, t, DerWritten(x)).(slots := s.slots[s.tail := id], tail := s.tail + 1, freed := s.freed + [id]))
      else Crash
    case DerWritten(x) =>
      var tail := if s.tail == s.max then 0 else s.tail;
      if tail < |s.slots| then Next(At(s, t, DerDone(x)).(slots := s.slots[tail := 0], tail := tail)) else Crash
    case DerDone(x) => Next(At(s, t, Idle).(tailLock := None, live := s.live - {x}))
    case _ => Blocked
  }

  predicate InReg(pc: Pc) {
    pc.RegStart? || pc.RegTry? || pc.RegReuse? || pc.RegHead? || pc.RegNone? || pc.RegSeen? || pc.RegTaken? ||
    pc.RegStore? || pc.RegFlag?
  }

  function Step(s: State, c: Choice): Outcome {
    var pc := PcOf(s, c.t);
    if pc == Idle then Begin(s, c) else if InReg(pc) then RegStep(s, c.t, pc) else DerStep(s, c.t, pc)
  }

  function Init(max: nat): State {
    State(max, 1, map[], map[], seq(max, _ => 0), 0, 0, None, None, {}, {}, {}, [], [], map[])
  }

  function Run(s: State, cs: seq<Choice>): Outcome {
    if cs == [] then Next(s)
    else
      match Run(s, cs[..|cs| - 1])
      case Next(r) => (match Step(r, cs[|cs| - 1]) case Blocked => Next(r) case o => o)
      case o => o
  }

  // What every step keeps.

  /** The free ids: those that went into the ring and have not come out yet. */
  function Free(s: State): seq<Id> {
    if |s.reused| <= |s.freed| then s.freed[|s.reused|..] else []
  }

  /** The id that a thread holds and that is neither in the array nor in the ring. */
  function Held(pc: Pc): Option<Id> {
    match pc
    case RegTaken(_, id) => Some(id)
    case RegStore(_, id) => Some(id)
    case DerFree(_, id) => Some(id)
    case DerTail(_, id) => Some(id)
    case _ => None
  }

  /** The socket that a thread works on. */
  function SockOf(pc: Pc): Option<Sock> {
    if pc == Idle then None else Some(pc.x)
  }

  predicate HoldsHead(pc: Pc) {
    pc.RegHead? || pc.RegNone? || pc.RegSeen? || pc.RegTaken?
  }

  predicate HoldsTail(pc: Pc) {
    pc.DerTail? || pc.DerWritten? || pc.DerDone?
  }

  ghost predicate LocksOk(s: State) {
    forall t: Thread ::
      (HoldsHead(PcOf(s, t)) <==> s.headLock == Some(t)) && (HoldsTail(PcOf(s, t)) <==> s.tailLock == Some(t))
  }

  /** First in, first out: what came out is the beginning of what went in, and the ring carries the rest. */
  ghost predicate RingOk(s: State) {
    && |s.slots| == s.max && |s.reused| <= |s.freed| && s.freed[..|s.reused|] == s.reused
    && Carries(s.slots, s.head, Free(s))
    && s.tail <= s.max
    && (s.tail == s.max ==> s.tailLock.Some? && PcOf(s, s.tailLock.value).DerWritten?)
    && TailAt(s.max, s.head, if s.tail == s.max then 0 else s.tail, Free(s))
  }

  ghost predicate Issued(s: State, id: Id) {
    1 <= id < s.next
  }

  /** Registered and free ids are issued ones, no id is both, and none is free twice. */
  ghost predicate IdsOk(s: State) {
    && 1 <= s.next <= s.max
    && (forall id :: id in s.sockets ==> Issued(s, id) && id !in Free(s))
    && (forall id :: id in Free(s) ==> Issued(s, id))
    && (forall i, j :: 0 <= i < j < |Free(s)| ==> Free(s)[i] != Free(s)[j])
  }

  ghost predicate HeldOk(s: State, pc: Pc) {
    Held(pc).Some? ==> Issued(s, Held(pc).value) && Held(pc).value !in s.sockets && Held(pc).value !in Free(s)
  }

  ghost predicate AsksOk(s: State, pc: Pc) {
    && (pc.RegReuse? || HoldsHead(pc) ==> s.next == s.max)
    && (pc.RegSeen? ==> Free(s) != [] && Free(s)[0] == pc.id && s.head < s.max)
  }

  ghost predicate ThreadsOk(s: State) {
    forall t: Thread :: HeldOk(s, PcOf(s, t)) && AsksOk(s, PcOf(s, t))
  }

  /** No two threads hold the same id. */
  ghost predicate Apart(s: State) {
    forall t: Thread, u: Thread :: t != u && Held(PcOf(s, t)).Some? ==> Held(PcOf(s, t)) != Held(PcOf(s, u))
  }

  ghost predicate InFlight(s: State, id: Id) {
    exists t: Thread :: Held(PcOf(s, t)) == Some(id)
  }

  /** Every issued id is registered, free or in flight. */
  ghost predicate Covered(s: State) {
    forall id :: Issued(s, id) ==> id in s.sockets || id in Free(s) || InFlight(s, id)
  }

  /** What holds of the ids in every run. */
  ghost predicate IdInv(s: State) {
    LocksOk(s) && RingOk(s) && IdsOk(s) && ThreadsOk(s) && Apart(s) && Covered(s)
  }

  // What every step keeps as long as no socket is removed while it is being opened.

  ghost predicate SockOk(s: State, pc: Pc) {
    SockOf(pc).Some? ==>
      && pc.x in s.live && (InReg(pc) <==> pc.x in s.opening)
      && if pc.RegFlag? then pc.id in s.sockets && s.sockets[pc.id] == pc.x
         else forall id :: id in s.sockets ==> s.sockets[id] != pc.x
  }

  /** Registered sockets are allocated and different, and carry their id once they are open. */
  ghost predicate SocksOk(s: State) {
    && (forall id :: id in s.sockets ==> s.sockets[id] in s.live)
    && (forall i, j :: i in s.sockets && j in s.sockets && i != j ==> s.sockets[i] != s.sockets[j])
    && (forall id :: id in s.sockets && s.sockets[id] !in s.opening ==>
          s.sockets[id] in s.flags && s.flags[s.sockets[id]] == id)
    && (forall x :: x in s.flags && x !in s.opening ==> s.flags[x] < s.max)
    && s.opening <= s.live
  }

  /** No two threads work on the same socket. */
  ghost predicate SocksApart(s: State) {
    forall t: Thread, u: Thread :: t != u && SockOf(PcOf(s, t)).Some? ==> SockOf(PcOf(s, t)) != SockOf(PcOf(s, u))
  }

  ghost predicate SockInv(s: State) {
    (forall t: Thread :: SockOk(s, PcOf(s, t))) && SocksApart(s) && SocksOk(s)
  }

  /** A thread removes a socket that it may have found in the array. */
  predicate Removes(s: State, c: Choice) {
    PcOf(s, c.t) == Idle && c.call.Remove? && c.call.x in s.stored && c.call.x in s.flags
  }

  /** A removal that would index the array by what the flags of a new socket happen to hold. */
  predicate Astray(s: State, c: Choice) {
    Removes(s, c) && s.flags[c.call.x] >= s.max
  }

  /** A registration that would write the flags of a socket that is no longer allocated. */
  predicate Dangling(s: State, c: Choice) {
    PcOf(s, c.t).RegFlag? && PcOf(s, c.t).x !in s.live
  }

  /** The socket to be removed is open: the call that opened it has stored its id. */
  predicate Careful(s: State, c: Choice) {
    Removes(s, c) ==> c.call.x !in s.opening
  }

  ghost predicate AllCareful(s: State, cs: seq<Choice>) {
    cs == [] ||
    (AllCareful(s, cs[..|cs| - 1]) &&
     (Run(s, cs[..|cs| - 1]).Next? ==> Careful(Run(s, cs[..|cs| - 1]).s, cs[|cs| - 1])))
  }
}
