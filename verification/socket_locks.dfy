/**
 * Acquiring, releasing and closing sockets as interleaved steps: the read-write lock of the socket array, and the
 * mutex, the condition and the lock state of each socket.
 */
module SocketLocks {
  import opened Options

  type Thread = nat
  type Id = nat
  type Sock = nat

  /**
   * A socket: `_lockstate` (1 free, 0 taken, -1 broken), the owner of the mutex that protects it, the id in `_flags`.
   */
  datatype Sem = Sem(state: int, owner: Option<Thread>, id: Id)

  datatype Pc =
    | Idle
    // socket_acquire
    | AcqStart(id: Id)
    | AcqRead(id: Id)
    | AcqLock(x: Sock)
    | AcqCheck(x: Sock)
    | AcqWait(x: Sock)
    | AcqTaken(x: Sock)
    | AcqBroken(x: Sock)
    | AcqLeave(r: Option<Sock>)
    // socket_release
    | RelLock(x: Sock)
    | RelAdd(x: Sock)
    | RelDone(x: Sock)
    | RelSignal(x: Sock)
    // socket_close
    | CloseStart(x: Sock)
    | CloseArray(x: Sock)
    | CloseLeave(r: Option<Sock>)
    | CloseLock(x: Sock)
    | CloseCheck(x: Sock)
    | CloseWait(x: Sock)
    | CloseTaken(x: Sock)
    | CloseBroken(x: Sock)
    | BreakLock(x: Sock)
    | BreakSet(x: Sock)
    | BreakDone(x: Sock)
    | BreakSignal(x: Sock)
    | Destroy(x: Sock)

  /**
   * The array, the read-write lock around it, the sockets in memory, those that were ever opened and those that were
   * destroyed, and the sockets that threads have acquired and keep between their calls. Addresses of sockets are not
   * given out twice.
   */
  datatype State = State(
    table: map<Id, Sock>, readers: set<Thread>, writer: Option<Thread>,
    mem: map<Sock, Sem>, ever: set<Sock>, gone: set<Sock>, owned: map<Sock, Thread>,
    pcs: map<Thread, Pc>)

  predicate Has(s: State, t: Thread, x: Sock) {
    x in s.owned && s.owned[x] == t
  }

  function PcOf(s: State, t: Thread): Pc {
    if t in s.pcs then s.pcs[t] else Idle
  }

  function At(s: State, t: Thread, pc: Pc): State {
    s.(pcs := s.pcs[t := pc])
  }

  /** A crash is the use of a socket that is not in memory. */
  datatype Outcome = Next(s: State) | Blocked | Crash

  function LockMutex(s: State, t: Thread, x: Sock, pc: Pc): Outcome {
    if x !in s.mem then Crash
    else if s.mem[x].owner != None then Blocked
    else Next(At(s, t, pc).(mem := s.mem[x := s.mem[x].(owner := Some(t))]))
  }

  function UnlockMutex(s: State, t: Thread, x: Sock, pc: Pc): Outcome {
    if x !in s.mem then Crash else Next(At(s, t, pc).(mem := s.mem[x := s.mem[x].(owner := None)]))
  }

  function SetState(s: State, t: Thread, x: Sock, v: int, pc: Pc): Outcome {
    if x !in s.mem then Crash else Next(At(s, t, pc).(mem := s.mem[x := s.mem[x].(state := v)]))
  }

  /** The loop of `socket_lock`, with the mutex held: wait while the lock is taken, fail if it is broken, or take it. */
  function CheckState(s: State, t: Thread, x: Sock, wait: Pc, broken: Pc, taken: Pc): Outcome {
    if x !in s.mem then Crash
    else if s.mem[x].state == 0 then UnlockMutex(s, t, x, wait)
    else if s.mem[x].state == -1 then Next(At(s, t, broken))
    else SetState(s, t, x, s.mem[x].state - 1, taken)
  }

  /**
   * What a thread may call when it is in no other call, however many sockets it has acquired: it may close any socket
   * that was ever opened, and give back any that it has. A thread in a call, and one that does nothing, continues.
   */
  datatype Call = Open(id: Id, x: Sock) | Acquire(id: Id) | Close(x: Sock) | Release(x: Sock) | Continue

  datatype Choice = Choice(t: Thread, call: Call)

  /** `SOCKET_ID(s)` */
  function IdOf(s: State, x: Sock): Id
    requires x in s.mem
  {
    s.mem[x].id
  }

  /** `pthread_cond_broadcast(s->_cond)`: it wakes waiters, which here may wake at any time, but it reads the socket. */
  function Signal(s: State, t: Thread, x: Sock, pc: Pc): Outcome {
    if x !in s.mem then Crash else Next(At(s, t, pc))
  }

  /** A socket appears in the array, under the write lock, with its lock free. */
  function OpenStep(s: State, id: Id, x: Sock): Outcome {
    if id in s.table || x in s.ever || s.readers != {} || s.writer != None then Blocked
    else Next(s.(table := s.table[id := x], mem := s.mem[x := Sem(1, None, id)], ever := s.ever + {x}))
  }

  function Begin(s: State, c: Choice): Outcome {
    match c.call
    case Open(id, x) => OpenStep(s, id, x)
    case Acquire(id) => Next(At(s, c.t, AcqStart(id)))
    case Close(x) => if x in s.ever then Next(At(s, c.t, CloseStart(x))) else Blocked
    case Release(x) =>
      if Has(s, c.t, x) then Next(At(s, c.t, RelLock(x)).(owned := s.owned - {x})) else Blocked
    case Continue => Blocked
  }

  /** `socket_acquire` */
  function AcquireStep(s: State, t: Thread, pc: Pc): Outcome {
    match pc
    case AcqStart(id) =>
      if s.writer != None then Blocked else Next(At(s, t, AcqRead(id)).(readers := s.readers + {t}))
    case AcqRead(id) => Next(At(s, t, if id in s.table then AcqLock(s.table[id]) else AcqLeave(None)))
    case AcqLock(x) => LockMutex(s, t, x, AcqCheck(x))
    case AcqCheck(x) => CheckState(s, t, x, AcqWait(x), AcqBroken(x), AcqTaken(x))
    case AcqWait(x) => LockMutex(s, t, x, AcqCheck(x))
    case AcqTaken(x) => UnlockMutex(s, t, x, AcqLeave(Some(x)))
    case AcqBroken(x) => UnlockMutex(s, t, x, AcqLeave(None))
    case AcqLeave(None) => Next(At(s, t, Idle).(readers := s.readers - {t}))
    case AcqLeave(Some(x)) => Next(At(s, t, Idle).(readers := s.readers - {t}, owned := s.owned[x := t]))
    case _ => Blocked
  }

  /** `socket_release` */
  function ReleaseStep(s: State, t: Thread, pc: Pc): Outcome {
    match pc
    case RelLock(x) => LockMutex(s, t, x, RelAdd(x))
    case RelAdd(x) =>
      if x !in s.mem then Crash
      else if s.mem[x].state >= 0 then SetState(s, t, x, s.mem[x].state + 1, RelDone(x))
      else Next(At(s, t, RelDone(x)))
    case RelDone(x) => UnlockMutex(s, t, x, RelSignal(x))
    case RelSignal(x) => Signal(s, t, x, Idle)
    case _ => Blocked
  }

  /** `socket_close`: `_socket_dereg`, `socket_lock`, `_socket_break_lock`, and the end of the socket. */
  function CloseStep(s: State, t: Thread, pc: Pc): Outcome {
    match pc
    case CloseStart(x) =>
      if s.readers != {} || s.writer != None then Blocked else Next(At(s, t, CloseArray(x)).(writer := Some(t)))
    case CloseArray(x) =>
      if x !in s.mem then Crash
      else if IdOf(s, x) in s.table && s.table[IdOf(s, x)] == x then
        Next(At(s, t, CloseLeave(Some(x))).(table := s.table - {IdOf(s, x)}))
      else Next(At(s, t, CloseLeave(None)))
    case CloseLeave(r) =>
      Next(At(s, t, if r == None then Idle else CloseLock(r.value)).(writer := None))
    case CloseLock(x) => LockMutex(s, t, x, CloseCheck(x))
    case CloseCheck(x) => CheckState(s, t, x, CloseWait(x), CloseBroken(x), CloseTaken(x))
    case CloseWait(x) => LockMutex(s, t, x, CloseCheck(x))
    case CloseTaken(x) => UnlockMutex(s, t, x, BreakLock(x))
    case CloseBroken(x) => UnlockMutex(s, t, x, Idle)
    case BreakLock(x) => LockMutex(s, t, x, BreakSet(x))
    case BreakSet(x) => SetState(s, t, x, -1, BreakDone(x))
    case BreakDone(x) => UnlockMutex(s, t, x, BreakSignal(x))
    case BreakSignal(x) => Signal(s, t, x, Destroy(x))
    case Destroy(x) =>
      if x !in s.mem then Crash else Next(At(s, t, Idle).(mem := s.mem - {x}, gone := s.gone + {x}))
    case _ => Blocked
  }

  predicate InAcquire(pc: Pc) {
    pc.AcqStart? || pc.AcqRead? || pc.AcqLock? || pc.AcqCheck? || pc.AcqWait? || pc.AcqTaken? || pc.AcqBroken? ||
    pc.AcqLeave?
  }

  predicate InRelease(pc: Pc) {
    pc.RelLock? || pc.RelAdd? || pc.RelDone? || pc.RelSignal?
  }

  function Step(s: State, c: Choice): Outcome {
    var pc := PcOf(s, c.t);
    if pc == Idle then Begin(s, c)
    else if InAcquire(pc) then AcquireStep(s, c.t, pc)
    else if InRelease(pc) then ReleaseStep(s, c.t, pc)
    else CloseStep(s, c.t, pc)
  }

  function Init(): State {
    State(map[], {}, None, map[], {}, {}, map[], map[])
  }

  function Run(s: State, cs: seq<Choice>): Outcome {
    if cs == [] then Next(s)
    else
      match Run(s, cs[..|cs| - 1])
      case Next(r) => (match Step(r, cs[|cs| - 1]) case Blocked => Next(r) case o => o)
      case o => o
  }

  // What every step keeps.

  /** The socket whose mutex a thread holds. */
  function MutexOf(pc: Pc): Option<Sock> {
    if pc.AcqCheck? || pc.AcqTaken? || pc.AcqBroken? || pc.RelAdd? || pc.RelDone? || pc.CloseCheck? || pc.CloseTaken? ||
       pc.CloseBroken? || pc.BreakSet? || pc.BreakDone? then Some(pc.x)
    else None
  }

  /** The socket that a thread has locked in its present call. */
  function Holds(pc: Pc): Option<Sock> {
    if pc.AcqTaken? || pc.RelLock? || pc.RelAdd? || pc.CloseTaken? || pc.BreakLock? || pc.BreakSet? then
      Some(pc.x)
    else if pc.AcqLeave? then pc.r
    else None
  }

  /** The socket that a thread has taken out of the array and will destroy. */
  function Closing(pc: Pc): Option<Sock> {
    if pc.CloseLock? || pc.CloseCheck? || pc.CloseWait? || pc.CloseTaken? || pc.CloseBroken? || pc.BreakLock? ||
       pc.BreakSet? || pc.BreakDone? || pc.BreakSignal? || pc.Destroy? then Some(pc.x)
    else if pc.CloseLeave? then pc.r
    else None
  }

  /** The socket that a thread found in the array and is still trying to lock, or has just locked. */
  function Wants(pc: Pc): Option<Sock> {
    if pc.AcqLock? || pc.AcqCheck? || pc.AcqWait? || pc.AcqTaken? || pc.AcqBroken? then Some(pc.x)
    else if pc.AcqLeave? then pc.r
    else None
  }

  predicate Reads(pc: Pc) {
    pc.AcqRead? || pc.AcqLock? || pc.AcqCheck? || pc.AcqWait? || pc.AcqTaken? || pc.AcqBroken? || pc.AcqLeave?
  }

  predicate Writes(pc: Pc) {
    pc.CloseArray? || pc.CloseLeave?
  }

  ghost predicate ArrayLockOk(s: State) {
    && (forall t: Thread :: (Reads(PcOf(s, t)) <==> t in s.readers) && (Writes(PcOf(s, t)) <==> s.writer == Some(t)))
    && (s.writer != None ==> s.readers == {})
  }

  ghost predicate MutexesOk(s: State) {
    && (forall t: Thread :: MutexOf(PcOf(s, t)).Some? ==>
          MutexOf(PcOf(s, t)).value in s.mem && s.mem[MutexOf(PcOf(s, t)).value].owner == Some(t))
    && (forall x :: x in s.mem && s.mem[x].owner.Some? ==> MutexOf(PcOf(s, s.mem[x].owner.value)) == Some(x))
  }

  ghost predicate Registered(s: State, x: Sock) {
    x in s.mem && IdOf(s, x) in s.table && s.table[IdOf(s, x)] == x
  }

  /** Registered sockets are in memory, not broken, and carry the id under which they are found. */
  ghost predicate ArrayOk(s: State) {
    forall id :: id in s.table ==>
      s.table[id] in s.mem && IdOf(s, s.table[id]) == id && s.mem[s.table[id]].state >= 0
  }

  ghost predicate MemoryOk(s: State) {
    && (forall x :: x in s.mem ==> -1 <= s.mem[x].state <= 1 && x in s.ever && x !in s.gone)
    && s.gone <= s.ever
  }

  ghost predicate ThreadOk(s: State, pc: Pc) {
    && (Holds(pc).Some? ==> Holds(pc).value in s.mem && s.mem[Holds(pc).value].state == 0)
    && (Wants(pc).Some? ==> Registered(s, Wants(pc).value))
    && (Closing(pc).Some? ==>
          && Closing(pc).value in s.mem && !Registered(s, Closing(pc).value)
          && (s.mem[Closing(pc).value].state == -1 <==> pc.BreakDone? || pc.BreakSignal? || pc.Destroy?))
    && (pc.RelDone? ==> pc.x in s.mem && s.mem[pc.x].state == 1)
    && (pc.RelSignal? || pc.CloseStart? || pc.CloseArray? ==> pc.x in s.ever)
    && !pc.AcqBroken? && !pc.CloseBroken?
  }

  ghost predicate ThreadsOk(s: State) {
    forall t: Thread :: ThreadOk(s, PcOf(s, t))
  }

  /** At most one thread has locked a socket, and at most one closes it. */
  ghost predicate Apart(s: State) {
    forall t: Thread, u: Thread :: t != u ==>
      (Holds(PcOf(s, t)).Some? ==> Holds(PcOf(s, t)) != Holds(PcOf(s, u))) &&
      (Closing(PcOf(s, t)).Some? ==> Closing(PcOf(s, t)) != Closing(PcOf(s, u)))
  }

  /** A socket that a thread keeps is taken, and no call has it locked. */
  ghost predicate OwnedOk(s: State) {
    && (forall x :: x in s.owned ==> x in s.mem && s.mem[x].state == 0)
    && (forall t: Thread, x: Sock :: x in s.owned ==> Holds(PcOf(s, t)) != Some(x))
  }

  ghost predicate IsHeld(s: State, x: Sock) {
    x in s.owned || exists t: Thread :: Holds(PcOf(s, t)) == Some(x)
  }

  /** A lock that is taken is held by some thread. */
  ghost predicate TakenIsHeld(s: State) {
    forall x :: x in s.mem && s.mem[x].state == 0 ==> IsHeld(s, x)
  }

  ghost predicate BeingClosed(s: State, x: Sock) {
    exists t: Thread :: Closing(PcOf(s, t)) == Some(x)
  }

  /** Every socket that was ever opened is registered, being closed or gone. */
  ghost predicate Covered(s: State) {
    forall x :: x in s.ever ==> Registered(s, x) || BeingClosed(s, x) || x in s.gone
  }

  ghost predicate Inv(s: State) {
    && ArrayLockOk(s) && MutexesOk(s) && ArrayOk(s) && MemoryOk(s) && ThreadsOk(s) && Apart(s) && Covered(s)
    && TakenIsHeld(s) && OwnedOk(s)
  }
}
