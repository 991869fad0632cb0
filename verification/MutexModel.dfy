/**
 * The mutex pool as a transition system (aos_mutex.c). One action is one section under the table
 * lock or one native call; any number of threads interleave at that grain. A native object, its
 * owner and each thread's position are part of the state.
 */
module MutexModel {
  import opened Common
  import opened Ids
  import opened Table

  /** The pthread mutex in a slot: not initialised, or initialised with its owner. */
  datatype Native = Absent | Ready(owner: Option<Tid>)

  datatype Cell = Cell(native: Native, refCount: u32)

  datatype LockKind = Lock | TryLock | TimedLock

  /**
   * Where a thread is inside the API. `gen` is history: the generation the thread validated.
   * `owned` is history too: whether the caller owned the mutex when Unlock validated the id.
   */
  datatype Pc =
    | Idle(last: Status)                            // outside; `last` is what the latest call returned
    | Locking(i: nat, gen: nat, kind: LockKind)     // has a reference, native lock not yet returned
    | Failed(i: nat, gen: nat, status: Status)      // native lock failed, reference not yet dropped
    | Unlocking(i: nat, gen: nat, owned: bool)      // validated, no reference, before native unlock
    | Unlocked(i: nat, gen: nat)                    // natively unlocked, reference not yet dropped
    | Destroying(i: nat)                            // in_use cleared, before native destroy
    | Cleaning(i: nat)                              // destroyed, before the final locked section
    | Restoring(i: nat, status: Status)             // destroy failed, before the roll-back section

  datatype State = State(hdrs: seq<Header>, cells: seq<Cell>, pc: map<Tid, Pc>)

  /** How a native lock call returns: pthread_mutex_lock / trylock / timedlock. */
  datatype LockResult = Acquired | EBusy | EDeadlk | ETimedOut | EOther

  /** How pthread_mutex_unlock returns. */
  datatype UnlockResult = Freed | EPerm | EInval

  datatype Action =
    | Create(t: Tid, req: Request)
    | Acquire(t: Tid, id: u32, kind: LockKind)
    | NativeLock(t: Tid, rc: LockResult)
    | Release(t: Tid)
    | UnlockCheck(t: Tid, id: u32)
    | NativeUnlock(t: Tid, how: UnlockResult)
    | DeleteBegin(t: Tid, id: u32)
    | NativeDestroy(t: Tid)
    | DeleteEnd(t: Tid)

  // ---------- One step ----------

  /**
   * What POSIX lets a native lock call on an ERRORCHECK mutex return. Failures other than those
   * about ownership may come at any time; a call on an uninitialised object may return anything.
   */
  predicate NativeLockMay(n: Native, t: Tid, kind: LockKind, rc: LockResult)
  {
    n.Ready? ==>
      match rc
      case Acquired => n.owner == None
      case EBusy => kind == TryLock && n.owner.Some?
      case EDeadlk => n.owner == Some(t)
      case ETimedOut => kind == TimedLock
      case EOther => true
  }

  /**
   * What POSIX lets a native unlock of an ERRORCHECK mutex return: 0 to the owner, EPERM to anybody
   * else, and anything at all, 0 included, if the mutex is not initialised.
   */
  predicate NativeUnlockMay(n: Native, t: Tid, rc: UnlockResult)
  {
    n.Ready? ==> rc == if n.owner == Some(t) then Freed else EPerm
  }

  ghost predicate Shaped(s: State) { 0 < |s.hdrs| == |s.cells| <= MAX_POOL }

  predicate IdleAt(s: State, t: Tid) { t in s.pc && s.pc[t].Idle? }

  /** Thread t is inside a call on a slot of this pool. */
  predicate Inside(s: State, t: Tid) { t in s.pc && !s.pc[t].Idle? && s.pc[t].i < |s.cells| }

  /** What Lock, TryLock and TimedLock return; each knows only the errors of its own native call. */
  function LockStatus(kind: LockKind, rc: LockResult): Status
  {
    if rc == Acquired then Success
    else if rc == EBusy && kind == TryLock then Busy
    else if rc == ETimedOut && kind == TimedLock then TimedOut
    else if rc == EDeadlk then InvalidState
    else Generic
  }

  function UnlockStatus(rc: UnlockResult): Status
  {
    match rc
    case Freed => Success
    case EPerm => InvalidState
    case EInval => Generic
  }

  function Move(s: State, t: Tid, p: Pc): State { s.(pc := s.pc[t := p]) }

  function Update(s: State, i: nat, c: Cell, t: Tid, p: Pc): State
    requires i < |s.cells|
  {
    s.(cells := s.cells[i := c], pc := s.pc[t := p])
  }

  function UpdateAll(s: State, i: nat, h: Header, c: Cell, t: Tid, p: Pc): State
    requires i < |s.hdrs| == |s.cells|
  {
    State(s.hdrs[i := h], s.cells[i := c], s.pc[t := p])
  }

  /** AOS_MutexCreate: the argument checks and the one section under the table lock. */
  ghost function CreateStep(s: State, t: Tid, req: Request): State
    requires Shaped(s)
  {
    var status := CreateStatus(s.hdrs, req, true);
    var i := FirstFree(s.hdrs);
    if status != Success then Move(s, t, Idle(status))
    else UpdateAll(s, i, Issue(s.hdrs[i], TYPE_MUTEX, i, req.name.value, req.creator),
                   Cell(Ready(None), 0), t, Idle(Success))
  }

  /** AOS_PosixMutexAcquireReference, the first section of Lock, TryLock and TimedLock. */
  ghost function AcquireStep(s: State, t: Tid, id: u32, kind: LockKind): State
    requires Shaped(s)
  {
    match Lookup(s.hdrs, TYPE_MUTEX, id)
    case None => Move(s, t, Idle(InvalidId))
    case Some(i) =>
      Update(s, i, s.cells[i].(refCount := Inc32(s.cells[i].refCount)), t, Locking(i, s.hdrs[i].gen, kind))
  }

  /** The native lock call returns; on success the reference stays, for the owner. */
  ghost function NativeLockStep(s: State, t: Tid, rc: LockResult): State
    requires Inside(s, t) && s.pc[t].Locking?
  {
    var p := s.pc[t];
    if rc == Acquired then Update(s, p.i, s.cells[p.i].(native := Ready(Some(t))), t, Idle(Success))
    else Move(s, t, Failed(p.i, p.gen, LockStatus(p.kind, rc)))
  }

  /** AOS_PosixMutexReleaseReference, which ends a failed lock call or an unlock. */
  ghost function ReleaseStep(s: State, t: Tid): State
    requires Inside(s, t) && (s.pc[t].Failed? || s.pc[t].Unlocked?)
  {
    var p, c := s.pc[t], s.cells[s.pc[t].i];
    Update(s, p.i, c.(refCount := if c.refCount > 0 then c.refCount - 1 else c.refCount), t,
           Idle(if p.Failed? then p.status else Success))
  }

  /** The locked validation of AOS_MutexUnlock, which takes no reference. */
  ghost function UnlockCheckStep(s: State, t: Tid, id: u32): State
    requires Shaped(s)
  {
    match Lookup(s.hdrs, TYPE_MUTEX, id)
    case None => Move(s, t, Idle(InvalidId))
    case Some(i) => Move(s, t, Unlocking(i, s.hdrs[i].gen, s.cells[i].native == Ready(Some(t))))
  }

  /** pthread_mutex_unlock returns; a success on a destroyed mutex changes nothing but goes on. */
  ghost function NativeUnlockStep(s: State, t: Tid, rc: UnlockResult): State
    requires Inside(s, t) && s.pc[t].Unlocking?
  {
    var p, c := s.pc[t], s.cells[s.pc[t].i];
    if rc == Freed
    then Update(s, p.i, c.(native := if c.native.Ready? then Ready(None) else Absent), t, Unlocked(p.i, p.gen))
    else Move(s, t, Idle(UnlockStatus(rc)))
  }

  /** The first locked section of AOS_MutexDelete. */
  ghost function DeleteBeginStep(s: State, t: Tid, id: u32): State
    requires Shaped(s)
  {
    match Lookup(s.hdrs, TYPE_MUTEX, id)
    case None => Move(s, t, Idle(InvalidId))
    case Some(i) =>
      if s.cells[i].refCount != 0 then Move(s, t, Idle(Busy))
      else UpdateAll(s, i, s.hdrs[i].(inUse := false), s.cells[i], t, Destroying(i))
  }

  predicate WaitedFor(s: State, i: nat) { exists u :: u in s.pc && s.pc[u].Locking? && s.pc[u].i == i }

  /** pthread_mutex_destroy: EBUSY on a mutex that is owned or waited for. */
  ghost function NativeDestroyStep(s: State, t: Tid): State
    requires Inside(s, t) && s.pc[t].Destroying?
  {
    var i := s.pc[t].i;
    if s.cells[i].native == Ready(None) && !WaitedFor(s, i)
    then Update(s, i, s.cells[i].(native := Absent), t, Cleaning(i))
    else Move(s, t, Restoring(i, if s.cells[i].native.Ready? then Busy else Generic))
  }

  /** The second locked section of AOS_MutexDelete: the final clean-up, or the roll-back. */
  ghost function DeleteEndStep(s: State, t: Tid): State
    requires Shaped(s) && Inside(s, t) && (s.pc[t].Cleaning? || s.pc[t].Restoring?)
  {
    var p, h, c := s.pc[t], s.hdrs[s.pc[t].i], s.cells[s.pc[t].i];
    if p.Cleaning?
    then UpdateAll(s, p.i, h.(id := ID_NONE, creator := ID_NONE, name := ""), c.(refCount := 0), t, Idle(Success))
    else UpdateAll(s, p.i, h.(inUse := true), c, t, Idle(p.status))
  }

  ghost predicate Enabled(s: State, a: Action)
  {
    match a
    case NativeLock(t, rc) =>
      Inside(s, t) && s.pc[t].Locking? && NativeLockMay(s.cells[s.pc[t].i].native, t, s.pc[t].kind, rc)
    case Release(t) => Inside(s, t) && (s.pc[t].Failed? || s.pc[t].Unlocked?)
    case NativeUnlock(t, rc) => Inside(s, t) && s.pc[t].Unlocking? && NativeUnlockMay(s.cells[s.pc[t].i].native, t, rc)
    case NativeDestroy(t) => Inside(s, t) && s.pc[t].Destroying?
    case DeleteEnd(t) => Inside(s, t) && (s.pc[t].Cleaning? || s.pc[t].Restoring?)
    case _ => IdleAt(s, a.t)
  }

  ghost function Apply(s: State, a: Action): (r: State)
    requires Shaped(s) && Enabled(s, a)
    ensures Shaped(r) && |r.hdrs| == |s.hdrs|
  {
    match a
    case Create(t, req) => CreateStep(s, t, req)
    case Acquire(t, id, kind) => AcquireStep(s, t, id, kind)
    case NativeLock(t, rc) => NativeLockStep(s, t, rc)
    case Release(t) => ReleaseStep(s, t)
    case UnlockCheck(t, id) => UnlockCheckStep(s, t, id)
    case NativeUnlock(t, rc) => NativeUnlockStep(s, t, rc)
    case DeleteBegin(t, id) => DeleteBeginStep(s, t, id)
    case NativeDestroy(t) => NativeDestroyStep(s, t)
    case DeleteEnd(t) => DeleteEndStep(s, t)
  }

  /** An action that is not possible in a state leaves it alone, so every action list is a schedule. */
  ghost function Step(s: State, a: Action): (r: State)
    requires Shaped(s)
    ensures Shaped(r) && |r.hdrs| == |s.hdrs|
  {
    if Enabled(s, a) then Apply(s, a) else s
  }

  ghost function Exec(s: State, run: seq<Action>): (r: State)
    requires Shaped(s)
    ensures Shaped(r) && |r.hdrs| == |s.hdrs|
    decreases |run|
  {
    if run == [] then s else Exec(Step(s, run[0]), run[1..])
  }

  predicate Deletes(p: Pc, i: nat) { (p.Destroying? || p.Cleaning? || p.Restoring?) && p.i == i }

  /** A Delete of slot i has cleared in_use and is not finished. */
  predicate InWindow(pc: map<Tid, Pc>, i: nat) { exists t :: t in pc && Deletes(pc[t], i) }

  // ---------- Runs ----------

  /** The one rule for callers: Create does not take a slot whose Delete is still in flight. */
  ghost predicate CreateRule(s: State, a: Action)
  {
    a.Create? && CreateStatus(s.hdrs, a.req, true) == Success ==> !InWindow(s.pc, FirstFree(s.hdrs))
  }

  /** A native unlock of a destroyed mutex, which POSIX leaves undefined, does not report success. */
  ghost predicate UnlockRule(s: State, a: Action)
  {
    a.NativeUnlock? && a.how == Freed && Inside(s, a.t) && s.pc[a.t].Unlocking? ==> s.cells[s.pc[a.t].i].native.Ready?
  }

  ghost predicate Allowed(s: State, a: Action) { CreateRule(s, a) && UnlockRule(s, a) }

  ghost predicate InContract(s: State, run: seq<Action>)
    requires Shaped(s)
    decreases |run|
  {
    run == [] || (Allowed(s, run[0]) && InContract(Step(s, run[0]), run[1..]))
  }

  /** AOS_PosixMutexInit: a zeroed pool, every thread outside the API. */
  ghost function Init(n: nat, threads: set<Tid>): State
  {
    State(seq(n, _ => ZEROED), seq(n, _ => Cell(Absent, 0)), map t | t in threads :: Idle(Success))
  }

  ghost predicate Start(n: nat, threads: set<Tid>) { 0 < n <= MAX_POOL && |threads| < TWO32 - 2 }
}
