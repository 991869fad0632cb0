/**
 * The binary-semaphore pool as a transition system (aos_sem.c). AOS_SemPost takes no lock, so every
 * store that it can see is an action of its own: the two stores of Delete, the two of its
 * roll-back, and each store of Create. Sections whose stores it cannot see are one action.
 */
module SemModel {
  import opened Common
  import opened Ids
  import opened Table

  /** The smallest SEM_VALUE_MAX that POSIX allows. */
  const SEM_VALUE_MAX: nat := 32767

  /** The native semaphore in a slot: not initialised, or initialised with its count. */
  datatype Native = NoSem | Sem(count: nat)

  datatype Cell = Cell(native: Native, flag: u8, refCount: u32)

  datatype WaitKind = Wait | TryWait | TimedWait

  /** The values AOS_SemCreate carries from its scans to its stores. */
  datatype Made = Made(name: string, creator: u32, value: u8)

  /** Where a thread is inside the API. `gen` is history: the generation the thread validated. */
  datatype Pc =
    | Idle(last: Status)                            // outside; `last` is what the latest call returned
    | Waiting(i: nat, gen: nat, kind: WaitKind)     // has a reference, native wait not yet returned
    | Consumed(i: nat, gen: nat)                    // native wait returned 0, state not yet cleared
    | Releasing(i: nat, gen: nat, status: Status)   // before the reference is dropped
    | Leaked(i: nat, gen: nat)                      // cancelled inside the native wait; gone for good
    | Checked(i: nat, gen: nat)                     // Post: id matched, before the compare-and-swap
    | Won(i: nat, gen: nat)                         // Post: swapped state 0 -> 1, before sem_post
    | Unposting(i: nat, gen: nat)                   // Post: sem_post failed, before the roll-back store
    | Creating(i: nat, stage: nat, made: Made)      // lock held, `stage` stores done since sem_init
    | Retiring(i: nat, id: u32)                     // Delete: lock held, id cleared, in_use not yet
    | Destroying(i: nat, id: u32)                   // Delete: lock dropped, before sem_destroy
    | Cleaning(i: nat)                              // Delete: destroyed, before the final section
    | Restoring(i: nat, id: u32, status: Status)    // Delete: destroy failed, before the roll-back section
    | Republishing(i: nat, id: u32, status: Status) // Delete: lock held, in_use set again, id not yet

  datatype State = State(hdrs: seq<Header>, cells: seq<Cell>, pc: map<Tid, Pc>, lock: Option<Tid>)

  /** How a native wait call returns; a return with EINTR is retried. */
  datatype WaitResult = Taken | Interrupted | WouldBlock | Expired | Broken

  /** How sem_destroy returns. */
  datatype DestroyResult = Destroyed | StillUsed | Refused

  datatype Action =
    | CreateBegin(t: Tid, req: Request, initial: nat)
    | CreateStore(t: Tid)
    | Acquire(t: Tid, id: u32, kind: WaitKind)
    | NativeWait(t: Tid, rc: WaitResult)
    | ClearState(t: Tid)
    | Release(t: Tid)
    | Cancel(t: Tid)
    | PostCheck(t: Tid, id: u32)
    | PostSwap(t: Tid)
    | NativePost(t: Tid)
    | PostUndo(t: Tid)
    | DeleteBegin(t: Tid, id: u32)
    | DeleteStore(t: Tid)
    | NativeDestroy(t: Tid, how: DestroyResult)
    | DeleteEnd(t: Tid)
    | Republish(t: Tid)

  // ---------- One step ----------

  ghost predicate Shaped(s: State) { 0 < |s.hdrs| == |s.cells| <= MAX_POOL }

  predicate IdleAt(s: State, t: Tid) { t in s.pc && s.pc[t].Idle? }

  predicate Inside(s: State, t: Tid) { t in s.pc && !s.pc[t].Idle? && s.pc[t].i < |s.cells| }

  function Move(s: State, t: Tid, p: Pc): State { s.(pc := s.pc[t := p]) }

  function UpdateCell(s: State, i: nat, c: Cell, t: Tid, p: Pc): State
    requires i < |s.cells|
  {
    s.(cells := s.cells[i := c], pc := s.pc[t := p])
  }

  function UpdateHeader(s: State, i: nat, h: Header, t: Tid, p: Pc): State
    requires i < |s.hdrs|
  {
    s.(hdrs := s.hdrs[i := h], pc := s.pc[t := p])
  }

  /** AOS_SEM_EMPTY and AOS_SEM_FULL. */
  predicate InitialStateOk(initial: nat) { initial == 0 || initial == 1 }

  /** AOS_SemCreate up to and including sem_init; on success the table lock stays held. */
  ghost function CreateBeginStep(s: State, t: Tid, req: Request, initial: nat): State
    requires Shaped(s)
  {
    var status := CreateStatus(s.hdrs, req, InitialStateOk(initial));
    var i := FirstFree(s.hdrs);
    if status != Success then Move(s, t, Idle(status))
    else
      UpdateCell(s, i, s.cells[i].(native := Sem(initial)), t,
                 Creating(i, 0, Made(req.name.value, req.creator, initial))).(lock := Some(t))
  }

  /** The header after the `stage`-th store of AOS_SemCreate. */
  function StoreInHeader(h: Header, stage: nat, i: u16, made: Made): Header
  {
    if stage == 0 then h.(serial := NextSerial(h.serial), gen := h.gen + 1)
    else if stage == 1 then h.(creator := made.creator)
    else if stage == 3 then h.(inUse := true)
    else if stage == 4 then h.(name := made.name)
    else if stage == 6 then h.(id := IdPack(TYPE_BINSEM, h.serial, i))
    else h
  }

  function StoreInCell(c: Cell, stage: nat, made: Made): Cell
  {
    if stage == 2 then c.(refCount := 0) else if stage == 5 then c.(flag := made.value) else c
  }

  /** The next of the seven stores: serial, creator, ref_count, in_use, name, state, id; then unlock. */
  ghost function CreateStoreStep(s: State, t: Tid): State
    requires Shaped(s) && Inside(s, t) && s.pc[t].Creating?
  {
    var p := s.pc[t];
    var s' := s.(hdrs := s.hdrs[p.i := StoreInHeader(s.hdrs[p.i], p.stage, p.i, p.made)],
                 cells := s.cells[p.i := StoreInCell(s.cells[p.i], p.stage, p.made)]);
    if p.stage < 6 then Move(s', t, Creating(p.i, p.stage + 1, p.made))
    else Move(s', t, Idle(Success)).(lock := None)
  }

  /** AOS_PosixSemAcquireReference. */
  ghost function AcquireStep(s: State, t: Tid, id: u32, kind: WaitKind): State
    requires Shaped(s)
  {
    match Lookup(s.hdrs, TYPE_BINSEM, id)
    case None => Move(s, t, Idle(InvalidId))
    case Some(i) =>
      UpdateCell(s, i, s.cells[i].(refCount := Inc32(s.cells[i].refCount)), t, Waiting(i, s.hdrs[i].gen, kind))
  }

  /** What POSIX lets sem_wait, sem_trywait and sem_timedwait return. */
  predicate NativeWaitMay(n: Native, kind: WaitKind, rc: WaitResult)
  {
    n.Sem? ==>
      match rc
      case Taken => n.count > 0
      case WouldBlock => kind == TryWait && n.count == 0
      case Expired => kind == TimedWait
      case Interrupted => true
      case Broken => true
  }

  /** What Wait, TryWait and TimedWait return; each knows only the errors of its own native call. */
  function WaitStatus(kind: WaitKind, rc: WaitResult): Status
  {
    if rc == Taken then Success
    else if rc == WouldBlock && kind == TryWait then Busy
    else if rc == Expired && kind == TimedWait then TimedOut
    else Generic
  }

  ghost function NativeWaitStep(s: State, t: Tid, rc: WaitResult): State
    requires Inside(s, t) && s.pc[t].Waiting?
  {
    var p, n := s.pc[t], s.cells[s.pc[t].i].native;
    if rc == Interrupted then s
    else if rc == Taken then
      UpdateCell(s, p.i, s.cells[p.i].(native := if n.Sem? && n.count > 0 then Sem(n.count - 1) else n), t, Consumed(p.i, p.gen))
    else Move(s, t, Releasing(p.i, p.gen, WaitStatus(p.kind, rc)))
  }

  /** The store that turns the flag back to empty, while the reference is still held. */
  ghost function ClearStateStep(s: State, t: Tid): State
    requires Inside(s, t) && s.pc[t].Consumed?
  {
    var p := s.pc[t];
    UpdateCell(s, p.i, s.cells[p.i].(flag := 0), t, Releasing(p.i, p.gen, Success))
  }

  /** AOS_PosixSemReleaseReference. */
  ghost function ReleaseStep(s: State, t: Tid): State
    requires Inside(s, t) && s.pc[t].Releasing?
  {
    var p, c := s.pc[t], s.cells[s.pc[t].i];
    UpdateCell(s, p.i, c.(refCount := if c.refCount > 0 then c.refCount - 1 else c.refCount), t, Idle(p.status))
  }

  /** The thread is cancelled inside sem_wait or sem_timedwait: its reference is never dropped. */
  ghost function CancelStep(s: State, t: Tid): State
    requires Inside(s, t) && s.pc[t].Waiting?
  {
    Move(s, t, Leaked(s.pc[t].i, s.pc[t].gen))
  }

  /** The lock-free validation of AOS_SemPost: type, index and one atomic load of the slot's id. */
  function PostAccepts(hs: seq<Header>, id: u32): (slot: Option<nat>)
    ensures slot.Some? ==> slot.value < |hs|
  {
    if IdType(id) != TYPE_BINSEM || IdIndex(id) >= |hs| || hs[IdIndex(id)].id != id then None
    else Some(IdIndex(id))
  }

  ghost function PostCheckStep(s: State, t: Tid, id: u32): State
    requires Shaped(s)
  {
    match PostAccepts(s.hdrs, id)
    case None => Move(s, t, Idle(InvalidId))
    case Some(i) => Move(s, t, Checked(i, s.hdrs[i].gen))
  }

  /** The compare-and-swap of the flag from 0 to 1. */
  ghost function PostSwapStep(s: State, t: Tid): State
    requires Inside(s, t) && s.pc[t].Checked?
  {
    var p := s.pc[t];
    if s.cells[p.i].flag == 0 then UpdateCell(s, p.i, s.cells[p.i].(flag := 1), t, Won(p.i, p.gen))
    else Move(s, t, Idle(InvalidState))
  }

  /** sem_post: EOVERFLOW at the maximum. */
  ghost function NativePostStep(s: State, t: Tid): State
    requires Inside(s, t) && s.pc[t].Won?
  {
    var p, n := s.pc[t], s.cells[s.pc[t].i].native;
    if n.Sem? && n.count < SEM_VALUE_MAX
    then UpdateCell(s, p.i, s.cells[p.i].(native := Sem(n.count + 1)), t, Idle(Success))
    else Move(s, t, Unposting(p.i, p.gen))
  }

  ghost function PostUndoStep(s: State, t: Tid): State
    requires Inside(s, t) && s.pc[t].Unposting?
  {
    UpdateCell(s, s.pc[t].i, s.cells[s.pc[t].i].(flag := 0), t, Idle(Generic))
  }

  /** AOS_SemDelete up to the store that clears the id; the table lock stays held. */
  ghost function DeleteBeginStep(s: State, t: Tid, id: u32): State
    requires Shaped(s)
  {
    match Lookup(s.hdrs, TYPE_BINSEM, id)
    case None => Move(s, t, Idle(InvalidId))
    case Some(i) =>
      if s.cells[i].refCount != 0 then Move(s, t, Idle(Busy))
      else UpdateHeader(s, i, s.hdrs[i].(id := ID_NONE), t, Retiring(i, id)).(lock := Some(t))
  }

  /** The store that clears in_use, and the unlock. */
  ghost function DeleteStoreStep(s: State, t: Tid): State
    requires Shaped(s) && Inside(s, t) && s.pc[t].Retiring?
  {
    var p := s.pc[t];
    UpdateHeader(s, p.i, s.hdrs[p.i].(inUse := false), t, Destroying(p.i, p.id)).(lock := None)
  }

  /** sem_destroy succeeds or fails, as the environment likes. */
  ghost function NativeDestroyStep(s: State, t: Tid, rc: DestroyResult): State
    requires Inside(s, t) && s.pc[t].Destroying?
  {
    var p := s.pc[t];
    match rc
    case Destroyed => UpdateCell(s, p.i, s.cells[p.i].(native := NoSem), t, Cleaning(p.i))
    case StillUsed => Move(s, t, Restoring(p.i, p.id, Busy))
    case Refused => Move(s, t, Restoring(p.i, p.id, Generic))
  }

  /** The final clean-up, or the first store of the roll-back with the table lock taken. */
  ghost function DeleteEndStep(s: State, t: Tid): State
    requires Shaped(s) && Inside(s, t) && (s.pc[t].Cleaning? || s.pc[t].Restoring?)
  {
    var p, h, c := s.pc[t], s.hdrs[s.pc[t].i], s.cells[s.pc[t].i];
    if p.Cleaning?
    then UpdateHeader(s, p.i, h.(creator := ID_NONE, name := ""), t, Idle(Success)).(cells := s.cells[p.i := c.(refCount := 0)])
    else UpdateHeader(s, p.i, h.(inUse := true), t, Republishing(p.i, p.id, p.status)).(lock := Some(t))
  }

  /** The roll-back's second store puts the id back; then unlock. */
  ghost function RepublishStep(s: State, t: Tid): State
    requires Shaped(s) && Inside(s, t) && s.pc[t].Republishing?
  {
    var p := s.pc[t];
    UpdateHeader(s, p.i, s.hdrs[p.i].(id := p.id), t, Idle(p.status)).(lock := None)
  }

  ghost predicate Enabled(s: State, a: Action)
  {
    match a
    case CreateBegin(t, req, initial) => IdleAt(s, t) && s.lock == None
    case CreateStore(t) => Inside(s, t) && s.pc[t].Creating?
    case Acquire(t, id, kind) => IdleAt(s, t) && s.lock == None
    case NativeWait(t, rc) =>
      Inside(s, t) && s.pc[t].Waiting? && NativeWaitMay(s.cells[s.pc[t].i].native, s.pc[t].kind, rc)
    case ClearState(t) => Inside(s, t) && s.pc[t].Consumed?
    case Release(t) => Inside(s, t) && s.pc[t].Releasing? && s.lock == None
    case Cancel(t) => Inside(s, t) && s.pc[t].Waiting? && s.pc[t].kind != TryWait
    case PostCheck(t, id) => IdleAt(s, t)
    case PostSwap(t) => Inside(s, t) && s.pc[t].Checked?
    case NativePost(t) => Inside(s, t) && s.pc[t].Won?
    case PostUndo(t) => Inside(s, t) && s.pc[t].Unposting?
    case DeleteBegin(t, id) => IdleAt(s, t) && s.lock == None
    case DeleteStore(t) => Inside(s, t) && s.pc[t].Retiring?
    case NativeDestroy(t, rc) => Inside(s, t) && s.pc[t].Destroying?
    case DeleteEnd(t) => Inside(s, t) && (s.pc[t].Cleaning? || s.pc[t].Restoring?) && s.lock == None
    case Republish(t) => Inside(s, t) && s.pc[t].Republishing?
  }

  ghost function Apply(s: State, a: Action): (r: State)
    requires Shaped(s) && Enabled(s, a)
    ensures Shaped(r) && |r.hdrs| == |s.hdrs|
  {
    match a
    case CreateBegin(t, req, initial) => CreateBeginStep(s, t, req, initial)
    case CreateStore(t) => CreateStoreStep(s, t)
    case Acquire(t, id, kind) => AcquireStep(s, t, id, kind)
    case NativeWait(t, rc) => NativeWaitStep(s, t, rc)
    case ClearState(t) => ClearStateStep(s, t)
    case Release(t) => ReleaseStep(s, t)
    case Cancel(t) => CancelStep(s, t)
    case PostCheck(t, id) => PostCheckStep(s, t, id)
    case PostSwap(t) => PostSwapStep(s, t)
    case NativePost(t) => NativePostStep(s, t)
    case PostUndo(t) => PostUndoStep(s, t)
    case DeleteBegin(t, id) => DeleteBeginStep(s, t, id)
    case DeleteStore(t) => DeleteStoreStep(s, t)
    case NativeDestroy(t, rc) => NativeDestroyStep(s, t, rc)
    case DeleteEnd(t) => DeleteEndStep(s, t)
    case Republish(t) => RepublishStep(s, t)
  }

  /** An action that is not possible in a state leaves it alone, so every action list is a schedule. */
  ghost function Step(s: State, a: Action): (r: State)
    requires Shaped(s)
    ensures Shaped(r) && |r.hdrs| == |s.hdrs|
  {
    if Enabled(s, a) then Apply(s, a) else s
  }

  ghost function Exec(s: State, run: seq<Action>): (r: State)
    requires Shaped(s)
    ensures Shaped(r) && |r.hdrs| == |s.hdrs|
    decreases |run|
  {
    if run == [] then s else Exec(Step(s, run[0]), run[1..])
  }

  // ---------- Runs and their rules ----------

  /** Threads in the middle of creating or deleting the object in slot i. */
  predicate Changes(p: Pc, i: nat)
  {
    (p.Creating? || p.Retiring? || p.Destroying? || p.Cleaning? || p.Restoring? || p.Republishing?) && p.i == i
  }

  predicate Changing(pc: map<Tid, Pc>, i: nat) { exists t :: t in pc && Changes(pc[t], i) }

  /** A Post to slot i is past its id check. */
  predicate Posts(p: Pc, i: nat) { (p.Checked? || p.Won? || p.Unposting?) && p.i == i }

  predicate Posting(pc: map<Tid, Pc>, i: nat) { exists t :: t in pc && Posts(pc[t], i) }

  /**
   * The two rules for callers: Create does not take a slot whose Delete is still in flight, and no
   * Post is past its id check when Delete clears the id.
   */
  ghost predicate Allowed(s: State, a: Action)
  {
    match a
    case CreateBegin(t, req, initial) =>
      CreateStatus(s.hdrs, req, InitialStateOk(initial)) == Success ==> !Changing(s.pc, FirstFree(s.hdrs))
    case DeleteBegin(t, id) =>
      (match Lookup(s.hdrs, TYPE_BINSEM, id)
       case None => true
       case Some(i) => i < |s.cells| && s.cells[i].refCount == 0 ==> !Posting(s.pc, i))
    case _ => true
  }

  ghost predicate InContract(s: State, run: seq<Action>)
    requires Shaped(s)
    decreases |run|
  {
    run == [] || (Allowed(s, run[0]) && InContract(Step(s, run[0]), run[1..]))
  }

  /** AOS_PosixBinSemInit: a zeroed pool, every thread outside the API. */
  ghost function Init(n: nat, threads: set<Tid>): State
  {
    State(seq(n, _ => ZEROED), seq(n, _ => Cell(NoSem, 0, 0)), map t | t in threads :: Idle(Success), None)
  }

  ghost predicate Start(n: nat, threads: set<Tid>) { 0 < n <= MAX_POOL && |threads| < TWO32 - 2 }
}
