/**
 * The task pool as a transition system (aos_task.c): callers of the API, the native threads they
 * create, and the slots. One action is one section under the task lock or one native call.
 */
module TaskModel {
  import opened Common
  import opened Ids
  import opened Table
  import opened Priority

  datatype TaskState = Unused | Starting | Running | Exited

  /** A native thread, named by the slot and generation it was created for. */
  datatype Handle = Handle(i: nat, gen: nat)

  /** The entry function, if it is not NULL, and its argument. */
  datatype Body = Body(entry: Option<nat>, arg: nat)

  const NO_BODY: Body := Body(None, 0)

  /** `thread` is the pthread_t field: what the last pthread_create for the slot stored. */
  datatype Cell = Cell(state: TaskState, joined: bool, thread: Option<Handle>, priority: nat, stackSize: nat, body: Body)

  /** How far a native thread is in the trampoline. */
  datatype Stage =
    | Fresh         // started
    | Keyed         // thread-specific key set, RUNNING not yet stored
    | Active        // inside the entry function
    | Ending        // returned, exited or cancelled; cleanup handler not yet run
    | Terminated    // handler done
    | Reaped        // joined

  /**
   * `keySet` and `given` are history: whether the key could be stored, and what the thread's Create was
   * passed; `got` is what the trampoline read from the slot.
   */
  datatype Native = Native(stage: Stage, key: u32, keySet: bool, prio: int, given: Body, got: Option<Body>)

  /** A thread that calls the API: an AOS task, or any other thread. */
  datatype Caller = Task(h: Handle) | Foreign(n: nat)

  datatype Pc =
    | Idle(last: Status)
    | Building(i: nat, gen: nat, priority: nat, body: Body)  // Create: slot filled, thread not yet created
    | Undoing(i: nat, gen: nat, status: Status)          // Create: native failure, slot not yet freed
    | Joining(i: nat, gen: nat, h: Handle)               // Join: claim taken, inside pthread_join
    | Cancelling(i: nat, gen: nat, h: Handle, id: u32)   // Delete: claim taken, before pthread_cancel
    | Reaping(i: nat, gen: nat, h: Handle, id: u32, cancelOk: bool)  // Delete: inside pthread_join
    | Freeing(i: nat, gen: nat, id: u32)                 // Delete: before the final section

  /** The native priority range, fixed at initialisation. */
  datatype Rt = Rt(enabled: bool, min: int, max: int)

  /** `lost` is history: the generations whose claim to be reaped was taken and ended without a reap. */
  datatype State = State(
    hdrs: seq<Header>, cells: seq<Cell>, pc: map<Caller, Pc>, threads: map<Handle, Native>, rt: Rt, lost: set<Handle>)

  /** The arguments of AOS_TaskCreate, and whether the task module is initialised. */
  datatype TaskRequest = TaskRequest(
    ready: bool, outIsNull: bool, name: Option<string>, body: Body, stackSize: nat, priority: u8, flags: u32)

  /** What failed in AOS_TaskCreate after the slot was filled. */
  datatype Failure = AttrsInvalid | AttrsFailed | ThreadFailed

  /** How pthread_cancel and pthread_join return: 0, ESRCH, or any other error. */
  datatype NativeResult = NativeOk | NoSuchThread | NativeFailed

  datatype Action =
    | Create(c: Caller, req: TaskRequest)
    | CreateThread(c: Caller)                      // pthread_create succeeds
    | CreateFails(c: Caller, why: Failure)         // attributes or pthread_create fail
    | CreateUndo(c: Caller)
    | SetKey(h: Handle, ok: bool)                  // pthread_setspecific succeeds or not
    | EnterRunning(h: Handle)
    | Finish(h: Handle)                            // returns, exits, or is cancelled, perhaps in pthread_join
    | Cleanup(h: Handle)
    | JoinClaim(c: Caller, id: u32, same: bool)    // `same` is what pthread_equal says
    | JoinReturns(c: Caller, ok: bool)
    | DeleteClaim(c: Caller, id: u32, same: bool)
    | NativeCancel(c: Caller, rc: NativeResult)
    | DeleteJoinReturns(c: Caller, rc: NativeResult)
    | DeleteFree(c: Caller)
    | Abandon(c: Caller)                           // another thread is cancelled inside pthread_join
    | SetPriority(c: Caller, id: u32, priority: u8, nativeOk: bool)

  // ---------- One step ----------

  ghost predicate Shaped(s: State) { 0 < |s.hdrs| == |s.cells| <= MAX_POOL }

  function At(s: State, c: Caller): Pc { if c in s.pc then s.pc[c] else Idle(Success) }

  /** The caller is outside the API and, if it is a task, running its entry function. */
  predicate CanCall(s: State, c: Caller)
  {
    At(s, c).Idle? && (c.Task? ==> c.h in s.threads && s.threads[c.h].stage == Active)
  }

  predicate Inside(s: State, c: Caller)
  {
    !At(s, c).Idle? && At(s, c).i < |s.cells|
  }

  predicate InStage(s: State, h: Handle, stage: Stage)
  {
    h in s.threads && s.threads[h].stage == stage && h.i < |s.cells|
  }

  function Move(s: State, c: Caller, p: Pc): State { s.(pc := s.pc[c := p]) }

  function UpdateCell(s: State, i: nat, cell: Cell, c: Caller, p: Pc): State
    requires i < |s.cells|
  {
    s.(cells := s.cells[i := cell], pc := s.pc[c := p])
  }

  function UpdateAll(s: State, i: nat, h: Header, cell: Cell, c: Caller, p: Pc): State
    requires i < |s.hdrs| == |s.cells|
  {
    s.(hdrs := s.hdrs[i := h], cells := s.cells[i := cell], pc := s.pc[c := p])
  }

  function SetStage(s: State, h: Handle, stage: Stage): State
    requires h in s.threads
  {
    s.(threads := s.threads[h := s.threads[h].(stage := stage)])
  }

  /** AOS_TaskCreate's argument checks, in order; an empty name is allowed. */
  function CheckTaskRequest(req: TaskRequest): Status
  {
    if !req.ready then Generic
    else if req.outIsNull || req.name.None? || req.body.entry.None? then InvalidPointer
    else if req.stackSize == 0 then InvalidSize
    else if req.priority > LOWEST then InvalidPriority
    else if req.flags != 0 then InvalidParam
    else if |req.name.value| >= MAX_NAME then NameTooLong
    else Success
  }

  function TaskCreateStatus(hs: seq<Header>, req: TaskRequest): Status
  {
    if CheckTaskRequest(req) != Success then CheckTaskRequest(req)
    else if NameTaken(hs, req.name.value) then NameIsTaken
    else if FirstFree(hs) == |hs| then NoFreeIds
    else Success
  }

  /** AOS_TaskCreate up to where it drops the lock: the slot is in use, its thread does not exist. */
  ghost function CreateStep(s: State, c: Caller, req: TaskRequest): State
    requires Shaped(s)
  {
    var status, i := TaskCreateStatus(s.hdrs, req), FirstFree(s.hdrs);
    if status != Success then Move(s, c, Idle(status))
    else
      UpdateAll(s, i, Issue(s.hdrs[i], TYPE_TASK, i, req.name.value, ID_NONE),
                Cell(Starting, false, s.cells[i].thread, req.priority, req.stackSize, req.body), c,
                Building(i, s.hdrs[i].gen + 1, req.priority, req.body))
  }

  function NativePriority(rt: Rt, priority: nat): int { if rt.enabled then MapPriority(rt.min, rt.max, priority) else 0 }

  /** pthread_create stores the thread in the slot and starts it, as one step. */
  ghost function CreateThreadStep(s: State, c: Caller): State
    requires Inside(s, c) && At(s, c).Building?
  {
    var p := At(s, c);
    var h := Handle(p.i, p.gen);
    UpdateCell(s, p.i, s.cells[p.i].(thread := Some(h)), c, Idle(Success))
      .(threads := s.threads[h := Native(Fresh, ID_NONE, false, NativePriority(s.rt, p.priority), p.body, None)])
  }

  /** Building the attributes or pthread_create fails: EINVAL from the attributes is a bad stack size. */
  ghost function CreateFailsStep(s: State, c: Caller, why: Failure): State
    requires At(s, c).Building?
  {
    Move(s, c, Undoing(At(s, c).i, At(s, c).gen, if why == AttrsInvalid then InvalidSize else CreationFailed))
  }

  ghost function CreateUndoStep(s: State, c: Caller): State
    requires Shaped(s) && Inside(s, c) && At(s, c).Undoing?
  {
    var p := At(s, c);
    UpdateAll(s, p.i, s.hdrs[p.i].(inUse := false), s.cells[p.i].(state := Unused), c, Idle(p.status))
  }

  /** The trampoline stores slot->id as the thread's key, without the lock, and ignores a failure. */
  ghost function SetKeyStep(s: State, h: Handle, ok: bool): State
    requires Shaped(s) && InStage(s, h, Fresh)
  {
    s.(threads := s.threads[h := s.threads[h].(stage := Keyed, keySet := ok, key := if ok then s.hdrs[h.i].id else ID_NONE)])
  }

  /** The trampoline's locked section: RUNNING is stored, the entry function and argument are read. */
  ghost function EnterRunningStep(s: State, h: Handle): State
    requires InStage(s, h, Keyed)
  {
    s.(threads := s.threads[h := s.threads[h].(stage := Active, got := Some(s.cells[h.i].body))],
       cells := s.cells[h.i := s.cells[h.i].(state := Running)])
  }

  /** AOS_PosixTaskCleanup. */
  ghost function CleanupStep(s: State, h: Handle): State
    requires Shaped(s) && InStage(s, h, Ending)
  {
    var s' := SetStage(s, h, Terminated);
    if s.hdrs[h.i].inUse then s'.(cells := s.cells[h.i := s.cells[h.i].(state := Exited)]) else s'
  }

  /** The stored thread is the caller. */
  predicate IsSelf(c: Caller, cell: Cell) { c.Task? && cell.thread == Some(c.h) }

  /**
   * What pthread_equal(pthread_self(), thread) may say: the truth while the stored thread has not been
   * joined, and anything after that, when its pthread_t may be in use again for another thread.
   */
  predicate EqualMay(s: State, c: Caller, cell: Cell, same: bool)
  {
    cell.thread.Some? && cell.thread.value in s.threads && !WasReaped(s, cell.thread.value) ==> (same <==> IsSelf(c, cell))
  }

  /** It is said of the task that the id names, if the id is valid. */
  predicate EqualMayOf(s: State, c: Caller, id: u32, same: bool)
  {
    match Lookup(s.hdrs, TYPE_TASK, id) case None => true case Some(i) => i < |s.cells| ==> EqualMay(s, c, s.cells[i], same)
  }

  predicate WasReaped(s: State, h: Handle) { h in s.threads && s.threads[h].stage == Reaped }

  /** The locked section of AOS_TaskJoin. */
  ghost function JoinClaimStep(s: State, c: Caller, id: u32, same: bool): State
    requires Shaped(s)
  {
    match Lookup(s.hdrs, TYPE_TASK, id)
    case None => Move(s, c, Idle(InvalidId))
    case Some(i) =>
      var cell := s.cells[i];
      if cell.joined then Move(s, c, Idle(InvalidState))
      else if same then Move(s, c, Idle(InvalidParam))
      else UpdateCell(s, i, cell.(joined := true), c, Joining(i, s.hdrs[i].gen, ThreadOf(cell)))
  }

  /** The pthread_t a caller copies out of the slot; of no thread at all when none was stored. */
  function ThreadOf(cell: Cell): Handle { if cell.thread.Some? then cell.thread.value else Handle(MAX_POOL, 0) }

  function Reap(s: State, h: Handle): State
  {
    if h in s.threads then s.(threads := s.threads[h := s.threads[h].(stage := Reaped)]) else s
  }

  /** The claim on the generation in slot i ends without a reap. */
  function Lose(s: State, i: nat, gen: nat): State { s.(lost := s.lost + {Handle(i, gen)}) }

  predicate InNativeJoin(p: Pc) { p.Joining? || p.Reaping? }

  /** The caller goes away, or comes back with an error, while the claim it took stays taken. */
  ghost function AbandonStep(s: State, c: Caller): State
    requires InNativeJoin(At(s, c))
  {
    Move(Lose(s, At(s, c).i, At(s, c).gen), c, Idle(Generic))
  }

  ghost function JoinReturnsStep(s: State, c: Caller, ok: bool): State
    requires At(s, c).Joining?
  {
    if ok then Move(Reap(s, At(s, c).h), c, Idle(Success)) else AbandonStep(s, c)
  }

  /**
   * A task ends: its entry function returns or exits, or the task is cancelled. Inside this pool's
   * calls only pthread_join is a cancellation point.
   */
  ghost function FinishStep(s: State, h: Handle): State
    requires InStage(s, h, Active)
  {
    SetStage(if InNativeJoin(At(s, Task(h))) then AbandonStep(s, Task(h)) else s, h, Ending)
  }

  /** The first locked section of AOS_TaskDelete; the claim is taken before the self test. */
  ghost function DeleteClaimStep(s: State, c: Caller, id: u32, same: bool): State
    requires Shaped(s)
  {
    match Lookup(s.hdrs, TYPE_TASK, id)
    case None => Move(s, c, Idle(InvalidId))
    case Some(i) =>
      var cell, gen := s.cells[i], s.hdrs[i].gen;
      var s' := if same && !cell.joined then Lose(s, i, gen) else s;
      UpdateCell(s', i, cell.(joined := true), c,
        if same then Idle(InvalidParam)
        else if cell.joined then Freeing(i, gen, id)
        else Cancelling(i, gen, ThreadOf(cell), id))
  }

  ghost function NativeCancelStep(s: State, c: Caller, rc: NativeResult): State
    requires At(s, c).Cancelling?
  {
    var p := At(s, c);
    Move(s, c, Reaping(p.i, p.gen, p.h, p.id, rc != NativeFailed))
  }

  /** ESRCH counts as success for AOS_TaskDelete, though nothing was joined. */
  ghost function DeleteJoinReturnsStep(s: State, c: Caller, rc: NativeResult): State
    requires At(s, c).Reaping?
  {
    var p := At(s, c);
    var s' := if rc == NativeOk then Reap(s, p.h) else Lose(s, p.i, p.gen);
    Move(s', c, if rc == NativeFailed || !p.cancelOk then Idle(Generic) else Freeing(p.i, p.gen, p.id))
  }

  /** The final section of AOS_TaskDelete. */
  ghost function DeleteFreeStep(s: State, c: Caller): State
    requires Shaped(s) && Inside(s, c) && At(s, c).Freeing?
  {
    var p, h := At(s, c), s.hdrs[At(s, c).i];
    if h.inUse && h.id == p.id
    then UpdateAll(s, p.i, h.(inUse := false, name := ""),
                   s.cells[p.i].(joined := false, state := Unused, stackSize := 0, body := NO_BODY), c, Idle(Success))
    else Move(s, c, Idle(Success))
  }

  /** AOS_TaskSetPriority; pthread_setschedprio is called only when RT is enabled. */
  ghost function SetPriorityStep(s: State, c: Caller, id: u32, priority: u8, nativeOk: bool): State
    requires Shaped(s)
  {
    if priority > LOWEST then Move(s, c, Idle(InvalidPriority))
    else
      match Lookup(s.hdrs, TYPE_TASK, id)
      case None => Move(s, c, Idle(InvalidId))
      case Some(i) =>
        if s.rt.enabled && !nativeOk then Move(s, c, Idle(Generic))
        else
          var s', h := UpdateCell(s, i, s.cells[i].(priority := priority), c, Idle(Success)), ThreadOf(s.cells[i]);
          if s.rt.enabled && h in s.threads
          then s'.(threads := s.threads[h := s.threads[h].(prio := MapPriority(s.rt.min, s.rt.max, priority))])
          else s'
  }

  ghost predicate Enabled(s: State, a: Action)
  {
    match a
    case Create(c, req) => CanCall(s, c)
    case CreateThread(c) => Inside(s, c) && At(s, c).Building? && Handle(At(s, c).i, At(s, c).gen) !in s.threads
    case CreateFails(c, why) => Inside(s, c) && At(s, c).Building?
    case CreateUndo(c) => Inside(s, c) && At(s, c).Undoing?
    case SetKey(h, ok) => InStage(s, h, Fresh)
    case EnterRunning(h) => InStage(s, h, Keyed)
    case Finish(h) => InStage(s, h, Active) && (At(s, Task(h)).Idle? || InNativeJoin(At(s, Task(h))))
    case Cleanup(h) => InStage(s, h, Ending)
    case JoinClaim(c, id, same) => CanCall(s, c) && EqualMayOf(s, c, id, same)
    case JoinReturns(c, ok) =>
      // pthread_join succeeds only on a thread that has terminated and was not joined before
      Inside(s, c) && At(s, c).Joining? && (ok && At(s, c).h in s.threads ==> s.threads[At(s, c).h].stage == Terminated)
    case DeleteClaim(c, id, same) => CanCall(s, c) && EqualMayOf(s, c, id, same)
    case NativeCancel(c, rc) => Inside(s, c) && At(s, c).Cancelling?
    case DeleteJoinReturns(c, rc) =>
      Inside(s, c) && At(s, c).Reaping? && (rc == NativeOk && At(s, c).h in s.threads ==> s.threads[At(s, c).h].stage == Terminated)
    case DeleteFree(c) => Inside(s, c) && At(s, c).Freeing?
    case Abandon(c) => Inside(s, c) && c.Foreign? && InNativeJoin(At(s, c))
    case SetPriority(c, id, priority, nativeOk) => CanCall(s, c)
  }

  ghost function Apply(s: State, a: Action): (r: State)
    requires Shaped(s) && Enabled(s, a)
    ensures Shaped(r) && |r.hdrs| == |s.hdrs|
  {
    match a
    case Create(c, req) => CreateStep(s, c, req)
    case CreateThread(c) => CreateThreadStep(s, c)
    case CreateFails(c, why) => CreateFailsStep(s, c, why)
    case CreateUndo(c) => CreateUndoStep(s, c)
    case SetKey(h, ok) => SetKeyStep(s, h, ok)
    case EnterRunning(h) => EnterRunningStep(s, h)
    case Finish(h) => FinishStep(s, h)
    case Cleanup(h) => CleanupStep(s, h)
    case JoinClaim(c, id, same) => JoinClaimStep(s, c, id, same)
    case JoinReturns(c, ok) => JoinReturnsStep(s, c, ok)
    case DeleteClaim(c, id, same) => DeleteClaimStep(s, c, id, same)
    case NativeCancel(c, rc) => NativeCancelStep(s, c, rc)
    case DeleteJoinReturns(c, rc) => DeleteJoinReturnsStep(s, c, rc)
    case DeleteFree(c) => DeleteFreeStep(s, c)
    case Abandon(c) => AbandonStep(s, c)
    case SetPriority(c, id, priority, nativeOk) => SetPriorityStep(s, c, id, priority, nativeOk)
  }

  /** An action that is not possible in a state leaves it alone, so every action list is a schedule. */
  ghost function Step(s: State, a: Action): (r: State)
    requires Shaped(s)
    ensures Shaped(r) && |r.hdrs| == |s.hdrs|
  {
    if Enabled(s, a) then Apply(s, a) else s
  }

  ghost function Exec(s: State, run: seq<Action>): (r: State)
    requires Shaped(s)
    ensures Shaped(r) && |r.hdrs| == |s.hdrs|
    decreases |run|
  {
    if run == [] then s else Exec(Step(s, run[0]), run[1..])
  }

  // ---------- The rules for callers ----------

  /** A Create of slot i has not returned. */
  predicate Makes(p: Pc, i: nat) { (p.Building? || p.Undoing?) && p.i == i }

  /** A Join or Delete of the task in slot i is between its claim and its end. */
  predicate Ends(p: Pc, i: nat) { (p.Joining? || p.Cancelling? || p.Reaping? || p.Freeing?) && p.i == i }

  ghost predicate BeingMade(s: State, i: nat) { exists c :: Makes(At(s, c), i) }

  ghost predicate BeingEnded(s: State, i: nat) { exists c :: Ends(At(s, c), i) }

  /**
   * An id is passed to Join, Delete and SetPriority only once its Create has returned; a task is not
   * deleted by another thread while a Join or Delete of it is under way; with real-time
   * scheduling, the priority of a task whose thread has been joined is not set.
   */
  ghost predicate Allowed(s: State, a: Action)
  {
    match a
    case JoinClaim(c, id, same) =>
      (match Lookup(s.hdrs, TYPE_TASK, id) case None => true case Some(i) => !BeingMade(s, i))
    case DeleteClaim(c, id, same) =>
      (match Lookup(s.hdrs, TYPE_TASK, id)
       case None => true
       case Some(i) => i < |s.cells| ==> !BeingMade(s, i) && (same || !BeingEnded(s, i)))
    case SetPriority(c, id, priority, nativeOk) =>
      (match Lookup(s.hdrs, TYPE_TASK, id)
       case None => true
       case Some(i) => !BeingMade(s, i) && (s.rt.enabled ==> !WasReaped(s, Handle(i, s.hdrs[i].gen))))
    case _ => true
  }

  ghost predicate InContract(s: State, run: seq<Action>)
    requires Shaped(s)
    decreases |run|
  {
    run == [] || (Allowed(s, run[0]) && InContract(Step(s, run[0]), run[1..]))
  }

  /** AOS_PosixTaskInit: a zeroed pool, no native threads, every caller outside the API. */
  ghost function Init(n: nat, rt: Rt): State
  {
    State(seq(n, _ => ZEROED), seq(n, _ => Cell(Unused, false, None, 0, 0, NO_BODY)), map[], map[], rt, {})
  }
}
