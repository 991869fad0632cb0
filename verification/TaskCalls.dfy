/** Whole API calls on a task, with any other callers and threads running between their sections. */
module TaskCalls {
  import opened Common
  import opened Ids
  import opened Table
  import opened Priority
  import opened TaskModel
  import opened TaskProperties
  import opened TaskDictionary

  // ---------- Others run ----------

  /** Whose call an action is a part of, or ends. */
  function Mover(a: Action): Option<Caller>
  {
    match a
    case SetKey(_, _) => None
    case EnterRunning(_) => None
    case Cleanup(_) => None
    case Finish(h) => Some(Task(h))
    case _ => Some(a.c)
  }

  lemma StepOfOther(s: State, a: Action, c: Caller)
    requires Shaped(s) && Mover(a) != Some(c)
    ensures At(Step(s, a), c) == At(s, c)
  {
  }

  /** Everybody but c runs for a while, and c is not cancelled. */
  ghost predicate Meanwhile(s: State, run: seq<Action>, c: Caller)
    requires Shaped(s)
  {
    InContract(s, run) && forall k :: 0 <= k < |run| ==> Mover(run[k]) != Some(c)
  }

  lemma {:induction false} StaysPut(s: State, run: seq<Action>, c: Caller)
    requires Shaped(s) && Meanwhile(s, run, c)
    ensures At(Exec(s, run), c) == At(s, c)
    decreases |run|
  {
    if run != [] {
      StepOfOther(s, run[0], c);
      StaysPut(Step(s, run[0]), run[1..], c);
    }
  }

  lemma After(s: State, run: seq<Action>, c: Caller)
    requires Inv(s) && Meanwhile(s, run, c)
    ensures var r := Exec(s, run); Inv(r) && At(r, c) == At(s, c) && CallerOk(r, c)
  {
    RunKeepsInv(s, run);
    StaysPut(s, run, c);
  }

  /** A slot in which c is making, joining or deleting a task keeps its header and stack size. */
  lemma StepLeavesSlot(s: State, a: Action, c: Caller, i: nat)
    requires Inv(s) && Allowed(s, a) && Mover(a) != Some(c) && TaskProperties.Busy(At(s, c), i) && i < |s.hdrs|
    ensures Step(s, a).hdrs[i] == s.hdrs[i] && Step(s, a).cells[i].stackSize == s.cells[i].stackSize
  {
    assert CallerOk(s, c);
    if Enabled(s, a) {
      if a.CreateUndo? || a.DeleteFree? {
        assert TaskProperties.Busy(At(s, a.c), At(s, a.c).i);
      } else {
        CellStackStays(s, a, i);
      }
    }
  }

  lemma CellStackStays(s: State, a: Action, i: nat)
    requires Shaped(s) && Enabled(s, a) && i < |s.hdrs| && s.hdrs[i].inUse && !(a.CreateUndo? || a.DeleteFree?)
    ensures Step(s, a).hdrs[i] == s.hdrs[i] && Step(s, a).cells[i].stackSize == s.cells[i].stackSize
  {
  }

  lemma {:induction false} SlotIsKept(s: State, run: seq<Action>, c: Caller, i: nat)
    requires Inv(s) && Meanwhile(s, run, c) && TaskProperties.Busy(At(s, c), i) && i < |s.hdrs|
    ensures Exec(s, run).hdrs[i] == s.hdrs[i] && Exec(s, run).cells[i].stackSize == s.cells[i].stackSize
    decreases |run|
  {
    if run != [] {
      StepLeavesSlot(s, run[0], c, i);
      StepOfOther(s, run[0], c);
      StepKeepsInv(s, run[0]);
      SlotIsKept(Step(s, run[0]), run[1..], c, i);
    }
  }

  // ---------- Delete ----------

  /** Delete's first answers, and which way it goes on. */
  lemma DeleteAnswers(s: State, c: Caller, id: u32, same: bool)
    requires Inv(s) && Enabled(s, DeleteClaim(c, id, same))
    ensures var d, p := Dict(s.hdrs), At(DeleteClaimStep(s, c, id, same), c);
            && (p == Idle(InvalidId) <==> id !in d)
            && (p == Idle(InvalidParam) <==> id in d && same)
            && (p.Freeing? <==> id in d && !same && s.cells[Lookup(s.hdrs, TYPE_TASK, id).value].joined)
            && (p.Cancelling? <==> id in d && !same && !s.cells[Lookup(s.hdrs, TYPE_TASK, id).value].joined)
  {
    LookupIsMembership(s.hdrs, TYPE_TASK, id);
  }

  /** The two native results with which a Delete goes on to free the slot: 0 or ESRCH from each. */
  predicate FreesOn(rcCancel: NativeResult, rcJoin: NativeResult)
  {
    (rcCancel == NativeOk || rcCancel == NoSuchThread) && (rcJoin == NativeOk || rcJoin == NoSuchThread)
  }

  /**
   * Delete of a valid id whose claim was free, when pthread_equal says no, from the claim to the return,
   * with any others running between its sections (run1, run2, run3). If cancel and join each
   * returned 0 or ESRCH it frees the slot, takes the id out of the dictionary and returns SUCCESS. In
   * every other case it returns GENERIC after the join, and the id is still in the dictionary then.
   */
  lemma DeleteCall(s: State, c: Caller, id: u32, run1: seq<Action>, s2: State, rcCancel: NativeResult,
                   run2: seq<Action>, s4: State, rcJoin: NativeResult, s5: State, run3: seq<Action>, s6: State)
    requires Inv(s) && id in Dict(s.hdrs) && !s.cells[SlotOfId(s, id)].joined
    requires var a := DeleteClaim(c, id, false);
             Enabled(s, a) && Allowed(s, a) && Meanwhile(Step(s, a), run1, c) && s2 == Exec(Step(s, a), run1)
    requires var a := NativeCancel(c, rcCancel); Meanwhile(Step(s2, a), run2, c) && s4 == Exec(Step(s2, a), run2)
    requires var a := DeleteJoinReturns(c, rcJoin); Enabled(s4, a) && s5 == Step(s4, a)
    requires Meanwhile(s5, run3, c) && s6 == Exec(s5, run3)
    ensures FreesOn(rcCancel, rcJoin) ==>
              var r := Step(s6, DeleteFree(c));
              At(r, c) == Idle(Success) && |r.hdrs| == |s.hdrs| && !r.hdrs[SlotOfId(s, id)].inUse && id !in Dict(r.hdrs)
    ensures !FreesOn(rcCancel, rcJoin) ==> At(s5, c) == Idle(Generic) && id in Dict(s5.hdrs)
  {
    var i := SlotOfId(s, id);
    DeleteStarts(s, c, id, run1, s2);
    DeleteCancelled(s2, c, rcCancel, i, id);
    After(Step(s2, NativeCancel(c, rcCancel)), run2, c);
    DeleteJoined(s4, c, rcCancel, rcJoin, i, id);
    After(s5, run3, c);
    if FreesOn(rcCancel, rcJoin) { DeleteEnds(s6, c, i, id); }
  }

  /** The slot an id in the dictionary names. */
  ghost function SlotOfId(s: State, id: u32): (i: nat)
    requires Sound(s.hdrs, TYPE_TASK) && |s.hdrs| == |s.cells| && id in Dict(s.hdrs)
    ensures i < |s.hdrs| && Lookup(s.hdrs, TYPE_TASK, id) == Some(i) && s.hdrs[i].inUse && s.hdrs[i].id == id
  {
    LookupIsMembership(s.hdrs, TYPE_TASK, id);
    Lookup(s.hdrs, TYPE_TASK, id).value
  }

  lemma DeleteStarts(s: State, c: Caller, id: u32, run1: seq<Action>, s2: State)
    requires Inv(s) && id in Dict(s.hdrs) && !s.cells[SlotOfId(s, id)].joined
    requires var a := DeleteClaim(c, id, false);
             Enabled(s, a) && Allowed(s, a) && Meanwhile(Step(s, a), run1, c) && s2 == Exec(Step(s, a), run1)
    ensures Inv(s2) && |s2.hdrs| == |s.hdrs| && At(s2, c).Cancelling? && At(s2, c).i == SlotOfId(s, id) && At(s2, c).id == id
  {
    StepKeepsInv(s, DeleteClaim(c, id, false));
    After(Step(s, DeleteClaim(c, id, false)), run1, c);
  }

  lemma DeleteCancelled(s: State, c: Caller, rcCancel: NativeResult, i: nat, id: u32)
    requires Inv(s) && At(s, c).Cancelling? && At(s, c).i == i < |s.hdrs| && At(s, c).id == id
    ensures var r, p := Step(s, NativeCancel(c, rcCancel)), At(Step(s, NativeCancel(c, rcCancel)), c);
            && Inv(r) && |r.hdrs| == |s.hdrs| && p.Reaping? && p.i == i && p.id == id
            && (p.cancelOk <==> rcCancel == NativeOk || rcCancel == NoSuchThread)
  {
    NativeCancelKeepsInv(s, c, rcCancel);
  }

  lemma DeleteJoined(s: State, c: Caller, rcCancel: NativeResult, rcJoin: NativeResult, i: nat, id: u32)
    requires Inv(s) && At(s, c).Reaping? && At(s, c).i == i < |s.hdrs| && At(s, c).id == id
    requires At(s, c).cancelOk <==> rcCancel == NativeOk || rcCancel == NoSuchThread
    requires Enabled(s, DeleteJoinReturns(c, rcJoin))
    ensures var r, p := Step(s, DeleteJoinReturns(c, rcJoin)), At(Step(s, DeleteJoinReturns(c, rcJoin)), c);
            && Inv(r) && |r.hdrs| == |s.hdrs| && id in Dict(r.hdrs)
            && (FreesOn(rcCancel, rcJoin) ==> p.Freeing? && p.i == i && p.id == id)
            && (!FreesOn(rcCancel, rcJoin) ==> p == Idle(Generic))
  {
    assert CallerOk(s, c);
    DeleteJoinReturnsKeepsInv(s, c, rcJoin);
    LookupFindsOwnId(s.hdrs, TYPE_TASK, i);
    LookupIsMembership(s.hdrs, TYPE_TASK, id);
  }

  /** The last section of a Delete, also of one that found the claim taken. */
  lemma DeleteEnds(s: State, c: Caller, i: nat, id: u32)
    requires Inv(s) && At(s, c).Freeing? && At(s, c).i == i < |s.hdrs| && At(s, c).id == id
    ensures var r := Step(s, DeleteFree(c));
            && At(r, c) == Idle(Success) && |r.hdrs| == |s.hdrs| && !r.hdrs[i].inUse && id in Dict(s.hdrs) && id !in Dict(r.hdrs)
  {
    assert CallerOk(s, c);
    FreeIsRemove(s, DeleteFree(c));
  }

  /** A Delete that found the claim taken: it frees the slot and returns SUCCESS, whoever ran in between. */
  lemma DeleteTakenCall(s: State, c: Caller, id: u32, run1: seq<Action>)
    requires Inv(s) && id in Dict(s.hdrs) && s.cells[SlotOfId(s, id)].joined
    requires var a := DeleteClaim(c, id, false); Enabled(s, a) && Allowed(s, a) && Meanwhile(Step(s, a), run1, c)
    ensures var r := Step(Exec(Step(s, DeleteClaim(c, id, false)), run1), DeleteFree(c));
            && At(r, c) == Idle(Success) && |r.hdrs| == |s.hdrs| && !r.hdrs[SlotOfId(s, id)].inUse && id !in Dict(r.hdrs)
  {
    var a := DeleteClaim(c, id, false);
    StepKeepsInv(s, a);
    After(Step(s, a), run1, c);
    DeleteEnds(Exec(Step(s, a), run1), c, SlotOfId(s, id), id);
  }

  // ---------- Join ----------

  /** Join's first answers: an unknown id, a claim already taken, the caller itself, in this order. */
  lemma JoinAnswers(s: State, c: Caller, id: u32, same: bool)
    requires Inv(s) && Enabled(s, JoinClaim(c, id, same))
    ensures var d, p := Dict(s.hdrs), At(JoinClaimStep(s, c, id, same), c);
            && (p == Idle(InvalidId) <==> id !in d)
            && (p == Idle(InvalidState) <==> id in d && s.cells[Lookup(s.hdrs, TYPE_TASK, id).value].joined)
            && (p == Idle(InvalidParam) <==> id in d && !s.cells[Lookup(s.hdrs, TYPE_TASK, id).value].joined && same)
            && (p.Joining? <==> id in d && !s.cells[Lookup(s.hdrs, TYPE_TASK, id).value].joined && !same)
            && (!p.Joining? ==> JoinClaimStep(s, c, id, same).cells == s.cells)
  {
    LookupIsMembership(s.hdrs, TYPE_TASK, id);
  }

  /**
   * Join of a valid, unclaimed id, with any others running before pthread_join returns: SUCCESS exactly
   * if that returned 0, and then the thread is reaped; GENERIC if not. The id stays valid.
   */
  lemma JoinCall(s: State, c: Caller, id: u32, run1: seq<Action>, s2: State, ok: bool)
    requires Inv(s) && id in Dict(s.hdrs) && !s.cells[SlotOfId(s, id)].joined
    requires var a := JoinClaim(c, id, false);
             Enabled(s, a) && Allowed(s, a) && Meanwhile(Step(s, a), run1, c) && s2 == Exec(Step(s, a), run1)
    requires Enabled(s2, JoinReturns(c, ok))
    ensures var r, i := Step(s2, JoinReturns(c, ok)), SlotOfId(s, id);
            && (At(r, c) == Idle(Success) <==> ok) && (At(r, c) == Idle(Generic) <==> !ok)
            && (WasReaped(r, Current(s, i)) <==> ok) && id in Dict(r.hdrs) && |r.cells| == |s.cells| && r.cells[i].joined
  {
    var a, i := JoinClaim(c, id, false), SlotOfId(s, id);
    StepKeepsInv(s, a);
    After(Step(s, a), run1, c);
    SlotIsKept(Step(s, a), run1, c, i);
    JoinEnds(s2, c, i, ok);
  }

  lemma JoinEnds(s: State, c: Caller, i: nat, ok: bool)
    requires Inv(s) && Enabled(s, JoinReturns(c, ok)) && At(s, c).i == i < |s.hdrs|
    ensures var r := Step(s, JoinReturns(c, ok));
            && (At(r, c) == Idle(Success) <==> ok) && (At(r, c) == Idle(Generic) <==> !ok)
            && (WasReaped(r, Current(s, i)) <==> ok) && |r.cells| == |s.cells| && r.cells[i].joined && s.hdrs[i].id in Dict(r.hdrs)
  {
    assert CallerOk(s, c);
    Facts(s, c, i);
    LookupFindsOwnId(s.hdrs, TYPE_TASK, i);
    LookupIsMembership(s.hdrs, TYPE_TASK, s.hdrs[i].id);
  }

  // ---------- Create ----------

  /** The id that a Create from state s gives out if it succeeds. */
  ghost function NextId(s: State): u32
    requires Shaped(s) && FirstFree(s.hdrs) < |s.hdrs|
  {
    IdOf(TYPE_TASK, FirstFree(s.hdrs), s.hdrs[FirstFree(s.hdrs)].gen + 1)
  }

  /** The first section of a Create that goes on to pthread_create, and what others leave of it. */
  lemma CreateStarts(s: State, c: Caller, req: TaskRequest, run1: seq<Action>, s2: State)
    requires Inv(s) && CanCall(s, c) && At(CreateStep(s, c, req), c).Building?
    requires Meanwhile(Step(s, Create(c, req)), run1, c) && s2 == Exec(Step(s, Create(c, req)), run1)
    ensures FirstFree(s.hdrs) < |s.hdrs| == |s2.hdrs| && req.name.Some?
    ensures var i, p := FirstFree(s.hdrs), At(s2, c);
            && Inv(s2) && p == Building(i, s.hdrs[i].gen + 1, req.priority, req.body)
            && s2.hdrs[i].inUse && s2.hdrs[i].name == req.name.value && s2.hdrs[i].id == NextId(s) && s2.hdrs[i].gen == s.hdrs[i].gen + 1
            && s2.cells[i].stackSize == req.stackSize && s2.cells[i].priority == req.priority && s2.cells[i].body == req.body
  {
    var s1, i := CreateStep(s, c, req), FirstFree(s.hdrs);
    SlotIsFilled(s, c, req);
    CreateKeepsInv(s, c, req);
    After(s1, run1, c);
    SlotIsKept(s1, run1, c, i);
  }

  lemma SlotIsFilled(s: State, c: Caller, req: TaskRequest)
    requires Inv(s) && CanCall(s, c) && At(CreateStep(s, c, req), c).Building?
    ensures FirstFree(s.hdrs) < |s.hdrs| && req.name.Some?
    ensures var i, s1 := FirstFree(s.hdrs), CreateStep(s, c, req);
            && Step(s, Create(c, req)) == s1 && |s1.hdrs| == |s.hdrs| == |s1.cells|
            && At(s1, c) == Building(i, s.hdrs[i].gen + 1, req.priority, req.body)
            && s1.hdrs[i].inUse && s1.hdrs[i].name == req.name.value && s1.hdrs[i].id == NextId(s) && s1.hdrs[i].gen == s.hdrs[i].gen + 1
            && s1.cells[i].stackSize == req.stackSize
  {
    assert HeaderSound(s.hdrs[FirstFree(s.hdrs)], TYPE_TASK, FirstFree(s.hdrs));
  }

  /**
   * A Create whose native part succeeds returns SUCCESS; its id is valid, and the task has the name, stack
   * size, priority, entry function and argument it was asked to have.
   */
  lemma CreateCall(s: State, c: Caller, req: TaskRequest, run1: seq<Action>, s2: State)
    requires Inv(s) && CanCall(s, c) && At(CreateStep(s, c, req), c).Building?
    requires Meanwhile(Step(s, Create(c, req)), run1, c) && s2 == Exec(Step(s, Create(c, req)), run1)
    ensures FirstFree(s.hdrs) < |s.hdrs| && req.name.Some?
    ensures var r, i := Step(s2, CreateThread(c)), FirstFree(s.hdrs);
            && At(r, c) == Idle(Success) && |r.hdrs| == |s.hdrs| == |r.cells| && Lookup(r.hdrs, TYPE_TASK, NextId(s)) == Some(i)
            && r.hdrs[i].name == req.name.value && r.cells[i].stackSize == req.stackSize && r.cells[i].priority == req.priority
            && Current(r, i) in r.threads && r.threads[Current(r, i)].given == req.body
            && r.threads[Current(r, i)].prio == NativePriority(r.rt, req.priority) && r.threads[Current(r, i)].stage == Fresh
  {
    CreateStarts(s, c, req, run1, s2);
    assert CallerOk(s2, c);
    LookupFindsOwnId(s2.hdrs, TYPE_TASK, FirstFree(s.hdrs));
    assert Step(s2, CreateThread(c)) == CreateThreadStep(s2, c);
  }

  /**
   * A Create whose native part fails takes the id back and returns INVALID_SIZE exactly if the attributes
   * were refused as invalid, and CREATION_FAILED otherwise.
   */
  lemma CreateFailsCall(s: State, c: Caller, req: TaskRequest, run1: seq<Action>, s2: State, why: Failure, run2: seq<Action>, s4: State)
    requires Inv(s) && CanCall(s, c) && At(CreateStep(s, c, req), c).Building?
    requires Meanwhile(Step(s, Create(c, req)), run1, c) && s2 == Exec(Step(s, Create(c, req)), run1)
    requires Meanwhile(Step(s2, CreateFails(c, why)), run2, c) && s4 == Exec(Step(s2, CreateFails(c, why)), run2)
    ensures FirstFree(s.hdrs) < |s.hdrs|
    ensures var r := Step(s4, CreateUndo(c));
            && (At(r, c) == Idle(InvalidSize) <==> why == AttrsInvalid) && (At(r, c) == Idle(CreationFailed) <==> why != AttrsInvalid)
            && |r.hdrs| == |s.hdrs| && !r.hdrs[FirstFree(s.hdrs)].inUse && NextId(s) !in Dict(r.hdrs)
  {
    CreateStarts(s, c, req, run1, s2);
    var s3 := CreateFailsStep(s2, c, why);
    assert Step(s2, CreateFails(c, why)) == s3;
    CreateFailsKeepsInv(s2, c, why);
    After(s3, run2, c);
    SlotIsKept(s3, run2, c, FirstFree(s.hdrs));
    FreeIsRemove(s4, CreateUndo(c));
  }

  // ---------- SetPriority ----------

  lemma SetPriorityStatuses(s: State, c: Caller, id: u32, priority: u8, nativeOk: bool)
    requires Inv(s)
    ensures var d, p := Dict(s.hdrs), At(SetPriorityStep(s, c, id, priority, nativeOk), c);
            && (p == Idle(InvalidPriority) <==> priority > 31)
            && (p == Idle(InvalidId) <==> priority <= 31 && id !in d)
            && (p == Idle(Generic) <==> priority <= 31 && id in d && s.rt.enabled && !nativeOk)
            && (p == Idle(Success) <==> priority <= 31 && id in d && (!s.rt.enabled || nativeOk))
  {
    LookupIsMembership(s.hdrs, TYPE_TASK, id);
  }

  /**
   * Every answer of SetPriority, by the exact condition: out of range, unknown id, a failed native call,
   * or success; only success changes anything, namely the slot's priority and its own thread's.
   */
  lemma SetPriorityAnswers(s: State, c: Caller, id: u32, priority: u8, nativeOk: bool)
    requires Inv(s) && CanCall(s, c) && Allowed(s, SetPriority(c, id, priority, nativeOk))
    ensures var d, r := Dict(s.hdrs), SetPriorityStep(s, c, id, priority, nativeOk);
            var p := At(r, c);
            && (p == Idle(InvalidPriority) <==> priority > 31)
            && (p == Idle(InvalidId) <==> priority <= 31 && id !in d)
            && (p == Idle(Generic) <==> priority <= 31 && id in d && s.rt.enabled && !nativeOk)
            && (p == Idle(Success) <==> priority <= 31 && id in d && (!s.rt.enabled || nativeOk))
            && r.hdrs == s.hdrs && (p != Idle(Success) ==> r.cells == s.cells && r.threads == s.threads)
            && (p == Idle(Success) ==> PriorityChange(s, r, c, SlotOfId(s, id), priority))
  {
    SetPriorityStatuses(s, c, id, priority, nativeOk);
    LookupIsMembership(s.hdrs, TYPE_TASK, id);
    if priority <= LOWEST && Lookup(s.hdrs, TYPE_TASK, id).Some? && (s.rt.enabled ==> nativeOk) {
      PriorityIsChanged(s, c, id, priority, nativeOk);
    }
  }

  // ---------- The stack size that GetInfo reports ----------

  lemma StepKeepsStack(s: State, a: Action, i: nat)
    requires Shaped(s) && i < |s.hdrs|
    ensures var r := Step(s, a);
            && s.hdrs[i].gen <= r.hdrs[i].gen && (r.hdrs[i].inUse && r.hdrs[i].gen == s.hdrs[i].gen ==> s.hdrs[i].inUse)
            && (s.hdrs[i].inUse && r.hdrs[i].inUse ==> r.cells[i].stackSize == s.cells[i].stackSize)
  {
    if Enabled(s, a) && s.hdrs[i].inUse && !(a.CreateUndo? || a.DeleteFree?) { CellStackStays(s, a, i); }
  }

  lemma {:induction false} UseIsGenerationBound(s: State, run: seq<Action>, i: nat)
    requires Shaped(s) && i < |s.hdrs|
    ensures var r := Exec(s, run); s.hdrs[i].gen <= r.hdrs[i].gen && (r.hdrs[i].inUse && r.hdrs[i].gen == s.hdrs[i].gen ==> s.hdrs[i].inUse)
    decreases |run|
  {
    if run != [] {
      StepKeepsStack(s, run[0], i);
      UseIsGenerationBound(Step(s, run[0]), run[1..], i);
    }
  }

  /** Over every run that leaves a task in its slot, its stack size stays what its Create was passed. */
  lemma {:induction false} StackSizeStays(s: State, run: seq<Action>, i: nat)
    requires Shaped(s) && i < |s.hdrs| && s.hdrs[i].inUse
    requires Exec(s, run).hdrs[i].inUse && Exec(s, run).hdrs[i].gen == s.hdrs[i].gen
    ensures Exec(s, run).cells[i].stackSize == s.cells[i].stackSize
    decreases |run|
  {
    if run != [] {
      StepKeepsStack(s, run[0], i);
      UseIsGenerationBound(Step(s, run[0]), run[1..], i);
      StackSizeStays(Step(s, run[0]), run[1..], i);
    }
  }
}
