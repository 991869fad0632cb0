/** Whole API calls on a semaphore, with any other threads running between their sections. */
module SemCalls {
  import opened Common
  import opened Ids
  import opened Table
  import opened SemModel
  import opened SemProperties
  import opened SemTheorems

  /** A step of another thread, or a native wait of t's that is interrupted and retried. */
  predicate StepAside(a: Action, t: Tid) { a.t != t || (a.NativeWait? && a.rc == Interrupted) }

  ghost predicate NoMoveOf(run: seq<Action>, t: Tid) { forall k :: 0 <= k < |run| ==> StepAside(run[k], t) }

  lemma StepOfOther(s: State, a: Action, t: Tid)
    requires Shaped(s) && t in s.pc && StepAside(a, t)
    ensures t in Step(s, a).pc && Step(s, a).pc[t] == s.pc[t]
  {
  }

  lemma {:induction false} StaysPut(s: State, run: seq<Action>, t: Tid)
    requires Shaped(s) && t in s.pc && NoMoveOf(run, t)
    ensures t in Exec(s, run).pc && Exec(s, run).pc[t] == s.pc[t]
    decreases |run|
  {
    if run != [] {
      StepOfOther(s, run[0], t);
      StaysPut(Step(s, run[0]), run[1..], t);
    }
  }

  /** Other threads run for a while, and t's native wait may be interrupted any number of times. */
  ghost predicate Meanwhile(s: State, run: seq<Action>, t: Tid)
    requires Shaped(s)
  {
    InContract(s, run) && NoMoveOf(run, t)
  }

  lemma After(s: State, run: seq<Action>, t: Tid)
    requires Inv(s) && t in s.pc && Meanwhile(s, run, t)
    ensures var r := Exec(s, run); Inv(r) && t in r.pc && r.pc[t] == s.pc[t] && ThreadOk(r, t)
  {
    RunKeepsInv(s, run);
    StaysPut(s, run, t);
  }

  /**
   * What the native call of each kind says about the semaphore when it was made. It may break for
   * other reasons at any time; if it does not, TryWait tells Full from the other phases.
   */
  predicate NativeWaitMeans(rc: WaitResult, kind: WaitKind, met: Phase)
  {
    && (rc == Taken ==> met == Full)
    && (rc == WouldBlock ==> kind == TryWait && met != Full)
    && (rc == Expired ==> kind == TimedWait)
    && (rc != Broken && kind == TryWait ==> if met == Full then rc == Taken else rc == WouldBlock)
    && (rc != Broken && kind == Wait ==> rc == Taken)
  }

  /**
   * Wait, TryWait and TimedWait of a valid id, from the reference up to where it is dropped, with any
   * other threads running in between and any number of native calls that end with EINTR. The object
   * is the same throughout; the result tells the phase the native call met; a successful call has
   * moved the token from Full to Taking and then left Empty behind.
   */
  lemma WaitCall(s: State, t: Tid, id: u32, kind: WaitKind, run1: seq<Action>, s2: State, rc: WaitResult, run2: seq<Action>, s4: State)
    requires Inv(s) && Enabled(s, Acquire(t, id, kind)) && Lookup(s.hdrs, TYPE_BINSEM, id).Some?
    requires Meanwhile(Step(s, Acquire(t, id, kind)), run1, t) && s2 == Exec(Step(s, Acquire(t, id, kind)), run1)
    requires rc != Interrupted && Enabled(s2, NativeWait(t, rc))
    requires Meanwhile(Step(s2, NativeWait(t, rc)), run2, t) && s4 == Exec(Step(s2, NativeWait(t, rc)), run2)
    ensures var i, gen := Lookup(s.hdrs, TYPE_BINSEM, id).value, s.hdrs[Lookup(s.hdrs, TYPE_BINSEM, id).value].gen;
            && SameObject(s2, i, gen) && SameObject(s4, i, gen)
            && t in s2.pc && s2.pc[t] == Waiting(i, gen, kind) && SlotPhase(s2.cells[i], s2.pc, i).Some? && t in s4.pc
            && (rc == Taken ==>
                  && Enabled(s4, ClearState(t)) && SlotPhase(s4.cells[i], s4.pc, i) == Some(Taking)
                  && var s5 := Step(s4, ClearState(t));
                     SlotPhase(s5.cells[i], s5.pc, i) == Some(Empty) && t in s5.pc && s5.pc[t] == Releasing(i, gen, Success))
            && (s4.pc[t] == Releasing(i, gen, Busy) <==> rc == WouldBlock)
            && (s4.pc[t] == Releasing(i, gen, TimedOut) <==> rc == Expired)
            && (s4.pc[t] == Releasing(i, gen, Generic) <==> rc == Broken)
            && NativeWaitMeans(rc, kind, SlotPhase(s2.cells[i], s2.pc, i).value)
  {
    var i := Lookup(s.hdrs, TYPE_BINSEM, id).value;
    var s1 := AcquireStep(s, t, id, kind);
    AcquireKeepsInv(s, t, id, kind);
    After(s1, run1, t);
    InvMakesUsesSound(s2, NativeWait(t, rc));
    PhaseExists(s2, i);
    NativeWaitIsAnswered(s2, t, rc);
    var s3 := NativeWaitStep(s2, t, rc);
    After(s3, run2, t);
    ObjectOfCaller(s4, t);
    if rc == Taken { ClearingEmpties(s4, t); }
  }

  lemma PhaseExists(s: State, i: nat)
    requires Inv(s) && Live(s, i)
    ensures SlotPhase(s.cells[i], s.pc, i).Some?
    ensures SlotPhase(s.cells[i], s.pc, i) == Some(Full) <==> s.cells[i].native.Sem? && s.cells[i].native.count > 0
    ensures SlotPhase(s.cells[i], s.pc, i) == Some(Empty) <==> s.cells[i].flag == 0
  {
    assert SlotOk(s.hdrs[i], s.cells[i], s.pc, i);
  }

  lemma ObjectOfCaller(s: State, t: Tid)
    requires Inv(s) && t in s.pc && (s.pc[t].Consumed? || s.pc[t].Releasing?)
    ensures SameObject(s, s.pc[t].i, s.pc[t].gen)
  {
    assert ThreadOk(s, t);
    var i := s.pc[t].i;
    assert SlotOk(s.hdrs[i], s.cells[i], s.pc, i);
  }

  lemma ClearingEmpties(s: State, t: Tid)
    requires Inv(s) && t in s.pc && s.pc[t].Consumed?
    ensures Enabled(s, ClearState(t))
    ensures var i, r := s.pc[t].i, ClearStateStep(s, t);
            SlotPhase(s.cells[i], s.pc, i) == Some(Taking) && SlotPhase(r.cells[i], r.pc, i) == Some(Empty)
  {
    var i := s.pc[t].i;
    ObjectOfCaller(s, t);
    StepFollowsAutomaton(s, ClearState(t), i);
  }

  /** The last section of such a call: one reference less, and the result is returned. */
  lemma WaitReturns(s: State, t: Tid)
    requires Inv(s) && Enabled(s, Release(t))
    ensures var i, r := s.pc[t].i, ReleaseStep(s, t);
            && r.pc[t] == Idle(s.pc[t].status) && r.cells[i].refCount == s.cells[i].refCount - 1
            && SlotPhase(r.cells[i], r.pc, i) == SlotPhase(s.cells[i], s.pc, i)
  {
    InvMakesUsesSound(s, Release(t));
    TokenStays(s, Release(t), s.pc[t].i);
  }

  /**
   * Post of a valid id, likewise. It is refused with INVALID_STATE exactly when the swap does not
   * meet phase Empty; otherwise it ends with SUCCESS in phase Full, and never with GENERIC.
   */
  lemma PostCall(s: State, t: Tid, id: u32, run1: seq<Action>, s2: State, run2: seq<Action>, s4: State)
    requires Inv(s) && Enabled(s, PostCheck(t, id)) && PostAccepts(s.hdrs, id).Some?
    requires Meanwhile(Step(s, PostCheck(t, id)), run1, t) && s2 == Exec(Step(s, PostCheck(t, id)), run1)
    requires Meanwhile(Step(s2, PostSwap(t)), run2, t) && s4 == Exec(Step(s2, PostSwap(t)), run2)
    ensures var i := PostAccepts(s.hdrs, id).value;
            && SameObject(s2, i, s.hdrs[i].gen) && t in s4.pc
            && (SlotPhase(s2.cells[i], s2.pc, i) != Some(Empty) ==> s4.pc[t] == Idle(InvalidState))
            && (SlotPhase(s2.cells[i], s2.pc, i) == Some(Empty) ==>
                  && Enabled(s4, NativePost(t)) && SameObject(s4, i, s.hdrs[i].gen)
                  && SlotPhase(s4.cells[i], s4.pc, i) == Some(Posted)
                  && var s5 := Step(s4, NativePost(t));
                     t in s5.pc && s5.pc[t] == Idle(Success) && SlotPhase(s5.cells[i], s5.pc, i) == Some(Full))
  {
    var i := PostAccepts(s.hdrs, id).value;
    PostCheckKeepsInv(s, t, id);
    After(PostCheckStep(s, t, id), run1, t);
    SwapMeetsPhase(s2, t);
    After(PostSwapStep(s2, t), run2, t);
    if s2.cells[i].flag == 0 { PostingFills(s4, t); }
  }

  lemma SwapMeetsPhase(s: State, t: Tid)
    requires Inv(s) && t in s.pc && s.pc[t].Checked?
    ensures Enabled(s, PostSwap(t)) && SameObject(s, s.pc[t].i, s.pc[t].gen)
    ensures var p, r := s.pc[t], PostSwapStep(s, t);
            && Inv(r) && Step(s, PostSwap(t)) == r
            && (SlotPhase(s.cells[p.i], s.pc, p.i) == Some(Empty) <==> s.cells[p.i].flag == 0)
            && r.pc[t] == if s.cells[p.i].flag == 0 then Won(p.i, p.gen) else Idle(InvalidState)
  {
    assert ThreadOk(s, t);
    InvMakesUsesSound(s, PostSwap(t));
    PhaseExists(s, s.pc[t].i);
    PostSwapKeepsInv(s, t);
  }

  lemma PostingFills(s: State, t: Tid)
    requires Inv(s) && t in s.pc && s.pc[t].Won?
    ensures Enabled(s, NativePost(t)) && SameObject(s, s.pc[t].i, s.pc[t].gen)
    ensures var i, r := s.pc[t].i, NativePostStep(s, t);
            && SlotPhase(s.cells[i], s.pc, i) == Some(Posted)
            && r.pc[t] == Idle(Success) && SlotPhase(r.cells[i], r.pc, i) == Some(Full)
  {
    assert ThreadOk(s, t);
    InvMakesUsesSound(s, NativePost(t));
    StepFollowsAutomaton(s, NativePost(t), s.pc[t].i);
  }

  /** Should sem_post fail after all, the flag is put back and the call returns GENERIC. */
  lemma FailedPostRollsBack(s: State, t: Tid)
    requires Shaped(s) && Inside(s, t) && s.pc[t].Won? && !(s.cells[s.pc[t].i].native.Sem? && s.cells[s.pc[t].i].native.count < SEM_VALUE_MAX)
    ensures var i, r := s.pc[t].i, Step(Step(s, NativePost(t)), PostUndo(t));
            t in r.pc && r.pc[t] == Idle(Generic) && r.hdrs == s.hdrs && r.cells == s.cells[i := s.cells[i].(flag := 0)]
  {
    var s1 := NativePostStep(s, t);
    assert Step(s, NativePost(t)) == s1;
    assert Step(s1, PostUndo(t)) == PostUndoStep(s1, t);
  }

  // ---------- Delete ----------

  /** While t's Delete is between its sections, no other thread changes the slot. */
  lemma StepLeavesWindow(s: State, a: Action, t: Tid, i: nat)
    requires Inv(s) && Allowed(s, a) && t in s.pc && Changes(s.pc[t], i) && StepAside(a, t) && i < |s.hdrs|
    ensures Step(s, a).hdrs[i] == s.hdrs[i] && Step(s, a).cells[i] == s.cells[i]
  {
    assert ThreadOk(s, t);
    assert Changing(s.pc, i);
    if Enabled(s, a) {
      if IdleAt(s, a.t) {
        StepFromIdle(s, a, i);
      } else {
        assert ThreadOk(s, a.t) && s.pc[a.t].i != i;
        StepElsewhere(s, a, i);
      }
    }
  }

  lemma StepElsewhere(s: State, a: Action, i: nat)
    requires Shaped(s) && Enabled(s, a) && Inside(s, a.t) && s.pc[a.t].i != i < |s.hdrs|
    ensures Step(s, a).hdrs[i] == s.hdrs[i] && Step(s, a).cells[i] == s.cells[i]
  {
  }

  /** The call of an idle thread leaves a slot alone that it may not create in and whose id is cleared. */
  lemma StepFromIdle(s: State, a: Action, i: nat)
    requires Shaped(s) && Enabled(s, a) && Allowed(s, a) && IdleAt(s, a.t) && i < |s.hdrs|
    requires Changing(s.pc, i) && s.hdrs[i].id == ID_NONE
    ensures Step(s, a).hdrs[i] == s.hdrs[i] && Step(s, a).cells[i] == s.cells[i]
  {
  }

  lemma {:induction false} WindowIsPrivate(s: State, run: seq<Action>, t: Tid, i: nat)
    requires Inv(s) && InContract(s, run) && t in s.pc && Changes(s.pc[t], i) && NoMoveOf(run, t) && i < |s.hdrs|
    ensures Exec(s, run).hdrs[i] == s.hdrs[i] && Exec(s, run).cells[i] == s.cells[i]
    decreases |run|
  {
    if run != [] {
      StepLeavesWindow(s, run[0], t, i);
      StepOfOther(s, run[0], t);
      StepKeepsInv(s, run[0]);
      WindowIsPrivate(Step(s, run[0]), run[1..], t, i);
    }
  }

  /** The two stores of Delete that open its window take the id and in_use away and change nothing else. */
  lemma WindowOpens(s: State, t: Tid, id: u32)
    requires Inv(s) && Enabled(s, DeleteBegin(t, id)) && Allowed(s, DeleteBegin(t, id))
    requires DeleteBeginStep(s, t, id).pc[t].Retiring?
    ensures var i, r := Lookup(s.hdrs, TYPE_BINSEM, id).value, DeleteStoreStep(DeleteBeginStep(s, t, id), t);
            && Inv(r) && t in r.pc && r.pc[t] == Destroying(i, id) && r.cells == s.cells
            && s.hdrs[i] == r.hdrs[i].(inUse := true, id := id)
  {
    DeleteBeginKeepsInv(s, t, id);
    DeleteStoreKeepsInv(DeleteBeginStep(s, t, id), t);
  }

  /**
   * A Delete whose sem_destroy fails puts everything back: with any other threads running between
   * its sections (run1 before sem_destroy, run2 and run3 after it), the slot ends as WindowOpens
   * says it was before the Delete.
   */
  lemma RollBackRestores(s2: State, t: Tid, run1: seq<Action>, how: DestroyResult, s4: State, run2: seq<Action>,
                         s5: State, run3: seq<Action>, i: nat, id: u32)
    requires Inv(s2) && t in s2.pc && s2.pc[t] == Destroying(i, id) && i < |s2.hdrs|
    requires how != Destroyed && Meanwhile(s2, run1, t) && s4 == Step(Exec(s2, run1), NativeDestroy(t, how))
    requires Meanwhile(s4, run2, t) && Enabled(Exec(s4, run2), DeleteEnd(t)) && s5 == Step(Exec(s4, run2), DeleteEnd(t))
    requires Meanwhile(s5, run3, t)
    ensures var r := Step(Exec(s5, run3), Republish(t));
            && |r.hdrs| == |s2.hdrs| && t in r.pc && r.pc[t] == Idle(if how == StillUsed then Busy else Generic)
            && r.hdrs[i] == s2.hdrs[i].(inUse := true, id := id) && r.cells[i] == s2.cells[i]
  {
    DestroyFails(s2, t, run1, how, i, id);
    Restores(s4, t, run2, i, id);
    Republishes(s5, t, run3, i, id);
  }

  lemma DestroyFails(s: State, t: Tid, run: seq<Action>, how: DestroyResult, i: nat, id: u32)
    requires Inv(s) && t in s.pc && s.pc[t] == Destroying(i, id) && i < |s.hdrs|
    requires how != Destroyed && Meanwhile(s, run, t)
    ensures var r := Step(Exec(s, run), NativeDestroy(t, how));
            && Inv(r) && t in r.pc && r.pc[t] == Restoring(i, id, if how == StillUsed then Busy else Generic)
            && r.hdrs[i] == s.hdrs[i] && r.cells[i] == s.cells[i]
  {
    After(s, run, t);
    WindowIsPrivate(s, run, t, i);
    NativeDestroyKeepsInv(Exec(s, run), t, how);
  }

  lemma Restores(s: State, t: Tid, run: seq<Action>, i: nat, id: u32)
    requires Inv(s) && t in s.pc && s.pc[t].Restoring? && s.pc[t].i == i < |s.hdrs| && s.pc[t].id == id
    requires Meanwhile(s, run, t) && Enabled(Exec(s, run), DeleteEnd(t))
    ensures var r := Step(Exec(s, run), DeleteEnd(t));
            && Inv(r) && t in r.pc && r.pc[t] == Republishing(i, id, s.pc[t].status)
            && r.hdrs[i] == s.hdrs[i].(inUse := true) && r.cells[i] == s.cells[i]
  {
    After(s, run, t);
    WindowIsPrivate(s, run, t, i);
    DeleteEndKeepsInv(Exec(s, run), t);
  }

  lemma Republishes(s: State, t: Tid, run: seq<Action>, i: nat, id: u32)
    requires Inv(s) && t in s.pc && s.pc[t].Republishing? && s.pc[t].i == i < |s.hdrs| && s.pc[t].id == id
    requires Meanwhile(s, run, t)
    ensures var r := Step(Exec(s, run), Republish(t));
            && t in r.pc && r.pc[t] == Idle(s.pc[t].status)
            && r.hdrs[i] == s.hdrs[i].(id := id) && r.cells[i] == s.cells[i]
  {
    After(s, run, t);
    WindowIsPrivate(s, run, t, i);
    RepublishSets(Exec(s, run), t);
  }

  lemma RepublishSets(s: State, t: Tid)
    requires Shaped(s) && Enabled(s, Republish(t))
    ensures var i, r := s.pc[t].i, RepublishStep(s, t);
            && Step(s, Republish(t)) == r && |r.hdrs| == |s.hdrs| && r.cells == s.cells && t in r.pc
            && r.pc[t] == Idle(s.pc[t].status) && r.hdrs[i] == s.hdrs[i].(id := s.pc[t].id)
  {
  }

  /** Delete's first answers: INVALID_ID, BUSY exactly while some call holds a reference, or it goes on. */
  lemma DeleteAnswers(s: State, t: Tid, id: u32)
    requires Inv(s) && Enabled(s, DeleteBegin(t, id))
    ensures var p := DeleteBeginStep(s, t, id).pc[t];
            && (p == Idle(InvalidId) <==> PostAccepts(s.hdrs, id) == None)
            && (p == Idle(Busy) <==>
                  PostAccepts(s.hdrs, id).Some? && exists u :: u in s.pc && Plays(s.pc[u], PostAccepts(s.hdrs, id).value, Reference))
            && (p.Retiring? <==>
                  PostAccepts(s.hdrs, id).Some? && forall u :: u in s.pc ==> !Plays(s.pc[u], PostAccepts(s.hdrs, id).value, Reference))
  {
    ValidationsAgree(s, id);
    var slot := PostAccepts(s.hdrs, id);
    if slot.Some? {
      var i := slot.value;
      assert SlotOk(s.hdrs[i], s.cells[i], s.pc, i);
      assert forall u :: u in s.pc && Plays(s.pc[u], i, Reference) <==> u in Players(s.pc, i, Reference);
      if Players(s.pc, i, Reference) != {} {
        var u :| u in Players(s.pc, i, Reference);
        assert Plays(s.pc[u], i, Reference);
      }
    }
  }

  /**
   * A Delete whose sem_destroy succeeds, from there on, with any other threads running between its
   * sections: it returns SUCCESS and leaves the slot free, empty but for its serial.
   */
  lemma DeleteCall(s2: State, t: Tid, run1: seq<Action>, s4: State, run2: seq<Action>, i: nat, id: u32)
    requires Inv(s2) && t in s2.pc && s2.pc[t] == Destroying(i, id) && i < |s2.hdrs|
    requires Meanwhile(s2, run1, t) && s4 == Step(Exec(s2, run1), NativeDestroy(t, Destroyed))
    requires Meanwhile(s4, run2, t) && Enabled(Exec(s4, run2), DeleteEnd(t))
    ensures var r := Step(Exec(s4, run2), DeleteEnd(t));
            && |r.hdrs| == |s2.hdrs| && t in r.pc && r.pc[t] == Idle(Success)
            && r.hdrs[i] == Header(false, ID_NONE, s2.hdrs[i].serial, "", ID_NONE, s2.hdrs[i].gen)
            && r.cells[i] == Cell(NoSem, s2.cells[i].flag, 0) && PostAccepts(r.hdrs, id) == None
  {
    DestroySucceeds(s2, t, run1, i, id);
    After(s4, run2, t);
    WindowIsPrivate(s4, run2, t, i);
    CleansUp(Exec(s4, run2), t, i, id);
  }

  lemma DestroySucceeds(s: State, t: Tid, run: seq<Action>, i: nat, id: u32)
    requires Inv(s) && t in s.pc && s.pc[t] == Destroying(i, id) && i < |s.hdrs| && Meanwhile(s, run, t)
    ensures var r := Step(Exec(s, run), NativeDestroy(t, Destroyed));
            && Inv(r) && t in r.pc && r.pc[t] == Cleaning(i) && r.hdrs[i] == s.hdrs[i]
            && r.cells[i] == s.cells[i].(native := NoSem) && id == IdPack(TYPE_BINSEM, s.hdrs[i].serial, i)
  {
    assert ThreadOk(s, t);
    After(s, run, t);
    WindowIsPrivate(s, run, t, i);
    NativeDestroyKeepsInv(Exec(s, run), t, Destroyed);
  }

  lemma CleansUp(s: State, t: Tid, i: nat, id: u32)
    requires Inv(s) && Enabled(s, DeleteEnd(t)) && s.pc[t] == Cleaning(i) && id == IdPack(TYPE_BINSEM, s.hdrs[i].serial, i)
    ensures var r := Step(s, DeleteEnd(t));
            && t in r.pc && r.pc[t] == Idle(Success) && r.cells[i] == s.cells[i].(refCount := 0)
            && r.hdrs[i] == Header(false, ID_NONE, s.hdrs[i].serial, "", ID_NONE, s.hdrs[i].gen) && PostAccepts(r.hdrs, id) == None
  {
    assert ThreadOk(s, t);
    UnpackOfPack(TYPE_BINSEM, s.hdrs[i].serial, i);
    PackIsInjective(TYPE_BINSEM, s.hdrs[i].serial, i, TYPE_BINSEM, s.hdrs[i].serial, i);
  }

  // ---------- Create ----------

  /** The first section of Create: each answer by the exact condition on the arguments and the table. */
  lemma CreateBeginAnswers(s: State, t: Tid, req: Request, initial: nat)
    requires Shaped(s) && Enabled(s, CreateBegin(t, req, initial))
    ensures var p := CreateBeginStep(s, t, req, initial).pc[t];
            var pointers := !req.outIsNull && req.name.Some?;
            var params := pointers && req.flags == 0 && (initial == 0 || initial == 1) && req.name.value != "";
            var good := params && |req.name.value| <= 19 && !NameTaken(s.hdrs, req.name.value);
            var room := exists i :: 0 <= i < |s.hdrs| && !s.hdrs[i].inUse;
            && (p == Idle(InvalidPointer) <==> !pointers) && (p == Idle(InvalidParam) <==> pointers && !params)
            && (p == Idle(NameTooLong) <==> params && |req.name.value| >= 20)
            && (p == Idle(NameIsTaken) <==> params && |req.name.value| <= 19 && NameTaken(s.hdrs, req.name.value))
            && (p == Idle(NoFreeIds) <==> good && !room) && (p == Idle(CreationFailed) <==> good && room && !req.nativeOk)
            && (p.Creating? <==> good && room && req.nativeOk)
  {
    CreateAnswers(s.hdrs, req, InitialStateOk(initial));
  }

  /**
   * The last store of Create, whatever the other threads have done since the first: SUCCESS, and the
   * slot has the name, creator and initial state that were asked for, under a fresh id of its own.
   */
  lemma CreateEnds(s: State, t: Tid)
    requires Inv(s) && t in s.pc && s.pc[t].Creating? && s.pc[t].stage == 6
    ensures var i, made, r := s.pc[t].i, s.pc[t].made, Step(s, CreateStore(t));
            && t in r.pc && r.pc[t] == Idle(Success) && r.lock == None && i < |r.hdrs|
            && r.hdrs[i] == Header(true, IdPack(TYPE_BINSEM, s.hdrs[i].serial, i), s.hdrs[i].serial, made.name, made.creator, s.hdrs[i].gen)
            && r.cells[i].refCount == 0 && SlotPhase(r.cells[i], r.pc, i) == Some(if made.value == 1 then Full else Empty)
  {
    var i, r := s.pc[t].i, CreateStoreStep(s, t);
    assert ThreadOk(s, t);
    assert Step(s, CreateStore(t)) == r;
    CreateStoreKeepsInv(s, t);
    PackIsInjective(TYPE_BINSEM, s.hdrs[i].serial, i, TYPE_BINSEM, s.hdrs[i].serial, i);
    assert SlotOk(r.hdrs[i], r.cells[i], r.pc, i);
  }

  /** Until then no other thread touches the slot, so its serial is the one the first store gave it. */
  lemma FirstStoreStamps(s: State, t: Tid, run: seq<Action>)
    requires Inv(s) && t in s.pc && s.pc[t].Creating? && s.pc[t].stage == 0
    requires Meanwhile(Step(s, CreateStore(t)), run, t)
    ensures var i, r := s.pc[t].i, Exec(Step(s, CreateStore(t)), run);
            i < |r.hdrs| && r.hdrs[i].serial == NextSerial(s.hdrs[i].serial) && r.hdrs[i].gen == s.hdrs[i].gen + 1
  {
    var i, s1 := s.pc[t].i, CreateStoreStep(s, t);
    assert ThreadOk(s, t);
    assert Step(s, CreateStore(t)) == s1;
    CreateStoreKeepsInv(s, t);
    WindowIsPrivate(s1, run, t, i);
  }
}
