/** Whole API calls on a mutex, with any other threads running between their sections. */
module MutexCalls {
  import opened Common
  import opened Ids
  import opened Table
  import opened MutexModel
  import opened MutexProperties

  /** Other threads do not move t. */
  lemma {:induction false} StaysPut(s: State, run: seq<Action>, t: Tid)
    requires Shaped(s) && t in s.pc && NoStepOf(run, t)
    ensures t in Exec(s, run).pc && Exec(s, run).pc[t] == s.pc[t]
    decreases |run|
  {
    if run != [] {
      StepOfOther(s, run[0], t);
      StaysPut(Step(s, run[0]), run[1..], t);
    }
  }

  /** Other threads run for a while. */
  lemma Meanwhile(s: State, run: seq<Action>, t: Tid)
    requires Inv(s) && InContract(s, run) && t in s.pc && NoStepOf(run, t)
    ensures var r := Exec(s, run); Inv(r) && t in r.pc && r.pc[t] == s.pc[t] && ThreadOk(r, t)
  {
    RunKeepsInv(s, run);
    StaysPut(s, run, t);
  }

  /**
   * What the native call of each kind says about the mutex when it was made. It may break for other
   * reasons at any time; if it does not, a free mutex is acquired, or the time is up, and TryLock
   * of a mutex that somebody else owns is busy.
   */
  predicate NativeLockMeans(rc: LockResult, kind: LockKind, ownerThen: Option<Tid>, t: Tid)
  {
    && (rc == Acquired ==> ownerThen == None)
    && (rc == EBusy ==> kind == TryLock && ownerThen.Some?)
    && (rc == EDeadlk ==> ownerThen == Some(t))
    && (rc == ETimedOut ==> kind == TimedLock)
    && (rc != EOther && ownerThen == None && kind != TimedLock ==> rc == Acquired)
    && (rc != EOther && ownerThen.Some? && ownerThen != Some(t) && kind == TryLock ==> rc == EBusy)
  }

  /**
   * Lock, TryLock and TimedLock of a valid id, from the reference to the return, with any other
   * threads running in between. The object is the same from start to end; the result tells what
   * the native call met; after SUCCESS the caller owns the mutex, after a failure it still has a
   * reference, which LockGivesUp drops.
   */
  lemma LockCall(s: State, t: Tid, id: u32, kind: LockKind, run1: seq<Action>, s2: State, rc: LockResult, run2: seq<Action>, s4: State)
    requires Inv(s) && IdleAt(s, t) && Lookup(s.hdrs, TYPE_MUTEX, id).Some?
    requires var s1 := AcquireStep(s, t, id, kind); InContract(s1, run1) && NoStepOf(run1, t) && s2 == Exec(s1, run1)
    requires Enabled(s2, NativeLock(t, rc))
    requires var s3 := Step(s2, NativeLock(t, rc)); InContract(s3, run2) && NoStepOf(run2, t) && s4 == Exec(s3, run2)
    ensures var i, gen := Lookup(s.hdrs, TYPE_MUTEX, id).value, s.hdrs[Lookup(s.hdrs, TYPE_MUTEX, id).value].gen;
            && t in s2.pc && s2.pc[t] == Locking(i, gen, kind) && t in s4.pc && Live(s4, i, gen)
            && (s4.pc[t] == Idle(Success) <==> rc == Acquired) && (rc == Acquired ==> Owner(s4.cells[i]) == Some(t))
            && (s4.pc[t] == Failed(i, gen, Busy) <==> rc == EBusy)
            && (s4.pc[t] == Failed(i, gen, InvalidState) <==> rc == EDeadlk)
            && (s4.pc[t] == Failed(i, gen, TimedOut) <==> rc == ETimedOut)
            && (s4.pc[t] == Failed(i, gen, Generic) <==> rc == EOther)
            && NativeLockMeans(rc, kind, Owner(s2.cells[i]), t)
  {
    var i := Lookup(s.hdrs, TYPE_MUTEX, id).value;
    var s1 := AcquireStep(s, t, id, kind);
    AcquireKeepsInv(s, t, id, kind);
    Meanwhile(s1, run1, t);
    NativeLockIsAnswered(s2, t, rc);
    var s3 := NativeLockStep(s2, t, rc);
    Meanwhile(s3, run2, t);
    assert SlotOk(s2.hdrs[i], s2.cells[i], s2.pc, i);
    if rc == Acquired {
      OwnerPinsTheId(s3, run2, i, t);
    } else {
      assert SlotOk(s4.hdrs[i], s4.cells[i], s4.pc, i);
    }
  }

  /** The last section of a lock call that failed: one reference less, and none of the caller's left. */
  lemma LockGivesUp(s: State, t: Tid)
    requires Inv(s) && Enabled(s, Release(t)) && s.pc[t].Failed?
    ensures var i, r := s.pc[t].i, ReleaseStep(s, t);
            && r.pc[t] == Idle(s.pc[t].status) && r.cells[i].refCount == s.cells[i].refCount - 1
            && r.cells[i].native == s.cells[i].native && t !in Refs(r.pc, i)
  {
    InvMakesUsesSound(s, Release(t));
  }

  /**
   * Unlock of a valid id, likewise. It succeeds exactly for the owner; then the mutex is free after
   * the native unlock, and the last section drops the owner's reference on the same object. Anybody
   * else gets INVALID_STATE if the native mutex is still initialised when it is unlocked; if not,
   * the result is the error that the platform happens to report.
   */
  lemma UnlockCall(s: State, t: Tid, id: u32, run1: seq<Action>, s2: State, rc: UnlockResult, run2: seq<Action>, s4: State)
    requires Inv(s) && IdleAt(s, t) && Lookup(s.hdrs, TYPE_MUTEX, id).Some?
    requires var s1 := UnlockCheckStep(s, t, id); InContract(s1, run1) && NoStepOf(run1, t) && s2 == Exec(s1, run1)
    requires Enabled(s2, NativeUnlock(t, rc)) && Allowed(s2, NativeUnlock(t, rc))
    requires var s3 := Step(s2, NativeUnlock(t, rc)); InContract(s3, run2) && NoStepOf(run2, t) && s4 == Exec(s3, run2)
    ensures var i, gen := Lookup(s.hdrs, TYPE_MUTEX, id).value, s.hdrs[Lookup(s.hdrs, TYPE_MUTEX, id).value].gen;
            && t in s4.pc
            && (Owner(s.cells[i]) == Some(t) ==>
                  rc == Freed && Step(s2, NativeUnlock(t, rc)).cells[i].native == Ready(None) && Live(s4, i, gen)
                  && Enabled(s4, Release(t)) && ReleaseStep(s4, t).pc[t] == Idle(Success))
            && (Owner(s.cells[i]) != Some(t) ==>
                  && rc != Freed && s4.pc[t].Idle?
                  && (s4.pc[t] == Idle(InvalidState) <==> rc == EPerm) && (s4.pc[t] == Idle(Generic) <==> rc == EInval)
                  && (s2.cells[i].native.Ready? ==> s4.pc[t] == Idle(InvalidState)))
  {
    var i := Lookup(s.hdrs, TYPE_MUTEX, id).value;
    var s1 := UnlockCheckStep(s, t, id);
    UnlockCheckKeepsInv(s, t, id);
    Meanwhile(s1, run1, t);
    InvMakesUsesSound(s2, NativeUnlock(t, rc));
    NativeUnlockKeepsInv(s2, t, rc);
    var s3 := NativeUnlockStep(s2, t, rc);
    Meanwhile(s3, run2, t);
    if Owner(s.cells[i]) == Some(t) {
      assert SlotOk(s4.hdrs[i], s4.cells[i], s4.pc, i);
    }
  }

  /**
   * Delete of an id that passes the reference test, likewise: it always ends with SUCCESS, and the
   * slot is then free, its native mutex destroyed, and the id refused.
   */
  lemma DeleteCall(s: State, t: Tid, id: u32, run1: seq<Action>, s2: State, run2: seq<Action>, s4: State)
    requires Inv(s) && IdleAt(s, t) && DeleteBeginStep(s, t, id).pc[t].Destroying?
    requires var s1 := DeleteBeginStep(s, t, id); InContract(s1, run1) && NoStepOf(run1, t) && s2 == Exec(s1, run1)
    requires var s3 := Step(s2, NativeDestroy(t)); InContract(s3, run2) && NoStepOf(run2, t) && s4 == Exec(s3, run2)
    ensures && Enabled(s2, NativeDestroy(t)) && Enabled(s4, DeleteEnd(t))
            && var i, r := Lookup(s.hdrs, TYPE_MUTEX, id).value, DeleteEndStep(s4, t);
               && r.pc[t] == Idle(Success)
               && r.hdrs[i] == Header(false, ID_NONE, s.hdrs[i].serial, "", ID_NONE, s.hdrs[i].gen)
               && r.cells[i] == Cell(Absent, 0)
               && Lookup(r.hdrs, TYPE_MUTEX, id) == None
  {
    var i := Lookup(s.hdrs, TYPE_MUTEX, id).value;
    var s1 := DeleteBeginStep(s, t, id);
    DeleteBeginKeepsInv(s, t, id);
    Meanwhile(s1, run1, t);
    WindowIsPrivate(s1, run1, t, i);
    InvMakesUsesSound(s2, NativeDestroy(t));
    NativeDestroyKeepsInv(s2, t);
    var s3 := NativeDestroyStep(s2, t);
    Meanwhile(s3, run2, t);
    WindowIsPrivate(s3, run2, t, i);
  }

  /**
   * Should pthread_mutex_destroy fail after all, the slot is put back in use as it was, and the call
   * returns BUSY for a mutex that is owned or waited for and GENERIC for anything else.
   */
  lemma FailedDestroyRollsBack(s: State, t: Tid)
    requires Shaped(s) && Inside(s, t) && s.pc[t].Destroying? && !s.hdrs[s.pc[t].i].inUse
    requires s.cells[s.pc[t].i].native != Ready(None) || WaitedFor(s, s.pc[t].i)
    ensures var i, r := s.pc[t].i, Step(Step(s, NativeDestroy(t)), DeleteEnd(t));
            && t in r.pc && (r.pc[t] == Idle(Busy) <==> s.cells[i].native.Ready?) && (r.pc[t] == Idle(Generic) <==> s.cells[i].native == Absent)
            && r.cells == s.cells && r.hdrs == s.hdrs[i := s.hdrs[i].(inUse := true)]
  {
    var s1 := NativeDestroyStep(s, t);
    assert Step(s, NativeDestroy(t)) == s1;
    assert Step(s1, DeleteEnd(t)) == DeleteEndStep(s1, t);
  }

  /** While t's Delete is between its sections, no other thread changes the slot. */
  lemma {:induction false} WindowIsPrivate(s: State, run: seq<Action>, t: Tid, i: nat)
    requires Inv(s) && InContract(s, run) && t in s.pc && Deletes(s.pc[t], i) && NoStepOf(run, t) && i < |s.hdrs|
    ensures Exec(s, run).hdrs[i] == s.hdrs[i] && Exec(s, run).cells[i] == s.cells[i]
    decreases |run|
  {
    if run != [] {
      StepLeavesWindow(s, run[0], t, i);
      StepOfOther(s, run[0], t);
      StepKeepsInv(s, run[0]);
      WindowIsPrivate(Step(s, run[0]), run[1..], t, i);
    }
  }

  lemma StepLeavesWindow(s: State, a: Action, t: Tid, i: nat)
    requires Inv(s) && Allowed(s, a) && t in s.pc && Deletes(s.pc[t], i) && a.t != t && i < |s.hdrs|
    ensures Step(s, a).hdrs[i] == s.hdrs[i] && Step(s, a).cells[i] == s.cells[i]
  {
    assert ThreadOk(s, t);
    assert InWindow(s.pc, i);
    if Enabled(s, a) && !IdleAt(s, a.t) { assert ThreadOk(s, a.t); }
  }
}
