/** AOS_MutexUnlock holds no reference between its validation and the native unlock: what that costs. */
module MutexUnlock {
  import opened Common
  import opened Ids
  import opened Table
  import opened MutexModel
  import opened MutexProperties

  // ---------- Which runs keep the reference counts right ----------

  ghost predicate Accounted(s: State)
    requires Shaped(s)
  {
    forall i :: 0 <= i < |s.cells| ==> s.cells[i].refCount == |Refs(s.pc, i)| + Bit(Owner(s.cells[i]).Some?)
  }

  ghost predicate AccountedThroughout(s: State, run: seq<Action>)
    requires Shaped(s)
    decreases |run|
  {
    Accounted(s) && (run == [] || AccountedThroughout(Step(s, run[0]), run[1..]))
  }

  ghost predicate CreatesInOrder(s: State, run: seq<Action>)
    requires Shaped(s)
    decreases |run|
  {
    run == [] || (CreateRule(s, run[0]) && CreatesInOrder(Step(s, run[0]), run[1..]))
  }

  /**
   * Among the runs whose Creates keep their rule, the reference counts are right at every moment
   * exactly in those where no native unlock of a destroyed mutex reports success.
   */
  lemma AccountingKeptIff(n: nat, threads: set<Tid>, run: seq<Action>)
    requires Start(n, threads) && CreatesInOrder(Init(n, threads), run)
    ensures AccountedThroughout(Init(n, threads), run) <==> InContract(Init(n, threads), run)
  {
    InitHasInv(n, threads);
    AccountingFrom(Init(n, threads), run);
  }

  lemma {:induction false} AccountingFrom(s: State, run: seq<Action>)
    requires Inv(s) && CreatesInOrder(s, run)
    ensures AccountedThroughout(s, run) <==> InContract(s, run)
    decreases |run|
  {
    InvIsAccounted(s);
    if run != [] {
      if UnlockRule(s, run[0]) {
        StepKeepsInv(s, run[0]);
        AccountingFrom(Step(s, run[0]), run[1..]);
      } else {
        FalseSuccessBreaksCount(s, run[0]);
      }
    }
  }

  lemma InvIsAccounted(s: State)
    requires Inv(s)
    ensures Accounted(s)
  {
    forall i | 0 <= i < |s.cells| ensures s.cells[i].refCount == |Refs(s.pc, i)| + Bit(Owner(s.cells[i]).Some?) {
      assert SlotOk(s.hdrs[i], s.cells[i], s.pc, i);
    }
  }

  /** The false success makes its caller release a reference it never had. */
  lemma FalseSuccessBreaksCount(s: State, a: Action)
    requires Inv(s) && !UnlockRule(s, a)
    ensures !Accounted(Step(s, a))
  {
    var i := s.pc[a.t].i;
    assert SlotOk(s.hdrs[i], s.cells[i], s.pc, i);
    RefsAfterMove(s.pc, a.t, Unlocked(i, s.pc[a.t].gen), i);
    var s' := NativeUnlockStep(s, a.t, Freed);
    assert Step(s, a) == s';
    assert s'.cells[i].refCount == s.cells[i].refCount && Owner(s'.cells[i]) == None;
  }

  // ---------- Whose unlock is safe ----------

  /** Some run of the threads other than t destroys the native mutex in slot i. */
  ghost predicate CanLose(s: State, t: Tid, i: nat)
    requires Shaped(s) && i < |s.hdrs|
  {
    exists run: seq<Action> :: InContract(s, run) && NoStepOf(run, t) && Exec(s, run).cells[i].native == Absent
  }

  lemma Before(s: State, a: Action, t: Tid, i: nat)
    requires Shaped(s) && i < |s.hdrs| && Allowed(s, a) && a.t != t && CanLose(Step(s, a), t, i)
    ensures CanLose(s, t, i)
  {
    var run :| InContract(Step(s, a), run) && NoStepOf(run, t) && Exec(Step(s, a), run).cells[i].native == Absent;
    var longer := [a] + run;
    assert longer[0] == a && longer[1..] == run;
    assert InContract(s, longer) && NoStepOf(longer, t);
  }

  lemma LostNow(s: State, t: Tid, i: nat)
    requires Shaped(s) && i < |s.hdrs| && s.cells[i].native == Absent
    ensures CanLose(s, t, i)
  {
    assert InContract(s, []) && NoStepOf([], t) && Exec(s, []) == s;
  }

  /** Slot i is in use, t has no part in keeping it, and u can make a call. */
  ghost predicate Loosable(s: State, t: Tid, i: nat, u: Tid)
  {
    && Inv(s) && i < |s.hdrs| && s.hdrs[i].inUse
    && t in s.pc && !HasRef(s.pc[t], i) && Owner(s.cells[i]) != Some(t)
    && IdleAt(s, u) && u != t
  }

  /** With no reference left, u deletes the mutex. */
  lemma DeleteNow(s: State, t: Tid, i: nat, u: Tid)
    requires Loosable(s, t, i, u) && s.cells[i].refCount == 0
    ensures CanLose(s, t, i)
  {
    var a := DeleteBegin(u, s.hdrs[i].id);
    LookupFindsOwnId(s.hdrs, TYPE_MUTEX, i);
    DeleteBeginKeepsInv(s, u, a.id);
    var s1 := DeleteBeginStep(s, u, a.id);
    assert Step(s, a) == s1;
    InvMakesUsesSound(s1, NativeDestroy(u));
    LostNow(Step(s1, NativeDestroy(u)), t, i);
    Before(s1, NativeDestroy(u), t, i);
    Before(s, a, t, i);
  }

  /** A step of another thread v that keeps slot i in use and free of t. */
  lemma StepKeepsLoosable(s: State, a: Action, t: Tid, i: nat, u: Tid)
    requires Loosable(s, t, i, u) && Enabled(s, a) && Allowed(s, a) && a.t != t && a.t != u
    requires !(a.Create? || a.Acquire? || a.UnlockCheck? || a.DeleteBegin?)
    requires a.NativeLock? ==> a.rc == EOther
    ensures Loosable(Step(s, a), t, i, u) && Step(s, a).hdrs[i] == s.hdrs[i]
  {
    StepKeepsInv(s, a);
    StepKeepsId(s, a, i);
    StepOfOther(s, a, t);
    StepOfOther(s, a, u);
    NobodyBecomesOwner(s, a, i);
  }

  lemma NobodyBecomesOwner(s: State, a: Action, i: nat)
    requires Shaped(s) && i < |s.hdrs| && Enabled(s, a) && !a.Create? && (a.NativeLock? ==> a.rc == EOther)
    ensures Owner(Step(s, a).cells[i]) == Owner(s.cells[i]) || Owner(Step(s, a).cells[i]) == None
  {
  }

  /** A call that holds a reference is made to fail, or to end, and drops it. */
  lemma {:induction false} DrainRefs(s: State, t: Tid, i: nat, u: Tid)
    requires Loosable(s, t, i, u) && Owner(s.cells[i]) == None
    ensures CanLose(s, t, i)
    decreases |Refs(s.pc, i)|
  {
    assert SlotOk(s.hdrs[i], s.cells[i], s.pc, i);
    if Refs(s.pc, i) == {} {
      DeleteNow(s, t, i, u);
    } else {
      var v :| v in Refs(s.pc, i);
      if s.pc[v].Locking? {
        FailLock(s, v, t, i, u);
        var s1 := Step(s, NativeLock(v, EOther));
        DropRef(s1, v, t, i, u);
        DrainRefs(Step(s1, Release(v)), t, i, u);
        Before(s1, Release(v), t, i);
        Before(s, NativeLock(v, EOther), t, i);
      } else {
        DropRef(s, v, t, i, u);
        DrainRefs(Step(s, Release(v)), t, i, u);
        Before(s, Release(v), t, i);
      }
    }
  }

  lemma FailLock(s: State, v: Tid, t: Tid, i: nat, u: Tid)
    requires Loosable(s, t, i, u) && v in s.pc && s.pc[v].Locking? && s.pc[v].i == i && v != t
    ensures var s1 := Step(s, NativeLock(v, EOther));
            && Loosable(s1, t, i, u) && s1.cells[i] == s.cells[i]
            && s1.pc[v].Failed? && s1.pc[v].i == i && Refs(s1.pc, i) == Refs(s.pc, i)
  {
    StepKeepsLoosable(s, NativeLock(v, EOther), t, i, u);
  }

  lemma DropRef(s: State, v: Tid, t: Tid, i: nat, u: Tid)
    requires Loosable(s, t, i, u) && v in s.pc && (s.pc[v].Failed? || s.pc[v].Unlocked?) && s.pc[v].i == i && v != t
    ensures var s1 := Step(s, Release(v));
            && Loosable(s1, t, i, u) && s1.cells[i].native == s.cells[i].native && IdleAt(s1, v)
            && Refs(s1.pc, i) == Refs(s.pc, i) - {v} && |Refs(s1.pc, i)| < |Refs(s.pc, i)|
  {
    StepKeepsLoosable(s, Release(v), t, i, u);
    assert v in Refs(s.pc, i);
    assert Step(s, Release(v)).pc == s.pc[v := Step(s, Release(v)).pc[v]];
    assert Refs(Step(s, Release(v)).pc, i) == Refs(s.pc, i) - {v};
  }

  /** The owner, about to unlock slot i natively, does so and returns. */
  lemma OwnerUnlocks(s: State, v: Tid, t: Tid, i: nat, u: Tid)
    requires Inv(s) && i < |s.hdrs| && s.hdrs[i].inUse && s.cells[i].native == Ready(Some(v)) && v != t && u != t
    requires t in s.pc && !HasRef(s.pc[t], i) && (v == u || IdleAt(s, u))
    requires v in s.pc && s.pc[v].Unlocking? && s.pc[v].i == i
    ensures CanLose(s, t, i)
  {
    var a := NativeUnlock(v, Freed);
    var s1 := NativeUnlockStep(s, v, Freed);
    assert Step(s, a) == s1;
    NativeUnlockKeepsInv(s, v, Freed);
    ReleaseKeepsInv(s1, v);
    var s2 := ReleaseStep(s1, v);
    assert Step(s1, Release(v)) == s2;
    DrainRefs(s2, t, i, u);
    Before(s1, Release(v), t, i);
    Before(s, a, t, i);
  }

  /** How many steps of its own bring a thread out of the call it is in. */
  function StepsHome(p: Pc): nat
  {
    match p
    case Idle(_) => 0
    case Locking(_, _, _) => 2
    case Unlocking(_, _, _) => 2
    case Destroying(_) => 2
    case _ => 1
  }

  /** The next of them. */
  ghost function StepHome(s: State, v: Tid): Action
    requires Inside(s, v)
  {
    var p := s.pc[v];
    if p.Locking? then NativeLock(v, EOther)
    else if p.Failed? || p.Unlocked? then Release(v)
    else if p.Unlocking? then NativeUnlock(v, if s.cells[p.i].native == Ready(Some(v)) then Freed else EPerm)
    else if p.Destroying? then NativeDestroy(v)
    else DeleteEnd(v)
  }

  lemma StepHomeIsNearer(s: State, v: Tid)
    requires Inv(s) && Inside(s, v)
    ensures var a := StepHome(s, v);
            && Enabled(s, a) && Allowed(s, a) && v in Step(s, a).pc
            && StepsHome(Step(s, a).pc[v]) < StepsHome(s.pc[v])
  {
    assert ThreadOk(s, v);
    if s.pc[v].Destroying? { InvMakesUsesSound(s, NativeDestroy(v)); }
  }

  lemma StepHomeKeepsOwner(s: State, v: Tid, i: nat)
    requires Inv(s) && Inside(s, v) && i < |s.hdrs| && s.cells[i].native == Ready(Some(v))
    requires !(s.pc[v].Unlocking? && s.pc[v].i == i)
    ensures Step(s, StepHome(s, v)).cells[i].native == Ready(Some(v))
  {
    assert ThreadOk(s, v);
    assert SlotOk(s.hdrs[i], s.cells[i], s.pc, i);
  }

  /** An owner other than t comes home from wherever it is, and unlocks. */
  lemma {:induction false} DrainOwner(s: State, v: Tid, t: Tid, i: nat, u: Tid)
    requires Loosable(s, t, i, u) && s.cells[i].native == Ready(Some(v))
    ensures CanLose(s, t, i)
    decreases if v in s.pc then StepsHome(s.pc[v]) else 0
  {
    assert SlotOk(s.hdrs[i], s.cells[i], s.pc, i);
    assert ThreadOk(s, v);
    if s.pc[v].Idle? {
      var a := UnlockCheck(v, s.hdrs[i].id);
      LookupFindsOwnId(s.hdrs, TYPE_MUTEX, i);
      UnlockCheckKeepsInv(s, v, a.id);
      var s1 := UnlockCheckStep(s, v, a.id);
      assert Step(s, a) == s1;
      OwnerUnlocks(s1, v, t, i, u);
      Before(s, a, t, i);
    } else if s.pc[v].Unlocking? && s.pc[v].i == i {
      OwnerUnlocks(s, v, t, i, u);
    } else {
      var a := StepHome(s, v);
      StepHomeIsNearer(s, v);
      StepHomeKeepsOwner(s, v, i);
      StepKeepsLoosable(s, a, t, i, u);
      DrainOwner(Step(s, a), v, t, i, u);
      Before(s, a, t, i);
    }
  }

  /**
   * Unlock's window without a reference is sound exactly for the owner. If t owned the mutex when it
   * validated the id, then whatever other threads do before its native unlock, that unlock finds
   * the validated object. If not, they have a run that destroys it first, whoever else owned it or
   * held references and wherever they are, as long as there is another thread u at all.
   */
  lemma UnlockWindowIsSoundIff(s: State, t: Tid, u: Tid, id: u32)
    requires Inv(s) && IdleAt(s, t) && u in s.pc && t != u && Lookup(s.hdrs, TYPE_MUTEX, id).Some?
    ensures var i, s1 := Lookup(s.hdrs, TYPE_MUTEX, id).value, UnlockCheckStep(s, t, id);
            Owner(s.cells[i]) == Some(t) <==>
            forall run: seq<Action> :: InContract(s1, run) && NoStepOf(run, t) ==> Live(Exec(s1, run), i, s.hdrs[i].gen)
  {
    var i, s1 := Lookup(s.hdrs, TYPE_MUTEX, id).value, UnlockCheckStep(s, t, id);
    UnlockCheckKeepsInv(s, t, id);
    if Owner(s.cells[i]) == Some(t) {
      forall run: seq<Action> | InContract(s1, run) && NoStepOf(run, t) ensures Live(Exec(s1, run), i, s.hdrs[i].gen) {
        OwnerPinsTheId(s1, run, i, t);
      }
    } else {
      BringHome(s1, t, i, u);
      var run: seq<Action> :|
        InContract(s1, run) && NoStepOf(run, t) && Exec(s1, run).cells[i].native == Absent;
      assert !Live(Exec(s1, run), i, s.hdrs[i].gen);
    }
  }

  lemma NotOwnedCanLose(s: State, t: Tid, i: nat, u: Tid)
    requires Loosable(s, t, i, u)
    ensures CanLose(s, t, i)
  {
    assert SlotOk(s.hdrs[i], s.cells[i], s.pc, i);
    match Owner(s.cells[i])
    case None => DrainRefs(s, t, i, u);
    case Some(v) => DrainOwner(s, v, t, i, u);
  }

  /** A thread u that is inside a call first comes home from it, and then deletes the mutex. */
  lemma {:induction false} BringHome(s: State, t: Tid, i: nat, u: Tid)
    requires Inv(s) && i < |s.hdrs| && s.hdrs[i].inUse && Owner(s.cells[i]) != Some(t)
    requires t in s.pc && s.pc[t].Unlocking? && u in s.pc && u != t
    ensures CanLose(s, t, i)
    decreases StepsHome(s.pc[u])
  {
    assert ThreadOk(s, u);
    if s.pc[u].Idle? {
      NotOwnedCanLose(s, t, i, u);
    } else if s.pc[u].Unlocking? && s.pc[u].i == i && s.cells[i].native == Ready(Some(u)) {
      OwnerUnlocks(s, u, t, i, u);
    } else {
      var a := StepHome(s, u);
      StepHomeIsNearer(s, u);
      StepKeepsInv(s, a);
      StepKeepsId(s, a, i);
      StepOfOther(s, a, t);
      NobodyBecomesOwner(s, a, i);
      BringHome(Step(s, a), t, i, u);
      Before(s, a, t, i);
    }
  }

  // ---------- A rule that makes every unlock safe ----------

  /** No Unlock of slot i is past its validation when Delete passes its reference test. */
  ghost predicate DeleteRule(s: State, a: Action)
  {
    a.DeleteBegin? ==>
      match Lookup(s.hdrs, TYPE_MUTEX, a.id)
      case None => true
      case Some(i) => i < |s.cells| && s.cells[i].refCount == 0 ==> !BeingUnlocked(s.pc, i)
  }

  predicate BeingUnlocked(pc: map<Tid, Pc>, i: nat) { exists t :: t in pc && pc[t].Unlocking? && pc[t].i == i }

  ghost predicate Careful(s: State, run: seq<Action>)
    requires Shaped(s)
    decreases |run|
  {
    run == [] || (CreateRule(s, run[0]) && DeleteRule(s, run[0]) && Careful(Step(s, run[0]), run[1..]))
  }

  ghost predicate UnlocksHold(s: State)
    requires Shaped(s)
  {
    forall t :: t in s.pc && s.pc[t].Unlocking? ==> s.pc[t].i < |s.hdrs| && Live(s, s.pc[t].i, s.pc[t].gen)
  }

  lemma CarefulStep(s: State, a: Action)
    requires Inv(s) && UnlocksHold(s) && CreateRule(s, a) && DeleteRule(s, a)
    ensures Allowed(s, a) && Inv(Step(s, a)) && UnlocksHold(Step(s, a))
  {
    StepKeepsInv(s, a);
    var s' := Step(s, a);
    forall t | t in s'.pc && s'.pc[t].Unlocking?
      ensures s'.pc[t].i < |s'.hdrs| && Live(s', s'.pc[t].i, s'.pc[t].gen)
    {
      UnlockHolds(s, a, t);
    }
  }

  lemma UnlockHolds(s: State, a: Action, t: Tid)
    requires Inv(s) && UnlocksHold(s) && CreateRule(s, a) && DeleteRule(s, a) && Inv(Step(s, a)) && Allowed(s, a)
    requires t in Step(s, a).pc && Step(s, a).pc[t].Unlocking?
    ensures var s' := Step(s, a); s'.pc[t].i < |s'.hdrs| && Live(s', s'.pc[t].i, s'.pc[t].gen)
  {
    var s' := Step(s, a);
    var i := s'.pc[t].i;
    if s'.pc[t] == s.pc[t] {
      BeingUnlockedStays(s, a, t);
      assert SlotOk(s'.hdrs[i], s'.cells[i], s'.pc, i);
    } else {
      NewUnlockHolds(s, a, t);
    }
  }

  lemma NewUnlockHolds(s: State, a: Action, t: Tid)
    requires Inv(s) && t in Step(s, a).pc && Step(s, a).pc[t].Unlocking? && (t in s.pc ==> Step(s, a).pc[t] != s.pc[t])
    ensures var s' := Step(s, a); s'.pc[t].i < |s'.hdrs| && Live(s', s'.pc[t].i, s'.pc[t].gen)
  {
    assert a.UnlockCheck? && a.t == t && Enabled(s, a);
    var i := Lookup(s.hdrs, TYPE_MUTEX, a.id).value;
    assert SlotOk(s.hdrs[i], s.cells[i], s.pc, i);
  }

  lemma BeingUnlockedStays(s: State, a: Action, t: Tid)
    requires Inv(s) && Allowed(s, a) && DeleteRule(s, a) && t in s.pc && s.pc[t].Unlocking?
    requires s.pc[t].i < |s.hdrs| && s.hdrs[s.pc[t].i].inUse
    ensures Step(s, a).hdrs[s.pc[t].i] == s.hdrs[s.pc[t].i]
  {
    var i := s.pc[t].i;
    assert BeingUnlocked(s.pc, i);
    if a.DeleteBegin? && a.id == s.hdrs[i].id {
      LookupFindsOwnId(s.hdrs, TYPE_MUTEX, i);
    } else {
      StepKeepsId(s, a, i);
    }
  }

  lemma {:induction false} CarefulRunKeeps(s: State, run: seq<Action>)
    requires Inv(s) && UnlocksHold(s) && Careful(s, run)
    ensures InContract(s, run) && Inv(Exec(s, run)) && UnlocksHold(Exec(s, run))
    decreases |run|
  {
    if run != [] {
      CarefulStep(s, run[0]);
      CarefulRunKeeps(Step(s, run[0]), run[1..]);
    }
  }

  /**
   * Over every run in which no Delete passes its reference test while an Unlock of its slot is
   * between validation and native unlock, every native unlock, by owners and others, is made on the
   * initialised mutex of the generation validated; nothing is assumed of destroyed mutexes.
   */
  lemma UnlocksMeetTheirMutex(n: nat, threads: set<Tid>, run: seq<Action>, t: Tid, rc: UnlockResult)
    requires Start(n, threads) && Careful(Init(n, threads), run)
    requires Enabled(Exec(Init(n, threads), run), NativeUnlock(t, rc))
    ensures InContract(Init(n, threads), run)
    ensures var s := Exec(Init(n, threads), run); Live(s, s.pc[t].i, s.pc[t].gen)
  {
    InitHasInv(n, threads);
    CarefulRunKeeps(Init(n, threads), run);
  }
}
