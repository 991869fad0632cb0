/** What every run of the mutex pool keeps, and what follows for its callers. */
module MutexProperties {
  import opened Common
  import opened Ids
  import opened Table
  import opened MutexModel

  // ---------- The invariant ----------

  predicate HasRef(p: Pc, i: nat) { (p.Locking? || p.Failed? || p.Unlocked?) && p.i == i }

  /** The calls that hold a reference to slot i which has not been handed over to the owner. */
  function Refs(pc: map<Tid, Pc>, i: nat): set<Tid> { set t | t in pc && HasRef(pc[t], i) }

  function Owner(c: Cell): Option<Tid> { if c.native.Ready? then c.native.owner else None }

  ghost predicate SlotOk(h: Header, c: Cell, pc: map<Tid, Pc>, i: nat)
  {
    && c.refCount == |Refs(pc, i)| + Bit(Owner(c).Some?)
    && (h.inUse ==> c.native.Ready?)
    && (Owner(c).Some? ==> h.inUse && Owner(c).value in pc)
    && (!h.inUse && !InWindow(pc, i) ==> c.native == Absent)
  }

  ghost predicate ThreadOk(s: State, t: Tid)
    requires |s.hdrs| == |s.cells| && t in s.pc
  {
    var p := s.pc[t];
    p.Idle? ||
    (p.i < |s.hdrs| &&
     var h, c := s.hdrs[p.i], s.cells[p.i];
     match p
     case Locking(_, gen, _) => h.inUse && h.gen == gen
     case Failed(_, gen, _) => h.inUse && h.gen == gen
     case Unlocked(_, gen) => h.inUse && h.gen == gen
     case Unlocking(_, gen, owned) =>
       if owned then c.native == Ready(Some(t)) && h.gen == gen else Owner(c) != Some(t)
     case Destroying(_) => !h.inUse && c.native == Ready(None) && c.refCount == 0
     case Cleaning(_) => !h.inUse && c.native == Absent && c.refCount == 0
     case Restoring(_, _) => false)
  }

  ghost predicate Inv(s: State)
  {
    && 0 < |s.hdrs| == |s.cells| <= MAX_POOL
    && |s.pc| < TWO32 - 2
    && Sound(s.hdrs, TYPE_MUTEX)
    && NamesDistinct(s.hdrs)
    && (forall i :: 0 <= i < |s.hdrs| ==> SlotOk(s.hdrs[i], s.cells[i], s.pc, i))
    && (forall t :: t in s.pc ==> ThreadOk(s, t))
    && OneDeleter(s.pc)
  }

  ghost predicate OneDeleter(pc: map<Tid, Pc>)
  {
    forall t, u, i :: t in pc && u in pc && Deletes(pc[t], i) && Deletes(pc[u], i) ==> t == u
  }

  lemma RefsAfterMove(pc: map<Tid, Pc>, t: Tid, p: Pc, i: nat)
    requires t in pc
    ensures |Refs(pc[t := p], i)| == |Refs(pc, i)| - Bit(HasRef(pc[t], i)) + Bit(HasRef(p, i))
    ensures |Refs(pc, i)| <= |pc|
  {
    var rest := Refs(pc, i) - {t};
    assert Refs(pc, i) == if HasRef(pc[t], i) then rest + {t} else rest;
    assert Refs(pc[t := p], i) == if HasRef(p, i) then rest + {t} else rest;
    SubsetSize(Refs(pc, i), pc.Keys);
  }

  /** A thread with this program counter takes part in nothing outside slot i. */
  predicate Local(p: Pc, i: nat) { p.Idle? || p.i == i }

  lemma OtherSlotStaysOk(s: State, t: Tid, p: Pc, j: nat)
    requires t in s.pc && |s.hdrs| == |s.cells| && j < |s.hdrs| && SlotOk(s.hdrs[j], s.cells[j], s.pc, j)
    requires !HasRef(s.pc[t], j) && !HasRef(p, j) && !Deletes(s.pc[t], j)
    ensures SlotOk(s.hdrs[j], s.cells[j], s.pc[t := p], j)
  {
    RefsAfterMove(s.pc, t, p, j);
    if InWindow(s.pc, j) {
      var u :| u in s.pc && Deletes(s.pc[u], j);
      assert Deletes(s.pc[t := p][u], j);
    }
  }

  lemma OtherThreadStaysOk(s: State, s': State, u: Tid, i: nat)
    requires |s'.hdrs| == |s'.cells| == |s.hdrs| == |s.cells| && i < |s.hdrs|
    requires u in s.pc && u in s'.pc && s'.pc[u] == s.pc[u] && ThreadOk(s, u) && !Local(s.pc[u], i)
    requires s'.hdrs == s.hdrs[i := s'.hdrs[i]] && s'.cells == s.cells[i := s'.cells[i]]
    ensures ThreadOk(s', u)
  {
  }

  lemma OneDeleterAfterMove(pc: map<Tid, Pc>, t: Tid, p: Pc, i: nat)
    requires OneDeleter(pc) && t in pc && Local(p, i)
    requires Deletes(p, i) ==> forall u :: u in pc && u != t ==> !Deletes(pc[u], i)
    ensures OneDeleter(pc[t := p])
  {
  }

  /** All that a step of thread t in slot i can disturb. */
  lemma Preserved(s: State, s': State, t: Tid, i: nat)
    requires Inv(s) && t in s.pc && i < |s.hdrs|
    requires t in s'.pc && s'.pc == s.pc[t := s'.pc[t]]
    requires |s'.hdrs| == |s'.cells| == |s.hdrs|
    requires s'.hdrs == s.hdrs[i := s'.hdrs[i]] && s'.cells == s.cells[i := s'.cells[i]]
    requires Local(s.pc[t], i) && Local(s'.pc[t], i)
    requires s'.hdrs == s.hdrs || (HeaderSound(s'.hdrs[i], TYPE_MUTEX, i) && NamesDistinct(s'.hdrs))
    requires SlotOk(s'.hdrs[i], s'.cells[i], s'.pc, i)
    requires ThreadOk(s', t)
    requires forall u :: u in s.pc && u != t && !s.pc[u].Idle? && s.pc[u].i == i ==> ThreadOk(s', u)
    requires Deletes(s'.pc[t], i) ==> forall u :: u in s.pc && u != t ==> !Deletes(s.pc[u], i)
    ensures Inv(s')
  {
    forall j | 0 <= j < |s'.hdrs| ensures SlotOk(s'.hdrs[j], s'.cells[j], s'.pc, j) {
      if j != i { OtherSlotStaysOk(s, t, s'.pc[t], j); }
    }
    forall u | u in s'.pc ensures ThreadOk(s', u) {
      if u != t && !Local(s.pc[u], i) { OtherThreadStaysOk(s, s', u, i); }
    }
    SoundAfterUpdate(s.hdrs, TYPE_MUTEX, i, s'.hdrs[i]);
    OneDeleterAfterMove(s.pc, t, s'.pc[t], i);
    assert s'.pc.Keys == s.pc.Keys;
    assert |s'.pc| == |s.pc|;
  }

  /** The invariant's facts about one slot and a thread that moves to p. */
  lemma Facts(s: State, t: Tid, p: Pc, i: nat)
    requires Inv(s) && t in s.pc && i < |s.hdrs|
    ensures SlotOk(s.hdrs[i], s.cells[i], s.pc, i) && HeaderSound(s.hdrs[i], TYPE_MUTEX, i) && ThreadOk(s, t)
    ensures |Refs(s.pc[t := p], i)| == |Refs(s.pc, i)| - Bit(HasRef(s.pc[t], i)) + Bit(HasRef(p, i))
    ensures |Refs(s.pc, i)| <= |s.pc|
    ensures s.cells[i].refCount == 0 ==> forall u :: u in s.pc ==> !HasRef(s.pc[u], i)
    ensures Deletes(p, i) || (InWindow(s.pc, i) && !Deletes(s.pc[t], i)) ==> InWindow(s.pc[t := p], i)
  {
    RefsAfterMove(s.pc, t, p, i);
    forall u | u in s.pc && HasRef(s.pc[u], i) ensures s.cells[i].refCount != 0 {
      assert u in Refs(s.pc, i);
    }
    if Deletes(p, i) {
      assert Deletes(s.pc[t := p][t], i);
    } else if InWindow(s.pc, i) && !Deletes(s.pc[t], i) {
      var u :| u in s.pc && Deletes(s.pc[u], i);
      assert Deletes(s.pc[t := p][u], i);
    }
  }

  lemma ReturnKeepsInv(s: State, t: Tid, p: Pc)
    requires Inv(s) && t in s.pc && s.pc[t].Idle? && p.Idle?
    ensures Inv(Move(s, t, p))
  {
    Facts(s, t, p, 0);
    Preserved(s, Move(s, t, p), t, 0);
  }

  lemma CreateKeepsInv(s: State, t: Tid, req: Request)
    requires Inv(s) && IdleAt(s, t)
    requires CreateStatus(s.hdrs, req, true) == Success ==> !InWindow(s.pc, FirstFree(s.hdrs))
    ensures Inv(CreateStep(s, t, req))
  {
    var s' := CreateStep(s, t, req);
    if CreateStatus(s.hdrs, req, true) == Success {
      var i := FirstFree(s.hdrs);
      Facts(s, t, s'.pc[t], i);
      IssueIsSound(s.hdrs[i], TYPE_MUTEX, i, req.name.value, req.creator);
      Preserved(s, s', t, i);
    } else {
      ReturnKeepsInv(s, t, s'.pc[t]);
    }
  }

  lemma AcquireKeepsInv(s: State, t: Tid, id: u32, kind: LockKind)
    requires Inv(s) && IdleAt(s, t)
    ensures Inv(AcquireStep(s, t, id, kind))
  {
    var s' := AcquireStep(s, t, id, kind);
    match Lookup(s.hdrs, TYPE_MUTEX, id)
    case None => ReturnKeepsInv(s, t, s'.pc[t]);
    case Some(i) =>
      Facts(s, t, s'.pc[t], i);
      assert s'.cells[i].refCount == s.cells[i].refCount + 1;
      Preserved(s, s', t, i);
  }

  lemma UnlockCheckKeepsInv(s: State, t: Tid, id: u32)
    requires Inv(s) && IdleAt(s, t)
    ensures Inv(UnlockCheckStep(s, t, id))
  {
    var s' := UnlockCheckStep(s, t, id);
    match Lookup(s.hdrs, TYPE_MUTEX, id)
    case None => ReturnKeepsInv(s, t, s'.pc[t]);
    case Some(i) =>
      Facts(s, t, s'.pc[t], i);
      Preserved(s, s', t, i);
  }

  lemma DeleteBeginKeepsInv(s: State, t: Tid, id: u32)
    requires Inv(s) && IdleAt(s, t)
    ensures Inv(DeleteBeginStep(s, t, id))
  {
    var s' := DeleteBeginStep(s, t, id);
    var slot := Lookup(s.hdrs, TYPE_MUTEX, id);
    if slot.None? || s.cells[slot.value].refCount != 0 {
      ReturnKeepsInv(s, t, s'.pc[t]);
    } else {
      Facts(s, t, s'.pc[t], slot.value);
      Preserved(s, s', t, slot.value);
    }
  }

  lemma NativeLockKeepsInv(s: State, t: Tid, rc: LockResult)
    requires Inv(s) && Enabled(s, NativeLock(t, rc))
    ensures Inv(NativeLockStep(s, t, rc))
  {
    var s', i := NativeLockStep(s, t, rc), s.pc[t].i;
    Facts(s, t, s'.pc[t], i);
    Preserved(s, s', t, i);
  }

  /** The results of the three lock calls, by what their native call returned. */
  lemma NativeLockIsAnswered(s: State, t: Tid, rc: LockResult)
    requires Inv(s) && Enabled(s, NativeLock(t, rc))
    ensures var p, s' := s.pc[t], NativeLockStep(s, t, rc);
            && Inv(s')
            && (s'.pc[t] == Idle(Success) <==> rc == Acquired)
            && (s'.pc[t] == Failed(p.i, p.gen, Busy) <==> rc == EBusy)
            && (s'.pc[t] == Failed(p.i, p.gen, InvalidState) <==> rc == EDeadlk)
            && (s'.pc[t] == Failed(p.i, p.gen, TimedOut) <==> rc == ETimedOut)
            && (s'.pc[t] == Failed(p.i, p.gen, Generic) <==> rc == EOther)
  {
    NativeLockKeepsInv(s, t, rc);
    assert ThreadOk(s, t);
    assert SlotOk(s.hdrs[s.pc[t].i], s.cells[s.pc[t].i], s.pc, s.pc[t].i);
  }

  lemma ReleaseKeepsInv(s: State, t: Tid)
    requires Inv(s) && Enabled(s, Release(t))
    ensures Inv(ReleaseStep(s, t))
  {
    var s', i := ReleaseStep(s, t), s.pc[t].i;
    Facts(s, t, s'.pc[t], i);
    Preserved(s, s', t, i);
  }

  lemma NativeUnlockKeepsInv(s: State, t: Tid, rc: UnlockResult)
    requires Inv(s) && Enabled(s, NativeUnlock(t, rc)) && Allowed(s, NativeUnlock(t, rc))
    ensures Inv(NativeUnlockStep(s, t, rc))
  {
    var s', i := NativeUnlockStep(s, t, rc), s.pc[t].i;
    Facts(s, t, s'.pc[t], i);
    Preserved(s, s', t, i);
  }

  lemma NativeDestroyKeepsInv(s: State, t: Tid)
    requires Inv(s) && Enabled(s, NativeDestroy(t))
    ensures Inv(NativeDestroyStep(s, t))
  {
    var s', i := NativeDestroyStep(s, t), s.pc[t].i;
    Facts(s, t, s'.pc[t], i);
    assert forall u :: u in s.pc && s.pc[u].Locking? && s.pc[u].i == i ==> HasRef(s.pc[u], i);
    Preserved(s, s', t, i);
  }

  lemma DeleteEndKeepsInv(s: State, t: Tid)
    requires Inv(s) && Enabled(s, DeleteEnd(t))
    ensures Inv(DeleteEndStep(s, t))
  {
    var s', i := DeleteEndStep(s, t), s.pc[t].i;
    Facts(s, t, s'.pc[t], i);
    Preserved(s, s', t, i);
  }

  lemma InitHasInv(n: nat, threads: set<Tid>)
    requires Start(n, threads)
    ensures Inv(Init(n, threads))
  {
    var s := Init(n, threads);
    forall i | 0 <= i < n ensures SlotOk(s.hdrs[i], s.cells[i], s.pc, i) && HeaderSound(s.hdrs[i], TYPE_MUTEX, i) {
      assert Refs(s.pc, i) == {};
    }
    assert s.pc.Keys == threads;
  }

  lemma StepKeepsInv(s: State, a: Action)
    requires Inv(s) && Allowed(s, a)
    ensures Inv(Step(s, a))
  {
    if Enabled(s, a) {
      match a
      case Create(t, req) => CreateKeepsInv(s, t, req);
      case Acquire(t, id, kind) => AcquireKeepsInv(s, t, id, kind);
      case NativeLock(t, rc) => NativeLockKeepsInv(s, t, rc);
      case Release(t) => ReleaseKeepsInv(s, t);
      case UnlockCheck(t, id) => UnlockCheckKeepsInv(s, t, id);
      case NativeUnlock(t, rc) => NativeUnlockKeepsInv(s, t, rc);
      case DeleteBegin(t, id) => DeleteBeginKeepsInv(s, t, id);
      case NativeDestroy(t) => NativeDestroyKeepsInv(s, t);
      case DeleteEnd(t) => DeleteEndKeepsInv(s, t);
    }
  }

  lemma {:induction false} RunKeepsInv(s: State, run: seq<Action>)
    requires Inv(s) && InContract(s, run)
    ensures Inv(Exec(s, run))
    decreases |run|
  {
    if run != [] {
      StepKeepsInv(s, run[0]);
      RunKeepsInv(Step(s, run[0]), run[1..]);
    }
  }

  // ---------- Main results ----------

  /**
   * In every reachable state the reference count of a slot is one for the owner, if there is one,
   * plus one for each call holding a reference of its own; it never reaches the thread count + 2.
   */
  lemma ReferenceAccounting(n: nat, threads: set<Tid>, run: seq<Action>, i: nat)
    requires Start(n, threads) && InContract(Init(n, threads), run) && i < n
    ensures var s := Exec(Init(n, threads), run);
            s.cells[i].refCount == Bit(Owner(s.cells[i]).Some?) + |Refs(s.pc, i)| <= |threads| + 1
  {
    InitHasInv(n, threads);
    RunKeepsInv(Init(n, threads), run);
    var s := Exec(Init(n, threads), run);
    assert SlotOk(s.hdrs[i], s.cells[i], s.pc, i);
    ThreadsStay(Init(n, threads), run);
    SubsetSize(Refs(s.pc, i), s.pc.Keys);
    assert s.pc.Keys == threads;
  }

  lemma StepKeepsThreads(s: State, a: Action)
    requires Shaped(s)
    ensures Step(s, a).pc.Keys == s.pc.Keys
  {
  }

  lemma StepOfOther(s: State, a: Action, t: Tid)
    requires Shaped(s) && t in s.pc && a.t != t
    ensures t in Step(s, a).pc && Step(s, a).pc[t] == s.pc[t]
  {
  }

  lemma {:induction false} ThreadsStay(s: State, run: seq<Action>)
    requires Shaped(s)
    ensures Exec(s, run).pc.Keys == s.pc.Keys
    decreases |run|
  {
    if run != [] {
      StepKeepsThreads(s, run[0]);
      ThreadsStay(Step(s, run[0]), run[1..]);
    }
  }

  // ---------- Names ----------

  ghost predicate NamesLegal(hs: seq<Header>)
  {
    forall i :: 0 <= i < |hs| && hs[i].inUse ==> 1 <= |hs[i].name| <= 19
  }

  lemma StepKeepsNamesLegal(s: State, a: Action)
    requires Inv(s) && Allowed(s, a) && NamesLegal(s.hdrs)
    ensures NamesLegal(Step(s, a).hdrs)
  {
    if a.Create? {
      CreateAnswers(s.hdrs, a.req, true);
    } else if Enabled(s, a) && a.DeleteEnd? {
      assert ThreadOk(s, a.t);
    }
  }

  lemma {:induction false} RunKeepsNamesLegal(s: State, run: seq<Action>)
    requires Inv(s) && InContract(s, run) && NamesLegal(s.hdrs)
    ensures NamesLegal(Exec(s, run).hdrs)
    decreases |run|
  {
    if run != [] {
      StepKeepsNamesLegal(s, run[0]);
      StepKeepsInv(s, run[0]);
      RunKeepsNamesLegal(Step(s, run[0]), run[1..]);
    }
  }

  /** Over every run in contract the name of every mutex has 1 to 19 bytes: it fits its buffer of 20. */
  lemma NamesFit(n: nat, threads: set<Tid>, run: seq<Action>)
    requires Start(n, threads) && InContract(Init(n, threads), run)
    ensures NamesLegal(Exec(Init(n, threads), run).hdrs)
  {
    InitHasInv(n, threads);
    RunKeepsNamesLegal(Init(n, threads), run);
  }

  /** What must hold when a native call or a release is about to be made. */
  ghost predicate UsesAreSound(s: State, a: Action)
    requires Shaped(s) && Enabled(s, a)
  {
    match a
    case Create(t, req) =>
      // pthread_mutex_init is given a slot without an initialised mutex
      CreateStatus(s.hdrs, req, true) == Success ==> s.cells[FirstFree(s.hdrs)].native == Absent
    case NativeLock(t, rc) =>
      // the lock call works on the initialised mutex of the generation that was validated
      s.cells[s.pc[t].i].native.Ready? && s.hdrs[s.pc[t].i].inUse && s.hdrs[s.pc[t].i].gen == s.pc[t].gen
    case Release(t) =>
      // the guard in the release helper never fires, and the slot is still the same object
      s.cells[s.pc[t].i].refCount > 0 && s.hdrs[s.pc[t].i].inUse && s.hdrs[s.pc[t].i].gen == s.pc[t].gen
    case NativeUnlock(t, rc) =>
      // it succeeds exactly for the thread that owned the mutex at validation, in that generation
      var c, h := s.cells[s.pc[t].i], s.hdrs[s.pc[t].i];
      && (rc == Freed <==> s.pc[t].owned)
      && (c.native == Ready(Some(t)) <==> s.pc[t].owned)
      && (s.pc[t].owned ==> h.inUse && h.gen == s.pc[t].gen)
    case NativeDestroy(t) =>
      // no owner and nobody waiting: destroy cannot report EBUSY, the roll-back is never entered
      s.cells[s.pc[t].i].native == Ready(None) && !WaitedFor(s, s.pc[t].i)
    case DeleteEnd(t) => s.pc[t].Cleaning?
    case _ => true
  }

  /** Along every run that keeps the rule, every step that is taken uses native objects soundly. */
  lemma EveryUseIsSound(n: nat, threads: set<Tid>, run: seq<Action>, a: Action)
    requires Start(n, threads) && InContract(Init(n, threads), run)
    requires var s := Exec(Init(n, threads), run); Allowed(s, a) && Enabled(s, a)
    ensures UsesAreSound(Exec(Init(n, threads), run), a)
  {
    InitHasInv(n, threads);
    RunKeepsInv(Init(n, threads), run);
    InvMakesUsesSound(Exec(Init(n, threads), run), a);
  }

  lemma InvMakesUsesSound(s: State, a: Action)
    requires Inv(s) && Allowed(s, a) && Enabled(s, a)
    ensures UsesAreSound(s, a)
  {
    assert ThreadOk(s, a.t);
    if a.Create? {
      if CreateStatus(s.hdrs, a.req, true) == Success {
        var i := FirstFree(s.hdrs);
        assert SlotOk(s.hdrs[i], s.cells[i], s.pc, i);
      }
    } else if Inside(s, a.t) {
      var i := s.pc[a.t].i;
      assert SlotOk(s.hdrs[i], s.cells[i], s.pc, i);
      assert HasRef(s.pc[a.t], i) <==> a.t in Refs(s.pc, i);
      assert forall u :: u in s.pc && s.pc[u].Locking? && s.pc[u].i == i ==> u in Refs(s.pc, i);
    }
  }

  /** Delete is refused with BUSY exactly while the mutex is owned or some call holds a reference. */
  lemma DeleteIsBusyIff(s: State, t: Tid, id: u32)
    requires Inv(s) && IdleAt(s, t) && Lookup(s.hdrs, TYPE_MUTEX, id).Some?
    ensures var i := Lookup(s.hdrs, TYPE_MUTEX, id).value;
            DeleteBeginStep(s, t, id).pc[t] == Idle(Busy) <==>
            Owner(s.cells[i]).Some? || exists u :: u in s.pc && HasRef(s.pc[u], i)
  {
    var i := Lookup(s.hdrs, TYPE_MUTEX, id).value;
    assert SlotOk(s.hdrs[i], s.cells[i], s.pc, i);
    assert forall u :: u in s.pc && HasRef(s.pc[u], i) <==> u in Refs(s.pc, i);
    if Refs(s.pc, i) != {} {
      var u :| u in Refs(s.pc, i);
      assert HasRef(s.pc[u], i);
    }
  }

  // ---------- Ids stay valid ----------

  /** One step takes an id out of use only by a Delete call for that very id. */
  lemma StepKeepsId(s: State, a: Action, i: nat)
    requires Inv(s) && Allowed(s, a) && i < |s.hdrs| && s.hdrs[i].inUse
    requires !(a.DeleteBegin? && a.id == s.hdrs[i].id)
    ensures Step(s, a).hdrs[i] == s.hdrs[i]
  {
    if Enabled(s, a) && !IdleAt(s, a.t) { assert ThreadOk(s, a.t); }
  }

  ghost predicate NeverDeletes(run: seq<Action>, id: u32)
  {
    forall k :: 0 <= k < |run| ==> !(run[k].DeleteBegin? && run[k].id == id)
  }

  /** An id in use stays accepted, for the same generation, through every run without its Delete. */
  lemma {:induction false} IdPersists(s: State, run: seq<Action>, i: nat)
    requires Inv(s) && InContract(s, run) && i < |s.hdrs| && s.hdrs[i].inUse
    requires NeverDeletes(run, s.hdrs[i].id)
    ensures Exec(s, run).hdrs[i] == s.hdrs[i]
    ensures Lookup(Exec(s, run).hdrs, TYPE_MUTEX, s.hdrs[i].id) == Some(i)
    decreases |run|
  {
    if run == [] {
      LookupFindsOwnId(s.hdrs, TYPE_MUTEX, i);
    } else {
      StepKeepsId(s, run[0], i);
      StepKeepsInv(s, run[0]);
      IdPersists(Step(s, run[0]), run[1..], i);
    }
  }

  lemma StepKeepsOwner(s: State, a: Action, i: nat, t: Tid)
    requires Inv(s) && Allowed(s, a) && i < |s.hdrs| && s.cells[i].native == Ready(Some(t))
    requires !(a.NativeUnlock? && a.t == t)
    ensures Step(s, a).cells[i].native == Ready(Some(t)) && Step(s, a).hdrs[i] == s.hdrs[i]
  {
    assert SlotOk(s.hdrs[i], s.cells[i], s.pc, i);
    if a.DeleteBegin? {
      LookupFindsOwnId(s.hdrs, TYPE_MUTEX, i);
    } else if Enabled(s, a) {
      if !IdleAt(s, a.t) { assert ThreadOk(s, a.t); }
      StepKeepsId(s, a, i);
    }
  }

  /**
   * From a successful lock to the owner's own native unlock, whatever all other threads do
   * (including any Delete of the id), the mutex stays owned and its id stays valid.
   */
  lemma {:induction false} OwnerPinsTheId(s: State, run: seq<Action>, i: nat, t: Tid)
    requires Inv(s) && InContract(s, run) && i < |s.hdrs| && s.cells[i].native == Ready(Some(t))
    requires forall k :: 0 <= k < |run| ==> !(run[k].NativeUnlock? && run[k].t == t)
    ensures Exec(s, run).cells[i].native == Ready(Some(t)) && Exec(s, run).hdrs[i] == s.hdrs[i]
    ensures Lookup(Exec(s, run).hdrs, TYPE_MUTEX, s.hdrs[i].id) == Some(i)
    decreases |run|
  {
    if run == [] {
      assert SlotOk(s.hdrs[i], s.cells[i], s.pc, i);
      LookupFindsOwnId(s.hdrs, TYPE_MUTEX, i);
    } else {
      StepKeepsOwner(s, run[0], i, t);
      StepKeepsInv(s, run[0]);
      OwnerPinsTheId(Step(s, run[0]), run[1..], i, t);
    }
  }

  // ---------- Where the rule and ownership are needed ----------

  /** The rest of a Delete by d, run without interruption. */
  function FinishDelete(d: Tid): seq<Action> { [NativeDestroy(d), DeleteEnd(d)] }

  /**
   * The rule about Create is exact. The mutex that a successful Create makes in slot i survives
   * every in-contract continuation without its own Delete if and only if no Delete of the slot was
   * in flight. Otherwise the pending Delete destroys it and wipes its id, and the slot is lost:
   * in use for ever, with an id nobody accepts.
   */
  lemma CreateSurvivesIff(s: State, t: Tid, req: Request)
    requires Inv(s) && IdleAt(s, t) && CreateStatus(s.hdrs, req, true) == Success
    ensures var i, s1 := FirstFree(s.hdrs), CreateStep(s, t, req);
            !InWindow(s.pc, i) <==>
            forall run: seq<Action> :: InContract(s1, run) && NeverDeletes(run, s1.hdrs[i].id)
              ==> Lookup(Exec(s1, run).hdrs, TYPE_MUTEX, s1.hdrs[i].id) == Some(i)
  {
    var i, s1 := FirstFree(s.hdrs), CreateStep(s, t, req);
    if InWindow(s.pc, i) {
      var d :| d in s.pc && Deletes(s.pc[d], i);
      DeleteWipesNewMutex(s, t, req, d);
    } else {
      CreateKeepsInv(s, t, req);
      forall run: seq<Action> | InContract(s1, run) && NeverDeletes(run, s1.hdrs[i].id)
        ensures Lookup(Exec(s1, run).hdrs, TYPE_MUTEX, s1.hdrs[i].id) == Some(i)
      {
        IdPersists(s1, run, i);
      }
    }
  }

  lemma DeleteWipesNewMutex(s: State, t: Tid, req: Request, d: Tid)
    requires Inv(s) && IdleAt(s, t) && CreateStatus(s.hdrs, req, true) == Success
    requires d in s.pc && Deletes(s.pc[d], FirstFree(s.hdrs))
    ensures var i, s1 := FirstFree(s.hdrs), CreateStep(s, t, req);
            var s2 := Exec(s1, FinishDelete(d));
            && InContract(s1, FinishDelete(d)) && NeverDeletes(FinishDelete(d), s1.hdrs[i].id)
            && s2.hdrs[i].inUse && s2.hdrs[i].id == ID_NONE
            && Lookup(s2.hdrs, TYPE_MUTEX, s1.hdrs[i].id) == None
  {
    var i, s1 := FirstFree(s.hdrs), CreateStep(s, t, req);
    DestroyAfterCreate(s, t, req, d);
    TwoSteps(s1, NativeDestroy(d), DeleteEnd(d));
    FreshIdIsReal(s.hdrs[i], i, req.name.value, req.creator);
  }

  /**
   * A slot in use with no id is lost for ever: in every continuation, in contract or not, it stays as
   * it is, Create passes it over, and no id whatever is accepted for it.
   */
  lemma {:induction false} SlotIsLostForEver(s: State, run: seq<Action>, i: nat)
    requires Shaped(s) && i < |s.hdrs| && s.hdrs[i].inUse && s.hdrs[i].id == ID_NONE
    ensures var r := Exec(s, run);
            && r.hdrs[i].inUse && r.hdrs[i].id == ID_NONE && FirstFree(r.hdrs) != i
            && forall id :: Lookup(r.hdrs, TYPE_MUTEX, id) != Some(i)
    decreases |run|
  {
    if run != [] {
      LostSlotStays(s, run[0], i);
      SlotIsLostForEver(Step(s, run[0]), run[1..], i);
    }
  }

  lemma LostSlotStays(s: State, a: Action, i: nat)
    requires Shaped(s) && i < |s.hdrs| && s.hdrs[i].inUse && s.hdrs[i].id == ID_NONE
    ensures Step(s, a).hdrs[i].inUse && Step(s, a).hdrs[i].id == ID_NONE
  {
  }

  /** The pending Delete gets past the native destroy, if it was not already. */
  lemma DestroyAfterCreate(s: State, t: Tid, req: Request, d: Tid)
    requires Inv(s) && IdleAt(s, t) && CreateStatus(s.hdrs, req, true) == Success
    requires d in s.pc && Deletes(s.pc[d], FirstFree(s.hdrs))
    ensures var s1 := CreateStep(s, t, req);
            var s2 := Step(s1, NativeDestroy(d));
            d in s2.pc && s2.pc[d] == Cleaning(FirstFree(s.hdrs)) && s2.hdrs == s1.hdrs
  {
    assert ThreadOk(s, d);
    if s.pc[d].Destroying? { NoWaiterAfterCreate(s, t, req, d); }
  }

  lemma NoWaiterAfterCreate(s: State, t: Tid, req: Request, d: Tid)
    requires Inv(s) && IdleAt(s, t) && CreateStatus(s.hdrs, req, true) == Success
    requires d in s.pc && s.pc[d] == Destroying(FirstFree(s.hdrs))
    ensures !WaitedFor(CreateStep(s, t, req), FirstFree(s.hdrs))
  {
    var i := FirstFree(s.hdrs);
    assert ThreadOk(s, d) && SlotOk(s.hdrs[i], s.cells[i], s.pc, i);
    forall u | u in s.pc ensures !(s.pc[u].Locking? && s.pc[u].i == i) {
      assert ThreadOk(s, u);
    }
  }

  lemma TwoSteps(s: State, a: Action, b: Action)
    requires Shaped(s) && !(a.Create? || a.NativeUnlock?) && !(b.Create? || b.NativeUnlock?)
    ensures Exec(s, [a, b]) == Step(Step(s, a), b) && InContract(s, [a, b])
  {
    assert [a, b][1..] == [b] && [b][1..] == [];
    assert InContract(Step(Step(s, a), b), []);
    assert InContract(Step(s, a), [b]);
    assert Exec(Step(s, a), [b]) == Exec(Step(Step(s, a), b), []);
  }

  lemma FreshIdIsReal(h: Header, i: u16, name: string, creator: u32)
    ensures Issue(h, TYPE_MUTEX, i, name, creator).id != ID_NONE
    ensures IdIndex(Issue(h, TYPE_MUTEX, i, name, creator).id) == i
  {
    PackIsInjective(TYPE_MUTEX, NextSerial(h.serial), i, TYPE_MUTEX, 0, 0);
    UnpackOfPack(TYPE_MUTEX, NextSerial(h.serial), i);
  }

  /** Slot i still holds the initialised native mutex of generation gen. */
  ghost predicate Live(s: State, i: nat, gen: nat)
    requires Shaped(s) && i < |s.hdrs|
  {
    s.cells[i].native.Ready? && s.hdrs[i].inUse && s.hdrs[i].gen == gen
  }

  ghost predicate NoStepOf(run: seq<Action>, t: Tid)
  {
    forall k :: 0 <= k < |run| ==> run[k].t != t
  }

  // ---------- The pool as a dictionary, over runs ----------

  /** What an action does to the dictionary and answers from it. */
  ghost predicate ActsOnDict(s: State, a: Action)
    requires Shaped(s) && Enabled(s, a)
  {
    var n, d, d' := |s.hdrs|, Dict(s.hdrs), Dict(Apply(s, a).hdrs);
    a.t in Apply(s, a).pc &&
    var p' := Apply(s, a).pc[a.t];
    match a
    case Create(t, req) =>
      && p' == Idle(DictCreateStatus(d, n, req, true))
      && (if p' == Idle(Success)
          then exists id: u32 :: id !in d && id != ID_NONE && d' == d[id := Entry(req.name.value, req.creator)]
          else d' == d)
    case Acquire(t, id, kind) => d' == d && (p' == Idle(InvalidId) <==> id !in d)
    case UnlockCheck(t, id) => d' == d && (p' == Idle(InvalidId) <==> id !in d)
    case DeleteBegin(t, id) =>
      && (p' == Idle(InvalidId) <==> id !in d)
      && d' == if p'.Destroying? then d - {id} else d
    case _ => d' == d
  }

  /**
   * In every reachable state each action acts on the pool as on a dictionary of capacity n: Create
   * answers and inserts, Delete removes, the other calls look up, and nothing else changes it.
   */
  lemma PoolIsADictionary(n: nat, threads: set<Tid>, run: seq<Action>, a: Action)
    requires Start(n, threads) && InContract(Init(n, threads), run)
    requires var s := Exec(Init(n, threads), run); Allowed(s, a) && Enabled(s, a)
    ensures ActsOnDict(Exec(Init(n, threads), run), a)
  {
    InitHasInv(n, threads);
    RunKeepsInv(Init(n, threads), run);
    StepActsOnDict(Exec(Init(n, threads), run), a);
  }

  lemma StepActsOnDict(s: State, a: Action)
    requires Inv(s) && Enabled(s, a) && Allowed(s, a)
    ensures ActsOnDict(s, a)
  {
    SoundMeansDistinct(s.hdrs, TYPE_MUTEX);
    match a
    case Create(t, req) => CreateIsInsert(s, t, req);
    case Acquire(t, id, kind) => LookupIsMembership(s.hdrs, TYPE_MUTEX, id);
    case UnlockCheck(t, id) => LookupIsMembership(s.hdrs, TYPE_MUTEX, id);
    case DeleteBegin(t, id) => DeleteIsRemove(s, t, id);
    case DeleteEnd(t) =>
      InvMakesUsesSound(s, a);
      UnusedIsInvisible(s.hdrs, s.pc[t].i, Apply(s, a).hdrs[s.pc[t].i], |s.hdrs|);
    case _ =>
  }

  lemma CreateIsInsert(s: State, t: Tid, req: Request)
    requires Inv(s) && IdleAt(s, t) && IdsDistinct(s.hdrs)
    ensures var d, s' := Dict(s.hdrs), CreateStep(s, t, req);
            && s'.pc[t] == Idle(DictCreateStatus(d, |s.hdrs|, req, true))
            && (if s'.pc[t] == Idle(Success)
                then exists id: u32 :: id !in d && id != ID_NONE && Dict(s'.hdrs) == d[id := Entry(req.name.value, req.creator)]
                else Dict(s'.hdrs) == d)
  {
    CreateStatusFromDict(s.hdrs, req, true);
    var i, s' := FirstFree(s.hdrs), CreateStep(s, t, req);
    if CreateStatus(s.hdrs, req, true) == Success {
      IssueIsSound(s.hdrs[i], TYPE_MUTEX, i, req.name.value, req.creator);
      SoundAfterUpdate(s.hdrs, TYPE_MUTEX, i, s'.hdrs[i]);
      SoundMeansDistinct(s'.hdrs, TYPE_MUTEX);
      FillInserts(s.hdrs, i, s'.hdrs[i]);
      assert s'.hdrs[i].inUse && s'.hdrs[i].id != ID_NONE;
    }
  }

  lemma DeleteIsRemove(s: State, t: Tid, id: u32)
    requires Inv(s) && IdleAt(s, t) && IdsDistinct(s.hdrs)
    ensures var d, s' := Dict(s.hdrs), DeleteBeginStep(s, t, id);
            && (s'.pc[t] == Idle(InvalidId) <==> id !in d)
            && Dict(s'.hdrs) == if s'.pc[t].Destroying? then d - {id} else d
  {
    LookupIsMembership(s.hdrs, TYPE_MUTEX, id);
    var s' := DeleteBeginStep(s, t, id);
    if s'.pc[t].Destroying? {
      var i := Lookup(s.hdrs, TYPE_MUTEX, id).value;
      RetireRemoves(s.hdrs, i, s'.hdrs[i]);
    }
  }

  // ---------- Stale ids, over runs ----------

  ghost predicate Makes(s: State, a: Action, i: nat)
    requires Shaped(s)
  {
    a.Create? && Enabled(s, a) && CreateStatus(s.hdrs, a.req, true) == Success && FirstFree(s.hdrs) == i
  }

  /** How many creations in slot i a run makes. */
  ghost function Creations(s: State, run: seq<Action>, i: nat): nat
    requires Shaped(s)
    decreases |run|
  {
    if run == [] then 0 else Bit(Makes(s, run[0], i)) + Creations(Step(s, run[0]), run[1..], i)
  }

  lemma StepCountsGeneration(s: State, a: Action, i: nat)
    requires Shaped(s) && i < |s.hdrs|
    ensures Step(s, a).hdrs[i].gen == s.hdrs[i].gen + Bit(Makes(s, a, i))
  {
  }

  lemma {:induction false} CreationsCountGenerations(s: State, run: seq<Action>, i: nat)
    requires Shaped(s) && i < |s.hdrs|
    ensures Exec(s, run).hdrs[i].gen == s.hdrs[i].gen + Creations(s, run, i)
    decreases |run|
  {
    if run != [] {
      StepCountsGeneration(s, run[0], i);
      CreationsCountGenerations(Step(s, run[0]), run[1..], i);
    }
  }

  /**
   * An id issued for slot i, after any further history: with k re-creations of the slot since, it
   * is accepted exactly when the slot is in use and k is a multiple of 255. So it is rejected from
   * its Delete on, through the next 254 creations, and the 255th issues the same id again.
   */
  lemma StaleIdOverRuns(s: State, run: seq<Action>, i: nat)
    requires Inv(s) && InContract(s, run) && i < |s.hdrs| && s.hdrs[i].inUse
    ensures var r, k := Exec(s, run), Creations(s, run, i);
            Lookup(r.hdrs, TYPE_MUTEX, s.hdrs[i].id).Some? <==> r.hdrs[i].inUse && k % 255 == 0
  {
    RunKeepsInv(s, run);
    CreationsCountGenerations(s, run, i);
    assert HeaderSound(s.hdrs[i], TYPE_MUTEX, i);
    StaleIdIsAcceptedIff(Exec(s, run).hdrs, TYPE_MUTEX, i, s.hdrs[i].gen);
  }
}
