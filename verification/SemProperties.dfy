/** What every run of the semaphore pool keeps, and what follows for its callers. */
module SemProperties {
  import opened Common
  import opened Ids
  import opened Table
  import opened SemModel

  // ---------- The invariant ----------

  /** The parts a thread can play in slot i. */
  datatype Role = Reference | Poster | Consumer

  predicate Plays(p: Pc, i: nat, r: Role)
  {
    match r
    case Reference => (p.Waiting? || p.Consumed? || p.Releasing? || p.Leaked?) && p.i == i
    case Poster => p.Won? && p.i == i
    case Consumer => p.Consumed? && p.i == i
  }

  function Players(pc: map<Tid, Pc>, i: nat, r: Role): set<Tid> { set t | t in pc && Plays(pc[t], i, r) }

  /** The four phases of a live semaphore. */
  datatype Phase = Empty | Posted | Full | Taking

  /** Which phase the flag, the native count, the posters and the consumers are in, if in any. */
  function PhaseOf(flag: nat, count: nat, posters: nat, consumers: nat): Option<Phase>
  {
    if (flag, count, posters, consumers) == (0, 0, 0, 0) then Some(Empty)
    else if (flag, count, posters, consumers) == (1, 0, 1, 0) then Some(Posted)
    else if (flag, count, posters, consumers) == (1, 1, 0, 0) then Some(Full)
    else if (flag, count, posters, consumers) == (1, 0, 0, 1) then Some(Taking)
    else None
  }

  /** Slot i is published: its id can be seen by the lock-free AOS_SemPost. */
  predicate Live(s: State, i: nat) { i < |s.hdrs| && s.hdrs[i].id != ID_NONE }

  function SlotPhase(c: Cell, pc: map<Tid, Pc>, i: nat): Option<Phase>
  {
    if c.native.NoSem? then None
    else PhaseOf(c.flag, c.native.count, |Players(pc, i, Poster)|, |Players(pc, i, Consumer)|)
  }

  /** What a non-zero id promises to a thread that takes no lock. */
  predicate Published(h: Header, c: Cell, i: nat)
  {
    && i < MAX_POOL
    && h.serial == SerialOf(h.gen)
    && (h.id != ID_NONE ==> h.inUse && c.native.Sem? && h.gen >= 1 && h.id == IdPack(TYPE_BINSEM, h.serial, i))
  }

  ghost predicate SlotOk(h: Header, c: Cell, pc: map<Tid, Pc>, i: nat)
  {
    && c.refCount == |Players(pc, i, Reference)|
    && c.flag <= 1
    && Published(h, c, i)
    && (h.id != ID_NONE ==> SlotPhase(c, pc, i).Some?)
    && (!Changing(pc, i) ==> (h.inUse <==> h.id != ID_NONE) && (h.inUse <==> c.native.Sem?))
  }

  predicate HoldsLock(p: Pc) { p.Creating? || p.Retiring? || p.Republishing? }

  /** An object that is not published: nobody is in the middle of using it. */
  predicate Quiet(h: Header, c: Cell) { h.id == ID_NONE && c.native == Sem(c.flag) }

  predicate CreatingOk(h: Header, c: Cell, k: nat, made: Made)
  {
    && h.id == ID_NONE && k <= 6 && made.value <= 1 && c.native == Sem(made.value)
    && (k > 0 ==> h.gen >= 1)
    && (k > 1 ==> h.creator == made.creator)
    && (k > 2 ==> c.refCount == 0)
    && (k > 3 <==> h.inUse)
    && (k > 4 ==> h.name == made.name)
    && (k > 5 ==> c.flag == made.value)
  }

  ghost predicate ThreadOk(s: State, t: Tid)
    requires |s.hdrs| == |s.cells| && t in s.pc
  {
    var p := s.pc[t];
    p.Idle? ||
    (p.i < |s.hdrs| &&
     var h, c := s.hdrs[p.i], s.cells[p.i];
     (HoldsLock(p) ==> s.lock == Some(t)) &&
     match p
     case Creating(_, k, made) => CreatingOk(h, c, k, made)
     case Retiring(i, id) => Quiet(h, c) && h.inUse && Renames(h, i, id)
     case Destroying(i, id) => Quiet(h, c) && !h.inUse && Renames(h, i, id)
     case Cleaning(_) => h.id == ID_NONE && c.native == NoSem && !h.inUse
     case Restoring(i, id, _) => Quiet(h, c) && !h.inUse && Renames(h, i, id)
     case Republishing(i, id, _) => Quiet(h, c) && h.inUse && Renames(h, i, id)
     case Unposting(_, _) => false
     case _ => h.id != ID_NONE && h.gen == p.gen)
  }

  /** The id a Delete carries is the one this generation was created with. */
  predicate Renames(h: Header, i: nat, id: u32)
  {
    h.gen >= 1 && i < MAX_POOL && id == IdPack(TYPE_BINSEM, h.serial, i)
  }

  ghost predicate OneChanger(pc: map<Tid, Pc>)
  {
    forall t, u, i :: t in pc && u in pc && Changes(pc[t], i) && Changes(pc[u], i) ==> t == u
  }

  ghost predicate Inv(s: State)
  {
    && 0 < |s.hdrs| == |s.cells| <= MAX_POOL
    && |s.pc| < TWO32 - 2
    && (forall i :: 0 <= i < |s.hdrs| ==> SlotOk(s.hdrs[i], s.cells[i], s.pc, i))
    && (forall t :: t in s.pc ==> ThreadOk(s, t))
    && OneChanger(s.pc)
    && (s.lock.Some? ==> s.lock.value in s.pc && HoldsLock(s.pc[s.lock.value]))
  }

  // ---------- One thread moves in one slot ----------

  lemma PlayersAfterMove(pc: map<Tid, Pc>, t: Tid, p: Pc, i: nat, r: Role)
    requires t in pc
    ensures |Players(pc[t := p], i, r)| == |Players(pc, i, r)| - Bit(Plays(pc[t], i, r)) + Bit(Plays(p, i, r))
    ensures |Players(pc, i, r)| <= |pc|
  {
    var before, after := Players(pc, i, r), Players(pc[t := p], i, r);
    OnlyMoverDiffers(pc, t, p, i, r);
    assert before == if t in before then (before - {t}) + {t} else before - {t};
    assert after == if t in after then (after - {t}) + {t} else after - {t};
    SubsetSize(before, pc.Keys);
  }

  lemma OnlyMoverDiffers(pc: map<Tid, Pc>, t: Tid, p: Pc, i: nat, r: Role)
    requires t in pc
    ensures Players(pc[t := p], i, r) - {t} == Players(pc, i, r) - {t}
    ensures t in Players(pc, i, r) <==> Plays(pc[t], i, r)
    ensures t in Players(pc[t := p], i, r) <==> Plays(p, i, r)
  {
    forall u ensures u in Players(pc[t := p], i, r) - {t} <==> u in Players(pc, i, r) - {t} {
      if u in pc && u != t { assert pc[t := p][u] == pc[u]; }
    }
  }

  /** A thread with this program counter takes part in nothing outside slot i. */
  predicate Local(p: Pc, i: nat) { p.Idle? || p.i == i }

  lemma OtherSlotStaysOk(s: State, t: Tid, p: Pc, j: nat)
    requires t in s.pc && |s.hdrs| == |s.cells| && j < |s.hdrs| && SlotOk(s.hdrs[j], s.cells[j], s.pc, j)
    requires !s.pc[t].Idle? ==> s.pc[t].i != j
    requires !p.Idle? ==> p.i != j
    ensures SlotOk(s.hdrs[j], s.cells[j], s.pc[t := p], j)
  {
    PlayersAfterMove(s.pc, t, p, j, Reference);
    PlayersAfterMove(s.pc, t, p, j, Poster);
    PlayersAfterMove(s.pc, t, p, j, Consumer);
    if Changing(s.pc, j) {
      var u :| u in s.pc && Changes(s.pc[u], j);
      assert Changes(s.pc[t := p][u], j);
    }
  }

  lemma OtherThreadStaysOk(s: State, s': State, u: Tid, i: nat)
    requires |s'.hdrs| == |s'.cells| == |s.hdrs| == |s.cells| && i < |s.hdrs|
    requires u in s.pc && u in s'.pc && s'.pc[u] == s.pc[u] && ThreadOk(s, u) && !Local(s.pc[u], i)
    requires s'.hdrs == s.hdrs[i := s'.hdrs[i]] && s'.cells == s.cells[i := s'.cells[i]]
    requires s.lock == Some(u) ==> s'.lock == Some(u)
    ensures ThreadOk(s', u)
  {
  }

  lemma OneChangerAfterMove(pc: map<Tid, Pc>, t: Tid, p: Pc, i: nat)
    requires OneChanger(pc) && t in pc && Local(p, i)
    requires Changes(p, i) ==> forall u :: u in pc && u != t ==> !Changes(pc[u], i)
    ensures OneChanger(pc[t := p])
  {
  }

  /** All that a step of thread t in slot i can disturb. */
  lemma Preserved(s: State, s': State, t: Tid, i: nat)
    requires Inv(s) && t in s.pc && i < |s.hdrs|
    requires t in s'.pc && s'.pc == s.pc[t := s'.pc[t]]
    requires |s'.hdrs| == |s'.cells| == |s.hdrs|
    requires s'.hdrs == s.hdrs[i := s'.hdrs[i]] && s'.cells == s.cells[i := s'.cells[i]]
    requires Local(s.pc[t], i) && Local(s'.pc[t], i)
    requires s'.lock == if HoldsLock(s'.pc[t]) then Some(t) else if HoldsLock(s.pc[t]) then None else s.lock
    requires HoldsLock(s'.pc[t]) ==> s.lock == None || s.lock == Some(t)
    requires SlotOk(s'.hdrs[i], s'.cells[i], s'.pc, i)
    requires ThreadOk(s', t)
    requires forall u :: u in s.pc && u != t && !s.pc[u].Idle? && s.pc[u].i == i ==> ThreadOk(s', u)
    requires Changes(s'.pc[t], i) ==> forall u :: u in s.pc && u != t ==> !Changes(s.pc[u], i)
    ensures Inv(s')
  {
    forall j | 0 <= j < |s'.hdrs| ensures SlotOk(s'.hdrs[j], s'.cells[j], s'.pc, j) {
      if j != i { OtherSlotStaysOk(s, t, s'.pc[t], j); }
    }
    forall u | u in s'.pc ensures ThreadOk(s', u) {
      if u != t && !Local(s.pc[u], i) { OtherThreadStaysOk(s, s', u, i); }
    }
    OneChangerAfterMove(s.pc, t, s'.pc[t], i);
    assert s'.pc.Keys == s.pc.Keys;
    assert |s'.pc| == |s.pc|;
  }

  /** The invariant's facts about one slot and a thread that moves to p. */
  lemma Facts(s: State, t: Tid, p: Pc, i: nat)
    requires Inv(s) && t in s.pc && i < |s.hdrs|
    ensures SlotOk(s.hdrs[i], s.cells[i], s.pc, i) && ThreadOk(s, t)
    ensures forall r :: |Players(s.pc[t := p], i, r)| == |Players(s.pc, i, r)| - Bit(Plays(s.pc[t], i, r)) + Bit(Plays(p, i, r))
    ensures forall r :: |Players(s.pc, i, r)| <= |s.pc|
    ensures forall u, r :: u in s.pc && Plays(s.pc[u], i, r) ==> |Players(s.pc, i, r)| > 0
    ensures Changes(p, i) || (Changing(s.pc, i) && !Changes(s.pc[t], i)) ==> Changing(s.pc[t := p], i)
  {
    forall r ensures |Players(s.pc[t := p], i, r)| == |Players(s.pc, i, r)| - Bit(Plays(s.pc[t], i, r)) + Bit(Plays(p, i, r))
      && |Players(s.pc, i, r)| <= |s.pc|
    {
      PlayersAfterMove(s.pc, t, p, i, r);
    }
    forall u, r | u in s.pc && Plays(s.pc[u], i, r) ensures |Players(s.pc, i, r)| > 0 {
      assert u in Players(s.pc, i, r);
    }
    if Changes(p, i) {
      assert Changes(s.pc[t := p][t], i);
    } else if Changing(s.pc, i) && !Changes(s.pc[t], i) {
      var u :| u in s.pc && Changes(s.pc[u], i);
      assert Changes(s.pc[t := p][u], i);
    }
  }

  lemma ReturnKeepsInv(s: State, t: Tid, p: Pc)
    requires Inv(s) && IdleAt(s, t) && p.Idle?
    ensures Inv(Move(s, t, p))
  {
    Facts(s, t, p, 0);
    Preserved(s, Move(s, t, p), t, 0);
  }

  lemma AcquireKeepsInv(s: State, t: Tid, id: u32, kind: WaitKind)
    requires Inv(s) && Enabled(s, Acquire(t, id, kind))
    ensures Inv(AcquireStep(s, t, id, kind))
  {
    var s' := AcquireStep(s, t, id, kind);
    match Lookup(s.hdrs, TYPE_BINSEM, id)
    case None => ReturnKeepsInv(s, t, s'.pc[t]);
    case Some(i) =>
      Facts(s, t, s'.pc[t], i);
      UnlockedIsPublished(s, i, id);
      assert s'.cells[i].refCount == s.cells[i].refCount + 1;
      Preserved(s, s', t, i);
  }

  /** The id that a locked lookup accepts is not ID_NONE. */
  lemma UnlockedIsPublished(s: State, i: nat, id: u32)
    requires Lookup(s.hdrs, TYPE_BINSEM, id) == Some(i)
    ensures s.hdrs[i].id == id != ID_NONE
  {
  }

  lemma NativeWaitKeepsInv(s: State, t: Tid, rc: WaitResult)
    requires Inv(s) && Enabled(s, NativeWait(t, rc))
    ensures Inv(NativeWaitStep(s, t, rc))
  {
    if rc != Interrupted {
      var s', i := NativeWaitStep(s, t, rc), s.pc[t].i;
      Facts(s, t, s'.pc[t], i);
      Preserved(s, s', t, i);
    }
  }

  lemma ClearStateKeepsInv(s: State, t: Tid)
    requires Inv(s) && Enabled(s, ClearState(t))
    ensures Inv(ClearStateStep(s, t))
  {
    var s', i := ClearStateStep(s, t), s.pc[t].i;
    Facts(s, t, s'.pc[t], i);
    Preserved(s, s', t, i);
  }

  lemma ReleaseKeepsInv(s: State, t: Tid)
    requires Inv(s) && Enabled(s, Release(t))
    ensures Inv(ReleaseStep(s, t))
  {
    var s', i := ReleaseStep(s, t), s.pc[t].i;
    Facts(s, t, s'.pc[t], i);
    Preserved(s, s', t, i);
  }

  lemma CancelKeepsInv(s: State, t: Tid)
    requires Inv(s) && Enabled(s, Cancel(t))
    ensures Inv(CancelStep(s, t))
  {
    var s', i := CancelStep(s, t), s.pc[t].i;
    Facts(s, t, s'.pc[t], i);
    Preserved(s, s', t, i);
  }

  lemma PostCheckKeepsInv(s: State, t: Tid, id: u32)
    requires Inv(s) && Enabled(s, PostCheck(t, id))
    ensures Inv(PostCheckStep(s, t, id))
  {
    var s' := PostCheckStep(s, t, id);
    match PostAccepts(s.hdrs, id)
    case None => ReturnKeepsInv(s, t, s'.pc[t]);
    case Some(i) =>
      Facts(s, t, s'.pc[t], i);
      Preserved(s, s', t, i);
  }

  lemma PostSwapKeepsInv(s: State, t: Tid)
    requires Inv(s) && Enabled(s, PostSwap(t))
    ensures Inv(PostSwapStep(s, t))
  {
    var s', i := PostSwapStep(s, t), s.pc[t].i;
    SwapKeepsSlot(s, t);
    Preserved(s, s', t, i);
  }

  lemma SwapKeepsSlot(s: State, t: Tid)
    requires Inv(s) && Enabled(s, PostSwap(t))
    ensures var s', i := PostSwapStep(s, t), s.pc[t].i;
            SlotOk(s'.hdrs[i], s'.cells[i], s'.pc, i) && ThreadOk(s', t)
  {
    Facts(s, t, PostSwapStep(s, t).pc[t], s.pc[t].i);
  }

  lemma NativePostKeepsInv(s: State, t: Tid)
    requires Inv(s) && Enabled(s, NativePost(t))
    ensures Inv(NativePostStep(s, t))
  {
    var s', i := NativePostStep(s, t), s.pc[t].i;
    PostKeepsSlot(s, t);
    Preserved(s, s', t, i);
  }

  lemma PostKeepsSlot(s: State, t: Tid)
    requires Inv(s) && Enabled(s, NativePost(t))
    ensures var s', i := NativePostStep(s, t), s.pc[t].i;
            SlotOk(s'.hdrs[i], s'.cells[i], s'.pc, i) && s'.pc[t].Idle?
  {
    Facts(s, t, NativePostStep(s, t).pc[t], s.pc[t].i);
  }

  lemma CreateBeginKeepsInv(s: State, t: Tid, req: Request, initial: nat)
    requires Inv(s) && Enabled(s, CreateBegin(t, req, initial)) && Allowed(s, CreateBegin(t, req, initial))
    ensures Inv(CreateBeginStep(s, t, req, initial))
  {
    var s', i := CreateBeginStep(s, t, req, initial), FirstFree(s.hdrs);
    if s'.pc[t].Idle? {
      ReturnKeepsInv(s, t, s'.pc[t]);
    } else {
      Facts(s, t, s'.pc[t], i);
      Preserved(s, s', t, i);
    }
  }

  lemma CreateStoreKeepsInv(s: State, t: Tid)
    requires Inv(s) && Enabled(s, CreateStore(t))
    ensures Inv(CreateStoreStep(s, t))
  {
    var s', i := CreateStoreStep(s, t), s.pc[t].i;
    StoreKeepsSlot(s, t);
    Preserved(s, s', t, i);
  }

  lemma StoreKeepsSlot(s: State, t: Tid)
    requires Inv(s) && Enabled(s, CreateStore(t))
    ensures var s', i := CreateStoreStep(s, t), s.pc[t].i;
            && SlotOk(s'.hdrs[i], s'.cells[i], s'.pc, i) && ThreadOk(s', t)
            && forall u :: u in s.pc && u != t && !s.pc[u].Idle? && s.pc[u].i == i ==> ThreadOk(s', u)
  {
    Facts(s, t, CreateStoreStep(s, t).pc[t], s.pc[t].i);
  }

  lemma DeleteBeginKeepsInv(s: State, t: Tid, id: u32)
    requires Inv(s) && Enabled(s, DeleteBegin(t, id)) && Allowed(s, DeleteBegin(t, id))
    ensures Inv(DeleteBeginStep(s, t, id))
  {
    var s', slot := DeleteBeginStep(s, t, id), Lookup(s.hdrs, TYPE_BINSEM, id);
    if s'.pc[t].Idle? {
      ReturnKeepsInv(s, t, s'.pc[t]);
    } else {
      Facts(s, t, s'.pc[t], slot.value);
      Preserved(s, s', t, slot.value);
    }
  }

  lemma DeleteStoreKeepsInv(s: State, t: Tid)
    requires Inv(s) && Enabled(s, DeleteStore(t))
    ensures Inv(DeleteStoreStep(s, t))
  {
    var s', i := DeleteStoreStep(s, t), s.pc[t].i;
    Facts(s, t, s'.pc[t], i);
    Preserved(s, s', t, i);
  }

  lemma NativeDestroyKeepsInv(s: State, t: Tid, rc: DestroyResult)
    requires Inv(s) && Enabled(s, NativeDestroy(t, rc))
    ensures Inv(NativeDestroyStep(s, t, rc))
  {
    var s', i := NativeDestroyStep(s, t, rc), s.pc[t].i;
    Facts(s, t, s'.pc[t], i);
    Preserved(s, s', t, i);
  }

  lemma DeleteEndKeepsInv(s: State, t: Tid)
    requires Inv(s) && Enabled(s, DeleteEnd(t))
    ensures Inv(DeleteEndStep(s, t))
  {
    var s', i := DeleteEndStep(s, t), s.pc[t].i;
    Facts(s, t, s'.pc[t], i);
    Preserved(s, s', t, i);
  }

  lemma RepublishKeepsInv(s: State, t: Tid)
    requires Inv(s) && Enabled(s, Republish(t))
    ensures Inv(RepublishStep(s, t))
  {
    var s', i := RepublishStep(s, t), s.pc[t].i;
    Facts(s, t, s'.pc[t], i);
    Preserved(s, s', t, i);
  }

  // ---------- Runs ----------

  lemma InitHasInv(n: nat, threads: set<Tid>)
    requires Start(n, threads)
    ensures Inv(Init(n, threads))
  {
    var s := Init(n, threads);
    forall i | 0 <= i < n ensures SlotOk(s.hdrs[i], s.cells[i], s.pc, i) {
      assert Players(s.pc, i, Reference) == {};
    }
    assert s.pc.Keys == threads;
  }

  lemma StepKeepsInv(s: State, a: Action)
    requires Inv(s) && Allowed(s, a)
    ensures Inv(Step(s, a))
  {
    if Enabled(s, a) {
      match a
      case CreateBegin(t, req, initial) => CreateBeginKeepsInv(s, t, req, initial);
      case CreateStore(t) => CreateStoreKeepsInv(s, t);
      case Acquire(t, id, kind) => AcquireKeepsInv(s, t, id, kind);
      case NativeWait(t, rc) => NativeWaitKeepsInv(s, t, rc);
      case ClearState(t) => ClearStateKeepsInv(s, t);
      case Release(t) => ReleaseKeepsInv(s, t);
      case Cancel(t) => CancelKeepsInv(s, t);
      case PostCheck(t, id) => PostCheckKeepsInv(s, t, id);
      case PostSwap(t) => PostSwapKeepsInv(s, t);
      case NativePost(t) => NativePostKeepsInv(s, t);
      case PostUndo(t) =>
      case DeleteBegin(t, id) => DeleteBeginKeepsInv(s, t, id);
      case DeleteStore(t) => DeleteStoreKeepsInv(s, t);
      case NativeDestroy(t, how) => NativeDestroyKeepsInv(s, t, how);
      case DeleteEnd(t) => DeleteEndKeepsInv(s, t);
      case Republish(t) => RepublishKeepsInv(s, t);
    }
  }

  lemma {:induction false} RunKeepsInv(s: State, run: seq<Action>)
    requires Inv(s) && InContract(s, run)
    ensures Inv(Exec(s, run))
    decreases |run|
  {
    if run != [] {
      StepKeepsInv(s, run[0]);
      RunKeepsInv(Step(s, run[0]), run[1..]);
    }
  }

  lemma Reached(n: nat, threads: set<Tid>, run: seq<Action>)
    requires Start(n, threads) && InContract(Init(n, threads), run)
    ensures Inv(Exec(Init(n, threads), run))
  {
    InitHasInv(n, threads);
    RunKeepsInv(Init(n, threads), run);
  }

  // ---------- Main results ----------

  /**
   * Token conservation. In every reachable state of a live semaphore the flag, the native count, the
   * posters between their swap and sem_post, and the waiters between sem_wait and their store are
   * in one of four combinations: one token, in one of three places, or none.
   */
  lemma TokenConservation(n: nat, threads: set<Tid>, run: seq<Action>, i: nat)
    requires Start(n, threads) && InContract(Init(n, threads), run) && i < n
    requires Live(Exec(Init(n, threads), run), i)
    ensures var s := Exec(Init(n, threads), run);
            && s.cells[i].native.Sem?
            && var flag, count := s.cells[i].flag, s.cells[i].native.count;
               var posters, takers := |Players(s.pc, i, Poster)|, |Players(s.pc, i, Consumer)|;
               && flag == count + posters + takers <= 1
  {
    Reached(n, threads, run);
    var s := Exec(Init(n, threads), run);
    assert SlotOk(s.hdrs[i], s.cells[i], s.pc, i);
  }

  /**
   * In every reachable state the reference count is the number of calls inside Wait, TryWait and
   * TimedWait, counting those whose thread was cancelled there and will never return.
   */
  lemma ReferenceAccounting(n: nat, threads: set<Tid>, run: seq<Action>, i: nat)
    requires Start(n, threads) && InContract(Init(n, threads), run) && i < n
    ensures var s := Exec(Init(n, threads), run);
            s.cells[i].refCount == |Players(s.pc, i, Reference)| <= |threads|
  {
    Reached(n, threads, run);
    var s := Exec(Init(n, threads), run);
    assert SlotOk(s.hdrs[i], s.cells[i], s.pc, i);
    ThreadsStay(Init(n, threads), run);
    SubsetSize(Players(s.pc, i, Reference), s.pc.Keys);
    assert s.pc.Keys == threads;
  }

  lemma StepKeepsThreads(s: State, a: Action)
    requires Shaped(s)
    ensures Step(s, a).pc.Keys == s.pc.Keys
  {
  }

  lemma {:induction false} ThreadsStay(s: State, run: seq<Action>)
    requires Shaped(s)
    ensures Exec(s, run).pc.Keys == s.pc.Keys
    decreases |run|
  {
    if run != [] {
      StepKeepsThreads(s, run[0]);
      ThreadsStay(Step(s, run[0]), run[1..]);
    }
  }

  /**
   * Publication order. At every single store of every Create, Delete and roll-back, a non-zero id in
   * a slot means: in use, native semaphore initialised, flag initialised, id packed from the
   * slot's own serial. No other slot shows the same id.
   */
  lemma PublishedAtEveryStore(n: nat, threads: set<Tid>, run: seq<Action>, i: nat)
    requires Start(n, threads) && InContract(Init(n, threads), run) && i < n
    requires Live(Exec(Init(n, threads), run), i)
    ensures var s := Exec(Init(n, threads), run);
            var h, c := s.hdrs[i], s.cells[i];
            && h.inUse && c.native.Sem? && c.flag <= 1
            && h.serial == SerialOf(h.gen) != 0
            && h.id == IdPack(TYPE_BINSEM, h.serial, i)
            && forall j :: 0 <= j < n && s.hdrs[j].id == h.id ==> j == i
  {
    Reached(n, threads, run);
    var s := Exec(Init(n, threads), run);
    assert SlotOk(s.hdrs[i], s.cells[i], s.pc, i);
    SerialClosedForm(s.hdrs[i].gen);
    forall j | 0 <= j < n && s.hdrs[j].id == s.hdrs[i].id ensures j == i {
      assert SlotOk(s.hdrs[j], s.cells[j], s.pc, j);
      PackIsInjective(TYPE_BINSEM, s.hdrs[i].serial, i, TYPE_BINSEM, s.hdrs[j].serial, j);
    }
  }

  /** While the table lock is free, Post's lock-free validation accepts what the locked one accepts. */
  lemma PostAgreesWithLookup(n: nat, threads: set<Tid>, run: seq<Action>, id: u32)
    requires Start(n, threads) && InContract(Init(n, threads), run)
    requires Exec(Init(n, threads), run).lock == None
    ensures var s := Exec(Init(n, threads), run);
            PostAccepts(s.hdrs, id) == Lookup(s.hdrs, TYPE_BINSEM, id)
  {
    Reached(n, threads, run);
    ValidationsAgree(Exec(Init(n, threads), run), id);
  }

  lemma UnlockedSlotIsSettled(s: State, i: nat)
    requires Inv(s) && s.lock == None && i < |s.hdrs|
    ensures s.hdrs[i].inUse <==> s.hdrs[i].id != ID_NONE
    ensures HeaderSound(s.hdrs[i], TYPE_BINSEM, i)
  {
    assert SlotOk(s.hdrs[i], s.cells[i], s.pc, i);
    if Changing(s.pc, i) {
      var u :| u in s.pc && Changes(s.pc[u], i);
      assert ThreadOk(s, u);
    }
  }

  lemma ValidationsAgree(s: State, id: u32)
    requires Inv(s) && s.lock == None
    ensures PostAccepts(s.hdrs, id) == Lookup(s.hdrs, TYPE_BINSEM, id)
  {
    var i := IdIndex(id);
    if IdType(id) == TYPE_BINSEM && i < |s.hdrs| && s.hdrs[i].id == id {
      UnlockedSlotIsSettled(s, i);
      UnpackOfPack(TYPE_BINSEM, s.hdrs[i].serial, i);
    }
  }

  /** What must hold when a native call, the clearing store or a release is about to be made. */
  ghost predicate UsesAreSound(s: State, a: Action)
    requires Shaped(s) && Enabled(s, a)
  {
    match a
    case CreateBegin(t, req, initial) =>
      // sem_init is given a slot without an initialised semaphore
      CreateStatus(s.hdrs, req, InitialStateOk(initial)) == Success ==> s.cells[FirstFree(s.hdrs)].native == NoSem
    case NativeWait(t, rc) => SameObject(s, s.pc[t].i, s.pc[t].gen)
    case ClearState(t) =>
      // the clearing store empties a full flag of the validated generation
      SameObject(s, s.pc[t].i, s.pc[t].gen) && s.cells[s.pc[t].i].flag == 1
    case Release(t) =>
      SameObject(s, s.pc[t].i, s.pc[t].gen) && s.cells[s.pc[t].i].refCount > 0
    case PostSwap(t) => SameObject(s, s.pc[t].i, s.pc[t].gen)
    case NativePost(t) =>
      // sem_post raises the count from 0 to 1: it cannot overflow, so its roll-back is never entered
      SameObject(s, s.pc[t].i, s.pc[t].gen) && s.cells[s.pc[t].i].native == Sem(0)
    case PostUndo(t) => false
    case NativeDestroy(t, how) =>
      // no call is blocked in a wait, or between a wait and its store, or before its sem_post
      && s.cells[s.pc[t].i].native.Sem?
      && forall u :: u in s.pc && u != t && !s.pc[u].Idle? ==> s.pc[u].i != s.pc[t].i
    case _ => true
  }

  /** Slot i still holds the initialised, published semaphore of generation gen. */
  ghost predicate SameObject(s: State, i: nat, gen: nat)
    requires Shaped(s)
  {
    Live(s, i) && s.hdrs[i].inUse && s.cells[i].native.Sem? && s.hdrs[i].gen == gen
  }

  lemma InvMakesUsesSound(s: State, a: Action)
    requires Inv(s) && Allowed(s, a) && Enabled(s, a)
    ensures UsesAreSound(s, a)
  {
    if a.CreateBegin? {
      CreateIsSound(s, a);
    } else if a.NativeDestroy? {
      DestroyIsSound(s, a);
    } else if Inside(s, a.t) {
      assert ThreadOk(s, a.t);
      Facts(s, a.t, s.pc[a.t], s.pc[a.t].i);
    }
  }

  lemma CreateIsSound(s: State, a: Action)
    requires Inv(s) && Allowed(s, a) && Enabled(s, a) && a.CreateBegin?
    ensures UsesAreSound(s, a)
  {
    if CreateStatus(s.hdrs, a.req, InitialStateOk(a.initial)) == Success {
      var i := FirstFree(s.hdrs);
      assert SlotOk(s.hdrs[i], s.cells[i], s.pc, i);
    }
  }

  lemma DestroyIsSound(s: State, a: Action)
    requires Inv(s) && Enabled(s, a) && a.NativeDestroy?
    ensures UsesAreSound(s, a)
  {
    assert ThreadOk(s, a.t);
    assert Changes(s.pc[a.t], s.pc[a.t].i);
    forall u | u in s.pc && u != a.t && !s.pc[u].Idle? ensures s.pc[u].i != s.pc[a.t].i {
      assert ThreadOk(s, u);
    }
  }

  /** Along every run that keeps the rules, every step uses the native objects soundly. */
  lemma EveryUseIsSound(n: nat, threads: set<Tid>, run: seq<Action>, a: Action)
    requires Start(n, threads) && InContract(Init(n, threads), run)
    requires var s := Exec(Init(n, threads), run); Allowed(s, a) && Enabled(s, a)
    ensures UsesAreSound(Exec(Init(n, threads), run), a)
  {
    Reached(n, threads, run);
    InvMakesUsesSound(Exec(Init(n, threads), run), a);
  }

  // ---------- The four-phase automaton ----------

  ghost predicate At(s: State, t: Tid, i: nat) { Inside(s, t) && s.pc[t].i == i }

  /** The edge of the cycle Empty -> Posted -> Full -> Taking -> Empty that an action takes in slot i. */
  ghost function NextPhase(s: State, a: Action, i: nat, phase: Phase): Phase
  {
    if !At(s, a.t, i) then phase
    else
      match a
      case PostSwap(t) => if phase == Empty then Posted else phase
      case NativePost(t) => Full
      case NativeWait(t, rc) => if rc == Taken then Taking else phase
      case ClearState(t) => Empty
      case _ => phase
  }

  /** The phase in which an action is possible in slot i. */
  predicate PhaseAllows(a: Action, phase: Phase)
  {
    match a
    case NativePost(t) => phase == Posted
    case NativeWait(t, rc) => (rc == Taken ==> phase == Full) && (rc == WouldBlock ==> phase != Full)
    case ClearState(t) => phase == Taking
    case _ => true
  }

  /**
   * Refinement: every step of the pool that leaves slot i live is, in that slot, an edge of the
   * automaton or no move; and the edges are taken only from their source phase.
   */
  lemma StepFollowsAutomaton(s: State, a: Action, i: nat)
    requires Inv(s) && Allowed(s, a) && Enabled(s, a) && Live(s, i) && Live(Step(s, a), i)
    ensures SlotPhase(s.cells[i], s.pc, i).Some?
    ensures var phase := SlotPhase(s.cells[i], s.pc, i).value;
            && SlotPhase(Step(s, a).cells[i], Step(s, a).pc, i) == Some(NextPhase(s, a, i, phase))
            && (At(s, a.t, i) ==> PhaseAllows(a, phase))
  {
    assert SlotOk(s.hdrs[i], s.cells[i], s.pc, i);
    if At(s, a.t, i) && (a.PostSwap? || a.NativePost? || a.NativeWait? || a.ClearState?) {
      TokenMoves(s, a, i);
    } else {
      TokenStays(s, a, i);
    }
  }

  lemma TokenMoves(s: State, a: Action, i: nat)
    requires Inv(s) && Enabled(s, a) && Live(s, i) && At(s, a.t, i)
    requires a.PostSwap? || a.NativePost? || a.NativeWait? || a.ClearState?
    requires SlotPhase(s.cells[i], s.pc, i).Some?
    ensures var phase := SlotPhase(s.cells[i], s.pc, i).value;
            && SlotPhase(Step(s, a).cells[i], Step(s, a).pc, i) == Some(NextPhase(s, a, i, phase))
            && PhaseAllows(a, phase)
  {
    var s' := Step(s, a);
    assert s'.pc == s.pc[a.t := s'.pc[a.t]];
    PlayersAfterMove(s.pc, a.t, s'.pc[a.t], i, Poster);
    PlayersAfterMove(s.pc, a.t, s'.pc[a.t], i, Consumer);
    assert a.t in Players(s.pc, i, Poster) <==> a.NativePost?;
    assert a.t in Players(s.pc, i, Consumer) <==> a.ClearState?;
  }

  /** Every other action leaves the flag and the count alone, and moves no poster or consumer. */
  lemma TokenStays(s: State, a: Action, i: nat)
    requires Inv(s) && Enabled(s, a) && Live(s, i) && Live(Step(s, a), i)
    requires At(s, a.t, i) ==> !(a.PostSwap? || a.NativePost? || a.NativeWait? || a.ClearState?)
    ensures SlotPhase(Step(s, a).cells[i], Step(s, a).pc, i) == SlotPhase(s.cells[i], s.pc, i)
  {
    var s' := Step(s, a);
    assert ThreadOk(s, a.t);
    CellStays(s, a, i);
    RolesStay(s, a, i);
    PlayersAfterMove(s.pc, a.t, s'.pc[a.t], i, Poster);
    PlayersAfterMove(s.pc, a.t, s'.pc[a.t], i, Consumer);
  }

  lemma CellStays(s: State, a: Action, i: nat)
    requires Inv(s) && Enabled(s, a) && Live(s, i) && Live(Step(s, a), i)
    requires At(s, a.t, i) ==> !(a.PostSwap? || a.NativePost? || a.NativeWait? || a.ClearState?)
    ensures Step(s, a).cells[i].flag == s.cells[i].flag && Step(s, a).cells[i].native == s.cells[i].native
  {
    assert ThreadOk(s, a.t);
    assert SlotOk(s.hdrs[i], s.cells[i], s.pc, i);
  }

  lemma RolesStay(s: State, a: Action, i: nat)
    requires Shaped(s) && Enabled(s, a)
    requires At(s, a.t, i) ==> !(a.PostSwap? || a.NativePost? || a.NativeWait? || a.ClearState?)
    ensures var s' := Step(s, a);
            && a.t in s'.pc && s'.pc == s.pc[a.t := s'.pc[a.t]]
            && Plays(s'.pc[a.t], i, Poster) == Plays(s.pc[a.t], i, Poster)
            && Plays(s'.pc[a.t], i, Consumer) == Plays(s.pc[a.t], i, Consumer)
  {
  }
}
