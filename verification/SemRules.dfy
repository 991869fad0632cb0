/** The two rules for callers of the semaphore pool are exact: what holds with them, and fails without. */
module SemRules {
  import opened Common
  import opened Ids
  import opened Table
  import opened Names
  import opened SemModel
  import opened SemProperties
  import opened SemTheorems

  // ---------- Ids stay valid ----------

  /** One step un-publishes an id only by a Delete call for that very id. */
  lemma StepKeepsId(s: State, a: Action, i: nat)
    requires Inv(s) && Allowed(s, a) && Live(s, i)
    requires !(a.DeleteBegin? && a.id == s.hdrs[i].id)
    ensures Step(s, a).hdrs[i] == s.hdrs[i]
  {
    if Enabled(s, a) && !IdleAt(s, a.t) { assert ThreadOk(s, a.t); }
    if Enabled(s, a) && a.CreateBegin? { assert SlotOk(s.hdrs[i], s.cells[i], s.pc, i); }
  }

  ghost predicate NeverDeletes(run: seq<Action>, id: u32)
  {
    forall k :: 0 <= k < |run| ==> !(run[k].DeleteBegin? && run[k].id == id)
  }

  /** A published id stays with its slot, header and all, through every run without its Delete. */
  lemma {:induction false} IdPersists(s: State, run: seq<Action>, i: nat)
    requires Inv(s) && InContract(s, run) && Live(s, i) && NeverDeletes(run, s.hdrs[i].id)
    ensures Intact(Exec(s, run), i, s.hdrs[i])
    decreases |run|
  {
    if run == [] {
      LiveIsIntact(s, i);
    } else {
      StepKeepsId(s, run[0], i);
      StepKeepsInv(s, run[0]);
      IdPersists(Step(s, run[0]), run[1..], i);
    }
  }

  /** Slot i holds an initialised semaphore under header h, and Post accepts its id. */
  predicate Intact(s: State, i: nat, h: Header)
  {
    i < |s.hdrs| == |s.cells| && s.hdrs[i] == h && s.cells[i].native.Sem? && PostAccepts(s.hdrs, h.id) == Some(i)
  }

  lemma LiveIsIntact(s: State, i: nat)
    requires Inv(s) && Live(s, i)
    ensures Intact(s, i, s.hdrs[i])
  {
    assert SlotOk(s.hdrs[i], s.cells[i], s.pc, i);
    UnpackOfPack(TYPE_BINSEM, s.hdrs[i].serial, i);
  }

  // ---------- Create does not take a slot whose Delete is in flight ----------

  /** The rest of d's Delete, in whatever phase it is. */
  function FinishDelete(d: Tid): seq<Action> { [NativeDestroy(d, Destroyed), DeleteEnd(d), Republish(d)] }

  /**
   * The rule about Create is exact. The semaphore that a successful Create makes in slot i survives
   * every in-contract continuation without its own Delete, with its name, creator, native semaphore
   * and id, if and only if no Delete of the slot was in flight.
   */
  lemma CreateSurvivesIff(s: State, t: Tid, req: Request, initial: nat)
    requires Inv(s) && Enabled(s, CreateBegin(t, req, initial))
    requires CreateStatus(s.hdrs, req, InitialStateOk(initial)) == Success
    ensures var i, s1 := FirstFree(s.hdrs), CreatedAtOnce(s, t, req, initial);
            !Changing(s.pc, i) <==>
            forall run: seq<Action> :: InContract(s1, run) && NeverDeletes(run, s1.hdrs[i].id)
              ==> Intact(Exec(s1, run), i, s1.hdrs[i])
  {
    var i, s1 := FirstFree(s.hdrs), CreatedAtOnce(s, t, req, initial);
    if Changing(s.pc, i) {
      var d :| d in s.pc && Changes(s.pc[d], i);
      DeleteSpoilsNewSemaphore(s, t, req, initial, d);
    } else {
      CreatedKeepsInv(s, t, req, initial);
      FreshIdIsReal(s.hdrs[i].serial, i);
      forall run: seq<Action> | InContract(s1, run) && NeverDeletes(run, s1.hdrs[i].id)
        ensures Intact(Exec(s1, run), i, s1.hdrs[i])
      {
        IdPersists(s1, run, i);
      }
    }
  }

  /**
   * If there was one, finishing it destroys the new native semaphore, or wipes the new name and
   * reference count, or, after a failed sem_destroy, puts the old id over the new one.
   */
  lemma DeleteSpoilsNewSemaphore(s: State, t: Tid, req: Request, initial: nat, d: Tid)
    requires Inv(s) && Enabled(s, CreateBegin(t, req, initial))
    requires CreateStatus(s.hdrs, req, InitialStateOk(initial)) == Success
    requires d in s.pc && Changes(s.pc[d], FirstFree(s.hdrs))
    ensures var i, s1 := FirstFree(s.hdrs), CreatedAtOnce(s, t, req, initial);
            && InContract(s1, FinishDelete(d)) && NeverDeletes(FinishDelete(d), s1.hdrs[i].id)
            && !Intact(Exec(s1, FinishDelete(d)), i, s1.hdrs[i])
  {
    var i, s1 := FirstFree(s.hdrs), CreatedAtOnce(s, t, req, initial);
    DeleterOfFree(s, d, i);
    FinishedAtOnce(s1, d);
    FinishIsARun(s1, d);
    FreshIdIsReal(s.hdrs[i].serial, i);
  }

  /** Who is changing a free slot while the lock is free is in the window of a Delete of it. */
  lemma DeleterOfFree(s: State, d: Tid, i: nat)
    requires Inv(s) && s.lock == None && d in s.pc && Changes(s.pc[d], i) && i < |s.hdrs|
    ensures Deleting(s.pc[d])
    ensures s.pc[d].Restoring? ==> s.pc[d].id == IdPack(TYPE_BINSEM, s.hdrs[i].serial, i)
  {
    assert ThreadOk(s, d);
  }

  lemma FinishIsARun(s: State, d: Tid)
    requires Shaped(s)
    ensures InContract(s, FinishDelete(d))
    ensures Exec(s, FinishDelete(d)) == Step(Step(Step(s, NativeDestroy(d, Destroyed)), DeleteEnd(d)), Republish(d))
  {
    var run := FinishDelete(d);
    var s1 := Step(s, run[0]);
    var s2 := Step(s1, run[1]);
    assert run[1..] == [run[1], run[2]] && run[1..][1..] == [run[2]] && run[1..][1..][1..] == [];
    assert [run[2]][1..] == [];
    assert InContract(s2, [run[2]]) && Exec(s2, [run[2]]) == Step(s2, run[2]);
    assert InContract(s1, run[1..]) && Exec(s1, run[1..]) == Exec(s2, [run[2]]);
  }

  /** What finishing a Delete does to its slot. */
  lemma FinishedAtOnce(s: State, d: Tid)
    requires Shaped(s) && Inside(s, d) && s.lock == None && s.hdrs[s.pc[d].i].name != ""
    requires s.pc[d].Destroying? || s.pc[d].Cleaning? || s.pc[d].Restoring?
    ensures var r := Step(Step(Step(s, NativeDestroy(d, Destroyed)), DeleteEnd(d)), Republish(d));
            if s.pc[d].Restoring? then r.hdrs[s.pc[d].i].id == s.pc[d].id else r.hdrs[s.pc[d].i].name == ""
  {
    var s1 := Step(s, NativeDestroy(d, Destroyed));
    assert s1 == if s.pc[d].Destroying? then NativeDestroyStep(s, d, Destroyed) else s;
    var s2 := Step(s1, DeleteEnd(d));
    assert s2 == DeleteEndStep(s1, d);
    if s.pc[d].Restoring? {
      assert Step(s2, Republish(d)) == RepublishStep(s2, d);
    } else {
      assert Step(s2, Republish(d)) == s2;
    }
  }

  lemma FreshIdIsReal(serial: u8, i: u16)
    ensures IdPack(TYPE_BINSEM, NextSerial(serial), i) != IdPack(TYPE_BINSEM, serial, i)
    ensures IdPack(TYPE_BINSEM, NextSerial(serial), i) != ID_NONE
  {
    PackIsInjective(TYPE_BINSEM, NextSerial(serial), i, TYPE_BINSEM, serial, i);
  }

  // ---------- No Post is past its id check when Delete clears the id ----------

  /** Some Post is about to sem_post a destroyed semaphore, or one of another generation. */
  ghost predicate Misplaced(s: State)
    requires Shaped(s)
  {
    exists u :: u in s.pc && s.pc[u].Won? && s.pc[u].i < |s.hdrs|
      && !(s.cells[s.pc[u].i].native.Sem? && s.hdrs[s.pc[u].i].gen == s.pc[u].gen)
  }

  ghost predicate CanMisplace(s: State)
    requires Shaped(s)
  {
    exists run: seq<Action> :: InContract(s, run) && Misplaced(Exec(s, run))
  }

  lemma MisplacedNow(s: State)
    requires Shaped(s) && Misplaced(s)
    ensures CanMisplace(s)
  {
    assert InContract(s, []) && Exec(s, []) == s;
  }

  lemma Before(s: State, a: Action)
    requires Shaped(s) && Allowed(s, a) && CanMisplace(Step(s, a))
    ensures CanMisplace(s)
  {
    var run :| InContract(Step(s, a), run) && Misplaced(Exec(Step(s, a), run));
    var longer := [a] + run;
    assert longer[0] == a && longer[1..] == run;
    assert InContract(s, longer);
  }

  lemma {:induction false} BeforeRun(s: State, run: seq<Action>)
    requires Shaped(s) && InContract(s, run) && CanMisplace(Exec(s, run))
    ensures CanMisplace(s)
    decreases |run|
  {
    if run != [] {
      BeforeRun(Step(s, run[0]), run[1..]);
      Before(s, run[0]);
    }
  }

  /**
   * The rule about Post is exact. For a Delete that has just cleared the id of slot i there is a
   * continuation, in contract from there on, in which some Post goes on to sem_post a destroyed
   * semaphore or a later generation, if and only if a Post was past its id check in the slot.
   */
  lemma PostRuleIsExact(s: State, d: Tid, id: u32)
    requires Inv(s) && Enabled(s, DeleteBegin(d, id)) && Lookup(s.hdrs, TYPE_BINSEM, id).Some?
    requires s.cells[Lookup(s.hdrs, TYPE_BINSEM, id).value].refCount == 0
    ensures CanMisplace(DeleteBeginStep(s, d, id)) <==> Posting(s.pc, Lookup(s.hdrs, TYPE_BINSEM, id).value)
  {
    var i := Lookup(s.hdrs, TYPE_BINSEM, id).value;
    if Posting(s.pc, i) {
      var u :| u in s.pc && Posts(s.pc[u], i);
      PostInFlightIsMisplaced(s, d, id, u);
    } else if CanMisplace(DeleteBeginStep(s, d, id)) {
      var s1 := DeleteBeginStep(s, d, id);
      DeleteBeginKeepsInv(s, d, id);
      var run :| InContract(s1, run) && Misplaced(Exec(s1, run));
      RunKeepsInv(s1, run);
      NeverMisplaced(Exec(s1, run));
    }
  }

  lemma NeverMisplaced(s: State)
    requires Inv(s)
    ensures !Misplaced(s)
  {
    forall u | u in s.pc && s.pc[u].Won? && s.pc[u].i < |s.hdrs|
      ensures s.cells[s.pc[u].i].native.Sem? && s.hdrs[s.pc[u].i].gen == s.pc[u].gen
    {
      assert ThreadOk(s, u);
      assert SlotOk(s.hdrs[s.pc[u].i], s.cells[s.pc[u].i], s.pc, s.pc[u].i);
    }
  }

  /** In every case: the Post has swapped, or can swap at once, or will when the slot is re-created. */
  lemma PostInFlightIsMisplaced(s: State, d: Tid, id: u32, u: Tid)
    requires Inv(s) && Enabled(s, DeleteBegin(d, id)) && Lookup(s.hdrs, TYPE_BINSEM, id).Some?
    requires s.cells[Lookup(s.hdrs, TYPE_BINSEM, id).value].refCount == 0
    requires u in s.pc && Posts(s.pc[u], Lookup(s.hdrs, TYPE_BINSEM, id).value)
    ensures CanMisplace(DeleteBeginStep(s, d, id))
  {
    var s1 := DeleteBeginStep(s, d, id);
    DestroyedAtOnce(s, d, id);
    FromDestroyed(s, d, id, u);
    Before(Step(s1, DeleteStore(d)), NativeDestroy(d, Destroyed));
    Before(s1, DeleteStore(d));
  }

  lemma FromDestroyed(s: State, d: Tid, id: u32, u: Tid)
    requires Inv(s) && Enabled(s, DeleteBegin(d, id)) && Lookup(s.hdrs, TYPE_BINSEM, id).Some?
    requires u in s.pc && Posts(s.pc[u], Lookup(s.hdrs, TYPE_BINSEM, id).value)
    ensures CanMisplace(Destroyed3(s, d, Lookup(s.hdrs, TYPE_BINSEM, id).value))
  {
    var i := Lookup(s.hdrs, TYPE_BINSEM, id).value;
    var s3 := Destroyed3(s, d, i);
    assert ThreadOk(s, u);
    if s.pc[u].Won? {
      MisplacedNow(s3);
    } else if s.cells[i].flag == 0 {
      SwapIsMisplaced(s3, u);
    } else {
      StaleAfterDelete(s, d, id, u);
      StaleIsMisplaced(s3, d, i, u);
    }
  }

  lemma StaleIsMisplaced(s: State, d: Tid, i: nat, u: Tid)
    requires Shaped(s) && Inside(s, d) && s.pc[d].Cleaning? && s.lock == None && Stale(DeleteEndStep(s, d), d, i, u)
    ensures CanMisplace(s)
  {
    FinishDeletes(DeleteEndStep(s, d), d, i, u);
    assert Step(s, DeleteEnd(d)) == DeleteEndStep(s, d);
    Before(s, DeleteEnd(d));
  }

  lemma SwapIsMisplaced(s: State, u: Tid)
    requires Shaped(s) && Inside(s, u) && s.pc[u].Checked? && s.cells[s.pc[u].i].flag == 0
    requires s.cells[s.pc[u].i].native == NoSem || s.hdrs[s.pc[u].i].gen != s.pc[u].gen
    ensures CanMisplace(s)
  {
    var r := PostSwapStep(s, u);
    assert Step(s, PostSwap(u)) == r;
    assert r.pc[u].Won? && r.hdrs == s.hdrs;
    MisplacedNow(r);
    Before(s, PostSwap(u));
  }

  /** The state when d's Delete of slot i has run to sem_destroy at once. */
  function Destroyed3(s: State, d: Tid, i: nat): State
    requires i < |s.hdrs| == |s.cells|
  {
    State(s.hdrs[i := s.hdrs[i].(id := ID_NONE, inUse := false)], s.cells[i := s.cells[i].(native := NoSem)],
          s.pc[d := Cleaning(i)], None)
  }

  lemma DestroyedAtOnce(s: State, d: Tid, id: u32)
    requires Shaped(s) && Enabled(s, DeleteBegin(d, id)) && Lookup(s.hdrs, TYPE_BINSEM, id).Some?
    requires s.cells[Lookup(s.hdrs, TYPE_BINSEM, id).value].refCount == 0
    ensures Step(Step(DeleteBeginStep(s, d, id), DeleteStore(d)), NativeDestroy(d, Destroyed))
            == Destroyed3(s, d, Lookup(s.hdrs, TYPE_BINSEM, id).value)
  {
    var s1 := DeleteBeginStep(s, d, id);
    var s2 := DeleteStoreStep(s1, d);
    assert Step(s1, DeleteStore(d)) == s2;
    assert Step(s2, NativeDestroy(d, Destroyed)) == NativeDestroyStep(s2, d, Destroyed);
  }

  // ---------- A stale Post on a full semaphore waits for the slot to be created again ----------

  predicate Deleting(p: Pc) { p.Destroying? || p.Cleaning? || p.Restoring? }

  /** Slot i is free, u's Post is still past the check it made there, d can call, the lock is free. */
  ghost predicate Stale(s: State, d: Tid, i: nat, u: Tid)
  {
    && Shaped(s) && s.lock == None && IdleAt(s, d) && i < |s.hdrs| && !s.hdrs[i].inUse
    && u in s.pc && s.pc[u].Checked? && s.pc[u].i == i && s.pc[u].gen <= s.hdrs[i].gen
    && forall w :: w in s.pc ==> !HoldsLock(s.pc[w]) && (Deleting(s.pc[w]) ==> s.pc[w].i < |s.hdrs| && s.pc[w].i != i)
  }

  lemma StaleAfterDelete(s: State, d: Tid, id: u32, u: Tid)
    requires Inv(s) && Enabled(s, DeleteBegin(d, id)) && Lookup(s.hdrs, TYPE_BINSEM, id).Some?
    requires u in s.pc && s.pc[u].Checked? && s.pc[u].i == Lookup(s.hdrs, TYPE_BINSEM, id).value
    ensures var i := s.pc[u].i; Stale(DeleteEndStep(Destroyed3(s, d, i), d), d, i, u)
  {
    assert ThreadOk(s, u);
    var r := DeleteEndStep(Destroyed3(s, d, s.pc[u].i), d);
    forall w | w in r.pc
      ensures !HoldsLock(r.pc[w]) && (Deleting(r.pc[w]) ==> r.pc[w].i < |r.hdrs| && r.pc[w].i != s.pc[u].i)
    {
      if w != d { assert r.pc[w] == s.pc[w] && ThreadOk(s, w); }
    }
  }

  function Deleters(pc: map<Tid, Pc>): set<Tid> { set w | w in pc && Deleting(pc[w]) }

  /** First every other Delete in flight is brought to its end. */
  lemma {:induction false} FinishDeletes(s: State, d: Tid, i: nat, u: Tid)
    requires Stale(s, d, i, u)
    ensures CanMisplace(s)
    decreases |Deleters(s.pc)|
  {
    if Deleters(s.pc) == {} {
      FillBelow(s, d, i, u);
    } else {
      var w :| w in Deleters(s.pc);
      FinishOne(s, d, i, u, w);
      FinishIsARun(s, w);
      FinishDeletes(Exec(s, FinishDelete(w)), d, i, u);
      BeforeRun(s, FinishDelete(w));
    }
  }

  lemma FinishOne(s: State, d: Tid, i: nat, u: Tid, w: Tid)
    requires Stale(s, d, i, u) && w in s.pc && Deleting(s.pc[w])
    ensures var r := Step(Step(Step(s, NativeDestroy(w, Destroyed)), DeleteEnd(w)), Republish(w));
            Stale(r, d, i, u) && |Deleters(r.pc)| < |Deleters(s.pc)|
  {
    FinishEffect(s, w);
    var r := Step(Step(Step(s, NativeDestroy(w, Destroyed)), DeleteEnd(w)), Republish(w));
    OneDeleterLess(s.pc, r.pc, w);
  }

  lemma FinishEffect(s: State, w: Tid)
    requires Shaped(s) && s.lock == None && Inside(s, w) && Deleting(s.pc[w])
    ensures var r := Step(Step(Step(s, NativeDestroy(w, Destroyed)), DeleteEnd(w)), Republish(w));
            && w in r.pc && r.pc[w].Idle? && r.pc == s.pc[w := r.pc[w]] && r.lock == None
            && |r.hdrs| == |s.hdrs| && r.hdrs == s.hdrs[s.pc[w].i := r.hdrs[s.pc[w].i]]
  {
    var s1 := Step(s, NativeDestroy(w, Destroyed));
    assert s1 == if s.pc[w].Destroying? then NativeDestroyStep(s, w, Destroyed) else s;
    var s2 := Step(s1, DeleteEnd(w));
    assert s2 == DeleteEndStep(s1, w);
    var r := Step(s2, Republish(w));
    assert r == if s.pc[w].Restoring? then RepublishStep(s2, w) else s2;
    assert r.pc == s.pc[w := r.pc[w]];
  }

  lemma OneDeleterLess(pc: map<Tid, Pc>, pc': map<Tid, Pc>, w: Tid)
    requires w in pc && Deleting(pc[w]) && w in pc' && pc'[w].Idle? && pc' == pc[w := pc'[w]]
    ensures |Deleters(pc')| < |Deleters(pc)|
  {
    assert w in Deleters(pc);
    assert Deleters(pc') == Deleters(pc) - {w};
  }

  /** Then the free slots below i are created, under fresh names, and at last slot i itself, empty. */
  lemma {:induction false} FillBelow(s: State, d: Tid, i: nat, u: Tid)
    requires Stale(s, d, i, u) && Deleters(s.pc) == {}
    ensures CanMisplace(s)
    decreases i - FirstFree(s.hdrs)
  {
    var k, req := FirstFree(s.hdrs), FreshRequest(s.hdrs);
    assert k <= i;
    NothingChanges(s, k);
    var a := CreateBegin(d, req, 0);
    var s0, made := CreateBeginStep(s, d, req, 0), CreatedAtOnce(s, d, req, 0);
    StoresCreate(s, d, req, 0);
    StoresAreAllowed(s0, d, 7);
    if k < i {
      CreatedStaysStale(s, d, i, u, req);
      FillBelow(made, d, i, u);
    } else {
      NextPostIsMisplaced(s, d, i, u, req);
    }
    BeforeRun(s0, Stores(d, 7));
    assert Step(s, a) == s0;
    Before(s, a);
  }

  lemma NothingChanges(s: State, k: nat)
    requires Deleters(s.pc) == {} && forall w :: w in s.pc ==> !HoldsLock(s.pc[w])
    ensures !Changing(s.pc, k)
  {
    assert forall w :: w in s.pc && Deleting(s.pc[w]) ==> w in Deleters(s.pc);
  }

  lemma CreatedStaysStale(s: State, d: Tid, i: nat, u: Tid, req: Request)
    requires Stale(s, d, i, u) && Deleters(s.pc) == {} && FirstFree(s.hdrs) < i
    requires CreateStatus(s.hdrs, req, true) == Success
    ensures var made := CreatedAtOnce(s, d, req, 0);
            Stale(made, d, i, u) && Deleters(made.pc) == {} && FirstFree(s.hdrs) < FirstFree(made.hdrs) <= i
  {
    var k, made := FirstFree(s.hdrs), CreatedAtOnce(s, d, req, 0);
    assert forall j :: 0 <= j <= k ==> made.hdrs[j].inUse;
    forall w | w in made.pc ensures !Deleting(made.pc[w]) && !HoldsLock(made.pc[w]) {
      if w != d { assert w !in Deleters(s.pc); }
    }
  }

  lemma NextPostIsMisplaced(s: State, d: Tid, i: nat, u: Tid, req: Request)
    requires Stale(s, d, i, u) && FirstFree(s.hdrs) == i && CreateStatus(s.hdrs, req, true) == Success
    ensures CanMisplace(CreatedAtOnce(s, d, req, 0))
  {
    SwapIsMisplaced(CreatedAtOnce(s, d, req, 0), u);
  }

  /** A request that Create accepts while there is a free slot. */
  ghost function FreshRequest(hs: seq<Header>): (req: Request)
    requires |hs| <= MAX_POOL
    ensures FirstFree(hs) < |hs| ==> CreateStatus(hs, req, true) == Success
  {
    Request(false, Some(FreeName(hs)), 0, ID_NONE, true)
  }
}
