/** The semaphore pool as a dictionary, store by store, over whole runs. */
module SemDictionary {
  import opened Common
  import opened Ids
  import opened Table
  import opened SemModel
  import opened SemProperties

  /** The pool as AOS_SemPost sees it: a slot counts when its id is published. */
  ghost function Seen(hs: seq<Header>): (r: seq<Header>)
    ensures |r| == |hs|
    ensures forall i :: 0 <= i < |hs| ==> r[i] == hs[i].(inUse := hs[i].id != ID_NONE)
  {
    seq(|hs|, i requires 0 <= i < |hs| => hs[i].(inUse := hs[i].id != ID_NONE))
  }

  lemma SeenIsDistinct(s: State)
    requires Inv(s)
    ensures IdsDistinct(Seen(s.hdrs))
  {
    var v := Seen(s.hdrs);
    forall i, j | 0 <= i < j < |v| && v[i].inUse && v[j].inUse ensures v[i].id != v[j].id {
      assert SlotOk(s.hdrs[i], s.cells[i], s.pc, i) && SlotOk(s.hdrs[j], s.cells[j], s.pc, j);
      PackIsInjective(TYPE_BINSEM, s.hdrs[i].serial, i, TYPE_BINSEM, s.hdrs[j].serial, j);
    }
  }

  /** While the table lock is free, that is the pool as it is. */
  lemma SeenWhenUnlocked(s: State)
    requires Inv(s) && s.lock == None
    ensures Seen(s.hdrs) == s.hdrs
    ensures Sound(s.hdrs, TYPE_BINSEM)
  {
    forall i | 0 <= i < |s.hdrs| ensures Seen(s.hdrs)[i] == s.hdrs[i] && HeaderSound(s.hdrs[i], TYPE_BINSEM, i) {
      UnlockedSlotIsSettled(s, i);
    }
  }

  /** Post's validation is membership, at every moment. */
  lemma PostAcceptsIsMembership(s: State, id: u32)
    requires Inv(s)
    ensures PostAccepts(s.hdrs, id).Some? <==> id in Dict(Seen(s.hdrs))
  {
    var v := Seen(s.hdrs);
    SeenIsDistinct(s);
    DictContents(v, |v|);
    match PostAccepts(s.hdrs, id)
    case Some(i) =>
      NoneHasNoType(id);
      assert v[i].inUse;
    case None =>
      if Holds(v, |v|, id) {
        var i :| 0 <= i < |v| && v[i].inUse && v[i].id == id;
        assert SlotOk(s.hdrs[i], s.cells[i], s.pc, i);
        UnpackOfPack(TYPE_BINSEM, s.hdrs[i].serial, i);
      }
  }

  lemma NoneHasNoType(id: u32)
    requires IdType(id) == TYPE_BINSEM
    ensures id != ID_NONE
  {
  }

  /** What an action does to the dictionary and answers from it. */
  ghost predicate ActsOnDict(s: State, a: Action)
    requires Shaped(s) && Enabled(s, a) && a.t in Apply(s, a).pc
  {
    var n, d, d', p' := |s.hdrs|, Dict(Seen(s.hdrs)), Dict(Seen(Apply(s, a).hdrs)), Apply(s, a).pc[a.t];
    match a
    case CreateBegin(t, req, initial) =>
      // refused as the dictionary says; on success the entry appears with the last store, not yet
      var status := DictCreateStatus(d, n, req, InitialStateOk(initial));
      d' == d && (if status == Success then p'.Creating? && p'.made == Made(req.name.value, req.creator, initial) else p' == Idle(status))
    case CreateStore(t) =>
      var made := s.pc[t].made;
      if p' == Idle(Success)
      then exists id: u32 :: id !in d && id != ID_NONE && d' == d[id := Entry(made.name, made.creator)]
      else d' == d
    case Acquire(t, id, kind) => d' == d && (p' == Idle(InvalidId) <==> id !in d)
    case PostCheck(t, id) => d' == d && (p' == Idle(InvalidId) <==> id !in d)
    case DeleteBegin(t, id) => (p' == Idle(InvalidId) <==> id !in d) && d' == if p'.Retiring? then d - {id} else d
    case Republish(t) => s.pc[t].id !in d && s.pc[t].id in d' && d' - {s.pc[t].id} == d
    case _ => d' == d
  }

  /** In every reachable state, every action acts on the published pool as on a dictionary. */
  lemma PoolIsADictionary(n: nat, threads: set<Tid>, run: seq<Action>, a: Action)
    requires Start(n, threads) && InContract(Init(n, threads), run)
    requires var s := Exec(Init(n, threads), run); Allowed(s, a) && Enabled(s, a)
    ensures a.t in Apply(Exec(Init(n, threads), run), a).pc
    ensures ActsOnDict(Exec(Init(n, threads), run), a)
  {
    Reached(n, threads, run);
    StepActsOnDict(Exec(Init(n, threads), run), a);
  }

  lemma StepActsOnDict(s: State, a: Action)
    requires Inv(s) && Enabled(s, a)
    ensures a.t in Apply(s, a).pc
    ensures ActsOnDict(s, a)
  {
    MoverStays(s, a);
    match a
    case CreateBegin(t, req, initial) => BeginAsksDict(s, t, req, initial);
    case CreateStore(t) => StoresInsertOnce(s, t);
    case Acquire(t, id, kind) => AcquireLooksUp(s, t, id, kind);
    case PostCheck(t, id) => PostLooksUp(s, t, id);
    case DeleteBegin(t, id) => DeleteIsRemove(s, t, id);
    case DeleteStore(t) => InUseIsInvisible(s, t);
    case DeleteEnd(t) => CleanUpIsInvisible(s, t);
    case Republish(t) => RollBackReinserts(s, t);
    case _ => OthersActOnDict(s, a);
  }

  lemma MoverStays(s: State, a: Action)
    requires Shaped(s) && Enabled(s, a)
    ensures a.t in Apply(s, a).pc
  {
  }

  lemma OthersActOnDict(s: State, a: Action)
    requires Shaped(s) && Enabled(s, a)
    requires a.NativeWait? || a.ClearState? || a.Release? || a.Cancel? || a.PostSwap? || a.NativePost? || a.PostUndo? || a.NativeDestroy?
    ensures a.t in Apply(s, a).pc && ActsOnDict(s, a)
  {
    OthersKeepHeaders(s, a);
  }

  lemma OthersKeepHeaders(s: State, a: Action)
    requires Shaped(s) && Enabled(s, a)
    requires !(a.CreateBegin? || a.CreateStore? || a.DeleteBegin? || a.DeleteStore? || a.DeleteEnd? || a.Republish?)
    ensures a.t in Apply(s, a).pc && Apply(s, a).hdrs == s.hdrs && Apply(s, a).lock == s.lock
  {
  }

  lemma AcquireLooksUp(s: State, t: Tid, id: u32, kind: WaitKind)
    requires Inv(s) && Enabled(s, Acquire(t, id, kind))
    ensures ActsOnDict(s, Acquire(t, id, kind))
  {
    SeenWhenUnlocked(s);
    LookupIsMembership(s.hdrs, TYPE_BINSEM, id);
  }

  lemma PostLooksUp(s: State, t: Tid, id: u32)
    requires Inv(s) && Enabled(s, PostCheck(t, id))
    ensures ActsOnDict(s, PostCheck(t, id))
  {
    PostAcceptsIsMembership(s, id);
  }

  lemma InUseIsInvisible(s: State, t: Tid)
    requires Inv(s) && Enabled(s, DeleteStore(t))
    ensures ActsOnDict(s, DeleteStore(t))
  {
    assert Seen(DeleteStoreStep(s, t).hdrs) == Seen(s.hdrs);
  }

  lemma BeginAsksDict(s: State, t: Tid, req: Request, initial: nat)
    requires Inv(s) && Enabled(s, CreateBegin(t, req, initial))
    ensures ActsOnDict(s, CreateBegin(t, req, initial))
  {
    SeenWhenUnlocked(s);
    SeenIsDistinct(s);
    CreateStatusFromDict(s.hdrs, req, InitialStateOk(initial));
  }

  lemma StoresInsertOnce(s: State, t: Tid)
    requires Inv(s) && Enabled(s, CreateStore(t))
    ensures ActsOnDict(s, CreateStore(t))
  {
    var s', i := CreateStoreStep(s, t), s.pc[t].i;
    assert ThreadOk(s, t) && SlotOk(s.hdrs[i], s.cells[i], s.pc, i);
    var v, v' := Seen(s.hdrs), Seen(s'.hdrs);
    assert v' == v[i := v'[i]];
    if s.pc[t].stage < 6 {
      UnusedIsInvisible(v, i, v'[i], |v|);
    } else {
      CreateStoreKeepsInv(s, t);
      SeenIsDistinct(s);
      SeenIsDistinct(s');
      PackIsInjective(TYPE_BINSEM, s.hdrs[i].serial, i, TYPE_BINSEM, 0, 0);
      FillInserts(v, i, v'[i]);
      assert v'[i].id != ID_NONE;
    }
  }

  lemma DeleteIsRemove(s: State, t: Tid, id: u32)
    requires Inv(s) && Enabled(s, DeleteBegin(t, id))
    ensures ActsOnDict(s, DeleteBegin(t, id))
  {
    SeenWhenUnlocked(s);
    SeenIsDistinct(s);
    LookupIsMembership(s.hdrs, TYPE_BINSEM, id);
    var s' := DeleteBeginStep(s, t, id);
    if s'.pc[t].Retiring? {
      var i := Lookup(s.hdrs, TYPE_BINSEM, id).value;
      assert Seen(s'.hdrs) == Seen(s.hdrs)[i := Seen(s'.hdrs)[i]];
      RetireRemoves(Seen(s.hdrs), i, Seen(s'.hdrs)[i]);
    }
  }

  lemma CleanUpIsInvisible(s: State, t: Tid)
    requires Inv(s) && Enabled(s, DeleteEnd(t))
    ensures ActsOnDict(s, DeleteEnd(t))
  {
    var s', i := DeleteEndStep(s, t), s.pc[t].i;
    assert ThreadOk(s, t);
    var v, v' := Seen(s.hdrs), Seen(s'.hdrs);
    assert v' == v[i := v'[i]];
    UnusedIsInvisible(v, i, v'[i], |v|);
  }

  lemma RollBackReinserts(s: State, t: Tid)
    requires Inv(s) && Enabled(s, Republish(t))
    ensures ActsOnDict(s, Republish(t))
  {
    var s', i := RepublishStep(s, t), s.pc[t].i;
    assert ThreadOk(s, t);
    var v, v' := Seen(s.hdrs), Seen(s'.hdrs);
    assert v' == v[i := v'[i]];
    RepublishKeepsInv(s, t);
    SeenIsDistinct(s);
    SeenIsDistinct(s');
    PackIsInjective(TYPE_BINSEM, s.hdrs[i].serial, i, TYPE_BINSEM, 0, 0);
    FillInserts(v, i, v'[i]);
  }

  // ---------- Names ----------

  /** The slot that a Create is filling while it holds the table lock. */
  ghost function BeingFilled(s: State): Option<nat>
  {
    if s.lock.Some? && s.lock.value in s.pc && s.pc[s.lock.value].Creating? then Some(s.pc[s.lock.value].i) else None
  }

  ghost predicate Named(s: State, i: nat) { i < |s.hdrs| && s.hdrs[i].inUse && BeingFilled(s) != Some(i) }

  ghost predicate NamesOk(s: State)
  {
    && (forall i, j :: 0 <= i < j < |s.hdrs| && Named(s, i) && Named(s, j) ==> s.hdrs[i].name != s.hdrs[j].name)
    && (BeingFilled(s).Some? ==>
          forall j :: 0 <= j < |s.hdrs| && s.hdrs[j].inUse && j != BeingFilled(s).value ==>
            s.hdrs[j].name != s.pc[s.lock.value].made.name)
  }

  /** If the action is the roll-back of a Delete, no semaphore in use has taken the name since. */
  ghost predicate RollBackIsFree(s: State, a: Action)
    requires Shaped(s)
  {
    Enabled(s, a) && a.DeleteEnd? && s.pc[a.t].Restoring? ==> !NameTaken(s.hdrs, s.hdrs[s.pc[a.t].i].name)
  }

  lemma StepKeepsNames(s: State, a: Action)
    requires Inv(s) && Enabled(s, a) && NamesOk(s) && RollBackIsFree(s, a)
    ensures NamesOk(Step(s, a))
  {
    if a.CreateBegin? {
      BeginKeepsNames(s, a.t, a.req, a.initial);
    } else if a.CreateStore? {
      StoreKeepsNames(s, a.t);
    } else if a.DeleteBegin? || a.DeleteStore? || a.Republish? {
      DeleteKeepsNames(s, a);
    } else if a.DeleteEnd? {
      DeleteEndKeepsNames(s, a.t);
    } else {
      OthersKeepNames(s, a);
    }
  }

  lemma BeginKeepsNames(s: State, t: Tid, req: Request, initial: nat)
    requires Inv(s) && NamesOk(s) && Enabled(s, CreateBegin(t, req, initial))
    ensures NamesOk(CreateBeginStep(s, t, req, initial))
  {
  }

  lemma StoreKeepsNames(s: State, t: Tid)
    requires Inv(s) && NamesOk(s) && Enabled(s, CreateStore(t))
    ensures NamesOk(CreateStoreStep(s, t))
  {
    assert ThreadOk(s, t);
  }

  lemma DeleteKeepsNames(s: State, a: Action)
    requires Inv(s) && NamesOk(s) && Enabled(s, a) && (a.DeleteBegin? || a.DeleteStore? || a.Republish?)
    ensures NamesOk(Step(s, a))
  {
    assert ThreadOk(s, a.t);
  }

  lemma DeleteEndKeepsNames(s: State, t: Tid)
    requires Inv(s) && NamesOk(s) && Enabled(s, DeleteEnd(t)) && RollBackIsFree(s, DeleteEnd(t))
    ensures NamesOk(Step(s, DeleteEnd(t)))
  {
    assert ThreadOk(s, t);
    assert Step(s, DeleteEnd(t)) == DeleteEndStep(s, t);
  }

  lemma OthersKeepNames(s: State, a: Action)
    requires Inv(s) && NamesOk(s) && Enabled(s, a)
    requires !(a.CreateBegin? || a.CreateStore? || a.DeleteBegin? || a.DeleteStore? || a.DeleteEnd? || a.Republish?)
    ensures NamesOk(Step(s, a))
  {
    assert ThreadOk(s, a.t);
    OthersKeepHeaders(s, a);
    assert BeingFilled(Step(s, a)) == BeingFilled(s);
  }

  ghost predicate RollBacksFree(s: State, run: seq<Action>)
    requires Shaped(s)
    decreases |run|
  {
    run == [] || (RollBackIsFree(s, run[0]) && RollBacksFree(Step(s, run[0]), run[1..]))
  }

  ghost predicate NamesThroughout(s: State, run: seq<Action>)
    requires Shaped(s)
    decreases |run|
  {
    NamesOk(s) && (run == [] || NamesThroughout(Step(s, run[0]), run[1..]))
  }

  /**
   * Over any run in contract the names in use are pairwise distinct at every moment (and the name a
   * Create is filling in is nobody else's) if and only if every roll-back finds its name free.
   */
  lemma NamesStayDistinctIff(n: nat, threads: set<Tid>, run: seq<Action>)
    requires Start(n, threads) && InContract(Init(n, threads), run)
    ensures NamesThroughout(Init(n, threads), run) <==> RollBacksFree(Init(n, threads), run)
  {
    InitHasInv(n, threads);
    NamesFrom(Init(n, threads), run);
  }

  lemma {:induction false} NamesFrom(s: State, run: seq<Action>)
    requires Inv(s) && InContract(s, run) && NamesOk(s)
    ensures NamesThroughout(s, run) <==> RollBacksFree(s, run)
    ensures RollBacksFree(s, run) ==> NamesOk(Exec(s, run))
    decreases |run|
  {
    if run != [] {
      var s1 := Step(s, run[0]);
      if RollBackIsFree(s, run[0]) {
        if Enabled(s, run[0]) { StepKeepsNames(s, run[0]); }
        StepKeepsInv(s, run[0]);
        NamesFrom(s1, run[1..]);
      } else {
        HarmfulRollBack(s, run[0].t);
        assert !NamesThroughout(s1, run[1..]);
      }
    }
  }

  lemma HarmfulRollBack(s: State, t: Tid)
    requires Inv(s) && NamesOk(s) && !RollBackIsFree(s, DeleteEnd(t))
    ensures !NamesOk(Step(s, DeleteEnd(t)))
  {
    var s1 := DeleteEndStep(s, t);
    assert Step(s, DeleteEnd(t)) == s1;
    UnlockedNames(s);
    RollBackKeepsNamesIff(s, t);
    assert BeingFilled(s1) == None;
    var i, j :| 0 <= i < j < |s1.hdrs| && s1.hdrs[i].inUse && s1.hdrs[j].inUse && s1.hdrs[i].name == s1.hdrs[j].name;
    assert Named(s1, i) && Named(s1, j);
  }

  lemma UnlockedNames(s: State)
    requires NamesOk(s) && s.lock == None
    ensures NamesDistinct(s.hdrs)
  {
    forall i, j | 0 <= i < j < |s.hdrs| && s.hdrs[i].inUse && s.hdrs[j].inUse ensures s.hdrs[i].name != s.hdrs[j].name {
      assert Named(s, i) && Named(s, j);
    }
  }

  /** Then they are distinct whenever the table lock is free. */
  lemma NamesStayDistinct(n: nat, threads: set<Tid>, run: seq<Action>)
    requires Start(n, threads) && InContract(Init(n, threads), run) && RollBacksFree(Init(n, threads), run)
    requires Exec(Init(n, threads), run).lock == None
    ensures NamesDistinct(Exec(Init(n, threads), run).hdrs)
  {
    InitHasInv(n, threads);
    NamesFrom(Init(n, threads), run);
    UnlockedNames(Exec(Init(n, threads), run));
  }

  /**
   * A roll-back does not check names: the slot comes back beside another with the same name exactly
   * when some Create has taken the name since.
   */
  lemma RollBackKeepsNamesIff(s: State, t: Tid)
    requires Inv(s) && Enabled(s, DeleteEnd(t)) && s.pc[t].Restoring? && NamesDistinct(s.hdrs)
    ensures NamesDistinct(DeleteEndStep(s, t).hdrs) <==> !NameTaken(s.hdrs, s.hdrs[s.pc[t].i].name)
  {
    var i, hs' := s.pc[t].i, DeleteEndStep(s, t).hdrs;
    assert ThreadOk(s, t);
    assert hs'[i].inUse && hs'[i].name == s.hdrs[i].name;
    if NameTaken(s.hdrs, s.hdrs[i].name) {
      var j :| 0 <= j < |s.hdrs| && s.hdrs[j].inUse && s.hdrs[j].name == s.hdrs[i].name;
      assert hs'[j] == s.hdrs[j];
    }
  }

  /** Legal names: what is published, or may be published again, has one of 1 to 19 bytes. */
  ghost predicate NamesLegal(s: State)
    requires Shaped(s)
  {
    && (forall i :: 0 <= i < |s.hdrs| && s.hdrs[i].id != ID_NONE ==> 1 <= |s.hdrs[i].name| <= 19)
    && (forall t :: t in s.pc && s.pc[t].Creating? ==> 1 <= |s.pc[t].made.name| <= 19)
    && (forall t :: t in s.pc && Returnable(s.pc[t]) && s.pc[t].i < |s.hdrs| ==> 1 <= |s.hdrs[s.pc[t].i].name| <= 19)
  }

  /** A Delete at this point may still be rolled back. */
  predicate Returnable(p: Pc) { p.Retiring? || p.Destroying? || p.Restoring? || p.Republishing? }

  lemma StepKeepsNamesLegal(s: State, a: Action)
    requires Inv(s) && NamesLegal(s)
    ensures NamesLegal(Step(s, a))
  {
    if Enabled(s, a) {
      if a.CreateBegin? {
        CreateBeginKeepsNamesLegal(s, a.t, a.req, a.initial);
      } else if a.CreateStore? {
        CreateStoreKeepsNamesLegal(s, a.t);
      } else if a.DeleteEnd? {
        DeleteEndKeepsNamesLegal(s, a.t);
      } else if a.DeleteBegin? || a.DeleteStore? || a.Republish? {
        if a.DeleteBegin? && Lookup(s.hdrs, TYPE_BINSEM, a.id).Some? { NoneIsNotAnId(s, a.id); }
        DeleteKeepsNamesLegal(s, a);
      } else {
        OthersKeepHeaders(s, a);
        OthersKeepNamesLegal(s, a);
      }
    }
  }

  lemma NoneIsNotAnId(s: State, id: u32)
    requires Lookup(s.hdrs, TYPE_BINSEM, id).Some?
    ensures id != ID_NONE
  {
  }

  lemma CreateBeginKeepsNamesLegal(s: State, t: Tid, req: Request, initial: nat)
    requires Shaped(s) && Enabled(s, CreateBegin(t, req, initial)) && NamesLegal(s)
    ensures NamesLegal(Step(s, CreateBegin(t, req, initial)))
  {
    CreateAnswers(s.hdrs, req, InitialStateOk(initial));
    assert Step(s, CreateBegin(t, req, initial)) == CreateBeginStep(s, t, req, initial);
  }

  lemma OthersKeepNamesLegal(s: State, a: Action)
    requires Shaped(s) && Enabled(s, a) && NamesLegal(s) && Step(s, a).hdrs == s.hdrs
    requires !(a.CreateBegin? || a.CreateStore? || a.DeleteBegin? || a.DeleteStore? || a.DeleteEnd? || a.Republish?)
    ensures NamesLegal(Step(s, a))
  {
    OthersStayAside(s, a);
    MoveKeepsNamesLegal(s, Step(s, a), a.t);
  }

  /** Such an action brings nobody nearer to publishing a name. */
  lemma OthersStayAside(s: State, a: Action)
    requires Shaped(s) && Enabled(s, a)
    requires !(a.CreateBegin? || a.CreateStore? || a.DeleteBegin? || a.DeleteStore? || a.DeleteEnd? || a.Republish?)
    ensures a.t in s.pc && a.t in Step(s, a).pc && Step(s, a).pc == s.pc[a.t := Step(s, a).pc[a.t]]
    ensures var p, q := s.pc[a.t], Step(s, a).pc[a.t]; !q.Creating? && (Returnable(q) ==> Returnable(p) && p.i == q.i)
  {
  }

  lemma MoveKeepsNamesLegal(s: State, r: State, t: Tid)
    requires Shaped(s) && Shaped(r) && r.hdrs == s.hdrs && NamesLegal(s) && t in s.pc && t in r.pc && r.pc == s.pc[t := r.pc[t]]
    requires !r.pc[t].Creating? && (Returnable(r.pc[t]) ==> Returnable(s.pc[t]) && s.pc[t].i == r.pc[t].i)
    ensures NamesLegal(r)
  {
  }

  lemma DeleteKeepsNamesLegal(s: State, a: Action)
    requires Shaped(s) && Enabled(s, a) && NamesLegal(s) && (a.DeleteBegin? || a.DeleteStore? || a.Republish?)
    requires a.DeleteBegin? && Lookup(s.hdrs, TYPE_BINSEM, a.id).Some? ==> a.id != ID_NONE
    ensures NamesLegal(Step(s, a))
  {
    match a
    case DeleteBegin(t, id) =>
      assert Step(s, a) == DeleteBeginStep(s, t, id);
      DeleteBeginIsLegal(s, t, id);
    case DeleteStore(t) =>
      assert Step(s, a) == DeleteStoreStep(s, t);
      DeleteStoreIsLegal(s, t);
    case Republish(t) =>
      assert Step(s, a) == RepublishStep(s, t);
      RepublishIsLegal(s, t);
  }

  lemma DeleteBeginIsLegal(s: State, t: Tid, id: u32)
    requires Shaped(s) && IdleAt(s, t) && NamesLegal(s) && (Lookup(s.hdrs, TYPE_BINSEM, id).Some? ==> id != ID_NONE)
    ensures NamesLegal(DeleteBeginStep(s, t, id))
  {
  }

  lemma DeleteStoreIsLegal(s: State, t: Tid)
    requires Shaped(s) && Inside(s, t) && s.pc[t].Retiring? && NamesLegal(s)
    ensures NamesLegal(DeleteStoreStep(s, t))
  {
  }

  lemma RepublishIsLegal(s: State, t: Tid)
    requires Shaped(s) && Inside(s, t) && s.pc[t].Republishing? && NamesLegal(s)
    ensures NamesLegal(RepublishStep(s, t))
  {
  }

  /** Nobody else can still roll back in a slot that t is creating or wiping. */
  lemma NobodyReturns(s: State, t: Tid)
    requires Inv(s) && t in s.pc && (s.pc[t].Creating? || s.pc[t].Cleaning? || s.pc[t].Restoring?)
    ensures s.pc[t].i < |s.hdrs| && forall u :: u in s.pc && u != t && Returnable(s.pc[u]) ==> s.pc[u].i != s.pc[t].i
    ensures !s.pc[t].Restoring? ==> s.hdrs[s.pc[t].i].id == ID_NONE
    ensures s.pc[t].Creating? && s.pc[t].stage > 4 ==> s.hdrs[s.pc[t].i].name == s.pc[t].made.name
  {
    assert ThreadOk(s, t) && Changes(s.pc[t], s.pc[t].i);
  }

  lemma CreateStoreKeepsNamesLegal(s: State, t: Tid)
    requires Inv(s) && Enabled(s, CreateStore(t)) && NamesLegal(s)
    ensures NamesLegal(Step(s, CreateStore(t)))
  {
    NobodyReturns(s, t);
    StoreIsLegal(s, t);
  }

  lemma StoreIsLegal(s: State, t: Tid)
    requires Shaped(s) && Enabled(s, CreateStore(t)) && NamesLegal(s) && s.hdrs[s.pc[t].i].id == ID_NONE
    requires forall u :: u in s.pc && u != t && Returnable(s.pc[u]) ==> s.pc[u].i != s.pc[t].i
    requires s.pc[t].stage > 4 ==> s.hdrs[s.pc[t].i].name == s.pc[t].made.name
    ensures NamesLegal(Step(s, CreateStore(t)))
  {
    assert Step(s, CreateStore(t)) == CreateStoreStep(s, t);
  }

  lemma DeleteEndKeepsNamesLegal(s: State, t: Tid)
    requires Inv(s) && Enabled(s, DeleteEnd(t)) && NamesLegal(s)
    ensures NamesLegal(Step(s, DeleteEnd(t)))
  {
    NobodyReturns(s, t);
    EndIsLegal(s, t);
  }

  lemma EndIsLegal(s: State, t: Tid)
    requires Shaped(s) && Enabled(s, DeleteEnd(t)) && NamesLegal(s) && (s.pc[t].Cleaning? ==> s.hdrs[s.pc[t].i].id == ID_NONE)
    requires forall u :: u in s.pc && u != t && Returnable(s.pc[u]) ==> s.pc[u].i != s.pc[t].i
    ensures NamesLegal(Step(s, DeleteEnd(t)))
  {
    assert Step(s, DeleteEnd(t)) == DeleteEndStep(s, t);
  }

  lemma {:induction false} RunKeepsNamesLegal(s: State, run: seq<Action>)
    requires Inv(s) && InContract(s, run) && NamesLegal(s)
    ensures NamesLegal(Exec(s, run))
    decreases |run|
  {
    if run != [] {
      StepKeepsNamesLegal(s, run[0]);
      StepKeepsInv(s, run[0]);
      RunKeepsNamesLegal(Step(s, run[0]), run[1..]);
    }
  }

  /**
   * Over every run in contract, and at every single store, the name of every published semaphore has
   * 1 to 19 bytes; so it fits its buffer of 20. While the lock is free that is every name in use.
   */
  lemma NamesFit(n: nat, threads: set<Tid>, run: seq<Action>, i: nat)
    requires Start(n, threads) && InContract(Init(n, threads), run) && i < n
    ensures var s := Exec(Init(n, threads), run);
            s.hdrs[i].id != ID_NONE || (s.lock == None && s.hdrs[i].inUse) ==> 1 <= |s.hdrs[i].name| <= 19
  {
    InitHasInv(n, threads);
    RunKeepsNamesLegal(Init(n, threads), run);
    Reached(n, threads, run);
    var s := Exec(Init(n, threads), run);
    if s.lock == None { UnlockedSlotIsSettled(s, i); }
  }

  // ---------- Stale ids ----------

  ghost predicate Stamps(s: State, a: Action, i: nat)
  {
    a.CreateStore? && Enabled(s, a) && s.pc[a.t].stage == 0 && s.pc[a.t].i == i
  }

  /** How many generations of slot i a run begins. */
  ghost function Creations(s: State, run: seq<Action>, i: nat): nat
    requires Shaped(s) && i < |s.hdrs|
    decreases |run|
  {
    if run == [] then 0 else Bit(Stamps(s, run[0], i)) + Creations(Step(s, run[0]), run[1..], i)
  }

  lemma StepCountsGeneration(s: State, a: Action, i: nat)
    requires Shaped(s) && i < |s.hdrs|
    ensures Step(s, a).hdrs[i].gen == s.hdrs[i].gen + Bit(Stamps(s, a, i))
  {
  }

  lemma {:induction false} CreationsCountGenerations(s: State, run: seq<Action>, i: nat)
    requires Shaped(s) && i < |s.hdrs|
    ensures Exec(s, run).hdrs[i].gen == s.hdrs[i].gen + Creations(s, run, i)
    decreases |run|
  {
    if run != [] {
      StepCountsGeneration(s, run[0], i);
      CreationsCountGenerations(Step(s, run[0]), run[1..], i);
    }
  }

  /**
   * A published id, after any further history with k re-creations of its slot: Post accepts it
   * exactly when the slot is published and k is a multiple of 255.
   */
  lemma StaleIdOverRuns(s: State, run: seq<Action>, i: nat)
    requires Inv(s) && InContract(s, run) && Live(s, i)
    ensures var r := Exec(s, run);
            PostAccepts(r.hdrs, s.hdrs[i].id).Some? <==> Live(r, i) && Creations(s, run, i) % 255 == 0
  {
    RunKeepsInv(s, run);
    CreationsCountGenerations(s, run, i);
    PublishedSlot(s, i);
    PublishedSlot(Exec(s, run), i);
    AcceptedIff(s.hdrs[i], Exec(s, run).hdrs, i, Creations(s, run, i));
  }

  lemma AcceptedIff(h: Header, hs: seq<Header>, i: u16, k: nat)
    requires i < |hs| && h.gen >= 1 && h.serial == SerialOf(h.gen) && h.id == IdPack(TYPE_BINSEM, h.serial, i)
    requires hs[i].gen == h.gen + k && hs[i].serial == SerialOf(hs[i].gen)
    requires hs[i].id == ID_NONE || hs[i].id == IdPack(TYPE_BINSEM, hs[i].serial, i)
    ensures PostAccepts(hs, h.id).Some? <==> hs[i].id != ID_NONE && k % 255 == 0
  {
    SameIdIff(h, hs[i], i, k);
  }

  lemma PublishedSlot(s: State, i: nat)
    requires Inv(s) && i < |s.hdrs|
    ensures Published(s.hdrs[i], s.cells[i], i)
  {
    assert SlotOk(s.hdrs[i], s.cells[i], s.pc, i);
  }

  lemma SameIdIff(h: Header, h': Header, i: u16, k: nat)
    requires h.gen >= 1 && h.serial == SerialOf(h.gen) && h.id == IdPack(TYPE_BINSEM, h.serial, i)
    requires h'.gen == h.gen + k && h'.serial == SerialOf(h'.gen)
    requires h'.id == ID_NONE || h'.id == IdPack(TYPE_BINSEM, h'.serial, i)
    ensures IdType(h.id) == TYPE_BINSEM && IdIndex(h.id) == i
    ensures h'.id == h.id <==> h'.id != ID_NONE && k % 255 == 0
  {
    UnpackOfPack(TYPE_BINSEM, h.serial, i);
    PackIsInjective(TYPE_BINSEM, h.serial, i, TYPE_BINSEM, h'.serial, i);
    SerialsAlias(h.gen, k);
  }
}
