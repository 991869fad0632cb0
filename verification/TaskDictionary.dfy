/** The task pool as a dictionary over whole runs, and how long its ids stay apart. */
module TaskDictionary {
  import opened Common
  import opened Ids
  import opened Table
  import opened Priority
  import opened TaskModel
  import opened TaskProperties

  // ---------- The pool as a dictionary, and stale ids ----------

  /** Create's result as a question to the dictionary; there is no native failure before the insert. */
  ghost function DictTaskStatus(d: map<u32, Entry>, n: nat, req: TaskRequest): Status
  {
    if !req.ready then Generic
    else if req.outIsNull || req.name == None || req.body.entry == None then InvalidPointer
    else if req.stackSize < 1 then InvalidSize
    else if req.priority >= 32 then InvalidPriority
    else if req.flags > 0 then InvalidParam
    else if |req.name.value| > 19 then NameTooLong
    else if exists id :: id in d && d[id].name == req.name.value then NameIsTaken
    else if |d| >= n then NoFreeIds
    else Success
  }

  lemma TaskStatusFromDict(hs: seq<Header>, req: TaskRequest)
    requires IdsDistinct(hs)
    ensures TaskCreateStatus(hs, req) == DictTaskStatus(Dict(hs), |hs|, req)
  {
    CapacityIsTableSize(hs);
    if CheckTaskRequest(req) == Success { NameTakenInDict(hs, req.name.value); }
  }

  lemma CreateIsInsert(s: State, c: Caller, req: TaskRequest)
    requires Inv(s) && CanCall(s, c)
    ensures var d, s' := Dict(s.hdrs), CreateStep(s, c, req);
            var status := DictTaskStatus(d, |s.hdrs|, req);
            if status == Success
            then At(s', c).Building? && exists id: u32 :: id !in d && id != ID_NONE && Dict(s'.hdrs) == d[id := Entry(req.name.value, ID_NONE)]
            else At(s', c) == Idle(status) && Dict(s'.hdrs) == d
  {
    var i, s' := FirstFree(s.hdrs), CreateStep(s, c, req);
    SoundMeansDistinct(s.hdrs, TYPE_TASK);
    TaskStatusFromDict(s.hdrs, req);
    if TaskCreateStatus(s.hdrs, req) == Success {
      IssueIsSound(s.hdrs[i], TYPE_TASK, i, req.name.value, ID_NONE);
      SoundAfterUpdate(s.hdrs, TYPE_TASK, i, s'.hdrs[i]);
      SoundMeansDistinct(s'.hdrs, TYPE_TASK);
      FillInserts(s.hdrs, i, s'.hdrs[i]);
      assert s'.hdrs[i].inUse && s'.hdrs[i].id != ID_NONE;
    }
  }

  /** A failed Create and a finished Delete remove exactly the slot's own id. */
  lemma FreeIsRemove(s: State, a: Action)
    requires Inv(s) && Enabled(s, a) && (a.CreateUndo? || a.DeleteFree?)
    ensures var i := At(s, a.c).i;
            i < |s.hdrs| && s.hdrs[i].id in Dict(s.hdrs) && Dict(Apply(s, a).hdrs) == Dict(s.hdrs) - {s.hdrs[i].id}
  {
    assert CallerOk(s, a.c);
    var i := At(s, a.c).i;
    SoundMeansDistinct(s.hdrs, TYPE_TASK);
    DictContents(s.hdrs, |s.hdrs|);
    RetireRemoves(s.hdrs, i, Apply(s, a).hdrs[i]);
  }

  /** The calls that take an id refuse it as invalid exactly when it is not in the dictionary. */
  lemma CallsLookUp(s: State, a: Action)
    requires Inv(s) && Enabled(s, a) && (a.JoinClaim? || a.DeleteClaim? || (a.SetPriority? && a.priority <= LOWEST))
    ensures At(Apply(s, a), a.c) == Idle(InvalidId) <==> a.id !in Dict(s.hdrs)
  {
    LookupIsMembership(s.hdrs, TYPE_TASK, a.id);
  }

  /** What an action does to the dictionary and answers from it. */
  ghost predicate ActsOnDict(s: State, a: Action)
    requires Shaped(s) && Enabled(s, a)
  {
    var n, d, d' := |s.hdrs|, Dict(s.hdrs), Dict(Apply(s, a).hdrs);
    match a
    case Create(c, req) =>
      var status := DictTaskStatus(d, n, req);
      if status == Success
      then At(Apply(s, a), c).Building?
        && exists id: u32 :: id !in d && id != ID_NONE && d' == d[id := Entry(req.name.value, ID_NONE)]
      else At(Apply(s, a), c) == Idle(status) && d' == d
    case CreateUndo(c) => At(s, c).i < n && s.hdrs[At(s, c).i].id in d && d' == d - {s.hdrs[At(s, c).i].id}
    case DeleteFree(c) => At(s, c).id in d && d' == d - {At(s, c).id}
    case JoinClaim(c, id, same) => d' == d && (At(Apply(s, a), c) == Idle(InvalidId) <==> id !in d)
    case DeleteClaim(c, id, same) => d' == d && (At(Apply(s, a), c) == Idle(InvalidId) <==> id !in d)
    case SetPriority(c, id, priority, nativeOk) =>
      d' == d && (priority <= LOWEST ==> (At(Apply(s, a), c) == Idle(InvalidId) <==> id !in d))
    case _ => d' == d
  }

  /**
   * In every reachable state each action acts on the pool as on a dictionary of capacity n: Create
   * inserts before the thread exists, a failed Create and a Delete remove, the other calls look
   * up, and nothing else changes it.
   */
  lemma PoolIsADictionary(n: nat, rt: Rt, run: seq<Action>, a: Action)
    requires 0 < n <= MAX_POOL && InContract(Init(n, rt), run) && Enabled(Exec(Init(n, rt), run), a)
    ensures ActsOnDict(Exec(Init(n, rt), run), a)
  {
    Reached(n, rt, run);
    StepActsOnDict(Exec(Init(n, rt), run), a);
  }

  lemma StepActsOnDict(s: State, a: Action)
    requires Inv(s) && Enabled(s, a)
    ensures ActsOnDict(s, a)
  {
    match a
    case Create(c, req) => CreateIsInsert(s, c, req);
    case CreateUndo(c) => FreeIsRemove(s, a);
    case DeleteFree(c) =>
      FreeIsRemove(s, a);
      assert CallerOk(s, c);
    case JoinClaim(c, id, same) => LookupsActOnDict(s, a);
    case DeleteClaim(c, id, same) => LookupsActOnDict(s, a);
    case SetPriority(c, id, priority, nativeOk) => LookupsActOnDict(s, a);
    case _ => OthersActOnDict(s, a);
  }

  lemma LookupsActOnDict(s: State, a: Action)
    requires Inv(s) && Enabled(s, a) && (a.JoinClaim? || a.DeleteClaim? || a.SetPriority?)
    ensures ActsOnDict(s, a)
  {
    OthersKeepDict(s, a);
    if a.SetPriority? ==> a.priority <= LOWEST { CallsLookUp(s, a); }
  }

  lemma OthersActOnDict(s: State, a: Action)
    requires Shaped(s) && Enabled(s, a)
    requires !(a.Create? || a.CreateUndo? || a.DeleteFree? || a.JoinClaim? || a.DeleteClaim? || a.SetPriority?)
    ensures ActsOnDict(s, a)
  {
    OthersKeepDict(s, a);
  }

  lemma OthersKeepDict(s: State, a: Action)
    requires Shaped(s) && Enabled(s, a) && !(a.Create? || a.CreateUndo? || a.DeleteFree?)
    ensures Apply(s, a).hdrs == s.hdrs
  {
  }

  // ---------- What Create answers, and names ----------

  /** Each answer of the first section of Create, by the exact condition on its arguments and the table. */
  lemma CreateAnswers(s: State, c: Caller, req: TaskRequest)
    requires Shaped(s) && CanCall(s, c)
    ensures var p := At(CreateStep(s, c, req), c);
            var pointers := req.ready && !req.outIsNull && req.name.Some? && req.body.entry.Some?;
            var params := pointers && req.stackSize > 0 && req.priority <= 31 && req.flags == 0;
            var good := params && |req.name.value| <= 19;
            var room := exists i :: 0 <= i < |s.hdrs| && !s.hdrs[i].inUse;
            && (p == Idle(Generic) <==> !req.ready) && (p == Idle(InvalidPointer) <==> req.ready && !pointers)
            && (p == Idle(InvalidSize) <==> pointers && req.stackSize == 0)
            && (p == Idle(InvalidPriority) <==> pointers && req.stackSize > 0 && req.priority > 31)
            && (p == Idle(InvalidParam) <==> pointers && req.stackSize > 0 && req.priority <= 31 && req.flags != 0)
            && (p == Idle(NameTooLong) <==> params && |req.name.value| >= 20)
            && (p == Idle(NameIsTaken) <==> good && NameTaken(s.hdrs, req.name.value))
            && (p == Idle(NoFreeIds) <==> good && !NameTaken(s.hdrs, req.name.value) && !room)
            && (p.Building? <==> good && !NameTaken(s.hdrs, req.name.value) && room)
  {
    var k := FirstFree(s.hdrs);
    if k < |s.hdrs| { assert !s.hdrs[k].inUse; }
  }

  ghost predicate NamesLegal(hs: seq<Header>) { forall i :: 0 <= i < |hs| ==> |hs[i].name| <= 19 }

  lemma StepKeepsNamesLegal(s: State, a: Action)
    requires Shaped(s) && NamesLegal(s.hdrs)
    ensures NamesLegal(Step(s, a).hdrs)
  {
    if Enabled(s, a) {
      if a.Create? {
        CreateAnswers(s, a.c, a.req);
      } else if !(a.CreateUndo? || a.DeleteFree?) {
        OthersKeepDict(s, a);
      }
    }
  }

  lemma {:induction false} RunKeepsNamesLegal(s: State, run: seq<Action>)
    requires Shaped(s) && NamesLegal(s.hdrs)
    ensures NamesLegal(Exec(s, run).hdrs)
    decreases |run|
  {
    if run != [] {
      StepKeepsNamesLegal(s, run[0]);
      RunKeepsNamesLegal(Step(s, run[0]), run[1..]);
    }
  }

  /** Over every run, in contract or not, every task name has at most 19 bytes: it fits its buffer of 20. */
  lemma NamesFit(n: nat, rt: Rt, run: seq<Action>)
    requires 0 < n <= MAX_POOL
    ensures NamesLegal(Exec(Init(n, rt), run).hdrs)
  {
    RunKeepsNamesLegal(Init(n, rt), run);
  }

  /** How many times slot i is handed out in a run, counting Creates that fail afterwards. */
  ghost function Creations(s: State, run: seq<Action>, i: nat): nat
    requires Shaped(s) && i < |s.hdrs|
    decreases |run|
  {
    if run == [] then 0 else Bit(HandsOut(s, run[0], i)) + Creations(Step(s, run[0]), run[1..], i)
  }

  ghost predicate HandsOut(s: State, a: Action, i: nat)
    requires Shaped(s)
  {
    a.Create? && Enabled(s, a) && TaskCreateStatus(s.hdrs, a.req) == Success && FirstFree(s.hdrs) == i
  }

  lemma StepCountsGeneration(s: State, a: Action, i: nat)
    requires Shaped(s) && i < |s.hdrs|
    ensures Step(s, a).hdrs[i].gen == s.hdrs[i].gen + Bit(HandsOut(s, a, i))
  {
  }

  lemma {:induction false} CreationsCountGenerations(s: State, run: seq<Action>, i: nat)
    requires Shaped(s) && i < |s.hdrs|
    ensures Exec(s, run).hdrs[i].gen == s.hdrs[i].gen + Creations(s, run, i)
    decreases |run|
  {
    if run != [] {
      StepCountsGeneration(s, run[0], i);
      CreationsCountGenerations(Step(s, run[0]), run[1..], i);
    }
  }

  /**
   * A task id after any further history with k re-uses of its slot (failed Creates included) is
   * accepted exactly when the slot is in use and k is a multiple of 255.
   */
  lemma StaleIdOverRuns(s: State, run: seq<Action>, i: nat)
    requires Inv(s) && InContract(s, run) && i < |s.hdrs| && s.hdrs[i].inUse
    ensures var r, k := Exec(s, run), Creations(s, run, i);
            Lookup(r.hdrs, TYPE_TASK, s.hdrs[i].id).Some? <==> r.hdrs[i].inUse && k % 255 == 0
  {
    RunKeepsInv(s, run);
    CreationsCountGenerations(s, run, i);
    assert HeaderSound(s.hdrs[i], TYPE_TASK, i);
    StaleIdIsAcceptedIff(Exec(s, run).hdrs, TYPE_TASK, i, s.hdrs[i].gen);
  }
}
