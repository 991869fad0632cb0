/** Runs in contract, from the initial state, that end where no caller would expect. */
module TaskRuns {
  import opened Common
  import opened Ids
  import opened Table
  import opened Names
  import opened Priority
  import opened TaskModel
  import opened TaskProperties
  import opened TaskReaping

  // ---------- Building runs ----------

  /** Some run in contract leads from s0 to s. */
  ghost predicate Leads(s0: State, s: State)
    requires Shaped(s0)
  {
    exists run: seq<Action> :: InContract(s0, run) && Exec(s0, run) == s
  }

  ghost predicate From(s0: State, s: State) { Shaped(s0) && Leads(s0, s) && Inv(s) }

  lemma FromItself(s: State)
    requires Inv(s)
    ensures From(s, s)
  {
    assert InContract(s, []) && Exec(s, []) == s;
  }

  lemma {:induction false} RunExtends(s: State, run: seq<Action>, a: Action)
    requires Shaped(s) && InContract(s, run) && Allowed(Exec(s, run), a)
    ensures InContract(s, run + [a]) && Exec(s, run + [a]) == Step(Exec(s, run), a)
    decreases |run|
  {
    if run == [] {
      assert run + [a] == [a] && [a][1..] == [];
      assert InContract(Step(s, a), []);
    } else {
      assert (run + [a])[0] == run[0] && (run + [a])[1..] == run[1..] + [a];
      RunExtends(Step(s, run[0]), run[1..], a);
    }
  }

  /** One action more. */
  lemma On(s0: State, s: State, a: Action)
    requires From(s0, s) && Allowed(s, a)
    ensures From(s0, Step(s, a))
  {
    var run: seq<Action> :| InContract(s0, run) && Exec(s0, run) == s;
    RunExtends(s0, run, a);
    StepKeepsInv(s, a);
  }

  // ---------- A task is started ----------

  /** The handle of the task that the next Create makes. */
  function NextHandle(s: State): Handle
    requires FirstFree(s.hdrs) < |s.hdrs|
  {
    Handle(FirstFree(s.hdrs), s.hdrs[FirstFree(s.hdrs)].gen + 1)
  }

  /** The state after c has created a task in the lowest free slot and the task has stored its key. */
  ghost function Made(s: State, c: Caller, req: TaskRequest): State
    requires Shaped(s) && TaskCreateStatus(s.hdrs, req) == Success
  {
    var h := NextHandle(s);
    var hd := Issue(s.hdrs[h.i], TYPE_TASK, h.i, req.name.value, ID_NONE);
    State(s.hdrs[h.i := hd], s.cells[h.i := Cell(Starting, false, Some(h), req.priority, req.stackSize, req.body)],
          s.pc[c := Idle(Success)],
          s.threads[h := Native(Keyed, hd.id, true, NativePriority(s.rt, req.priority), req.body, None)], s.rt, s.lost)
  }

  lemma MakeTask(s0: State, s: State, c: Caller, req: TaskRequest)
    requires From(s0, s) && CanCall(s, c) && TaskCreateStatus(s.hdrs, req) == Success
    ensures From(s0, Made(s, c, req))
  {
    var h := NextHandle(s);
    var s1, s2 := ThreadIsMade(s, c, req, h);
    On(s0, s, Create(c, req));
    On(s0, s1, CreateThread(c));
    On(s0, s2, SetKey(h, true));
    KeyIsSet(s, s2, c, req);
  }

  lemma ThreadIsMade(s: State, c: Caller, req: TaskRequest, h: Handle) returns (s1: State, s2: State)
    requires Inv(s) && CanCall(s, c) && TaskCreateStatus(s.hdrs, req) == Success && h == NextHandle(s)
    ensures s1 == CreateStep(s, c, req) == Step(s, Create(c, req))
    ensures Inside(s1, c) && At(s1, c).Building? && s2 == CreateThreadStep(s1, c) == Step(s1, CreateThread(c))
    ensures Shaped(s2) && InStage(s2, h, Fresh)
  {
    Facts(s, c, h.i);
    s1 := CreateStep(s, c, req);
    s2 := CreateThreadStep(s1, c);
    assert Enabled(s1, CreateThread(c));
  }

  lemma KeyIsSet(s: State, s2: State, c: Caller, req: TaskRequest)
    requires Shaped(s) && TaskCreateStatus(s.hdrs, req) == Success && At(s, c).Idle?
    requires s2 == CreateThreadStep(CreateStep(s, c, req), c)
    ensures Step(s2, SetKey(NextHandle(s), true)) == Made(s, c, req)
  {
    var h := NextHandle(s);
    assert Step(s2, SetKey(h, true)) == SetKeyStep(s2, h, true);
  }

  /** The task enters its function. */
  lemma EnterTask(s0: State, s: State, h: Handle)
    requires From(s0, s) && InStage(s, h, Keyed)
    ensures From(s0, EnterRunningStep(s, h))
  {
    On(s0, s, EnterRunning(h));
    assert Step(s, EnterRunning(h)) == EnterRunningStep(s, h);
  }

  /** A request that Create accepts while there is a free slot. */
  ghost function FreshTask(hs: seq<Header>): (req: TaskRequest)
    requires |hs| <= MAX_POOL
    ensures FirstFree(hs) < |hs| ==> TaskCreateStatus(hs, req) == Success
  {
    TaskRequest(true, false, Some(FreeName(hs)), Body(Some(1), 1), 1, 0, 0)
  }

  // ---------- A claim is lost, and the slot freed ----------

  /** Task a is blocked in a Join of task b; c and d are two threads outside the API. */
  ghost predicate Waits(s: State, a: Handle, b: Handle, c: Caller, d: Caller)
  {
    && InStage(s, a, Active) && IsCurrent(s, a) && !s.cells[a.i].joined && a != b
    && At(s, Task(a)).Joining? && At(s, Task(a)).h == b && At(s, Task(b)).Idle?
    && c.Foreign? && d.Foreign? && c != d && CanCall(s, c) && CanCall(s, d)
  }

  /** The slot of b has been freed and nothing has been created in it; b has not been touched. */
  ghost predicate JustFreed(s: State, r: State, b: Handle, d: Caller)
  {
    && Freed(r, b) && b in s.threads && b in r.threads && r.threads[b] == s.threads[b]
    && |r.hdrs| == |s.hdrs| == |r.cells| && r.hdrs == s.hdrs[b.i := r.hdrs[b.i]] && !r.hdrs[b.i].inUse
    && r.cells[b.i].body == NO_BODY && At(r, Task(b)).Idle? && CanCall(r, d)
  }

  /**
   * A task can be lost without any caller breaking a rule. While task a is blocked in a Join of task
   * b, one thread deletes a: the cancellation takes effect inside pthread_join, and b's claim
   * stays taken. Another thread then deletes b, which is freed at once, however far it has come.
   */
  lemma CancelledJoinerLosesTheSlot(s0: State, s: State, a: Handle, b: Handle, c: Caller, d: Caller) returns (r: State)
    requires From(s0, s) && Waits(s, a, b, c, d)
    ensures From(s0, r) && JustFreed(s, r, b, d)
  {
    var s3 := JoinerIsCancelled(s0, s, a, b, c, d);
    var s4 := DeleteOfLostBegins(s3, b, d);
    On(s0, s3, DeleteClaim(d, s3.hdrs[b.i].id, false));
    On(s0, s4, DeleteFree(d));
    r := FreeEffect(s4, b, d);
  }

  lemma JoinerIsCancelled(s0: State, s: State, a: Handle, b: Handle, c: Caller, d: Caller) returns (r: State)
    requires From(s0, s) && Waits(s, a, b, c, d)
    ensures From(s0, r) && r.hdrs == s.hdrs && At(r, Task(b)).Idle? && CanCall(r, d)
    ensures b in s.threads && b in r.threads && r.threads[b] == s.threads[b]
    ensures b.i < |r.hdrs| && b == Current(r, b.i) && r.hdrs[b.i].inUse && b in r.lost && !BeingEnded(r, b.i)
  {
    var s1, s2 := DeleteOfJoinerBegins(s, a, b, c, d);
    On(s0, s, DeleteClaim(c, s.hdrs[a.i].id, false));
    On(s0, s1, NativeCancel(c, NativeOk));
    r := CancelTakesEffect(s2, a, b, d);
    On(s0, s2, Finish(a));
  }

  lemma FreeEffect(s: State, b: Handle, d: Caller) returns (r: State)
    requires Shaped(s) && b.i < |s.hdrs| && s.hdrs[b.i].inUse && s.hdrs[b.i].gen == b.gen && b in s.lost && d.Foreign?
    requires At(s, d) == Freeing(b.i, b.gen, s.hdrs[b.i].id) && At(s, Task(b)).Idle?
    ensures r == Step(s, DeleteFree(d)) && r.threads == s.threads && Freed(r, b)
    ensures |r.hdrs| == |s.hdrs| == |r.cells| && r.hdrs == s.hdrs[b.i := r.hdrs[b.i]] && !r.hdrs[b.i].inUse
    ensures r.cells[b.i].body == NO_BODY && At(r, Task(b)).Idle? && CanCall(r, d)
  {
    r := DeleteFreeStep(s, d);
    assert Step(s, DeleteFree(d)) == r;
  }

  lemma DeleteOfJoinerBegins(s: State, a: Handle, b: Handle, c: Caller, d: Caller) returns (s1: State, s2: State)
    requires Inv(s) && Waits(s, a, b, c, d)
    ensures var claim, cancel := DeleteClaim(c, s.hdrs[a.i].id, false), NativeCancel(c, NativeOk);
            && Allowed(s, claim) && s1 == Step(s, claim) && Shaped(s1) && Allowed(s1, cancel) && s2 == Step(s1, cancel)
    ensures s2.hdrs == s.hdrs && s2.threads == s.threads && |s2.cells| == |s.cells| && forall e :: e != c ==> At(s2, e) == At(s, e)
  {
    Facts(s, Task(a), a.i);
    LookupFindsOwnId(s.hdrs, TYPE_TASK, a.i);
    s1 := DeleteClaimStep(s, c, s.hdrs[a.i].id, false);
    assert s1 == Step(s, DeleteClaim(c, s.hdrs[a.i].id, false));
    s2 := NativeCancelStep(s1, c, NativeOk);
    assert s2 == Step(s1, NativeCancel(c, NativeOk));
  }

  lemma CancelTakesEffect(s: State, a: Handle, b: Handle, d: Caller) returns (r: State)
    requires Inv(s) && InStage(s, a, Active) && At(s, Task(a)).Joining? && At(s, Task(a)).h == b != a && CanCall(s, d) && d.Foreign?
    ensures Shaped(s) && Allowed(s, Finish(a)) && r == Step(s, Finish(a)) && r.hdrs == s.hdrs
    ensures b in s.threads && b in r.threads && r.threads[b] == s.threads[b]
    ensures b.i < |r.hdrs| && b == Current(r, b.i) && r.hdrs[b.i].inUse && b in r.lost && !BeingEnded(r, b.i) && CanCall(r, d)
    ensures forall e :: e != Task(a) ==> At(r, e) == At(s, e)
  {
    assert CallerOk(s, Task(a));
    Facts(s, Task(a), b.i);
    r := FinishStep(s, a);
    assert Step(s, Finish(a)) == r;
    SlotAfterMove(s, r, b.i, Task(a));
  }

  lemma DeleteOfLostBegins(s: State, b: Handle, d: Caller) returns (s1: State)
    requires Inv(s) && d.Foreign? && CanCall(s, d) && b.i < |s.hdrs| && b == Current(s, b.i) && s.hdrs[b.i].inUse
    requires b in s.lost && !BeingEnded(s, b.i)
    ensures var free := DeleteClaim(d, s.hdrs[b.i].id, false); Allowed(s, free) && s1 == Step(s, free)
    ensures s1.hdrs == s.hdrs && s1.threads == s.threads && s1.lost == s.lost && |s1.cells| == |s.cells|
    ensures Inside(s1, d) && At(s1, d) == Freeing(b.i, b.gen, s.hdrs[b.i].id) && forall e :: e != d ==> At(s1, e) == At(s, e)
  {
    Facts(s, d, b.i);
    LookupFindsOwnId(s.hdrs, TYPE_TASK, b.i);
    s1 := DeleteClaimStep(s, d, s.hdrs[b.i].id, false);
    assert s1 == Step(s, DeleteClaim(d, s.hdrs[b.i].id, false));
  }

  // ---------- What a freed thread does ----------

  /** The slot of h was freed while h is inside its entry function. */
  ghost predicate FreedRunning(s: State, h: Handle) { Freed(s, h) && InStage(s, h, Active) }

  /** A task is running, and AOS_TaskGetInfo says that it has exited. */
  ghost predicate Misreports(s: State, i: nat)
  {
    && i < |s.hdrs| == |s.cells| && s.hdrs[i].inUse && s.cells[i].state == Exited
    && InStage(s, Current(s, i), Active) && s.threads[Current(s, i)].got == Some(s.threads[Current(s, i)].given)
  }

  /**
   * A thread whose slot was freed under it spoils the next task there: it ends, a new task is created
   * and enters its function, and then the old thread's clean-up handler marks the new one EXITED.
   */
  lemma ZombieMisreports(s0: State, s: State, h: Handle, c: Caller) returns (r: State)
    requires From(s0, s) && FreedRunning(s, h) && At(s, Task(h)).Idle? && c.Foreign? && CanCall(s, c) && FirstFree(s.hdrs) == h.i
    ensures From(s0, r) && Misreports(r, h.i)
  {
    On(s0, s, Finish(h));
    var s1, req := SetStage(s, h, Ending), FreshTask(s.hdrs);
    assert Step(s, Finish(h)) == s1;
    MakeTask(s0, s1, c, req);
    var s2, g := Made(s1, c, req), NextHandle(s1);
    assert ThreadOk(s, h);
    NextToZombie(s1, c, req, h);
    EnterTask(s0, s2, g);
    r := HandlerRuns(s0, EnterRunningStep(s2, g), h, g);
  }

  lemma NextToZombie(s: State, c: Caller, req: TaskRequest, h: Handle)
    requires Shaped(s) && TaskCreateStatus(s.hdrs, req) == Success && InStage(s, h, Ending)
    requires FirstFree(s.hdrs) == h.i && h.gen <= s.hdrs[h.i].gen
    ensures var s2, g := Made(s, c, req), NextHandle(s);
            && Shaped(s2) && g != h && InStage(s2, g, Keyed)
            && var s3 := EnterRunningStep(s2, g);
               && InStage(s3, h, Ending) && InStage(s3, g, Active) && g.i == h.i && |s3.hdrs| == |s.hdrs|
               && s3.hdrs[h.i].inUse && g == Current(s3, h.i) && s3.threads[g].got == Some(s3.threads[g].given)
  {
  }

  lemma HandlerRuns(s0: State, s: State, h: Handle, g: Handle) returns (r: State)
    requires From(s0, s) && InStage(s, h, Ending) && InStage(s, g, Active) && g != h && g.i == h.i
    requires s.hdrs[h.i].inUse && g == Current(s, h.i) && s.threads[g].got == Some(s.threads[g].given)
    ensures From(s0, r) && Misreports(r, h.i)
  {
    On(s0, s, Cleanup(h));
    r := CleanupStep(s, h);
    assert Step(s, Cleanup(h)) == r;
  }

  /** A thread whose slot was freed before it had read what to call finds NULL there. */
  lemma FreedThreadEntersNull(s0: State, s: State, h: Handle)
    requires From(s0, s) && Freed(s, h) && InStage(s, h, Keyed) && s.cells[h.i].body == NO_BODY
    ensures From(s0, EnterRunningStep(s, h)) && EnterRunningStep(s, h).threads[h].got == Some(NO_BODY)
  {
    EnterTask(s0, s, h);
  }

  // ---------- From the initial state ----------

  const TASK_A: Handle := Handle(0, 1)
  const TASK_B: Handle := Handle(1, 1)

  ghost predicate AllIdle(s: State) { forall c :: c in s.pc ==> s.pc[c].Idle? }

  /** The first task runs; everybody else is outside the API, every other slot free and new. */
  ghost predicate OneRuns(s: State, n: nat)
  {
    && SlotOneFree(s, n) && s.hdrs[0].gen == 1 && !s.cells[0].joined && InStage(s, TASK_A, Active)
  }

  lemma FirstTask(n: nat, rt: Rt) returns (r: State)
    requires 2 <= n <= MAX_POOL
    ensures From(Init(n, rt), r) && OneRuns(r, n)
  {
    var s := Init(n, rt);
    InitHasInv(n, rt);
    FromItself(s);
    assert FirstFree(s.hdrs) == 0;
    MakeTask(s, s, Foreign(0), FreshTask(s.hdrs));
    var s1 := Made(s, Foreign(0), FreshTask(s.hdrs));
    EnterTask(s, s1, TASK_A);
    r := EnterRunningStep(s1, TASK_A);
  }

  /** A second task has been created; its thread has not read what to call. */
  ghost predicate TwoMade(s: State, r: State, n: nat, stage: Stage)
  {
    && |r.hdrs| == n == |r.cells| && |s.hdrs| == n == |s.cells| && 2 <= n && r.hdrs[0] == s.hdrs[0] && r.cells[0] == s.cells[0]
    && TASK_A in s.threads && TASK_A in r.threads && r.threads[TASK_A] == s.threads[TASK_A]
    && r.hdrs[1].inUse && r.hdrs[1].gen == 1 && !r.cells[1].joined && InStage(r, TASK_B, stage) && AllIdle(r)
  }

  lemma SecondTask(s0: State, s: State, n: nat) returns (r: State)
    requires From(s0, s) && SlotOneFree(s, n)
    ensures From(s0, r) && TwoMade(s, r, n, Keyed)
  {
    FirstFreeIsUnique(s.hdrs, 1);
    MakeTask(s0, s, Foreign(0), FreshTask(s.hdrs));
    r := SecondEffect(s, n, FreshTask(s.hdrs));
  }

  ghost predicate SlotOneFree(s: State, n: nat)
  {
    && 2 <= n == |s.hdrs| == |s.cells| <= MAX_POOL && s.hdrs[0].inUse && !s.hdrs[1].inUse && s.hdrs[1].gen == 0
    && TASK_A in s.threads && AllIdle(s)
  }

  lemma SecondEffect(s: State, n: nat, req: TaskRequest) returns (r: State)
    requires SlotOneFree(s, n) && FirstFree(s.hdrs) == 1 && TaskCreateStatus(s.hdrs, req) == Success
    ensures r == Made(s, Foreign(0), req) && TwoMade(s, r, n, Keyed)
  {
    r := Made(s, Foreign(0), req);
    assert NextHandle(s) == TASK_B != TASK_A;
  }

  lemma SecondEnters(s0: State, s1: State, s: State, n: nat) returns (r: State)
    requires From(s0, s) && TwoMade(s1, s, n, Keyed)
    ensures From(s0, r) && TwoMade(s1, r, n, Active)
  {
    EnterTask(s0, s, TASK_B);
    r := EnterEffect(s1, s, n);
  }

  lemma EnterEffect(s1: State, s: State, n: nat) returns (r: State)
    requires TwoMade(s1, s, n, Keyed)
    ensures r == EnterRunningStep(s, TASK_B) && TwoMade(s1, r, n, Active)
  {
    r := EnterRunningStep(s, TASK_B);
  }

  /** What the invariant says of a slot whose task has a thread. */
  lemma Stored(s: State, i: nat)
    requires Inv(s) && i < |s.hdrs| && s.hdrs[i].inUse && Current(s, i) in s.threads
    ensures s.cells[i].thread == Some(Current(s, i)) && !BeingMade(s, i) && Lookup(s.hdrs, TYPE_TASK, s.hdrs[i].id) == Some(i)
    ensures !s.cells[i].joined ==> !WasReaped(s, Current(s, i))
    ensures IsCurrent(s, Current(s, i))
  {
    Facts(s, Foreign(0), i);
    LookupFindsOwnId(s.hdrs, TYPE_TASK, i);
  }

  /** A Join by c claims the task in slot i. */
  lemma ClaimEffect(s: State, c: Caller, i: nat) returns (r: State)
    requires Shaped(s) && CanCall(s, c) && i < |s.hdrs| && !s.cells[i].joined && Current(s, i) in s.threads && c != Task(Current(s, i))
    requires s.cells[i].thread == Some(Current(s, i)) && !BeingMade(s, i) && Lookup(s.hdrs, TYPE_TASK, s.hdrs[i].id) == Some(i)
    ensures var a := JoinClaim(c, s.hdrs[i].id, false); Allowed(s, a) && r == Step(s, a)
    ensures r == UpdateCell(s, i, s.cells[i].(joined := true), c, Joining(i, s.hdrs[i].gen, Current(s, i)))
  {
    r := JoinClaimStep(s, c, s.hdrs[i].id, false);
  }

  /** The first task joins the second. */
  lemma FirstJoinsSecond(s0: State, s1: State, s: State, n: nat, stage: Stage) returns (r: State)
    requires From(s0, s) && OneRuns(s1, n) && TwoMade(s1, s, n, stage) && stage != Reaped
    ensures From(s0, r) && Waits(r, TASK_A, TASK_B, Foreign(0), Foreign(1)) && r.hdrs == s.hdrs && r.threads == s.threads
  {
    Stored(s, 0);
    Stored(s, 1);
    r := JoinPairEffect(s, n, stage);
    On(s0, s, JoinClaim(Task(TASK_A), s.hdrs[1].id, false));
  }

  lemma JoinPairEffect(s: State, n: nat, stage: Stage) returns (r: State)
    requires Shaped(s) && 2 <= n == |s.hdrs| && AllIdle(s) && InStage(s, TASK_A, Active) && InStage(s, TASK_B, stage) && stage != Reaped
    requires IsCurrent(s, TASK_A) && !s.cells[0].joined && Current(s, 1) == TASK_B && !s.cells[1].joined
    requires s.cells[1].thread == Some(TASK_B) && !BeingMade(s, 1) && Lookup(s.hdrs, TYPE_TASK, s.hdrs[1].id) == Some(1)
    ensures var a := JoinClaim(Task(TASK_A), s.hdrs[1].id, false); Allowed(s, a) && r == Step(s, a)
    ensures Waits(r, TASK_A, TASK_B, Foreign(0), Foreign(1)) && r.hdrs == s.hdrs && r.threads == s.threads
  {
    r := ClaimEffect(s, Task(TASK_A), 1);
  }

  /** The second task's slot is freed, as far as its thread has come by then. */
  lemma SecondIsFreed(n: nat, rt: Rt, entered: bool) returns (r: State)
    requires 2 <= n <= MAX_POOL
    ensures From(Init(n, rt), r) && Freed(r, TASK_B) && InStage(r, TASK_B, if entered then Active else Keyed)
    ensures |r.hdrs| == n && FirstFree(r.hdrs) == 1 && r.cells[1].body == NO_BODY
    ensures At(r, Task(TASK_B)).Idle? && CanCall(r, Foreign(1))
  {
    var s0 := Init(n, rt);
    var s1 := FirstTask(n, rt);
    var s2 := SecondTask(s0, s1, n);
    var s4;
    if entered {
      var s3 := SecondEnters(s0, s1, s2, n);
      s4 := FirstJoinsSecond(s0, s1, s3, n, Active);
    } else {
      s4 := FirstJoinsSecond(s0, s1, s2, n, Keyed);
    }
    r := PairIsParted(s0, s4, n, if entered then Active else Keyed);
  }

  lemma PairIsParted(s0: State, s: State, n: nat, stage: Stage) returns (r: State)
    requires From(s0, s) && Waits(s, TASK_A, TASK_B, Foreign(0), Foreign(1)) && 2 <= n == |s.hdrs| && InStage(s, TASK_B, stage)
    ensures From(s0, r) && Freed(r, TASK_B) && InStage(r, TASK_B, stage)
    ensures |r.hdrs| == n && FirstFree(r.hdrs) == 1 && r.cells[1].body == NO_BODY
    ensures At(r, Task(TASK_B)).Idle? && CanCall(r, Foreign(1))
  {
    r := CancelledJoinerLosesTheSlot(s0, s, TASK_A, TASK_B, Foreign(0), Foreign(1));
    FirstFreeIsUnique(r.hdrs, 1);
  }

  /** Every pool of two or more slots has, from its start, a run in contract that loses a running task. */
  lemma ARunningTaskCanBeLost(n: nat, rt: Rt)
    requires 2 <= n <= MAX_POOL
    ensures exists s :: Leads(Init(n, rt), s) && FreedRunning(s, TASK_B)
  {
    var s := SecondIsFreed(n, rt, true);
    assert Leads(Init(n, rt), s) && FreedRunning(s, TASK_B);
  }

  /** And one after which a task is running while its slot says that it has exited. */
  lemma ARunningTaskCanBeMisreported(n: nat, rt: Rt)
    requires 2 <= n <= MAX_POOL
    ensures exists s :: Leads(Init(n, rt), s) && Misreports(s, 1)
  {
    var s := SecondIsFreed(n, rt, true);
    var r := ZombieMisreports(Init(n, rt), s, TASK_B, Foreign(1));
    assert Leads(Init(n, rt), r) && Misreports(r, 1);
  }

  /** And one in which a task's thread calls NULL instead of its entry function. */
  lemma ATaskCanCallNull(n: nat, rt: Rt)
    requires 2 <= n <= MAX_POOL
    ensures exists s :: Leads(Init(n, rt), s) && InStage(s, TASK_B, Active) && s.threads[TASK_B].got == Some(NO_BODY)
  {
    var s := SecondIsFreed(n, rt, false);
    FreedThreadEntersNull(Init(n, rt), s, TASK_B);
    var r := EnterRunningStep(s, TASK_B);
    assert Leads(Init(n, rt), r) && InStage(r, TASK_B, Active) && r.threads[TASK_B].got == Some(NO_BODY);
  }

  // ---------- A stranger is refused ----------

  /** The first task ends and is joined. */
  lemma FirstIsJoined(s0: State, s: State, n: nat) returns (r: State)
    requires From(s0, s) && OneRuns(s, n)
    ensures From(s0, r) && r.hdrs == s.hdrs && SlotOneFree(r, n) && r.cells[0].joined && WasReaped(r, TASK_A)
  {
    var j := Foreign(0);
    Stored(s, 0);
    var s1 := PendingEffect(s, j, n);
    On(s0, s, JoinClaim(j, s.hdrs[0].id, false));
    r := FirstEnds(s0, s1, j, n);
  }

  lemma PendingEffect(s: State, j: Caller, n: nat) returns (r: State)
    requires OneRuns(s, n) && j.Foreign? && s.cells[0].thread == Some(TASK_A) && !BeingMade(s, 0)
    requires Lookup(s.hdrs, TYPE_TASK, s.hdrs[0].id) == Some(0)
    ensures var a := JoinClaim(j, s.hdrs[0].id, false); Allowed(s, a) && r == Step(s, a)
    ensures JoinPending(r, j, n) && r.hdrs == s.hdrs
  {
    r := ClaimEffect(s, j, 0);
  }

  lemma FirstEnds(s0: State, s: State, j: Caller, n: nat) returns (r: State)
    requires From(s0, s) && JoinPending(s, j, n)
    ensures From(s0, r) && r.hdrs == s.hdrs && SlotOneFree(r, n) && r.cells[0].joined && WasReaped(r, TASK_A)
  {
    var s1, s2;
    s1, s2, r := JoinEffect(s, j, n);
    On(s0, s, Finish(TASK_A));
    On(s0, s1, Cleanup(TASK_A));
    On(s0, s2, JoinReturns(j, true));
  }

  /** A thread j outside the pool waits for the first task; nothing else is going on. */
  ghost predicate JoinPending(s: State, j: Caller, n: nat)
  {
    && 2 <= n == |s.hdrs| == |s.cells| <= MAX_POOL && s.cells[0].joined && InStage(s, TASK_A, Active)
    && j in s.pc && s.pc[j] == Joining(0, 1, TASK_A) && j.Foreign? && AllIdle(s.(pc := s.pc - {j}))
    && s.hdrs[0].inUse && !s.hdrs[1].inUse && s.hdrs[1].gen == 0
  }

  lemma JoinEffect(s: State, j: Caller, n: nat) returns (s1: State, s2: State, r: State)
    requires JoinPending(s, j, n)
    ensures s1 == Step(s, Finish(TASK_A)) && Shaped(s1) && s2 == Step(s1, Cleanup(TASK_A)) && Shaped(s2) && r == Step(s2, JoinReturns(j, true))
    ensures r.hdrs == s.hdrs && SlotOneFree(r, n) && r.cells[0].joined && WasReaped(r, TASK_A)
  {
    s1, s2 := EndEffect(s, j, n);
    r := JoinReturnsStep(s2, j, true);
    assert Step(s2, JoinReturns(j, true)) == r;
    assert forall c :: c in r.pc && c != j ==> c in s.pc - {j} && r.pc[c] == s.pc[c];
  }

  lemma EndEffect(s: State, j: Caller, n: nat) returns (s1: State, s2: State)
    requires JoinPending(s, j, n)
    ensures s1 == Step(s, Finish(TASK_A)) && Shaped(s1) && s2 == Step(s1, Cleanup(TASK_A))
    ensures s2.hdrs == s.hdrs && s2.pc == s.pc && |s2.cells| == n && s2.cells[0].joined && InStage(s2, TASK_A, Terminated)
  {
    assert At(s, Task(TASK_A)).Idle? by { assert Task(TASK_A) in s.pc ==> Task(TASK_A) in s.pc - {j}; }
    s1 := SetStage(s, TASK_A, Ending);
    assert Step(s, Finish(TASK_A)) == s1;
    s2 := CleanupStep(s1, TASK_A);
    assert Step(s1, Cleanup(TASK_A)) == s2;
  }

  /** Caller c, which is not the task in slot i, has just been refused its Delete with INVALID_PARAM. */
  ghost predicate RefusesStranger(s: State, c: Caller, i: nat)
  {
    && i < |s.hdrs| == |s.cells| && s.hdrs[i].inUse && s.cells[i].joined && WasReaped(s, Current(s, i))
    && c != Task(Current(s, i)) && At(s, c) == Idle(InvalidParam)
  }

  /**
   * So there is a run in contract in which the documented sequence fails: a task is joined, another
   * one is created, whose thread happens to get the same pthread_t, and its Delete of the first is
   * refused.
   */
  lemma AStrangerCanBeRefused(n: nat, rt: Rt)
    requires 2 <= n <= MAX_POOL
    ensures exists s :: Leads(Init(n, rt), s) && RefusesStranger(s, Task(TASK_B), 0)
  {
    var s0 := Init(n, rt);
    var s1 := FirstTask(n, rt);
    var s2 := FirstIsJoined(s0, s1, n);
    var s3 := SecondTask(s0, s2, n);
    var s4 := SecondEnters(s0, s2, s3, n);
    Stored(s4, 0);
    var r := RefusalEffect(s4, Task(TASK_B), 0);
    On(s0, s4, DeleteClaim(Task(TASK_B), s4.hdrs[0].id, true));
    assert Leads(s0, r) && RefusesStranger(r, Task(TASK_B), 0);
  }

  lemma RefusalEffect(s: State, c: Caller, i: nat) returns (r: State)
    requires Shaped(s) && CanCall(s, c) && i < |s.hdrs| && s.hdrs[i].inUse && s.cells[i].joined && c != Task(Current(s, i))
    requires WasReaped(s, Current(s, i)) && s.cells[i].thread == Some(Current(s, i)) && !BeingMade(s, i)
    requires Lookup(s.hdrs, TYPE_TASK, s.hdrs[i].id) == Some(i)
    ensures var a := DeleteClaim(c, s.hdrs[i].id, true); Allowed(s, a) && r == Step(s, a) && RefusesStranger(r, c, i)
  {
    r := DeleteClaimStep(s, c, s.hdrs[i].id, true);
  }
}
