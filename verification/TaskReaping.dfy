/** Who reaps a task's thread: never twice, and not at all exactly when a claim was lost. */
module TaskReaping {
  import opened Common
  import opened Ids
  import opened Table
  import opened Priority
  import opened TaskModel
  import opened TaskProperties

  // ---------- At most one pthread_join per generation, whatever the callers do ----------

  /** The generation for which an action commits to calling pthread_join. */
  ghost function ClaimOf(s: State, a: Action): Option<Handle>
    requires Shaped(s)
  {
    if !Enabled(s, a) || !(a.JoinClaim? || a.DeleteClaim?) then None
    else
      match Lookup(s.hdrs, TYPE_TASK, a.id)
      case None => None
      case Some(i) =>
        if s.cells[i].joined || a.same then None else Some(Handle(i, s.hdrs[i].gen))
  }

  /** All claims of a run, in order. */
  ghost function Claims(s: State, run: seq<Action>): seq<Handle>
    requires Shaped(s)
    decreases |run|
  {
    if run == [] then []
    else
      var rest := Claims(Step(s, run[0]), run[1..]);
      match ClaimOf(s, run[0]) case None => rest case Some(h) => [h] + rest
  }

  /** Generation h can still be claimed: it lies ahead, or it is there and unclaimed. */
  ghost predicate Claimable(s: State, h: Handle)
    requires Shaped(s)
  {
    h.i < |s.hdrs| &&
    (s.hdrs[h.i].gen < h.gen || (s.hdrs[h.i].gen == h.gen && s.hdrs[h.i].inUse && !s.cells[h.i].joined))
  }

  lemma ClaimNeedsClaimable(s: State, a: Action)
    requires Shaped(s) && ClaimOf(s, a).Some?
    ensures Claimable(s, ClaimOf(s, a).value) && !Claimable(Step(s, a), ClaimOf(s, a).value)
  {
  }

  /** What is claimable after a step was claimable before it. */
  lemma ClaimableBackwards(s: State, a: Action, h: Handle)
    requires Shaped(s) && Claimable(Step(s, a), h)
    ensures Claimable(s, h)
  {
    if a.Create? || a.CreateUndo? || a.DeleteFree? {
      OnlyCreateBegins(s, a, h.i);
    } else {
      ClaimsStayTaken(s, a, h.i);
    }
  }

  lemma OnlyCreateBegins(s: State, a: Action, i: nat)
    requires Shaped(s) && i < |s.hdrs| && (a.Create? || a.CreateUndo? || a.DeleteFree?)
    ensures var s' := Step(s, a);
            || s'.hdrs[i].gen == s.hdrs[i].gen + 1
            || (s'.hdrs[i].gen == s.hdrs[i].gen && (s'.hdrs[i].inUse ==> s.hdrs[i].inUse && s'.cells[i].joined == s.cells[i].joined))
  {
  }

  lemma ClaimsStayTaken(s: State, a: Action, i: nat)
    requires Shaped(s) && i < |s.hdrs| && !(a.Create? || a.CreateUndo? || a.DeleteFree?)
    ensures Step(s, a).hdrs == s.hdrs && (s.cells[i].joined ==> Step(s, a).cells[i].joined)
  {
  }

  lemma {:induction false} ClaimsAreClaimable(s: State, run: seq<Action>, h: Handle)
    requires Shaped(s) && h in Claims(s, run)
    ensures Claimable(s, h)
    decreases |run|
  {
    var a := run[0];
    if ClaimOf(s, a) == Some(h) {
      ClaimNeedsClaimable(s, a);
    } else {
      ClaimsAreClaimable(Step(s, a), run[1..], h);
      ClaimableBackwards(s, a, h);
    }
  }

  /**
   * Reap-once. In every interleaving of calls, in contract or not, Join and Delete together
   * commit to at most one pthread_join for each generation of each slot.
   */
  lemma {:induction false} ReapAtMostOnce(s: State, run: seq<Action>)
    requires Shaped(s)
    ensures NoRepeats(Claims(s, run))
    decreases |run|
  {
    if run != [] {
      var s1 := Step(s, run[0]);
      var rest := Claims(s1, run[1..]);
      ReapAtMostOnce(s1, run[1..]);
      match ClaimOf(s, run[0])
      case None =>
        assert Claims(s, run) == rest;
      case Some(h) =>
        ClaimNeedsClaimable(s, run[0]);
        if h in rest { ClaimsAreClaimable(s1, run[1..], h); }
        Prepend(h, rest);
        assert Claims(s, run) == [h] + rest;
    }
  }

  ghost predicate NoRepeats(claims: seq<Handle>)
  {
    forall j, k :: 0 <= j < k < |claims| ==> claims[j] != claims[k]
  }

  lemma Prepend(h: Handle, rest: seq<Handle>)
    requires NoRepeats(rest) && h !in rest
    ensures NoRepeats([h] + rest)
  {
  }

  // ---------- At most one pthread_join per native thread ----------

  /** The native thread that an action commits to passing to pthread_join: the stored pthread_t. */
  ghost function JoinOf(s: State, a: Action): Option<Handle>
    requires Shaped(s)
  {
    if ClaimOf(s, a).None? then None else Some(ThreadOf(s.cells[Lookup(s.hdrs, TYPE_TASK, a.id).value]))
  }

  ghost function Joins(s: State, run: seq<Action>): seq<Handle>
    requires Shaped(s)
    decreases |run|
  {
    if run == [] then []
    else
      var rest := Joins(Step(s, run[0]), run[1..]);
      match JoinOf(s, run[0]) case None => rest case Some(h) => [h] + rest
  }

  lemma JoinsOwnGeneration(s: State, a: Action)
    requires Inv(s) && Allowed(s, a)
    ensures JoinOf(s, a) == ClaimOf(s, a)
  {
    if ClaimOf(s, a).Some? { StoredThreadIff(s, Lookup(s.hdrs, TYPE_TASK, a.id).value); }
  }

  lemma {:induction false} JoinsAreClaims(s: State, run: seq<Action>)
    requires Inv(s) && InContract(s, run)
    ensures Joins(s, run) == Claims(s, run)
    decreases |run|
  {
    if run != [] {
      JoinsOwnGeneration(s, run[0]);
      StepKeepsInv(s, run[0]);
      JoinsAreClaims(Step(s, run[0]), run[1..]);
    }
  }

  /** Over every run in contract, no native thread is passed to pthread_join twice. */
  lemma EachThreadJoinedOnce(n: nat, rt: Rt, run: seq<Action>)
    requires 0 < n <= MAX_POOL && InContract(Init(n, rt), run)
    ensures NoRepeats(Joins(Init(n, rt), run))
  {
    InitHasInv(n, rt);
    JoinsAreClaims(Init(n, rt), run);
    ReapAtMostOnce(Init(n, rt), run);
  }

  /**
   * The rule that an id is used only once its Create has returned is needed for that: a Join before
   * then takes the claim of the new task and goes on to pthread_join an older thread, which has
   * been joined already, or whose claim was lost.
   */
  lemma JoinBeforeCreateReturns(s: State, c: Caller, id: u32)
    requires Inv(s) && Enabled(s, JoinClaim(c, id, false)) && Lookup(s.hdrs, TYPE_TASK, id).Some?
    requires BeingMade(s, Lookup(s.hdrs, TYPE_TASK, id).value)
    ensures var i := Lookup(s.hdrs, TYPE_TASK, id).value;
            var p := At(JoinClaimStep(s, c, id, false), c);
            && p.Joining? && p.h != Current(s, i)
            && (s.cells[i].thread.Some? ==> p.h in s.threads && (WasReaped(s, p.h) || p.h in s.lost))
  {
    var i := Lookup(s.hdrs, TYPE_TASK, id).value;
    Facts(s, c, i);
    StoredThreadIff(s, i);
    if s.cells[i].thread.Some? { assert ThreadOk(s, ThreadOf(s.cells[i])); }
  }

  // ---------- Lost claims ----------

  /** An action by which the claim on generation h ends, or is taken, without a reap. */
  ghost predicate LosesClaim(s: State, a: Action, h: Handle)
    requires Shaped(s) && Enabled(s, a)
  {
    match a
    case JoinReturns(c, ok) => !ok && h == Handle(At(s, c).i, At(s, c).gen)
    case DeleteJoinReturns(c, rc) => rc != NativeOk && h == Handle(At(s, c).i, At(s, c).gen)
    case Abandon(c) => h == Handle(At(s, c).i, At(s, c).gen)
    case Finish(g) => InNativeJoin(At(s, Task(g))) && h == Handle(At(s, Task(g)).i, At(s, Task(g)).gen)
    case DeleteClaim(c, id, same) =>
      (match Lookup(s.hdrs, TYPE_TASK, id)
       case None => false
       case Some(i) => same && !s.cells[i].joined && h == Handle(i, s.hdrs[i].gen))
    case _ => false
  }

  lemma LostIff(s: State, a: Action, h: Handle)
    requires Shaped(s) && Enabled(s, a)
    ensures h in Apply(s, a).lost <==> h in s.lost || LosesClaim(s, a, h)
  {
  }

  /**
   * Over every run in contract, a Delete that frees a slot frees it under a thread that nobody has
   * joined if and only if the claim on that generation was lost: its Join or Delete failed in
   * pthread_join or was cancelled there, or the task had tried to delete itself.
   */
  lemma FreesUnreapedIff(n: nat, rt: Rt, run: seq<Action>, c: Caller)
    requires 0 < n <= MAX_POOL && InContract(Init(n, rt), run) && Enabled(Exec(Init(n, rt), run), DeleteFree(c))
    ensures var s := Exec(Init(n, rt), run);
            var h, r := Handle(At(s, c).i, At(s, c).gen), DeleteFreeStep(s, c);
            && h.i < n && !r.hdrs[h.i].inUse && h in r.threads
            && (!WasReaped(r, h) <==> h in s.lost) && (Freed(r, h) <==> h in s.lost)
  {
    Reached(n, rt, run);
    var s := Exec(Init(n, rt), run);
    CallerUsesOwnThread(s, c);
    assert CallerOk(s, c);
  }

  ghost predicate NothingLost(s: State, run: seq<Action>)
    requires Shaped(s)
    decreases |run|
  {
    run == [] || ((Enabled(s, run[0]) ==> forall h :: !LosesClaim(s, run[0], h)) && NothingLost(Step(s, run[0]), run[1..]))
  }

  lemma {:induction false} NothingLostNothingHaunted(s: State, run: seq<Action>)
    requires Shaped(s) && s.lost == {} && NothingLost(s, run)
    ensures Exec(s, run).lost == {}
    decreases |run|
  {
    if run != [] {
      var s1 := Step(s, run[0]);
      if Enabled(s, run[0]) {
        forall h ensures h !in s1.lost { LostIff(s, run[0], h); }
      }
      assert s1.lost == {};
      NothingLostNothingHaunted(s1, run[1..]);
    }
  }

  /** So over a run in which no claim is lost, every slot's state is right and only joined threads are freed. */
  lemma CleanRuns(n: nat, rt: Rt, run: seq<Action>, i: nat)
    requires 0 < n <= MAX_POOL && InContract(Init(n, rt), run) && NothingLost(Init(n, rt), run) && i < n
    ensures var s := Exec(Init(n, rt), run);
            && s.cells[i].state == StateOf(s, i)
            && forall h :: h in s.threads && h.i == i && !(s.hdrs[i].inUse && s.hdrs[i].gen == h.gen) ==> WasReaped(s, h)
  {
    Reached(n, rt, run);
    NothingLostNothingHaunted(Init(n, rt), run);
    var s := Exec(Init(n, rt), run);
    Facts(s, Foreign(0), i);
  }

  // ---------- A Delete that finds the claim taken ----------

  /** Delete by c, uninterrupted, when pthread_equal tells c apart and the claim is already taken. */
  ghost function DeleteTaken(s: State, c: Caller, id: u32): State
    requires Shaped(s)
  {
    Step(Step(s, DeleteClaim(c, id, false)), DeleteFree(c))
  }

  /** A call that has claimed the task in slot i and has not come back from joining it. */
  predicate IsReaping(p: Pc, i: nat) { (p.Joining? || p.Cancelling? || p.Reaping?) && p.i == i }

  ghost predicate BeingReaped(s: State, i: nat) { exists d :: IsReaping(At(s, d), i) }

  /**
   * A Delete that pthread_equal does not stop reaps before it frees, except when it finds the claim
   * taken: then it frees at once. In every state with the invariant, whatever else is going on, that
   * frees a slot whose thread nobody has joined if and only if the claim was lost, or a Join or
   * another Delete has it and has not come back from the native join.
   */
  lemma DeleteFreesUnjoinedIff(s: State, c: Caller, id: u32)
    requires Inv(s) && Enabled(s, DeleteClaim(c, id, false)) && Lookup(s.hdrs, TYPE_TASK, id).Some?
    ensures var i, r := Lookup(s.hdrs, TYPE_TASK, id).value, DeleteTaken(s, c, id);
            var h := Current(s, i);
            && (s.cells[i].joined <==> !r.hdrs[i].inUse) && r.threads == s.threads && r.lost == s.lost
            && (!r.hdrs[i].inUse && !WasReaped(r, h) <==> h in s.lost || BeingReaped(s, i))
  {
    var i := Lookup(s.hdrs, TYPE_TASK, id).value;
    Facts(s, c, i);
    DeleteTakenEffect(s, c, id);
    if BeingReaped(s, i) {
      var d :| IsReaping(At(s, d), i);
      assert Ends(At(s, d), i) && CallerOk(s, d);
    } else if BeingEnded(s, i) {
      var d :| Ends(At(s, d), i);
      assert CallerOk(s, d);
    }
  }

  lemma DeleteTakenEffect(s: State, c: Caller, id: u32)
    requires Shaped(s) && Enabled(s, DeleteClaim(c, id, false)) && Lookup(s.hdrs, TYPE_TASK, id).Some?
    ensures var i, r := Lookup(s.hdrs, TYPE_TASK, id).value, DeleteTaken(s, c, id);
            (s.cells[i].joined <==> !r.hdrs[i].inUse) && r.threads == s.threads && r.lost == s.lost
  {
    var s1 := DeleteClaimStep(s, c, id, false);
    assert Step(s, DeleteClaim(c, id, false)) == s1;
    if At(s1, c).Freeing? {
      assert Step(s1, DeleteFree(c)) == DeleteFreeStep(s1, c);
    }
  }

  /**
   * A second Delete may also be in its last section when the first has freed the slot. It then acts on
   * the slot's present task if and only if the slot has been handed out a multiple of 255 times
   * since, so that the old id is in use again.
   */
  lemma LateFreeActsIff(s: State, c: Caller)
    requires Shaped(s) && Inside(s, c) && At(s, c).Freeing?
    requires var p := At(s, c);
             && p.id == IdOf(TYPE_TASK, p.i, p.gen) && 1 <= p.gen <= s.hdrs[p.i].gen && HeaderSound(s.hdrs[p.i], TYPE_TASK, p.i)
    ensures var p := At(s, c);
            DeleteFreeStep(s, c).hdrs != s.hdrs <==> s.hdrs[p.i].inUse && (s.hdrs[p.i].gen - p.gen) % 255 == 0
  {
    var p := At(s, c);
    var h := s.hdrs[p.i];
    PackIsInjective(TYPE_TASK, h.serial, p.i, TYPE_TASK, SerialOf(p.gen), p.i);
    SerialsAlias(p.gen, h.gen - p.gen);
    assert h.inUse && h.id == p.id ==> DeleteFreeStep(s, c).hdrs[p.i] != h;
  }

  // ---------- The self test ----------

  /**
   * AOS_TaskDelete compares pthread_self() with a stored pthread_t that may belong to a joined thread.
   * Over every run in contract, a caller that is not the task can be refused with INVALID_PARAM if
   * and only if the task's thread has been joined; the refusal changes nothing, so the slot stays in
   * use with its claim taken.
   */
  lemma StrangerIsRefusedIff(n: nat, rt: Rt, run: seq<Action>, c: Caller, id: u32)
    requires 0 < n <= MAX_POOL && InContract(Init(n, rt), run)
    requires var s := Exec(Init(n, rt), run);
             && CanCall(s, c) && Lookup(s.hdrs, TYPE_TASK, id).Some? && Allowed(s, DeleteClaim(c, id, true))
             && c != Task(Current(s, Lookup(s.hdrs, TYPE_TASK, id).value))
    ensures var s := Exec(Init(n, rt), run);
            var i, r := Lookup(s.hdrs, TYPE_TASK, id).value, DeleteClaimStep(s, c, id, true);
            && (Enabled(s, DeleteClaim(c, id, true)) <==> WasReaped(s, Current(s, i)))
            && At(r, c) == Idle(InvalidParam)
            && (WasReaped(s, Current(s, i)) ==> r.hdrs == s.hdrs && r.cells == s.cells && r.lost == s.lost && r.cells[i].joined)
  {
    Reached(n, rt, run);
    var s := Exec(Init(n, rt), run);
    var i := Lookup(s.hdrs, TYPE_TASK, id).value;
    StoredThreadIff(s, i);
    Facts(s, c, i);
  }

  /**
   * A task that deletes itself is refused, but its claim stays taken. The next Delete, by anybody
   * else, then frees its slot while it is still running.
   */
  lemma SelfDeleteLosesTheSlot(s: State, h: Handle, c: Caller)
    requires Inv(s) && CanCall(s, Task(h)) && !Freed(s, h) && !BeingEnded(s, h.i) && CanCall(s, c) && c != Task(h)
    ensures h.i < |s.hdrs|
    ensures var id := s.hdrs[h.i].id;
            var s1 := Step(s, DeleteClaim(Task(h), id, true));
            var r := DeleteTaken(s1, c, id);
            && Allowed(s, DeleteClaim(Task(h), id, true)) && Allowed(s1, DeleteClaim(c, id, false))
            && At(s1, Task(h)) == Idle(InvalidParam) && Freed(r, h) && h in r.threads && r.threads[h].stage == Active
  {
    OwnIdIsLive(s, h);
    LivingIsCurrent(s, h);
    Facts(s, Task(h), h.i);
    var id := s.hdrs[h.i].id;
    var s1 := DeleteClaimStep(s, Task(h), id, true);
    assert Step(s, DeleteClaim(Task(h), id, true)) == s1;
    DeleteClaimKeepsInv(s, Task(h), id, true);
    SelfDeleteEffect(s, h, id);
    DeleteFreesUnjoinedIff(s1, c, id);
  }

  lemma SelfDeleteEffect(s: State, h: Handle, id: u32)
    requires Inv(s) && CanCall(s, Task(h)) && Lookup(s.hdrs, TYPE_TASK, id) == Some(h.i) && h == Current(s, h.i)
    requires !BeingMade(s, h.i) && !BeingEnded(s, h.i) && Enabled(s, DeleteClaim(Task(h), id, true))
    ensures var s1 := DeleteClaimStep(s, Task(h), id, true);
            && At(s1, Task(h)) == Idle(InvalidParam) && s1.threads == s.threads && s1.hdrs == s.hdrs
            && h in s1.lost && s1.cells[h.i].joined && s1.cells[h.i].thread == Some(h)
            && !BeingMade(s1, h.i) && !BeingEnded(s1, h.i) && forall c :: c != Task(h) ==> At(s1, c) == At(s, c)
  {
    Facts(s, Task(h), h.i);
    SlotAfterMove(s, DeleteClaimStep(s, Task(h), id, true), h.i, Task(h));
  }
}
