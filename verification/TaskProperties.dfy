/** What every run of the task pool keeps, and what follows for its callers. */
module TaskProperties {
  import opened Common
  import opened Ids
  import opened Table
  import opened Priority
  import opened TaskModel

  // ---------- The invariant ----------

  function Current(s: State, i: nat): Handle
    requires i < |s.hdrs|
  {
    Handle(i, s.hdrs[i].gen)
  }

  function StateAt(stage: Stage): TaskState
  {
    match stage
    case Fresh => Starting
    case Keyed => Starting
    case Active => Running
    case Ending => Running
    case Terminated => Exited
    case Reaped => Exited
  }

  /** What the state field of slot i should say. */
  function StateOf(s: State, i: nat): TaskState
    requires i < |s.hdrs|
  {
    if !s.hdrs[i].inUse then Unused
    else if Current(s, i) in s.threads then StateAt(s.threads[Current(s, i)].stage)
    else Starting
  }

  /** The slot of thread h was freed although nobody had joined the thread: h still runs, or is a zombie. */
  ghost predicate Freed(s: State, h: Handle)
  {
    h in s.lost && h.i < |s.hdrs| && !(s.hdrs[h.i].inUse && s.hdrs[h.i].gen == h.gen)
  }

  /** That has happened to some thread of slot i; such a thread may still write the slot's state. */
  ghost predicate Haunted(s: State, i: nat) { exists h :: h in s.lost && h.i == i && Freed(s, h) }

  ghost predicate SlotOk(s: State, i: nat)
    requires |s.hdrs| == |s.cells| && i < |s.hdrs|
  {
    var hd, cell, h := s.hdrs[i], s.cells[i], Current(s, i);
    && (!hd.inUse ==>
          !cell.joined && !BeingMade(s, i) && !BeingEnded(s, i) && (h in s.threads ==> WasReaped(s, h) || h in s.lost))
    && (hd.inUse && h in s.threads ==>
          && cell.thread == Some(h) && !BeingMade(s, i)
          && (cell.joined <==> WasReaped(s, h) || h in s.lost || BeingEnded(s, i))
          && s.threads[h].prio == NativePriority(s.rt, cell.priority) && s.threads[h].given == cell.body)
    && (hd.inUse && h !in s.threads ==> !cell.joined && BeingMade(s, i) && !BeingEnded(s, i))
    && (hd.inUse ==> cell.priority <= LOWEST)
    && (cell.thread.Some? ==> cell.thread.value in s.threads && cell.thread.value.i == i)
    && (!Haunted(s, i) ==> cell.state == StateOf(s, i))
  }

  /** What the key of a thread should be. */
  function KeyOf(m: Native, h: Handle): u32
    requires h.i < MAX_POOL
  {
    if m.keySet then IdOf(TYPE_TASK, h.i, h.gen) else ID_NONE
  }

  /** The trampoline has read what to call. */
  predicate Entered(stage: Stage) { stage != Fresh && stage != Keyed }

  ghost predicate ThreadOk(s: State, h: Handle)
    requires h in s.threads
  {
    && h.i < |s.hdrs| <= MAX_POOL && 1 <= h.gen <= s.hdrs[h.i].gen
    && (h.gen < s.hdrs[h.i].gen ==> WasReaped(s, h) || h in s.lost)
    && (s.threads[h].stage != Fresh && !Freed(s, h) ==> s.threads[h].key == KeyOf(s.threads[h], h))
    && (Entered(s.threads[h].stage) && !Freed(s, h) ==> s.threads[h].got == Some(s.threads[h].given))
  }

  /** A thread that is to be joined: nobody has joined it, and its claim is not lost. */
  ghost predicate Unclaimed(s: State, h: Handle) { h in s.threads && !WasReaped(s, h) && h !in s.lost }

  ghost predicate CallerOk(s: State, c: Caller)
    requires |s.hdrs| == |s.cells|
  {
    var p := At(s, c);
    p.Idle? ||
    (p.i < |s.hdrs| && s.hdrs[p.i].inUse && s.hdrs[p.i].gen == p.gen &&
     var h := Handle(p.i, p.gen);
     match p
     case Building(i, _, priority, body) => h !in s.threads && s.cells[i].priority == priority && s.cells[i].body == body
     case Undoing(_, _, _) => h !in s.threads
     case Joining(_, _, t) => t == h && Unclaimed(s, h)
     case Cancelling(i, _, t, id) => t == h && Unclaimed(s, h) && id == s.hdrs[i].id
     case Reaping(i, _, t, id, _) => t == h && Unclaimed(s, h) && id == s.hdrs[i].id
     case Freeing(i, _, id) => h in s.threads && (WasReaped(s, h) || h in s.lost) && id == s.hdrs[i].id)
  }

  predicate Busy(p: Pc, i: nat) { Makes(p, i) || Ends(p, i) }

  ghost predicate OneBusy(s: State)
  {
    forall c, d, i :: Busy(At(s, c), i) && Busy(At(s, d), i) ==> c == d
  }

  ghost predicate Inv(s: State)
  {
    && 0 < |s.hdrs| == |s.cells| <= MAX_POOL
    && Sound(s.hdrs, TYPE_TASK)
    && NamesDistinct(s.hdrs)
    && (forall i :: 0 <= i < |s.hdrs| ==> SlotOk(s, i))
    && (forall h :: h in s.threads ==> ThreadOk(s, h))
    && (forall h :: h in s.lost ==> h in s.threads && !WasReaped(s, h))
    && (forall c :: CallerOk(s, c))
    && OneBusy(s)
  }

  /** A caller at this point takes part in nothing outside slot i. */
  predicate Local(p: Pc, i: nat) { p.Idle? || p.i == i }

  /** Only slot i, its threads and one caller may differ. */
  ghost predicate Touches(s: State, s': State, i: nat, c: Caller)
  {
    && i < |s.hdrs| == |s.cells| == |s'.hdrs| == |s'.cells| && s'.rt == s.rt
    && s'.hdrs == s.hdrs[i := s'.hdrs[i]] && s'.cells == s.cells[i := s'.cells[i]]
    && (forall d :: d != c ==> At(s', d) == At(s, d))
    && (At(s', c) == At(s, c) || (Local(At(s, c), i) && Local(At(s', c), i)))
    && (forall h: Handle :: h.i != i ==>
          && (h in s'.threads <==> h in s.threads) && (h in s.threads ==> s'.threads[h] == s.threads[h])
          && (h in s'.lost <==> h in s.lost))
  }

  lemma OtherSlotStaysOk(s: State, s': State, i: nat, c: Caller, j: nat)
    requires Touches(s, s', i, c) && j < |s.hdrs| && j != i && SlotOk(s, j)
    ensures SlotOk(s', j)
  {
    HauntedElsewhere(s, s', i, c, j);
    if BeingMade(s, j) {
      var d :| Makes(At(s, d), j);
      assert Makes(At(s', d), j);
    }
    if BeingMade(s', j) {
      var d :| Makes(At(s', d), j);
      assert Makes(At(s, d), j);
    }
    if BeingEnded(s, j) {
      var d :| Ends(At(s, d), j);
      assert Ends(At(s', d), j);
    }
    if BeingEnded(s', j) {
      var d :| Ends(At(s', d), j);
      assert Ends(At(s, d), j);
    }
  }

  lemma HauntedElsewhere(s: State, s': State, i: nat, c: Caller, j: nat)
    requires Touches(s, s', i, c) && j < |s.hdrs| && j != i
    ensures Haunted(s, j) <==> Haunted(s', j)
  {
    assert forall h: Handle :: h.i == j ==> (Freed(s, h) <==> Freed(s', h));
  }

  lemma OtherCallerStaysOk(s: State, s': State, i: nat, c: Caller, d: Caller)
    requires Touches(s, s', i, c) && At(s', d) == At(s, d) && CallerOk(s, d) && !Local(At(s, d), i)
    ensures CallerOk(s', d)
  {
  }

  lemma OneBusyAfterMove(s: State, s': State, i: nat, c: Caller)
    requires Touches(s, s', i, c) && OneBusy(s)
    requires Busy(At(s', c), i) && At(s', c) != At(s, c) ==> forall d :: d != c ==> !Busy(At(s, d), i)
    ensures OneBusy(s')
  {
  }

  lemma Preserved(s: State, s': State, i: nat, c: Caller)
    requires Inv(s) && Touches(s, s', i, c)
    requires s'.hdrs == s.hdrs || (HeaderSound(s'.hdrs[i], TYPE_TASK, i) && NamesDistinct(s'.hdrs))
    requires SlotOk(s', i) && (At(s', c) == At(s, c) || CallerOk(s', c))
    requires forall h :: h in s'.threads && h.i == i ==> ThreadOk(s', h)
    requires forall h :: h in s'.lost && h.i == i ==> h in s'.threads && !WasReaped(s', h)
    requires forall d :: Busy(At(s, d), i) && At(s', d) == At(s, d) ==> CallerOk(s', d)
    requires Busy(At(s', c), i) && At(s', c) != At(s, c) ==> forall d :: d != c ==> !Busy(At(s, d), i)
    ensures Inv(s')
  {
    forall j | 0 <= j < |s'.hdrs| ensures SlotOk(s', j) {
      if j != i { OtherSlotStaysOk(s, s', i, c, j); }
    }
    forall d ensures CallerOk(s', d) {
      if At(s', d) == At(s, d) && !Local(At(s, d), i) { OtherCallerStaysOk(s, s', i, c, d); }
    }
    forall h | h in s'.threads ensures ThreadOk(s', h) {
      if h.i != i { assert h in s.threads && ThreadOk(s, h); }
    }
    SoundAfterUpdate(s.hdrs, TYPE_TASK, i, s'.hdrs[i]);
    OneBusyAfterMove(s, s', i, c);
  }

  /** The facts about a slot, its threads and its callers. */
  lemma Facts(s: State, c: Caller, i: nat)
    requires Inv(s) && i < |s.hdrs|
    ensures SlotOk(s, i) && HeaderSound(s.hdrs[i], TYPE_TASK, i) && CallerOk(s, c)
    ensures Makes(At(s, c), i) ==> BeingMade(s, i)
    ensures Ends(At(s, c), i) ==> BeingEnded(s, i)
    ensures Busy(At(s, c), i) ==> forall d :: d != c ==> !Busy(At(s, d), i)
    ensures BeingMade(s, i) || BeingEnded(s, i) || forall d :: !Busy(At(s, d), i)
    ensures forall d :: Busy(At(s, d), i) ==> CallerOk(s, d)
    ensures forall h :: h in s.threads && h.i == i ==> ThreadOk(s, h)
    ensures forall h :: h in s.lost && h.i == i ==> h in s.threads && !WasReaped(s, h)
    ensures !Haunted(s, i) ==> forall h :: h in s.lost && h.i == i ==> s.hdrs[i].inUse && h.gen == s.hdrs[i].gen
    ensures Handle(i, s.hdrs[i].gen + 1) !in s.threads
  {
    assert Handle(i, s.hdrs[i].gen + 1) in s.threads ==> ThreadOk(s, Handle(i, s.hdrs[i].gen + 1));
  }

  /** BeingMade and BeingEnded after a move of c: c's own part, or what was there without c. */
  lemma SlotAfterMove(s: State, s': State, i: nat, c: Caller)
    requires forall d :: d != c ==> At(s', d) == At(s, d)
    requires Busy(At(s, c), i) ==> forall d :: d != c ==> !Busy(At(s, d), i)
    ensures BeingMade(s', i) <==> Makes(At(s', c), i) || (BeingMade(s, i) && !Makes(At(s, c), i))
    ensures BeingEnded(s', i) <==> Ends(At(s', c), i) || (BeingEnded(s, i) && !Ends(At(s, c), i))
  {
    if BeingMade(s', i) {
      var d :| Makes(At(s', d), i);
      assert d == c || Makes(At(s, d), i);
    }
    if BeingMade(s, i) && !Makes(At(s, c), i) {
      var d :| Makes(At(s, d), i);
      assert Makes(At(s', d), i);
    }
    if BeingEnded(s', i) {
      var d :| Ends(At(s', d), i);
      assert d == c || Ends(At(s, d), i);
    }
    if BeingEnded(s, i) && !Ends(At(s, c), i) {
      var d :| Ends(At(s, d), i);
      assert Ends(At(s', d), i);
    }
  }

  lemma ReturnKeepsInv(s: State, c: Caller, p: Pc)
    requires Inv(s) && At(s, c).Idle? && p.Idle?
    ensures Inv(Move(s, c, p))
  {
    var s' := Move(s, c, p);
    ReturnKeepsSlot(s, c, p, 0);
    ReturnKeepsOthers(s, c, p, 0);
    Preserved(s, s', 0, c);
  }

  lemma ReturnKeepsOthers(s: State, c: Caller, p: Pc, i: nat)
    requires Inv(s) && At(s, c).Idle? && p.Idle? && i < |s.hdrs|
    ensures var s' := Move(s, c, p);
            && (forall h :: h in s'.threads && h.i == i ==> ThreadOk(s', h))
            && (forall h :: h in s'.lost && h.i == i ==> h in s'.threads && !WasReaped(s', h))
            && (forall d :: Busy(At(s, d), i) && At(s', d) == At(s, d) ==> CallerOk(s', d))
  {
    Facts(s, c, i);
    assert forall h :: Freed(Move(s, c, p), h) <==> Freed(s, h);
  }

  lemma ReturnKeepsSlot(s: State, c: Caller, p: Pc, i: nat)
    requires Inv(s) && At(s, c).Idle? && p.Idle? && i < |s.hdrs|
    ensures SlotOk(Move(s, c, p), i)
  {
    var s' := Move(s, c, p);
    Facts(s, c, i);
    SlotAfterMove(s, s', i, c);
    assert forall h :: Freed(s', h) <==> Freed(s, h);
  }

  lemma CreateKeepsInv(s: State, c: Caller, req: TaskRequest)
    requires Inv(s) && CanCall(s, c)
    ensures Inv(CreateStep(s, c, req))
  {
    var s', i := CreateStep(s, c, req), FirstFree(s.hdrs);
    if TaskCreateStatus(s.hdrs, req) != Success {
      ReturnKeepsInv(s, c, At(s', c));
    } else {
      CreatedSlot(s, c, req);
      CreatedOthers(s, c, req);
      Facts(s, c, i);
      IssueIsSound(s.hdrs[i], TYPE_TASK, i, req.name.value, ID_NONE);
      Preserved(s, s', i, c);
    }
  }

  lemma CreatedOthers(s: State, c: Caller, req: TaskRequest)
    requires Inv(s) && CanCall(s, c) && TaskCreateStatus(s.hdrs, req) == Success
    ensures var s', i := CreateStep(s, c, req), FirstFree(s.hdrs);
            && (forall d :: !Busy(At(s, d), i)) && NamesDistinct(s'.hdrs)
            && forall h :: h in s'.threads && h.i == i ==> ThreadOk(s', h)
  {
    Facts(s, c, FirstFree(s.hdrs));
  }

  lemma CreatedSlot(s: State, c: Caller, req: TaskRequest)
    requires Inv(s) && CanCall(s, c) && TaskCreateStatus(s.hdrs, req) == Success
    ensures SlotOk(CreateStep(s, c, req), FirstFree(s.hdrs)) && CallerOk(CreateStep(s, c, req), c)
  {
    var s', i := CreateStep(s, c, req), FirstFree(s.hdrs);
    Facts(s, c, i);
    SlotAfterMove(s, s', i, c);
  }

  lemma CreateThreadKeepsInv(s: State, c: Caller)
    requires Inv(s) && Enabled(s, CreateThread(c))
    ensures Inv(CreateThreadStep(s, c))
  {
    var s', i := CreateThreadStep(s, c), At(s, c).i;
    Facts(s, c, i);
    SlotAfterMove(s, s', i, c);
    Preserved(s, s', i, c);
  }

  lemma CreateFailsKeepsInv(s: State, c: Caller, why: Failure)
    requires Inv(s) && Enabled(s, CreateFails(c, why))
    ensures Inv(CreateFailsStep(s, c, why))
  {
    var s', i := CreateFailsStep(s, c, why), At(s, c).i;
    Facts(s, c, i);
    SlotAfterMove(s, s', i, c);
    Preserved(s, s', i, c);
  }

  lemma CreateUndoKeepsInv(s: State, c: Caller)
    requires Inv(s) && Enabled(s, CreateUndo(c))
    ensures Inv(CreateUndoStep(s, c))
  {
    var s', i := CreateUndoStep(s, c), At(s, c).i;
    Facts(s, c, i);
    SlotAfterMove(s, s', i, c);
    Preserved(s, s', i, c);
  }

  /** A native thread moves on; the caller argument only names somebody who does not move. */
  lemma ThreadMoveKeepsInv(s: State, s': State, h: Handle)
    requires Inv(s) && h in s.threads && !WasReaped(s, h) && h.i < |s.hdrs|
    requires |s'.cells| == |s.cells| && s' == s.(threads := s'.threads, cells := s.cells[h.i := s'.cells[h.i]])
    requires h in s'.threads && s'.threads == s.threads[h := s'.threads[h]]
    requires !WasReaped(s', h) && SameGift(s.threads[h], s'.threads[h]) && ThreadOk(s', h)
    requires s'.cells[h.i] == s.cells[h.i].(state := s'.cells[h.i].state)
    requires !Haunted(s, h.i) ==> s'.cells[h.i].state == StateAt(s'.threads[h].stage)
    ensures Inv(s')
  {
    Facts(s, Task(h), h.i);
    MovedSlot(s, s', h);
    MovedThreads(s, s', h);
    Preserved(s, s', h.i, Task(h));
  }

  predicate SameGift(m: Native, n: Native) { m.prio == n.prio && m.given == n.given }

  lemma MovedThreads(s: State, s': State, h: Handle)
    requires Inv(s) && h in s.threads && h.i < |s.hdrs| && s'.hdrs == s.hdrs && s'.lost == s.lost
    requires h in s'.threads && s'.threads == s.threads[h := s'.threads[h]] && ThreadOk(s', h) && !WasReaped(s', h)
    ensures forall g :: g in s'.threads && g.i == h.i ==> ThreadOk(s', g)
    ensures forall g :: g in s'.lost && g.i == h.i ==> g in s'.threads && !WasReaped(s', g)
  {
    Facts(s, Task(h), h.i);
    assert forall g :: Freed(s', g) <==> Freed(s, g);
    assert forall g :: g in s.threads && g != h ==> s'.threads[g] == s.threads[g];
  }

  lemma MovedSlot(s: State, s': State, h: Handle)
    requires Inv(s) && h in s.threads && !WasReaped(s, h) && h.i < |s.hdrs|
    requires |s'.cells| == |s.cells| && s' == s.(threads := s'.threads, cells := s.cells[h.i := s'.cells[h.i]])
    requires h in s'.threads && s'.threads == s.threads[h := s'.threads[h]]
    requires !WasReaped(s', h) && SameGift(s.threads[h], s'.threads[h])
    requires s'.cells[h.i] == s.cells[h.i].(state := s'.cells[h.i].state)
    requires !Haunted(s, h.i) ==> s'.cells[h.i].state == StateAt(s'.threads[h].stage)
    ensures SlotOk(s', h.i)
  {
    Facts(s, Task(h), h.i);
    SlotAfterMove(s, s', h.i, Task(h));
    LivingIsCurrent(s, h);
    assert forall g :: Freed(s', g) <==> Freed(s, g);
    assert Haunted(s', h.i) <==> Haunted(s, h.i);
  }

  /** A thread that was not joined is the current one of its slot, unless the slot is haunted. */
  lemma LivingIsCurrent(s: State, h: Handle)
    requires Inv(s) && h in s.threads && !WasReaped(s, h)
    ensures h.i < |s.hdrs|
    ensures !Freed(s, h) ==> h == Current(s, h.i) && s.hdrs[h.i].inUse
    ensures Freed(s, h) ==> Haunted(s, h.i)
  {
    assert ThreadOk(s, h);
    Facts(s, Task(h), h.i);
  }

  lemma SetKeyKeepsInv(s: State, h: Handle, ok: bool)
    requires Inv(s) && Enabled(s, SetKey(h, ok))
    ensures Inv(SetKeyStep(s, h, ok))
  {
    LivingIsCurrent(s, h);
    Facts(s, Task(h), h.i);
    var s' := SetKeyStep(s, h, ok);
    assert Freed(s', h) <==> Freed(s, h);
    assert s'.cells == s.cells[h.i := s'.cells[h.i]];
    ThreadMoveKeepsInv(s, s', h);
  }

  lemma EnterRunningKeepsInv(s: State, h: Handle)
    requires Inv(s) && Enabled(s, EnterRunning(h))
    ensures Inv(EnterRunningStep(s, h))
  {
    LivingIsCurrent(s, h);
    Facts(s, Task(h), h.i);
    var s' := EnterRunningStep(s, h);
    assert Freed(s', h) <==> Freed(s, h);
    ThreadMoveKeepsInv(s, s', h);
  }

  lemma FinishKeepsInv(s: State, h: Handle)
    requires Inv(s) && Enabled(s, Finish(h))
    ensures Inv(FinishStep(s, h))
  {
    if InNativeJoin(At(s, Task(h))) {
      AbandonKeepsInv(s, Task(h));
      EndingKeepsInv(AbandonStep(s, Task(h)), h);
    } else {
      EndingKeepsInv(s, h);
    }
  }

  lemma EndingKeepsInv(s: State, h: Handle)
    requires Inv(s) && InStage(s, h, Active)
    ensures Inv(SetStage(s, h, Ending))
  {
    LivingIsCurrent(s, h);
    Facts(s, Task(h), h.i);
    var s' := SetStage(s, h, Ending);
    assert Freed(s', h) <==> Freed(s, h);
    assert s'.cells == s.cells[h.i := s'.cells[h.i]];
    ThreadMoveKeepsInv(s, s', h);
  }

  lemma CleanupKeepsInv(s: State, h: Handle)
    requires Inv(s) && Enabled(s, Cleanup(h))
    ensures Inv(CleanupStep(s, h))
  {
    LivingIsCurrent(s, h);
    Facts(s, Task(h), h.i);
    var s' := CleanupStep(s, h);
    assert Freed(s', h) <==> Freed(s, h);
    assert s'.cells == s.cells[h.i := s'.cells[h.i]];
    ThreadMoveKeepsInv(s, s', h);
  }

  /** A claim ends without a reap: the slot keeps its task, and the claim stays taken. */
  lemma AbandonKeepsInv(s: State, c: Caller)
    requires Inv(s) && InNativeJoin(At(s, c))
    ensures Inv(AbandonStep(s, c))
  {
    AbandonedSlot(s, c);
    CallerStepKeepsInv(s, AbandonStep(s, c), c, At(s, c).i);
  }

  lemma AbandonedSlot(s: State, c: Caller)
    requires Inv(s) && InNativeJoin(At(s, c))
    ensures var s', i := AbandonStep(s, c), At(s, c).i; SlotStep(s, s', c, i) && s.hdrs[i].inUse && Unclaimed(s, Current(s, i))
  {
    assert CallerOk(s, c);
    var s', i := AbandonStep(s, c), At(s, c).i;
    Facts(s, c, i);
    LostInUse(s, s', i);
    SlotAfterMove(s, s', i, c);
  }

  /** Losing the claim of the task that is in slot i does not haunt the slot. */
  lemma LostInUse(s: State, s': State, i: nat)
    requires i < |s.hdrs| && s.hdrs[i].inUse && s'.hdrs == s.hdrs && (s'.lost == s.lost + {Current(s, i)} || s'.lost == s.lost)
    ensures forall h :: Freed(s', h) <==> Freed(s, h)
    ensures Haunted(s', i) <==> Haunted(s, i)
  {
  }

  /** A caller changes the cell of a slot in use, and perhaps reaps or loses the slot's own thread. */
  ghost predicate SlotStep(s: State, s': State, c: Caller, i: nat)
  {
    && i < |s.hdrs| == |s.cells| == |s'.cells| && s'.hdrs == s.hdrs && s'.rt == s.rt
    && s'.cells == s.cells[i := s'.cells[i]] && s'.pc == s.pc[c := At(s', c)]
    && Local(At(s, c), i) && Local(At(s', c), i)
    && (s'.lost == s.lost || s'.lost == s.lost + {Current(s, i)})
    && (s'.threads == s.threads
        || (InStage(s, Current(s, i), Terminated) && s'.threads == s.threads[Current(s, i) := s.threads[Current(s, i)].(stage := Reaped)]))
    && SlotOk(s', i) && CallerOk(s', c)
  }

  lemma CallerStepKeepsInv(s: State, s': State, c: Caller, i: nat)
    requires Inv(s) && SlotStep(s, s', c, i) && s.hdrs[i].inUse
    requires Busy(At(s, c), i) || forall d :: !Busy(At(s, d), i)
    requires Current(s, i) in s'.lost ==> Current(s, i) in s'.threads && !WasReaped(s', Current(s, i))
    ensures Inv(s')
  {
    OthersAfterStep(s, s', c, i);
    assert forall h: Handle :: h.i != i ==> h != Current(s, i);
    Preserved(s, s', i, c);
  }

  lemma OthersAfterStep(s: State, s': State, c: Caller, i: nat)
    requires Inv(s) && SlotStep(s, s', c, i) && s.hdrs[i].inUse
    requires Busy(At(s, c), i) || forall d :: !Busy(At(s, d), i)
    requires Current(s, i) in s'.lost ==> Current(s, i) in s'.threads && !WasReaped(s', Current(s, i))
    ensures forall h :: h in s'.threads && h.i == i ==> ThreadOk(s', h)
    ensures forall h :: h in s'.lost && h.i == i ==> h in s'.threads && !WasReaped(s', h)
    ensures forall d :: Busy(At(s, d), i) ==> d == c
  {
    Facts(s, c, i);
    LostInUse(s, s', i);
  }

  lemma JoinClaimKeepsInv(s: State, c: Caller, id: u32, same: bool)
    requires Inv(s) && Enabled(s, JoinClaim(c, id, same)) && Allowed(s, JoinClaim(c, id, same))
    ensures Inv(JoinClaimStep(s, c, id, same))
  {
    var s' := JoinClaimStep(s, c, id, same);
    if At(s', c).Idle? {
      ReturnKeepsInv(s, c, At(s', c));
    } else {
      JoinClaimedSlot(s, c, id, same);
      CallerStepKeepsInv(s, s', c, Lookup(s.hdrs, TYPE_TASK, id).value);
    }
  }

  lemma JoinClaimedSlot(s: State, c: Caller, id: u32, same: bool)
    requires Inv(s) && Enabled(s, JoinClaim(c, id, same)) && Allowed(s, JoinClaim(c, id, same)) && At(JoinClaimStep(s, c, id, same), c).Joining?
    ensures var s', i := JoinClaimStep(s, c, id, same), Lookup(s.hdrs, TYPE_TASK, id).value;
            SlotStep(s, s', c, i) && forall d :: !Busy(At(s, d), i)
  {
    var s', i := JoinClaimStep(s, c, id, same), Lookup(s.hdrs, TYPE_TASK, id).value;
    Facts(s, c, i);
    LostInUse(s, s', i);
    SlotAfterMove(s, s', i, c);
  }

  lemma JoinReturnsKeepsInv(s: State, c: Caller, ok: bool)
    requires Inv(s) && Enabled(s, JoinReturns(c, ok))
    ensures Inv(JoinReturnsStep(s, c, ok))
  {
    if ok {
      JoinedSlot(s, c);
      CallerStepKeepsInv(s, JoinReturnsStep(s, c, true), c, At(s, c).i);
    } else {
      AbandonKeepsInv(s, c);
    }
  }

  lemma JoinedSlot(s: State, c: Caller)
    requires Inv(s) && Enabled(s, JoinReturns(c, true))
    ensures var s', i := JoinReturnsStep(s, c, true), At(s, c).i;
            SlotStep(s, s', c, i) && s.hdrs[i].inUse && Current(s, i) !in s'.lost
  {
    var s', i := JoinReturnsStep(s, c, true), At(s, c).i;
    Facts(s, c, i);
    LostInUse(s, s', i);
    SlotAfterMove(s, s', i, c);
  }

  lemma DeleteClaimKeepsInv(s: State, c: Caller, id: u32, same: bool)
    requires Inv(s) && Enabled(s, DeleteClaim(c, id, same)) && Allowed(s, DeleteClaim(c, id, same))
    ensures Inv(DeleteClaimStep(s, c, id, same))
  {
    var s', slot := DeleteClaimStep(s, c, id, same), Lookup(s.hdrs, TYPE_TASK, id);
    if slot.None? || (same && s.cells[slot.value].joined) {
      assert s'.cells == s.cells;
      ReturnKeepsInv(s, c, At(s', c));
    } else {
      DeleteClaimedSlot(s, c, id, same);
      CallerStepKeepsInv(s, s', c, slot.value);
    }
  }

  lemma DeleteClaimedSlot(s: State, c: Caller, id: u32, same: bool)
    requires Inv(s) && Enabled(s, DeleteClaim(c, id, same)) && Allowed(s, DeleteClaim(c, id, same)) && Lookup(s.hdrs, TYPE_TASK, id).Some?
    requires var cell := s.cells[Lookup(s.hdrs, TYPE_TASK, id).value]; !(same && cell.joined)
    ensures var s', i := DeleteClaimStep(s, c, id, same), Lookup(s.hdrs, TYPE_TASK, id).value;
            && SlotStep(s, s', c, i) && (forall d :: !Busy(At(s, d), i))
            && (Current(s, i) in s'.lost ==> Current(s, i) in s.threads && !WasReaped(s, Current(s, i)))
  {
    var s', i := DeleteClaimStep(s, c, id, same), Lookup(s.hdrs, TYPE_TASK, id).value;
    Facts(s, c, i);
    LostInUse(s, s', i);
    SlotAfterMove(s, s', i, c);
  }

  lemma NativeCancelKeepsInv(s: State, c: Caller, rc: NativeResult)
    requires Inv(s) && Enabled(s, NativeCancel(c, rc))
    ensures Inv(NativeCancelStep(s, c, rc))
  {
    var s', i := NativeCancelStep(s, c, rc), At(s, c).i;
    Facts(s, c, i);
    LostInUse(s, s', i);
    SlotAfterMove(s, s', i, c);
    CallerStepKeepsInv(s, s', c, i);
  }

  lemma DeleteJoinReturnsKeepsInv(s: State, c: Caller, rc: NativeResult)
    requires Inv(s) && Enabled(s, DeleteJoinReturns(c, rc))
    ensures Inv(DeleteJoinReturnsStep(s, c, rc))
  {
    ReapedSlot(s, c, rc);
    CallerStepKeepsInv(s, DeleteJoinReturnsStep(s, c, rc), c, At(s, c).i);
  }

  lemma ReapedSlot(s: State, c: Caller, rc: NativeResult)
    requires Inv(s) && Enabled(s, DeleteJoinReturns(c, rc))
    ensures var s', i := DeleteJoinReturnsStep(s, c, rc), At(s, c).i;
            && SlotStep(s, s', c, i) && s.hdrs[i].inUse
            && (Current(s, i) in s'.lost ==> Current(s, i) in s'.threads && !WasReaped(s', Current(s, i)))
  {
    if rc == NativeOk { ReapedByDelete(s, c); } else { LostByDelete(s, c, rc); }
  }

  lemma ReapedByDelete(s: State, c: Caller)
    requires Inv(s) && Enabled(s, DeleteJoinReturns(c, NativeOk))
    ensures var s', i := DeleteJoinReturnsStep(s, c, NativeOk), At(s, c).i;
            SlotStep(s, s', c, i) && s.hdrs[i].inUse && Current(s, i) !in s'.lost
  {
    var s', i := DeleteJoinReturnsStep(s, c, NativeOk), At(s, c).i;
    Facts(s, c, i);
    LostInUse(s, s', i);
    SlotAfterMove(s, s', i, c);
    assert Unclaimed(s, Current(s, i)) && s.cells[i].joined;
  }

  lemma LostByDelete(s: State, c: Caller, rc: NativeResult)
    requires Inv(s) && Enabled(s, DeleteJoinReturns(c, rc)) && rc != NativeOk
    ensures var s', i := DeleteJoinReturnsStep(s, c, rc), At(s, c).i;
            SlotStep(s, s', c, i) && s.hdrs[i].inUse && Unclaimed(s, Current(s, i)) && s'.threads == s.threads
  {
    var s', i := DeleteJoinReturnsStep(s, c, rc), At(s, c).i;
    Facts(s, c, i);
    LostInUse(s, s', i);
    SlotAfterMove(s, s', i, c);
  }

  lemma DeleteFreeKeepsInv(s: State, c: Caller)
    requires Inv(s) && Enabled(s, DeleteFree(c))
    ensures Inv(DeleteFreeStep(s, c))
  {
    var s', i := DeleteFreeStep(s, c), At(s, c).i;
    Facts(s, c, i);
    SlotAfterMove(s, s', i, c);
    Preserved(s, s', i, c);
  }

  lemma SetPriorityKeepsInv(s: State, c: Caller, id: u32, priority: u8, nativeOk: bool)
    requires var a := SetPriority(c, id, priority, nativeOk); Inv(s) && Enabled(s, a) && Allowed(s, a)
    ensures Inv(SetPriorityStep(s, c, id, priority, nativeOk))
  {
    var s', slot := SetPriorityStep(s, c, id, priority, nativeOk), Lookup(s.hdrs, TYPE_TASK, id);
    if priority > LOWEST || slot.None? || (s.rt.enabled && !nativeOk) {
      ReturnKeepsInv(s, c, At(s', c));
    } else {
      PriorityIsChanged(s, c, id, priority, nativeOk);
      PriorityChangeKeepsInv(s, s', c, slot.value, priority);
    }
  }

  ghost predicate PriorityChange(s: State, s': State, c: Caller, i: nat, priority: u8)
  {
    && At(s, c).Idle? && i < |s.hdrs| == |s.cells| && s.hdrs[i].inUse && priority <= LOWEST
    && Current(s, i) in s.threads && !BeingMade(s, i)
    && s' == Move(s, c, Idle(Success)).(
               cells := s.cells[i := s.cells[i].(priority := priority)],
               threads := s.threads[Current(s, i) := s.threads[Current(s, i)].(prio := NativePriority(s.rt, priority))])
  }

  lemma PriorityIsChanged(s: State, c: Caller, id: u32, priority: u8, nativeOk: bool)
    requires var a := SetPriority(c, id, priority, nativeOk); Inv(s) && Enabled(s, a) && Allowed(s, a)
    requires priority <= LOWEST && Lookup(s.hdrs, TYPE_TASK, id).Some? && (s.rt.enabled ==> nativeOk)
    ensures PriorityChange(s, SetPriorityStep(s, c, id, priority, nativeOk), c, Lookup(s.hdrs, TYPE_TASK, id).value, priority)
  {
    var s', i := SetPriorityStep(s, c, id, priority, nativeOk), Lookup(s.hdrs, TYPE_TASK, id).value;
    StoredThreadIff(s, i);
    Facts(s, c, i);
    assert s.rt.enabled || s.threads[Current(s, i)].prio == 0;
    assert s'.threads == s.threads[Current(s, i) := s.threads[Current(s, i)].(prio := NativePriority(s.rt, priority))];
  }

  lemma PriorityChangeKeepsInv(s: State, s': State, c: Caller, i: nat, priority: u8)
    requires Inv(s) && PriorityChange(s, s', c, i, priority)
    ensures Inv(s')
  {
    PriorityChangeKeepsSlot(s, s', c, i, priority);
    PriorityChangeKeepsThreads(s, s', c, i, priority);
    PriorityChangeKeepsCallers(s, s', c, i, priority);
    Preserved(s, s', i, c);
  }

  lemma PriorityChangeKeepsSlot(s: State, s': State, c: Caller, i: nat, priority: u8)
    requires Inv(s) && PriorityChange(s, s', c, i, priority)
    ensures SlotOk(s', i)
  {
    Facts(s, c, i);
    LostInUse(s, s', i);
    SlotAfterMove(s, s', i, c);
  }

  lemma PriorityChangeKeepsThreads(s: State, s': State, c: Caller, i: nat, priority: u8)
    requires Inv(s) && PriorityChange(s, s', c, i, priority)
    ensures forall h :: h in s'.threads && h.i == i ==> ThreadOk(s', h)
    ensures forall h :: h in s'.lost && h.i == i ==> h in s'.threads && !WasReaped(s', h)
  {
    Facts(s, c, i);
    assert forall h :: Freed(s', h) <==> Freed(s, h);
    assert forall h :: h in s.threads ==> s'.threads[h] == s.threads[h].(prio := s'.threads[h].prio);
  }

  lemma PriorityChangeKeepsCallers(s: State, s': State, c: Caller, i: nat, priority: u8)
    requires Inv(s) && PriorityChange(s, s', c, i, priority)
    ensures forall d :: Busy(At(s, d), i) && At(s', d) == At(s, d) ==> CallerOk(s', d)
  {
    Facts(s, c, i);
    assert forall d :: !Makes(At(s, d), i);
    assert forall h :: h in s.threads ==> s'.threads[h].stage == s.threads[h].stage;
  }

  // ---------- Runs in contract ----------

  lemma InitHasInv(n: nat, rt: Rt)
    requires 0 < n <= MAX_POOL
    ensures Inv(Init(n, rt))
  {
    var s := Init(n, rt);
    forall i | 0 <= i < n ensures SlotOk(s, i) && HeaderSound(s.hdrs[i], TYPE_TASK, i) {
      assert forall c :: At(s, c).Idle?;
    }
  }

  lemma StepKeepsInv(s: State, a: Action)
    requires Inv(s) && Allowed(s, a)
    ensures Inv(Step(s, a))
  {
    if Enabled(s, a) {
      match a
      case Create(c, req) => CreateKeepsInv(s, c, req);
      case CreateThread(c) => CreateThreadKeepsInv(s, c);
      case CreateFails(c, why) => CreateFailsKeepsInv(s, c, why);
      case CreateUndo(c) => CreateUndoKeepsInv(s, c);
      case SetKey(h, ok) => SetKeyKeepsInv(s, h, ok);
      case EnterRunning(h) => EnterRunningKeepsInv(s, h);
      case Finish(h) => FinishKeepsInv(s, h);
      case Cleanup(h) => CleanupKeepsInv(s, h);
      case JoinClaim(c, id, same) => JoinClaimKeepsInv(s, c, id, same);
      case JoinReturns(c, ok) => JoinReturnsKeepsInv(s, c, ok);
      case DeleteClaim(c, id, same) => DeleteClaimKeepsInv(s, c, id, same);
      case NativeCancel(c, rc) => NativeCancelKeepsInv(s, c, rc);
      case DeleteJoinReturns(c, rc) => DeleteJoinReturnsKeepsInv(s, c, rc);
      case DeleteFree(c) => DeleteFreeKeepsInv(s, c);
      case Abandon(c) => AbandonKeepsInv(s, c);
      case SetPriority(c, id, priority, nativeOk) => SetPriorityKeepsInv(s, c, id, priority, nativeOk);
    }
  }

  lemma {:induction false} RunKeepsInv(s: State, run: seq<Action>)
    requires Inv(s) && InContract(s, run)
    ensures Inv(Exec(s, run))
    decreases |run|
  {
    if run != [] {
      StepKeepsInv(s, run[0]);
      RunKeepsInv(Step(s, run[0]), run[1..]);
    }
  }

  lemma Reached(n: nat, rt: Rt, run: seq<Action>)
    requires 0 < n <= MAX_POOL && InContract(Init(n, rt), run)
    ensures Inv(Exec(Init(n, rt), run))
  {
    InitHasInv(n, rt);
    RunKeepsInv(Init(n, rt), run);
  }

  /** The moves of a slot's state, each with the one kind of action that makes it. */
  ghost predicate Moves(s: State, a: Action, i: nat, to: TaskState)
    requires Shaped(s) && i < |s.hdrs|
  {
    var from := s.cells[i].state;
    || from == to
    || (from == Unused && to == Starting && a.Create?)
    || (from == Starting && to == Running && a.EnterRunning? && a.h.i == i)
    || (from == Running && to == Exited && a.Cleanup? && a.h.i == i)
    || (from == Starting && to == Unused && a.CreateUndo?)
    || (from == Exited && to == Unused && a.DeleteFree? && Current(s, i) !in s.lost)
    || (to == Unused && a.DeleteFree? && Current(s, i) in s.lost)
  }

  /**
   * Lifecycle: over every run in contract a slot goes UNUSED, STARTING, RUNNING, EXITED, UNUSED, in
   * that order only. From STARTING it goes back when its thread could not be created, and from
   * anywhere when its task is deleted after the claim on it was lost; it is the order until
   * the first time that has happened.
   */
  lemma StateMovesInOrder(n: nat, rt: Rt, run: seq<Action>, a: Action, i: nat)
    requires 0 < n <= MAX_POOL && i < n && InContract(Init(n, rt), run + [a]) && !Haunted(Exec(Init(n, rt), run), i)
    ensures Moves(Exec(Init(n, rt), run), a, i, Exec(Init(n, rt), run + [a]).cells[i].state)
  {
    RunSplits(Init(n, rt), run, a);
    Reached(n, rt, run);
    var s := Exec(Init(n, rt), run);
    if Enabled(s, a) { StepMovesInOrder(s, a, i); }
  }

  lemma {:induction false} RunSplits(s: State, run: seq<Action>, a: Action)
    requires Shaped(s) && InContract(s, run + [a])
    ensures InContract(s, run) && Allowed(Exec(s, run), a)
    ensures Exec(s, run + [a]) == Step(Exec(s, run), a)
    decreases |run|
  {
    if run == [] {
      assert run + [a] == [a] && [a][1..] == [];
    } else {
      assert (run + [a])[0] == run[0] && (run + [a])[1..] == run[1..] + [a];
      RunSplits(Step(s, run[0]), run[1..], a);
    }
  }

  lemma StepMovesInOrder(s: State, a: Action, i: nat)
    requires Inv(s) && Allowed(s, a) && Enabled(s, a) && i < |s.hdrs| && !Haunted(s, i)
    ensures Moves(s, a, i, Step(s, a).cells[i].state)
  {
    if a.EnterRunning? || a.Cleanup? {
      ThreadMovesInOrder(s, a, i);
    } else if a.CreateUndo? || a.DeleteFree? {
      CallerMovesInOrder(s, a, i);
    } else {
      if a.Create? { assert SlotOk(s, i); }
      OthersKeepState(s, a, i);
    }
  }

  lemma OthersKeepState(s: State, a: Action, i: nat)
    requires Shaped(s) && Enabled(s, a) && i < |s.hdrs|
    requires !(a.EnterRunning? || a.Cleanup? || a.CreateUndo? || a.DeleteFree?)
    ensures Step(s, a).cells[i].state == s.cells[i].state || (a.Create? && !s.hdrs[i].inUse && Step(s, a).cells[i].state == Starting)
  {
  }

  lemma ThreadMovesInOrder(s: State, a: Action, i: nat)
    requires Inv(s) && Enabled(s, a) && i < |s.hdrs| && (a.EnterRunning? || a.Cleanup?) && !Haunted(s, i)
    ensures Moves(s, a, i, Step(s, a).cells[i].state)
  {
    LivingIsCurrent(s, a.h);
    Facts(s, Task(a.h), i);
  }

  lemma CallerMovesInOrder(s: State, a: Action, i: nat)
    requires Inv(s) && Allowed(s, a) && Enabled(s, a) && i < |s.hdrs| && (a.CreateUndo? || a.DeleteFree?) && !Haunted(s, i)
    ensures Moves(s, a, i, Step(s, a).cells[i].state)
  {
    assert CallerOk(s, a.c);
    Facts(s, a.c, i);
  }

  // ---------- What threads and callers touch ----------

  /** Handle h names the thread of the task that is in its slot now. */
  ghost predicate IsCurrent(s: State, h: Handle)
  {
    h.i < |s.hdrs| <= MAX_POOL && s.hdrs[h.i].inUse && s.hdrs[h.i].gen == h.gen && s.hdrs[h.i].id == IdOf(TYPE_TASK, h.i, h.gen)
  }

  /** A native call is given the thread of its slot's task, which nobody has joined yet. */
  ghost predicate IsOwnThread(s: State, h: Handle)
  {
    IsCurrent(s, h) && h in s.threads && !WasReaped(s, h)
  }

  /** What must hold when a thread writes to its slot, or a caller uses a thread or frees a slot. */
  ghost predicate UsesAreSound(s: State, a: Action)
    requires Shaped(s) && Enabled(s, a)
  {
    match a
    case SetKey(h, ok) => IsCurrent(s, h) <==> !Freed(s, h)
    case EnterRunning(h) =>
      // the trampoline reads the entry function and argument of its own Create
      && (IsCurrent(s, h) <==> !Freed(s, h)) && (!Haunted(s, h.i) ==> s.cells[h.i].state == Starting)
      && (!Freed(s, h) ==> s.cells[h.i].body == s.threads[h].given)
    case Cleanup(h) =>
      // the cleanup handler's write hits its own generation
      (IsCurrent(s, h) <==> !Freed(s, h)) && (!Haunted(s, h.i) ==> s.cells[h.i].state == Running)
    case JoinClaim(c, id, same) =>
      // pthread_equal is reached only with the slot's own thread, not yet joined
      (match Lookup(s.hdrs, TYPE_TASK, id)
       case None => true
       case Some(i) => i < |s.cells| && (!s.cells[i].joined ==> IsOwnThread(s, ThreadOf(s.cells[i])) && (same <==> IsSelf(c, s.cells[i]))))
    case DeleteClaim(c, id, same) =>
      // here that is so exactly if the task has not been joined
      (match Lookup(s.hdrs, TYPE_TASK, id)
       case None => true
       case Some(i) =>
         && i < |s.cells| && (IsOwnThread(s, ThreadOf(s.cells[i])) <==> !WasReaped(s, Current(s, i)))
         && (!WasReaped(s, Current(s, i)) ==> (same <==> IsSelf(c, s.cells[i]))))
    case JoinReturns(c, ok) => IsOwnThread(s, At(s, c).h)
    case NativeCancel(c, rc) => IsOwnThread(s, At(s, c).h)
    case DeleteJoinReturns(c, rc) => IsOwnThread(s, At(s, c).h)
    case DeleteFree(c) =>
      // the slot's thread has been joined, unless the claim on it was lost
      var h := Handle(At(s, c).i, At(s, c).gen);
      && IsCurrent(s, h) && h in s.threads && (WasReaped(s, h) <==> h !in s.lost)
      && (WasReaped(s, h) && !Haunted(s, h.i) ==> s.cells[h.i].state == Exited)
    case SetPriority(c, id, priority, nativeOk) =>
      // pthread_setschedprio is given the slot's own thread
      s.rt.enabled && priority <= LOWEST ==>
        (match Lookup(s.hdrs, TYPE_TASK, id) case None => true case Some(i) => i < |s.cells| && IsOwnThread(s, ThreadOf(s.cells[i])))
    case _ => true
  }

  lemma InvMakesUsesSound(s: State, a: Action)
    requires Inv(s) && Enabled(s, a) && Allowed(s, a)
    ensures UsesAreSound(s, a)
  {
    match a
    case SetKey(h, ok) => ThreadUsesOwnSlot(s, h);
    case EnterRunning(h) => ThreadUsesOwnSlot(s, h);
    case Cleanup(h) => ThreadUsesOwnSlot(s, h);
    case JoinClaim(c, id, same) => ComparesOwnThread(s, c, id, same);
    case DeleteClaim(c, id, same) => ComparesOwnThread(s, c, id, same);
    case JoinReturns(c, ok) => CallerUsesOwnThread(s, c);
    case NativeCancel(c, rc) => CallerUsesOwnThread(s, c);
    case DeleteJoinReturns(c, rc) => CallerUsesOwnThread(s, c);
    case DeleteFree(c) => CallerUsesOwnThread(s, c);
    case SetPriority(c, id, priority, nativeOk) =>
      var slot := Lookup(s.hdrs, TYPE_TASK, id);
      if slot.Some? { StoredThreadIff(s, slot.value); }
    case _ =>
  }

  lemma ComparesOwnThread(s: State, c: Caller, id: u32, same: bool)
    requires Inv(s) && EqualMayOf(s, c, id, same)
    requires Lookup(s.hdrs, TYPE_TASK, id).Some? ==> !BeingMade(s, Lookup(s.hdrs, TYPE_TASK, id).value)
    ensures Lookup(s.hdrs, TYPE_TASK, id).Some? ==>
              var i := Lookup(s.hdrs, TYPE_TASK, id).value;
              && i < |s.cells| && (IsOwnThread(s, ThreadOf(s.cells[i])) <==> !WasReaped(s, Current(s, i)))
              && (!s.cells[i].joined ==> !WasReaped(s, Current(s, i)))
              && (!WasReaped(s, Current(s, i)) ==> (same <==> IsSelf(c, s.cells[i])))
  {
    var slot := Lookup(s.hdrs, TYPE_TASK, id);
    if slot.Some? {
      StoredThreadIff(s, slot.value);
      Facts(s, c, slot.value);
    }
  }

  lemma ThreadUsesOwnSlot(s: State, h: Handle)
    requires Inv(s) && h in s.threads && !WasReaped(s, h)
    ensures h.i < |s.hdrs| && (IsCurrent(s, h) <==> !Freed(s, h))
    ensures !Haunted(s, h.i) ==> s.cells[h.i].state == StateAt(s.threads[h].stage)
    ensures !Freed(s, h) ==> s.cells[h.i].body == s.threads[h].given
  {
    LivingIsCurrent(s, h);
    Facts(s, Task(h), h.i);
  }

  lemma CallerUsesOwnThread(s: State, c: Caller)
    requires Inv(s) && Inside(s, c) && Ends(At(s, c), At(s, c).i)
    ensures var p, h := At(s, c), Handle(At(s, c).i, At(s, c).gen);
            && IsCurrent(s, h) && h in s.threads
            && (!p.Freeing? ==> p.h == h && !WasReaped(s, h))
            && (p.Freeing? ==> (WasReaped(s, h) <==> h !in s.lost))
            && (WasReaped(s, h) && !Haunted(s, h.i) ==> s.cells[h.i].state == Exited)
  {
    assert CallerOk(s, c);
    Facts(s, c, At(s, c).i);
  }

  /**
   * The thread stored in a slot in use is the slot's own exactly once the Create has returned; until
   * then it is the thread of an earlier generation, or none. So a Join, Delete or SetPriority
   * before that would be given somebody else's pthread_t.
   */
  lemma StoredThreadIff(s: State, i: nat)
    requires Inv(s) && i < |s.hdrs| && s.hdrs[i].inUse
    ensures ThreadOf(s.cells[i]) == Current(s, i) <==> !BeingMade(s, i)
    ensures IsOwnThread(s, ThreadOf(s.cells[i])) <==> !BeingMade(s, i) && !WasReaped(s, Current(s, i))
    ensures BeingMade(s, i) && s.cells[i].thread.Some? ==> ThreadOf(s.cells[i]).gen < s.hdrs[i].gen
  {
    Facts(s, Foreign(0), i);
    if s.cells[i].thread.Some? { assert ThreadOk(s, ThreadOf(s.cells[i])); }
  }

  /** Along every run in contract, threads and callers touch only what is still theirs. */
  lemma EveryUseIsSound(n: nat, rt: Rt, run: seq<Action>, a: Action)
    requires 0 < n <= MAX_POOL && InContract(Init(n, rt), run)
    requires Enabled(Exec(Init(n, rt), run), a) && Allowed(Exec(Init(n, rt), run), a)
    ensures UsesAreSound(Exec(Init(n, rt), run), a)
  {
    Reached(n, rt, run);
    InvMakesUsesSound(Exec(Init(n, rt), run), a);
  }

  /** A successful Join leaves the id valid and the task EXITED; only Delete frees the slot. */
  lemma JoinLeavesExited(n: nat, rt: Rt, run: seq<Action>, c: Caller)
    requires 0 < n <= MAX_POOL && InContract(Init(n, rt), run) && Enabled(Exec(Init(n, rt), run), JoinReturns(c, true))
    ensures var s := Exec(Init(n, rt), run);
            var h, s' := At(s, c).h, JoinReturnsStep(s, c, true);
            && At(s', c) == Idle(Success) && h.i < n
            && Lookup(s'.hdrs, TYPE_TASK, IdOf(TYPE_TASK, h.i, h.gen)) == Some(h.i)
            && (!Haunted(s, h.i) ==> s'.cells[h.i].state == Exited)
            && s'.cells[h.i].joined && h !in s'.lost && WasReaped(s', h)
  {
    Reached(n, rt, run);
    var s := Exec(Init(n, rt), run);
    CallerUsesOwnThread(s, c);
    var h := At(s, c).h;
    Facts(s, c, h.i);
    LookupFindsOwnId(s.hdrs, TYPE_TASK, h.i);
  }

  /**
   * AOS_TaskGetId inside a task whose slot has not been freed returns the id its Create gave out, which
   * is never zero; so the zero key of any other thread tells the two apart. Only a task whose key
   * could not be stored is taken for another thread.
   */
  lemma GetIdIsOwnId(n: nat, rt: Rt, run: seq<Action>, h: Handle)
    requires 0 < n <= MAX_POOL && InContract(Init(n, rt), run)
    requires var s := Exec(Init(n, rt), run); h in s.threads && s.threads[h].stage == Active && !Freed(s, h)
    ensures var s := Exec(Init(n, rt), run);
            && h.i < n && IdOf(TYPE_TASK, h.i, h.gen) == s.hdrs[h.i].id != ID_NONE
            && Lookup(s.hdrs, TYPE_TASK, s.hdrs[h.i].id) == Some(h.i)
            && s.threads[h].key == if s.threads[h].keySet then s.hdrs[h.i].id else ID_NONE
  {
    Reached(n, rt, run);
    OwnIdIsLive(Exec(Init(n, rt), run), h);
  }

  lemma OwnIdIsLive(s: State, h: Handle)
    requires Inv(s) && h in s.threads && s.threads[h].stage == Active && !Freed(s, h)
    ensures h.i < |s.hdrs| && IdOf(TYPE_TASK, h.i, h.gen) == s.hdrs[h.i].id != ID_NONE
    ensures Lookup(s.hdrs, TYPE_TASK, s.hdrs[h.i].id) == Some(h.i)
    ensures s.threads[h].key == if s.threads[h].keySet then s.hdrs[h.i].id else ID_NONE
  {
    LivingIsCurrent(s, h);
    assert ThreadOk(s, h);
    Facts(s, Task(h), h.i);
    LookupFindsOwnId(s.hdrs, TYPE_TASK, h.i);
    PackIsInjective(TYPE_TASK, SerialOf(h.gen), h.i, TYPE_TASK, 0, 0);
  }

  /**
   * Over every run in contract a task that has entered its function, and whose slot was not freed
   * under it, was entered with the function and argument its own Create was passed.
   */
  lemma RunsOwnBody(n: nat, rt: Rt, run: seq<Action>, h: Handle)
    requires 0 < n <= MAX_POOL && InContract(Init(n, rt), run)
    requires var s := Exec(Init(n, rt), run); h in s.threads && Entered(s.threads[h].stage) && !Freed(s, h)
    ensures var s := Exec(Init(n, rt), run); s.threads[h].got == Some(s.threads[h].given)
  {
    Reached(n, rt, run);
    assert ThreadOk(Exec(Init(n, rt), run), h);
  }

  /** What a thread was given is what the request of its Create said, and it is never NULL. */
  lemma GivenByCreate(s: State, c: Caller, req: TaskRequest)
    requires Shaped(s) && TaskCreateStatus(s.hdrs, req) == Success && At(s, c).Idle?
    ensures var i := FirstFree(s.hdrs);
            var h, r := Handle(i, s.hdrs[i].gen + 1), CreateThreadStep(CreateStep(s, c, req), c);
            h in r.threads && r.threads[h].given == req.body && req.body.entry.Some?
  {
  }

  lemma StepKeepsGiven(s: State, a: Action, h: Handle)
    requires Shaped(s) && h in s.threads
    ensures h in Step(s, a).threads && Step(s, a).threads[h].given == s.threads[h].given
  {
  }

  lemma {:induction false} GivenStays(s: State, run: seq<Action>, h: Handle)
    requires Shaped(s) && h in s.threads
    ensures h in Exec(s, run).threads && Exec(s, run).threads[h].given == s.threads[h].given
    decreases |run|
  {
    if run != [] {
      StepKeepsGiven(s, run[0], h);
      GivenStays(Step(s, run[0]), run[1..], h);
    }
  }

  /**
   * Priorities order execution: when RT scheduling is enabled on a range the map is faithful on, for
   * any two tasks whose threads exist, after any Creates and SetPriorities, a smaller AOS priority
   * means a larger native one, and the other way round.
   */
  lemma PriorityOrderIsFaithful(n: nat, rt: Rt, run: seq<Action>, i: nat, j: nat)
    requires 0 < n <= MAX_POOL && InContract(Init(n, rt), run) && i < n && j < n
    requires rt.enabled && 0 <= rt.min < rt.max <= INT_MAX
    requires LOWEST <= rt.max - rt.min && LOWEST * (rt.max - rt.min) < TWO32
    requires var s := Exec(Init(n, rt), run);
             s.hdrs[i].inUse && s.hdrs[j].inUse && Current(s, i) in s.threads && Current(s, j) in s.threads
    ensures var s := Exec(Init(n, rt), run);
            var ni, nj := s.threads[Current(s, i)].prio, s.threads[Current(s, j)].prio;
            && (s.cells[i].priority < s.cells[j].priority <==> ni > nj)
            && rt.min <= ni <= rt.max
  {
    Reached(n, rt, run);
    RangeIsFixed(Init(n, rt), run);
    var s := Exec(Init(n, rt), run);
    assert SlotOk(s, i) && SlotOk(s, j);
    MapIsFaithfulIff(rt.min, rt.max);
    MapIsEven(rt.min, rt.max, s.cells[i].priority);
    assert StrictlyDecreasing(rt.min, rt.max);
  }

  lemma StepKeepsRange(s: State, a: Action)
    requires Shaped(s)
    ensures Step(s, a).rt == s.rt
  {
  }

  lemma {:induction false} RangeIsFixed(s: State, run: seq<Action>)
    requires Shaped(s)
    ensures Exec(s, run).rt == s.rt
    decreases |run|
  {
    if run != [] {
      StepKeepsRange(s, run[0]);
      RangeIsFixed(Step(s, run[0]), run[1..]);
    }
  }
}
