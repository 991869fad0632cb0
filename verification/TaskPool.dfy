/**
 * aos_task.c as it runs: a fixed array of slots updated in place. Each method is one section under
 * the task lock or one native call; its contract is the step of TaskModel, so everything proved
 * there about runs holds of these methods.
 */
module TaskPool {
  import opened Common
  import opened Ids
  import opened Table
  import opened Priority
  import opened TaskModel
  import opened TaskProperties
  import opened TaskCalls

  class Pool {
    const hdrs: array<Header>
    const cells: array<Cell>
    const rt: Rt
    /** The native threads, with their thread-specific key and base priority. */
    var threads: map<Handle, Native>
    /** Where every caller is, and which claims ended without a reap. */
    ghost var pc: map<Caller, Pc>
    ghost var lost: set<Handle>

    ghost function Snapshot(): State
      reads this, hdrs, cells
    {
      State(hdrs[..], cells[..], pc, threads, rt, lost)
    }

    ghost predicate Valid()
      reads this, hdrs, cells
    {
      Inv(Snapshot())
    }

    /** AOS_PosixTaskInit, with the range that the real-time probe chose. */
    constructor (n: nat, rt: Rt)
      requires 0 < n <= MAX_POOL
      ensures Valid() && fresh(hdrs) && fresh(cells)
      ensures Snapshot() == Init(n, rt)
    {
      hdrs := new Header[n](_ => ZEROED);
      cells := new Cell[n](_ => Cell(Unused, false, None, 0, 0, NO_BODY));
      this.rt := rt;
      threads := map[];
      pc, lost := map[], {};
      new;
      assert hdrs[..] == seq(n, _ => ZEROED) && cells[..] == seq(n, _ => Cell(Unused, false, None, 0, 0, NO_BODY));
      InitHasInv(n, rt);
    }

    /** AOS_PosixValidateTaskIdLocked. */
    method Validate(id: u32) returns (status: Status, slot: nat)
      ensures status == Success <==> Lookup(hdrs[..], TYPE_TASK, id) == Some(slot)
      ensures status != Success ==> status == InvalidId && Lookup(hdrs[..], TYPE_TASK, id) == None
    {
      slot := 0;
      if IdTypeBits(id) != TYPE_TASK {
        return InvalidId, slot;
      }
      slot := IdIndexBits(id);
      if slot >= hdrs.Length || !hdrs[slot].inUse || hdrs[slot].id != id || hdrs[slot].serial != IdSerialBits(id) {
        return InvalidId, slot;
      }
      return Success, slot;
    }

    /** AOS_TaskCreate up to where it drops the lock. */
    method Create(c: Caller, req: TaskRequest) returns (status: Status, slot: nat)
      requires Valid() && CanCall(Snapshot(), c)
      modifies this`pc, hdrs, cells
      ensures Valid() && Snapshot() == CreateStep(old(Snapshot()), c, req)
      ensures status == TaskCreateStatus(old(hdrs[..]), req)
      ensures status == Success ==> slot == FirstFree(old(hdrs[..])) && pc[c].Building?
    {
      CreateKeepsInv(Snapshot(), c, req);
      slot := 0;
      status := CheckTaskRequest(req);
      if status == Success {
        var taken := ScanForName(hdrs, req.name.value);
        slot := ScanForFree(hdrs);
        if taken {
          status := NameIsTaken;
        } else if slot == hdrs.Length {
          status := NoFreeIds;
        } else {
          pc := pc[c := Building(slot, hdrs[slot].gen + 1, req.priority, req.body)];
          FillSlot(slot, req.name.value, req.body, req.stackSize, req.priority);
          return;
        }
      }
      pc := pc[c := Idle(status)];
    }

    /** The stores of AOS_TaskCreate. */
    method FillSlot(i: nat, name: string, body: Body, stackSize: nat, priority: u8)
      requires i < hdrs.Length == cells.Length <= MAX_POOL
      modifies hdrs, cells
      ensures hdrs[..] == old(hdrs[..])[i := Issue(old(hdrs[i]), TYPE_TASK, i, name, ID_NONE)]
      ensures cells[..] == old(cells[..])[i := Cell(Starting, false, old(cells[i]).thread, priority, stackSize, body)]
    {
      hdrs[i] := hdrs[i].(serial := NextSerial(hdrs[i].serial), creator := ID_NONE, gen := hdrs[i].gen + 1);
      hdrs[i] := hdrs[i].(id := IdPackBits(TYPE_TASK, hdrs[i].serial, i));
      FillCell(i, body, stackSize, priority);
      hdrs[i] := hdrs[i].(inUse := true);
      hdrs[i] := hdrs[i].(name := name);
    }

    method FillCell(i: nat, body: Body, stackSize: nat, priority: u8)
      requires i < cells.Length
      modifies cells
      ensures cells[..] == old(cells[..])[i := Cell(Starting, false, old(cells[i]).thread, priority, stackSize, body)]
    {
      cells[i] := cells[i].(body := Body(body.entry, cells[i].body.arg));
      cells[i] := cells[i].(body := Body(cells[i].body.entry, body.arg));
      cells[i] := cells[i].(stackSize := stackSize);
      cells[i] := cells[i].(priority := priority);
      cells[i] := cells[i].(state := Starting);
      cells[i] := cells[i].(joined := false);
    }

    /** pthread_create succeeds. */
    method CreateThreads(c: Caller, slot: nat, priority: nat, body: Body)
      requires Valid() && Enabled(Snapshot(), CreateThread(c))
      requires slot == At(Snapshot(), c).i && priority == At(Snapshot(), c).priority && body == At(Snapshot(), c).body
      modifies this`pc, this`threads, cells
      ensures Valid() && Snapshot() == CreateThreadStep(old(Snapshot()), c)
      ensures hdrs[slot].inUse
      ensures var h := Handle(slot, hdrs[slot].gen); h in threads && threads[h].prio == NativePriority(rt, priority) && threads[h].given == cells[slot].body
    {
      CreateThreadKeepsInv(Snapshot(), c);
      assert CallerOk(Snapshot(), c);
      var h := Handle(slot, hdrs[slot].gen);
      cells[slot] := cells[slot].(thread := Some(h));
      threads := threads[h := Native(Fresh, ID_NONE, false, if rt.enabled then MapPriority(rt.min, rt.max, priority) else 0, body, None)];
      pc := pc[c := Idle(Success)];
    }

    /** The clean-up sections of AOS_TaskCreate after a native failure. */
    method CreateUndoes(c: Caller, slot: nat)
      requires Valid() && Enabled(Snapshot(), CreateUndo(c)) && slot == At(Snapshot(), c).i
      modifies this`pc, hdrs, cells
      ensures Valid() && Snapshot() == CreateUndoStep(old(Snapshot()), c)
    {
      CreateUndoKeepsInv(Snapshot(), c);
      hdrs[slot] := hdrs[slot].(inUse := false);
      cells[slot] := cells[slot].(state := Unused);
      pc := pc[c := Idle(pc[c].status)];
    }

    /** AOS_PosixTaskTrampoline: the key is the slot's id, read without the lock. */
    method TrampolineSetsKey(h: Handle, ok: bool)
      requires Valid() && Enabled(Snapshot(), SetKey(h, ok))
      modifies this`threads
      ensures Valid() && Snapshot() == SetKeyStep(old(Snapshot()), h, ok)
      ensures ok && old(!Freed(Snapshot(), h)) ==> threads[h].key == IdOf(TYPE_TASK, h.i, h.gen)
    {
      ThreadUsesOwnSlot(Snapshot(), h);
      SetKeyKeepsInv(Snapshot(), h, ok);
      var key := if ok then hdrs[h.i].id else ID_NONE;
      threads := threads[h := threads[h].(stage := Keyed, keySet := ok, key := key)];
      assert threads == SetKeyStep(old(Snapshot()), h, ok).threads;
    }

    /** AOS_PosixTaskTrampoline: the locked store of RUNNING, and the reads of what to call. */
    method TrampolineRuns(h: Handle) returns (body: Body)
      requires Valid() && Enabled(Snapshot(), EnterRunning(h))
      modifies this`threads, cells
      ensures Valid() && Snapshot() == EnterRunningStep(old(Snapshot()), h)
      ensures threads[h].got == Some(body)
      ensures old(!Freed(Snapshot(), h)) ==> body == threads[h].given
    {
      ThreadUsesOwnSlot(Snapshot(), h);
      EnterRunningKeepsInv(Snapshot(), h);
      cells[h.i] := cells[h.i].(state := Running);
      body := cells[h.i].body;
      threads := threads[h := threads[h].(stage := Active, got := Some(body))];
    }

    /** AOS_PosixTaskCleanup; the slot is still the thread's, unless it was freed under it. */
    method CleansUp(h: Handle)
      requires Valid() && Enabled(Snapshot(), Cleanup(h))
      modifies this`threads, cells
      ensures Valid() && Snapshot() == CleanupStep(old(Snapshot()), h)
      ensures old(!Freed(Snapshot(), h)) ==> hdrs[h.i].gen == h.gen && cells[h.i].state == Exited
    {
      ThreadUsesOwnSlot(Snapshot(), h);
      CleanupKeepsInv(Snapshot(), h);
      if hdrs[h.i].inUse {
        cells[h.i] := cells[h.i].(state := Exited);
      }
      threads := threads[h := threads[h].(stage := Terminated)];
    }

    /** The locked section of AOS_TaskJoin. */
    method JoinClaims(c: Caller, id: u32, same: bool) returns (status: Status, slot: nat)
      requires Valid() && Enabled(Snapshot(), JoinClaim(c, id, same))
      modifies this`pc, cells
      ensures Snapshot() == JoinClaimStep(old(Snapshot()), c, id, same)
      ensures old(Allowed(Snapshot(), JoinClaim(c, id, same))) ==> Valid()
      ensures status == Success <==> pc[c].Joining?
      ensures status != Success ==> pc[c] == Idle(status)
    {
      if Allowed(Snapshot(), JoinClaim(c, id, same)) { JoinClaimKeepsInv(Snapshot(), c, id, same); }
      status, slot := Validate(id);
      if status == Success {
        if cells[slot].joined {
          status := InvalidState;
        } else if same {
          status := InvalidParam;
        }
      }
      if status == Success {
        pc := pc[c := Joining(slot, hdrs[slot].gen, ThreadOf(cells[slot]))];
        cells[slot] := cells[slot].(joined := true);
      } else {
        pc := pc[c := Idle(status)];
      }
    }

    /** pthread_join inside AOS_TaskJoin returns; a failure leaves the claim taken. */
    method JoinEnds(c: Caller, h: Handle, ok: bool) returns (status: Status)
      requires Valid() && Enabled(Snapshot(), JoinReturns(c, ok)) && h == At(Snapshot(), c).h
      modifies this`pc, this`threads, this`lost
      ensures Valid() && Snapshot() == JoinReturnsStep(old(Snapshot()), c, ok)
      ensures status == (if ok then Success else Generic) && pc[c] == Idle(status)
      ensures h in threads && (ok <==> WasReaped(Snapshot(), h)) && (!ok <==> h in lost)
    {
      CallerUsesOwnThread(Snapshot(), c);
      assert CallerOk(Snapshot(), c);
      JoinReturnsKeepsInv(Snapshot(), c, ok);
      if ok {
        threads := threads[h := threads[h].(stage := Reaped)];
        status := Success;
      } else {
        lost := lost + {Handle(pc[c].i, pc[c].gen)};
        status := Generic;
      }
      pc := pc[c := Idle(status)];
    }

    /** The first locked section of AOS_TaskDelete, and the self test, which comes after the claim. */
    method DeleteClaims(c: Caller, id: u32, same: bool) returns (status: Status, slot: nat, needReap: bool)
      requires Valid() && Enabled(Snapshot(), DeleteClaim(c, id, same))
      modifies this`pc, this`lost, cells
      ensures Snapshot() == DeleteClaimStep(old(Snapshot()), c, id, same)
      ensures old(Allowed(Snapshot(), DeleteClaim(c, id, same))) ==> Valid()
      ensures status == Success && needReap <==> pc[c].Cancelling?
      ensures status == Success && !needReap <==> pc[c].Freeing?
      ensures status != Success ==> pc[c] == Idle(status)
    {
      if Allowed(Snapshot(), DeleteClaim(c, id, same)) { DeleteClaimKeepsInv(Snapshot(), c, id, same); }
      status, slot, needReap := TakeClaim(c, id, same);
    }

    method TakeClaim(c: Caller, id: u32, same: bool) returns (status: Status, slot: nat, needReap: bool)
      requires Shaped(Snapshot())
      modifies this`pc, this`lost, cells
      ensures Snapshot() == DeleteClaimStep(old(Snapshot()), c, id, same)
      ensures status == Success && needReap <==> pc[c].Cancelling?
      ensures status == Success && !needReap <==> pc[c].Freeing?
      ensures status != Success ==> pc[c] == Idle(status)
    {
      needReap := false;
      status, slot := Validate(id);
      if status != Success {
        pc := pc[c := Idle(status)];
        return;
      }
      needReap := !cells[slot].joined;
      cells[slot] := cells[slot].(joined := true);
      if same {
        if needReap { lost := lost + {Handle(slot, hdrs[slot].gen)}; }
        pc := pc[c := Idle(InvalidParam)];
        return InvalidParam, slot, needReap;
      }
      pc := pc[c := if needReap then Cancelling(slot, hdrs[slot].gen, ThreadOf(cells[slot]), id)
                    else Freeing(slot, hdrs[slot].gen, id)];
    }

    /** pthread_cancel inside AOS_TaskDelete returns. */
    method DeleteCancels(c: Caller, rc: NativeResult)
      requires Valid() && Enabled(Snapshot(), NativeCancel(c, rc))
      modifies this`pc
      ensures Valid() && Snapshot() == NativeCancelStep(old(Snapshot()), c, rc)
      ensures pc[c].Reaping? && (pc[c].cancelOk <==> rc == NativeOk || rc == NoSuchThread)
    {
      NativeCancelKeepsInv(Snapshot(), c, rc);
      var cancelOk := rc == NativeOk || rc == NoSuchThread;
      pc := pc[c := Reaping(pc[c].i, pc[c].gen, pc[c].h, pc[c].id, cancelOk)];
    }

    /** pthread_join inside AOS_TaskDelete returns; only ESRCH is no reason to give up. */
    method DeleteJoins(c: Caller, h: Handle, rcJoin: NativeResult, cancelOk: bool) returns (status: Status)
      requires Valid() && Enabled(Snapshot(), DeleteJoinReturns(c, rcJoin))
      requires h == At(Snapshot(), c).h && cancelOk == At(Snapshot(), c).cancelOk
      modifies this`pc, this`threads, this`lost
      ensures Valid() && Snapshot() == DeleteJoinReturnsStep(old(Snapshot()), c, rcJoin)
      ensures status == Success <==> pc[c].Freeing?
      ensures status == Success <==> cancelOk && (rcJoin == NativeOk || rcJoin == NoSuchThread)
      ensures status != Success ==> status == Generic && pc[c] == Idle(Generic)
      ensures h in threads && (rcJoin == NativeOk <==> WasReaped(Snapshot(), h)) && (rcJoin != NativeOk <==> h in lost)
    {
      CallerUsesOwnThread(Snapshot(), c);
      assert CallerOk(Snapshot(), c);
      DeleteJoinReturnsKeepsInv(Snapshot(), c, rcJoin);
      if rcJoin == NativeOk {
        threads := threads[h := threads[h].(stage := Reaped)];
      } else {
        lost := lost + {Handle(pc[c].i, pc[c].gen)};
      }
      if rcJoin != NativeOk && rcJoin != NoSuchThread {
        pc := pc[c := Idle(Generic)];
        return Generic;
      }
      if !cancelOk {
        pc := pc[c := Idle(Generic)];
        return Generic;
      }
      pc := pc[c := Freeing(pc[c].i, pc[c].gen, pc[c].id)];
      return Success;
    }

    /** The final section of AOS_TaskDelete. */
    method DeleteFrees(c: Caller, slot: nat, id: u32)
      requires Valid() && Enabled(Snapshot(), DeleteFree(c)) && slot == At(Snapshot(), c).i && id == At(Snapshot(), c).id
      modifies this`pc, hdrs, cells
      ensures Valid() && Snapshot() == DeleteFreeStep(old(Snapshot()), c)
      ensures var h := Handle(slot, hdrs[slot].gen); !hdrs[slot].inUse && h in threads && (WasReaped(Snapshot(), h) <==> h !in lost)
    {
      CallerUsesOwnThread(Snapshot(), c);
      assert CallerOk(Snapshot(), c);
      DeleteFreeKeepsInv(Snapshot(), c);
      if hdrs[slot].inUse && hdrs[slot].id == id {
        FreeSlot(slot);
      }
      pc := pc[c := Idle(Success)];
    }

    /** The stores of the final section; id, serial and thread stay. */
    method FreeSlot(i: nat)
      requires i < hdrs.Length == cells.Length
      modifies hdrs, cells
      ensures hdrs[..] == old(hdrs[..])[i := old(hdrs[i]).(inUse := false, name := "")]
      ensures cells[..] == old(cells[..])[i := old(cells[i]).(joined := false, state := Unused, stackSize := 0, body := NO_BODY)]
    {
      hdrs[i] := hdrs[i].(inUse := false);
      cells[i] := cells[i].(joined := false);
      cells[i] := cells[i].(state := Unused);
      cells[i] := cells[i].(body := NO_BODY);
      cells[i] := cells[i].(stackSize := 0);
      hdrs[i] := hdrs[i].(name := "");
    }

    /** AOS_TaskSetPriority. */
    method SetsPriority(c: Caller, id: u32, priority: u8, nativeOk: bool) returns (status: Status)
      requires Valid() && CanCall(Snapshot(), c)
      modifies this`pc, this`threads, cells
      ensures Snapshot() == SetPriorityStep(old(Snapshot()), c, id, priority, nativeOk)
      ensures old(Allowed(Snapshot(), SetPriority(c, id, priority, nativeOk))) ==> Valid()
      ensures pc[c] == Idle(status)
      ensures status == InvalidPriority <==> priority > 31
      ensures status == Success <==> priority <= 31 && id in Dict(hdrs[..]) && (!rt.enabled || nativeOk)
      ensures status == Generic <==> priority <= 31 && id in Dict(hdrs[..]) && rt.enabled && !nativeOk
    {
      SetPriorityStatuses(Snapshot(), c, id, priority, nativeOk);
      if Allowed(Snapshot(), SetPriority(c, id, priority, nativeOk)) {
        SetPriorityKeepsInv(Snapshot(), c, id, priority, nativeOk);
      }
      status := PassPriority(c, id, priority, nativeOk);
    }

    method PassPriority(c: Caller, id: u32, priority: u8, nativeOk: bool) returns (status: Status)
      requires Shaped(Snapshot())
      modifies this`pc, this`threads, cells
      ensures Snapshot() == SetPriorityStep(old(Snapshot()), c, id, priority, nativeOk)
      ensures pc[c] == Idle(status)
    {
      status := InvalidPriority;
      if priority <= LOWEST {
        var slot;
        status, slot := Validate(id);
        if status == Success {
          if rt.enabled && !nativeOk {
            status := Generic;
          } else {
            StorePriority(slot, priority);
          }
        }
      }
      pc := pc[c := Idle(status)];
    }

    /** pthread_setschedprio succeeds, if it is called, and the slot records the priority. */
    method StorePriority(i: nat, priority: u8)
      requires i < cells.Length
      modifies this`threads, cells
      ensures cells[..] == old(cells[..])[i := old(cells[i]).(priority := priority)]
      ensures var h := ThreadOf(old(cells[i]));
              threads == if rt.enabled && h in old(threads)
                         then old(threads)[h := old(threads)[h].(prio := MapPriority(rt.min, rt.max, priority))]
                         else old(threads)
    {
      if rt.enabled && ThreadOf(cells[i]) in threads {
        var h := ThreadOf(cells[i]);
        threads := threads[h := threads[h].(prio := MapPriority(rt.min, rt.max, priority))];
      }
      cells[i] := cells[i].(priority := priority);
    }

    /** AOS_TaskGetId: the caller's key, or INVALID_ID for a thread that has none. */
    method GetId(c: Caller) returns (status: Status, id: u32)
      requires Valid() && CanCall(Snapshot(), c)
      ensures c.Task? && !Freed(Snapshot(), c.h) && threads[c.h].keySet ==>
                status == Success && c.h.i < hdrs.Length && id == hdrs[c.h.i].id && Lookup(hdrs[..], TYPE_TASK, id) == Some(c.h.i)
      ensures c.Foreign? || (!Freed(Snapshot(), c.h) && !threads[c.h].keySet) ==> status == InvalidId && id == ID_NONE
    {
      var value := match c case Task(h) => threads[h].key case Foreign(_) => 0;
      if c.Task? && !Freed(Snapshot(), c.h) {
        OwnIdIsLive(Snapshot(), c.h);
      }
      if value == 0 {
        return InvalidId, ID_NONE;
      }
      return Success, value;
    }

    /** AOS_TaskGetInfo: name, stack size, priority and state. */
    method GetInfo(id: u32) returns (info: Option<(string, nat, nat, TaskState)>)
      requires Valid()
      ensures info.Some? <==> id in Dict(hdrs[..])
      ensures info.Some? ==>
                exists i: nat :: i < cells.Length && Lookup(hdrs[..], TYPE_TASK, id) == Some(i)
                  && info.value == (Dict(hdrs[..])[id].name, cells[i].stackSize, cells[i].priority, cells[i].state)
    {
      LookupIsMembership(hdrs[..], TYPE_TASK, id);
      var status, slot := Validate(id);
      if status != Success {
        return None;
      }
      return Some((hdrs[slot].name, cells[slot].stackSize, cells[slot].priority, cells[slot].state));
    }
  }
}
