/**
 * aos_sem.c as it runs: a fixed array of slots updated in place. Each method is one section under
 * the table lock, one atomic access of the lock-free Post, or one native call; its contract is the
 * step of SemModel, so everything proved there about runs holds of these methods.
 */
module SemPool {
  import opened Common
  import opened Ids
  import opened Table
  import opened SemModel
  import opened SemProperties
  import opened SemTheorems

  class Pool {
    const hdrs: array<Header>
    const cells: array<Cell>
    /** Where every thread is, and who holds the table lock. */
    ghost var pc: map<Tid, Pc>
    ghost var lock: Option<Tid>

    ghost function Snapshot(): State
      reads this, hdrs, cells
    {
      State(hdrs[..], cells[..], pc, lock)
    }

    ghost predicate Valid()
      reads this, hdrs, cells
    {
      Inv(Snapshot())
    }

    /** AOS_PosixBinSemInit: the pool is zeroed. */
    constructor (n: nat, ghost threads: set<Tid>)
      requires Start(n, threads)
      ensures Valid() && fresh(hdrs) && fresh(cells)
      ensures Snapshot() == Init(n, threads)
    {
      hdrs := new Header[n](_ => ZEROED);
      cells := new Cell[n](_ => Cell(NoSem, 0, 0));
      pc := map t | t in threads :: Idle(Success);
      lock := None;
      new;
      assert hdrs[..] == seq(n, _ => ZEROED) && cells[..] == seq(n, _ => Cell(NoSem, 0, 0));
      InitHasInv(n, threads);
    }

    /** AOS_PosixValidateSemIdLocked. */
    method Validate(id: u32) returns (status: Status, slot: nat)
      ensures status == Success <==> Lookup(hdrs[..], TYPE_BINSEM, id) == Some(slot)
      ensures status != Success ==> status == InvalidId && Lookup(hdrs[..], TYPE_BINSEM, id) == None
    {
      slot := 0;
      if IdTypeBits(id) != TYPE_BINSEM {
        return InvalidId, slot;
      }
      slot := IdIndexBits(id);
      if slot >= hdrs.Length || !hdrs[slot].inUse || hdrs[slot].id != id || hdrs[slot].serial != IdSerialBits(id) {
        return InvalidId, slot;
      }
      return Success, slot;
    }

    /** AOS_SemCreate up to and including sem_init; on success the table lock stays held. */
    method CreateBegins(t: Tid, req: Request, initial: nat) returns (status: Status, slot: nat)
      requires Valid() && Enabled(Snapshot(), CreateBegin(t, req, initial))
      modifies this`pc, this`lock, cells
      ensures Snapshot() == CreateBeginStep(old(Snapshot()), t, req, initial)
      ensures old(Allowed(Snapshot(), CreateBegin(t, req, initial))) ==> Valid()
      ensures status == CreateStatus(hdrs[..], req, InitialStateOk(initial))
      ensures status == Success ==> slot == FirstFree(hdrs[..]) && pc[t].Creating?
    {
      if Allowed(Snapshot(), CreateBegin(t, req, initial)) { CreateBeginKeepsInv(Snapshot(), t, req, initial); }
      slot := 0;
      status := CheckRequest(req, initial == 0 || initial == 1);
      if status == Success {
        var taken := ScanForName(hdrs, req.name.value);
        slot := ScanForFree(hdrs);
        if taken {
          status := NameIsTaken;
        } else if slot == hdrs.Length {
          status := NoFreeIds;
        } else if !req.nativeOk {
          status := CreationFailed;
        } else {
          cells[slot] := cells[slot].(native := Sem(initial));
          pc, lock := pc[t := Creating(slot, 0, Made(req.name.value, req.creator, initial))], Some(t);
          return;
        }
      }
      pc := pc[t := Idle(status)];
    }

    /** One of the seven stores that follow; a Post may come in before each of them. */
    method CreateStores(t: Tid, slot: nat, stage: nat, made: Made)
      requires Valid() && Enabled(Snapshot(), CreateStore(t)) && pc[t] == Creating(slot, stage, made)
      modifies this`pc, this`lock, hdrs, cells
      ensures Valid() && Snapshot() == CreateStoreStep(old(Snapshot()), t)
    {
      CreateStoreKeepsInv(Snapshot(), t);
      assert ThreadOk(Snapshot(), t);
      StoreOne(slot, stage, made);
      if stage < 6 {
        pc := pc[t := Creating(slot, stage + 1, made)];
      } else {
        pc, lock := pc[t := Idle(Success)], None;
      }
    }

    method StoreOne(i: nat, stage: nat, made: Made)
      requires i < hdrs.Length == cells.Length <= MAX_POOL && stage <= 6
      modifies hdrs, cells
      ensures hdrs[..] == old(hdrs[..])[i := StoreInHeader(old(hdrs[i]), stage, i, made)]
      ensures cells[..] == old(cells[..])[i := StoreInCell(old(cells[i]), stage, made)]
    {
      match stage {
        case 0 => hdrs[i] := hdrs[i].(serial := NextSerial(hdrs[i].serial), gen := hdrs[i].gen + 1);
        case 1 => hdrs[i] := hdrs[i].(creator := made.creator);
        case 2 => cells[i] := cells[i].(refCount := 0);
        case 3 => hdrs[i] := hdrs[i].(inUse := true);
        case 4 => hdrs[i] := hdrs[i].(name := made.name);
        case 5 => cells[i] := cells[i].(flag := made.value);
        case _ => hdrs[i] := hdrs[i].(id := IdPackBits(TYPE_BINSEM, hdrs[i].serial, i));
      }
    }

    /** All of AOS_SemCreate, when nobody comes in between. */
    method Create(t: Tid, req: Request, initial: nat) returns (status: Status, id: u32)
      requires Valid() && Enabled(Snapshot(), CreateBegin(t, req, initial))
      modifies this`pc, this`lock, hdrs, cells
      ensures old(Allowed(Snapshot(), CreateBegin(t, req, initial))) ==> Valid()
      ensures status == CreateStatus(old(hdrs[..]), req, InitialStateOk(initial))
      ensures if status == Success
              then Snapshot() == CreatedAtOnce(old(Snapshot()), t, req, initial)
                && PostAccepts(hdrs[..], id) == Some(FirstFree(old(hdrs[..])))
              else Snapshot() == Move(old(Snapshot()), t, Idle(status))
    {
      ghost var s := Snapshot();
      var slot;
      status, slot := CreateBegins(t, req, initial);
      id := ID_NONE;
      if status == Success {
        if Allowed(s, CreateBegin(t, req, initial)) { CreatedKeepsInv(s, t, req, initial); }
        id := FillSlot(slot, req.name.value, req.creator, initial);
        FilledIsCreated(s, t, req, initial, hdrs[..], cells[..]);
        pc, lock := pc[t := Idle(Success)], None;
        UnpackOfPack(TYPE_BINSEM, hdrs[slot].serial, slot);
      }
    }

    /** The seven stores in a row, the id last. */
    method FillSlot(i: nat, name: string, creator: u32, value: u8) returns (id: u32)
      requires i < hdrs.Length == cells.Length <= MAX_POOL
      modifies hdrs, cells
      ensures hdrs[..] == old(hdrs[..])[i := Issue(old(hdrs[i]), TYPE_BINSEM, i, name, creator)]
      ensures cells[..] == old(cells[..])[i := old(cells[i]).(flag := value, refCount := 0)]
      ensures id == hdrs[i].id
    {
      hdrs[i] := hdrs[i].(serial := NextSerial(hdrs[i].serial), gen := hdrs[i].gen + 1);
      id := IdPackBits(TYPE_BINSEM, hdrs[i].serial, i);
      hdrs[i] := hdrs[i].(creator := creator);
      cells[i] := cells[i].(refCount := 0);
      hdrs[i] := hdrs[i].(inUse := true);
      hdrs[i] := hdrs[i].(name := name);
      cells[i] := cells[i].(flag := value);
      hdrs[i] := hdrs[i].(id := id);
    }

    /** AOS_PosixSemAcquireReference. */
    method AcquireReference(t: Tid, id: u32, kind: WaitKind) returns (status: Status)
      requires Valid() && Enabled(Snapshot(), Acquire(t, id, kind))
      modifies this`pc, cells
      ensures Valid() && Snapshot() == AcquireStep(old(Snapshot()), t, id, kind)
      ensures status == InvalidId || status == Success
      ensures status == InvalidId <==> pc[t] == Idle(InvalidId)
    {
      AcquireKeepsInv(Snapshot(), t, id, kind);
      var slot;
      status, slot := Validate(id);
      if status == Success {
        cells[slot] := cells[slot].(refCount := Inc32(cells[slot].refCount));
        pc := pc[t := Waiting(slot, hdrs[slot].gen, kind)];
      } else {
        pc := pc[t := Idle(status)];
      }
    }

    /** The do-while loop around the native wait: it is called until it returns without EINTR. */
    method NativeWaitLoop(t: Tid, slot: nat, calls: seq<WaitResult>) returns (rc: WaitResult)
      requires Valid() && Inside(Snapshot(), t) && pc[t].Waiting? && slot == pc[t].i
      requires |calls| > 0 && calls[|calls| - 1] != Interrupted
      requires forall k :: 0 <= k < |calls| ==> NativeWaitMay(cells[slot].native, pc[t].kind, calls[k])
      modifies this`pc, cells
      ensures rc != Interrupted && Valid() && Snapshot() == NativeWaitStep(old(Snapshot()), t, rc)
      ensures exists k :: 0 <= k < |calls| && rc == calls[k] && forall j :: 0 <= j < k ==> calls[j] == Interrupted
    {
      rc := Retry(calls);
      NativeWaitEnds(t, slot, rc);
    }

    method Retry(calls: seq<WaitResult>) returns (rc: WaitResult)
      requires |calls| > 0 && calls[|calls| - 1] != Interrupted
      ensures rc != Interrupted
      ensures exists k :: 0 <= k < |calls| && rc == calls[k] && forall j :: 0 <= j < k ==> calls[j] == Interrupted
    {
      var k := 0;
      rc := calls[0];
      while rc == Interrupted
        invariant k < |calls| && rc == calls[k]
        invariant forall j :: 0 <= j < k ==> calls[j] == Interrupted
        decreases |calls| - k
      {
        k := k + 1;
        rc := calls[k];
      }
    }

    /** The last native wait takes a token from the count, or fails. */
    method NativeWaitEnds(t: Tid, slot: nat, rc: WaitResult)
      requires Valid() && Enabled(Snapshot(), NativeWait(t, rc)) && slot == pc[t].i && rc != Interrupted
      modifies this`pc, cells
      ensures Valid() && Snapshot() == NativeWaitStep(old(Snapshot()), t, rc)
      ensures pc[t] == Consumed(slot, old(pc[t]).gen) <==> rc == Taken
      ensures pc[t] == Releasing(slot, old(pc[t]).gen, Busy) <==> rc == WouldBlock
      ensures pc[t] == Releasing(slot, old(pc[t]).gen, TimedOut) <==> rc == Expired
      ensures pc[t] == Releasing(slot, old(pc[t]).gen, Generic) <==> rc == Broken
    {
      NativeWaitIsAnswered(Snapshot(), t, rc);
      if rc == Taken {
        if cells[slot].native.Sem? && cells[slot].native.count > 0 {
          cells[slot] := cells[slot].(native := Sem(cells[slot].native.count - 1));
        }
        pc := pc[t := Consumed(slot, pc[t].gen)];
      } else {
        pc := pc[t := Releasing(slot, pc[t].gen, WaitStatus(pc[t].kind, rc))];
      }
    }

    /** The store after a successful native wait; the semaphore is empty again. */
    method ClearFlag(t: Tid, slot: nat)
      requires Valid() && Enabled(Snapshot(), ClearState(t)) && slot == pc[t].i
      modifies this`pc, cells
      ensures Valid() && Snapshot() == ClearStateStep(old(Snapshot()), t)
      ensures SlotPhase(cells[slot], pc, slot) == Some(Empty)
    {
      InvMakesUsesSound(Snapshot(), ClearState(t));
      StepFollowsAutomaton(Snapshot(), ClearState(t), slot);
      ClearStateKeepsInv(Snapshot(), t);
      cells[slot] := cells[slot].(flag := 0);
      pc := pc[t := Releasing(slot, pc[t].gen, Success)];
    }

    /** AOS_PosixSemReleaseReference. */
    method ReleaseReference(t: Tid, slot: nat)
      requires Valid() && Enabled(Snapshot(), Release(t)) && slot == pc[t].i
      modifies this`pc, cells
      ensures Valid() && Snapshot() == ReleaseStep(old(Snapshot()), t)
      ensures cells[slot].refCount == old(cells[slot].refCount) - 1
    {
      InvMakesUsesSound(Snapshot(), Release(t));
      ReleaseKeepsInv(Snapshot(), t);
      if cells[slot].refCount > 0 {
        cells[slot] := cells[slot].(refCount := cells[slot].refCount - 1);
      }
      pc := pc[t := Idle(pc[t].status)];
    }

    /** The validation at the start of AOS_SemPost. */
    method PostValidates(t: Tid, id: u32) returns (status: Status, slot: nat)
      requires Valid() && Enabled(Snapshot(), PostCheck(t, id))
      modifies this`pc
      ensures Valid() && Snapshot() == PostCheckStep(old(Snapshot()), t, id)
      ensures status == InvalidId <==> pc[t] == Idle(InvalidId)
    {
      PostCheckKeepsInv(Snapshot(), t, id);
      status, slot := InvalidId, 0;
      if IdTypeBits(id) == TYPE_BINSEM {
        slot := IdIndexBits(id);
        if slot < hdrs.Length && hdrs[slot].id == id {
          status := Success;
        }
      }
      pc := pc[t := if status == Success then Checked(slot, hdrs[slot].gen) else Idle(InvalidId)];
    }

    /** The compare-and-swap of AOS_SemPost. */
    method PostSwaps(t: Tid, slot: nat) returns (status: Status)
      requires Valid() && Enabled(Snapshot(), PostSwap(t)) && slot == pc[t].i
      modifies this`pc, cells
      ensures Valid() && Snapshot() == PostSwapStep(old(Snapshot()), t)
      ensures status == InvalidState <==> SlotPhase(old(cells[slot]), old(pc), slot) != Some(Empty)
    {
      InvMakesUsesSound(Snapshot(), PostSwap(t));
      RefusalsMatchPhase(Snapshot(), t, slot);
      PostSwapKeepsInv(Snapshot(), t);
      if cells[slot].flag == 0 {
        cells[slot] := cells[slot].(flag := 1);
        pc := pc[t := Won(slot, pc[t].gen)];
        status := Success;
      } else {
        pc := pc[t := Idle(InvalidState)];
        status := InvalidState;
      }
    }

    /** sem_post inside AOS_SemPost: in every reachable state it succeeds. */
    method NativePostSucceeds(t: Tid, slot: nat)
      requires Valid() && Enabled(Snapshot(), NativePost(t)) && slot == pc[t].i
      modifies this`pc, cells
      ensures Valid() && Snapshot() == NativePostStep(old(Snapshot()), t)
      ensures pc[t] == Idle(Success) && cells[slot].native == Sem(1)
    {
      PostSucceeds(Snapshot(), t);
      cells[slot] := cells[slot].(native := Sem(cells[slot].native.count + 1));
      pc := pc[t := Idle(Success)];
    }

    /** AOS_SemDelete up to the store that clears the id; a Post may come in before the next store. */
    method DeleteClearsId(t: Tid, id: u32) returns (status: Status, slot: nat)
      requires Valid() && Enabled(Snapshot(), DeleteBegin(t, id))
      modifies this`pc, this`lock, hdrs
      ensures old(Allowed(Snapshot(), DeleteBegin(t, id))) ==> Valid()
      ensures Snapshot() == DeleteBeginStep(old(Snapshot()), t, id)
      ensures status == Success <==> pc[t].Retiring?
      ensures status != Success ==> pc[t] == Idle(status)
    {
      if Allowed(Snapshot(), DeleteBegin(t, id)) { DeleteBeginKeepsInv(Snapshot(), t, id); }
      status, slot := Validate(id);
      if status == Success && cells[slot].refCount != 0 {
        status := Busy;
      }
      if status == Success {
        hdrs[slot] := hdrs[slot].(id := ID_NONE);
        pc, lock := pc[t := Retiring(slot, id)], Some(t);
      } else {
        pc := pc[t := Idle(status)];
      }
    }

    /** The store that clears in_use, and the unlock. */
    method DeleteClearsInUse(t: Tid, slot: nat)
      requires Valid() && Enabled(Snapshot(), DeleteStore(t)) && slot == pc[t].i
      modifies this`pc, this`lock, hdrs
      ensures Valid() && Snapshot() == DeleteStoreStep(old(Snapshot()), t)
    {
      DeleteStoreKeepsInv(Snapshot(), t);
      hdrs[slot] := hdrs[slot].(inUse := false);
      pc, lock := pc[t := Destroying(slot, pc[t].id)], None;
    }

    /** sem_destroy returns. */
    method NativeDestroyReturns(t: Tid, slot: nat, how: DestroyResult)
      requires Valid() && Enabled(Snapshot(), NativeDestroy(t, how)) && slot == pc[t].i
      modifies this`pc, cells
      ensures Valid() && Snapshot() == NativeDestroyStep(old(Snapshot()), t, how)
    {
      NativeDestroyKeepsInv(Snapshot(), t, how);
      if how == Destroyed {
        cells[slot] := cells[slot].(native := NoSem);
        pc := pc[t := Cleaning(slot)];
      } else {
        pc := pc[t := Restoring(slot, pc[t].id, if how == StillUsed then Busy else Generic)];
      }
    }

    /** The final clean-up of AOS_SemDelete. */
    method DeleteCleansUp(t: Tid, slot: nat)
      requires Valid() && Enabled(Snapshot(), DeleteEnd(t)) && pc[t] == Cleaning(slot)
      modifies this`pc, hdrs, cells
      ensures Valid() && Snapshot() == DeleteEndStep(old(Snapshot()), t)
    {
      DeleteEndKeepsInv(Snapshot(), t);
      hdrs[slot] := hdrs[slot].(creator := ID_NONE, name := "");
      cells[slot] := cells[slot].(refCount := 0);
      pc := pc[t := Idle(Success)];
    }

    /** The roll-back of AOS_SemDelete: lock, first store. */
    method RollBackSetsInUse(t: Tid, slot: nat)
      requires Valid() && Enabled(Snapshot(), DeleteEnd(t)) && pc[t].Restoring? && slot == pc[t].i
      modifies this`pc, this`lock, hdrs
      ensures Valid() && Snapshot() == DeleteEndStep(old(Snapshot()), t)
    {
      DeleteEndKeepsInv(Snapshot(), t);
      hdrs[slot] := hdrs[slot].(inUse := true);
      pc, lock := pc[t := Republishing(slot, pc[t].id, pc[t].status)], Some(t);
    }

    /** The roll-back's second store, and the unlock. */
    method RollBackSetsId(t: Tid, slot: nat, id: u32)
      requires Valid() && Enabled(Snapshot(), Republish(t)) && slot == pc[t].i && id == pc[t].id
      modifies this`pc, this`lock, hdrs
      ensures Valid() && Snapshot() == RepublishStep(old(Snapshot()), t)
    {
      RepublishKeepsInv(Snapshot(), t);
      hdrs[slot] := hdrs[slot].(id := id);
      pc, lock := pc[t := Idle(pc[t].status)], None;
    }

    /** AOS_SemGetInfo: the entry of an accepted id. */
    method GetInfo(id: u32) returns (info: Option<Entry>)
      requires Valid() && lock == None
      ensures info.Some? <==> PostAccepts(hdrs[..], id).Some?
      ensures info.Some? ==> var h := hdrs[..][PostAccepts(hdrs[..], id).value]; info.value == Entry(h.name, h.creator)
    {
      ValidationsAgree(Snapshot(), id);
      var status, slot := Validate(id);
      if status != Success {
        return None;
      }
      return Some(Entry(hdrs[slot].name, hdrs[slot].creator));
    }
  }
}
