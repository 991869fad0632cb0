/**
 * aos_mutex.c as it runs: a fixed array of slots updated in place. Each method is one section under
 * the table lock, or one native call; between two of them any other thread may run. Its contract is
 * the step of MutexModel, so everything proved there about runs holds of these methods.
 */
module MutexPool {
  import opened Common
  import opened Ids
  import opened Table
  import opened MutexModel
  import opened MutexProperties

  class Pool {
    const hdrs: array<Header>
    const cells: array<Cell>
    /** Where every thread is; the C code has it in the threads' own stacks. */
    ghost var pc: map<Tid, Pc>

    ghost function Snapshot(): State
      reads this, hdrs, cells
    {
      State(hdrs[..], cells[..], pc)
    }

    ghost predicate Valid()
      reads this, hdrs, cells
    {
      Inv(Snapshot())
    }

    /** AOS_PosixMutexInit: the pool is zeroed. */
    constructor (n: nat, ghost threads: set<Tid>)
      requires Start(n, threads)
      ensures Valid() && fresh(hdrs) && fresh(cells)
      ensures Snapshot() == Init(n, threads)
    {
      hdrs := new Header[n](_ => ZEROED);
      cells := new Cell[n](_ => Cell(Absent, 0));
      pc := map t | t in threads :: Idle(Success);
      new;
      assert hdrs[..] == seq(n, _ => ZEROED) && cells[..] == seq(n, _ => Cell(Absent, 0));
      InitHasInv(n, threads);
    }

    /** AOS_PosixValidateMutexIdLocked. */
    method Validate(id: u32) returns (status: Status, slot: nat)
      ensures status == Success <==> Lookup(hdrs[..], TYPE_MUTEX, id) == Some(slot)
      ensures status != Success ==> status == InvalidId && Lookup(hdrs[..], TYPE_MUTEX, id) == None
    {
      slot := 0;
      if IdTypeBits(id) != TYPE_MUTEX {
        return InvalidId, slot;
      }
      slot := IdIndexBits(id);
      if slot >= hdrs.Length || !hdrs[slot].inUse || hdrs[slot].id != id || hdrs[slot].serial != IdSerialBits(id) {
        return InvalidId, slot;
      }
      return Success, slot;
    }

    /** AOS_MutexCreate. */
    method Create(t: Tid, req: Request) returns (status: Status, id: u32)
      requires Valid() && IdleAt(Snapshot(), t)
      modifies this`pc, hdrs, cells
      ensures Snapshot() == CreateStep(old(Snapshot()), t, req)
      ensures old(Allowed(Snapshot(), MutexModel.Create(t, req))) ==> Valid()
      ensures status == pc[t].last
      ensures status == Success ==> Lookup(hdrs[..], TYPE_MUTEX, id) == Some(FirstFree(old(hdrs[..])))
    {
      ghost var s := Snapshot();
      if Allowed(s, MutexModel.Create(t, req)) { CreateKeepsInv(s, t, req); }
      id := ID_NONE;
      status := CheckRequest(req, true);
      if status == Success {
        var taken := ScanForName(hdrs, req.name.value);
        var i := ScanForFree(hdrs);
        if taken {
          status := NameIsTaken;
        } else if i == hdrs.Length {
          status := NoFreeIds;
        } else if !req.nativeOk {
          status := CreationFailed;
        } else {
          id := FillSlot(i, req.name.value, req.creator);
        }
      }
      pc := pc[t := Idle(status)];
      if status == Success {
        IssueIsSound(s.hdrs[FirstFree(s.hdrs)], TYPE_MUTEX, FirstFree(s.hdrs), req.name.value, req.creator);
        SoundAfterUpdate(s.hdrs, TYPE_MUTEX, FirstFree(s.hdrs), hdrs[FirstFree(s.hdrs)]);
        LookupFindsOwnId(hdrs[..], TYPE_MUTEX, FirstFree(s.hdrs));
      }
    }

    /** The stores of AOS_MutexCreate, pthread_mutex_init first. */
    method FillSlot(i: nat, name: string, creator: u32) returns (id: u32)
      requires i < hdrs.Length == cells.Length <= MAX_POOL
      modifies hdrs, cells
      ensures hdrs[..] == old(hdrs[..])[i := Issue(old(hdrs[i]), TYPE_MUTEX, i, name, creator)]
      ensures cells[..] == old(cells[..])[i := Cell(Ready(None), 0)]
      ensures id == hdrs[i].id
    {
      cells[i] := cells[i].(native := Ready(None));
      hdrs[i] := hdrs[i].(serial := NextSerial(hdrs[i].serial));
      hdrs[i] := hdrs[i].(id := IdPackBits(TYPE_MUTEX, hdrs[i].serial, i));
      hdrs[i] := hdrs[i].(creator := creator);
      cells[i] := cells[i].(refCount := 0);
      hdrs[i] := hdrs[i].(inUse := true, gen := hdrs[i].gen + 1);
      hdrs[i] := hdrs[i].(name := name);
      id := hdrs[i].id;
    }

    /** AOS_PosixMutexAcquireReference. */
    method AcquireReference(t: Tid, id: u32, kind: LockKind) returns (status: Status)
      requires Valid() && IdleAt(Snapshot(), t)
      modifies this`pc, cells
      ensures Valid() && Snapshot() == AcquireStep(old(Snapshot()), t, id, kind)
      ensures status == InvalidId || status == Success
      ensures status == InvalidId <==> pc[t] == Idle(InvalidId)
    {
      AcquireKeepsInv(Snapshot(), t, id, kind);
      var slot;
      status, slot := Validate(id);
      if status == Success {
        cells[slot] := cells[slot].(refCount := Inc32(cells[slot].refCount));
        pc := pc[t := Locking(slot, hdrs[slot].gen, kind)];
      } else {
        pc := pc[t := Idle(status)];
      }
    }

    /** The native lock call inside Lock, TryLock or TimedLock returns `rc`. */
    method NativeLockReturns(t: Tid, slot: nat, rc: LockResult)
      requires Valid() && Enabled(Snapshot(), NativeLock(t, rc)) && slot == pc[t].i
      modifies this`pc, cells
      ensures Valid() && Snapshot() == NativeLockStep(old(Snapshot()), t, rc)
      ensures pc[t] == Idle(Success) <==> rc == Acquired
      ensures pc[t] == Failed(slot, old(pc[t]).gen, Busy) <==> rc == EBusy
      ensures pc[t] == Failed(slot, old(pc[t]).gen, InvalidState) <==> rc == EDeadlk
      ensures pc[t] == Failed(slot, old(pc[t]).gen, TimedOut) <==> rc == ETimedOut
      ensures pc[t] == Failed(slot, old(pc[t]).gen, Generic) <==> rc == EOther
    {
      NativeLockIsAnswered(Snapshot(), t, rc);
      if rc == Acquired {
        cells[slot] := cells[slot].(native := Ready(Some(t)));
        pc := pc[t := Idle(Success)];
      } else {
        pc := pc[t := Failed(slot, pc[t].gen, LockStatus(pc[t].kind, rc))];
      }
    }

    /** AOS_PosixMutexReleaseReference. */
    method ReleaseReference(t: Tid, slot: nat)
      requires Valid() && Enabled(Snapshot(), Release(t)) && slot == pc[t].i
      modifies this`pc, cells
      ensures Valid() && Snapshot() == ReleaseStep(old(Snapshot()), t)
      ensures cells[slot].refCount == old(cells[slot].refCount) - 1
    {
      InvMakesUsesSound(Snapshot(), Release(t));
      ReleaseKeepsInv(Snapshot(), t);
      if cells[slot].refCount > 0 {
        cells[slot] := cells[slot].(refCount := cells[slot].refCount - 1);
      }
      pc := pc[t := Idle(if pc[t].Failed? then pc[t].status else Success)];
    }

    /** AOS_MutexUnlock up to where it drops the table lock. */
    method UnlockValidates(t: Tid, id: u32) returns (status: Status, slot: nat)
      requires Valid() && IdleAt(Snapshot(), t)
      modifies this`pc
      ensures Valid() && Snapshot() == UnlockCheckStep(old(Snapshot()), t, id)
      ensures status == InvalidId <==> pc[t] == Idle(InvalidId)
    {
      UnlockCheckKeepsInv(Snapshot(), t, id);
      status, slot := Validate(id);
      if status == Success {
        pc := pc[t := Unlocking(slot, hdrs[slot].gen, cells[slot].native == Ready(Some(t)))];
      } else {
        pc := pc[t := Idle(status)];
      }
    }

    /** pthread_mutex_unlock inside AOS_MutexUnlock. */
    method NativeUnlockReturns(t: Tid, slot: nat, rc: UnlockResult) returns (status: Status)
      requires Valid() && Enabled(Snapshot(), NativeUnlock(t, rc)) && slot == pc[t].i
      modifies this`pc, cells
      ensures Snapshot() == NativeUnlockStep(old(Snapshot()), t, rc)
      ensures old(Allowed(Snapshot(), NativeUnlock(t, rc))) ==> Valid() && (status == Success <==> old(pc[t]).owned)
      ensures old(cells[slot]).native.Ready? ==> status == if old(pc[t]).owned then Success else InvalidState
      ensures status != Success ==> status in {InvalidState, Generic} && pc[t] == Idle(status)
    {
      assert ThreadOk(Snapshot(), t);
      if Allowed(Snapshot(), NativeUnlock(t, rc)) {
        InvMakesUsesSound(Snapshot(), NativeUnlock(t, rc));
        NativeUnlockKeepsInv(Snapshot(), t, rc);
      }
      if rc == Freed {
        if cells[slot].native.Ready? {
          cells[slot] := cells[slot].(native := Ready(None));
        }
        pc := pc[t := Unlocked(slot, pc[t].gen)];
        return Success;
      }
      status := if rc == EPerm then InvalidState else Generic;
      pc := pc[t := Idle(status)];
    }

    /** The first locked section of AOS_MutexDelete. */
    method DeleteBegins(t: Tid, id: u32) returns (status: Status, slot: nat)
      requires Valid() && IdleAt(Snapshot(), t)
      modifies this`pc, hdrs
      ensures Valid() && Snapshot() == DeleteBeginStep(old(Snapshot()), t, id)
      ensures status == Success <==> pc[t].Destroying?
      ensures status != Success ==> pc[t] == Idle(status)
    {
      DeleteBeginKeepsInv(Snapshot(), t, id);
      status, slot := Validate(id);
      if status == Success && cells[slot].refCount != 0 {
        status := Busy;
      }
      if status == Success {
        hdrs[slot] := hdrs[slot].(inUse := false);
        pc := pc[t := Destroying(slot)];
        assert cells[..] == old(cells[..])[slot := cells[slot]];
      } else {
        pc := pc[t := Idle(status)];
      }
    }

    /** pthread_mutex_destroy: in every reachable state it succeeds. */
    method NativeDestroySucceeds(t: Tid, slot: nat)
      requires Valid() && Enabled(Snapshot(), NativeDestroy(t)) && slot == pc[t].i
      modifies this`pc, cells
      ensures Valid() && Snapshot() == NativeDestroyStep(old(Snapshot()), t)
      ensures pc[t].Cleaning?
    {
      InvMakesUsesSound(Snapshot(), NativeDestroy(t));
      NativeDestroyKeepsInv(Snapshot(), t);
      cells[slot] := cells[slot].(native := Absent);
      pc := pc[t := Cleaning(slot)];
    }

    /** The second locked section of AOS_MutexDelete. */
    method DeleteEnds(t: Tid, slot: nat)
      requires Valid() && Enabled(Snapshot(), DeleteEnd(t)) && slot == pc[t].i
      modifies this`pc, hdrs, cells
      ensures Valid() && Snapshot() == DeleteEndStep(old(Snapshot()), t)
      ensures pc[t] == Idle(Success)
    {
      InvMakesUsesSound(Snapshot(), DeleteEnd(t));
      DeleteEndKeepsInv(Snapshot(), t);
      WipeSlot(slot);
      pc := pc[t := Idle(Success)];
    }

    /** The final stores of AOS_MutexDelete; the serial stays, so that old ids can be told apart. */
    method WipeSlot(i: nat)
      requires i < hdrs.Length == cells.Length
      modifies hdrs, cells
      ensures hdrs[..] == old(hdrs[..])[i := old(hdrs[i]).(id := ID_NONE, creator := ID_NONE, name := "")]
      ensures cells[..] == old(cells[..])[i := old(cells[i]).(refCount := 0)]
    {
      hdrs[i] := hdrs[i].(id := ID_NONE, creator := ID_NONE);
      cells[i] := cells[i].(refCount := 0);
      hdrs[i] := hdrs[i].(name := "");
    }

    /** AOS_MutexGetInfo reads the dictionary. */
    method GetInfo(id: u32) returns (info: Option<Entry>)
      requires Valid()
      ensures info == if id in Dict(hdrs[..]) then Some(Dict(hdrs[..])[id]) else None
    {
      LookupIsMembership(hdrs[..], TYPE_MUTEX, id);
      var status, slot := Validate(id);
      if status != Success {
        return None;
      }
      return Some(Entry(hdrs[slot].name, hdrs[slot].creator));
    }
  }
}
