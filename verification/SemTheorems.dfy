/** Consequences of the semaphore invariant over whole runs. */
module SemTheorems {
  import opened Common
  import opened Ids
  import opened Table
  import opened SemModel
  import opened SemProperties

  // ---------- Refusals ----------

  /** Post is refused with INVALID_STATE, and TryWait with BUSY, exactly in the phases that say so. */
  lemma RefusalsMatchPhase(s: State, t: Tid, i: nat)
    requires Inv(s) && At(s, t, i) && Live(s, i)
    ensures SlotPhase(s.cells[i], s.pc, i).Some?
    ensures var phase := SlotPhase(s.cells[i], s.pc, i).value;
            && (s.pc[t].Checked? ==> (PostSwapStep(s, t).pc[t] == Idle(InvalidState) <==> phase != Empty))
            && (s.pc[t].Waiting? && s.pc[t].kind == TryWait ==>
                  && (Enabled(s, NativeWait(t, WouldBlock)) <==> phase != Full)
                  && (Enabled(s, NativeWait(t, Taken)) <==> phase == Full)
                  && NativeWaitStep(s, t, WouldBlock).pc[t] == Releasing(i, s.pc[t].gen, Busy))
  {
    assert SlotOk(s.hdrs[i], s.cells[i], s.pc, i);
  }

  /** The results of the three wait calls, by what their native call returned. */
  lemma NativeWaitIsAnswered(s: State, t: Tid, rc: WaitResult)
    requires Inv(s) && Enabled(s, NativeWait(t, rc)) && rc != Interrupted
    ensures var p, s' := s.pc[t], NativeWaitStep(s, t, rc);
            && Inv(s')
            && (s'.pc[t] == Consumed(p.i, p.gen) <==> rc == Taken)
            && (s'.pc[t] == Releasing(p.i, p.gen, Busy) <==> rc == WouldBlock)
            && (s'.pc[t] == Releasing(p.i, p.gen, TimedOut) <==> rc == Expired)
            && (s'.pc[t] == Releasing(p.i, p.gen, Generic) <==> rc == Broken)
  {
    NativeWaitKeepsInv(s, t, rc);
    InvMakesUsesSound(s, NativeWait(t, rc));
  }

  /** sem_post inside AOS_SemPost always raises the count from 0 to 1. */
  lemma PostSucceeds(s: State, t: Tid)
    requires Inv(s) && Enabled(s, NativePost(t))
    ensures var i, r := s.pc[t].i, NativePostStep(s, t);
            && s.cells[i].native == Sem(0) && Inv(r)
            && r == UpdateCell(s, i, s.cells[i].(native := Sem(1)), t, Idle(Success))
  {
    InvMakesUsesSound(s, NativePost(t));
    NativePostKeepsInv(s, t);
  }

  // ---------- Fills and drains alternate ----------

  /** The two events of a slot: a successful Post's swap, and a successful wait's clearing store. */
  datatype Event = Fill | Drain

  ghost function EventOf(s: State, a: Action, i: nat): seq<Event>
    requires Shaped(s)
  {
    if !Enabled(s, a) || !At(s, a.t, i) then []
    else if a.PostSwap? && s.cells[i].flag == 0 then [Fill]
    else if a.ClearState? then [Drain]
    else []
  }

  ghost function Events(s: State, run: seq<Action>, i: nat): seq<Event>
    requires Shaped(s)
    decreases |run|
  {
    if run == [] then [] else EventOf(s, run[0], i) + Events(Step(s, run[0]), run[1..], i)
  }

  /** Strict alternation, starting with a Drain if the semaphore starts full and a Fill if not. */
  predicate Alternates(es: seq<Event>, full: bool)
  {
    es == [] || (es[0].Drain? == full && Alternates(es[1..], !full))
  }

  /** The flag at the end: what the last event left, or what it was. */
  predicate FullAfter(es: seq<Event>, full: bool) { if es == [] then full else es[|es| - 1].Fill? }

  /** No Create has begun to overwrite slot i. */
  ghost predicate NotBeingMade(s: State, i: nat)
  {
    forall t :: t in s.pc && s.pc[t].Creating? && s.pc[t].i == i ==> s.pc[t].stage == 0
  }

  lemma StepGeneration(s: State, a: Action, i: nat)
    requires Shaped(s) && i < |s.hdrs|
    ensures s.hdrs[i].gen <= Step(s, a).hdrs[i].gen
  {
  }

  lemma {:induction false} RunGeneration(s: State, run: seq<Action>, i: nat)
    requires Shaped(s) && i < |s.hdrs|
    ensures s.hdrs[i].gen <= Exec(s, run).hdrs[i].gen
    decreases |run|
  {
    if run != [] {
      StepGeneration(s, run[0], i);
      RunGeneration(Step(s, run[0]), run[1..], i);
    }
  }

  lemma StepEvent(s: State, a: Action, i: nat)
    requires Inv(s) && Allowed(s, a) && i < |s.hdrs| && NotBeingMade(s, i)
    requires Step(s, a).hdrs[i].gen == s.hdrs[i].gen
    ensures var flag, flag', e := s.cells[i].flag, Step(s, a).cells[i].flag, EventOf(s, a, i);
            && flag <= 1 && (e == [] ==> flag' == flag)
            && (e == [Fill] ==> flag == 0 && flag' == 1)
            && (e == [Drain] ==> flag == 1 && flag' == 0)
            && (e == [] || e == [Fill] || e == [Drain])
  {
    FlagIsBinary(s, i);
    if Enabled(s, a) && At(s, a.t, i) && (a.PostSwap? || a.ClearState? || a.PostUndo? || a.CreateStore?) {
      InvMakesUsesSound(s, a);
    } else {
      FlagStays(s, a, i);
    }
  }

  /** Only four kinds of action write the flag of slot i. */
  lemma FlagStays(s: State, a: Action, i: nat)
    requires Shaped(s) && i < |s.hdrs|
    requires Enabled(s, a) && At(s, a.t, i) ==> !(a.PostSwap? || a.ClearState? || a.PostUndo? || a.CreateStore?)
    ensures Step(s, a).cells[i].flag == s.cells[i].flag && EventOf(s, a, i) == []
  {
  }

  lemma StaysNotBeingMade(s: State, a: Action, i: nat)
    requires Shaped(s) && i < |s.hdrs| && NotBeingMade(s, i)
    requires Step(s, a).hdrs[i].gen == s.hdrs[i].gen
    ensures NotBeingMade(Step(s, a), i)
  {
  }

  /**
   * Over any run inside one generation of a slot, from any reachable state, the swaps of successful
   * Posts and the clearing stores of successful waits strictly alternate; the flag tells which
   * one is next. No post is lost, and none is taken twice.
   */
  lemma {:induction false} FillsAndDrainsAlternate(s: State, run: seq<Action>, i: nat)
    requires Inv(s) && InContract(s, run) && i < |s.hdrs| && NotBeingMade(s, i)
    requires Exec(s, run).hdrs[i].gen == s.hdrs[i].gen
    ensures Alternates(Events(s, run, i), s.cells[i].flag == 1)
    ensures Exec(s, run).cells[i].flag == 1 <==> FullAfter(Events(s, run, i), s.cells[i].flag == 1)
    decreases |run|
  {
    FlagIsBinary(s, i);
    if run != [] {
      var s1, e := Step(s, run[0]), EventOf(s, run[0], i);
      SameGenerationStep(s, run, i);
      FillsAndDrainsAlternate(s1, run[1..], i);
      PrependEvent(e, Events(s1, run[1..], i), s.cells[i].flag, s1.cells[i].flag);
    }
  }

  lemma FlagIsBinary(s: State, i: nat)
    requires Inv(s) && i < |s.hdrs|
    ensures s.cells[i].flag <= 1
  {
    assert SlotOk(s.hdrs[i], s.cells[i], s.pc, i);
  }

  /** The first step of such a run. */
  lemma SameGenerationStep(s: State, run: seq<Action>, i: nat)
    requires Inv(s) && InContract(s, run) && run != [] && i < |s.hdrs| && NotBeingMade(s, i)
    requires Exec(s, run).hdrs[i].gen == s.hdrs[i].gen
    ensures var s1 := Step(s, run[0]);
            && Inv(s1) && InContract(s1, run[1..]) && NotBeingMade(s1, i)
            && Exec(s1, run[1..]) == Exec(s, run) && s1.hdrs[i].gen == s.hdrs[i].gen
            && var flag, next, e := s.cells[i].flag, s1.cells[i].flag, EventOf(s, run[0], i);
               && flag <= 1
               && ((e == [] && next == flag) || (e == [Fill] && flag == 0 && next == 1) || (e == [Drain] && flag == 1 && next == 0))
  {
    StepGeneration(s, run[0], i);
    RunGeneration(Step(s, run[0]), run[1..], i);
    StepEvent(s, run[0], i);
    StaysNotBeingMade(s, run[0], i);
    StepKeepsInv(s, run[0]);
  }

  lemma PrependEvent(e: seq<Event>, rest: seq<Event>, flag: nat, next: nat)
    requires flag <= 1
    requires (e == [] && next == flag) || (e == [Fill] && flag == 0 && next == 1) || (e == [Drain] && flag == 1 && next == 0)
    requires Alternates(rest, next == 1)
    ensures Alternates(e + rest, flag == 1)
    ensures FullAfter(e + rest, flag == 1) == FullAfter(rest, next == 1)
  {
    if e == [] {
      assert e + rest == rest;
    } else {
      assert (e + rest)[1..] == rest;
    }
  }

  // ---------- A cancelled waiter ----------

  lemma LeakedStays(s: State, a: Action, t: Tid)
    requires Shaped(s) && t in s.pc && s.pc[t].Leaked?
    ensures t in Step(s, a).pc && Step(s, a).pc[t] == s.pc[t]
  {
  }

  /**
   * A task cancelled inside Wait or TimedWait never gives its reference back: in every continuation
   * the same object stays published, and every Delete of it is refused with BUSY.
   */
  lemma {:induction false} CancelledWaiterPinsForEver(s: State, run: seq<Action>, t: Tid)
    requires Inv(s) && InContract(s, run) && t in s.pc && s.pc[t].Leaked?
    ensures var r, i := Exec(s, run), s.pc[t].i;
            && Live(r, i) && r.hdrs[i].gen == s.pc[t].gen
            && forall u, id :: IdleAt(r, u) && Lookup(r.hdrs, TYPE_BINSEM, id) == Some(i) ==>
                 DeleteBeginStep(r, u, id).pc[u] == Idle(Busy)
    decreases |run|
  {
    if run == [] {
      assert ThreadOk(s, t);
      var i := s.pc[t].i;
      assert SlotOk(s.hdrs[i], s.cells[i], s.pc, i);
      assert t in Players(s.pc, i, Reference);
    } else {
      LeakedStays(s, run[0], t);
      StepKeepsInv(s, run[0]);
      CancelledWaiterPinsForEver(Step(s, run[0]), run[1..], t);
    }
  }

  // ---------- A Create that nobody interrupts ----------

  /** The seven stores of Create, one after the other. */
  function Stores(t: Tid, n: nat): seq<Action> { seq(n, _ => CreateStore(t)) }

  /** What a Create leaves when nobody interrupts it. */
  ghost function CreatedAtOnce(s: State, t: Tid, req: Request, initial: nat): State
    requires Shaped(s) && Enabled(s, CreateBegin(t, req, initial))
    requires CreateStatus(s.hdrs, req, InitialStateOk(initial)) == Success
  {
    var i := FirstFree(s.hdrs);
    State(s.hdrs[i := Issue(s.hdrs[i], TYPE_BINSEM, i, req.name.value, req.creator)],
          s.cells[i := Cell(Sem(initial), initial, 0)], s.pc[t := Idle(Success)], None)
  }

  /** It is what the first section and the seven stores compute. */
  lemma StoresCreate(s: State, t: Tid, req: Request, initial: nat)
    requires Shaped(s) && Enabled(s, CreateBegin(t, req, initial))
    requires CreateStatus(s.hdrs, req, InitialStateOk(initial)) == Success
    ensures Exec(CreateBeginStep(s, t, req, initial), Stores(t, 7)) == CreatedAtOnce(s, t, req, initial)
  {
    var i, s0 := FirstFree(s.hdrs), CreateBeginStep(s, t, req, initial);
    StoresFrom(s0, t, 0);
    StoresInSlot(s.hdrs[i], s.cells[i].(native := Sem(initial)), i, s0.pc[t].made);
  }

  /** The header and cell after the stores k, k+1, ..., 6. */
  ghost function HeaderFrom(h: Header, k: nat, i: u16, made: Made): Header
    requires k <= 7
    decreases 7 - k
  {
    if k == 7 then h else HeaderFrom(StoreInHeader(h, k, i, made), k + 1, i, made)
  }

  ghost function CellFrom(c: Cell, k: nat, made: Made): Cell
    requires k <= 7
    decreases 7 - k
  {
    if k == 7 then c else CellFrom(StoreInCell(c, k, made), k + 1, made)
  }

  lemma StoresInSlot(h: Header, c: Cell, i: u16, made: Made)
    ensures HeaderFrom(h, 0, i, made) == Issue(h, TYPE_BINSEM, i, made.name, made.creator)
    ensures CellFrom(c, 0, made) == c.(refCount := 0, flag := made.value)
  {
    assert HeaderFrom(h, 0, i, made) == HeaderFrom(StoreInHeader(StoreInHeader(h, 0, i, made), 1, i, made), 2, i, made);
    var h2 := h.(serial := NextSerial(h.serial), gen := h.gen + 1, creator := made.creator);
    assert HeaderFrom(h2, 2, i, made) == HeaderFrom(h2.(inUse := true), 4, i, made);
    var h4 := h2.(inUse := true, name := made.name);
    assert HeaderFrom(h4, 5, i, made) == HeaderFrom(StoreInHeader(h4, 6, i, made), 7, i, made);
    assert CellFrom(c, 0, made) == CellFrom(c, 2, made) == CellFrom(c.(refCount := 0), 3, made);
    assert CellFrom(c.(refCount := 0), 3, made) == CellFrom(c.(refCount := 0), 5, made);
  }

  lemma {:induction false} StoresFrom(s: State, t: Tid, k: nat)
    requires Shaped(s) && k <= 6 && Inside(s, t) && s.pc[t].Creating? && s.pc[t].stage == k
    ensures var p := s.pc[t];
            Exec(s, Stores(t, 7 - k)) ==
            State(s.hdrs[p.i := HeaderFrom(s.hdrs[p.i], k, p.i, p.made)],
                  s.cells[p.i := CellFrom(s.cells[p.i], k, p.made)], s.pc[t := Idle(Success)], None)
    decreases 7 - k
  {
    var run, s1 := Stores(t, 7 - k), CreateStoreStep(s, t);
    assert run[0] == CreateStore(t) && run[1..] == Stores(t, 6 - k);
    assert Step(s, run[0]) == s1;
    if k < 6 {
      StoresFrom(s1, t, k + 1);
    } else {
      assert run[1..] == [];
    }
  }

  lemma {:induction false} StoresAreAllowed(s: State, t: Tid, n: nat)
    requires Shaped(s)
    ensures InContract(s, Stores(t, n))
    decreases n
  {
    if n > 0 {
      assert Stores(t, n)[0] == CreateStore(t) && Stores(t, n)[1..] == Stores(t, n - 1);
      StoresAreAllowed(Step(s, CreateStore(t)), t, n - 1);
    }
  }

  lemma CreatedKeepsInv(s: State, t: Tid, req: Request, initial: nat)
    requires Inv(s) && Enabled(s, CreateBegin(t, req, initial)) && Allowed(s, CreateBegin(t, req, initial))
    requires CreateStatus(s.hdrs, req, InitialStateOk(initial)) == Success
    ensures Inv(CreatedAtOnce(s, t, req, initial))
  {
    var s0 := CreateBeginStep(s, t, req, initial);
    CreateBeginKeepsInv(s, t, req, initial);
    StoresAreAllowed(s0, t, 7);
    RunKeepsInv(s0, Stores(t, 7));
    StoresCreate(s, t, req, initial);
  }

  /** The seven stores, made at one go after the first section. */
  lemma FilledIsCreated(s: State, t: Tid, req: Request, initial: nat, hs: seq<Header>, cs: seq<Cell>)
    requires Shaped(s) && Enabled(s, CreateBegin(t, req, initial))
    requires CreateStatus(s.hdrs, req, InitialStateOk(initial)) == Success
    requires var s0, i := CreateBeginStep(s, t, req, initial), FirstFree(s.hdrs);
             && hs == s0.hdrs[i := Issue(s0.hdrs[i], TYPE_BINSEM, i, req.name.value, req.creator)]
             && cs == s0.cells[i := s0.cells[i].(flag := initial, refCount := 0)]
    ensures State(hs, cs, CreateBeginStep(s, t, req, initial).pc[t := Idle(Success)], None) == CreatedAtOnce(s, t, req, initial)
  {
  }
}
