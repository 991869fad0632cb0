/**
 * The descriptive half of a pool slot, the same in all three pools, and the operations on it that
 * the C code runs inside a locked section: the two scans of Create, id validation, retirement.
 */
module Table {
  import opened Common
  import opened Ids

  /** `gen` is history: how often the slot was handed out. No code reads it. */
  datatype Header = Header(inUse: bool, id: u32, serial: u8, name: string, creator: u32, gen: nat)

  const ZEROED: Header := Header(false, ID_NONE, 0, "", ID_NONE, 0)

  /** The arguments of a Create call, and whether the native initialisation it makes succeeds. */
  datatype Request = Request(outIsNull: bool, name: Option<string>, flags: u32, creator: u32, nativeOk: bool)

  /** AOS_MutexCreate's argument checks, in order; AOS_SemCreate has one more after the flags. */
  function CheckRequest(req: Request, extraParamOk: bool): Status
  {
    if req.outIsNull || req.name.None? then InvalidPointer
    else if req.flags != 0 || !extraParamOk then InvalidParam
    else if |req.name.value| == 0 then InvalidParam
    else if |req.name.value| >= MAX_NAME then NameTooLong
    else Success
  }

  // ---------- What the scans compute ----------

  predicate NameTaken(hs: seq<Header>, name: string)
  {
    exists i :: 0 <= i < |hs| && hs[i].inUse && hs[i].name == name
  }

  /** The lowest free slot, or |hs| when there is none. */
  function FirstFree(hs: seq<Header>): (k: nat)
    ensures k <= |hs|
    ensures forall j :: 0 <= j < k ==> hs[j].inUse
    ensures k < |hs| ==> !hs[k].inUse
  {
    if |hs| == 0 || !hs[0].inUse then 0 else 1 + FirstFree(hs[1..])
  }

  /** What Create returns: argument checks, NAME_TAKEN before NO_FREE_IDS, native initialisation last. */
  function CreateStatus(hs: seq<Header>, req: Request, extraParamOk: bool): Status
  {
    var check := CheckRequest(req, extraParamOk);
    if check != Success then check
    else if NameTaken(hs, req.name.value) then NameIsTaken
    else if FirstFree(hs) == |hs| then NoFreeIds
    else if !req.nativeOk then CreationFailed
    else Success
  }

  /** AOS_PosixValidate...IdLocked: the slot the id names, if it is accepted. */
  function Lookup(hs: seq<Header>, kind: u8, id: u32): (slot: Option<nat>)
    ensures slot.Some? ==> slot.value < |hs|
  {
    if IdType(id) != kind then None
    else
      var i := IdIndex(id);
      if i >= |hs| || !hs[i].inUse || hs[i].id != id || hs[i].serial != IdSerial(id) then None
      else Some(i)
  }

  /** A header as the locked section of Create leaves it. */
  function Issue(h: Header, kind: u8, index: u16, name: string, creator: u32): Header
  {
    var serial := NextSerial(h.serial);
    Header(true, IdPack(kind, serial, index), serial, name, creator, h.gen + 1)
  }

  method ScanForName(hs: array<Header>, name: string) returns (taken: bool)
    ensures taken <==> NameTaken(hs[..], name)
  {
    for index := 0 to hs.Length
      invariant forall i :: 0 <= i < index ==> !(hs[i].inUse && hs[i].name == name)
    {
      if hs[index].inUse && hs[index].name == name {
        assert hs[..][index].inUse && hs[..][index].name == name;
        return true;
      }
    }
    return false;
  }

  method ScanForFree(hs: array<Header>) returns (slot: nat)
    ensures slot == FirstFree(hs[..])
  {
    slot := 0;
    while slot < hs.Length
      invariant slot <= hs.Length
      invariant forall j :: 0 <= j < slot ==> hs[j].inUse
    {
      if !hs[slot].inUse {
        break;
      }
      slot := slot + 1;
    }
    FirstFreeIsUnique(hs[..], slot);
  }

  lemma FirstFreeIsUnique(hs: seq<Header>, k: nat)
    requires k <= |hs|
    requires forall j :: 0 <= j < k ==> hs[j].inUse
    requires k < |hs| ==> !hs[k].inUse
    ensures k == FirstFree(hs)
  {
  }

  // ---------- What Create answers ----------

  /** The arguments that every check of MutexCreate and SemCreate lets through. */
  predicate GoodRequest(req: Request, extraParamOk: bool)
  {
    !req.outIsNull && req.name.Some? && req.flags == 0 && extraParamOk && 1 <= |req.name.value| <= 19
  }

  /** Each answer of Create, by the exact condition on its arguments and the table. */
  lemma CreateAnswers(hs: seq<Header>, req: Request, extraParamOk: bool)
    ensures var r, good := CreateStatus(hs, req, extraParamOk), GoodRequest(req, extraParamOk);
            var pointers := !req.outIsNull && req.name.Some?;
            && (r == InvalidPointer <==> !pointers)
            && (r == InvalidParam <==> pointers && (req.flags != 0 || !extraParamOk || req.name.value == ""))
            && (r == NameTooLong <==> pointers && req.flags == 0 && extraParamOk && |req.name.value| >= 20)
            && (r == NameIsTaken <==> good && exists i :: 0 <= i < |hs| && hs[i].inUse && hs[i].name == req.name.value)
            && (r == NoFreeIds <==> good && !NameTaken(hs, req.name.value) && forall i :: 0 <= i < |hs| ==> hs[i].inUse)
            && (r == CreationFailed <==>
                  good && !NameTaken(hs, req.name.value) && (exists i :: 0 <= i < |hs| && !hs[i].inUse) && !req.nativeOk)
            && (r == Success <==>
                  good && !NameTaken(hs, req.name.value) && (exists i :: 0 <= i < |hs| && !hs[i].inUse) && req.nativeOk)
  {
    var k := FirstFree(hs);
    if k < |hs| { assert !hs[k].inUse; }
  }

  // ---------- The table invariant ----------

  /** Every serial counts creations, and every slot in use carries its own id. */
  ghost predicate HeaderSound(h: Header, kind: u8, i: nat)
  {
    && i < MAX_POOL
    && h.serial == SerialOf(h.gen)
    && (h.inUse ==> h.gen >= 1 && h.id == IdPack(kind, h.serial, i))
  }

  ghost predicate Sound(hs: seq<Header>, kind: u8)
  {
    && |hs| <= MAX_POOL
    && forall i :: 0 <= i < |hs| ==> HeaderSound(hs[i], kind, i)
  }

  ghost predicate NamesDistinct(hs: seq<Header>)
  {
    forall i, j :: 0 <= i < j < |hs| && hs[i].inUse && hs[j].inUse ==> hs[i].name != hs[j].name
  }

  lemma IssueIsSound(h: Header, kind: u8, i: nat, name: string, creator: u32)
    requires HeaderSound(h, kind, i)
    ensures HeaderSound(Issue(h, kind, i, name, creator), kind, i)
  {
  }

  lemma LookupFindsOwnId(hs: seq<Header>, kind: u8, i: nat)
    requires Sound(hs, kind) && i < |hs| && hs[i].inUse
    ensures Lookup(hs, kind, hs[i].id) == Some(i)
  {
    UnpackOfPack(kind, hs[i].serial, i);
  }

  /** No two slots in use carry the same id. */
  ghost predicate IdsDistinct(hs: seq<Header>)
  {
    forall i, j :: 0 <= i < j < |hs| && hs[i].inUse && hs[j].inUse ==> hs[i].id != hs[j].id
  }

  lemma SoundMeansDistinct(hs: seq<Header>, kind: u8)
    requires Sound(hs, kind)
    ensures IdsDistinct(hs)
    ensures kind >= 1 ==> forall i :: 0 <= i < |hs| && hs[i].inUse ==> hs[i].id != ID_NONE
  {
    forall i, j | 0 <= i < j < |hs| && hs[i].inUse && hs[j].inUse ensures hs[i].id != hs[j].id {
      assert HeaderSound(hs[i], kind, i) && HeaderSound(hs[j], kind, j);
      PackIsInjective(kind, hs[i].serial, i, kind, hs[j].serial, j);
    }
    forall i | 0 <= i < |hs| && hs[i].inUse ensures kind >= 1 ==> hs[i].id != ID_NONE {
      assert HeaderSound(hs[i], kind, i);
      PackIsInjective(kind, hs[i].serial, i, kind, hs[i].serial, i);
    }
  }

  /** A header that is sound may replace any other; soundness is slot by slot. */
  lemma SoundAfterUpdate(hs: seq<Header>, kind: u8, i: nat, h: Header)
    requires Sound(hs, kind) && i < |hs| && HeaderSound(h, kind, i)
    ensures Sound(hs[i := h], kind)
  {
  }

  // ---------- The table as a dictionary ----------

  datatype Entry = Entry(name: string, creator: u32)

  /** The finite map the first n slots stand for: from ids in use to their descriptions. */
  ghost function DictUpto(hs: seq<Header>, n: nat): map<u32, Entry>
    requires n <= |hs|
  {
    if n == 0 then map[]
    else
      var d := DictUpto(hs, n - 1);
      if hs[n - 1].inUse then d[hs[n - 1].id := Entry(hs[n - 1].name, hs[n - 1].creator)] else d
  }

  ghost function Dict(hs: seq<Header>): map<u32, Entry> { DictUpto(hs, |hs|) }

  ghost predicate Holds(hs: seq<Header>, n: nat, id: u32)
    requires n <= |hs|
  {
    exists i :: 0 <= i < n && hs[i].inUse && hs[i].id == id
  }

  /** The keys are exactly the ids in use, and each maps to its own slot's description. */
  lemma {:induction false} DictContents(hs: seq<Header>, n: nat)
    requires n <= |hs| && IdsDistinct(hs)
    ensures forall id :: id in DictUpto(hs, n) <==> Holds(hs, n, id)
    ensures forall i :: 0 <= i < n && hs[i].inUse ==>
              hs[i].id in DictUpto(hs, n) && DictUpto(hs, n)[hs[i].id] == Entry(hs[i].name, hs[i].creator)
  {
    if n > 0 {
      DictContents(hs, n - 1);
      var h := hs[n - 1];
      forall id ensures Holds(hs, n, id) <==> Holds(hs, n - 1, id) || (h.inUse && h.id == id) {
        if Holds(hs, n, id) {
          var i :| 0 <= i < n && hs[i].inUse && hs[i].id == id;
          assert i == n - 1 || i < n - 1;
        }
      }
    }
  }

  /** Validation is dictionary membership, and GetInfo reads the entry. */
  lemma LookupIsMembership(hs: seq<Header>, kind: u8, id: u32)
    requires Sound(hs, kind)
    ensures Lookup(hs, kind, id).Some? <==> id in Dict(hs)
    ensures Lookup(hs, kind, id).Some? ==>
              var h := hs[Lookup(hs, kind, id).value];
              h.id == id && Dict(hs)[id] == Entry(h.name, h.creator)
  {
    SoundMeansDistinct(hs, kind);
    DictContents(hs, |hs|);
    if Holds(hs, |hs|, id) {
      var i :| 0 <= i < |hs| && hs[i].inUse && hs[i].id == id;
      LookupFindsOwnId(hs, kind, i);
    }
  }

  /** No id is in two pools of different types, and the null id is in none. */
  lemma PoolsShareNoId(a: seq<Header>, kindA: u8, b: seq<Header>, kindB: u8)
    requires Sound(a, kindA) && Sound(b, kindB) && kindA != kindB && kindA >= 1
    ensures Dict(a).Keys !! Dict(b).Keys && ID_NONE !in Dict(a)
  {
    forall id | id in Dict(a) ensures id !in Dict(b) && id != ID_NONE {
      LookupIsMembership(a, kindA, id);
      LookupIsMembership(b, kindB, id);
      SoundMeansDistinct(a, kindA);
    }
  }

  /** The first scan of Create asks whether some entry has the name. */
  lemma NameTakenInDict(hs: seq<Header>, name: string)
    requires IdsDistinct(hs)
    ensures NameTaken(hs, name) <==> exists id :: id in Dict(hs) && Dict(hs)[id].name == name
  {
    DictContents(hs, |hs|);
    if NameTaken(hs, name) {
      var i :| 0 <= i < |hs| && hs[i].inUse && hs[i].name == name;
      assert hs[i].id in Dict(hs);
    }
    if id :| id in Dict(hs) && Dict(hs)[id].name == name {
      assert Holds(hs, |hs|, id);
    }
  }

  function UsedUpto(hs: seq<Header>, n: nat): nat
    requires n <= |hs|
  {
    if n == 0 then 0 else UsedUpto(hs, n - 1) + Bit(hs[n - 1].inUse)
  }

  lemma {:induction false} DictSize(hs: seq<Header>, n: nat)
    requires n <= |hs| && IdsDistinct(hs)
    ensures |DictUpto(hs, n)| == UsedUpto(hs, n) <= n
    ensures UsedUpto(hs, n) == n <==> forall i :: 0 <= i < n ==> hs[i].inUse
  {
    if n > 0 {
      DictSize(hs, n - 1);
      DictContents(hs, n - 1);
      if hs[n - 1].inUse { assert !Holds(hs, n - 1, hs[n - 1].id); }
    }
  }

  /** The second scan of Create fails exactly when the dictionary holds N entries, its maximum. */
  lemma CapacityIsTableSize(hs: seq<Header>)
    requires IdsDistinct(hs)
    ensures |Dict(hs)| <= |hs|
    ensures FirstFree(hs) == |hs| <==> |Dict(hs)| == |hs|
  {
    DictSize(hs, |hs|);
    if FirstFree(hs) < |hs| { assert !hs[FirstFree(hs)].inUse; }
  }

  /** Create's result as a question to a dictionary of capacity n, which takes names of 1 to 19 bytes. */
  ghost function DictCreateStatus(d: map<u32, Entry>, n: nat, req: Request, extraParamOk: bool): Status
  {
    if req.outIsNull || req.name == None then InvalidPointer
    else if req.flags != 0 || !extraParamOk || req.name == Some("") then InvalidParam
    else if |req.name.value| > 19 then NameTooLong
    else if exists id :: id in d && d[id].name == req.name.value then NameIsTaken
    else if |d| >= n then NoFreeIds
    else if !req.nativeOk then CreationFailed
    else Success
  }

  lemma CreateStatusFromDict(hs: seq<Header>, req: Request, extraParamOk: bool)
    requires IdsDistinct(hs)
    ensures CreateStatus(hs, req, extraParamOk) == DictCreateStatus(Dict(hs), |hs|, req, extraParamOk)
  {
    if CheckRequest(req, extraParamOk) == Success { NameTakenInDict(hs, req.name.value); }
    CapacityIsTableSize(hs);
  }

  /** Filling a free slot adds a key that was not there and changes nothing else. */
  lemma FillInserts(hs: seq<Header>, i: nat, h: Header)
    requires i < |hs| && !hs[i].inUse && h.inUse
    requires IdsDistinct(hs) && IdsDistinct(hs[i := h])
    ensures h.id !in Dict(hs)
    ensures Dict(hs[i := h]) == Dict(hs)[h.id := Entry(h.name, h.creator)]
  {
    var hs' := hs[i := h];
    DictContents(hs, |hs|);
    DictContents(hs', |hs'|);
    forall id ensures Holds(hs', |hs'|, id) <==> Holds(hs, |hs|, id) || id == h.id {
      if Holds(hs, |hs|, id) {
        var j :| 0 <= j < |hs| && hs[j].inUse && hs[j].id == id;
        assert hs'[j].inUse;
      }
      assert hs'[i].id == h.id;
    }
    forall j | 0 <= j < |hs| && hs[j].inUse ensures hs[j].id != h.id {
      assert hs'[j] == hs[j] && hs'[i] == h;
    }
    var d, d' := Dict(hs), Dict(hs');
    forall id | id in d ensures d'[id] == d[id] {
      var j :| 0 <= j < |hs| && hs[j].inUse && hs[j].id == id;
      assert hs'[j].inUse;
    }
    assert hs'[i].inUse;
  }

  /** Taking a slot out of use removes its own key and nothing else. */
  lemma RetireRemoves(hs: seq<Header>, i: nat, h: Header)
    requires i < |hs| && hs[i].inUse && !h.inUse && IdsDistinct(hs)
    ensures IdsDistinct(hs[i := h])
    ensures Dict(hs[i := h]) == Dict(hs) - {hs[i].id}
    ensures NamesDistinct(hs) ==> NamesDistinct(hs[i := h])
  {
    var hs' := hs[i := h];
    FillInserts(hs', i, hs[i]) by { assert hs'[i := hs[i]] == hs; }
    assert hs'[i := hs[i]] == hs;
  }

  /** Writes to a slot that stays out of use do not show. */
  lemma {:induction false} UnusedIsInvisible(hs: seq<Header>, i: nat, h: Header, n: nat)
    requires i < |hs| && !hs[i].inUse && !h.inUse && n <= |hs|
    ensures DictUpto(hs[i := h], n) == DictUpto(hs, n)
  {
    if n > 0 { UnusedIsInvisible(hs, i, h, n - 1); }
  }

  // ---------- Stale ids ----------

  /** The id that the g-th creation in slot i gives out. */
  function IdOf(kind: u8, i: u16, g: nat): u32 { IdPack(kind, SerialOf(g), i) }

  /**
   * How far the serial protects: in a slot that has since been handed out up to generation
   * `gen >= g`, the g-th id is accepted exactly when the slot is in use and `gen - g` is a
   * multiple of 255. It is rejected after 1..254 re-creations; the 255th issues it again.
   */
  lemma StaleIdIsAcceptedIff(hs: seq<Header>, kind: u8, i: nat, g: nat)
    requires Sound(hs, kind) && i < |hs| && 1 <= g <= hs[i].gen
    ensures Lookup(hs, kind, IdOf(kind, i, g)).Some? <==> hs[i].inUse && (hs[i].gen - g) % 255 == 0
  {
    var id := IdOf(kind, i, g);
    assert HeaderSound(hs[i], kind, i);
    UnpackOfPack(kind, SerialOf(g), i);
    SerialsAlias(g, hs[i].gen - g);
    if hs[i].inUse {
      PackIsInjective(kind, SerialOf(g), i, kind, hs[i].serial, i);
    }
  }
}
