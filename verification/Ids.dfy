/** Object ids: one 32-bit word { type[31:24], serial[23:16], index[15:0] } (aos_osal.h). */
module Ids {
  import opened Common

  const ID_NONE: u32 := 0

  const TYPE_TASK: u8 := 1
  const TYPE_MUTEX: u8 := 2
  const TYPE_BINSEM: u8 := 3

  // ---------- C's bit operators on unsigned integers ----------

  function Pow2(k: nat): (p: nat)
    ensures p > 0
  {
    if k == 0 then 1 else 2 * Pow2(k - 1)
  }

  function BitOr(a: nat, b: nat): nat
    decreases a + b
  {
    if a == 0 && b == 0 then 0
    else 2 * BitOr(a / 2, b / 2) + Bit(a % 2 == 1 || b % 2 == 1)
  }

  function BitAnd(a: nat, b: nat): nat
  {
    if a == 0 || b == 0 then 0
    else 2 * BitAnd(a / 2, b / 2) + Bit(a % 2 == 1 && b % 2 == 1)
  }

  function Shl32(a: u32, k: nat): u32 { a * Pow2(k) % TWO32 }

  function Shr(a: nat, k: nat): nat
  {
    QuotientIsNat(a, Pow2(k));
    a / Pow2(k)
  }

  lemma QuotientIsNat(a: nat, p: nat)
    requires p > 0
    ensures a / p >= 0
  {
    assert a == (a / p) * p + a % p;
    MultipleIsFar(a / p, p);
  }

  lemma {:induction false} Pow2Values()
    ensures Pow2(8) == 0x100 && Pow2(16) == 0x1_0000 && Pow2(24) == 0x100_0000
  {
    assert Pow2(4) == 0x10;
    assert Pow2(8) == 0x100;
    assert Pow2(12) == 0x1000;
    assert Pow2(16) == 0x1_0000;
    assert Pow2(20) == 0x10_0000;
  }

  /** Or-ing in bits below position k is addition. */
  lemma {:induction false} OrOfDisjointFields(high: nat, low: nat, k: nat)
    requires low < Pow2(k)
    ensures BitOr(high * Pow2(k), low) == high * Pow2(k) + low
    decreases k, high
  {
    if k == 0 {
      OrZero(high);
    } else {
      var p := Pow2(k - 1);
      assert high * Pow2(k) == 2 * (high * p);
      assert BitOr(2 * (high * p), low) == 2 * BitOr(high * p, low / 2) + low % 2;
      OrOfDisjointFields(high, low / 2, k - 1);
    }
  }

  lemma {:induction false} OrZero(a: nat)
    ensures BitOr(a, 0) == a
  {
    if a > 0 { OrZero(a / 2); }
  }

  /** Masking with k one bits is the remainder modulo 2^k. */
  lemma {:induction false} AndOfLowMask(a: nat, k: nat)
    ensures BitAnd(a, Pow2(k) - 1) == a % Pow2(k)
    decreases k
  {
    if k == 0 {
    } else if a == 0 {
      ModUnique(0, Pow2(k), 0, 0);
    } else {
      var p := Pow2(k - 1);
      AndOfLowMask(a / 2, k - 1);
      HalvesOfMask(p);
      if p == 1 && a % 2 == 0 { assert BitAnd(a / 2, 0) == 0; }
      ModOfDouble(a, p);
    }
  }

  lemma HalvesOfMask(p: nat)
    requires p > 0
    ensures (2 * p - 1) / 2 == p - 1 && (2 * p - 1) % 2 == 1
  {
  }

  lemma ModOfDouble(a: nat, p: nat)
    requires p > 0
    ensures a % (2 * p) == 2 * (a / 2 % p) + a % 2
  {
    var half := a / 2;
    var q, r := half / p, half % p;
    assert half == q * p + r;
    assert q * (2 * p) == 2 * (q * p);
    ModUnique(a, 2 * p, q, 2 * r + a % 2);
  }

  lemma ModUnique(a: nat, m: nat, q: nat, r: nat)
    requires m > 0 && r < m && a == q * m + r
    ensures a % m == r && a / m == q
  {
    var d := a / m - q;
    assert a == (a / m) * m + a % m;
    assert d * m == (a / m) * m - q * m;
    MultipleIsFar(d, m);
  }

  lemma MultipleIsFar(d: int, m: nat)
    ensures d > 0 ==> d * m >= m
    ensures d < 0 ==> d * m <= 0 - m
  {
    if d > 0 {
      assert (d - 1) * m >= 0;
    } else if d < 0 {
      assert (0 - d - 1) * m >= 0;
    }
  }

  // ---------- The id helpers ----------

  /** What the helpers mean: an id is a three-digit number with digits of 8, 8 and 16 bits. */
  function IdPack(kind: u8, serial: u8, index: u16): u32 { kind * 0x100_0000 + serial * 0x1_0000 + index }

  function IdType(id: u32): u8 { id / 0x100_0000 }

  function IdSerial(id: u32): u8 { id / 0x1_0000 % 0x100 }

  function IdIndex(id: u32): u16 { id % 0x1_0000 }

  /** AOS_IdPack as it is written, with shifts and ors. */
  function IdPackBits(kind: u8, serial: u8, index: u16): (id: u32)
    ensures id == IdPack(kind, serial, index)
  {
    PackFields(kind, serial, index);
    BitOr(BitOr(Shl32(kind, 24), Shl32(serial, 16)), index)
  }

  lemma PackFields(kind: u8, serial: u8, index: u16)
    ensures Shl32(kind, 24) == kind * 0x100_0000
    ensures Shl32(serial, 16) == serial * 0x1_0000
    ensures BitOr(Shl32(kind, 24), Shl32(serial, 16)) == kind * 0x100_0000 + serial * 0x1_0000
    ensures BitOr(kind * 0x100_0000 + serial * 0x1_0000, index) == kind * 0x100_0000 + serial * 0x1_0000 + index
  {
    Pow2Values();
    ShiftIsProduct(kind, 24, 0x100_0000);
    ShiftIsProduct(serial, 16, 0x1_0000);
    OrOfFields(kind, serial * 0x1_0000, 24, 0x100_0000);
    OrOfFields(kind * 0x100 + serial, index, 16, 0x1_0000);
  }

  lemma ShiftIsProduct(a: u32, k: nat, p: nat)
    requires Pow2(k) == p && a * p < TWO32
    ensures Shl32(a, k) == a * p
  {
  }

  lemma OrOfFields(high: nat, low: nat, k: nat, p: nat)
    requires Pow2(k) == p && low < p
    ensures BitOr(high * p, low) == high * p + low
  {
    OrOfDisjointFields(high, low, k);
  }

  /** The unpacking helpers as they are written, with shifts and masks. */
  function IdTypeBits(id: u32): (kind: u8)
    ensures kind == IdType(id)
  {
    Pow2Values();
    FieldOf(id, 24, 0x100_0000, 8, 0x100);
    ModUnique(id / 0x100_0000, 0x100, 0, id / 0x100_0000);
    BitAnd(Shr(id, 24), 0xFF)
  }

  function IdSerialBits(id: u32): (serial: u8)
    ensures serial == IdSerial(id)
  {
    Pow2Values();
    FieldOf(id, 16, 0x1_0000, 8, 0x100);
    BitAnd(Shr(id, 16), 0xFF)
  }

  function IdIndexBits(id: u32): (index: u16)
    ensures index == IdIndex(id)
  {
    Pow2Values();
    AndOfLowMask(id, 16);
    BitAnd(id, 0xFFFF)
  }

  lemma FieldOf(a: nat, k: nat, p: nat, width: nat, m: nat)
    requires Pow2(k) == p && Pow2(width) == m
    ensures BitAnd(Shr(a, k), m - 1) == a / p % m
  {
    AndOfLowMask(Shr(a, k), width);
  }

  /** Packing is a bijection: unpacking undoes it, and every 32-bit word is a packed triple. */
  lemma UnpackOfPack(kind: u8, serial: u8, index: u16)
    ensures IdType(IdPack(kind, serial, index)) == kind
    ensures IdSerial(IdPack(kind, serial, index)) == serial
    ensures IdIndex(IdPack(kind, serial, index)) == index
  {
    var id := IdPack(kind, serial, index);
    ModUnique(id, 0x100_0000, kind, serial * 0x1_0000 + index);
    ModUnique(id, 0x1_0000, kind * 0x100 + serial, index);
    ModUnique(kind * 0x100 + serial, 0x100, kind, serial);
  }

  lemma PackOfUnpack(id: u32)
    ensures IdPack(IdType(id), IdSerial(id), IdIndex(id)) == id
  {
  }

  /** Ids with a real type are never ID_NONE, and ids of different pools or slots never coincide. */
  lemma PackIsInjective(k1: u8, s1: u8, i1: u16, k2: u8, s2: u8, i2: u16)
    ensures IdPack(k1, s1, i1) == IdPack(k2, s2, i2) <==> k1 == k2 && s1 == s2 && i1 == i2
    ensures k1 >= 1 ==> IdPack(k1, s1, i1) != ID_NONE
  {
    if IdPack(k1, s1, i1) == IdPack(k2, s2, i2) { SameWordSameFields(k1, s1, i1, k2, s2, i2); }
  }

  /** The low fields cannot make up for a difference in a higher one. */
  lemma SameWordSameFields(k1: u8, s1: u8, i1: u16, k2: u8, s2: u8, i2: u16)
    requires IdPack(k1, s1, i1) == IdPack(k2, s2, i2)
    ensures k1 == k2 && s1 == s2 && i1 == i2
  {
    var low1, low2 := s1 * 0x1_0000 + i1, s2 * 0x1_0000 + i2;
    assert low1 < 0x100_0000 && low2 < 0x100_0000;
    assert k1 == k2;
    assert low1 == low2;
  }

  // ---------- The generation stamp ----------

  /** uint8_t increment that steps over zero. */
  function NextSerial(serial: u8): u8
  {
    var next := (serial + 1) % 0x100;
    if next == 0 then 1 else next
  }

  /** The serial a slot carries after `gen` creations; pools start out zeroed. */
  function SerialOf(gen: nat): u8
  {
    if gen == 0 then 0 else NextSerial(SerialOf(gen - 1))
  }

  lemma {:induction false} SerialClosedForm(gen: nat)
    requires gen >= 1
    ensures SerialOf(gen) == 1 + (gen - 1) % 255
  {
    if gen > 1 {
      SerialClosedForm(gen - 1);
      NextSerialValue(SerialOf(gen - 1));
      StepModulo255(gen - 2);
    }
  }

  lemma NextSerialValue(serial: u8)
    ensures NextSerial(serial) == if serial == 255 then 1 else serial + 1
  {
  }

  lemma StepModulo255(n: nat)
    ensures (n + 1) % 255 == if n % 255 == 254 then 0 else n % 255 + 1
  {
  }

  /** Two generations of one slot share a serial exactly when they are a multiple of 255 apart. */
  lemma SerialsAlias(older: nat, gap: nat)
    requires older >= 1
    ensures SerialOf(older) == SerialOf(older + gap) <==> gap % 255 == 0
  {
    SerialClosedForm(older);
    SerialClosedForm(older + gap);
    SameResidue(older - 1, gap);
    assert older + gap - 1 == (older - 1) + gap;
  }

  lemma SameResidue(a: nat, d: nat)
    ensures a % 255 == (a + d) % 255 <==> d % 255 == 0
  {
  }
}
