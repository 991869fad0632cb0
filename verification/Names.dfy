/** In every table some legal name is not taken. */
module Names {
  import opened Common
  import opened Table

  function ByteNo(d: int): char
    requires 0 <= d <= 0x40
  {
    (1 + d) as char
  }

  /** A name of three bytes, none of them zero. */
  function NameNo(k: nat): (name: string)
    requires k <= MAX_POOL
  {
    [ByteNo(k / 0x1000), ByteNo(k / 0x40 % 0x40), ByteNo(k % 0x40)]
  }

  function Names(hs: seq<Header>): set<string> { set i | 0 <= i < |hs| :: hs[i].name }

  lemma {:induction false} NamesAreFew(hs: seq<Header>)
    ensures |Names(hs)| <= |hs|
    decreases |hs|
  {
    if |hs| > 0 {
      var last := |hs| - 1;
      NamesAreFew(hs[..last]);
      forall name ensures name in Names(hs) <==> name in Names(hs[..last]) + {hs[last].name} {
        if name in Names(hs) {
          var i :| 0 <= i < |hs| && hs[i].name == name;
          if i < last { assert hs[..last][i] == hs[i]; }
        }
        if name in Names(hs[..last]) {
          var i :| 0 <= i < last && hs[..last][i].name == name;
          assert hs[i].name == name;
        }
      }
      assert Names(hs) == Names(hs[..last]) + {hs[last].name};
    }
  }

  lemma SameNameSameNo(j: nat, k: nat)
    requires j <= MAX_POOL && k <= MAX_POOL && NameNo(j) == NameNo(k)
    ensures j == k
  {
    assert NameNo(j)[0] == NameNo(k)[0] && NameNo(j)[1] == NameNo(k)[1] && NameNo(j)[2] == NameNo(k)[2];
    SameByte(j / 0x1000, k / 0x1000);
    SameByte(j / 0x40 % 0x40, k / 0x40 % 0x40);
    SameByte(j % 0x40, k % 0x40);
    ThreeDigits(j);
    ThreeDigits(k);
  }

  lemma SameByte(d: int, e: int)
    requires 0 <= d <= 0x40 && 0 <= e <= 0x40 && ByteNo(d) == ByteNo(e)
    ensures d == e
  {
    assert (1 + d) as char as int == (1 + e) as char as int;
  }

  lemma ThreeDigits(k: nat)
    ensures k == 0x1000 * (k / 0x1000) + 0x40 * (k / 0x40 % 0x40) + k % 0x40
  {
    assert k / 0x1000 == k / 0x40 / 0x40;
  }

  function Numbered(n: nat): set<string>
    requires n <= MAX_POOL + 1
  {
    set k | 0 <= k < n :: NameNo(k)
  }

  lemma {:induction false} NumberedAreMany(n: nat)
    requires n <= MAX_POOL + 1
    ensures |Numbered(n)| == n
  {
    if n > 0 {
      NumberedAreMany(n - 1);
      forall k | 0 <= k < n - 1 ensures NameNo(k) != NameNo(n - 1) {
        if NameNo(k) == NameNo(n - 1) { SameNameSameNo(k, n - 1); }
      }
      assert Numbered(n) == Numbered(n - 1) + {NameNo(n - 1)};
    }
  }

  lemma SomeNameIsFree(hs: seq<Header>)
    requires |hs| <= MAX_POOL
    ensures exists k :: 0 <= k <= MAX_POOL && !NameTaken(hs, NameNo(k))
  {
    NamesAreFew(hs);
    NumberedAreMany(MAX_POOL + 1);
    if Numbered(MAX_POOL + 1) <= Names(hs) {
      SubsetSize(Numbered(MAX_POOL + 1), Names(hs));
    }
    var name :| name in Numbered(MAX_POOL + 1) && name !in Names(hs);
    var k :| 0 <= k < MAX_POOL + 1 && NameNo(k) == name;
    assert !NameTaken(hs, NameNo(k));
  }

  ghost function FreeName(hs: seq<Header>): (name: string)
    requires |hs| <= MAX_POOL
    ensures 0 < |name| < MAX_NAME && !NameTaken(hs, name)
  {
    SomeNameIsFree(hs);
    var k :| 0 <= k <= MAX_POOL && !NameTaken(hs, NameNo(k));
    NameNo(k)
  }
}
