/** Flag enumerations as bit masks: enums.py and pie/sqltypes.py. */
module Masks {
  import opened Wrappers
  import opened BitStrings
  import opened Bytes

  // ---- bits of integers

  /** Bit i of the two's complement of m; division and remainder round down. */
  predicate HasBit(m: int, i: nat)
    decreases i
  {
    if i == 0 then m % 2 == 1 else HasBit(m / 2, i - 1)
  }

  function Or(a: nat, b: nat): nat
    decreases a + b
  {
    if a == 0 then b else if b == 0 then a
    else (if a % 2 == 1 || b % 2 == 1 then 1 else 0) + 2 * Or(a / 2, b / 2)
  }

  function And(a: nat, m: int): nat {
    if a == 0 then 0 else (if a % 2 == 1 && m % 2 == 1 then 1 else 0) + 2 * And(a / 2, m / 2)
  }

  lemma {:induction false} ZeroBit(i: nat)
    ensures !HasBit(0, i)
  {
    if i > 0 { ZeroBit(i - 1); }
  }

  lemma {:induction false} OrBit(a: nat, b: nat, i: nat)
    ensures HasBit(Or(a, b), i) <==> HasBit(a, i) || HasBit(b, i)
    decreases a + b
  {
    ZeroBit(i);
    if a != 0 && b != 0 {
      assert Or(a, b) / 2 == Or(a / 2, b / 2);
      if i > 0 { OrBit(a / 2, b / 2, i - 1); }
    }
  }

  lemma {:induction false} AndBit(a: nat, m: int, i: nat)
    ensures HasBit(And(a, m), i) <==> HasBit(a, i) && HasBit(m, i)
    decreases a
  {
    ZeroBit(i);
    if a != 0 {
      assert And(a, m) / 2 == And(a / 2, m / 2);
      if i > 0 { AndBit(a / 2, m / 2, i - 1); }
    }
  }

  lemma {:induction false} PowerBit(k: nat, i: nat)
    ensures HasBit(Pow2(k), i) <==> i == k
  {
    if k == 0 {
      if i > 0 { ZeroBit(i - 1); }
    } else {
      assert Pow2(k) / 2 == Pow2(k - 1) && Pow2(k) % 2 == 0;
      if i > 0 { PowerBit(k - 1, i - 1); }
    }
  }

  /** Numbers with the same bits are equal. */
  lemma {:induction false} SameBits(a: nat, b: nat)
    requires forall i: nat :: HasBit(a, i) <==> HasBit(b, i)
    ensures a == b
    decreases a + b
  {
    if a + b > 0 {
      assert HasBit(a, 0) <==> HasBit(b, 0);
      forall i: nat ensures HasBit(a / 2, i) <==> HasBit(b / 2, i) {
        assert HasBit(a, i + 1) <==> HasBit(b, i + 1);
      }
      SameBits(a / 2, b / 2);
    }
  }

  lemma {:induction false} RestrictedBit(m: int, k: nat, i: nat)
    ensures HasBit(m % Pow2(k), i) <==> i < k && HasBit(m, i)
    decreases k
  {
    if k == 0 {
      ZeroBit(i);
    } else {
      HalfOfRest(m, k);
      if i > 0 { RestrictedBit(m / 2, k - 1, i - 1); }
    }
  }

  lemma HalfOfRest(m: int, k: nat)
    requires k > 0
    ensures (m % Pow2(k)) / 2 == (m / 2) % Pow2(k - 1)
    ensures (m % Pow2(k)) % 2 == m % 2
  {
    var p := Pow2(k - 1);
    var q := (m / 2) / p;
    var r := 2 * ((m / 2) % p) + m % 2;
    assert m == q * (2 * p) + r && 0 <= r < 2 * p;
    Remainder(m, 2 * p, q, r);
  }

  lemma Remainder(m: int, d: int, q: int, r: int)
    requires d > 0 && 0 <= r < d && m == q * d + r
    ensures m % d == r
  {
    var k := q - m / d;
    assert k * d == q * d - m / d * d;
    assert m == m / d * d + m % d;
    assert k * d == m % d - r;
    if k > 0 {
      MulMono(1, k, d);
    } else if k < 0 {
      MulMono(1, -k, d);
    }
  }

  /** The two ways in which the code asks whether a flag is in a mask agree. */
  lemma {:induction false} MembershipTests(k: nat, m: int)
    ensures And(Pow2(k), m) != 0 <==> HasBit(m, k)
    ensures And(Pow2(k), m) == Pow2(k) <==> HasBit(m, k)
  {
    AndBit(Pow2(k), m, k);
    PowerBit(k, k);
    ZeroBit(k);
    forall i: nat ensures HasBit(And(Pow2(k), m), i) <==> i == k && HasBit(m, k) {
      AndBit(Pow2(k), m, i);
      PowerBit(k, i);
    }
    if HasBit(m, k) {
      forall i: nat ensures HasBit(And(Pow2(k), m), i) <==> HasBit(Pow2(k), i) { PowerBit(k, i); }
      SameBits(And(Pow2(k), m), Pow2(k));
    } else {
      forall i: nat ensures HasBit(And(Pow2(k), m), i) <==> HasBit(0, i) { ZeroBit(i); }
      SameBits(And(Pow2(k), m), 0);
    }
  }

  // ---- the flag enumerations

  datatype MaskClass = CryptographicUsageMask | ProtectionStorageMask | StorageStatusMask

  /** The values of the members, in the order of declaration. */
  function Flags(cls: MaskClass): seq<nat> {
    match cls
    case CryptographicUsageMask => [
      0x1, 0x2, 0x4, 0x8, 0x10, 0x20, 0x40, 0x80, 0x100, 0x200, 0x400, 0x800,
      0x1000, 0x2000, 0x4000, 0x8000, 0x10000, 0x20000, 0x40000, 0x80000, 0x100000, 0x200000, 0x400000, 0x800000]
    case ProtectionStorageMask => [
      0x1, 0x2, 0x4, 0x8, 0x10, 0x20, 0x40, 0x80, 0x100, 0x200, 0x400, 0x800, 0x1000, 0x2000]
    case StorageStatusMask => [0x1, 0x2, 0x4]
  }

  /** The members are the powers of two from 1 on, without a gap. */
  ghost predicate Contiguous(flags: seq<nat>) {
    forall i :: 0 <= i < |flags| ==> flags[i] == Pow2(i)
  }

  lemma FlagsContiguous(cls: MaskClass)
    ensures Contiguous(Flags(cls))
    ensures |Flags(CryptographicUsageMask)| == 24
    ensures |Flags(ProtectionStorageMask)| == 14 && |Flags(StorageStatusMask)| == 3
  {
    var flags := Flags(cls);
    assert flags[0] == 1;
    forall i | 0 < i < |flags| ensures flags[i] == 2 * flags[i - 1] {
    }
    Doubling(flags, |flags|);
  }

  lemma {:induction false} Doubling(flags: seq<nat>, n: nat)
    requires n <= |flags|
    requires n > 0 ==> flags[0] == 1
    requires forall i :: 0 < i < |flags| ==> flags[i] == 2 * flags[i - 1]
    ensures forall i :: 0 <= i < n ==> flags[i] == Pow2(i)
  {
    if n > 0 {
      Doubling(flags, n - 1);
    }
  }

  // ---- masks

  /** All the values or-ed together, from the left. */
  function MaskOf(values: seq<nat>): nat {
    if values == [] then 0 else Or(MaskOf(values[..|values| - 1]), values[|values| - 1])
  }

  lemma {:induction false} MaskBit(values: seq<nat>, i: nat)
    ensures HasBit(MaskOf(values), i) <==> exists j :: 0 <= j < |values| && HasBit(values[j], i)
  {
    if values == [] {
      ZeroBit(i);
    } else {
      var n := |values| - 1;
      MaskBit(values[..n], i);
      OrBit(MaskOf(values[..n]), values[n], i);
      assert forall j :: 0 <= j < n ==> values[..n][j] == values[j];
    }
  }

  /** The flags, in their order, that are among the values. */
  function Members(flags: seq<nat>, values: seq<nat>): seq<nat> {
    if flags == [] then []
    else (if flags[0] in values then [flags[0]] else []) + Members(flags[1..], values)
  }

  /** The flags, in their order, that share a bit with the mask. */
  function Sharing(flags: seq<nat>, mask: int): seq<nat> {
    if flags == [] then []
    else (if And(flags[0], mask) != 0 then [flags[0]] else []) + Sharing(flags[1..], mask)
  }

  /** enums.get_enumerations_from_bit_mask: the flags that lie within the mask. */
  function GetEnumerationsFromBitMask(flags: seq<nat>, mask: int): seq<nat> {
    if flags == [] then []
    else (if And(flags[0], mask) == flags[0] then [flags[0]] else []) + GetEnumerationsFromBitMask(flags[1..], mask)
  }

  ghost predicate IsPower(v: nat) {
    exists k: nat :: v == Pow2(k)
  }

  ghost predicate Powers(flags: seq<nat>) {
    forall i :: 0 <= i < |flags| ==> IsPower(flags[i])
  }

  /** Which flags are in the mask of some flags. */
  lemma FlagOfMask(flags: seq<nat>, values: seq<nat>, k: nat)
    requires Powers(values)
    ensures HasBit(MaskOf(values), k) <==> Pow2(k) in values
  {
    MaskBit(values, k);
    PowerBit(k, k);
    forall j | 0 <= j < |values| ensures HasBit(values[j], k) <==> values[j] == Pow2(k) {
      var i: nat :| values[j] == Pow2(i);
      PowerBit(i, k);
    }
  }

  lemma {:induction false} SharingIsWithin(flags: seq<nat>, mask: int)
    requires Powers(flags)
    ensures Sharing(flags, mask) == GetEnumerationsFromBitMask(flags, mask)
  {
    if flags != [] {
      var k: nat :| flags[0] == Pow2(k);
      MembershipTests(k, mask);
      SharingIsWithin(flags[1..], mask);
    }
  }

  lemma {:induction false} SharingIsMembers(flags: seq<nat>, values: seq<nat>)
    requires Powers(flags) && Powers(values)
    ensures Sharing(flags, MaskOf(values)) == Members(flags, values)
  {
    if flags != [] {
      var k: nat :| flags[0] == Pow2(k);
      MembershipTests(k, MaskOf(values));
      FlagOfMask(flags, values, k);
      SharingIsMembers(flags[1..], values);
    }
  }

  // ---- what the database column does with a usage mask

  class UsageMaskType {
    constructor () {
    }

    method ProcessBindParam(value: seq<nat>) returns (bitmask: nat)
      ensures bitmask == MaskOf(value)
      ensures Powers(value) ==> forall k: nat :: HasBit(bitmask, k) <==> Pow2(k) in value
    {
      bitmask := 0;
      for i := 0 to |value|
        invariant bitmask == MaskOf(value[..i])
      {
        assert value[..i + 1][..i] == value[..i];
        bitmask := Or(bitmask, value[i]);
      }
      assert value[..|value|] == value;
      if Powers(value) {
        forall k: nat ensures HasBit(bitmask, k) <==> Pow2(k) in value { FlagOfMask([], value, k); }
      }
    }

    /** None and 0 both give the empty list. */
    method ProcessResultValue(value: Option<int>) returns (masks: seq<nat>)
      ensures masks == if value.None? then [] else Sharing(Flags(CryptographicUsageMask), value.value)
    {
      hide Flags, And;
      masks := [];
      if value.Some? {
        var flags := Flags(CryptographicUsageMask);
        if value.value != 0 {
          for i := 0 to |flags|
            invariant masks + Sharing(flags[i..], value.value) == Sharing(flags, value.value)
          {
            assert flags[i..][1..] == flags[i + 1..];
            if And(flags[i], value.value) != 0 {
              masks := masks + [flags[i]];
            }
          }
          assert flags[|flags|..] == [];
        } else {
          NothingInZero(flags);
        }
      }
    }
  }

  lemma {:induction false} AndZero(a: nat)
    ensures And(a, 0) == 0
  {
    if a != 0 { AndZero(a / 2); }
  }

  lemma {:induction false} NothingInZero(flags: seq<nat>)
    ensures Sharing(flags, 0) == []
  {
    if flags != [] {
      AndZero(flags[0]);
      NothingInZero(flags[1..]);
    }
  }

  lemma ContiguousPowers(flags: seq<nat>, values: seq<nat>)
    requires Contiguous(flags) && forall v :: v in values ==> v in flags
    ensures Powers(values)
  {
    forall j | 0 <= j < |values| ensures IsPower(values[j]) {
      assert values[j] in flags;
      var i: nat :| i < |flags| && flags[i] == values[j];
      assert values[j] == Pow2(i);
    }
  }

  /** Storing a list of usage flags and loading it again gives the flags of the
      list once each, in the order of declaration. */
  lemma {:induction false} UsageMaskRoundTrip(values: seq<nat>)
    requires forall v :: v in values ==> v in Flags(CryptographicUsageMask)
    ensures Sharing(Flags(CryptographicUsageMask), MaskOf(values)) == Members(Flags(CryptographicUsageMask), values)
  {
    hide Flags;
    FlagsContiguous(CryptographicUsageMask);
    var flags := Flags(CryptographicUsageMask);
    ContiguousPowers(flags, flags);
    ContiguousPowers(flags, values);
    SharingIsMembers(flags, values);
  }

  /** The members of a list among the flags: each once, and in their order. */
  lemma {:induction false} MembersOnce(flags: seq<nat>, values: seq<nat>)
    requires forall i, j :: 0 <= i < j < |flags| ==> flags[i] < flags[j]
    ensures var members := Members(flags, values);
      && (forall v :: v in members <==> v in flags && v in values)
      && (forall i, j :: 0 <= i < j < |members| ==> members[i] < members[j])
  {
    if flags != [] {
      var tail := flags[1..];
      assert forall i :: 0 <= i < |tail| ==> tail[i] == flags[i + 1];
      MembersOnce(tail, values);
      assert forall v :: v in tail ==> flags[0] < v;
      var members, rest := Members(flags, values), Members(tail, values);
      assert members == if flags[0] in values then [flags[0]] + rest else rest;
      assert forall i :: 0 <= i < |rest| ==> rest[i] in rest;
    }
  }

  // ---- composite masks

  /** Or-ing nothing at all is an error: reduce has no initial value. */
  function GetBitMaskFromEnumerations(values: seq<nat>): Result<nat> {
    if values == [] then Err(TypeError) else Ok(MaskOf(values))
  }

  lemma {:induction false} WithinBit(flags: seq<nat>, mask: int, i: nat)
    requires Powers(flags)
    ensures HasBit(MaskOf(GetEnumerationsFromBitMask(flags, mask)), i) <==> HasBit(mask, i) && Pow2(i) in flags
  {
    var within := GetEnumerationsFromBitMask(flags, mask);
    WithinMembers(flags, mask);
    FlagOfMask(flags, within, i);
    MembershipTests(i, mask);
  }

  lemma {:induction false} WithinMembers(flags: seq<nat>, mask: int)
    ensures forall v :: v in GetEnumerationsFromBitMask(flags, mask) <==> v in flags && And(v, mask) == v
    ensures Powers(flags) ==> Powers(GetEnumerationsFromBitMask(flags, mask))
  {
    if flags != [] {
      WithinMembers(flags[1..], mask);
      assert forall v :: v in flags <==> v == flags[0] || v in flags[1..];
    }
    assert forall i :: 0 <= i < |flags| ==> flags[i] in flags;
  }

  /** The flags in a mask, or-ed together, are the mask cut down to the bits that
      the enumeration has. */
  lemma {:induction false} RestrictedMask(cls: MaskClass, mask: int)
    ensures MaskOf(GetEnumerationsFromBitMask(Flags(cls), mask)) == mask % Pow2(|Flags(cls)|)
  {
    hide Flags, And, MaskOf, Pow2, HasBit;
    FlagsContiguous(cls);
    ContiguousPowers(Flags(cls), Flags(cls));
    var flags, k := Flags(cls), |Flags(cls)|;
    forall i: nat ensures HasBit(MaskOf(GetEnumerationsFromBitMask(flags, mask)), i) <==> HasBit(mask % Pow2(k), i) {
      WithinBit(flags, mask, i);
      RestrictedBit(mask, k, i);
      PowerInFlags(flags, i);
    }
    SameBits(MaskOf(GetEnumerationsFromBitMask(flags, mask)), mask % Pow2(k));
  }

  /** get_bit_mask_from_enumerations after get_enumerations_from_bit_mask: the mask
      cut down to the bits of the enumeration, or an error if no bit is left. */
  lemma CompositeMask(cls: MaskClass, mask: int)
    ensures var cut := mask % Pow2(|Flags(cls)|);
      GetBitMaskFromEnumerations(GetEnumerationsFromBitMask(Flags(cls), mask))
      == if cut == 0 then Err(TypeError) else Ok(cut)
  {
    hide Flags, And;
    RestrictedMask(cls, mask);
    FlagsContiguous(cls);
    ContiguousPowers(Flags(cls), Flags(cls));
    WithinMembers(Flags(cls), mask);
    SomethingInMask(GetEnumerationsFromBitMask(Flags(cls), mask));
  }

  lemma SomethingInMask(values: seq<nat>)
    requires Powers(values)
    ensures MaskOf(values) == 0 <==> values == []
  {
    if values != [] {
      assert IsPower(values[0]);
      var k: nat :| values[0] == Pow2(k);
      FlagOfMask([], values, k);
      ZeroBit(k);
    }
  }

  lemma PowerInFlags(flags: seq<nat>, i: nat)
    requires Contiguous(flags)
    ensures Pow2(i) in flags <==> i < |flags|
  {
    if i < |flags| {
      assert flags[i] == Pow2(i);
    }
    if Pow2(i) in flags {
      var j :| 0 <= j < |flags| && flags[j] == Pow2(i);
      PowerBit(i, i);
      PowerBit(j, i);
    }
  }

  /** Is the number a mask of members of the class: exactly if it has no bit
      outside the class, and is not negative. */
  method IsBitMask(cls: MaskClass, potentialMask: int) returns (b: bool)
    ensures b <==> 0 <= potentialMask < Pow2(|Flags(cls)|)
  {
    hide Flags, And, Or, Pow2;
    var mask := 0;
    var flags := Flags(cls);
    ghost var within: seq<nat> := [];
    for i := 0 to |flags|
      invariant mask == MaskOf(within)
      invariant within + GetEnumerationsFromBitMask(flags[i..], potentialMask)
             == GetEnumerationsFromBitMask(flags, potentialMask)
    {
      assert flags[i..][1..] == flags[i + 1..];
      if And(flags[i], potentialMask) == flags[i] {
        mask := Or(mask, flags[i]);
        assert (within + [flags[i]])[..|within|] == within;
        within := within + [flags[i]];
      }
    }
    assert flags[|flags|..] == [];
    assert within + [] == within;
    RestrictedMask(cls, potentialMask);
    b := mask == potentialMask;
    Within(potentialMask, Pow2(|flags|));
  }

  lemma Within(m: int, d: int)
    requires d > 0
    ensures m % d == m <==> 0 <= m < d
  {
    if 0 <= m < d {
      Remainder(m, d, 0, m);
    }
  }

  /** attribute_values.py, _create_cryptographic_usage_mask: no list, no mask. */
  method CreateCryptographicUsageMask(flags: Option<seq<nat>>) returns (mask: Option<nat>)
    ensures mask == if flags.None? then None else Some(MaskOf(flags.value))
  {
    mask := None;
    if flags.Some? {
      var m := 0;
      for i := 0 to |flags.value|
        invariant m == MaskOf(flags.value[..i])
      {
        assert flags.value[..i + 1][..i] == flags.value[..i];
        m := Or(m, flags.value[i]);
      }
      assert flags.value[..|flags.value|] == flags.value;
      mask := Some(m);
    }
  }
}
