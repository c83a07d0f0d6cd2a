/** Bytes and the big-endian packing of integers (Python's struct.pack). */
module Bytes {

  type byte = b: int | 0 <= b < 256

  /** 256 to the power n. */
  function Radix(n: nat): (r: nat)
    ensures r >= 1
  {
    if n == 0 then 1 else 256 * Radix(n - 1)
  }

  function Zeros(n: nat): (s: seq<byte>)
    ensures |s| == n
  {
    seq(n, _ => 0)
  }

  /** The n low-order bytes of v, most significant byte first. */
  function PackU(n: nat, v: nat): (s: seq<byte>)
    ensures |s| == n
  {
    if n == 0 then [] else PackU(n - 1, v / 256) + [v % 256]
  }

  /** The unsigned big-endian value of a byte string. */
  function UnpackU(s: seq<byte>): nat {
    if s == [] then 0 else 256 * UnpackU(s[..|s| - 1]) + s[|s| - 1]
  }

  /** v fits in n bytes of two's complement. */
  predicate FitsSigned(n: nat, v: int) {
    n > 0 && -(Radix(n) / 2) <= v < Radix(n) / 2
  }

  /** Two's complement on n bytes. */
  function PackS(n: nat, v: int): (s: seq<byte>)
    requires FitsSigned(n, v)
    ensures |s| == n
  {
    PackU(n, if v < 0 then v + Radix(n) else v)
  }

  /** The two's-complement value of a nonempty byte string. */
  function UnpackS(s: seq<byte>): int
    requires s != []
  {
    if s[0] >= 128 then UnpackU(s) - Radix(|s|) else UnpackU(s)
  }

  lemma {:induction false} UnpackUBound(s: seq<byte>)
    ensures UnpackU(s) < Radix(|s|)
  {
    if s != [] {
      UnpackUBound(s[..|s| - 1]);
    }
  }

  lemma {:induction false} PackUnpackU(n: nat, v: nat)
    requires v < Radix(n)
    ensures UnpackU(PackU(n, v)) == v
  {
    if n > 0 {
      PackUnpackU(n - 1, v / 256);
      assert PackU(n, v)[..n - 1] == PackU(n - 1, v / 256);
    }
  }

  lemma {:induction false} UnpackPackU(s: seq<byte>)
    ensures PackU(|s|, UnpackU(s)) == s
  {
    if s != [] {
      UnpackPackU(s[..|s| - 1]);
    }
  }

  lemma MulAssoc(k: nat, a: nat, r: nat)
    ensures k * (a * r) == a * (k * r)
  {
  }

  /** A byte string is its first byte, weighted, plus the rest. */
  lemma {:induction false} UnpackUHead(s: seq<byte>)
    requires s != []
    ensures UnpackU(s) == s[0] * Radix(|s| - 1) + UnpackU(s[1..])
  {
    if |s| > 1 {
      var n := |s| - 1;
      UnpackUHead(s[..n]);
      assert s[..n][1..] == s[1..][..n - 1];
      MulAssoc(256, s[0], Radix(n - 1));
    } else {
      assert s[1..] == [] && s[..0] == [];
    }
  }

  lemma MulMono(a: nat, b: nat, r: nat)
    requires a <= b
    ensures a * r <= b * r
  {
  }

  /** The top half of the unsigned range is where the first bit is set. */
  lemma FirstBit(s: seq<byte>)
    requires s != []
    ensures s[0] >= 128 <==> UnpackU(s) >= Radix(|s|) / 2
  {
    var r, t := Radix(|s| - 1), UnpackU(s[1..]);
    assert UnpackU(s) == s[0] * r + t by { UnpackUHead(s); }
    assert t < r by { UnpackUBound(s[1..]); }
    assert Radix(|s|) == 256 * r;
    if s[0] >= 128 {
      MulMono(128, s[0], r);
    } else {
      MulMono(s[0], 127, r);
    }
  }

  lemma HalfRadix(n: nat)
    requires n > 0
    ensures Radix(n) == 2 * (Radix(n) / 2)
  {
    assert Radix(n) == 2 * (128 * Radix(n - 1));
  }

  lemma PackUnpackS(n: nat, v: int)
    requires FitsSigned(n, v)
    ensures UnpackS(PackS(n, v)) == v
  {
    HalfRadix(n);
    PackUnpackU(n, if v < 0 then v + Radix(n) else v);
    FirstBit(PackS(n, v));
  }

  lemma UnpackPackS(s: seq<byte>)
    requires s != []
    ensures FitsSigned(|s|, UnpackS(s)) && PackS(|s|, UnpackS(s)) == s
  {
    hide UnpackU;
    hide Radix;
    HalfRadix(|s|);
    UnpackUBound(s);
    FirstBit(s);
    UnpackPackU(s);
  }

  lemma {:induction false} RadixGrows(m: nat, n: nat)
    requires m <= n
    ensures Radix(m) <= Radix(n)
  {
    if m < n {
      RadixGrows(m, n - 1);
    }
  }

  // ---- byte strings one behind the other

  function Concat(parts: seq<seq<byte>>): seq<byte> {
    if parts == [] then [] else parts[0] + Concat(parts[1..])
  }
}
