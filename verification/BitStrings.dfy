/** The bit strings of BigInteger and of the length check: strings over '0' and
    '1', formatted, flipped and parsed as the library does it. */
module BitStrings {
  import opened Bytes

  predicate IsBinary(s: string) {
    forall i :: 0 <= i < |s| ==> s[i] == '0' || s[i] == '1'
  }

  function Pow2(n: nat): (r: nat)
    ensures r >= 1
  {
    if n == 0 then 1 else 2 * Pow2(n - 1)
  }

  function Bit(c: char): nat {
    if c == '1' then 1 else 0
  }

  /** int(s, 2) */
  function IntOf(s: string): nat {
    if s == "" then 0 else 2 * IntOf(s[..|s| - 1]) + Bit(s[|s| - 1])
  }

  /** "{0:b}".format(n) */
  function Format(n: nat): (s: string)
    ensures s != "" && IsBinary(s)
  {
    var digit := if n % 2 == 1 then "1" else "0";
    if n < 2 then digit else Format(n / 2) + digit
  }

  /** '0' * n */
  function ZeroBits(n: nat): (s: string)
    ensures |s| == n && IsBinary(s)
  {
    seq(n, _ => '0')
  }

  /** s.replace(old, new) on single characters */
  function Replace(s: string, was: char, now: char): (r: string)
    ensures |r| == |s|
    ensures forall i :: 0 <= i < |s| ==> r[i] == if s[i] == was then now else s[i]
  {
    seq(|s|, i requires 0 <= i < |s| => if s[i] == was then now else s[i])
  }

  /** s.rfind(c) */
  function RFind(s: string, c: char): (p: int)
    ensures -1 <= p < |s|
    ensures p >= 0 ==> s[p] == c
    ensures forall i :: p < i < |s| ==> s[i] != c
  {
    if s == "" then -1
    else if s[|s| - 1] == c then |s| - 1
    else RFind(s[..|s| - 1], c)
  }

  /** The three replacements that exchange the two digits. */
  function Flip(s: string): (r: string)
    requires IsBinary(s)
    ensures |r| == |s| && IsBinary(r)
    ensures forall i :: 0 <= i < |s| ==> (r[i] == '1' <==> s[i] == '0')
  {
    Replace(Replace(Replace(s, '1', 'i'), '0', '1'), 'i', '0')
  }

  /** Flip every digit, then carry a one into the last zero. */
  function Negate(s: string): (r: string)
    requires IsBinary(s) && '1' in s
    ensures |r| == |s| && IsBinary(r)
  {
    var flipped := Flip(s);
    var pivot := RFind(flipped, '0');
    assert pivot >= 0 by {
      var i :| 0 <= i < |s| && s[i] == '1';
      assert flipped[i] == '0';
    }
    flipped[..pivot] + "1" + ZeroBits(|flipped[pivot + 1..]|)
  }

  lemma {:induction false} FlipSplit(s: string)
    requires IsBinary(s) && s != ""
    ensures Flip(s)[..|s| - 1] == Flip(s[..|s| - 1])
  {
    var n := |s| - 1;
    assert forall i :: 0 <= i < n ==> Flip(s)[i] == Flip(s[..n])[i];
  }

  /** Flip and carry is negation modulo 2 to the length. */
  lemma {:induction false} NegateIsNegation(s: string)
    requires IsBinary(s) && '1' in s
    ensures IntOf(Negate(s)) == Pow2(|s|) - IntOf(s)
  {
    var n := |s| - 1;
    var init := s[..n];
    FlipSplit(s);
    if s[n] == '1' {
      assert RFind(Flip(s), '0') == n;
      assert Negate(s) == Flip(init) + "1";
      assert Negate(s)[..n] == Flip(init);
      FlipValue(init);
    } else {
      assert '1' in init;
      assert RFind(Flip(s), '0') == RFind(Flip(init), '0');
      assert Negate(s) == Negate(init) + "0";
      assert Negate(s)[..n] == Negate(init);
      NegateIsNegation(init);
    }
  }

  lemma {:induction false} FlipValue(s: string)
    requires IsBinary(s)
    ensures IntOf(Flip(s)) == Pow2(|s|) - 1 - IntOf(s)
  {
    if s != "" {
      FlipSplit(s);
      FlipValue(s[..|s| - 1]);
    }
  }

  lemma {:induction false} IntOfBound(s: string)
    ensures IntOf(s) < Pow2(|s|)
  {
    if s != "" {
      IntOfBound(s[..|s| - 1]);
    }
  }

  lemma {:induction false} Pow2Sum(m: nat, n: nat)
    ensures Pow2(m + n) == Pow2(m) * Pow2(n)
  {
    if n > 0 {
      Pow2Sum(m, n - 1);
      assert m + n - 1 == m + (n - 1);
    } 
  }

  lemma {:induction false} IntOfConcat(s: string, t: string)
    ensures IntOf(s + t) == IntOf(s) * Pow2(|t|) + IntOf(t)
  {
    if t == "" {
      assert s + t == s;
    } else {
      var n := |t| - 1;
      assert (s + t)[..|s + t| - 1] == s + t[..n];
      IntOfConcat(s, t[..n]);
      MulAssoc(2, IntOf(s), Pow2(n));
    }
  }

  lemma {:induction false} ZeroBitsValue(n: nat)
    ensures IntOf(ZeroBits(n)) == 0
  {
    if n > 0 {
      assert ZeroBits(n)[..n - 1] == ZeroBits(n - 1);
      ZeroBitsValue(n - 1);
    }
  }

  /** Leading zeros do not count. */
  lemma PadValue(n: nat, s: string)
    ensures IntOf(ZeroBits(n) + s) == IntOf(s)
  {
    IntOfConcat(ZeroBits(n), s);
    ZeroBitsValue(n);
  }

  /** Formatting and parsing are inverse; the format has no leading zero and is
      as long as the number has binary digits. */
  lemma {:induction false} FormatValue(n: nat)
    ensures IntOf(Format(n)) == n
    ensures n == 0 ==> Format(n) == "0"
    ensures n > 0 ==> Format(n)[0] == '1' && Pow2(|Format(n)| - 1) <= n
    ensures n < Pow2(|Format(n)|)
  {
    if n < 2 {
      assert Format(n)[..0] == "";
      assert Pow2(1) == 2 && Pow2(0) == 1;
    } else {
      FormatValue(n / 2);
      assert Format(n)[..|Format(n)| - 1] == Format(n / 2);
    }
  }

  lemma {:induction false} Pow2Grows(m: nat, n: nat)
    requires m < n
    ensures 2 * Pow2(m) <= Pow2(n)
  {
    if m + 1 < n {
      Pow2Grows(m, n - 1);
    }
  }

  lemma {:induction false} RadixIsPow2(n: nat)
    ensures Radix(n) == Pow2(8 * n)
  {
    if n > 0 {
      RadixIsPow2(n - 1);
      Pow2Sum(8 * (n - 1), 8);
      assert Pow2(8) == 256 by {
        assert Pow2(4) == 16;
      }
      assert 8 * n == 8 * (n - 1) + 8;
    }
  }

  // ---- utils.bit_length and utils.count_bytes

  /** s.lstrip('0b') */
  function LStrip(s: string): string {
    if s != "" && (s[0] == '0' || s[0] == 'b') then LStrip(s[1..]) else s
  }

  /** bin(n) */
  function Bin(n: int): string {
    if n < 0 then "-0b" + Format(-n) else "0b" + Format(n)
  }

  function BitLength(n: int): nat {
    |LStrip(Bin(n))|
  }

  function CountBytes(n: int): nat {
    var bits := BitLength(n);
    bits / 8 + if bits == 0 || bits % 8 != 0 then 1 else 0
  }

  /** The number of binary digits; nothing is stripped from a negative number. */
  lemma BitLengthMeaning(n: int)
    ensures n == 0 ==> BitLength(n) == 0
    ensures n > 0 ==> BitLength(n) == |Format(n)|
    ensures n < 0 ==> BitLength(n) == |Format(-n)| + 3
  {
    if n < 0 {
      return;
    }
    FormatValue(n);
    var s := "0b" + Format(n);
    assert s[1..] == "b" + Format(n) && s[1..][1..] == Format(n);
    assert LStrip(s) == LStrip(Format(n));
    if n == 0 {
      assert Format(0)[1..] == "";
    }
  }

  /** count_bytes(n) is at most k exactly when n packs into k bytes. */
  lemma CountBytesMeaning(n: nat, k: nat)
    requires k > 0
    ensures CountBytes(n) <= k <==> n < Radix(k)
  {
    hide BitLength, Format, LStrip, Bin, Radix, Pow2;
    BitLengthMeaning(n);
    RadixIsPow2(k);
    if n > 0 {
      FormatValue(n);
      var bits := |Format(n)|;
      if bits <= 8 * k {
        if bits < 8 * k { Pow2Grows(bits, 8 * k); }
      } else {
        if 8 * k < bits - 1 { Pow2Grows(8 * k, bits - 1); }
      }
    }
  }

  // ---- BigInteger sizes

  /** The bytes BigInteger.write produces: whole 64-bit words, with at least one
      leading zero before the magnitude. */
  function BigSize(v: int): (n: nat)
    ensures n > 0 && n % 8 == 0
  {
    8 * (|Format(Abs(v))| / 64 + 1)
  }

  function Abs(v: int): nat {
    if v < 0 then -v else v
  }

  /** The magnitude leaves the sign bit free. */
  lemma BigSizeHolds(v: int)
    ensures Abs(v) < Radix(BigSize(v)) / 2
    ensures FitsSigned(BigSize(v), v)
  {
    var n, bits := BigSize(v), |Format(Abs(v))|;
    FormatValue(Abs(v));
    RadixIsPow2(n);
    assert Pow2(8 * n) == 2 * Pow2(8 * n - 1);
    if bits < 8 * n - 1 { Pow2Grows(bits, 8 * n - 1); }
  }

  /** The size written is the least whole number of words that holds v, except
      exactly at v == -2^(64k - 1), where it is one word more than that. */
  lemma BigSizeLeast(v: int)
    ensures BigSize(v) > 8 ==>
      (FitsSigned(BigSize(v) - 8, v) <==> v == -(Radix(BigSize(v) - 8) / 2))
    ensures forall m :: 0 < m < BigSize(v) - 8 && m % 8 == 0 ==> !FitsSigned(m, v)
  {
    var n, bits := BigSize(v), |Format(Abs(v))|;
    FormatValue(Abs(v));
    if n > 8 {
      var h := 8 * (n - 8);
      assert h <= bits;
      RadixIsPow2(n - 8);
      assert Pow2(h) == 2 * Pow2(h - 1);
      assert Abs(v) >= Pow2(h - 1) by {
        if h - 1 < bits - 1 { Pow2Grows(h - 1, bits - 1); }
      }
      forall m | 0 < m < n - 8 && m % 8 == 0 ensures !FitsSigned(m, v) {
        RadixIsPow2(m);
        Pow2Grows(8 * m, h);
      }
    }
  }

  // ---- the meaning of a decoded byte string

  /** k copies of one byte: 0x00 or 0xFF */
  function Fill(k: nat, b: byte): (s: seq<byte>)
    ensures |s| == k
  {
    seq(k, _ => b)
  }

  /** Sign extension by whole bytes does not change the value. */
  lemma {:induction false} SignExtension(k: nat, s: seq<byte>)
    requires s != []
    ensures UnpackS(Fill(k, if s[0] >= 128 then 255 else 0) + s) == UnpackS(s)
  {
    var b: byte := if s[0] >= 128 then 255 else 0;
    if k == 0 {
      assert Fill(0, b) + s == s;
    } else {
      var longer := Fill(k, b) + s;
      var shorter := Fill(k - 1, b) + s;
      SignExtension(k - 1, s);
      assert longer[1..] == shorter;
      UnpackUHead(longer);
      assert shorter[0] >= 128 <==> b == 255;
    }
  }
}
