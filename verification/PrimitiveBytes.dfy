/** The primitives of the wire format byte by byte, with the type numbers of section
    9.1.1.2 of the KMIP 1.1 specification. */
module PrimitiveBytes {
  import opened Wrappers
  import opened Bytes
  import opened BitStrings
  import opened Enums
  import opened Ttlv

  /** A header with this tag and this type number, whatever its length field. */
  predicate Heads(tag: Tag, typ: byte, s: seq<byte>) {
    |s| >= 8 && IsTag(tag) && UnpackU(s[..3]) == tag && s[3] == typ
  }

  /** The length field of a header. */
  function LengthOf(s: seq<byte>): nat
    requires |s| >= 8
  {
    UnpackU(s[4..8])
  }

  lemma HeaderIff(tag: Tag, typ: byte, s: seq<byte>)
    requires typ <= 10
    ensures DecodeHeader(tag, typ, s).Ok? <==> Heads(tag, typ, s)
    ensures Heads(tag, typ, s) ==> DecodeHeader(tag, typ, s) == Ok((LengthOf(s), s[8..]))
  {
  }

  // ---- strings of bytes that are read one by one

  predicate AllZero(s: seq<byte>) {
    forall i :: 0 <= i < |s| ==> s[i] == 0
  }

  /** The characters of the text have these codes. */
  predicate Spells(text: string, codes: seq<byte>) {
    |text| == |codes| && forall i :: 0 <= i < |text| ==> text[i] as int == codes[i]
  }

  predicate AllAscii(s: seq<byte>) {
    forall i :: 0 <= i < |s| ==> s[i] < 128
  }

  lemma {:induction false} ReadZerosIff(n: nat, s: seq<byte>)
    ensures ReadZeros(n, s).Ok? <==> n <= |s| && AllZero(s[..n])
    ensures ReadZeros(n, s).Ok? ==> ReadZeros(n, s).value == s[n..]
  {
    if n > 0 && s != [] {
      ReadZerosIff(n - 1, s[1..]);
      if n <= |s| {
        assert s[..n] == [s[0]] + s[1..][..n - 1];
      }
    }
  }

  lemma {:induction false} ReadAsciiIff(n: nat, s: seq<byte>)
    ensures ReadAscii(n, s).Ok? <==> n <= |s| && AllAscii(s[..n])
    ensures ReadAscii(n, s).Ok? ==>
      ReadAscii(n, s).value.1 == s[n..] && Spells(ReadAscii(n, s).value.0, s[..n])
  {
    if n > 0 && s != [] {
      ReadAsciiIff(n - 1, s[1..]);
      if n <= |s| {
        assert s[..n] == [s[0]] + s[1..][..n - 1];
      }
    }
  }

  // ---- what every read accepts

  lemma IntegerBytes(tag: Tag, s: seq<byte>)
    ensures var d := Decode(tag, IntegerK, s);
      && (d.Ok? <==> Heads(tag, 2, s) && LengthOf(s) == 4 && |s| >= 16 && UnpackU(s[12..16]) == 0)
      && (d.Ok? ==> d.value == (Num(UnpackS(s[8..12])), s[16..]))
  {
    HeaderIff(tag, 2, s);
    hide DecodeHeader, UnpackU, UnpackS;
    if |s| >= 16 {
      assert s[8..][..4] == s[8..12] && s[8..][4..8] == s[12..16] && s[8..][8..] == s[16..];
    }
  }

  /** 3 is the type of a LongInteger, 9 that of a DateTime. */
  lemma LongIntegerBytes(tag: Tag, kind: Kind, s: seq<byte>)
    requires kind.LongIntegerK? || kind.DateTimeK?
    ensures var d := Decode(tag, kind, s);
      && (d.Ok? <==> Heads(tag, if kind.DateTimeK? then 9 else 3, s) && LengthOf(s) == 8 && |s| >= 16)
      && (d.Ok? ==> d.value == (Num(UnpackS(s[8..16])), s[16..]))
  {
    HeaderIff(tag, if kind.DateTimeK? then 9 else 3, s);
    hide DecodeHeader, UnpackU, UnpackS;
    if |s| >= 16 {
      assert s[8..][..8] == s[8..16] && s[8..][8..] == s[16..];
    }
  }

  lemma BigIntegerBytes(tag: Tag, s: seq<byte>)
    ensures var d := Decode(tag, BigIntegerK, s);
      && (d.Ok? <==> Heads(tag, 4, s) && 0 < LengthOf(s) <= |s| - 8 && LengthOf(s) % 8 == 0)
      && (d.Ok? ==> d.value == (Num(UnpackS(s[8..8 + LengthOf(s)])), s[8 + LengthOf(s)..]))
  {
    HeaderIff(tag, 4, s);
    hide DecodeHeader, UnpackU, UnpackS;
    if |s| >= 8 && LengthOf(s) <= |s| - 8 {
      assert s[8..][..LengthOf(s)] == s[8..8 + LengthOf(s)] && s[8..][LengthOf(s)..] == s[8 + LengthOf(s)..];
    }
  }

  lemma EnumerationBytes(tag: Tag, cls: EnumClass, s: seq<byte>)
    ensures var d := Decode(tag, EnumerationK(cls), s);
      && (d.Ok? <==> Heads(tag, 5, s) && LengthOf(s) == 4 && |s| >= 16
                     && IsMember(cls, UnpackU(s[8..12])) && UnpackU(s[12..16]) == 0)
      && (d.Ok? ==> d.value == (Num(UnpackU(s[8..12])), s[16..]))
  {
    HeaderIff(tag, 5, s);
    hide DecodeHeader, UnpackU, IsMember;
    if |s| >= 16 {
      assert s[8..][..4] == s[8..12] && s[8..][4..8] == s[12..16] && s[8..][8..] == s[16..];
    }
  }

  lemma BooleanBytes(tag: Tag, s: seq<byte>)
    ensures var d := Decode(tag, BooleanK, s);
      && (d.Ok? <==> Heads(tag, 6, s) && |s| >= 16 && UnpackU(s[8..16]) <= 1)
      && (d.Ok? ==> d.value == (Flag(UnpackU(s[8..16]) == 1, LengthOf(s)), s[16..]))
  {
    HeaderIff(tag, 6, s);
    hide DecodeHeader, UnpackU;
    if |s| >= 16 {
      assert s[8..][..8] == s[8..16] && s[8..][8..] == s[16..];
    }
  }

  lemma IntervalBytes(tag: Tag, s: seq<byte>)
    ensures var d := Decode(tag, IntervalK, s);
      && (d.Ok? <==> Heads(tag, 10, s) && LengthOf(s) == 4 && |s| >= 16 && UnpackU(s[12..16]) == 0)
      && (d.Ok? ==> d.value == (Num(UnpackU(s[8..12])), s[16..]))
  {
    HeaderIff(tag, 10, s);
    hide DecodeHeader, UnpackU;
    if |s| >= 16 {
      assert s[8..][..4] == s[8..12] && s[8..][4..8] == s[12..16] && s[8..][8..] == s[16..];
    }
  }

  /** Where the value of a string ends, and the zeros up to the next whole word. */
  function ValueEnd(s: seq<byte>): nat
    requires |s| >= 8
  {
    8 + LengthOf(s)
  }

  function PaddingEnd(s: seq<byte>): nat
    requires |s| >= 8
  {
    (ValueEnd(s) + 7) / 8 * 8
  }

  lemma EndOfPadding(s: seq<byte>)
    requires |s| >= 8
    ensures PaddingEnd(s) == ValueEnd(s) + FreshPadding(LengthOf(s))
  {
  }

  lemma TextStringBytes(tag: Tag, s: seq<byte>)
    ensures var d := Decode(tag, TextStringK, s);
      && (d.Ok? <==> Heads(tag, 7, s) && PaddingEnd(s) <= |s| && AllAscii(s[8..ValueEnd(s)])
                     && AllZero(s[ValueEnd(s)..PaddingEnd(s)]))
      && (d.Ok? ==>
            && d.value.0.Text? && d.value.1 == s[PaddingEnd(s)..]
            && Spells(d.value.0.chars, s[8..ValueEnd(s)]) && (d.value.0.stale <==> LengthOf(s) % 8 == 0))
  {
    HeaderIff(tag, 7, s);
    hide DecodeHeader, UnpackU, LengthOf, ReadAscii, ReadZeros, FreshPadding;
    if |s| >= 8 {
      var n, rest := LengthOf(s), s[8..];
      EndOfPadding(s);
      ReadAsciiIff(n, rest);
      if n <= |rest| {
        assert rest[..n] == s[8..ValueEnd(s)] && rest[n..] == s[ValueEnd(s)..];
        ReadZerosIff(FreshPadding(n), s[ValueEnd(s)..]);
        if PaddingEnd(s) <= |s| {
          assert s[ValueEnd(s)..][..FreshPadding(n)] == s[ValueEnd(s)..PaddingEnd(s)];
          assert s[ValueEnd(s)..][FreshPadding(n)..] == s[PaddingEnd(s)..];
        }
      }
    }
  }

  lemma ByteStringBytes(tag: Tag, s: seq<byte>)
    ensures var d := Decode(tag, ByteStringK, s);
      && (d.Ok? <==> Heads(tag, 8, s) && PaddingEnd(s) <= |s| && AllZero(s[ValueEnd(s)..PaddingEnd(s)]))
      && (d.Ok? ==> d.value == (Octets(s[8..ValueEnd(s)]), s[PaddingEnd(s)..]))
  {
    HeaderIff(tag, 8, s);
    hide DecodeHeader, UnpackU, LengthOf, ReadZeros, FreshPadding;
    if |s| >= 8 {
      var n, rest := LengthOf(s), s[8..];
      EndOfPadding(s);
      if n <= |rest| {
        assert rest[..n] == s[8..ValueEnd(s)] && rest[n..] == s[ValueEnd(s)..];
        ReadZerosIff(FreshPadding(n), s[ValueEnd(s)..]);
        if PaddingEnd(s) <= |s| {
          assert s[ValueEnd(s)..][..FreshPadding(n)] == s[ValueEnd(s)..PaddingEnd(s)];
          assert s[ValueEnd(s)..][FreshPadding(n)..] == s[PaddingEnd(s)..];
        }
      }
    }
  }

  // ---- with which error a read refuses

  /** A wrong tag, type or an early end in front of the value. */
  lemma HeaderRefused(tag: Tag, typ: byte, s: seq<byte>)
    requires IsTag(tag) && typ <= 10
    ensures var d := DecodeHeader(tag, typ, s);
      && (|s| < 3 ==> d == Err(StructError))
      && (|s| >= 3 && !IsTag(UnpackU(s[..3])) ==> d == Err(ValueError))
      && (|s| >= 3 && IsTag(UnpackU(s[..3])) && UnpackU(s[..3]) != tag ==> d == Err(ReadValueError))
      && (|s| >= 4 && UnpackU(s[..3]) == tag && s[3] > 10 ==> d == Err(ValueError))
      && (|s| >= 4 && UnpackU(s[..3]) == tag && s[3] <= 10 && s[3] != typ ==> d == Err(ReadValueError))
      && (3 <= |s| < 8 && UnpackU(s[..3]) == tag && (|s| == 3 || s[3] == typ) ==> d == Err(ReadValueError))
  {
  }

  /** The number types, behind a header of their own: what is checked first decides. */
  lemma NumberRefused(tag: Tag, s: seq<byte>)
    ensures Heads(tag, 2, s) ==>
      var d := Decode(tag, IntegerK, s);
      && (LengthOf(s) != 4 ==> d == Err(ReadValueError))
      && (LengthOf(s) == 4 && |s| < 16 ==> d == Err(StructError))
      && (LengthOf(s) == 4 && |s| >= 16 && UnpackU(s[12..16]) != 0 ==> d == Err(ReadValueError))
    ensures forall kind :: kind in {LongIntegerK, DateTimeK} && Heads(tag, if kind.DateTimeK? then 9 else 3, s) ==>
      var d := Decode(tag, kind, s);
      && (LengthOf(s) != 8 ==> d == Err(InvalidPrimitiveLength))
      && (LengthOf(s) == 8 && |s| < 16 ==> d == Err(StructError))
    ensures Heads(tag, 4, s) ==>
      var d := Decode(tag, BigIntegerK, s);
      && (LengthOf(s) % 8 != 0 ==> d == Err(InvalidPrimitiveLength))
      && (LengthOf(s) % 8 == 0 && LengthOf(s) > |s| - 8 ==> d == Err(StructError))
      && (LengthOf(s) == 0 ==> d == Err(IndexError))
    ensures Heads(tag, 6, s) ==>
      var d := Decode(tag, BooleanK, s);
      && (|s| < 16 ==> d == Err(StructError))
      && (|s| >= 16 && UnpackU(s[8..16]) > 1 ==> d == Err(ValueError))
    ensures Heads(tag, 10, s) ==>
      var d := Decode(tag, IntervalK, s);
      && (LengthOf(s) != 4 ==> d == Err(InvalidPrimitiveLength))
      && (LengthOf(s) == 4 && |s| < 16 ==> d == Err(StructError))
      && (LengthOf(s) == 4 && |s| >= 16 && UnpackU(s[12..16]) != 0 ==> d == Err(InvalidPaddingBytes))
  {
    HeaderIff(tag, 2, s);
    HeaderIff(tag, 3, s);
    HeaderIff(tag, 4, s);
    HeaderIff(tag, 6, s);
    HeaderIff(tag, 9, s);
    HeaderIff(tag, 10, s);
    hide DecodeHeader, UnpackU, Heads;
    if |s| >= 16 {
      assert s[8..][4..8] == s[12..16] && s[8..][..8] == s[8..16];
    }
  }

  lemma EnumerationRefused(tag: Tag, cls: EnumClass, s: seq<byte>)
    requires Heads(tag, 5, s)
    ensures var d := Decode(tag, EnumerationK(cls), s);
      && (LengthOf(s) != 4 ==> d == Err(InvalidPrimitiveLength))
      && (LengthOf(s) == 4 && |s| < 12 ==> d == Err(StructError))
      && (LengthOf(s) == 4 && |s| >= 12 && !IsMember(cls, UnpackU(s[8..12])) ==> d == Err(ValueError))
      && (LengthOf(s) == 4 && 12 <= |s| < 16 && IsMember(cls, UnpackU(s[8..12])) ==> d == Err(StructError))
      && (LengthOf(s) == 4 && |s| >= 16 && IsMember(cls, UnpackU(s[8..12])) && UnpackU(s[12..16]) != 0 ==>
            d == Err(InvalidPaddingBytes))
  {
    HeaderIff(tag, 5, s);
    hide DecodeHeader, UnpackU, IsMember;
    if |s| >= 12 {
      assert s[8..][..4] == s[8..12];
    }
    if |s| >= 16 {
      assert s[8..][4..8] == s[12..16];
    }
  }
}
