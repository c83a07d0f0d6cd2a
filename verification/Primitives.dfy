/** The primitive objects of kmip/core/primitives.py: fields that a read fills
    from a stream and a write appends to one. */
module Primitives {
  import opened Wrappers
  import opened Bytes
  import opened BitStrings
  import opened Enums
  import opened Streams
  import opened PrimitiveBytes
  import opened Ttlv

  // ---- Base

  /** Base.read: read_tag, read_type, read_length. */
  method ReadHeader(istream: BytearrayStream, tag: Tag, typ: byte) returns (r: Result<nat>)
    modifies istream
    ensures DecodeHeader(tag, typ, old(istream.buffer))
         == if r.Ok? then Ok((r.value, istream.buffer)) else Err(r.error)
  {
    ghost var s := istream.buffer;
    var tts := istream.Read(3);
    if |tts| < 3 { return Err(StructError); }
    assert tts == s[..3] && istream.buffer == s[3..];
    var number := UnpackU(tts);
    if !IsTag(number) { return Err(ValueError); }
    if number != tag { return Err(ReadValueError); }

    tts := istream.Read(1);
    if |tts| != 1 { return Err(ReadValueError); }
    assert tts[0] == s[3] && istream.buffer == s[4..];
    if tts[0] > 10 { return Err(ValueError); }
    if tts[0] != typ { return Err(ReadValueError); }

    var lst := istream.Read(4);
    if |lst| != 4 { return Err(ReadValueError); }
    assert lst == s[4..8] && istream.buffer == s[8..];
    r := Ok(UnpackU(lst));
  }

  /** Base.write: the tag and the type go out before the length is checked. */
  method WriteHeader(ostream: BytearrayStream, tag: Tag, typ: byte, length: nat) returns (r: Result<()>)
    modifies ostream
    ensures r.Ok? <==> length < Radix(4)
    ensures ostream.buffer == old(ostream.buffer)
      + if r.Ok? then Header(tag, typ, length) else PackU(3, tag) + [typ]
  {
    var _ := ostream.Write(PackU(3, tag));
    var _ := ostream.Write([typ]);
    CountBytesMeaning(length, 4);
    if CountBytes(length) > 4 {
      return Err(WriteOverflowError);
    }
    var _ := ostream.Write(PackU(4, length));
    r := Ok(());
  }

  /** Base.is_tag_next */
  method TagNext(tag: Tag, stream: BytearrayStream) returns (b: bool)
    ensures b <==> IsTagNext(tag, stream.buffer)
  {
    var next := stream.Peek(3);
    if |next| != 3 { return false; }
    assert next == stream.buffer[..3];
    b := UnpackU(next) == tag;
  }

  /** Base.is_type_next */
  method TypeNext(typ: byte, stream: BytearrayStream) returns (b: bool)
    ensures b <==> |stream.buffer| >= 4 && stream.buffer[3] == typ
  {
    var tt := stream.Peek(4);
    if |tt| != 4 { return false; }
    b := tt[3] == typ;
  }

  /** Base.is_oversized */
  method CheckOversized(stream: BytearrayStream) returns (r: Result<()>)
    ensures r == if stream.buffer == [] then Ok(()) else Err(StreamNotEmptyError)
  {
    var extra := stream.Peek(|stream.buffer|);
    if |extra| > 0 { return Err(StreamNotEmptyError); }
    r := Ok(());
  }

  /** unpack of exactly n bytes */
  method ReadExactly(istream: BytearrayStream, n: nat) returns (r: Result<seq<byte>>)
    modifies istream
    ensures r.Ok? <==> |old(istream.buffer)| >= n
    ensures r.Ok? ==> r.value == old(istream.buffer)[..n] && istream.buffer == old(istream.buffer)[n..]
    ensures r.Err? ==> r.error == StructError
  {
    var data := istream.Read(n);
    if |data| != n { return Err(StructError); }
    r := Ok(data);
  }

  /** The padding loop shared by TextString and ByteString. */
  method ReadPadding(istream: BytearrayStream, n: nat) returns (r: Result<()>)
    modifies istream
    ensures ReadZeros(n, old(istream.buffer)) == if r.Ok? then Ok(istream.buffer) else Err(r.error)
  {
    for i := 0 to n
      invariant ReadZeros(n, old(istream.buffer)) == ReadZeros(n - i, istream.buffer)
    {
      var pad :- ReadExactly(istream, 1);
      if pad[0] != 0 { return Err(ReadValueError); }
    }
    r := Ok(());
  }

  method WriteZeros(ostream: BytearrayStream, n: nat)
    modifies ostream
    ensures ostream.buffer == old(ostream.buffer) + Zeros(n)
  {
    for i := 0 to n
      invariant ostream.buffer == old(ostream.buffer) + Zeros(i)
    {
      var _ := ostream.Write([0]);
    }
  }

  /** What a primitive write appends, and when it can. */
  lemma PrimitiveWrite(tag: Tag, kind: Kind, v: Value)
    requires !kind.StructK? && !kind.AttributeK?
    ensures Encode(tag, kind, v)
         == Header(tag, TypeCode(kind), if kind.BooleanK? && v.Flag? then v.length else |PrimitiveBody(kind, v)|)
          + PrimitiveBody(kind, v) + Zeros(Padding(kind, v))
    ensures Writable(kind, v) <==> |PrimitiveBody(kind, v)| < Radix(4) && WritablePrimitive(kind, v)
    ensures Radix(4) == 0x1_0000_0000
  {
    RadixFour();
  }

  // ---- numbers

  class Integer {
    var tag: Tag
    var value: int
    var length: nat

    static predicate InRange(value: int) {
      -2147483648 <= value <= 2147483647
    }

    ghost predicate Valid()
      reads this
    {
      InRange(value) && length == 4
    }

    ghost function View(): Value
      reads this
    {
      Num(value)
    }

    /** The constructor raises ValueError outside 32 bits. */
    static method Create(value: int, tag: Tag) returns (r: Result<Integer>)
      ensures r.Ok? <==> -0x8000_0000 <= value < 0x8000_0000
      ensures r.Ok? ==> fresh(r.value) && r.value.Valid() && r.value.tag == tag && r.value.value == value
    {
      if value > 2147483647 || value < -2147483648 { return Err(ValueError); }
      var made := new Integer(value, tag);
      r := Ok(made);
    }

    constructor (value: int, tag: Tag)
      requires InRange(value)
      ensures Valid() && this.tag == tag && this.value == value
    {
      this.tag, this.value, this.length := tag, value, 4;
    }

    method Read(istream: BytearrayStream) returns (r: Result<()>)
      modifies this, istream
      ensures tag == old(tag)
      ensures var d := Decode(tag, IntegerK, old(istream.buffer));
        if r.Ok? then Valid() && d == Ok((View(), istream.buffer)) else d == Err(r.error)
      ensures var s := old(istream.buffer);
        && (r.Ok? <==> Heads(tag, 2, s) && LengthOf(s) == 4 && |s| >= 16 && UnpackU(s[12..16]) == 0)
        && (r.Ok? ==> value == UnpackS(s[8..12]) && istream.buffer == s[16..])
    {
      IntegerBytes(tag, istream.buffer);
      length :- ReadHeader(istream, tag, 2);
      ghost var s := istream.buffer;
      if length != 4 { return Err(ReadValueError); }
      var data :- ReadExactly(istream, 4);
      value := UnpackS(data);
      var pad :- ReadExactly(istream, 4);
      assert pad == s[4..8] && istream.buffer == s[8..];
      if UnpackS(pad) != 0 {
        SignedZero(pad);
        return Err(ReadValueError);
      }
      SignedZero(pad);
      SignedRange(data);
      r := Ok(());
    }

    method Write(ostream: BytearrayStream) returns (r: Result<()>)
      requires Valid()
      modifies ostream
      ensures r.Ok? && Writable(IntegerK, View())
      ensures ostream.buffer == old(ostream.buffer) + Encode(tag, IntegerK, View())
      ensures FitsSigned(4, value) && ostream.buffer
           == old(ostream.buffer) + (PackU(3, tag) + [2] + PackU(4, 4) + PackS(4, value) + Zeros(4))
    {
      hide Encode, Writable, Radix, PackU;
      PrimitiveWrite(tag, IntegerK, View());
      SignedBounds();
      r := WriteHeader(ostream, tag, 2, length);
      var _ := ostream.Write(PackS(4, value));
      var _ := ostream.Write(Zeros(4));
    }
  }

  lemma RadixFour()
    ensures Radix(4) == 0x1_0000_0000
  {
    assert Radix(2) == 0x10000;
  }

  lemma RadixEight()
    ensures Radix(8) == 0x1_0000_0000_0000_0000
  {
    RadixFour();
    assert Radix(6) == 0x1_0000_0000_0000;
  }

  lemma SignedBounds()
    ensures forall v :: FitsSigned(4, v) <==> Integer.InRange(v)
    ensures Radix(4) == 0x1_0000_0000
  {
    RadixFour();
  }

  /** The padding is unpacked as a signed integer, which is zero just when the
      bytes are. */
  lemma SignedZero(pad: seq<byte>)
    requires |pad| == 4
    ensures UnpackS(pad) == 0 <==> UnpackU(pad) == 0
  {
    UnpackUBound(pad);
    FirstBit(pad);
  }

  lemma SignedRange(data: seq<byte>)
    requires |data| == 4
    ensures Integer.InRange(UnpackS(data))
  {
    UnpackPackS(data);
    SignedBounds();
  }

  /** LongInteger, and its subclass DateTime, which differs in the type code. */
  class LongInteger {
    const kind: Kind
    var tag: Tag
    var value: int
    var length: nat

    ghost predicate Valid()
      reads this
    {
      (kind.LongIntegerK? || kind.DateTimeK?) && FitsSigned(8, value) && length == 8
    }

    ghost function View(): Value
      reads this
    {
      Num(value)
    }

    /** The constructor raises ValueError outside 64 bits. */
    static method Create(kind: Kind, value: int, tag: Tag) returns (r: Result<LongInteger>)
      requires kind.LongIntegerK? || kind.DateTimeK?
      ensures r.Ok? <==> -0x8000_0000_0000_0000 <= value < 0x8000_0000_0000_0000
      ensures r.Ok? ==>
        && fresh(r.value) && r.value.Valid()
        && r.value.kind == kind && r.value.tag == tag && r.value.value == value
    {
      if value > 9223372036854775807 || value < -9223372036854775808 { return Err(ValueError); }
      RadixEight();
      var made := new LongInteger(kind, value, tag);
      r := Ok(made);
    }

    constructor (kind: Kind, value: int, tag: Tag)
      requires (kind.LongIntegerK? || kind.DateTimeK?) && FitsSigned(8, value)
      ensures Valid() && this.kind == kind && this.tag == tag && this.value == value
    {
      this.kind, this.tag, this.value, this.length := kind, tag, value, 8;
    }

    method Read(istream: BytearrayStream) returns (r: Result<()>)
      requires kind.LongIntegerK? || kind.DateTimeK?
      modifies this, istream
      ensures tag == old(tag)
      ensures var d := Decode(tag, kind, old(istream.buffer));
        if r.Ok? then Valid() && d == Ok((View(), istream.buffer)) else d == Err(r.error)
      ensures var s, typ := old(istream.buffer), if kind.DateTimeK? then 9 else 3;
        && (r.Ok? <==> Heads(tag, typ, s) && LengthOf(s) == 8 && |s| >= 16)
        && (r.Ok? ==> value == UnpackS(s[8..16]) && istream.buffer == s[16..])
    {
      LongIntegerBytes(tag, kind, istream.buffer);
      length :- ReadHeader(istream, tag, TypeCode(kind));
      if length != 8 { return Err(InvalidPrimitiveLength); }
      var data :- ReadExactly(istream, 8);
      value := UnpackS(data);
      UnpackPackS(data);
      r := Ok(());
    }

    method Write(ostream: BytearrayStream) returns (r: Result<()>)
      requires Valid()
      modifies ostream
      ensures r.Ok? && Writable(kind, View())
      ensures ostream.buffer == old(ostream.buffer) + Encode(tag, kind, View())
      ensures var typ := if kind.DateTimeK? then 9 else 3;
        ostream.buffer == old(ostream.buffer) + (PackU(3, tag) + [typ] + PackU(4, 8) + PackS(8, value))
    {
      hide Encode, Writable, Radix, PackU;
      PrimitiveWrite(tag, kind, View());
      r := WriteHeader(ostream, tag, TypeCode(kind), length);
      var _ := ostream.Write(PackS(8, value));
    }
  }

  class BigInteger {
    var tag: Tag
    var value: int
    var length: nat

    ghost function View(): Value
      reads this
    {
      Num(value)
    }

    constructor (value: int, tag: Tag)
      ensures this.tag == tag && this.value == value
    {
      this.tag, this.value, this.length := tag, value, 0;
    }

    /** The bits of the next length bytes, eight digits each. */
    static method ReadBits(istream: BytearrayStream, length: nat) returns (r: Result<string>)
      modifies istream
      ensures r.Ok? <==> |old(istream.buffer)| >= length
      ensures r.Err? ==> r.error == StructError
      ensures r.Ok? ==>
        var data, binary := old(istream.buffer)[..length], r.value;
        && istream.buffer == old(istream.buffer)[length..]
        && IsBinary(binary) && |binary| == 8 * length && IntOf(binary) == UnpackU(data)
        && (length > 0 ==> (binary[0] == '1' <==> data[0] >= 128))
    {
      hide Format, IntOf, Pow2, UnpackU, ZeroBits;
      ghost var s := istream.buffer;
      var binary := "";
      NoBits();
      assert s[..0] == [];
      for i := 0 to length
        invariant i <= |s| && istream.buffer == s[i..]
        invariant IsBinary(binary) && |binary| == 8 * i
        invariant IntOf(binary) == UnpackU(s[..i])
        invariant i > 0 ==> (binary[0] == '1' <==> s[0] >= 128)
      {
        var b :- ReadExactly(istream, 1);
        var bits := Format(b[0]);
        var pad := |bits| % 8;
        FormatByte(b[0]);
        if pad != 0 {
          bits := ZeroBits(8 - pad) + bits;
        }
        IntOfConcat(binary, bits);
        assert s[..i + 1] == s[..i] + [b[0]];
        UnpackStep(s[..i], b[0]);
        binary := binary + bits;
      }
      r := Ok(binary);
    }

    /** A leading one means negative; the magnitude is then found by flipping and
        carrying. */
    static method SignedValue(bits: string) returns (value: int)
      requires IsBinary(bits) && bits != ""
      ensures value == IntOf(bits) - if bits[0] == '1' then Pow2(|bits|) else 0
    {
      var sign, binary := 1, bits;
      if binary[0] == '1' {
        sign := -1;
        NegateIsNegation(binary);
        binary := Negate(binary);
      }
      value := IntOf(binary) * sign;
    }

    method Read(istream: BytearrayStream) returns (r: Result<()>)
      modifies this, istream
      ensures tag == old(tag)
      ensures var d := Decode(tag, BigIntegerK, old(istream.buffer));
        if r.Ok? then d == Ok((View(), istream.buffer)) else d == Err(r.error)
      ensures var s := old(istream.buffer);
        && (r.Ok? <==> Heads(tag, 4, s) && 0 < LengthOf(s) <= |s| - 8 && LengthOf(s) % 8 == 0)
        && (r.Ok? ==> value == UnpackS(s[8..8 + LengthOf(s)]) && istream.buffer == s[8 + LengthOf(s)..])
    {
      hide UnpackU, Radix;
      BigIntegerBytes(tag, istream.buffer);
      length :- ReadHeader(istream, tag, 4);
      if length % 8 != 0 { return Err(InvalidPrimitiveLength); }
      var binary :- ReadBits(istream, length);
      if length == 0 { return Err(IndexError); }
      RadixIsPow2(length);
      value := SignedValue(binary);
      r := Ok(());
    }

    /** The magnitude padded to whole words with at least one zero in front, then
        flipped and carried for a negative value. */
    static method TwosComplementBits(value: int) returns (binary: string)
      ensures IsBinary(binary) && |binary| == 8 * BigSize(value)
      ensures IntOf(binary) == if value < 0 then value + Radix(BigSize(value)) else value
    {
      hide IntOf, Radix, Pow2, Format;
      binary := Format(Abs(value));
      FormatValue(Abs(value));
      PadValue(64 - |binary| % 64, binary);
      binary := ZeroBits(64 - |binary| % 64) + binary;
      assert |binary| == 8 * BigSize(value);
      RadixIsPow2(BigSize(value));
      if value < 0 {
        HasOne(binary);
        NegateIsNegation(binary);
        binary := Negate(binary);
      }
    }

    /** Eight digits a byte. */
    static method BytesOf(binary: string) returns (hexadecimal: seq<byte>)
      requires IsBinary(binary) && |binary| % 8 == 0
      ensures hexadecimal == PackU(|binary| / 8, IntOf(binary))
    {
      hide PackU, IntOf, Pow2;
      hexadecimal := [];
      var i := 0;
      NoBits();
      assert binary[..0] == "";
      while i < |binary|
        invariant 0 <= i <= |binary| && i % 8 == 0
        invariant hexadecimal == PackU(i / 8, IntOf(binary[..i]))
      {
        var byte := binary[i..i + 8];
        assert binary[..i + 8] == binary[..i] + byte;
        IntOfConcat(binary[..i], byte);
        IntOfBound(byte);
        EightBits();
        PackStep(i / 8, IntOf(binary[..i]), IntOf(byte));
        hexadecimal := hexadecimal + [IntOf(byte)];
        i := i + 8;
      }
      assert binary[..i] == binary;
    }

    method Write(ostream: BytearrayStream) returns (r: Result<()>)
      modifies this`length, ostream
      ensures r.Ok? <==> Writable(BigIntegerK, View())
      ensures r.Ok? ==> ostream.buffer == old(ostream.buffer) + Encode(tag, BigIntegerK, View())
      ensures var n := BigSize(value);
        r.Ok? ==> FitsSigned(n, value) && ostream.buffer
                  == old(ostream.buffer) + (PackU(3, tag) + [4] + PackU(4, n) + PackS(n, value))
      ensures length == BigSize(value)
    {
      hide Encode, Writable, Radix, PackU, BigSize;
      PrimitiveWrite(tag, BigIntegerK, View());
      BigSizeHolds(value);
      var binary := TwosComplementBits(value);
      var hexadecimal := BytesOf(binary);
      assert hexadecimal == PackS(BigSize(value), value);

      length := |hexadecimal|;
      r := WriteHeader(ostream, tag, 4, length);
      if r.Ok? {
        var _ := ostream.Write(hexadecimal);
      }
    }
  }

  lemma HasOne(s: string)
    requires IsBinary(s) && IntOf(s) > 0
    ensures '1' in s
  {
    if forall i :: 0 <= i < |s| ==> s[i] == '0' {
      assert s == ZeroBits(|s|);
      ZeroBitsValue(|s|);
    }
  }

  lemma NoBits()
    ensures IntOf("") == 0 && PackU(0, 0) == [] && UnpackU([]) == 0
  {
  }

  lemma PackStep(n: nat, high: nat, low: byte)
    ensures PackU(n + 1, 256 * high + low) == PackU(n, high) + [low]
  {
  }

  lemma UnpackStep(s: seq<byte>, b: byte)
    ensures UnpackU(s + [b]) == 256 * UnpackU(s) + b
  {
    assert (s + [b])[..|s|] == s;
  }

  lemma EightBits()
    ensures Pow2(8) == 256 && Pow2(7) == 128
  {
    assert Pow2(4) == 16;
  }

  /** A byte formats to one to eight digits; padded, to its eight bits. */
  lemma FormatByte(b: byte)
    ensures 1 <= |Format(b)| <= 8
    ensures var pad := |Format(b)| % 8;
      var bits := if pad != 0 then ZeroBits(8 - pad) + Format(b) else Format(b);
      |bits| == 8 && IntOf(bits) == b && (bits[0] == '1' <==> b >= 128) && Pow2(|bits|) == 256
  {
    hide Format, IntOf, Pow2;
    EightBits();
    FormatValue(b);
    var n := |Format(b)|;
    if n > 9 { Pow2Grows(8, n - 1); }
    if n < 8 {
      PadValue(8 - n, Format(b));
      if n < 7 { Pow2Grows(n, 7); }
    }
  }

  class Enumeration {
    const cls: EnumClass
    var tag: Tag
    var value: Option<int>
    var length: nat

    ghost predicate Valid()
      reads this
    {
      (value.Some? ==> IsMember(cls, value.value)) && length == 4
    }

    ghost function View(): Value
      reads this
      requires value.Some?
    {
      Num(value.value)
    }

    constructor (cls: EnumClass, value: Option<int>, tag: Tag)
      requires value.Some? ==> IsMember(cls, value.value)
      ensures Valid() && this.cls == cls && this.tag == tag && this.value == value
    {
      this.cls, this.tag, this.value, this.length := cls, tag, value, 4;
    }

    method Read(istream: BytearrayStream) returns (r: Result<()>)
      modifies this, istream
      ensures tag == old(tag)
      ensures var d := Decode(tag, EnumerationK(cls), old(istream.buffer));
        if r.Ok? then Valid() && value.Some? && d == Ok((View(), istream.buffer)) else d == Err(r.error)
      ensures var s := old(istream.buffer);
        && (r.Ok? <==> Heads(tag, 5, s) && LengthOf(s) == 4 && |s| >= 16
                       && IsMember(cls, UnpackU(s[8..12])) && UnpackU(s[12..16]) == 0)
        && (r.Ok? ==> value == Some(UnpackU(s[8..12])) && istream.buffer == s[16..])
    {
      EnumerationBytes(tag, cls, istream.buffer);
      length :- ReadHeader(istream, tag, 5);
      ghost var s := istream.buffer;
      if length != 4 { return Err(InvalidPrimitiveLength); }
      var data :- ReadExactly(istream, 4);
      var number := UnpackU(data);
      if !IsMember(cls, number) { return Err(ValueError); }
      value := Some(number);
      var pad :- ReadExactly(istream, 4);
      assert pad == s[4..8] && istream.buffer == s[8..];
      if UnpackU(pad) != 0 { return Err(InvalidPaddingBytes); }
      r := Ok(());
    }

    method Write(ostream: BytearrayStream) returns (r: Result<()>)
      requires Valid()
      modifies ostream
      ensures r.Ok? <==> value.Some?
      ensures r.Ok? ==> Writable(EnumerationK(cls), View())
      ensures r.Ok? ==> ostream.buffer == old(ostream.buffer) + Encode(tag, EnumerationK(cls), View())
      ensures r.Ok? ==>
        ostream.buffer == old(ostream.buffer) + (PackU(3, tag) + [5] + PackU(4, 4) + PackU(4, value.value) + Zeros(4))
    {
      hide Encode, Writable, Radix, PackU;
      if value.Some? { PrimitiveWrite(tag, EnumerationK(cls), View()); }
      RadixFour();
      r := WriteHeader(ostream, tag, 5, length);
      if value.None? { return Err(AttributeError); }
      var _ := ostream.Write(PackU(4, value.value));
      var _ := ostream.Write(Zeros(4));
    }
  }

  class Boolean {
    var tag: Tag
    var value: bool
    var length: nat

    ghost function View(): Value
      reads this
    {
      Flag(value, length)
    }

    constructor (value: bool, tag: Tag)
      ensures View() == Flag(value, 8) && this.tag == tag
    {
      this.tag, this.value, this.length := tag, value, 8;
    }

    /** The length that was read is kept but not checked, so it may differ from 8
        afterwards. */
    method Read(istream: BytearrayStream) returns (r: Result<()>)
      modifies this, istream
      ensures tag == old(tag)
      ensures var d := Decode(tag, BooleanK, old(istream.buffer));
        if r.Ok? then d == Ok((View(), istream.buffer)) else d == Err(r.error)
      ensures var s := old(istream.buffer);
        && (r.Ok? <==> Heads(tag, 6, s) && |s| >= 16 && UnpackU(s[8..16]) <= 1)
        && (r.Ok? ==> value == (UnpackU(s[8..16]) == 1) && length == LengthOf(s) && istream.buffer == s[16..])
    {
      BooleanBytes(tag, istream.buffer);
      length :- ReadHeader(istream, tag, 6);
      var data :- ReadExactly(istream, 8);
      var number := UnpackU(data);
      if number == 1 {
        value := true;
      } else if number == 0 {
        value := false;
      } else {
        return Err(ValueError);
      }
      r := Ok(());
    }

    /** Whatever length the object holds is written, in front of eight bytes. */
    method Write(ostream: BytearrayStream) returns (r: Result<()>)
      modifies ostream
      ensures r.Ok? <==> Writable(BooleanK, View())
      ensures r.Ok? ==> ostream.buffer == old(ostream.buffer) + Encode(tag, BooleanK, View())
      ensures r.Ok? <==> length < 0x1_0000_0000
      ensures var number := if value then 1 else 0;
        r.Ok? ==>
          ostream.buffer == old(ostream.buffer) + (PackU(3, tag) + [6] + PackU(4, length) + PackU(8, number))
    {
      hide Encode, Writable, Radix, PackU;
      PrimitiveWrite(tag, BooleanK, View());
      var _ :- WriteHeader(ostream, tag, 6, length);
      var _ := ostream.Write(PackU(8, if value then 1 else 0));
      r := Ok(());
    }
  }

  class Interval {
    var tag: Tag
    var value: int
    var length: nat

    /** The accepted maximum is one more than four bytes hold. */
    static predicate InRange(value: int) {
      0 <= value <= 4294967296
    }

    ghost predicate Valid()
      reads this
    {
      InRange(value) && length == 4
    }

    ghost function View(): Value
      reads this
    {
      Num(value)
    }

    /** The constructor raises ValueError outside its range. */
    static method Create(value: int, tag: Tag) returns (r: Result<Interval>)
      ensures r.Ok? <==> 0 <= value <= 0x1_0000_0000
      ensures r.Ok? ==> fresh(r.value) && r.value.Valid() && r.value.tag == tag && r.value.value == value
    {
      if value > 4294967296 || value < 0 { return Err(ValueError); }
      var made := new Interval(value, tag);
      r := Ok(made);
    }

    constructor (value: int, tag: Tag)
      requires InRange(value)
      ensures Valid() && this.tag == tag && this.value == value
    {
      this.tag, this.value, this.length := tag, value, 4;
    }

    method Read(istream: BytearrayStream) returns (r: Result<()>)
      modifies this, istream
      ensures tag == old(tag)
      ensures var d := Decode(tag, IntervalK, old(istream.buffer));
        if r.Ok? then Valid() && d == Ok((View(), istream.buffer)) else d == Err(r.error)
      ensures var s := old(istream.buffer);
        && (r.Ok? <==> Heads(tag, 10, s) && LengthOf(s) == 4 && |s| >= 16 && UnpackU(s[12..16]) == 0)
        && (r.Ok? ==> value == UnpackU(s[8..12]) && istream.buffer == s[16..])
    {
      IntervalBytes(tag, istream.buffer);
      length :- ReadHeader(istream, tag, 10);
      ghost var s := istream.buffer;
      if length != 4 { return Err(InvalidPrimitiveLength); }
      var data :- ReadExactly(istream, 4);
      value := UnpackU(data);
      UnpackUBound(data);
      RadixFour();
      var pad :- ReadExactly(istream, 4);
      assert pad == s[4..8] && istream.buffer == s[8..];
      if UnpackU(pad) != 0 { return Err(InvalidPaddingBytes); }
      r := Ok(());
    }

    /** A valid interval is not always writable: 2^32 does not pack. */
    method Write(ostream: BytearrayStream) returns (r: Result<()>)
      requires Valid()
      modifies ostream
      ensures r.Ok? <==> Writable(IntervalK, View())
      ensures r.Ok? <==> value < 4294967296
      ensures r.Ok? ==> ostream.buffer == old(ostream.buffer) + Encode(tag, IntervalK, View())
      ensures r.Ok? ==>
        ostream.buffer == old(ostream.buffer) + (PackU(3, tag) + [10] + PackU(4, 4) + PackU(4, value) + Zeros(4))
    {
      hide Encode, Writable, Radix, PackU;
      PrimitiveWrite(tag, IntervalK, View());
      r := WriteHeader(ostream, tag, 10, length);
      if value > 4294967295 { return Err(StructError); }
      var _ := ostream.Write(PackU(4, value));
      var _ := ostream.Write(Zeros(4));
    }
  }

  // ---- strings

  class TextString {
    var tag: Tag
    var value: string
    var length: nat
    var paddingLength: nat

    ghost predicate Valid()
      reads this
    {
      && length == |value|
      && (paddingLength == FreshPadding(|value|) || (|value| % 8 == 0 && paddingLength == 8))
    }

    ghost function View(): Value
      reads this
    {
      Text(value, paddingLength == 8)
    }

    constructor (value: string, tag: Tag)
      ensures Valid() && this.tag == tag && View() == Text(value, false)
    {
      this.tag, this.value, this.length := tag, value, |value|;
      var pad := 8 - |value| % 8;
      this.paddingLength := if pad == 8 then 0 else pad;
    }

    /** TextString.read_value */
    method ReadValue(istream: BytearrayStream) returns (r: Result<()>)
      modifies this`value, this`paddingLength, istream
      ensures var d := DecodePrimitive(TextStringK, length, old(istream.buffer));
        if r.Ok? then Valid() && d == Ok((View(), istream.buffer)) else d == Err(r.error)
    {
      ghost var s := istream.buffer;
      value := "";
      ContinueStart(ReadAscii(length, s));
      for i := 0 to length
        modifies this`value, istream
        invariant |value| == i
        invariant ReadAscii(length, s) == Continue(value, ReadAscii(length - i, istream.buffer))
      {
        var c :- ReadExactly(istream, 1);
        if c[0] >= 128 { return Err(UnicodeError); }
        ContinueStep(value, c[0] as char, ReadAscii(length - i - 1, istream.buffer));
        value := value + [c[0] as char];
      }
      assert value + "" == value;
      paddingLength := 8 - length % 8;
      if paddingLength < 8 {
        r := ReadPadding(istream, paddingLength);
      } else {
        r := Ok(());
      }
    }

    /** After the read the padding length is 8, not 0, if the text fills its words. */
    method Read(istream: BytearrayStream) returns (r: Result<()>)
      modifies this, istream
      ensures tag == old(tag)
      ensures var d := Decode(tag, TextStringK, old(istream.buffer));
        if r.Ok? then Valid() && d == Ok((View(), istream.buffer)) else d == Err(r.error)
      ensures var s := old(istream.buffer);
        && (r.Ok? <==> Heads(tag, 7, s) && PaddingEnd(s) <= |s| && AllAscii(s[8..ValueEnd(s)])
                       && AllZero(s[ValueEnd(s)..PaddingEnd(s)]))
        && (r.Ok? ==> Spells(value, s[8..ValueEnd(s)]) && istream.buffer == s[PaddingEnd(s)..])
    {
      hide DecodeHeader, UnpackU, Radix, Spells, Heads, LengthOf, ValueEnd, PaddingEnd, AllAscii, AllZero;
      TextStringBytes(tag, istream.buffer);
      length :- ReadHeader(istream, tag, 7);
      r := ReadValue(istream);
    }

    method Write(ostream: BytearrayStream) returns (r: Result<()>)
      requires Valid()
      modifies ostream
      ensures r.Ok? <==> Writable(TextStringK, View())
      ensures r.Ok? ==> ostream.buffer == old(ostream.buffer) + Encode(tag, TextStringK, View())
      ensures var text := AsciiBytes(value);
        && (r.Ok? ==> Spells(value, text))
        && (r.Ok? ==> ostream.buffer
                      == old(ostream.buffer) + (PackU(3, tag) + [7] + PackU(4, |value|) + text + Zeros(paddingLength)))
    {
      hide Encode, Writable, Radix, PackU;
      PrimitiveWrite(tag, TextStringK, View());
      var _ :- WriteHeader(ostream, tag, 7, length);
      ghost var before := ostream.buffer;
      for i := 0 to |value|
        modifies ostream
        invariant IsAscii(value[..i])
        invariant ostream.buffer == before + AsciiBytes(value[..i])
      {
        assert value[..i + 1] == value[..i] + [value[i]];
        if value[i] as int >= 128 { return Err(StructError); }
        var _ := ostream.Write([value[i] as int]);
      }
      assert value[..|value|] == value;
      WriteZeros(ostream, paddingLength);
      r := Ok(());
    }
  }

  /** The text read so far, in front of what is still to be read. */
  function Continue(text: string, r: Result<(string, seq<byte>)>): Result<(string, seq<byte>)> {
    match r
    case Ok(p) => Ok((text + p.0, p.1))
    case Err(e) => Err(e)
  }

  lemma ContinueStart(r: Result<(string, seq<byte>)>)
    ensures Continue("", r) == r
  {
    if r.Ok? {
      assert "" + r.value.0 == r.value.0;
    }
  }

  lemma ContinueStep(text: string, c: char, r: Result<(string, seq<byte>)>)
    ensures Continue(text, Continue([c], r)) == Continue(text + [c], r)
  {
    if r.Ok? {
      assert text + ([c] + r.value.0) == text + [c] + r.value.0;
    }
  }

  class ByteString {
    var tag: Tag
    var value: seq<byte>
    var length: nat
    var paddingLength: nat

    ghost predicate Valid()
      reads this
    {
      length == |value| && paddingLength == FreshPadding(|value|)
    }

    ghost function View(): Value
      reads this
    {
      Octets(value)
    }

    constructor (value: seq<byte>, tag: Tag)
      ensures Valid() && this.tag == tag && this.value == value
    {
      this.tag, this.value, this.length := tag, value, |value|;
      var pad := 8 - |value| % 8;
      this.paddingLength := if pad == 8 then 0 else pad;
    }

    /** ByteString.read_value */
    method ReadValue(istream: BytearrayStream) returns (r: Result<()>)
      modifies this`value, this`paddingLength, istream
      ensures var d := DecodePrimitive(ByteStringK, length, old(istream.buffer));
        if r.Ok? then Valid() && d == Ok((View(), istream.buffer)) else d == Err(r.error)
    {
      ghost var s := istream.buffer;
      var data := [];
      for i := 0 to length
        modifies istream
        invariant i <= |s| && data == s[..i] && istream.buffer == s[i..]
      {
        var b := istream.Read(1);
        if |b| == 0 { return Err(IndexError); }
        data := data + [b[0]];
      }
      value := data;
      paddingLength := 8 - length % 8;
      if paddingLength == 8 {
        paddingLength := 0;
      }
      r := ReadPadding(istream, paddingLength);
    }

    method Read(istream: BytearrayStream) returns (r: Result<()>)
      modifies this, istream
      ensures tag == old(tag)
      ensures var d := Decode(tag, ByteStringK, old(istream.buffer));
        if r.Ok? then Valid() && d == Ok((View(), istream.buffer)) else d == Err(r.error)
      ensures var s := old(istream.buffer);
        && (r.Ok? <==> Heads(tag, 8, s) && PaddingEnd(s) <= |s| && AllZero(s[ValueEnd(s)..PaddingEnd(s)]))
        && (r.Ok? ==> value == s[8..ValueEnd(s)] && istream.buffer == s[PaddingEnd(s)..])
    {
      hide DecodeHeader, UnpackU, Radix, Heads, LengthOf, ValueEnd, PaddingEnd, AllZero;
      ByteStringBytes(tag, istream.buffer);
      length :- ReadHeader(istream, tag, 8);
      r := ReadValue(istream);
    }

    method Write(ostream: BytearrayStream) returns (r: Result<()>)
      requires Valid()
      modifies ostream
      ensures r.Ok? <==> Writable(ByteStringK, View())
      ensures r.Ok? ==> ostream.buffer == old(ostream.buffer) + Encode(tag, ByteStringK, View())
      ensures r.Ok? ==>
        ostream.buffer == old(ostream.buffer) + (PackU(3, tag) + [8] + PackU(4, |value|) + value + Zeros(paddingLength))
    {
      hide Encode, Writable, Radix, PackU;
      PrimitiveWrite(tag, ByteStringK, View());
      var _ :- WriteHeader(ostream, tag, 8, length);
      ghost var before := ostream.buffer;
      for i := 0 to |value|
        modifies ostream
        invariant ostream.buffer == before + value[..i]
      {
        var _ := ostream.Write([value[i]]);
      }
      assert value[..|value|] == value;
      WriteZeros(ostream, paddingLength);
      r := Ok(());
    }
  }
}
