/** Reading back what was written: every layout is self-delimiting, except that a
    stale text breaks the structure that holds it. */
module TtlvRoundTrip {
  import opened Wrappers
  import opened Bytes
  import opened BitStrings
  import opened Enums
  import opened Ttlv

  // ---- headers and primitives

  lemma HeaderRoundTrip(tag: Tag, typ: byte, length: nat, rest: seq<byte>)
    requires IsTag(tag) && typ <= 10 && length < Radix(4)
    ensures DecodeHeader(tag, typ, Header(tag, typ, length) + rest) == Ok((length, rest))
  {
    var s := Header(tag, typ, length) + rest;
    assert Radix(3) == 0x1000000 by { assert Radix(2) == 0x10000; }
    PackUnpackU(3, tag);
    PackUnpackU(4, length);
    assert s[..3] == PackU(3, tag) && s[4..8] == PackU(4, length) && s[8..] == rest;
  }

  lemma TagOfHeader(tag: Tag, typ: byte, length: nat, rest: seq<byte>, t: Tag)
    ensures IsTagNext(t, Header(tag, typ, length) + rest) <==> t == tag
  {
    var s := Header(tag, typ, length) + rest;
    assert Radix(3) == 0x1000000 by { assert Radix(2) == 0x10000; }
    PackUnpackU(3, tag);
    assert s[..3] == PackU(3, tag);
  }

  lemma TagOfEncoding(tag: Tag, kind: Kind, v: Value, rest: seq<byte>, t: Tag)
    ensures IsTagNext(t, Encode(tag, kind, v) + rest) <==> t == tag
  {
    var length, body := LengthField(kind, v), Body(kind, v) + Zeros(Padding(kind, v));
    assert Encode(tag, kind, v) + rest == Header(tag, TypeCode(kind), length) + (body + rest);
    TagOfHeader(tag, TypeCode(kind), length, body + rest, t);
  }

  lemma {:induction false} ZerosUnpack(n: nat)
    ensures UnpackU(Zeros(n)) == 0
  {
    if n > 0 {
      assert Zeros(n)[..n - 1] == Zeros(n - 1);
      ZerosUnpack(n - 1);
    }
  }

  lemma {:induction false} ReadZerosSkips(n: nat, rest: seq<byte>)
    ensures ReadZeros(n, Zeros(n) + rest) == Ok(rest)
  {
    if n == 0 {
      assert Zeros(0) + rest == rest;
    } else {
      assert (Zeros(n) + rest)[1..] == Zeros(n - 1) + rest;
      ReadZerosSkips(n - 1, rest);
    }
  }

  lemma {:induction false} ReadAsciiBack(text: string, rest: seq<byte>)
    requires IsAscii(text)
    ensures ReadAscii(|text|, AsciiBytes(text) + rest) == Ok((text, rest))
  {
    var s := AsciiBytes(text) + rest;
    if text == "" {
      assert s == rest;
    } else {
      assert s[1..] == AsciiBytes(text[1..]) + rest;
      ReadAsciiBack(text[1..], rest);
      assert [text[0]] + text[1..] == text;
    }
  }

  /** What is left in the stream after this value has been read back. */
  function Left(v: Value, rest: seq<byte>): seq<byte> {
    if v.Text? && v.stale then Zeros(8) + rest else rest
  }

  lemma PaddedRoundTrip(body: seq<byte>, rest: seq<byte>)
    requires |body| == 4
    ensures var s := body + Zeros(4) + rest;
      |s| >= 8 && s[..4] == body && UnpackU(s[4..8]) == 0 && s[8..] == rest
  {
    var s := body + Zeros(4) + rest;
    assert s[4..8] == Zeros(4);
    ZerosUnpack(4);
  }

  lemma PrimitiveRoundTrip(kind: Kind, v: Value, rest: seq<byte>)
    requires WritablePrimitive(kind, v) && |Body(kind, v)| < Radix(4)
    ensures DecodePrimitive(kind, LengthField(kind, v), Body(kind, v) + Zeros(Padding(kind, v)) + rest)
         == Ok((Aged(v), Left(v, rest)))
  {
    var body := Body(kind, v);
    var s := body + Zeros(Padding(kind, v)) + rest;
    assert Radix(4) == 0x1_0000_0000 by { assert Radix(2) == 0x10000; }
    match kind {
      case IntegerK =>
        PaddedRoundTrip(body, rest);
        PackUnpackS(4, v.n);
      case EnumerationK(_) =>
        PaddedRoundTrip(body, rest);
        PackUnpackU(4, v.n);
      case IntervalK =>
        PaddedRoundTrip(body, rest);
        PackUnpackU(4, v.n);
      case LongIntegerK =>
        assert s[..8] == body && s[8..] == rest;
        PackUnpackS(8, v.n);
      case DateTimeK =>
        assert s[..8] == body && s[8..] == rest;
        PackUnpackS(8, v.n);
      case BigIntegerK =>
        BigSizeHolds(v.n);
        assert s[..|body|] == body && s[|body|..] == rest;
        PackUnpackS(BigSize(v.n), v.n);
      case BooleanK =>
        assert s[..8] == body && s[8..] == rest;
        PackUnpackU(8, if v.b then 1 else 0);
      case TextStringK =>
        TextBack(v, rest);
      case ByteStringK =>
        assert s[..|body|] == body;
        assert s[|body|..] == Zeros(Padding(kind, v)) + rest;
        ReadZerosSkips(Padding(kind, v), rest);
    }
  }

  lemma TextBack(v: Value, rest: seq<byte>)
    requires v.Text? && WritablePrimitive(TextStringK, v)
    ensures DecodePrimitive(TextStringK, |v.chars|, Body(TextStringK, v) + Zeros(Padding(TextStringK, v)) + rest)
         == Ok((Aged(v), Left(v, rest)))
  {
    var pad, body, zeros := FreshPadding(|v.chars|), AsciiBytes(v.chars), Zeros(Padding(TextStringK, v));
    assert body + zeros + rest == body + (zeros + rest);
    ReadAsciiBack(v.chars, zeros + rest);
    ReadZerosSkips(pad, Left(v, rest));
    assert Zeros(pad) + Left(v, rest) == zeros + rest;
  }

  // ---- streams that no field accepts

  /** Three zero bytes are next: no field has this tag. */
  predicate Stuck(s: seq<byte>) {
    |s| >= 3 && UnpackU(s[..3]) == 0
  }

  lemma ZerosAreStuck(rest: seq<byte>)
    ensures Stuck(Zeros(8) + rest)
  {
    assert (Zeros(8) + rest)[..3] == Zeros(3);
    ZerosUnpack(3);
  }

  lemma StuckSlot(f: Field, s: seq<byte>)
    requires Stuck(s) && IsTag(f.tag)
    ensures Decode(f.tag, f.kind, s).Err?
    ensures DecodeSlot(f, s).Ok? ==> DecodeSlot(f, s).value.1 == s
  {
  }

  lemma {:induction false} StuckFields(fs: seq<Field>, s: seq<byte>)
    requires Stuck(s) && forall i :: 0 <= i < |fs| ==> IsTag(fs[i].tag)
    ensures DecodeFields(fs, s).Ok? ==> DecodeFields(fs, s).value.1 == s
  {
    if fs != [] {
      StuckSlot(fs[0], s);
      StuckFields(fs[1..], s);
    }
  }

  // ---- values

  /** The outcome of reading this value back from a stream that goes on with rest. */
  ghost predicate ReadsBack(r: Result<(Value, seq<byte>)>, v: Value, rest: seq<byte>) {
    if !v.Struct? then r == Ok((Aged(v), Left(v, rest)))
    else if HasStale(v) then r.Err?
    else r == Ok((Aged(v), rest))
  }

  /** Self-delimiting encoding, for every layout, every writable state and every
      continuation: the read returns the state and leaves exactly the rest, unless
      a structure holds a stale text, and then it fails. */
  lemma {:induction false} RoundTrip(tag: Tag, kind: Kind, v: Value, rest: seq<byte>)
    requires WellFormed(kind) && IsTag(tag) && Writable(kind, v)
    ensures ReadsBack(Decode(tag, kind, Encode(tag, kind, v) + rest), v, rest)
    decreases v
  {
    hide PrimitiveBody, DecodePrimitive, DecodeHeader;
    var body, pad := Body(kind, v), Zeros(Padding(kind, v));
    var s := body + pad + rest;
    var length := LengthField(kind, v);
    assert Encode(tag, kind, v) + rest == Header(tag, TypeCode(kind), length) + s;
    HeaderRoundTrip(tag, TypeCode(kind), length, s);
    assert Decode(tag, kind, Encode(tag, kind, v) + rest) == DecodeValue(kind, length, s);
    match kind {
      case StructK(fs) =>
        assert s[..|body|] == body && s[|body|..] == rest;
        FieldsRoundTrip(fs, v.slots, []);
        assert body + [] == body;
      case AttributeK(kinds) =>
        assert s[..|body|] == body && s[|body|..] == rest;
        AttributeRoundTrip(kinds, v.slots);
      case _ =>
        PrimitiveRoundTrip(kind, v, rest);
    }
  }

  /** How a field list goes on after one value: nothing fits behind a stale one. */
  lemma AfterValue(r: Result<(Value, seq<byte>)>, v: Value, rest: seq<byte>)
    requires ReadsBack(r, v, rest)
    ensures if HasStale(v) then r.Ok? ==> Stuck(r.value.1) else r == Ok((Aged(v), rest))
  {
    ZerosAreStuck(rest);
  }

  ghost predicate SlotsStale(slots: seq<Slot>) {
    exists i :: 0 <= i < |slots| && SlotStale(slots[i])
  }

  function AgedSlots(slots: seq<Slot>): seq<Slot> {
    seq(|slots|, i requires 0 <= i < |slots| => AgedSlot(slots[i]))
  }

  lemma SlotsSplit(slots: seq<Slot>)
    requires slots != []
    ensures AgedSlots(slots) == [AgedSlot(slots[0])] + AgedSlots(slots[1..])
    ensures SlotsStale(slots) <==> SlotStale(slots[0]) || SlotsStale(slots[1..])
  {
    var tail := slots[1..];
    assert forall i :: 0 < i < |slots| ==> slots[i] == tail[i - 1];
    if SlotStale(slots[0]) || SlotsStale(tail) {
      if !SlotStale(slots[0]) {
        var i :| 0 <= i < |tail| && SlotStale(tail[i]);
        assert SlotStale(slots[i + 1]);
      }
    }
    if SlotsStale(slots) && !SlotStale(slots[0]) {
      var i :| 0 <= i < |slots| && SlotStale(slots[i]);
      assert SlotStale(tail[i - 1]);
    }
  }

  /** A tag that none of the fields carries is not next in their encoding. */
  lemma {:induction false} ForeignTag(fs: seq<Field>, slots: seq<Slot>, rest: seq<byte>, t: Tag)
    requires !IsTagNext(t, rest)
    requires forall i :: 0 <= i < |fs| ==> fs[i].tag != t
    ensures !IsTagNext(t, EncodeFields(fs, slots) + rest)
  {
    if fs == [] || slots == [] {
      assert EncodeFields(fs, slots) + rest == rest;
    } else {
      var tail := EncodeFields(fs[1..], slots[1..]) + rest;
      assert EncodeFields(fs, slots) + rest == EncodeSlot(fs[0], slots[0]) + tail;
      ForeignTag(fs[1..], slots[1..], rest, t);
      ForeignSlot(fs[0], slots[0], tail, t);
    }
  }

  lemma ForeignSlot(f: Field, slot: Slot, rest: seq<byte>, t: Tag)
    requires !IsTagNext(t, rest) && f.tag != t
    ensures !IsTagNext(t, EncodeSlot(f, slot) + rest)
  {
    match slot
    case Absent =>
      assert [] + rest == rest;
    case One(v) =>
      TagOfEncoding(f.tag, f.kind, v, rest, t);
    case Many(vs) =>
      if vs == [] {
        assert [] + rest == rest;
      } else {
        var tail := EncodeMany(f, vs[1..]) + rest;
        assert EncodeMany(f, vs) + rest == Encode(f.tag, f.kind, vs[0]) + tail;
        TagOfEncoding(f.tag, f.kind, vs[0], tail, t);
      }
  }

  /** A run of fields reads back up to whatever follows it, provided no field of
      the run could also take what follows. */
  lemma {:induction false} FieldsRoundTrip(fs: seq<Field>, slots: seq<Slot>, rest: seq<byte>)
    requires DistinctTags(fs) && WritableFields(fs, slots)
    requires forall i :: 0 <= i < |fs| ==> IsTag(fs[i].tag) && WellFormed(fs[i].kind)
    requires forall i :: 0 <= i < |fs| ==> !IsTagNext(fs[i].tag, rest)
    ensures var r := DecodeFields(fs, EncodeFields(fs, slots) + rest);
      if SlotsStale(slots) then r.Ok? ==> Stuck(r.value.1) else r == Ok((AgedSlots(slots), rest))
    decreases slots, 0
  {
    hide PrimitiveBody, WritablePrimitive, DecodePrimitive, DecodeHeader, Padding, UnpackU, Encode, Decode;
    var s := EncodeFields(fs, slots) + rest;
    if fs == [] {
      assert s == rest && AgedSlots(slots) == [];
    } else {
      var f, slot := fs[0], slots[0];
      var tail := EncodeFields(fs[1..], slots[1..]) + rest;
      assert s == EncodeSlot(f, slot) + tail;
      ForeignTag(fs[1..], slots[1..], rest, f.tag);
      SlotRoundTrip(f, slot, tail);
      SlotsSplit(slots);
      var r := DecodeSlot(f, s);
      if SlotStale(slot) {
        if r.Ok? { StuckFields(fs[1..], r.value.1); }
      } else {
        FieldsRoundTrip(fs[1..], slots[1..], rest);
      }
    }
  }

  lemma {:induction false} SlotRoundTrip(f: Field, slot: Slot, rest: seq<byte>)
    requires IsTag(f.tag) && WellFormed(f.kind) && WritableSlot(f, slot)
    requires !IsTagNext(f.tag, rest)
    ensures var r := DecodeSlot(f, EncodeSlot(f, slot) + rest);
      if SlotStale(slot) then r.Ok? ==> Stuck(r.value.1) else r == Ok((AgedSlot(slot), rest))
    decreases slot
  {
    hide PrimitiveBody, WritablePrimitive, DecodePrimitive, DecodeHeader, Padding;
    match slot
    case Absent =>
      assert [] + rest == rest;
    case One(v) =>
      TagOfEncoding(f.tag, f.kind, v, rest, f.tag);
      RoundTrip(f.tag, f.kind, v, rest);
      AfterValue(Decode(f.tag, f.kind, EncodeSlot(f, slot) + rest), v, rest);
    case Many(vs) =>
      ManyRoundTrip(f, vs, rest);
  }

  function AgedValues(vs: seq<Value>): seq<Value> {
    seq(|vs|, i requires 0 <= i < |vs| => Aged(vs[i]))
  }

  ghost predicate ValuesStale(vs: seq<Value>) {
    exists i :: 0 <= i < |vs| && HasStale(vs[i])
  }

  lemma ValuesSplit(vs: seq<Value>)
    requires vs != []
    ensures AgedValues(vs) == [Aged(vs[0])] + AgedValues(vs[1..])
    ensures ValuesStale(vs) <==> HasStale(vs[0]) || ValuesStale(vs[1..])
  {
    var tail := vs[1..];
    if ValuesStale(vs) && !HasStale(vs[0]) {
      var i :| 0 <= i < |vs| && HasStale(vs[i]);
      assert HasStale(tail[i - 1]);
    }
    if ValuesStale(tail) {
      var i :| 0 <= i < |tail| && HasStale(tail[i]);
      assert HasStale(vs[i + 1]);
    }
  }

  lemma {:induction false} ManyRoundTrip(f: Field, vs: seq<Value>, rest: seq<byte>)
    requires IsTag(f.tag) && WellFormed(f.kind)
    requires forall i :: 0 <= i < |vs| ==> Writable(f.kind, vs[i])
    requires !IsTagNext(f.tag, rest)
    ensures var r := DecodeMany(f, EncodeMany(f, vs) + rest);
      if ValuesStale(vs) then r.Ok? ==> Stuck(r.value.1) else r == Ok((AgedValues(vs), rest))
    decreases vs
  {
    hide PrimitiveBody, WritablePrimitive, DecodePrimitive, DecodeHeader, Padding;
    var s := EncodeMany(f, vs) + rest;
    if vs == [] {
      assert s == rest && AgedValues(vs) == [];
    } else {
      var tail := EncodeMany(f, vs[1..]) + rest;
      assert s == Encode(f.tag, f.kind, vs[0]) + tail;
      TagOfEncoding(f.tag, f.kind, vs[0], tail, f.tag);
      RoundTrip(f.tag, f.kind, vs[0], tail);
      AfterValue(Decode(f.tag, f.kind, s), vs[0], tail);
      ValuesSplit(vs);
      if !HasStale(vs[0]) {
        ManyRoundTrip(f, vs[1..], rest);
      }
    }
  }

  /** The name is written first, so the read knows the layout of the value. */
  lemma {:induction false} AttributeRoundTrip(kinds: map<string, Kind>, slots: seq<Slot>)
    requires WellFormed(AttributeK(kinds)) && Writable(AttributeK(kinds), Struct(slots))
    ensures var r := DecodeAttribute(kinds, Body(AttributeK(kinds), Struct(slots)));
      if SlotsStale(slots) then r.Ok? ==> Stuck(r.value.1) else r == Ok((AgedSlots(slots), []))
    decreases slots, 1
  {
    hide PrimitiveBody, DecodePrimitive, DecodeHeader;
    var fs := AttributeFields(NamedKind(kinds, slots).value);
    AttributeFieldsWellFormed(fs[2].kind);
    NameRoundTrip(fs, slots);
    FieldsRoundTrip(fs, slots, []);
    assert EncodeFields(fs, slots) + [] == EncodeFields(fs, slots);
  }

  lemma AttributeFieldsWellFormed(kind: Kind)
    requires WellFormed(kind)
    ensures var fs := AttributeFields(kind);
      DistinctTags(fs) && forall i :: 0 <= i < |fs| ==> IsTag(fs[i].tag) && WellFormed(fs[i].kind)
  {
  }

  /** The name that decides the layout of the value can be read back before the
      rest of the attribute. */
  lemma {:induction false} NameRoundTrip(fs: seq<Field>, slots: seq<Slot>)
    requires fs != [] && fs[0] == Field(ATTRIBUTE_NAME, TextStringK, Required)
    requires WritableFields(fs, slots)
    ensures slots[0].One? && slots[0].v.Text?
    ensures var r := Decode(ATTRIBUTE_NAME, TextStringK, EncodeFields(fs, slots));
      r.Ok? && r.value.0 == Aged(slots[0].v)
    decreases slots, 0
  {
    assert WritableSlot(fs[0], slots[0]);
    NameSlot(slots[0], EncodeFields(fs[1..], slots[1..]));
  }

  lemma {:induction false} NameSlot(slot: Slot, rest: seq<byte>)
    requires WritableSlot(Field(ATTRIBUTE_NAME, TextStringK, Required), slot)
    ensures slot.One? && slot.v.Text?
    ensures Decode(ATTRIBUTE_NAME, TextStringK, EncodeSlot(Field(ATTRIBUTE_NAME, TextStringK, Required), slot) + rest)
         == Ok((Aged(slot.v), Left(slot.v, rest)))
    decreases slot
  {
    assert Writable(TextStringK, slot.v) && WritablePrimitive(TextStringK, slot.v);
    RoundTrip(ATTRIBUTE_NAME, TextStringK, slot.v, rest);
  }
}
