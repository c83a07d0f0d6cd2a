/** What a successful read says about the bytes it consumed. */
module TtlvCanonical {
  import opened Wrappers
  import opened Bytes
  import opened BitStrings
  import opened Enums
  import opened Ttlv
  import opened TtlvRoundTrip

  // ---- every encoding is a whole number of 8-byte words

  lemma {:induction false} Aligned(tag: Tag, kind: Kind, v: Value)
    requires Writable(kind, v)
    ensures |Encode(tag, kind, v)| % 8 == 0
    decreases v
  {
    hide PrimitiveBody, PackU, Radix;
    assert |Encode(tag, kind, v)| == 8 + |Body(kind, v)| + Padding(kind, v);
    hide Encode;
    if kind.StructK? && v.Struct? {
      AlignedFields(kind.fields, v.slots);
    } else if kind.AttributeK? && v.Struct? {
      AlignedFields(AttributeFields(NamedKind(kind.kinds, v.slots).value), v.slots);
    } else {
      AlignedPrimitive(kind, v);
    }
  }

  lemma AlignedPrimitive(kind: Kind, v: Value)
    requires WritablePrimitive(kind, v)
    ensures (|PrimitiveBody(kind, v)| + Padding(kind, v)) % 8 == 0
  {
  }

  lemma {:induction false} AlignedFields(fs: seq<Field>, slots: seq<Slot>)
    requires WritableFields(fs, slots)
    ensures |EncodeFields(fs, slots)| % 8 == 0
    decreases slots
  {
    hide PrimitiveBody, WritablePrimitive, Padding;
    if fs != [] {
      AlignedSlot(fs[0], slots[0]);
      AlignedFields(fs[1..], slots[1..]);
    }
  }

  lemma {:induction false} AlignedSlot(f: Field, slot: Slot)
    requires WritableSlot(f, slot)
    ensures |EncodeSlot(f, slot)| % 8 == 0
    decreases slot
  {
    hide PrimitiveBody, WritablePrimitive, Padding;
    match slot
    case Absent =>
    case One(v) => Aligned(f.tag, f.kind, v);
    case Many(vs) => AlignedMany(f, vs);
  }

  lemma {:induction false} AlignedMany(f: Field, vs: seq<Value>)
    requires forall i :: 0 <= i < |vs| ==> Writable(f.kind, vs[i])
    ensures |EncodeMany(f, vs)| % 8 == 0
    decreases vs
  {
    hide PrimitiveBody, WritablePrimitive, Padding;
    if vs != [] {
      Aligned(f.tag, f.kind, vs[0]);
      AlignedMany(f, vs[1..]);
    }
  }

  // ---- exact encodings

  /** The lengths that the read did not check and a write would not repeat are those
      a write would choose: no structure length points past the bytes that are
      there, and no BigInteger is longer than it needs to be. */
  ghost predicate Exact(tag: Tag, kind: Kind, s: seq<byte>)
    requires Decode(tag, kind, s).Ok?
    decreases |s|, 0, 0
  {
    var (length, rest) := DecodeHeader(tag, TypeCode(kind), s).value;
    ExactValue(kind, length, rest)
  }

  ghost predicate ExactValue(kind: Kind, length: nat, s: seq<byte>)
    requires DecodeValue(kind, length, s).Ok?
    decreases |s|, 3, 0
  {
    match kind
    case StructK(fs) => length <= |s| && ExactFields(fs, s[..length])
    case AttributeK(kinds) => length <= |s| && ExactAttribute(kinds, s[..length])
    case BigIntegerK => length == BigSize(DecodeValue(kind, length, s).value.0.n)
    case _ => true
  }

  ghost predicate ExactFields(fs: seq<Field>, s: seq<byte>)
    requires DecodeFields(fs, s).Ok?
    decreases |s|, 1, |fs|
  {
    fs == [] || (ExactSlot(fs[0], s) && ExactFields(fs[1..], DecodeSlot(fs[0], s).value.1))
  }

  ghost predicate ExactSlot(f: Field, s: seq<byte>)
    requires DecodeSlot(f, s).Ok?
    decreases |s|, 1, 0
  {
    if f.mode.Repeated? then ExactMany(f, s)
    else (f.mode.Required? || IsTagNext(f.tag, s)) ==> Exact(f.tag, f.kind, s)
  }

  ghost predicate ExactMany(f: Field, s: seq<byte>)
    requires DecodeMany(f, s).Ok?
    decreases |s|, 0, 1
  {
    IsTagNext(f.tag, s) ==>
      Exact(f.tag, f.kind, s) && ExactMany(f, Decode(f.tag, f.kind, s).value.1)
  }

  ghost predicate ExactAttribute(kinds: map<string, Kind>, s: seq<byte>)
    requires DecodeAttribute(kinds, s).Ok?
    decreases |s|, 2, 0
  {
    var (name, _) := Decode(ATTRIBUTE_NAME, TextStringK, s).value;
    ExactFields(AttributeFields(KindFor(kinds, name.chars).value), s)
  }

  lemma HeaderCanonical(tag: Tag, typ: byte, s: seq<byte>)
    requires DecodeHeader(tag, typ, s).Ok?
    ensures var (length, rest) := DecodeHeader(tag, typ, s).value;
      s == Header(tag, typ, length) + rest
  {
    UnpackPackU(s[..3]);
    UnpackPackU(s[4..8]);
  }

  lemma {:induction false} ReadZerosCanonical(n: nat, s: seq<byte>)
    requires ReadZeros(n, s).Ok?
    ensures s == Zeros(n) + ReadZeros(n, s).value
  {
    if n > 0 {
      ReadZerosCanonical(n - 1, s[1..]);
    }
  }

  lemma {:induction false} ReadAsciiCanonical(n: nat, s: seq<byte>)
    requires ReadAscii(n, s).Ok?
    ensures var (text, rest) := ReadAscii(n, s).value;
      IsAscii(text) && s == AsciiBytes(text) + rest
  {
    if n > 0 {
      ReadAsciiCanonical(n - 1, s[1..]);
    }
  }

  lemma {:induction false} ZeroValue(s: seq<byte>)
    requires UnpackU(s) == 0
    ensures s == Zeros(|s|)
  {
    if s != [] {
      ZeroValue(s[..|s| - 1]);
    }
  }

  /** s is the body and padding of v, of this length, and then the rest. */
  ghost predicate Spells(kind: Kind, length: nat, s: seq<byte>, v: Value, rest: seq<byte>) {
    && WritablePrimitive(kind, v)
    && length == (if kind.BooleanK? && v.Flag? then v.length else |PrimitiveBody(kind, v)|)
    && s == PrimitiveBody(kind, v) + Zeros(Padding(kind, v)) + rest
  }

  lemma PrimitiveCanonical(kind: Kind, length: nat, s: seq<byte>)
    requires DecodePrimitive(kind, length, s).Ok? && length < Radix(4)
    requires kind.BigIntegerK? ==> length == BigSize(UnpackS(s[..length]))
    ensures var (v, rest) := DecodePrimitive(kind, length, s).value;
      Spells(kind, length, s, Unstale(v), rest) && !v.Struct?
  {
    match kind {
      case TextStringK => TextCanonical(length, s);
      case ByteStringK =>
        ReadZerosCanonical(FreshPadding(length), s[length..]);
        assert s == s[..length] + s[length..];
      case _ => NumberCanonical(kind, length, s);
    }
  }

  lemma TextCanonical(length: nat, s: seq<byte>)
    requires DecodePrimitive(TextStringK, length, s).Ok?
    ensures var (v, rest) := DecodePrimitive(TextStringK, length, s).value;
      Spells(TextStringK, length, s, Unstale(v), rest) && v.Text?
  {
    var (text, padded) := ReadAscii(length, s).value;
    ReadAsciiCanonical(length, s);
    ReadZerosCanonical(FreshPadding(length), padded);
  }

  lemma NumberCanonical(kind: Kind, length: nat, s: seq<byte>)
    requires !kind.TextStringK? && !kind.ByteStringK?
    requires DecodePrimitive(kind, length, s).Ok? && length < Radix(4)
    requires kind.BigIntegerK? ==> length == BigSize(UnpackS(s[..length]))
    ensures var (v, rest) := DecodePrimitive(kind, length, s).value;
      Spells(kind, length, s, v, rest) && (v.Num? || v.Flag?)
  {
    hide UnpackU, PackU;
    if kind.IntegerK? || kind.EnumerationK? || kind.IntervalK? {
      FourBytes(s);
      UnpackPackS(s[..4]);
      UnpackPackU(s[..4]);
      UnpackUBound(s[..4]);
    } else {
      var n := if kind.BigIntegerK? then length else 8;
      UnpackPackS(s[..n]);
      UnpackPackU(s[..n]);
      assert s == s[..n] + Zeros(0) + s[n..];
    }
  }

  lemma FourBytes(s: seq<byte>)
    requires |s| >= 8 && UnpackU(s[4..8]) == 0
    ensures s == s[..4] + Zeros(4) + s[8..]
  {
    ZeroValue(s[4..8]);
  }

  /** Canonical decoding: the bytes an exact read consumed are the encoding of the
      decoded value without stale texts. */
  lemma {:induction false} Canonical(tag: Tag, kind: Kind, s: seq<byte>)
    requires Decode(tag, kind, s).Ok? && Exact(tag, kind, s)
    ensures var (v, rest) := Decode(tag, kind, s).value;
      && Writable(kind, Unstale(v))
      && s == Encode(tag, kind, Unstale(v)) + rest
    decreases |s|, 0, 0
  {
    hide PrimitiveBody, WritablePrimitive, DecodePrimitive, Padding, Body, Writable, PackU, Radix;
    HeaderCanonical(tag, TypeCode(kind), s);
    var (length, after) := DecodeHeader(tag, TypeCode(kind), s).value;
    ValueCanonical(kind, length, after);
    var (v, rest) := DecodeValue(kind, length, after).value;
    assert s == Header(tag, TypeCode(kind), length) + Body(kind, Unstale(v)) + Zeros(Padding(kind, Unstale(v))) + rest;
  }

  lemma StructState(kind: Kind, slots: seq<Slot>)
    requires kind.StructK? || kind.AttributeK?
    ensures Unstale(Struct(slots)) == Struct(UnstaleSlots(slots))
    ensures Padding(kind, Struct(UnstaleSlots(slots))) == 0
  {
  }

  lemma NameFirst(kinds: map<string, Kind>, s: seq<byte>)
    requires DecodeAttribute(kinds, s).Ok?
    ensures var slots := DecodeAttribute(kinds, s).value.0;
      var name := Decode(ATTRIBUTE_NAME, TextStringK, s).value.0;
      && slots[0] == One(name) && name.Text?
      && NamedKind(kinds, UnstaleSlots(slots)) == KindFor(kinds, name.chars)
  {
    var name := Decode(ATTRIBUTE_NAME, TextStringK, s).value.0;
    var fs := AttributeFields(KindFor(kinds, name.chars).value);
    assert DecodeSlot(fs[0], s).value.0 == One(name);
    var slots := DecodeAttribute(kinds, s).value.0;
    assert UnstaleSlots(slots)[0] == UnstaleSlot(slots[0]) == One(Unstale(name));
  }

  lemma {:induction false} ValueCanonical(kind: Kind, length: nat, s: seq<byte>)
    requires length < Radix(4)
    requires DecodeValue(kind, length, s).Ok? && ExactValue(kind, length, s)
    ensures var (v, rest) := DecodeValue(kind, length, s).value;
      && Writable(kind, Unstale(v))
      && LengthField(kind, Unstale(v)) == length
      && s == Body(kind, Unstale(v)) + Zeros(Padding(kind, Unstale(v))) + rest
    decreases |s|, 3, 0
  {
    hide PrimitiveBody, WritablePrimitive;
    match kind {
      case StructK(fs) =>
        var slots := DecodeFields(fs, s[..length]).value.0;
        FieldsCanonical(fs, s[..length]);
        StructState(kind, slots);
        assert s == s[..length] + Zeros(0) + s[length..];
      case AttributeK(kinds) =>
        var slots := DecodeAttribute(kinds, s[..length]).value.0;
        var name := Decode(ATTRIBUTE_NAME, TextStringK, s[..length]).value.0;
        FieldsCanonical(AttributeFields(KindFor(kinds, name.chars).value), s[..length]);
        NameFirst(kinds, s[..length]);
        StructState(kind, slots);
        assert s == s[..length] + Zeros(0) + s[length..];
      case _ =>
        PrimitiveCanonical(kind, length, s);
    }
  }

  function UnstaleSlots(slots: seq<Slot>): seq<Slot> {
    seq(|slots|, i requires 0 <= i < |slots| => UnstaleSlot(slots[i]))
  }

  lemma ConsSlots(slot: Slot, slots: seq<Slot>)
    ensures UnstaleSlots([slot] + slots) == [UnstaleSlot(slot)] + UnstaleSlots(slots)
  {
  }

  lemma {:induction false} FieldsCanonical(fs: seq<Field>, s: seq<byte>)
    requires DecodeFields(fs, s).Ok? && ExactFields(fs, s)
    ensures var (slots, rest) := DecodeFields(fs, s).value;
      && WritableFields(fs, UnstaleSlots(slots))
      && s == EncodeFields(fs, UnstaleSlots(slots)) + rest
    decreases |s|, 1, |fs|
  {
    hide PrimitiveBody, WritablePrimitive, DecodePrimitive, Padding;
    if fs != [] {
      var (slot, middle) := DecodeSlot(fs[0], s).value;
      var (slots, rest) := DecodeFields(fs[1..], middle).value;
      SlotCanonical(fs[0], s);
      FieldsCanonical(fs[1..], middle);
      assert DecodeFields(fs, s) == Ok(([slot] + slots, rest));
      ConsSlots(slot, slots);
      assert fs == [fs[0]] + fs[1..];
    }
  }

  lemma {:induction false} SlotCanonical(f: Field, s: seq<byte>)
    requires DecodeSlot(f, s).Ok? && ExactSlot(f, s)
    ensures var (slot, rest) := DecodeSlot(f, s).value;
      && WritableSlot(f, UnstaleSlot(slot))
      && s == EncodeSlot(f, UnstaleSlot(slot)) + rest
    decreases |s|, 1, 0
  {
    hide PrimitiveBody, WritablePrimitive, DecodePrimitive, Padding;
    if f.mode.Repeated? {
      ManyCanonical(f, s);
    } else if f.mode.Required? || IsTagNext(f.tag, s) {
      Canonical(f.tag, f.kind, s);
    }
  }

  function UnstaleValues(vs: seq<Value>): seq<Value> {
    seq(|vs|, i requires 0 <= i < |vs| => Unstale(vs[i]))
  }

  lemma ConsValues(v: Value, vs: seq<Value>)
    ensures UnstaleValues([v] + vs) == [Unstale(v)] + UnstaleValues(vs)
  {
  }

  lemma {:induction false} ManyCanonical(f: Field, s: seq<byte>)
    requires DecodeMany(f, s).Ok? && ExactMany(f, s)
    ensures var (vs, rest) := DecodeMany(f, s).value;
      && (forall i :: 0 <= i < |vs| ==> Writable(f.kind, Unstale(vs[i])))
      && s == EncodeMany(f, UnstaleValues(vs)) + rest
    decreases |s|, 0, 1
  {
    hide PrimitiveBody, WritablePrimitive, DecodePrimitive, Padding;
    if IsTagNext(f.tag, s) {
      var (v, middle) := Decode(f.tag, f.kind, s).value;
      Canonical(f.tag, f.kind, s);
      ManyCanonical(f, middle);
      var (vs, rest) := DecodeMany(f, middle).value;
      ManyCons(f, v, vs, s, middle, rest);
    }
  }

  lemma ManyCons(f: Field, v: Value, vs: seq<Value>, s: seq<byte>, middle: seq<byte>, rest: seq<byte>)
    requires s == Encode(f.tag, f.kind, Unstale(v)) + middle
    requires middle == EncodeMany(f, UnstaleValues(vs)) + rest
    ensures s == EncodeMany(f, UnstaleValues([v] + vs)) + rest
  {
    ConsValues(v, vs);
    assert UnstaleValues([v] + vs)[1..] == UnstaleValues(vs);
  }

  // ---- the state that a read leaves

  /** Every text that was read is stale exactly if its length is a multiple of 8. */
  lemma {:induction false} DecodedIsAged(tag: Tag, kind: Kind, s: seq<byte>)
    requires Decode(tag, kind, s).Ok?
    ensures Aged(Decode(tag, kind, s).value.0) == Decode(tag, kind, s).value.0
    decreases |s|, 0, 0
  {
    hide DecodePrimitive;
    var (length, after) := DecodeHeader(tag, TypeCode(kind), s).value;
    DecodedValueIsAged(kind, length, after);
  }

  lemma {:induction false} DecodedValueIsAged(kind: Kind, length: nat, s: seq<byte>)
    requires DecodeValue(kind, length, s).Ok?
    ensures Aged(DecodeValue(kind, length, s).value.0) == DecodeValue(kind, length, s).value.0
    decreases |s|, 3, 0
  {
    var n := Clamp(length, s);
    match kind {
      case StructK(fs) =>
        DecodedFieldsAreAged(fs, s[..n]);
        assert Aged(Struct(DecodeFields(fs, s[..n]).value.0)) == Struct(AgedSlots(DecodeFields(fs, s[..n]).value.0));
      case AttributeK(kinds) =>
        var name := Decode(ATTRIBUTE_NAME, TextStringK, s[..n]).value.0;
        DecodedFieldsAreAged(AttributeFields(KindFor(kinds, name.chars).value), s[..n]);
        var slots := DecodeAttribute(kinds, s[..n]).value.0;
        assert Aged(Struct(slots)) == Struct(AgedSlots(slots));
      case _ =>
    }
  }

  lemma {:induction false} DecodedFieldsAreAged(fs: seq<Field>, s: seq<byte>)
    requires DecodeFields(fs, s).Ok?
    ensures AgedSlots(DecodeFields(fs, s).value.0) == DecodeFields(fs, s).value.0
    decreases |s|, 1, |fs|
  {
    hide DecodePrimitive;
    if fs != [] {
      var (slot, middle) := DecodeSlot(fs[0], s).value;
      DecodedSlotIsAged(fs[0], s);
      DecodedFieldsAreAged(fs[1..], middle);
      SlotsSplit(DecodeFields(fs, s).value.0);
    }
  }

  lemma {:induction false} DecodedSlotIsAged(f: Field, s: seq<byte>)
    requires DecodeSlot(f, s).Ok?
    ensures AgedSlot(DecodeSlot(f, s).value.0) == DecodeSlot(f, s).value.0
    decreases |s|, 1, 0
  {
    hide DecodePrimitive;
    if f.mode.Repeated? {
      DecodedManyAreAged(f, s);
    } else if f.mode.Required? || IsTagNext(f.tag, s) {
      DecodedIsAged(f.tag, f.kind, s);
    }
  }

  lemma {:induction false} DecodedManyAreAged(f: Field, s: seq<byte>)
    requires DecodeMany(f, s).Ok?
    ensures AgedValues(DecodeMany(f, s).value.0) == DecodeMany(f, s).value.0
    decreases |s|, 0, 1
  {
    hide DecodePrimitive;
    if IsTagNext(f.tag, s) {
      DecodedIsAged(f.tag, f.kind, s);
      DecodedManyAreAged(f, Decode(f.tag, f.kind, s).value.1);
      ValuesSplit(DecodeMany(f, s).value.0);
    }
  }
}
