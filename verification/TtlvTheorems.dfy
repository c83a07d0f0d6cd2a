/** The main theorems about the wire format. */
module TtlvTheorems {
  import opened Wrappers
  import opened Bytes
  import opened BitStrings
  import opened Enums
  import opened Ttlv
  import opened TtlvRoundTrip
  import opened TtlvCanonical

  // ---- states

  /** Some text of the value has a length that is a multiple of 8. */
  ghost predicate HasWordText(v: Value)
    decreases v
  {
    match v
    case Text(s, _) => |s| % 8 == 0
    case Struct(slots) => exists i :: 0 <= i < |slots| && SlotWordText(slots[i])
    case _ => false
  }

  ghost predicate SlotWordText(slot: Slot)
    decreases slot
  {
    match slot
    case Absent => false
    case One(v) => HasWordText(v)
    case Many(vs) => exists i :: 0 <= i < |vs| && HasWordText(vs[i])
  }

  /** How the states of one value relate: a new one has no stale text, a read makes
      exactly the texts of whole words stale, and otherwise changes nothing. */
  ghost predicate Related(v: Value) {
    && !HasStale(Fresh(v)) && !HasStale(Unstale(v))
    && (HasStale(Aged(v)) <==> HasWordText(v))
    && (!HasWordText(v) ==> Aged(v) == Unstale(v))
    && Unstale(Aged(Fresh(v))) == Fresh(v)
  }

  ghost predicate SlotRelated(slot: Slot) {
    && !SlotStale(FreshSlot(slot)) && !SlotStale(UnstaleSlot(slot))
    && (SlotStale(AgedSlot(slot)) <==> SlotWordText(slot))
    && (!SlotWordText(slot) ==> AgedSlot(slot) == UnstaleSlot(slot))
    && UnstaleSlot(AgedSlot(FreshSlot(slot))) == FreshSlot(slot)
  }

  lemma {:induction false} StatesOf(v: Value)
    ensures Related(v)
    decreases v
  {
    if v.Struct? {
      forall i | 0 <= i < |v.slots| ensures SlotRelated(v.slots[i]) {
        StatesOfSlot(v.slots[i]);
      }
      StatesOfStruct(v.slots);
    }
  }

  lemma StatesOfStruct(slots: seq<Slot>)
    requires forall i :: 0 <= i < |slots| ==> SlotRelated(slots[i])
    ensures Related(Struct(slots))
  {
    hide SlotWordText, SlotStale, AgedSlot, FreshSlot, UnstaleSlot;
    var v := Struct(slots);
    var aged, asNew := Aged(v).slots, Fresh(v).slots;
    assert forall i :: 0 <= i < |slots| ==> aged[i] == AgedSlot(slots[i]) && SlotRelated(slots[i]);
    assert forall i :: 0 <= i < |slots| ==> asNew[i] == FreshSlot(slots[i]);
    assert HasWordText(v) ==> HasStale(Aged(v)) by {
      if i :| 0 <= i < |slots| && SlotWordText(slots[i]) {
        assert SlotStale(aged[i]);
      }
    }
    assert Unstale(Aged(Fresh(v))).slots == asNew;
    if !HasWordText(v) {
      assert aged == Unstale(v).slots;
    }
  }

  lemma {:induction false} StatesOfSlot(slot: Slot)
    ensures SlotRelated(slot)
    decreases slot
  {
    match slot
    case Absent =>
    case One(v) => StatesOf(v);
    case Many(vs) =>
      forall i | 0 <= i < |vs| ensures Related(vs[i]) {
        StatesOf(vs[i]);
      }
      StatesOfMany(vs);
  }

  lemma StatesOfMany(vs: seq<Value>)
    requires forall i :: 0 <= i < |vs| ==> Related(vs[i])
    ensures SlotRelated(Many(vs))
  {
    hide HasWordText, HasStale, Aged, Fresh, Unstale;
    var slot := Many(vs);
    var aged, asNew := AgedSlot(slot).vs, FreshSlot(slot).vs;
    assert forall i :: 0 <= i < |vs| ==> aged[i] == Aged(vs[i]) && Related(vs[i]);
    assert forall i :: 0 <= i < |vs| ==> asNew[i] == Fresh(vs[i]);
    assert SlotWordText(slot) ==> SlotStale(AgedSlot(slot)) by {
      if i :| 0 <= i < |vs| && HasWordText(vs[i]) {
        assert HasStale(aged[i]);
      }
    }
    assert UnstaleSlot(AgedSlot(FreshSlot(slot))).vs == asNew;
    if !SlotWordText(slot) {
      assert aged == UnstaleSlot(slot).vs;
    }
  }

  // ---- reading back

  /** A structure can be read back from its encoding, whatever follows, exactly
      when none of its texts is stale; the read then gives every field back and
      leaves exactly what follows. */
  lemma StructureRoundTrip(tag: Tag, kind: Kind, v: Value, rest: seq<byte>)
    requires WellFormed(kind) && IsTag(tag) && Writable(kind, v) && v.Struct?
    ensures var r := Decode(tag, kind, Encode(tag, kind, v) + rest);
      && (r.Ok? <==> !HasStale(v))
      && (r.Ok? ==> r.value == (Aged(v), rest))
  {
    RoundTrip(tag, kind, v, rest);
  }

  /** Everything built afresh reads back. */
  lemma FreshRoundTrip(tag: Tag, kind: Kind, v: Value, rest: seq<byte>)
    requires WellFormed(kind) && IsTag(tag) && Writable(kind, v) && Fresh(v) == v
    ensures Decode(tag, kind, Encode(tag, kind, v) + rest) == Ok((Aged(v), rest))
  {
    StatesOf(v);
    RoundTrip(tag, kind, v, rest);
  }

  // ---- decoded, then written again

  /** Writing a decoded text again repeats the bytes that were read and appends
      eight zeros exactly when its length is a multiple of 8. */
  lemma RewrittenText(tag: Tag, s: seq<byte>)
    requires Decode(tag, TextStringK, s).Ok?
    ensures var (v, rest) := Decode(tag, TextStringK, s).value;
      var consumed, again := s[..|s| - |rest|], Encode(tag, TextStringK, v);
      && s == consumed + rest && v.Text? && Writable(TextStringK, v)
      && again == consumed + (if |v.chars| % 8 == 0 then Zeros(8) else [])
      && (again == consumed <==> |v.chars| % 8 != 0)
  {
    var (v, rest) := Decode(tag, TextStringK, s).value;
    Canonical(tag, TextStringK, s);
    DecodedIsAged(tag, TextStringK, s);
    DecodedText(tag, s);
    var plain := Encode(tag, TextStringK, Unstale(v));
    assert s[..|s| - |rest|] == plain;
    StaleText(tag, v.chars);
  }

  lemma DecodedText(tag: Tag, s: seq<byte>)
    requires Decode(tag, TextStringK, s).Ok?
    ensures Decode(tag, TextStringK, s).value.0.Text?
  {
    hide DecodeHeader;
  }

  lemma StaleText(tag: Tag, text: string)
    ensures Encode(tag, TextStringK, Aged(Text(text, false)))
         == Encode(tag, TextStringK, Text(text, false)) + if |text| % 8 == 0 then Zeros(8) else []
  {
  }

  /** Every other decoded primitive repeats the bytes that were read, a byte string
      and a Boolean with a wrong length field included; only a BigInteger does so
      exactly if its length is the one that a write chooses. */
  lemma RewrittenPrimitive(tag: Tag, kind: Kind, s: seq<byte>)
    requires !kind.StructK? && !kind.AttributeK? && !kind.TextStringK? && Decode(tag, kind, s).Ok?
    ensures var (v, rest) := Decode(tag, kind, s).value;
      && (s == Encode(tag, kind, v) + rest <==> (kind.BigIntegerK? ==> Exact(tag, kind, s)))
      && (!kind.BigIntegerK? ==> Writable(kind, v))
  {
    var (v, rest) := Decode(tag, kind, s).value;
    NumberState(tag, kind, s);
    if Exact(tag, kind, s) {
      Canonical(tag, kind, s);
    }
    if kind.BigIntegerK? && s == Encode(tag, kind, v) + rest {
      BigIntegerSizes(tag, s);
    }
  }

  /** By the number of bytes: length is what was read, BigSize what is written. */
  lemma BigIntegerSizes(tag: Tag, s: seq<byte>)
    requires Decode(tag, BigIntegerK, s).Ok?
    ensures var (v, rest) := Decode(tag, BigIntegerK, s).value;
      |s| == |Encode(tag, BigIntegerK, v)| + |rest| ==> Exact(tag, BigIntegerK, s)
  {
    hide PackU;
    var (v, rest) := Decode(tag, BigIntegerK, s).value;
    BigSizeHolds(v.n);
    assert |Encode(tag, BigIntegerK, v)| == 8 + BigSize(v.n);
  }

  lemma NumberState(tag: Tag, kind: Kind, s: seq<byte>)
    requires !kind.StructK? && !kind.AttributeK? && !kind.TextStringK? && Decode(tag, kind, s).Ok?
    ensures Unstale(Decode(tag, kind, s).value.0) == Decode(tag, kind, s).value.0
    ensures !kind.BigIntegerK? ==> Exact(tag, kind, s)
    ensures kind.BigIntegerK? ==> Decode(tag, kind, s).value.0.Num?
  {
    hide DecodeHeader;
  }

  /** A decoded structure that is written again can be decoded again, whatever
      follows it, if and only if it holds no text whose length is a multiple of
      8; the decoding then gives the same state. */
  lemma SecondGeneration(tag: Tag, kind: Kind, s: seq<byte>, rest: seq<byte>)
    requires WellFormed(kind) && IsTag(tag) && Decode(tag, kind, s).Ok?
    requires Decode(tag, kind, s).value.0.Struct? && Writable(kind, Decode(tag, kind, s).value.0)
    ensures var v := Decode(tag, kind, s).value.0;
      var again := Decode(tag, kind, Encode(tag, kind, v) + rest);
      && (again.Ok? <==> !HasWordText(v))
      && (again.Ok? ==> again.value == (v, rest))
  {
    var v := Decode(tag, kind, s).value.0;
    hide Decode, Encode, Writable, Aged, HasStale, HasWordText, WellFormed;
    DecodedIsAged(tag, kind, s);
    StatesOf(v);
    StructureRoundTrip(tag, kind, v, rest);
  }

  /** Writing a decoded structure again repeats the bytes that were read if and only
      if no structure length in it was cut down, every BigInteger has the length
      that a write chooses, and no text has a length that is a multiple of 8. */
  lemma RewrittenStructure(tag: Tag, kind: Kind, s: seq<byte>)
    requires WellFormed(kind) && IsTag(tag) && Decode(tag, kind, s).Ok?
    requires Decode(tag, kind, s).value.0.Struct? && Writable(kind, Decode(tag, kind, s).value.0)
    ensures var (v, rest) := Decode(tag, kind, s).value;
      s == Encode(tag, kind, v) + rest <==> Exact(tag, kind, s) && !HasWordText(v)
  {
    var (v, rest) := Decode(tag, kind, s).value;
    hide Decode, Encode, Writable, Aged, HasStale, HasWordText, WellFormed, Exact;
    DecodedIsAged(tag, kind, s);
    StatesOf(v);
    if Exact(tag, kind, s) && !HasWordText(v) {
      Canonical(tag, kind, s);
    } else if s == Encode(tag, kind, v) + rest {
      StructureRoundTrip(tag, kind, v, rest);
      WrittenIsExact(tag, kind, v, rest);
    }
  }

  /** A part is shorter than the structure it is in. */
  lemma {:induction false} PartShorter(fs: seq<Field>, slots: seq<Slot>, i: nat)
    requires i < |fs| == |slots| && slots[i].One?
    ensures |Body(fs[i].kind, slots[i].v)| < |EncodeFields(fs, slots)|
  {
    hide Body, Padding;
    if i > 0 {
      PartShorter(fs[1..], slots[1..], i - 1);
    } else {
      assert |Encode(fs[0].tag, fs[0].kind, slots[0].v)| >= 8 + |Body(fs[0].kind, slots[0].v)|;
    }
  }

  /** Each field of a structure that was read came from some part of the body. */
  lemma {:induction false} FieldRead(fs: seq<Field>, s: seq<byte>, i: nat) returns (part: seq<byte>)
    requires DecodeFields(fs, s).Ok? && i < |fs|
    ensures DecodeSlot(fs[i], part).Ok? && DecodeFields(fs, s).value.0[i] == DecodeSlot(fs[i], part).value.0
  {
    hide Decode, DecodeSlot;
    part := s;
    if i > 0 {
      part := FieldRead(fs[1..], DecodeSlot(fs[0], s).value.1, i - 1);
    }
  }

  /** A field that may not be left out is there once the structure has been read. */
  lemma DecodedFieldPresent(tag: Tag, fs: seq<Field>, s: seq<byte>, i: nat)
    requires Decode(tag, StructK(fs), s).Ok? && i < |fs| && (fs[i].mode.Required? || fs[i].mode.Mandatory?)
    ensures var v := Decode(tag, StructK(fs), s).value.0;
      && v.Struct? && |v.slots| == |fs| && v.slots[i].One?
      && (fs[i].kind.EnumerationK? ==> v.slots[i].v.Num?)
  {
    hide DecodeHeader, DecodeFields;
    var (length, rest) := DecodeHeader(tag, 1, s).value;
    var part := FieldRead(fs, rest[..Clamp(length, rest)], i);
    var slots := DecodeFields(fs, rest[..Clamp(length, rest)]).value.0;
    assert Decode(tag, StructK(fs), s).value.0 == Struct(slots);
    var f := fs[i];
    assert slots[i] == One(Decode(f.tag, f.kind, part).value.0);
    if f.kind.EnumerationK? {
      var (n, rest) := DecodeHeader(f.tag, TypeCode(f.kind), part).value;
      assert Decode(f.tag, f.kind, part) == DecodePrimitive(f.kind, n, rest);
    }
  }

  // ---- canonical encodings

  /** What a fresh write produces passes the exactness test of a read. */
  lemma {:induction false} WrittenIsExact(tag: Tag, kind: Kind, v: Value, rest: seq<byte>)
    requires WellFormed(kind) && IsTag(tag) && Writable(kind, v) && !HasStale(v)
    ensures Decode(tag, kind, Encode(tag, kind, v) + rest).Ok?
    ensures Exact(tag, kind, Encode(tag, kind, v) + rest)
    decreases v, 1
  {
    hide PrimitiveBody, DecodePrimitive, DecodeHeader;
    RoundTrip(tag, kind, v, rest);
    var body, s := Body(kind, v), Body(kind, v) + Zeros(Padding(kind, v)) + rest;
    var length := LengthField(kind, v);
    assert Encode(tag, kind, v) + rest == Header(tag, TypeCode(kind), length) + s;
    HeaderRoundTrip(tag, TypeCode(kind), length, s);
    assert DecodeValue(kind, length, s).Ok?;
    WrittenValueIsExact(kind, v, s, rest);
  }

  lemma {:induction false} WrittenValueIsExact(kind: Kind, v: Value, s: seq<byte>, rest: seq<byte>)
    requires WellFormed(kind) && Writable(kind, v) && !HasStale(v)
    requires s == Body(kind, v) + Zeros(Padding(kind, v)) + rest
    requires DecodeValue(kind, LengthField(kind, v), s).Ok?
    ensures ExactValue(kind, LengthField(kind, v), s)
    decreases v, 0
  {
    hide DecodeHeader;
    var body := Body(kind, v);
    match kind {
      case StructK(fs) =>
        assert s[..|body|] == body && body + [] == body;
        assert !SlotsStale(v.slots);
        WrittenFieldsAreExact(fs, v.slots, []);
      case AttributeK(kinds) =>
        assert s[..|body|] == body && body + [] == body;
        assert !SlotsStale(v.slots);
        var fs := AttributeFields(NamedKind(kinds, v.slots).value);
        AttributeFieldsWellFormed(fs[2].kind);
        WrittenFieldsAreExact(fs, v.slots, []);
        NameRoundTrip(fs, v.slots);
      case _ =>
        assert WritablePrimitive(kind, v);
        PrimitiveRoundTrip(kind, v, rest);
    }
  }

  lemma {:induction false} WrittenFieldsAreExact(fs: seq<Field>, slots: seq<Slot>, rest: seq<byte>)
    requires DistinctTags(fs) && WritableFields(fs, slots) && !SlotsStale(slots)
    requires forall i :: 0 <= i < |fs| ==> IsTag(fs[i].tag) && WellFormed(fs[i].kind)
    requires forall i :: 0 <= i < |fs| ==> !IsTagNext(fs[i].tag, rest)
    ensures var s := EncodeFields(fs, slots) + rest;
      DecodeFields(fs, s).Ok? && ExactFields(fs, s)
    decreases slots
  {
    hide PrimitiveBody, WritablePrimitive, DecodePrimitive, DecodeHeader, Padding;
    FieldsRoundTrip(fs, slots, rest);
    if fs != [] {
      var tail := EncodeFields(fs[1..], slots[1..]) + rest;
      assert EncodeFields(fs, slots) + rest == EncodeSlot(fs[0], slots[0]) + tail;
      SlotsSplit(slots);
      ForeignTag(fs[1..], slots[1..], rest, fs[0].tag);
      SlotRoundTrip(fs[0], slots[0], tail);
      WrittenSlotIsExact(fs[0], slots[0], tail);
      WrittenFieldsAreExact(fs[1..], slots[1..], rest);
    }
  }

  lemma {:induction false} WrittenSlotIsExact(f: Field, slot: Slot, rest: seq<byte>)
    requires IsTag(f.tag) && WellFormed(f.kind) && WritableSlot(f, slot) && !SlotStale(slot)
    requires !IsTagNext(f.tag, rest)
    ensures var s := EncodeSlot(f, slot) + rest;
      DecodeSlot(f, s).Ok? && ExactSlot(f, s)
    decreases slot
  {
    hide PrimitiveBody, WritablePrimitive, DecodePrimitive, DecodeHeader, Padding;
    SlotRoundTrip(f, slot, rest);
    match slot
    case Absent => assert [] + rest == rest;
    case One(v) => WrittenIsExact(f.tag, f.kind, v, rest);
    case Many(vs) => WrittenManyAreExact(f, vs, rest);
  }

  lemma {:induction false} WrittenManyAreExact(f: Field, vs: seq<Value>, rest: seq<byte>)
    requires IsTag(f.tag) && WellFormed(f.kind)
    requires forall i :: 0 <= i < |vs| ==> Writable(f.kind, vs[i]) && !HasStale(vs[i])
    requires !IsTagNext(f.tag, rest)
    ensures var s := EncodeMany(f, vs) + rest;
      DecodeMany(f, s).Ok? && ExactMany(f, s)
    decreases vs
  {
    hide PrimitiveBody, WritablePrimitive, DecodePrimitive, DecodeHeader, Padding;
    if vs == [] {
      assert [] + rest == rest;
    } else {
      var tail := EncodeMany(f, vs[1..]) + rest;
      assert EncodeMany(f, vs) + rest == Encode(f.tag, f.kind, vs[0]) + tail;
      RoundTrip(f.tag, f.kind, vs[0], tail);
      AfterValue(Decode(f.tag, f.kind, Encode(f.tag, f.kind, vs[0]) + tail), vs[0], tail);
      WrittenIsExact(f.tag, f.kind, vs[0], tail);
      WrittenManyAreExact(f, vs[1..], rest);
    }
  }

  /** A decodable byte string starts with the encoding of a newly built object with
      the decoded value if and only if the lengths that the read does not check
      are those a write chooses: no structure length was cut down, no BigInteger
      has another length, and all Boolean lengths are 8. All lengths are then
      multiples of 8. */
  lemma CanonicalIff(tag: Tag, kind: Kind, s: seq<byte>)
    requires WellFormed(kind) && Decode(tag, kind, s).Ok?
    ensures var (v, rest) := Decode(tag, kind, s).value;
      && (Exact(tag, kind, s) && Fresh(v) == Unstale(v)
          <==> Writable(kind, Fresh(v)) && s == Encode(tag, kind, Fresh(v)) + rest)
      && (Exact(tag, kind, s) ==> (|s| - |rest|) % 8 == 0)
  {
    var (v, rest) := Decode(tag, kind, s).value;
    assert IsTag(tag);
    hide Decode, Encode, Writable, Aged, Unstale, Fresh, HasStale, HasWordText, WellFormed, Exact;
    StatesOf(v);
    if Exact(tag, kind, s) {
      Canonical(tag, kind, s);
      Aligned(tag, kind, Unstale(v));
    }
    if Writable(kind, Fresh(v)) && s == Encode(tag, kind, Fresh(v)) + rest {
      WrittenIsExact(tag, kind, Fresh(v), rest);
      RoundTrip(tag, kind, Fresh(v), rest);
      FreshReadsBack(Decode(tag, kind, s), v, rest);
    }
  }

  lemma FreshReadsBack(r: Result<(Value, seq<byte>)>, v: Value, rest: seq<byte>)
    requires ReadsBack(r, Fresh(v), rest) && r.Ok?
    ensures r.value.0 == Aged(Fresh(v))
  {
  }

  /** A Boolean with a wrong length field is read all the same, and keeps it: it is
      not what a new Boolean writes. */
  lemma InexactBoolean()
    ensures var s := Header(RANDOM_IV, 6, 0) + Zeros(8);
      && Decode(RANDOM_IV, BooleanK, s) == Ok((Flag(false, 0), []))
      && Encode(RANDOM_IV, BooleanK, Flag(false, 0)) == s
      && Encode(RANDOM_IV, BooleanK, Flag(false, 8)) != s
  {
    var s := Header(RANDOM_IV, 6, 0) + Zeros(8);
    HeaderRoundTrip(RANDOM_IV, 6, 0, Zeros(8));
    ZerosUnpack(8);
    assert Zeros(8)[..8] == Zeros(8);
    RewrittenPrimitive(RANDOM_IV, BooleanK, s);
    assert Encode(RANDOM_IV, BooleanK, Flag(false, 0)) + [] == Encode(RANDOM_IV, BooleanK, Flag(false, 0));
    HeaderRoundTrip(RANDOM_IV, 6, 8, PackU(8, 0));
    assert Encode(RANDOM_IV, BooleanK, Flag(false, 8)) == Header(RANDOM_IV, 6, 8) + PackU(8, 0);
  }
}
