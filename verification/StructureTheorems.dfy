/** What the wire format theorems say about particular structures. */
module StructureTheorems {
  import opened Wrappers
  import opened BitStrings
  import opened Bytes
  import opened Enums
  import opened Ttlv
  import opened TtlvCanonical
  import opened TtlvRoundTrip
  import opened TtlvTheorems
  import opened Schemas

  // ---- big integers

  /** Every integer is read back from its encoding, which takes 8 bytes for each
      started group of 64 digits of its magnitude, one group more if the last is
      full, and whose first bit is the sign. */
  lemma BigIntegerRoundTrip(tag: Tag, v: int, rest: seq<byte>)
    requires IsTag(tag) && BigSize(v) < Radix(4)
    ensures Decode(tag, BigIntegerK, Encode(tag, BigIntegerK, Num(v)) + rest) == Ok((Num(v), rest))
    ensures var body := Body(BigIntegerK, Num(v));
      && |Encode(tag, BigIntegerK, Num(v))| == 8 + |body|
      && |body| == 8 * (|Format(Abs(v))| / 64 + 1)
      && (body[0] >= 128 <==> v < 0)
  {
    RoundTrip(tag, BigIntegerK, Num(v), rest);
    BigSizeHolds(v);
    var n, body := BigSize(v), PackS(BigSize(v), v);
    FirstBit(body);
    PackUnpackU(n, if v < 0 then v + Radix(n) else v);
    hide Radix, Format;
  }

  // ---- cryptographic parameters

  lemma NumberStates(slots: seq<Slot>)
    requires forall i :: 0 <= i < |slots| ==>
      slots[i].Absent? || (slots[i].One? && (slots[i].v.Num? || slots[i].v.Flag?))
    ensures Aged(Struct(slots)) == Struct(slots) && !HasStale(Struct(slots))
  {
    var aged := Aged(Struct(slots)).slots;
    assert forall i :: 0 <= i < |slots| ==> aged[i] == AgedSlot(slots[i]) == slots[i];
    assert aged == slots;
    assert forall i :: 0 <= i < |slots| ==> !SlotStale(slots[i]);
  }

  /** Cryptographic parameters come back exactly as they were, whatever follows and
      whichever of the thirteen are there: what is absent stays absent, and False
      and 0 stay present. */
  lemma ParametersIdentity(slots: seq<Slot>, rest: seq<byte>)
    requires Writable(CRYPTOGRAPHIC_PARAMETERS_K, Struct(slots))
    ensures var s := Encode(CRYPTOGRAPHIC_PARAMETERS, CRYPTOGRAPHIC_PARAMETERS_K, Struct(slots));
      Decode(CRYPTOGRAPHIC_PARAMETERS, CRYPTOGRAPHIC_PARAMETERS_K, s + rest) == Ok((Struct(slots), rest))
  {
    hide CRYPTOGRAPHIC_PARAMETERS_FIELDS, Decode, Encode, Body, WellFormed;
    CryptographicParametersWellFormed();
    ParameterFields();
    var fs := CRYPTOGRAPHIC_PARAMETERS_FIELDS;
    WrittenFields(fs, slots);
    hide Writable, WritableSlot;
    forall i | 0 <= i < |slots|
      ensures slots[i].Absent? || (slots[i].One? && (slots[i].v.Num? || slots[i].v.Flag?))
    {
      NumberField(fs[i], slots[i]);
    }
    NumberStates(slots);
    hide Aged, HasStale;
    StructureRoundTrip(CRYPTOGRAPHIC_PARAMETERS, CRYPTOGRAPHIC_PARAMETERS_K, Struct(slots), rest);
  }

  lemma WrittenFields(fs: seq<Field>, slots: seq<Slot>)
    requires Writable(StructK(fs), Struct(slots))
    ensures |fs| == |slots| && forall i :: 0 <= i < |fs| ==> WritableSlot(fs[i], slots[i])
  {
    hide WritableSlot;
    assert WritableFields(fs, slots);
  }

  lemma NumberField(f: Field, slot: Slot)
    requires WritableSlot(f, slot) && f.mode.Optional? && (f.kind.EnumerationK? || f.kind.BooleanK? || f.kind.IntegerK?)
    ensures slot.Absent? || (slot.One? && (slot.v.Num? || slot.v.Flag?))
  {
  }

  // ---- key wrapping data

  /** Key wrapping data is read back unless a key information has an identifier that
      was read before and whose length is a multiple of 8. */
  lemma WrappingRoundTrip(v: Value, rest: seq<byte>)
    requires Writable(KEY_WRAPPING_DATA_K, v)
    ensures var s := Encode(KEY_WRAPPING_DATA, KEY_WRAPPING_DATA_K, v);
      var r := Decode(KEY_WRAPPING_DATA, KEY_WRAPPING_DATA_K, s + rest);
      && (r.Ok? <==> !HasStale(v))
      && (r.Ok? ==> r.value == (Aged(v), rest))
  {
    KeyWrappingDataWellFormed();
    assert v.Struct?;
    hide KEY_WRAPPING_DATA_K, Writable;
    StructureRoundTrip(KEY_WRAPPING_DATA, KEY_WRAPPING_DATA_K, v, rest);
  }

  ghost predicate IsTextList(slot: Slot) {
    slot.Many? && forall i :: 0 <= i < |slot.vs| ==> slot.vs[i].Text?
  }

  lemma NamesField(f: Field, slot: Slot)
    requires WritableSlot(f, slot) && f.mode.Repeated? && f.kind.TextStringK?
    ensures IsTextList(slot)
  {
    assert forall i :: 0 <= i < |slot.vs| ==> Writable(f.kind, slot.vs[i]);
  }

  /** A key wrapping specification is read back unless a text in it was read before
      and has a length that is a multiple of 8; the attribute names, which are
      repeated in front of an optional field, all come back in their order. */
  lemma SpecificationRoundTrip(slots: seq<Slot>, rest: seq<byte>)
    requires Writable(KEY_WRAPPING_SPECIFICATION_K, Struct(slots))
    ensures |slots| == 5 && IsTextList(slots[3])
    ensures var v := Struct(slots);
      var s := Encode(KEY_WRAPPING_SPECIFICATION, KEY_WRAPPING_SPECIFICATION_K, v);
      var r := Decode(KEY_WRAPPING_SPECIFICATION, KEY_WRAPPING_SPECIFICATION_K, s + rest);
      && (r.Ok? <==> !HasStale(v))
      && (r.Ok? ==>
            && r.value == (Aged(v), rest)
            && r.value.0.Struct? && |r.value.0.slots| == 5 && IsTextList(r.value.0.slots[3])
            && var names := r.value.0.slots[3].vs;
            && |names| == |slots[3].vs|
            && forall i :: 0 <= i < |names| ==> names[i].chars == slots[3].vs[i].chars)
  {
    KeyWrappingDataWellFormed();
    var fs := KEY_WRAPPING_SPECIFICATION_FIELDS;
    assert |fs| == 5 && fs[3] == Field(ATTRIBUTE_NAME, TextStringK, Repeated);
    hide KEY_WRAPPING_SPECIFICATION_FIELDS;
    WrittenFields(fs, slots);
    NamesField(fs[3], slots[3]);
    AgedNames(slots);
    hide Writable, WritableSlot, Aged;
    StructureRoundTrip(KEY_WRAPPING_SPECIFICATION, KEY_WRAPPING_SPECIFICATION_K, Struct(slots), rest);
  }

  lemma AgedNames(slots: seq<Slot>)
    requires |slots| == 5 && IsTextList(slots[3])
    ensures var aged := Aged(Struct(slots));
      && aged.Struct? && |aged.slots| == 5 && IsTextList(aged.slots[3])
      && |aged.slots[3].vs| == |slots[3].vs|
      && forall i :: 0 <= i < |slots[3].vs| ==> aged.slots[3].vs[i].chars == slots[3].vs[i].chars
  {
    assert Aged(Struct(slots)).slots[3] == AgedSlot(slots[3]);
  }

  // ---- templates

  /** An attribute of a template: a supported or custom name, an index or none, and
      a writable value of the class that the name selects. */
  ghost predicate IsNamedAttribute(v: Value) {
    && v.Struct? && |v.slots| == 3
    && v.slots[0].One? && v.slots[0].v.Text? && !v.slots[0].v.stale && IsAscii(v.slots[0].v.chars)
    && (v.slots[1].One? ==> v.slots[1].v.Num? && FitsSigned(4, v.slots[1].v.n)) && !v.slots[1].Many?
    && v.slots[2].One? && Fresh(v.slots[2].v) == v.slots[2].v
    && KindFor(ATTRIBUTE_KINDS, v.slots[0].v.chars).Some?
    && Writable(KindFor(ATTRIBUTE_KINDS, v.slots[0].v.chars).value, v.slots[2].v)
  }

  lemma {:induction false} NamedAttributeWritable(v: Value)
    requires IsNamedAttribute(v) && |Body(ATTRIBUTE_K, v)| < Radix(4)
    ensures Writable(ATTRIBUTE_K, v) && Fresh(v) == v
  {
    hide ATTRIBUTE_KINDS;
    var slots := v.slots;
    var kind := KindFor(ATTRIBUTE_KINDS, slots[0].v.chars).value;
    var fs := AttributeFields(kind);
    assert Body(ATTRIBUTE_K, v) == EncodeFields(fs, slots);
    PartShorter(fs, slots, 0);
    if slots[1].One? { PartShorter(fs, slots, 1); }
    ValueWritable(fs[0], slots[0].v);
    if slots[1].One? { ValueWritable(fs[1], slots[1].v); }
    hide KindFor, EncodeFields, Body, Radix, FitsSigned, Writable;
    SlotWritable(fs[0], slots[0]);
    SlotWritable(fs[1], slots[1]);
    SlotWritable(fs[2], slots[2]);
    ThreeFields(kind, slots);
    NamedAttributeFresh(v);
  }

  lemma ValueWritable(f: Field, v: Value)
    requires f.kind.TextStringK? || f.kind.IntegerK?
    requires WritablePrimitive(f.kind, v) && |Body(f.kind, v)| < Radix(4)
    ensures Writable(f.kind, v)
  {
  }

  lemma SlotWritable(f: Field, slot: Slot)
    requires !f.mode.Repeated? && !slot.Many?
    requires (slot.Absent? ==> f.mode.Optional?) && (slot.One? ==> Writable(f.kind, slot.v))
    ensures WritableSlot(f, slot)
  {
    hide Writable;
  }

  lemma ThreeFields(kind: Kind, slots: seq<Slot>)
    requires |slots| == 3 && NamedKind(ATTRIBUTE_KINDS, slots) == Some(kind)
    requires |Body(ATTRIBUTE_K, Struct(slots))| < Radix(4)
    requires forall i :: 0 <= i < 3 ==> WritableSlot(AttributeFields(kind)[i], slots[i])
    ensures Writable(ATTRIBUTE_K, Struct(slots))
  {
    hide ATTRIBUTE_KINDS, AttributeFields, WritableSlot, Body, Radix, NamedKind;
    assert WritableFields(AttributeFields(kind), slots);
  }

  lemma NamedAttributeFresh(v: Value)
    requires IsNamedAttribute(v)
    ensures Fresh(v) == v
  {
    hide KindFor, ATTRIBUTE_KINDS, Writable;
    var slots := v.slots;
    assert FreshSlot(slots[0]) == slots[0] && FreshSlot(slots[1]) == slots[1] && FreshSlot(slots[2]) == slots[2];
    hide FreshSlot;
    assert Fresh(v).slots == slots;
  }

  /** A template of such attributes is read back in full: the names in order, and
      of each attribute its name, its index and its value, although the reader
      learns the class of the value only from the name. */
  lemma TemplateRoundTrip(tag: Tag, names: seq<Value>, attributes: seq<Value>, rest: seq<byte>)
    requires IsTag(tag)
    requires forall i :: 0 <= i < |names| ==> Writable(NAME_K, names[i]) && Fresh(names[i]) == names[i]
    requires forall i :: 0 <= i < |attributes| ==>
      IsNamedAttribute(attributes[i]) && |Body(ATTRIBUTE_K, attributes[i])| < Radix(4)
    requires |Body(TEMPLATE_ATTRIBUTE_K, Struct([Many(names), Many(attributes)]))| < Radix(4)
    ensures var v := Struct([Many(names), Many(attributes)]);
      Decode(tag, TEMPLATE_ATTRIBUTE_K, Encode(tag, TEMPLATE_ATTRIBUTE_K, v) + rest)
      == Ok((Struct([Many(AgedValues(names)), Many(AgedValues(attributes))]), rest))
  {
    TemplateAttributeWellFormed();
    TemplateWritable(names, attributes);
    TemplateStates(names, attributes);
    hide TEMPLATE_ATTRIBUTE_K, Writable, WellFormed, Encode, Decode, Body, Aged, Fresh, AgedValues;
    FreshRoundTrip(tag, TEMPLATE_ATTRIBUTE_K, Struct([Many(names), Many(attributes)]), rest);
  }

  lemma TemplateWritable(names: seq<Value>, attributes: seq<Value>)
    requires forall i :: 0 <= i < |names| ==> Writable(NAME_K, names[i])
    requires forall i :: 0 <= i < |attributes| ==>
      IsNamedAttribute(attributes[i]) && |Body(ATTRIBUTE_K, attributes[i])| < Radix(4)
    requires |Body(TEMPLATE_ATTRIBUTE_K, Struct([Many(names), Many(attributes)]))| < Radix(4)
    ensures Writable(TEMPLATE_ATTRIBUTE_K, Struct([Many(names), Many(attributes)]))
  {
    forall i | 0 <= i < |attributes| ensures Writable(ATTRIBUTE_K, attributes[i]) {
      NamedAttributeWritable(attributes[i]);
    }
    hide NAME_K, ATTRIBUTE_K, Body, Radix, IsNamedAttribute;
    var fs, slots := TEMPLATE_ATTRIBUTE_FIELDS, [Many(names), Many(attributes)];
    assert WritableSlot(fs[0], slots[0]) && WritableSlot(fs[1], slots[1]);
    assert WritableFields(fs, slots);
  }

  lemma TemplateStates(names: seq<Value>, attributes: seq<Value>)
    requires forall i :: 0 <= i < |names| ==> Fresh(names[i]) == names[i]
    requires forall i :: 0 <= i < |attributes| ==>
      IsNamedAttribute(attributes[i]) && |Body(ATTRIBUTE_K, attributes[i])| < Radix(4)
    ensures var v := Struct([Many(names), Many(attributes)]);
      Fresh(v) == v && Aged(v) == Struct([Many(AgedValues(names)), Many(AgedValues(attributes))])
  {
    forall i | 0 <= i < |attributes| ensures Fresh(attributes[i]) == attributes[i] {
      NamedAttributeWritable(attributes[i]);
    }
    hide IsNamedAttribute, Body;
    ManyStates(names);
    ManyStates(attributes);
    var v := Struct([Many(names), Many(attributes)]);
    assert Fresh(v).slots == [FreshSlot(Many(names)), FreshSlot(Many(attributes))];
    assert Aged(v).slots == [AgedSlot(Many(names)), AgedSlot(Many(attributes))];
  }

  lemma ManyStates(vs: seq<Value>)
    requires forall i :: 0 <= i < |vs| ==> Fresh(vs[i]) == vs[i]
    ensures FreshSlot(Many(vs)) == Many(vs) && AgedSlot(Many(vs)) == Many(AgedValues(vs))
  {
    hide Fresh, Aged;
    assert FreshSlot(Many(vs)).vs == vs;
  }

  // ---- device credentials

  ghost predicate IsTextSlot(slot: Slot) {
    slot.Absent? || (slot.One? && WritablePrimitive(TextStringK, slot.v))
  }

  predicate IsWordText(slot: Slot) {
    slot.One? && slot.v.Text? && |slot.v.chars| % 8 == 0
  }

  /** A decoded optional text is missing or ASCII. */
  lemma DecodedTextSlot(f: Field, s: seq<byte>)
    requires f.kind == TextStringK && f.mode == Optional && DecodeSlot(f, s).Ok?
    ensures IsTextSlot(DecodeSlot(f, s).value.0)
  {
    hide Decode;
    if IsTagNext(f.tag, s) {
      RewrittenText(f.tag, s);
      TextWritten(Decode(f.tag, TextStringK, s).value.0);
    }
  }

  lemma TextWritten(v: Value)
    ensures Writable(TextStringK, v) <==> |Body(TextStringK, v)| < Radix(4) && WritablePrimitive(TextStringK, v)
  {
  }

  lemma DecodedTextSlots(tag: Tag, fs: seq<Field>, s: seq<byte>)
    requires Decode(tag, StructK(fs), s).Ok?
    requires forall i :: 0 <= i < |fs| ==> fs[i].kind == TextStringK && fs[i].mode == Optional
    ensures var v := Decode(tag, StructK(fs), s).value.0;
      v.Struct? && |v.slots| == |fs| && forall i :: 0 <= i < |fs| ==> IsTextSlot(v.slots[i])
  {
    hide DecodeHeader, DecodeFields, DecodeSlot, IsTextSlot;
    var (length, rest) := DecodeHeader(tag, 1, s).value;
    var body := rest[..Clamp(length, rest)];
    var slots := DecodeFields(fs, body).value.0;
    forall i | 0 <= i < |fs| ensures IsTextSlot(slots[i]) {
      var part := FieldRead(fs, body, i);
      DecodedTextSlot(fs[i], part);
    }
  }

  lemma WordTexts(slots: seq<Slot>)
    requires forall i :: 0 <= i < |slots| ==> IsTextSlot(slots[i])
    ensures HasWordText(Struct(slots)) <==> exists i :: 0 <= i < |slots| && IsWordText(slots[i])
  {
    forall i | 0 <= i < |slots| ensures SlotWordText(slots[i]) <==> IsWordText(slots[i]) {
      assert IsTextSlot(slots[i]);
    }
    if i :| 0 <= i < |slots| && IsWordText(slots[i]) {
      assert SlotWordText(slots[i]);
    }
  }

  lemma TextFieldsWritable(fs: seq<Field>, slots: seq<Slot>)
    requires |fs| == |slots| && |EncodeFields(fs, slots)| < Radix(4)
    requires forall i :: 0 <= i < |fs| ==> fs[i].kind == TextStringK && fs[i].mode == Optional && IsTextSlot(slots[i])
    ensures Writable(StructK(fs), Struct(slots))
  {
    hide EncodeFields, WritablePrimitive, Radix, Body, Writable;
    forall i | 0 <= i < |fs| ensures WritableSlot(fs[i], slots[i]) {
      if slots[i].One? {
        PartShorter(fs, slots, i);
        TextWritten(slots[i].v);
      }
    }
    FieldsWritable(fs, slots);
  }

  lemma FieldsWritable(fs: seq<Field>, slots: seq<Slot>)
    requires |fs| == |slots| && |EncodeFields(fs, slots)| < Radix(4)
    requires forall i :: 0 <= i < |fs| ==> WritableSlot(fs[i], slots[i])
    ensures Writable(StructK(fs), Struct(slots))
  {
    hide EncodeFields, WritableSlot, Radix;
    assert WritableFields(fs, slots);
  }

  /** A device credential that was decoded and is written again, which succeeds if
      it is not too long, can be decoded again if and only if none of its texts
      has a length that is a multiple of 8. The bytes are those that were read if
      and only if, moreover, its length was not cut down. */
  lemma CredentialSecondGeneration(tag: Tag, s: seq<byte>, more: seq<byte>)
    requires IsTag(tag) && Decode(tag, DEVICE_CREDENTIAL_K, s).Ok?
    requires |Body(DEVICE_CREDENTIAL_K, Decode(tag, DEVICE_CREDENTIAL_K, s).value.0)| < Radix(4)
    ensures var (v, rest) := Decode(tag, DEVICE_CREDENTIAL_K, s).value;
      && v.Struct? && |v.slots| == 6 && Writable(DEVICE_CREDENTIAL_K, v)
      && (Decode(tag, DEVICE_CREDENTIAL_K, Encode(tag, DEVICE_CREDENTIAL_K, v) + more).Ok?
          <==> forall i :: 0 <= i < 6 ==> !IsWordText(v.slots[i]))
      && (s == Encode(tag, DEVICE_CREDENTIAL_K, v) + rest
          <==> Exact(tag, DEVICE_CREDENTIAL_K, s) && forall i :: 0 <= i < 6 ==> !IsWordText(v.slots[i]))
  {
    DeviceCredentialWellFormed();
    var v, fs := Decode(tag, DEVICE_CREDENTIAL_K, s).value.0, DEVICE_CREDENTIAL_K.fields;
    CredentialFields();
    hide DEVICE_CREDENTIAL_K, Encode, Decode, Radix, WellFormed, HasWordText, Exact, IsTextSlot, EncodeFields, Writable;
    DecodedTextSlots(tag, fs, s);
    WordTexts(v.slots);
    assert Body(DEVICE_CREDENTIAL_K, v) == EncodeFields(fs, v.slots);
    TextFieldsWritable(fs, v.slots);
    SecondGeneration(tag, DEVICE_CREDENTIAL_K, s, more);
    RewrittenStructure(tag, DEVICE_CREDENTIAL_K, s);
  }

  lemma CredentialFields()
    ensures DEVICE_CREDENTIAL_K.StructK? && |DEVICE_CREDENTIAL_K.fields| == 6
    ensures forall i :: 0 <= i < 6 ==>
      DEVICE_CREDENTIAL_K.fields[i].kind == TextStringK && DEVICE_CREDENTIAL_K.fields[i].mode == Optional
  {
  }
}
