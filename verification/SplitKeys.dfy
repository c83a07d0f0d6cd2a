/** secrets.SplitKey: a key part, with a prime field size that one of the split
    methods requires. */
module SplitKeys {
  import opened Wrappers
  import opened Bytes
  import opened BitStrings
  import opened Enums
  import opened Streams
  import opened Ttlv
  import opened TtlvRoundTrip
  import opened TtlvTheorems
  import opened FieldIO
  import opened Schemas
  import opened Structures
  import P = Primitives

  /** The prime field size is there if the method is the one that needs it. */
  predicate Complete(slots: seq<Slot>)
    requires |slots| == 6
  {
    slots[3] == One(Num(POLYNOMIAL_SHARING_PRIME_FIELD)) ==> slots[4].One?
  }

  function DecodeSplitKey(s: seq<byte>): (r: Result<(seq<Slot>, seq<byte>)>)
    ensures r.Ok? ==> |r.value.0| == 6
  {
    var (v, rest) :- Decode(SPLIT_KEY, SPLIT_KEY_K, s);
    if !v.Struct? || |v.slots| != 6 || !Complete(v.slots) then Err(InvalidKmipEncoding) else Ok((v.slots, rest))
  }

  ghost predicate WritableSplitKey(slots: seq<Slot>) {
    |slots| == 6 && Writable(SPLIT_KEY_K, Struct(slots)) && Complete(slots)
  }

  /** What a SplitKey object can hold in its six fields. */
  predicate HeldSplitKey(slots: seq<Slot>) {
    && |slots| == 6
    && (forall i :: 0 <= i < 6 ==> !slots[i].Many?)
    && (forall i :: 0 <= i < 3 ==> slots[i].One? ==> HeldPrimitive(IntegerK, slots[i].v))
    && (slots[3].One? ==> HeldPrimitive(EnumerationK(SplitKeyMethods), slots[3].v))
    && (slots[4].One? ==> HeldPrimitive(BigIntegerK, slots[4].v))
  }

  /** The write succeeds exactly when the five required fields are there, the prime
      field size as well if the method is 3, polynomial sharing over a prime field,
      the key block can be written and no length overflows. */
  lemma SplitKeyWritable(slots: seq<Slot>)
    requires HeldSplitKey(slots)
    ensures WritableSplitKey(slots) <==>
      && slots[0].One? && slots[1].One? && slots[2].One? && slots[3].One? && slots[5].One?
      && (slots[3].v.n == 3 ==> slots[4].One?)
      && (slots[4].One? ==> BigSize(slots[4].v.n) < Radix(4))
      && Writable(KEY_BLOCK_K, slots[5].v)
      && |EncodeFields(SPLIT_KEY_FIELDS, slots)| < Radix(4)
  {
    hide KEY_BLOCK_K, EncodeFields, WritableSlot, SPLIT_KEY_FIELDS, Complete;
    var fs := SPLIT_KEY_FIELDS;
    SplitKeySlots(slots);
    SplitKeyFields();
    assert Body(SPLIT_KEY_K, Struct(slots)) == EncodeFields(fs, slots);
    assert Complete(slots) <==> (slots[3] == One(Num(POLYNOMIAL_SHARING_PRIME_FIELD)) ==> slots[4].One?) by {
      CompleteMeans(slots);
    }
    assert WritableSplitKey(slots)
      <==> |EncodeFields(fs, slots)| < Radix(4) && WritableFields(fs, slots) && Complete(slots);
  }

  lemma CompleteMeans(slots: seq<Slot>)
    requires |slots| == 6
    ensures Complete(slots) <==> (slots[3] == One(Num(POLYNOMIAL_SHARING_PRIME_FIELD)) ==> slots[4].One?)
    ensures Complete(AgedSlots(slots)) <==> Complete(slots)
  {
    assert AgedSlots(slots)[3] == AgedSlot(slots[3]) && AgedSlots(slots)[4] == AgedSlot(slots[4]);
    AgedNumber(slots[3], POLYNOMIAL_SHARING_PRIME_FIELD);
    AgedNumber(slots[4], 0);
  }

  lemma AgedNumber(slot: Slot, n: int)
    ensures AgedSlot(slot) == One(Num(n)) <==> slot == One(Num(n))
    ensures AgedSlot(slot).One? <==> slot.One?
  {
    if slot.One? {
      var aged := Aged(slot.v);
      assert aged.Num? <==> slot.v.Num?;
    }
  }

  lemma SplitKeySlots(slots: seq<Slot>)
    requires HeldSplitKey(slots)
    ensures |SPLIT_KEY_FIELDS| == 6
    ensures forall i :: 0 <= i < 4 ==> (WritableSlot(SPLIT_KEY_FIELDS[i], slots[i]) <==> slots[i].One?)
    ensures slots[3].One? ==> slots[3].v.Num?
    ensures slots[4].One? ==> slots[4].v.Num?
    ensures WritableSlot(SPLIT_KEY_FIELDS[4], slots[4]) <==> (slots[4].One? ==> BigSize(slots[4].v.n) < Radix(4))
    ensures WritableSlot(SPLIT_KEY_FIELDS[5], slots[5]) <==> slots[5].One? && Writable(KEY_BLOCK_K, slots[5].v)
  {
    hide KEY_BLOCK_K, SPLIT_KEY_FIELDS;
    SplitKeyFields();
    IntegerHeld(slots[0]);
    IntegerHeld(slots[1]);
    IntegerHeld(slots[2]);
    P.RadixFour();
  }

  lemma SplitKeyFields()
    ensures |SPLIT_KEY_FIELDS| == 6
    ensures SPLIT_KEY_FIELDS[0] == Field(SPLIT_KEY_PARTS, IntegerK, Mandatory(InvalidKmipEncoding))
    ensures SPLIT_KEY_FIELDS[1] == Field(KEY_PART_IDENTIFIER, IntegerK, Mandatory(InvalidKmipEncoding))
    ensures SPLIT_KEY_FIELDS[2] == Field(SPLIT_KEY_THRESHOLD, IntegerK, Mandatory(InvalidKmipEncoding))
    ensures SPLIT_KEY_FIELDS[3]
         == Field(SPLIT_KEY_METHOD, EnumerationK(SplitKeyMethods), Mandatory(InvalidKmipEncoding))
    ensures SPLIT_KEY_FIELDS[4] == Field(PRIME_FIELD_SIZE, BigIntegerK, Optional)
    ensures SPLIT_KEY_FIELDS[5] == Field(KEY_BLOCK, KEY_BLOCK_K, Mandatory(InvalidKmipEncoding))
  {
    hide KEY_BLOCK_K;
  }

  lemma IntegerHeld(slot: Slot)
    requires slot.One? ==> HeldPrimitive(IntegerK, slot.v)
    ensures slot.One? ==> Writable(IntegerK, slot.v)
  {
    P.RadixFour();
  }

  /** What was written reads back to the same six fields, unless the key block
      holds a stale text. */
  lemma SplitKeyRoundTrip(slots: seq<Slot>, rest: seq<byte>)
    requires WritableSplitKey(slots)
    ensures var r := DecodeSplitKey(Encode(SPLIT_KEY, SPLIT_KEY_K, Struct(slots)) + rest);
      && (r.Ok? <==> !HasStale(Struct(slots)))
      && (r.Ok? ==> r.value == (AgedSlots(slots), rest))
  {
    hide SPLIT_KEY_K, Decode, Encode, Complete, AgedSlot;
    SplitKeyWellFormed();
    CompleteMeans(slots);
    assert Aged(Struct(slots)) == Struct(AgedSlots(slots));
    StructureRoundTrip(SPLIT_KEY, SPLIT_KEY_K, Struct(slots), rest);
  }

  /** Whatever can be read has all the fields that a write asks for. */
  lemma DecodedIsComplete(s: seq<byte>)
    requires DecodeSplitKey(s).Ok?
    ensures var slots := DecodeSplitKey(s).value.0;
      && slots[0].One? && slots[1].One? && slots[2].One? && slots[3].One? && slots[5].One?
      && slots[3].v.Num? && (slots[3].v.n == 3 ==> slots[4].One?)
  {
    hide SPLIT_KEY_FIELDS, Decode;
    SplitKeyFields();
    forall i | i in {0, 1, 2, 3, 5} ensures DecodeSplitKey(s).value.0[i].One? {
      DecodedFieldPresent(SPLIT_KEY, SPLIT_KEY_FIELDS, s, i);
    }
    DecodedFieldPresent(SPLIT_KEY, SPLIT_KEY_FIELDS, s, 3);
  }

  class SplitKey {
    var splitKeyParts: Option<Value>
    var keyPartIdentifier: Option<Value>
    var splitKeyThreshold: Option<Value>
    var splitKeyMethod: Option<Value>
    var primeFieldSize: Option<Value>
    var keyBlock: KeyBlock?

    ghost predicate Numbers()
      reads this
    {
      && HeldOption(IntegerK, splitKeyParts)
      && HeldOption(IntegerK, keyPartIdentifier)
      && HeldOption(IntegerK, splitKeyThreshold)
      && HeldOption(EnumerationK(SplitKeyMethods), splitKeyMethod)
      && HeldOption(BigIntegerK, primeFieldSize)
    }

    ghost predicate Valid()
      reads this, keyBlock
      reads if keyBlock == null then null else keyBlock.keyValue
      reads if keyBlock == null || keyBlock.keyValue == null then [] else keyBlock.keyValue.attributes
      reads if keyBlock == null then null else keyBlock.keyWrappingData
      reads if keyBlock == null || keyBlock.keyWrappingData == null
        then null else keyBlock.keyWrappingData.encryptionKeyInformation
      reads if keyBlock == null || keyBlock.keyWrappingData == null
        then null else keyBlock.keyWrappingData.macSignatureKeyInformation
      reads if keyBlock == null || keyBlock.keyWrappingData == null
            || keyBlock.keyWrappingData.encryptionKeyInformation == null
        then null else keyBlock.keyWrappingData.encryptionKeyInformation.cryptographicParameters
      reads if keyBlock == null || keyBlock.keyWrappingData == null
            || keyBlock.keyWrappingData.macSignatureKeyInformation == null
        then null else keyBlock.keyWrappingData.macSignatureKeyInformation.cryptographicParameters
    {
      Numbers() && (keyBlock != null ==> keyBlock.Valid())
    }

    ghost function Slots(): (slots: seq<Slot>)
      reads this, keyBlock
      reads if keyBlock == null then null else keyBlock.keyValue
      reads if keyBlock == null || keyBlock.keyValue == null then [] else keyBlock.keyValue.attributes
      reads if keyBlock == null then null else keyBlock.keyWrappingData
      reads if keyBlock == null || keyBlock.keyWrappingData == null
        then null else keyBlock.keyWrappingData.encryptionKeyInformation
      reads if keyBlock == null || keyBlock.keyWrappingData == null
        then null else keyBlock.keyWrappingData.macSignatureKeyInformation
      reads if keyBlock == null || keyBlock.keyWrappingData == null
            || keyBlock.keyWrappingData.encryptionKeyInformation == null
        then null else keyBlock.keyWrappingData.encryptionKeyInformation.cryptographicParameters
      reads if keyBlock == null || keyBlock.keyWrappingData == null
            || keyBlock.keyWrappingData.macSignatureKeyInformation == null
        then null else keyBlock.keyWrappingData.macSignatureKeyInformation.cryptographicParameters
      ensures |slots| == 6
    {
      [SlotOf(splitKeyParts), SlotOf(keyPartIdentifier), SlotOf(splitKeyThreshold), SlotOf(splitKeyMethod),
       SlotOf(primeFieldSize), if keyBlock == null then Absent else One(keyBlock.View())]
    }

    method ReadParts(t: BytearrayStream, ghost trail: Trail) returns (r: Result<()>)
      requires Numbers() && trail.fields == SPLIT_KEY_FIELDS && trail.At(0, t.buffer)
      modifies t, `splitKeyParts, `keyPartIdentifier, `splitKeyThreshold
      ensures r.Ok? ==> Numbers() && trail.At(3, t.buffer)
      ensures r.Ok? ==> Laid(trail, 0, old(SlotOf(splitKeyParts)), SlotOf(splitKeyParts))
      ensures r.Ok? ==> Laid(trail, 1, old(SlotOf(keyPartIdentifier)), SlotOf(keyPartIdentifier))
      ensures r.Ok? ==> Laid(trail, 2, old(SlotOf(splitKeyThreshold)), SlotOf(splitKeyThreshold))
      ensures r.Err? ==> trail.Outcome().Err?
    {
      hide Decode, Trail.At, Laid, HeldOption, SlotOf, SPLIT_KEY_FIELDS;
      SplitKeyFields();
      splitKeyParts :- ReadOver(t, Field(SPLIT_KEY_PARTS, IntegerK, Mandatory(InvalidKmipEncoding)),
                                splitKeyParts, trail, 0);
      keyPartIdentifier :- ReadOver(t, Field(KEY_PART_IDENTIFIER, IntegerK, Mandatory(InvalidKmipEncoding)),
                                    keyPartIdentifier, trail, 1);
      splitKeyThreshold :- ReadOver(t, Field(SPLIT_KEY_THRESHOLD, IntegerK, Mandatory(InvalidKmipEncoding)),
                                    splitKeyThreshold, trail, 2);
      r := Ok(());
    }

    /** The method and the prime field size, which the method may require. */
    method ReadMethod(t: BytearrayStream, ghost trail: Trail) returns (r: Result<()>)
      requires Numbers() && trail.fields == SPLIT_KEY_FIELDS && trail.At(3, t.buffer)
      modifies t, `splitKeyMethod, `primeFieldSize
      ensures r.Ok? ==> Numbers() && trail.At(5, t.buffer)
      ensures r.Ok? ==> Laid(trail, 3, old(SlotOf(splitKeyMethod)), SlotOf(splitKeyMethod))
      ensures r.Ok? ==> Laid(trail, 4, old(SlotOf(primeFieldSize)), SlotOf(primeFieldSize))
      ensures trail.Outcome().Ok? ==>
        && trail.Outcome().value.0.Struct? && |trail.Outcome().value.0.slots| == 6
        && (r.Ok? <==> Complete(trail.Outcome().value.0.slots))
    {
      hide Decode, Trail.At, HeldPrimitive, SPLIT_KEY_FIELDS;
      SplitKeyFields();
      var methodField := Field(SPLIT_KEY_METHOD, EnumerationK(SplitKeyMethods), Mandatory(InvalidKmipEncoding));
      var splitMethod :- ReadNext(t, methodField, trail, 3);
      splitKeyMethod := splitMethod;
      TrailStep(trail, 4, t.buffer);
      var next := P.TagNext(PRIME_FIELD_SIZE, t);
      if next {
        var size :- ReadPrimitive(t, PRIME_FIELD_SIZE, BigIntegerK);
        primeFieldSize := Some(size);
      } else if splitKeyMethod == Some(Num(POLYNOMIAL_SHARING_PRIME_FIELD)) {
        return Err(InvalidKmipEncoding);
      }
      r := Ok(());
    }

    method Read(istream: BytearrayStream) returns (r: Result<()>)
      requires Valid()
      modifies this, istream
      ensures var d := DecodeSplitKey(old(istream.buffer));
        && (r.Ok? <==> d.Ok?)
        && (r.Ok? ==> Valid() && istream.buffer == d.value.1
                      && Struct(Slots()) == Overlay(Struct(old(Slots())), Struct(d.value.0)))
    {
      hide Decode, DecodeHeader, Trail.At, Laid, HeldOption, SlotOf, Complete, KeyBlock.Valid, KeyBlock.View;
      hide KEY_BLOCK_FIELDS, SPLIT_KEY_FIELDS;
      SplitKeyFields();
      ghost var trail := Trail(SPLIT_KEY, istream.buffer, SPLIT_KEY_FIELDS);
      ghost var was := Slots();
      var t :- ReadBody(istream, trail, SPLIT_KEY);
      var _ :- ReadParts(t, trail);
      var _ :- ReadMethod(t, trail);
      var _ :- ReadKeyBlock(t, trail);
      r := ReadEnd(t, trail);
      if r.Ok? {
        AllLaid(trail, was, Slots());
      }
    }

    method ReadKeyBlock(t: BytearrayStream, ghost trail: Trail) returns (r: Result<()>)
      requires trail.fields == SPLIT_KEY_FIELDS && trail.At(5, t.buffer)
      modifies t, `keyBlock
      ensures r.Ok? ==> trail.At(6, t.buffer) && keyBlock != null && keyBlock.Valid() && fresh(keyBlock)
      ensures r.Ok? ==> forall was :: Laid(trail, 5, was, One(keyBlock.View()))
      ensures r.Err? ==> trail.Outcome().Err?
    {
      hide Decode, Trail.At, KeyBlock.Valid, KeyBlock.View, SPLIT_KEY_FIELDS;
      SplitKeyFields();
      TrailStep(trail, 5, t.buffer);
      var next := P.TagNext(KEY_BLOCK, t);
      if !next {
        return Err(InvalidKmipEncoding);
      }
      keyBlock :- NewKeyBlock(t);
      r := Ok(());
    }

    /** The fields and the state that a write produces: those of the wire format,
        but for the key block, which has the layout of its own attributes. */
    ghost function Fields(): (fs: seq<Field>)
      reads this, keyBlock
      reads if keyBlock == null then null else keyBlock.keyValue
      reads if keyBlock == null || keyBlock.keyValue == null then [] else keyBlock.keyValue.attributes
    {
      SPLIT_KEY_FIELDS[5 := Field(KEY_BLOCK, if keyBlock == null then KEY_BLOCK_K else keyBlock.Layout(),
                                  Mandatory(InvalidKmipEncoding))]
    }

    ghost function FlatSlots(): (slots: seq<Slot>)
      reads this, keyBlock
      reads if keyBlock == null then null else keyBlock.keyValue
      reads if keyBlock == null || keyBlock.keyValue == null then [] else keyBlock.keyValue.attributes
      reads if keyBlock == null then null else keyBlock.keyWrappingData
      reads if keyBlock == null || keyBlock.keyWrappingData == null
        then null else keyBlock.keyWrappingData.encryptionKeyInformation
      reads if keyBlock == null || keyBlock.keyWrappingData == null
        then null else keyBlock.keyWrappingData.macSignatureKeyInformation
      reads if keyBlock == null || keyBlock.keyWrappingData == null
            || keyBlock.keyWrappingData.encryptionKeyInformation == null
        then null else keyBlock.keyWrappingData.encryptionKeyInformation.cryptographicParameters
      reads if keyBlock == null || keyBlock.keyWrappingData == null
            || keyBlock.keyWrappingData.macSignatureKeyInformation == null
        then null else keyBlock.keyWrappingData.macSignatureKeyInformation.cryptographicParameters
      ensures |slots| == 6
    {
      Slots()[5 := if keyBlock == null then Absent else One(keyBlock.Flat())]
    }

    ghost predicate Matched()
      reads this, keyBlock
      reads if keyBlock == null then null else keyBlock.keyValue
      reads if keyBlock == null || keyBlock.keyValue == null then [] else keyBlock.keyValue.attributes
    {
      keyBlock != null ==> keyBlock.Matched()
    }

    lemma MatchedLayout()
      requires Matched()
      ensures Alike(SPLIT_KEY, StructK(Fields()), Struct(FlatSlots()), SPLIT_KEY_K, Struct(Slots()))
    {
      hide Alike, AlikeSlots, KeyBlock.Matched, KeyBlock.Layout, KeyBlock.Flat, KeyBlock.View;
      hide KEY_BLOCK_K, SPLIT_KEY_FIELDS;
      SplitKeyFields();
      var f, slot := Fields()[5], FlatSlots()[5];
      if keyBlock == null {
        AlikeNone(f, SPLIT_KEY_FIELDS[5]);
      } else {
        keyBlock.MatchedLayout();
        AlikeOne(f, keyBlock.Flat(), SPLIT_KEY_FIELDS[5], keyBlock.View());
      }
      AlikeUpdate(SPLIT_KEY, SPLIT_KEY_FIELDS, Slots(), 5, f, slot);
    }

    lemma LastOfSix()
      ensures |Fields()| == 6
      ensures Fields()[5].tag == KEY_BLOCK && Fields()[5].mode == Mandatory(InvalidKmipEncoding)
      ensures keyBlock == null ==> FlatSlots()[5] == Absent
      ensures keyBlock != null ==> Fields()[5].kind == keyBlock.Layout() && FlatSlots()[5] == One(keyBlock.Flat())
      ensures Complete(FlatSlots()) <==> Complete(Slots())
    {
      hide KeyBlock.Layout, KeyBlock.Flat, KeyBlock.View, KEY_BLOCK_K, SPLIT_KEY_FIELDS;
      SplitKeyFields();
    }

    method WriteNumbers(t: BytearrayStream, ghost fs: seq<Field>, ghost slots: seq<Slot>) returns (r: Result<()>)
      requires Valid() && fs == Fields() && slots == FlatSlots() && Written(fs, slots, 0, t.buffer)
      modifies t
      ensures r.Ok? ==> Written(fs, slots, 5, t.buffer) && Complete(slots)
      ensures r.Err? ==> !(Writable(StructK(fs), Struct(slots)) && Complete(slots))
    {
      hide Writable, Written, HeldOption, SPLIT_KEY_FIELDS, KEY_BLOCK_K;
      hide KeyBlock.Valid, KeyBlock.View, KeyBlock.Layout, KeyBlock.Flat;
      SplitKeyFields();
      assert |fs| == 6 && forall i :: 0 <= i < 5 ==> fs[i] == SPLIT_KEY_FIELDS[i] && slots[i] == Slots()[i];
      var _ :- WriteNext(t, Field(SPLIT_KEY_PARTS, IntegerK, Mandatory(InvalidKmipEncoding)),
                         splitKeyParts, fs, slots, 0);
      var _ :- WriteNext(t, Field(KEY_PART_IDENTIFIER, IntegerK, Mandatory(InvalidKmipEncoding)),
                         keyPartIdentifier, fs, slots, 1);
      var _ :- WriteNext(t, Field(SPLIT_KEY_THRESHOLD, IntegerK, Mandatory(InvalidKmipEncoding)),
                         splitKeyThreshold, fs, slots, 2);
      var _ :- WriteNext(t, Field(SPLIT_KEY_METHOD, EnumerationK(SplitKeyMethods), Mandatory(InvalidKmipEncoding)),
                         splitKeyMethod, fs, slots, 3);
      if primeFieldSize.None? && splitKeyMethod == Some(Num(POLYNOMIAL_SHARING_PRIME_FIELD)) {
        return Err(InvalidField);
      }
      r := WriteNext(t, Field(PRIME_FIELD_SIZE, BigIntegerK, Optional), primeFieldSize, fs, slots, 4);
    }

    method WriteKeyBlock(t: BytearrayStream, ghost fs: seq<Field>, ghost slots: seq<Slot>) returns (r: Result<()>)
      requires Valid() && fs == Fields() && slots == FlatSlots() && Written(fs, slots, 5, t.buffer)
      modifies t
      ensures r.Ok? ==> Written(fs, slots, 6, t.buffer)
      ensures r.Err? ==> !Writable(StructK(fs), Struct(slots))
    {
      hide Encode, Writable, Written, Numbers, Fields, FlatSlots, Complete, KeyBlock.Valid;
      hide KeyBlock.Layout, KeyBlock.Flat, SPLIT_KEY_FIELDS, KEY_BLOCK_K;
      LastOfSix();
      WrittenNext(fs, slots, 5, t.buffer);
      if keyBlock == null {
        return Err(InvalidField);
      }
      r := keyBlock.Write(t);
    }

    method Write(ostream: BytearrayStream) returns (r: Result<()>)
      requires Valid()
      modifies ostream
      ensures r.Ok? <==> Writable(StructK(Fields()), Struct(FlatSlots())) && Complete(Slots())
      ensures r.Ok? ==>
        ostream.buffer == old(ostream.buffer) + Encode(SPLIT_KEY, StructK(Fields()), Struct(FlatSlots()))
      ensures Matched() ==>
        && (r.Ok? <==> WritableSplitKey(Slots()))
        && (r.Ok? ==> ostream.buffer == old(ostream.buffer) + Encode(SPLIT_KEY, SPLIT_KEY_K, Struct(Slots())))
    {
      hide Encode, Writable, Written, Valid, Fields, FlatSlots, Slots, Matched, Complete;
      hide KeyBlock.Layout, KeyBlock.Flat, SPLIT_KEY_FIELDS, KEY_BLOCK_K;
      if Matched() {
        MatchedLayout();
      }
      LastOfSix();
      ghost var fs, slots := Fields(), FlatSlots();
      var t := new BytearrayStream([]);
      WrittenNothing(fs, slots);
      var _ :- WriteNumbers(t, fs, slots);
      var _ :- WriteKeyBlock(t, fs, slots);
      r := WriteStruct(ostream, SPLIT_KEY, t, fs, slots);
    }
  }
}
