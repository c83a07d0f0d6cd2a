/** Keys and structures as they stand on the wire: an independent description of
    their bytes, with the tag and type numbers of section 9.1 of the KMIP 1.1
    specification, and the proof that this is what the codec writes. */
module WireImage {
  import opened Wrappers
  import opened Bytes
  import opened Enums
  import opened Ttlv
  import opened Schemas
  import opened PieKeys
  import opened Factory
  import P = Primitives

  // ---- items

  /** A primitive: tag, type, length, value and zeros up to the next whole word. */
  function Item(tag: Tag, typ: byte, value: seq<byte>): seq<byte> {
    PackU(3, tag) + [typ] + PackU(4, |value|) + value + Zeros((8 - |value| % 8) % 8)
  }

  function Structure(tag: Tag, parts: seq<seq<byte>>): seq<byte> {
    PackU(3, tag) + [1] + PackU(4, |Concat(parts)|) + Concat(parts)
  }

  /** A value of a dictionary. What is None is left out. */
  function Shown(tag: Tag, v: Py): seq<byte> {
    match v
    case Nothing => []
    case Member(_, n) => if n >= 0 then Item(tag, 5, PackU(4, n)) else []
    case Bool(b) => Item(tag, 6, [0, 0, 0, 0, 0, 0, 0, if b then 1 else 0])
    case Int(n) => if -0x8000_0000 <= n < 0x8000_0000 then Item(tag, 2, PackS(4, n)) else []
    case Str(s) => Item(tag, 7, AsciiBytes(s))
    case Binary(bs) => Item(tag, 8, bs)
    case Dictionary(_) => []
  }

  // ---- the key wrapping data dictionary

  function ParametersParts(d: Dict, group: Name): (parts: seq<seq<byte>>)
    ensures |parts| == 13
  {
    [Shown(0x420011, Lookup(d, [group, CryptographicParameters, BlockCipherMode])),
     Shown(0x42005F, Lookup(d, [group, CryptographicParameters, PaddingMethod])),
     Shown(0x420038, Lookup(d, [group, CryptographicParameters, HashingAlgorithm])),
     Shown(0x420083, Lookup(d, [group, CryptographicParameters, KeyRoleType])),
     Shown(0x4200AE, Lookup(d, [group, CryptographicParameters, DigitalSignatureAlgorithm])),
     Shown(0x420028, Lookup(d, [group, CryptographicParameters, CryptographicAlgorithm])),
     Shown(0x4200C5, Lookup(d, [group, CryptographicParameters, RandomIv])),
     Shown(0x4200CD, Lookup(d, [group, CryptographicParameters, IvLength])),
     Shown(0x4200CE, Lookup(d, [group, CryptographicParameters, TagLength])),
     Shown(0x4200CF, Lookup(d, [group, CryptographicParameters, FixedFieldLength])),
     Shown(0x4200D2, Lookup(d, [group, CryptographicParameters, InvocationFieldLength])),
     Shown(0x4200D0, Lookup(d, [group, CryptographicParameters, CounterLength])),
     Shown(0x4200D1, Lookup(d, [group, CryptographicParameters, InitialCounterValue]))]
  }

  function InformationImage(tag: Tag, d: Dict, group: Name): seq<byte> {
    if !Truthy(Lookup(d, [group])) then []
    else
      Structure(tag, [
        Shown(0x420094, Lookup(d, [group, UniqueIdentifier])),
        if Truthy(Lookup(d, [group, CryptographicParameters])) then Structure(0x42002B, ParametersParts(d, group))
        else []])
  }

  function WrappingImage(d: Dict): seq<byte> {
    if d == map[] then [] else Structure(0x420046, WrappingParts(d))
  }

  function WrappingParts(d: Dict): (parts: seq<seq<byte>>)
    ensures |parts| == 6
  {
    [Shown(0x42009E, Lookup(d, [WrappingMethod])),
     InformationImage(0x420036, d, EncryptionKeyInformation),
     InformationImage(0x42004E, d, MacSignatureKeyInformation),
     Shown(0x42004D, Lookup(d, [MacSignature])),
     Shown(0x42003D, Lookup(d, [IvCounterNonce])),
     Shown(0x4200A3, Lookup(d, [EncodingOption]))]
  }

  // ---- keys

  function KeyTag(cls: KeyClass): Tag {
    match cls
    case SymmetricKey => 0x42008F
    case PublicKey => 0x42006D
    case PrivateKey => 0x420064
  }

  /** The key with the dictionary that its getter shows. */
  function KeyImage(k: PieKey, d: Dict): seq<byte> {
    Structure(KeyTag(k.cls), [Structure(0x420040, BlockParts(k, WrappingImage(d)))])
  }

  function BlockParts(k: PieKey, wrapping: seq<byte>): seq<seq<byte>> {
    [Shown(0x420042, Member(KeyFormatTypes, k.format)),
     Structure(0x420045, [Item(0x420043, 8, k.value)]),
     Shown(0x420028, Member(CryptographicAlgorithms, k.algorithm)),
     Shown(0x42002A, Int(k.length)),
     wrapping]
  }

  // ---- the codec writes these images

  /** Nothing in between adds nothing. */
  lemma {:induction false} ConcatSkips(before: seq<seq<byte>>, after: seq<seq<byte>>)
    ensures Concat(before + [[]] + after) == Concat(before + after)
  {
    if before == [] {
      assert before + [[]] + after == [[]] + after && before + after == after;
      assert ([[]] + after)[1..] == after;
      assert [] + Concat(after) == Concat(after);
    } else {
      assert (before + [[]] + after)[1..] == before[1..] + [[]] + after;
      assert (before + after)[1..] == before[1..] + after;
      ConcatSkips(before[1..], after);
    }
  }

  lemma {:induction false} FieldsInOrder(fs: seq<Field>, slots: seq<Slot>, parts: seq<seq<byte>>)
    requires |fs| == |slots| == |parts|
    requires forall i :: 0 <= i < |fs| ==> EncodeSlot(fs[i], slots[i]) == parts[i]
    ensures EncodeFields(fs, slots) == Concat(parts)
  {
    hide EncodeSlot;
    if fs != [] {
      FieldsInOrder(fs[1..], slots[1..], parts[1..]);
    }
  }

  /** A structure is its header and its parts, in the order of its fields. */
  lemma StructureInOrder(tag: Tag, fs: seq<Field>, slots: seq<Slot>, parts: seq<seq<byte>>)
    requires |fs| == |slots| == |parts|
    requires forall i :: 0 <= i < |fs| ==> EncodeSlot(fs[i], slots[i]) == parts[i]
    ensures Encode(tag, StructK(fs), Struct(slots)) == Structure(tag, parts)
  {
    hide EncodeSlot, PackU, Concat, PrimitiveBody;
    FieldsInOrder(fs, slots, parts);
    var body := Body(StructK(fs), Struct(slots));
    assert body == EncodeFields(fs, slots);
    assert body + Zeros(0) == body;
  }

  lemma BoolBytes(b: bool)
    ensures PackU(8, if b then 1 else 0) == [0, 0, 0, 0, 0, 0, 0, if b then 1 else 0]
  {
    NoHighBytes(7);
  }

  lemma NoHighBytes(n: nat)
    ensures PackU(n, 0) == Zeros(n)
  {
    if n > 0 {
      NoHighBytes(n - 1);
    }
  }

  /** A field that a setter accepted is written as the value it was set to. */
  lemma FieldShown(f: Field, v: Py, slot: Slot)
    requires FieldOf(f.kind, v) == Ok(slot)
    ensures EncodeSlot(f, slot) == Shown(f.tag, v)
  {
    hide PackU, Radix, Encode;
    BoolBytes(true);
    BoolBytes(false);
    if slot.One? {
      P.PrimitiveWrite(f.tag, f.kind, slot.v);
      P.SignedBounds();
      FieldValue(f.kind, v, slot);
    }
  }

  /** The type, the bytes and the padding of the value. */
  lemma FieldValue(kind: Kind, v: Py, slot: Slot)
    requires FieldOf(kind, v) == Ok(slot) && slot.One?
    ensures !kind.StructK? && !kind.AttributeK?
    ensures var body := PrimitiveBody(kind, slot.v);
      Padding(kind, slot.v) == (8 - |body| % 8) % 8 && (kind.BooleanK? ==> slot.v == Flag(v.b, |body|))
  {
    hide PackU, Radix;
    P.SignedBounds();
  }

  lemma ParameterPart(p: Parameters, d: Dict, group: Name, i: nat)
    requires i < 13 && Parameterised(p, d, group)
    ensures ParametersParts(d, group)[i] == Shown(CRYPTOGRAPHIC_PARAMETERS_FIELDS[i].tag, At(p, i))
  {
    ParameterFields();
    hide CRYPTOGRAPHIC_PARAMETERS_FIELDS, Lookup, Shown;
  }

  lemma ParametersBytes(p: Parameters, v: Value, d: Dict, group: Name)
    requires Typed(p) && BuildParameters(ToDict(p)) == Ok(v) && Parameterised(p, d, group)
    ensures Encode(0x42002B, CRYPTOGRAPHIC_PARAMETERS_K, v) == Structure(0x42002B, ParametersParts(d, group))
  {
    ParametersShape(p, v);
    ParameterKinds();
    hide CRYPTOGRAPHIC_PARAMETERS_FIELDS, Typed, BuildParameters, ToDict, Parameterised, FieldOf, KindAt, At;
    hide ParametersParts, Encode, EncodeSlot, Structure, Shown;
    var fs, parts := CRYPTOGRAPHIC_PARAMETERS_FIELDS, ParametersParts(d, group);
    forall i | 0 <= i < 13 ensures EncodeSlot(fs[i], v.slots[i]) == parts[i] {
      FieldShown(fs[i], At(p, i), v.slots[i]);
      ParameterPart(p, d, group, i);
    }
    StructureInOrder(0x42002B, fs, v.slots, parts);
  }

  /** A key information that the getter shows. */
  lemma InformationBytes(f: Field, g: Group, slot: Slot, d: Dict, group: Name)
    requires f.kind == KEY_INFORMATION_K && IsGroupSlot(g, slot)
    requires HoldsSomething(g) ==> TypedInformation(g)
    requires Get(d, group) == Dictionary(InformationDict(g))
    ensures EncodeSlot(f, slot) == InformationImage(f.tag, d, group)
  {
    InformationDictNormal(g);
    LookupTwo(d, group, UniqueIdentifier);
    LookupTwo(d, group, CryptographicParameters);
    if HoldsSomething(g) {
      InformationParts(g);
      ParametersDictNormal(g.parameters);
      InformationHeld(f, g, slot, d, group);
    }
    hide InformationDict, ParametersDict, IsInformationOf, Lookup, Structure, Shown, ParametersParts, AnyParameter;
    hide IsNormalInformation, IsNormalParameters, TypedInformation, KEY_INFORMATION_FIELDS, Encode;
  }

  lemma InformationHeld(f: Field, g: Group, slot: Slot, d: Dict, group: Name)
    requires f.kind == KEY_INFORMATION_K && IsInformationOf(g, slot) && TypedInformation(g)
    requires Get(d, group) == Dictionary(InformationDict(g)) && InformationDict(g) != map[]
    ensures EncodeSlot(f, slot) == Structure(f.tag, [
      Shown(0x420094, g.uniqueIdentifier),
      if AnyParameter(g.parameters) then Structure(0x42002B, ParametersParts(d, group)) else []])
  {
    GroupShown(g, d, group);
    var fs, slots := KEY_INFORMATION_FIELDS, slot.v.slots;
    assert fs[0] == Field(0x420094, TextStringK, Mandatory(ValueError));
    assert fs[1] == Field(0x42002B, CRYPTOGRAPHIC_PARAMETERS_K, Optional);
    FieldShown(fs[0], g.uniqueIdentifier, slots[0]);
    hide KEY_INFORMATION_FIELDS, CRYPTOGRAPHIC_PARAMETERS_FIELDS, InformationDict, Typed, BuildParameters, ToDict;
    hide AnyParameter, FieldOf, Encode, Structure, Shown, ParametersParts, Lookup, Parameterised;
    if AnyParameter(g.parameters) {
      ParametersBytes(g.parameters, slots[1].v, d, group);
    }
    StructureInOrder(f.tag, fs, slots, [
      Shown(0x420094, g.uniqueIdentifier),
      if AnyParameter(g.parameters) then Structure(0x42002B, ParametersParts(d, group)) else []]);
  }

  lemma TopLevel(c: Columns)
    requires AnyColumn(c)
    ensures var d := WrappingDict(c);
      && d != map[]
      && Lookup(d, [WrappingMethod]) == c.wrappingMethod && Lookup(d, [MacSignature]) == c.macSignature
      && Lookup(d, [IvCounterNonce]) == c.ivCounterNonce && Lookup(d, [EncodingOption]) == c.encodingOption
      && Get(d, EncryptionKeyInformation) == Dictionary(InformationDict(c.encryption))
      && Get(d, MacSignatureKeyInformation) == Dictionary(InformationDict(c.macSignatureKey))
  {
    AllShown(c);
    hide AnyParameter, InformationDict, Parameterised;
  }

  lemma WrappingBytes(c: Columns, v: Value)
    requires AnyColumn(c) && TypedWrapping(c) && IsWrappingDataOf(c, v)
    ensures Encode(0x420046, KEY_WRAPPING_DATA_K, v) == WrappingImage(WrappingDict(c))
  {
    hide KEY_WRAPPING_DATA_FIELDS, KEY_INFORMATION_FIELDS, WrappingDict, InformationDict, AnyColumn, Lookup, Get;
    hide TypedInformation, HoldsSomething, IsGroupSlot, FieldOf, Encode, EncodeSlot, InformationImage, Shown, Structure;
    TopLevel(c);
    var d, fs, slots := WrappingDict(c), KEY_WRAPPING_DATA_FIELDS, v.slots;
    WrappingFields();
    FieldShown(fs[0], c.wrappingMethod, slots[0]);
    InformationBytes(fs[1], c.encryption, slots[1], d, EncryptionKeyInformation);
    InformationBytes(fs[2], c.macSignatureKey, slots[2], d, MacSignatureKeyInformation);
    FieldShown(fs[3], c.macSignature, slots[3]);
    FieldShown(fs[4], c.ivCounterNonce, slots[4]);
    FieldShown(fs[5], c.encodingOption, slots[5]);
    StructureInOrder(0x420046, fs, slots, WrappingParts(d));
  }

  lemma MaterialBytes(material: seq<byte>)
    ensures Encode(0x420045, KEY_VALUE_K, Struct([One(Octets(material)), Many([])]))
         == Structure(0x420045, [Item(0x420043, 8, material)])
  {
    var fs, slots := KEY_VALUE_FIELDS, [One(Octets(material)), Many([])];
    var item := Item(0x420043, 8, material);
    assert fs[0] == Field(0x420043, ByteStringK, Required) by {
      hide ATTRIBUTE_KINDS;
    }
    FieldShown(fs[0], Binary(material), slots[0]);
    assert EncodeSlot(fs[1], slots[1]) == [];
    hide KEY_VALUE_FIELDS, Encode, EncodeSlot, Item;
    StructureInOrder(0x420045, fs, slots, [item, []]);
    ConcatSkips([item], []);
    assert [item] + [[]] + [] == [item, []] && [item] + [] == [item];
  }

  lemma BlockFieldBytes(k: PieKey, wrapping: Slot)
    requires IsMember(CryptographicAlgorithms, k.algorithm) && IsMember(KeyFormatTypes, k.format)
    requires P.Integer.InRange(k.length)
    ensures var fs, slots := KEY_BLOCK_FIELDS, CoreKey(k, wrapping).slots[0].v.slots;
      && |fs| == |slots| == 6
      && EncodeSlot(fs[0], slots[0]) == Shown(0x420042, Member(KeyFormatTypes, k.format))
      && EncodeSlot(fs[1], slots[1]) == []
      && EncodeSlot(fs[2], slots[2]) == Structure(0x420045, [Item(0x420043, 8, k.value)])
      && EncodeSlot(fs[3], slots[3]) == Shown(0x420028, Member(CryptographicAlgorithms, k.algorithm))
      && EncodeSlot(fs[4], slots[4]) == Shown(0x42002A, Int(k.length))
      && slots[5] == wrapping && fs[5] == Field(0x420046, KEY_WRAPPING_DATA_K, Optional)
  {
    var fs, slots := KEY_BLOCK_FIELDS, CoreKey(k, wrapping).slots[0].v.slots;
    KeyBlockFields();
    MemberField(KeyFormatTypes, k.format);
    MemberField(CryptographicAlgorithms, k.algorithm);
    NumberField(k.length);
    MaterialBytes(k.value);
    hide KEY_BLOCK_FIELDS, KEY_VALUE_FIELDS, KEY_WRAPPING_DATA_FIELDS, FieldOf, Encode, Shown, Structure, Item;
    FieldShown(fs[0], Member(KeyFormatTypes, k.format), slots[0]);
    FieldShown(fs[3], Member(CryptographicAlgorithms, k.algorithm), slots[3]);
    FieldShown(fs[4], Int(k.length), slots[4]);
  }

  lemma BlockBytes(k: PieKey, wrapping: Slot, image: seq<byte>)
    requires IsMember(CryptographicAlgorithms, k.algorithm) && IsMember(KeyFormatTypes, k.format)
    requires P.Integer.InRange(k.length)
    requires EncodeSlot(Field(0x420046, KEY_WRAPPING_DATA_K, Optional), wrapping) == image
    ensures Encode(0x420040, KEY_BLOCK_K, CoreKey(k, wrapping).slots[0].v) == Structure(0x420040, BlockParts(k, image))
  {
    hide KEY_BLOCK_FIELDS, KEY_VALUE_FIELDS, KEY_WRAPPING_DATA_FIELDS, Encode, EncodeSlot, Shown, Structure, Item;
    BlockFieldBytes(k, wrapping);
    var fs, slots, parts := KEY_BLOCK_FIELDS, CoreKey(k, wrapping).slots[0].v.slots, BlockParts(k, image);
    StructureInOrder(0x420040, fs, slots, parts[..1] + [[]] + parts[1..]);
    SkipsNothing(0x420040, parts[..1], parts[1..]);
    assert parts[..1] + parts[1..] == parts;
  }

  lemma SkipsNothing(tag: Tag, before: seq<seq<byte>>, after: seq<seq<byte>>)
    ensures Structure(tag, before + [[]] + after) == Structure(tag, before + after)
  {
    ConcatSkips(before, after);
  }

  /** What a client key is on the wire, bit for bit, in terms of the dictionary that
      its getter shows: whatever its class, format, length, value and wrapping data. */
  lemma ShippedBytes(k: PieKey)
    requires Valid(k) && BuildCoreKey(k).Ok?
    ensures Encode(TagOf(k.cls), KEY_K, BuildCoreKey(k).value) == KeyImage(k, WrappingDict(k.wrapping))
  {
    hide KEY_BLOCK_FIELDS, KEY_WRAPPING_DATA_FIELDS, WrappingDict, WrappingImage, BuildWrapping, Encode, Structure;
    hide BlockParts;
    var d, core := WrappingDict(k.wrapping), BuildCoreKey(k).value;
    var wrapping := if d == map[] then Absent else One(BuildWrapping(d).value);
    WrappingSlotBytes(k.wrapping);
    assert core == CoreKey(k, wrapping) && core.slots == [One(core.slots[0].v)];
    BlockBytes(k, wrapping, WrappingImage(d));
    assert KEY_FIELDS[0] == Field(0x420040, KEY_BLOCK_K, Required);
    StructureInOrder(TagOf(k.cls), KEY_FIELDS, core.slots, [Encode(0x420040, KEY_BLOCK_K, core.slots[0].v)]);
  }

  lemma WrappingSlotBytes(c: Columns)
    requires WrappingDict(c) == map[] || BuildWrapping(WrappingDict(c)).Ok?
    ensures var d := WrappingDict(c);
      EncodeSlot(Field(0x420046, KEY_WRAPPING_DATA_K, Optional),
                 if d == map[] then Absent else One(BuildWrapping(d).value)) == WrappingImage(d)
  {
    WrappingDictNormal(c);
    hide KEY_WRAPPING_DATA_FIELDS, WrappingDict, BuildWrapping, AnyColumn, IsNormal, TypedWrapping, IsWrappingDataOf;
    hide Encode, WrappingParts, Structure;
    if WrappingDict(c) != map[] {
      WrappingBuilt(c);
      WrappingBytes(c, BuildWrapping(WrappingDict(c)).value);
    }
  }

  /** And whoever reads that image has the key again, if it is sendable. */
  lemma ImageRead(k: PieKey)
    requires Valid(k) && Sendable(k)
    ensures var d := Decode(KeyTag(k.cls), KEY_K, KeyImage(k, WrappingDict(k.wrapping)));
      && d.Ok? && BuildPieKey(k.cls, d.value.0).Ok?
      && SameKey(BuildPieKey(k.cls, d.value.0).value, k)
  {
    hide KEY_BLOCK_FIELDS, Sendable, BuildCoreKey, Encode, Decode, Writable, KeyImage, WrappingDict;
    hide BuildPieKey, SameKey;
    KeyArrives(k);
    ShippedBytes(k);
  }

  // ---- other structures, part by part

  lemma NameBytes(value: Value, typ: Value)
    ensures Encode(0x420053, NAME_K, Struct([One(value), One(typ)]))
         == Structure(0x420053, [Encode(0x420055, TextStringK, value), Encode(0x420054, EnumerationK(NameTypes), typ)])
  {
    hide Encode, Structure;
    StructureInOrder(0x420053, NAME_K.fields, [One(value), One(typ)],
                     [Encode(0x420055, TextStringK, value), Encode(0x420054, EnumerationK(NameTypes), typ)]);
  }

  lemma DigestBytes(tag: Tag, algorithm: Value, value: Value, format: Value)
    ensures Encode(tag, DIGEST_K, Struct([One(algorithm), One(value), One(format)]))
         == Structure(tag, [
              Encode(0x420038, EnumerationK(HashingAlgorithms), algorithm),
              Encode(0x420035, ByteStringK, value),
              Encode(0x420042, EnumerationK(KeyFormatTypes), format)])
  {
    hide Encode, Structure;
    StructureInOrder(tag, DIGEST_K.fields, [One(algorithm), One(value), One(format)], [
      Encode(0x420038, EnumerationK(HashingAlgorithms), algorithm),
      Encode(0x420035, ByteStringK, value),
      Encode(0x420042, EnumerationK(KeyFormatTypes), format)]);
  }

  lemma ApplicationSpecificInformationBytes(tag: Tag, namespace: Value, data: Value)
    ensures Encode(tag, APPLICATION_SPECIFIC_INFORMATION_K, Struct([One(namespace), One(data)]))
         == Structure(tag, [Encode(0x420003, TextStringK, namespace), Encode(0x420002, TextStringK, data)])
  {
    hide Encode, Structure;
    StructureInOrder(tag, APPLICATION_SPECIFIC_INFORMATION_K.fields, [One(namespace), One(data)],
                     [Encode(0x420003, TextStringK, namespace), Encode(0x420002, TextStringK, data)]);
  }

  /** What is there of an optional part. */
  function Part(tag: Tag, kind: Kind, slot: Slot): seq<byte> {
    match slot
    case One(v) => Encode(tag, kind, v)
    case _ => []
  }

  function Parts(tag: Tag, kind: Kind, vs: seq<Value>): seq<byte> {
    if vs == [] then [] else Encode(tag, kind, vs[0]) + Parts(tag, kind, vs[1..])
  }

  lemma PartOfSlot(f: Field, slot: Slot)
    requires !slot.Many?
    ensures EncodeSlot(f, slot) == Part(f.tag, f.kind, slot)
  {
    hide Encode;
  }

  lemma {:induction false} PartsOfMany(f: Field, vs: seq<Value>)
    ensures EncodeMany(f, vs) == Parts(f.tag, f.kind, vs)
  {
    hide Encode;
    if vs != [] {
      PartsOfMany(f, vs[1..]);
    }
  }

  lemma CredentialBytes(tag: Tag, slots: seq<Slot>)
    requires |slots| == 6 && forall i :: 0 <= i < 6 ==> !slots[i].Many?
    ensures Encode(tag, DEVICE_CREDENTIAL_K, Struct(slots))
         == Structure(tag, [
              Part(0x4200B0, TextStringK, slots[0]),  // serial number
              Part(0x4200A1, TextStringK, slots[1]),  // password
              Part(0x4200A2, TextStringK, slots[2]),  // device
              Part(0x4200AB, TextStringK, slots[3]),  // network
              Part(0x4200A9, TextStringK, slots[4]),  // machine
              Part(0x4200AA, TextStringK, slots[5])]) // media
  {
    hide Encode, EncodeSlot, Structure, Part;
    var fs := DEVICE_CREDENTIAL_K.fields;
    forall i | 0 <= i < 6 ensures EncodeSlot(fs[i], slots[i]) == Part(fs[i].tag, TextStringK, slots[i]) {
      PartOfSlot(fs[i], slots[i]);
    }
    StructureInOrder(tag, fs, slots, [
      Part(0x4200B0, TextStringK, slots[0]), Part(0x4200A1, TextStringK, slots[1]),
      Part(0x4200A2, TextStringK, slots[2]), Part(0x4200AB, TextStringK, slots[3]),
      Part(0x4200A9, TextStringK, slots[4]), Part(0x4200AA, TextStringK, slots[5])]);
  }

  lemma SpecificationBytes(slots: seq<Slot>, names: seq<Value>)
    requires |slots| == 5 && slots[3] == Many(names)
    requires !slots[0].Many? && !slots[1].Many? && !slots[2].Many? && !slots[4].Many?
    ensures Encode(0x420047, KEY_WRAPPING_SPECIFICATION_K, Struct(slots))
         == Structure(0x420047, [
              Part(0x42009E, EnumerationK(WrappingMethods), slots[0]),
              Part(0x420036, KEY_INFORMATION_K, slots[1]),
              Part(0x42004E, KEY_INFORMATION_K, slots[2]),
              Parts(0x42000A, TextStringK, names),
              Part(0x4200A3, EnumerationK(EncodingOptions), slots[4])])
  {
    hide Encode, Structure, Part, EncodeMany, Parts, KEY_INFORMATION_FIELDS;
    var fs := KEY_WRAPPING_SPECIFICATION_FIELDS;
    PartOfSlot(fs[0], slots[0]);
    PartOfSlot(fs[1], slots[1]);
    PartOfSlot(fs[2], slots[2]);
    PartsOfMany(fs[3], names);
    PartOfSlot(fs[4], slots[4]);
    StructureInOrder(0x420047, fs, slots, [
      Part(0x42009E, EnumerationK(WrappingMethods), slots[0]), Part(0x420036, KEY_INFORMATION_K, slots[1]),
      Part(0x42004E, KEY_INFORMATION_K, slots[2]), Parts(0x42000A, TextStringK, names),
      Part(0x4200A3, EnumerationK(EncodingOptions), slots[4])]);
  }

  lemma SplitKeyBytes(slots: seq<Slot>)
    requires |slots| == 6 && forall i :: 0 <= i < 6 ==> !slots[i].Many?
    ensures Encode(0x420089, SPLIT_KEY_K, Struct(slots))
         == Structure(0x420089, [
              Part(0x42008B, IntegerK, slots[0]),                       // parts
              Part(0x420044, IntegerK, slots[1]),                       // identifier
              Part(0x42008C, IntegerK, slots[2]),                       // threshold
              Part(0x42008A, EnumerationK(SplitKeyMethods), slots[3]),
              Part(0x420062, BigIntegerK, slots[4]),                    // prime field size
              Part(0x420040, KEY_BLOCK_K, slots[5])])
  {
    hide Encode, Structure, Part, EncodeSlot, KEY_BLOCK_K;
    var fs := SPLIT_KEY_FIELDS;
    PartOfSlot(fs[0], slots[0]);
    PartOfSlot(fs[1], slots[1]);
    PartOfSlot(fs[2], slots[2]);
    PartOfSlot(fs[3], slots[3]);
    PartOfSlot(fs[4], slots[4]);
    PartOfSlot(fs[5], slots[5]);
    StructureInOrder(0x420089, fs, slots, [
      Part(0x42008B, IntegerK, slots[0]), Part(0x420044, IntegerK, slots[1]), Part(0x42008C, IntegerK, slots[2]),
      Part(0x42008A, EnumerationK(SplitKeyMethods), slots[3]), Part(0x420062, BigIntegerK, slots[4]),
      Part(0x420040, KEY_BLOCK_K, slots[5])]);
  }

  /** An attribute, with the layout of its value. */
  lemma AttributeBytes(kind: Kind, slots: seq<Slot>)
    requires |slots| == 3 && forall i :: 0 <= i < 3 ==> !slots[i].Many?
    ensures Encode(0x420008, StructK(AttributeFields(kind)), Struct(slots))
         == Structure(0x420008, [
              Part(0x42000A, TextStringK, slots[0]),
              Part(0x420009, IntegerK, slots[1]),
              Part(0x42000B, kind, slots[2])])
  {
    hide Encode, Structure, Part, EncodeSlot;
    var fs := AttributeFields(kind);
    PartOfSlot(fs[0], slots[0]);
    PartOfSlot(fs[1], slots[1]);
    PartOfSlot(fs[2], slots[2]);
    StructureInOrder(0x420008, fs, slots,
                     [Part(0x42000A, TextStringK, slots[0]), Part(0x420009, IntegerK, slots[1]),
                      Part(0x42000B, kind, slots[2])]);
  }

  lemma TemplateBytes(tag: Tag, names: seq<Value>, attributes: seq<Value>)
    ensures Encode(tag, TEMPLATE_ATTRIBUTE_K, Struct([Many(names), Many(attributes)]))
         == Structure(tag, [Parts(0x420053, NAME_K, names), Parts(0x420008, ATTRIBUTE_K, attributes)])
  {
    hide Encode, Structure, EncodeMany, Parts, ATTRIBUTE_K, NAME_K;
    var fs := TEMPLATE_ATTRIBUTE_FIELDS;
    PartsOfMany(fs[0], names);
    PartsOfMany(fs[1], attributes);
    StructureInOrder(tag, fs, [Many(names), Many(attributes)],
                     [Parts(0x420053, NAME_K, names), Parts(0x420008, ATTRIBUTE_K, attributes)]);
  }

  lemma KeyValueBytes(material: Value, attributes: seq<Value>)
    ensures Encode(0x420045, KEY_VALUE_K, Struct([One(material), Many(attributes)]))
         == Structure(0x420045, [Encode(0x420043, ByteStringK, material), Parts(0x420008, ATTRIBUTE_K, attributes)])
  {
    hide Encode, Structure, EncodeMany, Parts, ATTRIBUTE_K;
    var fs := KEY_VALUE_FIELDS;
    PartsOfMany(fs[1], attributes);
    StructureInOrder(0x420045, fs, [One(material), Many(attributes)],
                     [Encode(0x420043, ByteStringK, material), Parts(0x420008, ATTRIBUTE_K, attributes)]);
  }

  // ---- what may be left out

  /** A structure can be written without this field, and read without it. */
  ghost predicate Omissible(f: Field) {
    WritableSlot(f, Absent) && forall s :: !IsTagNext(f.tag, s) ==> DecodeSlot(f, s) == Ok((Absent, s))
  }

  lemma OmissibleIff(f: Field)
    ensures Omissible(f) <==> f.mode.Optional?
  {
    if f.mode.Optional? {
      forall s | !IsTagNext(f.tag, s) ensures DecodeSlot(f, s) == Ok((Absent, s)) {
      }
    }
  }

  lemma AllOmissible(fs: seq<Field>)
    ensures forall i :: 0 <= i < |fs| ==> (Omissible(fs[i]) <==> fs[i].mode.Optional?)
  {
    hide Omissible;
    forall i | 0 <= i < |fs| ensures Omissible(fs[i]) <==> fs[i].mode.Optional? {
      OmissibleIff(fs[i]);
    }
  }

  /** Of the structures around a key, exactly these fields may not be left out. */
  lemma Omissions()
    ensures forall i :: 0 <= i < 13 ==> Omissible(CRYPTOGRAPHIC_PARAMETERS_FIELDS[i])
    ensures forall i :: 0 <= i < 2 ==> (Omissible(KEY_INFORMATION_FIELDS[i]) <==> i != 0)
    ensures forall i :: 0 <= i < 6 ==> (Omissible(KEY_WRAPPING_DATA_FIELDS[i]) <==> i != 0)
    ensures forall i :: 0 <= i < 6 ==> (Omissible(KEY_BLOCK_FIELDS[i]) <==> i != 0 && i != 2)
    ensures forall i :: 0 <= i < 6 ==> (Omissible(SPLIT_KEY_FIELDS[i]) <==> i == 4)
    ensures !Omissible(KEY_FIELDS[0]) && !Omissible(KEY_VALUE_FIELDS[0])
    ensures forall kind, i :: 0 <= i < 3 ==> (Omissible(AttributeFields(kind)[i]) <==> i == 1)
  {
    hide Omissible, ATTRIBUTE_KINDS;
    AllOmissible(CRYPTOGRAPHIC_PARAMETERS_FIELDS);
    AllOmissible(KEY_INFORMATION_FIELDS);
    AllOmissible(KEY_WRAPPING_DATA_FIELDS);
    AllOmissible(KEY_BLOCK_FIELDS);
    AllOmissible(SPLIT_KEY_FIELDS);
    AllOmissible(KEY_FIELDS);
    AllOmissible(KEY_VALUE_FIELDS);
    forall kind { AllOmissible(AttributeFields(kind)); }
  }
}
