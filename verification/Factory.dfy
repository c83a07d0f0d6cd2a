/** pie/factory.py: a key of the client library becomes a core key, and back. */
module Factory {
  import opened Wrappers
  import opened Bytes
  import opened Enums
  import opened Ttlv
  import opened TtlvTheorems
  import opened Schemas
  import opened PieKeys
  import P = Primitives

  // ---- client keys

  datatype KeyClass = SymmetricKey | PublicKey | PrivateKey

  function TagOf(cls: KeyClass): Tag {
    match cls
    case SymmetricKey => SYMMETRIC_KEY
    case PublicKey => PUBLIC_KEY
    case PrivateKey => PRIVATE_KEY
  }

  datatype PieKey = PieKey(
    cls: KeyClass,
    algorithm: int,
    length: int,
    value: seq<byte>,
    format: int,
    wrapping: Columns)

  predicate ValidFormat(cls: KeyClass, format: int) {
    match cls
    case SymmetricKey => true
    case PublicKey => format in {RAW, X_509, PKCS_1}
    case PrivateKey => format in {RAW, PKCS_1, PKCS_8}
  }

  /** What validate checks: enumeration members, a format that suits the class, and
      for a symmetric key that is not wrapped the length of its value. */
  predicate Valid(k: PieKey) {
    && IsMember(CryptographicAlgorithms, k.algorithm) && IsMember(KeyFormatTypes, k.format)
    && ValidFormat(k.cls, k.format)
    && (k.cls.SymmetricKey? && WrappingDict(k.wrapping) == map[] ==> |k.value| * 8 == k.length)
  }

  /** Construction from the parts; it ends with validate. */
  function NewPieKey(cls: KeyClass, algorithm: int, length: int, value: seq<byte>, format: int, wrapping: Py)
    : Result<PieKey>
  {
    var columns :- ColumnsOf(wrapping);
    var k := PieKey(cls, algorithm, length, value, if cls.SymmetricKey? then RAW else format, columns);
    if !IsMember(CryptographicAlgorithms, algorithm) || !IsMember(KeyFormatTypes, k.format) then Err(TypeError)
    else if !Valid(k) then Err(ValueError)
    else Ok(k)
  }

  /** Which keys can be constructed without wrapping data, by the numbers of their
      format: a symmetric key is always raw (1) and as long as it says; a public key
      is raw, X.509 (5) or PKCS#1 (3), a private key raw, PKCS#1 or PKCS#8 (4). */
  lemma Construction(cls: KeyClass, algorithm: int, length: int, value: seq<byte>, format: int)
    ensures var r := NewPieKey(cls, algorithm, length, value, format, Nothing);
      && (r.Ok? <==> 1 <= algorithm <= 56
                     && match cls {
                          case SymmetricKey => length == 8 * |value|
                          case PublicKey => format in {1, 3, 5}
                          case PrivateKey => format in {1, 3, 4}
                        })
      && (r.Ok? ==> r.value.format == if cls.SymmetricKey? then 1 else format)
  {
    LastMembers(algorithm);
    LastMembers(format);
    NothingShown();
    hide ColumnsOf, WrappingDict;
  }

  // ---- single fields

  /** The setter of a core field: None removes it, a value of the right type is
      wrapped, anything else is refused. */
  function FieldOf(kind: Kind, v: Py): Result<Slot> {
    match (kind, v)
    case (_, Nothing) => Ok(Absent)
    case (EnumerationK(cls), Member(c, n)) => if c == cls && IsMember(cls, n) then Ok(One(Num(n))) else Err(TypeError)
    case (BooleanK, Bool(b)) => Ok(One(Flag(b, 8)))
    case (IntegerK, Int(n)) => if P.Integer.InRange(n) then Ok(One(Num(n))) else Err(ValueError)
    case (TextStringK, Str(s)) => Ok(One(Text(s, false)))
    case (ByteStringK, Binary(bs)) => Ok(One(Octets(bs)))
    case (_, _) => Err(TypeError)
  }

  /** The getter of a core field. */
  function ValueOf(kind: Kind, slot: Slot): Py {
    if !slot.One? then Nothing
    else
      match (kind, slot.v)
      case (EnumerationK(cls), Num(n)) => Member(cls, n)
      case (BooleanK, Flag(b, _)) => Bool(b)
      case (IntegerK, Num(n)) => Int(n)
      case (TextStringK, Text(s, _)) => Str(s)
      case (ByteStringK, Octets(bs)) => Binary(bs)
      case (_, _) => Nothing
  }

  lemma FieldBack(kind: Kind, v: Py)
    requires FieldOf(kind, v).Ok?
    ensures ValueOf(kind, AgedSlot(FieldOf(kind, v).value)) == v
    ensures FieldOf(kind, v).value.Absent? <==> v.Nothing?
    ensures FreshSlot(FieldOf(kind, v).value) == FieldOf(kind, v).value && !FieldOf(kind, v).value.Many?
  {
  }

  // ---- cryptographic parameters

  function At(p: Parameters, i: nat): Py
    requires i < 13
  {
    match i
    case 0 => p.blockCipherMode
    case 1 => p.paddingMethod
    case 2 => p.hashingAlgorithm
    case 3 => p.keyRoleType
    case 4 => p.digitalSignatureAlgorithm
    case 5 => p.cryptographicAlgorithm
    case 6 => p.randomIv
    case 7 => p.ivLength
    case 8 => p.tagLength
    case 9 => p.fixedFieldLength
    case 10 => p.invocationFieldLength
    case 11 => p.counterLength
    case _ => p.initialCounterValue
  }

  function KindAt(i: nat): Kind
    requires i < 13
  {
    match i
    case 0 => EnumerationK(BlockCipherModes)
    case 1 => EnumerationK(PaddingMethods)
    case 2 => EnumerationK(HashingAlgorithms)
    case 3 => EnumerationK(KeyRoleTypes)
    case 4 => EnumerationK(DigitalSignatureAlgorithms)
    case 5 => EnumerationK(CryptographicAlgorithms)
    case 6 => BooleanK
    case _ => IntegerK
  }

  /** The first n setters, in the order of the fields. */
  function SetFields(p: Parameters, n: nat): Result<seq<Slot>>
    requires n <= 13
  {
    if n == 0 then Ok([])
    else
      var slots :- SetFields(p, n - 1);
      var slot :- FieldOf(KindAt(n - 1), At(p, n - 1));
      Ok(slots + [slot])
  }

  /** CryptographicParameters(**d) */
  function BuildParameters(d: Dict): Result<Value> {
    if exists name <- d.Keys :: !IsParameter(name) then Err(TypeError)
    else
      var slots :- SetFields(FromDict(d), 13);
      Ok(Struct(slots))
  }

  /** _build_cryptographic_parameters */
  function ParametersOf(slots: seq<Slot>): Parameters
    requires |slots| == 13
  {
    Parameters(
      ValueOf(KindAt(0), slots[0]), ValueOf(KindAt(1), slots[1]), ValueOf(KindAt(2), slots[2]),
      ValueOf(KindAt(3), slots[3]), ValueOf(KindAt(4), slots[4]), ValueOf(KindAt(5), slots[5]),
      ValueOf(KindAt(6), slots[6]), ValueOf(KindAt(7), slots[7]), ValueOf(KindAt(8), slots[8]),
      ValueOf(KindAt(9), slots[9]), ValueOf(KindAt(10), slots[10]), ValueOf(KindAt(11), slots[11]),
      ValueOf(KindAt(12), slots[12]))
  }

  lemma SameParameters(p: Parameters, q: Parameters)
    requires forall i :: 0 <= i < 13 ==> At(p, i) == At(q, i)
    ensures p == q
  {
    assert At(p, 0) == At(q, 0) && At(p, 1) == At(q, 1) && At(p, 2) == At(q, 2) && At(p, 3) == At(q, 3);
    assert At(p, 4) == At(q, 4) && At(p, 5) == At(q, 5) && At(p, 6) == At(q, 6) && At(p, 7) == At(q, 7);
    assert At(p, 8) == At(q, 8) && At(p, 9) == At(q, 9) && At(p, 10) == At(q, 10) && At(p, 11) == At(q, 11);
    assert At(p, 12) == At(q, 12);
  }

  /** Every parameter has its type or is None. */
  predicate Typed(p: Parameters) {
    forall i :: 0 <= i < 13 ==> FieldOf(KindAt(i), At(p, i)).Ok?
  }

  lemma {:induction false} SetFieldsIff(p: Parameters, n: nat)
    requires n <= 13
    ensures SetFields(p, n).Ok? <==> forall i :: 0 <= i < n ==> FieldOf(KindAt(i), At(p, i)).Ok?
    ensures SetFields(p, n).Ok? ==> |SetFields(p, n).value| == n
    ensures SetFields(p, n).Ok? ==>
      forall i :: 0 <= i < n ==> FieldOf(KindAt(i), At(p, i)) == Ok(SetFields(p, n).value[i])
  {
    hide FieldOf, At, KindAt;
    if n > 0 {
      SetFieldsIff(p, n - 1);
    }
  }

  /** A dictionary the getter shows can be set exactly if it is typed, and the core
      structure gives the same dictionary back, also after a journey. */
  lemma ParametersBack(p: Parameters)
    ensures BuildParameters(ToDict(p)).Ok? <==> Typed(p)
    ensures Typed(p) ==>
      var v := BuildParameters(ToDict(p)).value;
      && v.Struct? && |v.slots| == 13 && Aged(v).Struct? && |Aged(v).slots| == 13
      && ParametersOf(Aged(v).slots) == p && Fresh(v) == v
      && forall i :: 0 <= i < 13 ==> FieldOf(KindAt(i), At(p, i)) == Ok(v.slots[i])
  {
    DictKeys(p);
    FromToDict(p);
    SetFieldsIff(p, 13);
    hide FieldOf, FromDict, ToDict, IsParameter, SetFields;
    if Typed(p) {
      var v := BuildParameters(ToDict(p)).value;
      var slots := v.slots;
      forall i | 0 <= i < 13
        ensures ValueOf(KindAt(i), AgedSlot(slots[i])) == At(p, i) && FreshSlot(slots[i]) == slots[i]
      {
        FieldBack(KindAt(i), At(p, i));
      }
      assert Fresh(v).slots == slots;
      var q := ParametersOf(Aged(v).slots);
      forall i | 0 <= i < 13 ensures At(q, i) == At(p, i) {
        ParametersOfAt(Aged(v).slots, i);
      }
      SameParameters(q, p);
    }
  }

  lemma ParametersOfAt(slots: seq<Slot>, i: nat)
    requires |slots| == 13 && i < 13
    ensures At(ParametersOf(slots), i) == ValueOf(KindAt(i), slots[i])
  {
    hide ValueOf, KindAt;
  }

  // ---- key informations

  function ParametersSlot(v: Py): Result<Slot> {
    if !Truthy(v) then Ok(Absent)
    else if !v.Dictionary? then Err(TypeError)
    else
      var parameters :- BuildParameters(v.d);
      Ok(One(parameters))
  }

  /** EncryptionKeyInformation(**d), MACSignatureKeyInformation(**d) */
  function BuildInformation(d: Dict): Result<Value> {
    if exists name <- d.Keys :: name != UniqueIdentifier && name != CryptographicParameters then Err(TypeError)
    else
      var uniqueIdentifier :- FieldOf(TextStringK, Get(d, UniqueIdentifier));
      var parameters :- ParametersSlot(Get(d, CryptographicParameters));
      Ok(Struct([uniqueIdentifier, parameters]))
  }

  function InformationSlot(v: Py): Result<Slot> {
    if !Truthy(v) then Ok(Absent)
    else if !v.Dictionary? then Err(TypeError)
    else
      var information :- BuildInformation(v.d);
      Ok(One(information))
  }

  /** One key information in _build_key_wrapping_data. The parameters are taken
      apart even if there are none, and that fails. */
  function InformationOf(slot: Slot): Result<Dict> {
    if !slot.One? then Ok(map[])
    else if !slot.v.Struct? || |slot.v.slots| != 2 then Err(AttributeError)
    else
      var parameters := slot.v.slots[1];
      if !parameters.One? || !parameters.v.Struct? || |parameters.v.slots| != 13 then Err(AttributeError)
      else
        Ok(map[UniqueIdentifier := ValueOf(TextStringK, slot.v.slots[0]),
               CryptographicParameters := Dictionary(ToDict(ParametersOf(parameters.v.slots)))])
  }

  /** The types that the core structure accepts. */
  predicate TypedInformation(g: Group) {
    && (g.uniqueIdentifier.Nothing? || g.uniqueIdentifier.Str?)
    && (AnyParameter(g.parameters) ==> Typed(g.parameters))
  }

  /** The core structure of a key information that holds something. */
  ghost predicate IsInformationOf(g: Group, slot: Slot) {
    && slot.One? && slot.v.Struct? && |slot.v.slots| == 2
    && FieldOf(TextStringK, g.uniqueIdentifier) == Ok(slot.v.slots[0])
    && (slot.v.slots[1].Absent? <==> !AnyParameter(g.parameters))
    && (AnyParameter(g.parameters) ==>
          slot.v.slots[1].One? && BuildParameters(ToDict(g.parameters)) == Ok(slot.v.slots[1].v))
  }

  lemma InformationBuilt(g: Group)
    ensures var r := InformationSlot(Dictionary(InformationDict(g)));
      if InformationDict(g) == map[] then r == Ok(Absent)
      else (r.Ok? <==> TypedInformation(g)) && (r.Ok? ==> IsInformationOf(g, r.value))
  {
    InformationParts(g);
    ParametersSlotOf(g.parameters);
    hide AnyParameter, Typed, BuildParameters, ToDict, InformationDict, ParametersDict, ParametersSlot, FieldOf;
    TextFieldTypes(g.uniqueIdentifier);
  }

  lemma TextFieldTypes(v: Py)
    ensures FieldOf(TextStringK, v).Ok? <==> v.Nothing? || v.Str?
  {
  }

  lemma InformationParts(g: Group)
    ensures var d := InformationDict(g);
      if d == map[] then true
      else
        && d.Keys == {UniqueIdentifier, CryptographicParameters}
        && Get(d, UniqueIdentifier) == g.uniqueIdentifier
        && Get(d, CryptographicParameters) == Dictionary(ParametersDict(g.parameters))
  {
    hide AnyParameter, ParametersDict;
  }

  lemma ParametersSlotOf(p: Parameters)
    ensures var r := ParametersSlot(Dictionary(ParametersDict(p)));
      if !AnyParameter(p) then r == Ok(Absent)
      else (r.Ok? <==> Typed(p)) && (r.Ok? ==> r.value.One? && BuildParameters(ToDict(p)) == Ok(r.value.v))
  {
    ParametersDictNormal(p);
    ParametersBack(p);
    hide AnyParameter, Typed, BuildParameters, ToDict, IsNormalParameters;
  }

  lemma InformationBack(g: Group, slot: Slot)
    requires IsInformationOf(g, slot) && TypedInformation(g)
    ensures FreshSlot(slot) == slot
    ensures InformationOf(AgedSlot(slot)).Ok? <==> AnyParameter(g.parameters)
    ensures AnyParameter(g.parameters) ==> InformationOf(AgedSlot(slot)) == Ok(InformationDict(g))
  {
    var slots := slot.v.slots;
    FieldBack(TextStringK, g.uniqueIdentifier);
    ParametersBack(g.parameters);
    PairStates(slots);
    InformationDictNormal(g);
    hide FieldOf, BuildParameters, ToDict, Typed, AnyParameter, ParametersOf, IsNormalInformation, Aged, Fresh;
    var aged := AgedSlot(slot).v.slots;
    assert aged == [AgedSlot(slots[0]), AgedSlot(slots[1])];
    if AnyParameter(g.parameters) {
      assert aged[1] == One(Aged(slots[1].v));
      assert ParametersOf(aged[1].v.slots) == g.parameters;
    }
  }

  lemma PairStates(slots: seq<Slot>)
    requires |slots| == 2
    ensures Aged(Struct(slots)) == Struct([AgedSlot(slots[0]), AgedSlot(slots[1])])
    ensures Fresh(Struct(slots)) == Struct([FreshSlot(slots[0]), FreshSlot(slots[1])])
    ensures slots == [slots[0], slots[1]]
  {
    hide AgedSlot, FreshSlot;
  }

  // ---- key wrapping data

  /** KeyWrappingData(**d) */
  function BuildWrapping(d: Dict): Result<Value> {
    if exists name <- d.Keys :: name !in {WrappingMethod, EncryptionKeyInformation, MacSignatureKeyInformation,
                                          MacSignature, IvCounterNonce, EncodingOption}
    then Err(TypeError)
    else
      var wrappingMethod :- FieldOf(EnumerationK(WrappingMethods), Get(d, WrappingMethod));
      var encryption :- InformationSlot(Get(d, EncryptionKeyInformation));
      var macSignatureKey :- InformationSlot(Get(d, MacSignatureKeyInformation));
      var macSignature :- FieldOf(ByteStringK, Get(d, MacSignature));
      var ivCounterNonce :- FieldOf(ByteStringK, Get(d, IvCounterNonce));
      var encodingOption :- FieldOf(EnumerationK(EncodingOptions), Get(d, EncodingOption));
      Ok(Struct([wrappingMethod, encryption, macSignatureKey, macSignature, ivCounterNonce, encodingOption]))
  }

  /** _build_key_wrapping_data */
  function WrappingOf(slot: Slot): Result<Py> {
    if !slot.One? then Ok(Nothing)
    else if !slot.v.Struct? || |slot.v.slots| != 6 then Err(AttributeError)
    else
      var slots := slot.v.slots;
      var encryption :- InformationOf(slots[1]);
      var macSignatureKey :- InformationOf(slots[2]);
      Ok(Dictionary(map[
        WrappingMethod := ValueOf(EnumerationK(WrappingMethods), slots[0]),
        EncryptionKeyInformation := Dictionary(encryption),
        MacSignatureKeyInformation := Dictionary(macSignatureKey),
        MacSignature := ValueOf(ByteStringK, slots[3]),
        IvCounterNonce := ValueOf(ByteStringK, slots[4]),
        EncodingOption := ValueOf(EnumerationK(EncodingOptions), slots[5])]))
  }

  predicate HoldsSomething(g: Group) {
    Truthy(g.uniqueIdentifier) || AnyParameter(g.parameters)
  }

  predicate TypedWrapping(c: Columns) {
    && FieldOf(EnumerationK(WrappingMethods), c.wrappingMethod).Ok?
    && (HoldsSomething(c.encryption) ==> TypedInformation(c.encryption))
    && (HoldsSomething(c.macSignatureKey) ==> TypedInformation(c.macSignatureKey))
    && FieldOf(ByteStringK, c.macSignature).Ok? && FieldOf(ByteStringK, c.ivCounterNonce).Ok?
    && FieldOf(EnumerationK(EncodingOptions), c.encodingOption).Ok?
  }

  ghost predicate IsGroupSlot(g: Group, slot: Slot) {
    if HoldsSomething(g) then IsInformationOf(g, slot) else slot.Absent?
  }

  ghost predicate IsWrappingDataOf(c: Columns, v: Value) {
    && v.Struct? && |v.slots| == 6
    && FieldOf(EnumerationK(WrappingMethods), c.wrappingMethod) == Ok(v.slots[0])
    && IsGroupSlot(c.encryption, v.slots[1]) && IsGroupSlot(c.macSignatureKey, v.slots[2])
    && FieldOf(ByteStringK, c.macSignature) == Ok(v.slots[3])
    && FieldOf(ByteStringK, c.ivCounterNonce) == Ok(v.slots[4])
    && FieldOf(EnumerationK(EncodingOptions), c.encodingOption) == Ok(v.slots[5])
  }

  lemma WrappingBuilt(c: Columns)
    requires AnyColumn(c)
    ensures var r := BuildWrapping(WrappingDict(c));
      (r.Ok? <==> TypedWrapping(c)) && (r.Ok? ==> IsWrappingDataOf(c, r.value))
  {
    InformationBuilt(c.encryption);
    InformationBuilt(c.macSignatureKey);
    InformationDictNormal(c.encryption);
    InformationDictNormal(c.macSignatureKey);
    hide AnyParameter, FieldOf, InformationSlot, InformationDict, IsInformationOf, TypedInformation;
    hide IsNormalInformation;
  }

  lemma GroupBack(g: Group, slot: Slot)
    requires IsGroupSlot(g, slot) && (HoldsSomething(g) ==> TypedInformation(g))
    ensures FreshSlot(slot) == slot
    ensures InformationOf(AgedSlot(slot)).Ok? <==> (HoldsSomething(g) ==> AnyParameter(g.parameters))
    ensures (HoldsSomething(g) ==> AnyParameter(g.parameters)) ==>
      InformationOf(AgedSlot(slot)) == Ok(InformationDict(g))
  {
    InformationDictNormal(g);
    if HoldsSomething(g) {
      InformationBack(g, slot);
    }
  }

  /** Both key informations of a structure that can be taken apart have parameters. */
  predicate HasParameters(c: Columns) {
    && (HoldsSomething(c.encryption) ==> AnyParameter(c.encryption.parameters))
    && (HoldsSomething(c.macSignatureKey) ==> AnyParameter(c.macSignatureKey.parameters))
  }

  lemma WrappingFresh(c: Columns, v: Value)
    requires TypedWrapping(c) && IsWrappingDataOf(c, v)
    ensures Fresh(v) == v
    ensures |Aged(v).slots| == 6 && forall i :: 0 <= i < 6 ==> Aged(v).slots[i] == AgedSlot(v.slots[i])
  {
    hide FieldOf, ValueOf, IsGroupSlot, TypedInformation, InformationOf, InformationDict, HoldsSomething;
    hide AgedSlot, FreshSlot, AnyParameter;
    hide Aged, Fresh;
    var slots := v.slots;
    SlotStates(slots);
    assert FreshSlot(slots[1]) == slots[1] && FreshSlot(slots[2]) == slots[2] by {
      GroupBack(c.encryption, slots[1]);
      GroupBack(c.macSignatureKey, slots[2]);
    }
    assert FreshSlot(slots[0]) == slots[0] by { FieldBack(EnumerationK(WrappingMethods), c.wrappingMethod); }
    assert FreshSlot(slots[3]) == slots[3] by { FieldBack(ByteStringK, c.macSignature); }
    assert FreshSlot(slots[4]) == slots[4] by { FieldBack(ByteStringK, c.ivCounterNonce); }
    assert FreshSlot(slots[5]) == slots[5] by { FieldBack(EnumerationK(EncodingOptions), c.encodingOption); }
    assert Fresh(v).slots == slots;
  }

  lemma WrappingBack(c: Columns, v: Value)
    requires AnyColumn(c) && TypedWrapping(c) && IsWrappingDataOf(c, v)
    ensures WrappingOf(One(Aged(v))).Ok? <==> HasParameters(c)
    ensures HasParameters(c) ==> WrappingOf(One(Aged(v))) == Ok(Dictionary(WrappingDict(c)))
  {
    hide FieldOf, ValueOf, IsGroupSlot, TypedInformation, InformationOf, InformationDict, HoldsSomething;
    hide AgedSlot, FreshSlot, AnyParameter;
    hide Fresh;
    var slots := v.slots;
    WrappingFresh(c, v);
    GroupBack(c.encryption, slots[1]);
    GroupBack(c.macSignatureKey, slots[2]);
    FieldBack(EnumerationK(WrappingMethods), c.wrappingMethod);
    FieldBack(ByteStringK, c.macSignature);
    FieldBack(ByteStringK, c.ivCounterNonce);
    FieldBack(EnumerationK(EncodingOptions), c.encodingOption);
  }

  // ---- what can be written

  lemma FieldWritable(kind: Kind, v: Py)
    requires FieldOf(kind, v).Ok? && FieldOf(kind, v).value.One?
    ensures !kind.StructK? && !kind.AttributeK?
    ensures WritablePrimitive(kind, FieldOf(kind, v).value.v) <==> (kind.TextStringK? ==> v.Str? && IsAscii(v.s))
  {
    P.SignedBounds();
  }

  lemma PrimitiveWritable(kind: Kind, v: Value)
    requires !kind.StructK? && !kind.AttributeK? && |Body(kind, v)| < Radix(4)
    ensures Writable(kind, v) <==> WritablePrimitive(kind, v)
  {
  }

  lemma ParameterKinds()
    ensures |CRYPTOGRAPHIC_PARAMETERS_FIELDS| == 13
    ensures forall i :: 0 <= i < 13 ==>
      CRYPTOGRAPHIC_PARAMETERS_FIELDS[i].kind == KindAt(i) && CRYPTOGRAPHIC_PARAMETERS_FIELDS[i].mode == Optional
  {
    ParameterFields();
    hide CRYPTOGRAPHIC_PARAMETERS_FIELDS;
  }

  /** Typed parameters can always be written, if they are not too long. */
  lemma ParametersWritable(p: Parameters, v: Value)
    requires Typed(p) && BuildParameters(ToDict(p)) == Ok(v) && |Body(CRYPTOGRAPHIC_PARAMETERS_K, v)| < Radix(4)
    ensures Writable(CRYPTOGRAPHIC_PARAMETERS_K, v)
  {
    hide CRYPTOGRAPHIC_PARAMETERS_FIELDS, FieldOf, KindAt, At, EncodeFields, BuildParameters, ToDict;
    hide WritableSlot, Radix, Typed;
    ParametersShape(p, v);
    ParameterKinds();
    var fs, slots := CRYPTOGRAPHIC_PARAMETERS_FIELDS, v.slots;
    assert Body(CRYPTOGRAPHIC_PARAMETERS_K, v) == EncodeFields(fs, slots);
    forall i | 0 <= i < 13 ensures WritableSlot(fs[i], slots[i]) {
      ParameterWritable(fs, slots, i, At(p, i));
    }
    assert WritableFields(fs, slots);
  }

  lemma ParametersShape(p: Parameters, v: Value)
    requires Typed(p) && BuildParameters(ToDict(p)) == Ok(v)
    ensures v.Struct? && |v.slots| == 13
    ensures forall i :: 0 <= i < 13 ==> FieldOf(KindAt(i), At(p, i)) == Ok(v.slots[i])
  {
    ParametersBack(p);
  }

  lemma ParameterWritable(fs: seq<Field>, slots: seq<Slot>, i: nat, v: Py)
    requires i < |fs| == |slots| == 13 && |EncodeFields(fs, slots)| < Radix(4)
    requires fs[i].kind == KindAt(i) && fs[i].mode == Optional && FieldOf(fs[i].kind, v) == Ok(slots[i])
    ensures WritableSlot(fs[i], slots[i])
  {
    FieldBack(fs[i].kind, v);
    NoTextParameter(i);
    if slots[i].One? {
      PartShorter(fs, slots, i);
      FieldWritable(fs[i].kind, v);
      PrimitiveWritable(fs[i].kind, slots[i].v);
    }
    hide FieldOf, KindAt, EncodeFields, Body, Radix;
  }

  lemma NoTextParameter(i: nat)
    requires i < 13
    ensures !KindAt(i).TextStringK?
  {
  }

  predicate AsciiIdentifier(g: Group) {
    g.uniqueIdentifier.Str? && IsAscii(g.uniqueIdentifier.s)
  }

  lemma InformationWritable(g: Group, slot: Slot)
    requires IsInformationOf(g, slot) && TypedInformation(g) && |Body(KEY_INFORMATION_K, slot.v)| < Radix(4)
    ensures Writable(KEY_INFORMATION_K, slot.v) <==> AsciiIdentifier(g)
  {
    var fs, slots := KEY_INFORMATION_FIELDS, slot.v.slots;
    assert Body(KEY_INFORMATION_K, slot.v) == EncodeFields(fs, slots);
    FieldBack(TextStringK, g.uniqueIdentifier);
    if slots[0].One? {
      PartShorter(fs, slots, 0);
      FieldWritable(TextStringK, g.uniqueIdentifier);
      PrimitiveWritable(TextStringK, slots[0].v);
    }
    if AnyParameter(g.parameters) {
      PartShorter(fs, slots, 1);
      ParametersWritable(g.parameters, slots[1].v);
    }
    assert WritableFields(fs, slots) <==> WritableSlot(fs[0], slots[0]) && WritableSlot(fs[1], slots[1]);
    hide FieldOf, AnyParameter, Typed, BuildParameters, ToDict, CRYPTOGRAPHIC_PARAMETERS_FIELDS, EncodeFields;
    hide Body, WritablePrimitive, IsAscii;
  }

  lemma GroupWritable(g: Group, slot: Slot, f: Field)
    requires IsGroupSlot(g, slot) && (HoldsSomething(g) ==> TypedInformation(g))
    requires f.kind == KEY_INFORMATION_K && f.mode == Optional
    requires slot.One? ==> |Body(f.kind, slot.v)| < Radix(4)
    ensures WritableSlot(f, slot) <==> (HoldsSomething(g) ==> AsciiIdentifier(g))
  {
    hide KEY_INFORMATION_FIELDS;
    if HoldsSomething(g) {
      InformationWritable(g, slot);
    }
    hide IsInformationOf, TypedInformation, HoldsSomething, Writable;
  }

  lemma FieldSlotWritable(fs: seq<Field>, slots: seq<Slot>, i: nat, v: Py)
    requires i < |fs| == |slots| && |EncodeFields(fs, slots)| < Radix(4) && FieldOf(fs[i].kind, v) == Ok(slots[i])
    requires !fs[i].kind.TextStringK? && !fs[i].mode.Repeated?
    ensures WritableSlot(fs[i], slots[i]) <==> fs[i].mode.Optional? || !v.Nothing?
  {
    FieldBack(fs[i].kind, v);
    if slots[i].One? {
      PartShorter(fs, slots, i);
      FieldWritable(fs[i].kind, v);
      PrimitiveWritable(fs[i].kind, slots[i].v);
    }
    hide FieldOf, EncodeFields, Body, Radix;
  }

  lemma WrappingWritable(c: Columns, v: Value)
    requires IsWrappingDataOf(c, v) && TypedWrapping(c) && |Body(KEY_WRAPPING_DATA_K, v)| < Radix(4)
    ensures Writable(KEY_WRAPPING_DATA_K, v) <==>
      && !c.wrappingMethod.Nothing?
      && (HoldsSomething(c.encryption) ==> AsciiIdentifier(c.encryption))
      && (HoldsSomething(c.macSignatureKey) ==> AsciiIdentifier(c.macSignatureKey))
  {
    var fs, slots := KEY_WRAPPING_DATA_FIELDS, v.slots;
    WrappingFields();
    assert Body(KEY_WRAPPING_DATA_K, v) == EncodeFields(fs, slots);
    hide KEY_WRAPPING_DATA_FIELDS, FieldOf, EncodeFields, Body, Radix, WritableSlot, IsGroupSlot;
    hide TypedInformation, HoldsSomething, AsciiIdentifier;
    FieldSlotWritable(fs, slots, 0, c.wrappingMethod);
    FieldSlotWritable(fs, slots, 3, c.macSignature);
    FieldSlotWritable(fs, slots, 4, c.ivCounterNonce);
    FieldSlotWritable(fs, slots, 5, c.encodingOption);
    if slots[1].One? { PartShorter(fs, slots, 1); }
    if slots[2].One? { PartShorter(fs, slots, 2); }
    GroupWritable(c.encryption, slots[1], fs[1]);
    GroupWritable(c.macSignatureKey, slots[2], fs[2]);
    SixFields(fs, slots);
    assert Writable(KEY_WRAPPING_DATA_K, v) <==> WritableFields(fs, slots);
    hide Writable;
  }

  lemma SixFields(fs: seq<Field>, slots: seq<Slot>)
    requires |fs| == |slots| == 6
    ensures WritableFields(fs, slots) <==>
      && WritableSlot(fs[0], slots[0]) && WritableSlot(fs[1], slots[1]) && WritableSlot(fs[2], slots[2])
      && WritableSlot(fs[3], slots[3]) && WritableSlot(fs[4], slots[4]) && WritableSlot(fs[5], slots[5])
  {
    hide WritableSlot;
  }

  // ---- whole keys

  /** The core structure around the parts. */
  function CoreKey(k: PieKey, wrapping: Slot): Value {
    Struct([One(Struct([
      One(Num(k.format)),
      Absent,
      One(Struct([One(Octets(k.value)), Many([])])),
      One(Num(k.algorithm)),
      One(Num(k.length)),
      wrapping]))])
  }

  /** _build_core_key */
  function BuildCoreKey(k: PieKey): Result<Value> {
    var d := WrappingDict(k.wrapping);
    var wrapping :- if d == map[] then Ok(Absent) else (var data :- BuildWrapping(d); Ok(One(data)));
    if !P.Integer.InRange(k.length) then Err(ValueError) else Ok(CoreKey(k, wrapping))
  }

  /** The parts that a core key needs to have to be converted. */
  predicate IsCoreKey(v: Value) {
    && v.Struct? && |v.slots| == 1 && v.slots[0].One? && v.slots[0].v.Struct? && |v.slots[0].v.slots| == 6
    && var block := v.slots[0].v.slots;
    && block[0].One? && block[0].v.Num? && block[3].One? && block[3].v.Num? && block[4].One? && block[4].v.Num?
    && block[2].One? && block[2].v.Struct? && |block[2].v.slots| == 2
    && block[2].v.slots[0].One? && block[2].v.slots[0].v.Octets?
  }

  /** _build_pie_key */
  function BuildPieKey(cls: KeyClass, core: Value): Result<PieKey> {
    if !IsCoreKey(core) then Err(AttributeError)
    else
      var block := core.slots[0].v.slots;
      var wrapping :- WrappingOf(block[5]);
      var k :- NewPieKey(cls, block[3].v.n, block[4].v.n, block[2].v.slots[0].v.bytes, block[0].v.n, wrapping);
      if cls.SymmetricKey? && k.format != block[0].v.n then Err(TypeError) else Ok(k)
  }

  /** From a client key over the wire to a client key. */
  ghost function Ship(k: PieKey): Result<PieKey> {
    var core :- BuildCoreKey(k);
    if !Writable(KEY_K, core) then Err(StructError)
    else
      var (v, _) :- Decode(TagOf(k.cls), KEY_K, Encode(TagOf(k.cls), KEY_K, core));
      BuildPieKey(k.cls, v)
  }

  predicate SendableGroup(g: Group) {
    HoldsSomething(g) ==>
      g.uniqueIdentifier.Str? && IsAscii(g.uniqueIdentifier.s) && AnyParameter(g.parameters) && Typed(g.parameters)
  }

  /** Wrapping data has a method and values of the right types, and a key
      information that is not empty has an ASCII identifier and a parameter that
      is neither None nor zero. */
  predicate SendableWrapping(c: Columns) {
    && c.wrappingMethod.Member? && c.wrappingMethod.cls == WrappingMethods
    && IsMember(WrappingMethods, c.wrappingMethod.n)
    && SendableGroup(c.encryption) && SendableGroup(c.macSignatureKey)
    && (c.macSignature.Nothing? || c.macSignature.Binary?) && (c.ivCounterNonce.Nothing? || c.ivCounterNonce.Binary?)
    && FieldOf(EnumerationK(EncodingOptions), c.encodingOption).Ok?
  }

  /** A key that arrives: see KeyArrives. */
  ghost predicate Sendable(k: PieKey) {
    && P.Integer.InRange(k.length)
    && (k.cls.SymmetricKey? ==> k.format == RAW)
    && (AnyColumn(k.wrapping) ==> SendableWrapping(k.wrapping))
    && (BuildCoreKey(k).Ok? ==> |Body(KEY_K, BuildCoreKey(k).value)| < Radix(4))
  }

  lemma SendableParts(c: Columns)
    ensures SendableWrapping(c) <==>
      && TypedWrapping(c) && !c.wrappingMethod.Nothing? && HasParameters(c)
      && (HoldsSomething(c.encryption) ==> AsciiIdentifier(c.encryption))
      && (HoldsSomething(c.macSignatureKey) ==> AsciiIdentifier(c.macSignatureKey))
  {
    hide Typed, AnyParameter, IsAscii;
  }

  lemma CoreKeyWritable(k: PieKey, wrapping: Slot)
    requires IsMember(CryptographicAlgorithms, k.algorithm) && IsMember(KeyFormatTypes, k.format)
    requires P.Integer.InRange(k.length)
    requires !wrapping.Many? && |Body(KEY_K, CoreKey(k, wrapping))| < Radix(4)
    ensures Writable(KEY_K, CoreKey(k, wrapping)) <==> (wrapping.One? ==> Writable(KEY_WRAPPING_DATA_K, wrapping.v))
  {
    var core := CoreKey(k, wrapping);
    var block := core.slots[0].v;
    assert Body(KEY_K, core) == EncodeFields(KEY_FIELDS, core.slots);
    PartShorter(KEY_FIELDS, core.slots, 0);
    assert |Body(KEY_BLOCK_K, block)| < Radix(4);
    KeyBlockWritable(k, wrapping);
    hide KEY_BLOCK_FIELDS, KEY_WRAPPING_DATA_FIELDS, EncodeFields, Body, Radix;
    assert WritableFields(KEY_FIELDS, core.slots) <==> WritableSlot(KEY_FIELDS[0], core.slots[0]);
  }

  lemma KeyBlockWritable(k: PieKey, wrapping: Slot)
    requires IsMember(CryptographicAlgorithms, k.algorithm) && IsMember(KeyFormatTypes, k.format)
    requires P.Integer.InRange(k.length)
    requires !wrapping.Many? && |Body(KEY_BLOCK_K, CoreKey(k, wrapping).slots[0].v)| < Radix(4)
    ensures Writable(KEY_BLOCK_K, CoreKey(k, wrapping).slots[0].v)
       <==> (wrapping.One? ==> Writable(KEY_WRAPPING_DATA_K, wrapping.v))
  {
    var v := CoreKey(k, wrapping).slots[0].v;
    var fs, slots := KEY_BLOCK_FIELDS, v.slots;
    KeyBlockFields();
    assert Body(KEY_BLOCK_K, v) == EncodeFields(fs, slots);
    hide KEY_BLOCK_FIELDS, KEY_WRAPPING_DATA_FIELDS, EncodeFields, Body, Radix, KEY_VALUE_FIELDS, WritableSlot;
    hide FieldOf;
    assert FieldOf(fs[0].kind, Member(KeyFormatTypes, k.format)) == Ok(slots[0]) by {
      MemberField(KeyFormatTypes, k.format);
    }
    assert FieldOf(fs[3].kind, Member(CryptographicAlgorithms, k.algorithm)) == Ok(slots[3]) by {
      MemberField(CryptographicAlgorithms, k.algorithm);
    }
    assert FieldOf(fs[4].kind, Int(k.length)) == Ok(slots[4]) by { NumberField(k.length); }
    assert FieldOf(fs[1].kind, Nothing) == Ok(slots[1]) by { NothingField(fs[1].kind); }
    FieldSlotWritable(fs, slots, 0, Member(KeyFormatTypes, k.format));
    FieldSlotWritable(fs, slots, 1, Nothing);
    FieldSlotWritable(fs, slots, 3, Member(CryptographicAlgorithms, k.algorithm));
    FieldSlotWritable(fs, slots, 4, Int(k.length));
    PartShorter(fs, slots, 2);
    KeyValueWritable(fs[2], k.value);
    SixFields(fs, slots);
    WrappingSlotWritable(fs[5], wrapping);
    assert Writable(KEY_BLOCK_K, v) <==> WritableFields(fs, slots);
    hide Writable;
  }

  lemma MemberField(cls: EnumClass, n: int)
    requires IsMember(cls, n)
    ensures FieldOf(EnumerationK(cls), Member(cls, n)) == Ok(One(Num(n)))
  {
  }

  lemma NumberField(n: int)
    requires P.Integer.InRange(n)
    ensures FieldOf(IntegerK, Int(n)) == Ok(One(Num(n)))
  {
  }

  lemma NothingField(kind: Kind)
    ensures FieldOf(kind, Nothing) == Ok(Absent)
  {
  }

  lemma WrappingSlotWritable(f: Field, wrapping: Slot)
    requires f.kind == KEY_WRAPPING_DATA_K && f.mode == Optional && !wrapping.Many?
    ensures WritableSlot(f, wrapping) <==> (wrapping.One? ==> Writable(KEY_WRAPPING_DATA_K, wrapping.v))
  {
    hide KEY_WRAPPING_DATA_FIELDS, Writable;
  }

  lemma KeyValueWritable(f: Field, material: seq<byte>)
    requires f == Field(KEY_VALUE, KEY_VALUE_K, Required)
    requires |Body(KEY_VALUE_K, Struct([One(Octets(material)), Many([])]))| < Radix(4)
    ensures WritableSlot(f, One(Struct([One(Octets(material)), Many([])])))
  {
    hide ATTRIBUTE_KINDS;
    var fs, slots := KEY_VALUE_FIELDS, [One(Octets(material)), Many([])];
    assert Body(KEY_VALUE_K, Struct(slots)) == EncodeFields(fs, slots);
    PartShorter(fs, slots, 0);
    PrimitiveWritable(ByteStringK, Octets(material));
    assert WritableSlot(fs[0], slots[0]) && WritableSlot(fs[1], slots[1]);
    assert WritableFields(fs, slots);
  }

  lemma CoreKeyStates(k: PieKey, wrapping: Slot)
    ensures Aged(CoreKey(k, wrapping)) == CoreKey(k, AgedSlot(wrapping))
    ensures Fresh(CoreKey(k, wrapping)) == CoreKey(k, FreshSlot(wrapping))
  {
    hide AgedSlot, FreshSlot, Aged, Fresh;
    var core := CoreKey(k, wrapping);
    var block := core.slots[0].v;
    KeyValueStates(k.value);
    SlotStates(block.slots);
    NumberState(k.format);
    NumberState(k.algorithm);
    NumberState(k.length);
    assert Aged(block).slots
        == [block.slots[0], Absent, block.slots[2], block.slots[3], block.slots[4], AgedSlot(wrapping)];
    assert Fresh(block).slots
        == [block.slots[0], Absent, block.slots[2], block.slots[3], block.slots[4], FreshSlot(wrapping)];
    OneSlotStates(block);
  }

  lemma KeyValueStates(material: seq<byte>)
    ensures var slot := One(Struct([One(Octets(material)), Many([])]));
      AgedSlot(slot) == slot && FreshSlot(slot) == slot
  {
    PairStates([One(Octets(material)), Many([])]);
    assert AgedSlot(Many([])) == Many([]) && FreshSlot(Many([])) == Many([]);
    assert AgedSlot(One(Octets(material))) == One(Octets(material));
    assert FreshSlot(One(Octets(material))) == One(Octets(material));
  }

  lemma NumberState(n: int)
    ensures AgedSlot(One(Num(n))) == One(Num(n)) && FreshSlot(One(Num(n))) == One(Num(n))
    ensures AgedSlot(Absent) == Absent && FreshSlot(Absent) == Absent
  {
  }

  lemma SlotStates(slots: seq<Slot>)
    ensures Aged(Struct(slots)).Struct? && |Aged(Struct(slots)).slots| == |slots|
    ensures Fresh(Struct(slots)).Struct? && |Fresh(Struct(slots)).slots| == |slots|
    ensures forall i :: 0 <= i < |slots| ==> Aged(Struct(slots)).slots[i] == AgedSlot(slots[i])
    ensures forall i :: 0 <= i < |slots| ==> Fresh(Struct(slots)).slots[i] == FreshSlot(slots[i])
  {
  }

  lemma OneSlotStates(v: Value)
    ensures Aged(Struct([One(v)])) == Struct([One(Aged(v))])
    ensures Fresh(Struct([One(v)])) == Struct([One(Fresh(v))])
  {
  }

  lemma NothingShown()
    ensures ColumnsOf(Nothing).Ok? && WrappingDict(ColumnsOf(Nothing).value) == map[]
  {
    NoParameters();
  }

  /** The way back from a core key that is CoreKey(k, ...): everything is as before
      if the wrapping data can be taken apart and a symmetric key is raw. */
  lemma BuiltBack(k: PieKey, wrapping: Slot)
    requires Valid(k) && !wrapping.Many?
    requires if AnyColumn(k.wrapping) then wrapping.One? else wrapping.Absent?
    requires wrapping.One? && WrappingOf(wrapping).Ok? ==>
      WrappingOf(wrapping) == Ok(Dictionary(WrappingDict(k.wrapping)))
    ensures var r := BuildPieKey(k.cls, CoreKey(k, wrapping));
      && (r.Ok? <==> WrappingOf(wrapping).Ok? && (k.cls.SymmetricKey? ==> k.format == RAW))
      && (r.Ok? ==> SameKey(r.value, k))
  {
    NothingShown();
    ShownStateIsKept(k.wrapping);
    WrappingDictNormal(k.wrapping);
    assert IsCoreKey(CoreKey(k, wrapping));
    hide ColumnsOf, WrappingDict, WrappingOf, AnyColumn, IsNormal, IsCoreKey;
  }

  /** Equality of client keys: every part, and the wrapping data as the getter shows it. */
  predicate SameKey(a: PieKey, b: PieKey) {
    && a.cls == b.cls && a.algorithm == b.algorithm && a.length == b.length
    && a.value == b.value && a.format == b.format
    && WrappingDict(a.wrapping) == WrappingDict(b.wrapping)
  }

  lemma WrappingFits(k: PieKey, wrapping: Slot)
    requires wrapping.One? && |Body(KEY_K, CoreKey(k, wrapping))| < Radix(4)
    ensures |Body(KEY_WRAPPING_DATA_K, wrapping.v)| < Radix(4)
  {
    var core := CoreKey(k, wrapping);
    var block := core.slots[0].v;
    assert Body(KEY_K, core) == EncodeFields(KEY_FIELDS, core.slots);
    PartShorter(KEY_FIELDS, core.slots, 0);
    KeyBlockFields();
    assert Body(KEY_BLOCK_K, block) == EncodeFields(KEY_BLOCK_FIELDS, block.slots);
    PartShorter(KEY_BLOCK_FIELDS, block.slots, 5);
    hide KEY_BLOCK_FIELDS, KEY_WRAPPING_DATA_FIELDS, EncodeFields, Body, Radix;
  }

  /** The wrapping data in the core key is what the columns say. */
  ghost predicate IsWrappingSlot(c: Columns, slot: Slot) {
    if AnyColumn(c) then TypedWrapping(c) && slot.One? && IsWrappingDataOf(c, slot.v) else slot.Absent?
  }

  /** The conditions on the wrapping data for the write, and for the way back. */
  predicate WritableColumns(c: Columns) {
    AnyColumn(c) ==>
      && !c.wrappingMethod.Nothing?
      && (HoldsSomething(c.encryption) ==> AsciiIdentifier(c.encryption))
      && (HoldsSomething(c.macSignatureKey) ==> AsciiIdentifier(c.macSignatureKey))
  }

  lemma WrappingSlotFacts(k: PieKey, wrapping: Slot)
    requires IsWrappingSlot(k.wrapping, wrapping) && |Body(KEY_K, CoreKey(k, wrapping))| < Radix(4)
    ensures (wrapping.One? ==> Writable(KEY_WRAPPING_DATA_K, wrapping.v)) <==> WritableColumns(k.wrapping)
    ensures FreshSlot(wrapping) == wrapping
    ensures WrappingOf(AgedSlot(wrapping)).Ok? <==> (AnyColumn(k.wrapping) ==> HasParameters(k.wrapping))
    ensures WrappingOf(AgedSlot(wrapping)).Ok? && wrapping.One? ==>
      WrappingOf(AgedSlot(wrapping)) == Ok(Dictionary(WrappingDict(k.wrapping)))
  {
    hide HoldsSomething, AsciiIdentifier, TypedWrapping, IsWrappingDataOf, WrappingDict, HasParameters;
    hide Writable, Body, CoreKey, Radix;
    hide KEY_WRAPPING_DATA_FIELDS, KEY_FIELDS, AnyColumn;
    if AnyColumn(k.wrapping) {
      WrappingFits(k, wrapping);
      WrappingWritable(k.wrapping, wrapping.v);
      WrappingFresh(k.wrapping, wrapping.v);
      WrappingBack(k.wrapping, wrapping.v);
    }
  }

  lemma Travels(k: PieKey, wrapping: Slot)
    requires Valid(k) && P.Integer.InRange(k.length) && IsWrappingSlot(k.wrapping, wrapping)
    requires |Body(KEY_K, CoreKey(k, wrapping))| < Radix(4)
    ensures var core := CoreKey(k, wrapping);
      && (Writable(KEY_K, core) <==> WritableColumns(k.wrapping))
      && (Writable(KEY_K, core) ==>
            Decode(TagOf(k.cls), KEY_K, Encode(TagOf(k.cls), KEY_K, core)) == Ok((CoreKey(k, AgedSlot(wrapping)), [])))
    ensures var r := BuildPieKey(k.cls, CoreKey(k, AgedSlot(wrapping)));
      && (r.Ok? <==> (AnyColumn(k.wrapping) ==> HasParameters(k.wrapping)) && (k.cls.SymmetricKey? ==> k.format == RAW))
      && (r.Ok? ==> SameKey(r.value, k))
  {
    WrappingSlotFacts(k, wrapping);
    var core := CoreKey(k, wrapping);
    CoreKeyStates(k, wrapping);
    CoreKeyWritable(k, wrapping);
    KeyWellFormed();
    hide KEY_K, WellFormed, WrappingOf, WritableColumns, Encode, Decode, Body, Writable, Radix, HasParameters;
    hide WrappingDict, CoreKey, BuildPieKey, SameKey;
    if Writable(KEY_K, core) {
      FreshRoundTrip(TagOf(k.cls), KEY_K, core, []);
      assert Encode(TagOf(k.cls), KEY_K, core) + [] == Encode(TagOf(k.cls), KEY_K, core);
    }
    AgedShape(wrapping);
    BuiltBack(k, AgedSlot(wrapping));
  }

  lemma AgedShape(slot: Slot)
    ensures AgedSlot(slot).One? <==> slot.One?
    ensures AgedSlot(slot).Absent? <==> slot.Absent?
  {
  }

  /** A client key that is converted to a core key, encoded, decoded and converted
      back arrives if and only if it is sendable, and then it is equal to the key
      that was sent. */
  lemma KeyArrives(k: PieKey)
    requires Valid(k)
    ensures Ship(k).Ok? <==> Sendable(k)
    ensures Ship(k).Ok? ==> SameKey(Ship(k).value, k)
  {
    WrappingDictNormal(k.wrapping);
    if AnyColumn(k.wrapping) {
      WrappingBuilt(k.wrapping);
    }
    SendableParts(k.wrapping);
    hide ColumnsOf, AnyColumn, IsNormal, TypedWrapping, SendableWrapping, IsWrappingDataOf, HoldsSomething;
    hide HasParameters;
    hide KEY_K, Encode, Decode, Body, Radix, BuildWrapping, WrappingDict, BuildPieKey, CoreKey, SameKey;
    if BuildCoreKey(k).Ok? {
      var core := BuildCoreKey(k).value;
      FitsIfWritable(KEY_K, core);
      if |Body(KEY_K, core)| < Radix(4) {
        var d := WrappingDict(k.wrapping);
        var wrapping := if d == map[] then Absent else One(BuildWrapping(d).value);
        hide Writable;
        Travels(k, wrapping);
      }
    }
  }

  lemma FitsIfWritable(kind: Kind, v: Value)
    ensures Writable(kind, v) ==> |Body(kind, v)| < Radix(4)
  {
  }
}
