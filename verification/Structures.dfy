/** The structures of a key, from the cryptographic parameters up to the whole
    object: classes whose read fills fields in order from a local stream and whose
    write extends one.

    A primitive field is held as the state of its object, and None when there is
    none; nested structures are objects of their own. */
module Structures {
  import opened Wrappers
  import opened Bytes
  import opened Enums
  import opened Streams
  import opened Ttlv
  import opened FieldIO
  import opened Schemas
  import opened Attributes
  import P = Primitives

  /** attributes.CryptographicParameters */
  class CryptographicParameters {
    var blockCipherMode: Option<Value>
    var paddingMethod: Option<Value>
    var hashingAlgorithm: Option<Value>
    var keyRoleType: Option<Value>
    var digitalSignatureAlgorithm: Option<Value>
    var cryptographicAlgorithm: Option<Value>
    var randomIv: Option<Value>
    var ivLength: Option<Value>
    var tagLength: Option<Value>
    var fixedFieldLength: Option<Value>
    var invocationFieldLength: Option<Value>
    var counterLength: Option<Value>
    var initialCounterValue: Option<Value>

    ghost predicate Valid()
      reads this
    {
      && HeldOption(EnumerationK(BlockCipherModes), blockCipherMode)
      && HeldOption(EnumerationK(PaddingMethods), paddingMethod)
      && HeldOption(EnumerationK(HashingAlgorithms), hashingAlgorithm)
      && HeldOption(EnumerationK(KeyRoleTypes), keyRoleType)
      && HeldOption(EnumerationK(DigitalSignatureAlgorithms), digitalSignatureAlgorithm)
      && HeldOption(EnumerationK(CryptographicAlgorithms), cryptographicAlgorithm)
      && HeldOption(BooleanK, randomIv)
      && HeldOption(IntegerK, ivLength)
      && HeldOption(IntegerK, tagLength)
      && HeldOption(IntegerK, fixedFieldLength)
      && HeldOption(IntegerK, invocationFieldLength)
      && HeldOption(IntegerK, counterLength)
      && HeldOption(IntegerK, initialCounterValue)
    }

    /** The fields in the order of the field list. */
    function SlotAt(k: nat): Slot
      requires k < 13
      reads this
    {
      SlotOf(match k
        case 0 => blockCipherMode
        case 1 => paddingMethod
        case 2 => hashingAlgorithm
        case 3 => keyRoleType
        case 4 => digitalSignatureAlgorithm
        case 5 => cryptographicAlgorithm
        case 6 => randomIv
        case 7 => ivLength
        case 8 => tagLength
        case 9 => fixedFieldLength
        case 10 => invocationFieldLength
        case 11 => counterLength
        case _ => initialCounterValue)
    }

    function Slots(): (slots: seq<Slot>)
      reads this
      ensures |slots| == 13 && forall k :: 0 <= k < 13 ==> slots[k] == SlotAt(k)
    {
      seq(13, k requires 0 <= k < 13 reads this => SlotAt(k))
    }

    function View(): Value
      reads this
    {
      Struct(Slots())
    }

    /** With nothing set. */
    constructor ()
      ensures Valid()
      ensures View() == Struct(seq(13, _ => Absent))
    {
      blockCipherMode := None;
      paddingMethod := None;
      hashingAlgorithm := None;
      keyRoleType := None;
      digitalSignatureAlgorithm := None;
      cryptographicAlgorithm := None;
      randomIv := None;
      ivLength := None;
      tagLength := None;
      fixedFieldLength := None;
      invocationFieldLength := None;
      counterLength := None;
      initialCounterValue := None;
    }

    /** The first six fields, all enumerations. */
    method ReadChoices(t: BytearrayStream, ghost trail: Trail) returns (r: Result<()>)
      requires Valid() && trail.fields == CRYPTOGRAPHIC_PARAMETERS_FIELDS && trail.At(0, t.buffer)
      modifies t, `blockCipherMode, `paddingMethod, `hashingAlgorithm
      modifies `keyRoleType, `digitalSignatureAlgorithm, `cryptographicAlgorithm
      ensures r.Ok? ==> trail.At(6, t.buffer)
      ensures r.Ok? ==> HeldOption(EnumerationK(BlockCipherModes), blockCipherMode)
      ensures r.Ok? ==> Laid(trail, 0, old(SlotOf(blockCipherMode)), SlotOf(blockCipherMode))
      ensures r.Ok? ==> HeldOption(EnumerationK(PaddingMethods), paddingMethod)
      ensures r.Ok? ==> Laid(trail, 1, old(SlotOf(paddingMethod)), SlotOf(paddingMethod))
      ensures r.Ok? ==> HeldOption(EnumerationK(HashingAlgorithms), hashingAlgorithm)
      ensures r.Ok? ==> Laid(trail, 2, old(SlotOf(hashingAlgorithm)), SlotOf(hashingAlgorithm))
      ensures r.Ok? ==> HeldOption(EnumerationK(KeyRoleTypes), keyRoleType)
      ensures r.Ok? ==> Laid(trail, 3, old(SlotOf(keyRoleType)), SlotOf(keyRoleType))
      ensures r.Ok? ==> HeldOption(EnumerationK(DigitalSignatureAlgorithms), digitalSignatureAlgorithm)
      ensures r.Ok? ==> Laid(trail, 4, old(SlotOf(digitalSignatureAlgorithm)), SlotOf(digitalSignatureAlgorithm))
      ensures r.Ok? ==> HeldOption(EnumerationK(CryptographicAlgorithms), cryptographicAlgorithm)
      ensures r.Ok? ==> Laid(trail, 5, old(SlotOf(cryptographicAlgorithm)), SlotOf(cryptographicAlgorithm))
      ensures r.Err? ==> trail.Outcome().Err?
    {
      hide Decode, HeldOption, Trail.At, Trail.Outcome, Laid, SlotOf, CRYPTOGRAPHIC_PARAMETERS_FIELDS;
      ParameterFields();
      blockCipherMode :- ReadOver(t, Field(BLOCK_CIPHER_MODE, EnumerationK(BlockCipherModes), Optional),
                                  blockCipherMode, trail, 0);
      paddingMethod :- ReadOver(t, Field(PADDING_METHOD, EnumerationK(PaddingMethods), Optional),
                                paddingMethod, trail, 1);
      hashingAlgorithm :- ReadOver(t, Field(HASHING_ALGORITHM, EnumerationK(HashingAlgorithms), Optional),
                                   hashingAlgorithm, trail, 2);
      keyRoleType :- ReadOver(t, Field(KEY_ROLE_TYPE, EnumerationK(KeyRoleTypes), Optional), keyRoleType, trail, 3);
      digitalSignatureAlgorithm :- ReadOver(t, Field(DIGITAL_SIGNATURE_ALGORITHM,
                                                     EnumerationK(DigitalSignatureAlgorithms), Optional),
                                            digitalSignatureAlgorithm, trail, 4);
      cryptographicAlgorithm :- ReadOver(t, Field(CRYPTOGRAPHIC_ALGORITHM,
                                                  EnumerationK(CryptographicAlgorithms), Optional),
                                         cryptographicAlgorithm, trail, 5);
      return Ok(());
    }

    /** The flag and the six integers. */
    method ReadNumbers(t: BytearrayStream, ghost trail: Trail) returns (r: Result<()>)
      requires Valid() && trail.fields == CRYPTOGRAPHIC_PARAMETERS_FIELDS && trail.At(6, t.buffer)
      modifies t, `randomIv, `ivLength, `tagLength, `fixedFieldLength
      modifies `invocationFieldLength, `counterLength, `initialCounterValue
      ensures r.Ok? ==> trail.At(13, t.buffer)
      ensures r.Ok? ==> HeldOption(BooleanK, randomIv) && Laid(trail, 6, old(SlotOf(randomIv)), SlotOf(randomIv))
      ensures r.Ok? ==> HeldOption(IntegerK, ivLength) && Laid(trail, 7, old(SlotOf(ivLength)), SlotOf(ivLength))
      ensures r.Ok? ==> HeldOption(IntegerK, tagLength) && Laid(trail, 8, old(SlotOf(tagLength)), SlotOf(tagLength))
      ensures r.Ok? ==> HeldOption(IntegerK, fixedFieldLength)
      ensures r.Ok? ==> Laid(trail, 9, old(SlotOf(fixedFieldLength)), SlotOf(fixedFieldLength))
      ensures r.Ok? ==> HeldOption(IntegerK, invocationFieldLength)
      ensures r.Ok? ==> Laid(trail, 10, old(SlotOf(invocationFieldLength)), SlotOf(invocationFieldLength))
      ensures r.Ok? ==> HeldOption(IntegerK, counterLength)
      ensures r.Ok? ==> Laid(trail, 11, old(SlotOf(counterLength)), SlotOf(counterLength))
      ensures r.Ok? ==> HeldOption(IntegerK, initialCounterValue)
      ensures r.Ok? ==> Laid(trail, 12, old(SlotOf(initialCounterValue)), SlotOf(initialCounterValue))
      ensures r.Err? ==> trail.Outcome().Err?
    {
      hide Decode, HeldOption, Trail.At, Trail.Outcome, Laid, SlotOf, CRYPTOGRAPHIC_PARAMETERS_FIELDS;
      ParameterFields();
      randomIv :- ReadOver(t, Field(RANDOM_IV, BooleanK, Optional), randomIv, trail, 6);
      ivLength :- ReadOver(t, Field(IV_LENGTH, IntegerK, Optional), ivLength, trail, 7);
      tagLength :- ReadOver(t, Field(TAG_LENGTH, IntegerK, Optional), tagLength, trail, 8);
      fixedFieldLength :- ReadOver(t, Field(FIXED_FIELD_LENGTH, IntegerK, Optional), fixedFieldLength, trail, 9);
      invocationFieldLength :- ReadOver(t, Field(INVOCATION_FIELD_LENGTH, IntegerK, Optional),
                                        invocationFieldLength, trail, 10);
      counterLength :- ReadOver(t, Field(COUNTER_LENGTH, IntegerK, Optional), counterLength, trail, 11);
      initialCounterValue :- ReadOver(t, Field(INITIAL_COUNTER_VALUE, IntegerK, Optional),
                                      initialCounterValue, trail, 12);
      return Ok(());
    }

    method Read(istream: BytearrayStream) returns (r: Result<()>)
      requires Valid()
      modifies this, istream
      ensures var d := Decode(CRYPTOGRAPHIC_PARAMETERS, CRYPTOGRAPHIC_PARAMETERS_K, old(istream.buffer));
        && (r.Ok? <==> d.Ok?)
        && (r.Ok? ==> Valid() && d.value.0.Struct? && |d.value.0.slots| == 13
                      && View() == Overlay(old(View()), d.value.0) && istream.buffer == d.value.1)
    {
      hide Decode, HeldOption, Trail.At, Laid, CRYPTOGRAPHIC_PARAMETERS_FIELDS;
      ParameterFields();
      ghost var trail := Trail(CRYPTOGRAPHIC_PARAMETERS, istream.buffer, CRYPTOGRAPHIC_PARAMETERS_FIELDS);
      var t :- ReadBody(istream, trail, CRYPTOGRAPHIC_PARAMETERS);
      var _ :- ReadChoices(t, trail);
      var _ :- ReadNumbers(t, trail);
      r := ReadEnd(t, trail);
      if r.Ok? {
        AllLaid(trail, old(Slots()), Slots());
      }
    }

    /** The first six fields, all enumerations. */
    method WriteChoices(t: BytearrayStream, ghost slots: seq<Slot>) returns (r: Result<()>)
      requires Valid() && slots == Slots() && Written(CRYPTOGRAPHIC_PARAMETERS_FIELDS, slots, 0, t.buffer)
      modifies t
      ensures r.Ok? ==> Written(CRYPTOGRAPHIC_PARAMETERS_FIELDS, slots, 6, t.buffer)
      ensures r.Err? ==> !Writable(CRYPTOGRAPHIC_PARAMETERS_K, Struct(slots))
    {
      hide Writable, WritableSlot, HeldOption, Written, SlotOf, CRYPTOGRAPHIC_PARAMETERS_FIELDS;
      ParameterFields();
      hide Slots;
      ghost var fs := CRYPTOGRAPHIC_PARAMETERS_FIELDS;
      var _ :- WriteNext(t, Field(BLOCK_CIPHER_MODE, EnumerationK(BlockCipherModes), Optional),
                         blockCipherMode, fs, slots, 0);
      var _ :- WriteNext(t, Field(PADDING_METHOD, EnumerationK(PaddingMethods), Optional),
                         paddingMethod, fs, slots, 1);
      var _ :- WriteNext(t, Field(HASHING_ALGORITHM, EnumerationK(HashingAlgorithms), Optional),
                         hashingAlgorithm, fs, slots, 2);
      var _ :- WriteNext(t, Field(KEY_ROLE_TYPE, EnumerationK(KeyRoleTypes), Optional), keyRoleType, fs, slots, 3);
      var _ :- WriteNext(t, Field(DIGITAL_SIGNATURE_ALGORITHM, EnumerationK(DigitalSignatureAlgorithms), Optional),
                         digitalSignatureAlgorithm, fs, slots, 4);
      var _ :- WriteNext(t, Field(CRYPTOGRAPHIC_ALGORITHM, EnumerationK(CryptographicAlgorithms), Optional),
                         cryptographicAlgorithm, fs, slots, 5);
      return Ok(());
    }

    /** The flag and the six integers. */
    method WriteNumbers(t: BytearrayStream, ghost slots: seq<Slot>) returns (r: Result<()>)
      requires Valid() && slots == Slots() && Written(CRYPTOGRAPHIC_PARAMETERS_FIELDS, slots, 6, t.buffer)
      modifies t
      ensures r.Ok? ==> Written(CRYPTOGRAPHIC_PARAMETERS_FIELDS, slots, 13, t.buffer)
      ensures r.Err? ==> !Writable(CRYPTOGRAPHIC_PARAMETERS_K, Struct(slots))
    {
      hide Writable, WritableSlot, HeldOption, Written, SlotOf, CRYPTOGRAPHIC_PARAMETERS_FIELDS;
      ParameterFields();
      hide Slots;
      ghost var fs := CRYPTOGRAPHIC_PARAMETERS_FIELDS;
      var _ :- WriteNext(t, Field(RANDOM_IV, BooleanK, Optional), randomIv, fs, slots, 6);
      var _ :- WriteNext(t, Field(IV_LENGTH, IntegerK, Optional), ivLength, fs, slots, 7);
      var _ :- WriteNext(t, Field(TAG_LENGTH, IntegerK, Optional), tagLength, fs, slots, 8);
      var _ :- WriteNext(t, Field(FIXED_FIELD_LENGTH, IntegerK, Optional), fixedFieldLength, fs, slots, 9);
      var _ :- WriteNext(t, Field(INVOCATION_FIELD_LENGTH, IntegerK, Optional), invocationFieldLength, fs, slots, 10);
      var _ :- WriteNext(t, Field(COUNTER_LENGTH, IntegerK, Optional), counterLength, fs, slots, 11);
      var _ :- WriteNext(t, Field(INITIAL_COUNTER_VALUE, IntegerK, Optional), initialCounterValue, fs, slots, 12);
      return Ok(());
    }

    method Write(ostream: BytearrayStream) returns (r: Result<()>)
      requires Valid()
      modifies ostream
      ensures r.Ok? <==> Writable(CRYPTOGRAPHIC_PARAMETERS_K, View())
      ensures r.Ok? ==>
        ostream.buffer == old(ostream.buffer) + Encode(CRYPTOGRAPHIC_PARAMETERS, CRYPTOGRAPHIC_PARAMETERS_K, View())
    {
      hide Encode, Writable, WritableSlot, HeldOption, Written;
      ParameterFields();
      ghost var fs, slots := CRYPTOGRAPHIC_PARAMETERS_FIELDS, Slots();
      hide Slots, CRYPTOGRAPHIC_PARAMETERS_FIELDS;
      var t := new BytearrayStream([]);
      WrittenNothing(fs, slots);
      var _ :- WriteChoices(t, slots);
      var _ :- WriteNumbers(t, slots);
      r := WriteStruct(ostream, CRYPTOGRAPHIC_PARAMETERS, t, fs, slots);
    }
  }

  method NewParameters(t: BytearrayStream) returns (r: Result<CryptographicParameters>)
    modifies t
    ensures var d := Decode(CRYPTOGRAPHIC_PARAMETERS, CRYPTOGRAPHIC_PARAMETERS_K, old(t.buffer));
      if r.Ok? then d == Ok((r.value.View(), t.buffer)) else d.Err?
    ensures r.Ok? ==> fresh(r.value) && r.value.Valid()
  {
    hide Decode, CRYPTOGRAPHIC_PARAMETERS_FIELDS, CryptographicParameters.Valid;
    var parameters := new CryptographicParameters();
    ghost var was := parameters.View();
    var _ :- parameters.Read(t);
    NothingToKeep(was, Decode(CRYPTOGRAPHIC_PARAMETERS, CRYPTOGRAPHIC_PARAMETERS_K, old(t.buffer)).value.0);
    r := Ok(parameters);
  }

  // ---- key wrapping data

  /** objects.EncryptionKeyInformation and objects.MACSignatureKeyInformation, which
      differ in the tag. */
  class KeyInformation {
    const tag: Tag
    var uniqueIdentifier: Option<Value>
    var cryptographicParameters: CryptographicParameters?

    constructor (uniqueIdentifier: Option<Value>, cryptographicParameters: CryptographicParameters?, tag: Tag)
      requires HeldOption(TextStringK, uniqueIdentifier)
      requires cryptographicParameters != null ==> cryptographicParameters.Valid()
      ensures Valid() && this.tag == tag
      ensures this.uniqueIdentifier == uniqueIdentifier && this.cryptographicParameters == cryptographicParameters
    {
      this.tag, this.uniqueIdentifier, this.cryptographicParameters := tag, uniqueIdentifier, cryptographicParameters;
    }

    ghost predicate Valid()
      reads this, cryptographicParameters
    {
      && HeldOption(TextStringK, uniqueIdentifier)
      && (cryptographicParameters != null ==> cryptographicParameters.Valid())
    }

    ghost function Slots(): (slots: seq<Slot>)
      reads this, cryptographicParameters
      ensures |slots| == 2
    {
      [SlotOf(uniqueIdentifier),
       if cryptographicParameters == null then Absent else One(cryptographicParameters.View())]
    }

    ghost function View(): Value
      reads this, cryptographicParameters
    {
      Struct(Slots())
    }

    method Read(istream: BytearrayStream) returns (r: Result<()>)
      requires Valid()
      modifies this, istream
      ensures var d := Decode(tag, KEY_INFORMATION_K, old(istream.buffer));
        && (r.Ok? <==> d.Ok?)
        && (r.Ok? ==> Valid() && d.value.0.Struct? && |d.value.0.slots| == 2
                      && View() == Overlay(old(View()), d.value.0) && istream.buffer == d.value.1)
    {
      hide Decode, Trail.At, Laid, HeldPrimitive, CryptographicParameters.View, CryptographicParameters.Valid;
      hide CRYPTOGRAPHIC_PARAMETERS_FIELDS;
      ghost var trail := Trail(tag, istream.buffer, KEY_INFORMATION_FIELDS);
      var t :- ReadBody(istream, trail, tag);
      uniqueIdentifier :- ReadOver(t, Field(UNIQUE_IDENTIFIER, TextStringK, Mandatory(ValueError)),
                                   uniqueIdentifier, trail, 0);
      TrailStepOption(trail, 1, t.buffer, old(Slots())[1]);
      var next := P.TagNext(CRYPTOGRAPHIC_PARAMETERS, t);
      if next {
        cryptographicParameters :- NewParameters(t);
      }
      r := ReadEnd(t, trail);
      if r.Ok? {
        AllLaid(trail, old(Slots()), Slots());
      }
    }

    method Write(ostream: BytearrayStream) returns (r: Result<()>)
      requires Valid()
      modifies ostream
      ensures r.Ok? <==> Writable(KEY_INFORMATION_K, View())
      ensures r.Ok? ==> ostream.buffer == old(ostream.buffer) + Encode(tag, KEY_INFORMATION_K, View())
    {
      hide Encode, Writable, Written, HeldPrimitive, CryptographicParameters.View, CryptographicParameters.Valid;
      hide CRYPTOGRAPHIC_PARAMETERS_FIELDS;
      ghost var fs, slots := KEY_INFORMATION_FIELDS, Slots();
      var t := new BytearrayStream([]);
      WrittenNothing(fs, slots);
      var _ :- WriteNext(t, Field(UNIQUE_IDENTIFIER, TextStringK, Mandatory(ValueError)),
                         uniqueIdentifier, fs, slots, 0);
      WrittenNext(fs, slots, 1, t.buffer);
      if cryptographicParameters != null {
        var _ :- cryptographicParameters.Write(t);
      }
      r := WriteStruct(ostream, tag, t, fs, slots);
    }
  }

  method NewKeyInformation(t: BytearrayStream, tag: Tag) returns (r: Result<KeyInformation>)
    modifies t
    ensures var d := Decode(tag, KEY_INFORMATION_K, old(t.buffer));
      if r.Ok? then d == Ok((r.value.View(), t.buffer)) else d.Err?
    ensures r.Ok? ==> fresh(r.value) && r.value.tag == tag && r.value.Valid()
  {
    hide Decode, KEY_INFORMATION_FIELDS;
    var information := new KeyInformation(None, null, tag);
    ghost var was := information.View();
    var _ :- information.Read(t);
    NothingToKeep(was, Decode(tag, KEY_INFORMATION_K, old(t.buffer)).value.0);
    r := Ok(information);
  }

  /** objects.KeyWrappingData */
  class KeyWrappingData {
    var wrappingMethod: Option<Value>
    var encryptionKeyInformation: KeyInformation?
    var macSignatureKeyInformation: KeyInformation?
    var macSignature: Option<Value>
    var ivCounterNonce: Option<Value>
    var encodingOption: Option<Value>

    /** With nothing set. */
    constructor ()
      ensures Valid()
      ensures View() == Struct([Absent, Absent, Absent, Absent, Absent, Absent])
    {
      wrappingMethod, macSignature, ivCounterNonce, encodingOption := None, None, None, None;
      encryptionKeyInformation, macSignatureKeyInformation := null, null;
    }

    static ghost function ViewOf(information: KeyInformation?): Slot
      reads information, if information == null then null else information.cryptographicParameters
    {
      if information == null then Absent else One(information.View())
    }

    ghost predicate Valid()
      reads this, encryptionKeyInformation, macSignatureKeyInformation
      reads if encryptionKeyInformation == null then null else encryptionKeyInformation.cryptographicParameters
      reads if macSignatureKeyInformation == null then null else macSignatureKeyInformation.cryptographicParameters
    {
      && HeldOption(EnumerationK(WrappingMethods), wrappingMethod)
      && (encryptionKeyInformation != null ==>
            encryptionKeyInformation.Valid() && encryptionKeyInformation.tag == ENCRYPTION_KEY_INFORMATION)
      && (macSignatureKeyInformation != null ==>
            macSignatureKeyInformation.Valid() && macSignatureKeyInformation.tag == MAC_SIGNATURE_KEY_INFORMATION)
      && HeldOption(ByteStringK, macSignature)
      && HeldOption(ByteStringK, ivCounterNonce)
      && HeldOption(EnumerationK(EncodingOptions), encodingOption)
    }

    ghost function Slots(): (slots: seq<Slot>)
      reads this, encryptionKeyInformation, macSignatureKeyInformation
      reads if encryptionKeyInformation == null then null else encryptionKeyInformation.cryptographicParameters
      reads if macSignatureKeyInformation == null then null else macSignatureKeyInformation.cryptographicParameters
      ensures |slots| == 6
    {
      [SlotOf(wrappingMethod), ViewOf(encryptionKeyInformation), ViewOf(macSignatureKeyInformation),
       SlotOf(macSignature), SlotOf(ivCounterNonce), SlotOf(encodingOption)]
    }

    ghost function View(): Value
      reads this, encryptionKeyInformation, macSignatureKeyInformation
      reads if encryptionKeyInformation == null then null else encryptionKeyInformation.cryptographicParameters
      reads if macSignatureKeyInformation == null then null else macSignatureKeyInformation.cryptographicParameters
    {
      Struct(Slots())
    }

    /** The key informations, each read into a new object. */
    method ReadInformations(t: BytearrayStream, ghost trail: Trail) returns (r: Result<()>)
      requires trail.fields == KEY_WRAPPING_DATA_FIELDS && trail.At(1, t.buffer)
      requires Valid()
      modifies t, `encryptionKeyInformation, `macSignatureKeyInformation
      ensures r.Ok? ==> Valid() && trail.At(3, t.buffer)
      ensures r.Ok? ==> Laid(trail, 1, old(ViewOf(encryptionKeyInformation)), ViewOf(encryptionKeyInformation))
      ensures r.Ok? ==> Laid(trail, 2, old(ViewOf(macSignatureKeyInformation)), ViewOf(macSignatureKeyInformation))
      ensures r.Err? ==> trail.Outcome().Err?
    {
      hide Decode, DecodeHeader, DecodeSlot, Trail.At, Laid, HeldOption, KeyInformation.View;
      hide KeyInformation.Valid, KEY_INFORMATION_FIELDS;
      TrailStepOption(trail, 1, t.buffer, ViewOf(encryptionKeyInformation));
      var next := P.TagNext(ENCRYPTION_KEY_INFORMATION, t);
      if next {
        encryptionKeyInformation :- NewKeyInformation(t, ENCRYPTION_KEY_INFORMATION);
      }
      TrailStepOption(trail, 2, t.buffer, ViewOf(macSignatureKeyInformation));
      next := P.TagNext(MAC_SIGNATURE_KEY_INFORMATION, t);
      if next {
        macSignatureKeyInformation :- NewKeyInformation(t, MAC_SIGNATURE_KEY_INFORMATION);
      }
      r := Ok(());
    }

    /** The last three fields. */
    method ReadRest(t: BytearrayStream, ghost trail: Trail) returns (r: Result<()>)
      requires trail.fields == KEY_WRAPPING_DATA_FIELDS && trail.At(3, t.buffer)
      requires HeldOption(ByteStringK, macSignature) && HeldOption(ByteStringK, ivCounterNonce)
      requires HeldOption(EnumerationK(EncodingOptions), encodingOption)
      modifies t, `macSignature, `ivCounterNonce, `encodingOption
      ensures r.Ok? ==> trail.At(6, t.buffer)
      ensures r.Ok? ==> HeldOption(ByteStringK, macSignature) && HeldOption(ByteStringK, ivCounterNonce)
      ensures r.Ok? ==> HeldOption(EnumerationK(EncodingOptions), encodingOption)
      ensures r.Ok? ==> Laid(trail, 3, old(SlotOf(macSignature)), SlotOf(macSignature))
      ensures r.Ok? ==> Laid(trail, 4, old(SlotOf(ivCounterNonce)), SlotOf(ivCounterNonce))
      ensures r.Ok? ==> Laid(trail, 5, old(SlotOf(encodingOption)), SlotOf(encodingOption))
      ensures r.Err? ==> trail.Outcome().Err?
    {
      hide Decode, Trail.At, Laid, HeldOption, SlotOf, KEY_WRAPPING_DATA_FIELDS;
      WrappingFields();
      macSignature :- ReadOver(t, Field(MAC_SIGNATURE, ByteStringK, Optional), macSignature, trail, 3);
      ivCounterNonce :- ReadOver(t, Field(IV_COUNTER_NONCE, ByteStringK, Optional), ivCounterNonce, trail, 4);
      encodingOption :- ReadOver(t, Field(ENCODING_OPTION, EnumerationK(EncodingOptions), Optional),
                                 encodingOption, trail, 5);
      r := Ok(());
    }

    method Read(istream: BytearrayStream) returns (r: Result<()>)
      requires Valid()
      modifies this, istream
      ensures var d := Decode(KEY_WRAPPING_DATA, KEY_WRAPPING_DATA_K, old(istream.buffer));
        && (r.Ok? <==> d.Ok?)
        && (r.Ok? ==> Valid() && d.value.0.Struct? && |d.value.0.slots| == 6
                      && View() == Overlay(old(View()), d.value.0) && istream.buffer == d.value.1)
    {
      hide Decode, DecodeHeader, DecodeSlot, Trail.At, Laid, HeldOption, SlotOf, KeyInformation.View;
      hide KeyInformation.Valid, KEY_WRAPPING_DATA_FIELDS;
      WrappingFields();
      ghost var trail := Trail(KEY_WRAPPING_DATA, istream.buffer, KEY_WRAPPING_DATA_FIELDS);
      ghost var was := Slots();
      var t :- ReadBody(istream, trail, KEY_WRAPPING_DATA);
      wrappingMethod :- ReadOver(t, Field(WRAPPING_METHOD, EnumerationK(WrappingMethods), Mandatory(ValueError)),
                                 wrappingMethod, trail, 0);
      var _ :- ReadInformations(t, trail);
      var _ :- ReadRest(t, trail);
      r := ReadEnd(t, trail);
      if r.Ok? {
        AllLaid(trail, was, Slots());
      }
    }

    method WriteInformations(t: BytearrayStream, ghost slots: seq<Slot>) returns (r: Result<()>)
      requires Valid() && slots == Slots() && Written(KEY_WRAPPING_DATA_FIELDS, slots, 1, t.buffer)
      modifies t
      ensures r.Ok? ==> Written(KEY_WRAPPING_DATA_FIELDS, slots, 3, t.buffer)
      ensures r.Err? ==> !Writable(KEY_WRAPPING_DATA_K, Struct(slots))
    {
      hide Encode, Writable, Written, HeldOption, KeyInformation.View, KeyInformation.Valid, KEY_INFORMATION_FIELDS;
      WrittenNext(KEY_WRAPPING_DATA_FIELDS, slots, 1, t.buffer);
      if encryptionKeyInformation != null {
        var _ :- encryptionKeyInformation.Write(t);
      }
      WrittenNext(KEY_WRAPPING_DATA_FIELDS, slots, 2, t.buffer);
      if macSignatureKeyInformation != null {
        var _ :- macSignatureKeyInformation.Write(t);
      }
      r := Ok(());
    }

    method WriteRest(t: BytearrayStream, ghost slots: seq<Slot>) returns (r: Result<()>)
      requires Valid() && slots == Slots() && Written(KEY_WRAPPING_DATA_FIELDS, slots, 3, t.buffer)
      modifies t
      ensures r.Ok? ==> Written(KEY_WRAPPING_DATA_FIELDS, slots, 6, t.buffer)
      ensures r.Err? ==> !Writable(KEY_WRAPPING_DATA_K, Struct(slots))
    {
      hide Encode, Writable, Written, HeldOption, SlotOf, ViewOf, KeyInformation.Valid, KEY_WRAPPING_DATA_FIELDS;
      WrappingFields();
      assert slots[3] == SlotOf(macSignature) && slots[4] == SlotOf(ivCounterNonce);
      assert slots[5] == SlotOf(encodingOption);
      hide Slots;
      ghost var fs := KEY_WRAPPING_DATA_FIELDS;
      var _ :- WriteNext(t, Field(MAC_SIGNATURE, ByteStringK, Optional), macSignature, fs, slots, 3);
      var _ :- WriteNext(t, Field(IV_COUNTER_NONCE, ByteStringK, Optional), ivCounterNonce, fs, slots, 4);
      var _ :- WriteNext(t, Field(ENCODING_OPTION, EnumerationK(EncodingOptions), Optional),
                         encodingOption, fs, slots, 5);
      r := Ok(());
    }

    method Write(ostream: BytearrayStream) returns (r: Result<()>)
      requires Valid()
      modifies ostream
      ensures r.Ok? <==> Writable(KEY_WRAPPING_DATA_K, View())
      ensures r.Ok? ==> ostream.buffer == old(ostream.buffer) + Encode(KEY_WRAPPING_DATA, KEY_WRAPPING_DATA_K, View())
    {
      hide Encode, Writable, Written, HeldOption, SlotOf, KeyInformation.View, KeyInformation.Valid;
      hide KEY_WRAPPING_DATA_FIELDS;
      WrappingFields();
      ghost var fs, slots := KEY_WRAPPING_DATA_FIELDS, Slots();
      var t := new BytearrayStream([]);
      WrittenNothing(fs, slots);
      var _ :- WriteNext(t, Field(WRAPPING_METHOD, EnumerationK(WrappingMethods), Mandatory(ValueError)),
                         wrappingMethod, fs, slots, 0);
      var _ :- WriteInformations(t, slots);
      var _ :- WriteRest(t, slots);
      r := WriteStruct(ostream, KEY_WRAPPING_DATA, t, fs, slots);
    }
  }

  method NewKeyWrappingData(t: BytearrayStream) returns (r: Result<KeyWrappingData>)
    modifies t
    ensures var d := Decode(KEY_WRAPPING_DATA, KEY_WRAPPING_DATA_K, old(t.buffer));
      if r.Ok? then d == Ok((r.value.View(), t.buffer)) else d.Err?
    ensures r.Ok? ==> fresh(r.value) && r.value.Valid()
  {
    hide Decode, KEY_WRAPPING_DATA_FIELDS;
    var data := new KeyWrappingData();
    ghost var was := data.View();
    var _ :- data.Read(t);
    NothingToKeep(was, Decode(KEY_WRAPPING_DATA, KEY_WRAPPING_DATA_K, old(t.buffer)).value.0);
    r := Ok(data);
  }

  // ---- keys

  method ReadMaterial(t: BytearrayStream, ghost trail: Trail) returns (r: Result<Value>)
    requires trail.fields == KEY_VALUE_FIELDS && trail.At(0, t.buffer)
    modifies t
    ensures r.Ok? ==> r.value.Octets? && trail.At(1, t.buffer) && Laid(trail, 0, Absent, One(r.value))
    ensures r.Err? ==> trail.Outcome().Err?
  {
    hide Decode, Trail.At, Laid, KEY_VALUE_FIELDS, ATTRIBUTE_LIST;
    KeyValueFields();
    var structured := P.TypeNext(1, t);
    if structured {
      StructuredMaterial(trail, t.buffer);
      return Err(TypeError);
    }
    r := ReadRequired(t, KEY_MATERIAL, ByteStringK, Absent, trail, 0);
    if r.Ok? {
      MaterialIsBytes(r.value);
    }
  }

  lemma KeyValueRead(trail: Trail, material: Value, vs: seq<Value>)
    requires |trail.fields| == 2 && trail.Outcome().Ok?
    requires Laid(trail, 0, Absent, One(material)) && Laid(trail, 1, Absent, Many(vs))
    ensures trail.Outcome().value.0 == Struct([One(material), Many(vs)])
  {
    hide Decode;
    var read := [One(material), Many(vs)];
    StructDecode(trail.tag, trail.fields, trail.source);
    assert trail.Outcome().value.0.slots == read;
  }

  /** objects.KeyValue, with its key material as plain bytes. */
  class KeyValue {
    var keyMaterial: Value
    var attributes: seq<Attribute>

    constructor (keyMaterial: seq<byte>, attributes: seq<Attribute>)
      requires AllValid(attributes)
      ensures Valid() && this.keyMaterial == Octets(keyMaterial) && this.attributes == attributes
    {
      this.keyMaterial, this.attributes := Octets(keyMaterial), attributes;
    }

    ghost predicate Valid()
      reads this, attributes
    {
      keyMaterial.Octets? && AllValid(attributes)
    }

    ghost function Slots(): (slots: seq<Slot>)
      reads this, attributes
      ensures |slots| == 2
    {
      [One(keyMaterial), Many(Views(attributes))]
    }

    ghost function View(): Value
      reads this, attributes
    {
      Struct(Slots())
    }

    /** The attributes that are read are appended to those the object has. Key
        material that is a structure is always refused. */
    method Read(istream: BytearrayStream) returns (r: Result<()>)
      requires Valid()
      modifies this, istream
      ensures var d := Decode(KEY_VALUE, KEY_VALUE_K, old(istream.buffer));
        && (r.Ok? <==> d.Ok?)
        && (r.Ok? ==> d.value.0.Struct? && |d.value.0.slots| == 2 && d.value.0.slots[1].Many?
                      && d.value.0.slots[0] == One(keyMaterial) && istream.buffer == d.value.1
                      && Views(attributes) == old(Views(attributes)) + d.value.0.slots[1].vs)
      ensures r.Ok? ==> Valid()
    {
      hide Decode, DecodeMany, DecodeHeader, DecodeSlot, Trail.At, Laid, Views, AllMatched;
      hide ATTRIBUTE_KINDS, KEY_VALUE_FIELDS, ATTRIBUTE_LIST;
      KeyValueFields();
      ghost var trail := Trail(KEY_VALUE, istream.buffer, KEY_VALUE_FIELDS);
      var t :- ReadBody(istream, trail, KEY_VALUE);
      keyMaterial :- ReadMaterial(t, trail);
      TrailStepMany(trail, 1, t.buffer, Absent);
      var more :- ReadAttributes(t);
      r := ReadEnd(t, trail);
      if r.Ok? {
        KeyValueRead(trail, keyMaterial, Views(more));
        ViewsOfBoth(attributes, more);
      }
      attributes := attributes + more;
    }

    /** The layout and the state that a write produces, the attributes one by one. */
    ghost function Layout(): Kind
      reads this, attributes
    {
      StructK([Field(KEY_MATERIAL, ByteStringK, Required)] + ListFields(Layouts(attributes)))
    }

    ghost function Flat(): Value
      reads this, attributes
    {
      Struct([One(keyMaterial)] + Ones(Views(attributes)))
    }

    /** Attributes of the classes that their names select are the list of the wire format. */
    lemma MatchedLayout()
      requires AllMatched(attributes)
      ensures Alike(KEY_VALUE, Layout(), Flat(), KEY_VALUE_K, View())
    {
      hide Alike, AllAlike, AllMatched, Views, Layouts, ListFields, Ones, ATTRIBUTE_LIST, KEY_VALUE_FIELDS;
      KeyValueFields();
      MatchedAlike(attributes);
      ListAlike(KEY_VALUE, Field(KEY_MATERIAL, ByteStringK, Required), One(keyMaterial),
                Layouts(attributes), Views(attributes));
    }

    method Write(ostream: BytearrayStream) returns (r: Result<()>)
      requires Valid()
      modifies ostream
      ensures r.Ok? <==> Writable(Layout(), Flat())
      ensures r.Ok? ==> ostream.buffer == old(ostream.buffer) + Encode(KEY_VALUE, Layout(), Flat())
      ensures AllMatched(attributes) ==>
        && (r.Ok? <==> Writable(KEY_VALUE_K, View()))
        && (r.Ok? ==> ostream.buffer == old(ostream.buffer) + Encode(KEY_VALUE, KEY_VALUE_K, View()))
    {
      hide Encode, Writable, WritableSlot, EncodeSlot, Written, Views, Layouts, ListFields, Ones;
      hide ATTRIBUTE_KINDS, KEY_VALUE_FIELDS, ATTRIBUTE_LIST, AllMatched, View;
      if AllMatched(attributes) {
        MatchedLayout();
      }
      ghost var fs, slots := Layout().fields, Flat().slots;
      var t := new BytearrayStream([]);
      WrittenNothing(fs, slots);
      var _ :- WriteNext(t, Field(KEY_MATERIAL, ByteStringK, Required), Some(keyMaterial), fs, slots, 0);
      var _ :- WriteAttributes(t, attributes, fs, slots, 1);
      r := WriteStruct(ostream, KEY_VALUE, t, fs, slots);
    }
  }

  lemma KeyValueFields()
    ensures KEY_VALUE_FIELDS == [Field(KEY_MATERIAL, ByteStringK, Required), ATTRIBUTE_LIST]
    ensures ATTRIBUTE_LIST.mode.Repeated? && Plain(ByteStringK)
  {
    hide ATTRIBUTE_KINDS;
  }

  lemma MaterialIsBytes(v: Value)
    ensures Held(ByteStringK, v) <==> v.Octets?
  {
  }

  lemma StructuredMaterial(trail: Trail, buffer: seq<byte>)
    requires trail.fields != [] && trail.fields[0] == Field(KEY_MATERIAL, ByteStringK, Required)
    requires trail.At(0, buffer) && |buffer| >= 4 && buffer[3] == 1
    ensures trail.Outcome().Err?
  {
    TrailStep(trail, 0, buffer);
    hide Trail.At, DecodeFields;
  }

  lemma ViewsOfBoth(some: seq<Attribute>, more: seq<Attribute>)
    ensures Views(some + more) == Views(some) + Views(more)
  {
  }

  method NewKeyValue(t: BytearrayStream) returns (r: Result<KeyValue>)
    modifies t
    ensures var d := Decode(KEY_VALUE, KEY_VALUE_K, old(t.buffer));
      if r.Ok? then d == Ok((r.value.View(), t.buffer)) else d.Err?
    ensures r.Ok? ==> fresh(r.value) && r.value.Valid()
  {
    hide Decode, KEY_VALUE_FIELDS;
    var value := new KeyValue([], []);
    var _ :- value.Read(t);
    ghost var slots := Decode(KEY_VALUE, KEY_VALUE_K, old(t.buffer)).value.0.slots;
    assert Views(value.attributes) == slots[1].vs;
    assert slots == value.Slots();
    r := Ok(value);
  }

  /** objects.KeyBlock */
  class KeyBlock {
    var keyFormatType: Option<Value>
    var keyCompressionType: Option<Value>
    var keyValue: KeyValue?
    var cryptographicAlgorithm: Option<Value>
    var cryptographicLength: Option<Value>
    var keyWrappingData: KeyWrappingData?

    /** With nothing set. */
    constructor ()
      ensures Valid()
      ensures View() == Struct([Absent, Absent, Absent, Absent, Absent, Absent])
    {
      keyFormatType, keyCompressionType, cryptographicAlgorithm, cryptographicLength := None, None, None, None;
      keyValue, keyWrappingData := null, null;
    }

    static ghost function ValueSlot(value: KeyValue?): Slot
      reads value, if value == null then [] else value.attributes
    {
      if value == null then Absent else One(value.View())
    }

    static ghost function WrappingSlot(data: KeyWrappingData?): Slot
      reads data, if data == null then null else data.encryptionKeyInformation
      reads if data == null then null else data.macSignatureKeyInformation
      reads if data == null || data.encryptionKeyInformation == null
        then null else data.encryptionKeyInformation.cryptographicParameters
      reads if data == null || data.macSignatureKeyInformation == null
        then null else data.macSignatureKeyInformation.cryptographicParameters
    {
      if data == null then Absent else One(data.View())
    }

    ghost predicate Valid()
      reads this, keyValue, if keyValue == null then [] else keyValue.attributes
      reads keyWrappingData, if keyWrappingData == null then null else keyWrappingData.encryptionKeyInformation
      reads if keyWrappingData == null then null else keyWrappingData.macSignatureKeyInformation
      reads if keyWrappingData == null || keyWrappingData.encryptionKeyInformation == null
        then null else keyWrappingData.encryptionKeyInformation.cryptographicParameters
      reads if keyWrappingData == null || keyWrappingData.macSignatureKeyInformation == null
        then null else keyWrappingData.macSignatureKeyInformation.cryptographicParameters
    {
      && HeldOption(EnumerationK(KeyFormatTypes), keyFormatType)
      && HeldOption(EnumerationK(KeyCompressionTypes), keyCompressionType)
      && (keyValue != null ==> keyValue.Valid())
      && HeldOption(EnumerationK(CryptographicAlgorithms), cryptographicAlgorithm)
      && HeldOption(IntegerK, cryptographicLength)
      && (keyWrappingData != null ==> keyWrappingData.Valid())
    }

    ghost predicate Matched()
      reads this, keyValue, if keyValue == null then [] else keyValue.attributes
    {
      keyValue != null ==> AllMatched(keyValue.attributes)
    }

    ghost function Slots(): (slots: seq<Slot>)
      reads this, keyValue, if keyValue == null then [] else keyValue.attributes
      reads keyWrappingData, if keyWrappingData == null then null else keyWrappingData.encryptionKeyInformation
      reads if keyWrappingData == null then null else keyWrappingData.macSignatureKeyInformation
      reads if keyWrappingData == null || keyWrappingData.encryptionKeyInformation == null
        then null else keyWrappingData.encryptionKeyInformation.cryptographicParameters
      reads if keyWrappingData == null || keyWrappingData.macSignatureKeyInformation == null
        then null else keyWrappingData.macSignatureKeyInformation.cryptographicParameters
      ensures |slots| == 6
    {
      [SlotOf(keyFormatType), SlotOf(keyCompressionType), ValueSlot(keyValue),
       SlotOf(cryptographicAlgorithm), SlotOf(cryptographicLength), WrappingSlot(keyWrappingData)]
    }

    ghost function View(): Value
      reads this, keyValue, if keyValue == null then [] else keyValue.attributes
      reads keyWrappingData, if keyWrappingData == null then null else keyWrappingData.encryptionKeyInformation
      reads if keyWrappingData == null then null else keyWrappingData.macSignatureKeyInformation
      reads if keyWrappingData == null || keyWrappingData.encryptionKeyInformation == null
        then null else keyWrappingData.encryptionKeyInformation.cryptographicParameters
      reads if keyWrappingData == null || keyWrappingData.macSignatureKeyInformation == null
        then null else keyWrappingData.macSignatureKeyInformation.cryptographicParameters
    {
      Struct(Slots())
    }

    /** The first three fields. */
    method ReadValues(t: BytearrayStream, ghost trail: Trail) returns (r: Result<()>)
      requires trail.fields == KEY_BLOCK_FIELDS && trail.At(0, t.buffer)
      requires HeldOption(EnumerationK(KeyFormatTypes), keyFormatType)
      requires HeldOption(EnumerationK(KeyCompressionTypes), keyCompressionType)
      modifies t, `keyFormatType, `keyCompressionType, `keyValue
      ensures r.Ok? ==> trail.At(3, t.buffer)
      ensures r.Ok? ==> HeldOption(EnumerationK(KeyFormatTypes), keyFormatType)
      ensures r.Ok? ==> HeldOption(EnumerationK(KeyCompressionTypes), keyCompressionType)
      ensures r.Ok? ==> keyValue != null && keyValue.Valid() && fresh(keyValue)
      ensures r.Ok? ==> Laid(trail, 0, old(SlotOf(keyFormatType)), SlotOf(keyFormatType))
      ensures r.Ok? ==> Laid(trail, 1, old(SlotOf(keyCompressionType)), SlotOf(keyCompressionType))
      ensures r.Ok? ==> Laid(trail, 2, old(ValueSlot(keyValue)), ValueSlot(keyValue))
      ensures r.Err? ==> trail.Outcome().Err?
    {
      hide Decode, DecodeHeader, Trail.At, Laid, HeldOption, SlotOf, KeyValue.View, KeyValue.Valid;
      hide KEY_BLOCK_FIELDS, KEY_VALUE_FIELDS;
      KeyBlockFields();
      ghost var was := ValueSlot(keyValue);
      keyFormatType :- ReadOver(t, Field(KEY_FORMAT_TYPE, EnumerationK(KeyFormatTypes), Required),
                                keyFormatType, trail, 0);
      keyCompressionType :- ReadOver(t, Field(KEY_COMPRESSION_TYPE, EnumerationK(KeyCompressionTypes), Optional),
                                     keyCompressionType, trail, 1);
      TrailStepOver(trail, 2, t.buffer, was);
      keyValue :- NewKeyValue(t);
      r := Ok(());
    }

    /** The last three fields. */
    method ReadOptions(t: BytearrayStream, ghost trail: Trail) returns (r: Result<()>)
      requires trail.fields == KEY_BLOCK_FIELDS && trail.At(3, t.buffer)
      requires HeldOption(EnumerationK(CryptographicAlgorithms), cryptographicAlgorithm)
      requires HeldOption(IntegerK, cryptographicLength) && (keyWrappingData != null ==> keyWrappingData.Valid())
      modifies t, `cryptographicAlgorithm, `cryptographicLength, `keyWrappingData
      ensures r.Ok? ==> trail.At(6, t.buffer)
      ensures r.Ok? ==> HeldOption(EnumerationK(CryptographicAlgorithms), cryptographicAlgorithm)
      ensures r.Ok? ==> HeldOption(IntegerK, cryptographicLength)
      ensures r.Ok? ==> keyWrappingData != null ==> keyWrappingData.Valid()
      ensures r.Ok? ==> Laid(trail, 3, old(SlotOf(cryptographicAlgorithm)), SlotOf(cryptographicAlgorithm))
      ensures r.Ok? ==> Laid(trail, 4, old(SlotOf(cryptographicLength)), SlotOf(cryptographicLength))
      ensures r.Ok? ==> Laid(trail, 5, old(WrappingSlot(keyWrappingData)), WrappingSlot(keyWrappingData))
      ensures r.Err? ==> trail.Outcome().Err?
    {
      hide Decode, DecodeHeader, DecodeSlot, Trail.At, Laid, HeldOption, SlotOf, KeyWrappingData.View;
      hide KeyWrappingData.Valid;
      hide KEY_BLOCK_FIELDS, KEY_WRAPPING_DATA_FIELDS;
      KeyBlockFields();
      ghost var was := WrappingSlot(keyWrappingData);
      cryptographicAlgorithm :- ReadOver(t, Field(CRYPTOGRAPHIC_ALGORITHM,
                                                  EnumerationK(CryptographicAlgorithms), Optional),
                                         cryptographicAlgorithm, trail, 3);
      cryptographicLength :- ReadOver(t, Field(CRYPTOGRAPHIC_LENGTH, IntegerK, Optional),
                                      cryptographicLength, trail, 4);
      TrailStepOption(trail, 5, t.buffer, was);
      var next := P.TagNext(KEY_WRAPPING_DATA, t);
      if next {
        keyWrappingData :- NewKeyWrappingData(t);
      }
      r := Ok(());
    }

    method Read(istream: BytearrayStream) returns (r: Result<()>)
      requires Valid()
      modifies this, istream
      ensures var d := Decode(KEY_BLOCK, KEY_BLOCK_K, old(istream.buffer));
        && (r.Ok? <==> d.Ok?)
        && (r.Ok? ==> Valid() && d.value.0.Struct? && |d.value.0.slots| == 6
                      && View() == Overlay(old(View()), d.value.0) && istream.buffer == d.value.1)
    {
      hide Decode, DecodeHeader, DecodeSlot, Trail.At, Laid, HeldOption, SlotOf, KeyValue.Valid;
      hide KeyWrappingData.Valid, KEY_BLOCK_FIELDS;
      hide KeyValue.View, KeyWrappingData.View;
      KeyBlockFields();
      ghost var trail := Trail(KEY_BLOCK, istream.buffer, KEY_BLOCK_FIELDS);
      ghost var was := Slots();
      var t :- ReadBody(istream, trail, KEY_BLOCK);
      var _ :- ReadValues(t, trail);
      var _ :- ReadOptions(t, trail);
      r := ReadEnd(t, trail);
      if r.Ok? {
        AllLaid(trail, was, Slots());
      }
    }

    /** The fields and the state that a write produces: those of the wire format,
        but for the key value, which has the layout of its own attributes. */
    ghost function ValueLayout(): Kind
      reads this, keyValue, if keyValue == null then [] else keyValue.attributes
    {
      if keyValue == null then KEY_VALUE_K else keyValue.Layout()
    }

    ghost function FlatValue(): Slot
      reads this, keyValue, if keyValue == null then [] else keyValue.attributes
    {
      if keyValue == null then Absent else One(keyValue.Flat())
    }

    ghost function Fields(): (fs: seq<Field>)
      reads this, keyValue, if keyValue == null then [] else keyValue.attributes
    {
      KEY_BLOCK_FIELDS[2 := Field(KEY_VALUE, ValueLayout(), Required)]
    }

    ghost function Layout(): Kind
      reads this, keyValue, if keyValue == null then [] else keyValue.attributes
    {
      StructK(Fields())
    }

    ghost function FlatSlots(): (slots: seq<Slot>)
      reads this, keyValue, if keyValue == null then [] else keyValue.attributes
      reads keyWrappingData, if keyWrappingData == null then null else keyWrappingData.encryptionKeyInformation
      reads if keyWrappingData == null then null else keyWrappingData.macSignatureKeyInformation
      reads if keyWrappingData == null || keyWrappingData.encryptionKeyInformation == null
        then null else keyWrappingData.encryptionKeyInformation.cryptographicParameters
      reads if keyWrappingData == null || keyWrappingData.macSignatureKeyInformation == null
        then null else keyWrappingData.macSignatureKeyInformation.cryptographicParameters
      ensures |slots| == 6
    {
      Slots()[2 := FlatValue()]
    }

    ghost function Flat(): Value
      reads this, keyValue, if keyValue == null then [] else keyValue.attributes
      reads keyWrappingData, if keyWrappingData == null then null else keyWrappingData.encryptionKeyInformation
      reads if keyWrappingData == null then null else keyWrappingData.macSignatureKeyInformation
      reads if keyWrappingData == null || keyWrappingData.encryptionKeyInformation == null
        then null else keyWrappingData.encryptionKeyInformation.cryptographicParameters
      reads if keyWrappingData == null || keyWrappingData.macSignatureKeyInformation == null
        then null else keyWrappingData.macSignatureKeyInformation.cryptographicParameters
    {
      Struct(FlatSlots())
    }

    lemma FieldsOneByOne()
      ensures |Fields()| == 6
      ensures Fields()[0] == Field(KEY_FORMAT_TYPE, EnumerationK(KeyFormatTypes), Required)
      ensures Fields()[1] == Field(KEY_COMPRESSION_TYPE, EnumerationK(KeyCompressionTypes), Optional)
      ensures Fields()[2] == Field(KEY_VALUE, ValueLayout(), Required)
      ensures Fields()[3] == Field(CRYPTOGRAPHIC_ALGORITHM, EnumerationK(CryptographicAlgorithms), Optional)
      ensures Fields()[4] == Field(CRYPTOGRAPHIC_LENGTH, IntegerK, Optional)
      ensures Fields()[5] == Field(KEY_WRAPPING_DATA, KEY_WRAPPING_DATA_K, Optional)
    {
      hide ValueLayout, KEY_BLOCK_FIELDS, KEY_VALUE_FIELDS, KEY_WRAPPING_DATA_FIELDS;
      KeyBlockFields();
    }

    /** Attributes of the classes that their names select are the list of the wire format. */
    lemma MatchedLayout()
      requires Matched()
      ensures Alike(KEY_BLOCK, Layout(), Flat(), KEY_BLOCK_K, View())
    {
      hide Alike, AlikeSlots, AllMatched, KeyValue.Layout, KeyValue.Flat, KeyValue.View;
      hide WrappingSlot, KEY_BLOCK_FIELDS, KEY_VALUE_FIELDS;
      KeyBlockFields();
      var f := Field(KEY_VALUE, ValueLayout(), Required);
      assert AlikeSlots(f, FlatValue(), KEY_BLOCK_FIELDS[2], Slots()[2]) by {
        if keyValue == null {
          AlikeNone(f, KEY_BLOCK_FIELDS[2]);
        } else {
          keyValue.MatchedLayout();
          AlikeOne(f, keyValue.Flat(), KEY_BLOCK_FIELDS[2], keyValue.View());
        }
      }
      AlikeUpdate(KEY_BLOCK, KEY_BLOCK_FIELDS, Slots(), 2, f, FlatValue());
    }

    method WriteValues(t: BytearrayStream, ghost fs: seq<Field>, ghost slots: seq<Slot>) returns (r: Result<()>)
      requires Valid() && fs == Fields() && slots == FlatSlots() && Written(fs, slots, 0, t.buffer)
      modifies t
      ensures r.Ok? ==> Written(fs, slots, 3, t.buffer)
      ensures r.Err? ==> !Writable(StructK(fs), Struct(slots))
    {
      hide Encode, Writable, Written, HeldOption, SlotOf, KeyValue.Valid, KeyValue.Flat, KeyValue.Layout;
      hide WrappingSlot, KeyWrappingData.Valid, KEY_BLOCK_FIELDS, KEY_VALUE_FIELDS, Fields;
      FieldsOneByOne();
      assert slots[0] == SlotOf(keyFormatType) && slots[1] == SlotOf(keyCompressionType);
      assert slots[2] == FlatValue();
      hide Slots;
      var _ :- WriteNext(t, Field(KEY_FORMAT_TYPE, EnumerationK(KeyFormatTypes), Required),
                         keyFormatType, fs, slots, 0);
      var _ :- WriteNext(t, Field(KEY_COMPRESSION_TYPE, EnumerationK(KeyCompressionTypes), Optional),
                         keyCompressionType, fs, slots, 1);
      WrittenNext(fs, slots, 2, t.buffer);
      if keyValue == null {
        return Err(AttributeError);
      }
      r := keyValue.Write(t);
    }

    method WriteOptions(t: BytearrayStream, ghost fs: seq<Field>, ghost slots: seq<Slot>) returns (r: Result<()>)
      requires Valid() && fs == Fields() && slots == FlatSlots() && Written(fs, slots, 3, t.buffer)
      modifies t
      ensures r.Ok? ==> Written(fs, slots, 6, t.buffer)
      ensures r.Err? ==> !Writable(StructK(fs), Struct(slots))
    {
      hide Encode, Writable, Written, HeldOption, SlotOf, KeyValue.Valid, KeyWrappingData.Valid;
      hide KeyWrappingData.View, FlatValue, Fields;
      hide KEY_BLOCK_FIELDS, KEY_WRAPPING_DATA_FIELDS;
      FieldsOneByOne();
      assert slots[3] == SlotOf(cryptographicAlgorithm) && slots[4] == SlotOf(cryptographicLength);
      assert slots[5] == WrappingSlot(keyWrappingData);
      hide Slots;
      var _ :- WriteNext(t, Field(CRYPTOGRAPHIC_ALGORITHM, EnumerationK(CryptographicAlgorithms), Optional),
                         cryptographicAlgorithm, fs, slots, 3);
      var _ :- WriteNext(t, Field(CRYPTOGRAPHIC_LENGTH, IntegerK, Optional), cryptographicLength, fs, slots, 4);
      WrittenNext(fs, slots, 5, t.buffer);
      if keyWrappingData != null {
        var _ :- keyWrappingData.Write(t);
      }
      r := Ok(());
    }

    method Write(ostream: BytearrayStream) returns (r: Result<()>)
      requires Valid()
      modifies ostream
      ensures r.Ok? <==> Writable(Layout(), Flat())
      ensures r.Ok? ==> ostream.buffer == old(ostream.buffer) + Encode(KEY_BLOCK, Layout(), Flat())
      ensures Matched() ==>
        && (r.Ok? <==> Writable(KEY_BLOCK_K, View()))
        && (r.Ok? ==> ostream.buffer == old(ostream.buffer) + Encode(KEY_BLOCK, KEY_BLOCK_K, View()))
    {
      hide Encode, Writable, Written, Valid, Fields, FlatSlots, Matched, View, KEY_BLOCK_FIELDS;
      if Matched() {
        MatchedLayout();
      }
      ghost var fs, slots := Fields(), FlatSlots();
      assert |fs| == 6 by { FieldsOneByOne(); }
      var t := new BytearrayStream([]);
      WrittenNothing(fs, slots);
      var _ :- WriteValues(t, fs, slots);
      var _ :- WriteOptions(t, fs, slots);
      r := WriteStruct(ostream, KEY_BLOCK, t, fs, slots);
    }
  }

  method NewKeyBlock(t: BytearrayStream) returns (r: Result<KeyBlock>)
    modifies t
    ensures var d := Decode(KEY_BLOCK, KEY_BLOCK_K, old(t.buffer));
      if r.Ok? then d == Ok((r.value.View(), t.buffer)) else d.Err?
    ensures r.Ok? ==> fresh(r.value) && r.value.Valid()
  {
    hide Decode, KEY_BLOCK_FIELDS, KeyBlock.Valid;
    var block := new KeyBlock();
    ghost var was := block.View();
    var _ :- block.Read(t);
    NothingToKeep(was, Decode(KEY_BLOCK, KEY_BLOCK_K, old(t.buffer)).value.0);
    r := Ok(block);
  }

  /** secrets.KeyBlockKey; SymmetricKey, PublicKey and PrivateKey differ in the tag. */
  class KeyBlockKey {
    const tag: Tag
    var keyBlock: KeyBlock?

    constructor (keyBlock: KeyBlock?, tag: Tag)
      ensures this.keyBlock == keyBlock && this.tag == tag
    {
      this.keyBlock, this.tag := keyBlock, tag;
    }

    /** The key block is always read into a new object. */
    method Read(istream: BytearrayStream) returns (r: Result<()>)
      modifies this, istream
      ensures var d := Decode(tag, KEY_K, old(istream.buffer));
        && (r.Ok? <==> d.Ok?)
        && (r.Ok? ==> keyBlock != null && keyBlock.Valid() && fresh(keyBlock)
                      && d.value == (Struct([One(keyBlock.View())]), istream.buffer))
    {
      hide Decode, DecodeHeader, Trail.At, Laid, KeyBlock.Valid, KeyBlock.View, KEY_BLOCK_FIELDS;
      ghost var trail := Trail(tag, istream.buffer, KEY_FIELDS);
      var t :- ReadBody(istream, trail, tag);
      TrailStep(trail, 0, t.buffer);
      keyBlock :- NewKeyBlock(t);
      r := ReadEnd(t, trail);
      if r.Ok? {
        AllTaken(trail, [One(keyBlock.View())]);
      }
    }

    /** What a write produces of a key with a key block. */
    static ghost function Layout(block: KeyBlock): Kind
      reads block, block.keyValue, if block.keyValue == null then [] else block.keyValue.attributes
    {
      StructK([Field(KEY_BLOCK, block.Layout(), Required)])
    }

    method Write(ostream: BytearrayStream) returns (r: Result<()>)
      requires keyBlock != null ==> keyBlock.Valid()
      modifies ostream
      ensures r.Ok? <==> keyBlock != null && Writable(Layout(keyBlock), Struct([One(keyBlock.Flat())]))
      ensures r.Ok? ==>
        ostream.buffer == old(ostream.buffer) + Encode(tag, Layout(keyBlock), Struct([One(keyBlock.Flat())]))
      ensures keyBlock != null && keyBlock.Matched() ==>
        && (r.Ok? <==> Writable(KEY_K, Struct([One(keyBlock.View())])))
        && (r.Ok? ==> ostream.buffer == old(ostream.buffer) + Encode(tag, KEY_K, Struct([One(keyBlock.View())])))
    {
      hide Encode, Writable, Written, KeyBlock.Valid, KeyBlock.View, KeyBlock.Flat, KeyBlock.Layout, KeyBlock.Matched;
      hide KEY_BLOCK_FIELDS;
      if keyBlock == null {
        return Err(AttributeError);
      }
      ghost var fs, slots := Layout(keyBlock).fields, [One(keyBlock.Flat())];
      if keyBlock.Matched() {
        MatchedKey(tag, keyBlock);
      }
      var t := new BytearrayStream([]);
      WrittenNothing(fs, slots);
      WrittenNext(fs, slots, 0, t.buffer);
      var _ :- keyBlock.Write(t);
      r := WriteStruct(ostream, tag, t, fs, slots);
    }
  }

  lemma MatchedKey(tag: Tag, block: KeyBlock)
    requires block.Matched()
    ensures Alike(tag, KeyBlockKey.Layout(block), Struct([One(block.Flat())]), KEY_K, Struct([One(block.View())]))
  {
    hide Alike, AlikeSlots, KeyBlock.View, KeyBlock.Flat, KeyBlock.Layout, KeyBlock.Matched, KEY_BLOCK_FIELDS;
    var f, v := Field(KEY_BLOCK, block.Layout(), Required), block.Flat();
    block.MatchedLayout();
    AlikeOne(f, v, KEY_FIELDS[0], block.View());
    AlikeUpdate(tag, KEY_FIELDS, [One(block.View())], 0, f, One(v));
    assert KEY_FIELDS[0 := f] == [f] && [One(block.View())][0 := One(v)] == [One(v)];
  }
}
