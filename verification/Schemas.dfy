/** The field lists of the structures, in the order in which they are read and
    written. */
module Schemas {
  import opened Wrappers
  import opened Enums
  import opened Ttlv

  /** attributes.CryptographicParameters: thirteen optional fields. */
  const CRYPTOGRAPHIC_PARAMETERS_FIELDS: seq<Field> := [
    Field(BLOCK_CIPHER_MODE, EnumerationK(BlockCipherModes), Optional),
    Field(PADDING_METHOD, EnumerationK(PaddingMethods), Optional),
    Field(HASHING_ALGORITHM, EnumerationK(HashingAlgorithms), Optional),
    Field(KEY_ROLE_TYPE, EnumerationK(KeyRoleTypes), Optional),
    Field(DIGITAL_SIGNATURE_ALGORITHM, EnumerationK(DigitalSignatureAlgorithms), Optional),
    Field(CRYPTOGRAPHIC_ALGORITHM, EnumerationK(CryptographicAlgorithms), Optional),
    Field(RANDOM_IV, BooleanK, Optional),
    Field(IV_LENGTH, IntegerK, Optional),
    Field(TAG_LENGTH, IntegerK, Optional),
    Field(FIXED_FIELD_LENGTH, IntegerK, Optional),
    Field(INVOCATION_FIELD_LENGTH, IntegerK, Optional),
    Field(COUNTER_LENGTH, IntegerK, Optional),
    Field(INITIAL_COUNTER_VALUE, IntegerK, Optional)]

  const CRYPTOGRAPHIC_PARAMETERS_K: Kind := StructK(CRYPTOGRAPHIC_PARAMETERS_FIELDS)

  /** objects.EncryptionKeyInformation and objects.MACSignatureKeyInformation */
  const KEY_INFORMATION_FIELDS: seq<Field> := [
    Field(UNIQUE_IDENTIFIER, TextStringK, Mandatory(ValueError)),
    Field(CRYPTOGRAPHIC_PARAMETERS, CRYPTOGRAPHIC_PARAMETERS_K, Optional)]

  const KEY_INFORMATION_K: Kind := StructK(KEY_INFORMATION_FIELDS)

  /** objects.KeyWrappingData */
  const KEY_WRAPPING_DATA_FIELDS: seq<Field> := [
    Field(WRAPPING_METHOD, EnumerationK(WrappingMethods), Mandatory(ValueError)),
    Field(ENCRYPTION_KEY_INFORMATION, KEY_INFORMATION_K, Optional),
    Field(MAC_SIGNATURE_KEY_INFORMATION, KEY_INFORMATION_K, Optional),
    Field(MAC_SIGNATURE, ByteStringK, Optional),
    Field(IV_COUNTER_NONCE, ByteStringK, Optional),
    Field(ENCODING_OPTION, EnumerationK(EncodingOptions), Optional)]

  const KEY_WRAPPING_DATA_K: Kind := StructK(KEY_WRAPPING_DATA_FIELDS)

  /** objects.KeyWrappingSpecification: a repeated field between optional ones. */
  const KEY_WRAPPING_SPECIFICATION_FIELDS: seq<Field> := [
    Field(WRAPPING_METHOD, EnumerationK(WrappingMethods), Mandatory(ValueError)),
    Field(ENCRYPTION_KEY_INFORMATION, KEY_INFORMATION_K, Optional),
    Field(MAC_SIGNATURE_KEY_INFORMATION, KEY_INFORMATION_K, Optional),
    Field(ATTRIBUTE_NAME, TextStringK, Repeated),
    Field(ENCODING_OPTION, EnumerationK(EncodingOptions), Optional)]

  const KEY_WRAPPING_SPECIFICATION_K: Kind := StructK(KEY_WRAPPING_SPECIFICATION_FIELDS)

  /** objects.DeviceCredential: six optional texts. */
  const DEVICE_CREDENTIAL_K: Kind := StructK([
    Field(DEVICE_SERIAL_NUMBER, TextStringK, Optional),
    Field(PASSWORD, TextStringK, Optional),
    Field(DEVICE_IDENTIFIER, TextStringK, Optional),
    Field(NETWORK_IDENTIFIER, TextStringK, Optional),
    Field(MACHINE_IDENTIFIER, TextStringK, Optional),
    Field(MEDIA_IDENTIFIER, TextStringK, Optional)])

  // ---- attributes

  /** attributes.Name, attributes.Digest, attributes.ApplicationSpecificInformation */
  const NAME_K: Kind := StructK([
    Field(NAME_VALUE, TextStringK, Required),
    Field(NAME_TYPE, EnumerationK(NameTypes), Required)])

  const DIGEST_K: Kind := StructK([
    Field(HASHING_ALGORITHM, EnumerationK(HashingAlgorithms), Required),
    Field(DIGEST_VALUE, ByteStringK, Required),
    Field(KEY_FORMAT_TYPE, EnumerationK(KeyFormatTypes), Required)])

  const APPLICATION_SPECIFIC_INFORMATION_K: Kind := StructK([
    Field(APPLICATION_NAMESPACE, TextStringK, Mandatory(InvalidKmipEncoding)),
    Field(APPLICATION_DATA, TextStringK, Mandatory(InvalidKmipEncoding))])

  /** AttributeValueFactory.create_attribute_value: the value layouts by
      enumeration name. Names the factory does not implement are not listed. */
  const ATTRIBUTE_KINDS: map<string, Kind> := map[
    "UNIQUE_IDENTIFIER" := TextStringK,
    "NAME" := NAME_K,
    "OBJECT_TYPE" := EnumerationK(ObjectTypes),
    "CRYPTOGRAPHIC_ALGORITHM" := EnumerationK(CryptographicAlgorithms),
    "CRYPTOGRAPHIC_LENGTH" := IntegerK,
    "CRYPTOGRAPHIC_PARAMETERS" := CRYPTOGRAPHIC_PARAMETERS_K,
    "CERTIFICATE_TYPE" := EnumerationK(CertificateTypes),
    "CERTIFICATE_LENGTH" := IntegerK,
    "DIGEST" := DIGEST_K,
    "OPERATION_POLICY_NAME" := TextStringK,
    "CRYPTOGRAPHIC_USAGE_MASK" := IntegerK,
    "LEASE_TIME" := IntervalK,
    "STATE" := EnumerationK(States),
    "INITIAL_DATE" := DateTimeK,
    "ACTIVATION_DATE" := DateTimeK,
    "PROCESS_START_DATE" := DateTimeK,
    "PROTECT_STOP_DATE" := DateTimeK,
    "DEACTIVATION_DATE" := DateTimeK,
    "DESTROY_DATE" := DateTimeK,
    "COMPROMISE_OCCURRENCE_DATE" := DateTimeK,
    "COMPROMISE_DATE" := DateTimeK,
    "ARCHIVE_DATE" := DateTimeK,
    "OBJECT_GROUP" := TextStringK,
    "FRESH" := BooleanK,
    "APPLICATION_SPECIFIC_INFORMATION" := APPLICATION_SPECIFIC_INFORMATION_K,
    "CONTACT_INFORMATION" := TextStringK,
    "LAST_CHANGE_DATE" := DateTimeK,
    "SENSITIVE" := BooleanK,
    "ALWAYS_SENSITIVE" := BooleanK,
    "EXTRACTABLE" := BooleanK,
    "NEVER_EXTRACTABLE" := BooleanK,
    "CUSTOM_ATTRIBUTE" := TextStringK,
    "ORIGINAL_CREATION_DATE" := DateTimeK]

  const ATTRIBUTE_K: Kind := AttributeK(ATTRIBUTE_KINDS)

  /** AttributeValueFactory.create_attribute_value_by_enum, restricted to the tags
      that enums.is_attribute accepts for KMIP 2.0. */
  const ATTRIBUTE_KINDS_2_0: map<Tag, Kind> := map[
    0x420094 := TextStringK,                        // UNIQUE_IDENTIFIER
    0x420053 := NAME_K,                             // NAME
    0x420057 := EnumerationK(ObjectTypes),          // OBJECT_TYPE
    0x420028 := EnumerationK(CryptographicAlgorithms),
    0x42002A := IntegerK,                           // CRYPTOGRAPHIC_LENGTH
    0x42002B := CRYPTOGRAPHIC_PARAMETERS_K,
    0x4200AD := IntegerK,                           // CERTIFICATE_LENGTH
    0x420034 := DIGEST_K,                           // DIGEST
    0x42002C := IntegerK,                           // CRYPTOGRAPHIC_USAGE_MASK
    0x420049 := IntervalK,                          // LEASE_TIME
    0x42008D := EnumerationK(States),               // STATE
    0x420039 := DateTimeK,                          // INITIAL_DATE
    0x420001 := DateTimeK,                          // ACTIVATION_DATE
    0x420067 := DateTimeK,                          // PROCESS_START_DATE
    0x420068 := DateTimeK,                          // PROTECT_STOP_DATE
    0x42002F := DateTimeK,                          // DEACTIVATION_DATE
    0x420033 := DateTimeK,                          // DESTROY_DATE
    0x420021 := DateTimeK,                          // COMPROMISE_OCCURRENCE_DATE
    0x420020 := DateTimeK,                          // COMPROMISE_DATE
    0x420005 := DateTimeK,                          // ARCHIVE_DATE
    0x420056 := TextStringK,                        // OBJECT_GROUP
    0x4200A8 := BooleanK,                           // FRESH
    0x420004 := APPLICATION_SPECIFIC_INFORMATION_K,
    0x420022 := TextStringK,                        // CONTACT_INFORMATION
    0x420048 := DateTimeK,                          // LAST_CHANGE_DATE
    0x420120 := BooleanK]                           // SENSITIVE

  /** Attributes of KMIP 2.0 that the factory does not implement, apart from the
      certificate subject and issuer fields 0x420108 to 0x42011F. */
  const UNIMPLEMENTED_ATTRIBUTES_2_0: set<Tag> := {
    0x420008, 0x42001D, 0x420029, 0x420042, 0x42004A, 0x420059, 0x420081, 0x420095, 0x4200AE, 0x4200B5,
    0x4200B6, 0x4200B7, 0x4200B8, 0x4200BB, 0x4200BC, 0x4200BF, 0x4200DE, 0x4200FB, 0x4200FC, 0x4200FD,
    0x420121, 0x420122, 0x420123, 0x420136, 0x42013A, 0x420145, 0x420146, 0x420147, 0x42015E}

  /** enums.is_attribute(tag, KMIP 2.0) */
  predicate IsAttribute20(tag: Tag) {
    tag in ATTRIBUTE_KINDS_2_0 || tag in UNIMPLEMENTED_ATTRIBUTES_2_0 || 0x420108 <= tag <= 0x42011F
  }

  /** objects.TemplateAttribute */
  const TEMPLATE_ATTRIBUTE_FIELDS: seq<Field> := [
    Field(NAME, NAME_K, Repeated),
    Field(ATTRIBUTE, ATTRIBUTE_K, Repeated)]

  const TEMPLATE_ATTRIBUTE_K: Kind := StructK(TEMPLATE_ATTRIBUTE_FIELDS)

  // ---- keys

  /** objects.KeyValue */
  const KEY_VALUE_FIELDS: seq<Field> := [
    Field(KEY_MATERIAL, ByteStringK, Required),
    Field(ATTRIBUTE, ATTRIBUTE_K, Repeated)]

  const KEY_VALUE_K: Kind := StructK(KEY_VALUE_FIELDS)

  /** objects.KeyBlock */
  const KEY_BLOCK_FIELDS: seq<Field> := [
    Field(KEY_FORMAT_TYPE, EnumerationK(KeyFormatTypes), Required),
    Field(KEY_COMPRESSION_TYPE, EnumerationK(KeyCompressionTypes), Optional),
    Field(KEY_VALUE, KEY_VALUE_K, Required),
    Field(CRYPTOGRAPHIC_ALGORITHM, EnumerationK(CryptographicAlgorithms), Optional),
    Field(CRYPTOGRAPHIC_LENGTH, IntegerK, Optional),
    Field(KEY_WRAPPING_DATA, KEY_WRAPPING_DATA_K, Optional)]

  const KEY_BLOCK_K: Kind := StructK(KEY_BLOCK_FIELDS)

  /** secrets.KeyBlockKey */
  const KEY_FIELDS: seq<Field> := [Field(KEY_BLOCK, KEY_BLOCK_K, Required)]

  const KEY_K: Kind := StructK(KEY_FIELDS)

  /** secrets.SplitKey. Whether the prime field size may be left out depends on
      the method, which a field list cannot say. */
  const SPLIT_KEY_FIELDS: seq<Field> := [
    Field(SPLIT_KEY_PARTS, IntegerK, Mandatory(InvalidKmipEncoding)),
    Field(KEY_PART_IDENTIFIER, IntegerK, Mandatory(InvalidKmipEncoding)),
    Field(SPLIT_KEY_THRESHOLD, IntegerK, Mandatory(InvalidKmipEncoding)),
    Field(SPLIT_KEY_METHOD, EnumerationK(SplitKeyMethods), Mandatory(InvalidKmipEncoding)),
    Field(PRIME_FIELD_SIZE, BigIntegerK, Optional),
    Field(KEY_BLOCK, KEY_BLOCK_K, Mandatory(InvalidKmipEncoding))]

  const SPLIT_KEY_K: Kind := StructK(SPLIT_KEY_FIELDS)

  // ---- the fields one by one

  lemma ParameterFields()
    ensures |CRYPTOGRAPHIC_PARAMETERS_FIELDS| == 13
    ensures CRYPTOGRAPHIC_PARAMETERS_FIELDS[0] == Field(BLOCK_CIPHER_MODE, EnumerationK(BlockCipherModes), Optional)
    ensures CRYPTOGRAPHIC_PARAMETERS_FIELDS[1] == Field(PADDING_METHOD, EnumerationK(PaddingMethods), Optional)
    ensures CRYPTOGRAPHIC_PARAMETERS_FIELDS[2] == Field(HASHING_ALGORITHM, EnumerationK(HashingAlgorithms), Optional)
    ensures CRYPTOGRAPHIC_PARAMETERS_FIELDS[3] == Field(KEY_ROLE_TYPE, EnumerationK(KeyRoleTypes), Optional)
    ensures CRYPTOGRAPHIC_PARAMETERS_FIELDS[4]
         == Field(DIGITAL_SIGNATURE_ALGORITHM, EnumerationK(DigitalSignatureAlgorithms), Optional)
    ensures CRYPTOGRAPHIC_PARAMETERS_FIELDS[5]
         == Field(CRYPTOGRAPHIC_ALGORITHM, EnumerationK(CryptographicAlgorithms), Optional)
    ensures CRYPTOGRAPHIC_PARAMETERS_FIELDS[6] == Field(RANDOM_IV, BooleanK, Optional)
    ensures CRYPTOGRAPHIC_PARAMETERS_FIELDS[7] == Field(IV_LENGTH, IntegerK, Optional)
    ensures CRYPTOGRAPHIC_PARAMETERS_FIELDS[8] == Field(TAG_LENGTH, IntegerK, Optional)
    ensures CRYPTOGRAPHIC_PARAMETERS_FIELDS[9] == Field(FIXED_FIELD_LENGTH, IntegerK, Optional)
    ensures CRYPTOGRAPHIC_PARAMETERS_FIELDS[10] == Field(INVOCATION_FIELD_LENGTH, IntegerK, Optional)
    ensures CRYPTOGRAPHIC_PARAMETERS_FIELDS[11] == Field(COUNTER_LENGTH, IntegerK, Optional)
    ensures CRYPTOGRAPHIC_PARAMETERS_FIELDS[12] == Field(INITIAL_COUNTER_VALUE, IntegerK, Optional)
  {
  }

  lemma WrappingFields()
    ensures |KEY_WRAPPING_DATA_FIELDS| == 6
    ensures KEY_WRAPPING_DATA_FIELDS[0] == Field(WRAPPING_METHOD, EnumerationK(WrappingMethods), Mandatory(ValueError))
    ensures KEY_WRAPPING_DATA_FIELDS[1] == Field(ENCRYPTION_KEY_INFORMATION, KEY_INFORMATION_K, Optional)
    ensures KEY_WRAPPING_DATA_FIELDS[2] == Field(MAC_SIGNATURE_KEY_INFORMATION, KEY_INFORMATION_K, Optional)
    ensures KEY_WRAPPING_DATA_FIELDS[3] == Field(MAC_SIGNATURE, ByteStringK, Optional)
    ensures KEY_WRAPPING_DATA_FIELDS[4] == Field(IV_COUNTER_NONCE, ByteStringK, Optional)
    ensures KEY_WRAPPING_DATA_FIELDS[5] == Field(ENCODING_OPTION, EnumerationK(EncodingOptions), Optional)
  {
    hide KEY_INFORMATION_FIELDS;
  }

  lemma KeyBlockFields()
    ensures |KEY_BLOCK_FIELDS| == 6
    ensures KEY_BLOCK_FIELDS[0] == Field(KEY_FORMAT_TYPE, EnumerationK(KeyFormatTypes), Required)
    ensures KEY_BLOCK_FIELDS[1] == Field(KEY_COMPRESSION_TYPE, EnumerationK(KeyCompressionTypes), Optional)
    ensures KEY_BLOCK_FIELDS[2] == Field(KEY_VALUE, KEY_VALUE_K, Required)
    ensures KEY_BLOCK_FIELDS[3] == Field(CRYPTOGRAPHIC_ALGORITHM, EnumerationK(CryptographicAlgorithms), Optional)
    ensures KEY_BLOCK_FIELDS[4] == Field(CRYPTOGRAPHIC_LENGTH, IntegerK, Optional)
    ensures KEY_BLOCK_FIELDS[5] == Field(KEY_WRAPPING_DATA, KEY_WRAPPING_DATA_K, Optional)
  {
    hide KEY_VALUE_FIELDS, KEY_WRAPPING_DATA_FIELDS;
  }

  // ---- no structure is ambiguous

  lemma CryptographicParametersWellFormed()
    ensures WellFormed(CRYPTOGRAPHIC_PARAMETERS_K)
  {
  }

  lemma KeyInformationWellFormed()
    ensures WellFormed(KEY_INFORMATION_K)
  {
    CryptographicParametersWellFormed();
  }

  lemma KeyWrappingDataWellFormed()
    ensures WellFormed(KEY_WRAPPING_DATA_K) && WellFormed(KEY_WRAPPING_SPECIFICATION_K)
  {
    KeyInformationWellFormed();
  }

  lemma AttributeValuesWellFormed()
    ensures WellFormed(NAME_K) && WellFormed(DIGEST_K) && WellFormed(APPLICATION_SPECIFIC_INFORMATION_K)
    ensures WellFormed(CRYPTOGRAPHIC_PARAMETERS_K)
  {
    CryptographicParametersWellFormed();
  }

  /** The value of an attribute is a primitive or one of four structures. */
  predicate IsAttributeKind(kind: Kind) {
    || (!kind.StructK? && !kind.AttributeK?)
    || kind == NAME_K || kind == DIGEST_K || kind == APPLICATION_SPECIFIC_INFORMATION_K
    || kind == CRYPTOGRAPHIC_PARAMETERS_K
  }

  lemma AttributeKindCases()
    ensures forall name :: name in ATTRIBUTE_KINDS ==> IsAttributeKind(ATTRIBUTE_KINDS[name])
  {
    hide NAME_K, DIGEST_K, APPLICATION_SPECIFIC_INFORMATION_K, CRYPTOGRAPHIC_PARAMETERS_K;
  }

  lemma Attribute20Cases()
    ensures forall tag :: tag in ATTRIBUTE_KINDS_2_0 ==> IsTag(tag) && IsAttributeKind(ATTRIBUTE_KINDS_2_0[tag])
  {
    hide NAME_K, DIGEST_K, APPLICATION_SPECIFIC_INFORMATION_K, CRYPTOGRAPHIC_PARAMETERS_K;
  }

  lemma AttributeWellFormed()
    ensures WellFormed(ATTRIBUTE_K)
  {
    AttributeValuesWellFormed();
    AttributeKindCases();
    hide NAME_K, DIGEST_K, APPLICATION_SPECIFIC_INFORMATION_K, CRYPTOGRAPHIC_PARAMETERS_K, ATTRIBUTE_KINDS;
  }

  lemma Attribute20WellFormed()
    ensures forall tag :: tag in ATTRIBUTE_KINDS_2_0 ==> IsTag(tag) && WellFormed(ATTRIBUTE_KINDS_2_0[tag])
  {
    AttributeValuesWellFormed();
    Attribute20Cases();
    hide NAME_K, DIGEST_K, APPLICATION_SPECIFIC_INFORMATION_K, CRYPTOGRAPHIC_PARAMETERS_K, ATTRIBUTE_KINDS_2_0;
  }

  lemma TemplateAttributeWellFormed()
    ensures WellFormed(TEMPLATE_ATTRIBUTE_K) && WellFormed(KEY_VALUE_K)
  {
    hide ATTRIBUTE_KINDS;
    AttributeWellFormed();
    AttributeValuesWellFormed();
  }

  lemma KeyBlockWellFormed()
    ensures WellFormed(KEY_BLOCK_K)
  {
    TemplateAttributeWellFormed();
    KeyWrappingDataWellFormed();
  }

  lemma KeyWellFormed()
    ensures WellFormed(KEY_K)
  {
    KeyBlockWellFormed();
  }

  lemma SplitKeyWellFormed()
    ensures WellFormed(SPLIT_KEY_K)
  {
    KeyBlockWellFormed();
    hide KEY_BLOCK_K;
  }

  lemma DeviceCredentialWellFormed()
    ensures WellFormed(DEVICE_CREDENTIAL_K)
  {
  }
}
