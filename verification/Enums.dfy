/** The tags, types and enumerations of kmip/core/enums.py that the codec uses. */
module Enums {

  type Tag = t: int | 0 <= t < 0x1000000

  /** A number is a member of the Tags enumeration. */
  predicate IsTag(n: int) {
    0x420000 <= n <= 0x420165 && n != 0x42013E && n != 0x42013F
  }

  const APPLICATION_DATA: Tag := 0x420002
  const APPLICATION_NAMESPACE: Tag := 0x420003
  const ATTRIBUTE: Tag := 0x420008
  const ATTRIBUTE_INDEX: Tag := 0x420009
  const ATTRIBUTE_NAME: Tag := 0x42000A
  const ATTRIBUTE_VALUE: Tag := 0x42000B
  const BLOCK_CIPHER_MODE: Tag := 0x420011
  const COMMON_TEMPLATE_ATTRIBUTE: Tag := 0x42001F
  const CRYPTOGRAPHIC_ALGORITHM: Tag := 0x420028
  const CRYPTOGRAPHIC_LENGTH: Tag := 0x42002A
  const CRYPTOGRAPHIC_PARAMETERS: Tag := 0x42002B
  const DIGEST_VALUE: Tag := 0x420035
  const ENCRYPTION_KEY_INFORMATION: Tag := 0x420036
  const HASHING_ALGORITHM: Tag := 0x420038
  const IV_COUNTER_NONCE: Tag := 0x42003D
  const KEY_BLOCK: Tag := 0x420040
  const KEY_COMPRESSION_TYPE: Tag := 0x420041
  const KEY_FORMAT_TYPE: Tag := 0x420042
  const KEY_MATERIAL: Tag := 0x420043
  const KEY_PART_IDENTIFIER: Tag := 0x420044
  const KEY_VALUE: Tag := 0x420045
  const KEY_WRAPPING_DATA: Tag := 0x420046
  const KEY_WRAPPING_SPECIFICATION: Tag := 0x420047
  const MAC_SIGNATURE: Tag := 0x42004D
  const MAC_SIGNATURE_KEY_INFORMATION: Tag := 0x42004E
  const NAME: Tag := 0x420053
  const NAME_TYPE: Tag := 0x420054
  const NAME_VALUE: Tag := 0x420055
  const PADDING_METHOD: Tag := 0x42005F
  const PRIME_FIELD_SIZE: Tag := 0x420062
  const PRIVATE_KEY: Tag := 0x420064
  const PRIVATE_KEY_TEMPLATE_ATTRIBUTE: Tag := 0x420065
  const PUBLIC_KEY: Tag := 0x42006D
  const PUBLIC_KEY_TEMPLATE_ATTRIBUTE: Tag := 0x42006E
  const KEY_ROLE_TYPE: Tag := 0x420083
  const SPLIT_KEY: Tag := 0x420089
  const SPLIT_KEY_METHOD: Tag := 0x42008A
  const SPLIT_KEY_PARTS: Tag := 0x42008B
  const SPLIT_KEY_THRESHOLD: Tag := 0x42008C
  const SYMMETRIC_KEY: Tag := 0x42008F
  const TEMPLATE_ATTRIBUTE: Tag := 0x420091
  const UNIQUE_IDENTIFIER: Tag := 0x420094
  const WRAPPING_METHOD: Tag := 0x42009E
  const PASSWORD: Tag := 0x4200A1
  const DEVICE_IDENTIFIER: Tag := 0x4200A2
  const ENCODING_OPTION: Tag := 0x4200A3
  const MACHINE_IDENTIFIER: Tag := 0x4200A9
  const MEDIA_IDENTIFIER: Tag := 0x4200AA
  const NETWORK_IDENTIFIER: Tag := 0x4200AB
  const DIGITAL_SIGNATURE_ALGORITHM: Tag := 0x4200AE
  const DEVICE_SERIAL_NUMBER: Tag := 0x4200B0
  const RANDOM_IV: Tag := 0x4200C5
  const IV_LENGTH: Tag := 0x4200CD
  const TAG_LENGTH: Tag := 0x4200CE
  const FIXED_FIELD_LENGTH: Tag := 0x4200CF
  const COUNTER_LENGTH: Tag := 0x4200D0
  const INITIAL_COUNTER_VALUE: Tag := 0x4200D1
  const INVOCATION_FIELD_LENGTH: Tag := 0x4200D2
  const ATTRIBUTES: Tag := 0x420125
  const COMMON_ATTRIBUTES: Tag := 0x420126
  const PRIVATE_KEY_ATTRIBUTES: Tag := 0x420127
  const PUBLIC_KEY_ATTRIBUTES: Tag := 0x420128

  /** The enumeration classes that occur as field types. Each numbers its
      members from 1 without a gap. */
  datatype EnumClass =
    | BlockCipherModes | PaddingMethods | HashingAlgorithms | KeyRoleTypes
    | DigitalSignatureAlgorithms | CryptographicAlgorithms | WrappingMethods
    | EncodingOptions | KeyFormatTypes | KeyCompressionTypes | NameTypes
    | SplitKeyMethods | ObjectTypes | States | CertificateTypes

  function MemberCount(cls: EnumClass): (n: nat)
    ensures 0 < n < 256
  {
    match cls
    case BlockCipherModes => 18
    case PaddingMethods => 10
    case HashingAlgorithms => 17
    case KeyRoleTypes => 24
    case DigitalSignatureAlgorithms => 19
    case CryptographicAlgorithms => 56
    case WrappingMethods => 5
    case EncodingOptions => 2
    case KeyFormatTypes => 22
    case KeyCompressionTypes => 4
    case NameTypes => 2
    case SplitKeyMethods => 4
    case ObjectTypes => 10
    case States => 6
    case CertificateTypes => 2
  }

  predicate IsMember(cls: EnumClass, n: int) {
    1 <= n <= MemberCount(cls)
  }

  /** The members are those up to this one. */
  lemma LastMembers(n: int)
    ensures IsMember(BlockCipherModes, n) <==> 1 <= n <= 0x12            // AEAD
    ensures IsMember(PaddingMethods, n) <==> 1 <= n <= 0x0A              // PSS
    ensures IsMember(HashingAlgorithms, n) <==> 1 <= n <= 0x11           // SHA3_512
    ensures IsMember(KeyRoleTypes, n) <==> 1 <= n <= 0x18                // TRKBK
    ensures IsMember(DigitalSignatureAlgorithms, n) <==> 1 <= n <= 0x13  // SHA3_512_WITH_RSA_ENCRYPTION
    ensures IsMember(CryptographicAlgorithms, n) <==> 1 <= n <= 0x38     // ED448
    ensures IsMember(WrappingMethods, n) <==> 1 <= n <= 0x05             // TR_31
    ensures IsMember(EncodingOptions, n) <==> 1 <= n <= 0x02             // TTLV_ENCODING
    ensures IsMember(KeyFormatTypes, n) <==> 1 <= n <= 0x16              // PKCS_12
    ensures IsMember(KeyCompressionTypes, n) <==> 1 <= n <= 0x04         // EC_PUBLIC_KEY_TYPE_X9_62_HYBRID
    ensures IsMember(NameTypes, n) <==> 1 <= n <= 0x02                   // URI
    ensures IsMember(SplitKeyMethods, n) <==> 1 <= n <= 0x04             // POLYNOMIAL_SHARING_GF_2_8
    ensures IsMember(ObjectTypes, n) <==> 1 <= n <= 0x0A                 // CERTIFICATE_REQUEST
    ensures IsMember(States, n) <==> 1 <= n <= 0x06                      // DESTROYED_COMPROMISED
    ensures IsMember(CertificateTypes, n) <==> 1 <= n <= 0x02            // PGP
  {
  }

  const RAW := 1
  const PKCS_1 := 3
  const PKCS_8 := 4
  const X_509 := 5
  const POLYNOMIAL_SHARING_PRIME_FIELD := 3
}
