/** The names of attributes lead to their layouts: the factory that Attribute.read asks
    by name, the factory that the attribute list of KMIP 2.0 asks by tag, and the
    table of names and tags agree. */
module AttributeNames {
  import opened Wrappers
  import opened Bytes
  import opened Enums
  import opened Ttlv
  import opened Schemas
  import opened Conversions
  import opened NameTable
  import opened PrimitiveBytes

  /** The layout that belongs to a tag of the table. Seven attributes have values for
      the first factory only. */
  function LayoutOf(tag: Tag): Option<Kind> {
    if tag in ATTRIBUTE_KINDS_2_0 then Some(ATTRIBUTE_KINDS_2_0[tag])
    else if tag == 0x42001D then Some(EnumerationK(CertificateTypes))    // Certificate Type
    else if tag in {0x420121, 0x420122, 0x420123} then Some(BooleanK)    // Always Sensitive, (Never) Extractable
    else if tag in {0x42002D, 0x42005D} then Some(TextStringK)           // Custom Attribute, Operation Policy Name
    else if tag == 0x4200BC then Some(DateTimeK)                         // Original Creation Date
    else None
  }

  function KindNamed(enumName: string): Option<Kind> {
    if enumName in ATTRIBUTE_KINDS then Some(ATTRIBUTE_KINDS[enumName]) else None
  }

  ghost predicate Agrees(e: Entry) {
    KindFor(ATTRIBUTE_KINDS, e.name) == LayoutOf(e.tag)
  }

  function EnumChar(c: char): char {
    if c == '.' || c == ' ' then '_' else Upper(c)
  }

  /** The upper-case name with underscores, character by character. */
  predicate Spelt(name: string, enumName: string) {
    && |name| == |enumName| > 0 && name[0] != 'x'
    && forall i :: 0 <= i < |name| ==> enumName[i] == EnumChar(name[i])
  }

  lemma ByEnumName(e: Entry, enumName: string)
    requires Spelt(e.name, enumName) && LayoutOf(e.tag) == KindNamed(enumName)
    ensures Agrees(e)
  {
    hide ATTRIBUTE_KINDS, ATTRIBUTE_KINDS_2_0, LayoutOf;
    assert EnumName(e.name) == enumName;
  }

  lemma CharByChar(name: string, enumName: string)
    requires |name| == |enumName| > 0 && name[0] != 'x'
    requires forall i :: 0 <= i < |name| ==> enumName[i] == EnumChar(name[i])
    ensures Spelt(name, enumName)
  {
  }

  lemma ForeignAgrees(e: Entry)
    requires Foreign(e.name) && LayoutOf(e.tag) == None
    ensures Agrees(e)
  {
    hide ATTRIBUTE_KINDS, ATTRIBUTE_KINDS_2_0, LayoutOf, KindFor, Foreign;
    ForeignName(e.name);
  }

  // ---- names without a layout

  /** The prints of all names that have one. */
  const KEY_PRINTS: set<int> := {
    68726860, 68726863, 68727376, 68801120, 70824015, 70824026, 70825296, 70825552, 70848978,
    70848980, 70873176, 70890775, 70898259, 70938968, 71872588, 71872593, 71995718, 72921227,
    73994565, 77115468, 80261200, 80261706, 82358340, 82358417, 83406933, 83406934, 83408459,
    83497932, 84455505, 84455506, 87601221, 87601737, 89805393}

  predicate KeyPrinted(key: string) {
    |key| >= 3 && key[1] != '-' && Print(key) in KEY_PRINTS
  }

  lemma KeyPrints1()
    ensures KeyPrinted("UNIQUE_IDENTIFIER")
    ensures KeyPrinted("NAME")
    ensures KeyPrinted("OBJECT_TYPE")
    ensures KeyPrinted("CRYPTOGRAPHIC_ALGORITHM")
    ensures KeyPrinted("CRYPTOGRAPHIC_LENGTH")
    ensures KeyPrinted("CRYPTOGRAPHIC_PARAMETERS")
    ensures KeyPrinted("CERTIFICATE_TYPE")
    ensures KeyPrinted("CERTIFICATE_LENGTH")
    ensures KeyPrinted("DIGEST")
    ensures KeyPrinted("OPERATION_POLICY_NAME")
    ensures KeyPrinted("CRYPTOGRAPHIC_USAGE_MASK")
  {
    assert Print("UNIQUE_IDENTIFIER") == 89805393;
    assert Print("NAME") == 82358340;
    assert Print("OBJECT_TYPE") == 83408459;
    assert Print("CRYPTOGRAPHIC_ALGORITHM") == 70890775;
    assert Print("CRYPTOGRAPHIC_LENGTH") == 70848980;
    assert Print("CRYPTOGRAPHIC_PARAMETERS") == 70938968;
    assert Print("CERTIFICATE_TYPE") == 70825552;
    assert Print("CERTIFICATE_LENGTH") == 70848978;
    assert Print("DIGEST") == 71995718;
    assert Print("OPERATION_POLICY_NAME") == 83406933;
    assert Print("CRYPTOGRAPHIC_USAGE_MASK") == 70873176;
  }

  lemma KeyPrints2()
    ensures KeyPrinted("LEASE_TIME")
    ensures KeyPrinted("STATE")
    ensures KeyPrinted("INITIAL_DATE")
    ensures KeyPrinted("ACTIVATION_DATE")
    ensures KeyPrinted("PROCESS_START_DATE")
    ensures KeyPrinted("PROTECT_STOP_DATE")
    ensures KeyPrinted("DEACTIVATION_DATE")
    ensures KeyPrinted("DESTROY_DATE")
    ensures KeyPrinted("COMPROMISE_OCCURRENCE_DATE")
    ensures KeyPrinted("COMPROMISE_DATE")
    ensures KeyPrinted("ARCHIVE_DATE")
  {
    assert Print("LEASE_TIME") == 80261706;
    assert Print("STATE") == 87601221;
    assert Print("INITIAL_DATE") == 77115468;
    assert Print("ACTIVATION_DATE") == 68726863;
    assert Print("PROCESS_START_DATE") == 84455506;
    assert Print("PROTECT_STOP_DATE") == 84455505;
    assert Print("DEACTIVATION_DATE") == 71872593;
    assert Print("DESTROY_DATE") == 71872588;
    assert Print("COMPROMISE_OCCURRENCE_DATE") == 70824026;
    assert Print("COMPROMISE_DATE") == 70824015;
    assert Print("ARCHIVE_DATE") == 68726860;
  }

  lemma KeyPrints3()
    ensures KeyPrinted("OBJECT_GROUP")
    ensures KeyPrinted("FRESH")
    ensures KeyPrinted("APPLICATION_SPECIFIC_INFORMATION")
    ensures KeyPrinted("CONTACT_INFORMATION")
    ensures KeyPrinted("LAST_CHANGE_DATE")
    ensures KeyPrinted("SENSITIVE")
    ensures KeyPrinted("ALWAYS_SENSITIVE")
    ensures KeyPrinted("EXTRACTABLE")
    ensures KeyPrinted("NEVER_EXTRACTABLE")
    ensures KeyPrinted("CUSTOM_ATTRIBUTE")
    ensures KeyPrinted("ORIGINAL_CREATION_DATE")
  {
    assert Print("OBJECT_GROUP") == 83497932;
    assert Print("FRESH") == 73994565;
    assert Print("APPLICATION_SPECIFIC_INFORMATION") == 68801120;
    assert Print("CONTACT_INFORMATION") == 70898259;
    assert Print("LAST_CHANGE_DATE") == 80261200;
    assert Print("SENSITIVE") == 87601737;
    assert Print("ALWAYS_SENSITIVE") == 68727376;
    assert Print("EXTRACTABLE") == 72921227;
    assert Print("NEVER_EXTRACTABLE") == 82358417;
    assert Print("CUSTOM_ATTRIBUTE") == 70825296;
    assert Print("ORIGINAL_CREATION_DATE") == 83406934;
  }

  lemma KeyPrints()
    ensures forall key :: key in ATTRIBUTE_KINDS ==> KeyPrinted(key)
  {
    hide KeyPrinted, NAME_K, DIGEST_K, APPLICATION_SPECIFIC_INFORMATION_K, CRYPTOGRAPHIC_PARAMETERS_K;
    KeyPrints1();
    KeyPrints2();
    KeyPrints3();
  }

  function UpperPrint(name: string): int
    requires |name| >= 3
  {
    var (first, last, third) := (name[0], name[|name| - 1], name[|name| - 3]);
    (((EnumChar(first) as int) * 128 + EnumChar(last) as int) * 128 + EnumChar(third) as int) * 64 + |name|
  }

  predicate Foreign(name: string) {
    |name| >= 3 && name[0] != 'x' && UpperPrint(name) !in KEY_PRINTS
  }

  lemma ForeignName(name: string)
    requires Foreign(name)
    ensures KindFor(ATTRIBUTE_KINDS, name) == None
  {
    hide ATTRIBUTE_KINDS, KEY_PRINTS;
    KeyPrints();
    var enumName := EnumName(name);
    assert Print(enumName) == UpperPrint(name);
  }

  lemma Foreign1()
    ensures Foreign("Alternative Name")
    ensures Foreign("Attribute")
    ensures Foreign("Certificate Identifier")
    ensures Foreign("Certificate Issuer")
    ensures Foreign("Certificate Issuer C")
    ensures Foreign("Certificate Issuer CN")
  {
    assert UpperPrint("Alternative Name") == 68726864;
    assert UpperPrint("Attribute") == 68728137;
    assert UpperPrint("Certificate Identifier") == 70931030;
    assert UpperPrint("Certificate Issuer") == 70931794;
    assert UpperPrint("Certificate Issuer C") == 70808724;
    assert UpperPrint("Certificate Issuer CN") == 70899669;
  }

  lemma Foreign2()
    ensures Foreign("Certificate Issuer DC")
    ensures Foreign("Certificate Issuer DN Qualifier")
    ensures Foreign("Certificate Issuer Email")
    ensures Foreign("Certificate Issuer L")
    ensures Foreign("Certificate Issuer O")
    ensures Foreign("Certificate Issuer OU")
  {
    assert UpperPrint("Certificate Issuer DC") == 70809557;
    assert UpperPrint("Certificate Issuer DN Qualifier") == 70931039;
    assert UpperPrint("Certificate Issuer Email") == 70881368;
    assert UpperPrint("Certificate Issuer L") == 70882452;
    assert UpperPrint("Certificate Issuer O") == 70907028;
    assert UpperPrint("Certificate Issuer OU") == 70957013;
  }

  lemma Foreign3()
    ensures Foreign("Certificate Issuer Serial Number")
    ensures Foreign("Certificate Issuer ST")
    ensures Foreign("Certificate Issuer Title")
    ensures Foreign("Certificate Issuer UID")
    ensures Foreign("Certificate Subject")
    ensures Foreign("Certificate Subject C")
  {
    assert UpperPrint("Certificate Issuer Serial Number") == 70930592;
    assert UpperPrint("Certificate Issuer ST") == 70948821;
    assert UpperPrint("Certificate Issuer Title") == 70825240;
    assert UpperPrint("Certificate Issuer UID") == 70817110;
    assert UpperPrint("Certificate Subject") == 70947155;
    assert UpperPrint("Certificate Subject C") == 70808853;
  }

  lemma Foreign4()
    ensures Foreign("Certificate Subject CN")
    ensures Foreign("Certificate Subject DC")
    ensures Foreign("Certificate Subject DN Qualifier")
    ensures Foreign("Certificate Subject Email")
    ensures Foreign("Certificate Subject L")
    ensures Foreign("Certificate Subject O")
  {
    assert UpperPrint("Certificate Subject CN") == 70899670;
    assert UpperPrint("Certificate Subject DC") == 70809558;
    assert UpperPrint("Certificate Subject DN Qualifier") == 70931040;
    assert UpperPrint("Certificate Subject Email") == 70881369;
    assert UpperPrint("Certificate Subject L") == 70882581;
    assert UpperPrint("Certificate Subject O") == 70907157;
  }

  lemma Foreign5()
    ensures Foreign("Certificate Subject OU")
    ensures Foreign("Certificate Subject Serial Number")
    ensures Foreign("Certificate Subject ST")
    ensures Foreign("Certificate Subject Title")
    ensures Foreign("Certificate Subject UID")
    ensures Foreign("Comment")
  {
    assert UpperPrint("Certificate Subject OU") == 70957014;
    assert UpperPrint("Certificate Subject Serial Number") == 70930593;
    assert UpperPrint("Certificate Subject ST") == 70948822;
    assert UpperPrint("Certificate Subject Title") == 70825241;
    assert UpperPrint("Certificate Subject UID") == 70817111;
    assert UpperPrint("Comment") == 70947143;
  }

  lemma Foreign6()
    ensures Foreign("Cryptographic Domain Parameters")
    ensures Foreign("Description")
    ensures Foreign("Digital Signature Algorithm")
    ensures Foreign("Key Format Type")
    ensures Foreign("Key Value Location")
    ensures Foreign("Key Value Present")
  {
    assert UpperPrint("Cryptographic Domain Parameters") == 70938975;
    assert UpperPrint("Description") == 71946827;
    assert UpperPrint("Digital Signature Algorithm") == 71939355;
    assert UpperPrint("Key Format Type") == 79214159;
    assert UpperPrint("Key Value Location") == 79286866;
    assert UpperPrint("Key Value Present") == 79335761;
  }

  lemma Foreign7()
    ensures Foreign("Link")
    ensures Foreign("NIST Key Type")
    ensures Foreign("Opaque Data Type")
    ensures Foreign("PKCS#12 Friendly Name")
    ensures Foreign("Protection Level")
    ensures Foreign("Protection Period")
  {
    assert UpperPrint("Link") == 80310852;
    assert UpperPrint("NIST Key Type") == 82359885;
    assert UpperPrint("Opaque Data Type") == 83408464;
    assert UpperPrint("PKCS#12 Friendly Name") == 84455509;
    assert UpperPrint("Protection Level") == 84514192;
    assert UpperPrint("Protection Period") == 84447825;
  }

  lemma Foreign8()
    ensures Foreign("Protection Storage Mask")
    ensures Foreign("Quantum Safe")
    ensures Foreign("Random Number Generator")
    ensures Foreign("Revocation Reason")
    ensures Foreign("Short Unique Identifier")
    ensures Foreign("Usage Limits")
  {
    assert UpperPrint("Protection Storage Mask") == 84504663;
    assert UpperPrint("Quantum Safe") == 85504076;
    assert UpperPrint("Random Number Generator") == 86660375;
    assert UpperPrint("Revocation Reason") == 86627537;
    assert UpperPrint("Short Unique Identifier") == 87708247;
    assert UpperPrint("Usage Limits") == 89813580;
  }

  lemma Foreign9()
    ensures Foreign("X.509 Certificate Identifier")
    ensures Foreign("X.509 Certificate Issuer")
    ensures Foreign("X.509 Certificate Subject")
  {
    assert UpperPrint("X.509 Certificate Identifier") == 92951132;
    assert UpperPrint("X.509 Certificate Issuer") == 92951896;
    assert UpperPrint("X.509 Certificate Subject") == 92967257;
  }

  // ---- names with a layout

  lemma ActivationDateAgrees()
    ensures Agrees(Entry("Activation Date", 0x420001))
  {
    hide Agrees, Spelt, NAME_K, DIGEST_K, APPLICATION_SPECIFIC_INFORMATION_K, CRYPTOGRAPHIC_PARAMETERS_K;
    var s, t := "Activation Date", "ACTIVATION_DATE";
    forall i | 0 <= i < |s| ensures t[i] == EnumChar(s[i]) {}
    CharByChar(s, t);
    ByEnumName(Entry(s, 0x420001), t);
  }

  lemma AlwaysSensitiveAgrees()
    ensures Agrees(Entry("Always Sensitive", 0x420121))
  {
    hide Agrees, Spelt, NAME_K, DIGEST_K, APPLICATION_SPECIFIC_INFORMATION_K, CRYPTOGRAPHIC_PARAMETERS_K;
    var s, t := "Always Sensitive", "ALWAYS_SENSITIVE";
    forall i | 0 <= i < |s| ensures t[i] == EnumChar(s[i]) {}
    CharByChar(s, t);
    ByEnumName(Entry(s, 0x420121), t);
  }

  lemma SpeltApplicationSpecificInformation()
    ensures Spelt("Application Specific Information", "APPLICATION_SPECIFIC_INFORMATION")
  {
    var s, t := "Application Specific Information", "APPLICATION_SPECIFIC_INFORMATION";
    forall i | 0 <= i < |s| ensures t[i] == EnumChar(s[i]) {}
  }

  lemma ApplicationSpecificInformationAgrees()
    ensures Agrees(Entry("Application Specific Information", 0x420004))
  {
    hide Agrees, Spelt, NAME_K, DIGEST_K, APPLICATION_SPECIFIC_INFORMATION_K, CRYPTOGRAPHIC_PARAMETERS_K;
    SpeltApplicationSpecificInformation();
    ByEnumName(Entry("Application Specific Information", 0x420004), "APPLICATION_SPECIFIC_INFORMATION");
  }

  lemma ArchiveDateAgrees()
    ensures Agrees(Entry("Archive Date", 0x420005))
  {
    hide Agrees, Spelt, NAME_K, DIGEST_K, APPLICATION_SPECIFIC_INFORMATION_K, CRYPTOGRAPHIC_PARAMETERS_K;
    var s, t := "Archive Date", "ARCHIVE_DATE";
    forall i | 0 <= i < |s| ensures t[i] == EnumChar(s[i]) {}
    CharByChar(s, t);
    ByEnumName(Entry(s, 0x420005), t);
  }

  lemma SpeltCertificateLength()
    ensures Spelt("Certificate Length", "CERTIFICATE_LENGTH")
  {
    var s, t := "Certificate Length", "CERTIFICATE_LENGTH";
    forall i | 0 <= i < |s| ensures t[i] == EnumChar(s[i]) {}
  }

  lemma CertificateLengthAgrees()
    ensures Agrees(Entry("Certificate Length", 0x4200AD))
  {
    hide Agrees, Spelt, NAME_K, DIGEST_K, APPLICATION_SPECIFIC_INFORMATION_K, CRYPTOGRAPHIC_PARAMETERS_K;
    SpeltCertificateLength();
    ByEnumName(Entry("Certificate Length", 0x4200AD), "CERTIFICATE_LENGTH");
  }

  lemma CertificateTypeAgrees()
    ensures Agrees(Entry("Certificate Type", 0x42001D))
  {
    hide Agrees, Spelt, NAME_K, DIGEST_K, APPLICATION_SPECIFIC_INFORMATION_K, CRYPTOGRAPHIC_PARAMETERS_K;
    var s, t := "Certificate Type", "CERTIFICATE_TYPE";
    forall i | 0 <= i < |s| ensures t[i] == EnumChar(s[i]) {}
    CharByChar(s, t);
    ByEnumName(Entry(s, 0x42001D), t);
  }

  lemma CompromiseDateAgrees()
    ensures Agrees(Entry("Compromise Date", 0x420020))
  {
    hide Agrees, Spelt, NAME_K, DIGEST_K, APPLICATION_SPECIFIC_INFORMATION_K, CRYPTOGRAPHIC_PARAMETERS_K;
    var s, t := "Compromise Date", "COMPROMISE_DATE";
    forall i | 0 <= i < |s| ensures t[i] == EnumChar(s[i]) {}
    CharByChar(s, t);
    ByEnumName(Entry(s, 0x420020), t);
  }

  lemma SpeltCompromiseOccurrenceDate()
    ensures Spelt("Compromise Occurrence Date", "COMPROMISE_OCCURRENCE_DATE")
  {
    var s, t := "Compromise Occurrence Date", "COMPROMISE_OCCURRENCE_DATE";
    forall i | 0 <= i < |s| ensures t[i] == EnumChar(s[i]) {}
  }

  lemma CompromiseOccurrenceDateAgrees()
    ensures Agrees(Entry("Compromise Occurrence Date", 0x420021))
  {
    hide Agrees, Spelt, NAME_K, DIGEST_K, APPLICATION_SPECIFIC_INFORMATION_K, CRYPTOGRAPHIC_PARAMETERS_K;
    SpeltCompromiseOccurrenceDate();
    ByEnumName(Entry("Compromise Occurrence Date", 0x420021), "COMPROMISE_OCCURRENCE_DATE");
  }

  lemma SpeltContactInformation()
    ensures Spelt("Contact Information", "CONTACT_INFORMATION")
  {
    var s, t := "Contact Information", "CONTACT_INFORMATION";
    forall i | 0 <= i < |s| ensures t[i] == EnumChar(s[i]) {}
  }

  lemma ContactInformationAgrees()
    ensures Agrees(Entry("Contact Information", 0x420022))
  {
    hide Agrees, Spelt, NAME_K, DIGEST_K, APPLICATION_SPECIFIC_INFORMATION_K, CRYPTOGRAPHIC_PARAMETERS_K;
    SpeltContactInformation();
    ByEnumName(Entry("Contact Information", 0x420022), "CONTACT_INFORMATION");
  }

  lemma SpeltCryptographicAlgorithm()
    ensures Spelt("Cryptographic Algorithm", "CRYPTOGRAPHIC_ALGORITHM")
  {
    var s, t := "Cryptographic Algorithm", "CRYPTOGRAPHIC_ALGORITHM";
    forall i | 0 <= i < |s| ensures t[i] == EnumChar(s[i]) {}
  }

  lemma CryptographicAlgorithmAgrees()
    ensures Agrees(Entry("Cryptographic Algorithm", 0x420028))
  {
    hide Agrees, Spelt, NAME_K, DIGEST_K, APPLICATION_SPECIFIC_INFORMATION_K, CRYPTOGRAPHIC_PARAMETERS_K;
    SpeltCryptographicAlgorithm();
    ByEnumName(Entry("Cryptographic Algorithm", 0x420028), "CRYPTOGRAPHIC_ALGORITHM");
  }

  lemma SpeltCryptographicLength()
    ensures Spelt("Cryptographic Length", "CRYPTOGRAPHIC_LENGTH")
  {
    var s, t := "Cryptographic Length", "CRYPTOGRAPHIC_LENGTH";
    forall i | 0 <= i < |s| ensures t[i] == EnumChar(s[i]) {}
  }

  lemma CryptographicLengthAgrees()
    ensures Agrees(Entry("Cryptographic Length", 0x42002A))
  {
    hide Agrees, Spelt, NAME_K, DIGEST_K, APPLICATION_SPECIFIC_INFORMATION_K, CRYPTOGRAPHIC_PARAMETERS_K;
    SpeltCryptographicLength();
    ByEnumName(Entry("Cryptographic Length", 0x42002A), "CRYPTOGRAPHIC_LENGTH");
  }

  lemma SpeltCryptographicParameters()
    ensures Spelt("Cryptographic Parameters", "CRYPTOGRAPHIC_PARAMETERS")
  {
    var s, t := "Cryptographic Parameters", "CRYPTOGRAPHIC_PARAMETERS";
    forall i | 0 <= i < |s| ensures t[i] == EnumChar(s[i]) {}
  }

  lemma CryptographicParametersAgrees()
    ensures Agrees(Entry("Cryptographic Parameters", 0x42002B))
  {
    hide Agrees, Spelt, NAME_K, DIGEST_K, APPLICATION_SPECIFIC_INFORMATION_K, CRYPTOGRAPHIC_PARAMETERS_K;
    SpeltCryptographicParameters();
    ByEnumName(Entry("Cryptographic Parameters", 0x42002B), "CRYPTOGRAPHIC_PARAMETERS");
  }

  lemma SpeltCryptographicUsageMask()
    ensures Spelt("Cryptographic Usage Mask", "CRYPTOGRAPHIC_USAGE_MASK")
  {
    var s, t := "Cryptographic Usage Mask", "CRYPTOGRAPHIC_USAGE_MASK";
    forall i | 0 <= i < |s| ensures t[i] == EnumChar(s[i]) {}
  }

  lemma CryptographicUsageMaskAgrees()
    ensures Agrees(Entry("Cryptographic Usage Mask", 0x42002C))
  {
    hide Agrees, Spelt, NAME_K, DIGEST_K, APPLICATION_SPECIFIC_INFORMATION_K, CRYPTOGRAPHIC_PARAMETERS_K;
    SpeltCryptographicUsageMask();
    ByEnumName(Entry("Cryptographic Usage Mask", 0x42002C), "CRYPTOGRAPHIC_USAGE_MASK");
  }

  lemma CustomAttributeAgrees()
    ensures Agrees(Entry("Custom Attribute", 0x42002D))
  {
    hide Agrees, Spelt, NAME_K, DIGEST_K, APPLICATION_SPECIFIC_INFORMATION_K, CRYPTOGRAPHIC_PARAMETERS_K;
    var s, t := "Custom Attribute", "CUSTOM_ATTRIBUTE";
    forall i | 0 <= i < |s| ensures t[i] == EnumChar(s[i]) {}
    CharByChar(s, t);
    ByEnumName(Entry(s, 0x42002D), t);
  }

  lemma SpeltDeactivationDate()
    ensures Spelt("Deactivation Date", "DEACTIVATION_DATE")
  {
    var s, t := "Deactivation Date", "DEACTIVATION_DATE";
    forall i | 0 <= i < |s| ensures t[i] == EnumChar(s[i]) {}
  }

  lemma DeactivationDateAgrees()
    ensures Agrees(Entry("Deactivation Date", 0x42002F))
  {
    hide Agrees, Spelt, NAME_K, DIGEST_K, APPLICATION_SPECIFIC_INFORMATION_K, CRYPTOGRAPHIC_PARAMETERS_K;
    SpeltDeactivationDate();
    ByEnumName(Entry("Deactivation Date", 0x42002F), "DEACTIVATION_DATE");
  }

  lemma DestroyDateAgrees()
    ensures Agrees(Entry("Destroy Date", 0x420033))
  {
    hide Agrees, Spelt, NAME_K, DIGEST_K, APPLICATION_SPECIFIC_INFORMATION_K, CRYPTOGRAPHIC_PARAMETERS_K;
    var s, t := "Destroy Date", "DESTROY_DATE";
    forall i | 0 <= i < |s| ensures t[i] == EnumChar(s[i]) {}
    CharByChar(s, t);
    ByEnumName(Entry(s, 0x420033), t);
  }

  lemma DigestAgrees()
    ensures Agrees(Entry("Digest", 0x420034))
  {
    hide Agrees, Spelt, NAME_K, DIGEST_K, APPLICATION_SPECIFIC_INFORMATION_K, CRYPTOGRAPHIC_PARAMETERS_K;
    var s, t := "Digest", "DIGEST";
    forall i | 0 <= i < |s| ensures t[i] == EnumChar(s[i]) {}
    CharByChar(s, t);
    ByEnumName(Entry(s, 0x420034), t);
  }

  lemma ExtractableAgrees()
    ensures Agrees(Entry("Extractable", 0x420122))
  {
    hide Agrees, Spelt, NAME_K, DIGEST_K, APPLICATION_SPECIFIC_INFORMATION_K, CRYPTOGRAPHIC_PARAMETERS_K;
    var s, t := "Extractable", "EXTRACTABLE";
    forall i | 0 <= i < |s| ensures t[i] == EnumChar(s[i]) {}
    CharByChar(s, t);
    ByEnumName(Entry(s, 0x420122), t);
  }

  lemma FreshAgrees()
    ensures Agrees(Entry("Fresh", 0x4200A8))
  {
    hide Agrees, Spelt, NAME_K, DIGEST_K, APPLICATION_SPECIFIC_INFORMATION_K, CRYPTOGRAPHIC_PARAMETERS_K;
    var s, t := "Fresh", "FRESH";
    forall i | 0 <= i < |s| ensures t[i] == EnumChar(s[i]) {}
    CharByChar(s, t);
    ByEnumName(Entry(s, 0x4200A8), t);
  }

  lemma InitialDateAgrees()
    ensures Agrees(Entry("Initial Date", 0x420039))
  {
    hide Agrees, Spelt, NAME_K, DIGEST_K, APPLICATION_SPECIFIC_INFORMATION_K, CRYPTOGRAPHIC_PARAMETERS_K;
    var s, t := "Initial Date", "INITIAL_DATE";
    forall i | 0 <= i < |s| ensures t[i] == EnumChar(s[i]) {}
    CharByChar(s, t);
    ByEnumName(Entry(s, 0x420039), t);
  }

  lemma LastChangeDateAgrees()
    ensures Agrees(Entry("Last Change Date", 0x420048))
  {
    hide Agrees, Spelt, NAME_K, DIGEST_K, APPLICATION_SPECIFIC_INFORMATION_K, CRYPTOGRAPHIC_PARAMETERS_K;
    var s, t := "Last Change Date", "LAST_CHANGE_DATE";
    forall i | 0 <= i < |s| ensures t[i] == EnumChar(s[i]) {}
    CharByChar(s, t);
    ByEnumName(Entry(s, 0x420048), t);
  }

  lemma LeaseTimeAgrees()
    ensures Agrees(Entry("Lease Time", 0x420049))
  {
    hide Agrees, Spelt, NAME_K, DIGEST_K, APPLICATION_SPECIFIC_INFORMATION_K, CRYPTOGRAPHIC_PARAMETERS_K;
    var s, t := "Lease Time", "LEASE_TIME";
    forall i | 0 <= i < |s| ensures t[i] == EnumChar(s[i]) {}
    CharByChar(s, t);
    ByEnumName(Entry(s, 0x420049), t);
  }

  lemma NameAgrees()
    ensures Agrees(Entry("Name", 0x420053))
  {
    hide Agrees, Spelt, NAME_K, DIGEST_K, APPLICATION_SPECIFIC_INFORMATION_K, CRYPTOGRAPHIC_PARAMETERS_K;
    var s, t := "Name", "NAME";
    forall i | 0 <= i < |s| ensures t[i] == EnumChar(s[i]) {}
    CharByChar(s, t);
    ByEnumName(Entry(s, 0x420053), t);
  }

  lemma SpeltNeverExtractable()
    ensures Spelt("Never Extractable", "NEVER_EXTRACTABLE")
  {
    var s, t := "Never Extractable", "NEVER_EXTRACTABLE";
    forall i | 0 <= i < |s| ensures t[i] == EnumChar(s[i]) {}
  }

  lemma NeverExtractableAgrees()
    ensures Agrees(Entry("Never Extractable", 0x420123))
  {
    hide Agrees, Spelt, NAME_K, DIGEST_K, APPLICATION_SPECIFIC_INFORMATION_K, CRYPTOGRAPHIC_PARAMETERS_K;
    SpeltNeverExtractable();
    ByEnumName(Entry("Never Extractable", 0x420123), "NEVER_EXTRACTABLE");
  }

  lemma ObjectGroupAgrees()
    ensures Agrees(Entry("Object Group", 0x420056))
  {
    hide Agrees, Spelt, NAME_K, DIGEST_K, APPLICATION_SPECIFIC_INFORMATION_K, CRYPTOGRAPHIC_PARAMETERS_K;
    var s, t := "Object Group", "OBJECT_GROUP";
    forall i | 0 <= i < |s| ensures t[i] == EnumChar(s[i]) {}
    CharByChar(s, t);
    ByEnumName(Entry(s, 0x420056), t);
  }

  lemma ObjectTypeAgrees()
    ensures Agrees(Entry("Object Type", 0x420057))
  {
    hide Agrees, Spelt, NAME_K, DIGEST_K, APPLICATION_SPECIFIC_INFORMATION_K, CRYPTOGRAPHIC_PARAMETERS_K;
    var s, t := "Object Type", "OBJECT_TYPE";
    forall i | 0 <= i < |s| ensures t[i] == EnumChar(s[i]) {}
    CharByChar(s, t);
    ByEnumName(Entry(s, 0x420057), t);
  }

  lemma SpeltOperationPolicyName()
    ensures Spelt("Operation Policy Name", "OPERATION_POLICY_NAME")
  {
    var s, t := "Operation Policy Name", "OPERATION_POLICY_NAME";
    forall i | 0 <= i < |s| ensures t[i] == EnumChar(s[i]) {}
  }

  lemma OperationPolicyNameAgrees()
    ensures Agrees(Entry("Operation Policy Name", 0x42005D))
  {
    hide Agrees, Spelt, NAME_K, DIGEST_K, APPLICATION_SPECIFIC_INFORMATION_K, CRYPTOGRAPHIC_PARAMETERS_K;
    SpeltOperationPolicyName();
    ByEnumName(Entry("Operation Policy Name", 0x42005D), "OPERATION_POLICY_NAME");
  }

  lemma SpeltOriginalCreationDate()
    ensures Spelt("Original Creation Date", "ORIGINAL_CREATION_DATE")
  {
    var s, t := "Original Creation Date", "ORIGINAL_CREATION_DATE";
    forall i | 0 <= i < |s| ensures t[i] == EnumChar(s[i]) {}
  }

  lemma OriginalCreationDateAgrees()
    ensures Agrees(Entry("Original Creation Date", 0x4200BC))
  {
    hide Agrees, Spelt, NAME_K, DIGEST_K, APPLICATION_SPECIFIC_INFORMATION_K, CRYPTOGRAPHIC_PARAMETERS_K;
    SpeltOriginalCreationDate();
    ByEnumName(Entry("Original Creation Date", 0x4200BC), "ORIGINAL_CREATION_DATE");
  }

  lemma SpeltProcessStartDate()
    ensures Spelt("Process Start Date", "PROCESS_START_DATE")
  {
    var s, t := "Process Start Date", "PROCESS_START_DATE";
    forall i | 0 <= i < |s| ensures t[i] == EnumChar(s[i]) {}
  }

  lemma ProcessStartDateAgrees()
    ensures Agrees(Entry("Process Start Date", 0x420067))
  {
    hide Agrees, Spelt, NAME_K, DIGEST_K, APPLICATION_SPECIFIC_INFORMATION_K, CRYPTOGRAPHIC_PARAMETERS_K;
    SpeltProcessStartDate();
    ByEnumName(Entry("Process Start Date", 0x420067), "PROCESS_START_DATE");
  }

  lemma SpeltProtectStopDate()
    ensures Spelt("Protect Stop Date", "PROTECT_STOP_DATE")
  {
    var s, t := "Protect Stop Date", "PROTECT_STOP_DATE";
    forall i | 0 <= i < |s| ensures t[i] == EnumChar(s[i]) {}
  }

  lemma ProtectStopDateAgrees()
    ensures Agrees(Entry("Protect Stop Date", 0x420068))
  {
    hide Agrees, Spelt, NAME_K, DIGEST_K, APPLICATION_SPECIFIC_INFORMATION_K, CRYPTOGRAPHIC_PARAMETERS_K;
    SpeltProtectStopDate();
    ByEnumName(Entry("Protect Stop Date", 0x420068), "PROTECT_STOP_DATE");
  }

  lemma SensitiveAgrees()
    ensures Agrees(Entry("Sensitive", 0x420120))
  {
    hide Agrees, Spelt, NAME_K, DIGEST_K, APPLICATION_SPECIFIC_INFORMATION_K, CRYPTOGRAPHIC_PARAMETERS_K;
    var s, t := "Sensitive", "SENSITIVE";
    forall i | 0 <= i < |s| ensures t[i] == EnumChar(s[i]) {}
    CharByChar(s, t);
    ByEnumName(Entry(s, 0x420120), t);
  }

  lemma StateAgrees()
    ensures Agrees(Entry("State", 0x42008D))
  {
    hide Agrees, Spelt, NAME_K, DIGEST_K, APPLICATION_SPECIFIC_INFORMATION_K, CRYPTOGRAPHIC_PARAMETERS_K;
    var s, t := "State", "STATE";
    forall i | 0 <= i < |s| ensures t[i] == EnumChar(s[i]) {}
    CharByChar(s, t);
    ByEnumName(Entry(s, 0x42008D), t);
  }

  lemma SpeltUniqueIdentifier()
    ensures Spelt("Unique Identifier", "UNIQUE_IDENTIFIER")
  {
    var s, t := "Unique Identifier", "UNIQUE_IDENTIFIER";
    forall i | 0 <= i < |s| ensures t[i] == EnumChar(s[i]) {}
  }

  lemma UniqueIdentifierAgrees()
    ensures Agrees(Entry("Unique Identifier", 0x420094))
  {
    hide Agrees, Spelt, NAME_K, DIGEST_K, APPLICATION_SPECIFIC_INFORMATION_K, CRYPTOGRAPHIC_PARAMETERS_K;
    SpeltUniqueIdentifier();
    ByEnumName(Entry("Unique Identifier", 0x420094), "UNIQUE_IDENTIFIER");
  }

  // ---- the table

  /** The tags that the factory of KMIP 2.0 builds values for. */
  predicate IsBuilt(tag: Tag) {
    match tag
    case 0x420094 => true case 0x420053 => true case 0x420057 => true case 0x420028 => true
    case 0x42002A => true case 0x42002B => true case 0x4200AD => true case 0x420034 => true
    case 0x42002C => true case 0x420049 => true case 0x42008D => true case 0x420039 => true
    case 0x420001 => true case 0x420067 => true case 0x420068 => true case 0x42002F => true
    case 0x420033 => true case 0x420021 => true case 0x420020 => true case 0x420005 => true
    case 0x420056 => true case 0x4200A8 => true case 0x420004 => true case 0x420022 => true
    case 0x420048 => true case 0x420120 => true
    case _ => false
  }

  lemma BuiltByTag()
    ensures forall tag :: tag in ATTRIBUTE_KINDS_2_0 <==> IsBuilt(tag)
  {
    hide NAME_K, DIGEST_K, APPLICATION_SPECIFIC_INFORMATION_K, CRYPTOGRAPHIC_PARAMETERS_K;
  }

  lemma Agreement1()
    ensures forall e :: e in TABLE_1 ==> Agrees(e)
  {
    hide Agrees, Foreign, ATTRIBUTE_KINDS_2_0;
    BuiltByTag();
    Foreign1();
    Foreign2();
    ActivationDateAgrees();
    ForeignAgrees(Entry("Alternative Name", 0x4200BF));
    AlwaysSensitiveAgrees();
    ApplicationSpecificInformationAgrees();
    ArchiveDateAgrees();
    ForeignAgrees(Entry("Attribute", 0x420008));
    ForeignAgrees(Entry("Certificate Identifier", 0x420014));
    ForeignAgrees(Entry("Certificate Issuer", 0x420015));
    ForeignAgrees(Entry("Certificate Issuer C", 0x420118));
    ForeignAgrees(Entry("Certificate Issuer CN", 0x420114));
    ForeignAgrees(Entry("Certificate Issuer DC", 0x42011E));
    ForeignAgrees(Entry("Certificate Issuer DN Qualifier", 0x42011F));
  }

  lemma Agreement2()
    ensures forall e :: e in TABLE_2 ==> Agrees(e)
  {
    hide Agrees, Foreign, ATTRIBUTE_KINDS_2_0;
    BuiltByTag();
    Foreign2();
    Foreign3();
    Foreign4();
    ForeignAgrees(Entry("Certificate Issuer Email", 0x420117));
    ForeignAgrees(Entry("Certificate Issuer L", 0x42011A));
    ForeignAgrees(Entry("Certificate Issuer O", 0x420115));
    ForeignAgrees(Entry("Certificate Issuer OU", 0x420116));
    ForeignAgrees(Entry("Certificate Issuer Serial Number", 0x42011C));
    ForeignAgrees(Entry("Certificate Issuer ST", 0x420119));
    ForeignAgrees(Entry("Certificate Issuer Title", 0x42011D));
    ForeignAgrees(Entry("Certificate Issuer UID", 0x42011B));
    CertificateLengthAgrees();
    ForeignAgrees(Entry("Certificate Subject", 0x42001A));
    ForeignAgrees(Entry("Certificate Subject C", 0x42010C));
    ForeignAgrees(Entry("Certificate Subject CN", 0x420108));
  }

  lemma Agreement3()
    ensures forall e :: e in TABLE_3 ==> Agrees(e)
  {
    hide Agrees, Foreign, ATTRIBUTE_KINDS_2_0;
    BuiltByTag();
    Foreign4();
    Foreign5();
    ForeignAgrees(Entry("Certificate Subject DC", 0x420112));
    ForeignAgrees(Entry("Certificate Subject DN Qualifier", 0x420113));
    ForeignAgrees(Entry("Certificate Subject Email", 0x42010B));
    ForeignAgrees(Entry("Certificate Subject L", 0x42010E));
    ForeignAgrees(Entry("Certificate Subject O", 0x420109));
    ForeignAgrees(Entry("Certificate Subject OU", 0x42010A));
    ForeignAgrees(Entry("Certificate Subject Serial Number", 0x420110));
    ForeignAgrees(Entry("Certificate Subject ST", 0x42010D));
    ForeignAgrees(Entry("Certificate Subject Title", 0x420111));
    ForeignAgrees(Entry("Certificate Subject UID", 0x42010F));
    CertificateTypeAgrees();
    ForeignAgrees(Entry("Comment", 0x4200FD));
  }

  lemma Agreement4()
    ensures forall e :: e in TABLE_4 ==> Agrees(e)
  {
    hide Agrees, Foreign, ATTRIBUTE_KINDS_2_0;
    BuiltByTag();
    Foreign6();
    CompromiseDateAgrees();
    CompromiseOccurrenceDateAgrees();
    ContactInformationAgrees();
    CryptographicAlgorithmAgrees();
    ForeignAgrees(Entry("Cryptographic Domain Parameters", 0x420029));
    CryptographicLengthAgrees();
    CryptographicParametersAgrees();
    CryptographicUsageMaskAgrees();
    CustomAttributeAgrees();
    DeactivationDateAgrees();
    ForeignAgrees(Entry("Description", 0x4200FC));
    DestroyDateAgrees();
  }

  lemma Agreement5()
    ensures forall e :: e in TABLE_5 ==> Agrees(e)
  {
    hide Agrees, Foreign, ATTRIBUTE_KINDS_2_0;
    BuiltByTag();
    Foreign6();
    Foreign7();
    DigestAgrees();
    ForeignAgrees(Entry("Digital Signature Algorithm", 0x4200AE));
    ExtractableAgrees();
    FreshAgrees();
    InitialDateAgrees();
    ForeignAgrees(Entry("Key Format Type", 0x420042));
    ForeignAgrees(Entry("Key Value Location", 0x4200B8));
    ForeignAgrees(Entry("Key Value Present", 0x4200BB));
    LastChangeDateAgrees();
    LeaseTimeAgrees();
    ForeignAgrees(Entry("Link", 0x42004A));
    NameAgrees();
  }

  lemma Agreement6()
    ensures forall e :: e in TABLE_6 ==> Agrees(e)
  {
    hide Agrees, Foreign, ATTRIBUTE_KINDS_2_0;
    BuiltByTag();
    Foreign7();
    NeverExtractableAgrees();
    ForeignAgrees(Entry("NIST Key Type", 0x42013A));
    ObjectGroupAgrees();
    ObjectTypeAgrees();
    ForeignAgrees(Entry("Opaque Data Type", 0x420059));
    OperationPolicyNameAgrees();
    OriginalCreationDateAgrees();
    ForeignAgrees(Entry("PKCS#12 Friendly Name", 0x4200FB));
    ProcessStartDateAgrees();
    ProtectStopDateAgrees();
    ForeignAgrees(Entry("Protection Level", 0x420145));
    ForeignAgrees(Entry("Protection Period", 0x420146));
  }

  lemma Agreement7()
    ensures forall e :: e in TABLE_7 ==> Agrees(e)
  {
    hide Agrees, Foreign, ATTRIBUTE_KINDS_2_0;
    BuiltByTag();
    Foreign8();
    Foreign9();
    ForeignAgrees(Entry("Protection Storage Mask", 0x42015E));
    ForeignAgrees(Entry("Quantum Safe", 0x420147));
    ForeignAgrees(Entry("Random Number Generator", 0x4200DE));
    ForeignAgrees(Entry("Revocation Reason", 0x420081));
    SensitiveAgrees();
    ForeignAgrees(Entry("Short Unique Identifier", 0x420136));
    StateAgrees();
    UniqueIdentifierAgrees();
    ForeignAgrees(Entry("Usage Limits", 0x420095));
    ForeignAgrees(Entry("X.509 Certificate Identifier", 0x4200B5));
    ForeignAgrees(Entry("X.509 Certificate Issuer", 0x4200B6));
    ForeignAgrees(Entry("X.509 Certificate Subject", 0x4200B7));
  }

  // ---- the tags of the table

  ghost predicate Listed(tag: Tag) {
    exists e :: e in ATTRIBUTE_NAME_TAG_TABLE && e.tag == tag
  }

  lemma IsListed(e: Entry)
    requires e in ATTRIBUTE_NAME_TAG_TABLE
    ensures Listed(e.tag)
  {
  }

  lemma Parts(e: Entry)
    ensures e in ATTRIBUTE_NAME_TAG_TABLE <==>
      e in TABLE_1 || e in TABLE_2 || e in TABLE_3 || e in TABLE_4 || e in TABLE_5 || e in TABLE_6 || e in TABLE_7
  {
    hide TABLE_1, TABLE_2, TABLE_3, TABLE_4, TABLE_5, TABLE_6, TABLE_7;
  }

  lemma Listed1()
    ensures Listed(0x420001) && Listed(0x4200BF) && Listed(0x420121) && Listed(0x420004)
    ensures Listed(0x420005) && Listed(0x420008) && Listed(0x420014) && Listed(0x420015)
    ensures Listed(0x420118) && Listed(0x420114) && Listed(0x42011E) && Listed(0x42011F)
  {
    hide Listed;
    forall i | 0 <= i < |TABLE_1| ensures Listed(TABLE_1[i].tag) {
      Parts(TABLE_1[i]);
      IsListed(TABLE_1[i]);
    }
    assert TABLE_1[0].tag == 0x420001;
    assert TABLE_1[1].tag == 0x4200BF;
    assert TABLE_1[2].tag == 0x420121;
    assert TABLE_1[3].tag == 0x420004;
    assert TABLE_1[4].tag == 0x420005;
    assert TABLE_1[5].tag == 0x420008;
    assert TABLE_1[6].tag == 0x420014;
    assert TABLE_1[7].tag == 0x420015;
    assert TABLE_1[8].tag == 0x420118;
    assert TABLE_1[9].tag == 0x420114;
    assert TABLE_1[10].tag == 0x42011E;
    assert TABLE_1[11].tag == 0x42011F;
  }

  lemma Listed2()
    ensures Listed(0x420117) && Listed(0x42011A) && Listed(0x420115) && Listed(0x420116)
    ensures Listed(0x42011C) && Listed(0x420119) && Listed(0x42011D) && Listed(0x42011B)
    ensures Listed(0x4200AD) && Listed(0x42001A) && Listed(0x42010C) && Listed(0x420108)
  {
    hide Listed;
    forall i | 0 <= i < |TABLE_2| ensures Listed(TABLE_2[i].tag) {
      Parts(TABLE_2[i]);
      IsListed(TABLE_2[i]);
    }
    assert TABLE_2[0].tag == 0x420117;
    assert TABLE_2[1].tag == 0x42011A;
    assert TABLE_2[2].tag == 0x420115;
    assert TABLE_2[3].tag == 0x420116;
    assert TABLE_2[4].tag == 0x42011C;
    assert TABLE_2[5].tag == 0x420119;
    assert TABLE_2[6].tag == 0x42011D;
    assert TABLE_2[7].tag == 0x42011B;
    assert TABLE_2[8].tag == 0x4200AD;
    assert TABLE_2[9].tag == 0x42001A;
    assert TABLE_2[10].tag == 0x42010C;
    assert TABLE_2[11].tag == 0x420108;
  }

  lemma Listed3()
    ensures Listed(0x420112) && Listed(0x420113) && Listed(0x42010B) && Listed(0x42010E)
    ensures Listed(0x420109) && Listed(0x42010A) && Listed(0x420110) && Listed(0x42010D)
    ensures Listed(0x420111) && Listed(0x42010F) && Listed(0x42001D) && Listed(0x4200FD)
  {
    hide Listed;
    forall i | 0 <= i < |TABLE_3| ensures Listed(TABLE_3[i].tag) {
      Parts(TABLE_3[i]);
      IsListed(TABLE_3[i]);
    }
    assert TABLE_3[0].tag == 0x420112;
    assert TABLE_3[1].tag == 0x420113;
    assert TABLE_3[2].tag == 0x42010B;
    assert TABLE_3[3].tag == 0x42010E;
    assert TABLE_3[4].tag == 0x420109;
    assert TABLE_3[5].tag == 0x42010A;
    assert TABLE_3[6].tag == 0x420110;
    assert TABLE_3[7].tag == 0x42010D;
    assert TABLE_3[8].tag == 0x420111;
    assert TABLE_3[9].tag == 0x42010F;
    assert TABLE_3[10].tag == 0x42001D;
    assert TABLE_3[11].tag == 0x4200FD;
  }

  lemma Listed4()
    ensures Listed(0x420020) && Listed(0x420021) && Listed(0x420022) && Listed(0x420028)
    ensures Listed(0x420029) && Listed(0x42002A) && Listed(0x42002B) && Listed(0x42002C)
    ensures Listed(0x42002D) && Listed(0x42002F) && Listed(0x4200FC) && Listed(0x420033)
  {
    hide Listed;
    forall i | 0 <= i < |TABLE_4| ensures Listed(TABLE_4[i].tag) {
      Parts(TABLE_4[i]);
      IsListed(TABLE_4[i]);
    }
    assert TABLE_4[0].tag == 0x420020;
    assert TABLE_4[1].tag == 0x420021;
    assert TABLE_4[2].tag == 0x420022;
    assert TABLE_4[3].tag == 0x420028;
    assert TABLE_4[4].tag == 0x420029;
    assert TABLE_4[5].tag == 0x42002A;
    assert TABLE_4[6].tag == 0x42002B;
    assert TABLE_4[7].tag == 0x42002C;
    assert TABLE_4[8].tag == 0x42002D;
    assert TABLE_4[9].tag == 0x42002F;
    assert TABLE_4[10].tag == 0x4200FC;
    assert TABLE_4[11].tag == 0x420033;
  }

  lemma Listed5()
    ensures Listed(0x420034) && Listed(0x4200AE) && Listed(0x420122) && Listed(0x4200A8)
    ensures Listed(0x420039) && Listed(0x420042) && Listed(0x4200B8) && Listed(0x4200BB)
    ensures Listed(0x420048) && Listed(0x420049) && Listed(0x42004A) && Listed(0x420053)
  {
    hide Listed;
    forall i | 0 <= i < |TABLE_5| ensures Listed(TABLE_5[i].tag) {
      Parts(TABLE_5[i]);
      IsListed(TABLE_5[i]);
    }
    assert TABLE_5[0].tag == 0x420034;
    assert TABLE_5[1].tag == 0x4200AE;
    assert TABLE_5[2].tag == 0x420122;
    assert TABLE_5[3].tag == 0x4200A8;
    assert TABLE_5[4].tag == 0x420039;
    assert TABLE_5[5].tag == 0x420042;
    assert TABLE_5[6].tag == 0x4200B8;
    assert TABLE_5[7].tag == 0x4200BB;
    assert TABLE_5[8].tag == 0x420048;
    assert TABLE_5[9].tag == 0x420049;
    assert TABLE_5[10].tag == 0x42004A;
    assert TABLE_5[11].tag == 0x420053;
  }

  lemma Listed6()
    ensures Listed(0x420123) && Listed(0x42013A) && Listed(0x420056) && Listed(0x420057)
    ensures Listed(0x420059) && Listed(0x42005D) && Listed(0x4200BC) && Listed(0x4200FB)
    ensures Listed(0x420067) && Listed(0x420068) && Listed(0x420145) && Listed(0x420146)
  {
    hide Listed;
    forall i | 0 <= i < |TABLE_6| ensures Listed(TABLE_6[i].tag) {
      Parts(TABLE_6[i]);
      IsListed(TABLE_6[i]);
    }
    assert TABLE_6[0].tag == 0x420123;
    assert TABLE_6[1].tag == 0x42013A;
    assert TABLE_6[2].tag == 0x420056;
    assert TABLE_6[3].tag == 0x420057;
    assert TABLE_6[4].tag == 0x420059;
    assert TABLE_6[5].tag == 0x42005D;
    assert TABLE_6[6].tag == 0x4200BC;
    assert TABLE_6[7].tag == 0x4200FB;
    assert TABLE_6[8].tag == 0x420067;
    assert TABLE_6[9].tag == 0x420068;
    assert TABLE_6[10].tag == 0x420145;
    assert TABLE_6[11].tag == 0x420146;
  }

  lemma Listed7()
    ensures Listed(0x42015E) && Listed(0x420147) && Listed(0x4200DE) && Listed(0x420081)
    ensures Listed(0x420120) && Listed(0x420136) && Listed(0x42008D) && Listed(0x420094)
    ensures Listed(0x420095) && Listed(0x4200B5) && Listed(0x4200B6) && Listed(0x4200B7)
  {
    hide Listed;
    forall i | 0 <= i < |TABLE_7| ensures Listed(TABLE_7[i].tag) {
      Parts(TABLE_7[i]);
      IsListed(TABLE_7[i]);
    }
    assert TABLE_7[0].tag == 0x42015E;
    assert TABLE_7[1].tag == 0x420147;
    assert TABLE_7[2].tag == 0x4200DE;
    assert TABLE_7[3].tag == 0x420081;
    assert TABLE_7[4].tag == 0x420120;
    assert TABLE_7[5].tag == 0x420136;
    assert TABLE_7[6].tag == 0x42008D;
    assert TABLE_7[7].tag == 0x420094;
    assert TABLE_7[8].tag == 0x420095;
    assert TABLE_7[9].tag == 0x4200B5;
    assert TABLE_7[10].tag == 0x4200B6;
    assert TABLE_7[11].tag == 0x4200B7;
  }

  lemma TableAgrees(e: Entry)
    requires e in ATTRIBUTE_NAME_TAG_TABLE
    ensures Agrees(e)
  {
    hide Agrees, TABLE_1, TABLE_2, TABLE_3, TABLE_4, TABLE_5, TABLE_6, TABLE_7;
    Agreement1();
    Agreement2();
    Agreement3();
    Agreement4();
    Agreement5();
    Agreement6();
    Agreement7();
  }

  /** Every name that starts with x- is that of a custom attribute, a text: no
      enumeration name has its second character. */
  lemma CustomNames(name: string)
    requires |name| >= 2 && name[0] == 'x' && name[1] == '-'
    ensures KindFor(ATTRIBUTE_KINDS, name) == Some(TextStringK)
  {
    hide ATTRIBUTE_KINDS, KEY_PRINTS;
    KeyPrints();
    assert EnumName(name)[1] == '-';
  }

  /** Every attribute of the table that the factory of KMIP 2.0 builds by its tag is
      built by its name with the same layout. Of the others, seven have a layout by
      their name, and the name of none of the rest is known. */
  lemma FactoriesAgree(e: Entry)
    requires e in ATTRIBUTE_NAME_TAG_TABLE
    ensures e.tag in ATTRIBUTE_KINDS_2_0 ==> KindFor(ATTRIBUTE_KINDS, e.name) == Some(ATTRIBUTE_KINDS_2_0[e.tag])
    ensures e.tag !in ATTRIBUTE_KINDS_2_0 && KindFor(ATTRIBUTE_KINDS, e.name).Some? <==>
      e.tag in {0x42001D, 0x420121, 0x420122, 0x420123, 0x42002D, 0x42005D, 0x4200BC}
  {
    TableAgrees(e);
    SevenByName();
    hide ATTRIBUTE_KINDS, ATTRIBUTE_KINDS_2_0, KindFor, ATTRIBUTE_NAME_TAG_TABLE;
  }

  lemma SevenByName()
    ensures forall tag :: tag in {0x42001D, 0x420121, 0x420122, 0x420123, 0x42002D, 0x42005D, 0x4200BC} ==>
      tag !in ATTRIBUTE_KINDS_2_0
  {
    hide NAME_K, DIGEST_K, APPLICATION_SPECIFIC_INFORMATION_K, CRYPTOGRAPHIC_PARAMETERS_K;
  }

  /** The tags that is_attribute accepts, for KMIP 2.0 and for all versions together,
      are those of the table, without and with the five that 2.0 has removed. */
  lemma AttributeTagsListed(tag: Tag)
    ensures IsAttribute(tag) <==> Listed(tag)
    ensures IsAttribute20(tag) <==> Listed(tag) && tag !in {0x420014, 0x420015, 0x42001A, 0x42002D, 0x42005D}
  {
    hide ATTRIBUTE_NAME_TAG_TABLE, IsAttribute20;
    TableOneToOne();
    Removed();
    if IsAttribute(tag) {
      AllListed(tag);
    }
  }

  lemma Removed()
    ensures !IsAttribute20(0x420014) && !IsAttribute20(0x420015) && !IsAttribute20(0x42001A)
    ensures !IsAttribute20(0x42002D) && !IsAttribute20(0x42005D)
  {
    hide ATTRIBUTE_KINDS_2_0;
    BuiltByTag();
  }

  lemma AllListed(tag: Tag)
    requires IsAttribute(tag)
    ensures Listed(tag)
  {
    hide ATTRIBUTE_KINDS_2_0, Listed;
    BuiltByTag();
    Listed1();
    Listed2();
    Listed3();
    Listed4();
    Listed5();
    Listed6();
    Listed7();
  }

  // ---- what the attribute list of KMIP 2.0 reads for each tag

  predicate IsDate(tag: Tag) {
    match tag
    case 0x420001 => true case 0x420005 => true case 0x420020 => true case 0x420021 => true
    case 0x42002F => true case 0x420033 => true case 0x420039 => true case 0x420048 => true
    case 0x420067 => true case 0x420068 => true
    case _ => false
  }

  predicate IsText(tag: Tag) {
    tag == 0x420022 || tag == 0x420056 || tag == 0x420094
  }

  predicate IsNumber(tag: Tag) {
    tag == 0x42002A || tag == 0x42002C || tag == 0x4200AD
  }

  predicate IsBool(tag: Tag) {
    tag == 0x4200A8 || tag == 0x420120
  }

  predicate IsStructure(tag: Tag) {
    tag == 0x420004 || tag == 0x42002B || tag == 0x420034 || tag == 0x420053
  }

  /** The largest number of Object Type, Cryptographic Algorithm and State. */
  function LastMember(tag: Tag): nat {
    match tag
    case 0x420057 => 10
    case 0x420028 => 56
    case 0x42008D => 6
    case _ => 0
  }

  lemma BuiltKinds(tag: Tag)
    requires tag in ATTRIBUTE_KINDS_2_0
    ensures var kind := ATTRIBUTE_KINDS_2_0[tag];
      if IsDate(tag) then kind == DateTimeK
      else if IsText(tag) then kind == TextStringK
      else if IsNumber(tag) then kind == IntegerK
      else if IsBool(tag) then kind == BooleanK
      else if tag == 0x420004 then kind == APPLICATION_SPECIFIC_INFORMATION_K
      else if tag == 0x42002B then kind == CRYPTOGRAPHIC_PARAMETERS_K
      else if tag == 0x420034 then kind == DIGEST_K
      else if tag == 0x420053 then kind == NAME_K
      else if tag == 0x420049 then kind == IntervalK
      else kind.EnumerationK? && MemberCount(kind.cls) == LastMember(tag)
  {
    hide NAME_K, DIGEST_K, APPLICATION_SPECIFIC_INFORMATION_K, CRYPTOGRAPHIC_PARAMETERS_K;
  }

  /** Which bytes are the value of an attribute, by its tag: a date has type 9, a text
      type 7, a number type 2, and so on, and an enumeration one of its members. */
  lemma AcceptedValues(tag: Tag, s: seq<byte>)
    requires tag in ATTRIBUTE_KINDS_2_0
    ensures var ok := Decode(tag, ATTRIBUTE_KINDS_2_0[tag], s).Ok?;
      && (IsDate(tag) ==> (ok <==> Heads(tag, 9, s) && LengthOf(s) == 8 && |s| >= 16))
      && (IsText(tag) ==>
            (ok <==> Heads(tag, 7, s) && PaddingEnd(s) <= |s| && AllAscii(s[8..ValueEnd(s)])
                     && AllZero(s[ValueEnd(s)..PaddingEnd(s)])))
      && (IsNumber(tag) ==>
            (ok <==> Heads(tag, 2, s) && LengthOf(s) == 4 && |s| >= 16 && UnpackU(s[12..16]) == 0))
      && (IsBool(tag) ==> (ok <==> Heads(tag, 6, s) && |s| >= 16 && UnpackU(s[8..16]) <= 1))
      && (IsStructure(tag) ==> ok ==> Heads(tag, 1, s))
      && (tag == 0x420004 ==> ok == Decode(tag, APPLICATION_SPECIFIC_INFORMATION_K, s).Ok?)
      && (tag == 0x42002B ==> ok == Decode(tag, CRYPTOGRAPHIC_PARAMETERS_K, s).Ok?)
      && (tag == 0x420034 ==> ok == Decode(tag, DIGEST_K, s).Ok?)
      && (tag == 0x420053 ==> ok == Decode(tag, NAME_K, s).Ok?)
      && (tag == 0x420049 ==>
            (ok <==> Heads(tag, 10, s) && LengthOf(s) == 4 && |s| >= 16 && UnpackU(s[12..16]) == 0))
      && (LastMember(tag) > 0 ==>
            (ok <==> Heads(tag, 5, s) && LengthOf(s) == 4 && |s| >= 16
                     && 1 <= UnpackU(s[8..12]) <= LastMember(tag) && UnpackU(s[12..16]) == 0))
    ensures IsDate(tag) || IsText(tag) || IsNumber(tag) || IsBool(tag) || IsStructure(tag) || tag == 0x420049
         || LastMember(tag) > 0
  {
    hide ATTRIBUTE_KINDS_2_0, Decode, Heads, LengthOf, PaddingEnd, ValueEnd, UnpackU, AllAscii, AllZero;
    BuiltKinds(tag);
    var kind := ATTRIBUTE_KINDS_2_0[tag];
    match kind
    case IntegerK => IntegerBytes(tag, s);
    case DateTimeK => LongIntegerBytes(tag, kind, s);
    case EnumerationK(cls) => EnumerationBytes(tag, cls, s);
    case BooleanK => BooleanBytes(tag, s);
    case TextStringK => TextStringBytes(tag, s);
    case IntervalK => IntervalBytes(tag, s);
    case StructK(fs) =>
      if Decode(tag, kind, s).Ok? {
        StructureHeads(tag, kind, s);
      }
    case _ =>
  }

  lemma StructureHeads(tag: Tag, kind: Kind, s: seq<byte>)
    requires kind.StructK? && Decode(tag, kind, s).Ok?
    ensures Heads(tag, 1, s)
  {
    HeaderIff(tag, 1, s);
    hide DecodeHeader;
  }
}
