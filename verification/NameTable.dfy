/** enums.attribute_name_tag_table, and why it is one-to-one. */
module NameTable {
  import opened Enums
  import opened Schemas
  import opened Conversions
  import opened Wrappers

  const TABLE_1: seq<Entry> := [
    Entry("Activation Date", 0x420001),
    Entry("Alternative Name", 0x4200BF),
    Entry("Always Sensitive", 0x420121),
    Entry("Application Specific Information", 0x420004),
    Entry("Archive Date", 0x420005),
    Entry("Attribute", 0x420008),
    Entry("Certificate Identifier", 0x420014),
    Entry("Certificate Issuer", 0x420015),
    Entry("Certificate Issuer C", 0x420118),
    Entry("Certificate Issuer CN", 0x420114),
    Entry("Certificate Issuer DC", 0x42011E),
    Entry("Certificate Issuer DN Qualifier", 0x42011F)]

  const TABLE_2: seq<Entry> := [
    Entry("Certificate Issuer Email", 0x420117),
    Entry("Certificate Issuer L", 0x42011A),
    Entry("Certificate Issuer O", 0x420115),
    Entry("Certificate Issuer OU", 0x420116),
    Entry("Certificate Issuer Serial Number", 0x42011C),
    Entry("Certificate Issuer ST", 0x420119),
    Entry("Certificate Issuer Title", 0x42011D),
    Entry("Certificate Issuer UID", 0x42011B),
    Entry("Certificate Length", 0x4200AD),
    Entry("Certificate Subject", 0x42001A),
    Entry("Certificate Subject C", 0x42010C),
    Entry("Certificate Subject CN", 0x420108)]

  const TABLE_3: seq<Entry> := [
    Entry("Certificate Subject DC", 0x420112),
    Entry("Certificate Subject DN Qualifier", 0x420113),
    Entry("Certificate Subject Email", 0x42010B),
    Entry("Certificate Subject L", 0x42010E),
    Entry("Certificate Subject O", 0x420109),
    Entry("Certificate Subject OU", 0x42010A),
    Entry("Certificate Subject Serial Number", 0x420110),
    Entry("Certificate Subject ST", 0x42010D),
    Entry("Certificate Subject Title", 0x420111),
    Entry("Certificate Subject UID", 0x42010F),
    Entry("Certificate Type", 0x42001D),
    Entry("Comment", 0x4200FD)]

  const TABLE_4: seq<Entry> := [
    Entry("Compromise Date", 0x420020),
    Entry("Compromise Occurrence Date", 0x420021),
    Entry("Contact Information", 0x420022),
    Entry("Cryptographic Algorithm", 0x420028),
    Entry("Cryptographic Domain Parameters", 0x420029),
    Entry("Cryptographic Length", 0x42002A),
    Entry("Cryptographic Parameters", 0x42002B),
    Entry("Cryptographic Usage Mask", 0x42002C),
    Entry("Custom Attribute", 0x42002D),
    Entry("Deactivation Date", 0x42002F),
    Entry("Description", 0x4200FC),
    Entry("Destroy Date", 0x420033)]

  const TABLE_5: seq<Entry> := [
    Entry("Digest", 0x420034),
    Entry("Digital Signature Algorithm", 0x4200AE),
    Entry("Extractable", 0x420122),
    Entry("Fresh", 0x4200A8),
    Entry("Initial Date", 0x420039),
    Entry("Key Format Type", 0x420042),
    Entry("Key Value Location", 0x4200B8),
    Entry("Key Value Present", 0x4200BB),
    Entry("Last Change Date", 0x420048),
    Entry("Lease Time", 0x420049),
    Entry("Link", 0x42004A),
    Entry("Name", 0x420053)]

  const TABLE_6: seq<Entry> := [
    Entry("Never Extractable", 0x420123),
    Entry("NIST Key Type", 0x42013A),
    Entry("Object Group", 0x420056),
    Entry("Object Type", 0x420057),
    Entry("Opaque Data Type", 0x420059),
    Entry("Operation Policy Name", 0x42005D),
    Entry("Original Creation Date", 0x4200BC),
    Entry("PKCS#12 Friendly Name", 0x4200FB),
    Entry("Process Start Date", 0x420067),
    Entry("Protect Stop Date", 0x420068),
    Entry("Protection Level", 0x420145),
    Entry("Protection Period", 0x420146)]

  const TABLE_7: seq<Entry> := [
    Entry("Protection Storage Mask", 0x42015E),
    Entry("Quantum Safe", 0x420147),
    Entry("Random Number Generator", 0x4200DE),
    Entry("Revocation Reason", 0x420081),
    Entry("Sensitive", 0x420120),
    Entry("Short Unique Identifier", 0x420136),
    Entry("State", 0x42008D),
    Entry("Unique Identifier", 0x420094),
    Entry("Usage Limits", 0x420095),
    Entry("X.509 Certificate Identifier", 0x4200B5),
    Entry("X.509 Certificate Issuer", 0x4200B6),
    Entry("X.509 Certificate Subject", 0x4200B7)]

  const ATTRIBUTE_NAME_TAG_TABLE: seq<Entry> :=
    TABLE_1 + TABLE_2 + TABLE_3 + TABLE_4 + TABLE_5 + TABLE_6 + TABLE_7

  // ---- places

  /** The length, the first, the last and the third last character of a name. They
      tell the names of the table apart. */
  function Print(name: string): int
    requires |name| >= 3
  {
    (((name[0] as int) * 128 + name[|name| - 1] as int) * 128 + name[|name| - 3] as int) * 64 + |name|
  }

  /** The place in the table of the name with this print. */
  function PlaceOfPrint(p: int): nat {
    if p < 70884500 then
      (match p
       case 68991052 => 4 case 68991055 => 0 case 68991056 => 1
       case 68991568 => 2 case 68992329 => 5 case 69065312 => 3
       case 70805525 => 10 case 70805526 => 24 case 70810772 => 8
       case 70810901 => 22 case 70817110 => 19 case _ => 33)
    else if p < 71089432 then
      (match p
       case 70884500 => 13 case 70884629 => 27 case 70895637 => 9
       case 70895638 => 23 case 70909076 => 14 case 70909205 => 28
       case 70944789 => 17 case 70944790 => 31 case 70952981 => 15
       case 70952982 => 29 case 71088207 => 36 case _ => 37)
    else if p < 71194785 then
      (match p
       case 71089432 => 18 case 71089433 => 32 case 71089488 => 44
       case 71089744 => 34 case 71113170 => 20 case 71113172 => 41
       case 71137368 => 43 case 71145560 => 12 case 71145561 => 26
       case 71154967 => 39 case 71162451 => 38 case _ => 16)
    else if p < 72211019 then
      (match p
       case 71194785 => 30 case 71195222 => 6 case 71195231 => 11
       case 71195232 => 25 case 71195986 => 7 case 71203160 => 42
       case 71203167 => 40 case 71211335 => 35 case 71211347 => 21
       case 72136780 => 47 case 72136785 => 45 case _ => 49)
    else if p < 82622609 then
      (match p
       case 72211019 => 46 case 72259910 => 48 case 73185419 => 50
       case 74258757 => 51 case 77379660 => 52 case 79478351 => 53
       case 79551058 => 54 case 79599953 => 55 case 80525392 => 56
       case 80525898 => 57 case 80575044 => 58 case _ => 59)
    else if p < 84778384 then
      (match p
       case 82622609 => 60 case 82624077 => 61 case 83671125 => 65
       case 83671126 => 66 case 83672651 => 63 case 83672656 => 64
       case 83762124 => 62 case 84712017 => 71 case 84719697 => 69
       case 84719698 => 68 case 84719701 => 67 case _ => 72)
    else
      (match p
       case 84778384 => 70 case 85768268 => 73 case 86891729 => 75
       case 86924567 => 74 case 87865413 => 78 case 87865929 => 76
       case 87972439 => 77 case 90069585 => 79 case 90077772 => 80
       case 93215324 => 81 case 93216088 => 82 case _ => 83)
  }

  /** The place in the table of this tag. */
  function PlaceOfTag(tag: Tag): nat {
    if tag < 0x420029 then
      (match tag
       case 0x420001 => 0 case 0x420004 => 3 case 0x420005 => 4
       case 0x420008 => 5 case 0x420014 => 6 case 0x420015 => 7
       case 0x42001A => 21 case 0x42001D => 34 case 0x420020 => 36
       case 0x420021 => 37 case 0x420022 => 38 case _ => 39)
    else if tag < 0x42004A then
      (match tag
       case 0x420029 => 40 case 0x42002A => 41 case 0x42002B => 42
       case 0x42002C => 43 case 0x42002D => 44 case 0x42002F => 45
       case 0x420033 => 47 case 0x420034 => 48 case 0x420039 => 52
       case 0x420042 => 53 case 0x420048 => 56 case _ => 57)
    else if tag < 0x4200A8 then
      (match tag
       case 0x42004A => 58 case 0x420053 => 59 case 0x420056 => 62
       case 0x420057 => 63 case 0x420059 => 64 case 0x42005D => 65
       case 0x420067 => 68 case 0x420068 => 69 case 0x420081 => 75
       case 0x42008D => 78 case 0x420094 => 79 case _ => 80)
    else if tag < 0x4200FC then
      (match tag
       case 0x4200A8 => 51 case 0x4200AD => 20 case 0x4200AE => 49
       case 0x4200B5 => 81 case 0x4200B6 => 82 case 0x4200B7 => 83
       case 0x4200B8 => 54 case 0x4200BB => 55 case 0x4200BC => 66
       case 0x4200BF => 1 case 0x4200DE => 74 case _ => 67)
    else if tag < 0x420112 then
      (match tag
       case 0x4200FC => 46 case 0x4200FD => 35 case 0x420108 => 23
       case 0x420109 => 28 case 0x42010A => 29 case 0x42010B => 26
       case 0x42010C => 22 case 0x42010D => 31 case 0x42010E => 27
       case 0x42010F => 33 case 0x420110 => 30 case _ => 32)
    else if tag < 0x42011E then
      (match tag
       case 0x420112 => 24 case 0x420113 => 25 case 0x420114 => 9
       case 0x420115 => 14 case 0x420116 => 15 case 0x420117 => 12
       case 0x420118 => 8 case 0x420119 => 17 case 0x42011A => 13
       case 0x42011B => 19 case 0x42011C => 16 case _ => 18)
    else
      (match tag
       case 0x42011E => 10 case 0x42011F => 11 case 0x420120 => 76
       case 0x420121 => 2 case 0x420122 => 50 case 0x420123 => 60
       case 0x420136 => 77 case 0x42013A => 61 case 0x420145 => 70
       case 0x420146 => 71 case 0x420147 => 73 case _ => 72)
  }

  /** enums.is_attribute(tag): the attributes of version 2.0, and the five that 2.0
      has removed. */
  predicate IsAttribute(tag: Tag) {
    IsAttribute20(tag) || tag in {0x420014, 0x420015, 0x42001A, 0x42002D, 0x42005D}
  }

  predicate Placed(e: Entry, place: nat) {
    |e.name| >= 3 && PlaceOfPrint(Print(e.name)) == place && PlaceOfTag(e.tag) == place
  }

  lemma Numbers1()
    ensures PlaceOfPrint(68991055) == PlaceOfTag(0x420001) == 0
    ensures PlaceOfPrint(68991056) == PlaceOfTag(0x4200BF) == 1
    ensures PlaceOfPrint(68991568) == PlaceOfTag(0x420121) == 2
    ensures PlaceOfPrint(69065312) == PlaceOfTag(0x420004) == 3
    ensures PlaceOfPrint(68991052) == PlaceOfTag(0x420005) == 4
    ensures PlaceOfPrint(68992329) == PlaceOfTag(0x420008) == 5
    ensures PlaceOfPrint(71195222) == PlaceOfTag(0x420014) == 6
    ensures PlaceOfPrint(71195986) == PlaceOfTag(0x420015) == 7
    ensures PlaceOfPrint(70810772) == PlaceOfTag(0x420118) == 8
    ensures PlaceOfPrint(70895637) == PlaceOfTag(0x420114) == 9
    ensures PlaceOfPrint(70805525) == PlaceOfTag(0x42011E) == 10
    ensures PlaceOfPrint(71195231) == PlaceOfTag(0x42011F) == 11
  {
  }

  lemma Attributes1()
    ensures IsAttribute(0x420001) && IsAttribute(0x4200BF) && IsAttribute(0x420121) && IsAttribute(0x420004)
    ensures IsAttribute(0x420005) && IsAttribute(0x420008) && IsAttribute(0x420014) && IsAttribute(0x420015)
    ensures IsAttribute(0x420118) && IsAttribute(0x420114) && IsAttribute(0x42011E) && IsAttribute(0x42011F)
  {
  }

  lemma Places1()
    ensures |TABLE_1| == 12 && forall i :: 0 <= i < 12 ==> Placed(TABLE_1[i], 0 + i)
    ensures forall i :: 0 <= i < 12 ==> IsAttribute(TABLE_1[i].tag)
  {
    hide PlaceOfPrint, PlaceOfTag, IsAttribute;
    Numbers1();
    Attributes1();
    assert Print(TABLE_1[0].name) == 68991055;
    assert Print(TABLE_1[1].name) == 68991056;
    assert Print(TABLE_1[2].name) == 68991568;
    assert Print(TABLE_1[3].name) == 69065312;
    assert Print(TABLE_1[4].name) == 68991052;
    assert Print(TABLE_1[5].name) == 68992329;
    assert Print(TABLE_1[6].name) == 71195222;
    assert Print(TABLE_1[7].name) == 71195986;
    assert Print(TABLE_1[8].name) == 70810772;
    assert Print(TABLE_1[9].name) == 70895637;
    assert Print(TABLE_1[10].name) == 70805525;
    assert Print(TABLE_1[11].name) == 71195231;
  }

  lemma Numbers2()
    ensures PlaceOfPrint(71145560) == PlaceOfTag(0x420117) == 12
    ensures PlaceOfPrint(70884500) == PlaceOfTag(0x42011A) == 13
    ensures PlaceOfPrint(70909076) == PlaceOfTag(0x420115) == 14
    ensures PlaceOfPrint(70952981) == PlaceOfTag(0x420116) == 15
    ensures PlaceOfPrint(71194784) == PlaceOfTag(0x42011C) == 16
    ensures PlaceOfPrint(70944789) == PlaceOfTag(0x420119) == 17
    ensures PlaceOfPrint(71089432) == PlaceOfTag(0x42011D) == 18
    ensures PlaceOfPrint(70817110) == PlaceOfTag(0x42011B) == 19
    ensures PlaceOfPrint(71113170) == PlaceOfTag(0x4200AD) == 20
    ensures PlaceOfPrint(71211347) == PlaceOfTag(0x42001A) == 21
    ensures PlaceOfPrint(70810901) == PlaceOfTag(0x42010C) == 22
    ensures PlaceOfPrint(70895638) == PlaceOfTag(0x420108) == 23
  {
  }

  lemma Attributes2()
    ensures IsAttribute(0x420117) && IsAttribute(0x42011A) && IsAttribute(0x420115) && IsAttribute(0x420116)
    ensures IsAttribute(0x42011C) && IsAttribute(0x420119) && IsAttribute(0x42011D) && IsAttribute(0x42011B)
    ensures IsAttribute(0x4200AD) && IsAttribute(0x42001A) && IsAttribute(0x42010C) && IsAttribute(0x420108)
  {
  }

  lemma Places2()
    ensures |TABLE_2| == 12 && forall i :: 0 <= i < 12 ==> Placed(TABLE_2[i], 12 + i)
    ensures forall i :: 0 <= i < 12 ==> IsAttribute(TABLE_2[i].tag)
  {
    hide PlaceOfPrint, PlaceOfTag, IsAttribute;
    Numbers2();
    Attributes2();
    assert Print(TABLE_2[0].name) == 71145560;
    assert Print(TABLE_2[1].name) == 70884500;
    assert Print(TABLE_2[2].name) == 70909076;
    assert Print(TABLE_2[3].name) == 70952981;
    assert Print(TABLE_2[4].name) == 71194784;
    assert Print(TABLE_2[5].name) == 70944789;
    assert Print(TABLE_2[6].name) == 71089432;
    assert Print(TABLE_2[7].name) == 70817110;
    assert Print(TABLE_2[8].name) == 71113170;
    assert Print(TABLE_2[9].name) == 71211347;
    assert Print(TABLE_2[10].name) == 70810901;
    assert Print(TABLE_2[11].name) == 70895638;
  }

  lemma Numbers3()
    ensures PlaceOfPrint(70805526) == PlaceOfTag(0x420112) == 24
    ensures PlaceOfPrint(71195232) == PlaceOfTag(0x420113) == 25
    ensures PlaceOfPrint(71145561) == PlaceOfTag(0x42010B) == 26
    ensures PlaceOfPrint(70884629) == PlaceOfTag(0x42010E) == 27
    ensures PlaceOfPrint(70909205) == PlaceOfTag(0x420109) == 28
    ensures PlaceOfPrint(70952982) == PlaceOfTag(0x42010A) == 29
    ensures PlaceOfPrint(71194785) == PlaceOfTag(0x420110) == 30
    ensures PlaceOfPrint(70944790) == PlaceOfTag(0x42010D) == 31
    ensures PlaceOfPrint(71089433) == PlaceOfTag(0x420111) == 32
    ensures PlaceOfPrint(70817111) == PlaceOfTag(0x42010F) == 33
    ensures PlaceOfPrint(71089744) == PlaceOfTag(0x42001D) == 34
    ensures PlaceOfPrint(71211335) == PlaceOfTag(0x4200FD) == 35
  {
  }

  lemma Attributes3()
    ensures IsAttribute(0x420112) && IsAttribute(0x420113) && IsAttribute(0x42010B) && IsAttribute(0x42010E)
    ensures IsAttribute(0x420109) && IsAttribute(0x42010A) && IsAttribute(0x420110) && IsAttribute(0x42010D)
    ensures IsAttribute(0x420111) && IsAttribute(0x42010F) && IsAttribute(0x42001D) && IsAttribute(0x4200FD)
  {
  }

  lemma Places3()
    ensures |TABLE_3| == 12 && forall i :: 0 <= i < 12 ==> Placed(TABLE_3[i], 24 + i)
    ensures forall i :: 0 <= i < 12 ==> IsAttribute(TABLE_3[i].tag)
  {
    hide PlaceOfPrint, PlaceOfTag, IsAttribute;
    Numbers3();
    Attributes3();
    assert Print(TABLE_3[0].name) == 70805526;
    assert Print(TABLE_3[1].name) == 71195232;
    assert Print(TABLE_3[2].name) == 71145561;
    assert Print(TABLE_3[3].name) == 70884629;
    assert Print(TABLE_3[4].name) == 70909205;
    assert Print(TABLE_3[5].name) == 70952982;
    assert Print(TABLE_3[6].name) == 71194785;
    assert Print(TABLE_3[7].name) == 70944790;
    assert Print(TABLE_3[8].name) == 71089433;
    assert Print(TABLE_3[9].name) == 70817111;
    assert Print(TABLE_3[10].name) == 71089744;
    assert Print(TABLE_3[11].name) == 71211335;
  }

  lemma Numbers4()
    ensures PlaceOfPrint(71088207) == PlaceOfTag(0x420020) == 36
    ensures PlaceOfPrint(71088218) == PlaceOfTag(0x420021) == 37
    ensures PlaceOfPrint(71162451) == PlaceOfTag(0x420022) == 38
    ensures PlaceOfPrint(71154967) == PlaceOfTag(0x420028) == 39
    ensures PlaceOfPrint(71203167) == PlaceOfTag(0x420029) == 40
    ensures PlaceOfPrint(71113172) == PlaceOfTag(0x42002A) == 41
    ensures PlaceOfPrint(71203160) == PlaceOfTag(0x42002B) == 42
    ensures PlaceOfPrint(71137368) == PlaceOfTag(0x42002C) == 43
    ensures PlaceOfPrint(71089488) == PlaceOfTag(0x42002D) == 44
    ensures PlaceOfPrint(72136785) == PlaceOfTag(0x42002F) == 45
    ensures PlaceOfPrint(72211019) == PlaceOfTag(0x4200FC) == 46
    ensures PlaceOfPrint(72136780) == PlaceOfTag(0x420033) == 47
  {
  }

  lemma Attributes4()
    ensures IsAttribute(0x420020) && IsAttribute(0x420021) && IsAttribute(0x420022) && IsAttribute(0x420028)
    ensures IsAttribute(0x420029) && IsAttribute(0x42002A) && IsAttribute(0x42002B) && IsAttribute(0x42002C)
    ensures IsAttribute(0x42002D) && IsAttribute(0x42002F) && IsAttribute(0x4200FC) && IsAttribute(0x420033)
  {
  }

  lemma Places4()
    ensures |TABLE_4| == 12 && forall i :: 0 <= i < 12 ==> Placed(TABLE_4[i], 36 + i)
    ensures forall i :: 0 <= i < 12 ==> IsAttribute(TABLE_4[i].tag)
  {
    hide PlaceOfPrint, PlaceOfTag, IsAttribute;
    Numbers4();
    Attributes4();
    assert Print(TABLE_4[0].name) == 71088207;
    assert Print(TABLE_4[1].name) == 71088218;
    assert Print(TABLE_4[2].name) == 71162451;
    assert Print(TABLE_4[3].name) == 71154967;
    assert Print(TABLE_4[4].name) == 71203167;
    assert Print(TABLE_4[5].name) == 71113172;
    assert Print(TABLE_4[6].name) == 71203160;
    assert Print(TABLE_4[7].name) == 71137368;
    assert Print(TABLE_4[8].name) == 71089488;
    assert Print(TABLE_4[9].name) == 72136785;
    assert Print(TABLE_4[10].name) == 72211019;
    assert Print(TABLE_4[11].name) == 72136780;
  }

  lemma Numbers5()
    ensures PlaceOfPrint(72259910) == PlaceOfTag(0x420034) == 48
    ensures PlaceOfPrint(72203547) == PlaceOfTag(0x4200AE) == 49
    ensures PlaceOfPrint(73185419) == PlaceOfTag(0x420122) == 50
    ensures PlaceOfPrint(74258757) == PlaceOfTag(0x4200A8) == 51
    ensures PlaceOfPrint(77379660) == PlaceOfTag(0x420039) == 52
    ensures PlaceOfPrint(79478351) == PlaceOfTag(0x420042) == 53
    ensures PlaceOfPrint(79551058) == PlaceOfTag(0x4200B8) == 54
    ensures PlaceOfPrint(79599953) == PlaceOfTag(0x4200BB) == 55
    ensures PlaceOfPrint(80525392) == PlaceOfTag(0x420048) == 56
    ensures PlaceOfPrint(80525898) == PlaceOfTag(0x420049) == 57
    ensures PlaceOfPrint(80575044) == PlaceOfTag(0x42004A) == 58
    ensures PlaceOfPrint(82622532) == PlaceOfTag(0x420053) == 59
  {
  }

  lemma Attributes5()
    ensures IsAttribute(0x420034) && IsAttribute(0x4200AE) && IsAttribute(0x420122) && IsAttribute(0x4200A8)
    ensures IsAttribute(0x420039) && IsAttribute(0x420042) && IsAttribute(0x4200B8) && IsAttribute(0x4200BB)
    ensures IsAttribute(0x420048) && IsAttribute(0x420049) && IsAttribute(0x42004A) && IsAttribute(0x420053)
  {
  }

  lemma Places5()
    ensures |TABLE_5| == 12 && forall i :: 0 <= i < 12 ==> Placed(TABLE_5[i], 48 + i)
    ensures forall i :: 0 <= i < 12 ==> IsAttribute(TABLE_5[i].tag)
  {
    hide PlaceOfPrint, PlaceOfTag, IsAttribute;
    Numbers5();
    Attributes5();
    assert Print(TABLE_5[0].name) == 72259910;
    assert Print(TABLE_5[1].name) == 72203547;
    assert Print(TABLE_5[2].name) == 73185419;
    assert Print(TABLE_5[3].name) == 74258757;
    assert Print(TABLE_5[4].name) == 77379660;
    assert Print(TABLE_5[5].name) == 79478351;
    assert Print(TABLE_5[6].name) == 79551058;
    assert Print(TABLE_5[7].name) == 79599953;
    assert Print(TABLE_5[8].name) == 80525392;
    assert Print(TABLE_5[9].name) == 80525898;
    assert Print(TABLE_5[10].name) == 80575044;
    assert Print(TABLE_5[11].name) == 82622532;
  }

  lemma Numbers6()
    ensures PlaceOfPrint(82622609) == PlaceOfTag(0x420123) == 60
    ensures PlaceOfPrint(82624077) == PlaceOfTag(0x42013A) == 61
    ensures PlaceOfPrint(83762124) == PlaceOfTag(0x420056) == 62
    ensures PlaceOfPrint(83672651) == PlaceOfTag(0x420057) == 63
    ensures PlaceOfPrint(83672656) == PlaceOfTag(0x420059) == 64
    ensures PlaceOfPrint(83671125) == PlaceOfTag(0x42005D) == 65
    ensures PlaceOfPrint(83671126) == PlaceOfTag(0x4200BC) == 66
    ensures PlaceOfPrint(84719701) == PlaceOfTag(0x4200FB) == 67
    ensures PlaceOfPrint(84719698) == PlaceOfTag(0x420067) == 68
    ensures PlaceOfPrint(84719697) == PlaceOfTag(0x420068) == 69
    ensures PlaceOfPrint(84778384) == PlaceOfTag(0x420145) == 70
    ensures PlaceOfPrint(84712017) == PlaceOfTag(0x420146) == 71
  {
  }

  lemma Attributes6()
    ensures IsAttribute(0x420123) && IsAttribute(0x42013A) && IsAttribute(0x420056) && IsAttribute(0x420057)
    ensures IsAttribute(0x420059) && IsAttribute(0x42005D) && IsAttribute(0x4200BC) && IsAttribute(0x4200FB)
    ensures IsAttribute(0x420067) && IsAttribute(0x420068) && IsAttribute(0x420145) && IsAttribute(0x420146)
  {
  }

  lemma Places6()
    ensures |TABLE_6| == 12 && forall i :: 0 <= i < 12 ==> Placed(TABLE_6[i], 60 + i)
    ensures forall i :: 0 <= i < 12 ==> IsAttribute(TABLE_6[i].tag)
  {
    hide PlaceOfPrint, PlaceOfTag, IsAttribute;
    Numbers6();
    Attributes6();
    assert Print(TABLE_6[0].name) == 82622609;
    assert Print(TABLE_6[1].name) == 82624077;
    assert Print(TABLE_6[2].name) == 83762124;
    assert Print(TABLE_6[3].name) == 83672651;
    assert Print(TABLE_6[4].name) == 83672656;
    assert Print(TABLE_6[5].name) == 83671125;
    assert Print(TABLE_6[6].name) == 83671126;
    assert Print(TABLE_6[7].name) == 84719701;
    assert Print(TABLE_6[8].name) == 84719698;
    assert Print(TABLE_6[9].name) == 84719697;
    assert Print(TABLE_6[10].name) == 84778384;
    assert Print(TABLE_6[11].name) == 84712017;
  }

  lemma Numbers7()
    ensures PlaceOfPrint(84768855) == PlaceOfTag(0x42015E) == 72
    ensures PlaceOfPrint(85768268) == PlaceOfTag(0x420147) == 73
    ensures PlaceOfPrint(86924567) == PlaceOfTag(0x4200DE) == 74
    ensures PlaceOfPrint(86891729) == PlaceOfTag(0x420081) == 75
    ensures PlaceOfPrint(87865929) == PlaceOfTag(0x420120) == 76
    ensures PlaceOfPrint(87972439) == PlaceOfTag(0x420136) == 77
    ensures PlaceOfPrint(87865413) == PlaceOfTag(0x42008D) == 78
    ensures PlaceOfPrint(90069585) == PlaceOfTag(0x420094) == 79
    ensures PlaceOfPrint(90077772) == PlaceOfTag(0x420095) == 80
    ensures PlaceOfPrint(93215324) == PlaceOfTag(0x4200B5) == 81
    ensures PlaceOfPrint(93216088) == PlaceOfTag(0x4200B6) == 82
    ensures PlaceOfPrint(93231449) == PlaceOfTag(0x4200B7) == 83
  {
  }

  lemma Attributes7()
    ensures IsAttribute(0x42015E) && IsAttribute(0x420147) && IsAttribute(0x4200DE) && IsAttribute(0x420081)
    ensures IsAttribute(0x420120) && IsAttribute(0x420136) && IsAttribute(0x42008D) && IsAttribute(0x420094)
    ensures IsAttribute(0x420095) && IsAttribute(0x4200B5) && IsAttribute(0x4200B6) && IsAttribute(0x4200B7)
  {
  }

  lemma Places7()
    ensures |TABLE_7| == 12 && forall i :: 0 <= i < 12 ==> Placed(TABLE_7[i], 72 + i)
    ensures forall i :: 0 <= i < 12 ==> IsAttribute(TABLE_7[i].tag)
  {
    hide PlaceOfPrint, PlaceOfTag, IsAttribute;
    Numbers7();
    Attributes7();
    assert Print(TABLE_7[0].name) == 84768855;
    assert Print(TABLE_7[1].name) == 85768268;
    assert Print(TABLE_7[2].name) == 86924567;
    assert Print(TABLE_7[3].name) == 86891729;
    assert Print(TABLE_7[4].name) == 87865929;
    assert Print(TABLE_7[5].name) == 87972439;
    assert Print(TABLE_7[6].name) == 87865413;
    assert Print(TABLE_7[7].name) == 90069585;
    assert Print(TABLE_7[8].name) == 90077772;
    assert Print(TABLE_7[9].name) == 93215324;
    assert Print(TABLE_7[10].name) == 93216088;
    assert Print(TABLE_7[11].name) == 93231449;
  }

  lemma Places()
    ensures |ATTRIBUTE_NAME_TAG_TABLE| == 84
    ensures forall i :: 0 <= i < 84 ==> Placed(ATTRIBUTE_NAME_TAG_TABLE[i], i)
    ensures forall i :: 0 <= i < 84 ==> IsAttribute(ATTRIBUTE_NAME_TAG_TABLE[i].tag)
  {
    hide Placed, IsAttribute, TABLE_1, TABLE_2, TABLE_3, TABLE_4, TABLE_5, TABLE_6, TABLE_7;
    Places1();
    Places2();
    Places3();
    Places4();
    Places5();
    Places6();
    Places7();
  }

  /** The table is one-to-one, and the constructor of Attributes accepts all its tags. */
  lemma TableOneToOne()
    ensures |ATTRIBUTE_NAME_TAG_TABLE| == 84 && OneToOne(ATTRIBUTE_NAME_TAG_TABLE)
    ensures forall e :: e in ATTRIBUTE_NAME_TAG_TABLE ==> IsAttribute(e.tag)
  {
    Places();
    NotAnAttribute();
    hide ATTRIBUTE_NAME_TAG_TABLE, PlaceOfPrint, PlaceOfTag, Print, IsAttribute;
  }

  /** So the lookups in it are inverse to each other. */
  lemma TableLookupsInverse(name: string, tag: Tag)
    ensures TagOf(ATTRIBUTE_NAME_TAG_TABLE, name) == Some(tag) <==> NameOf(ATTRIBUTE_NAME_TAG_TABLE, tag) == Some(name)
    ensures NameOf(ATTRIBUTE_NAME_TAG_TABLE, ATTRIBUTE_VALUE) == None
  {
    hide ATTRIBUTE_NAME_TAG_TABLE, OneToOne;
    TableOneToOne();
    LookupsInverse(ATTRIBUTE_NAME_TAG_TABLE, name, tag);
  }

  lemma NotAnAttribute()
    ensures !IsAttribute(ATTRIBUTE_VALUE)
  {
  }
}
