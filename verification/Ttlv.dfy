/** The TTLV wire format: what each field type writes and reads.

    A Kind says how the value of one field is laid out, a Value is the state of
    one decoded or freshly built field, Encode is what a write appends and Decode
    what a read consumes. Structures are lists of fields, read in order, each
    field deciding by its tag whether it is next. */
module Ttlv {
  import opened Wrappers
  import opened Bytes
  import opened BitStrings
  import opened Enums

  datatype Kind =
    | IntegerK
    | LongIntegerK
    | BigIntegerK
    | EnumerationK(cls: EnumClass)
    | BooleanK
    | TextStringK
    | ByteStringK
    | DateTimeK
    | IntervalK
    | StructK(fields: seq<Field>)
    | AttributeK(kinds: map<string, Kind>)  // name, index, value; the kind of the value depends on the name

  datatype Field = Field(tag: Tag, kind: Kind, mode: Mode)

  datatype Mode =
    | Required                   // read without looking ahead
    | Mandatory(missing: Error)  // read if its tag is next, otherwise this error
    | Optional                   // read if its tag is next
    | Repeated                   // read while its tag is next

  /** The state of one field. A Boolean remembers the length field it was read with,
      which it writes again. A text remembers whether it is stale: its
      padding_length is 8 although its length is a multiple of 8, as
      TextString.read_value leaves it. */
  datatype Value =
    | Num(n: int)
    | Flag(b: bool, length: nat)
    | Text(chars: string, stale: bool)
    | Octets(bytes: seq<byte>)
    | Struct(slots: seq<Slot>)

  datatype Slot = Absent | One(v: Value) | Many(vs: seq<Value>)

  // ---- well-formed layouts

  ghost predicate WellFormed(kind: Kind)
    decreases kind
  {
    match kind
    case StructK(fs) =>
      && (forall i :: 0 <= i < |fs| ==> IsTag(fs[i].tag) && WellFormed(fs[i].kind))
      && DistinctTags(fs)
    case AttributeK(kinds) => forall name :: name in kinds ==> WellFormed(kinds[name])
    case _ => true
  }

  ghost predicate DistinctTags(fs: seq<Field>) {
    forall i, j :: 0 <= i < j < |fs| ==> fs[i].tag != fs[j].tag
  }

  // ---- the name-directed choice of a value type (objects.py, Attribute.read)

  function Upper(c: char): char {
    if 'a' <= c <= 'z' then (c as int - 32) as char else c
  }

  /** name.replace('.', '_').replace(' ', '_').upper() */
  function EnumName(name: string): (r: string)
    ensures |r| == |name|
  {
    seq(|name|, i requires 0 <= i < |name| =>
      if name[i] == '.' || name[i] == ' ' then '_' else Upper(name[i]))
  }

  /** The layout of the value of the attribute with this name, if there is one:
      the one registered for its enumeration name, else text for custom names. */
  function KindFor(kinds: map<string, Kind>, name: string): Option<Kind> {
    if EnumName(name) in kinds then Some(kinds[EnumName(name)])
    else if "x-" <= name then Some(TextStringK)
    else None
  }

  // ---- writing

  function TypeCode(kind: Kind): (code: byte)
    ensures 1 <= code <= 10
  {
    match kind
    case StructK(_) => 1
    case AttributeK(_) => 1
    case IntegerK => 2
    case LongIntegerK => 3
    case BigIntegerK => 4
    case EnumerationK(_) => 5
    case BooleanK => 6
    case TextStringK => 7
    case ByteStringK => 8
    case DateTimeK => 9
    case IntervalK => 10
  }

  predicate IsAscii(s: string) {
    forall i :: 0 <= i < |s| ==> s[i] as int < 128
  }

  function AsciiBytes(s: string): (r: seq<byte>)
    ensures |r| == |s|
  {
    seq(|s|, i requires 0 <= i < |s| => if s[i] as int < 128 then s[i] as int else 0)
  }

  /** The zero bytes a fresh TextString or ByteString of this length adds. */
  function FreshPadding(length: nat): (n: nat)
    ensures n < 8 && (length + n) % 8 == 0
  {
    if length % 8 == 0 then 0 else 8 - length % 8
  }

  function Header(tag: Tag, typ: byte, length: nat): (s: seq<byte>)
    ensures |s| == 8
  {
    PackU(3, tag) + [typ] + PackU(4, length)
  }

  function Padding(kind: Kind, v: Value): nat {
    match (kind, v)
    case (IntegerK, _) => 4
    case (EnumerationK(_), _) => 4
    case (IntervalK, _) => 4
    case (TextStringK, Text(s, stale)) => if stale then 8 else FreshPadding(|s|)
    case (ByteStringK, Octets(bs)) => FreshPadding(|bs|)
    case _ => 0
  }

  function Encode(tag: Tag, kind: Kind, v: Value): (s: seq<byte>)
    ensures |s| >= 8
    decreases v, 2
  {
    Header(tag, TypeCode(kind), LengthField(kind, v)) + Body(kind, v) + Zeros(Padding(kind, v))
  }

  /** The length that is written: the size of the body, except that a Boolean
      writes the length it holds in front of its eight bytes. */
  function LengthField(kind: Kind, v: Value): nat
    decreases v, 1
  {
    if kind.BooleanK? && v.Flag? then v.length else |Body(kind, v)|
  }

  /** The bytes behind the header, without padding. */
  function Body(kind: Kind, v: Value): seq<byte>
    decreases v, 0
  {
    match (kind, v)
    case (StructK(fs), Struct(slots)) => EncodeFields(fs, slots)
    case (AttributeK(kinds), Struct(slots)) =>
      if NamedKind(kinds, slots).Some? then EncodeFields(AttributeFields(NamedKind(kinds, slots).value), slots) else []
    case (_, _) => PrimitiveBody(kind, v)
  }

  function PrimitiveBody(kind: Kind, v: Value): seq<byte> {
    match (kind, v)
    case (IntegerK, Num(n)) => if FitsSigned(4, n) then PackS(4, n) else []
    case (LongIntegerK, Num(n)) => if FitsSigned(8, n) then PackS(8, n) else []
    case (DateTimeK, Num(n)) => if FitsSigned(8, n) then PackS(8, n) else []
    case (BigIntegerK, Num(n)) => BigSizeHolds(n); PackS(BigSize(n), n)
    case (EnumerationK(_), Num(n)) => if n >= 0 then PackU(4, n) else []
    case (IntervalK, Num(n)) => if n >= 0 then PackU(4, n) else []
    case (BooleanK, Flag(b, _)) => PackU(8, if b then 1 else 0)
    case (TextStringK, Text(s, _)) => AsciiBytes(s)
    case (ByteStringK, Octets(bs)) => bs
    case (_, _) => []
  }

  function EncodeFields(fs: seq<Field>, slots: seq<Slot>): seq<byte>
    decreases slots
  {
    if fs == [] || slots == [] then []
    else EncodeSlot(fs[0], slots[0]) + EncodeFields(fs[1..], slots[1..])
  }

  function EncodeSlot(f: Field, slot: Slot): seq<byte>
    decreases slot
  {
    match slot
    case Absent => []
    case One(v) => Encode(f.tag, f.kind, v)
    case Many(vs) => EncodeMany(f, vs)
  }

  function EncodeMany(f: Field, vs: seq<Value>): seq<byte>
    decreases vs
  {
    if vs == [] then [] else Encode(f.tag, f.kind, vs[0]) + EncodeMany(f, vs[1..])
  }

  /** The fields of an attribute whose value has this layout. */
  function AttributeFields(kind: Kind): (fs: seq<Field>)
    ensures |fs| == 3
  {
    [Field(ATTRIBUTE_NAME, TextStringK, Required),
     Field(ATTRIBUTE_INDEX, IntegerK, Optional),
     Field(ATTRIBUTE_VALUE, kind, Required)]
  }

  /** The layout that the first field, the name, selects. */
  function NamedKind(kinds: map<string, Kind>, slots: seq<Slot>): Option<Kind> {
    if slots != [] && slots[0].One? && slots[0].v.Text? then KindFor(kinds, slots[0].v.chars) else None
  }

  /** The write of this state succeeds: every value packs, every required field
      is there and every length fits its four bytes. */
  ghost predicate Writable(kind: Kind, v: Value)
    decreases v, 0
  {
    && |Body(kind, v)| < Radix(4)
    && match (kind, v) {
         case (StructK(fs), Struct(slots)) => WritableFields(fs, slots)
         case (AttributeK(kinds), Struct(slots)) =>
           && NamedKind(kinds, slots).Some?
           && WritableFields(AttributeFields(NamedKind(kinds, slots).value), slots)
         case (_, _) => WritablePrimitive(kind, v)
       }
  }

  ghost predicate WritableFields(fs: seq<Field>, slots: seq<Slot>)
    decreases slots, 0
  {
    |fs| == |slots| && forall i :: 0 <= i < |fs| ==> WritableSlot(fs[i], slots[i])
  }

  ghost predicate WritablePrimitive(kind: Kind, v: Value) {
    match (kind, v)
    case (IntegerK, Num(n)) => FitsSigned(4, n)
    case (LongIntegerK, Num(n)) => FitsSigned(8, n)
    case (DateTimeK, Num(n)) => FitsSigned(8, n)
    case (BigIntegerK, Num(n)) => true
    case (EnumerationK(cls), Num(n)) => IsMember(cls, n)
    case (IntervalK, Num(n)) => 0 <= n < Radix(4)
    case (BooleanK, Flag(_, length)) => length < Radix(4)
    case (TextStringK, Text(s, stale)) => IsAscii(s) && (stale ==> |s| % 8 == 0)
    case (ByteStringK, Octets(bs)) => true
    case (_, _) => false
  }

  ghost predicate WritableSlot(f: Field, slot: Slot)
    decreases slot, 0
  {
    match slot
    case Absent => f.mode.Optional?
    case One(v) => !f.mode.Repeated? && Writable(f.kind, v)
    case Many(vs) => f.mode.Repeated? && forall i :: 0 <= i < |vs| ==> Writable(f.kind, vs[i])
  }

  // ---- reading

  /** Base.is_tag_next */
  predicate IsTagNext(tag: Tag, s: seq<byte>) {
    |s| >= 3 && UnpackU(s[..3]) == tag
  }

  /** Base.read: the tag, the type and the length. */
  function DecodeHeader(tag: Tag, typ: byte, s: seq<byte>): (r: Result<(nat, seq<byte>)>)
    ensures r.Ok? ==> |r.value.1| + 8 == |s| && r.value.0 < Radix(4)
  {
    if |s| < 3 then Err(StructError)
    else if !IsTag(UnpackU(s[..3])) then Err(ValueError)
    else if UnpackU(s[..3]) != tag then Err(ReadValueError)
    else if |s| < 4 then Err(ReadValueError)
    else if s[3] > 10 then Err(ValueError)
    else if s[3] != typ then Err(ReadValueError)
    else if |s| < 8 then Err(ReadValueError)
    else
      UnpackUBound(s[4..8]);
      Ok((UnpackU(s[4..8]), s[8..]))
  }

  /** n ASCII characters, read one by one. */
  function ReadAscii(n: nat, s: seq<byte>): (r: Result<(string, seq<byte>)>)
    ensures r.Ok? ==> |r.value.0| == n && |r.value.1| + n == |s|
  {
    if n == 0 then Ok(("", s))
    else if s == [] then Err(StructError)
    else if s[0] >= 128 then Err(UnicodeError)
    else
      var (text, rest) :- ReadAscii(n - 1, s[1..]);
      Ok(([s[0] as char] + text, rest))
  }

  /** n zero bytes, read one by one. */
  function ReadZeros(n: nat, s: seq<byte>): (r: Result<seq<byte>>)
    ensures r.Ok? ==> |r.value| + n == |s|
  {
    if n == 0 then Ok(s)
    else if s == [] then Err(StructError)
    else if s[0] != 0 then Err(ReadValueError)
    else ReadZeros(n - 1, s[1..])
  }

  function DecodePrimitive(kind: Kind, length: nat, s: seq<byte>): (r: Result<(Value, seq<byte>)>)
    ensures r.Ok? ==> |r.value.1| <= |s|
  {
    match kind
    case IntegerK =>
      if length != 4 then Err(ReadValueError)
      else if |s| < 8 then Err(StructError)
      else if UnpackU(s[4..8]) != 0 then Err(ReadValueError)
      else Ok((Num(UnpackS(s[..4])), s[8..]))
    case LongIntegerK =>
      if length != 8 then Err(InvalidPrimitiveLength)
      else if |s| < 8 then Err(StructError)
      else Ok((Num(UnpackS(s[..8])), s[8..]))
    case DateTimeK =>
      if length != 8 then Err(InvalidPrimitiveLength)
      else if |s| < 8 then Err(StructError)
      else Ok((Num(UnpackS(s[..8])), s[8..]))
    case BigIntegerK =>
      if length % 8 != 0 then Err(InvalidPrimitiveLength)
      else if |s| < length then Err(StructError)
      else if length == 0 then Err(IndexError)
      else Ok((Num(UnpackS(s[..length])), s[length..]))
    case EnumerationK(cls) =>
      if length != 4 then Err(InvalidPrimitiveLength)
      else if |s| < 4 then Err(StructError)
      else if !IsMember(cls, UnpackU(s[..4])) then Err(ValueError)
      else if |s| < 8 then Err(StructError)
      else if UnpackU(s[4..8]) != 0 then Err(InvalidPaddingBytes)
      else Ok((Num(UnpackU(s[..4])), s[8..]))
    case IntervalK =>
      if length != 4 then Err(InvalidPrimitiveLength)
      else if |s| < 8 then Err(StructError)
      else if UnpackU(s[4..8]) != 0 then Err(InvalidPaddingBytes)
      else Ok((Num(UnpackU(s[..4])), s[8..]))
    case BooleanK =>  // the length is kept and not looked at
      if |s| < 8 then Err(StructError)
      else if UnpackU(s[..8]) > 1 then Err(ValueError)
      else Ok((Flag(UnpackU(s[..8]) == 1, length), s[8..]))
    case TextStringK =>
      var (text, rest) :- ReadAscii(length, s);
      var rest :- ReadZeros(FreshPadding(length), rest);
      Ok((Text(text, length % 8 == 0), rest))
    case ByteStringK =>
      if |s| < length then Err(IndexError)
      else
        var rest :- ReadZeros(FreshPadding(length), s[length..]);
        Ok((Octets(s[..length]), rest))
    case _ => Err(TypeError)
  }

  function Decode(tag: Tag, kind: Kind, s: seq<byte>): (r: Result<(Value, seq<byte>)>)
    ensures r.Ok? ==> |r.value.1| + 8 <= |s|
    decreases |s|, 0, 0
  {
    var (length, rest) :- DecodeHeader(tag, TypeCode(kind), s);
    DecodeValue(kind, length, rest)
  }

  /** The bytes a structure of this length takes: a length beyond the end of the
      stream is silently cut down to what is there. */
  function Clamp(length: nat, s: seq<byte>): (n: nat)
    ensures n <= |s| && n <= length
  {
    if length <= |s| then length else |s|
  }

  function DecodeValue(kind: Kind, length: nat, s: seq<byte>): (r: Result<(Value, seq<byte>)>)
    ensures r.Ok? ==> |r.value.1| <= |s|
    decreases |s|, 3, 0
  {
    var n := Clamp(length, s);
    match kind
    case StructK(fs) =>
      var (slots, left) :- DecodeFields(fs, s[..n]);
      if left != [] then Err(StreamNotEmptyError) else Ok((Struct(slots), s[n..]))
    case AttributeK(kinds) =>
      var (slots, left) :- DecodeAttribute(kinds, s[..n]);
      if left != [] then Err(StreamNotEmptyError) else Ok((Struct(slots), s[n..]))
    case _ => DecodePrimitive(kind, length, s)
  }

  function DecodeFields(fs: seq<Field>, s: seq<byte>): (r: Result<(seq<Slot>, seq<byte>)>)
    ensures r.Ok? ==> |r.value.0| == |fs| && |r.value.1| <= |s|
    decreases |s|, 1, |fs|
  {
    if fs == [] then Ok(([], s))
    else
      var (slot, rest) :- DecodeSlot(fs[0], s);
      var (slots, rest) :- DecodeFields(fs[1..], rest);
      Ok(([slot] + slots, rest))
  }

  function DecodeSlot(f: Field, s: seq<byte>): (r: Result<(Slot, seq<byte>)>)
    ensures r.Ok? ==> |r.value.1| <= |s|
    decreases |s|, 1, 0
  {
    if f.mode.Repeated? then
      var (vs, rest) :- DecodeMany(f, s);
      Ok((Many(vs), rest))
    else if f.mode.Required? || IsTagNext(f.tag, s) then
      var (v, rest) :- Decode(f.tag, f.kind, s);
      Ok((One(v), rest))
    else if f.mode.Mandatory? then Err(f.mode.missing)
    else Ok((Absent, s))
  }

  function DecodeMany(f: Field, s: seq<byte>): (r: Result<(seq<Value>, seq<byte>)>)
    ensures r.Ok? ==> |r.value.1| <= |s|
    decreases |s|, 0, 1
  {
    if IsTagNext(f.tag, s) then
      var (v, rest) :- Decode(f.tag, f.kind, s);
      var (vs, rest) :- DecodeMany(f, rest);
      Ok(([v] + vs, rest))
    else Ok(([], s))
  }

  /** The name is read first and decides how the value behind it is read. */
  function DecodeAttribute(kinds: map<string, Kind>, s: seq<byte>): (r: Result<(seq<Slot>, seq<byte>)>)
    ensures r.Ok? ==> |r.value.0| == 3 && |r.value.1| <= |s|
    decreases |s|, 2, 0
  {
    var (name, _) :- Decode(ATTRIBUTE_NAME, TextStringK, s);
    if !name.Text? || KindFor(kinds, name.chars).None? then Err(NoValueType)
    else DecodeFields(AttributeFields(KindFor(kinds, name.chars).value), s)
  }

  // ---- states

  /** The state after a read: a text whose length is a multiple of 8 is stale. */
  function Aged(v: Value): Value
    decreases v
  {
    match v
    case Text(s, _) => Text(s, |s| % 8 == 0)
    case Struct(slots) => Struct(seq(|slots|, i requires 0 <= i < |slots| => AgedSlot(slots[i])))
    case _ => v
  }

  function AgedSlot(slot: Slot): Slot
    decreases slot
  {
    match slot
    case Absent => Absent
    case One(v) => One(Aged(v))
    case Many(vs) => Many(seq(|vs|, i requires 0 <= i < |vs| => Aged(vs[i])))
  }

  /** The same state with no text stale. */
  function Unstale(v: Value): Value
    decreases v
  {
    match v
    case Text(s, _) => Text(s, false)
    case Struct(slots) => Struct(seq(|slots|, i requires 0 <= i < |slots| => UnstaleSlot(slots[i])))
    case _ => v
  }

  function UnstaleSlot(slot: Slot): Slot
    decreases slot
  {
    match slot
    case Absent => Absent
    case One(v) => One(Unstale(v))
    case Many(vs) => Many(seq(|vs|, i requires 0 <= i < |vs| => Unstale(vs[i])))
  }

  /** The state of a newly built object with this value: no text is stale and the
      length of a Boolean is 8. */
  function Fresh(v: Value): Value
    decreases v
  {
    match v
    case Flag(b, _) => Flag(b, 8)
    case Text(s, _) => Text(s, false)
    case Struct(slots) => Struct(seq(|slots|, i requires 0 <= i < |slots| => FreshSlot(slots[i])))
    case _ => v
  }

  function FreshSlot(slot: Slot): Slot
    decreases slot
  {
    match slot
    case Absent => Absent
    case One(v) => One(Fresh(v))
    case Many(vs) => Many(seq(|vs|, i requires 0 <= i < |vs| => Fresh(vs[i])))
  }

  ghost predicate HasStale(v: Value)
    decreases v
  {
    match v
    case Text(_, stale) => stale
    case Struct(slots) => exists i :: 0 <= i < |slots| && SlotStale(slots[i])
    case _ => false
  }

  ghost predicate SlotStale(slot: Slot)
    decreases slot
  {
    match slot
    case Absent => false
    case One(v) => HasStale(v)
    case Many(vs) => exists i :: 0 <= i < |vs| && HasStale(vs[i])
  }
}
