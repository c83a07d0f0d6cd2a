/** objects.Attributes, the attribute list of KMIP 2.0: values one behind the other,
    each with the tag of its attribute, which chooses how it is read. */
module AttributeLists {
  import opened Wrappers
  import opened Bytes
  import opened Enums
  import opened Streams
  import opened Ttlv
  import opened TtlvRoundTrip
  import opened FieldIO
  import opened Schemas
  import opened AttributesByName = Attributes
  import P = Primitives

  /** One value object: its tag, its class and its state. */
  datatype Item = Item(tag: Tag, kind: Kind, v: Value)

  predicate IsItem(item: Item) {
    Plain(item.kind) && Held(item.kind, item.v)
  }

  /** The factory builds this class for this tag. */
  predicate Supported(item: Item) {
    item.tag in ATTRIBUTE_KINDS_2_0 && ATTRIBUTE_KINDS_2_0[item.tag] == item.kind
  }

  function EncodeItem(item: Item): seq<byte> {
    Encode(item.tag, item.kind, item.v)
  }

  function EncodeItems(items: seq<Item>): seq<byte> {
    if items == [] then [] else EncodeItem(items[0]) + EncodeItems(items[1..])
  }

  ghost predicate WritableItems(items: seq<Item>) {
    forall i :: 0 <= i < |items| ==> IsAttribute20(items[i].tag) && Writable(items[i].kind, items[i].v)
  }

  /** Reading goes on while the next three bytes are a member of Tags. */
  function DecodeItems(s: seq<byte>): (r: Result<(seq<Item>, seq<byte>)>)
    ensures r.Ok? ==> |r.value.1| <= |s|
    decreases |s|
  {
    if |s| < 3 || !IsTag(UnpackU(s[..3])) then Ok(([], s))
    else
      var tag: Tag := UnpackU(s[..3]);
      if !IsAttribute20(tag) then Err(AttributeNotSupported)
      else if tag !in ATTRIBUTE_KINDS_2_0 then Err(NotImplementedError)
      else
        var (v, rest) :- Decode(tag, ATTRIBUTE_KINDS_2_0[tag], s);
        var (items, rest) :- DecodeItems(rest);
        Ok(([Item(tag, ATTRIBUTE_KINDS_2_0[tag], v)] + items, rest))
  }

  function EncodeList(tag: Tag, items: seq<Item>): seq<byte> {
    Header(tag, 1, |EncodeItems(items)|) + EncodeItems(items)
  }

  function DecodeList(tag: Tag, s: seq<byte>): Result<(seq<Item>, seq<byte>)> {
    var (length, s) :- DecodeHeader(tag, 1, s);
    var (items, left) :- DecodeItems(s[..Clamp(length, s)]);
    if left != [] then Err(StreamNotEmptyError) else Ok((items, s[Clamp(length, s)..]))
  }

  // ---- reading back

  function AgedItem(item: Item): Item {
    item.(v := Aged(item.v))
  }

  function AgedItems(items: seq<Item>): seq<Item> {
    seq(|items|, i requires 0 <= i < |items| => AgedItem(items[i]))
  }

  ghost predicate StaleItems(items: seq<Item>) {
    exists i :: 0 <= i < |items| && HasStale(items[i].v)
  }

  ghost predicate SupportedItems(items: seq<Item>) {
    forall i :: 0 <= i < |items| ==> Supported(items[i])
  }

  lemma TagOfItem(item: Item, rest: seq<byte>)
    ensures var s := EncodeItem(item) + rest;
      |s| >= 3 && UnpackU(s[..3]) == item.tag
  {
    TagOfEncoding(item.tag, item.kind, item.v, rest, item.tag);
  }

  lemma StuckItems(s: seq<byte>)
    requires Stuck(s)
    ensures DecodeItems(s) == Ok(([], s)) && s != []
  {
    hide Decode, ATTRIBUTE_KINDS_2_0, IsAttribute20;
  }

  /** The value can be read by its tag. It is of the class that the factory builds
      and holds no stale text, or an enumeration that happens to be a member of the
      other class too, or a structure whose bytes happen to be one of the other class. */
  ghost predicate Readable(item: Item) {
    && item.tag in ATTRIBUTE_KINDS_2_0
    && var kind := ATTRIBUTE_KINDS_2_0[item.tag];
    if item.kind == kind then !HasStale(item.v)
    else if item.kind.EnumerationK? && kind.EnumerationK? && item.v.Num? then IsMember(kind.cls, item.v.n)
    else TypeCode(item.kind) == 1 && kind.StructK? && Decode(item.tag, kind, EncodeItem(item)).Ok?
  }

  /** What it is then read as. */
  ghost function Back(item: Item): Item
    requires Readable(item)
  {
    var kind := ATTRIBUTE_KINDS_2_0[item.tag];
    if item.kind == kind then AgedItem(item)
    else if kind.EnumerationK? then item.(kind := kind)
    else Item(item.tag, kind, Decode(item.tag, kind, EncodeItem(item)).value.0)
  }

  ghost predicate ReadableItems(items: seq<Item>) {
    forall i :: 0 <= i < |items| ==> Readable(items[i])
  }

  ghost function BackItems(items: seq<Item>): seq<Item>
    requires ReadableItems(items)
  {
    seq(|items|, i requires 0 <= i < |items| => Back(items[i]))
  }

  /** A value of another type cannot be read. */
  lemma OtherType(tag: Tag, kind: Kind, v: Value, other: Kind, rest: seq<byte>)
    requires TypeCode(kind) != TypeCode(other)
    ensures Decode(tag, other, Encode(tag, kind, v) + rest).Err?
  {
    hide Body, LengthField, Padding, UnpackU, PackU;
    var s := Encode(tag, kind, v) + rest;
    assert s[3] == TypeCode(kind);
  }

  /** The same number in another enumeration. */
  lemma OtherEnumeration(tag: Tag, cls: EnumClass, other: EnumClass, n: int, rest: seq<byte>)
    requires IsTag(tag) && IsMember(cls, n)
    ensures var d := Decode(tag, EnumerationK(other), Encode(tag, EnumerationK(cls), Num(n)) + rest);
      if IsMember(other, n) then d == Ok((Num(n), rest)) else d.Err?
  {
    hide DecodeHeader, UnpackU, PackU, Header;
    var body := PackU(4, n);
    assert Radix(4) == 0x1_0000_0000 by { assert Radix(2) == 0x10000; }
    assert Encode(tag, EnumerationK(cls), Num(n)) + rest == Header(tag, 5, 4) + (body + Zeros(4) + rest);
    HeaderRoundTrip(tag, 5, 4, body + Zeros(4) + rest);
    PaddedRoundTrip(body, rest);
    PackUnpackU(4, n);
    assert (body + Zeros(4) + rest)[..4] == body;
  }

  /** A structure read as another one is read from its own bytes, whatever follows. */
  lemma OtherStructure(tag: Tag, kind: Kind, v: Value, fs: seq<Field>, rest: seq<byte>)
    requires IsTag(tag) && Writable(kind, v) && TypeCode(kind) == 1
    ensures var alone := Decode(tag, StructK(fs), Encode(tag, kind, v));
      var d := Decode(tag, StructK(fs), Encode(tag, kind, v) + rest);
      if alone.Ok? then d == Ok((alone.value.0, rest)) else d.Err?
  {
    hide DecodeHeader, DecodeFields, Body, Header, Radix;
    var body := Body(kind, v);
    assert |body| < Radix(4) by { BodyFits(kind, v); }
    assert Encode(tag, kind, v) == Header(tag, 1, |body|) + body;
    assert Encode(tag, kind, v) + rest == Header(tag, 1, |body|) + (body + rest);
    HeaderRoundTrip(tag, 1, |body|, body);
    HeaderRoundTrip(tag, 1, |body|, body + rest);
    assert body[..|body|] == (body + rest)[..|body|] == body && (body + rest)[|body|..] == rest;
  }

  lemma BodyFits(kind: Kind, v: Value)
    requires Writable(kind, v)
    ensures |Body(kind, v)| < Radix(4)
  {
  }

  /** One value, in front of anything. */
  lemma AnyItem(item: Item, rest: seq<byte>)
    requires item.tag in ATTRIBUTE_KINDS_2_0 && Writable(item.kind, item.v)
    ensures var kind := ATTRIBUTE_KINDS_2_0[item.tag];
      var d := Decode(item.tag, kind, EncodeItem(item) + rest);
      if Readable(item) then d == Ok((Back(item).v, rest)) else d.Ok? ==> Stuck(d.value.1)
    ensures Readable(item) ==> Back(item) == Item(item.tag, ATTRIBUTE_KINDS_2_0[item.tag], Back(item).v)
  {
    hide Decode, Encode, Writable, ATTRIBUTE_KINDS_2_0, HasStale, WellFormed, Aged;
    var kind := ATTRIBUTE_KINDS_2_0[item.tag];
    Attribute20WellFormed();
    Attribute20Cases();
    if item.kind == kind {
      RoundTrip(item.tag, kind, item.v, rest);
      AfterValue(Decode(item.tag, kind, EncodeItem(item) + rest), item.v, rest);
    } else if TypeCode(item.kind) != TypeCode(kind) {
      OtherType(item.tag, item.kind, item.v, kind, rest);
    } else if kind.EnumerationK? {
      WrittenMember(item.kind, item.v);
      OtherEnumeration(item.tag, item.kind.cls, kind.cls, item.v.n, rest);
    } else {
      OtherStructure(item.tag, item.kind, item.v, kind.fields, rest);
    }
  }

  lemma WrittenMember(kind: Kind, v: Value)
    requires kind.EnumerationK? && Writable(kind, v)
    ensures v.Num? && IsMember(kind.cls, v.n)
  {
  }

  lemma NotBuilt(item: Item)
    requires item.tag !in ATTRIBUTE_KINDS_2_0
    ensures !Readable(item)
  {
  }

  lemma SplitReadable(items: seq<Item>)
    requires items != []
    ensures ReadableItems(items) <==> Readable(items[0]) && ReadableItems(items[1..])
    ensures ReadableItems(items) ==> BackItems(items) == [Back(items[0])] + BackItems(items[1..])
  {
    hide Readable, Back;
    var tail := items[1..];
    assert forall i :: 0 < i < |items| ==> items[i] == tail[i - 1];
  }

  /** The items of a list one behind the other. */
  lemma {:induction false} ItemsRoundTrip(items: seq<Item>)
    requires WritableItems(items)
    ensures var r := DecodeItems(EncodeItems(items));
      if ReadableItems(items) then r == Ok((BackItems(items), [])) else r.Ok? ==> r.value.1 != []
  {
    hide Decode, Encode, Writable, ATTRIBUTE_KINDS_2_0, IsAttribute20, Readable, Back, Stuck;
    if items == [] {
      assert BackItems(items) == [];
    } else {
      var item, tail := items[0], EncodeItems(items[1..]);
      TagOfItem(item, tail);
      AttributeTags(item.tag);
      SplitReadable(items);
      if item.tag !in ATTRIBUTE_KINDS_2_0 {
        NotBuilt(item);
      } else {
        AnyItem(item, tail);
        ItemsRoundTrip(items[1..]);
        var d := Decode(item.tag, ATTRIBUTE_KINDS_2_0[item.tag], EncodeItems(items));
        if d.Ok? && !Readable(item) {
          StuckItems(d.value.1);
        }
      }
    }
  }

  /** A value is of the class that the factory builds for its tag, or of one with
      another type code. */
  predicate Agreeing(items: seq<Item>) {
    forall i :: 0 <= i < |items| && items[i].tag in ATTRIBUTE_KINDS_2_0 ==>
      Supported(items[i]) || TypeCode(items[i].kind) != TypeCode(ATTRIBUTE_KINDS_2_0[items[i].tag])
  }

  lemma AgreeingReadable(items: seq<Item>)
    requires Agreeing(items)
    ensures ReadableItems(items) <==> SupportedItems(items) && !StaleItems(items)
    ensures ReadableItems(items) ==> BackItems(items) == AgedItems(items)
  {
    hide Decode, Encode, ATTRIBUTE_KINDS_2_0, HasStale, Aged;
  }

  /** A value that the write accepts and the factory does not build stops the read. */
  lemma UnsupportedItems(items: seq<Item>)
    requires WritableItems(items) && Agreeing(items) && !SupportedItems(items)
    ensures DecodeItems(EncodeItems(items)).Err? || DecodeItems(EncodeItems(items)).value.1 != []
  {
    hide DecodeItems, EncodeItems, WritableItems, Agreeing, SupportedItems, StaleItems, ReadableItems;
    ItemsRoundTrip(items);
    AgreeingReadable(items);
  }

  lemma AttributeTags(tag: Tag)
    ensures IsAttribute20(tag) ==> IsTag(tag)
  {
    if tag in ATTRIBUTE_KINDS_2_0 {
      hide ATTRIBUTE_KINDS_2_0, UNIMPLEMENTED_ATTRIBUTES_2_0;
      Attribute20WellFormed();
    }
  }

  /** A list that was written reads back behind its header, in order, leaving
      exactly what follows, if and only if every value in it can be read by its tag.
      If all values are of the classes that the factory builds, or of another type,
      these are the lists of supported values without a stale text. */
  lemma ListRoundTrip(tag: Tag, items: seq<Item>, rest: seq<byte>)
    requires IsTag(tag) && WritableItems(items) && |EncodeItems(items)| < Radix(4)
    ensures var r := DecodeList(tag, EncodeList(tag, items) + rest);
      && (r.Ok? <==> ReadableItems(items))
      && (r.Ok? ==> r.value == (BackItems(items), rest))
      && (Agreeing(items) ==> (r.Ok? <==> SupportedItems(items) && !StaleItems(items)))
      && (Agreeing(items) && r.Ok? ==> r.value.0 == AgedItems(items))
  {
    hide DecodeHeader, DecodeItems, EncodeItems, Header, ATTRIBUTE_KINDS_2_0, WritableItems;
    hide ReadableItems, BackItems, Agreeing, SupportedItems, StaleItems, AgedItems, Radix;
    var body := EncodeItems(items);
    assert EncodeList(tag, items) + rest == Header(tag, 1, |body|) + (body + rest);
    HeaderRoundTrip(tag, 1, |body|, body + rest);
    assert (body + rest)[..|body|] == body && (body + rest)[|body|..] == rest;
    ItemsRoundTrip(items);
    if Agreeing(items) {
      AgreeingReadable(items);
    }
  }

  // ---- the list read so far

  ghost predicate Listed(source: seq<byte>, items: seq<Item>, s: seq<byte>) {
    var d := DecodeItems(s);
    DecodeItems(source) == if d.Ok? then Ok((items + d.value.0, d.value.1)) else d
  }

  lemma ListedNothing(s: seq<byte>)
    ensures Listed(s, [], s)
  {
    var d := DecodeItems(s);
    assert d.Ok? ==> [] + d.value.0 == d.value.0;
  }

  lemma ListedStep(source: seq<byte>, items: seq<Item>, s: seq<byte>)
    requires Listed(source, items, s)
    ensures if |s| < 3 || !IsTag(UnpackU(s[..3])) then DecodeItems(source) == Ok((items, s))
            else if !IsAttribute20(UnpackU(s[..3])) then DecodeItems(source).Err?
            else if UnpackU(s[..3]) !in ATTRIBUTE_KINDS_2_0 then DecodeItems(source).Err?
            else
              var tag: Tag := UnpackU(s[..3]);
              var d := Decode(tag, ATTRIBUTE_KINDS_2_0[tag], s);
              if d.Err? then DecodeItems(source).Err?
              else Listed(source, items + [Item(tag, ATTRIBUTE_KINDS_2_0[tag], d.value.0)], d.value.1)
  {
    hide Decode, ATTRIBUTE_KINDS_2_0, IsAttribute20;
    if |s| < 3 || !IsTag(UnpackU(s[..3])) {
      assert items + [] == items;
    } else {
      var tag: Tag := UnpackU(s[..3]);
      if IsAttribute20(tag) && tag in ATTRIBUTE_KINDS_2_0 && Decode(tag, ATTRIBUTE_KINDS_2_0[tag], s).Ok? {
        var item := Item(tag, ATTRIBUTE_KINDS_2_0[tag], Decode(tag, ATTRIBUTE_KINDS_2_0[tag], s).value.0);
        var d := DecodeItems(Decode(tag, ATTRIBUTE_KINDS_2_0[tag], s).value.1);
        if d.Ok? {
          assert items + ([item] + d.value.0) == items + [item] + d.value.0;
        }
      }
    }
  }

  lemma {:induction false} EncodeItemsSnoc(items: seq<Item>, item: Item)
    ensures EncodeItems(items + [item]) == EncodeItems(items) + EncodeItem(item)
  {
    hide EncodeItem;
    if items == [] {
      assert [] + [item] == [item];
      assert EncodeItems([item][1..]) == [];
    } else {
      assert (items + [item])[1..] == items[1..] + [item];
      EncodeItemsSnoc(items[1..], item);
    }
  }

  /** The protocol versions, of which 2.0 is the last. */
  datatype Version = V1_0 | V1_1 | V1_2 | V1_3 | V1_4 | V2_0

  class Attributes {
    const tag: Tag
    var attributes: seq<Item>

    constructor (attributes: seq<Item>, tag: Tag)
      requires forall i :: 0 <= i < |attributes| ==> IsItem(attributes[i])
      ensures Valid() && this.attributes == attributes && this.tag == tag
    {
      this.attributes, this.tag := attributes, tag;
    }

    ghost predicate Valid()
      reads this
    {
      forall i :: 0 <= i < |attributes| ==> IsItem(attributes[i])
    }

    /** What is read is appended to the list the object already has. Everything
        in the body has been read when the read succeeds. */
    method Read(istream: BytearrayStream, version: Version) returns (r: Result<()>)
      requires Valid()
      modifies this, istream
      ensures version != V2_0 ==> r == Err(VersionNotSupported)
      ensures version == V2_0 ==>
        var d := DecodeList(tag, old(istream.buffer));
        && (r.Ok? <==> d.Ok?)
        && (r.Ok? ==> attributes == old(attributes) + d.value.0 && istream.buffer == d.value.1)
      ensures Valid()
    {
      hide DecodeHeader, Decode, DecodeItems, Listed, ATTRIBUTE_KINDS_2_0, IsAttribute20, Plain, Held, UnpackU;
      if version != V2_0 {
        return Err(VersionNotSupported);
      }
      AttributeKindsPlain();
      ghost var got: seq<Item> := [];
      var length :- P.ReadHeader(istream, tag, 1);
      var source := istream.Read(length);
      var t := new BytearrayStream(source);
      ListedNothing(source);
      assert attributes == old(attributes) + got;
      while true
        modifies this, t
        invariant Valid() && attributes == old(attributes) + got
        invariant Listed(source, got, t.buffer)
        decreases |t.buffer|
      {
        ListedStep(source, got, t.buffer);
        if |t.buffer| < 3 {
          break;
        }
        var next := t.Peek(3);
        assert next == t.buffer[..3];
        var tag := UnpackU(next);
        if !IsTag(tag) {
          break;
        }
        if !IsAttribute20(tag) {
          return Err(AttributeNotSupported);
        }
        if tag !in ATTRIBUTE_KINDS_2_0 {
          return Err(NotImplementedError);
        }
        var value :- ReadValue(t, tag, ATTRIBUTE_KINDS_2_0[tag]);
        var item := Item(tag, ATTRIBUTE_KINDS_2_0[tag], value);
        attributes := attributes + [item];
        got := got + [item];
      }
      r := P.CheckOversized(t);
    }

    method Write(ostream: BytearrayStream, version: Version) returns (r: Result<()>)
      requires Valid()
      modifies ostream
      ensures r.Ok? <==> version == V2_0 && WritableItems(attributes) && |EncodeItems(attributes)| < Radix(4)
      ensures r.Ok? ==> ostream.buffer == old(ostream.buffer) + EncodeList(tag, attributes)
      ensures version != V2_0 ==> r == Err(VersionNotSupported)
    {
      hide Encode, EncodeItems, Writable, ATTRIBUTE_KINDS_2_0, IsAttribute20, Plain, Held, Header, Radix;
      if version != V2_0 {
        return Err(VersionNotSupported);
      }
      var t := new BytearrayStream([]);
      assert EncodeItems(attributes[..0]) == [] by { NoItems(); }
      for i := 0 to |attributes|
        modifies t
        invariant WritableItems(attributes[..i]) && t.buffer == EncodeItems(attributes[..i])
      {
        var item := attributes[i];
        assert attributes[..i + 1] == attributes[..i] + [item];
        EncodeItemsSnoc(attributes[..i], item);
        if !IsAttribute20(item.tag) {
          return Err(AttributeNotSupported);
        }
        var _ :- WriteValue(t, item.tag, item.kind, item.v);
      }
      assert attributes[..|attributes|] == attributes;
      var _ :- P.WriteHeader(ostream, tag, 1, |t.buffer|);
      var _ := ostream.Write(t.buffer);
      r := Ok(());
    }
  }

  lemma NoItems()
    ensures EncodeItems([]) == []
  {
  }
}
