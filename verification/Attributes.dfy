/** Attributes by name: objects.Attribute and objects.TemplateAttribute. */
module Attributes {
  import opened Wrappers
  import opened Bytes
  import opened Enums
  import opened Streams
  import opened Ttlv
  import opened FieldIO
  import opened Schemas
  import P = Primitives

  // ---- one attribute

  lemma PlainText()
    ensures Plain(TextStringK) && forall v :: Held(TextStringK, v) ==> v.Text? && HeldPrimitive(TextStringK, v)
  {
  }

  lemma KindForPlain(name: string)
    requires KindFor(ATTRIBUTE_KINDS, name).Some?
    ensures Plain(KindFor(ATTRIBUTE_KINDS, name).value)
  {
    hide ATTRIBUTE_KINDS, Plain;
    AttributeKindsPlain();
    PlainText();
  }

  lemma PlainFields(kind: Kind)
    requires kind.StructK?
    requires forall i :: 0 <= i < |kind.fields| ==> IsPrimitive(kind.fields[i].kind) && !kind.fields[i].mode.Repeated?
    ensures Plain(kind)
  {
  }

  lemma AttributeKindsPlain()
    ensures forall kind :: IsAttributeKind(kind) ==> Plain(kind)
    ensures forall name :: name in ATTRIBUTE_KINDS ==> Plain(ATTRIBUTE_KINDS[name])
    ensures forall tag :: tag in ATTRIBUTE_KINDS_2_0 ==> Plain(ATTRIBUTE_KINDS_2_0[tag])
    ensures Plain(NAME_K)
  {
    hide ATTRIBUTE_KINDS, ATTRIBUTE_KINDS_2_0;
    AttributeKindCases();
    Attribute20Cases();
    PlainFields(NAME_K);
    PlainFields(DIGEST_K);
    PlainFields(APPLICATION_SPECIFIC_INFORMATION_K);
    PlainFields(CRYPTOGRAPHIC_PARAMETERS_K);
    hide NAME_K, DIGEST_K, APPLICATION_SPECIFIC_INFORMATION_K, CRYPTOGRAPHIC_PARAMETERS_K;
  }

  /** The layout that the encoded name selects, if there is one. */
  ghost function NamedIn(tag: Tag, source: seq<byte>): Option<Kind> {
    var h := DecodeHeader(tag, 1, source);
    if h.Err? then None
    else
      var (length, s) := h.value;
      var name := Decode(ATTRIBUTE_NAME, TextStringK, s[..Clamp(length, s)]);
      if name.Ok? && name.value.0.Text? then KindFor(ATTRIBUTE_KINDS, name.value.0.chars) else None
  }

  /** Once the name has selected a layout, the attribute is an ordinary structure. */
  lemma AttributeDecode(tag: Tag, source: seq<byte>)
    ensures var kind := NamedIn(tag, source);
      if kind.None? then Decode(tag, ATTRIBUTE_K, source).Err?
      else Decode(tag, ATTRIBUTE_K, source) == Decode(tag, StructK(AttributeFields(kind.value)), source)
  {
    hide ATTRIBUTE_KINDS, DecodeHeader, DecodeFields, AttributeFields, KindFor;
    var h := DecodeHeader(tag, 1, source);
    if h.Ok? {
      var (length, s) := h.value;
      var body := s[..Clamp(length, s)];
      assert Decode(tag, ATTRIBUTE_K, source) == DecodeValue(ATTRIBUTE_K, length, s);
    }
  }

  lemma AttributeEncode(kinds: map<string, Kind>, kind: Kind, slots: seq<Slot>, tag: Tag)
    requires NamedKind(kinds, slots) == Some(kind)
    ensures var plain := StructK(AttributeFields(kind));
      && Encode(tag, AttributeK(kinds), Struct(slots)) == Encode(tag, plain, Struct(slots))
      && (Writable(AttributeK(kinds), Struct(slots)) <==> Writable(plain, Struct(slots)))
  {
    hide AttributeFields, KindFor, EncodeFields, WritableFields;
    var plain := StructK(AttributeFields(kind));
    assert Body(AttributeK(kinds), Struct(slots)) == Body(plain, Struct(slots));
  }

  /** objects.Attribute. The value is held with its class, which need not be the
      one that the name selects. */
  class Attribute {
    var attributeName: Option<Value>
    var attributeIndex: Option<Value>
    var attributeValue: Option<(Kind, Value)>

    constructor (name: Option<Value>, index: Option<Value>, value: Option<(Kind, Value)>)
      requires HeldOption(TextStringK, name) && HeldOption(IntegerK, index)
      requires value.Some? ==> Plain(value.value.0) && Held(value.value.0, value.value.1)
      ensures Valid() && attributeName == name && attributeIndex == index && attributeValue == value
    {
      attributeName := name;
      attributeIndex := index;
      attributeValue := value;
    }

    ghost predicate Valid()
      reads this
    {
      && HeldOption(TextStringK, attributeName)
      && HeldOption(IntegerK, attributeIndex)
      && (attributeValue.Some? ==>
            Plain(attributeValue.value.0) && Held(attributeValue.value.0, attributeValue.value.1))
    }

    /** The value is of the class that the name selects. */
    ghost predicate Matched()
      reads this
    {
      && attributeName.Some? && attributeName.value.Text? && attributeValue.Some?
      && KindFor(ATTRIBUTE_KINDS, attributeName.value.chars) == Some(attributeValue.value.0)
    }

    ghost function Slots(): (slots: seq<Slot>)
      reads this
      ensures |slots| == 3
    {
      [SlotOf(attributeName), SlotOf(attributeIndex),
       if attributeValue.Some? then One(attributeValue.value.1) else Absent]
    }

    ghost function View(): Value
      reads this
    {
      Struct(Slots())
    }

    method Read(istream: BytearrayStream) returns (r: Result<()>)
      requires Valid()
      modifies this, istream
      ensures var d := Decode(ATTRIBUTE, ATTRIBUTE_K, old(istream.buffer));
        && (r.Ok? <==> d.Ok?)
        && (r.Ok? ==> Valid() && Matched() && d.value.0.Struct? && |d.value.0.slots| == 3
                      && View() == Overlay(old(View()), d.value.0) && istream.buffer == d.value.1)
    {
      hide ATTRIBUTE_KINDS, Decode, DecodeHeader, KindFor, Plain, Held, HeldPrimitive, Laid;
      AttributeDecode(ATTRIBUTE, istream.buffer);
      ghost var named := NamedIn(ATTRIBUTE, istream.buffer);
      ghost var trail := Trail(ATTRIBUTE, istream.buffer,
                               AttributeFields(if named.Some? then named.value else TextStringK));
      var t :- ReadBody(istream, trail, ATTRIBUTE);
      assert t.buffer == trail.Body();
      hide Trail.At;
      PlainText();
      var name :- ReadRequired(t, ATTRIBUTE_NAME, TextStringK, old(SlotOf(attributeName)), trail, 0);
      assert named == KindFor(ATTRIBUTE_KINDS, name.chars);
      attributeName := Some(name);
      attributeIndex :- ReadOver(t, Field(ATTRIBUTE_INDEX, IntegerK, Optional), attributeIndex, trail, 1);
      var kind := KindFor(ATTRIBUTE_KINDS, name.chars);
      if kind.None? {
        return Err(NoValueType);
      }
      KindForPlain(name.chars);
      var value :- ReadRequired(t, ATTRIBUTE_VALUE, kind.value, old(Slots())[2], trail, 2);
      attributeValue := Some((kind.value, value));
      r := ReadEnd(t, trail);
      if r.Ok? {
        AllLaid(trail, old(Slots()), Slots());
      }
    }

    /** The layout that a write produces. */
    ghost function Layout(): Kind
      reads this
    {
      StructK(AttributeFields(if attributeValue.Some? then attributeValue.value.0 else TextStringK))
    }

    method Write(ostream: BytearrayStream) returns (r: Result<()>)
      requires Valid()
      modifies ostream
      ensures r.Ok? <==> Writable(Layout(), View())
      ensures r.Ok? ==> ostream.buffer == old(ostream.buffer) + Encode(ATTRIBUTE, Layout(), View())
      ensures Matched() ==>
        && (r.Ok? <==> Writable(ATTRIBUTE_K, View()))
        && (r.Ok? ==> ostream.buffer == old(ostream.buffer) + Encode(ATTRIBUTE, ATTRIBUTE_K, View()))
    {
      hide ATTRIBUTE_KINDS, Encode, Writable, WritableSlot, KindFor, Plain, Held, HeldPrimitive, Written;
      if Matched() {
        AttributeEncode(ATTRIBUTE_KINDS, attributeValue.value.0, Slots(), ATTRIBUTE);
      }
      ghost var fs, slots := Layout().fields, Slots();
      var t := new BytearrayStream([]);
      WrittenNothing(fs, slots);
      var _ :- WriteNext(t, Field(ATTRIBUTE_NAME, TextStringK, Required), attributeName, fs, slots, 0);
      var _ :- WriteNext(t, Field(ATTRIBUTE_INDEX, IntegerK, Optional), attributeIndex, fs, slots, 1);
      if attributeValue.None? {
        WrittenPrefix(fs, slots, 2, t.buffer);
        MissingField(fs[2]);
        return Err(AttributeError);
      }
      var (kind, value) := attributeValue.value;
      var _ :- WriteField(t, Field(ATTRIBUTE_VALUE, kind, Required), One(value), fs, slots, 2);
      r := WriteStruct(ostream, ATTRIBUTE, t, fs, slots);
    }
  }

  // ---- repetition

  /** The values vs have been read of a repeated field, and s is left. */
  ghost predicate Gathered(f: Field, source: seq<byte>, vs: seq<Value>, s: seq<byte>) {
    var d := DecodeMany(f, s);
    DecodeMany(f, source) == if d.Ok? then Ok((vs + d.value.0, d.value.1)) else d
  }

  lemma GatherNothing(f: Field, s: seq<byte>)
    ensures Gathered(f, s, [], s)
  {
    var d := DecodeMany(f, s);
    assert d.Ok? ==> [] + d.value.0 == d.value.0;
  }

  lemma GatherStep(f: Field, source: seq<byte>, vs: seq<Value>, s: seq<byte>)
    requires Gathered(f, source, vs, s)
    ensures if !IsTagNext(f.tag, s) then DecodeMany(f, source) == Ok((vs, s))
            else if Decode(f.tag, f.kind, s).Err? then DecodeMany(f, source).Err?
            else
              var (v, rest) := Decode(f.tag, f.kind, s).value;
              Gathered(f, source, vs + [v], rest)
  {
    hide Decode;
    if !IsTagNext(f.tag, s) {
      assert vs + [] == vs;
    } else if Decode(f.tag, f.kind, s).Ok? {
      var (v, rest) := Decode(f.tag, f.kind, s).value;
      var d := DecodeMany(f, rest);
      if d.Ok? {
        assert vs + ([v] + d.value.0) == vs + [v] + d.value.0;
      }
    }
  }

  lemma {:induction false} EncodeManySnoc(f: Field, vs: seq<Value>, v: Value)
    ensures EncodeMany(f, vs + [v]) == EncodeMany(f, vs) + Encode(f.tag, f.kind, v)
  {
    hide Encode;
    if vs == [] {
      assert [] + [v] == [v];
      assert EncodeMany(f, [v][1..]) == [];
    } else {
      assert (vs + [v])[1..] == vs[1..] + [v];
      EncodeManySnoc(f, vs[1..], v);
    }
  }

  const NAMES: Field := Field(NAME, NAME_K, Repeated)
  const ATTRIBUTE_LIST: Field := Field(ATTRIBUTE, ATTRIBUTE_K, Repeated)

  method ReadNames(t: BytearrayStream) returns (r: Result<seq<Value>>)
    modifies t
    ensures var d := DecodeMany(NAMES, old(t.buffer));
      if r.Ok? then d == Ok((r.value, t.buffer)) else d.Err?
    ensures r.Ok? ==> forall i :: 0 <= i < |r.value| ==> Held(NAME_K, r.value[i])
  {
    hide Decode, DecodeMany, Gathered, Held, IsTagNext, NAME_K;
    ghost var source := t.buffer;
    GatherNothing(NAMES, source);
    AttributeKindsPlain();
    var names := [];
    var next := P.TagNext(NAME, t);
    while next
      modifies t
      invariant Gathered(NAMES, source, names, t.buffer) && (next <==> IsTagNext(NAME, t.buffer))
      invariant forall i :: 0 <= i < |names| ==> Held(NAME_K, names[i])
      decreases |t.buffer|
    {
      GatherStep(NAMES, source, names, t.buffer);
      var name :- ReadValue(t, NAME, NAME_K);
      names := names + [name];
      next := P.TagNext(NAME, t);
    }
    GatherStep(NAMES, source, names, t.buffer);
    r := Ok(names);
  }

  ghost function Views(attributes: seq<Attribute>): (vs: seq<Value>)
    reads attributes
    ensures |vs| == |attributes|
  {
    seq(|attributes|, i requires 0 <= i < |attributes| reads attributes => attributes[i].View())
  }

  ghost predicate AllValid(attributes: seq<Attribute>)
    reads attributes
  {
    forall i :: 0 <= i < |attributes| ==> attributes[i].Valid()
  }

  ghost predicate AllMatched(attributes: seq<Attribute>)
    reads attributes
  {
    forall i :: 0 <= i < |attributes| ==> attributes[i].Matched()
  }

  /** Read attributes, each into an object of its own, as long as their tag is next. */
  method ReadAttributes(t: BytearrayStream) returns (r: Result<seq<Attribute>>)
    modifies t
    ensures var d := DecodeMany(ATTRIBUTE_LIST, old(t.buffer));
      if r.Ok? then d == Ok((Views(r.value), t.buffer)) else d.Err?
    ensures r.Ok? ==> fresh(r.value) && AllValid(r.value) && AllMatched(r.value)
  {
    hide Decode, DecodeMany, Gathered, IsTagNext, ATTRIBUTE_KINDS, Attribute.View, Attribute.Valid, Attribute.Matched;
    ghost var source := t.buffer;
    GatherNothing(ATTRIBUTE_LIST, source);
    var attributes: seq<Attribute> := [];
    var next := P.TagNext(ATTRIBUTE, t);
    assert Views(attributes) == [];
    while next
      modifies t
      invariant fresh(attributes) && AllValid(attributes) && AllMatched(attributes)
      invariant Gathered(ATTRIBUTE_LIST, source, Views(attributes), t.buffer)
      invariant next <==> IsTagNext(ATTRIBUTE, t.buffer)
      decreases |t.buffer|
    {
      ghost var vs := Views(attributes);
      GatherStep(ATTRIBUTE_LIST, source, vs, t.buffer);
      var attribute :- NewAttribute(t);
      assert Views(attributes + [attribute]) == vs + [attribute.View()];
      attributes := attributes + [attribute];
      next := P.TagNext(ATTRIBUTE, t);
    }
    GatherStep(ATTRIBUTE_LIST, source, Views(attributes), t.buffer);
    r := Ok(attributes);
  }

  /** Attribute() and a read. */
  method NewAttribute(t: BytearrayStream) returns (r: Result<Attribute>)
    modifies t
    ensures var d := Decode(ATTRIBUTE, ATTRIBUTE_K, old(t.buffer));
      if r.Ok? then d == Ok((r.value.View(), t.buffer)) else d.Err?
    ensures r.Ok? ==> fresh(r.value) && r.value.Valid() && r.value.Matched()
  {
    hide Decode, ATTRIBUTE_KINDS;
    var attribute := new Attribute(None, None, None);
    ghost var was := attribute.View();
    var _ :- attribute.Read(t);
    NothingToKeep(was, Decode(ATTRIBUTE, ATTRIBUTE_K, old(t.buffer)).value.0);
    r := Ok(attribute);
  }

  method WriteNames(t: BytearrayStream, names: seq<Value>) returns (r: Result<()>)
    requires forall i :: 0 <= i < |names| ==> Held(NAME_K, names[i])
    modifies t
    ensures r.Ok? <==> WritableSlot(NAMES, Many(names))
    ensures r.Ok? ==> t.buffer == old(t.buffer) + EncodeSlot(NAMES, Many(names))
  {
    hide Encode, EncodeMany, Held, Writable, NAME_K;
    AttributeKindsPlain();
    assert EncodeMany(NAMES, names[..0]) == [] by { NoValues(NAMES); }
    for i := 0 to |names|
      modifies t
      invariant forall j :: 0 <= j < i ==> Writable(NAME_K, names[j])
      invariant t.buffer == old(t.buffer) + EncodeMany(NAMES, names[..i])
    {
      assert names[..i + 1] == names[..i] + [names[i]];
      EncodeManySnoc(NAMES, names[..i], names[i]);
      var _ :- WriteValue(t, NAME, NAME_K, names[i]);
    }
    assert names[..|names|] == names;
    r := Ok(());
  }

  lemma NoValues(f: Field)
    ensures EncodeMany(f, []) == []
  {
  }

  // ---- attributes one by one

  /** The fields of a list of attributes, each with the layout of its own value. */
  function ListFields(layouts: seq<Kind>): (fs: seq<Field>)
    ensures |fs| == |layouts|
  {
    seq(|layouts|, i requires 0 <= i < |layouts| => Field(ATTRIBUTE, layouts[i], Required))
  }

  function Ones(vs: seq<Value>): (slots: seq<Slot>)
    ensures |slots| == |vs|
  {
    seq(|vs|, i requires 0 <= i < |vs| => One(vs[i]))
  }

  ghost function Layouts(attributes: seq<Attribute>): (layouts: seq<Kind>)
    reads attributes
    ensures |layouts| == |attributes|
  {
    seq(|attributes|, i requires 0 <= i < |attributes| reads attributes => attributes[i].Layout())
  }

  ghost predicate AllAlike(layouts: seq<Kind>, vs: seq<Value>) {
    && |layouts| == |vs|
    && forall i :: 0 <= i < |vs| ==> Alike(ATTRIBUTE, layouts[i], vs[i], ATTRIBUTE_K, vs[i])
  }

  lemma MatchedAlike(attributes: seq<Attribute>)
    requires AllMatched(attributes)
    ensures AllAlike(Layouts(attributes), Views(attributes))
  {
    hide ATTRIBUTE_KINDS, KindFor;
    forall i | 0 <= i < |attributes|
      ensures Alike(ATTRIBUTE, attributes[i].Layout(), attributes[i].View(), ATTRIBUTE_K, attributes[i].View())
    {
      var a := attributes[i];
      assert a.Matched();
      AttributeEncode(ATTRIBUTE_KINDS, a.attributeValue.value.0, a.Slots(), ATTRIBUTE);
    }
  }

  /** Matched attributes one by one are the repeated field of the wire format. */
  lemma {:induction false} ListEncoding(layouts: seq<Kind>, vs: seq<Value>)
    requires AllAlike(layouts, vs)
    ensures EncodeFields(ListFields(layouts), Ones(vs)) == EncodeMany(ATTRIBUTE_LIST, vs)
  {
    hide Encode, Writable, ATTRIBUTE_KINDS;
    if vs != [] {
      assert ListFields(layouts) == [Field(ATTRIBUTE, layouts[0], Required)] + ListFields(layouts[1..]);
      assert Ones(vs) == [One(vs[0])] + Ones(vs[1..]);
      FirstField(Field(ATTRIBUTE, layouts[0], Required), One(vs[0]), ListFields(layouts[1..]), Ones(vs[1..]));
      ListEncoding(layouts[1..], vs[1..]);
    }
  }

  lemma ListWritable(layouts: seq<Kind>, vs: seq<Value>)
    requires AllAlike(layouts, vs)
    ensures WritableFields(ListFields(layouts), Ones(vs)) <==> WritableSlot(ATTRIBUTE_LIST, Many(vs))
  {
    hide Encode, Writable, ATTRIBUTE_KINDS;
    var fs, slots := ListFields(layouts), Ones(vs);
    assert forall i :: 0 <= i < |vs| ==> (WritableSlot(fs[i], slots[i]) <==> Writable(ATTRIBUTE_K, vs[i]));
  }

  /** A structure of one field and a list of attributes. */
  lemma ListAlike(tag: Tag, f: Field, slot: Slot, layouts: seq<Kind>, vs: seq<Value>)
    requires AllAlike(layouts, vs)
    ensures Alike(tag, StructK([f] + ListFields(layouts)), Struct([slot] + Ones(vs)),
                  StructK([f, ATTRIBUTE_LIST]), Struct([slot, Many(vs)]))
  {
    hide Encode, Writable, EncodeMany, WritableSlot, ATTRIBUTE_LIST, ListFields, Ones, AllAlike, Alike;
    ListEncoding(layouts, vs);
    ListWritable(layouts, vs);
    FirstField(f, slot, ListFields(layouts), Ones(vs));
    FirstField(f, slot, [ATTRIBUTE_LIST], [Many(vs)]);
    assert [f] + [ATTRIBUTE_LIST] == [f, ATTRIBUTE_LIST] && [slot] + [Many(vs)] == [slot, Many(vs)];
    LastField(ATTRIBUTE_LIST, Many(vs));
    AlikeStructs(tag, [f] + ListFields(layouts), [slot] + Ones(vs), [f, ATTRIBUTE_LIST], [slot, Many(vs)]);
  }

  lemma LastField(f: Field, slot: Slot)
    ensures EncodeFields([f], [slot]) == EncodeSlot(f, slot)
    ensures WritableFields([f], [slot]) <==> WritableSlot(f, slot)
  {
    hide Encode, EncodeSlot, WritableSlot;
    assert [f][0] == f && [slot][0] == slot;
    assert EncodeFields([f][1..], [slot][1..]) == [];
  }

  /** Write the attributes behind the k fields that have been written. */
  method WriteAttributes(t: BytearrayStream, attributes: seq<Attribute>,
                         ghost fs: seq<Field>, ghost slots: seq<Slot>, ghost k: nat) returns (r: Result<()>)
    requires AllValid(attributes) && Written(fs, slots, k, t.buffer)
    requires fs[k..] == ListFields(Layouts(attributes)) && slots[k..] == Ones(Views(attributes))
    modifies t
    ensures r.Ok? ==> Written(fs, slots, |fs|, t.buffer)
    ensures r.Err? ==> !Writable(StructK(fs), Struct(slots))
  {
    assert k <= |fs| == |slots|;
    hide Encode, Writable, Written, ATTRIBUTE_KINDS, Attribute.View, Attribute.Valid, Attribute.Layout;
    for i := 0 to |attributes|
      modifies t
      invariant Written(fs, slots, k + i, t.buffer)
    {
      assert fs[k..][i] == fs[k + i] && slots[k..][i] == slots[k + i];
      WrittenNext(fs, slots, k + i, t.buffer);
      var _ :- attributes[i].Write(t);
    }
    r := Ok(());
  }

  // ---- templates

  lemma TemplateFields()
    ensures TEMPLATE_ATTRIBUTE_FIELDS == [NAMES, ATTRIBUTE_LIST]
    ensures NAMES.mode.Repeated? && ATTRIBUTE_LIST.mode.Repeated?
  {
    hide ATTRIBUTE_KINDS, NAME_K;
  }

  /** objects.TemplateAttribute and its three subclasses, which differ in the tag. */
  class TemplateAttribute {
    const tag: Tag
    var names: seq<Value>
    var attributes: seq<Attribute>

    constructor (names: seq<Value>, attributes: seq<Attribute>, tag: Tag)
      requires forall i :: 0 <= i < |names| ==> Held(NAME_K, names[i])
      requires AllValid(attributes)
      ensures Valid() && this.names == names && this.attributes == attributes && this.tag == tag
    {
      this.tag, this.names, this.attributes := tag, names, attributes;
    }

    ghost predicate Valid()
      reads this, attributes
    {
      (forall i :: 0 <= i < |names| ==> Held(NAME_K, names[i])) && AllValid(attributes)
    }

    ghost function Slots(): (slots: seq<Slot>)
      reads this, attributes
      ensures |slots| == 2
    {
      [Many(names), Many(Views(attributes))]
    }

    ghost function View(): Value
      reads this, attributes
    {
      Struct(Slots())
    }

    /** Both lists are emptied before they are read. */
    method Read(istream: BytearrayStream) returns (r: Result<()>)
      modifies this, istream
      ensures var d := Decode(tag, TEMPLATE_ATTRIBUTE_K, old(istream.buffer));
        if r.Ok? then d == Ok((View(), istream.buffer)) else d.Err?
      ensures r.Ok? ==> Valid() && fresh(attributes) && AllMatched(attributes)
    {
      hide Decode, DecodeMany, DecodeHeader, DecodeSlot, Trail.At, Laid, Over, Held, Views, AllValid, AllMatched;
      hide ATTRIBUTE_KINDS, NAME_K, TEMPLATE_ATTRIBUTE_FIELDS, NAMES, ATTRIBUTE_LIST;
      TemplateFields();
      ghost var trail := Trail(tag, istream.buffer, TEMPLATE_ATTRIBUTE_FIELDS);
      var t :- ReadBody(istream, trail, tag);
      names, attributes := [], [];
      TrailStepMany(trail, 0, t.buffer, Absent);
      names :- ReadNames(t);
      TrailStepMany(trail, 1, t.buffer, Absent);
      attributes :- ReadAttributes(t);
      r := ReadEnd(t, trail);
      if r.Ok? {
        AllLaid(trail, [Absent, Absent], Slots());
        NothingToKeep(Struct([Absent, Absent]), trail.Outcome().value.0);
      }
    }

    /** The layout and the state that a write produces: the attributes one by one,
        each with the layout of its own value. */
    ghost function Layout(): Kind
      reads this, attributes
    {
      StructK([NAMES] + ListFields(Layouts(attributes)))
    }

    ghost function Flat(): Value
      reads this, attributes
    {
      Struct([Many(names)] + Ones(Views(attributes)))
    }

    method Write(ostream: BytearrayStream) returns (r: Result<()>)
      requires Valid()
      modifies ostream
      ensures r.Ok? <==> Writable(Layout(), Flat())
      ensures r.Ok? ==> ostream.buffer == old(ostream.buffer) + Encode(tag, Layout(), Flat())
      ensures AllMatched(attributes) ==>
        && (r.Ok? <==> Writable(TEMPLATE_ATTRIBUTE_K, View()))
        && (r.Ok? ==> ostream.buffer == old(ostream.buffer) + Encode(tag, TEMPLATE_ATTRIBUTE_K, View()))
    {
      hide Encode, Writable, WritableSlot, EncodeSlot, Held, AllMatched, Written, Views, Layouts, ListFields, Ones;
      hide ATTRIBUTE_KINDS, NAME_K, TEMPLATE_ATTRIBUTE_FIELDS, NAMES, ATTRIBUTE_LIST;
      TemplateFields();
      if AllMatched(attributes) {
        MatchedAlike(attributes);
        ListAlike(tag, NAMES, Many(names), Layouts(attributes), Views(attributes));
      }
      ghost var fs, slots := Layout().fields, Flat().slots;
      var t := new BytearrayStream([]);
      WrittenNothing(fs, slots);
      WrittenPrefix(fs, slots, 0, t.buffer);
      var _ :- WriteNames(t, names);
      WrittenStep(fs, slots, 0, []);
      var _ :- WriteAttributes(t, attributes, fs, slots, 1);
      r := WriteStruct(ostream, tag, t, fs, slots);
    }
  }
}
