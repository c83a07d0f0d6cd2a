/** Between the two containers of attributes: TemplateAttribute, which names them,
    and the KMIP 2.0 Attributes, which tags them.

    Both conversions share the value objects of their input and change the tag
    those objects carry, so here the values are objects of the heap. */
module Conversions {
  import opened Wrappers
  import opened Enums
  import opened Ttlv

  // ---- the table of names and tags

  datatype Entry = Entry(name: string, tag: Tag)

  /** What enums.attribute_name_tag_table is: a one-to-one table that does not
      list the placeholder tag ATTRIBUTE_VALUE. */
  ghost predicate OneToOne(table: seq<Entry>) {
    && (forall i, j :: 0 <= i < j < |table| ==> table[i].name != table[j].name && table[i].tag != table[j].tag)
    && (forall i :: 0 <= i < |table| ==> table[i].tag != ATTRIBUTE_VALUE)
  }

  function TagOf(table: seq<Entry>, name: string): Option<Tag> {
    if table == [] then None
    else if table[0].name == name then Some(table[0].tag)
    else TagOf(table[1..], name)
  }

  function NameOf(table: seq<Entry>, tag: Tag): Option<string> {
    if table == [] then None
    else if table[0].tag == tag then Some(table[0].name)
    else NameOf(table[1..], tag)
  }

  lemma {:induction false} TagOfEntry(table: seq<Entry>, name: string)
    ensures TagOf(table, name).Some? <==> exists i :: 0 <= i < |table| && table[i].name == name
    ensures TagOf(table, name).Some? ==> Entry(name, TagOf(table, name).value) in table
  {
    if table != [] {
      var tail := table[1..];
      assert forall i :: 0 < i < |table| ==> table[i] == tail[i - 1];
      TagOfEntry(tail, name);
      if i :| 0 <= i < |tail| && tail[i].name == name {
        assert table[i + 1].name == name;
      }
    }
  }

  lemma {:induction false} NameOfEntry(table: seq<Entry>, tag: Tag)
    ensures NameOf(table, tag).Some? <==> exists i :: 0 <= i < |table| && table[i].tag == tag
    ensures NameOf(table, tag).Some? ==> Entry(NameOf(table, tag).value, tag) in table
  {
    if table != [] {
      var tail := table[1..];
      assert forall i :: 0 < i < |table| ==> table[i] == tail[i - 1];
      NameOfEntry(tail, tag);
      if i :| 0 <= i < |tail| && tail[i].tag == tag {
        assert table[i + 1].tag == tag;
      }
    }
  }

  /** The two lookups are inverse to each other, and neither knows ATTRIBUTE_VALUE. */
  lemma LookupsInverse(table: seq<Entry>, name: string, tag: Tag)
    requires OneToOne(table)
    ensures TagOf(table, name) == Some(tag) <==> NameOf(table, tag) == Some(name)
    ensures NameOf(table, ATTRIBUTE_VALUE) == None
  {
    TagOfEntry(table, name);
    NameOfEntry(table, tag);
    NameOfEntry(table, ATTRIBUTE_VALUE);
  }

  method ConvertAttributeNameToTag(table: seq<Entry>, name: string) returns (r: Result<Tag>)
    ensures r == match TagOf(table, name) case Some(tag) => Ok(tag) case None => Err(ValueError)
  {
    for i := 0 to |table|
      invariant TagOf(table, name) == TagOf(table[i..], name)
    {
      if name == table[i].name {
        return Ok(table[i].tag);
      }
      assert table[i..][1..] == table[i + 1..];
    }
    return Err(ValueError);
  }

  method ConvertAttributeTagToName(table: seq<Entry>, tag: Tag) returns (r: Result<string>)
    ensures r == match NameOf(table, tag) case Some(name) => Ok(name) case None => Err(ValueError)
  {
    for i := 0 to |table|
      invariant NameOf(table, tag) == NameOf(table[i..], tag)
    {
      if tag == table[i].tag {
        return Ok(table[i].name);
      }
      assert table[i..][1..] == table[i + 1..];
    }
    return Err(ValueError);
  }

  // ---- containers

  /** A value object: only its tag is changed by the conversions. */
  class ValueObject {
    var tag: Tag
    var value: Value

    constructor (tag: Tag, value: Value)
      ensures this.tag == tag && this.value == value
    {
      this.tag, this.value := tag, value;
    }
  }

  /** objects.Attribute, holding its value by reference. */
  class Attribute {
    var attributeName: Option<string>
    var attributeIndex: Option<int>
    var attributeValue: ValueObject?

    /** An attribute gives its value the tag ATTRIBUTE_VALUE. */
    constructor (name: Option<string>, index: Option<int>, value: ValueObject?)
      modifies (if value == null then {} else {value})`tag
      ensures attributeName == name && attributeIndex == index && attributeValue == value
      ensures value != null ==> value.tag == ATTRIBUTE_VALUE
    {
      attributeName, attributeIndex, attributeValue := name, index, value;
      new;
      if value != null {
        value.tag := ATTRIBUTE_VALUE;
      }
    }
  }

  class TemplateAttribute {
    const tag: Tag
    var names: seq<Value>
    var attributes: seq<Attribute>

    constructor (names: seq<Value>, attributes: seq<Attribute>, tag: Tag)
      ensures this.names == names && this.attributes == attributes && this.tag == tag
    {
      this.names, this.attributes, this.tag := names, attributes, tag;
    }
  }

  class Attributes {
    const tag: Tag
    var attributes: seq<ValueObject>

    constructor (attributes: seq<ValueObject>, tag: Tag)
      ensures this.attributes == attributes && this.tag == tag
    {
      this.attributes, this.tag := attributes, tag;
    }
  }

  function AttributesTag(template: Tag): Tag {
    if template == COMMON_TEMPLATE_ATTRIBUTE then COMMON_ATTRIBUTES
    else if template == PRIVATE_KEY_TEMPLATE_ATTRIBUTE then PRIVATE_KEY_ATTRIBUTES
    else if template == PUBLIC_KEY_TEMPLATE_ATTRIBUTE then PUBLIC_KEY_ATTRIBUTES
    else ATTRIBUTES
  }

  function TemplateTag(attributes: Tag): Tag {
    if attributes == COMMON_ATTRIBUTES then COMMON_TEMPLATE_ATTRIBUTE
    else if attributes == PRIVATE_KEY_ATTRIBUTES then PRIVATE_KEY_TEMPLATE_ATTRIBUTE
    else if attributes == PUBLIC_KEY_ATTRIBUTES then PUBLIC_KEY_TEMPLATE_ATTRIBUTE
    else TEMPLATE_ATTRIBUTE
  }

  predicate IsAttributesTag(tag: Tag) {
    tag in {ATTRIBUTES, COMMON_ATTRIBUTES, PRIVATE_KEY_ATTRIBUTES, PUBLIC_KEY_ATTRIBUTES}
  }

  predicate IsTemplateTag(tag: Tag) {
    tag in {
      TEMPLATE_ATTRIBUTE, COMMON_TEMPLATE_ATTRIBUTE, PRIVATE_KEY_TEMPLATE_ATTRIBUTE, PUBLIC_KEY_TEMPLATE_ATTRIBUTE}
  }

  // ---- template to attributes

  /** The value objects of attributes that all have one. */
  ghost predicate Holds(attributes: seq<Attribute>, objects: seq<ValueObject>)
    reads attributes
  {
    |attributes| == |objects| && forall i :: 0 <= i < |attributes| ==> attributes[i].attributeValue == objects[i]
  }

  /** The name of the attribute is in the table and it has a value. */
  ghost predicate Nameable(table: seq<Entry>, attribute: Attribute)
    reads attribute
  {
    && attribute.attributeName.Some? && TagOf(table, attribute.attributeName.value).Some?
    && attribute.attributeValue != null
  }

  ghost predicate Distinct(objects: seq<ValueObject>) {
    forall i, j :: 0 <= i < j < |objects| ==> objects[i] != objects[j]
  }

  /** No later position holds the object at position i. */
  ghost predicate LastAt(objects: seq<ValueObject>, i: nat)
    requires i < |objects|
  {
    forall j :: i < j < |objects| ==> objects[j] != objects[i]
  }

  ghost function ValueObjects(attributes: seq<Attribute>): set<ValueObject>
    reads attributes
  {
    set i | 0 <= i < |attributes| && attributes[i].attributeValue != null :: attributes[i].attributeValue
  }

  /** The object has the tag that belongs to the name of the attribute. */
  ghost predicate Tagged(table: seq<Entry>, attribute: Attribute, o: ValueObject)
    reads attribute, o
  {
    Nameable(table, attribute) && Some(o.tag) == TagOf(table, attribute.attributeName.value)
  }

  method TagValue(table: seq<Entry>, attribute: Attribute) returns (r: Result<ValueObject>)
    modifies (if attribute.attributeValue == null then {} else {attribute.attributeValue})`tag
    ensures r.Ok? <==> Nameable(table, attribute)
    ensures r.Ok? ==> attribute.attributeValue == r.value && Tagged(table, attribute, r.value)
  {
    if attribute.attributeName.None? {
      return Err(AttributeError);
    }
    var attributeTag :- ConvertAttributeNameToTag(table, attribute.attributeName.value);
    var attributeValue := attribute.attributeValue;
    if attributeValue == null {
      return Err(AttributeError);
    }
    attributeValue.tag := attributeTag;
    r := Ok(attributeValue);
  }

  /** Every value is handed over and tagged by the name of its attribute; a value
      that several attributes share ends up with the tag of the last of them. */
  method ConvertTemplateAttributeToAttributes(table: seq<Entry>, value: TemplateAttribute)
    returns (r: Result<Attributes>)
    modifies ValueObjects(value.attributes)`tag
    ensures r.Ok? <==> forall a :: a in value.attributes ==> Nameable(table, a)
    ensures r.Ok? ==> fresh(r.value) && Holds(value.attributes, r.value.attributes)
    ensures r.Ok? && value.tag == TEMPLATE_ATTRIBUTE ==> r.value.tag == ATTRIBUTES
    ensures r.Ok? && value.tag == COMMON_TEMPLATE_ATTRIBUTE ==> r.value.tag == COMMON_ATTRIBUTES
    ensures r.Ok? && value.tag == PRIVATE_KEY_TEMPLATE_ATTRIBUTE ==> r.value.tag == PRIVATE_KEY_ATTRIBUTES
    ensures r.Ok? && value.tag == PUBLIC_KEY_TEMPLATE_ATTRIBUTE ==> r.value.tag == PUBLIC_KEY_ATTRIBUTES
    ensures r.Ok? && !IsTemplateTag(value.tag) ==> r.value.tag == ATTRIBUTES
    ensures r.Ok? ==> forall i :: 0 <= i < |value.attributes| && LastAt(r.value.attributes, i) ==>
      Tagged(table, value.attributes[i], r.value.attributes[i])
  {
    hide TagOf, Tagged, Nameable;
    var attributes := value.attributes;
    ghost var mine := ValueObjects(attributes);
    var values: seq<ValueObject> := [];
    for i := 0 to |attributes|
      modifies mine`tag
      invariant forall k :: 0 <= k < i ==> Nameable(table, attributes[k])
      invariant Holds(attributes[..i], values)
      invariant forall k :: 0 <= k < i && LastAt(values, k) ==> Tagged(table, attributes[k], values[k])
    {
      assert attributes[i].attributeValue != null ==> attributes[i].attributeValue in mine;
      var attributeValue :- TagValue(table, attributes[i]);
      StillTagged(values, attributeValue);
      values := values + [attributeValue];
    }
    assert attributes[..|attributes|] == attributes;
    var converted := new Attributes(values, AttributesTag(value.tag));
    r := Ok(converted);
  }

  /** Who is last in the longer list was last in the shorter one and is another object. */
  lemma StillTagged(objects: seq<ValueObject>, o: ValueObject)
    ensures forall k :: 0 <= k < |objects| && LastAt(objects + [o], k) ==> LastAt(objects, k) && objects[k] != o
  {
    var more := objects + [o];
    forall k | 0 <= k < |objects| && LastAt(more, k) ensures LastAt(objects, k) && objects[k] != o {
      assert more[|objects|] == o;
      assert forall j :: k < j < |objects| ==> objects[j] == more[j];
    }
  }

  // ---- attributes to template

  ghost function TagsOf(objects: seq<ValueObject>): (tags: seq<Tag>)
    reads objects
    ensures |tags| == |objects| && forall i :: 0 <= i < |tags| ==> tags[i] == objects[i].tag
  {
    seq(|objects|, i requires 0 <= i < |objects| reads objects => objects[i].tag)
  }

  /** The attributes have the names of these tags, in order, and no index. */
  ghost predicate Named(table: seq<Entry>, attributes: seq<Attribute>, tags: seq<Tag>)
    reads attributes
  {
    && |attributes| == |tags|
    && forall i :: 0 <= i < |tags| ==>
      && NameOf(table, tags[i]).Some? && attributes[i].attributeName == NameOf(table, tags[i])
      && attributes[i].attributeIndex == None
  }

  ghost predicate AllNamed(table: seq<Entry>, tags: seq<Tag>) {
    forall i :: 0 <= i < |tags| ==> NameOf(table, tags[i]).Some?
  }

  method NameValue(table: seq<Entry>, o: ValueObject) returns (r: Result<Attribute>)
    modifies o`tag
    ensures r.Ok? <==> NameOf(table, old(o.tag)).Some?
    ensures r.Ok? ==> fresh(r.value) && Named(table, [r.value], [old(o.tag)])
    ensures r.Ok? ==> r.value.attributeValue == o && o.tag == ATTRIBUTE_VALUE
  {
    var name :- ConvertAttributeTagToName(table, o.tag);
    var attribute := new Attribute(Some(name), None, o);
    r := Ok(attribute);
  }

  /** Each value gets a new attribute around it, named after its tag, and loses
      that tag. So a value that is listed twice, like a tag without a name, stops
      the conversion. */
  method ConvertAttributesToTemplateAttribute(table: seq<Entry>, value: Attributes)
    returns (r: Result<TemplateAttribute>)
    requires OneToOne(table)
    modifies (set o <- value.attributes)`tag
    ensures r.Ok? <==>
      Distinct(value.attributes) && AllNamed(table, old(TagsOf(value.attributes)))
    ensures r.Ok? ==> forall i :: 0 <= i < |value.attributes| ==> value.attributes[i].tag == ATTRIBUTE_VALUE
    ensures r.Ok? ==>
      && fresh(r.value) && fresh(r.value.attributes) && r.value.names == []
      && Holds(r.value.attributes, value.attributes) && Named(table, r.value.attributes, old(TagsOf(value.attributes)))
    ensures r.Ok? && value.tag == ATTRIBUTES ==> r.value.tag == TEMPLATE_ATTRIBUTE
    ensures r.Ok? && value.tag == COMMON_ATTRIBUTES ==> r.value.tag == COMMON_TEMPLATE_ATTRIBUTE
    ensures r.Ok? && value.tag == PRIVATE_KEY_ATTRIBUTES ==> r.value.tag == PRIVATE_KEY_TEMPLATE_ATTRIBUTE
    ensures r.Ok? && value.tag == PUBLIC_KEY_ATTRIBUTES ==> r.value.tag == PUBLIC_KEY_TEMPLATE_ATTRIBUTE
    ensures r.Ok? && !IsAttributesTag(value.tag) ==> r.value.tag == TEMPLATE_ATTRIBUTE
  {
    LookupsInverse(table, "", ATTRIBUTE_VALUE);
    var objects := value.attributes;
    ghost var tags := TagsOf(objects);
    var structures: seq<Attribute> := [];
    Nothing(table, objects, tags);
    hide NameOf, TagOf, OneToOne, Named, AllNamed, TagsOf, Distinct, Unrepeated, Repeats, Holds;
    for i := 0 to |objects|
      modifies (set o <- objects)`tag
      invariant fresh(structures) && Holds(structures, objects[..i]) && Named(table, structures, tags[..i])
      invariant Unrepeated(objects, i) && AllNamed(table, tags[..i])
      invariant forall k :: 0 <= k < i ==> objects[k].tag == ATTRIBUTE_VALUE
      invariant forall k :: i <= k < |objects| ==> objects[k].tag == tags[k] || Repeats(objects, k)
    {
      Unnameable(table, objects, tags, i);
      var attribute :- NameValue(table, objects[i]);
      Step(table, structures, objects, tags, i, attribute);
      structures := structures + [attribute];
    }
    assert objects[..|objects|] == objects && tags[..|tags|] == tags;
    UnrepeatedMeansDistinct(objects);
    var template := new TemplateAttribute([], structures, TemplateTag(value.tag));
    r := Ok(template);
  }

  /** The object at position k is also at an earlier one. */
  ghost predicate Repeats(objects: seq<ValueObject>, k: nat)
    requires k < |objects|
  {
    exists j :: 0 <= j < k && objects[j] == objects[k]
  }

  ghost predicate Unrepeated(objects: seq<ValueObject>, n: nat)
    requires n <= |objects|
  {
    forall k :: 0 <= k < n ==> !Repeats(objects, k)
  }

  lemma UnrepeatedMeansDistinct(objects: seq<ValueObject>)
    requires Unrepeated(objects, |objects|)
    ensures Distinct(objects)
  {
    forall i, j | 0 <= i < j < |objects| ensures objects[i] != objects[j] {
      assert !Repeats(objects, j);
    }
  }

  lemma Nothing(table: seq<Entry>, objects: seq<ValueObject>, tags: seq<Tag>)
    requires |objects| == |tags|
    ensures Holds([], objects[..0]) && Named(table, [], tags[..0])
    ensures AllNamed(table, tags[..0]) && Unrepeated(objects, 0)
  {
  }

  /** Why the conversion stops at position i: the tag has no name, or the value has
      been converted before. */
  lemma Unnameable(table: seq<Entry>, objects: seq<ValueObject>, tags: seq<Tag>, i: nat)
    requires i < |objects| == |tags| && Unrepeated(objects, i)
    ensures NameOf(table, tags[i]).None? ==> !AllNamed(table, tags)
    ensures Repeats(objects, i) ==> !Distinct(objects)
    ensures !Repeats(objects, i) ==> Unrepeated(objects, i + 1) && objects[i] !in objects[..i]
  {
  }

  lemma Step(table: seq<Entry>, attributes: seq<Attribute>, objects: seq<ValueObject>, tags: seq<Tag>, i: nat,
             attribute: Attribute)
    requires i < |objects| == |tags|
    requires Holds(attributes, objects[..i]) && attribute.attributeValue == objects[i]
    requires Named(table, attributes, tags[..i]) && AllNamed(table, tags[..i]) && Named(table, [attribute], [tags[i]])
    ensures Holds(attributes + [attribute], objects[..i + 1])
    ensures Named(table, attributes + [attribute], tags[..i + 1]) && AllNamed(table, tags[..i + 1])
  {
    assert [attribute][0] == attribute && [tags[i]][0] == tags[i];
  }

  // ---- there and back

  /** For either kind of container the other conversion leads back; the pairs are
      those of the tag numbers. */
  lemma ContainersInverse(tag: Tag)
    ensures AttributesTag(0x420091) == 0x420125 && AttributesTag(0x42001F) == 0x420126
    ensures AttributesTag(0x420065) == 0x420127 && AttributesTag(0x42006E) == 0x420128
    ensures AttributesTag(TemplateTag(tag)) == (if IsAttributesTag(tag) then tag else ATTRIBUTES)
    ensures TemplateTag(AttributesTag(tag)) == (if IsTemplateTag(tag) then tag else TEMPLATE_ATTRIBUTE)
  {
  }

  ghost predicate AllNameable(table: seq<Entry>, attributes: seq<Attribute>)
    reads attributes
  {
    forall a :: a in attributes ==> Nameable(table, a)
  }

  /** Attributes to template and back: distinct values with known tags come back as
      the same objects in the same order, each with its tag and its value, in the
      same kind of container. In between the source no longer converts, because
      all its values carry ATTRIBUTE_VALUE. */
  method AttributesThereAndBack(table: seq<Entry>, value: Attributes)
    returns (template: TemplateAttribute, back: Attributes)
    requires OneToOne(table) && Distinct(value.attributes) && AllNamed(table, TagsOf(value.attributes))
    modifies (set o <- value.attributes)`tag
    ensures back.attributes == value.attributes && TagsOf(value.attributes) == old(TagsOf(value.attributes))
    ensures back.tag == if IsAttributesTag(value.tag) then value.tag else ATTRIBUTES
    ensures Named(table, template.attributes, old(TagsOf(value.attributes)))
  {
    ghost var objects, tags := value.attributes, TagsOf(value.attributes);
    var converted := ConvertAttributesToTemplateAttribute(table, value);
    template := converted.value;
    ghost var mine := template.attributes;
    NamesLeadBack(table, mine, objects, tags);
    hide NameOf, TagOf, OneToOne, AllNamed, Named, Nameable, ValueObjects, Tagged, Distinct, TagsOf;
    var again := ConvertTemplateAttributeToAttributes(table, template);
    back := again.value;
    HeldOnce(mine, back.attributes, objects);
    ContainersInverse(value.tag);
    DistinctLast(objects);
    TagsRestored(table, mine, objects, tags);
  }

  lemma TagsRestored(table: seq<Entry>, attributes: seq<Attribute>, objects: seq<ValueObject>, tags: seq<Tag>)
    requires |attributes| == |objects| == |tags|
    requires forall i :: 0 <= i < |attributes| ==>
      attributes[i].attributeName.Some? && TagOf(table, attributes[i].attributeName.value) == Some(tags[i])
    requires forall i :: 0 <= i < |attributes| ==> Tagged(table, attributes[i], objects[i])
    ensures TagsOf(objects) == tags
  {
  }

  /** Values that have been converted cannot be converted again. */
  lemma Spent(table: seq<Entry>, objects: seq<ValueObject>)
    requires OneToOne(table)
    requires forall i :: 0 <= i < |objects| ==> objects[i].tag == ATTRIBUTE_VALUE
    ensures objects != [] ==> !AllNamed(table, TagsOf(objects))
  {
    LookupsInverse(table, "", ATTRIBUTE_VALUE);
    if objects != [] {
      assert TagsOf(objects)[0] == ATTRIBUTE_VALUE;
    }
  }

  lemma NamesLeadBack(table: seq<Entry>, attributes: seq<Attribute>, objects: seq<ValueObject>, tags: seq<Tag>)
    requires OneToOne(table) && Named(table, attributes, tags) && Holds(attributes, objects)
    ensures ValueObjects(attributes) == set o <- objects
    ensures forall a :: a in attributes ==> Nameable(table, a)
    ensures forall i :: 0 <= i < |attributes| ==>
      attributes[i].attributeName.Some? && TagOf(table, attributes[i].attributeName.value) == Some(tags[i])
  {
    forall i | 0 <= i < |attributes|
      ensures attributes[i].attributeName.Some? && TagOf(table, attributes[i].attributeName.value) == Some(tags[i])
      ensures objects[i] in ValueObjects(attributes)
    {
      LookupsInverse(table, attributes[i].attributeName.value, tags[i]);
      assert attributes[i].attributeValue == objects[i];
    }
  }

  lemma HeldOnce(attributes: seq<Attribute>, some: seq<ValueObject>, others: seq<ValueObject>)
    requires Holds(attributes, some) && Holds(attributes, others)
    ensures some == others
  {
  }

  lemma DistinctLast(objects: seq<ValueObject>)
    requires Distinct(objects)
    ensures forall i :: 0 <= i < |objects| ==> LastAt(objects, i)
  {
  }

  /** No two attributes share a value. */
  ghost predicate Unshared(attributes: seq<Attribute>)
    reads attributes
  {
    forall i, j :: 0 <= i < j < |attributes| ==> attributes[i].attributeValue != attributes[j].attributeValue
  }

  /** The same names, no index. */
  ghost predicate SameNames(attributes: seq<Attribute>, names: seq<Option<string>>)
    reads attributes
  {
    && |attributes| == |names|
    && forall i :: 0 <= i < |names| ==> attributes[i].attributeName == names[i] && attributes[i].attributeIndex == None
  }

  ghost function NamesOf(attributes: seq<Attribute>): (names: seq<Option<string>>)
    reads attributes
    ensures |names| == |attributes|
  {
    seq(|attributes|, i requires 0 <= i < |attributes| reads attributes => attributes[i].attributeName)
  }

  /** Template to attributes and back: it works exactly if every name is in the
      table and no value is missing or shared, and then drops the names of the
      template and the indices, and nothing else. */
  method TemplateThereAndBack(table: seq<Entry>, value: TemplateAttribute) returns (r: Result<TemplateAttribute>)
    requires OneToOne(table)
    modifies ValueObjects(value.attributes)`tag
    ensures r.Ok? <==> AllNameable(table, value.attributes) && Unshared(value.attributes)
    ensures r.Ok? ==> r.value.names == [] && SameNames(r.value.attributes, NamesOf(value.attributes))
    ensures r.Ok? ==> |r.value.attributes| == |value.attributes| && forall i :: 0 <= i < |value.attributes| ==>
      r.value.attributes[i].attributeValue == value.attributes[i].attributeValue
    ensures r.Ok? ==> r.value.tag == if IsTemplateTag(value.tag) then value.tag else TEMPLATE_ATTRIBUTE
  {
    ghost var attributes, mine := value.attributes, ValueObjects(value.attributes);
    var converted :- ConvertTemplateAttributeToAttributes(table, value);
    ghost var objects := converted.attributes;
    assert forall o :: o in objects ==> o in mine by {
      forall i | 0 <= i < |objects| ensures objects[i] in mine {
        assert attributes[i].attributeValue == objects[i];
      }
    }
    assert Unshared(attributes) <==> Distinct(objects);
    if Distinct(objects) {
      DistinctLast(objects);
      TagsLeadBack(table, attributes, objects);
    }
    ContainersInverse(value.tag);
    hide NameOf, TagOf, OneToOne, Nameable, ValueObjects, Tagged;
    r := ConvertAttributesToTemplateAttribute(table, converted);
  }

  lemma TagsLeadBack(table: seq<Entry>, attributes: seq<Attribute>, objects: seq<ValueObject>)
    requires OneToOne(table) && |attributes| == |objects|
    requires forall i :: 0 <= i < |objects| ==> Tagged(table, attributes[i], objects[i])
    ensures forall i :: 0 <= i < |objects| ==> NameOf(table, objects[i].tag) == attributes[i].attributeName
    ensures AllNamed(table, TagsOf(objects))
  {
    forall i | 0 <= i < |objects| ensures NameOf(table, objects[i].tag) == attributes[i].attributeName {
      LookupsInverse(table, attributes[i].attributeName.value, objects[i].tag);
    }
  }
}
