/** Reading and writing the fields of a structure one after the other, against
    the field lists of the wire format. */
module FieldIO {
  import opened Wrappers
  import opened Bytes
  import opened BitStrings
  import opened Enums
  import opened Streams
  import opened Ttlv
  import P = Primitives

  predicate IsPrimitive(kind: Kind) {
    !kind.StructK? && !kind.AttributeK?
  }

  /** A state that an object of this primitive class can have. An Interval can
      hold one value that does not pack, a TextString characters that do not. */
  predicate HeldPrimitive(kind: Kind, v: Value) {
    match (kind, v)
    case (IntegerK, Num(n)) => P.Integer.InRange(n)
    case (LongIntegerK, Num(n)) => FitsSigned(8, n)
    case (DateTimeK, Num(n)) => FitsSigned(8, n)
    case (BigIntegerK, Num(n)) => true
    case (EnumerationK(cls), Num(n)) => IsMember(cls, n)
    case (IntervalK, Num(n)) => P.Interval.InRange(n)
    case (BooleanK, Flag(_, length)) => length < Radix(4)
    case (TextStringK, Text(s, stale)) => stale ==> |s| % 8 == 0
    case (ByteStringK, Octets(bs)) => true
    case (_, _) => false
  }

  lemma DecodedIsHeld(kind: Kind, length: nat, s: seq<byte>)
    requires DecodePrimitive(kind, length, s).Ok? && length < Radix(4)
    ensures HeldPrimitive(kind, DecodePrimitive(kind, length, s).value.0)
  {
    hide UnpackU, Radix;
    match kind
    case IntegerK => P.SignedRange(s[..4]);
    case IntervalK => UnpackUBound(s[..4]); P.RadixFour();
    case LongIntegerK => UnpackPackS(s[..8]);
    case DateTimeK => UnpackPackS(s[..8]);
    case _ =>
  }

  /** Make a primitive object of the class and read it. */
  method ReadPrimitive(istream: BytearrayStream, tag: Tag, kind: Kind) returns (r: Result<Value>)
    requires IsPrimitive(kind)
    modifies istream
    ensures Decode(tag, kind, old(istream.buffer))
         == if r.Ok? then Ok((r.value, istream.buffer)) else Err(r.error)
    ensures r.Ok? ==> HeldPrimitive(kind, r.value)
  {
    ghost var s := istream.buffer;
    hide DecodeHeader;
    match kind {
      case IntegerK =>
        var o := new P.Integer(0, tag);
        var _ :- o.Read(istream);
        r := Ok(Num(o.value));
      case LongIntegerK =>
        var o := new P.LongInteger(kind, 0, tag);
        var _ :- o.Read(istream);
        r := Ok(Num(o.value));
      case DateTimeK =>
        var o := new P.LongInteger(kind, 0, tag);
        var _ :- o.Read(istream);
        r := Ok(Num(o.value));
      case BigIntegerK =>
        var o := new P.BigInteger(0, tag);
        var _ :- o.Read(istream);
        r := Ok(Num(o.value));
      case EnumerationK(cls) =>
        var o := new P.Enumeration(cls, None, tag);
        var _ :- o.Read(istream);
        r := Ok(Num(o.value.value));
      case BooleanK =>
        var o := new P.Boolean(true, tag);
        var _ :- o.Read(istream);
        r := Ok(Flag(o.value, o.length));
      case IntervalK =>
        var o := new P.Interval(0, tag);
        var _ :- o.Read(istream);
        r := Ok(Num(o.value));
      case TextStringK =>
        var o := new P.TextString("", tag);
        var _ :- o.Read(istream);
        r := Ok(Text(o.value, o.paddingLength == 8));
      case ByteStringK =>
        var o := new P.ByteString([], tag);
        var _ :- o.Read(istream);
        r := Ok(Octets(o.value));
    }
    var header := DecodeHeader(tag, TypeCode(kind), s).value;
    DecodedIsHeld(kind, header.0, header.1);
  }

  /** Write the primitive object of the class with this state. */
  method WritePrimitive(ostream: BytearrayStream, tag: Tag, kind: Kind, v: Value) returns (r: Result<()>)
    requires HeldPrimitive(kind, v)
    modifies ostream
    ensures r.Ok? <==> Writable(kind, v)
    ensures r.Ok? ==> ostream.buffer == old(ostream.buffer) + Encode(tag, kind, v)
  {
    hide Encode, Writable;
    match kind {
      case IntegerK =>
        var o := new P.Integer(v.n, tag);
        r := o.Write(ostream);
      case LongIntegerK =>
        var o := new P.LongInteger(kind, v.n, tag);
        r := o.Write(ostream);
      case DateTimeK =>
        var o := new P.LongInteger(kind, v.n, tag);
        r := o.Write(ostream);
      case BigIntegerK =>
        var o := new P.BigInteger(v.n, tag);
        r := o.Write(ostream);
      case EnumerationK(cls) =>
        var o := new P.Enumeration(cls, Some(v.n), tag);
        r := o.Write(ostream);
      case BooleanK =>
        var o := new P.Boolean(v.b, tag);
        o.length := v.length;
        r := o.Write(ostream);
      case IntervalK =>
        var o := new P.Interval(v.n, tag);
        r := o.Write(ostream);
      case TextStringK =>
        var o := new P.TextString(v.chars, tag);
        if v.stale {
          o.paddingLength := 8;
        }
        r := o.Write(ostream);
      case ByteStringK =>
        var o := new P.ByteString(v.bytes, tag);
        r := o.Write(ostream);
    }
  }

  // ---- field lists read so far

  /** A structure that is being read, and the stream it is read from. */
  datatype Trail = Trail(tag: Tag, source: seq<byte>, fields: seq<Field>) {
    ghost function Outcome(): Result<(Value, seq<byte>)> {
      Decode(tag, StructK(fields), source)
    }

    ghost function Body(): seq<byte>
      requires DecodeHeader(tag, 1, source).Ok?
    {
      var (length, s) := DecodeHeader(tag, 1, source).value;
      s[..Clamp(length, s)]
    }

    /** What follows the structure in the stream. */
    ghost function Rest(): seq<byte>
      requires DecodeHeader(tag, 1, source).Ok?
    {
      var (length, s) := DecodeHeader(tag, 1, source).value;
      s[Clamp(length, s)..]
    }

    /** The first k fields have been read and buffer is left of the body. */
    ghost predicate At(k: nat, buffer: seq<byte>) {
      && DecodeHeader(tag, 1, source).Ok? && k <= |fields|
      && var d := DecodeFields(fields[..k], Body());
      d.Ok? && d.value.1 == buffer
    }

    /** If the whole read succeeds, field k is this. */
    ghost predicate Took(k: nat, slot: Slot) {
      Outcome().Ok? ==>
        && Outcome().value.0.Struct? && |Outcome().value.0.slots| == |fields| && k < |fields|
        && Outcome().value.0.slots[k] == slot
    }
  }

  /** Reading into an object that is in use: a field that is not in the encoding
      keeps its old state. */
  function Over(was: Slot, read: Slot): Slot {
    if read.Absent? then was else read
  }

  function Overlay(was: Value, read: Value): Value
    requires was.Struct? && read.Struct? && |was.slots| == |read.slots|
  {
    Struct(seq(|was.slots|, i requires 0 <= i < |was.slots| => Over(was.slots[i], read.slots[i])))
  }

  lemma OverlayKeeps(was: Value, read: Value, i: nat)
    requires was.Struct? && read.Struct? && i < |was.slots| == |read.slots|
    ensures Overlay(was, read).slots[i] == if read.slots[i].Absent? then was.slots[i] else read.slots[i]
  {
  }

  /** If the whole read succeeds, field k of the object went from was to now. */
  ghost predicate Laid(trail: Trail, k: nat, was: Slot, now: Slot) {
    var d := trail.Outcome();
    d.Ok? ==>
      && d.value.0.Struct? && |d.value.0.slots| == |trail.fields| && k < |trail.fields|
      && now == Over(was, d.value.0.slots[k])
  }

  lemma AllTaken(trail: Trail, slots: seq<Slot>)
    requires |slots| == |trail.fields| && trail.Outcome().Ok?
    requires forall k :: 0 <= k < |slots| ==> trail.Took(k, slots[k])
    ensures trail.Outcome().value.0 == Struct(slots)
  {
    hide Decode;
    StructDecode(trail.tag, trail.fields, trail.source);
    assert forall k :: 0 <= k < |slots| ==> trail.Took(k, slots[k]);
  }

  lemma AllLaid(trail: Trail, was: seq<Slot>, now: seq<Slot>)
    requires |was| == |now| == |trail.fields| && trail.Outcome().Ok? && trail.Outcome().value.0.Struct?
    requires forall k :: 0 <= k < |was| ==> Laid(trail, k, was[k], now[k])
    ensures |trail.Outcome().value.0.slots| == |was|
    ensures Struct(now) == Overlay(Struct(was), trail.Outcome().value.0)
  {
    hide Decode;
    StructDecode(trail.tag, trail.fields, trail.source);
  }

  /** An object that held nothing takes over all that was read. */
  lemma NothingToKeep(was: Value, read: Value)
    requires was.Struct? && read.Struct? && |was.slots| == |read.slots|
    requires forall i :: 0 <= i < |was.slots| ==> was.slots[i].Absent?
    ensures Overlay(was, read) == read
  {
    assert Overlay(was, read).slots == read.slots;
  }

  lemma {:induction false} DecodeFieldsSplit(fs: seq<Field>, gs: seq<Field>, s: seq<byte>)
    ensures var first := DecodeFields(fs, s);
      if first.Err? then DecodeFields(fs + gs, s).Err?
      else
        var second := DecodeFields(gs, first.value.1);
        if second.Err? then DecodeFields(fs + gs, s).Err?
        else DecodeFields(fs + gs, s) == Ok((first.value.0 + second.value.0, second.value.1))
  {
    hide Decode;
    if fs == [] {
      assert fs + gs == gs;
      var second := DecodeFields(gs, s);
      assert second.Ok? ==> [] + second.value.0 == second.value.0;
    } else {
      assert (fs + gs)[1..] == fs[1..] + gs;
      var slot := DecodeSlot(fs[0], s);
      if slot.Ok? {
        DecodeFieldsSplit(fs[1..], gs, slot.value.1);
        var tail := DecodeFields(fs[1..], slot.value.1);
        if tail.Ok? {
          var second := DecodeFields(gs, tail.value.1);
          if second.Ok? {
            assert [slot.value.0] + (tail.value.0 + second.value.0)
                == [slot.value.0] + tail.value.0 + second.value.0;
          }
        }
      }
    }
  }

  /** One more field: the trail follows the list, and fails with it. */
  lemma TrailStep(trail: Trail, k: nat, buffer: seq<byte>)
    requires k < |trail.fields| && trail.At(k, buffer)
    ensures var d := DecodeSlot(trail.fields[k], buffer);
      if d.Ok? then trail.At(k + 1, d.value.1) && trail.Took(k, d.value.0) else trail.Outcome().Err?
  {
    hide Decode, DecodeSlot;
    var fs, f := trail.fields, trail.fields[k];
    StructDecode(trail.tag, fs, trail.source);
    assert fs[..k + 1] == fs[..k] + [f];
    assert fs == fs[..k + 1] + fs[k + 1..];
    DecodeFieldsSplit(fs[..k], [f], trail.Body());
    DecodeFieldsSplit(fs[..k + 1], fs[k + 1..], trail.Body());
    OneField(f, buffer);
  }

  /** The same step for an object that had a value in this field before. */
  lemma TrailStepOver(trail: Trail, k: nat, buffer: seq<byte>, was: Slot)
    requires k < |trail.fields| && trail.At(k, buffer)
    ensures var d := DecodeSlot(trail.fields[k], buffer);
      if d.Ok? then trail.At(k + 1, d.value.1) && Laid(trail, k, was, Over(was, d.value.0)) else trail.Outcome().Err?
  {
    hide Decode, DecodeSlot, Trail.At;
    TrailStep(trail, k, buffer);
  }

  /** The same step for an optional field. */
  lemma TrailStepOption(trail: Trail, k: nat, buffer: seq<byte>, was: Slot)
    requires k < |trail.fields| && trail.At(k, buffer) && trail.fields[k].mode.Optional?
    ensures var f := trail.fields[k];
      var d := Decode(f.tag, f.kind, buffer);
      if !IsTagNext(f.tag, buffer) then trail.At(k + 1, buffer) && Laid(trail, k, was, was)
      else if d.Ok? then trail.At(k + 1, d.value.1) && Laid(trail, k, was, One(d.value.0))
      else trail.Outcome().Err?
  {
    hide Decode, Trail.At, Laid;
    TrailStepOver(trail, k, buffer, was);
  }

  /** The same step for a repeated field. */
  lemma TrailStepMany(trail: Trail, k: nat, buffer: seq<byte>, was: Slot)
    requires k < |trail.fields| && trail.At(k, buffer) && trail.fields[k].mode.Repeated?
    ensures var d := DecodeMany(trail.fields[k], buffer);
      if d.Ok? then trail.At(k + 1, d.value.1) && Laid(trail, k, was, Many(d.value.0)) else trail.Outcome().Err?
  {
    hide DecodeMany, Decode, Trail.At, Laid;
    TrailStepOver(trail, k, buffer, was);
  }

  lemma OneField(f: Field, s: seq<byte>)
    ensures var d := DecodeSlot(f, s);
      if d.Err? then DecodeFields([f], s).Err? else DecodeFields([f], s) == Ok(([d.value.0], d.value.1))
  {
    hide Decode, DecodeSlot;
    var d := DecodeSlot(f, s);
    if d.Ok? {
      assert DecodeFields([f][1..], d.value.1) == Ok(([], d.value.1));
      assert [d.value.0] + [] == [d.value.0];
    }
  }

  /** The end of the list: the read is over, and complete if nothing is left. */
  lemma TrailEnd(trail: Trail, buffer: seq<byte>)
    requires trail.At(|trail.fields|, buffer)
    ensures trail.Outcome().Ok? <==> buffer == []
    ensures trail.Outcome().Ok? ==>
      trail.Outcome().value.0.Struct? && trail.Outcome().value.1 == trail.Rest()
  {
    hide DecodeHeader, DecodeFields;
    assert trail.fields[..|trail.fields|] == trail.fields;
    StructDecode(trail.tag, trail.fields, trail.source);
  }

  function SlotOf(o: Option<Value>): Slot {
    match o
    case None => Absent
    case Some(v) => One(v)
  }

  /** Read field k of the list, a primitive: always, or if its tag is next. */
  method ReadNext(t: BytearrayStream, f: Field, ghost trail: Trail, ghost k: nat) returns (r: Result<Option<Value>>)
    requires IsPrimitive(f.kind) && !f.mode.Repeated?
    requires k < |trail.fields| && trail.fields[k] == f && trail.At(k, t.buffer)
    modifies t
    ensures r.Ok? ==> trail.At(k + 1, t.buffer) && trail.Took(k, SlotOf(r.value))
    ensures r.Ok? && r.value.Some? ==> HeldPrimitive(f.kind, r.value.value)
    ensures r.Ok? && !f.mode.Optional? ==> r.value.Some?
    ensures r.Err? ==> trail.Outcome().Err?
  {
    hide Decode, HeldPrimitive;
    TrailStep(trail, k, t.buffer);
    hide Trail.At, Trail.Took;
    var present := P.TagNext(f.tag, t);
    if f.mode.Required? || present {
      var v :- ReadPrimitive(t, f.tag, f.kind);
      r := Ok(Some(v));
    } else if f.mode.Mandatory? {
      r := Err(f.mode.missing);
    } else {
      r := Ok(None);
    }
  }

  predicate HeldOption(kind: Kind, o: Option<Value>) {
    o.Some? ==> HeldPrimitive(kind, o.value)
  }

  /** Read field k, a primitive, into a field of the object. */
  method ReadOver(t: BytearrayStream, f: Field, was: Option<Value>, ghost trail: Trail, ghost k: nat)
    returns (r: Result<Option<Value>>)
    requires IsPrimitive(f.kind) && !f.mode.Repeated? && HeldOption(f.kind, was)
    requires k < |trail.fields| && trail.fields[k] == f && trail.At(k, t.buffer)
    modifies t
    ensures r.Ok? ==> trail.At(k + 1, t.buffer) && Laid(trail, k, SlotOf(was), SlotOf(r.value))
    ensures r.Ok? ==> HeldOption(f.kind, r.value)
    ensures r.Err? ==> trail.Outcome().Err?
  {
    hide Decode, HeldPrimitive, Trail.At;
    var o :- ReadNext(t, f, trail, k);
    r := Ok(if o.Some? then o else was);
  }

  /** Base.is_oversized at the end of the body. */
  method ReadEnd(t: BytearrayStream, ghost trail: Trail) returns (r: Result<()>)
    requires trail.At(|trail.fields|, t.buffer)
    ensures r.Ok? <==> trail.Outcome().Ok?
    ensures r.Ok? ==> trail.Outcome().value.0.Struct? && trail.Outcome().value.1 == trail.Rest()
  {
    TrailEnd(trail, t.buffer);
    r := P.CheckOversized(t);
  }

  /** Read field k, which is always there. */
  method ReadRequired(t: BytearrayStream, tag: Tag, kind: Kind, ghost was: Slot, ghost trail: Trail, ghost k: nat)
    returns (r: Result<Value>)
    requires Plain(kind)
    requires k < |trail.fields| && trail.fields[k] == Field(tag, kind, Required) && trail.At(k, t.buffer)
    modifies t
    ensures r.Ok? ==> Held(kind, r.value) && Decode(tag, kind, old(t.buffer)) == Ok((r.value, t.buffer))
    ensures r.Ok? ==> trail.At(k + 1, t.buffer) && Laid(trail, k, was, One(r.value))
    ensures r.Err? ==> trail.Outcome().Err? && Decode(tag, kind, old(t.buffer)).Err?
  {
    hide Decode, Trail.At, Laid, Plain, Held;
    TrailStepOver(trail, k, t.buffer, was);
    r := ReadValue(t, tag, kind);
  }

  // ---- field lists written so far

  ghost predicate Written(fs: seq<Field>, slots: seq<Slot>, k: nat, buffer: seq<byte>) {
    && k <= |fs| == |slots|
    && buffer == EncodeFields(fs[..k], slots[..k])
    && forall i :: 0 <= i < k ==> WritableSlot(fs[i], slots[i])
  }

  lemma {:induction false} EncodeFieldsSnoc(fs: seq<Field>, slots: seq<Slot>, f: Field, slot: Slot)
    requires |fs| == |slots|
    ensures EncodeFields(fs + [f], slots + [slot]) == EncodeFields(fs, slots) + EncodeSlot(f, slot)
  {
    hide Encode, EncodeSlot;
    if fs == [] {
      assert fs + [f] == [f] && slots + [slot] == [slot];
      assert EncodeFields([f][1..], [slot][1..]) == [];
    } else {
      assert (fs + [f])[1..] == fs[1..] + [f] && (slots + [slot])[1..] == slots[1..] + [slot];
      EncodeFieldsSnoc(fs[1..], slots[1..], f, slot);
    }
  }

  lemma WrittenNothing(fs: seq<Field>, slots: seq<Slot>)
    requires |fs| == |slots|
    ensures Written(fs, slots, 0, [])
  {
  }

  lemma MissingField(f: Field)
    ensures WritableSlot(f, Absent) <==> f.mode.Optional?
  {
  }

  lemma WrittenStep(fs: seq<Field>, slots: seq<Slot>, k: nat, buffer: seq<byte>)
    requires Written(fs, slots, k, buffer) && k < |fs| && WritableSlot(fs[k], slots[k])
    ensures Written(fs, slots, k + 1, buffer + EncodeSlot(fs[k], slots[k]))
  {
    hide Encode, EncodeSlot, WritableSlot;
    assert fs[..k + 1] == fs[..k] + [fs[k]] && slots[..k + 1] == slots[..k] + [slots[k]];
    EncodeFieldsSnoc(fs[..k], slots[..k], fs[k], slots[k]);
  }

  /** What writing or passing over field k amounts to. */
  lemma WrittenNext(fs: seq<Field>, slots: seq<Slot>, k: nat, buffer: seq<byte>)
    requires Written(fs, slots, k, buffer) && k < |fs| && !fs[k].mode.Repeated? && !slots[k].Many?
    ensures var (f, slot) := (fs[k], slots[k]);
      if slot.Absent? then
        if f.mode.Optional? then Written(fs, slots, k + 1, buffer) else !Writable(StructK(fs), Struct(slots))
      else if Writable(f.kind, slot.v) then Written(fs, slots, k + 1, buffer + Encode(f.tag, f.kind, slot.v))
      else !Writable(StructK(fs), Struct(slots))
  {
    assert |fs| == |slots|;
    hide Writable, Encode, Written;
    WrittenPrefix(fs, slots, k, buffer);
    if WritableSlot(fs[k], slots[k]) {
      WrittenStep(fs, slots, k, buffer);
      assert buffer + [] == buffer;
    }
  }

  /** The error for a field that is not there: the structures that report a bad
      encoding when they read it report an invalid field when they write. */
  function MissingOnWrite(mode: Mode): Error {
    if !mode.Mandatory? then AttributeError
    else if mode.missing == InvalidKmipEncoding then InvalidField
    else mode.missing
  }

  /** Write the next field of the list, a primitive, if it is there; a missing
      field that is not optional is an error. */
  method WriteNext(t: BytearrayStream, f: Field, o: Option<Value>,
                   ghost fs: seq<Field>, ghost slots: seq<Slot>, ghost k: nat) returns (r: Result<()>)
    requires IsPrimitive(f.kind) && !f.mode.Repeated? && HeldOption(f.kind, o)
    requires k < |fs| == |slots| && Written(fs, slots, k, t.buffer) && fs[k] == f && slots[k] == SlotOf(o)
    modifies t
    ensures r.Ok? ==> Written(fs, slots, k + 1, t.buffer)
    ensures r.Err? ==> !Writable(StructK(fs), Struct(slots))
  {
    WrittenPrefix(fs, slots, k, t.buffer);
    hide Written;
    if o.Some? {
      r := WritePrimitive(t, f.tag, f.kind, o.value);
    } else if f.mode.Optional? {
      r := Ok(());
    } else {
      r := Err(MissingOnWrite(f.mode));
    }
    if r.Ok? {
      assert t.buffer == old(t.buffer) + EncodeSlot(fs[k], slots[k]);
      WrittenStep(fs, slots, k, old(t.buffer));
    }
  }

  // ---- structures

  /** The header of a structure and the local stream of its body. */
  method ReadBody(istream: BytearrayStream, ghost trail: Trail, tag: Tag) returns (r: Result<BytearrayStream>)
    requires trail.tag == tag && trail.source == istream.buffer
    modifies istream
    ensures r.Err? ==> trail.Outcome().Err?
    ensures r.Ok? ==> fresh(r.value) && trail.At(0, r.value.buffer) && istream.buffer == trail.Rest()
  {
    hide DecodeHeader;
    var length :- P.ReadHeader(istream, tag, 1);
    var body := istream.Read(length);
    var t := new BytearrayStream(body);
    assert trail.fields[..0] == [];
    r := Ok(t);
  }

  /** What a struct read amounts to once its body has been read. */
  lemma StructDecode(tag: Tag, fs: seq<Field>, s: seq<byte>)
    ensures var h := DecodeHeader(tag, 1, s);
      var d := Decode(tag, StructK(fs), s);
      if h.Err? then d.Err?
      else
        var (length, rest) := h.value;
        var fields := DecodeFields(fs, rest[..Clamp(length, rest)]);
        if fields.Err? || fields.value.1 != [] then d.Err?
        else d == Ok((Struct(fields.value.0), rest[Clamp(length, rest)..]))
  {
    hide DecodeHeader, DecodeFields;
  }

  /** The header and body of a structure, once its fields are in a local stream. */
  method WriteStruct(ostream: BytearrayStream, tag: Tag, t: BytearrayStream,
                     ghost fs: seq<Field>, ghost slots: seq<Slot>) returns (r: Result<()>)
    requires t != ostream
    modifies ostream
    ensures r.Ok? <==> |t.buffer| < Radix(4)
    ensures r.Ok? ==> ostream.buffer == old(ostream.buffer) + (Header(tag, 1, |t.buffer|) + t.buffer)
    ensures Written(fs, slots, |fs|, t.buffer) ==>
      && (r.Ok? <==> Writable(StructK(fs), Struct(slots)))
      && (r.Ok? ==> ostream.buffer == old(ostream.buffer) + Encode(tag, StructK(fs), Struct(slots)))
  {
    hide Header, Radix;
    if Written(fs, slots, |fs|, t.buffer) {
      WrittenStruct(tag, fs, slots, t.buffer);
    }
    hide Written, Writable, Encode;
    var _ :- P.WriteHeader(ostream, tag, 1, |t.buffer|);
    var _ := ostream.Write(t.buffer);
    r := Ok(());
  }

  lemma WrittenStruct(tag: Tag, fs: seq<Field>, slots: seq<Slot>, body: seq<byte>)
    requires Written(fs, slots, |fs|, body)
    ensures Writable(StructK(fs), Struct(slots)) <==> |body| < Radix(4)
    ensures Encode(tag, StructK(fs), Struct(slots)) == Header(tag, 1, |body|) + body
  {
    hide PrimitiveBody, Radix, WritableSlot, Header;
    assert fs[..|fs|] == fs && slots[..|slots|] == slots;
    assert body == Body(StructK(fs), Struct(slots));
    assert body + Zeros(0) == body;
  }

  // ---- two layouts for the same bytes

  /** Both states write the same bytes, and one can be written if the other can. */
  ghost predicate Alike(tag: Tag, kind: Kind, v: Value, kind': Kind, v': Value) {
    Encode(tag, kind, v) == Encode(tag, kind', v') && (Writable(kind, v) <==> Writable(kind', v'))
  }

  ghost predicate AlikeSlots(f: Field, slot: Slot, f': Field, slot': Slot) {
    EncodeSlot(f, slot) == EncodeSlot(f', slot') && (WritableSlot(f, slot) <==> WritableSlot(f', slot'))
  }

  lemma AlikeOne(f: Field, v: Value, f': Field, v': Value)
    requires f.tag == f'.tag && f.mode == f'.mode && Alike(f.tag, f.kind, v, f'.kind, v')
    ensures AlikeSlots(f, One(v), f', One(v'))
  {
    hide Encode, Writable;
  }

  lemma AlikeNone(f: Field, f': Field)
    requires f.mode == f'.mode
    ensures AlikeSlots(f, Absent, f', Absent)
  {
  }

  lemma {:induction false} EncodeFieldsJoin(fs: seq<Field>, slots: seq<Slot>, gs: seq<Field>, more: seq<Slot>)
    requires |fs| == |slots|
    ensures EncodeFields(fs + gs, slots + more) == EncodeFields(fs, slots) + EncodeFields(gs, more)
  {
    hide Encode, EncodeSlot;
    if fs == [] {
      assert fs + gs == gs && slots + more == more;
    } else {
      assert (fs + gs)[1..] == fs[1..] + gs && (slots + more)[1..] == slots[1..] + more;
      EncodeFieldsJoin(fs[1..], slots[1..], gs, more);
    }
  }

  lemma AlikeStructs(tag: Tag, fs: seq<Field>, slots: seq<Slot>, fs': seq<Field>, slots': seq<Slot>)
    requires EncodeFields(fs, slots) == EncodeFields(fs', slots')
    requires WritableFields(fs, slots) <==> WritableFields(fs', slots')
    ensures Alike(tag, StructK(fs), Struct(slots), StructK(fs'), Struct(slots'))
  {
    hide EncodeFields, WritableFields, WritableSlot, Header, PrimitiveBody, WritablePrimitive, Radix;
    assert Body(StructK(fs), Struct(slots)) == EncodeFields(fs, slots);
    assert Body(StructK(fs'), Struct(slots')) == EncodeFields(fs', slots');
    assert Encode(tag, StructK(fs), Struct(slots)) == Encode(tag, StructK(fs'), Struct(slots'));
    assert Writable(StructK(fs), Struct(slots)) == Writable(StructK(fs'), Struct(slots'));
  }

  /** Exchanging one field for an alike one. */
  lemma AlikeUpdate(tag: Tag, fs: seq<Field>, slots: seq<Slot>, k: nat, f: Field, slot: Slot)
    requires k < |fs| == |slots| && AlikeSlots(f, slot, fs[k], slots[k])
    ensures Alike(tag, StructK(fs[k := f]), Struct(slots[k := slot]), StructK(fs), Struct(slots))
  {
    hide EncodeSlot, WritableSlot, Encode, Writable, Alike;
    var fs', slots' := fs[k := f], slots[k := slot];
    assert fs == fs[..k] + ([fs[k]] + fs[k + 1..]) && slots == slots[..k] + ([slots[k]] + slots[k + 1..]);
    assert fs' == fs[..k] + ([f] + fs[k + 1..]) && slots' == slots[..k] + ([slot] + slots[k + 1..]);
    EncodeFieldsJoin(fs[..k], slots[..k], [fs[k]] + fs[k + 1..], [slots[k]] + slots[k + 1..]);
    EncodeFieldsJoin(fs[..k], slots[..k], [f] + fs[k + 1..], [slot] + slots[k + 1..]);
    FirstField(fs[k], slots[k], fs[k + 1..], slots[k + 1..]);
    FirstField(f, slot, fs[k + 1..], slots[k + 1..]);
    assert WritableFields(fs', slots') <==> WritableFields(fs, slots) by {
      assert forall i :: 0 <= i < |fs| && i != k ==> fs'[i] == fs[i] && slots'[i] == slots[i];
      assert WritableSlot(fs'[k], slots'[k]) <==> WritableSlot(fs[k], slots[k]);
    }
    AlikeStructs(tag, fs', slots', fs, slots);
  }

  lemma FirstField(f: Field, slot: Slot, fs: seq<Field>, slots: seq<Slot>)
    ensures EncodeFields([f] + fs, [slot] + slots) == EncodeSlot(f, slot) + EncodeFields(fs, slots)
    ensures WritableFields([f] + fs, [slot] + slots) <==> WritableSlot(f, slot) && WritableFields(fs, slots)
  {
    hide Encode, EncodeSlot;
    assert ([f] + fs)[1..] == fs && ([slot] + slots)[1..] == slots;
    FirstWritable(f, slot, fs, slots);
  }

  lemma FirstWritable(f: Field, slot: Slot, fs: seq<Field>, slots: seq<Slot>)
    ensures WritableFields([f] + fs, [slot] + slots) <==> WritableSlot(f, slot) && WritableFields(fs, slots)
  {
    hide WritableSlot;
    var more, others := [f] + fs, [slot] + slots;
    if WritableFields(more, others) {
      assert WritableSlot(more[0], others[0]);
      forall i | 0 <= i < |fs| ensures WritableSlot(fs[i], slots[i]) {
        assert WritableSlot(more[i + 1], others[i + 1]);
      }
    }
  }

  // ---- structures that hold only primitives and such structures

  /** No attributes and no repetition inside. */
  predicate Plain(kind: Kind)
    decreases kind
  {
    match kind
    case StructK(fs) => forall i :: 0 <= i < |fs| ==> !fs[i].mode.Repeated? && Plain(fs[i].kind)
    case AttributeK(_) => false
    case _ => true
  }

  /** A state that an object of a plain layout can have. */
  predicate Held(kind: Kind, v: Value)
    decreases v, 0
  {
    match (kind, v)
    case (StructK(fs), Struct(slots)) => HeldFields(fs, slots)
    case (StructK(fs), _) => false
    case (_, _) => HeldPrimitive(kind, v)
  }

  predicate HeldFields(fs: seq<Field>, slots: seq<Slot>)
    decreases slots, 0
  {
    |fs| == |slots| && forall i :: 0 <= i < |fs| ==> HeldSlot(fs[i], slots[i])
  }

  predicate HeldSlot(f: Field, slot: Slot)
    decreases slot, 0
  {
    match slot
    case Absent => true
    case One(v) => Held(f.kind, v)
    case Many(_) => false
  }

  /** Read a value of a plain layout: a primitive, or its fields in order. */
  method ReadValue(istream: BytearrayStream, tag: Tag, kind: Kind) returns (r: Result<Value>)
    requires Plain(kind)
    modifies istream
    ensures var d := Decode(tag, kind, old(istream.buffer));
      if r.Ok? then d == Ok((r.value, istream.buffer)) else d.Err?
    ensures r.Ok? ==> Held(kind, r.value)
    decreases kind
  {
    if IsPrimitive(kind) {
      r := ReadPrimitive(istream, tag, kind);
    } else {
      hide DecodeHeader, DecodeSlot, Decode;
      ghost var trail := Trail(tag, istream.buffer, kind.fields);
      var t :- ReadBody(istream, trail, tag);
      var slots := [];
      for i := 0 to |kind.fields|
        modifies t
        invariant |slots| == i && trail.At(i, t.buffer)
        invariant forall j :: 0 <= j < i ==> trail.Took(j, slots[j]) && HeldSlot(kind.fields[j], slots[j])
      {
        TrailStep(trail, i, t.buffer);
        hide Trail.At, Trail.Took, HeldSlot;
        var slot :- ReadSlot(t, kind.fields[i]);
        slots := slots + [slot];
      }
      hide HeldSlot;
      var _ :- ReadEnd(t, trail);
      AllTaken(trail, slots);
      r := Ok(Struct(slots));
    }
  }

  method ReadSlot(t: BytearrayStream, f: Field) returns (r: Result<Slot>)
    requires Plain(f.kind) && !f.mode.Repeated?
    modifies t
    ensures var d := DecodeSlot(f, old(t.buffer));
      if r.Ok? then d == Ok((r.value, t.buffer)) else d.Err?
    ensures r.Ok? ==> HeldSlot(f, r.value)
    decreases f
  {
    hide Decode;
    var present := P.TagNext(f.tag, t);
    if f.mode.Required? || present {
      var v :- ReadValue(t, f.tag, f.kind);
      r := Ok(One(v));
    } else if f.mode.Mandatory? {
      r := Err(f.mode.missing);
    } else {
      r := Ok(Absent);
    }
  }

  /** Write a value of a plain layout. */
  method WriteValue(ostream: BytearrayStream, tag: Tag, kind: Kind, v: Value) returns (r: Result<()>)
    requires Plain(kind) && Held(kind, v)
    modifies ostream
    ensures r.Ok? <==> Writable(kind, v)
    ensures r.Ok? ==> ostream.buffer == old(ostream.buffer) + Encode(tag, kind, v)
    decreases kind
  {
    if IsPrimitive(kind) {
      r := WritePrimitive(ostream, tag, kind, v);
    } else {
      hide PrimitiveBody, WritableSlot, EncodeSlot, Encode, HeldSlot;
      var fs, slots := kind.fields, v.slots;
      var t := new BytearrayStream([]);
      assert Written(fs, slots, 0, t.buffer);
      for i := 0 to |fs|
        modifies t
        invariant Written(fs, slots, i, t.buffer)
      {
        WrittenPrefix(fs, slots, i, t.buffer);
        var before := t.buffer;
        var _ :- WriteSlot(t, fs[i], slots[i]);
        WrittenStep(fs, slots, i, before);
      }
      r := WriteStruct(ostream, tag, t, fs, slots);
    }
  }

  lemma WrittenPrefix(fs: seq<Field>, slots: seq<Slot>, k: nat, buffer: seq<byte>)
    requires Written(fs, slots, k, buffer) && k < |fs|
    ensures Writable(StructK(fs), Struct(slots)) ==> WritableSlot(fs[k], slots[k])
  {
    hide WritableSlot;
    if Writable(StructK(fs), Struct(slots)) {
      assert WritableFields(fs, slots);
    }
  }

  method WriteSlot(t: BytearrayStream, f: Field, slot: Slot) returns (r: Result<()>)
    requires Plain(f.kind) && !f.mode.Repeated? && HeldSlot(f, slot)
    modifies t
    ensures r.Ok? <==> WritableSlot(f, slot)
    ensures r.Ok? ==> t.buffer == old(t.buffer) + EncodeSlot(f, slot)
    decreases f
  {
    if slot.One? {
      r := WriteValue(t, f.tag, f.kind, slot.v);
    } else if f.mode.Optional? {
      r := Ok(());
    } else {
      r := Err(MissingOnWrite(f.mode));
    }
  }

  /** Write the next field of the list, of any plain layout. */
  method WriteField(t: BytearrayStream, f: Field, slot: Slot,
                    ghost fs: seq<Field>, ghost slots: seq<Slot>, ghost k: nat) returns (r: Result<()>)
    requires Plain(f.kind) && !f.mode.Repeated? && HeldSlot(f, slot)
    requires k < |fs| == |slots| && Written(fs, slots, k, t.buffer) && fs[k] == f && slots[k] == slot
    modifies t
    ensures r.Ok? ==> Written(fs, slots, k + 1, t.buffer)
    ensures r.Err? ==> !Writable(StructK(fs), Struct(slots))
  {
    hide Written, Plain, HeldSlot, WritableSlot, EncodeSlot, Writable;
    WrittenPrefix(fs, slots, k, t.buffer);
    r := WriteSlot(t, f, slot);
    if r.Ok? {
      WrittenStep(fs, slots, k, old(t.buffer));
    }
  }
}
