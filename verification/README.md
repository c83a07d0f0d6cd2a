# The KMIP codec of PyKMIP, from bits to whole keys

A Dafny model of the hand-written TTLV encoder and decoder of the library and of
the code around it that has to preserve meaning: the byte streams and primitives,
the structures of a key, templates and attribute lists, framing over a socket, the
two representation changes (template and attributes, client key and core key), and
the small cores for usage masks and owner names. The format is that of section 9.1
of the KMIP 1.1 specification, as the code writes and reads it.

## How the project is built

The wire format is defined once, in `Ttlv`, as functions over field lists: `Encode`
is what a write appends, `Decode` what a read consumes and returns, and `Writable`
when a write succeeds. A value is the state of an object; a decoded text remembers
whether it is *stale*, that is, whether its padding length was left at 8 although its
length is a multiple of 8, and a Boolean the length field it was read with.
`TtlvRoundTrip`, `TtlvCanonical` and `TtlvTheorems` prove what holds for every layout
and every value: encodings delimit themselves, decodings are canonical exactly when
the unchecked length fields are exact, and what was decoded and is written again
decodes again, and repeats its bytes, under exact conditions.

The classes of the source are classes here (`Streams`, `Primitives`, `Structures`,
`Attributes`, `AttributeLists`, `SplitKeys`, `Protocol`, `PieKeys`). Their `Read` and
`Write` methods consume and extend mutable streams step by step and are proved to do
what `Decode` and `Encode` say, so the theorems apply to them. `Conversions` works on
shared, mutable value objects in the heap, and `NameTable` is the table it looks names
up in. `Factory` is pure, like its source, and ends
with the theorem about whole keys.

The tables of the code (type numbers, tags, layouts, names) are checked against second
descriptions that do not use them: `PrimitiveBytes` gives every primitive byte by byte,
`AttributeNames` ties the two value factories to the table of names and tags, and
`WireImage` describes keys and other structures by the numbers of the standard. Where the code and its documentation differ, the
model follows the code.

Sharp edges of the code that the contracts state rather than hide:

- a text that was read and is written again gets eight extra zero bytes if its length
  is a multiple of 8, and breaks the structure around it;
- texts are ASCII only, in both directions;
- a Boolean is read whatever its length field says, and keeps and rewrites that length;
  the length of a structure that exceeds the stream is cut down to what is there;
- an attribute whose value is not of the class its name selects can be written;
- a BigInteger of length 0 passes the length check and then fails with an index error;
- an Interval may hold 2^32, which cannot be written;
- `KeyValue.read` and `Attributes.read` append to the lists they find, other structures
  keep old fields that are not in the encoding;
- a key information without parameters can be written and read but not converted back
  to a client key.

## Model

| member | source | states |
|---|---|---|
| `Streams.BytearrayStream.Read` | kmip/core/utils.py:92-100 | A read returns the first n bytes, or all there are: what is returned and what stays are together the old buffer, and a short result means an empty buffer. |
| `Streams.BytearrayStream.ReadInto` | kmip/core/utils.py:108-115 | The array is filled from the front with the first bytes of the buffer, as many as fit; the rest of the array and of the buffer is kept. |
| `Streams.BytearrayStream.Peek` | kmip/core/utils.py:117-121 | A prefix of the buffer of the length asked for, or the whole buffer; the stream does not change. |
| `Streams.BytearrayStream.Write` | kmip/core/utils.py:123-126 | The bytes are appended and counted. |
| `BitStrings.NegateIsNegation` | kmip/core/primitives.py:458-466 | Exchanging the digits up to the last one, the way read and write do it, is negation modulo 2^n on the value of the bit string, for every bit string that holds a one. |
| `BitStrings.FormatValue` | kmip/core/primitives.py:448-456 | Formatting a number in base two and parsing it again gives the number back, without a leading zero and with as many digits as its magnitude needs. |
| `BitStrings.BitLengthMeaning` | kmip/core/utils.py:23-26 | bit_length counts the binary digits; 0 has none, and a negative number counts the sign and the prefix as well. |
| `BitStrings.CountBytesMeaning` | kmip/core/utils.py:29-34 | count_bytes is at most k if and only if the number packs into k bytes. |
| `BitStrings.BigSizeHolds` | kmip/core/primitives.py:492-501 | The number of bytes written leaves the sign bit of the magnitude free, so the value fits its two's complement. |
| `BitStrings.BigSizeLeast` | kmip/core/primitives.py:492-501 | The size written is the least whole number of 64-bit words that holds the value, except exactly for -2^(64k-1), where it is one word more. |
| `BitStrings.SignExtension` | kmip/core/primitives.py:448-477 | Prefixing copies of the sign byte does not change the decoded value, so redundantly extended encodings mean the same. |
| `Bytes.PackUnpackS` | kmip/core/primitives.py:458-477 | Two's complement on n bytes is undone by the signed big-endian value, for every value that fits. |
| `Bytes.UnpackPackS` | kmip/core/primitives.py:458-477 | The signed value of every nonempty byte string fits its length and packs to the same bytes. |
| `StructureTheorems.BigIntegerRoundTrip` | kmip/core/primitives.py:429-513 | Every integer reads back from its encoding; the encoding has 8*(digits/64 + 1) bytes after the header, and its first bit is set exactly for negative values. |
| `Primitives.ReadHeader` | kmip/core/primitives.py:42-108 | Reading tag, type and length consumes 8 bytes and returns the length, or raises exactly the error that DecodeHeader gives for the stream. |
| `Primitives.WriteHeader` | kmip/core/primitives.py:109-141 | The header is appended if and only if the length fits four bytes; otherwise only tag and type have been written. |
| `Primitives.TagNext` | kmip/core/primitives.py:146-155 | Whether the next three bytes are the tag, without consuming anything; false on fewer bytes. |
| `Primitives.TypeNext` | kmip/core/primitives.py:157-170 | Whether the fourth byte is the type; false on fewer than four bytes. |
| `Primitives.CheckOversized` | kmip/core/primitives.py:42-45 | An error exactly if bytes are left. |
| `Primitives.LongInteger.Create` | kmip/core/primitives.py:371-391 | Construction succeeds exactly in the signed 64-bit range. |
| `Primitives.Interval.Create` | kmip/core/primitives.py:1114-1132 | Construction succeeds exactly from 0 to 2^32, which is one more than can be written. |
| `Primitives.Integer.Create` | kmip/core/primitives.py:190-204 | Construction succeeds exactly in the signed 32-bit range. |
| `Primitives.Integer.Read` | kmip/core/primitives.py:206-229 | It succeeds exactly for this tag, type 2, length 4, four bytes and four zero bytes; the value is their two's complement and what follows is left. Otherwise the error is that of Decode. |
| `Primitives.Integer.Write` | kmip/core/primitives.py:231-237 | Every valid Integer is appended as tag, type 2, length 4, two's complement and four zeros, which is its Encode. |
| `Primitives.LongInteger.Read` | kmip/core/primitives.py:331-355 | It succeeds exactly for this tag, type 3 for a LongInteger and 9 for a DateTime, length 8 and eight bytes, whose two's complement is the value. |
| `Primitives.LongInteger.Write` | kmip/core/primitives.py:357-369 | Every valid value is appended as tag, type 3 or, for a DateTime, 9, length 8 and two's complement. |
| `Primitives.BigInteger.ReadBits` | kmip/core/primitives.py:448-456 | The digits of length bytes, eight for each: their value is the unsigned big-endian value of the bytes and the first digit is the first bit. |
| `Primitives.BigInteger.SignedValue` | kmip/core/primitives.py:458-477 | The digits read as two's complement. |
| `Primitives.BigInteger.Read` | kmip/core/primitives.py:429-477 | It succeeds exactly for this tag, type 4 and a positive length that is a multiple of 8 and there; the value is the two's complement of all the bytes. Length 0 passes the check and then fails with IndexError. |
| `Primitives.BigInteger.TwosComplementBits` | kmip/core/primitives.py:479-501 | The digits have the length BigSize and the value of the two's complement, by padding and, for negative values, flipping and carrying. |
| `Primitives.BigInteger.BytesOf` | kmip/core/primitives.py:502-508 | Eight digits a byte: the bytes pack the value of the digits. |
| `Primitives.BigInteger.Write` | kmip/core/primitives.py:479-513 | It succeeds exactly if the size fits the length field, and appends tag, type 4, the size and the two's complement in that size. |
| `Primitives.Enumeration.Read` | kmip/core/primitives.py:583-616 | It succeeds exactly for this tag, type 5, length 4, a member of the class and four zero bytes. |
| `Primitives.Enumeration.Write` | kmip/core/primitives.py:618-631 | It succeeds exactly if there is a value, and appends tag, type 5, length 4, the number and four zeros. |
| `Primitives.Boolean.Read` | kmip/core/primitives.py:710-752 | It succeeds exactly for this tag, type 6 and eight bytes with the value 0 or 1, whatever the length field is; the object keeps that length. |
| `Primitives.Boolean.Write` | kmip/core/primitives.py:754-784 | For every object: it succeeds exactly if the length it holds fits four bytes, and appends tag, type 6, that length and eight bytes, so a Boolean read with a wrong length is written with it again. |
| `Primitives.TextString.Read` | kmip/core/primitives.py:841-867 | It succeeds exactly for this tag, type 7, a value of ASCII codes that is there and zeros up to the next whole word; the characters have these codes, and padding_length is left at 8 when the length is a multiple of 8. |
| `Primitives.TextString.Write` | kmip/core/primitives.py:869-880 | It succeeds exactly for ASCII text whose length fits, and appends tag, type 7, the length, one code for each character and padding_length zeros, the left-over 8 included. |
| `Primitives.ByteString.Read` | kmip/core/primitives.py:935-961 | It succeeds exactly for this tag, type 8, a value that is there and zeros up to the next whole word; padding_length is never left at 8. |
| `Primitives.ByteString.Write` | kmip/core/primitives.py:963-975 | It succeeds exactly if the length fits, and appends tag, type 8, the length, the bytes and the zeros. |
| `Primitives.Interval.Read` | kmip/core/primitives.py:1064-1097 | It succeeds exactly for this tag, type 10, length 4, four bytes and four zero bytes. |
| `Primitives.Interval.Write` | kmip/core/primitives.py:1099-1112 | It succeeds exactly below 2^32, as the accepted maximum 2^32 cannot be packed, and appends tag, type 10, length 4, the number and four zeros. |
| `PrimitiveBytes.HeaderRefused` | kmip/core/primitives.py:47-108 | The error for a short stream, for a number that is no tag, for another tag, for a number that is no type and for another type. |
| `PrimitiveBytes.NumberRefused` | kmip/core/primitives.py:206-1097 | The errors of Integer, LongInteger, DateTime, BigInteger, Boolean and Interval for a wrong length, a short stream, a value out of range and padding that is not zero, in the order of the checks. |
| `PrimitiveBytes.EnumerationRefused` | kmip/core/primitives.py:583-616 | The same for Enumeration, where membership is checked before the padding. |
| `PrimitiveBytes.ReadAsciiIff` | kmip/core/primitives.py:841-855 | Reading characters one by one succeeds exactly if the bytes are there and below 128, and gives the characters with these codes. |
| `TtlvRoundTrip.PrimitiveRoundTrip` | kmip/core/primitives.py:206-237 | Every writable primitive reads back its state from body and padding in front of any bytes, and leaves them, with eight extra zeros in front if the text was stale. |
| `TtlvRoundTrip.RoundTrip` | kmip/core/primitives.py:104-141 | For every layout of nested ordered fields with distinct tags, every writable state and every continuation: decoding the encoding gives the state back and leaves exactly the continuation, and fails exactly if a structure holds a stale text. |
| `TtlvRoundTrip.FieldsRoundTrip` | kmip/core/attributes.py:582-724 | A run of required, optional and repeated fields that look ahead by tag reads back as a whole if no field could take what follows. |
| `TtlvRoundTrip.ManyRoundTrip` | kmip/core/objects.py:3470-3480 | A loop that reads while its tag is next reads back exactly the list that was written. |
| `TtlvRoundTrip.AttributeRoundTrip` | kmip/core/objects.py:91-134 | Name, index and value of an attribute read back although the layout of the value is chosen from the decoded name. |
| `TtlvRoundTrip.TagOfEncoding` | kmip/core/primitives.py:146-155 | Looking ahead at an encoding finds its own tag and no other. |
| `TtlvCanonical.Aligned` | kmip/core/primitives.py:869-876 | Every encoding takes a multiple of 8 bytes. |
| `TtlvCanonical.Canonical` | kmip/core/primitives.py:104-108 | If the lengths that a write chooses anew, of structures and BigIntegers, are those that were read, the bytes consumed are the encoding of the decoded value with no text stale; Boolean lengths are kept and need no condition. |
| `TtlvCanonical.DecodedIsAged` | kmip/core/primitives.py:841-867 | In every decoded value, at every depth, a text is stale exactly if its length is a multiple of 8. |
| `TtlvTheorems.StructureRoundTrip` | kmip/core/objects.py:2174-2238 | A structure can be read back from its encoding exactly if none of its texts is stale, and the read leaves exactly what follows. |
| `TtlvTheorems.FreshRoundTrip` | kmip/core/objects.py:2174-2238 | Everything built from new objects reads back. |
| `TtlvTheorems.RewrittenText` | kmip/core/primitives.py:829-880 | For every decodable text: writing it again appends the bytes that were consumed, followed by exactly eight zeros if its length is a multiple of 8, and by nothing otherwise. |
| `TtlvTheorems.RewrittenPrimitive` | kmip/core/primitives.py:206-1112 | For every decodable primitive that is no text: writing it again repeats the bytes that were consumed, a Boolean with a wrong length included; for a BigInteger if and only if its length is the one a write chooses. |
| `TtlvTheorems.SecondGeneration` | kmip/core/primitives.py:841-880 | For every decodable byte string of a structure that is writable again: the rewritten bytes decode again, in front of any bytes, if and only if no text at any depth has a length that is a multiple of 8, and then to the same state. |
| `TtlvTheorems.RewrittenStructure` | kmip/core/objects.py:2174-2238 | Writing a decoded structure again repeats the consumed bytes if and only if no text has a length that is a multiple of 8, no structure length exceeded the stream and every BigInteger has the length a write chooses. |
| `TtlvTheorems.WrittenIsExact` | kmip/core/primitives.py:138-141 | What a write produces passes the exactness test when it is read. |
| `TtlvTheorems.CanonicalIff` | kmip/core/primitives.py:47-99 | A decodable byte string starts with the encoding of a new object with the decoded content if and only if structure and BigInteger lengths are exact and every Boolean has length 8. |
| `TtlvTheorems.InexactBoolean` | kmip/core/primitives.py:740-752 | A Boolean with length field 0 decodes, is written again with length 0, and a new object writes other bytes. |
| `TtlvTheorems.DecodedFieldPresent` | kmip/core/objects.py:2916-2939 | A field that may not be left out is there in every structure that was decoded. |
| `FieldIO.ReadNext` | kmip/core/attributes.py:593-600 | Reading one primitive field by look-ahead advances along the decoding of the whole structure: the value is the one the whole decoding has there, and an error means that it fails. |
| `FieldIO.ReadValue` | kmip/core/attributes.py:114-124 | Reading a structure of plain fields into new objects succeeds exactly when Decode does, with its value and its rest. |
| `FieldIO.WriteValue` | kmip/core/attributes.py:126-136 | Writing it succeeds exactly if it is writable, and appends Encode. |
| `FieldIO.WriteStruct` | kmip/core/objects.py:2236-2238 | The header with the length of the local stream and its bytes are appended, exactly if the length fits; this is Encode of the fields written so far. |
| `FieldIO.OverlayKeeps` | kmip/core/objects.py:2174-2204 | A read into an object that is in use replaces exactly the fields that are in the encoding. |
| `FieldIO.DecodeFieldsSplit` | kmip/core/objects.py:2174-2203 | Reading two runs of fields one after the other is reading the joined run. |
| `Structures.CryptographicParameters.Read` | kmip/core/attributes.py:582-675 | The read succeeds exactly when the decoding of the thirteen optional fields does; fields in the encoding replace the old ones, the others keep their state, and the stream is left behind the structure. |
| `Structures.CryptographicParameters.Write` | kmip/core/attributes.py:677-724 | The write succeeds exactly if the state is writable, and appends its Encode. |
| `Structures.KeyInformation.Read` | kmip/core/objects.py:2448-2490 | As the decoding says, for both key informations: an identifier is required, the parameters are read into a new object. |
| `Structures.KeyInformation.Write` | kmip/core/objects.py:2674-2710 | It succeeds exactly if there is an identifier and all parts are writable, and appends Encode. |
| `Structures.KeyWrappingData.Read` | kmip/core/objects.py:2916-2996 | As the decoding of its six fields says; fields that are not in the encoding keep their state. |
| `Structures.KeyWrappingData.Write` | kmip/core/objects.py:2998-3053 | It succeeds exactly if there is a wrapping method and all parts are writable, and appends Encode. |
| `Structures.KeyValue.Read` | kmip/core/objects.py:2322-2340 | As the decoding says; decoded attributes are appended to those the object already has, and structured key material is always refused. |
| `Structures.KeyValue.Write` | kmip/core/objects.py:2342-2352 | Exactly if material and attributes are writable; it appends the material and every attribute with the layout of its own value, which is the list of the wire format if the values are of the classes their names select. |
| `Structures.KeyBlock.Read` | kmip/core/objects.py:2174-2204 | As the decoding of its six fields says, with the key value and the wrapping data read into new objects. |
| `Structures.KeyBlock.Write` | kmip/core/objects.py:2206-2238 | It succeeds exactly if format and key value are there and all parts are writable, and appends their encoding, with the attributes in the layouts of their own values; this is the wire format if these are the selected ones. |
| `Structures.KeyBlockKey.Read` | kmip/core/secrets.py:154-162 | Reading a symmetric, public or private key gives exactly the decoded key block and leaves what follows. |
| `Structures.KeyBlockKey.Write` | kmip/core/secrets.py:164-172 | It succeeds exactly if there is a writable key block, and appends the encoding of the key, whatever the classes of its attribute values. |
| `StructureTheorems.ParametersIdentity` | kmip/core/attributes.py:582-724 | Cryptographic parameters come back exactly as written, for every presence pattern: absent stays absent, False and 0 stay present. |
| `StructureTheorems.WrappingRoundTrip` | kmip/core/objects.py:2916-3053 | Key wrapping data reads back exactly if no identifier in it is a stale text. |
| `StructureTheorems.SpecificationRoundTrip` | kmip/core/objects.py:3264-3389 | A key wrapping specification reads back exactly if no text in it is stale, with its repeated attribute names all there and in order. |
| `StructureTheorems.TemplateRoundTrip` | kmip/core/objects.py:3459-3499 | For every template of writable names and of attributes with a supported or custom name and a value of the class it selects: the decoding restores names, attribute names, indices and values in order. |
| `StructureTheorems.CredentialSecondGeneration` | kmip/core/objects.py:1485-1606 | Every decoded DeviceCredential that is not too long can be written; what is written decodes again if and only if none of its six texts has a length that is a multiple of 8, and repeats the consumed bytes if and only if, moreover, its length did not exceed the stream. |
| `Schemas.KeyWellFormed` | kmip/core/objects.py:2174-2204 | No two fields of a key or of a structure in it share a tag, so reading by look-ahead is unambiguous. |
| `Attributes.AttributeDecode` | kmip/core/objects.py:99-122 | An attribute decodes like an ordinary structure of the layout its name selects, and fails if the name selects none. |
| `Attributes.Attribute.Read` | kmip/core/objects.py:91-122 | Exactly when the decoding succeeds: name and value are replaced, an index that is not in the encoding is kept, and the value has the class that the name selects, which AttributeNames.FactoriesAgree fixes for every standard name. |
| `Attributes.Attribute.Write` | kmip/core/objects.py:124-134 | Exactly if name and value are there and writable; it appends the encoding with the layout of the value's own class, which is that of the attribute layout if the class is the selected one. |
| `Attributes.ReadAttributes` | kmip/core/objects.py:3475-3479 | The loop reads exactly the attributes of the decoding, each into an object of its own, and stops where the tag changes. |
| `Attributes.WriteAttributes` | kmip/core/objects.py:3490-3491 | The loop appends every attribute with the layout of its own value, in order, and fails only if one of them cannot be written. |
| `Attributes.TemplateAttribute.Read` | kmip/core/objects.py:3459-3482 | Both lists are emptied first; the result is exactly the decoded template. |
| `Attributes.TemplateAttribute.Write` | kmip/core/objects.py:3484-3499 | Exactly if names and attributes are writable; it appends the names and every attribute with the layout of its own value, which is Encode of the template if the values are of the selected classes. |
| `AttributeLists.Attributes.Read` | kmip/core/objects.py:838-885 | At KMIP 2.0 exactly when the list decodes, appending the decoded values to the list the object has, with the whole body consumed; an error at every other version. Which bytes are a value for which tag is AttributeNames.AcceptedValues. |
| `AttributeLists.Attributes.Write` | kmip/core/objects.py:887-926 | It succeeds exactly at KMIP 2.0 with attribute tags and writable values, and appends the encoded list. |
| `AttributeLists.ListRoundTrip` | kmip/core/objects.py:838-926 | Every list that can be written reads back in order, leaving exactly what follows, if and only if each value can be read by its tag; among lists of values of the factory's classes or of another type these are the lists in which every class is the factory's and no text is stale. |
| `AttributeLists.AnyItem` | kmip/core/objects.py:863-880 | One written value of any class in front of anything: by its tag it is read exactly if the factory builds its class and no text in it is stale, or builds another enumeration that has its number, or another structure that its own bytes decode as; otherwise the loop stops there. |
| `AttributeLists.UnsupportedItems` | kmip/core/factories/attribute_values.py:127-212 | A value that write accepts but the factory does not build stops the read of the whole list. |
| `AttributeNames.FactoriesAgree` | kmip/core/objects.py:104-118 | For all 84 names of the table: a name whose tag the KMIP 2.0 factory builds selects the same layout, seven more names have one, and every other name selects none. |
| `AttributeNames.CustomNames` | kmip/core/factories/attribute_values.py:119-125 | Every name that starts with x- selects a text. |
| `AttributeNames.AcceptedValues` | kmip/core/factories/attribute_values.py:127-212 | For each tag the KMIP 2.0 factory builds, the exact bytes that are read as its value: type 9 for the ten dates, 7 for the texts, 2 for the numbers, 6, 10, and 5 with a member for the enumerations; the four structures by their layout. |
| `AttributeNames.AttributeTagsListed` | kmip/core/enums.py:1920-2060 | is_attribute accepts exactly the tags of the table, and for KMIP 2.0 all of them but five. |
| `SplitKeys.SplitKey.Read` | kmip/core/secrets.py:402-492 | It succeeds exactly when the six fields decode and the prime field size is there if the method needs it; old fields stay where the encoding has none. |
| `SplitKeys.SplitKey.Write` | kmip/core/secrets.py:494-571 | It succeeds exactly if all parts are writable and the prime field size is there if the method needs it, and appends their encoding, whatever the classes of the attribute values; this is Encode of the split key if these are the selected ones. |
| `SplitKeys.SplitKeyWritable` | kmip/core/secrets.py:494-571 | The exact condition of the write in terms of the fields: five required ones, the prime field size for method 3 (polynomial sharing over a prime field), a writable key block and lengths that fit. |
| `SplitKeys.SplitKeyRoundTrip` | kmip/core/secrets.py:402-571 | What was written decodes to the same six fields, unless the key block holds a stale text. |
| `SplitKeys.DecodedIsComplete` | kmip/core/secrets.py:402-492 | Every decodable split key meets the condition of the write on which fields are there. |
| `Conversions.LookupsInverse` | kmip/core/enums.py:1769-1822 | In a one-to-one table the two lookups are inverse to each other, and neither knows ATTRIBUTE_VALUE. |
| `NameTable.TableOneToOne` | kmip/core/enums.py:1681-1766 | The 84 entries of the table are one-to-one, in names and in tags, and every tag in it passes is_attribute. |
| `NameTable.TableLookupsInverse` | kmip/core/enums.py:1769-1822 | In this table a name has a tag if and only if the tag has that name, and ATTRIBUTE_VALUE has none. |
| `Conversions.ConvertAttributeNameToTag` | kmip/core/enums.py:1769-1794 | The loop finds the tag of the first entry with the name, or raises ValueError. |
| `Conversions.ConvertAttributeTagToName` | kmip/core/enums.py:1797-1822 | The loop finds the name of the first entry with the tag, or raises ValueError. |
| `Conversions.Attribute.constructor` | kmip/core/objects.py:75-89 | A new attribute retags the value object it is given, which others may hold, to ATTRIBUTE_VALUE. |
| `Conversions.ConvertTemplateAttributeToAttributes` | kmip/core/objects.py:3569-3591 | It succeeds exactly if every attribute has a name in the table and a value; the same value objects are handed over, in order, each tagged by the last attribute that holds it, in the container that belongs to the template: common to common, private key to private key, public key to public key, and plain otherwise. |
| `Conversions.ConvertAttributesToTemplateAttribute` | kmip/core/objects.py:3594-3620 | It succeeds exactly if the value objects are pairwise distinct and all their tags have names; then each has an attribute named after its old tag, all carry ATTRIBUTE_VALUE, and the template is the common, private key, public key or plain one as the container was. |
| `Conversions.Spent` | kmip/core/objects.py:3594-3620 | After a conversion to a template the source list is not convertible any more. |
| `Conversions.ContainersInverse` | kmip/core/objects.py:3573-3614 | The four pairs of container tags by number, and the kind of container survives the way there and back from either side. |
| `Conversions.AttributesThereAndBack` | kmip/core/objects.py:3569-3620 | Attributes to template and back restores the same objects in the same order, every tag, every value and the kind of container. |
| `Conversions.TemplateThereAndBack` | kmip/core/objects.py:3569-3620 | Template to attributes and back works exactly if all names are in the table and no value is missing or shared, and then drops the names and the indices and nothing else. |
| `Protocol.KMIPProtocol.RecvAll` | kmip/services/kmip_protocol.py:58-72 | However the socket cuts the stream: exactly the bytes asked for, or RequestLengthMismatch with the number that was received; the loop ends because the bytes remaining decrease. |
| `Protocol.KMIPProtocol.Read` | kmip/services/kmip_protocol.py:42-56 | On any stream: EOFError if it is empty, RequestLengthMismatch(8, n) for n < 8 bytes, RequestLengthMismatch of the announced and the received payload if that is cut, and otherwise exactly the next frame, with what follows left. |
| `Protocol.FramesInOrder` | kmip/services/kmip_protocol.py:42-56 | k reads over k frames return them in order and leave what follows. |
| `Protocol.FailsInsideFrame` | kmip/services/kmip_protocol.py:58-72 | A read fails if and only if the stream is a proper beginning of some frame. |
| `Protocol.MessageIsFrame` | kmip/services/kmip_protocol.py:51-54 | Every structure the codec writes is one frame. |
| `Protocol.MessageArrives` | kmip/services/kmip_protocol.py:42-56 | An encoded structure is received whole, whatever is sent behind it, and decodes to what was sent. |
| `Masks.MembershipTests` | kmip/pie/sqltypes.py:74 | The two ways in which the code asks whether a flag is in a mask, nonzero and equal to the flag, agree for every flag and every integer. |
| `Masks.FlagsContiguous` | kmip/core/enums.py:302-328 | The three flag enumerations are the powers of two from 1 on, without a gap, 24, 14 and 3 of them. |
| `Masks.UsageMaskType.ProcessBindParam` | kmip/pie/sqltypes.py:46-60 | The stored integer has exactly the bits of the flags in the list. |
| `Masks.UsageMaskType.ProcessResultValue` | kmip/pie/sqltypes.py:62-76 | The flags that share a bit with the integer, in the order of declaration; none for None and 0. |
| `Masks.UsageMaskRoundTrip` | kmip/pie/sqltypes.py:46-76 | Storing a list of flags and loading it gives the members of the list among all flags. |
| `Masks.MembersOnce` | kmip/pie/sqltypes.py:62-76 | The members of a list among the flags are each there once, in the order of declaration. |
| `Masks.CompositeMask` | kmip/core/enums.py:1825-1857 | get_bit_mask_from_enumerations of the flags found in any integer is that integer cut down to the bits the enumeration has, and TypeError exactly if none is left. |
| `Masks.IsBitMask` | kmip/core/enums.py:1860-1895 | True exactly for 0 to 2^k - 1, where k is the number of flags of the class. |
| `Masks.CreateCryptographicUsageMask` | kmip/core/factories/attribute_values.py:274-281 | The flags or-ed together; no list gives no mask. |
| `PieKeys.Key.GetKeyWrappingData` | kmip/pie/objects.py:488-553 | Each column is shown at its path of names, the thirteen parameters of either key information included, if the dictionary, or the group, holds something; every level that holds nothing is replaced by an empty one. |
| `PieKeys.Key.SetKeyWrappingData` | kmip/pie/objects.py:560-625 | Every one of the 32 columns takes the value at its own path of names, None for what is missing; TypeError for what is no dictionary, AttributeError if a key information or its parameters is none. |
| `PieKeys.NormalForm` | kmip/pie/objects.py:488-625 | Setting and getting is the identity exactly on normal dictionaries, which are empty or complete at every level; its result is normal, so doing it twice is doing it once. |
| `PieKeys.ShownStateIsKept` | kmip/pie/objects.py:488-625 | From any state, setting what the getter shows leads to a state that shows the same. |
| `PieKeys.Collapse` | kmip/pie/objects.py:517-553 | A group collapses to an empty dictionary exactly if all its members are falsy, at each of the three levels. |
| `PieKeys.TruthyKept` | kmip/pie/objects.py:488-625 | Along every path that has a column, a value that is truthy before or after setting and getting is the same before and after. |
| `Factory.FieldBack` | kmip/core/attributes.py:315-580 | Setting a core field and getting it, also after a journey, gives the value back, for every value that the setter accepts. |
| `Factory.ParametersBack` | kmip/pie/factory.py:231-247 | A parameter dictionary is accepted exactly if every value has its type, and the core structure gives the same dictionary back. |
| `Factory.WrappingBuilt` | kmip/core/objects.py:2780-2793 | The wrapping data structure is built from the dictionary the getter shows exactly if all values have their types, and holds exactly these values. |
| `Factory.WrappingBack` | kmip/pie/factory.py:249-280 | The structure is taken apart without error exactly if every key information that is there has parameters, and then gives the same dictionary. |
| `Factory.WrappingWritable` | kmip/core/objects.py:2998-3053 | The wrapping data of a key can be written exactly if it has a method and its key informations have ASCII identifiers. |
| `Factory.CoreKeyWritable` | kmip/pie/factory.py:149-172 | A core key built from a valid client key can be written exactly if its wrapping data can and the whole fits its length field. |
| `Factory.KeyArrives` | kmip/pie/factory.py:87-172 | For every valid symmetric, public or private key: converting, encoding, decoding and converting back succeeds if and only if the key is sendable, and the key that arrives is equal in class, value, algorithm, length, format and wrapping data. |
| `Factory.Construction` | kmip/pie/objects.py:710-1083 | Which keys can be constructed: a known algorithm, for a symmetric key without wrapping data a value as long as it says, for public keys formats 1, 3 and 5, for private keys 1, 3 and 4. |
| `WireImage.ShippedBytes` | kmip/pie/factory.py:149-172 | The bytes of every valid client key: an independent description with the tag and type numbers of the standard, in which each parameter stands under its tag with the value at its path in the dictionary of the key, is what building the core key and encoding it gives. |
| `WireImage.ImageRead` | kmip/pie/factory.py:87-130 | Reading that description gives the key back, for every sendable key. |
| `WireImage.NameBytes` | kmip/core/attributes.py:126-135 | The bytes of a name: value, then type, under their tags. |
| `WireImage.DigestBytes` | kmip/core/attributes.py:924-940 | Algorithm, value and key format, in this order. |
| `WireImage.ApplicationSpecificInformationBytes` | kmip/core/attributes.py:1189-1225 | Namespace, then data. |
| `WireImage.CredentialBytes` | kmip/core/objects.py:1557-1606 | The six optional texts in their order, under their tags. |
| `WireImage.SpecificationBytes` | kmip/core/objects.py:3337-3389 | Method, both key informations, all attribute names and the encoding option. |
| `WireImage.SplitKeyBytes` | kmip/core/secrets.py:494-571 | Parts, identifier, threshold, method, prime field size and key block. |
| `WireImage.AttributeBytes` | kmip/core/objects.py:124-134 | Name, index and value of an attribute of any layout. |
| `WireImage.TemplateBytes` | kmip/core/objects.py:3484-3499 | All names, then all attributes. |
| `WireImage.KeyValueBytes` | kmip/core/objects.py:2342-2352 | The material, then all attributes. |
| `WireImage.Omissions` | kmip/core/objects.py:2174-2238 | Exactly which fields of the structures around a key can be left out, both when they are written and when they are read. |
| `Owners.UniqueParts` | kmip/core/utils.py:72-74 | A vCenter name determines its letter, its digits and its region, for every set of decimal digits without the dot. |
| `Owners.ZoneIff` | kmip/core/utils.py:71-77 | A zone is extracted exactly if the pattern matches, including its last anchor in front of a final line break, whichever characters count as digits. |
| `Owners.MatchOwnerIff` | kmip/core/utils.py:66-82 | Two names match if and only if both are vCenter names with the same letter and region, or neither is one and they are equal. |
| `Owners.ShardsMatch` | kmip/core/utils.py:66-82 | Two vCenter names match if and only if letter and region agree, whatever the digits. |
| `Owners.ShardAgainstOther` | kmip/core/utils.py:66-82 | A vCenter name never matches a name that is none. |

## Left out

- Structures.CryptographicParameters.Read: says when it fails, not with which exception; the same holds for the reads and writes of the other structures, while the primitives state their exceptions exactly.
- Structures.CryptographicParameters.ReadChoices: fields that were assigned before a read failed are not specified, here and in the other structures; what a failed write has appended is not specified either.
- Primitives.BigInteger.Write: the bytes of the header that a write of too long a value leaves behind are not specified, as for the other writes that fail.
- Masks.UsageMaskType.ProcessBindParam: takes the values of the flags; an argument that is no list is not modelled.
- Conversions.ConvertTemplateAttributeToAttributes: takes the name table as a parameter; that the constructor of Attributes accepts the tags follows from NameTable.TableOneToOne and is not part of this contract.
- PieKeys.Key.SetKeyWrappingData: which columns have been assigned before an error is not specified.
- Owners.ExtractVCenterAz: which characters are decimal digits is a parameter, of which only that the dot is none is used.
- BitStrings.CountBytes: divides exactly, where the source divides in floating point and truncates.
- Objects of the structures keep no length field: it is recomputed by every read and write before it is used.
- Primitive fields of structures are held as the states of their objects, not as objects; a shared primitive object is only modelled where it matters, in the conversions. Name, Digest, ApplicationSpecificInformation and the values of attributes are read and written through their field lists, without a class of their own.
- The thirteen parameter columns of each key information are one record field of the client key class, not thirteen fields.
- Dictionary keys are an enumeration with a case for all other strings, and Python identity and subclassing of values are not modelled.
- KMIP versions only matter for Attributes; the other structures ignore them in the source too.
- KeyMaterialStruct, which no read accepts, and Template, CurrentAttribute, NewAttribute, the converters of certificates, secret data, opaque objects and split keys, and their core structures.
- KeyWrappingSpecification, RNGParameters, ProfileInformation, ValidationInformation, CapabilityInformation, Nonce and the other credentials have no classes: further instances of the same field lists.
- Comparison, printing and logging methods, setters that only check types, exception texts.
- Certificates, cryptographic operations, the server engine, message payloads, TLS, configuration, the REST service, and the SQL mapping apart from the usage mask column.
