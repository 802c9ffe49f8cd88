/** hpack_encode_headers: every field as a literal without indexing, and its inverse. */
module HpackEncoder {
  import opened Prelude
  import opened Text
  import opened Sequences
  import opened Buffers
  import opened HpackInteger
  import opened HpackString
  import opened HpackTable
  import opened HpackDecoding

  /** The first static entry from `from` on with this name, counted from 1. */
  function NameIndex(entries: seq<Header>, name: Str, from: nat := 0): (index: Option<nat>)
    ensures index.Some? ==> from < index.value <= |entries| && entries[index.value - 1].name == name
    decreases |entries| - from
  {
    if from >= |entries| then None
    else if entries[from].name == name then Some(from + 1)
    else NameIndex(entries, name, from + 1)
  }

  /** hpack_static_name_index */
  method HpackStaticNameIndex(codec: Codec, name: Str) returns (index: Option<nat>)
    requires |codec.staticTable| == 61
    ensures index == NameIndex(codec.staticTable, name)
  {
    for i := 0 to 61
      invariant NameIndex(codec.staticTable, name) == NameIndex(codec.staticTable, name, i)
    {
      if codec.staticTable[i].name == name {
        return Some(i + 1);
      }
    }
    return None;
  }

  function LowerName(header: Header): Header {
    header.(name := Lower(header.name))
  }

  function LowerNames(headers: seq<Header>): seq<Header> {
    if headers == [] then [] else [LowerName(headers[0])] + LowerNames(headers[1..])
  }

  /** A string behind its length, which is cut to 32 bits. */
  function StringBytes(value: Str): (bytes: seq<byte>)
    ensures bytes != []
  {
    IntegerBytes(0, 7, Wrap32(|value|), 0) + value
  }

  function NameBytes(codec: Codec, name: Str): (bytes: seq<byte>)
    requires |codec.staticTable| == 61
  {
    match NameIndex(codec.staticTable, name)
    case Some(index) => IntegerBytes(0, 4, index, 0)
    case None => IntegerBytes(0, 4, 0, 0) + StringBytes(name)
  }

  function HeaderBytes(codec: Codec, header: Header): seq<byte>
    requires |codec.staticTable| == 61
  {
    var field := LowerName(header);
    NameBytes(codec, field.name) + StringBytes(field.value)
  }

  function HeadersBytes(codec: Codec, headers: seq<Header>): seq<byte>
    requires |codec.staticTable| == 61
  {
    if headers == [] then []
    else HeaderBytes(codec, headers[0]) + HeadersBytes(codec, headers[1..])
  }

  lemma NextHeader(codec: Codec, out: seq<byte>, headers: seq<Header>, i: nat)
    requires |codec.staticTable| == 61 && i < |headers|
    ensures out + HeadersBytes(codec, headers[i..]) ==
            out + HeaderBytes(codec, headers[i]) + HeadersBytes(codec, headers[i + 1..])
  {
    assert headers[i..][1..] == headers[i + 1..];
    var first, rest := HeaderBytes(codec, headers[i]), HeadersBytes(codec, headers[i + 1..]);
    assert out + (first + rest) == out + first + rest;
  }

  /** The name of a field: the index of a static entry, or a string. */
  method HpackEncodeName(codec: Codec, out: seq<byte>, name: Str) returns (result: seq<byte>)
    requires |codec.staticTable| == 61
    ensures result == out + NameBytes(codec, name)
  {
    var index := HpackStaticNameIndex(codec, name);
    if index.Some? {
      result := HpackEncodeInt(out, 0, 4, index.value);
    } else {
      result := HpackEncodeInt(out, 0, 4, 0);
      result := HpackEncodeString(result, name);
      Assoc(out, IntegerBytes(0, 4, 0, 0), StringBytes(name));
    }
  }

  method HpackEncodeHeader(codec: Codec, out: seq<byte>, header: Header) returns (result: seq<byte>)
    requires |codec.staticTable| == 61
    ensures result == out + HeaderBytes(codec, header)
  {
    var name := Lower(header.name);
    result := HpackEncodeName(codec, out, name);
    result := HpackEncodeString(result, header.value);
    Assoc(out, NameBytes(codec, name), StringBytes(header.value));
  }

  method HpackEncodeHeaders(codec: Codec, headers: seq<Header>) returns (result: seq<byte>)
    requires |codec.staticTable| == 61
    ensures result == HeadersBytes(codec, headers)
  {
    result := [];
    assert headers[0..] == headers;
    for i := 0 to |headers|
      invariant result + HeadersBytes(codec, headers[i..]) == HeadersBytes(codec, headers)
    {
      NextHeader(codec, result, headers, i);
      result := HpackEncodeHeader(codec, result, headers[i]);
    }
  }

  // ----- Decoding what was encoded

  /** The strings written out have lengths of 32 bits. */
  predicate HeaderFits(codec: Codec, header: Header)
    requires |codec.staticTable| == 61
  {
    FieldFits(codec, LowerName(header))
  }

  predicate ValidHeader(header: Header) {
    Utf8(header.name) && Utf8(header.value)
  }

  lemma {:induction false} StringReads(codec: Codec, block: seq<byte>, position: nat, value: Str)
    requires Utf8(value) && Holds(block, position, StringBytes(value))
    ensures |value| < U32 ==> DecodeString(codec.huffman, block, position) ==
                              Ok(Read(value, position + |StringBytes(value)|))
    ensures |value| >= U32 ==> var r := DecodeString(codec.huffman, block, position);
                               r.Ok? ==> r.value.value != value
  {
    var cut := Wrap32(|value|);
    var len := IntegerBytes(0, 7, cut, 0);
    var literal := Literal(false, value[..cut], 0);
    assert value == value[..cut] + value[cut..];
    assert StringBytes(value) == LiteralBytes(literal) + value[cut..];
    HoldsConcat(block, position, LiteralBytes(literal), value[cut..]);
    EncodedIntegerIsShort(0, 7, cut);
    LiteralReads(codec.huffman, block, position, literal);
    if |value| < U32 {
      assert value[..cut] == value;
    }
  }

  /** A name stands at `position` with a prefix of four bits, and is read as `r`. */
  ghost predicate NameReadAs(codec: Codec, block: seq<byte>, position: nat, table: DynamicTable, r: Result<Read<Str>>)
    requires |codec.staticTable| == 61
  {
    && position < |block| && block[position] < 16 && DecodeInteger(block, position, 4).Ok?
    && FieldName(codec, block, table, DecodeInteger(block, position, 4).value) == r
  }

  lemma {:induction false} IndexReads(block: seq<byte>, position: nat, index: nat)
    requires index < U32 && Holds(block, position, IntegerBytes(0, 4, index, 0))
    ensures position < |block| && block[position] < 16
    ensures DecodeInteger(block, position, 4) == Ok(Read(index, position + |IntegerBytes(0, 4, index, 0)|))
  {
    EncodedIntegerIsShort(0, 4, index);
    IntegerRoundTrip(block, position, 0, 4, index, 0);
    HeldAt(block, position, IntegerBytes(0, 4, index, 0), 0);
  }

  lemma {:induction false} StaticNameReads(codec: Codec, block: seq<byte>, position: nat, table: DynamicTable,
                                           name: Str, index: nat, next: nat)
    requires |codec.staticTable| == 61 && NameIndex(codec.staticTable, name) == Some(index)
    requires Holds(block, position, IntegerBytes(0, 4, index, 0)) && next == position + |IntegerBytes(0, 4, index, 0)|
    ensures NameReadAs(codec, block, position, table, Ok(Read(name, next)))
  {
    IndexReads(block, position, index);
  }

  /** The name is `name`, read up to `next`, or if it does not fit, some other. */
  predicate ReadsName(r: Result<Read<Str>>, name: Str, next: nat, fits: bool) {
    if fits then r == Ok(Read(name, next)) else r.Ok? ==> r.value.value != name
  }

  lemma {:induction false} NewNameReads(codec: Codec, block: seq<byte>, position: nat, table: DynamicTable, name: Str,
                                        value: nat, next: nat)
      returns (r: Result<Read<Str>>)
    requires |codec.staticTable| == 61 && Utf8(name)
    requires Holds(block, position, IntegerBytes(0, 4, 0, 0)) && value == position + |IntegerBytes(0, 4, 0, 0)|
    requires Holds(block, value, StringBytes(name)) && next == value + |StringBytes(name)|
    ensures NameReadAs(codec, block, position, table, r) && ReadsName(r, name, next, |name| < U32)
  {
    IndexReads(block, position, 0);
    StringReads(codec, block, value, name);
    r := FieldName(codec, block, table, DecodeInteger(block, position, 4).value);
  }

  lemma {:induction false} NameReads(codec: Codec, block: seq<byte>, position: nat, table: DynamicTable, name: Str,
                                     next: nat)
      returns (r: Result<Read<Str>>)
    requires |codec.staticTable| == 61 && Utf8(name)
    requires Holds(block, position, NameBytes(codec, name)) && next == position + |NameBytes(codec, name)|
    ensures NameReadAs(codec, block, position, table, r) && ReadsName(r, name, next, NameFits(codec, name))
  {
    match NameIndex(codec.staticTable, name)
    case Some(index) =>
      StaticNameReads(codec, block, position, table, name, index, next);
      r := Ok(Read(name, next));
    case None =>
      var value := HoldsFirst(block, position, IntegerBytes(0, 4, 0, 0), StringBytes(name));
      r := NewNameReads(codec, block, position, table, name, value, next);
  }

  /** What the decoder makes of a literal without indexing. */
  ghost function PlainLiteral(codec: Codec, block: seq<byte>, position: nat, table: DynamicTable)
    : Result<Progress>
    requires |codec.staticTable| == 61 && position < |block|
    requires DecodeInteger(block, position, 4).Ok?
  {
    FieldAfter(codec, block, table, false,
               FieldName(codec, block, table, DecodeInteger(block, position, 4).value))
  }

  /** A literal without indexing stands at `position`, and the decoder makes `field` of it. */
  ghost predicate ReadsField(codec: Codec, block: seq<byte>, position: nat, table: DynamicTable, field: Header,
                             next: nat)
    requires |codec.staticTable| == 61
  {
    && position < |block| && block[position] < 16 && DecodeInteger(block, position, 4).Ok?
    && PlainLiteral(codec, block, position, table) == Ok(Progress(next, table, [field]))
  }

  /** A literal without indexing stands at `position`, and the decoder makes something else of it. */
  ghost predicate MisreadsField(codec: Codec, block: seq<byte>, position: nat, table: DynamicTable, field: Header)
    requires |codec.staticTable| == 61
  {
    && position < |block| && block[position] < 16 && DecodeInteger(block, position, 4).Ok?
    && var step := PlainLiteral(codec, block, position, table);
       step.Ok? ==> |step.value.fields| == 1 && step.value.fields[0] != field
  }

  lemma {:induction false} ValueStep(codec: Codec, block: seq<byte>, table: DynamicTable, name: Read<Str>, value: Str)
    requires Utf8(value) && Holds(block, name.next, StringBytes(value))
    ensures var step := FieldAfter(codec, block, table, false, Ok(name));
            if |value| < U32
            then step == Ok(Progress(name.next + |StringBytes(value)|, table, [Header(name.value, value)]))
            else step.Ok? ==> |step.value.fields| == 1 && step.value.fields[0].value != value
  {
    StringReads(codec, block, name.next, value);
  }

  lemma {:induction false} FieldKeepsName(codec: Codec, block: seq<byte>, table: DynamicTable, name: Result<Read<Str>>)
    ensures var step := FieldAfter(codec, block, table, false, name);
            step.Ok? ==> name.Ok? && |step.value.fields| == 1 && step.value.fields[0].name == name.value.value
  {}

  predicate NameFits(codec: Codec, name: Str)
    requires |codec.staticTable| == 61
  {
    NameIndex(codec.staticTable, name).Some? || |name| < U32
  }

  lemma {:induction false} FieldReads(codec: Codec, block: seq<byte>, position: nat, table: DynamicTable,
                   name: Str, value: Str, read: Result<Read<Str>>)
    requires |codec.staticTable| == 61 && Utf8(value)
    requires Holds(block, position, StringBytes(value))
    requires if NameFits(codec, name) then read == Ok(Read(name, position))
             else read.Ok? ==> read.value.value != name
    ensures var step := FieldAfter(codec, block, table, false, read);
            if NameFits(codec, name) && |value| < U32
            then step == Ok(Progress(position + |StringBytes(value)|, table, [Header(name, value)]))
            else step.Ok? ==> |step.value.fields| == 1 && step.value.fields[0] != Header(name, value)
  {
    FieldKeepsName(codec, block, table, read);
    if NameFits(codec, name) {
      ValueStep(codec, block, table, Read(name, position), value);
    }
  }

  predicate FieldFits(codec: Codec, field: Header)
    requires |codec.staticTable| == 61
  {
    NameFits(codec, field.name) && |field.value| < U32
  }

  /** A literal that is not indexed, whatever the field is. */
  lemma {:induction false} PlainLiteralReads(codec: Codec, block: seq<byte>, position: nat, table: DynamicTable,
                                             field: Header, next: nat, end: nat)
    requires |codec.staticTable| == 61 && ValidHeader(field)
    requires Holds(block, position, NameBytes(codec, field.name)) && next == position + |NameBytes(codec, field.name)|
    requires Holds(block, next, StringBytes(field.value)) && end == next + |StringBytes(field.value)|
    ensures if FieldFits(codec, field)
            then ReadsField(codec, block, position, table, field, end)
            else MisreadsField(codec, block, position, table, field)
  {
    var read := NameReads(codec, block, position, table, field.name, next);
    FieldReads(codec, block, next, table, field.name, field.value, read);
  }

  lemma {:induction false} HeaderReads(codec: Codec, block: seq<byte>, position: nat, table: DynamicTable,
                                       header: Header, end: nat)
    requires |codec.staticTable| == 61 && ValidHeader(header)
    requires Holds(block, position, HeaderBytes(codec, header)) && end == position + |HeaderBytes(codec, header)|
    ensures if HeaderFits(codec, header)
            then ReadsField(codec, block, position, table, LowerName(header), end)
            else MisreadsField(codec, block, position, table, LowerName(header))
  {
    var field := LowerName(header);
    LowerKeepsUtf8(header.name);
    var next := HoldsFirst(block, position, NameBytes(codec, field.name), StringBytes(field.value));
    PlainLiteralReads(codec, block, position, table, field, next, end);
  }

  predicate AllFit(codec: Codec, headers: seq<Header>)
    requires |codec.staticTable| == 61
  {
    headers == [] || (HeaderFits(codec, headers[0]) && AllFit(codec, headers[1..]))
  }

  predicate AllValid(headers: seq<Header>) {
    headers == [] || (ValidHeader(headers[0]) && AllValid(headers[1..]))
  }

  ghost predicate DecodesTo(codec: Codec, block: seq<byte>, position: nat, table: DynamicTable,
                            fields: seq<Header>)
    requires |codec.staticTable| == 61
  {
    DecodeFrom(codec, block, position, table) == Ok(Decoded(fields, table))
  }

  lemma {:induction false} AfterIsExact(first: Header, rest: Result<Decoded>, fields: seq<Header>, table: DynamicTable)
    ensures (After([first], rest) == Ok(Decoded([first] + fields, table))) <==>
            rest == Ok(Decoded(fields, table))
  {
    if After([first], rest) == Ok(Decoded([first] + fields, table)) {
      assert ([first] + rest.value.fields)[1..] == ([first] + fields)[1..];
    }
  }

  lemma {:induction false} FieldDecodes(codec: Codec, block: seq<byte>, position: nat, table: DynamicTable,
                                        field: Header, next: nat, rest: seq<Header>)
    requires |codec.staticTable| == 61 && ReadsField(codec, block, position, table, field, next)
    ensures DecodesTo(codec, block, position, table, [field] + rest) <==> DecodesTo(codec, block, next, table, rest)
  {
    AfterIsExact(field, DecodeFrom(codec, block, next, table), rest, table);
  }

  lemma OtherHead(first: seq<Header>, rest: seq<Header>, field: Header, fields: seq<Header>)
    requires |first| == 1 && first[0] != field
    ensures first + rest != [field] + fields
  {
    assert (first + rest)[0] == first[0];
  }

  lemma {:induction false} FieldIsLost(codec: Codec, block: seq<byte>, position: nat, table: DynamicTable,
                                       field: Header, rest: seq<Header>)
    requires |codec.staticTable| == 61 && MisreadsField(codec, block, position, table, field)
    ensures !DecodesTo(codec, block, position, table, [field] + rest)
  {
    match PlainLiteral(codec, block, position, table)
    case Err(_) =>
    case Ok(step) =>
      var after := DecodeFrom(codec, block, step.next, step.table);
      if after.Ok? {
        OtherHead(step.fields, after.value.fields, field, rest);
      }
  }

  lemma {:induction false} HeadersRead(
      codec: Codec, block: seq<byte>, position: nat, table: DynamicTable, headers: seq<Header>)
    requires |codec.staticTable| == 61 && AllValid(headers)
    requires Holds(block, position, HeadersBytes(codec, headers))
    requires position + |HeadersBytes(codec, headers)| == |block|
    ensures DecodesTo(codec, block, position, table, LowerNames(headers)) <==> AllFit(codec, headers)
    decreases |headers|
  {
    if headers != [] {
      var field, rest := LowerName(headers[0]), LowerNames(headers[1..]);
      var next := HoldsFirst(block, position, HeaderBytes(codec, headers[0]), HeadersBytes(codec, headers[1..]));
      HeaderReads(codec, block, position, table, headers[0], next);
      if HeaderFits(codec, headers[0]) {
        FieldDecodes(codec, block, position, table, field, next, rest);
        HeadersRead(codec, block, next, table, headers[1..]);
      } else {
        FieldIsLost(codec, block, position, table, field, rest);
      }
    }
  }

  /** From any decoder state, decoding gives back the fields with lower-cased names and
      leaves the table alone, exactly when every string written has a 32-bit length. */
  lemma EncoderInverse(codec: Codec, table: DynamicTable, headers: seq<Header>)
    requires |codec.staticTable| == 61 && AllValid(headers)
    ensures (DecodeFrom(codec, HeadersBytes(codec, headers), 0, table) ==
             Ok(Decoded(LowerNames(headers), table))) <==> AllFit(codec, headers)
  {
    HoldsWhole(HeadersBytes(codec, headers));
    HeadersRead(codec, HeadersBytes(codec, headers), 0, table, headers);
  }
}
