/** Whatever octets a peer sends, the decoder gives out strings, and keeps nothing else. */
module HpackUtf8 {
  import opened Prelude
  import opened Text
  import opened Buffers
  import opened HpackTable
  import opened HpackString
  import opened HpackDecoding

  predicate AllStrings(headers: seq<Header>) {
    forall i | 0 <= i < |headers| :: Utf8(headers[i].name) && Utf8(headers[i].value)
  }

  lemma StringsPart(headers: seq<Header>, kept: seq<Header>)
    requires AllStrings(headers) && kept <= headers
    ensures AllStrings(kept)
  {}

  lemma StringsConcat(a: seq<Header>, b: seq<Header>)
    requires AllStrings(a) && AllStrings(b)
    ensures AllStrings(a + b)
  {}

  lemma InsertedStrings(table: DynamicTable, field: Header)
    requires AllStrings(table.entries) && Utf8(field.name) && Utf8(field.value)
    ensures AllStrings(Insert(table, field).entries)
  {
    if EntrySize(field) <= table.max {
      EvictKeepsLongestFit(table.entries, table.max - EntrySize(field), 0);
      StringsPart(table.entries, Evict(table.entries, table.max - EntrySize(field)));
      StringsConcat([field], Evict(table.entries, table.max - EntrySize(field)));
    }
  }

  lemma ResizedStrings(table: DynamicTable, max: nat)
    requires AllStrings(table.entries)
    ensures AllStrings(Resize(table, max).entries)
  {
    EvictKeepsLongestFit(table.entries, max, 0);
    StringsPart(table.entries, Evict(table.entries, max));
  }

  lemma DecodedString(codec: Codec, block: seq<byte>, position: nat)
    ensures var r := DecodeString(codec.huffman, block, position); r.Ok? ==> Utf8(r.value.value)
  {}

  lemma NameIsString(codec: Codec, block: seq<byte>, table: DynamicTable, index: Read<nat>)
    requires |codec.staticTable| == 61 && AllStrings(codec.staticTable) && AllStrings(table.entries)
    ensures var r := FieldName(codec, block, table, index); r.Ok? ==> Utf8(r.value.value)
  {
    DecodedString(codec, block, index.next);
  }

  lemma FieldIsStrings(codec: Codec, block: seq<byte>, table: DynamicTable, indexed: bool, name: Result<Read<Str>>)
    requires AllStrings(table.entries) && (name.Ok? ==> Utf8(name.value.value))
    ensures var r := FieldAfter(codec, block, table, indexed, name);
            r.Ok? ==> AllStrings(r.value.fields) && AllStrings(r.value.table.entries)
  {
    if name.Ok? {
      DecodedString(codec, block, name.value.next);
      var value := DecodeString(codec.huffman, block, name.value.next);
      if value.Ok? {
        InsertedStrings(table, Header(name.value.value, value.value.value));
      }
    }
  }

  lemma StepIsStrings(codec: Codec, block: seq<byte>, position: nat, table: DynamicTable)
    requires |codec.staticTable| == 61 && position < |block|
    requires AllStrings(codec.staticTable) && AllStrings(table.entries)
    ensures var r := Step(codec, block, position, table);
            r.Ok? ==> AllStrings(r.value.fields) && AllStrings(r.value.table.entries)
  {
    var first := block[position];
    if first >= 128 {
    } else if first / 32 == 1 {
      var size := HpackInteger.DecodeInteger(block, position, 5);
      if size.Ok? {
        ResizedStrings(table, size.value.value);
      }
    } else {
      var index := HpackInteger.DecodeInteger(block, position, if first >= 64 then 6 else 4);
      if index.Ok? {
        NameIsString(codec, block, table, index.value);
        FieldIsStrings(codec, block, table, first >= 64, FieldName(codec, block, table, index.value));
      }
    }
  }

  /** Every name and value decoded is UTF-8, and so is all that is left in the table. */
  lemma {:induction false} DecodedIsStrings(codec: Codec, block: seq<byte>, position: nat, table: DynamicTable)
    requires |codec.staticTable| == 61 && AllStrings(codec.staticTable) && AllStrings(table.entries)
    ensures var r := DecodeFrom(codec, block, position, table);
            r.Ok? ==> AllStrings(r.value.fields) && AllStrings(r.value.table.entries)
    decreases |block| - position
  {
    if position < |block| {
      StepIsStrings(codec, block, position, table);
      var step := Step(codec, block, position, table);
      if step.Ok? {
        DecodedIsStrings(codec, block, step.value.next, step.value.table);
        var rest := DecodeFrom(codec, block, step.value.next, step.value.table);
        if rest.Ok? {
          StringsConcat(step.value.fields, rest.value.fields);
        }
      }
    }
  }
}
