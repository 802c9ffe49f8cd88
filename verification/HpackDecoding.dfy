/** HpackDecoder: header blocks read against the static and the dynamic table. */
module HpackDecoding {
  import opened Prelude
  import opened Text
  import opened PrefixCodes
  import opened Buffers
  import opened HpackInteger
  import opened HpackString
  import opened HpackTable

  /** The two constant tables of the program. */
  datatype Codec = Codec(huffman: Table, staticTable: seq<Header>) {
    ghost predicate Valid() {
      Complete(huffman) && |staticTable| == 61
    }
  }

  datatype Progress = Progress(next: nat, table: DynamicTable, fields: seq<Header>)

  datatype Decoded = Decoded(fields: seq<Header>, table: DynamicTable)

  function Entry(codec: Codec, table: DynamicTable, index: nat): Result<Header>
    requires |codec.staticTable| == 61
  {
    if 1 <= index <= 61 then Ok(codec.staticTable[index - 1])
    else if index < 62 then Err(InvalidIndex)
    else if index - 62 < |table.entries| then Ok(table.entries[index - 62])
    else Err(InvalidDynamicIndex)
  }

  /** The name of a literal field: an entry's, or, for index 0, a string that follows. */
  ghost function FieldName(codec: Codec, block: seq<byte>, table: DynamicTable, index: Read<nat>)
    : (r: Result<Read<Str>>)
    requires |codec.staticTable| == 61
    ensures r.Ok? ==> index.next <= r.value.next
  {
    if index.value == 0 then DecodeString(codec.huffman, block, index.next)
    else match Entry(codec, table, index.value)
      case Err(e) => Err(e)
      case Ok(entry) => Ok(Read(entry.name, index.next))
  }

  /** The value that follows a name, and the field they make. */
  ghost function FieldAfter(codec: Codec, block: seq<byte>, table: DynamicTable, indexed: bool,
                            name: Result<Read<Str>>): (r: Result<Progress>)
    ensures r.Ok? ==> name.Ok? && name.value.next < r.value.next
  {
    match name
    case Err(e) => Err(e)
    case Ok(name) =>
      match DecodeString(codec.huffman, block, name.next)
      case Err(e) => Err(e)
      case Ok(value) =>
        var field := Header(name.value, value.value);
        Ok(Progress(value.next, if indexed then Insert(table, field) else table, [field]))
  }

  /** One representation of RFC 7541 section 6. */
  ghost function Step(codec: Codec, block: seq<byte>, position: nat, table: DynamicTable)
    : (r: Result<Progress>)
    requires |codec.staticTable| == 61 && position < |block|
    ensures r.Ok? ==> position < r.value.next
  {
    var first := block[position];
    if first >= 128 then
      match DecodeInteger(block, position, 7)
      case Err(e) => Err(e)
      case Ok(index) =>
        match Entry(codec, table, index.value)
        case Err(e) => Err(e)
        case Ok(field) => Ok(Progress(index.next, table, [field]))
    else if first / 32 == 1 then
      match DecodeInteger(block, position, 5)
      case Err(e) => Err(e)
      case Ok(size) => Ok(Progress(size.next, Resize(table, size.value), []))
    else
      match DecodeInteger(block, position, if first >= 64 then 6 else 4)
      case Err(e) => Err(e)
      case Ok(index) =>
        FieldAfter(codec, block, table, first >= 64, FieldName(codec, block, table, index))
  }

  ghost function DecodeFrom(codec: Codec, block: seq<byte>, position: nat, table: DynamicTable)
    : Result<Decoded>
    requires |codec.staticTable| == 61
    decreases |block| - position
  {
    if position >= |block| then Ok(Decoded([], table))
    else match Step(codec, block, position, table)
      case Err(e) => Err(e)
      case Ok(step) => After(step.fields, DecodeFrom(codec, block, step.next, step.table))
  }

  function After(fields: seq<Header>, rest: Result<Decoded>): Result<Decoded> {
    match rest
    case Err(e) => Err(e)
    case Ok(decoded) => Ok(decoded.(fields := fields + decoded.fields))
  }

  lemma AfterAfter(a: seq<Header>, b: seq<Header>, rest: Result<Decoded>)
    ensures After(a, After(b, rest)) == After(a + b, rest)
  {
    if rest.Ok? {
      assert a + (b + rest.value.fields) == a + b + rest.value.fields;
    }
  }

  lemma AfterNothing(rest: Result<Decoded>)
    ensures After([], rest) == rest
  {
    if rest.Ok? {
      assert [] + rest.value.fields == rest.value.fields;
    }
  }

  /** The decoder's loop: what it has, and what the rest of the block will add. */
  ghost predicate Continues(codec: Codec, block: seq<byte>, goal: Result<Decoded>,
                            fields: seq<Header>, position: nat, table: DynamicTable)
    requires |codec.staticTable| == 61
  {
    goal == After(fields, DecodeFrom(codec, block, position, table))
  }

  lemma Starts(codec: Codec, block: seq<byte>, table: DynamicTable)
    requires |codec.staticTable| == 61
    ensures Continues(codec, block, DecodeFrom(codec, block, 0, table), [], 0, table)
  {
    AfterNothing(DecodeFrom(codec, block, 0, table));
  }

  lemma Continue(codec: Codec, block: seq<byte>, goal: Result<Decoded>,
                 fields: seq<Header>, position: nat, table: DynamicTable)
    requires |codec.staticTable| == 61 && position < |block|
    requires Continues(codec, block, goal, fields, position, table)
    ensures match Step(codec, block, position, table)
            case Err(e) => goal == Err(e)
            case Ok(step) =>
              Continues(codec, block, goal, fields + step.fields, step.next, step.table)
  {
    var step := Step(codec, block, position, table);
    if step.Ok? {
      AfterAfter(fields, step.value.fields, DecodeFrom(codec, block, step.value.next, step.value.table));
    }
  }

  lemma Ends(codec: Codec, block: seq<byte>, goal: Result<Decoded>,
             fields: seq<Header>, position: nat, table: DynamicTable)
    requires |codec.staticTable| == 61 && position >= |block|
    requires Continues(codec, block, goal, fields, position, table)
    ensures goal == Ok(Decoded(fields, table))
  {
    assert fields + [] == fields;
  }

  class HpackDecoder {
    const codec: Codec
    var dynamic: seq<Header>
    var dynamicSize: nat
    var maxDynamicSize: nat

    ghost predicate Valid()
      reads this
    {
      && codec.Valid()
      && dynamicSize == TableSize(dynamic)
      && dynamicSize <= maxDynamicSize
    }

    function View(): DynamicTable
      reads this
    {
      DynamicTable(dynamic, maxDynamicSize)
    }

    constructor (codec: Codec)
      requires codec.Valid()
      ensures Valid() && this.codec == codec && View() == DynamicTable([], 4096)
    {
      this.codec := codec;
      dynamic, dynamicSize, maxDynamicSize := [], 0, 4096;
    }

    /** Pops the oldest entries; the table never runs out and the size never saturates. */
    method Evict()
      requires dynamicSize == TableSize(dynamic)
      modifies this
      ensures dynamicSize == TableSize(dynamic) && dynamicSize <= maxDynamicSize
      ensures maxDynamicSize == old(maxDynamicSize)
      ensures dynamic == HpackTable.Evict(old(dynamic), maxDynamicSize)
    {
      while dynamicSize > maxDynamicSize
        invariant dynamicSize == TableSize(dynamic) && maxDynamicSize == old(maxDynamicSize)
        invariant HpackTable.Evict(dynamic, maxDynamicSize) == HpackTable.Evict(old(dynamic), maxDynamicSize)
        decreases |dynamic|
      {
        if dynamic == [] {
          assert false;
        }
        var oldest := dynamic[|dynamic| - 1];
        dynamic := dynamic[..|dynamic| - 1];
        assert dynamicSize >= |oldest.name| + |oldest.value| + 32;
        dynamicSize := dynamicSize - (|oldest.name| + |oldest.value| + 32);
      }
    }

    method Add(entry: Header)
      requires Valid()
      modifies this
      ensures Valid() && View() == Insert(old(View()), entry)
    {
      var size := |entry.name| + |entry.value| + 32;
      if size > maxDynamicSize {
        dynamic, dynamicSize := [], 0;
        return;
      }
      AddThenEvict(View(), entry);
      SizeOfFront(entry, dynamic);
      dynamic, dynamicSize := [entry] + dynamic, dynamicSize + size;
      Evict();
    }

    method UpdateSize(size: nat)
      requires Valid()
      modifies this
      ensures Valid() && View() == Resize(old(View()), size)
    {
      maxDynamicSize := size;
      Evict();
    }

    method Lookup(index: nat) returns (r: Result<Header>)
      requires Valid()
      ensures r == Entry(codec, View(), index)
    {
      if 1 <= index <= 61 {
        return Ok(codec.staticTable[index - 1]);
      }
      if index < 62 {
        return Err(InvalidIndex);
      }
      if index - 62 < |dynamic| {
        return Ok(dynamic[index - 62]);
      }
      return Err(InvalidDynamicIndex);
    }

    method ReadName(block: seq<byte>, index: Read<nat>) returns (r: Result<Read<Str>>)
      requires Valid()
      ensures r == FieldName(codec, block, View(), index)
    {
      if index.value == 0 {
        r := HpackDecodeString(codec.huffman, block, index.next);
      } else {
        var entry := Lookup(index.value);
        match entry
        case Err(e) => return Err(e);
        case Ok(header) => return Ok(Read(header.name, index.next));
      }
    }

    /** A field written out, with its name indexed or not. */
    method DecodeLiteral(block: seq<byte>, position: nat) returns (r: Result<Read<Header>>)
      requires Valid() && position < |block| && block[position] < 128 && block[position] / 32 != 1
      modifies this
      ensures Valid()
      ensures match Step(codec, block, position, old(View()))
              case Err(e) => r == Err(e)
              case Ok(step) =>
                && r.Ok? && r.value.next == step.next
                && step.fields == [r.value.value] && step.table == View()
    {
      var indexed := block[position] >= 64;
      var index := HpackDecodeInt(block, position, if indexed then 6 else 4);
      if index.Err? { return Err(index.error); }
      var name := ReadName(block, index.value);
      if name.Err? { return Err(name.error); }
      var value := HpackDecodeString(codec.huffman, block, name.value.next);
      if value.Err? { return Err(value.error); }
      var header := Header(name.value.value, value.value.value);
      if indexed {
        Add(header);
      }
      return Ok(Read(header, value.value.next));
    }

    method Decode(block: seq<byte>) returns (r: Result<seq<Header>>)
      requires Valid()
      modifies this
      ensures Valid()
      ensures match DecodeFrom(codec, block, 0, old(View()))
              case Err(e) => r == Err(e)
              case Ok(decoded) => r == Ok(decoded.fields) && View() == decoded.table
    {
      var headers: seq<Header>, position: nat := [], 0;
      ghost var goal := DecodeFrom(codec, block, 0, View());
      Starts(codec, block, View());
      while position < |block|
        invariant Valid() && Continues(codec, block, goal, headers, position, View())
        decreases |block| - position
      {
        Continue(codec, block, goal, headers, position, View());
        var first := block[position];
        if first >= 128 {
          var index := HpackDecodeInt(block, position, 7);
          if index.Err? { return Err(index.error); }
          var entry := Lookup(index.value.value);
          if entry.Err? { return Err(entry.error); }
          position, headers := index.value.next, headers + [entry.value];
        } else if first / 32 == 1 {
          var size := HpackDecodeInt(block, position, 5);
          if size.Err? { return Err(size.error); }
          UpdateSize(size.value.value);
          assert headers + [] == headers;
          position := size.value.next;
        } else {
          var field := DecodeLiteral(block, position);
          if field.Err? { return Err(field.error); }
          position, headers := field.value.next, headers + [field.value.value];
        }
      }
      Ends(codec, block, goal, headers, position, View());
      return Ok(headers);
    }
  }
}
