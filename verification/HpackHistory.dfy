/** Header blocks told from what was sent before them: the dynamic table is the list of the fields
    sent with incremental indexing, newest first, as far as it has room (RFC 7541 section 2.3). */
module HpackHistory {
  import opened Prelude
  import opened Text
  import opened Sequences
  import opened HpackString
  import opened HpackTable
  import opened HpackDecoding
  import opened HpackRfc

  /** What an encoder has done to the table: a field it added, or a new limit. */
  datatype Change = Added(field: Header) | Limited(max: nat)

  /** Every field ever added on the connection, the newest first. */
  function Newest(past: seq<Change>): seq<Header> {
    if past == [] then []
    else
      var last := past[|past| - 1];
      (if last.Added? then [last.field] else []) + Newest(past[..|past| - 1])
  }

  /** The limit that was set last. */
  function Limit(past: seq<Change>): nat {
    if past == [] then 4096
    else match past[|past| - 1]
      case Limited(max) => max
      case Added(_) => Limit(past[..|past| - 1])
  }

  /** Section 4.1: 32 octets for every field besides its name and its value. */
  function Room(fields: seq<Header>): nat {
    if fields == [] then 0 else |fields[0].name| + |fields[0].value| + 32 + Room(fields[1..])
  }

  /** The `n` newest fields are still in the table: after every change since they were added they
      had room together with all that were newer. */
  predicate Kept(past: seq<Change>, n: nat) {
    if past == [] then n == 0
    else
      && n <= |Newest(past)| && Room(Newest(past)[..n]) <= Limit(past)
      && (if past[|past| - 1].Limited? then Kept(past[..|past| - 1], n)
          else n == 0 || Kept(past[..|past| - 1], n - 1))
  }

  // ----- The table is that list

  lemma {:induction false} RoomIsSize(fields: seq<Header>)
    ensures Room(fields) == TableSize(fields)
  {
    if fields != [] {
      RoomIsSize(fields[1..]);
      SizeOfFront(fields[0], fields[1..]);
      HeadAndTail(fields);
    }
  }

  /** The table an encoder's past leaves. */
  ghost predicate Remembers(past: seq<Change>, table: DynamicTable) {
    && table.max == Limit(past) && table.entries <= Newest(past)
    && forall n: nat :: KeptIn(past, table, n)
  }

  predicate KeptIn(past: seq<Change>, table: DynamicTable, n: nat) {
    Kept(past, n) <==> n <= |table.entries|
  }

  lemma NothingYet()
    ensures Remembers([], DynamicTable([], 4096))
  {}

  lemma Later(past: seq<Change>, change: Change)
    ensures (past + [change])[|past|] == change && (past + [change])[..|past|] == past
  {}

  lemma NewestOfMore(past: seq<Change>, change: Change)
    ensures Newest(past + [change]) == (if change.Added? then [change.field] else []) + Newest(past)
    ensures Limit(past + [change]) == if change.Limited? then change.max else Limit(past)
  {
    Later(past, change);
  }

  lemma KeptOfMore(past: seq<Change>, change: Change, n: nat)
    ensures Kept(past + [change], n) <==>
            && n <= |Newest(past + [change])| && Room(Newest(past + [change])[..n]) <= Limit(past + [change])
            && (if change.Limited? then Kept(past, n) else n == 0 || Kept(past, n - 1))
  {
    Later(past, change);
  }

  /** Section 4.4 in one step: the longest part of the list with the new field that has room. */
  lemma InsertIsEvict(table: DynamicTable, field: Header)
    ensures Insert(table, field) == DynamicTable(Evict([field] + table.entries, table.max), table.max)
  {
    if EntrySize(field) <= table.max {
      AddThenEvict(table, field);
    } else {
      var all := [field] + table.entries;
      EvictKeepsLongestFit(all, table.max, 1);
      assert all[..1] == [] + [field];
      assert ([] + [field])[..0] == [];
      assert TableSize(all[..1]) == EntrySize(field);
    }
  }

  lemma PrefixOfPrefix<T>(a: seq<T>, b: seq<T>, n: nat)
    requires a <= b && n <= |a|
    ensures a[..n] == b[..n]
  {}

  lemma EvictedIsKept(past: seq<Change>, entries: seq<Header>, max: nat, n: nat)
    requires entries <= Newest(past) && max == Limit(past)
    ensures n <= |Evict(entries, max)| <==> n <= |entries| && Room(Newest(past)[..n]) <= max
    ensures Evict(entries, max) <= Newest(past)
  {
    EvictKeepsLongestFit(entries, max, 0);
    if n <= |entries| {
      EvictKeepsLongestFit(entries, max, n);
      PrefixOfPrefix(entries, Newest(past), n);
      RoomIsSize(entries[..n]);
    }
  }

  lemma AddedIsRemembered(past: seq<Change>, table: DynamicTable, field: Header)
    requires Remembers(past, table)
    ensures Remembers(past + [Added(field)], Insert(table, field))
  {
    var after := past + [Added(field)];
    var entries := [field] + table.entries;
    InsertIsEvict(table, field);
    NewestOfMore(past, Added(field));
    assert entries <= Newest(after);
    EvictedIsKept(after, entries, table.max, 0);
    forall n: nat ensures KeptIn(after, Insert(table, field), n) {
      KeptOfMore(past, Added(field), n);
      EvictedIsKept(after, entries, table.max, n);
      if n > 0 {
        assert KeptIn(past, table, n - 1);
      }
    }
  }

  lemma LimitedIsRemembered(past: seq<Change>, table: DynamicTable, max: nat)
    requires Remembers(past, table)
    ensures Remembers(past + [Limited(max)], Resize(table, max))
  {
    var after := past + [Limited(max)];
    NewestOfMore(past, Limited(max));
    Nothing(Newest(past));
    EvictedIsKept(after, table.entries, max, 0);
    forall n: nat ensures KeptIn(after, Resize(table, max), n) {
      KeptOfMore(past, Limited(max), n);
      EvictedIsKept(after, table.entries, max, n);
      assert KeptIn(past, table, n);
    }
  }

  // ----- What an index stands for

  /** Section 2.3.3: first the static table, then the fields added, the newest of them 62. */
  function Meant(codec: Codec, past: seq<Change>, index: nat): Result<Header>
    requires |codec.staticTable| == 61
  {
    if index == 0 then Err(InvalidIndex)
    else if index < 62 then Ok(codec.staticTable[index - 1])
    else if Kept(past, index - 61) then Ok(Newest(past)[index - 62])
    else Err(InvalidDynamicIndex)
  }

  lemma IndexIsMeant(codec: Codec, past: seq<Change>, table: DynamicTable, index: nat)
    requires |codec.staticTable| == 61 && Remembers(past, table)
    ensures Entry(codec, table, index) == Meant(codec, past, index)
  {
    if index >= 62 {
      assert KeptIn(past, table, index - 61);
    }
  }

  // ----- What a connection says

  datatype Said = Said(fields: seq<Header>, past: seq<Change>)

  ghost function SaidName(codec: Codec, past: seq<Change>, name: Name): Result<Str>
    requires |codec.staticTable| == 61
  {
    match name
    case New(literal) => LiteralText(codec.huffman, literal.huffman, literal.octets)
    case Indexed(index, _) =>
      (match Meant(codec, past, index)
       case Err(e) => Err(e)
       case Ok(field) => Ok(field.name))
  }

  /** The fields a representation stands for, and the past with what it adds to it. */
  ghost function Says(codec: Codec, past: seq<Change>, rep: Representation): Result<Said>
    requires |codec.staticTable| == 61
  {
    match rep
    case IndexedField(index, _) =>
      (match Meant(codec, past, index)
       case Err(e) => Err(e)
       case Ok(field) => Ok(Said([field], past)))
    case SizeUpdate(size, _) => Ok(Said([], past + [Limited(size)]))
    case LiteralField(mode, name, value) =>
      match SaidName(codec, past, name)
      case Err(e) => Err(e)
      case Ok(text) =>
        match LiteralText(codec.huffman, value.huffman, value.octets)
        case Err(e) => Err(e)
        case Ok(octets) =>
          var field := Header(text, octets);
          Ok(Said([field], if mode.Incremental? then past + [Added(field)] else past))
  }

  ghost function SaysBlock(codec: Codec, past: seq<Change>, reps: seq<Representation>): Result<Said>
    requires |codec.staticTable| == 61
    decreases |reps|
  {
    if reps == [] then Ok(Said([], past))
    else match Says(codec, past, reps[0])
      case Err(e) => Err(e)
      case Ok(first) =>
        match SaysBlock(codec, first.past, reps[1..])
        case Err(e) => Err(e)
        case Ok(rest) => Ok(Said(first.fields + rest.fields, rest.past))
  }

  /** The header lists of a connection's blocks, up to the first error. */
  datatype Heard = Heard(lists: seq<seq<Header>>, error: Option<Error>)

  ghost function SaysBlocks(codec: Codec, past: seq<Change>, blocks: seq<seq<Representation>>): Heard
    requires |codec.staticTable| == 61
    decreases |blocks|
  {
    if blocks == [] then Heard([], None)
    else match SaysBlock(codec, past, blocks[0])
      case Err(e) => Heard([], Some(e))
      case Ok(said) =>
        var rest := SaysBlocks(codec, said.past, blocks[1..]);
        Heard([said.fields] + rest.lists, rest.error)
  }

  /** The decoder's result is what was said, and its table what is remembered of it. */
  ghost predicate Understood(said: Result<Said>, decoded: Result<Decoded>) {
    match said
    case Err(e) => decoded == Err(e)
    case Ok(said) => decoded.Ok? && decoded.value.fields == said.fields && Remembers(said.past, decoded.value.table)
  }

  lemma NameIsUnderstood(codec: Codec, past: seq<Change>, table: DynamicTable, name: Name)
    requires |codec.staticTable| == 61 && Remembers(past, table)
    ensures NameText(codec, table, name) == SaidName(codec, past, name)
  {
    if name.Indexed? {
      IndexIsMeant(codec, past, table, name.index);
    }
  }

  lemma StepIsUnderstood(codec: Codec, past: seq<Change>, table: DynamicTable, rep: Representation)
    requires |codec.staticTable| == 61 && Remembers(past, table)
    ensures Understood(Says(codec, past, rep), Denote(codec, table, rep))
  {
    match rep
    case IndexedField(index, _) => IndexIsMeant(codec, past, table, index);
    case SizeUpdate(size, _) => LimitedIsRemembered(past, table, size);
    case LiteralField(mode, name, value) =>
      NameIsUnderstood(codec, past, table, name);
      var text, octets := SaidName(codec, past, name), LiteralText(codec.huffman, value.huffman, value.octets);
      if text.Ok? && octets.Ok? && mode.Incremental? {
        AddedIsRemembered(past, table, Header(text.value, octets.value));
      }
  }

  lemma {:induction false} BlockIsUnderstood(codec: Codec, past: seq<Change>, table: DynamicTable,
                                             reps: seq<Representation>)
    requires |codec.staticTable| == 61 && Remembers(past, table)
    ensures Understood(SaysBlock(codec, past, reps), DenoteBlock(codec, table, reps))
    decreases |reps|
  {
    if reps != [] {
      StepIsUnderstood(codec, past, table, reps[0]);
      var said, first := Says(codec, past, reps[0]), Denote(codec, table, reps[0]);
      if said.Ok? {
        BlockIsUnderstood(codec, said.value.past, first.value.table, reps[1..]);
      }
    }
  }

  lemma {:induction false} BlocksAreUnderstood(codec: Codec, past: seq<Change>, table: DynamicTable,
                                               blocks: seq<seq<Representation>>)
    requires |codec.staticTable| == 61 && Remembers(past, table)
    ensures var heard, decoded := SaysBlocks(codec, past, blocks), DenoteBlocks(codec, table, blocks);
            decoded.lists == heard.lists && decoded.error == heard.error
    decreases |blocks|
  {
    if blocks != [] {
      BlockIsUnderstood(codec, past, table, blocks[0]);
      var said, first := SaysBlock(codec, past, blocks[0]), DenoteBlock(codec, table, blocks[0]);
      if said.Ok? {
        BlocksAreUnderstood(codec, said.value.past, first.value.table, blocks[1..]);
      }
    }
  }

  /** Over all the blocks of a connection every index means the field it counts to: an entry of the
      static table, or the field added so many fields ago, as long as it has had room. */
  lemma IndicesCountBack(codec: Codec, blocks: seq<seq<Representation>>)
    requires |codec.staticTable| == 61
    requires forall i | 0 <= i < |blocks| :: AllFit(blocks[i])
    ensures var decoded := DecodeBlocks(codec, DynamicTable([], 4096), Written(blocks));
            Heard(decoded.lists, decoded.error) == SaysBlocks(codec, [], blocks)
  {
    NothingYet();
    BlocksAreUnderstood(codec, [], DynamicTable([], 4096), blocks);
    ConnectionLockstep(codec, DynamicTable([], 4096), blocks);
  }

  // ----- Fields added and asked for again

  /** Literal fields with incremental indexing that stand for `fields`. */
  ghost predicate Adds(codec: Codec, reps: seq<Representation>, fields: seq<Header>) {
    if reps == [] || fields == [] then reps == [] && fields == []
    else
      && AddsOne(codec, reps[0], fields[0])
      && Adds(codec, reps[1..], fields[1..])
  }

  ghost predicate AddsOne(codec: Codec, rep: Representation, field: Header) {
    && rep.LiteralField? && rep.mode.Incremental? && rep.name.New?
    && LiteralText(codec.huffman, rep.name.literal.huffman, rep.name.literal.octets) == Ok(field.name)
    && LiteralText(codec.huffman, rep.value.huffman, rep.value.octets) == Ok(field.value)
  }

  function Additions(fields: seq<Header>): seq<Change> {
    if fields == [] then [] else Additions(fields[..|fields| - 1]) + [Added(fields[|fields| - 1])]
  }

  lemma {:induction false} AdditionsFirst(field: Header, fields: seq<Header>)
    ensures Additions([field] + fields) == [Added(field)] + Additions(fields)
  {
    var all := [field] + fields;
    if fields == [] {
      assert all[..0] == [];
    } else {
      FrontConcat([field], fields);
      AdditionsFirst(field, fields[..|fields| - 1]);
      Assoc([Added(field)], Additions(fields[..|fields| - 1]), [Added(fields[|fields| - 1])]);
    }
  }

  lemma RoomOfMore(fields: seq<Header>, field: Header)
    ensures Room(fields + [field]) == Room(fields) + |field.name| + |field.value| + 32
    ensures Room([field] + fields) == Room(fields) + |field.name| + |field.value| + 32
  {
    RoomIsSize(fields + [field]);
    RoomIsSize(fields);
    assert (fields + [field])[..|fields|] == fields;
    assert ([field] + fields)[1..] == fields;
  }

  /** The `n`-th newest of the fields added last. */
  predicate CountsTo(past: seq<Change>, fields: seq<Header>, n: nat) {
    n < |fields| ==>
      && Kept(past, n + 1) && Newest(past)[n] == fields[|fields| - 1 - n]
      && Room(Newest(past)[..n + 1]) <= Room(fields)
  }

  lemma {:induction false} AdditionsStay(past: seq<Change>, fields: seq<Header>, n: nat)
    requires Room(fields) <= Limit(past)
    ensures Limit(past + Additions(fields)) == Limit(past)
    ensures CountsTo(past + Additions(fields), fields, n)
    decreases |fields|
  {
    if fields == [] {
      Nothing(past);
    } else {
      var front, last := fields[..|fields| - 1], fields[|fields| - 1];
      FrontAndLast(fields);
      RoomOfMore(front, last);
      Assoc(past, Additions(front), [Added(last)]);
      if n == 0 {
        AdditionsStay(past, front, 0);
      } else {
        AdditionsStay(past, front, n - 1);
      }
      OneMoreStays(past + Additions(front), front, last, n);
    }
  }

  lemma {:induction false} OneMoreStays(past: seq<Change>, fields: seq<Header>, field: Header, n: nat)
    requires Room(fields + [field]) <= Limit(past)
    requires n > 0 ==> CountsTo(past, fields, n - 1)
    ensures Limit(past + [Added(field)]) == Limit(past)
    ensures CountsTo(past + [Added(field)], fields + [field], n)
  {
    NewestOfMore(past, Added(field));
    KeptOfMore(past, Added(field), n + 1);
    RoomOfMore(fields, field);
    if n <= |fields| {
      var newest := Newest(past);
      if n == 0 {
        KeptNone(past);
        assert ([field] + newest)[..1] == [] + [field];
        RoomOfMore([], field);
      } else {
        assert ([field] + newest)[..n + 1] == [field] + newest[..n];
        RoomOfMore(newest[..n], field);
      }
    }
  }

  lemma {:induction false} KeptNone(past: seq<Change>)
    ensures Kept(past, 0)
  {
    if past != [] {
      assert Newest(past)[..0] == [];
      KeptNone(past[..|past| - 1]);
    }
  }

  lemma {:induction false} AddsSay(codec: Codec, past: seq<Change>, reps: seq<Representation>, fields: seq<Header>,
                                   last: Representation)
    requires |codec.staticTable| == 61 && Adds(codec, reps, fields)
    ensures SaysBlock(codec, past, reps + [last]) ==
            match Says(codec, past + Additions(fields), last)
            case Err(e) => Err(e)
            case Ok(said) => Ok(Said(fields + said.fields, said.past))
    decreases |reps|
  {
    if reps == [] {
      Nothing(past);
      assert [last][1..] == [];
      assert [] + [last] == [last];
      var said := Says(codec, past, last);
      if said.Ok? {
        Nothing(said.value.fields);
      }
    } else {
      var later := past + [Added(fields[0])];
      DropConcat(reps, [last]);
      HeadAndTail(fields);
      AdditionsFirst(fields[0], fields[1..]);
      Assoc(past, [Added(fields[0])], Additions(fields[1..]));
      AddsSay(codec, later, reps[1..], fields[1..], last);
      var said := Says(codec, later + Additions(fields[1..]), last);
      if said.Ok? {
        Assoc([fields[0]], fields[1..], said.value.fields);
      }
    }
  }

  /** Fields that have room are sent in order, and index 62 + k then asks for the last but k. */
  lemma {:induction false} LastButK(codec: Codec, past: seq<Change>, table: DynamicTable, reps: seq<Representation>,
                                    fields: seq<Header>, k: nat, pad: nat)
    requires |codec.staticTable| == 61 && Remembers(past, table)
    requires Adds(codec, reps, fields) && Room(fields) <= table.max && k < |fields|
    requires AllFit(reps + [IndexedField(62 + k, pad)])
    ensures var decoded := DecodeFrom(codec, BlockBytes(reps + [IndexedField(62 + k, pad)]), 0, table);
            decoded.Ok? && decoded.value.fields == fields + [fields[|fields| - 1 - k]]
  {
    var last := IndexedField(62 + k, pad);
    AddsSay(codec, past, reps, fields, last);
    AdditionsStay(past, fields, k);
    BlockIsUnderstood(codec, past, table, reps + [last]);
    BlockLockstep(codec, table, reps + [last]);
  }

  /** A field that fits and is asked for at once is there twice. */
  lemma AddedThenIndexed(codec: Codec, past: seq<Change>, table: DynamicTable, rep: Representation, field: Header,
                         pad: nat)
    requires |codec.staticTable| == 61 && Remembers(past, table) && AddsOne(codec, rep, field)
    requires |field.name| + |field.value| + 32 <= table.max && AllFit([rep, IndexedField(62, pad)])
    ensures var decoded := DecodeFrom(codec, BlockBytes([rep, IndexedField(62, pad)]), 0, table);
            decoded.Ok? && decoded.value.fields == [field, field]
  {
    RoomOfMore([], field);
    assert [] + [field] == [field];
    assert [rep][1..] == [] && [field][1..] == [];
    assert [rep] + [IndexedField(62, pad)] == [rep, IndexedField(62, pad)];
    LastButK(codec, past, table, [rep], [field], 0, pad);
  }

  /** An index into the static table stands for the entry, its name and its value, or, with a value
      that follows, for its name. */
  lemma StaticIndices(codec: Codec, table: DynamicTable, index: nat, pad: nat, mode: Mode, value: Literal, text: Str)
    requires |codec.staticTable| == 61 && 1 <= index <= 61
    requires Fits(IndexedField(index, pad)) && Fits(LiteralField(mode, Indexed(index, pad), value))
    requires LiteralText(codec.huffman, value.huffman, value.octets) == Ok(text)
    ensures DecodeFrom(codec, Bytes(IndexedField(index, pad)), 0, table) ==
            Ok(Decoded([codec.staticTable[index - 1]], table))
    ensures var decoded := DecodeFrom(codec, Bytes(LiteralField(mode, Indexed(index, pad), value)), 0, table);
            decoded.Ok? && decoded.value.fields == [Header(codec.staticTable[index - 1].name, text)]
  {
    OneDecodes(codec, table, IndexedField(index, pad));
    OneDecodes(codec, table, LiteralField(mode, Indexed(index, pad), value));
  }

  lemma {:induction false} OneDecodes(codec: Codec, table: DynamicTable, rep: Representation)
    requires |codec.staticTable| == 61 && Fits(rep)
    ensures DecodeFrom(codec, Bytes(rep), 0, table) == Denote(codec, table, rep)
  {
    Buffers.HoldsWhole(Bytes(rep));
    RepresentationDecodes(codec, Bytes(rep), 0, table, rep, |Bytes(rep)|);
    var meaning := Denote(codec, table, rep);
    if meaning.Ok? {
      Nothing(meaning.value.fields);
    }
  }
}
