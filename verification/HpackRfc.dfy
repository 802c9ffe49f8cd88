/** Header blocks as RFC 7541 section 6 writes and means them, and the decoder in lockstep. */
module HpackRfc {
  import opened Prelude
  import opened Text
  import opened Buffers
  import opened HpackInteger
  import opened HpackString
  import opened HpackTable
  import opened HpackDecoding

  /** How a literal field treats the dynamic table: section 6.2.1, 6.2.2 and 6.2.3. */
  datatype Mode = Incremental | WithoutIndexing | NeverIndexed

  datatype Name = Indexed(index: nat, pad: nat) | New(literal: Literal)

  /** A representation; `pad` counts the redundant digits its integers are written with. */
  datatype Representation =
    | IndexedField(index: nat, pad: nat)
    | LiteralField(mode: Mode, name: Name, value: Literal)
    | SizeUpdate(size: nat, pad: nat)

  // ----- Writing

  function ModeFlags(mode: Mode): byte {
    match mode case Incremental => 64 case WithoutIndexing => 0 case NeverIndexed => 16
  }

  function ModePrefix(mode: Mode): prefix {
    if mode == Incremental then 6 else 4
  }

  function NameBytes(mode: Mode, name: Name): (bytes: seq<byte>)
    ensures bytes != []
  {
    match name
    case Indexed(index, pad) => IntegerBytes(ModeFlags(mode), ModePrefix(mode), index, pad)
    case New(literal) => IntegerBytes(ModeFlags(mode), ModePrefix(mode), 0, 0) + LiteralBytes(literal)
  }

  function Bytes(rep: Representation): (bytes: seq<byte>)
    ensures bytes != []
  {
    match rep
    case IndexedField(index, pad) => IntegerBytes(128, 7, index, pad)
    case SizeUpdate(size, pad) => IntegerBytes(32, 5, size, pad)
    case LiteralField(mode, name, value) => NameBytes(mode, name) + LiteralBytes(value)
  }

  function BlockBytes(reps: seq<Representation>): seq<byte> {
    if reps == [] then [] else Bytes(reps[0]) + BlockBytes(reps[1..])
  }

  /** The integer fits a 32-bit word and five continuation octets. */
  predicate FitsWord(flags: byte, bits: prefix, value: nat, pad: nat)
    requires Flags(flags, bits)
  {
    value < U32 && |IntegerBytes(flags, bits, value, pad)| <= 6
  }

  /** Index 0 stands for no name. */
  predicate NameFits(mode: Mode, name: Name) {
    match name
    case Indexed(index, pad) => index > 0 && FitsWord(ModeFlags(mode), ModePrefix(mode), index, pad)
    case New(literal) => Readable(literal)
  }

  /** Every integer of the representation fits. */
  predicate Fits(rep: Representation) {
    match rep
    case IndexedField(index, pad) => FitsWord(128, 7, index, pad)
    case SizeUpdate(size, pad) => FitsWord(32, 5, size, pad)
    case LiteralField(mode, name, value) => NameFits(mode, name) && Readable(value)
  }

  // ----- Meaning

  ghost function NameText(codec: Codec, table: DynamicTable, name: Name): Result<Str>
    requires |codec.staticTable| == 61
  {
    match name
    case Indexed(index, _) =>
      (match Entry(codec, table, index)
       case Err(e) => Err(e)
       case Ok(entry) => Ok(entry.name))
    case New(literal) => LiteralText(codec.huffman, literal.huffman, literal.octets)
  }

  function FieldMeaning(table: DynamicTable, indexed: bool, name: Result<Str>, value: Result<Str>)
    : Result<Decoded>
  {
    if name.Err? then Err(name.error)
    else if value.Err? then Err(value.error)
    else
      var field := Header(name.value, value.value);
      Ok(Decoded([field], if indexed then Insert(table, field) else table))
  }

  /** The header fields a representation emits and the table it leaves. */
  ghost function Denote(codec: Codec, table: DynamicTable, rep: Representation): Result<Decoded>
    requires |codec.staticTable| == 61
  {
    match rep
    case IndexedField(index, _) =>
      (match Entry(codec, table, index)
       case Err(e) => Err(e)
       case Ok(entry) => Ok(Decoded([entry], table)))
    case SizeUpdate(size, _) => Ok(Decoded([], Resize(table, size)))
    case LiteralField(mode, name, value) =>
      FieldMeaning(table, mode == Incremental, NameText(codec, table, name),
                   LiteralText(codec.huffman, value.huffman, value.octets))
  }

  ghost function DenoteBlock(codec: Codec, table: DynamicTable, reps: seq<Representation>): Result<Decoded>
    requires |codec.staticTable| == 61
    decreases |reps|
  {
    if reps == [] then Ok(Decoded([], table))
    else match Denote(codec, table, reps[0])
      case Err(e) => Err(e)
      case Ok(first) => After(first.fields, DenoteBlock(codec, first.table, reps[1..]))
  }

  // ----- The decoder reads what was meant

  /** A meaning, and where the block goes on. */
  function Stepped(meaning: Result<Decoded>, next: nat): Result<Progress> {
    match meaning
    case Err(e) => Err(e)
    case Ok(d) => Ok(Progress(next, d.table, d.fields))
  }

  function ReadUpTo(text: Result<Str>, next: nat): Result<Read<Str>> {
    match text
    case Err(e) => Err(e)
    case Ok(text) => Ok(Read(text, next))
  }

  lemma {:induction false} FirstOctet(block: seq<byte>, position: nat, flags: byte, bits: prefix, value: nat, pad: nat)
    requires Flags(flags, bits)
    requires Holds(block, position, IntegerBytes(flags, bits, value, pad))
    ensures position < |block| && flags <= block[position] <= flags + Mask(bits)
  {
    HeldAt(block, position, IntegerBytes(flags, bits, value, pad), 0);
  }

  /** The octets at `position` and up to `next` mean `meaning` to the decoder. */
  ghost predicate StepsTo(codec: Codec, block: seq<byte>, position: nat, table: DynamicTable,
                          meaning: Result<Decoded>, next: nat)
    requires |codec.staticTable| == 61
  {
    position < |block| && Step(codec, block, position, table) == Stepped(meaning, next)
  }

  lemma {:induction false} StepReadsIndexed(codec: Codec, block: seq<byte>, position: nat, table: DynamicTable,
                                            rep: Representation)
    requires |codec.staticTable| == 61 && !rep.LiteralField?
    requires Fits(rep) && Holds(block, position, Bytes(rep))
    ensures StepsTo(codec, block, position, table, Denote(codec, table, rep), position + |Bytes(rep)|)
  {
    match rep
    case IndexedField(index, pad) =>
      FirstOctet(block, position, 128, 7, index, pad);
      IntegerRoundTrip(block, position, 128, 7, index, pad);
    case SizeUpdate(size, pad) =>
      FirstOctet(block, position, 32, 5, size, pad);
      IntegerRoundTrip(block, position, 32, 5, size, pad);
  }

  /** The octets at `position` say how the field is treated, and its name is `text`. */
  ghost predicate NamesTo(codec: Codec, block: seq<byte>, position: nat, table: DynamicTable, mode: Mode,
                          text: Result<Str>, next: nat)
    requires |codec.staticTable| == 61
  {
    && position < |block|
    && ModeFlags(mode) <= block[position] <= ModeFlags(mode) + Mask(ModePrefix(mode))
    && DecodeInteger(block, position, ModePrefix(mode)).Ok?
    && FieldName(codec, block, table, DecodeInteger(block, position, ModePrefix(mode)).value) == ReadUpTo(text, next)
  }

  lemma {:induction false} IndexedNameReads(codec: Codec, block: seq<byte>, position: nat, table: DynamicTable,
                                            mode: Mode, index: nat, pad: nat)
    requires |codec.staticTable| == 61
    requires index > 0 && FitsWord(ModeFlags(mode), ModePrefix(mode), index, pad)
    requires Holds(block, position, IntegerBytes(ModeFlags(mode), ModePrefix(mode), index, pad))
    ensures NamesTo(codec, block, position, table, mode, NameText(codec, table, Indexed(index, pad)),
                    position + |IntegerBytes(ModeFlags(mode), ModePrefix(mode), index, pad)|)
  {
    FirstOctet(block, position, ModeFlags(mode), ModePrefix(mode), index, pad);
    IntegerRoundTrip(block, position, ModeFlags(mode), ModePrefix(mode), index, pad);
  }

  lemma {:induction false} NewNameReads(codec: Codec, block: seq<byte>, position: nat, table: DynamicTable, mode: Mode,
                                        literal: Literal)
    requires |codec.staticTable| == 61 && Readable(literal)
    requires Holds(block, position, IntegerBytes(ModeFlags(mode), ModePrefix(mode), 0, 0))
    requires Holds(block, position + 1, LiteralBytes(literal))
    ensures NamesTo(codec, block, position, table, mode, LiteralText(codec.huffman, literal.huffman, literal.octets),
                    position + 1 + |LiteralBytes(literal)|)
  {
    FirstOctet(block, position, ModeFlags(mode), ModePrefix(mode), 0, 0);
    IntegerRoundTrip(block, position, ModeFlags(mode), ModePrefix(mode), 0, 0);
    LiteralReads(codec.huffman, block, position + 1, literal);
  }

  lemma {:induction false} NameReads(codec: Codec, block: seq<byte>, position: nat, table: DynamicTable, mode: Mode,
                                     name: Name)
    requires |codec.staticTable| == 61
    requires NameFits(mode, name) && Holds(block, position, NameBytes(mode, name))
    ensures NamesTo(codec, block, position, table, mode, NameText(codec, table, name),
                    position + |NameBytes(mode, name)|)
  {
    match name
    case Indexed(index, pad) =>
      IndexedNameReads(codec, block, position, table, mode, index, pad);
    case New(literal) =>
      HoldsConcat(block, position, IntegerBytes(ModeFlags(mode), ModePrefix(mode), 0, 0), LiteralBytes(literal));
      NewNameReads(codec, block, position, table, mode, literal);
  }

  lemma {:induction false} ValueReads(codec: Codec, block: seq<byte>, table: DynamicTable, indexed: bool,
                   name: Result<Str>, next: nat, value: Literal)
    requires Readable(value) && Holds(block, next, LiteralBytes(value))
    ensures FieldAfter(codec, block, table, indexed, ReadUpTo(name, next)) ==
            Stepped(FieldMeaning(table, indexed, name, LiteralText(codec.huffman, value.huffman, value.octets)),
                    next + |LiteralBytes(value)|)
  {
    LiteralReads(codec.huffman, block, next, value);
  }

  /** The first octet of a literal field picks the branch for its mode. */
  lemma {:induction false} StepOfLiteral(codec: Codec, block: seq<byte>, position: nat, table: DynamicTable, mode: Mode,
                                         text: Result<Str>, next: nat)
    requires |codec.staticTable| == 61 && NamesTo(codec, block, position, table, mode, text, next)
    ensures Step(codec, block, position, table) ==
            FieldAfter(codec, block, table, mode == Incremental, ReadUpTo(text, next))
  {}

  lemma {:induction false} StepReadsField(codec: Codec, block: seq<byte>, position: nat, table: DynamicTable,
                                          mode: Mode, text: Result<Str>, next: nat, value: Literal)
    requires |codec.staticTable| == 61 && NamesTo(codec, block, position, table, mode, text, next)
    requires Readable(value) && Holds(block, next, LiteralBytes(value))
    ensures StepsTo(codec, block, position, table,
                    FieldMeaning(table, mode == Incremental, text,
                                 LiteralText(codec.huffman, value.huffman, value.octets)),
                    next + |LiteralBytes(value)|)
  {
    StepOfLiteral(codec, block, position, table, mode, text, next);
    ValueReads(codec, block, table, mode == Incremental, text, next, value);
  }

  lemma {:induction false} StepReadsLiteral(codec: Codec, block: seq<byte>, position: nat, table: DynamicTable,
                                            mode: Mode, name: Name, value: Literal, next: nat)
    requires |codec.staticTable| == 61 && NameFits(mode, name) && Readable(value)
    requires Holds(block, position, NameBytes(mode, name)) && next == position + |NameBytes(mode, name)|
    requires Holds(block, next, LiteralBytes(value))
    ensures StepsTo(codec, block, position, table,
                    FieldMeaning(table, mode == Incremental, NameText(codec, table, name),
                                 LiteralText(codec.huffman, value.huffman, value.octets)),
                    next + |LiteralBytes(value)|)
  {
    NameReads(codec, block, position, table, mode, name);
    StepReadsField(codec, block, position, table, mode, NameText(codec, table, name), next, value);
  }

  lemma {:induction false} StepReads(codec: Codec, block: seq<byte>, position: nat, table: DynamicTable,
                                     rep: Representation)
    requires |codec.staticTable| == 61
    requires Fits(rep) && Holds(block, position, Bytes(rep))
    ensures StepsTo(codec, block, position, table, Denote(codec, table, rep), position + |Bytes(rep)|)
  {
    match rep
    case LiteralField(mode, name, value) =>
      HoldsConcat(block, position, NameBytes(mode, name), LiteralBytes(value));
      StepReadsLiteral(codec, block, position, table, mode, name, value, position + |NameBytes(mode, name)|);
    case _ =>
      StepReadsIndexed(codec, block, position, table, rep);
  }

  lemma {:induction false} DecodeStep(codec: Codec, block: seq<byte>, position: nat, table: DynamicTable,
                   meaning: Result<Decoded>, next: nat)
    requires |codec.staticTable| == 61 && StepsTo(codec, block, position, table, meaning, next)
    ensures DecodeFrom(codec, block, position, table) ==
            match meaning
            case Err(e) => Err(e)
            case Ok(d) => After(d.fields, DecodeFrom(codec, block, next, d.table))
  {}

  predicate AllFit(reps: seq<Representation>) {
    forall i | 0 <= i < |reps| :: Fits(reps[i])
  }

  lemma {:induction false} RepresentationDecodes(
      codec: Codec, block: seq<byte>, position: nat, table: DynamicTable, rep: Representation, next: nat)
    requires |codec.staticTable| == 61 && Fits(rep)
    requires Holds(block, position, Bytes(rep)) && next == position + |Bytes(rep)|
    ensures DecodeFrom(codec, block, position, table) ==
            match Denote(codec, table, rep)
            case Err(e) => Err(e)
            case Ok(d) => After(d.fields, DecodeFrom(codec, block, next, d.table))
  {
    StepReads(codec, block, position, table, rep);
    DecodeStep(codec, block, position, table, Denote(codec, table, rep), next);
  }

  lemma {:induction false} BlockReads(
      codec: Codec, block: seq<byte>, position: nat, table: DynamicTable, reps: seq<Representation>)
    requires |codec.staticTable| == 61 && AllFit(reps)
    requires Holds(block, position, BlockBytes(reps)) && position + |BlockBytes(reps)| == |block|
    ensures DecodeFrom(codec, block, position, table) == DenoteBlock(codec, table, reps)
    decreases |reps|
  {
    if reps != [] {
      var next := HoldsFirst(block, position, Bytes(reps[0]), BlockBytes(reps[1..]));
      RepresentationDecodes(codec, block, position, table, reps[0], next);
      var meaning := Denote(codec, table, reps[0]);
      if meaning.Ok? {
        BlockReads(codec, block, next, meaning.value.table, reps[1..]);
      }
    }
  }

  /** A header block means to the decoder what it means to RFC 7541, table and errors included. */
  lemma {:induction false} BlockLockstep(codec: Codec, table: DynamicTable, reps: seq<Representation>)
    requires |codec.staticTable| == 61 && AllFit(reps)
    ensures DecodeFrom(codec, BlockBytes(reps), 0, table) == DenoteBlock(codec, table, reps)
  {
    HoldsWhole(BlockBytes(reps));
    BlockReads(codec, BlockBytes(reps), 0, table, reps);
  }

  // ----- A whole connection

  /** The header lists of a connection's blocks, up to the first error, and the last table. */
  datatype Connection = Connection(lists: seq<seq<Header>>, table: DynamicTable, error: Option<Error>)

  ghost function DecodeBlocks(codec: Codec, table: DynamicTable, blocks: seq<seq<byte>>): Connection
    requires |codec.staticTable| == 61
    decreases |blocks|
  {
    if blocks == [] then Connection([], table, None)
    else match DecodeFrom(codec, blocks[0], 0, table)
      case Err(e) => Connection([], table, Some(e))
      case Ok(d) =>
        var rest := DecodeBlocks(codec, d.table, blocks[1..]);
        rest.(lists := [d.fields] + rest.lists)
  }

  ghost function DenoteBlocks(codec: Codec, table: DynamicTable, blocks: seq<seq<Representation>>): Connection
    requires |codec.staticTable| == 61
    decreases |blocks|
  {
    if blocks == [] then Connection([], table, None)
    else match DenoteBlock(codec, table, blocks[0])
      case Err(e) => Connection([], table, Some(e))
      case Ok(d) =>
        var rest := DenoteBlocks(codec, d.table, blocks[1..]);
        rest.(lists := [d.fields] + rest.lists)
  }

  function Written(blocks: seq<seq<Representation>>): (bytes: seq<seq<byte>>)
    ensures |bytes| == |blocks|
  {
    if blocks == [] then [] else [BlockBytes(blocks[0])] + Written(blocks[1..])
  }

  /** Decoder and encoder stay in lockstep over the whole connection. */
  lemma {:induction false} ConnectionLockstep(
      codec: Codec, table: DynamicTable, blocks: seq<seq<Representation>>)
    requires |codec.staticTable| == 61
    requires forall i | 0 <= i < |blocks| :: AllFit(blocks[i])
    ensures DecodeBlocks(codec, table, Written(blocks)) == DenoteBlocks(codec, table, blocks)
    decreases |blocks|
  {
    if blocks != [] {
      BlockLockstep(codec, table, blocks[0]);
      var first := DenoteBlock(codec, table, blocks[0]);
      assert Written(blocks)[1..] == Written(blocks[1..]);
      if first.Ok? {
        ConnectionLockstep(codec, first.value.table, blocks[1..]);
      }
    }
  }
}
