/** String literals, RFC 7541 section 5.2. */
module HpackString {
  import opened Prelude
  import opened Text
  import opened PrefixCodes
  import opened Huffman
  import opened Buffers
  import opened HpackInteger

  /** What the octets of a literal say: RFC 7541's text, which the program wants in UTF-8. */
  ghost function LiteralText(table: Table, huffman: bool, octets: seq<byte>): Result<Str> {
    var text := if huffman then HuffmanText(table, octets) else Ok(octets);
    if text.Ok? && !Utf8(text.value) then Err(InvalidUtf8) else text
  }

  ghost function DecodeString(table: Table, block: seq<byte>, position: nat): (r: Result<Read<Str>>)
    ensures r.Ok? ==> position < r.value.next <= |block|
  {
    if position >= |block| then Err(MissingString)
    else match DecodeInteger(block, position, 7)
      case Err(e) => Err(e)
      case Ok(len) =>
        if len.next + len.value > |block| then Err(TruncatedString)
        else match LiteralText(table, block[position] >= 128, Octets(block, len.next, len.value))
          case Err(e) => Err(e)
          case Ok(text) => Ok(Read(text, len.next + len.value))
  }

  /** hpack_decode_string */
  method HpackDecodeString(table: Table, block: seq<byte>, start: nat) returns (r: Result<Read<Str>>)
    requires Complete(table)
    ensures r == DecodeString(table, block, start)
  {
    if start >= |block| {
      return Err(MissingString);
    }
    var huffman := block[start] >= 128;
    var len := HpackDecodeInt(block, start, 7);
    if len.Err? {
      return Err(len.error);
    }
    var position, size := len.value.next, len.value.value;
    if position + size > |block| {
      return Err(TruncatedString);
    }
    var raw := block[position..position + size];
    OctetsSlice(block, position, size);
    position := position + size;
    var decoded := Ok(raw);
    if huffman {
      decoded := HuffmanDecode(table, raw);
    }
    if decoded.Err? {
      return Err(decoded.error);
    }
    if !Utf8(decoded.value) {
      return Err(InvalidUtf8);
    }
    return Ok(Read(decoded.value, position));
  }

  /** A literal on the wire: its octets, coded or not, behind a length written with `pad`
      redundant digits. */
  datatype Literal = Literal(huffman: bool, octets: seq<byte>, pad: nat)

  function LiteralBytes(literal: Literal): (bytes: seq<byte>)
    ensures bytes != []
  {
    IntegerBytes(if literal.huffman then 128 else 0, 7, |literal.octets|, literal.pad) +
    literal.octets
  }

  /** The length fits a 32-bit word and five continuation octets. */
  predicate Readable(literal: Literal) {
    && |literal.octets| < U32
    && |IntegerBytes(if literal.huffman then 128 else 0, 7, |literal.octets|, literal.pad)| <= 6
  }

  lemma LiteralReads(table: Table, block: seq<byte>, position: nat, literal: Literal)
    requires Readable(literal) && Holds(block, position, LiteralBytes(literal))
    ensures DecodeString(table, block, position) ==
            match LiteralText(table, literal.huffman, literal.octets)
            case Err(e) => Err(e)
            case Ok(text) => Ok(Read(text, position + |LiteralBytes(literal)|))
  {
    var flags := if literal.huffman then 128 else 0;
    var len := IntegerBytes(flags, 7, |literal.octets|, literal.pad);
    HoldsConcat(block, position, len, literal.octets);
    IntegerRoundTrip(block, position, flags, 7, |literal.octets|, literal.pad);
    HeldAt(block, position, len, 0);
    OctetsHeld(block, position + |len|, literal.octets, |literal.octets|);
    assert literal.octets[..|literal.octets|] == literal.octets;
  }

  /** hpack_encode_string: the length is cut to 32 bits. */
  method HpackEncodeString(out: seq<byte>, value: Str) returns (r: seq<byte>)
    ensures r == out + IntegerBytes(0, 7, Wrap32(|value|), 0) + value
    ensures |value| < U32 ==> r == out + LiteralBytes(Literal(false, value, 0))
  {
    r := HpackEncodeInt(out, 0, 7, Wrap32(|value|));
    r := r + value;
  }
}
