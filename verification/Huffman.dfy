/** Huffman-coded string literals, RFC 7541 section 5.2. */
module Huffman {
  import opened Prelude
  import opened Bits
  import opened PrefixCodes

  function Codes(table: Table, text: seq<byte>): seq<bool> {
    if text == [] then []
    else Codes(table, text[..|text| - 1]) + CodeBits(table, text[|text| - 1])
  }

  lemma CodesAppend(table: Table, text: seq<byte>, symbol: byte)
    ensures Codes(table, text + [symbol]) == Codes(table, text) + CodeBits(table, symbol)
  {
    assert (text + [symbol])[..|text|] == text;
  }

  lemma ConcatAssociative(p: seq<bool>, q: seq<bool>, r: seq<bool>)
    ensures p + q + r == p + (q + r)
  {}

  lemma {:induction false} CodesFront(table: Table, symbol: byte, text: seq<byte>)
    ensures Codes(table, [symbol] + text) == CodeBits(table, symbol) + Codes(table, text)
  {
    if text == [] {
      assert [symbol] + text == [] + [symbol];
      CodesAppend(table, [], symbol);
    } else {
      var front, last := text[..|text| - 1], text[|text| - 1];
      CodesFront(table, symbol, front);
      CodesAppend(table, [symbol] + front, last);
      ConcatAssociative(CodeBits(table, symbol), Codes(table, front), CodeBits(table, last));
      assert [symbol] + text == ([symbol] + front) + [last];
    }
  }

  lemma HeadsAgree(table: Table, s: byte, p: seq<bool>, t: byte, q: seq<bool>)
    requires Complete(table)
    requires CodeBits(table, s) + p == CodeBits(table, t) + q
    ensures s == t && p == q
  {
    var c, d := CodeBits(table, s), CodeBits(table, t);
    if |c| <= |d| {
      assert c == (c + p)[..|c|] == d[..|c|];
      assert Begins(table, s, d);
    } else {
      assert d == (d + q)[..|d|] == c[..|d|];
      assert Begins(table, t, c);
    }
    assert p == (c + p)[|c|..];
  }

  lemma CodesTail(table: Table, text: seq<byte>, rest: seq<bool>)
    requires text != []
    ensures Codes(table, text) + rest == CodeBits(table, text[0]) + (Codes(table, text[1..]) + rest)
  {
    assert text == [text[0]] + text[1..];
    CodesFront(table, text[0], text[1..]);
    ConcatAssociative(CodeBits(table, text[0]), Codes(table, text[1..]), rest);
  }

  lemma NoCodeBegins(table: Table, p: seq<bool>, text: seq<byte>, rest: seq<bool>)
    requires Stuck(table, p)
    ensures p == Codes(table, text) + rest ==> text == []
  {
    if text != [] {
      var first := CodeBits(table, text[0]);
      CodesTail(table, text, rest);
      assert p == Codes(table, text) + rest ==> first <= p;
      assert !Begins(table, text[0], p);
    }
  }

  /** A bit string splits in one way only into codes and a rest no code begins. */
  lemma {:induction false} SplitUnique(
      table: Table, a: seq<byte>, p: seq<bool>, b: seq<byte>, q: seq<bool>)
    requires Complete(table)
    requires Codes(table, a) + p == Codes(table, b) + q
    requires Stuck(table, p) && Stuck(table, q)
    ensures a == b && p == q
  {
    assert a == [] ==> Codes(table, a) + p == p;
    assert b == [] ==> Codes(table, b) + q == q;
    NoCodeBegins(table, p, b, q);
    NoCodeBegins(table, q, a, p);
    if a != [] && b != [] {
      CodesTail(table, a, p);
      CodesTail(table, b, q);
      HeadsAgree(table, a[0], Codes(table, a[1..]) + p, b[0], Codes(table, b[1..]) + q);
      SplitUnique(table, a[1..], p, b[1..], q);
      assert a == [a[0]] + a[1..] && b == [b[0]] + b[1..];
    }
  }

  lemma PaddingStuck(table: Table, pad: nat)
    requires Complete(table) && pad <= 30
    ensures Stuck(table, Ones(pad))
  {
    assert Stuck(table, Ones(pad) + []);
    assert Ones(pad) + [] == Ones(pad);
  }

  // ----- What an octet string denotes

  /** The octets are the codes of `text` and at most seven one-bits of padding. */
  ghost predicate Encodes(table: Table, octets: seq<byte>, text: seq<byte>) {
    exists pad: nat :: pad <= 7 && BitsOf(octets) == Codes(table, text) + Ones(pad)
  }

  /** At a symbol boundary the octets hold all of EOS and at least one more bit. */
  ghost predicate RunsPastEos(table: Table, octets: seq<byte>, text: seq<byte>, rest: seq<bool>) {
    BitsOf(octets) == Codes(table, text) + (Ones(30) + rest) && rest != []
  }

  /** RFC 7541's reading of Huffman-coded octets, with the program's two kinds of error. */
  ghost function HuffmanText(table: Table, octets: seq<byte>): Result<seq<byte>> {
    if exists text :: Encodes(table, octets, text) then
      (var text :| Encodes(table, octets, text); Ok(text))
    else if exists text, rest :: RunsPastEos(table, octets, text, rest) then
      Err(InvalidHuffmanCode)
    else
      Err(InvalidHuffmanPadding)
  }

  function PadLength(bits: nat): (pad: nat)
    ensures pad <= 7 && (bits + pad) % 8 == 0
  {
    (8 - bits % 8) % 8
  }

  function PaddedCodes(table: Table, text: seq<byte>): (bits: seq<bool>)
    ensures |bits| % 8 == 0
  {
    var codes := Codes(table, text);
    codes + Ones(PadLength(|codes|))
  }

  /** The codes of `text`, padded to a whole number of octets. */
  ghost function HuffmanEncode(table: Table, text: seq<byte>): (octets: seq<byte>)
    ensures BitsOf(octets) == PaddedCodes(table, text)
  {
    assert exists o :: BitsOf(o) == PaddedCodes(table, text) by {
      var o := Pack(PaddedCodes(table, text));
    }
    var octets :| BitsOf(octets) == PaddedCodes(table, text);
    octets
  }

  lemma EncodesOnlySplit(
      table: Table, octets: seq<byte>, text: seq<byte>, rest: seq<bool>, other: seq<byte>)
    requires Complete(table)
    requires BitsOf(octets) == Codes(table, text) + rest && Stuck(table, rest)
    requires Encodes(table, octets, other)
    ensures other == text && |rest| <= 7 && rest == Ones(|rest|)
  {
    var pad: nat :| pad <= 7 && BitsOf(octets) == Codes(table, other) + Ones(pad);
    PaddingStuck(table, pad);
    SplitUnique(table, other, Ones(pad), text, rest);
  }

  lemma PastEosOnlySplit(table: Table, octets: seq<byte>, text: seq<byte>, rest: seq<bool>,
                         other: seq<byte>, more: seq<bool>)
    requires Complete(table)
    requires BitsOf(octets) == Codes(table, text) + rest && Stuck(table, rest)
    requires RunsPastEos(table, octets, other, more)
    ensures rest == Ones(30) + more
  {
    assert Stuck(table, Ones(30) + more);
    SplitUnique(table, other, Ones(30) + more, text, rest);
  }

  /** The octets read as `text` when nothing but short padding follows its codes. */
  lemma Accepted(table: Table, octets: seq<byte>, text: seq<byte>, pad: nat)
    requires Complete(table)
    requires BitsOf(octets) == Codes(table, text) + Ones(pad) && pad <= 7
    ensures HuffmanText(table, octets) == Ok(text)
  {
    assert Encodes(table, octets, text);
    PaddingStuck(table, pad);
    forall other | Encodes(table, octets, other) ensures other == text {
      EncodesOnlySplit(table, octets, text, Ones(pad), other);
    }
  }

  lemma BadPadding(table: Table, octets: seq<byte>, text: seq<byte>, rest: seq<bool>)
    requires Complete(table)
    requires BitsOf(octets) == Codes(table, text) + rest && Stuck(table, rest)
    requires |rest| <= 30
    requires rest != Ones(|rest|) || |rest| > 7
    ensures HuffmanText(table, octets) == Err(InvalidHuffmanPadding)
  {
    forall other | Encodes(table, octets, other) ensures false {
      EncodesOnlySplit(table, octets, text, rest, other);
    }
    forall other, more | RunsPastEos(table, octets, other, more) ensures false {
      PastEosOnlySplit(table, octets, text, rest, other, more);
    }
  }

  lemma PastEos(table: Table, octets: seq<byte>, text: seq<byte>, n: nat, rest: seq<bool>)
    requires Complete(table)
    requires Split(BitsOf(octets), n, Codes(table, text), rest)
    requires |rest| == 31 && Stuck(table, rest)
    ensures HuffmanText(table, octets) == Err(InvalidHuffmanCode)
  {
    var codes, bits := Codes(table, text), BitsOf(octets);
    var more := bits[|codes| + 30..];
    assert StartsWithEos(rest);
    assert bits == bits[..n] + bits[n..];
    assert bits == codes + (rest[..30] + more);
    assert RunsPastEos(table, octets, text, more);
    HuffmanFailures(table, octets);
  }

  // ----- Decoding is a bijection between texts and their padded code strings

  lemma HuffmanRoundTrip(table: Table, text: seq<byte>)
    requires Complete(table)
    ensures HuffmanText(table, HuffmanEncode(table, text)) == Ok(text)
  {
    Accepted(table, HuffmanEncode(table, text), text, PadLength(|Codes(table, text)|));
  }

  lemma HuffmanDecodesOnlyEncodings(table: Table, octets: seq<byte>, text: seq<byte>)
    requires HuffmanText(table, octets) == Ok(text)
    ensures octets == HuffmanEncode(table, text)
  {
    var pad: nat :| pad <= 7 && BitsOf(octets) == Codes(table, text) + Ones(pad);
    PadUnique(|octets|, |Codes(table, text)|, pad);
    BitsOfInjective(octets, HuffmanEncode(table, text));
  }

  lemma PadUnique(octets: nat, codes: nat, pad: nat)
    requires pad <= 7 && codes + pad == 8 * octets
    ensures pad == PadLength(codes)
  {}

  /** The two ways to fail: the octets run past an EOS, or end in bad padding. */
  lemma HuffmanFailures(table: Table, octets: seq<byte>)
    requires Complete(table)
    ensures HuffmanText(table, octets) == Err(InvalidHuffmanCode) <==>
            exists text, rest :: RunsPastEos(table, octets, text, rest)
    ensures HuffmanText(table, octets).Ok? <==>
            exists text :: Encodes(table, octets, text)
  {
    forall text, rest, other
      | RunsPastEos(table, octets, text, rest) && Encodes(table, octets, other)
      ensures false
    {
      assert Stuck(table, Ones(30) + rest);
      EncodesOnlySplit(table, octets, text, Ones(30) + rest, other);
    }
  }

  /** Any string in which EOS stands at a symbol boundary is rejected. */
  lemma EosRejected(table: Table, octets: seq<byte>, text: seq<byte>, rest: seq<bool>)
    requires Complete(table)
    requires BitsOf(octets) == Codes(table, text) + (Ones(30) + rest)
    ensures HuffmanText(table, octets) ==
            Err(if rest == [] then InvalidHuffmanPadding else InvalidHuffmanCode)
  {
    assert Stuck(table, Ones(30) + rest);
    if rest == [] {
      BadPadding(table, octets, text, Ones(30) + rest);
    } else {
      assert RunsPastEos(table, octets, text, rest);
      HuffmanFailures(table, octets);
    }
  }

  // ----- The decoder

  /** Scans the table for a code, first match first. */
  method HuffmanSymbol(table: Table, code: nat, len: nat) returns (symbol: Option<byte>)
    ensures symbol.Some? ==> table[symbol.value] == Code(code, len)
    ensures symbol.None? ==> Code(code, len) !in table
  {
    for i := 0 to 256
      invariant Code(code, len) !in table[..i]
    {
      if table[i].bits == code && table[i].len == len {
        return Some(i);
      }
    }
    assert table[..256] == table;
    return None;
  }

  lemma ExtendStuck(table: Table, pending: seq<bool>, next: bool)
    requires Complete(table) && Stuck(table, pending)
    requires Code(Value(pending + [next]), |pending| + 1) !in table
    ensures Stuck(table, pending + [next])
  {
    var bits := pending + [next];
    forall s: byte ensures !Begins(table, s, bits) {
      var c := CodeBits(table, s);
      assert Numbered(table, s) && table[s] in table;
      assert !Begins(table, s, pending);
      assert c <= bits && |c| <= |pending| ==> c <= pending;
      assert c <= bits && |c| == |bits| ==> c == bits;
    }
  }

  lemma PendingBound(pending: seq<bool>)
    requires |pending| <= 30
    ensures Value(pending) < 0x4000_0000
  {
    ValueBound(pending);
    BigPowers();
    ScaleSum(1, |pending|, 30 - |pending|);
  }

  /** `code << 1 | bit`, where the code does not outgrow its word. */
  lemma {:induction false} ValueOfNext(pending: seq<bool>, next: bool)
    requires |pending| <= 30
    ensures Value(pending + [next]) == Wrap32(2 * Value(pending) + BitValue(next))
  {
    ValueOfSnoc(pending, next);
    PendingBound(pending);
  }

  /** The first `n` bits are `codes` and then `pending`. */
  predicate Split(bits: seq<bool>, n: nat, codes: seq<bool>, pending: seq<bool>) {
    n <= |bits| && bits[..n] == codes + pending
  }

  lemma SplitNext(bits: seq<bool>, n: nat, codes: seq<bool>, pending: seq<bool>, next: bool)
    requires Split(bits, n, codes, pending) && n < |bits| && bits[n] == next
    ensures Split(bits, n + 1, codes, pending + [next])
    ensures Split(bits, n + 1, codes + (pending + [next]), [])
  {
    assert bits[..n + 1] == bits[..n] + [next];
  }

  lemma NextSymbol(table: Table, result: seq<byte>, bits: seq<bool>, symbol: byte)
    requires Complete(table) && table[symbol] == Code(Value(bits), |bits|)
    ensures Codes(table, result + [symbol]) == Codes(table, result) + bits
  {
    CodesAppend(table, result, symbol);
    assert Numbered(table, symbol);
    ValueInjective(CodeBits(table, symbol), bits);
  }

  lemma Finish(table: Table, input: seq<byte>, result: seq<byte>, pending: seq<bool>)
    requires Complete(table) && Stuck(table, pending) && |pending| <= 30
    requires Split(BitsOf(input), 8 * |input|, Codes(table, result), pending)
    ensures HuffmanText(table, input) ==
            if |pending| <= 7 && Value(pending) == Pow2(|pending|) - 1
            then Ok(result) else Err(InvalidHuffmanPadding)
  {
    var bits := BitsOf(input);
    assert bits[..8 * |input|] == bits;
    OnesValue(|pending|);
    if |pending| <= 7 && Value(pending) == Pow2(|pending|) - 1 {
      ValueInjective(pending, Ones(|pending|));
      Accepted(table, input, result, |pending|);
    } else {
      BadPadding(table, input, result, pending);
    }
  }

  /** The first `n` bits are the codes of `result` and then `pending`, with which no code begins;
      `code` and `len` describe it. */
  ghost predicate Reached(table: Table, bits: seq<bool>, n: nat, result: seq<byte>, pending: seq<bool>,
                          code: nat, len: nat)
  {
    && Split(bits, n, Codes(table, result), pending) && Stuck(table, pending)
    && len == |pending| && code == Value(pending)
  }

  lemma SymbolReached(table: Table, bits: seq<bool>, n: nat, result: seq<byte>, pending: seq<bool>, code: nat,
                      len: nat, next: bool, symbol: byte)
    requires Complete(table) && Reached(table, bits, n, result, pending, code, len) && len <= 30
    requires n < |bits| && bits[n] == next
    requires table[symbol] == Code(Wrap32(2 * code + BitValue(next)), len + 1)
    ensures Reached(table, bits, n + 1, result + [symbol], [], 0, 0)
  {
    SplitNext(bits, n, Codes(table, result), pending, next);
    ValueOfNext(pending, next);
    NextSymbol(table, result, pending + [next], symbol);
  }

  lemma BitReached(table: Table, bits: seq<bool>, n: nat, result: seq<byte>, pending: seq<bool>, code: nat,
                   len: nat, next: bool)
    requires Complete(table) && Reached(table, bits, n, result, pending, code, len) && len <= 30
    requires n < |bits| && bits[n] == next
    requires Code(Wrap32(2 * code + BitValue(next)), len + 1) !in table
    ensures Reached(table, bits, n + 1, result, pending + [next], Wrap32(2 * code + BitValue(next)), len + 1)
  {
    SplitNext(bits, n, Codes(table, result), pending, next);
    ValueOfNext(pending, next);
    ExtendStuck(table, pending, next);
  }

  /** Shifts the bits in one by one; `code` and `len` describe those since the last symbol. */
  method HuffmanDecode(table: Table, input: seq<byte>) returns (r: Result<seq<byte>>)
    requires Complete(table)
    ensures r == HuffmanText(table, input)
  {
    var result: seq<byte> := [];
    var code: nat, len: nat := 0, 0;
    ghost var bits, n, pending: seq<bool> := BitsOf(input), 0, [];
    for i := 0 to |input|
      invariant n == 8 * i && len <= 30 && Reached(table, bits, n, result, pending, code, len)
    {
      for bitIndex := 8 downto 0
        invariant n == 8 * i + 8 - bitIndex
        invariant len <= 30 && Reached(table, bits, n, result, pending, code, len)
      {
        var next := BitOf(input[i], bitIndex);
        BitOfInput(input, i, bitIndex);
        ghost var before := code;
        code := Wrap32(2 * code + BitValue(next));
        var symbol := HuffmanSymbol(table, code, len + 1);
        if symbol.Some? {
          SymbolReached(table, bits, n, result, pending, before, len, next, symbol.value);
          result, code, len, pending := result + [symbol.value], 0, 0, [];
        } else {
          BitReached(table, bits, n, result, pending, before, len, next);
          len, pending := len + 1, pending + [next];
          if len > 30 {
            PastEos(table, input, result, n + 1, pending);
            return Err(InvalidHuffmanCode);
          }
        }
        n := n + 1;
      }
    }
    Finish(table, input, result, pending);
    if len > 0 {
      var padding := Pow2(len) - 1;
      if len > 7 || code != padding {
        return Err(InvalidHuffmanPadding);
      }
    }
    return Ok(result);
  }
}
