/** Prefix integers, RFC 7541 section 5.1, and the 32-bit reader and writer of the program. */
module HpackInteger {
  import opened Prelude
  import opened Bits
  import opened Buffers

  // ----- RFC 7541 section 5.1

  /** The sizes of prefixes that RFC 7541 section 6 and the program use. */
  type prefix = n: nat | 4 <= n <= 7 witness 4

  function Mask(bits: prefix): (mask: nat)
    ensures 15 <= mask <= 127
  {
    match bits case 4 => 15 case 5 => 31 case 6 => 63 case _ => 127
  }

  /** The prefix of an octet, its low `bits` bits. */
  function Low(b: byte, bits: prefix): (low: nat)
    ensures low <= Mask(bits)
  {
    match bits case 4 => b % 16 case 5 => b % 32 case 6 => b % 64 case _ => b % 128
  }

  /** The bits above the prefix: `flags` leaves the prefix clear. */
  predicate Flags(flags: nat, bits: prefix) {
    flags + Mask(bits) < 256 && Low(flags, bits) == 0
  }

  /** octet & 0x7f */
  function Digit(octet: byte): (digit: nat)
    ensures digit < 128
  {
    if octet < 128 then octet else octet - 128
  }

  /** Continuation octets: seven bits each, least significant first. */
  function RfcTail(block: seq<byte>, position: nat): (r: Option<Read<nat>>)
    ensures r.Some? ==> position < r.value.next <= |block|
    decreases |block| - position
  {
    if position >= |block| then None
    else if block[position] < 128 then Some(Read(block[position], position + 1))
    else match RfcTail(block, position + 1)
      case None => None
      case Some(rest) => Some(Read(block[position] - 128 + 128 * rest.value, rest.next))
  }

  /** The integer at `position`, of any size. */
  function RfcInteger(block: seq<byte>, position: nat, bits: prefix): Option<Read<nat>>
  {
    if position >= |block| then None
    else
      var low := Low(block[position], bits);
      if low < Mask(bits) then Some(Read(low, position + 1))
      else match RfcTail(block, position + 1)
        case None => None
        case Some(rest) => Some(Read(Mask(bits) + rest.value, rest.next))
  }

  /** Every way to write the tail of an integer: `pad` redundant zero digits may follow. */
  function TailBytes(value: nat, pad: nat): (bytes: seq<byte>)
    ensures bytes != []
    decreases value, pad
  {
    if value < 128 && pad == 0 then [value]
    else if value < 128 then [value + 128] + TailBytes(0, pad - 1)
    else [value % 128 + 128] + TailBytes(value / 128, pad)
  }

  /** An integer written with the high bits `flags` of its first octet. */
  function IntegerBytes(flags: byte, bits: prefix, value: nat, pad: nat): (bytes: seq<byte>)
    requires Flags(flags, bits)
    ensures bytes != []
  {
    if value < Mask(bits) then [flags + value]
    else [flags + Mask(bits)] + TailBytes(value - Mask(bits), pad)
  }

  lemma {:induction false} TailReads(block: seq<byte>, position: nat, value: nat, pad: nat)
    requires Holds(block, position, TailBytes(value, pad))
    ensures RfcTail(block, position) == Some(Read(value, position + |TailBytes(value, pad)|))
    decreases value, pad
  {
    var bytes := TailBytes(value, pad);
    HeldAt(block, position, bytes, 0);
    if value >= 128 || pad > 0 {
      var v, p := if value < 128 then 0 else value / 128, if value < 128 then pad - 1 else pad;
      assert bytes == [bytes[0]] + TailBytes(v, p);
      HoldsConcat(block, position, [bytes[0]], TailBytes(v, p));
      TailReads(block, position + 1, v, p);
    }
  }

  lemma IntegerReads(
      block: seq<byte>, position: nat, flags: byte, bits: prefix, value: nat, pad: nat)
    requires Flags(flags, bits)
    requires Holds(block, position, IntegerBytes(flags, bits, value, pad))
    ensures RfcInteger(block, position, bits) ==
            Some(Read(value, position + |IntegerBytes(flags, bits, value, pad)|))
  {
    var bytes := IntegerBytes(flags, bits, value, pad);
    HeldAt(block, position, bytes, 0);
    LowBits(flags, bits, if value < Mask(bits) then value else Mask(bits));
    if value >= Mask(bits) {
      HoldsConcat(block, position, [flags + Mask(bits)], TailBytes(value - Mask(bits), pad));
      TailReads(block, position + 1, value - Mask(bits), pad);
    }
  }

  lemma Mod16(flags: nat, low: nat) requires flags % 16 == 0 && low < 16 ensures (flags + low) % 16 == low {}
  lemma Mod32(flags: nat, low: nat) requires flags % 32 == 0 && low < 32 ensures (flags + low) % 32 == low {}
  lemma Mod64(flags: nat, low: nat) requires flags % 64 == 0 && low < 64 ensures (flags + low) % 64 == low {}

  lemma LowBits(flags: byte, bits: prefix, low: nat)
    requires Flags(flags, bits) && low <= Mask(bits)
    ensures Low(flags + low, bits) == low
  {
    match bits
    case 4 => Mod16(flags, low);
    case 5 => Mod32(flags, low);
    case 6 => Mod64(flags, low);
    case _ =>
  }

  /** The writer knows every encoding: whatever the RFC reads, some `pad` writes. */
  lemma {:induction false} EveryTailIsWritten(block: seq<byte>, position: nat) returns (pad: nat)
    requires RfcTail(block, position).Some?
    ensures var read := RfcTail(block, position).value;
            read.next == position + |TailBytes(read.value, pad)| &&
            Holds(block, position, TailBytes(read.value, pad))
    decreases |block| - position
  {
    pad := 0;
    if block[position] >= 128 {
      pad := EveryTailIsWritten(block, position + 1);
      var rest := TailBytes(RfcTail(block, position + 1).value.value, pad);
      if RfcTail(block, position + 1).value.value == 0 {
        pad := pad + 1;
      }
      assert TailBytes(RfcTail(block, position).value.value, pad) == [block[position]] + rest;
      forall i: nat | i < |rest| + 1 ensures SameAt(block, position, [block[position]] + rest, i) {
        if i > 0 {
          HeldAt(block, position + 1, rest, i - 1);
        }
      }
    }
  }

  // ----- hpack_decode_int

  /** Saturating addition of 32-bit words. */
  function Saturate32(x: nat): (r: nat)
    ensures r < U32
    ensures x < U32 ==> r == x
  {
    if x < U32 then x else U32 - 1
  }

  function DecodeTail(block: seq<byte>, position: nat, value: nat, shift: nat): (r: Result<Read<nat>>)
    requires shift <= 28
    ensures r.Ok? ==> r.value.value < U32 && position < r.value.next <= |block|
    decreases |block| - position
  {
    if position >= |block| then Err(TruncatedInteger)
    else
      var sum := Saturate32(value + Wrap32(Scale(Digit(block[position]), shift)));
      if block[position] < 128 then Ok(Read(sum, position + 1))
      else if shift + 7 > 28 then Err(IntegerOverflow)
      else DecodeTail(block, position + 1, sum, shift + 7)
  }

  function DecodeInteger(block: seq<byte>, position: nat, bits: prefix): (r: Result<Read<nat>>)
    ensures r.Ok? ==> r.value.value < U32 && position < r.value.next <= |block|
  {
    if position >= |block| then Err(MissingInteger)
    else
      var low := Low(block[position], bits);
      if low < Mask(bits) then Ok(Read(low, position + 1))
      else DecodeTail(block, position + 1, low, 0)
  }

  /** hpack_decode_int: a result or, with the position the caller goes on from, a value. */
  method HpackDecodeInt(block: seq<byte>, start: nat, bits: prefix) returns (r: Result<Read<nat>>)
    ensures r == DecodeInteger(block, start, bits)
  {
    if start >= |block| {
      return Err(MissingInteger);
    }
    var mask := Mask(bits);
    var value: nat, position: nat := Low(block[start], bits), start + 1;
    if value < mask {
      return Ok(Read(value, position));
    }
    var shift: nat := 0;
    while true
      invariant shift <= 28
      invariant DecodeInteger(block, start, bits) == DecodeTail(block, position, value, shift)
      decreases 28 - shift
    {
      if position >= |block| {
        return Err(TruncatedInteger);
      }
      var b := block[position];
      position := position + 1;
      value := Saturate32(value + Wrap32(Scale(Digit(b), shift)));
      if b < 128 {
        return Ok(Read(value, position));
      }
      if shift + 7 > 28 {
        return Err(IntegerOverflow);
      }
      shift := shift + 7;
    }
  }

  // ----- The reader meets the RFC exactly on integers of at most five continuation octets

  lemma DigitBound(digit: nat, shift: nat)
    requires digit < 128
    ensures Scale(digit, shift) + Pow2(shift) <= Pow2(shift + 7)
  {
    ScaleNext(digit, shift);
    ScaleMonotone(digit + 1, 128, shift);
    ScaleSum(1, 7, shift);
    ScaleSeven(1);
  }

  lemma NextDigit(digit: nat, rest: nat, shift: nat)
    ensures Scale(digit + 128 * rest, shift) == Scale(digit, shift) + Scale(rest, shift + 7)
  {
    ScaleAdd(digit, 128 * rest, shift);
    ScaleSum(rest, 7, shift);
    ScaleSeven(rest);
  }

  /** `got` is what the RFC says the tail adds to `value`, as far as a word can hold it. */
  predicate Meets(got: Result<Read<nat>>, rfc: Option<Read<nat>>, limit: int, value: nat, shift: nat) {
    && (got.Ok? <==> rfc.Some? && rfc.value.next <= limit)
    && (got.Ok? ==>
          && got.value.next == rfc.value.next
          && got.value.value < U32
          && (value + Scale(rfc.value.value, shift) < U32 ==>
                got.value.value == value + Scale(rfc.value.value, shift)))
  }

  /** Before the fifth continuation octet the sum cannot leave the word. */
  lemma WordHoldsSum(value: nat, digit: nat, shift: nat, left: nat)
    requires shift + 7 * left == 35 && left > 1 && digit < 128
    requires value < 127 + Pow2(shift)
    ensures value + Scale(digit, shift) < 127 + Pow2(shift + 7)
    ensures Saturate32(value + Wrap32(Scale(digit, shift))) == value + Scale(digit, shift)
  {
    DigitBound(digit, shift);
    BigPowers();
    ScaleSum(1, shift + 7, 30 - shift - 7);
  }

  function WithDigit(digit: nat, rest: Option<Read<nat>>): Option<Read<nat>> {
    if rest.None? then None else Some(Read(digit + 128 * rest.value.value, rest.value.next))
  }

  lemma {:induction false} MeetsWithDigit(got: Result<Read<nat>>, rest: Option<Read<nat>>, limit: int,
                       value: nat, digit: nat, shift: nat)
    requires Meets(got, rest, limit, value + Scale(digit, shift), shift + 7)
    ensures Meets(got, WithDigit(digit, rest), limit, value, shift)
  {
    if rest.Some? {
      NextDigit(digit, rest.value.value, shift);
    }
  }

  lemma LastOctet(block: seq<byte>, position: nat, value: nat, shift: nat)
    requires shift <= 28 && position < |block| && block[position] < 128
    ensures Meets(DecodeTail(block, position, value, shift), RfcTail(block, position),
                  position + 1, value, shift)
  {
  }

  lemma MiddleOctet(block: seq<byte>, position: nat, value: nat, shift: nat, left: nat)
    requires shift + 7 * left == 35 && left > 1 && value < 127 + Pow2(shift)
    requires position < |block| && block[position] >= 128
    ensures var digit := block[position] - 128;
            var sum := value + Scale(digit, shift);
            && sum < 127 + Pow2(shift + 7)
            && DecodeTail(block, position, value, shift) == DecodeTail(block, position + 1, sum, shift + 7)
            && RfcTail(block, position) == WithDigit(digit, RfcTail(block, position + 1))
  {
    WordHoldsSum(value, block[position] - 128, shift, left);
  }

  lemma MiddleMeets(block: seq<byte>, position: nat, value: nat, shift: nat, left: nat,
                    sum: nat, got: Result<Read<nat>>, rest: Option<Read<nat>>)
    requires shift + 7 * left == 35 && left > 1 && value < 127 + Pow2(shift)
    requires position < |block| && block[position] >= 128
    requires sum == value + Scale(block[position] - 128, shift)
    requires got == DecodeTail(block, position + 1, sum, shift + 7)
    requires rest == RfcTail(block, position + 1)
    requires Meets(got, rest, position + left, sum, shift + 7)
    ensures Meets(DecodeTail(block, position, value, shift), RfcTail(block, position),
                  position + left, value, shift)
  {
    MiddleOctet(block, position, value, shift, left);
    MeetsWithDigit(got, rest, position + left, value, block[position] - 128, shift);
  }

  lemma {:induction false} TailMeetsRfc(
      block: seq<byte>, position: nat, value: nat, shift: nat, left: nat)
    requires shift + 7 * left == 35 && left > 0
    requires value < 127 + Pow2(shift)
    ensures Meets(DecodeTail(block, position, value, shift), RfcTail(block, position),
                  position + left, value, shift)
    decreases left
  {
    if position >= |block| {
    } else if block[position] < 128 {
      LastOctet(block, position, value, shift);
    } else if left > 1 {
      var sum := value + Scale(block[position] - 128, shift);
      WordHoldsSum(value, block[position] - 128, shift, left);
      TailMeetsRfc(block, position + 1, sum, shift + 7, left - 1);
      MiddleMeets(block, position, value, shift, left, sum,
                  DecodeTail(block, position + 1, sum, shift + 7), RfcTail(block, position + 1));
    }
  }

  /** The reader returns the RFC's integer exactly when it ends within five continuation
      octets, and with its value exactly when that fits a 32-bit word. */
  lemma DecodeIntegerMeetsRfc(block: seq<byte>, position: nat, bits: prefix)
    ensures var got, rfc := DecodeInteger(block, position, bits), RfcInteger(block, position, bits);
            && (got.Ok? <==> rfc.Some? && rfc.value.next <= position + 6)
            && (got.Ok? ==>
                  && got.value.next == rfc.value.next
                  && position < got.value.next <= |block|
                  && (got.value.value == rfc.value.value <==> rfc.value.value < U32))
  {
    if position < |block| && Low(block[position], bits) == Mask(bits) {
      TailMeetsRfc(block, position + 1, Mask(bits), 0, 5);
    }
  }

  // ----- hpack_encode_int

  lemma {:induction false} CanonicalLength(value: nat, left: nat)
    requires left > 0 && value < Scale(128, 7 * (left - 1))
    ensures |TailBytes(value, 0)| <= left
  {
    if value >= 128 {
      if left > 1 {
        ScaleSum(128, 7 * (left - 2), 7);
        ScaleSeven(Scale(128, 7 * (left - 2)));
      }
      CanonicalLength(value / 128, left - 1);
    }
  }

  method HpackEncodeInt(out: seq<byte>, flags: byte, bits: prefix, value: nat)
    returns (r: seq<byte>)
    requires Flags(flags, bits) && value < U32
    ensures r == out + IntegerBytes(flags, bits, value, 0)
  {
    var max := Mask(bits);
    if value < max {
      return out + [flags + value];
    }
    r := out + [flags + max];
    var remaining: nat := value - max;
    while remaining >= 128
      invariant r + TailBytes(remaining, 0) == out + IntegerBytes(flags, bits, value, 0)
    {
      r := r + [remaining % 128 + 128];
      remaining := remaining / 128;
    }
    r := r + [remaining];
  }

  /** Reading back what was written, in any surroundings. */
  lemma IntegerRoundTrip(block: seq<byte>, position: nat, flags: byte, bits: prefix, value: nat, pad: nat)
    requires Flags(flags, bits) && value < U32
    requires Holds(block, position, IntegerBytes(flags, bits, value, pad))
    requires |IntegerBytes(flags, bits, value, pad)| <= 6
    ensures DecodeInteger(block, position, bits) ==
            Ok(Read(value, position + |IntegerBytes(flags, bits, value, pad)|))
  {
    IntegerReads(block, position, flags, bits, value, pad);
    DecodeIntegerMeetsRfc(block, position, bits);
  }

  lemma EncodedIntegerIsShort(flags: byte, bits: prefix, value: nat)
    requires Flags(flags, bits) && value < U32
    ensures |IntegerBytes(flags, bits, value, 0)| <= 6
  {
    if value >= Mask(bits) {
      BigPowers();
      ScaleSum(1, 7, 24);
      ScaleSeven(1);
      ScaleSum(128, 24, 4);
      CanonicalLength(value - Mask(bits), 5);
    }
  }
}
