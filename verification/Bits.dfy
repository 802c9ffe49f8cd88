/** Strings of bits, most significant first, and the numbers they denote. */
module Bits {
  import opened Prelude

  /** x * 2^n, by doubling. */
  function Scale(x: nat, n: nat): (y: nat)
    ensures x <= y
  {
    if n == 0 then x else 2 * Scale(x, n - 1)
  }

  function Pow2(n: nat): (p: nat)
    ensures p > 0
  {
    Scale(1, n)
  }

  lemma {:induction false} ScaleSum(x: nat, m: nat, n: nat)
    ensures Scale(Scale(x, m), n) == Scale(x, m + n)
  {
    if n > 0 {
      ScaleSum(x, m, n - 1);
    }
  }

  lemma ScaleSeven(x: nat)
    ensures Scale(x, 7) == 128 * x
  {
    assert Scale(x, 1) == 2 * x;
    assert Scale(x, 2) == 4 * x;
    assert Scale(x, 3) == 8 * x;
    assert Scale(x, 4) == 16 * x;
    assert Scale(x, 5) == 32 * x;
    assert Scale(x, 6) == 64 * x;
  }

  lemma {:induction false} ScaleMonotone(x: nat, y: nat, n: nat)
    ensures x <= y <==> Scale(x, n) <= Scale(y, n)
  {
    if n > 0 {
      ScaleMonotone(x, y, n - 1);
    }
  }

  lemma {:induction false} ScaleAdd(x: nat, y: nat, n: nat)
    ensures Scale(x + y, n) == Scale(x, n) + Scale(y, n)
  {
    if n > 0 {
      ScaleAdd(x, y, n - 1);
    }
  }

  lemma {:induction false} ScaleNext(x: nat, n: nat)
    ensures Scale(x + 1, n) == Scale(x, n) + Pow2(n)
  {
    if n > 0 {
      ScaleNext(x, n - 1);
    }
  }

  lemma BigPowers()
    ensures Pow2(8) == 256 && Pow2(30) == 0x4000_0000 && Pow2(31) == 0x8000_0000
  {
    assert Scale(1, 10) == 1024 && Scale(1024, 10) == 0x10_0000;
    assert Scale(0x10_0000, 10) == 0x4000_0000;
    ScaleSum(1, 10, 10);
    ScaleSum(1, 20, 10);
  }

  function BitValue(bit: bool): (value: nat)
    ensures value < 2
  {
    if bit then 1 else 0
  }

  function Value(bits: seq<bool>): nat {
    if bits == [] then 0
    else 2 * Value(bits[..|bits| - 1]) + BitValue(bits[|bits| - 1])
  }

  function Digits(value: nat, len: nat): (bits: seq<bool>)
    ensures |bits| == len
  {
    if len == 0 then [] else Digits(value / 2, len - 1) + [value % 2 == 1]
  }

  function Ones(n: nat): seq<bool> {
    seq(n, _ => true)
  }

  function ByteBits(b: byte): seq<bool> {
    Digits(b, 8)
  }

  function BitsOf(input: seq<byte>): (bits: seq<bool>)
    ensures |bits| == 8 * |input|
  {
    if input == [] then [] else BitsOf(input[..|input| - 1]) + ByteBits(input[|input| - 1])
  }

  lemma {:induction false} ValueBound(bits: seq<bool>)
    ensures Value(bits) < Pow2(|bits|)
    ensures |bits| == 8 ==> Value(bits) < 256
  {
    if bits != [] {
      ValueBound(bits[..|bits| - 1]);
    }
    if |bits| == 8 {
      assert Pow2(8) == 256;
    }
  }

  lemma {:induction false} ValueConcat(p: seq<bool>, q: seq<bool>)
    ensures Value(p + q) == Scale(Value(p), |q|) + Value(q)
  {
    if q == [] {
      assert p + q == p;
    } else {
      assert (p + q)[..|p + q| - 1] == p + q[..|q| - 1];
      ValueConcat(p, q[..|q| - 1]);
    }
  }

  lemma PrefixValue(p: seq<bool>, q: seq<bool>)
    requires p <= q
    ensures Scale(Value(p), |q| - |p|) <= Value(q) < Scale(Value(p) + 1, |q| - |p|)
  {
    assert q == p + q[|p|..];
    ValueConcat(p, q[|p|..]);
    ValueBound(q[|p|..]);
    ScaleNext(Value(p), |q| - |p|);
  }

  lemma {:induction false} ValueInjective(p: seq<bool>, q: seq<bool>)
    requires |p| == |q| && Value(p) == Value(q)
    ensures p == q
  {
    if p != [] {
      var m := |p| - 1;
      ValueInjective(p[..m], q[..m]);
      assert p == p[..m] + [p[m]] && q == q[..m] + [q[m]];
    }
  }

  lemma {:induction false} ValueOfSnoc(bits: seq<bool>, next: bool)
    ensures Value(bits + [next]) == 2 * Value(bits) + BitValue(next)
  {
    assert (bits + [next])[..|bits|] == bits;
  }

  lemma Halves(value: nat)
    ensures value == 2 * (value / 2) + BitValue(value % 2 == 1)
  {}

  lemma {:induction false} DigitsValue(value: nat, len: nat)
    requires value < Pow2(len)
    ensures Value(Digits(value, len)) == value
  {
    if len > 0 {
      DigitsValue(value / 2, len - 1);
      ValueOfSnoc(Digits(value / 2, len - 1), value % 2 == 1);
      Halves(value);
    }
  }

  lemma {:induction false} OnesValue(n: nat)
    ensures Value(Ones(n)) == Pow2(n) - 1
  {
    if n > 0 {
      assert Ones(n)[..n - 1] == Ones(n - 1);
      OnesValue(n - 1);
    }
  }

  /** (value >> k) & 1 == 1. */
  predicate BitOf(value: nat, k: nat) {
    if k == 0 then value % 2 == 1 else BitOf(value / 2, k - 1)
  }

  lemma {:induction false} BitHigher(value: nat, k: nat)
    requires k > 0
    ensures BitOf(value, k) == BitOf(value / 2, k - 1)
  {}

  /** Bits of the input, byte by byte from the most significant one. */
  lemma {:induction false} BitOfInput(input: seq<byte>, i: nat, k: nat)
    requires i < |input| && k < 8
    ensures BitsOf(input)[8 * i + 7 - k] == BitOf(input[i], k)
  {
    if i == |input| - 1 {
      DigitAt(input[i], 8, 7 - k);
    } else {
      BitOfInput(input[..|input| - 1], i, k);
    }
  }

  lemma {:induction false} DigitAt(value: nat, len: nat, i: nat)
    requires i < len
    ensures Digits(value, len)[i] == BitOf(value, len - 1 - i)
  {
    if i < len - 1 {
      DigitAt(value / 2, len - 1, i);
    }
  }

  lemma BitsOfSnoc(input: seq<byte>, b: byte)
    ensures BitsOf(input + [b]) == BitsOf(input) + ByteBits(b)
  {
    assert (input + [b])[..|input|] == input;
  }

  lemma ByteRoundTrip(bits: seq<bool>)
    requires |bits| == 8
    ensures Value(bits) < 256 && ByteBits(Value(bits)) == bits
  {
    ValueBound(bits);
    DigitsValue(Value(bits), 8);
    ValueInjective(ByteBits(Value(bits)), bits);
  }

  /** Bits in whole octets are the bits of some octets. */
  lemma {:induction false} Pack(bits: seq<bool>) returns (octets: seq<byte>)
    requires |bits| % 8 == 0
    ensures BitsOf(octets) == bits
  {
    if bits == [] {
      octets := [];
    } else {
      var front, last := bits[..|bits| - 8], bits[|bits| - 8..];
      octets := Pack(front);
      ByteRoundTrip(last);
      BitsOfSnoc(octets, Value(last));
      octets := octets + [Value(last)];
      assert bits == front + last;
    }
  }

  lemma ConcatInjective(p: seq<bool>, q: seq<bool>, r: seq<bool>, s: seq<bool>)
    requires p + q == r + s && |p| == |r|
    ensures p == r && q == s
  {
    assert p == (p + q)[..|p|] == r;
    assert q == (p + q)[|p|..] == s;
  }

  lemma ByteBitsInjective(b: byte, c: byte)
    requires ByteBits(b) == ByteBits(c)
    ensures b == c
  {
    BigPowers();
    DigitsValue(b, 8);
    DigitsValue(c, 8);
  }

  lemma {:induction false} BitsOfInjective(a: seq<byte>, b: seq<byte>)
    requires BitsOf(a) == BitsOf(b)
    ensures a == b
  {
    assert |a| == |b|;
    if a != [] {
      var n := |a| - 1;
      ConcatInjective(BitsOf(a[..n]), ByteBits(a[n]), BitsOf(b[..n]), ByteBits(b[n]));
      BitsOfInjective(a[..n], b[..n]);
      ByteBitsInjective(a[n], b[n]);
      assert a == a[..n] + [a[n]] && b == b[..n] + [b[n]];
    }
  }
}
