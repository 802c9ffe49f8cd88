/** Octets in their place: what stands where in a buffer. */
module Buffers {
  import opened Prelude

  /** A value and the position after it. */
  datatype Read<+T> = Read(value: T, next: nat)

  predicate SameAt(block: seq<byte>, position: nat, bytes: seq<byte>, i: nat) {
    position + i < |block| && i < |bytes| && block[position + i] == bytes[i]
  }

  /** `bytes` stand in `block` at `position`. */
  ghost predicate Holds(block: seq<byte>, position: nat, bytes: seq<byte>) {
    && position + |bytes| <= |block|
    && forall i: nat {:trigger SameAt(block, position, bytes, i)} :: i < |bytes| ==> SameAt(block, position, bytes, i)
  }

  lemma HeldAt(block: seq<byte>, position: nat, bytes: seq<byte>, i: nat)
    requires Holds(block, position, bytes) && i < |bytes|
    ensures SameAt(block, position, bytes, i)
  {}

  lemma HoldsConcat(block: seq<byte>, position: nat, a: seq<byte>, b: seq<byte>)
    requires Holds(block, position, a + b)
    ensures Holds(block, position, a) && Holds(block, position + |a|, b)
  {
    forall i: nat | i < |a| ensures SameAt(block, position, a, i) {
      assert SameAt(block, position, a + b, i);
    }
    var next := position + |a|;
    forall i: nat | i < |b| ensures SameAt(block, next, b, i) {
      assert SameAt(block, position, a + b, |a| + i);
    }
  }

  lemma HoldsFirst(block: seq<byte>, position: nat, first: seq<byte>, rest: seq<byte>) returns (next: nat)
    requires Holds(block, position, first + rest)
    ensures Holds(block, position, first) && Holds(block, next, rest)
    ensures next == position + |first| && position + |first + rest| == next + |rest|
  {
    next := position + |first|;
    HoldsConcat(block, position, first, rest);
  }

  lemma HoldsWhole(block: seq<byte>)
    ensures Holds(block, 0, block)
  {}

  /** The `n` octets from `start` on. */
  function Octets(block: seq<byte>, start: nat, n: nat): (octets: seq<byte>)
    requires start + n <= |block|
    ensures |octets| == n
  {
    if n == 0 then [] else Octets(block, start, n - 1) + [block[start + n - 1]]
  }

  lemma {:induction false} OctetsHeld(block: seq<byte>, start: nat, bytes: seq<byte>, n: nat)
    requires Holds(block, start, bytes) && n <= |bytes|
    ensures Octets(block, start, n) == bytes[..n]
  {
    if n > 0 {
      OctetsHeld(block, start, bytes, n - 1);
      HeldAt(block, start, bytes, n - 1);
    }
  }

  lemma {:induction false} OctetsSlice(block: seq<byte>, start: nat, n: nat)
    requires start + n <= |block|
    ensures block[start..start + n] == Octets(block, start, n)
  {
    if n > 0 {
      OctetsSlice(block, start, n - 1);
      assert block[start..start + n] == block[start..start + n - 1] + [block[start + n - 1]];
    }
  }

  lemma {:induction false} OctetsJoin(block: seq<byte>, start: nat, m: nat, n: nat)
    requires start + m + n <= |block|
    ensures Octets(block, start, m) + Octets(block, start + m, n) == Octets(block, start, m + n)
  {
    if n > 0 {
      OctetsJoin(block, start, m, n - 1);
    }
  }

  lemma OctetsAre(input: seq<byte>, position: nat, bytes: seq<byte>)
    requires Holds(input, position, bytes)
    ensures Octets(input, position, |bytes|) == bytes
  {
    OctetsHeld(input, position, bytes, |bytes|);
    assert bytes[..|bytes|] == bytes;
  }

  lemma OctetsSplit(input: seq<byte>, middle: nat)
    requires middle <= |input|
    ensures Octets(input, 0, middle) + Octets(input, middle, |input| - middle) == input
  {
    OctetsJoin(input, 0, middle, |input| - middle);
    HoldsWhole(input);
    OctetsAre(input, 0, input);
  }

  lemma {:induction false} OctetsOfPrefix(buffer: seq<byte>, whole: seq<byte>, start: nat, n: nat)
    requires buffer <= whole && start + n <= |buffer|
    ensures Octets(buffer, start, n) == Octets(whole, start, n)
  {
    if n > 0 {
      OctetsOfPrefix(buffer, whole, start, n - 1);
    }
  }

  lemma {:induction false} OctetAt(input: seq<byte>, start: nat, n: nat, k: nat)
    requires start + n <= |input| && k < n
    ensures SameAt(input, start, Octets(input, start, n), k)
  {
    if k < n - 1 {
      OctetAt(input, start, n - 1, k);
    }
  }

  /** Octets of octets. */
  lemma {:induction false} OctetsWithin(input: seq<byte>, start: nat, length: nat, i: nat, n: nat)
    requires start + length <= |input| && i + n <= length
    ensures Octets(Octets(input, start, length), i, n) == Octets(input, start + i, n)
  {
    if n > 0 {
      OctetsWithin(input, start, length, i, n - 1);
      OctetAt(input, start, length, i + n - 1);
    }
  }
}
