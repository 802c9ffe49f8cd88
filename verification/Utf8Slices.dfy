/** Where UTF-8 text may be cut, and what stays UTF-8. */
module Utf8Slices {
  import opened Prelude
  import opened Text

  predicate Boundary(s: Str, i: nat) {
    i == |s| || (i < |s| && !Continuation(s, i))
  }

  /** From a character on, every octet that does not continue one begins one. */
  lemma {:induction false} CharStarts(s: Str, i: nat, j: nat)
    requires Utf8(s, i) && i <= j && Boundary(s, j)
    ensures Utf8(s, j)
    decreases |s| - i
  {
    if i < j {
      CharStarts(s, i + CharLength(s, i), j);
    }
  }

  lemma {:induction false} Shift(a: Str, b: Str, i: nat)
    requires Utf8(b, i)
    ensures Utf8(a + b, |a| + i)
    decreases |b| - i
  {
    if i < |b| {
      assert CharLength(a + b, |a| + i) == CharLength(b, i);
      Shift(a, b, i + CharLength(b, i));
    }
  }

  lemma {:induction false} Unshift(a: Str, b: Str, i: nat)
    requires Utf8(a + b, |a| + i)
    ensures Utf8(b, i)
    decreases |b| - i
  {
    if i < |b| {
      assert CharLength(a + b, |a| + i) == CharLength(b, i);
      Unshift(a, b, i + CharLength(b, i));
    }
  }

  lemma {:induction false} ConcatFrom(a: Str, b: Str, i: nat)
    requires i <= |a| && Utf8(a, i) && Utf8(b)
    ensures Utf8(a + b, i)
    decreases |a| - i
  {
    if i == |a| {
      Shift(a, b, 0);
    } else {
      assert CharLength(a + b, i) == CharLength(a, i);
      ConcatFrom(a, b, i + CharLength(a, i));
    }
  }

  lemma Concat(a: Str, b: Str)
    requires Utf8(a) && Utf8(b)
    ensures Utf8(a + b)
  {
    ConcatFrom(a, b, 0);
  }

  lemma {:induction false} Before(s: Str, i: nat, j: nat)
    requires Utf8(s, i) && i <= j <= |s| && Boundary(s, j)
    ensures Utf8(s[..j], i)
    decreases |s| - i
  {
    if i < j {
      assert CharLength(s[..j], i) == CharLength(s, i);
      Before(s, i + CharLength(s, i), j);
    }
  }

  /** A cut at two boundaries. */
  lemma Cut(s: Str, i: nat, j: nat)
    requires Utf8(s) && i <= j <= |s| && Boundary(s, i) && Boundary(s, j)
    ensures Utf8(s[i..j])
  {
    CharStarts(s, 0, i);
    Before(s, i, j);
    assert s[..j] == s[..i] + s[i..j];
    Unshift(s[..i], s[i..j], 0);
  }

  /** Text behind text is at a boundary. */
  lemma {:induction false} BehindPrefix(s: Str, a: Str, i: nat)
    requires Utf8(s, i) && Utf8(a, i) && i <= |a| && a <= s
    ensures Utf8(s, |a|)
    decreases |a| - i
  {
    if i < |a| {
      assert CharLength(s, i) == CharLength(a, i);
      BehindPrefix(s, a, i + CharLength(a, i));
    }
  }

  lemma {:induction false} RepairedIsUtf8(bytes: seq<byte>, i: nat)
    ensures Utf8(Repaired(bytes, i))
    decreases |bytes| - i
  {
    if i < |bytes| {
      var n := CharLength(bytes, i);
      var head := if n > 0 then bytes[i..i + n] else [0xEF, 0xBF, 0xBD];
      assert CharLength(head, 0) == |head|;
      RepairedIsUtf8(bytes, i + if n > 0 then n else BrokenLength(bytes, i));
      Concat(head, Repaired(bytes, i + if n > 0 then n else BrokenLength(bytes, i)));
    }
  }

  lemma LossyIsUtf8(bytes: seq<byte>)
    ensures Utf8(Lossy(bytes))
  {
    RepairedIsUtf8(bytes, 0);
  }

  // ----- White space

  /** White space begins at a boundary and is a character. */
  lemma SpaceIsChar(s: Str, i: nat)
    requires SpaceAt(s, i) > 0
    ensures i < |s| && Boundary(s, i) && CharLength(s, i) == SpaceAt(s, i)
  {}

  predicate SpaceFree(s: Str) {
    forall i: nat | i < |s| :: SpaceAt(s, i) == 0
  }

  /** No white space arises where text meets what follows it. */
  lemma SpacesOfConcat(a: Str, b: Str, i: nat)
    requires Utf8(a) && i < |a|
    ensures SpaceAt(a + b, i) == SpaceAt(a, i)
  {
    if SpaceAt(a + b, i) > 0 {
      CharStarts(a, 0, i);
    }
  }

  lemma SpaceFreeConcat(a: Str, b: Str)
    requires Utf8(a) && SpaceFree(a) && SpaceFree(b)
    ensures SpaceFree(a + b)
  {
    forall i: nat | i < |a + b| ensures SpaceAt(a + b, i) == 0 {
      if i < |a| {
        SpacesOfConcat(a, b, i);
      } else {
        assert SpaceAt(a + b, i) == SpaceAt(b, i - |a|);
      }
    }
  }

  lemma SpaceFreeSlice(s: Str, i: nat, j: nat)
    requires i <= j <= |s| && forall k: nat | i <= k < j :: SpaceAt(s, k) == 0
    ensures SpaceFree(s[i..j])
  {
    forall k: nat | k < j - i ensures SpaceAt(s[i..j], k) == 0 {
      assert SpaceAt(s, i + k) == 0;
    }
  }

  predicate Trimmed(s: Str) {
    SpaceAt(s, 0) == 0 && TrimEnd(s) == s
  }

  lemma {:induction false} TrimStartCuts(s: Str) returns (i: nat)
    ensures i <= |s| && TrimStart(s) == s[i..] && SpaceAt(s[i..], 0) == 0
    ensures Utf8(s) ==> Boundary(s, i) && Utf8(s[i..])
    decreases |s|
  {
    var n := SpaceAt(s, 0);
    if n == 0 {
      i := 0;
      assert s[0..] == s;
    } else {
      SpaceIsChar(s, 0);
      if Utf8(s) {
        assert s == s[..n] + s[n..];
        Unshift(s[..n], s[n..], 0);
      }
      var rest := TrimStartCuts(s[n..]);
      i := n + rest;
      assert s[n..][rest..] == s[i..];
      if Utf8(s) && i < |s| {
        assert s[i] == s[i..][0];
        assert CharLength(s[i..], 0) > 0;
      }
    }
  }

  lemma {:induction false} TrimEndCuts(s: Str) returns (j: nat)
    ensures j <= |s| && TrimEnd(s) == s[..j] && TrimEnd(s[..j]) == s[..j]
    ensures Utf8(s) ==> Utf8(s[..j])
    decreases |s|
  {
    var n := |s|;
    var m := if n >= 1 && SpaceAt(s, n - 1) == 1 then 1
             else if n >= 2 && SpaceAt(s, n - 2) == 2 then 2
             else if n >= 3 && SpaceAt(s, n - 3) == 3 then 3 else 0;
    if m == 0 {
      j := n;
      assert s[..n] == s;
    } else {
      SpaceIsChar(s, n - m);
      if Utf8(s) {
        Before(s, 0, n - m);
      }
      j := TrimEndCuts(s[..n - m]);
      assert s[..n - m][..j] == s[..j];
    }
  }

  /** Trimming cuts a slice out, and has nothing left to do. */
  lemma TrimCuts(s: Str) returns (i: nat, j: nat)
    ensures i <= j <= |s| && Trim(s) == s[i..j] && Trimmed(Trim(s))
    ensures Utf8(s) ==> Utf8(Trim(s))
  {
    i := TrimStartCuts(s);
    var k := TrimEndCuts(s[i..]);
    j := i + k;
    assert s[i..][..k] == s[i..j];
  }

  predicate EndsInSpace(s: Str, m: nat) {
    m <= |s| && SpaceAt(s, |s| - m) == m
  }

  lemma TrimEndOf(s: Str)
    ensures TrimEnd(s) == s <==> !EndsInSpace(s, 1) && !EndsInSpace(s, 2) && !EndsInSpace(s, 3)
  {
    var m := if EndsInSpace(s, 1) then 1 else if EndsInSpace(s, 2) then 2 else 3;
    if EndsInSpace(s, m) {
      var j := TrimEndCuts(s[..|s| - m]);
    }
  }

  lemma SpaceWithin(a: Str, b: Str, m: nat)
    requires Utf8(b) && b != [] && 1 <= m <= 3 && EndsInSpace(a + b, m)
    ensures EndsInSpace(b, m)
  {
    assert CharLength(b, 0) > 0;
    assert (a + b)[|a|] == b[0];
    assert forall k | |a| <= k < |a + b| :: (a + b)[k] == b[k - |a|];
  }

  /** Text with no white space at its end keeps it off whatever is in front. */
  lemma TrimEndConcat(a: Str, b: Str)
    requires Utf8(b) && b != [] && TrimEnd(b) == b
    ensures TrimEnd(a + b) == a + b
  {
    TrimEndOf(b);
    TrimEndOf(a + b);
    if TrimEnd(a + b) != a + b {
      var m := if EndsInSpace(a + b, 1) then 1 else if EndsInSpace(a + b, 2) then 2 else 3;
      SpaceWithin(a, b, m);
    }
  }
}
