/** Canonical code tables: the codes of one length are consecutive numbers, and those of the
    next length go on where they stop.  Such a table is a prefix code; with EOS, the thirty
    one-bits, as the only number left over, it is complete. */
module PrefixCodes {
  import opened Prelude
  import opened Bits

  datatype Code = Code(bits: nat, len: nat)

  type Table = t: seq<Code> | |t| == 256 witness seq(256, _ => Code(0, 0))

  function CodeBits(table: Table, symbol: byte): (bits: seq<bool>)
    ensures |bits| == table[symbol].len
  {
    Digits(table[symbol].bits, table[symbol].len)
  }

  /** The code of `symbol` is a prefix of `bits`. */
  predicate Begins(table: Table, symbol: byte, bits: seq<bool>) {
    CodeBits(table, symbol) <= bits
  }

  /** No code is a prefix of `bits`. */
  ghost predicate Stuck(table: Table, bits: seq<bool>) {
    forall s: byte :: !Begins(table, s, bits)
  }

  predicate Numbered(table: Table, s: byte) {
    Value(CodeBits(table, s)) == table[s].bits
  }

  predicate StartsWithEos(bits: seq<bool>) {
    |bits| >= 30 && bits[..30] == Ones(30)
  }

  /** No code is empty or a prefix of another; the one string without a code is EOS. */
  ghost predicate Complete(table: Table) {
    && (forall s: byte, t: byte :: Begins(table, s, CodeBits(table, t)) ==> s == t)
    && (forall s: byte :: Numbered(table, s))
    && Stuck(table, [])
    && (forall bits :: |bits| == 31 && Stuck(table, bits) ==> StartsWithEos(bits))
    && (forall n, rest :: n == 30 || (0 <= n < 30 && rest == []) ==> Stuck(table, Ones(n) + rest))
  }

  // ----- Canonical tables

  /** The first code of a length, how many codes have it, and how many are shorter. */
  datatype Lengths = Lengths(first: nat, count: nat, shorter: nat)

  predicate NextLength(layout: nat -> Lengths, len: nat) {
    && layout(len + 1).first == 2 * (layout(len).first + layout(len).count)
    && layout(len + 1).shorter == layout(len).shorter + layout(len).count
  }

  ghost predicate Consecutive(layout: nat -> Lengths) {
    forall len: nat :: len < 31 ==> NextLength(layout, len)
  }

  predicate Placed(layout: nat -> Lengths, code: Code) {
    && 0 < code.len <= 30
    && layout(code.len).first <= code.bits < layout(code.len).first + layout(code.len).count
  }

  predicate PlacedAt(table: Table, layout: nat -> Lengths, s: byte) {
    Placed(layout, table[s])
  }

  predicate SameCode(table: Table, s: byte, t: byte) {
    table[s] == table[t]
  }

  /** Each symbol has a code of its own; there are 256, and one number is left over. */
  ghost predicate Canonical(table: Table, layout: nat -> Lengths) {
    && (forall s: byte :: PlacedAt(table, layout, s))
    && (forall s: byte, t: byte :: SameCode(table, s, t) ==> s == t)
    && Consecutive(layout)
    && layout(0) == Lengths(0, 0, 0)
    && layout(31).shorter == 256
    && layout(31).first == 0x7fff_fffe
  }

  lemma {:induction false} FirstGrows(layout: nat -> Lengths, a: nat, b: nat)
    requires a < b <= 31 && Consecutive(layout)
    ensures Scale(layout(a).first + layout(a).count, b - a) <= layout(b).first
    ensures layout(a).shorter + layout(a).count <= layout(b).shorter
  {
    assert NextLength(layout, b - 1);
    if a + 1 < b {
      FirstGrows(layout, a, b - 1);
    }
  }

  /** Room is left above the last code of every length. */
  lemma CodesFit(table: Table, layout: nat -> Lengths, len: nat)
    requires Canonical(table, layout) && len <= 30
    ensures layout(len).first + layout(len).count < Pow2(len)
  {
    FirstGrows(layout, len, 31);
    BigPowers();
    ScaleSum(1, len, 31 - len);
    ScaleMonotone(Pow2(len), layout(len).first + layout(len).count, 31 - len);
  }

  lemma CodeBitsValue(table: Table, layout: nat -> Lengths, symbol: byte)
    requires Canonical(table, layout)
    ensures Value(CodeBits(table, symbol)) == table[symbol].bits
    ensures table[symbol].bits + 1 < Pow2(table[symbol].len)
  {
    assert PlacedAt(table, layout, symbol);
    CodesFit(table, layout, table[symbol].len);
    DigitsValue(table[symbol].bits, table[symbol].len);
  }

  lemma NoLaterClass(layout: nat -> Lengths, a: Code, b: Code)
    requires Consecutive(layout) && Placed(layout, a) && Placed(layout, b)
    ensures a.len < b.len ==> Scale(a.bits + 1, b.len - a.len) <= b.bits
  {
    if a.len < b.len {
      FirstGrows(layout, a.len, b.len);
      ScaleMonotone(a.bits + 1, layout(a.len).first + layout(a.len).count, b.len - a.len);
    }
  }

  lemma PrefixCode(table: Table, layout: nat -> Lengths, s: byte, t: byte)
    requires Canonical(table, layout)
    requires Begins(table, s, CodeBits(table, t))
    ensures table[s].len <= table[t].len
    ensures table[s].len == table[t].len ==> SameCode(table, s, t)
    ensures table[t].bits < Scale(table[s].bits + 1, table[t].len - table[s].len)
  {
    CodeBitsValue(table, layout, s);
    CodeBitsValue(table, layout, t);
    PrefixValue(CodeBits(table, s), CodeBits(table, t));
  }

  lemma PrefixFree(table: Table, layout: nat -> Lengths, s: byte, t: byte)
    requires Canonical(table, layout)
    requires Begins(table, s, CodeBits(table, t))
    ensures s == t
  {
    PrefixCode(table, layout, s, t);
    assert PlacedAt(table, layout, s) && PlacedAt(table, layout, t);
    NoLaterClass(layout, table[s], table[t]);
  }

  // ----- Every place has its symbol

  /** The position of a code in the order of all codes. */
  function Rank(layout: nat -> Lengths, code: Code): nat
    requires Placed(layout, code)
  {
    layout(code.len).shorter + code.bits - layout(code.len).first
  }

  lemma RankInClass(layout: nat -> Lengths, code: Code, len: nat)
    requires Consecutive(layout) && Placed(layout, code) && len <= 30
    ensures Rank(layout, code) < layout(31).shorter
    ensures code.len == len <==>
            layout(len).shorter <= Rank(layout, code) < layout(len).shorter + layout(len).count
  {
    FirstGrows(layout, code.len, 31);
    if code.len < len {
      FirstGrows(layout, code.len, len);
    } else if len < code.len {
      FirstGrows(layout, len, code.len);
    }
  }

  lemma RankInjective(layout: nat -> Lengths, a: Code, b: Code)
    requires Consecutive(layout)
    requires Placed(layout, a) && Placed(layout, b) && Rank(layout, a) == Rank(layout, b)
    ensures a == b
  {
    RankInClass(layout, a, b.len);
    RankInClass(layout, b, b.len);
  }

  ghost predicate Ranked(table: Table, layout: nat -> Lengths, s: byte, rank: nat) {
    Placed(layout, table[s]) && Rank(layout, table[s]) == rank
  }

  lemma RanksDiffer(table: Table, layout: nat -> Lengths, s: byte, t: byte)
    requires Canonical(table, layout)
    requires Placed(layout, table[t]) && Ranked(table, layout, s, Rank(layout, table[t]))
    ensures s == t
  {
    RankInjective(layout, table[s], table[t]);
    assert SameCode(table, s, t);
  }

  lemma {:induction false} RanksBelow(table: Table, layout: nat -> Lengths, n: nat) returns (ranks: set<nat>)
    requires Canonical(table, layout) && n <= 256
    ensures |ranks| == n
    ensures forall r | r in ranks :: r < 256 && exists s: byte :: s < n && Ranked(table, layout, s, r)
  {
    if n == 0 {
      ranks := {};
    } else {
      ranks := RanksBelow(table, layout, n - 1);
      var last: byte := n - 1;
      assert PlacedAt(table, layout, last);
      var rank := Rank(layout, table[last]);
      RankInClass(layout, table[last], 0);
      if rank in ranks {
        var s: byte :| s < n - 1 && Ranked(table, layout, s, rank);
        RanksDiffer(table, layout, s, last);
      }
      ranks := ranks + {rank};
      assert Ranked(table, layout, last, rank);
    }
  }

  lemma {:induction false} Range(n: nat) returns (all: set<nat>)
    ensures |all| == n
    ensures forall r: nat :: r in all <==> r < n
  {
    if n == 0 {
      all := {};
    } else {
      all := Range(n - 1);
      all := all + {n - 1};
    }
  }

  lemma {:induction false} SubsetSize<T>(a: set<T>, b: set<T>)
    requires a <= b
    ensures |a| <= |b|
    ensures |a| == |b| ==> a == b
  {
    if x :| x in a {
      SubsetSize(a - {x}, b - {x});
      assert a == a - {x} + {x} && b == b - {x} + {x};
    }
  }

  lemma SymbolWith(table: Table, layout: nat -> Lengths, code: Code) returns (symbol: byte)
    requires Canonical(table, layout) && Placed(layout, code)
    ensures table[symbol] == code
  {
    var rank := Rank(layout, code);
    RankInClass(layout, code, 0);
    var ranks := RanksBelow(table, layout, 256);
    var all := Range(256);
    SubsetSize(ranks, all);
    assert rank in ranks;
    symbol :| symbol < 256 && Ranked(table, layout, symbol, rank);
    RankInjective(layout, table[symbol], code);
  }

  // ----- Nothing but EOS is unused

  lemma StuckIsUnused(table: Table, layout: nat -> Lengths, bits: seq<bool>)
    requires Canonical(table, layout) && Stuck(table, bits)
    ensures !Placed(layout, Code(Value(bits), |bits|))
  {
    if Placed(layout, Code(Value(bits), |bits|)) {
      var s := SymbolWith(table, layout, Code(Value(bits), |bits|));
      CodeBitsValue(table, layout, s);
      ValueInjective(CodeBits(table, s), bits);
      assert Begins(table, s, bits);
    }
  }

  lemma {:induction false} StuckValue(table: Table, layout: nat -> Lengths, bits: seq<bool>)
    requires Canonical(table, layout) && Stuck(table, bits) && |bits| <= 31
    ensures Value(bits) >= layout(|bits|).first
  {
    if bits != [] {
      var len := |bits| - 1;
      var front := bits[..len];
      forall s: byte ensures !Begins(table, s, front) {
        assert Begins(table, s, front) ==> Begins(table, s, bits);
      }
      StuckValue(table, layout, front);
      assert NextLength(layout, len);
      StuckIsUnused(table, layout, front);
    }
  }

  lemma OnlyEosIsUnused(table: Table, layout: nat -> Lengths, bits: seq<bool>)
    requires Canonical(table, layout) && Stuck(table, bits) && |bits| == 31
    ensures bits[..30] == Ones(30)
  {
    StuckValue(table, layout, bits);
    BigPowers();
    assert bits == bits[..30] + [bits[30]];
    ValueBound(bits[..30]);
    OnesValue(30);
    ValueInjective(bits[..30], Ones(30));
  }

  lemma PrefixOfOnes(bits: seq<bool>, n: nat, rest: seq<bool>)
    requires bits <= Ones(n) + rest && (|bits| <= n || rest == [])
    ensures bits == Ones(|bits|)
  {
    forall i: nat | i < |bits| ensures bits[i] {
      assert bits[i] == (Ones(n) + rest)[i];
    }
  }

  lemma OnesBeginNothing(table: Table, layout: nat -> Lengths, s: byte, n: nat, rest: seq<bool>)
    requires Canonical(table, layout)
    requires n == 30 || (n < 30 && rest == [])
    ensures !Begins(table, s, Ones(n) + rest)
  {
    CodeBitsValue(table, layout, s);
    assert PlacedAt(table, layout, s);
    OnesValue(table[s].len);
    if Begins(table, s, Ones(n) + rest) {
      PrefixOfOnes(CodeBits(table, s), n, rest);
      assert false;
    }
  }

  lemma OnesStuck(table: Table, layout: nat -> Lengths, n: nat, rest: seq<bool>)
    requires Canonical(table, layout)
    requires n == 30 || (n < 30 && rest == [])
    ensures Stuck(table, Ones(n) + rest)
  {
    forall s: byte ensures !Begins(table, s, Ones(n) + rest) {
      OnesBeginNothing(table, layout, s, n, rest);
    }
  }

  lemma CanonicalIsComplete(table: Table, layout: nat -> Lengths)
    requires Canonical(table, layout)
    ensures Complete(table)
  {
    forall s: byte, t: byte | Begins(table, s, CodeBits(table, t)) ensures s == t {
      PrefixFree(table, layout, s, t);
    }
    forall s: byte ensures Numbered(table, s) && !Begins(table, s, []) {
      assert PlacedAt(table, layout, s);
      CodeBitsValue(table, layout, s);
      assert PlacedAt(table, layout, s);
    }
    forall bits | |bits| == 31 && Stuck(table, bits) ensures StartsWithEos(bits) {
      OnlyEosIsUnused(table, layout, bits);
    }
    forall n: nat, rest | n == 30 || (n < 30 && rest == []) ensures Stuck(table, Ones(n) + rest) {
      OnesStuck(table, layout, n, rest);
    }
  }
}
