/** Small facts about sequences of anything. */
module Sequences {
  lemma Assoc<T>(a: seq<T>, b: seq<T>, c: seq<T>)
    ensures a + b + c == a + (b + c)
  {}

  lemma Nothing<T>(a: seq<T>)
    ensures a + [] == a && [] + a == a
  {}

  lemma FrontAndLast<T>(s: seq<T>)
    requires s != []
    ensures s == s[..|s| - 1] + [s[|s| - 1]]
  {}

  lemma HeadAndTail<T>(s: seq<T>)
    requires s != []
    ensures s == [s[0]] + s[1..]
  {}

  lemma AroundOne<T>(s: seq<T>, i: nat)
    requires i < |s|
    ensures s == s[..i] + [s[i]] + s[i + 1..]
  {}

  lemma PrefixOfFront<T>(s: seq<T>, n: nat)
    requires n < |s|
    ensures s[..|s| - 1][..n] == s[..n]
  {}

  /** The rest of a concatenation. */
  lemma DropConcat<T>(a: seq<T>, b: seq<T>)
    requires a != []
    ensures (a + b)[0] == a[0] && (a + b)[1..] == a[1..] + b
  {}

  /** All but the last of a concatenation. */
  lemma FrontConcat<T>(a: seq<T>, b: seq<T>)
    requires b != []
    ensures (a + b)[|a + b| - 1] == b[|b| - 1] && (a + b)[..|a + b| - 1] == a + b[..|b| - 1]
  {}

  // ----- Parts of a sequence

  predicate Increasing(at: seq<nat>) {
    forall i, j | 0 <= i < j < |at| :: at[i] < at[j]
  }

  predicate PickedFrom<T(==)>(all: seq<T>, keep: T -> bool, x: T, i: nat) {
    i < |all| && all[i] == x && keep(x)
  }

  predicate LeftOrPicked<T>(all: seq<T>, keep: T -> bool, at: seq<nat>, i: nat) {
    i < |all| && keep(all[i]) ==> i in at
  }

  /** `picked` are the members that `keep` is for, from the positions in `at`: all of them, in order,
      and each as often as it is there. */
  predicate Picks<T(==)>(all: seq<T>, keep: T -> bool, picked: seq<T>, at: seq<nat>) {
    && |at| == |picked| && Increasing(at)
    && (forall j | 0 <= j < |at| :: PickedFrom(all, keep, picked[j], at[j]))
    && (forall i: nat | i < |all| :: LeftOrPicked(all, keep, at, i))
  }

  lemma PicksNothing<T>(keep: T -> bool)
    ensures Picks([], keep, [], [])
  {}

  lemma PicksLeft<T>(all: seq<T>, x: T, keep: T -> bool, picked: seq<T>, at: seq<nat>)
    requires Picks(all, keep, picked, at) && !keep(x)
    ensures Picks(all + [x], keep, picked, at)
  {
    var more := all + [x];
    forall j | 0 <= j < |at| ensures PickedFrom(more, keep, picked[j], at[j]) {
      assert PickedFrom(all, keep, picked[j], at[j]);
    }
    forall i: nat | i < |more| ensures LeftOrPicked(more, keep, at, i) {
      if i < |all| {
        assert LeftOrPicked(all, keep, at, i);
      }
    }
  }

  lemma PicksLast<T>(all: seq<T>, x: T, keep: T -> bool, picked: seq<T>, at: seq<nat>)
    requires Picks(all, keep, picked, at) && keep(x)
    ensures Picks(all + [x], keep, picked + [x], at + [|all|])
  {
    var more, positions := all + [x], at + [|all|];
    forall j | 0 <= j < |positions| ensures PickedFrom(more, keep, (picked + [x])[j], positions[j]) {
      if j < |at| {
        assert PickedFrom(all, keep, picked[j], at[j]);
      }
    }
    forall i, j | 0 <= i < j < |positions| ensures positions[i] < positions[j] {
      assert PickedFrom(all, keep, picked[i], at[i]);
    }
    forall i: nat | i < |more| ensures LeftOrPicked(more, keep, positions, i) {
      if i < |all| {
        assert LeftOrPicked(all, keep, at, i);
      } else {
        assert positions[|at|] == |all|;
      }
    }
  }

  lemma PicksMore<T>(all: seq<T>, x: T, keep: T -> bool, picked: seq<T>, at: seq<nat>) returns (more: seq<nat>)
    requires Picks(all, keep, picked, at)
    ensures Picks(all + [x], keep, picked + if keep(x) then [x] else [], more)
  {
    if keep(x) {
      PicksLast(all, x, keep, picked, at);
      more := at + [|all|];
    } else {
      PicksLeft(all, x, keep, picked, at);
      Nothing(picked);
      more := at;
    }
  }
}
