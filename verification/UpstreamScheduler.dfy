/** select_upstream_candidates: by priority, and round robin among equals. */
module UpstreamScheduler {
  import opened Prelude
  import opened Text
  import opened Sequences
  import opened Config

  // ----- Sorting

  function InGroup(upstreams: seq<Upstream>, group: Str): seq<Upstream> {
    if upstreams == [] then []
    else
      InGroup(upstreams[..|upstreams| - 1], group) +
      if upstreams[|upstreams| - 1].group == group then [upstreams[|upstreams| - 1]] else []
  }

  /** The members of a group are all of those configured for it, in that order. */
  lemma {:induction false} GroupIsPicked(upstreams: seq<Upstream>, group: Str) returns (at: seq<nat>)
    ensures Picks(upstreams, (u: Upstream) => u.group == group, InGroup(upstreams, group), at)
  {
    var keep := (u: Upstream) => u.group == group;
    if upstreams == [] {
      PicksNothing(keep);
      at := [];
    } else {
      var front, last := upstreams[..|upstreams| - 1], upstreams[|upstreams| - 1];
      at := GroupIsPicked(front, group);
      at := PicksMore(front, last, keep, InGroup(front, group), at);
      FrontAndLast(upstreams);
    }
  }

  function OfPriority(upstreams: seq<Upstream>, priority: int): seq<Upstream> {
    if upstreams == [] then []
    else
      OfPriority(upstreams[..|upstreams| - 1], priority) +
      if upstreams[|upstreams| - 1].priority == priority then [upstreams[|upstreams| - 1]] else []
  }

  predicate Ascending(upstreams: seq<Upstream>) {
    forall i, j | 0 <= i < j < |upstreams| :: upstreams[i].priority <= upstreams[j].priority
  }

  /** Behind everything of its priority. */
  function InsertLast(sorted: seq<Upstream>, upstream: Upstream): seq<Upstream> {
    if sorted == [] || sorted[|sorted| - 1].priority <= upstream.priority then sorted + [upstream]
    else InsertLast(sorted[..|sorted| - 1], upstream) + [sorted[|sorted| - 1]]
  }

  /** sort_by_key on the priority, which is stable. */
  function Sorted(upstreams: seq<Upstream>): seq<Upstream> {
    if upstreams == [] then []
    else InsertLast(Sorted(upstreams[..|upstreams| - 1]), upstreams[|upstreams| - 1])
  }

  lemma {:induction false} PriorityConcat(a: seq<Upstream>, b: seq<Upstream>, priority: int)
    ensures OfPriority(a + b, priority) == OfPriority(a, priority) + OfPriority(b, priority)
  {
    if b == [] {
      Nothing(a);
    } else {
      FrontConcat(a, b);
      PriorityConcat(a, b[..|b| - 1], priority);
    }
  }

  lemma OneOfPriority(upstream: Upstream, priority: int)
    ensures OfPriority([upstream], priority) == if upstream.priority == priority then [upstream] else []
  {
    assert [upstream][..0] == [];
  }

  lemma {:induction false} NoneOfPriority(upstreams: seq<Upstream>, priority: int)
    requires forall i | 0 <= i < |upstreams| :: upstreams[i].priority != priority
    ensures OfPriority(upstreams, priority) == []
  {
    if upstreams != [] {
      NoneOfPriority(upstreams[..|upstreams| - 1], priority);
    }
  }

  lemma {:induction false} AllOfPriority(upstreams: seq<Upstream>, priority: int)
    requires forall i | 0 <= i < |upstreams| :: upstreams[i].priority == priority
    ensures OfPriority(upstreams, priority) == upstreams
  {
    if upstreams != [] {
      AllOfPriority(upstreams[..|upstreams| - 1], priority);
    }
  }

  lemma Exchange(a: seq<Upstream>, b: seq<Upstream>, c: seq<Upstream>)
    requires b == [] || c == []
    ensures a + b + c == a + c + b
  {}

  lemma {:induction false} InsertIsStable(sorted: seq<Upstream>, upstream: Upstream, priority: int)
    ensures OfPriority(InsertLast(sorted, upstream), priority) ==
            OfPriority(sorted, priority) + OfPriority([upstream], priority)
  {
    if sorted == [] || sorted[|sorted| - 1].priority <= upstream.priority {
      PriorityConcat(sorted, [upstream], priority);
    } else {
      var front, last := sorted[..|sorted| - 1], sorted[|sorted| - 1];
      InsertIsStable(front, upstream, priority);
      PriorityConcat(InsertLast(front, upstream), [last], priority);
      OneOfPriority(last, priority);
      OneOfPriority(upstream, priority);
      Exchange(OfPriority(front, priority), OfPriority([upstream], priority), OfPriority([last], priority));
    }
  }

  predicate AtMost(upstreams: seq<Upstream>, priority: int) {
    forall i | 0 <= i < |upstreams| :: upstreams[i].priority <= priority
  }

  lemma {:induction false} InsertAtMost(sorted: seq<Upstream>, upstream: Upstream, priority: int)
    requires AtMost(sorted, priority) && upstream.priority <= priority
    ensures AtMost(InsertLast(sorted, upstream), priority)
  {
    if sorted != [] && sorted[|sorted| - 1].priority > upstream.priority {
      InsertAtMost(sorted[..|sorted| - 1], upstream, priority);
    }
  }

  lemma {:induction false} InsertAscends(sorted: seq<Upstream>, upstream: Upstream)
    requires Ascending(sorted)
    ensures Ascending(InsertLast(sorted, upstream))
  {
    if sorted != [] && sorted[|sorted| - 1].priority > upstream.priority {
      var front, last := sorted[..|sorted| - 1], sorted[|sorted| - 1];
      InsertAscends(front, upstream);
      InsertAtMost(front, upstream, last.priority);
    }
  }

  lemma {:induction false} InsertKeeps(sorted: seq<Upstream>, upstream: Upstream)
    ensures multiset(InsertLast(sorted, upstream)) == multiset(sorted) + multiset{upstream}
  {
    if sorted != [] && sorted[|sorted| - 1].priority > upstream.priority {
      var front, last := sorted[..|sorted| - 1], sorted[|sorted| - 1];
      InsertKeeps(front, upstream);
      FrontAndLast(sorted);
    }
  }

  lemma {:induction false} SortKeeps(upstreams: seq<Upstream>)
    ensures multiset(Sorted(upstreams)) == multiset(upstreams)
  {
    if upstreams != [] {
      SortKeeps(upstreams[..|upstreams| - 1]);
      InsertKeeps(Sorted(upstreams[..|upstreams| - 1]), upstreams[|upstreams| - 1]);
      FrontAndLast(upstreams);
    }
  }

  lemma {:induction false} SortAscends(upstreams: seq<Upstream>)
    ensures Ascending(Sorted(upstreams))
  {
    if upstreams != [] {
      SortAscends(upstreams[..|upstreams| - 1]);
      InsertAscends(Sorted(upstreams[..|upstreams| - 1]), upstreams[|upstreams| - 1]);
    }
  }

  lemma {:induction false} SortKeepsOrder(upstreams: seq<Upstream>, priority: int)
    ensures OfPriority(Sorted(upstreams), priority) == OfPriority(upstreams, priority)
  {
    if upstreams != [] {
      var front, last := upstreams[..|upstreams| - 1], upstreams[|upstreams| - 1];
      SortKeepsOrder(front, priority);
      InsertIsStable(Sorted(front), last, priority);
      PriorityConcat(front, [last], priority);
      FrontAndLast(upstreams);
    }
  }

  /** Sorting orders the priorities, keeps every upstream, and keeps the order within a priority. */
  lemma {:induction false} SortIsStable(upstreams: seq<Upstream>, priority: int)
    ensures Ascending(Sorted(upstreams))
    ensures multiset(Sorted(upstreams)) == multiset(upstreams)
    ensures OfPriority(Sorted(upstreams), priority) == OfPriority(upstreams, priority)
  {
    SortAscends(upstreams);
    SortKeeps(upstreams);
    SortKeepsOrder(upstreams, priority);
  }

  // ----- Runs of equal priority

  /** Where the run that begins at `start` ends. */
  function RunEnd(sorted: seq<Upstream>, start: nat, end: nat): (r: nat)
    requires start < end <= |sorted|
    ensures end <= r <= |sorted|
    decreases |sorted| - end
  {
    if end < |sorted| && sorted[end].priority == sorted[start].priority then RunEnd(sorted, start, end + 1)
    else end
  }

  function Rotated(run: seq<Upstream>, offset: nat): (r: seq<Upstream>)
    requires offset <= |run|
    ensures |r| == |run|
  {
    run[offset..] + run[..offset]
  }

  function DecimalOf(n: int): Str {
    if n < 0 then [45] + Decimal(-n) else Decimal(n)
  }

  /** The cursor of a server's run is kept under "server:group:priority". */
  function Key(server: Str, group: Str, priority: int): Str {
    server + [58] + group + [58] + DecimalOf(priority)
  }

  /** The key of each priority's run. */
  type Keys = int -> Str

  function KeyOf(keys: Keys, priority: int): Str {
    keys(priority)
  }

  function KeysOf(server: Str, group: Str): Keys {
    (priority: int) => Key(server, group, priority)
  }

  type Cursors = map<Str, word>

  function Cursor(cursors: Cursors, key: Str): word {
    if key in cursors then cursors[key] else 0
  }

  /** wrapping_add, of less than the whole range. */
  function Later(cursor: word, calls: nat): word
    requires calls < USIZE
  {
    if cursor + calls < USIZE then cursor + calls else cursor + calls - USIZE
  }

  datatype Choice = Choice(order: seq<Upstream>, cursors: Cursors)

  /** One run: alone as it is, otherwise turned by its cursor, which moves on. */
  function TurnRun(run: seq<Upstream>, key: Str, cursors: Cursors): (r: Choice)
    ensures |r.order| == |run|
  {
    if |run| <= 1 then Choice(run, cursors)
    else
      var cursor := Cursor(cursors, key);
      Choice(Rotated(run, cursor % |run|), cursors[key := Later(cursor, 1)])
  }

  function TurnRuns(keys: Keys, sorted: seq<Upstream>, start: nat, cursors: Cursors): Choice
    decreases |sorted| - start
  {
    if start >= |sorted| then Choice([], cursors)
    else
      var end := RunEnd(sorted, start, start + 1);
      var first := TurnRun(sorted[start..end], KeyOf(keys, sorted[start].priority), cursors);
      var rest := TurnRuns(keys, sorted, end, first.cursors);
      Choice(first.order + rest.order, rest.cursors)
  }

  /** The candidates in the order they are tried, and the cursors afterwards. */
  function Choose(keys: Keys, members: seq<Upstream>, cursors: Cursors): Choice {
    TurnRuns(keys, Sorted(members), 0, cursors)
  }

  function Select(server: Str, group: Str, upstreams: seq<Upstream>, cursors: Cursors): Choice {
    Choose(KeysOf(server, group), InGroup(upstreams, group), cursors)
  }

  class Scheduler {
    var cursors: Cursors

    constructor ()
      ensures cursors == map[]
    {
      cursors := map[];
    }

    /** The entry for a run: its offset, and one step on. */
    method NextOffset(key: Str, size: nat) returns (offset: nat)
      requires size > 0
      modifies this
      ensures offset == Cursor(old(cursors), key) % size < size
      ensures cursors == old(cursors)[key := Later(Cursor(old(cursors), key), 1)]
    {
      if key !in cursors {
        cursors := cursors[key := 0];
      }
      var cursor := cursors[key];
      offset := cursor % size;
      cursors := cursors[key := Later(cursor, 1)];
    }

    /** One run, turned by its cursor. */
    method Turn(run: seq<Upstream>, key: Str) returns (order: seq<Upstream>)
      modifies this
      ensures Choice(order, cursors) == TurnRun(run, key, old(cursors))
    {
      if |run| <= 1 {
        return run;
      }
      var offset := NextOffset(key, |run|);
      order := seq(|run|, i requires 0 <= i < |run| => run[(offset + i) % |run|]);
      CycleIsRotation(run, offset);
    }

    method SelectUpstreamCandidates(server: Str, group: Str, upstreams: seq<Upstream>)
      returns (result: seq<Upstream>)
      modifies this
      ensures Choice(result, cursors) == Select(server, group, upstreams, old(cursors))
    {
      var keys := KeysOf(server, group);
      var candidates := Sorted(InGroup(upstreams, group));
      result := [];
      var start := 0;
      ghost var goal := TurnRuns(keys, candidates, 0, cursors);
      while start < |candidates|
        invariant start <= |candidates|
        invariant goal == Before(result, TurnRuns(keys, candidates, start, cursors))
      {
        var end := FindRunEnd(candidates, start);
        ghost var before := cursors;
        var order := Turn(candidates[start..end], KeyOf(keys, candidates[start].priority));
        BeforeRun(keys, candidates, start, end, before, result, Choice(order, cursors));
        result := result + order;
        start := end;
      }
      Nothing(result);
    }
  }

  method FindRunEnd(candidates: seq<Upstream>, start: nat) returns (end: nat)
    requires start < |candidates|
    ensures end == RunEnd(candidates, start, start + 1)
  {
    var priority := candidates[start].priority;
    end := start + 1;
    while end < |candidates| && candidates[end].priority == priority
      invariant start < end <= |candidates|
      invariant RunEnd(candidates, start, end) == RunEnd(candidates, start, start + 1)
    {
      end := end + 1;
    }
  }

  function Before(front: seq<Upstream>, rest: Choice): Choice {
    rest.(order := front + rest.order)
  }

  lemma {:induction false} BeforeRun(keys: Keys, sorted: seq<Upstream>, start: nat, end: nat, cursors: Cursors,
                                     front: seq<Upstream>, turned: Choice)
    requires start < |sorted| && end == RunEnd(sorted, start, start + 1)
    requires turned == TurnRun(sorted[start..end], KeyOf(keys, sorted[start].priority), cursors)
    ensures Before(front, TurnRuns(keys, sorted, start, cursors)) ==
            Before(front + turned.order, TurnRuns(keys, sorted, end, turned.cursors))
  {
    Assoc(front, turned.order, TurnRuns(keys, sorted, end, turned.cursors).order);
  }

  lemma RotatedAt(run: seq<Upstream>, offset: nat, i: nat)
    requires offset < |run| && i < |run|
    ensures Rotated(run, offset)[i] == run[(offset + i) % |run|]
  {
    Wraps(offset + i, |run|);
  }

  /** cycle, skip and take turn a run. */
  lemma CycleIsRotation(run: seq<Upstream>, offset: nat)
    requires offset < |run|
    ensures seq(|run|, i requires 0 <= i < |run| => run[(offset + i) % |run|]) == Rotated(run, offset)
  {
    forall i | 0 <= i < |run| ensures run[(offset + i) % |run|] == Rotated(run, offset)[i] {
      RotatedAt(run, offset, i);
    }
  }

  /** A remainder below twice the divisor. */
  lemma Wraps(x: nat, n: nat)
    requires x < 2 * n
    ensures x % n == if x < n then x else x - n
  {
    if x >= n {
      assert x == n + (x - n);
      assert (x - n) % n == x - n;
    }
  }
}
