/** What the scheduler's choices have in common, and what comes of many of them. */
module RoundRobin {
  import opened Prelude
  import opened Text
  import opened Sequences
  import opened Config
  import opened UpstreamScheduler

  // ----- Keys

  lemma SignsDiffer(m: int, n: int)
    requires m < 0 <= n
    ensures DecimalOf(m) != DecimalOf(n)
  {
    assert DecimalOf(m)[0] == 45 && DecimalOf(n)[0] >= 48;
  }

  lemma DecimalInjective(m: nat, n: nat)
    requires Decimal(m) == Decimal(n)
    ensures m == n
  {
    DecimalRoundTrip(m);
    DecimalRoundTrip(n);
  }

  lemma DecimalOfInjective(m: int, n: int)
    requires DecimalOf(m) == DecimalOf(n)
    ensures m == n
  {
    if m < 0 && n < 0 {
      assert DecimalOf(m)[1..] == Decimal(-m) && DecimalOf(n)[1..] == Decimal(-n);
      DecimalInjective(-m, -n);
    } else if m >= 0 && n >= 0 {
      DecimalInjective(m, n);
    } else if m < 0 {
      SignsDiffer(m, n);
    } else {
      SignsDiffer(n, m);
    }
  }

  /** The runs of a group have cursors of their own. */
  predicate Distinct(keys: Keys, p: int, q: int) {
    KeyOf(keys, p) == KeyOf(keys, q) ==> p == q
  }

  ghost predicate Separate(keys: Keys) {
    forall p, q :: Distinct(keys, p, q)
  }

  lemma GroupsAreSeparate(server: Str, group: Str)
    ensures Separate(KeysOf(server, group))
  {
    forall p, q ensures Distinct(KeysOf(server, group), p, q) {
      if Key(server, group, p) == Key(server, group, q) {
        OwnKey(server, group, p, q);
      }
    }
  }

  lemma OwnKey(server: Str, group: Str, p: int, q: int)
    requires Key(server, group, p) == Key(server, group, q)
    ensures p == q
  {
    var front := server + [58] + group + [58];
    assert Key(server, group, p)[|front|..] == DecimalOf(p);
    assert Key(server, group, q)[|front|..] == DecimalOf(q);
    DecimalOfInjective(p, q);
  }

  lemma NoColon(n: int)
    ensures 58 !in DecimalOf(n)
  {
    var digits := Decimal(if n < 0 then -n else n);
    assert forall i | 0 <= i < |digits| :: digits[i] <= 57;
  }

  /** The name that the keys of a group's runs begin with. */
  function GroupName(server: Str, group: Str): Str {
    server + [58] + group
  }

  function NamedKey(name: Str, priority: int): Str {
    name + [58] + DecimalOf(priority)
  }

  lemma NamesAreSeparate(name: Str, p: int, other: Str, q: int)
    ensures NamedKey(name, p) == NamedKey(other, q) <==> name == other && p == q
  {
    if NamedKey(name, p) == NamedKey(other, q) {
      NoColon(p);
      NoColon(q);
      LastColon(name, DecimalOf(p), other, DecimalOf(q));
      DecimalOfInjective(p, q);
    }
  }

  /** Two runs share a cursor exactly when they have one priority, and server and group with a
      colon between them read the same. */
  lemma KeysAreSeparate(server: Str, group: Str, p: int, server2: Str, group2: Str, q: int)
    ensures Key(server, group, p) == Key(server2, group2, q) <==>
            GroupName(server, group) == GroupName(server2, group2) && p == q
  {
    NamesAreSeparate(GroupName(server, group), p, GroupName(server2, group2), q);
  }

  /** Servers whose ids have no colon share nothing; a colon in an id can make two groups share. */
  lemma NamesTellGroups(server: Str, group: Str, server2: Str, group2: Str)
    ensures 58 !in server && 58 !in server2 ==>
              (GroupName(server, group) == GroupName(server2, group2) <==> server == server2 && group == group2)
    ensures GroupName(server + [58] + server2, group) == GroupName(server, server2 + [58] + group)
  {
    if 58 !in server && 58 !in server2 && GroupName(server, group) == GroupName(server2, group2) {
      FirstColon(server, group, server2, group2, GroupName(server, group));
    }
    assert server + [58] + server2 + [58] + group == server + [58] + (server2 + [58] + group);
  }

  lemma FirstColon(a: Str, x: Str, b: Str, y: Str, whole: Str)
    requires 58 !in a && 58 !in b && whole == a + [58] + x == b + [58] + y
    ensures a == b && x == y
  {
    assert whole[|a|] == 58 && whole[|b|] == 58;
    assert whole[..|a|] == a && whole[..|b|] == b;
    assert forall k | 0 <= k < |a| :: whole[k] == a[k];
    assert forall k | 0 <= k < |b| :: whole[k] == b[k];
    assert whole[|a| + 1..] == x && whole[|b| + 1..] == y;
  }

  lemma LastColon(a: Str, x: Str, b: Str, y: Str)
    requires 58 !in x && 58 !in y && a + [58] + x == b + [58] + y
    ensures a == b && x == y
  {
    var whole := a + [58] + x;
    assert whole[|a|] == 58 && whole[|b|] == 58;
    assert forall k | |a| < k < |whole| :: whole[k] == x[k - |a| - 1];
    assert forall k | |b| < k < |whole| :: whole[k] == y[k - |b| - 1];
    assert whole[|a| + 1..] == x && whole[|b| + 1..] == y;
    assert whole[..|a|] == a && whole[..|b|] == b;
  }

  // ----- One call

  predicate All(upstreams: seq<Upstream>, priority: int) {
    forall i | 0 <= i < |upstreams| :: upstreams[i].priority == priority
  }

  predicate AllAbove(upstreams: seq<Upstream>, priority: int) {
    forall i | 0 <= i < |upstreams| :: upstreams[i].priority > priority
  }

  lemma {:induction false} RunIsWhole(sorted: seq<Upstream>, start: nat, end: nat)
    requires Ascending(sorted) && start < end <= |sorted| && All(sorted[start..end], sorted[start].priority)
    ensures var r := RunEnd(sorted, start, end);
            All(sorted[start..r], sorted[start].priority) && AllAbove(sorted[r..], sorted[start].priority)
    decreases |sorted| - end
  {
    if end < |sorted| && sorted[end].priority == sorted[start].priority {
      assert sorted[start..end + 1] == sorted[start..end] + [sorted[end]];
      RunIsWhole(sorted, start, end + 1);
    } else if end < |sorted| {
      assert sorted[start].priority <= sorted[end].priority;
    }
  }

  lemma RotationKeeps(run: seq<Upstream>, offset: nat, priority: int)
    requires offset <= |run|
    ensures multiset(Rotated(run, offset)) == multiset(run)
    ensures All(run, priority) ==> All(Rotated(run, offset), priority)
  {
    assert run == run[..offset] + run[offset..];
  }

  lemma TurnKeeps(run: seq<Upstream>, key: Str, cursors: Cursors, priority: int)
    ensures var turned := TurnRun(run, key, cursors);
            && multiset(turned.order) == multiset(run)
            && (All(run, priority) ==> All(turned.order, priority))
            && forall other: Str :: other != key ==> Cursor(turned.cursors, other) == Cursor(cursors, other)
  {
    if |run| > 1 {
      RotationKeeps(run, Cursor(cursors, key) % |run|, priority);
    }
  }

  /** The run of one priority is turned by its own cursor, and by no other. */
  ghost predicate TurnedLike(choice: Choice, members: seq<Upstream>, key: Str, cursors: Cursors, priority: int) {
    var turned := TurnRun(members, key, cursors);
    && OfPriority(choice.order, priority) == turned.order
    && Cursor(choice.cursors, key) == Cursor(turned.cursors, key)
  }

  lemma SameCursor(members: seq<Upstream>, key: Str, a: Cursors, b: Cursors)
    requires Cursor(a, key) == Cursor(b, key)
    ensures TurnRun(members, key, a).order == TurnRun(members, key, b).order
    ensures Cursor(TurnRun(members, key, a).cursors, key) == Cursor(TurnRun(members, key, b).cursors, key)
  {}

  lemma PriorityOfRun(run: seq<Upstream>, rest: seq<Upstream>, run2: seq<Upstream>, rest2: seq<Upstream>,
                      q: int, p: int)
    requires All(run, q) && AllAbove(rest, q) && All(run2, q) && AllAbove(rest2, q)
    ensures p == q ==> OfPriority(run + rest, p) == run && OfPriority(run2 + rest2, p) == run2
    ensures p != q ==> OfPriority(run + rest, p) == OfPriority(rest, p)
    ensures p != q ==> OfPriority(run2 + rest2, p) == OfPriority(rest2, p)
  {
    PriorityConcat(run, rest, p);
    PriorityConcat(run2, rest2, p);
    if p == q {
      AllOfPriority(run, p);
      AllOfPriority(run2, p);
      NoneOfPriority(rest, p);
      NoneOfPriority(rest2, p);
    } else {
      NoneOfPriority(run, p);
      NoneOfPriority(run2, p);
    }
  }

  lemma AboveByMultiset(a: seq<Upstream>, b: seq<Upstream>, priority: int)
    requires multiset(a) == multiset(b) && AllAbove(b, priority)
    ensures AllAbove(a, priority)
  {
    forall i | 0 <= i < |a| ensures a[i].priority > priority {
      assert a[i] in multiset(b);
    }
  }

  lemma RunFirst(run: seq<Upstream>, rest: seq<Upstream>, priority: int)
    requires All(run, priority) && AllAbove(rest, priority) && Ascending(rest)
    ensures Ascending(run + rest)
  {}

  /** The runs from `start` on: nothing lost, in order, each priority turned on its own. */
  lemma {:induction false} RunsTurned(keys: Keys, sorted: seq<Upstream>, start: nat, cursors: Cursors,
                                      p: int)
    requires Separate(keys) && Ascending(sorted) && start <= |sorted|
    ensures var choice := TurnRuns(keys, sorted, start, cursors);
            && multiset(choice.order) == multiset(sorted[start..])
            && Ascending(choice.order)
            && TurnedLike(choice, OfPriority(sorted[start..], p), KeyOf(keys, p), cursors, p)
    decreases |sorted| - start
  {
    if start < |sorted| {
      var q := sorted[start].priority;
      var end := RunEnd(sorted, start, start + 1);
      var run, tail := sorted[start..end], sorted[end..];
      assert sorted[start..start + 1] == [sorted[start]];
      RunIsWhole(sorted, start, start + 1);
      assert sorted[start..] == run + tail;
      var first := TurnRun(run, KeyOf(keys, q), cursors);
      var rest := TurnRuns(keys, sorted, end, first.cursors);
      TurnKeeps(run, KeyOf(keys, q), cursors, q);
      RunsTurned(keys, sorted, end, first.cursors, p);
      AboveByMultiset(rest.order, tail, q);
      RunFirst(first.order, rest.order, q);
      StepTurned(keys, run, tail, cursors, first, rest, q, p);
    }
  }

  lemma StepTurned(keys: Keys, run: seq<Upstream>, tail: seq<Upstream>, cursors: Cursors,
                   first: Choice, rest: Choice, q: int, p: int)
    requires Separate(keys)
    requires All(run, q) && AllAbove(tail, q) && All(first.order, q) && AllAbove(rest.order, q)
    requires first == TurnRun(run, KeyOf(keys, q), cursors)
    requires TurnedLike(rest, OfPriority(tail, p), KeyOf(keys, p), first.cursors, p)
    ensures TurnedLike(Choice(first.order + rest.order, rest.cursors), OfPriority(run + tail, p),
                       KeyOf(keys, p), cursors, p)
  {
    PriorityOfRun(run, tail, first.order, rest.order, q, p);
    if p == q {
      NoneOfPriority(tail, p);
    } else {
      assert Distinct(keys, p, q);
      TurnKeeps(run, KeyOf(keys, q), cursors, q);
      SameCursor(OfPriority(tail, p), KeyOf(keys, p), cursors, first.cursors);
    }
  }

  /** A choice holds every upstream of the group once, lower priority numbers first, and each
      priority in the order it is configured in, turned by its cursor, which then moves on. */
  lemma ChoiceIsFair(keys: Keys, all: seq<Upstream>, cursors: Cursors, p: int)
    requires Separate(keys)
    ensures var choice := Choose(keys, all, cursors);
            && multiset(choice.order) == multiset(all)
            && Ascending(choice.order)
            && TurnedLike(choice, OfPriority(all, p), KeyOf(keys, p), cursors, p)
  {
    SortIsStable(all, p);
    RunsTurned(keys, Sorted(all), 0, cursors, p);
    assert Sorted(all)[0..] == Sorted(all);
  }

  /** The candidates of a call are the upstreams configured for the group, each as often as it is. */
  lemma CandidatesAreTheGroup(server: Str, group: Str, upstreams: seq<Upstream>, cursors: Cursors)
    returns (members: seq<Upstream>, at: seq<nat>)
    ensures Picks(upstreams, (u: Upstream) => u.group == group, members, at)
    ensures multiset(Select(server, group, upstreams, cursors).order) == multiset(members)
    ensures Ascending(Select(server, group, upstreams, cursors).order)
  {
    members := InGroup(upstreams, group);
    at := GroupIsPicked(upstreams, group);
    GroupsAreSeparate(server, group);
    ChoiceIsFair(KeysOf(server, group), members, cursors, 0);
  }

  // ----- Remainders

  lemma MultipleIsBig(d: int, k: int)
    requires k > 0
    ensures d >= 1 ==> d * k >= k
    ensures d <= -1 ==> d * k <= -k
  {
    if d >= 1 {
      assert (d - 1) * k >= 0;
    } else if d <= -1 {
      assert (-d - 1) * k >= 0;
    }
  }

  lemma RemainderIs(x: nat, q: nat, s: nat, k: nat)
    requires k > 0 && s < k && x == q * k + s
    ensures x % k == s
  {
    var d := q - x / k;
    assert x == (x / k) * k + x % k;
    assert d * k == q * k - (x / k) * k;
    MultipleIsBig(d, k);
  }

  lemma RemainderOfSum(x: nat, t: nat, k: nat)
    requires t < k
    ensures (x + t) % k == if x % k + t < k then x % k + t else x % k + t - k
  {
    var q, r := x / k, x % k;
    assert x == q * k + r;
    if r + t < k {
      RemainderIs(x + t, q, r + t, k);
    } else {
      assert (q + 1) * k == q * k + k;
      RemainderIs(x + t, q + 1, r + t - k, k);
    }
  }

  lemma RemainderOfMultiple(x: nat, u: nat, k: nat)
    requires k > 0 && u % k == 0
    ensures (x + u) % k == x % k
  {
    var q, m := x / k, u / k;
    assert x == q * k + x % k && u == m * k;
    assert (q + m) * k == q * k + m * k;
    RemainderIs(x + u, q + m, x % k, k);
  }

  // ----- Many calls

  /** The offset of the t-th call from now. */
  function Offset(cursor: word, t: nat, k: nat): nat
    requires k > 0 && t < USIZE
  {
    Later(cursor, t) % k
  }

  /** Which member is at place `j` in the t-th call. */
  function Seat(cursor: word, t: nat, k: nat, j: nat): nat
    requires k > 0 && t < USIZE
  {
    (Offset(cursor, t, k) + j) % k
  }

  /** `t` is the one turn of k in which member `m` has place `j`. */
  predicate OnlyTurn(cursor: word, k: nat, j: nat, m: nat, t: nat)
    requires 0 < k < USIZE
  {
    t < k && forall u: nat | u < k :: Seat(cursor, u, k, j) == m <==> u == t
  }

  ghost predicate HasTurn(cursor: word, k: nat, j: nat, m: nat)
    requires 0 < k < USIZE
  {
    exists t: nat :: OnlyTurn(cursor, k, j, m, t)
  }

  /** In k calls every member has every place exactly once. */
  ghost predicate Fair(cursor: word, k: nat)
    requires 0 < k < USIZE
  {
    forall j: nat, m: nat | j < k && m < k :: HasTurn(cursor, k, j, m)
  }

  predicate Steady(cursor: word, k: nat)
    requires k > 0
  {
    cursor + k <= USIZE || USIZE % k == 0
  }

  lemma SteadyOffset(cursor: word, t: nat, k: nat)
    requires t < k < USIZE && Steady(cursor, k)
    ensures Offset(cursor, t, k) == (cursor + t) % k
  {
    if cursor + t >= USIZE {
      RemainderOfMultiple(cursor + t - USIZE, USIZE, k);
    }
  }

  /** How far `to` is from `from`, going round. */
  function Distance(from: nat, to: nat, k: nat): nat
    requires from < k && to < k
  {
    if from <= to then to - from else to + k - from
  }

  lemma SteadySeat(cursor: word, t: nat, k: nat, j: nat, m: nat)
    requires t < k < USIZE && Steady(cursor, k) && j < k && m < k
    ensures Seat(cursor, t, k, j) == m <==> t == Distance(cursor % k, Distance(j, m, k), k)
  {
    SteadyOffset(cursor, t, k);
    RemainderOfSum(cursor, t, k);
    Wraps(Offset(cursor, t, k) + j, k);
  }

  lemma SteadyIsFair(cursor: word, k: nat)
    requires 0 < k < USIZE && Steady(cursor, k)
    ensures Fair(cursor, k)
  {
    forall j: nat, m: nat | j < k && m < k ensures HasTurn(cursor, k, j, m) {
      var t := Distance(cursor % k, Distance(j, m, k), k);
      forall u: nat | u < k ensures Seat(cursor, u, k, j) == m <==> u == t {
        SteadySeat(cursor, u, k, j, m);
      }
      assert OnlyTurn(cursor, k, j, m, t);
    }
  }

  lemma WrapsLate(cursor: word, k: nat, wrap: nat, e: nat)
    requires 0 < k < USIZE && wrap < k && cursor + wrap == USIZE && e == USIZE % k && wrap < e
    ensures Offset(cursor, 0, k) == Offset(cursor, e, k) == e - wrap
  {
    RemainderOfSum(cursor, wrap, k);
    assert cursor % k == e - wrap;
    assert Later(cursor, e) == e - wrap;
    Wraps(e - wrap, k);
  }

  lemma WrapsEarly(cursor: word, k: nat, wrap: nat, e: nat)
    requires 0 < k < USIZE && wrap < k && cursor + wrap == USIZE && e == USIZE % k && 0 < e <= wrap
    ensures Offset(cursor, wrap - e, k) == Offset(cursor, wrap, k) == 0
  {
    RemainderOfSum(USIZE - e, e, k);
    assert (USIZE - e) % k == 0;
    assert Later(cursor, wrap - e) == USIZE - e && Later(cursor, wrap) == 0;
  }

  /** Where the cursor wraps at another place than a round ends, two calls are alike. */
  lemma UnsteadyRepeats(cursor: word, k: nat) returns (t: nat, u: nat)
    requires 0 < k < USIZE && !Steady(cursor, k)
    ensures t < u < k && Offset(cursor, t, k) == Offset(cursor, u, k)
  {
    var wrap, e := USIZE - cursor, USIZE % k;
    if e > wrap {
      t, u := 0, e;
      WrapsLate(cursor, k, wrap, e);
    } else {
      t, u := wrap - e, wrap;
      WrapsEarly(cursor, k, wrap, e);
    }
  }

  lemma TwoTurns(cursor: word, k: nat, j: nat, m: nat, t: nat, u: nat)
    requires 0 < k < USIZE && t < u < k && Seat(cursor, t, k, j) == m && Seat(cursor, u, k, j) == m
    ensures !HasTurn(cursor, k, j, m)
  {}

  lemma FairIsSteady(cursor: word, k: nat)
    requires 0 < k < USIZE && Fair(cursor, k)
    ensures Steady(cursor, k)
  {
    if !Steady(cursor, k) {
      var t, u := UnsteadyRepeats(cursor, k);
      var m := Seat(cursor, t, k, 0);
      assert HasTurn(cursor, k, 0, m);
      TwoTurns(cursor, k, 0, m, t, u);
    }
  }

  /** In the t-th call place `j` goes to the member whose seat it is. */
  lemma WhoSits(members: seq<Upstream>, cursor: word, t: nat, j: nat)
    requires j < |members| && t < USIZE
    ensures Rotated(members, Offset(cursor, t, |members|))[j] == members[Seat(cursor, t, |members|, j)]
  {
    RotatedAt(members, Offset(cursor, t, |members|), j);
  }

  lemma FairIfSteady(cursor: word, k: nat)
    requires 0 < k < USIZE
    ensures Fair(cursor, k) <==> cursor + k <= USIZE || USIZE % k == 0
  {
    if Steady(cursor, k) {
      SteadyIsFair(cursor, k);
    } else if Fair(cursor, k) {
      FairIsSteady(cursor, k);
    }
  }

  // ----- Calls of all kinds, one after the other

  datatype Call = Call(server: Str, group: Str, upstreams: seq<Upstream>)

  function NameOf(call: Call): Str {
    GroupName(call.server, call.group)
  }

  function MembersOf(call: Call, priority: int): seq<Upstream> {
    OfPriority(InGroup(call.upstreams, call.group), priority)
  }

  function Chosen(call: Call, cursors: Cursors): Choice {
    Select(call.server, call.group, call.upstreams, cursors)
  }

  function CursorsAfter(cursors: Cursors, calls: seq<Call>): Cursors {
    if calls == [] then cursors
    else Chosen(calls[|calls| - 1], CursorsAfter(cursors, calls[..|calls| - 1])).cursors
  }

  /** What the calls for one name are answered, in order. */
  function Served(cursors: Cursors, calls: seq<Call>, name: Str): seq<seq<Upstream>> {
    if calls == [] then []
    else
      var front, last := calls[..|calls| - 1], calls[|calls| - 1];
      Served(cursors, front, name) +
      if NameOf(last) == name then [Chosen(last, CursorsAfter(cursors, front)).order] else []
  }

  /** The calls for one name find the same members of a priority; others are free. */
  predicate SameMembers(calls: seq<Call>, name: Str, priority: int, members: seq<Upstream>) {
    calls == [] ||
    (SameMembers(calls[..|calls| - 1], name, priority, members) &&
     (NameOf(calls[|calls| - 1]) == name ==> MembersOf(calls[|calls| - 1], priority) == members))
  }

  predicate Foreign(keys: Keys, key: Str, q: int) {
    KeyOf(keys, q) != key
  }

  lemma {:induction false} ForeignStays(keys: Keys, sorted: seq<Upstream>, start: nat, cursors: Cursors, key: Str)
    requires forall q: int :: Foreign(keys, key, q)
    ensures Cursor(TurnRuns(keys, sorted, start, cursors).cursors, key) == Cursor(cursors, key)
    decreases |sorted| - start
  {
    if start < |sorted| {
      var end := RunEnd(sorted, start, start + 1);
      var first := TurnRun(sorted[start..end], KeyOf(keys, sorted[start].priority), cursors);
      assert Foreign(keys, key, sorted[start].priority);
      TurnKeeps(sorted[start..end], KeyOf(keys, sorted[start].priority), cursors, 0);
      ForeignStays(keys, sorted, end, first.cursors, key);
    }
  }

  /** A call leaves the cursors of all other names alone. */
  lemma OthersStay(call: Call, cursors: Cursors, name: Str, p: int)
    requires NameOf(call) != name
    ensures Cursor(Chosen(call, cursors).cursors, NamedKey(name, p)) == Cursor(cursors, NamedKey(name, p))
  {
    var keys := KeysOf(call.server, call.group);
    forall q: int ensures Foreign(keys, NamedKey(name, p), q) {
      NamesAreSeparate(NameOf(call), q, name, p);
    }
    ForeignStays(keys, Sorted(InGroup(call.upstreams, call.group)), 0, cursors, NamedKey(name, p));
  }

  /** A call for the name turns the members by their cursor, which moves on. */
  lemma OwnTurns(call: Call, cursors: Cursors, p: int)
    requires |MembersOf(call, p)| > 1
    ensures var choice, key := Chosen(call, cursors), NamedKey(NameOf(call), p);
            && OfPriority(choice.order, p) ==
               Rotated(MembersOf(call, p), Cursor(cursors, key) % |MembersOf(call, p)|)
            && Cursor(choice.cursors, key) == Later(Cursor(cursors, key), 1)
  {
    GroupsAreSeparate(call.server, call.group);
    ChoiceIsFair(KeysOf(call.server, call.group), InGroup(call.upstreams, call.group), cursors, p);
  }

  predicate TurnedAt(orders: seq<seq<Upstream>>, members: seq<Upstream>, p: int, cursor: word, t: nat)
    requires 0 < |members| && |orders| < USIZE
  {
    t < |orders| ==> OfPriority(orders[t], p) == Rotated(members, Offset(cursor, t, |members|))
  }

  /** Each answer is turned by the offset of its number among the calls for the name. */
  ghost predicate Turned(orders: seq<seq<Upstream>>, members: seq<Upstream>, p: int, cursor: word)
    requires 0 < |members| && |orders| < USIZE
  {
    forall t: nat :: TurnedAt(orders, members, p, cursor, t)
  }

  lemma OneMoreTurned(orders: seq<seq<Upstream>>, last: seq<Upstream>, members: seq<Upstream>, p: int, cursor: word)
    requires 0 < |members| && |orders| + 1 < USIZE && Turned(orders, members, p, cursor)
    requires OfPriority(last, p) == Rotated(members, Offset(cursor, |orders|, |members|))
    ensures Turned(orders + [last], members, p, cursor)
  {
    forall t: nat ensures TurnedAt(orders + [last], members, p, cursor, t) {
      if t < |orders| {
        assert TurnedAt(orders, members, p, cursor, t);
      }
    }
  }

  lemma {:induction false} CallsTurn(cursors: Cursors, calls: seq<Call>, name: Str, p: int, members: seq<Upstream>)
    requires |members| > 1 && SameMembers(calls, name, p, members) && |Served(cursors, calls, name)| < USIZE
    ensures Cursor(CursorsAfter(cursors, calls), NamedKey(name, p)) ==
            Later(Cursor(cursors, NamedKey(name, p)), |Served(cursors, calls, name)|)
    ensures Turned(Served(cursors, calls, name), members, p, Cursor(cursors, NamedKey(name, p)))
  {
    if calls != [] {
      var front, last := calls[..|calls| - 1], calls[|calls| - 1];
      CallsTurn(cursors, front, name, p, members);
      var before := CursorsAfter(cursors, front);
      if NameOf(last) == name {
        OwnTurns(last, before, p);
        OneMoreTurned(Served(cursors, front, name), Chosen(last, before).order, members, p,
                      Cursor(cursors, NamedKey(name, p)));
      } else {
        OthersStay(last, before, name, p);
        Nothing(Served(cursors, front, name));
      }
    }
  }

  /** However many calls there are for other groups and servers in between: as many calls for one
      group as a priority has members turn the members by their offsets, and each of them has each
      place exactly once, if and only if the cursor does not wrap meanwhile, or wraps where a
      round ends. */
  lemma RoundRobinIsFair(cursors: Cursors, calls: seq<Call>, name: Str, p: int, members: seq<Upstream>)
    requires 1 < |members| < USIZE && SameMembers(calls, name, p, members)
    requires |Served(cursors, calls, name)| == |members|
    ensures var k, cursor := |members|, Cursor(cursors, NamedKey(name, p));
            && (Fair(cursor, k) <==> cursor + k <= USIZE || USIZE % k == 0)
            && Turned(Served(cursors, calls, name), members, p, cursor)
  {
    FairIfSteady(Cursor(cursors, NamedKey(name, p)), |members|);
    CallsTurn(cursors, calls, name, p, members);
  }

  // ----- Fairness of the answers

  predicate Places(orders: seq<seq<Upstream>>, p: int, t: nat, j: nat, u: Upstream) {
    t < |orders| && j < |OfPriority(orders[t], p)| && OfPriority(orders[t], p)[j] == u
  }

  predicate OnlyPlace(orders: seq<seq<Upstream>>, p: int, j: nat, u: Upstream, t: nat) {
    t < |orders| && forall s: nat | s < |orders| :: Places(orders, p, s, j, u) <==> s == t
  }

  ghost predicate HasPlace(orders: seq<seq<Upstream>>, p: int, j: nat, u: Upstream) {
    exists t: nat :: OnlyPlace(orders, p, j, u, t)
  }

  /** Every member has every place of its priority in exactly one of the answers. */
  ghost predicate FairOrders(orders: seq<seq<Upstream>>, p: int, members: seq<Upstream>) {
    forall j: nat, m: nat | j < |members| && m < |members| :: HasPlace(orders, p, j, members[m])
  }

  predicate AllUnlike(members: seq<Upstream>) {
    forall i, j | 0 <= i < j < |members| :: members[i] != members[j]
  }

  lemma SeatIsPlace(orders: seq<seq<Upstream>>, p: int, members: seq<Upstream>, cursor: word, t: nat, j: nat, m: nat)
    requires t < |orders| == |members| < USIZE && j < |members| && m < |members| && AllUnlike(members)
    requires Turned(orders, members, p, cursor)
    ensures Places(orders, p, t, j, members[m]) <==> Seat(cursor, t, |members|, j) == m
  {
    assert TurnedAt(orders, members, p, cursor, t);
    WhoSits(members, cursor, t, j);
  }

  lemma TurnIsPlace(orders: seq<seq<Upstream>>, p: int, members: seq<Upstream>, cursor: word, j: nat, m: nat)
    requires 0 < |orders| == |members| < USIZE && j < |members| && m < |members| && AllUnlike(members)
    requires Turned(orders, members, p, cursor)
    ensures HasPlace(orders, p, j, members[m]) <==> HasTurn(cursor, |members|, j, m)
  {
    forall t: nat | t < |members|
      ensures Places(orders, p, t, j, members[m]) <==> Seat(cursor, t, |members|, j) == m
    {
      SeatIsPlace(orders, p, members, cursor, t, j, m);
    }
    if HasPlace(orders, p, j, members[m]) {
      var t: nat :| OnlyPlace(orders, p, j, members[m], t);
      assert OnlyTurn(cursor, |members|, j, m, t);
    }
    if HasTurn(cursor, |members|, j, m) {
      var t: nat :| OnlyTurn(cursor, |members|, j, m, t);
      assert OnlyPlace(orders, p, j, members[m], t);
    }
  }

  /** The same on what is answered: with members that differ, as those of a stored server do,
      every member has every place of its priority in exactly one of the answers, under the same
      condition and only then. */
  lemma AnswersAreFair(cursors: Cursors, calls: seq<Call>, name: Str, p: int, members: seq<Upstream>)
    requires 1 < |members| < USIZE && SameMembers(calls, name, p, members) && AllUnlike(members)
    requires |Served(cursors, calls, name)| == |members|
    ensures var k, cursor := |members|, Cursor(cursors, NamedKey(name, p));
            FairOrders(Served(cursors, calls, name), p, members) <==> cursor + k <= USIZE || USIZE % k == 0
  {
    var k, cursor := |members|, Cursor(cursors, NamedKey(name, p));
    RoundRobinIsFair(cursors, calls, name, p, members);
    forall j: nat, m: nat | j < k && m < k
      ensures HasPlace(Served(cursors, calls, name), p, j, members[m]) <==> HasTurn(cursor, k, j, m)
    {
      TurnIsPlace(Served(cursors, calls, name), p, members, cursor, j, m);
    }
  }
}
