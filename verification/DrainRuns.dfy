/** Requests and reloads interleaved step by step over one ProxyState. */
module DrainRuns {
  import opened Prelude
  import opened Text
  import opened Config
  import opened UpstreamDrain
  import opened UpstreamScheduler

  /** A request has the candidates of its route's group, from its server's configuration as it was
      when the request began, and then a guard on one of them. */
  datatype Phase = Waiting(candidates: seq<Upstream>) | Live(id: Str)

  /** The default configuration a connection was opened with: that of a server while it stays at
      its address, and what it was when the server left. */
  datatype Default = Current(server: Str) | Left(upstreams: seq<Upstream>)

  /** A reload under way: `done` upstreams of the former configuration are reconciled. */
  datatype Reload = Reload(server: Str, former: seq<Upstream>, next: seq<Upstream>, done: nat)

  datatype State = State(
    config: map<Str, seq<Upstream>>,
    requests: map<nat, Phase>,
    connections: map<nat, Default>,
    reload: Option<Reload>,
    active: Counts,
    retired: Retirees)

  datatype Step =
    | Open(connection: nat, server: Str)
    | Close(connection: nat)
    | Begin(request: nat, server: Str, group: Str)
    | BeginOnDefault(request: nat, connection: nat, group: Str)
    | Connect(request: nat, upstream: Upstream)
    | GiveUp(request: nat)
    | Finish(request: nat)
    | StartReload(server: Str, next: seq<Upstream>)
    | ReconcileNext
    | WriteConfig
    | Leave(server: Str)
    | Appear(server: Str, upstreams: seq<Upstream>)

  /** The upstreams a connection falls back on. */
  function DefaultOf(s: State, c: nat): seq<Upstream>
    requires c in s.connections && (s.connections[c].Current? ==> s.connections[c].server in s.config)
  {
    match s.connections[c]
    case Current(server) => s.config[server]
    case Left(upstreams) => upstreams
  }

  /** Requests and admin calls; a server that is stopped or moves to another address leaves, and one
      that starts, there or for the first time, appears. */
  predicate Enabled(s: State, step: Step) {
    match step
    case Open(c, server) => c !in s.connections && server in s.config
    case Close(c) => c in s.connections
    case Begin(r, server, _) => r !in s.requests && server in s.config
    case BeginOnDefault(r, c, _) =>
      && r !in s.requests && c in s.connections
      && (s.connections[c].Current? ==> s.connections[c].server in s.config)
    case Connect(r, u) => r in s.requests && s.requests[r].Waiting? && u in s.requests[r].candidates
    case GiveUp(r) => r in s.requests && s.requests[r].Waiting?
    case Finish(r) => r in s.requests && s.requests[r].Live?
    case StartReload(server, _) => s.reload.None? && server in s.config
    case ReconcileNext => s.reload.Some? && s.reload.value.done < |s.reload.value.former|
    case WriteConfig => s.reload.Some? && s.reload.value.done == |s.reload.value.former|
    case Leave(server) => s.reload.None? && server in s.config
    case Appear(server, _) => s.reload.None? && server !in s.config
  }

  /** The connections of a server that leaves keep its configuration. */
  function Parted(connections: map<nat, Default>, server: Str, upstreams: seq<Upstream>): map<nat, Default> {
    map c | c in connections :: if connections[c] == Current(server) then Left(upstreams) else connections[c]
  }

  function Next(s: State, step: Step): State
    requires Enabled(s, step)
  {
    match step
    case Open(c, server) => s.(connections := s.connections[c := Current(server)])
    case Close(c) => s.(connections := s.connections - {c})
    case Begin(r, server, group) => s.(requests := s.requests[r := Waiting(InGroup(s.config[server], group))])
    case BeginOnDefault(r, c, group) =>
      s.(requests := s.requests[r := Waiting(InGroup(DefaultOf(s, c), group))])
    case Connect(r, u) =>
      s.(requests := s.requests[r := Live(u.id)], active := Incremented(s.active, u.id))
    case GiveUp(r) => s.(requests := s.requests - {r})
    case Finish(r) =>
      s.(requests := s.requests - {r}, active := Decremented(s.active, s.requests[r].id))
    case StartReload(server, next) => s.(reload := Some(Reload(server, s.config[server], next, 0)))
    case ReconcileNext =>
      var reload := s.reload.value;
      s.(reload := Some(reload.(done := reload.done + 1)),
         retired := Reconciled(s.retired, s.active, reload.server, reload.former[reload.done], reload.next))
    case WriteConfig =>
      var reload := s.reload.value;
      s.(config := s.config[reload.server := reload.next], reload := None)
    case Leave(server) =>
      s.(config := s.config - {server}, connections := Parted(s.connections, server, s.config[server]))
    case Appear(server, upstreams) => s.(config := s.config[server := upstreams])
  }

  predicate Run(s: State, steps: seq<Step>)
    decreases |steps|
  {
    steps == [] || (Enabled(s, steps[0]) && Run(Next(s, steps[0]), steps[1..]))
  }

  function Final(s: State, steps: seq<Step>): State
    requires Run(s, steps)
    decreases |steps|
  {
    if steps == [] then s else Final(Next(s, steps[0]), steps[1..])
  }

  function Initial(config: map<Str, seq<Upstream>>): State {
    State(config, map[], map[], None, map[], map[])
  }

  // ----- Counts are guards

  /** The requests with a guard on an upstream. */
  function Guards(requests: map<nat, Phase>, id: Str): set<nat> {
    set r | r in requests && requests[r] == Live(id)
  }

  predicate CountedAt(s: State, id: Str) {
    && Count(s.active, id) == |Guards(s.requests, id)|
    && (id in s.active ==> s.active[id] > 0)
  }

  ghost predicate Counted(s: State) {
    forall id: Str :: CountedAt(s, id)
  }

  lemma GuardsWithout(requests: map<nat, Phase>, r: nat, id: Str)
    ensures Guards(requests - {r}, id) == Guards(requests, id) - {r}
    ensures r in requests && requests[r] == Live(id) ==>
              |Guards(requests, id)| == |Guards(requests - {r}, id)| + 1
    ensures !(r in requests && requests[r] == Live(id)) ==> Guards(requests - {r}, id) == Guards(requests, id)
  {
    assert Guards(requests - {r}, id) == Guards(requests, id) - {r};
  }

  lemma GuardsWith(requests: map<nat, Phase>, r: nat, phase: Phase, id: Str)
    ensures |Guards(requests[r := phase], id)| ==
            |Guards(requests - {r}, id)| + if phase == Live(id) then 1 else 0
  {
    assert Guards(requests[r := phase], id) ==
           Guards(requests - {r}, id) + if phase == Live(id) then {r} else {};
  }

  lemma StepKeepsCountAt(s: State, step: Step, id: Str)
    requires Enabled(s, step) && CountedAt(s, id)
    requires step.Finish? ==> CountedAt(s, s.requests[step.request].id)
    ensures CountedAt(Next(s, step), id)
  {
    match step
    case Begin(r, server, group) =>
      GuardsWithout(s.requests, r, id);
      GuardsWith(s.requests, r, Waiting(InGroup(s.config[server], group)), id);
    case BeginOnDefault(r, c, group) =>
      GuardsWithout(s.requests, r, id);
      GuardsWith(s.requests, r, Waiting(InGroup(DefaultOf(s, c), group)), id);
    case Connect(r, u) =>
      GuardsWithout(s.requests, r, id);
      GuardsWith(s.requests, r, Live(u.id), id);
    case GiveUp(r) =>
      GuardsWithout(s.requests, r, id);
    case Finish(r) =>
      FinishKeepsCountAt(s, r, s.requests[r].id, id);
    case _ =>
  }

  lemma FinishKeepsCountAt(s: State, r: nat, held: Str, id: Str)
    requires r in s.requests && s.requests[r] == Live(held) && CountedAt(s, id) && CountedAt(s, held)
    ensures CountedAt(s.(requests := s.requests - {r}, active := Decremented(s.active, held)), id)
  {
    GuardsWithout(s.requests, r, id);
    GuardsWithout(s.requests, r, held);
  }

  /** Every step keeps each count at the number of live guards. */
  lemma StepKeepsCounts(s: State, step: Step)
    requires Enabled(s, step) && Counted(s)
    ensures Counted(Next(s, step))
  {
    forall id: Str ensures CountedAt(Next(s, step), id) {
      assert CountedAt(s, id);
      if step.Finish? {
        assert CountedAt(s, s.requests[step.request].id);
      }
      StepKeepsCountAt(s, step, id);
    }
  }

  /** Over every interleaving: the count of an upstream is the number of its guards, no count is
      taken below zero, and a retired upstream reads dead exactly when no guard is left. */
  lemma {:induction false} CountsAreGuards(config: map<Str, seq<Upstream>>, steps: seq<Step>)
    requires Run(Initial(config), steps)
    ensures Counted(Final(Initial(config), steps))
  {
    forall id: Str ensures CountedAt(Initial(config), id) {
      assert Guards(map[], id) == {};
    }
    RunKeepsCounts(Initial(config), steps);
  }

  lemma {:induction false} RunKeepsCounts(s: State, steps: seq<Step>)
    requires Run(s, steps) && Counted(s)
    ensures Counted(Final(s, steps))
    decreases |steps|
  {
    if steps != [] {
      StepKeepsCounts(s, steps[0]);
      RunKeepsCounts(Next(s, steps[0]), steps[1..]);
    }
  }

  /** A guard that is dropped always finds its count. */
  lemma NothingSaturates(s: State, r: nat)
    requires Counted(s) && Enabled(s, Finish(r))
    ensures s.requests[r].id in s.active && s.active[s.requests[r].id] > 0
  {
    assert CountedAt(s, s.requests[r].id);
    assert r in Guards(s.requests, s.requests[r].id);
  }

  lemma DeadMeansUnused(s: State, id: Str)
    requires Counted(s)
    ensures StatusOf(s.active, id) == Dead <==> Guards(s.requests, id) == {}
  {
    assert CountedAt(s, id);
  }

  // ----- Draining

  predicate MayUse(phase: Phase, id: Str) {
    match phase
    case Waiting(candidates) => Listed(candidates, id)
    case Live(held) => held == id
  }

  /** The requests that hold a guard on an upstream or may still take one. */
  function Users(requests: map<nat, Phase>, id: Str): set<nat> {
    set r | r in requests && MayUse(requests[r], id)
  }

  /** Out of every configuration, and not about to come back. */
  predicate Removed(s: State, id: Str) {
    && (forall server | server in s.config :: !Listed(s.config[server], id))
    && (s.reload.Some? ==> !Listed(s.reload.value.next, id))
  }

  /** No connection falls back on it, from a server that has left. */
  predicate Forgotten(s: State, id: Str) {
    forall c | c in s.connections && s.connections[c].Left? :: !Listed(s.connections[c].upstreams, id)
  }

  /** A step that does not configure the upstream anew. */
  predicate Without(step: Step, id: Str) {
    && (step.StartReload? ==> !Listed(step.next, id))
    && (step.Appear? ==> !Listed(step.upstreams, id))
  }

  predicate AllWithout(steps: seq<Step>, id: Str) {
    steps == [] || (Without(steps[0], id) && AllWithout(steps[1..], id))
  }

  lemma {:induction false} ListedInGroup(upstreams: seq<Upstream>, group: Str, id: Str)
    requires Listed(InGroup(upstreams, group), id)
    ensures Listed(upstreams, id)
  {
    var front, last := upstreams[..|upstreams| - 1], upstreams[|upstreams| - 1];
    ListedLast(upstreams, id);
    if last.group == group {
      var all := InGroup(front, group) + [last];
      ListedLast(all, id);
      assert all[..|all| - 1] == InGroup(front, group);
      if last.id != id {
        ListedInGroup(front, group, id);
      }
    } else {
      assert InGroup(front, group) + [] == InGroup(front, group);
      ListedInGroup(front, group, id);
    }
  }

  lemma {:induction false} InOwnGroup(upstreams: seq<Upstream>, u: Upstream)
    requires u in upstreams
    ensures u in InGroup(upstreams, u.group)
  {
    if u != upstreams[|upstreams| - 1] {
      InOwnGroup(upstreams[..|upstreams| - 1], u);
    }
  }

  lemma StepStaysRemoved(s: State, step: Step, id: Str)
    requires Enabled(s, step) && Removed(s, id) && Without(step, id)
    ensures Removed(Next(s, step), id)
    ensures Forgotten(s, id) ==> Forgotten(Next(s, step), id)
  {}

  lemma NoNewUser(requests: map<nat, Phase>, r: nat, upstreams: seq<Upstream>, group: Str, id: Str)
    requires !Listed(upstreams, id)
    ensures Users(requests[r := Waiting(InGroup(upstreams, group))], id) <= Users(requests, id)
  {
    if Listed(InGroup(upstreams, group), id) {
      ListedInGroup(upstreams, group, id);
      assert false;
    }
  }

  lemma StepDrains(s: State, step: Step, id: Str)
    requires Enabled(s, step) && Removed(s, id) && Forgotten(s, id) && Without(step, id)
    ensures Users(Next(s, step).requests, id) <= Users(s.requests, id)
  {
    match step
    case Begin(r, server, group) =>
      NoNewUser(s.requests, r, s.config[server], group, id);
    case BeginOnDefault(r, c, group) =>
      NoNewUser(s.requests, r, DefaultOf(s, c), group, id);
    case Connect(r, u) =>
      if u.id == id {
        assert Listed(s.requests[r].candidates, id);
      }
      assert Users(s.requests[r := Live(u.id)], id) <= Users(s.requests, id);
    case _ =>
  }

  /** Once an upstream is out of every configuration, those that connections fall back on included,
      the requests on it or on their way to it only become fewer: none that begins later joins
      them. */
  lemma {:induction false} RunDrains(s: State, steps: seq<Step>, id: Str)
    requires Run(s, steps) && Removed(s, id) && Forgotten(s, id) && AllWithout(steps, id)
    ensures Removed(Final(s, steps), id) && Forgotten(Final(s, steps), id)
    ensures Users(Final(s, steps).requests, id) <= Users(s.requests, id)
    decreases |steps|
  {
    if steps != [] {
      StepStaysRemoved(s, steps[0], id);
      StepDrains(s, steps[0], id);
      RunDrains(Next(s, steps[0]), steps[1..], id);
    }
  }

  lemma Above(keys: set<nat>) returns (n: nat)
    ensures n !in keys && forall k | k in keys :: k < n
    decreases |keys|
  {
    n := 0;
    if keys != {} {
      var k :| k in keys;
      var m := Above(keys - {k});
      n := if k < m then m else k + 1;
      forall j | j in keys ensures j < n {
        assert j == k || j in keys - {k};
      }
    }
  }

  /** A request begins on a connection that falls back on the upstream. */
  lemma DefaultIsUsed(s: State, id: Str, c: nat) returns (r: nat, u: Upstream)
    requires c in s.connections && s.connections[c].Left? && Listed(s.connections[c].upstreams, id)
    ensures u.id == id && r !in s.requests && Enabled(s, BeginOnDefault(r, c, u.group))
    ensures var begun := Next(s, BeginOnDefault(r, c, u.group));
            r in Users(begun.requests, id) && Enabled(begun, Connect(r, u))
  {
    var upstreams := s.connections[c].upstreams;
    var i :| 0 <= i < |upstreams| && upstreams[i].id == id;
    u := upstreams[i];
    InOwnGroup(upstreams, u);
    r := Above(s.requests.Keys);
    var k :| 0 <= k < |InGroup(upstreams, u.group)| && InGroup(upstreams, u.group)[k] == u;
    assert InGroup(upstreams, u.group)[k].id == id;
  }

  lemma OneStep(s: State, step: Step, id: Str) returns (steps: seq<Step>)
    requires Enabled(s, step) && Without(step, id)
    ensures steps == [step] && Run(s, steps) && Final(s, steps) == Next(s, step) && AllWithout(steps, id)
  {
    steps := [step];
    assert steps[1..] == [];
  }

  predicate DrainsAfter(s: State, steps: seq<Step>, id: Str) {
    Run(s, steps) && AllWithout(steps, id) ==> Users(Final(s, steps).requests, id) <= Users(s.requests, id)
  }

  ghost predicate Drains(s: State, id: Str) {
    forall steps: seq<Step> :: DrainsAfter(s, steps, id)
  }

  /** An upstream that is out of every configuration drains if and only if no connection falls back
      on it; a move of its server to another address leaves such connections behind. */
  lemma DrainsIfForgotten(s: State, id: Str)
    requires Removed(s, id)
    ensures Drains(s, id) <==> Forgotten(s, id)
  {
    if Forgotten(s, id) {
      forall steps: seq<Step> ensures DrainsAfter(s, steps, id) {
        if Run(s, steps) && AllWithout(steps, id) {
          RunDrains(s, steps, id);
        }
      }
    } else {
      var c :| c in s.connections && s.connections[c].Left? && Listed(s.connections[c].upstreams, id);
      var r, u := DefaultIsUsed(s, id, c);
      var step := BeginOnDefault(r, c, u.group);
      var steps := OneStep(s, step, id);
      assert r in Users(Final(s, steps).requests, id) && r !in Users(s.requests, id);
      assert !DrainsAfter(s, steps, id);
    }
  }

  predicate DeadAfter(s: State, steps: seq<Step>, id: Str) {
    Run(s, steps) && AllWithout(steps, id) ==> StatusOf(Final(s, steps).active, id) == Dead
  }

  /** Whatever happens, the upstream reads dead. */
  ghost predicate StaysDead(s: State, id: Str) {
    forall steps: seq<Step> :: DeadAfter(s, steps, id)
  }

  lemma DrainedStaysDead(s: State, id: Str, steps: seq<Step>)
    requires Counted(s) && Removed(s, id) && Forgotten(s, id) && Users(s.requests, id) == {}
    ensures DeadAfter(s, steps, id)
  {
    if Run(s, steps) && AllWithout(steps, id) {
      RunDrains(s, steps, id);
      RunKeepsCounts(s, steps);
      DeadMeansUnused(Final(s, steps), id);
      assert Guards(Final(s, steps).requests, id) <= Users(Final(s, steps).requests, id);
    }
  }

  lemma ConnectRevives(s: State, id: Str, r: nat, u: Upstream)
    requires Enabled(s, Connect(r, u)) && u.id == id
    ensures !DeadAfter(s, [Connect(r, u)], id)
  {
    var steps := OneStep(s, Connect(r, u), id);
    assert StatusOf(Next(s, Connect(r, u)).active, id) == Deading;
  }

  lemma UserRevives(s: State, id: Str, r: nat) returns (steps: seq<Step>)
    requires Counted(s) && r in Users(s.requests, id)
    ensures !DeadAfter(s, steps, id)
  {
    match s.requests[r]
    case Waiting(candidates) =>
      var i :| 0 <= i < |candidates| && candidates[i].id == id;
      ConnectRevives(s, id, r, candidates[i]);
      steps := [Connect(r, candidates[i])];
    case Live(_) =>
      steps := [];
      DeadMeansUnused(s, id);
      assert r in Guards(s.requests, id);
      assert Final(s, []) == s;
      assert StatusOf(s.active, id) == Deading;
  }

  lemma DefaultRevives(s: State, id: Str, c: nat) returns (steps: seq<Step>)
    requires c in s.connections && s.connections[c].Left? && Listed(s.connections[c].upstreams, id)
    ensures !DeadAfter(s, steps, id)
  {
    var r, u := DefaultIsUsed(s, id, c);
    var begin := BeginOnDefault(r, c, u.group);
    ConnectRevives(Next(s, begin), id, r, u);
    OneMoreStep(s, begin, [Connect(r, u)]);
    steps := [begin] + [Connect(r, u)];
    assert steps[1..] == [Connect(r, u)];
  }

  /** "Dead" is final if and only if no request holds a guard, none that began before the removal
      is still on its way to one, and no connection falls back on the upstream. */
  lemma DeadIsFinal(s: State, id: Str)
    requires Counted(s) && Removed(s, id)
    ensures StaysDead(s, id) <==> Users(s.requests, id) == {} && Forgotten(s, id)
  {
    if Users(s.requests, id) != {} {
      var r :| r in Users(s.requests, id);
      var steps := UserRevives(s, id, r);
      assert !DeadAfter(s, steps, id);
    } else if !Forgotten(s, id) {
      var c :| c in s.connections && s.connections[c].Left? && Listed(s.connections[c].upstreams, id);
      var steps := DefaultRevives(s, id, c);
      assert !DeadAfter(s, steps, id);
    } else {
      forall steps: seq<Step> ensures DeadAfter(s, steps, id) {
        DrainedStaysDead(s, id, steps);
      }
    }
  }

  // ----- What a reload lists

  /** The step comes to the upstream in a reload and finds it in use. */
  predicate Sees(s: State, step: Step, id: Str)
    requires Enabled(s, step)
  {
    && step.ReconcileNext?
    && s.reload.value.former[s.reload.value.done].id == id
    && Count(s.active, id) > 0
  }

  predicate SeenInUse(s: State, steps: seq<Step>, id: Str)
    requires Run(s, steps)
    decreases |steps|
  {
    steps != [] && (Sees(s, steps[0], id) || SeenInUse(Next(s, steps[0]), steps[1..], id))
  }

  /** No reload under way brings the upstream back. */
  predicate NotComing(s: State, id: Str) {
    s.reload.Some? ==> !Listed(s.reload.value.next, id)
  }

  lemma {:induction false} StepLists(s: State, step: Step, id: Str)
    requires Enabled(s, step) && NotComing(s, id) && Without(step, id)
    ensures NotComing(Next(s, step), id)
    ensures id in Next(s, step).retired <==> id in s.retired || Sees(s, step, id)
  {
    if step.ReconcileNext? {
      ReconcileOne(s.retired, s.active, s.reload.value.server, s.reload.value.former[s.reload.value.done],
                   s.reload.value.next, id);
    }
  }

  lemma ReconcileOne(retired: Retirees, active: Counts, server: Str, former: Upstream, next: seq<Upstream>, id: Str)
    requires !Listed(next, id)
    ensures id in Reconciled(retired, active, server, former, next) <==>
            id in retired || (former.id == id && Count(active, id) > 0)
  {}

  /** Over any run in which nothing configures the upstream anew, reloads and writes included, it
      is listed exactly when it was before or a reload that came to it found it in use. */
  lemma {:induction false} ListedIfSeen(s: State, steps: seq<Step>, id: Str)
    requires Run(s, steps) && NotComing(s, id) && AllWithout(steps, id)
    ensures id in Final(s, steps).retired <==> id in s.retired || SeenInUse(s, steps, id)
    decreases |steps|
  {
    if steps != [] {
      StepLists(s, steps[0], id);
      ListedIfSeen(Next(s, steps[0]), steps[1..], id);
    }
  }

  predicate NoWrite(steps: seq<Step>) {
    steps == [] || (!steps[0].WriteConfig? && NoWrite(steps[1..]))
  }

  /** Until a reload is written no other begins. */
  lemma {:induction false} OneReload(s: State, steps: seq<Step>, id: Str)
    requires Run(s, steps) && NoWrite(steps) && s.reload.Some?
    ensures AllWithout(steps, id)
    ensures Final(s, steps).reload.Some?
    ensures Final(s, steps).reload.value == s.reload.value.(done := Final(s, steps).reload.value.done)
    decreases |steps|
  {
    if steps != [] {
      OneReload(Next(s, steps[0]), steps[1..], id);
    }
  }

  /** A reload that removes the upstream lists it exactly when it was listed before, or had a guard
      at the moment the reload came to it; guards before and after that moment do not count. */
  lemma ReloadListsIfSeen(s: State, server: Str, next: seq<Upstream>, steps: seq<Step>, id: Str)
    requires Enabled(s, StartReload(server, next)) && !Listed(next, id)
    requires Run(Next(s, StartReload(server, next)), steps) && NoWrite(steps)
    requires Enabled(Final(Next(s, StartReload(server, next)), steps), WriteConfig)
    ensures id in Next(Final(Next(s, StartReload(server, next)), steps), WriteConfig).retired <==>
            id in s.retired || SeenInUse(Next(s, StartReload(server, next)), steps, id)
  {
    var begun := Next(s, StartReload(server, next));
    OneReload(begun, steps, id);
    ListedIfSeen(begun, steps, id);
  }

  /** No reload under way has still to come to the upstream. */
  predicate PassedBy(s: State, id: Str) {
    s.reload.Some? ==>
      && s.reload.value.done <= |s.reload.value.former|
      && !Listed(s.reload.value.former[s.reload.value.done..], id)
  }

  lemma StepPassesBy(s: State, step: Step, id: Str)
    requires Enabled(s, step) && Removed(s, id) && PassedBy(s, id)
    ensures PassedBy(Next(s, step), id) && !Sees(s, step, id)
  {
    match step
    case StartReload(server, next) =>
      assert s.config[server][0..] == s.config[server];
    case ReconcileNext =>
      var left := s.reload.value.former[s.reload.value.done..];
      assert left[0] == s.reload.value.former[s.reload.value.done];
      assert left[1..] == s.reload.value.former[s.reload.value.done + 1..];
      ListedRest(left, id);
    case _ =>
  }

  lemma ListedRest(upstreams: seq<Upstream>, id: Str)
    requires upstreams != []
    ensures Listed(upstreams, id) <==> upstreams[0].id == id || Listed(upstreams[1..], id)
  {
    if Listed(upstreams[1..], id) {
      var i :| 0 <= i < |upstreams| - 1 && upstreams[1..][i].id == id;
      assert upstreams[i + 1].id == id;
    }
    if Listed(upstreams, id) && upstreams[0].id != id {
      var i :| 0 <= i < |upstreams| && upstreams[i].id == id;
      assert upstreams[1..][i - 1].id == id;
    }
  }

  /** Once an upstream is out of every configuration and every reload has passed it by, its
      listing never changes again: one that was missed stays missed in every run. */
  lemma {:induction false} ListingIsFinal(s: State, steps: seq<Step>, id: Str)
    requires Run(s, steps) && Removed(s, id) && PassedBy(s, id) && AllWithout(steps, id)
    ensures id in Final(s, steps).retired <==> id in s.retired
    decreases |steps|
  {
    if steps != [] {
      StepPassesBy(s, steps[0], id);
      StepStaysRemoved(s, steps[0], id);
      StepLists(s, steps[0], id);
      ListingIsFinal(Next(s, steps[0]), steps[1..], id);
    }
  }

  /** A server that leaves, to stop or to move, takes its upstreams out without a look at their
      guards: whatever happens from then on, none is listed that was not. */
  lemma LeavingListsNothing(s: State, server: Str, steps: seq<Step>, id: Str)
    requires Enabled(s, Leave(server))
    requires forall other | other in s.config && other != server :: !Listed(s.config[other], id)
    requires Run(Next(s, Leave(server)), steps) && AllWithout(steps, id)
    ensures id in Final(Next(s, Leave(server)), steps).retired <==> id in s.retired
  {
    ListingIsFinal(Next(s, Leave(server)), steps, id);
  }

  /** At every moment of the run the upstream has a guard. */
  predicate UsedThroughout(s: State, steps: seq<Step>, id: Str)
    requires Run(s, steps)
    decreases |steps|
  {
    && Count(s.active, id) > 0
    && (steps == [] || UsedThroughout(Next(s, steps[0]), steps[1..], id))
  }

  lemma {:induction false} UsedIsSeen(s: State, steps: seq<Step>, id: Str)
    requires Run(s, steps) && NoWrite(steps) && UsedThroughout(s, steps, id)
    requires s.reload.Some? && s.reload.value.done <= |s.reload.value.former|
    requires Listed(s.reload.value.former[s.reload.value.done..], id)
    requires Enabled(Final(s, steps), WriteConfig)
    ensures SeenInUse(s, steps, id)
    decreases |steps|
  {
    var reload := s.reload.value;
    var left := reload.former[reload.done..];
    ListedRest(left, id);
    if steps != [] && !Sees(s, steps[0], id) {
      assert left[1..] == reload.former[reload.done + 1..];
      UsedIsSeen(Next(s, steps[0]), steps[1..], id);
    }
  }

  /** An upstream in use from the beginning of a reload that removes it to its end is listed,
      whatever else happens in between. */
  lemma UsedIsListed(s: State, server: Str, next: seq<Upstream>, steps: seq<Step>, id: Str)
    requires Enabled(s, StartReload(server, next)) && Listed(s.config[server], id) && !Listed(next, id)
    requires Run(Next(s, StartReload(server, next)), steps) && NoWrite(steps)
    requires UsedThroughout(Next(s, StartReload(server, next)), steps, id)
    requires Enabled(Final(Next(s, StartReload(server, next)), steps), WriteConfig)
    ensures id in Next(Final(Next(s, StartReload(server, next)), steps), WriteConfig).retired
  {
    var begun := Next(s, StartReload(server, next));
    assert begun.reload.value.former[0..] == begun.reload.value.former;
    UsedIsSeen(begun, steps, id);
    ReloadListsIfSeen(s, server, next, steps, id);
  }

  /** The run in which a request connects after its upstream's moment of the reload. */
  function LateConnect(server: Str, u: Upstream): seq<Step> {
    [Begin(0, server, u.group), StartReload(server, []), ReconcileNext, WriteConfig, Connect(0, u)]
  }

  lemma LateConnectRuns(server: Str, u: Upstream)
    ensures var s, steps := Initial(map[server := [u]]), LateConnect(server, u);
            && Run(s, steps) && Removed(Final(s, steps), u.id) && Final(s, steps).reload.None?
            && Count(Final(s, steps).active, u.id) > 0 && u.id !in Final(s, steps).retired
  {
    var s0 := Initial(map[server := [u]]);
    var s1 := Next(s0, Begin(0, server, u.group));
    var s2 := Next(s1, StartReload(server, []));
    var s3 := Next(s2, ReconcileNext);
    var s4 := Next(s3, WriteConfig);
    InOwnGroup([u], u);
    assert u in s4.requests[0].candidates;
    OneMoreStep(s4, Connect(0, u), []);
    OneMoreStep(s3, WriteConfig, [Connect(0, u)]);
    OneMoreStep(s2, ReconcileNext, [WriteConfig, Connect(0, u)]);
    OneMoreStep(s1, StartReload(server, []), [ReconcileNext, WriteConfig, Connect(0, u)]);
    OneMoreStep(s0, Begin(0, server, u.group), [StartReload(server, []), ReconcileNext, WriteConfig, Connect(0, u)]);
    assert LateConnect(server, u) ==
           [Begin(0, server, u.group)] + [StartReload(server, []), ReconcileNext, WriteConfig, Connect(0, u)];
  }

  predicate UnlistedAfter(s: State, steps: seq<Step>, id: Str) {
    Run(s, steps) && AllWithout(steps, id) ==> id !in Final(s, steps).retired
  }

  /** That upstream is in use and is not listed, then or after whatever follows. */
  lemma UsedButNotListed(server: Str, u: Upstream)
    ensures var s := Initial(map[server := [u]]);
            && Run(s, LateConnect(server, u))
            && var reached := Final(s, LateConnect(server, u));
               Count(reached.active, u.id) > 0 && forall later: seq<Step> :: UnlistedAfter(reached, later, u.id)
  {
    LateConnectRuns(server, u);
    var reached := Final(Initial(map[server := [u]]), LateConnect(server, u));
    forall later: seq<Step> ensures UnlistedAfter(reached, later, u.id) {
      if Run(reached, later) && AllWithout(later, u.id) {
        ListingIsFinal(reached, later, u.id);
      }
    }
  }

  lemma OneMoreStep(s: State, step: Step, rest: seq<Step>)
    requires Enabled(s, step) && Run(Next(s, step), rest)
    ensures Run(s, [step] + rest) && Final(s, [step] + rest) == Final(Next(s, step), rest)
  {
    assert ([step] + rest)[1..] == rest;
  }
}
