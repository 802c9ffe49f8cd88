/** What an operation on the stored servers does and leaves, told on positions and fields. */
module StorageEffects {
  import opened Text
  import opened Sequences
  import opened Config
  import opened Hosts
  import opened Storage
  import opened StorageOps

  // ----- Requests

  predicate Says(s: Str) {
    Trim(s) != []
  }

  /** Settings are positive numbers under names that are known. */
  predicate Settings(conf: Json) {
    && conf.Object?
    && forall i | 0 <= i < |conf.fields| ::
         && conf.fields[i].1.Unsigned? && conf.fields[i].1.value > 0
         && exists k | 0 <= k < |CONF_NAMES| :: conf.fields[i].0 == Ascii(CONF_NAMES[k])
  }

  predicate Rooted(path: Str) {
    |path| > 0 && path[0] == 47
  }

  /** A file action has a directory and an alias of 0 or 1; a proxy action has a group and, perhaps, a
      rewrite of one path's beginning to another's. */
  predicate Actionable(action: Action) {
    || (action.kind == Ascii("file") && action.file.Some? && Says(action.file.value.dir) && action.file.value.alias < 2)
    || (action.kind == Ascii("proxy") && action.proxy.Some? && Says(action.proxy.value.upstream) &&
        match action.proxy.value.rewrite
        case None => true
        case Some(rewrite) => rewrite.kind == Ascii("replacePrefix") && Rooted(rewrite.from) && Rooted(rewrite.to))
  }

  ghost predicate Acceptable(edit: Edit) {
    match edit
    case Update(request) => AcceptableServer(request)
    case AddUpstream(request, _) =>
      && Says(request.group) && Says(request.name) && Settings(request.conf)
      && exists authority, path, host, port :: AddressIs(request.host, authority, path, host, port)
    case AddRoute(request, _) =>
      request.rule.kind < 2 && Rooted(request.rule.path) && Actionable(request.action) && Settings(request.conf)
    case SetEnabled(_) => true
    case DeleteUpstream(_) => true
    case DeleteRoute(_) => true
  }

  predicate AcceptableServer(request: ServerRequest) {
    && Says(request.listen.host) && request.listen.port > 0
    && (forall i | 0 <= i < |request.listen.serverNames| :: Says(request.listen.serverNames[i]))
    && request.graceful.kind == 0 && Settings(request.conf)
  }

  lemma SettingsAreGood(conf: Json)
    ensures GoodConf(conf) <==> Settings(conf)
  {
    if GoodConf(conf) {
      forall i | 0 <= i < |conf.fields|
        ensures && conf.fields[i].1.Unsigned? && conf.fields[i].1.value > 0
                && exists k | 0 <= k < |CONF_NAMES| :: conf.fields[i].0 == Ascii(CONF_NAMES[k])
      {
        assert GoodConfEntry(conf.fields[i]);
      }
    }
  }

  lemma ActionsAreGood(action: Action)
    ensures GoodAction(action) <==> Actionable(action)
  {
    assert |Ascii("file")| != |Ascii("proxy")|;
  }

  lemma HostsAreGood(host: Str)
    ensures ParseHttpUpstream(host).Some? <==>
            exists authority, path, h, port :: AddressIs(host, authority, path, h, port)
  {
    var parsed := ParseHttpUpstream(host);
    if parsed.Some? {
      AddressReads(host, parsed.value.0, parsed.value.1);
    }
    forall authority, path, h, port | AddressIs(host, authority, path, h, port) ensures parsed.Some? {
      AddressReads(host, h, port);
    }
  }

  lemma ServerRequestsAreGood(request: ServerRequest)
    ensures GoodServerRequest(request) <==> AcceptableServer(request)
  {
    SettingsAreGood(request.conf);
  }

  /** A request is taken exactly when its fields are acceptable one by one. */
  lemma EditsAreGood(edit: Edit)
    ensures GoodEdit(edit) <==> Acceptable(edit)
  {
    match edit
    case Update(request) => ServerRequestsAreGood(request);
    case AddUpstream(request, _) =>
      SettingsAreGood(request.conf);
      HostsAreGood(request.host);
    case AddRoute(request, _) =>
      SettingsAreGood(request.conf);
      ActionsAreGood(request.action);
    case _ =>
  }

  // ----- One server

  predicate NamedSo(upstreams: seq<Upstream>, group: Str, name: Str) {
    exists i | 0 <= i < |upstreams| :: upstreams[i].group == group && upstreams[i].name == name
  }

  predicate InAGroup(upstreams: seq<Upstream>, group: Str) {
    exists i | 0 <= i < |upstreams| :: upstreams[i].group == group
  }

  predicate RuledSo(routes: seq<Route>, rule: RouteMatch) {
    exists i | 0 <= i < |routes| :: routes[i].rule == rule
  }

  function Other(group: Str, name: Str): Upstream -> bool {
    (u: Upstream) => u.group != group || u.name != name
  }

  /** All but the last are the former ones of other names, from the positions in `at`. */
  predicate Stay(before: seq<Upstream>, after: seq<Upstream>, request: UpstreamRequest, at: seq<nat>) {
    after != [] && Picks(before, Other(request.group, request.name), after[..|after| - 1], at)
  }

  /** The upstreams of other names stay, in order, and the new one is last. */
  ghost predicate Joined(before: seq<Upstream>, after: seq<Upstream>, request: UpstreamRequest, id: Str) {
    && after != []
    && (exists at: seq<nat> :: Stay(before, after, request, at))
    && var last := after[|after| - 1];
       && last.id == id && last.group == request.group && last.name == request.name && last.host == request.host
       && last.priority == request.priority && last.conf == request.conf
  }

  /** The first upstream with the id is taken out. */
  predicate UpstreamOut(before: seq<Upstream>, after: seq<Upstream>, id: Str, i: nat) {
    && i < |before| && before[i].id == id && (forall j | 0 <= j < i :: before[j].id != id)
    && after == before[..i] + before[i + 1..]
  }

  predicate RouteOut(before: seq<Route>, after: seq<Route>, id: Str, i: nat) {
    && i < |before| && before[i].id == id && (forall j | 0 <= j < i :: before[j].id != id)
    && after == before[..i] + before[i + 1..]
  }

  predicate RouteJoined(before: seq<Route>, after: seq<Route>, request: RouteRequest, id: Str) {
    && |after| == |before| + 1 && after[..|before|] == before
    && var last := after[|before|];
       last.id == id && last.rule == request.rule && last.action == request.action && last.conf == request.conf
  }

  /** Everything but what the operations on upstreams and routes change. */
  predicate SameSettings(before: Server, after: Server) {
    && after.id == before.id && after.alias == before.alias && after.enabled == before.enabled
    && after.listen == before.listen && after.graceful == before.graceful && after.conf == before.conf
  }

  /** A route to a group without upstreams. */
  predicate Pointless(server: Server, action: Action) {
    && action.kind == Ascii("proxy")
    && !InAGroup(server.upstreams, if action.proxy.Some? then action.proxy.value.upstream else [])
  }

  ghost predicate Does(server: Server, edit: Edit, result: ApiResult<Server>) {
    match edit
    case Update(request) =>
      && result.Done? && result.value.id == server.id && result.value.enabled == server.enabled
      && result.value.alias == request.alias && result.value.listen == request.listen
      && result.value.conf == request.conf && result.value.graceful == request.graceful
      && result.value.upstreams == server.upstreams && result.value.routes == server.routes
    case SetEnabled(enabled) =>
      && result.Done? && result.value.enabled == enabled
      && SameSettings(server, result.value.(enabled := server.enabled))
      && result.value.upstreams == server.upstreams && result.value.routes == server.routes
    case AddUpstream(request, id) =>
      if !server.graceful.enabled && NamedSo(server.upstreams, request.group, request.name) then
        result == Refused(Conflict(40003))
      else
        && result.Done? && SameSettings(server, result.value) && result.value.routes == server.routes
        && Joined(server.upstreams, result.value.upstreams, request, id)
    case DeleteUpstream(id) =>
      if forall i | 0 <= i < |server.upstreams| :: server.upstreams[i].id != id then result == Refused(NotFound)
      else
        && result.Done? && SameSettings(server, result.value) && result.value.routes == server.routes
        && exists i: nat :: UpstreamOut(server.upstreams, result.value.upstreams, id, i)
    case AddRoute(request, id) =>
      if Pointless(server, request.action) then result == Refused(InvalidRequest)
      else if RuledSo(server.routes, request.rule) then result == Refused(Conflict(10003))
      else
        && result.Done? && SameSettings(server, result.value) && result.value.upstreams == server.upstreams
        && RouteJoined(server.routes, result.value.routes, request, id)
    case DeleteRoute(id) =>
      if forall i | 0 <= i < |server.routes| :: server.routes[i].id != id then result == Refused(NotFound)
      else
        && result.Done? && SameSettings(server, result.value) && result.value.upstreams == server.upstreams
        && exists i: nat :: RouteOut(server.routes, result.value.routes, id, i)
  }

  lemma {:induction false} NamedIs(upstreams: seq<Upstream>, group: Str, name: Str)
    ensures Named(upstreams, group, name) <==> NamedSo(upstreams, group, name)
  {
    if upstreams != [] {
      NamedIs(upstreams[..|upstreams| - 1], group, name);
    }
  }

  lemma {:induction false} HasGroupIs(upstreams: seq<Upstream>, group: Str)
    ensures HasGroup(upstreams, group) <==> InAGroup(upstreams, group)
  {
    if upstreams != [] {
      HasGroupIs(upstreams[..|upstreams| - 1], group);
    }
  }

  lemma {:induction false} OthersArePicked(upstreams: seq<Upstream>, group: Str, name: Str) returns (at: seq<nat>)
    ensures Picks(upstreams, Other(group, name), Others(upstreams, group, name), at)
  {
    if upstreams == [] {
      PicksNothing(Other(group, name));
      at := [];
    } else {
      var front, last := upstreams[..|upstreams| - 1], upstreams[|upstreams| - 1];
      at := OthersArePicked(front, group, name);
      at := PicksMore(front, last, Other(group, name), Others(front, group, name), at);
      FrontAndLast(upstreams);
    }
  }

  lemma {:induction false} UpstreamIndexIs(upstreams: seq<Upstream>, id: Str)
    ensures match UpstreamIndex(upstreams, id)
            case None => forall j | 0 <= j < |upstreams| :: upstreams[j].id != id
            case Some(i) => forall j | 0 <= j < i :: upstreams[j].id != id
  {
    if upstreams != [] {
      UpstreamIndexIs(upstreams[..|upstreams| - 1], id);
    }
  }

  lemma {:induction false} RouteIndexIs(routes: seq<Route>, id: Str)
    ensures match RouteIndex(routes, id)
            case None => forall j | 0 <= j < |routes| :: routes[j].id != id
            case Some(i) => forall j | 0 <= j < i :: routes[j].id != id
  {
    if routes != [] {
      RouteIndexIs(routes[..|routes| - 1], id);
    }
  }

  lemma UpstreamJoins(upstreams: seq<Upstream>, request: UpstreamRequest, id: Str)
    ensures Joined(upstreams, Others(upstreams, request.group, request.name) + [NewUpstream(request, id)], request, id)
  {
    var others := Others(upstreams, request.group, request.name);
    var after := others + [NewUpstream(request, id)];
    var at := OthersArePicked(upstreams, request.group, request.name);
    assert after[..|after| - 1] == others;
    assert Stay(upstreams, after, request, at);
  }

  lemma RouteJoins(routes: seq<Route>, request: RouteRequest, id: Str)
    ensures RouteJoined(routes, routes + [NewRoute(request, id)], request, id)
  {}

  /** An edit changes what it says and nothing else, or is refused for what is already there. */
  lemma EditDoes(server: Server, edit: Edit)
    ensures Does(server, edit, Edited(server, edit))
  {
    match edit
    case Update(_) =>
    case SetEnabled(_) =>
    case AddUpstream(request, id) =>
      NamedIs(server.upstreams, request.group, request.name);
      UpstreamJoins(server.upstreams, request, id);
    case DeleteUpstream(id) =>
      UpstreamIndexIs(server.upstreams, id);
      var i := UpstreamIndex(server.upstreams, id);
      if i.Some? {
        assert UpstreamOut(server.upstreams, RemoveAt(server.upstreams, i.value), id, i.value);
      }
    case AddRoute(request, id) =>
      HasGroupIs(server.upstreams, if request.action.proxy.Some? then request.action.proxy.value.upstream else []);
      RulesAre(server.routes, request.rule);
      RouteJoins(server.routes, request, id);
    case DeleteRoute(id) =>
      RouteIndexIs(server.routes, id);
      var i := RouteIndex(server.routes, id);
      if i.Some? {
        assert RouteOut(server.routes, RemoveAt(server.routes, i.value), id, i.value);
      }
  }

  // ----- The whole file

  /** The first server with the id. */
  predicate At(items: seq<Server>, id: Str, i: nat) {
    i < |items| && items[i].id == id && forall j | 0 <= j < i :: items[j].id != id
  }

  predicate Unknown(items: seq<Server>, id: Str) {
    forall i | 0 <= i < |items| :: items[i].id != id
  }

  predicate OnlyAt(before: seq<Server>, after: seq<Server>, i: nat, server: Server) {
    && i < |before| == |after| && after[i] == server
    && (forall j | 0 <= j < |before| && j != i :: after[j] == before[j])
  }

  /** The server is the one that was asked for: new, enabled, and without upstreams and routes. */
  predicate IsNew(server: Server, request: ServerRequest, id: Str) {
    && server.id == id && server.enabled && server.upstreams == [] && server.routes == []
    && server.alias == request.alias && server.listen == request.listen
    && server.conf == request.conf && server.graceful == request.graceful
  }

  ghost predicate ChangesAt(file: HttpServerFile, edit: Edit, outcome: Outcome<Server>, i: nat)
    requires i < |file.items|
  {
    && Does(file.items[i], edit, outcome.result)
    && (match outcome.result
        case Refused(_) => outcome.file == file
        case Done(server) => OnlyAt(file.items, outcome.file.items, i, server))
  }

  ghost predicate Effect(file: HttpServerFile, op: Op, outcome: Outcome<Server>) {
    && outcome.file.version == file.version
    && match op
       case Create(request, newId) =>
         if !AcceptableServer(request) then outcome == Outcome(file, Refused(InvalidRequest))
         else
           && outcome.result.Done? && IsNew(outcome.result.value, request, newId)
           && outcome.file.items == file.items + [outcome.result.value]
       case Change(id, edit) =>
         if !Acceptable(edit) then outcome == Outcome(file, Refused(InvalidRequest))
         else if Unknown(file.items, id) then outcome == Outcome(file, Refused(NotFound))
         else exists i: nat :: At(file.items, id, i) && ChangesAt(file, edit, outcome, i)
       case Delete(id) =>
         if Unknown(file.items, id) then outcome == Outcome(file, Refused(NotFound))
         else exists i: nat :: At(file.items, id, i) && Deletes(file, outcome, i)
  }

  /** A server is deleted once it is disabled. */
  predicate Deletes(file: HttpServerFile, outcome: Outcome<Server>, i: nat)
    requires i < |file.items|
  {
    if file.items[i].enabled then outcome == Outcome(file, Refused(Conflict(30002)))
    else
      outcome.result == Done(file.items[i]) && outcome.file.items == file.items[..i] + file.items[i + 1..]
  }

  lemma {:induction false} ServerIndexIs(items: seq<Server>, id: Str)
    ensures match ServerIndex(items, id)
            case None => Unknown(items, id)
            case Some(i) => At(items, id, i)
  {
    if items != [] {
      ServerIndexIs(items[..|items| - 1], id);
    }
  }

  lemma ChangeDoes(file: HttpServerFile, id: Str, edit: Edit)
    ensures Effect(file, Change(id, edit), EditServer(file, id, edit))
  {
    EditsAreGood(edit);
    ServerIndexIs(file.items, id);
    var index := ServerIndex(file.items, id);
    if index.Some? && GoodEdit(edit) {
      EditDoes(file.items[index.value], edit);
      assert ChangesAt(file, edit, EditServer(file, id, edit), index.value);
      assert !Unknown(file.items, id);
    }
  }

  /** Every operation does to the file what it says, to the server it says, and to nothing else. */
  lemma OperationDoes(file: HttpServerFile, op: Op)
    ensures Effect(file, op, Performed(file, op))
  {
    match op
    case Create(request, newId) => ServerRequestsAreGood(request);
    case Change(id, edit) => ChangeDoes(file, id, edit);
    case Delete(id) =>
      ServerIndexIs(file.items, id);
      var index := ServerIndex(file.items, id);
      if index.Some? {
        assert Deletes(file, DeleteServer(file, id), index.value);
        assert !Unknown(file.items, id);
      }
  }
}
