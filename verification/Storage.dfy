/** HttpServerStorage: the stored servers, and what a request must and a file does satisfy. */
module Storage {
  import opened Prelude
  import opened Text
  import opened Sequences
  import opened Hosts
  import opened Config
  import opened Routes

  datatype ApiError = InvalidRequest | NotFound | Conflict(code: nat) | Internal

  datatype ApiResult<+T> = Done(value: T) | Refused(error: ApiError)

  // ----- Validators

  predicate Blank(s: Str) {
    Trim(s) == []
  }

  const CONF_NAMES: seq<string> := [
    "client_max_body_size", "client_header_timeout", "client_body_timeout", "send_timeout", "keepalive_timeout",
    "keepalive_requests", "proxy_connect_timeout", "proxy_send_timeout", "proxy_read_timeout"
  ]

  predicate SupportedConfName(name: Str) {
    exists i | 0 <= i < |CONF_NAMES| :: name == Ascii(CONF_NAMES[i])
  }

  predicate GoodConfEntry(entry: (Str, Json)) {
    SupportedConfName(entry.0) && entry.1.Unsigned? && entry.1.value != 0
  }

  predicate GoodConf(conf: Json) {
    conf.Object? && forall i | 0 <= i < |conf.fields| :: GoodConfEntry(conf.fields[i])
  }

  predicate GoodListen(listen: Listen) {
    && !Blank(listen.host) && listen.port != 0
    && forall i | 0 <= i < |listen.serverNames| :: !Blank(listen.serverNames[i])
  }

  predicate GoodUpstreamFields(group: Str, name: Str, host: Str) {
    !Blank(group) && !Blank(name) && ParseHttpUpstream(host).Some?
  }

  predicate StartsWithSlash(path: Str) {
    path != [] && path[0] == 47
  }

  predicate GoodRewrite(rewrite: Option<ProxyRewrite>) {
    rewrite.Some? ==>
      && rewrite.value.kind == Ascii("replacePrefix")
      && StartsWithSlash(rewrite.value.from) && StartsWithSlash(rewrite.value.to)
  }

  predicate GoodAction(action: Action) {
    if action.kind == Ascii("file") then
      action.file.Some? && !Blank(action.file.value.dir) && action.file.value.alias <= 1
    else
      && action.kind == Ascii("proxy") && action.proxy.Some?
      && !Blank(action.proxy.value.upstream) && GoodRewrite(action.proxy.value.rewrite)
  }

  predicate GoodRule(rule: RouteMatch) {
    rule.kind <= 1 && StartsWithSlash(rule.path)
  }

  // ----- The loaded file

  predicate GoodUpstream(upstream: Upstream) {
    !Blank(upstream.id) && GoodUpstreamFields(upstream.group, upstream.name, upstream.host) && GoodConf(upstream.conf)
  }

  predicate GoodRoute(route: Route) {
    !Blank(route.id) && GoodRule(route.rule) && GoodAction(route.action) && GoodConf(route.conf)
  }

  function UpstreamIds(upstreams: seq<Upstream>): set<Str> {
    if upstreams == [] then {}
    else UpstreamIds(upstreams[..|upstreams| - 1]) + {upstreams[|upstreams| - 1].id}
  }

  function RouteIds(routes: seq<Route>): set<Str> {
    if routes == [] then {} else RouteIds(routes[..|routes| - 1]) + {routes[|routes| - 1].id}
  }

  function Rules(routes: seq<Route>): set<RouteMatch> {
    if routes == [] then {} else Rules(routes[..|routes| - 1]) + {routes[|routes| - 1].rule}
  }

  function ServerIds(items: seq<Server>): set<Str> {
    if items == [] then {} else ServerIds(items[..|items| - 1]) + {items[|items| - 1].id}
  }

  predicate GoodUpstreams(upstreams: seq<Upstream>) {
    upstreams == [] ||
    (var front, last := upstreams[..|upstreams| - 1], upstreams[|upstreams| - 1];
     GoodUpstreams(front) && GoodUpstream(last) && last.id !in UpstreamIds(front))
  }

  predicate GoodRoutes(routes: seq<Route>) {
    routes == [] ||
    (var front, last := routes[..|routes| - 1], routes[|routes| - 1];
     GoodRoutes(front) && GoodRoute(last) && last.id !in RouteIds(front) && last.rule !in Rules(front))
  }

  predicate GoodServer(server: Server) {
    && !Blank(server.id) && GoodListen(server.listen) && server.graceful.kind == 0 && GoodConf(server.conf)
    && GoodUpstreams(server.upstreams) && GoodRoutes(server.routes)
  }

  predicate GoodServers(items: seq<Server>) {
    items == [] ||
    (var front, last := items[..|items| - 1], items[|items| - 1];
     GoodServers(front) && GoodServer(last) && last.id !in ServerIds(front))
  }

  /** What validate_loaded_file accepts. */
  predicate ValidFile(data: HttpServerFile) {
    data.version == 1 && GoodServers(data.items)
  }

  lemma {:induction false} GoodUpstreamsPrefix(upstreams: seq<Upstream>, n: nat)
    requires n <= |upstreams| && GoodUpstreams(upstreams)
    ensures GoodUpstreams(upstreams[..n])
  {
    if n == |upstreams| {
      assert upstreams[..n] == upstreams;
    } else {
      GoodUpstreamsPrefix(upstreams[..|upstreams| - 1], n);
      PrefixOfFront(upstreams, n);
    }
  }

  lemma {:induction false} GoodRoutesPrefix(routes: seq<Route>, n: nat)
    requires n <= |routes| && GoodRoutes(routes)
    ensures GoodRoutes(routes[..n])
  {
    if n == |routes| {
      assert routes[..n] == routes;
    } else {
      GoodRoutesPrefix(routes[..|routes| - 1], n);
      PrefixOfFront(routes, n);
    }
  }

  lemma {:induction false} GoodServersPrefix(items: seq<Server>, n: nat)
    requires n <= |items| && GoodServers(items)
    ensures GoodServers(items[..n])
  {
    if n == |items| {
      assert items[..n] == items;
    } else {
      GoodServersPrefix(items[..|items| - 1], n);
      PrefixOfFront(items, n);
    }
  }

  lemma {:induction false} BadUpstream(upstreams: seq<Upstream>, i: nat)
    requires i < |upstreams| && !GoodUpstreams(upstreams[..i + 1])
    ensures !GoodUpstreams(upstreams)
  {
    if GoodUpstreams(upstreams) {
      GoodUpstreamsPrefix(upstreams, i + 1);
    }
  }

  lemma {:induction false} BadRoute(routes: seq<Route>, i: nat)
    requires i < |routes| && !GoodRoutes(routes[..i + 1])
    ensures !GoodRoutes(routes)
  {
    if GoodRoutes(routes) {
      GoodRoutesPrefix(routes, i + 1);
    }
  }

  lemma {:induction false} BadServer(items: seq<Server>, i: nat)
    requires i < |items| && !GoodServers(items[..i + 1])
    ensures !GoodServers(items)
  {
    if GoodServers(items) {
      GoodServersPrefix(items, i + 1);
    }
  }

  lemma {:induction false} NextUpstream(upstreams: seq<Upstream>, i: nat)
    requires i < |upstreams|
    ensures GoodUpstreams(upstreams[..i + 1]) <==>
            GoodUpstreams(upstreams[..i]) && GoodUpstream(upstreams[i]) &&
            upstreams[i].id !in UpstreamIds(upstreams[..i])
    ensures UpstreamIds(upstreams[..i + 1]) == UpstreamIds(upstreams[..i]) + {upstreams[i].id}
  {
    assert upstreams[..i + 1][..i] == upstreams[..i];
  }

  method ValidateUpstreams(upstreams: seq<Upstream>) returns (ok: bool)
    ensures ok == GoodUpstreams(upstreams)
  {
    var ids: set<Str> := {};
    for i := 0 to |upstreams|
      invariant GoodUpstreams(upstreams[..i]) && ids == UpstreamIds(upstreams[..i])
    {
      NextUpstream(upstreams, i);
      if !GoodUpstream(upstreams[i]) || upstreams[i].id in ids {
        BadUpstream(upstreams, i);
        return false;
      }
      ids := ids + {upstreams[i].id};
    }
    assert upstreams[..|upstreams|] == upstreams;
    return true;
  }

  lemma {:induction false} NextRoute(routes: seq<Route>, i: nat)
    requires i < |routes|
    ensures GoodRoutes(routes[..i + 1]) <==>
            GoodRoutes(routes[..i]) && GoodRoute(routes[i]) &&
            routes[i].id !in RouteIds(routes[..i]) && routes[i].rule !in Rules(routes[..i])
    ensures RouteIds(routes[..i + 1]) == RouteIds(routes[..i]) + {routes[i].id}
    ensures Rules(routes[..i + 1]) == Rules(routes[..i]) + {routes[i].rule}
  {
    assert routes[..i + 1][..i] == routes[..i];
  }

  method ValidateRoutes(routes: seq<Route>) returns (ok: bool)
    ensures ok == GoodRoutes(routes)
  {
    var ids: set<Str>, rules: set<RouteMatch> := {}, {};
    for i := 0 to |routes|
      invariant GoodRoutes(routes[..i]) && ids == RouteIds(routes[..i]) && rules == Rules(routes[..i])
    {
      NextRoute(routes, i);
      if !GoodRoute(routes[i]) || routes[i].id in ids || routes[i].rule in rules {
        BadRoute(routes, i);
        return false;
      }
      ids, rules := ids + {routes[i].id}, rules + {routes[i].rule};
    }
    assert routes[..|routes|] == routes;
    return true;
  }

  method ValidateServer(server: Server) returns (ok: bool)
    ensures ok == GoodServer(server)
  {
    if Blank(server.id) || !GoodListen(server.listen) || server.graceful.kind != 0 || !GoodConf(server.conf) {
      return false;
    }
    var upstreams := ValidateUpstreams(server.upstreams);
    if !upstreams {
      return false;
    }
    ok := ValidateRoutes(server.routes);
  }

  lemma {:induction false} NextServer(items: seq<Server>, i: nat)
    requires i < |items|
    ensures GoodServers(items[..i + 1]) <==>
            GoodServers(items[..i]) && GoodServer(items[i]) && items[i].id !in ServerIds(items[..i])
    ensures ServerIds(items[..i + 1]) == ServerIds(items[..i]) + {items[i].id}
  {
    assert items[..i + 1][..i] == items[..i];
  }

  /** validate_loaded_file */
  method ValidateLoadedFile(data: HttpServerFile) returns (ok: bool)
    ensures ok == ValidFile(data)
  {
    if data.version != 1 {
      return false;
    }
    var ids: set<Str>, items := {}, data.items;
    for i := 0 to |items|
      invariant GoodServers(items[..i]) && ids == ServerIds(items[..i])
    {
      NextServer(items, i);
      var server := ValidateServer(items[i]);
      if !server || items[i].id in ids {
        BadServer(items, i);
        return false;
      }
      ids := ids + {items[i].id};
    }
    assert items[..|items|] == items;
    return true;
  }

  // ----- What it means

  lemma {:induction false} UpstreamIdsAre(upstreams: seq<Upstream>, id: Str)
    ensures id in UpstreamIds(upstreams) <==> exists i | 0 <= i < |upstreams| :: upstreams[i].id == id
  {
    if upstreams != [] {
      UpstreamIdsAre(upstreams[..|upstreams| - 1], id);
    }
  }

  lemma {:induction false} RouteIdsAre(routes: seq<Route>, id: Str)
    ensures id in RouteIds(routes) <==> exists i | 0 <= i < |routes| :: routes[i].id == id
  {
    if routes != [] {
      RouteIdsAre(routes[..|routes| - 1], id);
    }
  }

  lemma {:induction false} RulesAre(routes: seq<Route>, rule: RouteMatch)
    ensures rule in Rules(routes) <==> exists i | 0 <= i < |routes| :: routes[i].rule == rule
  {
    if routes != [] {
      RulesAre(routes[..|routes| - 1], rule);
    }
  }

  lemma {:induction false} ServerIdsAre(items: seq<Server>, id: Str)
    ensures id in ServerIds(items) <==> exists i | 0 <= i < |items| :: items[i].id == id
  {
    if items != [] {
      ServerIdsAre(items[..|items| - 1], id);
    }
  }

  predicate DistinctUpstreams(upstreams: seq<Upstream>) {
    forall i, j | 0 <= i < j < |upstreams| :: upstreams[i].id != upstreams[j].id
  }

  predicate DistinctRoutes(routes: seq<Route>) {
    forall i, j | 0 <= i < j < |routes| :: routes[i].id != routes[j].id
  }

  predicate DistinctServers(items: seq<Server>) {
    forall i, j | 0 <= i < j < |items| :: items[i].id != items[j].id
  }

  predicate Each<T>(items: seq<T>, good: T -> bool) {
    forall i | 0 <= i < |items| :: good(items[i])
  }

  lemma EachFront<T>(items: seq<T>, good: T -> bool)
    requires items != []
    ensures Each(items, good) <==> Each(items[..|items| - 1], good) && good(items[|items| - 1])
  {}

  lemma DistinctFront(items: seq<Server>)
    requires items != []
    ensures DistinctServers(items) <==>
            DistinctServers(items[..|items| - 1]) && items[|items| - 1].id !in ServerIds(items[..|items| - 1])
  {
    ServerIdsAre(items[..|items| - 1], items[|items| - 1].id);
  }

  const SERVER_IS_GOOD: Server -> bool := server => GoodServer(server)

  /** In an accepted file every server is good and none has the id of another, and every such file
      is accepted. */
  lemma {:induction false} GoodServersAre(items: seq<Server>)
    ensures GoodServers(items) <==> Each(items, SERVER_IS_GOOD) && DistinctServers(items)
  {
    if items != [] {
      GoodServersAre(items[..|items| - 1]);
      EachFront(items, SERVER_IS_GOOD);
      DistinctFront(items);
    }
  }

  lemma DistinctUpstreamsFront(upstreams: seq<Upstream>)
    requires upstreams != []
    ensures DistinctUpstreams(upstreams) <==>
            DistinctUpstreams(upstreams[..|upstreams| - 1]) &&
            upstreams[|upstreams| - 1].id !in UpstreamIds(upstreams[..|upstreams| - 1])
  {
    UpstreamIdsAre(upstreams[..|upstreams| - 1], upstreams[|upstreams| - 1].id);
  }

  lemma {:induction false} UpstreamsAreDistinct(upstreams: seq<Upstream>)
    requires GoodUpstreams(upstreams)
    ensures DistinctUpstreams(upstreams)
  {
    if upstreams != [] {
      UpstreamsAreDistinct(upstreams[..|upstreams| - 1]);
      DistinctUpstreamsFront(upstreams);
    }
  }

  lemma {:induction false} RoutesAreDistinct(routes: seq<Route>)
    requires GoodRoutes(routes)
    ensures DistinctRoutes(routes) && UniqueRules(routes)
  {
    if routes != [] {
      RoutesAreDistinct(routes[..|routes| - 1]);
      RouteIdsAre(routes[..|routes| - 1], routes[|routes| - 1].id);
      RulesAre(routes[..|routes| - 1], routes[|routes| - 1].rule);
    }
  }

  /** The routes of a stored server choose alike in any order. */
  lemma StoredOrderIsIrrelevant(server: Server, others: seq<Route>, path: Str)
    requires GoodServer(server) && multiset(server.routes) == multiset(others)
    ensures SelectRoute(server.routes, path) == SelectRoute(others, path)
  {
    RoutesAreDistinct(server.routes);
    OrderIsIrrelevant(server.routes, others, path);
  }
}
