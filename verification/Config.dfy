/** The configuration of the program: HTTP servers, their upstreams and routes. */
module Config {
  import opened Prelude
  import opened Text

  /** What the configuration can tell about a JSON value. */
  datatype Json = Object(fields: seq<(Str, Json)>) | Unsigned(value: nat) | OtherJson

  datatype Listen = Listen(host: Str, port: nat, serverNames: seq<Str>)

  datatype Graceful = Graceful(enabled: bool, kind: nat)

  datatype Upstream = Upstream(id: Str, group: Str, name: Str, host: Str, priority: int, conf: Json)

  /** Kind 0 matches a whole path, kind 1 a prefix. */
  datatype RouteMatch = RouteMatch(kind: nat, path: Str)

  datatype FileAction = FileAction(dir: Str, alias: nat)

  datatype ProxyRewrite = ProxyRewrite(kind: Str, from: Str, to: Str)

  datatype ProxyAction = ProxyAction(upstream: Str, websocket: bool, rewrite: Option<ProxyRewrite>)

  datatype Action = Action(kind: Str, file: Option<FileAction>, proxy: Option<ProxyAction>)

  datatype Route = Route(id: Str, rule: RouteMatch, action: Action, conf: Json)

  datatype Server = Server(id: Str, alias: Str, enabled: bool, listen: Listen, graceful: Graceful, conf: Json,
                           upstreams: seq<Upstream>, routes: seq<Route>)

  datatype HttpServerFile = HttpServerFile(version: nat, items: seq<Server>)
}
