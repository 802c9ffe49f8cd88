/** The operations of HttpServerStorage: each checks its request, changes the data and saves it. */
module StorageOps {
  import opened Prelude
  import opened Text
  import opened Sequences
  import opened Config
  import opened Storage

  datatype ServerRequest = ServerRequest(alias: Str, listen: Listen, conf: Json, graceful: Graceful)

  datatype UpstreamRequest = UpstreamRequest(group: Str, name: Str, host: Str, priority: int, conf: Json)

  datatype RouteRequest = RouteRequest(rule: RouteMatch, action: Action, conf: Json)

  /** A change to one stored server; new ids come from outside. */
  datatype Edit =
    | Update(request: ServerRequest)
    | SetEnabled(enabled: bool)
    | AddUpstream(upstream: UpstreamRequest, newId: Str)
    | DeleteUpstream(upstreamId: Str)
    | AddRoute(route: RouteRequest, newId: Str)
    | DeleteRoute(routeId: Str)

  // ----- What a request must satisfy

  predicate GoodServerRequest(request: ServerRequest) {
    GoodListen(request.listen) && request.graceful.kind == 0 && GoodConf(request.conf)
  }

  predicate GoodUpstreamRequest(request: UpstreamRequest) {
    GoodUpstreamFields(request.group, request.name, request.host) && GoodConf(request.conf)
  }

  predicate GoodRouteRequest(request: RouteRequest) {
    GoodRule(request.rule) && GoodAction(request.action) && GoodConf(request.conf)
  }

  predicate GoodEdit(edit: Edit) {
    match edit
    case Update(request) => GoodServerRequest(request)
    case SetEnabled(_) => true
    case AddUpstream(request, _) => GoodUpstreamRequest(request)
    case DeleteUpstream(_) => true
    case AddRoute(request, _) => GoodRouteRequest(request)
    case DeleteRoute(_) => true
  }

  // ----- What it changes

  function ServerIndex(items: seq<Server>, id: Str): (r: Option<nat>)
    ensures r.Some? ==> r.value < |items| && items[r.value].id == id
  {
    if items == [] then None
    else
      var first := ServerIndex(items[..|items| - 1], id);
      if first.Some? then first else if items[|items| - 1].id == id then Some(|items| - 1) else None
  }

  function UpstreamIndex(upstreams: seq<Upstream>, id: Str): (r: Option<nat>)
    ensures r.Some? ==> r.value < |upstreams| && upstreams[r.value].id == id
  {
    if upstreams == [] then None
    else
      var first := UpstreamIndex(upstreams[..|upstreams| - 1], id);
      if first.Some? then first
      else if upstreams[|upstreams| - 1].id == id then Some(|upstreams| - 1) else None
  }

  function RouteIndex(routes: seq<Route>, id: Str): (r: Option<nat>)
    ensures r.Some? ==> r.value < |routes| && routes[r.value].id == id
  {
    if routes == [] then None
    else
      var first := RouteIndex(routes[..|routes| - 1], id);
      if first.Some? then first else if routes[|routes| - 1].id == id then Some(|routes| - 1) else None
  }

  function RemoveAt<T>(s: seq<T>, i: nat): seq<T>
    requires i < |s|
  {
    s[..i] + s[i + 1..]
  }

  predicate SameName(upstream: Upstream, group: Str, name: Str) {
    upstream.group == group && upstream.name == name
  }

  predicate Named(upstreams: seq<Upstream>, group: Str, name: Str) {
    upstreams != [] &&
    (Named(upstreams[..|upstreams| - 1], group, name) || SameName(upstreams[|upstreams| - 1], group, name))
  }

  /** The upstreams of another group or name. */
  function Others(upstreams: seq<Upstream>, group: Str, name: Str): seq<Upstream> {
    if upstreams == [] then []
    else
      Others(upstreams[..|upstreams| - 1], group, name) +
      if SameName(upstreams[|upstreams| - 1], group, name) then [] else [upstreams[|upstreams| - 1]]
  }

  predicate HasGroup(upstreams: seq<Upstream>, group: Str) {
    upstreams != [] &&
    (HasGroup(upstreams[..|upstreams| - 1], group) || upstreams[|upstreams| - 1].group == group)
  }

  /** A proxy route needs an upstream of its group. */
  predicate HasTarget(server: Server, action: Action) {
    action.kind == Ascii("proxy") ==>
      HasGroup(server.upstreams, if action.proxy.Some? then action.proxy.value.upstream else [])
  }

  function NewUpstream(request: UpstreamRequest, id: Str): Upstream {
    Upstream(id, request.group, request.name, request.host, request.priority, request.conf)
  }

  function NewRoute(request: RouteRequest, id: Str): Route {
    Route(id, request.rule, request.action, request.conf)
  }

  function Edited(server: Server, edit: Edit): ApiResult<Server> {
    match edit
    case Update(request) =>
      Done(server.(alias := request.alias, listen := request.listen, conf := request.conf,
                   graceful := request.graceful))
    case SetEnabled(enabled) => Done(server.(enabled := enabled))
    case AddUpstream(request, id) =>
      if !server.graceful.enabled && Named(server.upstreams, request.group, request.name) then Refused(Conflict(40003))
      else
        Done(server.(upstreams := Others(server.upstreams, request.group, request.name) +
                                  [NewUpstream(request, id)]))
    case DeleteUpstream(id) =>
      (match UpstreamIndex(server.upstreams, id)
       case None => Refused(NotFound)
       case Some(i) => Done(server.(upstreams := RemoveAt(server.upstreams, i))))
    case AddRoute(request, id) =>
      if !HasTarget(server, request.action) then Refused(InvalidRequest)
      else if request.rule in Rules(server.routes) then Refused(Conflict(10003))
      else Done(server.(routes := server.routes + [NewRoute(request, id)]))
    case DeleteRoute(id) =>
      (match RouteIndex(server.routes, id)
       case None => Refused(NotFound)
       case Some(i) => Done(server.(routes := RemoveAt(server.routes, i))))
  }

  /** The data after an operation, and what it answers before it saves. */
  datatype Outcome<T> = Outcome(file: HttpServerFile, result: ApiResult<T>)

  function EditServer(file: HttpServerFile, id: Str, edit: Edit): Outcome<Server> {
    if !GoodEdit(edit) then Outcome(file, Refused(InvalidRequest))
    else match ServerIndex(file.items, id)
      case None => Outcome(file, Refused(NotFound))
      case Some(i) =>
        match Edited(file.items[i], edit)
        case Refused(e) => Outcome(file, Refused(e))
        case Done(server) => Outcome(file.(items := file.items[i := server]), Done(server))
  }

  function NewServer(request: ServerRequest, id: Str): Server {
    Server(id, request.alias, true, request.listen, request.graceful, request.conf, [], [])
  }

  function CreateServer(file: HttpServerFile, request: ServerRequest, id: Str): Outcome<Server> {
    if !GoodServerRequest(request) then Outcome(file, Refused(InvalidRequest))
    else Outcome(file.(items := file.items + [NewServer(request, id)]), Done(NewServer(request, id)))
  }

  function DeleteServer(file: HttpServerFile, id: Str): Outcome<Server> {
    match ServerIndex(file.items, id)
    case None => Outcome(file, Refused(NotFound))
    case Some(i) =>
      if file.items[i].enabled then Outcome(file, Refused(Conflict(30002)))
      else Outcome(file.(items := RemoveAt(file.items, i)), Done(file.items[i]))
  }

  /** The answer of an operation that answers something else than the server. */
  function Told<T>(result: ApiResult<Server>, answer: T): ApiResult<T> {
    match result
    case Refused(e) => Refused(e)
    case Done(_) => Done(answer)
  }

  function UpstreamOf(file: HttpServerFile, id: Str, upstreamId: Str): Option<Upstream> {
    match ServerIndex(file.items, id)
    case None => None
    case Some(i) =>
      match UpstreamIndex(file.items[i].upstreams, upstreamId)
      case None => None
      case Some(k) => Some(file.items[i].upstreams[k])
  }

  function RouteOf(file: HttpServerFile, id: Str, routeId: Str): Option<Route> {
    match ServerIndex(file.items, id)
    case None => None
    case Some(i) =>
      match RouteIndex(file.items[i].routes, routeId)
      case None => None
      case Some(k) => Some(file.items[i].routes[k])
  }

  /** What was there, when it is taken out. */
  predicate Removes<T(==)>(result: ApiResult<Server>, former: Option<T>, r: ApiResult<T>) {
    match result
    case Refused(e) => r == Refused(e)
    case Done(_) => r.Done? && former == Some(r.value)
  }

  /** A save that fails answers an error, and leaves the change in memory. */
  function Saved<T>(outcome: Outcome<T>, saves: bool): Outcome<T> {
    if outcome.result.Done? && !(ValidFile(outcome.file) && saves) then outcome.(result := Refused(Internal))
    else outcome
  }

  // ----- Every operation keeps a valid file valid

  lemma UpdateBefore<T>(s: seq<T>, i: nat, v: T)
    requires i + 1 < |s|
    ensures s[i := v][..|s| - 1] == s[..|s| - 1][i := v] && s[i := v][|s| - 1] == s[|s| - 1]
  {}

  lemma UpdateLast<T>(s: seq<T>, v: T)
    requires s != []
    ensures s[|s| - 1 := v][..|s| - 1] == s[..|s| - 1] && s[|s| - 1 := v][|s| - 1] == v
  {}

  lemma {:induction false} IdsOfUpdate(items: seq<Server>, i: nat, server: Server)
    requires i < |items| && server.id == items[i].id
    ensures ServerIds(items[i := server]) == ServerIds(items)
  {
    var n := |items| - 1;
    if i < n {
      IdsOfUpdate(items[..n], i, server);
      UpdateBefore(items, i, server);
    } else {
      UpdateLast(items, server);
    }
  }

  lemma {:induction false} PushServer(items: seq<Server>, last: Server)
    requires GoodServers(items) && GoodServer(last) && last.id !in ServerIds(items)
    ensures GoodServers(items + [last])
  {
    Pushed(items, last);
  }

  lemma UpdateSplit<T>(s: seq<T>, i: nat, v: T)
    requires i < |s|
    ensures s[i := v] == if i < |s| - 1 then s[..|s| - 1][i := v] + [s[|s| - 1]] else s[..|s| - 1] + [v]
  {}

  lemma {:induction false} UpdateKeepsGood(items: seq<Server>, i: nat, server: Server)
    requires i < |items| && server.id == items[i].id && GoodServers(items) && GoodServer(server)
    ensures GoodServers(items[i := server])
  {
    var front, last := items[..|items| - 1], items[|items| - 1];
    UpdateSplit(items, i, server);
    if i < |items| - 1 {
      UpdateKeepsGood(front, i, server);
      IdsOfUpdate(front, i, server);
      PushServer(front[i := server], last);
    } else {
      PushServer(front, server);
    }
  }

  lemma {:induction false} GoodAt(items: seq<Server>, i: nat)
    requires i < |items| && GoodServers(items)
    ensures GoodServer(items[i])
  {
    if i < |items| - 1 {
      GoodAt(items[..|items| - 1], i);
    }
  }

  lemma RemoveLast<T>(s: seq<T>)
    requires s != []
    ensures RemoveAt(s, |s| - 1) == s[..|s| - 1]
  {}

  lemma RemoveBefore<T>(s: seq<T>, i: nat)
    requires i + 1 < |s|
    ensures RemoveAt(s, i) == RemoveAt(s[..|s| - 1], i) + [s[|s| - 1]]
  {}

  lemma Pushed<T>(s: seq<T>, last: T)
    ensures (s + [last])[..|s + [last]| - 1] == s && (s + [last])[|s + [last]| - 1] == last
  {}

  lemma {:induction false} IdsOfRemoved(items: seq<Server>, i: nat)
    requires i < |items|
    ensures ServerIds(RemoveAt(items, i)) <= ServerIds(items)
  {
    var n := |items| - 1;
    if i < n {
      IdsOfRemoved(items[..n], i);
      RemoveBefore(items, i);
      Pushed(RemoveAt(items[..n], i), items[n]);
    } else {
      RemoveLast(items);
    }
  }

  lemma {:induction false} RemoveKeepsGood(items: seq<Server>, i: nat)
    requires i < |items| && GoodServers(items)
    ensures GoodServers(RemoveAt(items, i))
  {
    var n := |items| - 1;
    if i < n {
      RemoveKeepsGood(items[..n], i);
      IdsOfRemoved(items[..n], i);
      RemoveBefore(items, i);
      Pushed(RemoveAt(items[..n], i), items[n]);
    } else {
      RemoveLast(items);
    }
  }

  lemma {:induction false} IdsOfUpstreamsLeft(upstreams: seq<Upstream>, i: nat)
    requires i < |upstreams|
    ensures UpstreamIds(RemoveAt(upstreams, i)) <= UpstreamIds(upstreams)
  {
    var n := |upstreams| - 1;
    if i < n {
      IdsOfUpstreamsLeft(upstreams[..n], i);
      RemoveBefore(upstreams, i);
      Pushed(RemoveAt(upstreams[..n], i), upstreams[n]);
    } else {
      RemoveLast(upstreams);
    }
  }

  lemma {:induction false} RemovedUpstream(upstreams: seq<Upstream>, i: nat)
    requires i < |upstreams| && GoodUpstreams(upstreams)
    ensures GoodUpstreams(RemoveAt(upstreams, i))
  {
    var n := |upstreams| - 1;
    if i < n {
      RemovedUpstream(upstreams[..n], i);
      IdsOfUpstreamsLeft(upstreams[..n], i);
      RemoveBefore(upstreams, i);
      Pushed(RemoveAt(upstreams[..n], i), upstreams[n]);
    } else {
      RemoveLast(upstreams);
    }
  }

  lemma {:induction false} IdsOfRoutesLeft(routes: seq<Route>, i: nat)
    requires i < |routes|
    ensures RouteIds(RemoveAt(routes, i)) <= RouteIds(routes) && Rules(RemoveAt(routes, i)) <= Rules(routes)
  {
    var n := |routes| - 1;
    if i < n {
      IdsOfRoutesLeft(routes[..n], i);
      RemoveBefore(routes, i);
      Pushed(RemoveAt(routes[..n], i), routes[n]);
    } else {
      RemoveLast(routes);
    }
  }

  lemma {:induction false} RemovedRoute(routes: seq<Route>, i: nat)
    requires i < |routes| && GoodRoutes(routes)
    ensures GoodRoutes(RemoveAt(routes, i))
  {
    var n := |routes| - 1;
    if i < n {
      RemovedRoute(routes[..n], i);
      IdsOfRoutesLeft(routes[..n], i);
      RemoveBefore(routes, i);
      Pushed(RemoveAt(routes[..n], i), routes[n]);
    } else {
      RemoveLast(routes);
    }
  }

  lemma {:induction false} OthersAreGood(upstreams: seq<Upstream>, group: Str, name: Str)
    requires GoodUpstreams(upstreams)
    ensures GoodUpstreams(Others(upstreams, group, name))
    ensures UpstreamIds(Others(upstreams, group, name)) <= UpstreamIds(upstreams)
  {
    if upstreams != [] {
      var front, last := upstreams[..|upstreams| - 1], upstreams[|upstreams| - 1];
      OthersAreGood(front, group, name);
      var others := Others(front, group, name);
      if SameName(last, group, name) {
        Nothing(others);
      } else {
        Pushed(others, last);
      }
    }
  }

  lemma {:induction false} PushUpstream(upstreams: seq<Upstream>, last: Upstream)
    requires GoodUpstreams(upstreams) && GoodUpstream(last) && last.id !in UpstreamIds(upstreams)
    ensures GoodUpstreams(upstreams + [last])
  {
    Pushed(upstreams, last);
  }

  lemma {:induction false} PushRoute(routes: seq<Route>, last: Route)
    requires GoodRoutes(routes) && GoodRoute(last) && last.id !in RouteIds(routes) && last.rule !in Rules(routes)
    ensures GoodRoutes(routes + [last])
  {
    Pushed(routes, last);
  }

  /** An id that is new to the server. */
  predicate FreshId(server: Server, edit: Edit) {
    match edit
    case AddUpstream(_, id) => !Blank(id) && id !in UpstreamIds(server.upstreams)
    case AddRoute(_, id) => !Blank(id) && id !in RouteIds(server.routes)
    case Update(_) => true
    case SetEnabled(_) => true
    case DeleteUpstream(_) => true
    case DeleteRoute(_) => true
  }

  lemma {:induction false} EditKeepsGood(server: Server, edit: Edit)
    requires GoodServer(server) && GoodEdit(edit) && FreshId(server, edit)
    ensures Edited(server, edit).Done? ==> GoodServer(Edited(server, edit).value)
    ensures Edited(server, edit).Done? ==> Edited(server, edit).value.id == server.id
  {
    if Edited(server, edit).Done? {
      match edit
      case AddUpstream(request, id) =>
        OthersAreGood(server.upstreams, request.group, request.name);
        PushUpstream(Others(server.upstreams, request.group, request.name), NewUpstream(request, id));
      case DeleteUpstream(id) =>
        RemovedUpstream(server.upstreams, UpstreamIndex(server.upstreams, id).value);
      case AddRoute(request, id) =>
        PushRoute(server.routes, NewRoute(request, id));
      case DeleteRoute(id) =>
        RemovedRoute(server.routes, RouteIndex(server.routes, id).value);
      case Update(_) =>
      case SetEnabled(_) =>
    }
  }

  // ----- A run of operations

  datatype Op =
    | Create(request: ServerRequest, newId: Str)
    | Change(id: Str, edit: Edit)
    | Delete(id: Str)

  function Performed(file: HttpServerFile, op: Op): Outcome<Server> {
    match op
    case Create(request, newId) => CreateServer(file, request, newId)
    case Change(id, edit) => EditServer(file, id, edit)
    case Delete(id) => DeleteServer(file, id)
  }

  /** The ids an operation brings in are new. */
  predicate Fresh(file: HttpServerFile, op: Op) {
    match op
    case Create(_, newId) => !Blank(newId) && newId !in ServerIds(file.items)
    case Change(id, edit) =>
      (match ServerIndex(file.items, id)
       case None => true
       case Some(i) => FreshId(file.items[i], edit))
    case Delete(_) => true
  }

  /** No operation makes a valid file one that could not be loaded; so a save is never refused
      for its contents. */
  lemma {:induction false} OperationKeepsValid(file: HttpServerFile, op: Op)
    requires ValidFile(file) && Fresh(file, op)
    ensures ValidFile(Performed(file, op).file)
  {
    if Performed(file, op).result.Done? {
      match op
      case Create(request, newId) =>
        PushServer(file.items, NewServer(request, newId));
      case Change(id, edit) =>
        var i := ServerIndex(file.items, id).value;
        GoodAt(file.items, i);
        EditKeepsGood(file.items[i], edit);
        UpdateKeepsGood(file.items, i, Edited(file.items[i], edit).value);
      case Delete(id) =>
        RemoveKeepsGood(file.items, ServerIndex(file.items, id).value);
    }
  }

  // ----- Names of upstreams

  /** No two upstreams have the same group and name. */
  predicate UniqueNames(upstreams: seq<Upstream>) {
    upstreams == [] ||
    (var front, last := upstreams[..|upstreams| - 1], upstreams[|upstreams| - 1];
     UniqueNames(front) && !Named(front, last.group, last.name))
  }

  lemma {:induction false} NamedOthers(upstreams: seq<Upstream>, group: Str, name: Str, g: Str, n: Str)
    ensures Named(Others(upstreams, group, name), g, n) <==>
            Named(upstreams, g, n) && !(g == group && n == name)
  {
    if upstreams != [] {
      var front, last := upstreams[..|upstreams| - 1], upstreams[|upstreams| - 1];
      NamedOthers(front, group, name, g, n);
      if SameName(last, group, name) {
        Nothing(Others(front, group, name));
      } else {
        Pushed(Others(front, group, name), last);
      }
    }
  }

  lemma {:induction false} OthersAreUnique(upstreams: seq<Upstream>, group: Str, name: Str)
    requires UniqueNames(upstreams)
    ensures UniqueNames(Others(upstreams, group, name))
  {
    if upstreams != [] {
      var front, last := upstreams[..|upstreams| - 1], upstreams[|upstreams| - 1];
      OthersAreUnique(front, group, name);
      NamedOthers(front, group, name, last.group, last.name);
      if SameName(last, group, name) {
        Nothing(Others(front, group, name));
      } else {
        Pushed(Others(front, group, name), last);
      }
    }
  }

  lemma {:induction false} NamedRemoved(upstreams: seq<Upstream>, i: nat, g: Str, n: Str)
    requires i < |upstreams| && Named(RemoveAt(upstreams, i), g, n)
    ensures Named(upstreams, g, n)
  {
    var k := |upstreams| - 1;
    if i < k {
      RemoveBefore(upstreams, i);
      Pushed(RemoveAt(upstreams[..k], i), upstreams[k]);
      if Named(RemoveAt(upstreams[..k], i), g, n) {
        NamedRemoved(upstreams[..k], i, g, n);
      }
    } else {
      RemoveLast(upstreams);
    }
  }

  lemma {:induction false} RemovedIsUnique(upstreams: seq<Upstream>, i: nat)
    requires i < |upstreams| && UniqueNames(upstreams)
    ensures UniqueNames(RemoveAt(upstreams, i))
  {
    var k := |upstreams| - 1;
    if i < k {
      RemovedIsUnique(upstreams[..k], i);
      RemoveBefore(upstreams, i);
      Pushed(RemoveAt(upstreams[..k], i), upstreams[k]);
      if Named(RemoveAt(upstreams[..k], i), upstreams[k].group, upstreams[k].name) {
        NamedRemoved(upstreams[..k], i, upstreams[k].group, upstreams[k].name);
      }
    } else {
      RemoveLast(upstreams);
    }
  }

  /** An upstream added takes the place of the one with its group and name; names stay unique. */
  lemma {:induction false} EditKeepsNames(server: Server, edit: Edit)
    requires UniqueNames(server.upstreams) && Edited(server, edit).Done?
    ensures UniqueNames(Edited(server, edit).value.upstreams)
  {
    match edit
    case AddUpstream(request, id) =>
      var others := Others(server.upstreams, request.group, request.name);
      OthersAreUnique(server.upstreams, request.group, request.name);
      NamedOthers(server.upstreams, request.group, request.name, request.group, request.name);
      Pushed(others, NewUpstream(request, id));
    case DeleteUpstream(id) =>
      RemovedIsUnique(server.upstreams, UpstreamIndex(server.upstreams, id).value);
    case Update(_) =>
    case SetEnabled(_) =>
    case AddRoute(_, _) =>
    case DeleteRoute(_) =>
  }

  // ----- The storage

  class HttpServerStorage {
    var data: HttpServerFile

    constructor (data: HttpServerFile)
      ensures this.data == data
    {
      this.data := data;
    }

    method Position(id: Str) returns (index: Option<nat>)
      ensures index == ServerIndex(data.items, id)
    {
      for i := 0 to |data.items|
        invariant ServerIndex(data.items[..i], id) == None
      {
        assert data.items[..i + 1][..i] == data.items[..i];
        if data.items[i].id == id {
          IndexOfPrefix(data.items, i + 1, id);
          return Some(i);
        }
      }
      assert data.items[..|data.items|] == data.items;
      return None;
    }

    method Get(id: Str) returns (r: ApiResult<Server>)
      ensures match ServerIndex(data.items, id)
              case None => r == Refused(NotFound)
              case Some(i) => r == Done(data.items[i])
    {
      var index := Position(id);
      if index.None? {
        return Refused(NotFound);
      }
      return Done(data.items[index.value]);
    }

    /** Nothing that could not be loaded again is ever saved. */
    method Save(saves: bool) returns (ok: bool)
      ensures ok == (ValidFile(data) && saves)
    {
      var valid := ValidateLoadedFile(data);
      return valid && saves;
    }

    method CreateHttpServer(request: ServerRequest, newId: Str, saves: bool) returns (r: ApiResult<Server>)
      modifies this
      ensures Outcome(data, r) == Saved(CreateServer(old(data), request, newId), saves)
    {
      if !GoodServerRequest(request) {
        return Refused(InvalidRequest);
      }
      var item := NewServer(request, newId);
      data := data.(items := data.items + [item]);
      var saved := Save(saves);
      return if saved then Done(item) else Refused(Internal);
    }

    method Write(i: nat, server: Server, saves: bool) returns (r: ApiResult<Server>)
      requires i < |data.items|
      modifies this
      ensures Outcome(data, r) ==
              Saved(Outcome(old(data).(items := old(data).items[i := server]), Done(server)), saves)
    {
      data := data.(items := data.items[i := server]);
      var saved := Save(saves);
      return if saved then Done(server) else Refused(Internal);
    }

    method UpdateHttpServer(id: Str, request: ServerRequest, saves: bool) returns (r: ApiResult<Server>)
      modifies this
      ensures Outcome(data, r) == Saved(EditServer(old(data), id, Update(request)), saves)
    {
      if !GoodServerRequest(request) {
        return Refused(InvalidRequest);
      }
      var index := Position(id);
      if index.None? {
        return Refused(NotFound);
      }
      var server := data.items[index.value];
      r := Write(index.value,
                 server.(alias := request.alias, listen := request.listen, conf := request.conf,
                         graceful := request.graceful),
                 saves);
    }

    method SetServerEnabled(id: Str, enabled: bool, saves: bool) returns (r: ApiResult<Server>)
      modifies this
      ensures Outcome(data, r) == Saved(EditServer(old(data), id, SetEnabled(enabled)), saves)
    {
      var index := Position(id);
      if index.None? {
        return Refused(NotFound);
      }
      r := Write(index.value, data.items[index.value].(enabled := enabled), saves);
    }

    method DeleteHttpServer(id: Str, saves: bool) returns (r: ApiResult<Server>)
      modifies this
      ensures Outcome(data, r) == Saved(DeleteServer(old(data), id), saves)
    {
      var index := Position(id);
      if index.None? {
        return Refused(NotFound);
      }
      var removed := data.items[index.value];
      if removed.enabled {
        return Refused(Conflict(30002));
      }
      data := data.(items := RemoveAt(data.items, index.value));
      var saved := Save(saves);
      return if saved then Done(removed) else Refused(Internal);
    }

    /** any and retain over the upstreams of one server. */
    method Replace(upstreams: seq<Upstream>, group: Str, name: Str) returns (others: seq<Upstream>, found: bool)
      ensures others == Others(upstreams, group, name) && found == Named(upstreams, group, name)
    {
      others, found := [], false;
      for i := 0 to |upstreams|
        invariant others == Others(upstreams[..i], group, name) && found == Named(upstreams[..i], group, name)
      {
        assert upstreams[..i + 1][..i] == upstreams[..i];
        if SameName(upstreams[i], group, name) {
          found := true;
        } else {
          others := others + [upstreams[i]];
        }
      }
      assert upstreams[..|upstreams|] == upstreams;
    }

    method AddServerUpstream(id: Str, request: UpstreamRequest, newId: Str, saves: bool)
      returns (r: ApiResult<Upstream>)
      modifies this
      ensures var outcome := Saved(EditServer(old(data), id, AddUpstream(request, newId)), saves);
              data == outcome.file && r == Told(outcome.result, NewUpstream(request, newId))
    {
      if !GoodUpstreamRequest(request) {
        return Refused(InvalidRequest);
      }
      var index := Position(id);
      if index.None? {
        return Refused(NotFound);
      }
      var server := data.items[index.value];
      var others, found := Replace(server.upstreams, request.group, request.name);
      if !server.graceful.enabled && found {
        return Refused(Conflict(40003));
      }
      var upstream := NewUpstream(request, newId);
      var written := Write(index.value, server.(upstreams := others + [upstream]), saves);
      return Told(written, upstream);
    }

    method DeleteServerUpstream(id: Str, upstreamId: Str, saves: bool) returns (r: ApiResult<Upstream>)
      modifies this
      ensures var outcome := Saved(EditServer(old(data), id, DeleteUpstream(upstreamId)), saves);
              data == outcome.file && Removes(outcome.result, UpstreamOf(old(data), id, upstreamId), r)
    {
      var index := Position(id);
      if index.None? {
        return Refused(NotFound);
      }
      var server := data.items[index.value];
      var upstream := UpstreamIndex(server.upstreams, upstreamId);
      if upstream.None? {
        return Refused(NotFound);
      }
      var removed := server.upstreams[upstream.value];
      var written := Write(index.value, server.(upstreams := RemoveAt(server.upstreams, upstream.value)), saves);
      return Told(written, removed);
    }

    method AddServerRoute(id: Str, request: RouteRequest, newId: Str, saves: bool) returns (r: ApiResult<Route>)
      modifies this
      ensures var outcome := Saved(EditServer(old(data), id, AddRoute(request, newId)), saves);
              data == outcome.file && r == Told(outcome.result, NewRoute(request, newId))
    {
      if !GoodRouteRequest(request) {
        return Refused(InvalidRequest);
      }
      var index := Position(id);
      if index.None? {
        return Refused(NotFound);
      }
      var server := data.items[index.value];
      if !HasTarget(server, request.action) {
        return Refused(InvalidRequest);
      }
      if request.rule in Rules(server.routes) {
        return Refused(Conflict(10003));
      }
      var route := NewRoute(request, newId);
      var written := Write(index.value, server.(routes := server.routes + [route]), saves);
      return Told(written, route);
    }

    method DeleteServerRoute(id: Str, routeId: Str, saves: bool) returns (r: ApiResult<Route>)
      modifies this
      ensures var outcome := Saved(EditServer(old(data), id, DeleteRoute(routeId)), saves);
              data == outcome.file && Removes(outcome.result, RouteOf(old(data), id, routeId), r)
    {
      var index := Position(id);
      if index.None? {
        return Refused(NotFound);
      }
      var server := data.items[index.value];
      var route := RouteIndex(server.routes, routeId);
      if route.None? {
        return Refused(NotFound);
      }
      var removed := server.routes[route.value];
      var written := Write(index.value, server.(routes := RemoveAt(server.routes, route.value)), saves);
      return Told(written, removed);
    }
  }

  lemma {:induction false} IndexOfPrefix(items: seq<Server>, n: nat, id: Str)
    requires n <= |items| && ServerIndex(items[..n], id).Some?
    ensures ServerIndex(items, id) == ServerIndex(items[..n], id)
  {
    if n < |items| {
      assert items[..|items| - 1][..n] == items[..n];
      IndexOfPrefix(items[..|items| - 1], n, id);
    } else {
      assert items[..n] == items;
    }
  }
}
