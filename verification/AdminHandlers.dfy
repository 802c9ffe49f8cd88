/** The mutating handlers of the admin interface, on the storage and the runtime themselves. */
module AdminHandlers {
  import opened Prelude
  import opened Text
  import opened Config
  import opened Storage
  import opened StorageOps
  import opened Runtime
  import opened ControlPlane
  import opened UpstreamDrain

  /** The server that a call has the runtime apply. */
  function ToApply(sys: System, call: Call, saves: bool): Option<Server> {
    match call
    case Operate(op, _) =>
      (match Saved(Performed(sys.file, op), saves).result
       case Refused(_) => None
       case Done(server) => if Applies(op, server) then Some(server) else None)
    case ReloadServer(id, _) =>
      (match Lookup(sys.file, id)
       case None => None
       case Some(server) => if server.enabled then Some(server) else None)
  }

  /** What is left of the upstreams of a server that is applied, if one is. */
  function Retiring(retired: Retirees, active: Counts, registry: Registry, server: Option<Server>): Retirees {
    match server
    case None => retired
    case Some(server) => Runtime.Reconciled(retired, active, registry, server)
  }

  /** The retired upstreams after a call are those that the server it applies leaves. */
  predicate Retires(sys: System, call: Call, saves: bool, retired: Retirees, active: Counts, after: Retirees) {
    after == Retiring(retired, active, sys.registry, ToApply(sys, call, saves))
  }

  lemma RetiresWhat(sys: System, op: Op, binds: bool, saves: bool, retired: Retirees, active: Counts,
                    result: ApiResult<Server>)
    requires result == Saved(Performed(sys.file, op), saves).result
    ensures Retires(sys, Operate(op, binds), saves, retired, active,
                    Retiring(retired, active, sys.registry,
                             if result.Done? && Applies(op, result.value) then Some(result.value) else None))
  {}

  function IfEnabled(server: Server): Option<Server> {
    if server.enabled then Some(server) else None
  }

  class AppState {
    const httpServers: HttpServerStorage
    const runtime: HttpRuntime

    ghost predicate Valid()
      reads this, runtime, runtime.listeners.Values
    {
      runtime.Valid()
    }

    ghost function View(): System
      reads this, httpServers, runtime
    {
      System(httpServers.data, runtime.View())
    }

    ghost function Retired(): Retirees
      reads this, runtime, runtime.proxyState
    {
      runtime.proxyState.retired
    }

    constructor (httpServers: HttpServerStorage, runtime: HttpRuntime)
      requires runtime.Valid()
      ensures Valid() && this.httpServers == httpServers && this.runtime == runtime
    {
      this.httpServers, this.runtime := httpServers, runtime;
    }

    /** The server is applied, if it is enabled. */
    method ApplyIfEnabled(server: Server, binds: bool) returns (ok: bool)
      requires Valid()
      modifies runtime, runtime.listeners.Values, runtime.proxyState`retired
      ensures Valid() && httpServers.data == old(httpServers.data)
      ensures (runtime.View(), ok) ==
              if server.enabled then Applied(old(runtime.View()), server, binds) else (old(runtime.View()), true)
      ensures Retired() ==
              Retiring(old(Retired()), runtime.proxyState.active, old(runtime.View()), IfEnabled(server))
    {
      ok := true;
      if server.enabled {
        ok := runtime.Apply(server, binds);
      }
    }

    method CreateHttpServer(request: ServerRequest, newId: Str, saves: bool, binds: bool)
      returns (r: ApiResult<Server>)
      requires Valid()
      modifies httpServers, runtime, runtime.listeners.Values, runtime.proxyState`retired
      ensures Valid() && View() == Handled(old(View()), Operate(Create(request, newId), binds), saves)
      ensures Retires(old(View()), Operate(Create(request, newId), binds), saves,
                      old(Retired()), runtime.proxyState.active, Retired())
      ensures r == Answered(old(View()), Operate(Create(request, newId), binds), saves)
    {
      r := httpServers.CreateHttpServer(request, newId, saves);
      ghost var op := Create(request, newId);
      RetiresWhat(old(View()), op, binds, saves, old(Retired()), runtime.proxyState.active,
                  Saved(Performed(old(httpServers.data), op), saves).result);
      if r.Refused? { return r; }
      var ok := runtime.Apply(r.value, binds);
      if !ok { return Refused(Internal); }
    }

    method UpdateHttpServer(id: Str, request: ServerRequest, saves: bool, binds: bool)
      returns (r: ApiResult<Server>)
      requires Valid()
      modifies httpServers, runtime, runtime.listeners.Values, runtime.proxyState`retired
      ensures Valid() && View() == Handled(old(View()), Operate(Change(id, Update(request)), binds), saves)
      ensures Retires(old(View()), Operate(Change(id, Update(request)), binds), saves,
                      old(Retired()), runtime.proxyState.active, Retired())
      ensures r == Answered(old(View()), Operate(Change(id, Update(request)), binds), saves)
    {
      r := httpServers.UpdateHttpServer(id, request, saves);
      ghost var op := Change(id, Update(request));
      RetiresWhat(old(View()), op, binds, saves, old(Retired()), runtime.proxyState.active,
                  Saved(Performed(old(httpServers.data), op), saves).result);
      if r.Refused? { return r; }
      var ok := ApplyIfEnabled(r.value, binds);
      if !ok { return Refused(Internal); }
    }

    method SetHttpServerEnabled(id: Str, enabled: bool, saves: bool, binds: bool)
      returns (r: ApiResult<Server>)
      requires Valid()
      modifies httpServers, runtime, runtime.listeners.Values, runtime.proxyState`retired
      ensures Valid() && View() == Handled(old(View()), Operate(Change(id, SetEnabled(enabled)), binds), saves)
      ensures Retires(old(View()), Operate(Change(id, SetEnabled(enabled)), binds), saves,
                      old(Retired()), runtime.proxyState.active, Retired())
      ensures r == Answered(old(View()), Operate(Change(id, SetEnabled(enabled)), binds), saves)
    {
      r := httpServers.SetServerEnabled(id, enabled, saves);
      ghost var op := Change(id, SetEnabled(enabled));
      RetiresWhat(old(View()), op, binds, saves, old(Retired()), runtime.proxyState.active,
                  Saved(Performed(old(httpServers.data), op), saves).result);
      if r.Refused? { return r; }
      if r.value.enabled {
        var ok := runtime.Apply(r.value, binds);
        if !ok { return Refused(Internal); }
      } else {
        runtime.Stop(r.value.id);
      }
    }

    method DeleteHttpServer(id: Str, saves: bool) returns (r: ApiResult<Server>)
      requires Valid()
      modifies httpServers, runtime, runtime.listeners.Values
      ensures Valid() && View() == Handled(old(View()), Operate(Delete(id), true), saves)
      ensures r == Answered(old(View()), Operate(Delete(id), true), saves)
    {
      r := httpServers.DeleteHttpServer(id, saves);
      if r.Refused? { return r; }
      runtime.Stop(r.value.id);
    }

    method ReloadHttpServer(id: Str, binds: bool) returns (r: ApiResult<Server>)
      requires Valid()
      modifies runtime, runtime.listeners.Values, runtime.proxyState`retired
      ensures Valid() && View() == Handled(old(View()), ReloadServer(id, binds), true)
      ensures Retires(old(View()), ReloadServer(id, binds), true,
                      old(Retired()), runtime.proxyState.active, Retired())
      ensures r == Answered(old(View()), ReloadServer(id, binds), true)
    {
      var index := httpServers.Position(id);
      if index.None? { return Refused(NotFound); }
      var server := httpServers.data.items[index.value];
      var ok := ApplyIfEnabled(server, binds);
      return if ok then Done(server) else Refused(Internal);
    }

    /** A server whose parts were changed is looked up and applied, if it is enabled. */
    method ApplyStored(id: Str, binds: bool) returns (ok: bool)
      requires Valid() && Lookup(httpServers.data, id).Some?
      modifies runtime, runtime.listeners.Values, runtime.proxyState`retired
      ensures Valid() && httpServers.data == old(httpServers.data)
      ensures var server := Lookup(old(httpServers.data), id).value;
              (runtime.View(), ok) ==
              if server.enabled then Applied(old(runtime.View()), server, binds) else (old(runtime.View()), true)
      ensures Retired() ==
              Retiring(old(Retired()), runtime.proxyState.active, old(runtime.View()),
                       IfEnabled(Lookup(old(httpServers.data), id).value))
    {
      var server := httpServers.Get(id);
      ok := ApplyIfEnabled(server.value, binds);
    }

    method AddUpstream(id: Str, request: UpstreamRequest, newId: Str, saves: bool, binds: bool)
      returns (r: ApiResult<Upstream>)
      requires Valid()
      modifies httpServers, runtime, runtime.listeners.Values, runtime.proxyState`retired
      ensures Valid()
      ensures View() == Handled(old(View()), Operate(Change(id, Edit.AddUpstream(request, newId)), binds), saves)
      ensures Retires(old(View()), Operate(Change(id, Edit.AddUpstream(request, newId)), binds), saves,
                      old(Retired()), runtime.proxyState.active, Retired())
      ensures r == Told(Answered(old(View()), Operate(Change(id, Edit.AddUpstream(request, newId)), binds), saves),
                        NewUpstream(request, newId))
    {
      r := httpServers.AddServerUpstream(id, request, newId, saves);
      ghost var op := Change(id, Edit.AddUpstream(request, newId));
      RetiresWhat(old(View()), op, binds, saves, old(Retired()), runtime.proxyState.active,
                  Saved(Performed(old(httpServers.data), op), saves).result);
      if r.Refused? { return r; }
      EditedIsFound(old(httpServers.data), id, Edit.AddUpstream(request, newId));
      var ok := ApplyStored(id, binds);
      if !ok { return Refused(Internal); }
    }

    method DeleteUpstream(id: Str, upstreamId: Str, saves: bool, binds: bool) returns (r: ApiResult<Upstream>)
      requires Valid()
      modifies httpServers, runtime, runtime.listeners.Values, runtime.proxyState`retired
      ensures Valid()
      ensures View() == Handled(old(View()), Operate(Change(id, Edit.DeleteUpstream(upstreamId)), binds), saves)
      ensures Retires(old(View()), Operate(Change(id, Edit.DeleteUpstream(upstreamId)), binds), saves,
                      old(Retired()), runtime.proxyState.active, Retired())
      ensures Removes(Answered(old(View()), Operate(Change(id, Edit.DeleteUpstream(upstreamId)), binds), saves),
                      UpstreamOf(old(httpServers.data), id, upstreamId), r)
    {
      r := httpServers.DeleteServerUpstream(id, upstreamId, saves);
      ghost var op := Change(id, Edit.DeleteUpstream(upstreamId));
      RetiresWhat(old(View()), op, binds, saves, old(Retired()), runtime.proxyState.active,
                  Saved(Performed(old(httpServers.data), op), saves).result);
      if r.Refused? { return r; }
      EditedIsFound(old(httpServers.data), id, Edit.DeleteUpstream(upstreamId));
      var ok := ApplyStored(id, binds);
      if !ok { return Refused(Internal); }
    }

    method AddRoute(id: Str, request: RouteRequest, newId: Str, saves: bool, binds: bool)
      returns (r: ApiResult<Route>)
      requires Valid()
      modifies httpServers, runtime, runtime.listeners.Values, runtime.proxyState`retired
      ensures Valid()
      ensures View() == Handled(old(View()), Operate(Change(id, Edit.AddRoute(request, newId)), binds), saves)
      ensures Retires(old(View()), Operate(Change(id, Edit.AddRoute(request, newId)), binds), saves,
                      old(Retired()), runtime.proxyState.active, Retired())
      ensures r == Told(Answered(old(View()), Operate(Change(id, Edit.AddRoute(request, newId)), binds), saves),
                        NewRoute(request, newId))
    {
      r := httpServers.AddServerRoute(id, request, newId, saves);
      ghost var op := Change(id, Edit.AddRoute(request, newId));
      RetiresWhat(old(View()), op, binds, saves, old(Retired()), runtime.proxyState.active,
                  Saved(Performed(old(httpServers.data), op), saves).result);
      if r.Refused? { return r; }
      EditedIsFound(old(httpServers.data), id, Edit.AddRoute(request, newId));
      var ok := ApplyStored(id, binds);
      if !ok { return Refused(Internal); }
    }

    method DeleteRoute(id: Str, routeId: Str, saves: bool, binds: bool) returns (r: ApiResult<Route>)
      requires Valid()
      modifies httpServers, runtime, runtime.listeners.Values, runtime.proxyState`retired
      ensures Valid()
      ensures View() == Handled(old(View()), Operate(Change(id, Edit.DeleteRoute(routeId)), binds), saves)
      ensures Retires(old(View()), Operate(Change(id, Edit.DeleteRoute(routeId)), binds), saves,
                      old(Retired()), runtime.proxyState.active, Retired())
      ensures Removes(Answered(old(View()), Operate(Change(id, Edit.DeleteRoute(routeId)), binds), saves),
                      RouteOf(old(httpServers.data), id, routeId), r)
    {
      r := httpServers.DeleteServerRoute(id, routeId, saves);
      ghost var op := Change(id, Edit.DeleteRoute(routeId));
      RetiresWhat(old(View()), op, binds, saves, old(Retired()), runtime.proxyState.active,
                  Saved(Performed(old(httpServers.data), op), saves).result);
      if r.Refused? { return r; }
      EditedIsFound(old(httpServers.data), id, Edit.DeleteRoute(routeId));
      var ok := ApplyStored(id, binds);
      if !ok { return Refused(Internal); }
    }
  }

  /** The handlers look up the server they have just changed. */
  lemma {:induction false} EditedIsFound(file: HttpServerFile, id: Str, edit: Edit)
    requires EditServer(file, id, edit).result.Done?
    ensures Lookup(EditServer(file, id, edit).file, id) == Some(EditServer(file, id, edit).result.value)
  {
    var i := ServerIndex(file.items, id).value;
    EditKeepsId(file.items[i], edit);
    IndexOfUpdate(file.items, i, Edited(file.items[i], edit).value, id);
  }
}
