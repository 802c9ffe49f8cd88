/** HttpRuntime: which servers listen where, and what is known about each. */
module Runtime {
  import opened Text
  import opened Config
  import opened ListenGroups
  import UpstreamDrain

  datatype Status = Starting | Running | Failed | Stopping | Stopped

  datatype Info = Info(status: Status, connections: nat, requests: nat, error: bool)

  /** The registry: groups by address, addresses by server, and the last news of each server. */
  datatype Registry = Registry(listeners: map<Str, Group>, listens: map<Str, Str>, infos: map<Str, Info>)

  const EMPTY_REGISTRY := Registry(map[], map[], map[])

  function Address(server: Server): Str {
    server.listen.host + [58] + Decimal(server.listen.port)
  }

  function InfoOf(infos: map<Str, Info>, id: Str): Info {
    if id in infos then infos[id] else Info(Stopped, 0, 0, false)
  }

  function WithInfo(r: Registry, id: Str, info: Info): Registry {
    r.(infos := r.infos[id := info])
  }

  /** remove_server_from_listener: a group left empty takes its listener with it. */
  function Unlisted(r: Registry, id: Str): Registry {
    if id !in r.listens then r
    else
      var addr, listens := r.listens[id], r.listens - {id};
      if addr !in r.listeners then r.(listens := listens)
      else
        var group := Removed(r.listeners[addr], id);
        if group.servers == map[] then r.(listens := listens, listeners := r.listeners - {addr})
        else r.(listens := listens, listeners := r.listeners[addr := group])
  }

  function Halted(r: Registry, id: Str): Registry {
    var current := InfoOf(r.infos, id);
    var status := if current.connections > 0 then Stopping else Stopped;
    WithInfo(Unlisted(r, id), id, Info(status, current.connections, current.requests, false))
  }

  predicate InPlace(r: Registry, server: Server) {
    && server.id in r.listens && r.listens[server.id] == Address(server)
    && Address(server) in r.listeners && server.id in r.listeners[Address(server)].servers
  }

  /** The server takes its place at its address; a new listener needs a socket it can bind. */
  function Started(r: Registry, server: Server, binds: bool): (Registry, bool) {
    var addr := Address(server);
    if addr !in r.listeners && !binds then (WithInfo(r, server.id, Info(Failed, 0, 0, true)), false)
    else
      var group := if addr in r.listeners then r.listeners[addr] else EMPTY_GROUP;
      (Registry(r.listeners[addr := Inserted(group, server)], r.listens[server.id := addr],
                r.infos[server.id := Info(Running, 0, 0, false)]),
       true)
  }

  function Restarted(r: Registry, server: Server, binds: bool): (Registry, bool) {
    var halted := if server.id in r.listens then Halted(r, server.id) else r;
    Started(WithInfo(halted, server.id, Info(Starting, 0, 0, false)), server, binds)
  }

  /** apply: a configuration is written in place when its server already listens there, and
      otherwise the server stops where it is and starts anew. */
  function Applied(r: Registry, server: Server, binds: bool): (Registry, bool) {
    var addr := Address(server);
    if InPlace(r, server) then
      var current := InfoOf(r.infos, server.id);
      (WithInfo(r.(listeners := r.listeners[addr := Inserted(r.listeners[addr], server)]), server.id,
                Info(Running, current.connections, current.requests, false)),
       true)
    else Restarted(r, server, binds)
  }

  /** A configuration written in place is first held against the one there: what becomes of the
      upstreams that are taken out. */
  function Reconciled(retired: UpstreamDrain.Retirees, active: UpstreamDrain.Counts, r: Registry, server: Server)
    : UpstreamDrain.Retirees
  {
    if InPlace(r, server) then
      var former := r.listeners[Address(server)].servers[server.id];
      UpstreamDrain.ReconciledAll(retired, active, server.id, former.upstreams, server.upstreams)
    else retired
  }

  lemma UpdateThenRemove<K, V>(m: map<K, V>, k: K, v: V)
    ensures m[k := v] - {k} == m - {k}
  {}

  lemma UpdateTwice<K, V>(m: map<K, V>, k: K, v: V, w: V)
    ensures m[k := v][k := w] == m[k := w]
  {}

  class HttpRuntime {
    const proxyState: UpstreamDrain.ProxyState
    var listeners: map<Str, ListenGroup>
    var serverListens: map<Str, Str>
    var infos: map<Str, Info>

    /** What the groups of the listeners hold. */
    ghost var groups: map<Str, Group>

    /** The group of an address is its own, and holds what is said of it. */
    ghost predicate GroupAgrees(addr: Str)
      requires addr in listeners
      reads `listeners, `groups, listeners[addr]
    {
      addr in groups && listeners[addr].Valid() && listeners[addr].View() == groups[addr]
    }

    ghost predicate Valid()
      reads `listeners, `groups, listeners.Values
    {
      && groups.Keys == listeners.Keys
      && (forall addr | addr in listeners :: GroupAgrees(addr))
      && (forall a, b | a in listeners && b in listeners && listeners[a] == listeners[b] :: a == b)
    }

    ghost function View(): Registry
      reads this
    {
      Registry(groups, serverListens, infos)
    }

    constructor ()
      ensures Valid() && View() == EMPTY_REGISTRY && listeners == map[]
      ensures fresh(proxyState) && proxyState.active == map[] && proxyState.retired == map[]
    {
      proxyState := new UpstreamDrain.ProxyState();
      listeners, serverListens, infos, groups := map[], map[], map[], map[];
    }

    method SetInfo(id: Str, info: Info)
      requires Valid()
      modifies this`infos
      ensures Valid() && infos == old(infos)[id := info]
    {
      infos := infos[id := info];
    }

    method SetListen(id: Str, addr: Str)
      requires Valid()
      modifies this`serverListens
      ensures Valid() && serverListens == old(serverListens)[id := addr]
    {
      serverListens := serverListens[id := addr];
    }

    method InfoSnapshot(id: Str) returns (info: Info)
      ensures info == InfoOf(infos, id)
    {
      return if id in infos then infos[id] else Info(Stopped, 0, 0, false);
    }

    /** One group changes, and no other. */
    method RemoveFrom(addr: Str, id: Str) returns (empty: bool)
      requires Valid() && addr in listeners
      modifies this`groups, listeners[addr]
      ensures Valid() && groups == old(groups)[addr := Removed(old(groups)[addr], id)]
      ensures empty == (groups[addr].servers == map[])
    {
      listeners[addr].RemoveServerConfig(id);
      groups := groups[addr := listeners[addr].View()];
      empty := listeners[addr].servers == map[];
    }

    method InsertInto(addr: Str, server: Server)
      requires Valid() && addr in listeners
      modifies this`groups, listeners[addr]
      ensures Valid() && groups == old(groups)[addr := Inserted(old(groups)[addr], server)]
    {
      listeners[addr].InsertServerConfig(server);
      groups := groups[addr := listeners[addr].View()];
    }

    method DropListener(addr: Str)
      requires Valid()
      modifies this`groups, this`listeners
      ensures Valid() && groups == old(groups) - {addr} && listeners == old(listeners) - {addr}
    {
      listeners := listeners - {addr};
      groups := groups - {addr};
    }

    method RemoveServerFromListener(id: Str)
      requires Valid()
      modifies this, listeners.Values
      ensures Valid() && View() == Unlisted(old(View()), id)
      ensures listeners.Values <= old(listeners.Values)
    {
      if id !in serverListens {
        return;
      }
      var addr := serverListens[id];
      serverListens := serverListens - {id};
      if addr !in listeners {
        return;
      }
      ghost var before := groups;
      var empty := RemoveFrom(addr, id);
      if empty {
        DropListener(addr);
        UpdateThenRemove(before, addr, Removed(before[addr], id));
      }
    }

    method Stop(id: Str)
      requires Valid()
      modifies this, listeners.Values
      ensures Valid() && View() == Halted(old(View()), id)
      ensures listeners.Values <= old(listeners.Values)
    {
      RemoveServerFromListener(id);
      var current := InfoSnapshot(id);
      var status := if current.connections > 0 then Stopping else Stopped;
      SetInfo(id, Info(status, current.connections, current.requests, false));
    }

    /** A listener for an address that has none, if its socket can be bound. */
    method Bind(addr: Str)
      requires Valid() && addr !in listeners
      modifies this`groups, this`listeners
      ensures Valid() && groups == old(groups)[addr := EMPTY_GROUP]
      ensures addr in listeners && fresh(listeners[addr]) && listeners == old(listeners)[addr := listeners[addr]]
      ensures fresh(listeners.Values - old(listeners.Values))
    {
      var group := new ListenGroup();
      listeners := listeners[addr := group];
      groups := groups[addr := EMPTY_GROUP];
    }

    /** The server joins the group at its address. */
    method Join(addr: Str, server: Server)
      requires Valid() && addr in listeners
      modifies this`groups, this`serverListens, this`infos, listeners[addr]
      ensures Valid() && groups == old(groups)[addr := Inserted(old(groups)[addr], server)]
      ensures serverListens == old(serverListens)[server.id := addr]
      ensures infos == old(infos)[server.id := Info(Running, 0, 0, false)]
    {
      InsertInto(addr, server);
      SetListen(server.id, addr);
      SetInfo(server.id, Info(Running, 0, 0, false));
    }

    /** The second half of apply. */
    method Start(server: Server, binds: bool) returns (ok: bool)
      requires Valid()
      modifies this, listeners.Values
      ensures Valid() && (View(), ok) == Started(old(View()), server, binds)
      ensures fresh(listeners.Values - old(listeners.Values))
    {
      var addr := Address(server);
      if addr in listeners {
        Join(addr, server);
        return true;
      }
      if !binds {
        SetInfo(server.id, Info(Failed, 0, 0, true));
        return false;
      }
      Bind(addr);
      Join(addr, server);
      UpdateTwice(old(groups), addr, EMPTY_GROUP, Inserted(EMPTY_GROUP, server));
      return true;
    }

    /** The configuration of a server that stays where it is. */
    method WriteInPlace(addr: Str, server: Server)
      requires Valid() && addr in listeners
      modifies this`groups, this`infos, listeners[addr]
      ensures Valid() && groups == old(groups)[addr := Inserted(old(groups)[addr], server)]
      ensures infos == old(infos)[server.id := Info(Running, InfoOf(old(infos), server.id).connections,
                                                    InfoOf(old(infos), server.id).requests, false)]
    {
      InsertInto(addr, server);
      var current := InfoSnapshot(server.id);
      SetInfo(server.id, Info(Running, current.connections, current.requests, false));
    }

    /** A server that may be somewhere else stops there, and starts. */
    method Restart(server: Server, binds: bool) returns (ok: bool)
      requires Valid()
      modifies this, listeners.Values
      ensures Valid() && (View(), ok) == Restarted(old(View()), server, binds)
      ensures fresh(listeners.Values - old(listeners.Values))
    {
      if server.id in serverListens {
        Stop(server.id);
      }
      SetInfo(server.id, Info(Starting, 0, 0, false));
      ok := Start(server, binds);
    }

    /** The upstreams taken out are reconciled before the configuration is replaced. */
    method ReplaceConfig(addr: Str, server: Server)
      requires Valid() && InPlace(View(), server) && addr == Address(server) && addr in listeners
      modifies this`groups, this`infos, listeners[addr], proxyState`retired
      ensures Valid() && (View(), true) == Applied(old(View()), server, true)
      ensures proxyState.retired == Reconciled(old(proxyState.retired), proxyState.active, old(View()), server)
    {
      assert GroupAgrees(addr);
      var former := listeners[addr].servers[server.id];
      proxyState.ReconcileUpstreams(server.id, former.upstreams, server.upstreams);
      WriteInPlace(addr, server);
    }

    /** The servers at an address are those of its group. */
    lemma ServersThere(addr: Str)
      requires Valid() && addr in listeners
      ensures addr in groups && groups[addr].servers == listeners[addr].servers
    {
      assert GroupAgrees(addr);
    }

    /** apply */
    method Apply(server: Server, binds: bool) returns (ok: bool)
      requires Valid()
      modifies this, listeners.Values, proxyState`retired
      ensures Valid() && (View(), ok) == Applied(old(View()), server, binds)
      ensures proxyState.retired == Reconciled(old(proxyState.retired), proxyState.active, old(View()), server)
      ensures fresh(listeners.Values - old(listeners.Values))
    {
      var addr := Address(server);
      if server.id in serverListens && serverListens[server.id] == addr && addr in listeners {
        ServersThere(addr);
        if server.id in listeners[addr].servers {
          ReplaceConfig(addr, server);
          return true;
        }
      }
      ok := Restart(server, binds);
    }
  }
}
