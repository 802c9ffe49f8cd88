/** What apply and stop keep of the registry: an index without loose ends. */
module RegistrySoundness {
  import opened Prelude
  import opened Text
  import opened Config
  import opened ListenGroups
  import opened Runtime

  /** A group is never empty, and its servers are registered at its address. */
  predicate GroupSound(r: Registry, addr: Str)
    requires addr in r.listeners
  {
    && r.listeners[addr].servers != map[]
    && forall id | id in r.listeners[addr].servers :: id in r.listens && r.listens[id] == addr
  }

  ghost predicate SoundAt(r: Registry, addr: Str) {
    addr in r.listeners ==> r.listeners[addr].Valid() && GroupSound(r, addr)
  }

  /** A registered server is in the group at its address. */
  predicate ListedAt(r: Registry, id: Str) {
    id in r.listens ==> r.listens[id] in r.listeners && id in r.listeners[r.listens[id]].servers
  }

  ghost predicate Sound(r: Registry) {
    (forall addr: Str :: SoundAt(r, addr)) && (forall id: Str :: ListedAt(r, id))
  }

  /** The configuration a registered server runs with. */
  function ConfigOf(r: Registry, id: Str): Option<Server> {
    if id in r.listens && r.listens[id] in r.listeners && id in r.listeners[r.listens[id]].servers then
      Some(r.listeners[r.listens[id]].servers[id])
    else None
  }

  /** For `id` nothing changes but, perhaps, other servers around it. */
  predicate Untouched(before: Registry, after: Registry, id: Str) {
    && (id in before.listens <==> id in after.listens)
    && (id in before.listens ==> before.listens[id] == after.listens[id])
    && ConfigOf(before, id) == ConfigOf(after, id)
    && (id in before.infos <==> id in after.infos)
    && (id in before.infos ==> before.infos[id] == after.infos[id])
  }

  lemma InfoKeepsSound(r: Registry, id: Str, info: Info)
    requires Sound(r)
    ensures Sound(WithInfo(r, id, info))
  {
    var after := WithInfo(r, id, info);
    forall addr: Str ensures SoundAt(after, addr) {
      assert SoundAt(r, addr);
    }
    forall x: Str ensures ListedAt(after, x) {
      assert ListedAt(r, x);
    }
  }

  // ----- Leaving

  lemma UnlistedAt(r: Registry, id: Str, addr: Str)
    requires Sound(r) && id in r.listens
    ensures SoundAt(Unlisted(r, id), addr)
  {
    var after, home := Unlisted(r, id), r.listens[id];
    assert SoundAt(r, addr) && SoundAt(r, home) && ListedAt(r, id);
    RemoveKeepsValid(r.listeners[home], id);
    if addr in after.listeners {
      forall x | x in after.listeners[addr].servers ensures x in after.listens && after.listens[x] == addr {
        assert x in r.listeners[addr].servers;
      }
    }
  }

  lemma UnlistedOther(r: Registry, id: Str, x: Str)
    requires Sound(r) && id in r.listens && x != id
    ensures Untouched(r, Unlisted(r, id), x) && ListedAt(Unlisted(r, id), x)
  {
    assert ListedAt(r, x) && ListedAt(r, id);
    if x in r.listens && r.listens[x] == r.listens[id] {
      assert x in Removed(r.listeners[r.listens[id]], id).servers;
    }
  }

  lemma UnlistedIsSound(r: Registry, id: Str)
    requires Sound(r)
    ensures Sound(Unlisted(r, id)) && id !in Unlisted(r, id).listens
    ensures forall x: Str | x != id :: Untouched(r, Unlisted(r, id), x)
  {
    if id in r.listens {
      forall addr: Str ensures SoundAt(Unlisted(r, id), addr) {
        UnlistedAt(r, id, addr);
      }
      forall x: Str | x != id ensures Untouched(r, Unlisted(r, id), x) && ListedAt(Unlisted(r, id), x) {
        UnlistedOther(r, id, x);
      }
      forall x: Str ensures ListedAt(Unlisted(r, id), x) {
        if x == id {
          assert id !in Unlisted(r, id).listens;
        }
      }
    }
  }

  lemma UntouchedTrans(a: Registry, b: Registry, c: Registry, id: Str)
    requires Untouched(a, b, id) && Untouched(b, c, id)
    ensures Untouched(a, c, id)
  {}

  /** stop: the server is out of the registry, and every other as it was. */
  lemma HaltedIsSound(r: Registry, id: Str)
    requires Sound(r)
    ensures Sound(Halted(r, id)) && id !in Halted(r, id).listens
    ensures forall x: Str | x != id :: Untouched(r, Halted(r, id), x)
  {
    UnlistedIsSound(r, id);
    var current := InfoOf(r.infos, id);
    var status := if current.connections > 0 then Stopping else Stopped;
    var info := Info(status, current.connections, current.requests, false);
    InfoKeepsSound(Unlisted(r, id), id, info);
    forall x: Str | x != id ensures Untouched(r, Halted(r, id), x) {
      UntouchedTrans(r, Unlisted(r, id), Halted(r, id), x);
    }
  }

  /** The news of a server that was stopped: its counts, and whether connections are left. */
  lemma HaltedNews(r: Registry, id: Str)
    ensures var before, after := InfoOf(r.infos, id), Halted(r, id).infos;
            && id in after && after[id].connections == before.connections && after[id].requests == before.requests
            && (after[id].status == Stopping <==> before.connections > 0)
            && (after[id].status == Stopped <==> before.connections == 0)
  {}

  // ----- Joining

  /** The server in its place. */
  predicate RunsAs(r: Registry, server: Server) {
    && server.id in r.listens && r.listens[server.id] == Address(server)
    && ConfigOf(r, server.id) == Some(server)
  }

  /** A group with the server in it, and the registry pointing there. */
  function Placed(r: Registry, server: Server, info: Info): Registry {
    var addr := Address(server);
    var group := if addr in r.listeners then r.listeners[addr] else EMPTY_GROUP;
    Registry(r.listeners[addr := Inserted(group, server)], r.listens[server.id := addr], r.infos[server.id := info])
  }

  lemma PlacedAt(r: Registry, server: Server, info: Info, addr: Str)
    requires Sound(r) && (server.id in r.listens ==> r.listens[server.id] == Address(server))
    ensures SoundAt(Placed(r, server, info), addr)
  {
    var after := Placed(r, server, info);
    assert SoundAt(r, addr);
    if addr == Address(server) {
      var group := if addr in r.listeners then r.listeners[addr] else EMPTY_GROUP;
      InsertKeepsValid(group, server);
      assert server.id in after.listeners[addr].servers;
    } else if addr in r.listeners {
      forall x | x in r.listeners[addr].servers ensures x in after.listens && after.listens[x] == addr {
        assert x in r.listens && r.listens[x] == addr;
      }
    }
  }

  lemma PlacedOther(r: Registry, server: Server, info: Info, x: Str)
    requires Sound(r) && x != server.id
    ensures Untouched(r, Placed(r, server, info), x) && ListedAt(Placed(r, server, info), x)
  {
    assert ListedAt(r, x);
  }

  lemma PlacedIsSound(r: Registry, server: Server, info: Info)
    requires Sound(r) && (server.id in r.listens ==> r.listens[server.id] == Address(server))
    ensures Sound(Placed(r, server, info)) && RunsAs(Placed(r, server, info), server)
    ensures forall x: Str | x != server.id :: Untouched(r, Placed(r, server, info), x)
  {
    var after := Placed(r, server, info);
    forall addr: Str ensures SoundAt(after, addr) {
      PlacedAt(r, server, info, addr);
    }
    forall x: Str | x != server.id ensures Untouched(r, after, x) && ListedAt(after, x) {
      PlacedOther(r, server, info, x);
    }
    assert ListedAt(after, server.id);
  }

  /** apply: the server runs at its address with its configuration, or its socket could not be
      bound and it is out of the registry and has failed; every other server is as it was. */
  lemma AppliedIsSound(r: Registry, server: Server, binds: bool)
    requires Sound(r)
    ensures var (after, ok) := Applied(r, server, binds);
            && Sound(after)
            && (forall x: Str | x != server.id :: Untouched(r, after, x))
            && (if ok then RunsAs(after, server)
                else server.id !in after.listens && server.id in after.infos &&
                     after.infos[server.id].status == Failed)
  {
    var (after, ok) := Applied(r, server, binds);
    assert ListedAt(r, server.id);
    if InPlace(r, server) {
      var current := InfoOf(r.infos, server.id);
      var info := Info(Running, current.connections, current.requests, false);
      PlacedIsSound(r, server, info);
      assert r.listens[server.id := Address(server)] == r.listens;
      assert after == Placed(r, server, info);
    } else {
      var halted := if server.id in r.listens then Halted(r, server.id) else r;
      HaltedIsSound(r, server.id);
      var starting := WithInfo(halted, server.id, Info(Starting, 0, 0, false));
      InfoKeepsSound(halted, server.id, Info(Starting, 0, 0, false));
      StartedIsSound(starting, server, binds);
      forall x: Str | x != server.id ensures Untouched(r, after, x) {
        UntouchedTrans(r, halted, starting, x);
        UntouchedTrans(r, starting, after, x);
      }
    }
  }

  /** The news of a server that was applied: it runs, with its counts when it stayed at its address and
      with none when it starts anew, or it has failed. */
  lemma AppliedNews(r: Registry, server: Server, binds: bool)
    requires Sound(r)
    ensures var (after, ok) := Applied(r, server, binds);
            var stays := server.id in r.listens && r.listens[server.id] == Address(server);
            var before := InfoOf(r.infos, server.id);
            && server.id in after.infos
            && (ok <==> after.infos[server.id].status == Running) && (stays ==> ok)
            && after.infos[server.id].connections == (if stays then before.connections else 0)
            && after.infos[server.id].requests == (if stays then before.requests else 0)
            && (after.infos[server.id].error <==> !ok)
  {
    assert ListedAt(r, server.id);
  }

  lemma StartedIsSound(r: Registry, server: Server, binds: bool)
    requires Sound(r) && server.id !in r.listens
    ensures var (after, ok) := Started(r, server, binds);
            && Sound(after)
            && (forall x: Str | x != server.id :: Untouched(r, after, x))
            && (if ok then RunsAs(after, server)
                else server.id !in after.listens && server.id in after.infos &&
                     after.infos[server.id].status == Failed)
  {
    if Started(r, server, binds).1 {
      PlacedIsSound(r, server, Info(Running, 0, 0, false));
    } else {
      InfoKeepsSound(r, server.id, Info(Failed, 0, 0, true));
    }
  }

  /** An address has a listener exactly when some server is registered there. */
  lemma ListenerIffServer(r: Registry, addr: Str)
    requires Sound(r)
    ensures addr in r.listeners <==> exists id :: id in r.listens && r.listens[id] == addr
  {
    assert SoundAt(r, addr);
    if addr in r.listeners {
      var id :| id in r.listeners[addr].servers;
      assert id in r.listens;
    }
    if id :| id in r.listens && r.listens[id] == addr {
      assert ListedAt(r, id);
    }
  }
}
