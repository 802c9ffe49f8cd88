/** ListenGroup: the servers that share an address, and the choice among them by host. */
module ListenGroups {
  import opened Prelude
  import opened Text
  import opened Sequences
  import opened Hosts
  import opened Config

  predicate Unique(ids: seq<Str>) {
    forall i, j | 0 <= i < j < |ids| :: ids[i] != ids[j]
  }

  /** What a group holds: its servers, the order they came in, and the default. */
  datatype Group = Group(servers: map<Str, Server>, order: seq<Str>, first: Option<Str>) {
    /** The order lists each server once, the first of it is the default, and servers are kept
        under their own ids. */
    ghost predicate Valid() {
      && Unique(order)
      && (forall id :: id in servers <==> id in order)
      && (forall id | id in servers :: servers[id].id == id)
      && first == if order == [] then None else Some(order[0])
    }
  }

  const EMPTY_GROUP := Group(map[], [], None)

  function Inserted(group: Group, server: Server): Group {
    Group(group.servers[server.id := server],
          if server.id in group.servers then group.order else group.order + [server.id],
          if group.first.None? then Some(server.id) else group.first)
  }

  function Without(order: seq<Str>, id: Str): seq<Str> {
    if order == [] then []
    else Without(order[..|order| - 1], id) + if order[|order| - 1] == id then [] else [order[|order| - 1]]
  }

  function Removed(group: Group, id: Str): Group {
    var order := Without(group.order, id);
    Group(group.servers - {id}, order,
          if group.first != Some(id) then group.first else if order == [] then None else Some(order[0]))
  }

  predicate Names(server: Server, host: Str) {
    exists i | 0 <= i < |server.listen.serverNames| :: SameIgnoringCase(server.listen.serverNames[i], host)
  }

  /** The first server in order that has the name. */
  function FirstNamed(group: Group, host: Str, from: nat): Option<Server>
    decreases |group.order| - from
  {
    if from >= |group.order| then None
    else if group.order[from] in group.servers && Names(group.servers[group.order[from]], host) then
      Some(group.servers[group.order[from]])
    else FirstNamed(group, host, from + 1)
  }

  function HostOf(host: Option<Str>): Option<Str> {
    if host.None? then None else NormalizeHost(host.value)
  }

  function Selected(group: Group, host: Option<Str>): Option<Server> {
    var name := HostOf(host);
    var named := if name.None? then None else FirstNamed(group, name.value, 0);
    if named.Some? then named
    else if group.first.Some? && group.first.value in group.servers then Some(group.servers[group.first.value])
    else None
  }

  class ListenGroup {
    var servers: map<Str, Server>
    var order: seq<Str>
    var defaultServerId: Option<Str>

    function View(): Group
      reads this
    {
      Group(servers, order, defaultServerId)
    }

    ghost predicate Valid()
      reads this
    {
      View().Valid()
    }

    constructor ()
      ensures Valid() && View() == EMPTY_GROUP
    {
      servers, order, defaultServerId := map[], [], None;
    }

    /** insert_server_config */
    method InsertServerConfig(server: Server)
      requires Valid()
      modifies this
      ensures Valid() && View() == Inserted(old(View()), server)
    {
      InsertKeepsValid(View(), server);
      if server.id !in servers {
        order := order + [server.id];
      }
      if defaultServerId.None? {
        defaultServerId := Some(server.id);
      }
      servers := servers[server.id := server];
    }

    /** remove_server_config */
    method RemoveServerConfig(id: Str)
      requires Valid()
      modifies this
      ensures Valid() && View() == Removed(old(View()), id)
    {
      RemoveKeepsValid(View(), id);
      servers := servers - {id};
      var kept: seq<Str> := [];
      for i := 0 to |order|
        invariant order == old(order) && servers == old(servers) - {id} && defaultServerId == old(defaultServerId)
        invariant kept == Without(order[..i], id)
      {
        assert order[..i + 1][..i] == order[..i];
        if order[i] != id {
          kept := kept + [order[i]];
        }
      }
      assert order[..|order|] == order;
      order := kept;
      if defaultServerId == Some(id) {
        defaultServerId := if order == [] then None else Some(order[0]);
      }
    }

    /** A new configuration written in place. */
    method WriteConfig(server: Server)
      requires Valid() && server.id in servers
      modifies this
      ensures Valid() && View() == Inserted(old(View()), server)
    {
      InsertKeepsValid(View(), server);
      servers := servers[server.id := server];
    }

    /** select_server_config, when no configuration is being written. */
    method SelectServerConfig(host: Option<Str>) returns (r: Option<Server>)
      requires Valid()
      ensures r == Selected(View(), host)
    {
      var name := HostOf(host);
      if name.Some? {
        for i := 0 to |order|
          invariant FirstNamed(View(), name.value, 0) == FirstNamed(View(), name.value, i)
        {
          if Names(servers[order[i]], name.value) {
            return Some(servers[order[i]]);
          }
        }
      }
      if defaultServerId.None? {
        return None;
      }
      for i := 0 to |order|
        invariant defaultServerId.value !in order[..i]
      {
        if servers[order[i]].id == defaultServerId.value {
          return Some(servers[order[i]]);
        }
      }
      assert order[..|order|] == order;
      return None;
    }
  }

  lemma InsertKeepsValid(group: Group, server: Server)
    requires group.Valid()
    ensures Inserted(group, server).Valid()
  {
    var after := Inserted(group, server);
    forall id ensures id in after.servers <==> id in after.order {}
  }

  lemma OneMore(ids: seq<Str>, id: Str)
    requires Unique(ids) && id !in ids
    ensures Unique(ids + [id])
  {}

  lemma {:induction false} WithoutIs(order: seq<Str>, id: Str)
    requires Unique(order)
    ensures Unique(Without(order, id))
    ensures forall x :: x in Without(order, id) <==> x in order && x != id
    ensures order != [] && order[0] != id ==> Without(order, id) != [] && Without(order, id)[0] == order[0]
  {
    if order != [] {
      var front, last := order[..|order| - 1], order[|order| - 1];
      WithoutIs(front, id);
      assert order == front + [last];
      OneMore(Without(front, id), last);
      if front == [] {
        assert Without(front, id) == [];
      }
    }
  }

  lemma RemoveKeepsValid(group: Group, id: Str)
    requires group.Valid()
    ensures Removed(group, id).Valid()
  {
    WithoutIs(group.order, id);
  }

  /** The server of an index of the order. */
  predicate NamedAt(group: Group, host: Str, i: nat) {
    i < |group.order| && group.order[i] in group.servers && Names(group.servers[group.order[i]], host)
  }

  lemma {:induction false} FirstNamedIs(group: Group, host: Str, from: nat)
    ensures match FirstNamed(group, host, from)
            case None => forall i: nat | from <= i :: !NamedAt(group, host, i)
            case Some(server) =>
              exists i: nat :: from <= i && NamedAt(group, host, i) && server == group.servers[group.order[i]] &&
                forall j: nat | from <= j < i :: !NamedAt(group, host, j)
    decreases |group.order| - from
  {
    if from < |group.order| {
      if NamedAt(group, host, from) {
        assert forall j: nat | from <= j < from :: !NamedAt(group, host, j);
      } else {
        FirstNamedIs(group, host, from + 1);
      }
    }
  }

  /** A group that is not empty always answers: with the server that came first of those with the
      name that is asked for, whatever its letter case and port, and else with its default. */
  lemma GroupAnswers(group: Group, host: Option<Str>)
    requires group.Valid() && group.order != []
    ensures Selected(group, host).Some?
    ensures var name := HostOf(host);
            if name.Some? && exists i: nat :: NamedAt(group, name.value, i) then
              exists i: nat :: NamedAt(group, name.value, i) &&
                Selected(group, host) == Some(group.servers[group.order[i]]) &&
                forall j: nat | j < i :: !NamedAt(group, name.value, j)
            else Selected(group, host) == Some(group.servers[group.order[0]])
  {
    var name := HostOf(host);
    if name.Some? {
      FirstNamedIs(group, name.value, 0);
    }
    assert group.order[0] in group.servers;
  }

  // ----- Servers that come and go

  lemma {:induction false} WithoutIsPicked(order: seq<Str>, id: Str) returns (at: seq<nat>)
    ensures Picks(order, (x: Str) => x != id, Without(order, id), at)
  {
    var keep := (x: Str) => x != id;
    if order == [] {
      PicksNothing(keep);
      at := [];
    } else {
      var front, last := order[..|order| - 1], order[|order| - 1];
      at := WithoutIsPicked(front, id);
      at := PicksMore(front, last, keep, Without(front, id), at);
      FrontAndLast(order);
    }
  }

  /** Some server of the group has the name that is asked for. */
  predicate Knows(group: Group, host: Option<Str>) {
    HostOf(host).Some? && FirstNamed(group, HostOf(host).value, 0).Some?
  }

  lemma {:induction false} FirstNamedOfMore(group: Group, server: Server, host: Str, from: nat)
    requires group.Valid() && server.id !in group.servers && from <= |group.order|
    ensures FirstNamed(Inserted(group, server), host, from) ==
            if FirstNamed(group, host, from).Some? then FirstNamed(group, host, from)
            else if Names(server, host) then Some(server) else None
    decreases |group.order| - from
  {
    var after := Inserted(group, server);
    if from < |group.order| {
      assert after.order[from] == group.order[from] && group.order[from] in group.servers;
      FirstNamedOfMore(group, server, host, from + 1);
    } else {
      assert after.order[from] == server.id;
      assert FirstNamed(after, host, from + 1) == None;
    }
  }

  /** A server that joins a group answers only for names that no server there has; it changes no other
      answer, and not the default. */
  lemma JoiningAnswers(group: Group, server: Server, host: Option<Str>)
    requires group.Valid() && group.order != [] && server.id !in group.servers
    ensures Selected(Inserted(group, server), host) ==
            if !Knows(group, host) && HostOf(host).Some? && Names(server, HostOf(host).value) then Some(server)
            else Selected(group, host)
  {
    if HostOf(host).Some? {
      FirstNamedOfMore(group, server, HostOf(host).value, 0);
    }
    assert group.order[0] in group.servers;
  }

  lemma RemovedAt(group: Group, id: Str, host: Str, at: seq<nat>, j: nat)
    requires group.Valid() && Picks(group.order, (x: Str) => x != id, Without(group.order, id), at) && j < |at|
    ensures NamedAt(Removed(group, id), host, j) <==> NamedAt(group, host, at[j])
    ensures Removed(group, id).order[j] == group.order[at[j]] != id
  {
    assert PickedFrom(group.order, (x: Str) => x != id, Without(group.order, id)[j], at[j]);
  }

  lemma FirstStays(group: Group, id: Str, host: Str)
    requires group.Valid() && FirstNamed(group, host, 0).Some? && FirstNamed(group, host, 0).value.id != id
    ensures FirstNamed(Removed(group, id), host, 0) == FirstNamed(group, host, 0)
  {
    var after := Removed(group, id);
    var at := WithoutIsPicked(group.order, id);
    RemoveKeepsValid(group, id);
    FirstNamedIs(group, host, 0);
    var i: nat :| NamedAt(group, host, i) && FirstNamed(group, host, 0).value == group.servers[group.order[i]] &&
      forall j: nat | j < i :: !NamedAt(group, host, j);
    assert LeftOrPicked(group.order, (x: Str) => x != id, at, i);
    var k :| 0 <= k < |at| && at[k] == i;
    RemovedAt(group, id, host, at, k);
    FirstNamedIs(after, host, 0);
    var n: nat :| NamedAt(after, host, n) && FirstNamed(after, host, 0).value == after.servers[after.order[n]] &&
      forall j: nat | j < n :: !NamedAt(after, host, j);
    RemovedAt(group, id, host, at, n);
    assert n == k;
  }

  lemma NobodyStays(group: Group, id: Str, host: Str)
    requires group.Valid() && FirstNamed(group, host, 0).None?
    ensures FirstNamed(Removed(group, id), host, 0).None?
  {
    var after := Removed(group, id);
    var at := WithoutIsPicked(group.order, id);
    FirstNamedIs(group, host, 0);
    FirstNamedIs(after, host, 0);
    if FirstNamed(after, host, 0).Some? {
      var n: nat :| NamedAt(after, host, n);
      RemovedAt(group, id, host, at, n);
      assert false;
    }
  }

  /** A server that leaves changes no answer but its own. */
  lemma LeavingAnswers(group: Group, id: Str, host: Option<Str>)
    requires group.Valid() && Selected(group, host).Some? && Selected(group, host).value.id != id
    ensures Selected(Removed(group, id), host) == Selected(group, host)
  {
    RemoveKeepsValid(group, id);
    if HostOf(host).Some? {
      if Knows(group, host) {
        FirstStays(group, id, HostOf(host).value);
      } else {
        NobodyStays(group, id, HostOf(host).value);
      }
    }
    WithoutIs(group.order, id);
  }
}
