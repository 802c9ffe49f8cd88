/** ProxyState: guards that count the requests on an upstream, and upstreams taken out of service. */
module UpstreamDrain {
  import opened Prelude
  import opened Text
  import opened Config

  datatype Retired = Retired(server: Str, upstream: Upstream)

  type Counts = map<Str, nat>

  type Retirees = map<Str, Retired>

  function Count(active: Counts, id: Str): nat {
    if id in active then active[id] else 0
  }

  function Incremented(active: Counts, id: Str): Counts {
    active[id := Count(active, id) + 1]
  }

  /** A count that comes to zero leaves the map. */
  function Decremented(active: Counts, id: Str): Counts {
    if Count(active, id) <= 1 then active - {id} else active[id := active[id] - 1]
  }

  predicate Listed(upstreams: seq<Upstream>, id: Str) {
    exists i | 0 <= i < |upstreams| :: upstreams[i].id == id
  }

  /** What a reload makes of one upstream of the old configuration. */
  function Reconciled(retired: Retirees, active: Counts, server: Str, former: Upstream, next: seq<Upstream>): Retirees {
    if Listed(next, former.id) then retired - {former.id}
    else if Count(active, former.id) > 0 then retired[former.id := Retired(server, former)]
    else retired
  }

  function ReconciledAll(retired: Retirees, active: Counts, server: Str, former: seq<Upstream>, next: seq<Upstream>)
    : Retirees
  {
    if former == [] then retired
    else Reconciled(ReconciledAll(retired, active, server, former[..|former| - 1], next), active, server,
                    former[|former| - 1], next)
  }

  datatype Status = Deading | Dead

  function StatusOf(active: Counts, id: Str): Status {
    if Count(active, id) > 0 then Deading else Dead
  }

  class ProxyState {
    var active: Counts
    var retired: Retirees

    /** No count is kept at zero. */
    predicate Valid()
      reads this
    {
      forall id | id in active :: active[id] > 0
    }

    constructor ()
      ensures Valid() && active == map[] && retired == map[]
    {
      active, retired := map[], map[];
    }

    method IncrementUpstreamRequest(id: Str)
      requires Valid()
      modifies this`active
      ensures Valid() && active == Incremented(old(active), id)
    {
      if id !in active {
        active := active[id := 0];
      }
      active := active[id := active[id] + 1];
    }

    method DecrementUpstreamRequest(id: Str)
      requires Valid()
      modifies this`active
      ensures Valid() && active == Decremented(old(active), id)
    {
      if id !in active {
        assert active - {id} == active;
        return;
      }
      var count := active[id];
      active := active[id := if count > 0 then count - 1 else 0];
      if active[id] == 0 {
        assert active - {id} == old(active) - {id};
        active := active - {id};
      }
    }

    method ActiveUpstreamRequestCount(id: Str) returns (count: nat)
      ensures count == Count(active, id)
    {
      return if id in active then active[id] else 0;
    }

    /** reconcile_upstreams, undisturbed. */
    method ReconcileUpstreams(server: Str, former: seq<Upstream>, next: seq<Upstream>)
      modifies this`retired
      ensures retired == ReconciledAll(old(retired), active, server, former, next)
    {
      for i := 0 to |former|
        invariant retired == ReconciledAll(old(retired), active, server, former[..i], next)
      {
        assert former[..i + 1][..i] == former[..i];
        if Listed(next, former[i].id) {
          retired := retired - {former[i].id};
          continue;
        }
        var count := ActiveUpstreamRequestCount(former[i].id);
        if count > 0 {
          retired := retired[former[i].id := Retired(server, former[i])];
        }
      }
      assert former[..|former|] == former;
    }

    /** retired_upstream_info: the status of a retired upstream of this server. */
    method RetiredUpstreamInfo(server: Str, id: Str) returns (status: Option<Status>)
      ensures status == if id in retired && retired[id].server == server then Some(StatusOf(active, id)) else None
    {
      if id !in retired || retired[id].server != server {
        return None;
      }
      var count := ActiveUpstreamRequestCount(id);
      return Some(if count > 0 then Deading else Dead);
    }
  }

  /** It is listed under the server, as it was configured. */
  predicate ListedAs(after: Retirees, id: Str, server: Str, former: seq<Upstream>) {
    id in after && after[id].server == server && after[id].upstream in former && after[id].upstream.id == id
  }

  /** An undisturbed reload lists exactly the removed upstreams that are in use, those listed
      before included, and unlists those that came back. */
  lemma {:induction false} ReconcileLists(retired: Retirees, active: Counts, server: Str, former: seq<Upstream>,
                                          next: seq<Upstream>, id: Str)
    ensures var after := ReconciledAll(retired, active, server, former, next);
            id in after <==>
            if !Listed(former, id) then id in retired
            else !Listed(next, id) && (Count(active, id) > 0 || id in retired)
    ensures var after := ReconciledAll(retired, active, server, former, next);
            id in after ==>
              if Listed(former, id) && Count(active, id) > 0 then ListedAs(after, id, server, former)
              else id in retired && after[id] == retired[id]
  {
    if former != [] {
      var front, last := former[..|former| - 1], former[|former| - 1];
      ReconcileLists(retired, active, server, front, next, id);
      ListedLast(former, id);
    }
  }

  lemma ListedLast(upstreams: seq<Upstream>, id: Str)
    requires upstreams != []
    ensures Listed(upstreams, id) <==>
            Listed(upstreams[..|upstreams| - 1], id) || upstreams[|upstreams| - 1].id == id
  {
    var n := |upstreams| - 1;
    if Listed(upstreams, id) {
      var i :| 0 <= i < |upstreams| && upstreams[i].id == id;
      if i < n {
        assert upstreams[..n][i].id == id;
      }
    }
    if Listed(upstreams[..n], id) {
      var i :| 0 <= i < n && upstreams[..n][i].id == id;
      assert upstreams[i].id == id;
    }
  }
}
