/** select_route: an exact match, or else the longest prefix. */
module Routes {
  import opened Prelude
  import opened Text
  import opened Config

  predicate IsExact(route: Route, path: Str) {
    route.rule.kind == 0 && route.rule.path == path
  }

  predicate IsPrefix(route: Route, path: Str) {
    route.rule.kind == 1 && route.rule.path <= path
  }

  /** The first exact match. */
  function FirstExact(routes: seq<Route>, path: Str): Option<Route> {
    if routes == [] then None
    else
      var first := FirstExact(routes[..|routes| - 1], path);
      var last := routes[|routes| - 1];
      if first.Some? then first else if IsExact(last, path) then Some(last) else None
  }

  /** max_by_key on the length of the path: of equals, the last. */
  function LongestPrefix(routes: seq<Route>, path: Str): Option<Route> {
    if routes == [] then None
    else
      var best := LongestPrefix(routes[..|routes| - 1], path);
      var last := routes[|routes| - 1];
      if IsPrefix(last, path) && (best.None? || |best.value.rule.path| <= |last.rule.path|) then Some(last)
      else best
  }

  function SelectRoute(routes: seq<Route>, path: Str): Option<Route> {
    var exact := FirstExact(routes, path);
    if exact.Some? then exact else LongestPrefix(routes, path)
  }

  /** The path begins with the route's, and the route is for that. */
  predicate Begins(route: Route, path: Str) {
    route.rule.kind == 1 && |route.rule.path| <= |path| && path[..|route.rule.path|] == route.rule.path
  }

  /** `route` is what `path` asks for: an exact match, or the longest prefix when there is none. */
  predicate Chosen(routes: seq<Route>, path: Str, route: Option<Route>) {
    match route
    case None => forall r | r in routes :: r.rule != RouteMatch(0, path) && !Begins(r, path)
    case Some(route) =>
      && route in routes
      && (route.rule == RouteMatch(0, path) ||
          (Begins(route, path) &&
           forall r | r in routes ::
             r.rule != RouteMatch(0, path) && (Begins(r, path) ==> |r.rule.path| <= |route.rule.path|)))
  }

  lemma RulesMatch(route: Route, path: Str)
    ensures IsExact(route, path) <==> route.rule == RouteMatch(0, path)
    ensures IsPrefix(route, path) <==> Begins(route, path)
  {}

  lemma {:induction false} FirstExactIs(routes: seq<Route>, path: Str)
    ensures match FirstExact(routes, path)
            case None => forall r | r in routes :: !IsExact(r, path)
            case Some(route) => route in routes && IsExact(route, path)
  {
    if routes != [] {
      var front := routes[..|routes| - 1];
      FirstExactIs(front, path);
      assert routes == front + [routes[|routes| - 1]];
    }
  }

  lemma {:induction false} LongestPrefixIs(routes: seq<Route>, path: Str)
    ensures match LongestPrefix(routes, path)
            case None => forall r | r in routes :: !IsPrefix(r, path)
            case Some(route) =>
              && route in routes && IsPrefix(route, path)
              && forall r | r in routes :: IsPrefix(r, path) ==> |r.rule.path| <= |route.rule.path|
  {
    if routes != [] {
      var front := routes[..|routes| - 1];
      LongestPrefixIs(front, path);
      assert routes == front + [routes[|routes| - 1]];
    }
  }

  /** The route selected is the one asked for. */
  lemma SelectionIsChosen(routes: seq<Route>, path: Str)
    ensures Chosen(routes, path, SelectRoute(routes, path))
  {
    FirstExactIs(routes, path);
    LongestPrefixIs(routes, path);
    forall r | r in routes
      ensures (IsExact(r, path) <==> r.rule == RouteMatch(0, path)) && (IsPrefix(r, path) <==> Begins(r, path))
    {
      RulesMatch(r, path);
    }
  }

  /** No two routes match by the same rule. */
  predicate UniqueRules(routes: seq<Route>) {
    forall i, j | 0 <= i < j < |routes| :: routes[i].rule != routes[j].rule
  }

  lemma SameRuleSameRoute(routes: seq<Route>, a: Route, b: Route)
    requires UniqueRules(routes) && a in routes && b in routes && a.rule == b.rule
    ensures a == b
  {}

  /** Prefixes of one length are one prefix. */
  lemma ChosenIsUnique(routes: seq<Route>, path: Str, a: Option<Route>, b: Option<Route>)
    requires UniqueRules(routes) && Chosen(routes, path, a) && Chosen(routes, path, b)
    ensures a == b
  {
    if a.Some? && b.Some? {
      if Begins(a.value, path) && Begins(b.value, path) {
        assert |a.value.rule.path| == |b.value.rule.path|;
        assert a.value.rule.path == path[..|a.value.rule.path|] == b.value.rule.path;
      }
      assert a.value.rule == b.value.rule;
      SameRuleSameRoute(routes, a.value, b.value);
    }
  }

  lemma ChosenFromSame(a: seq<Route>, b: seq<Route>, path: Str, route: Option<Route>)
    requires multiset(a) == multiset(b) && Chosen(a, path, route)
    ensures Chosen(b, path, route)
  {
    forall r ensures r in a <==> r in b {
      assert r in multiset(a) <==> r in multiset(b);
    }
  }

  /** As long as no rule is given twice, the order of the routes does not matter. */
  lemma OrderIsIrrelevant(routes: seq<Route>, others: seq<Route>, path: Str)
    requires UniqueRules(routes) && multiset(routes) == multiset(others)
    ensures SelectRoute(routes, path) == SelectRoute(others, path)
  {
    SelectionIsChosen(routes, path);
    SelectionIsChosen(others, path);
    ChosenFromSame(others, routes, path, SelectRoute(others, path));
    ChosenIsUnique(routes, path, SelectRoute(routes, path), SelectRoute(others, path));
  }
}
