/**
 * The `Routing` component: the table of routes by cookie, cookie allocation,
 * adding, updating and deleting routes together with their flow entries and
 * the cookie lists of the links they cross, bidirectional route creation, and
 * the bandwidth-aware choice of links.
 */
module RouteStore {
  import opened Wrappers
  import opened Network
  import opened RoutePaths
  import opened Routes
  import opened LinkCookies
  import Allocation
  import Dijkstra
  import BwGraph

  /** A batch of flow-table operations sent to the switches, by switch. */
  datatype FlowOp = Install(entries: map<int, Entry>) | Remove(entries: map<int, Entry>)

  /** Events the component raises. */
  datatype RouteEvent = RouteChanged(oldRoute: Route, newRoute: Route)

  /** `routeExists`: the stored route under cookie `c`, None when absent or only reserved. */
  function Existing(routes: map<int, Option<Route>>, c: int): Option<Route>
  {
    if c in routes then routes[c] else None
  }

  /**
   * The bandwidth comparison of `addRoute`: only when both condition
   * dictionaries are truthy, a KeyError when either lacks the bandwidth key,
   * and otherwise whether the two values (a number or None) differ.
   */
  function BandwidthChanged(a: Option<Conditions>, b: Option<Conditions>): (r: Result<bool>)
    ensures r.Err? <==> Truthy(a) && Truthy(b) && (a.value.bandwidth.None? || b.value.bandwidth.None?)
    ensures r.Err? ==> r.error == "KeyError"
    ensures r.Ok? && Truthy(a) && Truthy(b) ==> (r.value <==> a.value.Bw() != b.value.Bw())
    ensures !Truthy(a) || !Truthy(b) ==> r == Ok(false)
  {
    if !(Truthy(a) && Truthy(b)) then Ok(false)
    else if a.value.bandwidth.None? || b.value.bandwidth.None? then Err("KeyError")
    else Ok(a.value.bandwidth.value != b.value.bandwidth.value)
  }

  /**
   * `updateRoute` keeps the old entry on switch `sw` when the new route has an
   * entry there whose match covers the old one and whose actions are the same.
   */
  predicate Kept(prior: Entry, sw: int, newEntries: map<int, Entry>)
  {
    sw in newEntries && Covers(newEntries[sw].fields, prior.fields) && newEntries[sw].actions == prior.actions
  }

  /** The old entries `updateRoute` removes with `remove_strict`. */
  function StaleEntries(oldEntries: map<int, Entry>, newEntries: map<int, Entry>): map<int, Entry>
  {
    map sw | sw in oldEntries && !Kept(oldEntries[sw], sw, newEntries) :: oldEntries[sw]
  }

  /** Replacing a route by a restamped copy of itself removes nothing. */
  lemma RestampKeepsAll(entries: map<int, Entry>, c: int)
    ensures StaleEntries(entries, StampEntries(entries, c)) == map[]
  {
    forall sw | sw in entries
      ensures Kept(entries[sw], sw, StampEntries(entries, c))
    {
      var f := entries[sw].fields;
      assert StampEntries(entries, c)[sw].fields == f;
      assert Covers(f, f);
    }
  }

  /** The cookie lists after `updateRoute`: unchanged when identical, the cookie moved otherwise. */
  function UpdatedCookies(t: CookieTable, prior: Route, updated: Route): CookieTable
  {
    if StaleEntries(prior.entries, updated.entries) == map[] then t
    else AddOnLinks(DropOnLinks(t, prior.links, prior.cookie), updated.links, updated.cookie)
  }

  /** The flow operations of `updateRoute`: none when nothing is stale. */
  function UpdateFlows(prior: Route, updated: Route): seq<FlowOp>
  {
    var stale := StaleEntries(prior.entries, updated.entries);
    if stale == map[] then [] else [Remove(stale), Install(updated.entries)]
  }

  /** `route` as `addRoute` stores it under cookie `c`. */
  function Stamped(route: Route, c: int): Route
  {
    route.(cookie := c, entries := StampEntries(route.entries, c))
  }

  /** `order` lists the table's cookies once each: the dictionary's iteration order. */
  predicate ListsKeys(order: seq<int>, routes: map<int, Option<Route>>)
  {
    Distinct(order) && (forall i :: 0 <= i < |order| ==> order[i] in routes) && (forall k :: k in routes ==> k in order)
  }

  /** A stored route on `path` (`r.path == path` in `delPath`). */
  predicate OnPath(v: Option<Route>, path: IpPath)
  {
    v.Some? && SamePath(v.value.path, path)
  }

  /**
   * `delPath`'s effect on the link cookie lists: the cookie of every route on
   * `path`, visited in `order`, removed from its links; AttributeError at a
   * cookie that is only reserved, ValueError from a link missing a cookie.
   */
  function PathCookies(t: CookieTable, routes: map<int, Option<Route>>, order: seq<int>, path: IpPath): Result<CookieTable>
    requires forall i :: 0 <= i < |order| ==> order[i] in routes
    decreases |order|
  {
    if order == [] then Ok(t)
    else
      var v := routes[order[0]];
      if v.None? then Err("AttributeError")
      else if !SamePath(v.value.path, path) then PathCookies(t, routes, order[1..], path)
      else
        match RemoveOnLinks(t, v.value.links, v.value.cookie)
        case Err(e) => Err(e)
        case Ok(t1) => PathCookies(t1, routes, order[1..], path)
  }

  /** The entries `delPath` removes from the switches: those of every route on `path`, in `order`. */
  function PathFlows(routes: map<int, Option<Route>>, order: seq<int>, path: IpPath): seq<FlowOp>
    requires forall i :: 0 <= i < |order| ==> order[i] in routes
    decreases |order|
  {
    if order == [] then []
    else
      var last := routes[order[|order| - 1]];
      PathFlows(routes, order[..|order| - 1], path) + (if OnPath(last, path) then [Remove(last.value.entries)] else [])
  }

  /** The routes `delPath` leaves after visiting `order`: those on `path` are gone. */
  ghost function Surviving(routes: map<int, Option<Route>>, order: seq<int>, path: IpPath): map<int, Option<Route>>
    decreases |order|
  {
    if order == [] then routes
    else
      var before := Surviving(routes, order[..|order| - 1], path);
      var k := order[|order| - 1];
      if k in routes && OnPath(routes[k], path) then before - {k} else before
  }

  /** A route is kept exactly when it is not on `path` or was not visited, and it is kept unchanged. */
  lemma {:induction false} SurvivingMembers(routes: map<int, Option<Route>>, order: seq<int>, path: IpPath, k: int)
    ensures k in Surviving(routes, order, path) <==> k in routes && !(k in order && OnPath(routes[k], path))
    ensures k in Surviving(routes, order, path) ==> Surviving(routes, order, path)[k] == routes[k]
    decreases |order|
  {
    if order != [] {
      SurvivingMembers(routes, order[..|order| - 1], path, k);
      assert order == order[..|order| - 1] + [order[|order| - 1]];
    }
  }

  /** A successful `delPath` met only stored routes. */
  lemma {:induction false} PathCookiesVisitsSome(t: CookieTable, routes: map<int, Option<Route>>, order: seq<int>, path: IpPath)
    requires forall i :: 0 <= i < |order| ==> order[i] in routes
    requires PathCookies(t, routes, order, path).Ok?
    ensures forall i :: 0 <= i < |order| ==> routes[order[i]].Some?
    decreases |order|
  {
    if order != [] {
      var v := routes[order[0]];
      assert forall i :: 1 <= i < |order| ==> order[i] == order[1..][i - 1];
      if !SamePath(v.value.path, path) {
        PathCookiesVisitsSome(t, routes, order[1..], path);
      } else {
        PathCookiesVisitsSome(RemoveOnLinks(t, v.value.links, v.value.cookie).value, routes, order[1..], path);
      }
    }
  }

  /**
   * The keywords `createBiRoute` passes for the return route: the inverted
   * request without a truthy conditions entry; AttributeError when there were
   * no keywords to invert.
   */
  function ReturnRequest(req: Request, known: set<LinkKey>): (r: Result<Request>)
    ensures r.Ok? ==> !TruthyValue(Get(r.value, ConditionsKey))
    ensures r.Ok? ==> forall k :: k != Gateway && k != SrcDpid && k != InPort && k != Via && k != ConditionsKey ==>
              (k in r.value <==> Partner(k) in req) && (k in r.value ==> r.value[k] == req[Partner(k)])
    ensures |req| == 0 ==> r == Err("AttributeError")
  {
    match InvertRouteDict(req, known)
    case Err(e) => Err(e)
    case Ok(inv) =>
      if inv.None? then Err("AttributeError")
      else if TruthyValue(Get(inv.value, ConditionsKey)) then Ok(inv.value - {ConditionsKey})
      else Ok(inv.value)
  }

  /**
   * When a route keeps its cookie, a changed route leaves the cookie on exactly
   * its new links: present on each, removed from the links it no longer uses,
   * and no list of another link touched.
   */
  lemma MoveCookie(t: CookieTable, oldLinks: seq<LinkKey>, newLinks: seq<LinkKey>, c: int)
    requires forall l :: multiset(CookiesOf(t, l))[c] <= 1
    ensures var r := AddOnLinks(DropOnLinks(t, oldLinks, c), newLinks, c);
            (forall l :: l in newLinks ==> c in CookiesOf(r, l)) &&
            (forall l :: l in oldLinks && l !in newLinks ==> c !in CookiesOf(r, l)) &&
            (forall l :: l !in oldLinks && l !in newLinks ==> CookiesOf(r, l) == CookiesOf(t, l))
  {
    DropOnLinksClears(t, oldLinks, c);
  }

  /** Every edge `u -> v` of the graph is backed by a known link from `u` to `v`. */
  ghost predicate EdgesKnown(g: Dijkstra.Graph, links: seq<LinkKey>)
  {
    forall u, v :: u in g && v in g[u] ==> exists j :: 0 <= j < |links| && links[j].dpid1 == u && links[j].dpid2 == v
  }

  /**
   * `Routing`: routes by cookie (a reserved cookie maps to None), the pairs
   * of cookies `createBiRoute` links, the last issued cookie, the request for
   * a rebalancing, and the cookie list of every link. The flow operations sent
   * to the switches and the raised events are recorded as logs.
   */
  class Routing {
    var routes: map<int, Option<Route>>
    var routePair: map<int, int>
    var previousCookie: int
    var optimizeRequested: bool
    var linkCookies: CookieTable
    const forceRoute: bool
    ghost var flowLog: seq<FlowOp>
    ghost var events: seq<RouteEvent>

    /** Cookies are issued in 1 .. 65535, and a stored route carries its own cookie. */
    ghost predicate Valid()
      reads this
    {
      0 <= previousCookie < Allocation.Modulus &&
      (forall c :: c in routes ==> 0 < c < Allocation.Modulus) &&
      (forall c :: c in routes && routes[c].Some? ==> routes[c].value.cookie == c)
    }

    constructor(forceRoute: bool)
      ensures Valid()
      ensures routes == map[] && routePair == map[] && previousCookie == 0 && !optimizeRequested
      ensures linkCookies == map[] && this.forceRoute == forceRoute && flowLog == [] && events == []
    {
      routes := map[];
      routePair := map[];
      previousCookie := 0;
      optimizeRequested := false;
      linkCookies := map[];
      this.forceRoute := forceRoute;
      flowLog := [];
      events := [];
    }

    /**
     * `reserveCookie`: probe the 65534 values after the previous cookie, wrapping
     * at 65536 and skipping 0, and reserve the first one not in the table.
     */
    method ReserveCookie() returns (c: Option<int>)
      requires Valid()
      modifies this
      ensures Valid()
      ensures c == Allocation.FirstFree(old(routes).Keys, old(previousCookie))
      ensures c.Some? ==> routes == old(routes)[c.value := None] && previousCookie == c.value
      ensures c.None? ==> unchanged(this)
      ensures routePair == old(routePair) && optimizeRequested == old(optimizeRequested)
      ensures linkCookies == old(linkCookies) && flowLog == old(flowLog) && events == old(events)
    {
      var k := 1;
      while k < Allocation.Span
        invariant 1 <= k <= Allocation.Span
        invariant Allocation.FirstFree(routes.Keys, previousCookie) == Allocation.ScanFrom(routes.Keys, previousCookie, k)
        decreases Allocation.Span - k
      {
        var candidate := (previousCookie + k) % Allocation.Modulus;
        if candidate != 0 && candidate !in routes {
          routes := routes[candidate := None];
          previousCookie := candidate;
          return Some(candidate);
        }
        k := k + 1;
      }
      return None;
    }

    /** `releaseCookie`: forget the cookie; an unknown cookie is only logged. */
    method ReleaseCookie(c: int)
      requires Valid()
      modifies this
      ensures Valid()
      ensures routes == old(routes) - {c}
      ensures routePair == old(routePair) && previousCookie == old(previousCookie) && optimizeRequested == old(optimizeRequested)
      ensures linkCookies == old(linkCookies) && flowLog == old(flowLog) && events == old(events)
    {
      routes := routes - {c};
    }

    /** `for link in links: link.cookies.append(c)`. */
    method AppendCookie(links: seq<LinkKey>, c: int)
      modifies this
      ensures linkCookies == AppendOnLinks(old(linkCookies), links, c)
      ensures routes == old(routes) && routePair == old(routePair) && previousCookie == old(previousCookie)
      ensures optimizeRequested == old(optimizeRequested) && flowLog == old(flowLog) && events == old(events)
    {
      var i := 0;
      while i < |links|
        invariant 0 <= i <= |links|
        invariant AppendOnLinks(linkCookies, links[i..], c) == AppendOnLinks(old(linkCookies), links, c)
        invariant routes == old(routes) && routePair == old(routePair) && previousCookie == old(previousCookie)
        invariant optimizeRequested == old(optimizeRequested) && flowLog == old(flowLog) && events == old(events)
      {
        assert links[i..][1..] == links[i + 1..];
        linkCookies := linkCookies[links[i] := CookiesOf(linkCookies, links[i]) + [c]];
        i := i + 1;
      }
    }

    /** `for link in links: link.cookies.remove(c)`: stops with ValueError at a link without `c`. */
    method RemoveCookie(links: seq<LinkKey>, c: int) returns (ok: bool)
      modifies this
      ensures ok <==> RemoveOnLinks(old(linkCookies), links, c).Ok?
      ensures ok ==> linkCookies == RemoveOnLinks(old(linkCookies), links, c).value
      ensures !ok ==> linkCookies == RemoveUntilFailure(old(linkCookies), links, c)
      ensures routes == old(routes) && routePair == old(routePair) && previousCookie == old(previousCookie)
      ensures optimizeRequested == old(optimizeRequested) && flowLog == old(flowLog) && events == old(events)
    {
      var i := 0;
      while i < |links|
        invariant 0 <= i <= |links|
        invariant RemoveOnLinks(linkCookies, links[i..], c) == RemoveOnLinks(old(linkCookies), links, c)
        invariant RemoveUntilFailure(linkCookies, links[i..], c) == RemoveUntilFailure(old(linkCookies), links, c)
        invariant routes == old(routes) && routePair == old(routePair) && previousCookie == old(previousCookie)
        invariant optimizeRequested == old(optimizeRequested) && flowLog == old(flowLog) && events == old(events)
      {
        assert links[i..][1..] == links[i + 1..];
        var rest := RemoveFirst(CookiesOf(linkCookies, links[i]), c);
        if rest.Err? {
          return false;
        }
        linkCookies := linkCookies[links[i] := rest.value];
        i := i + 1;
      }
      return true;
    }

    /** `updateRoute`'s loop over the old links: remove the old cookie where present. */
    method DropCookie(links: seq<LinkKey>, c: int)
      modifies this
      ensures linkCookies == DropOnLinks(old(linkCookies), links, c)
      ensures routes == old(routes) && routePair == old(routePair) && previousCookie == old(previousCookie)
      ensures optimizeRequested == old(optimizeRequested) && flowLog == old(flowLog) && events == old(events)
    {
      var i := 0;
      while i < |links|
        invariant 0 <= i <= |links|
        invariant DropOnLinks(linkCookies, links[i..], c) == DropOnLinks(old(linkCookies), links, c)
        invariant routes == old(routes) && routePair == old(routePair) && previousCookie == old(previousCookie)
        invariant optimizeRequested == old(optimizeRequested) && flowLog == old(flowLog) && events == old(events)
      {
        assert links[i..][1..] == links[i + 1..];
        linkCookies := linkCookies[links[i] := DropFirst(CookiesOf(linkCookies, links[i]), c)];
        i := i + 1;
      }
    }

    /** `updateRoute`'s loop over the new links: append the new cookie where missing. */
    method AddCookie(links: seq<LinkKey>, c: int)
      modifies this
      ensures linkCookies == AddOnLinks(old(linkCookies), links, c)
      ensures routes == old(routes) && routePair == old(routePair) && previousCookie == old(previousCookie)
      ensures optimizeRequested == old(optimizeRequested) && flowLog == old(flowLog) && events == old(events)
    {
      var i := 0;
      while i < |links|
        invariant 0 <= i <= |links|
        invariant AddOnLinks(linkCookies, links[i..], c) == AddOnLinks(old(linkCookies), links, c)
        invariant routes == old(routes) && routePair == old(routePair) && previousCookie == old(previousCookie)
        invariant optimizeRequested == old(optimizeRequested) && flowLog == old(flowLog) && events == old(events)
      {
        assert links[i..][1..] == links[i + 1..];
        var cs := CookiesOf(linkCookies, links[i]);
        if c !in cs {
          linkCookies := linkCookies[links[i] := cs + [c]];
        }
        i := i + 1;
      }
    }

    /**
     * `updateRoute`: remove every old entry the new route does not keep; when
     * one was removed, install the new entries, move the cookie from the old
     * links to the new ones and raise RouteChanged.
     */
    method UpdateRoute(prior: Route, updated: Route) returns (identical: bool)
      requires Valid()
      modifies this
      ensures Valid()
      ensures identical <==> StaleEntries(prior.entries, updated.entries) == map[]
      ensures linkCookies == UpdatedCookies(old(linkCookies), prior, updated)
      ensures flowLog == old(flowLog) + UpdateFlows(prior, updated)
      ensures events == old(events) + (if identical then [] else [RouteChanged(prior, updated)])
      ensures routes == old(routes) && routePair == old(routePair) && previousCookie == old(previousCookie)
      ensures optimizeRequested == old(optimizeRequested)
    {
      identical := true;
      var stale: map<int, Entry> := map[];
      var todo := prior.entries.Keys;
      while todo != {}
        invariant todo <= prior.entries.Keys
        invariant forall sw :: sw in stale <==> sw in prior.entries && sw !in todo && !Kept(prior.entries[sw], sw, updated.entries)
        invariant forall sw :: sw in stale ==> stale[sw] == prior.entries[sw]
        invariant identical <==> stale.Keys == {}
        invariant unchanged(this)
        decreases todo
      {
        ghost var w := Pick(todo);
        var sw :| sw in todo;
        if !Kept(prior.entries[sw], sw, updated.entries) {
          stale := stale[sw := prior.entries[sw]];
          identical := false;
        }
        todo := todo - {sw};
      }
      var expected := StaleEntries(prior.entries, updated.entries);
      forall sw
        ensures sw in stale <==> sw in expected
      {
        assert sw in expected <==> sw in prior.entries && !Kept(prior.entries[sw], sw, updated.entries);
      }
      assert stale.Keys == expected.Keys;
      assert stale == expected;
      if identical {
        assert expected == map[];
        return;
      }
      assert expected != map[] by {
        var w :| w in stale.Keys;
        assert w in expected;
      }
      flowLog := flowLog + [Remove(stale), Install(updated.entries)];
      DropCookie(prior.links, prior.cookie);
      AddCookie(updated.links, updated.cookie);
      events := events + [RouteChanged(prior, updated)];
    }

    /**
     * `addRoute`: a route whose cookie names a stored route replaces it, keeps
     * that cookie, requests a rebalancing when the reserved bandwidth changed,
     * and updates flows and link cookies as `updateRoute` does; any other
     * route gets a fresh cookie, is appended to its links' cookie lists,
     * stored, and its entries installed. Every entry carries the cookie.
     * Nothing changes on an error: the KeyError of a condition dictionary
     * without bandwidth, or the TypeError of logging the None cookie when no
     * cookie is free.
     */
    method AddRoute(route: Route) returns (r: Result<Route>)
      requires Valid()
      modifies this
      ensures Valid()
      ensures r.Err? ==> unchanged(this)
      ensures r.Ok? ==> r.value == Stamped(route, r.value.cookie) && routes == old(routes)[r.value.cookie := Some(r.value)]
      ensures routePair == old(routePair)
      ensures var prior := Existing(old(routes), route.cookie);
              prior.Some? ==>
                match BandwidthChanged(prior.value.conditions, route.conditions)
                case Err(e) => r == Err(e)
                case Ok(changed) =>
                  r == Ok(Stamped(route, route.cookie)) &&
                  optimizeRequested == (old(optimizeRequested) || changed) &&
                  previousCookie == old(previousCookie) &&
                  linkCookies == UpdatedCookies(old(linkCookies), prior.value, r.value) &&
                  flowLog == old(flowLog) + UpdateFlows(prior.value, r.value) &&
                  events == old(events) + (if UpdateFlows(prior.value, r.value) == [] then [] else [RouteChanged(prior.value, r.value)])
      ensures var c := Allocation.FirstFree(old(routes).Keys, old(previousCookie));
              Existing(old(routes), route.cookie).None? ==>
                (c.None? ==> r == Err("TypeError")) &&
                (c.Some? ==>
                   r == Ok(Stamped(route, c.value)) && previousCookie == c.value &&
                   optimizeRequested == old(optimizeRequested) &&
                   linkCookies == AppendOnLinks(old(linkCookies), route.links, c.value) &&
                   flowLog == old(flowLog) + [Install(r.value.entries)] && events == old(events))
    {
      var prior := Existing(routes, route.cookie);
      if prior.Some? {
        var c := prior.value.cookie;
        var changed := BandwidthChanged(prior.value.conditions, route.conditions);
        if changed.Err? {
          return Err(changed.error);
        }
        var stamped := Stamped(route, c);
        if changed.value {
          optimizeRequested := true;
        }
        var _ := UpdateRoute(prior.value, stamped);
        routes := routes[c := Some(stamped)];
        return Ok(stamped);
      }
      var c := ReserveCookie();
      if c.None? {
        return Err("TypeError");
      }
      var stamped := Stamped(route, c.value);
      AppendCookie(route.links, c.value);
      routes := routes[c.value := Some(stamped)];
      flowLog := flowLog + [Install(stamped.entries)];
      return Ok(stamped);
    }

    /**
     * `delRoute`: remove the route's cookie from each of its links (ValueError
     * at the first link without it, the earlier links already changed), remove
     * its entries from the switches, then delete the cookie from the table
     * (KeyError when absent).
     */
    method DelRoute(route: Route) returns (r: Result<()>)
      requires Valid()
      modifies this
      ensures Valid()
      ensures var removed := RemoveOnLinks(old(linkCookies), route.links, route.cookie);
              (removed.Err? ==> r == Err("ValueError") && routes == old(routes) && flowLog == old(flowLog) &&
                                 linkCookies == RemoveUntilFailure(old(linkCookies), route.links, route.cookie)) &&
              (removed.Ok? ==>
                 linkCookies == removed.value && flowLog == old(flowLog) + [Remove(route.entries)] &&
                 (route.cookie in old(routes) ==> r == Ok(()) && routes == old(routes) - {route.cookie}) &&
                 (route.cookie !in old(routes) ==> r == Err("KeyError") && routes == old(routes)))
      ensures r.Ok? ==> flowLog == old(flowLog) + [Remove(route.entries)] && routes == old(routes) - {route.cookie}
      ensures routePair == old(routePair) && previousCookie == old(previousCookie)
      ensures optimizeRequested == old(optimizeRequested) && events == old(events)
    {
      var ok := RemoveCookie(route.links, route.cookie);
      if !ok {
        return Err("ValueError");
      }
      flowLog := flowLog + [Remove(route.entries)];
      if route.cookie !in routes {
        return Err("KeyError");
      }
      routes := routes - {route.cookie};
      return Ok(());
    }

    /**
     * `delPath`: delete every route on `path`, visiting the table in `order`
     * (the dictionary's iteration order). A cookie that is only reserved
     * raises AttributeError; a failing `delRoute` stops the loop.
     */
    method DelPath(path: IpPath, order: seq<int>) returns (r: Result<()>)
      requires Valid()
      requires ListsKeys(order, routes)
      modifies this
      ensures Valid()
      ensures r.Ok? <==> PathCookies(old(linkCookies), old(routes), order, path).Ok?
      ensures r.Ok? ==> linkCookies == PathCookies(old(linkCookies), old(routes), order, path).value
      ensures r.Ok? ==> forall k :: k in old(routes) ==> old(routes)[k].Some?
      ensures r.Ok? ==> forall k :: k in routes <==> k in old(routes) && !OnPath(old(routes)[k], path)
      ensures r.Ok? ==> forall k :: k in routes ==> routes[k] == old(routes)[k]
      ensures r.Ok? ==> flowLog == old(flowLog) + PathFlows(old(routes), order, path)
      ensures routePair == old(routePair) && previousCookie == old(previousCookie)
      ensures optimizeRequested == old(optimizeRequested) && events == old(events)
    {
      var snapshot := routes;
      ghost var goal := PathCookies(old(linkCookies), snapshot, order, path);
      var i := 0;
      while i < |order|
        invariant 0 <= i <= |order|
        invariant Valid() && snapshot == old(routes)
        invariant PathCookies(linkCookies, snapshot, order[i..], path) == goal
        invariant flowLog == old(flowLog) + PathFlows(snapshot, order[..i], path)
        invariant routes == Surviving(snapshot, order[..i], path)
        invariant routePair == old(routePair) && previousCookie == old(previousCookie)
        invariant optimizeRequested == old(optimizeRequested) && events == old(events)
      {
        r := DelPathVisit(path, order, i, snapshot, goal, old(flowLog));
        if r.Err? {
          return r;
        }
        i := i + 1;
      }
      assert order[i..] == [] && order[..i] == order;
      PathCookiesVisitsSome(old(linkCookies), snapshot, order, path);
      forall k
        ensures k in routes <==> k in old(routes) && !OnPath(old(routes)[k], path)
        ensures k in routes ==> routes[k] == old(routes)[k]
      {
        SurvivingMembers(snapshot, order, path, k);
      }
      return Ok(());
    }

    /** One turn of `delPath`'s loop: the route under `order[i]`. */
    method DelPathVisit(path: IpPath, order: seq<int>, i: nat, snapshot: map<int, Option<Route>>,
                        ghost goal: Result<CookieTable>, ghost log: seq<FlowOp>) returns (r: Result<()>)
      requires Valid() && ListsKeys(order, snapshot) && i < |order|
      requires PathCookies(linkCookies, snapshot, order[i..], path) == goal
      requires flowLog == log + PathFlows(snapshot, order[..i], path)
      requires routes == Surviving(snapshot, order[..i], path)
      modifies this
      ensures Valid()
      ensures r.Err? ==> goal.Err?
      ensures r.Ok? ==> PathCookies(linkCookies, snapshot, order[i + 1..], path) == goal
      ensures r.Ok? ==> flowLog == log + PathFlows(snapshot, order[..i + 1], path)
      ensures r.Ok? ==> routes == Surviving(snapshot, order[..i + 1], path)
      ensures routePair == old(routePair) && previousCookie == old(previousCookie)
      ensures optimizeRequested == old(optimizeRequested) && events == old(events)
    {
      var k := order[i];
      var v := snapshot[k];
      ghost var rest := order[i..];
      assert rest[0] == k && rest[1..] == order[i + 1..];
      if v.None? {
        return Err("AttributeError");
      }
      assert order[..i + 1][..i] == order[..i] && order[..i + 1][i] == k;
      ghost var flowsBefore := PathFlows(snapshot, order[..i], path);
      assert PathFlows(snapshot, order[..i + 1], path) == flowsBefore + (if OnPath(v, path) then [Remove(v.value.entries)] else []);
      if SamePath(v.value.path, path) {
        assert k !in order[..i] by {
          forall j | 0 <= j < i
            ensures order[j] != k
          {
            assert order[j] != order[i];
          }
        }
        SurvivingMembers(snapshot, order[..i], path, k);
        r := DelPathRoute(v.value);
        if r.Err? {
          return r;
        }
        assert log + flowsBefore + [Remove(v.value.entries)] == log + (flowsBefore + [Remove(v.value.entries)]);
      } else {
        assert flowsBefore + [] == flowsBefore;
        r := Ok(());
      }
    }

    /** `delRoute` on a stored route, as `delPath`'s loop uses it. */
    method DelPathRoute(route: Route) returns (r: Result<()>)
      requires Valid() && route.cookie in routes
      modifies this
      ensures Valid()
      ensures r.Ok? <==> RemoveOnLinks(old(linkCookies), route.links, route.cookie).Ok?
      ensures r.Ok? ==> linkCookies == RemoveOnLinks(old(linkCookies), route.links, route.cookie).value
      ensures r.Ok? ==> flowLog == old(flowLog) + [Remove(route.entries)] && routes == old(routes) - {route.cookie}
      ensures routePair == old(routePair) && previousCookie == old(previousCookie)
      ensures optimizeRequested == old(optimizeRequested) && events == old(events)
    {
      r := DelRoute(route);
    }

    /**
     * `createBiRoute`: `routeA` is what `createRoute` made for the request and
     * `createB` stands for `createRoute` in the other direction. The return
     * route is created from the inverted request; a truthy `cookie` keyword
     * names the pair to replace (KeyError when it is not a known pair); both
     * routes are added and paired.
     */
    method CreateBiRoute(routeA: Option<Route>, req: Request, known: set<LinkKey>, createB: Request -> Option<Route>)
      returns (r: Result<(Option<Route>, Option<Route>)>)
      requires Valid()
      modifies this
      ensures Valid()
      ensures routeA.None? ==> r == Ok((None, None)) && unchanged(this)
      ensures routeA.Some? && ReturnRequest(req, known).Err? ==> r == Err(ReturnRequest(req, known).error) && unchanged(this)
      ensures routeA.Some? && ReturnRequest(req, known).Ok? && createB(ReturnRequest(req, known).value).None? ==>
                r == Ok((None, None)) && unchanged(this)
      ensures var ck := Get(req, CookieKey);
              routeA.Some? && ReturnRequest(req, known).Ok? && createB(ReturnRequest(req, known).value).Some? &&
              TruthyValue(ck) && !(ck.Num? && ck.n in old(routePair)) ==>
                r == Err("KeyError") && unchanged(this)
      ensures r.Ok? ==> (r.value.0.Some? <==> r.value.1.Some?)
      ensures r.Ok? && r.value.0.Some? ==>
                routeA.Some? && ReturnRequest(req, known).Ok? && createB(ReturnRequest(req, known).value).Some? &&
                var a := r.value.0.value;
                var b := r.value.1.value;
                var made := createB(ReturnRequest(req, known).value).value;
                a.path == routeA.value.path && a.links == routeA.value.links &&
                b.path == made.path && b.links == made.links &&
                routePair == old(routePair)[a.cookie := b.cookie] &&
                a.cookie in routes && b.cookie in routes && routes[b.cookie] == Some(b)
      ensures var ck := Get(req, CookieKey);
              r.Ok? && r.value.0.Some? && TruthyValue(ck) && ck.Num? && Existing(old(routes), ck.n).Some? ==>
                r.value.0.value.cookie == ck.n
    {
      if routeA.None? {
        return Ok((None, None));
      }
      var inverted := ReturnRequest(req, known);
      if inverted.Err? {
        return Err(inverted.error);
      }
      var routeB := createB(inverted.value);
      if routeB.None? {
        return Ok((None, None));
      }
      var a := routeA.value;
      var b := routeB.value;
      var ck := Get(req, CookieKey);
      if TruthyValue(ck) {
        if !ck.Num? || ck.n !in routePair {
          return Err("KeyError");
        }
        a := a.(cookie := ck.n);
        b := b.(cookie := routePair[ck.n]);
      }
      var added := AddPair(a, b);
      if added.Err? {
        return Err(added.error);
      }
      return Ok((Some(added.value.0), Some(added.value.1)));
    }

    /** The tail of `createBiRoute`: add both routes and pair the first's cookie with the second's. */
    method AddPair(a: Route, b: Route) returns (r: Result<(Route, Route)>)
      requires Valid()
      modifies this
      ensures Valid()
      ensures r.Ok? ==> r.value.0.path == a.path && r.value.0.links == a.links
      ensures r.Ok? ==> r.value.1.path == b.path && r.value.1.links == b.links
      ensures r.Ok? ==> routePair == old(routePair)[r.value.0.cookie := r.value.1.cookie]
      ensures r.Ok? ==> r.value.0.cookie in routes && r.value.1.cookie in routes && routes[r.value.1.cookie] == Some(r.value.1)
      ensures r.Ok? && Existing(old(routes), a.cookie).Some? ==> r.value.0.cookie == a.cookie
    {
      var addedA := AddRoute(a);
      if addedA.Err? {
        return Err(addedA.error);
      }
      var addedB := AddRoute(b);
      if addedB.Err? {
        return Err(addedB.error);
      }
      routePair := routePair[addedA.value.cookie := addedB.value.cookie];
      return Ok((addedA.value, addedB.value));
    }

    /**
     * `getVia` given the bandwidth graph: the links along Dijkstra's path,
     * each the first known link between its two switches; a rebalancing is
     * requested when a hop costs less than `minBw`. A hop with no link is an
     * AttributeError.
     */
    method GetVia(g: Dijkstra.Graph, order: seq<int>, src: int, dst: int, links: seq<LinkKey>, minBw: Option<real>)
      returns (r: Result<seq<LinkKey>>)
      requires Dijkstra.NonNegative(g) && Dijkstra.IsOrder(order, g)
      modifies this
      ensures !Dijkstra.ClosedBut(g, src) ==> r == Err("KeyError")
      ensures Dijkstra.ClosedBut(g, src) && src == dst ==> r == Ok([])
      ensures r.Ok? ==> forall i :: 0 <= i < |r.value| ==> r.value[i] in links
      ensures r.Ok? ==> forall i :: 0 <= i < |r.value| ==> r.value[i].dpid1 in g && r.value[i].dpid2 in g[r.value[i].dpid1]
      ensures r.Ok? && r.value != [] ==>
                r.value[0].dpid1 == src && r.value[|r.value| - 1].dpid2 == dst &&
                forall i :: 0 <= i < |r.value| - 1 ==> r.value[i].dpid2 == r.value[i + 1].dpid1
      ensures r.Ok? ==>
                optimizeRequested == (old(optimizeRequested) ||
                  (minBw.Some? && exists i :: 0 <= i < |r.value| && r.value[i].dpid1 in g && r.value[i].dpid2 in g[r.value[i].dpid1] &&
                                              g[r.value[i].dpid1][r.value[i].dpid2] < minBw.value))
      ensures minBw.None? ==> optimizeRequested == old(optimizeRequested)
      ensures routes == old(routes) && routePair == old(routePair) && previousCookie == old(previousCookie)
      ensures linkCookies == old(linkCookies) && flowLog == old(flowLog) && events == old(events)
      ensures Dijkstra.ClosedBut(g, src) && src != dst && Dijkstra.Reachable(g, src, dst) && EdgesKnown(g, links) ==>
                r.Ok? && r.value != []
    {
      var hops := Dijkstra.RoutesDijkstra(g, order, src, dst);
      if hops.Err? {
        return Err(hops.error);
      }
      var path := hops.value;
      var via: seq<LinkKey> := [];
      var missing := false;
      var i := 0;
      assert path != [] ==> Dijkstra.Chain(path, src, dst, g);
      while i < |path|
        invariant 0 <= i <= |path|
        invariant i == 0 ==> !missing
        invariant !missing ==> |via| == i
        invariant path != [] && EdgesKnown(g, links) ==> !missing
        invariant !missing ==> forall j :: 0 <= j < i ==> via[j] in links && via[j].dpid1 == path[j].u && via[j].dpid2 == path[j].v
        invariant optimizeRequested == (old(optimizeRequested) || (minBw.Some? && exists j :: 0 <= j < i && path[j].w < minBw.value))
        invariant routes == old(routes) && routePair == old(routePair) && previousCookie == old(previousCookie)
        invariant linkCookies == old(linkCookies) && flowLog == old(flowLog) && events == old(events)
      {
        var link := FirstLinkByDpid(links, path[i].u, path[i].v);
        if link.None? {
          missing := true;
        } else if !missing {
          via := via + [link.value];
        }
        if minBw.Some? && path[i].w < minBw.value {
          optimizeRequested := true;
        }
        i := i + 1;
      }
      if missing {
        return Err("AttributeError");
      }
      if path != [] {
        assert Dijkstra.Chain(path, src, dst, g);
        assert forall j :: 0 <= j < |via| ==> g[via[j].dpid1][via[j].dpid2] == path[j].w;
      }
      return Ok(via);
    }

    /** The inner loops of `getUsedBwGraph` over one cookie list, adding to `total`. */
    method CookieLoad(total: real, samples: BwGraph.Samples, cookies: seq<int>, d1: int, d2: int, hasReverse: bool, reverseLoop: bool)
      returns (r: Result<real>)
      ensures r == BwGraph.CookiesCost(total, routes, samples, cookies, d1, d2, hasReverse, reverseLoop)
    {
      var acc := total;
      var i := 0;
      while i < |cookies|
        invariant 0 <= i <= |cookies|
        invariant BwGraph.CookiesCost(acc, routes, samples, cookies[i..], d1, d2, hasReverse, reverseLoop) ==
                  BwGraph.CookiesCost(total, routes, samples, cookies, d1, d2, hasReverse, reverseLoop)
      {
        assert cookies[i..][1..] == cookies[i + 1..];
        var c := cookies[i];
        var own := if reverseLoop && (c !in routes || routes[c].None?) then Ok(0.0)
                   else BwGraph.CookieCost(routes, samples, c, d1, d2, hasReverse);
        if own.Err? {
          return Err(own.error);
        }
        acc := acc + own.value;
        i := i + 1;
      }
      return Ok(acc);
    }

    /** The cost `getUsedBwGraph` gives link `l`: both cookie loops, or 1 when routes are forced. */
    method LinkLoad(samples: BwGraph.Samples, links: seq<LinkKey>, l: LinkKey) returns (r: Result<real>)
      ensures r == BwGraph.LinkCost(routes, linkCookies, samples, links, l, forceRoute)
    {
      var hasReverse := l.Reverse() in links;
      var fwd := CookieLoad(0.0, samples, CookiesOf(linkCookies, l), l.dpid1, l.dpid2, hasReverse, false);
      if fwd.Err? {
        return fwd;
      }
      var all := fwd;
      if hasReverse {
        all := CookieLoad(fwd.value, samples, CookiesOf(linkCookies, l.Reverse()), l.dpid1, l.dpid2, true, true);
        if all.Err? {
          return all;
        }
      }
      return Ok(if forceRoute then 1.0 else all.value);
    }

    /**
     * `getUsedBwGraph`: for each known link, in the discovery table's order,
     * `graph[dpid1][dpid2]` is the link's cost.
     */
    method UsedBwGraph(samples: BwGraph.Samples, links: seq<LinkKey>) returns (r: Result<Dijkstra.Graph>)
      ensures r == BwGraph.UsedGraph(routes, linkCookies, samples, links, links, forceRoute)
    {
      var graph: Dijkstra.Graph := map[];
      var i := 0;
      while i < |links|
        invariant 0 <= i <= |links|
        invariant BwGraph.UsedGraph(routes, linkCookies, samples, links, links[..i], forceRoute) == Ok(graph)
      {
        assert links[..i + 1][..i] == links[..i];
        var l := links[i];
        var cost := LinkLoad(samples, links, l);
        if cost.Err? {
          BwGraph.UsedGraphErrPersists(routes, linkCookies, samples, links, links, forceRoute, i + 1);
          return Err(cost.error);
        }
        graph := graph[l.dpid1 := BwGraph.Row(graph, l.dpid1)[l.dpid2 := cost.value]];
        i := i + 1;
      }
      assert links[..i] == links;
      return Ok(graph);
    }
  }
}
