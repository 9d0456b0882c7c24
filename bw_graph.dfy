/**
 * Edge costs of the bandwidth graph `Routing.getUsedBwGraph` hands to
 * Dijkstra: for every link, the cookies on it and on its reverse link each
 * contribute the larger of the route's bandwidth reservation and the flow's
 * measured bandwidth (rounded up); with `forceRoute` every edge costs 1.
 */
module BwGraph {
  import opened Wrappers
  import opened Network
  import opened Routes
  import opened LinkCookies
  import Dijkstra

  /** `flowBw.flowBws`: per cookie, the measured bandwidth per switch (`segBws[dpid].bw`). */
  type Samples = map<int, map<int, real>>

  /** `Routing.routes`: a cookie maps to its route, or to None while only reserved. */
  type RouteTable = map<int, Option<Route>>

  /** `math.ceil`. */
  function Ceil(x: real): (r: int)
    ensures x <= r as real < x + 1.0
  {
    -((-x).Floor)
  }

  /** Python's `max` of two numbers. */
  function Max(a: real, b: real): (r: real)
    ensures r >= a && r >= b && (r == a || r == b)
  {
    if a >= b then a else b
  }

  /**
   * The bandwidth reserved by the route of cookie `c`: None when there is no
   * route, no condition dictionary or a bandwidth key holding None, and
   * KeyError when the dictionary lacks the bandwidth key.
   */
  function Reservation(routes: RouteTable, c: int): (r: Result<Option<real>>)
    ensures r.Err? <==> c in routes && routes[c].Some? && routes[c].value.conditions.Some? &&
                        routes[c].value.conditions.value.bandwidth.None?
    ensures r.Ok? ==> (r.value.Some? <==>
              c in routes && routes[c].Some? && routes[c].value.conditions.Some? &&
              routes[c].value.conditions.value.Bw().Some?)
    ensures r.Ok? && r.value.Some? ==> r.value == routes[c].value.conditions.value.Bw()
  {
    if c !in routes || routes[c].None? || routes[c].value.conditions.None? then Ok(None)
    else if routes[c].value.conditions.value.bandwidth.None? then Err("KeyError")
    else Ok(routes[c].value.conditions.value.bandwidth.value)
  }

  /**
   * The `try` block reading the flow's bandwidth on `d1 -> d2`: 0 when the
   * cookie or a switch is missing from the samples (KeyError caught), and an
   * AttributeError when the reverse link is missing, since its `ofs2` is read.
   */
  function Measured(samples: Samples, c: int, d1: int, d2: int, hasReverse: bool): (r: Result<real>)
    ensures r.Ok? && r.value != 0.0 ==> c in samples && d2 in samples[c]
  {
    if c !in samples then Ok(0.0)
    else if !hasReverse then Err("AttributeError")
    else if d1 !in samples[c] || d2 !in samples[c] then Ok(0.0)
    else Ok(Ceil(samples[c][d2]) as real)
  }

  // ------------------------------------------------------------ as written

  /** The loop variables of `getUsedBwGraph`, which are not reset between cookies. */
  datatype Acc = Acc(reserved: real, used: real, total: real)

  /** One cookie of either loop as written: keep the previous reservation when the route has none. */
  function StepAsWritten(acc: Acc, routes: RouteTable, samples: Samples, c: int, d1: int, d2: int, hasReverse: bool): Result<Acc>
  {
    match Reservation(routes, c)
    case Err(e) => Err(e)
    case Ok(res) =>
      var reserved := if res.Some? then res.value else acc.reserved;
      match Measured(samples, c, d1, d2, hasReverse)
      case Err(e) => Err(e)
      case Ok(used) => Ok(Acc(reserved, used, acc.total + Max(reserved, used)))
  }

  /** The forward loop as written, over the link's cookies. */
  function ForwardAsWritten(acc: Acc, routes: RouteTable, samples: Samples, cookies: seq<int>, d1: int, d2: int, hasReverse: bool): Result<Acc>
    decreases |cookies|
  {
    if cookies == [] then Ok(acc)
    else
      match StepAsWritten(acc, routes, samples, cookies[0], d1, d2, hasReverse)
      case Err(e) => Err(e)
      case Ok(a) => ForwardAsWritten(a, routes, samples, cookies[1..], d1, d2, hasReverse)
  }

  /** The reverse loop as written: a cookie without a route adds the stale values again. */
  function ReverseAsWritten(acc: Acc, routes: RouteTable, samples: Samples, cookies: seq<int>, d1: int, d2: int): Result<Acc>
    decreases |cookies|
  {
    if cookies == [] then Ok(acc)
    else
      var step :=
        if cookies[0] in routes && routes[cookies[0]].Some? then StepAsWritten(acc, routes, samples, cookies[0], d1, d2, true)
        else Ok(acc.(total := acc.total + Max(acc.reserved, acc.used)));
      match step
      case Err(e) => Err(e)
      case Ok(a) => ReverseAsWritten(a, routes, samples, cookies[1..], d1, d2)
  }

  /** `maximumBwNonFree` of link `l` as written. */
  function LinkCostAsWritten(routes: RouteTable, t: CookieTable, samples: Samples, links: seq<LinkKey>, l: LinkKey, force: bool): Result<real>
  {
    var hasReverse := l.Reverse() in links;
    match ForwardAsWritten(Acc(0.0, 0.0, 0.0), routes, samples, CookiesOf(t, l), l.dpid1, l.dpid2, hasReverse)
    case Err(e) => Err(e)
    case Ok(fwd) =>
      var all := if hasReverse then ReverseAsWritten(fwd, routes, samples, CookiesOf(t, l.Reverse()), l.dpid1, l.dpid2) else Ok(fwd);
      match all
      case Err(e) => Err(e)
      case Ok(a) => Ok(if force then 1.0 else a.total)
  }

  // ------------------------------------------------------------ as intended

  /** One cookie's share of the cost: the larger of its own reservation (0 without one) and its own measure. */
  function CookieCost(routes: RouteTable, samples: Samples, c: int, d1: int, d2: int, hasReverse: bool): (r: Result<real>)
    ensures r.Ok? ==> r.value >= 0.0 || (Reservation(routes, c).Ok? && Reservation(routes, c).value.Some? && Reservation(routes, c).value.value < 0.0)
  {
    match Reservation(routes, c)
    case Err(e) => Err(e)
    case Ok(res) =>
      match Measured(samples, c, d1, d2, hasReverse)
      case Err(e) => Err(e)
      case Ok(used) => Ok(Max(if res.Some? then res.value else 0.0, used))
  }

  /**
   * `total` plus the cookies' shares; a cookie on the reverse link whose route
   * is gone adds nothing.
   */
  function CookiesCost(total: real, routes: RouteTable, samples: Samples, cookies: seq<int>, d1: int, d2: int, hasReverse: bool, reverseLoop: bool): Result<real>
    decreases |cookies|
  {
    if cookies == [] then Ok(total)
    else
      var c := cookies[0];
      var own := if reverseLoop && (c !in routes || routes[c].None?) then Ok(0.0) else CookieCost(routes, samples, c, d1, d2, hasReverse);
      match own
      case Err(e) => Err(e)
      case Ok(x) => CookiesCost(total + x, routes, samples, cookies[1..], d1, d2, hasReverse, reverseLoop)
  }

  /** The cost of link `l`: its cookies' shares plus its reverse link's, or 1 when routes are forced. */
  function LinkCost(routes: RouteTable, t: CookieTable, samples: Samples, links: seq<LinkKey>, l: LinkKey, force: bool): Result<real>
  {
    var hasReverse := l.Reverse() in links;
    match CookiesCost(0.0, routes, samples, CookiesOf(t, l), l.dpid1, l.dpid2, hasReverse, false)
    case Err(e) => Err(e)
    case Ok(fwd) =>
      var all := if hasReverse then CookiesCost(fwd, routes, samples, CookiesOf(t, l.Reverse()), l.dpid1, l.dpid2, true, true) else Ok(fwd);
      match all
      case Err(e) => Err(e)
      case Ok(a) => Ok(if force then 1.0 else a)
  }

  /** Every reservation is a bandwidth, hence not negative. */
  predicate NonNegativeReservations(routes: RouteTable)
  {
    forall c :: (c in routes && routes[c].Some? && routes[c].value.conditions.Some? &&
                 routes[c].value.conditions.value.Bw().Some?) ==>
                  routes[c].value.conditions.value.Bw().value >= 0.0
  }

  /** Shares are never negative, so neither is their sum. */
  lemma {:induction false} CookiesCostNonNegative(total: real, routes: RouteTable, samples: Samples, cookies: seq<int>, d1: int, d2: int, hasReverse: bool, reverseLoop: bool)
    requires NonNegativeReservations(routes) && total >= 0.0
    ensures var r := CookiesCost(total, routes, samples, cookies, d1, d2, hasReverse, reverseLoop);
            r.Ok? ==> r.value >= total
    decreases |cookies|
  {
    if cookies != [] {
      var c := cookies[0];
      var own := if reverseLoop && (c !in routes || routes[c].None?) then Ok(0.0) else CookieCost(routes, samples, c, d1, d2, hasReverse);
      if own.Ok? {
        CookiesCostNonNegative(total + own.value, routes, samples, cookies[1..], d1, d2, hasReverse, reverseLoop);
      }
    }
  }

  /** A link cost is 1 when routes are forced, never negative, and 0 when neither direction carries a cookie. */
  lemma LinkCostBounds(routes: RouteTable, t: CookieTable, samples: Samples, links: seq<LinkKey>, l: LinkKey, force: bool)
    requires NonNegativeReservations(routes)
    ensures var r := LinkCost(routes, t, samples, links, l, force);
            r.Ok? ==> (force ==> r.value == 1.0) && r.value >= 0.0
    ensures CookiesOf(t, l) == [] && CookiesOf(t, l.Reverse()) == [] ==>
              LinkCost(routes, t, samples, links, l, force) == Ok(if force then 1.0 else 0.0)
  {
    var hasReverse := l.Reverse() in links;
    var fwd := CookiesCost(0.0, routes, samples, CookiesOf(t, l), l.dpid1, l.dpid2, hasReverse, false);
    CookiesCostNonNegative(0.0, routes, samples, CookiesOf(t, l), l.dpid1, l.dpid2, hasReverse, false);
    if fwd.Ok? {
      CookiesCostNonNegative(fwd.value, routes, samples, CookiesOf(t, l.Reverse()), l.dpid1, l.dpid2, true, true);
    }
  }

  /**
   * The written loops carry the previous cookie's reservation over: one cookie
   * reserving 100 followed by one whose bandwidth key holds None (a path
   * requested without a bandwidth) and without samples costs 200, where the
   * two routes together use at most 100.
   */
  lemma LinkCostAsWrittenCarriesReservation()
    ensures var l := LinkKey(1, 1, 2, 1);
            var routes: RouteTable := map[
              1 := Some(Route(RoutePaths.IpPath(10, 20, 0), 1, [l], map[], Some(Conditions(Some(Some(100.0)), None)))),
              2 := Some(Route(RoutePaths.IpPath(10, 30, 0), 2, [l], map[], Some(Conditions(Some(None), None))))];
            var t: CookieTable := map[l := [1, 2]];
            LinkCostAsWritten(routes, t, map[], [l], l, false) == Ok(200.0) &&
            LinkCost(routes, t, map[], [l], l, false) == Ok(100.0)
  {
    var l := LinkKey(1, 1, 2, 1);
    var routes: RouteTable := map[
      1 := Some(Route(RoutePaths.IpPath(10, 20, 0), 1, [l], map[], Some(Conditions(Some(Some(100.0)), None)))),
      2 := Some(Route(RoutePaths.IpPath(10, 30, 0), 2, [l], map[], Some(Conditions(Some(None), None))))];
    assert l.Reverse() !in [l];
    assert [1, 2][1..] == [2] && [2][1..] == [];
    var a1 := Acc(100.0, 0.0, 100.0);
    assert StepAsWritten(Acc(0.0, 0.0, 0.0), routes, map[], 1, 1, 2, false) == Ok(a1);
    assert StepAsWritten(a1, routes, map[], 2, 1, 2, false) == Ok(Acc(100.0, 0.0, 200.0));
    assert CookiesCost(100.0, routes, map[], [2], 1, 2, false, false) == Ok(100.0);
  }

  // ------------------------------------------------------------ the graph

  /** The row of `u` in the graph being built (`graph.get(dpid1, {})`). */
  function Row(g: Dijkstra.Graph, u: int): map<int, real>
  {
    if u in g then g[u] else map[]
  }

  /**
   * The graph after visiting `prefix` of the link table: `graph[dpid1][dpid2]`
   * is the cost of the last visited link between those switches; the first
   * failing link's error otherwise.
   */
  function UsedGraph(routes: RouteTable, t: CookieTable, samples: Samples, links: seq<LinkKey>, prefix: seq<LinkKey>, force: bool): (r: Result<Dijkstra.Graph>)
    ensures r.Ok? ==> forall u :: u in r.value <==> exists i :: 0 <= i < |prefix| && prefix[i].dpid1 == u
    decreases |prefix|
  {
    if prefix == [] then Ok(map[])
    else
      var l := prefix[|prefix| - 1];
      var front := prefix[..|prefix| - 1];
      match UsedGraph(routes, t, samples, links, front, force)
      case Err(e) => Err(e)
      case Ok(g) =>
        match LinkCost(routes, t, samples, links, l, force)
        case Err(e) => Err(e)
        case Ok(cost) =>
          assert forall i :: 0 <= i < |front| ==> front[i] == prefix[i];
          Ok(g[l.dpid1 := Row(g, l.dpid1)[l.dpid2 := cost]])
  }

  /** Each edge holds the cost of the last link with those ends, and there is an edge for every link. */
  lemma {:induction false} UsedGraphEdges(routes: RouteTable, t: CookieTable, samples: Samples, links: seq<LinkKey>, prefix: seq<LinkKey>, force: bool, i: int)
    requires 0 <= i < |prefix|
    requires UsedGraph(routes, t, samples, links, prefix, force).Ok?
    requires forall j :: i < j < |prefix| ==> !(prefix[j].dpid1 == prefix[i].dpid1 && prefix[j].dpid2 == prefix[i].dpid2)
    ensures var g := UsedGraph(routes, t, samples, links, prefix, force).value;
            prefix[i].dpid1 in g && prefix[i].dpid2 in g[prefix[i].dpid1] &&
            LinkCost(routes, t, samples, links, prefix[i], force) == Ok(g[prefix[i].dpid1][prefix[i].dpid2])
    decreases |prefix|
  {
    var front := prefix[..|prefix| - 1];
    if i < |prefix| - 1 {
      assert forall j :: 0 <= j < |front| ==> front[j] == prefix[j];
      UsedGraphEdges(routes, t, samples, links, front, force, i);
    }
  }

  /** With non-negative reservations every edge cost is non-negative, as Dijkstra requires. */
  lemma {:induction false} UsedGraphNonNegative(routes: RouteTable, t: CookieTable, samples: Samples, links: seq<LinkKey>, prefix: seq<LinkKey>, force: bool)
    requires NonNegativeReservations(routes)
    requires UsedGraph(routes, t, samples, links, prefix, force).Ok?
    ensures Dijkstra.NonNegative(UsedGraph(routes, t, samples, links, prefix, force).value)
    decreases |prefix|
  {
    if prefix != [] {
      var front := prefix[..|prefix| - 1];
      UsedGraphNonNegative(routes, t, samples, links, front, force);
      LinkCostBounds(routes, t, samples, links, prefix[|prefix| - 1], force);
    }
  }

  /** A failure while visiting a prefix is the failure of the whole table. */
  lemma {:induction false} UsedGraphErrPersists(routes: RouteTable, t: CookieTable, samples: Samples, links: seq<LinkKey>, whole: seq<LinkKey>, force: bool, n: nat)
    requires n <= |whole| && UsedGraph(routes, t, samples, links, whole[..n], force).Err?
    ensures UsedGraph(routes, t, samples, links, whole, force) == UsedGraph(routes, t, samples, links, whole[..n], force)
    decreases |whole| - n
  {
    if n < |whole| {
      assert whole[..n + 1][..n] == whole[..n];
      UsedGraphErrPersists(routes, t, samples, links, whole, force, n + 1);
    } else {
      assert whole[..n] == whole;
    }
  }
}
