/**
 * The flow-balancing component (`BwFlowBalancing`): its start and stop
 * switches, the periodic tick, the reservation pass that tries to move a
 * route whose reservation is not met, the best-effort pass that moves large
 * flows to less used vias, and the cable table it keeps up to date while it
 * moves flows.
 *
 * A tick reads a snapshot of the controller (a `World`); the route updates it
 * asks of the routing component are logged as `Move`s.
 */
module Balancing {
  import opened Wrappers
  import opened Network
  import opened RoutePaths
  import opened Routes
  import opened BalanceChecks
  import Dijkstra
  import BwGraph
  import RouteStore

  /** `automaticMode`, fixed at construction. */
  const AutomaticMode: bool := false

  /** `alwaysOptimization`, fixed at construction. */
  const AlwaysOptimization: bool := true

  /** What one tick reads from the rest of the controller. */
  datatype World = World(
    routes: BwGraph.RouteTable,                       // `core.routing.routes`
    values: seq<Option<Route>>,                       // `routes.values()`, in dictionary order
    flows: map<int, real>,                            // `core.flowBw.flowBws`: cookie to mean bandwidth
    flowOrder: seq<int>,                              // the flow table's dictionary order
    links: seq<LinkState>,                            // `getAllLinks()` of the discovery component
    state: LinkKey -> LinkState,                      // the link object behind each link key
    search: (int, int) -> Result<seq<Dijkstra.Hop>>)  // `getRoutesDijkstra` on the used-bandwidth graph

  /** The flow order lists flows of the flow table. */
  predicate Listed(w: World)
  {
    forall i :: 0 <= i < |w.flowOrder| ==> w.flowOrder[i] in w.flows
  }

  /** The keys of the discovery table, in its order. */
  function Keys(links: seq<LinkState>): (r: seq<LinkKey>)
    ensures |r| == |links| && forall i :: 0 <= i < |links| ==> r[i] == links[i].key
  {
    seq(|links|, i requires 0 <= i < |links| => links[i].key)
  }

  /** A route update asked of the routing component: `createBiRoute` with the new via. */
  datatype Move = Move(cookie: int, via: seq<LinkKey>)

  /** The cable table and the route updates asked so far. */
  datatype Ledger = Ledger(cables: Cables, moves: seq<Move>)

  // ------------------------------------------------------------ updateRoute

  /**
   * The two loops of `updateRoute`: the flow's bandwidth leaves every cable
   * of the old via, then joins every cable of the new via; an unsampled
   * cable stops the update with the earlier cables already changed.
   */
  function Moved(cables: Cables, links: seq<LinkKey>, via: seq<LinkKey>, bw: real): (Cables, bool)
  {
    var off := Shift(cables, links, -bw);
    if !off.1 then off else Shift(off.0, via, bw)
  }

  /** A shift keeps every sampled cable sampled. */
  lemma ShiftKeepsSampled(d: Cables, links: seq<LinkKey>, delta: real, other: seq<LinkKey>)
    requires Sampled(d, links) && Sampled(d, other)
    ensures Sampled(Shift(d, links, delta).0, other)
  {
    forall i | 0 <= i < |other|
      ensures SgmtBw(Shift(d, links, delta).0, Key(other[i])).Some?
    {
      ShiftValues(d, links, delta, Key(other[i]));
    }
  }

  /** On sampled vias the update completes and leaves both vias sampled. */
  lemma MovedCompletes(cables: Cables, links: seq<LinkKey>, via: seq<LinkKey>, bw: real)
    requires Sampled(cables, links) && Sampled(cables, via)
    ensures Moved(cables, links, via, bw).1
    ensures Sampled(Moved(cables, links, via, bw).0, links) && Sampled(Moved(cables, links, via, bw).0, via)
  {
    var off := Shift(cables, links, -bw);
    ShiftValues(cables, links, -bw, (0, 0));
    ShiftKeepsSampled(cables, links, -bw, via);
    ShiftKeepsSampled(cables, links, -bw, links);
    assert Moved(cables, links, via, bw) == Shift(off.0, via, bw);
    ShiftValues(off.0, via, bw, (0, 0));
    ShiftKeepsSampled(off.0, via, bw, via);
    ShiftKeepsSampled(off.0, via, bw, links);
  }

  /**
   * On sampled vias each reading loses the flow once per old link on its
   * cable and gains it once per new link on it; an unsampled cable stays
   * unsampled.
   */
  lemma MovedValues(cables: Cables, links: seq<LinkKey>, via: seq<LinkKey>, bw: real, key: (int, int))
    requires Sampled(cables, links) && Sampled(cables, via)
    ensures Moved(cables, links, via, bw).1
    ensures SgmtBw(cables, key).Some? ==>
              SgmtBw(Moved(cables, links, via, bw).0, key) ==
              Some(SgmtBw(cables, key).value - Scaled(bw, Count(links, key)) + Scaled(bw, Count(via, key)))
    ensures SgmtBw(cables, key).None? ==> SgmtBw(Moved(cables, links, via, bw).0, key).None?
  {
    var off := Shift(cables, links, -bw);
    ShiftValues(cables, links, -bw, key);
    ShiftKeepsSampled(cables, links, -bw, via);
    assert Moved(cables, links, via, bw) == Shift(off.0, via, bw);
    ShiftValues(off.0, via, bw, key);
    var x := Count(links, key) as real;
    assert (-bw) * x == -(bw * x);
  }

  /** Moving a flow back onto its old via restores every reading of the cable table. */
  lemma MovedBack(cables: Cables, links: seq<LinkKey>, via: seq<LinkKey>, bw: real, key: (int, int))
    requires Sampled(cables, links) && Sampled(cables, via)
    ensures var there := Moved(cables, links, via, bw);
            there.1 && Moved(there.0, via, links, bw).1 && SgmtBw(Moved(there.0, via, links, bw).0, key) == SgmtBw(cables, key)
  {
    var there := Moved(cables, links, via, bw).0;
    MovedCompletes(cables, links, via, bw);
    MovedValues(cables, links, via, bw, key);
    MovedValues(there, via, links, bw, key);
  }

  /**
   * `updateRoute(route, via)`: the route update is asked first (the route's
   * first switch is read before, AttributeError without links), then the
   * flow's bandwidth is looked up (KeyError without a sample) and moved.
   */
  function Reroute(l: Ledger, route: Route, via: seq<LinkKey>, flows: map<int, real>): (Ledger, Result<()>)
  {
    if route.links == [] then (l, Err("AttributeError"))
    else
      var logged := l.(moves := l.moves + [Move(route.cookie, via)]);
      if route.cookie !in flows then (logged, Err("KeyError"))
      else
        var m := Moved(l.cables, route.links, via, flows[route.cookie]);
        (logged.(cables := m.0), if m.1 then Ok(()) else Err("TypeError"))
  }

  // ------------------------------------------------------------ respectBandwidthReservation

  /**
   * The candidate via for a route whose reservation is not met: the corrected
   * `getMinBwVias` between its end switches for its reserved bandwidth,
   * avoiding its current via. A bandwidth key holding None is respected and
   * never gets here; it is given no candidate.
   */
  function Candidate(l: Ledger, route: Route, w: World): Result<Option<seq<LinkKey>>>
  {
    if route.links == [] then Err("AttributeError")
    else if route.conditions.None? then Err("TypeError")
    else if route.conditions.value.bandwidth.None? then Err("KeyError")
    else if route.conditions.value.Bw().None? then Ok(None)
    else
      var hops := w.search(FirstSwitch(route.links).value, LastSwitch(route.links).value);
      if hops.Err? then Err(hops.error)
      else MinBwVias(hops.value, Keys(w.links), w.routes, w.state, l.cables, route.conditions.value.Bw().value, [route.links])
  }

  /**
   * One pass of the retry loop as the source evidently intends it: without a
   * candidate, or with a candidate that is a nuisance (the retry would find
   * nothing, see `RetryFindsNothing`), the route stays; otherwise it moves.
   */
  function RespectRoute(l: Ledger, route: Route, w: World): (Ledger, Result<()>)
  {
    var cand := Candidate(l, route, w);
    if cand.Err? then (l, Err(cand.error))
    else if cand.value.None? then (l, Ok(()))
    else
      var nu := Nuisance(route.cookie, cand.value.value, w.routes, w.flows, w.state, l.cables);
      if nu.Err? then (l, Err(nu.error))
      else if nu.value then (l, Ok(()))
      else Reroute(l, route, cand.value.value, w.flows)
  }

  /** The retry loop as written: the nuisance branch appends to an undefined name. */
  function RespectRouteAsWritten(l: Ledger, route: Route, w: World): (Ledger, Result<()>)
  {
    var cand := Candidate(l, route, w);
    if cand.Err? then (l, Err(cand.error))
    else if cand.value.None? then (l, Ok(()))
    else
      var nu := Nuisance(route.cookie, cand.value.value, w.routes, w.flows, w.state, l.cables);
      if nu.Err? then (l, Err(nu.error))
      else if nu.value then (l, Err("NameError"))
      else Reroute(l, route, cand.value.value, w.flows)
  }

  /**
   * A nuisance candidate aborts the written loop with NameError, while the
   * corrected pass keeps the route and the table, which is what retrying
   * with the candidate avoided comes to.
   */
  lemma NuisanceAbortsAsWritten(l: Ledger, route: Route, w: World)
    requires Candidate(l, route, w).Ok? && Candidate(l, route, w).value.Some?
    requires Nuisance(route.cookie, Candidate(l, route, w).value.value, w.routes, w.flows, w.state, l.cables) == Ok(true)
    ensures RespectRouteAsWritten(l, route, w) == (l, Err("NameError"))
    ensures RespectRoute(l, route, w) == (l, Ok(()))
    ensures route.links != [] && route.conditions.Some? && route.conditions.value.Bw().Some? &&
            var hops := w.search(FirstSwitch(route.links).value, LastSwitch(route.links).value);
            hops.Ok? &&
            MinBwVias(hops.value, Keys(w.links), w.routes, w.state, l.cables, route.conditions.value.Bw().value,
                      [route.links] + [Candidate(l, route, w).value.value]) == Ok(None)
  {
    var hops := w.search(FirstSwitch(route.links).value, LastSwitch(route.links).value);
    RetryFindsNothing(hops.value, Keys(w.links), w.routes, w.state, l.cables, route.conditions.value.Bw().value, [route.links]);
  }

  /**
   * The loop of `respectBandwidthReservation` over `routes`: each route not
   * respected is reported, in order, and given one chance to move; an error,
   * whether raised by a route's check or by its move, ends the pass with the
   * table as it stands.
   */
  function RespectAll(l: Ledger, routes: seq<Route>, w: World): (Ledger, Result<seq<Route>>)
    decreases |routes|
  {
    if routes == [] then (l, Ok([]))
    else if RouteCheck(routes[0], w.flows, w.state).Err? then (l, Err(RouteCheck(routes[0], w.flows, w.state).error))
    else if RouteRespected(routes[0], w.flows, w.state) then RespectAll(l, routes[1..], w)
    else
      var one := RespectRoute(l, routes[0], w);
      if one.1.Err? then (one.0, Err(one.1.error))
      else
        var rest := RespectAll(one.0, routes[1..], w);
        (rest.0, if rest.1.Err? then rest.1 else Ok([routes[0]] + rest.1.value))
  }

  /** The pass reports exactly the routes not respected. */
  lemma {:induction false} RespectAllReports(l: Ledger, routes: seq<Route>, w: World)
    ensures RespectAll(l, routes, w).1.Ok? ==> RespectAll(l, routes, w).1.value == Violations(routes, w.flows, w.state)
    decreases |routes|
  {
    if routes != [] {
      if RouteRespected(routes[0], w.flows, w.state) {
        RespectAllReports(l, routes[1..], w);
      } else {
        RespectAllReports(RespectRoute(l, routes[0], w).0, routes[1..], w);
      }
    }
  }

  /** A route whose check raises makes the whole pass end in an error. */
  lemma {:induction false} RespectAllRaises(l: Ledger, routes: seq<Route>, w: World, i: int)
    requires 0 <= i < |routes| && RouteCheck(routes[i], w.flows, w.state).Err?
    ensures RespectAll(l, routes, w).1.Err?
    decreases |routes|
  {
    if i > 0 && RouteCheck(routes[0], w.flows, w.state).Ok? {
      assert routes[1..][i - 1] == routes[i];
      if RouteRespected(routes[0], w.flows, w.state) {
        RespectAllRaises(l, routes[1..], w, i - 1);
      } else if RespectRoute(l, routes[0], w).1.Ok? {
        RespectAllRaises(RespectRoute(l, routes[0], w).0, routes[1..], w, i - 1);
      }
    }
  }

  /** Move `m` rescues route `r`: `r` is not respected and `m` takes it off its via onto another. */
  predicate RescueOf(m: Move, r: Route, w: World)
  {
    m.cookie == r.cookie && !RouteRespected(r, w.flows, w.state) && m.via != r.links && m.via != []
  }

  /** The pass on one route asks at most one update, and only a rescue of that route. */
  lemma RespectRouteMoves(l: Ledger, route: Route, w: World)
    requires !RouteRespected(route, w.flows, w.state)
    ensures var r := RespectRoute(l, route, w);
            r.0.moves == l.moves ||
            (|r.0.moves| == |l.moves| + 1 && r.0.moves[..|l.moves|] == l.moves && RescueOf(r.0.moves[|l.moves|], route, w))
  {
    var r := RespectRoute(l, route, w);
    if r.0.moves != l.moves {
      var cand := Candidate(l, route, w);
      assert cand.Ok? && cand.value.Some?;
      assert cand.value.value != route.links;
      assert r.0.moves == l.moves + [Move(route.cookie, cand.value.value)];
    }
  }

  /** Every update the pass asks rescues one of the routes it was given, and earlier updates stay. */
  lemma {:induction false} RespectAllMoves(l: Ledger, routes: seq<Route>, w: World)
    ensures var r := RespectAll(l, routes, w);
            |r.0.moves| >= |l.moves| && r.0.moves[..|l.moves|] == l.moves &&
            forall k :: |l.moves| <= k < |r.0.moves| ==> exists j :: 0 <= j < |routes| && RescueOf(r.0.moves[k], routes[j], w)
    decreases |routes|
  {
    if routes != [] {
      var r := RespectAll(l, routes, w);
      if RouteCheck(routes[0], w.flows, w.state).Err? {
      } else if RouteRespected(routes[0], w.flows, w.state) {
        RespectAllMoves(l, routes[1..], w);
        forall k | |l.moves| <= k < |r.0.moves|
          ensures exists j :: 0 <= j < |routes| && RescueOf(r.0.moves[k], routes[j], w)
        {
          var j :| 0 <= j < |routes[1..]| && RescueOf(r.0.moves[k], routes[1..][j], w);
          assert routes[1..][j] == routes[j + 1];
        }
      } else {
        var one := RespectRoute(l, routes[0], w);
        RespectRouteMoves(l, routes[0], w);
        if one.1.Ok? {
          RespectAllMoves(one.0, routes[1..], w);
          forall k | |l.moves| <= k < |r.0.moves|
            ensures exists j :: 0 <= j < |routes| && RescueOf(r.0.moves[k], routes[j], w)
          {
            if k < |one.0.moves| {
              assert r.0.moves[k] == one.0.moves[k];
              assert RescueOf(r.0.moves[k], routes[0], w);
            } else {
              var j :| 0 <= j < |routes[1..]| && RescueOf(r.0.moves[k], routes[1..][j], w);
              assert routes[1..][j] == routes[j + 1];
            }
          }
        }
      }
    }
  }

  // ------------------------------------------------------------ optimizeFlows

  /**
   * The via of the Dijkstra hops, one `getLinkByDpid` link per hop; a hop
   * without a link puts None in the via, which the logging loop over the via
   * rejects with AttributeError.
   */
  function ViaOf(hops: seq<Dijkstra.Hop>, keys: seq<LinkKey>): (r: Result<seq<LinkKey>>)
    ensures r.Err? ==> r.error == "AttributeError"
  {
    if hops == [] then Ok([])
    else
      var l := FirstLinkByDpid(keys, hops[0].u, hops[0].v);
      var rest := ViaOf(hops[1..], keys);
      if l.None? then Err("AttributeError")
      else if rest.Err? then rest
      else Ok([l.value] + rest.value)
  }

  /** The via exists iff every hop has a link between its switches. */
  lemma {:induction false} ViaOfSucceeds(hops: seq<Dijkstra.Hop>, keys: seq<LinkKey>)
    ensures ViaOf(hops, keys).Ok? <==> forall i :: 0 <= i < |hops| ==> FirstLinkByDpid(keys, hops[i].u, hops[i].v).Some?
    decreases |hops|
  {
    if hops != [] {
      ViaOfSucceeds(hops[1..], keys);
      assert forall i :: 1 <= i < |hops| ==> hops[i] == hops[1..][i - 1];
    }
  }

  /** The via holds, hop by hop, the first known link between the hop's switches. */
  lemma {:induction false} ViaOfFollows(hops: seq<Dijkstra.Hop>, keys: seq<LinkKey>)
    requires ViaOf(hops, keys).Ok?
    ensures |ViaOf(hops, keys).value| == |hops|
    ensures forall i :: 0 <= i < |hops| ==> Some(ViaOf(hops, keys).value[i]) == FirstLinkByDpid(keys, hops[i].u, hops[i].v)
    decreases |hops|
  {
    if hops != [] {
      var rest := ViaOf(hops[1..], keys);
      ViaOfFollows(hops[1..], keys);
      forall i | 1 <= i < |hops|
        ensures Some(ViaOf(hops, keys).value[i]) == FirstLinkByDpid(keys, hops[i].u, hops[i].v)
      {
        assert hops[i] == hops[1..][i - 1];
        assert ViaOf(hops, keys).value[i] == rest.value[i - 1];
      }
    }
  }

  /** Every hop has a link in the via, the first known link between its switches; a hop without one fails it. */
  lemma ViaOfLinks(hops: seq<Dijkstra.Hop>, keys: seq<LinkKey>)
    ensures ViaOf(hops, keys).Ok? <==> forall i :: 0 <= i < |hops| ==> FirstLinkByDpid(keys, hops[i].u, hops[i].v).Some?
    ensures ViaOf(hops, keys).Ok? ==>
              |ViaOf(hops, keys).value| == |hops| &&
              forall i :: 0 <= i < |hops| ==> Some(ViaOf(hops, keys).value[i]) == FirstLinkByDpid(keys, hops[i].u, hops[i].v)
  {
    ViaOfSucceeds(hops, keys);
    if ViaOf(hops, keys).Ok? {
      ViaOfFollows(hops, keys);
    }
  }

  /** The candidate via of `optimizeFlows`, built hop by hop. */
  method CandidateVia(hops: seq<Dijkstra.Hop>, keys: seq<LinkKey>) returns (r: Result<seq<LinkKey>>)
    ensures r == ViaOf(hops, keys)
  {
    var candidateVia: seq<Option<LinkKey>> := [];
    var i := 0;
    while i < |hops|
      invariant 0 <= i <= |hops|
      invariant |candidateVia| == i
      invariant forall k :: 0 <= k < i ==> candidateVia[k] == FirstLinkByDpid(keys, hops[k].u, hops[k].v)
    {
      candidateVia := candidateVia + [FirstLinkByDpid(keys, hops[i].u, hops[i].v)];
      i := i + 1;
    }
    ViaOfLinks(hops, keys);
    if None in candidateVia {
      var k :| 0 <= k < |candidateVia| && candidateVia[k] == None;
      return Err("AttributeError");
    }
    var pv := seq(|candidateVia|, k requires 0 <= k < |candidateVia| => candidateVia[k].value);
    assert pv == ViaOf(hops, keys).value;
    return Ok(pv);
  }

  /**
   * One iteration of the loop of `optimizeFlows`: a significant flow whose
   * route has conditions but is not fixed is moved to the Dijkstra via when
   * that via differs from its own, halves the gap by more than 5% and hurts
   * no reservation.
   */
  function OptimizeFlow(l: Ledger, f: FlowRate, w: World): (Ledger, Result<()>)
  {
    if f.bw < Significant then (l, Ok(()))
    else
      var found := GetRoute(w.routes, f.cookie);
      if found.None? || !Truthy(found.value.conditions) || found.value.conditions.value.fix == Some(true) then (l, Ok(()))
      else
        var route := found.value;
        var routeBw := MeanCables(l.cables, route.links);
        if routeBw.Err? then (l, Err(routeBw.error))
        else if route.links == [] then (l, Err("AttributeError"))
        else
          var hops := w.search(FirstSwitch(route.links).value, LastSwitch(route.links).value);
          if hops.Err? then (l, Err(hops.error))
          else if hops.value == [] then (l, Ok(()))
          else
            var pv := ViaOf(hops.value, Keys(w.links));
            if pv.Err? then (l, Err(pv.error))
            else if pv.value == route.links then (l, Ok(()))
            else
              var pvBw := MeanCables(l.cables, pv.value);
              if pvBw.Err? then (l, Err(pvBw.error))
              else if !WorthMoving(routeBw.value, pvBw.value, f.bw) then (l, Ok(()))
              else
                var nu := Nuisance(route.cookie, pv.value, w.routes, w.flows, w.state, l.cables);
                if nu.Err? then (l, Err(nu.error))
                else if nu.value then (l, Ok(()))
                else Reroute(l, route, pv.value, w.flows)
  }

  /** The loop of `optimizeFlows` over the flows, largest first; an error ends it. */
  function OptimizeAll(l: Ledger, flows: seq<FlowRate>, w: World): (Ledger, Result<()>)
    decreases |flows|
  {
    if flows == [] then (l, Ok(()))
    else
      var one := OptimizeFlow(l, flows[0], w);
      if one.1.Err? then one
      else OptimizeAll(one.0, flows[1..], w)
  }

  /**
   * Move `m` improves flow `f`: the flow is significant, its route has
   * conditions without the fix flag, and `m` takes it onto another via.
   */
  predicate ImprovementOf(m: Move, f: FlowRate, w: World)
  {
    m.cookie == f.cookie && f.bw >= Significant &&
    var found := GetRoute(w.routes, f.cookie);
    found.Some? && Truthy(found.value.conditions) && found.value.conditions.value.fix != Some(true) &&
    found.value.cookie == f.cookie && m.via != found.value.links && m.via != []
  }

  /** One iteration asks at most one update, and only an improvement of that flow. */
  lemma OptimizeFlowMoves(l: Ledger, f: FlowRate, w: World)
    requires forall c :: c in w.routes && w.routes[c].Some? ==> w.routes[c].value.cookie == c
    ensures var r := OptimizeFlow(l, f, w);
            r.0.moves == l.moves ||
            (|r.0.moves| == |l.moves| + 1 && r.0.moves[..|l.moves|] == l.moves && ImprovementOf(r.0.moves[|l.moves|], f, w))
  {
    var r := OptimizeFlow(l, f, w);
    if r.0.moves != l.moves {
      var route := GetRoute(w.routes, f.cookie).value;
      var hops := w.search(FirstSwitch(route.links).value, LastSwitch(route.links).value);
      var pv := ViaOf(hops.value, Keys(w.links));
      assert r.0.moves == l.moves + [Move(route.cookie, pv.value)];
    }
  }

  /** Every update the pass asks improves one of the flows it was given, and earlier updates stay. */
  lemma {:induction false} OptimizeAllMoves(l: Ledger, flows: seq<FlowRate>, w: World)
    requires forall c :: c in w.routes && w.routes[c].Some? ==> w.routes[c].value.cookie == c
    ensures var r := OptimizeAll(l, flows, w);
            |r.0.moves| >= |l.moves| && r.0.moves[..|l.moves|] == l.moves &&
            forall k :: |l.moves| <= k < |r.0.moves| ==> exists j :: 0 <= j < |flows| && ImprovementOf(r.0.moves[k], flows[j], w)
    decreases |flows|
  {
    if flows != [] {
      var r := OptimizeAll(l, flows, w);
      var one := OptimizeFlow(l, flows[0], w);
      OptimizeFlowMoves(l, flows[0], w);
      if one.1.Ok? {
        OptimizeAllMoves(one.0, flows[1..], w);
        forall k | |l.moves| <= k < |r.0.moves|
          ensures exists j :: 0 <= j < |flows| && ImprovementOf(r.0.moves[k], flows[j], w)
        {
          if k < |one.0.moves| {
            assert r.0.moves[k] == one.0.moves[k];
            assert ImprovementOf(r.0.moves[k], flows[0], w);
          } else {
            var j :| 0 <= j < |flows[1..]| && ImprovementOf(r.0.moves[k], flows[1..][j], w);
            assert flows[1..][j] == flows[j + 1];
          }
        }
      }
    }
  }

  // ------------------------------------------------------------ the tick

  /** `checkConditions`: the reservation pass over the routes with a bandwidth condition and no fix. */
  function CheckAll(l: Ledger, w: World): (Ledger, Result<seq<Route>>)
  {
    var selected := ReservedRoutes(w.values);
    if selected.Err? then (l, Err(selected.error))
    else if selected.value == [] then (l, Ok([]))
    else RespectAll(l, selected.value, w)
  }

  /**
   * The handling block of `loop`: the reservation pass, the best-effort pass
   * (always, since `alwaysOptimization` is set) and the reservation pass
   * again over the routes first reported.
   */
  function Handle(l: Ledger, w: World): (Ledger, Result<seq<Route>>)
    requires Listed(w)
  {
    var checked := CheckAll(l, w);
    if checked.1.Err? then checked
    else Recheck(checked.0, checked.1.value, w)
  }

  /** The best-effort pass and the second reservation pass over the routes `ng` first reported. */
  function Recheck(l: Ledger, ng: seq<Route>, w: World): (Ledger, Result<seq<Route>>)
    requires Listed(w)
  {
    var optimized :=
      if ng != [] || AlwaysOptimization then OptimizeAll(l, SortByBw(Rates(w.flows, w.flowOrder)), w)
      else (l, Ok(()));
    if optimized.1.Err? then (optimized.0, Err(optimized.1.error))
    else RespectAll(optimized.0, ng, w)
  }

  /**
   * A completed handling reports exactly the routes that reserve bandwidth
   * without the fix flag and whose reservation is not met, in table order.
   */
  lemma HandleReports(l: Ledger, w: World)
    requires Listed(w)
    ensures var h := Handle(l, w);
            h.1.Ok? ==> ReservedRoutes(w.values).Ok? && h.1.value == Violations(ReservedRoutes(w.values).value, w.flows, w.state)
  {
    var selected := ReservedRoutes(w.values);
    var checked := CheckAll(l, w);
    if checked.1.Ok? {
      if selected.value != [] {
        RespectAllReports(l, selected.value, w);
      }
      assert Handle(l, w) == Recheck(checked.0, checked.1.value, w);
      var optimized :=
        if checked.1.value != [] || AlwaysOptimization then OptimizeAll(checked.0, SortByBw(Rates(w.flows, w.flowOrder)), w)
        else (checked.0, Ok(()));
      if optimized.1.Ok? {
        RespectAllReports(optimized.0, checked.1.value, w);
        ViolationsIdempotent(selected.value, w.flows, w.state);
      }
    }
  }

  /** The cookies of a list of routes, in order. */
  function CookiesOf(routes: seq<Route>): (r: seq<int>)
    ensures |r| == |routes| && forall i :: 0 <= i < |routes| ==> r[i] == routes[i].cookie
  {
    seq(|routes|, i requires 0 <= i < |routes| => routes[i].cookie)
  }

  /** The balancer's fields, the routing component's request flag, and the logs of updates and reports. */
  datatype Status = Status(running: bool, looping: bool, handling: bool, cables: Cables, requested: bool,
                           moves: seq<Move>, pushes: seq<seq<int>>)

  /**
   * `loop`: a stopped balancer stops looping; a running one rereads the
   * cable table and, when an optimisation was requested and none is under
   * way, clears the request and handles it, reporting the routes still not
   * respected. An error leaves `handling` set.
   */
  function Tick(s: Status, w: World): Status
    requires Listed(w)
  {
    if !s.running then s.(looping := false)
    else
      var sampled := s.(cables := CablesOf(w.links));
      if sampled.handling || !(sampled.requested || AutomaticMode) then sampled
      else Handled(sampled, w)
  }

  /** The handling block of a tick, from the cable table just read. */
  function Handled(s: Status, w: World): Status
    requires Listed(w)
  {
    var h := Handle(Ledger(s.cables, s.moves), w);
    s.(handling := h.1.Err?, requested := false, cables := h.0.cables, moves := h.0.moves,
       pushes := s.pushes + (if h.1.Ok? && h.1.value != [] then [CookiesOf(h.1.value)] else []))
  }

  /** Route `r` is in the table, reserves bandwidth without the fix flag, and its reservation is not met. */
  predicate Unmet(r: Route, w: World)
  {
    Some(r) in w.values && BandwidthOnly(r.conditions) && !RouteRespected(r, w.flows, w.state)
  }

  /** The cookies of the violations among the reserved routes are exactly those of the unmet routes. */
  lemma ReportedCookies(w: World, c: int)
    requires ReservedRoutes(w.values).Ok?
    ensures c in CookiesOf(Violations(ReservedRoutes(w.values).value, w.flows, w.state)) <==>
              exists r :: Unmet(r, w) && r.cookie == c
  {
    var selected := ReservedRoutes(w.values);
    ReservedRoutesExact(w.values);
    ViolationsExact(selected.value, w.flows, w.state);
    var reported := Violations(selected.value, w.flows, w.state);
    var pushed := CookiesOf(reported);
    if c in pushed {
      var i :| 0 <= i < |pushed| && pushed[i] == c;
      assert reported[i] in reported;
      assert Unmet(reported[i], w);
    }
    if exists r :: Unmet(r, w) && r.cookie == c {
      var r :| Unmet(r, w) && r.cookie == c;
      assert r in reported;
      var i :| 0 <= i < |reported| && reported[i] == r;
      assert pushed[i] == c;
    }
  }

  /**
   * A tick reports at most one list, and the cookies on it are exactly those
   * of the unmet routes of the table.
   */
  lemma TickReports(s: Status, w: World, c: int)
    requires Listed(w)
    requires |Tick(s, w).pushes| > |s.pushes|
    ensures |Tick(s, w).pushes| == |s.pushes| + 1
    ensures c in Tick(s, w).pushes[|s.pushes|] <==> exists r :: Unmet(r, w) && r.cookie == c
  {
    var l := Ledger(CablesOf(w.links), s.moves);
    HandleReports(l, w);
    ReportedCookies(w, c);
    assert Tick(s, w).pushes[|s.pushes|] == CookiesOf(Handle(l, w).1.value);
  }

  /** While a handling is marked under way, ticks move no flow and report nothing. */
  lemma TickBlockedWhileHandling(s: Status, w: World)
    requires Listed(w) && s.handling
    ensures Tick(s, w).handling && Tick(s, w).moves == s.moves && Tick(s, w).pushes == s.pushes
  {
  }

  // ------------------------------------------------------------ the component

  /** A result list with `acc` in front, errors passing through. */
  function Prefixed(acc: seq<Route>, r: Result<seq<Route>>): Result<seq<Route>>
  {
    if r.Err? then r else Ok(acc + r.value)
  }

  /** Prefixing by nothing changes nothing, and two prefixes make one. */
  lemma PrefixedJoin(a: seq<Route>, b: seq<Route>, r: Result<seq<Route>>)
    ensures Prefixed([], r) == r
    ensures Prefixed(a + b, r) == Prefixed(a, Prefixed(b, r))
  {
    if r.Ok? {
      assert [] + r.value == r.value;
      assert a + b + r.value == a + (b + r.value);
    }
  }

  /** A sum with `acc` added, errors passing through. */
  function Plus(acc: real, r: Result<real>): Result<real>
  {
    if r.Err? then r else Ok(acc + r.value)
  }

  /** The links a walk collected with `acc` in front, errors passing through. */
  function Walked(acc: seq<LinkKey>, r: Result<(seq<LinkKey>, bool)>): Result<(seq<LinkKey>, bool)>
  {
    if r.Err? then r else Ok((acc + r.value.0, r.value.1))
  }

  /** Walking on from nothing changes nothing, and two prefixes make one. */
  lemma WalkedJoin(a: seq<LinkKey>, b: seq<LinkKey>, r: Result<(seq<LinkKey>, bool)>)
    ensures Walked([], r) == r
    ensures Walked(a + b, r) == Walked(a, Walked(b, r))
  {
    if r.Ok? {
      assert [] + r.value.0 == r.value.0;
      assert a + b + r.value.0 == a + (b + r.value.0);
    }
  }

  /** `BwFlowBalancing`: the switches of its timer loop, its cable table, and the logs of what it asked. */
  class Balancer {
    var running: bool
    var looping: bool
    var handling: bool
    var cablesBw: Cables
    /** The route updates asked of the routing component, in order. */
    ghost var reroutes: seq<Move>
    /** The cookie lists sent with `push_request_optimize_failure`, in order. */
    ghost var pushes: seq<seq<int>>

    /** The balancer's fields together with the routing component's request flag. */
    ghost function Snapshot(routing: RouteStore.Routing): Status
      reads this, routing
    {
      Status(running, looping, handling, cablesBw, routing.optimizeRequested, reroutes, pushes)
    }

    /** The cable table and the updates asked. */
    ghost function Books(): Ledger
      reads this
    {
      Ledger(cablesBw, reroutes)
    }

    /** `__init__`: stopped and idle, then started, which runs a first tick. */
    constructor(w: World, routing: RouteStore.Routing)
      requires Listed(w)
      modifies routing`optimizeRequested
      ensures Snapshot(routing) == Tick(Status(true, true, false, map[], old(routing.optimizeRequested), [], []), w)
    {
      running := false;
      looping := false;
      handling := false;
      cablesBw := map[];
      reroutes := [];
      pushes := [];
      new;
      var msg := Start(w, routing);
    }

    /** `reboot`: the next tick stops looping. */
    method Reboot()
      modifies this`running
      ensures !running
    {
      running := false;
    }

    /** `start`: a stopped balancer runs again, and ticks at once unless its loop is still alive. */
    method Start(w: World, routing: RouteStore.Routing) returns (msg: string)
      requires Listed(w)
      modifies this, routing`optimizeRequested
      ensures old(running) ==> msg == "Already running." && Snapshot(routing) == old(Snapshot(routing))
      ensures !old(running) && old(looping) ==> msg == "Already looping." && Snapshot(routing) == old(Snapshot(routing)).(running := true)
      ensures !old(running) && !old(looping) ==>
                msg == "Started" && Snapshot(routing) == Tick(old(Snapshot(routing)).(running := true, looping := true), w)
    {
      if running {
        return "Already running.";
      }
      running := true;
      if !looping {
        looping := true;
        Loop(w, routing);
        return "Started";
      }
      return "Already looping.";
    }

    /** `stop`: the next tick stops looping. */
    method Stop() returns (msg: string)
      modifies this`running
      ensures msg == (if old(running) then "Stopped." else "Already stopped.") && !running
    {
      if !running {
        return "Already stopped.";
      }
      running := false;
      return "Stopped.";
    }

    /** `loop`, one tick of the timer. */
    method Loop(w: World, routing: RouteStore.Routing)
      requires Listed(w)
      modifies this, routing`optimizeRequested
      ensures Snapshot(routing) == Tick(old(Snapshot(routing)), w)
    {
      if !running {
        looping := false;
        return;
      }
      cablesBw := GetCablesBw(w.links);
      if !handling && (routing.optimizeRequested || AutomaticMode) {
        HandleRequest(w, routing);
      }
    }

    /** The handling block of `loop`; an error leaves `handling` set, as the escaping exception does. */
    method HandleRequest(w: World, routing: RouteStore.Routing)
      requires Listed(w)
      modifies this`handling, this`cablesBw, this`reroutes, this`pushes, routing`optimizeRequested
      ensures Snapshot(routing) == Handled(old(Snapshot(routing)), w)
    {
      handling := true;
      routing.optimizeRequested := false;
      var ng := CheckConditions(w);
      if ng.Err? {
        return;
      }
      ghost var checked := Books();
      var ng2 := OptimizeAndRecheck(w, ng.value);
      if ng2.Err? {
        return;
      }
      if ng2.value != [] && !routing.optimizeRequested {
        pushes := pushes + [CookiesOf(ng2.value)];
      }
      handling := false;
    }

    /** The best-effort pass, then the reservation pass again over the routes first reported. */
    method OptimizeAndRecheck(w: World, ng: seq<Route>) returns (r: Result<seq<Route>>)
      requires Listed(w)
      modifies this`cablesBw, this`reroutes
      ensures (Books(), r) == Recheck(old(Books()), ng, w)
    {
      if ng != [] || AlwaysOptimization {
        var e := OptimizeFlows(w);
        if e.Err? {
          return Err(e.error);
        }
      }
      r := RespectBandwidthReservation(w, ng);
    }

    /** `checkConditions`: the selection loop, then the reservation pass over the selected routes. */
    method CheckConditions(w: World) returns (r: Result<seq<Route>>)
      modifies this`cablesBw, this`reroutes
      ensures (Books(), r) == CheckAll(old(Books()), w)
    {
      var selected: seq<Route> := [];
      var i := 0;
      assert w.values[0..] == w.values;
      PrefixedJoin([], [], ReservedRoutes(w.values));
      while i < |w.values|
        invariant 0 <= i <= |w.values|
        invariant ReservedRoutes(w.values) == Prefixed(selected, ReservedRoutes(w.values[i..]))
        invariant Books() == old(Books())
      {
        assert w.values[i..][0] == w.values[i] && w.values[i..][1..] == w.values[i + 1..];
        var route := w.values[i];
        if route.None? {
          return Err("AttributeError");
        }
        PrefixedJoin(selected, [route.value], ReservedRoutes(w.values[i + 1..]));
        PrefixedJoin(selected, [], ReservedRoutes(w.values[i + 1..]));
        if BandwidthOnly(route.value.conditions) {
          selected := selected + [route.value];
        }
        i := i + 1;
      }
      assert w.values[i..] == [];
      assert selected + [] == selected;
      if selected == [] {
        return Ok([]);
      }
      r := RespectBandwidthReservation(w, selected);
    }

    /** `respectBandwidthReservation`: report each route not respected and give it one chance to move. */
    method RespectBandwidthReservation(w: World, routes: seq<Route>) returns (r: Result<seq<Route>>)
      modifies this`cablesBw, this`reroutes
      ensures (Books(), r) == RespectAll(old(Books()), routes, w)
    {
      var acc: seq<Route> := [];
      var i := 0;
      assert routes[0..] == routes;
      PrefixedJoin([], [], RespectAll(Books(), routes, w).1);
      while i < |routes|
        invariant 0 <= i <= |routes|
        invariant var rest := RespectAll(Books(), routes[i..], w);
                  RespectAll(old(Books()), routes, w) == (rest.0, Prefixed(acc, rest.1))
      {
        assert routes[i..][1..] == routes[i + 1..];
        var ok := IsBandwidthRespected(w, routes[i]);
        if ok.Err? {
          return Err(ok.error);
        }
        if !ok.value {
          ghost var before := Books();
          var e := RespectOne(w, routes[i]);
          PrefixedJoin(acc, [routes[i]], RespectAll(Books(), routes[i + 1..], w).1);
          acc := acc + [routes[i]];
          if e.Err? {
            return Err(e.error);
          }
        }
        i := i + 1;
      }
      assert routes[i..] == [];
      assert acc + [] == acc;
      return Ok(acc);
    }

    /** One pass of the retry loop for a route not respected. */
    method RespectOne(w: World, route: Route) returns (e: Result<()>)
      modifies this`cablesBw, this`reroutes
      ensures (Books(), e) == RespectRoute(old(Books()), route, w)
    {
      if route.links == [] {
        return Err("AttributeError");
      }
      if route.conditions.None? {
        return Err("TypeError");
      }
      if route.conditions.value.bandwidth.None? {
        return Err("KeyError");
      }
      if route.conditions.value.Bw().None? {
        return Ok(());
      }
      var cand := GetMinBwVias(w, FirstSwitch(route.links).value, LastSwitch(route.links).value,
                               route.conditions.value.Bw().value, [route.links]);
      if cand.Err? {
        return Err(cand.error);
      }
      if cand.value.None? {
        return Ok(());
      }
      var nu := IsNuisance(w, route.cookie, cand.value.value);
      if nu.Err? {
        return Err(nu.error);
      }
      if nu.value {
        return Ok(());
      }
      e := UpdateRoute(route, cand.value.value, w.flows);
    }

    /** `isBandwidthRespected(route)`: its answer, or the TypeError an unsampled link raises. */
    method IsBandwidthRespected(w: World, route: Route) returns (ok: Result<bool>)
      ensures ok == RouteCheck(route, w.flows, w.state)
    {
      if !Truthy(route.conditions) || !ReservesBandwidth(route.conditions) {
        return Ok(true);
      }
      var reservedBw := route.conditions.value.Bw().value;
      if route.cookie !in w.flows {
        return Ok(true);
      }
      var current := w.flows[route.cookie];
      if current >= reservedBw || route.links == [] {
        return Ok(true);
      }
      ghost var states := States(route.links, w.state);
      var i := 0;
      while i < |route.links|
        invariant 0 <= i <= |route.links|
        invariant LinksRespect(states, current, reservedBw) == LinksRespect(states[i..], current, reservedBw)
      {
        assert states[i..][0] == w.state(route.links[i]) && states[i..][1..] == states[i + 1..];
        var link := w.state(route.links[i]);
        if link.used.None? {
          return Err("TypeError");
        }
        var available := Headroom(link.maxTheorical, link.used.value, current);
        if available < reservedBw {
          return Ok(false);
        }
        i := i + 1;
      }
      assert states[i..] == [];
      return Ok(true);
    }

    /** The reservations of the routes on a link, the inner loop of `getMinBwVias`. */
    method Reserved(w: World, cookies: seq<int>) returns (r: Result<real>)
      ensures r == ReservedOn(cookies, w.routes)
    {
      var sum := 0.0;
      var i := 0;
      while i < |cookies|
        invariant 0 <= i <= |cookies|
        invariant ReservedOn(cookies, w.routes) == Plus(sum, ReservedOn(cookies[i..], w.routes))
      {
        assert cookies[i..][1..] == cookies[i + 1..];
        var route := GetRoute(w.routes, cookies[i]);
        if route.Some? && route.value.conditions.Some? {
          if route.value.conditions.value.bandwidth.None? {
            return Err("KeyError");
          }
          if route.value.conditions.value.Bw().Some? {
            sum := sum + route.value.conditions.value.Bw().value;
          }
        }
        i := i + 1;
      }
      assert cookies[i..] == [];
      return Ok(sum);
    }

    /** `getMinBwVias` with the corrected first loop: the Dijkstra via, if whole, wide enough and fitting. */
    method GetMinBwVias(w: World, src: int, dst: int, minBw: real, avoid: seq<seq<LinkKey>>) returns (r: Result<Option<seq<LinkKey>>>)
      ensures var hops := w.search(src, dst);
              r == if hops.Err? then Err(hops.error) else MinBwVias(hops.value, Keys(w.links), w.routes, w.state, cablesBw, minBw, avoid)
    {
      var hops := w.search(src, dst);
      if hops.Err? {
        return Err(hops.error);
      }
      var walk := WalkCandidate(w, hops.value, Keys(w.links), minBw);
      if walk.Err? {
        return Err(walk.error);
      }
      var candVia := walk.value.0;
      if !walk.value.1 || candVia == [] || candVia in avoid {
        return Ok(None);
      }
      var fits := CablesFit(w, candVia, minBw);
      if fits.Err? {
        return Err(fits.error);
      }
      return if fits.value then Ok(Some(candVia)) else Ok(None);
    }

    /** The first loop of `getMinBwVias`: the links of the hops while each leaves `minBw`. */
    method WalkCandidate(w: World, hv: seq<Dijkstra.Hop>, keys: seq<LinkKey>, minBw: real) returns (r: Result<(seq<LinkKey>, bool)>)
      ensures r == WalkVia(hv, keys, w.routes, w.state, minBw)
    {
      var candVia: seq<LinkKey> := [];
      var i := 0;
      assert hv[0..] == hv;
      WalkedJoin([], [], WalkVia(hv, keys, w.routes, w.state, minBw));
      while i < |hv|
        invariant 0 <= i <= |hv|
        invariant WalkVia(hv, keys, w.routes, w.state, minBw) == Walked(candVia, WalkVia(hv[i..], keys, w.routes, w.state, minBw))
      {
        assert hv[i..][1..] == hv[i + 1..];
        var link := FirstLinkByDpid(keys, hv[i].u, hv[i].v);
        if link.None? {
          return Err("AttributeError");
        }
        var reserved := Reserved(w, w.state(link.value).cookies);
        if reserved.Err? {
          return Err(reserved.error);
        }
        var nonReserved := w.state(link.value).maxTheorical - reserved.value;
        var minimum := if w.state(link.value).available <= nonReserved then w.state(link.value).available else nonReserved;
        if minimum < minBw {
          assert candVia + [] == candVia;
          return Ok((candVia, false));
        }
        WalkedJoin(candVia, [link.value], WalkVia(hv[i + 1..], keys, w.routes, w.state, minBw));
        candVia := candVia + [link.value];
        i := i + 1;
      }
      assert hv[i..] == [];
      assert candVia + [] == candVia;
      return Ok((candVia, true));
    }

    /** The second loop of `getMinBwVias`: every cable of the candidate is sampled and leaves `minBw`. */
    method CablesFit(w: World, candVia: seq<LinkKey>, minBw: real) returns (r: Result<bool>)
      ensures r == FitsCables(candVia, w.state, cablesBw, minBw)
    {
      var j := 0;
      while j < |candVia|
        invariant 0 <= j <= |candVia|
        invariant FitsCables(candVia, w.state, cablesBw, minBw) == FitsCables(candVia[j..], w.state, cablesBw, minBw)
      {
        assert candVia[j..][1..] == candVia[j + 1..];
        var linkBw := SgmtBw(cablesBw, Key(candVia[j]));
        if linkBw.None? {
          return Err("TypeError");
        }
        if w.state(candVia[j]).maxTheorical - linkBw.value < minBw {
          return Ok(false);
        }
        j := j + 1;
      }
      assert candVia[j..] == [];
      return Ok(true);
    }

    /** `isNewRouteNuisanceForBandwidthReservation(route, candidate)`. */
    method IsNuisance(w: World, cookie: int, cand: seq<LinkKey>) returns (r: Result<bool>)
      ensures r == Nuisance(cookie, cand, w.routes, w.flows, w.state, cablesBw)
    {
      if cookie !in w.flows {
        return Err("KeyError");
      }
      var current := w.flows[cookie];
      var i := 0;
      while i < |cand|
        invariant 0 <= i <= |cand|
        invariant NuisanceLinks(cand, w.routes, w.flows, current, w.state, cablesBw) ==
                  NuisanceLinks(cand[i..], w.routes, w.flows, current, w.state, cablesBw)
      {
        assert cand[i..][0] == cand[i] && cand[i..][1..] == cand[i + 1..];
        var link := w.state(cand[i]);
        var theo := link.maxTheorical;
        var linkBw := SgmtBw(cablesBw, Key(cand[i]));
        var j := 0;
        while j < |link.cookies|
          invariant 0 <= j <= |link.cookies|
          invariant NuisanceCookies(link.cookies, w.routes, w.flows, current, theo, linkBw) ==
                    NuisanceCookies(link.cookies[j..], w.routes, w.flows, current, theo, linkBw)
        {
          assert link.cookies[j..][1..] == link.cookies[j + 1..];
          var route := GetRoute(w.routes, link.cookies[j]);
          if route.None? {
            return Err("AttributeError");
          }
          if route.value.conditions.Some? && route.value.conditions.value.bandwidth.Some? {
            var reservedBw := route.value.conditions.value.Bw();
            if route.value.cookie in w.flows {
              if linkBw.None? {
                return Err("TypeError");
              }
              if reservedBw.Some? && theo - (linkBw.value - w.flows[route.value.cookie]) + current < reservedBw.value {
                return Ok(true);
              }
            }
          }
          j := j + 1;
        }
        assert link.cookies[j..] == [];
        i := i + 1;
      }
      assert cand[i..] == [];
      return Ok(false);
    }

    /** The mean cable reading along a via, the summing loops of `optimizeFlows`. */
    method MeanBw(links: seq<LinkKey>) returns (r: Result<real>)
      ensures r == MeanCables(cablesBw, links)
    {
      var sum := 0.0;
      var i := 0;
      while i < |links|
        invariant 0 <= i <= |links|
        invariant SumCables(cablesBw, links) == Plus(sum, SumCables(cablesBw, links[i..]))
      {
        assert links[i..][1..] == links[i + 1..];
        var v := SgmtBw(cablesBw, Key(links[i]));
        if v.None? {
          return Err("TypeError");
        }
        sum := sum + v.value;
        i := i + 1;
      }
      assert links[i..] == [];
      if |links| > 0 {
        return Ok(sum / |links| as real);
      }
      return Ok(0.0);
    }

    /** `optimizeFlows`: the flows from the largest down, each given one chance to move. */
    method OptimizeFlows(w: World) returns (e: Result<()>)
      requires Listed(w)
      modifies this`cablesBw, this`reroutes
      ensures (Books(), e) == OptimizeAll(old(Books()), SortByBw(Rates(w.flows, w.flowOrder)), w)
    {
      var sortedList := SortByBw(Rates(w.flows, w.flowOrder));
      var i := 0;
      while i < |sortedList|
        invariant 0 <= i <= |sortedList|
        invariant OptimizeAll(old(Books()), sortedList, w) == OptimizeAll(Books(), sortedList[i..], w)
      {
        assert sortedList[i..][1..] == sortedList[i + 1..];
        e := OptimizeOne(w, sortedList[i]);
        if e.Err? {
          return;
        }
        i := i + 1;
      }
      assert sortedList[i..] == [];
      return Ok(());
    }

    /** One iteration of the loop of `optimizeFlows`. */
    method OptimizeOne(w: World, f: FlowRate) returns (e: Result<()>)
      modifies this`cablesBw, this`reroutes
      ensures (Books(), e) == OptimizeFlow(old(Books()), f, w)
    {
      if f.bw < Significant {
        return Ok(());
      }
      var found := GetRoute(w.routes, f.cookie);
      if found.None? {
        return Ok(());
      }
      var route := found.value;
      if !Truthy(route.conditions) || route.conditions.value.fix == Some(true) {
        return Ok(());
      }
      var routeBw := MeanBw(route.links);
      if routeBw.Err? {
        return Err(routeBw.error);
      }
      if route.links == [] {
        return Err("AttributeError");
      }
      var hops := w.search(FirstSwitch(route.links).value, LastSwitch(route.links).value);
      if hops.Err? {
        return Err(hops.error);
      }
      if hops.value == [] {
        return Ok(());
      }
      var candidate := CandidateVia(hops.value, Keys(w.links));
      if candidate.Err? {
        return Err(candidate.error);
      }
      var pv := candidate.value;
      if pv == route.links {
        return Ok(());
      }
      var pvBw := MeanBw(pv);
      if pvBw.Err? {
        return Err(pvBw.error);
      }
      if routeBw.value <= pvBw.value {
        return Ok(());
      }
      var oldM := routeBw.value;
      var newM := BwGraph.Max(routeBw.value - f.bw, pvBw.value + f.bw);
      var gain := oldM - newM;
      if gain <= 0.0 || gain <= routeBw.value * GainThreshold {
        return Ok(());
      }
      var nu := IsNuisance(w, route.cookie, pv);
      if nu.Err? {
        return Err(nu.error);
      }
      if nu.value {
        return Ok(());
      }
      e := UpdateRoute(route, pv, w.flows);
    }

    /** `updateRoute(route, via)`: ask the update, then move the flow's bandwidth in the cable table. */
    method UpdateRoute(route: Route, via: seq<LinkKey>, flows: map<int, real>) returns (e: Result<()>)
      modifies this`cablesBw, this`reroutes
      ensures (Books(), e) == Reroute(old(Books()), route, via, flows)
    {
      if route.links == [] {
        return Err("AttributeError");
      }
      reroutes := reroutes + [Move(route.cookie, via)];
      if route.cookie !in flows {
        return Err("KeyError");
      }
      var bw := flows[route.cookie];
      var ok := ShiftCables(route.links, -bw);
      if !ok {
        return Err("TypeError");
      }
      ok := ShiftCables(via, bw);
      e := if ok then Ok(()) else Err("TypeError");
    }

    /** One loop of `updateRoute`: `getSgmtBw`, add `delta`, `setSgmtBw`, link after link. */
    method ShiftCables(links: seq<LinkKey>, delta: real) returns (ok: bool)
      modifies this`cablesBw
      ensures (cablesBw, ok) == Shift(old(cablesBw), links, delta)
    {
      var i := 0;
      while i < |links|
        invariant 0 <= i <= |links|
        invariant Shift(old(cablesBw), links, delta) == Shift(cablesBw, links[i..], delta)
      {
        assert links[i..][0] == links[i] && links[i..][1..] == links[i + 1..];
        var val := SgmtBw(cablesBw, Key(links[i]));
        if val.None? {
          return false;
        }
        cablesBw := cablesBw[Key(links[i]) := Some(val.value + delta)];
        i := i + 1;
      }
      assert links[i..] == [];
      return true;
    }
  }
}
