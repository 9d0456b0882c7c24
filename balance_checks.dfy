/**
 * The decisions of the flow-balancing plugin (`BwFlowBalancing`), over a
 * snapshot of the controller: the reservation check, the selection of
 * reserved routes, the "nuisance" veto, the candidate via of least use, the
 * 5% gain threshold, the per-cable bookkeeping table and the descending sort
 * of the flows.
 */
module BalanceChecks {
  import opened Wrappers
  import opened Network
  import opened RoutePaths
  import opened Routes
  import Dijkstra
  import BwGraph

  // ------------------------------------------------------------ the cable table

  /** `cablesBw`: the used bandwidth of each (dpid1, dpid2), None before the link's first sample. */
  type Cables = map<(int, int), Option<real>>

  /** The key of a link in the cable table. */
  function Key(l: LinkKey): (int, int)
  {
    (l.dpid1, l.dpid2)
  }

  /** `getSgmtBw`: a missing key reads as 0. */
  function SgmtBw(d: Cables, key: (int, int)): Option<real>
  {
    if key in d then d[key] else Some(0.0)
  }

  /** `getCablesBw`: each link of the discovery table stores its used bandwidth, a later link overwriting. */
  function CablesOf(links: seq<LinkState>): Cables
  {
    if links == [] then map[]
    else CablesOf(links[..|links| - 1])[Key(links[|links| - 1].key) := links[|links| - 1].used]
  }

  /** The table holds a key iff some link has it, with the reading of the last such link. */
  lemma {:induction false} CablesOfLookup(links: seq<LinkState>, key: (int, int))
    ensures key in CablesOf(links) <==> exists i :: 0 <= i < |links| && Key(links[i].key) == key
    ensures key in CablesOf(links) ==>
              exists i :: 0 <= i < |links| && Key(links[i].key) == key && CablesOf(links)[key] == links[i].used &&
                forall j :: i < j < |links| ==> Key(links[j].key) != key
  {
    if links != [] {
      var n := |links| - 1;
      var init := links[..n];
      CablesOfLookup(init, key);
      assert forall i :: 0 <= i < n ==> init[i] == links[i];
      if Key(links[n].key) != key && key in CablesOf(init) {
        var i :| 0 <= i < n && Key(init[i].key) == key && CablesOf(init)[key] == init[i].used &&
                 forall j :: i < j < n ==> Key(init[j].key) != key;
        assert Key(links[i].key) == key && CablesOf(links)[key] == links[i].used;
      }
    }
  }

  /** `getCablesBw`, the loop filling a fresh dictionary. */
  method GetCablesBw(links: seq<LinkState>) returns (d: Cables)
    ensures d == CablesOf(links)
  {
    d := map[];
    var i := 0;
    while i < |links|
      invariant 0 <= i <= |links|
      invariant d == CablesOf(links[..i])
    {
      assert links[..i + 1][..i] == links[..i];
      d := d[Key(links[i].key) := links[i].used];
      i := i + 1;
    }
    assert links[..i] == links;
  }

  /**
   * The cable table after moving `delta` onto every link of `links`, in order
   * (the loops of `updateRoute`), and whether every reading was a number; a
   * link not sampled yet stops the walk, as the TypeError does, with the
   * earlier links already updated.
   */
  function Shift(d: Cables, links: seq<LinkKey>, delta: real): (Cables, bool)
    decreases |links|
  {
    if links == [] then (d, true)
    else
      var v := SgmtBw(d, Key(links[0]));
      if v.None? then (d, false)
      else Shift(d[Key(links[0]) := Some(v.value + delta)], links[1..], delta)
  }

  /** How many links of `links` share the cable key `key`. */
  function Count(links: seq<LinkKey>, key: (int, int)): nat
  {
    if links == [] then 0 else (if Key(links[0]) == key then 1 else 0) + Count(links[1..], key)
  }

  /** Every link of `links` reads as a number in `d`. */
  predicate Sampled(d: Cables, links: seq<LinkKey>)
  {
    forall i :: 0 <= i < |links| ==> SgmtBw(d, Key(links[i])).Some?
  }

  /** `delta` added `n` times. */
  function Scaled(delta: real, n: nat): real
  {
    delta * n as real
  }

  /** The table after the first step of a shift. */
  function ShiftHead(d: Cables, links: seq<LinkKey>, delta: real): Cables
    requires links != [] && SgmtBw(d, Key(links[0])).Some?
  {
    d[Key(links[0]) := Some(SgmtBw(d, Key(links[0])).value + delta)]
  }

  /** The rest of a sampled via stays sampled after the first step. */
  lemma {:induction false} SampledAfterHead(d: Cables, links: seq<LinkKey>, delta: real)
    requires links != [] && Sampled(d, links)
    ensures Sampled(ShiftHead(d, links, delta), links[1..])
  {
    var d1 := ShiftHead(d, links, delta);
    forall i | 0 <= i < |links[1..]|
      ensures SgmtBw(d1, Key(links[1..][i])).Some?
    {
      assert links[1..][i] == links[i + 1];
      assert SgmtBw(d, Key(links[i + 1])).Some?;
    }
  }

  /** A shift over a sampled via walks to its end. */
  lemma {:induction false} ShiftCompletes(d: Cables, links: seq<LinkKey>, delta: real)
    requires Sampled(d, links)
    ensures Shift(d, links, delta).1
    decreases |links|
  {
    if links != [] {
      assert SgmtBw(d, Key(links[0])).Some?;
      SampledAfterHead(d, links, delta);
      ShiftCompletes(ShiftHead(d, links, delta), links[1..], delta);
    }
  }

  /** A shift over a sampled via adds exactly the cables of the via. */
  lemma {:induction false} ShiftKeys(d: Cables, links: seq<LinkKey>, delta: real, key: (int, int))
    requires Sampled(d, links)
    ensures key in Shift(d, links, delta).0 <==> key in d || Count(links, key) > 0
    decreases |links|
  {
    if links != [] {
      assert SgmtBw(d, Key(links[0])).Some?;
      SampledAfterHead(d, links, delta);
      ShiftKeys(ShiftHead(d, links, delta), links[1..], delta, key);
    }
  }

  /** One more link on a cable adds one more `delta`. */
  lemma ScaledStep(delta: real, n: nat)
    ensures Scaled(delta, n + 1) == delta + Scaled(delta, n)
  {
  }

  /** A shift over a sampled via adds `delta` to a sampled cable once per link on it. */
  lemma {:induction false} ShiftReading(d: Cables, links: seq<LinkKey>, delta: real, key: (int, int))
    requires Sampled(d, links) && SgmtBw(d, key).Some?
    ensures SgmtBw(Shift(d, links, delta).0, key) == Some(SgmtBw(d, key).value + Scaled(delta, Count(links, key)))
    decreases |links|
  {
    if links != [] {
      var k0 := Key(links[0]);
      assert SgmtBw(d, k0).Some?;
      var d1 := ShiftHead(d, links, delta);
      SampledAfterHead(d, links, delta);
      ShiftReading(d1, links[1..], delta, key);
      assert Shift(d, links, delta) == Shift(d1, links[1..], delta);
      var n := Count(links[1..], key);
      if key == k0 {
        assert Count(links, key) == n + 1;
        ScaledStep(delta, n);
      } else {
        assert SgmtBw(d1, key) == SgmtBw(d, key);
        assert Count(links, key) == n;
      }
    }
  }

  /** A cable that holds no reading is on no link of a sampled via, and a shift leaves it so. */
  lemma {:induction false} ShiftUnsampled(d: Cables, links: seq<LinkKey>, delta: real, key: (int, int))
    requires Sampled(d, links) && SgmtBw(d, key).None?
    ensures Count(links, key) == 0 && SgmtBw(Shift(d, links, delta).0, key) == SgmtBw(d, key)
    decreases |links|
  {
    if links != [] {
      var k0 := Key(links[0]);
      assert SgmtBw(d, k0).Some?;
      var d1 := ShiftHead(d, links, delta);
      SampledAfterHead(d, links, delta);
      assert SgmtBw(d1, key) == SgmtBw(d, key);
      ShiftUnsampled(d1, links[1..], delta, key);
      assert Shift(d, links, delta) == Shift(d1, links[1..], delta);
    }
  }

  /**
   * A completed shift adds `delta` to a cable once per link on it: the new
   * reading of every key is its old reading (0 when missing) plus
   * `delta * Count`, and the keys gained are exactly those of the links.
   */
  lemma ShiftValues(d: Cables, links: seq<LinkKey>, delta: real, key: (int, int))
    requires Sampled(d, links)
    ensures Shift(d, links, delta).1
    ensures key in Shift(d, links, delta).0 <==> key in d || Count(links, key) > 0
    ensures SgmtBw(d, key).Some? ==>
              SgmtBw(Shift(d, links, delta).0, key) == Some(SgmtBw(d, key).value + Scaled(delta, Count(links, key)))
    ensures SgmtBw(d, key).None? ==> Count(links, key) == 0 && Shift(d, links, delta).0[key] == d[key]
  {
    ShiftCompletes(d, links, delta);
    ShiftKeys(d, links, delta, key);
    if SgmtBw(d, key).Some? {
      ShiftReading(d, links, delta, key);
    } else {
      ShiftUnsampled(d, links, delta, key);
    }
  }

  /** A positive count has a witness. */
  lemma {:induction false} CountWitness(links: seq<LinkKey>, key: (int, int))
    requires Count(links, key) > 0
    ensures exists i :: 0 <= i < |links| && Key(links[i]) == key
  {
    if Key(links[0]) != key {
      CountWitness(links[1..], key);
      var i :| 0 <= i < |links[1..]| && Key(links[1..][i]) == key;
      assert links[i + 1] == links[1..][i];
    }
  }

  /**
   * Moving a flow off a via and back onto the same via restores every
   * reading (a cable missing before reads 0 afterwards).
   */
  lemma ShiftRoundTrip(d: Cables, links: seq<LinkKey>, delta: real, key: (int, int))
    requires Sampled(d, links)
    ensures Shift(d, links, -delta).1
    ensures Shift(Shift(d, links, -delta).0, links, delta).1
    ensures SgmtBw(Shift(Shift(d, links, -delta).0, links, delta).0, key) == SgmtBw(d, key)
  {
    var d1 := Shift(d, links, -delta).0;
    forall i | 0 <= i < |links|
      ensures SgmtBw(d1, Key(links[i])).Some?
    {
      ShiftReading(d, links, -delta, Key(links[i]));
    }
    ShiftCompletes(d, links, -delta);
    ShiftCompletes(d1, links, delta);
    if SgmtBw(d, key).Some? {
      ShiftReading(d, links, -delta, key);
      ShiftReading(d1, links, delta, key);
      ScaledNegated(delta, Count(links, key));
    } else {
      ShiftUnsampled(d, links, -delta, key);
      ShiftUnsampled(d1, links, delta, key);
    }
  }

  /** Taking `delta` away `n` times is the negation of adding it `n` times. */
  lemma ScaledNegated(delta: real, n: nat)
    ensures Scaled(-delta, n) == -Scaled(delta, n)
  {
  }

  // ------------------------------------------------------------ reservation check

  /** The bandwidth a flow still gets on a link: `max(0, maxTheorical - (used - current))`. */
  function Headroom(maxTheorical: real, used: real, current: real): (r: real)
    ensures r >= 0.0 && r >= maxTheorical - (used - current)
    ensures r == 0.0 || r == maxTheorical - (used - current)
  {
    var a := maxTheorical - (used - current);
    if a < 0.0 then 0.0 else a
  }

  /** A link is sampled and leaves the flow at least its reservation. */
  predicate LinkRespects(l: LinkState, current: real, reserved: real)
  {
    l.used.Some? && Headroom(l.maxTheorical, l.used.value, current) >= reserved
  }

  /**
   * The loop of `isBandwidthRespected` over the route's links: False at the
   * first link leaving too little headroom. An unsampled link reached first
   * raises TypeError: its reading is formatted with `%.3f` for the debug log
   * before the None test.
   */
  function LinksRespect(links: seq<LinkState>, current: real, reserved: real): (r: Result<bool>)
    ensures r.Err? ==> r.error == "TypeError"
  {
    if links == [] then Ok(true)
    else if links[0].used.None? then Err("TypeError")
    else if Headroom(links[0].maxTheorical, links[0].used.value, current) < reserved then Ok(false)
    else LinksRespect(links[1..], current, reserved)
  }

  /** Link `i` is the first that does not respect the reservation. */
  predicate FirstFailing(links: seq<LinkState>, current: real, reserved: real, i: int)
  {
    0 <= i < |links| && !LinkRespects(links[i], current, reserved) &&
    forall j :: 0 <= j < i ==> LinkRespects(links[j], current, reserved)
  }

  /** The first failing link of the tail, shifted by one, is the first failing link of the whole. */
  lemma FirstFailingShift(links: seq<LinkState>, current: real, reserved: real, i: int)
    requires links != [] && LinkRespects(links[0], current, reserved)
    ensures FirstFailing(links[1..], current, reserved, i) <==> FirstFailing(links, current, reserved, i + 1)
  {
    assert forall j :: 0 <= j < |links| - 1 ==> links[1..][j] == links[j + 1];
    if FirstFailing(links, current, reserved, i + 1) {
      forall j | 0 <= j < i
        ensures LinkRespects(links[1..][j], current, reserved)
      {
        assert links[1..][j] == links[j + 1];
      }
    }
  }

  /**
   * The loop answers True iff every link respects the reservation; when
   * some link does not, the first such link decides: unsampled, it raises,
   * and sampled, the answer is False.
   */
  lemma {:induction false} LinksRespectAll(links: seq<LinkState>, current: real, reserved: real)
    ensures LinksRespect(links, current, reserved) == Ok(true) <==>
            forall i :: 0 <= i < |links| ==> LinkRespects(links[i], current, reserved)
    ensures LinksRespect(links, current, reserved).Err? <==>
            exists i :: FirstFailing(links, current, reserved, i) && links[i].used.None?
    ensures LinksRespect(links, current, reserved) == Ok(false) <==>
            exists i :: FirstFailing(links, current, reserved, i) && links[i].used.Some?
    decreases |links|
  {
    if links != [] {
      if LinkRespects(links[0], current, reserved) {
        var rest := links[1..];
        LinksRespectAll(rest, current, reserved);
        assert forall i :: 1 <= i < |links| ==> links[i] == rest[i - 1];
        forall i | true
          ensures FirstFailing(rest, current, reserved, i) <==> FirstFailing(links, current, reserved, i + 1)
        {
          FirstFailingShift(links, current, reserved, i);
        }
        assert !FirstFailing(links, current, reserved, 0);
        if exists i :: FirstFailing(links, current, reserved, i) {
          var i :| FirstFailing(links, current, reserved, i);
          assert FirstFailing(rest, current, reserved, i - 1);
        }
      } else {
        assert FirstFailing(links, current, reserved, 0);
        forall i | FirstFailing(links, current, reserved, i)
          ensures i == 0
        {
        }
      }
    }
  }

  /**
   * `isBandwidthRespected` for a route's conditions, its flow's mean
   * bandwidth and its links: True before the loop when nothing nonzero is
   * reserved, the flow is unsampled or gets its reservation, or there are no
   * links.
   */
  function IsBandwidthRespected(conditions: Option<Conditions>, flow: Option<real>, links: seq<LinkState>): Result<bool>
  {
    if !Truthy(conditions) then Ok(true)
    else if !ReservesBandwidth(conditions) then Ok(true)
    else if flow.None? then Ok(true)
    else if flow.value >= conditions.value.Bw().value then Ok(true)
    else if links == [] then Ok(true)
    else LinksRespect(links, flow.value, conditions.value.Bw().value)
  }

  /**
   * A route's check answers other than True iff it reserves a nonzero
   * bandwidth, its flow has a sample below the reservation, and some link is
   * unsampled or leaves less headroom than reserved; it raises iff the first
   * such link is unsampled.
   */
  lemma RespectedIff(conditions: Option<Conditions>, flow: Option<real>, links: seq<LinkState>)
    ensures IsBandwidthRespected(conditions, flow, links) != Ok(true) <==>
              ReservesBandwidth(conditions) && flow.Some? && flow.value < conditions.value.Bw().value && links != [] &&
              exists i :: 0 <= i < |links| && !LinkRespects(links[i], flow.value, conditions.value.Bw().value)
    ensures IsBandwidthRespected(conditions, flow, links).Err? <==>
              ReservesBandwidth(conditions) && flow.Some? && flow.value < conditions.value.Bw().value &&
              exists i :: FirstFailing(links, flow.value, conditions.value.Bw().value, i) && links[i].used.None?
  {
    if ReservesBandwidth(conditions) && flow.Some? {
      LinksRespectAll(links, flow.value, conditions.value.Bw().value);
    }
  }

  /** The snapshots of a route's links. */
  function States(links: seq<LinkKey>, state: LinkKey -> LinkState): (r: seq<LinkState>)
    ensures |r| == |links| && forall i :: 0 <= i < |links| ==> r[i] == state(links[i])
  {
    seq(|links|, i requires 0 <= i < |links| => state(links[i]))
  }

  /** `flowBws.get(cookie)`: the flow's mean bandwidth, when sampled. */
  function FlowOf(flows: map<int, real>, c: int): Option<real>
  {
    if c in flows then Some(flows[c]) else None
  }

  /** `isBandwidthRespected(route)`: its answer, or the TypeError it raises. */
  function RouteCheck(r: Route, flows: map<int, real>, state: LinkKey -> LinkState): Result<bool>
  {
    IsBandwidthRespected(r.conditions, FlowOf(flows, r.cookie), States(r.links, state))
  }

  /** The check answers True for the route. */
  predicate RouteRespected(r: Route, flows: map<int, real>, state: LinkKey -> LinkState)
  {
    RouteCheck(r, flows, state) == Ok(true)
  }

  /**
   * The list `respectBandwidthReservation` returns when no check raises: the
   * routes whose check does not answer True, in input order.
   */
  function Violations(routes: seq<Route>, flows: map<int, real>, state: LinkKey -> LinkState): seq<Route>
  {
    if routes == [] then []
    else (if RouteRespected(routes[0], flows, state) then [] else [routes[0]]) + Violations(routes[1..], flows, state)
  }

  /** Exactly the routes not respected are reported. */
  lemma {:induction false} ViolationsExact(routes: seq<Route>, flows: map<int, real>, state: LinkKey -> LinkState)
    ensures forall r :: r in Violations(routes, flows, state) <==> r in routes && !RouteRespected(r, flows, state)
  {
    if routes != [] {
      ViolationsExact(routes[1..], flows, state);
      assert forall r :: r in routes <==> r == routes[0] || r in routes[1..];
    }
  }

  /** Checking the reported routes again reports the same list. */
  lemma {:induction false} ViolationsIdempotent(routes: seq<Route>, flows: map<int, real>, state: LinkKey -> LinkState)
    ensures Violations(Violations(routes, flows, state), flows, state) == Violations(routes, flows, state)
  {
    if routes != [] {
      ViolationsIdempotent(routes[1..], flows, state);
      var rest := Violations(routes[1..], flows, state);
      if !RouteRespected(routes[0], flows, state) {
        var v := [routes[0]] + rest;
        assert v[0] == routes[0] && v[1..] == rest;
        assert Violations(v, flows, state) == [routes[0]] + Violations(rest, flows, state);
      } else {
        assert Violations(routes, flows, state) == rest;
      }
    }
  }

  // ------------------------------------------------------------ checkConditions

  /** A condition dictionary with the bandwidth key and without the fix key. */
  predicate BandwidthOnly(c: Option<Conditions>)
  {
    Truthy(c) && c.value.fix.None? && c.value.bandwidth.Some?
  }

  /**
   * The selection loop of `checkConditions` over `routes.values()`: a route
   * with a bandwidth condition and no fix condition; a None value (a cookie
   * reserved but not yet filled) raises AttributeError.
   */
  function ReservedRoutes(values: seq<Option<Route>>): Result<seq<Route>>
  {
    if values == [] then Ok([])
    else if values[0].None? then Err("AttributeError")
    else
      var rest := ReservedRoutes(values[1..]);
      if rest.Err? then rest
      else Ok((if BandwidthOnly(values[0].value.conditions) then [values[0].value] else []) + rest.value)
  }

  /** The selection fails iff a value is None, and otherwise keeps exactly the bandwidth-only routes. */
  lemma {:induction false} ReservedRoutesExact(values: seq<Option<Route>>)
    ensures ReservedRoutes(values).Err? <==> None in values
    ensures ReservedRoutes(values).Ok? ==>
              forall r :: r in ReservedRoutes(values).value <==> Some(r) in values && BandwidthOnly(r.conditions)
  {
    if values != [] {
      ReservedRoutesExact(values[1..]);
      assert forall x :: x in values <==> x == values[0] || x in values[1..];
    }
  }

  // ------------------------------------------------------------ nuisance

  /** `core.routing.getRoute(cookie)`. */
  function GetRoute(routes: BwGraph.RouteTable, c: int): Option<Route>
  {
    if c in routes then routes[c] else None
  }

  /**
   * Cookie `c` on a candidate link belongs to a route with a bandwidth
   * reservation and a flow sample, and moving a flow of bandwidth `current`
   * onto the link (used `linkBw`, capacity `theo`) leaves that route less
   * than its reservation.
   */
  predicate Hurts(c: int, routes: BwGraph.RouteTable, flows: map<int, real>, current: real, theo: real, linkBw: Option<real>)
  {
    var r := GetRoute(routes, c);
    r.Some? && r.value.conditions.Some? && r.value.conditions.value.Bw().Some? &&
    r.value.cookie in flows && linkBw.Some? &&
    theo - (linkBw.value - flows[r.value.cookie]) + current < r.value.conditions.value.Bw().value
  }

  /** The inner loop of `isNewRouteNuisanceForBandwidthReservation`, over one link's cookies. */
  function NuisanceCookies(cookies: seq<int>, routes: BwGraph.RouteTable, flows: map<int, real>, current: real, theo: real, linkBw: Option<real>): Result<bool>
  {
    if cookies == [] then Ok(false)
    else
      var r := GetRoute(routes, cookies[0]);
      if r.None? then Err("AttributeError")
      else if r.value.conditions.Some? && r.value.conditions.value.bandwidth.Some? then
        if r.value.cookie !in flows then NuisanceCookies(cookies[1..], routes, flows, current, theo, linkBw)
        else if linkBw.None? then Err("TypeError")
        else if r.value.conditions.value.Bw().Some? &&
                theo - (linkBw.value - flows[r.value.cookie]) + current < r.value.conditions.value.Bw().value then Ok(true)
        else NuisanceCookies(cookies[1..], routes, flows, current, theo, linkBw)
      else NuisanceCookies(cookies[1..], routes, flows, current, theo, linkBw)
  }

  /** When the inner loop completes, it answers True iff some cookie is hurt. */
  lemma {:induction false} NuisanceCookiesIff(cookies: seq<int>, routes: BwGraph.RouteTable, flows: map<int, real>, current: real, theo: real, linkBw: Option<real>)
    ensures NuisanceCookies(cookies, routes, flows, current, theo, linkBw).Ok? ==>
              (NuisanceCookies(cookies, routes, flows, current, theo, linkBw).value <==>
               exists j :: 0 <= j < |cookies| && Hurts(cookies[j], routes, flows, current, theo, linkBw))
  {
    if cookies != [] {
      NuisanceCookiesIff(cookies[1..], routes, flows, current, theo, linkBw);
      assert forall j :: 1 <= j < |cookies| ==> cookies[j] == cookies[1..][j - 1];
    }
  }

  /** Some cookie on link `l` is hurt by the move. */
  predicate LinkHurts(l: LinkKey, routes: BwGraph.RouteTable, flows: map<int, real>, current: real, state: LinkKey -> LinkState, cables: Cables)
  {
    exists j :: 0 <= j < |state(l).cookies| &&
      Hurts(state(l).cookies[j], routes, flows, current, state(l).maxTheorical, SgmtBw(cables, Key(l)))
  }

  /** The outer loop, over the candidate's links. */
  function NuisanceLinks(cand: seq<LinkKey>, routes: BwGraph.RouteTable, flows: map<int, real>, current: real, state: LinkKey -> LinkState, cables: Cables): Result<bool>
  {
    if cand == [] then Ok(false)
    else
      var l := cand[0];
      var here := NuisanceCookies(state(l).cookies, routes, flows, current, state(l).maxTheorical, SgmtBw(cables, Key(l)));
      if here.Err? || here.value then here
      else NuisanceLinks(cand[1..], routes, flows, current, state, cables)
  }

  /** When the outer loop completes, it answers True iff some link is hurt. */
  lemma {:induction false} NuisanceLinksIff(cand: seq<LinkKey>, routes: BwGraph.RouteTable, flows: map<int, real>, current: real, state: LinkKey -> LinkState, cables: Cables)
    ensures NuisanceLinks(cand, routes, flows, current, state, cables).Ok? ==>
              (NuisanceLinks(cand, routes, flows, current, state, cables).value <==>
               exists i :: 0 <= i < |cand| && LinkHurts(cand[i], routes, flows, current, state, cables))
  {
    if cand != [] {
      var l := cand[0];
      NuisanceCookiesIff(state(l).cookies, routes, flows, current, state(l).maxTheorical, SgmtBw(cables, Key(l)));
      NuisanceLinksIff(cand[1..], routes, flows, current, state, cables);
      assert forall i :: 1 <= i < |cand| ==> cand[i] == cand[1..][i - 1];
    }
  }

  /**
   * `isNewRouteNuisanceForBandwidthReservation(route, candidate)`: the moved
   * flow's bandwidth is looked up first (KeyError without a sample).
   */
  function Nuisance(cookie: int, cand: seq<LinkKey>, routes: BwGraph.RouteTable, flows: map<int, real>, state: LinkKey -> LinkState, cables: Cables): Result<bool>
  {
    if cookie !in flows then Err("KeyError")
    else NuisanceLinks(cand, routes, flows, flows[cookie], state, cables)
  }

  // ------------------------------------------------------------ getMinBwVias

  /** A stored route whose condition dictionary lacks the bandwidth key. */
  predicate LacksBandwidthKey(route: Option<Route>)
  {
    route.Some? && route.value.conditions.Some? && route.value.conditions.value.bandwidth.None?
  }

  /**
   * The reservations subtracted from a link's capacity in `getMinBwVias`:
   * every known route with a condition dictionary adds its bandwidth, a
   * bandwidth key holding None adds nothing, and a dictionary without that
   * key raises KeyError.
   */
  function ReservedOn(cookies: seq<int>, routes: BwGraph.RouteTable): (r: Result<real>)
    ensures r.Err? <==> exists c :: c in cookies && LacksBandwidthKey(GetRoute(routes, c))
    ensures r.Err? ==> r.error == "KeyError"
    ensures r.Ok? && BwGraph.NonNegativeReservations(routes) ==> r.value >= 0.0
  {
    if cookies == [] then Ok(0.0)
    else
      var rest := ReservedOn(cookies[1..], routes);
      var route := GetRoute(routes, cookies[0]);
      if route.None? || route.value.conditions.None? then rest
      else if route.value.conditions.value.bandwidth.None? then Err("KeyError")
      else if rest.Err? || route.value.conditions.value.Bw().None? then rest
      else Ok(route.value.conditions.value.Bw().value + rest.value)
  }

  /** A link can carry `minBw`: `min(available, unreserved capacity) >= minBw`. */
  predicate Wide(l: LinkKey, routes: BwGraph.RouteTable, state: LinkKey -> LinkState, minBw: real)
  {
    var res := ReservedOn(state(l).cookies, routes);
    res.Ok? && state(l).available >= minBw && state(l).maxTheorical - res.value >= minBw
  }

  /**
   * The first loop of `getMinBwVias` over the Dijkstra hops: each hop's link
   * (first match in the discovery table; a missing one raises AttributeError)
   * is collected until one is too narrow. Returns the links collected and
   * whether the walk reached the last hop.
   */
  function WalkVia(hops: seq<Dijkstra.Hop>, keys: seq<LinkKey>, routes: BwGraph.RouteTable, state: LinkKey -> LinkState, minBw: real): Result<(seq<LinkKey>, bool)>
  {
    if hops == [] then Ok(([], true))
    else
      var l := FirstLinkByDpid(keys, hops[0].u, hops[0].v);
      if l.None? then Err("AttributeError")
      else
        var res := ReservedOn(state(l.value).cookies, routes);
        if res.Err? then Err(res.error)
        else if state(l.value).available < minBw || state(l.value).maxTheorical - res.value < minBw then Ok(([], false))
        else
          var rest := WalkVia(hops[1..], keys, routes, state, minBw);
          if rest.Err? then rest
          else Ok(([l.value] + rest.value.0, rest.value.1))
  }

  /** A link follows a hop when it leaves the hop's first switch for its second. */
  predicate Follows(l: LinkKey, h: Dijkstra.Hop)
  {
    l.dpid1 == h.u && l.dpid2 == h.v
  }

  /**
   * The links collected follow the hops one for one, each wide enough; a
   * completed walk has one link per hop.
   */
  lemma {:induction false} WalkViaFollows(hops: seq<Dijkstra.Hop>, keys: seq<LinkKey>, routes: BwGraph.RouteTable, state: LinkKey -> LinkState, minBw: real)
    ensures var w := WalkVia(hops, keys, routes, state, minBw);
            w.Ok? ==>
              |w.value.0| <= |hops| && (w.value.1 ==> |w.value.0| == |hops|) &&
              forall i :: 0 <= i < |w.value.0| ==> Follows(w.value.0[i], hops[i]) && w.value.0[i] in keys && Wide(w.value.0[i], routes, state, minBw)
  {
    if hops != [] {
      WalkViaFollows(hops[1..], keys, routes, state, minBw);
      var w := WalkVia(hops, keys, routes, state, minBw);
      var l := FirstLinkByDpid(keys, hops[0].u, hops[0].v);
      if w.Ok? && l.Some? && w.value.0 != [] {
        var rest := WalkVia(hops[1..], keys, routes, state, minBw);
        assert w.value.0 == [l.value] + rest.value.0;
        forall i | 0 <= i < |w.value.0|
          ensures Follows(w.value.0[i], hops[i]) && w.value.0[i] in keys && Wide(w.value.0[i], routes, state, minBw)
        {
          if i > 0 {
            assert w.value.0[i] == rest.value.0[i - 1];
            assert hops[i] == hops[1..][i - 1];
          }
        }
      }
    }
  }

  /**
   * The second loop of `getMinBwVias` over a via: every cable's current use
   * leaves `minBw` of its capacity (an unsampled cable raises TypeError).
   */
  function FitsCables(via: seq<LinkKey>, state: LinkKey -> LinkState, cables: Cables, minBw: real): Result<bool>
  {
    if via == [] then Ok(true)
    else
      var used := SgmtBw(cables, Key(via[0]));
      if used.None? then Err("TypeError")
      else if state(via[0]).maxTheorical - used.value < minBw then Ok(false)
      else FitsCables(via[1..], state, cables, minBw)
  }

  /** A via fits iff every cable on it is sampled and leaves `minBw`. */
  lemma {:induction false} FitsCablesIff(via: seq<LinkKey>, state: LinkKey -> LinkState, cables: Cables, minBw: real)
    ensures FitsCables(via, state, cables, minBw) == Ok(true) <==>
              forall i :: 0 <= i < |via| ==>
                SgmtBw(cables, Key(via[i])).Some? && state(via[i]).maxTheorical - SgmtBw(cables, Key(via[i])).value >= minBw
  {
    if via != [] {
      FitsCablesIff(via[1..], state, cables, minBw);
      assert forall i :: 1 <= i < |via| ==> via[i] == via[1..][i - 1];
    }
  }

  /**
   * `getMinBwVias` as written: the links collected by the first loop become
   * the candidate even when the loop stopped at a narrow link.
   */
  function MinBwViasAsWritten(hops: seq<Dijkstra.Hop>, keys: seq<LinkKey>, routes: BwGraph.RouteTable, state: LinkKey -> LinkState,
                              cables: Cables, minBw: real, avoid: seq<seq<LinkKey>>): Result<Option<seq<LinkKey>>>
  {
    var w := WalkVia(hops, keys, routes, state, minBw);
    if w.Err? then Err(w.error)
    else if w.value.0 == [] || w.value.0 in avoid then Ok(None)
    else
      var fits := FitsCables(w.value.0, state, cables, minBw);
      if fits.Err? then Err(fits.error)
      else if fits.value then Ok(Some(w.value.0)) else Ok(None)
  }

  /**
   * `getMinBwVias` with the evidently intended first loop: a walk stopped by
   * a narrow link yields no candidate.
   */
  function MinBwVias(hops: seq<Dijkstra.Hop>, keys: seq<LinkKey>, routes: BwGraph.RouteTable, state: LinkKey -> LinkState,
                     cables: Cables, minBw: real, avoid: seq<seq<LinkKey>>): Result<Option<seq<LinkKey>>>
  {
    var w := WalkVia(hops, keys, routes, state, minBw);
    if w.Err? then Err(w.error)
    else if !w.value.1 || w.value.0 == [] || w.value.0 in avoid then Ok(None)
    else
      var fits := FitsCables(w.value.0, state, cables, minBw);
      if fits.Err? then Err(fits.error)
      else if fits.value then Ok(Some(w.value.0)) else Ok(None)
  }

  /** A link stopping short of the destination makes the as-written search offer the links before it. */
  lemma MinBwViasAsWrittenTruncates()
    ensures var a := LinkKey(1, 1, 2, 1);
            var b := LinkKey(2, 2, 3, 1);
            var state := (l: LinkKey) => if l == a then LinkState(a, [], Some(0.0), 100.0, 100.0, [])
                                         else LinkState(l, [], Some(100.0), 0.0, 100.0, []);
            var hops := [Dijkstra.Hop(1, 2, 0.0), Dijkstra.Hop(2, 3, 0.0)];
            MinBwViasAsWritten(hops, [a, b], map[], state, map[], 10.0, []) == Ok(Some([a])) &&
            LastSwitch([a]) == Some(2) &&
            MinBwVias(hops, [a, b], map[], state, map[], 10.0, []) == Ok(None)
  {
    var a := LinkKey(1, 1, 2, 1);
    var b := LinkKey(2, 2, 3, 1);
    var state := (l: LinkKey) => if l == a then LinkState(a, [], Some(0.0), 100.0, 100.0, [])
                                 else LinkState(l, [], Some(100.0), 0.0, 100.0, []);
    var hops := [Dijkstra.Hop(1, 2, 0.0), Dijkstra.Hop(2, 3, 0.0)];
    assert FirstLinkByDpid([a, b], 1, 2) == Some(a);
    assert FirstLinkByDpid([a, b], 2, 3) == Some(b);
    assert state(a) == LinkState(a, [], Some(0.0), 100.0, 100.0, []);
    assert state(b).available == 0.0;
    assert hops[1..] == [Dijkstra.Hop(2, 3, 0.0)];
    assert ReservedOn([], map[]) == Ok(0.0);
    assert WalkVia(hops[1..], [a, b], map[], state, 10.0) == Ok(([], false));
    assert [a] + [] == [a];
    assert WalkVia(hops, [a, b], map[], state, 10.0) == Ok(([a], false));
  }

  /**
   * A candidate of the corrected search follows the Dijkstra hops link for
   * link, so on a Dijkstra chain it leaves `src` and reaches `dst`; it is not
   * avoided, and every link on it is wide enough and fits its cable.
   */
  lemma MinBwViasFollowsHops(hops: seq<Dijkstra.Hop>, keys: seq<LinkKey>, routes: BwGraph.RouteTable, state: LinkKey -> LinkState,
                             cables: Cables, minBw: real, avoid: seq<seq<LinkKey>>, src: int, dst: int, g: Dijkstra.Graph)
    ensures var r := MinBwVias(hops, keys, routes, state, cables, minBw, avoid);
            r.Ok? && r.value.Some? ==>
              |r.value.value| == |hops| && r.value.value !in avoid &&
              (forall i :: 0 <= i < |hops| ==> Follows(r.value.value[i], hops[i]) && Wide(r.value.value[i], routes, state, minBw)) &&
              (forall i :: 0 <= i < |hops| ==> state(r.value.value[i]).maxTheorical - SgmtBw(cables, Key(r.value.value[i])).UnwrapOr(0.0) >= minBw) &&
              (Dijkstra.Chain(hops, src, dst, g) ==> FirstSwitch(r.value.value) == Some(src) && LastSwitch(r.value.value) == Some(dst))
  {
    var r := MinBwVias(hops, keys, routes, state, cables, minBw, avoid);
    if r.Ok? && r.value.Some? {
      WalkViaFollows(hops, keys, routes, state, minBw);
      FitsCablesIff(r.value.value, state, cables, minBw);
    }
  }

  /**
   * The retry the nuisance branch evidently intends: once the candidate is
   * added to the vias to avoid, the same search offers nothing.
   */
  lemma RetryFindsNothing(hops: seq<Dijkstra.Hop>, keys: seq<LinkKey>, routes: BwGraph.RouteTable, state: LinkKey -> LinkState,
                          cables: Cables, minBw: real, avoid: seq<seq<LinkKey>>)
    requires MinBwVias(hops, keys, routes, state, cables, minBw, avoid).Ok?
    requires MinBwVias(hops, keys, routes, state, cables, minBw, avoid).value.Some?
    ensures MinBwVias(hops, keys, routes, state, cables, minBw, avoid + [MinBwVias(hops, keys, routes, state, cables, minBw, avoid).value.value]) == Ok(None)
  {
    var c := MinBwVias(hops, keys, routes, state, cables, minBw, avoid).value.value;
    assert c in avoid + [c];
  }

  // ------------------------------------------------------------ optimizeFlows

  /** The flows below 1000 bytes per second are ignored. */
  const Significant: real := 1000.0

  /** The relative gain a move must exceed, 5%. */
  const GainThreshold: real := 0.05

  /** Sum of the cable readings along a route's links (TypeError on an unsampled cable). */
  function SumCables(cables: Cables, links: seq<LinkKey>): Result<real>
  {
    if links == [] then Ok(0.0)
    else
      var v := SgmtBw(cables, Key(links[0]));
      var rest := SumCables(cables, links[1..]);
      if v.None? then Err("TypeError")
      else if rest.Err? then rest
      else Ok(v.value + rest.value)
  }

  /** The mean cable reading along a via, 0 for an empty via. */
  function MeanCables(cables: Cables, links: seq<LinkKey>): (r: Result<real>)
    ensures r.Ok? <==> SumCables(cables, links).Ok?
    ensures r.Ok? && links != [] ==> r.value * |links| as real == SumCables(cables, links).value
    ensures links == [] ==> r == Ok(0.0)
  {
    var s := SumCables(cables, links);
    if s.Err? then s
    else if |links| > 0 then Ok(s.value / |links| as real)
    else Ok(0.0)
  }

  /** `gain = routeBw - max(routeBw - f, pvBw + f)`: how much the busier of the two vias would shed. */
  function Gain(routeBw: real, pvBw: real, f: real): real
  {
    routeBw - BwGraph.Max(routeBw - f, pvBw + f)
  }

  /** The test `optimizeFlows` applies before the nuisance check. */
  predicate WorthMoving(routeBw: real, pvBw: real, f: real)
  {
    routeBw > pvBw && Gain(routeBw, pvBw, f) > 0.0 && Gain(routeBw, pvBw, f) > routeBw * GainThreshold
  }

  /**
   * A move is proposed only for a flow of positive bandwidth, and afterwards
   * both the vacated via and the candidate carry less than the vacated via
   * did, by more than 5% of it.
   */
  lemma WorthMovingImproves(routeBw: real, pvBw: real, f: real)
    requires WorthMoving(routeBw, pvBw, f)
    ensures f > 0.0
    ensures routeBw - f < routeBw && pvBw + f < routeBw
    ensures routeBw >= 0.0 ==> BwGraph.Max(routeBw - f, pvBw + f) < routeBw * (1.0 - GainThreshold)
  {
  }

  /** A flow seen by `optimizeFlows`: its cookie and mean bandwidth. */
  datatype FlowRate = FlowRate(cookie: int, bw: real)

  /** Descending by bandwidth. */
  predicate SortedDesc(s: seq<FlowRate>)
  {
    forall i, j :: 0 <= i < j < |s| ==> s[i].bw >= s[j].bw
  }

  /** Insert `x` before the first flow of no larger bandwidth. */
  function InsertDesc(x: FlowRate, s: seq<FlowRate>): (r: seq<FlowRate>)
    ensures multiset(r) == multiset(s) + multiset{x}
    ensures |r| == |s| + 1
  {
    if s == [] || s[0].bw <= x.bw then [x] + s
    else
      assert s == [s[0]] + s[1..];
      [s[0]] + InsertDesc(x, s[1..])
  }

  /** Inserting into a descending list keeps it descending. */
  lemma {:induction false} InsertDescSorted(x: FlowRate, s: seq<FlowRate>)
    requires SortedDesc(s)
    ensures SortedDesc(InsertDesc(x, s))
  {
    if s != [] && s[0].bw > x.bw {
      InsertDescSorted(x, s[1..]);
      var rest := InsertDesc(x, s[1..]);
      forall k | 0 <= k < |rest|
        ensures s[0].bw >= rest[k].bw
      {
        assert rest[k] in multiset(rest);
        assert rest[k] in multiset(s[1..]) + multiset{x};
        if rest[k] != x {
          assert rest[k] in s[1..];
        }
      }
    }
  }

  /**
   * `sorted(bws.values(), key=attrgetter('bw'), reverse=True)`: descending,
   * flows of equal bandwidth keeping their dictionary order.
   */
  function SortByBw(s: seq<FlowRate>): (r: seq<FlowRate>)
    ensures multiset(r) == multiset(s)
  {
    if s == [] then []
    else
      assert s == [s[0]] + s[1..];
      InsertDesc(s[0], SortByBw(s[1..]))
  }

  /** The sort yields a descending permutation of the flows. */
  lemma {:induction false} SortByBwSorted(s: seq<FlowRate>)
    ensures SortedDesc(SortByBw(s)) && multiset(SortByBw(s)) == multiset(s) && |SortByBw(s)| == |s|
  {
    if s != [] {
      SortByBwSorted(s[1..]);
      InsertDescSorted(s[0], SortByBw(s[1..]));
      assert s == [s[0]] + s[1..];
    }
  }

  /** The flows of bandwidth `b`, in the order of `s`. */
  function OfBw(s: seq<FlowRate>, b: real): seq<FlowRate>
  {
    if s == [] then []
    else (if s[0].bw == b then [s[0]] else []) + OfBw(s[1..], b)
  }

  /** The flows of bandwidth `b` in a list with one more flow in front. */
  lemma OfBwCons(y: FlowRate, t: seq<FlowRate>, b: real)
    ensures OfBw([y] + t, b) == (if y.bw == b then [y] else []) + OfBw(t, b)
  {
    assert ([y] + t)[1..] == t;
  }

  /** Inserting `x` puts it ahead of every flow of its own bandwidth. */
  lemma {:induction false} InsertDescOfBw(x: FlowRate, s: seq<FlowRate>, b: real)
    ensures OfBw(InsertDesc(x, s), b) == (if x.bw == b then [x] else []) + OfBw(s, b)
  {
    if s == [] || s[0].bw <= x.bw {
      OfBwCons(x, s, b);
    } else {
      var t := s[1..];
      var rest := InsertDesc(x, t);
      assert InsertDesc(x, s) == [s[0]] + rest;
      InsertDescOfBw(x, t, b);
      OfBwCons(s[0], rest, b);
      OfBwCons(s[0], t, b);
      if x.bw == b {
        assert s[0].bw != b;
      } else {
        assert OfBw(rest, b) == OfBw(t, b);
      }
    }
  }

  /**
   * The sort is stable, as Python's `sorted` is even with `reverse=True`:
   * the flows of any one bandwidth come out in the order they went in.
   */
  lemma {:induction false} SortByBwStable(s: seq<FlowRate>, b: real)
    ensures OfBw(SortByBw(s), b) == OfBw(s, b)
  {
    if s != [] {
      SortByBwStable(s[1..], b);
      InsertDescOfBw(s[0], SortByBw(s[1..]), b);
    }
  }

  /** The flows of the flow table, in its dictionary order. */
  function Rates(flows: map<int, real>, order: seq<int>): (r: seq<FlowRate>)
    requires forall i :: 0 <= i < |order| ==> order[i] in flows
    ensures |r| == |order| && forall i :: 0 <= i < |order| ==> r[i] == FlowRate(order[i], flows[order[i]])
  {
    seq(|order|, i requires 0 <= i < |order| => FlowRate(order[i], flows[order[i]]))
  }
}
