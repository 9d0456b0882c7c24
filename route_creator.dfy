/**
 * The middleware's Dijkstra route creator (`DijkstraRouteCreator` in
 * `scn/plugins/middleware/routeCreator.py`): a cost graph built from the
 * discovered links, where a link costs the larger of its measured use and the
 * bandwidth reserved on it, a shortest-path search over that graph that
 * reads the links back along the predecessor chain, and the estimation that
 * stores the found links in each requested path.
 */
module RouteCreator {
  import opened Wrappers
  import opened Network
  import Dijkstra
  import BwGraph
  import MiddlewarePath

  /**
   * What the graph builder reads of a discovered link: its ends, its measured
   * use (`getBandwidthUsed()`), whether its statistics are in bits
   * (`stat_unit == "bit"`) rather than bytes, and the condition dictionaries
   * of the reservations recorded on it.
   */
  datatype CostLink = CostLink(key: LinkKey, used: real, bitUnit: bool, reserved: seq<Option<Conditions>>)

  /** The bandwidth a reservation entry adds: its `bandwidth` when the dictionary and the value are truthy. */
  function EntryBandwidth(c: Option<Conditions>): (r: real)
    ensures ReservesBandwidth(c) ==> r == c.value.Bw().value
    ensures !ReservesBandwidth(c) ==> r == 0.0
  {
    if ReservesBandwidth(c) then c.value.Bw().value else 0.0
  }

  /** The sum of the truthy `bandwidth` conditions over a link's reservations. */
  function ReservedSum(rs: seq<Option<Conditions>>): real
  {
    if rs == [] then 0.0 else ReservedSum(rs[..|rs| - 1]) + EntryBandwidth(rs[|rs| - 1])
  }

  /** The inner loop of `create_graph`: add up the reserved bandwidths. */
  method SumReserved(rs: seq<Option<Conditions>>) returns (total: real)
    ensures total == ReservedSum(rs)
  {
    total := 0.0;
    var i := 0;
    while i < |rs|
      invariant 0 <= i <= |rs| && total == ReservedSum(rs[..i])
    {
      var c := rs[i];
      if c.Some? && (c.value.bandwidth.Some? || c.value.fix.Some?) {
        var bw := c.value.Bw();
        if bw.Some? && bw.value != 0.0 {
          total := total + bw.value;
        }
      }
      assert rs[..i + 1][..i] == rs[..i];
      i := i + 1;
    }
    assert rs[..i] == rs;
  }

  /** Reservations with no negative bandwidth add up to no less than any prefix of them. */
  lemma {:induction false} ReservedSumGrows(rs: seq<Option<Conditions>>, k: nat)
    requires k <= |rs|
    requires forall i :: 0 <= i < |rs| ==> EntryBandwidth(rs[i]) >= 0.0
    ensures 0.0 <= ReservedSum(rs[..k]) <= ReservedSum(rs)
    decreases |rs|
  {
    if rs != [] {
      var init := rs[..|rs| - 1];
      assert forall i :: 0 <= i < |init| ==> init[i] == rs[i];
      if k == |rs| {
        assert rs[..k] == rs;
        ReservedSumGrows(init, |init|);
        assert init[..|init|] == init;
      } else {
        ReservedSumGrows(init, k);
        assert init[..k] == rs[..k];
        ReservedSumGrows(init, |init|);
        assert init[..|init|] == init;
      }
    }
  }

  /**
   * The weight `create_graph` gives a link: the larger of its use in bits
   * and its reserved bandwidth, divided by 8 when the statistics are in bits.
   */
  function Cost(l: CostLink): real
  {
    var used := if l.bitUnit then l.used else l.used * 8.0;
    var nonFree := BwGraph.Max(used, ReservedSum(l.reserved));
    if l.bitUnit then nonFree / 8.0 else nonFree
  }

  /** The cost covers both the measured use and the reservation, and is one of the two (in the unit used). */
  lemma CostCovers(l: CostLink)
    ensures l.bitUnit ==> Cost(l) * 8.0 >= l.used && Cost(l) * 8.0 >= ReservedSum(l.reserved)
    ensures l.bitUnit ==> Cost(l) * 8.0 == l.used || Cost(l) * 8.0 == ReservedSum(l.reserved)
    ensures !l.bitUnit ==> Cost(l) >= l.used * 8.0 && Cost(l) >= ReservedSum(l.reserved)
    ensures !l.bitUnit ==> Cost(l) == l.used * 8.0 || Cost(l) == ReservedSum(l.reserved)
  {
  }

  /** One more reservation entry of non-negative bandwidth never lowers a link's cost. */
  lemma CostMonotone(l: CostLink, c: Option<Conditions>)
    requires EntryBandwidth(c) >= 0.0
    ensures Cost(l.(reserved := l.reserved + [c])) >= Cost(l)
  {
    var rs := l.reserved + [c];
    assert rs[..|rs| - 1] == l.reserved;
    assert ReservedSum(rs) >= ReservedSum(l.reserved);
  }

  /** Measured use and reserved bandwidths are not negative. */
  predicate Sane(l: CostLink)
  {
    l.used >= 0.0 && forall i :: 0 <= i < |l.reserved| ==> EntryBandwidth(l.reserved[i]) >= 0.0
  }

  /** A sane link has a non-negative cost. */
  lemma CostNonNegative(l: CostLink)
    requires Sane(l)
    ensures Cost(l) >= 0.0
  {
    ReservedSumGrows(l.reserved, 0);
    assert l.reserved[..0] == [];
  }

  /** `graph` after the loop of `create_graph` has gone through `links`: the last link of each pair wins. */
  function GraphOf(links: seq<CostLink>): Dijkstra.Graph
  {
    if links == [] then map[]
    else
      var g := GraphOf(links[..|links| - 1]);
      var l := links[|links| - 1];
      var row := if l.key.dpid1 in g then g[l.key.dpid1] else map[];
      g[l.key.dpid1 := row[l.key.dpid2 := Cost(l)]]
  }

  /** `create_graph(links)`. */
  method CreateGraph(links: seq<CostLink>) returns (g: Dijkstra.Graph)
    ensures g == GraphOf(links)
  {
    g := map[];
    var i := 0;
    while i < |links|
      invariant 0 <= i <= |links| && g == GraphOf(links[..i])
    {
      var l := links[i];
      var row: map<int, real> := map[];
      if l.key.dpid1 in g {
        row := g[l.key.dpid1];
      }
      var used := l.used;
      if !l.bitUnit {
        used := used * 8.0;
      }
      var reserved := SumReserved(l.reserved);
      var nonFree := if used >= reserved then used else reserved;
      if l.bitUnit {
        nonFree := nonFree / 8.0;
      }
      row := row[l.key.dpid2 := nonFree];
      g := g[l.key.dpid1 := row];
      assert links[..i + 1][..i] == links[..i];
      i := i + 1;
    }
    assert links[..i] == links;
  }

  /** Link `i` is the last one in the list from `u` to `v`. */
  predicate LastFromTo(links: seq<CostLink>, i: int, u: int, v: int)
  {
    0 <= i < |links| && links[i].key.dpid1 == u && links[i].key.dpid2 == v &&
    forall j :: i < j < |links| ==> !(links[j].key.dpid1 == u && links[j].key.dpid2 == v)
  }

  /**
   * The graph has a row for every link source and an entry for every link,
   * nothing else, and the entry holds the cost of the last link with those ends.
   */
  lemma GraphOfEntries(links: seq<CostLink>, u: int, v: int)
    ensures u in GraphOf(links) <==> exists i :: 0 <= i < |links| && links[i].key.dpid1 == u
    ensures u in GraphOf(links) && v in GraphOf(links)[u] <==>
              exists i :: 0 <= i < |links| && links[i].key.dpid1 == u && links[i].key.dpid2 == v
    ensures forall i :: LastFromTo(links, i, u, v) ==>
              u in GraphOf(links) && v in GraphOf(links)[u] && GraphOf(links)[u][v] == Cost(links[i])
  {
    GraphOfRows(links, u);
    GraphOfCells(links, u, v);
    forall i | LastFromTo(links, i, u, v)
      ensures u in GraphOf(links) && v in GraphOf(links)[u] && GraphOf(links)[u][v] == Cost(links[i])
    {
      GraphOfLast(links, i, u, v);
    }
  }

  /** The rows of the graph are the link sources. */
  lemma {:induction false} GraphOfRows(links: seq<CostLink>, u: int)
    ensures u in GraphOf(links) <==> exists i :: 0 <= i < |links| && links[i].key.dpid1 == u
    decreases |links|
  {
    if links != [] {
      var init := links[..|links| - 1];
      GraphOfRows(init, u);
      if exists i :: 0 <= i < |init| && init[i].key.dpid1 == u {
        var i :| 0 <= i < |init| && init[i].key.dpid1 == u;
        assert links[i] == init[i];
      }
      if exists i :: 0 <= i < |links| && links[i].key.dpid1 == u {
        var i :| 0 <= i < |links| && links[i].key.dpid1 == u;
        if i < |init| {
          assert init[i] == links[i];
        }
      }
    }
  }

  /** The cells of the graph are the links' source and target pairs. */
  lemma {:induction false} GraphOfCells(links: seq<CostLink>, u: int, v: int)
    ensures u in GraphOf(links) && v in GraphOf(links)[u] <==>
              exists i :: 0 <= i < |links| && links[i].key.dpid1 == u && links[i].key.dpid2 == v
    decreases |links|
  {
    if links != [] {
      var init := links[..|links| - 1];
      GraphOfCells(init, u, v);
      if exists i :: 0 <= i < |init| && init[i].key.dpid1 == u && init[i].key.dpid2 == v {
        var i :| 0 <= i < |init| && init[i].key.dpid1 == u && init[i].key.dpid2 == v;
        assert links[i] == init[i];
      }
      if exists i :: 0 <= i < |links| && links[i].key.dpid1 == u && links[i].key.dpid2 == v {
        var i :| 0 <= i < |links| && links[i].key.dpid1 == u && links[i].key.dpid2 == v;
        if i < |init| {
          assert init[i] == links[i];
        }
      }
    }
  }

  /** The last link from `u` to `v` sets the cell's cost. */
  lemma {:induction false} GraphOfLast(links: seq<CostLink>, i: int, u: int, v: int)
    requires LastFromTo(links, i, u, v)
    ensures u in GraphOf(links) && v in GraphOf(links)[u] && GraphOf(links)[u][v] == Cost(links[i])
    decreases |links|
  {
    var init := links[..|links| - 1];
    if i < |init| {
      assert LastFromTo(init, i, u, v) by {
        forall j | i < j < |init|
          ensures !(init[j].key.dpid1 == u && init[j].key.dpid2 == v)
        {
          assert init[j] == links[j];
        }
      }
      GraphOfLast(init, i, u, v);
    }
  }

  /** Built from sane links, the graph has no negative weight. */
  lemma {:induction false} GraphOfNonNegative(links: seq<CostLink>)
    requires forall i :: 0 <= i < |links| ==> Sane(links[i])
    ensures Dijkstra.NonNegative(GraphOf(links))
    decreases |links|
  {
    if links != [] {
      var init := links[..|links| - 1];
      assert forall i :: 0 <= i < |init| ==> init[i] == links[i];
      GraphOfNonNegative(init);
      CostNonNegative(links[|links| - 1]);
    }
  }

  /** `getLinkByDpid(u, v)` for every hop of a path, in order. */
  function Along(known: seq<LinkKey>, hops: seq<Dijkstra.Hop>): (r: seq<Option<LinkKey>>)
    ensures |r| == |hops|
    ensures forall i :: 0 <= i < |hops| ==> r[i] == FirstLinkByDpid(known, hops[i].u, hops[i].v)
  {
    if hops == [] then [] else [FirstLinkByDpid(known, hops[0].u, hops[0].v)] + Along(known, hops[1..])
  }

  /**
   * The links read back along a chain connect `src` to `dst`: each found link
   * joins its hop's two switches, so consecutive found links meet at a switch.
   */
  lemma AlongFollowsChain(known: seq<LinkKey>, hops: seq<Dijkstra.Hop>, src: int, dst: int, g: Dijkstra.Graph)
    requires Dijkstra.Chain(hops, src, dst, g)
    ensures var ls := Along(known, hops);
      (ls[0].Some? ==> ls[0].value.dpid1 == src) &&
      (ls[|ls| - 1].Some? ==> ls[|ls| - 1].value.dpid2 == dst) &&
      (forall i :: 0 <= i < |ls| - 1 && ls[i].Some? && ls[i + 1].Some? ==> ls[i].value.dpid2 == ls[i + 1].value.dpid1) &&
      (forall i :: 0 <= i < |ls| ==> (ls[i].Some? <==> exists j :: 0 <= j < |known| && known[j].dpid1 == hops[i].u && known[j].dpid2 == hops[i].v))
  {
  }

  /** The links a successful search may return: read back along some chain of graph edges from `src` to `dst`. */
  ghost predicate Routed(g: Dijkstra.Graph, known: seq<LinkKey>, src: int, dst: int, links: seq<Option<LinkKey>>)
  {
    exists hops :: Dijkstra.Chain(hops, src, dst, g) && links == Along(known, hops)
  }

  /**
   * `search_links(src, dst, graph)`: `[]` when `src` is not a node; KeyError
   * when some link leads to a switch that is not a node, since every node's
   * neighbours are looked up among the distances; `[]` when `dst` never
   * appears as a neighbour; otherwise the links along the predecessor chain
   * from `dst` back to `src`, in path order (`[]` when `src == dst`).
   * A node on the way back without predecessor raises KeyError (`graph[""]`).
   * The source's repeat guard `path.count(node)` compares a node with hop
   * tuples, so it never fires; the predecessors' visiting order rules out a
   * cycle anyway.
   */
  method SearchLinks(g: Dijkstra.Graph, order: seq<int>, src: int, dst: int, known: seq<LinkKey>)
    returns (r: Result<seq<Option<LinkKey>>>, ghost hops: seq<Dijkstra.Hop>)
    requires Dijkstra.NonNegative(g) && Dijkstra.IsOrder(order, g)
    ensures src !in g ==> r == Ok([])
    ensures src in g && !Dijkstra.Closed(g) ==> r == Err("KeyError")
    ensures Dijkstra.Closed(g) && (!Dijkstra.SeenAsChild(g, dst) || src == dst) ==> r == Ok([])
    ensures r.Ok? && r.value == [] ==> src !in g || !Dijkstra.SeenAsChild(g, dst) || src == dst
    ensures r.Ok? && r.value != [] ==> Dijkstra.Chain(hops, src, dst, g) && r.value == Along(known, hops)
    ensures r.Err? ==> r.error == "KeyError"
    ensures Dijkstra.Closed(g) && src != dst && Dijkstra.Reachable(g, src, dst) ==> r.Ok? && r.value != []
    ensures r.Ok? && r.value != [] ==>
      forall other :: Dijkstra.Chain(other, src, dst, g) ==> Dijkstra.Cost(hops) <= Dijkstra.Cost(other)
  {
    hops := [];
    if src !in g {
      return Ok([]), hops;
    }
    if !Dijkstra.Closed(g) {
      return Err("KeyError"), hops;
    }
    var D, P, foundDst, rank := Dijkstra.ShortestPathTree(g, order, src, dst);
    if !foundDst {
      Dijkstra.ReachableSeenAsChild(g, src, dst);
      return Ok([]), hops;
    }
    r, hops := ReadBack(g, D, P, rank, src, dst, known);
  }

  /**
   * The backtracking loop of `search_links`: from `dst`, prepend the hop from
   * each node's predecessor and the link `getLinkByDpid` finds for it, until
   * `src` is reached.
   */
  method ReadBack(g: Dijkstra.Graph, ghost D: map<int, real>, P: map<int, Option<int>>, ghost rank: map<int, nat>,
                  src: int, dst: int, known: seq<LinkKey>)
    returns (r: Result<seq<Option<LinkKey>>>, ghost hops: seq<Dijkstra.Hop>)
    requires Dijkstra.TreeFacts(g, P, rank) && dst in g && Dijkstra.Closed(g) && Dijkstra.NonNegative(g)
    requires D.Keys == g.Keys + {src} && D[src] == 0.0 && Dijkstra.RelaxedFrom(g, D, g.Keys)
    requires Dijkstra.PredecessorsExact(g, D, P) && Dijkstra.UnreachedWithoutPredecessor(src, D, P)
    ensures src == dst ==> r == Ok([])
    ensures r.Ok? && r.value == [] ==> src == dst
    ensures r.Ok? && r.value != [] ==> Dijkstra.Chain(hops, src, dst, g) && r.value == Along(known, hops)
    ensures r.Err? ==> r.error == "KeyError"
    ensures src != dst && Dijkstra.Reachable(g, src, dst) ==> r.Ok? && r.value != []
    ensures r.Ok? && r.value != [] ==>
      forall other :: Dijkstra.Chain(other, src, dst, g) ==> Dijkstra.Cost(hops) <= Dijkstra.Cost(other)
  {
    ghost var reach := src != dst && Dijkstra.Reachable(g, src, dst);
    if reach {
      Dijkstra.ReachableBelow(g, D, src, dst);
    }
    hops := [];
    var links: seq<Option<LinkKey>> := [];
    var node := dst;
    while node != src
      invariant node in g
      invariant hops == [] ==> node == dst
      invariant hops != [] ==> Dijkstra.Chain(hops, node, dst, g)
      invariant src == dst ==> hops == []
      invariant links == Along(known, hops)
      invariant reach ==> D[node] < Dijkstra.Unreached
      invariant Dijkstra.Cost(hops) + D[node] == D[dst]
      decreases rank[node]
    {
      if P[node].None? {
        return Err("KeyError"), hops;
      }
      var p := P[node].value;
      var hop := Dijkstra.Hop(p, node, g[p][node]);
      Dijkstra.ChainPrepend(hop, hops, dst, g);
      hops := [hop] + hops;
      links := [FirstLinkByDpid(known, p, node)] + links;
      node := p;
    }
    Dijkstra.CheapestChain(g, D, hops, src, dst);
    return Ok(links), hops;
  }

  /** The searched result, as a fact about every input: a nonempty result is routed. */
  lemma SearchResultRouted(g: Dijkstra.Graph, known: seq<LinkKey>, src: int, dst: int, hops: seq<Dijkstra.Hop>)
    requires Dijkstra.Chain(hops, src, dst, g)
    ensures Routed(g, known, src, dst, Along(known, hops))
    ensures |Along(known, hops)| == |hops| > 0
  {
  }

  /** The argument of `estimate_route`: nothing, one path, or a list of paths. */
  datatype PathArg = NoPaths | OnePath(path: MiddlewarePath.Path) | PathList(paths: seq<MiddlewarePath.Path>)

  /** A falsy argument is an empty list, and a single path is wrapped into a list. */
  function AsList(a: PathArg): (r: seq<MiddlewarePath.Path>)
    ensures a.NoPaths? ==> r == []
    ensures a.OnePath? ==> r == [a.path]
    ensures a.PathList? ==> r == a.paths
  {
    match a
    case NoPaths => []
    case OnePath(p) => [p]
    case PathList(ps) => ps
  }

  /** The ends of a link, as `getLinkByDpid` searches them. */
  function KeysOf(links: seq<CostLink>): (r: seq<LinkKey>)
    ensures |r| == |links| && forall i :: 0 <= i < |links| ==> r[i] == links[i].key
  {
    if links == [] then [] else [links[0].key] + KeysOf(links[1..])
  }

  /**
   * A path the search cannot serve: an endpoint host is unknown, the source
   * switch has no outgoing link, the destination switch is nobody's
   * neighbour, or both hosts hang off the same switch.
   */
  predicate Unroutable(g: Dijkstra.Graph, hosts: map<string, int>, src: string, dst: string)
  {
    src !in hosts || dst !in hosts ||
    hosts[src] !in g || !Dijkstra.SeenAsChild(g, hosts[dst]) || hosts[src] == hosts[dst]
  }

  /** What `estimate_route` does with one path: it got its links, it makes the call return False, or something raised. */
  datatype Step = Stored | Unserved | Raised(error: string)

  /** A path holding links the search found for its two hosts (all present when they were applied). */
  ghost predicate Served(p: MiddlewarePath.Path, g: Dijkstra.Graph, keys: seq<LinkKey>, hosts: map<string, int>, autoApply: bool)
    reads p
  {
    p.srcIp in hosts && p.dstIp in hosts && p.links != [] &&
    Routed(g, keys, hosts[p.srcIp], hosts[p.dstIp], p.links) &&
    (autoApply ==> forall k :: 0 <= k < |p.links| ==> p.links[k].Some?)
  }

  /** The body of the loop of `estimate_route` for one path. */
  method EstimateOne(p: MiddlewarePath.Path, g: Dijkstra.Graph, order: seq<int>, keys: seq<LinkKey>, hosts: map<string, int>, autoApply: bool)
    returns (step: Step)
    requires Dijkstra.NonNegative(g) && Dijkstra.IsOrder(order, g)
    modifies p
    ensures step.Stored? ==> Served(p, g, keys, hosts, autoApply)
    ensures step.Stored? ==> !Unroutable(g, hosts, p.srcIp, p.dstIp)
    ensures step.Unserved? ==> Unroutable(g, hosts, p.srcIp, p.dstIp)
    ensures step.Raised? ==> step.error == "KeyError" || (autoApply && step.error == "AttributeError")
    ensures !autoApply ==> p.installs == old(p.installs)
  {
    if p.srcIp in hosts && p.dstIp in hosts {
      var s, d := hosts[p.srcIp], hosts[p.dstIp];
      var found, hops := SearchLinks(g, order, s, d, keys);
      if found.Err? {
        return Raised(found.error);
      }
      var links := found.value;
      if links == [] {
        return Unserved;
      }
      SearchResultRouted(g, keys, s, d, hops);
      if autoApply {
        var applied := p.UpdateLinks(links);
        if applied.Err? {
          return Raised(applied.error);
        }
      } else {
        p.links := links;
      }
      return Stored;
    }
    return Unserved;
  }

  /**
   * `estimate_route(path_list, auto_apply)` over the discovered links `all`
   * (iterated as `order` lists the graph's sources) and the host locations
   * `hosts` (IP address to switch). Returns `Ok(None)` for False, as soon as a
   * path is unroutable; `Ok(Some(list))` once every path got its links, stored
   * with `update_links` when `auto_apply` and assigned directly otherwise;
   * `Err` when the search or the flow installation raises.
   */
  method EstimateRoute(arg: PathArg, all: seq<CostLink>, order: seq<int>, hosts: map<string, int>, autoApply: bool)
    returns (r: Result<Option<seq<MiddlewarePath.Path>>>)
    requires Dijkstra.IsOrder(order, GraphOf(all))
    requires forall i :: 0 <= i < |all| ==> Sane(all[i])
    modifies set p | p in AsList(arg)
    ensures r.Ok? && r.value.Some? ==> r.value.value == AsList(arg)
    ensures r.Ok? && r.value.Some? ==>
              forall p :: p in AsList(arg) ==>
                p.srcIp in hosts && p.dstIp in hosts && p.links != [] &&
                Routed(GraphOf(all), KeysOf(all), hosts[p.srcIp], hosts[p.dstIp], p.links)
    ensures r.Ok? && r.value.Some? && autoApply ==>
              forall p :: p in AsList(arg) ==> forall i :: 0 <= i < |p.links| ==> p.links[i].Some?
    ensures r.Ok? && r.value.None? ==>
              exists p :: p in AsList(arg) && Unroutable(GraphOf(all), hosts, p.srcIp, p.dstIp)
    ensures (forall p :: p in AsList(arg) ==> !Unroutable(GraphOf(all), hosts, p.srcIp, p.dstIp)) ==>
              !(r.Ok? && r.value.None?)
    ensures r.Err? ==> r.error == "KeyError" || (autoApply && r.error == "AttributeError")
    ensures !autoApply ==> forall p :: p in AsList(arg) ==> p.installs == old(p.installs)
  {
    var paths := AsList(arg);
    var g := CreateGraph(all);
    GraphOfNonNegative(all);
    var keys := KeysOf(all);
    r := EstimateAll(paths, g, order, keys, hosts, autoApply);
  }

  /** The loop of `estimate_route` over the paths, on a built graph. */
  method EstimateAll(paths: seq<MiddlewarePath.Path>, g: Dijkstra.Graph, order: seq<int>, keys: seq<LinkKey>, hosts: map<string, int>, autoApply: bool)
    returns (r: Result<Option<seq<MiddlewarePath.Path>>>)
    requires Dijkstra.NonNegative(g) && Dijkstra.IsOrder(order, g)
    modifies set p | p in paths
    ensures r.Ok? && r.value.Some? ==> r.value.value == paths
    ensures r.Ok? && r.value.Some? ==> forall p :: p in paths ==> Served(p, g, keys, hosts, autoApply)
    ensures r.Ok? && r.value.None? ==> exists p :: p in paths && Unroutable(g, hosts, p.srcIp, p.dstIp)
    ensures r.Err? ==> r.error == "KeyError" || (autoApply && r.error == "AttributeError")
    ensures !autoApply ==> forall p :: p in paths ==> p.installs == old(p.installs)
  {
    var i := 0;
    while i < |paths|
      invariant 0 <= i <= |paths|
      invariant forall j :: 0 <= j < i ==> Served(paths[j], g, keys, hosts, autoApply)
      invariant !autoApply ==> forall p :: p in paths ==> p.installs == old(p.installs)
    {
      var p := paths[i];
      var step := EstimateOne(p, g, order, keys, hosts, autoApply);
      match step
      case Raised(e) => return Err(e);
      case Unserved => return Ok(None);
      case Stored =>
      i := i + 1;
    }
    return Ok(Some(paths));
  }
}
