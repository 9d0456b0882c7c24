/**
 * The Dijkstra search shared by `Routing.getRoutesDijkstra` and
 * `DijkstraRouteCreator.search_links`: a weighted graph `{dpid: {dpid: cost}}`,
 * distances starting at 10**15 ("unreachable"), the first node of least distance
 * in the graph's key order popped at each step, and strict `>` relaxation.
 */
module Dijkstra {
  import opened Wrappers
  import RoutePaths

  /** `{dpid1: {dpid2: cost}}`, as built by the bandwidth graph builders. */
  type Graph = map<int, map<int, real>>

  /** The initial distance of every node, 10**15. */
  const Unreached: real := 1000000000000000.0

  /** One step of a returned path: `(predecessor, node, graph[predecessor][node])`. */
  datatype Hop = Hop(u: int, v: int, w: real)

  /** Every neighbour is itself a key (the source raises KeyError on `D[child]` otherwise). */
  predicate Closed(g: Graph)
  {
    forall u, v :: u in g && v in g[u] ==> v in g
  }

  /**
   * Every neighbour is a key or `src`: the distances `getRoutesDijkstra` looks
   * each neighbour up in hold the keys and `src`, so no lookup raises.
   */
  predicate ClosedBut(g: Graph, src: int)
  {
    forall u, v :: u in g && v in g[u] ==> v in g || v == src
  }

  /** Costs are bandwidth figures, never negative. */
  predicate NonNegative(g: Graph)
  {
    forall u, v :: u in g && v in g[u] ==> g[u][v] >= 0.0
  }

  /** `order` lists the graph's keys once each: the dictionary's iteration order. */
  predicate IsOrder(order: seq<int>, g: Graph)
  {
    RoutePaths.Distinct(order) && (forall n :: n in order ==> n in g) && (forall n :: n in g ==> n in order)
  }

  /** `dst` is a neighbour of some node (the source's `foundDst` once every node is visited). */
  predicate SeenAsChild(g: Graph, dst: int)
  {
    exists u :: u in g && dst in g[u]
  }

  /** A nonempty path of graph edges leading from `src` to `dst`, with their weights. */
  predicate Chain(path: seq<Hop>, src: int, dst: int, g: Graph)
  {
    |path| > 0 && path[0].u == src && path[|path| - 1].v == dst &&
    (forall i :: 0 <= i < |path| - 1 ==> path[i].v == path[i + 1].u) &&
    (forall i :: 0 <= i < |path| ==>
       path[i].u in g && path[i].v in g[path[i].u] && path[i].w == g[path[i].u][path[i].v])
  }

  /**
   * Selection step: the position in `unseen` of the first node with the least
   * distance (a later node replaces the candidate only when strictly smaller).
   */
  method SelectMin(unseen: seq<int>, D: map<int, real>) returns (k: nat)
    requires unseen != []
    requires forall i :: 0 <= i < |unseen| ==> unseen[i] in D
    ensures k < |unseen|
    ensures forall j :: 0 <= j < |unseen| ==> D[unseen[k]] <= D[unseen[j]]
    ensures forall j :: 0 <= j < k ==> D[unseen[k]] < D[unseen[j]]
  {
    k := 0;
    var i := 1;
    while i < |unseen|
      invariant 1 <= i <= |unseen| && k < i
      invariant forall j :: 0 <= j < i ==> D[unseen[k]] <= D[unseen[j]]
      invariant forall j :: 0 <= j < k ==> D[unseen[k]] < D[unseen[j]]
    {
      if D[unseen[i]] < D[unseen[k]] {
        k := i;
      }
      i := i + 1;
    }
  }

  /** The facts about the predecessor map that the backtracking relies on. */
  ghost predicate TreeFacts(g: Graph, P: map<int, Option<int>>, rank: map<int, nat>)
  {
    P.Keys == g.Keys && rank.Keys == g.Keys &&
    forall n :: n in P && P[n].Some? ==>
      P[n].value in g && n in g[P[n].value] && rank[P[n].value] < rank[n]
  }

  /**
   * After relaxing `node`, `n` keeps its distance and predecessor, or it is a
   * child of `node` whose distance strictly dropped to the one through `node`
   * and whose predecessor is `node`.
   */
  ghost predicate RelaxedAt(g: Graph, node: int, D: map<int, real>, P: map<int, Option<int>>,
                            D2: map<int, real>, P2: map<int, Option<int>>, n: int)
    requires node in g && node in D && n in D && D.Keys == D2.Keys && P.Keys == P2.Keys
  {
    (D2[n] == D[n] && (n in P ==> P2[n] == P[n])) ||
    (n in g[node] && n in P && D2[n] == D[node] + g[node][n] && D2[n] < D[n] && P2[n] == Some(node))
  }

  /**
   * The relaxation of one visited node: every child whose distance would
   * strictly drop by going through `node` gets that distance and `node` as
   * predecessor; all other distances and predecessors stay.
   */
  method Relax(g: Graph, node: int, D: map<int, real>, P: map<int, Option<int>>, dst: int)
    returns (D2: map<int, real>, P2: map<int, Option<int>>, sawDst: bool)
    requires Closed(g) && NonNegative(g) && node in g
    requires g.Keys <= D.Keys && P.Keys == g.Keys
    requires forall n :: n in D ==> D[n] >= 0.0
    ensures D2.Keys == D.Keys && P2.Keys == P.Keys
    ensures sawDst <==> dst in g[node]
    ensures D2[node] == D[node]
    ensures forall n :: n in D ==> D2[n] >= 0.0
    ensures forall n :: n in D ==> RelaxedAt(g, node, D, P, D2, P2, n)
    ensures forall c :: c in g[node] ==> D2[c] <= D[node] + g[node][c]
  {
    D2, P2, sawDst := D, P, false;
    var du := D[node];
    var children := g[node].Keys;
    ghost var done: set<int> := {};
    while |children| > 0
      invariant children + done == g[node].Keys && children !! done
      invariant D2.Keys == D.Keys && P2.Keys == P.Keys
      invariant D2[node] == du
      invariant forall n :: n in D ==> D2[n] >= 0.0
      invariant sawDst <==> dst in done
      invariant forall n :: n in D ==> RelaxedAt(g, node, D, P, D2, P2, n)
      invariant forall c :: c in done ==> D2[c] <= du + g[node][c]
      decreases children
    {
      ghost var someChild := Pick(children);
      var child :| child in children;
      children := children - {child};
      done := done + {child};
      if child == dst {
        sawDst := true;
      }
      D2, P2 := RelaxChild(g, node, D, P, child, D2, P2, done - {child});
    }
  }

  /**
   * One child of `node`: it takes the distance through `node` when that is
   * strictly shorter, which keeps the relaxation facts for the children done.
   */
  method RelaxChild(g: Graph, node: int, D0: map<int, real>, P0: map<int, Option<int>>, child: int,
                    D: map<int, real>, P: map<int, Option<int>>, ghost done: set<int>)
    returns (D2: map<int, real>, P2: map<int, Option<int>>)
    requires Closed(g) && NonNegative(g) && node in g && child in g[node] && child !in done && done <= g[node].Keys
    requires node in D0 && D.Keys == D0.Keys && P.Keys == P0.Keys && child in D && child in P
    requires D[node] == D0[node]
    requires forall n :: n in D0 ==> D[n] >= 0.0
    requires forall n :: n in D0 ==> RelaxedAt(g, node, D0, P0, D, P, n)
    requires forall c :: c in done ==> c in D && D[c] <= D0[node] + g[node][c]
    ensures D2.Keys == D.Keys && P2.Keys == P.Keys
    ensures D2[node] == D[node]
    ensures forall n :: n in D0 ==> D2[n] >= 0.0
    ensures forall n :: n in D0 ==> RelaxedAt(g, node, D0, P0, D2, P2, n)
    ensures forall c :: c in done + {child} ==> c in D2 && D2[c] <= D0[node] + g[node][c]
  {
    D2, P2 := D, P;
    var w := g[node][child];
    if D[child] > D0[node] + w {
      D2 := D[child := D0[node] + w];
      P2 := P[child := Some(node)];
      assert RelaxedAt(g, node, D0, P0, D2, P2, child);
    }
  }

  /** The visiting order: visited nodes hold distinct ranks below their number. */
  ghost predicate Ranked(g: Graph, unseen: seq<int>, rank: map<int, nat>)
  {
    RoutePaths.Distinct(unseen) &&
    (forall i :: 0 <= i < |unseen| ==> unseen[i] in g) &&
    (forall n :: n in g ==> (n in rank <==> n !in unseen)) &&
    rank.Keys <= g.Keys &&
    (forall n :: n in rank ==> rank[n] < |rank|)
  }

  /** Visited nodes are never farther than unvisited ones; distances are not negative. */
  ghost predicate Settled(unseen: seq<int>, D: map<int, real>, rank: map<int, nat>)
  {
    (forall n :: n in D ==> D[n] >= 0.0) &&
    (forall i :: 0 <= i < |unseen| ==> unseen[i] in D) &&
    (forall a :: a in rank ==> a in D) &&
    (forall a, i :: a in rank && 0 <= i < |unseen| ==> D[a] <= D[unseen[i]])
  }

  /** Every predecessor is a visited node, linked by an edge, visited earlier. */
  ghost predicate Linked(g: Graph, P: map<int, Option<int>>, rank: map<int, nat>)
  {
    forall n :: n in P && P[n].Some? ==>
      P[n].value in rank && P[n].value in g && n in g[P[n].value] &&
      (n in rank ==> rank[P[n].value] < rank[n])
  }

  /** The list without its element at position `k`. */
  function Without(s: seq<int>, k: nat): (r: seq<int>)
    requires k < |s|
    ensures |r| == |s| - 1
  {
    s[..k] + s[k + 1..]
  }

  /** Without its element at `k`, a duplicate-free list holds exactly its other elements, once each. */
  lemma WithoutElements(s: seq<int>, k: nat)
    requires RoutePaths.Distinct(s) && k < |s|
    ensures RoutePaths.Distinct(Without(s, k))
    ensures forall n :: n in Without(s, k) <==> n in s && n != s[k]
  {
    var rest := Without(s, k);
    forall i | 0 <= i < |rest|
      ensures rest[i] == (if i < k then s[i] else s[i + 1])
    {
    }
    forall n | n in s && n != s[k]
      ensures n in rest
    {
      var i :| 0 <= i < |s| && s[i] == n;
      if i < k {
        assert rest[i] == n;
      } else {
        assert rest[i - 1] == n;
      }
    }
  }

  /** Removing the visited node from the unseen list and ranking it keeps the ranking. */
  lemma VisitKeepsRanked(g: Graph, unseen: seq<int>, rank: map<int, nat>, k: nat)
    requires Ranked(g, unseen, rank) && k < |unseen|
    ensures Ranked(g, Without(unseen, k), rank[unseen[k] := |rank|])
    ensures forall i :: 0 <= i < |Without(unseen, k)| ==>
              (Without(unseen, k))[i] in unseen && (Without(unseen, k))[i] != unseen[k]
  {
    WithoutElements(unseen, k);
    var rest := Without(unseen, k);
    assert forall i :: 0 <= i < |rest| ==> rest[i] in rest;
  }

  /** The relaxation of the least-distance node keeps the settled and linked facts. */
  lemma VisitKeepsSettledLinked(
    g: Graph, unseen: seq<int>, D: map<int, real>, P: map<int, Option<int>>, rank: map<int, nat>,
    k: nat, D2: map<int, real>, P2: map<int, Option<int>>)
    requires Closed(g) && NonNegative(g)
    requires Ranked(g, unseen, rank) && Settled(unseen, D, rank) && Linked(g, P, rank)
    requires g.Keys <= D.Keys && P.Keys == g.Keys
    requires k < |unseen| && forall j :: 0 <= j < |unseen| ==> D[unseen[k]] <= D[unseen[j]]
    requires D2.Keys == D.Keys && P2.Keys == P.Keys
    requires D2[unseen[k]] == D[unseen[k]]
    requires forall n :: n in D ==> D2[n] >= 0.0
    requires forall n :: n in D ==>
              (D2[n] == D[n] && (n in P ==> P2[n] == P[n])) ||
              (n in g[unseen[k]] && n in P && D2[n] == D[unseen[k]] + g[unseen[k]][n] && D2[n] < D[n] && P2[n] == Some(unseen[k]))
    ensures Settled(Without(unseen, k), D2, rank[unseen[k] := |rank|])
    ensures Linked(g, P2, rank[unseen[k] := |rank|])
  {
    var node := unseen[k];
    var rest := Without(unseen, k);
    var rank2 := rank[node := |rank|];
    VisitKeepsRanked(g, unseen, rank, k);
    // Visited nodes, the new one included, keep their distance and predecessor.
    forall a | a in rank2
      ensures D2[a] == D[a] && P2[a] == P[a] && D2[a] <= D[node]
    {
      if a != node {
        assert a in D && D[a] <= D[node];
      }
    }
    // Unvisited nodes end no closer than the visited one.
    forall i | 0 <= i < |rest|
      ensures D[node] <= D2[rest[i]]
    {
      var j :| 0 <= j < |unseen| && unseen[j] == rest[i];
      assert D[node] <= D[unseen[j]];
    }
    forall n | n in P2 && P2[n].Some?
      ensures P2[n].value in rank2 && P2[n].value in g && n in g[P2[n].value] &&
              (n in rank2 ==> rank2[P2[n].value] < rank2[n])
    {
      if P2[n] != P[n] {
        assert P2[n] == Some(node) && n !in rank2;
      } else {
        var p := P[n].value;
        assert p in rank && p != node && rank2[p] == rank[p];
        if n in rank2 && n != node {
          assert n in rank && rank2[n] == rank[n];
        }
      }
    }
  }

  /** Every edge out of a node of `from` is relaxed: no distance could drop through it. */
  ghost predicate RelaxedFrom(g: Graph, D: map<int, real>, from: set<int>)
  {
    forall u, v :: u in from && u in g && v in g[u] && u in D && v in D ==> D[v] <= D[u] + g[u][v]
  }

  /** Each predecessor link accounts exactly for its node's distance. */
  ghost predicate PredecessorsExact(g: Graph, D: map<int, real>, P: map<int, Option<int>>)
  {
    forall n :: n in P && P[n].Some? ==>
      n in D && P[n].value in D && P[n].value in g && n in g[P[n].value] &&
      D[n] == D[P[n].value] + g[P[n].value][n]
  }

  /** A node other than the source that has no predecessor is still at 10**15. */
  ghost predicate UnreachedWithoutPredecessor(src: int, D: map<int, real>, P: map<int, Option<int>>)
  {
    forall n :: n in P && n != src && P[n].None? ==> n in D && D[n] == Unreached
  }

  /** Visiting the least-distance node keeps every visited node's distance. */
  lemma VisitKeepsVisited(
    g: Graph, unseen: seq<int>, D: map<int, real>, P: map<int, Option<int>>, rank: map<int, nat>,
    k: nat, D2: map<int, real>, P2: map<int, Option<int>>)
    requires Closed(g) && NonNegative(g) && Ranked(g, unseen, rank) && Settled(unseen, D, rank)
    requires g.Keys <= D.Keys && k < |unseen| && D2.Keys == D.Keys && P2.Keys == P.Keys
    requires forall n :: n in D ==> RelaxedAt(g, unseen[k], D, P, D2, P2, n)
    ensures forall a :: a in rank ==> D2[a] == D[a]
  {
    forall a | a in rank
      ensures D2[a] == D[a]
    {
      assert D[a] <= D[unseen[k]];
    }
  }

  /** Visiting the least-distance node keeps the edges out of every visited node relaxed. */
  lemma VisitKeepsRelaxed(
    g: Graph, unseen: seq<int>, D: map<int, real>, P: map<int, Option<int>>, rank: map<int, nat>,
    k: nat, D2: map<int, real>, P2: map<int, Option<int>>)
    requires Closed(g) && NonNegative(g) && Ranked(g, unseen, rank) && Settled(unseen, D, rank)
    requires g.Keys <= D.Keys && k < |unseen| && D2.Keys == D.Keys && P2.Keys == P.Keys
    requires forall n :: n in D ==> RelaxedAt(g, unseen[k], D, P, D2, P2, n)
    requires forall c :: c in g[unseen[k]] ==> c in D2 && D2[c] <= D[unseen[k]] + g[unseen[k]][c]
    requires RelaxedFrom(g, D, rank.Keys)
    ensures RelaxedFrom(g, D2, rank.Keys + {unseen[k]})
  {
    var node := unseen[k];
    VisitKeepsVisited(g, unseen, D, P, rank, k, D2, P2);
    assert D2[node] == D[node];
    forall u, v | u in rank.Keys + {node} && u in g && v in g[u] && u in D2 && v in D2
      ensures D2[v] <= D2[u] + g[u][v]
    {
      if u != node {
        assert D2[v] <= D[v] <= D[u] + g[u][v];
      }
    }
  }

  /**
   * Visiting the least-distance node keeps predecessors accounting for
   * distances and nodes without one at 10**15; the source stays at 0.
   */
  lemma VisitKeepsPredecessors(
    g: Graph, unseen: seq<int>, D: map<int, real>, P: map<int, Option<int>>, rank: map<int, nat>,
    k: nat, D2: map<int, real>, P2: map<int, Option<int>>, src: int)
    requires Closed(g) && NonNegative(g)
    requires Ranked(g, unseen, rank) && Settled(unseen, D, rank) && Linked(g, P, rank)
    requires g.Keys <= D.Keys && P.Keys == g.Keys && src in D && D[src] == 0.0
    requires k < |unseen| && D2.Keys == D.Keys && P2.Keys == P.Keys
    requires forall n :: n in D ==> D2[n] >= 0.0
    requires forall n :: n in D ==> RelaxedAt(g, unseen[k], D, P, D2, P2, n)
    requires PredecessorsExact(g, D, P) && UnreachedWithoutPredecessor(src, D, P)
    ensures PredecessorsExact(g, D2, P2) && UnreachedWithoutPredecessor(src, D2, P2) && D2[src] == 0.0
  {
    var node := unseen[k];
    VisitKeepsVisited(g, unseen, D, P, rank, k, D2, P2);
    assert node !in rank;
    forall n | n in P2 && P2[n].Some?
      ensures n in D2 && P2[n].value in D2 && P2[n].value in g && n in g[P2[n].value] &&
              D2[n] == D2[P2[n].value] + g[P2[n].value][n]
    {
      assert n in D && RelaxedAt(g, node, D, P, D2, P2, n);
      if P2[n] == Some(node) && D2[n] == D[node] + g[node][n] && n in g[node] {
        assert D2[node] == D[node];
      } else {
        assert D2[n] == D[n] && P2[n] == P[n];
        var p := P[n].value;
        assert p in rank;
      }
    }
  }

  /** The total weight of a path. */
  function Cost(path: seq<Hop>): real
  {
    if path == [] then 0.0 else path[0].w + Cost(path[1..])
  }

  /** `dst` can be reached from `src` along graph edges at a total cost below 10**15. */
  ghost predicate Reachable(g: Graph, src: int, dst: int)
  {
    exists path :: Chain(path, src, dst, g) && Cost(path) < Unreached
  }

  /** Only a node that some edge leads to can be reached, and only from a node with edges. */
  lemma ReachableSeenAsChild(g: Graph, src: int, dst: int)
    ensures Reachable(g, src, dst) ==> src in g && SeenAsChild(g, dst)
  {
    if Reachable(g, src, dst) {
      var path: seq<Hop> :| Chain(path, src, dst, g) && Cost(path) < Unreached;
      var last := path[|path| - 1];
      assert path[0].u in g && last.u in g && dst in g[last.u];
    }
  }

  /**
   * Once every edge is relaxed, a distance is never more than the distance at
   * the start of any path to it plus the path's cost.
   */
  lemma {:induction false} DistanceBound(g: Graph, D: map<int, real>, path: seq<Hop>, a: int, b: int)
    requires g.Keys <= D.Keys && Closed(g) && RelaxedFrom(g, D, g.Keys) && Chain(path, a, b, g)
    ensures D[b] <= D[a] + Cost(path)
    decreases |path|
  {
    var h := path[0];
    assert h.v in g;
    if |path| > 1 {
      var rest := path[1..];
      assert Chain(rest, h.v, b, g) by {
        forall i | 0 <= i < |rest| - 1
          ensures rest[i].v == rest[i + 1].u
        {
          assert rest[i] == path[i + 1] && rest[i + 1] == path[i + 2];
        }
      }
      DistanceBound(g, D, rest, h.v, b);
    } else {
      assert path[1..] == [];
    }
  }

  /** A reachable destination ends the search below 10**15. */
  lemma ReachableBelow(g: Graph, D: map<int, real>, src: int, dst: int)
    requires g.Keys <= D.Keys && Closed(g) && RelaxedFrom(g, D, g.Keys) && src in D && D[src] == 0.0
    requires Reachable(g, src, dst)
    ensures dst in g && D[dst] < Unreached
  {
    var other :| Chain(other, src, dst, g) && Cost(other) < Unreached;
    DistanceBound(g, D, other, src, dst);
  }

  /** A graph edge into the start of a chain (or into `dst` itself) extends it backwards. */
  lemma ChainPrepend(hop: Hop, path: seq<Hop>, dst: int, g: Graph)
    requires hop.u in g && hop.v in g[hop.u] && hop.w == g[hop.u][hop.v]
    requires (path == [] && hop.v == dst) || Chain(path, hop.v, dst, g)
    ensures Chain([hop] + path, hop.u, dst, g)
    ensures Cost([hop] + path) == hop.w + Cost(path)
  {
    var q := [hop] + path;
    assert q[1..] == path;
    forall i | 0 <= i < |q| - 1
      ensures q[i].v == q[i + 1].u
    {
      if i > 0 {
        assert q[i] == path[i - 1] && q[i + 1] == path[i];
      }
    }
    forall i | 0 <= i < |q|
      ensures q[i].u in g && q[i].v in g[q[i].u] && q[i].w == g[q[i].u][q[i].v]
    {
      if i > 0 {
        assert q[i] == path[i - 1];
      }
    }
  }

  /** A path whose cost is the destination's distance is a cheapest one. */
  lemma CheapestChain(g: Graph, D: map<int, real>, path: seq<Hop>, src: int, dst: int)
    requires g.Keys <= D.Keys && Closed(g) && RelaxedFrom(g, D, g.Keys) && src in D && D[src] == 0.0
    requires dst in D && Cost(path) == D[dst]
    ensures forall other :: Chain(other, src, dst, g) ==> Cost(path) <= Cost(other)
  {
    forall other | Chain(other, src, dst, g)
      ensures Cost(path) <= Cost(other)
    {
      DistanceBound(g, D, other, src, dst);
    }
  }

  /** What holds between two rounds of the main loop. */
  ghost predicate SearchState(g: Graph, src: int, unseen: seq<int>, D: map<int, real>, P: map<int, Option<int>>,
                              rank: map<int, nat>)
  {
    D.Keys == g.Keys + {src} && P.Keys == g.Keys &&
    Ranked(g, unseen, rank) && Settled(unseen, D, rank) && Linked(g, P, rank) &&
    D[src] == 0.0 && RelaxedFrom(g, D, rank.Keys) &&
    PredecessorsExact(g, D, P) && UnreachedWithoutPredecessor(src, D, P)
  }

  /** One round of the main loop: the least-distance unseen node is visited and its children relaxed. */
  method Visit(g: Graph, src: int, dst: int, unseen: seq<int>, D: map<int, real>, P: map<int, Option<int>>,
               ghost rank: map<int, nat>)
    returns (node: int, unseen2: seq<int>, D2: map<int, real>, P2: map<int, Option<int>>, saw: bool,
             ghost rank2: map<int, nat>)
    requires Closed(g) && NonNegative(g) && unseen != [] && SearchState(g, src, unseen, D, P, rank)
    ensures SearchState(g, src, unseen2, D2, P2, rank2)
    ensures |unseen2| == |unseen| - 1 && node in g && rank2 == rank[node := |rank|]
    ensures saw <==> dst in g[node]
  {
    var k := SelectMin(unseen, D);
    node := unseen[k];
    D2, P2, saw := Relax(g, node, D, P, dst);
    VisitKeepsRanked(g, unseen, rank, k);
    VisitKeepsSettledLinked(g, unseen, D, P, rank, k, D2, P2);
    VisitKeepsRelaxed(g, unseen, D, P, rank, k, D2, P2);
    VisitKeepsPredecessors(g, unseen, D, P, rank, k, D2, P2, src);
    unseen2 := Without(unseen, k);
    rank2 := rank[node := |rank|];
  }

  /**
   * The main loop of the search: visit every node of the graph once, in order of
   * least tentative distance, relaxing each neighbour. Returns the distances, the
   * predecessors (None for the source's `""`) and whether `dst` was met as a child.
   * `rank` records the visiting order; every predecessor was visited earlier.
   */
  method ShortestPathTree(g: Graph, order: seq<int>, src: int, dst: int)
    returns (D: map<int, real>, P: map<int, Option<int>>, foundDst: bool, ghost rank: map<int, nat>)
    requires Closed(g) && NonNegative(g) && IsOrder(order, g)
    ensures TreeFacts(g, P, rank)
    ensures foundDst <==> SeenAsChild(g, dst)
    ensures D.Keys == g.Keys + {src}
    ensures D[src] == 0.0 && RelaxedFrom(g, D, g.Keys)
    ensures PredecessorsExact(g, D, P) && UnreachedWithoutPredecessor(src, D, P)
  {
    D := map n | n in g :: Unreached;
    P := map n | n in g :: None;
    D := D[src := 0.0];
    var unseen := order;
    foundDst := false;
    rank := map[];
    while |unseen| > 0
      invariant SearchState(g, src, unseen, D, P, rank)
      invariant foundDst <==> exists u :: u in rank && dst in g[u]
      decreases |unseen|
    {
      var node, saw;
      node, unseen, D, P, saw, rank := Visit(g, src, dst, unseen, D, P, rank);
      foundDst := foundDst || saw;
    }
    assert forall n :: n in g ==> n in rank;
  }

  /**
   * `Routing.getRoutesDijkstra`: the list of hops from `src` to `dst` read back
   * along the predecessors, `[]` when neither `src` is a key nor `dst` a child,
   * or `Err` where the source raises KeyError: a neighbour that is neither a
   * key nor `src`, or a node on the way back without predecessor.
   */
  method RoutesDijkstra(g: Graph, order: seq<int>, src: int, dst: int) returns (r: Result<seq<Hop>>)
    requires NonNegative(g) && IsOrder(order, g)
    ensures !ClosedBut(g, src) ==> r == Err("KeyError")
    ensures ClosedBut(g, src) && src == dst ==> r == Ok([])
    ensures ClosedBut(g, src) && src !in g && !SeenAsChild(g, dst) ==> r == Ok([])
    ensures r.Ok? && r.value == [] ==> src == dst || (src !in g && !SeenAsChild(g, dst))
    ensures r.Ok? && r.value != [] ==> Chain(r.value, src, dst, g)
    ensures r.Err? ==> r.error == "KeyError"
    ensures ClosedBut(g, src) && src != dst && Reachable(g, src, dst) ==> r.Ok? && r.value != []
    ensures r.Ok? && r.value != [] ==> forall other :: Chain(other, src, dst, g) ==> Cost(r.value) <= Cost(other)
  {
    if !ClosedBut(g, src) {
      return Err("KeyError");
    }
    ReachableSeenAsChild(g, src, dst);
    if !Closed(g) {
      // Some edge leads to `src`, which is then no key and is never visited:
      // every visited node stays at 10**15 and no predecessor is set, so the
      // way back from a `dst` other than `src` fails at once.
      if !SeenAsChild(g, dst) || src == dst {
        return Ok([]);
      }
      return Err("KeyError");
    }
    var D, P, foundDst, rank := ShortestPathTree(g, order, src, dst);
    var foundSrc := src in g;
    if !foundSrc && !foundDst {
      return Ok([]);
    }
    ghost var reach := src != dst && Reachable(g, src, dst);
    if reach {
      ReachableBelow(g, D, src, dst);
    }
    var path: seq<Hop> := [];
    var node := dst;
    while node != src
      invariant path == [] ==> node == dst
      invariant path != [] ==> Chain(path, node, dst, g)
      invariant src == dst ==> path == []
      invariant reach ==> node in D && D[node] < Unreached
      invariant node in D ==> dst in D && Cost(path) + D[node] == D[dst]
      decreases if node in rank then rank[node] + 1 else 0
    {
      if node !in P || P[node].None? {
        return Err("KeyError");
      }
      var p := P[node].value;
      var hop := Hop(p, node, g[p][node]);
      ChainPrepend(hop, path, dst, g);
      path := [hop] + path;
      node := p;
    }
    CheapestChain(g, D, path, src, dst);
    return Ok(path);
  }
}
