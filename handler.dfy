/**
 * The middleware request handler (`scn/plugins/middleware/handler.py`): the
 * table of bidirectional paths it created (`_path_info`, keyed by
 * "<cookie A>_bi_<cookie B>"), the client nodes with their `scn_id`s, the
 * requests it answers, the pushes it sends when an optimization fails, and
 * the heartbeat liveness test.
 *
 * The routing component is reached in two ways: its `optimizeRequested` flag
 * is the real field of `RouteStore.Routing`, and every other call into it
 * (`createMesh`, `createBiRoute`, `getRoute`, `delPath`) is recorded in a
 * ghost log, with what `createBiRoute` and `getRoute` return taken from the
 * request's environment.
 */
module Handler {
  import opened Wrappers
  import Allocation
  import opened Widgets
  import opened Strings
  import RouteStore

  const ErrCannotGetScnId: string := "ERR_CANNOT_GET_SCNID"
  const ErrCannotGetPathId: string := "ERR_CANNOT_GET_PATHID"
  const ErrInvalidPathId: string := "ERR_INVALID_PATHID"
  const ErrInternal: string := "ERR_INTERNAL"
  /** The name of the push sent when an optimization fails. */
  const OptimizeFailure: string := "OPTIMIZE_FAILURE"
  /** The separator between the two cookies of a path identifier. */
  const Separator: string := "_bi_"
  const SecondsPerDay: int := 86400

  // ------------------------------------------------------------ path identifiers

  /** `str(n)` for a natural number: its decimal digits, most significant first. */
  function NatToString(n: nat): (s: string)
    ensures |s| > 0 && forall i :: 0 <= i < |s| ==> IsDigit(s[i])
  {
    if n < 10 then [DigitChar(n)] else NatToString(n / 10) + [DigitChar(n % 10)]
  }

  /** Reading the decimal digits back gives the number. */
  lemma {:induction false} DecimalOfNatToString(n: nat)
    ensures Decimal(NatToString(n)) == n
  {
    if n >= 10 {
      DecimalOfNatToString(n / 10);
      var s := NatToString(n);
      assert s[..|s| - 1] == NatToString(n / 10);
    }
  }

  /** `int(str(n))` is `n`. */
  lemma IntOfNatToString(n: nat)
    ensures ToInt(VStr(NatToString(n))) == Ok(n)
  {
    DecimalOfNatToString(n);
    var s := NatToString(n);
    assert IsDigit(s[0]);
  }

  /** `'{0}_bi_{1}'.format(a, b)`: the identifier of the path made of routes `a` and `b`. */
  function BiId(a: nat, b: nat): string
  {
    NatToString(a) + Separator + NatToString(b)
  }

  /** A string of digits holds no separator. */
  lemma DigitsFree(t: string)
    requires forall i :: 0 <= i < |t| ==> IsDigit(t[i])
    ensures !Contains(t, Separator) && forall i :: 0 <= i < |t| ==> t[i] != Separator[0]
  {
  }

  /**
   * `send, recv = path.split('_bi_')` followed by `int(send)`, `int(recv)`:
   * exactly two pieces, each a decimal integer, or a ValueError.
   */
  function ParseBiId(id: string): (r: Result<(int, int)>)
    ensures r.Err? ==> r.error == "ValueError"
    ensures r.Ok? ==> var parts := SplitOn(id, Separator);
                      |parts| == 2 && ToInt(VStr(parts[0])) == Ok(r.value.0) && ToInt(VStr(parts[1])) == Ok(r.value.1)
  {
    var parts := SplitOn(id, Separator);
    if |parts| != 2 then Err("ValueError")
    else
      match (ToInt(VStr(parts[0])), ToInt(VStr(parts[1])))
      case (Ok(a), Ok(b)) => Ok((a, b))
      case _ => Err("ValueError")
  }

  /** The identifier `__doInnerCreatePath__` builds splits back into its two cookies. */
  lemma ParseBiIdRoundTrip(a: nat, b: nat)
    ensures ParseBiId(BiId(a, b)) == Ok((a, b))
  {
    DigitsFree(NatToString(a));
    DigitsFree(NatToString(b));
    SplitAfter(NatToString(a), NatToString(b), Separator);
    SplitWithout(NatToString(b), Separator);
    IntOfNatToString(a);
    IntOfNatToString(b);
  }

  /** Different cookie pairs give different identifiers. */
  lemma BiIdInjective(a: nat, b: nat, c: nat, d: nat)
    requires BiId(a, b) == BiId(c, d)
    ensures a == c && b == d
  {
    ParseBiIdRoundTrip(a, b);
    ParseBiIdRoundTrip(c, d);
  }

  // ------------------------------------------------------------ requests and responses

  /** One direction of a bidirectional path: `routing.Path.create(src, dst, tos=flag)`. */
  datatype DirectedPath = DirectedPath(src: int, dst: int, tos: Option<int>)

  /**
   * An entry of `_path_info`: `[srcIp, dstIp, tos, peer]`. The source records
   * the node object, which later heartbeats update in place; the copy here
   * keeps the heartbeat of its creation, and only its `Creator` identity is read.
   */
  datatype PathInfo = PathInfo(srcIp: int, dstIp: int, tos: Option<int>, peer: Option<ScnClientNode>)

  /** `__getPaths__`: the path from source to destination and the one back. */
  function GetPaths(info: PathInfo): (r: (DirectedPath, DirectedPath))
    ensures r.0.src == r.1.dst == info.srcIp && r.0.dst == r.1.src == info.dstIp
    ensures r.0.tos == r.1.tos == info.tos
  {
    (DirectedPath(info.srcIp, info.dstIp, info.tos), DirectedPath(info.dstIp, info.srcIp, info.tos))
  }

  datatype Request =
    | InitializeReq(reqId: int, listen: Peer)
    | CreateBiPathReq(reqId: int, listen: Peer, srcIp: int, dstIp: int, tos: Option<int>, minBw: Option<real>)
    | UpdatePathReq(reqId: int, listen: Peer, pathId: string, minBw: Option<real>)
    | DeleteBiPathReq(reqId: int, listen: Peer, pathId: string)
    | HeartBeatReq(reqId: int, listen: Peer)
    | OptimizeReq(reqId: int, listen: Peer)

  datatype Response =
    | InitializeResp(reqId: int, dst: Peer, gwIp: int, scnId: Option<int>, serviceServer: Val, error: Option<string>)
    | CreateBiPathResp(reqId: int, dst: Peer, pathId: Option<string>, error: Option<string>)
    | UpdatePathResp(reqId: int, dst: Peer, error: Option<string>)
    | DeleteBiPathResp(reqId: int, dst: Peer, error: Option<string>)
    | OptimizeResp(reqId: int, dst: Peer, error: Option<string>)
    | CmdResp(reqId: int, dst: Peer, error: Option<string>)

  /**
   * What a request sees of the outside: the clock, the gateway the request
   * came through, the configured service server, the cookies of the two
   * routes `createBiRoute` returns (None for a route it did not make), and
   * whether `getRoute` finds the route of a path.
   */
  datatype Env = Env(now: int, gwIp: int, serviceServer: Val, routeA: Option<nat>, routeB: Option<nat>, sendRouteFound: bool)

  /** A call into the routing component. */
  datatype RoutingCall =
    | CreateMesh(ip: Val)
    | CreateBiRoute(srcIp: int, dstIp: int, tos: Option<int>, bandwidth: Option<real>)
    | GetRoute(path: DirectedPath)
    | SetConditions(path: DirectedPath, bandwidth: Option<real>)
    | DelPath(path: DirectedPath)

  /**
   * A client node as `ScnClientNode.__hash__` and `__eq__` see it: its id and
   * its peer, never its heartbeat. The node object a path records is the one
   * a heartbeat later updates, so this is also what stays of it.
   */
  datatype NodeId = NodeId(scnId: int, peer: Peer)

  function IdOf(n: ScnClientNode): (r: NodeId)
    ensures r.scnId == n.scnId && r.peer == n.peer
  {
    NodeId(n.scnId, n.peer)
  }

  /** The identities of the nodes, in order. */
  function Ids(nodes: seq<ScnClientNode>): (r: seq<NodeId>)
    ensures |r| == |nodes| && forall i :: 0 <= i < |nodes| ==> r[i] == IdOf(nodes[i])
  {
    seq(|nodes|, i requires 0 <= i < |nodes| => IdOf(nodes[i]))
  }

  /** The node that created a path, as a key of the `pushes` dictionary (None when unknown). */
  function Creator(info: PathInfo): (r: Option<NodeId>)
    ensures r.Some? <==> info.peer.Some?
    ensures r.Some? ==> r.value.scnId == info.peer.value.scnId && r.value.peer == info.peer.value.peer
  {
    if info.peer.None? then None else Some(IdOf(info.peer.value))
  }

  /** A `PushReq` raised towards one client node. */
  datatype Push = Push(name: string, routes: set<string>, dst: NodeId)

  /** The request's listen peer after `req.listen_peer.protocol = Peer.TCP`. */
  function WithTcp(p: Peer): (r: Peer)
    ensures r.ipaddr == p.ipaddr && r.port == p.port && r.domain == p.domain && r.protocol == VStr(Tcp)
  {
    p.(protocol := VStr(Tcp))
  }

  /** `ScnClientNode(scn_id, ipaddr, port, protocol)`: a falsy protocol becomes TCP, no domain. */
  function NewNode(scnId: int, listen: Peer, now: int): (n: ScnClientNode)
    ensures n.scnId == scnId && n.peer.ipaddr == listen.ipaddr && n.peer.port == listen.port && n.heartbeat == now
    ensures n.peer.protocol == (if Truthy(listen.protocol) then listen.protocol else VStr(Tcp))
  {
    ScnClientNode(scnId, Peer(listen.ipaddr, listen.port, if Truthy(listen.protocol) then listen.protocol else VStr(Tcp), VNone), now)
  }

  // ------------------------------------------------------------ client identifiers

  /** The `scn_id`s held by the nodes. */
  function ScnIds(nodes: seq<ScnClientNode>): set<int>
  {
    set n | n in nodes :: n.scnId
  }

  predicate UniqueScnIds(nodes: seq<ScnClientNode>)
  {
    forall i, j :: 0 <= i < j < |nodes| ==> nodes[i].scnId != nodes[j].scnId
  }

  /** `get_by('scn_id', c)` finds nothing exactly when no node holds `c`. */
  lemma ScnIdLookup(nodes: seq<ScnClientNode>, c: int)
    ensures GetBy(nodes, ScnIdKey, VInt(c)).None? <==> c !in ScnIds(nodes)
  {
    if c in ScnIds(nodes) {
      var n :| n in nodes && n.scnId == c;
      var i :| 0 <= i < |nodes| && nodes[i] == n;
      assert Attr(nodes[i], ScnIdKey) == VInt(c);
    }
  }

  /** Appending a node whose id is new keeps the ids distinct, and adds exactly that id. */
  lemma AppendedFreshId(nodes: seq<ScnClientNode>, node: ScnClientNode)
    requires UniqueIps(nodes) && UniqueScnIds(nodes) && node.scnId !in ScnIds(nodes)
    ensures UniqueScnIds(Appended(nodes, node))
    ensures node.scnId in ScnIds(Appended(nodes, node)) && ScnIds(Appended(nodes, node)) <= ScnIds(nodes) + {node.scnId}
  {
    var r := Appended(nodes, node);
    var idx := IndexBy(nodes, IpKey, node.peer.ipaddr);
    var rest := if idx < 0 then nodes else nodes[..idx] + nodes[idx + 1..];
    assert r == rest + [node];
    if idx >= 0 {
      RemoveAtIds(nodes, idx);
    }
    SnocFreshId(rest, node);
    AppendedUnique(nodes, node);
    assert r[|r| - 1] == node;
    forall c | c in ScnIds(r)
      ensures c in ScnIds(nodes) + {node.scnId}
    {
      var n :| n in r && n.scnId == c;
    }
  }

  /** Removing one node keeps the others' ids distinct, and every remaining node was there. */
  lemma RemoveAtIds(nodes: seq<ScnClientNode>, idx: int)
    requires UniqueScnIds(nodes) && 0 <= idx < |nodes|
    ensures var rest := nodes[..idx] + nodes[idx + 1..];
      UniqueScnIds(rest) && forall k :: 0 <= k < |rest| ==> rest[k] in nodes
  {
    var rest := nodes[..idx] + nodes[idx + 1..];
    assert forall k :: 0 <= k < |rest| ==> rest[k] == (if k < idx then nodes[k] else nodes[k + 1]);
    forall i, j | 0 <= i < j < |rest|
      ensures rest[i].scnId != rest[j].scnId
    {
      var i2 := if i < idx then i else i + 1;
      var j2 := if j < idx then j else j + 1;
      assert rest[i] == nodes[i2] && rest[j] == nodes[j2] && i2 < j2;
    }
  }

  /** A node with a new id can go at the end. */
  lemma SnocFreshId(rest: seq<ScnClientNode>, node: ScnClientNode)
    requires UniqueScnIds(rest)
    requires forall k :: 0 <= k < |rest| ==> rest[k].scnId != node.scnId
    ensures UniqueScnIds(rest + [node])
  {
    var r := rest + [node];
    forall i, j | 0 <= i < j < |r|
      ensures r[i].scnId != r[j].scnId
    {
      assert r[i] == rest[i];
    }
  }

  /** `nodes` after `node.heartbeat = now` on the node with address `ip`, if any. */
  function Beat(nodes: seq<ScnClientNode>, ip: Val, now: int): (r: seq<ScnClientNode>)
    ensures |r| == |nodes|
  {
    var idx := IndexBy(nodes, IpKey, ip);
    if idx < 0 then nodes else nodes[idx := nodes[idx].(heartbeat := now)]
  }

  /** A heartbeat changes no identity: ids and peers stay, only the heartbeat of the first node with `ip` moves. */
  lemma BeatKeepsIdentities(nodes: seq<ScnClientNode>, ip: Val, now: int)
    ensures forall i :: 0 <= i < |nodes| ==>
      Beat(nodes, ip, now)[i].scnId == nodes[i].scnId && Beat(nodes, ip, now)[i].peer == nodes[i].peer
    ensures forall i :: 0 <= i < |nodes| ==>
      Beat(nodes, ip, now)[i].heartbeat == (if i == IndexBy(nodes, IpKey, ip) then now else nodes[i].heartbeat)
    ensures UniqueIps(nodes) ==> UniqueIps(Beat(nodes, ip, now))
    ensures ScnIds(Beat(nodes, ip, now)) == ScnIds(nodes)
    ensures UniqueScnIds(nodes) ==> UniqueScnIds(Beat(nodes, ip, now))
  {
    var r := Beat(nodes, ip, now);
    forall c | c in ScnIds(nodes)
      ensures c in ScnIds(r)
    {
      var n :| n in nodes && n.scnId == c;
      var k :| 0 <= k < |nodes| && nodes[k] == n;
      assert r[k].scnId == c;
    }
    forall c | c in ScnIds(r)
      ensures c in ScnIds(nodes)
    {
      var n :| n in r && n.scnId == c;
      var k :| 0 <= k < |r| && r[k] == n;
      assert nodes[k].scnId == c;
    }
  }

  /** After a heartbeat from `ip`, the node found by that address is the one that beat, stamped `now`. */
  lemma BeatFound(nodes: seq<ScnClientNode>, ip: Val, now: int)
    requires IndexBy(nodes, IpKey, ip) >= 0
    ensures GetBy(Beat(nodes, ip, now), IpKey, ip) == Some(nodes[IndexBy(nodes, IpKey, ip)].(heartbeat := now))
  {
    var idx := IndexBy(nodes, IpKey, ip);
    var r := Beat(nodes, ip, now);
    assert forall i :: 0 <= i < |nodes| ==> Attr(r[i], IpKey) == Attr(nodes[i], IpKey);
    assert Attr(r[idx], IpKey) == ip;
    var j := IndexBy(r, IpKey, ip);
    assert j == idx;
  }

  // ------------------------------------------------------------ liveness

  /**
   * `__isAlive__` as written: `(now - heartbeat).seconds` is only the seconds
   * part of the elapsed time (0 .. 86399), its whole days dropped.
   */
  predicate IsAliveAsWritten(activate: bool, interval: int, heartbeat: int, now: int)
  {
    !activate || interval > (now - heartbeat) % SecondsPerDay
  }

  /** `__isAlive__` as intended: the whole elapsed time is below the expected heartbeat interval. */
  predicate IsAlive(activate: bool, interval: int, heartbeat: int, now: int)
  {
    !activate || interval > now - heartbeat
  }

  /** A node silent for a day and five seconds passes the written test with a 10-second interval. */
  lemma SilentNodeRevives()
    ensures IsAliveAsWritten(true, 10, 0, SecondsPerDay + 5)
    ensures !IsAlive(true, 10, 0, SecondsPerDay + 5)
  {
  }

  /** Within the first day after a heartbeat both tests agree; the corrected one stays false once it fails. */
  lemma IsAliveProperties(activate: bool, interval: int, heartbeat: int, now: int, later: int)
    requires now <= later
    ensures 0 <= now - heartbeat < SecondsPerDay ==>
              (IsAliveAsWritten(activate, interval, heartbeat, now) <==> IsAlive(activate, interval, heartbeat, now))
    ensures !IsAlive(activate, interval, heartbeat, now) ==> !IsAlive(activate, interval, heartbeat, later)
    ensures interval > 0 ==> IsAlive(activate, interval, now, now)
  {
  }

  /** A node that has just sent a heartbeat is alive whenever the expected interval is positive. */
  lemma BeatKeepsAlive(nodes: seq<ScnClientNode>, ip: Val, now: int, activate: bool, interval: int)
    requires interval > 0 && IndexBy(nodes, IpKey, ip) >= 0
    ensures GetBy(Beat(nodes, ip, now), IpKey, ip).Some?
    ensures IsAlive(activate, interval, GetBy(Beat(nodes, ip, now), IpKey, ip).value.heartbeat, now)
  {
    BeatFound(nodes, ip, now);
  }

  // ------------------------------------------------------------ optimize-failure pushes

  /** The path `id` uses one of the failed cookies in either direction. */
  predicate FailedId(id: string, cookies: seq<int>)
  {
    ParseBiId(id).Ok? && (ParseBiId(id).value.0 in cookies || ParseBiId(id).value.1 in cookies)
  }

  /** The failed paths among `done`. */
  function FailedIn(pathInfo: map<string, PathInfo>, cookies: seq<int>, done: set<string>): set<string>
  {
    set id | id in done && id in pathInfo && FailedId(id, cookies)
  }

  /** The failed paths among `done`, grouped by the identity of the node that created them (None for an unknown node). */
  function GroupsOver(pathInfo: map<string, PathInfo>, cookies: seq<int>, done: set<string>): map<Option<NodeId>, set<string>>
  {
    map peer | peer in PeersOf(pathInfo, FailedIn(pathInfo, cookies, done)) ::
      GroupOf(pathInfo, FailedIn(pathInfo, cookies, done), peer)
  }

  /** The nodes that created the paths `ids`. */
  function PeersOf(pathInfo: map<string, PathInfo>, ids: set<string>): set<Option<NodeId>>
  {
    set id | id in ids && id in pathInfo :: Creator(pathInfo[id])
  }

  /** The paths among `ids` created by `peer`. */
  function GroupOf(pathInfo: map<string, PathInfo>, ids: set<string>, peer: Option<NodeId>): set<string>
  {
    set id | id in ids && id in pathInfo && Creator(pathInfo[id]) == peer
  }

  /** The `pushes` dictionary `push_request_optimize_failure` builds, as sets (`list(set(paths))`). */
  function Groups(pathInfo: map<string, PathInfo>, cookies: seq<int>): map<Option<NodeId>, set<string>>
  {
    GroupsOver(pathInfo, cookies, pathInfo.Keys)
  }

  /** Moving one element from the unvisited to the visited part keeps the partition. */
  lemma MoveOne<T>(done: set<T>, remaining: set<T>, all: set<T>, x: T)
    requires done + remaining == all && done !! remaining && x in remaining
    ensures (done + {x}) + (remaining - {x}) == all && (done + {x}) !! (remaining - {x})
  {
  }

  /** Visiting one more path adds it to its node's group when it failed. */
  lemma GroupsOverAdd(pathInfo: map<string, PathInfo>, cookies: seq<int>, done: set<string>, id: string)
    requires id in pathInfo && id !in done
    ensures var g := GroupsOver(pathInfo, cookies, done);
            var peer := Creator(pathInfo[id]);
            GroupsOver(pathInfo, cookies, done + {id}) ==
              if FailedId(id, cookies) then g[peer := (if peer in g then g[peer] else {}) + {id}] else g
  {
    var f := FailedIn(pathInfo, cookies, done);
    if FailedId(id, cookies) {
      assert FailedIn(pathInfo, cookies, done + {id}) == f + {id};
      GroupsAddFailed(pathInfo, f, id);
    } else {
      assert FailedIn(pathInfo, cookies, done + {id}) == f;
    }
  }

  /** The grouping of the failed paths `f` and one more failed path `id`. */
  lemma GroupsAddFailed(pathInfo: map<string, PathInfo>, f: set<string>, id: string)
    requires id in pathInfo && id !in f
    ensures var g := map peer | peer in PeersOf(pathInfo, f) :: GroupOf(pathInfo, f, peer);
            var peer := Creator(pathInfo[id]);
            (map p | p in PeersOf(pathInfo, f + {id}) :: GroupOf(pathInfo, f + {id}, p)) ==
              g[peer := (if peer in g then g[peer] else {}) + {id}]
  {
    var g := map peer | peer in PeersOf(pathInfo, f) :: GroupOf(pathInfo, f, peer);
    var g2 := map p | p in PeersOf(pathInfo, f + {id}) :: GroupOf(pathInfo, f + {id}, p);
    var peer := Creator(pathInfo[id]);
    PeersOfAdd(pathInfo, f, id);
    var e := g[peer := (if peer in g then g[peer] else {}) + {id}];
    assert g2.Keys == e.Keys;
    forall p | p in g2
      ensures g2[p] == e[p]
    {
      GroupOfAdd(pathInfo, f, id, p);
      if p != peer {
        assert p in g;
      } else if peer !in g {
        assert GroupOf(pathInfo, f, p) == {};
      }
    }
  }

  lemma PeersOfAdd(pathInfo: map<string, PathInfo>, ids: set<string>, id: string)
    requires id in pathInfo
    ensures PeersOf(pathInfo, ids + {id}) == PeersOf(pathInfo, ids) + {Creator(pathInfo[id])}
  {
  }

  lemma GroupOfAdd(pathInfo: map<string, PathInfo>, ids: set<string>, id: string, peer: Option<NodeId>)
    requires id in pathInfo && id !in ids
    ensures GroupOf(pathInfo, ids + {id}, peer) ==
            GroupOf(pathInfo, ids, peer) + (if Creator(pathInfo[id]) == peer then {id} else {})
  {
  }

  /** A path is in a group exactly when it failed, and it sits in the group of the node that created it. */
  lemma GroupsExact(pathInfo: map<string, PathInfo>, cookies: seq<int>, peer: Option<NodeId>, id: string)
    ensures var g := Groups(pathInfo, cookies);
            (peer in g && id in g[peer]) <==> (id in pathInfo && FailedId(id, cookies) && Creator(pathInfo[id]) == peer)
    ensures var g := Groups(pathInfo, cookies);
            peer in g ==> g[peer] != {}
  {
    var g := Groups(pathInfo, cookies);
    if id in pathInfo && FailedId(id, cookies) && Creator(pathInfo[id]) == peer {
      assert id in FailedIn(pathInfo, cookies, pathInfo.Keys);
    }
    if peer in g {
      var w :| w in FailedIn(pathInfo, cookies, pathInfo.Keys) && Creator(pathInfo[w]) == peer;
      assert w in g[peer];
    }
  }

  /** `push_request(name, payload, nodes)`: no node (None) means every known node, otherwise that one. */
  function Recipients(target: Option<NodeId>, nodes: seq<ScnClientNode>): seq<NodeId>
  {
    if target.None? then Ids(nodes) else [target.value]
  }

  /**
   * The creator `_handle_CreateBiPathReq` records, as written: it looks the
   * node up by the listen peer object itself instead of its address; an
   * address never equals a peer (`Peer.__eq__` is False against anything that
   * is not a peer), so the lookup finds nothing.
   */
  function CreatorAsWritten(nodes: seq<ScnClientNode>, listen: Peer): Option<ScnClientNode>
  {
    None
  }

  /**
   * As written, a path created by a registered node while another node is
   * registered has its OPTIMIZE_FAILURE pushed to every node rather than to
   * its creator alone, which is what the lookup by address gives.
   */
  lemma CreatorAsWrittenBroadcasts(nodes: seq<ScnClientNode>, listen: Peer, other: ScnClientNode, srcIp: int, dstIp: int, tos: Option<int>)
    requires GetBy(nodes, IpKey, listen.ipaddr).Some?
    requires other in nodes && other != GetBy(nodes, IpKey, listen.ipaddr).value
    ensures var written := PathInfo(srcIp, dstIp, tos, CreatorAsWritten(nodes, listen));
            Recipients(Creator(written), nodes) == Ids(nodes)
    ensures var meant := PathInfo(srcIp, dstIp, tos, GetBy(nodes, IpKey, listen.ipaddr));
            Recipients(Creator(meant), nodes) == [IdOf(GetBy(nodes, IpKey, listen.ipaddr).value)]
    ensures var written := PathInfo(srcIp, dstIp, tos, CreatorAsWritten(nodes, listen));
            var meant := PathInfo(srcIp, dstIp, tos, GetBy(nodes, IpKey, listen.ipaddr));
            Recipients(Creator(written), nodes) != Recipients(Creator(meant), nodes)
  {
    var creator := GetBy(nodes, IpKey, listen.ipaddr).value;
    assert creator in nodes && other in nodes && other != creator;
    var i :| 0 <= i < |nodes| && nodes[i] == other;
    var j :| 0 <= j < |nodes| && nodes[j] == creator;
    assert i != j;
  }

  /** The pushes of one `push_request` call, one per recipient in order. */
  function PushesTo(name: string, routes: set<string>, rs: seq<NodeId>): (r: seq<Push>)
    ensures |r| == |rs| && forall i :: 0 <= i < |rs| ==> r[i] == Push(name, routes, rs[i])
  {
    seq(|rs|, i requires 0 <= i < |rs| => Push(name, routes, rs[i]))
  }

  function Elems(s: seq<Push>): set<Push>
  {
    set p | p in s
  }

  /** The pushes owed for the groups of `peers`. */
  function Owed(groups: map<Option<NodeId>, set<string>>, peers: set<Option<NodeId>>, nodes: seq<ScnClientNode>): set<Push>
  {
    set peer, n | peer in peers && peer in groups && n in Recipients(peer, nodes) :: Push(OptimizeFailure, groups[peer], n)
  }

  /** Serving one more group adds the pushes to its recipients. */
  lemma OwedAdd(groups: map<Option<NodeId>, set<string>>, peers: set<Option<NodeId>>, peer: Option<NodeId>, nodes: seq<ScnClientNode>)
    requires peer in groups
    ensures Owed(groups, peers + {peer}, nodes) ==
            Owed(groups, peers, nodes) + Elems(PushesTo(OptimizeFailure, groups[peer], Recipients(peer, nodes)))
  {
    var e := Elems(PushesTo(OptimizeFailure, groups[peer], Recipients(peer, nodes)));
    forall p | p in e
      ensures p in Owed(groups, peers + {peer}, nodes)
    {
      var rs := Recipients(peer, nodes);
      var i :| 0 <= i < |rs| && PushesTo(OptimizeFailure, groups[peer], rs)[i] == p;
      assert rs[i] in rs;
    }
    forall p | p in Owed(groups, peers + {peer}, nodes) && p !in Owed(groups, peers, nodes)
      ensures p in e
    {
      var q, n :| q in peers + {peer} && q in groups && n in Recipients(q, nodes) && p == Push(OptimizeFailure, groups[q], n);
      assert q == peer;
      var rs := Recipients(peer, nodes);
      var i :| 0 <= i < |rs| && rs[i] == n;
      assert PushesTo(OptimizeFailure, groups[peer], rs)[i] == p;
    }
  }

  /** One `push_request` call serves one more group. */
  lemma PushStep(before: seq<Push>, after: seq<Push>, start: int, groups: map<Option<NodeId>, set<string>>,
                 done: set<Option<NodeId>>, peer: Option<NodeId>, nodes: seq<ScnClientNode>)
    requires 0 <= start <= |before| && peer in groups
    requires after == before + PushesTo(OptimizeFailure, groups[peer], Recipients(peer, nodes))
    requires Elems(before[start..]) == Owed(groups, done, nodes)
    ensures |after| >= start && after[..start] == before[..start]
    ensures Elems(after[start..]) == Owed(groups, done + {peer}, nodes)
  {
    var added := PushesTo(OptimizeFailure, groups[peer], Recipients(peer, nodes));
    assert after[start..] == before[start..] + added;
    assert Elems(after[start..]) == Elems(before[start..]) + Elems(added);
    OwedAdd(groups, done, peer, nodes);
  }

  /**
   * What an optimization failure tells the clients: every failed path reaches
   * the node that created it, or every known node when that node is unknown,
   * and each push lists only failed paths of one creating node.
   */
  lemma FailureReported(pathInfo: map<string, PathInfo>, cookies: seq<int>, nodes: seq<ScnClientNode>, id: string, n: NodeId)
    requires id in pathInfo && FailedId(id, cookies)
    requires n in Recipients(Creator(pathInfo[id]), nodes)
    ensures var g := Groups(pathInfo, cookies);
            exists routes :: id in routes && Push(OptimizeFailure, routes, n) in Owed(g, g.Keys, nodes)
  {
    var g := Groups(pathInfo, cookies);
    var peer := Creator(pathInfo[id]);
    GroupsExact(pathInfo, cookies, peer, id);
    assert Push(OptimizeFailure, g[peer], n) in Owed(g, g.Keys, nodes);
  }

  /** Each push owed carries only failed paths, all created by a node that is its recipient or unknown. */
  lemma PushesCarryFailures(pathInfo: map<string, PathInfo>, cookies: seq<int>, nodes: seq<ScnClientNode>, p: Push, id: string)
    requires var g := Groups(pathInfo, cookies); p in Owed(g, g.Keys, nodes)
    requires id in p.routes
    ensures id in pathInfo && FailedId(id, cookies)
    ensures Creator(pathInfo[id]).None? || Creator(pathInfo[id]) == Some(p.dst)
  {
    var g := Groups(pathInfo, cookies);
    var q, n :| q in g.Keys && q in g && n in Recipients(q, nodes) && p == Push(OptimizeFailure, g[q], n);
    GroupsExact(pathInfo, cookies, q, id);
  }

  /**
   * A node that sent a heartbeat between creating two failed paths: the path
   * recorded before the heartbeat holds the node as it was, the one after it
   * the beaten node. Both land in the one group of that node, so the node is
   * sent one OPTIMIZE_FAILURE push listing both paths.
   */
  lemma {:induction false} HeartbeatSharesGroup(pathInfo: map<string, PathInfo>, cookies: seq<int>, nodes: seq<ScnClientNode>,
                                                ip: Val, now: int, i: int, a: string, b: string)
    requires 0 <= i < |nodes|
    requires a in pathInfo && b in pathInfo && FailedId(a, cookies) && FailedId(b, cookies)
    requires pathInfo[a].peer == Some(nodes[i]) && pathInfo[b].peer == Some(Beat(nodes, ip, now)[i])
    ensures var g := Groups(pathInfo, cookies);
            Some(IdOf(nodes[i])) in g && a in g[Some(IdOf(nodes[i]))] && b in g[Some(IdOf(nodes[i]))]
    ensures var g := Groups(pathInfo, cookies);
            Push(OptimizeFailure, g[Some(IdOf(nodes[i]))], IdOf(nodes[i])) in Owed(g, g.Keys, nodes)
  {
    BeatKeepsIdentities(nodes, ip, now);
    var k := Some(IdOf(nodes[i]));
    assert Creator(pathInfo[b]) == k;
    GroupsExact(pathInfo, cookies, k, a);
    GroupsExact(pathInfo, cookies, k, b);
    var g := Groups(pathInfo, cookies);
    assert IdOf(nodes[i]) in Recipients(k, nodes);
  }

  // ------------------------------------------------------------ the handler

  class Handler {
    /** `_path_info`: the bidirectional paths created, by identifier. */
    var pathInfo: map<string, PathInfo>
    /** `_node_list`. */
    const nodeList: NodeList
    const heartbeatActivate: bool
    const heartbeatInterval: int
    /** `prev_id`: the last `scn_id` issued. */
    var prevId: int
    /** `cmds`: every request handled except heartbeats. */
    var cmds: seq<Request>
    /** `core.routing`. */
    const routing: RouteStore.Routing
    ghost var routingCalls: seq<RoutingCall>
    /** The responses raised, in order. */
    ghost var raised: seq<Response>
    /** The pushes raised, in order. */
    ghost var pushed: seq<Push>

    /**
     * Ids are issued in 1 .. 65535 and held by one node each, one node per
     * address, and every path identifier splits into two cookies.
     */
    ghost predicate Valid()
      reads this, nodeList
    {
      0 <= prevId < Allocation.Modulus &&
      UniqueIps(nodeList.nodes) && UniqueScnIds(nodeList.nodes) &&
      (forall n :: n in nodeList.nodes ==> 0 < n.scnId < Allocation.Modulus) &&
      (forall id :: id in pathInfo ==> ParseBiId(id).Ok?)
    }

    constructor(heartbeatActivate: bool, heartbeatInterval: int, routing: RouteStore.Routing)
      ensures Valid() && fresh(nodeList)
      ensures pathInfo == map[] && nodeList.nodes == [] && prevId == 0 && cmds == []
      ensures this.heartbeatActivate == heartbeatActivate && this.heartbeatInterval == heartbeatInterval
      ensures this.routing == routing && routingCalls == [] && raised == [] && pushed == []
    {
      pathInfo := map[];
      nodeList := new NodeList();
      this.heartbeatActivate := heartbeatActivate;
      this.heartbeatInterval := heartbeatInterval;
      prevId := 0;
      cmds := [];
      this.routing := routing;
      routingCalls := [];
      raised := [];
      pushed := [];
    }

    /**
     * The `scn_id` scan of `_handle_InitializeReq`: the 65534 values after
     * `prev_id`, modulo 65536, skipping 0 and every id a node holds.
     */
    method NextScnId() returns (id: Option<int>)
      requires Valid()
      ensures id == Allocation.FirstFree(ScnIds(nodeList.nodes), prevId)
    {
      var nodes := nodeList.nodes;
      var prev := prevId;
      ghost var taken := ScnIds(nodes);
      var k := 1;
      while k < Allocation.Span
        invariant 1 <= k <= Allocation.Span
        invariant Allocation.FirstFree(taken, prev) == Allocation.ScanFrom(taken, prev, k)
        decreases Allocation.Span - k
      {
        var tmp := Allocation.Candidate(prev, k);
        Allocation.ScanStep(taken, prev, k);
        if tmp != 0 {
          ScnIdLookup(nodes, tmp);
          if GetBy(nodes, ScnIdKey, VInt(tmp)).None? {
            return Some(tmp);
          }
        }
        k := k + 1;
      }
      return None;
    }

    /**
     * `_handle_InitializeReq`: issue the next free id to the listen peer as a
     * new node (replacing the node with the same address), or answer
     * ERR_CANNOT_GET_SCNID; the mesh towards the peer is created either way.
     */
    method Initialize(req: Request, env: Env) returns (resp: Response)
      requires Valid() && req.InitializeReq?
      modifies this, nodeList
      ensures Valid()
      ensures var id := Allocation.FirstFree(ScnIds(old(nodeList.nodes)), old(prevId));
        resp == InitializeResp(req.reqId, req.listen, env.gwIp, id, env.serviceServer,
                               if id.None? then Some(ErrCannotGetScnId) else None) &&
        (id.Some? ==> prevId == id.value && nodeList.nodes == Appended(old(nodeList.nodes), NewNode(id.value, req.listen, env.now))) &&
        (id.None? ==> prevId == old(prevId) && nodeList.nodes == old(nodeList.nodes))
      ensures routingCalls == old(routingCalls) + [CreateMesh(req.listen.ipaddr)]
      ensures pathInfo == old(pathInfo) && cmds == old(cmds) && raised == old(raised) && pushed == old(pushed)
    {
      var id := NextScnId();
      if id.Some? {
        Allocation.FirstFreeIsFirst(ScnIds(nodeList.nodes), prevId);
        var node := NewNode(id.value, req.listen, env.now);
        AppendedUnique(nodeList.nodes, node);
        AppendedFreshId(nodeList.nodes, node);
        prevId := id.value;
        nodeList.Append(node);
      }
      routingCalls := routingCalls + [CreateMesh(req.listen.ipaddr)];
      resp := InitializeResp(req.reqId, req.listen, env.gwIp, id, env.serviceServer,
                             if id.None? then Some(ErrCannotGetScnId) else None);
    }

    /**
     * `_handle_CreateBiPathReq` with `__doInnerCreatePath__`: ask for both
     * routes; when both exist, record the path under "<A>_bi_<B>" with the
     * node registered at the listen peer's address, else answer
     * ERR_CANNOT_GET_PATHID. The source looks the node up by the peer
     * object instead (`CreatorAsWritten`); this is the lookup it means.
     */
    method CreateBiPath(req: Request, env: Env) returns (resp: Response)
      requires Valid() && req.CreateBiPathReq?
      modifies this
      ensures Valid()
      ensures var made := env.routeA.Some? && env.routeB.Some?;
        var node := GetBy(nodeList.nodes, IpKey, req.listen.ipaddr);
        resp == CreateBiPathResp(req.reqId, WithTcp(req.listen),
                                 if made then Some(BiId(env.routeA.value, env.routeB.value)) else None,
                                 if made then None else Some(ErrCannotGetPathId)) &&
        pathInfo == if made then old(pathInfo)[BiId(env.routeA.value, env.routeB.value) := PathInfo(req.srcIp, req.dstIp, req.tos, node)]
                    else old(pathInfo)
      ensures routingCalls == old(routingCalls) + [CreateBiRoute(req.srcIp, req.dstIp, req.tos, req.minBw)]
      ensures prevId == old(prevId) && cmds == old(cmds) && raised == old(raised) && pushed == old(pushed)
    {
      var node := GetBy(nodeList.nodes, IpKey, req.listen.ipaddr);
      routingCalls := routingCalls + [CreateBiRoute(req.srcIp, req.dstIp, req.tos, req.minBw)];
      var pathId: Option<string> := None;
      if env.routeA.Some? && env.routeB.Some? {
        var id := BiId(env.routeA.value, env.routeB.value);
        ParseBiIdRoundTrip(env.routeA.value, env.routeB.value);
        pathInfo := pathInfo[id := PathInfo(req.srcIp, req.dstIp, req.tos, node)];
        pathId := Some(id);
      }
      resp := CreateBiPathResp(req.reqId, WithTcp(req.listen), pathId, if pathId.None? then Some(ErrCannotGetPathId) else None);
    }

    /**
     * `_handle_UpdatePathReq`: an unknown path id is ERR_INVALID_PATHID; a
     * known one has its forward route's conditions set to the requested
     * bandwidth, and a missing route raises AttributeError. Unless something
     * raised, an optimization is requested.
     */
    method UpdatePath(req: Request, env: Env) returns (r: Result<Response>)
      requires Valid() && req.UpdatePathReq?
      modifies this, routing`optimizeRequested
      ensures Valid()
      ensures req.pathId !in old(pathInfo) ==>
        r == Ok(UpdatePathResp(req.reqId, WithTcp(req.listen), Some(ErrInvalidPathId))) &&
        routing.optimizeRequested && routingCalls == old(routingCalls)
      ensures req.pathId in old(pathInfo) ==>
        var send := GetPaths(old(pathInfo)[req.pathId]).0;
        if env.sendRouteFound then
          r == Ok(UpdatePathResp(req.reqId, WithTcp(req.listen), None)) && routing.optimizeRequested &&
          routingCalls == old(routingCalls) + [GetRoute(send), SetConditions(send, req.minBw)]
        else
          r == Err("AttributeError") && routing.optimizeRequested == old(routing.optimizeRequested) &&
          routingCalls == old(routingCalls) + [GetRoute(send)]
      ensures pathInfo == old(pathInfo) && prevId == old(prevId) && cmds == old(cmds)
      ensures raised == old(raised) && pushed == old(pushed)
    {
      if req.pathId !in pathInfo {
        routing.optimizeRequested := true;
        return Ok(UpdatePathResp(req.reqId, WithTcp(req.listen), Some(ErrInvalidPathId)));
      }
      var (send, recv) := GetPaths(pathInfo[req.pathId]);
      routingCalls := routingCalls + [GetRoute(send)];
      if !env.sendRouteFound {
        return Err("AttributeError");
      }
      routingCalls := routingCalls + [SetConditions(send, req.minBw)];
      routing.optimizeRequested := true;
      r := Ok(UpdatePathResp(req.reqId, WithTcp(req.listen), None));
    }

    /**
     * `_handle_DeleteBiPathReq`: a known path leaves the table and both its
     * directions are deleted from the routing; an unknown one is
     * ERR_INVALID_PATHID and changes nothing.
     */
    method DeleteBiPath(req: Request) returns (resp: Response)
      requires Valid() && req.DeleteBiPathReq?
      modifies this
      ensures Valid()
      ensures req.pathId in old(pathInfo) ==>
        var (send, recv) := GetPaths(old(pathInfo)[req.pathId]);
        pathInfo == old(pathInfo) - {req.pathId} &&
        resp == DeleteBiPathResp(req.reqId, WithTcp(req.listen), None) &&
        routingCalls == old(routingCalls) + [DelPath(send), DelPath(recv)]
      ensures req.pathId !in old(pathInfo) ==>
        pathInfo == old(pathInfo) && routingCalls == old(routingCalls) &&
        resp == DeleteBiPathResp(req.reqId, WithTcp(req.listen), Some(ErrInvalidPathId))
      ensures prevId == old(prevId) && cmds == old(cmds) && raised == old(raised) && pushed == old(pushed)
    {
      if req.pathId !in pathInfo {
        return DeleteBiPathResp(req.reqId, WithTcp(req.listen), Some(ErrInvalidPathId));
      }
      var (send, recv) := GetPaths(pathInfo[req.pathId]);
      pathInfo := pathInfo - {req.pathId};
      routingCalls := routingCalls + [DelPath(send), DelPath(recv)];
      resp := DeleteBiPathResp(req.reqId, WithTcp(req.listen), None);
    }

    /** `_handle_HeartBeatReq`: the node with the listen peer's address, if any, records the time. */
    method HeartBeat(req: Request, env: Env)
      requires Valid() && req.HeartBeatReq?
      modifies nodeList
      ensures Valid()
      ensures nodeList.nodes == Beat(old(nodeList.nodes), req.listen.ipaddr, env.now)
    {
      BeatKeepsIdentities(nodeList.nodes, req.listen.ipaddr, env.now);
      var idx := IndexBy(nodeList.nodes, IpKey, req.listen.ipaddr);
      if idx >= 0 {
        nodeList.nodes := nodeList.nodes[idx := nodeList.nodes[idx].(heartbeat := env.now)];
      }
    }

    /** `_handle_OptimizeReq`: request an optimization and answer without error. */
    method Optimize(req: Request) returns (resp: Response)
      requires req.OptimizeReq?
      modifies routing`optimizeRequested
      ensures routing.optimizeRequested
      ensures resp == OptimizeResp(req.reqId, WithTcp(req.listen), None)
    {
      routing.optimizeRequested := true;
      resp := OptimizeResp(req.reqId, WithTcp(req.listen), None);
    }

    /** `isNodeAlive`: the node with address `ip` exists and passes the heartbeat test at `now`. */
    function IsNodeAlive(ip: Val, now: int): (r: bool)
      reads this, nodeList
      ensures r <==> GetBy(nodeList.nodes, IpKey, ip).Some? &&
                     IsAlive(heartbeatActivate, heartbeatInterval, GetBy(nodeList.nodes, IpKey, ip).value.heartbeat, now)
      ensures r ==> exists n :: n in nodeList.nodes && n.peer.ipaddr == ip
    {
      var node := GetBy(nodeList.nodes, IpKey, ip);
      node.Some? && IsAlive(heartbeatActivate, heartbeatInterval, node.value.heartbeat, now)
    }

    /** `push_request`: one push per recipient, in the order of the node list. */
    method PushRequest(name: string, routes: set<string>, target: Option<NodeId>)
      modifies this
      ensures pushed == old(pushed) + PushesTo(name, routes, Recipients(target, nodeList.nodes))
      ensures pathInfo == old(pathInfo) && prevId == old(prevId) && cmds == old(cmds)
      ensures raised == old(raised) && routingCalls == old(routingCalls)
    {
      var rs := Recipients(target, nodeList.nodes);
      for i := 0 to |rs|
        invariant pushed == old(pushed) + PushesTo(name, routes, rs[..i])
        invariant pathInfo == old(pathInfo) && prevId == old(prevId) && cmds == old(cmds)
        invariant raised == old(raised) && routingCalls == old(routingCalls)
      {
        assert rs[..i + 1] == rs[..i] + [rs[i]];
        pushed := pushed + [Push(name, routes, rs[i])];
      }
      assert rs[..|rs|] == rs;
    }

    /** The first loop of `push_request_optimize_failure`: group the failed paths by creating node. */
    method GroupFailures(cookies: seq<int>) returns (groups: map<Option<NodeId>, set<string>>)
      requires Valid()
      ensures groups == Groups(pathInfo, cookies)
    {
      var info := pathInfo;
      var remaining := info.Keys;
      ghost var done: set<string> := {};
      groups := map[];
      assert FailedIn(info, cookies, {}) == {};
      while remaining != {}
        invariant done + remaining == info.Keys && done !! remaining
        invariant groups == GroupsOver(info, cookies, done)
        decreases |remaining|
      {
        var id :| id in remaining;
        var (send, recv) := ParseBiId(id).value;
        var peer := Creator(info[id]);
        GroupsOverAdd(info, cookies, done, id);
        if send in cookies || recv in cookies {
          var routes := if peer in groups then groups[peer] else {};
          groups := groups[peer := routes + {id}];
        }
        MoveOne(done, remaining, info.Keys, id);
        done := done + {id};
        remaining := remaining - {id};
      }
      assert done == info.Keys;
    }

    /** The second loop of `push_request_optimize_failure`: one `push_request` per group. */
    method PushGroups(groups: map<Option<NodeId>, set<string>>)
      modifies this
      ensures |pushed| >= |old(pushed)| && pushed[..|old(pushed)|] == old(pushed)
      ensures Elems(pushed[|old(pushed)|..]) == Owed(groups, groups.Keys, nodeList.nodes)
      ensures pathInfo == old(pathInfo) && prevId == old(prevId) && cmds == old(cmds)
      ensures raised == old(raised) && routingCalls == old(routingCalls)
    {
      ghost var start := |pushed|;
      var peers := groups.Keys;
      assert Owed(groups, {}, nodeList.nodes) == {};
      assert groups.Keys - peers == {};
      while peers != {}
        invariant peers <= groups.Keys
        invariant |pushed| >= start && pushed[..start] == old(pushed)
        invariant Elems(pushed[start..]) == Owed(groups, groups.Keys - peers, nodeList.nodes)
        invariant pathInfo == old(pathInfo) && prevId == old(prevId) && cmds == old(cmds)
        invariant raised == old(raised) && routingCalls == old(routingCalls)
        decreases |peers|
      {
        var peer :| peer in peers;
        ghost var before := pushed;
        PushRequest(OptimizeFailure, groups[peer], peer);
        PushStep(before, pushed, start, groups, groups.Keys - peers, peer, nodeList.nodes);
        assert groups.Keys - (peers - {peer}) == (groups.Keys - peers) + {peer};
        peers := peers - {peer};
      }
      assert groups.Keys - peers == groups.Keys;
    }

    /**
     * `push_request_optimize_failure(cookies)`: for each node that created a
     * failed path (or for all nodes, when the creator is unknown), push
     * OPTIMIZE_FAILURE with that node's failed path identifiers.
     */
    method PushOptimizeFailure(cookies: seq<int>)
      requires Valid()
      modifies this
      ensures Valid()
      ensures |pushed| >= |old(pushed)| && pushed[..|old(pushed)|] == old(pushed)
      ensures var g := Groups(old(pathInfo), cookies);
              Elems(pushed[|old(pushed)|..]) == Owed(g, g.Keys, nodeList.nodes)
      ensures pathInfo == old(pathInfo) && prevId == old(prevId) && cmds == old(cmds)
      ensures raised == old(raised) && routingCalls == old(routingCalls)
    {
      var groups := GroupFailures(cookies);
      PushGroups(groups);
    }

    /** The request handlers, by request type: a response, none for a heartbeat, or the error a handler raises. */
    method Dispatch(req: Request, env: Env) returns (out: Result<Option<Response>>)
      requires Valid()
      modifies this, nodeList, routing`optimizeRequested
      ensures Valid()
      ensures cmds == old(cmds) && raised == old(raised)
      ensures req.HeartBeatReq? ==> out == Ok(None)
      ensures !req.HeartBeatReq? && out.Ok? ==> out.value.Some? && out.value.value.reqId == req.reqId && !out.value.value.CmdResp?
      ensures out.Err? <==> req.UpdatePathReq? && req.pathId in old(pathInfo) && !env.sendRouteFound
    {
      match req {
        case InitializeReq(_, _) =>
          var resp := Initialize(req, env);
          out := Ok(Some(resp));
        case CreateBiPathReq(_, _, _, _, _, _) =>
          var resp := CreateBiPath(req, env);
          out := Ok(Some(resp));
        case UpdatePathReq(_, _, _, _) =>
          var r := UpdatePath(req, env);
          out := if r.Ok? then Ok(Some(r.value)) else Err(r.error);
        case DeleteBiPathReq(_, _, _) =>
          var resp := DeleteBiPath(req);
          out := Ok(Some(resp));
        case HeartBeatReq(_, _) =>
          HeartBeat(req, env);
          out := Ok(None);
        case OptimizeReq(_, _) =>
          var resp := Optimize(req);
          out := Ok(Some(resp));
      }
    }

    /**
     * `raise_event` around the request handlers: every request but a
     * heartbeat is appended to `cmds`; a handler that raises is answered
     * with ERR_INTERNAL; a response, if any, is raised.
     */
    method Handle(req: Request, env: Env)
      requires Valid()
      modifies this, nodeList, routing`optimizeRequested
      ensures Valid()
      ensures cmds == old(cmds) + (if req.HeartBeatReq? then [] else [req])
      ensures req.HeartBeatReq? ==> raised == old(raised)
      ensures !req.HeartBeatReq? ==>
        |raised| == |old(raised)| + 1 && raised[..|old(raised)|] == old(raised) &&
        raised[|old(raised)|].reqId == req.reqId
      ensures !req.HeartBeatReq? ==>
        (raised[|old(raised)|].CmdResp? <==> req.UpdatePathReq? && req.pathId in old(pathInfo) && !env.sendRouteFound)
      ensures !req.HeartBeatReq? && raised[|old(raised)|].CmdResp? ==>
        raised[|old(raised)|] == CmdResp(req.reqId, req.listen, Some(ErrInternal))
    {
      if !req.HeartBeatReq? {
        cmds := cmds + [req];
      }
      var out := Dispatch(req, env);
      var resp := if out.Err? then Some(CmdResp(req.reqId, req.listen, Some(ErrInternal))) else out.value;
      if resp.Some? {
        raised := raised + [resp.value];
      }
    }
  }
}
