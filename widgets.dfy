/**
 * The middleware's small value classes (`scn/plugins/middleware/utils/widgets.py`):
 * peers and client nodes with their (loose) equality, the LIFO trace list of
 * peers crossed between domains, and the node list that keeps one node per IP
 * address.
 */
module Widgets {
  import opened Wrappers

  /** A decoded JSON / keyword value, as the constructors receive it. */
  datatype Val = VNone | VInt(i: int) | VStr(s: string) | VDict(d: map<string, Val>) | VList(items: seq<Val>)

  /** Python truthiness of a value. */
  predicate Truthy(v: Val)
  {
    match v
    case VNone => false
    case VInt(i) => i != 0
    case VStr(s) => s != ""
    case VDict(d) => d != map[]
    case VList(items) => items != []
  }

  /** `info.get(k)`: None for a missing key. */
  function Get(d: map<string, Val>, k: string): (r: Val)
    ensures k in d ==> r == d[k]
    ensures k !in d ==> r == VNone
  {
    if k in d then d[k] else VNone
  }

  // ------------------------------------------------------------ peers

  /** `Transport.TCP`. */
  const Tcp: string := "TCP"

  /** `Peer`: address, port, protocol and domain of a communication end. */
  datatype Peer = Peer(ipaddr: Val, port: int, protocol: Val, domain: Val)

  predicate IsDigit(ch: char)
  {
    '0' <= ch <= '9'
  }

  /** The value of a string of decimal digits. */
  function Decimal(s: string): (n: nat)
    requires forall i :: 0 <= i < |s| ==> IsDigit(s[i])
  {
    if s == [] then 0
    else
      assert IsDigit(s[|s| - 1]);
      10 * Decimal(s[..|s| - 1]) + (s[|s| - 1] as int - '0' as int)
  }

  /** `int(v)`: an integer stays, a string must be digits with an optional sign, anything else raises. */
  function ToInt(v: Val): (r: Result<int>)
    ensures v.VInt? ==> r == Ok(v.i)
    ensures v.VNone? || v.VDict? || v.VList? ==> r == Err("TypeError")
    ensures r.Err? && v.VStr? ==> r.error == "ValueError"
  {
    match v
    case VInt(i) => Ok(i)
    case VStr(s) =>
      var neg := |s| > 0 && s[0] == '-';
      var digits := if |s| > 0 && (s[0] == '-' || s[0] == '+') then s[1..] else s;
      if digits != [] && forall i :: 0 <= i < |digits| ==> IsDigit(digits[i]) then
        var n: int := Decimal(digits);
        Ok(if neg then -n else n)
      else Err("ValueError")
    case _ => Err("TypeError")
  }

  /** `Peer(ipaddr, port, protocol, domain)`: the port goes through `int`, a falsy protocol becomes TCP. */
  function MakePeer(ipaddr: Val, port: Val, protocol: Val, domain: Val): (r: Result<Peer>)
    ensures r.Ok? <==> ToInt(port).Ok?
    ensures r.Ok? ==> r.value.ipaddr == ipaddr && r.value.port == ToInt(port).value && r.value.domain == domain
    ensures r.Ok? ==> r.value.protocol == (if Truthy(protocol) then protocol else VStr(Tcp))
    ensures r.Ok? ==> Truthy(r.value.protocol)
  {
    match ToInt(port)
    case Err(e) => Err(e)
    case Ok(n) => Ok(Peer(ipaddr, n, if Truthy(protocol) then protocol else VStr(Tcp), domain))
  }

  /** `Peer.from_dict(info)`: None unless `info` is a dictionary. */
  function FromDict(info: Val): (r: Result<Option<Peer>>)
    ensures !info.VDict? ==> r == Ok(None)
    ensures info.VDict? ==> r.Err? || r.value.Some?
    ensures info.VDict? && r.Ok? ==>
              Ok(r.value.value) == MakePeer(Get(info.d, "ipaddr"), Get(info.d, "port"), Get(info.d, "protocol"), Get(info.d, "domain"))
  {
    if !info.VDict? then Ok(None)
    else
      match MakePeer(Get(info.d, "ipaddr"), Get(info.d, "port"), Get(info.d, "protocol"), Get(info.d, "domain"))
      case Err(e) => Err(e)
      case Ok(p) => Ok(Some(p))
  }

  /** The attribute dictionary `to_json` serialises. */
  function ToDict(p: Peer): Val
  {
    VDict(map["ipaddr" := p.ipaddr, "port" := VInt(p.port), "protocol" := p.protocol, "domain" := p.domain])
  }

  /** A constructed peer turned into its dictionary and back is the same peer. */
  lemma FromDictRoundTrip(p: Peer)
    requires Truthy(p.protocol)
    ensures FromDict(ToDict(p)) == Ok(Some(p))
  {
    var d := ToDict(p).d;
    assert Get(d, "ipaddr") == p.ipaddr && Get(d, "port") == VInt(p.port);
    assert Get(d, "protocol") == p.protocol && Get(d, "domain") == p.domain;
  }

  /** An object compared with a peer: a peer, a client node (a peer subclass), or anything else. */
  datatype Obj = PeerObj(p: Peer) | NodeObj(n: ScnClientNode) | OtherObj

  /** The peer part of a peer-like object. */
  function PeerOf(o: Obj): Option<Peer>
  {
    match o
    case PeerObj(p) => Some(p)
    case NodeObj(n) => Some(n.peer)
    case OtherObj => None
  }

  /**
   * `Peer.__eq__`: False only for a non-peer or when all four fields differ;
   * a single equal field is enough for two peers to compare equal.
   */
  predicate PeerEq(a: Peer, other: Obj)
  {
    match PeerOf(other)
    case None => false
    case Some(b) => !(a.ipaddr != b.ipaddr && a.port != b.port && a.protocol != b.protocol && a.domain != b.domain)
  }

  /** Two peers compare equal exactly when they agree on at least one field. */
  lemma PeerEqIff(a: Peer, b: Peer)
    ensures PeerEq(a, PeerObj(b)) <==>
              a.ipaddr == b.ipaddr || a.port == b.port || a.protocol == b.protocol || a.domain == b.domain
    ensures PeerEq(a, PeerObj(b)) <==> PeerEq(b, PeerObj(a))
    ensures PeerEq(a, PeerObj(a)) && !PeerEq(a, OtherObj)
  {
  }

  /** The loose equality is not transitive: two different hosts both equal a peer sharing one field with each. */
  lemma PeerEqNotTransitive()
    ensures var a := Peer(VStr("10.0.0.1"), 80, VStr(Tcp), VNone);
            var b := Peer(VStr("10.0.0.2"), 80, VStr("UDP"), VStr("d"));
            var c := Peer(VStr("10.0.0.3"), 81, VStr("UDP"), VStr("e"));
            PeerEq(a, PeerObj(b)) && PeerEq(b, PeerObj(c)) && !PeerEq(a, PeerObj(c))
  {
  }

  /** `ScnClientNode`: a peer with a middleware id and the time of its last heartbeat. */
  datatype ScnClientNode = ScnClientNode(scnId: int, peer: Peer, heartbeat: int)

  /**
   * `ScnClientNode.__eq__`: equal ids and peer equality; the other object's
   * `scn_id` is read first, so anything but a client node raises AttributeError.
   */
  function NodeEq(a: ScnClientNode, other: Obj): (r: Result<bool>)
    ensures other.NodeObj? ==> r.Ok? && (r.value <==> a.scnId == other.n.scnId && PeerEq(a.peer, other))
    ensures !other.NodeObj? ==> r == Err("AttributeError")
  {
    match other
    case NodeObj(b) => Ok(a.scnId == b.scnId && PeerEq(a.peer, other))
    case _ => Err("AttributeError")
  }

  // ------------------------------------------------------------ trace list

  /** `TraceList`: the peers crossed so far, the most recent last. */
  class TraceList {
    var peers: seq<Peer>

    constructor()
      ensures peers == []
    {
      peers := [];
    }

    /** `append(peer)`: push on top. */
    method Append(p: Peer)
      modifies this
      ensures peers == Pushed(old(peers), p)
    {
      peers := peers + [p];
    }

    /** `pop()`: the most recent peer, removed; None (and no change) when empty. */
    method Pop() returns (r: Option<Peer>)
      modifies this
      ensures (r, peers) == Popped(old(peers))
    {
      if |peers| > 0 {
        r := Some(peers[|peers| - 1]);
        peers := peers[..|peers| - 1];
      } else {
        r := None;
      }
    }
  }

  /** The list after a push. */
  function Pushed(s: seq<Peer>, p: Peer): (r: seq<Peer>)
    ensures |r| == |s| + 1
  {
    s + [p]
  }

  /** The popped peer and the list after a pop. */
  function Popped(s: seq<Peer>): (r: (Option<Peer>, seq<Peer>))
    ensures s == [] ==> r == (None, [])
    ensures s != [] ==> r.0.Some? && |r.1| == |s| - 1
  {
    if s == [] then (None, []) else (Some(s[|s| - 1]), s[..|s| - 1])
  }

  /** Last in, first out: a pop undoes the push before it and returns its peer. */
  lemma PopUndoesPush(s: seq<Peer>, p: Peer)
    ensures Popped(Pushed(s, p)) == (Some(p), s)
  {
    assert (s + [p])[..|s|] == s;
  }

  /** Pushing `ps` and popping as many times returns them in reverse order and restores the list. */
  lemma {:induction false} PopsReverse(s: seq<Peer>, ps: seq<Peer>)
    ensures PopN(PushAll(s, ps), |ps|) == (Some(Reverse(ps)), s)
    decreases |ps|
  {
    if ps != [] {
      var init := ps[..|ps| - 1];
      var last := ps[|ps| - 1];
      assert ps == init + [last];
      PushAllSnoc(s, init, last);
      PopUndoesPush(PushAll(s, init), last);
      PopsReverse(s, init);
      assert Reverse(ps) == [last] + Reverse(init);
    }
  }

  /** The list after pushing every peer of `ps` in order. */
  function PushAll(s: seq<Peer>, ps: seq<Peer>): seq<Peer>
    decreases |ps|
  {
    if ps == [] then s else PushAll(Pushed(s, ps[0]), ps[1..])
  }

  lemma {:induction false} PushAllSnoc(s: seq<Peer>, ps: seq<Peer>, p: Peer)
    ensures PushAll(s, ps + [p]) == Pushed(PushAll(s, ps), p)
    decreases |ps|
  {
    if ps == [] {
      assert [p][1..] == [];
    } else {
      assert (ps + [p])[0] == ps[0] && (ps + [p])[1..] == ps[1..] + [p];
      PushAllSnoc(Pushed(s, ps[0]), ps[1..], p);
    }
  }

  /** The peers returned by `k` pops, in popping order, and the list left. */
  function PopN(s: seq<Peer>, k: nat): (Option<seq<Peer>>, seq<Peer>)
    decreases k
  {
    if k == 0 then (Some([]), s)
    else
      var (top, rest) := Popped(s);
      if top.None? then (None, rest)
      else
        var (more, left) := PopN(rest, k - 1);
        (if more.Some? then Some([top.value] + more.value) else None, left)
  }

  function Reverse(ps: seq<Peer>): seq<Peer>
  {
    if ps == [] then [] else [ps[|ps| - 1]] + Reverse(ps[..|ps| - 1])
  }

  /**
   * `TraceList.get_tracelist(peers)`: a non-list is wrapped into a list; a
   * string is decoded as JSON (`decode`) and must yield a peer, a dictionary
   * gives its peer, and every other item is skipped. A decoded string that is
   * not a dictionary makes `append` fail its assertion.
   */
  function TraceOf(items: seq<Val>, decode: string -> Val): (r: Result<seq<Peer>>)
    decreases |items|
  {
    if items == [] then Ok([])
    else
      var init := TraceOf(items[..|items| - 1], decode);
      var item := items[|items| - 1];
      if init.Err? then init
      else if item.VStr? || item.VDict? then
        var info := if item.VStr? then decode(item.s) else item;
        match FromDict(info)
        case Err(e) => Err(e)
        case Ok(None) => Err("AssertionError")
        case Ok(Some(p)) => Ok(init.value + [p])
      else init
  }

  /** The argument as a list. */
  function AsItems(v: Val): seq<Val>
  {
    if v.VList? then v.items else [v]
  }

  /** The loop of `get_tracelist`, appending to a fresh trace list. */
  method GetTraceList(arg: Val, decode: string -> Val) returns (t: TraceList, r: Result<()>)
    ensures fresh(t)
    ensures r.Ok? <==> TraceOf(AsItems(arg), decode).Ok?
    ensures r.Ok? ==> t.peers == TraceOf(AsItems(arg), decode).value
  {
    var items := AsItems(arg);
    t := new TraceList();
    var i := 0;
    while i < |items|
      invariant 0 <= i <= |items|
      invariant TraceOf(items[..i], decode) == Ok(t.peers)
    {
      var item := items[i];
      assert items[..i + 1][..i] == items[..i];
      if item.VStr? || item.VDict? {
        var info := if item.VStr? then decode(item.s) else item;
        var peer := FromDict(info);
        if peer.Err? {
          TraceOfErrSticks(items, i + 1, decode);
          return t, Err(peer.error);
        }
        if peer.value.None? {
          TraceOfErrSticks(items, i + 1, decode);
          return t, Err("AssertionError");
        }
        t.Append(peer.value.value);
      }
      i := i + 1;
    }
    assert items[..i] == items;
    return t, Ok(());
  }

  /** Once an item fails, the whole trace fails. */
  lemma {:induction false} TraceOfErrSticks(items: seq<Val>, k: nat, decode: string -> Val)
    requires k <= |items| && TraceOf(items[..k], decode).Err?
    ensures TraceOf(items, decode).Err?
    decreases |items| - k
  {
    if k < |items| {
      assert items[..k + 1][..k] == items[..k];
      TraceOfErrSticks(items, k + 1, decode);
    } else {
      assert items[..k] == items;
    }
  }

  /** Only strings and dictionaries contribute, one peer each, in order; other items are skipped. */
  lemma {:induction false} TraceOfCounts(items: seq<Val>, decode: string -> Val)
    requires TraceOf(items, decode).Ok?
    ensures |TraceOf(items, decode).value| == CountPeerItems(items)
    decreases |items|
  {
    if items != [] {
      TraceOfCounts(items[..|items| - 1], decode);
    }
  }

  /** How many items are strings or dictionaries. */
  function CountPeerItems(items: seq<Val>): nat
  {
    if items == [] then 0
    else CountPeerItems(items[..|items| - 1]) + (if items[|items| - 1].VStr? || items[|items| - 1].VDict? then 1 else 0)
  }

  // ------------------------------------------------------------ node list

  /** The attribute `get_by`/`index_by` compare. */
  datatype NodeKey = ScnIdKey | IpKey

  /** `getattr(node, key)`. */
  function Attr(n: ScnClientNode, key: NodeKey): Val
  {
    match key
    case ScnIdKey => VInt(n.scnId)
    case IpKey => n.peer.ipaddr
  }

  /** `index_by(key, value)`: the position of the first node whose attribute equals `value`, or -1. */
  function IndexBy(nodes: seq<ScnClientNode>, key: NodeKey, value: Val): (r: int)
    ensures -1 <= r < |nodes|
    ensures r == -1 <==> forall i :: 0 <= i < |nodes| ==> Attr(nodes[i], key) != value
    ensures r >= 0 ==> Attr(nodes[r], key) == value && forall i :: 0 <= i < r ==> Attr(nodes[i], key) != value
  {
    if nodes == [] then -1
    else if Attr(nodes[0], key) == value then 0
    else
      var r := IndexBy(nodes[1..], key, value);
      assert forall i :: 1 <= i < |nodes| ==> nodes[i] == nodes[1..][i - 1];
      if r == -1 then -1 else r + 1
  }

  /** `get_by(key, value)`: the first node whose attribute equals `value`, or None. */
  function GetBy(nodes: seq<ScnClientNode>, key: NodeKey, value: Val): (r: Option<ScnClientNode>)
    ensures r.None? <==> IndexBy(nodes, key, value) == -1
    ensures r.Some? ==> r.value == nodes[IndexBy(nodes, key, value)] && r.value in nodes && Attr(r.value, key) == value
  {
    var i := IndexBy(nodes, key, value);
    if i < 0 then None else Some(nodes[i])
  }

  /** No IP address is held by two nodes. */
  predicate UniqueIps(nodes: seq<ScnClientNode>)
  {
    forall i, j :: 0 <= i < j < |nodes| ==> nodes[i].peer.ipaddr != nodes[j].peer.ipaddr
  }

  /** The list after `append(node)`: the first node with the same IP is dropped, the new one goes last. */
  function Appended(nodes: seq<ScnClientNode>, node: ScnClientNode): (r: seq<ScnClientNode>)
    ensures |r| > 0 && r[|r| - 1] == node
  {
    var idx := IndexBy(nodes, IpKey, node.peer.ipaddr);
    if idx < 0 then nodes + [node] else nodes[..idx] + nodes[idx + 1..] + [node]
  }

  /**
   * Appending keeps one node per IP address: the new node is last, every
   * other address keeps its node, and the node it replaced is gone.
   */
  lemma AppendedUnique(nodes: seq<ScnClientNode>, node: ScnClientNode)
    requires UniqueIps(nodes)
    ensures UniqueIps(Appended(nodes, node))
    ensures forall n :: n in nodes && n.peer.ipaddr != node.peer.ipaddr ==> n in Appended(nodes, node)
    ensures forall n :: n in Appended(nodes, node) ==> n == node || (n in nodes && n.peer.ipaddr != node.peer.ipaddr)
    ensures |Appended(nodes, node)| == if IndexBy(nodes, IpKey, node.peer.ipaddr) < 0 then |nodes| + 1 else |nodes|
  {
    var idx := IndexBy(nodes, IpKey, node.peer.ipaddr);
    if idx < 0 {
      assert Appended(nodes, node) == nodes + [node];
    } else {
      AppendedReplacing(nodes, node, idx);
    }
  }

  /** The replacing case of `append`: the old node at `idx` makes way for the new one at the end. */
  lemma AppendedReplacing(nodes: seq<ScnClientNode>, node: ScnClientNode, idx: int)
    requires UniqueIps(nodes) && idx == IndexBy(nodes, IpKey, node.peer.ipaddr) && idx >= 0
    ensures UniqueIps(Appended(nodes, node))
    ensures forall n :: n in nodes && n.peer.ipaddr != node.peer.ipaddr ==> n in Appended(nodes, node)
    ensures forall n :: n in Appended(nodes, node) ==> n == node || (n in nodes && n.peer.ipaddr != node.peer.ipaddr)
    ensures |Appended(nodes, node)| == |nodes|
  {
    var rest := nodes[..idx] + nodes[idx + 1..];
    assert Appended(nodes, node) == rest + [node];
    assert Attr(nodes[idx], IpKey) == node.peer.ipaddr;
    RemoveAtFacts(nodes, idx);
    SnocUnique(rest, node);
    forall n | n in nodes && n.peer.ipaddr != node.peer.ipaddr
      ensures n in rest
    {
      var k :| 0 <= k < |nodes| && nodes[k] == n;
      if k < idx {
        assert rest[k] == n;
      } else {
        assert rest[k - 1] == n;
      }
    }
    forall n | n in rest
      ensures n in nodes && n.peer.ipaddr != node.peer.ipaddr
    {
      var k :| 0 <= k < |rest| && rest[k] == n;
    }
  }

  /** A node whose address is new can be added at the end. */
  lemma SnocUnique(rest: seq<ScnClientNode>, node: ScnClientNode)
    requires UniqueIps(rest)
    requires forall k :: 0 <= k < |rest| ==> rest[k].peer.ipaddr != node.peer.ipaddr
    ensures UniqueIps(rest + [node])
  {
    var r := rest + [node];
    forall i, j | 0 <= i < j < |r|
      ensures r[i].peer.ipaddr != r[j].peer.ipaddr
    {
      assert r[i] == rest[i];
    }
  }

  /** The list without its element at `idx`, the first one with that element's address in a list of distinct addresses. */
  lemma RemoveAtFacts(nodes: seq<ScnClientNode>, idx: int)
    requires UniqueIps(nodes) && 0 <= idx < |nodes|
    ensures var rest := nodes[..idx] + nodes[idx + 1..];
      |rest| == |nodes| - 1 &&
      (forall k :: 0 <= k < |rest| ==> rest[k] == (if k < idx then nodes[k] else nodes[k + 1])) &&
      (forall k :: 0 <= k < |rest| ==> rest[k].peer.ipaddr != nodes[idx].peer.ipaddr) &&
      UniqueIps(rest)
  {
    var rest := nodes[..idx] + nodes[idx + 1..];
    assert forall k :: 0 <= k < |rest| ==> rest[k] == (if k < idx then nodes[k] else nodes[k + 1]);
    forall i, j | 0 <= i < j < |rest|
      ensures rest[i].peer.ipaddr != rest[j].peer.ipaddr
    {
      var i2 := if i < idx then i else i + 1;
      var j2 := if j < idx then j else j + 1;
      assert rest[i] == nodes[i2] && rest[j] == nodes[j2] && i2 < j2;
    }
  }

  /** `NodeList`: the middleware clients known to the controller. */
  class NodeList {
    var nodes: seq<ScnClientNode>

    constructor()
      ensures nodes == []
    {
      nodes := [];
    }

    /** `append(node)`: replace the node with the same IP address, or add a new one. */
    method Append(node: ScnClientNode)
      modifies this
      ensures nodes == Appended(old(nodes), node)
    {
      var idx := IndexBy(nodes, IpKey, node.peer.ipaddr);
      if idx < 0 {
        nodes := nodes + [node];
      } else {
        nodes := nodes[..idx] + nodes[idx + 1..];
        nodes := nodes + [node];
      }
    }
  }
}
