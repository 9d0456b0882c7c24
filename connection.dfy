/**
 * The middleware's TCP server framing (`scn/plugins/middleware/utils/connection.py`):
 * the bytes received from each switch port are buffered, cut at the
 * delimiter, and every complete item is handed to the callback together
 * with the client host found in the topology.
 */
module MwConnection {
  import opened Wrappers
  import opened Strings

  /** `MWTcpServer.DELIMITER`: backslash, 'r', backslash, 'n', twice; eight characters, no CR or LF. */
  const Delimiter: string := "\\r\\n\\r\\n"

  /** A client host known to the topology. */
  type HostId = int

  /**
   * The topology as `get_node` consults it: switches by dpid, their ports by
   * number, and on each port the hosts by IP address.
   */
  type Topology = map<int, map<int, map<int, HostId>>>

  /** One call of the callback: the client node and one item. */
  datatype Delivery = Delivery(node: HostId, payload: string)

  /** `get_node`: the host with the packet's source address on switch `dpid`, port `port`. */
  function GetNode(topo: Topology, dpid: int, port: int, srcIp: int): (r: Option<HostId>)
    ensures dpid !in topo ==> r.None?
    ensures dpid in topo && port !in topo[dpid] ==> r.None?
    ensures r.Some? <==> dpid in topo && port in topo[dpid] && srcIp in topo[dpid][port]
    ensures r.Some? ==> r.value == topo[dpid][port][srcIp]
  {
    if dpid !in topo then None
    else if port !in topo[dpid] then None
    else if srcIp !in topo[dpid][port] then None
    else Some(topo[dpid][port][srcIp])
  }

  /** `payload_received` for each of `items`: nothing without a callback or a known node. */
  function DeliverAll(hasCallback: bool, node: Option<HostId>, items: seq<string>): (r: seq<Delivery>)
    ensures !hasCallback || node.None? ==> r == []
    ensures hasCallback && node.Some? ==> |r| == |items| && forall i :: 0 <= i < |items| ==> r[i] == Delivery(node.value, items[i])
  {
    if !hasCallback || node.None? then []
    else seq(|items|, i requires 0 <= i < |items| => Delivery(node.value, items[i]))
  }

  /** Each item followed by the delimiter, all concatenated: the bytes the items were cut from. */
  function Framed(items: seq<string>): string
  {
    if items == [] then "" else Framed(items[..|items| - 1]) + items[|items| - 1] + Delimiter
  }

  /** The complete items of a buffer and what stays buffered. */
  function Cut(buf: string): (r: (seq<string>, string))
  {
    var items := SplitOn(buf, Delimiter);
    (items[..|items| - 1], items[|items| - 1])
  }

  /** Joining all but the last piece and appending the delimiter frames them. */
  lemma {:induction false} FramedJoin(items: seq<string>)
    requires |items| >= 1
    ensures Framed(items) == JoinWith(items, Delimiter) + Delimiter
    decreases |items|
  {
    if |items| > 1 {
      var init := items[..|items| - 1];
      FramedJoin(init);
      JoinSnoc(init, items[|items| - 1]);
      assert init + [items[|items| - 1]] == items;
    }
  }

  /** Joining with one more piece at the end. */
  lemma {:induction false} JoinSnoc(parts: seq<string>, last: string)
    requires |parts| >= 1
    ensures JoinWith(parts + [last], Delimiter) == JoinWith(parts, Delimiter) + Delimiter + last
    decreases |parts|
  {
    if |parts| > 1 {
      JoinSnoc(parts[1..], last);
      assert (parts + [last])[1..] == parts[1..] + [last];
    } else {
      assert (parts + [last])[1..] == [last];
    }
  }

  /**
   * Nothing is lost or invented: the framed items followed by the new
   * buffer are exactly the old buffer with the payload appended, and
   * neither an item nor the new buffer contains the delimiter.
   */
  lemma CutRoundTrip(buf: string)
    ensures Framed(Cut(buf).0) + Cut(buf).1 == buf
    ensures forall i :: 0 <= i < |Cut(buf).0| ==> !Contains(Cut(buf).0[i], Delimiter)
    ensures !Contains(Cut(buf).1, Delimiter)
  {
    var items := SplitOn(buf, Delimiter);
    JoinSplit(buf, Delimiter);
    PiecesFree(buf, Delimiter);
    if |items| > 1 {
      var init := items[..|items| - 1];
      FramedJoin(init);
      JoinSnoc(init, items[|items| - 1]);
      assert init + [items[|items| - 1]] == items;
    }
  }

  /** Without a delimiter nothing is complete, and the whole buffer stays. */
  lemma CutWithoutDelimiter(buf: string)
    requires !Contains(buf, Delimiter)
    ensures Cut(buf) == ([], buf)
  {
    SplitWithout(buf, Delimiter);
  }

  /** A buffer with a delimiter yields at least one complete item. */
  lemma CutWithDelimiter(buf: string)
    requires Contains(buf, Delimiter)
    ensures |Cut(buf).0| >= 1
  {
    JoinSplit(buf, Delimiter);
    PiecesFree(buf, Delimiter);
  }

  /** `MWTcpServer`: the per-`(dpid, port)` buffers and the callback's deliveries. */
  class MwTcpServer {
    var buffers: map<(int, int), string>
    /** Whether a callback was given. */
    const hasCallback: bool
    const lport: int
    ghost var delivered: seq<Delivery>

    constructor(hasCallback: bool, lport: int)
      requires 0 <= lport < 0x1_0000
      ensures buffers == map[] && delivered == [] && this.hasCallback == hasCallback && this.lport == lport
    {
      buffers := map[];
      this.hasCallback := hasCallback;
      this.lport := lport;
      delivered := [];
    }

    /** `self.buffers.get(key, '')`. */
    function Buffer(dpid: int, port: int): (r: string)
      reads this
      ensures (dpid, port) !in buffers ==> r == ""
    {
      if (dpid, port) in buffers then buffers[(dpid, port)] else ""
    }

    /** `matches`: the packet comes from a known host and is addressed to the listening port. */
    function Matches(topo: Topology, dpid: int, port: int, srcIp: int, dstPort: int): (r: bool)
      reads this
      ensures r <==> GetNode(topo, dpid, port, srcIp).Some? && dstPort == lport
    {
      GetNode(topo, dpid, port, srcIp).Some? && dstPort == lport
    }

    /** `MWServer.payload_received`: the callback gets the node and the payload, if both exist. */
    method Deliver(topo: Topology, dpid: int, port: int, srcIp: int, payload: string)
      modifies this
      ensures delivered == old(delivered) + DeliverAll(hasCallback, GetNode(topo, dpid, port, srcIp), [payload])
      ensures buffers == old(buffers)
    {
      if !hasCallback {
        return;
      }
      var node := GetNode(topo, dpid, port, srcIp);
      if node.None? {
        return;
      }
      delivered := delivered + [Delivery(node.value, payload)];
    }

    /**
     * `payloadReceived`: append the payload to the port's buffer, deliver
     * every complete item in order, and keep the remainder; other ports'
     * buffers are untouched.
     */
    method PayloadReceived(topo: Topology, dpid: int, port: int, srcIp: int, payload: string)
      modifies this
      ensures var (items, rest) := Cut(old(Buffer(dpid, port)) + payload);
        buffers == old(buffers)[(dpid, port) := rest] &&
        delivered == old(delivered) + DeliverAll(hasCallback, GetNode(topo, dpid, port, srcIp), items)
    {
      var key := (dpid, port);
      var buf := Buffer(dpid, port) + payload;
      var items := SplitOn(buf, Delimiter);
      if |items| == 1 {
        JoinSplit(buf, Delimiter);
        buffers := buffers[key := buf];
        return;
      }
      ghost var node := GetNode(topo, dpid, port, srcIp);
      ghost var start := delivered;
      var init := items[..|items| - 1];
      for i := 0 to |init|
        invariant buffers == old(buffers)
        invariant delivered == start + DeliverAll(hasCallback, node, init[..i])
      {
        Deliver(topo, dpid, port, srcIp, init[i]);
        assert init[..i + 1] == init[..i] + [init[i]];
      }
      assert init[..|init|] == init;
      buffers := buffers[key := items[|items| - 1]];
    }
  }

  /** The delimiter is the eight-character escaped text, not carriage returns and line feeds. */
  lemma DelimiterIsEscapedText()
    ensures |Delimiter| == 8
    ensures Delimiter[0] == '\\' && Delimiter[1] == 'r' && Delimiter[2] == '\\' && Delimiter[3] == 'n'
    ensures forall i :: 0 <= i < |Delimiter| ==> Delimiter[i] != '\r' && Delimiter[i] != '\n'
  {
  }
}
