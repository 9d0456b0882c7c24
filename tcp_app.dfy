/**
 * The TCP applications of `protocols/application/tcp.py`: a server keeping
 * one connection per socket pair, and a client that sends one payload in
 * chunks followed by a FIN.
 */
module TcpApp {
  import opened Wrappers
  import opened Tcp

  /** `max_active_conns` when none is given. */
  const DefaultMaxActiveConns := 1000

  /** The size of the data chunks a client sends. */
  const ChunkSize := 1000

  /** The smallest window a connection accepts: one MTU's worth. */
  const MinWindow := 1460

  /** A (MAC, IP address, port) endpoint. */
  type Endpoint = (int, int, int)

  /** A socket pair: (source end, destination end), or for a connection (this end, other end). */
  type SocketPair = (Endpoint, Endpoint)

  /** A received TCP packet with the addresses of its Ethernet and IP headers. */
  datatype Packet = Packet(srcMac: int, dstMac: int, srcIp: int, dstIp: int, tcp: Header)

  /** `socPairInt(extractConnection(packet))`: the key of the server's table. */
  function PairOf(p: Packet): SocketPair
  {
    ((p.srcMac, p.srcIp, p.tcp.srcPort), (p.dstMac, p.dstIp, p.tcp.dstPort))
  }

  /** `socPair[::-1]`. */
  function Reversed(sp: SocketPair): SocketPair
  {
    (sp.1, sp.0)
  }

  function Max(a: int, b: int): int
  {
    if a >= b then a else b
  }

  function Min(a: int, b: int): int
  {
    if a <= b then a else b
  }

  /** `TcpServer`: the table of connections of a listening port. */
  class TcpServer {
    const lport: int
    const maxActiveConns: int
    var connections: map<SocketPair, TcpConnection>
    /** The data handed to `payloadReceived`, in order. */
    ghost var delivered: seq<string>
    /** The keys whose deletion was scheduled with `callDelayed`. */
    ghost var pendingDeletes: seq<SocketPair>

    /** The table never holds more than `max_active_conns` connections. */
    predicate Valid()
      reads this
    {
      |connections| <= maxActiveConns
    }

    /** `TcpServer(lport, max_active_conns)`: the port is asserted to fit 16 bits. */
    constructor(lport: int, maxActiveConns: int)
      requires 0 <= lport < 0x1_0000 && maxActiveConns >= 0
      ensures Valid() && this.lport == lport && this.maxActiveConns == maxActiveConns
      ensures connections == map[] && delivered == [] && pendingDeletes == []
    {
      this.lport := lport;
      this.maxActiveConns := maxActiveConns;
      connections := map[];
      delivered := [];
      pendingDeletes := [];
    }

    /** `matches`: the packet is addressed to the listening port. */
    function Matches(p: Packet): (r: bool)
      reads this
      ensures r <==> p.tcp.dstPort == lport
    {
      p.tcp.dstPort == lport
    }

    /**
     * `createConnection`: no new connection when the table is full or the
     * packet is not a SYN; otherwise a server-side connection whose own end is
     * the packet's destination and whose ACK number follows the SYN.
     */
    method CreateConnection(p: Packet, randomSeq: int, randomPort: int, isn: int) returns (r: Option<TcpConnection>)
      requires 0 <= randomSeq < 0x1_0000_0000 && 40000 <= randomPort <= 60000 && 0 <= isn <= 0x8FFF_FFFF
      ensures r.None? <==> |connections| >= maxActiveConns || !HasFlag(p.tcp.flags, SynFlag)
      ensures r.Some? ==> fresh(r.value) && r.value.Valid() && r.value.segments == []
      ensures r.Some? ==> Reversed(r.value.SocketPair()) == PairOf(p) && r.value.nextSeqNeeded == p.tcp.seqNo + 1
    {
      if |connections| >= maxActiveConns {
        return None;
      }
      if !HasFlag(p.tcp.flags, SynFlag) {
        return None;
      }
      var conn := new TcpConnection(p.dstMac, p.dstIp, Some(p.tcp.dstPort), p.srcMac, p.srcIp, p.tcp.srcPort,
                                    Some(p.tcp.seqNo), randomSeq, randomPort, isn);
      r := Some(conn);
    }

    /**
     * `getConnection`: the connection stored under the packet's socket pair,
     * or a new one, stored only if it could be created.
     */
    method GetConnection(p: Packet, randomSeq: int, randomPort: int, isn: int) returns (r: Option<TcpConnection>)
      requires Valid()
      requires 0 <= randomSeq < 0x1_0000_0000 && 40000 <= randomPort <= 60000 && 0 <= isn <= 0x8FFF_FFFF
      modifies this`connections
      ensures Valid()
      ensures PairOf(p) in old(connections) ==> r == Some(old(connections)[PairOf(p)]) && connections == old(connections)
      ensures PairOf(p) !in old(connections) ==>
        (r.None? <==> |old(connections)| >= maxActiveConns || !HasFlag(p.tcp.flags, SynFlag))
      ensures PairOf(p) !in old(connections) && r.None? ==> connections == old(connections)
      ensures PairOf(p) !in old(connections) && r.Some? ==>
        fresh(r.value) && r.value.Valid() && connections == old(connections)[PairOf(p) := r.value] &&
        Reversed(r.value.SocketPair()) == PairOf(p)
    {
      var key := PairOf(p);
      if key in connections {
        return Some(connections[key]);
      }
      r := CreateConnection(p, randomSeq, randomPort, isn);
      if r.None? {
        return;
      }
      connections := connections[key := r.value];
    }

    /**
     * `processTcpPkt`: merge the packet's data, closing the connection when
     * that raises; note a FIN; take the window, never below 1460; and
     * process the ACK.
     */
    method ProcessTcpPkt(conn: TcpConnection, h: Header) returns (r: Option<TcpConnection>)
      requires conn.Valid()
      modifies conn
      ensures conn.Valid()
      ensures var failed := |h.data| > 0 && AddOutcome(old(conn.segments), Segment(h.seqNo, h.data), conn.maxData).Err?;
        (r.None? <==> failed) && (failed ==> conn.closed && conn.segments == old(conn.segments))
      ensures r.Some? ==> r.value == conn && conn.window == Some(Max(MinWindow, h.win))
      ensures r.Some? && |h.data| > 0 ==>
        conn.segments == AddOutcome(old(conn.segments), Segment(h.seqNo, h.data), conn.maxData).value
      ensures r.Some? && |h.data| == 0 ==> conn.segments == old(conn.segments)
      ensures r.Some? && HasFlag(h.flags, FinFlag) ==> conn.receivedFin && conn.nextSeqNeeded == h.seqNo + 1
      ensures r.Some? && HasFlag(h.flags, AckFlag) ==>
        conn.firstUnackedSeq == Max(old(conn.firstUnackedSeq), CapAck(h.ack, old(conn.lastSeqSent)))
      ensures r.Some? && !HasFlag(h.flags, AckFlag) ==>
        conn.firstUnackedSeq == old(conn.firstUnackedSeq) && conn.numDataBytesAcked == old(conn.numDataBytesAcked)
    {
      if |h.data| > 0 {
        var added := conn.AddSegment(Segment(h.seqNo, h.data));
        if added.Err? {
          conn.Close();
          return None;
        }
      }
      if HasFlag(h.flags, FinFlag) {
        conn.FinReceived(h.seqNo);
      }
      conn.window := Some(Max(MinWindow, h.win));
      if HasFlag(h.flags, AckFlag) {
        conn.SetAck(h.ack);
      }
      r := Some(conn);
    }

    /**
     * `processTcpData`: an open connection holding exactly one segment hands
     * its data over and forgets it; otherwise nothing happens.
     */
    method ProcessTcpData(conn: TcpConnection)
      modifies conn`segments, this`delivered
      ensures old(conn.Valid()) ==> conn.Valid()
      ensures old(!conn.closed && conn.HasReadyData()) ==>
        delivered == old(delivered) + [old(conn.GetData())] && conn.segments == []
      ensures !old(!conn.closed && conn.HasReadyData()) ==>
        delivered == old(delivered) && conn.segments == old(conn.segments)
    {
      if conn.closed {
        return;
      }
      if !conn.HasReadyData() {
        return;
      }
      delivered := delivered + [conn.GetData()];
      conn.segments := [];
    }

    /**
     * `connectionClosed`: the table entry is found under the connection's
     * reversed socket pair; its deletion is scheduled and it is closed. A
     * missing entry is tolerated.
     */
    method ConnectionClosed(conn: Option<TcpConnection>)
      modifies this`pendingDeletes, connections.Values
      ensures conn.None? || Reversed(conn.value.SocketPair()) !in connections ==>
        pendingDeletes == old(pendingDeletes) && forall c :: c in old(connections.Values) ==> unchanged(c)
      ensures conn.Some? && Reversed(conn.value.SocketPair()) in connections ==>
        var key := Reversed(conn.value.SocketPair());
        pendingDeletes == old(pendingDeletes) + [key] && connections[key].closed &&
        (old(connections[key].closed) ==> unchanged(connections[key])) &&
        forall c :: c in old(connections.Values) && c != connections[key] ==> unchanged(c)
    {
      if conn.None? {
        return;
      }
      var key := Reversed(conn.value.SocketPair());
      if key !in connections {
        return;
      }
      var c := connections[key];
      pendingDeletes := pendingDeletes + [key];
      if !c.closed {
        c.Close();
      }
    }

    /** `delConnection`: the key leaves the table; a missing key is tolerated. */
    method DelConnection(key: SocketPair)
      requires Valid()
      modifies this`connections
      ensures Valid()
      ensures connections == old(connections) - {key}
      ensures key in old(connections) ==> |connections| == |old(connections)| - 1
    {
      connections := connections - {key};
    }
  }

  // ---------------------------------------------------------------- client

  /** The chunks `sendPayload` cuts a payload into: 1000 bytes each, the last one shorter. */
  function Chunks(p: string): (r: seq<string>)
    decreases |p|
  {
    if |p| == 0 then [] else
      var n := Min(ChunkSize, |p|);
      [p[..n]] + Chunks(p[n..])
  }

  function Concat(parts: seq<string>): string
  {
    if parts == [] then "" else parts[0] + Concat(parts[1..])
  }

  /** The chunks put back together are the payload; none is empty or longer than 1000 bytes. */
  lemma {:induction false} ChunksConcat(p: string)
    ensures Concat(Chunks(p)) == p
    ensures forall j :: 0 <= j < |Chunks(p)| ==> 0 < |Chunks(p)[j]| <= ChunkSize
    decreases |p|
  {
    if |p| > 0 {
      var n := Min(ChunkSize, |p|);
      ChunksConcat(p[n..]);
      assert p[..n] + p[n..] == p;
    }
  }

  /**
   * The data packets of `sendPayload`: each chunk as a plain ACK whose
   * sequence number follows the last byte sent before it.
   */
  function Transmission(srcPort: int, dstPort: int, ack: int, last: int, p: string): (r: seq<Header>)
    decreases |p|
  {
    if |p| == 0 then [] else
      var n := Min(ChunkSize, |p|);
      [BuildTcpPkt(srcPort, dstPort, Some(last + 1), Some(ack), None, Some(p[..n]), false, false, false, false, Some(true))]
      + Transmission(srcPort, dstPort, ack, last + n, p[n..])
  }

  /**
   * The data packets carry the chunks in order, numbered contiguously from
   * the byte after `last` (section 3.3 of RFC 793): packet `j` starts 1000
   * times `j` bytes in, and the FIN's number follows the last data byte.
   */
  lemma {:induction false} TransmissionNumbers(srcPort: int, dstPort: int, ack: int, last: int, p: string)
    ensures var t := Transmission(srcPort, dstPort, ack, last, p);
      |t| == |Chunks(p)| &&
      (forall j :: 0 <= j < |t| ==> t[j].data == Chunks(p)[j] && t[j].seqNo == last + 1 + ChunkSize * j) &&
      (forall j :: 0 <= j < |t| ==> t[j].ack == ack && HasFlag(t[j].flags, AckFlag) && !HasFlag(t[j].flags, FinFlag)) &&
      (|t| > 0 ==> t[|t| - 1].seqNo + |t[|t| - 1].data| == last + |p| + 1)
    decreases |p|
  {
    if |p| > 0 {
      var n := Min(ChunkSize, |p|);
      TransmissionNumbers(srcPort, dstPort, ack, last + n, p[n..]);
      var t := Transmission(srcPort, dstPort, ack, last, p);
      var rest := Transmission(srcPort, dstPort, ack, last + n, p[n..]);
      assert forall j :: 1 <= j < |t| ==> t[j] == rest[j - 1];
      if |rest| > 0 {
        assert n == ChunkSize;
      }
    }
  }

  /** One chunk of `sendPayload` taken off the front of what is left to send. */
  lemma TransmissionStep(srcPort: int, dstPort: int, ack: int, start: int, p: string, i: int, end: int)
    requires 0 <= i < |p| && end == Min(i + ChunkSize, |p|)
    ensures Transmission(srcPort, dstPort, ack, start + i, p[i..]) ==
      [BuildTcpPkt(srcPort, dstPort, Some(start + i + 1), Some(ack), None, Some(p[i..end]), false, false, false, false, Some(true))]
      + Transmission(srcPort, dstPort, ack, start + end, p[end..])
  {
    assert p[i..][..end - i] == p[i..end] && p[i..][end - i..] == p[end..];
  }

  /** `TcpClient`: a connection this side opens, from `src` to `dst`. */
  class TcpClient {
    const conn: TcpConnection
    /** The packets handed to `sendPkt`, in order. */
    ghost var sent: seq<Header>
    /** The payloads reported to `payloadSent`. */
    ghost var payloadsSent: seq<string>

    /** `TcpClient(src, dst)`: a client-side connection; a missing source port is drawn at random. */
    constructor(src: (int, int, Option<int>), dst: Endpoint, randomSeq: int, randomPort: int, isn: int)
      requires 0 <= randomSeq < 0x1_0000_0000 && 40000 <= randomPort <= 60000 && 0 <= isn <= 0x8FFF_FFFF
      ensures conn.Valid() && sent == [] && payloadsSent == []
      ensures conn.SocketPair() == ((src.0, src.1, src.2.UnwrapOr(randomPort)), dst)
    {
      conn := new TcpConnection(src.0, src.1, src.2, dst.0, dst.1, dst.2, None, randomSeq, randomPort, isn);
      sent := [];
      payloadsSent := [];
    }

    /** `matches`: the packet comes from our peer's end and is addressed to ours. */
    function Matches(p: Packet): (r: bool)
      reads this, conn
      ensures r <==> Reversed(PairOf(p)) == conn.SocketPair()
    {
      var src := (conn.myMac, conn.myIp, conn.myPort);
      var dst := (conn.otherMac, conn.otherIp, conn.otherPort);
      src == PairOf(p).1 && dst == PairOf(p).0
    }

    /**
     * `sendPayload`: the payload in chunks of at most 1000 bytes, then a FIN
     * after the last byte; all data counts as sent and the FIN as sent.
     */
    method SendPayload(payload: string)
      requires conn.Valid()
      modifies conn`lastSeqSent, conn`allDataSent, conn`myFinSent, this`sent, this`payloadsSent
      ensures conn.Valid()
      ensures conn.lastSeqSent == old(conn.lastSeqSent) + |payload| + 1 && conn.allDataSent && conn.myFinSent
      ensures sent == old(sent) +
        Transmission(conn.myPort, conn.otherPort, conn.nextSeqNeeded, old(conn.lastSeqSent), payload) +
        [conn.BuildFin(old(conn.lastSeqSent) + |payload| + 1)]
      ensures payloadsSent == old(payloadsSent) + [payload]
    {
      ghost var start := conn.lastSeqSent;
      ghost var whole := Transmission(conn.myPort, conn.otherPort, conn.nextSeqNeeded, start, payload);
      var i := 0;
      while i < |payload|
        invariant 0 <= i <= |payload| && conn.lastSeqSent == start + i
        invariant conn.Valid() && payloadsSent == old(payloadsSent)
        invariant old(sent) + whole ==
          sent + Transmission(conn.myPort, conn.otherPort, conn.nextSeqNeeded, start + i, payload[i..])
      {
        var end := Min(i + ChunkSize, |payload|);
        TransmissionStep(conn.myPort, conn.otherPort, conn.nextSeqNeeded, start, payload, i, end);
        SendChunk(payload[i..end]);
        i := end;
      }
      SendFin();
      payloadsSent := payloadsSent + [payload];
    }

    /** One data packet of `sendPayload`: the chunk after the last byte sent. */
    method SendChunk(chunk: string)
      requires conn.Valid()
      modifies conn`lastSeqSent, this`sent
      ensures conn.Valid()
      ensures conn.lastSeqSent == old(conn.lastSeqSent) + |chunk|
      ensures sent == old(sent) + [BuildTcpPkt(conn.myPort, conn.otherPort, Some(old(conn.lastSeqSent) + 1),
        Some(conn.nextSeqNeeded), None, Some(chunk), false, false, false, false, Some(true))]
    {
      sent := sent + [conn.BuildDataTransmissionAck(chunk)];
      conn.lastSeqSent := conn.lastSeqSent + |chunk|;
    }

    /** The end of `sendPayload`: all data counts as sent, then the FIN follows the last byte. */
    method SendFin()
      requires conn.Valid()
      modifies conn`lastSeqSent, conn`allDataSent, conn`myFinSent, this`sent
      ensures conn.Valid()
      ensures conn.lastSeqSent == old(conn.lastSeqSent) + 1 && conn.allDataSent && conn.myFinSent
      ensures sent == old(sent) + [conn.BuildFin(old(conn.lastSeqSent) + 1)]
    {
      conn.allDataSent := true;
      sent := sent + [conn.BuildFin(conn.lastSeqSent + 1)];
      conn.myFinSent := true;
      conn.lastSeqSent := conn.lastSeqSent + 1;
    }
  }
}