/**
 * The DHCP agent (`protocols/dhcp.py`): recognising requests and replies,
 * reading the message type, building OFFER and ACK replies (section 2 of
 * RFC 2131 for the header, section 3.1 for which reply answers which
 * message), and laying options out as code, length, value (section 2 of
 * RFC 2132).
 */
module DhcpProtocol {
  import opened Wrappers
  import opened Packets

  /** `op` values and the magic cookie (RFC 2131, sections 2 and 3). */
  const BootRequest := 1
  const BootReply := 2
  const Magic := 0x6382_5363

  /** Option codes (RFC 2132, sections 3.3, 3.5, 5.3, 9.2, 9.6 and 9.7). */
  const SubnetMaskOpt := 1
  const GatewayOpt := 3
  const BcastAddrOpt := 28
  const RequestLeaseOpt := 51
  const MsgTypeOpt := 53
  const ServerIdOpt := 54

  /** Message types (RFC 2132, section 9.6). */
  const DiscoverMsg := 1
  const OfferMsg := 2
  const RequestMsg := 3
  const AckMsg := 5

  /** The pad and end options (RFC 2132, section 2). */
  const PadOpt := 0
  const EndOpt := 255

  type U32 = x: int | 0 <= x < 0x1_0000_0000

  /**
   * What `extractMsgType` returns: None when the option is missing, the
   * option's raw bytes when `struct.unpack('B', ...)` fails on them (the
   * error is swallowed after the raw value was assigned), and the byte
   * otherwise.
   */
  datatype MsgType = NoMsgType | RawMsgType(raw: seq<Byte>) | Unpacked(b: Byte)

  /** `extractMsgType`: the one-byte message-type option, the raw option when it is not one byte long, None when missing. */
  function ExtractMsgType(d: DhcpPacket): (r: MsgType)
    ensures r.NoMsgType? <==> MsgTypeOpt !in d.options
    ensures r.Unpacked? <==> MsgTypeOpt in d.options && |d.options[MsgTypeOpt]| == 1
    ensures r.Unpacked? ==> r.b == d.options[MsgTypeOpt][0]
    ensures r.RawMsgType? ==> r.raw == d.options[MsgTypeOpt] && |r.raw| != 1
  {
    if MsgTypeOpt !in d.options then NoMsgType
    else if |d.options[MsgTypeOpt]| == 1 then Unpacked(d.options[MsgTypeOpt][0])
    else RawMsgType(d.options[MsgTypeOpt])
  }

  /**
   * `extract(packet, typ)`: the DHCP packet when its `op` is `typ`; a
   * `typ` of 0 (no type) asks for a request.
   */
  function Extract(p: Option<DhcpPacket>, typ: int): (r: Option<DhcpPacket>)
    ensures r.Some? ==> r == p
    ensures typ != 0 ==> (r.Some? <==> p.Some? && p.value.op == typ)
    ensures typ == 0 ==> (r.Some? <==> p.Some? && p.value.op == BootRequest)
  {
    var t := if typ == 0 then BootRequest else typ;
    if p.None? then None
    else if p.value.op != t then None
    else p
  }

  /** `extractRequest`: the DHCP request a frame carries. */
  function ExtractRequest(e: Ethernet): (r: Option<DhcpPacket>)
    ensures r.Some? <==> FindDhcp(e).Some? && FindDhcp(e).value.op == BootRequest
  {
    Extract(FindDhcp(e), BootRequest)
  }

  /** `extractReply`: the DHCP reply a frame carries. */
  function ExtractReply(e: Ethernet): (r: Option<DhcpPacket>)
    ensures r.Some? <==> FindDhcp(e).Some? && FindDhcp(e).value.op == BootReply
  {
    Extract(FindDhcp(e), BootReply)
  }

  /** `struct.pack('!I', n)` and `IPAddr.toRaw()`: four bytes, most significant first. */
  function U32Bytes(n: U32): (r: seq<Byte>)
    ensures |r| == 4
  {
    TopByte(n);
    [n / 0x100_0000, (n / 0x1_0000) % 0x100, (n / 0x100) % 0x100, n % 0x100]
  }

  lemma TopByte(n: U32)
    ensures 0 <= n / 0x100_0000 < 0x100
  {
  }

  /** `struct.unpack('!I', b)`. */
  function FromU32Bytes(b: seq<Byte>): int
    requires |b| == 4
  {
    (b[0] as int) * 0x100_0000 + (b[1] as int) * 0x1_0000 + (b[2] as int) * 0x100 + (b[3] as int)
  }

  /** Packing four bytes and unpacking them again gives the number back. */
  lemma U32RoundTrip(n: U32)
    ensures FromU32Bytes(U32Bytes(n)) == n
  {
    var a, b, c, d := n / 0x100_0000, (n / 0x1_0000) % 0x100, (n / 0x100) % 0x100, n % 0x100;
    assert n / 0x1_0000 == a * 0x100 + b;
    assert n / 0x100 == (n / 0x1_0000) * 0x100 + c;
    assert n == (n / 0x100) * 0x100 + d;
  }

  /** The addresses and times a reply hands out: client, router and server addresses, lease, mask, broadcast, gateway. */
  datatype LeaseInfo = LeaseInfo(cip: U32, rip: U32, sip: U32, lease: U32, netmask: U32, bcast: U32, router: U32)

  /**
   * `buildStandardReply`: a BOOTREPLY for `req` offering `cip`, with the
   * message type and the lease options. The server-identifier option is
   * assigned twice, `rip` and then `sip`, so it holds `sip`.
   */
  function BuildStandardReply(req: DhcpPacket, msgType: Byte, l: LeaseInfo): DhcpPacket
  {
    var opts := map[MsgTypeOpt := [msgType]];
    var opts := opts[ServerIdOpt := U32Bytes(l.rip)];
    var opts := opts[ServerIdOpt := U32Bytes(l.sip)];
    var opts := opts[RequestLeaseOpt := U32Bytes(l.lease)];
    var opts := opts[SubnetMaskOpt := U32Bytes(l.netmask)];
    var opts := opts[BcastAddrOpt := U32Bytes(l.bcast)];
    var opts := opts[GatewayOpt := U32Bytes(l.router)];
    DhcpPacket(BootReply, req.htype, req.hlen, 0, req.xid, l.cip, 0, 0, l.sip, req.chaddr, Magic, opts)
  }

  /**
   * A standard reply reads back as a reply of the given message type to the
   * same transaction and client, handing out `cip`, with the server
   * identifier, lease, mask, broadcast and gateway options decoding to the
   * values given; `giaddr` holds the server address.
   */
  lemma StandardReplyReadsBack(req: DhcpPacket, msgType: Byte, l: LeaseInfo)
    ensures var r := BuildStandardReply(req, msgType, l);
      r.op == BootReply && r.hops == 0 && r.xid == req.xid && r.chaddr == req.chaddr &&
      r.htype == req.htype && r.hlen == req.hlen &&
      r.yiaddr == l.cip && r.ciaddr == 0 && r.siaddr == 0 && r.giaddr == l.sip && r.magic == Magic
    ensures ExtractMsgType(BuildStandardReply(req, msgType, l)) == Unpacked(msgType)
    ensures var o := BuildStandardReply(req, msgType, l).options;
      o.Keys == {MsgTypeOpt, ServerIdOpt, RequestLeaseOpt, SubnetMaskOpt, BcastAddrOpt, GatewayOpt} &&
      FromU32Bytes(o[ServerIdOpt]) == l.sip && FromU32Bytes(o[RequestLeaseOpt]) == l.lease &&
      FromU32Bytes(o[SubnetMaskOpt]) == l.netmask && FromU32Bytes(o[BcastAddrOpt]) == l.bcast &&
      FromU32Bytes(o[GatewayOpt]) == l.router
  {
    U32RoundTrip(l.sip);
    U32RoundTrip(l.lease);
    U32RoundTrip(l.netmask);
    U32RoundTrip(l.bcast);
    U32RoundTrip(l.router);
  }

  /** One option as laid out by `buildOptionsArray`: code, length, value. */
  function Entry(code: int, value: seq<Byte>): seq<int>
  {
    [code, |value|] + value
  }

  /** The options of `d` laid out in the order `order`. */
  function Encode(d: map<int, seq<Byte>>, order: seq<int>): seq<int>
    requires forall k :: k in order ==> k in d
  {
    if order == [] then [] else Entry(order[0], d[order[0]]) + Encode(d, order[1..])
  }

  /** One more option at the end of the layout. */
  lemma {:induction false} EncodeSnoc(d: map<int, seq<Byte>>, order: seq<int>, k: int)
    requires forall j :: j in order ==> j in d
    requires k in d
    ensures Encode(d, order + [k]) == Encode(d, order) + Entry(k, d[k])
  {
    if order != [] {
      assert (order + [k])[1..] == order[1..] + [k];
      EncodeSnoc(d, order[1..], k);
    } else {
      assert [k][1..] == [];
    }
  }

  /** Every option takes two bytes of header and its value. */
  function Size(d: map<int, seq<Byte>>, order: seq<int>): nat
    requires forall k :: k in order ==> k in d
  {
    if order == [] then 0
    else
      var k := order[0];
      assert k in order;
      2 + |d[k]| + Size(d, order[1..])
  }

  /** The layout is as long as the options' values plus two bytes each. */
  lemma {:induction false} EncodeLength(d: map<int, seq<Byte>>, order: seq<int>)
    requires forall k :: k in order ==> k in d
    ensures |Encode(d, order)| == Size(d, order)
  {
    if order != [] {
      EncodeLength(d, order[1..]);
    }
  }

  /**
   * Reading options as RFC 2132 lays them out: pad bytes are skipped, the
   * end option stops, any other option is code, length and that many bytes
   * of value; a truncated option is an error. A code seen twice keeps its
   * first value.
   */
  function ParseOptions(b: seq<int>): (r: Option<map<int, seq<int>>>)
    decreases |b|
  {
    if b == [] then Some(map[])
    else if b[0] == PadOpt then ParseOptions(b[1..])
    else if b[0] == EndOpt then Some(map[])
    else if |b| < 2 || b[1] < 0 || |b| < 2 + b[1] then None
    else
      var rest := ParseOptions(b[2 + b[1]..]);
      if rest.None? then None else Some(rest.value[b[0] := b[2..2 + b[1]]])
  }

  /** The options of `d` whose codes occur in `order`. */
  function Restrict(d: map<int, seq<Byte>>, order: seq<int>): map<int, seq<int>>
  {
    map k | k in d && k in order :: d[k]
  }

  /**
   * Laying options out and reading them back gives the options laid out,
   * whatever the order, as long as no code is pad or end and every value
   * fits a one-byte length.
   */
  lemma {:induction false} ParseEncode(d: map<int, seq<Byte>>, order: seq<int>)
    requires forall k :: k in order ==> k in d && k != PadOpt && k != EndOpt && |d[k]| < 256
    ensures ParseOptions(Encode(d, order)) == Some(Restrict(d, order))
  {
    if order != [] {
      var k := order[0];
      var e := Entry(k, d[k]);
      var b := e + Encode(d, order[1..]);
      ParseEncode(d, order[1..]);
      assert b[0] == k && b[1] == |d[k]|;
      assert b[2..2 + b[1]] == d[k];
      assert b[2 + b[1]..] == Encode(d, order[1..]);
      var rest := Restrict(d, order[1..]);
      assert rest[k := d[k]] == Restrict(d, order) by {
        forall j | j in Restrict(d, order)
          ensures j in rest[k := d[k]]
        {
          if j != k {
            assert j in order[1..] by {
              assert order == [k] + order[1..];
            }
          }
        }
      }
    }
  }

  predicate NoDup(s: seq<int>)
  {
    forall i, j :: 0 <= i < j < |s| ==> s[i] != s[j]
  }

  /** An option whose code and length each fit an unsigned byte. */
  predicate FitsBytes(code: int, value: seq<Byte>)
  {
    0 <= code < 256 && |value| < 256
  }

  /**
   * `buildOptionsArray`: every option of `d` as code, length, value, in the
   * dictionary's iteration order, which `order` records. A code or a length
   * that does not fit a byte makes `array('B', ...)` raise OverflowError.
   */
  method BuildOptionsArray(d: map<int, seq<Byte>>) returns (r: Result<seq<int>>, ghost order: seq<int>)
    ensures r.Err? <==> exists k :: k in d && !FitsBytes(k, d[k])
    ensures r.Err? ==> r.error == "OverflowError"
    ensures r.Ok? ==> NoDup(order) && (forall k :: k in order <==> k in d)
    ensures r.Ok? ==> r.value == Encode(d, order) && |r.value| == Size(d, order)
  {
    var arr := [];
    order := [];
    var keys := d.Keys;
    while keys != {}
      invariant keys <= d.Keys
      invariant forall k :: k in order <==> k in d && k !in keys
      invariant forall k :: k in order ==> FitsBytes(k, d[k])
      invariant NoDup(order)
      invariant arr == Encode(d, order)
      decreases |keys|
    {
      ghost var some := Pick(keys);
      var k :| k in keys;
      if !FitsBytes(k, d[k]) {
        return Err("OverflowError"), order;
      }
      EncodeSnoc(d, order, k);
      arr := arr + Entry(k, d[k]);
      order := order + [k];
      keys := keys - {k};
    }
    EncodeLength(d, order);
    r := Ok(arr);
  }

  /** A full layout, with neither pad nor end among the codes, reads back as the options given. */
  lemma OptionsArrayRoundTrip(d: map<int, seq<Byte>>, order: seq<int>)
    requires forall k :: k in d ==> k != PadOpt && k != EndOpt && |d[k]| < 256
    requires forall k :: k in order <==> k in d
    ensures ParseOptions(Encode(d, order)) == Some(d)
  {
    ParseEncode(d, order);
    var r := Restrict(d, order);
    forall k | k in d
      ensures k in r
    {
      assert k in order;
    }
    assert r.Keys == d.Keys;
    assert forall k :: k in d ==> r[k] == d[k];
    assert r == d;
  }

  /**
   * `buildResponse`: an OFFER for a DISCOVER, an ACK for a REQUEST, nothing
   * for any other message or none; the reply travels in UDP from the
   * request's destination port to its source port, in IPv4 from `serverIp`
   * to the address handed out, and in a frame from `serverMac` back to the
   * requester. A request frame without UDP or IPv4 makes the source raise
   * (`Err`).
   */
  function BuildResponse(req: Ethernet, packet: DhcpPacket, serverMac: Mac, serverIp: U32, l: LeaseInfo): (r: Result<Option<Ethernet>>)
    ensures ExtractMsgType(packet) != Unpacked(DiscoverMsg) && ExtractMsgType(packet) != Unpacked(RequestMsg) ==> r == Ok(None)
    ensures r.Err? <==> (ExtractMsgType(packet) == Unpacked(DiscoverMsg) || ExtractMsgType(packet) == Unpacked(RequestMsg)) &&
                        (FindUdp(req).None? || FindIpv4(req).None?)
  {
    var typ := ExtractMsgType(packet);
    if typ != Unpacked(DiscoverMsg) && typ != Unpacked(RequestMsg) then Ok(None)
    else
      var dhcpPkt := BuildStandardReply(packet, if typ == Unpacked(DiscoverMsg) then OfferMsg else AckMsg, l);
      var udp := FindUdp(req);
      var ip := FindIpv4(req);
      if udp.None? || ip.None? then Err("AttributeError")
      else
        var udpPkt := Udp(udp.value.dstport, udp.value.srcport, Dhcp(dhcpPkt));
        var ipPkt := Ipv4(serverIp, dhcpPkt.yiaddr, UdpProtocol, ip.value.iplen, udpPkt);
        Ok(Some(EthernetResponse(req, ipPkt, Some(serverMac))))
  }

  /**
   * The response answers the message (RFC 2131, section 3.1): a DISCOVER is
   * answered by an OFFER and a REQUEST by an ACK, each a reply of the same
   * transaction that a client reads back, sent from the server to the
   * requester, from the request's destination UDP port to its source port.
   */
  lemma ResponseAnswers(req: Ethernet, packet: DhcpPacket, serverMac: Mac, serverIp: U32, l: LeaseInfo)
    requires ExtractMsgType(packet) == Unpacked(DiscoverMsg) || ExtractMsgType(packet) == Unpacked(RequestMsg)
    requires FindUdp(req).Some? && FindIpv4(req).Some?
    ensures BuildResponse(req, packet, serverMac, serverIp, l).Ok?
    ensures BuildResponse(req, packet, serverMac, serverIp, l).value.Some?
    ensures var resp := BuildResponse(req, packet, serverMac, serverIp, l).value.value;
      var reply := ExtractReply(resp);
      reply.Some? && reply.value.xid == packet.xid && reply.value.chaddr == packet.chaddr &&
      reply.value.yiaddr == l.cip &&
      ExtractMsgType(reply.value) == Unpacked(if ExtractMsgType(packet) == Unpacked(DiscoverMsg) then OfferMsg else AckMsg) &&
      resp.src == serverMac && resp.dst == req.src &&
      resp.next.Ipv4? && resp.next.srcip == serverIp && resp.next.dstip == l.cip &&
      resp.next.ipNext.Udp? && resp.next.ipNext.srcport == FindUdp(req).value.dstport &&
      resp.next.ipNext.dstport == FindUdp(req).value.srcport
  {
    var t := if ExtractMsgType(packet) == Unpacked(DiscoverMsg) then OfferMsg else AckMsg;
    var dhcpPkt := BuildStandardReply(packet, t, l);
    StandardReplyReadsBack(packet, t, l);
    var udp := FindUdp(req).value;
    var udpPkt := Udp(udp.dstport, udp.srcport, Dhcp(dhcpPkt));
    var ipPkt := Ipv4(serverIp, dhcpPkt.yiaddr, UdpProtocol, FindIpv4(req).value.iplen, udpPkt);
    var resp := EthernetResponse(req, ipPkt, Some(serverMac));
    assert BuildResponse(req, packet, serverMac, serverIp, l) == Ok(Some(resp));
    assert FindDhcpIn(udpPkt) == Some(dhcpPkt);
    assert FindDhcp(resp) == Some(dhcpPkt);
  }
}
