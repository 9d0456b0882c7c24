/**
 * The ARP applications (`protocols/application/arp.py`): a server that
 * answers requests for the addresses it knows, a client that asks for one
 * address and counts its attempts, and the ARP tunnel, which extends the
 * Ethernet tunnel to the hardware addresses inside ARP packets.
 */
module ArpApp {
  import opened Wrappers
  import opened Packets
  import opened ArpProtocol
  import Application
  import EthernetApp

  /**
   * `ArpServer.getReply`: the reply frame to an ARP request for an address
   * whose hardware address `getMacFromIp` knows; nothing for anything else.
   */
  function ServerReply(packet: Ethernet, getMacFromIp: Ip -> Option<Mac>): (r: Option<Ethernet>)
    ensures r.Some? <==> ExtractRequest(packet).Some? && getMacFromIp(ExtractRequest(packet).value.protodst).Some?
    ensures r.Some? ==>
      var req := ExtractRequest(packet).value;
      var mac := getMacFromIp(req.protodst).value;
      r.value.src == mac && r.value.dst == packet.src && r.value.typ == packet.typ &&
      ExtractResponse(r.value) == Some(ReplyTo(req, mac))
  {
    var arpPkt := ExtractRequest(packet);
    if arpPkt.None? then None
    else
      var ip := ExtractRequestedIp(Bare(arpPkt.value)).value;
      var mac := getMacFromIp(ip);
      if mac.None? then None
      else BuildResponse(packet, Bare(arpPkt.value), mac.value)
  }

  /**
   * `ArpClient.matches`, with `req` the request the client sent: a frame to
   * the requester carrying an ARP reply addressed to the requester's hardware
   * address and sent by the address asked for.
   */
  predicate ClientMatches(req: Ethernet, packet: Ethernet)
    requires req.next.Arp?
  {
    packet.dst == req.src &&
    ExtractResponse(packet).Some? &&
    req.next.arp.hwsrc == ExtractResponse(packet).value.hwdst &&
    req.next.arp.protodst == ExtractResponse(packet).value.protosrc
  }

  /**
   * The client accepts exactly replies to its own question: addressed to its
   * hardware address and answering for the address it asked about.
   */
  lemma ClientMatchesAnswers(srcMac: Mac, srcIp: Ip, dstIp: Ip, packet: Ethernet)
    ensures ClientMatches(BuildArpRequest(srcMac, srcIp, dstIp), packet) <==>
      packet.dst == srcMac && ExtractResponse(packet).Some? &&
      ExtractResponse(packet).value.hwdst == srcMac && ExtractResponse(packet).value.protosrc == dstIp
  {
  }

  /**
   * A server that knows the hardware address of the address asked for
   * answers a client's request, and the client accepts the answer, which
   * carries that hardware address.
   */
  lemma ClientAcceptsServerReply(srcMac: Mac, srcIp: Ip, dstIp: Ip, getMacFromIp: Ip -> Option<Mac>)
    requires getMacFromIp(dstIp).Some?
    ensures ServerReply(BuildArpRequest(srcMac, srcIp, dstIp), getMacFromIp).Some?
    ensures var resp := ServerReply(BuildArpRequest(srcMac, srcIp, dstIp), getMacFromIp).value;
      ClientMatches(BuildArpRequest(srcMac, srcIp, dstIp), resp) &&
      resp.next.Arp? && resp.next.arp.hwsrc == getMacFromIp(dstIp).value
  {
    var req := BuildArpRequest(srcMac, srcIp, dstIp);
    assert ExtractRequest(req) == Some(req.next.arp);
  }

  /** `ArpClient`: the question it asks, its request once started, and its attempts. */
  class ArpClient {
    const srcMac: Mac
    const srcIp: Ip
    const dstIp: Ip
    const app: Application.App<Ethernet>
    var count: nat
    var pkt: Option<Ethernet>
    /** The hardware addresses passed to `macReceived`, in order. */
    ghost var macs: seq<Mac>

    /** The request, once there is one, is the request for `dstIp`. */
    ghost predicate Valid()
      reads this
    {
      pkt.None? || pkt.value == BuildArpRequest(srcMac, srcIp, dstIp)
    }

    constructor(srcMac: Mac, srcIp: Ip, dstIp: Ip, app: Application.App<Ethernet>)
      ensures this.srcMac == srcMac && this.srcIp == srcIp && this.dstIp == dstIp && this.app == app
      ensures count == 0 && pkt.None? && macs == [] && Valid()
    {
      this.srcMac := srcMac;
      this.srcIp := srcIp;
      this.dstIp := dstIp;
      this.app := app;
      count := 0;
      pkt := None;
      macs := [];
    }

    /**
     * `sendArpPkt`: one more attempt, and the request goes out through the
     * application's filters. Before `start` there is no request and nothing
     * goes out.
     */
    method SendArpPkt(processOut: (Application.Filter, Option<Ethernet>) -> Option<Ethernet>)
      modifies this`count, app`sent
      ensures count == old(count) + 1
      ensures pkt.None? || !app.hasSendCb ==> app.sent == old(app.sent)
      ensures pkt.Some? && app.hasSendCb ==>
        var out := Application.FoldOut(app.prot.filters, pkt, processOut);
        app.sent == old(app.sent) + (if out.Some? then [out.value] else [])
    {
      count := count + 1;
      if pkt.Some? {
        app.SendPkt(pkt.value, false, processOut);
      }
    }

    /** `start`: build the request for `dstIp` and make the first attempt. */
    method Start(processOut: (Application.Filter, Option<Ethernet>) -> Option<Ethernet>)
      modifies this`count, this`pkt, app`sent
      ensures pkt == Some(BuildArpRequest(srcMac, srcIp, dstIp)) && Valid()
      ensures count == old(count) + 1
      ensures !app.hasSendCb ==> app.sent == old(app.sent)
      ensures app.hasSendCb ==>
        var out := Application.FoldOut(app.prot.filters, pkt, processOut);
        app.sent == old(app.sent) + (if out.Some? then [out.value] else [])
    {
      pkt := Some(BuildArpRequest(srcMac, srcIp, dstIp));
      SendArpPkt(processOut);
    }

    /**
     * `matches`: whether the frame answers the request sent. Before `start`
     * there is no request, and reading its source address raises
     * AttributeError.
     */
    function Matches(packet: Ethernet): (r: Result<bool>)
      reads this
      requires Valid()
      ensures r.Err? <==> pkt.None?
      ensures r.Err? ==> r.error == "AttributeError"
      ensures r.Ok? ==>
        (r.value <==> packet.dst == srcMac && ExtractResponse(packet).Some? &&
                      ExtractResponse(packet).value.hwdst == srcMac && ExtractResponse(packet).value.protosrc == dstIp)
    {
      if pkt.None? then Err("AttributeError")
      else
        ClientMatchesAnswers(srcMac, srcIp, dstIp, packet);
        Ok(ClientMatches(pkt.value, packet))
    }

    /** `getReply`: the sender's hardware address is received and the client is finished; there is no reply. */
    method GetReply(packet: Ethernet) returns (r: Option<Ethernet>)
      requires packet.next.Arp?
      modifies this`macs, app`finishedCalls
      ensures r.None?
      ensures macs == old(macs) + [packet.next.arp.hwsrc]
      ensures app.finishedCalls == old(app.finishedCalls) + (if app.hasFinishedCb then 1 else 0)
    {
      macs := macs + [packet.next.arp.hwsrc];
      app.Finished();
      return None;
    }
  }

  /** `x or y` on hardware addresses: the all-zero address counts as false. */
  function OrMac(x: Mac, y: Mac): (r: Mac)
    ensures x != EtherAny ==> r == x
    ensures x == EtherAny ==> r == y
  {
    if x != EtherAny then x else y
  }

  /** `Swap(m, from, to)`: `to` in place of `from`, any other address kept. */
  function Swap(m: Mac, from: Mac, to: Mac): (r: Mac)
    ensures m == from ==> r == to
    ensures m != from ==> r == m
  {
    if m == from then to else m
  }

  /** `ArpTunnel`: the Ethernet tunnel plus the rewriting of ARP hardware addresses. */
  class ArpTunnel {
    const localMac: Mac
    const tunnelMac: Mac
    const ethTunnel: EthernetApp.EthTunnel

    constructor(localMac: Mac, tunnelMac: Mac)
      ensures this.localMac == localMac && this.tunnelMac == tunnelMac
      ensures ethTunnel.localMac == localMac && ethTunnel.tunnelMac == tunnelMac
    {
      this.localMac := localMac;
      this.tunnelMac := tunnelMac;
      ethTunnel := new EthernetApp.EthTunnel(localMac, tunnelMac);
    }

    /** The tunnel is built around an Ethernet tunnel with the same addresses. */
    predicate Valid()
    {
      ethTunnel.localMac == localMac && ethTunnel.tunnelMac == tunnelMac
    }

    /** `matchesIn`: the Ethernet tunnel takes the frame and it carries ARP. */
    predicate MatchesIn(e: Ethernet)
    {
      ethTunnel.MatchesIn(e) && FindArp(e).Some?
    }

    /**
     * `matchesOut` as written: the membership test is in the one-element list
     * `[hwsrc or hwdst]`, so the target address is looked at only when the
     * sender address is all-zero.
     */
    predicate MatchesOutAsWritten(e: Ethernet)
    {
      ethTunnel.MatchesOut(e) && FindArp(e).Some? &&
      localMac == OrMac(FindArp(e).value.hwsrc, FindArp(e).value.hwdst)
    }

    /** `matchesOut` as evidently intended: the local address is the ARP sender or the ARP target. */
    predicate MatchesOut(e: Ethernet)
    {
      ethTunnel.MatchesOut(e) && FindArp(e).Some? &&
      (localMac == FindArp(e).value.hwsrc || localMac == FindArp(e).value.hwdst)
    }

    /** The ARP addresses after incoming processing: the tunnel's address becomes the local one. */
    function RewriteIn(a: ArpPacket): ArpPacket
    {
      a.(hwsrc := Swap(a.hwsrc, tunnelMac, localMac), hwdst := Swap(a.hwdst, tunnelMac, localMac))
    }

    /** The ARP addresses after outgoing processing: the local address becomes the tunnel's. */
    function RewriteOut(a: ArpPacket): ArpPacket
    {
      a.(hwsrc := Swap(a.hwsrc, localMac, tunnelMac), hwdst := Swap(a.hwdst, localMac, tunnelMac))
    }

    /** The frame after `doProcessInPacket`. */
    function DoneIn(e: Ethernet): Ethernet
      requires Valid()
    {
      if MatchesIn(e) then e.(dst := localMac, next := Arp(RewriteIn(FindArp(e).value))) else e
    }

    /** The frame after `doProcessOutPacket`, with `matchesOut` as intended. */
    function DoneOut(e: Ethernet): Ethernet
      requires Valid()
    {
      if MatchesOut(e) then e.(src := tunnelMac, next := Arp(RewriteOut(FindArp(e).value))) else e
    }

    /** The frame after `doProcessOutPacket` as written. */
    function DoneOutAsWritten(e: Ethernet): Ethernet
      requires Valid()
    {
      if MatchesOutAsWritten(e) then e.(src := tunnelMac, next := Arp(RewriteOut(FindArp(e).value))) else e
    }

    /**
     * `processInPacket`: the Ethernet tunnel readdresses the frame, then the
     * tunnel's address in the ARP packet becomes the local one and the ARP
     * packet becomes the frame's payload. A parsed frame must carry ARP.
     */
    method ProcessInPacket(p: PacketRef) returns (r: Option<PacketRef>)
      requires Valid()
      requires p.frame.parsed ==> FindArp(p.frame).Some?
      modifies p
      ensures !old(p.frame).parsed ==> r.None? && p.frame == old(p.frame)
      ensures old(p.frame).parsed ==> r == Some(p)
      ensures old(p.frame).parsed ==>
        p.frame == old(p.frame).(dst := localMac, next := Arp(RewriteIn(FindArp(old(p.frame)).value)))
    {
      var q := ethTunnel.ProcessInPacket(p);
      if q.None? {
        return None;
      }
      assert FindArp(p.frame) == FindArp(old(p.frame));
      var arpPkt := FindArp(p.frame).value;
      if arpPkt.hwsrc == tunnelMac {
        arpPkt := arpPkt.(hwsrc := localMac);
      }
      if arpPkt.hwdst == tunnelMac {
        arpPkt := arpPkt.(hwdst := localMac);
      }
      p.frame := p.frame.(next := Arp(arpPkt));
      return Some(p);
    }

    /** `processOutPacket`: the same outwards, the local address becoming the tunnel's. */
    method ProcessOutPacket(p: PacketRef) returns (r: Option<PacketRef>)
      requires Valid()
      requires p.frame.parsed ==> FindArp(p.frame).Some?
      modifies p
      ensures !old(p.frame).parsed ==> r.None? && p.frame == old(p.frame)
      ensures old(p.frame).parsed ==> r == Some(p)
      ensures old(p.frame).parsed ==>
        p.frame == old(p.frame).(src := tunnelMac, next := Arp(RewriteOut(FindArp(old(p.frame)).value)))
    {
      var q := ethTunnel.ProcessOutPacket(p);
      if q.None? {
        return None;
      }
      assert FindArp(p.frame) == FindArp(old(p.frame));
      var arpPkt := FindArp(p.frame).value;
      if arpPkt.hwsrc == localMac {
        arpPkt := arpPkt.(hwsrc := tunnelMac);
      }
      if arpPkt.hwdst == localMac {
        arpPkt := arpPkt.(hwdst := tunnelMac);
      }
      p.frame := p.frame.(next := Arp(arpPkt));
      return Some(p);
    }

    /** `doProcessInPacket` (inherited from `PacketProcessor`). */
    method DoProcessInPacket(p: PacketRef) returns (r: Option<PacketRef>)
      requires Valid()
      modifies p
      ensures r == Some(p) && p.frame == DoneIn(old(p.frame))
    {
      if !MatchesIn(p.frame) {
        return Some(p);
      }
      r := ProcessInPacket(p);
    }

    /** `doProcessOutPacket` (inherited from `PacketProcessor`), with `matchesOut` as intended. */
    method DoProcessOutPacket(p: PacketRef) returns (r: Option<PacketRef>)
      requires Valid()
      modifies p
      ensures r == Some(p) && p.frame == DoneOut(old(p.frame))
    {
      if !MatchesOut(p.frame) {
        return Some(p);
      }
      r := ProcessOutPacket(p);
    }

    /**
     * Outgoing processing hides the local address: a frame from the local
     * host that names it on either side of the ARP packet leaves with no
     * trace of it, in the frame's source or in the ARP packet.
     */
    lemma OutHidesLocalMac(e: Ethernet)
      requires Valid() && localMac != tunnelMac
      requires ethTunnel.MatchesOut(e) && FindArp(e).Some?
      requires localMac == FindArp(e).value.hwsrc || localMac == FindArp(e).value.hwdst
      ensures DoneOut(e).src != localMac
      ensures FindArp(DoneOut(e)).Some?
      ensures FindArp(DoneOut(e)).value.hwsrc != localMac && FindArp(DoneOut(e)).value.hwdst != localMac
    {
    }

    /**
     * As written, an ARP packet whose sender is some other host and whose
     * target is the local host leaves the tunnel with the local address in
     * it: with local address 1, tunnel address 2 and an ARP packet from
     * 3 to 1, nothing is rewritten.
     */
    lemma OutAsWrittenLeaksLocalMac()
      requires Valid() && localMac == 1 && tunnelMac == 2
      ensures var e := Ethernet(true, 1, EtherBroadcast, ArpType,
                                Arp(ArpPacket(HwTypeEthernet, ProtoTypeIp, 6, 4, Reply, 3, 1, 10, 11)));
        MatchesOut(e) && !MatchesOutAsWritten(e) &&
        DoneOutAsWritten(e) == e && FindArp(DoneOutAsWritten(e)).value.hwdst == localMac &&
        FindArp(DoneOut(e)).value.hwdst == tunnelMac
    {
    }

    /**
     * Through the tunnel and back: an ARP packet that does not mention the
     * tunnel's own address comes back with the hardware addresses it left with.
     */
    lemma RewriteRoundTrip(a: ArpPacket)
      requires a.hwsrc != tunnelMac && a.hwdst != tunnelMac
      ensures RewriteIn(RewriteOut(a)) == a
    {
    }
  }
}
