/**
 * The ARP agent (`protocols/arp.py`): recognising requests and replies,
 * building a broadcast request, and building the reply to a request the way
 * the "Packet Reception" procedure of RFC 826 prescribes (the sender and
 * target fields swap, and the answering station puts its own hardware
 * address in the sender field).
 */
module ArpProtocol {
  import opened Wrappers
  import opened Packets

  /** ARP opcodes and the Ethernet/IPv4 type codes (RFC 826). */
  const Request := 1
  const Reply := 2
  const HwTypeEthernet := 1
  const ProtoTypeIp := 0x0800

  /** The agent's functions take either a frame or an ARP packet on its own. */
  datatype ArpInput = Frame(eth: Ethernet) | Bare(arp: ArpPacket)

  /** `extractTyp`: an IPv4 ARP packet of opcode `typ`, or nothing. */
  function ExtractTyp(typ: int, p: Option<ArpPacket>): (r: Option<ArpPacket>)
    ensures r.Some? <==> p.Some? && p.value.prototype == ProtoTypeIp && p.value.opcode == typ
    ensures r.Some? ==> r == p
  {
    if p.None? then None
    else if p.value.prototype != ProtoTypeIp then None
    else if p.value.opcode != typ then None
    else p
  }

  /** `extractRequest`: the ARP request a frame carries. */
  function ExtractRequest(e: Ethernet): (r: Option<ArpPacket>)
    ensures r.Some? <==> FindArp(e).Some? && FindArp(e).value.prototype == ProtoTypeIp && FindArp(e).value.opcode == Request
  {
    ExtractTyp(Request, FindArp(e))
  }

  /** `extractResponse`: the ARP reply a frame carries. */
  function ExtractResponse(e: Ethernet): (r: Option<ArpPacket>)
    ensures r.Some? <==> FindArp(e).Some? && FindArp(e).value.prototype == ProtoTypeIp && FindArp(e).value.opcode == Reply
  {
    ExtractTyp(Reply, FindArp(e))
  }

  /**
   * `extractRequestedIp`: the target address of a request; an ARP packet
   * passed on its own is taken as it is, a frame must carry a request.
   */
  function ExtractRequestedIp(p: ArpInput): (r: Option<Ip>)
    ensures p.Bare? ==> r == Some(p.arp.protodst)
    ensures p.Frame? ==> (r.Some? <==> ExtractRequest(p.eth).Some?)
    ensures p.Frame? && r.Some? ==> r.value == ExtractRequest(p.eth).value.protodst
  {
    match p
    case Bare(a) => Some(a.protodst)
    case Frame(e) =>
      var req := ExtractRequest(e);
      if req.None? then None else Some(req.value.protodst)
  }

  /**
   * `buildArpRequest`: a broadcast ARP frame asking for `dstIp` on behalf of
   * `srcMac`/`srcIp`. The hardware and protocol types and the all-zero
   * target address are the defaults of a fresh ARP packet.
   */
  function BuildArpRequest(srcMac: Mac, srcIp: Ip, dstIp: Ip): (r: Ethernet)
    ensures r.parsed && r.src == srcMac && r.dst == EtherBroadcast && r.typ == ArpType
    ensures r.next == Arp(ArpPacket(HwTypeEthernet, ProtoTypeIp, 6, 4, Request, srcMac, EtherAny, srcIp, dstIp))
  {
    var a := ArpPacket(HwTypeEthernet, ProtoTypeIp, 6, 4, Request, srcMac, EtherAny, srcIp, dstIp);
    Ethernet(true, srcMac, EtherBroadcast, ArpType, Arp(a))
  }

  /** A built request reads back as a request for `dstIp` from `srcMac`/`srcIp`. */
  lemma RequestRoundTrip(srcMac: Mac, srcIp: Ip, dstIp: Ip)
    ensures ExtractRequest(BuildArpRequest(srcMac, srcIp, dstIp)).Some?
    ensures ExtractRequestedIp(Frame(BuildArpRequest(srcMac, srcIp, dstIp))) == Some(dstIp)
    ensures ExtractResponse(BuildArpRequest(srcMac, srcIp, dstIp)).None?
    ensures var a := ExtractRequest(BuildArpRequest(srcMac, srcIp, dstIp)).value;
      a.hwsrc == srcMac && a.protosrc == srcIp && a.protodst == dstIp
  {
  }

  /** The ARP packet of `p`, if it has one (a frame without ARP has none). */
  function ArpOf(p: ArpInput): Option<ArpPacket>
  {
    match p
    case Bare(a) => Some(a)
    case Frame(e) => FindArp(e)
  }

  /** The reply to `req` by the station that owns `mac` (RFC 826, "Packet Reception"). */
  function ReplyTo(req: ArpPacket, mac: Mac): ArpPacket
  {
    ArpPacket(HwTypeEthernet, ProtoTypeIp, 6, 4, Reply, mac, req.hwsrc, req.protodst, req.protosrc)
  }

  /**
   * `buildArpResponse`: the reply to the ARP packet of `p` from the station
   * owning `mac`; nothing when `p` carries no ARP packet. The opcode of the
   * packet answered is not checked.
   */
  function BuildArpResponse(p: ArpInput, mac: Mac): (r: Option<ArpPacket>)
    ensures r.Some? <==> ArpOf(p).Some?
    ensures r.Some? ==>
      var req := ArpOf(p).value;
      r.value.hwdst == req.hwsrc && r.value.protodst == req.protosrc &&
      r.value.hwsrc == mac && r.value.protosrc == req.protodst &&
      r.value.opcode == Reply && r.value.hwtype == HwTypeEthernet && r.value.prototype == ProtoTypeIp &&
      r.value.hwlen == 6 && r.value.protolen == 4
  {
    var a := ArpOf(p);
    if a.None? then None else Some(ReplyTo(a.value, mac))
  }

  /** `buildResponse`: the reply wrapped in a frame from `mac` back to the sender of `req`. */
  function BuildResponse(req: Ethernet, p: ArpInput, mac: Mac): (r: Option<Ethernet>)
    ensures r.Some? <==> ArpOf(p).Some?
    ensures r.Some? ==>
      r.value == EthernetResponse(req, Arp(BuildArpResponse(p, mac).value), Some(mac))
  {
    var a := BuildArpResponse(p, mac);
    if a.None? then None else Some(EthernetResponse(req, Arp(a.value), Some(mac)))
  }

  /** The reply to a request, sent in a frame, reads back as a reply to that request. */
  lemma ResponseIsReply(req: Ethernet, mac: Mac)
    requires ExtractRequest(req).Some?
    ensures BuildResponse(req, Frame(req), mac).Some?
    ensures var resp := BuildResponse(req, Frame(req), mac).value;
      var q := ExtractRequest(req).value;
      ExtractResponse(resp) == Some(ReplyTo(q, mac)) && resp.dst == req.src && resp.src == mac
  {
  }
}
