/**
 * The packet records the protocol agents work on: an Ethernet frame and the
 * layers it can carry (ARP, IPv4, UDP, DHCP). `find` looks a layer up from
 * the frame down, as a parsed frame does; a frame that is not parsed finds
 * nothing. Addresses and ports are integers.
 */
module Packets {
  import opened Wrappers

  type Byte = x: int | 0 <= x < 256
  type Mac = int
  type Ip = int

  /** The all-zero and the broadcast Ethernet addresses. */
  const EtherAny: Mac := 0
  const EtherBroadcast: Mac := 0xffff_ffff_ffff
  /** EtherType values. */
  const IpType := 0x0800
  const ArpType := 0x0806
  /** The IPv4 protocol number of UDP. */
  const UdpProtocol := 17

  datatype ArpPacket = ArpPacket(hwtype: int, prototype: int, hwlen: int, protolen: int, opcode: int,
                                 hwsrc: Mac, hwdst: Mac, protosrc: Ip, protodst: Ip)

  datatype DhcpPacket = DhcpPacket(op: int, htype: int, hlen: int, hops: int, xid: int,
                                   yiaddr: Ip, ciaddr: Ip, siaddr: Ip, giaddr: Ip, chaddr: Mac,
                                   magic: int, options: map<int, seq<Byte>>)

  /** What a frame carries, layer by layer. */
  datatype Layer =
    | Arp(arp: ArpPacket)
    | Ipv4(srcip: Ip, dstip: Ip, protocol: int, iplen: int, ipNext: Layer)
    | Udp(srcport: int, dstport: int, udpNext: Layer)
    | Dhcp(dhcp: DhcpPacket)
    | Raw(data: seq<Byte>)
    | NoLayer

  datatype Ethernet = Ethernet(parsed: bool, src: Mac, dst: Mac, typ: int, next: Layer)

  /** The first ARP layer at or below `l`. */
  function FindArpIn(l: Layer): Option<ArpPacket>
  {
    match l
    case Arp(a) => Some(a)
    case Ipv4(_, _, _, _, n) => FindArpIn(n)
    case Udp(_, _, n) => FindArpIn(n)
    case _ => None
  }

  /** The first DHCP layer at or below `l`. */
  function FindDhcpIn(l: Layer): Option<DhcpPacket>
  {
    match l
    case Dhcp(d) => Some(d)
    case Ipv4(_, _, _, _, n) => FindDhcpIn(n)
    case Udp(_, _, n) => FindDhcpIn(n)
    case _ => None
  }

  /** The first UDP layer at or below `l`. */
  function FindUdpIn(l: Layer): (r: Option<Layer>)
    ensures r.Some? ==> r.value.Udp?
  {
    match l
    case Udp(_, _, _) => Some(l)
    case Ipv4(_, _, _, _, n) => FindUdpIn(n)
    case _ => None
  }

  /** The first IPv4 layer at or below `l`. */
  function FindIpv4In(l: Layer): (r: Option<Layer>)
    ensures r.Some? ==> r.value.Ipv4?
  {
    match l
    case Ipv4(_, _, _, _, _) => Some(l)
    case Udp(_, _, n) => FindIpv4In(n)
    case _ => None
  }

  /** `base.extract(packet, arp)`: the ARP layer of a parsed frame. */
  function FindArp(e: Ethernet): Option<ArpPacket>
  {
    if e.parsed then FindArpIn(e.next) else None
  }

  /** `base.extract(packet, dhcp)`: the DHCP layer of a parsed frame. */
  function FindDhcp(e: Ethernet): Option<DhcpPacket>
  {
    if e.parsed then FindDhcpIn(e.next) else None
  }

  /** `req.find('udp')` */
  function FindUdp(e: Ethernet): (r: Option<Layer>)
    ensures r.Some? ==> r.value.Udp?
  {
    if e.parsed then FindUdpIn(e.next) else None
  }

  /** `req.find('ipv4')` */
  function FindIpv4(e: Ethernet): (r: Option<Layer>)
    ensures r.Some? ==> r.value.Ipv4?
  {
    if e.parsed then FindIpv4In(e.next) else None
  }

  /**
   * `ethernet.buildResponse(req, payload, **kwargs)`: a parsed frame back to
   * the sender of `req`, of the same type, carrying `payload`; a `src`
   * keyword overrides the source address.
   */
  function EthernetResponse(req: Ethernet, payload: Layer, src: Option<Mac>): (r: Ethernet)
    ensures r.parsed && r.dst == req.src && r.typ == req.typ && r.next == payload
    ensures r.src == src.UnwrapOr(req.dst)
  {
    Ethernet(true, src.UnwrapOr(req.dst), req.src, req.typ, payload)
  }

  /** A frame the agents update in place: the tunnels rewrite its addresses and payload. */
  class PacketRef {
    var frame: Ethernet

    constructor(frame: Ethernet)
      ensures this.frame == frame
    {
      this.frame := frame;
    }
  }
}
