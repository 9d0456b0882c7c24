/**
 * The Ethernet applications (`protocols/application/ethernet.py`): which
 * frames an Ethernet server or client accepts, and the Ethernet tunnel, a
 * packet processor that hides the local host's address behind the tunnel's
 * address by rewriting frames in place.
 */
module EthernetApp {
  import opened Wrappers
  import opened Packets
  import Application

  /** `EthServer.matches`: the server accepts IPv4 frames. */
  predicate ServerMatches(packet: Ethernet)
  {
    packet.typ == IpType
  }

  /** A server's replies have the type of the frame they answer, so it accepts its replies to what it accepted. */
  lemma ServerMatchesItsReplies(req: Ethernet, payload: Layer, src: Option<Mac>)
    ensures ServerMatches(EthernetResponse(req, payload, src)) <==> ServerMatches(req)
  {
  }

  /** `EthClient.matches`: the frame comes from the client's peer `dst` and is addressed to the client's `src`. */
  predicate ClientMatches(src: Mac, dst: Mac, packet: Ethernet)
  {
    packet.src == dst && packet.dst == src
  }

  /** `OF_EthClient.matches`: also the switch and port the client was opened on. */
  function OfClientMatches(dpid: int, port: int, src: Mac, dst: Mac, packet: Ethernet, inDpid: int, inPort: int): (r: bool)
    ensures r ==> ClientMatches(src, dst, packet)
    ensures r <==> inPort == port && inDpid == dpid && ClientMatches(src, dst, packet)
  {
    if inPort != port then false
    else if inDpid != dpid then false
    else ClientMatches(src, dst, packet)
  }

  /** The peer's reply to a frame the client sent is accepted by the client, and only the peer's frames are. */
  lemma ClientMatchesReplies(src: Mac, dst: Mac, sent: Ethernet, payload: Layer)
    requires sent.src == src && sent.dst == dst
    ensures ClientMatches(src, dst, EthernetResponse(sent, payload, None))
    ensures ClientMatches(src, dst, EthernetResponse(sent, payload, Some(dst)))
    ensures forall m :: m != dst ==> !ClientMatches(src, dst, EthernetResponse(sent, payload, Some(m)))
  {
  }

  /** `EthTunnel`: the local host's address and the tunnel's address. */
  class EthTunnel {
    const localMac: Mac
    const tunnelMac: Mac

    constructor(localMac: Mac, tunnelMac: Mac)
      ensures this.localMac == localMac && this.tunnelMac == tunnelMac
    {
      this.localMac := localMac;
      this.tunnelMac := tunnelMac;
    }

    /** `matchesIn`: a parsed frame to any host, to all hosts, or to the tunnel. */
    predicate MatchesIn(e: Ethernet)
    {
      e.parsed && e.dst in [EtherAny, EtherBroadcast, tunnelMac]
    }

    /** `matchesOut`: a parsed frame from the local host. */
    predicate MatchesOut(e: Ethernet)
    {
      e.parsed && e.src == localMac
    }

    /** The frame after `doProcessInPacket`: a matching frame is readdressed to the local host. */
    function DoneIn(e: Ethernet): Ethernet
    {
      if MatchesIn(e) then e.(dst := localMac) else e
    }

    /** The frame after `doProcessOutPacket`: a matching frame now comes from the tunnel. */
    function DoneOut(e: Ethernet): Ethernet
    {
      if MatchesOut(e) then e.(src := tunnelMac) else e
    }

    /** `processInPacket`: readdress a parsed frame to the local host, in place. */
    method ProcessInPacket(p: PacketRef) returns (r: Option<PacketRef>)
      modifies p
      ensures !old(p.frame).parsed ==> r.None? && p.frame == old(p.frame)
      ensures old(p.frame).parsed ==> r == Some(p) && p.frame == old(p.frame).(dst := localMac)
    {
      if !p.frame.parsed {
        return None;
      }
      p.frame := p.frame.(dst := localMac);
      return Some(p);
    }

    /** `processOutPacket`: make a parsed frame come from the tunnel, in place. */
    method ProcessOutPacket(p: PacketRef) returns (r: Option<PacketRef>)
      modifies p
      ensures !old(p.frame).parsed ==> r.None? && p.frame == old(p.frame)
      ensures old(p.frame).parsed ==> r == Some(p) && p.frame == old(p.frame).(src := tunnelMac)
    {
      if !p.frame.parsed {
        return None;
      }
      p.frame := p.frame.(src := tunnelMac);
      return Some(p);
    }

    /** `doProcessInPacket` (inherited from `PacketProcessor`). */
    method DoProcessInPacket(p: PacketRef) returns (r: Option<PacketRef>)
      modifies p
      ensures r == Some(p) && p.frame == DoneIn(old(p.frame))
      ensures Some(p.frame) == Application.DoProcess(MatchesIn, (e: Ethernet) => Some(e.(dst := localMac)), old(p.frame))
    {
      if !MatchesIn(p.frame) {
        return Some(p);
      }
      r := ProcessInPacket(p);
    }

    /** `doProcessOutPacket` (inherited from `PacketProcessor`). */
    method DoProcessOutPacket(p: PacketRef) returns (r: Option<PacketRef>)
      modifies p
      ensures r == Some(p) && p.frame == DoneOut(old(p.frame))
      ensures Some(p.frame) == Application.DoProcess(MatchesOut, (e: Ethernet) => Some(e.(src := tunnelMac)), old(p.frame))
    {
      if !MatchesOut(p.frame) {
        return Some(p);
      }
      r := ProcessOutPacket(p);
    }

    /**
     * Incoming processing delivers every frame it takes to the local host and
     * changes nothing else; a second pass changes nothing more when the local
     * address is neither the tunnel's nor a group address.
     */
    lemma InDelivers(e: Ethernet)
      requires localMac !in [EtherAny, EtherBroadcast, tunnelMac]
      ensures MatchesIn(e) ==> DoneIn(e).dst == localMac && !MatchesIn(DoneIn(e))
      ensures DoneIn(e).src == e.src && DoneIn(e).typ == e.typ && DoneIn(e).next == e.next
      ensures DoneIn(DoneIn(e)) == DoneIn(e)
    {
    }

    /**
     * Outgoing processing hides the local address of every frame it takes
     * behind the tunnel's, and a second pass changes nothing more.
     */
    lemma OutHides(e: Ethernet)
      requires localMac != tunnelMac
      ensures MatchesOut(e) ==> DoneOut(e).src == tunnelMac && !MatchesOut(DoneOut(e))
      ensures DoneOut(e).dst == e.dst && DoneOut(e).typ == e.typ && DoneOut(e).next == e.next
      ensures DoneOut(DoneOut(e)) == DoneOut(e)
    {
    }
  }
}
