/**
 * The host tracker of `scn/scnHostTracker.py`: liveness timers, ARP ping
 * bookkeeping, and the table of MAC entries learned from packet-ins, each
 * with the IP addresses seen from it. Times are whole seconds passed in as
 * `now`.
 */
module HostTracker {
  import opened Wrappers

  /** `TIMEOUT_SEC` at its defaults. */
  const ArpAware := 60 * 4
  const ArpSilent := 60 * 20
  const ArpReply := 4
  const EntryMove := 60
  /** `PingCtrl.pingLim`: pings without reply before a ping counts as failed. */
  const PingLim := 3
  /** `DEVELOP`: while set, nothing ever expires. */
  const Develop := true

  /** `Alive.expired`: never while developing, otherwise once the interval has passed since last seen. */
  function Expired(lastTimeSeen: int, interval: int, now: int): (r: bool)
    ensures Develop ==> !r
  {
    if Develop then false else now > lastTimeSeen + interval
  }

  /** `PingCtrl`: the ARP pings sent to one IP address and not yet answered. */
  class PingCtrl {
    var lastTimeSeen: int
    const interval: int
    var pending: nat

    constructor(now: int)
      ensures lastTimeSeen == now && interval == ArpReply && pending == 0
    {
      lastTimeSeen := now;
      interval := ArpReply;
      pending := 0;
    }

    /** `sent`: one more ping is pending. */
    method Sent(now: int)
      modifies this`lastTimeSeen, this`pending
      ensures pending == old(pending) + 1 && lastTimeSeen == now
    {
      lastTimeSeen := now;
      pending := pending + 1;
    }

    /** `received`: a reply clears every pending ping. */
    method Received()
      modifies this`pending
      ensures pending == 0 && !Failed()
    {
      pending := 0;
    }

    /** `failed`: more than `pingLim` pings went unanswered. */
    function Failed(): (r: bool)
      reads this
      ensures r <==> pending > PingLim
      ensures r ==> pending >= 4
    {
      pending > PingLim
    }
  }

  /** The interval of an IP entry: long for a host known to answer ARP. */
  function IpInterval(hasARP: bool): (r: int)
    ensures r == ArpAware || r == ArpSilent
    ensures hasARP <==> r == ArpAware
  {
    if hasARP then ArpAware else ArpSilent
  }

  /** `IpEntry`: one IP address seen from a MAC entry. */
  class IpEntry {
    var lastTimeSeen: int
    var interval: int
    var hasARP: bool
    const pings: PingCtrl

    /** The interval follows the ARP feature. */
    predicate Valid()
      reads this
    {
      interval == IpInterval(hasARP)
    }

    constructor(hasARP: bool, now: int)
      ensures Valid() && this.hasARP == hasARP && lastTimeSeen == now && fresh(pings) && pings.pending == 0
    {
      lastTimeSeen := now;
      interval := IpInterval(hasARP);
      this.hasARP := hasARP;
      pings := new PingCtrl(now);
    }

    /** `setHasARP`: switch once to the ARP-aware interval; a second call changes nothing. */
    method SetHasARP()
      requires Valid()
      modifies this`hasARP, this`interval
      ensures Valid() && hasARP && interval == ArpAware
      ensures old(hasARP) ==> unchanged(this)
    {
      if !hasARP {
        hasARP := true;
        interval := ArpAware;
      }
    }
  }

  /** A MAC entry's place: switch, port, and the stray `inport` attribute the source may add. */
  datatype Location = Location(dpid: int, port: int, inport: Option<int>)

  /** A packet from `(dpid, inport)` shows the host moved away from `l`. */
  predicate IsMove(l: Location, dpid: int, inport: int)
  {
    (l.dpid, l.port) != (dpid, inport)
  }

  /** The move as the source writes it: `dpid` and a new `inport` attribute; `port` stays. */
  function MoveAsWritten(l: Location, dpid: int, inport: int): Location
  {
    l.(dpid := dpid, inport := Some(inport))
  }

  /** The move as evidently intended: the entry's `port` becomes the packet's port. */
  function Move(l: Location, dpid: int, inport: int): Location
  {
    l.(dpid := dpid, port := inport)
  }

  /**
   * After a move to another port, the code as written still sees the host
   * as elsewhere, so the next packet from the same place is a move again;
   * the intended move is seen once only.
   */
  lemma MoveAsWrittenRepeats(l: Location, dpid: int, inport: int)
    requires l.port != inport
    ensures IsMove(MoveAsWritten(l, dpid, inport), dpid, inport)
    ensures !IsMove(Move(l, dpid, inport), dpid, inport)
  {
  }

  /** A host in the middle of a network moved to switch 1, port 2 from switch 1, port 1. */
  lemma MoveAsWrittenCounterexample()
    ensures MoveAsWritten(Location(1, 1, None), 1, 2) == Location(1, 1, Some(2))
    ensures IsMove(MoveAsWritten(Location(1, 1, None), 1, 2), 1, 2)
    ensures Move(Location(1, 1, None), 1, 2) == Location(1, 2, None)
  {
  }

  /** `MacEntry`: a host's MAC address, where it was last seen, and its IP addresses. */
  class MacEntry {
    var lastTimeSeen: int
    const interval: int
    var loc: Location
    const macaddr: int
    var ipAddrs: map<int, IpEntry>

    constructor(dpid: int, port: int, macaddr: int, now: int)
      ensures lastTimeSeen == now && interval == ArpAware && loc == Location(dpid, port, None)
      ensures this.macaddr == macaddr && ipAddrs == map[]
    {
      lastTimeSeen := now;
      interval := ArpAware;
      loc := Location(dpid, port, None);
      this.macaddr := macaddr;
      ipAddrs := map[];
    }

    /** `__eq__` against a `(dpid, port, macaddr)` tuple. */
    function EqTuple(t: (int, int, int)): (r: bool)
      reads this
      ensures r <==> !IsMove(loc, t.0, t.1) && macaddr == t.2
    {
      (loc.dpid, loc.port, macaddr) == t
    }

    /** `__eq__` against another entry: same switch, port and MAC; an entry never equals `None`. */
    function Eq(other: Option<MacEntry>): (r: bool)
      reads this, if other.Some? then {other.value} else {}
      ensures other.None? ==> !r
      ensures other.Some? ==> (r <==> other.value.EqTuple((loc.dpid, loc.port, macaddr)))
    {
      other.Some? && (loc.dpid, loc.port, macaddr) == (other.value.loc.dpid, other.value.loc.port, other.value.macaddr)
    }
  }

  /** What an incoming frame carries above Ethernet, as far as the tracker looks. */
  datatype Payload =
    | Ipv4Payload(srcip: int)
    | ArpPayload(hwtype: int, prototype: int, protosrc: int)
    | OtherPayload

  const HwTypeEthernet := 1
  const ProtoTypeIp := 0x0800

  /**
   * `getSrcIPandARP`: an IPv4 packet's source, without ARP; the sender of an
   * Ethernet/IP ARP packet with a nonzero sender address, with ARP;
   * otherwise nothing.
   */
  function GetSrcIpAndArp(p: Payload): (r: (Option<int>, bool))
    ensures r.1 ==> r.0.Some?
    ensures r.0.Some? && !r.1 <==> p.Ipv4Payload?
    ensures r.1 <==> p.ArpPayload? && p.hwtype == HwTypeEthernet && p.prototype == ProtoTypeIp && p.protosrc != 0
    ensures r.0.Some? ==> r.0.value == (if p.Ipv4Payload? then p.srcip else p.protosrc)
  {
    match p
    case Ipv4Payload(srcip) => (Some(srcip), false)
    case ArpPayload(hwtype, prototype, protosrc) =>
      if hwtype == HwTypeEthernet && prototype == ProtoTypeIp && protosrc != 0 then (Some(protosrc), true)
      else (None, false)
    case OtherPayload => (None, false)
  }

  /**
   * `updateIPInfo`: refresh the entry's record of the address, or add a new
   * one; an ARP packet clears the address's pending pings.
   */
  method UpdateIpInfo(srcip: int, macEntry: MacEntry, hasARP: bool, now: int)
    modifies macEntry`ipAddrs
    modifies if srcip in macEntry.ipAddrs then {macEntry.ipAddrs[srcip], macEntry.ipAddrs[srcip].pings} else {}
    ensures srcip in macEntry.ipAddrs
    ensures srcip in old(macEntry.ipAddrs) ==>
      macEntry.ipAddrs == old(macEntry.ipAddrs) && macEntry.ipAddrs[srcip].lastTimeSeen == now &&
      macEntry.ipAddrs[srcip].hasARP == old(macEntry.ipAddrs[srcip].hasARP) &&
      macEntry.ipAddrs[srcip].pings.pending == (if hasARP then 0 else old(macEntry.ipAddrs[srcip].pings.pending))
    ensures srcip !in old(macEntry.ipAddrs) ==>
      var e := macEntry.ipAddrs[srcip];
      fresh(e) && fresh(e.pings) && macEntry.ipAddrs == old(macEntry.ipAddrs)[srcip := e] &&
      e.Valid() && e.hasARP == hasARP && e.lastTimeSeen == now && e.pings.pending == 0
  {
    var ipEntry: IpEntry;
    if srcip in macEntry.ipAddrs {
      ipEntry := macEntry.ipAddrs[srcip];
      ipEntry.lastTimeSeen := now;
    } else {
      ipEntry := new IpEntry(hasARP, now);
      macEntry.ipAddrs := macEntry.ipAddrs[srcip := ipEntry];
    }
    if hasARP {
      ipEntry.pings.Received();
    }
  }

  /** `HostTracker`: the MAC entries by address. */
  class Tracker {
    var entryByMAC: map<int, MacEntry>

    /** Every entry is filed under its own MAC address. */
    predicate Valid()
      reads this
    {
      forall m :: m in entryByMAC ==> entryByMAC[m].macaddr == m
    }

    constructor()
      ensures Valid() && entryByMAC == map[]
    {
      entryByMAC := map[];
    }

    /** `getMacEntry`. */
    function GetMacEntry(mac: int): (r: Option<MacEntry>)
      reads this
      ensures r.Some? <==> mac in entryByMAC
      ensures r.Some? ==> r.value == entryByMAC[mac] && (Valid() ==> r.value.macaddr == mac)
    {
      if mac in entryByMAC then Some(entryByMAC[mac]) else None
    }

    /**
     * `registerMacEntry` as evidently intended: an unseen MAC gets a new entry
     * and counts as learned; a known one that moved takes the packet's switch
     * and port. Either way it is refreshed and then sits where the packet
     * came from.
     */
    method RegisterMacEntry(dpid: int, inport: int, src: int, now: int) returns (entry: MacEntry, isLearn: bool)
      requires Valid()
      modifies this`entryByMAC, entryByMAC.Values
      ensures Valid()
      ensures isLearn <==> src !in old(entryByMAC)
      ensures isLearn ==> fresh(entry) && entryByMAC == old(entryByMAC)[src := entry] && entry.ipAddrs == map[]
      ensures !isLearn ==> entry == old(entryByMAC[src]) && entryByMAC == old(entryByMAC) && entry.ipAddrs == old(entry.ipAddrs)
      ensures entry.EqTuple((dpid, inport, src)) && entry.lastTimeSeen == now
      ensures forall e :: e in old(entryByMAC.Values) && e != entry ==> unchanged(e)
    {
      var found := GetMacEntry(src);
      if found.None? {
        isLearn := true;
        entry := new MacEntry(dpid, inport, src, now);
        entryByMAC := entryByMAC[src := entry];
      } else {
        isLearn := false;
        entry := found.value;
        if !entry.EqTuple((dpid, inport, src)) {
          entry.loc := Move(entry.loc, dpid, inport);
        }
      }
      entry.lastTimeSeen := now;
    }

    /**
     * `registerMacEntry` as written: a moved host's new port goes to a
     * stray `inport` attribute, so an entry that changed port still differs
     * from where the packet came from.
     */
    method RegisterMacEntryAsWritten(dpid: int, inport: int, src: int, now: int) returns (entry: MacEntry, isLearn: bool)
      requires Valid()
      modifies this`entryByMAC, entryByMAC.Values
      ensures Valid()
      ensures isLearn <==> src !in old(entryByMAC)
      ensures isLearn ==> fresh(entry) && entryByMAC == old(entryByMAC)[src := entry] && entry.EqTuple((dpid, inport, src))
      ensures !isLearn ==> entry == old(entryByMAC[src]) && entryByMAC == old(entryByMAC)
      ensures !isLearn && old(entry.loc.port) != inport ==>
        entry.loc == MoveAsWritten(old(entry.loc), dpid, inport) && !entry.EqTuple((dpid, inport, src))
      ensures entry.lastTimeSeen == now
    {
      var found := GetMacEntry(src);
      if found.None? {
        isLearn := true;
        entry := new MacEntry(dpid, inport, src, now);
        entryByMAC := entryByMAC[src := entry];
      } else {
        isLearn := false;
        entry := found.value;
        if !entry.EqTuple((dpid, inport, src)) {
          entry.loc := MoveAsWritten(entry.loc, dpid, inport);
        }
      }
      entry.lastTimeSeen := now;
    }
  }
}
