/**
 * Route values and their construction (`scn/routing.py`): flow-table entries,
 * the keyword request a route is created from, its inversion for the return
 * direction (`_invert`, `_invertRouteDict`), the output-port resolution
 * (`_resolveOutputInfo`), the match (`createMessage`) and the per-switch
 * entries of `createRoute`.
 */
module Routes {
  import opened Wrappers
  import opened Network
  import opened RoutePaths

  const IP_TYPE: int := 0x0800
  const TCP_PROTOCOL: int := 6
  const UDP_PROTOCOL: int := 17

  /** OpenFlow actions a route uses. */
  datatype Action = Output(port: int) | SetDlDst(mac: int)

  /** The match fields `createMessage` may set; an absent field is a wildcard. */
  datatype MatchField = NwSrc | NwDst | DlType | NwProto | NwTos | TpSrc | TpDst
  type Match = map<MatchField, int>

  /** `TableEntry.is_matched_by(m)`: every field `general` fixes is fixed the same way in `specific`. */
  predicate Covers(general: Match, specific: Match)
  {
    forall f :: f in general ==> f in specific && specific[f] == general[f]
  }

  /** A flow-table entry installed on switch `sw`. */
  datatype Entry = Entry(sw: int, fields: Match, actions: seq<Action>, cookie: int)

  /** `ScnRoute`: its path, cookie, links, per-switch entries and conditions. */
  datatype Route = Route(
    path: IpPath,
    cookie: int,
    links: seq<LinkKey>,
    entries: map<int, Entry>,
    conditions: Option<Conditions>)

  /** Every entry carries cookie `c` (the loop at the top of `addRoute`). */
  function StampEntries(entries: map<int, Entry>, c: int): (r: map<int, Entry>)
    ensures r.Keys == entries.Keys
    ensures forall sw :: sw in r ==> r[sw] == entries[sw].(cookie := c)
  {
    map sw | sw in entries :: entries[sw].(cookie := c)
  }

  // ------------------------------------------------------------ keyword requests

  /** What a keyword pair names at each end of a route: MAC, switch, IP, switch port, transport port. */
  datatype EndKind = Mac | Dpid | Ip | SwitchPort | TransportPort

  /**
   * The keyword arguments of `createRoute` / `createBiRoute`: the source and
   * destination keyword of each pair (`srcmac`/`dstmac`, …, `inport`/`outport`,
   * `srcport`/`dstport`) and the unpaired ones.
   */
  datatype Field =
    | SrcEnd(kind: EndKind) | DstEnd(kind: EndKind)
    | Gateway | Via | Protocol | IpProtocol | Tos | CookieKey | ConditionsKey

  const SrcMac: Field := SrcEnd(Mac)
  const DstMac: Field := DstEnd(Mac)
  const SrcDpid: Field := SrcEnd(Dpid)
  const DstDpid: Field := DstEnd(Dpid)
  const SrcIp: Field := SrcEnd(Ip)
  const DstIp: Field := DstEnd(Ip)
  const InPort: Field := SrcEnd(SwitchPort)
  const OutPort: Field := DstEnd(SwitchPort)
  const SrcPort: Field := SrcEnd(TransportPort)
  const DstPort: Field := DstEnd(TransportPort)

  /** A keyword value: a number, a switch port (gateway), a link list, conditions, or None. */
  datatype Value = Num(n: int) | PortRef(dpid: int, port: int) | Links(links: seq<LinkKey>) | Conds(c: Conditions) | NoneValue

  type Request = map<Field, Value>

  /** Python truthiness of a keyword value. */
  predicate TruthyValue(v: Value)
  {
    match v
    case Num(n) => n != 0
    case PortRef(_, _) => true
    case Links(ls) => |ls| > 0
    case Conds(c) => Truthy(Some(c))
    case NoneValue => false
  }

  /** `dict.get`: the value, or None when absent. */
  function Get(d: Request, k: Field): (v: Value)
    ensures k !in d ==> v == NoneValue
    ensures k in d ==> v == d[k]
  {
    if k in d then d[k] else NoneValue
  }

  /** The integer under `k`, or `default` when absent or not a number. */
  function GetNum(d: Request, k: Field, default: int): int
  {
    if k in d && d[k].Num? then d[k].n else default
  }

  /** The optional integer under `k`. */
  function GetOptNum(d: Request, k: Field): Option<int>
  {
    if k in d && d[k].Num? then Some(d[k].n) else None
  }

  /**
   * `Routing._invert` as written: move a truthy `k1` value to `k2` (deleting
   * `k1` when it still holds it), then move a truthy `k2` value to `k1`
   * (deleting `k2` when it holds that value).
   */
  function InvertAsWritten(src: Request, dst: Request, k1: Field, k2: Field): Request
  {
    var v1 := Get(src, k1);
    var d1 := if TruthyValue(v1) then (if Get(dst, k1) == v1 then dst - {k1} else dst)[k2 := v1] else dst;
    var v2 := Get(src, k2);
    if TruthyValue(v2) then (if Get(d1, k2) == v2 then d1 - {k2} else d1)[k1 := v2] else d1
  }

  /** With equal truthy values on both keys, the written `_invert` loses `k2`. */
  lemma InvertAsWrittenLosesEqualPair()
    ensures var req := map[SrcDpid := Num(5), DstDpid := Num(5)];
            InvertAsWritten(req, req, SrcDpid, DstDpid) == map[SrcDpid := Num(5)]
  {
    var req := map[SrcDpid := Num(5), DstDpid := Num(5)];
    var d1 := (req - {SrcDpid})[DstDpid := Num(5)];
    assert Get(req, SrcDpid) == Num(5) && Get(d1, DstDpid) == Num(5);
    assert (d1 - {DstDpid})[SrcDpid := Num(5)] == map[SrcDpid := Num(5)];
  }

  /** The key a swappable keyword trades places with; other keywords stay put. */
  function Partner(k: Field): Field
  {
    match k
    case SrcEnd(kind) => DstEnd(kind)
    case DstEnd(kind) => SrcEnd(kind)
    case _ => k
  }

  /** Partners pair up: the partner of a partner is the key itself. */
  lemma PartnerInvolution(k: Field)
    ensures Partner(Partner(k)) == k
  {
  }

  /** The partners of a set of keys. */
  function Partners(keys: set<Field>): (r: set<Field>)
    ensures forall k :: Partner(k) in keys ==> k in r
  {
    assert forall k :: Partner(k) in keys ==> Partner(Partner(k)) == k by {
      forall k { PartnerInvolution(k); }
    }
    set j | j in keys :: Partner(j)
  }

  /** The intended effect of the five `_invert` calls: every swappable entry moves to its partner key. */
  function Mirror(req: Request): (r: Request)
    ensures forall k {:trigger k in r} :: k in r <==> Partner(k) in req
    ensures forall k {:trigger r[k]} :: k in r ==> r[k] == req[Partner(k)]
  {
    map k | k in req.Keys + Partners(req.Keys) && Partner(k) in req :: req[Partner(k)]
  }

  /** `a` and `b` agree on key `k`: both lack it or both hold the same value. */
  ghost predicate AgreeAt(a: Request, b: Request, k: Field)
  {
    (k in a <==> k in b) && (k in a ==> a[k] == b[k])
  }

  /** Two requests that agree on every key are equal. */
  lemma SameEntries(a: Request, b: Request)
    requires forall k :: AgreeAt(a, b, k)
    ensures a == b
  {
    forall k
      ensures (k in a <==> k in b) && (k in a ==> a[k] == b[k])
    {
      assert AgreeAt(a, b, k);
    }
  }

  /** Mirroring twice gives each entry back. */
  lemma MirrorTwiceAt(req: Request, k: Field)
    ensures AgreeAt(Mirror(Mirror(req)), req, k)
  {
    var once := Mirror(req);
    var p := Partner(k);
    PartnerInvolution(k);
    assert k in Mirror(once) <==> p in once;
    if k in req {
      assert Mirror(once)[k] == once[p] == req[k];
    }
  }

  /** Mirroring twice gives the request back. */
  lemma MirrorInvolution(req: Request)
    ensures Mirror(Mirror(req)) == req
  {
    forall k
      ensures AgreeAt(Mirror(Mirror(req)), req, k)
    {
      MirrorTwiceAt(req, k);
    }
    SameEntries(Mirror(Mirror(req)), req);
  }

  /**
   * With a truthy value on each key of a pair and different values, one
   * written `_invert` call swaps the pair, as `Mirror` does, and leaves the
   * rest of the request alone.
   */
  lemma InvertAsWrittenAgrees(src: Request, k1: Field, k2: Field)
    requires k1 != k2
    requires k1 in src ==> TruthyValue(src[k1])
    requires k2 in src ==> TruthyValue(src[k2])
    requires k1 in src && k2 in src ==> src[k1] != src[k2]
    ensures var a := InvertAsWritten(src, src, k1, k2);
            (k1 in a <==> k2 in src) && (k2 in a <==> k1 in src) &&
            (k1 in a ==> a[k1] == src[k2]) && (k2 in a ==> a[k2] == src[k1]) &&
            forall k :: k != k1 && k != k2 ==> (k in a <==> k in src) && (k in a ==> a[k] == src[k])
  {
    var a := InvertAsWritten(src, src, k1, k2);
    if k1 in src && k2 in src {
      assert a == (src - {k1})[k2 := src[k1]][k1 := src[k2]];
    } else if k1 in src {
      assert a == (src - {k1})[k2 := src[k1]];
    } else if k2 in src {
      assert a == (src - {k2})[k1 := src[k2]];
    } else {
      assert a == src;
    }
  }

  /** The reversed link list, when every link has a reverse in `known`; Err when two are missing. */
  function ReverseVia(via: seq<LinkKey>, known: set<LinkKey>, missing: nat): (r: Result<seq<LinkKey>>)
    ensures r.Ok? ==> |r.value| <= |via|
    ensures r.Ok? ==> forall i :: 0 <= i < |r.value| ==> r.value[i] in known
  {
    // The source deletes `kwargs[VIA]` at each missing link; the second deletion raises KeyError.
    if via == [] then Ok([])
    else if via[0].Reverse() !in known then
      (if missing >= 1 then Err("KeyError")
       else ReverseVia(via[1..], known, missing + 1))
    else
      match ReverseVia(via[1..], known, missing)
      case Err(e) => Err(e)
      case Ok(rest) => Ok(rest + [via[0].Reverse()])
  }

  /** When every link has its reverse, the result is the reverse links in reverse order. */
  lemma {:induction false} ReverseViaComplete(via: seq<LinkKey>, known: set<LinkKey>, missing: nat)
    requires forall i :: 0 <= i < |via| ==> via[i].Reverse() in known
    ensures ReverseVia(via, known, missing).Ok?
    ensures var rv := ReverseVia(via, known, missing).value;
            |rv| == |via| && forall i :: 0 <= i < |via| ==> rv[i] == via[|via| - 1 - i].Reverse()
  {
    if via != [] {
      ReverseViaComplete(via[1..], known, missing);
    }
  }

  /** The five `_invert` calls of `_invertRouteDict` as written. */
  function SwapPairsAsWritten(req: Request): Request
  {
    var r1 := InvertAsWritten(req, req, SrcMac, DstMac);
    var r2 := InvertAsWritten(req, r1, SrcDpid, DstDpid);
    var r3 := InvertAsWritten(req, r2, SrcIp, DstIp);
    var r4 := InvertAsWritten(req, r3, InPort, OutPort);
    InvertAsWritten(req, r4, SrcPort, DstPort)
  }

  /** With the same truthy switch on both ends, the written swap drops the destination switch. */
  lemma SwapPairsAsWrittenLosesEqualPair()
    ensures var req := map[SrcDpid := Num(5), DstDpid := Num(5)];
            DstDpid !in SwapPairsAsWritten(req) && DstDpid in Mirror(req)
  {
    var req := map[SrcDpid := Num(5), DstDpid := Num(5)];
    InvertAsWrittenLosesEqualPair();
    assert InvertAsWritten(req, req, SrcMac, DstMac) == req;
    assert InvertAsWritten(req, req, SrcIp, DstIp) == req;
    var r2 := map[SrcDpid := Num(5)];
    assert InvertAsWritten(req, req, SrcDpid, DstDpid) == r2;
    assert InvertAsWritten(req, r2, SrcIp, DstIp) == r2;
    assert InvertAsWritten(req, r2, InPort, OutPort) == r2;
    assert InvertAsWritten(req, r2, SrcPort, DstPort) == r2;
    assert Partner(DstDpid) in req;
  }

  /** The gateway step: a truthy gateway becomes the source switch and in-port of the return route. */
  function ApplyGateway(req: Request, res: Request): (r: Request)
    ensures Get(req, Gateway).PortRef? ==>
              Gateway !in r && SrcDpid in r && InPort in r && r[SrcDpid] == Num(Get(req, Gateway).dpid) && r[InPort] == Num(Get(req, Gateway).port)
    ensures !Get(req, Gateway).PortRef? ==> r == res
  {
    var gw := Get(req, Gateway);
    if TruthyValue(gw) && gw.PortRef? then
      (res[SrcDpid := Num(gw.dpid)][InPort := Num(gw.port)]) - {Gateway}
    else res
  }

  /**
   * `Routing._invertRouteDict` as written: None for no keywords; otherwise the
   * swapped pairs and gateway, and a truthy via replaced by None, because the
   * source stores the result of the in-place `list.reverse()`.
   */
  function InvertRouteDictAsWritten(req: Request, known: set<LinkKey>): Result<Option<Request>>
  {
    if |req| == 0 then Ok(None)
    else
      var res := ApplyGateway(req, SwapPairsAsWritten(req));
      var via := Get(req, Via);
      if TruthyValue(via) && via.Links? then
        match ReverseVia(via.links, known, 0)
        case Err(e) => Err(e)
        case Ok(_) => Ok(Some(res[Via := NoneValue]))
      else Ok(Some(res))
  }

  /** A via the written inversion is given comes back as None. */
  lemma InvertRouteDictAsWrittenDropsVia()
    ensures var l := LinkKey(1, 2, 3, 4);
            var r := InvertRouteDictAsWritten(map[Via := Links([l])], {l.Reverse()});
            r.Ok? && r.value.Some? && r.value.value[Via] == NoneValue
  {
    var l := LinkKey(1, 2, 3, 4);
    ReverseViaComplete([l], {l.Reverse()}, 0);
  }

  /**
   * `Routing._invertRouteDict` as intended: the pairs trade places, the gateway
   * becomes the return route's source, and the via is the reversed list of
   * reverse links.
   */
  function InvertRouteDict(req: Request, known: set<LinkKey>): (r: Result<Option<Request>>)
    ensures |req| == 0 <==> r == Ok(None)
    ensures r.Ok? && r.value.Some? ==> forall k :: k != Gateway && k != SrcDpid && k != InPort && k != Via ==>
              (k in r.value.value <==> Partner(k) in req) && (k in r.value.value ==> r.value.value[k] == req[Partner(k)])
    ensures var via := Get(req, Via);
            r.Ok? && r.value.Some? && TruthyValue(via) && via.Links? ==>
              Via in r.value.value && r.value.value[Via].Links? && |r.value.value[Via].links| <= |via.links|
  {
    if |req| == 0 then Ok(None)
    else
      var res := ApplyGateway(req, Mirror(req));
      var via := Get(req, Via);
      if TruthyValue(via) && via.Links? then
        match ReverseVia(via.links, known, 0)
        case Err(e) => Err(e)
        case Ok(rv) => Ok(Some(res[Via := Links(rv)]))
      else Ok(Some(res))
  }

  /** Inverting a request without gateway and via twice gives the request back. */
  lemma InvertRouteDictInvolution(req: Request, known: set<LinkKey>)
    requires |req| > 0 && Gateway !in req && Via !in req
    ensures InvertRouteDict(req, known).Ok? && InvertRouteDict(req, known).value.Some?
    ensures InvertRouteDict(InvertRouteDict(req, known).value.value, known) == Ok(Some(req))
  {
    var once := Mirror(req);
    assert InvertRouteDict(req, known) == Ok(Some(once));
    var w :| w in req;
    PartnerInvolution(w);
    assert Partner(w) in once;
    assert Gateway !in once && Via !in once;
    assert |once.Keys| > 0;
    assert Get(once, Gateway) == NoneValue && Get(once, Via) == NoneValue;
    assert ApplyGateway(once, Mirror(once)) == Mirror(once);
    MirrorInvolution(req);
  }

  // ------------------------------------------------------------ output resolution

  /** What `_resolveOutputInfo` returns. */
  datatype OutputInfo = OutputInfo(
    outport: int, dstdpid: int, ipProtocol: int,
    srcport: Option<int>, dstport: Option<int>, tos: Option<int>)

  /** Python truthiness of an optional port number. */
  predicate SomeNonZero(p: Option<int>)
  {
    p.Some? && p.value != 0
  }

  /**
   * `Routing._resolveOutputInfo`: the IP protocol, transport ports and TOS of
   * the match, and the egress switch and port, completed from (and checked
   * against) the gateway; None when neither gives them or they disagree.
   */
  function ResolveOutputInfo(dstdpid: Option<int>, outport: Option<int>, protocol: int, req: Request): (r: Option<OutputInfo>)
    ensures var gw := Get(req, Gateway);
            r.Some? && gw.PortRef? ==> r.value.dstdpid == gw.dpid && r.value.outport == gw.port
    ensures !Get(req, Gateway).PortRef? ==>
              (r.Some? <==> dstdpid.Some? && outport.Some?) &&
              (r.Some? ==> r.value.dstdpid == dstdpid.value && r.value.outport == outport.value)
    ensures var gw := Get(req, Gateway);
            gw.PortRef? ==>
              (r.Some? <==> (dstdpid.None? || dstdpid.value == gw.dpid) && (outport.None? || outport.value == gw.port))
    ensures r.Some? ==> (r.value.srcport.Some? || r.value.dstport.Some?) ==>
              protocol == IP_TYPE && r.value.ipProtocol in {TCP_PROTOCOL, UDP_PROTOCOL}
    ensures r.Some? && r.value.tos.Some? ==>
              protocol == IP_TYPE && r.value.ipProtocol == TCP_PROTOCOL &&
              !SomeNonZero(r.value.srcport) && !SomeNonZero(r.value.dstport)
    ensures r.Some? && protocol != IP_TYPE ==> r.value.ipProtocol == 0
  {
    var ipProtocol := if protocol == IP_TYPE then GetNum(req, IpProtocol, 0) else 0;
    var ported := protocol == IP_TYPE && ipProtocol in {TCP_PROTOCOL, UDP_PROTOCOL};
    var srcport := if ported then GetOptNum(req, SrcPort) else None;
    var dstport := if ported then GetOptNum(req, DstPort) else None;
    var tos := if protocol == IP_TYPE && ipProtocol == TCP_PROTOCOL && !SomeNonZero(srcport) && !SomeNonZero(dstport)
               then Some(GetNum(req, Tos, 0)) else None;
    var gw := Get(req, Gateway);
    var ends: Option<(int, int)> :=
      if dstdpid.None? then
        if !gw.PortRef? then None
        else if outport.None? then Some((gw.dpid, gw.port))
        else if outport.value != gw.port then None
        else Some((gw.dpid, outport.value))
      else if outport.None? then
        if !gw.PortRef? then None
        else if dstdpid.value != gw.dpid then None
        else Some((dstdpid.value, gw.port))
      else if gw.PortRef? && (dstdpid.value != gw.dpid || outport.value != gw.port) then None
      else Some((dstdpid.value, outport.value));
    if ends.None? then None
    else Some(OutputInfo(ends.value.1, ends.value.0, ipProtocol, srcport, dstport, tos))
  }

  /** `Routing.createMessage`: the match of every entry of the route. */
  function CreateMatch(protocol: int, srcip: Option<int>, dstip: Option<int>, ipProtocol: int,
                       srcport: Option<int>, dstport: Option<int>, tos: Option<int>): (m: Match)
    ensures DlType in m && m[DlType] == protocol
    ensures NwSrc in m <==> protocol == IP_TYPE && srcip.Some?
    ensures NwDst in m <==> protocol == IP_TYPE && dstip.Some?
    ensures NwProto in m <==> ipProtocol != 0
    ensures NwTos in m <==> tos.Some?
    ensures TpSrc in m <==> SomeNonZero(srcport)
    ensures TpDst in m <==> SomeNonZero(dstport)
  {
    var m0: Match := map[DlType := protocol];
    var m1 := if protocol == IP_TYPE && srcip.Some? then m0[NwSrc := srcip.value] else m0;
    var m2 := if protocol == IP_TYPE && dstip.Some? then m1[NwDst := dstip.value] else m1;
    var m3 := if ipProtocol != 0 then m2[NwProto := ipProtocol] else m2;
    var m4 := if tos.Some? then m3[NwTos := tos.value] else m3;
    var m5 := if SomeNonZero(srcport) then m4[TpSrc := srcport.value] else m4;
    if SomeNonZero(dstport) then m5[TpDst := dstport.value] else m5
  }

  // ------------------------------------------------------------ route entries

  /** One entry per via link, on its source switch, output to its source port; a later link on the same switch wins. */
  function ViaEntries(via: seq<LinkKey>, m: Match): (r: map<int, Entry>)
    ensures forall i :: 0 <= i < |via| ==> via[i].dpid1 in r
    ensures forall sw :: sw in r ==>
              (exists i :: 0 <= i < |via| && via[i].dpid1 == sw && r[sw] == Entry(sw, m, [Output(via[i].port1)], 0))
  {
    if via == [] then map[]
    else
      var last := via[|via| - 1];
      var r := ViaEntries(via[..|via| - 1], m)[last.dpid1 := Entry(last.dpid1, m, [Output(last.port1)], 0)];
      assert forall i :: 0 <= i < |via| - 1 ==> via[..|via| - 1][i] == via[i];
      r
  }

  /** The entry on the last switch: rewrite the destination MAC and output to the host port. */
  function LastHopEntry(dstdpid: int, m: Match, dstmac: int, outport: int): Entry
  {
    Entry(dstdpid, m, [SetDlDst(dstmac), Output(outport)], 0)
  }

  /** The entries `createRoute` stores, as written: the via entries only; the last-hop entry is built and dropped. */
  function RouteEntriesAsWritten(via: seq<LinkKey>, m: Match, dstdpid: int, dstmac: int, outport: int): map<int, Entry>
  {
    ViaEntries(via, m)
  }

  /** As written, a route whose links do not leave the destination switch installs nothing there. */
  lemma RouteEntriesAsWrittenMissLastHop()
    ensures var e := RouteEntriesAsWritten([LinkKey(1, 2, 2, 1)], map[DlType := IP_TYPE], 2, 7, 3);
            2 !in e
  {
    var via := [LinkKey(1, 2, 2, 1)];
    var m: Match := map[DlType := IP_TYPE];
    assert via[..0] == [];
    assert ViaEntries(via, m) == map[1 := Entry(1, m, [Output(2)], 0)];
  }

  /** The entries `createRoute` is meant to store: the via entries plus the last-hop entry on the destination switch. */
  function RouteEntries(via: seq<LinkKey>, m: Match, dstdpid: int, dstmac: int, outport: int): (r: map<int, Entry>)
    ensures dstdpid in r && r[dstdpid].actions == [SetDlDst(dstmac), Output(outport)]
    ensures forall i :: 0 <= i < |via| ==> via[i].dpid1 in r
    ensures forall sw :: sw in r && sw != dstdpid ==>
              (exists i :: 0 <= i < |via| && via[i].dpid1 == sw && r[sw].actions == [Output(via[i].port1)])
    ensures forall sw :: sw in r ==> r[sw].fields == m && r[sw].sw == sw
  {
    ViaEntries(via, m)[dstdpid := LastHopEntry(dstdpid, m, dstmac, outport)]
  }

  /** `_resolveInfo`'s result for one end: the address the path names, host MAC and IP, switch and port. */
  datatype EndInfo = EndInfo(addr: int, mac: int, ip: Option<int>, dpid: Option<int>, port: Option<int>)

  /**
   * `Routing.createRoute`: None when an end cannot be resolved or the output
   * cannot be resolved; otherwise a route over the chosen links with one entry
   * per link plus the last hop. The choice of links is: the `via` keyword, the
   * local link when both ends are on one switch, and the bandwidth-graph path
   * `planned` when neither applies or routes are forced.
   */
  function CreateRoute(src: Option<EndInfo>, dst: Option<EndInfo>, req: Request,
                       localVia: Option<seq<LinkKey>>, planned: seq<LinkKey>, forceRoute: bool): (r: Option<Route>)
    ensures r.Some? ==> src.Some? && dst.Some?
    ensures r.Some? ==> r.value.path == IpPath(src.value.addr, dst.value.addr, GetNum(req, Tos, 0))
    ensures r.Some? && forceRoute ==> r.value.links == planned
    ensures r.Some? ==> forall i :: 0 <= i < |r.value.links| ==> r.value.links[i].dpid1 in r.value.entries
    ensures r.Some? ==>
              var o := ResolveOutputInfo(dst.value.dpid, dst.value.port, GetNum(req, Protocol, IP_TYPE), req);
              o.Some? && o.value.dstdpid in r.value.entries &&
              r.value.entries[o.value.dstdpid].actions == [SetDlDst(dst.value.mac), Output(o.value.outport)]
    ensures r.Some? <==>
              src.Some? && dst.Some? &&
              ResolveOutputInfo(dst.value.dpid, dst.value.port, GetNum(req, Protocol, IP_TYPE), req).Some?
    ensures r.Some? && !forceRoute ==>
              var o := ResolveOutputInfo(dst.value.dpid, dst.value.port, GetNum(req, Protocol, IP_TYPE), req).value;
              var local := src.value.dpid == Some(o.dstdpid);
              (local && localVia.Some? ==> r.value.links == localVia.value) &&
              (!local && Get(req, Via).Links? ==> r.value.links == Get(req, Via).links) &&
              (local && localVia.None? ==> r.value.links == planned) &&
              (!local && !Get(req, Via).Links? ==> r.value.links == planned)
  {
    if src.None? || dst.None? then None
    else
      var protocol := GetNum(req, Protocol, IP_TYPE);
      var out := ResolveOutputInfo(dst.value.dpid, dst.value.port, protocol, req);
      if out.None? then None
      else
        var o := out.value;
        var given := Get(req, Via);
        var via0: Option<seq<LinkKey>> := if given.Links? then Some(given.links) else None;
        var via1 := if src.value.dpid == Some(o.dstdpid) then localVia else via0;
        var via := if via1.None? || forceRoute then planned else via1.value;
        var m := CreateMatch(protocol, src.value.ip, dst.value.ip, o.ipProtocol, o.srcport, o.dstport, o.tos);
        var entries := RouteEntries(via, m, o.dstdpid, dst.value.mac, o.outport);
        var conds := if ConditionsKey in req && req[ConditionsKey].Conds? then Some(req[ConditionsKey].c) else None;
        Some(Route(IpPath(src.value.addr, dst.value.addr, GetNum(req, Tos, 0)), -1, via, entries, conds))
  }
}
