/**
 * LLDP link discovery (`scn/scnDiscovery.py`): the discovery frames sent on
 * every switch port, the parsing of received ones back to the sending
 * switch and port, and the table of discovered links. TLV numbering follows
 * clause 8 of IEEE 802.1AB-2009; the subtypes are those of its Tables 8-2
 * (chassis ID) and 8-3 (port ID).
 */
module Discovery {
  import opened Wrappers
  import opened Strings

  const LldpTtl := 120
  const DomainNameTlv := 123
  const OfcNameTlv := 124
  const GatewayIpTlv := 125
  const GatewayHwAddrTlv := 126

  const EndTlv := 0
  const ChassisIdTlv := 1
  const PortIdTlv := 2
  const TtlTlv := 3
  const SystemDescTlv := 6
  /** Chassis ID subtypes: MAC address, locally assigned. */
  const ChassisSubMac := 4
  const ChassisSubLocal := 7
  /** Port ID subtype: port component. */
  const PortSubPort := 2

  /** `of.OFPP_MAX`: the highest physical port number. */
  const OfppMax := 0xff00
  const LldpType := 0x88cc
  /** `NDP_MULTICAST`, 01:23:20:00:00:01, the destination of every discovery frame. */
  const NdpMulticast := 0x0123_2000_0001

  // ---------------------------------------------------------------------
  // Digits

  /** The value of a hexadecimal digit of either case. */
  function DigitValue(c: char): (r: Option<nat>)
    ensures r.Some? ==> r.value < 16
    ensures r.Some? && r.value < 10 <==> '0' <= c <= '9'
  {
    if '0' <= c <= '9' then Some(c as int - '0' as int)
    else if 'a' <= c <= 'f' then Some(c as int - 'a' as int + 10)
    else if 'A' <= c <= 'F' then Some(c as int - 'A' as int + 10)
    else None
  }

  predicate IsDigitIn(c: char, base: nat)
  {
    DigitValue(c).Some? && DigitValue(c).value < base
  }

  /** `str(n)` for base 10 and `hex(long(n))[2:-1]` for base 16: digits only, no prefix, no suffix. */
  function ToBase(n: nat, base: nat): (r: string)
    requires 2 <= base <= 16
    ensures |r| >= 1
    ensures forall i :: 0 <= i < |r| ==> IsDigitIn(r[i], base) && r[i] != '\n'
    decreases n
  {
    if n < base then [DigitChar(n)]
    else
      QuotientBelow(n, base);
      ToBase(n / base, base) + [DigitChar(n % base)]
  }

  lemma QuotientBelow(n: nat, base: nat)
    requires 2 <= base <= n
    ensures n / base < n && n % base < base
  {
  }

  /** The value of a string of digits. */
  function FromBase(s: string, base: nat): nat
    requires 2 <= base <= 16
    requires forall i :: 0 <= i < |s| ==> IsDigitIn(s[i], base)
  {
    if s == [] then 0
    else
      var init := s[..|s| - 1];
      assert IsDigitIn(s[|s| - 1], base);
      assert forall i :: 0 <= i < |init| ==> init[i] == s[i];
      var high := FromBase(init, base);
      ProductOfNats(high, base);
      high * base + DigitValue(s[|s| - 1]).value
  }

  lemma ProductOfNats(a: nat, b: nat)
    ensures a * b >= 0
  {
  }

  /** `int(s, base)` on a bare string of digits; for base 10 a value exactly when `s.isdigit()`. */
  function ParseBase(s: string, base: nat): (r: Option<nat>)
    requires 2 <= base <= 16
    ensures r.Some? <==> |s| > 0 && forall i :: 0 <= i < |s| ==> IsDigitIn(s[i], base)
  {
    if |s| > 0 && forall i :: 0 <= i < |s| ==> IsDigitIn(s[i], base) then Some(FromBase(s, base)) else None
  }

  /** `int(s, 16)` without its sign: the digits after an optional `0x` or `0X` prefix. */
  function HexDigits(t: string): string
  {
    if |t| >= 2 && t[0] == '0' && (t[1] == 'x' || t[1] == 'X') then t[2..] else t
  }

  /** `s` starts with a sign character. */
  predicate Signed(s: string)
  {
    |s| > 0 && (s[0] == '+' || s[0] == '-')
  }

  /**
   * Python 2's `int(s, 16)`: an optional sign, an optional `0x` or `0X`
   * prefix, then at least one hexadecimal digit of either case.
   */
  function ParseHex(s: string): (r: Option<int>)
    ensures ParseBase(s, 16).Some? ==> r == Some(ParseBase(s, 16).value)
    ensures r.Some? <==> ParseBase(HexDigits(if Signed(s) then s[1..] else s), 16).Some?
    ensures r.Some? && !(Signed(s) && s[0] == '-') ==> r.value >= 0
  {
    var t := if Signed(s) then s[1..] else s;
    match ParseBase(HexDigits(t), 16)
    case None => None
    case Some(n) => Some(if Signed(s) && s[0] == '-' then 0 - n as int else n as int)
  }

  /** Bare hexadecimal digits carry neither a sign nor a `0x` prefix. */
  lemma BareHexDigits(digits: string)
    requires ParseBase(digits, 16).Some?
    ensures !Signed(digits) && HexDigits(digits) == digits
  {
    assert IsDigitIn(digits[0], 16);
    if |digits| >= 2 {
      assert IsDigitIn(digits[1], 16);
    }
  }

  /** `int(s, 16)` accepts a `0x` or `0X` prefix in front of the digits. */
  lemma ParseHexPrefixed(digits: string, x: char)
    requires ParseBase(digits, 16).Some? && (x == 'x' || x == 'X')
    ensures ParseHex(['0', x] + digits) == Some(ParseBase(digits, 16).value as int)
  {
    BareHexDigits(digits);
    var hex := ['0', x] + digits;
    assert hex[2..] == digits;
    assert !Signed(hex) && HexDigits(hex) == digits;
  }

  /** `int(s, 16)` accepts a leading `+`. */
  lemma ParseHexPlus(digits: string)
    requires ParseBase(digits, 16).Some?
    ensures ParseHex("+" + digits) == Some(ParseBase(digits, 16).value as int)
  {
    BareHexDigits(digits);
    assert ("+" + digits)[1..] == digits;
  }

  /** `int(s, 16)` accepts a leading `-` before the `0x` prefix and negates. */
  lemma ParseHexMinus(digits: string)
    requires ParseBase(digits, 16).Some?
    ensures ParseHex("-0x" + digits) == Some(0 - ParseBase(digits, 16).value as int)
  {
    BareHexDigits(digits);
    var hex := "0x" + digits;
    assert hex[2..] == digits;
    assert !Signed(hex) && HexDigits(hex) == digits;
    assert "-0x" + digits == "-" + hex;
    assert ("-" + hex)[1..] == hex;
  }

  /** A bare prefix or sign is not a number. */
  lemma ParseHexNeedsDigits()
    ensures ParseHex("0x") == None && ParseHex("-") == None && ParseHex("") == None
  {
    assert "0x"[2..] == "";
    assert "-"[1..] == "";
  }

  lemma {:induction false} FromToBase(n: nat, base: nat)
    requires base == 10 || base == 16
    ensures FromBase(ToBase(n, base), base) == n
    decreases n
  {
    var r := ToBase(n, base);
    if n >= base {
      var t := ToBase(n / base, base);
      var c := DigitChar(n % base);
      assert r == t + [c];
      FromBaseSnoc(t, c, base);
      DivMod(n, base);
      FromToBase(n / base, base);
    } else {
      assert r[..|r| - 1] == [];
    }
  }

  /** Division by a digit base, for the two bases in use. */
  lemma DivMod(n: nat, base: nat)
    requires base == 10 || base == 16
    requires n >= base
    ensures 0 <= n / base < n && n == n / base * base + n % base
  {
    if base == 10 {
      assert n == n / 10 * 10 + n % 10;
    } else {
      assert n == n / 16 * 16 + n % 16;
    }
  }

  lemma FromBaseSnoc(t: string, c: char, base: nat)
    requires 2 <= base <= 16
    requires forall i :: 0 <= i < |t| ==> IsDigitIn(t[i], base)
    requires IsDigitIn(c, base)
    ensures FromBase(t + [c], base) == FromBase(t, base) * base + DigitValue(c).value
  {
    assert (t + [c])[..|t|] == t;
  }

  /** Printing a number and parsing it back gives the number. */
  lemma ParseToBase(n: nat, base: nat)
    requires base == 10 || base == 16
    ensures ParseBase(ToBase(n, base), base) == Some(n)
  {
    FromToBase(n, base);
  }

  /** `struct.unpack('!Q' / '!H', s)`: the big-endian value of the bytes. */
  function BigEndian(s: string): nat
  {
    if s == [] then 0 else BigEndian(s[..|s| - 1]) * 256 + s[|s| - 1] as int
  }

  // ---------------------------------------------------------------------
  // Building

  /** The LLDP TLVs this controller uses, as POX parses them. */
  datatype Tlv =
    | ChassisId(subtype: int, id: string)
    | PortId(subtype: int, id: string)
    | Ttl(ttl: int)
    | SystemDesc(text: string)
    | Basic(typ: int, data: string)
    | End

  function TlvType(t: Tlv): int
  {
    match t
    case ChassisId(_, _) => ChassisIdTlv
    case PortId(_, _) => PortIdTlv
    case Ttl(_) => TtlTlv
    case SystemDesc(_) => SystemDescTlv
    case Basic(typ, _) => typ
    case End => EndTlv
  }

  /** `InterDomainGateway`: the optional domain information advertised in every frame. */
  datatype Gateway = Gateway(domainName: Option<string>, ofcName: Option<string>, ipAddr: Option<string>, hwAddr: Option<string>)

  function OptionalTlv(typ: int, v: Option<string>): seq<Tlv>
  {
    if v.Some? then [Basic(typ, v.value)] else []
  }

  /** `addInterdomainInfo`: TLVs 123 to 126, in that order, each only for a field that is set. */
  function InterdomainTlvs(g: Gateway): (r: seq<Tlv>)
    ensures forall i :: 0 <= i < |r| ==> r[i].Basic? && DomainNameTlv <= r[i].typ <= GatewayHwAddrTlv
    ensures forall i, j :: 0 <= i < j < |r| ==> r[i].typ < r[j].typ
  {
    OptionalTlv(DomainNameTlv, g.domainName) + (OptionalTlv(OfcNameTlv, g.ofcName) +
      (OptionalTlv(GatewayIpTlv, g.ipAddr) + OptionalTlv(GatewayHwAddrTlv, g.hwAddr)))
  }

  /** No TLV of type `typ` among `tlvs`. */
  predicate NoType(tlvs: seq<Tlv>, typ: int)
  {
    forall i :: 0 <= i < |tlvs| ==> TlvType(tlvs[i]) != typ
  }

  lemma NoTypeConcat(x: seq<Tlv>, y: seq<Tlv>, typ: int)
    requires NoType(x, typ) && NoType(y, typ)
    ensures NoType(x + y, typ)
  {
    assert forall i :: 0 <= i < |x + y| ==> (x + y)[i] == if i < |x| then x[i] else y[i - |x|];
  }

  /** Each gateway field is found under its own TLV type. */
  lemma InterdomainLookup(g: Gateway)
    ensures LookInType(InterdomainTlvs(g), DomainNameTlv) == g.domainName
    ensures LookInType(InterdomainTlvs(g), OfcNameTlv) == g.ofcName
    ensures LookInType(InterdomainTlvs(g), GatewayIpTlv) == g.ipAddr
    ensures LookInType(InterdomainTlvs(g), GatewayHwAddrTlv) == g.hwAddr
  {
    var a := OptionalTlv(DomainNameTlv, g.domainName);
    var b := OptionalTlv(OfcNameTlv, g.ofcName);
    var c := OptionalTlv(GatewayIpTlv, g.ipAddr);
    var d := OptionalTlv(GatewayHwAddrTlv, g.hwAddr);
    assert InterdomainTlvs(g) == a + (b + (c + d));
    NoTypeConcat(c, d, DomainNameTlv);
    NoTypeConcat(b, c + d, DomainNameTlv);
    LookInFirst(a, b + (c + d), DomainNameTlv, g.domainName);
    NoTypeConcat(c, d, OfcNameTlv);
    LookInSkip(a, b + (c + d), OfcNameTlv);
    LookInFirst(b, c + d, OfcNameTlv, g.ofcName);
    LookInSkip(a, b + (c + d), GatewayIpTlv);
    LookInSkip(b, c + d, GatewayIpTlv);
    LookInFirst(c, d, GatewayIpTlv, g.ipAddr);
    LookInSkip(a, b + (c + d), GatewayHwAddrTlv);
    LookInSkip(b, c + d, GatewayHwAddrTlv);
    LookInSkip(c, d, GatewayHwAddrTlv);
    LookInFirst(d, [], GatewayHwAddrTlv, g.hwAddr);
    assert d + [] == d;
  }

  /** An optional TLV is found when present; otherwise the search goes on behind it. */
  lemma LookInFirst(front: seq<Tlv>, rest: seq<Tlv>, typ: int, v: Option<string>)
    requires front == OptionalTlv(typ, v)
    requires NoType(rest, typ)
    ensures LookInType(front + rest, typ) == v
  {
    if v.Some? {
      assert (front + rest)[0] == Basic(typ, v.value);
    } else {
      assert front + rest == rest;
      LookInSkip(rest, [], typ);
      assert rest + [] == rest;
    }
  }

  /** The text in the chassis ID and the system description: `dpid:` and the dpid in lower-case hex. */
  function DpidText(dpid: nat): (r: string)
    ensures |r| > 5 && r[..5] == "dpid:"
    ensures forall i :: 5 <= i < |r| ==> IsDigitIn(r[i], 16)
  {
    "dpid:" + ToBase(dpid, 16)
  }

  /** The TLVs of a discovery frame: chassis ID, port ID, TTL, system description, the gateway's TLVs, End. */
  function DiscoveryTlvs(dpid: nat, portNum: nat, g: Gateway): (r: seq<Tlv>)
    ensures |r| == 5 + |InterdomainTlvs(g)|
    ensures TlvType(r[0]) == ChassisIdTlv && TlvType(r[1]) == PortIdTlv && TlvType(r[2]) == TtlTlv
    ensures TlvType(r[3]) == SystemDescTlv && r[|r| - 1] == End && r[2] == Ttl(LldpTtl)
    ensures r[4..|r| - 1] == InterdomainTlvs(g)
  {
    [ChassisId(ChassisSubLocal, DpidText(dpid)), PortId(PortSubPort, ToBase(portNum, 10)), Ttl(LldpTtl), SystemDesc(DpidText(dpid))]
      + InterdomainTlvs(g) + [End]
  }

  /** An Ethernet frame; `lldp` is the parsed LLDP payload, if any. */
  datatype Frame = Frame(src: int, dst: int, typ: int, lldp: Option<seq<Tlv>>)

  /** An OpenFlow packet-out: the frame and the port to send it on. */
  datatype PacketOut = PacketOut(outPort: int, frame: Frame)

  /** `create_discovery_packet`: the LLDP frame from the port's address to `NDP_MULTICAST`, sent on the port. */
  function DiscoveryPacket(dpid: nat, portNum: nat, portAddr: int, g: Gateway): (r: PacketOut)
    ensures r.outPort == portNum && r.frame.src == portAddr && r.frame.dst == NdpMulticast && r.frame.typ == LldpType
    ensures r.frame.lldp == Some(DiscoveryTlvs(dpid, portNum, g))
  {
    PacketOut(portNum, Frame(portAddr, NdpMulticast, LldpType, Some(DiscoveryTlvs(dpid, portNum, g))))
  }

  // ---------------------------------------------------------------------
  // Receiving

  /** The first of `lines` that is `dpid:` and hex digits. */
  function DpidFromLines(lines: seq<string>): (r: Option<int>)
    ensures r.Some? ==> exists i :: 0 <= i < |lines| && |lines[i]| > 5 && lines[i][..5] == "dpid:" && ParseHex(lines[i][5..]) == r
  {
    if lines == [] then None
    else if |lines[0]| >= 5 && lines[0][..5] == "dpid:" && ParseHex(lines[0][5..]).Some? then ParseHex(lines[0][5..])
    else
      var r := DpidFromLines(lines[1..]);
      assert r.Some? ==> exists i :: 1 <= i < |lines| && |lines[i]| > 5 && lines[i][..5] == "dpid:" && ParseHex(lines[i][5..]) == r by {
        if r.Some? {
          var i :| 0 <= i < |lines[1..]| && |lines[1..][i]| > 5 && lines[1..][i][..5] == "dpid:" && ParseHex(lines[1..][i][5..]) == r;
          assert lines[i + 1] == lines[1..][i];
        }
      }
      r
  }

  /** One system description: a `dpid:` line, else an 8-byte value, else nothing. */
  function DpidFromSysDesc(text: string): (r: Option<int>)
    ensures DpidFromLines(SplitOn(text, "\n")).Some? ==> r == DpidFromLines(SplitOn(text, "\n"))
    ensures DpidFromLines(SplitOn(text, "\n")).None? ==> r.Some? == (|text| == 8)
  {
    var fromLines := DpidFromLines(SplitOn(text, "\n"));
    if fromLines.Some? then fromLines
    else if |text| == 8 then Some(BigEndian(text))
    else None
  }

  /** `lookInSysDesc` over the TLVs after the first three: only the first system description is read. */
  function LookInSysDesc(tlvs: seq<Tlv>): (r: Option<int>)
    ensures (forall i :: 0 <= i < |tlvs| ==> !tlvs[i].SystemDesc?) ==> r.None?
  {
    if tlvs == [] then None
    else if tlvs[0].SystemDesc? then DpidFromSysDesc(tlvs[0].text)
    else LookInSysDesc(tlvs[1..])
  }

  /** A chassis ID that is `dpid:` and hex digits, locally assigned. */
  function DpidFromChassisText(c: Tlv): Option<int>
    requires c.ChassisId?
  {
    if c.subtype == ChassisSubLocal && |c.id| >= 5 && c.id[..5] == "dpid:" then ParseHex(c.id[5..]) else None
  }

  /**
   * The originator's dpid, from the first source that yields one: the
   * system description, a local `dpid:` chassis ID, a 6-byte MAC chassis ID.
   */
  function OriginatorDpid(tlvs: seq<Tlv>): (r: Option<int>)
    requires |tlvs| >= 3 && tlvs[0].ChassisId?
    ensures LookInSysDesc(tlvs[3..]).Some? ==> r == LookInSysDesc(tlvs[3..])
    ensures LookInSysDesc(tlvs[3..]).None? && DpidFromChassisText(tlvs[0]).Some? ==> r == DpidFromChassisText(tlvs[0])
    ensures r.Some? ==> (LookInSysDesc(tlvs[3..]).Some? || DpidFromChassisText(tlvs[0]).Some? ||
                         (tlvs[0].subtype == ChassisSubMac && |tlvs[0].id| == 6 && r.value == BigEndian(tlvs[0].id)))
  {
    var fromDesc := LookInSysDesc(tlvs[3..]);
    if fromDesc.Some? then fromDesc
    else
      var fromLocal := DpidFromChassisText(tlvs[0]);
      if fromLocal.Some? then fromLocal
      else if tlvs[0].subtype == ChassisSubMac && |tlvs[0].id| == 6 then Some(BigEndian(tlvs[0].id))
      else None
  }

  /** The originator's port: decimal digits, else a 2-byte value; only with the port-component subtype. */
  function OriginatorPort(p: Tlv): (r: Option<nat>)
    requires p.PortId?
    ensures r.Some? ==> p.subtype == PortSubPort
    ensures p.subtype == PortSubPort && ParseBase(p.id, 10).Some? ==> r == ParseBase(p.id, 10)
    ensures p.subtype == PortSubPort && ParseBase(p.id, 10).None? ==> (r.Some? <==> |p.id| == 2)
  {
    if p.subtype != PortSubPort then None
    else if ParseBase(p.id, 10).Some? then ParseBase(p.id, 10)
    else if |p.id| == 2 then Some(BigEndian(p.id))
    else None
  }

  /** A received frame's first three TLVs are chassis ID, port ID and TTL, as clause 8.2 requires. */
  predicate Mandatory(tlvs: seq<Tlv>)
  {
    |tlvs| >= 3 && tlvs[0].ChassisId? && tlvs[1].PortId? && tlvs[2].Ttl?
  }

  /**
   * `_handle_PacketIn` up to `setLink`: the two ends of the link a frame
   * received on `(eventDpid, eventPort)` reveals, or nothing when the frame
   * is not a well-formed discovery frame from another port of a connected switch.
   */
  function ReceiveLldp(f: Frame, dps: set<int>, eventDpid: int, eventPort: int): (r: Option<((int, int), (int, int))>)
    ensures r.Some? ==> f.typ == LldpType && f.dst == NdpMulticast && f.lldp.Some? && Mandatory(f.lldp.value)
    ensures r.Some? ==> OriginatorDpid(f.lldp.value) == Some(r.value.1.0) && r.value.1.0 in dps
    ensures r.Some? ==> OriginatorPort(f.lldp.value[1]) == Some(r.value.1.1)
    ensures r.Some? ==> r.value.0 == (eventDpid, eventPort) && r.value.0 != r.value.1
  {
    if f.typ != LldpType || f.dst != NdpMulticast || f.lldp.None? then None
    else
      var tlvs := f.lldp.value;
      if !Mandatory(tlvs) then None
      else
        var dpid := OriginatorDpid(tlvs);
        if dpid.None? || dpid.value !in dps then None
        else
          var port := OriginatorPort(tlvs[1]);
          if port.None? then None
          else if (eventDpid, eventPort) == (dpid.value, port.value) then None
          else Some(((eventDpid, eventPort), (dpid.value, port.value)))
  }

  lemma NoNewline(s: string)
    requires forall i :: 0 <= i < |s| ==> s[i] != '\n'
    ensures !Contains(s, "\n")
  {
    forall i | 0 <= i <= |s|
      ensures !OccursAt(s, "\n", i)
    {
      if i + 1 <= |s| {
        assert s[i..i + 1][0] == s[i];
      }
    }
  }

  /**
   * A discovery frame this controller built for `(dpid, portNum)`, received
   * on another port, reveals the link from that port to `(dpid, portNum)`;
   * received on the port it left, it is the loop that is dropped.
   */
  lemma ReceiveOwnPacket(dpid: nat, portNum: nat, portAddr: int, g: Gateway, dps: set<int>, eventDpid: int, eventPort: int)
    requires dpid in dps
    ensures ReceiveLldp(DiscoveryPacket(dpid, portNum, portAddr, g).frame, dps, eventDpid, eventPort) ==
      if (eventDpid, eventPort) == (dpid, portNum) then None else Some(((eventDpid, eventPort), (dpid, portNum)))
  {
    var tlvs := DiscoveryTlvs(dpid, portNum, g);
    assert tlvs[3..][0] == SystemDesc(DpidText(dpid));
    OwnSysDesc(dpid);
    assert OriginatorDpid(tlvs) == Some(dpid);
    ParseToBase(portNum, 10);
    assert OriginatorPort(tlvs[1]) == Some(portNum);
  }

  /** The system description this controller writes gives back its dpid. */
  lemma OwnSysDesc(dpid: nat)
    ensures DpidFromSysDesc(DpidText(dpid)) == Some(dpid)
  {
    var text := DpidText(dpid);
    NoNewline(text);
    SplitWithout(text, "\n");
    assert text[5..] == ToBase(dpid, 16);
    ParseToBase(dpid, 16);
    assert DpidFromLines([text]) == Some(dpid);
  }

  /** The data of the first basic TLV of type `typ`. */
  function LookInType(tlvs: seq<Tlv>, typ: int): (r: Option<string>)
    ensures r.Some? ==> Basic(typ, r.value) in tlvs
  {
    if tlvs == [] then None
    else if tlvs[0].Basic? && tlvs[0].typ == typ then Some(tlvs[0].data)
    else LookInType(tlvs[1..], typ)
  }

  /** TLVs of other types in front do not change what is found. */
  lemma {:induction false} LookInSkip(front: seq<Tlv>, rest: seq<Tlv>, typ: int)
    requires NoType(front, typ)
    ensures LookInType(front + rest, typ) == LookInType(rest, typ)
  {
    if front != [] {
      assert (front + rest)[0] == front[0] && TlvType(front[0]) != typ;
      assert (front + rest)[1..] == front[1..] + rest;
      assert LookInType(front + rest, typ) == LookInType((front + rest)[1..], typ);
      assert forall i :: 0 <= i < |front[1..]| ==> front[1..][i] == front[i + 1];
      LookInSkip(front[1..], rest, typ);
    } else {
      assert front + rest == rest;
    }
  }

  /** `lookInOriginatorGateway`: the gateway advertised after the first three TLVs. */
  function LookInOriginatorGateway(tlvs: seq<Tlv>): Gateway
    requires |tlvs| >= 3
  {
    var rest := tlvs[3..];
    Gateway(LookInType(rest, DomainNameTlv), LookInType(rest, OfcNameTlv), LookInType(rest, GatewayIpTlv), LookInType(rest, GatewayHwAddrTlv))
  }

  /** The gateway a discovery frame advertises is read back unchanged. */
  lemma GatewayRoundTrip(dpid: nat, portNum: nat, g: Gateway)
    ensures LookInOriginatorGateway(DiscoveryTlvs(dpid, portNum, g)) == g
  {
    var tlvs := DiscoveryTlvs(dpid, portNum, g);
    var r := InterdomainTlvs(g);
    assert tlvs[3..] == [SystemDesc(DpidText(dpid))] + (r + [End]);
    InterdomainLookup(g);
    forall typ | DomainNameTlv <= typ <= GatewayHwAddrTlv
      ensures LookInType(tlvs[3..], typ) == LookInType(r, typ)
    {
      LookInSkip([SystemDesc(DpidText(dpid))], r + [End], typ);
      LookInAppend(r, [End], typ);
    }
  }

  /** TLVs of other types behind do not change what is found either. */
  lemma {:induction false} LookInAppend(front: seq<Tlv>, back: seq<Tlv>, typ: int)
    requires NoType(back, typ)
    ensures LookInType(front + back, typ) == LookInType(front, typ)
  {
    if front == [] {
      LookInSkip(back, [], typ);
      assert back + [] == back;
    } else {
      assert (front + back)[1..] == front[1..] + back;
      LookInAppend(front[1..], back, typ);
    }
  }

  // ---------------------------------------------------------------------
  // The sender's packet list

  /** `SendItem`: a discovery packet to send on one port. */
  datatype SendItem = SendItem(dpid: nat, portNum: nat, packet: PacketOut)

  /** The packet queued for one `(portNum, portAddr)` of switch `dpid`. */
  function ItemOf(dpid: nat, port: (nat, int), g: Gateway): SendItem
  {
    SendItem(dpid, port.0, DiscoveryPacket(dpid, port.0, port.1, g))
  }

  /** The items of every physical port among `ports`, in order. */
  function ItemsFor(dpid: nat, ports: seq<(nat, int)>, g: Gateway): seq<SendItem>
  {
    if ports == [] then []
    else ItemsFor(dpid, ports[..|ports| - 1], g) + (if ports[|ports| - 1].0 > OfppMax then [] else [ItemOf(dpid, ports[|ports| - 1], g)])
  }

  /** `x` is the item of one of the physical ports in `ports`. */
  ghost predicate ItemOfSomePort(dpid: nat, ports: seq<(nat, int)>, g: Gateway, x: SendItem)
  {
    exists j :: 0 <= j < |ports| && ports[j].0 <= OfppMax && x == ItemOf(dpid, ports[j], g)
  }

  /** An item is queued for a switch exactly for each of its physical ports. */
  lemma ItemsForMembers(dpid: nat, ports: seq<(nat, int)>, g: Gateway, x: SendItem)
    ensures x in ItemsFor(dpid, ports, g) <==> exists j :: 0 <= j < |ports| && ports[j].0 <= OfppMax && x == ItemOf(dpid, ports[j], g)
  {
    if x in ItemsFor(dpid, ports, g) {
      ItemsForSound(dpid, ports, g, x);
    }
    if ItemOfSomePort(dpid, ports, g, x) {
      var j :| 0 <= j < |ports| && ports[j].0 <= OfppMax && x == ItemOf(dpid, ports[j], g);
      ItemsForComplete(dpid, ports, g, j);
    }
  }

  lemma {:induction false} ItemsForSound(dpid: nat, ports: seq<(nat, int)>, g: Gateway, x: SendItem)
    requires x in ItemsFor(dpid, ports, g)
    ensures ItemOfSomePort(dpid, ports, g, x)
  {
    var init, last := ports[..|ports| - 1], ports[|ports| - 1];
    if x in ItemsFor(dpid, init, g) {
      ItemsForSound(dpid, init, g, x);
      var j :| 0 <= j < |init| && init[j].0 <= OfppMax && x == ItemOf(dpid, init[j], g);
      assert ports[j] == init[j];
    } else {
      assert last.0 <= OfppMax && x == ItemOf(dpid, last, g);
    }
  }

  lemma {:induction false} ItemsForComplete(dpid: nat, ports: seq<(nat, int)>, g: Gateway, j: nat)
    requires j < |ports| && ports[j].0 <= OfppMax
    ensures ItemOf(dpid, ports[j], g) in ItemsFor(dpid, ports, g)
  {
    var init := ports[..|ports| - 1];
    if j < |init| {
      ItemsForComplete(dpid, init, g, j);
      assert init[j] == ports[j];
    }
  }

  /** The items of other switches. */
  function DropSwitch(items: seq<SendItem>, dpid: nat): (r: seq<SendItem>)
    ensures forall x :: x in r <==> x in items && x.dpid != dpid
  {
    if items == [] then []
    else (if items[0].dpid != dpid then [items[0]] else []) + DropSwitch(items[1..], dpid)
  }

  /** `delPort`: the items of every other port. */
  function DropPort(items: seq<SendItem>, dpid: nat, portNum: nat): (r: seq<SendItem>)
    ensures forall x :: x in r <==> x in items && (x.dpid, x.portNum) != (dpid, portNum)
  {
    if items == [] then []
    else (if (items[0].dpid, items[0].portNum) != (dpid, portNum) then [items[0]] else []) + DropPort(items[1..], dpid, portNum)
  }

  /** How many queued items are for one port. */
  function CountFor(items: seq<SendItem>, dpid: nat, portNum: nat): nat
  {
    if items == [] then 0
    else (if (items[0].dpid, items[0].portNum) == (dpid, portNum) then 1 else 0) + CountFor(items[1..], dpid, portNum)
  }

  lemma {:induction false} CountForAppend(a: seq<SendItem>, b: seq<SendItem>, dpid: nat, portNum: nat)
    ensures CountFor(a + b, dpid, portNum) == CountFor(a, dpid, portNum) + CountFor(b, dpid, portNum)
  {
    if a != [] {
      assert (a + b)[0] == a[0];
      assert (a + b)[1..] == a[1..] + b;
      CountForAppend(a[1..], b, dpid, portNum);
    } else {
      assert a + b == b;
    }
  }

  lemma {:induction false} CountForAbsent(items: seq<SendItem>, dpid: nat, portNum: nat)
    requires forall x :: x in items ==> (x.dpid, x.portNum) != (dpid, portNum)
    ensures CountFor(items, dpid, portNum) == 0
  {
    if items != [] {
      assert items[0] in items;
      CountForAbsent(items[1..], dpid, portNum);
    }
  }

  /** After `addPort` the port has exactly one packet queued. */
  lemma AddPortReplaces(items: seq<SendItem>, item: SendItem)
    ensures CountFor(DropPort(items, item.dpid, item.portNum) + [item], item.dpid, item.portNum) == 1
  {
    CountForAbsent(DropPort(items, item.dpid, item.portNum), item.dpid, item.portNum);
    CountForAppend(DropPort(items, item.dpid, item.portNum), [item], item.dpid, item.portNum);
  }

  /** `ScnLLDPSender`: the discovery packets to send, one per switch port. */
  class LldpSender {
    var packets: seq<SendItem>
    const gateway: Gateway

    constructor(gateway: Gateway)
      ensures packets == [] && this.gateway == gateway
    {
      packets := [];
      this.gateway := gateway;
    }

    /** `addSwitch`: forget the switch's packets, then queue one per physical port. */
    method AddSwitch(dpid: nat, ports: seq<(nat, int)>)
      modifies this`packets
      ensures packets == DropSwitch(old(packets), dpid) + ItemsFor(dpid, ports, gateway)
    {
      packets := DropSwitch(packets, dpid);
      ghost var kept := packets;
      for i := 0 to |ports|
        invariant packets == kept + ItemsFor(dpid, ports[..i], gateway)
      {
        assert ports[..i + 1][..i] == ports[..i];
        assert ports[..i + 1][i] == ports[i];
        if ports[i].0 <= OfppMax {
          packets := packets + [ItemOf(dpid, ports[i], gateway)];
        }
      }
      assert ports[..|ports|] == ports;
    }

    /** `addPort`: replace the port's packet, unless the port is not physical. */
    method AddPort(dpid: nat, portNum: nat, portAddr: int)
      modifies this`packets
      ensures portNum > OfppMax ==> packets == old(packets)
      ensures portNum <= OfppMax ==>
        packets == DropPort(old(packets), dpid, portNum) + [SendItem(dpid, portNum, DiscoveryPacket(dpid, portNum, portAddr, gateway))]
    {
      if portNum > OfppMax {
        return;
      }
      packets := DropPort(packets, dpid, portNum) + [SendItem(dpid, portNum, DiscoveryPacket(dpid, portNum, portAddr, gateway))];
    }
  }

  // ---------------------------------------------------------------------
  // The link table

  /** A link between two switch ports, each `(dpid, port)`. */
  datatype Link = Link(src: (int, int), dst: (int, int))

  /** `ScnDiscovery`: the connected switches and the links with the time each was last seen. */
  class ScnDiscovery {
    /** `_dps`, kept by the connection handlers of the base class. */
    var dps: set<int>
    var adjacency: map<Link, int>
    /** The `LinkEvent`s raised, in order. */
    ghost var linkEvents: seq<Link>

    /** Every link was announced once, and it is still in the table. */
    ghost predicate Valid()
      reads this
    {
      (forall i, j :: 0 <= i < j < |linkEvents| ==> linkEvents[i] != linkEvents[j]) &&
      (forall i :: 0 <= i < |linkEvents| ==> linkEvents[i] in adjacency) &&
      (forall l :: l in adjacency ==> l in linkEvents)
    }

    constructor(dps: set<int>)
      ensures Valid() && this.dps == dps && adjacency == map[] && linkEvents == []
    {
      this.dps := dps;
      adjacency := map[];
      linkEvents := [];
    }

    /** `getLink`: a link with these ends, if one is known. */
    method GetLink(src: (int, int), dst: (int, int)) returns (r: Option<Link>)
      ensures r.Some? <==> Link(src, dst) in adjacency
      ensures r.Some? ==> r.value == Link(src, dst)
    {
      var keys := adjacency.Keys;
      while keys != {}
        invariant keys <= adjacency.Keys
        invariant Link(src, dst) in adjacency ==> Link(src, dst) in keys
        decreases keys
      {
        var l :| l in keys;
        if l.src == src && l.dst == dst {
          return Some(l);
        }
        keys := keys - {l};
      }
      return None;
    }

    /** `getLinkByDpid`: some link from switch `srcDpid` to switch `dstDpid`, if there is one. */
    method GetLinkByDpid(srcDpid: int, dstDpid: int) returns (r: Option<Link>)
      ensures r.Some? ==> r.value in adjacency && r.value.src.0 == srcDpid && r.value.dst.0 == dstDpid
      ensures r.None? ==> forall l :: l in adjacency ==> !(l.src.0 == srcDpid && l.dst.0 == dstDpid)
    {
      var keys := adjacency.Keys;
      while keys != {}
        invariant keys <= adjacency.Keys
        invariant forall l :: l in adjacency && l !in keys ==> !(l.src.0 == srcDpid && l.dst.0 == dstDpid)
        decreases keys
      {
        var l :| l in keys;
        if l.src.0 == srcDpid && l.dst.0 == dstDpid {
          return Some(l);
        }
        keys := keys - {l};
      }
      return None;
    }

    /**
     * `setLink`: when the topology knows both ports, announce the link if
     * it is new and stamp it with the current time.
     */
    method SetLink(ofps: set<(int, int)>, a: (int, int), b: (int, int), now: int)
      requires Valid()
      modifies this`adjacency, this`linkEvents
      ensures Valid()
      ensures a in ofps && b in ofps ==>
        adjacency == old(adjacency)[Link(a, b) := now] &&
        linkEvents == old(linkEvents) + (if Link(a, b) in old(adjacency) then [] else [Link(a, b)])
      ensures !(a in ofps && b in ofps) ==> adjacency == old(adjacency) && linkEvents == old(linkEvents)
    {
      if a in ofps && b in ofps {
        var link := GetLink(a, b);
        if link.None? {
          linkEvents := linkEvents + [Link(a, b)];
        }
        adjacency := adjacency[Link(a, b) := now];
      }
    }

    /** `_handle_PacketIn`: record the link a discovery frame reveals; the event halts only then. */
    method HandlePacketIn(f: Frame, ofps: set<(int, int)>, eventDpid: int, eventPort: int, now: int) returns (halt: bool)
      requires Valid()
      modifies this`adjacency, this`linkEvents
      ensures Valid()
      ensures var r := ReceiveLldp(f, dps, eventDpid, eventPort);
        halt == r.Some? &&
        (r.None? ==> adjacency == old(adjacency) && linkEvents == old(linkEvents)) &&
        (r.Some? && r.value.0 in ofps && r.value.1 in ofps ==>
           var link := Link(r.value.0, r.value.1);
           adjacency == old(adjacency)[link := now] &&
           linkEvents == old(linkEvents) + (if link in old(adjacency) then [] else [link])) &&
        (r.Some? && !(r.value.0 in ofps && r.value.1 in ofps) ==> adjacency == old(adjacency) && linkEvents == old(linkEvents))
    {
      var r := ReceiveLldp(f, dps, eventDpid, eventPort);
      if r.None? {
        return false;
      }
      SetLink(ofps, r.value.0, r.value.1, now);
      return true;
    }
  }
}
