/**
 * The packet-in dispatcher (`protocols/processor.py`): applications
 * (clients and servers) register by protocol, their protocol agents are
 * filed by OSI layer, and every parsed packet is offered to the agents from
 * layer 7 down to layer 0; each response goes back out of the port the
 * packet came in on.
 */
module Processor {
  import opened Wrappers

  /** A raw frame. */
  type Packet = string

  /** An application: its identity, the packet class it handles and the name of its protocol agent. */
  datatype App = App(id: int, protocol: string, agent: string)

  /** `_osiLayers` and `getOsiLayer`: the layer of each known protocol agent, 0 for any other. */
  function GetOsiLayer(agent: string): (r: int)
    ensures agent == "dhcp" ==> r == 7
    ensures agent == "tcp" || agent == "udp" ==> r == 4
    ensures agent == "icmp" || agent == "ipv4" ==> r == 3
    ensures agent == "arp" || agent == "ethernet" ==> r == 2
    ensures r != 0 <==> agent in {"dhcp", "tcp", "udp", "icmp", "ipv4", "arp", "ethernet"}
    ensures 0 <= r <= 7 && r != 1 && r != 5 && r != 6
  {
    if agent == "dhcp" then 7
    else if agent == "tcp" || agent == "udp" then 4
    else if agent == "icmp" || agent == "ipv4" then 3
    else if agent == "arp" || agent == "ethernet" then 2
    else 0
  }

  predicate NoDup<T(==)>(s: seq<T>)
  {
    forall i, j :: 0 <= i < j < |s| ==> s[i] != s[j]
  }

  /** A registry of applications by packet class: no empty list, no app twice, each under its own class. */
  predicate AppsValid(d: map<string, seq<App>>)
  {
    forall k :: k in d ==> |d[k]| > 0 && NoDup(d[k]) && forall a :: a in d[k] ==> a.protocol == k
  }

  /** The agents by layer: no agent twice in a layer, each in its own layer. */
  predicate LayersValid(osi: map<int, seq<string>>)
  {
    forall l :: l in osi ==> NoDup(osi[l]) && forall p :: p in osi[l] ==> GetOsiLayer(p) == l
  }

  function AppsOf(d: map<string, seq<App>>, protocol: string): seq<App>
  {
    if protocol in d then d[protocol] else []
  }

  /** `_addApplication`, the registry part: the app joins its class's list unless already there. */
  function AddApp(d: map<string, seq<App>>, app: App): (r: map<string, seq<App>>)
    requires AppsValid(d)
    ensures AppsValid(r)
    ensures r.Keys == d.Keys + {app.protocol}
    ensures app in r[app.protocol]
    ensures forall k :: k in d && k != app.protocol ==> r[k] == d[k]
    ensures forall a :: a in AppsOf(d, app.protocol) ==> a in r[app.protocol]
    ensures |r[app.protocol]| == |AppsOf(d, app.protocol)| + (if app in AppsOf(d, app.protocol) then 0 else 1)
  {
    var list := AppsOf(d, app.protocol);
    d[app.protocol := if app in list then list else list + [app]]
  }

  /** `_addProtocolLayer`: the agent joins its layer's list unless already there. */
  function AddLayer(osi: map<int, seq<string>>, agent: string): (r: map<int, seq<string>>)
    requires LayersValid(osi)
    ensures LayersValid(r)
    ensures GetOsiLayer(agent) in r && agent in r[GetOsiLayer(agent)]
    ensures forall l :: l in osi && l != GetOsiLayer(agent) ==> l in r && r[l] == osi[l]
    ensures r.Keys == osi.Keys + {GetOsiLayer(agent)}
    ensures GetOsiLayer(agent) in osi && agent in osi[GetOsiLayer(agent)] ==> r == osi
  {
    var layer := GetOsiLayer(agent);
    if layer in osi then
      if agent in osi[layer] then osi else osi[layer := osi[layer] + [agent]]
    else osi[layer := [agent]]
  }

  /** `list.remove(x)` for a present `x`. */
  function RemoveApp(s: seq<App>, x: App): (r: seq<App>)
    requires x in s && NoDup(s)
    ensures NoDup(r) && x !in r && |r| == |s| - 1
    ensures forall y :: y in r <==> y in s && y != x
  {
    if s[0] == x then
      assert x !in s[1..] by {
        assert forall k :: 0 <= k < |s[1..]| ==> s[1..][k] == s[k + 1];
      }
      s[1..]
    else
      assert NoDup(s[1..]) && s[0] !in s[1..] by {
        assert forall k :: 0 <= k < |s[1..]| ==> s[1..][k] == s[k + 1];
      }
      [s[0]] + RemoveApp(s[1..], x)
  }

  /**
   * `_delApplication`, the registry part: the app leaves its class's list,
   * and the class goes once its list is empty; `removed` says whether the
   * app was there, and only then is the layer looked at.
   */
  function DelApp(d: map<string, seq<App>>, app: App): (r: (map<string, seq<App>>, bool))
    requires AppsValid(d)
    ensures AppsValid(r.0)
    ensures r.1 <==> app in AppsOf(d, app.protocol)
    ensures !r.1 ==> r.0 == d
    ensures app !in AppsOf(r.0, app.protocol)
    ensures forall k :: k != app.protocol ==> AppsOf(r.0, k) == AppsOf(d, k)
    ensures forall a :: a in AppsOf(r.0, app.protocol) <==> a in AppsOf(d, app.protocol) && a != app
  {
    if app.protocol !in d || app !in d[app.protocol] then (d, false)
    else
      var rest := RemoveApp(d[app.protocol], app);
      if |rest| == 0 then (d - {app.protocol}, true) else (d[app.protocol := rest], true)
  }

  /** How many apps of the agent's name a registry holds. */
  function CountFor(d: map<string, seq<App>>, agent: string): nat
  {
    |AppsOf(d, agent)|
  }

  /**
   * `_delProtocolLayer` as written: once no server and no client of the
   * agent's name remain, the agent's whole layer goes, with every other
   * agent filed in it.
   */
  function DelLayerAsWritten(osi: map<int, seq<string>>, servers: map<string, seq<App>>, clients: map<string, seq<App>>, agent: string): (r: map<int, seq<string>>)
    ensures CountFor(servers, agent) != 0 || CountFor(clients, agent) != 0 ==> r == osi
    ensures CountFor(servers, agent) == 0 && CountFor(clients, agent) == 0 ==> r == osi - {GetOsiLayer(agent)}
  {
    if CountFor(servers, agent) != 0 || CountFor(clients, agent) != 0 then osi
    else osi - {GetOsiLayer(agent)}
  }

  function RemoveName(s: seq<string>, x: string): (r: seq<string>)
    ensures forall y :: y in r <==> y in s && y != x
    ensures NoDup(s) ==> NoDup(r)
  {
    if s == [] then []
    else
      var rest := RemoveName(s[1..], x);
      assert NoDup(s) ==> NoDup(s[1..]) && s[0] !in s[1..] by {
        assert forall k :: 0 <= k < |s[1..]| ==> s[1..][k] == s[k + 1];
      }
      if s[0] == x then rest else [s[0]] + rest
  }

  /**
   * `_delProtocolLayer` as evidently intended: once no server and no client
   * of the agent's name remain, only that agent leaves its layer, and the
   * layer goes when nothing is left in it.
   */
  function DelLayer(osi: map<int, seq<string>>, servers: map<string, seq<App>>, clients: map<string, seq<App>>, agent: string): (r: map<int, seq<string>>)
    requires LayersValid(osi)
    ensures LayersValid(r)
    ensures CountFor(servers, agent) != 0 || CountFor(clients, agent) != 0 ==> r == osi
    ensures CountFor(servers, agent) == 0 && CountFor(clients, agent) == 0 ==>
      forall l :: l in r ==> agent !in r[l]
    ensures forall l, p :: l in osi && p in osi[l] && p != agent ==> l in r && p in r[l]
    ensures forall l :: l in r ==> l in osi && forall p :: p in r[l] ==> p in osi[l]
  {
    var layer := GetOsiLayer(agent);
    if CountFor(servers, agent) != 0 || CountFor(clients, agent) != 0 then osi
    else if layer !in osi then osi
    else
      var rest := RemoveName(osi[layer], agent);
      if rest == [] then osi - {layer} else osi[layer := rest]
  }

  /** With TCP and UDP filed in layer 4 and a UDP server still there, dropping TCP drops UDP as well. */
  lemma DelLayerAsWrittenDropsNeighbour()
    ensures DelLayerAsWritten(map[4 := ["tcp", "udp"]], map["udp" := [App(1, "udp", "udp")]], map[], "tcp") == map[]
    ensures DelLayer(map[4 := ["tcp", "udp"]], map["udp" := [App(1, "udp", "udp")]], map[], "tcp") == map[4 := ["udp"]]
  {
    var osi := map[4 := ["tcp", "udp"]];
    assert osi - {4} == map[];
    assert ["tcp", "udp"][1..] == ["udp"];
    assert RemoveName(["udp"], "tcp") == ["udp"] by {
      assert ["udp"][1..] == [];
    }
    assert RemoveName(["tcp", "udp"], "tcp") == ["udp"];
  }

  // ---------------------------------------------------------------------
  // Dispatch

  /** The first truthy response of `apps`, in list order. */
  function FirstResponse(apps: seq<App>, respond: (App, Packet, int, int) -> Option<Packet>, packet: Packet, dpid: int, port: int): (r: Option<Packet>)
    ensures r.Some? <==> exists i :: 0 <= i < |apps| && respond(apps[i], packet, dpid, port).Some?
    ensures r.Some? ==> exists i :: (0 <= i < |apps| && respond(apps[i], packet, dpid, port) == r &&
                                     forall j :: 0 <= j < i ==> respond(apps[j], packet, dpid, port).None?)
  {
    if apps == [] then None
    else if respond(apps[0], packet, dpid, port).Some? then respond(apps[0], packet, dpid, port)
    else
      var r := FirstResponse(apps[1..], respond, packet, dpid, port);
      assert forall i :: 0 <= i < |apps[1..]| ==> apps[1..][i] == apps[i + 1];
      r
  }

  /**
   * `tryProtocol`: unless the packet does not parse as the agent's
   * protocol, the clients of the parsed class are asked before its servers,
   * and the first response wins.
   */
  function TryProtocol(clients: map<string, seq<App>>, servers: map<string, seq<App>>,
                       parse: (Packet, string) -> Option<string>, respond: (App, Packet, int, int) -> Option<Packet>,
                       packet: Packet, dpid: int, port: int, agent: string): (r: (bool, Option<Packet>))
    ensures r.0 <==> parse(packet, agent).Some?
    ensures !r.0 ==> r.1.None?
    ensures r.0 && FirstResponse(AppsOf(clients, parse(packet, agent).value), respond, packet, dpid, port).Some? ==>
      r.1 == FirstResponse(AppsOf(clients, parse(packet, agent).value), respond, packet, dpid, port)
    ensures r.0 && FirstResponse(AppsOf(clients, parse(packet, agent).value), respond, packet, dpid, port).None? ==>
      r.1 == FirstResponse(AppsOf(servers, parse(packet, agent).value), respond, packet, dpid, port)
  {
    var cls := parse(packet, agent);
    if cls.None? then (false, None)
    else
      var fromClients := FirstResponse(AppsOf(clients, cls.value), respond, packet, dpid, port);
      if fromClients.Some? then (true, fromClients)
      else (true, FirstResponse(AppsOf(servers, cls.value), respond, packet, dpid, port))
  }

  /** The responses of the agents of one layer, in list order. */
  function LayerResponses(agents: seq<string>, clients: map<string, seq<App>>, servers: map<string, seq<App>>,
                          parse: (Packet, string) -> Option<string>, respond: (App, Packet, int, int) -> Option<Packet>,
                          packet: Packet, dpid: int, port: int): seq<Packet>
  {
    if agents == [] then []
    else
      var r := TryProtocol(clients, servers, parse, respond, packet, dpid, port, agents[|agents| - 1]);
      LayerResponses(agents[..|agents| - 1], clients, servers, parse, respond, packet, dpid, port) +
        (if r.0 && r.1.Some? then [r.1.value] else [])
  }

  function LayerOf(osi: map<int, seq<string>>, layer: int): seq<string>
  {
    if layer in osi then osi[layer] else []
  }

  /** The responses of the `n` layers from 7 downwards, in that order. */
  function Responses(n: nat, osi: map<int, seq<string>>, clients: map<string, seq<App>>, servers: map<string, seq<App>>,
                     parse: (Packet, string) -> Option<string>, respond: (App, Packet, int, int) -> Option<Packet>,
                     packet: Packet, dpid: int, port: int): seq<Packet>
  {
    if n == 0 then []
    else
      Responses(n - 1, osi, clients, servers, parse, respond, packet, dpid, port) +
      LayerResponses(LayerOf(osi, 7 - (n - 1)), clients, servers, parse, respond, packet, dpid, port)
  }

  /** A response of any layer comes from an agent filed in that layer. */
  lemma {:induction false} ResponsesFromFiledAgents(n: nat, osi: map<int, seq<string>>, clients: map<string, seq<App>>, servers: map<string, seq<App>>,
                                                    parse: (Packet, string) -> Option<string>, respond: (App, Packet, int, int) -> Option<Packet>,
                                                    packet: Packet, dpid: int, port: int)
    requires n <= 8
    ensures forall x :: x in Responses(n, osi, clients, servers, parse, respond, packet, dpid, port) ==>
      exists l, a :: 7 - n < l <= 7 && l in osi && a in osi[l] && TryProtocol(clients, servers, parse, respond, packet, dpid, port, a).1 == Some(x)
  {
    if n > 0 {
      ResponsesFromFiledAgents(n - 1, osi, clients, servers, parse, respond, packet, dpid, port);
      var layer := 7 - (n - 1);
      forall x | x in LayerResponses(LayerOf(osi, layer), clients, servers, parse, respond, packet, dpid, port)
        ensures layer in osi && exists a :: a in osi[layer] && TryProtocol(clients, servers, parse, respond, packet, dpid, port, a).1 == Some(x)
      {
        LayerResponsesFrom(LayerOf(osi, layer), clients, servers, parse, respond, packet, dpid, port, x);
      }
    }
  }

  lemma {:induction false} LayerResponsesFrom(agents: seq<string>, clients: map<string, seq<App>>, servers: map<string, seq<App>>,
                                              parse: (Packet, string) -> Option<string>, respond: (App, Packet, int, int) -> Option<Packet>,
                                              packet: Packet, dpid: int, port: int, x: Packet)
    requires x in LayerResponses(agents, clients, servers, parse, respond, packet, dpid, port)
    ensures exists a :: a in agents && TryProtocol(clients, servers, parse, respond, packet, dpid, port, a).1 == Some(x)
  {
    var init := agents[..|agents| - 1];
    var last := agents[|agents| - 1];
    if x in LayerResponses(init, clients, servers, parse, respond, packet, dpid, port) {
      LayerResponsesFrom(init, clients, servers, parse, respond, packet, dpid, port, x);
      var a :| a in init && TryProtocol(clients, servers, parse, respond, packet, dpid, port, a).1 == Some(x);
      assert a in agents;
    } else {
      assert TryProtocol(clients, servers, parse, respond, packet, dpid, port, last).1 == Some(x);
    }
  }

  /** One packet sent: switch, port, frame. */
  datatype Sent = Sent(dpid: int, port: int, packet: Packet)

  /** `Processor`: connected switches, the application registries and the agents by layer. */
  class Processor {
    /** `switchs`: the dpids with a connection. */
    var switchs: set<int>
    var clients: map<string, seq<App>>
    var servers: map<string, seq<App>>
    var osiLayers: map<int, seq<string>>
    ghost var sent: seq<Sent>

    ghost predicate Valid()
      reads this
    {
      AppsValid(clients) && AppsValid(servers) && LayersValid(osiLayers)
    }

    constructor()
      ensures Valid() && switchs == {} && clients == map[] && servers == map[] && osiLayers == map[] && sent == []
    {
      switchs := {};
      clients := map[];
      servers := map[];
      osiLayers := map[];
      sent := [];
    }

    method ConnectionUp(dpid: int)
      modifies this`switchs
      ensures switchs == old(switchs) + {dpid}
    {
      switchs := switchs + {dpid};
    }

    method ConnectionDown(dpid: int)
      modifies this`switchs
      ensures switchs == old(switchs) - {dpid}
    {
      switchs := switchs - {dpid};
    }

    /** `sendPacket`: out of `port` of switch `dpid`, and nowhere when the switch is not connected. */
    method SendPacket(packet: Packet, dpid: int, port: int)
      modifies this`sent
      ensures sent == old(sent) + (if dpid in switchs then [Sent(dpid, port, packet)] else [])
    {
      if dpid !in switchs {
        return;
      }
      sent := sent + [Sent(dpid, port, packet)];
    }

    /** `addClient`: register the client and file its agent. */
    method AddClient(app: App)
      requires Valid()
      modifies this`clients, this`osiLayers
      ensures Valid()
      ensures clients == AddApp(old(clients), app) && osiLayers == AddLayer(old(osiLayers), app.agent)
    {
      clients := AddApp(clients, app);
      osiLayers := AddLayer(osiLayers, app.agent);
    }

    /** `addServer`: register the server and file its agent. */
    method AddServer(app: App)
      requires Valid()
      modifies this`servers, this`osiLayers
      ensures Valid()
      ensures servers == AddApp(old(servers), app) && osiLayers == AddLayer(old(osiLayers), app.agent)
    {
      servers := AddApp(servers, app);
      osiLayers := AddLayer(osiLayers, app.agent);
    }

    /** `delClient`: unregister the client; a client that was not registered changes nothing. */
    method DelClient(app: App)
      requires Valid()
      modifies this`clients, this`osiLayers
      ensures Valid()
      ensures clients == DelApp(old(clients), app).0
      ensures osiLayers == if DelApp(old(clients), app).1 then DelLayer(old(osiLayers), servers, clients, app.agent) else old(osiLayers)
    {
      var (d, removed) := DelApp(clients, app);
      clients := d;
      if removed {
        osiLayers := DelLayer(osiLayers, servers, clients, app.agent);
      }
    }

    /** `delServer`: unregister the server; a server that was not registered changes nothing. */
    method DelServer(app: App)
      requires Valid()
      modifies this`servers, this`osiLayers
      ensures Valid()
      ensures servers == DelApp(old(servers), app).0
      ensures osiLayers == if DelApp(old(servers), app).1 then DelLayer(old(osiLayers), servers, clients, app.agent) else old(osiLayers)
    {
      var (d, removed) := DelApp(servers, app);
      servers := d;
      if removed {
        osiLayers := DelLayer(osiLayers, servers, clients, app.agent);
      }
    }

    /** `tryProtocol`, with its loops over the clients and then the servers. */
    method TryAgent(parse: (Packet, string) -> Option<string>, respond: (App, Packet, int, int) -> Option<Packet>,
                    packet: Packet, dpid: int, port: int, agent: string) returns (parsed: bool, resp: Option<Packet>)
      ensures (parsed, resp) == TryProtocol(clients, servers, parse, respond, packet, dpid, port, agent)
    {
      var cls := parse(packet, agent);
      if cls.None? {
        return false, None;
      }
      parsed := true;
      resp := FirstOf(AppsOf(clients, cls.value), respond, packet, dpid, port);
      if resp.Some? {
        return;
      }
      resp := FirstOf(AppsOf(servers, cls.value), respond, packet, dpid, port);
    }

    /** `process`: unless unparsed, offer the packet to every agent from layer 7 down, and send each response back. */
    method Process(parsedOk: bool, parse: (Packet, string) -> Option<string>, respond: (App, Packet, int, int) -> Option<Packet>,
                   packet: Packet, dpid: int, port: int)
      modifies this`sent
      ensures !parsedOk ==> sent == old(sent)
      ensures parsedOk ==> sent == old(sent) + ToPort(dpid, port, if dpid in switchs then Responses(8, osiLayers, clients, servers, parse, respond, packet, dpid, port) else [])
    {
      if !parsedOk {
        return;
      }
      ghost var known := dpid in switchs;
      assert Responses(0, osiLayers, clients, servers, parse, respond, packet, dpid, port) == [];
      assert ToPort(dpid, port, []) == [] && sent == old(sent) + [];
      for n := 0 to 8
        invariant sent == old(sent) + ToPort(dpid, port, if known then Responses(n, osiLayers, clients, servers, parse, respond, packet, dpid, port) else [])
      {
        ghost var done := Responses(n, osiLayers, clients, servers, parse, respond, packet, dpid, port);
        ghost var layer := LayerResponses(LayerOf(osiLayers, 7 - n), clients, servers, parse, respond, packet, dpid, port);
        assert Responses(n + 1, osiLayers, clients, servers, parse, respond, packet, dpid, port) == done + layer;
        ghost var a, b := if known then done else [], if known then layer else [];
        ProcessLayer(LayerOf(osiLayers, 7 - n), parse, respond, packet, dpid, port);
        ToPortAppend(dpid, port, a, b);
        assert a + b == if known then done + layer else [];
        AppendAssoc(old(sent), ToPort(dpid, port, a), ToPort(dpid, port, b));
      }
    }

    /** The loop over one layer's agents in `process`. */
    method ProcessLayer(agents: seq<string>, parse: (Packet, string) -> Option<string>, respond: (App, Packet, int, int) -> Option<Packet>,
                        packet: Packet, dpid: int, port: int)
      modifies this`sent
      ensures sent == old(sent) + ToPort(dpid, port, if dpid in switchs then LayerResponses(agents, clients, servers, parse, respond, packet, dpid, port) else [])
    {
      ghost var known := dpid in switchs;
      assert LayerResponses(agents[..0], clients, servers, parse, respond, packet, dpid, port) == [];
      assert ToPort(dpid, port, []) == [] && sent == old(sent) + [];
      for i := 0 to |agents|
        invariant sent == old(sent) + ToPort(dpid, port, if known then LayerResponses(agents[..i], clients, servers, parse, respond, packet, dpid, port) else [])
      {
        assert agents[..i + 1][..i] == agents[..i];
        ghost var done := if known then LayerResponses(agents[..i], clients, servers, parse, respond, packet, dpid, port) else [];
        var parsed, resp := TryAgent(parse, respond, packet, dpid, port, agents[i]);
        if parsed && resp.Some? {
          SendPacket(resp.value, dpid, port);
          ToPortAppend(dpid, port, done, if known then [resp.value] else []);
          AppendAssoc(old(sent), ToPort(dpid, port, done), ToPort(dpid, port, if known then [resp.value] else []));
        } else {
          assert done + [] == done;
        }
      }
      assert agents[..|agents|] == agents;
    }
  }

  lemma AppendAssoc<T>(a: seq<T>, b: seq<T>, c: seq<T>)
    ensures (a + b) + c == a + (b + c)
  {
  }

  lemma ToPortAppend(dpid: int, port: int, a: seq<Packet>, b: seq<Packet>)
    ensures ToPort(dpid, port, a + b) == ToPort(dpid, port, a) + ToPort(dpid, port, b)
  {
  }

  /** The response frames, each sent out of the port the packet came in on. */
  function ToPort(dpid: int, port: int, packets: seq<Packet>): (r: seq<Sent>)
    ensures |r| == |packets| && forall i :: 0 <= i < |r| ==> r[i] == Sent(dpid, port, packets[i])
  {
    seq(|packets|, i requires 0 <= i < |packets| => Sent(dpid, port, packets[i]))
  }

  /** The loop over one list in `tryProtocol`: the first truthy response. */
  method FirstOf(apps: seq<App>, respond: (App, Packet, int, int) -> Option<Packet>, packet: Packet, dpid: int, port: int) returns (r: Option<Packet>)
    ensures r == FirstResponse(apps, respond, packet, dpid, port)
  {
    for i := 0 to |apps|
      invariant FirstResponse(apps, respond, packet, dpid, port) == FirstResponse(apps[i..], respond, packet, dpid, port)
    {
      assert apps[i..][1..] == apps[i + 1..];
      var resp := respond(apps[i], packet, dpid, port);
      if resp.Some? {
        return resp;
      }
    }
    return None;
  }
}
