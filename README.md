# A verified model of the scn-openflow-driver controller core

This project models the core of `scn-openflow-driver`, an OpenFlow controller
built on POX for a service-centric network (SCN). The controller installs
routes between hosts as flow-table entries on switches. It weighs links by
measured and reserved bandwidth, and a periodic balancing loop moves flows to
less loaded paths when bandwidth reservations are violated. A middleware
handler lets client nodes ask for paths over a TCP connection. Around this
engine sit LLDP link discovery, a host tracker, plugin launch ordering, a
user-space TCP stack, and a protocol processor with ARP, DHCP and Ethernet
agents.

The model is in Dafny. Each module follows one source file or one cohesive part of it:

| Dafny file | module | models |
|---|---|---|
| wrappers.dfy | Wrappers | `Option`/`Result`, the stock error-carrying types |
| strings.dfy | Strings | the digit characters of `str` and `hex`, and `str.split`/`join`, shared by several components |
| allocation.dfy | Allocation | the wrap-around identifier scan of `reserveCookie` and of the middleware node ids |
| network.dfy | Network | link records (two dpids, two ports, cookie list, measured and theoretical bandwidth) |
| routing_paths.dfy | RoutePaths | `IpPath` and the `ScnLinks` helpers of `scn/routing.py` |
| dijkstra.dfy | Dijkstra | `Routing.getRoutesDijkstra` |
| routes.dfy | Routes | route requests, `_invert`/`_invertRouteDict`, `_resolveOutputInfo`, `createMessage`, `createRoute` |
| link_cookies.dfy | LinkCookies | the per-link cookie lists that routes add and remove |
| bw_graph.dfy | BwGraph | `Routing.getUsedBwGraph` |
| routing.dfy | RouteStore | class `Routing`: cookies, `addRoute`/`updateRoute`/`delRoute`/`delPath`, `createBiRoute`, `getVia` |
| flow_bw.dfy | FlowBw | `plugins/flowBw.py`: per-switch Δbytes/Δt samples and per-cookie means |
| balance_checks.dfy | BalanceChecks | reservation checks and the nuisance veto of `plugins/bwFlowBalancing.py` |
| balancing.dfy | Balancing | the balancing loop, `optimizeFlows` and `cablesBw` bookkeeping |
| middleware_path.dfy | MiddlewarePath | `middleware/path.py` |
| route_creator.dfy | RouteCreator | `middleware/routeCreator.py` |
| widgets.dfy | Widgets | `middleware/utils/widgets.py` |
| handler.dfy | Handler | `middleware/handler.py` |
| connection.dfy | Connection | `middleware/utils/connection.py` |
| discovery.dfy | Discovery | `scn/scnDiscovery.py` |
| host_tracker.dfy | HostTracker | `scn/scnHostTracker.py` |
| nwgn.dfy | PluginLoader | `scn/nwgn.py` |
| tcp.dfy | Tcp | `protocols/tcp.py` |
| tcp_app.dfy | TcpApp | `protocols/application/tcp.py` |
| processor.dfy | Processor | `protocols/processor.py` |
| application.dfy | Application | `protocols/application/application.py` |
| packets.dfy | Packets | the packet records the agents read and build |
| arp.dfy | ArpProtocol | `protocols/arp.py` |
| arp_app.dfy | ArpApp | `protocols/application/arp.py` |
| ethernet_app.dfy | EthernetApp | `protocols/application/ethernet.py` |
| dhcp.dfy | DhcpProtocol | `protocols/dhcp.py` |

Conventions:
- Switches are their dpids and hosts their addresses, both integers.
- Bandwidth figures are `real`, so they are exact.
- A condition dictionary's bandwidth key is either absent, or holds None (a path requested without a bandwidth), or holds a number. The model tells the three apart, as the source's `in`, `.get` and `is not None` tests do.
- A link's measured use (`getBandwidthUsed`) is `None` until the link is sampled. The reservation check and `getGlobalBandwidth` raise TypeError on such a link, and the balancing pass then raises.
- Objects the source updates in place are classes with `modifies` clauses.
- Installs and removals of flow-table entries, raised events, and messages sent are ghost logs on those classes.
- Dictionary iteration order is an explicit sequence parameter wherever the result depends on it.
- Clocks, sockets and random numbers are parameters.

## Model

| member | source | states |
|---|---|---|
| Allocation.Candidate | src/ncps_openflow/scn/routing.py:381-382 | every probed candidate is reduced modulo 65536, so it lies in [0, 65536) |
| Allocation.ScanFrom | src/ncps_openflow/scn/routing.py:381-389 | a value the scan issues is nonzero, below 65536, not in use, and one of the probed successors of the previous cookie |
| Allocation.ScanFromNoneIff | src/ncps_openflow/scn/routing.py:381-389 | the scan from an offset fails exactly when every candidate from that offset on is 0 or in use |
| Allocation.ScanFromFirst | src/ncps_openflow/scn/routing.py:381-389 | the scan issues the candidate at the first offset whose candidate is free |
| Allocation.FirstFreeNoneIff | src/ncps_openflow/scn/routing.py:379-389 | no cookie is issued exactly when all 65534 successors of the previous cookie modulo 65536 are 0 or taken |
| Allocation.ScanFromIsFirst | src/ncps_openflow/scn/routing.py:381-389 | what the scan issues is the first free candidate from its offset: no earlier probe was free |
| Allocation.FirstFreeIsFirst | src/ncps_openflow/scn/routing.py:379-389 | an issued cookie is nonzero, below 65536, not already a key, and the first free probe after the previous cookie |
| Network.Reverse | src/ncps_openflow/scn/routing.py:1275 | the reverse link has the two ends swapped, dpid and port alike |
| Network.FirstLinkByDpid | src/ncps_openflow/scn/scnDiscovery.py:240-244 | a link is found exactly when some link runs from switch u to switch v, and the one returned is the first such link in table order |
| RoutePaths.Reversed | src/ncps_openflow/scn/routing.py:91-97 | the reversed path is opposite to the original, both ways round |
| RoutePaths.OppositeProperties | src/ncps_openflow/scn/routing.py:91-104 | path equality is equality of source, destination and TOS; opposition is symmetric, holds exactly for the reversed path, and two oppositions give an equal path |
| RoutePaths.SwitchSetContains | src/ncps_openflow/scn/routing.py:155-160 | containSwitch is true exactly for the switches that start or end some link |
| RoutePaths.FirstSwitch | src/ncps_openflow/scn/routing.py:163-170 | None exactly for an empty list; otherwise the source switch of the first link, which the list contains |
| RoutePaths.LastSwitch | src/ncps_openflow/scn/routing.py:173-180 | None exactly for an empty list; otherwise the destination switch of the last link, which the list contains |
| RoutePaths.Hops | src/ncps_openflow/scn/routing.py:144-152 | the count is the number of distinct switches the links touch |
| RoutePaths.UsedSumBounds | src/ncps_openflow/scn/routing.py:183-190 | when each link's use lies in [lo, hi], the summed use lies between n·lo and n·hi |
| RoutePaths.MeanWithin | src/ncps_openflow/scn/routing.py:183-190 | a mean lies between the bounds of the values it averages |
| RoutePaths.GlobalBandwidth | src/ncps_openflow/scn/routing.py:183-190 | TypeError exactly when some link has no measured use; otherwise 0 for no links and else the mean measured use, which lies within any bounds on every link's use |
| RoutePaths.MinimalBandwidthAvailable | src/ncps_openflow/scn/routing.py:193-199 | an empty link list raises IndexError (`links[0]`), and only it; otherwise the result is the available bandwidth of some link and no link has less |
| RoutePaths.SameLinksIsEquality | src/ncps_openflow/scn/routing.py:210-219 | positionwise link comparison holds exactly when the two lists are equal |
| Dijkstra.SelectMin | src/ncps_openflow/scn/routing.py:637-647 | the selected node has the least distance among the unseen, and every earlier unseen node has a strictly greater one, so ties go to the first |
| Dijkstra.Relax | src/ncps_openflow/scn/routing.py:652-658 | the visited node keeps its distance; afterwards no neighbour is farther than the distance through the node; a node whose distance changes is a neighbour whose distance dropped strictly to the one through the node, with the node as predecessor, and every other node keeps distance and predecessor; the destination flag is set exactly when dst is a neighbour |
| Dijkstra.RelaxChild | src/ncps_openflow/scn/routing.py:654-658 | one neighbour takes the distance through the node when that is strictly smaller, which keeps the relaxation facts of the neighbours already handled and adds its own |
| Dijkstra.VisitKeepsRanked | src/ncps_openflow/scn/routing.py:649-650 | removing the visited node from the unseen list keeps every visited node ranked once |
| Dijkstra.VisitKeepsSettledLinked | src/ncps_openflow/scn/routing.py:636-658 | visiting the least-distance node keeps visited nodes no farther than unvisited ones and every predecessor an earlier-visited neighbour |
| Dijkstra.Visit | src/ncps_openflow/scn/routing.py:636-658 | one round of the main loop removes exactly one unseen node, ranks it next among the visited, and keeps the search invariant: visited nodes no farther than unvisited ones, every edge out of a visited node relaxed, every predecessor an edge from an earlier-visited node that accounts exactly for the distance; the flag says whether dst is its neighbour |
| Dijkstra.ShortestPathTree | src/ncps_openflow/scn/routing.py:617-658 | after the loop every key and src has a distance, src 0; no distance exceeds a neighbour's distance plus the edge; every predecessor is a graph edge whose weight accounts exactly for the distance; a node other than src without predecessor is still at 10**15; the found flag is set exactly when dst is some node's neighbour |
| Dijkstra.DistanceBound | src/ncps_openflow/scn/routing.py:652-658 | once every edge is relaxed, a node's distance is at most the start's distance plus the cost of any chain of edges between them |
| Dijkstra.ReachableBelow | src/ncps_openflow/scn/routing.py:652-658 | a destination some chain from src reaches below 10**15 ends with a distance below 10**15 |
| Dijkstra.ReachableSeenAsChild | src/ncps_openflow/scn/routing.py:653-655 | only a node that is some node's neighbour can be reached, and only from a key, so the found flag covers every reachable destination |
| Dijkstra.CheapestChain | src/ncps_openflow/scn/routing.py:652-676 | a chain whose cost is the destination's distance costs no more than any chain from src to dst |
| Dijkstra.ChainPrepend | src/ncps_openflow/scn/routing.py:668-672 | the hop from a node's predecessor extends the chain read back so far by one edge and adds its weight to the cost |
| Dijkstra.RoutesDijkstra | src/ncps_openflow/scn/routing.py:616-676 | KeyError exactly when some neighbour is neither a key nor src; otherwise [] when src equals dst or when neither src is a key nor dst a neighbour, and only then; a nonempty result is a chain of graph edges from src to dst that costs no more than any other such chain; a destination reachable below 10**15 always gets one; a failing read-back is KeyError |
| Routes.StampEntries | src/ncps_openflow/scn/routing.py:519-520 | the same switches keep their entries, each now carrying the route's cookie |
| Routes.Get | src/ncps_openflow/scn/routing.py:736 | a missing key reads as None, a present key as its value |
| Routes.InvertAsWrittenLosesEqualPair | src/ncps_openflow/scn/routing.py:735-746 | with the same truthy value on both keys, the written `_invert` drops the second key |
| Routes.PartnerInvolution | src/ncps_openflow/scn/routing.py:753-757 | the five swapped keyword pairs pair up: a key's partner's partner is the key |
| Routes.Mirror | src/ncps_openflow/scn/routing.py:753-757 | the intended swap: a key is present exactly when its partner was, carrying its partner's value |
| Routes.MirrorInvolution | src/ncps_openflow/scn/routing.py:749-757 | swapping twice gives the request back |
| Routes.InvertAsWrittenAgrees | src/ncps_openflow/scn/routing.py:735-746 | with different truthy values on a pair, one written `_invert` call swaps the pair and leaves every other key alone |
| Routes.ReverseVia | src/ncps_openflow/scn/routing.py:765-779 | every link of the reversed via is a known link, and there are no more of them than in the via |
| Routes.ReverseViaComplete | src/ncps_openflow/scn/routing.py:765-781 | when every link has a known reverse, the result is the reverse links in reverse order |
| Routes.SwapPairsAsWrittenLosesEqualPair | src/ncps_openflow/scn/routing.py:753-757 | with the same truthy switch on both ends, the written swap loses the destination switch that the intended swap keeps |
| Routes.ApplyGateway | src/ncps_openflow/scn/routing.py:759-763 | a gateway becomes the source switch and in-port of the return request and is removed; without one nothing changes |
| Routes.InvertRouteDictAsWrittenDropsVia | src/ncps_openflow/scn/routing.py:765-783 | a via given to the written inversion comes back as None |
| Routes.InvertRouteDict | src/ncps_openflow/scn/routing.py:749-786 | no keywords give None; the other keywords trade places with their partners; a via comes back as a list of links no longer than the original |
| Routes.InvertRouteDictInvolution | src/ncps_openflow/scn/routing.py:749-786 | inverting a request without gateway and via twice gives the request back |
| Routes.ResolveOutputInfo | src/ncps_openflow/scn/routing.py:1063-1131 | the egress switch and port come from the request or the gateway and must agree with it, None otherwise; transport ports only for TCP or UDP over IP; a TOS only for TCP over IP without ports |
| Routes.CreateMatch | src/ncps_openflow/scn/routing.py:1233-1257 | the match fixes the EtherType, the IP addresses only for IP, the IP protocol only when nonzero, the TOS when given, and only truthy ports |
| Routes.ViaEntries | src/ncps_openflow/scn/routing.py:1201-1207 | every via link's source switch gets an entry, and each entry outputs to the source port of a via link leaving that switch |
| Routes.RouteEntriesAsWrittenMissLastHop | src/ncps_openflow/scn/routing.py:1201-1219 | as written, a route whose links do not leave the destination switch has no entry there |
| Routes.RouteEntries | src/ncps_openflow/scn/routing.py:1201-1219 | every entry carries the route's match; the destination switch rewrites the destination MAC and outputs to the host port; every other switch outputs along a via link |
| Routes.CreateRoute | src/ncps_openflow/scn/routing.py:1134-1232 | a route exists exactly when both ends resolve and the output towards the destination host resolves; its path is the ends with the TOS; unless forced, a local route takes the given local via and a remote one the request's via when there is one, and the planned links otherwise; forced routing takes the planned links; every link's switch has an entry and the destination switch has the last-hop entry |
| LinkCookies.RemoveFirst | src/ncps_openflow/scn/routing.py:604 | `list.remove` fails exactly when the cookie is absent |
| LinkCookies.RemoveFirstCount | src/ncps_openflow/scn/routing.py:604 | a successful removal takes exactly one copy of the cookie out |
| LinkCookies.AppendOnLinksShape | src/ncps_openflow/scn/routing.py:532-533 | after appending, each link's list ends with one copy of the cookie per occurrence of the link in the route |
| LinkCookies.OccurrencesPositive | src/ncps_openflow/scn/routing.py:532-533 | a link occurs in the route exactly when it is one of its links |
| LinkCookies.RemoveUntilFailureStops | src/ncps_openflow/scn/routing.py:603-604 | a removal that succeeds leaves the lists the removal computes; one that fails has taken the cookie off every link before the first link without it, and that link's list lacks it |
| LinkCookies.RemoveOnLinksFromRuns | src/ncps_openflow/scn/routing.py:603-604 | removal from lists ending in one cookie per occurrence succeeds and gives back the lists before the cookie was appended |
| LinkCookies.DeleteUndoesAdd | src/ncps_openflow/scn/routing.py:512-608 | deleting a route undoes adding it: the removal succeeds and every link gets its original cookie list back |
| LinkCookies.DropFirst | src/ncps_openflow/scn/routing.py:581-589 | the tolerant removal takes one copy out when the cookie is present and leaves the list alone otherwise |
| LinkCookies.DropOnLinks | src/ncps_openflow/scn/routing.py:581-589 | links off the old route keep their lists |
| LinkCookies.DropOnLinksClears | src/ncps_openflow/scn/routing.py:581-589 | a cookie held at most once per link is gone from every traversed link afterwards |
| LinkCookies.DropKeepsAbsent | src/ncps_openflow/scn/routing.py:581-589 | dropping never puts a cookie back |
| LinkCookies.AddOnLinks | src/ncps_openflow/scn/routing.py:591-593 | every new link holds the cookie afterwards, a list that held it is unchanged, one that lacked it gains exactly one copy at the end, and other links are untouched |
| BwGraph.Ceil | src/ncps_openflow/scn/routing.py:1284 | `ceil` gives the least integer not below its argument |
| BwGraph.Max | src/ncps_openflow/scn/routing.py:1288 | `max` is one of its arguments and not below either |
| BwGraph.Reservation | src/ncps_openflow/scn/routing.py:1277-1280 | KeyError exactly when the stored route's condition dictionary lacks the bandwidth key; otherwise a reservation is read exactly when that key holds a number, and it is that number (a key holding None, like a missing route or dictionary, gives none) |
| BwGraph.Measured | src/ncps_openflow/scn/routing.py:1281-1287 | a nonzero measure comes only from a sample of that cookie on the link's destination switch; a missing sample reads as 0 |
| BwGraph.CookieCost | src/ncps_openflow/scn/routing.py:1276-1288 | one cookie's share is never negative unless its own reservation is |
| BwGraph.CookiesCostNonNegative | src/ncps_openflow/scn/routing.py:1276-1303 | with non-negative reservations, adding the cookies' shares never lowers the running total |
| BwGraph.LinkCostBounds | src/ncps_openflow/scn/routing.py:1272-1307 | a link costs 1 when routes are forced, never less than 0, and 0 when neither it nor its reverse carries a cookie |
| BwGraph.LinkCostAsWrittenCarriesReservation | src/ncps_openflow/scn/routing.py:1276-1303 | as written, a cookie without a reservation reuses the previous cookie's, so one route reserving 100 and one idle route requested without a bandwidth (its key holding None) cost 200 instead of 100 |
| BwGraph.UsedGraph | src/ncps_openflow/scn/routing.py:1264-1312 | the graph's rows are exactly the source switches of the visited links |
| BwGraph.UsedGraphEdges | src/ncps_openflow/scn/routing.py:1309-1310 | each visited link has an edge, carrying the cost of the last link between the same two switches |
| BwGraph.UsedGraphNonNegative | src/ncps_openflow/scn/routing.py:1264-1312 | with non-negative reservations no edge cost is negative, as the shortest-path search needs |
| BwGraph.UsedGraphErrPersists | src/ncps_openflow/scn/routing.py:1264-1312 | a failure while visiting part of the link table is the failure of the whole table |
| RouteStore.BandwidthChanged | src/ncps_openflow/scn/routing.py:523-526 | False unless both condition dictionaries are truthy (hold some key); then a KeyError exactly when either lacks the bandwidth key, and otherwise True exactly when the two values differ, None counting as a value |
| RouteStore.RestampKeepsAll | src/ncps_openflow/scn/routing.py:546-574 | replacing a route by itself with its cookie restamped removes no entry |
| RouteStore.ReturnRequest | src/ncps_openflow/scn/routing.py:795-798 | the return request has no truthy conditions and every other swappable keyword traded with its partner; no keywords is an AttributeError |
| RouteStore.MoveCookie | src/ncps_openflow/scn/routing.py:581-593 | after an update the cookie is on every new link, gone from old links no longer used, and no other link's list changes |
| RouteStore.Routing.constructor | src/ncps_openflow/scn/routing.py:359-377 | a new route store is empty, has issued no cookie and has no pending rebalancing |
| RouteStore.Routing.ReserveCookie | src/ncps_openflow/scn/routing.py:379-389 | the cookie issued is the first free probe after the previous one; it is recorded as reserved and becomes the previous cookie; nothing changes when none is free |
| RouteStore.Routing.ReleaseCookie | src/ncps_openflow/scn/routing.py:392-396 | the cookie is forgotten and nothing else changes |
| RouteStore.Routing.AppendCookie | src/ncps_openflow/scn/routing.py:532-533 | each link of the route has the cookie appended, once per occurrence |
| RouteStore.Routing.RemoveCookie | src/ncps_openflow/scn/routing.py:603-604 | the removal succeeds exactly when every link still holds the cookie, with the lists the removal specifies; on ValueError the links before the failing one have already lost the cookie |
| RouteStore.Routing.DropCookie | src/ncps_openflow/scn/routing.py:581-589 | the old cookie is removed from each old link where present |
| RouteStore.Routing.AddCookie | src/ncps_openflow/scn/routing.py:591-593 | the new cookie is appended to each new link that lacks it |
| RouteStore.Routing.UpdateRoute | src/ncps_openflow/scn/routing.py:546-599 | the update counts as identical exactly when no old entry is stale; otherwise it installs the new entries, moves the cookie from the old links to the new ones and raises RouteChanged |
| RouteStore.Routing.AddRoute | src/ncps_openflow/scn/routing.py:512-538 | a route whose cookie names a stored route keeps the cookie, replaces it, and is diff-updated, with a rebalancing requested when the bandwidth changed; a new route gets the next free cookie on its links, all its entries installed, and a TypeError when no cookie is free |
| RouteStore.Routing.DelRoute | src/ncps_openflow/scn/routing.py:602-608 | the cookie leaves every link, the entries are removed and the route is deleted; a link without the cookie is a ValueError, raised after the earlier links lost the cookie, and a missing route a KeyError |
| RouteStore.Routing.DelPath | src/ncps_openflow/scn/routing.py:498-504 | exactly the routes on the path are deleted, their cookies leave their links and their entries are removed, in table order |
| RouteStore.Routing.CreateBiRoute | src/ncps_openflow/scn/routing.py:789-817 | either both routes are made or neither, and nothing is stored when either direction fails; on success both are stored and paired, and a given cookie is kept |
| RouteStore.Routing.GetVia | src/ncps_openflow/scn/routing.py:1315-1335 | the links follow a chain from src to dst through graph edges, each a known link; a rebalancing is requested exactly when some hop costs less than the minimum bandwidth |
| RouteStore.Routing.CookieLoad | src/ncps_openflow/scn/routing.py:1276-1303 | the loop over one cookie list adds what the cost function specifies |
| RouteStore.Routing.LinkLoad | src/ncps_openflow/scn/routing.py:1272-1307 | the cost given a link is the one the cost function specifies |
| RouteStore.Routing.UsedBwGraph | src/ncps_openflow/scn/routing.py:1260-1312 | the graph built link by link is the one the graph function specifies, whose edges the lemmas above bound |
| FlowBwStats.Rate | src/ncps_openflow/scn/plugins/flowBw.py:38-44 | the rate is 0 for a sample at time 0 or at the stored time; otherwise rate times elapsed time is the byte difference, and it is never negative for a later, larger sample |
| FlowBwStats.AdvanceRepeated | src/ncps_openflow/scn/plugins/flowBw.py:38-47 | delivering the same sample twice gives rate 0 the second time and changes nothing else |
| FlowBwStats.Sampled | src/ncps_openflow/scn/plugins/flowBw.py:30-35 | the stored sample holds the new counters and time; a new switch starts at rate 0, a known one gets the rate since its stored sample |
| FlowBwStats.SumBwBounds | src/ncps_openflow/scn/plugins/flowBw.py:84-90 | rates within bounds sum to within n times the bounds |
| FlowBwStats.MeanOfRates | src/ncps_openflow/scn/plugins/flowBw.py:84-90 | the mean times the number of segments is the sum of their rates, and the mean lies within any bounds on every rate |
| FlowBwStats.StoreKeepsOrder | src/ncps_openflow/scn/plugins/flowBw.py:80 | storing a segment under a new switch appends the switch to the iteration order, which still lists each key once |
| FlowBwStats.ScnFlow.constructor | src/ncps_openflow/scn/plugins/flowBw.py:65-70 | a new flow has zero totals, rate 0 and no segments |
| FlowBwStats.ScnFlow.Total | src/ncps_openflow/scn/plugins/flowBw.py:87-88 | the loop sums the rates of all segments |
| FlowBwStats.ScnFlow.Store | src/ncps_openflow/scn/plugins/flowBw.py:80 | the segment is stored under its switch and nothing else changes |
| FlowBwStats.ScnFlow.Update | src/ncps_openflow/scn/plugins/flowBw.py:73-90 | the switch's sample is stored, the stored counters join the running totals, and the flow's rate times its number of segments is the sum of the segment rates |
| FlowBwStats.ScnFlow.Recompute | src/ncps_openflow/scn/plugins/flowBw.py:84-90 | the flow's rate times its number of segments becomes the sum of the segment rates; nothing else changes |
| FlowBwStats.ScnFlow.RawUpdate | src/ncps_openflow/scn/plugins/flowBw.py:95-105 | without segments nothing changes; otherwise the rate times the number of segments is the sum of the segment rates |
| FlowBwStats.ScnFlow.Forget | src/ncps_openflow/scn/plugins/flowBw.py:186-191 | the segments of the given switches are gone, all others keep their samples, and the rate is not recomputed |
| FlowBwStats.Without | src/ncps_openflow/scn/plugins/flowBw.py:186-191 | the order loses exactly the forgotten switch |
| FlowBwStats.WithoutDistinct | src/ncps_openflow/scn/plugins/flowBw.py:186-191 | removing a switch keeps the order free of repetitions |
| FlowBwStats.RemoveKeepsOrder | src/ncps_openflow/scn/plugins/flowBw.py:186-191 | after a deletion the order still lists each remaining key once |
| FlowBwStats.StatCookies | src/ncps_openflow/scn/plugins/flowBw.py:149-150 | the cookies of a reply are exactly those some entry carries |
| FlowBwStats.StatCookiesSnoc | src/ncps_openflow/scn/plugins/flowBw.py:149-162 | one more entry adds its cookie to the cookies seen |
| FlowBwStats.RemovedSwitches | src/ncps_openflow/scn/plugins/flowBw.py:177-184 | the switches collected are exactly those the old route crosses and the new one does not, each once |
| FlowBwStats.FlowBw.constructor | src/ncps_openflow/scn/plugins/flowBw.py:137-141 | a new component has no flows |
| FlowBwStats.FlowBw.HandleFlowStats | src/ncps_openflow/scn/plugins/flowBw.py:144-164 | exactly one flow per cookie of the reply is added when unseen and flows of other cookies are untouched; every cookie's segments are its old segments resampled by the reply's entries for it, in order, and every cookie of the reply ends with its rate the mean of its segment rates |
| FlowBwStats.FlowBw.Sample | src/ncps_openflow/scn/plugins/flowBw.py:150-162 | the entry's cookie gets a flow, the existing one when there is one; its segments are the old ones with the switch's sample replaced by the new counters and rate, its rate is the mean of its segment rates, and every other cookie keeps its segments |
| FlowBwStats.FlowBw.FlowFor | src/ncps_openflow/scn/plugins/flowBw.py:151-155 | the cookie's existing flow, or a fresh empty one stored under it; no cookie's segments change |
| FlowBwStats.SampledAll | src/ncps_openflow/scn/plugins/flowBw.py:149-162 | a reply without the cookie leaves its segments as they are; with it, the segments gain exactly the replying switch |
| FlowBwStats.SampledAllSnoc | src/ncps_openflow/scn/plugins/flowBw.py:149-162 | one more entry of the reply resamples the cookie's segments once more when it carries the cookie, and leaves them otherwise |
| FlowBwStats.FlowBw.HandleRouteChanged | src/ncps_openflow/scn/plugins/flowBw.py:167-191 | the old route's flow forgets exactly the switches the new route no longer crosses, keeps its other samples and its rate; other flows are untouched |
| BalanceChecks.CablesOfLookup | src/ncps_openflow/scn/plugins/bwFlowBalancing.py:569-577 | the table holds a cable exactly when some link has its two switches, with the reading of the last such link |
| BalanceChecks.GetCablesBw | src/ncps_openflow/scn/plugins/bwFlowBalancing.py:569-577 | the loop builds the table the lookup lemma describes |
| BalanceChecks.ShiftValues | src/ncps_openflow/scn/plugins/bwFlowBalancing.py:541-550 | a completed shift adds the amount to a cable once per link on it and adds exactly the cables of the via |
| BalanceChecks.CountWitness | src/ncps_openflow/scn/plugins/bwFlowBalancing.py:541-550 | a cable counted on a via is the cable of one of its links |
| BalanceChecks.ShiftRoundTrip | src/ncps_openflow/scn/plugins/bwFlowBalancing.py:538-550 | moving a flow off a via and back onto it restores every cable's reading |
| BalanceChecks.Headroom | src/ncps_openflow/scn/plugins/bwFlowBalancing.py:337-340 | the headroom is the capacity left to the flow, clamped at 0 |
| BalanceChecks.LinksRespectAll | src/ncps_openflow/scn/plugins/bwFlowBalancing.py:319-351 | the link loop answers True exactly when every link leaves at least the reservation; it raises TypeError exactly when the first link that does not leave enough is unsampled (`None` minus a number); it answers False exactly when that first link is sampled |
| BalanceChecks.LinksRespect | src/ncps_openflow/scn/plugins/bwFlowBalancing.py:319-351 | the only error the link loop raises is TypeError |
| BalanceChecks.RespectedIff | src/ncps_openflow/scn/plugins/bwFlowBalancing.py:285-351 | a route is not reported as respected exactly when it reserves a nonzero bandwidth, its flow has a sample below the reservation, it has links, and some link leaves too little headroom or is unsampled; the check raises exactly when the first such link is unsampled |
| BalanceChecks.States | src/ncps_openflow/scn/plugins/bwFlowBalancing.py:321-351 | the snapshot list has one state per link, in order |
| BalanceChecks.ViolationsExact | src/ncps_openflow/scn/plugins/bwFlowBalancing.py:145-187 | exactly the routes not respected are returned |
| BalanceChecks.ViolationsIdempotent | src/ncps_openflow/scn/plugins/bwFlowBalancing.py:145-187 | checking the returned routes again returns the same list |
| BalanceChecks.ReservedRoutesExact | src/ncps_openflow/scn/plugins/bwFlowBalancing.py:124-141 | the selection fails exactly when a table value is None, and otherwise keeps exactly the routes whose condition dictionary holds the bandwidth key (whatever its value, None included) and not the fix key |
| BalanceChecks.NuisanceCookiesIff | src/ncps_openflow/scn/plugins/bwFlowBalancing.py:195-209 | the loop over a link's cookies answers True exactly when some reserved, sampled route on the link would fall below its reservation |
| BalanceChecks.NuisanceLinksIff | src/ncps_openflow/scn/plugins/bwFlowBalancing.py:191-211 | the check answers True exactly when some link of the candidate hurts a reserved route |
| BalanceChecks.WalkViaFollows | src/ncps_openflow/scn/plugins/bwFlowBalancing.py:234-252 | the links collected follow the hops one for one and each can carry the minimum; a completed walk has one link per hop |
| BalanceChecks.FitsCablesIff | src/ncps_openflow/scn/plugins/bwFlowBalancing.py:265-277 | a via fits exactly when every cable on it is sampled and leaves the minimum bandwidth |
| BalanceChecks.MinBwViasAsWrittenTruncates | src/ncps_openflow/scn/plugins/bwFlowBalancing.py:234-255 | as written, a narrow link stops the walk but the links before it are still offered, ending short of the destination |
| BalanceChecks.MinBwViasFollowsHops | src/ncps_openflow/scn/plugins/bwFlowBalancing.py:216-283 | a candidate follows the hops link for link, each wide enough and leaving the minimum on its cable, is not avoided, and runs from src to dst on a Dijkstra chain |
| BalanceChecks.RetryFindsNothing | src/ncps_openflow/scn/plugins/bwFlowBalancing.py:170-180 | once the candidate is avoided, the same search offers nothing, so retrying after a nuisance stops |
| BalanceChecks.MeanCables | src/ncps_openflow/scn/plugins/bwFlowBalancing.py:385-392 | the mean of the cable readings along a via, 0 for an empty via |
| BalanceChecks.WorthMovingImproves | src/ncps_openflow/scn/plugins/bwFlowBalancing.py:468-496 | a flow is moved only with positive bandwidth, and afterwards both vias carry less than the vacated one did, by more than 5% of it |
| BalanceChecks.InsertDesc | src/ncps_openflow/scn/plugins/bwFlowBalancing.py:362-365 | inserting adds exactly the one flow |
| BalanceChecks.InsertDescSorted | src/ncps_openflow/scn/plugins/bwFlowBalancing.py:362-365 | inserting into a descending list keeps it descending |
| BalanceChecks.SortByBw | src/ncps_openflow/scn/plugins/bwFlowBalancing.py:362-365 | the sort is a permutation of the flows |
| BalanceChecks.SortByBwSorted | src/ncps_openflow/scn/plugins/bwFlowBalancing.py:362-365 | the sort is a descending permutation of the flows |
| BalanceChecks.InsertDescOfBw | src/ncps_openflow/scn/plugins/bwFlowBalancing.py:362-365 | an inserted flow goes ahead of every flow of its own bandwidth |
| BalanceChecks.SortByBwStable | src/ncps_openflow/scn/plugins/bwFlowBalancing.py:362-365 | the sort is stable: the flows of any one bandwidth keep their dictionary order |
| BalanceChecks.Rates | src/ncps_openflow/scn/plugins/bwFlowBalancing.py:357-362 | the rates are read from the flow table in its iteration order |
| Balancing.Keys | src/ncps_openflow/scn/plugins/bwFlowBalancing.py:415 | the link keys of the discovery table, in its order |
| Balancing.ShiftKeepsSampled | src/ncps_openflow/scn/plugins/bwFlowBalancing.py:541-550 | a shift keeps every sampled cable sampled |
| Balancing.MovedCompletes | src/ncps_openflow/scn/plugins/bwFlowBalancing.py:538-550 | on sampled vias the bookkeeping update completes and leaves both vias sampled |
| Balancing.MovedValues | src/ncps_openflow/scn/plugins/bwFlowBalancing.py:538-550 | each cable loses the flow's bandwidth once per old link on it and gains it once per new link on it; an unsampled cable stays unsampled |
| Balancing.MovedBack | src/ncps_openflow/scn/plugins/bwFlowBalancing.py:538-550 | moving a flow back onto its old via restores every cable reading |
| Balancing.NuisanceAbortsAsWritten | src/ncps_openflow/scn/plugins/bwFlowBalancing.py:170-180 | as written, a nuisance candidate aborts the pass with NameError; the corrected pass keeps the route and the table, which is what retrying with the candidate avoided yields |
| Balancing.RespectAllReports | src/ncps_openflow/scn/plugins/bwFlowBalancing.py:145-187 | a completed reservation pass reports exactly the routes not respected, in order |
| Balancing.RespectRouteMoves | src/ncps_openflow/scn/plugins/bwFlowBalancing.py:162-185 | the pass on one route asks at most one update, and only one that takes that route off its via |
| Balancing.RespectAllMoves | src/ncps_openflow/scn/plugins/bwFlowBalancing.py:145-187 | every update the pass asks rescues one of its routes, and earlier updates are kept |
| Balancing.RespectAllRaises | src/ncps_openflow/scn/plugins/bwFlowBalancing.py:145-187 | a route whose check raises makes the whole pass raise |
| Balancing.ViaOfLinks | src/ncps_openflow/scn/plugins/bwFlowBalancing.py:414-417 | the via has one link per Dijkstra hop, the first known link between its switches; it exists iff every hop has a link |
| Balancing.CandidateVia | src/ncps_openflow/scn/plugins/bwFlowBalancing.py:411-417 | the loop building the candidate via computes the via function, a hop without a link being an AttributeError |
| Balancing.OptimizeFlowMoves | src/ncps_openflow/scn/plugins/bwFlowBalancing.py:366-508 | one iteration asks at most one update, and only one that moves a significant, unfixed flow whose condition dictionary is truthy (holds the bandwidth or the fix key, a bandwidth of None included) onto another via |
| Balancing.OptimizeAllMoves | src/ncps_openflow/scn/plugins/bwFlowBalancing.py:353-508 | every update the best-effort pass asks improves one of its flows, and earlier updates are kept |
| Balancing.HandleReports | src/ncps_openflow/scn/plugins/bwFlowBalancing.py:93-116 | a completed handling reports exactly the bandwidth-reserving, unfixed routes whose reservation is not met, in table order |
| Balancing.CookiesOf | src/ncps_openflow/scn/plugins/bwFlowBalancing.py:111 | the reported list is the cookies of the routes, in order |
| Balancing.ReportedCookies | src/ncps_openflow/scn/plugins/bwFlowBalancing.py:100-113 | the cookies reported are exactly those of the table's routes that reserve bandwidth, are not fixed, and are not respected |
| Balancing.TickReports | src/ncps_openflow/scn/plugins/bwFlowBalancing.py:86-120 | a tick pushes at most one failure list, whose cookies are exactly those of the unmet routes |
| Balancing.TickBlockedWhileHandling | src/ncps_openflow/scn/plugins/bwFlowBalancing.py:93 | while a handling is under way a tick moves no flow and pushes nothing |
| Balancing.Balancer.constructor | src/ncps_openflow/scn/plugins/bwFlowBalancing.py:39-50 | the balancer starts stopped and idle, then start runs a first tick |
| Balancing.Balancer.Reboot | src/ncps_openflow/scn/plugins/bwFlowBalancing.py:54-55 | after a reboot the balancer is not running |
| Balancing.Balancer.Start | src/ncps_openflow/scn/plugins/bwFlowBalancing.py:63-73 | a running balancer answers 'Already running.' and changes nothing; a stopped one runs again, ticking at once unless its loop is still alive |
| Balancing.Balancer.Stop | src/ncps_openflow/scn/plugins/bwFlowBalancing.py:77-82 | the answer says whether it was running, and afterwards it is not |
| Balancing.Balancer.Loop | src/ncps_openflow/scn/plugins/bwFlowBalancing.py:86-120 | one timer tick changes the state as the tick function specifies |
| Balancing.Balancer.HandleRequest | src/ncps_openflow/scn/plugins/bwFlowBalancing.py:93-116 | the handling block changes the state as specified; an error leaves handling set |
| Balancing.Balancer.OptimizeAndRecheck | src/ncps_openflow/scn/plugins/bwFlowBalancing.py:104-109 | the best-effort pass, then the reservation pass over the routes first reported |
| Balancing.Balancer.CheckConditions | src/ncps_openflow/scn/plugins/bwFlowBalancing.py:124-141 | the selection loop and the reservation pass act as the pass function specifies |
| Balancing.Balancer.RespectBandwidthReservation | src/ncps_openflow/scn/plugins/bwFlowBalancing.py:145-187 | the loop over the routes acts as the pass function specifies |
| Balancing.Balancer.RespectOne | src/ncps_openflow/scn/plugins/bwFlowBalancing.py:162-185 | one retry pass acts as the corrected pass function `RespectRoute` specifies, which searches for a candidate (`Balancing.Candidate`: the corrected `getMinBwVias` for the reserved bandwidth, avoiding the current via) and moves the route unless the candidate is a nuisance; this row covers both functions |
| Balancing.Balancer.IsBandwidthRespected | src/ncps_openflow/scn/plugins/bwFlowBalancing.py:285-351 | the answer, or the TypeError raised for an unsampled link, is the route check characterised by RespectedIff and LinksRespectAll |
| BalanceChecks.ReservedOn | src/ncps_openflow/scn/plugins/bwFlowBalancing.py:238-242 | the reservations on a link: KeyError exactly when some stored route's condition dictionary lacks the bandwidth key; a key holding None adds nothing; with non-negative reservations the sum is not negative |
| Balancing.Balancer.Reserved | src/ncps_openflow/scn/plugins/bwFlowBalancing.py:240-244 | the loop over a link's cookies sums the reservations ReservedOn gives |
| Balancing.Balancer.GetMinBwVias | src/ncps_openflow/scn/plugins/bwFlowBalancing.py:216-283 | the candidate is the corrected search's, or the shortest-path search's error |
| Balancing.Balancer.WalkCandidate | src/ncps_openflow/scn/plugins/bwFlowBalancing.py:233-250 | the first loop collects the hops' links while each leaves the requested bandwidth, and reports whether it stopped short |
| Balancing.Balancer.CablesFit | src/ncps_openflow/scn/plugins/bwFlowBalancing.py:267-273 | the second loop accepts the candidate iff every cable on it is sampled and leaves the requested bandwidth |
| Balancing.Balancer.IsNuisance | src/ncps_openflow/scn/plugins/bwFlowBalancing.py:191-211 | the loops answer what the nuisance function, characterised by NuisanceLinksIff, gives |
| Balancing.Balancer.MeanBw | src/ncps_openflow/scn/plugins/bwFlowBalancing.py:385-392 | the summing loop gives the mean cable reading along the via |
| Balancing.Balancer.OptimizeFlows | src/ncps_openflow/scn/plugins/bwFlowBalancing.py:353-508 | the flows are visited largest first, each given one chance to move, as the pass function specifies |
| Balancing.Balancer.OptimizeOne | src/ncps_openflow/scn/plugins/bwFlowBalancing.py:366-508 | one iteration acts as the iteration function `Balancing.OptimizeFlow` specifies: routes with a falsy condition dictionary or a true fix are skipped, and a dictionary holding only a bandwidth key set to None is truthy; OptimizeFlowMoves states what that function may change, and this row covers both |
| Balancing.Balancer.UpdateRoute | src/ncps_openflow/scn/plugins/bwFlowBalancing.py:512-550 | the update is asked, then the flow's bandwidth moves from the old via's cables to the new via's, as the function `Balancing.Reroute` specifies (AttributeError without links, KeyError without a sample); this row covers both |
| Balancing.Balancer.ShiftCables | src/ncps_openflow/scn/plugins/bwFlowBalancing.py:541-550 | each cable loop acts as the shift function specifies |
| MiddlewarePath.NextCookie | src/ncps_openflow/scn/plugins/middleware/path.py:89-91 | the counter always stays within 0 .. MAX_COOKIE |
| MiddlewarePath.CookieCounter.constructor | src/ncps_openflow/scn/plugins/middleware/path.py:24 | the global counter starts at 1 |
| MiddlewarePath.CookieCounter.Generate | src/ncps_openflow/scn/plugins/middleware/path.py:87-92 | the cookie handed out is the counter's value, and the counter advances modulo MAX_COOKIE + 1 |
| MiddlewarePath.Issued | src/ncps_openflow/scn/plugins/middleware/path.py:87-92 | k calls hand out k cookies |
| MiddlewarePath.NextCookieStep | src/ncps_openflow/scn/plugins/middleware/path.py:89-91 | advancing is a plain increment except at MAX_COOKIE, which wraps to 0 |
| MiddlewarePath.IssuedWraps | src/ncps_openflow/scn/plugins/middleware/path.py:87-92 | the i-th cookie handed out from c is c + i wrapped into 0 .. MAX_COOKIE |
| MiddlewarePath.IssuedDistinct | src/ncps_openflow/scn/plugins/middleware/path.py:87-92 | up to MAX_COOKIE + 1 consecutive cookies are pairwise different |
| MiddlewarePath.WrapIssuesZero | src/ncps_openflow/scn/plugins/middleware/path.py:23-24 | starting from 1 the counter hands out 1, 2, … and then 0 on its MAX_COOKIE + 1-th call |
| MiddlewarePath.Subject | src/ncps_openflow/scn/plugins/middleware/path.py:240 | the pattern's end anchor also matches before one final newline |
| MiddlewarePath.DigitRun | src/ncps_openflow/scn/plugins/middleware/path.py:240 | the greedy digit group takes the longest all-digit prefix |
| MiddlewarePath.ChooseUnit | src/ncps_openflow/scn/plugins/middleware/path.py:246-249 | an explicit unit is kept only when it is one of P, G, M, K; otherwise the parsed unit is used |
| MiddlewarePath.AcceptedSplit | src/ncps_openflow/scn/plugins/middleware/path.py:240 | any split the pattern accepts starts with exactly the greedy digit run |
| MiddlewarePath.BpsTailHead | src/ncps_openflow/scn/plugins/middleware/path.py:240 | the bps suffixes start with b or B, never with a unit letter |
| MiddlewarePath.ParseAccepts | src/ncps_openflow/scn/plugins/middleware/path.py:242-254 | the parse succeeds exactly on the strings the pattern accepts, and fails with ValueError otherwise |
| MiddlewarePath.ParseFields | src/ncps_openflow/scn/plugins/middleware/path.py:242-254 | a parse keeps a nonempty digit prefix of the input and a unit drawn from P, G, M, K, the explicit unit first |
| MiddlewarePath.FormatRoundTrip | src/ncps_openflow/scn/plugins/middleware/path.py:235-254 | a well-formed bandwidth written out, e.g. 200Mbps, parses back to itself |
| MiddlewarePath.MakeStrategy | src/ncps_openflow/scn/plugins/middleware/path.py:225-232 | a missing or empty logic is DIJKSTRA and a missing or empty timing is STATIC; given values are kept |
| MiddlewarePath.MakeConditions | src/ncps_openflow/scn/plugins/middleware/path.py:188-201 | an empty bandwidth stays absent and a given one must parse (ValueError otherwise); the strategy takes its defaults; a missing or zero priority is 255 |
| MiddlewarePath.GetId | src/ncps_openflow/scn/plugins/middleware/path.py:276-289 | the VLAN when set, else the TOS, else nothing |
| MiddlewarePath.GetAttr | src/ncps_openflow/scn/plugins/middleware/path.py:52 | a missing attribute reads as None |
| MiddlewarePath.SetAttr | src/ncps_openflow/scn/plugins/middleware/path.py:34-40 | outside the constructor any assignment is an AttributeError; inside, exactly the one attribute changes |
| MiddlewarePath.ReadOnlyEqBasics | src/ncps_openflow/scn/plugins/middleware/path.py:48-54 | every object equals itself, objects of different classes never do, and the same attributes compare equal both ways |
| MiddlewarePath.ReadOnlyEqAsymmetric | src/ncps_openflow/scn/plugins/middleware/path.py:48-54 | the comparison reads only the left object's attributes, with missing ones as None, so it is not symmetric |
| MiddlewarePath.Applied | src/ncps_openflow/scn/plugins/middleware/path.py:122-132 | one install per link in order, flagged last when it is the list's final link, stopping at the first missing link |
| MiddlewarePath.Removed | src/ncps_openflow/scn/plugins/middleware/path.py:134-143 | one removal per link in order, stopping at the first missing link |
| MiddlewarePath.OnlyFinalIsLast | src/ncps_openflow/scn/plugins/middleware/path.py:127-130 | with no repeated link, exactly the final link is installed as the last one |
| MiddlewarePath.RepeatedLastLink | src/ncps_openflow/scn/plugins/middleware/path.py:127-130 | a link repeated at the end is installed as last at both of its positions |
| MiddlewarePath.Path.constructor | src/ncps_openflow/scn/plugins/middleware/path.py:75-84 | a new path has no links and no id, and takes the next cookie from the counter |
| MiddlewarePath.Path.ApplyFlowEntries | src/ncps_openflow/scn/plugins/middleware/path.py:122-132 | the installs are the ones Applied gives; a PathChangedEv follows exactly when every link was present, an AttributeError otherwise |
| MiddlewarePath.Path.RemoveFlowEntries | src/ncps_openflow/scn/plugins/middleware/path.py:134-143 | the removals are the ones Removed gives; a PathChangedEv follows exactly when every link was present |
| MiddlewarePath.Path.UpdateLinksAsWritten | src/ncps_openflow/scn/plugins/middleware/path.py:104-115 | as written, the new list is stored first, so emptying a path removes nothing |
| MiddlewarePath.Path.UpdateLinks | src/ncps_openflow/scn/plugins/middleware/path.py:104-115 | new links are stored and installed; emptying a path removes the entries of the links it held |
| MiddlewarePath.RemoveLinksAsWrittenRemovesNothing | src/ncps_openflow/scn/plugins/middleware/path.py:104-119 | emptying a path with installed links removes nothing as written, and one entry per link as intended |
| RouteCreator.EntryBandwidth | src/ncps_openflow/scn/plugins/middleware/routeCreator.py:109-113 | a reservation adds its bandwidth when both the dictionary and the value are truthy, 0 otherwise |
| RouteCreator.SumReserved | src/ncps_openflow/scn/plugins/middleware/routeCreator.py:107-113 | the loop adds up the truthy reserved bandwidths |
| RouteCreator.ReservedSumGrows | src/ncps_openflow/scn/plugins/middleware/routeCreator.py:107-113 | with no negative reservation, the total is no less than any prefix sum and not negative |
| RouteCreator.CostCovers | src/ncps_openflow/scn/plugins/middleware/routeCreator.py:103-117 | the cost is the larger of the use in bits and the reservation, divided by 8 for bit statistics |
| RouteCreator.CostMonotone | src/ncps_openflow/scn/plugins/middleware/routeCreator.py:107-117 | one more reservation of non-negative bandwidth never lowers a link's cost |
| RouteCreator.CostNonNegative | src/ncps_openflow/scn/plugins/middleware/routeCreator.py:103-117 | a link with non-negative use and reservations has a non-negative cost |
| RouteCreator.CreateGraph | src/ncps_openflow/scn/plugins/middleware/routeCreator.py:95-121 | the loop builds the graph the specification function gives |
| RouteCreator.GraphOfEntries | src/ncps_openflow/scn/plugins/middleware/routeCreator.py:95-121 | the graph has a row per link source and an entry per link and nothing else; each entry is the cost of the last link between those switches |
| RouteCreator.GraphOfNonNegative | src/ncps_openflow/scn/plugins/middleware/routeCreator.py:95-121 | from links with non-negative figures the graph has no negative weight |
| RouteCreator.Along | src/ncps_openflow/scn/plugins/middleware/routeCreator.py:197 | one getLinkByDpid lookup per hop, in order |
| RouteCreator.AlongFollowsChain | src/ncps_openflow/scn/plugins/middleware/routeCreator.py:186-203 | the links read along a chain leave src, reach dst and meet end to end; a hop has a link exactly when some known link joins its switches |
| RouteCreator.SearchLinks | src/ncps_openflow/scn/plugins/middleware/routeCreator.py:124-203 | [] when src is not a node; KeyError exactly when src is a node and some link leads to a switch that is not one; [] when dst is nobody's neighbour or src equals it, and only then; otherwise the links along a chain of graph edges from src to dst that costs no more than any other, and a destination reachable below 10**15 always gets one |
| RouteCreator.ReadBack | src/ncps_openflow/scn/plugins/middleware/routeCreator.py:186-203 | the backtracking yields the links along a cheapest chain from src to dst, [] only when they coincide, and it reaches any destination reachable below 10**15 |
| RouteCreator.SearchResultRouted | src/ncps_openflow/scn/plugins/middleware/routeCreator.py:186-203 | a nonempty search result is routed: one link per hop of a chain from src to dst |
| RouteCreator.AsList | src/ncps_openflow/scn/plugins/middleware/routeCreator.py:48-52 | a falsy argument is an empty list and a single path is wrapped into a list |
| RouteCreator.KeysOf | src/ncps_openflow/scn/plugins/middleware/routeCreator.py:54 | the ends of every known link, in order |
| RouteCreator.EstimateOne | src/ncps_openflow/scn/plugins/middleware/routeCreator.py:57-72 | a path is stored only with routed links and left unserved only when it is unroutable; without auto-apply nothing is installed |
| RouteCreator.EstimateRoute | src/ncps_openflow/scn/plugins/middleware/routeCreator.py:46-74 | on success every path holds routed links between its hosts, all present when applied; False only when some path is unroutable, and never when none is; a link to a switch without links of its own raises KeyError; without auto-apply nothing is installed |
| RouteCreator.EstimateAll | src/ncps_openflow/scn/plugins/middleware/routeCreator.py:57-74 | the loop over the paths serves every path or stops at an unroutable one |
| Widgets.Get | src/ncps_openflow/scn/plugins/middleware/utils/widgets.py:80-83 | a dictionary lookup yields the stored value, or None for a missing key |
| Widgets.ToInt | src/ncps_openflow/scn/plugins/middleware/utils/widgets.py:64 | an integer stays as it is, a non-numeric string fails with ValueError and None, a dictionary or a list fails with TypeError |
| Widgets.MakePeer | src/ncps_openflow/scn/plugins/middleware/utils/widgets.py:56-70 | with the address kept as given, a peer is built exactly when its port converts to an integer; it keeps address and domain, and a falsy protocol becomes TCP so the stored protocol is always truthy |
| Widgets.FromDict | src/ncps_openflow/scn/plugins/middleware/utils/widgets.py:74-85 | anything but a dictionary gives None; a dictionary gives a peer built from its four entries, or the conversion error |
| Widgets.FromDictRoundTrip | src/ncps_openflow/scn/plugins/middleware/utils/widgets.py:74-99 | a peer serialised to its attribute dictionary and read back is the same peer |
| Widgets.PeerEqIff | src/ncps_openflow/scn/plugins/middleware/utils/widgets.py:101-109 | two peers compare equal exactly when they agree on at least one field; the relation is symmetric and reflexive, and a non-peer is never equal |
| Widgets.PeerEqNotTransitive | src/ncps_openflow/scn/plugins/middleware/utils/widgets.py:101-109 | the peer equality is not transitive: three concrete peers where a equals b and b equals c but a differs from c |
| Widgets.NodeEq | src/ncps_openflow/scn/plugins/middleware/utils/widgets.py:147-148 | against a client node the result is equal ids and peer equality; anything else raises AttributeError before the peer test |
| Widgets.TraceList.constructor | src/ncps_openflow/scn/plugins/middleware/utils/widgets.py:171-173 | a new trace list is empty |
| Widgets.TraceList.Append | src/ncps_openflow/scn/plugins/middleware/utils/widgets.py:176-181 | the peer is pushed on top of the trace |
| Widgets.TraceList.Pop | src/ncps_openflow/scn/plugins/middleware/utils/widgets.py:184-188 | the most recent peer is removed and returned; an empty trace gives None and is unchanged |
| Widgets.Pushed | src/ncps_openflow/scn/plugins/middleware/utils/widgets.py:176-181 | a push adds exactly one peer |
| Widgets.Popped | src/ncps_openflow/scn/plugins/middleware/utils/widgets.py:184-188 | popping an empty trace gives None and changes nothing; otherwise a peer comes back and the trace shrinks by one |
| Widgets.PopUndoesPush | src/ncps_openflow/scn/plugins/middleware/utils/widgets.py:176-188 | last in, first out: a pop right after a push returns the pushed peer and restores the trace |
| Widgets.PopsReverse | src/ncps_openflow/scn/plugins/middleware/utils/widgets.py:176-188 | pushing a sequence of peers and popping as many times returns them in reverse order and restores the trace |
| Widgets.PushAllSnoc | src/ncps_openflow/scn/plugins/middleware/utils/widgets.py:176-181 | pushing a sequence and then one more peer is pushing the longer sequence |
| Widgets.GetTraceList | src/ncps_openflow/scn/plugins/middleware/utils/widgets.py:198-209 | the loop builds a fresh trace holding, in order, one peer per string or dictionary item, and fails exactly when some item fails to convert |
| Widgets.TraceOfErrSticks | src/ncps_openflow/scn/plugins/middleware/utils/widgets.py:204-208 | one item that fails to convert makes the whole trace fail, whatever follows |
| Widgets.TraceOfCounts | src/ncps_openflow/scn/plugins/middleware/utils/widgets.py:204-208 | a successful trace has exactly one peer per string or dictionary item; every other item is skipped |
| Widgets.IndexBy | src/ncps_openflow/scn/plugins/middleware/utils/widgets.py:268-283 | the index is -1 exactly when no node has the attribute value, and otherwise the first node that has it |
| Widgets.GetBy | src/ncps_openflow/scn/plugins/middleware/utils/widgets.py:257-283 | None exactly when the index is -1, otherwise the first node holding the attribute value, which is in the list |
| Widgets.Appended | src/ncps_openflow/scn/plugins/middleware/utils/widgets.py:286-300 | after an append the new node is last |
| Widgets.AppendedUnique | src/ncps_openflow/scn/plugins/middleware/utils/widgets.py:286-300 | appending keeps one node per IP address: the new node is last, every other address keeps its node, the replaced node is gone, and the length grows only for a new address |
| Widgets.AppendedReplacing | src/ncps_openflow/scn/plugins/middleware/utils/widgets.py:296-300 | when the address is already known the old node makes way for the new one and the length stays the same |
| Widgets.SnocUnique | src/ncps_openflow/scn/plugins/middleware/utils/widgets.py:292-293 | a node with a new address can be added at the end without repeating an address |
| Widgets.RemoveAtFacts | src/ncps_openflow/scn/plugins/middleware/utils/widgets.py:297 | deleting the first node with an address from a list of distinct addresses shifts the rest down and leaves no node with that address |
| Widgets.NodeList.constructor | src/ncps_openflow/scn/plugins/middleware/utils/widgets.py:234-236 | a new node list is empty |
| Widgets.NodeList.Append | src/ncps_openflow/scn/plugins/middleware/utils/widgets.py:286-300 | the list becomes the append of the node: the node with the same IP address is replaced, or the node is added |
| Handler.NatToString | src/ncps_openflow/scn/plugins/middleware/handler.py:380 | the decimal text of a cookie is non-empty and made of digits only |
| Handler.DecimalOfNatToString | src/ncps_openflow/scn/plugins/middleware/handler.py:380 | reading the decimal text of a number back gives the number |
| Handler.IntOfNatToString | src/ncps_openflow/scn/plugins/middleware/handler.py:319 | converting the decimal text of a cookie with int gives the cookie |
| Handler.DigitsFree | src/ncps_openflow/scn/plugins/middleware/handler.py:316 | a string of digits cannot hold the separator "_bi_" |
| Handler.ParseBiId | src/ncps_openflow/scn/plugins/middleware/handler.py:316-319 | an identifier splits into exactly two decimal integers, or the failure is a ValueError |
| Handler.ParseBiIdRoundTrip | src/ncps_openflow/scn/plugins/middleware/handler.py:316-380 | the identifier built from two route cookies splits back into the same two cookies |
| Handler.BiIdInjective | src/ncps_openflow/scn/plugins/middleware/handler.py:380 | different cookie pairs never share a path identifier |
| Handler.GetPaths | src/ncps_openflow/scn/plugins/middleware/handler.py:360-362 | the two paths run in opposite directions between the recorded hosts, with the same type of service |
| Handler.WithTcp | src/ncps_openflow/scn/plugins/middleware/handler.py:180 | after the response's protocol is set, the listen peer keeps its address, port and domain and uses TCP |
| Handler.NewNode | src/ncps_openflow/scn/plugins/middleware/handler.py:139-144 | the new client node carries the issued id, the listen peer's address and port, the current time, and TCP for a falsy protocol |
| Handler.ScnIdLookup | src/ncps_openflow/scn/plugins/middleware/handler.py:134 | looking an id up finds nothing exactly when no node holds that id |
| Handler.AppendedFreshId | src/ncps_openflow/scn/plugins/middleware/handler.py:134-145 | adding a node with a new id keeps the ids distinct and adds exactly that id |
| Handler.RemoveAtIds | src/ncps_openflow/scn/plugins/middleware/utils/widgets.py:297 | removing one node keeps the other ids distinct, and every remaining node was there before |
| Handler.SnocFreshId | src/ncps_openflow/scn/plugins/middleware/utils/widgets.py:298 | a node whose id is new can go at the end without repeating an id |
| Handler.Beat | src/ncps_openflow/scn/plugins/middleware/handler.py:245-248 | a heartbeat never adds or removes a node |
| Handler.BeatKeepsIdentities | src/ncps_openflow/scn/plugins/middleware/handler.py:245-248 | a heartbeat changes no id and no peer; only the first node with the sender's address gets the new time, and distinct ids and addresses stay distinct |
| Handler.BeatFound | src/ncps_openflow/scn/plugins/middleware/handler.py:245-248 | after a heartbeat, the node found by the sender's address is the one that beat, stamped with the current time |
| Handler.SilentNodeRevives | src/ncps_openflow/scn/plugins/middleware/handler.py:390-392 | with a 10-second interval, a node silent for a day and five seconds passes the written test but fails the intended one |
| Handler.IsAliveProperties | src/ncps_openflow/scn/plugins/middleware/handler.py:390-392 | within a day of the heartbeat the written and the intended test agree; once the intended test fails it stays failed; a node that just beat is alive |
| Handler.BeatKeepsAlive | src/ncps_openflow/scn/plugins/middleware/handler.py:386-392 | a node that has just sent a heartbeat is found by its address and is alive whenever the interval is positive |
| Handler.GroupsOverAdd | src/ncps_openflow/scn/plugins/middleware/handler.py:315-326 | visiting one more path adds it to the group of its creating node exactly when it uses a failed cookie |
| Handler.GroupsAddFailed | src/ncps_openflow/scn/plugins/middleware/handler.py:320-326 | grouping one more failed path extends only the group of its creating node |
| Handler.PeersOfAdd | src/ncps_openflow/scn/plugins/middleware/handler.py:317 | the creators of one more path are the old creators plus its creator |
| Handler.GroupOfAdd | src/ncps_openflow/scn/plugins/middleware/handler.py:320-322 | one more path joins a node's group exactly when that node created it |
| Handler.GroupsExact | src/ncps_openflow/scn/plugins/middleware/handler.py:314-331 | a path sits in a group exactly when it uses a failed cookie, and it sits in the group of the node that created it; no group is empty |
| Handler.PushesTo | src/ncps_openflow/scn/plugins/middleware/handler.py:345-347 | a push request sends one push per recipient, in order |
| Handler.OwedAdd | src/ncps_openflow/scn/plugins/middleware/handler.py:330-332 | serving one more group owes the pushes to its recipients on top of the others |
| Handler.PushStep | src/ncps_openflow/scn/plugins/middleware/handler.py:330-332 | one push request keeps the pushes already made and serves exactly one more group |
| Handler.FailureReported | src/ncps_openflow/scn/plugins/middleware/handler.py:310-347 | every failed path reaches the node that created it, or every known node when that node is unknown |
| Handler.PushesCarryFailures | src/ncps_openflow/scn/plugins/middleware/handler.py:310-347 | each push carries only failed paths, all created by its recipient or by an unknown node |
| Handler.Handler.constructor | src/ncps_openflow/scn/plugins/middleware/handler.py:99-112 | a new handler has no paths, no nodes, no commands, the last id 0 and the given heartbeat settings |
| Handler.Handler.NextScnId | src/ncps_openflow/scn/plugins/middleware/handler.py:128-136 | the scan returns the first id after the last one, wrapping at 65536, that is not 0 and that no node holds, or none |
| Handler.Handler.Initialize | src/ncps_openflow/scn/plugins/middleware/handler.py:121-160 | the new id goes to a new node for the listen peer, which replaces the node with the same address, and becomes the last id; with no free id the answer is ERR_CANNOT_GET_SCNID and nothing changes; the mesh is asked for either way |
| Handler.Handler.CreateBiPath | src/ncps_openflow/scn/plugins/middleware/handler.py:163-186 | when both routes are created the path is recorded under its pair identifier with the node registered at the listen peer's address, otherwise the answer is ERR_CANNOT_GET_PATHID and the table is unchanged |
| Handler.HeartbeatSharesGroup | src/ncps_openflow/scn/plugins/middleware/handler.py:314-332 | a node that sent a heartbeat between creating two failed paths has both paths in its one group, and is owed one push listing both |
| Handler.CreatorAsWrittenBroadcasts | src/ncps_openflow/scn/plugins/middleware/handler.py:175 | as written, looking the node up by the peer object finds none, so a failure report goes to every node instead of to the one registered at the listen address |
| Handler.Handler.UpdatePath | src/ncps_openflow/scn/plugins/middleware/handler.py:189-214 | an unknown path is ERR_INVALID_PATHID; a known one gets the requested bandwidth on its forward route; optimization is requested unless the route is missing, which raises |
| Handler.Handler.DeleteBiPath | src/ncps_openflow/scn/plugins/middleware/handler.py:217-238 | a known path leaves the table and both directions are deleted; an unknown one is ERR_INVALID_PATHID and changes nothing |
| Handler.Handler.HeartBeat | src/ncps_openflow/scn/plugins/middleware/handler.py:241-249 | the node with the sender's address, if any, records the current time |
| Handler.Handler.Optimize | src/ncps_openflow/scn/plugins/middleware/handler.py:252-265 | an optimization is requested and the answer carries no error |
| Handler.Handler.IsNodeAlive | src/ncps_openflow/scn/plugins/middleware/handler.py:386-388 | true exactly when a node with that address exists and passes the heartbeat test |
| Handler.Handler.PushRequest | src/ncps_openflow/scn/plugins/middleware/handler.py:334-347 | without a target every known node gets one push, in list order; with a target only that node does |
| Handler.Handler.GroupFailures | src/ncps_openflow/scn/plugins/middleware/handler.py:314-328 | the first loop builds exactly the grouping of failed paths by creating node, the node taken by id and peer as `ScnClientNode`'s hash and equality take it, whatever its heartbeat |
| Handler.Handler.PushGroups | src/ncps_openflow/scn/plugins/middleware/handler.py:330-332 | the second loop keeps earlier pushes and adds exactly the pushes owed to every group |
| Handler.Handler.PushOptimizeFailure | src/ncps_openflow/scn/plugins/middleware/handler.py:310-332 | the pushes made are exactly those owed for the failed paths, grouped by creating node (id and peer, not heartbeat), so a node gets one push for all the failed paths it created |
| Handler.Handler.Handle | src/ncps_openflow/scn/plugins/middleware/handler.py:42-73 | every request but a heartbeat is logged; a heartbeat raises nothing and every other request raises one response with its id, which is the internal-error answer exactly when its handler raised |
| MwConnection.GetNode | src/ncps_openflow/scn/plugins/middleware/utils/connection.py:37-53 | no host for an unknown switch or an unknown port; otherwise the port's host with the packet's source address, exactly when it exists |
| MwConnection.DeliverAll | src/ncps_openflow/scn/plugins/middleware/utils/connection.py:24-34 | without a callback or a known node nothing is delivered; otherwise each item goes to the node, in order |
| MwConnection.FramedJoin | src/ncps_openflow/scn/plugins/middleware/utils/connection.py:109 | the items followed by delimiters are the items joined with the delimiter plus a final delimiter |
| MwConnection.JoinSnoc | src/ncps_openflow/scn/plugins/middleware/utils/connection.py:109 | joining with one more piece appends the delimiter and that piece |
| MwConnection.CutRoundTrip | src/ncps_openflow/scn/plugins/middleware/utils/connection.py:106-121 | splitting loses and invents nothing: the complete items, each followed by the delimiter, then the kept remainder, are the buffer; no item and no remainder holds the delimiter |
| MwConnection.CutWithoutDelimiter | src/ncps_openflow/scn/plugins/middleware/utils/connection.py:114-116 | a buffer without a delimiter yields no item and is kept whole |
| MwConnection.CutWithDelimiter | src/ncps_openflow/scn/plugins/middleware/utils/connection.py:118-121 | a buffer with a delimiter yields at least one complete item |
| MwConnection.MwTcpServer.constructor | src/ncps_openflow/scn/plugins/middleware/utils/connection.py:88-91 | a new server has no buffers, has delivered nothing, and keeps its callback and listening port |
| MwConnection.MwTcpServer.Buffer | src/ncps_openflow/scn/plugins/middleware/utils/connection.py:107 | a port with no buffer reads as the empty string |
| MwConnection.MwTcpServer.Matches | src/ncps_openflow/scn/plugins/middleware/utils/connection.py:94-101 | a packet matches exactly when it comes from a known host and is addressed to the listening port |
| MwConnection.MwTcpServer.Deliver | src/ncps_openflow/scn/plugins/middleware/utils/connection.py:24-34 | the callback receives the payload with its node when both exist; the buffers do not change |
| MwConnection.MwTcpServer.PayloadReceived | src/ncps_openflow/scn/plugins/middleware/utils/connection.py:104-121 | the payload joins the port's buffer, every complete item is delivered in order, the remainder is kept, and other ports' buffers stay as they were |
| MwConnection.DelimiterIsEscapedText | src/ncps_openflow/scn/plugins/middleware/utils/connection.py:86 | the delimiter is eight characters of escaped text and holds no carriage return or line feed |
| Discovery.DigitValue | src/ncps_openflow/scn/scnDiscovery.py:283 | a digit has a value below 16, and a value below 10 exactly for a decimal digit |
| Discovery.ToBase | src/ncps_openflow/scn/scnDiscovery.py:141 | the printed dpid and port number are non-empty digit strings with no prefix, suffix or line break |
| Discovery.ParseBase | src/ncps_openflow/scn/scnDiscovery.py:330-332 | with the `isdigit` guard in front, parsing succeeds exactly on a non-empty string of digits of the base |
| Discovery.ParseHex | src/ncps_openflow/scn/scnDiscovery.py:283 | `int(s, 16)`: a bare hexadecimal number reads as its value; a value exists exactly when the text after an optional sign and an optional `0x` or `0X` is a non-empty run of hexadecimal digits; it is negative only after a minus |
| Discovery.ParseHexPrefixed | src/ncps_openflow/scn/scnDiscovery.py:283 | a `0x` or `0X` prefix does not change the value |
| Discovery.ParseHexPlus | src/ncps_openflow/scn/scnDiscovery.py:283 | a leading plus does not change the value |
| Discovery.ParseHexMinus | src/ncps_openflow/scn/scnDiscovery.py:283 | a leading minus before `0x` negates the value |
| Discovery.ParseHexNeedsDigits | src/ncps_openflow/scn/scnDiscovery.py:283 | a prefix or sign without digits, and the empty string, are no number |
| Discovery.FromToBase | src/ncps_openflow/scn/scnDiscovery.py:141-145 | the value of a printed number is the number |
| Discovery.DivMod | src/ncps_openflow/scn/scnDiscovery.py:141 | dividing by the base shrinks a number of two or more digits and keeps the remainder |
| Discovery.FromBaseSnoc | src/ncps_openflow/scn/scnDiscovery.py:283 | one more digit multiplies the value by the base and adds the digit |
| Discovery.ParseToBase | src/ncps_openflow/scn/scnDiscovery.py:141-145 | printing a number in base 10 or 16 and parsing it back gives the number |
| Discovery.InterdomainTlvs | src/ncps_openflow/scn/scnDiscovery.py:169-200 | the gateway TLVs are basic TLVs of types 123 to 126, in increasing order |
| Discovery.NoTypeConcat | src/ncps_openflow/scn/scnDiscovery.py:371-374 | two TLV lists without a type make a list without it |
| Discovery.InterdomainLookup | src/ncps_openflow/scn/scnDiscovery.py:169-200 | each gateway field is found under its own TLV type, and an unset field is not found |
| Discovery.LookInFirst | src/ncps_openflow/scn/scnDiscovery.py:371-374 | an optional TLV is found when present, and otherwise the search goes on behind it |
| Discovery.DpidText | src/ncps_openflow/scn/scnDiscovery.py:141 | the chassis ID and system description text is "dpid:" followed by hexadecimal digits |
| Discovery.DiscoveryTlvs | src/ncps_openflow/scn/scnDiscovery.py:134-156 | a discovery frame carries chassis ID, port ID, TTL 120 and the system description, then the gateway TLVs, then End |
| Discovery.DiscoveryPacket | src/ncps_openflow/scn/scnDiscovery.py:134-166 | the frame goes out on the port, from the port's address to the NDP multicast address, with the LLDP type and those TLVs |
| Discovery.DpidFromLines | src/ncps_openflow/scn/scnDiscovery.py:280-285 | a dpid found comes from some line that starts with "dpid:" followed by text `int(s, 16)` accepts |
| Discovery.DpidFromSysDesc | src/ncps_openflow/scn/scnDiscovery.py:280-292 | a "dpid:" line wins; otherwise a dpid is found exactly when the description is eight bytes long |
| Discovery.LookInSysDesc | src/ncps_openflow/scn/scnDiscovery.py:275-292 | without a system description there is no dpid |
| Discovery.OriginatorDpid | src/ncps_openflow/scn/scnDiscovery.py:294-314 | the dpid comes from the system description, else from a local "dpid:" chassis ID, else from a 6-byte MAC chassis ID |
| Discovery.OriginatorPort | src/ncps_openflow/scn/scnDiscovery.py:326-338 | a port needs the port-component subtype; decimal digits give their value, otherwise only a 2-byte id gives one |
| Discovery.ReceiveLldp | src/ncps_openflow/scn/scnDiscovery.py:247-351 | a link comes only from an LLDP frame to the NDP multicast address with the mandatory TLVs, whose dpid is a connected switch and whose port parses, and it joins two different ports |
| Discovery.NoNewline | src/ncps_openflow/scn/scnDiscovery.py:280 | a string without line breaks splits into a single line |
| Discovery.ReceiveOwnPacket | src/ncps_openflow/scn/scnDiscovery.py:134-351 | a discovery frame this controller built, received on another port, reveals the link to the port it left; received on that same port it is a loop and is dropped |
| Discovery.OwnSysDesc | src/ncps_openflow/scn/scnDiscovery.py:153-292 | the system description this controller writes reads back as its dpid |
| Discovery.LookInType | src/ncps_openflow/scn/scnDiscovery.py:371-374 | a value found is the data of a TLV of that type in the list |
| Discovery.LookInSkip | src/ncps_openflow/scn/scnDiscovery.py:371-374 | TLVs of other types in front do not change what is found |
| Discovery.GatewayRoundTrip | src/ncps_openflow/scn/scnDiscovery.py:368-412 | the gateway a discovery frame advertises is read back unchanged |
| Discovery.LookInAppend | src/ncps_openflow/scn/scnDiscovery.py:371-374 | TLVs of other types behind do not change what is found |
| Discovery.ItemsForMembers | src/ncps_openflow/scn/scnDiscovery.py:116-121 | a switch has a packet queued for each of its physical ports and for no other port |
| Discovery.DropSwitch | src/ncps_openflow/scn/scnDiscovery.py:114 | exactly the other switches' packets are kept |
| Discovery.DropPort | src/ncps_openflow/scn/scnDiscovery.py:128 | exactly the other ports' packets are kept |
| Discovery.CountForAppend | src/ncps_openflow/scn/scnDiscovery.py:129 | the packets counted for a port in two lists add up |
| Discovery.CountForAbsent | src/ncps_openflow/scn/scnDiscovery.py:128 | a list with no packet for a port counts none |
| Discovery.AddPortReplaces | src/ncps_openflow/scn/scnDiscovery.py:126-130 | after adding a port, exactly one packet is queued for it |
| Discovery.LldpSender.constructor | src/ncps_openflow/scn/scnDiscovery.py:106-109 | a new sender has no packets and keeps its gateway |
| Discovery.LldpSender.AddSwitch | src/ncps_openflow/scn/scnDiscovery.py:112-123 | the switch's old packets go and one packet per physical port is queued |
| Discovery.LldpSender.AddPort | src/ncps_openflow/scn/scnDiscovery.py:126-131 | a non-physical port changes nothing; otherwise the port's packet is replaced |
| Discovery.ScnDiscovery.constructor | src/ncps_openflow/scn/scnDiscovery.py:210-215 | a new discovery knows no links and has announced none |
| Discovery.ScnDiscovery.GetLink | src/ncps_openflow/scn/scnDiscovery.py:234-237 | a link is returned exactly when one with these ends is known |
| Discovery.ScnDiscovery.GetLinkByDpid | src/ncps_openflow/scn/scnDiscovery.py:240-244 | a link returned joins the two switches, and none is returned only when no known link joins them |
| Discovery.ScnDiscovery.SetLink | src/ncps_openflow/scn/scnDiscovery.py:354-365 | when the topology knows both ports the link is stamped with the time and announced only if it is new; otherwise nothing changes |
| Discovery.ScnDiscovery.HandlePacketIn | src/ncps_openflow/scn/scnDiscovery.py:247-351 | the event halts exactly when the frame reveals a link; when both ends are known ports the link's timestamp becomes the current time and it is announced exactly when it is new; otherwise, and when no link is revealed, nothing changes |
| HostTracker.Expired | src/ncps_openflow/scn/scnHostTracker.py:48-53 | while developing nothing ever expires |
| HostTracker.PingCtrl.constructor | src/ncps_openflow/scn/scnHostTracker.py:66-68 | a new ping controller waits for an ARP reply and has nothing pending |
| HostTracker.PingCtrl.Sent | src/ncps_openflow/scn/scnHostTracker.py:71-73 | sending a ping adds one pending ping and refreshes the time seen |
| HostTracker.PingCtrl.Received | src/ncps_openflow/scn/scnHostTracker.py:80-82 | a reply clears every pending ping, so the controller no longer counts as failed |
| HostTracker.PingCtrl.Failed | src/ncps_openflow/scn/scnHostTracker.py:76-77 | failed exactly when more than three pings are pending |
| HostTracker.IpInterval | src/ncps_openflow/scn/scnHostTracker.py:91-95 | an IP entry waits the ARP-aware interval exactly when the host answers ARP, and the ARP-silent interval otherwise |
| HostTracker.IpEntry.constructor | src/ncps_openflow/scn/scnHostTracker.py:91-97 | a new IP entry keeps its ARP flag and interval, is seen now, and has a fresh ping controller with nothing pending |
| HostTracker.IpEntry.SetHasARP | src/ncps_openflow/scn/scnHostTracker.py:100-106 | the entry becomes ARP-aware with the ARP-aware interval; a second call changes nothing |
| HostTracker.MoveAsWrittenRepeats | src/ncps_openflow/scn/scnHostTracker.py:304-315 | after a move as written the entry still differs from where the packet came from, so the next packet is a move again; the intended move is seen once |
| HostTracker.MoveAsWrittenCounterexample | src/ncps_openflow/scn/scnHostTracker.py:314-315 | a host moved from switch 1 port 1 to port 2 keeps port 1 and gains a stray inport 2 as written, but sits on port 2 as intended |
| HostTracker.MacEntry.constructor | src/ncps_openflow/scn/scnHostTracker.py:116-121 | a new MAC entry sits at its switch and port, is seen now, and has no IP addresses |
| HostTracker.MacEntry.EqTuple | src/ncps_openflow/scn/scnHostTracker.py:131-132 | an entry equals a tuple exactly when switch, port and MAC all match |
| HostTracker.MacEntry.Eq | src/ncps_openflow/scn/scnHostTracker.py:128-135 | an entry never equals None, and equals another entry exactly when switch, port and MAC match |
| HostTracker.GetSrcIpAndArp | src/ncps_openflow/scn/scnHostTracker.py:205-221 | an IPv4 packet gives its source without ARP; an Ethernet/IP ARP packet with a nonzero sender gives that sender with ARP; anything else gives nothing |
| HostTracker.UpdateIpInfo | src/ncps_openflow/scn/scnHostTracker.py:224-241 | afterwards the address is known; a known address is refreshed and keeps its flag, a new one gets a fresh entry; an ARP packet clears its pending pings |
| HostTracker.Tracker.constructor | src/ncps_openflow/scn/scnHostTracker.py:152-156 | a new tracker knows no MAC address |
| HostTracker.Tracker.GetMacEntry | src/ncps_openflow/scn/scnHostTracker.py:163-173 | an entry comes back exactly when the MAC is known, and it is filed under that MAC |
| HostTracker.Tracker.RegisterMacEntry | src/ncps_openflow/scn/scnHostTracker.py:287-318 | learned exactly for an unseen MAC, which gets a new entry; a known entry is kept; either way the entry is refreshed and then sits where the packet came from, and no other entry changes |
| HostTracker.Tracker.RegisterMacEntryAsWritten | src/ncps_openflow/scn/scnHostTracker.py:287-318 | learned exactly for an unseen MAC; a known entry that changed port keeps its old port and still differs from where the packet came from |
| PluginLoader.Remove | src/ncps_openflow/scn/nwgn.py:41-42 | removing a present plugin drops one occurrence and keeps all the others |
| PluginLoader.Prepend | src/ncps_openflow/scn/nwgn.py:41-44 | the wanted plugin moves to the front, and the plugins stay the same and distinct |
| PluginLoader.PlaceDeps | src/ncps_openflow/scn/nwgn.py:36-44 | after moving the wanted plugins to the front, the last of them is first |
| PluginLoader.PlaceDepsMembers | src/ncps_openflow/scn/nwgn.py:36-44 | moving plugins to the front keeps each plugin once and adds the moved ones |
| PluginLoader.LoadOrderSound | src/ncps_openflow/scn/nwgn.py:26-57 | the controller exits with status 2 exactly when some plugin wants one that is not configured; otherwise every configured plugin is launched exactly once |
| PluginLoader.LoadOrderIsPermutation | src/ncps_openflow/scn/nwgn.py:26-47 | with every wanted plugin configured, the order is the configured plugins, each once |
| PluginLoader.LoadOrderNotTopological | src/ncps_openflow/scn/nwgn.py:30-47 | with b, a, c configured, a wanting b and b wanting c, b is launched before c, which it wants |
| PluginLoader.PlacePlugin | src/ncps_openflow/scn/nwgn.py:36-47 | the step succeeds exactly when every plugin p wants is configured, and then moves those to the front and appends p if absent |
| PluginLoader.NwGN.constructor | src/ncps_openflow/scn/nwgn.py:16 | a new loader has launched nothing |
| PluginLoader.NwGN.LoadPlugins | src/ncps_openflow/scn/nwgn.py:18-57 | without a parser nothing happens; otherwise the launches are exactly the computed order, or none when a dependency is unmet |
| Tcp.BuildTcpPkt | src/ncps_openflow/protocols/tcp.py:130-160 | missing fields take their defaults (sequence and ACK 0, window 14600, no data); each flag is set exactly when asked for, and ACK unless explicitly refused |
| Tcp.BuildDefaultResponse | src/ncps_openflow/protocols/tcp.py:249-266 | only a SYN is answered |
| Tcp.DefaultResponseIsReset | src/ncps_openflow/protocols/tcp.py:249-266 | the answer is a reset-and-ACK back to the sender that acknowledges the SYN's sequence number plus one, with no data and a zero window, and it is itself never answered |
| Tcp.MakeSegment | src/ncps_openflow/protocols/tcp.py:289-294 | a segment exists exactly for non-empty data, and it ends its length after its start |
| Tcp.Combine | src/ncps_openflow/protocols/tcp.py:297-315 | a second segment starting earlier fails the assertion; otherwise they combine exactly when they overlap or meet, and the result starts where the first does, keeps its data and ends at the later end |
| Tcp.CombineCovers | src/ncps_openflow/protocols/tcp.py:297-315 | a combined segment holds exactly the bytes of both, the first one's bytes unchanged and the second one's beyond it taken from it |
| Tcp.GappedSorted | src/ncps_openflow/protocols/tcp.py:680-700 | in the held segments every segment ends before any later one starts |
| Tcp.CoveredSingle | src/ncps_openflow/protocols/tcp.py:287-292 | a single segment covers exactly its own bytes |
| Tcp.CoveredAppend | src/ncps_openflow/protocols/tcp.py:680-692 | coverage of two lists of segments is the union of their coverage |
| Tcp.FindCombine | src/ncps_openflow/protocols/tcp.py:684-688 | the search stops at the first held segment the new one combines with; if none, every held segment ends before the new one; a held segment starting after it fails the assertion |
| Tcp.Absorb | src/ncps_openflow/protocols/tcp.py:694-700 | absorbing leaves at least one segment |
| Tcp.AbsorbShape | src/ncps_openflow/protocols/tcp.py:694-700 | absorbing keeps the segments gapped, starts where the combined segment starts and keeps its bytes |
| Tcp.AbsorbCovers | src/ncps_openflow/protocols/tcp.py:694-700 | absorbing keeps exactly the bytes of the combined segment and of the rest |
| Tcp.InsertGapped | src/ncps_openflow/protocols/tcp.py:680-700 | after a merge the held segments are still sorted with a gap between neighbours |
| Tcp.InsertCovers | src/ncps_openflow/protocols/tcp.py:680-700 | after a merge the held bytes are exactly the old ones and the new segment's |
| Tcp.InsertKeepsPrefix | src/ncps_openflow/protocols/tcp.py:680-700 | data received without a gap is never lost or rewritten by a merge |
| Tcp.FindCombineFails | src/ncps_openflow/protocols/tcp.py:684-688 | the search fails exactly when the new segment starts before a held segment it does not reach |
| Tcp.InsertFailsIff | src/ncps_openflow/protocols/tcp.py:680-700 | a merge fails exactly when the new segment starts before the first held segment or inside a gap |
| Tcp.ReadyIffNoHole | src/ncps_openflow/protocols/tcp.py:488-490 | the held segments are contiguous from the first start to the last end exactly when there is one segment |
| Tcp.AsWrittenDuplicatesFirstMerge | src/ncps_openflow/protocols/tcp.py:684-692 | when the new segment merges into the first held one, the code as written appends it again, leaving two or more overlapping segments |
| Tcp.AsWrittenCounterexample | src/ncps_openflow/protocols/tcp.py:684-700 | "ab" at 0 then "cd" at 2 leaves "abcd" and a second "cd" as written, and "abcd" alone as intended |
| Tcp.AddOutcome | src/ncps_openflow/protocols/tcp.py:451-458 | a segment that would stretch the block beyond the maximum raises; otherwise the merge decides |
| Tcp.NewlyAcked | src/ncps_openflow/protocols/tcp.py:517-531 | the newly acknowledged data is never negative and never more than the unacknowledged data; the SYN takes one number when not yet acknowledged |
| Tcp.CapAck | src/ncps_openflow/protocols/tcp.py:507-509 | an ACK beyond the last byte sent is cut back to it, and any other ACK is kept |
| Tcp.TcpConnection.constructor | src/ncps_openflow/protocols/tcp.py:351-429 | a new connection holds no segments and no data; with a local port it expects the byte after the SYN and has a zero window; without one it expects 0 and has no window yet; a client side sets the unused `win` attribute to 1460; a missing port is drawn from 40000-60000; the first unacknowledged number is the initial sequence number |
| Tcp.TcpConnection.GetData | src/ncps_openflow/protocols/tcp.py:443-448 | the data returned are received bytes from the start, up to the first gap; none without segments |
| Tcp.TcpConnection.HasReadyData | src/ncps_openflow/protocols/tcp.py:488-490 | ready exactly when one segment is held |
| Tcp.TcpConnection.NumUnacked | src/ncps_openflow/protocols/tcp.py:493-495 | the unacknowledged bytes and the acknowledged bytes add up to the queued data, and neither is negative |
| Tcp.TcpConnection.HasDataToSend | src/ncps_openflow/protocols/tcp.py:483-485 | true exactly when some queued byte is unacknowledged |
| Tcp.TcpConnection.BuildDataTransmissionAck | src/ncps_openflow/protocols/tcp.py:624-634 | a plain ACK with the payload, numbered after the last byte sent and acknowledging the next byte needed |
| Tcp.TcpConnection.BuildFin | src/ncps_openflow/protocols/tcp.py:655-662 | a FIN with ACK and no data at the given number, acknowledging the next byte needed |
| Tcp.TcpConnection.FindMerge | src/ncps_openflow/protocols/tcp.py:684-688 | the first loop finds the same held segment as the search |
| Tcp.TcpConnection.AbsorbFollowing | src/ncps_openflow/protocols/tcp.py:694-700 | the second loop leaves the segments before the merge point and the absorbed rest |
| Tcp.TcpConnection.MergeSegment | src/ncps_openflow/protocols/tcp.py:680-700 | the held segments become the merge, or stay as they were when the merge fails |
| Tcp.TcpConnection.AddSegment | src/ncps_openflow/protocols/tcp.py:451-462 | a refused or failing segment changes nothing; otherwise the segments become the merge, and when the contiguous data grew the next byte needed moves to its end and an ACK is due |
| Tcp.TcpConnection.AddDataToSend | src/ncps_openflow/protocols/tcp.py:465-473 | a closed connection raises and changes nothing; otherwise the data are queued and sending is requested |
| Tcp.TcpConnection.FinReceived | src/ncps_openflow/protocols/tcp.py:476-480 | the FIN is recorded, the next byte needed follows it, and an ACK is due |
| Tcp.TcpConnection.Close | src/ncps_openflow/protocols/tcp.py:665-671 | the first call closes and asks for the FIN; later calls change nothing |
| Tcp.TcpConnection.SetAck | src/ncps_openflow/protocols/tcp.py:505-535 | an ACK not beyond the first unacknowledged number changes nothing; otherwise it becomes that number, the SYN counts as acknowledged, the newly acknowledged data are added, and the FIN acknowledgement and the connection end follow when everything was acknowledged |
| TcpApp.TcpServer.constructor | src/ncps_openflow/protocols/application/tcp.py:31-37 | a new server listens on a 16-bit port with an empty table |
| TcpApp.TcpServer.Matches | src/ncps_openflow/protocols/application/tcp.py:76-81 | a packet matches exactly when addressed to the listening port |
| TcpApp.TcpServer.CreateConnection | src/ncps_openflow/protocols/application/tcp.py:111-127 | no connection when the table is full or the packet is not a SYN; otherwise a fresh server-side connection for the packet's socket pair that expects the byte after the SYN |
| TcpApp.TcpServer.GetConnection | src/ncps_openflow/protocols/application/tcp.py:96-108 | a known socket pair gives its connection; otherwise a new one is stored under the pair when it can be created, and the table never exceeds its limit |
| TcpApp.TcpServer.ProcessTcpPkt | src/ncps_openflow/protocols/application/tcp.py:147-176 | the packet's data are merged, and a failing merge closes the connection; a FIN is noted; the window is at least 1460; an ACK is processed |
| TcpApp.TcpServer.ProcessTcpData | src/ncps_openflow/protocols/application/tcp.py:179-189 | an open connection with ready data hands those data over and forgets its segments; otherwise nothing happens |
| TcpApp.TcpServer.ConnectionClosed | src/ncps_openflow/protocols/application/tcp.py:196-218 | the entry under the reversed socket pair is scheduled for deletion and closed; a missing entry changes nothing |
| TcpApp.TcpServer.DelConnection | src/ncps_openflow/protocols/application/tcp.py:221-227 | the key leaves the table, and a missing key is tolerated |
| TcpApp.ChunksConcat | src/ncps_openflow/protocols/application/tcp.py:424-436 | the chunks put back together are the payload, and each is non-empty and at most 1000 bytes |
| TcpApp.TransmissionNumbers | src/ncps_openflow/protocols/application/tcp.py:423-445 | the data packets carry the chunks in order, numbered contiguously after the last byte sent, and the FIN follows the last data byte |
| TcpApp.TcpClient.constructor | src/ncps_openflow/protocols/application/tcp.py:259-277 | a client connection with the given ends, the source port drawn at random when missing |
| TcpApp.TcpClient.Matches | src/ncps_openflow/protocols/application/tcp.py:321-331 | a packet matches exactly when it comes from the peer's end and is addressed to ours |
| TcpApp.TcpClient.SendPayload | src/ncps_openflow/protocols/application/tcp.py:423-446 | the packets sent are the payload's chunks then a FIN after the last byte; all data and the FIN count as sent |
| Processor.GetOsiLayer | src/ncps_openflow/protocols/processor.py:26-42 | DHCP is layer 7, TCP and UDP layer 4, ICMP and IPv4 layer 3, ARP and Ethernet layer 2; any other agent is 0, and layers 1, 5 and 6 hold none |
| Processor.AddApp | src/ncps_openflow/protocols/processor.py:137-149 | the app is listed under its class exactly once afterwards; other classes and the apps already listed are kept, and the list grows only for a new app |
| Processor.AddLayer | src/ncps_openflow/protocols/processor.py:173-183 | the agent is filed in its own layer exactly once afterwards, other layers are kept, and an agent already filed changes nothing |
| Processor.RemoveApp | src/ncps_openflow/protocols/processor.py:162 | removing a present app from a list without duplicates drops exactly that app |
| Processor.DelApp | src/ncps_openflow/protocols/processor.py:154-168 | the app is gone from its class, whose list disappears once empty; other classes are kept; the removal is reported exactly when the app was listed, and an unlisted app changes nothing |
| Processor.DelLayerAsWritten | src/ncps_openflow/protocols/processor.py:186-209 | while a server or client of the agent's name remains nothing changes; otherwise the agent's whole layer goes |
| Processor.RemoveName | src/ncps_openflow/protocols/processor.py:186-209 | removing an agent name keeps exactly the other names, without duplicates |
| Processor.DelLayer | src/ncps_openflow/protocols/processor.py:186-209 | while a server or client of the agent's name remains nothing changes; otherwise only that agent leaves the layers, and every other agent keeps its place |
| Processor.DelLayerAsWrittenDropsNeighbour | src/ncps_openflow/protocols/processor.py:186-209 | with TCP and UDP in layer 4 and a UDP server still registered, dropping TCP as written drops UDP too, while the intended removal keeps UDP |
| Processor.FirstResponse | src/ncps_openflow/protocols/processor.py:260-281 | a response is found exactly when some app responds, and it is the response of the first app that does |
| Processor.TryProtocol | src/ncps_openflow/protocols/processor.py:247-283 | the packet counts as parsed exactly when it parses as the agent's protocol; clients are asked before servers and the first response wins; an unparsed packet gets no response |
| Processor.ResponsesFromFiledAgents | src/ncps_openflow/protocols/processor.py:226-242 | every response sent comes from an agent filed in one of the layers visited |
| Processor.LayerResponsesFrom | src/ncps_openflow/protocols/processor.py:233-242 | a response of a layer comes from one of its agents |
| Processor.Processor.constructor | src/ncps_openflow/protocols/processor.py:51-61 | a new processor knows no switch, no app and no layer, and has sent nothing |
| Processor.Processor.ConnectionUp | src/ncps_openflow/protocols/processor.py:65-66 | the switch is connected afterwards |
| Processor.Processor.ConnectionDown | src/ncps_openflow/protocols/processor.py:70-71 | the switch is no longer connected |
| Processor.Processor.SendPacket | src/ncps_openflow/protocols/processor.py:90-108 | the packet goes out of the port of a connected switch, and nowhere otherwise |
| Processor.Processor.AddClient | src/ncps_openflow/protocols/processor.py:111-115 | the client is registered and its agent filed |
| Processor.Processor.AddServer | src/ncps_openflow/protocols/processor.py:123-129 | the server is registered and its agent filed |
| Processor.Processor.DelClient | src/ncps_openflow/protocols/processor.py:118-120 | the client is unregistered, and its agent unfiled only when it was registered |
| Processor.Processor.DelServer | src/ncps_openflow/protocols/processor.py:132-134 | the server is unregistered, and its agent unfiled only when it was registered |
| Processor.Processor.TryAgent | src/ncps_openflow/protocols/processor.py:247-283 | the loops over clients and servers give the same answer as the first-response definition |
| Processor.Processor.Process | src/ncps_openflow/protocols/processor.py:212-244 | an unparsed packet sends nothing; otherwise every response from the layers, from 7 down, goes back out of the incoming port of a connected switch |
| Processor.Processor.ProcessLayer | src/ncps_openflow/protocols/processor.py:233-242 | the responses of one layer's agents, in order, go out of the incoming port |
| Processor.ToPortAppend | src/ncps_openflow/protocols/processor.py:242 | sending two lists of responses is sending one after the other |
| Processor.ToPort | src/ncps_openflow/protocols/processor.py:242 | each response is sent out of the incoming port, in order |
| Processor.FirstOf | src/ncps_openflow/protocols/processor.py:261-267 | the loop returns the first response of the list |
| Application.RemoveFirst | src/ncps_openflow/protocols/application/application.py:47-50 | removal keeps only listed filters, an absent filter changes nothing, and a present one shortens the list by one |
| Application.RemoveFirstCount | src/ncps_openflow/protocols/application/application.py:47-50 | removal takes out one copy of the filter, if any, and keeps every other filter |
| Application.RemoveFirstNoDup | src/ncps_openflow/protocols/application/application.py:47-50 | in a list without duplicates, removal leaves no copy of the filter and no duplicates |
| Application.RemoveAllMultiset | src/ncps_openflow/protocols/application/application.py:53-55 | each filter is removed as often as it is named, as far as the list holds it |
| Application.ProtApp.constructor | src/ncps_openflow/protocols/application/application.py:23-24 | a new app has no filters |
| Application.ProtApp.AddFilter | src/ncps_openflow/protocols/application/application.py:27-33 | a new filter is appended; None or a listed filter changes nothing; the list stays without duplicates |
| Application.ProtApp.AddFilters | src/ncps_openflow/protocols/application/application.py:36-40 | the filters are appended as given, duplicates included; none given changes nothing |
| Application.ProtApp.DelFilter | src/ncps_openflow/protocols/application/application.py:43-50 | the first copy of the filter goes; None or an absent filter changes nothing |
| Application.ProtApp.DelFilters | src/ncps_openflow/protocols/application/application.py:53-55 | each named filter is removed once per mention, as far as the list holds it |
| Application.PacketIn | src/ncps_openflow/protocols/application/application.py:66-71 | a filter yields either the original packet or its processed packet |
| Application.PacketOut | src/ncps_openflow/protocols/application/application.py:74-83 | a filter yields either the original outgoing packet or its processed packet |
| Application.FoldInAppend | src/ncps_openflow/protocols/application/application.py:131-132 | filters apply in list order, each seeing what the earlier ones produced |
| Application.FoldInInactive | src/ncps_openflow/protocols/application/application.py:66-71 | filters that are not in-active leave an incoming packet as it is |
| Application.FoldOutInactive | src/ncps_openflow/protocols/application/application.py:74-83 | filters that are not out-active leave an outgoing packet as it is |
| Application.ApplyIn | src/ncps_openflow/protocols/application/application.py:131-132 | the loop gives the packet after every filter's packetIn in turn |
| Application.ApplyOut | src/ncps_openflow/protocols/application/application.py:170-171 | the loop gives the packet after every filter's packetOut in turn |
| Application.ReplyWithoutFilters | src/ncps_openflow/protocols/application/application.py:122-141 | with no in-active filter a matching packet is answered as it arrived, and an unextractable or unmatched one is not answered |
| Application.App.constructor | src/ncps_openflow/protocols/application/application.py:118-119 | a new application has no callbacks and has sent and received nothing |
| Application.App.ProcessPacket | src/ncps_openflow/protocols/application/application.py:122-141 | the reply is given for a matching extractable packet after the filters; a non-empty payload is handed over with the filtered packet, and nothing is handed over otherwise |
| Application.App.SendPkt | src/ncps_openflow/protocols/application/application.py:164-176 | without a send callback nothing is sent; a call with extra arguments through an installed filter raises TypeError and sends nothing; otherwise the packet after the filters is sent unless a filter dropped it |
| Application.App.Finished | src/ncps_openflow/protocols/application/application.py:179-183 | the finished callback is called exactly when one is set |
| Application.DoProcess | src/ncps_openflow/protocols/application/application.py:220-232 | a packet that does not match passes unchanged, and a matching one is processed |
| Application.BaseProcessorIsIdentity | src/ncps_openflow/protocols/application/application.py:204-242 | the base processor matches everything and changes nothing |
| Packets.FindUdpIn | src/ncps_openflow/protocols/base.py:22-34 | a layer found below a given one is a UDP layer |
| Packets.FindIpv4In | src/ncps_openflow/protocols/base.py:22-34 | a layer found below a given one is an IPv4 layer |
| Packets.FindUdp | src/ncps_openflow/protocols/base.py:22-34 | a layer found in a frame is a UDP layer |
| Packets.FindIpv4 | src/ncps_openflow/protocols/base.py:22-34 | a layer found in a frame is an IPv4 layer |
| Packets.EthernetResponse | src/ncps_openflow/protocols/ethernet.py:46-62 | the response frame goes back to the request's sender with the request's type and the payload, from the request's destination unless a source is given |
| ArpProtocol.ExtractTyp | src/ncps_openflow/protocols/arp.py:37-47 | an ARP packet passes exactly when it is for IPv4 and has the opcode asked for, and then it passes unchanged |
| ArpProtocol.ExtractRequest | src/ncps_openflow/protocols/arp.py:23-26 | a request is found exactly when the frame carries an IPv4 ARP packet with the request opcode |
| ArpProtocol.ExtractResponse | src/ncps_openflow/protocols/arp.py:29-34 | a reply is found exactly when the frame carries an IPv4 ARP packet with the reply opcode |
| ArpProtocol.ExtractRequestedIp | src/ncps_openflow/protocols/arp.py:58-63 | a bare ARP packet gives its target address; a frame gives one exactly when it carries a request, and it is that request's target |
| ArpProtocol.BuildArpRequest | src/ncps_openflow/protocols/arp.py:70-86 | a broadcast ARP frame from the asking station that asks for the target address, with the defaults of a fresh ARP packet |
| ArpProtocol.RequestRoundTrip | src/ncps_openflow/protocols/arp.py:23-86 | a built request reads back as a request, not a reply, for the target address from the asking station |
| ArpProtocol.BuildArpResponse | src/ncps_openflow/protocols/arp.py:89-107 | a reply exists exactly when there is an ARP packet to answer; it goes back to the asker's hardware and protocol addresses, comes from the given hardware address for the asked address, and is an Ethernet/IPv4 reply (section "Packet Reception" of RFC 826) |
| ArpProtocol.BuildResponse | src/ncps_openflow/protocols/arp.py:110-119 | the reply is wrapped in a frame from the given hardware address back to the request's sender, and exists exactly when there is an ARP packet to answer |
| ArpProtocol.ResponseIsReply | src/ncps_openflow/protocols/arp.py:89-119 | the response to a request reads back as the reply to that request, addressed to its sender |
| ArpApp.ServerReply | src/ncps_openflow/protocols/application/arp.py:30-42 | a reply exists exactly for an ARP request whose target address has a known hardware address; it comes from that address back to the sender and reads back as the reply to the request |
| ArpApp.ClientMatchesAnswers | src/ncps_openflow/protocols/application/arp.py:84-99 | the client accepts exactly replies addressed to its own hardware address that answer for the address it asked about |
| ArpApp.ArpClient.Matches | src/ncps_openflow/protocols/application/arp.py:84-99 | a client that has not started raises AttributeError; otherwise it accepts exactly replies addressed to its own hardware address that answer its request for the target address |
| ArpApp.ClientAcceptsServerReply | src/ncps_openflow/protocols/application/arp.py:30-99 | a server that knows the asked address answers a client's request, and the client accepts that answer, which carries the known hardware address |
| ArpApp.ArpClient.constructor | src/ncps_openflow/protocols/application/arp.py:65-71 | a new client keeps its addresses, has made no attempt and has no request yet |
| ArpApp.ArpClient.SendArpPkt | src/ncps_openflow/protocols/application/arp.py:79-81 | each call counts one attempt, and the request goes out through the filters when there is one and a send callback is set |
| ArpApp.ArpClient.Start | src/ncps_openflow/protocols/application/arp.py:74-76 | the request for the target address is built and the first attempt is made |
| ArpApp.ArpClient.GetReply | src/ncps_openflow/protocols/application/arp.py:102-105 | the sender's hardware address is received, the client finishes, and there is no reply |
| ArpApp.OrMac | src/ncps_openflow/protocols/application/arp.py:147 | `or` on two hardware addresses, taking the all-zero one as false: the second address is taken only then |
| ArpApp.Swap | src/ncps_openflow/protocols/application/arp.py:159-162 | the address is replaced only when it is the one to replace |
| ArpApp.ArpTunnel.constructor | src/ncps_openflow/protocols/application/arp.py:120-123 | the tunnel keeps its two addresses and builds an Ethernet tunnel with the same ones |
| ArpApp.ArpTunnel.ProcessInPacket | src/ncps_openflow/protocols/application/arp.py:153-166 | an unparsed frame gives nothing; otherwise the frame is delivered to the local address and the tunnel's address in the ARP packet becomes the local one |
| ArpApp.ArpTunnel.ProcessOutPacket | src/ncps_openflow/protocols/application/arp.py:169-182 | an unparsed frame gives nothing; otherwise the frame leaves from the tunnel's address and the local address in the ARP packet becomes the tunnel's |
| ArpApp.ArpTunnel.DoProcessInPacket | src/ncps_openflow/protocols/application/arp.py:126-166 | the incoming frame is processed exactly when it matches, and passes unchanged otherwise |
| ArpApp.ArpTunnel.DoProcessOutPacket | src/ncps_openflow/protocols/application/arp.py:138-182 | the outgoing frame is processed exactly when it matches, and passes unchanged otherwise |
| ArpApp.ArpTunnel.OutHidesLocalMac | src/ncps_openflow/protocols/application/arp.py:138-182 | a local frame that names the local address on either side of the ARP packet leaves with no trace of it, in the frame's source or in the ARP packet |
| ArpApp.ArpTunnel.OutAsWrittenLeaksLocalMac | src/ncps_openflow/protocols/application/arp.py:147 | as written, an ARP packet from another host to the local host leaves unchanged with the local address in it, while the intended test rewrites it |
| ArpApp.ArpTunnel.RewriteRoundTrip | src/ncps_openflow/protocols/application/arp.py:153-182 | an ARP packet that does not name the tunnel's address comes back through the tunnel with the addresses it left with |
| EthernetApp.ServerMatchesItsReplies | src/ncps_openflow/protocols/application/ethernet.py:50-54 | a reply frame has the type of the frame it answers, so the server accepts its replies exactly when it accepted the request |
| EthernetApp.OfClientMatches | src/ncps_openflow/protocols/application/ethernet.py:153-159 | the client accepts a frame exactly when it arrives on its own switch and port, comes from its peer and is addressed to it |
| EthernetApp.ClientMatchesReplies | src/ncps_openflow/protocols/application/ethernet.py:111-119 | the peer's reply to a frame the client sent is accepted, and a reply from any other address is not |
| EthernetApp.EthTunnel.constructor | src/ncps_openflow/protocols/application/ethernet.py:168-170 | the tunnel keeps its local and tunnel addresses |
| EthernetApp.EthTunnel.ProcessInPacket | src/ncps_openflow/protocols/application/ethernet.py:193-200 | an unparsed frame gives nothing; a parsed one is readdressed to the local host in place |
| EthernetApp.EthTunnel.ProcessOutPacket | src/ncps_openflow/protocols/application/ethernet.py:203-210 | an unparsed frame gives nothing; a parsed one comes from the tunnel afterwards, in place |
| EthernetApp.EthTunnel.DoProcessInPacket | src/ncps_openflow/protocols/application/ethernet.py:173-200 | a frame to any host, to all hosts or to the tunnel is readdressed to the local host, and any other passes unchanged |
| EthernetApp.EthTunnel.DoProcessOutPacket | src/ncps_openflow/protocols/application/ethernet.py:183-210 | a frame from the local host is made to come from the tunnel, and any other passes unchanged |
| EthernetApp.EthTunnel.InDelivers | src/ncps_openflow/protocols/application/ethernet.py:173-200 | every frame taken in is delivered to the local host with nothing else changed, and a second pass changes nothing more |
| EthernetApp.EthTunnel.OutHides | src/ncps_openflow/protocols/application/ethernet.py:183-210 | every frame taken out leaves from the tunnel's address with nothing else changed, and a second pass changes nothing more |
| DhcpProtocol.ExtractMsgType | src/ncps_openflow/protocols/dhcp.py:27-35 | no option gives None; a one-byte option gives that byte; any other option is returned raw, exactly as the failed unpack leaves it |
| DhcpProtocol.Extract | src/ncps_openflow/protocols/dhcp.py:90-100 | the packet passes unchanged exactly when its op is the one asked for, and a missing type asks for a request |
| DhcpProtocol.ExtractRequest | src/ncps_openflow/protocols/dhcp.py:74-79 | a request is found exactly when the frame carries a DHCP packet with the BOOTREQUEST op |
| DhcpProtocol.ExtractReply | src/ncps_openflow/protocols/dhcp.py:82-87 | a reply is found exactly when the frame carries a DHCP packet with the BOOTREPLY op |
| DhcpProtocol.U32Bytes | src/ncps_openflow/protocols/dhcp.py:142 | a packed 32-bit number takes four bytes |
| DhcpProtocol.TopByte | src/ncps_openflow/protocols/dhcp.py:142 | the most significant byte of a 32-bit number fits a byte |
| DhcpProtocol.U32RoundTrip | src/ncps_openflow/protocols/dhcp.py:142-152 | packing a 32-bit number into four bytes and unpacking them gives the number back |
| DhcpProtocol.StandardReplyReadsBack | src/ncps_openflow/protocols/dhcp.py:115-161 | the reply is a BOOTREPLY of the same transaction and client offering the given address, with the gateway field set to the server address; its message type reads back, and the server identifier, lease, mask, broadcast and gateway options decode to the values given (the options of sections 3.3, 3.5, 5.3, 9.2, 9.6 and 9.7 of RFC 2132) |
| DhcpProtocol.EncodeSnoc | src/ncps_openflow/protocols/dhcp.py:166-170 | laying out one more option appends its code, its length and its value |
| DhcpProtocol.EncodeLength | src/ncps_openflow/protocols/dhcp.py:164-172 | the layout takes two bytes per option plus the values |
| DhcpProtocol.ParseEncode | src/ncps_openflow/protocols/dhcp.py:164-172 | laying options out and reading them back as section 2 of RFC 2132 defines gives the options laid out, in any order |
| DhcpProtocol.BuildOptionsArray | src/ncps_openflow/protocols/dhcp.py:164-172 | OverflowError exactly when some option code or length does not fit a byte; otherwise the loop lays out every option exactly once, each as code, length and value |
| DhcpProtocol.OptionsArrayRoundTrip | src/ncps_openflow/protocols/dhcp.py:164-172 | a full layout reads back as the options given |
| DhcpProtocol.BuildResponse | src/ncps_openflow/protocols/dhcp.py:175-201 | any message but DISCOVER and REQUEST gets no response; an answered message fails exactly when the request frame has no UDP or IPv4 layer |
| DhcpProtocol.ResponseAnswers | src/ncps_openflow/protocols/dhcp.py:175-201 | a DISCOVER gets an OFFER and a REQUEST an ACK (section 3.1 of RFC 2131), a reply of the same transaction and client handing out the address, sent from the server to the requester, to the address handed out, and back to the request's UDP source port |
| Strings.SplitOn | src/ncps_openflow/scn/plugins/middleware/handler.py:316 | splitting always gives at least one piece |
| Strings.JoinSplit | src/ncps_openflow/scn/plugins/middleware/utils/connection.py:109 | joining the pieces with the separator restores the string |
| Strings.FirstPiecePrefix | src/ncps_openflow/scn/scnDiscovery.py:280 | the first piece is a prefix of the string |
| Strings.PiecesFree | src/ncps_openflow/scn/plugins/middleware/utils/connection.py:109 | no piece contains the separator |
| Strings.SplitWithout | src/ncps_openflow/scn/plugins/middleware/utils/connection.py:114-116 | a string without the separator is a single piece |
| Strings.SplitManyContains | src/ncps_openflow/scn/plugins/middleware/utils/connection.py:118-121 | a string that splits into several pieces contains the separator |
| Strings.SplitAfter | src/ncps_openflow/scn/plugins/middleware/handler.py:316 | a leading piece without the separator's first character is cut off at the first separator |
| Strings.DigitChar | src/ncps_openflow/scn/scnDiscovery.py:141 | each digit value below 16 has a character: 0-9 for values below 10 and a-f above, which reads back as the value |

## Left out

Weaker contracts:
- Dijkstra.RoutesDijkstra: when `src` is no key but some link leads to it, the result is decided without running the loop. Nothing can lower a distance there, so the way back fails for every other destination. A destination whose every chain costs 10**15 or more stays unreached, as in the source.
- RouteCreator.EstimateRoute: requires `order` to list the graph's switches once each, as the dictionary's iteration order does. It also requires every link's measured use and every reservation to be non-negative.
- RouteCreator.CreateGraph: a link's measured use is a number. An unsampled link (`None`) is not modelled. For byte statistics, `None*8` would raise TypeError. For bit statistics, Python 2 orders `None` below every number, so the reservation alone would count.
- Widgets.MakePeer: the address is kept as given. The source passes an address that is not an `IPAddr` through `IPAddr(str(ipaddr))`, which raises on text that is no address. POX's address parsing is not part of this model.
- RouteCreator.SearchLinks: the source's guard on `path.count` of a repeated link can never fire once the visited set is checked, and the model does not carry it.
- BwGraph.UsedGraph: a cookie whose `flowBws` entry is `None` is not modelled. Only a missing entry or a number is.
- RouteStore.Routing.GetVia: for a hop with no known link, the source appends `None` to the via, and its callers then fail on that `None`. The model returns `Err` at once.
- Handler.Handler.IsNodeAlive: time is in whole seconds.
- Handler.Handler.GroupFailures: groups compare nodes by id and by peer field for field. The `pushes` dictionary compares with `ScnClientNode.__eq__`, whose peer test holds when any one field agrees, so two different node objects with the same id and one shared field would share a group there. Two such nodes can only both have recorded paths once the 16-bit id has wrapped round to an id still held by a replaced node.
- HostTracker.Tracker.RegisterMacEntry: `arpAware` and `arpSilent` take the module defaults. The launcher passes 20.
- Balancing.Candidate: a route whose bandwidth key holds None is respected, so the retry loop never searches for it. Called on such a route anyway, the model gives no candidate. Python 2 would compare every headroom against None, which it orders below every number.
- Balancing.Balancer.Loop: each tick works on one snapshot of the world. Route changes made by `createBiRoute` inside a tick are not visible until the next one. The final `if not running` test is omitted, and so is the exception that `flowBws.copy` can raise while another thread writes to it. A `flowBws` entry of `None` counts as missing.
- Tcp.TcpConnection.MergeSegment: the `AssertionError` that `combine` raises on out-of-order arguments is an `Err("AssertionError")` result, and the connection is left unchanged.

Outside the model:
- Python 2 integer division, where the source divides bandwidth figures, is exact division on `real`.
- POX's `IPAddr` and `EthAddr` are integers. The whitespace handling of `int()` is not modelled.
- Redis (`RedisFeature` save and publish) is left out. JSON decoding is a parameter.
- Handler:
  - `getNode` is looked up by address (see Findings for the lookup by peer object in `createBiPath`);
  - failures inside `delPath` are not modelled;
  - `_handle_DumpReq`, `_handle_LinkEvent` and `_handle_ScnLinkUpdateEvent` are left out;
  - the handler calls `createMesh` with the listen peer's address, and the model records that call. The source then installs flows towards that host from every switch over the bandwidth graph, and re-meshes earlier hosts that lack its switch. An unknown host raises AttributeError. The mesh is not modelled;
  - the `SERVICE_SERVER` setting of the parser is a parameter.
- TCP stack:
  - sequence numbers are unbounded integers;
  - timers and random initial sequence numbers are parameters;
  - the `socket.error` the source names but never imports is left out;
  - `buildDefaultResponse` follows section 3.4 of RFC 793.
- Left out of the TCP stack:
  - `get_packets_to_send`, `buildStandardTcpResponse`, `buildFrameFromConn`, `getFlagsAsAString` and the details of `createFromPacket`;
  - `TcpServer.processPacket`, `getReply` and `connHasDataToSend`;
  - `TcpClient.processPacket`, `processTcpPkt`, `processTcpData` and `getReply`;
  - the OpenFlow-specific `OF_TcpServer` and `OF_TcpClient`;
  - `MWUdpServer` and `MWTcpClient`. They only wire sockets.
- Host tracker: `_handle_PacketIn`, `createJoinedHost`, `sendPing` and `__check_timeouts__` are left out. With `DEVELOP` set, nothing expires.
- Discovery:
  - `.tostring()` of a TLV is the parsed value, and characters are bytes;
  - `NDP_MULTICAST` is POX's `01:23:20:00:00:01`;
  - `explicit_drop`, the timers, `_expireLinks` and `InterDomainGateway.load_config` (file reads) are left out.
- Processor:
  - agents are identified by name;
  - `osiLayers`, a class attribute, is a field of the one processor;
  - a falsy response other than `None` is not modelled;
  - `_handle_PacketIn` and `test()` are left out.
- Application layer:
  - inheritance is composition (an agent holds its `ProtApp`);
  - side effects of inactive filters are not modelled;
  - packet kinds are a type parameter;
  - `SendArpPkt` before `start` sends nothing.
- ARP: the truth value of POX's `EthAddr` is not part of this model. The model takes the all-zero address as the only false one. The counterexample under Findings has a non-zero sender address, so it holds either way. The defaults of POX's `arp()` are taken as given.
- DHCP:
  - `U32` options are typed, since `struct.pack` would raise on anything else;
  - `padLen` has no effect on the result;
  - a missing UDP or IP layer is `Err`;
  - `giaddr = sip` is modelled as written;
  - `extractRequestedIp`, `extractHostName` (which names an undefined `dhcpPkt`), `extractClientMac`, `extractClientIp` and `isRequest` are left out;
  - the UDP checksum is left out.
- Ethernet agents:
  - `EthServer.processPacket` and `sendPayload`, and `EthClient.sendPayload`, are left out (the latter fails on a `None` packet);
  - the Ethernet, IPv4 and UDP build helpers are inlined into their callers.
- Widgets: the `to_json`/`from_json` string forms, `TraceList.to_json` and `__len__`, and `NodeList.first`, `last` and `index_by_ip` are left out.
- The order `nwgn.py` launches plugins in is not topological. PluginLoader.LoadOrderNotTopological shows this, and the model keeps the source's order.

## Findings

| source | as written | input that shows it | evidently intended | confidence | as-written member | corrected member |
|---|---|---|---|---|---|---|
| src/ncps_openflow/scn/plugins/bwFlowBalancing.py:234-255 | `getMinBwVias` stops at the first link too narrow for the minimum bandwidth and still offers the truncated via | hops 1→2→3, link 1→2 free (0 of 100 used), link 2→3 fully used (100 of 100), minimum 10 | a via is offered only if it reaches the last hop | not executed | BalanceChecks.MinBwViasAsWrittenTruncates | BalanceChecks.MinBwViasFollowsHops |
| src/ncps_openflow/scn/plugins/bwFlowBalancing.py:177-180 | the retry names `avoidRoutes`, which is never defined, so any nuisance candidate raises `NameError` | any route judged a nuisance | the retry searches again, avoiding the nuisance, and reports when nothing is found | not executed | Balancing.NuisanceAbortsAsWritten | BalanceChecks.RetryFindsNothing |
| src/ncps_openflow/scn/routing.py:1276-1303 | the reservation variable is not reset per cookie, so a cookie without a numeric reservation inherits the previous cookie's reservation | cookies 1 and 2 on one link, route 1 reserves 100, route 2 was requested without a bandwidth (its key holds None) | cost 100 | not executed | BwGraph.LinkCostAsWrittenCarriesReservation | BwGraph.LinkCostBounds |
| src/ncps_openflow/scn/plugins/middleware/path.py:104-115 | `update_links` stores the new list before removing, so the removal runs over the new list | `update_links([])` on a path with installed links | emptying the links removes the entries of the links the path held | not executed | MiddlewarePath.RemoveLinksAsWrittenRemovesNothing | MiddlewarePath.Path.UpdateLinks |
| src/ncps_openflow/scn/plugins/middleware/handler.py:390-392 | `__isAlive__` compares `.seconds` of a time difference, which ignores whole days | interval 10, silence of 86405 s | a node silent longer than the interval is dead | not executed | Handler.SilentNodeRevives | Handler.IsAliveProperties |
| src/ncps_openflow/protocols/tcp.py:684-692 | `not combined_index` treats index 0 as "no merge", so a segment merged into the first one is also inserted | "ab" at 0, then "cd" at 2 | one segment "abcd" at 0 | not executed | Tcp.AsWrittenCounterexample | Tcp.InsertCovers |
| src/ncps_openflow/scn/scnHostTracker.py:314-315 | `registerMacEntry` writes a moved host's new port to a stray `inport` attribute, so the entry keeps the old port and the next packet is a move again | host at switch 1 port 1 seen at switch 1 port 2 | the move is recorded once, with the new port | not executed | HostTracker.MoveAsWrittenCounterexample | HostTracker.Tracker.RegisterMacEntry |
| src/ncps_openflow/protocols/processor.py:204-209 | `_delProtocolLayer` deletes the whole layer entry, dropping other protocols that share the layer | layer 4 holds tcp and udp, a udp server remains, tcp is deleted | only tcp leaves the layer | not executed | Processor.DelLayerAsWrittenDropsNeighbour | Processor.DelLayer |
| src/ncps_openflow/scn/routing.py:735-746 | `_invert` deletes a key while it still holds the value just moved, so equal values on both keys lose one of them | source and destination switch both 5 | the inverted request mirrors every pair | not executed | Routes.InvertAsWrittenLosesEqualPair | Routes.MirrorInvolution |
| src/ncps_openflow/scn/routing.py:765-783 | `_invertRouteDict` stores the result of the in-place `list.reverse()`, which is `None`, as the via | via of one link (1,2,3,4) | the reversed via (3,4,1,2) | not executed | Routes.InvertRouteDictAsWrittenDropsVia | Routes.ReverseViaComplete |
| src/ncps_openflow/scn/routing.py:1201-1219 | `createRoute` builds the last-hop entry and drops it, so only the via entries are stored | via (1,2,2,1) to a host on switch 2 | an entry on switch 2 towards the host | not executed | Routes.RouteEntriesAsWrittenMissLastHop | Routes.RouteEntries |
| src/ncps_openflow/protocols/application/arp.py:147 | `matchesOut` tests membership in `[hwsrc or hwdst]`, so the target address counts only when the sender address is false | local MAC 1, tunnel MAC 2, ARP reply from 3 to 1 | both addresses are checked against the local MAC | not executed | ArpApp.ArpTunnel.OutAsWrittenLeaksLocalMac | ArpApp.ArpTunnel.OutHidesLocalMac |
| src/ncps_openflow/scn/plugins/middleware/handler.py:175 | `createBiPath` looks the creator node up with the listen peer object, while nodes are found by address (`__get_by__` compares each node's address with `==`, and `Peer.__eq__` is False against anything that is not a peer), so no node is found and the path's OPTIMIZE_FAILURE is pushed to every node | listen peer 10.0.0.1:5000 of the registered node 10.0.0.1, with a second node registered | the failure is reported to the node at the listen peer's address | not executed | Handler.CreatorAsWrittenBroadcasts | Handler.Handler.CreateBiPath |
