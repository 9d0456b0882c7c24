/**
 * Shared vocabulary of the controller: switches are their datapath ids (`int`),
 * a link is identified by its two (dpid, port) ends, and a route's
 * conditions are the bandwidth reservation and the "fix" flag.
 */
module Network {
  import opened Wrappers

  /** A directed inter-switch link `dpid1:port1 -> dpid2:port2`. */
  datatype LinkKey = LinkKey(dpid1: int, port1: int, dpid2: int, port2: int)
  {
    /** The same cable seen in the other direction. */
    function Reverse(): (r: LinkKey)
      ensures r.dpid1 == dpid2 && r.port1 == port2 && r.dpid2 == dpid1 && r.port2 == port1
    {
      LinkKey(dpid2, port2, dpid1, port1)
    }
  }

  /**
   * A snapshot of a link as the traffic-engineering code reads it: the cookies
   * of the routes crossing it, its measured use (None before any sample), its
   * available and theoretical capacity, and the conditions reserved on it.
   */
  datatype LinkState = LinkState(
    key: LinkKey,
    cookies: seq<int>,
    used: Option<real>,
    available: real,
    maxTheorical: real,
    reserved: seq<Option<Conditions>>)

  /**
   * A route's condition dictionary, restricted to the two keys the controller
   * defines (`RoutingConditions.bandwidth` and `RoutingConditions.fix`).
   * `bandwidth` is None when the key is absent and Some(None) when it holds
   * None, as the middleware stores for a path requested without a bandwidth.
   * A dictionary holding neither key is empty, hence falsy.
   */
  datatype Conditions = Conditions(bandwidth: Option<Option<real>>, fix: Option<bool>)
  {
    /** `conditions.get(bandwidth)`: the number, None when the key is absent or holds None. */
    function Bw(): (r: Option<real>)
      ensures r.Some? <==> bandwidth.Some? && bandwidth.value.Some?
      ensures r.Some? ==> r.value == bandwidth.value.value
    {
      if bandwidth.Some? then bandwidth.value else None
    }
  }

  /** Python truthiness of an optional condition dictionary. */
  predicate Truthy(c: Option<Conditions>)
  {
    c.Some? && (c.value.bandwidth.Some? || c.value.fix.Some?)
  }

  /** The bandwidth value of a dictionary, when the key is present and holds a nonzero number. */
  predicate ReservesBandwidth(c: Option<Conditions>)
  {
    c.Some? && c.value.Bw().Some? && c.value.Bw().value != 0.0
  }

  /**
   * `getLinkByDpid(dpid1, dpid2)` of the discovery component: the first known
   * link from switch `u` to switch `v`, in the link table's order.
   */
  function FirstLinkByDpid(links: seq<LinkKey>, u: int, v: int): (r: Option<LinkKey>)
    ensures r.Some? <==> exists i :: 0 <= i < |links| && links[i].dpid1 == u && links[i].dpid2 == v
    ensures r.Some? ==> r.value in links && r.value.dpid1 == u && r.value.dpid2 == v
    ensures r.Some? ==>
              exists i :: 0 <= i < |links| && links[i] == r.value &&
                forall j :: 0 <= j < i ==> !(links[j].dpid1 == u && links[j].dpid2 == v)
  {
    if links == [] then None
    else if links[0].dpid1 == u && links[0].dpid2 == v then Some(links[0])
    else
      var r := FirstLinkByDpid(links[1..], u, v);
      assert forall i :: 1 <= i < |links| ==> links[i] == links[1..][i - 1];
      if r.Some? then
        var i :| 0 <= i < |links[1..]| && links[1..][i] == r.value &&
                  forall j :: 0 <= j < i ==> !(links[1..][j].dpid1 == u && links[1..][j].dpid2 == v);
        assert links[i + 1] == r.value;
        assert forall j :: 0 <= j < i + 1 ==> !(links[j].dpid1 == u && links[j].dpid2 == v);
        r
      else r
  }
}
