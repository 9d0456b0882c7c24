/**
 * The value types of the route store: IP paths (`IpPath`) and link lists
 * (`ScnLinks`) with the queries the routing and balancing code makes on them.
 */
module RoutePaths {
  import opened Wrappers
  import opened Network

  /** A unidirectional IP path: source address, destination address, TOS. */
  datatype IpPath = IpPath(src: int, dst: int, tos: int)

  /** `IpPath.__eq__`: same source, destination and TOS. */
  predicate SamePath(a: IpPath, b: IpPath)
  {
    a.src == b.src && a.dst == b.dst && a.tos == b.tos
  }

  /** `IpPath.isOpposite`: the other path runs the other way with the same TOS. */
  predicate IsOpposite(a: IpPath, b: IpPath)
  {
    a.src == b.dst && a.dst == b.src && a.tos == b.tos
  }

  /** The path in the other direction. */
  function Reversed(p: IpPath): (r: IpPath)
    ensures IsOpposite(p, r) && IsOpposite(r, p)
  {
    IpPath(p.dst, p.src, p.tos)
  }

  /** Path equality is value equality, and opposition is symmetric and undone twice. */
  lemma OppositeProperties(a: IpPath, b: IpPath, c: IpPath)
    ensures SamePath(a, b) <==> a == b
    ensures IsOpposite(a, b) <==> IsOpposite(b, a)
    ensures IsOpposite(a, b) <==> b == Reversed(a)
    ensures IsOpposite(a, b) && IsOpposite(b, c) ==> SamePath(a, c)
  {
  }

  // ---------------------------------------------------------------- ScnLinks

  /** `ScnLinks.containSwitch`: some link starts or ends at `sw`. */
  predicate ContainsSwitch(links: seq<LinkKey>, sw: int)
  {
    exists i :: 0 <= i < |links| && (links[i].dpid1 == sw || links[i].dpid2 == sw)
  }

  /** The switches touched by a link list. */
  function SwitchSet(links: seq<LinkKey>): set<int>
  {
    if links == [] then {}
    else SwitchSet(links[..|links| - 1]) + {links[|links| - 1].dpid1, links[|links| - 1].dpid2}
  }

  /** The switch set holds exactly the switches `containSwitch` reports. */
  lemma {:induction false} SwitchSetContains(links: seq<LinkKey>, sw: int)
    ensures sw in SwitchSet(links) <==> ContainsSwitch(links, sw)
  {
    if links != [] {
      var t := links[..|links| - 1];
      SwitchSetContains(t, sw);
      if ContainsSwitch(t, sw) {
        var i :| 0 <= i < |t| && (t[i].dpid1 == sw || t[i].dpid2 == sw);
        assert links[i] == t[i];
      }
      if ContainsSwitch(links, sw) && !ContainsSwitch(t, sw) {
        var i :| 0 <= i < |links| && (links[i].dpid1 == sw || links[i].dpid2 == sw);
      }
    }
  }

  /** `ScnLinks.firstSwitch`: the source switch of the first link, None when empty. */
  function FirstSwitch(links: seq<LinkKey>): (r: Option<int>)
    ensures r.None? <==> links == []
    ensures r.Some? ==> r.value == links[0].dpid1 && ContainsSwitch(links, r.value)
  {
    if links == [] then None else Some(links[0].dpid1)
  }

  /** `ScnLinks.lastSwitch`: the destination switch of the last link, None when empty. */
  function LastSwitch(links: seq<LinkKey>): (r: Option<int>)
    ensures r.None? <==> links == []
    ensures r.Some? ==> r.value == links[|links| - 1].dpid2 && ContainsSwitch(links, r.value)
  {
    if links == [] then None else Some(links[|links| - 1].dpid2)
  }

  /** No value occurs twice. */
  predicate Distinct(s: seq<int>)
  {
    forall i, j :: 0 <= i < j < |s| ==> s[i] != s[j]
  }

  /** A duplicate-free sequence has as many elements as its set. */
  lemma {:induction false} DistinctCard(s: seq<int>)
    requires Distinct(s)
    ensures |set x | x in s| == |s|
  {
    if s != [] {
      var t := s[..|s| - 1];
      DistinctCard(t);
      assert (set x | x in s) == (set x | x in t) + {s[|s| - 1]};
      assert s[|s| - 1] !in (set x | x in t);
    }
  }

  /**
   * `ScnLinks.hops`: walk the links and count each switch the first time it is
   * seen, as source then as destination of each link.
   */
  method Hops(links: seq<LinkKey>) returns (n: nat)
    ensures n == |SwitchSet(links)|
  {
    var switches: seq<int> := [];
    var i := 0;
    while i < |links|
      invariant 0 <= i <= |links|
      invariant Distinct(switches)
      invariant (set x | x in switches) == SwitchSet(links[..i])
    {
      var l := links[i];
      if l.dpid1 !in switches {
        switches := switches + [l.dpid1];
      }
      if l.dpid2 !in switches {
        switches := switches + [l.dpid2];
      }
      assert links[..i + 1][..i] == links[..i];
      i := i + 1;
    }
    assert links[..i] == links;
    DistinctCard(switches);
    n := |switches|;
  }

  /** Sum of the measured use of every link. */
  function UsedSum(links: seq<LinkState>): (r: real)
    requires forall i :: 0 <= i < |links| ==> links[i].used.Some?
  {
    if links == [] then 0.0 else UsedSum(links[..|links| - 1]) + links[|links| - 1].used.value
  }

  /** Every link's measured use lies within [lo, hi]. */
  predicate UsedWithin(links: seq<LinkState>, lo: real, hi: real)
  {
    forall i :: 0 <= i < |links| ==> links[i].used.Some? && lo <= links[i].used.value <= hi
  }

  lemma {:induction false} UsedSumBounds(links: seq<LinkState>, lo: real, hi: real)
    requires UsedWithin(links, lo, hi)
    ensures lo * |links| as real <= UsedSum(links) <= hi * |links| as real
  {
    if links != [] {
      UsedSumBounds(links[..|links| - 1], lo, hi);
    }
  }

  /** A mean lies between the bounds of what it averages. */
  lemma MeanWithin(sum: real, n: real, mean: real, lo: real, hi: real)
    requires n > 0.0 && mean * n == sum && lo * n <= sum <= hi * n
    ensures lo <= mean <= hi
  {
  }

  /** Every link has a measured use. */
  predicate AllSampled(links: seq<LinkState>)
  {
    forall i :: 0 <= i < |links| ==> links[i].used.Some?
  }

  /** The summing loop of `getGlobalBandwidth`; `bw += None` raises TypeError. */
  method SumUsed(links: seq<LinkState>) returns (r: Result<real>)
    ensures r.Err? <==> !AllSampled(links)
    ensures r.Err? ==> r.error == "TypeError"
    ensures r.Ok? ==> AllSampled(links) && r.value == UsedSum(links)
  {
    var bw := 0.0;
    for i := 0 to |links|
      invariant AllSampled(links[..i])
      invariant bw == UsedSum(links[..i])
    {
      if links[i].used.None? {
        return Err("TypeError");
      }
      assert links[..i + 1][..i] == links[..i];
      bw := bw + links[i].used.value;
    }
    assert links[..|links|] == links;
    r := Ok(bw);
  }

  /**
   * `ScnLinks.getGlobalBandwidth`: the mean measured use of the links, 0 for an
   * empty list; TypeError when some link has no sample.
   */
  method GlobalBandwidth(links: seq<LinkState>) returns (r: Result<real>)
    ensures r.Err? <==> exists i :: 0 <= i < |links| && links[i].used.None?
    ensures r.Err? ==> r.error == "TypeError"
    ensures r.Ok? && links == [] ==> r.value == 0.0
    ensures r.Ok? && links != [] ==> r.value * |links| as real == UsedSum(links)
    ensures forall lo, hi :: links != [] && UsedWithin(links, lo, hi) ==> r.Ok? && lo <= r.value <= hi
  {
    r := SumUsed(links);
    if r.Err? {
      return;
    }
    var bw := r.value;
    if |links| > 0 {
      bw := bw / |links| as real;
    }
    forall lo, hi | links != [] && UsedWithin(links, lo, hi)
      ensures lo <= bw <= hi
    {
      UsedSumBounds(links, lo, hi);
      MeanWithin(UsedSum(links), |links| as real, bw, lo, hi);
    }
    r := Ok(bw);
  }

  /**
   * `ScnLinks.getMinimalBandwidthAvaillable`: the smallest available bandwidth
   * over the links. The source indexes the first link, so an empty list
   * raises IndexError.
   */
  method MinimalBandwidthAvailable(links: seq<LinkState>) returns (m: Result<real>)
    ensures m.Err? <==> links == []
    ensures m.Err? ==> m.error == "IndexError"
    ensures m.Ok? ==> exists i :: 0 <= i < |links| && m.value == links[i].available
    ensures m.Ok? ==> forall i :: 0 <= i < |links| ==> m.value <= links[i].available
  {
    if links == [] {
      return Err("IndexError");
    }
    var least := links[0].available;
    var k := 0;
    var i := 0;
    while i < |links|
      invariant 0 <= i <= |links|
      invariant 0 <= k < |links| && least == links[k].available
      invariant forall j :: 0 <= j < i ==> least <= links[j].available
    {
      if links[i].available < least {
        least := links[i].available;
        k := i;
      }
      i := i + 1;
    }
    m := Ok(least);
  }

  /**
   * `ScnLinks.__eq__` and `ScnRoute.isSameLinks`: same length and the same link
   * (by its two ends) at every position.
   */
  predicate SameLinks(a: seq<LinkKey>, b: seq<LinkKey>)
  {
    |a| == |b| && forall i :: 0 <= i < |a| ==> a[i] == b[i]
  }

  /** Positionwise link equality is list equality. */
  lemma SameLinksIsEquality(a: seq<LinkKey>, b: seq<LinkKey>)
    ensures SameLinks(a, b) <==> a == b
  {
    if SameLinks(a, b) {
      assert a == b;
    }
  }
}
