/**
 * The flow telemetry aggregator (`flowBw`): for every cookie and switch, the
 * byte rate between two counter samples of the flow entry; for every cookie,
 * the mean of those rates over the switches the flow crosses.
 */
module FlowBwStats {
  import opened Network
  import opened RoutePaths
  import Routes

  /**
   * `SegmentBw`: the last counter sample of a cookie's entry on switch
   * `dpid` (packets, bytes, seconds since install) and the rate it gave.
   */
  datatype Segment = Segment(dpid: int, pc: int, bc: int, t: int, bw: real)

  /** The byte rate between two samples; 0 for a sample at time 0 or at the stored time. */
  function Rate(oldBc: int, oldT: int, bc: int, t: int): (r: real)
    ensures t == 0 || t == oldT ==> r == 0.0
    ensures t != 0 && t != oldT ==> r * (t - oldT) as real == (bc - oldBc) as real
    ensures t > oldT && bc >= oldBc ==> r >= 0.0
  {
    if t == 0 || t == oldT then 0.0 else (bc - oldBc) as real / (t - oldT) as real
  }

  /** `SegmentBw.update`: the rate since the stored sample, and the new sample stored. */
  function Advance(s: Segment, pc: int, bc: int, t: int): Segment
  {
    Segment(s.dpid, pc, bc, t, Rate(s.bc, s.t, bc, t))
  }

  /** The same sample delivered twice gives rate 0 the second time and changes nothing else. */
  lemma AdvanceRepeated(s: Segment, pc: int, bc: int, t: int)
    ensures var once := Advance(s, pc, bc, t);
            Advance(once, pc, bc, t) == once.(bw := 0.0)
  {
  }

  /** The sample the flow keeps for `dpid` after `ScnFlow.update`: a new segment starts at rate 0. */
  function Sampled(segBws: map<int, Segment>, dpid: int, pc: int, bc: int, t: int): (r: Segment)
    ensures r.dpid == (if dpid in segBws then segBws[dpid].dpid else dpid)
    ensures r.pc == pc && r.bc == bc && r.t == t
    ensures dpid !in segBws ==> r.bw == 0.0
    ensures dpid in segBws ==> r.bw == Rate(segBws[dpid].bc, segBws[dpid].t, bc, t)
  {
    if dpid in segBws then Advance(segBws[dpid], pc, bc, t) else Segment(dpid, pc, bc, t, 0.0)
  }

  /** The sum of the segments' rates, in `order`. */
  function SumBw(segBws: map<int, Segment>, order: seq<int>): real
    requires forall i :: 0 <= i < |order| ==> order[i] in segBws
  {
    if order == [] then 0.0 else SumBw(segBws, order[..|order| - 1]) + segBws[order[|order| - 1]].bw
  }

  /** Every rate in `order` lies within [lo, hi]. */
  predicate RatesWithin(segBws: map<int, Segment>, order: seq<int>, lo: real, hi: real)
  {
    forall i :: 0 <= i < |order| ==> order[i] in segBws && lo <= segBws[order[i]].bw <= hi
  }

  /** Rates within bounds sum to within `n` times the bounds. */
  lemma {:induction false} SumBwBounds(segBws: map<int, Segment>, order: seq<int>, lo: real, hi: real)
    requires RatesWithin(segBws, order, lo, hi)
    ensures lo * |order| as real <= SumBw(segBws, order) <= hi * |order| as real
  {
    if order != [] {
      SumBwBounds(segBws, order[..|order| - 1], lo, hi);
    }
  }

  /** A mean of rates within bounds lies within them. */
  lemma MeanOfRates(segBws: map<int, Segment>, order: seq<int>, bw: real)
    requires |order| > 0 && forall i :: 0 <= i < |order| ==> order[i] in segBws
    requires bw == SumBw(segBws, order) / |order| as real
    ensures bw * |order| as real == SumBw(segBws, order)
    ensures forall lo, hi :: RatesWithin(segBws, order, lo, hi) ==> lo <= bw <= hi
  {
    forall lo, hi | RatesWithin(segBws, order, lo, hi)
      ensures lo <= bw <= hi
    {
      SumBwBounds(segBws, order, lo, hi);
      MeanWithin(SumBw(segBws, order), |order| as real, bw, lo, hi);
    }
  }

  /** A list without repetition stays so when an absent element is put in front. */
  lemma DistinctCons(x: int, s: seq<int>)
    requires Distinct(s) && x !in s
    ensures Distinct([x] + s)
  {
    var r := [x] + s;
    forall i, j | 0 <= i < j < |r|
      ensures r[i] != r[j]
    {
      assert r[j] == s[j - 1];
      if i > 0 {
        assert r[i] == s[i - 1];
      }
    }
  }

  /** Storing a segment under `dpid` keeps `order` a key order once a new key is appended. */
  lemma StoreKeepsOrder(order: seq<int>, segBws: map<int, Segment>, dpid: int, seg: Segment)
    requires IsKeyOrder(order, segBws)
    ensures var o := if dpid in segBws then order else order + [dpid];
            IsKeyOrder(o, segBws[dpid := seg])
  {
    if dpid !in segBws {
      var o := order + [dpid];
      forall i, j | 0 <= i < j < |o|
        ensures o[i] != o[j]
      {
        if j < |order| {
          assert o[i] == order[i] && o[j] == order[j];
        } else {
          assert o[i] == order[i];
        }
      }
    }
  }

  /** `order` lists the keys of `segBws` once each: the dictionary's iteration order. */
  predicate IsKeyOrder(order: seq<int>, segBws: map<int, Segment>)
  {
    Distinct(order) && (forall i :: 0 <= i < |order| ==> order[i] in segBws) && (forall d :: d in segBws ==> d in order)
  }

  /** `ScnFlow`: the running packet and byte totals, the mean rate, and the segments by switch. */
  class ScnFlow {
    const cookie: int
    var pc: int
    var bc: int
    var bw: real
    var segBws: map<int, Segment>
    var order: seq<int>

    ghost predicate Valid()
      reads this
    {
      IsKeyOrder(order, segBws) && forall d :: d in segBws ==> segBws[d].dpid == d
    }

    /** The flow has a segment and its rate is the mean of the segment rates. */
    ghost predicate Averaged()
      reads this
    {
      Valid() && |order| > 0 && bw * |order| as real == SumBw(segBws, order)
    }

    constructor(cookie: int)
      ensures Valid()
      ensures this.cookie == cookie && pc == 0 && bc == 0 && bw == 0.0 && segBws == map[] && order == []
    {
      this.cookie := cookie;
      pc := 0;
      bc := 0;
      bw := 0.0;
      segBws := map[];
      order := [];
    }

    /** The loop of `update` and `rawUpdate`: the sum of the rates. */
    method Total() returns (sum: real)
      requires Valid()
      ensures sum == SumBw(segBws, order)
    {
      sum := 0.0;
      var i := 0;
      while i < |order|
        invariant 0 <= i <= |order|
        invariant sum == SumBw(segBws, order[..i])
      {
        assert order[..i + 1][..i] == order[..i];
        sum := sum + segBws[order[i]].bw;
        i := i + 1;
      }
      assert order[..i] == order;
    }

    /** `self.segBws[dpid] = segBw`, a new key joining the iteration order. */
    method Store(dpid: int, seg: Segment)
      requires Valid() && seg.dpid == dpid
      modifies this
      ensures Valid()
      ensures segBws == old(segBws)[dpid := seg]
      ensures order == if dpid in old(segBws) then old(order) else old(order) + [dpid]
      ensures pc == old(pc) && bc == old(bc) && bw == old(bw)
    {
      StoreKeepsOrder(order, segBws, dpid, seg);
      if dpid !in segBws {
        order := order + [dpid];
      }
      segBws := segBws[dpid := seg];
    }

    /**
     * `ScnFlow.update`: store the sample for `dpid`, add it to the running
     * totals, and recompute the mean rate over all segments.
     */
    method Update(dpid: int, pc: int, bc: int, t: int)
      requires Valid()
      modifies this
      ensures Valid()
      ensures segBws == old(segBws)[dpid := Sampled(old(segBws), dpid, pc, bc, t)]
      ensures order == if dpid in old(segBws) then old(order) else old(order) + [dpid]
      ensures this.pc == old(this.pc) + pc && this.bc == old(this.bc) + bc
      ensures Averaged()
      ensures forall lo, hi :: RatesWithin(segBws, order, lo, hi) ==> lo <= bw <= hi
    {
      var seg := Sampled(segBws, dpid, pc, bc, t);
      Store(dpid, seg);
      this.pc := this.pc + seg.pc;
      this.bc := this.bc + seg.bc;
      Recompute();
    }

    /** The mean of the segment rates becomes the flow's rate. */
    method Recompute()
      requires Valid() && |order| > 0
      modifies this
      ensures Averaged()
      ensures forall lo, hi :: RatesWithin(segBws, order, lo, hi) ==> lo <= bw <= hi
      ensures pc == old(pc) && bc == old(bc) && segBws == old(segBws) && order == old(order)
    {
      var sum := Total();
      bw := sum / |order| as real;
      MeanOfRates(segBws, order, bw);
    }

    /** `ScnFlow.rawUpdate`: recompute the mean rate; nothing happens without segments. */
    method RawUpdate()
      requires Valid()
      modifies this
      ensures Valid()
      ensures order == [] ==> bw == old(bw)
      ensures order != [] ==> Averaged()
      ensures forall lo, hi :: order != [] && RatesWithin(segBws, order, lo, hi) ==> lo <= bw <= hi
      ensures pc == old(pc) && bc == old(bc) && segBws == old(segBws) && order == old(order)
    {
      if |order| == 0 {
        return;
      }
      Recompute();
    }

    /** The deletions of the route-changed handler: forget the segments of `dpids`, keeping the mean. */
    method Forget(dpids: seq<int>)
      requires Valid()
      modifies this
      ensures Valid()
      ensures forall d :: d in segBws <==> d in old(segBws) && d !in dpids
      ensures forall d :: d in segBws ==> segBws[d] == old(segBws)[d]
      ensures bw == old(bw) && pc == old(pc) && bc == old(bc)
    {
      var i := 0;
      while i < |dpids|
        invariant 0 <= i <= |dpids|
        invariant Valid()
        invariant forall d :: d in segBws <==> d in old(segBws) && d !in dpids[..i]
        invariant forall d :: d in segBws ==> segBws[d] == old(segBws)[d]
        invariant bw == old(bw) && pc == old(pc) && bc == old(bc)
      {
        assert dpids[..i + 1] == dpids[..i] + [dpids[i]];
        var d := dpids[i];
        if d in segBws {
          RemoveKeepsOrder(order, segBws, d);
          segBws := segBws - {d};
          order := Without(order, d);
        }
        i := i + 1;
      }
      assert dpids[..i] == dpids;
    }
  }

  /** `order` without `d`. */
  function Without(order: seq<int>, d: int): (r: seq<int>)
    ensures forall x :: x in r <==> x in order && x != d
  {
    if order == [] then []
    else if order[0] == d then Without(order[1..], d)
    else [order[0]] + Without(order[1..], d)
  }

  /** Removing an element keeps a list without repetition. */
  lemma {:induction false} WithoutDistinct(order: seq<int>, d: int)
    requires Distinct(order)
    ensures Distinct(Without(order, d))
  {
    if order != [] {
      assert Distinct(order[1..]);
      WithoutDistinct(order[1..], d);
      if order[0] != d {
        assert order[0] !in order[1..];
        DistinctCons(order[0], Without(order[1..], d));
      }
    }
  }

  /** Deleting a key and dropping it from the order keeps a key order. */
  lemma RemoveKeepsOrder(order: seq<int>, segBws: map<int, Segment>, d: int)
    requires IsKeyOrder(order, segBws)
    ensures IsKeyOrder(Without(order, d), segBws - {d})
  {
    WithoutDistinct(order, d);
    var o := Without(order, d);
    forall i | 0 <= i < |o|
      ensures o[i] in segBws - {d}
    {
      assert o[i] in o;
    }
  }

  /** One entry of a flow-stats reply from switch `dpid`. */
  datatype FlowStat = FlowStat(cookie: int, pc: int, bc: int, t: int)

  /** The cookies a flow-stats reply mentions. */
  function StatCookies(stats: seq<FlowStat>): (r: set<int>)
    ensures forall c :: c in r <==> exists i :: 0 <= i < |stats| && stats[i].cookie == c
  {
    set i | 0 <= i < |stats| :: stats[i].cookie
  }

  /** The cookies of one more entry of a reply. */
  lemma StatCookiesSnoc(stats: seq<FlowStat>, k: nat)
    requires k < |stats|
    ensures StatCookies(stats[..k + 1]) == StatCookies(stats[..k]) + {stats[k].cookie}
  {
    var a := stats[..k + 1];
    forall c
      ensures c in StatCookies(a) <==> c in StatCookies(stats[..k]) || c == stats[k].cookie
    {
      if c in StatCookies(a) {
        var i :| 0 <= i < |a| && a[i].cookie == c;
        if i < k {
          assert stats[..k][i] == a[i];
        }
      }
      if c in StatCookies(stats[..k]) {
        var i :| 0 <= i < k && stats[..k][i].cookie == c;
        assert a[i] == stats[..k][i];
      }
      if c == stats[k].cookie {
        assert a[k] == stats[k];
      }
    }
  }

  /**
   * A flow's segments once the entries of `stats` that carry `cookie` are
   * sampled, in reply order, on switch `dpid`.
   */
  function SampledAll(segBws: map<int, Segment>, dpid: int, cookie: int, stats: seq<FlowStat>): (r: map<int, Segment>)
    ensures cookie in StatCookies(stats) ==> r.Keys == segBws.Keys + {dpid}
    ensures cookie !in StatCookies(stats) ==> r == segBws
  {
    if stats == [] then segBws
    else
      var prev := SampledAll(segBws, dpid, cookie, stats[..|stats| - 1]);
      var s := stats[|stats| - 1];
      StatCookiesSnoc(stats, |stats| - 1);
      assert stats[..|stats| - 1 + 1] == stats;
      if s.cookie == cookie then prev[dpid := Sampled(prev, dpid, s.pc, s.bc, s.t)] else prev
  }

  /** Sampling one more entry of a reply. */
  lemma SampledAllSnoc(segBws: map<int, Segment>, dpid: int, cookie: int, stats: seq<FlowStat>, k: nat)
    requires k < |stats|
    ensures var prev := SampledAll(segBws, dpid, cookie, stats[..k]);
            var s := stats[k];
            SampledAll(segBws, dpid, cookie, stats[..k + 1]) ==
              if s.cookie == cookie then prev[dpid := Sampled(prev, dpid, s.pc, s.bc, s.t)] else prev
  {
    assert stats[..k + 1][..k] == stats[..k];
  }

  /**
   * The switches the old route crossed and the new one does not, in the
   * order the handler meets them, each once.
   */
  method RemovedSwitches(oldLinks: seq<LinkKey>, newLinks: seq<LinkKey>) returns (r: seq<int>)
    ensures Distinct(r)
    ensures forall d :: d in r <==> ContainsSwitch(oldLinks, d) && !ContainsSwitch(newLinks, d)
  {
    r := [];
    var i := 0;
    while i < |oldLinks|
      invariant 0 <= i <= |oldLinks|
      invariant Distinct(r)
      invariant forall d :: d in r <==> ContainsSwitch(oldLinks[..i], d) && !ContainsSwitch(newLinks, d)
    {
      var l := oldLinks[i];
      if !ContainsSwitch(newLinks, l.dpid1) && l.dpid1 !in r {
        r := r + [l.dpid1];
      }
      if !ContainsSwitch(newLinks, l.dpid2) && l.dpid2 !in r {
        r := r + [l.dpid2];
      }
      forall d
        ensures ContainsSwitch(oldLinks[..i + 1], d) <==> ContainsSwitch(oldLinks[..i], d) || d == l.dpid1 || d == l.dpid2
      {
        if ContainsSwitch(oldLinks[..i + 1], d) {
          var j :| 0 <= j < i + 1 && (oldLinks[..i + 1][j].dpid1 == d || oldLinks[..i + 1][j].dpid2 == d);
          if j < i {
            assert oldLinks[..i][j] == oldLinks[j];
          }
        }
        if ContainsSwitch(oldLinks[..i], d) {
          var j :| 0 <= j < i && (oldLinks[..i][j].dpid1 == d || oldLinks[..i][j].dpid2 == d);
          assert oldLinks[..i + 1][j] == oldLinks[j];
        }
        if d == l.dpid1 || d == l.dpid2 {
          assert oldLinks[..i + 1][i] == l;
        }
      }
      i := i + 1;
    }
    assert oldLinks[..i] == oldLinks;
  }

  /** A flow's segments once it takes the sample of a reply entry from switch `dpid`. */
  function Resampled(segBws: map<int, Segment>, dpid: int, s: FlowStat): map<int, Segment>
  {
    segBws[dpid := Sampled(segBws, dpid, s.pc, s.bc, s.t)]
  }

  /** `FlowBw`: the flow of every cookie seen in a flow-stats reply. */
  class FlowBw {
    var flowBws: map<int, ScnFlow>
    /** The flow objects this component owns. */
    ghost var Repr: set<ScnFlow>

    ghost predicate Valid()
      reads this, Repr
    {
      forall c :: c in flowBws ==> flowBws[c] in Repr && flowBws[c].cookie == c && flowBws[c].Valid()
    }

    /** The segments of cookie `c`'s flow, none for a cookie without one. */
    ghost function SegsAt(c: int): map<int, Segment>
      reads this, Repr
    {
      if c in flowBws && flowBws[c] in Repr then flowBws[c].segBws else map[]
    }

    constructor()
      ensures Valid() && flowBws == map[]
    {
      flowBws := map[];
      Repr := {};
    }

    /**
     * `_handle_FlowStatsEv`: every entry of the reply updates the flow of its
     * cookie, created on the first sample of that cookie.
     */
    method HandleFlowStats(dpid: int, stats: seq<FlowStat>)
      requires Valid()
      modifies this, Repr
      ensures Valid() && fresh(Repr - old(Repr))
      ensures flowBws.Keys == old(flowBws).Keys + StatCookies(stats)
      ensures forall c :: c in old(flowBws) ==> flowBws[c] == old(flowBws)[c]
      ensures forall c :: c in old(flowBws) && c !in StatCookies(stats) ==> unchanged(flowBws[c])
      ensures forall c :: SegsAt(c) == SampledAll(old(SegsAt(c)), dpid, c, stats)
      ensures forall c :: c in StatCookies(stats) ==> flowBws[c].Averaged()
    {
      var k := 0;
      ghost var seen: set<int> := {};

      while k < |stats|
        invariant 0 <= k <= |stats|
        invariant seen == StatCookies(stats[..k])
        invariant Valid() && fresh(Repr - old(Repr))
        invariant flowBws.Keys == old(flowBws).Keys + seen
        invariant forall c :: c in old(flowBws) ==> flowBws[c] == old(flowBws)[c]
        invariant forall c :: c in old(flowBws) && c !in seen ==> unchanged(flowBws[c])
        invariant forall c :: SegsAt(c) == SampledAll(old(SegsAt(c)), dpid, c, stats[..k])
        invariant forall c :: c in seen ==> flowBws[c].Averaged()
      {
        StatCookiesSnoc(stats, k);
        Sample(dpid, stats[k]);
        forall c
          ensures SegsAt(c) == SampledAll(old(SegsAt(c)), dpid, c, stats[..k + 1])
        {
          SampledAllSnoc(old(SegsAt(c)), dpid, c, stats, k);
        }
        seen := seen + {stats[k].cookie};
        k := k + 1;
      }
      assert stats[..k] == stats;
    }

    /** One entry of a flow-stats reply: the flow of its cookie, created if new, takes the sample. */
    method Sample(dpid: int, s: FlowStat)
      requires Valid()
      modifies this, Repr
      ensures Valid() && fresh(Repr - old(Repr))
      ensures flowBws.Keys == old(flowBws).Keys + {s.cookie}
      ensures forall c :: c in old(flowBws) ==> flowBws[c] == old(flowBws)[c]
      ensures forall c :: c in old(flowBws) && c != s.cookie ==> unchanged(flowBws[c])
      ensures SegsAt(s.cookie) == Resampled(old(SegsAt(s.cookie)), dpid, s)
      ensures forall c :: c != s.cookie ==> SegsAt(c) == old(SegsAt(c))
      ensures flowBws[s.cookie].Averaged()
    {
      var flow := FlowFor(s.cookie);
      flow.Update(dpid, s.pc, s.bc, s.t);
      forall c | c in flowBws && c != s.cookie
        ensures flowBws[c] != flow
      {
        assert flowBws[c].cookie != flow.cookie;
      }
    }

    /** The flow of `cookie`, created and stored when there is none; no flow changes. */
    method FlowFor(cookie: int) returns (flow: ScnFlow)
      requires Valid()
      modifies this
      ensures Valid() && fresh(Repr - old(Repr))
      ensures flowBws == old(flowBws)[cookie := flow] && flow in Repr && flow.Valid() && flow.cookie == cookie
      ensures cookie in old(flowBws) ==> flow == old(flowBws)[cookie]
      ensures forall c :: SegsAt(c) == old(SegsAt(c))
    {
      if cookie in flowBws {
        flow := flowBws[cookie];
      } else {
        flow := new ScnFlow(cookie);
        Repr := Repr + {flow};
        flowBws := flowBws[cookie := flow];
      }
    }

    /**
     * `_handle_routing_RouteChangedEv`: the old route's flow forgets the
     * segments of the switches the new route no longer crosses; its mean is
     * not recomputed. An unknown cookie changes nothing.
     */
    method HandleRouteChanged(oldRoute: Routes.Route, newRoute: Routes.Route)
      requires Valid()
      modifies Repr
      ensures Valid()
      ensures forall c :: c in flowBws && c != oldRoute.cookie ==> unchanged(flowBws[c])
      ensures var c := oldRoute.cookie;
              c in flowBws ==>
                (forall d :: d in flowBws[c].segBws <==>
                   d in old(flowBws[c].segBws) && !(ContainsSwitch(oldRoute.links, d) && !ContainsSwitch(newRoute.links, d))) &&
                (forall d :: d in flowBws[c].segBws ==> flowBws[c].segBws[d] == old(flowBws[c].segBws)[d]) &&
                flowBws[c].bw == old(flowBws[c].bw)
    {
      var removed := RemovedSwitches(oldRoute.links, newRoute.links);
      if oldRoute.cookie in flowBws {
        flowBws[oldRoute.cookie].Forget(removed);
      }
    }
  }
}
