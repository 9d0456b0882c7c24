/**
 * The middleware's path objects (`scn/plugins/middleware/path.py`): the global
 * cookie counter, the bandwidth, strategy and application-id descriptions, the
 * read-only attribute discipline and a path's link list with the flow entries
 * it applies to its links.
 */
module MiddlewarePath {
  import opened Wrappers
  import opened Network

  // ------------------------------------------------------------ cookies

  /** `MAX_COOKIE`. */
  const MaxCookie: int := 0x7FFF_FFFF

  /** The counter value after `c` has been issued. */
  function NextCookie(c: int): (r: int)
    ensures 0 <= r <= MaxCookie
  {
    (c + 1) % (MaxCookie + 1)
  }

  /** The global counter `__next_cookie__` (1 at start-up). */
  class CookieCounter {
    var next: int

    ghost predicate Valid()
      reads this
    {
      0 <= next <= MaxCookie
    }

    constructor()
      ensures Valid() && next == 1
    {
      next := 1;
    }

    /** `Path.__generate_cookie__`: hand out the current value and advance modulo `MAX_COOKIE + 1`. */
    method Generate() returns (cookie: int)
      requires Valid()
      modifies this
      ensures Valid()
      ensures cookie == old(next) && next == NextCookie(cookie)
    {
      cookie := next;
      next := next + 1;
      next := next % (MaxCookie + 1);
    }
  }

  /** The first `k` cookies a counter standing at `c` hands out, one per call. */
  function Issued(c: int, k: nat): (r: seq<int>)
    ensures |r| == k
    decreases k
  {
    if k == 0 then [] else [c] + Issued(NextCookie(c), k - 1)
  }

  /** `x` reduced once into `0 .. MAX_COOKIE` (enough for sums of two counter values). */
  function Wrapped(x: int): int
  {
    if x <= MaxCookie then x else x - (MaxCookie + 1)
  }

  /** Advancing the counter is a plain increment except at `MAX_COOKIE`, which wraps to 0. */
  lemma NextCookieStep(c: int)
    requires 0 <= c <= MaxCookie
    ensures NextCookie(c) == if c < MaxCookie then c + 1 else 0
  {
  }

  /** The `i`-th cookie handed out from `c` is `c + i` wrapped into `0 .. MAX_COOKIE`. */
  lemma {:induction false} IssuedWraps(c: int, k: nat, i: nat)
    requires 0 <= c <= MaxCookie && i < k <= MaxCookie + 1
    ensures Issued(c, k)[i] == Wrapped(c + i)
    decreases k
  {
    if i > 0 {
      NextCookieStep(c);
      IssuedWraps(NextCookie(c), k - 1, i - 1);
      assert Issued(c, k)[i] == Issued(NextCookie(c), k - 1)[i - 1];
    }
  }

  /**
   * Any `MAX_COOKIE + 1` or fewer consecutive cookies are pairwise different: a
   * cookie is reused only after the counter has wrapped all the way round.
   */
  lemma IssuedDistinct(c: int, k: nat, i: nat, j: nat)
    requires 0 <= c <= MaxCookie && i < j < k <= MaxCookie + 1
    ensures Issued(c, k)[i] != Issued(c, k)[j]
  {
    IssuedWraps(c, k, i);
    IssuedWraps(c, k, j);
  }

  /** Starting from 1, the counter wraps and issues cookie 0 on its `MAX_COOKIE + 1`-th call. */
  lemma WrapIssuesZero(k: nat)
    requires k == MaxCookie + 1
    ensures Issued(1, k)[k - 1] == 0
    ensures forall i :: 0 <= i < k - 1 ==> Issued(1, k)[i] == i + 1
  {
    IssuedWraps(1, k, k - 1);
    forall i | 0 <= i < k - 1
      ensures Issued(1, k)[i] == i + 1
    {
      IssuedWraps(1, k, i);
    }
  }

  // ------------------------------------------------------------ bandwidth

  /** `UNITS`. */
  const Units: seq<string> := ["P", "G", "M", "K"]

  /** A parsed `BandWidth`: the digit string and the unit letter, or "" for none. */
  datatype BandWidth = BandWidth(amount: string, unit: string)

  predicate IsDigit(ch: char)
  {
    '0' <= ch <= '9'
  }

  predicate AllDigits(s: string)
  {
    forall i :: 0 <= i < |s| ==> IsDigit(s[i])
  }

  predicate IsUnit(ch: char)
  {
    ch == 'P' || ch == 'G' || ch == 'M' || ch == 'K'
  }

  /** Zero or more repetitions of `bps` or `BPS`. */
  predicate BpsTail(r: string)
    decreases |r|
  {
    r == [] || (|r| >= 3 && (r[..3] == "bps" || r[..3] == "BPS") && BpsTail(r[3..]))
  }

  /** Python's `$` also matches just before one final newline. */
  function Subject(s: string): (r: string)
    ensures r == s || (s == r + "\n")
  {
    if |s| > 0 && s[|s| - 1] == '\n' then s[..|s| - 1] else s
  }

  /**
   * The language of `^(\d+)([PGMK]{0,1})(bps|BPS)*$`: digits (at least one),
   * then at most one unit letter, then the `bps` suffixes.
   */
  ghost predicate Accepts(s: string)
  {
    exists i, j :: 0 < i <= j <= |s| && j <= i + 1 && AllDigits(s[..i]) &&
      (j == i + 1 ==> IsUnit(s[i])) && (j == i ==> (i == |s| || !IsDigit(s[i]))) && BpsTail(s[j..])
  }

  /** The length of the longest all-digit prefix (what the greedy `\d+` takes). */
  function DigitRun(s: string): (n: nat)
    ensures n <= |s| && AllDigits(s[..n]) && (n == |s| || !IsDigit(s[n]))
  {
    if s == [] || !IsDigit(s[0]) then 0
    else
      var n := 1 + DigitRun(s[1..]);
      assert forall i :: 1 <= i < n ==> s[..n][i] == s[1..][..n - 1][i - 1];
      n
  }

  /** An explicit unit wins only when it is one of `UNITS`. */
  function ChooseUnit(explicit: string, parsed: string): (r: string)
    ensures explicit in Units ==> r == explicit
    ensures explicit !in Units ==> r == parsed
  {
    if explicit != "" && explicit in Units then explicit else parsed
  }

  /** `BandWidth(bandwidth, unit)`, with `ValueError` for a string outside the pattern. */
  function ParseBandWidth(s: string, explicit: string): (r: Result<BandWidth>)
  {
    var b := Subject(s);
    var n := DigitRun(b);
    if n == 0 then Err("ValueError")
    else if n < |b| && IsUnit(b[n]) && BpsTail(b[n + 1..]) then Ok(BandWidth(b[..n], ChooseUnit(explicit, [b[n]])))
    else if BpsTail(b[n..]) then Ok(BandWidth(b[..n], ChooseUnit(explicit, "")))
    else Err("ValueError")
  }

  /** A split accepted by the pattern starts with exactly the greedy digit run. */
  lemma AcceptedSplit(s: string, i: nat, j: nat)
    requires 0 < i <= j <= |s| && j <= i + 1 && AllDigits(s[..i])
    requires j == i + 1 ==> IsUnit(s[i])
    requires j == i ==> (i == |s| || !IsDigit(s[i]))
    ensures i == DigitRun(s)
  {
    DigitRunOf(s, i);
  }

  /** A digit prefix followed by the end or a non-digit is the greedy digit run. */
  lemma {:induction false} DigitRunOf(s: string, i: nat)
    requires i <= |s| && AllDigits(s[..i]) && (i == |s| || !IsDigit(s[i]))
    ensures DigitRun(s) == i
  {
    if i > 0 {
      assert s[..i][0] == s[0];
      assert s[1..][..i - 1] == s[..i][1..];
      assert i < |s| ==> s[1..][i - 1] == s[i];
      DigitRunOf(s[1..], i - 1);
    }
  }

  /** A tail of `bps` suffixes starts with `b` or `B`, never with a unit letter. */
  lemma BpsTailHead(r: string)
    requires BpsTail(r) && r != []
    ensures r[0] == 'b' || r[0] == 'B'
  {
    assert r[..3][0] == r[0];
  }

  /** The parser accepts exactly the strings of the pattern (after the final-newline rule). */
  lemma ParseAccepts(s: string, explicit: string)
    ensures ParseBandWidth(s, explicit).Ok? <==> Accepts(Subject(s))
    ensures ParseBandWidth(s, explicit).Err? ==> ParseBandWidth(s, explicit).error == "ValueError"
  {
    var b := Subject(s);
    var n := DigitRun(b);
    if ParseBandWidth(s, explicit).Ok? {
      if n < |b| && IsUnit(b[n]) && BpsTail(b[n + 1..]) {
        assert 0 < n <= n + 1 <= |b| && AllDigits(b[..n]) && BpsTail(b[n + 1..]);
      } else {
        assert 0 < n <= |b| && AllDigits(b[..n]) && BpsTail(b[n..]);
      }
    }
    if Accepts(b) {
      var i, j :| 0 < i <= j <= |b| && j <= i + 1 && AllDigits(b[..i]) &&
        (j == i + 1 ==> IsUnit(b[i])) && (j == i ==> (i == |b| || !IsDigit(b[i]))) && BpsTail(b[j..]);
      AcceptedSplit(b, i, j);
      if j == i && i < |b| {
        BpsTailHead(b[i..]);
        assert b[i..][0] == b[i];
      }
    }
  }

  /** What a successful parse keeps: the digits and a unit drawn from `UNITS`, the explicit one first. */
  lemma ParseFields(s: string, explicit: string)
    requires ParseBandWidth(s, explicit).Ok?
    ensures var bw := ParseBandWidth(s, explicit).value;
      bw.amount != [] && AllDigits(bw.amount) && bw.amount <= Subject(s) &&
      (bw.unit == "" || bw.unit in Units) && (explicit in Units ==> bw.unit == explicit)
  {
    var b := Subject(s);
    var n := DigitRun(b);
    if n < |b| && IsUnit(b[n]) && BpsTail(b[n + 1..]) {
      assert [b[n]] in Units;
    }
  }

  /** The canonical spelling of a bandwidth, e.g. `200Mbps`. */
  function Format(bw: BandWidth): string
  {
    bw.amount + bw.unit + "bps"
  }

  /** A well-formed bandwidth spelled out and parsed back without an explicit unit is itself. */
  lemma FormatRoundTrip(bw: BandWidth)
    requires bw.amount != [] && AllDigits(bw.amount) && (bw.unit == "" || bw.unit in Units)
    ensures ParseBandWidth(Format(bw), "") == Ok(bw)
  {
    var s := Format(bw);
    var n := |bw.amount|;
    assert Subject(s) == s;
    assert s[..n] == bw.amount;
    assert BpsTail("bps") by { assert "bps"[..3] == "bps" && "bps"[3..] == []; }
    if bw.unit == "" {
      assert s[n..] == "bps";
      AcceptedSplit(s, n, n);
    } else {
      assert s[n] == bw.unit[0] && [s[n]] == bw.unit;
      assert s[n + 1..] == "bps";
      AcceptedSplit(s, n, n + 1);
    }
  }

  // ------------------------------------------------------------ descriptions

  /** `Strategy`: the routing logic and when to apply it. */
  datatype Strategy = Strategy(logic: string, timing: string)

  /** `Strategy(logic, timing)`: a missing or empty value takes the default. */
  function MakeStrategy(logic: Option<string>, timing: Option<string>): (r: Strategy)
    ensures logic.Some? && logic.value != "" ==> r.logic == logic.value
    ensures logic.None? || logic.value == "" ==> r.logic == "DIJKSTRA"
    ensures timing.Some? && timing.value != "" ==> r.timing == timing.value
    ensures timing.None? || timing.value == "" ==> r.timing == "STATIC"
  {
    Strategy(if logic.Some? && logic.value != "" then logic.value else "DIJKSTRA",
             if timing.Some? && timing.value != "" then timing.value else "STATIC")
  }

  /** `ConditionDescription`: the bandwidth when one was given, the strategy and the priority. */
  datatype ConditionDescription = ConditionDescription(bandwidth: Option<BandWidth>, strategy: Strategy, priority: int)

  /**
   * `ConditionDescription(bandwidth, strategy, priority)`: an empty bandwidth
   * stays absent, a given one must parse; a missing or zero priority is 255.
   */
  function MakeConditions(bandwidth: string, logic: Option<string>, timing: Option<string>, priority: Option<int>): (r: Result<ConditionDescription>)
    ensures bandwidth != "" && ParseBandWidth(bandwidth, "").Err? ==> r == Err("ValueError")
    ensures r.Ok? ==> r.value.strategy == MakeStrategy(logic, timing)
    ensures r.Ok? ==> (r.value.bandwidth.None? <==> bandwidth == "")
    ensures r.Ok? && r.value.bandwidth.Some? ==> Ok(r.value.bandwidth.value) == ParseBandWidth(bandwidth, "")
    ensures r.Ok? ==> r.value.priority == (if priority.None? || priority.value == 0 then 255 else priority.value)
  {
    var strategy := MakeStrategy(logic, timing);
    var prio := if priority.None? || priority.value == 0 then 255 else priority.value;
    if bandwidth == "" then Ok(ConditionDescription(None, strategy, prio))
    else
      var parsed := ParseBandWidth(bandwidth, "");
      ParseAccepts(bandwidth, "");
      if parsed.Err? then Err("ValueError")
      else Ok(ConditionDescription(Some(parsed.value), strategy, prio))
  }

  /** `AppId`: the ToS and VLAN that identify a path's packets. */
  datatype AppId = AppId(tos: Option<int>, vlan: Option<int>)

  /** The match field `get_id` returns. */
  datatype FlowId = DlVlan(vlan: int) | NwTos(tos: int)

  /** `AppId.get_id`: the VLAN when set, else the ToS, else nothing. */
  function GetId(a: AppId): (r: Option<FlowId>)
    ensures r.None? <==> a.vlan.None? && a.tos.None?
    ensures a.vlan.Some? ==> r == Some(DlVlan(a.vlan.value))
    ensures a.vlan.None? && a.tos.Some? ==> r == Some(NwTos(a.tos.value))
  {
    if a.vlan.Some? then Some(DlVlan(a.vlan.value))
    else if a.tos.Some? then Some(NwTos(a.tos.value))
    else None
  }

  // ------------------------------------------------------------ read-only objects

  /** An attribute value of a read-only description. */
  datatype Attr = NoneAttr | IntAttr(i: int) | StrAttr(s: string)

  /** A `ReadOnly` instance: its class name and its own attributes. */
  datatype ReadOnlyObj = ReadOnlyObj(cls: string, attrs: map<string, Attr>)

  /** `other.__dict__.get(k)`: a missing attribute reads as None. */
  function GetAttr(o: ReadOnlyObj, k: string): (r: Attr)
    ensures k in o.attrs ==> r == o.attrs[k]
    ensures k !in o.attrs ==> r == NoneAttr
  {
    if k in o.attrs then o.attrs[k] else NoneAttr
  }

  /** `ReadOnly.__setattr__`: allowed only from within `__init__`. */
  function SetAttr(o: ReadOnlyObj, k: string, v: Attr, inInit: bool): (r: Result<ReadOnlyObj>)
    ensures !inInit ==> r == Err("AttributeError")
    ensures inInit ==> r.Ok? && r.value.cls == o.cls && GetAttr(r.value, k) == v
    ensures inInit ==> forall k2 :: k2 != k ==> GetAttr(r.value, k2) == GetAttr(o, k2)
  {
    if inInit then Ok(o.(attrs := o.attrs[k := v])) else Err("AttributeError")
  }

  /** `ReadOnly.__eq__`: same class, and each of `a`'s attributes read the same from `b`. */
  predicate ReadOnlyEq(a: ReadOnlyObj, b: ReadOnlyObj)
  {
    a.cls == b.cls && forall k :: k in a.attrs ==> GetAttr(b, k) == a.attrs[k]
  }

  /** Every object equals itself, and objects of different classes never compare equal. */
  lemma ReadOnlyEqBasics(a: ReadOnlyObj, b: ReadOnlyObj)
    ensures ReadOnlyEq(a, a)
    ensures a.cls != b.cls ==> !ReadOnlyEq(a, b)
    ensures a.attrs == b.attrs && a.cls == b.cls ==> ReadOnlyEq(a, b) && ReadOnlyEq(b, a)
  {
  }

  /**
   * The comparison looks only at the left object's attributes, and a
   * missing attribute reads as None: it is not symmetric.
   */
  lemma ReadOnlyEqAsymmetric()
    ensures var a := ReadOnlyObj("AppId", map[]);
            var b := ReadOnlyObj("AppId", map["tos" := IntAttr(4)]);
            ReadOnlyEq(a, b) && !ReadOnlyEq(b, a)
    ensures var a := ReadOnlyObj("AppId", map["vlan" := NoneAttr]);
            var b := ReadOnlyObj("AppId", map[]);
            ReadOnlyEq(a, b)
  {
    var b := ReadOnlyObj("AppId", map["tos" := IntAttr(4)]);
    assert GetAttr(ReadOnlyObj("AppId", map[]), "tos") == NoneAttr;
    assert "tos" in b.attrs;
  }

  // ------------------------------------------------------------ paths

  /** `link.apply_flow_entry(cookie, src, dst, app_id, is_last)` on one link of a path. */
  datatype Install = Install(cookie: int, link: LinkKey, isLast: bool)

  /** `link.remove_flow_entry(cookie, src, dst, app_id)` on one link of a path. */
  datatype Removal = Removal(cookie: int, link: LinkKey)

  /**
   * The entries `apply_flow_entries` installs over `links`, stopping at the
   * first missing link (None has no `apply_flow_entry`); the flag tells
   * whether every link was reached. A link is last when it is the final
   * element (compared by identity, which equal link records share).
   */
  function Applied(cookie: int, links: seq<Option<LinkKey>>, last: Option<LinkKey>): (r: (seq<Install>, bool))
    ensures |r.0| <= |links|
    ensures r.1 <==> forall i :: 0 <= i < |links| ==> links[i].Some?
    ensures forall i :: 0 <= i < |r.0| ==>
              links[i].Some? && r.0[i] == Install(cookie, links[i].value, links[i] == last)
    ensures !r.1 ==> |r.0| < |links| && links[|r.0|].None?
    ensures r.1 ==> |r.0| == |links|
  {
    if links == [] then ([], true)
    else if links[0].None? then ([], false)
    else
      var rest := Applied(cookie, links[1..], last);
      assert forall i :: 1 <= i < |links| ==> links[i] == links[1..][i - 1];
      ([Install(cookie, links[0].value, links[0] == last)] + rest.0, rest.1)
  }

  /** The entries `remove_flow_entries` removes over `links`, stopping at the first missing link. */
  function Removed(cookie: int, links: seq<Option<LinkKey>>): (r: (seq<Removal>, bool))
    ensures |r.0| <= |links|
    ensures r.1 <==> forall i :: 0 <= i < |links| ==> links[i].Some?
    ensures forall i :: 0 <= i < |r.0| ==> links[i].Some? && r.0[i] == Removal(cookie, links[i].value)
    ensures !r.1 ==> |r.0| < |links| && links[|r.0|].None?
    ensures r.1 ==> |r.0| == |links|
  {
    if links == [] then ([], true)
    else if links[0].None? then ([], false)
    else
      var rest := Removed(cookie, links[1..]);
      assert forall i :: 1 <= i < |links| ==> links[i] == links[1..][i - 1];
      ([Removal(cookie, links[0].value)] + rest.0, rest.1)
  }

  /** A route's links are pairwise different. */
  predicate DistinctLinks(links: seq<Option<LinkKey>>)
  {
    forall i, j :: 0 <= i < j < |links| ==> links[i] != links[j]
  }

  /** With no repeated link, only the final link is installed as the last one. */
  lemma OnlyFinalIsLast(cookie: int, links: seq<Option<LinkKey>>)
    requires links != [] && DistinctLinks(links)
    requires forall i :: 0 <= i < |links| ==> links[i].Some?
    ensures var ins := Applied(cookie, links, links[|links| - 1]).0;
      |ins| == |links| &&
      (forall i :: 0 <= i < |ins| ==> (ins[i].isLast <==> i == |links| - 1)) &&
      (forall i :: 0 <= i < |ins| ==> ins[i].link == links[i].value)
  {
  }

  /** A link repeated at the end makes both of its occurrences count as last. */
  lemma RepeatedLastLink(cookie: int, l: LinkKey, m: LinkKey)
    requires l != m
    ensures Applied(cookie, [Some(l), Some(m), Some(l)], Some(l)).0 ==
            [Install(cookie, l, true), Install(cookie, m, false), Install(cookie, l, true)]
  {
  }

  /**
   * `Path`: a route between two peers, its cookie from the global counter,
   * the links it currently uses, and logs of the flow entries applied to and
   * removed from those links and of the `PathChangedEv` events raised.
   */
  class Path {
    const cookie: int
    const srcIp: string
    const dstIp: string
    const appId: AppId
    const conditions: ConditionDescription
    var pathId: Option<string>
    var links: seq<Option<LinkKey>>
    ghost var installs: seq<Install>
    ghost var removals: seq<Removal>
    ghost var changedEvents: nat

    /** `Path(path_desc, cond_desc)`: no links, no id, and the next cookie. */
    constructor(srcIp: string, dstIp: string, appId: AppId, conditions: ConditionDescription, counter: CookieCounter)
      requires counter.Valid()
      modifies counter
      ensures counter.Valid()
      ensures cookie == old(counter.next) && counter.next == NextCookie(cookie)
      ensures this.srcIp == srcIp && this.dstIp == dstIp && this.appId == appId && this.conditions == conditions
      ensures pathId.None? && links == [] && installs == [] && removals == [] && changedEvents == 0
    {
      this.srcIp := srcIp;
      this.dstIp := dstIp;
      this.appId := appId;
      this.conditions := conditions;
      pathId := None;
      links := [];
      installs := [];
      removals := [];
      changedEvents := 0;
      var c := counter.Generate();
      cookie := c;
    }

    /**
     * `apply_flow_entries`: one entry per link in order, flagged last when it is
     * the list's final link, then one `PathChangedEv`; a missing link raises
     * AttributeError after the entries before it were applied.
     */
    method ApplyFlowEntries() returns (r: Result<()>)
      requires links != []
      modifies this`installs, this`changedEvents
      ensures installs == old(installs) + Applied(cookie, links, links[|links| - 1]).0
      ensures r.Ok? <==> Applied(cookie, links, links[|links| - 1]).1
      ensures r.Err? ==> r.error == "AttributeError" && changedEvents == old(changedEvents)
      ensures r.Ok? ==> changedEvents == old(changedEvents) + 1
    {
      var ls := links;
      var last := ls[|ls| - 1];
      ghost var all := Applied(cookie, ls, last);
      var i := 0;
      while i < |ls|
        invariant 0 <= i <= |ls| && changedEvents == old(changedEvents)
        invariant forall j :: 0 <= j < i ==> ls[j].Some?
        invariant i <= |all.0| && installs == old(installs) + all.0[..i]
      {
        if ls[i].None? {
          assert !all.1 && |all.0| == i;
          assert all.0 == all.0[..i];
          return Err("AttributeError");
        }
        var entry := Install(cookie, ls[i].value, ls[i] == last);
        assert i < |all.0| && all.0[i] == entry;
        installs := installs + [entry];
        assert all.0[..i + 1] == all.0[..i] + [all.0[i]];
        i := i + 1;
      }
      assert all.0[..i] == all.0;
      changedEvents := changedEvents + 1;
      return Ok(());
    }

    /** `remove_flow_entries`: one removal per current link in order, then one `PathChangedEv`. */
    method RemoveFlowEntries() returns (r: Result<()>)
      modifies this`removals, this`changedEvents
      ensures removals == old(removals) + Removed(cookie, links).0
      ensures r.Ok? <==> Removed(cookie, links).1
      ensures r.Err? ==> r.error == "AttributeError" && changedEvents == old(changedEvents)
      ensures r.Ok? ==> changedEvents == old(changedEvents) + 1
    {
      var ls := links;
      ghost var all := Removed(cookie, ls);
      var i := 0;
      while i < |ls|
        invariant 0 <= i <= |ls| && changedEvents == old(changedEvents)
        invariant forall j :: 0 <= j < i ==> ls[j].Some?
        invariant i <= |all.0| && removals == old(removals) + all.0[..i]
      {
        if ls[i].None? {
          assert |all.0| == i;
          assert all.0 == all.0[..i];
          return Err("AttributeError");
        }
        assert i < |all.0| && all.0[i] == Removal(cookie, ls[i].value);
        removals := removals + [Removal(cookie, ls[i].value)];
        assert all.0[..i + 1] == all.0[..i] + [all.0[i]];
        i := i + 1;
      }
      assert all.0[..i] == all.0;
      changedEvents := changedEvents + 1;
      return Ok(());
    }

    /**
     * `update_links(links)` as written: the new list is stored first, so with
     * no links the removal runs over the new, empty list and removes nothing.
     */
    method UpdateLinksAsWritten(newLinks: seq<Option<LinkKey>>) returns (r: Result<()>)
      modifies this`links, this`installs, this`removals, this`changedEvents
      ensures links == newLinks
      ensures newLinks != [] ==> installs == old(installs) + Applied(cookie, newLinks, newLinks[|newLinks| - 1]).0
      ensures newLinks != [] ==> removals == old(removals) && (r.Ok? <==> Applied(cookie, newLinks, newLinks[|newLinks| - 1]).1)
      ensures newLinks == [] ==> installs == old(installs) && removals == old(removals) && r.Ok?
      ensures newLinks == [] ==> changedEvents == old(changedEvents) + 1
    {
      if |newLinks| > 0 {
        // The written and the intended update agree on a non-empty list.
        r := UpdateLinks(newLinks);
      } else {
        links := newLinks;
        r := RemoveFlowEntries();
      }
    }

    /**
     * `update_links(links)` with the evident intent: with no links, the entries
     * of the links the path held are removed before the list is emptied.
     */
    method UpdateLinks(newLinks: seq<Option<LinkKey>>) returns (r: Result<()>)
      modifies this`links, this`installs, this`removals, this`changedEvents
      ensures newLinks != [] ==> links == newLinks && removals == old(removals)
      ensures newLinks != [] ==> installs == old(installs) + Applied(cookie, newLinks, newLinks[|newLinks| - 1]).0
      ensures newLinks != [] ==> (r.Ok? <==> Applied(cookie, newLinks, newLinks[|newLinks| - 1]).1)
      ensures newLinks == [] ==> installs == old(installs) && removals == old(removals) + Removed(cookie, old(links)).0
      ensures newLinks == [] ==> (r.Ok? <==> Removed(cookie, old(links)).1) && (r.Ok? ==> links == [])
      ensures r.Err? ==> r.error == "AttributeError"
    {
      if |newLinks| > 0 {
        links := newLinks;
        r := ApplyFlowEntries();
      } else {
        r := RemoveFlowEntries();
        if r.Ok? {
          links := [];
        }
      }
    }
  }

  /**
   * Emptying a path with installed links: as written nothing is removed, while
   * the intended update removes one entry per link.
   */
  lemma RemoveLinksAsWrittenRemovesNothing(cookie: int, held: seq<Option<LinkKey>>)
    requires held != [] && forall i :: 0 <= i < |held| ==> held[i].Some?
    ensures Removed(cookie, []).0 == []
    ensures |Removed(cookie, held).0| == |held| > 0
    ensures forall i :: 0 <= i < |held| ==> Removed(cookie, held).0[i] == Removal(cookie, held[i].value)
  {
  }
}
