/**
 * The `cookies` list every link (`ScnLink`) carries: the cookies of the routes
 * that use it. Links are shared objects in the controller; here the lists are
 * one map from link to list, and a link without an entry has an empty list.
 */
module LinkCookies {
  import opened Wrappers
  import opened Network

  type CookieTable = map<LinkKey, seq<int>>

  /** The cookie list of link `l`. */
  function CookiesOf(t: CookieTable, l: LinkKey): seq<int>
  {
    if l in t then t[l] else []
  }

  /** Two tables give every link the same list. */
  ghost predicate SameCookies(a: CookieTable, b: CookieTable)
  {
    forall l :: CookiesOf(a, l) == CookiesOf(b, l)
  }

  /** `n` copies of `c`. */
  function Repeat(c: int, n: nat): (r: seq<int>)
    ensures |r| == n
  {
    if n == 0 then [] else [c] + Repeat(c, n - 1)
  }

  /** Python `list.remove`: drop the first occurrence of `c`; ValueError when there is none. */
  function RemoveFirst(cs: seq<int>, c: int): (r: Result<seq<int>>)
    ensures r.Err? <==> c !in cs
  {
    if cs == [] then Err("ValueError")
    else if cs[0] == c then Ok(cs[1..])
    else
      match RemoveFirst(cs[1..], c)
      case Err(e) => Err(e)
      case Ok(t) => Ok([cs[0]] + t)
  }

  /** A successful removal takes exactly one `c` out and keeps every other element. */
  lemma {:induction false} RemoveFirstCount(cs: seq<int>, c: int)
    requires c in cs
    ensures multiset(RemoveFirst(cs, c).value) == multiset(cs) - multiset{c}
  {
    assert cs == [cs[0]] + cs[1..];
    if cs[0] != c {
      RemoveFirstCount(cs[1..], c);
    }
  }

  /** Removing `c` from a list that has it only in a trailing run takes one copy off the run. */
  lemma {:induction false} RemoveFirstFromRun(b: seq<int>, c: int, n: nat)
    requires c !in b && n > 0
    ensures RemoveFirst(b + Repeat(c, n), c) == Ok(b + Repeat(c, n - 1))
  {
    if b == [] {
      var cs := Repeat(c, n);
      assert b + cs == cs && cs[0] == c;
      assert cs[1..] == Repeat(c, n - 1);
      assert RemoveFirst(cs, c) == Ok(cs[1..]);
      assert b + Repeat(c, n - 1) == cs[1..];
    } else {
      assert (b + Repeat(c, n))[1..] == b[1..] + Repeat(c, n);
      RemoveFirstFromRun(b[1..], c, n);
      assert [b[0]] + (b[1..] + Repeat(c, n - 1)) == b + Repeat(c, n - 1);
    }
  }

  /** `for link in links: link.cookies.append(c)` (`addRoute`). */
  function AppendOnLinks(t: CookieTable, links: seq<LinkKey>, c: int): CookieTable
    decreases |links|
  {
    if links == [] then t
    else AppendOnLinks(t[links[0] := CookiesOf(t, links[0]) + [c]], links[1..], c)
  }

  /** After appending, each link's list ends with one `c` per occurrence of the link in `links`. */
  lemma {:induction false} AppendOnLinksShape(t: CookieTable, links: seq<LinkKey>, c: int, l: LinkKey)
    ensures CookiesOf(AppendOnLinks(t, links, c), l) == CookiesOf(t, l) + Repeat(c, Occurrences(links, l))
    decreases |links|
  {
    if links == [] {
      assert CookiesOf(t, l) + Repeat(c, 0) == CookiesOf(t, l);
    } else {
      var l0, rest := links[0], links[1..];
      var t1 := t[l0 := CookiesOf(t, l0) + [c]];
      assert AppendOnLinks(t, links, c) == AppendOnLinks(t1, rest, c);
      AppendOnLinksShape(t1, rest, c, l);
      var k := Occurrences(rest, l);
      if l == l0 {
        assert Occurrences(links, l) == k + 1;
        assert Repeat(c, k + 1) == [c] + Repeat(c, k);
        assert CookiesOf(t1, l) + Repeat(c, k) == CookiesOf(t, l) + Repeat(c, k + 1);
      } else {
        assert Occurrences(links, l) == k;
        assert CookiesOf(t1, l) == CookiesOf(t, l);
      }
    }
  }

  /** `for link in links: link.cookies.remove(c)` (`delRoute`): ValueError at the first link without `c`. */
  function RemoveOnLinks(t: CookieTable, links: seq<LinkKey>, c: int): Result<CookieTable>
    decreases |links|
  {
    if links == [] then Ok(t)
    else
      match RemoveFirst(CookiesOf(t, links[0]), c)
      case Err(e) => Err(e)
      case Ok(rest) => RemoveOnLinks(t[links[0] := rest], links[1..], c)
  }

  /**
   * The tables `delRoute`'s loop leaves behind: the cookie removed from each
   * link in turn until the first link without it, where `list.remove` raises.
   */
  function RemoveUntilFailure(t: CookieTable, links: seq<LinkKey>, c: int): CookieTable
    decreases |links|
  {
    if links == [] then t
    else
      match RemoveFirst(CookiesOf(t, links[0]), c)
      case Err(_) => t
      case Ok(rest) => RemoveUntilFailure(t[links[0] := rest], links[1..], c)
  }

  /**
   * A removal that succeeds leaves the table it computes. One that fails has
   * already taken the cookie off the links before the first link without it,
   * and changed nothing from that link on.
   */
  lemma {:induction false} RemoveUntilFailureStops(t: CookieTable, links: seq<LinkKey>, c: int)
    ensures RemoveOnLinks(t, links, c).Ok? ==> RemoveUntilFailure(t, links, c) == RemoveOnLinks(t, links, c).value
    ensures RemoveOnLinks(t, links, c).Err? ==>
              exists k :: 0 <= k < |links| && RemoveOnLinks(t, links[..k], c).Ok? &&
                RemoveUntilFailure(t, links, c) == RemoveOnLinks(t, links[..k], c).value &&
                c !in CookiesOf(RemoveUntilFailure(t, links, c), links[k])
    decreases |links|
  {
    if links != [] {
      match RemoveFirst(CookiesOf(t, links[0]), c)
      case Err(_) =>
        assert links[..0] == [];
      case Ok(rest) =>
        var t1 := t[links[0] := rest];
        RemoveUntilFailureStops(t1, links[1..], c);
        if RemoveOnLinks(t, links, c).Err? {
          var k :| 0 <= k < |links[1..]| && RemoveOnLinks(t1, links[1..][..k], c).Ok? &&
                   RemoveUntilFailure(t1, links[1..], c) == RemoveOnLinks(t1, links[1..][..k], c).value &&
                   c !in CookiesOf(RemoveUntilFailure(t1, links[1..], c), links[1..][k]);
          var pre := links[..k + 1];
          assert pre[0] == links[0] && pre[1..] == links[1..][..k];
          assert RemoveOnLinks(t, pre, c) == RemoveOnLinks(t1, links[1..][..k], c);
          assert links[k + 1] == links[1..][k];
        }
    }
  }

  /** How often `l` occurs in `links`. */
  function Occurrences(links: seq<LinkKey>, l: LinkKey): nat
  {
    if links == [] then 0 else (if links[0] == l then 1 else 0) + Occurrences(links[1..], l)
  }

  /** A link occurs in `links` exactly when it is one of them. */
  lemma {:induction false} OccurrencesPositive(links: seq<LinkKey>, l: LinkKey)
    ensures Occurrences(links, l) > 0 <==> l in links
  {
    if links != [] {
      OccurrencesPositive(links[1..], l);
      assert links == [links[0]] + links[1..];
    }
  }

  /** No list of `base` holds `c`. */
  ghost predicate FreeOf(base: CookieTable, c: int)
  {
    forall l :: c !in CookiesOf(base, l)
  }

  /** Every link of `links` has its `base` list followed by one `c` per occurrence of the link. */
  ghost predicate EndsInRuns(t: CookieTable, base: CookieTable, links: seq<LinkKey>, c: int)
  {
    forall l :: l in links ==> CookiesOf(t, l) == CookiesOf(base, l) + Repeat(c, Occurrences(links, l))
  }

  /** The table once the head link has given up one `c`. */
  ghost function AfterHead(t: CookieTable, base: CookieTable, links: seq<LinkKey>, c: int): CookieTable
    requires links != []
  {
    t[links[0] := CookiesOf(base, links[0]) + Repeat(c, Occurrences(links[1..], links[0]))]
  }

  /** The head link loses one `c` from its run, and the removal goes on with the rest of the links. */
  lemma HeadStep(t: CookieTable, base: CookieTable, links: seq<LinkKey>, c: int)
    requires links != [] && FreeOf(base, c) && EndsInRuns(t, base, links, c)
    ensures RemoveOnLinks(t, links, c) == RemoveOnLinks(AfterHead(t, base, links, c), links[1..], c)
    ensures EndsInRuns(AfterHead(t, base, links, c), base, links[1..], c)
  {
    var l0, rest := links[0], links[1..];
    var t1 := AfterHead(t, base, links, c);
    assert Occurrences(links, l0) == Occurrences(rest, l0) + 1;
    assert CookiesOf(t, l0) == CookiesOf(base, l0) + Repeat(c, Occurrences(links, l0));
    RemoveFirstFromRun(CookiesOf(base, l0), c, Occurrences(links, l0));
    forall l | l in rest
      ensures CookiesOf(t1, l) == CookiesOf(base, l) + Repeat(c, Occurrences(rest, l))
    {
      assert l in links;
    }
  }

  /** A link the rest of the removal does not touch keeps what the head step left it. */
  lemma HeadLinkSettles(t: CookieTable, base: CookieTable, links: seq<LinkKey>, c: int, l: LinkKey, r: CookieTable)
    requires links != [] && l !in links[1..]
    requires CookiesOf(r, l) == CookiesOf(AfterHead(t, base, links, c), l)
    ensures CookiesOf(r, l) == if l in links then CookiesOf(base, l) else CookiesOf(t, l)
  {
    if l == links[0] {
      OccurrencesPositive(links[1..], l);
      assert CookiesOf(base, l) + Repeat(c, 0) == CookiesOf(base, l);
    } else {
      assert l !in links;
    }
  }

  /**
   * Removing from lists that end in one `c` per occurrence of the link, over a
   * base without `c`, succeeds and leaves the bases.
   */
  lemma {:induction false} RemoveOnLinksFromRuns(t: CookieTable, base: CookieTable, links: seq<LinkKey>, c: int, l: LinkKey)
    requires FreeOf(base, c) && EndsInRuns(t, base, links, c)
    ensures RemoveOnLinks(t, links, c).Ok?
    ensures CookiesOf(RemoveOnLinks(t, links, c).value, l) == if l in links then CookiesOf(base, l) else CookiesOf(t, l)
    decreases |links|
  {
    if links != [] {
      var t1 := AfterHead(t, base, links, c);
      HeadStep(t, base, links, c);
      RemoveOnLinksFromRuns(t1, base, links[1..], c, l);
      if l !in links[1..] {
        HeadLinkSettles(t, base, links, c, l, RemoveOnLinks(t1, links[1..], c).value);
      }
    }
  }

  /**
   * Deleting a route undoes adding it: when no link of `links` holds `c`,
   * removing `c` from the links it was appended to succeeds and gives every
   * link its list back.
   */
  lemma DeleteUndoesAdd(t: CookieTable, links: seq<LinkKey>, c: int)
    requires forall l :: l in links ==> c !in CookiesOf(t, l)
    ensures RemoveOnLinks(AppendOnLinks(t, links, c), links, c).Ok?
    ensures SameCookies(RemoveOnLinks(AppendOnLinks(t, links, c), links, c).value, t)
  {
    var base := map l | l in t && l in links :: t[l];
    assert forall l :: c !in CookiesOf(base, l);
    var a := AppendOnLinks(t, links, c);
    forall l | l in links
      ensures CookiesOf(a, l) == CookiesOf(base, l) + Repeat(c, Occurrences(links, l))
    {
      AppendOnLinksShape(t, links, c, l);
    }
    RemoveOnLinksFromRuns(a, base, links, c, LinkKey(0, 0, 0, 0));
    forall l
      ensures CookiesOf(RemoveOnLinks(a, links, c).value, l) == CookiesOf(t, l)
    {
      RemoveOnLinksFromRuns(a, base, links, c, l);
      if l !in links {
        AppendOnLinksShape(t, links, c, l);
        OccurrencesPositive(links, l);
      }
    }
  }

  /** Python `list.remove` inside `try/except ValueError: pass`: the list unchanged when `c` is absent. */
  function DropFirst(cs: seq<int>, c: int): (r: seq<int>)
    ensures c in cs ==> multiset(r) == multiset(cs) - multiset{c}
    ensures c !in cs ==> r == cs
  {
    if c !in cs then cs
    else
      RemoveFirstCount(cs, c);
      RemoveFirst(cs, c).value
  }

  /** `updateRoute`'s loop over the old links: remove the old cookie, tolerating its absence. */
  function DropOnLinks(t: CookieTable, links: seq<LinkKey>, c: int): (r: CookieTable)
    ensures forall l :: l !in links ==> CookiesOf(r, l) == CookiesOf(t, l)
    decreases |links|
  {
    if links == [] then t
    else DropOnLinks(t[links[0] := DropFirst(CookiesOf(t, links[0]), c)], links[1..], c)
  }

  /** A cookie held at most once is gone from every traversed link after the drop. */
  lemma {:induction false} DropOnLinksClears(t: CookieTable, links: seq<LinkKey>, c: int)
    requires forall l :: multiset(CookiesOf(t, l))[c] <= 1
    ensures forall l :: multiset(CookiesOf(DropOnLinks(t, links, c), l))[c] <= 1
    ensures forall l :: l in links ==> c !in CookiesOf(DropOnLinks(t, links, c), l)
    decreases |links|
  {
    if links != [] {
      var l0 := links[0];
      var t1 := t[l0 := DropFirst(CookiesOf(t, l0), c)];
      assert c !in CookiesOf(t1, l0) by {
        if c in CookiesOf(t, l0) {
          assert multiset(CookiesOf(t1, l0))[c] == multiset(CookiesOf(t, l0))[c] - 1;
        }
      }
      forall l ensures multiset(CookiesOf(t1, l))[c] <= 1 {
        if l != l0 {
          assert CookiesOf(t1, l) == CookiesOf(t, l);
        } else if c in CookiesOf(t, l0) {
          assert multiset(CookiesOf(t1, l0))[c] == multiset(CookiesOf(t, l0))[c] - 1;
        } else {
          assert CookiesOf(t1, l0) == CookiesOf(t, l0);
        }
      }
      DropOnLinksClears(t1, links[1..], c);
      DropKeepsAbsent(t1, links[1..], c, l0);
    }
  }

  /** Dropping never puts a cookie back. */
  lemma {:induction false} DropKeepsAbsent(t: CookieTable, links: seq<LinkKey>, c: int, l: LinkKey)
    requires c !in CookiesOf(t, l)
    ensures c !in CookiesOf(DropOnLinks(t, links, c), l)
    decreases |links|
  {
    if links != [] {
      var t1 := t[links[0] := DropFirst(CookiesOf(t, links[0]), c)];
      if l == links[0] {
        assert multiset(CookiesOf(t1, l)) == multiset(CookiesOf(t, l));
      }
      DropKeepsAbsent(t1, links[1..], c, l);
    }
  }

  /** `updateRoute`'s loop over the new links: append the new cookie where it is missing. */
  function AddOnLinks(t: CookieTable, links: seq<LinkKey>, c: int): (r: CookieTable)
    ensures forall l :: l in links ==> c in CookiesOf(r, l)
    ensures forall l :: l !in links ==> CookiesOf(r, l) == CookiesOf(t, l)
    ensures forall l :: c in CookiesOf(t, l) ==> CookiesOf(r, l) == CookiesOf(t, l)
    ensures forall l :: c !in CookiesOf(t, l) ==> CookiesOf(r, l) == CookiesOf(t, l) || CookiesOf(r, l) == CookiesOf(t, l) + [c]
    decreases |links|
  {
    if links == [] then t
    else
      var cs := CookiesOf(t, links[0]);
      var t1 := if c in cs then t else t[links[0] := cs + [c]];
      assert c in CookiesOf(t1, links[0]);
      AddOnLinks(t1, links[1..], c)
  }
}
