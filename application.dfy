/**
 * The application framework of the protocol stack
 * (`protocols/application/application.py`): every application and filter
 * keeps an ordered list of filters; an application runs a received packet
 * through the filters' `packetIn` in list order before answering it, and a
 * sent packet through their `packetOut` before handing it to the send
 * callback. A packet processor passes a packet through unchanged unless it
 * matches.
 *
 * Packets are a type parameter `P`; what a filter or an agent does to a
 * packet is a function parameter, since subclasses override it.
 */
module Application {
  import opened Wrappers

  /** A filter, identified by `id`, with its `inActive`/`outActive` switches. */
  datatype Filter = Filter(id: int, inActive: bool, outActive: bool)

  predicate NoDup(s: seq<Filter>)
  {
    forall i, j :: 0 <= i < j < |s| ==> s[i] != s[j]
  }

  /** `list.remove(f)`: the first occurrence of `f` goes; without one, the list is kept. */
  function RemoveFirst(s: seq<Filter>, f: Filter): (r: seq<Filter>)
    ensures forall g :: g in r ==> g in s
    ensures f !in s ==> r == s
    ensures f in s ==> |r| == |s| - 1
  {
    if s == [] then []
    else if s[0] == f then s[1..]
    else [s[0]] + RemoveFirst(s[1..], f)
  }

  /** Removal takes one copy of `f` out, if there is one, and keeps every other filter. */
  lemma {:induction false} RemoveFirstCount(s: seq<Filter>, f: Filter)
    ensures multiset(RemoveFirst(s, f)) == multiset(s) - multiset{f}
  {
    if s != [] {
      assert s == [s[0]] + s[1..];
      if s[0] != f {
        RemoveFirstCount(s[1..], f);
      }
    }
  }

  /** Removing a filter from a list without duplicates leaves no copy of it and no duplicates. */
  lemma {:induction false} RemoveFirstNoDup(s: seq<Filter>, f: Filter)
    requires NoDup(s)
    ensures NoDup(RemoveFirst(s, f))
    ensures f !in RemoveFirst(s, f)
  {
    if s != [] {
      assert NoDup(s[1..]) && s[0] !in s[1..];
      if s[0] != f {
        RemoveFirstNoDup(s[1..], f);
        var rest := RemoveFirst(s[1..], f);
        assert s[0] !in rest;
        var r := [s[0]] + rest;
        forall i, j | 0 <= i < j < |r|
          ensures r[i] != r[j]
        {
          if i > 0 {
            assert r[i] == rest[i - 1] && r[j] == rest[j - 1];
          } else {
            assert r[j] == rest[j - 1];
          }
        }
      }
    }
  }

  /** `delFilters`: `delFilter` for each of `fs` in turn. */
  function RemoveAll(s: seq<Filter>, fs: seq<Filter>): (r: seq<Filter>)
  {
    if fs == [] then s else RemoveFirst(RemoveAll(s, fs[..|fs| - 1]), fs[|fs| - 1])
  }

  /** Each filter is removed as often as it is named, as far as the list holds it. */
  lemma {:induction false} RemoveAllMultiset(s: seq<Filter>, fs: seq<Filter>)
    ensures multiset(RemoveAll(s, fs)) == multiset(s) - multiset(fs)
  {
    if fs != [] {
      var init, x := fs[..|fs| - 1], fs[|fs| - 1];
      RemoveAllMultiset(s, init);
      RemoveFirstCount(RemoveAll(s, init), x);
      assert fs == init + [x];
      MinusOneMore(multiset(s), multiset(init), x);
    }
  }

  /** Taking away `a` and then one `x` takes away `a` with one more `x`. */
  lemma MinusOneMore(m: multiset<Filter>, a: multiset<Filter>, x: Filter)
    ensures (m - a) - multiset{x} == m - (a + multiset{x})
  {
  }

  /** `ProtApp`: the filter list of an application or a filter. */
  class ProtApp {
    var filters: seq<Filter>

    constructor()
      ensures filters == []
    {
      filters := [];
    }

    /** `addFilter`: no filter (`None`) and a filter already listed are ignored; otherwise it is appended. */
    method AddFilter(f: Option<Filter>)
      modifies this
      ensures f.Some? && f.value !in old(filters) ==> filters == old(filters) + [f.value]
      ensures f.None? || f.value in old(filters) ==> filters == old(filters)
      ensures NoDup(old(filters)) ==> NoDup(filters)
    {
      if f.None? {
        return;
      }
      if f.value !in filters {
        filters := filters + [f.value];
      }
    }

    /** `addFilters`: the filters are appended as given, duplicates included; none given changes nothing. */
    method AddFilters(fs: Option<seq<Filter>>)
      modifies this
      ensures filters == old(filters) + (if fs.Some? then fs.value else [])
      ensures multiset(filters) == multiset(old(filters)) + multiset(if fs.Some? then fs.value else [])
    {
      if fs.None? || fs.value == [] {
        return;
      }
      filters := filters + fs.value;
    }

    /** `delFilter`: the first occurrence goes; an absent filter or `None` changes nothing. */
    method DelFilter(f: Option<Filter>)
      modifies this
      ensures filters == if f.Some? then RemoveFirst(old(filters), f.value) else old(filters)
      ensures f.Some? && NoDup(old(filters)) ==> f.value !in filters && NoDup(filters)
    {
      if f.None? {
        return;
      }
      if NoDup(filters) {
        RemoveFirstNoDup(filters, f.value);
      }
      if f.value in filters {
        filters := RemoveFirst(filters, f.value);
      }
    }

    /** `delFilters`: `delFilter` for each of `fs`, in order. */
    method DelFilters(fs: seq<Filter>)
      modifies this
      ensures filters == RemoveAll(old(filters), fs)
      ensures multiset(filters) == multiset(old(filters)) - multiset(fs)
    {
      for i := 0 to |fs|
        invariant filters == RemoveAll(old(filters), fs[..i])
      {
        assert fs[..i + 1][..i] == fs[..i];
        DelFilter(Some(fs[i]));
      }
      assert fs[..|fs|] == fs;
      RemoveAllMultiset(old(filters), fs);
    }
  }

  /**
   * `Filter.packetIn`: the filter processes the packet, and the processed
   * packet replaces the original only when the filter is in-active.
   */
  function PacketIn<P>(f: Filter, p: Option<P>, processIn: (Filter, Option<P>) -> Option<P>): (r: Option<P>)
    ensures r == p || r == processIn(f, p)
  {
    if f.inActive then processIn(f, p) else p
  }

  /** `Filter.packetOut`, the same for outgoing packets and `outActive`. */
  function PacketOut<P>(f: Filter, p: Option<P>, processOut: (Filter, Option<P>) -> Option<P>): (r: Option<P>)
    ensures r == p || r == processOut(f, p)
  {
    if f.outActive then processOut(f, p) else p
  }

  /** The packet after the `packetIn` of each of `fs`, first filter first. */
  function FoldIn<P>(fs: seq<Filter>, p: Option<P>, processIn: (Filter, Option<P>) -> Option<P>): Option<P>
  {
    if fs == [] then p else PacketIn(fs[|fs| - 1], FoldIn(fs[..|fs| - 1], p, processIn), processIn)
  }

  /** The packet after the `packetOut` of each of `fs`, first filter first. */
  function FoldOut<P>(fs: seq<Filter>, p: Option<P>, processOut: (Filter, Option<P>) -> Option<P>): Option<P>
  {
    if fs == [] then p else PacketOut(fs[|fs| - 1], FoldOut(fs[..|fs| - 1], p, processOut), processOut)
  }

  /** Filters apply in list order: the filters of `b` see what those of `a` produced. */
  lemma {:induction false} FoldInAppend<P>(a: seq<Filter>, b: seq<Filter>, p: Option<P>, processIn: (Filter, Option<P>) -> Option<P>)
    ensures FoldIn(a + b, p, processIn) == FoldIn(b, FoldIn(a, p, processIn), processIn)
  {
    if b != [] {
      assert (a + b)[..|a + b| - 1] == a + b[..|b| - 1];
      FoldInAppend(a, b[..|b| - 1], p, processIn);
    } else {
      assert a + b == a;
    }
  }

  /** Filters that are not in-active leave an incoming packet as it is. */
  lemma {:induction false} FoldInInactive<P>(fs: seq<Filter>, p: Option<P>, processIn: (Filter, Option<P>) -> Option<P>)
    requires forall i :: 0 <= i < |fs| ==> !fs[i].inActive
    ensures FoldIn(fs, p, processIn) == p
  {
    if fs != [] {
      FoldInInactive(fs[..|fs| - 1], p, processIn);
    }
  }

  /** Filters that are not out-active leave an outgoing packet as it is. */
  lemma {:induction false} FoldOutInactive<P>(fs: seq<Filter>, p: Option<P>, processOut: (Filter, Option<P>) -> Option<P>)
    requires forall i :: 0 <= i < |fs| ==> !fs[i].outActive
    ensures FoldOut(fs, p, processOut) == p
  {
    if fs != [] {
      FoldOutInactive(fs[..|fs| - 1], p, processOut);
    }
  }

  /** The filter loop: each filter's `packetIn` in turn. */
  method ApplyIn<P>(fs: seq<Filter>, p: Option<P>, processIn: (Filter, Option<P>) -> Option<P>) returns (r: Option<P>)
    ensures r == FoldIn(fs, p, processIn)
  {
    r := p;
    for i := 0 to |fs|
      invariant r == FoldIn(fs[..i], p, processIn)
    {
      assert fs[..i + 1][..i] == fs[..i];
      r := PacketIn(fs[i], r, processIn);
    }
    assert fs[..|fs|] == fs;
  }

  /** The filter loop of `sendPkt`: each filter's `packetOut` in turn. */
  method ApplyOut<P>(fs: seq<Filter>, p: Option<P>, processOut: (Filter, Option<P>) -> Option<P>) returns (r: Option<P>)
    ensures r == FoldOut(fs, p, processOut)
  {
    r := p;
    for i := 0 to |fs|
      invariant r == FoldOut(fs[..i], p, processOut)
    {
      assert fs[..i + 1][..i] == fs[..i];
      r := PacketOut(fs[i], r, processOut);
    }
    assert fs[..|fs|] == fs;
  }

  /**
   * `processPacket` as a function: nothing when the agent cannot extract
   * its protocol or the application does not match; otherwise the reply to
   * the packet after the filters.
   */
  function Reply<P>(packet: P, filters: seq<Filter>, extract: P -> Option<P>, matches: P -> bool,
                    processIn: (Filter, Option<P>) -> Option<P>, getReply: Option<P> -> Option<P>): Option<P>
  {
    if extract(packet).None? || !matches(packet) then None
    else getReply(FoldIn(filters, Some(packet), processIn))
  }

  /** With no in-active filter, a matching packet is answered as it arrived. */
  lemma ReplyWithoutFilters<P>(packet: P, filters: seq<Filter>, extract: P -> Option<P>, matches: P -> bool,
                               processIn: (Filter, Option<P>) -> Option<P>, getReply: Option<P> -> Option<P>)
    requires forall i :: 0 <= i < |filters| ==> !filters[i].inActive
    ensures Reply(packet, filters, extract, matches, processIn, getReply) ==
      if extract(packet).None? || !matches(packet) then None else getReply(Some(packet))
  {
    FoldInInactive(filters, Some(packet), processIn);
  }

  /** `Application`: its filters (through `ProtApp`) and the callbacks set by the processor. */
  class App<P(==)> {
    const prot: ProtApp
    var hasSendCb: bool
    var hasFinishedCb: bool
    /** The packets handed to the send callback, in order. */
    ghost var sent: seq<P>
    /** The packets and payloads passed to `payloadReceived`, in order. */
    ghost var received: seq<(Option<P>, string)>
    /** The number of calls of the finished callback. */
    ghost var finishedCalls: nat

    constructor(prot: ProtApp)
      ensures this.prot == prot && !hasSendCb && !hasFinishedCb
      ensures sent == [] && received == [] && finishedCalls == 0
    {
      this.prot := prot;
      hasSendCb := false;
      hasFinishedCb := false;
      sent := [];
      received := [];
      finishedCalls := 0;
    }

    /**
     * `processPacket`: the reply, or `None` when the agent cannot extract
     * its protocol or `matches` fails. The payload the agent extracts from
     * the unfiltered packet goes to `payloadReceived` with the filtered
     * packet when it is not empty (`extractPayload` gives "" when the agent
     * has none).
     */
    method ProcessPacket(packet: P, extract: P -> Option<P>, matches: P -> bool,
                         processIn: (Filter, Option<P>) -> Option<P>, extractPayload: P -> string,
                         getReply: Option<P> -> Option<P>) returns (r: Option<P>)
      modifies this`received
      ensures r == Reply(packet, prot.filters, extract, matches, processIn, getReply)
      ensures extract(packet).None? || !matches(packet) ==> received == old(received)
      ensures extract(packet).Some? && matches(packet) ==>
        received == old(received) +
          (if extractPayload(extract(packet).value) != "" then
            [(FoldIn(prot.filters, Some(packet), processIn), extractPayload(extract(packet).value))]
          else [])
    {
      var pkt := extract(packet);
      if pkt.None? {
        return None;
      }
      if !matches(packet) {
        return None;
      }
      var filtered := ApplyIn(prot.filters, Some(packet), processIn);
      var p := extractPayload(pkt.value);
      if p != "" {
        received := received + [(filtered, p)];
      }
      r := getReply(filtered);
    }

    /**
     * `sendPkt`: without a send callback nothing happens; otherwise the
     * packet goes through the filters' `packetOut` and, unless a filter
     * dropped it (the exception of `None.pack()` is swallowed), is sent.
     * `withArgs` says whether the caller passes arguments after the packet,
     * as the TCP server does with the switch and port: `sendPkt` hands them
     * on to `packetOut`, which takes only the packet, so with a filter
     * installed the TypeError is swallowed and nothing is sent.
     */
    method SendPkt(pkt: P, withArgs: bool, processOut: (Filter, Option<P>) -> Option<P>)
      modifies this`sent
      ensures !hasSendCb ==> sent == old(sent)
      ensures hasSendCb && withArgs && prot.filters != [] ==> sent == old(sent)
      ensures hasSendCb && !(withArgs && prot.filters != []) ==>
        var out := FoldOut(prot.filters, Some(pkt), processOut);
        sent == old(sent) + (if out.Some? then [out.value] else [])
    {
      if !hasSendCb {
        return;
      }
      if withArgs && prot.filters != [] {
        return;
      }
      var out := ApplyOut(prot.filters, Some(pkt), processOut);
      if out.Some? {
        sent := sent + [out.value];
      }
    }

    /** `finished`: the finished callback is called exactly when one is set. */
    method Finished()
      modifies this`finishedCalls
      ensures finishedCalls == old(finishedCalls) + (if hasFinishedCb then 1 else 0)
    {
      if hasFinishedCb {
        finishedCalls := finishedCalls + 1;
      }
    }
  }

  /**
   * `PacketProcessor.doProcessInPacket`/`doProcessOutPacket`: a packet that
   * does not match passes unchanged; a matching one is processed.
   */
  function DoProcess<P>(matches: P -> bool, process: P -> Option<P>, pkt: P): (r: Option<P>)
    ensures !matches(pkt) ==> r == Some(pkt)
    ensures matches(pkt) ==> r == process(pkt)
  {
    if !matches(pkt) then Some(pkt) else process(pkt)
  }

  /** The base `PacketProcessor` matches everything and processes nothing: it is the identity. */
  lemma BaseProcessorIsIdentity<P>(pkt: P)
    ensures DoProcess((q: P) => true, (q: P) => Some(q), pkt) == Some(pkt)
  {
  }
}
