/**
 * The user-space TCP of `protocols/tcp.py`: header building, the reset sent
 * to an unwanted SYN, the reassembly of received segments and the
 * acknowledgement accounting of one half of a connection (sections 3.3 and
 * 3.4 of RFC 793). Sequence numbers are plain integers, as in the source.
 */
module Tcp {
  import opened Wrappers

  const FinFlag: bv8 := 0x01
  const SynFlag: bv8 := 0x02
  const RstFlag: bv8 := 0x04
  const PshFlag: bv8 := 0x08
  const AckFlag: bv8 := 0x10

  /** The window advertised when the caller gives none. */
  const DefaultWindow := 14600

  /** The fields of a TCP header the controller reads or writes, with the payload. */
  datatype Header = Header(srcPort: int, dstPort: int, seqNo: int, ack: int, flags: bv8, win: int, data: string)

  /** `isTcpType`: every bit of `t` is set in `flags`. */
  predicate HasFlag(flags: bv8, t: bv8)
  {
    flags & t == t
  }

  function FlagIf(b: bool, f: bv8): bv8
  {
    if b then f else 0
  }

  /**
   * `buildTcpPkt`: missing sequence and acknowledgement numbers become 0, a
   * missing window 14600 and missing data the empty string; ACK is set unless
   * `isAck` is explicitly false.
   */
  function BuildTcpPkt(srcPort: int, dstPort: int, seqNo: Option<int>, ack: Option<int>, window: Option<int>,
                       data: Option<string>, isFin: bool, isRst: bool, isSyn: bool, isPush: bool,
                       isAck: Option<bool>): (h: Header)
    ensures h.srcPort == srcPort && h.dstPort == dstPort
    ensures h.seqNo == seqNo.UnwrapOr(0) && h.ack == ack.UnwrapOr(0)
    ensures h.win == window.UnwrapOr(DefaultWindow) && h.data == data.UnwrapOr("")
    ensures HasFlag(h.flags, FinFlag) <==> isFin
    ensures HasFlag(h.flags, RstFlag) <==> isRst
    ensures HasFlag(h.flags, SynFlag) <==> isSyn
    ensures HasFlag(h.flags, PshFlag) <==> isPush
    ensures HasFlag(h.flags, AckFlag) <==> isAck != Some(false)
    ensures h.flags & 0xE0 == 0
  {
    var flags := FlagIf(isFin, FinFlag) | FlagIf(isRst, RstFlag) | FlagIf(isSyn, SynFlag)
               | FlagIf(isPush, PshFlag) | FlagIf(isAck != Some(false), AckFlag);
    Header(srcPort, dstPort, seqNo.UnwrapOr(0), ack.UnwrapOr(0), flags, window.UnwrapOr(DefaultWindow), data.UnwrapOr(""))
  }

  /**
   * `buildDefaultResponse`: only a SYN is answered, with a reset that
   * acknowledges it (section 3.4 of RFC 793), from the port it was sent to.
   */
  function BuildDefaultResponse(p: Option<Header>): (r: Option<Header>)
    ensures r.Some? <==> p.Some? && HasFlag(p.value.flags, SynFlag)
  {
    if p.None? || !HasFlag(p.value.flags, SynFlag) then None
    else Some(Header(p.value.dstPort, p.value.srcPort, 0, p.value.seqNo + 1, RstFlag | AckFlag, 0, ""))
  }

  /**
   * The reset goes back to the SYN's sender, acknowledges the SYN's one
   * sequence number, carries no data and opens no window, and is not itself a
   * SYN, so it is never answered in turn.
   */
  lemma DefaultResponseIsReset(h: Header)
    requires HasFlag(h.flags, SynFlag)
    ensures var r := BuildDefaultResponse(Some(h)).value;
      r.srcPort == h.dstPort && r.dstPort == h.srcPort && r.ack == h.seqNo + 1 && r.seqNo == 0 && r.win == 0 &&
      r.data == "" && HasFlag(r.flags, RstFlag) && HasFlag(r.flags, AckFlag) && !HasFlag(r.flags, SynFlag) &&
      BuildDefaultResponse(Some(r)).None?
  {
  }

  // ---------------------------------------------------------------- segments

  /** `TcpSegment`: a contiguous chunk of the received byte stream. */
  datatype Segment = Segment(seqNo: int, data: string)
  {
    /** The sequence number of the byte after this segment. */
    function Next(): int
    {
      seqNo + |data|
    }
  }

  /** The segment holds the byte numbered `k`. */
  predicate Holds(s: Segment, k: int)
  {
    s.seqNo <= k < s.Next()
  }

  /** The byte numbered `k`, for a segment that holds it. */
  function ByteAt(s: Segment, k: int): char
    requires Holds(s, k)
  {
    s.data[k - s.seqNo]
  }

  /** `TcpSegment(seqNo, data)`: an exception for empty data. */
  function MakeSegment(seqNo: int, data: string): (r: Result<Segment>)
    ensures r.Ok? <==> |data| > 0
    ensures r.Ok? ==> r.value.seqNo == seqNo && r.value.data == data && r.value.Next() == seqNo + |data|
  {
    if |data| == 0 then Err("Exception") else Ok(Segment(seqNo, data))
  }

  /**
   * `combine`: `b` must not start before `a` (an assertion). The flag says
   * whether they overlap or meet; the segment is `a`, extended by the part
   * of `b` beyond it.
   */
  function Combine(a: Segment, b: Segment): (r: Result<(bool, Segment)>)
    ensures r.Err? <==> b.seqNo < a.seqNo
    ensures r.Ok? ==> (r.value.0 <==> b.seqNo <= a.Next())
    ensures r.Ok? && !r.value.0 ==> r.value.1 == a
    ensures r.Ok? && r.value.0 ==> r.value.1.seqNo == a.seqNo && a.data <= r.value.1.data
    ensures r.Ok? && r.value.0 ==> r.value.1.Next() == (if a.Next() >= b.Next() then a.Next() else b.Next())
  {
    if b.seqNo < a.seqNo then Err("AssertionError")
    else if a.Next() < b.seqNo then Ok((false, a))
    else if a.Next() >= b.Next() then Ok((true, a))
    else Ok((true, Segment(a.seqNo, a.data + b.data[a.Next() - b.seqNo..])))
  }

  /**
   * A combined segment holds exactly the bytes of both, every byte of `a`
   * unchanged and every byte of `b` beyond `a` taken from `b`.
   */
  lemma CombineCovers(a: Segment, b: Segment)
    requires Combine(a, b).Ok? && Combine(a, b).value.0
    ensures var m := Combine(a, b).value.1;
      (forall k :: Holds(m, k) <==> Holds(a, k) || Holds(b, k)) &&
      (forall k :: Holds(a, k) ==> Holds(m, k) && ByteAt(m, k) == ByteAt(a, k)) &&
      (forall k :: Holds(b, k) && !Holds(a, k) ==> Holds(m, k) && ByteAt(m, k) == ByteAt(b, k))
  {
    var m := Combine(a, b).value.1;
    if a.Next() < b.Next() {
      forall k | Holds(b, k) && !Holds(a, k)
        ensures ByteAt(m, k) == ByteAt(b, k)
      {
        assert m.data[k - m.seqNo] == b.data[a.Next() - b.seqNo..][k - a.Next()];
      }
    }
  }

  /** Some held segment holds byte `k`. */
  predicate Covered(segs: seq<Segment>, k: int)
  {
    exists j :: 0 <= j < |segs| && Holds(segs[j], k)
  }

  /**
   * The invariant of the received segments: none is empty, they are in
   * order, and between any two neighbours there is a gap.
   */
  predicate Gapped(segs: seq<Segment>)
  {
    (forall j :: 0 <= j < |segs| ==> |segs[j].data| > 0) &&
    (forall j :: 0 <= j < |segs| - 1 ==> segs[j].Next() < segs[j + 1].seqNo)
  }

  /** In gapped segments every segment ends before any later one starts. */
  lemma {:induction false} GappedSorted(segs: seq<Segment>, j: int, l: int)
    requires Gapped(segs) && 0 <= j < l < |segs|
    ensures segs[j].Next() < segs[l].seqNo
    decreases l - j
  {
    if l > j + 1 {
      GappedSorted(segs, j, l - 1);
    }
  }

  /** One segment covers exactly its own bytes. */
  lemma CoveredSingle(x: Segment)
    ensures forall k :: Covered([x], k) <==> Holds(x, k)
  {
    forall k | Holds(x, k)
      ensures Covered([x], k)
    {
      assert [x][0] == x;
    }
  }

  /** Coverage distributes over concatenation. */
  lemma CoveredAppend(a: seq<Segment>, b: seq<Segment>)
    ensures forall k :: Covered(a + b, k) <==> Covered(a, k) || Covered(b, k)
  {
    forall k
      ensures Covered(a + b, k) <==> Covered(a, k) || Covered(b, k)
    {
      if Covered(a + b, k) {
        var j :| 0 <= j < |a + b| && Holds((a + b)[j], k);
        if j < |a| {
          assert Holds(a[j], k);
        } else {
          assert Holds(b[j - |a|], k);
        }
      }
      if Covered(a, k) {
        var j :| 0 <= j < |a| && Holds(a[j], k);
        assert (a + b)[j] == a[j];
      }
      if Covered(b, k) {
        var j :| 0 <= j < |b| && Holds(b[j], k);
        assert (a + b)[|a| + j] == b[j];
      }
    }
  }

  /**
   * The first loop of `__add_segment`, from index `i`: the first held
   * segment the new one combines with, with the combined segment; an
   * assertion error when a held segment starts after the new one.
   */
  function FindCombine(segs: seq<Segment>, s: Segment, i: nat): (r: Result<Option<(nat, Segment)>>)
    requires i <= |segs|
    ensures r.Err? ==> r.error == "AssertionError"
    ensures r.Ok? && r.value.None? ==> forall j :: i <= j < |segs| ==> segs[j].Next() < s.seqNo
    ensures r.Ok? && r.value.Some? ==>
      i <= r.value.value.0 < |segs| && Combine(segs[r.value.value.0], s) == Ok((true, r.value.value.1))
    decreases |segs| - i
  {
    if i == |segs| then Ok(None)
    else
      var c := Combine(segs[i], s);
      if c.Err? then Err(c.error)
      else if c.value.0 then Ok(Some((i, c.value.1)))
      else FindCombine(segs, s, i + 1)
  }

  /** The second loop of `__add_segment`: the combined segment swallows the segments it meets. */
  function Absorb(m: Segment, rest: seq<Segment>): (r: seq<Segment>)
    ensures |r| >= 1
    decreases |rest|
  {
    if rest == [] then [m]
    else
      var c := Combine(m, rest[0]);
      if c.Ok? && c.value.0 then Absorb(c.value.1, rest[1..]) else [m] + rest
  }

  /** Absorbing keeps the segments gapped, starts where `m` starts and keeps `m`'s bytes. */
  lemma {:induction false} AbsorbShape(m: Segment, rest: seq<Segment>)
    requires Gapped(rest) && |m.data| > 0
    requires rest != [] ==> m.seqNo <= rest[0].seqNo
    ensures var r := Absorb(m, rest); Gapped(r) && r[0].seqNo == m.seqNo && m.data <= r[0].data
    decreases |rest|
  {
    if rest != [] {
      var c := Combine(m, rest[0]);
      if c.Ok? && c.value.0 {
        var m' := c.value.1;
        if |rest| > 1 {
          assert rest[0].seqNo < rest[1].seqNo;
        }
        AbsorbShape(m', rest[1..]);
      }
    }
  }

  /** Absorbing keeps exactly the bytes of `m` and of `rest`. */
  lemma {:induction false} AbsorbCovers(m: Segment, rest: seq<Segment>)
    ensures forall k :: Covered(Absorb(m, rest), k) <==> Holds(m, k) || Covered(rest, k)
    decreases |rest|
  {
    CoveredSingle(m);
    if rest != [] {
      var c := Combine(m, rest[0]);
      CoveredSingle(rest[0]);
      CoveredAppend([rest[0]], rest[1..]);
      assert [rest[0]] + rest[1..] == rest;
      if c.Ok? && c.value.0 {
        AbsorbCovers(c.value.1, rest[1..]);
        CombineCovers(m, rest[0]);
      } else {
        CoveredAppend([m], rest);
      }
    }
  }

  /**
   * `__add_segment` as the evidently intended merge: the new segment is
   * combined into the first held segment it meets, which then absorbs the
   * following ones; if it meets none it is appended.
   */
  function Insert(segs: seq<Segment>, s: Segment): (r: Result<seq<Segment>>)
    requires Gapped(segs)
  {
    match FindCombine(segs, s, 0)
    case Err(e) => Err(e)
    case Ok(None) => Ok(segs + [s])
    case Ok(Some((i, m))) => Ok(segs[..i] + Absorb(m, segs[i + 1..]))
  }

  /**
   * `__add_segment` as written: a merge into index 0 is taken for no merge
   * (`not 0` holds), so the segment is appended as well.
   */
  function InsertAsWritten(segs: seq<Segment>, s: Segment): (r: Result<seq<Segment>>)
    requires Gapped(segs)
  {
    match FindCombine(segs, s, 0)
    case Err(e) => Err(e)
    case Ok(None) => Ok(segs + [s])
    case Ok(Some((i, m))) =>
      if i == 0 then Ok([m] + segs[1..] + [s]) else Ok(segs[..i] + Absorb(m, segs[i + 1..]))
  }

  /** A run of gapped segments stays gapped. */
  lemma GappedSlice(segs: seq<Segment>, lo: int, hi: int)
    requires Gapped(segs) && 0 <= lo <= hi <= |segs|
    ensures Gapped(segs[lo..hi])
  {
    assert forall j :: 0 <= j < hi - lo ==> segs[lo..hi][j] == segs[lo + j];
  }

  /** Two gapped runs with a gap between them make one gapped run. */
  lemma GappedJoin(a: seq<Segment>, b: seq<Segment>)
    requires Gapped(a) && Gapped(b)
    requires a != [] && b != [] ==> a[|a| - 1].Next() < b[0].seqNo
    ensures Gapped(a + b)
  {
    var r := a + b;
    forall j | 0 <= j < |r|
      ensures |r[j].data| > 0
    {
      if j < |a| {
        assert r[j] == a[j];
      } else {
        assert r[j] == b[j - |a|];
      }
    }
    forall j | 0 <= j < |r| - 1
      ensures r[j].Next() < r[j + 1].seqNo
    {
      if j + 1 < |a| {
        assert r[j] == a[j] && r[j + 1] == a[j + 1];
      } else if j + 1 == |a| {
        assert r[j] == a[|a| - 1] && r[j + 1] == b[0];
      } else {
        assert r[j] == b[j - |a|] && r[j + 1] == b[j + 1 - |a|];
      }
    }
  }

  /** After a merge the held segments are still gapped. */
  lemma InsertGapped(segs: seq<Segment>, s: Segment)
    requires Gapped(segs) && |s.data| > 0 && Insert(segs, s).Ok?
    ensures Gapped(Insert(segs, s).value)
  {
    match FindCombine(segs, s, 0)
    case Ok(None) =>
      GappedJoin(segs, [s]);
    case Ok(Some((i, m))) =>
      if i + 1 < |segs| {
        assert segs[i].seqNo < segs[i + 1].seqNo;
      }
      GappedSlice(segs, i + 1, |segs|);
      GappedSlice(segs, 0, i);
      AbsorbShape(m, segs[i + 1..]);
      if i > 0 {
        assert segs[..i][i - 1].Next() < segs[i].seqNo;
      }
      GappedJoin(segs[..i], Absorb(m, segs[i + 1..]));
  }

  /** A merge holds exactly the bytes held before and the new segment's bytes. */
  lemma InsertCovers(segs: seq<Segment>, s: Segment)
    requires Gapped(segs) && Insert(segs, s).Ok?
    ensures forall k :: Covered(Insert(segs, s).value, k) <==> Covered(segs, k) || Holds(s, k)
  {
    match FindCombine(segs, s, 0)
    case Ok(None) =>
      CoveredAppend(segs, [s]);
      CoveredSingle(s);
    case Ok(Some((i, m))) =>
      CombineCovers(segs[i], s);
      AbsorbCovers(m, segs[i + 1..]);
      CoveredAppend(segs[..i], Absorb(m, segs[i + 1..]));
      CoveredAppend(segs[..i], [segs[i]] + segs[i + 1..]);
      CoveredAppend([segs[i]], segs[i + 1..]);
      CoveredSingle(segs[i]);
      assert segs[..i] + ([segs[i]] + segs[i + 1..]) == segs;
  }

  /** Data received without a gap is never lost or rewritten by a merge. */
  lemma InsertKeepsPrefix(segs: seq<Segment>, s: Segment)
    requires Gapped(segs) && |segs| > 0 && Insert(segs, s).Ok?
    ensures var r := Insert(segs, s).value; r[0].seqNo == segs[0].seqNo && segs[0].data <= r[0].data
  {
    match FindCombine(segs, s, 0)
    case Ok(None) =>
    case Ok(Some((i, m))) =>
      if i == 0 {
        if |segs| > 1 {
          assert segs[0].seqNo < segs[1].seqNo;
        }
        assert Gapped(segs[1..]);
        AbsorbShape(m, segs[1..]);
      }
  }

  /** The search for a merge fails from index `i` exactly when the new segment starts before a held one it does not reach. */
  lemma {:induction false} FindCombineFails(segs: seq<Segment>, s: Segment, i: nat)
    requires Gapped(segs) && i <= |segs|
    requires i > 0 ==> segs[i - 1].Next() < s.seqNo
    ensures FindCombine(segs, s, i).Err? <==>
      exists j :: i <= j < |segs| && s.seqNo < segs[j].seqNo && (j == 0 || segs[j - 1].Next() < s.seqNo)
    decreases |segs| - i
  {
    if i < |segs| {
      var c := Combine(segs[i], s);
      if c.Ok? && c.value.0 {
        forall j | i < j < |segs| && s.seqNo < segs[j].seqNo
          ensures segs[j - 1].Next() >= s.seqNo
        {
          if j - 1 > i {
            GappedSorted(segs, i, j - 1);
          }
        }
      } else if c.Ok? {
        FindCombineFails(segs, s, i + 1);
      }
    }
  }

  /**
   * A merge raises the assertion error exactly when the new segment starts
   * before the first held segment, or inside a gap: out-of-order data that
   * would fill a hole is refused.
   */
  lemma InsertFailsIff(segs: seq<Segment>, s: Segment)
    requires Gapped(segs)
    ensures Insert(segs, s).Err? <==>
      exists j :: 0 <= j < |segs| && s.seqNo < segs[j].seqNo && (j == 0 || segs[j - 1].Next() < s.seqNo)
  {
    FindCombineFails(segs, s, 0);
  }

  /**
   * Gapped segments hold every byte from the first one's start to the last
   * one's end exactly when there is a single segment (`has_ready_data`).
   */
  lemma ReadyIffNoHole(segs: seq<Segment>)
    requires Gapped(segs) && |segs| > 0
    ensures |segs| == 1 <==>
      forall k :: segs[0].seqNo <= k < segs[|segs| - 1].Next() ==> Covered(segs, k)
  {
    if |segs| == 1 {
      CoveredSingle(segs[0]);
    } else {
      var hole := segs[0].Next();
      assert segs[0].seqNo <= hole < segs[|segs| - 1].Next() by {
        GappedSorted(segs, 0, |segs| - 1);
      }
      if Covered(segs, hole) {
        var j :| 0 <= j < |segs| && Holds(segs[j], hole);
        if j > 1 {
          GappedSorted(segs, 0, j - 1);
        }
        assert false;
      }
    }
  }

  /**
   * Where the new segment merges into the first held one, the code as
   * written appends it again: the segments are no longer gapped and there
   * are at least two of them, so the data never counts as ready.
   */
  lemma AsWrittenDuplicatesFirstMerge(segs: seq<Segment>, s: Segment)
    requires Gapped(segs) && |segs| > 0 && segs[0].seqNo <= s.seqNo <= segs[0].Next()
    ensures InsertAsWritten(segs, s).Ok?
    ensures |InsertAsWritten(segs, s).value| >= 2 && !Gapped(InsertAsWritten(segs, s).value)
  {
    var m := Combine(segs[0], s).value.1;
    var r := [m] + segs[1..] + [s];
    assert InsertAsWritten(segs, s) == Ok(r);
    if |segs| == 1 {
      assert r[0] == m && r[1] == s;
    } else {
      GappedSorted(segs, 0, |segs| - 1);
      assert r[|r| - 2] == segs[|segs| - 1] && r[|r| - 1] == s;
      assert !(r[|r| - 2].Next() < r[|r| - 1].seqNo);
    }
  }

  /** "cd" at 2 meets "ab" at 0 in the first held segment, which grows to "abcd". */
  lemma CounterexampleMerge()
    ensures FindCombine([Segment(0, "ab")], Segment(2, "cd"), 0) == Ok(Some((0, Segment(0, "abcd"))))
  {
    assert "cd"[0..] == "cd" && "ab" + "cd" == "abcd";
    assert Combine(Segment(0, "ab"), Segment(2, "cd")) == Ok((true, Segment(0, "abcd")));
  }

  /** As written, a merge into the only held segment keeps the new segment as well. */
  lemma AsWrittenSingleMerge(segs: seq<Segment>, s: Segment, m: Segment)
    requires |segs| == 1 && Gapped(segs) && FindCombine(segs, s, 0) == Ok(Some((0, m)))
    ensures InsertAsWritten(segs, s) == Ok([m, s])
  {
    assert segs[1..] == [];
    assert [m] + segs[1..] + [s] == [m, s];
  }

  /** As written, the merge into index 0 keeps the new segment as well. */
  lemma CounterexampleAsWritten()
    ensures InsertAsWritten([Segment(0, "ab")], Segment(2, "cd")) == Ok([Segment(0, "abcd"), Segment(2, "cd")])
  {
    CounterexampleMerge();
    AsWrittenSingleMerge([Segment(0, "ab")], Segment(2, "cd"), Segment(0, "abcd"));
  }

  /** The intended merge holds the one grown segment. */
  lemma CounterexampleIntended()
    ensures Insert([Segment(0, "ab")], Segment(2, "cd")) == Ok([Segment(0, "abcd")])
  {
    var segs := [Segment(0, "ab")];
    CounterexampleMerge();
    assert segs[1..] == [] && segs[..0] == [];
    assert Absorb(Segment(0, "abcd"), []) == [Segment(0, "abcd")];
    assert segs[..0] + Absorb(Segment(0, "abcd"), segs[1..]) == [Segment(0, "abcd")];
  }

  /** The smallest case: "ab" at 0 followed by "cd" at 2. */
  lemma AsWrittenCounterexample()
    ensures InsertAsWritten([Segment(0, "ab")], Segment(2, "cd")) == Ok([Segment(0, "abcd"), Segment(2, "cd")])
    ensures Insert([Segment(0, "ab")], Segment(2, "cd")) == Ok([Segment(0, "abcd")])
  {
    CounterexampleAsWritten();
    CounterexampleIntended();
  }

  /** `add_segment`'s size check: the block would exceed `max_data` bytes. */
  predicate TooLong(segs: seq<Segment>, s: Segment, maxData: int)
  {
    |segs| > 0 && s.Next() - segs[0].seqNo > maxData
  }

  /**
   * `add_segment` on the held segments: the size check raises (a
   * `NameError`, since `socket` is not imported), otherwise the merge.
   */
  function AddOutcome(segs: seq<Segment>, s: Segment, maxData: int): (r: Result<seq<Segment>>)
    requires Gapped(segs)
    ensures TooLong(segs, s, maxData) ==> r == Err("NameError")
    ensures !TooLong(segs, s, maxData) ==> r == Insert(segs, s)
  {
    if TooLong(segs, s, maxData) then Err("NameError") else Insert(segs, s)
  }

  /**
   * The data acknowledged by `set_ack` for a truncated `ack` beyond
   * `first_unacked_seq`: one number goes to our SYN if it was not yet
   * acknowledged, and no more than the unacknowledged data is counted.
   */
  function NewlyAcked(ack: int, firstUnacked: int, synAcked: bool, unacked: int): (r: int)
    requires ack > firstUnacked && unacked >= 0
    ensures 0 <= r <= unacked
    ensures r == unacked || r == ack - firstUnacked - (if synAcked then 0 else 1)
  {
    var diff := ack - firstUnacked - (if synAcked then 0 else 1);
    if diff > unacked then unacked else diff
  }

  /** `set_ack`'s truncation of an ACK for bytes not yet sent. */
  function CapAck(ack: int, lastSeqSent: int): (r: int)
    ensures r <= lastSeqSent + 1
    ensures ack <= lastSeqSent + 1 ==> r == ack
  {
    if ack - 1 > lastSeqSent then lastSeqSent + 1 else ack
  }

  /** `TcpConnection`: one side of a connection, as the server or a client holds it. */
  class TcpConnection {
    const myMac: int
    const myIp: int
    const myPort: int
    const otherMac: int
    const otherIp: int
    const otherPort: int
    const maxData: int
    /** The peer's window; absent until a server side sets it or a packet brings one. */
    var window: Option<int>
    /** The `win` attribute a client side sets, which nothing reads. */
    var win: Option<int>
    var segments: seq<Segment>
    var nextSeqNeeded: int
    var dataToSend: string
    var needToSendAck: bool
    var needToSendData: bool
    var receivedFin: bool
    var ackAndDead: bool
    var closed: bool
    var dead: bool
    var numDataBytesAcked: int
    var firstUnackedSeq: int
    var lastSeqSent: int
    var mySynAcked: bool
    var allDataSent: bool
    var myFinSent: bool
    var myFinAcked: bool
    /** The number of calls of the connection-over callback. */
    ghost var overCallbacks: nat

    /**
     * The received segments are gapped, no more data is counted as
     * acknowledged than was queued, and nothing beyond what was sent is
     * counted as acknowledged.
     */
    predicate Valid()
      reads this
    {
      Gapped(segments) && 0 <= numDataBytesAcked <= |dataToSend| && firstUnackedSeq <= lastSeqSent + 1
    }

    /**
     * `TcpConnection(...)`: `synSeq` is the peer's SYN sequence number for a
     * server side and absent for a client, which draws `randomSeq`; a missing
     * local port is drawn as `randomPort`; `isn` is the random initial
     * sequence number. When a local port is given, the ACK number starts past
     * the SYN (the `else` belongs to the port test). A client side sets a
     * `win` attribute of 1460 rather than `window`, so its window stays unset.
     */
    constructor(myMac: int, myIp: int, myPort: Option<int>, otherMac: int, otherIp: int, otherPort: int,
                synSeq: Option<int>, randomSeq: int, randomPort: int, isn: int)
      requires synSeq.Some? ==> myPort.Some?
      requires 0 <= randomSeq < 0x1_0000_0000 && 40000 <= randomPort <= 60000 && 0 <= isn <= 0x8FFF_FFFF
      ensures Valid() && segments == [] && dataToSend == "" && numDataBytesAcked == 0
      ensures this.myMac == myMac && this.myIp == myIp && this.myPort == myPort.UnwrapOr(randomPort)
      ensures this.otherMac == otherMac && this.otherIp == otherIp && this.otherPort == otherPort
      ensures maxData == 2048 && firstUnackedSeq == isn && lastSeqSent == isn
      ensures myPort.Some? ==> nextSeqNeeded == synSeq.UnwrapOr(randomSeq) + 1 && window == Some(0)
      ensures myPort.None? ==> nextSeqNeeded == 0 && window == None
      ensures win == if synSeq.None? then Some(1460) else None
      ensures !closed && !dead && !mySynAcked && allDataSent && !myFinSent && !myFinAcked && needToSendData
      ensures !needToSendAck && !receivedFin && !ackAndDead && overCallbacks == 0
    {
      this.myMac := myMac;
      this.myIp := myIp;
      this.otherMac := otherMac;
      this.otherIp := otherIp;
      this.otherPort := otherPort;
      maxData := 2048;
      var syn := 0;
      window := None;
      win := None;
      nextSeqNeeded := 0;
      if synSeq.None? {
        syn := randomSeq;
        win := Some(1460);
        nextSeqNeeded := 0;
      } else {
        syn := synSeq.value;
      }
      if myPort.None? {
        this.myPort := randomPort;
      } else {
        this.myPort := myPort.value;
        window := Some(0);
        nextSeqNeeded := syn + 1;
      }
      segments := [];
      dataToSend := "";
      needToSendAck := false;
      needToSendData := true;
      receivedFin := false;
      ackAndDead := false;
      closed := false;
      dead := false;
      numDataBytesAcked := 0;
      firstUnackedSeq := isn;
      lastSeqSent := isn;
      mySynAcked := false;
      allDataSent := true;
      myFinSent := false;
      myFinAcked := false;
      overCallbacks := 0;
    }

    /** `get_socket_pair`: this side's end first. */
    function SocketPair(): ((int, int, int), (int, int, int))
      reads this
    {
      ((myMac, myIp, myPort), (otherMac, otherIp, otherPort))
    }

    /** `get_data`: the bytes received from the start up to the first gap. */
    function GetData(): (r: string)
      reads this
      ensures Valid() ==> forall k :: segments != [] && segments[0].seqNo <= k < segments[0].seqNo + |r| ==> Covered(segments, k)
      ensures segments == [] ==> r == ""
    {
      if segments != [] then segments[0].data else ""
    }

    /** `has_ready_data`: exactly one segment is held, so everything received is contiguous. */
    function HasReadyData(): (r: bool)
      reads this
      ensures r <==> |segments| == 1
    {
      |segments| == 1
    }

    /** `num_unacked_data_bytes`. */
    function NumUnacked(): (r: int)
      reads this
      ensures Valid() ==> 0 <= r <= |dataToSend|
      ensures r + numDataBytesAcked == |dataToSend|
    {
      |dataToSend| - numDataBytesAcked
    }

    /** `has_data_to_send`: some queued byte is not acknowledged. */
    function HasDataToSend(): (r: bool)
      reads this
      ensures r <==> numDataBytesAcked < |dataToSend|
    {
      NumUnacked() > 0
    }

    /** `buildDataTransmissionAck`: a plain ACK carrying `payload` after the last byte sent. */
    function BuildDataTransmissionAck(payload: string): (h: Header)
      reads this
      ensures h.seqNo == lastSeqSent + 1 && h.ack == nextSeqNeeded && h.data == payload
      ensures h.srcPort == myPort && h.dstPort == otherPort
      ensures HasFlag(h.flags, AckFlag) && !HasFlag(h.flags, SynFlag) && !HasFlag(h.flags, FinFlag)
    {
      BuildTcpPkt(myPort, otherPort, Some(lastSeqSent + 1), Some(nextSeqNeeded), None, Some(payload),
                  false, false, false, false, Some(true))
    }

    /** `buildFin`: FIN and ACK, no data, at sequence number `seqNo`. */
    function BuildFin(seqNo: int): (h: Header)
      reads this
      ensures h.seqNo == seqNo && h.ack == nextSeqNeeded && h.data == ""
      ensures h.srcPort == myPort && h.dstPort == otherPort
      ensures HasFlag(h.flags, FinFlag) && HasFlag(h.flags, AckFlag) && !HasFlag(h.flags, SynFlag)
    {
      BuildTcpPkt(myPort, otherPort, Some(seqNo), Some(nextSeqNeeded), None, Some(""),
                  true, false, false, false, None)
    }

    /** The first loop of `__add_segment`: find the held segment the new one combines with. */
    method FindMerge(s: Segment) returns (r: Result<Option<(nat, Segment)>>)
      ensures r == FindCombine(segments, s, 0)
    {
      var i := 0;
      while i < |segments|
        invariant 0 <= i <= |segments|
        invariant FindCombine(segments, s, 0) == FindCombine(segments, s, i)
      {
        var c := Combine(segments[i], s);
        if c.Err? {
          return Err(c.error);
        }
        if c.value.0 {
          return Ok(Some((i, c.value.1)));
        }
        i := i + 1;
      }
      r := Ok(None);
    }

    /** The second loop of `__add_segment`: the segment at `j` absorbs the following ones it meets. */
    method AbsorbFollowing(j: nat)
      requires j < |segments| && Gapped(segments[j + 1..])
      requires j + 1 < |segments| ==> segments[j].seqNo <= segments[j + 1].seqNo
      modifies this`segments
      ensures segments == old(segments)[..j] + Absorb(old(segments)[j], old(segments)[j + 1..])
    {
      ghost var target := old(segments)[..j] + Absorb(old(segments)[j], old(segments)[j + 1..]);
      while j < |segments| - 1
        invariant j < |segments| && segments[..j] == old(segments)[..j]
        invariant Gapped(segments[j + 1..])
        invariant j + 1 < |segments| ==> segments[j].seqNo <= segments[j + 1].seqNo
        invariant segments[..j] + Absorb(segments[j], segments[j + 1..]) == target
        decreases |segments|
      {
        var c := Combine(segments[j], segments[j + 1]);
        if c.Ok? && c.value.0 {
          ghost var rest := segments[j + 1..];
          segments := segments[..j] + [c.value.1] + segments[j + 2..];
          assert segments[j + 1..] == rest[1..];
          assert segments[..j] == old(segments)[..j];
          if |rest| > 1 {
            assert rest[0].seqNo < rest[1].seqNo;
          }
        } else {
          assert segments == segments[..j] + Absorb(segments[j], segments[j + 1..]);
          return;
        }
      }
      assert segments == segments[..j] + Absorb(segments[j], segments[j + 1..]);
    }

    /** `__add_segment`: merge the new segment into the held ones. */
    method MergeSegment(s: Segment) returns (r: Result<()>)
      requires Gapped(segments)
      modifies this`segments
      ensures Insert(old(segments), s).Err? ==> r == Err("AssertionError") && segments == old(segments)
      ensures Insert(old(segments), s).Ok? ==> r.Ok? && segments == Insert(old(segments), s).value
    {
      var found := FindMerge(s);
      if found.Err? {
        return Err(found.error);
      }
      if found.value.None? {
        segments := segments + [s];
        return Ok(());
      }
      ghost var segs := segments;
      var j := found.value.value.0;
      segments := segments[j := found.value.value.1];
      assert segments[j + 1..] == segs[j + 1..];
      assert segments[..j] == segs[..j];
      if j + 1 < |segs| {
        assert segs[j].seqNo < segs[j + 1].seqNo;
      }
      AbsorbFollowing(j);
      r := Ok(());
    }

    /**
     * `add_segment`: refuse a segment that would make the block longer than
     * `max_data`, merge it, and when the contiguous data grew, advance the ACK
     * number to its end and ask for an ACK.
     */
    method AddSegment(s: Segment) returns (r: Result<()>)
      requires Valid() && |s.data| > 0
      modifies this`segments, this`nextSeqNeeded, this`needToSendAck
      ensures Valid()
      ensures AddOutcome(old(segments), s, maxData).Err? ==>
        r.Err? && r.error == AddOutcome(old(segments), s, maxData).error && unchanged(this)
      ensures AddOutcome(old(segments), s, maxData).Ok? ==>
        r.Ok? && segments == AddOutcome(old(segments), s, maxData).value
      ensures AddOutcome(old(segments), s, maxData).Ok? ==>
        if segments[0].Next() > old(nextSeqNeeded)
        then nextSeqNeeded == segments[0].Next() && needToSendAck
        else nextSeqNeeded == old(nextSeqNeeded) && needToSendAck == old(needToSendAck)
    {
      if |segments| > 0 && s.Next() - segments[0].seqNo > maxData {
        return Err("NameError");
      }
      ghost var segs := segments;
      r := MergeSegment(s);
      if r.Err? {
        return;
      }
      InsertGapped(segs, s);
      if |segments| > 0 && segments[0].Next() > nextSeqNeeded {
        nextSeqNeeded := segments[0].Next();
        needToSendAck := true;
      }
    }

    /** `add_data_to_send`: queue data, or raise on a closed connection (a `NameError`). */
    method AddDataToSend(data: string) returns (r: Result<()>)
      requires Valid()
      modifies this`dataToSend, this`allDataSent, this`needToSendData
      ensures Valid()
      ensures r.Err? <==> old(closed)
      ensures r.Err? ==> r.error == "NameError" && unchanged(this)
      ensures r.Ok? ==> dataToSend == old(dataToSend) + data && !allDataSent && needToSendData
    {
      if closed {
        return Err("NameError");
      }
      dataToSend := dataToSend + data;
      allDataSent := false;
      needToSendData := true;
      r := Ok(());
    }

    /** `fin_received`: the ACK number moves past the FIN, and an ACK is due. */
    method FinReceived(seqNo: int)
      modifies this`receivedFin, this`nextSeqNeeded, this`needToSendAck
      ensures receivedFin && nextSeqNeeded == seqNo + 1 && needToSendAck
    {
      receivedFin := true;
      nextSeqNeeded := seqNo + 1;
      needToSendAck := true;
    }

    /** `close`: the first call closes and asks for the FIN; later calls change nothing. */
    method Close()
      modifies this`closed, this`needToSendAck
      ensures closed
      ensures old(closed) ==> unchanged(this)
      ensures !old(closed) ==> needToSendAck
    {
      if !closed {
        closed := true;
        needToSendAck := true;
      }
    }

    /**
     * `set_ack`: an ACK for bytes not yet sent is truncated to the last byte
     * sent; one not beyond `first_unacked_seq` is ignored; otherwise the SYN
     * takes one number if not yet acknowledged, at most the unacknowledged
     * data is counted, an ACK beyond all data acknowledges our FIN, and
     * `first_unacked_seq` becomes the ACK.
     */
    method SetAck(ack: int)
      requires Valid()
      modifies this`numDataBytesAcked, this`firstUnackedSeq, this`mySynAcked, this`myFinAcked,
               this`dead, this`overCallbacks, this`needToSendData
      ensures Valid()
      ensures CapAck(ack, lastSeqSent) <= old(firstUnackedSeq) ==> unchanged(this)
      ensures CapAck(ack, lastSeqSent) > old(firstUnackedSeq) ==>
        var a := CapAck(ack, lastSeqSent);
        var raw := a - old(firstUnackedSeq) - (if old(mySynAcked) then 0 else 1);
        var n := NewlyAcked(a, old(firstUnackedSeq), old(mySynAcked), old(NumUnacked()));
        firstUnackedSeq == a && mySynAcked &&
        numDataBytesAcked == old(numDataBytesAcked) + n &&
        myFinAcked == (old(myFinAcked) || (raw > old(NumUnacked()) && myFinSent)) &&
        dead == (old(dead) || (raw > old(NumUnacked()) && ackAndDead)) &&
        overCallbacks == old(overCallbacks) + (if raw > old(NumUnacked()) && ackAndDead then 1 else 0) &&
        needToSendData == (old(needToSendData) || (n > 0 && !allDataSent && HasDataToSend()))
    {
      var a := CapAck(ack, lastSeqSent);
      if a - firstUnackedSeq <= 0 {
        return;
      }
      var beyond, counted := CountAck(a);
      NoteAckBeyond(beyond);
      needToSendData := needToSendData || (counted > 0 && !allDataSent && HasDataToSend());
    }

    /**
     * The counting part of `set_ack` for an ACK `a` past `first_unacked_seq`:
     * the SYN takes one number if not yet acknowledged and at most the
     * unacknowledged data is counted; `beyond` says the ACK passes all data.
     */
    method CountAck(a: int) returns (beyond: bool, counted: int)
      requires Valid() && firstUnackedSeq < a <= lastSeqSent + 1
      modifies this`numDataBytesAcked, this`firstUnackedSeq, this`mySynAcked
      ensures Valid()
      ensures beyond == (a - old(firstUnackedSeq) - (if old(mySynAcked) then 0 else 1) > old(NumUnacked()))
      ensures counted == NewlyAcked(a, old(firstUnackedSeq), old(mySynAcked), old(NumUnacked()))
      ensures firstUnackedSeq == a && mySynAcked && numDataBytesAcked == old(numDataBytesAcked) + counted
    {
      var diff := a - firstUnackedSeq;
      if !mySynAcked {
        diff := diff - 1;
        mySynAcked := true;
      }
      var unacked := NumUnacked();
      beyond := diff > unacked;
      counted := if beyond then unacked else diff;
      numDataBytesAcked := numDataBytesAcked + counted;
      firstUnackedSeq := a;
    }

    /** An ACK beyond all data acknowledges our FIN and, after `ack_and_dead`, ends the connection. */
    method NoteAckBeyond(beyond: bool)
      modifies this`myFinAcked, this`dead, this`overCallbacks
      ensures myFinAcked == (old(myFinAcked) || (beyond && myFinSent))
      ensures dead == (old(dead) || (beyond && ackAndDead))
      ensures overCallbacks == old(overCallbacks) + (if beyond && ackAndDead then 1 else 0)
    {
      if beyond {
        if myFinSent {
          myFinAcked := true;
        }
        if ackAndDead {
          dead := true;
          overCallbacks := overCallbacks + 1;
        }
      }
    }
  }
}
