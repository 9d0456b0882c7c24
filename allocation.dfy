/**
 * The wrap-around identifier scan shared by route cookies (`Routing.reserveCookie`)
 * and middleware client ids (`scn_id` in `_handle_InitializeReq`): starting after
 * the previously issued value, probe the next 65534 values modulo 65536, skip 0 and
 * every value already taken, and issue the first free one.
 */
module Allocation {
  import opened Wrappers

  /** Identifiers live in 0 .. 65535; 0 is never issued. */
  const Modulus: int := 0x1_0000
  /** `maxCookie` / `max_id`: the scan runs over offsets 1 .. Span - 1. */
  const Span: int := 0xFFFF

  /** The candidate probed at offset `k` after `prev`. */
  function Candidate(prev: int, k: int): (c: int)
    ensures 0 <= c < Modulus
  {
    (prev + k) % Modulus
  }

  /** A candidate is usable when it is not 0 and not taken. */
  predicate Free(taken: set<int>, c: int)
  {
    c != 0 && c !in taken
  }

  /** The scan from offset `k` onwards: the first free candidate, or None. */
  function ScanFrom(taken: set<int>, prev: int, k: int): (r: Option<int>)
    requires 1 <= k <= Span
    ensures r.Some? ==> 0 < r.value < Modulus && r.value !in taken
    ensures r.Some? ==> exists j :: k <= j < Span && Candidate(prev, j) == r.value
    decreases Span - k
  {
    if k == Span then None
    else if Free(taken, Candidate(prev, k)) then Some(Candidate(prev, k))
    else ScanFrom(taken, prev, k + 1)
  }

  /** The identifier issued after `prev` when `taken` are in use. */
  function FirstFree(taken: set<int>, prev: int): (r: Option<int>)
  {
    ScanFrom(taken, prev, 1)
  }

  /** One step of the scan: the candidate at `k` if it is free, otherwise the scan from `k + 1`. */
  lemma ScanStep(taken: set<int>, prev: int, k: int)
    requires 1 <= k < Span
    ensures Free(taken, Candidate(prev, k)) ==> ScanFrom(taken, prev, k) == Some(Candidate(prev, k))
    ensures !Free(taken, Candidate(prev, k)) ==> ScanFrom(taken, prev, k) == ScanFrom(taken, prev, k + 1)
  {
  }

  /** The scan from `k` fails exactly when every candidate from `k` on is 0 or taken. */
  lemma {:induction false} ScanFromNoneIff(taken: set<int>, prev: int, k: int)
    requires 1 <= k <= Span
    ensures ScanFrom(taken, prev, k).None? <==>
            (forall j :: k <= j < Span ==> !Free(taken, Candidate(prev, j)))
    decreases Span - k
  {
    if k < Span {
      ScanFromNoneIff(taken, prev, k + 1);
    }
  }

  /** The scan from `k` issues the candidate at the first free offset. */
  lemma {:induction false} ScanFromFirst(taken: set<int>, prev: int, k: int, j: int)
    requires 1 <= k <= j < Span
    requires Free(taken, Candidate(prev, j))
    requires forall i :: k <= i < j ==> !Free(taken, Candidate(prev, i))
    ensures ScanFrom(taken, prev, k) == Some(Candidate(prev, j))
    decreases j - k
  {
    if k < j {
      ScanFromFirst(taken, prev, k + 1, j);
    }
  }

  /** No identifier is issued exactly when all 65534 probed candidates are 0 or taken. */
  lemma FirstFreeNoneIff(taken: set<int>, prev: int)
    ensures FirstFree(taken, prev).None? <==>
            (forall j :: 1 <= j < Span ==> !Free(taken, Candidate(prev, j)))
  {
    ScanFromNoneIff(taken, prev, 1);
  }

  /** What the scan from `k` issues is the candidate at the first free offset from `k`. */
  lemma {:induction false} ScanFromIsFirst(taken: set<int>, prev: int, k: int)
    requires 1 <= k <= Span
    requires ScanFrom(taken, prev, k).Some?
    ensures exists j :: k <= j < Span && Candidate(prev, j) == ScanFrom(taken, prev, k).value &&
                        Free(taken, Candidate(prev, j)) &&
                        forall i :: k <= i < j ==> !Free(taken, Candidate(prev, i))
    decreases Span - k
  {
    if !Free(taken, Candidate(prev, k)) {
      ScanFromIsFirst(taken, prev, k + 1);
      var j :| k + 1 <= j < Span && Candidate(prev, j) == ScanFrom(taken, prev, k + 1).value &&
               Free(taken, Candidate(prev, j)) &&
               forall i :: k + 1 <= i < j ==> !Free(taken, Candidate(prev, i));
      assert forall i :: k <= i < j ==> !Free(taken, Candidate(prev, i));
    }
  }

  /** An issued identifier is nonzero, below 65536, free, and no earlier probe was free. */
  lemma FirstFreeIsFirst(taken: set<int>, prev: int)
    requires FirstFree(taken, prev).Some?
    ensures var c := FirstFree(taken, prev).value;
            0 < c < Modulus && c !in taken &&
            exists j :: 1 <= j < Span && Candidate(prev, j) == c &&
                        forall i :: 1 <= i < j ==> !Free(taken, Candidate(prev, i))
  {
    ScanFromIsFirst(taken, prev, 1);
  }
}
