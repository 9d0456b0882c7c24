/**
 * The digit characters Python's `str` and `hex` write, and `str.split(sep)`
 * and `sep.join(parts)` on strings, with the facts the callers rely on:
 * joining the pieces restores the string, a string without the separator is
 * one piece, and no piece contains the separator.
 */
module Strings {
  /** The character `str` and `hex` write for digit `d`: decimal digits, then lower-case letters. */
  function DigitChar(d: nat): (r: char)
    requires d < 16
    ensures d < 10 ==> '0' <= r <= '9' && r as int - '0' as int == d
    ensures d >= 10 ==> 'a' <= r <= 'f' && r as int - 'a' as int + 10 == d
  {
    if d < 10 then ('0' as int + d) as char else ('a' as int + d - 10) as char
  }

  /** `s[i..]` starts with `sep`. */
  predicate OccursAt(s: string, sep: string, i: int)
  {
    0 <= i && i + |sep| <= |s| && s[i..i + |sep|] == sep
  }

  /** `sep in s`. */
  predicate Contains(s: string, sep: string)
  {
    exists i :: 0 <= i <= |s| && OccursAt(s, sep, i)
  }

  /** `s.split(sep)`: the pieces between the non-overlapping occurrences of `sep`, found from the left. */
  function SplitOn(s: string, sep: string): (parts: seq<string>)
    requires |sep| > 0
    ensures |parts| >= 1
    decreases |s|
  {
    if |s| < |sep| then [s]
    else if s[..|sep|] == sep then [""] + SplitOn(s[|sep|..], sep)
    else
      var rest := SplitOn(s[1..], sep);
      [[s[0]] + rest[0]] + rest[1..]
  }

  /** `sep.join(parts)`. */
  function JoinWith(parts: seq<string>, sep: string): string
    requires |parts| >= 1
  {
    if |parts| == 1 then parts[0] else parts[0] + sep + JoinWith(parts[1..], sep)
  }

  /** Splitting loses nothing: joining the pieces with the separator restores the string. */
  lemma {:induction false} JoinSplit(s: string, sep: string)
    requires |sep| > 0
    ensures JoinWith(SplitOn(s, sep), sep) == s
    decreases |s|
  {
    if |s| < |sep| {
    } else if s[..|sep|] == sep {
      JoinSplit(s[|sep|..], sep);
      JoinAfterEmpty(SplitOn(s[|sep|..], sep), sep);
      assert s == sep + s[|sep|..];
    } else {
      JoinSplit(s[1..], sep);
      JoinAfterChar(s[0], SplitOn(s[1..], sep), sep);
      assert s == [s[0]] + s[1..];
    }
  }

  /** An empty first piece puts the separator in front of the join. */
  lemma JoinAfterEmpty(rest: seq<string>, sep: string)
    requires |rest| >= 1
    ensures JoinWith([""] + rest, sep) == sep + JoinWith(rest, sep)
  {
    assert ([""] + rest)[1..] == rest;
  }

  /** A character added to the first piece comes first in the join. */
  lemma JoinAfterChar(c: char, rest: seq<string>, sep: string)
    requires |rest| >= 1
    ensures JoinWith([[c] + rest[0]] + rest[1..], sep) == [c] + JoinWith(rest, sep)
  {
    var p := [[c] + rest[0]] + rest[1..];
    assert p[0] == [c] + rest[0] && p[1..] == rest[1..];
    if |rest| > 1 {
      assert JoinWith(p, sep) == ([c] + rest[0]) + sep + JoinWith(rest[1..], sep);
      assert JoinWith(rest, sep) == rest[0] + sep + JoinWith(rest[1..], sep);
    }
  }

  /** The first piece is a prefix of the string. */
  lemma {:induction false} FirstPiecePrefix(s: string, sep: string)
    requires |sep| > 0
    ensures SplitOn(s, sep)[0] <= s
    decreases |s|
  {
    if |s| >= |sep| && s[..|sep|] != sep {
      FirstPiecePrefix(s[1..], sep);
    }
  }

  /** No piece contains the separator. */
  lemma {:induction false} PiecesFree(s: string, sep: string)
    requires |sep| > 0
    ensures forall k :: 0 <= k < |SplitOn(s, sep)| ==> !Contains(SplitOn(s, sep)[k], sep)
    decreases |s|
  {
    var parts := SplitOn(s, sep);
    if |s| < |sep| {
      assert !Contains(s, sep);
    } else if s[..|sep|] == sep {
      PiecesFree(s[|sep|..], sep);
      assert forall k :: 1 <= k < |parts| ==> parts[k] == SplitOn(s[|sep|..], sep)[k - 1];
      assert !Contains("", sep);
    } else {
      PiecesFree(s[1..], sep);
      var rest := SplitOn(s[1..], sep);
      assert forall k :: 1 <= k < |parts| ==> parts[k] == rest[k];
      FirstPiecePrefix(s[1..], sep);
      var first := [s[0]] + rest[0];
      if Contains(first, sep) {
        var i :| 0 <= i <= |first| && OccursAt(first, sep, i);
        assert 0 <= i && i + |sep| <= |first|;
        if i > 0 {
          assert rest[0][i - 1..i - 1 + |sep|] == first[i..i + |sep|];
          assert OccursAt(rest[0], sep, i - 1);
        }
      }
    }
  }

  /** A string that does not contain the separator is a single piece. */
  lemma {:induction false} SplitWithout(s: string, sep: string)
    requires |sep| > 0 && !Contains(s, sep)
    ensures SplitOn(s, sep) == [s]
    decreases |s|
  {
    if |s| >= |sep| {
      assert !OccursAt(s, sep, 0);
      forall i | OccursAt(s[1..], sep, i)
        ensures false
      {
        assert s[i + 1..i + 1 + |sep|] == s[1..][i..i + |sep|];
        assert OccursAt(s, sep, i + 1);
      }
      SplitWithout(s[1..], sep);
      assert [s[0]] + s[1..] == s;
    }
  }

  /** A string with more than one piece contains the separator. */
  lemma SplitManyContains(s: string, sep: string)
    requires |sep| > 0 && |SplitOn(s, sep)| > 1
    ensures Contains(s, sep)
  {
    if !Contains(s, sep) {
      SplitWithout(s, sep);
    }
  }

  /** A leading piece without the separator's first character is cut off at the first separator. */
  lemma {:induction false} SplitAfter(x: string, y: string, sep: string)
    requires |sep| > 0
    requires forall i :: 0 <= i < |x| ==> x[i] != sep[0]
    ensures SplitOn(x + sep + y, sep) == [x] + SplitOn(y, sep)
    decreases |x|
  {
    var s := x + sep + y;
    if x == [] {
      assert s[..|sep|] == sep;
      assert s[|sep|..] == y;
    } else {
      assert s[..|sep|][0] != sep[0];
      assert s[1..] == x[1..] + sep + y;
      SplitAfter(x[1..], y, sep);
      assert [s[0]] + x[1..] == x;
    }
  }
}
