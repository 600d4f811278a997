/**
 * Line preprocessing of the definition reader (jsf.hh `cleanup`): a comment
 * starts at the first `#` met outside double quotes, a backslash makes the scan
 * step over the next byte, and trailing CR, LF, space and tab are removed.
 */
module LineCleanup {
  import opened Base

  /** The bytes `cleanup` strips from the end of a line. */
  predicate IsTrailing(b: Byte)
  {
    b == CR || b == LF || b == SPACE || b == TAB
  }

  /**
   * Where the comment scan that starts at i, with `quote` telling whether it is
   * inside double quotes, stops: at a `#` outside quotes, or at the end.
   * (When a backslash is the last byte the source steps past the terminator and
   * goes on scanning stale buffer bytes; here the scan ends.)
   */
  function CommentCut(s: Str, i: nat, quote: bool): (k: nat)
    ensures i <= |s| ==> i <= k
    ensures k <= |s|
    ensures k == |s| || (s[k] == HASH && (k == i ==> !quote))
    decreases |s| - i
  {
    if i >= |s| then |s|
    else if s[i] == HASH && !quote then i
    else if s[i] == QUOTE then CommentCut(s, i + 1, !quote)
    else if s[i] == BACKSLASH then CommentCut(s, i + 2, quote)
    else CommentCut(s, i + 1, quote)
  }

  /**
   * The comment scan read from the left, independently of `CommentCut`: for a
   * position j of `s`, whether the scan visits it (it does not when the byte
   * before it is a backslash that the scan itself visited) and whether an odd
   * number of the double quotes it visited lie before j.
   */
  ghost function Scan(s: Str, j: nat): (r: (bool, bool))
    requires j <= |s|
    decreases j
  {
    if j == 0 then (true, false)
    else
      var before := Scan(s, j - 1);
      if !before.0 then (true, before.1)
      else if s[j - 1] == QUOTE then (true, !before.1)
      else if s[j - 1] == BACKSLASH then (false, before.1)
      else (true, before.1)
  }

  /** The scan visits position j. */
  ghost predicate Reached(s: Str, j: nat)
    requires j <= |s|
  {
    Scan(s, j).0
  }

  /** Position j lies inside double quotes, as far as the scan can tell. */
  ghost predicate InQuote(s: Str, j: nat)
    requires j <= |s|
  {
    Scan(s, j).1
  }

  /** A `#` that starts a comment: visited by the scan, outside double quotes. */
  ghost predicate CommentAt(s: Str, j: nat)
  {
    j < |s| && s[j] == HASH && Reached(s, j) && !InQuote(s, j)
  }

  /**
   * From a position the scan visits, with `quote` what the scan knows there,
   * `CommentCut` stops at the first comment-starting `#` at or after i, or at
   * the end when there is none.
   */
  lemma {:induction false} CutIsFirstFrom(s: Str, i: nat, quote: bool)
    requires i <= |s| && Reached(s, i) && InQuote(s, i) == quote
    ensures var k := CommentCut(s, i, quote);
            (k == |s| || CommentAt(s, k)) && forall j :: i <= j < k ==> !CommentAt(s, j)
    decreases |s| - i
  {
    if i < |s| && !(s[i] == HASH && !quote) {
      assert !CommentAt(s, i);
      if s[i] == QUOTE {
        CutIsFirstFrom(s, i + 1, !quote);
      } else if s[i] == BACKSLASH {
        assert !Reached(s, i + 1);
        if i + 2 <= |s| {
          CutIsFirstFrom(s, i + 2, quote);
        }
      } else {
        CutIsFirstFrom(s, i + 1, quote);
      }
    }
  }

  /**
   * The comment of a line starts at its first `#` that the scan visits outside
   * double quotes, a backslash making the scan skip the byte after it; with no
   * such `#` nothing is cut.
   */
  lemma CommentCutIsFirst(s: Str)
    ensures var k := CommentCut(s, 0, false);
            (k == |s| || CommentAt(s, k)) && forall j :: 0 <= j < k ==> !CommentAt(s, j)
  {
    CutIsFirstFrom(s, 0, false);
  }

  /** `s` without its trailing CR, LF, space and tab bytes. */
  function StripTrailing(s: Str): (r: Str)
    ensures r <= s
    ensures |r| == 0 || !IsTrailing(r[|r| - 1])
    ensures forall j :: |r| <= j < |s| ==> IsTrailing(s[j])
  {
    if |s| > 0 && IsTrailing(s[|s| - 1]) then StripTrailing(s[..|s| - 1]) else s
  }

  /** The line as `cleanup` leaves it. */
  function Cleaned(s: Str): Str
  {
    StripTrailing(s[..CommentCut(s, 0, false)])
  }

  /** `cleanup`: the comment scan, then the trailing strip, as the source does them. */
  method Cleanup(buf: Str) returns (r: Str)
    ensures r == Cleaned(buf)
    ensures r <= buf
    ensures |r| == 0 || !IsTrailing(r[|r| - 1])
    ensures forall j :: |r| <= j < CommentCut(buf, 0, false) ==> IsTrailing(buf[j])
  {
    var end := CommentEnd(buf);
    while end > 0 && IsTrailing(buf[end - 1])
      invariant 0 <= end <= |buf|
      invariant StripTrailing(buf[..end]) == Cleaned(buf)
    {
      assert buf[..end][..end - 1] == buf[..end - 1];
      end := end - 1;
    }
    r := buf[..end];
  }

  /** The comment scan of `cleanup`: the position of the first `#` outside quotes, or the end. */
  method CommentEnd(buf: Str) returns (end: nat)
    ensures end == CommentCut(buf, 0, false)
    ensures (end == |buf| || CommentAt(buf, end)) && forall j :: 0 <= j < end ==> !CommentAt(buf, j)
  {
    CommentCutIsFirst(buf);
    var quote := false;
    var i := 0;
    end := |buf|;
    while i < |buf|
      invariant CommentCut(buf, i, quote) == CommentCut(buf, 0, false)
      invariant end == |buf|
    {
      if buf[i] == HASH && !quote {
        end := i;
        return;
      }
      if buf[i] == QUOTE {
        quote := !quote;
      } else if buf[i] == BACKSLASH {
        i := i + 1;
      }
      i := i + 1;
    }
  }

  /** A line without quotes or backslashes is cut exactly at its first `#`. */
  lemma {:induction false} CutAtFirstHash(s: Str, i: nat, quote: bool)
    requires i <= |s| && !quote
    requires forall j :: i <= j < |s| ==> s[j] != QUOTE && s[j] != BACKSLASH
    ensures forall j :: i <= j < CommentCut(s, i, quote) ==> s[j] != HASH
    decreases |s| - i
  {
    if i < |s| && s[i] != HASH {
      CutAtFirstHash(s, i + 1, quote);
    }
  }

  /** Re-scanning a prefix that ends no later than the cut finds no comment in it. */
  lemma {:induction false} CutOfPrefix(s: Str, m: nat, i: nat, quote: bool)
    requires m <= CommentCut(s, i, quote)
    ensures CommentCut(s[..m], i, quote) == m
    decreases |s| - i
  {
    if i < m {
      if s[i] == QUOTE {
        CutOfPrefix(s, m, i + 1, !quote);
      } else if s[i] == BACKSLASH {
        CutOfPrefix(s, m, i + 2, quote);
      } else {
        CutOfPrefix(s, m, i + 1, quote);
      }
    }
  }

  /** Cleaning keeps a C string free of NUL bytes: the result is a prefix of the line. */
  lemma CleanedNoNul(s: Str)
    requires NoNul(s)
    ensures Cleaned(s) <= s && NoNul(Cleaned(s))
  {
  }

  /** Cleaning a cleaned line changes nothing. */
  lemma CleanedIdempotent(s: Str)
    ensures Cleaned(Cleaned(s)) == Cleaned(s)
  {
    var c := CommentCut(s, 0, false);
    var r := Cleaned(s);
    CutOfPrefix(s, |r|, 0, false);
    assert s[..|r|] == r;
    assert r[..|r|] == r;
  }
}
