/**
 * The three regular-expression shapes the video libraries match URLs with,
 * written out as the ECMAScript matcher runs them: the leftmost start
 * position wins, `\d+` takes the longest run of digits, and `.` matches any
 * character but a line terminator.
 *
 *   /lit(\d+)/           LitDigits
 *   /lit1.*lit2(\d+)/    SpanDigits, greedy; `.*?` is SpanDigits, lazy
 *   /lit.*\/(.+)$/       TailAfter
 */
module UrlPatterns {
  import opened Wrappers
  import opened Strings

  /** The characters ECMAScript's `.` does not match. */
  predicate IsLineTerminator(c: char)
  {
    c == '\n' || c == '\r' || c == '\U{2028}' || c == '\U{2029}'
  }

  predicate NoneOf(s: string, c: char)
  {
    forall k :: 0 <= k < |s| ==> s[k] != c
  }

  predicate NoLineTerminator(s: string)
  {
    forall k :: 0 <= k < |s| ==> !IsLineTerminator(s[k])
  }

  /** The first line terminator at or after `k`, or the end of `s`. */
  function LineEnd(s: string, k: nat): (e: nat)
    requires k <= |s|
    ensures k <= e <= |s|
    ensures forall m :: k <= m < e ==> !IsLineTerminator(s[m])
    ensures e < |s| ==> IsLineTerminator(s[e])
    decreases |s| - k
  {
    if k == |s| || IsLineTerminator(s[k]) then k else LineEnd(s, k + 1)
  }

  /** What greedy `\d+` (or `\d*`) takes from position `k`: the longest run of digits. */
  function DigitRun(s: string, k: nat): (r: string)
    requires k <= |s|
    ensures k + |r| <= |s| && r == s[k..k + |r|] && AllDigits(r)
    ensures k + |r| == |s| || !IsDigit(s[k + |r|])
    ensures k < |s| && IsDigit(s[k]) ==> |r| > 0
    decreases |s| - k
  {
    if k == |s| || !IsDigit(s[k]) then ""
    else
      var rest := DigitRun(s, k + 1);
      assert s[k..k + 1 + |rest|] == [s[k]] + s[k + 1..k + 1 + |rest|];
      [s[k]] + rest
  }

  /** A run of digits that ends the string or is followed by a non-digit is exactly what `\d+` takes. */
  lemma {:induction false} DigitRunIs(s: string, k: nat, d: string)
    requires k + |d| <= |s| && s[k..k + |d|] == d && AllDigits(d)
    requires k + |d| == |s| || !IsDigit(s[k + |d|])
    ensures DigitRun(s, k) == d
    decreases |d|
  {
    if |d| > 0 {
      assert s[k] == d[0];
      assert s[k + 1..k + 1 + |d[1..]|] == d[1..];
      DigitRunIs(s, k + 1, d[1..]);
      assert [d[0]] + d[1..] == d;
    }
  }

  /** After any prefix, `\d+` takes the digits that begin the rest. */
  lemma DigitRunAfter(p: string, lead: string, rest: string)
    requires AllDigits(lead) && (|rest| == 0 || !IsDigit(rest[0]))
    ensures DigitRun(p + (lead + rest), |p|) == lead
  {
    var s := p + (lead + rest);
    assert s[|p|..|p| + |lead|] == lead;
    if |rest| > 0 {
      assert s[|p| + |lead|] == rest[0];
    }
    DigitRunIs(s, |p|, lead);
  }

  /** `i` is the first position from `k` on where `f` reports a match. */
  ghost predicate LeftmostSome(f: nat -> Option<string>, k: nat, i: nat)
  {
    k <= i && f(i).Some? && forall m: nat :: k <= m < i ==> f(m).None?
  }

  /** The regular-expression engine's outer loop: try each start position from `k` to `n` in turn. */
  function FirstSome(f: nat -> Option<string>, k: nat, n: nat): (r: Option<string>)
    ensures r.None? <==> forall i: nat :: k <= i <= n ==> f(i).None?
    ensures r.Some? ==> exists i: nat :: i <= n && LeftmostSome(f, k, i) && r == f(i)
    decreases n + 1 - k
  {
    if k > n then None
    else if f(k).Some? then
      assert LeftmostSome(f, k, k);
      f(k)
    else
      var r := FirstSome(f, k + 1, n);
      assert r.Some? ==> exists i: nat :: i <= n && LeftmostSome(f, k, i) && r == f(i) by {
        if r.Some? {
          var i: nat :| i <= n && LeftmostSome(f, k + 1, i) && r == f(i);
          assert LeftmostSome(f, k, i);
        }
      }
      r
  }

  /** `lit` occurs at `j` and a digit follows it. */
  predicate LitDigitAt(s: string, lit: string, j: int)
  {
    OccursAt(s, lit, j) && j + |lit| < |s| && IsDigit(s[j + |lit|])
  }

  /** The least `j` in [lo, hi) where `lit` is followed by a digit. */
  function FirstLitDigit(s: string, lit: string, lo: nat, hi: nat): (r: Option<nat>)
    ensures r.Some? ==> lo <= r.value < hi && LitDigitAt(s, lit, r.value)
                        && forall m :: lo <= m < r.value ==> !LitDigitAt(s, lit, m)
    ensures r.None? ==> forall m :: lo <= m < hi ==> !LitDigitAt(s, lit, m)
    decreases hi - lo
  {
    if lo >= hi then None
    else if LitDigitAt(s, lit, lo) then Some(lo)
    else FirstLitDigit(s, lit, lo + 1, hi)
  }

  /** The greatest `j` in [lo, hi) where `lit` is followed by a digit. */
  function LastLitDigit(s: string, lit: string, lo: nat, hi: nat): (r: Option<nat>)
    ensures r.Some? ==> lo <= r.value < hi && LitDigitAt(s, lit, r.value)
                        && forall m :: r.value < m < hi ==> !LitDigitAt(s, lit, m)
    ensures r.None? ==> forall m :: lo <= m < hi ==> !LitDigitAt(s, lit, m)
    decreases hi - lo
  {
    if lo >= hi then None
    else if LitDigitAt(s, lit, hi - 1) then Some(hi - 1)
    else LastLitDigit(s, lit, lo, hi - 1)
  }

  /** What `/lit(\d+)/` captures for a match starting at `i`, if one does. */
  function LitCapture(s: string, lit: string, i: nat): (r: Option<string>)
    ensures r.None? <==> !LitDigitAt(s, lit, i)
    ensures r.Some? ==> r.value == DigitRun(s, i + |lit|) && |r.value| > 0 && AllDigits(r.value)
  {
    if LitDigitAt(s, lit, i) then Some(DigitRun(s, i + |lit|)) else None
  }

  function LitCaptures(s: string, lit: string): nat -> Option<string>
  {
    (i: nat) => LitCapture(s, lit, i)
  }

  /** `s.match(/lit(\d+)/)?.[1]`: the capture of the leftmost start that can match. */
  function LitDigits(s: string, lit: string): (r: Option<string>)
    ensures r.None? <==> forall i: nat :: !LitDigitAt(s, lit, i)
    ensures r.Some? ==> exists i: nat :: LeftmostSome(LitCaptures(s, lit), 0, i) && r == LitCapture(s, lit, i)
  {
    var f := LitCaptures(s, lit);
    assert forall i: nat :: f(i) == LitCapture(s, lit, i);
    assert forall i: nat :: i > |s| ==> !LitDigitAt(s, lit, i);
    assert forall i: nat :: f(i).None? <==> !LitDigitAt(s, lit, i);
    FirstSome(f, 0, |s|)
  }

  /** `lit1` at `i`, then `.*` up to `j` on the same line, then `lit2` and a digit at `j`. */
  ghost predicate SpanAt(s: string, lit1: string, lit2: string, i: int, j: int)
  {
    OccursAt(s, lit1, i) && i + |lit1| <= j < LineEnd(s, i + |lit1|) && LitDigitAt(s, lit2, j)
  }

  /**
   * Where `lit2` goes for a match starting at `i`: the last (greedy `.*`) or
   * first (lazy `.*?`) place on the line; none when no match starts at `i`.
   */
  function SpanEnd(s: string, lit1: string, lit2: string, greedy: bool, i: int): (r: Option<nat>)
    ensures r.None? <==> forall j :: !SpanAt(s, lit1, lit2, i, j)
    ensures r.Some? ==> SpanAt(s, lit1, lit2, i, r.value)
    ensures r.Some? ==> forall j :: (if greedy then r.value < j else j < r.value) ==> !SpanAt(s, lit1, lit2, i, j)
  {
    if !OccursAt(s, lit1, i) then None
    else
      var from := i + |lit1|;
      var e := LineEnd(s, from);
      assert forall j :: SpanAt(s, lit1, lit2, i, j) <==> from <= j < e && LitDigitAt(s, lit2, j);
      if greedy then LastLitDigit(s, lit2, from, e) else FirstLitDigit(s, lit2, from, e)
  }

  /** What the capture group holds for a match starting at `i`, if one does. */
  function SpanCapture(s: string, lit1: string, lit2: string, greedy: bool, i: nat): (r: Option<string>)
    ensures r.None? <==> SpanEnd(s, lit1, lit2, greedy, i).None?
    ensures r.Some? ==> r.value == DigitRun(s, SpanEnd(s, lit1, lit2, greedy, i).value + |lit2|)
    ensures r.Some? ==> |r.value| > 0 && AllDigits(r.value)
  {
    match SpanEnd(s, lit1, lit2, greedy, i)
    case None => None
    case Some(j) => Some(DigitRun(s, j + |lit2|))
  }

  function SpanCaptures(s: string, lit1: string, lit2: string, greedy: bool): nat -> Option<string>
  {
    (i: nat) => SpanCapture(s, lit1, lit2, greedy, i)
  }

  /**
   * `s.match(/lit1.*lit2(\d+)/)?.[1]` (greedy) or `/lit1.*?lit2(\d+)/`
   * (lazy): the capture of the leftmost start that can match.
   */
  function SpanDigits(s: string, lit1: string, lit2: string, greedy: bool): (r: Option<string>)
    ensures r.None? <==> forall i: nat :: SpanCapture(s, lit1, lit2, greedy, i).None?
    ensures r.Some? ==> exists i: nat :: LeftmostSome(SpanCaptures(s, lit1, lit2, greedy), 0, i)
                                          && r == SpanCapture(s, lit1, lit2, greedy, i)
  {
    var f := SpanCaptures(s, lit1, lit2, greedy);
    assert forall i: nat :: f(i) == SpanCapture(s, lit1, lit2, greedy, i);
    assert forall i: nat :: i > |s| ==> SpanEnd(s, lit1, lit2, greedy, i).None?;
    FirstSome(f, 0, |s|)
  }

  /** `lit` at `i`, then `.*` up to a '/' at `j`, then `.+` to the end of the input, all on one line. */
  ghost predicate TailAt(s: string, lit: string, i: int, j: int)
  {
    OccursAt(s, lit, i) && LineEnd(s, i + |lit|) == |s| && i + |lit| <= j < |s| - 1 && s[j] == '/'
  }

  /** The greatest `j` in [lo, hi) holding a '/'. */
  function LastSlash(s: string, lo: nat, hi: nat): (r: Option<nat>)
    requires hi <= |s|
    ensures r.Some? ==> lo <= r.value < hi && s[r.value] == '/' && forall m :: r.value < m < hi ==> s[m] != '/'
    ensures r.None? ==> forall m :: lo <= m < hi ==> s[m] != '/'
    decreases hi - lo
  {
    if lo >= hi then None
    else if s[hi - 1] == '/' then Some(hi - 1)
    else LastSlash(s, lo, hi - 1)
  }

  /** The '/' greedy `.*` stops at for a match starting at `i`; none when no match starts there. */
  function TailEnd(s: string, lit: string, i: int): (r: Option<nat>)
    ensures r.None? <==> forall j :: !TailAt(s, lit, i, j)
    ensures r.Some? ==> TailAt(s, lit, i, r.value) && forall j :: r.value < j ==> !TailAt(s, lit, i, j)
  {
    if OccursAt(s, lit, i) && LineEnd(s, i + |lit|) == |s| && |s| > 0 then
      assert forall j :: TailAt(s, lit, i, j) <==> i + |lit| <= j < |s| - 1 && s[j] == '/';
      LastSlash(s, i + |lit|, |s| - 1)
    else None
  }

  /** What `/lit.*\/(.+)$/` captures for a match starting at `i`, if one does. */
  function TailCapture(s: string, lit: string, i: nat): (r: Option<string>)
    ensures r.None? <==> TailEnd(s, lit, i).None?
    ensures r.Some? ==> r.value == s[TailEnd(s, lit, i).value + 1..] && |r.value| > 0
  {
    match TailEnd(s, lit, i)
    case None => None
    case Some(j) => Some(s[j + 1..])
  }

  function TailCaptures(s: string, lit: string): nat -> Option<string>
  {
    (i: nat) => TailCapture(s, lit, i)
  }

  /** `s.match(/lit.*\/(.+)$/)?.[1]`: the capture of the leftmost start that can match. */
  function TailAfter(s: string, lit: string): (r: Option<string>)
    ensures r.None? <==> forall i: nat :: TailEnd(s, lit, i).None?
    ensures r.Some? ==> exists i: nat :: LeftmostSome(TailCaptures(s, lit), 0, i) && r == TailCapture(s, lit, i)
  {
    var f := TailCaptures(s, lit);
    assert forall i: nat :: f(i) == TailCapture(s, lit, i);
    assert forall i: nat :: i > |s| ==> TailEnd(s, lit, i).None?;
    assert forall i: nat :: f(i).None? <==> TailEnd(s, lit, i).None?;
    FirstSome(f, 0, |s|)
  }

  /** When exactly one start position matches the span pattern, the search returns its capture. */
  lemma SpanDigitsAt(s: string, lit1: string, lit2: string, greedy: bool, i0: nat, v: string)
    requires SpanCapture(s, lit1, lit2, greedy, i0) == Some(v)
    requires forall i: nat :: i != i0 ==> SpanCapture(s, lit1, lit2, greedy, i).None?
    ensures SpanDigits(s, lit1, lit2, greedy) == Some(v)
  {
  }

  /** When exactly one start position matches the tail pattern, the search returns its capture. */
  lemma TailAfterAt(s: string, lit: string, i0: nat, v: string)
    requires TailCapture(s, lit, i0) == Some(v)
    requires forall i: nat :: i != i0 ==> TailCapture(s, lit, i).None?
    ensures TailAfter(s, lit) == Some(v)
  {
  }

  /** An occurrence of `lit` at `i` fixes the characters of `s` it covers. */
  lemma OccursAtChar(s: string, lit: string, i: int, off: nat)
    requires OccursAt(s, lit, i) && off < |lit|
    ensures s[i + off] == lit[off]
  {
    assert s[i + off] == s[i..i + |lit|][off];
  }
}
