/**
 * String helpers over `seq<char>`: decimal printing (JavaScript template
 * interpolation of an integer, Python `str`/`format`), Python's `{:,}`
 * thousands grouping, prefix and substring tests, ASCII lower-casing,
 * single-character split and join, JavaScript `trim`, and first/all
 * occurrence replacement.
 */
module Strings {

  predicate IsDigit(c: char) { '0' <= c <= '9' }

  predicate AllDigits(s: string) { forall i :: 0 <= i < |s| ==> IsDigit(s[i]) }

  function DigitChar(d: nat): (c: char)
    requires d < 10
    ensures IsDigit(c) && c as int - '0' as int == d
  {
    ('0' as int + d) as char
  }

  function DigitValue(c: char): (d: nat)
    requires IsDigit(c)
    ensures d < 10 && DigitChar(d) == c
  {
    c as int - '0' as int
  }

  /** Decimal rendering of a natural number, without leading zeros. */
  function NatToString(n: nat): (s: string)
    ensures |s| >= 1 && AllDigits(s)
    ensures |s| > 1 ==> s[0] != '0'
    decreases n
  {
    if n < 10 then [DigitChar(n)] else NatToString(n / 10) + [DigitChar(n % 10)]
  }

  /** Value of a string of decimal digits. */
  function ParseNat(s: string): (n: nat)
    requires AllDigits(s)
    decreases |s|
  {
    if |s| == 0 then 0 else ParseNat(s[..|s| - 1]) * 10 + DigitValue(s[|s| - 1])
  }

  lemma {:induction false} ParseNatToString(n: nat)
    ensures ParseNat(NatToString(n)) == n
    decreases n
  {
    var s := NatToString(n);
    if n >= 10 {
      ParseNatToString(n / 10);
      assert s[..|s| - 1] == NatToString(n / 10);
    }
  }

  function Pow10(k: nat): (p: nat)
    ensures p >= 1
    ensures k >= 1 ==> p >= 10
  {
    if k == 0 then 1 else 10 * Pow10(k - 1)
  }

  /** A number has at most `k` digits exactly when it is below 10^k. */
  lemma {:induction false} NatToStringLength(n: nat, k: nat)
    requires k >= 1
    ensures |NatToString(n)| <= k <==> n < Pow10(k)
    decreases n
  {
    if n >= 10 {
      assert |NatToString(n)| == |NatToString(n / 10)| + 1;
      if k > 1 {
        NatToStringLength(n / 10, k - 1);
        assert n / 10 < Pow10(k - 1) <==> n < 10 * Pow10(k - 1);
      }
    }
  }

  /** A digit string without a leading zero is how its value is written. */
  lemma {:induction false} NatToStringParse(d: string)
    requires |d| >= 1 && AllDigits(d) && d[0] != '0'
    ensures NatToString(ParseNat(d)) == d
    ensures ParseNat(d) >= 1
    decreases |d|
  {
    var init := d[..|d| - 1];
    var v := DigitValue(d[|d| - 1]);
    if |init| == 0 {
      assert d == [d[0]];
      assert ParseNat(d) == v;
    } else {
      assert init[0] == d[0];
      NatToStringParse(init);
      var m := ParseNat(init);
      var n := ParseNat(d);
      assert n == m * 10 + v;
      DivTen(n, m, v);
      assert NatToString(n) == NatToString(m) + [DigitChar(v)];
      assert d == init + [d[|d| - 1]];
    }
  }

  /** Only zero is written with a leading '0'. */
  lemma LeadingDigit(n: nat)
    requires n >= 1
    ensures NatToString(n)[0] != '0'
  {
    if n < 10 {
      assert NatToString(n) == [DigitChar(n)];
    }
  }

  /** Decimal rendering of an integer, with a leading '-' when negative. */
  function IntToString(i: int): (s: string)
    ensures i >= 0 ==> s == NatToString(i)
    ensures i < 0 ==> s == "-" + NatToString(-i)
  {
    if i < 0 then "-" + NatToString(-i) else NatToString(i)
  }

  /** Digits of `n` grouped by commas in threes, as Python's `{:,}`. */
  function GroupThousands(n: nat): (s: string)
    ensures |s| >= 1
    decreases n
  {
    if n < 1000 then NatToString(n)
    else GroupThousands(n / 1000) + "," + Pad3(n % 1000)
  }

  function Pad3(n: nat): (s: string)
    requires n < 1000
    ensures |s| == 3 && AllDigits(s)
  {
    [DigitChar(n / 10 / 10), DigitChar(n / 10 % 10), DigitChar(n % 10)]
  }

  /** Python `f"{i:,}"` for an integer. */
  function FormatThousands(i: int): (s: string)
    ensures i < 0 ==> s == "-" + GroupThousands(-i)
    ensures i >= 0 ==> s == GroupThousands(i)
  {
    if i < 0 then "-" + GroupThousands(-i) else GroupThousands(i)
  }

  /** Deleting the commas from the grouped form gives the plain decimal form. */
  lemma {:induction false} GroupThousandsDigits(n: nat)
    ensures RemoveChar(GroupThousands(n), ',') == NatToString(n)
    decreases n
  {
    if n < 1000 {
      NoCharRemoved(NatToString(n), ',');
    } else {
      GroupThousandsDigits(n / 1000);
      assert GroupThousands(n) == GroupThousands(n / 1000) + ("," + Pad3(n % 1000));
      RemoveSeparatorJoin(GroupThousands(n / 1000), Pad3(n % 1000), ',');
      NatToStringSplit(n);
    }
  }

  /** Joining by a separator before a run of digits, then deleting the separators. */
  lemma RemoveSeparatorJoin(hi: string, lo: string, c: char)
    requires AllDigits(lo) && !IsDigit(c)
    ensures RemoveChar(hi + ([c] + lo), c) == RemoveChar(hi, c) + lo
  {
    var tail := RemoveChar([c] + lo, c);
    RemoveCharConcat(hi, [c] + lo, c);
    assert tail == lo by {
      RemoveCharConcat([c], lo, c);
      assert [c][1..] == [];
      assert RemoveChar([c], c) == [];
      NoCharRemoved(lo, c);
    }
  }

  lemma DivTen(n: int, q: int, r: int)
    requires n == 10 * q + r && 0 <= r < 10
    ensures n / 10 == q && n % 10 == r
  {
  }

  lemma NatToStringSplit(n: nat)
    requires n >= 1000
    ensures NatToString(n / 1000) + Pad3(n % 1000) == NatToString(n)
  {
    var q, m := n / 1000, n % 1000;
    var a, b := 100 * q + m / 10, 10 * q + m / 10 / 10;
    DivTen(n, a, m % 10);
    DivTen(a, b, m / 10 % 10);
    DivTen(b, q, m / 10 / 10);
    assert NatToString(n) == NatToString(a) + [DigitChar(m % 10)];
    assert NatToString(a) == NatToString(b) + [DigitChar(m / 10 % 10)];
    assert NatToString(b) == NatToString(q) + [DigitChar(m / 10 / 10)];
  }

  function RemoveChar(s: string, c: char): (r: string)
    ensures c !in r
    decreases |s|
  {
    if |s| == 0 then "" else (if s[0] == c then "" else [s[0]]) + RemoveChar(s[1..], c)
  }

  lemma {:induction false} NoCharRemoved(s: string, c: char)
    requires AllDigits(s) && !IsDigit(c)
    ensures RemoveChar(s, c) == s
    decreases |s|
  {
    if |s| > 0 {
      NoCharRemoved(s[1..], c);
      assert [s[0]] + s[1..] == s;
    }
  }

  lemma {:induction false} RemoveCharConcat(a: string, b: string, c: char)
    ensures RemoveChar(a + b, c) == RemoveChar(a, c) + RemoveChar(b, c)
    decreases |a|
  {
    if |a| == 0 {
      assert a + b == b;
    } else {
      var head := if a[0] == c then "" else [a[0]];
      assert (a + b)[0] == a[0] && (a + b)[1..] == a[1..] + b;
      assert RemoveChar(a + b, c) == head + RemoveChar(a[1..] + b, c);
      assert RemoveChar(a, c) == head + RemoveChar(a[1..], c);
      RemoveCharConcat(a[1..], b, c);
      assert head + (RemoveChar(a[1..], c) + RemoveChar(b, c)) == (head + RemoveChar(a[1..], c)) + RemoveChar(b, c);
    }
  }

  /** `s.startsWith(p)` / `s.indexOf(p) === 0`. */
  predicate StartsWith(s: string, p: string)
  {
    |p| <= |s| && s[..|p|] == p
  }

  lemma PrefixOfConcat(a: string, b: string)
    ensures StartsWith(a + b, a)
  {
    assert (a + b)[..|a|] == a;
  }

  /** `p` occurs in `s` at position `i`. */
  predicate OccursAt(s: string, p: string, i: int)
  {
    0 <= i && i + |p| <= |s| && s[i..i + |p|] == p
  }

  /** `s.includes(p)` / Python `p in s`. */
  predicate Contains(s: string, p: string)
    decreases |s|
  {
    StartsWith(s, p) || (|s| > 0 && Contains(s[1..], p))
  }

  lemma {:induction false} ContainsIff(s: string, p: string)
    ensures Contains(s, p) <==> exists i :: OccursAt(s, p, i)
    decreases |s|
  {
    if StartsWith(s, p) {
      assert OccursAt(s, p, 0);
    } else if |s| > 0 {
      ContainsIff(s[1..], p);
      if exists i :: OccursAt(s[1..], p, i) {
        var i :| OccursAt(s[1..], p, i);
        assert s[i + 1..i + 1 + |p|] == s[1..][i..i + |p|];
        assert OccursAt(s, p, i + 1);
      }
      if exists i :: OccursAt(s, p, i) {
        var i :| OccursAt(s, p, i);
        assert i != 0;
        assert s[1..][i - 1..i - 1 + |p|] == s[i..i + |p|];
        assert OccursAt(s[1..], p, i - 1);
      }
    }
  }

  lemma StartsWithContains(s: string, p: string)
    requires StartsWith(s, p)
    ensures Contains(s, p)
  {
  }

  /** A pattern whose first character never appears in `s` does not occur in it. */
  lemma FirstCharAbsent(s: string, p: string)
    requires |p| > 0 && p[0] !in s
    ensures !Contains(s, p)
  {
    ContainsIff(s, p);
  }

  function LowerChar(c: char): (d: char)
    ensures 'A' <= c <= 'Z' ==> d as int == c as int + 32
    ensures !('A' <= c <= 'Z') ==> d == c
  {
    if 'A' <= c <= 'Z' then (c as int + 32) as char else c
  }

  /** `toLowerCase()` / `lower()` restricted to the ASCII letters. */
  function Lower(s: string): (r: string)
    ensures |r| == |s|
    ensures forall i :: 0 <= i < |s| ==> r[i] == LowerChar(s[i])
  {
    seq(|s|, i requires 0 <= i < |s| => LowerChar(s[i]))
  }

  lemma LowerConcat(a: string, b: string)
    ensures Lower(a + b) == Lower(a) + Lower(b)
  {
    assert forall i :: 0 <= i < |a + b| ==> Lower(a + b)[i] == (Lower(a) + Lower(b))[i];
  }

  /** Text found in `a` is still found once more text follows it. */
  lemma ContainsInPrefix(a: string, b: string, p: string)
    requires Contains(a, p)
    ensures Contains(a + b, p)
  {
    ContainsIff(a, p);
    ContainsIff(a + b, p);
    var i :| OccursAt(a, p, i);
    assert (a + b)[i..i + |p|] == a[i..i + |p|];
    assert OccursAt(a + b, p, i);
  }

  /** `parts.join(sep)` / `sep.join(parts)`. */
  function Join(parts: seq<string>, sep: string): (r: string)
    decreases |parts|
  {
    if |parts| == 0 then ""
    else if |parts| == 1 then parts[0]
    else parts[0] + sep + Join(parts[1..], sep)
  }

  /** A property every character of the parts and of the separator has, every character of the join has. */
  lemma {:induction false} JoinKeeps(parts: seq<string>, sep: string, ok: char -> bool)
    requires forall i, k :: 0 <= i < |parts| && 0 <= k < |parts[i]| ==> ok(parts[i][k])
    requires forall k :: 0 <= k < |sep| ==> ok(sep[k])
    ensures forall k :: 0 <= k < |Join(parts, sep)| ==> ok(Join(parts, sep)[k])
    decreases |parts|
  {
    if |parts| > 1 {
      JoinKeeps(parts[1..], sep, ok);
      var rest := Join(parts[1..], sep);
      var r := parts[0] + sep + rest;
      forall k | 0 <= k < |r|
        ensures ok(r[k])
      {
        if k < |parts[0]| {
          assert r[k] == parts[0][k];
        } else if k < |parts[0]| + |sep| {
          assert r[k] == sep[k - |parts[0]|];
        } else {
          assert r[k] == rest[k - |parts[0]| - |sep|];
        }
      }
    }
  }

  /** `s.split(c)` for a one-character separator: never empty. */
  function Split(s: string, c: char): (parts: seq<string>)
    ensures |parts| >= 1
    ensures forall k :: 0 <= k < |parts| ==> c !in parts[k]
    decreases |s|
  {
    if |s| == 0 then [""]
    else
      var rest := Split(s[1..], c);
      if s[0] == c then [""] + rest
      else [[s[0]] + rest[0]] + rest[1..]
  }

  /** Joining the pieces of a split with its separator restores the string. */
  lemma {:induction false} JoinSplit(s: string, c: char)
    ensures Join(Split(s, c), [c]) == s
    decreases |s|
  {
    if |s| > 0 {
      var rest := Split(s[1..], c);
      JoinSplit(s[1..], c);
      if s[0] == c {
        assert Split(s, c) == [""] + rest;
        assert ([""] + rest)[1..] == rest;
      } else {
        var parts := [[s[0]] + rest[0]] + rest[1..];
        assert Split(s, c) == parts;
        if |rest| == 1 {
          assert parts == [[s[0]] + rest[0]];
        } else {
          assert parts[1..] == rest[1..];
          assert Join(rest, [c]) == rest[0] + [c] + Join(rest[1..], [c]);
        }
      }
      assert s == [s[0]] + s[1..];
    }
  }

  /** The first piece of a split runs up to the first separator (or to the end). */
  lemma {:induction false} SplitFirst(s: string, c: char, i: nat)
    requires i <= |s| && c !in s[..i] && (i == |s| || s[i] == c)
    ensures Split(s, c)[0] == s[..i]
    decreases |s|
  {
    if |s| > 0 && i > 0 {
      assert s[1..][..i - 1] == s[1..i];
      assert s[..i] == [s[0]] + s[1..][..i - 1];
      SplitFirst(s[1..], c, i - 1);
      assert s[..i] == [s[0]] + s[1..i];
    }
  }

  /** A string without the separator splits into itself alone. */
  lemma {:induction false} SplitNoSep(s: string, c: char)
    requires c !in s
    ensures Split(s, c) == [s]
    decreases |s|
  {
    if |s| > 0 {
      SplitNoSep(s[1..], c);
      assert [s[0]] + s[1..] == s;
    }
  }

  /** Splitting at the first separator: the piece before it, then the split of the rest. */
  lemma {:induction false} SplitConcat(a: string, b: string, c: char)
    requires c !in a
    ensures Split(a + [c] + b, c) == [a] + Split(b, c)
    decreases |a|
  {
    var s := a + [c] + b;
    if |a| == 0 {
      assert s == [c] + b && s[1..] == b;
    } else {
      SplitConcat(a[1..], b, c);
      assert s[0] == a[0] && s[1..] == a[1..] + [c] + b;
      assert [a[0]] + a[1..] == a;
    }
  }

  /** Every string starts with the first piece of its split. */
  lemma {:induction false} SplitFirstIsPrefix(s: string, c: char)
    ensures StartsWith(s, Split(s, c)[0])
    decreases |s|
  {
    if |s| > 0 {
      SplitFirstIsPrefix(s[1..], c);
      if s[0] != c {
        var rest := Split(s[1..], c);
        assert Split(s, c)[0] == [s[0]] + rest[0];
        assert s[..|rest[0]| + 1] == [s[0]] + s[1..][..|rest[0]|];
      }
    }
  }

  /** `Array.prototype.pop()` on the pieces of a split: the text after the last `c`. */
  function AfterLast(s: string, c: char): (r: string)
    ensures c !in r
  {
    var parts := Split(s, c);
    parts[|parts| - 1]
  }

  /** Text after a separator that holds no further separator ends the split. */
  lemma {:induction false} SplitLastAfter(a: string, b: string, c: char)
    requires c !in b
    ensures |Split(a + [c] + b, c)| >= 2
    ensures AfterLast(a + [c] + b, c) == b
    decreases |a|
  {
    var s := a + [c] + b;
    SplitNoSep(b, c);
    if |a| == 0 {
      assert s == [c] + b && s[1..] == b;
    } else {
      SplitLastAfter(a[1..], b, c);
      assert s[0] == a[0] && s[1..] == a[1..] + [c] + b;
    }
  }

  /** Without the separator, the whole string is its last piece. */
  lemma AfterLastNoSep(s: string, c: char)
    requires c !in s
    ensures AfterLast(s, c) == s
  {
    SplitNoSep(s, c);
  }

  /** Characters that JavaScript's `String.prototype.trim` strips. */
  predicate IsJsSpace(c: char)
  {
    c == ' ' || c == '\t' || c == '\n' || c == '\r' || c == '\U{000B}' || c == '\U{000C}'
    || c == '\U{00A0}' || c == '\U{1680}' || ('\U{2000}' <= c <= '\U{200A}')
    || c == '\U{2028}' || c == '\U{2029}' || c == '\U{202F}' || c == '\U{205F}'
    || c == '\U{3000}' || c == '\U{FEFF}'
  }

  function TrimStart(s: string): (r: string)
    ensures |r| <= |s| && r == s[|s| - |r|..]
    ensures |r| > 0 ==> !IsJsSpace(r[0])
    ensures forall i :: 0 <= i < |s| - |r| ==> IsJsSpace(s[i])
    decreases |s|
  {
    if |s| > 0 && IsJsSpace(s[0]) then
      var t := TrimStart(s[1..]);
      assert forall i :: 1 <= i < |s| - |t| ==> s[i] == s[1..][i - 1];
      t
    else s
  }

  function TrimEnd(s: string): (r: string)
    ensures |r| <= |s| && r == s[..|r|]
    ensures |r| > 0 ==> !IsJsSpace(r[|r| - 1])
    ensures forall i :: |r| <= i < |s| ==> IsJsSpace(s[i])
    decreases |s|
  {
    if |s| > 0 && IsJsSpace(s[|s| - 1]) then TrimEnd(s[..|s| - 1]) else s
  }

  /** `s.trim()`: neither end of the result is whitespace. */
  function Trim(s: string): (r: string)
    ensures |r| > 0 ==> !IsJsSpace(r[0]) && !IsJsSpace(r[|r| - 1])
    ensures |r| <= |s|
  {
    TrimEnd(TrimStart(s))
  }

  /** JavaScript `s.replace(pat, rep)` with a string pattern: the first occurrence only. */
  function ReplaceFirst(s: string, pat: string, rep: string): (r: string)
    ensures !Contains(s, pat) ==> r == s
    ensures StartsWith(s, pat) ==> r == rep + s[|pat|..]
    decreases |s|
  {
    if StartsWith(s, pat) then rep + s[|pat|..]
    else if |s| == 0 then s
    else [s[0]] + ReplaceFirst(s[1..], pat, rep)
  }

  /** Python `s.replace(pat, rep)`: every non-overlapping occurrence, left to right. */
  function ReplaceAll(s: string, pat: string, rep: string): (r: string)
    ensures |pat| > 0 && !Contains(s, pat) ==> r == s
    decreases |s|
  {
    if |pat| == 0 then
      (if |s| == 0 then rep else rep + [s[0]] + ReplaceAll(s[1..], pat, rep))
    else if StartsWith(s, pat) then rep + ReplaceAll(s[|pat|..], pat, rep)
    else if |s| == 0 then s
    else [s[0]] + ReplaceAll(s[1..], pat, rep)
  }

  /** A pattern one of whose characters never appears in `s` does not occur in it. */
  lemma CharAbsent(s: string, p: string, k: nat)
    requires k < |p| && p[k] !in s
    ensures !Contains(s, p)
  {
    ContainsIff(s, p);
    forall i | 0 <= i && i + |p| <= |s|
      ensures !OccursAt(s, p, i)
    {
      assert s[i..i + |p|][k] == s[i + k];
      assert s[i + k] in s;
    }
  }

  /** A leading occurrence is replaced and the scan resumes after it. */
  lemma ReplaceAllLeading(pat: string, s: string, rep: string)
    requires |pat| > 0
    ensures ReplaceAll(pat + s, pat, rep) == rep + ReplaceAll(s, pat, rep)
  {
    assert (pat + s)[..|pat|] == pat;
    assert (pat + s)[|pat|..] == s;
  }

  /** A prefix in which no occurrence of `pat` starts is copied unchanged. */
  lemma {:induction false} ReplaceAllSkip(x: string, y: string, pat: string, rep: string)
    requires |pat| > 0
    requires forall i :: 0 <= i < |x| ==> !StartsWith((x + y)[i..], pat)
    ensures ReplaceAll(x + y, pat, rep) == x + ReplaceAll(y, pat, rep)
    decreases |x|
  {
    if |x| == 0 {
      assert x + y == y;
    } else {
      var s, t, tail := x + y, x[1..], ReplaceAll(y, pat, rep);
      assert ReplaceAll(s, pat, rep) == [x[0]] + ReplaceAll(t + y, pat, rep) by {
        assert s[0..] == s;
        assert s[0] == x[0] && s[1..] == t + y;
        ReplaceAllStep(s, pat, rep);
      }
      assert ReplaceAll(t + y, pat, rep) == t + tail by {
        NoStartAfterFirst(x, y, pat);
        ReplaceAllSkip(t, y, pat, rep);
      }
      ConsAssoc(x, tail);
    }
  }

  lemma ConsAssoc(x: string, u: string)
    requires |x| > 0
    ensures [x[0]] + (x[1..] + u) == x + u
  {
    assert x == [x[0]] + x[1..];
  }

  /** Without an occurrence at the front, the first character is copied and the scan moves on. */
  lemma ReplaceAllStep(s: string, pat: string, rep: string)
    requires |pat| > 0 && |s| > 0 && !StartsWith(s, pat)
    ensures ReplaceAll(s, pat, rep) == [s[0]] + ReplaceAll(s[1..], pat, rep)
  {
  }

  lemma NoStartAfterFirst(x: string, y: string, pat: string)
    requires |x| > 0
    requires forall i {:trigger StartsWith((x + y)[i..], pat)} :: 0 <= i < |x| ==> !StartsWith((x + y)[i..], pat)
    ensures forall i {:trigger StartsWith((x[1..] + y)[i..], pat)} :: 0 <= i < |x[1..]| ==> !StartsWith((x[1..] + y)[i..], pat)
  {
    forall i | 0 <= i < |x[1..]|
      ensures !StartsWith((x[1..] + y)[i..], pat)
    {
      assert (x[1..] + y)[i..] == (x + y)[i + 1..];
    }
  }

  /** No occurrence starts inside `x` when the pattern's first character is not in `x`. */
  lemma ReplaceAllSkipFirstChar(x: string, y: string, pat: string, rep: string)
    requires |pat| > 0 && pat[0] !in x
    ensures ReplaceAll(x + y, pat, rep) == x + ReplaceAll(y, pat, rep)
  {
    forall i | 0 <= i < |x|
      ensures !StartsWith((x + y)[i..], pat)
    {
      assert (x + y)[i..][0] == x[i];
    }
    ReplaceAllSkip(x, y, pat, rep);
  }

  /**
   * No occurrence starts inside `x` when the pattern's second character is
   * neither in `x` nor at the front of `y`.
   */
  lemma ReplaceAllSkipSecondChar(x: string, y: string, pat: string, rep: string)
    requires |pat| >= 2 && pat[1] !in x && (|y| > 0 ==> y[0] != pat[1])
    ensures ReplaceAll(x + y, pat, rep) == x + ReplaceAll(y, pat, rep)
  {
    forall i | 0 <= i < |x|
      ensures !StartsWith((x + y)[i..], pat)
    {
      if |pat| <= |(x + y)[i..]| {
        assert (x + y)[i..][1] == (x + y)[i + 1];
        if i + 1 < |x| {
          assert (x + y)[i + 1] == x[i + 1];
          assert x[i + 1] in x;
        } else {
          assert (x + y)[i + 1] == y[0];
        }
      }
    }
    ReplaceAllSkip(x, y, pat, rep);
  }
}
