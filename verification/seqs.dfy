/**
 * Sequence helpers shared by the registries, the list UIs and the BMAD
 * pipeline: order-preserving filtering, first-match lookup, prefix taking and
 * a stable sort. JavaScript's `Array.prototype.filter`/`find`/`slice` and
 * Python's list comprehensions map onto these; both `Array.prototype.sort`
 * (ES2019 and later) and Python's `sorted` are stable, which `SortBy` models.
 */
module Seqs {
  import opened Wrappers

  /** `sub` is obtained from `s` by deleting elements, keeping the order. */
  ghost predicate IsSubseq<T>(sub: seq<T>, s: seq<T>)
    decreases |s|
  {
    if |sub| == 0 then true
    else if |s| == 0 then false
    else if sub[0] == s[0] then IsSubseq(sub[1..], s[1..])
    else IsSubseq(sub, s[1..])
  }

  lemma {:induction false} SubseqRefl<T>(s: seq<T>)
    ensures IsSubseq(s, s)
    decreases |s|
  {
    if |s| > 0 {
      SubseqRefl(s[1..]);
    }
  }

  /** The elements of `s` that satisfy `p`, in their original order. */
  function Filter<T>(s: seq<T>, p: T -> bool): (r: seq<T>)
    ensures |r| <= |s|
    ensures forall i :: 0 <= i < |r| ==> p(r[i])
    ensures forall i :: 0 <= i < |r| ==> r[i] in s
    ensures forall i :: 0 <= i < |s| && p(s[i]) ==> s[i] in r
    decreases |s|
  {
    if |s| == 0 then []
    else if p(s[0]) then [s[0]] + Filter(s[1..], p)
    else Filter(s[1..], p)
  }

  lemma {:induction false} FilterIsSubseq<T>(s: seq<T>, p: T -> bool)
    ensures IsSubseq(Filter(s, p), s)
    decreases |s|
  {
    if |s| > 0 {
      FilterIsSubseq(s[1..], p);
      var r := Filter(s, p);
      if p(s[0]) {
        assert r[0] == s[0] && r[1..] == Filter(s[1..], p);
      }
    }
  }

  lemma {:induction false} FilterKeepsAll<T>(s: seq<T>, p: T -> bool)
    requires forall i :: 0 <= i < |s| ==> p(s[i])
    ensures Filter(s, p) == s
    decreases |s|
  {
    if |s| > 0 {
      FilterKeepsAll(s[1..], p);
      assert [s[0]] + s[1..] == s;
    }
  }

  lemma {:induction false} FilterNone<T>(s: seq<T>, p: T -> bool)
    requires forall i :: 0 <= i < |s| ==> !p(s[i])
    ensures Filter(s, p) == []
    decreases |s|
  {
    if |s| > 0 {
      FilterNone(s[1..], p);
    }
  }

  lemma {:induction false} FilterConcat<T>(a: seq<T>, b: seq<T>, p: T -> bool)
    ensures Filter(a + b, p) == Filter(a, p) + Filter(b, p)
    decreases |a|
  {
    if |a| == 0 {
      assert a + b == b;
    } else {
      assert (a + b)[0] == a[0];
      assert (a + b)[1..] == a[1..] + b;
      FilterConcat(a[1..], b, p);
    }
  }

  /** Index of the first element satisfying `p`, as `Array.prototype.findIndex`. */
  function FindIndex<T>(s: seq<T>, p: T -> bool): (r: Option<nat>)
    ensures r.Some? ==> r.value < |s| && p(s[r.value])
    ensures r.Some? ==> forall j :: 0 <= j < r.value ==> !p(s[j])
    ensures r.None? ==> forall j :: 0 <= j < |s| ==> !p(s[j])
    decreases |s|
  {
    if |s| == 0 then None
    else if p(s[0]) then Some(0)
    else match FindIndex(s[1..], p)
      case None => None
      case Some(k) => Some(k + 1)
  }

  /** The first element satisfying `p`, as `Array.prototype.find`. */
  function Find<T>(s: seq<T>, p: T -> bool): (r: Option<T>)
    ensures r.Some? <==> exists i :: 0 <= i < |s| && p(s[i])
    ensures r.Some? ==> r.value in s && p(r.value)
    ensures r.Some? ==> exists i :: 0 <= i < |s| && s[i] == r.value &&
                          forall j :: 0 <= j < i ==> !p(s[j])
  {
    match FindIndex(s, p)
    case None => None
    case Some(i) => Some(s[i])
  }

  /** The first `n` elements, or all of them when there are fewer: `slice(0, n)`. */
  function Take<T>(s: seq<T>, n: int): (r: seq<T>)
    ensures |r| == if n <= 0 then 0 else if n < |s| then n else |s|
    ensures forall i :: 0 <= i < |r| ==> r[i] == s[i]
  {
    if n <= 0 then [] else if n < |s| then s[..n] else s
  }

  /** Ascending order by `key`. */
  ghost predicate SortedBy<T>(s: seq<T>, key: T -> real)
  {
    forall i, j :: 0 <= i < j < |s| ==> key(s[i]) <= key(s[j])
  }

  /** The elements of `s` whose key is exactly `k`, in order. */
  function WithKey<T>(s: seq<T>, key: T -> real, k: real): (r: seq<T>)
    ensures forall i :: 0 <= i < |r| ==> key(r[i]) == k
    decreases |s|
  {
    if |s| == 0 then []
    else if key(s[0]) == k then [s[0]] + WithKey(s[1..], key, k)
    else WithKey(s[1..], key, k)
  }

  /** Places `x` in front of the first element whose key is not smaller. */
  function Insert<T>(x: T, s: seq<T>, key: T -> real): (r: seq<T>)
    requires SortedBy(s, key)
    ensures |r| == |s| + 1
    ensures multiset(r) == multiset(s) + multiset{x}
    ensures SortedBy(r, key)
    decreases |s|
  {
    if |s| == 0 || key(x) <= key(s[0]) then [x] + s
    else
      var rest := Insert(x, s[1..], key);
      InsertedAbove(x, s, rest, key);
      ConsSorted(s[0], rest, key);
      assert s == [s[0]] + s[1..];
      [s[0]] + rest
  }

  /** What is inserted behind the head of a sorted list keys no lower than the head. */
  lemma InsertedAbove<T>(x: T, s: seq<T>, rest: seq<T>, key: T -> real)
    requires |s| > 0 && SortedBy(s, key) && key(s[0]) < key(x)
    requires multiset(rest) == multiset(s[1..]) + multiset{x}
    ensures forall i :: 0 <= i < |rest| ==> key(s[0]) <= key(rest[i])
  {
    forall i | 0 <= i < |rest|
      ensures key(s[0]) <= key(rest[i])
    {
      assert rest[i] in multiset(rest);
      if rest[i] != x {
        assert rest[i] in s[1..];
        var j :| 0 <= j < |s[1..]| && s[1..][j] == rest[i];
        assert s[j + 1] == rest[i];
      }
    }
  }

  lemma ConsSorted<T>(h: T, rest: seq<T>, key: T -> real)
    requires SortedBy(rest, key)
    requires forall i :: 0 <= i < |rest| ==> key(h) <= key(rest[i])
    ensures SortedBy([h] + rest, key)
  {
    var r := [h] + rest;
    forall i, j | 0 <= i < j < |r|
      ensures key(r[i]) <= key(r[j])
    {
      assert r[j] == rest[j - 1];
      if i > 0 {
        assert r[i] == rest[i - 1];
      }
    }
  }

  /**
   * Stable ascending sort by `key`: the result is a sorted permutation of
   * `s` (see `SortByIsStable` for the order among equal keys).
   */
  function SortBy<T>(s: seq<T>, key: T -> real): (r: seq<T>)
    ensures |r| == |s|
    ensures multiset(r) == multiset(s)
    ensures SortedBy(r, key)
    decreases |s|
  {
    if |s| == 0 then []
    else
      var rest := SortBy(s[1..], key);
      assert s == [s[0]] + s[1..];
      Insert(s[0], rest, key)
  }

  /** Sorting keeps exactly the elements it was given. */
  lemma SortByMembers<T>(s: seq<T>, key: T -> real)
    ensures forall x :: x in SortBy(s, key) <==> x in s
  {
    var r := SortBy(s, key);
    forall x ensures x in r <==> x in s {
      assert x in r <==> x in multiset(r);
      assert x in s <==> x in multiset(s);
    }
  }

  function Negated<T>(key: T -> real): T -> real
  {
    (x: T) => -key(x)
  }

  lemma SortedFirstIsMax<T>(sorted: seq<T>, score: T -> real)
    requires |sorted| > 0 && SortedBy(sorted, Negated(score))
    ensures forall x :: x in sorted ==> score(x) <= score(sorted[0])
  {
    forall x | x in sorted ensures score(x) <= score(sorted[0]) {
      var k :| 0 <= k < |sorted| && sorted[k] == x;
      if k > 0 {
        assert Negated(score)(sorted[0]) <= Negated(score)(sorted[k]);
      }
    }
  }

  /**
   * `s.filter(has).sort((a, b) => score(b) - score(a))[0]`: an element with
   * the highest score among those that have one, or none.
   */
  function BestBy<T>(s: seq<T>, has: T -> bool, score: T -> real): (r: Option<T>)
    ensures r.None? <==> forall x :: x in s ==> !has(x)
    ensures r.Some? ==> r.value in s && has(r.value) && forall x :: x in s && has(x) ==> score(x) <= score(r.value)
  {
    var sorted := SortBy(Filter(s, has), Negated(score));
    SortByMembers(Filter(s, has), Negated(score));
    assert forall x :: x in s && has(x) ==> x in sorted by {
      forall x | x in s && has(x) ensures x in sorted {
        var i :| 0 <= i < |s| && s[i] == x;
      }
    }
    assert forall x :: x in sorted ==> x in s && has(x) by {
      forall x | x in sorted ensures x in s && has(x) {
        var f := Filter(s, has);
        assert x in multiset(sorted);
        assert x in f;
        var i :| 0 <= i < |f| && f[i] == x;
      }
    }
    if |sorted| == 0 then None
    else
      SortedFirstIsMax(sorted, score);
      assert sorted[0] in sorted;
      Some(sorted[0])
  }

  lemma {:induction false} InsertWithKey<T>(x: T, s: seq<T>, key: T -> real, k: real)
    requires SortedBy(s, key)
    ensures WithKey(Insert(x, s, key), key, k)
            == (if key(x) == k then [x] else []) + WithKey(s, key, k)
    decreases |s|
  {
    if |s| == 0 || key(x) <= key(s[0]) {
      var r := [x] + s;
      assert r[0] == x && r[1..] == s;
    } else {
      var rest := Insert(x, s[1..], key);
      var r := [s[0]] + rest;
      assert r[0] == s[0] && r[1..] == rest;
      InsertWithKey(x, s[1..], key, k);
    }
  }

  /** Elements with equal keys keep their input order. */
  lemma {:induction false} SortByIsStable<T>(s: seq<T>, key: T -> real, k: real)
    ensures WithKey(SortBy(s, key), key, k) == WithKey(s, key, k)
    decreases |s|
  {
    if |s| > 0 {
      SortByIsStable(s[1..], key, k);
      InsertWithKey(s[0], SortBy(s[1..], key), key, k);
    }
  }

  /** `r` lists the elements of every key value of `s` in the order `s` has them. */
  ghost predicate SameTieOrder<T>(r: seq<T>, s: seq<T>, key: T -> real)
  {
    forall k :: WithKey(r, key, k) == WithKey(s, key, k)
  }

  /** Stability for every key value at once. */
  lemma SortByKeepsTieOrder<T>(s: seq<T>, key: T -> real)
    ensures SameTieOrder(SortBy(s, key), s, key)
  {
    forall k ensures WithKey(SortBy(s, key), key, k) == WithKey(s, key, k) {
      SortByIsStable(s, key, k);
    }
  }

  /** Selecting by two keys gives the same elements in either order. */
  lemma {:induction false} WithKeyCommute<T>(s: seq<T>, key1: T -> real, k1: real, key2: T -> real, k2: real)
    ensures WithKey(WithKey(s, key1, k1), key2, k2) == WithKey(WithKey(s, key2, k2), key1, k1)
    decreases |s|
  {
    if |s| > 0 {
      WithKeyCommute(s[1..], key1, k1, key2, k2);
      var a := WithKey(s[1..], key1, k1);
      var b := WithKey(s[1..], key2, k2);
      if key1(s[0]) == k1 {
        assert ([s[0]] + a)[1..] == a;
      }
      if key2(s[0]) == k2 {
        assert ([s[0]] + b)[1..] == b;
      }
    }
  }

  /** Sorting a sequence that is already in order changes nothing. */
  lemma {:induction false} SortBySorted<T>(s: seq<T>, key: T -> real)
    requires SortedBy(s, key)
    ensures SortBy(s, key) == s
    decreases |s|
  {
    if |s| > 0 {
      SortBySorted(s[1..], key);
      assert s == [s[0]] + s[1..];
    }
  }

  /** When `p` holds on the first `k` elements and on none after, the filter is that prefix. */
  lemma {:induction false} FilterPrefix<T>(s: seq<T>, p: T -> bool, k: nat)
    requires k <= |s|
    requires forall i :: 0 <= i < k ==> p(s[i])
    requires forall i :: k <= i < |s| ==> !p(s[i])
    ensures Filter(s, p) == s[..k]
    decreases |s|
  {
    if |s| > 0 {
      if k > 0 {
        FilterPrefix(s[1..], p, k - 1);
        assert s[..k] == [s[0]] + s[1..][..k - 1];
      } else {
        FilterPrefix(s[1..], p, 0);
      }
    }
  }

  /** Among elements with equal `key1`, ascending `key2`. */
  ghost predicate TiesSortedBy<T>(s: seq<T>, key1: T -> real, key2: T -> real)
  {
    forall i, j :: 0 <= i < j < |s| && key1(s[i]) == key1(s[j]) ==> key2(s[i]) <= key2(s[j])
  }

  lemma {:induction false} InsertKeepsTies<T>(x: T, t: seq<T>, key1: T -> real, key2: T -> real)
    requires SortedBy(t, key1) && TiesSortedBy(t, key1, key2)
    requires forall y :: y in t ==> key2(x) <= key2(y)
    ensures TiesSortedBy(Insert(x, t, key1), key1, key2)
    decreases |t|
  {
    if |t| == 0 || key1(x) <= key1(t[0]) {
      FrontTies(x, t, key1, key2);
    } else {
      var rest := Insert(x, t[1..], key1);
      TailSortedTies(t, key1, key2);
      forall y | y in t[1..] ensures key2(x) <= key2(y) {
        var m :| 0 <= m < |t[1..]| && t[1..][m] == y;
        assert y == t[m + 1];
      }
      InsertKeepsTies(x, t[1..], key1, key2);
      HeadTies(x, t, rest, key1, key2);
      assert [t[0]] + rest == Insert(x, t, key1);
    }
  }

  /** An element no greater in `key2` than any of `t` keeps the ties ordered at the front. */
  lemma FrontTies<T>(x: T, t: seq<T>, key1: T -> real, key2: T -> real)
    requires TiesSortedBy(t, key1, key2)
    requires forall y :: y in t ==> key2(x) <= key2(y)
    ensures TiesSortedBy([x] + t, key1, key2)
  {
    var r := [x] + t;
    forall i, j | 0 <= i < j < |r| && key1(r[i]) == key1(r[j])
      ensures key2(r[i]) <= key2(r[j])
    {
      assert r[j] == t[j - 1];
      if i > 0 {
        assert r[i] == t[i - 1];
      } else {
        assert t[j - 1] in t;
      }
    }
  }

  lemma TailSortedTies<T>(t: seq<T>, key1: T -> real, key2: T -> real)
    requires |t| > 0 && SortedBy(t, key1) && TiesSortedBy(t, key1, key2)
    ensures SortedBy(t[1..], key1) && TiesSortedBy(t[1..], key1, key2)
  {
    forall i, j | 0 <= i < j < |t[1..]| ensures key1(t[1..][i]) <= key1(t[1..][j]) {
      assert t[1..][i] == t[i + 1] && t[1..][j] == t[j + 1];
    }
    forall i, j | 0 <= i < j < |t[1..]| && key1(t[1..][i]) == key1(t[1..][j])
      ensures key2(t[1..][i]) <= key2(t[1..][j])
    {
      assert t[1..][i] == t[i + 1] && t[1..][j] == t[j + 1];
    }
  }

  /** Behind a head of smaller `key1` than `x`, the ties of the inserted tail stay ordered. */
  lemma HeadTies<T>(x: T, t: seq<T>, rest: seq<T>, key1: T -> real, key2: T -> real)
    requires |t| > 0 && key1(t[0]) < key1(x) && TiesSortedBy(t, key1, key2) && TiesSortedBy(rest, key1, key2)
    requires multiset(rest) == multiset(t[1..]) + multiset{x}
    ensures TiesSortedBy([t[0]] + rest, key1, key2)
  {
    var r := [t[0]] + rest;
    forall i, j | 0 <= i < j < |r| && key1(r[i]) == key1(r[j])
      ensures key2(r[i]) <= key2(r[j])
    {
      if i > 0 {
        assert r[i] == rest[i - 1] && r[j] == rest[j - 1];
      } else {
        var y := rest[j - 1];
        assert y in multiset(rest);
        if y != x {
          assert y in multiset(t[1..]);
          var m :| 0 <= m < |t[1..]| && t[1..][m] == y;
          assert y == t[m + 1];
        }
      }
    }
  }

  /**
   * A stable sort by `key1` of a sequence already sorted by `key2` orders
   * ties in `key1` by `key2`: sorting by `key2` and then by `key1` is
   * sorting by the pair (`key1`, `key2`).
   */
  lemma {:induction false} SortByKeepsTies<T>(s: seq<T>, key1: T -> real, key2: T -> real)
    requires SortedBy(s, key2)
    ensures TiesSortedBy(SortBy(s, key1), key1, key2)
    decreases |s|
  {
    if |s| > 0 {
      assert SortedBy(s[1..], key2) by {
        forall i, j | 0 <= i < j < |s[1..]| ensures key2(s[1..][i]) <= key2(s[1..][j]) {
          assert s[1..][i] == s[i + 1] && s[1..][j] == s[j + 1];
        }
      }
      SortByKeepsTies(s[1..], key1, key2);
      var rest := SortBy(s[1..], key1);
      forall y | y in rest ensures key2(s[0]) <= key2(y) {
        assert y in multiset(rest);
        assert y in multiset(s[1..]);
        var m :| 0 <= m < |s[1..]| && s[1..][m] == y;
        assert y == s[m + 1];
      }
      InsertKeepsTies(s[0], rest, key1, key2);
    }
  }

  /** No element occurs twice. */
  predicate NoDuplicates<T(==)>(s: seq<T>)
  {
    forall i, j :: 0 <= i < j < |s| ==> s[i] != s[j]
  }

  /** The elements of `s` not in `seen`, each at its first occurrence. */
  function DedupFrom<T(==,!new)>(s: seq<T>, seen: set<T>): (r: seq<T>)
    ensures forall x :: x in r <==> x in s && x !in seen
    ensures NoDuplicates(r)
    ensures IsSubseq(r, s)
    decreases |s|
  {
    if |s| == 0 then []
    else if s[0] in seen then
      var rest := DedupFrom(s[1..], seen);
      assert |rest| > 0 ==> rest[0] != s[0] by {
        if |rest| > 0 { assert rest[0] in rest; }
      }
      rest
    else
      var rest := DedupFrom(s[1..], seen + {s[0]});
      var r := [s[0]] + rest;
      assert r[1..] == rest;
      assert forall x :: x in r <==> x == s[0] || x in rest;
      assert forall x :: x in s <==> x == s[0] || x in s[1..] by {
        assert s == [s[0]] + s[1..];
      }
      r
  }

  /** The elements of `s` from position `i` on that do not occur before their position, in order. */
  function FirstsFrom<T(==)>(s: seq<T>, i: nat): (r: seq<T>)
    requires i <= |s|
    decreases |s| - i
  {
    if i == |s| then []
    else (if s[i] in s[..i] then [] else [s[i]]) + FirstsFrom(s, i + 1)
  }

  /** Each element of `s` at its first occurrence, in the order of those occurrences. */
  function FirstOccurrences<T(==)>(s: seq<T>): (r: seq<T>)
  {
    FirstsFrom(s, 0)
  }

  lemma {:induction false} DedupFromFirsts<T(!new)>(s: seq<T>, i: nat, seen: set<T>)
    requires i <= |s|
    requires forall x :: x in seen <==> x in s[..i]
    ensures DedupFrom(s[i..], seen) == FirstsFrom(s, i)
    decreases |s| - i
  {
    if i < |s| {
      var t := s[i..];
      assert t[0] == s[i] && t[1..] == s[i + 1..];
      assert s[..i + 1] == s[..i] + [s[i]];
      if s[i] in s[..i] {
        DedupFromFirsts(s, i + 1, seen);
      } else {
        DedupFromFirsts(s, i + 1, seen + {s[i]});
      }
    }
  }

  /** `Array.from(new Set(s))`: the distinct elements in order of first occurrence. */
  function Dedup<T(==,!new)>(s: seq<T>): (r: seq<T>)
    ensures forall x :: x in r <==> x in s
    ensures NoDuplicates(r)
    ensures IsSubseq(r, s)
    ensures r == FirstOccurrences(s)
  {
    DedupFromFirsts(s, 0, {});
    assert s[0..] == s;
    DedupFrom(s, {})
  }
}
