/**
 * Updates of id-keyed lists as the registries perform them: `find` by id
 * and change the element found (nothing when the id is unknown), and the
 * `newOrder.forEach((id, index) => find(id).order = index + 1)` renumbering.
 */
module Keyed {
  import opened Wrappers
  import opened Seqs

  function KeyIs<T>(key: T -> string, id: string): T -> bool
  {
    (x: T) => key(x) == id
  }

  /** No earlier element shares the key of the one at `p`, so `find` by that key reaches it. */
  ghost predicate IsFirstWith<T>(s: seq<T>, key: T -> string, p: nat)
    requires p < |s|
  {
    forall q :: 0 <= q < p ==> key(s[q]) != key(s[p])
  }

  lemma SameKeysSameFirst<T>(a: seq<T>, b: seq<T>, key: T -> string, p: nat)
    requires |a| == |b| && p < |a|
    requires forall i :: 0 <= i < |a| ==> key(a[i]) == key(b[i])
    ensures IsFirstWith(a, key, p) <==> IsFirstWith(b, key, p)
  {
  }

  /** `find(x => key(x) === id)`: the first element with the key. */
  function FirstWith<T>(s: seq<T>, key: T -> string, id: string): (r: Option<T>)
    ensures r.None? <==> forall i :: 0 <= i < |s| ==> key(s[i]) != id
    ensures r.Some? ==> exists p :: 0 <= p < |s| && s[p] == r.value && key(s[p]) == id && IsFirstWith(s, key, p)
  {
    match FindIndex(s, KeyIs(key, id))
    case None => None
    case Some(p) => Some(s[p])
  }

  /** Apply `f` to the first element with the key; an unknown key changes nothing. */
  function UpdateFirst<T>(s: seq<T>, key: T -> string, id: string, f: T -> T): (r: seq<T>)
    ensures |r| == |s|
    ensures forall i :: 0 <= i < |s| ==>
      r[i] == if key(s[i]) == id && IsFirstWith(s, key, i) then f(s[i]) else s[i]
  {
    match FindIndex(s, KeyIs(key, id))
    case None => s
    case Some(p) => s[p := f(s[p])]
  }

  /** The last position at or after `k` where `id` is listed. */
  function LastListed(ids: seq<string>, k: nat, id: string): (r: Option<nat>)
    requires k <= |ids|
    ensures r.Some? ==> k <= r.value < |ids| && ids[r.value] == id
                        && forall m :: r.value < m < |ids| ==> ids[m] != id
    ensures r.None? ==> forall m :: k <= m < |ids| ==> ids[m] != id
    decreases |ids| - k
  {
    if k == |ids| then None
    else match LastListed(ids, k + 1, id)
      case Some(j) => Some(j)
      case None => if ids[k] == id then Some(k) else None
  }

  /** `setOrder` changes the order only: it keeps the key, and a later order overrides an earlier one. */
  ghost predicate OrderSetter<T(!new)>(key: T -> string, setOrder: (T, int) -> T)
  {
    && (forall x, n :: key(setOrder(x, n)) == key(x))
    && (forall x, m, n :: setOrder(setOrder(x, m), n) == setOrder(x, n))
  }

  /** Where an element ends after the listed ids from position `k` on are applied. */
  ghost function Renumbered<T>(x: T, first: bool, key: T -> string, setOrder: (T, int) -> T, ids: seq<string>, k: nat): T
    requires k <= |ids|
  {
    if first && LastListed(ids, k, key(x)).Some? then setOrder(x, LastListed(ids, k, key(x)).value + 1) else x
  }

  lemma RenumberedStep<T(!new)>(x: T, y: T, first: bool, key: T -> string, setOrder: (T, int) -> T, ids: seq<string>, k: nat)
    requires k < |ids| && OrderSetter(key, setOrder)
    requires y == if key(x) == ids[k] && first then setOrder(x, k + 1) else x
    ensures Renumbered(y, first, key, setOrder, ids, k + 1) == Renumbered(x, first, key, setOrder, ids, k)
  {
    assert key(y) == key(x);
  }

  /** The renumbering loop from list position `k` on. */
  function ReorderFrom<T(!new)>(s: seq<T>, key: T -> string, setOrder: (T, int) -> T, ids: seq<string>, k: nat): (r: seq<T>)
    requires k <= |ids| && OrderSetter(key, setOrder)
    ensures |r| == |s|
    ensures forall p :: 0 <= p < |s| ==> r[p] == Renumbered(s[p], IsFirstWith(s, key, p), key, setOrder, ids, k)
    decreases |ids| - k
  {
    if k == |ids| then s
    else
      var next := UpdateFirst(s, key, ids[k], (x: T) => setOrder(x, k + 1));
      var r := ReorderFrom(next, key, setOrder, ids, k + 1);
      assert forall p :: 0 <= p < |s| ==> r[p] == Renumbered(s[p], IsFirstWith(s, key, p), key, setOrder, ids, k) by {
        forall p | 0 <= p < |s|
          ensures r[p] == Renumbered(s[p], IsFirstWith(s, key, p), key, setOrder, ids, k)
        {
          assert key(next[p]) == key(s[p]);
          SameKeysSameFirst(next, s, key, p);
          RenumberedStep(s[p], next[p], IsFirstWith(s, key, p), key, setOrder, ids, k);
        }
      }
      r
  }

  /**
   * The i-th listed id gives order i + 1 to the first element with that id;
   * a later listing of the same id wins, unknown ids are skipped, and
   * elements not reached keep their order.
   */
  function Reorder<T(!new)>(s: seq<T>, key: T -> string, setOrder: (T, int) -> T, ids: seq<string>): (r: seq<T>)
    requires OrderSetter(key, setOrder)
    ensures |r| == |s|
    ensures forall p :: 0 <= p < |s| && key(s[p]) !in ids ==> r[p] == s[p]
    ensures forall p :: 0 <= p < |s| && !IsFirstWith(s, key, p) ==> r[p] == s[p]
    ensures forall p :: 0 <= p < |s| && IsFirstWith(s, key, p) && key(s[p]) in ids ==>
      exists j :: 0 <= j < |ids| && ids[j] == key(s[p]) && r[p] == setOrder(s[p], j + 1)
        && forall m :: j < m < |ids| ==> ids[m] != key(s[p])
  {
    ReorderFrom(s, key, setOrder, ids, 0)
  }
}
