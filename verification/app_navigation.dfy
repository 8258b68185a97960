/**
 * The marketing site's primary navigation registry
 * (apps/mybenefitsvideos/src/lib/navigation-config.ts): the active items in
 * display order, status and order updates, lookup, and the mobile subset.
 *
 * The source mutates a module-level array in place; here each update takes
 * the list and returns the updated one.
 */
module AppNavigation {
  import opened Wrappers
  import opened Seqs
  import opened Keyed

  datatype NavType = Link | Dropdown | MegaMenu | Cta

  datatype NavItem = NavItem(id: string, title: string, href: Option<string>, navType: NavType, active: bool, order: int)

  predicate IsActive(item: NavItem)
  {
    item.active
  }

  function OrderKey(item: NavItem): real
  {
    item.order as real
  }

  function NavId(item: NavItem): string
  {
    item.id
  }

  function WithOrder(item: NavItem, order: int): NavItem
  {
    item.(order := order)
  }

  function WithActive(active: bool): NavItem -> NavItem
  {
    (item: NavItem) => item.(active := active)
  }

  /** `getActiveNavItems`: the active items, ascending by order. */
  function ActiveNavItems(nav: seq<NavItem>): (r: seq<NavItem>)
    ensures forall x :: x in r <==> x in nav && x.active
    ensures multiset(r) == multiset(Filter(nav, IsActive))
    ensures SortedBy(r, OrderKey)
  {
    var active := Filter(nav, IsActive);
    var r := SortBy(active, OrderKey);
    assert forall x :: x in r <==> x in active by {
      forall x ensures x in r <==> x in active {
        assert x in r <==> x in multiset(r);
        assert x in active <==> x in multiset(active);
      }
    }
    r
  }

  /** Items with the same order keep their registry order (the sort is stable). */
  lemma ActiveNavItemsStable(nav: seq<NavItem>, order: int)
    ensures WithKey(ActiveNavItems(nav), OrderKey, order as real) == WithKey(Filter(nav, IsActive), OrderKey, order as real)
  {
    SortByIsStable(Filter(nav, IsActive), OrderKey, order as real);
  }

  /** `getNavItemById`: the first item with the id. */
  function NavItemById(nav: seq<NavItem>, id: string): (r: Option<NavItem>)
    ensures r.None? <==> forall i :: 0 <= i < |nav| ==> nav[i].id != id
    ensures r.Some? ==> exists p :: 0 <= p < |nav| && nav[p] == r.value && r.value.id == id && IsFirstWith(nav, NavId, p)
  {
    FirstWith(nav, NavId, id)
  }

  /** `updateNavItemStatus`: set `active` on the first item with the id; unknown ids change nothing. */
  function UpdateNavItemStatus(nav: seq<NavItem>, id: string, active: bool): (r: seq<NavItem>)
    ensures |r| == |nav|
    ensures forall i :: 0 <= i < |nav| ==> r[i] == nav[i].(active := r[i].active)
    ensures forall i :: 0 <= i < |nav| ==>
      r[i].active == if nav[i].id == id && IsFirstWith(nav, NavId, i) then active else nav[i].active
  {
    UpdateFirst(nav, NavId, id, WithActive(active))
  }

  /** An unknown id leaves the registry as it was. */
  lemma UpdateUnknownIsNoOp(nav: seq<NavItem>, id: string, active: bool)
    requires NavItemById(nav, id).None?
    ensures UpdateNavItemStatus(nav, id, active) == nav
  {
  }

  /** After an update, lookup by the id finds the item with the new status. */
  lemma UpdateThenLookup(nav: seq<NavItem>, id: string, active: bool)
    requires NavItemById(nav, id).Some?
    ensures var found := NavItemById(UpdateNavItemStatus(nav, id, active), id);
      found == Some(NavItemById(nav, id).value.(active := active))
  {
    var r := UpdateNavItemStatus(nav, id, active);
    var p :| 0 <= p < |nav| && nav[p] == NavItemById(nav, id).value && nav[p].id == id && IsFirstWith(nav, NavId, p);
    var q :| 0 <= q < |r| && r[q] == NavItemById(r, id).value && r[q].id == id && IsFirstWith(r, NavId, q);
    assert r[p].id == id && r[q] == nav[q].(active := r[q].active);
  }

  /**
   * `reorderNavItems`: the i-th listed id gets order i + 1. A later listing
   * of the same id wins, unknown ids are skipped and unlisted items keep
   * their order; nothing but `order` changes.
   */
  function ReorderNavItems(nav: seq<NavItem>, ids: seq<string>): (r: seq<NavItem>)
    ensures |r| == |nav|
    ensures forall p :: 0 <= p < |nav| ==> r[p] == nav[p].(order := r[p].order)
    ensures forall p :: 0 <= p < |nav| && nav[p].id !in ids ==> r[p].order == nav[p].order
    ensures forall p :: 0 <= p < |nav| && !IsFirstWith(nav, NavId, p) ==> r[p] == nav[p]
    ensures forall p :: 0 <= p < |nav| && IsFirstWith(nav, NavId, p) && nav[p].id in ids ==>
      && 1 <= r[p].order <= |ids|
      && ids[r[p].order - 1] == nav[p].id
      && forall m :: r[p].order <= m < |ids| ==> ids[m] != nav[p].id
  {
    Reorder(nav, NavId, WithOrder, ids)
  }

  /** Listing every id once, in a new order, numbers the items 1, 2, … in that order. */
  lemma ReorderByPermutation(nav: seq<NavItem>, ids: seq<string>, p: nat, i: nat)
    requires p < |nav| && i < |ids| && ids[i] == nav[p].id
    requires forall a, b :: 0 <= a < b < |ids| ==> ids[a] != ids[b]
    requires forall q :: 0 <= q < |nav| && q != p ==> nav[q].id != nav[p].id
    ensures ReorderNavItems(nav, ids)[p].order == i + 1
  {
    var r := ReorderNavItems(nav, ids);
    assert IsFirstWith(nav, NavId, p);
    assert nav[p].id in ids;
    var j := r[p].order - 1;
    assert ids[j] == nav[p].id;
  }

  /** `shouldShowNavItem`: hidden when inactive; the user context is not consulted. */
  predicate ShouldShowNavItem(item: NavItem): (ok: bool)
    ensures ok <==> ActiveNavItems([item]) == [item]
  {
    item.active
  }

  /** The per-item check and the list agree: a registry item shows exactly when `getActiveNavItems` lists it. */
  lemma ShownExactlyWhenListed(nav: seq<NavItem>, item: NavItem)
    requires item in nav
    ensures ShouldShowNavItem(item) <==> item in ActiveNavItems(nav)
  {
  }

  const MobilePrimaryIds: set<string> := {"services", "solutions", "pricing", "get-quote"}

  predicate IsMobilePrimary(item: NavItem)
  {
    item.active && item.id in MobilePrimaryIds
  }

  /**
   * The registry positions `mobileNavigation.primaryItems` captures from
   * position `k` on: the active items among services, solutions, pricing and
   * get-quote, in registry order.
   */
  function SnapshotFrom(loaded: seq<NavItem>, k: nat): (r: seq<nat>)
    requires k <= |loaded|
    ensures forall j :: 0 <= j < |r| ==> k <= r[j] < |loaded| && IsMobilePrimary(loaded[r[j]])
    ensures forall p :: k <= p < |loaded| && IsMobilePrimary(loaded[p]) ==> p in r
    ensures forall a, b :: 0 <= a < b < |r| ==> r[a] < r[b]
    decreases |loaded| - k
  {
    if k == |loaded| then []
    else if IsMobilePrimary(loaded[k]) then [k] + SnapshotFrom(loaded, k + 1)
    else SnapshotFrom(loaded, k + 1)
  }

  /**
   * `mobileNavigation.primaryItems` is computed once, when the module loads:
   * it holds the registry objects chosen from the registry as it was then.
   */
  function MobileSnapshot(loaded: seq<NavItem>): (r: seq<nat>)
    ensures forall j :: 0 <= j < |r| ==> r[j] < |loaded| && IsMobilePrimary(loaded[r[j]])
    ensures forall p :: 0 <= p < |loaded| && IsMobilePrimary(loaded[p]) ==> p in r
    ensures forall a, b :: 0 <= a < b < |r| ==> r[a] < r[b]
  {
    SnapshotFrom(loaded, 0)
  }

  /** The objects at the positions `ps`, read in the registry `current`. */
  function At(current: seq<NavItem>, ps: seq<nat>): (r: seq<NavItem>)
    requires forall j :: 0 <= j < |ps| ==> ps[j] < |current|
    ensures |r| == |ps|
    ensures forall j :: 0 <= j < |ps| ==> r[j] == current[ps[j]]
  {
    if |ps| == 0 then [] else [current[ps[0]]] + At(current, ps[1..])
  }

  /**
   * `mobileNavigation.primaryItems` read after any number of updates: the
   * objects captured at load, each in its current state. Updates change
   * fields in place and never add or remove registry items, hence the
   * equal lengths.
   */
  function MobilePrimaryItems(loaded: seq<NavItem>, current: seq<NavItem>): (r: seq<NavItem>)
    requires |current| == |loaded|
    ensures |r| == |MobileSnapshot(loaded)|
    ensures forall x :: x in r <==> exists p :: 0 <= p < |loaded| && IsMobilePrimary(loaded[p]) && x == current[p]
  {
    var ps := MobileSnapshot(loaded);
    var r := At(current, ps);
    assert forall p :: 0 <= p < |loaded| && IsMobilePrimary(loaded[p]) ==> current[p] in r by {
      forall p | 0 <= p < |loaded| && IsMobilePrimary(loaded[p]) ensures current[p] in r {
        var j :| 0 <= j < |ps| && ps[j] == p;
        assert r[j] == current[p];
      }
    }
    r
  }

  lemma {:induction false} SnapshotFromIsFilter(loaded: seq<NavItem>, k: nat)
    requires k <= |loaded|
    ensures At(loaded, SnapshotFrom(loaded, k)) == Filter(loaded[k..], IsMobilePrimary)
    decreases |loaded| - k
  {
    if k < |loaded| {
      SnapshotFromIsFilter(loaded, k + 1);
      var rest := SnapshotFrom(loaded, k + 1);
      var tail := loaded[k..];
      assert tail[0] == loaded[k] && tail[1..] == loaded[k + 1..];
      if IsMobilePrimary(loaded[k]) {
        assert Filter(tail, IsMobilePrimary) == [loaded[k]] + Filter(loaded[k + 1..], IsMobilePrimary);
        assert SnapshotFrom(loaded, k) == [k] + rest;
        assert ([k] + rest)[1..] == rest;
      } else {
        assert Filter(tail, IsMobilePrimary) == Filter(loaded[k + 1..], IsMobilePrimary);
      }
    }
  }

  /** At load the snapshot is the source's filter: the active mobile items in registry order. */
  lemma MobileAtLoad(loaded: seq<NavItem>)
    ensures MobilePrimaryItems(loaded, loaded) == Filter(loaded, IsMobilePrimary)
  {
    SnapshotFromIsFilter(loaded, 0);
    assert loaded[0..] == loaded;
  }

  /** At load every mobile primary item is among the active items shown on desktop. */
  lemma MobileItemsAreActive(loaded: seq<NavItem>)
    ensures forall x :: x in MobilePrimaryItems(loaded, loaded) ==> x.active && x in ActiveNavItems(loaded)
  {
  }

  /** `current` is `loaded` after in-place updates: same items, same ids. */
  predicate SameIds(loaded: seq<NavItem>, current: seq<NavItem>)
  {
    |current| == |loaded| && forall p :: 0 <= p < |loaded| ==> current[p].id == loaded[p].id
  }

  /** Status and order updates change fields in place and keep every id. */
  lemma UpdatesKeepIds(nav: seq<NavItem>, id: string, active: bool, ids: seq<string>)
    ensures SameIds(nav, UpdateNavItemStatus(nav, id, active))
    ensures SameIds(nav, ReorderNavItems(nav, ids))
  {
  }

  /** Which items the mobile menu holds never changes: the ids are those chosen at load. */
  lemma MobileIdsFixed(loaded: seq<NavItem>, current: seq<NavItem>)
    requires SameIds(loaded, current)
    ensures |MobilePrimaryItems(loaded, current)| == |Filter(loaded, IsMobilePrimary)|
    ensures forall j :: 0 <= j < |MobilePrimaryItems(loaded, current)| ==>
      MobilePrimaryItems(loaded, current)[j].id == Filter(loaded, IsMobilePrimary)[j].id
  {
    MobileAtLoad(loaded);
  }

  /**
   * Deactivating a captured item leaves it in the mobile menu, inactive,
   * while `getActiveNavItems` drops it.
   */
  lemma DeactivatedStaysInMobile(loaded: seq<NavItem>, p: nat)
    requires p < |loaded| && IsMobilePrimary(loaded[p]) && IsFirstWith(loaded, NavId, p)
    ensures var current := UpdateNavItemStatus(loaded, loaded[p].id, false);
      && current[p] in MobilePrimaryItems(loaded, current)
      && current[p].id == loaded[p].id && !current[p].active
      && current[p] !in ActiveNavItems(current)
  {
  }
}
