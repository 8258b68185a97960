/**
 * The root site's configurable navigation (src/lib/navigation-config.ts):
 * registry lookup, per-device visible items, breadcrumbs found by a
 * depth-first search of the dropdown tree, conversion badges, and the
 * navigation A/B test and its hash-based variant choice.
 */
module SiteNavigation {
  import opened Wrappers
  import opened Seqs
  import opened Strings
  import opened JsNum

  /**
   * A navigation entry; an absent optional flag is `false` and an absent
   * dropdown is the empty list (the search treats both alike: it finds nothing in either).
   */
  datatype SiteNavItem = SiteNavItem(
    id: string,
    title: string,
    href: string,
    badge: Option<string>,
    dropdown: seq<SiteNavItem>,
    hidden: bool,
    mobileOnly: bool,
    desktopOnly: bool)

  datatype NavConfig = NavConfig(id: string, name: string, description: string, items: seq<SiteNavItem>, cta: Option<SiteNavItem>)

  // ---------------------------------------------------------------------------
  // Registry and visibility
  // ---------------------------------------------------------------------------

  /**
   * `getNavigationConfig`: lookup in the main registry merged with the
   * landing-page one, whose entries win on equal keys; `null` when absent.
   */
  function GetNavigationConfig(navs: map<string, NavConfig>, landing: map<string, NavConfig>, id: string): (r: Option<NavConfig>)
    ensures id in landing ==> r == Some(landing[id])
    ensures id !in landing && id in navs ==> r == Some(navs[id])
    ensures r.None? <==> id !in navs && id !in landing
  {
    var all := navs + landing;
    if id in all then Some(all[id]) else None
  }

  /** An item is shown unless hidden or restricted to the other device. */
  function VisibleOn(isMobile: bool): SiteNavItem -> bool
  {
    (item: SiteNavItem) => !item.hidden && !(isMobile && item.desktopOnly) && !(!isMobile && item.mobileOnly)
  }

  /** `getVisibleItems`: the config's items shown on the device, in order. */
  function GetVisibleItems(config: NavConfig, isMobile: bool): (r: seq<SiteNavItem>)
    ensures forall x :: x in r <==>
      x in config.items && !x.hidden && (isMobile ==> !x.desktopOnly) && (!isMobile ==> !x.mobileOnly)
    ensures IsSubseq(r, config.items)
  {
    FilterIsSubseq(config.items, VisibleOn(isMobile));
    Filter(config.items, VisibleOn(isMobile))
  }

  /** An item is shown on both devices exactly when it is neither hidden nor device-restricted. */
  lemma VisibleOnBothDevices(config: NavConfig, x: SiteNavItem)
    ensures x in GetVisibleItems(config, true) && x in GetVisibleItems(config, false) <==>
      x in config.items && !x.hidden && !x.mobileOnly && !x.desktopOnly
  {
  }

  /** The device-restricted items are split: none is shown on both. */
  lemma RestrictedItemsSplit(config: NavConfig)
    ensures forall x :: x in GetVisibleItems(config, true) && x.mobileOnly ==> x !in GetVisibleItems(config, false)
    ensures forall x :: x in GetVisibleItems(config, false) && x.desktopOnly ==> x !in GetVisibleItems(config, true)
  {
  }

  // ---------------------------------------------------------------------------
  // Breadcrumbs
  // ---------------------------------------------------------------------------

  const Home: SiteNavItem := SiteNavItem("home", "Home", "/", None, [], false, false, false)

  /** Some item in the tree below `items`, at any depth, links to `path`. */
  ghost predicate HasHref(items: seq<SiteNavItem>, path: string)
    decreases items
  {
    |items| > 0 &&
      (items[0].href == path || HasHref(items[0].dropdown, path) || HasHref(items[1..], path))
  }

  /**
   * `ancestors` is a chain of dropdowns from `items` down to `item`: the
   * first ancestor is among `items`, each next one in the previous one's
   * dropdown, and `item` in the last one's (or among `items` when there are none).
   */
  ghost predicate IsTrail(items: seq<SiteNavItem>, ancestors: seq<SiteNavItem>, item: SiteNavItem)
    decreases |ancestors|
  {
    if |ancestors| == 0 then item in items
    else ancestors[0] in items && IsTrail(ancestors[0].dropdown, ancestors[1..], item)
  }

  /** The item linking to the path, with its ancestors outermost first. */
  datatype Trail = Trail(ancestors: seq<SiteNavItem>, item: SiteNavItem)

  /**
   * The depth-first search of `findInItems`: each item's own href is tried
   * before its dropdown, and its dropdown before the following items.
   */
  function Locate(items: seq<SiteNavItem>, path: string): (r: Option<Trail>)
    ensures r.Some? ==> r.value.item.href == path && IsTrail(items, r.value.ancestors, r.value.item)
    ensures r.None? <==> !HasHref(items, path)
    decreases items
  {
    if |items| == 0 then None
    else if items[0].href == path then Some(Trail([], items[0]))
    else
      var inner := Locate(items[0].dropdown, path);
      if inner.Some? then
        var r := Trail([items[0]] + inner.value.ancestors, inner.value.item);
        assert r.ancestors[1..] == inner.value.ancestors;
        Some(r)
      else
        var rest := Locate(items[1..], path);
        if rest.Some? then
          assert IsTrail(items, rest.value.ancestors, rest.value.item) by {
            TrailInSuffix(items, rest.value.ancestors, rest.value.item);
          }
          rest
        else rest
  }

  lemma TrailInSuffix(items: seq<SiteNavItem>, ancestors: seq<SiteNavItem>, item: SiteNavItem)
    requires |items| > 0 && IsTrail(items[1..], ancestors, item)
    ensures IsTrail(items, ancestors, item)
  {
    if |ancestors| == 0 {
      assert item in items[1..];
    } else {
      assert ancestors[0] in items[1..];
    }
  }

  /** `buildBreadcrumbs` as intended: Home, the ancestors outermost first, then the matching item. */
  function BuildBreadcrumbs(path: string, config: NavConfig): (r: seq<SiteNavItem>)
    ensures |r| >= 1 && r[0] == Home
    ensures !HasHref(config.items, path) ==> r == [Home]
    ensures HasHref(config.items, path) ==>
      |r| >= 2 && r[|r| - 1].href == path && IsTrail(config.items, r[1..|r| - 1], r[|r| - 1])
  {
    match Locate(config.items, path)
    case None => [Home]
    case Some(t) =>
      var r := [Home] + t.ancestors + [t.item];
      assert r[1..|r| - 1] == t.ancestors;
      r
  }

  /** A top-level match gives [Home, item]; a match one dropdown down gives [Home, parent, child]. */
  lemma BreadcrumbsShallow(path: string, config: NavConfig)
    requires HasHref(config.items, path)
    ensures var r := BuildBreadcrumbs(path, config);
      (|r| == 2 ==> r[1] in config.items && r[1].href == path)
      && (|r| == 3 ==> r[1] in config.items && r[2] in r[1].dropdown && r[2].href == path)
  {
    var r := BuildBreadcrumbs(path, config);
    if |r| == 3 {
      var anc := r[1..|r| - 1];
      assert IsTrail(config.items, anc, r[2]);
      assert anc[0] == r[1] && anc[1..] == [];
      assert IsTrail(anc[0].dropdown, anc[1..], r[2]);
    }
  }

  /**
   * `findInItems` as written: it pushes each ancestor onto the breadcrumbs
   * after the search below it has succeeded, so the innermost ancestor is
   * pushed first. A branch that fails pushes nothing.
   */
  function FindInItemsAsWritten(items: seq<SiteNavItem>, path: string): (r: (Option<SiteNavItem>, seq<SiteNavItem>))
    ensures r.0.None? ==> r.1 == []
    decreases items
  {
    if |items| == 0 then (None, [])
    else if items[0].href == path then (Some(items[0]), [])
    else
      var inner := FindInItemsAsWritten(items[0].dropdown, path);
      if inner.0.Some? then (inner.0, inner.1 + [items[0]])
      else FindInItemsAsWritten(items[1..], path)
  }

  function BuildBreadcrumbsAsWritten(path: string, config: NavConfig): (r: seq<SiteNavItem>)
    ensures |r| >= 1 && r[0] == Home
  {
    var (found, pushed) := FindInItemsAsWritten(config.items, path);
    if found.Some? then [Home] + pushed + [found.value] else [Home] + pushed
  }

  function Reverse<T>(s: seq<T>): (r: seq<T>)
    ensures |r| == |s|
    ensures forall i :: 0 <= i < |s| ==> r[i] == s[|s| - 1 - i]
  {
    if |s| == 0 then [] else Reverse(s[1..]) + [s[0]]
  }

  /** The code as written finds the same item but pushes its ancestors in reverse. */
  lemma {:induction false} FindInItemsReversesTrail(items: seq<SiteNavItem>, path: string)
    ensures Locate(items, path).None? ==> FindInItemsAsWritten(items, path) == (None, [])
    ensures Locate(items, path).Some? ==>
      FindInItemsAsWritten(items, path) == (Some(Locate(items, path).value.item), Reverse(Locate(items, path).value.ancestors))
    decreases items
  {
    if |items| > 0 && items[0].href != path {
      FindInItemsReversesTrail(items[0].dropdown, path);
      var inner := Locate(items[0].dropdown, path);
      if inner.Some? {
        var anc := [items[0]] + inner.value.ancestors;
        assert anc[1..] == inner.value.ancestors;
      }
      FindInItemsReversesTrail(items[1..], path);
    }
  }

  /** The as-written breadcrumbs are Home, the ancestors innermost first, then the item. */
  lemma BreadcrumbsAsWrittenReversed(path: string, config: NavConfig)
    ensures var t := Locate(config.items, path);
      BuildBreadcrumbsAsWritten(path, config) ==
        if t.None? then [Home] else [Home] + Reverse(t.value.ancestors) + [t.value.item]
  {
    FindInItemsReversesTrail(config.items, path);
  }

  /** Up to one dropdown level deep, the code as written gives the intended breadcrumbs. */
  lemma BreadcrumbsAgreeWhenShallow(path: string, config: NavConfig)
    requires |BuildBreadcrumbs(path, config)| <= 3
    ensures BuildBreadcrumbsAsWritten(path, config) == BuildBreadcrumbs(path, config)
  {
    BreadcrumbsAsWrittenReversed(path, config);
    var t := Locate(config.items, path);
    if t.Some? {
      assert |t.value.ancestors| <= 1;
      assert Reverse(t.value.ancestors) == t.value.ancestors;
    }
  }

  /**
   * Two dropdown levels down (a top item whose dropdown holds a middle item
   * whose dropdown holds the page) the code as written lists the middle
   * ancestor before the top one.
   */
  lemma DeepBreadcrumbsDiffer(child: SiteNavItem, middle: SiteNavItem, top: SiteNavItem, config: NavConfig)
    requires config.items == [top] && top.dropdown == [middle] && middle.dropdown == [child]
    requires top.href != child.href && middle.href != child.href
    ensures BuildBreadcrumbs(child.href, config) == [Home, top, middle, child]
    ensures BuildBreadcrumbsAsWritten(child.href, config) == [Home, middle, top, child]
  {
    assert Locate(config.items, child.href) == Some(Trail([top, middle], child)) by {
      LocateTwoDown(child, middle, top);
    }
    assert FindInItemsAsWritten(config.items, child.href) == (Some(child), [middle, top]) by {
      FindTwoDown(child, middle, top);
    }
  }

  lemma LocateTwoDown(child: SiteNavItem, middle: SiteNavItem, top: SiteNavItem)
    requires top.dropdown == [middle] && middle.dropdown == [child]
    requires top.href != child.href && middle.href != child.href
    ensures Locate([top], child.href) == Some(Trail([top, middle], child))
  {
    var path := child.href;
    assert [middle][1..] == [] && [top][1..] == [];
    assert Locate([child], path) == Some(Trail([], child));
    assert Locate([middle], path) == Some(Trail([middle], child)) by {
      assert [middle][0].dropdown == [child];
      assert [middle] + [] == [middle];
    }
    assert [top][0].dropdown == [middle];
    assert [top] + [middle] == [top, middle];
  }

  lemma FindTwoDown(child: SiteNavItem, middle: SiteNavItem, top: SiteNavItem)
    requires top.dropdown == [middle] && middle.dropdown == [child]
    requires top.href != child.href && middle.href != child.href
    ensures FindInItemsAsWritten([top], child.href) == (Some(child), [middle, top])
  {
    var path := child.href;
    assert [middle][1..] == [] && [top][1..] == [];
    assert FindInItemsAsWritten([child], path) == (Some(child), []);
    assert FindInItemsAsWritten([middle], path) == (Some(child), [middle]) by {
      assert [middle][0].dropdown == [child];
      assert [] + [middle] == [middle];
    }
    assert [top][0].dropdown == [middle];
    assert [middle] + [top] == [middle, top];
  }

  // ---------------------------------------------------------------------------
  // Conversion badges
  // ---------------------------------------------------------------------------

  datatype ItemMetric = ItemMetric(itemId: string, title: string, clicks: int, conversionRate: real)

  /** JavaScript truthiness of an optional badge: absent and empty are both falsy. */
  predicate HasBadge(item: SiteNavItem)
  {
    item.badge.Some? && item.badge.value != ""
  }

  function MetricFor(id: string): ItemMetric -> bool
  {
    (m: ItemMetric) => m.itemId == id
  }

  /** The first metric recorded for the id converts above 10%. */
  ghost predicate HighConverting(metrics: seq<ItemMetric>, id: string)
  {
    exists j :: 0 <= j < |metrics| && metrics[j].itemId == id && metrics[j].conversionRate > 0.1
      && forall k :: 0 <= k < j ==> metrics[k].itemId != id
  }

  /** The item with a 'Popular' badge when its first metric converts above 10% and it has no badge. */
  function Optimized(item: SiteNavItem, metrics: seq<ItemMetric>): (r: SiteNavItem)
    ensures r == item.(badge := r.badge)
    ensures r.badge == if HighConverting(metrics, item.id) && !HasBadge(item) then Some("Popular") else item.badge
  {
    match Find(metrics, MetricFor(item.id))
    case Some(m) =>
      if m.conversionRate > 0.1 then
        item.(badge := if HasBadge(item) then item.badge else Some("Popular"))
      else item
    case None => item
  }

  function OptimizeItems(items: seq<SiteNavItem>, metrics: seq<ItemMetric>): (r: seq<SiteNavItem>)
    ensures |r| == |items|
    ensures forall i :: 0 <= i < |items| ==> r[i] == Optimized(items[i], metrics)
  {
    if |items| == 0 then [] else [Optimized(items[0], metrics)] + OptimizeItems(items[1..], metrics)
  }

  /**
   * `optimizeNavigationForConversions`: only the top-level items' badges
   * change, and only from none (or empty) to 'Popular'.
   */
  function OptimizeNavigationForConversions(config: NavConfig, metrics: seq<ItemMetric>): (r: NavConfig)
    ensures r == config.(items := r.items)
    ensures |r.items| == |config.items|
    ensures forall i :: 0 <= i < |config.items| ==> r.items[i] == config.items[i].(badge := r.items[i].badge)
    ensures forall i :: 0 <= i < |config.items| ==>
      r.items[i].badge == if HighConverting(metrics, config.items[i].id) && !HasBadge(config.items[i]) then Some("Popular") else config.items[i].badge
  {
    config.(items := OptimizeItems(config.items, metrics))
  }

  /** Optimizing twice with the same data changes nothing more. */
  lemma OptimizeIdempotent(config: NavConfig, metrics: seq<ItemMetric>)
    ensures OptimizeNavigationForConversions(OptimizeNavigationForConversions(config, metrics), metrics)
      == OptimizeNavigationForConversions(config, metrics)
  {
    var once := OptimizeNavigationForConversions(config, metrics);
    var twice := OptimizeNavigationForConversions(once, metrics);
    assert twice.items == once.items;
  }

  // ---------------------------------------------------------------------------
  // A/B testing
  // ---------------------------------------------------------------------------

  datatype TestStatus = Draft | Running | Completed

  datatype VariantCounts = VariantCounts(control: nat, test: nat)

  datatype NavAbTest = NavAbTest(
    id: string,
    name: string,
    control: string,
    test: string,
    trafficSplit: int,
    startDate: nat,
    status: TestStatus,
    clicks: VariantCounts,
    conversions: VariantCounts)

  const TestIdPrefix: string := "nav-test-"

  /** `createNavigationABTest` at clock reading `now` (milliseconds); the split defaults to 50. */
  function CreateNavigationAbTest(name: string, control: string, test: string, trafficSplit: Option<int>, now: nat): (r: NavAbTest)
    ensures r.status == Draft
    ensures r.clicks == VariantCounts(0, 0) && r.conversions == VariantCounts(0, 0)
    ensures r.trafficSplit == if trafficSplit.Some? then trafficSplit.value else 50
    ensures r.name == name && r.control == control && r.test == test && r.startDate == now
    ensures |r.id| > |TestIdPrefix| && r.id[..|TestIdPrefix|] == TestIdPrefix && r.id[|TestIdPrefix|..] == NatToString(now)
  {
    NavAbTest(TestIdPrefix + NatToString(now), name, control, test, trafficSplit.GetOr(50), now, Draft, VariantCounts(0, 0), VariantCounts(0, 0))
  }

  /** Tests created at different clock readings get different ids. */
  lemma AbTestIdsDistinct(name: string, control: string, test: string, split: Option<int>, now1: nat, now2: nat)
    requires now1 != now2
    ensures CreateNavigationAbTest(name, control, test, split, now1).id != CreateNavigationAbTest(name, control, test, split, now2).id
  {
    ParseNatToString(now1);
    ParseNatToString(now2);
  }

  const StandardNav: string := "main-nav-standard"
  const ConversionNav: string := "main-nav-conversion-focused"

  /**
   * `getNavigationVariant`: on the home route the visitor's string hash
   * picks the standard navigation when its magnitude modulo 100 is below 50;
   * every other route gets the standard navigation.
   */
  function NavigationVariant(visitorId: string, route: string): (r: string)
    ensures r == StandardNav || r == ConversionNav
    ensures route != "/" ==> r == StandardNav
    ensures route == "/" ==> (r == StandardNav <==> Abs(StringHash(visitorId)) % 100 < 50)
  {
    if route == "/" then
      if Abs(StringHash(visitorId)) % 100 < 50 then StandardNav else ConversionNav
    else StandardNav
  }

  /** An empty visitor id hashes to 0, so it sees the standard navigation. */
  lemma EmptyVisitorGetsStandard(route: string)
    ensures NavigationVariant("", route) == StandardNav
  {
  }

  /** A one-character visitor id is bucketed by its character code, or by its surrogate pair's hash above U+FFFF. */
  lemma SingleCharVisitor(c: char)
    ensures c as int < 0x10000 ==> NavigationVariant([c], "/") == if (c as int) % 100 < 50 then StandardNav else ConversionNav
    ensures var u := CharUnits(c);
      c as int >= 0x10000 ==> NavigationVariant([c], "/") == if (31 * u[0] + u[1]) % 100 < 50 then StandardNav else ConversionNav
  {
    StringHashSingle(c);
  }
}
