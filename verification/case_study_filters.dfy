/**
 * The case-study filter panel (preview/src/components/ui/case-study-filters.tsx):
 * the filter record, replacing one of its entries, resetting it, and the
 * "active filters" flag and badge count. ROI and engagement ranges are
 * whole percentages.
 */
module CaseStudyFilters {

  datatype FilterState = FilterState(
    industry: string,
    companySize: string,
    videoType: string,
    service: string,
    roiRange: (int, int),
    engagementRange: (int, int),
    showFeaturedOnly: bool,
    sortBy: string)

  /** The entries of the record, as `keyof FilterState`. */
  datatype Key = Industry | CompanySize | VideoType | Service | RoiRange | EngagementRange | ShowFeaturedOnly | SortBy

  /** A value an entry can hold. */
  datatype Value = Text(text: string) | Range(lo: int, hi: int) | Flag(flag: bool)

  function Get(f: FilterState, k: Key): Value
  {
    match k
    case Industry => Text(f.industry)
    case CompanySize => Text(f.companySize)
    case VideoType => Text(f.videoType)
    case Service => Text(f.service)
    case RoiRange => Range(f.roiRange.0, f.roiRange.1)
    case EngagementRange => Range(f.engagementRange.0, f.engagementRange.1)
    case ShowFeaturedOnly => Flag(f.showFeaturedOnly)
    case SortBy => Text(f.sortBy)
  }

  /** The value has the entry's type. */
  predicate Fits(k: Key, v: Value)
  {
    match k
    case RoiRange => v.Range?
    case EngagementRange => v.Range?
    case ShowFeaturedOnly => v.Flag?
    case _ => v.Text?
  }

  /** Two records that agree on every entry are the same record. */
  lemma GetDetermines(f: FilterState, g: FilterState)
    requires forall k :: Get(f, k) == Get(g, k)
    ensures f == g
  {
    assert Get(f, Industry) == Get(g, Industry);
    assert Get(f, CompanySize) == Get(g, CompanySize);
    assert Get(f, VideoType) == Get(g, VideoType);
    assert Get(f, Service) == Get(g, Service);
    assert Get(f, RoiRange) == Get(g, RoiRange);
    assert Get(f, EngagementRange) == Get(g, EngagementRange);
    assert Get(f, ShowFeaturedOnly) == Get(g, ShowFeaturedOnly);
    assert Get(f, SortBy) == Get(g, SortBy);
  }

  /** `updateFilter(key, value)`: `{...filters, [key]: value}`; the entry takes the value and no other entry changes. */
  function UpdateFilter(f: FilterState, k: Key, v: Value): (r: FilterState)
    requires Fits(k, v)
    ensures Get(r, k) == v
    ensures forall other :: other != k ==> Get(r, other) == Get(f, other)
  {
    match k
    case Industry => f.(industry := v.text)
    case CompanySize => f.(companySize := v.text)
    case VideoType => f.(videoType := v.text)
    case Service => f.(service := v.text)
    case RoiRange => f.(roiRange := (v.lo, v.hi))
    case EngagementRange => f.(engagementRange := (v.lo, v.hi))
    case ShowFeaturedOnly => f.(showFeaturedOnly := v.flag)
    case SortBy => f.(sortBy := v.text)
  }

  /** Writing back an entry's own value changes nothing. */
  lemma UpdateWithSameValue(f: FilterState, k: Key)
    ensures Fits(k, Get(f, k)) && UpdateFilter(f, k, Get(f, k)) == f
  {
    var r := UpdateFilter(f, k, Get(f, k));
    GetDetermines(r, f);
  }

  /** A later update of the same entry overrides the earlier one. */
  lemma UpdateTwice(f: FilterState, k: Key, v: Value, w: Value)
    requires Fits(k, v) && Fits(k, w)
    ensures UpdateFilter(UpdateFilter(f, k, v), k, w) == UpdateFilter(f, k, w)
  {
    var a := UpdateFilter(UpdateFilter(f, k, v), k, w);
    var b := UpdateFilter(f, k, w);
    forall other ensures Get(a, other) == Get(b, other) {
      if other != k {
        assert Get(a, other) == Get(UpdateFilter(f, k, v), other);
      }
    }
    GetDetermines(a, b);
  }

  /** The record the panel starts from and `clearAllFilters` returns to. */
  const Defaults := FilterState("All", "All", "All", "All", (200, 600), (200, 500), false, "featured")

  /** The ranges lie within the sliders' bounds, 200..600 and 200..500. */
  predicate InSliderBounds(f: FilterState)
  {
    200 <= f.roiRange.0 && f.roiRange.1 <= 600 && 200 <= f.engagementRange.0 && f.engagementRange.1 <= 500
  }

  /** `hasActiveFilters`: a text filter other than "All", a range narrowed at either end, or featured-only. The sort order is not a filter. */
  predicate HasActiveFilters(f: FilterState): (ok: bool)
    ensures InSliderBounds(f) ==> (ok <==> f != Defaults.(sortBy := f.sortBy))
  {
    || f.industry != "All"
    || f.companySize != "All"
    || f.videoType != "All"
    || f.service != "All"
    || f.roiRange.0 > 200
    || f.roiRange.1 < 600
    || f.engagementRange.0 > 200
    || f.engagementRange.1 < 500
    || f.showFeaturedOnly
  }

  function Count(b: bool): nat
  {
    if b then 1 else 0
  }

  predicate RoiNarrowed(f: FilterState)
  {
    f.roiRange.0 > 200 || f.roiRange.1 < 600
  }

  predicate EngagementNarrowed(f: FilterState)
  {
    f.engagementRange.0 > 200 || f.engagementRange.1 < 500
  }

  /**
   * `getActiveFilterCount`: one for each of the seven filters in use, a
   * range counting once however many of its ends are moved; it is positive
   * exactly when `hasActiveFilters` holds.
   */
  function ActiveFilterCount(f: FilterState): (r: nat)
    ensures r <= 7
    ensures r > 0 <==> HasActiveFilters(f)
  {
    Count(f.industry != "All") + Count(f.companySize != "All") + Count(f.videoType != "All")
    + Count(f.service != "All") + Count(RoiNarrowed(f)) + Count(EngagementNarrowed(f))
    + Count(f.showFeaturedOnly)
  }

  /** Moving both ends of the ROI range counts the same as moving one. */
  lemma RangeCountsOnce(f: FilterState, lo: int, hi: int)
    requires lo > 200 && hi < 600
    ensures ActiveFilterCount(f.(roiRange := (lo, hi))) == ActiveFilterCount(f.(roiRange := (lo, 600)))
    ensures ActiveFilterCount(f.(roiRange := (lo, hi))) == ActiveFilterCount(f.(roiRange := (200, 600))) + 1
  {
  }

  /** A range widened past its default bounds is not counted as a filter, although it changes what passes. */
  lemma WidenedRangeInactive(lo: int, hi: int)
    requires lo <= 200 && hi >= 600
    ensures !HasActiveFilters(Defaults.(roiRange := (lo, hi)))
  {
  }

  /** Changing only the sort order leaves the count alone. */
  lemma SortIsNotCounted(f: FilterState, sortBy: string)
    ensures ActiveFilterCount(UpdateFilter(f, SortBy, Text(sortBy))) == ActiveFilterCount(f)
  {
  }

  /** Every filter in use at once gives seven. */
  lemma AllSevenCount(f: FilterState)
    requires f.industry != "All" && f.companySize != "All" && f.videoType != "All" && f.service != "All"
    requires f.roiRange.1 < 600 && f.engagementRange.0 > 200 && f.showFeaturedOnly
    ensures ActiveFilterCount(f) == 7
  {
  }

  /** `clearAllFilters`: the defaults, with nothing active, a zero count and the featured-first order. */
  function ClearAllFilters(f: FilterState): (r: FilterState)
    ensures !HasActiveFilters(r) && ActiveFilterCount(r) == 0
    ensures r.sortBy == "featured"
    ensures forall k :: k != SortBy && k != RoiRange && k != EngagementRange ==> Get(r, k) == Get(Defaults, k)
  {
    Defaults
  }
}
