/**
 * The portfolio gallery of the marketing site's service pages
 * (apps/mybenefitsvideos/src/components/sections/service-gallery.tsx): the
 * category and industry filters, the items they let through, the tags and
 * results each card shows, and the "View Full Portfolio" button.
 */
module ServiceGallery {
  import opened Seqs

  /** The fields of a gallery item the section's logic reads. */
  datatype GalleryItem = GalleryItem(id: string, category: string, industry: string, tags: seq<string>, resultCount: nat)

  /** The two filters; "all" lets every item through. */
  datatype GalleryFilters = GalleryFilters(activeCategory: string, activeIndustry: string)

  const InitialFilters := GalleryFilters("all", "all")

  predicate CategoryMatch(item: GalleryItem, category: string)
  {
    category == "all" || item.category == category
  }

  predicate IndustryMatch(item: GalleryItem, industry: string)
  {
    industry == "all" || item.industry == industry
  }

  /** `filteredItems`: the items both filters let through, in their given order. */
  function FilteredItems(items: seq<GalleryItem>, f: GalleryFilters): (r: seq<GalleryItem>)
    ensures forall i :: 0 <= i < |r| ==> r[i] in items
    ensures forall i :: 0 <= i < |r| ==> CategoryMatch(r[i], f.activeCategory) && IndustryMatch(r[i], f.activeIndustry)
    ensures forall i :: 0 <= i < |items| && CategoryMatch(items[i], f.activeCategory) && IndustryMatch(items[i], f.activeIndustry)
                        ==> items[i] in r
    ensures IsSubseq(r, items)
  {
    var p := (item: GalleryItem) => CategoryMatch(item, f.activeCategory) && IndustryMatch(item, f.activeIndustry);
    FilterIsSubseq(items, p);
    Filter(items, p)
  }

  /** With both filters on "all", as the section opens, every item shows in its given order. */
  lemma AllFiltersShowEverything(items: seq<GalleryItem>)
    ensures FilteredItems(items, InitialFilters) == items
  {
    FilterKeepsAll(items, (item: GalleryItem) => CategoryMatch(item, "all") && IndustryMatch(item, "all"));
  }

  /** Filtering by category alone. */
  function ByCategory(items: seq<GalleryItem>, category: string): (r: seq<GalleryItem>)
    ensures |r| <= |items|
  {
    Filter(items, (item: GalleryItem) => CategoryMatch(item, category))
  }

  /** Filtering by industry alone. */
  function ByIndustry(items: seq<GalleryItem>, industry: string): (r: seq<GalleryItem>)
    ensures |r| <= |items|
  {
    Filter(items, (item: GalleryItem) => IndustryMatch(item, industry))
  }

  /** The two filters are independent: applying both is applying one after the other, in either order. */
  lemma {:induction false} FiltersCompose(items: seq<GalleryItem>, f: GalleryFilters)
    ensures FilteredItems(items, f) == ByIndustry(ByCategory(items, f.activeCategory), f.activeIndustry)
    ensures FilteredItems(items, f) == ByCategory(ByIndustry(items, f.activeIndustry), f.activeCategory)
    decreases |items|
  {
    if |items| > 0 {
      FiltersCompose(items[1..], f);
    }
  }

  /** Narrowing a filter from "all" never shows more items. */
  lemma NarrowingShowsFewer(items: seq<GalleryItem>, f: GalleryFilters, category: string, industry: string)
    ensures |FilteredItems(items, f.(activeCategory := category))| <= |FilteredItems(items, f.(activeCategory := "all"))|
    ensures |FilteredItems(items, f.(activeIndustry := industry))| <= |FilteredItems(items, f.(activeIndustry := "all"))|
  {
    FiltersCompose(items, f.(activeCategory := category));
    FiltersCompose(items, f.(activeCategory := "all"));
    FilterKeepsAll(ByIndustry(items, f.activeIndustry), (item: GalleryItem) => CategoryMatch(item, "all"));
    FiltersCompose(items, f.(activeIndustry := industry));
    FiltersCompose(items, f.(activeIndustry := "all"));
    FilterKeepsAll(ByCategory(items, f.activeCategory), (item: GalleryItem) => IndustryMatch(item, "all"));
  }

  /** The "View Full Portfolio" button shows once more than six items pass the filters. */
  predicate ViewMoreShown(items: seq<GalleryItem>, f: GalleryFilters)
  {
    |FilteredItems(items, f)| > 6
  }

  /** As the section opens, the button shows exactly when there are more than six items. */
  lemma ViewMoreAtOpening(items: seq<GalleryItem>)
    ensures ViewMoreShown(items, InitialFilters) <==> |items| > 6
  {
    AllFiltersShowEverything(items);
  }

  /** The grid card shows the first three tags; the list row shows four. */
  function CardTags(item: GalleryItem, isGridView: bool): (r: seq<string>)
    ensures |r| <= (if isGridView then 3 else 4) && |r| <= |item.tags|
    ensures |item.tags| >= (if isGridView then 3 else 4) ==> |r| == (if isGridView then 3 else 4)
    ensures forall i :: 0 <= i < |r| ==> r[i] == item.tags[i]
  {
    Take(item.tags, if isGridView then 3 else 4)
  }

  /** The grid card shows at most two results; the list row shows them all. */
  function ResultsShown(item: GalleryItem, isGridView: bool): (r: nat)
    ensures r <= item.resultCount
    ensures isGridView ==> r == if item.resultCount < 2 then item.resultCount else 2
    ensures !isGridView ==> r == item.resultCount
  {
    if isGridView && item.resultCount > 2 then 2 else item.resultCount
  }
}
