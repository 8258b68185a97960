/**
 * "Load more" paging of the case-study list
 * (apps/mybenefitsvideos/src/components/ui/case-study-grid.tsx): how many
 * studies show, the button with its remaining count, and the closing line.
 * The half-second delay before a load lands is not modelled.
 */
module CaseStudyGrid {
  import opened Seqs

  /** The studies shown: `slice(0, displayCount)`. */
  function Visible<T>(studies: seq<T>, displayCount: nat): (r: seq<T>)
    ensures |r| == if displayCount < |studies| then displayCount else |studies|
    ensures r == studies[..|r|]
  {
    var r := Take(studies, displayCount);
    assert r == studies[..|r|];
    r
  }

  /** `hasMore`. */
  predicate HasMore<T>(studies: seq<T>, displayCount: nat)
  {
    displayCount < |studies|
  }

  /** `loadMore`: one more page, never past the end of the list. */
  function LoadMore(displayCount: nat, perPage: nat, length: nat): (r: nat)
    ensures r <= length
    ensures displayCount <= length ==> displayCount <= r
    ensures r == length <==> displayCount + perPage >= length
  {
    if displayCount + perPage < length then displayCount + perPage else length
  }

  /** A load shows what was shown plus the next page. */
  lemma LoadMoreAppends<T>(studies: seq<T>, displayCount: nat, perPage: nat)
    requires displayCount <= |studies|
    ensures var next := LoadMore(displayCount, perPage, |studies|);
      Visible(studies, next) == Visible(studies, displayCount) + studies[displayCount..next]
  {
    var next := LoadMore(displayCount, perPage, |studies|);
    assert studies[..next] == studies[..displayCount] + studies[displayCount..next];
  }

  function LoadTimes(displayCount: nat, perPage: nat, length: nat, k: nat): nat
    decreases k
  {
    if k == 0 then displayCount else LoadMore(LoadTimes(displayCount, perPage, length, k - 1), perPage, length)
  }

  /** Starting from one page, k loads show k + 1 pages or the whole list. */
  lemma {:induction false} LoadsShowPages(perPage: nat, length: nat, k: nat)
    requires perPage <= length
    ensures LoadTimes(perPage, perPage, length, k) == if (k + 1) * perPage < length then (k + 1) * perPage else length
    decreases k
  {
    if k > 0 {
      LoadsShowPages(perPage, length, k - 1);
      var shown, next := k * perPage, (k + 1) * perPage;
      assert LoadTimes(perPage, perPage, length, k - 1) == if shown < length then shown else length by {
        assert k - 1 + 1 == k;
      }
      assert next == shown + perPage by {
        MulSucc(k, perPage);
      }
    }
  }

  lemma MulSucc(k: nat, p: nat)
    ensures (k + 1) * p == k * p + p
  {
  }

  /** With a page of at least one study, enough loads reach the end of the list and the button goes away. */
  lemma LoadsReachEnd(perPage: nat, length: nat)
    requires 0 < perPage <= length
    ensures !(LoadTimes(perPage, perPage, length, length) < length)
  {
    LoadsShowPages(perPage, length, length);
    assert (length + 1) * perPage >= length by {
      assert (length + 1) * perPage == length * perPage + perPage;
      assert length * perPage >= length;
    }
  }

  /** What the component renders. */
  datatype Screen<T> =
    | LoadingScreen
    | NoResults
    | Listing(shown: seq<T>, remaining: int, loadMoreButton: bool, endMessage: bool)

  /**
   * The render: the spinner while loading, "No case studies found" for an
   * empty list, otherwise the visible studies, the load-more button with
   * the count still hidden while there are more, and the closing line once
   * everything shows on a list longer than one page.
   */
  function Render<T>(studies: seq<T>, displayCount: nat, perPage: nat, isLoading: bool): (r: Screen<T>)
    ensures isLoading ==> r == LoadingScreen
    ensures !isLoading && |studies| == 0 ==> r == NoResults
    ensures r.Listing? ==> |r.shown| <= |studies| && r.shown == studies[..|r.shown|]
    ensures r.Listing? ==> (r.loadMoreButton <==> |r.shown| < |studies|)
    ensures r.Listing? && r.loadMoreButton ==> r.remaining > 0 && |r.shown| + r.remaining == |studies|
    ensures r.Listing? ==> (r.endMessage <==> |r.shown| == |studies| && |studies| > perPage)
  {
    if isLoading then LoadingScreen
    else if |studies| == 0 then NoResults
    else Listing(Visible(studies, displayCount), |studies| - displayCount, HasMore(studies, displayCount),
                 !HasMore(studies, displayCount) && |studies| > perPage)
  }

  /** A list that fits on one page never shows the closing line. */
  lemma OnePageNoEndMessage<T>(studies: seq<T>, displayCount: nat, perPage: nat)
    requires 0 < |studies| <= perPage
    ensures !Render(studies, displayCount, perPage, false).endMessage
  {
  }
}
