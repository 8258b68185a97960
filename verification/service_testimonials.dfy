/**
 * The testimonial section of the preview's service pages
 * (preview/src/components/sections/service-testimonials.tsx): the
 * testimonials shown for a service, their split into featured and regular
 * ones (`featuredTestimonials` is computed but never rendered), the carousel,
 * which cycles through every shown testimonial, with its index and autoplay,
 * and the average rating in the closing strip. The five-second timer is modelled as a
 * `Tick` the caller applies.
 */
module ServiceTestimonials {
  import opened Wrappers
  import opened JsNum
  import opened Seqs

  /** The fields of a testimonial the section's logic reads. */
  datatype Testimonial = Testimonial(id: string, service: string, rating: int, featured: bool)

  /** A testimonial is shown for the page's service and for every page when its service is "all". */
  predicate ShownFor(t: Testimonial, serviceType: string)
  {
    t.service == serviceType || t.service == "all"
  }

  /** `serviceTestimonials`: the testimonials for this page, in their given order. */
  function ForService(ts: seq<Testimonial>, serviceType: string): (r: seq<Testimonial>)
    ensures forall i :: 0 <= i < |r| ==> ShownFor(r[i], serviceType) && r[i] in ts
    ensures forall i :: 0 <= i < |ts| && ShownFor(ts[i], serviceType) ==> ts[i] in r
    ensures IsSubseq(r, ts)
  {
    FilterIsSubseq(ts, t => ShownFor(t, serviceType));
    Filter(ts, t => ShownFor(t, serviceType))
  }

  /** `featuredTestimonials`. */
  function Featured(ts: seq<Testimonial>): (r: seq<Testimonial>)
    ensures forall i :: 0 <= i < |r| ==> r[i].featured && r[i] in ts
  {
    Filter(ts, (t: Testimonial) => t.featured)
  }

  /** `regularTestimonials`. */
  function Regular(ts: seq<Testimonial>): (r: seq<Testimonial>)
    ensures forall i :: 0 <= i < |r| ==> !r[i].featured && r[i] in ts
  {
    Filter(ts, (t: Testimonial) => !t.featured)
  }

  /** Featured and regular split the testimonials: together they hold each one exactly once. */
  lemma {:induction false} FeaturedRegularPartition(ts: seq<Testimonial>)
    ensures multiset(Featured(ts)) + multiset(Regular(ts)) == multiset(ts)
    ensures |Featured(ts)| + |Regular(ts)| == |ts|
  {
    if |ts| > 0 {
      FeaturedRegularPartition(ts[1..]);
      assert ts == [ts[0]] + ts[1..];
    }
  }

  /** The regular grid shows the first six regular testimonials. */
  function RegularGrid(ts: seq<Testimonial>): (r: seq<Testimonial>)
    ensures |r| <= 6 && |r| <= |Regular(ts)|
    ensures |Regular(ts)| >= 6 ==> |r| == 6
    ensures forall i :: 0 <= i < |r| ==> r[i] == Regular(ts)[i]
  {
    Take(Regular(ts), 6)
  }

  /** The carousel's state: the current index and whether autoplay runs. */
  datatype Carousel = Carousel(currentIndex: int, isAutoPlaying: bool)

  const InitialCarousel := Carousel(0, true)

  /** One step on, wrapping from the last to the first (JavaScript's `%`). */
  function NextIndex(i: int, n: int): (r: int)
    requires n > 0
    ensures 0 <= i < n ==> 0 <= r < n
    ensures 0 <= i < n - 1 ==> r == i + 1
    ensures i == n - 1 ==> r == 0
  {
    JsRem(i + 1, n)
  }

  /** One step back, wrapping from the first to the last. */
  function PrevIndex(i: int, n: int): (r: int)
    requires n > 0
    ensures 0 <= i < n ==> 0 <= r < n
    ensures 0 < i < n ==> r == i - 1
    ensures i == 0 ==> r == n - 1
  {
    JsRem(i - 1 + n, n)
  }

  /** Back undoes forward and forward undoes back, for every index the carousel can show. */
  lemma NextPrevInverse(i: int, n: int)
    requires 0 <= i < n
    ensures PrevIndex(NextIndex(i, n), n) == i
    ensures NextIndex(PrevIndex(i, n), n) == i
  {
  }

  /** `nextTestimonial`: one on, and autoplay stops. */
  function NextTestimonial(c: Carousel, n: int): (r: Carousel)
    requires n > 0
    ensures r.currentIndex == NextIndex(c.currentIndex, n) && !r.isAutoPlaying
  {
    Carousel(NextIndex(c.currentIndex, n), false)
  }

  /** `prevTestimonial`: one back, and autoplay stops. */
  function PrevTestimonial(c: Carousel, n: int): (r: Carousel)
    requires n > 0
    ensures r.currentIndex == PrevIndex(c.currentIndex, n) && !r.isAutoPlaying
  {
    Carousel(PrevIndex(c.currentIndex, n), false)
  }

  /** An indicator dot: straight to its testimonial, and autoplay stops. */
  function GoTo(c: Carousel, index: int): (r: Carousel)
    ensures r.currentIndex == index && !r.isAutoPlaying
  {
    Carousel(index, false)
  }

  /** The autoplay timer's tick: one on while autoplay runs, nothing once it has stopped. */
  function Tick(c: Carousel, n: int): (r: Carousel)
    requires n > 0
    ensures c.isAutoPlaying ==> r == Carousel(NextIndex(c.currentIndex, n), true)
    ensures !c.isAutoPlaying ==> r == c
  {
    if c.isAutoPlaying then c.(currentIndex := NextIndex(c.currentIndex, n)) else c
  }

  /** Once a visitor navigates, the timer never moves the carousel again, whatever they press. */
  lemma ManualNavigationStopsAutoplay(c: Carousel, n: int, index: int)
    requires n > 0
    ensures Tick(NextTestimonial(c, n), n) == NextTestimonial(c, n)
    ensures Tick(PrevTestimonial(c, n), n) == PrevTestimonial(c, n)
    ensures Tick(GoTo(c, index), n) == GoTo(c, index)
  {
  }

  /** The testimonial the carousel shows, if its index names one. */
  function Current(shown: seq<Testimonial>, c: Carousel): (r: Option<Testimonial>)
    ensures r.Some? <==> 0 <= c.currentIndex < |shown|
    ensures r.Some? ==> r.value == shown[c.currentIndex]
  {
    if 0 <= c.currentIndex < |shown| then Some(shown[c.currentIndex]) else None
  }

  /** Every control keeps an index the carousel starts from or reaches within the list. */
  lemma ControlsKeepCurrent(shown: seq<Testimonial>, c: Carousel, index: int)
    requires |shown| > 0 && 0 <= c.currentIndex < |shown| && 0 <= index < |shown|
    ensures Current(shown, InitialCarousel).Some?
    ensures Current(shown, NextTestimonial(c, |shown|)).Some?
    ensures Current(shown, PrevTestimonial(c, |shown|)).Some?
    ensures Current(shown, Tick(c, |shown|)).Some?
    ensures Current(shown, GoTo(c, index)).Some?
  {
  }

  /** The section renders only with a testimonial to show; the arrows and dots only with more than one. */
  predicate SectionRendered(shown: seq<Testimonial>) { |shown| > 0 }

  predicate NavigationShown(shown: seq<Testimonial>) { |shown| > 1 }

  /** With a single testimonial every control leaves the carousel on it. */
  lemma SingleTestimonialStays(c: Carousel)
    requires c.currentIndex == 0
    ensures NextTestimonial(c, 1).currentIndex == 0 && PrevTestimonial(c, 1).currentIndex == 0
    ensures Tick(c, 1).currentIndex == 0
  {
  }

  function SumRatings(ts: seq<Testimonial>): int
  {
    if |ts| == 0 then 0 else ts[0].rating + SumRatings(ts[1..])
  }

  /** The strip's average rating: the ratings' sum over their number. */
  function AverageRating(shown: seq<Testimonial>): (r: real)
    requires SectionRendered(shown)
    ensures r * |shown| as real == SumRatings(shown) as real
  {
    SumRatings(shown) as real / |shown| as real
  }

  lemma {:induction false} SumRatingsBounds(ts: seq<Testimonial>, lo: int, hi: int)
    requires forall i :: 0 <= i < |ts| ==> lo <= ts[i].rating <= hi
    ensures lo * |ts| <= SumRatings(ts) <= hi * |ts|
  {
    if |ts| > 0 {
      SumRatingsBounds(ts[1..], lo, hi);
      assert lo * |ts| == lo + lo * (|ts| - 1);
      assert hi * |ts| == hi + hi * (|ts| - 1);
    }
  }

  /** The average lies between the lowest and the highest rating any testimonial may carry. */
  lemma AverageWithinRatings(shown: seq<Testimonial>, lo: int, hi: int)
    requires SectionRendered(shown)
    requires forall i :: 0 <= i < |shown| ==> lo <= shown[i].rating <= hi
    ensures lo as real <= AverageRating(shown) <= hi as real
  {
    SumRatingsBounds(shown, lo, hi);
    QuotientBetween(SumRatings(shown), |shown|, lo, hi);
  }

  lemma QuotientBetween(sum: int, count: int, lo: int, hi: int)
    requires count > 0 && lo * count <= sum <= hi * count
    ensures lo as real <= sum as real / count as real <= hi as real
  {
    var q := sum as real / count as real;
    var n := count as real;
    assert q * n == sum as real;
    CastProduct(lo, count);
    CastProduct(hi, count);
    CancelScale(lo as real, q, n);
    CancelScale(q, hi as real, n);
  }

  lemma CastProduct(a: int, b: int)
    ensures (a * b) as real == a as real * b as real
  {
  }

  lemma CancelScale(a: real, b: real, n: real)
    requires n > 0.0 && a * n <= b * n
    ensures a <= b
  {
    assert (b - a) * n == b * n - a * n;
  }

  /** The five stars of a card: star `i` is filled exactly when `i` is below the rating. */
  function Stars(rating: int): (r: seq<bool>)
    ensures |r| == 5
    ensures forall i :: 0 <= i < 5 ==> (r[i] <==> i < rating)
  {
    seq(5, i => i < rating)
  }
}
