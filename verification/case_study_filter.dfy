/**
 * The case-study browser (apps/mybenefitsvideos/src/components/sections/case-study-filter.tsx):
 * which studies pass the search and the filter panel, the six sort orders,
 * the query-string the page keeps in step with its state, and reading that
 * state back from the query-string. A study's completion date is carried
 * as the timestamp `new Date(dateCompleted).getTime()` gives.
 */
module CaseStudyFilter {
  import opened Wrappers
  import opened Strings
  import opened UrlPatterns
  import opened Seqs
  import opened CaseStudyFilters
  import opened FormUrlencoded

  datatype Size = Small | MidMarket | Enterprise

  /** The fields of a case study the browser reads. */
  datatype Study = Study(
    id: string,
    title: string,
    client: string,
    industry: string,
    challenge: string,
    solution: string,
    services: seq<string>,
    videoTypes: seq<string>,
    timeline: string,
    companySize: Size,
    tags: seq<string>,
    featured: bool,
    completedAt: int,
    roiPercent: int,
    engagementPercent: int)

  /** The text the search looks in: the fields joined by spaces, lower-cased. */
  function SearchText(s: Study): string
  {
    Lower(Join([s.client, s.title, s.industry, s.challenge, s.solution] + s.services + s.tags, " "))
  }

  predicate PassesSearch(query: string, s: Study)
  {
    query == "" || Contains(SearchText(s), Lower(query))
  }

  /** `sizeMap`: the panel's size labels; any other label maps to nothing. */
  function SizeOfLabel(text: string): Option<Size>
  {
    if text == "Small (50-200)" then Some(Small)
    else if text == "Mid-market (200-500)" then Some(MidMarket)
    else if text == "Enterprise (500+)" then Some(Enterprise)
    else None
  }

  predicate OffersService(s: Study, service: string)
  {
    exists i :: 0 <= i < |s.services| && Contains(s.services[i], service)
  }

  /** The filter callback, check by check. */
  predicate Matches(f: FilterState, query: string, s: Study): (ok: bool)
    ensures ok ==> f.roiRange.0 <= f.roiRange.1 && f.engagementRange.0 <= f.engagementRange.1
    ensures ok ==> f.companySize == "All" || SizeOfLabel(f.companySize).Some?
  {
    && PassesSearch(query, s)
    && (f.industry == "All" || s.industry == f.industry)
    && (f.companySize == "All" || SizeOfLabel(f.companySize) == Some(s.companySize))
    && (f.videoType == "All" || f.videoType in s.videoTypes)
    && (f.service == "All" || OffersService(s, f.service))
    && f.roiRange.0 <= s.roiPercent <= f.roiRange.1
    && f.engagementRange.0 <= s.engagementPercent <= f.engagementRange.1
    && (!f.showFeaturedOnly || s.featured)
  }

  /** A study whose client name holds the query, ignoring the case of ASCII letters, passes the search. */
  lemma ClientMatchPasses(query: string, s: Study)
    requires Contains(Lower(s.client), Lower(query))
    ensures PassesSearch(query, s)
  {
    var parts := [s.client, s.title, s.industry, s.challenge, s.solution] + s.services + s.tags;
    var rest := Join(parts[1..], " ");
    assert parts[0] == s.client;
    assert Join(parts, " ") == s.client + " " + rest;
    LowerConcat(s.client + " ", rest);
    LowerConcat(s.client, " ");
    ContainsInPrefix(Lower(s.client), Lower(" "), Lower(query));
    ContainsInPrefix(Lower(s.client) + Lower(" "), Lower(rest), Lower(query));
  }

  /** With the panel at its defaults and no query, what is left out is exactly what falls outside the default ranges. */
  lemma DefaultsKeep(s: Study)
    ensures Matches(Defaults, "", s) <==> 200 <= s.roiPercent <= 600 && 200 <= s.engagementPercent <= 500
  {
  }

  /** A size label outside the panel's list lets no study through. */
  lemma UnmappedSizeExcludesAll(f: FilterState, query: string, s: Study)
    requires f.companySize != "All" && SizeOfLabel(f.companySize).None?
    ensures !Matches(f, query, s)
  {
  }

  /** The ranges include both of their ends. */
  lemma RangesInclusive(f: FilterState, s: Study)
    requires Matches(f, "", s)
    ensures Matches(f.(roiRange := (s.roiPercent, s.roiPercent)), "", s)
    ensures Matches(f.(engagementRange := (s.engagementPercent, s.engagementPercent)), "", s)
  {
  }

  function NegRoi(): Study -> real
  {
    (s: Study) => -(s.roiPercent as real)
  }

  function NegEngagement(): Study -> real
  {
    (s: Study) => -(s.engagementPercent as real)
  }

  function NegCompleted(): Study -> real
  {
    (s: Study) => -(s.completedAt as real)
  }

  /** `sizeOrder`, largest first. */
  function SizeOrder(z: Size): int
  {
    match z
    case Enterprise => 3
    case MidMarket => 2
    case Small => 1
  }

  function NegSize(): Study -> real
  {
    (s: Study) => -(SizeOrder(s.companySize) as real)
  }

  /** `parseInt(tok) || 0`: leading white space, an optional sign, the decimal digits that follow; 0 when there are none. */
  function JsParseInt(tok: string): (r: int)
    ensures r < 0 ==> '-' in tok
  {
    var u := TrimStart(tok);
    var signed := |u| > 0 && (u[0] == '-' || u[0] == '+');
    var d := DigitRun(u, if signed then 1 else 0);
    var n: int := if |d| == 0 then 0 else ParseNat(d);
    if signed && u[0] == '-' then -n else n
  }

  /** `getWeeks`: the number in front of the first space, whatever unit follows it. */
  function GetWeeks(timeline: string): (r: int)
    ensures r < 0 ==> '-' in timeline
  {
    SplitFirstIsPrefix(timeline, ' ');
    JsParseInt(Split(timeline, ' ')[0])
  }

  function Weeks(): Study -> real
  {
    (s: Study) => GetWeeks(s.timeline) as real
  }

  /** Featured studies rank first. */
  function FeaturedRank(): Study -> real
  {
    (s: Study) => if s.featured then 0.0 else 1.0
  }

  /** A timeline that starts with a number and a space reads as that number, whatever the unit. */
  lemma GetWeeksReadsNumber(n: nat, unit: string)
    ensures GetWeeks(NatToString(n) + " " + unit) == n
  {
    var d := NatToString(n);
    FirstToken(d, unit);
    ParseIntDigits(d);
    ParseNatToString(n);
  }

  lemma FirstToken(d: string, unit: string)
    requires AllDigits(d)
    ensures Split(d + " " + unit, ' ')[0] == d
  {
    assert ' ' !in d by {
      forall k | 0 <= k < |d| ensures d[k] != ' ' { assert IsDigit(d[k]); }
    }
    SplitConcat(d, unit, ' ');
    assert d + " " + unit == d + [' '] + unit;
  }

  /** A run of decimal digits reads as its value. */
  lemma ParseIntDigits(d: string)
    requires |d| > 0 && AllDigits(d)
    ensures JsParseInt(d) == ParseNat(d)
  {
    assert IsDigit(d[0]);
    assert TrimStart(d) == d;
    assert d[0..|d|] == d;
    DigitRunIs(d, 0, d);
  }

  /**
   * The default order: a stable sort by ROI, largest first, then a stable
   * sort putting featured studies first; together they order by the pair
   * the comparator compares.
   */
  function FeaturedFirst(xs: seq<Study>): (r: seq<Study>)
    ensures multiset(r) == multiset(xs)
    ensures forall i, j :: 0 <= i < j < |r| ==> (r[i].featured || !r[j].featured)
    ensures forall i, j :: 0 <= i < j < |r| && r[i].featured == r[j].featured ==> r[i].roiPercent >= r[j].roiPercent
    ensures forall f :: SameTieOrder(WithKey(r, FeaturedRank(), f), WithKey(xs, FeaturedRank(), f), NegRoi())
  {
    var byRoi := Seqs.SortBy(xs, NegRoi());
    SortByKeepsTies(byRoi, FeaturedRank(), NegRoi());
    var r := Seqs.SortBy(byRoi, FeaturedRank());
    FeaturedOrder(r);
    TwoSortsKeepTieOrder(xs);
    r
  }

  /**
   * Studies equal in both the featured flag and the ROI keep their input
   * order through the two stable sorts.
   */
  lemma TwoSortsKeepTieOrder(xs: seq<Study>)
    ensures var r := Seqs.SortBy(Seqs.SortBy(xs, NegRoi()), FeaturedRank());
      forall f :: SameTieOrder(WithKey(r, FeaturedRank(), f), WithKey(xs, FeaturedRank(), f), NegRoi())
  {
    var byRoi := Seqs.SortBy(xs, NegRoi());
    var r := Seqs.SortBy(byRoi, FeaturedRank());
    forall f, k
      ensures WithKey(WithKey(r, FeaturedRank(), f), NegRoi(), k) == WithKey(WithKey(xs, FeaturedRank(), f), NegRoi(), k)
    {
      calc {
        WithKey(WithKey(r, FeaturedRank(), f), NegRoi(), k);
        { SortByIsStable(byRoi, FeaturedRank(), f); }
        WithKey(WithKey(byRoi, FeaturedRank(), f), NegRoi(), k);
        { WithKeyCommute(byRoi, FeaturedRank(), f, NegRoi(), k); }
        WithKey(WithKey(byRoi, NegRoi(), k), FeaturedRank(), f);
        { SortByIsStable(xs, NegRoi(), k); }
        WithKey(WithKey(xs, NegRoi(), k), FeaturedRank(), f);
        { WithKeyCommute(xs, FeaturedRank(), f, NegRoi(), k); }
        WithKey(WithKey(xs, FeaturedRank(), f), NegRoi(), k);
      }
    }
  }

  lemma FeaturedOrder(r: seq<Study>)
    requires SortedBy(r, FeaturedRank()) && TiesSortedBy(r, FeaturedRank(), NegRoi())
    ensures forall i, j :: 0 <= i < j < |r| ==> (r[i].featured || !r[j].featured)
    ensures forall i, j :: 0 <= i < j < |r| && r[i].featured == r[j].featured ==> r[i].roiPercent >= r[j].roiPercent
  {
    forall i, j | 0 <= i < j < |r| ensures r[i].featured || !r[j].featured {
      assert FeaturedRank()(r[i]) <= FeaturedRank()(r[j]);
    }
    forall i, j | 0 <= i < j < |r| && r[i].featured == r[j].featured ensures r[i].roiPercent >= r[j].roiPercent {
      assert FeaturedRank()(r[i]) == FeaturedRank()(r[j]);
      assert NegRoi()(r[i]) <= NegRoi()(r[j]);
    }
  }

  /** The sort values with a comparator of their own; any other value sorts featured first. */
  const SortKeys: set<string> := {"roi-desc", "engagement-desc", "date-desc", "company-size-desc", "timeline-asc"}

  /** The comparator `filters.sortBy` selects; an unknown value falls back to the default order. */
  function SortStudies(sortBy: string, xs: seq<Study>): (r: seq<Study>)
    ensures multiset(r) == multiset(xs)
    ensures sortBy == "roi-desc" ==> forall i, j :: 0 <= i < j < |r| ==> r[i].roiPercent >= r[j].roiPercent
    ensures sortBy == "engagement-desc" ==> forall i, j :: 0 <= i < j < |r| ==> r[i].engagementPercent >= r[j].engagementPercent
    ensures sortBy == "date-desc" ==> forall i, j :: 0 <= i < j < |r| ==> r[i].completedAt >= r[j].completedAt
    ensures sortBy == "company-size-desc" ==> forall i, j :: 0 <= i < j < |r| ==> SizeOrder(r[i].companySize) >= SizeOrder(r[j].companySize)
    ensures sortBy == "timeline-asc" ==> forall i, j :: 0 <= i < j < |r| ==> GetWeeks(r[i].timeline) <= GetWeeks(r[j].timeline)
    ensures sortBy == "roi-desc" ==> SameTieOrder(r, xs, NegRoi())
    ensures sortBy == "engagement-desc" ==> SameTieOrder(r, xs, NegEngagement())
    ensures sortBy == "date-desc" ==> SameTieOrder(r, xs, NegCompleted())
    ensures sortBy == "company-size-desc" ==> SameTieOrder(r, xs, NegSize())
    ensures sortBy == "timeline-asc" ==> SameTieOrder(r, xs, Weeks())
    ensures sortBy !in SortKeys ==>
      forall f :: SameTieOrder(WithKey(r, FeaturedRank(), f), WithKey(xs, FeaturedRank(), f), NegRoi())
  {
    if sortBy == "roi-desc" then ByRoiDesc(xs)
    else if sortBy == "engagement-desc" then ByEngagementDesc(xs)
    else if sortBy == "date-desc" then ByDateDesc(xs)
    else if sortBy == "company-size-desc" then BySizeDesc(xs)
    else if sortBy == "timeline-asc" then ByTimelineAsc(xs)
    else FeaturedFirst(xs)
  }

  function ByRoiDesc(xs: seq<Study>): (r: seq<Study>)
    ensures multiset(r) == multiset(xs)
    ensures forall i, j :: 0 <= i < j < |r| ==> r[i].roiPercent >= r[j].roiPercent
    ensures SameTieOrder(r, xs, NegRoi())
  {
    SortByKeepsTieOrder(xs, NegRoi());
    var r := Seqs.SortBy(xs, NegRoi());
    assert forall i, j :: 0 <= i < j < |r| ==> NegRoi()(r[i]) <= NegRoi()(r[j]);
    r
  }

  function ByEngagementDesc(xs: seq<Study>): (r: seq<Study>)
    ensures multiset(r) == multiset(xs)
    ensures forall i, j :: 0 <= i < j < |r| ==> r[i].engagementPercent >= r[j].engagementPercent
    ensures SameTieOrder(r, xs, NegEngagement())
  {
    SortByKeepsTieOrder(xs, NegEngagement());
    var r := Seqs.SortBy(xs, NegEngagement());
    assert forall i, j :: 0 <= i < j < |r| ==> NegEngagement()(r[i]) <= NegEngagement()(r[j]);
    r
  }

  function ByDateDesc(xs: seq<Study>): (r: seq<Study>)
    ensures multiset(r) == multiset(xs)
    ensures forall i, j :: 0 <= i < j < |r| ==> r[i].completedAt >= r[j].completedAt
    ensures SameTieOrder(r, xs, NegCompleted())
  {
    SortByKeepsTieOrder(xs, NegCompleted());
    var r := Seqs.SortBy(xs, NegCompleted());
    assert forall i, j :: 0 <= i < j < |r| ==> NegCompleted()(r[i]) <= NegCompleted()(r[j]);
    r
  }

  function BySizeDesc(xs: seq<Study>): (r: seq<Study>)
    ensures multiset(r) == multiset(xs)
    ensures forall i, j :: 0 <= i < j < |r| ==> SizeOrder(r[i].companySize) >= SizeOrder(r[j].companySize)
    ensures SameTieOrder(r, xs, NegSize())
  {
    SortByKeepsTieOrder(xs, NegSize());
    var r := Seqs.SortBy(xs, NegSize());
    assert forall i, j :: 0 <= i < j < |r| ==> NegSize()(r[i]) <= NegSize()(r[j]);
    r
  }

  function ByTimelineAsc(xs: seq<Study>): (r: seq<Study>)
    ensures multiset(r) == multiset(xs)
    ensures forall i, j :: 0 <= i < j < |r| ==> GetWeeks(r[i].timeline) <= GetWeeks(r[j].timeline)
    ensures SameTieOrder(r, xs, Weeks())
  {
    SortByKeepsTieOrder(xs, Weeks());
    var r := Seqs.SortBy(xs, Weeks());
    assert forall i, j :: 0 <= i < j < |r| ==> Weeks()(r[i]) <= Weeks()(r[j]);
    r
  }

  /** Only the leading numbers are compared: the larger number sorts later, whatever the units. */
  lemma TimelineNumbersOnly(a: Study, b: Study, m: nat, n: nat, unitA: string, unitB: string)
    requires a.timeline == NatToString(m) + " " + unitA && b.timeline == NatToString(n) + " " + unitB
    requires n < m
    ensures SortStudies("timeline-asc", [a, b]) == [b, a]
  {
    GetWeeksReadsNumber(m, unitA);
    GetWeeksReadsNumber(n, unitB);
    FewerWeeksFirst(a, b);
    TimelineOrder([a, b]);
  }

  lemma TimelineOrder(xs: seq<Study>)
    ensures SortStudies("timeline-asc", xs) == Seqs.SortBy(xs, Weeks())
  {
  }

  lemma FewerWeeksFirst(a: Study, b: Study)
    requires GetWeeks(b.timeline) < GetWeeks(a.timeline)
    ensures Seqs.SortBy([a, b], Weeks()) == [b, a]
  {
    var w := Weeks();
    assert w(b) < w(a);
    assert Seqs.SortBy([b], w) == [b];
    assert [a, b][1..] == [b];
    assert Seqs.SortBy([a, b], w) == Insert(a, [b], w);
  }

  /** Units are ignored: a study done in "10 days" sorts after one done in "8 weeks". */
  lemma TimelineIgnoresUnits(a: Study, b: Study)
    requires a.timeline == "10 days" && b.timeline == "8 weeks"
    ensures SortStudies("timeline-asc", [a, b]) == [b, a]
  {
    assert NatToString(10) == "10";
    assert NatToString(8) == "8";
    TimelineNumbersOnly(a, b, 10, 8, "days", "weeks");
  }

  /** `filteredAndSortedCaseStudies`: exactly the studies that match, in the selected order. */
  function FilteredAndSorted(studies: seq<Study>, query: string, f: FilterState): (r: seq<Study>)
    ensures forall s :: s in r <==> s in studies && Matches(f, query, s)
    ensures multiset(r) == multiset(Filter(studies, (s: Study) => Matches(f, query, s)))
  {
    var kept := Filter(studies, (s: Study) => Matches(f, query, s));
    var r := SortStudies(f.sortBy, kept);
    assert forall s :: s in r <==> s in kept by {
      forall s ensures s in r <==> s in kept {
        assert s in r <==> s in multiset(r);
        assert s in kept <==> s in multiset(kept);
      }
    }
    r
  }

  /** `itemsPerPage` handed to the grid for each view. */
  function ItemsPerPage(view: string): (n: nat)
    ensures n == 9 <==> view == "compact"
    ensures n == 5 <==> view == "list"
    ensures n == 3 <==> view != "compact" && view != "list"
  {
    if view == "compact" then 9 else if view == "list" then 5 else 3
  }

  /** The query-string parameters, in the order the page writes them. */
  datatype Param = IndustryParam | CompanySizeParam | VideoTypeParam | ServiceParam | FeaturedParam | SortParam | SearchParam | ViewParam

  const ParamOrder := [IndustryParam, CompanySizeParam, VideoTypeParam, ServiceParam, FeaturedParam, SortParam, SearchParam, ViewParam]

  function ParamName(p: Param): string
  {
    match p
    case IndustryParam => "industry"
    case CompanySizeParam => "companySize"
    case VideoTypeParam => "videoType"
    case ServiceParam => "service"
    case FeaturedParam => "featured"
    case SortParam => "sort"
    case SearchParam => "search"
    case ViewParam => "view"
  }

  /** The value written for a parameter, or nothing when the state holds that entry's default. */
  function ParamValue(f: FilterState, query: string, view: string, p: Param): Option<string>
  {
    match p
    case IndustryParam => if f.industry != "All" then Some(f.industry) else None
    case CompanySizeParam => if f.companySize != "All" then Some(f.companySize) else None
    case VideoTypeParam => if f.videoType != "All" then Some(f.videoType) else None
    case ServiceParam => if f.service != "All" then Some(f.service) else None
    case FeaturedParam => if f.showFeaturedOnly then Some("true") else None
    case SortParam => if f.sortBy != "featured" then Some(f.sortBy) else None
    case SearchParam => if query != "" then Some(query) else None
    case ViewParam => if view != "grid" then Some(view) else None
  }

  /** The state every parameter leaves out. */
  predicate AllDefault(f: FilterState, query: string, view: string)
  {
    && f.industry == "All" && f.companySize == "All" && f.videoType == "All" && f.service == "All"
    && !f.showFeaturedOnly && f.sortBy == "featured" && query == "" && view == "grid"
  }

  /** Nothing differs from the defaults exactly when no parameter has a value. */
  lemma DefaultIffNoValue(f: FilterState, query: string, view: string)
    ensures AllDefault(f, query, view) <==> forall p :: ParamValue(f, query, view, p).None?
  {
    if forall p :: ParamValue(f, query, view, p).None? {
      assert ParamValue(f, query, view, IndustryParam).None?;
      assert ParamValue(f, query, view, CompanySizeParam).None?;
      assert ParamValue(f, query, view, VideoTypeParam).None?;
      assert ParamValue(f, query, view, ServiceParam).None?;
      assert ParamValue(f, query, view, FeaturedParam).None?;
      assert ParamValue(f, query, view, SortParam).None?;
      assert ParamValue(f, query, view, SearchParam).None?;
      assert ParamValue(f, query, view, ViewParam).None?;
    }
  }

  function Written(f: FilterState, query: string, view: string, ps: seq<Param>): (r: seq<(Param, string)>)
    ensures |r| == 0 <==> forall p :: p in ps ==> ParamValue(f, query, view, p).None?
    decreases |ps|
  {
    if |ps| == 0 then []
    else
      var v := ParamValue(f, query, view, ps[0]);
      var rest := Written(f, query, view, ps[1..]);
      assert forall p :: p in ps <==> p == ps[0] || p in ps[1..] by {
        assert ps == [ps[0]] + ps[1..];
      }
      (if v.Some? then [(ps[0], v.value)] else []) + rest
  }

  /** `URLSearchParams.get`: the first value under the name. */
  function GetParam(ps: seq<(Param, string)>, p: Param): Option<string>
    decreases |ps|
  {
    if |ps| == 0 then None else if ps[0].0 == p then Some(ps[0].1) else GetParam(ps[1..], p)
  }

  /** Reading a parameter back from what was written gives the value written for it. */
  lemma {:induction false} GetWritten(f: FilterState, query: string, view: string, ps: seq<Param>, p: Param)
    requires NoDuplicates(ps)
    ensures GetParam(Written(f, query, view, ps), p) == if p in ps then ParamValue(f, query, view, p) else None
    decreases |ps|
  {
    if |ps| > 0 {
      var v := ParamValue(f, query, view, ps[0]);
      var rest := Written(f, query, view, ps[1..]);
      assert NoDuplicates(ps[1..]) by {
        forall i, j | 0 <= i < j < |ps[1..]| ensures ps[1..][i] != ps[1..][j] {
          assert ps[1..][i] == ps[i + 1] && ps[1..][j] == ps[j + 1];
        }
      }
      GetWritten(f, query, view, ps[1..], p);
      assert p in ps <==> p == ps[0] || p in ps[1..] by {
        assert ps == [ps[0]] + ps[1..];
      }
      assert ps[0] !in ps[1..] by {
        forall k | 0 <= k < |ps[1..]| ensures ps[1..][k] != ps[0] {
          assert ps[1..][k] == ps[k + 1];
        }
      }
      if v.Some? {
        var w := [(ps[0], v.value)] + rest;
        assert w[0] == (ps[0], v.value) && w[1..] == rest;
      } else {
        assert Written(f, query, view, ps) == rest;
      }
    }
  }

  /** Where a parameter stands in the written order. */
  function Position(p: Param): nat
  {
    match p
    case IndustryParam => 0
    case CompanySizeParam => 1
    case VideoTypeParam => 2
    case ServiceParam => 3
    case FeaturedParam => 4
    case SortParam => 5
    case SearchParam => 6
    case ViewParam => 7
  }

  lemma ParamOrderNoDuplicates()
    ensures NoDuplicates(ParamOrder)
  {
    assert forall i :: 0 <= i < |ParamOrder| ==> Position(ParamOrder[i]) == i;
  }

  lemma EveryParamWritten(p: Param)
    ensures p in ParamOrder
  {
    match p
    case IndustryParam => assert ParamOrder[0] == p;
    case CompanySizeParam => assert ParamOrder[1] == p;
    case VideoTypeParam => assert ParamOrder[2] == p;
    case ServiceParam => assert ParamOrder[3] == p;
    case FeaturedParam => assert ParamOrder[4] == p;
    case SortParam => assert ParamOrder[5] == p;
    case SearchParam => assert ParamOrder[6] == p;
    case ViewParam => assert ParamOrder[7] == p;
  }

  /** The parameters the page writes for a state. */
  function Params(f: FilterState, query: string, view: string): (r: seq<(Param, string)>)
    ensures |r| == 0 <==> AllDefault(f, query, view)
    ensures forall p :: GetParam(r, p) == ParamValue(f, query, view, p)
  {
    var r := Written(f, query, view, ParamOrder);
    DefaultIffNoValue(f, query, view);
    ParamOrderNoDuplicates();
    forall p ensures GetParam(r, p) == ParamValue(f, query, view, p) {
      GetWritten(f, query, view, ParamOrder, p);
      EveryParamWritten(p);
    }
    r
  }

  /** The parameters as the name/value pairs `URLSearchParams` holds. */
  function Named(ps: seq<(Param, string)>): (r: seq<(string, string)>)
    ensures |r| == |ps|
    ensures forall i :: 0 <= i < |ps| ==> r[i] == (ParamName(ps[i].0), ps[i].1)
    decreases |ps|
  {
    if |ps| == 0 then [] else [(ParamName(ps[0].0), ps[0].1)] + Named(ps[1..])
  }

  /**
   * `newUrl`: the bare page path when nothing differs from the defaults,
   * otherwise `?` and the form-encoded query `params.toString()` writes.
   */
  function NewUrl(f: FilterState, query: string, view: string): (r: string)
    ensures r == "/case-studies" <==> AllDefault(f, query, view)
    ensures !AllDefault(f, query, view) ==> |r| > 0 && r[0] == '?' && '?' !in r[1..]
  {
    var q := Serialize(Named(Params(f, query, view)));
    if q == "" then "/case-studies"
    else
      var r := "?" + q;
      assert r[0] != "/case-studies"[0];
      assert r[1..] == q;
      r
  }

  /** The query text of a URL: what follows its first `?`, or nothing. */
  function QueryOf(url: string): (r: string)
  {
    SplitAtFirst(url, '?').1
  }

  /** The parameter a query name stands for; other names are not read. */
  function ParamNamed(name: string): (r: Option<Param>)
    ensures r.Some? ==> ParamName(r.value) == name
    ensures forall p :: ParamName(p) == name ==> r == Some(p)
  {
    if name == "industry" then Some(IndustryParam)
    else if name == "companySize" then Some(CompanySizeParam)
    else if name == "videoType" then Some(VideoTypeParam)
    else if name == "service" then Some(ServiceParam)
    else if name == "featured" then Some(FeaturedParam)
    else if name == "sort" then Some(SortParam)
    else if name == "search" then Some(SearchParam)
    else if name == "view" then Some(ViewParam)
    else None
  }

  /** The parsed pairs whose names the page reads, in order. */
  function Recognized(pairs: seq<(string, string)>): (r: seq<(Param, string)>)
    decreases |pairs|
  {
    if |pairs| == 0 then []
    else
      var rest := Recognized(pairs[1..]);
      match ParamNamed(pairs[0].0)
      case Some(p) => [(p, pairs[0].1)] + rest
      case None => rest
  }

  /** The page's `searchParams.get(name)` is `URLSearchParams.get` on the parsed pairs. */
  lemma {:induction false} GetRecognized(pairs: seq<(string, string)>, p: Param)
    ensures GetParam(Recognized(pairs), p) == GetByName(pairs, ParamName(p))
    decreases |pairs|
  {
    if |pairs| > 0 {
      GetRecognized(pairs[1..], p);
      var rest := Recognized(pairs[1..]);
      match ParamNamed(pairs[0].0)
      case Some(q) =>
        var r := [(q, pairs[0].1)] + rest;
        assert r[0] == (q, pairs[0].1) && r[1..] == rest;
      case None =>
    }
  }

  /** The names the page writes are the names it reads. */
  lemma {:induction false} RecognizedNamed(ps: seq<(Param, string)>)
    ensures Recognized(Named(ps)) == ps
    decreases |ps|
  {
    if |ps| > 0 {
      var n := Named(ps);
      assert n[1..] == Named(ps[1..]);
      RecognizedNamed(ps[1..]);
      assert ps == [ps[0]] + ps[1..];
    }
  }

  /**
   * The mount effect reading a URL: the query text after `?` goes through
   * the form-urlencoded parser, and each `searchParams.get` looks up the
   * first pair with its name.
   */
  function ReadUrl(url: string, prev: PageState): (r: PageState)
    ensures forall p :: GetParam(Recognized(ParseQuery(QueryOf(url))), p) == GetByName(ParseQuery(QueryOf(url)), ParamName(p))
  {
    var pairs := ParseQuery(QueryOf(url));
    forall p ensures GetParam(Recognized(pairs), p) == GetByName(pairs, ParamName(p)) {
      GetRecognized(pairs, p);
    }
    ReadParams(Recognized(pairs), prev)
  }

  /** The state the page starts with: the panel's defaults, no query, the grid view. */
  datatype PageState = PageState(filters: FilterState, query: string, view: string)

  const Start := PageState(Defaults, "", "grid")

  /** A parameter that is present and not empty. */
  predicate Given(ps: seq<(Param, string)>, p: Param)
  {
    GetParam(ps, p).Some? && GetParam(ps, p).value != ""
  }

  /** A text entry after the mount effect: the parameter's value when given, else what it held. */
  function ReadText(ps: seq<(Param, string)>, p: Param, prev: string): string
  {
    if Given(ps, p) then GetParam(ps, p).value else prev
  }

  /**
   * The mount effect: each given parameter replaces its entry; `featured`
   * holds only when it reads "true". Each parameter writes its own entry,
   * so the order of the checks does not matter.
   */
  function ReadParams(ps: seq<(Param, string)>, prev: PageState): (r: PageState)
    ensures r.filters.roiRange == prev.filters.roiRange && r.filters.engagementRange == prev.filters.engagementRange
  {
    var f := prev.filters;
    PageState(
      FilterState(
        ReadText(ps, IndustryParam, f.industry),
        ReadText(ps, CompanySizeParam, f.companySize),
        ReadText(ps, VideoTypeParam, f.videoType),
        ReadText(ps, ServiceParam, f.service),
        f.roiRange,
        f.engagementRange,
        if Given(ps, FeaturedParam) then GetParam(ps, FeaturedParam).value == "true" else f.showFeaturedOnly,
        ReadText(ps, SortParam, f.sortBy)),
      ReadText(ps, SearchParam, prev.query),
      ReadText(ps, ViewParam, prev.view))
  }

  /**
   * Loading a written query-string into a fresh page restores every entry
   * except the two ranges, which the query-string does not carry; the
   * text entries must not be empty, since an empty value is not read back.
   */
  lemma UrlRoundTrip(f: FilterState, query: string, view: string)
    requires f.industry != "" && f.companySize != "" && f.videoType != "" && f.service != "" && f.sortBy != "" && view != ""
    ensures ReadParams(Params(f, query, view), Start)
      == PageState(f.(roiRange := Defaults.roiRange, engagementRange := Defaults.engagementRange), query, view)
  {
    ReadWritten(Params(f, query, view), f, query, view);
  }

  /**
   * The URL text the page writes reads back on a fresh page: every entry
   * except the two ranges is restored, whatever characters the search text
   * or the entries hold, since each value is form-encoded and decoded.
   */
  lemma UrlTextRoundTrip(f: FilterState, query: string, view: string)
    requires f.industry != "" && f.companySize != "" && f.videoType != "" && f.service != "" && f.sortBy != "" && view != ""
    ensures ReadUrl(NewUrl(f, query, view), Start)
      == PageState(f.(roiRange := Defaults.roiRange, engagementRange := Defaults.engagementRange), query, view)
  {
    var ps := Params(f, query, view);
    var url := NewUrl(f, query, view);
    if AllDefault(f, query, view) {
      assert url == "/case-studies";
      assert QueryOf(url) == "" by {
        SplitAtFirstAbsent(url, '?');
      }
      assert ParseQuery("") == [] by {
        assert Split("", '&') == [""];
      }
    } else {
      var q := Serialize(Named(ps));
      assert url == "?" + q;
      assert QueryOf(url) == q by {
        SplitAtFirstConcat("", q, '?');
        assert "" + ['?'] + q == url;
      }
      ParseSerialize(Named(ps));
      RecognizedNamed(ps);
    }
    ReadWritten(Recognized(ParseQuery(QueryOf(url))), f, query, view);
  }

  lemma ReadWritten(ps: seq<(Param, string)>, f: FilterState, query: string, view: string)
    requires forall p :: GetParam(ps, p) == ParamValue(f, query, view, p)
    requires f.industry != "" && f.companySize != "" && f.videoType != "" && f.service != "" && f.sortBy != "" && view != ""
    ensures ReadParams(ps, Start)
      == PageState(f.(roiRange := Defaults.roiRange, engagementRange := Defaults.engagementRange), query, view)
  {
    ReadTextBack(ps, IndustryParam, "All", f.industry);
    ReadTextBack(ps, CompanySizeParam, "All", f.companySize);
    ReadTextBack(ps, VideoTypeParam, "All", f.videoType);
    ReadTextBack(ps, ServiceParam, "All", f.service);
    ReadTextBack(ps, SortParam, "featured", f.sortBy);
    ReadTextBack(ps, SearchParam, "", query);
    ReadTextBack(ps, ViewParam, "grid", view);
    assert GetParam(ps, FeaturedParam) == ParamValue(f, query, view, FeaturedParam);
  }

  /** A text entry written only when it differs from its default reads back as itself on a page at that default. */
  lemma ReadTextBack(ps: seq<(Param, string)>, p: Param, default: string, v: string)
    requires GetParam(ps, p) == if v != default then Some(v) else None
    requires v != "" || default == ""
    ensures ReadText(ps, p, default) == v
  {
  }
}
