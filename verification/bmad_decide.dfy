/**
 * The BMAD "decide" engine (bmad/decide-workflow-system.py): an
 * impact/effort/confidence decision matrix, four threshold analyzers that
 * turn a 30-day metrics window into recommendations, a stable
 * highest-score-first prioritisation, the upsert-by-id recommendation store
 * and the append-only decision log.
 *
 * The SQLite tables become a `map` (recommendations, keyed by id) and a
 * `seq` (decisions, in insertion order); `datetime.now()` is the parameter
 * `now` (seconds). Titles and descriptions that interpolate `:.1f` floats are
 * not modelled; identifiers, numbers, success metrics and risk factors are.
 */
module BmadDecide {
  import opened Wrappers
  import opened Seqs
  import Strings

  datatype DecisionType =
    TacticalOptimization | StrategicPivot | ResourceAllocation | CampaignExpansion | EmergencyResponse

  datatype Priority = Critical | High | Medium | Low
  {
    function Value(): (v: int)
      ensures 1 <= v <= 4
    {
      match this
      case Critical => 1
      case High => 2
      case Medium => 3
      case Low => 4
    }
  }

  datatype ImplementationStatus = PendingApproval | Approved | InProgress | Completed | Cancelled

  /** One `DecisionRecommendation`; field order follows the recommendations table. */
  datatype Recommendation = Recommendation(
    id: string,
    title: string,
    decisionType: DecisionType,
    priority: Priority,
    estimatedImpact: real,
    confidenceLevel: real,
    implementationEffort: string,
    implementationTimeline: int,
    requiredResources: seq<string>,
    successMetrics: seq<string>,
    riskFactors: seq<string>,
    supportingData: map<string, real>,
    createdAt: int,
    createdBy: string)

  // ---------------------------------------------------------------------------
  // Decision matrix
  // ---------------------------------------------------------------------------

  /** The effort weight of `calculate_priority_score`, looked up case-insensitively. */
  function EffortWeight(effort: string): (w: real)
    ensures Strings.Lower(effort) == "low" ==> w == 1.0
    ensures Strings.Lower(effort) == "medium" ==> w == 0.7
    ensures Strings.Lower(effort) == "high" ==> w == 0.4
    ensures Strings.Lower(effort) !in {"low", "medium", "high"} ==> w == 0.5
  {
    var e := Strings.Lower(effort);
    if e == "low" then 1.0
    else if e == "medium" then 0.7
    else if e == "high" then 0.4
    else 0.5
  }

  /**
   * Priority score = impact × confidence × effort weight × 100: a low effort
   * scores the full 100 per unit of impact × confidence, medium 70, high 40
   * and any other effort 50, so a non-negative product never scores above
   * the low-effort score.
   */
  function PriorityScore(impact: real, effort: string, confidence: real): (r: real)
    ensures Strings.Lower(effort) == "low" ==> r == impact * confidence * 100.0
    ensures Strings.Lower(effort) == "medium" ==> r == impact * confidence * 70.0
    ensures Strings.Lower(effort) == "high" ==> r == impact * confidence * 40.0
    ensures Strings.Lower(effort) !in {"low", "medium", "high"} ==> r == impact * confidence * 50.0
    ensures impact * confidence >= 0.0 ==> 0.4 * (impact * confidence * 100.0) <= r <= impact * confidence * 100.0
  {
    impact * confidence * EffortWeight(effort) * 100.0
  }

  lemma LowerIdempotent(s: string)
    ensures Strings.Lower(Strings.Lower(s)) == Strings.Lower(s)
  {
  }

  /** Effort is matched case-insensitively: lower-casing it first changes nothing. */
  lemma PriorityScoreIgnoresCase(impact: real, effort: string, confidence: real)
    ensures PriorityScore(impact, effort, confidence)
            == PriorityScore(impact, Strings.Lower(effort), confidence)
  {
    LowerIdempotent(effort);
  }

  /**
   * For a positive impact and confidence the score strictly decreases from low
   * to medium to an unknown effort to high: an unrecognised effort string
   * weighs between medium and high.
   */
  lemma EffortOrdering(impact: real, confidence: real, e: string)
    requires impact > 0.0 && confidence > 0.0
    requires Strings.Lower(e) !in {"low", "medium", "high"}
    ensures PriorityScore(impact, "low", confidence) > PriorityScore(impact, "medium", confidence)
    ensures PriorityScore(impact, "medium", confidence) > PriorityScore(impact, e, confidence)
    ensures PriorityScore(impact, e, confidence) > PriorityScore(impact, "high", confidence)
  {
    assert Strings.Lower("low") == "low";
    assert Strings.Lower("medium") == "medium";
    assert Strings.Lower("high") == "high";
    var ic := impact * confidence;
    assert ic > 0.0;
    assert PriorityScore(impact, "low", confidence) == ic * 1.0 * 100.0;
    assert PriorityScore(impact, "medium", confidence) == ic * 0.7 * 100.0;
    assert PriorityScore(impact, e, confidence) == ic * 0.5 * 100.0;
    assert PriorityScore(impact, "high", confidence) == ic * 0.4 * 100.0;
  }

  /** The numeric effort of `categorize_decision`: low 1, medium 2, high 3, else 2. */
  function EffortOrdinal(effort: string): (n: int)
    ensures 1 <= n <= 3
    ensures n == 1 <==> Strings.Lower(effort) == "low"
    ensures n == 3 <==> Strings.Lower(effort) == "high"
  {
    var e := Strings.Lower(effort);
    if e == "low" then 1
    else if e == "medium" then 2
    else if e == "high" then 3
    else 2
  }

  datatype Category = QuickWin | MajorProject | FillIn | ThanklessTask
  {
    function Name(): (s: string)
    {
      match this
      case QuickWin => "quick_win"
      case MajorProject => "major_project"
      case FillIn => "fill_in"
      case ThanklessTask => "thankless_task"
    }
  }

  /** The impact/effort quadrant. */
  function Categorize(impact: real, effort: string): (c: Category)
    ensures c == QuickWin <==> impact >= 20.0 && EffortOrdinal(effort) <= 2
    ensures c == MajorProject <==> impact >= 20.0 && EffortOrdinal(effort) == 3
    ensures c == FillIn <==> impact < 20.0 && EffortOrdinal(effort) <= 2
    ensures c == ThanklessTask <==> impact < 20.0 && EffortOrdinal(effort) == 3
  {
    var n := EffortOrdinal(effort);
    if impact >= 20.0 && n <= 2 then QuickWin
    else if impact >= 20.0 && n == 3 then MajorProject
    else if impact < 20.0 && n <= 2 then FillIn
    else ThanklessTask
  }

  /**
   * The matrix treats an unknown effort as medium when categorising but
   * weighs it 0.5, below medium's 0.7, when scoring.
   */
  lemma UnknownEffortAsymmetry(impact: real, confidence: real, e: string)
    requires impact > 0.0 && confidence > 0.0
    requires Strings.Lower(e) !in {"low", "medium", "high"}
    ensures Categorize(impact, e) == Categorize(impact, "medium")
    ensures PriorityScore(impact, e, confidence) < PriorityScore(impact, "medium", confidence)
  {
    assert Strings.Lower("medium") == "medium";
    EffortOrdering(impact, confidence, e);
  }

  // ---------------------------------------------------------------------------
  // The metrics window
  // ---------------------------------------------------------------------------

  /** A row of `SELECT metric_name, metric_value, timestamp, source`. */
  datatype MetricRow = MetricRow(name: string, value: real, timestamp: int, source: string)

  /** The window query orders rows by timestamp, newest first. */
  ghost predicate NewestFirst(rows: seq<MetricRow>)
  {
    forall i, j :: 0 <= i < j < |rows| ==> rows[i].timestamp >= rows[j].timestamp
  }

  function NegTimestamp(r: MetricRow): real { -(r.timestamp as real) }

  /**
   * The rows at or after `cutoff`, newest first. SQL leaves the order of equal
   * timestamps open; this picks the stable one.
   */
  function RecentWindow(table: seq<MetricRow>, cutoff: int): (w: seq<MetricRow>)
    ensures NewestFirst(w)
    ensures multiset(w) == multiset(Filter(table, (r: MetricRow) => r.timestamp >= cutoff))
  {
    var w := SortBy(Filter(table, (r: MetricRow) => r.timestamp >= cutoff), NegTimestamp);
    SortedIsNewestFirst(w);
    w
  }

  lemma SortedIsNewestFirst(w: seq<MetricRow>)
    requires SortedBy(w, NegTimestamp)
    ensures NewestFirst(w)
  {
    forall i, j | 0 <= i < j < |w|
      ensures w[i].timestamp >= w[j].timestamp
    {
      assert NegTimestamp(w[i]) <= NegTimestamp(w[j]);
    }
  }

  /** Every row of the window is at or after the cutoff. */
  lemma RecentWindowInRange(table: seq<MetricRow>, cutoff: int)
    ensures forall i :: 0 <= i < |RecentWindow(table, cutoff)| ==> RecentWindow(table, cutoff)[i].timestamp >= cutoff
  {
    var f := Filter(table, (r: MetricRow) => r.timestamp >= cutoff);
    var w := RecentWindow(table, cutoff);
    forall i | 0 <= i < |w|
      ensures w[i].timestamp >= cutoff
    {
      assert w[i] in multiset(w);
      assert w[i] in f;
    }
  }

  /** Row `i` is the last row named `name`, and it holds `v`. */
  ghost predicate LastAt(rows: seq<MetricRow>, name: string, i: int, v: real)
  {
    0 <= i < |rows| && rows[i].name == name && rows[i].value == v
    && forall j :: i < j < |rows| ==> rows[j].name != name
  }

  /**
   * The value pandas reports as "latest" for `name`: `groupby().last()` and
   * `iloc[-1]` both take the LAST matching row of the window.
   */
  function LastValue(rows: seq<MetricRow>, name: string): (r: Option<real>)
    ensures r.None? <==> forall i :: 0 <= i < |rows| ==> rows[i].name != name
    ensures r.Some? ==> exists i :: LastAt(rows, name, i, r.value)
    decreases |rows|
  {
    if |rows| == 0 then None
    else
      var last := rows[|rows| - 1];
      var init := rows[..|rows| - 1];
      if last.name == name then
        assert LastAt(rows, name, |rows| - 1, last.value);
        Some(last.value)
      else
        var r := LastValue(init, name);
        assert forall i :: 0 <= i < |init| ==> init[i] == rows[i];
        assert forall i, v :: LastAt(init, name, i, v) ==> LastAt(rows, name, i, v);
        r
  }

  /**
   * Because the window is newest-first, the "latest" value is in fact the
   * OLDEST in-window observation of that metric.
   */
  lemma LatestIsOldest(rows: seq<MetricRow>, name: string)
    requires NewestFirst(rows)
    requires LastValue(rows, name).Some?
    ensures exists i :: 0 <= i < |rows| && rows[i].name == name
              && rows[i].value == LastValue(rows, name).value
              && forall j :: 0 <= j < |rows| && rows[j].name == name ==> rows[i].timestamp <= rows[j].timestamp
  {
    var i :| LastAt(rows, name, i, LastValue(rows, name).value);
    assert forall j :: 0 <= j < |rows| && rows[j].name == name ==> j <= i;
  }

  /** Filtering by a prefix the metric name carries does not change its last value. */
  lemma {:induction false} LastValueFiltered(rows: seq<MetricRow>, p: MetricRow -> bool, name: string)
    requires forall i :: 0 <= i < |rows| && rows[i].name == name ==> p(rows[i])
    ensures LastValue(Filter(rows, p), name) == LastValue(rows, name)
    decreases |rows|
  {
    if |rows| > 0 {
      var init := rows[..|rows| - 1];
      var last := rows[|rows| - 1];
      assert rows == init + [last];
      FilterConcat(init, [last], p);
      assert forall i :: 0 <= i < |init| ==> init[i] == rows[i];
      LastValueFiltered(init, p, name);
      var fi := Filter(init, p);
      if p(last) {
        assert Filter([last], p) == [last];
        var f := fi + [last];
        assert f[|f| - 1] == last && f[..|f| - 1] == fi;
      } else {
        assert Filter([last], p) == [];
        assert Filter(rows, p) == fi;
      }
    }
  }

  predicate HasPrefix(r: MetricRow, prefix: string) { Strings.StartsWith(r.name, prefix) }

  function Rows(rows: seq<MetricRow>, prefix: string): (f: seq<MetricRow>)
    ensures forall i :: 0 <= i < |f| ==> HasPrefix(f[i], prefix)
  {
    Filter(rows, (r: MetricRow) => HasPrefix(r, prefix))
  }

  lemma LastValueByPrefix(rows: seq<MetricRow>, prefix: string, name: string)
    requires Strings.StartsWith(name, prefix)
    ensures LastValue(Rows(rows, prefix), name) == LastValue(rows, name)
  {
    LastValueFiltered(rows, (r: MetricRow) => HasPrefix(r, prefix), name);
  }

  // ---------------------------------------------------------------------------
  // Conversion funnel pass
  // ---------------------------------------------------------------------------

  /** The five funnel stages, in funnel order. */
  function Stage(i: nat): (s: string)
    requires i < 5
  {
    ["funnel_landing_page_views", "funnel_calculator_starts", "funnel_calculator_completions",
     "funnel_form_submissions", "funnel_proposal_requests"][i]
  }

  lemma StageIsFunnelMetric(i: nat)
    requires i < 5
    ensures Strings.StartsWith(Stage(i), "funnel_")
  {
  }

  /** The key of the `i`-th adjacent pair, `<current>_to_<next>`. */
  function PairKey(i: nat): (k: string)
    requires i < 4
  {
    Stage(i) + "_to_" + Stage(i + 1)
  }

  /**
   * The benchmark rate of pair `i`. The benchmark dictionary's keys are exactly
   * the four pair keys, so its `.get(..., 0)` default never applies.
   */
  function Benchmark(i: nat): (b: real)
    requires i < 4
    ensures b > 0.0
  {
    [25.0, 60.0, 25.0, 95.0][i]
  }

  /** `f"{benchmark:.1f}"` for the four benchmarks. */
  function BenchmarkText(i: nat): (t: string)
    requires i < 4
  {
    ["25.0", "60.0", "25.0", "95.0"][i]
  }

  /**
   * The conversion rate of pair `i`: present iff both stages have a value and
   * the upstream value is positive.
   */
  function ConversionRate(rows: seq<MetricRow>, i: nat): (r: Option<real>)
    requires i < 4
  {
    Rate(LastValue(rows, Stage(i)), LastValue(rows, Stage(i + 1)))
  }

  /** `next / current * 100` when both values exist and `current > 0`. */
  function Rate(current: Option<real>, next: Option<real>): (r: Option<real>)
    ensures r.Some? <==> current.Some? && next.Some? && current.value > 0.0
    ensures r.Some? ==> r.value == next.value / current.value * 100.0
  {
    if current.Some? && next.Some? && current.value > 0.0 then Some(next.value / current.value * 100.0)
    else None
  }

  /** The four conversion rates of the window, in pair order. */
  function Rates(rows: seq<MetricRow>): (r: seq<Option<real>>)
    ensures |r| == 4
    ensures forall j :: 0 <= j < 4 ==> r[j] == ConversionRate(rows, j)
  {
    seq(4, (j: int) requires 0 <= j < 4 => ConversionRate(rows, j))
  }

  /** Pair `j` is flagged when its rate is more than 20% below the benchmark. */
  predicate Flags(rates: seq<Option<real>>, j: nat)
    requires |rates| == 4 && j < 4
  {
    rates[j].Some? && rates[j].value < Benchmark(j) * 0.8
  }

  ghost predicate FunnelFlags(rows: seq<MetricRow>, j: nat)
    requires j < 4
  {
    Flags(Rates(rows), j)
  }

  /**
   * `stage_conversion.replace('funnel_', '').replace('_to_funnel_', ' → ')`
   * as written.
   */
  function StageNameAsWritten(key: string): (n: string)
    ensures 'f' !in key ==> n == key
  {
    NoFunnelIn(key);
    Strings.ReplaceAll(Strings.ReplaceAll(key, "funnel_", ""), "_to_funnel_", " \U{2192} ")
  }

  /**
   * The intended stage name: the `_to_funnel_` joint is replaced by an arrow
   * before the remaining `funnel_` prefixes are stripped.
   */
  function StageName(key: string): (n: string)
    ensures 'f' !in key ==> n == key
  {
    NoFunnelIn(key);
    Strings.ReplaceAll(Strings.ReplaceAll(key, "_to_funnel_", " \U{2192} "), "funnel_", "")
  }

  /** A key without an `f` holds neither pattern, so neither replacement touches it. */
  lemma NoFunnelIn(key: string)
    ensures 'f' !in key ==> !Strings.Contains(key, "funnel_") && !Strings.Contains(key, "_to_funnel_")
  {
    if 'f' !in key {
      Strings.CharAbsent(key, "funnel_", 0);
      Strings.CharAbsent(key, "_to_funnel_", 4);
    }
  }

  /**
   * As written, the first replacement also strips the `funnel_` after `_to_`,
   * so the second never matches and no arrow appears.
   */
  lemma StageNameAsWrittenShape(a: string, b: string)
    requires 'f' !in a && 'f' !in b
    ensures StageNameAsWritten("funnel_" + a + "_to_" + "funnel_" + b) == a + "_to_" + b
  {
    var pat, x := "funnel_", a + "_to_";
    assert "funnel_" + a + "_to_" + "funnel_" + b == pat + (x + (pat + b));
    NoFInJoinedName(a, x);
    StripBothPrefixes(x, b, pat);
    assert x + b == a + "_to_" + b;
    NoJointLeft(x + b, "_to_funnel_", " \U{2192} ");
  }

  lemma NoFInJoinedName(a: string, x: string)
    requires x == a + "_to_" && 'f' !in a
    ensures 'f' !in x
  {
  }

  lemma StripBothPrefixes(x: string, b: string, pat: string)
    requires pat == "funnel_"
    requires 'f' !in x && 'f' !in b
    ensures Strings.ReplaceAll(pat + (x + (pat + b)), pat, "") == x + b
  {
    var rest := Strings.ReplaceAll(pat + b, pat, "");
    assert rest == b by {
      Strings.ReplaceAllLeading(pat, b, "");
      Strings.CharAbsent(b, pat, 0);
    }
    assert Strings.ReplaceAll(x + (pat + b), pat, "") == x + rest by {
      Strings.ReplaceAllSkipFirstChar(x, pat + b, pat, "");
    }
    Strings.ReplaceAllLeading(pat, x + (pat + b), "");
  }

  lemma NoJointLeft(s: string, joint: string, arrow: string)
    requires joint == "_to_funnel_" && 'f' !in s
    ensures Strings.ReplaceAll(s, joint, arrow) == s
  {
    Strings.CharAbsent(s, joint, 4);
  }

  lemma JointToArrow(a: string, b: string, joint: string, arrow: string)
    requires joint == "_to_funnel_"
    requires 't' !in a && 'f' !in b
    ensures Strings.ReplaceAll(("funnel_" + a) + (joint + b), joint, arrow) == ("funnel_" + a) + (arrow + b)
  {
    var x := "funnel_" + a;
    assert 't' !in x;
    Strings.ReplaceAllSkipSecondChar(x, joint + b, joint, arrow);
    Strings.ReplaceAllLeading(joint, b, arrow);
    Strings.CharAbsent(b, joint, 4);
  }

  lemma StripFunnelPrefix(a: string, b: string, prefix: string)
    requires prefix == "funnel_"
    requires 'f' !in a && 'f' !in b
    ensures Strings.ReplaceAll(prefix + (a + b), prefix, "") == a + b
  {
    Strings.ReplaceAllLeading(prefix, a + b, "");
    Strings.ReplaceAllSkipFirstChar(a, b, prefix, "");
    Strings.CharAbsent(b, prefix, 0);
  }

  /** The intended order turns the joint into an arrow and strips both prefixes. */
  lemma StageNameShape(a: string, b: string)
    requires 'f' !in a && 'f' !in b && 't' !in a
    ensures StageName("funnel_" + a + "_to_" + "funnel_" + b) == a + " \U{2192} " + b
  {
    var pat, joint, arrow := "funnel_", "_to_funnel_", " \U{2192} ";
    var key := "funnel_" + a + "_to_" + "funnel_" + b;
    var mid := (pat + a) + (arrow + b);
    assert Strings.ReplaceAll(key, joint, arrow) == mid by {
      assert key == (pat + a) + (joint + b);
      JointToArrow(a, b, joint, arrow);
    }
    assert Strings.ReplaceAll(mid, pat, "") == a + arrow + b by {
      var y := a + arrow;
      assert mid == pat + (y + b);
      NoFInArrowName(a, arrow, y);
      StripFunnelPrefix(y, b, pat);
    }
  }

  lemma NoFInArrowName(a: string, arrow: string, y: string)
    requires arrow == " \U{2192} " && y == a + arrow && 'f' !in a
    ensures 'f' !in y
  {
  }

  /** On the first pair: "landing_page_views_to_calculator_starts" instead of an arrow. */
  lemma StageNameExample(key: string, a: string, b: string)
    requires key == PairKey(0) && a == "landing_page_views" && b == "calculator_starts"
    ensures StageNameAsWritten(key) == a + "_to_" + b
    ensures StageName(key) == a + " \U{2192} " + b
  {
    assert key == "funnel_" + a + "_to_" + "funnel_" + b by {
      FirstPairKey(a, b);
    }
    FirstPairNames(a, b);
    StageNameAsWrittenShape(a, b);
    StageNameShape(a, b);
  }

  lemma FirstPairKey(a: string, b: string)
    requires a == "landing_page_views" && b == "calculator_starts"
    ensures PairKey(0) == "funnel_" + a + "_to_" + "funnel_" + b
  {
    var pat := "funnel_";
    assert Stage(0) == pat + a;
    assert Stage(1) == pat + b;
    assert (pat + a) + "_to_" + (pat + b) == "funnel_" + a + "_to_" + "funnel_" + b;
  }

  lemma FirstPairNames(a: string, b: string)
    requires a == "landing_page_views" && b == "calculator_starts"
    ensures 'f' !in a && 'f' !in b && 't' !in a
  {
  }

  function FunnelId(i: nat): (id: string)
    requires i < 4
  {
    "funnel_optimization_" + PairKey(i)
  }

  function FunnelRec(i: nat, rate: real, now: int): (r: Recommendation)
    requires i < 4
  {
    var name := StageName(PairKey(i));
    Recommendation(
      FunnelId(i), "Optimize " + name + " Conversion",
      TacticalOptimization, High, 15.0, 0.8, "medium", 14,
      ["UX Designer", "Developer", "Marketing Manager"],
      ["Increase " + name + " conversion to " + BenchmarkText(i) + "%"],
      ["May initially decrease conversion during testing"],
      map["current_rate" := rate, "benchmark" := Benchmark(i),
          "improvement_needed" := Benchmark(i) - rate],
      now, "DecisionEngine")
  }

  /** Every funnel recommendation carries the same matrix inputs. */
  lemma FunnelRecShape(i: nat, rate: real, now: int)
    requires i < 4
    ensures var r := FunnelRec(i, rate, now);
      && r.id == FunnelId(i)
      && r.decisionType == TacticalOptimization && r.priority == High
      && r.estimatedImpact == 15.0 && r.confidenceLevel == 0.8
      && r.implementationEffort == "medium" && r.implementationTimeline == 14
      && "improvement_needed" in r.supportingData && "benchmark" in r.supportingData
      && "current_rate" in r.supportingData
      && r.supportingData["current_rate"] == rate
      && r.supportingData["benchmark"] == Benchmark(i)
      && r.supportingData["improvement_needed"] == Benchmark(i) - rate
  {
    var r := FunnelRec(i, rate, now);
    assert "current_rate" != "benchmark";
    assert "current_rate" != "improvement_needed";
    assert "benchmark" != "improvement_needed";
  }

  /** The recommendations for pairs `i..3`, in pair order. */
  /**
   * The flagged pairs among `i..3` with their rates, in pair order (the
   * iteration order of the `conversion_rates` dictionary).
   */
  function FlaggedFrom(rates: seq<Option<real>>, i: nat): (r: seq<(nat, real)>)
    requires |rates| == 4 && i <= 4
    ensures |r| <= 4 - i
    ensures forall k :: 0 <= k < |r| ==>
              i <= r[k].0 < 4 && Flags(rates, r[k].0) && r[k].1 == rates[r[k].0].value
    ensures forall j :: i <= j < 4 && Flags(rates, j) ==> (j, rates[j].value) in r
    decreases 4 - i
  {
    if i == 4 then []
    else
      var rest := FlaggedFrom(rates, i + 1);
      if Flags(rates, i) then
        var r := [(i, rates[i].value)] + rest;
        assert forall k :: 1 <= k < |r| ==> r[k] == rest[k - 1];
        r
      else rest
  }

  /** Pair indices strictly increasing along the sequence. */
  predicate Increasing(r: seq<(nat, real)>)
  {
    forall k, l :: 0 <= k < l < |r| ==> r[k].0 < r[l].0
  }

  lemma ConsIncreasing(i: nat, v: real, rest: seq<(nat, real)>)
    requires forall k :: 0 <= k < |rest| ==> i < rest[k].0
    requires Increasing(rest)
    ensures Increasing([(i, v)] + rest)
  {
    var r := [(i, v)] + rest;
    forall k, l | 0 <= k < l < |r|
      ensures r[k].0 < r[l].0
    {
      assert r[l] == rest[l - 1];
      if k > 0 {
        assert r[k] == rest[k - 1];
      }
    }
  }

  /** The flagged pairs come out in increasing pair order. */
  lemma {:induction false} FlaggedFromOrdered(rates: seq<Option<real>>, i: nat)
    requires |rates| == 4 && i <= 4
    ensures Increasing(FlaggedFrom(rates, i))
    decreases 4 - i
  {
    if i < 4 {
      FlaggedFromOrdered(rates, i + 1);
      var rest := FlaggedFrom(rates, i + 1);
      if Flags(rates, i) {
        assert forall k :: 0 <= k < |rest| ==> i < rest[k].0;
        ConsIncreasing(i, rates[i].value, rest);
        assert FlaggedFrom(rates, i) == [(i, rates[i].value)] + rest;
      }
    }
  }

  /** The flagged pairs the pass reports; the `funnel_` pre-filter is applied as written. */
  function FunnelFlagged(rows: seq<MetricRow>): (r: seq<(nat, real)>)
    ensures |r| <= 4
  {
    var f := Rows(rows, "funnel_");
    if |f| == 0 then [] else FlaggedFrom(Rates(f), 0)
  }

  /** `_analyze_conversion_funnel`: one recommendation per flagged pair. */
  function AnalyzeFunnel(rows: seq<MetricRow>, now: int): (r: seq<Recommendation>)
    ensures |r| <= 4
    ensures |r| == |FunnelFlagged(rows)|
  {
    var p := FunnelFlagged(rows);
    seq(|p|, k requires 0 <= k < |p| => if p[k].0 < 4 then FunnelRec(p[k].0, p[k].1, now) else FunnelRec(0, 0.0, now))
  }

  lemma RateCongruent(f: seq<MetricRow>, rows: seq<MetricRow>, j: nat)
    requires j < 4
    requires LastValue(f, Stage(j)) == LastValue(rows, Stage(j))
    requires LastValue(f, Stage(j + 1)) == LastValue(rows, Stage(j + 1))
    ensures ConversionRate(f, j) == ConversionRate(rows, j)
  {
  }

  lemma StageUnfiltered(rows: seq<MetricRow>, s: nat)
    requires s < 5
    ensures LastValue(Rows(rows, "funnel_"), Stage(s)) == LastValue(rows, Stage(s))
  {
    StageIsFunnelMetric(s);
    LastValueByPrefix(rows, "funnel_", Stage(s));
  }

  /** The `funnel_` pre-filter changes no conversion rate. */
  lemma FunnelRatesUnfiltered(rows: seq<MetricRow>, j: nat)
    requires j < 4
    ensures ConversionRate(Rows(rows, "funnel_"), j) == ConversionRate(rows, j)
  {
    StageUnfiltered(rows, j);
    StageUnfiltered(rows, j + 1);
    RateCongruent(Rows(rows, "funnel_"), rows, j);
  }

  /**
   * The pass reports exactly the pairs whose whole-window rate is below 80% of
   * the benchmark, in pair order: the emptiness guard and the pre-filter
   * change nothing.
   */
  lemma FunnelFlaggedIff(rows: seq<MetricRow>)
    ensures FunnelFlagged(rows) == FlaggedFrom(Rates(rows), 0)
    ensures forall j :: 0 <= j < 4 && FunnelFlags(rows, j) ==>
              (j, ConversionRate(rows, j).value) in FunnelFlagged(rows)
    ensures forall k :: 0 <= k < |FunnelFlagged(rows)| ==> FunnelFlags(rows, FunnelFlagged(rows)[k].0)
  {
    var f := Rows(rows, "funnel_");
    forall j: nat | j < 4
      ensures ConversionRate(f, j) == ConversionRate(rows, j)
    {
      FunnelRatesUnfiltered(rows, j);
    }
    assert Rates(f) == Rates(rows);
    if |f| == 0 {
      forall j: nat | j < 4
        ensures !Flags(Rates(rows), j)
      {
        assert LastValue(f, Stage(j)).None?;
      }
      WithNoFlags(Rates(rows), 0);
    }
  }

  lemma {:induction false} WithNoFlags(rates: seq<Option<real>>, i: nat)
    requires |rates| == 4 && i <= 4
    requires forall j: nat :: i <= j < 4 ==> !Flags(rates, j)
    ensures FlaggedFrom(rates, i) == []
    decreases 4 - i
  {
    if i < 4 {
      WithNoFlags(rates, i + 1);
    }
  }

  /** Each funnel recommendation is the one for its flagged pair. */
  lemma AnalyzeFunnelItems(rows: seq<MetricRow>, now: int)
    ensures forall k :: 0 <= k < |AnalyzeFunnel(rows, now)| ==>
              var (j, rate) := FunnelFlagged(rows)[k];
              j < 4 && FunnelFlags(rows, j) && rate == ConversionRate(rows, j).value
              && AnalyzeFunnel(rows, now)[k] == FunnelRec(j, rate, now)
  {
    var p, rates, recs := FunnelFlagged(rows), Rates(rows), AnalyzeFunnel(rows, now);
    assert forall k :: 0 <= k < |p| ==> p[k].0 < 4 && Flags(rates, p[k].0) && p[k].1 == rates[p[k].0].value by {
      FunnelFlaggedIff(rows);
    }
    forall k | 0 <= k < |recs|
      ensures var (j, rate) := p[k];
        j < 4 && FunnelFlags(rows, j) && rate == ConversionRate(rows, j).value && recs[k] == FunnelRec(j, rate, now)
    {
      var j := p[k].0;
      assert rates[j] == ConversionRate(rows, j);
    }
  }

  // ---------------------------------------------------------------------------
  // Traffic, email and sales passes
  // ---------------------------------------------------------------------------

  function BounceRec(bounce: real, now: int): (r: Recommendation)
  {
    Recommendation(
      "reduce_bounce_rate", "Reduce High Bounce Rate",
      TacticalOptimization, High, 12.0, 0.85, "medium", 10,
      ["Content Writer", "UX Designer", "Developer"],
      ["Reduce bounce rate below 50%"],
      ["Changes may initially impact SEO rankings"],
      map["current_bounce_rate" := bounce], now, "DecisionEngine")
  }

  /** `_analyze_traffic_quality`: the latest bounce rate strictly above 60. */
  function AnalyzeTraffic(rows: seq<MetricRow>, now: int): (r: seq<Recommendation>)
    ensures |r| <= 1
    ensures |r| == 1 ==> exists b :: b > 60.0 && r[0] == BounceRec(b, now)
  {
    var t := Rows(rows, "ga4_");
    if |t| == 0 then []
    else match LastValue(t, "ga4_bounce_rate")
      case Some(b) => if b > 60.0 then [BounceRec(b, now)] else []
      case None => []
  }

  lemma TrafficEmitsIff(rows: seq<MetricRow>, now: int)
    ensures var b := LastValue(rows, "ga4_bounce_rate");
      AnalyzeTraffic(rows, now) == if b.Some? && b.value > 60.0 then [BounceRec(b.value, now)] else []
  {
    assert Strings.StartsWith("ga4_bounce_rate", "ga4_");
    LastValueByPrefix(rows, "ga4_", "ga4_bounce_rate");
    if |Rows(rows, "ga4_")| == 0 {
      assert LastValue(Rows(rows, "ga4_"), "ga4_bounce_rate").None?;
    }
  }

  function OpenRateRec(openRate: real, now: int): (r: Recommendation)
  {
    Recommendation(
      "improve_email_open_rates", "Improve Email Open Rates",
      TacticalOptimization, Medium, 8.0, 0.75, "low", 7,
      ["Email Marketing Specialist"],
      ["Increase open rate above 35%"],
      ["Subject line changes may temporarily confuse subscribers"],
      map["current_open_rate" := openRate], now, "DecisionEngine")
  }

  /** `_analyze_email_performance`: the latest open rate strictly below 30. */
  function AnalyzeEmail(rows: seq<MetricRow>, now: int): (r: seq<Recommendation>)
    ensures |r| <= 1
    ensures |r| == 1 ==> exists o :: o < 30.0 && r[0] == OpenRateRec(o, now)
  {
    var e := Rows(rows, "email_");
    if |e| == 0 then []
    else match LastValue(e, "email_open_rate")
      case Some(o) => if o < 30.0 then [OpenRateRec(o, now)] else []
      case None => []
  }

  lemma EmailEmitsIff(rows: seq<MetricRow>, now: int)
    ensures var o := LastValue(rows, "email_open_rate");
      AnalyzeEmail(rows, now) == if o.Some? && o.value < 30.0 then [OpenRateRec(o.value, now)] else []
  {
    assert Strings.StartsWith("email_open_rate", "email_");
    LastValueByPrefix(rows, "email_", "email_open_rate");
    if |Rows(rows, "email_")| == 0 {
      assert LastValue(Rows(rows, "email_"), "email_open_rate").None?;
    }
  }

  function QualificationRec(leads: real, qualified: real, rate: real, now: int): (r: Recommendation)
  {
    Recommendation(
      "improve_lead_qualification", "Improve Lead Qualification Process",
      StrategicPivot, High, 20.0, 0.7, "medium", 21,
      ["Sales Manager", "Marketing Manager", "Data Analyst"],
      ["Increase qualification rate above 70%"],
      ["May temporarily reduce lead volume"],
      map["total_leads" := leads, "qualified_leads" := qualified, "qualification_rate" := rate],
      now, "DecisionEngine")
  }

  /** The sales rule on the latest lead counts. */
  function SalesFor(leads: Option<real>, qualified: Option<real>, now: int): (r: seq<Recommendation>)
    ensures |r| == 1 ==> exists l, q, qr :: r[0] == QualificationRec(l, q, qr, now)
    ensures |r| <= 1
    ensures |r| == 1 <==> leads.Some? && qualified.Some? && leads.value > 0.0
                          && qualified.value / leads.value * 100.0 < 60.0
    ensures |r| == 1 ==> r[0] == QualificationRec(leads.value, qualified.value,
                                                  qualified.value / leads.value * 100.0, now)
  {
    if leads.Some? && qualified.Some? && leads.value > 0.0 then
      var rate := qualified.value / leads.value * 100.0;
      if rate < 60.0 then [QualificationRec(leads.value, qualified.value, rate, now)] else []
    else []
  }

  /** `_analyze_sales_performance`: positive leads and a qualification rate below 60%. */
  function AnalyzeSales(rows: seq<MetricRow>, now: int): (r: seq<Recommendation>)
    ensures |r| <= 1
    ensures |r| == 1 ==> exists l, q, qr :: r[0] == QualificationRec(l, q, qr, now) && qr < 60.0
  {
    var c := Rows(rows, "crm_");
    if |c| == 0 then []
    else SalesFor(LastValue(c, "crm_leads_created"), LastValue(c, "crm_leads_qualified"), now)
  }

  lemma SalesEmitsIff(rows: seq<MetricRow>, now: int)
    ensures AnalyzeSales(rows, now)
            == SalesFor(LastValue(rows, "crm_leads_created"), LastValue(rows, "crm_leads_qualified"), now)
  {
    assert Strings.StartsWith("crm_leads_created", "crm_");
    assert Strings.StartsWith("crm_leads_qualified", "crm_");
    LastValueByPrefix(rows, "crm_", "crm_leads_created");
    LastValueByPrefix(rows, "crm_", "crm_leads_qualified");
    if |Rows(rows, "crm_")| == 0 {
      assert LastValue(Rows(rows, "crm_"), "crm_leads_created").None?;
    }
  }

  // ---------------------------------------------------------------------------
  // Prioritisation
  // ---------------------------------------------------------------------------

  /** A recommendation with the `priority_score` and `category` attached to it. */
  datatype Scored = Scored(rec: Recommendation, priorityScore: real, category: Category)

  function Score(r: Recommendation): (s: Scored)
    ensures s.rec == r
    ensures s.priorityScore == PriorityScore(r.estimatedImpact, r.implementationEffort, r.confidenceLevel)
    ensures s.category == Categorize(r.estimatedImpact, r.implementationEffort)
  {
    Scored(r, PriorityScore(r.estimatedImpact, r.implementationEffort, r.confidenceLevel),
           Categorize(r.estimatedImpact, r.implementationEffort))
  }

  function ScoreAll(rs: seq<Recommendation>): (s: seq<Scored>)
    ensures |s| == |rs|
    ensures forall i :: 0 <= i < |rs| ==> s[i] == Score(rs[i])
  {
    seq(|rs|, i requires 0 <= i < |rs| => Score(rs[i]))
  }

  /** Descending score as an ascending sort key. */
  function DescKey(s: Scored): real { -s.priorityScore }

  /** Highest score first. */
  ghost predicate ByScoreDescending(s: seq<Scored>)
  {
    forall i, j :: 0 <= i < j < |s| ==> s[i].priorityScore >= s[j].priorityScore
  }

  /**
   * `_prioritize_recommendations`: `sorted(..., reverse=True)` is a stable
   * descending sort, so equal scores keep their input order (`PrioritizeIsStable`).
   */
  function Prioritize(rs: seq<Recommendation>): (r: seq<Scored>)
    ensures |r| == |rs|
    ensures multiset(r) == multiset(ScoreAll(rs))
    ensures ByScoreDescending(r)
  {
    var r := SortBy(ScoreAll(rs), DescKey);
    assert forall i, j :: 0 <= i < j < |r| ==> DescKey(r[i]) <= DescKey(r[j]);
    r
  }

  lemma PrioritizeIsStable(rs: seq<Recommendation>, score: real)
    ensures WithKey(Prioritize(rs), DescKey, -score) == WithKey(ScoreAll(rs), DescKey, -score)
  {
    SortByIsStable(ScoreAll(rs), DescKey, -score);
  }

  /** `analyze_performance_data` on the fetched window. */
  function AnalyzePerformance(rows: seq<MetricRow>, now: int): (r: seq<Scored>)
    ensures |rows| == 0 ==> r == []
    ensures |r| <= 7
  {
    if |rows| == 0 then []
    else
      Prioritize(AnalyzeFunnel(rows, now) + AnalyzeTraffic(rows, now)
                 + AnalyzeEmail(rows, now) + AnalyzeSales(rows, now))
  }

  /** A non-empty window yields the four passes' results, re-sorted by score. */
  lemma AnalyzePerformanceIsPermutation(rows: seq<MetricRow>, now: int)
    requires |rows| > 0
    ensures var all := AnalyzeFunnel(rows, now) + AnalyzeTraffic(rows, now)
                       + AnalyzeEmail(rows, now) + AnalyzeSales(rows, now);
      && multiset(AnalyzePerformance(rows, now)) == multiset(ScoreAll(all))
      && ByScoreDescending(AnalyzePerformance(rows, now))
  {
  }

  lemma FunnelScore(i: nat, rate: real, now: int)
    requires i < 4
    ensures Score(FunnelRec(i, rate, now)).priorityScore == 840.0
    ensures Score(FunnelRec(i, rate, now)).category == FillIn
  {
    assert Strings.Lower("medium") == "medium";
  }

  lemma BounceScore(b: real, now: int)
    ensures Score(BounceRec(b, now)).priorityScore == 714.0
    ensures Score(BounceRec(b, now)).category == FillIn
  {
    assert Strings.Lower("medium") == "medium";
  }

  lemma OpenRateScore(o: real, now: int)
    ensures Score(OpenRateRec(o, now)).priorityScore == 600.0
    ensures Score(OpenRateRec(o, now)).category == FillIn
  {
    assert Strings.Lower("low") == "low";
  }

  /** The sales recommendation is the only quick win and outranks all others. */
  lemma QualificationScore(l: real, q: real, qr: real, now: int)
    ensures Score(QualificationRec(l, q, qr, now)).priorityScore == 980.0
    ensures Score(QualificationRec(l, q, qr, now)).category == QuickWin
  {
    assert Strings.Lower("medium") == "medium";
  }

  lemma FunnelScores(rows: seq<MetricRow>, now: int)
    ensures forall k :: 0 <= k < |AnalyzeFunnel(rows, now)| ==> DescKey(Score(AnalyzeFunnel(rows, now)[k])) == -840.0
  {
    var p := FunnelFlagged(rows);
    var f := AnalyzeFunnel(rows, now);
    forall k | 0 <= k < |f|
      ensures DescKey(Score(f[k])) == -840.0
    {
      if p[k].0 < 4 {
        FunnelScore(p[k].0, p[k].1, now);
      } else {
        FunnelScore(0, 0.0, now);
      }
    }
  }

  lemma TrafficScores(rows: seq<MetricRow>, now: int)
    ensures forall k :: 0 <= k < |AnalyzeTraffic(rows, now)| ==> Score(AnalyzeTraffic(rows, now)[k]).priorityScore == 714.0
  {
    var t := AnalyzeTraffic(rows, now);
    if |t| == 1 {
      var b :| b > 60.0 && t[0] == BounceRec(b, now);
      BounceScore(b, now);
    }
  }

  lemma EmailScores(rows: seq<MetricRow>, now: int)
    ensures forall k :: 0 <= k < |AnalyzeEmail(rows, now)| ==> Score(AnalyzeEmail(rows, now)[k]).priorityScore == 600.0
  {
    var e := AnalyzeEmail(rows, now);
    if |e| == 1 {
      var o :| o < 30.0 && e[0] == OpenRateRec(o, now);
      OpenRateScore(o, now);
    }
  }

  lemma SalesScores(rows: seq<MetricRow>, now: int)
    ensures forall k :: 0 <= k < |AnalyzeSales(rows, now)| ==> Score(AnalyzeSales(rows, now)[k]).priorityScore == 980.0
  {
    var s := AnalyzeSales(rows, now);
    if |s| == 1 {
      var l, q, qr :| s[0] == QualificationRec(l, q, qr, now);
      QualificationScore(l, q, qr, now);
    }
  }

  /** Three blocks scored `a`, `b` and `c`, none of them `score`, hold no recommendation scored `score`. */
  lemma BlocksAvoidScore(t: seq<Recommendation>, e: seq<Recommendation>, s: seq<Recommendation>,
                         a: real, b: real, c: real, score: real)
    requires forall k :: 0 <= k < |t| ==> Score(t[k]).priorityScore == a
    requires forall k :: 0 <= k < |e| ==> Score(e[k]).priorityScore == b
    requires forall k :: 0 <= k < |s| ==> Score(s[k]).priorityScore == c
    requires a != score && b != score && c != score
    ensures forall k :: 0 <= k < |t + e + s| ==> DescKey(ScoreAll(t + e + s)[k]) != -score
  {
    var rest := t + e + s;
    forall k | 0 <= k < |rest|
      ensures DescKey(ScoreAll(rest)[k]) != -score
    {
      if k < |t| {
        assert rest[k] == t[k];
      } else if k < |t| + |e| {
        assert rest[k] == e[k - |t|];
      } else {
        assert rest[k] == s[k - |t| - |e|];
      }
    }
  }

  lemma OtherScores(rows: seq<MetricRow>, now: int)
    ensures var rest := AnalyzeTraffic(rows, now) + AnalyzeEmail(rows, now) + AnalyzeSales(rows, now);
      forall k :: 0 <= k < |rest| ==> DescKey(ScoreAll(rest)[k]) != -840.0
  {
    TrafficScores(rows, now);
    EmailScores(rows, now);
    SalesScores(rows, now);
    BlocksAvoidScore(AnalyzeTraffic(rows, now), AnalyzeEmail(rows, now), AnalyzeSales(rows, now),
                     714.0, 600.0, 980.0, 840.0);
  }

  lemma Assoc4<T>(a: seq<T>, b: seq<T>, c: seq<T>, d: seq<T>)
    ensures a + b + c + d == a + (b + c + d)
  {
  }

  lemma ScoreAllConcat(a: seq<Recommendation>, b: seq<Recommendation>)
    ensures ScoreAll(a + b) == ScoreAll(a) + ScoreAll(b)
  {
    assert forall i :: 0 <= i < |a| ==> (a + b)[i] == a[i];
    assert forall i :: |a| <= i < |a| + |b| ==> (a + b)[i] == b[i - |a|];
  }

  /** A block whose score no other recommendation shares keeps its order. */
  lemma TiesKeepOrder(f: seq<Recommendation>, rest: seq<Recommendation>, score: real)
    requires forall k :: 0 <= k < |f| ==> DescKey(ScoreAll(f)[k]) == -score
    requires forall k :: 0 <= k < |rest| ==> DescKey(ScoreAll(rest)[k]) != -score
    ensures WithKey(Prioritize(f + rest), DescKey, -score) == ScoreAll(f)
  {
    PrioritizeIsStable(f + rest, score);
    ScoreAllConcat(f, rest);
    KeyBlock(ScoreAll(f), ScoreAll(rest), -score);
  }

  /** A block all keyed `k`, followed by elements none keyed `k`: selecting key `k` gives the block back. */
  lemma KeyBlock(sf: seq<Scored>, sr: seq<Scored>, k: real)
    requires forall i :: 0 <= i < |sf| ==> DescKey(sf[i]) == k
    requires forall i :: 0 <= i < |sr| ==> DescKey(sr[i]) != k
    ensures WithKey(sf + sr, DescKey, k) == sf
  {
    WithKeyAll(sf, DescKey, k);
    WithKeyNone(sr, DescKey, k);
    WithKeyConcat(sf, sr, DescKey, k);
  }

  /** All funnel recommendations tie at 840 and so come out in pair order. */
  lemma FunnelKeepsPairOrder(rows: seq<MetricRow>, now: int)
    requires |rows| > 0
    ensures WithKey(AnalyzePerformance(rows, now), DescKey, -840.0)
            == ScoreAll(AnalyzeFunnel(rows, now))
  {
    var f := AnalyzeFunnel(rows, now);
    var t := AnalyzeTraffic(rows, now);
    var e := AnalyzeEmail(rows, now);
    var s := AnalyzeSales(rows, now);
    Assoc4(f, t, e, s);
    FunnelScores(rows, now);
    OtherScores(rows, now);
    TiesKeepOrder(f, t + e + s, 840.0);
  }

  /** The single top-scoring recommendation is ranked first. */
  lemma TopRanksFirst(all: seq<Recommendation>, n: nat)
    requires n < |all|
    requires forall k :: 0 <= k < |all| && k != n ==>
               ScoreAll(all)[k].priorityScore < ScoreAll(all)[n].priorityScore
    ensures Prioritize(all)[0] == Score(all[n])
  {
    var sc := ScoreAll(all);
    var r := Prioritize(all);
    assert sc[n] in multiset(r);
    var i :| 0 <= i < |r| && r[i] == sc[n];
    assert r[0] in multiset(sc);
    var j :| 0 <= j < |sc| && sc[j] == r[0];
    assert r[0].priorityScore >= sc[n].priorityScore;
  }

  /** A qualification recommendation, when present, is ranked first. */
  lemma SalesRanksFirst(rows: seq<MetricRow>, now: int)
    requires |rows| > 0 && |AnalyzeSales(rows, now)| == 1
    ensures AnalyzePerformance(rows, now)[0] == Score(AnalyzeSales(rows, now)[0])
  {
    var f := AnalyzeFunnel(rows, now);
    var t := AnalyzeTraffic(rows, now);
    var e := AnalyzeEmail(rows, now);
    var s := AnalyzeSales(rows, now);
    FunnelScores(rows, now);
    TrafficScores(rows, now);
    EmailScores(rows, now);
    SalesScores(rows, now);
    SalesFirstAmong(f, t, e, s);
  }

  lemma SalesFirstAmong(f: seq<Recommendation>, t: seq<Recommendation>, e: seq<Recommendation>, s: seq<Recommendation>)
    requires |s| == 1
    requires forall k :: 0 <= k < |f| ==> DescKey(Score(f[k])) == -840.0
    requires forall k :: 0 <= k < |t| ==> Score(t[k]).priorityScore == 714.0
    requires forall k :: 0 <= k < |e| ==> Score(e[k]).priorityScore == 600.0
    requires Score(s[0]).priorityScore == 980.0
    ensures Prioritize(f + t + e + s)[0] == Score(s[0])
  {
    var all := f + t + e + s;
    var n := |f| + |t| + |e|;
    forall k | 0 <= k < |all| && k != n
      ensures ScoreAll(all)[k].priorityScore < ScoreAll(all)[n].priorityScore
    {
      if k < |f| {
        assert all[k] == f[k];
      } else if k < |f| + |t| {
        assert all[k] == t[k - |f|];
      } else {
        assert all[k] == e[k - |f| - |t|];
      }
    }
    assert all[n] == s[0];
    TopRanksFirst(all, n);
  }

  lemma {:induction false} WithKeyAll<T>(s: seq<T>, key: T -> real, k: real)
    requires forall i :: 0 <= i < |s| ==> key(s[i]) == k
    ensures WithKey(s, key, k) == s
    decreases |s|
  {
    if |s| > 0 {
      WithKeyAll(s[1..], key, k);
      assert s == [s[0]] + s[1..];
    }
  }

  lemma {:induction false} WithKeyNone<T>(s: seq<T>, key: T -> real, k: real)
    requires forall i :: 0 <= i < |s| ==> key(s[i]) != k
    ensures WithKey(s, key, k) == []
    decreases |s|
  {
    if |s| > 0 {
      WithKeyNone(s[1..], key, k);
    }
  }

  lemma {:induction false} WithKeyConcat<T>(a: seq<T>, b: seq<T>, key: T -> real, k: real)
    ensures WithKey(a + b, key, k) == WithKey(a, key, k) + WithKey(b, key, k)
    decreases |a|
  {
    if |a| == 0 {
      assert a + b == b;
    } else {
      assert (a + b)[0] == a[0] && (a + b)[1..] == a[1..] + b;
      WithKeyConcat(a[1..], b, key, k);
    }
  }

  // ---------------------------------------------------------------------------
  // Recommendation store
  // ---------------------------------------------------------------------------

  /** The recommendations table, keyed by its primary key `id`. */
  type Store = map<string, Recommendation>

  /** The last recommendation in `rs` with the given id. */
  function LastWithId(rs: seq<Recommendation>, id: string): (r: Option<Recommendation>)
    ensures r.None? <==> forall k :: 0 <= k < |rs| ==> rs[k].id != id
    ensures r.Some? ==> r.value.id == id && r.value in rs
    decreases |rs|
  {
    if |rs| == 0 then None
    else if rs[|rs| - 1].id == id then Some(rs[|rs| - 1])
    else
      var init := rs[..|rs| - 1];
      assert forall k :: 0 <= k < |init| ==> init[k] == rs[k];
      LastWithId(init, id)
  }

  /** `save_recommendations`: one `INSERT OR REPLACE` per recommendation, in order. */
  function SaveRecommendations(store: Store, rs: seq<Recommendation>): (r: Store)
    ensures forall id :: id in r <==> id in store || LastWithId(rs, id).Some?
    ensures forall id :: id in r && LastWithId(rs, id).Some? ==> r[id] == LastWithId(rs, id).value
    ensures forall id :: id in store && LastWithId(rs, id).None? ==> r[id] == store[id]
    decreases |rs|
  {
    if |rs| == 0 then store
    else
      var init := rs[..|rs| - 1];
      var last := rs[|rs| - 1];
      assert forall id :: id != last.id ==> LastWithId(rs, id) == LastWithId(init, id);
      SaveRecommendations(store, init)[last.id := last]
  }

  /**
   * Saving a recommendation whose id is already stored replaces that one row:
   * the table keeps its size and the row holds the new fields.
   */
  lemma SaveReplaces(store: Store, rec: Recommendation)
    requires rec.id in store
    ensures var r := SaveRecommendations(store, [rec]);
      |r| == |store| && r[rec.id] == rec
      && forall id :: id in store && id != rec.id ==> r[id] == store[id]
  {
    var r := SaveRecommendations(store, [rec]);
    assert LastWithId([rec], rec.id) == Some(rec);
    assert r.Keys == store.Keys;
  }

  // ---------------------------------------------------------------------------
  // Decision log
  // ---------------------------------------------------------------------------

  /** A `DecisionRecord`; `actual_impact` and `lessons_learned` start unset. */
  datatype DecisionRecord = DecisionRecord(
    recommendationId: string,
    decision: string,
    decisionRationale: string,
    approvedBudget: real,
    assignedTeam: seq<string>,
    targetCompletion: int,
    successCriteria: seq<string>,
    decisionMaker: string,
    decisionDate: int,
    status: ImplementationStatus,
    actualImpact: Option<real>,
    lessonsLearned: Option<string>)

  /** The initial status derived from the decision verb. */
  function StatusFor(decision: string): (s: ImplementationStatus)
    ensures s == Approved <==> decision == "approve"
    ensures s == Cancelled <==> decision == "reject"
    ensures s == PendingApproval <==> decision != "approve" && decision != "reject"
  {
    if decision == "approve" then Approved
    else if decision == "reject" then Cancelled
    else PendingApproval
  }

  const Day: int := 86400

  /** The arguments of `make_decision`; `None` stands for Python's `None` default. */
  datatype DecisionRequest = DecisionRequest(
    recommendationId: string,
    decision: string,
    rationale: string,
    decisionMaker: string,
    approvedBudget: real,
    assignedTeam: Option<seq<string>>,
    targetCompletion: Option<int>)

  /** A stored column value as `SELECT *` returns it. */
  datatype Column = Text(s: string) | Number(r: real) | Integer(n: int) | JsonList(items: seq<string>)
                  | JsonObject(m: map<string, real>) | Time(t: int)

  /** The recommendations row in table column order (0 id … 14 created_by). */
  function RowOf(r: Recommendation): (row: seq<Column>)
    ensures |row| == 15
    ensures row[0] == Text(r.id)
    ensures row[9] == JsonList(r.requiredResources)
    ensures row[10] == JsonList(r.successMetrics)
    ensures row[11] == JsonList(r.riskFactors)
  {
    [Text(r.id), Text(r.title), Text(""), Text(""), Integer(r.priority.Value()),
     Number(r.estimatedImpact), Number(r.confidenceLevel), Text(r.implementationEffort),
     Integer(r.implementationTimeline), JsonList(r.requiredResources),
     JsonList(r.successMetrics), JsonList(r.riskFactors), JsonObject(r.supportingData),
     Time(r.createdAt), Text(r.createdBy)]
  }

  /** `json.loads(rec_data[k])` for a list-valued column. */
  function ListColumn(row: seq<Column>, k: nat): (l: seq<string>)
  {
    if k < |row| && row[k].JsonList? then row[k].items else []
  }

  function NewRecord(req: DecisionRequest, criteria: seq<string>, now: int): (d: DecisionRecord)
  {
    DecisionRecord(
      req.recommendationId, req.decision, req.rationale, req.approvedBudget,
      req.assignedTeam.GetOr([]), req.targetCompletion.GetOr(now + 30 * Day),
      criteria, req.decisionMaker, now, StatusFor(req.decision), None, None)
  }

  /**
   * `make_decision` as written: the success criteria are read from column 11
   * of the fetched row, which is `risk_factors`.
   */
  function MakeDecisionAsWritten(store: Store, log: seq<DecisionRecord>, req: DecisionRequest, now: int)
    : (r: Result<(DecisionRecord, seq<DecisionRecord>)>)
    ensures r.Failure? <==> req.recommendationId !in store
    ensures r.Success? ==> var (d, log') := r.value;
      && log' == log + [d]
      && d.recommendationId == req.recommendationId
      && d.successCriteria == store[req.recommendationId].riskFactors
  {
    if req.recommendationId !in store then
      Failure("Recommendation " + req.recommendationId + " not found")
    else
      var d := NewRecord(req, ListColumn(RowOf(store[req.recommendationId]), 11), now);
      Success((d, log + [d]))
  }

  /**
   * `make_decision` with the success criteria taken from the recommendation's
   * `success_metrics` (column 10), as the code's own comment says.
   */
  function MakeDecision(store: Store, log: seq<DecisionRecord>, req: DecisionRequest, now: int)
    : (r: Result<(DecisionRecord, seq<DecisionRecord>)>)
    ensures r.Failure? <==> req.recommendationId !in store
    ensures r.Success? ==> var (d, log') := r.value;
      && log' == log + [d]
      && d.recommendationId == req.recommendationId
      && d.successCriteria == store[req.recommendationId].successMetrics
      && d.status == StatusFor(req.decision)
      && d.decisionDate == now
      && (req.assignedTeam.None? ==> d.assignedTeam == [])
      && (req.targetCompletion.None? ==> d.targetCompletion == now + 30 * Day)
      && (req.targetCompletion.Some? ==> d.targetCompletion == req.targetCompletion.value)
      && d.actualImpact.None? && d.lessonsLearned.None?
  {
    if req.recommendationId !in store then
      Failure("Recommendation " + req.recommendationId + " not found")
    else
      var d := NewRecord(req, ListColumn(RowOf(store[req.recommendationId]), 10), now);
      Success((d, log + [d]))
  }

  /** Both versions agree on everything except the success criteria. */
  lemma AsWrittenDiffersOnlyInCriteria(store: Store, log: seq<DecisionRecord>, req: DecisionRequest, now: int)
    ensures MakeDecisionAsWritten(store, log, req, now).Failure? <==> MakeDecision(store, log, req, now).Failure?
    ensures MakeDecision(store, log, req, now).Success? ==>
      var (d, _) := MakeDecision(store, log, req, now).value;
      var (w, wlog) := MakeDecisionAsWritten(store, log, req, now).value;
      && w == d.(successCriteria := store[req.recommendationId].riskFactors)
      && wlog == log + [w]
  {
  }

  /**
   * On a stored bounce-rate recommendation the as-written decision records the
   * risk factor "Changes may initially impact SEO rankings" as its success
   * criterion instead of "Reduce bounce rate below 50%".
   */
  lemma SuccessCriteriaExample(now: int)
    ensures var rec := BounceRec(65.0, now);
            var store := map[rec.id := rec];
            var req := DecisionRequest(rec.id, "approve", "", "System", 0.0, None, None);
      && MakeDecisionAsWritten(store, [], req, now).value.0.successCriteria
           == ["Changes may initially impact SEO rankings"]
      && MakeDecision(store, [], req, now).value.0.successCriteria
           == ["Reduce bounce rate below 50%"]
  {
  }

  /** Each successful decision appends exactly one row and keeps the earlier ones. */
  lemma DecisionLogGrows(store: Store, log: seq<DecisionRecord>, req: DecisionRequest, now: int)
    requires req.recommendationId in store
    ensures var (_, log') := MakeDecision(store, log, req, now).value;
      |log'| == |log| + 1 && log'[..|log|] == log
  {
  }
}
