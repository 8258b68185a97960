/**
 * The optimisation and proposal tracker (bmad_tracking_system.py).
 *
 * Its three SQLite tables become the fields of `TrackerDb`: metric rows and
 * proposal rows are sequences in insertion order, optimisations a map keyed
 * by their TEXT primary key. `CURRENT_TIMESTAMP` is the parameter `now`
 * (seconds); the AUTOINCREMENT counter of `proposal_tracking` is the field
 * `nextProposalId`. The markdown report text is not modelled; its rate
 * arithmetic is.
 */
module BmadTracker {
  import opened Wrappers

  const Day := 86400

  datatype MetricEntry = MetricEntry(
    timestamp: int,
    metricName: string,
    metricValue: real,
    optimizationId: Option<string>,
    source: string,
    notes: Option<string>)

  datatype Optimization = Optimization(
    id: string,
    title: string,
    implementedDate: int,
    expectedImpact: real,
    actualImpact: Option<real>,
    status: string,
    notes: string)

  datatype Proposal = Proposal(
    id: int,
    timestamp: int,
    clientName: string,
    packageType: string,
    totalValue: real,
    roiProjection: real,
    proposalOpened: bool,
    responseReceived: bool,
    closedWon: bool,
    optimizationVersion: string)

  datatype TrackerDb = TrackerDb(
    metrics: seq<MetricEntry>,
    optimizations: map<string, Optimization>,
    proposals: seq<Proposal>,
    nextProposalId: int)

  /** A fresh database: SQLite's first AUTOINCREMENT id is 1. */
  const EmptyDb := TrackerDb([], map[], [], 1)

  /** Every proposal id is positive, below the counter, and ids strictly increase along the table. */
  ghost predicate Valid(db: TrackerDb)
  {
    && (forall k :: 0 <= k < |db.proposals| ==> 0 < db.proposals[k].id < db.nextProposalId)
    && (forall i, j :: 0 <= i < j < |db.proposals| ==> db.proposals[i].id < db.proposals[j].id)
  }

  // ---------------------------------------------------------------------------
  // Optimisations
  // ---------------------------------------------------------------------------

  /**
   * `record_optimization`: INSERT OR REPLACE with only id, title, expected
   * impact and notes given, so a replaced row takes the column defaults again.
   */
  function RecordOptimization(db: TrackerDb, id: string, title: string, expectedImpact: real,
                              notes: string, now: int): (r: TrackerDb)
    ensures r.metrics == db.metrics && r.proposals == db.proposals && r.nextProposalId == db.nextProposalId
    ensures r.optimizations.Keys == db.optimizations.Keys + {id}
    ensures forall k :: k in db.optimizations && k != id ==> r.optimizations[k] == db.optimizations[k]
    ensures var o := r.optimizations[id];
      && o.id == id && o.title == title && o.expectedImpact == expectedImpact && o.notes == notes
      && o.status == "active" && o.implementedDate == now && o.actualImpact.None?
  {
    db.(optimizations := db.optimizations[id := Optimization(id, title, now, expectedImpact, None, "active", notes)])
  }

  /** Re-recording an optimisation forgets what happened to it: a completed one is active again. */
  lemma ReRecordResetsStatus(db: TrackerDb, id: string, title: string, impact: real, notes: string,
                             now: int, later: int, measured: real)
    ensures var r1 := RecordOptimization(db, id, title, impact, notes, now);
      var done := r1.(optimizations := r1.optimizations[id := r1.optimizations[id].(status := "completed", actualImpact := Some(measured))]);
      var r2 := RecordOptimization(done, id, title, impact, notes, later);
      r2.optimizations[id].status == "active" && r2.optimizations[id].actualImpact.None?
      && r2.optimizations[id].implementedDate == later
  {
  }

  // ---------------------------------------------------------------------------
  // Proposals
  // ---------------------------------------------------------------------------

  /**
   * `record_proposal_generation`: the row gets the next AUTOINCREMENT id,
   * which is returned; the three status flags start false.
   */
  function RecordProposalGeneration(db: TrackerDb, clientName: string, packageType: string,
                                    totalValue: real, roiProjection: real, version: string,
                                    now: int): (r: (int, TrackerDb))
    ensures r.0 == db.nextProposalId && r.1.nextProposalId == db.nextProposalId + 1
    ensures r.1.metrics == db.metrics && r.1.optimizations == db.optimizations
    ensures |r.1.proposals| == |db.proposals| + 1 && r.1.proposals[..|db.proposals|] == db.proposals
    ensures var p := r.1.proposals[|db.proposals|];
      && p.id == r.0 && p.timestamp == now && p.clientName == clientName && p.packageType == packageType
      && p.totalValue == totalValue && p.roiProjection == roiProjection && p.optimizationVersion == version
      && !p.proposalOpened && !p.responseReceived && !p.closedWon
  {
    var p := Proposal(db.nextProposalId, now, clientName, packageType, totalValue, roiProjection,
                      false, false, false, version);
    (db.nextProposalId, db.(proposals := db.proposals + [p], nextProposalId := db.nextProposalId + 1))
  }

  /** The version `record_proposal_generation` uses when none is given. */
  const DefaultOptimizationVersion := "v1.0"

  /** Recording a proposal keeps ids unique and increasing, and the returned id is new. */
  lemma RecordProposalKeepsValid(db: TrackerDb, clientName: string, packageType: string,
                                 totalValue: real, roiProjection: real, version: string, now: int)
    requires Valid(db)
    requires db.nextProposalId > 0
    ensures var (id, r) := RecordProposalGeneration(db, clientName, packageType, totalValue, roiProjection, version, now);
      && Valid(r)
      && forall k :: 0 <= k < |db.proposals| ==> db.proposals[k].id != id
  {
  }

  /** The SET clauses `update_proposal_status` builds, one per flag that is given. */
  function SetClauses(openedFlag: Option<bool>, responded: Option<bool>, closedWon: Option<bool>): (r: seq<string>)
    ensures |r| == (if openedFlag.Some? then 1 else 0) + (if responded.Some? then 1 else 0) + (if closedWon.Some? then 1 else 0)
    ensures r == [] <==> openedFlag.None? && responded.None? && closedWon.None?
  {
    (if openedFlag.Some? then ["proposal_opened = ?"] else [])
    + (if responded.Some? then ["response_received = ?"] else [])
    + (if closedWon.Some? then ["closed_won = ?"] else [])
  }

  function UpdateFlags(p: Proposal, openedFlag: Option<bool>, responded: Option<bool>, closedWon: Option<bool>): Proposal
  {
    p.(proposalOpened := openedFlag.GetOr(p.proposalOpened),
       responseReceived := responded.GetOr(p.responseReceived),
       closedWon := closedWon.GetOr(p.closedWon))
  }

  /**
   * `update_proposal_status`: the rows with the given id take every flag
   * that is given and keep the others; with no flag no UPDATE runs.
   */
  function UpdateProposalStatus(db: TrackerDb, id: int, openedFlag: Option<bool>, responded: Option<bool>,
                                closedWon: Option<bool>): (r: TrackerDb)
    ensures SetClauses(openedFlag, responded, closedWon) == [] ==> r == db
    ensures r.metrics == db.metrics && r.optimizations == db.optimizations && r.nextProposalId == db.nextProposalId
    ensures |r.proposals| == |db.proposals|
    ensures forall k :: 0 <= k < |db.proposals| && db.proposals[k].id != id ==> r.proposals[k] == db.proposals[k]
    ensures forall k :: 0 <= k < |db.proposals| && db.proposals[k].id == id ==>
      var p, q := db.proposals[k], r.proposals[k];
      && q.proposalOpened == (if openedFlag.Some? then openedFlag.value else p.proposalOpened)
      && q.responseReceived == (if responded.Some? then responded.value else p.responseReceived)
      && q.closedWon == (if closedWon.Some? then closedWon.value else p.closedWon)
      && q == p.(proposalOpened := q.proposalOpened, responseReceived := q.responseReceived, closedWon := q.closedWon)
  {
    if SetClauses(openedFlag, responded, closedWon) == [] then db
    else
      db.(proposals := seq(|db.proposals|, k requires 0 <= k < |db.proposals| =>
        if db.proposals[k].id == id then UpdateFlags(db.proposals[k], openedFlag, responded, closedWon)
        else db.proposals[k]))
  }

  /** Status updates never change the identity of a row, so validity is kept. */
  lemma UpdateKeepsValid(db: TrackerDb, id: int, openedFlag: Option<bool>, responded: Option<bool>, closedWon: Option<bool>)
    requires Valid(db)
    ensures Valid(UpdateProposalStatus(db, id, openedFlag, responded, closedWon))
  {
    var r := UpdateProposalStatus(db, id, openedFlag, responded, closedWon);
    assert forall k :: 0 <= k < |r.proposals| ==> r.proposals[k].id == db.proposals[k].id;
  }

  /** Setting one flag after another is the same as setting both at once. */
  lemma UpdatesCompose(db: TrackerDb, id: int, openedFlag: bool, closedWon: bool)
    ensures UpdateProposalStatus(UpdateProposalStatus(db, id, Some(openedFlag), None, None), id, None, None, Some(closedWon))
         == UpdateProposalStatus(db, id, Some(openedFlag), None, Some(closedWon))
  {
    var once := UpdateProposalStatus(db, id, Some(openedFlag), None, None);
    var twice := UpdateProposalStatus(once, id, None, None, Some(closedWon));
    var both := UpdateProposalStatus(db, id, Some(openedFlag), None, Some(closedWon));
    assert twice.proposals == both.proposals;
  }

  // ---------------------------------------------------------------------------
  // Metrics and impact
  // ---------------------------------------------------------------------------

  /** `record_current_metric`: a `live_tracking` row. */
  function RecordCurrentMetric(db: TrackerDb, name: string, value: real, optimizationId: Option<string>,
                               now: int): (r: TrackerDb)
    ensures r.metrics == db.metrics + [MetricEntry(now, name, value, optimizationId, "live_tracking", None)]
    ensures r.optimizations == db.optimizations && r.proposals == db.proposals
    ensures r.nextProposalId == db.nextProposalId
  {
    db.(metrics := db.metrics + [MetricEntry(now, name, value, optimizationId, "live_tracking", None)])
  }

  /** `timestamp BETWEEN lo AND hi` for the named metric. */
  predicate InWindow(e: MetricEntry, name: string, lo: int, hi: int)
  {
    e.metricName == name && lo <= e.timestamp <= hi
  }

  /** The values of the rows in the window, in table order. */
  function WindowValues(ms: seq<MetricEntry>, name: string, lo: int, hi: int): (r: seq<real>)
    ensures |r| <= |ms|
    ensures (exists k :: 0 <= k < |ms| && InWindow(ms[k], name, lo, hi)) <==> |r| > 0
    decreases |ms|
  {
    if |ms| == 0 then []
    else
      var rest := WindowValues(ms[1..], name, lo, hi);
      assert forall k :: 1 <= k < |ms| ==> ms[k] == ms[1..][k - 1];
      if InWindow(ms[0], name, lo, hi) then [ms[0].metricValue] + rest else rest
  }

  function Sum(xs: seq<real>): real
    decreases |xs|
  {
    if |xs| == 0 then 0.0 else xs[0] + Sum(xs[1..])
  }

  /** SQL `AVG`: NULL over no rows. */
  function Avg(xs: seq<real>): (r: Option<real>)
    ensures r.None? <==> |xs| == 0
    ensures r.Some? ==> r.value * |xs| as real == Sum(xs)
  {
    if |xs| == 0 then None else Some(Sum(xs) / |xs| as real)
  }

  /** A constant list averages to its constant. */
  lemma {:induction false} AvgOfConstant(xs: seq<real>, c: real)
    requires |xs| > 0
    requires forall k :: 0 <= k < |xs| ==> xs[k] == c
    ensures Avg(xs) == Some(c)
  {
    SumOfConstant(xs, c);
    assert Sum(xs) / |xs| as real == c;
  }

  lemma {:induction false} SumOfConstant(xs: seq<real>, c: real)
    requires forall k :: 0 <= k < |xs| ==> xs[k] == c
    ensures Sum(xs) == c * |xs| as real
    decreases |xs|
  {
    if |xs| > 0 {
      SumOfConstant(xs[1..], c);
    }
  }

  /** The metrics whose before/after impact is analysed. */
  const KeyMetrics: seq<string> := [
    "calculator_completion_rate", "form_submission_rate", "overall_conversion_rate", "proposal_response_rate"
  ]

  datatype MetricImpact = MetricImpact(before: real, after: real, impactPercent: real)

  datatype ImpactReport = ImpactReport(
    optimizationId: string,
    title: string,
    expectedImpact: real,
    impactAnalysis: map<string, MetricImpact>,
    implementationDate: int)

  /** Python truthiness of an `AVG` result: neither NULL nor zero. */
  predicate Truthy(x: Option<real>)
  {
    x.Some? && x.value != 0.0
  }

  /** The before and after averages of one metric around `impl`. */
  function BeforeAvg(ms: seq<MetricEntry>, name: string, impl: int, daysBack: int): Option<real>
  {
    Avg(WindowValues(ms, name, impl - daysBack * Day, impl))
  }

  function AfterAvg(ms: seq<MetricEntry>, name: string, impl: int, daysBack: int): Option<real>
  {
    Avg(WindowValues(ms, name, impl, impl + daysBack * Day))
  }

  /** One metric's before/after comparison; present only when both averages are truthy. */
  function MetricImpactOf(ms: seq<MetricEntry>, n: string, impl: int, daysBack: int): (r: Option<MetricImpact>)
    ensures r.Some? <==> Truthy(BeforeAvg(ms, n, impl, daysBack)) && Truthy(AfterAvg(ms, n, impl, daysBack))
    ensures r.Some? ==>
      && r.value.before == BeforeAvg(ms, n, impl, daysBack).value
      && r.value.after == AfterAvg(ms, n, impl, daysBack).value
      && r.value.impactPercent * r.value.before == (r.value.after - r.value.before) * 100.0
  {
    var b, a := BeforeAvg(ms, n, impl, daysBack), AfterAvg(ms, n, impl, daysBack);
    if Truthy(b) && Truthy(a) then Some(MetricImpact(b.value, a.value, ((a.value - b.value) / b.value) * 100.0))
    else None
  }

  /** The impact entries for the metrics `names`. */
  function ImpactAnalysis(ms: seq<MetricEntry>, names: seq<string>, impl: int, daysBack: int): (r: map<string, MetricImpact>)
    ensures forall n :: n in r <==> n in names && MetricImpactOf(ms, n, impl, daysBack).Some?
    ensures forall n :: n in r ==> r[n] == MetricImpactOf(ms, n, impl, daysBack).value
    decreases |names|
  {
    if |names| == 0 then map[]
    else
      var rest := ImpactAnalysis(ms, names[1..], impl, daysBack);
      var m := MetricImpactOf(ms, names[0], impl, daysBack);
      if m.Some? then rest[names[0] := m.value] else rest
  }

  /**
   * `calculate_optimization_impact`: None for an unknown id; otherwise the
   * key metrics compared over the inclusive windows
   * [implemented − daysBack days, implemented] and [implemented, implemented + daysBack days].
   */
  function CalculateOptimizationImpact(db: TrackerDb, optimizationId: string, daysBack: int): (r: Option<ImpactReport>)
    ensures r.None? <==> optimizationId !in db.optimizations
    ensures r.Some? ==>
      var o := db.optimizations[optimizationId];
      && r.value.optimizationId == optimizationId && r.value.title == o.title
      && r.value.expectedImpact == o.expectedImpact && r.value.implementationDate == o.implementedDate
      && r.value.impactAnalysis == ImpactAnalysis(db.metrics, KeyMetrics, o.implementedDate, daysBack)
  {
    if optimizationId !in db.optimizations then None
    else
      var o := db.optimizations[optimizationId];
      Some(ImpactReport(optimizationId, o.title, o.expectedImpact,
                        ImpactAnalysis(db.metrics, KeyMetrics, o.implementedDate, daysBack), o.implementedDate))
  }

  /** A reading taken at the implementation instant falls in both windows. */
  lemma {:induction false} ImplementationInstantInBoth(ms: seq<MetricEntry>, k: nat, impl: int, daysBack: int)
    requires daysBack >= 0
    requires k < |ms| && ms[k].timestamp == impl
    ensures |WindowValues(ms, ms[k].metricName, impl - daysBack * Day, impl)| > 0
    ensures |WindowValues(ms, ms[k].metricName, impl, impl + daysBack * Day)| > 0
  {
    assert InWindow(ms[k], ms[k].metricName, impl - daysBack * Day, impl);
    assert InWindow(ms[k], ms[k].metricName, impl, impl + daysBack * Day);
  }

  /** A metric with no reading before the implementation is never reported. */
  lemma NoBeforeNoImpact(ms: seq<MetricEntry>, n: string, impl: int, daysBack: int)
    requires forall k :: 0 <= k < |ms| ==> !InWindow(ms[k], n, impl - daysBack * Day, impl)
    ensures n !in ImpactAnalysis(ms, KeyMetrics, impl, daysBack)
  {
  }

  /** When every reading of the window has the value `c`, so has every value collected from it. */
  lemma {:induction false} WindowOfConstant(ms: seq<MetricEntry>, n: string, lo: int, hi: int, c: real)
    requires forall k :: 0 <= k < |ms| && InWindow(ms[k], n, lo, hi) ==> ms[k].metricValue == c
    ensures forall i :: 0 <= i < |WindowValues(ms, n, lo, hi)| ==> WindowValues(ms, n, lo, hi)[i] == c
    decreases |ms|
  {
    if |ms| > 0 {
      assert forall k :: 1 <= k < |ms| ==> ms[1..][k - 1] == ms[k];
      WindowOfConstant(ms[1..], n, lo, hi, c);
    }
  }

  /** A metric that read the same non-zero value in both windows shows zero impact. */
  lemma SteadyMetricHasNoImpact(ms: seq<MetricEntry>, names: seq<string>, n: string, impl: int, daysBack: int, c: real)
    requires n in names && c != 0.0
    requires exists k :: 0 <= k < |ms| && InWindow(ms[k], n, impl - daysBack * Day, impl)
    requires exists k :: 0 <= k < |ms| && InWindow(ms[k], n, impl, impl + daysBack * Day)
    requires forall k :: 0 <= k < |ms| && InWindow(ms[k], n, impl - daysBack * Day, impl) ==> ms[k].metricValue == c
    requires forall k :: 0 <= k < |ms| && InWindow(ms[k], n, impl, impl + daysBack * Day) ==> ms[k].metricValue == c
    ensures n in ImpactAnalysis(ms, names, impl, daysBack)
    ensures ImpactAnalysis(ms, names, impl, daysBack)[n].impactPercent == 0.0
  {
    var lo, hi := impl - daysBack * Day, impl + daysBack * Day;
    assert BeforeAvg(ms, n, impl, daysBack) == Some(c) by {
      WindowAvgOfConstant(ms, n, lo, impl, c);
    }
    assert AfterAvg(ms, n, impl, daysBack) == Some(c) by {
      WindowAvgOfConstant(ms, n, impl, hi, c);
    }
    var m := MetricImpactOf(ms, n, impl, daysBack);
    assert m.Some? && m.value.before == c && m.value.after == c;
    NoChangeNoImpact(m.value.impactPercent, c);
  }

  lemma WindowAvgOfConstant(ms: seq<MetricEntry>, n: string, lo: int, hi: int, c: real)
    requires exists k :: 0 <= k < |ms| && InWindow(ms[k], n, lo, hi)
    requires forall k :: 0 <= k < |ms| && InWindow(ms[k], n, lo, hi) ==> ms[k].metricValue == c
    ensures Avg(WindowValues(ms, n, lo, hi)) == Some(c)
  {
    WindowOfConstant(ms, n, lo, hi, c);
    AvgOfConstant(WindowValues(ms, n, lo, hi), c);
  }

  lemma NoChangeNoImpact(p: real, c: real)
    requires c != 0.0 && p * c == (c - c) * 100.0
    ensures p == 0.0
  {
  }

  // ---------------------------------------------------------------------------
  // Report rates
  // ---------------------------------------------------------------------------

  function CountWhere(ps: seq<Proposal>, cutoff: int, flag: Proposal -> bool): (r: int)
    ensures 0 <= r <= |ps|
    decreases |ps|
  {
    if |ps| == 0 then 0
    else (if ps[0].timestamp >= cutoff && flag(ps[0]) then 1 else 0) + CountWhere(ps[1..], cutoff, flag)
  }

  /** The proposal totals of the report: COUNT(*) and the three SUM(CASE …) columns, NULL over no rows. */
  datatype ProposalCounts = ProposalCounts(total: int, opens: Option<int>, responses: Option<int>, closes: Option<int>)

  function ProposalCountsSince(ps: seq<Proposal>, cutoff: int): (r: ProposalCounts)
    ensures r.total == CountWhere(ps, cutoff, (p: Proposal) => true)
    ensures r.total == 0 <==> r.opens.None?
    ensures (r.opens.None? <==> r.responses.None?) && (r.responses.None? <==> r.closes.None?)
    ensures r.opens.Some? ==> r.opens.value == CountWhere(ps, cutoff, (p: Proposal) => p.proposalOpened)
    ensures r.responses.Some? ==> r.responses.value == CountWhere(ps, cutoff, (p: Proposal) => p.responseReceived)
    ensures r.closes.Some? ==> r.closes.value == CountWhere(ps, cutoff, (p: Proposal) => p.closedWon)
  {
    var total := CountWhere(ps, cutoff, (p: Proposal) => true);
    if total == 0 then ProposalCounts(0, None, None, None)
    else ProposalCounts(total,
                        Some(CountWhere(ps, cutoff, (p: Proposal) => p.proposalOpened)),
                        Some(CountWhere(ps, cutoff, (p: Proposal) => p.responseReceived)),
                        Some(CountWhere(ps, cutoff, (p: Proposal) => p.closedWon)))
  }

  /** `(count or 0) / max(total or 1, 1) × 100`. */
  function ReportRate(count: Option<int>, total: int): (r: real)
    ensures total == 0 && count.None? ==> r == 0.0
    ensures total > 0 ==> r * total as real == count.GetOr(0) as real * 100.0
  {
    var t := if total == 0 then 1 else total;
    var d := if t > 1 then t else 1;
    (count.GetOr(0) as real / d as real) * 100.0
  }

  /** A flag count never exceeds the total count. */
  lemma {:induction false} FlagCountBelowTotal(ps: seq<Proposal>, cutoff: int, flag: Proposal -> bool)
    ensures CountWhere(ps, cutoff, flag) <= CountWhere(ps, cutoff, (p: Proposal) => true)
    decreases |ps|
  {
    if |ps| > 0 {
      FlagCountBelowTotal(ps[1..], cutoff, flag);
    }
  }

  lemma RateBounded(count: int, total: int)
    requires 0 <= count <= total
    ensures 0.0 <= ReportRate(Some(count), total) <= 100.0
  {
    if total > 0 {
      assert count as real / total as real <= 1.0;
    }
  }

  /** The three report rates lie in [0, 100], and are all 0 when no proposal is in the period. */
  lemma ReportRatesBounded(ps: seq<Proposal>, cutoff: int)
    ensures var c := ProposalCountsSince(ps, cutoff);
      && 0.0 <= ReportRate(c.opens, c.total) <= 100.0
      && 0.0 <= ReportRate(c.responses, c.total) <= 100.0
      && 0.0 <= ReportRate(c.closes, c.total) <= 100.0
      && (c.total == 0 ==> ReportRate(c.opens, c.total) == 0.0 && ReportRate(c.closes, c.total) == 0.0)
  {
    FlagCountBelowTotal(ps, cutoff, (p: Proposal) => p.proposalOpened);
    FlagCountBelowTotal(ps, cutoff, (p: Proposal) => p.responseReceived);
    FlagCountBelowTotal(ps, cutoff, (p: Proposal) => p.closedWon);
    var c := ProposalCountsSince(ps, cutoff);
    if c.total > 0 {
      RateBounded(c.opens.value, c.total);
      RateBounded(c.responses.value, c.total);
      RateBounded(c.closes.value, c.total);
    }
  }
}
