/**
 * The BMAD "measure" tracker (bmad/measure-tracking-system.py): metric
 * rows, KPI targets keyed by metric name, and the alerts that a recorded
 * metric below its target's threshold raises.
 *
 * The three SQLite tables become the fields of `Tracker`: `metrics` and
 * `alerts` are append-only sequences, `targets` is the map that both the
 * `kpi_targets` table (UNIQUE metric_name) and the in-memory dictionary
 * hold. Alert messages, which interpolate floats, are not modelled.
 */
module BmadMeasure {
  import opened Wrappers

  datatype CampaignMetric = CampaignMetric(
    timestamp: int,
    metricName: string,
    metricValue: real,
    metricType: string,
    source: string,
    dimensions: map<string, string>,
    campaignId: string)

  const DefaultCampaignId := "benefits_made_simple"

  datatype KpiTarget = KpiTarget(
    metricName: string,
    targetValue: real,
    targetPeriod: string,
    alertThreshold: real,
    improvementGoal: real)

  datatype Alert = Alert(
    alertType: string,
    metricName: string,
    currentValue: real,
    targetValue: real,
    thresholdBreached: real,
    resolved: bool)

  datatype Tracker = Tracker(
    metrics: seq<CampaignMetric>,
    targets: map<string, KpiTarget>,
    alerts: seq<Alert>)

  const EmptyTracker := Tracker([], map[], [])

  // ---------------------------------------------------------------------------
  // Targets
  // ---------------------------------------------------------------------------

  /** `set_kpi_target`: INSERT OR REPLACE on the unique metric name. */
  function SetKpiTarget(tr: Tracker, t: KpiTarget): (r: Tracker)
    ensures r.metrics == tr.metrics && r.alerts == tr.alerts
    ensures t.metricName in r.targets && r.targets[t.metricName] == t
    ensures r.targets.Keys == tr.targets.Keys + {t.metricName}
    ensures forall n :: n in tr.targets && n != t.metricName ==> r.targets[n] == tr.targets[n]
  {
    tr.(targets := tr.targets[t.metricName := t])
  }

  /** Setting two targets for the same metric keeps only the second. */
  lemma LastTargetWins(tr: Tracker, t1: KpiTarget, t2: KpiTarget)
    requires t1.metricName == t2.metricName
    ensures SetKpiTarget(SetKpiTarget(tr, t1), t2) == SetKpiTarget(tr, t2)
  {
  }

  /** The last target in `ts` for the metric `name`. */
  function LastTarget(ts: seq<KpiTarget>, name: string): (r: Option<KpiTarget>)
    ensures r.None? <==> forall k :: 0 <= k < |ts| ==> ts[k].metricName != name
    ensures r.Some? ==> r.value.metricName == name && r.value in ts
    decreases |ts|
  {
    if |ts| == 0 then None
    else if ts[|ts| - 1].metricName == name then Some(ts[|ts| - 1])
    else LastTarget(ts[..|ts| - 1], name)
  }

  /** `set_kpi_target` applied to each of `ts` in order. */
  function SetKpiTargets(tr: Tracker, ts: seq<KpiTarget>): (r: Tracker)
    ensures r.metrics == tr.metrics && r.alerts == tr.alerts
    ensures forall n :: n in r.targets <==> n in tr.targets || LastTarget(ts, n).Some?
    ensures forall n :: n in r.targets && LastTarget(ts, n).Some? ==> r.targets[n] == LastTarget(ts, n).value
    ensures forall n :: n in tr.targets && LastTarget(ts, n).None? ==> r.targets[n] == tr.targets[n]
    decreases |ts|
  {
    if |ts| == 0 then tr
    else SetKpiTarget(SetKpiTargets(tr, ts[..|ts| - 1]), ts[|ts| - 1])
  }

  /** The campaign's seven targets, in the order `setup_kpi_targets` sets them. */
  const CampaignTargets: seq<KpiTarget> := [
    KpiTarget("ga4_sessions", 2000.0, "monthly", 15.0, 25.0),
    KpiTarget("ga4_conversion_rate", 3.4, "monthly", 20.0, 30.0),
    KpiTarget("email_open_rate", 35.0, "monthly", 10.0, 15.0),
    KpiTarget("email_click_rate", 7.0, "monthly", 15.0, 20.0),
    KpiTarget("crm_leads_created", 50.0, "monthly", 20.0, 40.0),
    KpiTarget("crm_deals_closed_won", 8.0, "monthly", 25.0, 50.0),
    KpiTarget("crm_total_revenue", 60000.0, "monthly", 15.0, 35.0)
  ]

  /** `setup_kpi_targets`. */
  function SetupKpiTargets(tr: Tracker): (r: Tracker)
    ensures r.metrics == tr.metrics && r.alerts == tr.alerts
    ensures forall k :: 0 <= k < |CampaignTargets| ==>
      var t := CampaignTargets[k];
      t.metricName in r.targets && r.targets[t.metricName] == LastTarget(CampaignTargets, t.metricName).value
  {
    EachTargetSet(tr, CampaignTargets);
    SetKpiTargets(tr, CampaignTargets)
  }

  /** Every listed target's metric ends up with the last target listed for it. */
  lemma EachTargetSet(tr: Tracker, ts: seq<KpiTarget>)
    ensures forall k :: 0 <= k < |ts| ==>
      var t := ts[k];
      t.metricName in SetKpiTargets(tr, ts).targets && LastTarget(ts, t.metricName).Some?
      && SetKpiTargets(tr, ts).targets[t.metricName] == LastTarget(ts, t.metricName).value
  {
  }

  /** The seven campaign targets name seven different metrics, so each is installed as written. */
  lemma CampaignTargetsDistinct()
    ensures |CampaignTargets| == 7
    ensures forall i, j :: 0 <= i < j < |CampaignTargets| ==>
      CampaignTargets[i].metricName != CampaignTargets[j].metricName
  {
  }

  /** A target with no earlier namesake in `ts` is the last one for its name. */
  lemma {:induction false} DistinctLast(ts: seq<KpiTarget>, k: nat)
    requires k < |ts|
    requires forall i, j :: 0 <= i < j < |ts| ==> ts[i].metricName != ts[j].metricName
    ensures LastTarget(ts, ts[k].metricName) == Some(ts[k])
    decreases |ts|
  {
    if k < |ts| - 1 {
      assert ts[|ts| - 1].metricName != ts[k].metricName;
      DistinctLast(ts[..|ts| - 1], k);
    }
  }

  /** After setup every campaign target is installed exactly as listed. */
  lemma SetupInstallsEachTarget(tr: Tracker, k: nat)
    requires k < |CampaignTargets|
    ensures var t := CampaignTargets[k];
      t.metricName in SetupKpiTargets(tr).targets && SetupKpiTargets(tr).targets[t.metricName] == t
  {
    CampaignTargetsDistinct();
    DistinctLast(CampaignTargets, k);
  }

  // ---------------------------------------------------------------------------
  // Alerts
  // ---------------------------------------------------------------------------

  /** The value below which a metric breaches its target. */
  function ThresholdValue(t: KpiTarget): (v: real)
    ensures t.alertThreshold == 0.0 ==> v == t.targetValue
    ensures t.alertThreshold == 100.0 ==> v == 0.0
  {
    t.targetValue * (1.0 - t.alertThreshold / 100.0)
  }

  /** The metric has a target and lies strictly below that target's threshold value. */
  predicate Breaches(targets: map<string, KpiTarget>, m: CampaignMetric)
  {
    m.metricName in targets && m.metricValue < ThresholdValue(targets[m.metricName])
  }

  function UnderperformanceAlert(t: KpiTarget, m: CampaignMetric): (a: Alert)
    ensures a.alertType == "kpi_underperformance" && a.metricName == m.metricName
    ensures a.currentValue == m.metricValue && a.targetValue == t.targetValue
    ensures a.thresholdBreached == t.alertThreshold && !a.resolved
  {
    Alert("kpi_underperformance", m.metricName, m.metricValue, t.targetValue, t.alertThreshold, false)
  }

  /**
   * `check_kpi_alerts`: one new alert iff the metric breaches its target;
   * nothing for a metric with no target. There is no deduplication.
   */
  function CheckKpiAlerts(tr: Tracker, m: CampaignMetric): (r: Tracker)
    ensures r.metrics == tr.metrics && r.targets == tr.targets
    ensures Breaches(tr.targets, m) ==>
      r.alerts == tr.alerts + [UnderperformanceAlert(tr.targets[m.metricName], m)]
    ensures !Breaches(tr.targets, m) ==> r.alerts == tr.alerts
  {
    if m.metricName !in tr.targets then tr
    else
      var t := tr.targets[m.metricName];
      if m.metricValue < ThresholdValue(t) then tr.(alerts := tr.alerts + [UnderperformanceAlert(t, m)])
      else tr
  }

  /** `record_metric`: append the row, then check it. */
  function RecordMetric(tr: Tracker, m: CampaignMetric): (r: Tracker)
    ensures r.metrics == tr.metrics + [m] && r.targets == tr.targets
    ensures |r.alerts| == |tr.alerts| + (if Breaches(tr.targets, m) then 1 else 0)
    ensures r.alerts[..|tr.alerts|] == tr.alerts
  {
    CheckKpiAlerts(tr.(metrics := tr.metrics + [m]), m)
  }

  /** Every breaching record raises its own alert: the same bad reading twice gives two alerts. */
  lemma NoAlertDeduplication(tr: Tracker, m: CampaignMetric)
    requires Breaches(tr.targets, m)
    ensures var a := UnderperformanceAlert(tr.targets[m.metricName], m);
      RecordMetric(RecordMetric(tr, m), m).alerts == tr.alerts + [a, a]
  {
  }

  /** `record_batch_metrics`: append every row; no alert is checked. */
  function RecordBatchMetrics(tr: Tracker, ms: seq<CampaignMetric>): (r: Tracker)
    ensures r.metrics == tr.metrics + ms
    ensures r.targets == tr.targets && r.alerts == tr.alerts
  {
    tr.(metrics := tr.metrics + ms)
  }

  /** `record_metric` applied to each of `ms` in order. */
  function RecordEach(tr: Tracker, ms: seq<CampaignMetric>): (r: Tracker)
    ensures r.targets == tr.targets
    decreases |ms|
  {
    if |ms| == 0 then tr
    else RecordMetric(RecordEach(tr, ms[..|ms| - 1]), ms[|ms| - 1])
  }

  /** The alerts that recording `ms` one at a time raises against `targets`. */
  function BreachAlerts(targets: map<string, KpiTarget>, ms: seq<CampaignMetric>): (r: seq<Alert>)
    ensures |r| <= |ms|
    ensures forall a :: a in r ==> a.alertType == "kpi_underperformance" && !a.resolved
    decreases |ms|
  {
    if |ms| == 0 then []
    else
      var m := ms[|ms| - 1];
      BreachAlerts(targets, ms[..|ms| - 1])
        + (if Breaches(targets, m) then [UnderperformanceAlert(targets[m.metricName], m)] else [])
  }

  /**
   * A batch stores the same rows as recording them one by one, but only the
   * one-by-one path raises the alerts.
   */
  lemma {:induction false} BatchSkipsAlerts(tr: Tracker, ms: seq<CampaignMetric>)
    ensures RecordEach(tr, ms).metrics == RecordBatchMetrics(tr, ms).metrics
    ensures RecordEach(tr, ms).alerts == tr.alerts + BreachAlerts(tr.targets, ms)
    ensures RecordBatchMetrics(tr, ms).alerts == tr.alerts
    decreases |ms|
  {
    if |ms| > 0 {
      var init := ms[..|ms| - 1];
      BatchSkipsAlerts(tr, init);
      assert init + [ms[|ms| - 1]] == ms;
      assert tr.metrics + init + [ms[|ms| - 1]] == tr.metrics + ms;
    }
  }

  // ---------------------------------------------------------------------------
  // Collection
  // ---------------------------------------------------------------------------

  /** The alert `collect_daily_metrics` raises when any step of it fails. */
  const CollectionFailureAlert := Alert("data_collection_failure", "system_health", 0.0, 1.0, 100.0, false)

  /**
   * `collect_daily_metrics` with the connectors' combined output (or the
   * error one of them raised) as the parameter `fetched`. A failure is
   * caught and becomes exactly one alert; a success is one batch.
   */
  function CollectDailyMetrics(tr: Tracker, fetched: Result<seq<CampaignMetric>>): (r: Tracker)
    ensures r.targets == tr.targets
    ensures fetched.Failure? ==> r.metrics == tr.metrics && r.alerts == tr.alerts + [CollectionFailureAlert]
    ensures fetched.Success? ==> r.metrics == tr.metrics + fetched.value && r.alerts == tr.alerts
  {
    match fetched
    case Failure(_) => tr.(alerts := tr.alerts + [CollectionFailureAlert])
    case Success(ms) => RecordBatchMetrics(tr, ms)
  }

  /** The raw counts the email connector reports. */
  datatype EmailCounts = EmailCounts(
    sent: int, delivered: int, opens: int, clicks: int,
    unsubscribes: int, complaints: int, bounces: int)

  /** `x / delivered × 100`, which raises ZeroDivisionError when nothing was delivered. */
  function PercentOfDelivered(x: int, delivered: int): (r: Result<real>)
    ensures r.Failure? <==> delivered == 0
    ensures r.Success? ==> r.value * delivered as real == x as real * 100.0
  {
    if delivered == 0 then Failure("division by zero")
    else Success((x as real / delivered as real) * 100.0)
  }

  function EmailMetric(name: string, value: real, metricType: string, platform: string,
                       timestamp: int, period: string): CampaignMetric
  {
    CampaignMetric(timestamp, name, value, metricType, platform, map["campaign_period" := period], DefaultCampaignId)
  }

  /**
   * `fetch_email_metrics` for the counts `c`: seven counters named
   * `email_<key>`, then the open and click rates.
   */
  function FetchEmailMetrics(c: EmailCounts, platform: string, timestamp: int, period: string): (r: Result<seq<CampaignMetric>>)
    ensures r.Failure? <==> c.delivered == 0
    ensures r.Success? ==>
      && |r.value| == 9
      && (forall i :: 0 <= i < 7 ==> r.value[i].metricType == "counter")
      && r.value[7].metricName == "email_open_rate" && r.value[7].metricType == "rate"
      && r.value[7].metricValue * c.delivered as real == c.opens as real * 100.0
      && r.value[8].metricName == "email_click_rate" && r.value[8].metricType == "rate"
      && r.value[8].metricValue * c.delivered as real == c.clicks as real * 100.0
      && (forall i :: 0 <= i < 9 ==> r.value[i].source == platform && r.value[i].timestamp == timestamp)
  {
    var counters := [
      EmailMetric("email_emails_sent", c.sent as real, "counter", platform, timestamp, period),
      EmailMetric("email_emails_delivered", c.delivered as real, "counter", platform, timestamp, period),
      EmailMetric("email_emails_opened", c.opens as real, "counter", platform, timestamp, period),
      EmailMetric("email_emails_clicked", c.clicks as real, "counter", platform, timestamp, period),
      EmailMetric("email_unsubscribes", c.unsubscribes as real, "counter", platform, timestamp, period),
      EmailMetric("email_complaints", c.complaints as real, "counter", platform, timestamp, period),
      EmailMetric("email_bounces", c.bounces as real, "counter", platform, timestamp, period)
    ];
    var openRate := PercentOfDelivered(c.opens, c.delivered);
    var clickRate := PercentOfDelivered(c.clicks, c.delivered);
    if openRate.Failure? || clickRate.Failure? then Failure("division by zero")
    else
      Success(counters + [
        EmailMetric("email_open_rate", openRate.value, "rate", platform, timestamp, period),
        EmailMetric("email_click_rate", clickRate.value, "rate", platform, timestamp, period)])
  }

  /**
   * The metrics of the connectors' reports in the order they are fetched
   * (GA4 traffic, GA4 funnel, email, CRM); the first one that raises aborts
   * the collection.
   */
  function FetchAll(parts: seq<Result<seq<CampaignMetric>>>): (r: Result<seq<CampaignMetric>>)
    ensures r.Success? <==> forall k :: 0 <= k < |parts| ==> parts[k].Success?
    ensures r.Success? ==> |parts| == 0 ==> r.value == []
    ensures r.Success? && |parts| > 0 ==> r.value == parts[0].value + FetchAll(parts[1..]).value
    decreases |parts|
  {
    if |parts| == 0 then Success([])
    else if parts[0].Failure? then Failure(parts[0].error)
    else
      var rest := FetchAll(parts[1..]);
      if rest.Failure? then rest else Success(parts[0].value + rest.value)
  }

  /**
   * An email report with nothing delivered makes the whole daily collection
   * fail: no row of any source is stored and one failure alert is raised.
   */
  lemma NothingDeliveredFailsCollection(tr: Tracker, traffic: Result<seq<CampaignMetric>>,
                                        funnel: Result<seq<CampaignMetric>>, crm: Result<seq<CampaignMetric>>,
                                        c: EmailCounts, platform: string, timestamp: int, period: string)
    requires c.delivered == 0
    ensures var parts := [traffic, funnel, FetchEmailMetrics(c, platform, timestamp, period), crm];
      CollectDailyMetrics(tr, FetchAll(parts)) == tr.(alerts := tr.alerts + [CollectionFailureAlert])
  {
    var parts := [traffic, funnel, FetchEmailMetrics(c, platform, timestamp, period), crm];
    assert parts[2].Failure?;
  }

  /**
   * With the campaign targets installed, an email open rate alerts exactly
   * when it is below 31.5: 35 less its 10% threshold.
   */
  lemma OpenRateAlertsBelow(tr: Tracker, m: CampaignMetric)
    requires m.metricName == "email_open_rate"
    ensures Breaches(SetupKpiTargets(tr).targets, m) <==> m.metricValue < 31.5
  {
    var targets := SetupKpiTargets(tr).targets;
    assert m.metricName in targets && targets[m.metricName].targetValue == 35.0
      && targets[m.metricName].alertThreshold == 10.0 by {
      SetupInstallsEachTarget(tr, 2);
      CampaignOpenRateTarget();
    }
    TenPercentBelow(targets[m.metricName]);
  }

  lemma CampaignOpenRateTarget()
    ensures CampaignTargets[2] == KpiTarget("email_open_rate", 35.0, "monthly", 10.0, 15.0)
  {
  }

  lemma TenPercentBelow(t: KpiTarget)
    requires t.targetValue == 35.0 && t.alertThreshold == 10.0
    ensures ThresholdValue(t) == 31.5
  {
    assert 1.0 - t.alertThreshold / 100.0 == 0.9;
  }
}
