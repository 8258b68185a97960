/**
 * The BMAD orchestrator (bmad/bmad-integration-system.py): the
 * build → measure → analyze → decide cycle as a small state machine.
 *
 * The orchestrator's state is the configuration, the optional current
 * cycle and the decision engine's recommendation store. Clocks are the
 * parameter `now` (seconds); the timestamp text of a default cycle id is the
 * parameter `stamp`. Where the source runs code that can raise (file writes,
 * report generation, the deploy script) the point of failure is a parameter,
 * so that what each failure leaves behind is visible in the contracts.
 */
module BmadCycle {
  import opened Wrappers
  import Strings
  import BmadDecide

  const Day := 86400

  datatype CycleStatus = Active | Completed | Paused

  /** `BMCycleStatus`; `phase` is a string in the source and stays one here. */
  datatype Cycle = Cycle(
    cycleId: string,
    phase: string,
    startDate: int,
    phaseStart: int,
    expectedCompletion: int,
    metricsCollected: int,
    decisionsPending: int,
    status: CycleStatus)

  /** The keys of the configuration the cycle logic reads. */
  datatype Config = Config(
    cycleDurationDays: int,
    buildPhaseDays: int,
    measurePhaseDays: int,
    analyzePhaseDays: int,
    decidePhaseDays: int,
    autoCollectMetrics: bool,
    deploymentScript: string)

  /** The configuration `load_config` writes when no file exists. */
  const DefaultConfig := Config(28, 7, 14, 5, 2, true, "./deploy.sh")

  datatype Orchestrator = Orchestrator(
    config: Config,
    current: Option<Cycle>,
    store: BmadDecide.Store)

  predicate HasActiveCycle(o: Orchestrator)
  {
    o.current.Some? && o.current.value.status == Active
  }

  // ---------------------------------------------------------------------------
  // Starting a cycle
  // ---------------------------------------------------------------------------

  /** The id used when no (non-empty) name is given. */
  function DefaultCycleId(stamp: string): (id: string)
    ensures |id| == 11 + |stamp| && id[11..] == stamp
  {
    "bmad_cycle_" + stamp
  }

  /**
   * `start_new_cycle`. Python's `cycle_name or ...` treats both a missing
   * and an empty name as absent.
   */
  function StartNewCycle(o: Orchestrator, name: Option<string>, stamp: string, now: int): (r: (string, Orchestrator))
    ensures HasActiveCycle(o) ==> r.0 == o.current.value.cycleId && r.1 == o
    ensures !HasActiveCycle(o) ==>
      && r.1.config == o.config
      && r.1.store == o.store
      && r.1.current.Some?
      && var c := r.1.current.value;
      && c.cycleId == r.0
      && (if name.Some? && name.value != "" then r.0 == name.value else r.0 == DefaultCycleId(stamp))
      && c.phase == "build"
      && c.status == Active
      && c.startDate == now && c.phaseStart == now
      && c.expectedCompletion == now + o.config.cycleDurationDays * Day
      && c.metricsCollected == 0 && c.decisionsPending == 0
  {
    if HasActiveCycle(o) then (o.current.value.cycleId, o)
    else
      var id := if name.Some? && name.value != "" then name.value else DefaultCycleId(stamp);
      var c := Cycle(id, "build", now, now, now + o.config.cycleDurationDays * Day, 0, 0, Active);
      (id, o.(current := Some(c)))
  }

  /** A second start while the first cycle is active changes nothing and returns the same id. */
  lemma StartIsIdempotent(o: Orchestrator, name: Option<string>, name2: Option<string>,
                          stamp: string, stamp2: string, now: int, now2: int)
    ensures var (id, o1) := StartNewCycle(o, name, stamp, now);
      StartNewCycle(o1, name2, stamp2, now2) == (id, o1)
  {
  }

  // ---------------------------------------------------------------------------
  // Build
  // ---------------------------------------------------------------------------

  datatype TaskType = LandingPageOptimization | EmailOptimization | FunnelOptimization | Generic
  {
    function Name(): (s: string)
      ensures |s| > 0
    {
      match this
      case LandingPageOptimization => "landing_page_optimization"
      case EmailOptimization => "email_optimization"
      case FunnelOptimization => "funnel_optimization"
      case Generic => "generic"
    }
  }

  const LandingKeywords: seq<string> := ["landing page", "bounce rate", "page speed"]
  const EmailKeywords: seq<string> := ["email", "open rate", "subject line"]
  const FunnelKeywords: seq<string> := ["conversion", "funnel", "calculator"]

  /** Some keyword of `keywords` occurs in the lower-cased description. */
  predicate Mentions(description: string, keywords: seq<string>)
  {
    exists k :: 0 <= k < |keywords| && Strings.Contains(Strings.Lower(description), keywords[k])
  }

  /** `classify_task_type`: the first keyword group that matches wins. */
  function ClassifyTaskType(description: string): (t: TaskType)
    ensures t == LandingPageOptimization <==> Mentions(description, LandingKeywords)
    ensures t == EmailOptimization <==>
      !Mentions(description, LandingKeywords) && Mentions(description, EmailKeywords)
    ensures t == FunnelOptimization <==>
      !Mentions(description, LandingKeywords) && !Mentions(description, EmailKeywords)
      && Mentions(description, FunnelKeywords)
    ensures t == Generic <==>
      !Mentions(description, LandingKeywords) && !Mentions(description, EmailKeywords)
      && !Mentions(description, FunnelKeywords)
  {
    if Mentions(description, LandingKeywords) then LandingPageOptimization
    else if Mentions(description, EmailKeywords) then EmailOptimization
    else if Mentions(description, FunnelKeywords) then FunnelOptimization
    else Generic
  }

  /** Classification ignores ASCII case. */
  lemma ClassifyIgnoresCase(description: string)
    ensures ClassifyTaskType(Strings.Lower(description)) == ClassifyTaskType(description)
  {
    BmadDecide.LowerIdempotent(description);
  }

  /** A description that names a landing-page keyword is a landing-page task, whatever else it names. */
  lemma LandingPageWins(description: string, k: nat)
    requires k < |LandingKeywords|
    requires Strings.Contains(Strings.Lower(description), LandingKeywords[k])
    ensures ClassifyTaskType(description) == LandingPageOptimization
  {
  }

  /** One approved decision handed to the build phase. */
  datatype BuildTask = BuildTask(id: string, title: string, description: string)

  datatype TaskLog = TaskLog(taskId: string, title: string, taskType: TaskType, succeeded: bool)

  /**
   * `execute_build_task`: only the landing-page path can fail, and only when
   * a deploy script is configured and it does not succeed (`deployOk`).
   */
  function ExecuteBuildTask(config: Config, task: BuildTask, deployOk: bool): (log: TaskLog)
    ensures log.taskId == task.id && log.title == task.title
    ensures log.taskType == ClassifyTaskType(task.description)
    ensures !log.succeeded <==>
      log.taskType == LandingPageOptimization && config.deploymentScript != "" && !deployOk
  {
    var t := ClassifyTaskType(task.description);
    var ok := if t == LandingPageOptimization && config.deploymentScript != "" then deployOk else true;
    TaskLog(task.id, task.title, t, ok)
  }

  /**
   * Where, if anywhere, the build phase raises. `FailsInTasks(logged)` raises
   * after the first `logged` tasks have run and written their logs: while
   * fetching the task list (`logged` is 0), inside `execute_build_task` or
   * while writing the next task's log.
   */
  datatype BuildFault = BuildCompletes | FailsInTasks(logged: nat) | FailsInTransition

  /** `transition_to_measure_phase` up to the point where it can raise. */
  function EnterMeasure(c: Cycle, now: int): Cycle
  {
    c.(phase := "measure", phaseStart := now)
  }

  /** The logs the loop has written once the first `n` tasks have run. */
  function LogsOf(config: Config, tasks: seq<BuildTask>, deployOk: seq<bool>, n: nat): (logs: seq<TaskLog>)
    requires n <= |tasks| == |deployOk|
    ensures |logs| == n
    ensures forall i :: 0 <= i < n ==> logs[i] == ExecuteBuildTask(config, tasks[i], deployOk[i])
  {
    seq(n, i requires 0 <= i < n => ExecuteBuildTask(config, tasks[i], deployOk[i]))
  }

  /**
   * `execute_build_phase`. The result is (succeeded, new state, task logs).
   * Failed tasks are logged and do not fail the phase. Each task's log (and
   * its deploy) is written inside the loop, so a fault after `logged` tasks
   * leaves exactly those logs behind, with the cycle still in "build". A
   * fault inside the transition leaves the phase at "measure" without the
   * metrics count.
   */
  function ExecuteBuildPhase(o: Orchestrator, tasks: seq<BuildTask>, deployOk: seq<bool>,
                             fault: BuildFault, now: int): (r: (bool, Orchestrator, seq<TaskLog>))
    requires |deployOk| == |tasks|
    requires fault.FailsInTasks? ==> fault.logged <= |tasks|
    ensures r.1.config == o.config && r.1.store == o.store
    ensures r.0 <==> o.current.Some? && o.current.value.phase == "build" && fault.BuildCompletes?
    ensures (o.current.None? || o.current.value.phase != "build") ==> r.1 == o && r.2 == []
    ensures o.current.Some? && o.current.value.phase == "build" ==>
      var c := o.current.value;
      && |r.2| == (if fault.FailsInTasks? then fault.logged else |tasks|)
      && (forall i :: 0 <= i < |r.2| ==> r.2[i] == ExecuteBuildTask(o.config, tasks[i], deployOk[i]))
      && r.1.current == Some(
           if fault.FailsInTasks? then c
           else if fault.FailsInTransition? then EnterMeasure(c, now)
           else EnterMeasure(c, now).(metricsCollected :=
                  c.metricsCollected + (if o.config.autoCollectMetrics then 1 else 0)))
  {
    if o.current.None? || o.current.value.phase != "build" then (false, o, [])
    else if fault.FailsInTasks? then (false, o, LogsOf(o.config, tasks, deployOk, fault.logged))
    else
      var logs := LogsOf(o.config, tasks, deployOk, |tasks|);
      var c := EnterMeasure(o.current.value, now);
      if fault.FailsInTransition? then (false, o.(current := Some(c)), logs)
      else
        var collected := c.metricsCollected + (if o.config.autoCollectMetrics then 1 else 0);
        (true, o.(current := Some(c.(metricsCollected := collected))), logs)
  }

  /**
   * A fault after `k` tasks leaves behind exactly the first `k` logs a
   * fault-free build would have written, and the cycle still in "build".
   */
  lemma TaskFaultLeavesPrefix(o: Orchestrator, tasks: seq<BuildTask>, deployOk: seq<bool>, k: nat, now: int)
    requires |deployOk| == |tasks| && k <= |tasks|
    requires o.current.Some? && o.current.value.phase == "build"
    ensures var (ok, o', logs) := ExecuteBuildPhase(o, tasks, deployOk, FailsInTasks(k), now);
      && !ok && o' == o
      && logs == ExecuteBuildPhase(o, tasks, deployOk, BuildCompletes, now).2[..k]
  {
  }

  // ---------------------------------------------------------------------------
  // Analyze
  // ---------------------------------------------------------------------------

  /** Where, if anywhere, the analyze phase raises. */
  datatype AnalyzeFault = AnalyzeCompletes | FailsBeforeSave | FailsAfterSave | FailsInDecideTransition

  /** The recommendations of a prioritised list, in order. */
  function Recommendations(scored: seq<BmadDecide.Scored>): (rs: seq<BmadDecide.Recommendation>)
    ensures |rs| == |scored|
    ensures forall i :: 0 <= i < |rs| ==> rs[i] == scored[i].rec
  {
    seq(|scored|, i requires 0 <= i < |scored| => scored[i].rec)
  }

  /**
   * `execute_analyze_phase` over the metrics window `rows`. The phase is set
   * to "analyze" before the try block, so every fault leaves at least that
   * behind; the store keeps the saved recommendations once they are saved.
   */
  function ExecuteAnalyzePhase(o: Orchestrator, rows: seq<BmadDecide.MetricRow>,
                               fault: AnalyzeFault, now: int): (r: (bool, Orchestrator))
    ensures r.1.config == o.config
    ensures r.0 <==> o.current.Some? && o.current.value.phase == "measure" && fault.AnalyzeCompletes?
    ensures (o.current.None? || o.current.value.phase != "measure") ==> r.1 == o
    ensures o.current.Some? && o.current.value.phase == "measure" ==>
      var c := o.current.value;
      var recs := BmadDecide.AnalyzePerformance(rows, now);
      && r.1.current.Some?
      && r.1.current.value.phaseStart == now
      && r.1.current.value.cycleId == c.cycleId
      && r.1.current.value.metricsCollected == c.metricsCollected
      && (r.1.current.value.phase == "analyze" <==> fault.FailsBeforeSave? || fault.FailsAfterSave?)
      && (r.1.current.value.phase == "decide" <==> fault.AnalyzeCompletes? || fault.FailsInDecideTransition?)
      && (r.1.current.value.decisionsPending ==
            if r.1.current.value.phase == "decide" then |recs| else c.decisionsPending)
      && r.1.store == (if fault.FailsBeforeSave? then o.store
                       else BmadDecide.SaveRecommendations(o.store, Recommendations(recs)))
  {
    if o.current.None? || o.current.value.phase != "measure" then (false, o)
    else
      var c := o.current.value.(phase := "analyze", phaseStart := now);
      if fault.FailsBeforeSave? then (false, o.(current := Some(c)))
      else
        var recs := BmadDecide.AnalyzePerformance(rows, now);
        var saved := BmadDecide.SaveRecommendations(o.store, Recommendations(recs));
        if fault.FailsAfterSave? then (false, o.(current := Some(c), store := saved))
        else
          var d := c.(phase := "decide", phaseStart := now, decisionsPending := |recs|);
          (fault.AnalyzeCompletes?, o.(current := Some(d), store := saved))
  }

  /** A failed analysis is not rolled back: the phase stays "analyze" and a retry is refused. */
  lemma AnalyzeFailureSticks(o: Orchestrator, rows: seq<BmadDecide.MetricRow>, rows2: seq<BmadDecide.MetricRow>,
                             fault: AnalyzeFault, fault2: AnalyzeFault, now: int, now2: int)
    requires o.current.Some? && o.current.value.phase == "measure"
    requires fault.FailsBeforeSave? || fault.FailsAfterSave?
    ensures var (ok, o1) := ExecuteAnalyzePhase(o, rows, fault, now);
      && !ok && o1.current.value.phase == "analyze"
      && ExecuteAnalyzePhase(o1, rows2, fault2, now2) == (false, o1)
  {
  }

  // ---------------------------------------------------------------------------
  // Completion and health
  // ---------------------------------------------------------------------------

  /**
   * `complete_cycle`: the result is (the completed cycle as archived, if
   * any, new state). Without a current cycle nothing happens.
   */
  function CompleteCycle(o: Orchestrator): (r: (Option<Cycle>, Orchestrator))
    ensures o.current.None? ==> r == (None, o)
    ensures o.current.Some? ==>
      && r.0 == Some(o.current.value.(status := Completed))
      && r.1 == o.(current := None)
  {
    match o.current
    case None => (None, o)
    case Some(c) => (Some(c.(status := Completed)), o.(current := None))
  }

  /** After completion the next start always opens a fresh cycle in the build phase. */
  lemma CompleteThenStartIsFresh(o: Orchestrator, name: Option<string>, stamp: string, now: int)
    ensures var o1 := CompleteCycle(o).1;
      var (id, o2) := StartNewCycle(o1, name, stamp, now);
      && o2.current.Some?
      && o2.current.value.phase == "build"
      && o2.current.value.metricsCollected == 0
      && o2.current.value.decisionsPending == 0
      && o2.current.value.cycleId == id
      && o2.store == o.store
  {
  }

  /** The configured maximum for a phase name; names outside the four get 7. */
  function MaxPhaseDays(config: Config, phase: string): (d: int)
    ensures phase == "build" ==> d == config.buildPhaseDays
    ensures phase == "measure" ==> d == config.measurePhaseDays
    ensures phase == "analyze" ==> d == config.analyzePhaseDays
    ensures phase == "decide" ==> d == config.decidePhaseDays
    ensures phase !in {"build", "measure", "analyze", "decide"} ==> d == 7
  {
    if phase == "build" then config.buildPhaseDays
    else if phase == "measure" then config.measurePhaseDays
    else if phase == "analyze" then config.analyzePhaseDays
    else if phase == "decide" then config.decidePhaseDays
    else 7
  }

  /** Whole days between two instants, floored like `timedelta.days`. */
  function DaysBetween(from: int, to: int): (d: int)
    ensures d * Day <= to - from < (d + 1) * Day
  {
    (to - from) / Day
  }

  datatype PhaseAlert = PhaseAlert(phase: string, phaseDays: int, expected: int)

  /** `daily_health_check`: the notification it sends, if any. */
  function DailyHealthCheck(o: Orchestrator, now: int): (r: Option<PhaseAlert>)
    ensures r.Some? <==>
      o.current.Some? && DaysBetween(o.current.value.phaseStart, now) > MaxPhaseDays(o.config, o.current.value.phase)
    ensures r.Some? ==>
      && r.value.phase == o.current.value.phase
      && r.value.phaseDays * Day <= now - o.current.value.phaseStart
      && r.value.phaseDays > r.value.expected
      && r.value.expected == MaxPhaseDays(o.config, o.current.value.phase)
  {
    match o.current
    case None => None
    case Some(c) =>
      var days := DaysBetween(c.phaseStart, now);
      var max := MaxPhaseDays(o.config, c.phase);
      if days > max then Some(PhaseAlert(c.phase, days, max)) else None
  }

  /** Once a phase is overdue it stays overdue as time passes. */
  lemma {:induction false} OverdueStaysOverdue(o: Orchestrator, now: int, later: int)
    requires now <= later
    requires DailyHealthCheck(o, now).Some?
    ensures DailyHealthCheck(o, later).Some?
  {
    var c := o.current.value;
    var d1 := DaysBetween(c.phaseStart, now);
    var d2 := DaysBetween(c.phaseStart, later);
    assert d1 * Day <= later - c.phaseStart < (d2 + 1) * Day;
    assert d1 <= d2;
  }

  /** A cycle started under a configuration with a non-negative build limit is not overdue on its first day. */
  lemma FreshCycleIsHealthy(o: Orchestrator, name: Option<string>, stamp: string, now: int, at: int)
    requires !HasActiveCycle(o)
    requires o.config.buildPhaseDays >= 0
    requires now <= at < now + Day
    ensures DailyHealthCheck(StartNewCycle(o, name, stamp, now).1, at).None?
  {
    assert DaysBetween(now, at) == 0;
  }

  // ---------------------------------------------------------------------------
  // A whole cycle
  // ---------------------------------------------------------------------------

  /**
   * Start, a fault-free build and a fault-free analysis: the cycle ends in
   * "decide" with one metrics collection (when automatic) and one pending
   * decision per recommendation, at most seven.
   */
  lemma HappyPath(o: Orchestrator, name: Option<string>, stamp: string, tasks: seq<BuildTask>,
                  deployOk: seq<bool>, rows: seq<BmadDecide.MetricRow>, t0: int, t1: int, t2: int)
    requires !HasActiveCycle(o)
    requires |deployOk| == |tasks|
    ensures var (id, o1) := StartNewCycle(o, name, stamp, t0);
      var (built, o2, _) := ExecuteBuildPhase(o1, tasks, deployOk, BuildCompletes, t1);
      var (analyzed, o3) := ExecuteAnalyzePhase(o2, rows, AnalyzeCompletes, t2);
      && built && analyzed
      && o3.current.value.cycleId == id
      && o3.current.value.phase == "decide"
      && o3.current.value.metricsCollected == (if o.config.autoCollectMetrics then 1 else 0)
      && o3.current.value.decisionsPending == |BmadDecide.AnalyzePerformance(rows, t2)| <= 7
  {
  }
}
