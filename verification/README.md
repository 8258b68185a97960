# My Benefits Videos — a Dafny model of the decision loop, the pricing engines and the site logic

This project models the computational core of the My Benefits Videos sales and
marketing stack and proves properties of it. The stack sells benefits-communication
videos, microsites and subscriptions to HR teams. It is built from four parts:

- **The BMAD optimisation loop** (Build, Measure, Analyze, Decide), written in Python.
  The Measure side records KPI readings and raises alerts against targets. The
  Analyze/Decide side turns a window of metrics into prioritised recommendations
  (quick wins, major projects, fill-ins, thankless tasks) and records the decisions
  taken on them. The cycle manager moves a cycle through its phases and checks its
  health. The tracker records optimisations and proposals, and reports their
  rates.
- **The pricing engines.** These are the preset engine (Foundation video,
  extras, microsite, rush and subscription) and the service engine with its
  predecessor. The campaign analysis script and the Python proposal and SOW
  generators each carry a copy of the arithmetic. The proposal documents are
  filled from the pricing result.
- **The registries, validators and URL parsers of the two web sites.** These
  cover navigation configurations, breadcrumbs and A/B variants, page
  templates and content blocks, the Vimeo catalogues with their link
  extraction and embed URLs, the contact form's schema, and its API route
  with the per-address rate limit.
- **The list UI logic and the calculator components.** These cover the
  case-study filter, search, paging and sort; the file picker; the two-thumb
  range slider; the service-page gallery, testimonials and price calculator;
  and the steps of the pricing wizard (packages, video, add-ons,
  subscription, summary).

Every operation is a pure function over immutable datatypes. Registries that
the source updates in place are lists here, and each update returns the new
list. Clocks, random identifiers, database rows, files, network calls and
connectors' results are parameters or are left out, as listed below.
JavaScript's and Python's number semantics are written out where they matter:
`Math.round` against Python's banker's rounding, `%` with a negative
dividend, 32-bit wrap-around in the string hash, `||` defaults and
truthiness. Where a behaviour looked unintended, the model keeps the code as
written next to a corrected definition, and the rest of the model uses the
corrected one (see Findings).

Shared modules: `Wrappers` (Option/Result), `Seqs` (filter, stable sort,
first match, subsequence), `Strings` (numerals, prefixes, replacement, ASCII
lower-casing), `JsNum` (the number semantics above), `Keyed` (find-by-id
updates and renumbering) and `UrlPatterns` (the regular-expression matches
the URL parsers perform).

## Model

| member | source | states |
|---|---|---|
| AddOnPanel.UpdateAltLanguageMinutes | apps/mybenefitsvideos/src/components/calculator/AdditionalServices.tsx:36-38 | the alternative-language minutes become the requested number, clamped at 0 from below and uncapped above; no other field of the selection changes |
| AddOnPanel.ToggleAltLanguage | apps/mybenefitsvideos/src/components/calculator/AdditionalServices.tsx:94-98 | after the switch the minutes are positive exactly when it was switched on; switching on starts from the video's length; no other field changes |
| AddOnPanel.MinusPressed | apps/mybenefitsvideos/src/components/calculator/AdditionalServices.tsx:116-119 | above 0 the minus button takes off one minute; at 0 or below it is disabled and the selection stays as it was |
| AddOnPanel.PlusPressed | apps/mybenefitsvideos/src/components/calculator/AdditionalServices.tsx:128-131 | below 10 the plus button adds one minute; at 10 or more it is disabled and the selection stays as it was |
| AddOnPanel.ControlsStayInRange | apps/mybenefitsvideos/src/components/calculator/AdditionalServices.tsx:115-143 | starting on the slider's 0 to 10 scale, the minus button, the plus button and any slider value keep the minutes on that scale |
| AddOnPanel.SwitchCanPassSliderEnd | apps/mybenefitsvideos/src/components/calculator/AdditionalServices.tsx:94-98 | the switch copies the video's length, so a 12-minute video puts the minutes past the slider's maximum of 10 |
| AddOnPanel.DiyPrice | apps/mybenefitsvideos/src/components/calculator/AdditionalServices.tsx:40-46 | the DIY card's price is the pricing engine's price for the DIY license, 2500 or 3500 with a human voice |
| AddOnPanel.PptAltPrice | apps/mybenefitsvideos/src/components/calculator/AdditionalServices.tsx:48-54 | the translated deck's price is the engine's price for it, 3000 or 4000 with a human voice |
| AddOnPanel.VideoUpdatePrice | apps/mybenefitsvideos/src/components/calculator/AdditionalServices.tsx:56-60 | the updates price is the engine's price for video updates, 750 or 1049 with voice-over changes |
| AddOnPanel.AltLanguageCost | apps/mybenefitsvideos/src/components/calculator/AdditionalServices.tsx:147-153 | the alternative-language cost line is the engine's price for that add-on, and it is not negative for non-negative minutes |
| AddOnPanel.Summary | apps/mybenefitsvideos/src/components/calculator/AdditionalServices.tsx:412-466 | every summary line is for an add-on the selection asks for, at the engine's price for it |
| AddOnPanel.SummaryLists | apps/mybenefitsvideos/src/components/calculator/AdditionalServices.tsx:412-466 | the summary lists alternative language, the DIY license and updates each exactly when chosen, the translated deck exactly when chosen under a DIY license, and nothing else; the card shows exactly when a line is listed |
| AddOnPanel.TranslatedDeckOutlivesDiy | apps/mybenefitsvideos/src/components/calculator/AdditionalServices.tsx:185-186 | turning the DIY switch off leaves the translated deck selected, so the engine prices it, but the summary stops listing it |
| AppNavigation.ActiveNavItems | apps/mybenefitsvideos/src/lib/navigation-config.ts:395-399 | exactly the active items, each as often as in the registry, in ascending order |
| AppNavigation.ActiveNavItemsStable | apps/mybenefitsvideos/src/lib/navigation-config.ts:395-399 | items sharing an order value keep their registry order, since JavaScript's sort is stable |
| AppNavigation.NavItemById | apps/mybenefitsvideos/src/lib/navigation-config.ts:408-410 | nothing exactly when no item has the id; otherwise the first item with that id |
| AppNavigation.UpdateNavItemStatus | apps/mybenefitsvideos/src/lib/navigation-config.ts:401-406 | only the first item with the id changes, and only its `active` flag, which takes the new value; the length stays the same |
| AppNavigation.UpdateUnknownIsNoOp | apps/mybenefitsvideos/src/lib/navigation-config.ts:401-406 | an id no item has leaves the registry as it was |
| AppNavigation.UpdateThenLookup | apps/mybenefitsvideos/src/lib/navigation-config.ts:401-410 | after an update, looking up the id finds an item with the new status |
| AppNavigation.ReorderNavItems | apps/mybenefitsvideos/src/lib/navigation-config.ts:412-420 | the item first carrying the i-th listed id gets order i + 1, with a later listing of the same id winning; unlisted items keep their order, and nothing but `order` changes |
| AppNavigation.ReorderByPermutation | apps/mybenefitsvideos/src/lib/navigation-config.ts:412-420 | when the ids are listed once each and ids are unique, the item listed at position i gets order i + 1 |
| AppNavigation.ShouldShowNavItem | apps/mybenefitsvideos/src/lib/navigation-config.ts:434-439 | an item shows exactly when the active-items filter keeps it; the user context is never consulted |
| AppNavigation.ShownExactlyWhenListed | apps/mybenefitsvideos/src/lib/navigation-config.ts:395-439 | a registry item passes `shouldShowNavItem` exactly when `getActiveNavItems` lists it |
| AppNavigation.MobileSnapshot | apps/mybenefitsvideos/src/lib/navigation-config.ts:442-445 | the registry positions captured when the module loads: exactly the active items among services, solutions, pricing and get-quote, in registry order |
| AppNavigation.MobilePrimaryItems | apps/mybenefitsvideos/src/lib/navigation-config.ts:401-445 | `primaryItems` holds the captured objects in their current state: an item is listed exactly when it was captured at load, whatever later updates did to it |
| AppNavigation.MobileAtLoad | apps/mybenefitsvideos/src/lib/navigation-config.ts:442-445 | at load the captured items are the source's filter of the registry |
| AppNavigation.MobileItemsAreActive | apps/mybenefitsvideos/src/lib/navigation-config.ts:395-445 | at load every mobile primary item is active and among the items shown on desktop |
| AppNavigation.UpdatesKeepIds | apps/mybenefitsvideos/src/lib/navigation-config.ts:401-416 | status and order updates keep every registry item and its id |
| AppNavigation.MobileIdsFixed | apps/mybenefitsvideos/src/lib/navigation-config.ts:401-445 | after any updates the mobile menu lists the same ids, in the same order, as at load |
| AppNavigation.DeactivatedStaysInMobile | apps/mybenefitsvideos/src/lib/navigation-config.ts:395-445 | deactivating a captured item leaves it in the mobile menu, now inactive, while `getActiveNavItems` drops it |
| AppTemplates.TypeList | apps/mybenefitsvideos/src/lib/page-templates.ts:333-340 | a list is registered exactly for 'homepage', 'services' and 'landing' |
| AppTemplates.GetAllTemplates | apps/mybenefitsvideos/src/lib/page-templates.ts:343-358 | with no page type, every template; with a page type, that type's list, or [] for an unknown type |
| AppTemplates.AllIsTypedLists | apps/mybenefitsvideos/src/lib/page-templates.ts:343-358 | the full list is the homepage, services and landing lists one after another |
| AppTemplates.GetActiveTemplate | apps/mybenefitsvideos/src/lib/page-templates.ts:332-341 | nothing for an unknown type; otherwise nothing exactly when no template of the type is active, else the first active one |
| AppTemplates.ActivateIn | apps/mybenefitsvideos/src/lib/page-templates.ts:360-374 | within one list, exactly the first template with the id ends up active and is dated today; every other template is deactivated and keeps its date |
| AppTemplates.ActivateLeavesOneActive | apps/mybenefitsvideos/src/lib/page-templates.ts:360-374 | after activation at most one template of the list is active, and one is active exactly when the id is listed |
| AppTemplates.ActivateTemplate | apps/mybenefitsvideos/src/lib/page-templates.ts:360-374 | activation acts within the named type's list; an empty page type acts on every template at once; an unknown type changes nothing |
| AppTemplates.UpdateSectionOrder | apps/mybenefitsvideos/src/lib/page-templates.ts:376-388 | only the first template with the id changes: its sections are renumbered by the listed ids and it is dated; every other template stays as it was |
| AppTemplates.RenumberKeepsSections | apps/mybenefitsvideos/src/lib/page-templates.ts:381-387 | renumbering changes only the sections' orders and the template's date: the sections' count, ids and other fields stay as they were |
| AppTemplates.ToggleIn | apps/mybenefitsvideos/src/lib/page-templates.ts:393-398 | only the first section with the id changes, and only its active flag; the template is dated exactly when the section exists, and is otherwise unchanged |
| AppTemplates.ToggleSection | apps/mybenefitsvideos/src/lib/page-templates.ts:390-399 | only the first template with the id is touched, through the section toggle; every other template stays as it was |
| AppTemplates.SortedSections | apps/mybenefitsvideos/src/lib/page-templates.ts:401-404 | exactly the sections the filter keeps, each as often as before, in ascending order |
| AppTemplates.GetTemplateSections | apps/mybenefitsvideos/src/lib/page-templates.ts:401-404 | [] for an unknown template; otherwise the first matching template's active sections in ascending order |
| AppTemplates.GetTemplateMobileSections | apps/mybenefitsvideos/src/lib/page-templates.ts:435-440 | [] for an unknown template; otherwise its active sections not explicitly hidden on mobile, in ascending order |
| AppTemplates.MobileSectionsAreActiveSections | apps/mybenefitsvideos/src/lib/page-templates.ts:435-440 | every mobile section is among the template's active sections |
| AppTemplates.GetBestPerformingTemplate | apps/mybenefitsvideos/src/lib/page-templates.ts:418-423 | nothing exactly when no template of the type has a non-zero rate; otherwise a template of the type with a rate no other rated template exceeds |
| AppTemplates.BestHomepageIsPrimary | apps/mybenefitsvideos/src/lib/page-templates.ts:48-58 | with the homepage list as registered, the primary template (rate 12.5) is the best performer |
| BmadCycle.DefaultCycleId | bmad/bmad-integration-system.py:115 | the generated id is `bmad_cycle_` followed by the timestamp |
| BmadCycle.StartNewCycle | bmad/bmad-integration-system.py:109-154 | with an active cycle, its id is returned and nothing changes; otherwise a fresh active cycle in "build" starts now, named by a non-empty name or else by the timestamp id, with zero counts and completion due the configured number of days later |
| BmadCycle.StartIsIdempotent | bmad/bmad-integration-system.py:111-113 | a second start while a cycle is active returns the same id and changes nothing |
| BmadCycle.ClassifyTaskType | bmad/bmad-integration-system.py:252-263 | a task is landing-page exactly when its lower-cased description names a landing-page keyword; email when it names no landing-page keyword but an email keyword; funnel when it names only a funnel keyword; generic when it names none |
| BmadCycle.ClassifyIgnoresCase | bmad/bmad-integration-system.py:254 | lower-casing the description first does not change its class |
| BmadCycle.LandingPageWins | bmad/bmad-integration-system.py:256-257 | a description that names any landing-page keyword is a landing-page task, whatever else it names |
| BmadCycle.ExecuteBuildTask | bmad/bmad-integration-system.py:234-250 | the log carries the task's id, title and class; a task fails exactly when it is a landing-page task, a deploy script is configured and the deploy fails |
| BmadCycle.ExecuteBuildPhase | bmad/bmad-integration-system.py:156-196 | outside "build" it fails and changes nothing; a fault after k tasks fails with the cycle unchanged and leaves the first k task logs (and their deploys) behind; otherwise every task is logged in order and the cycle moves to "measure", counting one collection when automatic, unless the transition raises |
| BmadCycle.TaskFaultLeavesPrefix | bmad/bmad-integration-system.py:170-189 | a fault after k tasks leaves exactly the first k logs a fault-free build writes, and the cycle in "build" |
| BmadCycle.ExecuteAnalyzePhase | bmad/bmad-integration-system.py:338-378 | outside "measure" it fails and changes nothing; otherwise the phase becomes "analyze", saved recommendations stay saved even when a later step raises, and on success the cycle is in "decide" with one pending decision per recommendation |
| BmadCycle.AnalyzeFailureSticks | bmad/bmad-integration-system.py:345-378 | a failed analysis is not rolled back: the phase stays "analyze", so a retry is refused and changes nothing |
| BmadCycle.CompleteCycle | bmad/bmad-integration-system.py:443-474 | without a cycle nothing happens; otherwise the cycle is archived as completed and the current cycle is cleared |
| BmadCycle.CompleteThenStartIsFresh | bmad/bmad-integration-system.py:443-474 | after completion, the next start always opens a fresh cycle in "build" with zero counts, and the recommendation store is kept |
| BmadCycle.MaxPhaseDays | bmad/bmad-integration-system.py:560-568 | each of the four phases gets its configured limit; any other phase name gets 7 |
| BmadCycle.DaysBetween | bmad/bmad-integration-system.py:558 | the whole days between two instants, floored as `timedelta.days` floors them |
| BmadCycle.DailyHealthCheck | bmad/bmad-integration-system.py:552-571 | an alert is sent exactly when a cycle is current and its phase has run more whole days than the phase's limit; the alert names the phase, its days and the limit |
| BmadCycle.OverdueStaysOverdue | bmad/bmad-integration-system.py:568 | once a phase is overdue it stays overdue as time passes |
| BmadCycle.FreshCycleIsHealthy | bmad/bmad-integration-system.py:109-126 | on its first day, a freshly started cycle with a non-negative build limit raises no alert |
| BmadCycle.HappyPath | bmad/bmad-integration-system.py:109-441 | start, a fault-free build and a fault-free analysis leave the same cycle in "decide", with one collection when automatic and one pending decision per recommendation, at most seven |
| BmadDecide.EffortWeight | bmad/decide-workflow-system.py:83-84 | the effort weight is 1.0 for low, 0.7 for medium and 0.4 for high, matched after lower-casing, and 0.5 for any other effort |
| BmadDecide.PriorityScore | bmad/decide-workflow-system.py:81-87 | per unit of impact × confidence a low effort scores 100, medium 70, high 40 and any other effort 50, matched case-insensitively; a non-negative product scores between 40% and 100% of its low-effort score |
| BmadDecide.PriorityScoreIgnoresCase | bmad/decide-workflow-system.py:84 | lower-casing the effort first does not change the score |
| BmadDecide.EffortOrdering | bmad/decide-workflow-system.py:83-87 | for positive impact and confidence the score falls strictly from low to medium to an unknown effort to high |
| BmadDecide.EffortOrdinal | bmad/decide-workflow-system.py:92-93 | the effort ordinal lies in 1 to 3; it is 1 exactly for low and 3 exactly for high, matched after lower-casing; any other effort counts as 2 |
| BmadDecide.Categorize | bmad/decide-workflow-system.py:90-102 | quick win exactly when impact is at least 20 and the ordinal at most 2; major project at least 20 and ordinal 3; fill-in below 20 and ordinal at most 2; thankless task otherwise |
| BmadDecide.UnknownEffortAsymmetry | bmad/decide-workflow-system.py:83-93 | an unknown effort is categorised like medium but scores strictly below medium |
| BmadDecide.RecentWindow | bmad/decide-workflow-system.py:179-184 | the window holds exactly the rows at or after the cutoff, each as often as in the table, newest first |
| BmadDecide.RecentWindowInRange | bmad/decide-workflow-system.py:182 | every row of the window is at or after the cutoff |
| BmadDecide.LastValue | bmad/decide-workflow-system.py:227 | nothing exactly when no row has the name; otherwise the value of the last row with that name |
| BmadDecide.LatestIsOldest | bmad/decide-workflow-system.py:183 | in a newest-first window the "latest" value comes from the oldest row with that name: no later row carries it |
| BmadDecide.LastValueByPrefix | bmad/decide-workflow-system.py:221-227 | filtering the window by a prefix the metric's name starts with does not change that metric's last value |
| BmadDecide.Benchmark | bmad/decide-workflow-system.py:251-256 | each of the four pair benchmarks is positive, so the dictionary's default of 0 never applies |
| BmadDecide.Rate | bmad/decide-workflow-system.py:242-248 | a rate exists exactly when both stage values exist and the upstream one is positive, and it is next over current times 100 |
| BmadDecide.Rates | bmad/decide-workflow-system.py:238-248 | the four rates are the pairs' conversion rates, in pair order |
| BmadDecide.StageNameAsWritten | bmad/decide-workflow-system.py:262 | a key with no `funnel_` pattern in it passes through unchanged; the shape of a funnel pair key is stated by StageNameAsWrittenShape |
| BmadDecide.StageName | bmad/decide-workflow-system.py:262 | a key with no `funnel_` pattern in it passes through unchanged; the shape of a funnel pair key is stated by StageNameShape |
| BmadDecide.StageNameAsWrittenShape | bmad/decide-workflow-system.py:262 | as written, the first replacement also strips the `funnel_` after `_to_`, so the arrow never appears: the name is `<a>_to_<b>` |
| BmadDecide.StageNameShape | bmad/decide-workflow-system.py:262 | in the intended order the joint becomes an arrow and both prefixes are stripped: the name is `<a> → <b>` |
| BmadDecide.StageNameExample | bmad/decide-workflow-system.py:262 | on the first pair, the as-written name is `landing_page_views_to_calculator_starts` while the intended one is `landing_page_views → calculator_starts` |
| BmadDecide.FunnelRecShape | bmad/decide-workflow-system.py:264-281 | every funnel recommendation is a HIGH tactical optimisation with impact 15, confidence 0.8, medium effort and 14 days, with the current rate, the benchmark and the improvement needed (benchmark minus rate) in its data |
| BmadDecide.FlaggedFrom | bmad/decide-workflow-system.py:258-261 | every pair it lists is flagged, with its rate; every flagged pair from the start index on is listed |
| BmadDecide.FlaggedFromOrdered | bmad/decide-workflow-system.py:258 | the flagged pairs come out in increasing pair order |
| BmadDecide.AnalyzeFunnel | bmad/decide-workflow-system.py:216-286 | at most four recommendations, one per flagged pair |
| BmadDecide.FunnelRatesUnfiltered | bmad/decide-workflow-system.py:221 | the `funnel_` pre-filter changes no conversion rate |
| BmadDecide.FunnelFlaggedIff | bmad/decide-workflow-system.py:216-286 | the pass reports exactly the pairs whose rate is below 80% of the benchmark, in pair order; the emptiness guard and the pre-filter change nothing |
| BmadDecide.AnalyzeFunnelItems | bmad/decide-workflow-system.py:258-284 | the k-th funnel recommendation is the one built for the k-th flagged pair, with that pair's rate |
| BmadDecide.AnalyzeTraffic | bmad/decide-workflow-system.py:288-322 | at most one recommendation, and one only for a bounce rate strictly above 60 |
| BmadDecide.TrafficEmitsIff | bmad/decide-workflow-system.py:288-322 | the bounce-rate recommendation is emitted exactly when the latest bounce rate exists and is strictly above 60, and it carries that rate |
| BmadDecide.AnalyzeEmail | bmad/decide-workflow-system.py:324-357 | at most one recommendation, and one only for an open rate strictly below 30 |
| BmadDecide.EmailEmitsIff | bmad/decide-workflow-system.py:324-357 | the open-rate recommendation is emitted exactly when the latest open rate exists and is strictly below 30, and it carries that rate |
| BmadDecide.SalesFor | bmad/decide-workflow-system.py:369-400 | one recommendation exactly when both lead counts exist, leads are positive and qualified over leads times 100 is below 60; it carries both counts and that rate |
| BmadDecide.AnalyzeSales | bmad/decide-workflow-system.py:359-402 | at most one recommendation, and when there is one it is the lead-qualification recommendation with a rate below 60 |
| BmadDecide.SalesEmitsIff | bmad/decide-workflow-system.py:359-402 | the sales pass applies the sales rule to the whole window's latest lead counts; the `crm_` pre-filter changes nothing |
| BmadDecide.Score | bmad/decide-workflow-system.py:406-416 | the scored recommendation carries the matrix's priority score and category for its impact, effort and confidence |
| BmadDecide.Prioritize | bmad/decide-workflow-system.py:404-418 | the scored recommendations, each as often as given, highest score first |
| BmadDecide.PrioritizeIsStable | bmad/decide-workflow-system.py:418 | recommendations with equal scores keep their input order, since Python's sort is stable |
| BmadDecide.AnalyzePerformance | bmad/decide-workflow-system.py:171-214 | an empty window gives no recommendations; otherwise at most seven |
| BmadDecide.AnalyzePerformanceIsPermutation | bmad/decide-workflow-system.py:193-214 | a non-empty window gives the four passes' results, each exactly once, re-sorted by score |
| BmadDecide.FunnelScore | bmad/decide-workflow-system.py:81-102 | a funnel recommendation scores 840 and is a fill-in |
| BmadDecide.BounceScore | bmad/decide-workflow-system.py:81-102 | the bounce-rate recommendation scores 714 and is a fill-in |
| BmadDecide.OpenRateScore | bmad/decide-workflow-system.py:81-102 | the open-rate recommendation scores 600 and is a fill-in |
| BmadDecide.QualificationScore | bmad/decide-workflow-system.py:81-102 | the qualification recommendation scores 980 and is a quick win |
| BmadDecide.FunnelKeepsPairOrder | bmad/decide-workflow-system.py:418 | all funnel recommendations tie at 840, so they come out of the sort in pair order |
| BmadDecide.TopRanksFirst | bmad/decide-workflow-system.py:418 | a recommendation scoring strictly above all others is ranked first |
| BmadDecide.SalesRanksFirst | bmad/decide-workflow-system.py:359-418 | when the qualification recommendation is present, it is ranked first |
| BmadDecide.LastWithId | bmad/decide-workflow-system.py:426-439 | nothing exactly when no recommendation has the id; otherwise the last one with it |
| BmadDecide.SaveRecommendations | bmad/decide-workflow-system.py:420-443 | the stored ids are the old ones plus the saved ones; a saved id holds the last recommendation saved under it; every other row stays as it was |
| BmadDecide.SaveReplaces | bmad/decide-workflow-system.py:426-439 | saving a recommendation whose id is stored replaces that one row: the table keeps its size, the row holds the new fields, and no other row changes |
| BmadDecide.StatusFor | bmad/decide-workflow-system.py:468-473 | approved exactly for "approve", cancelled exactly for "reject", pending approval for any other verb |
| BmadDecide.RowOf | bmad/decide-workflow-system.py:118-133 | the fetched row has 15 columns in table order: column 0 is the id, 9 the resources, 10 the success metrics and 11 the risk factors |
| BmadDecide.MakeDecision | bmad/decide-workflow-system.py:445-508 | fails exactly when the id is not stored; otherwise records the decision with the status its verb gives, the recommendation's success metrics as criteria, an empty team and a target 30 days on by default, and appends it to the log |
| BmadDecide.MakeDecisionAsWritten | bmad/decide-workflow-system.py:445-508 | as written: fails exactly when the id is not stored; otherwise appends one record whose success criteria are the recommendation's risk factors |
| BmadDecide.AsWrittenDiffersOnlyInCriteria | bmad/decide-workflow-system.py:483 | the as-written and corrected decisions fail on the same inputs and differ only in the success criteria, which as written are the risk factors |
| BmadDecide.SuccessCriteriaExample | bmad/decide-workflow-system.py:483 | on a stored bounce-rate recommendation the as-written decision records "Changes may initially impact SEO rankings" as its success criterion, the corrected one "Reduce bounce rate below 50%" |
| BmadDecide.DecisionLogGrows | bmad/decide-workflow-system.py:490-503 | each successful decision appends exactly one row and keeps the earlier ones |
| BmadMeasure.SetKpiTarget | bmad/measure-tracking-system.py:125-147 | the target is installed under its metric name, replacing any earlier one; every other target, the metrics and the alerts stay as they were |
| BmadMeasure.LastTargetWins | bmad/measure-tracking-system.py:131 | setting two targets for the same metric keeps only the second |
| BmadMeasure.LastTarget | bmad/measure-tracking-system.py:125-147 | nothing exactly when no listed target names the metric; otherwise the last listed target for it |
| BmadMeasure.SetKpiTargets | bmad/measure-tracking-system.py:430-431 | after setting each target in order, a metric has a target exactly when it had one or one is listed; a listed metric holds its last listed target; the others keep theirs |
| BmadMeasure.SetupKpiTargets | bmad/measure-tracking-system.py:417-431 | every campaign target's metric ends up with the last target listed for it; metrics and alerts stay as they were |
| BmadMeasure.CampaignTargetsDistinct | bmad/measure-tracking-system.py:419-427 | the seven campaign targets name seven different metrics |
| BmadMeasure.SetupInstallsEachTarget | bmad/measure-tracking-system.py:417-431 | after setup every campaign target is installed exactly as listed |
| BmadMeasure.ThresholdValue | bmad/measure-tracking-system.py:206 | the breach level is the target less its threshold percentage: the target itself at 0% and 0 at 100% |
| BmadMeasure.UnderperformanceAlert | bmad/measure-tracking-system.py:209-216 | the alert is a `kpi_underperformance` alert for the metric, carrying its value, the target and the threshold, and is unresolved |
| BmadMeasure.CheckKpiAlerts | bmad/measure-tracking-system.py:200-216 | exactly one alert is appended when the metric has a target and lies strictly below its breach level; otherwise the tracker is unchanged |
| BmadMeasure.RecordMetric | bmad/measure-tracking-system.py:149-174 | the row is appended, and one alert is appended exactly when the metric breaches its target; earlier alerts are kept |
| BmadMeasure.NoAlertDeduplication | bmad/measure-tracking-system.py:200-216 | the same breaching reading recorded twice raises two identical alerts |
| BmadMeasure.RecordBatchMetrics | bmad/measure-tracking-system.py:176-198 | the rows are appended in order and no alert is checked |
| BmadMeasure.BreachAlerts | bmad/measure-tracking-system.py:200-216 | recording readings one at a time raises at most one unresolved `kpi_underperformance` alert per reading |
| BmadMeasure.BatchSkipsAlerts | bmad/measure-tracking-system.py:149-198 | a batch stores the same rows as recording them one at a time, but only the one-at-a-time path raises the alerts |
| BmadMeasure.CollectDailyMetrics | bmad/measure-tracking-system.py:432-469 | a failing fetch stores nothing and appends exactly one collection-failure alert; a successful one stores every fetched row as one batch |
| BmadMeasure.PercentOfDelivered | bmad/measure-tracking-system.py:344-345 | the rate fails exactly when nothing was delivered; otherwise the rate times the deliveries is the count times 100 |
| BmadMeasure.FetchEmailMetrics | bmad/measure-tracking-system.py:316-365 | fails exactly when nothing was delivered; otherwise nine rows: seven counters, then the open and the click rate as percentages of deliveries, all from the platform at the same time |
| BmadMeasure.FetchAll | bmad/measure-tracking-system.py:442-455 | the collection succeeds exactly when every connector succeeds, and then holds their rows in fetch order |
| BmadMeasure.NothingDeliveredFailsCollection | bmad/measure-tracking-system.py:316-469 | an email report with nothing delivered fails the whole daily collection: no row of any source is stored and one failure alert is raised |
| BmadMeasure.OpenRateAlertsBelow | bmad/measure-tracking-system.py:206-208 | with the campaign targets installed, an email open rate alerts exactly when it is below 31.5, that is 35 less 10% |
| BmadTracker.RecordOptimization | bmad_tracking_system.py:107-121 | INSERT OR REPLACE: the optimisation is stored under its id with status "active", implemented now and no measured impact; every other optimisation, the metrics and the proposals stay as they were |
| BmadTracker.ReRecordResetsStatus | bmad_tracking_system.py:43-51 | re-recording a completed optimisation replaces the whole row, so it is active again, its measured impact is gone and its date is the new one |
| BmadTracker.RecordProposalGeneration | bmad_tracking_system.py:123-141 | the proposal is appended under the next AUTOINCREMENT id, which is returned and then advanced; its three status flags start false; the other tables stay as they were |
| BmadTracker.RecordProposalKeepsValid | bmad_tracking_system.py:56-70 | recording a proposal keeps ids positive, unique and increasing, and the returned id names no earlier row |
| BmadTracker.SetClauses | bmad_tracking_system.py:149-163 | one SET clause per flag that is given, and none exactly when no flag is given |
| BmadTracker.UpdateProposalStatus | bmad_tracking_system.py:143-173 | with no flag the table is unchanged; otherwise the rows with the id take each given flag and keep the others, and every other row is unchanged |
| BmadTracker.UpdateKeepsValid | bmad_tracking_system.py:143-173 | a status update keeps the proposal table valid |
| BmadTracker.UpdatesCompose | bmad_tracking_system.py:143-173 | setting "opened" and then "closed won" equals setting both in one call |
| BmadTracker.RecordCurrentMetric | bmad_tracking_system.py:175-188 | appends exactly one metric row, with source "live_tracking" and the given optimisation; nothing else changes |
| BmadTracker.WindowValues | bmad_tracking_system.py:221-231 | the values collected for a BETWEEN window are non-empty exactly when some row of that metric lies in the window |
| BmadTracker.Avg | bmad_tracking_system.py:222 | SQL AVG: NULL exactly over no rows, otherwise the value whose product with the count is the sum |
| BmadTracker.AvgOfConstant | bmad_tracking_system.py:222 | a non-empty list of one value averages to that value |
| BmadTracker.MetricImpactOf | bmad_tracking_system.py:219-241 | a metric is reported exactly when both averages are truthy, with before, after and the impact percentage (after − before) / before × 100 |
| BmadTracker.ImpactAnalysis | bmad_tracking_system.py:210-241 | the analysis holds exactly the listed metrics whose comparison is reported, each with its comparison |
| BmadTracker.CalculateOptimizationImpact | bmad_tracking_system.py:190-250 | None exactly for an unknown id; otherwise the optimisation's title, expected impact and date with the analysis of the four key metrics over the windows around its date |
| BmadTracker.ImplementationInstantInBoth | bmad_tracking_system.py:204-231 | a reading taken at the implementation instant lies in both the before and the after window, as both BETWEEN ranges include that instant |
| BmadTracker.NoBeforeNoImpact | bmad_tracking_system.py:234 | a metric with no reading before the implementation is never in the analysis |
| BmadTracker.SteadyMetricHasNoImpact | bmad_tracking_system.py:234-235 | a metric read at one non-zero value in both windows is reported with zero impact |
| BmadTracker.CountWhere | bmad_tracking_system.py:271-279 | the number of proposals since the cutoff satisfying a flag lies between 0 and the number of proposals |
| BmadTracker.ProposalCountsSince | bmad_tracking_system.py:270-281 | COUNT(*) of the rows since the cutoff, and the three SUM(CASE …) flag counts, which are NULL exactly when no row is counted |
| BmadTracker.ReportRate | bmad_tracking_system.py:316-318 | (count or 0) / max(total or 1, 1) × 100: zero with no rows, otherwise the percentage whose product with the total is the count × 100 |
| BmadTracker.FlagCountBelowTotal | bmad_tracking_system.py:271-279 | a flag count never exceeds the total count |
| BmadTracker.ReportRatesBounded | bmad_tracking_system.py:313-318 | the open, response and close rates lie between 0 and 100, and are 0 when no proposal falls in the period |
| CalculatorSummary.GetEmployeeCountRange | preview/src/components/calculator/CalculatorSummary.tsx:123-129 | the result is one of the five labels, and a positive head count lies at or above the lower bound of the range that label names and, below "1000+", at or under its upper bound |
| CalculatorSummary.CountInItsRange | preview/src/components/calculator/CalculatorSummary.tsx:123-129 | a positive head count lies within the range its bracket's label names |
| CalculatorSummary.BracketsAscend | preview/src/components/calculator/CalculatorSummary.tsx:123-129 | a larger head count never gets a lower bracket |
| CalculatorSummary.LabelsDistinct | preview/src/components/calculator/CalculatorSummary.tsx:124-128 | no two brackets share a label, so the label determines the bracket |
| CalculatorSummary.LeadErrors | preview/src/components/calculator/CalculatorSummary.tsx:40-53 | the failing fields are exactly those whose schema rule fails |
| CalculatorSummary.LeadErrorsIff | preview/src/components/calculator/CalculatorSummary.tsx:40-53 | each rule in both directions: name and company fail below 2 UTF-16 code units, the address fails when not an address, the contact channel fails outside email, phone and meeting, and consent fails unless given |
| CalculatorSummary.DefaultLeadFails | preview/src/components/calculator/CalculatorSummary.tsx:113-120 | the starting values fail on name, company and consent, and pass on the contact channel |
| CalculatorSummary.OnSubmit | preview/src/components/calculator/CalculatorSummary.tsx:133-176 | the submitting flag is always reset; the callback fires exactly on a successful response when one is given; success marks the form submitted with no error; failure sets the error and leaves the submitted flag as it was |
| CalculatorWizard.StepIndex | preview/src/components/PricingCalculator.tsx:47-138 | the index at which the step stands in the step list |
| CalculatorWizard.StepsDistinct | preview/src/components/PricingCalculator.tsx:47-91 | no step stands at two positions, so `findIndex` finds the step's one position |
| CalculatorWizard.Progress | preview/src/components/PricingCalculator.tsx:139 | a percentage above 0 and at most 100, equal to 100 exactly on the summary step, and six times it is (index + 1) × 100 |
| CalculatorWizard.ProgressIncreases | preview/src/components/PricingCalculator.tsx:139 | a later step always shows strictly more progress |
| CalculatorWizard.RoundedProgress | preview/src/components/PricingCalculator.tsx:279 | the rounded label reads 17, 33, 50, 67, 83 and 100 along the six steps |
| CalculatorWizard.GoNext | preview/src/components/PricingCalculator.tsx:141-160 | one position on when not on the last step; otherwise the step, which is then the summary, is kept |
| CalculatorWizard.GoPrev | preview/src/components/PricingCalculator.tsx:146-167 | one position back when not on the first step; otherwise the step, which is then the video step, is kept |
| CalculatorWizard.NextPrevInverse | preview/src/components/PricingCalculator.tsx:155-167 | back undoes forward wherever forward moves, and forward undoes back wherever back moves |
| CalculatorWizard.StepErrors | preview/src/components/PricingCalculator.tsx:175-201 | each error key is present exactly when its step is current and its check fails: no video type, under one minute, no website type, negative alternative-language minutes |
| CalculatorWizard.ReviewStepsAlwaysPass | preview/src/components/PricingCalculator.tsx:175-201 | the pricing, ROI and summary steps have no checks and always pass |
| CalculatorWizard.HandleNext | preview/src/components/PricingCalculator.tsx:204-208 | the errors shown are the current step's; the wizard moves one step on exactly when there are none and a next step exists |
| CalculatorWizard.ValidChoicesReachSummary | preview/src/components/PricingCalculator.tsx:204-208 | with valid choices five presses of Next lead from the video step to the summary |
| CalculatorWizard.MissingMinutesBlocks | preview/src/components/PricingCalculator.tsx:183-208 | a video step with under one minute keeps the wizard there and shows the minutes error |
| CalculatorWizard.ClickStep | preview/src/components/PricingCalculator.tsx:289-298 | a step button moves to its step exactly when that step is not ahead of the current one, so clicking never moves ahead |
| CampaignAnalysis.SortByPriority | bmad_analysis_current_campaign.py:339 | a permutation of the recommendations in descending priority score |
| CampaignAnalysis.SortByPriorityIsStable | bmad_analysis_current_campaign.py:339 | recommendations with equal scores keep their input order, as Python's reversed sort is stable |
| CampaignAnalysis.QuickWins | bmad_analysis_current_campaign.py:353-359 | the first three quick wins in list order, or all of them when there are fewer, each taken from the list |
| CampaignAnalysis.FewQuickWinsAllTaken | bmad_analysis_current_campaign.py:359 | with fewer than three quick wins the plan holds every one |
| CampaignAnalysis.PlanOfOrderedList | bmad_analysis_current_campaign.py:339-359 | a list already in descending score order whose first three entries are its quick wins is kept by the sort and planned as that prefix |
| CampaignAnalysis.ImmediatePlan | bmad_analysis_current_campaign.py:247-359 | the fixed recommendation list is already in score order and the plan is its first three entries |
| CampaignAnalysis.MonthlyLeads | bmad_analysis_current_campaign.py:450 | leads per month are the conversion percentage of the sessions |
| CampaignAnalysis.Cac | bmad_analysis_current_campaign.py:451 | revenue per lead with leads, and 0 without |
| CampaignAnalysis.LtvCacRatio | bmad_analysis_current_campaign.py:452 | lifetime value per acquisition cost when the cost is positive, and 0 otherwise |
| CampaignAnalysis.RatioIsLtvPerLeadRevenue | bmad_analysis_current_campaign.py:450-452 | with positive revenue and leads the ratio is lifetime value × leads / revenue |
| CampaignAnalysis.BaselineDerived | bmad_analysis_current_campaign.py:397-452 | the baseline's figures give 42.5 leads, a cost with 42.5 × cost = 45000, and a ratio with 45000 × ratio = 15000 × 42.5 |
| CaseStudyFilter.ClientMatchPasses | apps/mybenefitsvideos/src/components/sections/case-study-filter.tsx:83-96 | a study whose client name holds the query, ignoring the case of ASCII letters, passes the text search |
| CaseStudyFilter.Matches | apps/mybenefitsvideos/src/components/sections/case-study-filter.tsx:81-128 | a study passes only under ranges that are not inverted and a size label that the size map knows |
| CaseStudyFilter.DefaultsKeep | apps/mybenefitsvideos/src/components/sections/case-study-filter.tsx:32-130 | with the panel at its defaults and no query, a study is kept exactly when its ROI lies in 200..600 and its engagement in 200..500 |
| CaseStudyFilter.UnmappedSizeExcludesAll | apps/mybenefitsvideos/src/components/sections/case-study-filter.tsx:101-109 | a size label missing from the size map lets no study through |
| CaseStudyFilter.RangesInclusive | apps/mybenefitsvideos/src/components/sections/case-study-filter.tsx:117-123 | both ends of the ROI and engagement ranges are kept |
| CaseStudyFilter.GetWeeksReadsNumber | apps/mybenefitsvideos/src/components/sections/case-study-filter.tsx:144 | a timeline made of a number, a space and any unit reads as that number |
| CaseStudyFilter.GetWeeks | apps/mybenefitsvideos/src/components/sections/case-study-filter.tsx:144 | a timeline without a minus sign never reads as a negative number of weeks |
| CaseStudyFilter.JsParseInt | apps/mybenefitsvideos/src/components/sections/case-study-filter.tsx:144 | a negative value needs a minus sign in the token |
| CaseStudyFilter.FirstToken | apps/mybenefitsvideos/src/components/sections/case-study-filter.tsx:144 | splitting digits, a space and a unit on spaces gives the digits first |
| CaseStudyFilter.ParseIntDigits | apps/mybenefitsvideos/src/components/sections/case-study-filter.tsx:144 | parseInt reads a non-empty run of decimal digits as its value |
| CaseStudyFilter.FeaturedFirst | apps/mybenefitsvideos/src/components/sections/case-study-filter.tsx:146-150 | a permutation in which featured studies come first, and studies alike in being featured come in descending ROI; studies alike in both keep their input order, as two stable sorts leave them |
| CaseStudyFilter.TwoSortsKeepTieOrder | apps/mybenefitsvideos/src/components/sections/case-study-filter.tsx:146-150 | the stable ROI sort followed by the stable featured sort keeps studies equal in both keys in their input order |
| CaseStudyFilter.FeaturedOrder | apps/mybenefitsvideos/src/components/sections/case-study-filter.tsx:146-150 | ordered by featured rank, with ties in descending ROI, means featured first and descending ROI within each group |
| CaseStudyFilter.SortStudies | apps/mybenefitsvideos/src/components/sections/case-study-filter.tsx:132-152 | a permutation ordered as the selected comparator says: ROI, engagement, date and size descending, timeline ascending, otherwise the default order; `Array.prototype.sort` is stable, so studies the comparator ties keep their input order |
| CaseStudyFilter.ByRoiDesc | apps/mybenefitsvideos/src/components/sections/case-study-filter.tsx:134-135 | a permutation in descending ROI; studies with equal ROI keep their input order |
| CaseStudyFilter.ByEngagementDesc | apps/mybenefitsvideos/src/components/sections/case-study-filter.tsx:136-137 | a permutation in descending engagement; studies with equal engagement keep their input order |
| CaseStudyFilter.ByDateDesc | apps/mybenefitsvideos/src/components/sections/case-study-filter.tsx:138-139 | a permutation with the latest completion first; studies with equal completion date keep their input order |
| CaseStudyFilter.BySizeDesc | apps/mybenefitsvideos/src/components/sections/case-study-filter.tsx:140-142 | a permutation with Enterprise before Mid-market before Small; studies with equal size keep their input order |
| CaseStudyFilter.ByTimelineAsc | apps/mybenefitsvideos/src/components/sections/case-study-filter.tsx:143-145 | a permutation in ascending leading number of the timeline; studies with equal leading number keep their input order |
| CaseStudyFilter.TimelineNumbersOnly | apps/mybenefitsvideos/src/components/sections/case-study-filter.tsx:143-145 | of two studies whose timelines start with numbers, the one with the larger number sorts second, whatever the units |
| CaseStudyFilter.TimelineOrder | apps/mybenefitsvideos/src/components/sections/case-study-filter.tsx:143-145 | the timeline order is the stable sort by the timeline's leading number |
| CaseStudyFilter.FewerWeeksFirst | apps/mybenefitsvideos/src/components/sections/case-study-filter.tsx:143-145 | of two studies the one with the smaller leading number sorts first |
| CaseStudyFilter.TimelineIgnoresUnits | apps/mybenefitsvideos/src/components/sections/case-study-filter.tsx:144 | "10 days" sorts after "8 weeks", as only the numbers are compared |
| CaseStudyFilter.FilteredAndSorted | apps/mybenefitsvideos/src/components/sections/case-study-filter.tsx:80-153 | exactly the matching studies, each as often as in the input, in the selected order |
| CaseStudyFilter.ItemsPerPage | apps/mybenefitsvideos/src/components/sections/case-study-filter.tsx:276 | 9 exactly for the compact view, 5 exactly for the list view and 3 for every other view |
| CaseStudyFilter.DefaultIffNoValue | apps/mybenefitsvideos/src/components/sections/case-study-filter.tsx:63-75 | the state equals the defaults exactly when no parameter is written |
| CaseStudyFilter.Written | apps/mybenefitsvideos/src/components/sections/case-study-filter.tsx:63-74 | nothing is written exactly when no listed parameter has a value |
| CaseStudyFilter.GetWritten | apps/mybenefitsvideos/src/components/sections/case-study-filter.tsx:63-74 | reading back a parameter from what was written gives its written value, and nothing for a parameter not listed |
| CaseStudyFilter.ParamOrderNoDuplicates | apps/mybenefitsvideos/src/components/sections/case-study-filter.tsx:66-73 | each parameter is written at most once |
| CaseStudyFilter.EveryParamWritten | apps/mybenefitsvideos/src/components/sections/case-study-filter.tsx:66-73 | every parameter has its place in the written order |
| CaseStudyFilter.Params | apps/mybenefitsvideos/src/components/sections/case-study-filter.tsx:63-74 | the written parameters are empty exactly at the defaults, and each reads back as its value |
| CaseStudyFilter.Named | apps/mybenefitsvideos/src/components/sections/case-study-filter.tsx:64-73 | the written parameters as `URLSearchParams` holds them: each parameter's query name with its value, in the order of the `set` calls |
| CaseStudyFilter.NewUrl | apps/mybenefitsvideos/src/components/sections/case-study-filter.tsx:64-75 | the bare "/case-studies" path exactly at the defaults; otherwise "?" followed by the form-encoded query, which holds no further "?" |
| CaseStudyFilter.ParamNamed | apps/mybenefitsvideos/src/components/sections/case-study-filter.tsx:48-55 | a query name stands for the parameter whose name it is, and only the eight names the page reads stand for one |
| CaseStudyFilter.GetRecognized | apps/mybenefitsvideos/src/components/sections/case-study-filter.tsx:48-55 | keeping only the names the page reads does not change what `searchParams.get` returns for any of them |
| CaseStudyFilter.RecognizedNamed | apps/mybenefitsvideos/src/components/sections/case-study-filter.tsx:48-73 | the names the page writes are exactly the names it reads, in order |
| CaseStudyFilter.ReadUrl | apps/mybenefitsvideos/src/components/sections/case-study-filter.tsx:45-60 | each parameter the mount effect reads is the first parsed pair with its name |
| CaseStudyFilter.UrlTextRoundTrip | apps/mybenefitsvideos/src/components/sections/case-study-filter.tsx:45-77 | the URL text the page writes, parsed back on a fresh page, restores the filters, query and view except the two ranges, whatever characters the values hold |
| FormUrlencoded.Utf8Char | apps/mybenefitsvideos/src/components/sections/case-study-filter.tsx:64-75 | a code point encodes to one to four bytes, and to its own value exactly when it is ASCII |
| FormUrlencoded.DecodeOneChar | apps/mybenefitsvideos/src/components/sections/case-study-filter.tsx:45-75 | the UTF-8 decoder reads a code point's encoding back as that code point and consumes only its bytes |
| FormUrlencoded.Utf8RoundTrip | apps/mybenefitsvideos/src/components/sections/case-study-filter.tsx:45-75 | UTF-8 decoding undoes UTF-8 encoding for every string |
| FormUrlencoded.FormEncode | apps/mybenefitsvideos/src/components/sections/case-study-filter.tsx:64-75 | an encoded name or value holds only ASCII alphanumerics, `*`, `-`, `.`, `_`, `+` and `%`, so never `&`, `=` or `?` |
| FormUrlencoded.FormEncodeConcat | apps/mybenefitsvideos/src/components/sections/case-study-filter.tsx:64-75 | names and values are encoded character by character |
| FormUrlencoded.PlainTextUnchanged | apps/mybenefitsvideos/src/components/sections/case-study-filter.tsx:64-75 | text of ASCII alphanumerics and `*`, `-`, `.`, `_` is written as it is |
| FormUrlencoded.SpaceAsPlus | apps/mybenefitsvideos/src/components/sections/case-study-filter.tsx:72-75 | a space is written as `+`, so a search for "open enrollment" is written "open+enrollment" |
| FormUrlencoded.AmpersandEscaped | apps/mybenefitsvideos/src/components/sections/case-study-filter.tsx:72-75 | an `&` in a value is written `%26`, so it cannot end the pair |
| FormUrlencoded.FormRoundTrip | apps/mybenefitsvideos/src/components/sections/case-study-filter.tsx:45-75 | the parser's decoding of an encoded name or value gives back the original text |
| FormUrlencoded.Serialize | apps/mybenefitsvideos/src/components/sections/case-study-filter.tsx:64-75 | the query text is empty exactly when no pair was set, and never holds "?" |
| FormUrlencoded.ParseSerialize | apps/mybenefitsvideos/src/components/sections/case-study-filter.tsx:45-75 | parsing the text `URLSearchParams.toString()` wrote gives back every pair, in order |
| CaseStudyFilter.ReadParams | apps/mybenefitsvideos/src/components/sections/case-study-filter.tsx:45-60 | reading parameters back never touches the ROI and engagement ranges |
| CaseStudyFilter.UrlRoundTrip | apps/mybenefitsvideos/src/components/sections/case-study-filter.tsx:45-77 | loading a written query-string into a fresh page restores the filters, query and view, except the two ranges, which are back at their defaults |
| CaseStudyFilter.ReadWritten | apps/mybenefitsvideos/src/components/sections/case-study-filter.tsx:45-60 | any parameter list that reads back every written value restores the state on a fresh page, the ranges aside |
| CaseStudyFilter.ReadTextBack | apps/mybenefitsvideos/src/components/sections/case-study-filter.tsx:47-54 | a text entry written only when it differs from its default reads back as itself on a page at that default |
| CaseStudyFilters.GetDetermines | preview/src/components/ui/case-study-filters.tsx:24-32 | two filter records that agree on every entry are the same record |
| CaseStudyFilters.UpdateFilter | preview/src/components/ui/case-study-filters.tsx:49-54 | the named entry reads back as the new value and every other entry is unchanged |
| CaseStudyFilters.UpdateWithSameValue | preview/src/components/ui/case-study-filters.tsx:49-54 | writing back an entry's own value changes nothing |
| CaseStudyFilters.UpdateTwice | preview/src/components/ui/case-study-filters.tsx:49-54 | a later update of the same entry overrides the earlier one |
| CaseStudyFilters.HasActiveFilters | preview/src/components/ui/case-study-filters.tsx:69-78 | with the ranges inside the sliders' bounds, the filters are active exactly when the record differs from the defaults in anything but the sort order |
| CaseStudyFilters.ActiveFilterCount | preview/src/components/ui/case-study-filters.tsx:80-90 | at most seven, and positive exactly when the active-filters flag holds |
| CaseStudyFilters.RangeCountsOnce | preview/src/components/ui/case-study-filters.tsx:86 | a range counts once whether one or both of its ends are moved |
| CaseStudyFilters.WidenedRangeInactive | preview/src/components/ui/case-study-filters.tsx:69-78 | a range widened beyond its defaults does not make the filters active |
| CaseStudyFilters.SortIsNotCounted | preview/src/components/ui/case-study-filters.tsx:80-90 | changing the sort order leaves the count unchanged |
| CaseStudyFilters.AllSevenCount | preview/src/components/ui/case-study-filters.tsx:80-90 | with every filter in use the count is seven |
| CaseStudyFilters.ClearAllFilters | preview/src/components/ui/case-study-filters.tsx:56-67 | after clearing nothing is active, the count is zero, the sort is the featured order and every text and flag entry is at its default |
| CaseStudyGrid.Visible | apps/mybenefitsvideos/src/components/ui/case-study-grid.tsx:29 | the first displayCount studies, or all of them when there are fewer |
| CaseStudyGrid.LoadMore | apps/mybenefitsvideos/src/components/ui/case-study-grid.tsx:32-39 | never past the end of the list, never fewer than before, and the end exactly when one more page reaches it |
| CaseStudyGrid.LoadMoreAppends | apps/mybenefitsvideos/src/components/ui/case-study-grid.tsx:29-39 | after a load the visible studies are those shown before followed by the next ones in the list |
| CaseStudyGrid.LoadsShowPages | apps/mybenefitsvideos/src/components/ui/case-study-grid.tsx:26-36 | starting from one page, k loads show k + 1 pages or the whole list, whichever is less |
| CaseStudyGrid.LoadsReachEnd | apps/mybenefitsvideos/src/components/ui/case-study-grid.tsx:30-36 | with pages of at least one study, as many loads as there are studies reach the end, so the button goes away |
| CaseStudyGrid.Render | apps/mybenefitsvideos/src/components/ui/case-study-grid.tsx:41-134 | the spinner while loading; "No case studies found" for an empty list; otherwise a prefix of the list, the button exactly while some are hidden with the hidden count, and the closing line exactly when all show and the list is longer than a page |
| CaseStudyGrid.OnePageNoEndMessage | apps/mybenefitsvideos/src/components/ui/case-study-grid.tsx:127 | a list that fits on one page never shows the closing line |
| CaseStudySearch.ChallengeHits | preview/src/components/ui/case-study-search.tsx:86-91 | exactly the challenge's words longer than three UTF-16 code units that hold the query, each behind "Challenge: " |
| CaseStudySearch.StudyHitsAre | preview/src/components/ui/case-study-search.tsx:74-105 | a text is among one study's hits exactly when the client, the industry, a service or a tag holds the query and is that text, or it is a qualifying challenge word behind the prefix |
| CaseStudySearch.Candidates | preview/src/components/ui/case-study-search.tsx:72-106 | the collected texts are exactly those some study suggests |
| CaseStudySearch.Suggestions | preview/src/components/ui/case-study-search.tsx:64-110 | nothing under two UTF-16 code units; otherwise at most eight distinct texts, each suggested by some study, and all of them when fewer than eight are shown; the eight shown are the first distinct candidates in order of first occurrence |
| Seqs.Dedup | preview/src/components/ui/case-study-search.tsx:72-108 | a `Set` filled by `add` and read back with `Array.from`: the distinct elements, each once, at its first occurrence and in the order of those occurrences |
| Seqs.SortByKeepsTieOrder | apps/mybenefitsvideos/src/components/sections/case-study-filter.tsx:132-152 | the stable sort keeps, for every key value, the elements with that key in their input order |
| Seqs.WithKeyCommute | apps/mybenefitsvideos/src/components/sections/case-study-filter.tsx:146-150 | selecting by one key and then another gives the same elements, in the same order, as the other way round |
| CaseStudySearch.Down | preview/src/components/ui/case-study-search.tsx:127-132 | from a suggestion or from none the highlight lands on a suggestion, and from the last it wraps to the first |
| CaseStudySearch.Up | preview/src/components/ui/case-study-search.tsx:133-138 | from a suggestion or from none the highlight lands on a suggestion, and from the first or from none it wraps to the last |
| CaseStudySearch.UpDownInverse | preview/src/components/ui/case-study-search.tsx:127-138 | on a highlighted suggestion up undoes down and down undoes up |
| CaseStudySearch.DownCycles | preview/src/components/ui/case-study-search.tsx:127-132 | as many presses of ArrowDown as there are suggestions return to the starting one |
| CaseStudySearch.DownSteps | preview/src/components/ui/case-study-search.tsx:127-132 | short of the end each press moves the highlight one down |
| CaseStudySearch.DownCompose | preview/src/components/ui/case-study-search.tsx:127-132 | a + b presses equal a presses followed by b presses |
| CaseStudySearch.HandleInputChange | preview/src/components/ui/case-study-search.tsx:57-110 | the box holds the typed text, the list opens with no highlight and holds the suggestions for that text, and the page's query is untouched |
| CaseStudySearch.SuggestionClick | preview/src/components/ui/case-study-search.tsx:152-158 | the list closes with no highlight; box and query hold the same text; a suggestion without the challenge prefix goes in as it is |
| CaseStudySearch.ChallengeWordSearched | preview/src/components/ui/case-study-search.tsx:153 | picking a challenge suggestion searches for the word alone |
| CaseStudySearch.HandleKeyDown | preview/src/components/ui/case-study-search.tsx:123-150 | a valid highlight stays valid; nothing changes while the list is hidden or empty, or on Enter with no highlight; Enter picks the highlighted suggestion; the arrows move only the highlight; Escape closes the list and clears the highlight |
| CaseStudySearch.ClearSearch | preview/src/components/ui/case-study-search.tsx:160-164 | box and query empty and the list closed, with the highlight left where it was |
| ContactRoute.GetRateLimit | preview/src/app/api/contact/route.ts:6-27 | the address's counter goes up by one from its current window, other addresses are untouched; the request passes exactly while the count is at most five, and the remaining count is five less the count, never below 0 |
| ContactRoute.WindowResets | preview/src/app/api/contact/route.ts:15-18 | a request more than 15 minutes after the window began starts a new window with count 1, passes and leaves 4 |
| ContactRoute.WindowEdgeKeepsCount | preview/src/app/api/contact/route.ts:15 | exactly at the 15-minute edge the old window goes on and its count grows |
| ContactRoute.Requests | preview/src/app/api/contact/route.ts:10-27 | one allowed flag per request, and the counter map gains the address once a request is made |
| ContactRoute.RequestsInWindow | preview/src/app/api/contact/route.ts:10-27 | within one window from count c, request k passes exactly when c + k + 1 is at most five, and the count ends at c plus the number of requests |
| ContactRoute.SixthRequestRefused | preview/src/app/api/contact/route.ts:7-27 | from an unseen address within 15 minutes of its first request, the first five requests pass and every later one is refused |
| ContactRoute.GetClientIp | preview/src/app/api/contact/route.ts:29-35 | with a forwarded-for header, a text without commas or surrounding spaces; otherwise the real-ip header when given, else "unknown" |
| ContactRoute.TrimKeeps | preview/src/app/api/contact/route.ts:32 | trimming only removes characters |
| ContactRoute.FirstHop | preview/src/app/api/contact/route.ts:32 | behind a chain "client, proxy1, proxy2" the address is the trimmed client |
| ContactRoute.Post | preview/src/app/api/contact/route.ts:113-215 | the request is always counted; 429 exactly when over the limit, 500 exactly for a body that does not parse, 400 exactly for a body the schema rejects, whether mistyped (with the reported fields) or an invalid form (with its failing fields), and 200 exactly for a valid one |
| ContactValidation.PhoneNumeral | preview/src/lib/contact-validation.ts:21-25 | the phone pattern accepts a numeral, with or without a leading '+', exactly when its number lies in 1 .. 10^16 − 1 |
| ContactValidation.NumeralPattern | preview/src/lib/contact-validation.ts:23 | the digit part of the pattern accepts a numeral exactly when its number lies in 1 .. 10^16 − 1 |
| ContactValidation.SignedDigits | preview/src/lib/contact-validation.ts:23 | the digits of a phone number are what follows its optional '+' |
| ContactValidation.PhoneIsNumeral | preview/src/lib/contact-validation.ts:23 | everything the pattern accepts is an optional '+' followed by a numeral of 1 .. 10^16 − 1 written without leading zeros |
| ContactValidation.DigitsAreNumeral | preview/src/lib/contact-validation.ts:23 | a run the digit pattern accepts is the numeral of its own value, which lies in 1 .. 10^16 − 1 |
| ContactValidation.FormattedPhoneRejected | preview/src/lib/contact-validation.ts:23 | a number written with brackets, spaces and a hyphen is refused, while "+15551234567" passes |
| ContactValidation.Errors | preview/src/lib/contact-validation.ts:4-73 | the failing fields are exactly those whose rule fails |
| ContactValidation.ErrorsIff | preview/src/lib/contact-validation.ts:4-73 | each field's rule in both directions: name 2..100 and company 2..200 UTF-16 code units, an address that is not empty, a phone that is absent, empty or matches the pattern, a chosen project type and timeline, a budget in 1000..100000, a message of 10..2000 UTF-16 code units, a known contact preference, and consent |
| ContactValidation.ValidHasConsent | preview/src/lib/contact-validation.ts:61-65 | a form that passes has consent given, so the route's later consent check never fires |
| ContactValidation.DefaultsFail | preview/src/lib/contact-validation.ts:78-92 | the starting values fail on exactly name, email, company, project type, timeline, message and consent |
| FileUpload.Extension | preview/src/components/ui/file-upload.tsx:46 | a dot followed by text holding no further dot |
| FileUpload.ExtensionOf | preview/src/components/ui/file-upload.tsx:46 | for a name with a dot, the lower-cased text after its last dot |
| FileUpload.NoDotReadsWholeName | preview/src/components/ui/file-upload.tsx:46 | a name without a dot is read whole, so a file named "pdf" counts as a ".pdf" |
| FileUpload.Complaint | preview/src/components/ui/file-upload.tsx:38-53 | no complaint exactly for an accepted file; the size is checked before the type |
| FileUpload.Complaints | preview/src/components/ui/file-upload.tsx:38-53 | every picked file is either kept or complained about, never both |
| FileUpload.HandleFileSelectAsWritten | preview/src/components/ui/file-upload.tsx:55-73 | when the total would pass the limit the picker returns before logging, so nothing is logged |
| FileUpload.Added | preview/src/components/ui/file-upload.tsx:62-68 | the kept files are appended; the callback hears of the new list exactly when something was kept |
| FileUpload.HandleFileSelect | preview/src/components/ui/file-upload.tsx:31-74 | a cancelled dialog changes nothing; over the limit nothing is appended and every complaint is logged, then the limit; otherwise exactly the acceptable picked files are appended after the old ones, in the order picked, the complaints about the others are logged, the list stays within the limit, and the callback hears the new list exactly when something was appended |
| FileUpload.AsWrittenAgreesWithinLimit | preview/src/components/ui/file-upload.tsx:55-73 | when nothing would overflow, the as-written and corrected pickers agree |
| FileUpload.TooManyWarningLost | preview/src/components/ui/file-upload.tsx:55-73 | with three files held and one more accepted, the as-written picker logs nothing while the corrected one names the limit of three |
| FileUpload.AcceptedFileAdded | preview/src/components/ui/file-upload.tsx:38-68 | every acceptable picked file is appended unless the limit stops the whole pick |
| FileUpload.RejectedFileComplained | preview/src/components/ui/file-upload.tsx:38-53 | a rejected file is never appended, and its complaint is among those collected |
| FileUpload.ComplaintListed | preview/src/components/ui/file-upload.tsx:38-53 | the complaint of a rejected picked file is among those collected |
| FileUpload.SizeLimitInclusive | preview/src/components/ui/file-upload.tsx:40 | a file of exactly the size limit in megabytes passes, and one byte more is complained about as too large |
| FileUpload.RemoveFile | preview/src/components/ui/file-upload.tsx:76-77 | the files at every other position, in order; an index outside the list keeps them all |
| FileUpload.KeepOthers | preview/src/components/ui/file-upload.tsx:77 | over a suffix starting at an offset, the filter drops exactly the element at the index |
| FileUpload.RemoveLastUndoesAppend | preview/src/components/ui/file-upload.tsx:63-77 | removing the file just appended gives back the list before it |
| FileUpload.OnRemove | preview/src/components/ui/file-upload.tsx:76-82 | a valid index takes out exactly that one file; the callback always hears of the new list |
| FileUpload.DragOver | preview/src/components/ui/file-upload.tsx:84-89 | the highlight comes on only when the picker is enabled, and the files are untouched |
| FileUpload.Drop | preview/src/components/ui/file-upload.tsx:96-102 | the highlight goes off; a disabled picker ignores the files, an enabled one handles them as a pick |
| FileUpload.DisabledNeverHighlights | preview/src/components/ui/file-upload.tsx:84-102 | over a disabled picker without a highlight a drag shows none and a drop changes nothing |
| Keyed.FirstWith | apps/mybenefitsvideos/src/lib/navigation-config.ts:408-410 | nothing exactly when no element has the key; otherwise an element with the key that no earlier element shares it with |
| Keyed.UpdateFirst | apps/mybenefitsvideos/src/lib/navigation-config.ts:401-406 | the first element with the key is changed and every other element is left as it was; an unknown key changes nothing |
| Keyed.SameKeysSameFirst | apps/mybenefitsvideos/src/lib/navigation-config.ts:408-410 | whether an element is the first with its key depends only on the keys, so changes that keep keys keep the lookup |
| Keyed.LastListed | apps/mybenefitsvideos/src/lib/navigation-config.ts:412-420 | the last position at or after k where the id is listed, or nothing when it is not listed there |
| Keyed.RenumberedStep | apps/mybenefitsvideos/src/lib/navigation-config.ts:413-419 | one step of the renumbering loop moves the element to where the remaining steps take it |
| Keyed.ReorderFrom | apps/mybenefitsvideos/src/lib/navigation-config.ts:413-419 | the list keeps its length and each element ends where the listed ids from position k on take it |
| Keyed.Reorder | apps/mybenefitsvideos/src/lib/navigation-config.ts:412-420 | elements whose key is unlisted, or which are not the first with their key, are unchanged; the first element with a listed key gets order j + 1 for the last position j at which its key is listed |
| PackagePresets.CardPrice | preview/src/components/calculator/PackagePresets.tsx:52-91 | the good card shows 1598, the better card 6597 and the best card 10094 |
| PackagePresets.HandlePackageSelect | preview/src/components/calculator/PackagePresets.tsx:115-138 | good and better set two standard minutes with no teaser, alternative language, DIY deck or rush, good without a website and better with the Benefits Break site; best changes nothing; every other selection field is kept |
| PackagePresets.AtMostOneHighlighted | preview/src/components/calculator/PackagePresets.tsx:141-144 | at most one card is highlighted, and never the best one |
| PackagePresets.ChosenCardHighlighted | preview/src/components/calculator/PackagePresets.tsx:115-144 | choosing good or better highlights exactly the chosen card |
| PackagePresets.PackageSelectIdempotent | preview/src/components/calculator/PackagePresets.tsx:115-138 | choosing a card twice equals choosing it once |
| PackagePresets.LastPackageWins | preview/src/components/calculator/PackagePresets.tsx:115-138 | choosing good or better after any card equals choosing it alone |
| PackagePresets.CardPricesAgainstEngine | preview/src/components/calculator/PackagePresets.tsx:52-70 | with translated decks and updates off, the good card's price is the engine's subtotal for the good selection, while the better card's price is that subtotal less the site's annual fee |
| PresetPricing.Monthly | lib/pricing.ts:39-109 | essential 999, growth 2499 and enterprise 4999 a month, and nothing for any other plan |
| PresetPricing.ApplyPreset | lib/pricing.ts:49-74 | good, better and best overwrite the content fields: a Foundation of at least two minutes and no extra minutes, no microsite for good, the bundled one for better and best, and best adds teaser, DIY and at least two alternative-language minutes; rush, subscription and the preset are kept; other presets change nothing |
| PresetPricing.ApplyPresetIdempotent | lib/pricing.ts:49-74 | applying a preset a second time changes nothing |
| PresetPricing.Opt | lib/pricing.ts:77-87 | one item when the condition holds, none otherwise |
| PresetPricing.VideoItems | lib/pricing.ts:76-87 | at most five video items, each with a positive amount |
| PresetPricing.MicrositeItems | lib/pricing.ts:89-95 | one microsite item exactly when a microsite is chosen |
| PresetPricing.LineItems | lib/pricing.ts:76-95 | at most six items, each with a positive amount |
| PresetPricing.SumAmountsConcat | lib/pricing.ts:98 | the sum of two item lists joined is the sum of their sums |
| PresetPricing.SumAmountsNonNegative | lib/pricing.ts:98 | items of non-negative amounts sum to a non-negative total |
| PresetPricing.VideoItemsSum | lib/pricing.ts:76-87 | the video items add up to 2499 for a Foundation, 799 per extra minute, 999 for the teaser, 1999 for DIY and 299 per alternative-language minute; the Foundation's minutes only show in its label |
| PresetPricing.SubtotalIsListPrice | lib/pricing.ts:76-98 | all items add up to the video price plus 4999 standalone or 3999 bundled |
| PresetPricing.AnyPrefix | lib/pricing.ts:103 | holds exactly when the label starts with some listed video label |
| PresetPricing.AnySubstring | bmad_analysis_current_campaign.py:122 | holds exactly when the label contains some listed video label |
| PresetPricing.VideoSubtotalConcat | lib/pricing.ts:102-104 | both video subtotals of two joined item lists are the sums of their parts |
| PresetPricing.StartsWithConcat | lib/pricing.ts:103 | a text that starts with p still starts with p after more text is appended |
| PresetPricing.LabelMatched | lib/pricing.ts:101-104 | a label starting with a video label is matched by the prefix test and the substring test |
| PresetPricing.MatchedConcat | lib/pricing.ts:102-104 | lists whose items are all matched join into a list whose items are all matched |
| PresetPricing.PrefixedMatched | lib/pricing.ts:101-104 | a video label followed by any suffix is matched by both tests |
| PresetPricing.FoundationMatched | lib/pricing.ts:78-104 | the Foundation item's label is matched by both tests |
| PresetPricing.ExtraMatched | lib/pricing.ts:81-104 | the extra-minutes item's label is matched by both tests |
| PresetPricing.TeaserMatched | lib/pricing.ts:83-104 | the teaser item's label is matched by both tests |
| PresetPricing.DiyMatched | lib/pricing.ts:84-104 | the DIY item's label is matched by both tests |
| PresetPricing.AltMatched | lib/pricing.ts:86-104 | the alternative-language item's label is matched by both tests |
| PresetPricing.VideoItemsMatched | lib/pricing.ts:76-104 | every video item is matched by both tests |
| PresetPricing.UnmatchedByInitials | lib/pricing.ts:101-104 | a label holding none of the video labels' first letters matches neither test |
| PresetPricing.MicrositeNeverMatched | lib/pricing.ts:91-104 | no microsite label starts with or contains a video label |
| PresetPricing.AllMatchedSubtotal | lib/pricing.ts:102-104 | when every item is matched, both video subtotals are the whole sum |
| PresetPricing.MatchedThenUnmatched | lib/pricing.ts:102-104 | matched items followed by at most one unmatched item give both video subtotals equal to the matched items' sum |
| PresetPricing.VideoSubtotalOfLineItems | lib/pricing.ts:100-104 | the rush base is exactly the video items, under either matching, so the microsite is never surcharged |
| PresetPricing.JsRush | lib/pricing.ts:106 | with rush, Math.round of half the video items' sum; without, 0 |
| PresetPricing.AnalysisRush | bmad_analysis_current_campaign.py:123 | with rush, Python's round of half the video items' sum; without, 0 |
| PresetPricing.DiscountItems | lib/pricing.ts:92-95 | one discount item exactly for the bundled microsite |
| PresetPricing.ComputePricing | lib/pricing.ts:29-124 | the selection after its preset; the subtotal is the items' sum and the list price; a discount item exactly for the bundled microsite; rush is half the video sum rounded, within one half of it, and 0 without rush; the subscription is the monthly rate times the months; due now is subtotal plus rush, and all-in adds the subscription |
| PresetPricing.AnalysisComputePricing | bmad_analysis_current_campaign.py:52-140 | the same items, subtotal and discount, with rush half the video sum rounded the Python way, and the same totals |
| PresetPricing.TotalsOrdered | lib/pricing.ts:98-113 | with non-negative months, 0 ≤ subtotal ≤ due now ≤ all-in |
| PresetPricing.AnalysisAgreesWithTypeScript | lib/pricing.ts:29-124 | the two engines agree on everything but rush, and their rush differs exactly when rush is on and the video sum is 1 modulo 4 |
| PresetPricing.RushRoundingExample | lib/pricing.ts:106 | Foundation, teaser and DIY with rush sum to 5497: rush is 2749 in TypeScript and 2748 in the Python engine |
| PresetPricing.BestPresetItems | lib/pricing.ts:66-95 | best always gives five items ending with the bundled microsite, no extra minutes, and the one 1000 bundle-savings discount |
| PreviewBlocks.GetBlockVariants | preview/src/lib/content-blocks.ts:479-499 | the fixed list mapped for the type: nothing for process, FAQ, logo grid and video showcase; the value propositions for solution and feature grid; the testimonials for case study; exactly the hero blocks with a video for hero video |
| PreviewBlocks.GetActiveBlocks | preview/src/lib/content-blocks.ts:435-455 | exactly the active blocks of the type's list, in their order |
| PreviewBlocks.GetBlockById | preview/src/lib/content-blocks.ts:457-469 | nothing exactly when no block of the seven lists has the id; otherwise a block of those lists |
| PreviewBlocks.HeroFoundFirst | preview/src/lib/content-blocks.ts:458-468 | a hero block whose id no earlier hero block has is found by its id, before any later list is searched |
| PreviewBlocks.Split | preview/src/lib/content-blocks.ts:458-466 | rebuilding the seven lists from an updated full list of the same length gives back that full list |
| PreviewBlocks.UpdateBlockStatus | preview/src/lib/content-blocks.ts:471-477 | the block the lookup finds takes the flag and today's date, every other block is unchanged, and an unknown id changes nothing |
| PreviewBlocks.UpdateThenLookup | preview/src/lib/content-blocks.ts:457-477 | after an update, looking up the id gives the found block with the new flag and date |
| PreviewBlocks.UpdatedLibraryLookup | preview/src/lib/content-blocks.ts:457-477 | a library rebuilt from the updated list finds the updated block by its id |
| PreviewBlocks.UpdatedSeqLookup | preview/src/lib/content-blocks.ts:468-477 | in the updated full list the first block with the id is the rewritten one |
| PreviewBlocks.UpdatedIsFound | preview/src/lib/content-blocks.ts:468-477 | when only the first block with the id is rewritten and ids are kept, the first block with the id afterwards is the rewritten one |
| PreviewBlocks.MergeResults | preview/src/lib/content-blocks.ts:505-509 | the keys of both maps plus "lastTested", which holds today; the new results win over the old, and untouched keys keep their values |
| PreviewBlocks.RecordTestResult | preview/src/lib/content-blocks.ts:502-511 | the found block's test results are merged with the new ones, every other block is unchanged, and an unknown id changes nothing |
| PreviewBlocks.MergeIdempotent | preview/src/lib/content-blocks.ts:505-509 | recording the same results twice gives what recording them once gives |
| PreviewBlocks.GetBestPerformingVariant | preview/src/lib/content-blocks.ts:513-518 | nothing exactly when no block of the type has a non-zero rate; otherwise such a block whose rate no other such block exceeds |
| PreviewBlocks.BestHeroIsPrimary | preview/src/lib/content-blocks.ts:84-518 | among the three hero blocks only the primary one carries a rate, so it performs best |
| ProposalDocs.Money | generate_sow_docx.py:85-91 | a dollar sign followed by at least one character |
| ProposalDocs.MoneyDigits | generate_sow_docx.py:85-91 | dropping the dollar sign and the thousands separators leaves the amount's decimal digits |
| ProposalDocs.ItemRows | generate_sow_docx.py:85 | one row per line item, in order, with its label and its money string |
| ProposalDocs.TotalRows | generate_sow_docx.py:86-92 | five total rows |
| ProposalDocs.PricingTableRows | generate_sow_docx.py:85-94 | the header ("Line Item", "Amount (USD)"), one row per line item in order, then the five totals |
| ProposalDocs.FixedValues | fill_proposal_from_json.py:93-105 | eleven values: the six text arguments and the five money totals |
| ProposalDocs.FixedEntries | fill_proposal_from_json.py:93-105 | the eleven fixed placeholders paired with their values, in order |
| ProposalDocs.SlotEntries | fill_proposal_from_json.py:107-115 | two entries for each slot from i to 10 |
| ProposalDocs.ProposalMapping | fill_proposal_from_json.py:93-115 | 31 entries: eleven fixed placeholders and two for each of ten slots |
| ProposalDocs.Lookup | fill_proposal_from_json.py:69-70 | nothing exactly when no entry has the key; otherwise the value of an entry with that key |
| ProposalDocs.LookupConcatRight | fill_proposal_from_json.py:93-115 | a key absent from the first part is looked up in the second |
| ProposalDocs.SlotKeyInjective | fill_proposal_from_json.py:111-115 | two slot placeholders are equal only for the same slot and part |
| ProposalDocs.DigitsThenUnderscore | fill_proposal_from_json.py:111-115 | a run of digits followed by a non-digit splits a text in one way only |
| ProposalDocs.SlotKeyNotFixed | fill_proposal_from_json.py:93-115 | no slot placeholder is one of the fixed placeholders |
| ProposalDocs.FixedKeysThirdChar | fill_proposal_from_json.py:94-104 | no fixed placeholder has the L of "[[LI" as its third character |
| ProposalDocs.SlotLookup | fill_proposal_from_json.py:108-115 | looking up slot i among the slots from start on gives the item's label and money string, or '' past the last item |
| ProposalDocs.SlotHoldsItem | fill_proposal_from_json.py:108-115 | slot i of the dictionary holds the label and money string of the i-th line item, or '' when there are fewer than i items |
| ProposalDocs.NoItemDropped | fill_proposal_from_json.py:6-108 | the engine gives at most six line items, so the ten slots never drop one |
| ProposalDocs.FillDocxPlaceholders | fill_proposal_from_json.py:61-72 | every archive entry is kept in order under its name; only the main document part is rewritten, by the mapping |
| ProposalDocs.ReplaceAllSelf | fill_proposal_from_json.py:70 | replacing a pattern by itself changes nothing |
| ProposalDocs.ApplyIdentityMapping | fill_proposal_from_json.py:69-70 | a mapping whose every key maps to itself leaves the text unchanged |
| ProposalDocs.DefaultArgsKeepPlaceholders | fill_proposal_from_json.py:79-99 | with the default arguments the six text placeholders map to themselves |
| ProposalDocs.FillWithIdentity | fill_proposal_from_json.py:61-72 | filling with an identity mapping returns the archive unchanged |
| ProposalPricing.PyApplyPreset | fill_proposal_from_json.py:17-24 | the good, better and best shortcuts overwrite the content keys and leave rush, subscription and the preset key alone; any other preset leaves the dictionary unchanged |
| ProposalPricing.PyLineItems | fill_proposal_from_json.py:26-41 | with the foundation key missing, the first item is the 2499 Foundation, as the key defaults to true |
| ProposalPricing.PyComputePricing | fill_proposal_from_json.py:6-59 | the updated dictionary; the subtotal is the items' sum; rush is Python's rounding of half the video items' sum when rush is truthy, and 0 otherwise; the subscription is the monthly rate times the months, both defaulted; due now and all-in add rush and the subscription |
| ProposalPricing.Resolve | fill_proposal_from_json.py:27-41 | the typed selection the lookups' defaults describe: the Foundation on unless the key says otherwise, and the microsite read from its key |
| ProposalPricing.MaxOrTwo | fill_proposal_from_json.py:20 | max(2, x) in Python and Math.max(2, x \|\| 2) in TypeScript agree on every integer |
| ProposalPricing.PresetCommutes | fill_proposal_from_json.py:17-24 | updating the dictionary by a preset and then resolving its defaults equals resolving first and then applying the preset |
| ProposalPricing.PyLineItemsResolve | fill_proposal_from_json.py:26-41 | the Python items are the TypeScript engine's items for the resolved selection |
| ProposalPricing.PythonAgreesWithTypeScript | fill_proposal_from_json.py:6-59 | the Python scripts and the TypeScript engine give the same items, subtotal and subscription total; their rush differs exactly when rush is on and the video sum is 1 modulo 4 |
| ProposalPricing.PythonAgreesWithAnalysis | fill_proposal_from_json.py:6-59 | the Python scripts and the analysis engine differ in nothing but the discount list |
| ProposalPricing.OddSubtotalExample | fill_proposal_from_json.py:46 | an odd video sum of 4097 is halved to 2048 by Python's rounding and to 2049 by Math.round |
| ProposalPricing.RushDivergesExample | fill_proposal_from_json.py:26-46 | without a preset, Foundation by default, teaser and DIY with rush give a surcharge of 2748 here and 2749 in the TypeScript engine |
| ProposalPricing.IncludeMicrosite | generate_sow_docx.py:195 | the SOW includes the microsite exactly when the dictionary's microsite is bundled or standalone |
| ProposalPricing.PresetMicrositeScope | generate_sow_docx.py:190-197 | after better or best the SOW always includes the microsite, and after good it never does |
| ProposalWorkflow.PackageName | campaign/automated-proposal-workflow.py:64-88 | the good, better and best names for those presets; otherwise Premium exactly with a microsite and extras, Video + Microsite exactly with a microsite and no extras, and Video exactly without a microsite |
| ProposalWorkflow.CustomNameIgnoresVideo | campaign/automated-proposal-workflow.py:74-88 | a custom package's name depends only on the microsite and the extras, never on minutes or rush |
| ProposalWorkflow.CompanySizeAsWritten | campaign/automated-proposal-workflow.py:93-109 | a given size is used; with the size and microsite keys both missing, 150, 300 and 500 for the presets and 400 otherwise, since a missing key is not 'none' |
| ProposalWorkflow.CompanySize | campaign/automated-proposal-workflow.py:93-109 | a given size is used; otherwise 150, 300 and 500 for the presets, and for a custom package 400 with a microsite or a paid plan, else 200, reading missing keys as 'none' |
| ProposalWorkflow.CompanySizeDiffers | campaign/automated-proposal-workflow.py:106-109 | a custom payload without size, microsite and plan keys is sized 400 as written and 200 corrected, although it prices with no microsite and no plan |
| ProposalWorkflow.CompanySizeFollowsPricing | campaign/automated-proposal-workflow.py:93-186 | the corrected sizing depends only on the size, the preset and what the pricing resolves for microsite and plan |
| ProposalWorkflow.DetailedPricing | campaign/automated-proposal-workflow.py:157-186 | the breakdown prices the payload's selection with each missing key at its default, after the preset; no surcharge without `rush`; the subscription is the plan's monthly rate times the months, both defaulting to nothing |
| ProposalWorkflow.CurrentAnnualCost | campaign/automated-proposal-workflow.py:111-123 | HR time is size × 0.5 hours at 75000 / 2080 an hour, enrollment 120 and satisfaction 50 per employee, and compliance risk a flat 5000 |
| ProposalWorkflow.ProjectedSavings | campaign/automated-proposal-workflow.py:132-137 | 70%, 60%, 80% and 50% of the four cost components |
| ProposalWorkflow.FirstYearRoi | campaign/automated-proposal-workflow.py:142 | (savings − investment) / investment × 100 when there is an investment, and 0 otherwise |
| ProposalWorkflow.PaybackMonths | campaign/automated-proposal-workflow.py:143 | the months of savings needed to recover the investment when there are savings, and 0 otherwise |
| ProposalWorkflow.CalculateRoiProjection | campaign/automated-proposal-workflow.py:90-155 | with the corrected sizing of CompanySize (not the as-written one), the sizing, the engine's amount due now as the investment, the cost and savings components with their totals, the ROI, the payback and three years of savings less the investment |
| ProposalWorkflow.SavingsPerEmployee | campaign/automated-proposal-workflow.py:111-139 | the annual savings are size × (0.5 × 75000 / 2080 × 0.7 + 72 + 25) + 4000 |
| ProposalWorkflow.SavingsAtLeastCompliance | campaign/automated-proposal-workflow.py:121-135 | for a non-negative size the savings are at least the 4000 of reduced compliance risk |
| ProposalWorkflow.PaybackIffRoi | campaign/automated-proposal-workflow.py:142-143 | with savings and an investment, payback comes within twelve months exactly when the ROI is positive |
| ProposalWorkflow.PaybackWithinYearIffPositiveRoi | campaign/automated-proposal-workflow.py:90-155 | for a projection with an investment, payback within a year exactly when the first-year ROI is positive |
| ProposalWorkflow.GenerateProposal | campaign/automated-proposal-workflow.py:34-62 | the client name defaulting to "Valued Client", the email to '', the project name to the client's name with " Benefits Video Project"; dated today and valid 30 days; the package name and the detailed pricing |
| ProposalWorkflow.SubscriptionArgument | campaign/automated-proposal-workflow.py:218-224 | present exactly when the subscription costs something, with the plan and the total divided by at least one month |
| ProposalWorkflow.SubscriptionMonthlyIsPlanRate | campaign/automated-proposal-workflow.py:218-224 | for a generated proposal with a subscription, the monthly amount shown is the plan's monthly rate |
| ProposalWorkflow.DivideByMonths | campaign/automated-proposal-workflow.py:223 | a positive total of a non-negative rate over the months, divided by at least one month, gives the rate back |
| QuoteBuilder.CalculateProgress | components/PricingCalculator.tsx:32-40 | 25 for each of the four checks that holds, so one of 0, 25, 50, 75 or 100; 100 exactly with a package, the foundation, an add-on and something due now, and 0 exactly with none of them |
| QuoteBuilder.SetFoundationMinutes | components/PricingCalculator.tsx:118-125 | never below 2, a value of 2 or more is taken as given, and no other field changes |
| QuoteBuilder.SetExtraMinutes | components/PricingCalculator.tsx:129-136 | never negative, a non-negative value is taken as given, and no other field changes |
| QuoteBuilder.SetAltLanguageMinutes | components/PricingCalculator.tsx:167 | never negative, a non-negative value is taken as given, and no other field changes |
| QuoteBuilder.SetSubscriptionMonths | components/PricingCalculator.tsx:196 | never negative, a non-negative value is taken as given, and no other field changes |
| QuoteBuilder.HandlePreset | components/PricingCalculator.tsx:55-58 | only the preset changes |
| QuoteBuilder.InputsStayInRange | components/PricingCalculator.tsx:8-196 | the starting selection is in range, and every number input and preset button keeps a selection in range |
| QuoteBuilder.QuoteNonNegative | components/PricingCalculator.tsx:30 | with the inputs in range, subtotal, rush and subscription are never negative and the all-in total covers the amount due now |
| QuoteBuilder.DefaultProgressIsHalf | components/PricingCalculator.tsx:8-40 | the starting selection is half configured: a foundation and a positive price, but no package and no add-on |
| QuoteBuilder.GoodPresetQuote | components/PricingCalculator.tsx:30-58 | after the good button the quote's subtotal is the foundation's 2499 alone, whatever the state's minutes and add-ons say |
| QuoteBuilder.ProgressReadsStateNotQuote | components/PricingCalculator.tsx:30-40 | with the good package and the foundation box cleared, the quote still holds the foundation while the meter stays below 100 |
| RangeSlider.GetValue | apps/mybenefitsvideos/src/components/ui/range-slider.tsx:31-40 | without a track the value is min; otherwise, with min not above max, it lies within [min, max] and is min, max or a whole number of steps |
| RangeSlider.GetValueMonotone | apps/mybenefitsvideos/src/components/ui/range-slider.tsx:31-40 | further right on the track never gives a smaller value |
| RangeSlider.LeftEdgeGivesMin | apps/mybenefitsvideos/src/components/ui/range-slider.tsx:35-39 | at or left of the track's left edge the value is min, when min is a whole number of steps |
| RangeSlider.RightEdgeGivesMax | apps/mybenefitsvideos/src/components/ui/range-slider.tsx:35-39 | at or right of the track's right edge the value is max, when max is a whole number of steps |
| RangeSlider.MouseDown | apps/mybenefitsvideos/src/components/ui/range-slider.tsx:42-46 | a disabled slider keeps its drag state; otherwise the pressed thumb is dragged |
| RangeSlider.MouseMove | apps/mybenefitsvideos/src/components/ui/range-slider.tsx:48-59 | hands on a pair exactly while a thumb is dragged on an enabled slider; the dragged end stays a step away from the other, which is kept |
| RangeSlider.MouseMoveKeepsOrder | apps/mybenefitsvideos/src/components/ui/range-slider.tsx:48-59 | a drag keeps an ordered pair ordered |
| RangeSlider.MinThumbKey | apps/mybenefitsvideos/src/components/ui/range-slider.tsx:113-127 | nothing for a disabled slider or another key; the high end is kept and the low end changes; down stays above min and right stays a step below the high end |
| RangeSlider.MaxThumbKey | apps/mybenefitsvideos/src/components/ui/range-slider.tsx:142-156 | nothing for a disabled slider or another key; the low end is kept and the high end changes; down stays a step above the low end and right stays below max |
| RangeSlider.KeysKeepOrder | apps/mybenefitsvideos/src/components/ui/range-slider.tsx:113-156 | either thumb's keys keep an ordered pair ordered |
| RangeSlider.KeysMoveByOneStep | apps/mybenefitsvideos/src/components/ui/range-slider.tsx:113-156 | with room, each arrow moves its thumb by exactly one step in the direction it points |
| RangeSlider.CrowdedRightMovesLeft | apps/mybenefitsvideos/src/components/ui/range-slider.tsx:120-122 | with thumbs closer than a step, ArrowRight on the low thumb moves it left, to a step below the high end |
| RangeSlider.DisabledIsInert | apps/mybenefitsvideos/src/components/ui/range-slider.tsx:42-156 | a disabled slider starts no drag and hands on nothing from a drag or a key |
| ServiceGallery.FilteredItems | apps/mybenefitsvideos/src/components/sections/service-gallery.tsx:61-65 | the items shown are items of the list, in their order, each passing both filters, and every item passing both is shown |
| ServiceGallery.AllFiltersShowEverything | apps/mybenefitsvideos/src/components/sections/service-gallery.tsx:56-65 | with both filters on "all", as the section opens, the whole list shows in its order |
| ServiceGallery.FiltersCompose | apps/mybenefitsvideos/src/components/sections/service-gallery.tsx:61-65 | the two filters are independent: both at once equal one after the other, in either order |
| ServiceGallery.NarrowingShowsFewer | apps/mybenefitsvideos/src/components/sections/service-gallery.tsx:61-65 | moving either filter off "all" never shows more items |
| ServiceGallery.ViewMoreAtOpening | apps/mybenefitsvideos/src/components/sections/service-gallery.tsx:372-381 | as the section opens, the full-portfolio button shows exactly when there are more than six items |
| ServiceGallery.CardTags | apps/mybenefitsvideos/src/components/sections/service-gallery.tsx:277-347 | the grid card shows the first three tags and the list row the first four, or all when there are fewer |
| ServiceGallery.ResultsShown | apps/mybenefitsvideos/src/components/sections/service-gallery.tsx:260-332 | the grid card shows at most two results and the list row shows all of them |
| ServiceTestimonials.ForService | preview/src/components/sections/service-testimonials.tsx:64-66 | the testimonials shown are the page's service or "all", drawn from the list in order, and every such testimonial is shown |
| ServiceTestimonials.Featured | preview/src/components/sections/service-testimonials.tsx:69 | every featured testimonial comes from the list and is marked featured |
| ServiceTestimonials.Regular | preview/src/components/sections/service-testimonials.tsx:70 | every regular testimonial comes from the list and is not featured |
| ServiceTestimonials.FeaturedRegularPartition | preview/src/components/sections/service-testimonials.tsx:69-70 | featured and regular together hold each testimonial exactly once |
| ServiceTestimonials.RegularGrid | preview/src/components/sections/service-testimonials.tsx:276 | the grid shows the first six regular testimonials, or all of them when there are fewer |
| ServiceTestimonials.NextIndex | preview/src/components/sections/service-testimonials.tsx:76-83 | stays within the list, one on, and wraps from the last to the first |
| ServiceTestimonials.PrevIndex | preview/src/components/sections/service-testimonials.tsx:88 | stays within the list, one back, and wraps from the first to the last |
| ServiceTestimonials.NextPrevInverse | preview/src/components/sections/service-testimonials.tsx:81-90 | back undoes forward and forward undoes back |
| ServiceTestimonials.NextTestimonial | preview/src/components/sections/service-testimonials.tsx:82-85 | one on, and autoplay stops |
| ServiceTestimonials.PrevTestimonial | preview/src/components/sections/service-testimonials.tsx:87-90 | one back, and autoplay stops |
| ServiceTestimonials.GoTo | preview/src/components/sections/service-testimonials.tsx:254-257 | an indicator dot goes straight to its testimonial and stops autoplay |
| ServiceTestimonials.Tick | preview/src/components/sections/service-testimonials.tsx:72-80 | while autoplay runs the timer moves one on; once stopped it changes nothing |
| ServiceTestimonials.ManualNavigationStopsAutoplay | preview/src/components/sections/service-testimonials.tsx:72-90 | after any arrow or dot the timer never moves the carousel again |
| ServiceTestimonials.Current | preview/src/components/sections/service-testimonials.tsx:92 | a testimonial is shown exactly when the index lies within the list, and it is the one at the index |
| ServiceTestimonials.ControlsKeepCurrent | preview/src/components/sections/service-testimonials.tsx:61-92 | the opening state, the arrows, the timer and the dots all keep an index that names a testimonial |
| ServiceTestimonials.SingleTestimonialStays | preview/src/components/sections/service-testimonials.tsx:76-88 | with a single testimonial the arrows and the timer stay on it |
| ServiceTestimonials.AverageRating | preview/src/components/sections/service-testimonials.tsx:333 | the average times the number of testimonials is the ratings' sum |
| ServiceTestimonials.AverageWithinRatings | preview/src/components/sections/service-testimonials.tsx:333 | the average lies between the lowest and highest rating any testimonial may carry |
| ServiceTestimonials.Stars | preview/src/components/sections/service-testimonials.tsx:125-131 | five stars, star i filled exactly when i is below the rating |
| ServicePriceCalculator.ExtraRate | preview/src/components/sections/service-pricing.tsx:72 | the extra-minute price when set, and nothing when absent |
| ServicePriceCalculator.ExtraMinutes | preview/src/components/sections/service-pricing.tsx:71 | never negative: the minutes beyond two, or none for two minutes or fewer |
| ServicePriceCalculator.Subtotal | preview/src/components/sections/service-pricing.tsx:70-73 | with two minutes or fewer the subtotal is the base price |
| ServicePriceCalculator.CalculatePrice | preview/src/components/sections/service-pricing.tsx:67-80 | nothing without a calculator; otherwise the subtotal, multiplied by the rush multiplier exactly when rush is on and a non-zero multiplier is set |
| ServicePriceCalculator.ExtraLine | preview/src/components/sections/service-pricing.tsx:183-188 | shown exactly from the third minute on, and base plus the line is the subtotal |
| ServicePriceCalculator.RushLine | preview/src/components/sections/service-pricing.tsx:189-193 | shown exactly when rush is on, and subtotal plus the line is the price |
| ServicePriceCalculator.BreakdownAddsUp | preview/src/components/sections/service-pricing.tsx:174-193 | base, the extra-minutes line and the rush line, when shown, add up to the price |
| ServicePriceCalculator.HalfSurchargeAtOnePointFive | preview/src/components/sections/service-pricing.tsx:189-193 | with a multiplier of 1.5 the rush line is half the subtotal, as its +50% label says |
| ServicePriceCalculator.RushWithoutMultiplierIsFree | preview/src/components/sections/service-pricing.tsx:75-193 | without a multiplier the rush switch still shows its +50% line, at nothing, and leaves the price unchanged |
| ServicePriceCalculator.EnabledFlagIgnored | preview/src/components/sections/service-pricing.tsx:48-80 | the price never reads the enabled flag |
| ServicePriceCalculator.PriceMonotoneInMinutes | preview/src/components/sections/service-pricing.tsx:67-80 | with non-negative prices and multiplier, more minutes never cost less |
| ServicePriceCalculator.TwoMinutesAtBase | preview/src/components/sections/service-pricing.tsx:63-80 | without rush, one or two minutes cost the base price, and the calculator opens there |
| ServicePricing.KindIndex | apps/mybenefitsvideos/src/lib/pricing.ts:123-248 | the position of each service in the engines' fixed order |
| ServicePricing.IndexOfAllKinds | apps/mybenefitsvideos/src/lib/pricing.ts:123-248 | each service's position names it back |
| ServicePricing.AllKindsAscending | apps/mybenefitsvideos/src/lib/pricing.ts:123-248 | the engines' list of services is in order and repeats none |
| ServicePricing.Kinds | apps/mybenefitsvideos/src/lib/pricing.ts:76-81 | one kind per line item, in the lines' order |
| ServicePricing.PriceOfCons | apps/mybenefitsvideos/src/lib/pricing.ts:250-256 | the price of a list of services is the first one's part plus the rest's |
| ServicePricing.PriceOfAllKinds | apps/mybenefitsvideos/src/lib/pricing.ts:123-256 | the sum over all eight services written out term by term |
| ServicePricing.ItemsOf | apps/mybenefitsvideos/src/lib/pricing.ts:123-251 | every line is the engine's line for a listed service, and the lines add up to the listed services' price, both in full and over the surcharged categories |
| ServicePricing.ItemsOfHas | apps/mybenefitsvideos/src/lib/pricing.ts:123-248 | a service has a line exactly when it is listed and selected |
| ServicePricing.TailAscending | apps/mybenefitsvideos/src/lib/pricing.ts:123-248 | the tail of an ordered list of services is ordered |
| ServicePricing.ConsAscending | apps/mybenefitsvideos/src/lib/pricing.ts:123-248 | a service put before services listed after it keeps the list ordered |
| ServicePricing.KindsCons | apps/mybenefitsvideos/src/lib/pricing.ts:76-81 | the kinds of a line followed by others are its kind followed by theirs |
| ServicePricing.ItemsOfOrdered | apps/mybenefitsvideos/src/lib/pricing.ts:123-248 | lines for services listed in order come in that order, so none repeats |
| ServicePricing.CurrentTimeline | apps/mybenefitsvideos/src/lib/pricing.ts:266-274 | four to six weeks for full animation, three to four for full custom, otherwise seven to ten business days with rush and fifteen business days without |
| ServicePricing.LegacyWeeks | apps/mybenefitsvideos/src/lib/pricing-old.ts:340-367 | the week count is never negative |
| ServicePricing.RushWeeks | apps/mybenefitsvideos/src/lib/pricing-old.ts:369-371 | at least two weeks and at least 70% of the week count |
| ServicePricing.RushSurcharge | apps/mybenefitsvideos/src/lib/pricing.ts:257 | nothing without rush; with rush, half the surcharged amount rounded half up |
| ServicePricing.ComputeServicePricing | apps/mybenefitsvideos/src/lib/pricing.ts:123-288 | the lines are every selected service in the fixed order, no discounts, subtotal is their sum, rush is half the surcharged part, the current engine charges no subscription while the legacy one charges the plan's monthly fee, due now is subtotal plus rush and all-in adds the subscription |
| ServicePricing.LineIffSelected | apps/mybenefitsvideos/src/lib/pricing.ts:123-248 | a line for a service appears exactly when the selection asks for it |
| ServicePricing.LinesOrdered | apps/mybenefitsvideos/src/lib/pricing.ts:123-248 | the lines come in the services' fixed order, so no service appears twice |
| ServicePricing.VideoLine | apps/mybenefitsvideos/src/lib/pricing.ts:128-170 | the video line exists exactly when there are minutes; full animation is a flat 5000, the rest the rate times the minutes |
| ServicePricing.CurrentCategories | apps/mybenefitsvideos/src/lib/pricing.ts:150-248 | the current engine files only the two site lines as website, DIY, PPT, alternative language and updates as add-ons, and the video and teaser as video |
| ServicePricing.WebsiteAddsTwoItems | apps/mybenefitsvideos/src/lib/pricing.ts:226-248 | a site adds both its initial and its annual line, and nothing else adds them |
| ServicePricing.LegacyCategories | apps/mybenefitsvideos/src/lib/pricing-old.ts:176-270 | the legacy engine files DIY and PPT as licences, alternative language and updates as add-ons, the site's initial fee as microsite and its annual fee as subscription |
| ServicePricing.SubtotalClosedForm | apps/mybenefitsvideos/src/lib/pricing.ts:123-251 | the subtotal is the price of every selected service, written out |
| ServicePricing.CurrentRushExcludesWebsite | apps/mybenefitsvideos/src/lib/pricing.ts:253-257 | the current engine surcharges everything but the two website lines |
| ServicePricing.LegacyRushBase | apps/mybenefitsvideos/src/lib/pricing-old.ts:272-280 | the legacy engine surcharges the video, teaser, DIY and PPT lines only |
| ServicePricing.PriceOfNonNegative | apps/mybenefitsvideos/src/lib/pricing.ts:123-251 | with non-negative minutes no list of services costs less than nothing |
| ServicePricing.TotalsOrdered | apps/mybenefitsvideos/src/lib/pricing.ts:250-264 | with non-negative counts, all-in is at least due now, which is at least the subtotal, which is at least zero |
| ServicePricing.CurrentIgnoresSubscription | apps/mybenefitsvideos/src/lib/pricing.ts:259-264 | the current engine charges no subscription: all-in is what is due now |
| ServicePricing.LegacyWeeksIsLongestPlusExtras | apps/mybenefitsvideos/src/lib/pricing-old.ts:340-367 | the legacy week count is the longest selected component plus a week each for alternative language and PPT translation |
| ServicePricing.RushShortens | apps/mybenefitsvideos/src/lib/pricing-old.ts:369-371 | rush never lengthens a schedule of two weeks or more and never promises fewer than two |
| ServicePricing.LegacyTimeline | apps/mybenefitsvideos/src/lib/pricing-old.ts:369-374 | the label ends with the rush note exactly when rush delivery is chosen |
| ServicePricing.LegacyTimelineLabel | apps/mybenefitsvideos/src/lib/pricing-old.ts:369-374 | "N weeks (Rush delivery)" with rush, and "N-(N+1) weeks" otherwise |
| ServicePricing.CostPerEmployee | apps/mybenefitsvideos/src/lib/pricing.ts:294 | present exactly for a non-zero head count, and then times the head count it gives the total |
| ServicePricing.RoiFor | apps/mybenefitsvideos/src/lib/pricing.ts:290-314 | the current engine rounds the half hour per employee and prices it at 45 an hour, the legacy one keeps it and prices it at 35; the payback exists exactly with savings, rounded and at least one month in the current engine and rounded up in the legacy one |
| ServicePricing.CalculateServiceRoi | apps/mybenefitsvideos/src/lib/pricing.ts:290-314 | the ROI of the quote's amount due now: the cost per employee divides that amount, and with at least one employee a payback exists, of at least a month in the current engine |
| ServicePricing.CurrentBreakEvenAtLeastOne | apps/mybenefitsvideos/src/lib/pricing.ts:304-311 | with at least one employee the current engine reports a payback of at least one month |
| ServicePricing.CeilCovers | apps/mybenefitsvideos/src/lib/pricing-old.ts:321-329 | rounding the months up gives months whose savings cover the total while one fewer do not |
| ServicePricing.LegacyBreakEvenCovers | apps/mybenefitsvideos/src/lib/pricing-old.ts:307-331 | the legacy payback is the least number of months whose savings cover the total |
| SiteBlocks.GetBlockById | src/lib/content-blocks.ts:314-326 | null exactly when no block has the id; otherwise a registered block with that id |
| SiteBlocks.GetBlocksByType | src/lib/content-blocks.ts:328-340 | exactly the registered blocks of the type, in registry order |
| SiteBlocks.Family | src/lib/content-blocks.ts:355-357 | a prefix of the id holding no '-' |
| SiteBlocks.GetBlockVariants | src/lib/content-blocks.ts:342-359 | none for an unknown id; otherwise exactly the blocks of the base's type whose id starts with the base's family, in registry order |
| SiteBlocks.BaseIsOwnVariant | src/lib/content-blocks.ts:342-359 | a registered base block is among its own variants |
| SiteBlocks.VariantsShareType | src/lib/content-blocks.ts:342-359 | every variant is among the blocks of the base's type |
| SiteBlocks.HeroFamily | src/lib/content-blocks.ts:18 | the primary hero's family is "hero" |
| SiteBlocks.HeroTestIsVariantOfPrimary | src/lib/content-blocks.ts:18-60 | the test hero is a variant of the primary hero, since both ids begin "hero" |
| SiteNavigation.GetNavigationConfig | src/lib/navigation-config.ts:319-322 | a landing-page configuration wins over a main one with the same id, and null exactly when neither registry has the id |
| SiteNavigation.GetVisibleItems | src/lib/navigation-config.ts:324-331 | exactly the items not hidden and not restricted to the other device, in order |
| SiteNavigation.VisibleOnBothDevices | src/lib/navigation-config.ts:324-331 | an item shows on both devices exactly when it is neither hidden nor device-restricted |
| SiteNavigation.RestrictedItemsSplit | src/lib/navigation-config.ts:324-331 | a mobile-only item never shows on desktop and a desktop-only one never on mobile |
| SiteNavigation.Locate | src/lib/navigation-config.ts:344-356 | a find is an item linking to the path reached through a chain of dropdowns, and nothing is found exactly when no item at any depth links there |
| SiteNavigation.TrailInSuffix | src/lib/navigation-config.ts:344-356 | a chain found among later items is a chain among the whole list |
| SiteNavigation.BuildBreadcrumbs | src/lib/navigation-config.ts:333-363 | Home first; only Home when no item links to the path; otherwise ending with the matching item, reached through the ancestors between |
| SiteNavigation.BreadcrumbsShallow | src/lib/navigation-config.ts:333-363 | a top-level match gives Home and the item; a match one dropdown down gives Home, the parent and the child |
| SiteNavigation.FindInItemsAsWritten | src/lib/navigation-config.ts:344-356 | a failed search pushes nothing |
| SiteNavigation.BuildBreadcrumbsAsWritten | src/lib/navigation-config.ts:333-363 | Home first, whatever the path |
| SiteNavigation.FindInItemsReversesTrail | src/lib/navigation-config.ts:344-356 | the search as written finds the same item, with the ancestors pushed innermost first |
| SiteNavigation.BreadcrumbsAsWrittenReversed | src/lib/navigation-config.ts:333-363 | the breadcrumbs as written are Home, the ancestors innermost first, then the item |
| SiteNavigation.BreadcrumbsAgreeWhenShallow | src/lib/navigation-config.ts:333-363 | up to one dropdown level deep, the code as written gives the intended breadcrumbs |
| SiteNavigation.DeepBreadcrumbsDiffer | src/lib/navigation-config.ts:333-363 | two dropdown levels down, the code as written lists the middle ancestor before the top one |
| SiteNavigation.Optimized | src/lib/navigation-config.ts:410-420 | only the badge changes, and it becomes Popular exactly when the item's first metric converts above 10% and it has no badge |
| SiteNavigation.OptimizeItems | src/lib/navigation-config.ts:410-421 | one optimized item per item, in order |
| SiteNavigation.OptimizeNavigationForConversions | src/lib/navigation-config.ts:405-428 | only the top-level items' badges change, each to Popular exactly when the item converts above 10% and has no badge |
| SiteNavigation.OptimizeIdempotent | src/lib/navigation-config.ts:405-428 | optimizing twice with the same data changes nothing more |
| SiteNavigation.CreateNavigationAbTest | src/lib/navigation-config.ts:490-511 | a draft with zero counts, the given names, the split defaulting to 50, and an id "nav-test-" followed by the clock reading |
| SiteNavigation.AbTestIdsDistinct | src/lib/navigation-config.ts:490-497 | tests created at different clock readings get different ids |
| SiteNavigation.NavigationVariant | src/lib/navigation-config.ts:513-526 | the standard navigation off the home route; on it, standard exactly when the hash's magnitude modulo 100 is below 50, and the conversion-focused one otherwise |
| SiteNavigation.EmptyVisitorGetsStandard | src/lib/navigation-config.ts:513-526 | an empty visitor id hashes to 0 and sees the standard navigation |
| SiteNavigation.SingleCharVisitor | src/lib/navigation-config.ts:513-526 | a one-character visitor id below U+10000 is bucketed by its character code, and one above by 31 times its high surrogate plus its low one, modulo 100 |
| SiteTemplates.GetPageTemplate | src/lib/page-templates.ts:198-206 | null exactly when no template has the id; otherwise a registered template with that id |
| SiteTemplates.GetTemplatesByRoute | src/lib/page-templates.ts:208-216 | exactly the registered templates on the route, in registry order |
| SiteTemplates.HomeRouteHasTwoTemplates | src/lib/page-templates.ts:31-79 | with the two homepage templates first and no other on '/', the home route has exactly those two |
| SiteTemplates.AssemblePageSections | src/lib/page-templates.ts:218-222 | exactly the enabled sections, each as often as listed, ascending by order |
| SiteTemplates.AssembleIsStable | src/lib/page-templates.ts:218-222 | enabled sections with equal orders keep their listed order |
| SiteTemplates.Merge | src/lib/page-templates.ts:233 | each field set in the updates wins, and every other field is the section's |
| SiteTemplates.UpdatePageSection | src/lib/page-templates.ts:224-239 | null exactly for an unknown template; otherwise only the indexed section changes, merged with the updates |
| SiteTemplates.MergeLaws | src/lib/page-templates.ts:233 | an update setting nothing changes nothing, and repeating an update changes nothing more |
| SiteTemplates.Renumbered | src/lib/page-templates.ts:245-248 | section i takes order newOrder[i] and keeps every other field |
| SiteTemplates.ReorderPageSections | src/lib/page-templates.ts:241-254 | null exactly for an unknown template; otherwise the same template whose sections are the renumbered ones, ascending by order; sections given the same order keep their position relative to each other, as the stable sort leaves them |
| SiteTemplates.ReorderWithCurrentOrders | src/lib/page-templates.ts:241-254 | reordering with the orders the sections already have, when ascending, returns the template as it is |
| SiteTemplates.GetActiveTemplate | src/lib/page-templates.ts:297-308 | a template id on the route or "default"; "default" when there is none; with one, its id, or "default" when that id is empty; with two or more the hash picks the first when its magnitude modulo 100 is below 50, else the second |
| SiteTemplates.HomeTemplateFollowsNavigation | src/lib/page-templates.ts:297-308 | on '/', a visitor who sees the standard navigation gets the first home template |
| SubscriptionPlans.MonthsOr | preview/src/components/calculator/SubscriptionPlans.tsx:157 | a set month count is kept, and a missing one gives the default |
| SubscriptionPlans.HandlePlanSelect | preview/src/components/calculator/SubscriptionPlans.tsx:154-159 | the plan is the chosen one; "none" clears the months; any other plan keeps a set month count and otherwise starts at twelve |
| SubscriptionPlans.HandleMonthsChange | preview/src/components/calculator/SubscriptionPlans.tsx:161-163 | the slider sets the months and leaves the plan alone |
| SubscriptionPlans.SubscriptionTotal | preview/src/components/calculator/SubscriptionPlans.tsx:165-168 | nothing for an unknown plan or no months; at least 999 a month for a paid plan |
| SubscriptionPlans.TotalMatchesEngine | preview/src/components/calculator/SubscriptionPlans.tsx:165-168 | the step's total is the subscription total the preset pricing engine computes for the same plan and months |
| SubscriptionPlans.SliderMonths | preview/src/components/calculator/SubscriptionPlans.tsx:353-356 | the slider shows the months, or twelve when none are set |
| SubscriptionPlans.FreshPlanIsAYear | preview/src/components/calculator/SubscriptionPlans.tsx:154-371 | a paid plan chosen from a fresh selection shows the slider at a year, the annual note, and a year's fees |
| SubscriptionPlans.NoneCostsNothing | preview/src/components/calculator/SubscriptionPlans.tsx:154-340 | choosing "none" hides the months panel and leaves nothing to pay |
| SubscriptionPlans.SwitchingPlansKeepsMonths | preview/src/components/calculator/SubscriptionPlans.tsx:154-159 | switching between paid plans keeps the months, and passing through "none" starts the next plan at a year |
| SubscriptionPlans.PlanSelectIdempotent | preview/src/components/calculator/SubscriptionPlans.tsx:154-159 | choosing the same card twice is the same as choosing it once |
| SubscriptionPlans.TotalAlongSlider | preview/src/components/calculator/SubscriptionPlans.tsx:165-359 | along the slider's 1 to 36 months the total grows with the months and stays within three years' fees |
| VideoCards.MakeOption | preview/src/components/calculator/VideoServiceSelector.tsx:28-90 | each card carries its key, its service and the price list's rate, and only full animation is a flat fee |
| VideoCards.ExactlyOneFlat | preview/src/components/calculator/VideoServiceSelector.tsx:28-90 | four cards, of which only the fourth, full animation at 5000, is a flat fee |
| VideoCards.ServicesDistinct | preview/src/components/calculator/VideoServiceSelector.tsx:28-90 | the cards carry four different services |
| VideoCards.SelectedOption | preview/src/components/calculator/VideoServiceSelector.tsx:102 | a card with the chosen key, or none exactly when no card has that key |
| VideoCards.CardPrice | preview/src/components/calculator/VideoServiceSelector.tsx:134-136 | a flat card shows its fee; a per-minute card at one minute or more shows at least its rate |
| VideoCards.CalculateVideoPrice | preview/src/components/calculator/VideoServiceSelector.tsx:108-116 | nothing without a chosen card, and otherwise what the chosen card shows |
| VideoCards.PriceMatchesEngine | preview/src/components/calculator/VideoServiceSelector.tsx:108-116 | the step's price is what the service pricing engine charges for the video |
| VideoCards.UnknownKeyCostsNothing | preview/src/components/calculator/VideoServiceSelector.tsx:108-110 | an unknown key prices the video at nothing |
| VideoCards.UpdateVideoMinutes | preview/src/components/calculator/VideoServiceSelector.tsx:104-106 | never below one minute, a value of one or more taken as given, and the service kept |
| VideoCards.MinusPressed | preview/src/components/calculator/VideoServiceSelector.tsx:225-226 | one minute fewer above one minute, and otherwise disabled |
| VideoCards.PlusPressed | preview/src/components/calculator/VideoServiceSelector.tsx:237-238 | one minute more below ten minutes, and otherwise disabled |
| VideoCards.MinutesStayInRange | preview/src/components/calculator/VideoServiceSelector.tsx:225-251 | the buttons and the 1 to 10 slider keep the minutes within 1 to 10 |
| VideoCards.PriceMonotoneInMinutes | preview/src/components/calculator/VideoServiceSelector.tsx:108-116 | more minutes never lower the price |
| Videos.ExtractEmbedId | apps/mybenefitsvideos/src/lib/videos.ts:128-143 | a non-empty capture exactly when one of the three patterns matches, the first that matches deciding, and null otherwise |
| Videos.ReviewEmbedId | apps/mybenefitsvideos/src/lib/videos.ts:128-143 | a review link gives its id back, whatever its hash |
| Videos.ProEmbedId | apps/mybenefitsvideos/src/lib/videos.ts:128-143 | a Vimeo Pro link gives its slug back |
| Videos.GetEmbedUrl | apps/mybenefitsvideos/src/lib/videos.ts:117-126 | the player URL for the embed id, its query starting with the three display switches, longer by the autoplay switch when asked |
| Videos.EmbedUrlAutoplay | apps/mybenefitsvideos/src/lib/videos.ts:117-126 | "autoplay" appears in the query exactly when autoplay is asked for |
| Videos.EmbedUrlGivesId | apps/mybenefitsvideos/src/lib/videos.ts:117-126 | the vimeo extraction reads a numeric embed id back from the player URL built for it |
| Videos.RowsWellLinked | apps/mybenefitsvideos/src/lib/videos.ts:14-96 | every example's embed id is the one its link carries, in a shape the extraction reads |
| Videos.CatalogueEmbedIds | apps/mybenefitsvideos/src/lib/videos.ts:14-143 | every example's link gives back its embed id, the Vimeo Pro slug included |
| Videos.MicrositeDemoNotExtracted | apps/mybenefitsvideos/src/lib/videos.ts:97-107 | the microsite demo's link is not a Vimeo link, so extraction gives null |
| Videos.NoVimeoNoId | apps/mybenefitsvideos/src/lib/videos.ts:128-143 | a link without a 'v' matches none of the patterns |
| Videos.GetVideosByServiceType | apps/mybenefitsvideos/src/lib/videos.ts:109-111 | exactly the examples of the type, in list order |
| Videos.GetVideoById | apps/mybenefitsvideos/src/lib/videos.ts:113-115 | the first example with the id, or undefined exactly when none has it |
| Videos.RowIdsDistinct | apps/mybenefitsvideos/src/lib/videos.ts:14-96 | the example ids are distinct |
| Videos.LookupFindsEach | apps/mybenefitsvideos/src/lib/videos.ts:14-115 | every example is found by its own id |
| Vimeo.ExtractVimeoIdAsWritten | apps/mybenefitsvideos/src/lib/vimeo.ts:106-121 | a capture is a non-empty run of digits, and nothing is found only when no digit follows either host |
| Vimeo.ExtractVimeoId | apps/mybenefitsvideos/src/lib/vimeo.ts:106-121 | a capture is a non-empty run of digits, and nothing is found only when no digit follows either host |
| Vimeo.PlayerPatternSubsumed | apps/mybenefitsvideos/src/lib/vimeo.ts:107-111 | the player pattern never decides: wherever it matches, the middle pattern matches too |
| Vimeo.PlayerUrlRoundTrip | apps/mybenefitsvideos/src/lib/vimeo.ts:106-144 | a player URL followed by a quiet query gives its id back, with either version of the extraction |
| Vimeo.ReviewUrlLazy | apps/mybenefitsvideos/src/lib/vimeo.ts:106-121 | the corrected extraction reads the id from a review link whatever the hash |
| Vimeo.ReviewUrlGreedy | apps/mybenefitsvideos/src/lib/vimeo.ts:106-121 | as written, a review link whose hash starts with digits gives those digits instead of the id |
| Vimeo.GreedyReadsHash | apps/mybenefitsvideos/src/lib/vimeo.ts:58-121 | for the fourth catalogue entry the extraction as written yields "145", while the corrected one yields the id |
| Vimeo.SetFrom | apps/mybenefitsvideos/src/lib/vimeo.ts:134-141 | the parameters set from a given call on are exactly those the options ask for, in call order |
| Vimeo.EmbedParams | apps/mybenefitsvideos/src/lib/vimeo.ts:134-141 | exactly the wanted parameters, each once, in the order of the calls |
| Vimeo.QueryNotEmpty | apps/mybenefitsvideos/src/lib/vimeo.ts:140-144 | the query is never empty, since responsive and quality are always set |
| Vimeo.GenerateEmbedUrl | apps/mybenefitsvideos/src/lib/vimeo.ts:126-145 | the player URL for the id followed by "?" and the query |
| Vimeo.QueryChars | apps/mybenefitsvideos/src/lib/vimeo.ts:143 | query strings are made of lower-case letters, digits, '=' and '&' |
| Vimeo.EmbedUrlRoundTrip | apps/mybenefitsvideos/src/lib/vimeo.ts:106-145 | generated embed URLs give their id back, with either version of the extraction |
| Vimeo.DefaultEmbedUrl | apps/mybenefitsvideos/src/lib/vimeo.ts:126-145 | with no options the URL asks only for the responsive player at automatic quality |
| Vimeo.ExampleLinks | apps/mybenefitsvideos/src/lib/vimeo.ts:23-121 | for an entry whose hash starts with a letter, both links give back the id, with either extraction |
| Vimeo.RowIdsAreDigits | apps/mybenefitsvideos/src/lib/vimeo.ts:23-104 | every catalogue id is digits |
| Vimeo.RowHashesAlphanumeric | apps/mybenefitsvideos/src/lib/vimeo.ts:23-104 | every review hash is lower-case letters and digits |
| Vimeo.RowHashesStartWithLetters | apps/mybenefitsvideos/src/lib/vimeo.ts:23-104 | every hash but the fourth starts with a letter |
| Vimeo.FourthHash | apps/mybenefitsvideos/src/lib/vimeo.ts:58-64 | the fourth hash starts with the digits 145 |
| Vimeo.DigitHashLinks | apps/mybenefitsvideos/src/lib/vimeo.ts:23-121 | for an entry whose hash starts with digits, as written the review link gives those digits instead of the id |
| Vimeo.CatalogueLinks | apps/mybenefitsvideos/src/lib/vimeo.ts:23-121 | the corrected extraction reads every entry's id from both links; as written only the fourth review link fails |
| Vimeo.GetVideosByServiceType | apps/mybenefitsvideos/src/lib/vimeo.ts:150-152 | exactly the catalogue's videos of the type, in catalogue order |
| Vimeo.GetVideosByCategory | apps/mybenefitsvideos/src/lib/vimeo.ts:157-159 | exactly the catalogue's videos in the category, in catalogue order |
| Vimeo.FeaturedFromMembers | apps/mybenefitsvideos/src/lib/vimeo.ts:164-171 | for each showcase type from a given one on, the catalogue's first video of that type, and nothing else |
| Vimeo.FeaturedFromOrdered | apps/mybenefitsvideos/src/lib/vimeo.ts:164-171 | the collected videos come in strictly ascending showcase order |
| Vimeo.GetFeaturedVideos | apps/mybenefitsvideos/src/lib/vimeo.ts:164-171 | at most four videos from the catalogue, each the first of its showcase type, in showcase order, and every showcase type present is represented |
| Vimeo.LeadingFeatured | apps/mybenefitsvideos/src/lib/vimeo.ts:164-171 | when the first four videos are one of each showcase type in order, they are the featured videos |
| Vimeo.CatalogueFeatured | apps/mybenefitsvideos/src/lib/vimeo.ts:23-171 | the catalogue lists its four production examples first, one per type, so they are the featured videos |
| Vimeo.PadStart2 | apps/mybenefitsvideos/src/lib/vimeo.ts:179 | a label of two or more characters is kept, and a shorter one is left-padded with '0' to two |
| Vimeo.SecondsField | apps/mybenefitsvideos/src/lib/vimeo.ts:178-179 | the seconds below a minute print as two digits that read back as their value |
| Vimeo.FormatDuration | apps/mybenefitsvideos/src/lib/vimeo.ts:176-180 | the label of every non-negative duration reads back as that duration: minutes, a colon and two digits below 60 |
| Vimeo.DurationExamples | apps/mybenefitsvideos/src/lib/vimeo.ts:176-180 | 90 seconds is "1:30", 120 is "2:00" and 65 is "1:05" |
| JsNum.JsRound | lib/pricing.ts:106 | the nearest integer, a half rounded up, as Math.round does |
| JsNum.PyRound | fill_proposal_from_json.py:46 | the nearest integer, a half rounded to the even one, as Python's round does |
| JsNum.RoundingsAgreeOffHalf | fill_proposal_from_json.py:46 | the two roundings agree on every value that is not exactly half-way |
| JsNum.JsHalf | lib/pricing.ts:106 | half an integer, an odd one rounded up |
| JsNum.PyHalf | fill_proposal_from_json.py:46 | half an integer, an odd one rounded to the even neighbour |
| JsNum.HalfRoundingDiffers | fill_proposal_from_json.py:46 | the JavaScript and Python rush surcharges differ exactly when the surcharged amount leaves remainder 1 modulo 4, Python's then being one lower |
| JsNum.Ceil | apps/mybenefitsvideos/src/lib/pricing-old.ts:329 | the least integer not below the value |
| JsNum.JsRem | preview/src/components/sections/service-testimonials.tsx:76 | for a positive divisor, the remainder has the sign of the dividend: the Euclidean one for a non-negative dividend, and odd in the dividend |
| JsNum.Wrap32 | src/lib/navigation-config.ts:515-518 | the signed 32-bit value congruent to the integer modulo 2^32 |
| JsNum.Wrap32Congruent | src/lib/navigation-config.ts:515-518 | integers congruent modulo 2^32 wrap to the same 32-bit value |
| JsNum.HashStep | src/lib/navigation-config.ts:516-517 | one step of the string hash stays a signed 32-bit value |
| JsNum.HashStepIsMultiply | src/lib/navigation-config.ts:516-517 | a hash step is 31 times the hash plus the character code, wrapped to 32 bits |
| JsNum.CharUnits | src/lib/navigation-config.ts:516 | a character below U+10000 is one UTF-16 code unit equal to its code; above, a high and a low surrogate that together encode it |
| JsNum.Utf16Units | src/lib/navigation-config.ts:515-518 | each code unit lies in 0..0xFFFF, and there are between one and two per character |
| JsNum.JsLength | preview/src/lib/contact-validation.ts:5-19 | the `length` that zod's `.min` and `.max` and the search box compare: the number of UTF-16 code units, between the character count and twice it |
| JsNum.JsLengthBmp | preview/src/lib/contact-validation.ts:5-19 | text below U+10000 has as many code units as characters |
| JsNum.HashUnits | src/lib/navigation-config.ts:515-518 | folding hash steps over code units keeps a signed 32-bit value |
| JsNum.StringHash | src/lib/navigation-config.ts:515-518 | the hash folds over the string's UTF-16 code units, as `charCodeAt` reads them, and is a signed 32-bit value |
| JsNum.StringHashSingle | src/lib/navigation-config.ts:515-518 | a one-character string hashes to its code below U+10000, and above it to 31 times the high surrogate plus the low one |
| UrlPatterns.DigitRun | apps/mybenefitsvideos/src/lib/vimeo.ts:108 | the longest run of digits from a position, which is non-empty when a digit stands there |
| UrlPatterns.FirstSome | apps/mybenefitsvideos/src/lib/vimeo.ts:113-118 | the search tries start positions in turn: nothing exactly when no start matches, otherwise the leftmost start's result |
| UrlPatterns.LitDigits | apps/mybenefitsvideos/src/lib/vimeo.ts:108 | the first pattern finds nothing exactly when no digit follows the host anywhere, and otherwise captures the digits after the leftmost host followed by one |
| UrlPatterns.SpanEnd | apps/mybenefitsvideos/src/lib/vimeo.ts:109 | a match from a start ends at the last place on the line for the greedy pattern and at the first for the lazy one |
| UrlPatterns.SpanDigits | apps/mybenefitsvideos/src/lib/vimeo.ts:109 | the middle pattern finds nothing exactly when no start can match, and otherwise captures from the leftmost start that can |
| UrlPatterns.TailEnd | apps/mybenefitsvideos/src/lib/videos.ts:133 | the slash the greedy pattern stops at is the last one that leaves a non-empty rest of the line |
| UrlPatterns.TailAfter | apps/mybenefitsvideos/src/lib/videos.ts:133 | the Vimeo Pro pattern finds nothing exactly when no start can match, and otherwise captures the rest after the slash for the leftmost start |

## Left out

- AppNavigation: `trackNavClick` (apps navigation-config.ts:422-432) sends an analytics event to the page's gtag; it is I/O and is left out.
- AppTemplates: `recordTemplatePerformance` and `updateTemplateSEO` (apps page-templates.ts:407-432) only merge objects supplied by the caller into a template; they are not modelled.
- BmadCycle: the cycle directories, JSON and Markdown files, notifications, report texts, `schedule_automated_cycles` and `send_weekly_progress` (bmad/bmad-integration-system.py) are I/O; the approved build tasks, the deploy script's outcome and the point where a phase raises are parameters (`tasks`, `deployOk`, the fault values).
- BmadDecide: the SQLite connections, `generate_decision_report`'s Markdown and `main` (bmad/decide-workflow-system.py) are I/O. `now` and the window's cutoff are parameters. SQL leaves the order of rows with equal timestamps open, and the window picks a stable order for them.
- BmadMeasure: the GA4, email and CRM connectors return fixed mock figures (bmad/measure-tracking-system.py:252-405); their output is a parameter, and only the email connector's rate arithmetic is modelled. The SQLite tables, notifications, `generate_daily_report` and `start_automated_collection` are I/O.
- BmadTracker: `record_baseline_metrics` (bmad_tracking_system.py:74-105) inserts a fixed list of baseline readings and is not modelled; the report's Markdown text, `save_report` and `main` are I/O. `CURRENT_TIMESTAMP` and `datetime.now()` are the parameter `now`.
- CampaignAnalysis: the printed scenario table of `analyze_current_pricing_structure` with its value per minute, `save_bmad_cycle_data` and `main` (bmad_analysis_current_campaign.py:206-245, 461-520) are output only and are not modelled; the scenarios' prices are those of `PresetPricing.AnalysisComputePricing`.
- PreviewBlocks.GetBestPerformingVariant: among blocks tied on the highest rate the source's stable sort returns the first in list order; the model computes it the same way, but the contract only states that no rated block has a higher rate.
- AppTemplates.GetBestPerformingTemplate: the same tie-break as above is computed but not stated in the contract.
- ProposalWorkflow: running the proposal filler, the e-mail, the webhook handler, the CRM log and `main` (campaign/automated-proposal-workflow.py:188-440) are I/O; `datetime.now()` is the day number `today`; `strftime`, `title()` and the `,.0f` formatting are not modelled; `hr_team_size` is computed and never used.
- PresetPricing, ServicePricing, ProposalPricing: amounts are exact integers and reals; floating-point rounding error and the currency formatting (`toLocaleString`, `formatCurrency`, `formatNumber`, `formatPercent`) are not modelled.
- ServicePricing.RoiFor: where JavaScript's division would give `Infinity` or `NaN` (no employees, or no savings) the model gives `None` instead of carrying the non-finite number through `Math.round`, `Math.ceil` and `Math.max`.
- SiteNavigation: `trackNavigationClick` (src/lib/navigation-config.ts:394-403) only sends an analytics event, and `navigationThemes` is display data; neither is modelled. `createNavigationABTest`'s ISO start date is the clock reading `now` in milliseconds.
- SiteTemplates.UpdatePageSection: an index outside the template's sections is `BadArgument`, whereas JavaScript would write a partial section at that index of the copied array.
- SiteTemplates.ReorderPageSections: a `newOrder` shorter than the sections is `BadArgument`, whereas JavaScript would give the remaining sections an undefined order and sort by `NaN` comparisons.
- SiteTemplates: `createABTest` in src/lib/page-templates.ts only builds a record from its arguments and the clock, and is not modelled.
- SiteBlocks, SiteTemplates, AppTemplates, PreviewBlocks: the block and template texts, SEO fields and styling are display data; only ids, types, routes, sections, statuses and rates are modelled.
- CaseStudyFilter: `parseInt`'s hexadecimal prefix and its other number formats are not modelled; only leading white space, an optional sign and decimal digits are. The case-study records of preview/src/lib/case-studies.ts are not modelled: a study is the fields the filter reads, and its completion date is the timestamp `getTime()` returns.
- CaseStudyFilter, CaseStudySearch, FileUpload: `toLowerCase` is modelled on the ASCII letters only.
- CaseStudySearch: the 300 ms debounce between typing and the page's query is not modelled.
- CaseStudyGrid: the half-second delay before a load lands is not modelled.
- ContactValidation: the `isEmail` address check is a parameter, and the error message texts are not modelled. The messages say "less than" while the bounds are inclusive.
- ContactRoute: the GET and OPTIONS handlers return fixed responses and are not modelled; `sendNotificationEmail` is I/O; the submission id built from `Date.now()` and `Math.random()` is left out.
- CalculatorSummary: the request to the lead endpoint is the parameter `responseOk`, and the error message text is not modelled.
- CalculatorWizard: only the selection fields the step validation reads are modelled; the pricing and ROI engines it calls are modelled in PresetPricing and ServicePricing, and `recalculatePricing` with its try/catch is not modelled.
- QuoteBuilder: `Number()` of a non-numeric input gives `NaN` in the source, which the model does not represent; inputs are integers. The generic `set` is modelled through the four clamping setters; the check boxes and selects assign their field as given and are record updates without a member of their own. The `max={36}` of the months input is an HTML attribute that `onChange` does not enforce, and it is not modelled either.
- RangeSlider.GetValue: requires a track of positive width and a positive step; with a zero width or step JavaScript produces `NaN` or `Infinity`, which are not modelled. `getPercentage` only positions the thumbs and is not modelled.
- ServiceTestimonials.NextIndex: requires at least one testimonial; with none the section renders nothing, but the source's timer would still compute `NaN`, which is not modelled. The same holds for PrevIndex, NextTestimonial, PrevTestimonial and Tick.
- ServiceTestimonials: the average rating's `toFixed(1)` text is not modelled; the average itself is exact.
- ServicePriceCalculator: prices are reals; the `+50%` label is text and does not follow the configured multiplier, as HalfSurchargeAtOnePointFive shows.
- ServiceGallery: the hover state and the grid/list toggle are display state; the toggle is the parameter `isGridView`.
- FileUpload: a file is its name and size; `formatFileSize` and the drag-leave highlight reset are display only and are not modelled. `maxSize` is a real number of megabytes.
- SubscriptionPlans: `calculateAnnualSavings` (a tenth of a year's fees, shown on each plan card) is a display figure and is not modelled.
- Vimeo: `isBrowser` tests the environment and is not modelled; the catalogue's titles, descriptions and thumbnails are display text.
- Videos: the round trip of `getEmbedUrl` is stated with the vimeo.ts extraction (Videos.EmbedUrlGivesId), because none of `extractEmbedId`'s three patterns is meant for player links.
- PackagePresets: the card prices use the marketing site's service price list (apps/mybenefitsvideos/src/lib/pricing.ts); preview/src/lib/pricing.ts is not part of this model.
- ProposalWorkflow.DetailedPricing: `from lib.pricing import computePricing, PricingSelections` (campaign/automated-proposal-workflow.py:159) names a Python module that the repository does not hold; only the TypeScript lib/pricing.ts exists. The model assumes it prices as that TypeScript engine does, rush surcharge rounded half up, although the repository's Python scripts round halves to even (JsNum.HalfRoundingDiffers).
- ProposalWorkflow.CalculateRoiProjection: the projection is stated over the corrected CompanySize. As written, a custom payload without `company_size`, `microsite` and `subscriptionPlan` keys is sized 400 instead of 200 (see Findings), which changes every figure of its projection; no as-written projection is modelled.
- ProposalWorkflow.CalculateRoiProjection: Python floats are exact reals, so the ROI percentage, the payback months and the savings carry no floating-point rounding.
- RangeSlider.GetValue: `Math.round(x / step) * step` is computed on exact reals and integers; JavaScript's floating-point error in the division and the product is not modelled.
- ServiceTestimonials.AverageRating: the mean is an exact real, not a double.
- CalculatorWizard.Progress: the percentage is an exact real, not a double.
- JsNum.JsLength: Dafny strings are sequences of Unicode scalar values while JavaScript strings are UTF-16; zod's `.min`/`.max` (ContactValidation, CalculatorSummary), the search box's `length` tests (CaseStudySearch) and `charCodeAt` (JsNum.StringHash, SiteNavigation) are modelled on code units through JsNum.Utf16Units. A JavaScript string holding a lone surrogate has no Dafny counterpart and is not modelled. The Python scripts' `len` counts code points, as `|s|` does.
- SubscriptionPlans, VideoCards: both steps import their rates from the preview app's `@/lib/pricing`; preview/src/lib/pricing.ts is not part of this model, and the marketing site's price list (apps/mybenefitsvideos/src/lib/pricing.ts, through PresetPricing and ServicePricing) stands in for it. Where the two price lists differ, the model's card prices and totals differ from the preview's.
- CaseStudyFilter.UrlTextRoundTrip: `router.replace` and `useSearchParams` are taken to hand the query text through unchanged. The form encoding only emits ASCII letters, digits, `*`, `-`, `.`, `_`, `+` and `%XX`, which the WHATWG URL parser keeps as they are in a query.
- FormUrlencoded.Utf8Decode: decoding follows the UTF-8 decoder of the WHATWG Encoding Standard, including its replacement of malformed sequences by U+FFFD; the round trip is only stated for well-formed input, the bytes of some text.
- ProposalPricing, ProposalWorkflow: Python's JSON `null` and a missing key are not distinguished; both read as the missing value `dict.get` defaults.
- PreviewBlocks.HasRate: only a numeric `conversionRate` counts as a rate. The source's `conversionRate || 0` (preview/src/lib/content-blocks.ts:517) takes any truthy value, so a non-empty string would be subtracted as a number (usually `NaN`); test results are typed numbers here. AppTemplates.HasRate is typed `Option<real>` for the same reason.
- ServiceTestimonials: `rating` is an integer, while the source field is a JavaScript `number`. A rating such as 4.5 cannot be written in the model: the source would fill all five stars for it (star 4 is filled because `4 < 4.5`) and show "4.5/5 stars", and the fractional averages that follow from such ratings are not covered.
- SiteNavigation, SiteTemplates, SiteBlocks, AppTemplates, SubscriptionPlans: lookups written `obj[key] || …` on an object literal return an `Object.prototype` member (a function) for keys such as "constructor" or "toString". The model's maps hold only the literal's own keys, so such a key reads as absent and gets the fallback.

## Findings

| source | as written | input that shows it | evidently intended | confidence | as-written member | corrected member |
|---|---|---|---|---|---|---|
| bmad/decide-workflow-system.py:483 | `make_decision` reads the decision's success criteria from column 11 of the recommendation row, which is `risk_factors`; the comment says `success_metrics`, which is column 10 | approving the high-bounce-rate recommendation: its criteria become "Changes may initially impact SEO rankings" | the success metrics, "Reduce bounce rate below 50%" | not executed | BmadDecide.MakeDecisionAsWritten, BmadDecide.SuccessCriteriaExample | BmadDecide.MakeDecision |
| bmad/decide-workflow-system.py:262 | the stage name strips every `funnel_` before looking for `_to_funnel_`, so the arrow never appears | `funnel_landing_page_views_to_funnel_calculator_starts` gives `landing_page_views_to_calculator_starts` | `landing_page_views → calculator_starts` | not executed | BmadDecide.StageNameAsWrittenShape, BmadDecide.StageNameExample | BmadDecide.StageNameShape |
| apps/mybenefitsvideos/src/lib/vimeo.ts:106-121 | the second pattern's greedy `.*` skips to the last slash followed by a digit | the review link `https://vimeo.com/user/review/693745318/145fbe1647` gives `145` | the video id `693745318` | not executed | Vimeo.ReviewUrlGreedy | Vimeo.ReviewUrlLazy |
| campaign/automated-proposal-workflow.py:106-109 | `data.get('microsite') != 'none'` is true when the key is missing, while the pricing reads a missing key as `'none'` | a custom payload without `microsite`, `subscriptionPlan` or `company_size` is sized 400 | 200, as a payload with nothing extra | not executed | ProposalWorkflow.CompanySizeDiffers | ProposalWorkflow.CompanySizeFollowsPricing |
| preview/src/components/ui/file-upload.tsx:55-73 | when the pick would pass the file limit the handler returns before the errors are logged | one file already held and three acceptable files picked: nothing is logged | the "Maximum 3 files allowed" error is reported | not executed | FileUpload.TooManyWarningLost | FileUpload.HandleFileSelect |
| src/lib/navigation-config.ts:344-356 | `findInItems` pushes each ancestor after its descendants are found, innermost first | a page two dropdown levels deep gives Home, middle entry, top entry, page | Home, top entry, middle entry, page | not executed | SiteNavigation.DeepBreadcrumbsDiffer | SiteNavigation.BuildBreadcrumbs |
