/**
 * The decide/build/measure steps of the campaign analysis script
 * (bmad_analysis_current_campaign.py): the fixed recommendation list sorted
 * by priority score, the implementation plan's quick-win selection, and the
 * metrics derived from the baseline. Its nested `computePricing` is
 * `PresetPricing.AnalysisComputePricing`.
 */
module CampaignAnalysis {
  import opened Seqs

  datatype CampaignRec = CampaignRec(
    id: string,
    title: string,
    impact: int,
    effort: string,
    timeline: int,
    priorityScore: int,
    category: string)

  function NegScore(r: CampaignRec): real
  {
    -(r.priorityScore as real)
  }

  /** Highest priority score first. */
  ghost predicate ScoreDescending(rs: seq<CampaignRec>)
  {
    forall i, j :: 0 <= i < j < |rs| ==> rs[i].priorityScore >= rs[j].priorityScore
  }

  /**
   * `recommendations.sort(key=priority_score, reverse=True)`: Python's sort
   * is stable also in reverse, so equal scores keep their order.
   */
  function SortByPriority(rs: seq<CampaignRec>): (r: seq<CampaignRec>)
    ensures multiset(r) == multiset(rs)
    ensures ScoreDescending(r)
  {
    var sorted := SortBy(rs, NegScore);
    assert forall i, j :: 0 <= i < j < |sorted| ==> NegScore(sorted[i]) <= NegScore(sorted[j]);
    sorted
  }

  /** Equal scores keep their input order. */
  lemma SortByPriorityIsStable(rs: seq<CampaignRec>, score: int)
    ensures WithKey(SortByPriority(rs), NegScore, -(score as real)) == WithKey(rs, NegScore, -(score as real))
  {
    SortByIsStable(rs, NegScore, -(score as real));
  }

  predicate IsQuickWin(r: CampaignRec)
  {
    r.category == "quick_win"
  }

  /** `create_implementation_plan`: the first three quick wins, in list order. */
  function QuickWins(rs: seq<CampaignRec>): (r: seq<CampaignRec>)
    ensures |r| == if |Filter(rs, IsQuickWin)| < 3 then |Filter(rs, IsQuickWin)| else 3
    ensures forall i :: 0 <= i < |r| ==> IsQuickWin(r[i]) && r[i] in rs
    ensures r == Filter(rs, IsQuickWin)[..|r|]
  {
    Take(Filter(rs, IsQuickWin), 3)
  }

  /** Fewer than three quick wins are all taken. */
  lemma FewQuickWinsAllTaken(rs: seq<CampaignRec>)
    requires |Filter(rs, IsQuickWin)| <= 3
    ensures QuickWins(rs) == Filter(rs, IsQuickWin)
  {
  }

  /** The five recommendations of `generate_immediate_recommendations`, in the order written. */
  const ImmediateRecommendations: seq<CampaignRec> := [
    CampaignRec("pricing_calculator_optimization", "Optimize Pricing Calculator Conversion", 25, "low", 3, 85, "quick_win"),
    CampaignRec("proposal_automation_enhancement", "Enhance Automated Proposal Generation", 35, "medium", 7, 82, "quick_win"),
    CampaignRec("landing_page_conversion_optimization", "Landing Page Conversion Optimization", 30, "medium", 5, 78, "quick_win"),
    CampaignRec("email_sequence_personalization", "Personalized Email Sequence Optimization", 40, "high", 14, 75, "major_project"),
    CampaignRec("funnel_analytics_implementation", "Advanced Funnel Analytics Implementation", 20, "medium", 10, 70, "fill_in")
  ]

  /**
   * A list already in descending score order whose quick wins are exactly
   * its first three entries: sorting keeps it and the plan is that prefix.
   */
  lemma {:induction false} PlanOfOrderedList(rs: seq<CampaignRec>)
    requires |rs| == 5 && ScoreDescending(rs)
    requires IsQuickWin(rs[0]) && IsQuickWin(rs[1]) && IsQuickWin(rs[2])
    requires !IsQuickWin(rs[3]) && !IsQuickWin(rs[4])
    ensures SortByPriority(rs) == rs
    ensures QuickWins(SortByPriority(rs)) == rs[..3]
  {
    assert SortedBy(rs, NegScore);
    SortBySorted(rs, NegScore);
    FilterPrefix(rs, IsQuickWin, 3);
  }

  /**
   * The list is written in descending score order, so sorting keeps it, and
   * the plan takes its first three entries: calculator, proposal, landing page.
   */
  lemma ImmediatePlan()
    ensures SortByPriority(ImmediateRecommendations) == ImmediateRecommendations
    ensures QuickWins(SortByPriority(ImmediateRecommendations)) == ImmediateRecommendations[..3]
  {
    PlanOfOrderedList(ImmediateRecommendations);
  }

  // ---------------------------------------------------------------------------
  // Derived baseline metrics
  // ---------------------------------------------------------------------------

  /** Qualified leads per month: conversion rate (percent) of the sessions. */
  function MonthlyLeads(conversionRate: real, sessions: real): (r: real)
    ensures r * 100.0 == conversionRate * sessions
  {
    conversionRate * sessions / 100.0
  }

  /** Customer acquisition cost, 0 when there are no leads. */
  function Cac(revenue: real, leads: real): (r: real)
    ensures leads > 0.0 ==> r * leads == revenue
    ensures leads <= 0.0 ==> r == 0.0
  {
    if leads > 0.0 then revenue / leads else 0.0
  }

  /** Lifetime value over acquisition cost, 0 when the cost is not positive. */
  function LtvCacRatio(ltv: real, cac: real): (r: real)
    ensures cac > 0.0 ==> r * cac == ltv
    ensures cac <= 0.0 ==> r == 0.0
  {
    if cac > 0.0 then ltv / cac else 0.0
  }

  /** With positive revenue and leads, the ratio is lifetime value × leads / revenue. */
  lemma RatioIsLtvPerLeadRevenue(ltv: real, revenue: real, leads: real)
    requires revenue > 0.0 && leads > 0.0
    ensures LtvCacRatio(ltv, Cac(revenue, leads)) * revenue == ltv * leads
  {
    var cac := Cac(revenue, leads);
    assert cac > 0.0 by {
      assert cac * leads == revenue;
    }
    var r := LtvCacRatio(ltv, cac);
    calc {
      r * revenue;
      r * (cac * leads);
      (r * cac) * leads;
      ltv * leads;
    }
  }

  /**
   * The baseline (3.4% of 1250 sessions, 45000 revenue, 15000 lifetime
   * value) gives 42.5 leads and a ratio of 15000 × 42.5 / 45000.
   */
  lemma BaselineDerived(rate: real, sessions: real, revenue: real, ltv: real)
    requires rate == 3.4 && sessions == 1250.0 && revenue == 45000.0 && ltv == 15000.0
    ensures MonthlyLeads(rate, sessions) == 42.5
    ensures Cac(revenue, MonthlyLeads(rate, sessions)) * 42.5 == 45000.0
    ensures LtvCacRatio(ltv, Cac(revenue, MonthlyLeads(rate, sessions))) * 45000.0 == 15000.0 * 42.5
  {
    RatioIsLtvPerLeadRevenue(ltv, revenue, MonthlyLeads(rate, sessions));
  }
}
