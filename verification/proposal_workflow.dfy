/**
 * The automated proposal workflow (campaign/automated-proposal-workflow.py):
 * naming the package, the ROI projection, the proposal's defaults and the
 * subscription argument handed to the proposal filler.
 *
 * The calculator payload is a JSON object, so each key may be missing
 * (`None`). Its pricing keys are a `ProposalPricing.PySelection`, priced by
 * the TypeScript engine with the same `dict.get` defaults. Dates are day
 * numbers; their `strftime` text is not modelled.
 */
module ProposalWorkflow {
  import opened Wrappers
  import opened PresetPricing
  import opened ProposalPricing

  datatype CalculatorData = CalculatorData(
    sel: PySelection,
    companySize: Option<int>,    // the payload key `company_size`
    clientName: Option<string>,
    clientEmail: Option<string>,
    projectName: Option<string>)

  // ---------------------------------------------------------------------------
  // Package name
  // ---------------------------------------------------------------------------

  const GoodName := "GOOD \U{2014} Foundation Package"
  const BetterName := "BETTER \U{2014} Complete Solution"
  const BestName := "BEST \U{2014} Enterprise Suite"
  const PremiumName := "CUSTOM \U{2014} Premium Package"
  const VideoMicrositeName := "CUSTOM \U{2014} Video + Microsite"
  const VideoName := "CUSTOM \U{2014} Video Package"

  /** `data.get('microsite', 'none') != 'none'`. */
  predicate HasMicrosite(sel: PySelection)
  {
    sel.microsite.GetOr("none") != "none"
  }

  /** Teaser, DIY licence or alternative-language minutes. */
  predicate HasExtras(sel: PySelection)
  {
    sel.teaser.GetOr(false) || sel.diyLicense.GetOr(false) || sel.altLanguageMinutes.GetOr(0) > 0
  }

  /** `_determine_package_name`; a missing preset counts as custom. */
  function PackageName(data: CalculatorData): (name: string)
    ensures data.sel.preset == Some("good") ==> name == GoodName
    ensures data.sel.preset == Some("better") ==> name == BetterName
    ensures data.sel.preset == Some("best") ==> name == BestName
    ensures data.sel.preset !in {Some("good"), Some("better"), Some("best")} ==>
      (name == PremiumName <==> HasMicrosite(data.sel) && HasExtras(data.sel))
      && (name == VideoMicrositeName <==> HasMicrosite(data.sel) && !HasExtras(data.sel))
      && (name == VideoName <==> !HasMicrosite(data.sel))
  {
    var preset := data.sel.preset.GetOr("custom");
    if preset == "good" then GoodName
    else if preset == "better" then BetterName
    else if preset == "best" then BestName
    else if HasMicrosite(data.sel) && HasExtras(data.sel) then PremiumName
    else if HasMicrosite(data.sel) then VideoMicrositeName
    else VideoName
  }

  /** A custom package's name depends only on the microsite and extras, never on minutes or rush. */
  lemma CustomNameIgnoresVideo(data: CalculatorData, other: CalculatorData)
    requires data.sel.preset !in {Some("good"), Some("better"), Some("best")}
    requires other.sel.preset !in {Some("good"), Some("better"), Some("best")}
    requires HasMicrosite(data.sel) == HasMicrosite(other.sel) && HasExtras(data.sel) == HasExtras(other.sel)
    ensures PackageName(data) == PackageName(other)
  {
  }

  // ---------------------------------------------------------------------------
  // ROI projection
  // ---------------------------------------------------------------------------

  /**
   * The company size as written: `data.get('microsite') != 'none'` is also
   * true when the key is missing, so a payload without microsite or plan
   * keys is sized as if it had a microsite.
   */
  function CompanySizeAsWritten(data: CalculatorData): (size: int)
    ensures data.companySize.Some? ==> size == data.companySize.value
    ensures data.companySize.None? && data.sel.microsite.None? ==>
      size == (if data.sel.preset == Some("good") then 150
               else if data.sel.preset == Some("better") then 300
               else if data.sel.preset == Some("best") then 500
               else 400)
  {
    if data.companySize.Some? then data.companySize.value
    else
      var preset := data.sel.preset.GetOr("custom");
      if preset == "good" then 150
      else if preset == "better" then 300
      else if preset == "best" then 500
      else if data.sel.microsite != Some("none") || data.sel.subscriptionPlan != Some("none") then 400
      else 200
  }

  /** With `'none'` as the default for both keys, as the pricing uses them. */
  function CompanySize(data: CalculatorData): (size: int)
    ensures data.companySize.Some? ==> size == data.companySize.value
    ensures data.companySize.None? ==>
      size == (if data.sel.preset == Some("good") then 150
               else if data.sel.preset == Some("better") then 300
               else if data.sel.preset == Some("best") then 500
               else if HasMicrosite(data.sel) || data.sel.subscriptionPlan.GetOr("none") != "none" then 400
               else 200)
  {
    if data.companySize.Some? then data.companySize.value
    else
      var preset := data.sel.preset.GetOr("custom");
      if preset == "good" then 150
      else if preset == "better" then 300
      else if preset == "best" then 500
      else if HasMicrosite(data.sel) || data.sel.subscriptionPlan.GetOr("none") != "none" then 400
      else 200
  }

  /** The two sizings differ exactly on custom payloads that omit a key but select nothing extra. */
  lemma CompanySizeDiffers(data: CalculatorData)
    requires data.companySize.None? && data.sel.preset.None?
    requires data.sel.microsite.None? && data.sel.subscriptionPlan.None?
    ensures CompanySizeAsWritten(data) == 400
    ensures CompanySize(data) == 200
    ensures Resolve(data.sel).microsite == NoMicrosite && Resolve(data.sel).subscriptionPlan == "none"
  {
  }

  /** The corrected sizing sees only what the pricing sees: the resolved microsite and plan. */
  lemma CompanySizeFollowsPricing(data: CalculatorData, other: CalculatorData)
    requires data.companySize.None? && other.companySize.None?
    requires data.sel.preset == other.sel.preset
    requires Resolve(data.sel).microsite == Resolve(other.sel).microsite
    requires data.sel.microsite.GetOr("none") in {"none", "standalone", "bundled"}
    requires other.sel.microsite.GetOr("none") in {"none", "standalone", "bundled"}
    requires Resolve(data.sel).subscriptionPlan == Resolve(other.sel).subscriptionPlan
    ensures CompanySize(data) == CompanySize(other)
  {
  }

  /**
   * `_calculate_detailed_pricing`: the TypeScript engine on the `dict.get`
   * defaults. A missing key takes its default and a present one is used as
   * given, so the breakdown prices the resolved selection after its preset,
   * and a payload without `rush` pays no surcharge.
   */
  function DetailedPricing(data: CalculatorData): (b: Breakdown)
    ensures b.selection == ApplyPreset(Resolve(data.sel))
    ensures b.subtotal == ListPrice(b.selection)
    ensures !data.sel.rush.GetOr(false) ==> b.rushSurcharge == 0
    ensures b.subscriptionTotal == Monthly(data.sel.subscriptionPlan.GetOr("none")) * data.sel.subscriptionMonths.GetOr(0)
    ensures b.totalAllIn == b.subtotal + b.rushSurcharge + b.subscriptionTotal
  {
    ComputePricing(Resolve(data.sel))
  }

  const AvgHrSalary := 75000.0
  const HoursPerEmployee := 0.5
  const HoursPerYear := 2080.0
  const ComplianceRisk := 5000.0

  datatype CurrentCost = CurrentCost(hrTime: real, poorEnrollment: real, complianceRisk: real, satisfaction: real)
  datatype Savings = Savings(hrTime: real, enrollment: real, compliance: real, satisfaction: real)

  datatype RoiProjection = RoiProjection(
    companySize: int,
    totalInvestment: int,
    currentCost: CurrentCost,
    totalCurrentCost: real,
    savings: Savings,
    totalAnnualSavings: real,
    firstYearRoi: real,
    paybackMonths: real,
    threeYearValue: real)

  /** The yearly cost of poor benefits communication for a company of `size` employees. */
  function CurrentAnnualCost(size: int): (c: CurrentCost)
    ensures c.hrTime == size as real * HoursPerEmployee * (AvgHrSalary / HoursPerYear)
    ensures c.poorEnrollment == size as real * 120.0
    ensures c.complianceRisk == ComplianceRisk
    ensures c.satisfaction == size as real * 50.0
  {
    CurrentCost(size as real * HoursPerEmployee * (AvgHrSalary / HoursPerYear), (size * 120) as real,
                ComplianceRisk, (size * 50) as real)
  }

  /** 70%, 60%, 80% and 50% of the four cost components. */
  function ProjectedSavings(c: CurrentCost): (s: Savings)
    ensures s.hrTime == c.hrTime * 0.7 && s.enrollment == c.poorEnrollment * 0.6
    ensures s.compliance == c.complianceRisk * 0.8 && s.satisfaction == c.satisfaction * 0.5
  {
    Savings(c.hrTime * 0.7, c.poorEnrollment * 0.6, c.complianceRisk * 0.8, c.satisfaction * 0.5)
  }

  /** First-year ROI in percent: (savings − investment) / investment · 100, or 0 without an investment. */
  function FirstYearRoi(savings: real, investment: int): (roi: real)
    ensures investment > 0 ==> roi * investment as real == (savings - investment as real) * 100.0
    ensures investment <= 0 ==> roi == 0.0
  {
    if investment > 0 then ((savings - investment as real) / investment as real) * 100.0 else 0.0
  }

  /** Months of savings needed to recover the investment, or 0 without savings. */
  function PaybackMonths(savings: real, investment: int): (months: real)
    ensures savings > 0.0 ==> months * savings == investment as real * 12.0
    ensures savings <= 0.0 ==> months == 0.0
  {
    if savings > 0.0 then investment as real / (savings / 12.0) else 0.0
  }

  function TotalCost(c: CurrentCost): real
  {
    c.hrTime + c.poorEnrollment + c.complianceRisk + c.satisfaction
  }

  function TotalSavings(s: Savings): real
  {
    s.hrTime + s.enrollment + s.compliance + s.satisfaction
  }

  /** `_calculate_roi_projection`, with the corrected company sizing. */
  function CalculateRoiProjection(data: CalculatorData): (r: RoiProjection)
    ensures r.companySize == CompanySize(data)
    ensures r.totalInvestment == DetailedPricing(data).totalDueNow
    ensures r.currentCost == CurrentAnnualCost(r.companySize) && r.totalCurrentCost == TotalCost(r.currentCost)
    ensures r.savings == ProjectedSavings(r.currentCost) && r.totalAnnualSavings == TotalSavings(r.savings)
    ensures r.firstYearRoi == FirstYearRoi(r.totalAnnualSavings, r.totalInvestment)
    ensures r.paybackMonths == PaybackMonths(r.totalAnnualSavings, r.totalInvestment)
    ensures r.threeYearValue == r.totalAnnualSavings * 3.0 - r.totalInvestment as real
  {
    var cost := CurrentAnnualCost(CompanySize(data));
    var investment := DetailedPricing(data).totalDueNow;
    var total := TotalSavings(ProjectedSavings(cost));
    RoiProjection(CompanySize(data), investment, cost, TotalCost(cost), ProjectedSavings(cost), total,
                  FirstYearRoi(total, investment), PaybackMonths(total, investment), total * 3.0 - investment as real)
  }

  /** Annual savings for `size` employees: 36.0577… per employee above the 4000 of compliance risk. */
  lemma SavingsPerEmployee(size: int)
    ensures TotalSavings(ProjectedSavings(CurrentAnnualCost(size)))
      == size as real * (0.5 * (75000.0 / 2080.0) * 0.7 + 72.0 + 25.0) + 4000.0
  {
  }

  /** For any non-negative size the savings are at least the 4000 of reduced compliance risk. */
  lemma SavingsAtLeastCompliance(data: CalculatorData)
    requires CompanySize(data) >= 0
    ensures CalculateRoiProjection(data).totalAnnualSavings >= 4000.0
  {
    SavingsPerEmployee(CompanySize(data));
  }

  /** With savings and an investment, payback comes within a year exactly when the ROI is positive. */
  lemma PaybackIffRoi(savings: real, investment: int)
    requires savings > 0.0 && investment > 0
    ensures PaybackMonths(savings, investment) < 12.0 <==> FirstYearRoi(savings, investment) > 0.0
  {
    var m, roi, i := PaybackMonths(savings, investment), FirstYearRoi(savings, investment), investment as real;
    assert m * savings == i * 12.0;
    assert roi * i == (savings - i) * 100.0;
    assert m < 12.0 <==> i < savings by {
      if m < 12.0 { assert m * savings < 12.0 * savings; } else { assert m * savings >= 12.0 * savings; }
    }
    assert roi > 0.0 <==> i < savings by {
      if roi > 0.0 { assert roi * i > 0.0; } else { assert roi * i <= 0.0; }
    }
  }

  /** The investment pays back within the first year exactly when the first-year ROI is positive. */
  lemma PaybackWithinYearIffPositiveRoi(data: CalculatorData)
    requires CompanySize(data) >= 0
    requires CalculateRoiProjection(data).totalInvestment > 0
    ensures var r := CalculateRoiProjection(data);
      r.paybackMonths < 12.0 <==> r.firstYearRoi > 0.0
  {
    var r := CalculateRoiProjection(data);
    SavingsAtLeastCompliance(data);
    PaybackIffRoi(r.totalAnnualSavings, r.totalInvestment);
  }

  // ---------------------------------------------------------------------------
  // Proposal data and the filler's subscription argument
  // ---------------------------------------------------------------------------

  datatype Proposal = Proposal(
    clientName: string,
    clientEmail: string,
    projectName: string,
    date: int,
    validUntil: int,
    packageName: string,
    selections: CalculatorData,
    pricing: Breakdown)

  /** `generate_proposal_from_calculator` on day `today`. */
  function GenerateProposal(data: CalculatorData, today: int): (p: Proposal)
    ensures p.clientName == data.clientName.GetOr("Valued Client")
    ensures p.clientEmail == data.clientEmail.GetOr("")
    ensures p.projectName == data.projectName.GetOr(p.clientName + " Benefits Video Project")
    ensures p.date == today && p.validUntil == today + 30
    ensures p.packageName == PackageName(data) && p.selections == data
    ensures p.pricing == DetailedPricing(data)
  {
    var client := data.clientName.GetOr("Valued Client");
    Proposal(client, data.clientEmail.GetOr(""), data.projectName.GetOr(client + " Benefits Video Project"),
             today, today + 30, PackageName(data), data, DetailedPricing(data))
  }

  /** The plan and monthly amount behind `--subscription`, present only when the subscription costs something. */
  function SubscriptionArgument(p: Proposal): (r: Option<(string, real)>)
    ensures r.Some? <==> p.pricing.subscriptionTotal > 0
    ensures r.Some? ==>
      var months := p.selections.sel.subscriptionMonths.GetOr(0);
      && r.value.0 == p.selections.sel.subscriptionPlan.GetOr("none")
      && r.value.1 * (if months > 1 then months else 1) as real == p.pricing.subscriptionTotal as real
  {
    if p.pricing.subscriptionTotal > 0 then
      var months := p.selections.sel.subscriptionMonths.GetOr(0);
      var divisor := if months > 1 then months else 1;
      Some((p.selections.sel.subscriptionPlan.GetOr("none"), p.pricing.subscriptionTotal as real / divisor as real))
    else None
  }

  lemma NonPositiveProduct(a: int, b: int)
    ensures a >= 0 && b <= 0 ==> a * b <= 0
  {
  }

  /**
   * For a generated proposal the monthly amount shown is exactly the plan's
   * monthly rate: a positive total forces at least one month.
   */
  lemma SubscriptionMonthlyIsPlanRate(data: CalculatorData, today: int)
    requires GenerateProposal(data, today).pricing.subscriptionTotal > 0
    ensures var r := SubscriptionArgument(GenerateProposal(data, today));
      r.Some? && r.value.1 == Monthly(data.sel.subscriptionPlan.GetOr("none")) as real
  {
    var p := GenerateProposal(data, today);
    var months := data.sel.subscriptionMonths.GetOr(0);
    var rate := Monthly(Resolve(data.sel).subscriptionPlan);
    assert p.pricing.subscriptionTotal == rate * months;
    var r := SubscriptionArgument(p);
    DivideByMonths(p.pricing.subscriptionTotal, rate, months, r.value.1);
  }

  /** A positive total over a non-negative rate has at least one month, so dividing by the months gives the rate back. */
  lemma DivideByMonths(total: int, rate: int, months: int, x: real)
    requires rate >= 0 && total == rate * months && total > 0
    requires x * (if months > 1 then months else 1) as real == total as real
    ensures x == rate as real
  {
    NonPositiveProduct(rate, months);
    assert months >= 1;
    assert (rate * months) as real == rate as real * months as real;
    assert x * months as real == rate as real * months as real;
  }
}
