/**
 * The subscription step of the preview calculator
 * (preview/src/components/calculator/SubscriptionPlans.tsx): choosing a
 * plan card, the months slider and the subscription total it shows. The
 * monthly rates are those of the marketing site's price list, the same
 * table the preset pricing engine reads (`PresetPricing.Monthly`). A
 * missing month count is 0, which JavaScript's `||` treats as absent.
 */
module SubscriptionPlans {
  import opened PresetPricing

  /** The two fields of the selection this step edits. */
  datatype SubscriptionChoice = SubscriptionChoice(plan: string, months: int)

  /** JavaScript `months || d` for a month count. */
  function MonthsOr(months: int, d: int): (r: int)
    ensures months != 0 ==> r == months
    ensures months == 0 ==> r == d
  {
    if months == 0 then d else months
  }

  /**
   * `handlePlanSelect`: the plan becomes the chosen one; "none" clears the
   * months, any other plan keeps a month count already set and otherwise
   * starts at a year.
   */
  function HandlePlanSelect(c: SubscriptionChoice, plan: string): (r: SubscriptionChoice)
    ensures r.plan == plan
    ensures plan == "none" ==> r.months == 0
    ensures plan != "none" && c.months != 0 ==> r.months == c.months
    ensures plan != "none" && c.months == 0 ==> r.months == 12
  {
    SubscriptionChoice(plan, if plan == "none" then 0 else MonthsOr(c.months, 12))
  }

  /** `handleMonthsChange`: the slider sets the months and leaves the plan alone. */
  function HandleMonthsChange(c: SubscriptionChoice, months: int): (r: SubscriptionChoice)
    ensures r.plan == c.plan && r.months == months
  {
    c.(months := months)
  }

  /** `calculateSubscriptionTotal`: the plan's monthly rate over the chosen months; an unknown plan costs nothing. */
  function SubscriptionTotal(c: SubscriptionChoice): (r: int)
    ensures c.plan !in {"essential", "growth", "enterprise"} ==> r == 0
    ensures c.months == 0 ==> r == 0
    ensures c.months > 0 && c.plan in {"essential", "growth", "enterprise"} ==> r >= 999 * c.months
  {
    Monthly(c.plan) * MonthsOr(c.months, 0)
  }

  /** The step's total is the subscription total the pricing engine computes for the same plan and months. */
  lemma TotalMatchesEngine(c: SubscriptionChoice, sel: Selection)
    requires sel.subscriptionPlan == c.plan && sel.subscriptionMonths == c.months
    ensures SubscriptionTotal(c) == ComputePricing(sel).subscriptionTotal
  {
  }

  /** The month count the slider and its label show: the months, or a year when none are set. */
  function SliderMonths(c: SubscriptionChoice): (r: int)
    ensures c.months != 0 ==> r == c.months
    ensures c.months == 0 ==> r == 12
  {
    MonthsOr(c.months, 12)
  }

  /** The months panel shows for any chosen plan other than "none". */
  predicate LengthSelectorShown(c: SubscriptionChoice)
  {
    c.plan != "none" && c.plan != ""
  }

  /** The annual-commitment note shows from twelve months on. */
  predicate AnnualBenefitsShown(c: SubscriptionChoice)
  {
    c.months != 0 && c.months >= 12
  }

  /** A paid plan chosen from a fresh selection shows the slider at a year, and the total is a year's fees. */
  lemma FreshPlanIsAYear(plan: string)
    requires plan in {"essential", "growth", "enterprise"}
    ensures var r := HandlePlanSelect(SubscriptionChoice("none", 0), plan);
      LengthSelectorShown(r) && SliderMonths(r) == 12 && AnnualBenefitsShown(r)
      && SubscriptionTotal(r) == 12 * Monthly(plan) && SubscriptionTotal(r) > 0
  {
  }

  /** Choosing "none" hides the months panel and leaves nothing to pay. */
  lemma NoneCostsNothing(c: SubscriptionChoice)
    ensures var r := HandlePlanSelect(c, "none");
      !LengthSelectorShown(r) && SubscriptionTotal(r) == 0
  {
  }

  /**
   * Switching between paid plans keeps the months; passing through "none"
   * forgets them, so the next paid plan starts at a year again.
   */
  lemma SwitchingPlansKeepsMonths(c: SubscriptionChoice, p: string, q: string)
    requires p != "none" && q != "none"
    ensures HandlePlanSelect(HandlePlanSelect(c, p), q).months == HandlePlanSelect(c, q).months
    ensures HandlePlanSelect(HandlePlanSelect(c, "none"), q).months == 12
  {
  }

  /** Choosing the same card twice is the same as choosing it once. */
  lemma PlanSelectIdempotent(c: SubscriptionChoice, p: string)
    ensures HandlePlanSelect(HandlePlanSelect(c, p), p) == HandlePlanSelect(c, p)
  {
  }

  /** Along the slider's 1 to 36 months the total grows with the months and stays within three years' fees. */
  lemma TotalAlongSlider(c: SubscriptionChoice, m: int, n: int)
    requires 1 <= m <= n <= 36
    ensures SubscriptionTotal(HandleMonthsChange(c, m)) <= SubscriptionTotal(HandleMonthsChange(c, n))
    ensures SubscriptionTotal(HandleMonthsChange(c, n)) <= 36 * Monthly(c.plan)
  {
    var rate := Monthly(c.plan);
    assert rate >= 0;
    assert rate * n - rate * m == rate * (n - m);
    assert 36 * rate - rate * n == rate * (36 - n);
  }
}
