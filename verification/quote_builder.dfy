/**
 * The one-page quote builder (components/PricingCalculator.tsx) over the
 * preset pricing engine of lib/pricing.ts: the starting selection, the
 * configuration-progress meter, the clamped number inputs and the preset
 * buttons. The engine runs on a copy of the selection, so the preset
 * shortcuts it applies show in the quote but never in the builder's state;
 * in this model that is `ComputePricing` returning the adjusted selection
 * beside the quote while the state stays as it was.
 */
module QuoteBuilder {
  import opened JsNum
  import opened PresetPricing

  /** The builder's starting selection: the custom preset, a two-minute foundation, twelve months of no plan. */
  const DefaultSelection := Selection(Custom, true, 2, 0, false, NoMicrosite, false, 0, false, "none", 12)

  /** Some add-on is chosen in the builder's own state. */
  predicate AddOnChosen(sel: Selection)
  {
    sel.microsite != NoMicrosite || sel.teaser || sel.diyLicense || sel.altLanguageMinutes > 0
  }

  function Quarter(b: bool): nat
  {
    if b then 25 else 0
  }

  /**
   * `calculateProgress`: a quarter each for a package preset (anything but
   * custom), the foundation, an add-on and a positive amount due now, read
   * from the builder's state except the last, which comes from the quote.
   */
  function CalculateProgress(sel: Selection): (r: int)
    ensures r in {0, 25, 50, 75, 100}
    ensures r == 25 * Holding([sel.preset != Custom, sel.foundation, AddOnChosen(sel),
                               ComputePricing(sel).totalDueNow > 0])
    ensures r == 100 <==> sel.preset != Custom && sel.foundation && AddOnChosen(sel) && ComputePricing(sel).totalDueNow > 0
    ensures r == 0 <==> sel.preset == Custom && !sel.foundation && !AddOnChosen(sel) && ComputePricing(sel).totalDueNow <= 0
  {
    var a, b, c, d := sel.preset != Custom, sel.foundation, AddOnChosen(sel), ComputePricing(sel).totalDueNow > 0;
    QuartersCount(a, b, c, d);
    var progress := Quarter(a) + Quarter(b) + Quarter(c) + Quarter(d);
    Min(progress, 100)
  }

  /** The number of checks that hold. */
  function Holding(checks: seq<bool>): nat
  {
    if |checks| == 0 then 0 else (if checks[0] then 1 else 0) + Holding(checks[1..])
  }

  /** Four quarters add up to 25 for each check that holds. */
  lemma QuartersCount(a: bool, b: bool, c: bool, d: bool)
    ensures Quarter(a) + Quarter(b) + Quarter(c) + Quarter(d) == 25 * Holding([a, b, c, d])
  {
    assert Holding([d]) == Quarter(d) / 25 by {
      assert [d][1..] == [];
    }
    assert Holding([c, d]) == Quarter(c) / 25 + Holding([d]) by {
      assert [c, d][1..] == [d];
    }
    assert Holding([b, c, d]) == Quarter(b) / 25 + Holding([c, d]) by {
      assert [b, c, d][1..] == [c, d];
    }
    assert Holding([a, b, c, d]) == Quarter(a) / 25 + Holding([b, c, d]) by {
      assert [a, b, c, d][1..] == [b, c, d];
    }
  }

  /** The number inputs keep these bounds. */
  predicate InputsInRange(sel: Selection)
  {
    sel.foundationMinutes >= 2 && sel.extraMinutes >= 0 && sel.altLanguageMinutes >= 0 && sel.subscriptionMonths >= 0
  }

  /** The "Foundation Minutes" input: never below 2. */
  function SetFoundationMinutes(sel: Selection, v: int): (r: Selection)
    ensures r.foundationMinutes >= 2 && (v >= 2 ==> r.foundationMinutes == v)
    ensures r == sel.(foundationMinutes := r.foundationMinutes)
  {
    sel.(foundationMinutes := Max(2, v))
  }

  /** The "Extra Minutes" input: never negative. */
  function SetExtraMinutes(sel: Selection, v: int): (r: Selection)
    ensures r.extraMinutes >= 0 && (v >= 0 ==> r.extraMinutes == v)
    ensures r == sel.(extraMinutes := r.extraMinutes)
  {
    sel.(extraMinutes := Max(0, v))
  }

  /** The "Alt-language minutes" input: never negative. */
  function SetAltLanguageMinutes(sel: Selection, v: int): (r: Selection)
    ensures r.altLanguageMinutes >= 0 && (v >= 0 ==> r.altLanguageMinutes == v)
    ensures r == sel.(altLanguageMinutes := r.altLanguageMinutes)
  {
    sel.(altLanguageMinutes := Max(0, v))
  }

  /** The "Months" input: never negative. */
  function SetSubscriptionMonths(sel: Selection, v: int): (r: Selection)
    ensures r.subscriptionMonths >= 0 && (v >= 0 ==> r.subscriptionMonths == v)
    ensures r == sel.(subscriptionMonths := r.subscriptionMonths)
  {
    sel.(subscriptionMonths := Max(0, v))
  }

  /** `handlePreset`: only the preset changes. */
  function HandlePreset(sel: Selection, p: Preset): (r: Selection)
    ensures r.preset == p
    ensures r.(preset := sel.preset) == sel
  {
    sel.(preset := p)
  }

  /** The starting selection is in range, and every input and preset button keeps a selection in range. */
  lemma InputsStayInRange(sel: Selection, v: int, p: Preset)
    requires InputsInRange(sel)
    ensures InputsInRange(DefaultSelection)
    ensures InputsInRange(SetFoundationMinutes(sel, v)) && InputsInRange(SetExtraMinutes(sel, v))
    ensures InputsInRange(SetAltLanguageMinutes(sel, v)) && InputsInRange(SetSubscriptionMonths(sel, v))
    ensures InputsInRange(HandlePreset(sel, p))
  {
  }

  /** The video items never cost a negative amount. */
  lemma VideoPriceNonNegative(s: Selection)
    ensures VideoPrice(s) >= 0
  {
  }

  /** With the inputs in range the quote is never negative and the all-in total covers the amount due now. */
  lemma QuoteNonNegative(sel: Selection)
    requires InputsInRange(sel)
    ensures var b := ComputePricing(sel);
      b.subtotal >= 0 && b.rushSurcharge >= 0 && b.subscriptionTotal >= 0 && b.totalAllIn >= b.totalDueNow >= 0
  {
    var b := ComputePricing(sel);
    VideoPriceNonNegative(b.selection);
    SumAmountsNonNegative(VideoItems(b.selection));
  }

  /** The starting selection is half done: a foundation and a positive price, no package, no add-on. */
  lemma DefaultProgressIsHalf()
    ensures CalculateProgress(DefaultSelection) == 50
  {
    var b := ComputePricing(DefaultSelection);
    assert b.selection == DefaultSelection;
    assert ListPrice(DefaultSelection) == FoundationPrice;
    VideoPriceNonNegative(DefaultSelection);
    SumAmountsNonNegative(VideoItems(DefaultSelection));
  }

  /** The good package quotes the foundation alone, whatever the state's minutes and add-ons say. */
  lemma GoodPresetQuote(sel: Selection)
    ensures ComputePricing(HandlePreset(sel, Good)).subtotal == FoundationPrice
  {
    var s := ApplyPreset(HandlePreset(sel, Good));
    assert ListPrice(s) == FoundationPrice;
  }

  /**
   * The meter reads the builder's state, not the quote: with the good
   * package and the foundation box cleared, the quote still holds the
   * foundation but the meter does not count it.
   */
  lemma ProgressReadsStateNotQuote(sel: Selection)
    requires sel.preset == Good && !sel.foundation
    ensures ComputePricing(sel).selection.foundation
    ensures CalculateProgress(sel) < 100
  {
  }
}
