/**
 * `compute_pricing` of the Python proposal filler and SOW generator (the two
 * scripts carry the same code). The selection is a JSON object read from a
 * file, so every key may be missing; `dict.get` supplies the defaults.
 */
module ProposalPricing {
  import opened Wrappers
  import opened JsNum
  import opened PresetPricing

  /** A selections object: `None` is a missing key. */
  datatype PySelection = PySelection(
    preset: Option<string>,
    foundation: Option<bool>,
    foundationMinutes: Option<int>,
    extraMinutes: Option<int>,
    teaser: Option<bool>,
    microsite: Option<string>,
    diyLicense: Option<bool>,
    altLanguageMinutes: Option<int>,
    rush: Option<bool>,
    subscriptionPlan: Option<string>,
    subscriptionMonths: Option<int>)

  /** The returned dictionary: there is no discount list. */
  datatype PyBreakdown = PyBreakdown(
    selection: PySelection,
    lineItems: seq<LineItem>,
    subtotal: int,
    rushSurcharge: int,
    subscriptionTotal: int,
    totalDueNow: int,
    totalAllIn: int)

  /**
   * `sel.update(...)` for the good/better/best shortcuts: the preset's keys
   * become present, the others are untouched.
   */
  function PyApplyPreset(sel: PySelection): (r: PySelection)
    ensures r.preset == sel.preset && r.rush == sel.rush
    ensures r.subscriptionPlan == sel.subscriptionPlan && r.subscriptionMonths == sel.subscriptionMonths
    ensures sel.preset !in {Some("good"), Some("better"), Some("best")} ==> r == sel
  {
    var fm := Some(Max(2, sel.foundationMinutes.GetOr(2)));
    if sel.preset == Some("good") then
      sel.(foundation := Some(true), foundationMinutes := fm, extraMinutes := Some(0), teaser := Some(false),
           microsite := Some("none"), diyLicense := Some(false), altLanguageMinutes := Some(0))
    else if sel.preset == Some("better") then
      sel.(foundation := Some(true), foundationMinutes := fm, extraMinutes := Some(0), teaser := Some(false),
           microsite := Some("bundled"), diyLicense := Some(false), altLanguageMinutes := Some(0))
    else if sel.preset == Some("best") then
      sel.(foundation := Some(true), foundationMinutes := fm, extraMinutes := Some(0), teaser := Some(true),
           microsite := Some("bundled"), diyLicense := Some(true),
           altLanguageMinutes := Some(Max(2, sel.altLanguageMinutes.GetOr(2))))
    else sel
  }

  /** The line items, reading each key through `dict.get` with the script's default. */
  function PyLineItems(sel: PySelection): (r: seq<LineItem>)
    ensures sel.foundation == None ==> |r| > 0 && r[0].amount == FoundationPrice
  {
    Opt(sel.foundation.GetOr(true), LineItem(FoundationLabel(Max(2, sel.foundationMinutes.GetOr(2))), FoundationPrice))
    + Opt(sel.extraMinutes.GetOr(0) > 0, LineItem(ExtraLabel(sel.extraMinutes.GetOr(0)), sel.extraMinutes.GetOr(0) * ExtraMinutePrice))
    + Opt(sel.teaser.GetOr(false), LineItem(TeaserLabel, TeaserPrice))
    + Opt(sel.diyLicense.GetOr(false), LineItem(DiyLabel, DiyPrice))
    + Opt(sel.altLanguageMinutes.GetOr(0) > 0, LineItem(AltLabel(sel.altLanguageMinutes.GetOr(0)), sel.altLanguageMinutes.GetOr(0) * AltLanguagePerMinute))
    + (if sel.microsite == Some("standalone") then [LineItem(StandaloneLabel, MicrositeStandalone)]
       else if sel.microsite == Some("bundled") then [LineItem(BundledLabel, MicrositeBundled)]
       else [])
  }

  /** `compute_pricing(sel)`; the result carries the updated selection. */
  function PyComputePricing(input: PySelection): (b: PyBreakdown)
    ensures b.selection == PyApplyPreset(input)
    ensures b.subtotal == SumAmounts(b.lineItems)
    ensures !input.rush.GetOr(false) ==> b.rushSurcharge == 0
    ensures input.rush.GetOr(false) ==> b.rushSurcharge == PyHalf(SumAmounts(VideoItems(Resolve(b.selection))))
    ensures b.subscriptionTotal == Monthly(input.subscriptionPlan.GetOr("none")) * input.subscriptionMonths.GetOr(0)
    ensures b.totalDueNow == b.subtotal + b.rushSurcharge
    ensures b.totalAllIn == b.totalDueNow + b.subscriptionTotal
  {
    var s := PyApplyPreset(input);
    var items := PyLineItems(s);
    var subtotal := SumAmounts(items);
    var video := PrefixVideoSubtotal(items);
    var rush := if s.rush.GetOr(false) then PyHalf(video) else 0;
    var sub := Monthly(s.subscriptionPlan.GetOr("none")) * s.subscriptionMonths.GetOr(0);
    PyLineItemsResolve(s);
    VideoSubtotalOfLineItems(Resolve(s));
    PyBreakdown(s, items, subtotal, rush, sub, subtotal + rush, subtotal + rush + sub)
  }

  function PresetOf(p: Option<string>): Preset
  {
    match p
    case None => NoPreset
    case Some(name) =>
      if name == "good" then Good
      else if name == "better" then Better
      else if name == "best" then Best
      else Custom
  }

  function MicrositeOf(m: Option<string>): Microsite
  {
    if m == Some("standalone") then Standalone
    else if m == Some("bundled") then Bundled
    else NoMicrosite
  }

  /** The typed selection the `dict.get` defaults describe. */
  function Resolve(sel: PySelection): (r: Selection)
    ensures r.foundation == sel.foundation.GetOr(true)
    ensures r.microsite == MicrositeOf(sel.microsite)
  {
    Selection(PresetOf(sel.preset), sel.foundation.GetOr(true), sel.foundationMinutes.GetOr(2),
      sel.extraMinutes.GetOr(0), sel.teaser.GetOr(false), MicrositeOf(sel.microsite),
      sel.diyLicense.GetOr(false), sel.altLanguageMinutes.GetOr(0), sel.rush.GetOr(false),
      sel.subscriptionPlan.GetOr("none"), sel.subscriptionMonths.GetOr(0))
  }

  /** `Math.max(2, x || 2)` and `max(2, x)` agree on every integer. */
  lemma MaxOrTwo(x: int)
    ensures Max(2, OrTwo(x)) == Max(2, x)
  {
  }

  /** Updating the dictionary commutes with resolving its defaults. */
  lemma PresetCommutes(sel: PySelection)
    ensures Resolve(PyApplyPreset(sel)) == ApplyPreset(Resolve(sel))
  {
    MaxOrTwo(sel.foundationMinutes.GetOr(2));
    MaxOrTwo(sel.altLanguageMinutes.GetOr(2));
  }

  lemma PyLineItemsResolve(sel: PySelection)
    ensures PyLineItems(sel) == LineItems(Resolve(sel))
  {
    var s := Resolve(sel);
    assert PyLineItems(sel) == VideoItems(s) + MicrositeItems(s.microsite);
  }

  /**
   * The Python scripts and lib/pricing.ts produce the same line items,
   * subtotal and subscription total; the rush surcharge differs exactly when
   * rush is on and the video subtotal is 1 modulo 4 (Python rounds the half
   * down to even). The Python result has no discount list.
   */
  lemma PythonAgreesWithTypeScript(sel: PySelection)
    ensures var py := PyComputePricing(sel); var js := ComputePricing(Resolve(sel));
      py.lineItems == js.lineItems && py.subtotal == js.subtotal
      && py.subscriptionTotal == js.subscriptionTotal
      && Resolve(py.selection) == js.selection
      && (py.rushSurcharge != js.rushSurcharge <==>
          js.selection.rush && SumAmounts(VideoItems(js.selection)) % 4 == 1)
  {
    var s := PyApplyPreset(sel);
    PresetCommutes(sel);
    PyLineItemsResolve(s);
    HalfRoundingDiffers(SumAmounts(VideoItems(Resolve(s))));
  }

  /** The analysis engine and the Python scripts differ in nothing but the discount list. */
  lemma PythonAgreesWithAnalysis(sel: PySelection)
    ensures var py := PyComputePricing(sel); var an := AnalysisComputePricing(Resolve(sel));
      py.lineItems == an.lineItems && py.subtotal == an.subtotal && py.rushSurcharge == an.rushSurcharge
      && py.subscriptionTotal == an.subscriptionTotal && py.totalDueNow == an.totalDueNow
      && py.totalAllIn == an.totalAllIn
  {
    var s := PyApplyPreset(sel);
    PresetCommutes(sel);
    PyLineItemsResolve(s);
    VideoSubtotalOfLineItems(Resolve(s));
  }

  /** An odd video subtotal such as 4097 is halved to 2048 here, to 2049 by `Math.round`. */
  lemma OddSubtotalExample()
    ensures PyHalf(4097) == 2048 && JsHalf(4097) == 2049
  {
    HalfRoundingDiffers(4097);
  }

  /**
   * A reachable instance: without a preset, Foundation (on by default),
   * teaser and DIY with rush make a video subtotal of 5497, surcharged 2748
   * here and 2749 by lib/pricing.ts, whatever the microsite and plan.
   */
  lemma RushDivergesExample(sel: PySelection)
    requires sel.preset == None && sel.rush == Some(true)
    requires sel.foundation == None && sel.extraMinutes == None && sel.altLanguageMinutes == None
    requires sel.teaser == Some(true) && sel.diyLicense == Some(true)
    ensures PyComputePricing(sel).rushSurcharge == 2748 && ComputePricing(Resolve(sel)).rushSurcharge == 2749
  {
    var t := Resolve(sel);
    assert SumAmounts(VideoItems(t)) == 5497 by {
      VideoItemsSum(t);
    }
    HalfRoundingDiffers(5497);
  }

  /** `include_microsite`: the post-preset microsite is bundled or standalone. */
  function IncludeMicrosite(sel: PySelection): (b: bool)
    ensures b <==> MicrositeOf(sel.microsite) != NoMicrosite
  {
    sel.microsite.GetOr("none") in {"bundled", "standalone"}
  }

  /** The better and best presets always put the microsite in the SOW; good never does. */
  lemma PresetMicrositeScope(sel: PySelection)
    ensures sel.preset in {Some("better"), Some("best")} ==> IncludeMicrosite(PyComputePricing(sel).selection)
    ensures sel.preset == Some("good") ==> !IncludeMicrosite(PyComputePricing(sel).selection)
  {
  }
}
