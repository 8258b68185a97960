/**
 * The preset-based pricing engine: a Foundation video with optional extra
 * minutes, teaser, DIY licence, alternative-language minutes and a Benefits
 * Break microsite, a rush surcharge on the video items and a subscription.
 *
 * `ComputePricing` is the TypeScript engine (lib/pricing.ts); the engine
 * nested in the campaign analysis script is `AnalysisComputePricing`. The
 * two differ only in how the rush base is matched and rounded; the Python
 * proposal and SOW scripts are modelled in `ProposalPricing`.
 */
module PresetPricing {
  import opened Strings
  import opened JsNum

  datatype Preset = NoPreset | Good | Better | Best | Custom

  datatype Microsite = NoMicrosite | Standalone | Bundled

  datatype Selection = Selection(
    preset: Preset,
    foundation: bool,
    foundationMinutes: int,
    extraMinutes: int,
    teaser: bool,
    microsite: Microsite,
    diyLicense: bool,
    altLanguageMinutes: int,
    rush: bool,
    subscriptionPlan: string,
    subscriptionMonths: int)

  datatype LineItem = LineItem(title: string, amount: int)

  /**
   * The result, together with the selection as the presets left it: the
   * engines overwrite the caller's selection in place.
   */
  datatype Breakdown = Breakdown(
    selection: Selection,
    lineItems: seq<LineItem>,
    discountItems: seq<LineItem>,
    subtotal: int,
    rushSurcharge: int,
    subscriptionTotal: int,
    totalDueNow: int,
    totalAllIn: int)

  const FoundationPrice := 2499
  const ExtraMinutePrice := 799
  const TeaserPrice := 999
  const DiyPrice := 1999
  const AltLanguagePerMinute := 299
  const MicrositeStandalone := 4999
  const MicrositeBundled := 3999

  /** Monthly subscription rate; an unknown plan costs nothing. */
  function Monthly(plan: string): (m: int)
    ensures plan == "essential" ==> m == 999
    ensures plan == "growth" ==> m == 2499
    ensures plan == "enterprise" ==> m == 4999
    ensures plan !in {"essential", "growth", "enterprise"} ==> m == 0
  {
    if plan == "essential" then 999
    else if plan == "growth" then 2499
    else if plan == "enterprise" then 4999
    else 0
  }

  /** JavaScript `x || 2` for a number. */
  function OrTwo(x: int): int { if x == 0 then 2 else x }

  predicate IsPackage(p: Preset) { p == Good || p == Better || p == Best }

  /**
   * The good/better/best shortcuts overwrite the content fields of the
   * selection; rush, subscription and the preset itself are kept.
   */
  function ApplyPreset(sel: Selection): (r: Selection)
    ensures r.preset == sel.preset && r.rush == sel.rush
    ensures r.subscriptionPlan == sel.subscriptionPlan && r.subscriptionMonths == sel.subscriptionMonths
    ensures !IsPackage(sel.preset) ==> r == sel
    ensures IsPackage(sel.preset) ==>
      r.foundation && r.foundationMinutes >= 2 && r.extraMinutes == 0
      && r.foundationMinutes == Max(2, sel.foundationMinutes)
    ensures sel.preset == Good ==> r.microsite == NoMicrosite && !r.teaser && !r.diyLicense && r.altLanguageMinutes == 0
    ensures sel.preset == Better ==> r.microsite == Bundled && !r.teaser && !r.diyLicense && r.altLanguageMinutes == 0
    ensures sel.preset == Best ==>
      (r.microsite == Bundled && r.teaser && r.diyLicense && r.altLanguageMinutes == Max(2, sel.altLanguageMinutes))
  {
    var fm := Max(2, OrTwo(sel.foundationMinutes));
    match sel.preset
    case Good =>
      sel.(foundation := true, foundationMinutes := fm, extraMinutes := 0, teaser := false,
           microsite := NoMicrosite, diyLicense := false, altLanguageMinutes := 0)
    case Better =>
      sel.(foundation := true, foundationMinutes := fm, extraMinutes := 0, teaser := false,
           microsite := Bundled, diyLicense := false, altLanguageMinutes := 0)
    case Best =>
      sel.(foundation := true, foundationMinutes := fm, extraMinutes := 0, teaser := true,
           microsite := Bundled, diyLicense := true, altLanguageMinutes := Max(2, OrTwo(sel.altLanguageMinutes)))
    case _ => sel
  }

  /** Applying a preset a second time changes nothing. */
  lemma ApplyPresetIdempotent(sel: Selection)
    ensures ApplyPreset(ApplyPreset(sel)) == ApplyPreset(sel)
  {
  }

  const TeaserLabel: string := "OE Teaser (\U{2264}1 min)"
  const DiyLabel: string := "DIY PPT\U{2192}Video License (AI VO)"
  const StandaloneLabel: string := "Benefits Break Microsite (standalone)"
  const BundledLabel: string := "Benefits Break Microsite (bundled)"
  const BundleDiscount: LineItem := LineItem("Bundle savings vs. standalone microsite", MicrositeStandalone - MicrositeBundled)

  const FoundationHead: string := "Foundation"
  const ExtraHead: string := "Additional Explainer Minutes"
  const AltHead: string := "Alt\U{2011}Language Versions"

  function FoundationLabel(minutes: int): string
  {
    FoundationHead + " (includes up to " + IntToString(minutes) + " min)"
  }

  function ExtraLabel(minutes: int): string
  {
    ExtraHead + " (" + IntToString(minutes) + " \U{00D7} $799)"
  }

  function AltLabel(minutes: int): string
  {
    AltHead + " (" + IntToString(minutes) + " min \U{00D7} $299)"
  }

  /** The labels whose items carry the rush surcharge, in source order. */
  const VideoLabels: seq<string> := [FoundationHead, ExtraHead, TeaserLabel, DiyLabel, AltHead]

  function Opt(c: bool, item: LineItem): (r: seq<LineItem>)
    ensures |r| == if c then 1 else 0
    ensures c ==> r[0] == item
  {
    if c then [item] else []
  }

  function FoundationItems(s: Selection): seq<LineItem>
  {
    Opt(s.foundation, LineItem(FoundationLabel(Max(2, s.foundationMinutes)), FoundationPrice))
  }

  function ExtraItems(s: Selection): seq<LineItem>
  {
    Opt(s.extraMinutes > 0, LineItem(ExtraLabel(s.extraMinutes), s.extraMinutes * ExtraMinutePrice))
  }

  function TeaserItems(s: Selection): seq<LineItem>
  {
    Opt(s.teaser, LineItem(TeaserLabel, TeaserPrice))
  }

  function DiyItems(s: Selection): seq<LineItem>
  {
    Opt(s.diyLicense, LineItem(DiyLabel, DiyPrice))
  }

  function AltItems(s: Selection): seq<LineItem>
  {
    Opt(s.altLanguageMinutes > 0, LineItem(AltLabel(s.altLanguageMinutes), s.altLanguageMinutes * AltLanguagePerMinute))
  }

  /** The video-related line items, in the order the engines push them. */
  function VideoItems(s: Selection): (r: seq<LineItem>)
    ensures |r| <= 5
    ensures forall i :: 0 <= i < |r| ==> r[i].amount > 0
  {
    FoundationItems(s) + ExtraItems(s) + TeaserItems(s) + DiyItems(s) + AltItems(s)
  }

  function MicrositeLabel(m: Microsite): string
    requires m != NoMicrosite
  {
    if m == Standalone then StandaloneLabel else BundledLabel
  }

  function MicrositeItems(m: Microsite): (r: seq<LineItem>)
    ensures |r| == if m == NoMicrosite then 0 else 1
  {
    if m == NoMicrosite then [] else [LineItem(MicrositeLabel(m), MicrositePrice(m))]
  }

  /** All line items of a (post-preset) selection: video items, then the microsite. */
  function LineItems(s: Selection): (r: seq<LineItem>)
    ensures |r| <= 6
    ensures forall i :: 0 <= i < |r| ==> r[i].amount > 0
  {
    VideoItems(s) + MicrositeItems(s.microsite)
  }

  function SumAmounts(items: seq<LineItem>): int
    decreases |items|
  {
    if |items| == 0 then 0 else items[0].amount + SumAmounts(items[1..])
  }

  lemma {:induction false} SumAmountsConcat(a: seq<LineItem>, b: seq<LineItem>)
    ensures SumAmounts(a + b) == SumAmounts(a) + SumAmounts(b)
    decreases |a|
  {
    if |a| == 0 {
      assert a + b == b;
    } else {
      assert (a + b)[1..] == a[1..] + b;
      SumAmountsConcat(a[1..], b);
    }
  }

  lemma {:induction false} SumAmountsNonNegative(items: seq<LineItem>)
    requires forall i :: 0 <= i < |items| ==> items[i].amount >= 0
    ensures SumAmounts(items) >= 0
    decreases |items|
  {
    if |items| > 0 {
      SumAmountsNonNegative(items[1..]);
    }
  }

  /** The price of the video items as a closed formula over the fields. */
  function VideoPrice(s: Selection): int
  {
    (if s.foundation then FoundationPrice else 0)
    + (if s.extraMinutes > 0 then s.extraMinutes * ExtraMinutePrice else 0)
    + (if s.teaser then TeaserPrice else 0)
    + (if s.diyLicense then DiyPrice else 0)
    + (if s.altLanguageMinutes > 0 then s.altLanguageMinutes * AltLanguagePerMinute else 0)
  }

  function MicrositePrice(m: Microsite): int
  {
    match m
    case NoMicrosite => 0
    case Standalone => MicrositeStandalone
    case Bundled => MicrositeBundled
  }

  /** The price of a selection as a closed formula over its fields. */
  function ListPrice(s: Selection): int
  {
    VideoPrice(s) + MicrositePrice(s.microsite)
  }

  /**
   * The video items add up to the video price: Foundation is a flat 2499
   * for any number of minutes, which only appear in its label.
   */
  lemma VideoItemsSum(s: Selection)
    ensures SumAmounts(VideoItems(s)) == VideoPrice(s)
  {
    var f, e, t, d, a := FoundationItems(s), ExtraItems(s), TeaserItems(s), DiyItems(s), AltItems(s);
    SumAmountsConcat(f + e + t + d, a);
    SumAmountsConcat(f + e + t, d);
    SumAmountsConcat(f + e, t);
    SumAmountsConcat(f, e);
  }

  /** All line items add up to the list price. */
  lemma SubtotalIsListPrice(s: Selection)
    ensures SumAmounts(LineItems(s)) == ListPrice(s)
  {
    VideoItemsSum(s);
    SumAmountsConcat(VideoItems(s), MicrositeItems(s.microsite));
  }

  /** `labels.some(v => label.indexOf(v) === 0)` / `label.startswith(labels)`. */
  function AnyPrefix(lbl: string, labels: seq<string>): (b: bool)
    ensures b <==> exists k :: 0 <= k < |labels| && StartsWith(lbl, labels[k])
    decreases |labels|
  {
    if |labels| == 0 then false
    else StartsWith(lbl, labels[0]) || AnyPrefix(lbl, labels[1..])
  }

  /** `any(v in label for v in labels)`. */
  function AnySubstring(lbl: string, labels: seq<string>): (b: bool)
    ensures b <==> exists k :: 0 <= k < |labels| && Contains(lbl, labels[k])
    decreases |labels|
  {
    if |labels| == 0 then false
    else Contains(lbl, labels[0]) || AnySubstring(lbl, labels[1..])
  }

  /** Sum of the items whose label starts with a video label. */
  function PrefixVideoSubtotal(items: seq<LineItem>): int
    decreases |items|
  {
    if |items| == 0 then 0
    else (if AnyPrefix(items[0].title, VideoLabels) then items[0].amount else 0) + PrefixVideoSubtotal(items[1..])
  }

  /** Sum of the items whose lbl contains a video lbl. */
  function SubstringVideoSubtotal(items: seq<LineItem>): int
    decreases |items|
  {
    if |items| == 0 then 0
    else (if AnySubstring(items[0].title, VideoLabels) then items[0].amount else 0) + SubstringVideoSubtotal(items[1..])
  }

  lemma {:induction false} VideoSubtotalConcat(a: seq<LineItem>, b: seq<LineItem>)
    ensures PrefixVideoSubtotal(a + b) == PrefixVideoSubtotal(a) + PrefixVideoSubtotal(b)
    ensures SubstringVideoSubtotal(a + b) == SubstringVideoSubtotal(a) + SubstringVideoSubtotal(b)
    decreases |a|
  {
    if |a| == 0 {
      assert a + b == b;
    } else {
      assert (a + b)[1..] == a[1..] + b;
      VideoSubtotalConcat(a[1..], b);
    }
  }

  lemma StartsWithConcat(a: string, b: string, p: string)
    requires StartsWith(a, p)
    ensures StartsWith(a + b, p)
  {
    assert (a + b)[..|p|] == a[..|p|];
  }

  /** Both tests accept a label that starts with the k-th video label. */
  predicate Matched(items: seq<LineItem>)
  {
    forall i :: 0 <= i < |items| ==> AnyPrefix(items[i].title, VideoLabels) && AnySubstring(items[i].title, VideoLabels)
  }

  lemma LabelMatched(lbl: string, k: int)
    requires 0 <= k < |VideoLabels| && StartsWith(lbl, VideoLabels[k])
    ensures Matched([LineItem(lbl, 0)])
    ensures AnyPrefix(lbl, VideoLabels) && AnySubstring(lbl, VideoLabels)
  {
    StartsWithContains(lbl, VideoLabels[k]);
  }

  lemma MatchedConcat(a: seq<LineItem>, b: seq<LineItem>)
    requires Matched(a) && Matched(b)
    ensures Matched(a + b)
  {
    forall i | 0 <= i < |a + b|
      ensures AnyPrefix((a + b)[i].title, VideoLabels) && AnySubstring((a + b)[i].title, VideoLabels)
    {
      if i < |a| {
        assert (a + b)[i] == a[i];
      } else {
        assert (a + b)[i] == b[i - |a|];
      }
    }
  }

  /** A label made of a video label and a suffix is matched by both tests. */
  lemma PrefixedMatched(k: int, suffix: string)
    requires 0 <= k < |VideoLabels|
    ensures AnyPrefix(VideoLabels[k] + suffix, VideoLabels) && AnySubstring(VideoLabels[k] + suffix, VideoLabels)
  {
    StartsWithConcat(VideoLabels[k], suffix, VideoLabels[k]);
    LabelMatched(VideoLabels[k] + suffix, k);
  }

  lemma HeadThenTail(head: string, a: string, b: string, c: string)
    ensures head + a + b + c == head + (a + b + c)
  {
  }

  lemma FoundationMatched(s: Selection)
    ensures Matched(FoundationItems(s))
  {
    var tail := " (includes up to " + IntToString(Max(2, s.foundationMinutes)) + " min)";
    PrefixedMatched(0, tail);
    HeadThenTail(FoundationHead, " (includes up to ", IntToString(Max(2, s.foundationMinutes)), " min)");
  }

  lemma ExtraMatched(s: Selection)
    ensures Matched(ExtraItems(s))
  {
    var tail := " (" + IntToString(s.extraMinutes) + " \U{00D7} $799)";
    PrefixedMatched(1, tail);
    HeadThenTail(ExtraHead, " (", IntToString(s.extraMinutes), " \U{00D7} $799)");
  }

  lemma TeaserMatched(s: Selection)
    ensures Matched(TeaserItems(s))
  {
    PrefixedMatched(2, "");
    assert TeaserLabel == VideoLabels[2] + "";
  }

  lemma DiyMatched(s: Selection)
    ensures Matched(DiyItems(s))
  {
    PrefixedMatched(3, "");
    assert DiyLabel == VideoLabels[3] + "";
  }

  lemma AltMatched(s: Selection)
    ensures Matched(AltItems(s))
  {
    var tail := " (" + IntToString(s.altLanguageMinutes) + " min \U{00D7} $299)";
    PrefixedMatched(4, tail);
    HeadThenTail(AltHead, " (", IntToString(s.altLanguageMinutes), " min \U{00D7} $299)");
  }

  /** Every video item is matched by both tests. */
  lemma VideoItemsMatched(s: Selection)
    ensures Matched(VideoItems(s))
  {
    var f, e, t, d, a := FoundationItems(s), ExtraItems(s), TeaserItems(s), DiyItems(s), AltItems(s);
    FoundationMatched(s);
    ExtraMatched(s);
    TeaserMatched(s);
    DiyMatched(s);
    AltMatched(s);
    MatchedConcat(f, e);
    MatchedConcat(f + e, t);
    MatchedConcat(f + e + t, d);
    MatchedConcat(f + e + t + d, a);
  }

  /** The first letters of the video labels. */
  predicate IsVideoInitial(c: char)
  {
    c == 'F' || c == 'A' || c == 'O' || c == 'D'
  }

  predicate NoVideoInitials(lbl: string)
  {
    forall i :: 0 <= i < |lbl| ==> !IsVideoInitial(lbl[i])
  }

  /** A label with none of the video labels' first letters matches neither test. */
  lemma UnmatchedByInitials(lbl: string)
    requires NoVideoInitials(lbl)
    ensures !AnyPrefix(lbl, VideoLabels) && !AnySubstring(lbl, VideoLabels)
  {
    forall k | 0 <= k < |VideoLabels| ensures !Contains(lbl, VideoLabels[k]) {
      assert IsVideoInitial(VideoLabels[k][0]);
      FirstCharAbsent(lbl, VideoLabels[k]);
    }
  }

  lemma StandaloneLacksInitials()
    ensures NoVideoInitials(StandaloneLabel)
  {
  }

  lemma BundledLacksInitials()
    ensures NoVideoInitials(BundledLabel)
  {
  }

  /** No microsite label contains (let alone starts with) a video label. */
  lemma MicrositeNeverMatched(m: Microsite)
    requires m != NoMicrosite
    ensures !AnyPrefix(MicrositeLabel(m), VideoLabels)
    ensures !AnySubstring(MicrositeLabel(m), VideoLabels)
  {
    if m == Standalone {
      StandaloneLacksInitials();
    } else {
      BundledLacksInitials();
    }
    UnmatchedByInitials(MicrositeLabel(m));
  }

  lemma {:induction false} AllMatchedSubtotal(items: seq<LineItem>)
    requires forall i :: 0 <= i < |items| ==> AnyPrefix(items[i].title, VideoLabels) && AnySubstring(items[i].title, VideoLabels)
    ensures PrefixVideoSubtotal(items) == SubstringVideoSubtotal(items) == SumAmounts(items)
    decreases |items|
  {
    if |items| > 0 {
      AllMatchedSubtotal(items[1..]);
    }
  }

  /** Matched items followed by at most one unmatched item: both subtotals are the matched items' sum. */
  lemma MatchedThenUnmatched(v: seq<LineItem>, m: seq<LineItem>)
    requires Matched(v) && |m| <= 1
    requires |m| == 1 ==> !AnyPrefix(m[0].title, VideoLabels) && !AnySubstring(m[0].title, VideoLabels)
    ensures PrefixVideoSubtotal(v + m) == SumAmounts(v)
    ensures SubstringVideoSubtotal(v + m) == SumAmounts(v)
  {
    AllMatchedSubtotal(v);
    VideoSubtotalConcat(v, m);
    if |m| == 1 {
      assert m[1..] == [];
    }
  }

  /**
   * Rush applies to exactly the video items, whichever way the labels are
   * matched: the microsite line is never surcharged.
   */
  lemma VideoSubtotalOfLineItems(s: Selection)
    ensures PrefixVideoSubtotal(LineItems(s)) == SumAmounts(VideoItems(s))
    ensures SubstringVideoSubtotal(LineItems(s)) == SumAmounts(VideoItems(s))
  {
    var v := VideoItems(s);
    var m := MicrositeItems(s.microsite);
    assert Matched(v) by {
      VideoItemsMatched(s);
    }
    assert |m| == 1 ==> !AnyPrefix(m[0].title, VideoLabels) && !AnySubstring(m[0].title, VideoLabels) by {
      if s.microsite != NoMicrosite {
        MicrositeNeverMatched(s.microsite);
      }
    }
    MatchedThenUnmatched(v, m);
  }

  /**
   * The TypeScript rush surcharge: `Math.round` of half the items whose label
   * starts with a video label, which are exactly the video items. Half is
   * written `/ 2.0`, the same real as the source's `* 0.5`.
   */
  function JsRush(s: Selection): (r: int)
    ensures s.rush ==> r == JsHalf(SumAmounts(VideoItems(s)))
    ensures !s.rush ==> r == 0
  {
    var video := PrefixVideoSubtotal(LineItems(s));
    VideoSubtotalOfLineItems(s);
    if s.rush then JsHalf(video) else 0
  }

  /**
   * The analysis script's rush surcharge: Python's `round` of half the items
   * whose label contains a video label, again exactly the video items.
   */
  function AnalysisRush(s: Selection): (r: int)
    ensures s.rush ==> r == PyHalf(SumAmounts(VideoItems(s)))
    ensures !s.rush ==> r == 0
  {
    var video := SubstringVideoSubtotal(LineItems(s));
    VideoSubtotalOfLineItems(s);
    if s.rush then PyHalf(video) else 0
  }

  function DiscountItems(m: Microsite): (r: seq<LineItem>)
    ensures |r| <= 1
    ensures |r| == 1 <==> m == Bundled
  {
    if m == Bundled then [BundleDiscount] else []
  }

  /**
   * lib/pricing.ts `computePricing`. The bundle discount item is reported
   * but not subtracted from any total.
   */
  function ComputePricing(input: Selection): (b: Breakdown)
    ensures b.selection == ApplyPreset(input)
    ensures b.subtotal == SumAmounts(b.lineItems) == ListPrice(b.selection)
    ensures |b.discountItems| == 1 <==> b.selection.microsite == Bundled
    ensures !input.rush ==> b.rushSurcharge == 0
    ensures input.rush ==> b.rushSurcharge == JsHalf(SumAmounts(VideoItems(b.selection)))
    ensures input.rush ==> 2 * b.rushSurcharge - 1 <= SumAmounts(VideoItems(b.selection)) < 2 * b.rushSurcharge + 1
    ensures b.subscriptionTotal == Monthly(input.subscriptionPlan) * input.subscriptionMonths
    ensures b.totalDueNow == b.subtotal + b.rushSurcharge
    ensures b.totalAllIn == b.totalDueNow + b.subscriptionTotal
  {
    var s := ApplyPreset(input);
    var items := LineItems(s);
    var subtotal := SumAmounts(items);
    var rush := JsRush(s);
    var sub := Monthly(s.subscriptionPlan) * s.subscriptionMonths;
    SubtotalIsListPrice(s);
    Breakdown(s, items, DiscountItems(s.microsite), subtotal, rush, sub, subtotal + rush, subtotal + rush + sub)
  }

  /**
   * The nested `computePricing` of the campaign analysis script: the same
   * items and discount, but the rush base matches labels by substring and is
   * rounded with Python's `round`.
   */
  function AnalysisComputePricing(input: Selection): (b: Breakdown)
    ensures b.selection == ApplyPreset(input)
    ensures b.subtotal == SumAmounts(b.lineItems) == ListPrice(b.selection)
    ensures |b.discountItems| == 1 <==> b.selection.microsite == Bundled
    ensures !input.rush ==> b.rushSurcharge == 0
    ensures input.rush ==> b.rushSurcharge == PyHalf(SumAmounts(VideoItems(b.selection)))
    ensures input.rush ==> 2 * b.rushSurcharge - 1 <= SumAmounts(VideoItems(b.selection)) <= 2 * b.rushSurcharge + 1
    ensures b.totalDueNow == b.subtotal + b.rushSurcharge
    ensures b.totalAllIn == b.totalDueNow + b.subscriptionTotal
  {
    var s := ApplyPreset(input);
    var items := LineItems(s);
    var subtotal := SumAmounts(items);
    var rush := AnalysisRush(s);
    var sub := Monthly(s.subscriptionPlan) * s.subscriptionMonths;
    SubtotalIsListPrice(s);
    Breakdown(s, items, DiscountItems(s.microsite), subtotal, rush, sub, subtotal + rush, subtotal + rush + sub)
  }

  /** With non-negative months, totalAllIn >= totalDueNow >= subtotal >= 0. */
  lemma TotalsOrdered(input: Selection)
    requires input.subscriptionMonths >= 0
    ensures var b := ComputePricing(input);
      0 <= b.subtotal <= b.totalDueNow <= b.totalAllIn
  {
    var s := ApplyPreset(input);
    SumAmountsNonNegative(LineItems(s));
    SumAmountsNonNegative(VideoItems(s));
  }

  /**
   * The two engines agree on everything but the rush surcharge, and that
   * differs exactly when rush is on and the video subtotal is 1 modulo 4.
   */
  lemma AnalysisAgreesWithTypeScript(input: Selection)
    ensures var js := ComputePricing(input); var py := AnalysisComputePricing(input);
      js.selection == py.selection && js.lineItems == py.lineItems
      && js.discountItems == py.discountItems && js.subtotal == py.subtotal
      && js.subscriptionTotal == py.subscriptionTotal
      && (js.rushSurcharge != py.rushSurcharge <==>
          input.rush && SumAmounts(VideoItems(ApplyPreset(input))) % 4 == 1)
  {
    HalfRoundingDiffers(SumAmounts(VideoItems(ApplyPreset(input))));
  }

  /**
   * Foundation, teaser and DIY with rush, whatever the minutes and the
   * microsite, make a video subtotal of 5497: rush 2749 here, 2748 in Python.
   */
  lemma RushRoundingExample(sel: Selection)
    requires sel.preset == Custom && sel.rush
    requires sel.foundation && sel.extraMinutes == 0 && sel.teaser && sel.diyLicense && sel.altLanguageMinutes == 0
    ensures ComputePricing(sel).rushSurcharge == 2749 && AnalysisComputePricing(sel).rushSurcharge == 2748
  {
    assert SumAmounts(VideoItems(sel)) == 5497 by {
      VideoItemsSum(sel);
    }
    HalfRoundingDiffers(5497);
  }

  /**
   * The best preset zeroes extra minutes even when some are supplied: it
   * always yields Foundation, teaser, DIY, alternative language and the
   * bundled microsite, with a 1000 discount item beside them.
   */
  lemma BestPresetItems(input: Selection)
    requires input.preset == Best
    ensures var b := ComputePricing(input);
      b.selection.extraMinutes == 0 && |b.lineItems| == 5
      && b.lineItems[4] == LineItem(BundledLabel, MicrositeBundled)
      && b.discountItems == [LineItem("Bundle savings vs. standalone microsite", 1000)]
  {
  }
}
