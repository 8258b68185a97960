/**
 * The service-based pricing engine of the marketing site
 * (apps/mybenefitsvideos/src/lib/pricing.ts) and its predecessor
 * (apps/mybenefitsvideos/src/lib/pricing-old.ts). Both price the same eight
 * optional services at the same amounts and in the same order; they differ
 * in how the lines are categorised, which categories the rush surcharge
 * covers, whether a subscription is charged, the delivery estimate and the
 * ROI arithmetic.
 */
module ServicePricing {
  import opened Wrappers
  import opened Strings
  import opened JsNum
  import PresetPricing

  datatype Engine = Current | Legacy

  datatype VideoType = Standard | SemiCustom | FullCustom | FullAnimation
  datatype WebsiteType = NoWebsite | BenefitsBreak | FullBenefits | CustomPortal

  datatype ServiceSelection = ServiceSelection(
    videoType: VideoType,
    videoMinutes: int,
    oeTeaserVideo: bool,
    altLanguageMinutes: int,
    diyPowerpoint: bool,
    diyHumanVoice: bool,
    pptAltLanguage: bool,
    pptAltLanguageHumanVoice: bool,
    videoUpdates: bool,
    videoUpdatesWithVoice: bool,
    rush: bool,
    websiteType: WebsiteType,
    subscriptionPlan: string,
    subscriptionMonths: int)

  /** `defaultPricingSelections`: two standard minutes and nothing else. */
  const DefaultSelection := ServiceSelection(Standard, 2, false, 0, false, false, false, false, false, false,
                                             false, NoWebsite, "none", 0)

  /** The services a quote can contain, in the order the engines list them. */
  datatype ItemKind = MainVideo | Teaser | AltLanguage | DiyLicense | PptAltLanguage | VideoUpdates
                    | WebsiteInitial | WebsiteAnnual

  const AllKinds: seq<ItemKind> := [MainVideo, Teaser, AltLanguage, DiyLicense, PptAltLanguage, VideoUpdates,
                                    WebsiteInitial, WebsiteAnnual]

  function KindIndex(k: ItemKind): (i: nat)
    ensures i < |AllKinds| && AllKinds[i] == k
  {
    match k
    case MainVideo => 0
    case Teaser => 1
    case AltLanguage => 2
    case DiyLicense => 3
    case PptAltLanguage => 4
    case VideoUpdates => 5
    case WebsiteInitial => 6
    case WebsiteAnnual => 7
  }

  /** Kinds listed in the engines' order, each at most once. */
  ghost predicate KindsAscending(ks: seq<ItemKind>)
  {
    forall i, j :: 0 <= i < j < |ks| ==> KindIndex(ks[i]) < KindIndex(ks[j])
  }

  lemma IndexOfAllKinds(i: nat)
    requires i < |AllKinds|
    ensures KindIndex(AllKinds[i]) == i
  {
    if i == 0 {} else if i == 1 {} else if i == 2 {} else if i == 3 {}
    else if i == 4 {} else if i == 5 {} else if i == 6 {} else {}
  }

  lemma AllKindsAscending()
    ensures KindsAscending(AllKinds)
  {
    forall i, j | 0 <= i < j < |AllKinds|
      ensures KindIndex(AllKinds[i]) < KindIndex(AllKinds[j])
    {
      IndexOfAllKinds(i);
      IndexOfAllKinds(j);
    }
  }

  datatype Category = VideoCategory | WebsiteCategory | AddonCategory | SubscriptionCategory
                    | MicrositeCategory | LicenseCategory

  datatype ServiceItem = ServiceItem(kind: ItemKind, title: string, amount: int, category: Category)

  // ---------------------------------------------------------------------------
  // Price list
  // ---------------------------------------------------------------------------

  /** Per-minute rate; full animation is a flat fee. */
  function VideoRate(t: VideoType): int
  {
    match t
    case Standard => 799
    case SemiCustom => 999
    case FullCustom => 1199
    case FullAnimation => 5000
  }

  function WebsiteInitialPrice(w: WebsiteType): int
  {
    match w
    case NoWebsite => 0
    case BenefitsBreak => 4999
    case FullBenefits => 24999
    case CustomPortal => 44999
  }

  function WebsiteAnnualPrice(w: WebsiteType): int
  {
    match w
    case NoWebsite => 0
    case BenefitsBreak => 2499
    case FullBenefits => 12499
    case CustomPortal => 24999
  }

  /** Whether a selection asks for the service. */
  predicate Selected(sel: ServiceSelection, k: ItemKind)
  {
    match k
    case MainVideo => sel.videoMinutes > 0
    case Teaser => sel.oeTeaserVideo
    case AltLanguage => sel.altLanguageMinutes > 0
    case DiyLicense => sel.diyPowerpoint
    case PptAltLanguage => sel.pptAltLanguage
    case VideoUpdates => sel.videoUpdates
    case WebsiteInitial => sel.websiteType != NoWebsite
    case WebsiteAnnual => sel.websiteType != NoWebsite
  }

  /** What the service costs, the same in both engines. */
  function Price(sel: ServiceSelection, k: ItemKind): int
  {
    match k
    case MainVideo => if sel.videoType == FullAnimation then 5000 else VideoRate(sel.videoType) * sel.videoMinutes
    case Teaser => 650
    case AltLanguage => sel.altLanguageMinutes * 250
    case DiyLicense => 2500 + (if sel.diyHumanVoice then 1000 else 0)
    case PptAltLanguage => 3000 + (if sel.pptAltLanguageHumanVoice then 1000 else 0)
    case VideoUpdates => if sel.videoUpdatesWithVoice then 1049 else 750
    case WebsiteInitial => WebsiteInitialPrice(sel.websiteType)
    case WebsiteAnnual => WebsiteAnnualPrice(sel.websiteType)
  }

  function VideoName(t: VideoType): string
  {
    match t
    case Standard => "Standard Video"
    case SemiCustom => "Semi-Custom Video"
    case FullCustom => "Full Custom Video"
    case FullAnimation => "Full Animation Video"
  }

  function WebsiteName(w: WebsiteType): string
  {
    match w
    case NoWebsite => ""
    case BenefitsBreak => "Benefits Break Microsite"
    case FullBenefits => "Full Benefits Website"
    case CustomPortal => "Custom Benefits Portal"
  }

  function VoiceName(human: bool): string
  {
    if human then "Human VO" else "AI VO"
  }

  function Title(sel: ServiceSelection, k: ItemKind): string
  {
    match k
    case MainVideo => VideoName(sel.videoType) + " (" + IntToString(sel.videoMinutes) + " min)"
    case Teaser => "Open Enrollment Teaser Video (1 min)"
    case AltLanguage => "Alternative Language Video"
    case DiyLicense => "DIY PowerPoint License (" + VoiceName(sel.diyHumanVoice) + ")"
    case PptAltLanguage => "PPT Alternative Language (" + VoiceName(sel.pptAltLanguageHumanVoice) + ")"
    case VideoUpdates => "Video Updates (" + (if sel.videoUpdatesWithVoice then "with VO changes" else "no VO changes") + ")"
    case WebsiteInitial => WebsiteName(sel.websiteType) + " (Initial)"
    case WebsiteAnnual => WebsiteName(sel.websiteType) + " (Annual)"
  }

  /** The category each engine files a service under. */
  function CategoryOf(e: Engine, k: ItemKind): Category
  {
    match k
    case MainVideo => VideoCategory
    case Teaser => VideoCategory
    case AltLanguage => AddonCategory
    case DiyLicense => if e == Current then AddonCategory else LicenseCategory
    case PptAltLanguage => if e == Current then AddonCategory else LicenseCategory
    case VideoUpdates => AddonCategory
    case WebsiteInitial => if e == Current then WebsiteCategory else MicrositeCategory
    case WebsiteAnnual => if e == Current then WebsiteCategory else SubscriptionCategory
  }

  /** The categories the 50% rush surcharge covers. */
  predicate RushEligible(e: Engine, c: Category)
  {
    if e == Current then c == VideoCategory || c == AddonCategory
    else c == VideoCategory || c == LicenseCategory
  }

  function MakeItem(sel: ServiceSelection, e: Engine, k: ItemKind): ServiceItem
  {
    ServiceItem(k, Title(sel, k), Price(sel, k), CategoryOf(e, k))
  }

  // ---------------------------------------------------------------------------
  // Line items and their sums
  // ---------------------------------------------------------------------------

  function Kinds(items: seq<ServiceItem>): (r: seq<ItemKind>)
    ensures |r| == |items| && forall i :: 0 <= i < |items| ==> r[i] == items[i].kind
  {
    if items == [] then [] else [items[0].kind] + Kinds(items[1..])
  }

  function Sum(items: seq<ServiceItem>): int
  {
    if items == [] then 0 else items[0].amount + Sum(items[1..])
  }

  /** `filter(category in the rush set).reduce(sum)`. */
  function RushableSum(items: seq<ServiceItem>, e: Engine): int
  {
    if items == [] then 0
    else (if RushEligible(e, items[0].category) then items[0].amount else 0) + RushableSum(items[1..], e)
  }

  /** What service `k` adds to the total; `onlyRushable` counts it only when the surcharge covers it. */
  function Contribution(sel: ServiceSelection, e: Engine, k: ItemKind, onlyRushable: bool): int
  {
    if Selected(sel, k) && (!onlyRushable || RushEligible(e, CategoryOf(e, k))) then Price(sel, k) else 0
  }

  /** What the services `ks` contribute. */
  function PriceOf(sel: ServiceSelection, e: Engine, ks: seq<ItemKind>, onlyRushable: bool): int
  {
    if ks == [] then 0 else Contribution(sel, e, ks[0], onlyRushable) + PriceOf(sel, e, ks[1..], onlyRushable)
  }

  lemma PriceOfCons(sel: ServiceSelection, e: Engine, k: ItemKind, ks: seq<ItemKind>, only: bool)
    ensures PriceOf(sel, e, [k] + ks, only) == Contribution(sel, e, k, only) + PriceOf(sel, e, ks, only)
  {
    assert ([k] + ks)[1..] == ks;
  }

  /** The sum over all eight services, written out. */
  lemma PriceOfAllKinds(sel: ServiceSelection, e: Engine, only: bool)
    ensures PriceOf(sel, e, AllKinds, only) ==
      Contribution(sel, e, MainVideo, only) + Contribution(sel, e, Teaser, only)
      + Contribution(sel, e, AltLanguage, only) + Contribution(sel, e, DiyLicense, only)
      + Contribution(sel, e, PptAltLanguage, only) + Contribution(sel, e, VideoUpdates, only)
      + Contribution(sel, e, WebsiteInitial, only) + Contribution(sel, e, WebsiteAnnual, only)
  {
    var t7 := [WebsiteAnnual];
    var t6 := [WebsiteInitial] + t7;
    var t5 := [VideoUpdates] + t6;
    var t4 := [PptAltLanguage] + t5;
    var t3 := [DiyLicense] + t4;
    var t2 := [AltLanguage] + t3;
    var t1 := [Teaser] + t2;
    assert AllKinds == [MainVideo] + t1;
    PriceOfCons(sel, e, MainVideo, t1, only);
    PriceOfCons(sel, e, Teaser, t2, only);
    PriceOfCons(sel, e, AltLanguage, t3, only);
    PriceOfCons(sel, e, DiyLicense, t4, only);
    PriceOfCons(sel, e, PptAltLanguage, t5, only);
    PriceOfCons(sel, e, VideoUpdates, t6, only);
    PriceOfCons(sel, e, WebsiteInitial, t7, only);
    PriceOfCons(sel, e, WebsiteAnnual, [], only);
  }

  /** The pushes of `computePricing` for the services `ks`, in that order. */
  function ItemsOf(sel: ServiceSelection, e: Engine, ks: seq<ItemKind>): (r: seq<ServiceItem>)
    ensures forall i :: 0 <= i < |r| ==> r[i] == MakeItem(sel, e, r[i].kind) && r[i].kind in ks
    ensures Sum(r) == PriceOf(sel, e, ks, false)
    ensures RushableSum(r, e) == PriceOf(sel, e, ks, true)
  {
    if ks == [] then []
    else
      var rest := ItemsOf(sel, e, ks[1..]);
      if Selected(sel, ks[0]) then
        var r := [MakeItem(sel, e, ks[0])] + rest;
        assert r[1..] == rest;
        r
      else rest
  }

  /** Service `k` has a line exactly when it is listed and selected. */
  lemma {:induction false} ItemsOfHas(sel: ServiceSelection, e: Engine, ks: seq<ItemKind>, k: ItemKind)
    ensures k in Kinds(ItemsOf(sel, e, ks)) <==> k in ks && Selected(sel, k)
  {
    if ks != [] {
      ItemsOfHas(sel, e, ks[1..], k);
      var rest := ItemsOf(sel, e, ks[1..]);
      assert k in ks <==> k == ks[0] || k in ks[1..] by {
        assert ks == [ks[0]] + ks[1..];
      }
      if Selected(sel, ks[0]) {
        var r := [MakeItem(sel, e, ks[0])] + rest;
        assert ItemsOf(sel, e, ks) == r;
        assert Kinds(r) == [ks[0]] + Kinds(rest) by {
          assert r[1..] == rest;
        }
      } else {
        assert ItemsOf(sel, e, ks) == rest;
      }
    }
  }

  lemma TailAscending(ks: seq<ItemKind>)
    requires |ks| > 0 && KindsAscending(ks)
    ensures KindsAscending(ks[1..])
  {
    forall i, j | 0 <= i < j < |ks[1..]|
      ensures KindIndex(ks[1..][i]) < KindIndex(ks[1..][j])
    {
      assert ks[1..][i] == ks[i + 1] && ks[1..][j] == ks[j + 1];
    }
  }

  /** The first listed kind, put before kinds listed after it, keeps the order. */
  lemma ConsAscending(k: ItemKind, rk: seq<ItemKind>, ks: seq<ItemKind>)
    requires |ks| > 0 && KindsAscending(ks) && k == ks[0]
    requires KindsAscending(rk)
    requires forall i :: 0 <= i < |rk| ==> rk[i] in ks[1..]
    ensures KindsAscending([k] + rk)
  {
    var kr := [k] + rk;
    forall i, j | 0 <= i < j < |kr|
      ensures KindIndex(kr[i]) < KindIndex(kr[j])
    {
      if i == 0 {
        assert kr[j] == rk[j - 1];
        var m :| 0 <= m < |ks[1..]| && ks[1..][m] == kr[j];
        assert ks[m + 1] == kr[j];
      } else {
        assert kr[i] == rk[i - 1] && kr[j] == rk[j - 1];
      }
    }
  }

  lemma KindsCons(x: ServiceItem, rest: seq<ServiceItem>)
    ensures Kinds([x] + rest) == [x.kind] + Kinds(rest)
  {
    assert ([x] + rest)[1..] == rest;
  }

  /** Lines for kinds listed in order come in that order, so none repeats. */
  lemma {:induction false} ItemsOfOrdered(sel: ServiceSelection, e: Engine, ks: seq<ItemKind>)
    requires KindsAscending(ks)
    ensures KindsAscending(Kinds(ItemsOf(sel, e, ks)))
  {
    if ks != [] {
      TailAscending(ks);
      ItemsOfOrdered(sel, e, ks[1..]);
      if Selected(sel, ks[0]) {
        var rest := ItemsOf(sel, e, ks[1..]);
        KindsCons(MakeItem(sel, e, ks[0]), rest);
        ConsAscending(ks[0], Kinds(rest), ks);
      }
    }
  }

  // ---------------------------------------------------------------------------
  // Breakdown
  // ---------------------------------------------------------------------------

  datatype ServiceBreakdown = ServiceBreakdown(
    lineItems: seq<ServiceItem>,
    discountItems: seq<ServiceItem>,
    subtotal: int,
    rushSurcharge: int,
    subscriptionTotal: int,
    totalDueNow: int,
    totalAllIn: int,
    monthlySubscriptionCost: int,
    estimatedTimeline: string,
    paymentTerms: string)

  const PaymentTerms := "50% to start, 50% at V2 approval (Net 30 with PO for approved enterprises)"

  /** The current engine's estimate: animation, then full custom, then rush. */
  function CurrentTimeline(sel: ServiceSelection): (t: string)
    ensures sel.videoType == FullAnimation ==> t == "4-6 weeks"
    ensures sel.videoType == FullCustom ==> t == "3-4 weeks"
    ensures sel.videoType in {Standard, SemiCustom} ==>
      t == (if sel.rush then "7-10 business days" else "15 business days")
  {
    if sel.videoType == FullAnimation then "4-6 weeks"
    else if sel.videoType == FullCustom then "3-4 weeks"
    else if sel.rush then "7-10 business days"
    else "15 business days"
  }

  function VideoWeeks(t: VideoType): int
  {
    match t
    case Standard => 3
    case SemiCustom => 4
    case FullCustom => 5
    case FullAnimation => 6
  }

  function WebsiteWeeks(w: WebsiteType): int
  {
    match w
    case NoWebsite => 0
    case BenefitsBreak => 4
    case FullBenefits => 8
    case CustomPortal => 12
  }

  /** The weeks a selected service needs on its own; 0 for one that only extends the schedule. */
  function BaseWeeks(sel: ServiceSelection, k: ItemKind): int
  {
    match k
    case MainVideo => VideoWeeks(sel.videoType)
    case Teaser => 3
    case DiyLicense => 2
    case WebsiteInitial => WebsiteWeeks(sel.websiteType)
    case _ => 0
  }

  /** The legacy `calculateTimeline` week count before rush. */
  function LegacyWeeks(sel: ServiceSelection): (w: int)
    ensures w >= 0
  {
    var weeks := if sel.videoMinutes > 0 then Max(0, VideoWeeks(sel.videoType)) else 0;
    var weeks := if sel.oeTeaserVideo then Max(weeks, 3) else weeks;
    var weeks := if sel.websiteType != NoWebsite then Max(weeks, WebsiteWeeks(sel.websiteType)) else weeks;
    var weeks := if sel.diyPowerpoint then Max(weeks, 2) else weeks;
    var weeks := if sel.altLanguageMinutes > 0 then weeks + 1 else weeks;
    if sel.pptAltLanguage then weeks + 1 else weeks
  }

  /** The week count a rush order is promised: 70% rounded up, at least two. */
  function RushWeeks(weeks: int): (w: int)
    ensures w >= 2 && w as real >= weeks as real * 0.7
  {
    Max(2, Ceil(weeks as real * 0.7))
  }

  /** The label ends in the rush note exactly when rush delivery is chosen. */
  function LegacyTimeline(sel: ServiceSelection): (t: string)
    ensures |t| > 0 && (t[|t| - 1] == ')' <==> sel.rush)
  {
    var weeks := LegacyWeeks(sel);
    if sel.rush then IntToString(RushWeeks(weeks)) + " weeks (Rush delivery)"
    else IntToString(weeks) + "-" + IntToString(weeks + 1) + " weeks"
  }

  /** Half the surchargeable amount, rounded half up, when rush is chosen. */
  function RushSurcharge(rush: bool, base: int): (r: int)
    ensures !rush ==> r == 0
    ensures rush ==> r == JsHalf(base) && 2 * r - 1 <= base < 2 * r + 1
  {
    if rush then JsHalf(base) else 0
  }

  /** `computePricing` of either engine. */
  function ComputeServicePricing(sel: ServiceSelection, e: Engine): (b: ServiceBreakdown)
    ensures b.lineItems == ItemsOf(sel, e, AllKinds)
    ensures forall i :: 0 <= i < |b.lineItems| ==> b.lineItems[i] == MakeItem(sel, e, b.lineItems[i].kind)
    ensures b.discountItems == []
    ensures b.subtotal == PriceOf(sel, e, AllKinds, false)
    ensures b.rushSurcharge == RushSurcharge(sel.rush, PriceOf(sel, e, AllKinds, true))
    ensures e == Current ==> b.monthlySubscriptionCost == 0 && b.subscriptionTotal == 0
    ensures e == Legacy ==> b.monthlySubscriptionCost == PresetPricing.Monthly(sel.subscriptionPlan)
                            && b.subscriptionTotal == b.monthlySubscriptionCost * sel.subscriptionMonths
    ensures b.totalDueNow == b.subtotal + b.rushSurcharge
    ensures b.totalAllIn == b.totalDueNow + b.subscriptionTotal
    ensures b.estimatedTimeline == if e == Current then CurrentTimeline(sel) else LegacyTimeline(sel)
    ensures b.paymentTerms == PaymentTerms
  {
    var items := ItemsOf(sel, e, AllKinds);
    var subtotal := Sum(items);
    var rush := RushSurcharge(sel.rush, RushableSum(items, e));
    var monthly := if e == Current then 0 else PresetPricing.Monthly(sel.subscriptionPlan);
    var subscription := if e == Current then 0 else monthly * sel.subscriptionMonths;
    ServiceBreakdown(items, [], subtotal, rush, subscription, subtotal + rush, subtotal + rush + subscription, monthly,
                     if e == Current then CurrentTimeline(sel) else LegacyTimeline(sel), PaymentTerms)
  }

  // ---------------------------------------------------------------------------
  // Properties of the line items
  // ---------------------------------------------------------------------------

  /** A line for service `k` is present exactly when the selection asks for it. */
  lemma LineIffSelected(sel: ServiceSelection, e: Engine, k: ItemKind)
    ensures k in Kinds(ComputeServicePricing(sel, e).lineItems) <==> Selected(sel, k)
  {
    ItemsOfHas(sel, e, AllKinds, k);
  }

  /** The lines come in the services' fixed order; no service appears twice. */
  lemma LinesOrdered(sel: ServiceSelection, e: Engine)
    ensures KindsAscending(Kinds(ComputeServicePricing(sel, e).lineItems))
  {
    AllKindsAscending();
    ItemsOfOrdered(sel, e, AllKinds);
  }

  /** The video line exists iff there are minutes; full animation is flat, the rest are per minute. */
  lemma VideoLine(sel: ServiceSelection, e: Engine)
    ensures MainVideo in Kinds(ComputeServicePricing(sel, e).lineItems) <==> sel.videoMinutes > 0
    ensures var items := ComputeServicePricing(sel, e).lineItems;
      forall i :: 0 <= i < |items| && items[i].kind == MainVideo ==>
        items[i].amount == if sel.videoType == FullAnimation then 5000 else VideoRate(sel.videoType) * sel.videoMinutes
  {
    LineIffSelected(sel, e, MainVideo);
  }

  /** Current categories: only the two site lines are website lines; DIY, PPT, alt-language and updates are add-ons. */
  lemma CurrentCategories(k: ItemKind)
    ensures CategoryOf(Current, k) == WebsiteCategory <==> k in {WebsiteInitial, WebsiteAnnual}
    ensures CategoryOf(Current, k) == AddonCategory <==> k in {AltLanguage, DiyLicense, PptAltLanguage, VideoUpdates}
    ensures CategoryOf(Current, k) == VideoCategory <==> k in {MainVideo, Teaser}
  {
  }

  /** In either engine a site adds both its initial and its annual line, and nothing adds them otherwise. */
  lemma WebsiteAddsTwoItems(sel: ServiceSelection, e: Engine)
    ensures var kinds := Kinds(ComputeServicePricing(sel, e).lineItems);
      (WebsiteInitial in kinds <==> sel.websiteType != NoWebsite)
      && (WebsiteAnnual in kinds <==> sel.websiteType != NoWebsite)
  {
    var kinds := Kinds(ComputeServicePricing(sel, e).lineItems);
    LineIffSelected(sel, e, WebsiteInitial);
    LineIffSelected(sel, e, WebsiteAnnual);
    WebsiteKinds(sel, kinds);
  }

  lemma WebsiteKinds(sel: ServiceSelection, kinds: seq<ItemKind>)
    requires WebsiteInitial in kinds <==> Selected(sel, WebsiteInitial)
    requires WebsiteAnnual in kinds <==> Selected(sel, WebsiteAnnual)
    ensures WebsiteInitial in kinds <==> sel.websiteType != NoWebsite
    ensures WebsiteAnnual in kinds <==> sel.websiteType != NoWebsite
  {
  }

  /** Legacy categories: DIY and PPT are licences, alt-language and updates add-ons, the site microsite and subscription. */
  lemma LegacyCategories(k: ItemKind)
    ensures CategoryOf(Legacy, k) == LicenseCategory <==> k in {DiyLicense, PptAltLanguage}
    ensures CategoryOf(Legacy, k) == AddonCategory <==> k in {AltLanguage, VideoUpdates}
    ensures CategoryOf(Legacy, k) == MicrositeCategory <==> k == WebsiteInitial
    ensures CategoryOf(Legacy, k) == SubscriptionCategory <==> k == WebsiteAnnual
  {
  }

  /** Closed form of the subtotal: the price of every selected service. */
  lemma SubtotalClosedForm(sel: ServiceSelection, e: Engine)
    ensures PriceOf(sel, e, AllKinds, false) ==
      (if sel.videoMinutes > 0 then Price(sel, MainVideo) else 0)
      + (if sel.oeTeaserVideo then 650 else 0)
      + (if sel.altLanguageMinutes > 0 then sel.altLanguageMinutes * 250 else 0)
      + (if sel.diyPowerpoint then Price(sel, DiyLicense) else 0)
      + (if sel.pptAltLanguage then Price(sel, PptAltLanguage) else 0)
      + (if sel.videoUpdates then Price(sel, VideoUpdates) else 0)
      + WebsiteInitialPrice(sel.websiteType) + WebsiteAnnualPrice(sel.websiteType)
  {
    PriceOfAllKinds(sel, e, false);
  }

  /** The current engine surcharges everything but the website lines. */
  lemma CurrentRushExcludesWebsite(sel: ServiceSelection)
    ensures PriceOf(sel, Current, AllKinds, true)
         == PriceOf(sel, Current, AllKinds, false) - WebsiteInitialPrice(sel.websiteType) - WebsiteAnnualPrice(sel.websiteType)
  {
    PriceOfAllKinds(sel, Current, false);
    PriceOfAllKinds(sel, Current, true);
  }

  /** The legacy engine surcharges the video, teaser, DIY and PPT lines only. */
  lemma LegacyRushBase(sel: ServiceSelection)
    ensures PriceOf(sel, Legacy, AllKinds, true) ==
      (if sel.videoMinutes > 0 then Price(sel, MainVideo) else 0)
      + (if sel.oeTeaserVideo then 650 else 0)
      + (if sel.diyPowerpoint then Price(sel, DiyLicense) else 0)
      + (if sel.pptAltLanguage then Price(sel, PptAltLanguage) else 0)
  {
    PriceOfAllKinds(sel, Legacy, true);
  }

  lemma NonNegativeProduct(a: int, b: int)
    ensures a >= 0 && b >= 0 ==> a * b >= 0
  {
  }

  lemma {:induction false} PriceOfNonNegative(sel: ServiceSelection, e: Engine, ks: seq<ItemKind>, only: bool)
    requires sel.videoMinutes >= 0 && sel.altLanguageMinutes >= 0
    ensures PriceOf(sel, e, ks, only) >= 0
  {
    if ks != [] {
      PriceOfNonNegative(sel, e, ks[1..], only);
      NonNegativeProduct(VideoRate(sel.videoType), sel.videoMinutes);
    }
  }

  /** With non-negative counts every total is ordered: all-in ≥ due now ≥ subtotal ≥ 0. */
  lemma TotalsOrdered(sel: ServiceSelection, e: Engine)
    requires sel.videoMinutes >= 0 && sel.altLanguageMinutes >= 0 && sel.subscriptionMonths >= 0
    ensures var b := ComputeServicePricing(sel, e);
      0 <= b.subtotal <= b.totalDueNow <= b.totalAllIn
  {
    PriceOfNonNegative(sel, e, AllKinds, false);
    PriceOfNonNegative(sel, e, AllKinds, true);
    NonNegativeProduct(PresetPricing.Monthly(sel.subscriptionPlan), sel.subscriptionMonths);
  }

  /** The current engine ignores the subscription: all-in is what is due now. */
  lemma CurrentIgnoresSubscription(sel: ServiceSelection)
    ensures var b := ComputeServicePricing(sel, Current);
      b.totalAllIn == b.totalDueNow == b.subtotal + b.rushSurcharge && b.subscriptionTotal == 0
  {
  }

  // ---------------------------------------------------------------------------
  // Legacy delivery estimate
  // ---------------------------------------------------------------------------

  /**
   * The legacy week count is the longest selected component plus a week
   * each for alternative language and PPT translation.
   */
  lemma LegacyWeeksIsLongestPlusExtras(sel: ServiceSelection)
    ensures var extras := (if sel.altLanguageMinutes > 0 then 1 else 0) + (if sel.pptAltLanguage then 1 else 0);
      var base := LegacyWeeks(sel) - extras;
      && base >= 0
      && (forall k :: Selected(sel, k) ==> BaseWeeks(sel, k) <= base)
      && (base == 0 || exists k :: Selected(sel, k) && BaseWeeks(sel, k) == base)
  {
    var extras := (if sel.altLanguageMinutes > 0 then 1 else 0) + (if sel.pptAltLanguage then 1 else 0);
    var base := LegacyWeeks(sel) - extras;
    if base != 0 {
      if sel.diyPowerpoint && base == 2 {
        assert Selected(sel, DiyLicense) && BaseWeeks(sel, DiyLicense) == base;
      } else if sel.websiteType != NoWebsite && base == WebsiteWeeks(sel.websiteType) {
        assert Selected(sel, WebsiteInitial) && BaseWeeks(sel, WebsiteInitial) == base;
      } else if sel.oeTeaserVideo && base == 3 {
        assert Selected(sel, Teaser) && BaseWeeks(sel, Teaser) == base;
      } else {
        assert Selected(sel, MainVideo) && BaseWeeks(sel, MainVideo) == base;
      }
    }
  }

  /** Rush never lengthens a schedule of two weeks or more, and never promises fewer than two. */
  lemma RushShortens(weeks: int)
    requires weeks >= 2
    ensures 2 <= RushWeeks(weeks) <= weeks
  {
    assert Ceil(weeks as real * 0.7) <= weeks;
  }

  /** The legacy label: "N weeks (Rush delivery)" with rush, "N-(N+1) weeks" otherwise. */
  lemma LegacyTimelineLabel(sel: ServiceSelection)
    ensures sel.rush ==> LegacyTimeline(sel) == NatToString(RushWeeks(LegacyWeeks(sel))) + " weeks (Rush delivery)"
    ensures !sel.rush ==> LegacyTimeline(sel) == NatToString(LegacyWeeks(sel)) + "-" + NatToString(LegacyWeeks(sel) + 1) + " weeks"
  {
  }

  // ---------------------------------------------------------------------------
  // ROI
  // ---------------------------------------------------------------------------

  datatype ServiceRoi = ServiceRoi(
    engagementIncrease: int,
    enrollmentIncrease: int,
    hrTimeSaved: real,
    costPerEmployee: Option<real>,
    breakEvenMonths: Option<int>,
    annualSavings: real)

  /** `total / employees`; `None` where JavaScript's division gives a non-finite number. */
  function CostPerEmployee(total: int, employees: int): (r: Option<real>)
    ensures r.Some? <==> employees != 0
    ensures r.Some? ==> r.value * employees as real == total as real
  {
    if employees != 0 then Some(total as real / employees as real) else None
  }

  /**
   * `calculateROI` of either engine for a quote of `total` and `employees`
   * staff (500 by default). The current engine rounds the monthly hours and
   * the payback and never promises less than a month; the legacy one rounds
   * the payback up.
   */
  function RoiFor(e: Engine, total: int, employees: int): (r: ServiceRoi)
    ensures e == Current ==> r.hrTimeSaved == JsRound(employees as real * 0.5) as real
                             && r.annualSavings == r.hrTimeSaved * 12.0 * 45.0
                             && r.engagementIncrease == 40 && r.enrollmentIncrease == 25
    ensures e == Legacy ==> r.hrTimeSaved == employees as real * 0.5
                            && r.annualSavings == r.hrTimeSaved * 12.0 * 35.0
                            && r.engagementIncrease == 65 && r.enrollmentIncrease == 40
    ensures r.costPerEmployee == CostPerEmployee(total, employees)
    ensures r.breakEvenMonths.Some? <==> r.annualSavings != 0.0
    ensures r.breakEvenMonths.Some? ==>
      var months := total as real / (r.annualSavings / 12.0);
      if e == Current then r.breakEvenMonths.value == Max(1, JsRound(months))
      else r.breakEvenMonths.value as real - 1.0 < months <= r.breakEvenMonths.value as real
  {
    var hours := if e == Current then JsRound(employees as real * 0.5) as real else employees as real * 0.5;
    var annual := hours * 12.0 * (if e == Current then 45.0 else 35.0);
    var breakEven :=
      if annual == 0.0 then None
      else if e == Current then Some(Max(1, JsRound(total as real / (annual / 12.0))))
      else Some(Ceil(total as real / (annual / 12.0)));
    ServiceRoi(if e == Current then 40 else 65, if e == Current then 25 else 40, hours,
               CostPerEmployee(total, employees), breakEven, annual)
  }

  /** `calculateROI(selections, employees)`: the ROI of the quote's amount due now. */
  function CalculateServiceRoi(sel: ServiceSelection, e: Engine, employees: int): (r: ServiceRoi)
    ensures r.costPerEmployee == CostPerEmployee(ComputeServicePricing(sel, e).totalDueNow, employees)
    ensures employees >= 1 ==> r.breakEvenMonths.Some?
    ensures e == Current && employees >= 1 ==> r.breakEvenMonths.value >= 1
  {
    RoiFor(e, ComputeServicePricing(sel, e).totalDueNow, employees)
  }

  /** The current engine never reports a payback under one month. */
  lemma CurrentBreakEvenAtLeastOne(total: int, employees: int)
    requires employees >= 1
    ensures var r := RoiFor(Current, total, employees);
      r.breakEvenMonths.Some? && r.breakEvenMonths.value >= 1
  {
    assert JsRound(employees as real * 0.5) >= 1;
  }

  lemma MulLe(a: real, b: real, c: real)
    requires a <= b && c > 0.0
    ensures a * c <= b * c
  {
  }

  lemma MulLt(a: real, b: real, c: real)
    requires a < b && c > 0.0
    ensures a * c < b * c
  {
  }

  /** Rounding the months up: that many months of savings cover the total, one fewer does not. */
  lemma CeilCovers(total: real, monthly: real, m: int)
    requires monthly > 0.0
    requires m as real - 1.0 < total / monthly <= m as real
    ensures total <= m as real * monthly
    ensures (m as real - 1.0) * monthly < total
  {
    var q := total / monthly;
    var fewer := m as real - 1.0;
    assert q * monthly == total;
    MulLe(q, m as real, monthly);
    MulLt(fewer, q, monthly);
    assert fewer * monthly < total;
  }

  /** The legacy payback is the least number of months whose savings cover the total. */
  lemma LegacyBreakEvenCovers(total: int, employees: int)
    requires employees >= 1
    ensures var r := RoiFor(Legacy, total, employees);
      var monthly := r.annualSavings / 12.0;
      && monthly == employees as real * 17.5
      && r.breakEvenMonths.Some?
      && total as real <= r.breakEvenMonths.value as real * monthly
      && (r.breakEvenMonths.value as real - 1.0) * monthly < total as real
  {
    var r := RoiFor(Legacy, total, employees);
    assert r.annualSavings / 12.0 == employees as real * 17.5;
    CeilCovers(total as real, employees as real * 17.5, r.breakEvenMonths.value);
  }
}
