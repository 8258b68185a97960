/**
 * The package step of the preview calculator
 * (preview/src/components/calculator/PackagePresets.tsx): the three package
 * cards, the prices printed on them, what choosing a card writes into the
 * selection, and which card is highlighted. The selection and prices are
 * those of the service pricing engine; the best card only shows a price,
 * since choosing it changes nothing.
 */
module PackagePresets {
  import opened ServicePricing

  datatype Package = GoodPackage | BetterPackage | BestPackage

  /** The good card's price: two standard minutes. */
  const GoodPrice: int := VideoRate(Standard) * 2

  /** The better card's price: two standard minutes and the Benefits Break site's initial fee. */
  const BetterPrice: int := VideoRate(Standard) * 2 + WebsiteInitialPrice(BenefitsBreak)

  /** The best card's price, a fixed figure. */
  const BestPrice: int := 10094

  /** The price printed on a card. */
  function CardPrice(p: Package): (r: int)
    ensures p == GoodPackage ==> r == 1598
    ensures p == BetterPackage ==> r == 6597
    ensures p == BestPackage ==> r == 10094
  {
    match p
    case GoodPackage => GoodPrice
    case BetterPackage => BetterPrice
    case BestPackage => BestPrice
  }

  /**
   * `handlePackageSelect`: good and better set two standard minutes, no
   * teaser, no alternative language, no DIY deck and no rush, and differ
   * only in the website; best changes nothing.
   */
  function HandlePackageSelect(sel: ServiceSelection, p: Package): (r: ServiceSelection)
    ensures p == BestPackage ==> r == sel
    ensures p != BestPackage ==>
      r.videoType == Standard && r.videoMinutes == 2 && !r.oeTeaserVideo && r.altLanguageMinutes == 0
      && !r.diyPowerpoint && !r.rush
    ensures p == GoodPackage ==> r.websiteType == NoWebsite
    ensures p == BetterPackage ==> r.websiteType == BenefitsBreak
    ensures r.diyHumanVoice == sel.diyHumanVoice && r.pptAltLanguage == sel.pptAltLanguage
    ensures r.pptAltLanguageHumanVoice == sel.pptAltLanguageHumanVoice
    ensures r.videoUpdates == sel.videoUpdates && r.videoUpdatesWithVoice == sel.videoUpdatesWithVoice
    ensures r.subscriptionPlan == sel.subscriptionPlan && r.subscriptionMonths == sel.subscriptionMonths
  {
    match p
    case GoodPackage =>
      sel.(videoType := Standard, videoMinutes := 2, websiteType := NoWebsite, oeTeaserVideo := false,
           altLanguageMinutes := 0, diyPowerpoint := false, rush := false)
    case BetterPackage =>
      sel.(videoType := Standard, videoMinutes := 2, websiteType := BenefitsBreak, oeTeaserVideo := false,
           altLanguageMinutes := 0, diyPowerpoint := false, rush := false)
    case BestPackage => sel
  }

  /** The card highlight: good and better match on the video and the website; best is never highlighted. */
  predicate IsSelected(sel: ServiceSelection, p: Package)
  {
    || (p == GoodPackage && sel.videoType == Standard && sel.videoMinutes == 2 && sel.websiteType == NoWebsite)
    || (p == BetterPackage && sel.videoType == Standard && sel.videoMinutes == 2 && sel.websiteType == BenefitsBreak)
  }

  /** At most one card is highlighted, and never the best one. */
  lemma AtMostOneHighlighted(sel: ServiceSelection, p: Package, q: Package)
    requires IsSelected(sel, p) && IsSelected(sel, q)
    ensures p == q && p != BestPackage
  {
  }

  /** Choosing good or better highlights exactly the chosen card. */
  lemma ChosenCardHighlighted(sel: ServiceSelection, p: Package, q: Package)
    requires p != BestPackage
    ensures IsSelected(HandlePackageSelect(sel, p), q) <==> q == p
  {
  }

  /** Choosing a card twice is the same as choosing it once. */
  lemma PackageSelectIdempotent(sel: ServiceSelection, p: Package)
    ensures HandlePackageSelect(HandlePackageSelect(sel, p), p) == HandlePackageSelect(sel, p)
  {
  }

  /** The later choice wins: choosing good or better overrides whatever package came before. */
  lemma LastPackageWins(sel: ServiceSelection, p: Package, q: Package)
    requires q != BestPackage
    ensures HandlePackageSelect(HandlePackageSelect(sel, p), q) == HandlePackageSelect(sel, q)
  {
  }

  /**
   * With the extras the cards do not touch switched off, the good card's
   * price is the engine's subtotal for the good selection, while the better
   * card's price leaves out the site's annual fee that the engine adds.
   */
  lemma CardPricesAgainstEngine(sel: ServiceSelection, e: Engine)
    requires !sel.pptAltLanguage && !sel.videoUpdates
    ensures ComputeServicePricing(HandlePackageSelect(sel, GoodPackage), e).subtotal == CardPrice(GoodPackage)
    ensures ComputeServicePricing(HandlePackageSelect(sel, BetterPackage), e).subtotal
            == CardPrice(BetterPackage) + WebsiteAnnualPrice(BenefitsBreak)
  {
    SubtotalClosedForm(HandlePackageSelect(sel, GoodPackage), e);
    SubtotalClosedForm(HandlePackageSelect(sel, BetterPackage), e);
  }
}
