/**
 * The video step of the preview calculator
 * (preview/src/components/calculator/VideoServiceSelector.tsx): the four
 * service cards with their prices, the minutes stepper and slider, and the
 * price of the chosen service. The per-minute rates are those of the
 * marketing site's price list (apps/mybenefitsvideos/src/lib/pricing.ts);
 * the preview's own copy of that list is not part of this model.
 */
module VideoCards {
  import opened Wrappers
  import opened JsNum
  import opened Seqs
  import ServicePricing

  /** A card: the service's key, the engine's service type, the rate, and whether the rate is a flat fee. */
  datatype VideoOption = VideoOption(key: string, service: ServicePricing.VideoType, pricePerMin: int, isFlat: bool)

  function MakeOption(key: string, t: ServicePricing.VideoType): (o: VideoOption)
    ensures o.key == key && o.service == t && o.pricePerMin == ServicePricing.VideoRate(t)
    ensures o.isFlat <==> t == ServicePricing.FullAnimation
  {
    VideoOption(key, t, ServicePricing.VideoRate(t), t == ServicePricing.FullAnimation)
  }

  /** `videoServiceOptions`, in display order. */
  const Options: seq<VideoOption> := [
    MakeOption("standard", ServicePricing.Standard),
    MakeOption("semi-custom", ServicePricing.SemiCustom),
    MakeOption("full-custom", ServicePricing.FullCustom),
    MakeOption("full-animation", ServicePricing.FullAnimation)
  ]

  /** Exactly one card is a flat fee: the full animation. */
  lemma ExactlyOneFlat()
    ensures |Options| == 4
    ensures forall i :: 0 <= i < |Options| ==> (Options[i].isFlat <==> i == 3)
    ensures Options[3].service == ServicePricing.FullAnimation && Options[3].pricePerMin == 5000
  {
  }

  /** The cards carry four different services. */
  lemma ServicesDistinct(i: nat, j: nat)
    requires i < |Options| && j < |Options| && Options[i].service == Options[j].service
    ensures i == j
  {
  }

  /** The minutes and the chosen key, as the step edits them. */
  datatype VideoChoice = VideoChoice(videoType: string, videoMinutes: int)

  /** `selectedOption`: the card whose key is the chosen one. */
  function SelectedOption(videoType: string): (r: Option<VideoOption>)
    ensures r.Some? ==> r.value in Options && r.value.key == videoType
    ensures r.None? ==> forall i :: 0 <= i < |Options| ==> Options[i].key != videoType
  {
    Find(Options, (o: VideoOption) => o.key == videoType)
  }

  /** A card's price line: the flat fee, or the rate times the minutes. */
  function CardPrice(o: VideoOption, minutes: int): (r: int)
    ensures o.isFlat ==> r == o.pricePerMin
    ensures !o.isFlat && minutes >= 1 && o.pricePerMin >= 0 ==> r >= o.pricePerMin
  {
    if o.isFlat then o.pricePerMin else o.pricePerMin * minutes
  }

  /**
   * `calculateVideoPrice`: nothing without a chosen card, and otherwise what
   * the chosen card shows, which is what the engine charges for the video.
   */
  function CalculateVideoPrice(c: VideoChoice): (r: int)
    ensures SelectedOption(c.videoType).None? ==> r == 0
    ensures SelectedOption(c.videoType).Some? ==> r == CardPrice(SelectedOption(c.videoType).value, c.videoMinutes)
  {
    match SelectedOption(c.videoType)
    case None => 0
    case Some(o) =>
      if o.isFlat then o.pricePerMin else o.pricePerMin * c.videoMinutes
  }

  /** The step's price agrees with the engine's video line for the same service and minutes. */
  lemma PriceMatchesEngine(c: VideoChoice, sel: ServicePricing.ServiceSelection)
    requires SelectedOption(c.videoType).Some?
    requires sel.videoType == SelectedOption(c.videoType).value.service && sel.videoMinutes == c.videoMinutes
    ensures CalculateVideoPrice(c) == ServicePricing.Price(sel, ServicePricing.MainVideo)
  {
    var o := SelectedOption(c.videoType).value;
    var i :| 0 <= i < |Options| && Options[i] == o;
    assert o.isFlat <==> o.service == ServicePricing.FullAnimation by {
      assert i == 0 || i == 1 || i == 2 || i == 3;
    }
  }

  /** An unknown key prices the video at nothing. */
  lemma UnknownKeyCostsNothing(c: VideoChoice)
    requires c.videoType != "standard" && c.videoType != "semi-custom"
    requires c.videoType != "full-custom" && c.videoType != "full-animation"
    ensures CalculateVideoPrice(c) == 0
  {
  }

  /** `updateVideoMinutes`: never below one minute. */
  function UpdateVideoMinutes(c: VideoChoice, n: int): (r: VideoChoice)
    ensures r.videoMinutes >= 1 && (n >= 1 ==> r.videoMinutes == n)
    ensures r.videoType == c.videoType
  {
    c.(videoMinutes := Max(1, n))
  }

  /** The minus button: enabled above one minute. */
  function MinusPressed(c: VideoChoice): (r: VideoChoice)
    ensures c.videoMinutes > 1 ==> r.videoMinutes == c.videoMinutes - 1
    ensures c.videoMinutes <= 1 ==> r == c
  {
    if c.videoMinutes <= 1 then c else UpdateVideoMinutes(c, c.videoMinutes - 1)
  }

  /** The plus button: enabled below ten minutes. */
  function PlusPressed(c: VideoChoice): (r: VideoChoice)
    ensures 0 <= c.videoMinutes < 10 ==> r.videoMinutes == c.videoMinutes + 1
    ensures c.videoMinutes >= 10 ==> r == c
  {
    if c.videoMinutes >= 10 then c else UpdateVideoMinutes(c, c.videoMinutes + 1)
  }

  /** The buttons and the 1 to 10 slider keep the minutes within 1 to 10. */
  lemma MinutesStayInRange(c: VideoChoice, slider: int)
    requires 1 <= c.videoMinutes <= 10 && 1 <= slider <= 10
    ensures 1 <= MinusPressed(c).videoMinutes <= 10
    ensures 1 <= PlusPressed(c).videoMinutes <= 10
    ensures UpdateVideoMinutes(c, slider).videoMinutes == slider
  {
  }

  /** More minutes never lower the price. */
  lemma PriceMonotoneInMinutes(c: VideoChoice, n: int)
    requires c.videoMinutes <= n
    ensures CalculateVideoPrice(c) <= CalculateVideoPrice(c.(videoMinutes := n))
  {
    var r := SelectedOption(c.videoType);
    if r.Some? {
      RatesNonNegative(r.value);
      ScaleMonotone(r.value.pricePerMin, c.videoMinutes, n);
    }
  }

  lemma RatesNonNegative(o: VideoOption)
    requires o in Options
    ensures o.pricePerMin >= 0
  {
    var i :| 0 <= i < |Options| && Options[i] == o;
    assert i == 0 || i == 1 || i == 2 || i == 3;
  }

  lemma ScaleMonotone(rate: int, a: int, b: int)
    requires rate >= 0 && a <= b
    ensures rate * a <= rate * b
  {
    assert rate * b - rate * a == rate * (b - a);
  }
}
