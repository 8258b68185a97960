/**
 * The add-on step of the marketing site's calculator
 * (apps/mybenefitsvideos/src/components/calculator/AdditionalServices.tsx):
 * the alternative-language switch, stepper and slider, the prices the
 * panel shows for each add-on, and its closing summary. The panel edits the
 * selection of the service pricing engine and shows prices from the same
 * price list.
 */
module AddOnPanel {
  import opened JsNum
  import opened ServicePricing

  /** `updateAltLanguageMinutes`: never below 0; nothing caps it above. */
  function UpdateAltLanguageMinutes(sel: ServiceSelection, n: int): (r: ServiceSelection)
    ensures r.altLanguageMinutes >= 0
    ensures n >= 0 ==> r.altLanguageMinutes == n
    ensures n < 0 ==> r.altLanguageMinutes == 0
    ensures r == sel.(altLanguageMinutes := r.altLanguageMinutes)
  {
    sel.(altLanguageMinutes := Max(0, n))
  }

  /**
   * The alternative-language switch: on, it starts from the video's length
   * (at least a minute); off, it clears the minutes. The switch then reads
   * back as it was set.
   */
  function ToggleAltLanguage(sel: ServiceSelection, checked: bool): (r: ServiceSelection)
    ensures (r.altLanguageMinutes > 0) == checked
    ensures checked && sel.videoMinutes >= 1 ==> r.altLanguageMinutes == sel.videoMinutes
    ensures r == sel.(altLanguageMinutes := r.altLanguageMinutes)
  {
    sel.(altLanguageMinutes := if checked then Max(1, sel.videoMinutes) else 0)
  }

  /** The minus button: enabled above 0, one minute less. */
  function MinusPressed(sel: ServiceSelection): (r: ServiceSelection)
    ensures sel.altLanguageMinutes > 0 ==> r.altLanguageMinutes == sel.altLanguageMinutes - 1
    ensures sel.altLanguageMinutes <= 0 ==> r == sel
  {
    if sel.altLanguageMinutes <= 0 then sel else UpdateAltLanguageMinutes(sel, sel.altLanguageMinutes - 1)
  }

  /** The plus button: enabled below 10, one minute more. */
  function PlusPressed(sel: ServiceSelection): (r: ServiceSelection)
    ensures sel.altLanguageMinutes < 10 && sel.altLanguageMinutes >= -1 ==> r.altLanguageMinutes == sel.altLanguageMinutes + 1
    ensures sel.altLanguageMinutes >= 10 ==> r == sel
  {
    if sel.altLanguageMinutes >= 10 then sel else UpdateAltLanguageMinutes(sel, sel.altLanguageMinutes + 1)
  }

  /** The slider's range: 0 to 10 whole minutes. */
  predicate InSliderRange(n: int)
  {
    0 <= n <= 10
  }

  /** The buttons and the slider keep the minutes on the slider's scale. */
  lemma ControlsStayInRange(sel: ServiceSelection, slider: int)
    requires InSliderRange(sel.altLanguageMinutes) && InSliderRange(slider)
    ensures InSliderRange(MinusPressed(sel).altLanguageMinutes)
    ensures InSliderRange(PlusPressed(sel).altLanguageMinutes)
    ensures InSliderRange(UpdateAltLanguageMinutes(sel, slider).altLanguageMinutes)
  {
  }

  /** The switch can start past the slider's end, since it copies the video's length. */
  lemma SwitchCanPassSliderEnd(sel: ServiceSelection)
    requires sel.videoMinutes == 12
    ensures !InSliderRange(ToggleAltLanguage(sel, true).altLanguageMinutes)
  {
  }

  /** `calculateDiyPrice`: 2500, and 1000 more with a human voice. */
  function DiyPrice(sel: ServiceSelection): (r: int)
    ensures r == Price(sel, DiyLicense)
    ensures r == 2500 || r == 3500
  {
    var price := 2500;
    if sel.diyHumanVoice then price + 1000 else price
  }

  /** `calculatePptAltPrice`: 3000, and 1000 more with a human voice. */
  function PptAltPrice(sel: ServiceSelection): (r: int)
    ensures r == Price(sel, PptAltLanguage)
    ensures r == 3000 || r == 4000
  {
    var price := 3000;
    if sel.pptAltLanguageHumanVoice then price + 1000 else price
  }

  /** `calculateVideoUpdatePrice`: 1049 with voice-over changes, else 750. */
  function VideoUpdatePrice(sel: ServiceSelection): (r: int)
    ensures r == Price(sel, VideoUpdates)
    ensures r == 750 || r == 1049
  {
    if sel.videoUpdatesWithVoice then 1049 else 750
  }

  /** The alternative-language cost line: minutes at 250 each. */
  function AltLanguageCost(sel: ServiceSelection): (r: int)
    ensures r == Price(sel, AltLanguage)
    ensures sel.altLanguageMinutes >= 0 ==> r >= 0
  {
    sel.altLanguageMinutes * 250
  }

  /** A line of the closing summary: which add-on and the price shown for it. */
  datatype SummaryLine = SummaryLine(kind: ItemKind, amount: int)

  function Line(c: bool, l: SummaryLine): seq<SummaryLine>
  {
    if c then [l] else []
  }

  /**
   * The closing summary: alternative language, the DIY license with the
   * translated deck nested under it, video updates. Each line shows the
   * price list's amount for a service the selection asks for.
   */
  function Summary(sel: ServiceSelection): (r: seq<SummaryLine>)
    ensures forall i :: 0 <= i < |r| ==> Selected(sel, r[i].kind) && r[i].amount == Price(sel, r[i].kind)
  {
    Line(sel.altLanguageMinutes > 0, SummaryLine(AltLanguage, AltLanguageCost(sel)))
    + Line(sel.diyPowerpoint, SummaryLine(DiyLicense, DiyPrice(sel)))
    + Line(sel.diyPowerpoint && sel.pptAltLanguage, SummaryLine(PptAltLanguage, PptAltPrice(sel)))
    + Line(sel.videoUpdates, SummaryLine(VideoUpdates, VideoUpdatePrice(sel)))
  }

  /** The summary card shows exactly when it has a line. */
  predicate SummaryShown(sel: ServiceSelection)
  {
    sel.altLanguageMinutes > 0 || sel.diyPowerpoint || sel.videoUpdates
  }

  function LineKinds(lines: seq<SummaryLine>): set<ItemKind>
  {
    set i | 0 <= i < |lines| :: lines[i].kind
  }

  /**
   * Which add-ons the summary lists: each of alternative language, DIY and
   * updates exactly when chosen, the translated deck only under a DIY
   * license; the card shows exactly when the list is not empty.
   */
  lemma SummaryLists(sel: ServiceSelection)
    ensures var ks := LineKinds(Summary(sel));
      && (AltLanguage in ks <==> Selected(sel, AltLanguage))
      && (DiyLicense in ks <==> Selected(sel, DiyLicense))
      && (PptAltLanguage in ks <==> Selected(sel, PptAltLanguage) && sel.diyPowerpoint)
      && (VideoUpdates in ks <==> Selected(sel, VideoUpdates))
      && ks <= {AltLanguage, DiyLicense, PptAltLanguage, VideoUpdates}
    ensures SummaryShown(sel) <==> |Summary(sel)| > 0
  {
    var a := Line(sel.altLanguageMinutes > 0, SummaryLine(AltLanguage, AltLanguageCost(sel)));
    var d := Line(sel.diyPowerpoint, SummaryLine(DiyLicense, DiyPrice(sel)));
    var p := Line(sel.diyPowerpoint && sel.pptAltLanguage, SummaryLine(PptAltLanguage, PptAltPrice(sel)));
    var u := Line(sel.videoUpdates, SummaryLine(VideoUpdates, VideoUpdatePrice(sel)));
    assert Summary(sel) == a + d + p + u;
    assert LineKinds(a + d + p + u) == LineKinds(a) + LineKinds(d) + LineKinds(p) + LineKinds(u) by {
      LineKindsConcat(a, d);
      LineKindsConcat(a + d, p);
      LineKindsConcat(a + d + p, u);
    }
    LineKindsOne(sel.altLanguageMinutes > 0, SummaryLine(AltLanguage, AltLanguageCost(sel)));
    LineKindsOne(sel.diyPowerpoint, SummaryLine(DiyLicense, DiyPrice(sel)));
    LineKindsOne(sel.diyPowerpoint && sel.pptAltLanguage, SummaryLine(PptAltLanguage, PptAltPrice(sel)));
    LineKindsOne(sel.videoUpdates, SummaryLine(VideoUpdates, VideoUpdatePrice(sel)));
  }

  lemma LineKindsOne(c: bool, l: SummaryLine)
    ensures LineKinds(Line(c, l)) == if c then {l.kind} else {}
  {
    if c {
      assert Line(c, l)[0].kind == l.kind;
    }
  }

  lemma LineKindsConcat(a: seq<SummaryLine>, b: seq<SummaryLine>)
    ensures LineKinds(a + b) == LineKinds(a) + LineKinds(b)
  {
    forall k | k in LineKinds(a + b) ensures k in LineKinds(a) + LineKinds(b) {
      var i :| 0 <= i < |a + b| && (a + b)[i].kind == k;
      if i >= |a| {
        assert b[i - |a|].kind == k;
      }
    }
    forall k | k in LineKinds(b) ensures k in LineKinds(a + b) {
      var i :| 0 <= i < |b| && b[i].kind == k;
      assert (a + b)[i + |a|].kind == k;
    }
    forall k | k in LineKinds(a) ensures k in LineKinds(a + b) {
      var i :| 0 <= i < |a| && a[i].kind == k;
      assert (a + b)[i].kind == k;
    }
  }

  /**
   * Clearing the DIY switch leaves the translated deck selected: the engine
   * still prices it, while this panel's summary no longer lists it.
   */
  lemma TranslatedDeckOutlivesDiy(sel: ServiceSelection)
    requires sel.pptAltLanguage
    ensures var off := sel.(diyPowerpoint := false);
      Selected(off, PptAltLanguage) && PptAltLanguage !in LineKinds(Summary(off))
  {
    SummaryLists(sel.(diyPowerpoint := false));
  }
}
