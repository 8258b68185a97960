/**
 * The six-step pricing wizard of the preview site
 * (preview/src/components/PricingCalculator.tsx): the fixed step list, the
 * progress bar, moving forward and back, the per-step validation that
 * guards "Next", and the step buttons that only jump back. The selection
 * fields the validation reads are modelled on their own; a missing service
 * type is the empty string, as JavaScript treats both as false. The pricing
 * and ROI engines the wizard calls are not part of this model.
 */
module CalculatorWizard {
  import opened JsNum

  datatype Step = VideoStep | WebsiteStep | AdditionalStep | PricingStep | RoiStep | SummaryStep

  /** `CALCULATOR_STEPS`, in order. */
  const Steps: seq<Step> := [VideoStep, WebsiteStep, AdditionalStep, PricingStep, RoiStep, SummaryStep]

  /** `getCurrentStepIndex`: the step's position in the list. */
  function StepIndex(s: Step): (i: nat)
    ensures i < |Steps| && Steps[i] == s
  {
    match s
    case VideoStep => 0
    case WebsiteStep => 1
    case AdditionalStep => 2
    case PricingStep => 3
    case RoiStep => 4
    case SummaryStep => 5
  }

  /** Each step stands at one position only, so positions and steps correspond one to one. */
  lemma StepsDistinct(i: nat, j: nat)
    requires i < |Steps| && j < |Steps| && Steps[i] == Steps[j]
    ensures i == j
  {
  }

  /** `getProgress`: the share of steps reached so far, as a percentage. */
  function Progress(s: Step): (r: real)
    ensures 0.0 < r <= 100.0
    ensures r == 100.0 <==> s == SummaryStep
    ensures r * 6.0 == (StepIndex(s) + 1) as real * 100.0
  {
    ((StepIndex(s) + 1) as real / |Steps| as real) * 100.0
  }

  /** A later step always shows more progress. */
  lemma ProgressIncreases(a: Step, b: Step)
    requires StepIndex(a) < StepIndex(b)
    ensures Progress(a) < Progress(b)
  {
  }

  /** The rounded percentages the bar's label shows: 17, 33, 50, 67, 83, 100. */
  lemma RoundedProgress()
    ensures JsRound(Progress(VideoStep)) == 17
    ensures JsRound(Progress(WebsiteStep)) == 33
    ensures JsRound(Progress(AdditionalStep)) == 50
    ensures JsRound(Progress(PricingStep)) == 67
    ensures JsRound(Progress(RoiStep)) == 83
    ensures JsRound(Progress(SummaryStep)) == 100
  {
    FloorIs(Progress(VideoStep) + 0.5, 17);
    FloorIs(Progress(WebsiteStep) + 0.5, 33);
    FloorIs(Progress(AdditionalStep) + 0.5, 50);
    FloorIs(Progress(PricingStep) + 0.5, 67);
    FloorIs(Progress(RoiStep) + 0.5, 83);
    FloorIs(Progress(SummaryStep) + 0.5, 100);
  }

  predicate CanGoNext(s: Step)
  {
    StepIndex(s) < |Steps| - 1
  }

  predicate CanGoPrev(s: Step)
  {
    StepIndex(s) > 0
  }

  /** `goNext`: one step on, and nothing on the last step. */
  function GoNext(s: Step): (r: Step)
    ensures CanGoNext(s) ==> StepIndex(r) == StepIndex(s) + 1
    ensures !CanGoNext(s) ==> r == s && s == SummaryStep
  {
    if CanGoNext(s) then Steps[StepIndex(s) + 1] else s
  }

  /** `goPrev`: one step back, and nothing on the first step. */
  function GoPrev(s: Step): (r: Step)
    ensures CanGoPrev(s) ==> StepIndex(r) == StepIndex(s) - 1
    ensures !CanGoPrev(s) ==> r == s && s == VideoStep
  {
    if CanGoPrev(s) then Steps[StepIndex(s) - 1] else s
  }

  /** Back undoes forward wherever forward moves, and forward undoes back wherever back moves. */
  lemma NextPrevInverse(s: Step)
    ensures CanGoNext(s) ==> GoPrev(GoNext(s)) == s
    ensures CanGoPrev(s) ==> GoNext(GoPrev(s)) == s
  {
    if CanGoNext(s) {
      StepsDistinct(StepIndex(GoPrev(GoNext(s))), StepIndex(s));
    }
    if CanGoPrev(s) {
      StepsDistinct(StepIndex(GoNext(GoPrev(s))), StepIndex(s));
    }
  }

  /** The fields of the selection that the step checks read. */
  datatype Choices = Choices(videoType: string, videoMinutes: int, websiteType: string, altLanguageMinutes: int)

  /** The keys of the error record. */
  datatype ErrorKey = VideoTypeError | VideoMinutesError | WebsiteTypeError | AltLanguageMinutesError

  /** `validateCurrentStep`'s error record, one key per failed check of the current step. */
  function StepErrors(s: Step, c: Choices): (r: set<ErrorKey>)
    ensures VideoTypeError in r <==> s == VideoStep && c.videoType == ""
    ensures VideoMinutesError in r <==> s == VideoStep && c.videoMinutes < 1
    ensures WebsiteTypeError in r <==> s == WebsiteStep && c.websiteType == ""
    ensures AltLanguageMinutesError in r <==> s == AdditionalStep && c.altLanguageMinutes < 0
  {
    match s
    case VideoStep =>
      (if c.videoType == "" then {VideoTypeError} else {}) + (if c.videoMinutes < 1 then {VideoMinutesError} else {})
    case WebsiteStep => if c.websiteType == "" then {WebsiteTypeError} else {}
    case AdditionalStep => if c.altLanguageMinutes < 0 then {AltLanguageMinutesError} else {}
    case _ => {}
  }

  /** The three review steps always pass. */
  lemma ReviewStepsAlwaysPass(s: Step, c: Choices)
    requires StepIndex(s) >= 3
    ensures StepErrors(s, c) == {}
  {
    assert forall k :: k !in StepErrors(s, c);
  }

  /** `handleNext`: the next step and the errors shown; the wizard moves only when the current step passes. */
  function HandleNext(s: Step, c: Choices): (r: (Step, set<ErrorKey>))
    ensures r.1 == StepErrors(s, c)
    ensures r.1 == {} && CanGoNext(s) ==> StepIndex(r.0) == StepIndex(s) + 1
    ensures r.1 != {} || !CanGoNext(s) ==> r.0 == s
  {
    var errors := StepErrors(s, c);
    if errors == {} then (GoNext(s), errors) else (s, errors)
  }

  /** Valid choices carry the wizard from the first step to the summary in five presses of "Next". */
  lemma ValidChoicesReachSummary(c: Choices)
    requires c.videoType != "" && c.videoMinutes >= 1 && c.websiteType != "" && c.altLanguageMinutes >= 0
    ensures var s1 := HandleNext(VideoStep, c).0;
      var s2 := HandleNext(s1, c).0;
      var s3 := HandleNext(s2, c).0;
      var s4 := HandleNext(s3, c).0;
      HandleNext(s4, c).0 == SummaryStep
  {
    var s1 := HandleNext(VideoStep, c).0;
    assert s1 == WebsiteStep;
    var s2 := HandleNext(s1, c).0;
    assert s2 == AdditionalStep;
    ReviewStepsAlwaysPass(PricingStep, c);
    ReviewStepsAlwaysPass(RoiStep, c);
  }

  /** A video step without minutes holds the wizard where it is. */
  lemma MissingMinutesBlocks(c: Choices)
    requires c.videoMinutes < 1
    ensures HandleNext(VideoStep, c).0 == VideoStep
    ensures VideoMinutesError in HandleNext(VideoStep, c).1
  {
  }

  /** A step button is enabled for the current step and those before it. */
  predicate Accessible(target: Step, current: Step)
  {
    StepIndex(target) <= StepIndex(current)
  }

  /** Clicking a step button: it jumps only to an enabled step, so it never skips ahead. */
  function ClickStep(current: Step, target: Step): (r: Step)
    ensures StepIndex(r) <= StepIndex(current)
    ensures Accessible(target, current) <==> r == target
  {
    if Accessible(target, current) then target
    else
      assert target != current;
      current
  }
}
