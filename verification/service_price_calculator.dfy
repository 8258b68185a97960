/**
 * The price calculator of the preview's service pages
 * (preview/src/components/sections/service-pricing.tsx): a base price that
 * covers two minutes, a per-minute price beyond that, and an optional rush
 * multiplier, with the breakdown lines shown under the total. Prices are
 * reals, as the page's configuration may use fractional multipliers; an
 * absent optional price is `None`, and JavaScript's `|| 0` and truthiness
 * tests treat a zero the same way.
 */
module ServicePriceCalculator {
  import opened Wrappers
  import opened JsNum

  /** The page's `calculator` configuration. */
  datatype Calculator = Calculator(enabled: bool, basePrice: real, extraMinutePrice: Option<real>, rushMultiplier: Option<real>)

  /** The calculator's own state: the minutes slider (1 to 10, starting at 2) and the rush switch. */
  datatype CalcState = CalcState(selectedMinutes: int, rushDelivery: bool)

  const InitialState := CalcState(2, false)

  /** `calculator.extraMinutePrice || 0`. */
  function ExtraRate(c: Calculator): (r: real)
    ensures c.extraMinutePrice.Some? ==> r == c.extraMinutePrice.value
    ensures c.extraMinutePrice.None? ==> r == 0.0
  {
    match c.extraMinutePrice
    case None => 0.0
    case Some(p) => p
  }

  /** Whether `rushDelivery && calculator.rushMultiplier` holds: rush is on and a non-zero multiplier is set. */
  predicate RushApplies(c: Calculator, s: CalcState)
  {
    s.rushDelivery && c.rushMultiplier.Some? && c.rushMultiplier.value != 0.0
  }

  /** The minutes beyond the two the base price covers. */
  function ExtraMinutes(s: CalcState): (r: int)
    ensures r >= 0
    ensures s.selectedMinutes >= 2 ==> r + 2 == s.selectedMinutes
    ensures s.selectedMinutes <= 2 ==> r == 0
  {
    Max(0, s.selectedMinutes - 2)
  }

  /** The price before rush: the base and the extra minutes. */
  function Subtotal(c: Calculator, s: CalcState): (r: real)
    ensures s.selectedMinutes <= 2 ==> r == c.basePrice
  {
    c.basePrice + ExtraMinutes(s) as real * ExtraRate(c)
  }

  /** `calculatePrice`: nothing without a calculator; otherwise the subtotal, multiplied when rush applies. */
  function CalculatePrice(config: Option<Calculator>, s: CalcState): (r: real)
    ensures config.None? ==> r == 0.0
    ensures config.Some? && !RushApplies(config.value, s) ==> r == Subtotal(config.value, s)
    ensures config.Some? && RushApplies(config.value, s) ==> r == Subtotal(config.value, s) * config.value.rushMultiplier.value
  {
    match config
    case None => 0.0
    case Some(c) =>
      var subtotal := Subtotal(c, s);
      if RushApplies(c, s) then subtotal * c.rushMultiplier.value else subtotal
  }

  /** The "Extra minutes" line: shown from the third minute on, with the extra minutes' cost. */
  function ExtraLine(c: Calculator, s: CalcState): (r: Option<real>)
    ensures r.Some? <==> s.selectedMinutes > 2
    ensures r.Some? ==> c.basePrice + r.value == Subtotal(c, s)
  {
    if s.selectedMinutes > 2 then Some((s.selectedMinutes - 2) as real * ExtraRate(c)) else None
  }

  /** The "Rush surcharge (+50%)" line: shown whenever rush is on, with the total less the subtotal. */
  function RushLine(c: Calculator, s: CalcState): (r: Option<real>)
    ensures r.Some? <==> s.rushDelivery
    ensures r.Some? ==> Subtotal(c, s) + r.value == CalculatePrice(Some(c), s)
  {
    if s.rushDelivery then Some(CalculatePrice(Some(c), s) - (c.basePrice + ExtraMinutes(s) as real * ExtraRate(c)))
    else None
  }

  /** The breakdown adds up: base, the extra-minutes line when shown and the rush line when shown give the total. */
  lemma BreakdownAddsUp(c: Calculator, s: CalcState)
    ensures var extra := ExtraLine(c, s);
      var rush := RushLine(c, s);
      c.basePrice + (if extra.Some? then extra.value else 0.0) + (if rush.Some? then rush.value else 0.0)
        == CalculatePrice(Some(c), s)
  {
  }

  /** With a multiplier of 1.5 the rush line is half the subtotal, as its "+50%" label says. */
  lemma HalfSurchargeAtOnePointFive(c: Calculator, s: CalcState)
    requires s.rushDelivery && c.rushMultiplier == Some(1.5)
    ensures RushLine(c, s) == Some(Subtotal(c, s) / 2.0)
  {
  }

  /** Without a multiplier the rush switch still shows its "+50%" line, at nothing. */
  lemma RushWithoutMultiplierIsFree(c: Calculator, s: CalcState)
    requires s.rushDelivery && c.rushMultiplier.None?
    ensures RushLine(c, s) == Some(0.0)
    ensures CalculatePrice(Some(c), s) == CalculatePrice(Some(c), s.(rushDelivery := false))
  {
  }

  /** The price depends on the configuration's figures only: the `enabled` flag changes nothing. */
  lemma EnabledFlagIgnored(c: Calculator, s: CalcState, b: bool)
    ensures CalculatePrice(Some(c.(enabled := b)), s) == CalculatePrice(Some(c), s)
  {
  }

  lemma ScaleLe(a: real, b: real, m: real)
    requires a <= b && m >= 0.0
    ensures a * m <= b * m
  {
    assert b * m - a * m == (b - a) * m;
  }

  /** With non-negative prices and multiplier, more minutes never cost less. */
  lemma PriceMonotoneInMinutes(c: Calculator, s: CalcState, n: int)
    requires s.selectedMinutes <= n
    requires ExtraRate(c) >= 0.0
    requires c.rushMultiplier.Some? ==> c.rushMultiplier.value >= 0.0
    ensures CalculatePrice(Some(c), s) <= CalculatePrice(Some(c), s.(selectedMinutes := n))
  {
    var t := s.(selectedMinutes := n);
    SubtotalMonotone(c, s, t);
    if RushApplies(c, s) {
      ScaleLe(Subtotal(c, s), Subtotal(c, t), c.rushMultiplier.value);
    }
  }

  lemma SubtotalMonotone(c: Calculator, s: CalcState, t: CalcState)
    requires ExtraMinutes(s) <= ExtraMinutes(t) && ExtraRate(c) >= 0.0
    ensures Subtotal(c, s) <= Subtotal(c, t)
  {
    var a, b, rate := ExtraMinutes(s) as real, ExtraMinutes(t) as real, ExtraRate(c);
    ScaleLe(a, b, rate);
    var x, y := a * rate, b * rate;
    assert x <= y;
    assert Subtotal(c, s) == c.basePrice + x;
    assert Subtotal(c, t) == c.basePrice + y;
  }

  /** Without rush the first two minutes cost the base price alone; the calculator opens there. */
  lemma TwoMinutesAtBase(c: Calculator, s: CalcState)
    requires 1 <= s.selectedMinutes <= 2 && !RushApplies(c, s)
    ensures CalculatePrice(Some(c), s) == c.basePrice
    ensures CalculatePrice(Some(c), InitialState) == c.basePrice
  {
  }
}
