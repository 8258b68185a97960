/**
 * The two-thumb range slider (apps/mybenefitsvideos/src/components/ui/range-slider.tsx):
 * turning a pointer position into a stepped value, dragging either thumb,
 * and the arrow keys on either thumb. Values are exact reals; the value the
 * slider would hand to `onValueChange` is returned, `None` when it hands
 * nothing. The track's position on screen is a parameter.
 */
module RangeSlider {
  import opened Wrappers
  import opened JsNum

  /** `min`, `max` and `step`; the defaults are 0, 100 and 1. */
  datatype Bounds = Bounds(min: real, max: real, step: real)

  const DefaultBounds := Bounds(0.0, 100.0, 1.0)

  /** The track's left edge and width on screen. */
  datatype Track = Track(left: real, width: real)

  datatype Thumb = MinThumb | MaxThumb

  datatype Key = ArrowLeft | ArrowDown | ArrowRight | ArrowUp | OtherKey

  function RMin(a: real, b: real): (r: real)
    ensures r <= a && r <= b && (r == a || r == b)
  {
    if a <= b then a else b
  }

  function RMax(a: real, b: real): (r: real)
    ensures r >= a && r >= b && (r == a || r == b)
  {
    if a >= b then a else b
  }

  /** The pair the slider keeps in order: the low end within bounds and at least one step below the high end, which is within bounds. */
  predicate Ordered(v: (real, real), b: Bounds)
  {
    b.min <= v.0 && v.0 + b.step <= v.1 <= b.max
  }

  /**
   * `getValue(clientX)`: without a track, `min`; otherwise the pointer's
   * share of the track, clamped to [0, 1], scaled onto [min, max], rounded
   * to a whole number of steps and clamped into [min, max].
   */
  function GetValue(track: Option<Track>, clientX: real, b: Bounds): (r: real)
    requires track.Some? ==> track.value.width > 0.0 && b.step > 0.0
    ensures track.None? ==> r == b.min
    ensures b.min <= b.max ==> b.min <= r <= b.max
    ensures track.Some? ==> r == b.min || r == b.max || exists k: int :: r == OnStep(k, b)
  {
    match track
    case None => b.min
    case Some(t) =>
      var k := StepsAt(t, clientX, b);
      var r := RMax(b.min, RMin(b.max, OnStep(k, b)));
      assert r != b.min && r != b.max ==> r == OnStep(k, b);
      r
  }

  /** A whole number of steps. */
  function OnStep(k: int, b: Bounds): real
  {
    k as real * b.step
  }

  /** The pointer's share of the track, clamped to [0, 1]. */
  function Share(t: Track, clientX: real): (r: real)
    requires t.width > 0.0
    ensures 0.0 <= r <= 1.0
  {
    RMax(0.0, RMin(1.0, (clientX - t.left) / t.width))
  }

  /** `Math.round(rawValue / step)`: the number of whole steps nearest the raw value. */
  function StepsAt(t: Track, clientX: real, b: Bounds): int
    requires t.width > 0.0 && b.step > 0.0
  {
    JsRound(Raw(t, clientX, b) / b.step)
  }

  /** `min + percentage * (max - min)`: the pointer's share scaled onto the bounds. */
  function Raw(t: Track, clientX: real, b: Bounds): real
    requires t.width > 0.0
  {
    Scale(Share(t, clientX), b)
  }

  /** A share of the track scaled onto [min, max]. */
  function Scale(share: real, b: Bounds): real
  {
    b.min + share * (b.max - b.min)
  }

  lemma RawMonotone(t: Track, x1: real, x2: real, b: Bounds)
    requires t.width > 0.0 && b.min <= b.max && x1 <= x2
    ensures Raw(t, x1, b) <= Raw(t, x2, b)
  {
    ShareMonotone(t, x1, x2);
    ScaleMonotone(Share(t, x1), Share(t, x2), b);
  }

  lemma ScaleMonotone(a: real, c: real, b: Bounds)
    requires a <= c && b.min <= b.max
    ensures Scale(a, b) <= Scale(c, b)
  {
    MulMonotone(a, c, b.max - b.min);
  }

  lemma ShareMonotone(t: Track, x1: real, x2: real)
    requires t.width > 0.0 && x1 <= x2
    ensures Share(t, x1) <= Share(t, x2)
  {
    var a := x1 - t.left;
    var c := x2 - t.left;
    assert a / t.width <= c / t.width by {
      assert a <= c;
      DivMonotone(a, c, t.width);
    }
  }

  lemma DivMonotone(a: real, c: real, w: real)
    requires a <= c && w > 0.0
    ensures a / w <= c / w
  {
    assert c / w - a / w == (c - a) / w;
  }

  lemma MulMonotone(a: real, c: real, w: real)
    requires a <= c && w >= 0.0
    ensures a * w <= c * w
  {
    assert c * w - a * w == (c - a) * w;
  }

  lemma RoundMonotone(x: real, y: real)
    requires x <= y
    ensures JsRound(x) <= JsRound(y)
  {
  }

  /** Further right on the track never gives a smaller value. */
  lemma GetValueMonotone(t: Track, x1: real, x2: real, b: Bounds)
    requires t.width > 0.0 && b.step > 0.0 && b.min <= b.max && x1 <= x2
    ensures GetValue(Some(t), x1, b) <= GetValue(Some(t), x2, b)
  {
    RawMonotone(t, x1, x2, b);
    DivMonotone(Raw(t, x1, b), Raw(t, x2, b), b.step);
    RoundMonotone(Raw(t, x1, b) / b.step, Raw(t, x2, b) / b.step);
    var k1 := StepsAt(t, x1, b);
    var k2 := StepsAt(t, x2, b);
    assert k1 <= k2;
    MulMonotone(k1 as real, k2 as real, b.step);
    assert OnStep(k1, b) <= OnStep(k2, b);
    assert GetValue(Some(t), x1, b) == RMax(b.min, RMin(b.max, OnStep(k1, b)));
    assert GetValue(Some(t), x2, b) == RMax(b.min, RMin(b.max, OnStep(k2, b)));
  }

  /** At or left of the track's left edge the value is `min`, when `min` is a whole number of steps. */
  lemma LeftEdgeGivesMin(t: Track, clientX: real, b: Bounds, k: int)
    requires t.width > 0.0 && b.step > 0.0 && b.min <= b.max
    requires clientX <= t.left && b.min == k as real * b.step
    ensures GetValue(Some(t), clientX, b) == b.min
  {
    assert (clientX - t.left) / t.width <= 0.0 by {
      DivMonotone(clientX - t.left, 0.0, t.width);
    }
    assert Share(t, clientX) == 0.0;
    assert Raw(t, clientX, b) == b.min;
    assert b.min / b.step == k as real;
    FloorIs(k as real + 0.5, k);
  }

  /** At or right of the track's right edge the value is `max`, when `max` is a whole number of steps. */
  lemma RightEdgeGivesMax(t: Track, clientX: real, b: Bounds, k: int)
    requires t.width > 0.0 && b.step > 0.0 && b.min <= b.max
    requires clientX >= t.left + t.width && b.max == k as real * b.step
    ensures GetValue(Some(t), clientX, b) == b.max
  {
    assert (clientX - t.left) / t.width >= 1.0 by {
      DivMonotone(t.width, clientX - t.left, t.width);
      assert t.width / t.width == 1.0;
    }
    assert Share(t, clientX) == 1.0;
    assert Raw(t, clientX, b) == b.max;
    assert b.max / b.step == k as real;
    FloorIs(k as real + 0.5, k);
  }

  /** `handleMouseDown`: a drag starts on the pressed thumb unless the slider is disabled. */
  function MouseDown(dragging: Option<Thumb>, thumb: Thumb, disabled: bool): (r: Option<Thumb>)
    ensures disabled ==> r == dragging
    ensures !disabled ==> r == Some(thumb)
  {
    if disabled then dragging else Some(thumb)
  }

  /**
   * `handleMouseMove`: while a thumb is dragged on an enabled slider, the
   * dragged end follows the pointer but stays at least one step away from
   * the other end, which is kept.
   */
  function MouseMove(v: (real, real), dragging: Option<Thumb>, disabled: bool, track: Option<Track>, clientX: real, b: Bounds): (r: Option<(real, real)>)
    requires track.Some? ==> track.value.width > 0.0 && b.step > 0.0
    ensures r.Some? <==> dragging.Some? && !disabled
    ensures r.Some? && dragging == Some(MinThumb) ==> r.value.1 == v.1 && r.value.0 <= v.1 - b.step
    ensures r.Some? && dragging == Some(MaxThumb) ==> r.value.0 == v.0 && r.value.1 >= v.0 + b.step
  {
    if dragging.None? || disabled then None
    else
      var nv := GetValue(track, clientX, b);
      match dragging.value
      case MinThumb => Some((RMin(nv, v.1 - b.step), v.1))
      case MaxThumb => Some((v.0, RMax(nv, v.0 + b.step)))
  }

  /** A drag keeps an ordered pair ordered. */
  lemma MouseMoveKeepsOrder(v: (real, real), dragging: Option<Thumb>, track: Option<Track>, clientX: real, b: Bounds)
    requires track.Some? ==> track.value.width > 0.0 && b.step > 0.0
    requires b.step > 0.0 && Ordered(v, b)
    ensures var r := MouseMove(v, dragging, false, track, clientX, b);
      r.Some? ==> Ordered(r.value, b)
  {
  }

  /**
   * The arrow keys on the low thumb: left/down one step lower but not
   * below `min`, right/up one step higher but not closer than a step to
   * the high end; the pair is handed on only when the low end moved.
   */
  function MinThumbKey(v: (real, real), key: Key, disabled: bool, b: Bounds): (r: Option<(real, real)>)
    ensures disabled || key == OtherKey ==> r.None?
    ensures r.Some? ==> r.value.1 == v.1 && r.value.0 != v.0
    ensures (key == ArrowLeft || key == ArrowDown) && r.Some? ==> b.min <= r.value.0
    ensures (key == ArrowLeft || key == ArrowDown) && r.Some? && b.step > 0.0 && b.min <= v.0 ==> r.value.0 < v.0
    ensures (key == ArrowRight || key == ArrowUp) && r.Some? ==> r.value.0 <= v.1 - b.step
  {
    if disabled then None
    else
      var newMin :=
        match key
        case ArrowLeft => RMax(b.min, v.0 - b.step)
        case ArrowDown => RMax(b.min, v.0 - b.step)
        case ArrowRight => RMin(v.1 - b.step, v.0 + b.step)
        case ArrowUp => RMin(v.1 - b.step, v.0 + b.step)
        case OtherKey => v.0;
      if newMin != v.0 then Some((newMin, v.1)) else None
  }

  /**
   * The arrow keys on the high thumb: left/down one step lower but not
   * closer than a step to the low end, right/up one step higher but not
   * above `max`; the pair is handed on only when the high end moved.
   */
  function MaxThumbKey(v: (real, real), key: Key, disabled: bool, b: Bounds): (r: Option<(real, real)>)
    ensures disabled || key == OtherKey ==> r.None?
    ensures r.Some? ==> r.value.0 == v.0 && r.value.1 != v.1
    ensures (key == ArrowLeft || key == ArrowDown) && r.Some? ==> r.value.1 >= v.0 + b.step
    ensures (key == ArrowRight || key == ArrowUp) && r.Some? ==> r.value.1 <= b.max
    ensures (key == ArrowRight || key == ArrowUp) && r.Some? && b.step > 0.0 && v.1 <= b.max ==> v.1 < r.value.1
  {
    if disabled then None
    else
      var newMax :=
        match key
        case ArrowLeft => RMax(v.0 + b.step, v.1 - b.step)
        case ArrowDown => RMax(v.0 + b.step, v.1 - b.step)
        case ArrowRight => RMin(b.max, v.1 + b.step)
        case ArrowUp => RMin(b.max, v.1 + b.step)
        case OtherKey => v.1;
      if newMax != v.1 then Some((v.0, newMax)) else None
  }

  /** Either thumb's keys keep an ordered pair ordered. */
  lemma KeysKeepOrder(v: (real, real), key: Key, b: Bounds)
    requires b.step > 0.0 && Ordered(v, b)
    ensures var r := MinThumbKey(v, key, false, b); r.Some? ==> Ordered(r.value, b)
    ensures var r := MaxThumbKey(v, key, false, b); r.Some? ==> Ordered(r.value, b)
  {
  }

  /** On an ordered pair the keys move the way their arrows point, and by exactly one step when there is room. */
  lemma KeysMoveByOneStep(v: (real, real), b: Bounds)
    requires b.step > 0.0 && Ordered(v, b)
    ensures v.0 - b.step >= b.min ==> MinThumbKey(v, ArrowLeft, false, b) == Some((v.0 - b.step, v.1))
    ensures v.0 + 2.0 * b.step <= v.1 ==> MinThumbKey(v, ArrowRight, false, b) == Some((v.0 + b.step, v.1))
    ensures v.1 - b.step >= v.0 + b.step ==> MaxThumbKey(v, ArrowLeft, false, b) == Some((v.0, v.1 - b.step))
    ensures v.1 + b.step <= b.max ==> MaxThumbKey(v, ArrowUp, false, b) == Some((v.0, v.1 + b.step))
    ensures MinThumbKey(v, ArrowRight, false, b).Some? ==> MinThumbKey(v, ArrowRight, false, b).value.0 > v.0
    ensures MaxThumbKey(v, ArrowLeft, false, b).Some? ==> MaxThumbKey(v, ArrowLeft, false, b).value.1 < v.1
  {
  }

  /** Thumbs closer than a step are not ordered, and then ArrowRight moves the low thumb to the left. */
  lemma CrowdedRightMovesLeft(v: (real, real), b: Bounds)
    requires b.step > 0.0 && v.1 - v.0 < b.step
    ensures MinThumbKey(v, ArrowRight, false, b) == Some((v.1 - b.step, v.1))
    ensures v.1 - b.step < v.0
  {
  }

  /** A disabled slider starts no drag and hands on nothing. */
  lemma DisabledIsInert(v: (real, real), key: Key, thumb: Thumb, track: Option<Track>, clientX: real, b: Bounds)
    requires track.Some? ==> track.value.width > 0.0 && b.step > 0.0
    ensures MouseDown(None, thumb, true).None?
    ensures MouseMove(v, Some(thumb), true, track, clientX, b).None?
    ensures MinThumbKey(v, key, true, b).None? && MaxThumbKey(v, key, true, b).None?
  {
  }
}
