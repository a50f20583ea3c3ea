/**
 A control stick: two analog axes read together as a vector, with the snapping
 of both values to the 1/80 steps the game's original hardware reports.
 */
module AnalogSticks {
  import opened RealMath
  import opened Vectors
  import opened AnalogAxes

  datatype AnalogStick = AnalogStick(xAxis: AnalogAxis, yAxis: AnalogAxis)

  function NewStick(deadZone: real): (s: AnalogStick)
    ensures s.xAxis == NewAxis(deadZone) && s.yAxis == NewAxis(deadZone)
  {
    AnalogStick(NewAxis(deadZone), NewAxis(deadZone))
  }

  function StickVector(s: AnalogStick): Vector {
    Vector(s.xAxis.value, s.yAxis.value)
  }

  /** Only the two current values differ between the sticks. */
  predicate SameRecords(s: AnalogStick, t: AnalogStick) {
    t.xAxis == SetValue(s.xAxis, t.xAxis.value) && t.yAxis == SetValue(s.yAxis, t.yAxis.value)
  }

  /** The distance of the stick from the centre, sqrt(x^2 + y^2). */
  ghost function StickMagnitude(s: AnalogStick): (m: real)
    ensures m >= 0.0
    ensures m > 0.0 ==> m * m == s.xAxis.value * s.xAxis.value + s.yAxis.value * s.yAxis.value
    ensures s.xAxis.value == 0.0 && s.yAxis.value == 0.0 ==> m == 0.0
  {
    var v := StickVector(s);
    assert SquaredLength(v) == s.xAxis.value * s.xAxis.value + s.yAxis.value * s.yAxis.value;
    if v == Zero then MagnitudeOfZero(); Magnitude(v) else Magnitude(v)
  }

  /**
   Rescales both axes by one factor so the stick's distance from the centre
   becomes |value|; a centred stick is left alone, and only the two values change.
   */
  ghost function SetMagnitude(s: AnalogStick, value: real): (r: AnalogStick)
    ensures StickMagnitude(s) == 0.0 ==> r == s
    ensures StickVector(r) == WithMagnitude(StickVector(s), value)
    ensures SameRecords(s, r)
  {
    if StickMagnitude(s) != 0.0 then
      RescaledStick(s, value);
      AnalogStick(SetValue(s.xAxis, s.xAxis.value * (value / StickMagnitude(s))),
                  SetValue(s.yAxis, s.yAxis.value * (value / StickMagnitude(s))))
    else
      s
  }

  /**
   A stick off centre ends at distance |value| from it, on the same line
   through the centre, and for a positive value on the same side of both axes.
   */
  lemma SetMagnitudeFacts(s: AnalogStick, value: real)
    ensures StickMagnitude(s) != 0.0 ==> StickMagnitude(SetMagnitude(s, value)) == Abs(value)
    ensures SetMagnitude(s, value).xAxis.value * s.yAxis.value == SetMagnitude(s, value).yAxis.value * s.xAxis.value
    ensures value > 0.0 ==>
              && (SetMagnitude(s, value).xAxis.value > 0.0 <==> s.xAxis.value > 0.0)
              && (SetMagnitude(s, value).xAxis.value < 0.0 <==> s.xAxis.value < 0.0)
    ensures value > 0.0 ==>
              && (SetMagnitude(s, value).yAxis.value > 0.0 <==> s.yAxis.value > 0.0)
              && (SetMagnitude(s, value).yAxis.value < 0.0 <==> s.yAxis.value < 0.0)
  {
    var r := SetMagnitude(s, value);
    WithMagnitudeFacts(StickVector(s), value);
    assert StickVector(r) == WithMagnitude(StickVector(s), value);
    assert StickMagnitude(r) == Magnitude(StickVector(r));
  }

  lemma RescaledStick(s: AnalogStick, value: real)
    requires StickMagnitude(s) != 0.0
    ensures StickVector(AnalogStick(SetValue(s.xAxis, s.xAxis.value * (value / StickMagnitude(s))),
                                    SetValue(s.yAxis, s.yAxis.value * (value / StickMagnitude(s)))))
         == WithMagnitude(StickVector(s), value)
  {
    assert StickMagnitude(s) == Magnitude(StickVector(s));
  }

  /** atan2(y, x) of the stick, and 0 when it is centred, as for any vector. */
  ghost function StickAngle(s: AnalogStick): (a: real)
    ensures s.xAxis.value == 0.0 && s.yAxis.value == 0.0 ==> a == 0.0
    ensures a == Angle(StickVector(s))
  {
    if s.xAxis.value != 0.0 || s.yAxis.value != 0.0 then Atan2(s.yAxis.value, s.xAxis.value) else 0.0
  }

  /** The step of 1/80 nearest to `v` on its side of zero, truncating towards zero. */
  function TruncateToStep(v: real): real {
    if v >= 0.0 then (v * 80.0).Floor as real / 80.0 else -((-v * 80.0).Floor as real / 80.0)
  }

  /**
   Snaps an axis of a stick that was rescaled onto the unit circle: the value is
   rounded to the nearest step unless that would take it further from the centre,
   in which case the step below is used.
   */
  function ConvertAxis(a: AnalogAxis): (r: AnalogAxis)
    ensures r == SetValue(a, r.value)
    ensures IsMeleeStep(r.value)
  {
    var magnitude := AxisMagnitude(a);
    var rounded := Round(a.value * 80.0) as real / 80.0;
    if Abs(rounded) > magnitude then
      IntegerEightiethIsMeleeStep((magnitude * 80.0).Floor);
      IntegerEightiethIsMeleeStep(-((magnitude * 80.0).Floor));
      SetValue(a, AnalogAxes.Direction(a) * (magnitude * 80.0).Floor as real / 80.0)
    else
      IntegerEightiethIsMeleeStep(Round(a.value * 80.0));
      SetValue(a, rounded)
  }

  /**
   The snapped axis is never further from the centre than before, less than
   one step closer to it, and on the same side of it (or at it).
   */
  lemma ConvertAxisBounds(a: AnalogAxis)
    ensures Abs(ConvertAxis(a).value) <= Abs(a.value)
    ensures Abs(a.value) - Abs(ConvertAxis(a).value) < 1.0 / 80.0
    ensures ConvertAxis(a).value == 0.0 || (ConvertAxis(a).value > 0.0 <==> a.value > 0.0)
  {
    var magnitude := AxisMagnitude(a);
    var rounded := Round(a.value * 80.0) as real / 80.0;
    if Abs(rounded) > magnitude {
      FloorStep(magnitude);
      var step := (magnitude * 80.0).Floor as real / 80.0;
      assert ConvertAxis(a).value == AnalogAxes.Direction(a) * step;
      DirectedStep(a.value, AnalogAxes.Direction(a), step);
    } else {
      RoundStep(a.value);
    }
  }

  /** The step below the size, given the value's sign, has that size and sign. */
  lemma DirectedStep(v: real, d: real, step: real)
    requires (d == 1.0 && v > 0.0) || (d == -1.0 && v < 0.0) || (d == 0.0 && v == 0.0)
    requires 0.0 <= step
    ensures Abs(d * step) == (if d == 0.0 then 0.0 else step)
    ensures d * step == 0.0 || (d * step > 0.0 <==> v > 0.0)
  {
  }

  lemma FloorStep(m: real)
    requires m >= 0.0
    ensures 0.0 <= (m * 80.0).Floor as real / 80.0 <= m
    ensures m - (m * 80.0).Floor as real / 80.0 < 1.0 / 80.0
  {
  }

  lemma RoundStep(v: real)
    ensures v >= 0.0 ==> Round(v * 80.0) as real / 80.0 >= 0.0
    ensures v <= 0.0 ==> Round(v * 80.0) as real / 80.0 <= 0.0
    ensures Abs(Round(v * 80.0) as real / 80.0 - v) <= 1.0 / 160.0
    ensures Abs(Round(v * 80.0) as real / 80.0 - v) == 1.0 / 160.0 ==> Abs(Round(v * 80.0) as real / 80.0) > Abs(v)
  {
    if v == 0.0 {
      assert Round(0.0) == 0;
    }
  }

  /**
   The snapping is truncation towards zero: a step no further from the centre
   than the value and less than one step away from it can only be that one.
   */
  lemma ConvertAxisTruncates(a: AnalogAxis)
    ensures ConvertAxis(a).value == TruncateToStep(a.value)
  {
    ConvertAxisBounds(a);
    TruncationIsUnique(a.value, ConvertAxis(a).value);
  }

  lemma TruncationIsUnique(v: real, r: real)
    requires IsMeleeStep(r)
    requires Abs(r) <= Abs(v) && Abs(v) - Abs(r) < 1.0 / 80.0
    requires r == 0.0 || (r > 0.0 <==> v > 0.0)
    ensures r == TruncateToStep(v)
  {
    var k := (r * 80.0).Floor;
    if v >= 0.0 {
      StepBelow(v, r, k);
    } else {
      StepBelow(-v, -r, -k);
    }
  }

  /** A step at most `v` and less than one step below it is `v` rounded down to steps. */
  lemma StepBelow(v: real, r: real, k: int)
    requires k as real == r * 80.0
    requires 0.0 <= r <= v < r + 1.0 / 80.0
    ensures (v * 80.0).Floor == k
  {
    assert k as real <= v * 80.0 < k as real + 1.0;
  }

  /** Rounds an axis of a stick inside the unit circle to the nearest step, a tie away from the centre. */
  function RoundAxis(a: AnalogAxis): (r: AnalogAxis)
    ensures r == SetValue(a, r.value)
    ensures IsMeleeStep(r.value)
    ensures Abs(r.value - a.value) <= 1.0 / 160.0
    ensures r.value == 0.0 || (r.value > 0.0 <==> a.value > 0.0)
    ensures Abs(r.value - a.value) == 1.0 / 160.0 ==> Abs(r.value) > Abs(a.value)
  {
    RoundStep(a.value);
    IntegerEightiethIsMeleeStep(Round(a.value * 80.0));
    SetValue(a, Round(a.value * 80.0) as real / 80.0)
  }

  /**
   Snaps both axes to steps of 1/80. A stick pushed past the unit circle is first
   pulled back onto it and then truncated; otherwise both axes are rounded.
   */
  ghost function ConvertToMeleeValues(s: AnalogStick): (r: AnalogStick)
    ensures IsMeleeStep(r.xAxis.value) && IsMeleeStep(r.yAxis.value)
    ensures SameRecords(s, r)
  {
    if StickMagnitude(s) > 1.0 then
      AnalogStick(ConvertAxis(SetMagnitude(s, 1.0).xAxis), ConvertAxis(SetMagnitude(s, 1.0).yAxis))
    else
      AnalogStick(RoundAxis(s.xAxis), RoundAxis(s.yAxis))
  }

  /** No axis changes sign. */
  lemma MeleeValuesKeepSigns(s: AnalogStick)
    ensures var r := ConvertToMeleeValues(s);
            && (r.xAxis.value == 0.0 || (r.xAxis.value > 0.0 <==> s.xAxis.value > 0.0))
            && (r.yAxis.value == 0.0 || (r.yAxis.value > 0.0 <==> s.yAxis.value > 0.0))
  {
    if StickMagnitude(s) > 1.0 {
      var unit := SetMagnitude(s, 1.0);
      SetMagnitudeFacts(s, 1.0);
      ConvertAxisBounds(unit.xAxis);
      ConvertAxisBounds(unit.yAxis);
    }
  }

  /**
   A stick pushed past the unit circle ends inside it, each axis no larger in
   size than on the circle.
   */
  lemma MeleeValuesInsideCircle(s: AnalogStick)
    requires StickMagnitude(s) > 1.0
    ensures Abs(ConvertToMeleeValues(s).xAxis.value) <= Abs(SetMagnitude(s, 1.0).xAxis.value)
    ensures Abs(ConvertToMeleeValues(s).yAxis.value) <= Abs(SetMagnitude(s, 1.0).yAxis.value)
    ensures SquaredLength(StickVector(ConvertToMeleeValues(s))) <= 1.0
  {
    var unit := SetMagnitude(s, 1.0);
    ConvertAxisBounds(unit.xAxis);
    ConvertAxisBounds(unit.yAxis);
    PulledBackStickIsInside(s);
  }

  /** A stick on or inside the unit circle moves by at most half a step on each axis. */
  lemma MeleeValuesNear(s: AnalogStick)
    requires StickMagnitude(s) <= 1.0
    ensures Abs(ConvertToMeleeValues(s).xAxis.value - s.xAxis.value) <= 1.0 / 160.0
    ensures Abs(ConvertToMeleeValues(s).yAxis.value - s.yAxis.value) <= 1.0 / 160.0
  {
  }

  lemma PulledBackStickIsInside(s: AnalogStick)
    requires StickMagnitude(s) > 1.0
    ensures SquaredLength(StickVector(AnalogStick(ConvertAxis(SetMagnitude(s, 1.0).xAxis), ConvertAxis(SetMagnitude(s, 1.0).yAxis)))) <= 1.0
  {
    var unit := SetMagnitude(s, 1.0);
    SetMagnitudeFacts(s, 1.0);
    ConvertAxisBounds(unit.xAxis);
    ConvertAxisBounds(unit.yAxis);
    UnitStickSquares(unit);
    SmallerStickInside(unit, AnalogStick(ConvertAxis(unit.xAxis), ConvertAxis(unit.yAxis)));
  }

  lemma UnitStickSquares(s: AnalogStick)
    requires StickMagnitude(s) == 1.0
    ensures SquaredLength(StickVector(s)) == 1.0
  {
  }

  lemma SmallerStickInside(u: AnalogStick, r: AnalogStick)
    requires SquaredLength(StickVector(u)) == 1.0
    requires Abs(r.xAxis.value) <= Abs(u.xAxis.value) && Abs(r.yAxis.value) <= Abs(u.yAxis.value)
    ensures SquaredLength(StickVector(r)) <= 1.0
  {
    SquareMonotone(r.xAxis.value, u.xAxis.value);
    SquareMonotone(r.yAxis.value, u.yAxis.value);
  }

  lemma SquareMonotone(a: real, b: real)
    requires Abs(a) <= Abs(b)
    ensures a * a <= b * b
  {
    var p, q := Abs(a), Abs(b);
    assert a * a == p * p && b * b == q * q;
    NonNegativeProduct(p, q - p);
    NonNegativeProduct(q, q - p);
    assert p * q - p * p == p * (q - p);
    assert q * q - p * q == q * (q - p);
  }

  /**
   Rounding alone can leave the unit circle: the point (33/65, 56/65) lies on it,
   and its rounded image (41/80, 69/80) lies outside.
   */
  lemma RoundingCanLeaveUnitCircle(s: AnalogStick)
    requires s.xAxis.value == 33.0 / 65.0 && s.yAxis.value == 56.0 / 65.0
    ensures StickMagnitude(s) == 1.0
    ensures ConvertToMeleeValues(s).xAxis.value == 41.0 / 80.0
    ensures ConvertToMeleeValues(s).yAxis.value == 69.0 / 80.0
    ensures SquaredLength(StickVector(ConvertToMeleeValues(s))) > 1.0
  {
    assert SquaredLength(StickVector(s)) == 1.0 * 1.0;
    SqrtOfSquare(1.0);
    assert Round(s.xAxis.value * 80.0) == 41;
    assert Round(s.yAxis.value * 80.0) == 69;
  }

  /** Ends the frame for both axes. */
  function Update(s: AnalogStick): (r: AnalogStick)
    ensures StickVector(r) == StickVector(s)
    ensures r.xAxis.previous == s.xAxis.value && r.yAxis.previous == s.yAxis.value
    ensures !JustActivated(r.xAxis) && !JustActivated(r.yAxis)
    ensures !JustDeactivated(r.xAxis) && !JustDeactivated(r.yAxis)
  {
    AnalogStick(AnalogAxes.Update(s.xAxis), AnalogAxes.Update(s.yAxis))
  }
}
