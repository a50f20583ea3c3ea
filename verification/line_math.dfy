/**
 Line segments: endpoint ordering, slope and y-intercept (with the infinities
 and NaN a float division produces), length, direction and normal, point
 containment, the four-orientation intersection test, and the slope/intercept
 intersection point. Polylines are split into consecutive segments.
 */
module Lines {
  import opened Wrappers
  import opened RealMath
  import opened ExtendedReal
  import opened Points
  import opened Vectors
  import opened GeneralMath

  datatype Segment = Segment(a: Point, b: Point)

  /** A point whose coordinates may be infinite or NaN. */
  datatype ExtPoint = ExtPoint(x: ExtReal, y: ExtReal)

  function Lift(p: Point): ExtPoint {
    ExtPoint(Finite(p.x), Finite(p.y))
  }

  function LeftPoint(s: Segment): (p: Point)
    ensures p == s.a || p == s.b
    ensures p.x <= s.a.x && p.x <= s.b.x
    ensures s.a.x == s.b.x ==> p == s.a
  {
    if s.a.x <= s.b.x then s.a else s.b
  }

  function RightPoint(s: Segment): (p: Point)
    ensures p == s.a || p == s.b
    ensures p.x >= s.a.x && p.x >= s.b.x
    ensures s.a.x == s.b.x ==> p == s.b
  {
    if s.a.x > s.b.x then s.a else s.b
  }

  /** The left and right points are the two endpoints, one each. */
  lemma LeftRightAreTheEndpoints(s: Segment)
    ensures (LeftPoint(s), RightPoint(s)) == (s.a, s.b) || (LeftPoint(s), RightPoint(s)) == (s.b, s.a)
    ensures LeftPoint(s).x <= RightPoint(s).x
  {
  }

  /** The segment from its left point to its right point. */
  function Ordered(s: Segment): (o: Segment)
    ensures o.a.x <= o.b.x
    ensures o == s || o == Segment(s.b, s.a)
  {
    Segment(LeftPoint(s), RightPoint(s))
  }

  /** A segment whose two endpoints coincide. */
  predicate IsDegenerate(s: Segment) {
    s.a == s.b
  }

  predicate IsVertical(s: Segment) {
    s.a.x == s.b.x && s.a.y != s.b.y
  }

  /** The endpoint difference b - a. */
  function Span(s: Segment): Vector {
    Vector(s.b.x - s.a.x, s.b.y - s.a.y)
  }

  /** Rise over run from the left point to the right point, as a 64-bit float division computes it. */
  function Slope(s: Segment): (m: ExtReal)
    ensures m.Finite? <==> s.a.x != s.b.x
    ensures m.Finite? ==> m.value * (s.b.x - s.a.x) == s.b.y - s.a.y
    ensures m == PosInf <==> s.a.x == s.b.x && s.a.y < s.b.y
    ensures m == NegInf <==> s.a.x == s.b.x && s.a.y > s.b.y
    ensures m.NaN? <==> IsDegenerate(s)
  {
    var l, r := LeftPoint(s), RightPoint(s);
    var m := Div(Finite(r.y - l.y), Finite(r.x - l.x));
    if s.a.x != s.b.x then
      SlopeRelation(l, r, s);
      m
    else
      m
  }

  lemma SlopeRelation(l: Point, r: Point, s: Segment)
    requires s.a.x != s.b.x
    requires (l, r) == (s.a, s.b) || (l, r) == (s.b, s.a)
    ensures ((r.y - l.y) / (r.x - l.x)) * (s.b.x - s.a.x) == s.b.y - s.a.y
  {
    var q := (r.y - l.y) / (r.x - l.x);
    assert q * (r.x - l.x) == r.y - l.y;
    if (l, r) == (s.b, s.a) {
      assert q * (s.b.x - s.a.x) == -(q * (r.x - l.x));
    }
  }

  /** Whether two segments are parallel in the sense of the code as written: their slopes compare equal (NaN equals nothing). */
  predicate IsParallelWith(s: Segment, t: Segment) {
    Equal(Slope(s), Slope(t))
  }

  /** Where the carrier line crosses x = 0, computed from the left point. */
  function YIntercept(s: Segment): (c: ExtReal)
    ensures Slope(s).Finite? ==> c.Finite?
    ensures Slope(s).Finite? ==> s.a.y == Slope(s).value * s.a.x + c.value
    ensures Slope(s).Finite? ==> s.b.y == Slope(s).value * s.b.x + c.value
    ensures Slope(s).NaN? ==> c.NaN?
    ensures IsVertical(s) ==> (c.NaN? <==> s.a.x == 0.0)
  {
    var l := LeftPoint(s);
    var c := Sub(Finite(l.y), Mul(Slope(s), Finite(l.x)));
    if Slope(s).Finite? then
      InterceptRelation(s, Slope(s).value);
      c
    else
      c
  }

  lemma InterceptRelation(s: Segment, m: real)
    requires m * (s.b.x - s.a.x) == s.b.y - s.a.y
    ensures s.a.y == m * s.a.x + (LeftPoint(s).y - m * LeftPoint(s).x)
    ensures s.b.y == m * s.b.x + (LeftPoint(s).y - m * LeftPoint(s).x)
  {
    assert m * s.b.x - m * s.a.x == s.b.y - s.a.y;
  }

  ghost function Length(s: Segment): (len: real)
    ensures len >= 0.0
    ensures IsDegenerate(s) ==> len == 0.0
    ensures len > 0.0 ==> len * len == SquaredLength(Span(s))
  {
    if IsDegenerate(s) then MagnitudeOfZero(); assert Span(s) == Zero; Magnitude(Span(s))
    else Magnitude(Span(s))
  }

  /** The unit vector from a to b, or the zero vector for a segment of length 0. */
  ghost function Direction(s: Segment): (d: Vector)
    ensures Length(s) == 0.0 ==> d == Zero
    ensures Length(s) > 0.0 ==> Magnitude(d) == 1.0
    ensures Parallel(d, Span(s))
    ensures d == Vectors.Direction(Span(s))
  {
    var length := Length(s);
    DirectionIsUnitAlong(Span(s));
    if length > 0.0 then
      SpanDirection(s, length);
      Vector((s.b.x - s.a.x) / length, (s.b.y - s.a.y) / length)
    else
      Zero
  }

  lemma SpanDirection(s: Segment, length: real)
    requires length == Length(s) > 0.0
    ensures Vectors.Direction(Span(s)) == Vector((s.b.x - s.a.x) / length, (s.b.y - s.a.y) / length)
  {
  }

  /**
   The direction turned a quarter turn counterclockwise: the upward normal when
   a is the left point, the downward one when a is the right point.
   */
  ghost function Normal(s: Segment): (n: Vector)
    ensures n == Vector(-Direction(s).y, Direction(s).x)
    ensures Dot(n, Direction(s)) == 0.0
    ensures Length(s) == 0.0 ==> n == Zero
    ensures Length(s) > 0.0 ==> Magnitude(n) == 1.0
  {
    var length := Length(s);
    if length > 0.0 then
      var n := Vector((s.a.y - s.b.y) / length, (s.b.x - s.a.x) / length);
      QuarterTurnKeepsMagnitude(Direction(s));
      n
    else
      Zero
  }

  lemma QuarterTurnKeepsMagnitude(v: Vector)
    ensures Magnitude(Vector(-v.y, v.x)) == Magnitude(v)
  {
    assert SquaredLength(Vector(-v.y, v.x)) == SquaredLength(v);
  }

  /** Whether the point lies in the segment's axis-aligned bounding box. */
  predicate ContainsColinearPoint(s: Segment, p: Point) {
    p.x <= Max(s.a.x, s.b.x) && p.x >= Min(s.a.x, s.b.x)
    && p.y <= Max(s.a.y, s.b.y) && p.y >= Min(s.a.y, s.b.y)
  }

  /** The point a fraction t of the way from a to b. */
  function Along(s: Segment, t: real): Point {
    Point(Lerp(s.a.x, s.b.x, t), Lerp(s.a.y, s.b.y, t))
  }

  /** Whether p lies on the infinite line through a and b (on every line, for a degenerate segment). */
  predicate OnCarrier(s: Segment, p: Point) {
    TurnValue(s.a, s.b, p) == 0.0
  }

  /** Whether p is colinear with the left and right points and inside the bounding box. */
  predicate ContainsPoint(s: Segment, p: Point) {
    if TripletOrientation(p, LeftPoint(s), RightPoint(s)) == Colinear then
      ContainsColinearPoint(s, p)
    else
      false
  }

  /** Orientation against the ordered endpoints is colinear exactly when the point is on the carrier line. */
  lemma ColinearWithOrderedIffOnCarrier(s: Segment, p: Point)
    ensures TripletOrientation(p, LeftPoint(s), RightPoint(s)) == Colinear <==> OnCarrier(s, p)
  {
    TurnValueCyclic(p, s.a, s.b);
    TurnValueSwap(p, s.a, s.b);
  }

  /** The containment test accepts exactly the points on the carrier line inside the bounding box. */
  lemma ContainsPointIff(s: Segment, p: Point)
    ensures ContainsPoint(s, p) <==> OnCarrier(s, p) && ContainsColinearPoint(s, p)
  {
    ColinearWithOrderedIffOnCarrier(s, p);
  }

  /** Every point between the endpoints is contained, endpoints included. */
  lemma PointBetweenEndpointsIsContained(s: Segment, t: real)
    requires 0.0 <= t <= 1.0
    ensures ContainsPoint(s, Along(s, t))
  {
    var p := Along(s, t);
    TurnValueFromFirstPoint(s.a, s.b, p);
    var dx, dy := s.b.x - s.a.x, s.b.y - s.a.y;
    assert p.x - s.a.x == t * dx && p.y - s.a.y == t * dy;
    assert dy * (t * dx) - dx * (t * dy) == 0.0;
    LerpStaysBetween(s.a.x, s.b.x, t);
    LerpStaysBetween(s.a.y, s.b.y, t);
    ContainsPointIff(s, p);
  }

  lemma EndpointsAreContained(s: Segment)
    ensures ContainsPoint(s, s.a) && ContainsPoint(s, s.b)
  {
    PointBetweenEndpointsIsContained(s, 0.0);
    PointBetweenEndpointsIsContained(s, 1.0);
    assert Along(s, 0.0) == s.a;
    assert Along(s, 1.0) == s.b;
  }

  /** The four-orientation test for whether two closed segments share a point. */
  predicate IntersectsWith(s: Segment, t: Segment) {
    var o0 := TripletOrientation(s.a, s.b, t.a);
    var o1 := TripletOrientation(s.a, s.b, t.b);
    var o2 := TripletOrientation(t.a, t.b, s.a);
    var o3 := TripletOrientation(t.a, t.b, s.b);
    if o0 != o1 && o2 != o3 then true
    else if o0 == Colinear && ContainsColinearPoint(s, t.a) then true
    else if o1 == Colinear && ContainsColinearPoint(s, t.b) then true
    else if o2 == Colinear && ContainsColinearPoint(t, s.a) then true
    else if o3 == Colinear && ContainsColinearPoint(t, s.b) then true
    else false
  }

  lemma IntersectsWithSymmetric(s: Segment, t: Segment)
    ensures IntersectsWith(s, t) == IntersectsWith(t, s)
  {
  }

  /** An endpoint of either segment lying on the other one is enough for the test to succeed. */
  lemma ContainedEndpointIntersects(s: Segment, t: Segment)
    requires ContainsPoint(s, t.a) || ContainsPoint(s, t.b) || ContainsPoint(t, s.a) || ContainsPoint(t, s.b)
    ensures IntersectsWith(s, t)
  {
    ContainsPointIff(s, t.a);
    ContainsPointIff(s, t.b);
    ContainsPointIff(t, s.a);
    ContainsPointIff(t, s.b);
  }

  /** Segments whose endpoints lie strictly on opposite sides of each other's lines cross. */
  lemma ProperCrossingIntersects(s: Segment, t: Segment)
    requires TurnValue(s.a, s.b, t.a) * TurnValue(s.a, s.b, t.b) < 0.0
    requires TurnValue(t.a, t.b, s.a) * TurnValue(t.a, t.b, s.b) < 0.0
    ensures IntersectsWith(s, t)
  {
  }

  /** A segment lying strictly on one side of the other's line does not meet it. */
  lemma OneSidedDoesNotIntersect(s: Segment, t: Segment)
    requires TurnValue(s.a, s.b, t.a) != 0.0 && TurnValue(s.a, s.b, t.b) != 0.0
    requires TurnValue(t.a, t.b, s.a) != 0.0 && TurnValue(t.a, t.b, s.b) != 0.0
    requires TurnValue(s.a, s.b, t.a) * TurnValue(s.a, s.b, t.b) > 0.0
          || TurnValue(t.a, t.b, s.a) * TurnValue(t.a, t.b, s.b) > 0.0
    ensures !IntersectsWith(s, t)
  {
  }

  lemma SelfIntersects(s: Segment)
    ensures IntersectsWith(s, s)
  {
    EndpointsAreContained(s);
    ContainedEndpointIntersects(s, s);
  }

  /** Which end of a segment is called a and which b does not matter to the test. */
  lemma IntersectsWithIgnoresEndpointOrder(s: Segment, t: Segment)
    ensures IntersectsWith(Segment(s.b, s.a), t) == IntersectsWith(s, t)
  {
    TurnValueCyclic(s.a, t.a, s.b);
    TurnValueSwap(s.a, s.b, t.a);
    TurnValueCyclic(s.a, t.b, s.b);
    TurnValueSwap(s.a, s.b, t.b);
  }

  /** Two vertical segments on different vertical lines never pass the test. */
  lemma DistinctVerticalsDoNotIntersect(s: Segment, t: Segment)
    requires IsVertical(s) && IsVertical(t) && s.a.x != t.a.x
    ensures !IntersectsWith(s, t)
  {
    VerticalTurn(s, t.a);
    VerticalTurn(s, t.b);
    VerticalTurn(t, s.a);
    VerticalTurn(t, s.b);
  }

  lemma VerticalTurn(s: Segment, p: Point)
    requires s.a.x == s.b.x
    ensures TurnValue(s.a, s.b, p) == (s.b.y - s.a.y) * (p.x - s.b.x)
  {
  }

  /** Whether the corrected intersection treats the two segments as parallel: equal slopes, or both vertical. */
  predicate ParallelOrBothVertical(s: Segment, t: Segment) {
    IsParallelWith(s, t) || (IsInfinite(Slope(s)) && IsInfinite(Slope(t)))
  }

  /**
   The intersection of the two carrier lines before the NaN filter. With
   `verticalsParallel` false this is the computation as written, which only
   counts equal slopes as parallel; with it true, two vertical segments are
   parallel as well.
   */
  function RawIntersection(s: Segment, t: Segment, verticalsParallel: bool): Option<ExtPoint> {
    var sl, tl := LeftPoint(s), LeftPoint(t);
    var sm, tm := Slope(s), Slope(t);
    var sc, tc := YIntercept(s), YIntercept(t);
    if sm.NaN? && tm.NaN? then
      if sl.x == tl.x && sl.y == tl.y then Some(Lift(sl)) else None
    else if sm.NaN? && ContainsPoint(t, sl) then
      Some(Lift(sl))
    else if tm.NaN? && ContainsPoint(s, tl) then
      Some(Lift(tl))
    else if !(if verticalsParallel then ParallelOrBothVertical(s, t) else IsParallelWith(s, t)) then
      if IsInfinite(sm) then
        Some(ExtPoint(Finite(sl.x), Add(Mul(Finite(sl.x), tm), tc)))
      else if IsInfinite(tm) then
        Some(ExtPoint(Finite(tl.x), Add(Mul(Finite(tl.x), sm), sc)))
      else
        var x := Div(Sub(tc, sc), Sub(sm, tm));
        Some(ExtPoint(x, Add(Mul(x, sm), sc)))
    else
      None
  }

  /** The intersection point as written: the raw point unless a coordinate is NaN. Infinite coordinates pass. */
  function IntersectionAsWritten(s: Segment, t: Segment): (r: Option<ExtPoint>)
    ensures r.Some? ==> !r.value.x.NaN? && !r.value.y.NaN?
    ensures r.Some? ==> RawIntersection(s, t, false) == r
  {
    match RawIntersection(s, t, false)
    case Some(p) => if !p.x.NaN? && !p.y.NaN? then Some(p) else None
    case None => None
  }

  /**
   The intersection point of the two carrier lines, with two vertical segments
   counted as parallel. A degenerate segment (a single point) meets the other
   segment only if the other contains it.
   */
  function Intersection(s: Segment, t: Segment): (r: Option<Point>)
    ensures r.Some? ==> OnCarrier(s, r.value) && OnCarrier(t, r.value)
    ensures IsDegenerate(s) && IsDegenerate(t) ==> (r.Some? <==> s.a == t.a) && (r.Some? ==> r.value == s.a)
    ensures IsDegenerate(s) && !IsDegenerate(t) ==> (r.Some? <==> ContainsPoint(t, s.a)) && (r.Some? ==> r.value == s.a)
    ensures !IsDegenerate(s) && IsDegenerate(t) ==> (r.Some? <==> ContainsPoint(s, t.a)) && (r.Some? ==> r.value == t.a)
    ensures !IsDegenerate(s) && !IsDegenerate(t) ==> (r.Some? <==> Cross(Span(s), Span(t)) != 0.0)
    ensures IsParallelWith(s, t) ==> r.None?
  {
    var raw := RawIntersection(s, t, true);
    if raw.Some? && !raw.value.x.NaN? && !raw.value.y.NaN? then
      CorrectedRawIsOnBothLines(s, t);
      Some(Point(raw.value.x.value, raw.value.y.value))
    else
      CorrectedRawNoneCases(s, t);
      None
  }

  function Cross(u: Vector, w: Vector): real {
    u.x * w.y - u.y * w.x
  }

  /** A raw point with no NaN coordinate, when both coordinates are finite, as a plain point. */
  predicate FiniteResult(r: Option<ExtPoint>) {
    r.Some? && r.value.x.Finite? && r.value.y.Finite?
  }

  function Plain(p: ExtPoint): Point
    requires p.x.Finite? && p.y.Finite?
  {
    Point(p.x.value, p.y.value)
  }

  /** Every point the corrected computation keeps is finite and lies on both carrier lines. */
  lemma CorrectedRawIsOnBothLines(s: Segment, t: Segment)
    requires RawIntersection(s, t, true).Some?
    requires !RawIntersection(s, t, true).value.x.NaN? && !RawIntersection(s, t, true).value.y.NaN?
    ensures FiniteResult(RawIntersection(s, t, true))
    ensures OnCarrier(s, Plain(RawIntersection(s, t, true).value))
    ensures OnCarrier(t, Plain(RawIntersection(s, t, true).value))
    ensures IsDegenerate(s) ==> Plain(RawIntersection(s, t, true).value) == s.a
    ensures IsDegenerate(s) && !IsDegenerate(t) ==> ContainsPoint(t, s.a)
    ensures !IsDegenerate(s) && IsDegenerate(t) ==> Plain(RawIntersection(s, t, true).value) == t.a
    ensures !IsDegenerate(s) && IsDegenerate(t) ==> ContainsPoint(s, t.a)
    ensures !IsDegenerate(s) && !IsDegenerate(t) ==> Cross(Span(s), Span(t)) != 0.0
    ensures !IsParallelWith(s, t)
  {
    var sl, tl := LeftPoint(s), LeftPoint(t);
    var sm, tm := Slope(s), Slope(t);
    var sc, tc := YIntercept(s), YIntercept(t);
    var raw := RawIntersection(s, t, true);
    if sm.NaN? && tm.NaN? {
      DegenerateOnCarrier(s, sl);
      DegenerateOnCarrier(t, sl);
    } else if sm.NaN? && ContainsPoint(t, sl) {
      DegenerateOnCarrier(s, sl);
      ContainsPointIff(t, sl);
    } else if tm.NaN? && ContainsPoint(s, tl) {
      DegenerateOnCarrier(t, tl);
      ContainsPointIff(s, tl);
    } else if IsInfinite(sm) {
      assert tm.Finite?;
      VerticalAndSlopedCase(s, t);
    } else if IsInfinite(tm) {
      assert sm.Finite?;
      SlopedAndVerticalCase(s, t);
    } else {
      assert sm.Finite? && tm.Finite?;
      SlopedCase(s, t);
    }
  }

  /** Where a vertical segment's x meets the line y = m x + c through t. */
  function VerticalMeeting(s: Segment, t: Segment): Point
    requires Slope(t).Finite?
  {
    var x := LeftPoint(s).x;
    Point(x, x * Slope(t).value + YIntercept(t).value)
  }

  /** Where the lines y = sm x + sc and y = tm x + tc meet. */
  function SlopedMeeting(s: Segment, t: Segment): Point
    requires Slope(s).Finite? && Slope(t).Finite? && Slope(s).value != Slope(t).value
  {
    var x := (YIntercept(t).value - YIntercept(s).value) / (Slope(s).value - Slope(t).value);
    Point(x, x * Slope(s).value + YIntercept(s).value)
  }

  lemma VerticalAndSlopedCase(s: Segment, t: Segment)
    requires IsInfinite(Slope(s)) && Slope(t).Finite?
    ensures RawIntersection(s, t, true) == Some(Lift(VerticalMeeting(s, t)))
    ensures OnCarrier(s, VerticalMeeting(s, t)) && OnCarrier(t, VerticalMeeting(s, t))
    ensures Cross(Span(s), Span(t)) != 0.0
  {
    VerticalRaw(s, t);
    VerticalMeetingLifted(s, t);
    VerticalMeetsLine(s, t, Slope(t).value, YIntercept(t).value, VerticalMeeting(s, t));
  }

  lemma SlopedAndVerticalCase(s: Segment, t: Segment)
    requires Slope(s).Finite? && IsInfinite(Slope(t))
    ensures RawIntersection(s, t, true) == Some(Lift(VerticalMeeting(t, s)))
    ensures OnCarrier(s, VerticalMeeting(t, s)) && OnCarrier(t, VerticalMeeting(t, s))
    ensures Cross(Span(s), Span(t)) != 0.0
  {
    SlopedRaw(s, t);
    VerticalMeetingLifted(t, s);
    VerticalMeetsLine(t, s, Slope(s).value, YIntercept(s).value, VerticalMeeting(t, s));
    CrossAntisymmetric(Span(s), Span(t));
  }

  lemma SlopedCase(s: Segment, t: Segment)
    requires Slope(s).Finite? && Slope(t).Finite?
    requires RawIntersection(s, t, true).Some?
    ensures Slope(s).value != Slope(t).value
    ensures RawIntersection(s, t, true) == Some(Lift(SlopedMeeting(s, t)))
    ensures OnCarrier(s, SlopedMeeting(s, t)) && OnCarrier(t, SlopedMeeting(s, t))
    ensures Cross(Span(s), Span(t)) != 0.0
  {
    BothSlopedRaw(s, t);
    SlopedMeetingLifted(s, t);
    SlopedMeetingOnBoth(s, t);
  }

  lemma SlopedMeetingOnBoth(s: Segment, t: Segment)
    requires Slope(s).Finite? && Slope(t).Finite? && Slope(s).value != Slope(t).value
    ensures OnCarrier(s, SlopedMeeting(s, t)) && OnCarrier(t, SlopedMeeting(s, t))
    ensures Cross(Span(s), Span(t)) != 0.0
  {
    var sm, tm, sc, tc := Slope(s).value, Slope(t).value, YIntercept(s).value, YIntercept(t).value;
    var p := SlopedMeeting(s, t);
    assert p.x == (tc - sc) / (sm - tm) && p.y == p.x * sm + sc;
    LinesMeet(s, t, sm, tm, sc, tc, p);
  }

  lemma VerticalRaw(s: Segment, t: Segment)
    requires IsInfinite(Slope(s)) && Slope(t).Finite?
    ensures RawIntersection(s, t, true)
         == Some(ExtPoint(Finite(LeftPoint(s).x), Add(Mul(Finite(LeftPoint(s).x), Slope(t)), YIntercept(t))))
  {
  }

  lemma SlopedRaw(s: Segment, t: Segment)
    requires Slope(s).Finite? && IsInfinite(Slope(t))
    ensures RawIntersection(s, t, true)
         == Some(ExtPoint(Finite(LeftPoint(t).x), Add(Mul(Finite(LeftPoint(t).x), Slope(s)), YIntercept(s))))
  {
  }

  lemma BothSlopedRaw(s: Segment, t: Segment)
    requires Slope(s).Finite? && Slope(t).Finite?
    requires RawIntersection(s, t, true).Some?
    ensures Slope(s).value != Slope(t).value
    ensures var x := Div(Sub(YIntercept(t), YIntercept(s)), Sub(Slope(s), Slope(t)));
      RawIntersection(s, t, true) == Some(ExtPoint(x, Add(Mul(x, Slope(s)), YIntercept(s))))
  {
  }

  lemma VerticalMeetingLifted(s: Segment, t: Segment)
    requires Slope(t).Finite?
    ensures Lift(VerticalMeeting(s, t))
         == ExtPoint(Finite(LeftPoint(s).x), Add(Mul(Finite(LeftPoint(s).x), Slope(t)), YIntercept(t)))
  {
    FiniteLine(LeftPoint(s).x, Slope(t), YIntercept(t));
  }

  lemma SlopedMeetingLifted(s: Segment, t: Segment)
    requires Slope(s).Finite? && Slope(t).Finite? && Slope(s).value != Slope(t).value
    ensures var x := Div(Sub(YIntercept(t), YIntercept(s)), Sub(Slope(s), Slope(t)));
      Lift(SlopedMeeting(s, t)) == ExtPoint(x, Add(Mul(x, Slope(s)), YIntercept(s)))
  {
    var x := Div(Sub(YIntercept(t), YIntercept(s)), Sub(Slope(s), Slope(t)));
    FiniteMeeting(Slope(s), Slope(t), YIntercept(s), YIntercept(t));
    FiniteLine(x.value, Slope(s), YIntercept(s));
  }

  /** Evaluating y = m x + c with a finite slope and intercept stays finite. */
  lemma FiniteLine(x: real, m: ExtReal, c: ExtReal)
    requires m.Finite? && c.Finite?
    ensures Add(Mul(Finite(x), m), c) == Finite(x * m.value + c.value)
    ensures Add(Mul(Finite(x), m), c) == Finite(m.value * x + c.value)
  {
  }

  lemma FiniteMeeting(sm: ExtReal, tm: ExtReal, sc: ExtReal, tc: ExtReal)
    requires sm.Finite? && tm.Finite? && sc.Finite? && tc.Finite? && sm.value != tm.value
    ensures Div(Sub(tc, sc), Sub(sm, tm)) == Finite((tc.value - sc.value) / (sm.value - tm.value))
  {
  }

  lemma CrossAntisymmetric(u: Vector, w: Vector)
    ensures Cross(u, w) == -Cross(w, u)
  {
  }

  /** A vertical segment meets the line y = m x + c through the other segment at its own x. */
  lemma VerticalMeetsLine(s: Segment, t: Segment, m: real, c: real, p: Point)
    requires s.a.x == s.b.x && s.a.y != s.b.y && t.a.x != t.b.x
    requires t.a.y == m * t.a.x + c && t.b.y == m * t.b.x + c
    requires p.x == s.a.x && p.y == m * p.x + c
    ensures OnCarrier(s, p) && OnCarrier(t, p)
    ensures Cross(Span(s), Span(t)) != 0.0
  {
    VerticalTurn(s, p);
    OnLineIsOnCarrier(t, m, c, p);
    NonzeroProduct(s.b.y - s.a.y, t.b.x - t.a.x);
  }

  /** Two lines with different slopes meet at x = (tc - sc) / (sm - tm). */
  lemma LinesMeet(s: Segment, t: Segment, sm: real, tm: real, sc: real, tc: real, p: Point)
    requires s.a.x != s.b.x && t.a.x != t.b.x && sm != tm
    requires s.a.y == sm * s.a.x + sc && s.b.y == sm * s.b.x + sc
    requires t.a.y == tm * t.a.x + tc && t.b.y == tm * t.b.x + tc
    requires p.x == (tc - sc) / (sm - tm) && p.y == p.x * sm + sc
    ensures OnCarrier(s, p) && OnCarrier(t, p)
    ensures Cross(Span(s), Span(t)) != 0.0
  {
    MeetingPoint(sm, tm, sc, tc);
    OnLineIsOnCarrier(s, sm, sc, p);
    OnLineIsOnCarrier(t, tm, tc, p);
    assert sm * (s.b.x - s.a.x) == s.b.y - s.a.y;
    assert tm * (t.b.x - t.a.x) == t.b.y - t.a.y;
    SlopesCross(s, t, sm, tm);
  }

  /** When the corrected computation keeps nothing, the conditions for a point all fail. */
  lemma CorrectedRawNoneCases(s: Segment, t: Segment)
    requires !(RawIntersection(s, t, true).Some? && !RawIntersection(s, t, true).value.x.NaN?
               && !RawIntersection(s, t, true).value.y.NaN?)
    ensures IsDegenerate(s) && IsDegenerate(t) ==> s.a != t.a
    ensures IsDegenerate(s) && !IsDegenerate(t) ==> !ContainsPoint(t, s.a)
    ensures !IsDegenerate(s) && IsDegenerate(t) ==> !ContainsPoint(s, t.a)
    ensures !IsDegenerate(s) && !IsDegenerate(t) ==> Cross(Span(s), Span(t)) == 0.0
  {
    if IsDegenerate(s) || IsDegenerate(t) {
      DegenerateNoneCases(s, t);
    } else if IsInfinite(Slope(s)) && IsInfinite(Slope(t)) {
      assert Span(s).x == 0.0 && Span(t).x == 0.0;
    } else if IsInfinite(Slope(s)) {
      VerticalAndSlopedCase(s, t);
    } else if IsInfinite(Slope(t)) {
      SlopedAndVerticalCase(s, t);
    } else if RawIntersection(s, t, true).Some? {
      SlopedCase(s, t);
    } else {
      assert Slope(s).value == Slope(t).value;
      SlopesCross(s, t, Slope(s).value, Slope(t).value);
    }
  }

  /** With a degenerate segment, nothing kept means the single point is not on the other segment. */
  lemma DegenerateNoneCases(s: Segment, t: Segment)
    requires IsDegenerate(s) || IsDegenerate(t)
    requires !(RawIntersection(s, t, true).Some? && !RawIntersection(s, t, true).value.x.NaN?
               && !RawIntersection(s, t, true).value.y.NaN?)
    ensures IsDegenerate(s) && IsDegenerate(t) ==> s.a != t.a
    ensures IsDegenerate(s) && !IsDegenerate(t) ==> !ContainsPoint(t, s.a)
    ensures !IsDegenerate(s) && IsDegenerate(t) ==> !ContainsPoint(s, t.a)
  {
    assert IsDegenerate(s) ==> LeftPoint(s) == s.a;
    assert IsDegenerate(t) ==> LeftPoint(t) == t.a;
  }

  lemma DegenerateOnCarrier(s: Segment, p: Point)
    requires IsDegenerate(s)
    ensures OnCarrier(s, p)
  {
  }

  /** A segment with both endpoints on the line y = m x + c has every point of that line on its carrier. */
  lemma OnLineIsOnCarrier(s: Segment, m: real, c: real, p: Point)
    requires s.a.y == m * s.a.x + c && s.b.y == m * s.b.x + c && p.y == m * p.x + c
    ensures OnCarrier(s, p)
  {
    TurnValueFromFirstPoint(s.a, s.b, p);
    var dx, px := s.b.x - s.a.x, p.x - s.a.x;
    assert s.b.y - s.a.y == m * dx;
    assert p.y - s.a.y == m * px;
    assert (m * dx) * px - dx * (m * px) == 0.0;
  }

  /** The point where the lines y = sm x + sc and y = tm x + tc meet lies on both. */
  lemma MeetingPoint(sm: real, tm: real, sc: real, tc: real)
    requires sm != tm
    ensures var x := (tc - sc) / (sm - tm); x * sm + sc == tm * x + tc && x * sm + sc == sm * x + sc
  {
    var x := (tc - sc) / (sm - tm);
    assert x * (sm - tm) == tc - sc;
  }

  lemma NonzeroProduct(a: real, b: real)
    requires a != 0.0 && b != 0.0
    ensures a * b != 0.0
  {
  }

  /** For two non-vertical segments the cross product of their spans is zero exactly when their slopes agree. */
  lemma SlopesCross(s: Segment, t: Segment, sm: real, tm: real)
    requires s.a.x != s.b.x && t.a.x != t.b.x
    requires sm * (s.b.x - s.a.x) == s.b.y - s.a.y
    requires tm * (t.b.x - t.a.x) == t.b.y - t.a.y
    ensures Cross(Span(s), Span(t)) == 0.0 <==> sm == tm
  {
    var dxs, dxt := s.b.x - s.a.x, t.b.x - t.a.x;
    assert Cross(Span(s), Span(t)) == dxs * (tm * dxt) - (sm * dxs) * dxt;
    assert dxs * (tm * dxt) - (sm * dxs) * dxt == (tm - sm) * (dxs * dxt);
    NonzeroProduct(dxs, dxt);
    if tm != sm {
      NonzeroProduct(tm - sm, dxs * dxt);
    }
  }

  function LiftOption(o: Option<Point>): Option<ExtPoint> {
    match o
    case Some(p) => Some(Lift(p))
    case None => None
  }

  /** Away from the both-vertical case the computation as written and the corrected one agree. */
  lemma AsWrittenAgreesUnlessBothVertical(s: Segment, t: Segment)
    requires !(IsVertical(s) && IsVertical(t))
    ensures IntersectionAsWritten(s, t) == LiftOption(Intersection(s, t))
  {
    assert RawIntersection(s, t, false) == RawIntersection(s, t, true);
    var raw := RawIntersection(s, t, true);
    if raw.Some? && !raw.value.x.NaN? && !raw.value.y.NaN? {
      CorrectedRawIsOnBothLines(s, t);
    }
  }

  /**
   Two vertical segments whose slopes are +infinity and -infinity count as not
   parallel in the code as written, and the y coordinate evaluates to +infinity.
   */
  lemma AsWrittenOppositeVerticalsGiveInfinity()
    ensures IntersectionAsWritten(Segment(Point(-1.0, 0.0), Point(-1.0, 1.0)), Segment(Point(2.0, 1.0), Point(2.0, 0.0)))
         == Some(ExtPoint(Finite(-1.0), PosInf))
    ensures Intersection(Segment(Point(-1.0, 0.0), Point(-1.0, 1.0)), Segment(Point(2.0, 1.0), Point(2.0, 0.0))) == None
  {
    var s, t := Segment(Point(-1.0, 0.0), Point(-1.0, 1.0)), Segment(Point(2.0, 1.0), Point(2.0, 0.0));
    assert Slope(s) == PosInf && Slope(t) == NegInf;
    assert YIntercept(t) == PosInf;
  }

  /**
   Two vertical segments that pass the intersection test lie on one vertical
   line, and there the computation as written yields NaN or finds them parallel,
   so the discrepancy never reaches a caller that tests first.
   */
  lemma IntersectingVerticalsGiveNone(s: Segment, t: Segment)
    requires IsVertical(s) && IsVertical(t) && IntersectsWith(s, t)
    ensures IntersectionAsWritten(s, t) == None
    ensures Intersection(s, t) == None
  {
    if s.a.x != t.a.x {
      DistinctVerticalsDoNotIntersect(s, t);
    }
    var c := s.a.x;
    if Slope(s) != Slope(t) {
      if c == 0.0 {
        assert YIntercept(t).NaN?;
      } else if c > 0.0 {
        assert Mul(Finite(c), Slope(t)) == Infinity(Sign(Slope(t)));
        assert YIntercept(t) == Infinity(-Sign(Slope(t)));
      } else {
        assert Mul(Finite(c), Slope(t)) == Infinity(-Sign(Slope(t)));
        assert YIntercept(t) == Infinity(Sign(Slope(t)));
      }
    }
  }

  /** Segments with equal slopes never meet, under either computation. */
  lemma ParallelGiveNone(s: Segment, t: Segment)
    requires IsParallelWith(s, t)
    ensures IntersectionAsWritten(s, t) == None
    ensures Intersection(s, t) == None
  {
  }

  datatype PolyLine = PolyLine(segments: seq<Segment>)

  /** Splits a point list into the segments joining each point to the next. */
  method FromPoints(points: seq<Point>) returns (line: PolyLine)
    ensures |points| < 2 ==> line.segments == []
    ensures |points| >= 2 ==> |line.segments| == |points| - 1
    ensures forall i :: 0 <= i < |line.segments| ==> line.segments[i] == Segment(points[i], points[i + 1])
    ensures forall i :: 0 <= i < |line.segments| - 1 ==> line.segments[i].b == line.segments[i + 1].a
  {
    var segments: seq<Segment> := [];
    var count := |points|;
    if count > 1 {
      var i := 1;
      while i < count
        invariant 1 <= i <= count
        invariant |segments| == i - 1
        invariant forall k :: 0 <= k < |segments| ==> segments[k] == Segment(points[k], points[k + 1])
        invariant forall k :: 0 <= k < |segments| - 1 ==> segments[k].b == segments[k + 1].a
      {
        var previous := i - 1;
        segments := segments + [Segment(points[previous], points[i])];
        i := i + 1;
      }
    }
    line := PolyLine(segments);
  }
}
