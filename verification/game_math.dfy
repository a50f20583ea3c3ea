/**
 The second geometry kernel: a vector that caches its magnitude and angle, and
 a line segment that caches its endpoint order, slope, length and y-intercept.
 Each cache is stated against the uncached definitions in `Vectors` and
 `Lines`; the segment's containment and intersection queries read only its two
 points and are the `Lines` computations on them.
 */
module GameMath {
  import opened RealMath
  import opened ExtendedReal
  import opened Points
  import opened Vectors
  import opened Lines
  import opened Wrappers

  datatype Vector2D = Vector2D(x: real, y: real, magnitude: real, angle: real)

  function Components(v: Vector2D): Vector {
    Vector(v.x, v.y)
  }

  /** The cached magnitude and angle agree with the components. */
  ghost predicate Cached(v: Vector2D) {
    v.magnitude == Magnitude(Components(v)) && v.angle == Angle(Components(v))
  }

  /** Stores new components and recomputes both caches. */
  ghost function Set(v: Vector2D, x: real, y: real): (r: Vector2D)
    ensures Cached(r)
    ensures r.x == x && r.y == y
    ensures x == 0.0 && y == 0.0 ==> r.magnitude == 0.0 && r.angle == 0.0
  {
    var w := Vector2D(x, y, v.magnitude, v.angle);
    var r := w.(magnitude := Magnitude(Components(w)));
    if x == 0.0 && y == 0.0 then
      MagnitudeOfZero();
      assert Components(w) == Zero;
      r.(angle := Angle(Components(r)))
    else
      r.(angle := Angle(Components(r)))
  }

  ghost function NewVector2D(x: real, y: real): (r: Vector2D)
    ensures Cached(r)
    ensures r.x == x && r.y == y
  {
    Set(Vector2D(0.0, 0.0, 0.0, 0.0), x, y)
  }

  ghost function SetX(v: Vector2D, value: real): (r: Vector2D)
    ensures Cached(r)
    ensures r.x == value && r.y == v.y
  {
    Set(v, value, v.y)
  }

  ghost function SetY(v: Vector2D, value: real): (r: Vector2D)
    ensures Cached(r)
    ensures r.x == v.x && r.y == value
  {
    Set(v, v.x, value)
  }

  /** Rescales to the given length through `SetX` then `SetY`; a zero-length vector is left alone. */
  ghost function SetMagnitude(v: Vector2D, value: real): (r: Vector2D)
    requires Cached(v)
    ensures Cached(r)
    ensures v.magnitude == 0.0 ==> r == v
  {
    if v.magnitude != 0.0 then
      SetY(SetX(v, v.x * (value / v.magnitude)), v.y * (value / v.magnitude))
    else
      v
  }

  lemma RescaledComponents(v: Vector2D, value: real)
    requires Cached(v) && v.magnitude != 0.0
    ensures Components(SetY(SetX(v, v.x * (value / v.magnitude)), v.y * (value / v.magnitude)))
         == WithMagnitude(Components(v), value)
  {
    var k := value / v.magnitude;
    var a := SetX(v, v.x * k);
    assert Components(SetY(a, v.y * k)) == Vector(v.x * k, v.y * k);
  }

  /** The cached rescale computes the free function `WithMagnitude` on the components. */
  lemma SetMagnitudeAgreesWithVectorMath(v: Vector2D, value: real)
    requires Cached(v)
    ensures Components(SetMagnitude(v, value)) == WithMagnitude(Components(v), value)
  {
    if v.magnitude != 0.0 {
      RescaledAgrees(v, value);
    } else {
      ZeroLengthAgrees(v, value);
    }
  }

  lemma RescaledAgrees(v: Vector2D, value: real)
    requires Cached(v) && v.magnitude != 0.0
    ensures Components(SetMagnitude(v, value)) == WithMagnitude(Components(v), value)
  {
    RescaledComponents(v, value);
  }

  lemma ZeroLengthAgrees(v: Vector2D, value: real)
    requires Cached(v) && v.magnitude == 0.0
    ensures Components(SetMagnitude(v, value)) == WithMagnitude(Components(v), value)
  {
  }

  /** Rescaling a vector of nonzero length gives it the target length's absolute value. */
  lemma SetMagnitudeReachesTarget(v: Vector2D, value: real)
    requires Cached(v) && v.magnitude != 0.0
    ensures SetMagnitude(v, value).magnitude == Abs(value)
  {
    SetMagnitudeAgreesWithVectorMath(v, value);
    WithMagnitudeFacts(Components(v), value);
    assert SetMagnitude(v, value).magnitude == Magnitude(Components(SetMagnitude(v, value)));
  }

  /** The unit vector with the same heading, or the zero vector. */
  ghost function Direction2D(v: Vector2D): (r: Vector2D)
    requires Cached(v)
    ensures Cached(r)
    ensures Components(r) == Vectors.Direction(Components(v))
    ensures v.magnitude > 0.0 ==> r.magnitude == 1.0
  {
    var m := v.magnitude;
    if m > 0.0 then DirectionIsUnitAlong(Components(v)); NewVector2D(v.x / m, v.y / m) else NewVector2D(0.0, 0.0)
  }

  /** The test vectors (5, 0), (0, 5), (-5, 0) and (0, -5) have magnitude 5 and point along their axis. */
  lemma PositiveXAxisVector()
    ensures NewVector2D(5.0, 0.0).magnitude == 5.0 && Direction2D(NewVector2D(5.0, 0.0)).x == 1.0
  {
    AxisVectorMagnitude(5.0, 0.0);
  }

  lemma PositiveYAxisVector()
    ensures NewVector2D(0.0, 5.0).magnitude == 5.0 && Direction2D(NewVector2D(0.0, 5.0)).y == 1.0
  {
    AxisVectorMagnitude(0.0, 5.0);
  }

  lemma NegativeXAxisVector()
    ensures NewVector2D(-5.0, 0.0).magnitude == 5.0 && Direction2D(NewVector2D(-5.0, 0.0)).x == -1.0
  {
    AxisVectorMagnitude(-5.0, 0.0);
  }

  lemma NegativeYAxisVector()
    ensures NewVector2D(0.0, -5.0).magnitude == 5.0 && Direction2D(NewVector2D(0.0, -5.0)).y == -1.0
  {
    AxisVectorMagnitude(0.0, -5.0);
  }

  lemma AxisVectorMagnitude(a: real, b: real)
    requires a == 0.0 || b == 0.0
    ensures Magnitude(Vector(a, b)) == Abs(a) + Abs(b)
  {
    if b == 0.0 {
      assert SquaredLength(Vector(a, b)) == a * a;
      SqrtOfSquare(a);
    } else {
      assert SquaredLength(Vector(a, b)) == b * b;
      SqrtOfSquare(b);
    }
  }

  /** A segment with its endpoint order, slope, length and y-intercept computed once, when it is set. */
  datatype Segment2D = Segment2D(orderIsCorrect: bool, p0: Point, p1: Point, slope: ExtReal, length: real, yIntercept: ExtReal)

  function Shape(g: Segment2D): Segment {
    Segment(g.p0, g.p1)
  }

  /** Every cached field agrees with the uncached definition on the two points. */
  ghost predicate CachesAgree(g: Segment2D) {
    && g.orderIsCorrect == (g.p0.x <= g.p1.x)
    && g.slope == Slope(Shape(g))
    && g.length == Length(Shape(g))
    && g.yIntercept == YIntercept(Shape(g))
  }

  function Left2D(g: Segment2D): Point {
    if g.orderIsCorrect then g.p0 else g.p1
  }

  function Right2D(g: Segment2D): Point {
    if g.orderIsCorrect then g.p1 else g.p0
  }

  /** Stores two new points and recomputes the order, then slope, length and intercept from it. */
  ghost function SetSegment(g: Segment2D, p0: Point, p1: Point): (r: Segment2D)
    ensures CachesAgree(r)
    ensures r.p0 == p0 && r.p1 == p1
    ensures Left2D(r) == LeftPoint(Shape(r)) && Right2D(r) == RightPoint(Shape(r))
    ensures Left2D(r).x <= Right2D(r).x
  {
    var h := g.(p0 := p0, p1 := p1);
    var h := h.(orderIsCorrect := p0.x <= p1.x);
    var left, right := Left2D(h), Right2D(h);
    var h := h.(slope := Div(Finite(right.y - left.y), Finite(right.x - left.x)));
    var h := h.(length := Sqrt(SquaredLength(Vector(right.x - left.x, right.y - left.y))));
    var h := h.(yIntercept := Sub(Finite(left.y), Mul(h.slope, Finite(left.x))));
    CachedLengthAgrees(Shape(h));
    h
  }

  lemma CachedLengthAgrees(s: Segment)
    ensures Sqrt(SquaredLength(Vector(RightPoint(s).x - LeftPoint(s).x, RightPoint(s).y - LeftPoint(s).y))) == Length(s)
  {
    var l, r := LeftPoint(s), RightPoint(s);
    assert SquaredLength(Vector(r.x - l.x, r.y - l.y)) == SquaredLength(Span(s));
  }

  ghost function NewSegment2D(p0: Point, p1: Point): (r: Segment2D)
    ensures CachesAgree(r)
    ensures r.p0 == p0 && r.p1 == p1
  {
    SetSegment(Segment2D(true, p0, p1, Finite(0.0), 0.0, Finite(0.0)), p0, p1)
  }

  /** The unit normal on the upper side of the segment, or the zero vector for a zero-length segment. */
  ghost function TopNormal(g: Segment2D): (n: Vector2D)
    requires CachesAgree(g)
    ensures Cached(n)
    ensures Components(n) == Normal(Ordered(Shape(g)))
    ensures n.y >= 0.0
    ensures g.length == 0.0 ==> Components(n) == Zero
  {
    var left, right := Left2D(g), Right2D(g);
    var length := g.length;
    if length > 0.0 then
      LengthIgnoresOrder(Shape(g));
      UpperSide(right.x - left.x, length);
      NewVector2D((left.y - right.y) / length, (right.x - left.x) / length)
    else
      LengthIgnoresOrder(Shape(g));
      NewVector2D(0.0, 0.0)
  }

  /** The unit normal on the lower side: the exact negation of the top normal. */
  ghost function BottomNormal(g: Segment2D): (n: Vector2D)
    requires CachesAgree(g)
    ensures Cached(n)
    ensures Components(n) == Inverse(Normal(Ordered(Shape(g))))
    ensures n.y <= 0.0
    ensures g.length == 0.0 ==> Components(n) == Zero
  {
    var left, right := Left2D(g), Right2D(g);
    var length := g.length;
    LengthIgnoresOrder(Shape(g));
    if length > 0.0 then
      UpperSide(right.x - left.x, length);
      NegatedQuotients(left, right, length);
      NewVector2D((right.y - left.y) / length, (left.x - right.x) / length)
    else
      NewVector2D(0.0, 0.0)
  }

  /** The two normals of a segment point exactly opposite ways. */
  lemma NormalsOpposite(g: Segment2D)
    requires CachesAgree(g)
    ensures Components(BottomNormal(g)) == Inverse(Components(TopNormal(g)))
    ensures Dot(Components(BottomNormal(g)), Components(TopNormal(g))) <= 0.0
  {
    var t := Components(TopNormal(g));
    DotWithInverse(t, t);
  }

  lemma UpperSide(d: real, length: real)
    requires d >= 0.0 && length > 0.0
    ensures d / length >= 0.0
  {
  }

  lemma NegatedQuotients(left: Point, right: Point, length: real)
    requires length > 0.0
    ensures (right.y - left.y) / length == -((left.y - right.y) / length)
    ensures (left.x - right.x) / length == -((right.x - left.x) / length)
  {
  }

  /** Swapping the endpoints does not change the length. */
  lemma LengthIgnoresOrder(s: Segment)
    ensures Length(Segment(s.b, s.a)) == Length(s)
    ensures Length(Ordered(s)) == Length(s)
  {
    assert SquaredLength(Span(Segment(s.b, s.a))) == SquaredLength(Span(s));
  }

  /** The y-intercept test cases: the line y = x through the origin, and y = x + 6. */
  lemma InterceptExamples()
    ensures NewSegment2D(Point(4.0, 4.0), Point(10.0, 10.0)).yIntercept == Finite(0.0)
    ensures NewSegment2D(Point(4.0, 10.0), Point(10.0, 16.0)).yIntercept == Finite(6.0)
    ensures NewSegment2D(Point(-4.0, -4.0), Point(-10.0, -10.0)).yIntercept == Finite(0.0)
  {
    InterceptOfLine(Point(4.0, 4.0), Point(10.0, 10.0), 1.0, 0.0);
    InterceptOfLine(Point(4.0, 10.0), Point(10.0, 16.0), 1.0, 6.0);
    InterceptOfLine(Point(-4.0, -4.0), Point(-10.0, -10.0), 1.0, 0.0);
  }

  /** A non-vertical segment on the line y = m x + c caches c as its intercept. */
  lemma InterceptOfLine(p0: Point, p1: Point, m: real, c: real)
    requires p0.x != p1.x
    requires p0.y == m * p0.x + c && p1.y == m * p1.x + c
    ensures NewSegment2D(p0, p1).yIntercept == Finite(c)
  {
    LineIntercept(Segment(p0, p1), m, c);
  }

  lemma LineIntercept(s: Segment, m: real, c: real)
    requires s.a.x != s.b.x
    requires s.a.y == m * s.a.x + c && s.b.y == m * s.b.x + c
    ensures YIntercept(s) == Finite(c)
  {
    var p0, p1 := s.a, s.b;
    var k, d := Slope(s).value, p1.x - p0.x;
    assert k * d == p1.y - p0.y;
    assert m * d == m * p1.x - m * p0.x;
    SameFactor(k, m, d);
    assert p0.y == k * p0.x + YIntercept(s).value;
  }

  lemma SameFactor(a: real, b: real, d: real)
    requires d != 0.0 && a * d == b * d
    ensures a == b
  {
    assert (a - b) * d == 0.0;
  }

  /**
   The intersection-test cases, moved anywhere in the plane by (x, y): the two
   diagonals of a unit square cross, a segment meets itself, and the diagonal
   misses a perpendicular segment lying beyond either of its ends.
   */
  lemma CrossingDiagonalsIntersect(x: real, y: real)
    ensures IntersectsWith(Segment(Point(x, y), Point(x + 1.0, y + 1.0)), Segment(Point(x + 1.0, y), Point(x, y + 1.0)))
  {
    var s, t := Segment(Point(x, y), Point(x + 1.0, y + 1.0)), Segment(Point(x + 1.0, y), Point(x, y + 1.0));
    TurnAlong(s.a, 1.0, 1.0, t.a);
    TurnAlong(s.a, 1.0, 1.0, t.b);
    TurnAlong(t.a, -1.0, 1.0, s.a);
    TurnAlong(t.a, -1.0, 1.0, s.b);
    ProperCrossingIntersects(s, t);
  }

  lemma SegmentBeyondUpperEndDoesNotIntersect(x: real, y: real)
    ensures !IntersectsWith(Segment(Point(x, y), Point(x + 1.0, y + 1.0)), Segment(Point(x + 2.0, y + 1.0), Point(x + 1.0, y + 2.0)))
  {
    var s, t := Segment(Point(x, y), Point(x + 1.0, y + 1.0)), Segment(Point(x + 2.0, y + 1.0), Point(x + 1.0, y + 2.0));
    TurnAlong(s.a, 1.0, 1.0, t.a);
    TurnAlong(s.a, 1.0, 1.0, t.b);
    TurnAlong(t.a, -1.0, 1.0, s.a);
    TurnAlong(t.a, -1.0, 1.0, s.b);
    OneSidedDoesNotIntersect(s, t);
  }

  lemma SegmentBeyondLowerEndDoesNotIntersect(x: real, y: real)
    ensures !IntersectsWith(Segment(Point(x, y), Point(x + 1.0, y + 1.0)), Segment(Point(x, y - 1.0), Point(x - 1.0, y)))
  {
    var s, t := Segment(Point(x, y), Point(x + 1.0, y + 1.0)), Segment(Point(x, y - 1.0), Point(x - 1.0, y));
    TurnAlong(s.a, 1.0, 1.0, t.a);
    TurnAlong(s.a, 1.0, 1.0, t.b);
    TurnAlong(t.a, -1.0, 1.0, s.a);
    TurnAlong(t.a, -1.0, 1.0, s.b);
    OneSidedDoesNotIntersect(s, t);
  }

  /** The intersection-point cases: the diagonals of a 10 by 10 square meet at its centre; a segment and its copy give nothing. */
  lemma DiagonalsMeetAtCentre(x: real, y: real)
    ensures Intersection(Segment(Point(x, y), Point(x + 10.0, y + 10.0)), Segment(Point(x, y + 10.0), Point(x + 10.0, y)))
         == Some(Point(x + 5.0, y + 5.0))
    ensures IntersectionAsWritten(Segment(Point(x, y), Point(x + 10.0, y + 10.0)), Segment(Point(x, y + 10.0), Point(x + 10.0, y)))
         == Some(ExtPoint(Finite(x + 5.0), Finite(y + 5.0)))
  {
    var s, t := Segment(Point(x, y), Point(x + 10.0, y + 10.0)), Segment(Point(x, y + 10.0), Point(x + 10.0, y));
    assert Cross(Span(s), Span(t)) == -200.0;
    var r := Intersection(s, t);
    TurnAlong(s.a, 10.0, 10.0, r.value);
    TurnAlong(t.a, 10.0, -10.0, r.value);
    AsWrittenAgreesUnlessBothVertical(s, t);
  }

  lemma SameSegmentHasNoIntersectionPoint()
    ensures IntersectionAsWritten(Segment(Point(0.0, 0.0), Point(10.0, 10.0)), Segment(Point(0.0, 0.0), Point(10.0, 10.0))) == None
  {
    var s := Segment(Point(0.0, 0.0), Point(10.0, 10.0));
    assert Slope(s) == Finite(1.0);
    ParallelGiveNone(s, s);
  }

  /** The test's fact for every segment of non-zero length: a segment and its copy are parallel, so no point comes back. */
  lemma SegmentAndCopyMeetNowhere(s: Segment)
    requires !IsDegenerate(s)
    ensures IntersectionAsWritten(s, s) == None
    ensures Intersection(s, s) == None
  {
  }

  /** A single point is not parallel with itself: its copy meets it at that point, in both versions. */
  lemma SinglePointMeetsItsCopy(p: Point)
    ensures IntersectionAsWritten(Segment(p, p), Segment(p, p)) == Some(Lift(p))
    ensures Intersection(Segment(p, p), Segment(p, p)) == Some(p)
  {
  }
}
