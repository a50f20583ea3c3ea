/**
 The environment collision box (ECB) and its one query: where the bottom point
 of the box, carried from the previous position to the current one, first
 touches a ground line.
 */
module Collision {
  import opened RealMath
  import opened ExtendedReal
  import opened Points
  import opened Vectors
  import opened Lines
  import opened GameMath
  import opened Wrappers

  /** The four corner points of the box, relative to the fighter's position; the fields are the accessors. */
  datatype Ecb = Ecb(bottom: Point, left: Point, top: Point, right: Point)

  /** How far the movement line reaches back behind the previous bottom point. */
  const Tolerance: real := 0.01

  /** The box's bottom point when the fighter stands at `position`. */
  function BottomAt(e: Ecb, position: Point): Point {
    Point(e.bottom.x + position.x, e.bottom.y + position.y)
  }

  /** How far the bottom point moved between the two positions. */
  function Movement(e: Ecb, previous: Point, position: Point): Vector {
    var from, to := BottomAt(e, previous), BottomAt(e, position);
    Vector(to.x - from.x, to.y - from.y)
  }

  /**
   The path of the bottom point, extended backwards by the tolerance along the
   direction of movement. Without movement it is the single previous bottom point.
   */
  ghost function MovementLine(e: Ecb, previous: Point, position: Point): (m: Segment)
    ensures m.b == BottomAt(e, position)
    ensures Movement(e, previous, position) == Zero ==> m.a == BottomAt(e, previous) && IsDegenerate(m)
    ensures Magnitude(Movement(e, previous, position)) > 0.0 ==>
              && Magnitude(Span(m)) == Magnitude(Movement(e, previous, position)) + Tolerance
              && Vectors.Direction(Span(m)) == Vectors.Direction(Movement(e, previous, position))
  {
    MovementLineShape(e, previous, position);
    Segment(Behind(BottomAt(e, previous), Vectors.Direction(Movement(e, previous, position))), BottomAt(e, position))
  }

  lemma MovementLineShape(e: Ecb, previous: Point, position: Point)
    ensures var m := Segment(Behind(BottomAt(e, previous), Vectors.Direction(Movement(e, previous, position))), BottomAt(e, position));
            && (Movement(e, previous, position) == Zero ==> m.a == BottomAt(e, previous) && IsDegenerate(m))
            && (Magnitude(Movement(e, previous, position)) > 0.0 ==>
                  && Magnitude(Span(m)) == Magnitude(Movement(e, previous, position)) + Tolerance
                  && Vectors.Direction(Span(m)) == Vectors.Direction(Movement(e, previous, position)))
  {
    var v := Movement(e, previous, position);
    if v == Zero {
      StillMovementLine(e, previous, position);
      BehindStill(BottomAt(e, previous));
    } else if Magnitude(v) > 0.0 {
      StretchedMovement(v, BottomAt(e, previous), BottomAt(e, position));
    }
  }

  /** Without movement the direction is zero, both bottom points coincide and nothing moved. */
  lemma StillMovementLine(e: Ecb, previous: Point, position: Point)
    requires Movement(e, previous, position) == Zero
    ensures Vectors.Direction(Movement(e, previous, position)) == Zero
    ensures BottomAt(e, previous) == BottomAt(e, position)
    ensures Magnitude(Movement(e, previous, position)) == 0.0
  {
    NoMovement(e, previous, position);
    StillDirection(Movement(e, previous, position));
    MagnitudeOfZero();
  }

  lemma NoMovement(e: Ecb, previous: Point, position: Point)
    requires Movement(e, previous, position) == Zero
    ensures BottomAt(e, previous) == BottomAt(e, position)
  {
  }

  /** The point a tolerance behind `p` when moving along the unit vector `d`. */
  function Behind(p: Point, d: Vector): Point {
    Point(p.x - d.x * Tolerance, p.y - d.y * Tolerance)
  }

  lemma StillDirection(v: Vector)
    requires v == Zero
    ensures Vectors.Direction(v) == Zero
  {
  }

  lemma BehindStill(p: Point)
    ensures Behind(p, Zero) == p
  {
  }

  /**
   Starting a tolerance behind `from` along the movement `to - from` stretches the
   segment by exactly the tolerance without turning it.
   */
  lemma StretchedMovement(v: Vector, from: Point, to: Point)
    requires v == Vector(to.x - from.x, to.y - from.y)
    requires Magnitude(v) > 0.0
    ensures Magnitude(Span(Segment(Behind(from, Vectors.Direction(v)), to))) == Magnitude(v) + Tolerance
    ensures Vectors.Direction(Span(Segment(Behind(from, Vectors.Direction(v)), to))) == Vectors.Direction(v)
  {
    var len := Magnitude(v);
    var k := 1.0 + Tolerance / len;
    UnitDirection(v);
    BehindSpan(v, from, to, len);
    var s := Span(Segment(Behind(from, Vectors.Direction(v)), to));
    assert s == Vector(v.x * k, v.y * k);
    DirectionOfStretched(v, k);
    StretchFactor(len);
  }

  lemma UnitDirection(v: Vector)
    requires Magnitude(v) > 0.0
    ensures Vectors.Direction(v) == Vector(v.x / Magnitude(v), v.y / Magnitude(v))
  {
  }

  lemma BehindSpan(v: Vector, from: Point, to: Point, len: real)
    requires v == Vector(to.x - from.x, to.y - from.y)
    requires len > 0.0
    ensures Span(Segment(Behind(from, Vector(v.x / len, v.y / len)), to))
         == Vector(v.x * (1.0 + Tolerance / len), v.y * (1.0 + Tolerance / len))
  {
    assert v.x + (v.x / len) * Tolerance == v.x * (1.0 + Tolerance / len);
    assert v.y + (v.y / len) * Tolerance == v.y * (1.0 + Tolerance / len);
  }

  lemma StretchFactor(len: real)
    requires len > 0.0
    ensures 1.0 + Tolerance / len > 0.0
    ensures (1.0 + Tolerance / len) * len == len + Tolerance
  {
    assert Tolerance / len > 0.0;
    assert (Tolerance / len) * len == Tolerance;
  }

  /** Stretching a vector by a positive factor multiplies its length by the factor and keeps its direction. */
  lemma DirectionOfStretched(v: Vector, k: real)
    requires Magnitude(v) > 0.0 && k > 0.0
    ensures Magnitude(Vector(v.x * k, v.y * k)) == k * Magnitude(v)
    ensures Vectors.Direction(Vector(v.x * k, v.y * k)) == Vectors.Direction(v)
  {
    var len := Magnitude(v);
    var w := Vector(v.x * k, v.y * k);
    var wl := k * len;
    StretchedMagnitude(v, k);
    CancelFactor(v.x, k, len, w.x, wl);
    CancelFactor(v.y, k, len, w.y, wl);
    SameDirection(v, w, len, wl);
  }

  lemma StretchedMagnitude(v: Vector, k: real)
    requires Magnitude(v) > 0.0 && k > 0.0
    ensures Magnitude(Vector(v.x * k, v.y * k)) == k * Magnitude(v) > 0.0
  {
    MagnitudeOfScaled(v, k);
    PositiveProduct(k, Magnitude(v));
  }

  /** Two vectors whose components over their lengths agree have the same direction. */
  lemma SameDirection(v: Vector, w: Vector, lv: real, lw: real)
    requires Magnitude(v) == lv > 0.0 && Magnitude(w) == lw > 0.0
    requires w.x / lw == v.x / lv && w.y / lw == v.y / lv
    ensures Vectors.Direction(w) == Vectors.Direction(v)
  {
    DirectionFormula(v, lv);
    DirectionFormula(w, lw);
  }

  lemma DirectionFormula(v: Vector, len: real)
    requires Magnitude(v) == len > 0.0
    ensures Vectors.Direction(v) == Vector(v.x / len, v.y / len)
  {
  }

  lemma CancelFactor(a: real, k: real, len: real, b: real, l: real)
    requires k > 0.0 && len > 0.0 && b == a * k && l == k * len
    ensures b / l == a / len
  {
    assert (a / len) * (k * len) == a * k;
  }

  /**
   The position at which the bottom point meets the ground line, if the movement
   line passes the segment test; the intersection is then computed as written,
   with its floating-point special values.
   */
  ghost function GroundLineCollisionPosition(e: Ecb, previous: Point, position: Point, ground: Segment2D): (r: Option<ExtPoint>)
    ensures !IntersectsWith(MovementLine(e, previous, position), Shape(ground)) ==> r == None
    ensures IntersectsWith(MovementLine(e, previous, position), Shape(ground)) ==>
              r == LiftOption(Intersection(MovementLine(e, previous, position), Shape(ground)))
    ensures r.Some? ==> && r.value.x.Finite? && r.value.y.Finite?
                        && OnCarrier(MovementLine(e, previous, position), Plain(r.value))
                        && OnCarrier(Shape(ground), Plain(r.value))
  {
    var m := MovementLine(e, previous, position);
    if IntersectsWith(m, Shape(ground)) then
      GuardedIntersectionIsFinite(m, Shape(ground));
      IntersectionAsWritten(m, Shape(ground))
    else
      None
  }

  /** Once the segment test has passed, the intersection as written is the corrected one. */
  lemma GuardedIntersectionIsFinite(s: Segment, t: Segment)
    requires IntersectsWith(s, t)
    ensures IntersectionAsWritten(s, t) == LiftOption(Intersection(s, t))
  {
    if IsVertical(s) && IsVertical(t) {
      IntersectingVerticalsGiveNone(s, t);
    } else {
      AsWrittenAgreesUnlessBothVertical(s, t);
    }
  }
}
