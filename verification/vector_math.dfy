/** Plain two-component vectors and the free helper functions over them. */
module Vectors {
  import opened RealMath

  datatype Vector = Vector(x: real, y: real)

  const Zero := Vector(0.0, 0.0)

  function SquaredLength(v: Vector): real {
    v.x * v.x + v.y * v.y
  }

  ghost function Magnitude(v: Vector): (m: real)
    ensures m >= 0.0
    ensures m > 0.0 ==> m * m == SquaredLength(v)
  {
    var m := Sqrt(SquaredLength(v));
    if m > 0.0 then SqrtPositiveIsRoot(SquaredLength(v)); m else m
  }

  lemma MagnitudeOfZero()
    ensures Magnitude(Zero) == 0.0
  {
    SqrtZero();
    assert SquaredLength(Zero) == 0.0;
  }

  /** Scaling a vector of known length scales its length by the factor's absolute value. */
  lemma MagnitudeOfScaled(v: Vector, s: real)
    requires Magnitude(v) > 0.0
    ensures Magnitude(Vector(v.x * s, v.y * s)) == Abs(s) * Magnitude(v)
  {
    var m := Magnitude(v);
    var k := Abs(s) * m;
    var w := Vector(v.x * s, v.y * s);
    ScaledSquares(v.x, v.y, s, m);
    assert SquaredLength(w) == k * k;
    NonNegativeProduct(Abs(s), m);
    SqrtOfSquare(k);
  }

  lemma ScaledSquares(x: real, y: real, s: real, m: real)
    requires m * m == x * x + y * y
    ensures (x * s) * (x * s) + (y * s) * (y * s) == (Abs(s) * m) * (Abs(s) * m)
  {
    assert (x * s) * (x * s) == (s * s) * (x * x);
    assert (y * s) * (y * s) == (s * s) * (y * y);
    assert (s * s) * (x * x) + (s * s) * (y * y) == (s * s) * (x * x + y * y);
    assert (Abs(s) * m) * (Abs(s) * m) == (Abs(s) * Abs(s)) * (m * m);
    assert Abs(s) * Abs(s) == s * s;
  }

  lemma NonNegativeProduct(a: real, b: real)
    requires a >= 0.0 && b >= 0.0
    ensures a * b >= 0.0
  {
  }

  /** The vector rescaled to the given length; a zero-length vector is returned unchanged. */
  ghost function WithMagnitude(v: Vector, value: real): (r: Vector)
    ensures Magnitude(v) == 0.0 ==> r == v
    ensures Magnitude(v) != 0.0 ==> r == Vector(v.x * (value / Magnitude(v)), v.y * (value / Magnitude(v)))
  {
    var current := Magnitude(v);
    if current != 0.0 then
      var scale := value / current;
      Vector(v.x * scale, v.y * scale)
    else
      v
  }

  /**
   Rescaling a vector of nonzero length gives it the requested length's
   absolute value; the result stays on the vector's line and, for a positive
   length, keeps the sign of both components.
   */
  lemma WithMagnitudeFacts(v: Vector, value: real)
    ensures Magnitude(v) != 0.0 ==> Magnitude(WithMagnitude(v, value)) == Abs(value)
    ensures Parallel(WithMagnitude(v, value), v)
    ensures value > 0.0 ==> (WithMagnitude(v, value).x > 0.0 <==> v.x > 0.0) && (WithMagnitude(v, value).y > 0.0 <==> v.y > 0.0)
    ensures value > 0.0 ==> (WithMagnitude(v, value).x < 0.0 <==> v.x < 0.0) && (WithMagnitude(v, value).y < 0.0 <==> v.y < 0.0)
  {
    WithMagnitudeLength(v, value);
    WithMagnitudeParallel(v, value);
    WithMagnitudeSigns(v, value);
  }

  lemma WithMagnitudeLength(v: Vector, value: real)
    ensures Magnitude(v) != 0.0 ==> Magnitude(WithMagnitude(v, value)) == Abs(value)
  {
    if Magnitude(v) != 0.0 {
      var scale := value / Magnitude(v);
      ScaledLength(v, scale, value);
      assert WithMagnitude(v, value) == Vector(v.x * scale, v.y * scale);
    }
  }

  lemma WithMagnitudeParallel(v: Vector, value: real)
    ensures Parallel(WithMagnitude(v, value), v)
  {
    if Magnitude(v) != 0.0 {
      ScaledParallel(v, value / Magnitude(v));
    } else {
      assert v.x * v.y == v.y * v.x;
    }
  }

  lemma WithMagnitudeSigns(v: Vector, value: real)
    ensures value > 0.0 ==> (WithMagnitude(v, value).x > 0.0 <==> v.x > 0.0) && (WithMagnitude(v, value).y > 0.0 <==> v.y > 0.0)
    ensures value > 0.0 ==> (WithMagnitude(v, value).x < 0.0 <==> v.x < 0.0) && (WithMagnitude(v, value).y < 0.0 <==> v.y < 0.0)
  {
    if Magnitude(v) != 0.0 {
      AbsOfQuotient(value, Magnitude(v));
      ScaledSigns(v, value / Magnitude(v));
    }
  }

  lemma ScaledLength(v: Vector, scale: real, value: real)
    requires Magnitude(v) != 0.0 && scale == value / Magnitude(v)
    ensures Magnitude(Vector(v.x * scale, v.y * scale)) == Abs(value)
  {
    MagnitudeOfScaled(v, scale);
    AbsOfQuotient(value, Magnitude(v));
  }

  lemma ScaledParallel(v: Vector, s: real)
    ensures Parallel(Vector(v.x * s, v.y * s), v)
  {
    assert (v.x * s) * v.y == (v.y * s) * v.x;
  }

  lemma ScaledSigns(v: Vector, s: real)
    ensures s > 0.0 ==> (v.x * s > 0.0 <==> v.x > 0.0) && (v.y * s > 0.0 <==> v.y > 0.0)
    ensures s > 0.0 ==> (v.x * s < 0.0 <==> v.x < 0.0) && (v.y * s < 0.0 <==> v.y < 0.0)
  {
  }

  lemma AbsOfQuotient(a: real, b: real)
    requires b > 0.0
    ensures Abs(a / b) * b == Abs(a)
    ensures a > 0.0 ==> a / b > 0.0
  {
    if a >= 0.0 {
      assert a / b >= 0.0;
    } else {
      assert a / b < 0.0;
      assert Abs(a / b) == -(a / b);
    }
  }

  /** atan2 of the vector, and 0 for the zero vector. */
  ghost function Angle(v: Vector): (a: real)
    ensures v == Zero ==> a == 0.0
    ensures v.y == 0.0 && v.x > 0.0 ==> a == 0.0
  {
    if v.x != 0.0 || v.y != 0.0 then Atan2(v.y, v.x) else 0.0
  }

  /** The two vectors lie on one line through the origin. */
  predicate Parallel(a: Vector, b: Vector) {
    a.x * b.y == a.y * b.x
  }

  /** The unit vector pointing the same way, and the zero vector for a zero-length vector. */
  ghost function Direction(v: Vector): (d: Vector)
    ensures Magnitude(v) == 0.0 ==> d == Zero
    ensures v == Zero ==> d == Zero
    ensures Magnitude(v) > 0.0 ==> d == Vector(v.x / Magnitude(v), v.y / Magnitude(v))
  {
    var current := Magnitude(v);
    if current > 0.0 then Vector(v.x / current, v.y / current)
    else MagnitudeOfZero(); Zero
  }

  /**
   The direction of a vector of positive length is a unit vector on the same
   line, with the same signs; the direction of any vector lies on its line.
   */
  lemma DirectionIsUnitAlong(v: Vector)
    ensures Magnitude(v) > 0.0 ==> Magnitude(Direction(v)) == 1.0
    ensures Parallel(Direction(v), v)
    ensures (Direction(v).x > 0.0 ==> v.x > 0.0) && (Direction(v).x < 0.0 ==> v.x < 0.0)
    ensures (Direction(v).y > 0.0 ==> v.y > 0.0) && (Direction(v).y < 0.0 ==> v.y < 0.0)
  {
    if Magnitude(v) > 0.0 {
      DirectionFacts(v);
    }
  }

  lemma DirectionFacts(v: Vector)
    requires Magnitude(v) > 0.0
    ensures var d := Vector(v.x / Magnitude(v), v.y / Magnitude(v));
            && Magnitude(d) == 1.0
            && Parallel(d, v)
            && (d.x > 0.0 ==> v.x > 0.0) && (d.x < 0.0 ==> v.x < 0.0)
            && (d.y > 0.0 ==> v.y > 0.0) && (d.y < 0.0 ==> v.y < 0.0)
  {
    var current := Magnitude(v);
    UnitLength(v);
    QuotientSigns(v.x, current);
    QuotientSigns(v.y, current);
    QuotientRatio(v.x, v.y, current);
  }

  /** Dividing a vector of positive length by that length gives a unit vector. */
  lemma UnitLength(v: Vector)
    requires Magnitude(v) > 0.0
    ensures Magnitude(Vector(v.x / Magnitude(v), v.y / Magnitude(v))) == 1.0
  {
    var current := Magnitude(v);
    var inv := 1.0 / current;
    DivisionAsScale(v.x, current, inv);
    DivisionAsScale(v.y, current, inv);
    ReciprocalScale(current, inv);
    MagnitudeOfScaled(v, inv);
    assert Vector(v.x / current, v.y / current) == Vector(v.x * inv, v.y * inv);
  }

  lemma DivisionAsScale(a: real, c: real, inv: real)
    requires c > 0.0 && inv == 1.0 / c
    ensures a / c == a * inv
  {
  }

  lemma ReciprocalScale(c: real, inv: real)
    requires c > 0.0 && inv == 1.0 / c
    ensures Abs(inv) * c == 1.0
  {
  }

  lemma QuotientSigns(a: real, b: real)
    requires b > 0.0
    ensures (a / b > 0.0 ==> a > 0.0) && (a / b < 0.0 ==> a < 0.0)
  {
  }

  lemma QuotientRatio(a: real, c: real, b: real)
    requires b > 0.0
    ensures (a / b) * c == (c / b) * a
  {
    assert a / b * c == (a * c) / b;
    assert c / b * a == (c * a) / b;
  }

  function Dot(a: Vector, b: Vector): real {
    a.x * b.x + a.y * b.y
  }

  function Inverse(v: Vector): (r: Vector)
    ensures Dot(r, v) == -Dot(v, v)
  {
    Vector(-v.x, -v.y)
  }

  lemma InverseInvolution(v: Vector)
    ensures Inverse(Inverse(v)) == v
  {
  }

  lemma DotSymmetric(a: Vector, b: Vector)
    ensures Dot(a, b) == Dot(b, a)
  {
  }

  lemma DotWithInverse(a: Vector, b: Vector)
    ensures Dot(a, Inverse(b)) == -Dot(a, b)
  {
  }
}
