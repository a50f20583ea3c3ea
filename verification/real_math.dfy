/**
 Real-number stand-ins for the floating-point helpers the simulator calls:
 absolute value, Rust's `signum`, `min`, `max`, `round` and `floor`, the square
 root, and the trigonometric functions `atan2`, `cos` and `sin`.

 The model has a single zero (no negative zero), so `Signum(0.0)` is `1.0`, as
 Rust's `signum` is for positive zero. The square root and the trigonometric
 functions are left uninterpreted apart from a few facts every real
 implementation satisfies.
 */
module RealMath {

  function Abs(x: real): (r: real)
    ensures r >= 0.0
    ensures r == x || r == -x
  {
    if x < 0.0 then -x else x
  }

  /** Rust's `f64::signum`: -1.0 for negative values and 1.0 otherwise (zero included). */
  function Signum(x: real): (r: real)
    ensures r == 1.0 || r == -1.0
    ensures r * x == Abs(x)
  {
    if x < 0.0 then -1.0 else 1.0
  }

  function Min(a: real, b: real): (r: real)
    ensures r <= a && r <= b
    ensures r == a || r == b
  {
    if a <= b then a else b
  }

  function Max(a: real, b: real): (r: real)
    ensures r >= a && r >= b
    ensures r == a || r == b
  {
    if a >= b then a else b
  }

  /** Rust's `f64::round`: the nearest integer, halfway cases rounded away from zero. */
  function Round(x: real): (n: int)
    ensures x >= 0.0 ==> n >= 0 && x - 0.5 < n as real <= x + 0.5
    ensures x < 0.0 ==> n <= 0 && x - 0.5 <= n as real < x + 0.5
  {
    if x >= 0.0 then (x + 0.5).Floor else -((-x + 0.5).Floor)
  }

  /** A value the game's stick hardware can report: an integer number of 80ths. */
  predicate IsMeleeStep(v: real) {
    (v * 80.0).Floor as real == v * 80.0
  }

  lemma IntegerEightiethIsMeleeStep(k: int)
    ensures IsMeleeStep(k as real / 80.0)
  {
    assert (k as real / 80.0) * 80.0 == k as real;
  }

  /**
   The non-negative square root. Dafny cannot show that every non-negative real
   has a root, so the root's defining equation is promised only where one exists;
   0.0 stands in for the missing roots (negative arguments, where Rust returns NaN,
   are never passed).
   */
  ghost function Sqrt(x: real): (r: real)
    ensures r >= 0.0
    ensures (exists y :: IsRootOf(y, x)) ==> IsRootOf(r, x)
  {
    if exists y :: IsRootOf(y, x) then
      var y :| IsRootOf(y, x); y
    else
      0.0
  }

  /** A positive result is always a genuine root. */
  lemma SqrtPositiveIsRoot(x: real)
    requires Sqrt(x) > 0.0
    ensures Sqrt(x) * Sqrt(x) == x
  {
  }

  predicate IsRootOf(y: real, x: real) {
    y >= 0.0 && y * y == x
  }

  /** Two non-negative reals with the same square are equal. */
  lemma SquareInjective(a: real, b: real)
    requires a >= 0.0 && b >= 0.0 && a * a == b * b
    ensures a == b
  {
    if a != b {
      var lo, hi := if a < b then a else b, if a < b then b else a;
      assert lo * lo == hi * hi;
      assert (hi - lo) * (hi + lo) == hi * hi - lo * lo;
      assert hi - lo > 0.0 && hi + lo > 0.0;
      PositiveProduct(hi - lo, hi + lo);
    }
  }

  lemma PositiveProduct(a: real, b: real)
    requires a > 0.0 && b > 0.0
    ensures a * b > 0.0
  {
  }

  lemma SqrtOfSquare(a: real)
    ensures Sqrt(a * a) == Abs(a)
  {
    assert Abs(a) * Abs(a) == a * a;
    assert IsRootOf(Abs(a), a * a);
    SquareInjective(Sqrt(a * a), Abs(a));
  }

  lemma SqrtZero()
    ensures Sqrt(0.0) == 0.0
  {
    SqrtOfSquare(0.0);
  }

  /** `atan2(y, x)`, uninterpreted except that a point on the positive x-axis has angle 0. */
  ghost function Atan2(y: real, x: real): real {
    var t: real :| y == 0.0 && x > 0.0 ==> t == 0.0; t
  }

  /** The point on the unit circle at angle `a`, uninterpreted except at angle 0. */
  ghost function CosSin(a: real): (p: (real, real))
    ensures p.0 * p.0 + p.1 * p.1 == 1.0
    ensures a == 0.0 ==> p == (1.0, 0.0)
  {
    assert UnitPointAt((1.0, 0.0), a);
    var p: (real, real) :| UnitPointAt(p, a); p
  }

  predicate UnitPointAt(p: (real, real), a: real) {
    p.0 * p.0 + p.1 * p.1 == 1.0 && (a == 0.0 ==> p == (1.0, 0.0))
  }

  ghost function Cos(a: real): (c: real)
    ensures Cos(a) * Cos(a) + Sin(a) * Sin(a) == 1.0
  {
    CosSin(a).0
  }

  ghost function Sin(a: real): real {
    CosSin(a).1
  }
}
