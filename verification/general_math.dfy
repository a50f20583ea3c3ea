/** Linear interpolation between two values. */
module GeneralMath {

  function Lerp(a: real, b: real, t: real): (r: real)
    ensures t == 0.0 ==> r == a
    ensures t == 1.0 ==> r == b
    ensures a == b ==> r == a
  {
    a + t * (b - a)
  }

  /** For a parameter in [0, 1] the interpolated value lies between the two ends. */
  lemma LerpStaysBetween(a: real, b: real, t: real)
    requires 0.0 <= t <= 1.0
    ensures a <= b ==> a <= Lerp(a, b, t) <= b
    ensures b <= a ==> b <= Lerp(a, b, t) <= a
  {
    var d := b - a;
    if d >= 0.0 {
      assert t * d <= 1.0 * d by { assert (1.0 - t) * d >= 0.0; }
      assert t * d >= 0.0;
    } else {
      assert t * d >= 1.0 * d by { assert (1.0 - t) * (-d) >= 0.0; }
      assert t * (-d) >= 0.0;
    }
  }
}
