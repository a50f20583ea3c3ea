/**
 A fixed-timestep accumulator. Durations are whole nanoseconds. Each call adds
 the elapsed time, runs the fixed update once for every whole fixed step that
 fits, keeps the remainder, and records how far the remainder is into the next
 step. The fixed update itself is outside this model: the method reports how
 many times it would run.
 */
module FixedTimesteps {

  datatype FixedTimestep = FixedTimestep(interpolation: real, fixedDelta: nat, accumulator: nat)

  function NewTimestep(fixedDelta: nat): (t: FixedTimestep)
    ensures t.interpolation == 0.0 && t.accumulator == 0 && t.fixedDelta == fixedDelta
  {
    FixedTimestep(0.0, fixedDelta, 0)
  }

  /**
   One call. The fixed update runs exactly as many times as whole steps fit in
   the accumulated time; the remainder is less than one step, and the
   interpolation is that remainder as a fraction of a step.
   */
  method Update(t: FixedTimestep, delta: nat) returns (r: FixedTimestep, calls: nat)
    requires t.fixedDelta > 0
    ensures calls * t.fixedDelta + r.accumulator == t.accumulator + delta
    ensures r.accumulator < t.fixedDelta
    ensures calls == (t.accumulator + delta) / t.fixedDelta
    ensures r.accumulator == (t.accumulator + delta) % t.fixedDelta
    ensures r.fixedDelta == t.fixedDelta
    ensures r.interpolation == r.accumulator as real / t.fixedDelta as real
    ensures 0.0 <= r.interpolation < 1.0
    ensures t.accumulator + delta < t.fixedDelta ==> calls == 0 && r.accumulator == t.accumulator + delta
  {
    var accumulator;
    calls, accumulator := RunSteps(t.accumulator + delta, t.fixedDelta);
    DivModUnique(t.accumulator + delta, t.fixedDelta, calls, accumulator);
    FractionOfStep(accumulator, t.fixedDelta);
    r := FixedTimestep(accumulator as real / t.fixedDelta as real, t.fixedDelta, accumulator);
  }

  /** Takes whole steps off the accumulated time until less than one step is left. */
  method RunSteps(total: nat, fixedDelta: nat) returns (calls: nat, rest: nat)
    requires fixedDelta > 0
    ensures calls * fixedDelta + rest == total
    ensures rest < fixedDelta
  {
    rest := total;
    calls := 0;
    while rest >= fixedDelta
      invariant calls * fixedDelta + rest == total
      decreases rest
    {
      assert (calls + 1) * fixedDelta == calls * fixedDelta + fixedDelta;
      calls := calls + 1;
      rest := rest - fixedDelta;
    }
  }

  /** A remainder below one step is a fraction in [0, 1) of the step. */
  lemma FractionOfStep(m: nat, d: nat)
    requires m < d
    ensures 0.0 <= m as real / d as real < 1.0
  {
    assert m as real < d as real;
  }

  /** Quotient and remainder are the only such pair. */
  lemma DivModUnique(n: nat, d: nat, q: nat, m: nat)
    requires d > 0 && q * d + m == n && m < d
    ensures q == n / d && m == n % d
  {
    var q0, m0 := n / d, n % d;
    assert q0 * d + m0 == n;
    if q > q0 {
      MultiplyAtLeast(q - q0, d);
    } else if q < q0 {
      MultiplyAtLeast(q0 - q, d);
    }
  }

  lemma MultiplyAtLeast(k: nat, d: nat)
    requires k >= 1
    ensures k * d >= d
  {
    assert k * d == (k - 1) * d + d;
  }

  /**
   The number of fixed updates and the remainder after two calls equal those
   of a single call with the two elapsed times added.
   */
  lemma SplitCallsAgree(accumulator: nat, fixedDelta: nat, first: nat, second: nat)
    requires fixedDelta > 0
    ensures (accumulator + first) / fixedDelta + ((accumulator + first) % fixedDelta + second) / fixedDelta
         == (accumulator + first + second) / fixedDelta
    ensures ((accumulator + first) % fixedDelta + second) % fixedDelta
         == (accumulator + first + second) % fixedDelta
  {
    var q1, m1 := (accumulator + first) / fixedDelta, (accumulator + first) % fixedDelta;
    var q2, m2 := (m1 + second) / fixedDelta, (m1 + second) % fixedDelta;
    assert q1 * fixedDelta + m1 == accumulator + first;
    assert q2 * fixedDelta + m2 == m1 + second;
    assert (q1 + q2) * fixedDelta == q1 * fixedDelta + q2 * fixedDelta;
    DivModUnique(accumulator + first + second, fixedDelta, q1 + q2, m2);
  }
}
