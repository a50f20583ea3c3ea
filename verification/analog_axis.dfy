/**
 One analog axis of a controller: a value in [-1, 1] together with what it was on
 the previous frame, a dead zone below which the axis counts as released, and a
 count of the frames it has been held past the dead zone.
 */
module AnalogAxes {
  import opened RealMath

  datatype AnalogAxis = AnalogAxis(
    value: real,
    previous: real,
    deadZone: real,
    activePrevious: bool,
    activeFrames: nat,
    highStateWasFirst: bool)

  /** A centred axis that was centred and inactive on the previous frame. */
  function NewAxis(deadZone: real): (a: AnalogAxis)
    ensures a.value == 0.0 && a.previous == 0.0 && a.deadZone == deadZone
    ensures a.activeFrames == 0 && !a.activePrevious && !JustCrossedCenter(a)
    ensures a.highStateWasFirst
  {
    AnalogAxis(0.0, 0.0, deadZone, false, 0, true)
  }

  function AxisMagnitude(a: AnalogAxis): (m: real)
    ensures m >= 0.0
    ensures m == a.value || m == -a.value
  {
    Abs(a.value)
  }

  /** The sign of the current value: 1, -1, or 0 at the centre. */
  function Direction(a: AnalogAxis): (d: real)
    ensures d == 1.0 <==> a.value > 0.0
    ensures d == -1.0 <==> a.value < 0.0
    ensures d == 0.0 <==> a.value == 0.0
    ensures d * a.value == AxisMagnitude(a)
  {
    if a.value > 0.0 then 1.0
    else if a.value < 0.0 then -1.0
    else 0.0
  }

  /** The value moved from the centre or the other side to strictly one side this frame. */
  predicate JustCrossedCenter(a: AnalogAxis) {
    (a.value < 0.0 && a.previous >= 0.0) || (a.value > 0.0 && a.previous <= 0.0)
  }

  predicate IsActive(a: AnalogAxis) {
    AxisMagnitude(a) >= a.deadZone
  }

  predicate JustActivated(a: AnalogAxis) {
    JustCrossedCenter(a) || (IsActive(a) && !a.activePrevious)
  }

  predicate JustDeactivated(a: AnalogAxis) {
    a.activePrevious && !IsActive(a)
  }

  /** The axis counts as active exactly when the value is at least the dead zone away from the centre. */
  lemma ActiveOutsideDeadZone(a: AnalogAxis)
    ensures IsActive(a) <==> a.value >= a.deadZone || -a.value >= a.deadZone
  {
  }

  /** Stores this frame's value; the previous frame's record is kept. */
  function SetValue(a: AnalogAxis, value: real): (r: AnalogAxis)
    ensures r.value == value
    ensures r.previous == a.previous && r.activePrevious == a.activePrevious && r.activeFrames == a.activeFrames
    ensures r.deadZone == a.deadZone && r.highStateWasFirst == a.highStateWasFirst
  {
    a.(value := value)
  }

  /**
   Resolves a pair of digital directions (for example two keys) to -1, 0 or 1. If
   both are held, the one pressed later wins: the flag remembers which of the two
   was held alone most recently.
   */
  function SetValueFromStates(a: AnalogAxis, low: bool, high: bool): (r: AnalogAxis)
    ensures !low && !high ==> r.value == 0.0
    ensures low && !high ==> r.value == -1.0 && !r.highStateWasFirst
    ensures high && !low ==> r.value == 1.0 && r.highStateWasFirst
    ensures low && high ==> r.highStateWasFirst == a.highStateWasFirst
                            && r.value == (if a.highStateWasFirst then -1.0 else 1.0)
    ensures !(low && !high) && !(high && !low) ==> r.highStateWasFirst == a.highStateWasFirst
    ensures r.value == -1.0 || r.value == 0.0 || r.value == 1.0
    ensures r.(value := a.value, highStateWasFirst := a.highStateWasFirst) == a
  {
    var first :=
      if high && !low then true
      else if low && !high then false
      else a.highStateWasFirst;
    var lowAndHigh := low && high;
    var onlyLow := low && !high;
    var onlyHigh := high && !low;
    var value :=
      if onlyLow || (lowAndHigh && first) then -1.0
      else if onlyHigh || (lowAndHigh && !first) then 1.0
      else 0.0;
    a.(highStateWasFirst := first, value := value)
  }

  /** When the second direction joins the first, the newcomer decides the value. */
  lemma LaterPressWins(a: AnalogAxis)
    ensures SetValueFromStates(SetValueFromStates(a, false, true), true, true).value == -1.0
    ensures SetValueFromStates(SetValueFromStates(a, true, false), true, true).value == 1.0
  {
  }

  /**
   Ends the frame: counts another active frame (restarting at 0 on the frame the
   axis activated or while it is inactive), then records the value and the
   activity as the previous frame's.
   */
  function Update(a: AnalogAxis): (r: AnalogAxis)
    ensures r.value == a.value && r.deadZone == a.deadZone && r.highStateWasFirst == a.highStateWasFirst
    ensures r.previous == a.value
    ensures r.activePrevious == IsActive(a)
    ensures JustActivated(a) || !IsActive(a) ==> r.activeFrames == 0
    ensures !JustActivated(a) && IsActive(a) ==> r.activeFrames == a.activeFrames + 1
    ensures !JustActivated(r) && !JustDeactivated(r) && !JustCrossedCenter(r)
  {
    var frames :=
      if JustActivated(a) then 0
      else if IsActive(a) then a.activeFrames + 1
      else 0;
    a.(activeFrames := frames, previous := a.value, activePrevious := IsActive(a))
  }

  /** `n` frames of holding the axis at `value`: set the value, then end the frame. */
  function Hold(a: AnalogAxis, value: real, n: nat): (r: AnalogAxis)
    decreases n
  {
    if n == 0 then a else Hold(Update(SetValue(a, value)), value, n - 1)
  }

  /**
   Holding the axis past the dead zone activates it once: after the first frame
   it never reports activation again, and the active-frame counter counts the
   frames held since that one.
   */
  lemma {:induction false} HoldingActivatesOnce(a: AnalogAxis, value: real, n: nat)
    requires n >= 1
    requires Abs(value) >= a.deadZone
    ensures !JustActivated(SetValue(Hold(a, value, n), value))
    ensures Hold(a, value, n).activeFrames
         == (if JustActivated(SetValue(a, value)) then n - 1 else a.activeFrames + n)
    decreases n
  {
    var first := Update(SetValue(a, value));
    if n == 1 {
      assert Hold(a, value, 1) == Hold(first, value, 0) == first;
    } else {
      HoldingActivatesOnce(first, value, n - 1);
      assert !JustActivated(SetValue(first, value));
      assert Hold(a, value, n) == Hold(first, value, n - 1);
    }
  }
}
