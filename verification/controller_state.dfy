/**
 The whole controller as the game reads it: a main stick and a C-stick (two
 axes each) and twelve buttons. The fighter keeps its own copy, ends the frame
 on it and then copies the new frame's values in, so that the edge detectors
 compare this frame with the last one.
 */
module Controllers {
  import opened RealMath
  import opened Buttons
  import opened AnalogAxes
  import opened AnalogSticks
  import opened Vectors

  datatype ControllerState = ControllerState(
    leftStick: AnalogStick,
    cStick: AnalogStick,
    aButton: Button,
    bButton: Button,
    xButton: Button,
    yButton: Button,
    zButton: Button,
    rButton: Button,
    lButton: Button,
    startButton: Button,
    dLeftButton: Button,
    dRightButton: Button,
    dDownButton: Button,
    dUpButton: Button)

  /** The four axes: main stick x and y, then C-stick x and y. */
  function AxisList(c: ControllerState): (s: seq<AnalogAxis>)
    ensures |s| == 4
  {
    [c.leftStick.xAxis, c.leftStick.yAxis, c.cStick.xAxis, c.cStick.yAxis]
  }

  /** The twelve buttons in declaration order. */
  function ButtonList(c: ControllerState): (s: seq<Button>)
    ensures |s| == 12
  {
    [c.aButton, c.bButton, c.xButton, c.yButton, c.zButton, c.rButton,
     c.lButton, c.startButton, c.dLeftButton, c.dRightButton, c.dDownButton, c.dUpButton]
  }

  /** The two lists name every part of the controller: controllers that agree on both are equal. */
  lemma ListsDetermineController(c: ControllerState, d: ControllerState)
    requires AxisList(c) == AxisList(d) && ButtonList(c) == ButtonList(d)
    ensures c == d
  {
    assert AxisList(c)[0] == AxisList(d)[0] && AxisList(c)[1] == AxisList(d)[1];
    assert AxisList(c)[2] == AxisList(d)[2] && AxisList(c)[3] == AxisList(d)[3];
    assert ButtonList(c)[0] == ButtonList(d)[0] && ButtonList(c)[1] == ButtonList(d)[1];
    assert ButtonList(c)[2] == ButtonList(d)[2] && ButtonList(c)[3] == ButtonList(d)[3];
    assert ButtonList(c)[4] == ButtonList(d)[4] && ButtonList(c)[5] == ButtonList(d)[5];
    assert ButtonList(c)[6] == ButtonList(d)[6] && ButtonList(c)[7] == ButtonList(d)[7];
    assert ButtonList(c)[8] == ButtonList(d)[8] && ButtonList(c)[9] == ButtonList(d)[9];
    assert ButtonList(c)[10] == ButtonList(d)[10] && ButtonList(c)[11] == ButtonList(d)[11];
  }

  /** A centred controller with every button up; all four axes share the dead zone. */
  function NewController(deadZone: real): (c: ControllerState)
    ensures forall i | 0 <= i < 4 :: AxisList(c)[i] == NewAxis(deadZone)
    ensures forall i | 0 <= i < 12 :: !IsPressed(ButtonList(c)[i]) && !JustPressed(ButtonList(c)[i]) && !JustReleased(ButtonList(c)[i])
  {
    ControllerState(NewStick(deadZone), NewStick(deadZone),
      NewButton(), NewButton(), NewButton(), NewButton(), NewButton(), NewButton(),
      NewButton(), NewButton(), NewButton(), NewButton(), NewButton(), NewButton())
  }

  /** Ends the frame on every axis and every button, each exactly once. */
  function Update(c: ControllerState): (r: ControllerState)
    ensures forall i | 0 <= i < 4 :: AxisList(r)[i] == AnalogAxes.Update(AxisList(c)[i])
    ensures forall i | 0 <= i < 12 :: ButtonList(r)[i] == Buttons.Update(ButtonList(c)[i])
  {
    ControllerState(
      AnalogSticks.Update(c.leftStick), AnalogSticks.Update(c.cStick),
      Buttons.Update(c.aButton), Buttons.Update(c.bButton), Buttons.Update(c.xButton),
      Buttons.Update(c.yButton), Buttons.Update(c.zButton), Buttons.Update(c.rButton),
      Buttons.Update(c.lButton), Buttons.Update(c.startButton), Buttons.Update(c.dLeftButton),
      Buttons.Update(c.dRightButton), Buttons.Update(c.dDownButton), Buttons.Update(c.dUpButton))
  }

  /** Right after the frame ends nothing reports an edge, and every value and press is kept. */
  lemma UpdateClearsEdges(c: ControllerState)
    ensures forall i | 0 <= i < 4 ::
              && AxisList(Update(c))[i].value == AxisList(c)[i].value
              && !JustActivated(AxisList(Update(c))[i]) && !JustDeactivated(AxisList(Update(c))[i])
    ensures forall i | 0 <= i < 12 ::
              && IsPressed(ButtonList(Update(c))[i]) == IsPressed(ButtonList(c)[i])
              && !JustPressed(ButtonList(Update(c))[i]) && !JustReleased(ButtonList(Update(c))[i])
  {
  }

  /** The controller whose four axes and twelve buttons are the given lists, in list order. */
  function FromLists(axes: seq<AnalogAxis>, buttons: seq<Button>): (c: ControllerState)
    requires |axes| == 4 && |buttons| == 12
    ensures AxisList(c) == axes && ButtonList(c) == buttons
  {
    ControllerState(AnalogStick(axes[0], axes[1]), AnalogStick(axes[2], axes[3]),
      buttons[0], buttons[1], buttons[2], buttons[3], buttons[4], buttons[5],
      buttons[6], buttons[7], buttons[8], buttons[9], buttons[10], buttons[11])
  }

  /**
   Takes the current axis values and button presses of `from`; what this
   controller remembers of earlier frames (previous values, activity, counters,
   dead zones) stays as it was.
   */
  function CopyInputs(c: ControllerState, from: ControllerState): (r: ControllerState)
    ensures forall i | 0 <= i < 4 :: AxisList(r)[i] == SetValue(AxisList(c)[i], AxisList(from)[i].value)
    ensures forall i | 0 <= i < 12 :: ButtonList(r)[i] == SetPressed(ButtonList(c)[i], IsPressed(ButtonList(from)[i]))
  {
    FromLists(
      seq(4, i requires 0 <= i < 4 => SetValue(AxisList(c)[i], AxisList(from)[i].value)),
      seq(12, i requires 0 <= i < 12 => SetPressed(ButtonList(c)[i], IsPressed(ButtonList(from)[i]))))
  }

  /** Copying the same inputs twice is the same as copying them once. */
  lemma CopyInputsIdempotent(c: ControllerState, from: ControllerState)
    ensures CopyInputs(CopyInputs(c, from), from) == CopyInputs(c, from)
  {
  }

  /**
   Ending the frame and then taking the new inputs makes every edge report
   exactly the change between the two frames: a button is just pressed iff it is
   down now and was up before, and an axis counts as having been active iff it
   was active on the frame that ended.
   */
  lemma FrameEdgesReportChanges(c: ControllerState, from: ControllerState)
    ensures forall i | 0 <= i < 12 ::
              && (JustPressed(ButtonList(CopyInputs(Update(c), from))[i]) <==>
                    IsPressed(ButtonList(from)[i]) && !IsPressed(ButtonList(c)[i]))
              && (JustReleased(ButtonList(CopyInputs(Update(c), from))[i]) <==>
                    !IsPressed(ButtonList(from)[i]) && IsPressed(ButtonList(c)[i]))
    ensures forall i | 0 <= i < 4 ::
              && AxisList(CopyInputs(Update(c), from))[i].value == AxisList(from)[i].value
              && AxisList(CopyInputs(Update(c), from))[i].previous == AxisList(c)[i].value
              && AxisList(CopyInputs(Update(c), from))[i].activePrevious == IsActive(AxisList(c)[i])
  {
  }

  /**
   Snaps both sticks to the game's 1/80 steps, each stick as one pair of axes;
   no button is touched.
   */
  ghost function ConvertToMeleeValues(c: ControllerState): (r: ControllerState)
    ensures ButtonList(r) == ButtonList(c)
    ensures forall i | 0 <= i < 4 :: IsMeleeStep(AxisList(r)[i].value)
    ensures forall i | 0 <= i < 4 ::
              AxisList(r)[i].(value := AxisList(c)[i].value) == AxisList(c)[i]
  {
    c.(leftStick := AnalogSticks.ConvertToMeleeValues(c.leftStick),
       cStick := AnalogSticks.ConvertToMeleeValues(c.cStick))
  }

  /** No axis changes sign when the sticks are snapped. */
  lemma MeleeValuesKeepSigns(c: ControllerState)
    ensures forall i | 0 <= i < 4 ::
              var v := AxisList(ConvertToMeleeValues(c))[i].value;
              v == 0.0 || (v > 0.0 <==> AxisList(c)[i].value > 0.0)
  {
    AnalogSticks.MeleeValuesKeepSigns(c.leftStick);
    AnalogSticks.MeleeValuesKeepSigns(c.cStick);
  }

  /**
   A stick on or inside the unit circle moves by at most half a step per axis;
   one pushed past it ends inside it.
   */
  lemma MeleeValuesBounds(c: ControllerState)
    ensures var r := ConvertToMeleeValues(c);
            && (StickMagnitude(c.leftStick) <= 1.0 ==>
                  && Abs(r.leftStick.xAxis.value - c.leftStick.xAxis.value) <= 1.0 / 160.0
                  && Abs(r.leftStick.yAxis.value - c.leftStick.yAxis.value) <= 1.0 / 160.0)
            && (StickMagnitude(c.cStick) <= 1.0 ==>
                  && Abs(r.cStick.xAxis.value - c.cStick.xAxis.value) <= 1.0 / 160.0
                  && Abs(r.cStick.yAxis.value - c.cStick.yAxis.value) <= 1.0 / 160.0)
            && (StickMagnitude(c.leftStick) > 1.0 ==> SquaredLength(StickVector(r.leftStick)) <= 1.0)
            && (StickMagnitude(c.cStick) > 1.0 ==> SquaredLength(StickVector(r.cStick)) <= 1.0)
  {
    if StickMagnitude(c.leftStick) <= 1.0 {
      MeleeValuesNear(c.leftStick);
    } else {
      MeleeValuesInsideCircle(c.leftStick);
    }
    if StickMagnitude(c.cStick) <= 1.0 {
      MeleeValuesNear(c.cStick);
    } else {
      MeleeValuesInsideCircle(c.cStick);
    }
  }
}
