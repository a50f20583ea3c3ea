/**
 The prototype game loop: a controller kept by the game and one horizontal
 position that jumps by 60 times the main stick's x value on the frame that
 stick activates.
 */
module FightingGames {
  import opened RealMath
  import opened AnalogAxes
  import opened AnalogSticks
  import opened Controllers

  datatype FightingGame = FightingGame(controllerState: ControllerState, x: real)

  /** The game's controller uses the dead zone 0.2875 on every axis. */
  function NewGame(): (g: FightingGame)
    ensures g.x == 0.0
    ensures forall i | 0 <= i < 4 :: AxisList(g.controllerState)[i] == NewAxis(0.2875)
  {
    FightingGame(NewController(0.2875), 0.0)
  }

  /**
   One frame: copy the snapshot in, move on the main stick's activation, then
   end the frame on the game's controller.
   */
  function Update(g: FightingGame, input: ControllerState): (r: FightingGame)
    ensures r.controllerState == Controllers.Update(CopyInputs(g.controllerState, input))
    ensures r.x != g.x ==> JustActivated(CopyInputs(g.controllerState, input).leftStick.xAxis)
    ensures JustActivated(CopyInputs(g.controllerState, input).leftStick.xAxis) ==>
              r.x == g.x + 60.0 * input.leftStick.xAxis.value
    ensures r.x - g.x == 0.0 || r.x - g.x == 60.0 * input.leftStick.xAxis.value
    ensures Abs(input.leftStick.xAxis.value) <= 1.0 ==> Abs(r.x - g.x) <= 60.0
  {
    var copied := CopyInputs(g.controllerState, input);
    assert copied.leftStick.xAxis == AxisList(copied)[0];
    assert copied.leftStick.xAxis.value == input.leftStick.xAxis.value;
    var x := if JustActivated(copied.leftStick.xAxis) then g.x + 60.0 * copied.leftStick.xAxis.value else g.x;
    FightingGame(Controllers.Update(copied), x)
  }

  /** `n` frames with the same snapshot. */
  function Repeat(g: FightingGame, input: ControllerState, n: nat): FightingGame
    decreases n
  {
    if n == 0 then g else Repeat(Update(g, input), input, n - 1)
  }

  /** Holding the same snapshot moves the position at most once: on its first frame. */
  lemma {:induction false} HoldingMovesOnce(g: FightingGame, input: ControllerState, n: nat)
    requires n >= 1
    ensures Repeat(g, input, n).x == Update(g, input).x
    decreases n
  {
    var h := Update(g, input);
    FrameLeavesStickHeld(g, input);
    HoldingStaysPut(h, input, n - 1);
    assert Repeat(g, input, n) == Repeat(h, input, n - 1);
  }

  /**
   The game's main-stick x axis has ended a frame on `value`: it remembers that
   value and whether it was active with it.
   */
  predicate Held(a: AnalogAxis, value: real) {
    a.previous == value && a.activePrevious == IsActive(SetValue(a, value))
  }

  /** The main-stick x axis of the game's controller after copying a snapshot in, and after ending the frame. */
  lemma StickAfterFrame(g: FightingGame, input: ControllerState)
    ensures CopyInputs(g.controllerState, input).leftStick.xAxis
         == SetValue(g.controllerState.leftStick.xAxis, input.leftStick.xAxis.value)
    ensures Update(g, input).controllerState.leftStick.xAxis
         == AnalogAxes.Update(SetValue(g.controllerState.leftStick.xAxis, input.leftStick.xAxis.value))
  {
    var copied := CopyInputs(g.controllerState, input);
    assert AxisList(copied)[0] == SetValue(AxisList(g.controllerState)[0], AxisList(input)[0].value);
    assert AxisList(Controllers.Update(copied))[0] == AnalogAxes.Update(AxisList(copied)[0]);
  }

  /** Any frame leaves the main stick held on the snapshot's value. */
  lemma FrameLeavesStickHeld(g: FightingGame, input: ControllerState)
    ensures Held(Update(g, input).controllerState.leftStick.xAxis, input.leftStick.xAxis.value)
  {
    StickAfterFrame(g, input);
  }

  /** With the stick already held on the snapshot's value, a frame does not move the position. */
  lemma HeldFrameStaysPut(g: FightingGame, input: ControllerState)
    requires Held(g.controllerState.leftStick.xAxis, input.leftStick.xAxis.value)
    ensures Update(g, input).x == g.x
  {
    StickAfterFrame(g, input);
    assert !JustActivated(SetValue(g.controllerState.leftStick.xAxis, input.leftStick.xAxis.value));
  }

  lemma {:induction false} HoldingStaysPut(h: FightingGame, input: ControllerState, n: nat)
    requires Held(h.controllerState.leftStick.xAxis, input.leftStick.xAxis.value)
    ensures Repeat(h, input, n).x == h.x
    decreases n
  {
    if n > 0 {
      HeldFrameStaysPut(h, input);
      FrameLeavesStickHeld(h, input);
      HoldingStaysPut(Update(h, input), input, n - 1);
    }
  }
}
