/**
 One frame of a fighter: take the new controller snapshot, run the current
 state's transition rule, then the (possibly new) state's update rule, clamp
 the fighter to the ground and land it, and count the frame.
 */
module FighterFrames {
  import opened RealMath
  import opened Points
  import opened Vectors
  import opened Buttons
  import opened AnalogAxes
  import opened Controllers
  import opened Fighters
  import opened FighterStates

  /**
   The start of a frame: the fighter's controller ends the last frame and takes
   the new snapshot's values; the facing and position become last frame's.
   */
  function Prepare(f: Fighter, input: ControllerState): (r: Fighter)
    ensures r.input == CopyInputs(Controllers.Update(f.input), input)
    ensures r.wasFacingRight == f.isFacingRight && r.previousPosition == f.position
    ensures r.(input := f.input, wasFacingRight := f.wasFacingRight, previousPosition := f.previousPosition) == f
    ensures !JustTurned(r)
  {
    f.(input := CopyInputs(Controllers.Update(f.input), input),
       wasFacingRight := f.isFacingRight,
       previousPosition := f.position)
  }

  /** The transition and the update rule of one frame, before the ground check. */
  ghost function Act(f: Fighter, input: ControllerState): (r: Fighter)
    requires f.params.dashMaxVelocity != 0.0
    ensures StepShape(Transition(Prepare(f, input)), r)
  {
    StateUpdate(Transition(Prepare(f, input)))
  }

  /**
   What the transition and the update rule keep of the fighter: the new inputs,
   the constants, last frame's position and facing, and the height; the state
   either stays with its frame count or is entered afresh at frame 0, and a
   landing state is never entered here.
   */
  lemma ActKeeps(f: Fighter, input: ControllerState)
    requires f.params.dashMaxVelocity != 0.0
    ensures Act(f, input).input == Prepare(f, input).input && Act(f, input).params == f.params
    ensures Act(f, input).previousPosition == f.position && Act(f, input).wasFacingRight == f.isFacingRight
    ensures Act(f, input).position.y == f.position.y
    ensures Act(f, input).position.x == f.position.x + Act(f, input).velocity.x + Act(f, input).velocity.y
    ensures Act(f, input).stateFrame == 0 || (Act(f, input).state == f.state && Act(f, input).stateFrame == f.stateFrame)
    ensures Act(f, input).state != f.state ==> Act(f, input).stateFrame == 0
    ensures IsLanding(Act(f, input).state) ==> Act(f, input).state == f.state && Act(f, input).stateFrame == f.stateFrame
  {
    var p := Prepare(f, input);
    var t := Transition(p);
    assert t.input == p.input && t.params == p.params && t.position == p.position;
    assert t.previousPosition == p.previousPosition && t.wasFacingRight == p.wasFacingRight;
  }

  /** Below the ground, the fighter is put back on it and, if it was in the air, lands. */
  function Ground(f: Fighter): (r: Fighter)
    ensures f.position.y >= 0.0 ==> r == f
    ensures f.position.y < 0.0 ==> r == Landing(f.(position := f.position.(y := 0.0)))
    ensures r.position == Point(f.position.x, Max(f.position.y, 0.0))
  {
    if f.position.y < 0.0 then Landing(f.(position := f.position.(y := 0.0))) else f
  }

  /**
   The ground check changes only the height, and the state when it lands the
   fighter; landing keeps the velocity and the air jumps and starts the landing
   state at frame 0.
   */
  lemma GroundKeeps(f: Fighter)
    ensures Ground(f).input == f.input && Ground(f).params == f.params
    ensures Ground(f).velocity == f.velocity && Ground(f).airJumpsLeft == f.airJumpsLeft
    ensures Ground(f).previousPosition == f.previousPosition && Ground(f).wasFacingRight == f.wasFacingRight
    ensures Ground(f).state != f.state ==> f.position.y < 0.0 && CanLand(f) && IsLanding(Ground(f).state) && Ground(f).stateFrame == 0
    ensures Ground(f).state == f.state ==> Ground(f).stateFrame == f.stateFrame
    ensures f.position.y < 0.0 && CanLand(f) ==> IsLanding(Ground(f).state)
  {
    if f.position.y < 0.0 {
      var lifted := f.(position := f.position.(y := 0.0));
      assert lifted.input == f.input && lifted.params == f.params && lifted.velocity == f.velocity;
      assert lifted.airJumpsLeft == f.airJumpsLeft && lifted.state == f.state && lifted.stateFrame == f.stateFrame;
      assert lifted.previousPosition == f.previousPosition && lifted.wasFacingRight == f.wasFacingRight;
      LandingKeeps(lifted);
    }
  }

  /** One frame: the transition and update, the ground check, and the frame count. */
  ghost function Update(f: Fighter, input: ControllerState): (r: Fighter)
    requires f.params.dashMaxVelocity != 0.0
    ensures r.params == f.params
    ensures r.position.y == Max(f.position.y, 0.0)
  {
    ActKeeps(f, input);
    GroundKeeps(Act(f, input));
    Ground(Act(f, input)).(stateFrame := Ground(Act(f, input)).stateFrame + 1)
  }

  /**
   After one frame the new inputs are held, the last frame's position and
   facing are recorded, the state's frame counter is 1 on a frame a state was
   entered and otherwise counts on, and a landing state is entered only from
   the air, below the ground. Horizontally the fighter moves by both components
   of its velocity, as written.
   */
  lemma UpdateFrame(f: Fighter, input: ControllerState)
    requires f.params.dashMaxVelocity != 0.0
    ensures Update(f, input).input == CopyInputs(Controllers.Update(f.input), input)
    ensures Update(f, input).previousPosition == f.position && Update(f, input).wasFacingRight == f.isFacingRight
    ensures Update(f, input).stateFrame >= 1
    ensures Update(f, input).state != f.state ==> Update(f, input).stateFrame == 1
    ensures Update(f, input).stateFrame == 1 || (Update(f, input).state == f.state && Update(f, input).stateFrame == f.stateFrame + 1)
    ensures IsLanding(Update(f, input).state) && !IsLanding(f.state) ==>
              f.position.y < 0.0 && CanLand(Act(f, input)) && Update(f, input).stateFrame == 1
    ensures Update(f, input).airJumpsLeft == Act(f, input).airJumpsLeft
    ensures Update(f, input).velocity == Act(f, input).velocity
    ensures f.position.y >= 0.0 ==> Update(f, input).position.x == f.position.x + Update(f, input).velocity.x + Update(f, input).velocity.y
  {
    ActKeeps(f, input);
    GroundKeeps(Act(f, input));
  }

  /**
   A fighter is settled when it is not on the first frame of a landing state;
   every fighter an update produces is.
   */
  predicate Settled(f: Fighter) {
    f.stateFrame >= 1 || !IsLanding(f.state)
  }

  /**
   As written, a frame never gives air jumps back to a settled fighter:
   landing states are entered only by the ground check, and the frame count
   has moved past 0 before their update rule first runs.
   */
  lemma UpdateNeverRestoresAirJumps(f: Fighter, input: ControllerState)
    requires f.params.dashMaxVelocity != 0.0
    requires Settled(f)
    ensures Update(f, input).airJumpsLeft <= f.airJumpsLeft
    ensures Settled(Update(f, input))
  {
    var p := Prepare(f, input);
    var t := Transition(p);
    if IsLanding(t.state) {
      assert t == p;
    }
    StateUpdateAirJumps(t);
    assert t.airJumpsLeft == f.airJumpsLeft;
    UpdateFrame(f, input);
  }

  /**
   An air jump is spent only by a fighter already in the air, one at a time,
   on a frame on which the X or Y button goes down.
   */
  lemma AirJumpNeedsJumpPress(f: Fighter, input: ControllerState)
    requires f.params.dashMaxVelocity != 0.0
    requires Settled(f)
    requires Update(f, input).airJumpsLeft < f.airJumpsLeft
    ensures Update(f, input).airJumpsLeft == f.airJumpsLeft - 1
    ensures f.state == Airborne && f.stateFrame >= 1
    ensures || (IsPressed(input.xButton) && !IsPressed(f.input.xButton))
            || (IsPressed(input.yButton) && !IsPressed(f.input.yButton))
  {
    SpentInTheAir(f, input);
    JumpEdges(f, input);
  }

  lemma SpentInTheAir(f: Fighter, input: ControllerState)
    requires f.params.dashMaxVelocity != 0.0
    requires Settled(f)
    requires Update(f, input).airJumpsLeft < f.airJumpsLeft
    ensures Update(f, input).airJumpsLeft == f.airJumpsLeft - 1
    ensures f.state == Airborne && f.stateFrame >= 1 && ShouldJump(Prepare(f, input))
  {
    var p := Prepare(f, input);
    var t := Transition(p);
    UpdateFrame(f, input);
    StateUpdateAirJumps(t);
    assert t.airJumpsLeft == f.airJumpsLeft;
    assert t.state == Airborne && t.stateFrame >= 1;
    assert t == p;
  }

  /** The jump buttons go down after preparing a frame exactly when the snapshot presses one the controller had up. */
  lemma JumpEdges(f: Fighter, input: ControllerState)
    ensures ShouldJump(Prepare(f, input)) <==>
              || (IsPressed(input.xButton) && !IsPressed(f.input.xButton))
              || (IsPressed(input.yButton) && !IsPressed(f.input.yButton))
  {
    var p := Prepare(f, input);
    FrameEdgesReportChanges(f.input, input);
    assert ButtonList(p.input)[2] == p.input.xButton && ButtonList(p.input)[3] == p.input.yButton;
    assert ButtonList(input)[2] == input.xButton && ButtonList(input)[3] == input.yButton;
    assert ButtonList(f.input)[2] == f.input.xButton && ButtonList(f.input)[3] == f.input.yButton;
  }

  /** A run of frames, one per controller snapshot. */
  ghost function Play(f: Fighter, inputs: seq<ControllerState>): (r: Fighter)
    requires f.params.dashMaxVelocity != 0.0
    ensures r.params == f.params
    ensures f.position.y >= 0.0 ==> r.position.y == f.position.y
    decreases |inputs|
  {
    if |inputs| == 0 then f else Play(Update(f, inputs[0]), inputs[1..])
  }

  /**
   As written, air jumps spent are never given back, however many frames
   pass and whatever the controller does, for any settled fighter (the fox
   preset included).
   */
  lemma {:induction false} AirJumpsNeverRestored(f: Fighter, inputs: seq<ControllerState>)
    requires f.params.dashMaxVelocity != 0.0
    requires Settled(f)
    ensures Play(f, inputs).airJumpsLeft <= f.airJumpsLeft
    decreases |inputs|
  {
    if |inputs| > 0 {
      UpdateNeverRestoresAirJumps(f, inputs[0]);
      AirJumpsNeverRestored(Update(f, inputs[0]), inputs[1..]);
    }
  }

  /**
   The input that shows it: a fox with no air jump left, in the air below the
   ground, lands on the next frame and is then already on frame 1 of its
   landing state, so the restore on frame 0 is skipped.
   */
  lemma LandingSkipsRestore(deadZone: real, input: ControllerState)
    ensures var f := Fox(deadZone).(state := Airborne, stateFrame := 5, position := Point(0.0, -1.0), airJumpsLeft := 0);
            && IsLanding(Update(f, input).state)
            && Update(f, input).stateFrame == 1
            && Update(f, input).airJumpsLeft == 0
            && Fox(deadZone).params.airJumps == 1
  {
    var f := Fox(deadZone).(state := Airborne, stateFrame := 5, position := Point(0.0, -1.0), airJumpsLeft := 0);
    var t := Transition(Prepare(f, input));
    assert t.state == Airborne || t.state == AirDodge;
    ActKeeps(f, input);
    assert CanLand(Act(f, input));
    GroundKeeps(Act(f, input));
    UpdateFrame(f, input);
    UpdateNeverRestoresAirJumps(f, input);
  }

  /**
   The corrected frame: a fighter that lands stays on frame 0 of its landing
   state, so that state's first update (which stops the fall and restores the
   air jumps) runs on the next frame.
   */
  ghost function CorrectedUpdate(f: Fighter, input: ControllerState): (r: Fighter)
    requires f.params.dashMaxVelocity != 0.0
    ensures r.params == f.params && r.position.y == Max(f.position.y, 0.0)
    ensures IsLanding(r.state) && !IsLanding(f.state) ==> r.stateFrame == 0 && f.position.y < 0.0
    ensures !(IsLanding(r.state) && !IsLanding(f.state)) ==> r == Update(f, input)
  {
    var u := Update(f, input);
    UpdateFrame(f, input);
    if IsLanding(u.state) && !IsLanding(f.state) then u.(stateFrame := 0) else u
  }

  /**
   With the correction, the frame after a landing stops the fall and gives
   back every air jump.
   */
  lemma CorrectedLandingRestoresAirJumps(f: Fighter, landing: ControllerState, next: ControllerState)
    requires f.params.dashMaxVelocity != 0.0
    requires IsLanding(CorrectedUpdate(f, landing).state) && !IsLanding(f.state)
    ensures CorrectedUpdate(CorrectedUpdate(f, landing), next).airJumpsLeft == f.params.airJumps
    ensures CorrectedUpdate(CorrectedUpdate(f, landing), next).velocity.y == 0.0
  {
    var g := CorrectedUpdate(f, landing);
    assert g.stateFrame == 0 && g.params == f.params;
    assert CorrectedUpdate(g, next) == Update(g, next);
    FirstLandingFrame(g, next);
    UpdateFrame(g, next);
  }

  /** The update of a landing state's frame 0 stops the fall and restores the air jumps. */
  lemma FirstLandingFrame(g: Fighter, next: ControllerState)
    requires g.params.dashMaxVelocity != 0.0
    requires IsLanding(g.state) && g.stateFrame == 0
    ensures Act(g, next).airJumpsLeft == g.params.airJumps && Act(g, next).velocity.y == 0.0
  {
    var t := Transition(Prepare(g, next));
    assert t == Prepare(g, next);
    StateUpdateAirJumps(t);
  }

  /** A run of corrected frames. */
  ghost function CorrectedPlay(f: Fighter, inputs: seq<ControllerState>): (r: Fighter)
    requires f.params.dashMaxVelocity != 0.0
    ensures r.params == f.params
    ensures f.position.y >= 0.0 ==> r.position.y == f.position.y
    decreases |inputs|
  {
    if |inputs| == 0 then f else CorrectedPlay(CorrectedUpdate(f, inputs[0]), inputs[1..])
  }
}
