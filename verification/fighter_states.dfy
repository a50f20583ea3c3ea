/**
 The twelve fighter states. Each state has a transition rule, which decides
 from the input whether to enter another state, and an update rule, which
 changes the velocity (and the bookkeeping of that state) and then moves the
 fighter.
 */
module FighterStates {
  import opened RealMath
  import opened Points
  import opened Vectors
  import opened Buttons
  import opened AnalogAxes
  import opened Controllers
  import opened Wrappers
  import opened Fighters

  // ============ Transitions ============

  function IdleTarget(f: Fighter): (r: Option<FighterState>)
    ensures r.None? <==> !ShouldJump(f) && !IsActive(XAxis(f))
    ensures r == Some(Dash) || r == Some(Walk) ==> XAxisIsForward(f)
    ensures r.Some? ==> r.value in {JumpSquat, Dash, Walk, Turn}
  {
    if ShouldJump(f) then Some(JumpSquat)
    else if XAxisIsForward(f) && XAxisSmashed(f) then Some(Dash)
    else if XAxisIsForward(f) && !XAxisSmashed(f) then Some(Walk)
    else if XAxisIsBackward(f) then Some(Turn)
    else None
  }

  function TurnTarget(f: Fighter): (r: Option<FighterState>)
    ensures r.None? <==> !ShouldJump(f) && !(XAxisIsBackward(f) && XAxisSmashed(f)) && f.stateFrame < f.params.turnFrames
    ensures r == Some(Walk) ==> XAxisIsForward(f)
    ensures r == Some(Walk) || r == Some(Idle) ==> f.stateFrame >= f.params.turnFrames
    ensures r.Some? ==> r.value in {JumpSquat, Dash, Walk, Idle}
  {
    if ShouldJump(f) then Some(JumpSquat)
    else if XAxisIsBackward(f) && XAxisSmashed(f) then Some(Dash)
    else if XAxisIsForward(f) && f.stateFrame >= f.params.turnFrames then Some(Walk)
    else if f.stateFrame >= f.params.turnFrames then Some(Idle)
    else None
  }

  function WalkTarget(f: Fighter): (r: Option<FighterState>)
    ensures r.None? <==> !ShouldJump(f) && XAxisIsForward(f) && !XAxisSmashed(f)
    ensures r == Some(Dash) ==> XAxisIsForward(f)
    ensures r.Some? ==> r.value in {JumpSquat, Dash, Idle}
  {
    if ShouldJump(f) then Some(JumpSquat)
    else if XAxisIsForward(f) && XAxisSmashed(f) then Some(Dash)
    else if !XAxisIsForward(f) then Some(Idle)
    else None
  }

  function DashTarget(f: Fighter): (r: Option<FighterState>)
    ensures r.None? <==> && !ShouldJump(f) && !XAxisIsBackward(f)
                         && (XAxisIsForward(f) ==> f.stateFrame < f.params.dashMinFrames && f.stateFrame < f.params.dashMaxFrames)
                         && (!IsActive(XAxis(f)) ==> f.stateFrame < f.params.dashMaxFrames)
    ensures r == Some(Run) ==> XAxisIsForward(f) && f.params.dashMinFrames <= f.stateFrame < f.params.dashMaxFrames
    ensures r.Some? ==> r.value in {JumpSquat, Dash, Run, Idle, Turn}
  {
    ForwardOrBackward(f);
    if ShouldJump(f) then Some(JumpSquat)
    else if XAxisIsForward(f) && f.stateFrame >= f.params.dashMaxFrames then Some(Dash)
    else if XAxisIsForward(f) && f.stateFrame >= f.params.dashMinFrames && f.stateFrame < f.params.dashMaxFrames then Some(Run)
    else if !IsActive(XAxis(f)) && f.stateFrame >= f.params.dashMaxFrames then Some(Idle)
    else if XAxisIsBackward(f) then Some(Turn)
    else None
  }

  function RunTarget(f: Fighter): (r: Option<FighterState>)
    ensures r.None? <==> !ShouldJump(f) && XAxisIsForward(f)
    ensures r.Some? ==> r.value in {JumpSquat, RunBrake, RunTurn}
  {
    ForwardOrBackward(f);
    if ShouldJump(f) then Some(JumpSquat)
    else if !IsActive(XAxis(f)) then Some(RunBrake)
    else if XAxisIsBackward(f) then Some(RunTurn)
    else None
  }

  function RunBrakeTarget(f: Fighter): (r: Option<FighterState>)
    ensures r.None? <==> && !ShouldJump(f) && !XAxisIsBackward(f)
                         && (!IsActive(XAxis(f)) ==> f.stateFrame < f.params.runBrakeFrames)
    ensures r == Some(Turn) || r == Some(RunTurn) ==> XAxisIsBackward(f)
    ensures r.Some? ==> r.value in {JumpSquat, Turn, RunTurn, Idle}
  {
    if ShouldJump(f) then Some(JumpSquat)
    else if XAxisIsBackward(f) && f.stateFrame >= f.params.runBrakeFrames then Some(Turn)
    else if XAxisIsBackward(f) && f.stateFrame < f.params.runBrakeFrames then Some(RunTurn)
    else if !IsActive(XAxis(f)) && f.stateFrame >= f.params.runBrakeFrames then Some(Idle)
    else None
  }

  /** A run turn lasts until its own frame counter reaches 20, unless the fighter jumps. */
  function RunTurnTarget(f: Fighter): (r: Option<FighterState>)
    ensures r.None? <==> !ShouldJump(f) && f.runTurnMeleeFrame < 20
    ensures r == Some(Run) ==> XAxisIsForward(f)
    ensures r.Some? ==> r.value in {JumpSquat, Run, Turn, Idle}
  {
    ForwardOrBackward(f);
    if ShouldJump(f) then Some(JumpSquat)
    else if XAxisIsForward(f) && f.runTurnMeleeFrame >= 20 then Some(Run)
    else if XAxisIsBackward(f) && f.runTurnMeleeFrame >= 20 then Some(Turn)
    else if !IsActive(XAxis(f)) && f.runTurnMeleeFrame >= 20 then Some(Idle)
    else None
  }

  /** The squat lasts its frames; a shield button held at take-off turns the jump into an air dodge. */
  function JumpSquatTarget(f: Fighter): (r: Option<FighterState>)
    ensures r.None? <==> f.stateFrame < f.params.jumpSquatFrames
    ensures r == Some(AirDodge) <==> f.stateFrame >= f.params.jumpSquatFrames
                                     && (IsPressed(f.input.lButton) || IsPressed(f.input.rButton))
    ensures r.Some? ==> r.value in {AirDodge, Airborne}
  {
    if (IsPressed(f.input.lButton) || IsPressed(f.input.rButton)) && f.stateFrame >= f.params.jumpSquatFrames then
      Some(AirDodge)
    else if f.stateFrame >= f.params.jumpSquatFrames then
      Some(Airborne)
    else
      None
  }

  function AirborneTarget(f: Fighter): (r: Option<FighterState>)
    ensures r.Some? <==> JustPressed(f.input.lButton) || JustPressed(f.input.rButton)
    ensures r.Some? ==> r.value == AirDodge
  {
    if JustPressed(f.input.lButton) || JustPressed(f.input.rButton) then Some(AirDodge) else None
  }

  function LandTarget(f: Fighter): (r: Option<FighterState>)
    ensures r.None? <==> f.stateFrame < 2
    ensures r.Some? ==> r.value == Idle
  {
    if f.stateFrame >= 2 then Some(Idle) else None
  }

  /** The special landing lag always ends at frame 9, in whichever state the input asks for. */
  function LandSpecialTarget(f: Fighter): (r: Option<FighterState>)
    ensures r.None? <==> f.stateFrame < 9
    ensures r == Some(Dash) || r == Some(Walk) ==> XAxisIsForward(f)
    ensures r.Some? ==> r.value in {JumpSquat, Dash, Walk, Turn, Idle}
  {
    ForwardOrBackward(f);
    if ShouldJump(f) && f.stateFrame >= 9 then Some(JumpSquat)
    else if XAxisIsForward(f) && XAxisSmashed(f) && f.stateFrame >= 9 then Some(Dash)
    else if XAxisIsForward(f) && !XAxisSmashed(f) && f.stateFrame >= 9 then Some(Walk)
    else if XAxisIsBackward(f) && f.stateFrame >= 9 then Some(Turn)
    else if !IsActive(XAxis(f)) && f.stateFrame >= 9 then Some(Idle)
    else None
  }

  /**
   The state the current state's transition rule asks for, if any. Only a
   forward stick leads into Run, only landing leaves the air dodge, and no
   transition leads into a landing state.
   */
  function TransitionTarget(f: Fighter): (r: Option<FighterState>)
    ensures r == Some(Run) ==> XAxisIsForward(f)
    ensures f.state == Run && r.None? ==> XAxisIsForward(f)
    ensures r.Some? ==> !IsLanding(r.value)
    ensures f.state == Airborne ==> r.None? || r == Some(AirDodge)
    ensures f.state == AirDodge ==> r.None?
  {
    match f.state
    case Idle => IdleTarget(f)
    case Turn => TurnTarget(f)
    case Walk => WalkTarget(f)
    case Dash => DashTarget(f)
    case Run => RunTarget(f)
    case RunBrake => RunBrakeTarget(f)
    case RunTurn => RunTurnTarget(f)
    case JumpSquat => JumpSquatTarget(f)
    case Airborne => AirborneTarget(f)
    case AirDodge => None
    case Land => LandTarget(f)
    case LandSpecial => LandSpecialTarget(f)
  }

  /**
   Runs the current state's transition rule. After it, a fighter in Run has a
   forward stick, and a fighter in a landing state was already there.
   */
  function Transition(f: Fighter): (r: Fighter)
    ensures r.(state := f.state, previousState := f.previousState, stateFrame := f.stateFrame) == f
    ensures TransitionTarget(f).Some? ==> r.state == TransitionTarget(f).value && r.stateFrame == 0 && r.previousState == f.state
    ensures TransitionTarget(f).None? ==> r == f
    ensures r.state == Run ==> XAxisIsForward(r) && XAxis(r).value != 0.0
    ensures IsLanding(r.state) ==> r == f
  {
    match TransitionTarget(f)
    case Some(next) => ChangeState(f, next)
    case None => f
  }

  // ============ Updates ============

  /**
   What every update rule keeps: the controller, the constants, the state
   bookkeeping, the last frame's position and facing, and the height; the
   fighter has moved horizontally by both components of its new velocity.
   */
  predicate StepShape(f: Fighter, r: Fighter) {
    && r.input == f.input && r.params == f.params
    && r.state == f.state && r.previousState == f.previousState && r.stateFrame == f.stateFrame
    && r.previousPosition == f.previousPosition && r.wasFacingRight == f.wasFacingRight
    && r.position.y == f.position.y
    && r.position.x == f.position.x + r.velocity.x + r.velocity.y
  }

  /** Friction on the ground: the speed does not grow and the direction does not flip. */
  predicate Braked(f: Fighter, r: Fighter) {
    && Abs(r.velocity.x) <= Abs(f.velocity.x)
    && (f.velocity.x >= 0.0 ==> r.velocity.x >= 0.0) && (f.velocity.x <= 0.0 ==> r.velocity.x <= 0.0)
    && r.velocity.y == f.velocity.y
  }

  /** Ground friction applied, then the move; the shared body of the simplest ground states. */
  function Slide(f: Fighter, friction: real): (r: Fighter)
    ensures StepShape(f, r)
    ensures r.airJumpsLeft == f.airJumpsLeft && r.isFacingRight == f.isFacingRight
    ensures r.(position := f.position, velocity := f.velocity) == f
    ensures friction >= 0.0 ==> Braked(f, r)
  {
    MoveWithVelocity(MovementFriction(f, friction))
  }

  function IdleUpdate(f: Fighter): (r: Fighter)
    ensures StepShape(f, r) && r.airJumpsLeft == f.airJumpsLeft && r.isFacingRight == f.isFacingRight
    ensures f.params.groundFriction >= 0.0 ==> Braked(f, r)
  {
    Slide(f, f.params.groundFriction)
  }

  /**
   What a velocity stage keeps: everything but the velocity, the facing and
   the per-state flags and counters.
   */
  predicate Kept(f: Fighter, g: Fighter) {
    && g.input == f.input && g.params == f.params && g.position == f.position
    && g.state == f.state && g.previousState == f.previousState && g.stateFrame == f.stateFrame
    && g.previousPosition == f.previousPosition && g.wasFacingRight == f.wasFacingRight
  }

  /** Ends an update rule: the move by the velocity the stages produced. */
  function Finish(f: Fighter, g: Fighter): (r: Fighter)
    requires Kept(f, g)
    ensures StepShape(f, r)
    ensures r.(position := g.position) == g
  {
    MoveWithVelocity(g)
  }

  /** Leaving a dash takes 1.73 off the speed, keeping its direction while it lasts. */
  function DashExitSpeed(v: real): (r: real)
    ensures Abs(v) >= 1.73 ==> Abs(r) == Abs(v) - 1.73 && (v > 0.0 ==> r >= 0.0) && (v < 0.0 ==> r <= 0.0)
  {
    v - Signum(v) * 1.73
  }

  function TurnVelocity(f: Fighter): (r: Fighter)
    ensures r == f.(velocity := r.velocity) && r.velocity.y == f.velocity.y
    ensures f.stateFrame == 0 && f.previousState == Dash && Abs(f.velocity.x) >= 1.73
            ==> Abs(r.velocity.x) == Abs(f.velocity.x) - 1.73
    ensures f.stateFrame == 1 ==> r.velocity == f.velocity
    ensures f.stateFrame > 1 && f.params.groundFriction >= 0.0 ==> Abs(r.velocity.x) <= Abs(f.velocity.x)
  {
    if f.stateFrame == 0 && f.previousState == Dash then
      f.(velocity := f.velocity.(x := DashExitSpeed(f.velocity.x)))
    else if f.stateFrame > 1 then
      MovementFriction(f, 2.0 * f.params.groundFriction)
    else f
  }

  /** At the slow dash-back frame a backward stick turns the fighter to face it. */
  function TurnFacing(f: Fighter): (r: Fighter)
    ensures r == f.(isFacingRight := r.isFacingRight)
    ensures r.isFacingRight != f.isFacingRight ==> XAxisIsBackward(f) && f.stateFrame == f.params.slowDashBackFrames
    ensures XAxisIsBackward(f) && f.stateFrame == f.params.slowDashBackFrames && XAxis(f).value != 0.0
            ==> XAxisIsForward(r)
  {
    if XAxisIsBackward(f) && f.stateFrame == f.params.slowDashBackFrames then
      f.(isFacingRight := XAxis(f).value >= 0.0)
    else f
  }

  /**
   Turning round. Leaving a dash costs 1.73 of speed at once; from frame 2 on
   double ground friction applies; at the slow dash-back frame a backward stick
   turns the fighter to face it.
   */
  function TurnUpdate(f: Fighter): (r: Fighter)
    ensures StepShape(f, r) && r.airJumpsLeft == f.airJumpsLeft && r.velocity.y == f.velocity.y
    ensures r.isFacingRight != f.isFacingRight ==> XAxisIsBackward(f) && f.stateFrame == f.params.slowDashBackFrames
    ensures XAxisIsBackward(f) && f.stateFrame == f.params.slowDashBackFrames && XAxis(f).value != 0.0
            ==> XAxisIsForward(r)
    ensures f.stateFrame == 0 && f.previousState == Dash && Abs(f.velocity.x) >= 1.73
            ==> Abs(r.velocity.x) == Abs(f.velocity.x) - 1.73
    ensures f.stateFrame == 1 ==> r.velocity == f.velocity
    ensures f.stateFrame > 1 && f.params.groundFriction >= 0.0 ==> Abs(r.velocity.x) <= Abs(f.velocity.x)
  {
    var slowed := TurnVelocity(f);
    var turned := TurnFacing(slowed);
    Finish(f, turned)
  }

  /**
   One frame of walking acceleration: a quarter of the gap to the target,
   scaled by the stick, and never past the target.
   */
  function WalkTowards(v: real, target: real, stick: real): (r: real)
    ensures Abs(v) <= Abs(target) ==>
              && (v <= target ==> v <= r <= target)
              && (target <= v ==> target <= r <= v)
  {
    var stepped := v + WalkStep(v, target, stick);
    if (target < 0.0 && stepped < target) || (target > 0.0 && stepped > target) then target else stepped
  }

  /** The walking acceleration; it points from the current speed towards the target. */
  function WalkStep(v: real, target: real, stick: real): (a: real)
    ensures v <= target ==> a >= 0.0
    ensures target <= v ==> a <= 0.0
  {
    NonNegativeScale(target - v, 0.25 * Abs(stick));
    (target - v) * 0.25 * Abs(stick)
  }

  /** Scaling by a non-negative factor keeps the sign. */
  lemma NonNegativeScale(x: real, k: real)
    requires k >= 0.0
    ensures x >= 0.0 ==> x * k >= 0.0
    ensures x <= 0.0 ==> x * k <= 0.0
  {
    if x < 0.0 {
      assert (-x) * k >= 0.0;
    }
  }

  /** The walking speed the stick asks for. */
  function WalkSpeedTarget(f: Fighter): real {
    WalkScale(f.params.walkMaxVelocity, XAxis(f).value)
  }

  function WalkScale(maxVelocity: real, stick: real): real {
    maxVelocity * stick
  }

  /** On the first walking frame an active stick pushes in the facing direction. */
  function WalkPush(f: Fighter): (r: Fighter)
    ensures r == f.(velocity := r.velocity) && r.velocity.y == f.velocity.y
    ensures f.stateFrame != 0 ==> r == f
  {
    if f.stateFrame == 0 && IsActive(XAxis(f)) then
      f.(velocity := f.velocity.(x := f.velocity.x + FacingDirection(f) * (0.1 + 0.2 * XAxis(f).value)))
    else f
  }

  /**
   Faster than the target, double friction; otherwise, from frame 1 on with an
   active stick, a step towards the target that does not pass it.
   */
  function WalkVelocity(f: Fighter, target: real): (r: Fighter)
    ensures r == f.(velocity := r.velocity) && r.velocity.y == f.velocity.y
    ensures f.stateFrame >= 1 && IsActive(XAxis(f)) && Abs(f.velocity.x) <= Abs(target)
            ==> && (f.velocity.x <= target ==> f.velocity.x <= r.velocity.x <= target)
                && (target <= f.velocity.x ==> target <= r.velocity.x <= f.velocity.x)
    ensures Abs(f.velocity.x) > Abs(target) && f.params.groundFriction >= 0.0
            ==> Abs(r.velocity.x) <= Abs(f.velocity.x)
  {
    if Abs(f.velocity.x) > Abs(target) then
      MovementFriction(f, 2.0 * f.params.groundFriction)
    else if IsActive(XAxis(f)) && f.stateFrame >= 1 then
      f.(velocity := f.velocity.(x := WalkTowards(f.velocity.x, target, XAxis(f).value)))
    else f
  }

  /**
   Walking. On the first frame an active stick gives a push in the facing
   direction; faster than the stick's target speed, double friction applies;
   otherwise from frame 1 on the speed moves towards the target without passing it.
   */
  function WalkUpdate(f: Fighter): (r: Fighter)
    ensures StepShape(f, r) && r.airJumpsLeft == f.airJumpsLeft && r.isFacingRight == f.isFacingRight
    ensures r.velocity.y == f.velocity.y
    ensures f.stateFrame >= 1 && IsActive(XAxis(f)) && Abs(f.velocity.x) <= Abs(WalkSpeedTarget(f))
            ==> && (f.velocity.x <= WalkSpeedTarget(f) ==> f.velocity.x <= r.velocity.x <= WalkSpeedTarget(f))
                && (WalkSpeedTarget(f) <= f.velocity.x ==> WalkSpeedTarget(f) <= r.velocity.x <= f.velocity.x)
    ensures f.stateFrame >= 1 && Abs(f.velocity.x) > Abs(WalkSpeedTarget(f)) && f.params.groundFriction >= 0.0
            ==> Abs(r.velocity.x) <= Abs(f.velocity.x)
  {
    var pushed := WalkPush(f);
    Finish(f, WalkVelocity(pushed, WalkSpeedTarget(f)))
  }

  /**
   The dash's initial burst on its second frame: an optional reset to a
   standstill (after a dash re-entered itself), then the start speed in the
   facing direction, capped at the dash speed.
   */
  function DashStart(f: Fighter): (r: Fighter)
    ensures r == f.(velocity := r.velocity, dashShouldResetVelocity := false)
    ensures r.velocity.y == f.velocity.y
    ensures f.params.dashMaxVelocity >= 0.0 ==> Abs(r.velocity.x) <= f.params.dashMaxVelocity
    ensures f.dashShouldResetVelocity && 0.0 <= f.params.dashStartVelocity <= f.params.dashMaxVelocity
            ==> r.velocity.x == f.params.dashStartVelocity * FacingDirection(f)
  {
    var start := if f.dashShouldResetVelocity then 0.0 else f.velocity.x;
    var boosted := start + f.params.dashStartVelocity * FacingDirection(f);
    f.(velocity := f.velocity.(x := if Abs(boosted) > f.params.dashMaxVelocity
                                     then f.params.dashMaxVelocity * FacingDirection(f)
                                     else boosted),
       dashShouldResetVelocity := false)
  }

  /** Entering a dash: out of a turn the fighter faces the other way; out of a dash the next burst starts from rest. */
  function DashEntry(f: Fighter): (r: Fighter)
    ensures r == f.(isFacingRight := r.isFacingRight, dashShouldResetVelocity := r.dashShouldResetVelocity)
    ensures r.isFacingRight != f.isFacingRight <==> f.stateFrame == 0 && f.previousState == Turn
    ensures f.stateFrame != 0 ==> r == f
  {
    if f.stateFrame == 0 && f.previousState == Turn then f.(isFacingRight := !f.isFacingRight)
    else if f.stateFrame == 0 && f.previousState == Dash then f.(dashShouldResetVelocity := true)
    else f
  }

  /** Dash control: friction with the stick released, acceleration towards the dash speed otherwise. */
  function DashControl(f: Fighter): (r: Fighter)
    ensures r == f.(velocity := r.velocity) && r.velocity.y == f.velocity.y
    ensures ValidParams(f.params) && Abs(f.velocity.x) <= f.params.dashMaxVelocity
            ==> Abs(r.velocity.x) <= f.params.dashMaxVelocity
  {
    if !IsActive(XAxis(f)) then MovementFriction(f, f.params.groundFriction)
    else MovementAcceleration(f, f.params.dashBaseAcceleration, f.params.dashAxisAcceleration,
                              f.params.dashMaxVelocity, f.params.groundFriction)
  }

  /** From the dash's second frame on: the burst on that frame, then dash control. */
  function DashMotion(f: Fighter): (r: Fighter)
    ensures r == f.(velocity := r.velocity, dashShouldResetVelocity := r.dashShouldResetVelocity)
    ensures r.velocity.y == f.velocity.y
    ensures f.stateFrame == 0 ==> r == f
    ensures ValidParams(f.params) && f.stateFrame >= 1 && (f.stateFrame == 1 || Abs(f.velocity.x) <= f.params.dashMaxVelocity)
            ==> Abs(r.velocity.x) <= f.params.dashMaxVelocity
  {
    if f.stateFrame == 0 then f
    else DashControl(if f.stateFrame == 1 then DashStart(f) else f)
  }

  /**
   Dashing. Entered from a turn, the fighter faces the other way; re-entered
   from a dash, the speed is reset before the burst. From the burst on, the
   speed stays within the dash speed: friction with the stick released,
   acceleration towards the limit otherwise.
   */
  function DashUpdate(f: Fighter): (r: Fighter)
    ensures StepShape(f, r) && r.airJumpsLeft == f.airJumpsLeft && r.velocity.y == f.velocity.y
    ensures r.isFacingRight != f.isFacingRight <==> f.stateFrame == 0 && f.previousState == Turn
    ensures f.stateFrame == 0 ==> r.velocity == f.velocity
    ensures ValidParams(f.params) && f.stateFrame >= 1 && (f.stateFrame == 1 || Abs(f.velocity.x) <= f.params.dashMaxVelocity)
            ==> Abs(r.velocity.x) <= f.params.dashMaxVelocity
  {
    Finish(f, DashMotion(DashEntry(f)))
  }

  /**
   Running accelerates towards the dash speed times the stick. The factor
   divides by the stick's magnitude and by the dash speed, so both are
   required to be nonzero.
   */
  function RunAcceleration(v: real, stick: real, p: Params): (a: real)
    requires stick != 0.0 && p.dashMaxVelocity != 0.0
    ensures ValidParams(p) && v <= p.dashMaxVelocity * stick ==> a >= 0.0
    ensures ValidParams(p) && p.dashMaxVelocity * stick <= v ==> a <= 0.0
  {
    var gap := (p.dashMaxVelocity * stick) - v;
    var rate := (1.0 / (2.5 * p.dashMaxVelocity)) * (p.dashAxisAcceleration + (p.dashBaseAcceleration / Abs(stick)));
    if ValidParams(p) then
      RunRateIsNonNegative(stick, p);
      NonNegativeScale(gap, rate);
      gap * rate
    else gap * rate
  }

  lemma RunRateIsNonNegative(stick: real, p: Params)
    requires stick != 0.0 && ValidParams(p)
    ensures (1.0 / (2.5 * p.dashMaxVelocity)) * (p.dashAxisAcceleration + (p.dashBaseAcceleration / Abs(stick))) >= 0.0
  {
    assert 1.0 / (2.5 * p.dashMaxVelocity) > 0.0;
    assert p.dashBaseAcceleration / Abs(stick) >= 0.0;
    NonNegativeScale(p.dashAxisAcceleration + (p.dashBaseAcceleration / Abs(stick)), 1.0 / (2.5 * p.dashMaxVelocity));
  }

  function RunUpdate(f: Fighter): (r: Fighter)
    requires XAxis(f).value != 0.0 && f.params.dashMaxVelocity != 0.0
    ensures StepShape(f, r) && r.airJumpsLeft == f.airJumpsLeft && r.isFacingRight == f.isFacingRight
    ensures r.velocity.y == f.velocity.y
    ensures ValidParams(f.params) && f.velocity.x <= f.params.dashMaxVelocity * XAxis(f).value ==> r.velocity.x >= f.velocity.x
    ensures ValidParams(f.params) && f.params.dashMaxVelocity * XAxis(f).value <= f.velocity.x ==> r.velocity.x <= f.velocity.x
  {
    MoveWithVelocity(f.(velocity := f.velocity.(x := f.velocity.x + RunAcceleration(f.velocity.x, XAxis(f).value, f.params))))
  }

  function RunBrakeUpdate(f: Fighter): (r: Fighter)
    ensures StepShape(f, r) && r.airJumpsLeft == f.airJumpsLeft && r.isFacingRight == f.isFacingRight
    ensures f.params.groundFriction >= 0.0 ==> Braked(f, r)
  {
    Slide(f, f.params.groundFriction)
  }

  /**
   The run-turn bookkeeping is consistent: the fighter has changed direction
   exactly when it has fully turned, which is exactly when it faces away from
   the direction it faced when the turn began.
   */
  predicate RunTurnConsistent(f: Fighter) {
    && f.runTurnHasChangedDirection == f.runTurnHasFullyTurned
    && (f.runTurnHasChangedDirection <==> f.isFacingRight != f.runTurnWasFacingRightInitially)
  }

  /** The fields a run turn updates: its flags, its counter and the facing. */
  predicate RunTurnKept(f: Fighter, r: Fighter) {
    r == f.(isFacingRight := r.isFacingRight, runTurnMeleeFrame := r.runTurnMeleeFrame,
            runTurnWasFacingRightInitially := r.runTurnWasFacingRightInitially,
            runTurnHasChangedDirection := r.runTurnHasChangedDirection,
            runTurnHasFullyTurned := r.runTurnHasFullyTurned)
  }

  /**
   The run turn's bookkeeping for one frame: started afresh on the first frame;
   fully turned once the speed no longer points the way the fighter first
   faced; the facing flips on that frame, once.
   */
  function RunTurnFlags(f: Fighter): (r: Fighter)
    ensures RunTurnKept(f, r)
    ensures f.stateFrame == 0 || RunTurnConsistent(f) ==> RunTurnConsistent(r)
    ensures r.runTurnMeleeFrame == (if f.stateFrame == 0 then 0 else f.runTurnMeleeFrame)
    ensures f.stateFrame > 0 && f.runTurnHasFullyTurned ==> r.runTurnHasFullyTurned
  {
    var started :=
      if f.stateFrame == 0 then
        f.(runTurnMeleeFrame := 0, runTurnWasFacingRightInitially := f.isFacingRight,
           runTurnHasChangedDirection := false, runTurnHasFullyTurned := false)
      else f;
    var checked :=
      if (started.runTurnWasFacingRightInitially && started.velocity.x <= 0.0)
         || (!started.runTurnWasFacingRightInitially && started.velocity.x >= 0.0) then
        started.(runTurnHasFullyTurned := true)
      else started;
    if !checked.runTurnHasChangedDirection && checked.runTurnHasFullyTurned then
      checked.(isFacingRight := !checked.isFacingRight, runTurnHasChangedDirection := true)
    else checked
  }

  /**
   Run-turn control: friction while the stick is released or still points the
   old way, acceleration once it points the new way.
   */
  function RunTurnControl(f: Fighter): (r: Fighter)
    ensures r == f.(velocity := r.velocity) && r.velocity.y == f.velocity.y
  {
    if !IsActive(XAxis(f))
       || (!f.runTurnHasFullyTurned && XAxisIsForward(f))
       || (f.runTurnHasFullyTurned && XAxisIsBackward(f)) then
      MovementFriction(f, f.params.groundFriction)
    else
      MovementAcceleration(f, f.params.dashBaseAcceleration, f.params.dashAxisAcceleration,
                           f.params.dashMaxVelocity, f.params.groundFriction)
  }

  /** The run turn's own counter: it waits at 9 until the fighter has fully turned. */
  function RunTurnCount(f: Fighter): (r: Fighter)
    ensures r == f.(runTurnMeleeFrame := r.runTurnMeleeFrame)
    ensures f.runTurnHasFullyTurned ==> r.runTurnMeleeFrame == f.runTurnMeleeFrame + 1
    ensures r.runTurnMeleeFrame <= f.runTurnMeleeFrame + 1
    ensures !f.runTurnHasFullyTurned && f.runTurnMeleeFrame <= 9 ==> r.runTurnMeleeFrame <= 9
  {
    if f.runTurnHasFullyTurned || (f.runTurnMeleeFrame < 9 && !f.runTurnHasFullyTurned) then
      f.(runTurnMeleeFrame := f.runTurnMeleeFrame + 1)
    else f
  }

  /**
   Turning round out of a run. The fighter counts as fully turned once its
   speed no longer points the way it initially faced, and turns round on that
   frame, once. The turn's own counter waits at 9 until then.
   */
  function RunTurnUpdate(f: Fighter): (r: Fighter)
    ensures StepShape(f, r) && r.airJumpsLeft == f.airJumpsLeft && r.velocity.y == f.velocity.y
    ensures f.stateFrame == 0 || RunTurnConsistent(f) ==> RunTurnConsistent(r)
    ensures r.runTurnMeleeFrame <= (if f.stateFrame == 0 then 0 else f.runTurnMeleeFrame) + 1
    ensures (f.stateFrame == 0 || f.runTurnMeleeFrame <= 9) && !r.runTurnHasFullyTurned ==> r.runTurnMeleeFrame <= 9
    ensures f.stateFrame > 0 && f.runTurnHasFullyTurned ==> r.runTurnHasFullyTurned && r.runTurnMeleeFrame == f.runTurnMeleeFrame + 1
  {
    var flagged := RunTurnFlags(f);
    var moving := RunTurnControl(flagged);
    Finish(f, RunTurnCount(moving))
  }

  function JumpSquatUpdate(f: Fighter): (r: Fighter)
    ensures StepShape(f, r) && r.airJumpsLeft == f.airJumpsLeft && r.isFacingRight == f.isFacingRight
    ensures f.params.groundFriction >= 0.0 ==> Braked(f, r)
  {
    Slide(f, 2.0 * f.params.groundFriction)
  }

  /**
   Leaving the ground: the run-up speed is damped and the stick adds to it,
   capped at the jump's horizontal limit; a held jump button gives a full hop,
   a released one a short hop.
   */
  function Takeoff(f: Fighter): (r: Fighter)
    ensures r.(velocity := f.velocity) == f
    ensures f.params.jumpMaxHorizontalVelocity >= 0.0 ==> Abs(r.velocity.x) <= f.params.jumpMaxHorizontalVelocity
    ensures r.velocity.y == (if JumpIsActive(f) then f.params.fullHopVelocity else f.params.shortHopVelocity)
  {
    var p := f.params;
    var carried := (f.velocity.x * p.jumpVelocityDampening) + (XAxis(f).value * p.jumpStartHorizontalVelocity);
    var capped := if Abs(carried) > p.jumpMaxHorizontalVelocity then Signum(carried) * p.jumpMaxHorizontalVelocity else carried;
    f.(velocity := Vector(capped, if JumpIsActive(f) then p.fullHopVelocity else p.shortHopVelocity))
  }

  /** A jump pressed in the air spends one air jump, if any is left, and launches upwards. */
  function AirJump(f: Fighter): (r: Fighter)
    ensures r.(velocity := f.velocity, airJumpsLeft := f.airJumpsLeft) == f
    ensures ShouldJump(f) && f.airJumpsLeft > 0 ==>
              && r.airJumpsLeft == f.airJumpsLeft - 1
              && r.velocity.y == f.params.fullHopVelocity * f.params.airJumpVelocityMultiplier
    ensures !(ShouldJump(f) && f.airJumpsLeft > 0) ==> r == f
  {
    if ShouldJump(f) && f.airJumpsLeft > 0 then
      f.(velocity := Vector(XAxis(f).value * f.params.airJumpHorizontalAxisMultiplier,
                            f.params.fullHopVelocity * f.params.airJumpVelocityMultiplier),
         airJumpsLeft := f.airJumpsLeft - 1)
    else f
  }

  /** The air rules from the second frame on: air control, fast fall, gravity. */
  function AirPhysics(f: Fighter): (r: Fighter)
    ensures r.(velocity := f.velocity) == f
    ensures f.params.fallVelocity >= 0.0 && f.params.fastFallVelocity >= 0.0 && f.velocity.y >= -TerminalVelocity(f.params)
            ==> r.velocity.y >= -TerminalVelocity(f.params)
  {
    if f.params.fallVelocity >= 0.0 && f.params.fastFallVelocity >= 0.0 && f.velocity.y >= -TerminalVelocity(f.params) then
      AirPhysicsKeepsTerminalVelocity(f);
      Gravity(FastFall(HorizontalAirMovement(f)))
    else Gravity(FastFall(HorizontalAirMovement(f)))
  }

  /**
   In the air. The first frame after the squat is the take-off; from then on an
   air jump may be spent, and the air rules apply. An air jump is spent only on
   a frame the jump button goes down with one left.
   */
  function AirborneUpdate(f: Fighter): (r: Fighter)
    ensures StepShape(f, r) && r.isFacingRight == f.isFacingRight
    ensures r.airJumpsLeft == (if f.stateFrame >= 1 && ShouldJump(f) && f.airJumpsLeft > 0 then f.airJumpsLeft - 1 else f.airJumpsLeft)
  {
    var launched := Launch(f);
    var flying := if f.stateFrame >= 1 then AirFrame(launched) else launched;
    MoveWithVelocity(flying)
  }

  /** The take-off on the first airborne frame after the squat; any other frame leaves the fighter alone. */
  function Launch(f: Fighter): (r: Fighter)
    ensures r.(velocity := f.velocity) == f
  {
    if f.stateFrame == 0 && f.previousState == JumpSquat then Takeoff(f) else f
  }

  /** A later airborne frame: a possible air jump, then the air rules. */
  function AirFrame(f: Fighter): (r: Fighter)
    ensures r.(velocity := f.velocity, airJumpsLeft := f.airJumpsLeft) == f
    ensures r.airJumpsLeft == (if ShouldJump(f) && f.airJumpsLeft > 0 then f.airJumpsLeft - 1 else f.airJumpsLeft)
  {
    AirPhysics(AirJump(f))
  }

  /** An airborne fighter never falls faster than the terminal velocity. */
  lemma AirborneKeepsTerminalVelocity(f: Fighter)
    requires ValidParams(f.params) && f.velocity.y >= -TerminalVelocity(f.params)
    ensures AirborneUpdate(f).velocity.y >= -TerminalVelocity(f.params)
  {
    if f.stateFrame >= 1 {
      AirJumpKeepsTerminalVelocity(Launch(f));
    }
  }

  /**
   The take-off frame: the horizontal speed is within the jump's limit, and the
   fighter rises at the full-hop speed exactly when the jump button is held (or
   both hops are equally high).
   */
  lemma AirborneTakeoff(f: Fighter)
    requires ValidParams(f.params) && f.stateFrame == 0 && f.previousState == JumpSquat
    ensures Abs(AirborneUpdate(f).velocity.x) <= f.params.jumpMaxHorizontalVelocity
    ensures AirborneUpdate(f).velocity.y == f.params.fullHopVelocity
            <==> JumpIsActive(f) || f.params.shortHopVelocity == f.params.fullHopVelocity
  {
    assert AirborneUpdate(f).velocity == Takeoff(f).velocity;
  }

  lemma AirJumpKeepsTerminalVelocity(f: Fighter)
    ensures ValidParams(f.params) && f.velocity.y >= -TerminalVelocity(f.params)
            ==> AirJump(f).velocity.y >= -TerminalVelocity(f.params)
  {
    if ValidParams(f.params) {
      NonNegativeScale(f.params.fullHopVelocity, f.params.airJumpVelocityMultiplier);
    }
  }

  /**
   The air dodge's launch velocity: speed 3.1 in the stick's direction, or
   nothing with the stick released.
   */
  ghost function DodgeVelocity(f: Fighter): (v: Vector)
    ensures IsActive(XAxis(f)) || IsActive(YAxis(f)) ==> SquaredLength(v) == 3.1 * 3.1
    ensures !IsActive(XAxis(f)) && !IsActive(YAxis(f)) ==> v == Zero
    ensures IsActive(XAxis(f)) && XAxis(f).value > 0.0 && YAxis(f).value == 0.0 ==> v == Vector(3.1, 0.0)
  {
    if IsActive(XAxis(f)) || IsActive(YAxis(f)) then
      var angle := Angle(Vector(XAxis(f).value, YAxis(f).value));
      ScaledUnitCircle(Cos(angle), Sin(angle), 3.1);
      Vector(3.1 * Cos(angle), 3.1 * Sin(angle))
    else Zero
  }

  lemma ScaledUnitCircle(c: real, s: real, k: real)
    requires c * c + s * s == 1.0
    ensures (k * c) * (k * c) + (k * s) * (k * s) == k * k
  {
    assert (k * c) * (k * c) + (k * s) * (k * s) == (k * k) * (c * c + s * s);
  }

  /**
   Air dodging. The launch velocity is set on the first frame; for the first 30
   frames 0.9 is added to each component every frame, as the code does; after
   that the air rules apply.
   */
  ghost function AirDodgeUpdate(f: Fighter): (r: Fighter)
    ensures StepShape(f, r) && r.airJumpsLeft == f.airJumpsLeft && r.isFacingRight == f.isFacingRight
    ensures 0 < f.stateFrame < 30 ==> r.velocity == Vector(f.velocity.x + 0.9, f.velocity.y + 0.9)
    ensures f.stateFrame == 0 ==>
              SquaredLength(Vector(r.velocity.x - 0.9, r.velocity.y - 0.9))
              == (if IsActive(XAxis(f)) || IsActive(YAxis(f)) then 3.1 * 3.1 else 0.0)
    ensures f.stateFrame >= 30 && ValidParams(f.params) && f.velocity.y >= -TerminalVelocity(f.params)
            ==> r.velocity.y >= -TerminalVelocity(f.params)
  {
    var launched := if f.stateFrame == 0 then f.(velocity := DodgeVelocity(f)) else f;
    var flying :=
      if f.stateFrame < 30 then launched.(velocity := Vector(launched.velocity.x + 0.9, launched.velocity.y + 0.9))
      else AirPhysics(launched);
    MoveWithVelocity(flying)
  }

  /** Landing lag. On its first frame the fall stops and the air jumps are restored. */
  function LandUpdate(f: Fighter): (r: Fighter)
    ensures StepShape(f, r) && r.isFacingRight == f.isFacingRight
    ensures f.stateFrame == 0 ==> r.velocity.y == 0.0 && r.airJumpsLeft == f.params.airJumps
    ensures f.stateFrame != 0 ==> r.velocity.y == f.velocity.y && r.airJumpsLeft == f.airJumpsLeft
    ensures f.params.groundFriction >= 0.0 ==> Abs(r.velocity.x) <= Abs(f.velocity.x)
  {
    var touched := if f.stateFrame == 0 then f.(velocity := f.velocity.(y := 0.0), airJumpsLeft := f.params.airJumps) else f;
    Slide(touched, 2.0 * f.params.groundFriction)
  }

  /** Landing out of an air dodge: as a normal landing, with double friction for three frames only. */
  function LandSpecialUpdate(f: Fighter): (r: Fighter)
    ensures StepShape(f, r) && r.isFacingRight == f.isFacingRight
    ensures f.stateFrame == 0 ==> r.velocity.y == 0.0 && r.airJumpsLeft == f.params.airJumps
    ensures f.stateFrame != 0 ==> r.velocity.y == f.velocity.y && r.airJumpsLeft == f.airJumpsLeft
    ensures f.params.groundFriction >= 0.0 ==> Abs(r.velocity.x) <= Abs(f.velocity.x)
  {
    var touched := if f.stateFrame == 0 then f.(velocity := f.velocity.(y := 0.0), airJumpsLeft := f.params.airJumps) else f;
    var multiplier := if f.stateFrame < 3 then 2.0 else 1.0;
    Slide(touched, multiplier * f.params.groundFriction)
  }

  /** Runs the current state's update rule. */
  ghost function StateUpdate(f: Fighter): (r: Fighter)
    requires f.state == Run ==> XAxis(f).value != 0.0 && f.params.dashMaxVelocity != 0.0
    ensures StepShape(f, r)
  {
    match f.state
    case Idle => IdleUpdate(f)
    case Turn => TurnUpdate(f)
    case Walk => WalkUpdate(f)
    case Dash => DashUpdate(f)
    case Run => RunUpdate(f)
    case RunBrake => RunBrakeUpdate(f)
    case RunTurn => RunTurnUpdate(f)
    case JumpSquat => JumpSquatUpdate(f)
    case Airborne => AirborneUpdate(f)
    case AirDodge => AirDodgeUpdate(f)
    case Land => LandUpdate(f)
    case LandSpecial => LandSpecialUpdate(f)
  }

  /**
   The air jumps change only by an air jump spent while airborne, or by being
   restored on a landing state's first frame, when the fall also stops.
   */
  lemma StateUpdateAirJumps(f: Fighter)
    requires f.state == Run ==> XAxis(f).value != 0.0 && f.params.dashMaxVelocity != 0.0
    ensures StateUpdate(f).airJumpsLeft != f.airJumpsLeft ==>
              || (f.state == Airborne && f.stateFrame >= 1 && ShouldJump(f) && f.airJumpsLeft > 0
                  && StateUpdate(f).airJumpsLeft == f.airJumpsLeft - 1)
              || (IsLanding(f.state) && f.stateFrame == 0 && StateUpdate(f).airJumpsLeft == f.params.airJumps)
    ensures f.state == Airborne && f.stateFrame >= 1 && ShouldJump(f) && f.airJumpsLeft > 0
            ==> StateUpdate(f).airJumpsLeft == f.airJumpsLeft - 1
    ensures IsLanding(f.state) && f.stateFrame == 0 ==>
              StateUpdate(f).airJumpsLeft == f.params.airJumps && StateUpdate(f).velocity.y == 0.0
  {
    if f.state == Airborne {
      assert StateUpdate(f) == AirborneUpdate(f);
    } else if f.state == Land {
      assert StateUpdate(f) == LandUpdate(f);
    } else if f.state == LandSpecial {
      assert StateUpdate(f) == LandSpecialUpdate(f);
    } else {
      OtherStatesKeepAirJumps(f);
    }
  }

  /** Outside the air and the landing states the air jumps are left alone. */
  lemma OtherStatesKeepAirJumps(f: Fighter)
    requires f.state == Run ==> XAxis(f).value != 0.0 && f.params.dashMaxVelocity != 0.0
    requires f.state != Airborne && f.state != Land && f.state != LandSpecial
    ensures StateUpdate(f).airJumpsLeft == f.airJumpsLeft
  {
    match f.state
    case Idle =>
    case Turn =>
    case Walk =>
    case Dash =>
    case Run =>
    case RunBrake =>
    case RunTurn =>
    case JumpSquat =>
    case AirDodge =>
  }
}
