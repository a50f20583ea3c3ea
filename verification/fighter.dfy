/**
 The fighter record and the primitives its states share: changing state,
 landing, reading the controller relative to the facing direction, and the
 friction, gravity and acceleration rules applied to the velocity.
 */
module Fighters {
  import opened RealMath
  import opened Points
  import opened Vectors
  import opened Buttons
  import opened AnalogAxes
  import opened Controllers

  datatype FighterState =
    | Idle | Turn | Walk | Dash | Run | RunBrake | RunTurn
    | JumpSquat | Airborne | AirDodge | Land | LandSpecial

  /** The per-character constants; velocities are per frame, frame counts are frames. */
  datatype Params = Params(
    groundFriction: real,
    dashStartVelocity: real,
    dashMaxVelocity: real,
    dashBaseAcceleration: real,
    dashAxisAcceleration: real,
    walkStartVelocity: real,
    walkMaxVelocity: real,
    walkAcceleration: real,
    airFriction: real,
    airBaseAcceleration: real,
    airAxisAcceleration: real,
    airMaxVelocity: real,
    jumpSquatFrames: nat,
    jumpVelocityDampening: real,
    jumpMaxHorizontalVelocity: real,
    jumpStartHorizontalVelocity: real,
    shortHopVelocity: real,
    fullHopVelocity: real,
    fallVelocity: real,
    fastFallVelocity: real,
    airJumpVelocityMultiplier: real,
    airJumpHorizontalAxisMultiplier: real,
    airJumps: nat,
    gravity: real,
    dashMinFrames: nat,
    dashMaxFrames: nat,
    slowDashBackFrames: nat,
    turnFrames: nat,
    runBrakeFrames: nat)

  datatype Fighter = Fighter(
    input: ControllerState,
    position: Point,
    previousPosition: Point,
    velocity: Vector,
    airJumpsLeft: nat,
    isFacingRight: bool,
    wasFacingRight: bool,
    state: FighterState,
    previousState: FighterState,
    stateFrame: nat,
    dashShouldResetVelocity: bool,
    runTurnMeleeFrame: nat,
    runTurnWasFacingRightInitially: bool,
    runTurnHasChangedDirection: bool,
    runTurnHasFullyTurned: bool,
    params: Params)

  /**
   Constants the movement rules rely on: non-negative frictions, accelerations,
   gravity and speed limits, and a positive dash speed (run divides by it).
   */
  predicate ValidParams(p: Params) {
    && p.groundFriction >= 0.0 && p.airFriction >= 0.0
    && p.dashBaseAcceleration >= 0.0 && p.dashAxisAcceleration >= 0.0
    && p.airBaseAcceleration >= 0.0 && p.airAxisAcceleration >= 0.0
    && p.dashStartVelocity >= 0.0 && p.dashMaxVelocity > 0.0 && p.airMaxVelocity >= 0.0
    && p.jumpMaxHorizontalVelocity >= 0.0 && p.shortHopVelocity >= 0.0 && p.fullHopVelocity >= 0.0
    && p.airJumpVelocityMultiplier >= 0.0
    && p.gravity >= 0.0 && p.fallVelocity >= 0.0 && p.fastFallVelocity >= 0.0
  }

  const ZeroParams := Params(0.0, 0.0, 0.0, 0.0, 0.0, 0.0, 0.0, 0.0, 0.0, 0.0, 0.0, 0.0, 0,
                             0.0, 0.0, 0.0, 0.0, 0.0, 0.0, 0.0, 0.0, 0.0, 0, 0.0, 0, 0, 0, 0, 0)

  /** The character the game ships. */
  const FoxParams := Params(
    groundFriction := 0.08,
    dashStartVelocity := 1.9,
    dashMaxVelocity := 2.2,
    dashBaseAcceleration := 0.02,
    dashAxisAcceleration := 0.1,
    walkStartVelocity := 0.16,
    walkMaxVelocity := 1.6,
    walkAcceleration := 0.2,
    airFriction := 0.02,
    airBaseAcceleration := 0.02,
    airAxisAcceleration := 0.06,
    airMaxVelocity := 0.83,
    jumpSquatFrames := 3,
    jumpVelocityDampening := 0.83,
    jumpMaxHorizontalVelocity := 1.7,
    jumpStartHorizontalVelocity := 0.72,
    shortHopVelocity := 2.1,
    fullHopVelocity := 3.68,
    fallVelocity := 2.8,
    fastFallVelocity := 3.4,
    airJumpVelocityMultiplier := 1.2,
    airJumpHorizontalAxisMultiplier := 0.9,
    airJumps := 1,
    gravity := 0.23,
    dashMinFrames := 11,
    dashMaxFrames := 21,
    slowDashBackFrames := 5,
    turnFrames := 11,
    runBrakeFrames := 18)

  const Origin := Point(0.0, 0.0)

  /**
   A fighter standing idle at the origin, facing right, with no air jumps and
   every constant zero. The controller's dead zone is a parameter.
   */
  function DefaultFighter(deadZone: real): (f: Fighter)
    ensures f.state == Idle && f.previousState == Idle && f.stateFrame == 0
    ensures f.position == Origin && f.previousPosition == Origin && f.velocity == Zero
    ensures f.airJumpsLeft == 0 && f.isFacingRight && !JustTurned(f)
    ensures !ValidParams(f.params)
  {
    Fighter(NewController(deadZone), Origin, Origin, Zero, 0, true, true, Idle, Idle, 0,
            false, 0, true, false, false, ZeroParams)
  }

  /** The default fighter with the shipped character's constants, which the movement rules accept. */
  function Fox(deadZone: real): (f: Fighter)
    ensures ValidParams(f.params)
    ensures f.params.airJumps == 1 && f.params.jumpSquatFrames == 3
    ensures f.params.dashMinFrames < f.params.dashMaxFrames
    ensures f.params.walkMaxVelocity < f.params.dashMaxVelocity
    ensures f.params.shortHopVelocity < f.params.fullHopVelocity
    ensures f.params.fallVelocity < f.params.fastFallVelocity
    ensures f.(params := ZeroParams) == DefaultFighter(deadZone)
  {
    DefaultFighter(deadZone).(params := FoxParams)
  }

  /** Enters `next` at frame 0, remembering the state left; nothing else changes. */
  function ChangeState(f: Fighter, next: FighterState): (r: Fighter)
    ensures r.state == next && r.previousState == f.state && r.stateFrame == 0
    ensures r.(state := f.state, previousState := f.previousState, stateFrame := f.stateFrame) == f
  {
    f.(stateFrame := 0, previousState := f.state, state := next)
  }

  function FacingDirection(f: Fighter): (d: real)
    ensures d == 1.0 <==> f.isFacingRight
    ensures d == -1.0 <==> !f.isFacingRight
  {
    if f.isFacingRight then 1.0 else -1.0
  }

  predicate JustTurned(f: Fighter) {
    f.isFacingRight != f.wasFacingRight
  }

  predicate CanLand(f: Fighter) {
    f.state == Airborne || f.state == AirDodge
  }

  predicate IsLanding(s: FighterState) {
    s == Land || s == LandSpecial
  }

  /** Touching the ground ends the air states: Airborne lands normally, an air dodge lands specially. */
  function Landing(f: Fighter): (r: Fighter)
    ensures f.state == Airborne ==> r == ChangeState(f, Land)
    ensures f.state == AirDodge ==> r == ChangeState(f, LandSpecial)
    ensures !CanLand(f) ==> r == f
  {
    if f.state == Airborne then ChangeState(f, Land)
    else if f.state == AirDodge then ChangeState(f, LandSpecial)
    else f
  }

  /** Landing changes the fighter exactly when it is in the air, and always puts it in a landing state. */
  lemma LandingIsFromTheAir(f: Fighter)
    ensures Landing(f) != f <==> CanLand(f)
    ensures CanLand(f) ==> IsLanding(Landing(f).state) && Landing(f).stateFrame == 0
  {
  }

  /** Landing changes only the state and its bookkeeping. */
  lemma LandingKeeps(f: Fighter)
    ensures Landing(f).input == f.input && Landing(f).params == f.params && Landing(f).position == f.position
    ensures Landing(f).velocity == f.velocity && Landing(f).airJumpsLeft == f.airJumpsLeft
    ensures Landing(f).previousPosition == f.previousPosition && Landing(f).wasFacingRight == f.wasFacingRight
    ensures Landing(f).state != f.state ==> CanLand(f) && IsLanding(Landing(f).state) && Landing(f).stateFrame == 0
    ensures Landing(f).state == f.state ==> Landing(f).stateFrame == f.stateFrame
    ensures CanLand(f) ==> IsLanding(Landing(f).state)
  {
  }

  function XAxis(f: Fighter): AnalogAxis {
    f.input.leftStick.xAxis
  }

  function YAxis(f: Fighter): AnalogAxis {
    f.input.leftStick.yAxis
  }

  /** A jump starts on the frame either jump button goes down. */
  predicate ShouldJump(f: Fighter) {
    JustPressed(f.input.xButton) || JustPressed(f.input.yButton)
  }

  predicate JumpIsActive(f: Fighter) {
    IsPressed(f.input.xButton) || IsPressed(f.input.yButton)
  }

  predicate XAxisIsForward(f: Fighter) {
    IsActive(XAxis(f)) && ((XAxis(f).value > 0.0 && f.isFacingRight) || (XAxis(f).value < 0.0 && !f.isFacingRight))
  }

  predicate XAxisIsBackward(f: Fighter) {
    IsActive(XAxis(f)) && !XAxisIsForward(f)
  }

  /** A smash is a hard push that became active no more than a frame ago. */
  predicate XAxisSmashed(f: Fighter) {
    Abs(XAxis(f).value) >= 0.8 && XAxis(f).activeFrames < 2
  }

  predicate YAxisSmashed(f: Fighter) {
    Abs(YAxis(f).value) >= 0.6625 && YAxis(f).activeFrames < 2
  }

  /**
   An active stick is either forward or backward and never both; forward means
   the stick points the way the fighter faces, backward that it does not.
   */
  lemma ForwardOrBackward(f: Fighter)
    ensures IsActive(XAxis(f)) <==> XAxisIsForward(f) || XAxisIsBackward(f)
    ensures !(XAxisIsForward(f) && XAxisIsBackward(f))
    ensures XAxisIsForward(f) ==> XAxis(f).value * FacingDirection(f) > 0.0
    ensures XAxisIsBackward(f) ==> XAxis(f).value * FacingDirection(f) <= 0.0
  {
  }

  /**
   Rust's `v - v.signum() * v.abs().min(friction)`: with a non-negative friction
   the speed drops by the friction, stopping at zero, and never changes sign.
   */
  function ApplyFriction(v: real, friction: real): (r: real)
    ensures friction >= 0.0 ==> Abs(r) == Max(0.0, Abs(v) - friction)
    ensures friction >= 0.0 ==> (v >= 0.0 ==> r >= 0.0) && (v <= 0.0 ==> r <= 0.0)
    ensures friction >= 0.0 ==> Abs(r) <= Abs(v)
  {
    v - Signum(v) * Min(Abs(v), friction)
  }

  /** Friction acts the same way in both directions. */
  lemma FrictionIsOdd(v: real, friction: real)
    requires friction >= 0.0
    ensures ApplyFriction(-v, friction) == -ApplyFriction(v, friction)
  {
  }

  /**
   Gravity pulls the vertical speed down by `gravity` but never below
   `-fall`; a fighter already falling faster is left alone.
   */
  function ApplyGravity(vy: real, gravity: real, fall: real): (r: real)
    ensures gravity >= 0.0 ==> r <= vy
    ensures vy >= -fall ==> r >= -fall
    ensures vy < -fall ==> r == vy
    ensures gravity >= 0.0 && vy >= -fall ==> r == Max(vy - gravity, -fall)
  {
    vy - Max(Min(gravity, fall + vy), 0.0)
  }

  /** Above the speed limit friction applies before any acceleration. */
  function SlowedAboveLimit(v: real, maxVelocity: real, friction: real): real {
    if Abs(v) > maxVelocity then ApplyFriction(v, friction) else v
  }

  /**
   Adds an acceleration in the stick's direction, cut off where it would carry
   the speed past the limit and never turned against the stick.
   */
  function AccelerateWithinLimit(slowed: real, acceleration: real, stick: real, maxVelocity: real): (r: real)
    ensures stick == 0.0 ==> r == slowed
    ensures stick > 0.0 ==> slowed <= r <= Max(maxVelocity, slowed)
    ensures stick < 0.0 ==> Min(-maxVelocity, slowed) <= r <= slowed
  {
    if stick > 0.0 then
      slowed + Max(Min(acceleration, maxVelocity - slowed), 0.0)
    else if stick < 0.0 then
      slowed + Min(Max(acceleration, -maxVelocity - slowed), 0.0)
    else
      slowed
  }

  /**
   Accelerates along the stick: above the speed limit friction applies first;
   then the acceleration (a base part in the stick's direction and a part
   proportional to the stick) is cut off at the limit and never turns against
   the stick.
   */
  function ApplyAcceleration(v: real, axis: AnalogAxis, base: real, axisAcceleration: real,
                             maxVelocity: real, friction: real): (r: real)
    ensures axis.value == 0.0 ==> r == SlowedAboveLimit(v, maxVelocity, friction)
    ensures axis.value > 0.0 ==>
              SlowedAboveLimit(v, maxVelocity, friction) <= r <= Max(maxVelocity, SlowedAboveLimit(v, maxVelocity, friction))
    ensures axis.value < 0.0 ==>
              Min(-maxVelocity, SlowedAboveLimit(v, maxVelocity, friction)) <= r <= SlowedAboveLimit(v, maxVelocity, friction)
  {
    AccelerateWithinLimit(SlowedAboveLimit(v, maxVelocity, friction),
                          StickAcceleration(axis, base, axisAcceleration), axis.value, maxVelocity)
  }

  /** A base part in the stick's direction plus a part proportional to the stick. */
  function StickAcceleration(axis: AnalogAxis, base: real, axisAcceleration: real): real {
    AnalogAxes.Direction(axis) * base + axis.value * axisAcceleration
  }

  /** Pushing the stick the other way from the other side gives the mirrored speed. */
  lemma AccelerationIsOdd(v: real, axis: AnalogAxis, base: real, axisAcceleration: real,
                          maxVelocity: real, friction: real)
    requires friction >= 0.0
    ensures ApplyAcceleration(-v, SetValue(axis, -axis.value), base, axisAcceleration, maxVelocity, friction)
         == -ApplyAcceleration(v, axis, base, axisAcceleration, maxVelocity, friction)
  {
    SlowingIsOdd(v, maxVelocity, friction);
    MirroredAcceleration(axis, base, axisAcceleration);
    MirroredLimit(SlowedAboveLimit(v, maxVelocity, friction), StickAcceleration(axis, base, axisAcceleration),
                  axis.value, maxVelocity);
  }

  lemma SlowingIsOdd(v: real, maxVelocity: real, friction: real)
    requires friction >= 0.0
    ensures SlowedAboveLimit(-v, maxVelocity, friction) == -SlowedAboveLimit(v, maxVelocity, friction)
  {
    FrictionIsOdd(v, friction);
  }

  lemma MirroredAcceleration(axis: AnalogAxis, base: real, axisAcceleration: real)
    ensures StickAcceleration(SetValue(axis, -axis.value), base, axisAcceleration)
         == -StickAcceleration(axis, base, axisAcceleration)
  {
    assert AnalogAxes.Direction(SetValue(axis, -axis.value)) == -AnalogAxes.Direction(axis);
  }

  lemma MirroredLimit(slowed: real, acceleration: real, stick: real, maxVelocity: real)
    ensures AccelerateWithinLimit(-slowed, -acceleration, -stick, maxVelocity)
         == -AccelerateWithinLimit(slowed, acceleration, stick, maxVelocity)
  {
  }

  function MovementFriction(f: Fighter, friction: real): (r: Fighter)
    ensures r.velocity.y == f.velocity.y
    ensures r.(velocity := f.velocity) == f
    ensures friction >= 0.0 ==> Abs(r.velocity.x) <= Abs(f.velocity.x)
  {
    f.(velocity := f.velocity.(x := ApplyFriction(f.velocity.x, friction)))
  }

  function MovementAcceleration(f: Fighter, base: real, axisAcceleration: real,
                                maxVelocity: real, friction: real): (r: Fighter)
    ensures r.velocity.y == f.velocity.y
    ensures r.(velocity := f.velocity) == f
    ensures maxVelocity >= 0.0 && friction >= 0.0 && Abs(f.velocity.x) <= maxVelocity
            ==> Abs(r.velocity.x) <= maxVelocity
  {
    f.(velocity := f.velocity.(x := ApplyAcceleration(f.velocity.x, XAxis(f), base, axisAcceleration, maxVelocity, friction)))
  }

  /**
   Moves the fighter by its velocity as the code does: both components are
   added to the horizontal position and the height never changes.
   */
  function MoveWithVelocity(f: Fighter): (r: Fighter)
    ensures r.position.y == f.position.y
    ensures r.position.x - f.position.x == f.velocity.x + f.velocity.y
    ensures r.(position := f.position) == f
  {
    f.(position := f.position.(x := f.position.x + f.velocity.x + f.velocity.y))
  }

  /** Air control: friction with the stick released, acceleration towards the air speed limit otherwise. */
  function HorizontalAirMovement(f: Fighter): (r: Fighter)
    ensures r.velocity.y == f.velocity.y
    ensures r.(velocity := f.velocity) == f
    ensures f.params.airMaxVelocity >= 0.0 && f.params.airFriction >= 0.0 && Abs(f.velocity.x) <= f.params.airMaxVelocity
            ==> Abs(r.velocity.x) <= f.params.airMaxVelocity
  {
    if !IsActive(XAxis(f)) then
      MovementFriction(f, f.params.airFriction)
    else
      MovementAcceleration(f, f.params.airBaseAcceleration, f.params.airAxisAcceleration,
                           f.params.airMaxVelocity, f.params.airFriction)
  }

  /** A smash down while not rising switches to the fast-fall speed. */
  function FastFall(f: Fighter): (r: Fighter)
    ensures r.(velocity := f.velocity) == f && r.velocity.x == f.velocity.x
    ensures r.velocity.y != f.velocity.y ==> r.velocity.y == -f.params.fastFallVelocity && f.velocity.y <= 0.0
    ensures f.velocity.y <= 0.0 && YAxis(f).value < 0.0 && YAxisSmashed(f) ==> r.velocity.y == -f.params.fastFallVelocity
  {
    if f.velocity.y <= 0.0 && YAxis(f).value < 0.0 && YAxisSmashed(f) then
      f.(velocity := f.velocity.(y := -f.params.fastFallVelocity))
    else
      f
  }

  function Gravity(f: Fighter): (r: Fighter)
    ensures r.(velocity := f.velocity) == f && r.velocity.x == f.velocity.x
    ensures r.velocity.y == ApplyGravity(f.velocity.y, f.params.gravity, f.params.fallVelocity)
  {
    f.(velocity := f.velocity.(y := ApplyGravity(f.velocity.y, f.params.gravity, f.params.fallVelocity)))
  }

  /** The greatest downward speed the air rules produce: the larger of the fall and fast-fall speeds. */
  function TerminalVelocity(p: Params): real {
    Max(p.fallVelocity, p.fastFallVelocity)
  }

  /**
   Air control, fast fall and gravity in sequence never push a fighter that
   was no faster than the terminal velocity past it.
   */
  lemma AirPhysicsKeepsTerminalVelocity(f: Fighter)
    requires f.params.fallVelocity >= 0.0 && f.params.fastFallVelocity >= 0.0
    requires f.velocity.y >= -TerminalVelocity(f.params)
    ensures Gravity(FastFall(HorizontalAirMovement(f))).velocity.y >= -TerminalVelocity(f.params)
  {
  }
}
