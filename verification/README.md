# FightingGameRust movement core, modelled in Dafny

This project models the frame-stepped core of FightingGameRust. That is a
2D platform-fighter movement simulator in the style of Super Smash Bros.
Melee. The model has four parts:

- **Controller input.** This covers `Button`, `AnalogAxis`, `AnalogStick` and
  `ControllerState`.
  - Buttons and axes report edges by comparing this frame's value with last frame's.
  - An axis has a dead zone and a counter of the frames it has been active.
  - A pair of digital keys resolves to an axis value of -1, 0 or 1, and the later press wins.
  - A stick can be snapped to the game's 1/80 steps.
- **Geometry kernel.** This covers:
  - the three-point orientation test;
  - line segments with left/right ordering, slope, intercept, normals, containment, the segment intersection test and the intersection point;
  - poly-lines;
  - the vector helpers;
  - `Vector2D`, which caches its magnitude and angle;
  - the collision box's ground query.
- **The fighter.**
  - Twelve states, each with a transition rule and an update rule.
  - The shared physics primitives: friction, gravity, clamped acceleration, fast fall and the horizontal air drift.
  - The landing logic and the fox preset.
  - One frame of the fighter, `FighterFrames.Update`: take the controller snapshot, transition, update, put the fighter back on the ground, count the frame.
- **Frame drivers.** This covers:
  - the fixed-timestep accumulator, as a loop that counts how many fixed steps it runs;
  - interpolated positions and `lerp`;
  - the toy `FightingGame` loop.

Floating-point numbers are modelled as `real`. Three things keep IEEE
behaviour visible where the code depends on it:

- **Slopes, intercepts and intersection coordinates** use `ExtendedReal.ExtReal` (finite, +∞, −∞, NaN), so the NaN and infinity branches can be stated.
- **Rust `signum`** returns 1 at 0, and Rust `round` rounds half away from zero. Both are written out in `RealMath`.
- **Square root, `atan2`, `cos` and `sin`** are ghost functions that only promise a few facts:
  - the root is non-negative, and it is a root wherever one exists;
  - cos² + sin² = 1;
  - the angle of (x, 0) with x > 0 is 0.

The code is modelled as written. This includes two quirks:

- `move_with_velocity` adds the vertical velocity to the horizontal position as well (`Fighters.MoveWithVelocity`). So the height changes only when the ground check lifts the fighter back to 0.
- The air dodge adds 0.9 to each velocity component on each of its first 30 frames (`FighterStates.AirDodgeUpdate`).

The files come from different snapshots of the repository:

- `fighter.rs` reads the axis as `x_axis`/`frames_active`, and `analog_axis.rs` names these `value_current` (read through the accessor `value()`) and `active_frames`.
- `fighting_game.rs` uses `left_stick` and `c_stick`.

The model has one `AnalogAxis`, one `Button` and one `Point`, and every file is mapped onto them. The fighter's `x_axis` and `y_axis` are the main stick's two axes. `Point2D` and `LineSegment2D` of `game_math.rs` share the segment model of `line_math.rs`; their cached fields are checked against it.

## Model

| member | source | states |
|---|---|---|
| GeneralMath.Lerp | src/general_math.rs:1-3 | lerp(a, b, 0) is a, lerp(a, b, 1) is b, and lerp(a, a, t) is a for every t |
| GeneralMath.LerpStaysBetween | src/general_math.rs:1-3 | for t in [0, 1] the interpolated value lies between the two end values, in either order |
| Points.TripletOrientation | src/point_math.rs:14-25 | the result is Colinear, Clockwise or CounterClockwise exactly when the turn value is zero, positive or negative |
| Points.CoincidentPointsAreColinear | src/point_math.rs:14-25 | any triple in which two points coincide is Colinear |
| Points.OrientationTranslationInvariant | src/point_math.rs:14-25 | moving all three points by the same offset does not change the orientation |
| Points.OrientationSwapReverses | src/point_math.rs:14-25 | swapping the last two points turns Clockwise into CounterClockwise and back, and keeps Colinear |
| Points.OrientationCyclic | src/point_math.rs:14-25 | rotating the three points cyclically keeps the orientation |
| Vectors.Magnitude | src/vector_math.rs:7-9 | the magnitude is non-negative, and a positive magnitude squares to x² + y² |
| Vectors.MagnitudeOfZero | src/vector_math.rs:7-9 | the zero vector has magnitude 0 |
| Vectors.WithMagnitudeFacts | src/vector_math.rs:11-23 | a non-zero vector ends with length \|value\|; the result always lies on the input's line; for a positive length both components keep their signs |
| Vectors.Angle | src/vector_math.rs:25-32 | the angle of the zero vector is 0, and so is the angle of a vector pointing along positive x |
| Vectors.DirectionIsUnitAlong | src/vector_math.rs:34-48 | the direction of a vector of positive length has length 1; it always lies on the vector's line; a positive or negative direction component has a component of the same sign in the vector |
| Vectors.Inverse | src/vector_math.rs:54-56 | the dot product of the inverse with the original is minus the squared length |
| Vectors.InverseInvolution | src/vector_math.rs:54-56 | inverting twice gives back the vector |
| Vectors.DotSymmetric | src/vector_math.rs:50-52 | the dot product does not depend on the order of its arguments |
| Vectors.DotWithInverse | src/vector_math.rs:50-56 | a dot product with an inverted vector is the negated dot product |
| Lines.LeftPoint | src/line_math.rs:18-25 | the left point is an endpoint whose x is not greater than either endpoint's; on equal x it is the first endpoint |
| Lines.RightPoint | src/line_math.rs:27-34 | the right point is an endpoint whose x is not less than either endpoint's; on equal x it is the second endpoint |
| Lines.LeftRightAreTheEndpoints | src/line_math.rs:18-34 | the left and right points are the two endpoints, in one order or the other, with left.x ≤ right.x |
| Lines.Ordered | src/line_math.rs:18-34 | the ordered segment is the segment or its reverse, with its first point on the left |
| Lines.Slope | src/line_math.rs:36-40 | the slope is finite exactly for non-vertical segments and then satisfies rise = slope · run; +∞ or −∞ for a vertical segment by the direction of its points; NaN exactly for a single point |
| Lines.YIntercept | src/line_math.rs:46-49 | for a finite slope both endpoints lie on y = slope · x + intercept; a single point gives NaN, and a vertical segment gives NaN exactly when it stands on x = 0 |
| Lines.Length | src/line_math.rs:51-53 | the length is non-negative, 0 for a single point, and a positive length squares to the squared span |
| Lines.Direction | src/line_math.rs:55-69 | the direction is the zero vector for a zero-length segment and otherwise a unit vector along the segment |
| Lines.Normal | src/line_math.rs:73-87 | the normal is the direction turned a quarter: zero for a zero-length segment, otherwise of length 1 and at right angles to the direction |
| Lines.ColinearWithOrderedIffOnCarrier | src/line_math.rs:96-104 | the orientation test with the left and right points is Colinear exactly when the point is on the segment's carrier line |
| Lines.ContainsPointIff | src/line_math.rs:89-104 | a segment contains a point exactly when the point is on the carrier line and inside the bounding box |
| Lines.PointBetweenEndpointsIsContained | src/line_math.rs:89-104 | every point between the endpoints is contained |
| Lines.EndpointsAreContained | src/line_math.rs:89-104 | a segment contains both of its endpoints |
| Lines.IntersectsWithSymmetric | src/line_math.rs:107-138 | the intersection test does not depend on which segment comes first |
| Lines.ContainedEndpointIntersects | src/line_math.rs:107-138 | when one segment contains an endpoint of the other, the segments intersect |
| Lines.SelfIntersects | src/line_math.rs:107-138 | every segment intersects itself |
| Lines.ProperCrossingIntersects | src/line_math.rs:107-138 | when each segment separates the endpoints of the other, the segments intersect |
| Lines.OneSidedDoesNotIntersect | src/line_math.rs:107-138 | when both endpoints of one segment lie strictly on the same side of the other, and no endpoint is colinear, the segments do not intersect |
| Lines.IntersectsWithIgnoresEndpointOrder | src/line_math.rs:107-138 | reversing a segment's endpoints does not change the intersection test |
| Lines.DistinctVerticalsDoNotIntersect | src/line_math.rs:107-138 | two vertical segments at different x do not intersect |
| Lines.IntersectionAsWritten | src/line_math.rs:140-238 | as written: the point has no NaN coordinate, but when it exists it can be infinite |
| Lines.Intersection | src/line_math.rs:140-238 | corrected: the point lies on both carrier lines; two single points meet exactly when equal; a single point meets a segment exactly when the segment contains it; two proper segments meet exactly when they are not parallel; parallel segments give None |
| Lines.CorrectedRawIsOnBothLines | src/line_math.rs:149-238 | each branch of the corrected computation that returns a point without a NaN returns a finite point on both carrier lines |
| Lines.AsWrittenAgreesUnlessBothVertical | src/line_math.rs:149-238 | the code as written agrees with the corrected definition on every pair of segments that are not both vertical |
| Lines.AsWrittenOppositeVerticalsGiveInfinity | src/line_math.rs:197-211 | the vertical segments x = −1 (upward) and x = 2 (downward) get an intersection point from the code as written, though the corrected definition gives None |
| Lines.IntersectingVerticalsGiveNone | src/line_math.rs:107-238 | two vertical segments that pass the intersection test get no intersection point, either as written or corrected |
| Lines.ParallelGiveNone | src/line_math.rs:42-44 | segments with equal slopes get no intersection point, either as written or corrected |
| Lines.FromPoints | src/line_math.rs:247-271 | fewer than two points give no segments; otherwise segment i joins point i to point i+1, so consecutive segments share an endpoint |
| GameMath.NewVector2D | src/game_math.rs:237-246 | a new vector has the given components, and its cached magnitude and angle agree with them |
| GameMath.Set | src/game_math.rs:248-253 | setting the components refreshes the caches; the zero vector caches magnitude 0 and angle 0 |
| GameMath.SetX | src/game_math.rs:256 | x takes the new value, y is kept and the caches agree |
| GameMath.SetY | src/game_math.rs:258 | y takes the new value, x is kept and the caches agree |
| GameMath.SetMagnitude | src/game_math.rs:262-269 | the caches still agree afterwards, and a vector of magnitude 0 is unchanged |
| GameMath.SetMagnitudeAgreesWithVectorMath | src/game_math.rs:262-269 | the components after setting the magnitude are the ones the vector helper computes |
| GameMath.SetMagnitudeReachesTarget | src/game_math.rs:262-269 | a non-zero vector ends with the requested magnitude |
| GameMath.Direction2D | src/game_math.rs:273-277 | the direction agrees with the vector helper, and a non-zero vector's direction has magnitude 1 |
| GameMath.PositiveXAxisVector | src/game_math.rs:296-298 | (5, 0) has magnitude 5 and its direction has x = 1 |
| GameMath.PositiveYAxisVector | src/game_math.rs:300-302 | (0, 5) has magnitude 5 and its direction has y = 1 |
| GameMath.NegativeXAxisVector | src/game_math.rs:304-306 | (−5, 0) has magnitude 5 and its direction has x = −1 |
| GameMath.NegativeYAxisVector | src/game_math.rs:308-310 | (0, −5) has magnitude 5 and its direction has y = −1 |
| GameMath.NewSegment2D | src/game_math.rs:46-56 | a new segment keeps its two points, and its cached ordering, slope, length and intercept agree with the segment model |
| GameMath.SetSegment | src/game_math.rs:58-65 | resetting the points refreshes the caches; left and right follow the cached ordering with left.x ≤ right.x |
| GameMath.TopNormal | src/game_math.rs:74-84 | the top normal is the normal of the left-to-right segment, points up or sideways, and is zero for a zero-length segment |
| GameMath.BottomNormal | src/game_math.rs:86-96 | the bottom normal is the negated normal of the left-to-right segment, points down or sideways, and is zero for a zero-length segment |
| GameMath.NormalsOpposite | src/game_math.rs:74-96 | the bottom normal is the exact negation of the top normal, so the two never point the same way |
| GameMath.LengthIgnoresOrder | src/game_math.rs:159-163 | reversing or ordering a segment does not change its length |
| GameMath.InterceptExamples | src/game_math.rs:314-324 | (4,4)-(10,10) and (−4,−4)-(−10,−10) have intercept 0, and (4,10)-(10,16) has intercept 6 |
| GameMath.InterceptOfLine | src/game_math.rs:46-65 | a new segment whose points lie on y = m x + c, with different x, caches the intercept c |
| GameMath.CrossingDiagonalsIntersect | src/game_math.rs:327-329 | the two diagonals of any unit square intersect |
| GameMath.SegmentBeyondUpperEndDoesNotIntersect | src/game_math.rs:331-333 | a unit diagonal does not intersect the anti-diagonal of the next square up and right |
| GameMath.SegmentBeyondLowerEndDoesNotIntersect | src/game_math.rs:335-337 | a unit diagonal does not intersect the anti-diagonal of the next square down and left |
| GameMath.DiagonalsMeetAtCentre | src/game_math.rs:343-348 | the diagonals of any 10-by-10 square meet at its centre, as written and corrected |
| GameMath.SameSegmentHasNoIntersectionPoint | src/game_math.rs:350-353 | the test's segment (0,0)–(10,10) has no intersection point with itself |
| GameMath.SegmentAndCopyMeetNowhere | src/game_math.rs:350-353 | every segment of non-zero length has no intersection point with itself, as written and corrected, because it is parallel with itself |
| GameMath.SinglePointMeetsItsCopy | src/line_math.rs:161-175 | a single-point segment does meet its copy, at that point, as written and corrected: the test's fact does not extend to length 0 |
| Collision.MovementLine | src/collision.rs:23-43 | the movement line ends at the current bottom point; without movement it is the previous bottom point alone; otherwise it is the movement stretched back by the tolerance |
| Collision.MovementLineShape | src/collision.rs:23-43 | the movement line starts at the previous bottom point moved back 0.01 along the unit movement direction |
| Collision.StillMovementLine | src/collision.rs:23-31 | without movement the previous and current bottom points coincide and the movement has no direction and length 0 |
| Collision.StretchedMovement | src/collision.rs:32-43 | the movement line points the same way as the movement and is 0.01 longer |
| Collision.GroundLineCollisionPosition | src/collision.rs:16-48 | None whenever the movement line misses the ground line, otherwise exactly the intersection point of the two; a returned point is always finite |
| Collision.GuardedIntersectionIsFinite | src/collision.rs:44-47 | for segments that pass the intersection test, the code as written and the corrected intersection agree |
| Buttons.NewButton | src/button.rs:8-13 | a new button is up and reports no edge |
| Buttons.SetPressed | src/button.rs:15-17 | only the current state changes; the button is just pressed exactly when it is now down and was up, and just released in the opposite case |
| Buttons.Update | src/button.rs:31-33 | ending the frame keeps the press and clears both edges |
| Buttons.EdgesExclusive | src/button.rs:23-29 | a button is never just pressed and just released at once |
| Buttons.EdgesAcrossFrame | src/button.rs:15-33 | after ending a frame and setting a new value, the edges report exactly the change between the two frames |
| Buttons.HoldingReportsOnePress | src/button.rs:15-33 | a button held over two frames is just pressed only on the first |
| AnalogAxes.NewAxis | src/analog_axis.rs:12-21 | a new axis is centred, inactive, has no active frames, keeps the given dead zone, and counts the high key as pressed first |
| AnalogAxes.AxisMagnitude | src/analog_axis.rs:24 | the magnitude is the absolute value |
| AnalogAxes.Direction | src/analog_axis.rs:25-29 | the direction is 1, −1 or 0 exactly by the sign of the value, and direction · value is the magnitude |
| AnalogAxes.ActiveOutsideDeadZone | src/analog_axis.rs:34 | an axis is active exactly when the absolute value reaches the dead zone |
| AnalogAxes.SetValue | src/analog_axis.rs:40 | only the current value changes |
| AnalogAxes.SetValueFromStates | src/analog_axis.rs:41-62 | neither key gives 0, low alone gives −1, high alone gives 1; the memory of which key came first changes only when exactly one is held, and nothing else changes |
| AnalogAxes.LaterPressWins | src/analog_axis.rs:42-58 | with both keys held, the value follows the key pressed later |
| AnalogAxes.Update | src/analog_axis.rs:64-77 | the previous value and activity become this frame's; the active-frame counter resets on activation or inactivity and otherwise counts up by one; afterwards no edge is reported |
| AnalogAxes.HoldingActivatesOnce | src/analog_axis.rs:30-77 | an axis held outside the dead zone for one or more frames is not just activated again |
| AnalogSticks.NewStick | src/analog_stick.rs:10-15 | both axes are new axes with the given dead zone |
| AnalogSticks.StickMagnitude | src/analog_stick.rs:17-19 | the magnitude is non-negative, squares to x² + y² when positive, and is 0 for a centred stick |
| AnalogSticks.SetMagnitude | src/analog_stick.rs:21-28 | a centred stick is unchanged; the new axis values are the vector helper's rescaling of the old ones; nothing but the values changes |
| AnalogSticks.SetMagnitudeFacts | src/analog_stick.rs:21-28 | a stick that is not centred ends with magnitude \|value\|; the two axes keep their ratio; for a positive length each axis keeps its sign |
| AnalogSticks.StickAngle | src/analog_stick.rs:30-37 | the stick angle is the vector angle, and 0 for a centred stick |
| AnalogSticks.ConvertAxis | src/analog_stick.rs:41-49 | the axis becomes a whole multiple of 1/80, and nothing but its value changes |
| AnalogSticks.ConvertAxisBounds | src/analog_stick.rs:41-49 | the snapped value is never larger in size than before and less than 1/80 smaller, with its sign kept or 0 |
| AnalogSticks.ConvertAxisTruncates | src/analog_stick.rs:41-49 | rounding with the floor fallback always gives the value truncated toward 0 to a 1/80 step |
| AnalogSticks.TruncationIsUnique | src/analog_stick.rs:41-49 | only one 1/80 step is no larger than the value, less than 1/80 below it and of the same sign |
| AnalogSticks.RoundAxis | src/analog_stick.rs:55-58 | inside the unit circle each axis rounds to the nearest 1/80 step, at most 1/160 away, with its sign kept or 0; a value halfway between two steps goes to the one further from 0 |
| AnalogSticks.ConvertToMeleeValues | src/analog_stick.rs:39-59 | both axes become whole multiples of 1/80, and nothing but the values changes |
| AnalogSticks.MeleeValuesKeepSigns | src/analog_stick.rs:39-59 | neither axis changes sign; it keeps its sign or becomes 0 |
| AnalogSticks.MeleeValuesInsideCircle | src/analog_stick.rs:39-54 | a stick outside the unit circle ends inside it, each axis no larger in size than after the pull-back to length 1 |
| AnalogSticks.MeleeValuesNear | src/analog_stick.rs:55-58 | a stick on or inside the unit circle moves at most 1/160 per axis |
| AnalogSticks.PulledBackStickIsInside | src/analog_stick.rs:39-54 | a stick outside the unit circle is inside it after conversion |
| AnalogSticks.RoundingCanLeaveUnitCircle | src/analog_stick.rs:55-58 | the unit-length stick (33/65, 56/65) rounds to (41/80, 69/80), which lies outside the unit circle |
| AnalogSticks.Update | src/analog_stick.rs:61-64 | both axes end the frame: values kept, previous values taken from them, and no edge reported |
| Controllers.NewController | src/controller_state.rs:24-43 | all four axes are new axes with the dead zone, and all twelve buttons are up without edges |
| Controllers.Update | src/controller_state.rs:45-62 | each of the four axes and twelve buttons ends the frame exactly once |
| Controllers.UpdateClearsEdges | src/controller_state.rs:45-62 | right after the update, values and presses are kept and no button or axis reports an edge |
| Controllers.CopyInputs | src/controller_state.rs:64-81 | every axis value and button press is taken from the source, and all earlier-frame bookkeeping is kept |
| Controllers.CopyInputsIdempotent | src/controller_state.rs:64-81 | copying the same inputs twice is the same as copying them once |
| Controllers.FrameEdgesReportChanges | src/controller_state.rs:45-81 | ending a frame and copying new inputs makes each button's edges report exactly the change between the frames, and each axis remember last frame's value and activity |
| Controllers.ConvertToMeleeValues | src/controller_state.rs:83-86 | all four axes become whole multiples of 1/80 with nothing but their values changed, and no button changes; each axis pair is converted by the stick conversion, standing in for an axis-file function that is not part of this model |
| Controllers.MeleeValuesKeepSigns | src/controller_state.rs:83-86 | no axis of either stick changes sign |
| Controllers.MeleeValuesBounds | src/controller_state.rs:83-86 | a stick inside the unit circle moves at most 1/160 per axis, and a stick outside it ends inside it, for both sticks |
| Fighters.DefaultFighter | src/fighter.rs:56-105 | the default fighter idles at the origin, at rest, facing right, with no air jumps, and its parameters are not a usable set |
| Fighters.Fox | src/fighter.rs:106-140 | the fox preset is the default fighter with fox's parameters; they are valid, give one air jump and three jump-squat frames, and are ordered as a dash > walk, full hop > short hop, fast fall > fall |
| Fighters.ChangeState | src/fighter.rs:145-149 | the new state is entered at frame 0, the old state becomes the previous state, and nothing else changes |
| Fighters.FacingDirection | src/fighter.rs:151-158 | the direction is 1 when facing right and −1 otherwise |
| Fighters.Landing | src/fighter.rs:181-192 | Airborne lands into Land and AirDodge into LandSpecial through a state change; every other state is left as it is |
| Fighters.LandingIsFromTheAir | src/fighter.rs:181-192 | landing changes the fighter exactly when it is in an air state, and then enters a landing state at frame 0 |
| Fighters.LandingKeeps | src/fighter.rs:181-192 | landing changes only the state, previous state and frame; a change always enters a landing state at frame 0, and an air state always lands |
| Fighters.ForwardOrBackward | src/fighter.rs:202-210 | an active stick is either forward or backward and never both; forward points the way the fighter faces |
| Fighters.ApplyFriction | src/fighter.rs:308-310 | with non-negative friction the speed drops by the friction but not below 0, and the velocity never changes sign |
| Fighters.FrictionIsOdd | src/fighter.rs:308-310 | friction on a mirrored velocity gives the mirrored result |
| Fighters.ApplyGravity | src/fighter.rs:295-297 | with non-negative gravity the vertical velocity never rises, never falls below −fall velocity if it started at or above it, is kept if already below, and otherwise becomes max(v − gravity, −fall velocity) |
| Fighters.AccelerateWithinLimit | src/fighter.rs:344-356 | a centred stick adds nothing; a positive stick adds a non-negative amount, up to the maximum velocity or the current velocity if that is larger; a negative stick mirrors this |
| Fighters.ApplyAcceleration | src/fighter.rs:329-358 | over-maximum friction is applied first; then a centred stick adds nothing, and a positive or negative stick accelerates within the limit |
| Fighters.AccelerationIsOdd | src/fighter.rs:329-358 | mirroring the velocity and the stick mirrors the result |
| Fighters.MovementFriction | src/fighter.rs:304-306 | only the horizontal velocity changes, and it never grows under non-negative friction |
| Fighters.MovementAcceleration | src/fighter.rs:312-327 | only the horizontal velocity changes, and a velocity within the maximum stays within it |
| Fighters.MoveWithVelocity | src/fighter.rs:299-302 | the horizontal position moves by the sum of both velocity components, and the height does not change |
| Fighters.HorizontalAirMovement | src/fighter.rs:275-287 | only the horizontal velocity changes, and a velocity within the air maximum stays within it |
| Fighters.FastFall | src/fighter.rs:289-293 | the vertical velocity changes only to −fast-fall velocity, only when not rising, and always when the stick is smashed downward |
| Fighters.Gravity | src/fighter.rs:295-297 | only the vertical velocity changes, by the gravity rule |
| Fighters.AirPhysicsKeepsTerminalVelocity | src/fighter.rs:275-297 | air drift, fast fall and gravity never take the vertical velocity below the larger of the fall and fast-fall velocities |
| FighterStates.IdleTarget | src/fighter.rs:381-396 | Idle stays exactly when no jump is pressed and the stick is inactive; a dash or walk needs a forward stick |
| FighterStates.TurnTarget | src/fighter.rs:406-421 | Turn stays exactly when no jump is pressed, no backward smash happens and the turn frames have not run out; leaving to walk or idle needs the turn frames spent |
| FighterStates.WalkTarget | src/fighter.rs:448-459 | Walk stays exactly when no jump is pressed and the stick is forward but not smashed |
| FighterStates.DashTarget | src/fighter.rs:492-512 | Dash stays exactly when no jump is pressed, the stick is not backward, and the frame has not reached the limits that a forward or released stick would act on; Run is entered only with a forward stick between the minimum and maximum dash frames |
| FighterStates.RunTarget | src/fighter.rs:554-564 | Run stays exactly when no jump is pressed and the stick is forward |
| FighterStates.RunBrakeTarget | src/fighter.rs:577-593 | RunBrake leaves only for a jump, a backward stick, or a released stick after the brake frames; turning needs a backward stick |
| FighterStates.RunTurnTarget | src/fighter.rs:603-619 | RunTurn stays exactly when no jump is pressed and the turn counter is below 20; going back to Run needs a forward stick |
| FighterStates.JumpSquatTarget | src/fighter.rs:663-671 | JumpSquat stays exactly until its frames are spent; it then goes to AirDodge exactly when L or R is down, else Airborne |
| FighterStates.AirborneTarget | src/fighter.rs:681-685 | Airborne leaves exactly when L or R goes down, and then only for AirDodge |
| FighterStates.LandTarget | src/fighter.rs:762-766 | Land stays exactly while its frame is below 2, then goes to Idle |
| FighterStates.LandSpecialTarget | src/fighter.rs:781-803 | LandSpecial stays exactly while its frame is below 9; a dash or walk afterwards needs a forward stick |
| FighterStates.TransitionTarget | src/fighter.rs:231-245 | no transition enters a landing state; the air states can only enter AirDodge; entering or staying in Run needs a forward stick |
| FighterStates.Transition | src/fighter.rs:231-245 | a transition changes only the state, the previous state and the frame, as a state change does; a fighter in Run afterwards has a forward, non-zero stick, so the run update never divides by 0 |
| FighterStates.IdleUpdate | src/fighter.rs:398-401 | Idle only brakes by ground friction and moves |
| FighterStates.Slide | src/fighter.rs:304-310 | a friction-only update brakes the horizontal velocity and moves, keeping everything else |
| FighterStates.DashExitSpeed | src/fighter.rs:424-431 | leaving a dash removes 1.73 from the speed, without changing the sign of the velocity when the speed was at least 1.73 |
| FighterStates.TurnVelocity | src/fighter.rs:424-438 | on frame 0 after a dash the speed drops by 1.73; on frame 1 nothing changes; from frame 2 on friction never increases the speed |
| FighterStates.TurnFacing | src/fighter.rs:439-441 | the facing flips only on the slow dash-back frame with a backward stick, and then the fighter faces the stick |
| FighterStates.TurnUpdate | src/fighter.rs:423-443 | Turn combines the velocity and facing rules above and moves the fighter |
| FighterStates.WalkStep | src/fighter.rs:475 | the walk acceleration moves the velocity toward the target speed |
| FighterStates.WalkTowards | src/fighter.rs:473-485 | from within the target speed, one walk step lands between the old velocity and the target, clamped at the target |
| FighterStates.WalkPush | src/fighter.rs:462-466 | only the entry frame can push the velocity |
| FighterStates.WalkVelocity | src/fighter.rs:468-485 | over the target speed the walk brakes; otherwise from frame 1 it accelerates toward the target without passing it |
| FighterStates.WalkUpdate | src/fighter.rs:461-487 | from frame 1 Walk moves the velocity toward the stick's walk speed without passing it, or brakes when over it; the facing never changes |
| FighterStates.DashEntry | src/fighter.rs:515-521 | the facing flips exactly on the entry frame after a Turn |
| FighterStates.DashStart | src/fighter.rs:523-532 | the dash's start kick never leaves the speed above the dash maximum |
| FighterStates.DashControl | src/fighter.rs:535-547 | with valid parameters, a dash speed within the maximum stays within it |
| FighterStates.DashMotion | src/fighter.rs:523-547 | frame 0 keeps the velocity; from frame 1 the speed stays within the dash maximum |
| FighterStates.DashUpdate | src/fighter.rs:514-549 | the facing flips exactly on the entry frame after a Turn, and the dash speed stays within the dash maximum |
| FighterStates.RunAcceleration | src/fighter.rs:566-570 | the run acceleration pulls the velocity toward the dash maximum times the stick value |
| FighterStates.RunUpdate | src/fighter.rs:566-572 | Run moves the horizontal velocity toward the dash maximum times the stick value, and keeps the facing and air jumps |
| FighterStates.RunBrakeUpdate | src/fighter.rs:595-598 | RunBrake only brakes and moves |
| FighterStates.RunTurnFlags | src/fighter.rs:622-637 | the turn flags are reset on entry and stay consistent: a fighter that has changed direction has fully turned, and facing matches the flags |
| FighterStates.RunTurnCount | src/fighter.rs:655-657 | the turn counter grows by at most 1, always once fully turned, and waits at 9 until then |
| FighterStates.RunTurnUpdate | src/fighter.rs:621-658 | RunTurn keeps the flags consistent, counts at most one frame, waits at 9 until fully turned, and a fighter that has fully turned stays so |
| FighterStates.JumpSquatUpdate | src/fighter.rs:673-676 | JumpSquat only brakes and moves |
| FighterStates.Takeoff | src/fighter.rs:688-707 | leaving the ground caps the horizontal speed at the jump maximum and sets the vertical velocity to a full or short hop by whether the jump is held |
| FighterStates.AirJump | src/fighter.rs:711-715 | an air jump happens exactly when a jump is pressed with air jumps left, and spends one |
| FighterStates.AirPhysics | src/fighter.rs:716-718 | the air physics keep the vertical velocity at or above the terminal velocity |
| FighterStates.AirborneUpdate | src/fighter.rs:687-721 | an air jump is spent exactly when pressed from frame 1 on with one left, so the count never underflows; the facing is kept |
| FighterStates.AirborneKeepsTerminalVelocity | src/fighter.rs:687-721 | with valid parameters the update keeps the vertical velocity at or above the terminal velocity |
| FighterStates.AirborneTakeoff | src/fighter.rs:688-707 | on the first airborne frame after JumpSquat the horizontal speed is within the jump maximum, and the vertical velocity is the full hop exactly when the jump is held (or both hops are equal) |
| FighterStates.AirJumpKeepsTerminalVelocity | src/fighter.rs:711-718 | an air jump followed by the air physics keeps the terminal velocity |
| FighterStates.DodgeVelocity | src/fighter.rs:729-744 | an active stick gives a dodge velocity of length 3.1; a released stick gives 0; a stick straight right gives (3.1, 0) |
| FighterStates.AirDodgeUpdate | src/fighter.rs:728-757 | for 30 frames each component grows by 0.9; the entry frame sets the 3.1-long dodge velocity first; after that the air physics keep the terminal velocity |
| FighterStates.LandUpdate | src/fighter.rs:768-776 | frame 0 stops the fall and restores every air jump; other frames keep both; friction never increases the speed |
| FighterStates.LandSpecialUpdate | src/fighter.rs:805-814 | frame 0 stops the fall and restores every air jump; other frames keep both; friction never increases the speed |
| FighterStates.StateUpdate | src/fighter.rs:247-261 | the update of any state keeps the frame, state and input |
| FighterStates.StateUpdateAirJumps | src/fighter.rs:247-261 | air jumps change only by an Airborne jump from frame 1 or by the restore on a landing state's frame 0, which also stops the fall; both of those always happen when their conditions hold |
| FighterFrames.Prepare | src/fighter.rs:224-229 | the controller ends the frame and takes the snapshot's values; the facing and position are recorded as last frame's |
| FighterFrames.Ground | src/fighter.rs:267-270 | a fighter below the ground is lifted to 0 and landed; anything else is unchanged |
| FighterFrames.Update | src/fighter.rs:223-273 | one frame keeps the parameters and lifts the height to at least 0 |
| FighterFrames.ActKeeps | src/fighter.rs:223-261 | before the ground check, the frame has taken the snapshot and recorded last position and facing; it moved x by both velocity components and kept the height; a state change enters at frame 0, and no transition enters a landing state |
| FighterFrames.GroundKeeps | src/fighter.rs:267-270 | the ground check changes no velocity, air jump, input or record of the last frame; it changes the state only for an air state below the ground, into a landing state at frame 0 |
| FighterFrames.UpdateFrame | src/fighter.rs:223-273 | one frame records last frame's position and facing, counts the frame so that a newly entered state ends on frame 1 and a kept one counts on, and enters a landing state only from the air below the ground |
| FighterFrames.FirstLandingFrame | src/fighter.rs:768-776 | a frame run from frame 0 of a landing state restores every air jump and stops the fall |
| FighterFrames.UpdateNeverRestoresAirJumps | src/fighter.rs:267-272 | as written, one frame never gives air jumps back |
| FighterFrames.AirJumpNeedsJumpPress | src/fighter.rs:711-715 | an air jump is spent only from Airborne at frame 1 or later, one at a time, on a frame where X or Y goes down |
| FighterFrames.JumpEdges | src/controller_state.rs:45-81 | the jump buttons go down on a frame exactly when the snapshot presses one that was up |
| FighterFrames.Play | src/fighter.rs:223-273 | a run of frames keeps the parameters and the height of a fighter on or above the ground |
| FighterFrames.AirJumpsNeverRestored | src/fighter.rs:769-772 | as written, no run of frames ever gives back a spent air jump |
| FighterFrames.LandingSkipsRestore | src/fighter.rs:267-272 | a fox in the air below the ground with no air jump lands on frame 1 of Land and still has no air jump |
| FighterFrames.CorrectedUpdate | src/fighter.rs:267-272 | corrected: a fighter that lands stays on frame 0 of its landing state; every other frame is as written |
| FighterFrames.CorrectedLandingRestoresAirJumps | src/fighter.rs:769-772 | with the correction, the frame after a landing stops the fall and restores every air jump |
| FighterFrames.CorrectedPlay | src/fighter.rs:223-273 | a run of corrected frames keeps the parameters and the height of a fighter on or above the ground |
| FightingGames.NewGame | src/fighting_game.rs:9-14 | the game starts at x = 0, with every axis using the dead zone 0.2875 |
| FightingGames.Update | src/fighting_game.rs:16-41 | the controller takes the new inputs and then ends the frame; x moves exactly when the stick just activated (or never, for a stick value of 0), and then by exactly 60 times its value, so at most 60 for a stick within range |
| FightingGames.HoldingMovesOnce | src/fighting_game.rs:34-40 | holding the same input for any number of frames moves x only on the first |
| FightingGames.FrameLeavesStickHeld | src/fighting_game.rs:34-40 | after a frame the stick counts as held at the snapshot's value |
| FightingGames.HeldFrameStaysPut | src/fighting_game.rs:34-40 | a frame with the stick already held at its value does not move x |
| FightingGames.HoldingStaysPut | src/fighting_game.rs:34-40 | any number of frames with the stick held does not move x |
| FixedTimesteps.NewTimestep | src/fixed_timestep.rs:10-16 | a new timestep has an empty accumulator and interpolation 0 |
| FixedTimesteps.Update | src/fixed_timestep.rs:20-29 | the callback runs ⌊(accumulator + delta) / step⌋ times, the accumulator becomes the remainder, below the step, and the interpolation lies in [0, 1); a short delta runs nothing; the step never changes |
| FixedTimesteps.SplitCallsAgree | src/fixed_timestep.rs:23-27 | two updates in a row run the callback as often and leave the same accumulator as one update with the summed delta |
| InterpolatedPositions.New | src/interpolated_position.rs:9-16 | a new position reads back the given coordinates at every interpolation |
| InterpolatedPositions.SetX | src/interpolated_position.rs:21-24 | x at 0 is the old current x and x at 1 is the new value; y is untouched |
| InterpolatedPositions.SetY | src/interpolated_position.rs:29-32 | y at 0 is the old current y and y at 1 is the new value; x is untouched |
| InterpolatedPositions.Set | src/interpolated_position.rs:34-37 | both coordinates start from their old current values and end at the new ones |
| InterpolatedPositions.SetOrderDoesNotMatter | src/interpolated_position.rs:34-37 | setting both coordinates is the same as setting y and then x |
| InterpolatedPositions.DrawnBetweenFrames | src/interpolated_position.rs:18-28 | for an interpolation in [0, 1] the drawn position lies between the previous and current one on each axis |

## Left out

- Rendering, window and text output (`fighting_game_renderer.rs`, `rendered_fighting_game.rs`, `rendered_fighting_stage.rs`, `debug_text.rs`) are graphics calls with no state to model.
- Keyboard and event plumbing (`keyboard.rs`, `keyboard_controller.rs`, `digital_input.rs`), the window and wall-clock loops (`main.rs`, `mainasdfasdf.rs`) and stage data (`fighting_stage.rs`) are I/O or constants. `ecb.rs` is a bare record; `Collision.Ecb` covers it, and its fields are the accessors and its constructor is `ECB::new`.
- `state_as_string` (src/fighter.rs:164-179) only names states for the debug text.
- IEEE-754 rounding is not modelled: every float is a `real`. Infinity and NaN appear only where the code tests for them, through `ExtendedReal`.
- Square root, `atan2`, `cos` and `sin` are uninterpreted beyond the facts listed above. Properties that need a root to exist (the magnitude of a general vector) are stated for positive magnitudes or for perfect squares.
- Unsigned counters (`u32` frame counts, `air_jumps_left`) are `nat`, so wrap-around is not modelled. `air_jumps_left` never underflows in the model, because a jump needs one left.
- `FixedTimesteps.NewTimestep` takes the fixed step in nanoseconds. The conversion `Duration::from_secs_f32(1.0 / fixed_fps)` is not modelled, because it is f32 rounding.
- `FixedTimesteps.Update` states the interpolation as an exact quotient of nanoseconds. It does not model the f32 division. It requires a non-zero step: on a zero step the loop at src/fixed_timestep.rs:24 never ends, and `from_secs_f32` gives a zero step for rates above about 10⁹ per second. A rate of 0 or below makes `from_secs_f32` panic, so no step exists at all.
- `FixedTimesteps.Update` models the `FnMut` callback as the number of times it runs. What the callback does is up to the caller.
- `FighterStates.RunUpdate` requires a non-zero stick value and a non-zero dash maximum. The source divides by both. `FighterStates.Transition` proves the stick part for every fighter that reaches Run.
- `FighterFrames.Update` requires a non-zero dash maximum. The Run update divides by it, and the default fighter has every parameter 0. The fox preset meets the requirement.
- `FighterFrames.Play` and the lemmas over runs of frames require a non-zero dash maximum for the same reason.
- `AnalogSticks.StickAngle`, `Vectors.Angle` and `FighterStates.DodgeVelocity` pin the angle down only at 0 and for the zero vector, because `atan2` is uninterpreted.
- `FighterStates.DashTarget` and the other transition targets return the next state as an option. The source changes state in place; `FighterStates.Transition` applies the change.
- `FighterStates.AirDodgeUpdate` states the frame-0 velocity through its squared length, 3.1², because cos and sin are uninterpreted.
- `Controllers.NewController` takes the dead zone as a parameter. `ControllerState::default` (src/controller_state.rs:24-43) calls an `AnalogAxis::default` that the axis file does not define and a `Button::default` that the button file does not define (src/button.rs:1 derives only `Copy` and `Clone`). `FightingGame::new` calls a `ControllerState::new(0.2875)` that the controller file does not define. `ControllerState::convert_to_melee_values` (src/controller_state.rs:83-86) calls a free function `analog_axis::convert_to_melee_values` on each pair of axes that the axis file does not define; `Controllers.ConvertToMeleeValues` uses the stick conversion `AnalogSticks.ConvertToMeleeValues` (src/analog_stick.rs:39-59) on each stick in its place. The model builds every axis with `AnalogAxis::new` and a given dead zone.
- `Fighters.DefaultFighter` and `Fighters.Fox` take the controller's dead zone as a parameter. The controller default they build in is not part of this model. `Fighter::default` (src/fighter.rs:59-61) also calls `Point::default` and `Vector::default`, which are not defined either: src/point_math.rs:1 and src/vector_math.rs:1 derive only `Copy` and `Clone`. The model starts the position, previous position and velocity at 0, the value a derived `Default` would give.
- The sign of zero is not modelled. Rust's `signum` gives −1 for −0.0, and the model has a single 0 for which `signum` is 1.

## Findings

| source | as written | input that shows it | evidently intended | confidence | as-written member | corrected member |
|---|---|---|---|---|---|---|
| src/line_math.rs:197-211 | two vertical segments with opposite point order have slopes +∞ and −∞, so they do not count as parallel and get an intersection point with an infinite y | segments x = −1 from (−1, 0) to (−1, 1) and x = 2 from (2, 1) to (2, 0) give Some((−1, +∞)) | two vertical segments never meet at a single point, so the result is None | not executed | Lines.AsWrittenOppositeVerticalsGiveInfinity | Lines.Intersection |
| src/fighter.rs:267-272 | a fighter lands only in the ground check, which enters Land or LandSpecial at frame 0; the frame counter then moves to 1 before the landing state's update first runs, so the frame-0 restore of air jumps and vertical velocity (src/fighter.rs:769-772, 806-809) never happens | a fox in Airborne at frame 5 with no air jump left, standing at height −1, lands on the next frame, is on frame 1 of Land with no air jump left, and never gets one back | landing gives back every air jump and stops the fall on the first landing frame | not executed | FighterFrames.AirJumpsNeverRestored | FighterFrames.CorrectedLandingRestoresAirJumps |
