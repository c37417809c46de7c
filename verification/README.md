# Obstacle-course game behaviours, modelled in Dafny

This project models the per-frame behaviour scripts of a small Unity
obstacle-course game:

- **Player** (`players.dfy`, module `Players`): velocity on the x and z axes
  that builds up, brakes against the motion and decays with the movement
  keys; a timed dash with a cool-down; death with a deferred respawn; and the
  pause key.
- **Patroller** (`patrol.dfy`, module `Patrol`): finds its waypoints among its
  children by the name prefix `"Patrol Point ("`, numbers them into an array
  by the number in the name, then cycles through them.
- **Wanderer** and **WanderingRegion** (`wander.dfy`, module `Wander`): the
  wanderer cycles Idle → Rotating → Moving → Idle between random points of
  its region's box.
- **SpikeTrap** (`spikes.dfy`, module `Spikes`): a Lowered → Lowering →
  Raising... cycle that drives the spike height, a kill hitbox and a blocking
  collider.

`engine.dfy` (module `Engine`) holds the engine primitives these scripts use:
- vectors;
- `Vector3.MoveTowards`;
- `Mathf.Lerp` with its clamped parameter;
- a symbolic `Quaternion` with `Slerp`;
- `Random.Range` driven by a given sample;
- timestamps that may be `Mathf.NegativeInfinity`;
- calls scheduled with `Invoke`.

Every script whose fields change from frame to frame is a class. Its
`MonoBehaviour` messages are methods with `modifies` clauses:
- `Start`, `Awake` and `Update`;
- the methods invoked by name;
- `FireDueCall`, which stands for the engine's timer running a due `Invoke`.

The engine's inputs become parameters:
- `Time.time` becomes `now` and `Time.deltaTime` becomes `dt`;
- the keyboard state in a frame becomes `Keys`;
- the uniform sample behind each `Random.Range` call becomes `u`, `v` or `w`;
- the distance to a `MoveTowards` target becomes `distance`, because Dafny has no square root.

A displacement handed to `CharacterController.Move` is returned to the
caller. Collision resolution belongs to the engine.

The main results:
- Holding a key of either direction from rest reaches full speed that way
  exactly after `timeToMaxSpeed` seconds, however the time is split into
  frames. Letting go stops the player
  within `timeToLoseMaxSpeed` seconds and never reverses them.
- Waypoint names round-trip through the number parser. When the numbers of N
  waypoints are 0..N-1, every slot of the array is filled, each waypoint at
  its number. The patroller returns to any waypoint after N arrivals.
- The spike trap's invariant keeps the height between the lowered and the
  full height, given a start between them. The height moves monotonically
  within a phase, and a phase ends exactly when its duration has passed.
- Player, Wanderer and SpikeTrap each keep an invariant tying their state to
  the calls they have scheduled.
- A dash covers dashDistance / dashTime per second for the time its frames
  spend inside the dash window. That is less than dashDistance, by at most
  one frame's travel when the frames run past the window. On a diagonal the direction
  has length sqrt(2), so the dash is longer by that factor.

Three details of the code that the model follows as written:
- The spike trap's hitbox is switched on when the raise starts
  (SpikeTrap.cs:70) and off once the spikes are fully up (SpikeTrap.cs:130),
  so it is active while the spikes rise and not while they stand raised.
- `Start` schedules `StartLowering` on spikes that are already down
  (SpikeTrap.cs:83), although the comment above it (SpikeTrap.cs:81-82)
  speaks of raising them.
- A dash can start whenever no dash is under way (Player.cs:264, 293-300).
  The cool-down of `CanDashNow` (Player.cs:103-109) gates only ordinary
  movement (Player.cs:133).

## Model

| member | source | states |
|---|---|---|
| Engine.Clamp01 | Assets/Scripts/SpikeTrap.cs:95 | the clamped parameter lies in [0, 1]: 0 below the range, 1 above it, and the input inside it |
| Engine.MoveTowards | Assets/Scripts/Patroller.cs:124 | for a non-negative step the result is the target exactly when the distance is at most the step |
| Engine.StopsShort | Assets/Scripts/Wanderer.cs:114-117 | a step that is a fraction other than the whole way of a non-zero offset does not land on the target |
| Engine.SnapCondition | Assets/Scripts/Patroller.cs:124-127 | for a non-negative step, comparing squared lengths is comparing distances |
| Engine.SquareOrder | Assets/Scripts/Patroller.cs:124 | helper of SnapCondition: squaring keeps the order of non-negative numbers, both ways |
| Engine.Lerp | Assets/Scripts/SpikeTrap.cs:95 | the result lies between the ends, equals the first at t <= 0 and the second at t >= 1, and reaches the second end only at t >= 1 |
| Engine.LerpBounds | Assets/Scripts/SpikeTrap.cs:115 | interpolation with a parameter in [0, 1] stays between the ends |
| Engine.LerpReachesEnd | Assets/Scripts/SpikeTrap.cs:101 | interpolation between different ends gives the second end only at parameter 1 |
| Engine.LerpMonotone | Assets/Scripts/SpikeTrap.cs:95 | Lerp moves toward its second end as the parameter grows |
| Engine.LerpStrictlyMonotone | Assets/Scripts/SpikeTrap.cs:115 | strictly so while the parameter is inside the interpolation range |
| Engine.ScaleOrder | Assets/Scripts/SpikeTrap.cs:115 | the unclamped interpolation is monotone in its parameter, strictly for distinct ends |
| Engine.Slerp | Assets/Scripts/Wanderer.cs:129 | a parameter at or past 1 gives the target rotation, at or below 0 the start, and equal ends give that rotation |
| Engine.RandomRange | Assets/Scripts/WanderingRegion.cs:37-38 | the sample lies between the bounds, in either order, and the extreme samples give the bounds |
| Engine.Fraction | Assets/Scripts/SpikeTrap.cs:95 | with the stamp at minus infinity the elapsed fraction is 1; otherwise it reaches 1 exactly when the duration has passed |
| Players.Tuning.VelocityGainPerSecond | Assets/Scripts/Player.cs:89-93 | the gain rate is non-negative and covers moveSpeed in exactly timeToMaxSpeed seconds |
| Players.Tuning.VelocityLossPerSecond | Assets/Scripts/Player.cs:95-101 | the loss rate is non-negative and covers moveSpeed in exactly timeToLoseMaxSpeed seconds |
| Players.Tuning.FrameRates | Assets/Scripts/Player.cs:89-101 | the rates a frame uses are non-negative, with the speed limit and the two rates above |
| Players.DefaultTuningValid | Assets/Scripts/Player.cs:42-70 | the field initialisers satisfy the conditions the velocity rules need |
| Players.StepsNonNegative | Assets/Scripts/Player.cs:141-177 | the gain, reverse and loss amounts of a frame are non-negative |
| Players.AxisStep | Assets/Scripts/Player.cs:136-225 | with both keys held the positive pair wins; pushing along the motion stops at moveSpeed, braking against it stops at zero, on either axis direction |
| Players.RiseFrame | Assets/Scripts/Player.cs:141 | helper of AxisStepBounds: a capped step of a speed within the limit stays between it and the limit, and a zero step changes nothing |
| Players.BrakeFrame | Assets/Scripts/Player.cs:164-178 | the braking and coasting step (CoastStep) lands between the speed and zero without changing sign, and a zero amount changes nothing |
| Players.AxisStepBounds | Assets/Scripts/Player.cs:136-225 | one frame on one axis keeps the speed limit; pushing along the motion speeds up to at most moveSpeed; pushing against it brakes and stops at zero; no key decays toward zero without changing sign; a frame of no length changes nothing |
| Players.DashDirection | Assets/Scripts/Player.cs:270-291 | the dash direction has unit components per key pair, forward over back and right over left, and is zero exactly when no movement key is held |
| Players.RestFrames | Assets/Scripts/Player.cs:344-357 | the frames after the first also have non-negative lengths |
| Players.GainedNonNegative | Assets/Scripts/Player.cs:141 | a non-negative rate summed over frames is non-negative |
| Players.GainedIsRateTimesDuration | Assets/Scripts/Player.cs:141 | however the time is split into frames, the summed change is rate times the total time |
| Players.HoldIsAccelerating | Assets/Scripts/Player.cs:136-142 | holding a key along the motion from a speed within the limit is capped acceleration at the gain rate |
| Players.HoldBackIsAccelerating | Assets/Scripts/Player.cs:150-162 | holding only a key of the negative pair from a speed between -moveSpeed and zero is capped acceleration at the gain rate, mirrored |
| Players.HoldIsCoasting | Assets/Scripts/Player.cs:164-178 | holding no key is coasting toward zero at the loss rate |
| Players.AccelerationProfile | Assets/Scripts/Player.cs:141 | capped acceleration ends at the lesser of the cap and the start plus rate times time |
| Players.CapTwice | Assets/Scripts/Player.cs:141 | helper of AccelerationProfile: capping twice is capping the sum once |
| Players.CoastingProfile | Assets/Scripts/Player.cs:169-178 | coasting takes rate times time off the speed, down to zero, and never flips the direction |
| Players.DecayTwice | Assets/Scripts/Player.cs:171 | helper of CoastingProfile: decaying twice is decaying by the sum once |
| Players.FullSpeedFromRest | Assets/Scripts/Player.cs:141 | from rest the cap is reached exactly when rate times time covers it |
| Players.CoastToRest | Assets/Scripts/Player.cs:169-178 | coasting stops once rate times time covers the speed, never changing sign |
| Players.DecayedAway | Assets/Scripts/Player.cs:169-178 | helper of CoastToRest: a speed whose size is what is left after taking off at least all of it is zero |
| Players.RateCovers | Assets/Scripts/Player.cs:69-70 | helper of StopsWithin: a rate that covers a total in the needed time covers anything up to it in any longer time |
| Players.RateReaches | Assets/Scripts/Player.cs:44-45 | helper of ReachesMaxSpeed: a rate that covers a total in the needed time reaches it exactly when the time held is at least that long |
| Players.AcceleratesToCapWithin | Assets/Scripts/Player.cs:44-45 | accelerating from rest at such a rate reaches the cap exactly when the needed time has passed |
| Players.ReachesMaxSpeed | Assets/Scripts/Player.cs:44-45 | holding a direction from rest, full speed is reached exactly when the key has been held timeToMaxSpeed seconds in total |
| Players.ReachesMaxSpeedBack | Assets/Scripts/Player.cs:44-45 | holding only S/Down (or A/Left) from rest, -moveSpeed is reached exactly when the key has been held timeToMaxSpeed seconds in total |
| Players.StopsWithin | Assets/Scripts/Player.cs:69-70 | letting go at any speed within the limit brings the axis to rest within timeToLoseMaxSpeed seconds |
| Players.CoastsToRestWithin | Assets/Scripts/Player.cs:69-70 | coasting at a rate that covers the limit in the needed time stops from any speed within the limit |
| Players.CoastingNeverReverses | Assets/Scripts/Player.cs:164-178 | letting go of the keys never reverses the direction of motion |
| Players.DurationNonNegative | Assets/Scripts/Player.cs:303-305 | helper of InWindowBounds: frames of non-negative length have a non-negative total |
| Players.InWindowBounds | Assets/Scripts/Player.cs:81-87 | the time the frames spend inside the dash window is at most what is left of it, strictly less while it is open, all of their time when they end inside it, and nothing once it has closed |
| Players.InWindowShortfall | Assets/Scripts/Player.cs:81-87 | frames of at most m seconds that run past the window leave at most m of it unused |
| Players.DashTravelIsSpeedTimesTime | Assets/Scripts/Player.cs:303-305 | the dash moves summed over the frames are the dash speed times the time spent inside the window |
| Players.DashFallsShort | Assets/Scripts/Player.cs:303-305 | the frames after a dash starts move it along its direction by less than dashDistance; frames that end inside the window move dashDistance / dashTime times their total time; frames of at most m seconds that run past the window move at least dashDistance less m times the dash speed |
| Players.TravelBounds | Assets/Scripts/Player.cs:303-305 | helper of DashFallsShort: the same bounds for any speed that covers the distance in dashTime |
| Players.ScaledWindow | Assets/Scripts/Player.cs:303-305 | helper of TravelBounds: the speed times a time inside the window stays below the distance and within speed * m of it |
| Players.DashDirectionLength | Assets/Scripts/Player.cs:270-291 | the squared length of the dash direction is the number of key pairs held: 1 along one axis, 2 on a diagonal |
| Players.Player.constructor | Assets/Scripts/Player.cs:51-79 | a placed player is alive, at rest, has never dashed, is not paused and has nothing scheduled |
| Players.Player.IsDashing | Assets/Scripts/Player.cs:81-87 | a player who never dashed is not dashing; one whose dash began at a time is dashing exactly while less than dashTime has passed since, so one whose dash began now is |
| Players.Player.CanDashNow | Assets/Scripts/Player.cs:103-109 | with a non-negative cool-down, a player who can dash is not dashing; one who never dashed can; none can at or before the instant a dash began; after a dash the gate opens exactly once more than dashTime + dashCoolDown has passed since it began |
| Players.Player.Pausing | Assets/Scripts/Player.cs:111-129 | Escape toggles the pause flag, and the time scale is 0 while paused and 1 otherwise |
| Players.Player.Resume | Assets/Scripts/Player.cs:320-324 | the resume button clears the pause and restores the time scale to 1 |
| Players.Player.Movement | Assets/Scripts/Player.cs:130-236 | outside a dash and its cool-down each axis takes one AxisStep with its key pair, and a moving player asks to move velocity times dt and turns 0.18 of the way toward the motion; otherwise nothing changes; the invariant is kept |
| Players.Player.Dashing | Assets/Scripts/Player.cs:262-307 | during a dash the player asks to move dashDistance / dashTime per second along the dash; otherwise space with a movement key starts a dash now at full speed facing it, and anything else changes nothing |
| Players.Player.Respawn | Assets/Scripts/Player.cs:238-246 | the player is alive again at its spawn point and rotation, with the component, controller and model switched on |
| Players.Player.Die | Assets/Scripts/Player.cs:248-260 | a live player stops, is switched off, loses its dash and has exactly one respawn scheduled respawnWaitTime on; a dead one is left as it is; afterwards no dash is running |
| Players.Player.FireDueCall | Assets/Scripts/Player.cs:253 | once the scheduled respawn is due it is removed and run, leaving the pause, the time scale and the dash direction as they were; before that nothing changes |
| Players.Player.Start | Assets/Scripts/Player.cs:337-341 | the spawn point and rotation are the starting ones |
| Players.Player.MoveAndDash | Assets/Scripts/Player.cs:346-351 | one unpaused frame is Movement then Dashing: the moves requested are Movement's (gated on no dash and the cool-down, one AxisStep per axis) followed by the dash's; a dash starting this frame sets the direction, rotation, full-speed velocity and begin time; otherwise the velocity and rotation are Movement's |
| Players.Player.Update | Assets/Scripts/Player.cs:344-357 | a paused player neither moves nor turns; an unpaused one does what MoveAndDash states; Escape toggles the pause; T kills and schedules one respawn, otherwise the player stays enabled; the position never changes; at most two moves are requested; the invariant is kept |
| Patrol.Matching | Assets/Scripts/Patroller.cs:63-71 | the kept children all have the prefix and are no more than the children |
| Patrol.MatchingKeepsExactly | Assets/Scripts/Patroller.cs:55-75 | discovery keeps exactly the children whose names start with the prefix, and no more of them than there are |
| Patrol.IndexOf | Assets/Scripts/Patroller.cs:95 | the first position of the character, or -1 exactly when it is absent |
| Patrol.TrimStart | Assets/Scripts/Patroller.cs:100 | what is left is the suffix of the input after its leading white space: only white space is removed, and the result does not start with any |
| Patrol.TrimEnd | Assets/Scripts/Patroller.cs:100 | what is left is the prefix of the input before its trailing white space: only white space is removed, and the result does not end with any |
| Patrol.ToInt32 | Assets/Scripts/Patroller.cs:100 | the conversion fails with a format error exactly when the text, trimmed, is not an optional sign and a non-empty run of digits; a well-formed text fails with an overflow exactly when its signed value is outside 32 bits; otherwise the result is that signed value |
| Patrol.SlotOf | Assets/Scripts/Patroller.cs:95-100 | Substring fails exactly when the first ')' is missing or lies inside the prefix; a number read otherwise fits in 32 bits |
| Patrol.Decimal | Assets/Scripts/Patroller.cs:97-100 | the decimal form of a number is a non-empty run of digits |
| Patrol.DecimalRoundTrip | Assets/Scripts/Patroller.cs:100 | the digits of k read back as k |
| Patrol.ToInt32OfDecimal | Assets/Scripts/Patroller.cs:100 | the conversion reads back the decimal form of any number in 32-bit range |
| Patrol.NothingToTrim | Assets/Scripts/Patroller.cs:100 | a run of digits has no white space to trim |
| Patrol.IndexOfFirst | Assets/Scripts/Patroller.cs:95 | the first ')' is the one after a prefix that has none |
| Patrol.Unclosed | Assets/Scripts/Patroller.cs:66 | neither the name prefix nor a run of digits contains ')' |
| Patrol.SlotOfName | Assets/Scripts/Patroller.cs:95-100 | the name of the waypoint numbered k, followed by anything, reads back as k |
| Patrol.UnclosedName | Assets/Scripts/Patroller.cs:97 | a waypoint name without ')' fails in Substring before any conversion |
| Patrol.Place | Assets/Scripts/Patroller.cs:87-111 | the array after the loop has as many slots as there are points |
| Patrol.ErrorSticks | Assets/Scripts/Patroller.cs:89-111 | once an exception has ended the loop, later points change nothing |
| Patrol.PlaceSucceeds | Assets/Scripts/Patroller.cs:97-103 | the loop runs to the end exactly when every point's number reads and is a slot of the array |
| Patrol.PlaceFirstError | Assets/Scripts/Patroller.cs:97-103 | the first point whose number cannot be read, or is below 0 or at least the array's length, ends the loop with the conversion's error or an out-of-range index, leaving the array as the points before it left it |
| Patrol.PlaceLast | Assets/Scripts/Patroller.cs:103 | the last point of a numbered run is stored at its number over what the others left |
| Patrol.PlaceAtNumbers | Assets/Scripts/Patroller.cs:103 | with distinct numbers that are slots, each point ends up at its own number |
| Patrol.PlaceFilled | Assets/Scripts/Patroller.cs:103 | with numbers that are slots, a slot is filled exactly when some point carries its number |
| Patrol.PlacePermutation | Assets/Scripts/Patroller.cs:84-113 | when N points carry the numbers 0..N-1 once each, the loop finishes, every slot is filled, and each point sits at its number |
| Patrol.Numbers | Assets/Scripts/Patroller.cs:100 | the numbers of such points are distinct slots of the array |
| Patrol.Range | Assets/Scripts/Patroller.cs:87 | helper of PlacePermutation: the slots of an array of n are exactly 0..n-1, n of them |
| Patrol.ImageSize | Assets/Scripts/Patroller.cs:103 | helper of PlacePermutation: n distinct numbers make a set of n |
| Patrol.Pigeonhole | Assets/Scripts/Patroller.cs:103 | helper of PlacePermutation: n distinct numbers below n take every value below n |
| Patrol.SubsetSize | Assets/Scripts/Patroller.cs:103 | helper of Pigeonhole: a subset is no larger than its superset |
| Patrol.NextIndex | Assets/Scripts/Patroller.cs:130-139 | from a slot of the array the next index is again a slot |
| Patrol.NextIndexWraps | Assets/Scripts/Patroller.cs:130-139 | from a slot the next index is the following one modulo the length |
| Patrol.AdvanceSplit | Assets/Scripts/Patroller.cs:130-139 | a+b arrivals are a arrivals followed by b |
| Patrol.AdvanceCounts | Assets/Scripts/Patroller.cs:137-138 | before the end of the array each arrival moves one slot on |
| Patrol.FullCircuit | Assets/Scripts/Patroller.cs:130-139 | from any waypoint, n arrivals later the patroller heads for the same one again, and it stays in range on the way |
| Patrol.FillSlots | Assets/Scripts/Patroller.cs:89-111 | the array after the loop, and the exception that ended it, are those of Place |
| Patrol.Patroller.constructor | Assets/Scripts/Patroller.cs:41-46 | a patroller before Start has no current waypoint |
| Patrol.Patroller.SetCurrentPatrolPoint | Assets/Scripts/Patroller.cs:48-52 | the current index is the given one and the current waypoint is that slot |
| Patrol.Patroller.GetUnsortedPatrolPoints | Assets/Scripts/Patroller.cs:55-75 | the result is the children with the prefix, in scan order |
| Patrol.Patroller.Start | Assets/Scripts/Patroller.cs:78-115 | with matches, a fresh array filled as Place says and, if no exception, slot 0 as the current waypoint; with none, nothing changes |
| Patrol.Patroller.Update | Assets/Scripts/Patroller.cs:118-149 | with a waypoint, step by MoveTowards; arrive exactly when the distance is at most moveSpeed * dt; on arrival head for the next index cyclically; otherwise turn 0.68 of the way toward the waypoint; without one, nothing changes |
| Wander.WanderingRegion.constructor | Assets/Scripts/WanderingRegion.cs:33 | the region has the given position and size |
| Wander.WanderingRegion.GetRandomPointWithin | Assets/Scripts/WanderingRegion.cs:35-41 | the point lies in the box's footprint at the region's height, whatever the sign of the size, and is the centre for a zero size |
| Wander.WanderingRegion.Awake | Assets/Scripts/WanderingRegion.cs:43-54 | every wanderer given has this region |
| Wander.Wanderer.constructor | Assets/Scripts/Wanderer.cs:38-64 | a placed wanderer is idle with no region and nothing scheduled |
| Wander.Wanderer.Retarget | Assets/Scripts/Wanderer.cs:68-86 | with a region: a new target in it, the turn from the current rotation toward it starting now, and BeginMoving scheduled after the turn and the wait; without one nothing changes |
| Wander.Wanderer.BeginMoving | Assets/Scripts/Wanderer.cs:89-96 | the model faces the target rotation exactly and the wanderer moves |
| Wander.Wanderer.Start | Assets/Scripts/Wanderer.cs:99-103 | a wanderer with a region picks a target in it and starts turning toward it now from its current rotation, with BeginMoving scheduled after the turn and the wait; one without a region is left as it is |
| Wander.Wanderer.Update | Assets/Scripts/Wanderer.cs:106-131 | moving: step by MoveTowards, arriving exactly when the distance is at most movespeed * dt, then go idle with one Retarget scheduled a random interval later; rotating: the rotation is the Slerp by the elapsed fraction of rotationTime; idle: nothing |
| Wander.Wanderer.FireDueCall | Assets/Scripts/Wanderer.cs:84 | a due call is removed and run: a turning wanderer faces its target and moves, keeping target and turn; an idle one retargets as Retarget states, or without a region stays idle with the call used up; the state stays or moves on by one phase; before that nothing changes |
| Wander.TurnCompletes | Assets/Scripts/Wanderer.cs:126-129 | the turn fraction reaches 1 exactly when rotationTime has passed, and then the model faces the target exactly |
| Spikes.LoweringHeight | Assets/Scripts/SpikeTrap.cs:95-101 | while lowering the height stays between the two heights and is the lowered one exactly when the phase's time is over |
| Spikes.RaisingHeight | Assets/Scripts/SpikeTrap.cs:115-121 | while raising the height stays between the two heights and is the full one exactly when the phase's time is over |
| Spikes.FractionMonotone | Assets/Scripts/SpikeTrap.cs:95 | the elapsed fraction of a phase grows strictly with the clock and is positive once the phase has begun |
| Spikes.LoweringNeverRises | Assets/Scripts/SpikeTrap.cs:95 | while lowering, a later frame never shows the spikes higher, and once the phase has begun strictly lower until they are down |
| Spikes.RaisingNeverSinks | Assets/Scripts/SpikeTrap.cs:115 | while raising, a later frame never shows the spikes lower, and once the phase has begun strictly higher until they are up |
| Spikes.PhaseEnds | Assets/Scripts/SpikeTrap.cs:101-121 | a phase begun at a given time is over, by the height, exactly when its duration has passed |
| Spikes.SpikeTrap.constructor | Assets/Scripts/SpikeTrap.cs:40-57 | a placed trap is lowered, has never switched, has nothing scheduled and keeps its height between the two heights |
| Spikes.SpikeTrap.StartRaising | Assets/Scripts/SpikeTrap.cs:66-71 | the raise starts now and the hitbox is on; the invariant keeps the collider off while the spikes rise, as it was switched off when they came down (SpikeTrap.cs:106) |
| Spikes.SpikeTrap.StartLowering | Assets/Scripts/SpikeTrap.cs:73-77 | the lowering starts now |
| Spikes.SpikeTrap.Start | Assets/Scripts/SpikeTrap.cs:79-84 | one StartLowering is scheduled interval seconds on |
| Spikes.SpikeTrap.Update | Assets/Scripts/SpikeTrap.cs:87-133 | lowering/raising: the height follows the clock, and on reaching the end the trap settles, switches the collider (and the hitbox off when up) and schedules the next phase; settled states change nothing; the invariant is kept |
| Spikes.SpikeTrap.FireDueCall | Assets/Scripts/SpikeTrap.cs:83 | a due call is removed and run: Lowered goes to Lowering or Raising and Raised to Lowering; only StartRaising switches the hitbox on, StartLowering leaves it as it was; before that nothing changes |

## Left out

- Rendering, the pause menu's layout and its "return to main menu" button, and scene loading are not modelled. They are engine collaborators without logic of these scripts.
- Collision is left to the engine. `CharacterController.Move` is not modelled: the methods return the requested displacement, and the player's position only changes through `Respawn`.
- Quaternions are symbolic terms, so the rotation arithmetic of `Slerp` is not modelled. `Quaternion.LookRotation`, the `.normalized` before it and assigning `Transform.forward` all become `LookAt` of the direction.
- Floating point: single-precision arithmetic and rounding become exact reals. `Vector3 ==` is Unity's approximate equality in the source and exact equality here.
- `Transform.SetParent(null)` and the `hideFlags` assignment in `Patroller.Start` are left out. They change only the scene hierarchy and the editor's display.
- `String.StartsWith` is compared ordinally, without culture rules. `Convert.ToInt32` accepts only ASCII digits with optional white space and sign. Culture-specific signs and other number styles are not modelled.
- Single-precision rounding: the spike height is compared with the end height exactly (SpikeTrap.cs:101, 121). In single precision, `3.6f + (0.08f - 3.6f) * 1` need not equal `0.08f`, so the source might never see the end of a phase. The model assumes the interpolation reaches the end height exactly.
- Spikes.SpikeTrap.constructor: requires the holder's starting height to lie between the lowered and the full height. The model assumes it; the source does not check it.
- Players.CoastStep has no contract of its own. Its properties are stated by BrakeFrame and CoastingProfile.
- Players.Player.Dashing: follows the source, so a dash falls short of dashDistance by up to one frame, and a diagonal dash covers sqrt(2) times the straight distance (DashFallsShort, DashDirectionLength). The model does not add a corrected dash that covers exactly dashDistance.
- Time.timeScale: Pausing records the time scale but does not model its effect. While paused the engine freezes `Time.time`, gives a `Time.deltaTime` of zero and holds back `Invoke` timers. The caller of Update and FireDueCall is expected to pass an unchanged `now` and a zero `dt` while the player is paused.
- Engine.MoveTowards: the caller supplies the Euclidean distance to the target, because Dafny has no square root.
- Patrol.Patroller.Start: requires that no waypoint is current yet. The engine calls `Start` once, before the first `Update`.
- Patrol.Patroller.Start: models an exception as the end of `Start`, with the array as far as it was filled. It does not model the exception's effect on the rest of the scene.
- Spikes.SpikeTrap.Update: assumes positive `lowerTime` and `raisetime`. Wander.Wanderer.Update assumes a positive `rotationTime`, and Players.Player.Update assumes the tuning `Valid`. With zero durations the source divides by zero; with a negative speed limit the velocity rules stop making sense.
- Wander.Wanderer.Retarget: a `null` region throws a `NullReferenceException` in the source. The model leaves the wanderer unchanged instead.
- Players.Player.Update: is only called on an enabled player. The engine does not call `Update` on a disabled component.
- `FireDueCall` runs at most one due call per class. That is all these scripts ever have scheduled at once, and each class invariant keeps it so. `CancelInvoke` is never used by these scripts and is not modelled.
