/**
 * The player character (Assets/Scripts/Player.cs): velocity on the x and z
 * axes that builds up, brakes and decays with the movement keys, a timed
 * dash with a cool-down, death with a deferred respawn, and the pause key.
 *
 * One call of Update is one frame. The frame's clock reading (Time.time),
 * its length (Time.deltaTime) and the keyboard state are parameters; the
 * displacements handed to CharacterController.Move are returned to the
 * caller, which owns collision and so the resulting position.
 */
module Players {
  import opened Engine

  /** The inspector settings of the player. */
  datatype Tuning = Tuning(
    moveSpeed: real,
    timeToMaxSpeed: real,
    respawnWaitTime: real,
    dashDistance: real,
    dashTime: real,
    dashCoolDown: real,
    reverseMomentumMultiplier: real,
    timeToLoseMaxSpeed: real)
  {
    /** Settings under which the rates below exist and the velocity rules hold. */
    predicate Valid() {
      moveSpeed >= 0.0 && timeToMaxSpeed > 0.0 && timeToLoseMaxSpeed > 0.0 &&
      reverseMomentumMultiplier >= 0.0 && dashTime > 0.0 && dashCoolDown >= 0.0
    }

    /** Speed gained per second: from rest, full speed after timeToMaxSpeed seconds. */
    function VelocityGainPerSecond(): (rate: real)
      requires Valid()
      ensures rate >= 0.0 && rate * timeToMaxSpeed == moveSpeed
    {
      moveSpeed / timeToMaxSpeed
    }

    /** Speed lost per second: from full speed, rest after timeToLoseMaxSpeed seconds. */
    function VelocityLossPerSecond(): (rate: real)
      requires Valid()
      ensures rate >= 0.0 && rate * timeToLoseMaxSpeed == moveSpeed
    {
      moveSpeed / timeToLoseMaxSpeed
    }

    /** The quantities one frame of movement works with. */
    function FrameRates(): (r: Rates)
      requires Valid()
      ensures r.Valid() && r.moveSpeed == moveSpeed
      ensures r.gain * timeToMaxSpeed == moveSpeed && r.loss * timeToLoseMaxSpeed == moveSpeed
    {
      Rates(moveSpeed, VelocityGainPerSecond(), reverseMomentumMultiplier, VelocityLossPerSecond())
    }
  }

  /** The field initialisers of Player. */
  const DefaultTuning: Tuning := Tuning(24.0, 0.26, 2.0, 17.0, 0.26, 1.8, 2.2, 0.2)

  /**
   * The speed limit, the gain and loss per second, and the multiplier for
   * braking against the current motion.
   */
  datatype Rates = Rates(moveSpeed: real, gain: real, reverseMultiplier: real, loss: real) {
    predicate Valid() {
      moveSpeed >= 0.0 && gain >= 0.0 && reverseMultiplier >= 0.0 && loss >= 0.0
    }
  }

  /**
   * The keyboard in one frame: which movement and dash keys are held, and
   * whether Escape and T went down this frame.
   */
  datatype Keys = Keys(
    w: bool, upArrow: bool, s: bool, downArrow: bool,
    d: bool, rightArrow: bool, a: bool, leftArrow: bool,
    space: bool, escapePressed: bool, tPressed: bool)
  {
    predicate Forward() { w || upArrow }
    predicate Back() { s || downArrow }
    predicate Right() { d || rightArrow }
    predicate Left() { a || leftArrow }
  }

  lemma StepsNonNegative(r: Rates, dt: real)
    requires r.Valid() && dt >= 0.0
    ensures r.gain * dt >= 0.0
    ensures r.gain * r.reverseMultiplier * dt >= 0.0
    ensures r.loss * dt >= 0.0
  {
    MulNonNegative(r.gain, dt);
    MulNonNegative(r.gain, r.reverseMultiplier);
    MulNonNegative(r.gain * r.reverseMultiplier, dt);
    MulNonNegative(r.loss, dt);
  }

  /**
   * One frame of velocity change on one axis. `positive` is the key pair
   * that pushes toward +moveSpeed (W/Up on z, D/Right on x), `negative` the
   * pair that pushes toward -moveSpeed; the positive pair wins when both
   * are held. Pushing against the current motion brakes at the reverse
   * multiple of the gain and stops at zero; with no key the velocity decays
   * toward zero.
   */
  function AxisStep(v: real, positive: bool, negative: bool, r: Rates, dt: real): (w: real)
    // The positive pair wins; speeding up stops at the limit and braking at zero.
    ensures positive && v >= 0.0 ==> w <= r.moveSpeed
    ensures positive && v < 0.0 ==> w <= 0.0
    ensures !positive && negative && v > 0.0 ==> w >= 0.0
    ensures !positive && negative && v <= 0.0 ==> w >= -r.moveSpeed
  {
    if positive then
      if v >= 0.0 then AccelFrame(v, r.moveSpeed, r.gain, dt)
      else Min(0.0, v + r.gain * r.reverseMultiplier * dt)
    else if negative then
      if v > 0.0 then Max(0.0, v - r.gain * r.reverseMultiplier * dt)
      else Max(-r.moveSpeed, v - r.gain * dt)
    else CoastFrame(v, r.loss, dt)
  }

  /** What one frame of AxisStep does to the velocity on its axis. */
  lemma AxisStepBounds(v: real, positive: bool, negative: bool, r: Rates, dt: real)
    requires r.Valid() && dt >= 0.0
    // The speed limit is kept.
    ensures Abs(v) <= r.moveSpeed ==> Abs(AxisStep(v, positive, negative, r, dt)) <= r.moveSpeed
    // Pushing along the motion (or from rest) speeds up, never beyond moveSpeed.
    ensures positive && 0.0 <= v <= r.moveSpeed ==>
      v <= AxisStep(v, positive, negative, r, dt) <= r.moveSpeed
    ensures !positive && negative && -r.moveSpeed <= v <= 0.0 ==>
      -r.moveSpeed <= AxisStep(v, positive, negative, r, dt) <= v
    // Pushing against the motion brakes, and the braking frame stops at zero.
    ensures positive && v < 0.0 ==> v <= AxisStep(v, positive, negative, r, dt) <= 0.0
    ensures !positive && negative && v > 0.0 ==> 0.0 <= AxisStep(v, positive, negative, r, dt) <= v
    // With neither key the velocity decays toward zero without changing sign.
    ensures !positive && !negative && v >= 0.0 ==> 0.0 <= AxisStep(v, positive, negative, r, dt) <= v
    ensures !positive && !negative && v <= 0.0 ==> v <= AxisStep(v, positive, negative, r, dt) <= 0.0
    // A frame of no length changes nothing.
    ensures dt == 0.0 && Abs(v) <= r.moveSpeed ==> AxisStep(v, positive, negative, r, dt) == v
  {
    StepsNonNegative(r, dt);
    if positive {
      if v < 0.0 {
        BrakeFrame(v, r.gain * r.reverseMultiplier * dt);
      } else if v <= r.moveSpeed {
        RiseFrame(v, r.moveSpeed, r.gain * dt);
      }
    } else if negative {
      if v > 0.0 {
        BrakeFrame(v, r.gain * r.reverseMultiplier * dt);
      } else if -r.moveSpeed <= v {
        RiseFrame(-v, r.moveSpeed, r.gain * dt);
      }
    } else {
      BrakeFrame(v, r.loss * dt);
    }
  }

  /** Adding `a` to a speed in [0, cap] and capping at cap stays in [v, cap]. */
  lemma RiseFrame(v: real, cap: real, a: real)
    requires a >= 0.0 && 0.0 <= v <= cap
    ensures v <= Min(cap, v + a) <= cap && Max(-cap, -v - a) == -Min(cap, v + a)
    ensures a == 0.0 ==> Min(cap, v + a) == v
  {
  }

  /** Taking `a` off the size of a speed, stopping at zero, stays between the speed and zero. */
  lemma BrakeFrame(v: real, a: real)
    requires a >= 0.0
    ensures v > 0.0 ==> 0.0 <= Max(0.0, v - a) <= v
    ensures v < 0.0 ==> v <= Min(0.0, v + a) <= 0.0
    ensures 0.0 <= CoastStep(v, a) <= v || v <= CoastStep(v, a) <= 0.0
    ensures v >= 0.0 ==> CoastStep(v, a) >= 0.0
    ensures v <= 0.0 ==> CoastStep(v, a) <= 0.0
    ensures a == 0.0 ==> CoastStep(v, a) == v
    ensures a == 0.0 && v > 0.0 ==> Max(0.0, v - a) == v
    ensures a == 0.0 && v < 0.0 ==> Min(0.0, v + a) == v
  {
  }

  /**
   * The direction of a dash: one unit along z for the forward or back keys
   * and along x for the right or left keys, forward over back and right
   * over left.
   */
  function DashDirection(keys: Keys): (dir: Vec3)
    ensures dir.y == 0.0
    ensures keys.Forward() ==> dir.z == 1.0
    ensures keys.Back() && !keys.Forward() ==> dir.z == -1.0
    ensures !keys.Forward() && !keys.Back() ==> dir.z == 0.0
    ensures keys.Right() ==> dir.x == 1.0
    ensures keys.Left() && !keys.Right() ==> dir.x == -1.0
    ensures !keys.Right() && !keys.Left() ==> dir.x == 0.0
    ensures dir == Zero <==> !keys.Forward() && !keys.Back() && !keys.Right() && !keys.Left()
  {
    var z := if keys.Forward() then 1.0 else if keys.Back() then -1.0 else 0.0;
    var x := if keys.Right() then 1.0 else if keys.Left() then -1.0 else 0.0;
    Vec3(x, 0.0, z)
  }

  /** One frame of ordinary movement: an AxisStep on x and on z with their key pairs. */
  function FrameVelocity(v: Vec3, keys: Keys, r: Rates, dt: real): Vec3 {
    Vec3(AxisStep(v.x, keys.Right(), keys.Left(), r, dt), v.y, AxisStep(v.z, keys.Forward(), keys.Back(), r, dt))
  }

  // Several frames in a row with the same keys held.

  /** Frame lengths are never negative. */
  predicate Frames(dts: seq<real>) {
    forall i :: 0 <= i < |dts| ==> dts[i] >= 0.0
  }

  /** The total length of a run of frames. */
  function Duration(dts: seq<real>): real {
    if dts == [] then 0.0 else dts[0] + Duration(dts[1..])
  }

  lemma RestFrames(dts: seq<real>)
    requires Frames(dts) && dts != []
    ensures dts[0] >= 0.0 && Frames(dts[1..])
  {
    forall i | 0 <= i < |dts[1..]| ensures dts[1..][i] >= 0.0 {
      assert dts[1..][i] == dts[i + 1];
    }
  }

  /** The axis velocity after the frames dts with the same keys held throughout. */
  function Hold(v: real, positive: bool, negative: bool, r: Rates, dts: seq<real>): real
    decreases |dts|
  {
    if dts == [] then v
    else Hold(AxisStep(v, positive, negative, r, dts[0]), positive, negative, r, dts[1..])
  }

  /** Frame after frame, speed up by rate * dt without passing cap. */
  function Accelerating(v: real, cap: real, rate: real, dts: seq<real>): real
    decreases |dts|
  {
    if dts == [] then v
    else Accelerating(AccelFrame(v, cap, rate, dts[0]), cap, rate, dts[1..])
  }

  /** Frame after frame, slow down toward zero by rate * dt without passing it. */
  function Coasting(v: real, rate: real, dts: seq<real>): real
    decreases |dts|
  {
    if dts == [] then v
    else Coasting(CoastFrame(v, rate, dts[0]), rate, dts[1..])
  }

  /** One frame of acceleration: rate * dt onto the speed, up to cap. */
  function AccelFrame(v: real, cap: real, rate: real, dt: real): real {
    Min(cap, v + rate * dt)
  }

  /** One frame of coasting: rate * dt off the speed. */
  function CoastFrame(v: real, rate: real, dt: real): real {
    CoastStep(v, rate * dt)
  }

  /** Take amount off the speed, stopping at zero. */
  function CoastStep(v: real, amount: real): real {
    if v > 0.0 then Max(0.0, v - amount) else Min(0.0, v + amount)
  }

  /** The change rate * dt summed over the frames. */
  function Gained(rate: real, dts: seq<real>): real
    decreases |dts|
  {
    if dts == [] then 0.0 else rate * dts[0] + Gained(rate, dts[1..])
  }

  lemma {:induction false} GainedNonNegative(rate: real, dts: seq<real>)
    requires rate >= 0.0 && Frames(dts)
    ensures Gained(rate, dts) >= 0.0
    decreases |dts|
  {
    if dts != [] {
      RestFrames(dts);
      MulNonNegative(rate, dts[0]);
      GainedNonNegative(rate, dts[1..]);
    }
  }

  /** However the time is split into frames, the change is the rate times the total time. */
  lemma {:induction false} GainedIsRateTimesDuration(rate: real, dts: seq<real>)
    ensures Gained(rate, dts) == rate * Duration(dts)
    decreases |dts|
  {
    if dts != [] {
      GainedIsRateTimesDuration(rate, dts[1..]);
      Distribute(rate, dts[0], Duration(dts[1..]));
    }
  }

  /** Holding a key along the motion (or from rest) is capped acceleration at the gain rate. */
  lemma {:induction false} HoldIsAccelerating(v: real, negative: bool, r: Rates, dts: seq<real>)
    requires r.Valid() && Frames(dts) && 0.0 <= v <= r.moveSpeed
    ensures Hold(v, true, negative, r, dts) == Accelerating(v, r.moveSpeed, r.gain, dts)
    decreases |dts|
  {
    if dts != [] {
      RestFrames(dts);
      AxisStepBounds(v, true, negative, r, dts[0]);
      HoldIsAccelerating(AccelFrame(v, r.moveSpeed, r.gain, dts[0]), negative, r, dts[1..]);
    }
  }

  /**
   * Holding only a key of the negative pair from a speed between
   * -moveSpeed and zero is the mirror image of capped acceleration.
   */
  lemma {:induction false} HoldBackIsAccelerating(v: real, r: Rates, dts: seq<real>)
    requires r.Valid() && Frames(dts) && -r.moveSpeed <= v <= 0.0
    ensures Hold(v, false, true, r, dts) == -Accelerating(-v, r.moveSpeed, r.gain, dts)
    decreases |dts|
  {
    if dts != [] {
      RestFrames(dts);
      StepsNonNegative(r, dts[0]);
      RiseFrame(-v, r.moveSpeed, r.gain * dts[0]);
      var w := AccelFrame(-v, r.moveSpeed, r.gain, dts[0]);
      assert AxisStep(v, false, true, r, dts[0]) == -w;
      HoldBackIsAccelerating(-w, r, dts[1..]);
      assert -(-w) == w;
    }
  }

  /** Holding no key is coasting at the loss rate. */
  lemma {:induction false} HoldIsCoasting(v: real, r: Rates, dts: seq<real>)
    ensures Hold(v, false, false, r, dts) == Coasting(v, r.loss, dts)
    decreases |dts|
  {
    if dts != [] {
      HoldIsCoasting(CoastFrame(v, r.loss, dts[0]), r, dts[1..]);
    }
  }

  /**
   * Capped acceleration: the velocity grows by the rate times the time
   * held, up to the cap, however the time is split into frames.
   */
  lemma {:induction false} AccelerationProfile(v: real, cap: real, rate: real, dts: seq<real>)
    requires Frames(dts) && rate >= 0.0 && v <= cap
    ensures Accelerating(v, cap, rate, dts) == Min(cap, v + Gained(rate, dts))
    decreases |dts|
  {
    if dts != [] {
      RestFrames(dts);
      MulNonNegative(rate, dts[0]);
      AccelerationProfile(Min(cap, v + rate * dts[0]), cap, rate, dts[1..]);
      GainedNonNegative(rate, dts[1..]);
      CapTwice(cap, v, rate * dts[0], Gained(rate, dts[1..]));
    }
  }

  lemma CapTwice(m: real, v: real, a: real, b: real)
    requires 0.0 <= a && 0.0 <= b && v <= m
    ensures Min(m, Min(m, v + a) + b) == Min(m, v + (a + b))
  {
  }

  /**
   * Coasting: the speed falls by the rate times the time elapsed, down to
   * zero, and the direction of motion never flips.
   */
  lemma {:induction false} CoastingProfile(v: real, rate: real, dts: seq<real>)
    requires Frames(dts) && rate >= 0.0
    ensures Abs(Coasting(v, rate, dts)) == Max(0.0, Abs(v) - Gained(rate, dts))
    ensures v >= 0.0 ==> Coasting(v, rate, dts) >= 0.0
    ensures v <= 0.0 ==> Coasting(v, rate, dts) <= 0.0
    decreases |dts|
  {
    if dts != [] {
      RestFrames(dts);
      MulNonNegative(rate, dts[0]);
      CoastingProfile(CoastStep(v, rate * dts[0]), rate, dts[1..]);
      GainedNonNegative(rate, dts[1..]);
      DecayTwice(Abs(v), rate * dts[0], Gained(rate, dts[1..]));
    }
  }

  lemma DecayTwice(x: real, a: real, b: real)
    requires 0.0 <= a && 0.0 <= b
    ensures Max(0.0, Max(0.0, x - a) - b) == Max(0.0, x - (a + b))
  {
  }

  /** Capped acceleration from rest reaches the cap once rate * time covers it. */
  lemma {:induction false} FullSpeedFromRest(cap: real, rate: real, dts: seq<real>)
    requires Frames(dts) && rate >= 0.0 && cap >= 0.0
    ensures Accelerating(0.0, cap, rate, dts) == cap <==> rate * Duration(dts) >= cap
  {
    AccelerationProfile(0.0, cap, rate, dts);
    GainedIsRateTimesDuration(rate, dts);
  }

  /** Coasting ends at rest once rate * time covers the starting speed, never reversing. */
  lemma {:induction false} CoastToRest(v: real, rate: real, dts: seq<real>)
    requires Frames(dts) && rate >= 0.0
    ensures rate * Duration(dts) >= Abs(v) ==> Coasting(v, rate, dts) == 0.0
    ensures v >= 0.0 ==> Coasting(v, rate, dts) >= 0.0
    ensures v <= 0.0 ==> Coasting(v, rate, dts) <= 0.0
  {
    CoastingProfile(v, rate, dts);
    GainedIsRateTimesDuration(rate, dts);
    DecayedAway(Coasting(v, rate, dts), Abs(v), Gained(rate, dts));
  }

  /** A speed whose size is what is left of x after taking g off is zero once g covers x. */
  lemma DecayedAway(c: real, x: real, g: real)
    requires Abs(c) == Max(0.0, x - g)
    ensures g >= x ==> c == 0.0
  {
  }

  /** At a rate that covers `total` in `needed` seconds, `held` >= `needed` seconds cover anything up to it. */
  lemma RateCovers(total: real, rate: real, needed: real, held: real, x: real)
    requires rate >= 0.0 && rate * needed == total && held >= needed && x <= total
    ensures rate * held >= x
  {
    MulMonotone(rate, needed, held);
  }

  /**
   * At a rate that covers `total` in `needed` seconds, what is covered in
   * `held` seconds reaches the total exactly when held >= needed.
   */
  lemma RateReaches(total: real, rate: real, needed: real, held: real)
    requires total > 0.0 && rate >= 0.0 && rate * needed == total
    ensures rate * held >= total <==> held >= needed
  {
    if held >= needed {
      MulMonotone(rate, needed, held);
    } else if rate > 0.0 {
      MulStrictlyMonotone(rate, held, needed);
    }
  }

  /**
   * Holding a direction from rest, full speed is reached exactly when the
   * key has been held for timeToMaxSpeed seconds in total.
   */
  lemma {:induction false} ReachesMaxSpeed(negative: bool, t: Tuning, dts: seq<real>)
    requires t.Valid() && Frames(dts) && t.moveSpeed > 0.0
    ensures Hold(0.0, true, negative, t.FrameRates(), dts) == t.moveSpeed <==>
      Duration(dts) >= t.timeToMaxSpeed
  {
    var r := t.FrameRates();
    HoldIsAccelerating(0.0, negative, r, dts);
    AcceleratesToCapWithin(r.moveSpeed, r.gain, t.timeToMaxSpeed, dts);
  }

  /**
   * Holding only a key of the negative pair from rest, full speed the
   * other way is reached exactly when the key has been held for
   * timeToMaxSpeed seconds in total.
   */
  lemma {:induction false} ReachesMaxSpeedBack(t: Tuning, dts: seq<real>)
    requires t.Valid() && Frames(dts) && t.moveSpeed > 0.0
    ensures Hold(0.0, false, true, t.FrameRates(), dts) == -t.moveSpeed <==>
      Duration(dts) >= t.timeToMaxSpeed
  {
    var r := t.FrameRates();
    HoldBackIsAccelerating(0.0, r, dts);
    assert -0.0 == 0.0;
    AcceleratesToCapWithin(r.moveSpeed, r.gain, t.timeToMaxSpeed, dts);
  }

  /** Accelerating from rest at a rate that covers `cap` in `needed` seconds reaches it exactly then. */
  lemma {:induction false} AcceleratesToCapWithin(cap: real, rate: real, needed: real, dts: seq<real>)
    requires Frames(dts) && cap > 0.0 && rate >= 0.0 && rate * needed == cap
    ensures Accelerating(0.0, cap, rate, dts) == cap <==> Duration(dts) >= needed
  {
    FullSpeedFromRest(cap, rate, dts);
    RateReaches(cap, rate, needed, Duration(dts));
  }

  /**
   * Letting go of the keys brings the player to rest within
   * timeToLoseMaxSpeed seconds from any speed up to moveSpeed.
   */
  lemma {:induction false} StopsWithin(v: real, t: Tuning, dts: seq<real>)
    requires t.Valid() && Frames(dts) && Abs(v) <= t.moveSpeed
    requires Duration(dts) >= t.timeToLoseMaxSpeed
    ensures Hold(v, false, false, t.FrameRates(), dts) == 0.0
  {
    var r := t.FrameRates();
    CoastsToRestWithin(v, r.moveSpeed, r.loss, t.timeToLoseMaxSpeed, dts);
    HoldIsCoasting(v, r, dts);
  }

  /** Coasting at a rate that covers `total` in `needed` seconds stops from any speed up to it. */
  lemma {:induction false} CoastsToRestWithin(v: real, total: real, rate: real, needed: real, dts: seq<real>)
    requires Frames(dts) && rate >= 0.0 && rate * needed == total && Abs(v) <= total
    requires Duration(dts) >= needed
    ensures Coasting(v, rate, dts) == 0.0
  {
    RateCovers(total, rate, needed, Duration(dts), Abs(v));
    CoastToRest(v, rate, dts);
  }

  /** Letting go of the keys never reverses the direction of motion. */
  lemma {:induction false} CoastingNeverReverses(v: real, r: Rates, dts: seq<real>)
    requires r.Valid() && Frames(dts)
    ensures v >= 0.0 ==> Hold(v, false, false, r, dts) >= 0.0
    ensures v <= 0.0 ==> Hold(v, false, false, r, dts) <= 0.0
  {
    HoldIsCoasting(v, r, dts);
    CoastToRest(v, r.loss, dts);
  }

  // The distance a dash covers over the frames after the one that starts it.

  /**
   * The time the frames spend inside a dash window of dashTime seconds,
   * `elapsed` seconds after the dash began: a frame of length dt ending
   * inside the window counts in full, later frames not at all.
   */
  function InWindow(elapsed: real, dashTime: real, dts: seq<real>): real
    decreases |dts|
  {
    if dts == [] then 0.0
    else
      var e := elapsed + dts[0];
      (if e < dashTime then dts[0] else 0.0) + InWindow(e, dashTime, dts[1..])
  }

  /**
   * What the dash frames move along the dash direction, in multiples of
   * its length: speed * dt for each frame whose time is still inside the
   * window.
   */
  function DashTravel(elapsed: real, dashTime: real, speed: real, dts: seq<real>): real
    decreases |dts|
  {
    if dts == [] then 0.0
    else
      var e := elapsed + dts[0];
      (if e < dashTime then speed * dts[0] else 0.0) + DashTravel(e, dashTime, speed, dts[1..])
  }

  lemma {:induction false} DurationNonNegative(dts: seq<real>)
    requires Frames(dts)
    ensures Duration(dts) >= 0.0
    decreases |dts|
  {
    if dts != [] {
      RestFrames(dts);
      DurationNonNegative(dts[1..]);
    }
  }

  /**
   * The time inside the window is never more than what is left of it,
   * strictly less while the window is open, all of the frames' time when
   * they end inside it, and nothing once it has closed.
   */
  lemma {:induction false} InWindowBounds(elapsed: real, dashTime: real, dts: seq<real>)
    requires Frames(dts)
    ensures InWindow(elapsed, dashTime, dts) >= 0.0
    ensures elapsed < dashTime ==> InWindow(elapsed, dashTime, dts) < dashTime - elapsed
    ensures elapsed >= dashTime ==> InWindow(elapsed, dashTime, dts) == 0.0
    ensures elapsed + Duration(dts) < dashTime ==> InWindow(elapsed, dashTime, dts) == Duration(dts)
    decreases |dts|
  {
    if dts != [] {
      RestFrames(dts);
      DurationNonNegative(dts[1..]);
      InWindowBounds(elapsed + dts[0], dashTime, dts[1..]);
    }
  }

  /**
   * Frames of at most m seconds that run past the end of the window leave
   * at most m of it unused: the last frame inside ends at most m before the end.
   */
  lemma {:induction false} InWindowShortfall(elapsed: real, dashTime: real, m: real, dts: seq<real>)
    requires Frames(dts) && FramesAtMost(dts, m)
    requires elapsed < dashTime <= elapsed + Duration(dts)
    ensures InWindow(elapsed, dashTime, dts) >= dashTime - elapsed - m
    decreases |dts|
  {
    RestFrames(dts);
    InWindowBounds(elapsed + dts[0], dashTime, dts[1..]);
    if elapsed + dts[0] < dashTime {
      forall i | 0 <= i < |dts[1..]| ensures dts[1..][i] <= m {
        assert dts[1..][i] == dts[i + 1];
      }
      InWindowShortfall(elapsed + dts[0], dashTime, m, dts[1..]);
    }
  }

  /** No frame is longer than m seconds. */
  predicate FramesAtMost(dts: seq<real>, m: real) {
    forall i :: 0 <= i < |dts| ==> dts[i] <= m
  }

  /** The dash covers its speed times the time spent inside the window. */
  lemma {:induction false} DashTravelIsSpeedTimesTime(elapsed: real, dashTime: real, speed: real, dts: seq<real>)
    ensures DashTravel(elapsed, dashTime, speed, dts) == speed * InWindow(elapsed, dashTime, dts)
    decreases |dts|
  {
    if dts != [] {
      var e := elapsed + dts[0];
      var rest := InWindow(e, dashTime, dts[1..]);
      DashTravelIsSpeedTimesTime(e, dashTime, speed, dts[1..]);
      if e < dashTime {
        Distribute(speed, dts[0], rest);
      } else {
        assert speed * (0.0 + rest) == speed * rest;
      }
    }
  }

  /**
   * The dash that starts in a frame moves dashDistance / dashTime per
   * second in the frames after it while they end inside the window. It
   * covers that speed times the time inside the window, which falls short
   * of dashDistance: by at most one frame when the frames run past the
   * window, and by the unused rest of it when they stop earlier.
   */
  lemma {:induction false} DashFallsShort(t: Tuning, m: real, dts: seq<real>)
    requires t.Valid() && t.dashDistance > 0.0 && Frames(dts)
    ensures 0.0 <= DashTravel(0.0, t.dashTime, t.dashDistance / t.dashTime, dts) < t.dashDistance
    ensures Duration(dts) < t.dashTime ==>
      DashTravel(0.0, t.dashTime, t.dashDistance / t.dashTime, dts) ==
        t.dashDistance / t.dashTime * Duration(dts)
    ensures FramesAtMost(dts, m) && Duration(dts) >= t.dashTime ==>
      DashTravel(0.0, t.dashTime, t.dashDistance / t.dashTime, dts) >=
        t.dashDistance - t.dashDistance / t.dashTime * m
  {
    MulPositive(t.dashDistance, 1.0 / t.dashTime);
    TravelBounds(t.dashDistance / t.dashTime, t.dashTime, t.dashDistance, m, dts);
  }

  /** DashFallsShort for any speed that covers `distance` in `dashTime` seconds. */
  lemma {:induction false} TravelBounds(speed: real, dashTime: real, distance: real, m: real, dts: seq<real>)
    requires speed > 0.0 && dashTime > 0.0 && speed * dashTime == distance && Frames(dts)
    ensures 0.0 <= DashTravel(0.0, dashTime, speed, dts) < distance
    ensures Duration(dts) < dashTime ==> DashTravel(0.0, dashTime, speed, dts) == speed * Duration(dts)
    ensures FramesAtMost(dts, m) && Duration(dts) >= dashTime ==>
      DashTravel(0.0, dashTime, speed, dts) >= distance - speed * m
  {
    DashTravelIsSpeedTimesTime(0.0, dashTime, speed, dts);
    InWindowBounds(0.0, dashTime, dts);
    if FramesAtMost(dts, m) && Duration(dts) >= dashTime {
      InWindowShortfall(0.0, dashTime, m, dts);
    }
    ScaledWindow(speed, dashTime, distance, m, InWindow(0.0, dashTime, dts), Duration(dts));
  }

  /** The arithmetic of TravelBounds: speed times a time inside the window. */
  lemma ScaledWindow(speed: real, dashTime: real, distance: real, m: real, inside: real, duration: real)
    requires speed > 0.0 && speed * dashTime == distance
    requires 0.0 <= inside < dashTime
    ensures 0.0 <= speed * inside < distance
    ensures inside == duration ==> speed * inside == speed * duration
    ensures inside >= dashTime - m ==> speed * inside >= distance - speed * m
  {
    MulNonNegative(speed, inside);
    MulStrictlyMonotone(speed, inside, dashTime);
    if inside >= dashTime - m {
      MulMonotone(speed, dashTime - m, inside);
      Distribute(speed, dashTime, -m);
    }
  }

  /**
   * The squared length of the dash direction is the number of key pairs
   * held: 1 along one axis, 2 on a diagonal, so a diagonal dash covers
   * sqrt(2) times the travel along a single axis.
   */
  lemma DashDirectionLength(keys: Keys)
    ensures DashDirection(keys).SqrMagnitude() ==
      (if keys.Forward() || keys.Back() then 1.0 else 0.0) +
      (if keys.Right() || keys.Left() then 1.0 else 0.0)
  {
  }

  /** The only call a player schedules with Invoke. */
  datatype PlayerCall = RespawnCall

  class Player {
    const tuning: Tuning

    /** The transform's position and the model holder's rotation. */
    var position: Vec3
    var rotation: Rotation

    var movementVelocity: Vec3
    var dead: bool
    var spawnPoint: Vec3
    var spawnRotation: Rotation
    var dashDirection: Vec3
    var dashBeginTime: Stamp
    var paused: bool

    /** The component, its CharacterController and the model's game object. */
    var enabled: bool
    var controllerEnabled: bool
    var modelActive: bool

    /** Time.timeScale, which this script owns. */
    var timeScale: real

    /** Calls scheduled with Invoke and not yet run. */
    var pending: seq<Invocation<PlayerCall>>

    /**
     * The velocity lies in the ground plane within the speed limit; a dead
     * player is switched off, at rest, not dashing, and waits for exactly one
     * respawn; the time scale follows the pause flag.
     */
    ghost predicate Valid()
      reads this
    {
      tuning.Valid() &&
      movementVelocity.y == 0.0 &&
      Abs(movementVelocity.x) <= tuning.moveSpeed &&
      Abs(movementVelocity.z) <= tuning.moveSpeed &&
      timeScale == (if paused then 0.0 else 1.0) &&
      |pending| <= 1 &&
      (dead <==> |pending| == 1) &&
      (|pending| == 1 ==> pending[0].name == RespawnCall) &&
      (dead ==> !enabled && !controllerEnabled && !modelActive &&
                movementVelocity == Zero && dashBeginTime == NegativeInfinity)
    }

    /** A player placed in the scene; the level menu decides whether it starts enabled. */
    constructor (tuning: Tuning, position: Vec3, rotation: Rotation, enabled: bool)
      requires tuning.Valid()
      ensures Valid()
      ensures this.tuning == tuning && this.position == position && this.rotation == rotation
      ensures this.enabled == enabled && controllerEnabled && modelActive
      ensures movementVelocity == Zero && !dead && dashBeginTime == NegativeInfinity
      ensures !paused && timeScale == 1.0 && pending == []
    {
      this.tuning := tuning;
      this.position := position;
      this.rotation := rotation;
      this.enabled := enabled;
      movementVelocity := Zero;
      dead := false;
      spawnPoint := Zero;
      spawnRotation := Orientation(0);
      dashDirection := Zero;
      dashBeginTime := NegativeInfinity;
      paused := false;
      controllerEnabled := true;
      modelActive := true;
      timeScale := 1.0;
      pending := [];
    }

    /** The dash that began at dashBeginTime is still under way at now. */
    function IsDashing(now: real): (dashing: bool)
      reads this
      ensures dashBeginTime.NegativeInfinity? ==> !dashing
      ensures tuning.dashTime > 0.0 && dashBeginTime == At(now) ==> dashing
      ensures dashBeginTime.At? ==> (dashing <==> now - dashBeginTime.time < tuning.dashTime)
    {
      Below(now, dashBeginTime.Plus(tuning.dashTime))
    }

    /**
     * The dash and its cool-down are both over. This also gates ordinary
     * movement, so the player cannot steer from the start of a dash until
     * its cool-down has passed.
     */
    function CanDashNow(now: real): (can: bool)
      reads this
      ensures tuning.dashCoolDown >= 0.0 && can ==> !IsDashing(now)
      ensures dashBeginTime.NegativeInfinity? ==> can && !IsDashing(now)
      ensures tuning.Valid() && dashBeginTime.At? && now <= dashBeginTime.time ==> !can
      // After a dash the gate opens again once the dash and the cool-down have passed.
      ensures dashBeginTime.At? ==> (can <==> now - dashBeginTime.time > tuning.dashTime + tuning.dashCoolDown)
    {
      Above(now, dashBeginTime.Plus(tuning.dashTime).Plus(tuning.dashCoolDown))
    }

    /**
     * The escape key toggles the pause flag, and the time scale follows it:
     * zero while paused, one otherwise.
     */
    method Pausing(escapePressed: bool)
      requires Valid()
      modifies this`paused, this`timeScale
      ensures Valid()
      ensures paused == (old(paused) != escapePressed)
      ensures timeScale == (if paused then 0.0 else 1.0)
    {
      if escapePressed {
        paused := !paused;
        if paused {
          timeScale := 0.0;
        } else {
          timeScale := 1.0;
        }
      }
    }

    /** The "resume game" button of the pause menu. */
    method Resume()
      requires Valid()
      modifies this`paused, this`timeScale
      ensures Valid()
      ensures !paused && timeScale == 1.0
    {
      paused := false;
      timeScale := 1.0;
    }

    /**
     * Ordinary movement, outside a dash and its cool-down: each axis takes
     * one AxisStep with its key pair, and if the player is moving at all,
     * it asks to move by velocity times the frame length and turns the
     * model toward the direction of motion.
     */
    method Movement(now: real, dt: real, keys: Keys) returns (move: Option<Vec3>)
      requires Valid() && enabled && dt >= 0.0
      modifies this`movementVelocity, this`rotation
      ensures Valid()
      ensures !IsDashing(now) && CanDashNow(now) ==>
        movementVelocity == FrameVelocity(old(movementVelocity), keys, tuning.FrameRates(), dt)
      ensures !IsDashing(now) && CanDashNow(now) && movementVelocity != Zero ==>
        move == Some(movementVelocity.Scale(dt)) &&
        rotation == Slerp(old(rotation), LookAt(movementVelocity), 0.18)
      ensures !(!IsDashing(now) && CanDashNow(now)) ==> movementVelocity == old(movementVelocity)
      ensures !(!IsDashing(now) && CanDashNow(now) && movementVelocity != Zero) ==>
        move == None && rotation == old(rotation)
    {
      move := None;
      if !IsDashing(now) && CanDashNow(now) {
        var rates := tuning.FrameRates();
        AxisStepBounds(movementVelocity.z, keys.Forward(), keys.Back(), rates, dt);
        movementVelocity := movementVelocity.(z := AxisStep(movementVelocity.z, keys.Forward(), keys.Back(), rates, dt));
        AxisStepBounds(movementVelocity.x, keys.Right(), keys.Left(), rates, dt);
        movementVelocity := movementVelocity.(x := AxisStep(movementVelocity.x, keys.Right(), keys.Left(), rates, dt));
        if movementVelocity.x != 0.0 || movementVelocity.z != 0.0 {
          move := Some(movementVelocity.Scale(dt));
          rotation := Slerp(rotation, LookAt(movementVelocity), 0.18);
        }
      }
    }

    /**
     * Outside a dash, holding space with a movement key starts one: the dash
     * direction is fixed, the clock is recorded, the velocity becomes full
     * speed along it and the model faces it. The start is held back only by
     * a dash in progress, not by the cool-down. During a dash, the player
     * asks to move dashDistance / dashTime units per second along it.
     */
    method Dashing(now: real, dt: real, keys: Keys) returns (move: Option<Vec3>)
      requires Valid() && enabled && dt >= 0.0
      modifies this`dashDirection, this`dashBeginTime, this`movementVelocity, this`rotation
      ensures Valid()
      ensures old(IsDashing(now)) ==>
        move == Some(dashDirection.Scale(tuning.dashDistance / tuning.dashTime).Scale(dt)) &&
        unchanged(this`dashDirection, this`dashBeginTime, this`movementVelocity, this`rotation)
      ensures !old(IsDashing(now)) && keys.space && DashDirection(keys) != Zero ==>
        move == None &&
        dashDirection == DashDirection(keys) && dashBeginTime == At(now) &&
        movementVelocity == dashDirection.Scale(tuning.moveSpeed) &&
        rotation == LookAt(dashDirection) &&
        IsDashing(now)
      ensures !old(IsDashing(now)) && !(keys.space && DashDirection(keys) != Zero) ==>
        move == None &&
        unchanged(this`dashDirection, this`dashBeginTime, this`movementVelocity, this`rotation)
    {
      move := None;
      if !IsDashing(now) {
        if keys.space {
          var movementDir := Zero;
          if keys.Forward() {
            movementDir := movementDir.(z := 1.0);
          } else if keys.Back() {
            movementDir := movementDir.(z := -1.0);
          }
          if keys.Right() {
            movementDir := movementDir.(x := 1.0);
          } else if keys.Left() {
            movementDir := movementDir.(x := -1.0);
          }
          if movementDir.x != 0.0 || movementDir.z != 0.0 {
            dashDirection := movementDir;
            dashBeginTime := At(now);
            movementVelocity := dashDirection.Scale(tuning.moveSpeed);
            rotation := LookAt(dashDirection);
          }
        }
      } else {
        move := Some(dashDirection.Scale(tuning.dashDistance / tuning.dashTime).Scale(dt));
      }
    }

    /**
     * Puts a live player back at its spawn point and switches it on again.
     * Only the scheduled respawn calls it here.
     */
    method Respawn()
      modifies this`dead, this`position, this`enabled, this`controllerEnabled,
               this`modelActive, this`rotation
      ensures !dead && position == spawnPoint && rotation == spawnRotation
      ensures enabled && controllerEnabled && modelActive
    {
      dead := false;
      position := spawnPoint;
      enabled := true;
      controllerEnabled := true;
      modelActive := true;
      rotation := spawnRotation;
    }

    /**
     * Kills a live player: it stops, is switched off, any dash is cancelled
     * and a respawn is scheduled respawnWaitTime seconds on. A dead player
     * is left as it is, so no second respawn is ever scheduled.
     */
    method Die(now: real)
      requires Valid()
      modifies this
      ensures Valid() && dead
      ensures old(dead) ==> unchanged(this)
      ensures !old(dead) ==>
        pending == old(pending) + [Invocation(RespawnCall, now + tuning.respawnWaitTime)] &&
        movementVelocity == Zero && !enabled && !controllerEnabled && !modelActive &&
        dashBeginTime == NegativeInfinity &&
        position == old(position) && rotation == old(rotation) &&
        spawnPoint == old(spawnPoint) && spawnRotation == old(spawnRotation) &&
        dashDirection == old(dashDirection) && paused == old(paused) &&
        timeScale == old(timeScale)
      // Once dead, no dash is running and the next one may start at any time.
      ensures forall t: real :: !IsDashing(t) && CanDashNow(t)
    {
      if !dead {
        dead := true;
        pending := pending + [Invocation(RespawnCall, now + tuning.respawnWaitTime)];
        movementVelocity := Zero;
        enabled := false;
        controllerEnabled := false;
        modelActive := false;
        dashBeginTime := NegativeInfinity;
      }
    }

    /**
     * The engine's timer: once the scheduled respawn is due it is taken off
     * the queue and run; before that nothing happens.
     */
    method FireDueCall(now: real)
      requires Valid()
      modifies this
      ensures Valid()
      ensures old(|pending| == 1 && pending[0].due <= now) ==>
        pending == [] && !dead && enabled && controllerEnabled && modelActive &&
        position == spawnPoint && rotation == spawnRotation &&
        spawnPoint == old(spawnPoint) && spawnRotation == old(spawnRotation) &&
        movementVelocity == Zero && dashBeginTime == NegativeInfinity
      ensures !old(|pending| == 1 && pending[0].due <= now) ==> unchanged(this)
      ensures paused == old(paused) && timeScale == old(timeScale) && dashDirection == old(dashDirection)
    {
      if |pending| == 1 && pending[0].due <= now {
        pending := [];
        Respawn();
      }
    }

    /** Records where the player starts, as the point it respawns at. */
    method Start()
      requires Valid()
      modifies this`spawnPoint, this`spawnRotation
      ensures Valid()
      ensures spawnPoint == position && spawnRotation == rotation
    {
      spawnPoint := position;
      spawnRotation := rotation;
    }

    /** The part of a frame that runs only while the game is not paused: movement, then dashing. */
    method MoveAndDash(now: real, dt: real, keys: Keys) returns (moves: seq<Vec3>)
      requires Valid() && enabled && dt >= 0.0
      modifies this`movementVelocity, this`rotation, this`dashDirection, this`dashBeginTime
      ensures Valid()
      ensures
        var gated := !old(IsDashing(now)) && old(CanDashNow(now));
        var stepped := FrameVelocity(old(movementVelocity), keys, tuning.FrameRates(), dt);
        var starts := !old(IsDashing(now)) && keys.space && DashDirection(keys) != Zero;
        && moves ==
          (if gated && stepped != Zero then [stepped.Scale(dt)] else []) +
          (if old(IsDashing(now)) then [old(dashDirection).Scale(tuning.dashDistance / tuning.dashTime).Scale(dt)] else [])
        && dashDirection == (if starts then DashDirection(keys) else old(dashDirection))
        && rotation ==
          (if starts then LookAt(DashDirection(keys))
           else if gated && stepped != Zero then Slerp(old(rotation), LookAt(stepped), 0.18)
           else old(rotation))
        && movementVelocity ==
          (if starts then DashDirection(keys).Scale(tuning.moveSpeed)
           else if gated then stepped
           else old(movementVelocity))
        && dashBeginTime == (if starts then At(now) else old(dashBeginTime))
    {
      var m := Movement(now, dt, keys);
      var d := Dashing(now, dt, keys);
      moves := (if m.Some? then [m.value] else []) + (if d.Some? then [d.value] else []);
    }

    /**
     * One frame: unless paused, movement and then dashing; then the pause
     * key; then T kills the player. Returns the displacements requested of
     * the character controller, in order.
     */
    method Update(now: real, dt: real, keys: Keys) returns (moves: seq<Vec3>)
      requires Valid() && enabled && dt >= 0.0
      modifies this
      ensures Valid()
      ensures |moves| <= 2
      ensures paused == (old(paused) != keys.escapePressed)
      ensures dead == keys.tPressed
      ensures keys.tPressed ==> pending == [Invocation(RespawnCall, now + tuning.respawnWaitTime)]
      ensures !keys.tPressed ==> pending == []
      // While paused the player neither moves nor starts a dash.
      ensures old(paused) ==> moves == [] && rotation == old(rotation) && dashDirection == old(dashDirection)
      ensures old(paused) && !keys.tPressed ==>
        movementVelocity == old(movementVelocity) && dashBeginTime == old(dashBeginTime)
      // Otherwise ordinary movement (when no dash or cool-down is running) and then dashing.
      ensures !old(paused) ==>
        var gated := !old(IsDashing(now)) && old(CanDashNow(now));
        var stepped := FrameVelocity(old(movementVelocity), keys, tuning.FrameRates(), dt);
        var starts := !old(IsDashing(now)) && keys.space && DashDirection(keys) != Zero;
        && moves ==
          (if gated && stepped != Zero then [stepped.Scale(dt)] else []) +
          (if old(IsDashing(now)) then [old(dashDirection).Scale(tuning.dashDistance / tuning.dashTime).Scale(dt)] else [])
        && dashDirection == (if starts then DashDirection(keys) else old(dashDirection))
        && rotation ==
          (if starts then LookAt(DashDirection(keys))
           else if gated && stepped != Zero then Slerp(old(rotation), LookAt(stepped), 0.18)
           else old(rotation))
        && (!keys.tPressed ==>
          movementVelocity ==
            (if starts then DashDirection(keys).Scale(tuning.moveSpeed)
             else if gated then stepped
             else old(movementVelocity)) &&
          dashBeginTime == (if starts then At(now) else old(dashBeginTime)))
      // T kills the player; otherwise it stays switched on.
      ensures keys.tPressed ==>
        movementVelocity == Zero && dashBeginTime == NegativeInfinity &&
        !enabled && !controllerEnabled && !modelActive
      ensures !keys.tPressed ==> enabled && controllerEnabled == old(controllerEnabled) && modelActive == old(modelActive)
      // The character controller moves the player; this script never sets the position.
      ensures position == old(position)
      ensures spawnPoint == old(spawnPoint) && spawnRotation == old(spawnRotation)
    {
      moves := [];
      if !paused {
        moves := MoveAndDash(now, dt, keys);
      }
      Pausing(keys.escapePressed);
      if keys.tPressed {
        Die(now);
      }
    }
  }

  /** The shipped settings satisfy the conditions the velocity rules need. */
  lemma DefaultTuningValid()
    ensures DefaultTuning.Valid()
  {
  }
}
