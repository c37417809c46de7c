/**
 * The spike trap (Assets/Scripts/SpikeTrap.cs): spikes that rise, stay up,
 * sink and stay down, over and over. While rising or sinking, the height
 * of the spike holder is a clamped interpolation of the time since the
 * phase began; a hitbox that kills the player is switched on when the
 * spikes start to rise and off once they are up, and a collider that
 * blocks the player is on while they are up and off once they are down.
 *
 * The clock reading is a parameter, and the deferred calls made with
 * Invoke are kept in a pending list that FireDueCall runs when due.
 */
module Spikes {
  import opened Engine

  datatype State = Lowered | Lowering | Raising | Raised

  /** The y scale of the spike holder when fully up and when fully down. */
  const SpikeHeight: real := 3.6
  const LoweredSpikeHeight: real := 0.08

  /** The two methods a trap schedules with Invoke. */
  datatype TrapCall = StartRaisingCall | StartLoweringCall

  /** The height lowerTime-th of the way down from the top, by the time since `since`. */
  function LoweringHeight(now: real, since: Stamp, lowerTime: real): (h: real)
    requires lowerTime > 0.0
    ensures LoweredSpikeHeight <= h <= SpikeHeight
    ensures h == LoweredSpikeHeight <==> Fraction(now, since, lowerTime) >= 1.0
  {
    Lerp(SpikeHeight, LoweredSpikeHeight, Fraction(now, since, lowerTime))
  }

  /** The height on the way up, by the time since `since`, over raiseTime seconds. */
  function RaisingHeight(now: real, since: Stamp, raiseTime: real): (h: real)
    requires raiseTime > 0.0
    ensures LoweredSpikeHeight <= h <= SpikeHeight
    ensures h == SpikeHeight <==> Fraction(now, since, raiseTime) >= 1.0
  {
    Lerp(LoweredSpikeHeight, SpikeHeight, Fraction(now, since, raiseTime))
  }

  /** The elapsed fraction of a phase grows with the clock. */
  lemma FractionMonotone(since: real, duration: real, t1: real, t2: real)
    requires duration > 0.0 && t1 <= t2
    ensures Fraction(t1, At(since), duration) <= Fraction(t2, At(since), duration)
    ensures t1 < t2 ==> Fraction(t1, At(since), duration) < Fraction(t2, At(since), duration)
    ensures since < t2 ==> Fraction(t2, At(since), duration) > 0.0
  {
    var f1, f2 := (t1 - since) / duration, (t2 - since) / duration;
    assert f2 - f1 == (t2 - t1) / duration;
    if t1 < t2 {
      assert (t2 - t1) / duration > 0.0;
    }
    if since < t2 {
      assert (t2 - since) / duration > 0.0;
    }
  }

  /**
   * While lowering, the spikes never rise: later readings of the clock give
   * lower (or equal) heights, and once the phase has begun strictly lower
   * until they are down.
   */
  lemma LoweringNeverRises(since: real, lowerTime: real, t1: real, t2: real)
    requires lowerTime > 0.0 && t1 <= t2
    ensures LoweringHeight(t1, At(since), lowerTime) >= LoweringHeight(t2, At(since), lowerTime)
    ensures since < t2 && t1 < t2 && LoweringHeight(t1, At(since), lowerTime) != LoweredSpikeHeight ==>
      LoweringHeight(t1, At(since), lowerTime) > LoweringHeight(t2, At(since), lowerTime)
  {
    FractionMonotone(since, lowerTime, t1, t2);
    var f1, f2 := Fraction(t1, At(since), lowerTime), Fraction(t2, At(since), lowerTime);
    LerpMonotone(SpikeHeight, LoweredSpikeHeight, f1, f2);
    if t1 < t2 && f1 < 1.0 && f2 > 0.0 {
      LerpStrictlyMonotone(SpikeHeight, LoweredSpikeHeight, f1, f2);
    }
  }

  /**
   * While raising, the spikes never sink: later readings of the clock give
   * greater (or equal) heights, and once the phase has begun strictly
   * greater until they are up.
   */
  lemma RaisingNeverSinks(since: real, raiseTime: real, t1: real, t2: real)
    requires raiseTime > 0.0 && t1 <= t2
    ensures RaisingHeight(t1, At(since), raiseTime) <= RaisingHeight(t2, At(since), raiseTime)
    ensures since < t2 && t1 < t2 && RaisingHeight(t1, At(since), raiseTime) != SpikeHeight ==>
      RaisingHeight(t1, At(since), raiseTime) < RaisingHeight(t2, At(since), raiseTime)
  {
    FractionMonotone(since, raiseTime, t1, t2);
    var f1, f2 := Fraction(t1, At(since), raiseTime), Fraction(t2, At(since), raiseTime);
    LerpMonotone(LoweredSpikeHeight, SpikeHeight, f1, f2);
    if t1 < t2 && f1 < 1.0 && f2 > 0.0 {
      LerpStrictlyMonotone(LoweredSpikeHeight, SpikeHeight, f1, f2);
    }
  }

  /** A phase that began at `since` is over, by the height, exactly when its duration has passed. */
  lemma PhaseEnds(since: real, lowerTime: real, raiseTime: real, now: real)
    requires lowerTime > 0.0 && raiseTime > 0.0
    ensures LoweringHeight(now, At(since), lowerTime) == LoweredSpikeHeight <==> now - since >= lowerTime
    ensures RaisingHeight(now, At(since), raiseTime) == SpikeHeight <==> now - since >= raiseTime
  {
  }

  class SpikeTrap {
    /** The inspector settings; the defaults are 2, 0.3, 0.6 and 0.08 seconds. */
    const interval: real
    const raiseWaitTime: real
    const lowerTime: real
    const raisetime: real

    var state: State
    var lastSwitchTime: Stamp

    /** The y scale of the spike holder. */
    var height: real

    /** Whether the hitbox and the collider game objects are active. */
    var hitboxActive: bool
    var colliderActive: bool

    /** Calls scheduled with Invoke and not yet run. */
    var pending: seq<Invocation<TrapCall>>

    /**
     * The phases take a positive time and the spikes are never outside
     * their two heights; at most one call is scheduled, and
     * which one matches the state: none while the spikes move, StartLowering
     * while they are up, and while they are down either nothing (before
     * Start), the first StartLowering, or StartRaising. The flags follow the
     * state: while rising the hitbox is on and the collider off; while up the collider is on and
     * the hitbox off; once down after a lowering the collider is off.
     */
    ghost predicate Valid()
      reads this
    {
      lowerTime > 0.0 && raisetime > 0.0 &&
      LoweredSpikeHeight <= height <= SpikeHeight &&
      |pending| <= 1 &&
      ((state == Lowering || state == Raising) ==> pending == [] && lastSwitchTime.At?) &&
      (state == Raising ==> hitboxActive && !colliderActive) &&
      (state == Raised ==>
        |pending| == 1 && pending[0].name == StartLoweringCall &&
        colliderActive && !hitboxActive && height == SpikeHeight) &&
      (state == Lowered && pending != [] && pending[0].name == StartRaisingCall ==>
        !colliderActive && height == LoweredSpikeHeight)
    }

    /**
     * A trap placed in the scene, with the holder's starting scale between
     * the two heights and the flags as the scene leaves them.
     */
    constructor (interval: real, raiseWaitTime: real, lowerTime: real, raisetime: real,
                 height: real, hitboxActive: bool, colliderActive: bool)
      requires lowerTime > 0.0 && raisetime > 0.0
      requires LoweredSpikeHeight <= height <= SpikeHeight
      ensures Valid()
      ensures this.interval == interval && this.raiseWaitTime == raiseWaitTime
      ensures this.lowerTime == lowerTime && this.raisetime == raisetime
      ensures this.height == height && this.hitboxActive == hitboxActive && this.colliderActive == colliderActive
      ensures state == Lowered && lastSwitchTime == NegativeInfinity && pending == []
    {
      this.interval := interval;
      this.raiseWaitTime := raiseWaitTime;
      this.lowerTime := lowerTime;
      this.raisetime := raisetime;
      this.height := height;
      this.hitboxActive := hitboxActive;
      this.colliderActive := colliderActive;
      state := Lowered;
      lastSwitchTime := NegativeInfinity;
      pending := [];
    }

    /** The spikes start to rise now, and the hitbox is switched on. */
    method StartRaising(now: real)
      requires lowerTime > 0.0 && raisetime > 0.0 && LoweredSpikeHeight <= height <= SpikeHeight
      requires state == Lowered && pending == [] && !colliderActive
      modifies this`lastSwitchTime, this`state, this`hitboxActive
      ensures Valid()
      ensures lastSwitchTime == At(now) && state == Raising && hitboxActive
    {
      lastSwitchTime := At(now);
      state := Raising;
      hitboxActive := true;
    }

    /** The spikes start to sink now. */
    method StartLowering(now: real)
      requires lowerTime > 0.0 && raisetime > 0.0 && LoweredSpikeHeight <= height <= SpikeHeight
      requires (state == Lowered || state == Raised) && pending == []
      modifies this`lastSwitchTime, this`state
      ensures Valid()
      ensures lastSwitchTime == At(now) && state == Lowering
    {
      lastSwitchTime := At(now);
      state := Lowering;
    }

    /** Start schedules the first StartLowering `interval` seconds from now. */
    method Start(now: real)
      requires Valid() && state == Lowered && pending == []
      modifies this`pending
      ensures Valid()
      ensures pending == [Invocation(StartLoweringCall, now + interval)]
    {
      pending := pending + [Invocation(StartLoweringCall, now + interval)];
    }

    /**
     * One frame. Lowering: the height follows the clock down from the top;
     * once it is all the way down the trap is Lowered, the collider goes
     * off and StartRaising is scheduled `interval` seconds later. Raising:
     * the height follows the clock up; once it is all the way up the trap is
     * Raised, the collider goes on, the hitbox off, and StartLowering is
     * scheduled raiseWaitTime seconds later. Lowered and Raised: nothing.
     */
    method Update(now: real)
      requires Valid()
      modifies this`height, this`state, this`pending, this`colliderActive, this`hitboxActive
      ensures Valid()
      ensures old(state) == Lowered || old(state) == Raised ==>
        unchanged(this`height, this`state, this`pending, this`colliderActive, this`hitboxActive)
      ensures old(state) == Lowering ==>
        height == LoweringHeight(now, lastSwitchTime, lowerTime) && hitboxActive == old(hitboxActive)
      ensures old(state) == Lowering && height == LoweredSpikeHeight ==>
        state == Lowered && !colliderActive &&
        pending == [Invocation(StartRaisingCall, now + interval)]
      ensures old(state) == Lowering && height != LoweredSpikeHeight ==>
        unchanged(this`state, this`pending, this`colliderActive)
      ensures old(state) == Raising ==>
        height == RaisingHeight(now, lastSwitchTime, raisetime)
      ensures old(state) == Raising && height == SpikeHeight ==>
        state == Raised && colliderActive && !hitboxActive &&
        pending == [Invocation(StartLoweringCall, now + raiseWaitTime)]
      ensures old(state) == Raising && height != SpikeHeight ==>
        unchanged(this`state, this`pending, this`colliderActive, this`hitboxActive)
    {
      if state == Lowering {
        var scaleY := Lerp(SpikeHeight, LoweredSpikeHeight, Fraction(now, lastSwitchTime, lowerTime));
        height := scaleY;
        if scaleY == LoweredSpikeHeight {
          pending := pending + [Invocation(StartRaisingCall, now + interval)];
          state := Lowered;
          colliderActive := false;
        }
      } else if state == Raising {
        var scaleY := Lerp(LoweredSpikeHeight, SpikeHeight, Fraction(now, lastSwitchTime, raisetime));
        height := scaleY;
        if scaleY == SpikeHeight {
          pending := pending + [Invocation(StartLoweringCall, now + raiseWaitTime)];
          state := Raised;
          colliderActive := true;
          hitboxActive := false;
        }
      }
    }

    /**
     * The engine's timer: when the scheduled call is due, it is taken off
     * the list and run. The trap only ever goes Lowered to Lowering (the
     * first call) or Raising, and Raised to Lowering.
     */
    method FireDueCall(now: real)
      requires Valid()
      modifies this`lastSwitchTime, this`state, this`hitboxActive, this`pending
      ensures Valid()
      ensures old(pending) == [] || old(pending[0].due) > now ==>
        unchanged(this`lastSwitchTime, this`state, this`hitboxActive, this`pending)
      ensures old(pending) != [] && old(pending[0].due) <= now ==>
        pending == [] && lastSwitchTime == At(now) &&
        state == (if old(pending[0].name) == StartRaisingCall then Raising else Lowering) &&
        hitboxActive == (old(pending[0].name) == StartRaisingCall || old(hitboxActive))
      ensures old(state) == Raised ==> state == Raised || state == Lowering
      ensures old(state) == Lowered ==> state == Lowered || state == Lowering || state == Raising
    {
      if pending != [] && pending[0].due <= now {
        var call := pending[0];
        pending := [];
        match call.name {
          case StartRaisingCall => StartRaising(now);
          case StartLoweringCall => StartLowering(now);
        }
      }
    }
  }
}
