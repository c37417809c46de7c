/**
 * Wandering enemies (Assets/Scripts/Wanderer.cs) and the box-shaped region
 * they wander in (Assets/Scripts/WanderingRegion.cs). A wanderer picks a
 * random point of its region, turns toward it over rotationTime seconds,
 * waits postRotationWaitTime seconds, walks to it, then idles for a random
 * interval before picking the next point: Idle, Rotating, Moving, Idle.
 *
 * The clock reading and frame length are parameters, each Random.Range
 * call is given its uniform sample in [0, 1], and the deferred calls made
 * with Invoke are kept in a pending list that FireDueCall runs when due.
 */
module Wander {
  import opened Engine

  class WanderingRegion {
    /** The region's transform position and the size of its box. */
    var position: Vec3
    var size: Vec3

    constructor (position: Vec3, size: Vec3)
      ensures this.position == position && this.size == size
    {
      this.position := position;
      this.size := size;
    }

    /**
     * A random point of the box's footprint at the region's own height;
     * u and w are the samples for x and z. The box's height is not used.
     */
    function GetRandomPointWithin(u: real, w: real): (p: Vec3)
      requires 0.0 <= u <= 1.0 && 0.0 <= w <= 1.0
      reads this
      ensures size.x >= 0.0 ==> position.x - size.x / 2.0 <= p.x <= position.x + size.x / 2.0
      ensures size.z >= 0.0 ==> position.z - size.z / 2.0 <= p.z <= position.z + size.z / 2.0
      ensures Abs(p.x - position.x) <= Abs(size.x) / 2.0 && Abs(p.z - position.z) <= Abs(size.z) / 2.0
      ensures p.y == position.y
      ensures size.x == 0.0 && size.z == 0.0 ==> p == position
    {
      var x := position.x + RandomRange(size.x * -0.5, size.x * 0.5, u);
      var z := position.z + RandomRange(size.z * -0.5, size.z * 0.5, w);
      Vec3(x, position.y, z)
    }

    /** Make this the region of every wanderer below it in the scene. */
    method Awake(wanderers: seq<Wanderer>)
      modifies wanderers`region
      ensures forall v :: v in wanderers ==> v.region == this
    {
      var i := 0;
      while i < |wanderers|
        invariant 0 <= i <= |wanderers|
        invariant forall j :: 0 <= j < i ==> wanderers[j].region == this
      {
        wanderers[i].region := this;
        i := i + 1;
      }
    }
  }

  datatype State = Idle | Rotating | Moving {
    /** The state each phase hands over to. */
    function Next(): State {
      match this
      case Idle => Rotating
      case Rotating => Moving
      case Moving => Idle
    }
  }

  /** The two methods a wanderer schedules with Invoke. */
  datatype WandererCall = RetargetCall | BeginMovingCall

  class Wanderer {
    /** The inspector settings; the defaults are 18, 4.4, 6.2, 0.6 and 0.3. */
    const movespeed: real
    const minRetargetingInterval: real
    const maxRetargetingInterval: real
    const rotationTime: real
    const postRotationWaitTime: real

    var state: State
    var region: WanderingRegion?

    /** The root transform's position and the model's rotation. */
    var position: Vec3
    var rotation: Rotation

    var currentTarget: Vec3
    var initialRotation: Rotation
    var targetRotation: Rotation
    var rotationStartTime: real

    /** Calls scheduled with Invoke and not yet run. */
    var pending: seq<Invocation<WandererCall>>

    /**
     * The turn takes a positive time, and the schedule matches the state:
     * while rotating, exactly the one BeginMoving due when the turn and
     * the wait after it are over; while moving, nothing; while idle, at
     * most one Retarget.
     */
    ghost predicate Valid()
      reads this
    {
      rotationTime > 0.0 &&
      (state == Rotating ==>
        pending == [Invocation(BeginMovingCall, rotationStartTime + rotationTime + postRotationWaitTime)]) &&
      (state == Moving ==> pending == []) &&
      (state == Idle ==> |pending| <= 1 && (pending != [] ==> pending[0].name == RetargetCall))
    }

    /** A wanderer placed in the scene, before its region is assigned and before Start. */
    constructor (movespeed: real, minRetargetingInterval: real, maxRetargetingInterval: real,
                 rotationTime: real, postRotationWaitTime: real, position: Vec3, rotation: Rotation)
      requires rotationTime > 0.0
      ensures Valid()
      ensures this.movespeed == movespeed && this.rotationTime == rotationTime
      ensures this.minRetargetingInterval == minRetargetingInterval
      ensures this.maxRetargetingInterval == maxRetargetingInterval
      ensures this.postRotationWaitTime == postRotationWaitTime
      ensures this.position == position && this.rotation == rotation
      ensures state == Idle && region == null && pending == []
    {
      this.movespeed := movespeed;
      this.minRetargetingInterval := minRetargetingInterval;
      this.maxRetargetingInterval := maxRetargetingInterval;
      this.rotationTime := rotationTime;
      this.postRotationWaitTime := postRotationWaitTime;
      this.position := position;
      this.rotation := rotation;
      state := Idle;
      region := null;
      currentTarget := position;
      initialRotation := rotation;
      targetRotation := rotation;
      rotationStartTime := 0.0;
      pending := [];
    }

    /**
     * Pick a new target in the region and start turning toward it from the
     * current rotation, with BeginMoving scheduled for when the turn and
     * the wait after it are over. Without a region the first statement
     * throws and nothing changes. u and w are the samples for the point.
     */
    method Retarget(now: real, u: real, w: real)
      requires Valid() && state == Idle && pending == []
      requires 0.0 <= u <= 1.0 && 0.0 <= w <= 1.0
      modifies this`currentTarget, this`initialRotation, this`targetRotation, this`state,
        this`rotationStartTime, this`pending
      ensures Valid()
      ensures old(region) == null ==>
        unchanged(this`currentTarget, this`initialRotation, this`targetRotation, this`state,
          this`rotationStartTime, this`pending)
      ensures old(region) != null ==>
        currentTarget == region.GetRandomPointWithin(u, w) &&
        initialRotation == rotation &&
        targetRotation == LookAt(currentTarget.Minus(position)) &&
        state == Rotating && rotationStartTime == now &&
        pending == [Invocation(BeginMovingCall, now + rotationTime + postRotationWaitTime)]
    {
      if region != null {
        currentTarget := region.GetRandomPointWithin(u, w);
        initialRotation := rotation;
        targetRotation := LookAt(currentTarget.Minus(position));
        state := Rotating;
        rotationStartTime := now;
        pending := pending + [Invocation(BeginMovingCall, rotationTime + postRotationWaitTime + now)];
      }
    }

    /** End the turn facing the target exactly, and start walking. */
    method BeginMoving()
      requires rotationTime > 0.0 && state == Rotating && pending == []
      modifies this`rotation, this`state
      ensures Valid()
      ensures rotation == targetRotation && state == Moving
    {
      rotation := targetRotation;
      state := Moving;
    }

    /** Start retargets at once. */
    method Start(now: real, u: real, w: real)
      requires Valid() && state == Idle && pending == []
      requires 0.0 <= u <= 1.0 && 0.0 <= w <= 1.0
      modifies this`currentTarget, this`initialRotation, this`targetRotation, this`state,
        this`rotationStartTime, this`pending
      ensures Valid()
      ensures region != null ==>
        currentTarget == region.GetRandomPointWithin(u, w) &&
        initialRotation == rotation &&
        targetRotation == LookAt(currentTarget.Minus(position)) &&
        state == Rotating && rotationStartTime == now &&
        pending == [Invocation(BeginMovingCall, now + rotationTime + postRotationWaitTime)]
      ensures region == null ==>
        unchanged(this`currentTarget, this`initialRotation, this`targetRotation, this`state,
          this`rotationStartTime, this`pending)
    {
      Retarget(now, u, w);
    }

    /**
     * One frame. Moving: step toward the target by movespeed * dt, and on
     * reaching it go idle and schedule Retarget after a random interval
     * between the two bounds (v is its sample). Rotating: turn from the
     * initial to the target rotation by the elapsed fraction of
     * rotationTime. Idle: nothing. `distance` is the distance from the
     * position to the target before the step.
     */
    method Update(now: real, dt: real, distance: real, v: real)
      requires Valid() && dt >= 0.0 && 0.0 <= v <= 1.0
      requires state == Moving ==>
        distance >= 0.0 && distance * distance == SqrDistance(position, currentTarget)
      modifies this`position, this`rotation, this`state, this`pending
      ensures Valid()
      ensures old(state) == Idle ==> unchanged(this`position, this`rotation, this`state, this`pending)
      ensures old(state) == Rotating ==>
        rotation == Slerp(initialRotation, targetRotation, Fraction(now, At(rotationStartTime), rotationTime)) &&
        unchanged(this`position, this`state, this`pending)
      ensures old(state) == Moving ==>
        position == MoveTowards(old(position), currentTarget, movespeed * dt, distance) &&
        rotation == old(rotation)
      ensures old(state) == Moving && movespeed >= 0.0 ==>
        (position == currentTarget <==> distance <= movespeed * dt)
      ensures old(state) == Moving && position == currentTarget ==>
        state == Idle &&
        pending == [Invocation(RetargetCall, now + RandomRange(minRetargetingInterval, maxRetargetingInterval, v))]
      ensures old(state) == Moving && position != currentTarget ==> state == Moving && pending == []
    {
      if state == Moving {
        if movespeed >= 0.0 { MulNonNegative(movespeed, dt); }
        var next := MoveTowards(position, currentTarget, movespeed * dt, distance);
        var arrived := next == currentTarget;
        assert movespeed >= 0.0 ==> (arrived <==> distance <= movespeed * dt);
        position := next;
        if arrived {
          state := Idle;
          pending := pending + [Invocation(RetargetCall, now + RandomRange(minRetargetingInterval, maxRetargetingInterval, v))];
        }
      } else if state == Rotating {
        var timeSpentRotating := now - rotationStartTime;
        rotation := Slerp(initialRotation, targetRotation, timeSpentRotating / rotationTime);
      }
    }

    /**
     * The engine's timer: when the scheduled call is due, it is taken off
     * the list and run. u and w are the samples a Retarget would use.
     */
    method FireDueCall(now: real, u: real, w: real)
      requires Valid() && 0.0 <= u <= 1.0 && 0.0 <= w <= 1.0
      modifies this`currentTarget, this`initialRotation, this`targetRotation, this`state,
        this`rotationStartTime, this`pending, this`rotation
      ensures Valid()
      ensures old(pending) == [] || old(pending[0].due) > now ==>
        unchanged(this`currentTarget, this`initialRotation, this`targetRotation, this`state,
          this`rotationStartTime, this`pending, this`rotation)
      ensures old(pending) != [] && old(pending[0].due) <= now && old(state) == Rotating ==>
        state == Moving && rotation == targetRotation && pending == [] &&
        unchanged(this`currentTarget, this`initialRotation, this`targetRotation, this`rotationStartTime)
      ensures old(pending) != [] && old(pending[0].due) <= now && old(state) == Idle && region != null ==>
        currentTarget == region.GetRandomPointWithin(u, w) &&
        initialRotation == rotation && rotation == old(rotation) &&
        targetRotation == LookAt(currentTarget.Minus(position)) &&
        state == Rotating && rotationStartTime == now &&
        pending == [Invocation(BeginMovingCall, now + rotationTime + postRotationWaitTime)]
      // Without a region Retarget throws at once: the call is used up and the wanderer stays idle.
      ensures old(pending) != [] && old(pending[0].due) <= now && old(state) == Idle && region == null ==>
        state == Idle && pending == [] &&
        unchanged(this`currentTarget, this`initialRotation, this`targetRotation, this`rotationStartTime, this`rotation)
      ensures state == old(state) || state == old(state).Next()
    {
      if pending != [] && pending[0].due <= now {
        var call := pending[0];
        pending := [];
        match call.name {
          case BeginMovingCall => BeginMoving();
          case RetargetCall => Retarget(now, u, w);
        }
      }
    }
  }

  /** Once rotationTime has passed since the turn began, the model faces the target exactly. */
  lemma TurnCompletes(initial: Rotation, target: Rotation, start: real, rotationTime: real, now: real)
    requires rotationTime > 0.0
    ensures now - start >= rotationTime <==>
      Fraction(now, At(start), rotationTime) >= 1.0
    ensures now - start >= rotationTime ==>
      Slerp(initial, target, Fraction(now, At(start), rotationTime)) == target
  {
  }
}
