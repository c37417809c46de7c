/**
 * The engine primitives the game scripts rely on, as values: 3D vectors,
 * rotations, clamped interpolation, timestamps that may be minus infinity,
 * random samples and deferred (Invoke) calls.
 *
 * Single-precision floats become reals; the engine clock and the random
 * generator become parameters of the operations that use them.
 */
module Engine {

  function Min(a: real, b: real): real { if a <= b then a else b }
  function Max(a: real, b: real): real { if a >= b then a else b }
  function Abs(a: real): real { if a >= 0.0 then a else -a }

  /** Mathf.Clamp01. */
  function Clamp01(t: real): (r: real)
    ensures 0.0 <= r <= 1.0
    ensures 0.0 <= t <= 1.0 ==> r == t
    ensures t < 0.0 ==> r == 0.0
    ensures t > 1.0 ==> r == 1.0
  {
    if t < 0.0 then 0.0 else if t > 1.0 then 1.0 else t
  }

  /** A 3D vector (Vector3). */
  datatype Vec3 = Vec3(x: real, y: real, z: real) {
    function Plus(v: Vec3): Vec3 { Vec3(x + v.x, y + v.y, z + v.z) }
    function Minus(v: Vec3): Vec3 { Vec3(x - v.x, y - v.y, z - v.z) }
    function Scale(k: real): Vec3 { Vec3(k * x, k * y, k * z) }
    function SqrMagnitude(): real { x * x + y * y + z * z }
  }

  const Zero: Vec3 := Vec3(0.0, 0.0, 0.0)

  function SqrDistance(a: Vec3, b: Vec3): real { b.Minus(a).SqrMagnitude() }

  // Nonlinear facts about reals that the solver does not find on its own.

  lemma MulNonNegative(x: real, y: real)
    requires 0.0 <= x && 0.0 <= y
    ensures 0.0 <= x * y
  {
  }

  lemma MulPositive(x: real, y: real)
    requires 0.0 < x && 0.0 < y
    ensures 0.0 < x * y
  {
  }

  lemma MulNonZero(x: real, y: real)
    requires x != 0.0 && y != 0.0
    ensures x * y != 0.0
  {
    if x > 0.0 && y > 0.0 { MulPositive(x, y); }
    else if x > 0.0 { MulPositive(x, -y); assert x * (-y) == -(x * y); }
    else if y > 0.0 { MulPositive(-x, y); assert (-x) * y == -(x * y); }
    else { MulPositive(-x, -y); assert (-x) * (-y) == x * y; }
  }

  lemma Distribute(k: real, a: real, b: real)
    ensures k * (a + b) == k * a + k * b
  {
  }

  lemma MulMonotone(k: real, a: real, b: real)
    requires 0.0 <= k && a <= b
    ensures k * a <= k * b
  {
    MulNonNegative(k, b - a);
    assert k * (b - a) == k * b - k * a;
  }

  lemma MulStrictlyMonotone(k: real, a: real, b: real)
    requires 0.0 < k && a < b
    ensures k * a < k * b
  {
    MulPositive(k, b - a);
    assert k * (b - a) == k * b - k * a;
  }

  /** Squaring keeps the order of non-negative numbers. */
  lemma SquareOrder(a: real, b: real)
    requires 0.0 <= a && 0.0 <= b
    ensures a <= b <==> a * a <= b * b
  {
    assert b * b - a * a == (b - a) * (b + a);
    if a <= b {
      MulNonNegative(b - a, b + a);
    } else {
      MulPositive(a - b, a + b);
      assert a * a - b * b == (a - b) * (a + b);
    }
  }

  /**
   * Vector3.MoveTowards: step from current toward target by maxDelta,
   * snapping to the target when it is no farther than maxDelta. Dafny has
   * no square root, so the caller supplies distance, the Euclidean
   * distance between the two points.
   */
  function MoveTowards(current: Vec3, target: Vec3, maxDelta: real, distance: real): (r: Vec3)
    requires distance >= 0.0 && distance * distance == SqrDistance(current, target)
    ensures maxDelta >= 0.0 ==> (r == target <==> distance <= maxDelta)
  {
    var toTarget := target.Minus(current);
    var sq := toTarget.SqrMagnitude();
    SnapCondition(distance, maxDelta);
    if sq == 0.0 || (maxDelta >= 0.0 && sq <= maxDelta * maxDelta) then
      target
    else if maxDelta >= 0.0 then
      NonZeroVector(toTarget);
      FractionBelowOne(maxDelta, distance);
      StopsShort(current, toTarget, maxDelta / distance);
      current.Plus(toTarget.Scale(maxDelta / distance))
    else
      current.Plus(toTarget.Scale(maxDelta / distance))
  }

  /** For a non-negative step, comparing squares is comparing distances. */
  lemma SnapCondition(distance: real, maxDelta: real)
    requires distance >= 0.0
    ensures maxDelta >= 0.0 ==> (distance * distance <= maxDelta * maxDelta <==> distance <= maxDelta)
  {
    if maxDelta >= 0.0 { SquareOrder(distance, maxDelta); }
  }

  lemma NonZeroVector(v: Vec3)
    requires v.SqrMagnitude() != 0.0
    ensures v != Zero
  {
  }

  lemma FractionBelowOne(m: real, d: real)
    requires 0.0 <= m < d
    ensures 0.0 <= m / d < 1.0
  {
  }

  /** A step that is not the whole way does not reach the end of it. */
  lemma StopsShort(current: Vec3, v: Vec3, k: real)
    requires v != Zero && k != 1.0
    ensures current.Plus(v.Scale(k)) != current.Plus(v)
  {
    if v.x != 0.0 {
      MulNonZero(k - 1.0, v.x);
      assert (k - 1.0) * v.x == k * v.x - v.x;
    } else if v.y != 0.0 {
      MulNonZero(k - 1.0, v.y);
      assert (k - 1.0) * v.y == k * v.y - v.y;
    } else {
      MulNonZero(k - 1.0, v.z);
      assert (k - 1.0) * v.z == k * v.z - v.z;
    }
  }


  /** Mathf.Lerp: the interpolation parameter is clamped to [0, 1]. */
  function Lerp(a: real, b: real, t: real): (r: real)
    ensures Min(a, b) <= r <= Max(a, b)
    ensures t <= 0.0 ==> r == a
    ensures t >= 1.0 ==> r == b
    ensures a != b ==> (r == b <==> t >= 1.0)
  {
    var c := Clamp01(t);
    LerpBounds(a, b, c);
    LerpReachesEnd(a, b, c);
    a + (b - a) * c
  }

  lemma LerpBounds(a: real, b: real, c: real)
    requires 0.0 <= c <= 1.0
    ensures Min(a, b) <= a + (b - a) * c <= Max(a, b)
  {
    if a <= b {
      MulNonNegative(b - a, c);
      MulNonNegative(b - a, 1.0 - c);
    } else {
      MulNonNegative(a - b, c);
      MulNonNegative(a - b, 1.0 - c);
    }
  }

  lemma LerpReachesEnd(a: real, b: real, c: real)
    ensures a != b ==> (a + (b - a) * c == b <==> c == 1.0)
  {
    if a != b && c != 1.0 {
      MulNonZero(b - a, c - 1.0);
      assert (b - a) * (c - 1.0) == (a + (b - a) * c) - b;
    }
  }

  /**
   * Lerp moves toward its second endpoint as t grows: with a <= b it is
   * non-decreasing in t, with a >= b non-increasing.
   */
  lemma LerpMonotone(a: real, b: real, t1: real, t2: real)
    requires t1 <= t2
    ensures a <= b ==> Lerp(a, b, t1) <= Lerp(a, b, t2)
    ensures b <= a ==> Lerp(a, b, t1) >= Lerp(a, b, t2)
  {
    var c1, c2 := Clamp01(t1), Clamp01(t2);
    assert Lerp(a, b, t1) == a + (b - a) * c1;
    assert Lerp(a, b, t2) == a + (b - a) * c2;
    ScaleOrder(a, b, c1, c2);
  }

  /** Strictly so while the parameter is inside (0, 1). */
  lemma LerpStrictlyMonotone(a: real, b: real, t1: real, t2: real)
    requires t1 < t2 && t1 < 1.0 && 0.0 < t2
    ensures a < b ==> Lerp(a, b, t1) < Lerp(a, b, t2)
    ensures b < a ==> Lerp(a, b, t1) > Lerp(a, b, t2)
  {
    var c1, c2 := Clamp01(t1), Clamp01(t2);
    assert c1 < c2;
    assert Lerp(a, b, t1) == a + (b - a) * c1;
    assert Lerp(a, b, t2) == a + (b - a) * c2;
    ScaleOrder(a, b, c1, c2);
  }

  lemma ScaleOrder(a: real, b: real, c1: real, c2: real)
    requires c1 <= c2
    ensures a <= b ==> a + (b - a) * c1 <= a + (b - a) * c2
    ensures b <= a ==> a + (b - a) * c1 >= a + (b - a) * c2
    ensures c1 < c2 && a < b ==> a + (b - a) * c1 < a + (b - a) * c2
    ensures c1 < c2 && b < a ==> a + (b - a) * c1 > a + (b - a) * c2
  {
    if a <= b { MulNonNegative(b - a, c2 - c1); } else { MulNonNegative(a - b, c2 - c1); }
    if c1 < c2 && a < b { MulPositive(b - a, c2 - c1); }
    if c1 < c2 && b < a { MulPositive(a - b, c2 - c1); }
  }

  /**
   * Orientations are kept symbolic: an orientation the scene supplies, the
   * rotation that looks along a direction (Quaternion.LookRotation, also
   * what assigning Transform.forward does), or a spherical blend of two.
   */
  datatype Rotation =
    | Orientation(id: int)
    | LookAt(forward: Vec3)
    | Blend(from: Rotation, to: Rotation, t: real)

  /**
   * Quaternion.Slerp: t is clamped to [0, 1], so a parameter at or past 1
   * gives the target exactly and one at or below 0 the start.
   */
  function Slerp(a: Rotation, b: Rotation, t: real): (r: Rotation)
    ensures t >= 1.0 ==> r == b
    ensures t <= 0.0 ==> r == a
    ensures a == b ==> r == a
  {
    if t <= 0.0 || a == b then a
    else if t >= 1.0 then b
    else Blend(a, b, t)
  }

  /**
   * Random.Range(lo, hi) on floats, given the uniform sample u in [0, 1]
   * that the generator would draw; both ends are included.
   */
  function RandomRange(lo: real, hi: real, u: real): (r: real)
    requires 0.0 <= u <= 1.0
    ensures Min(lo, hi) <= r <= Max(lo, hi)
    ensures u == 0.0 ==> r == lo
    ensures u == 1.0 ==> r == hi
  {
    LerpBounds(lo, hi, u);
    lo + (hi - lo) * u
  }

  /** A time in seconds that may be Mathf.NegativeInfinity. */
  datatype Stamp = NegativeInfinity | At(time: real) {
    /** Adding a finite duration keeps minus infinity. */
    function Plus(d: real): Stamp {
      match this
      case NegativeInfinity => NegativeInfinity
      case At(t) => At(t + d)
    }
  }

  /** now < s; nothing is below minus infinity. */
  predicate Below(now: real, s: Stamp) {
    s.At? && now < s.time
  }

  /** now > s; everything is above minus infinity. */
  predicate Above(now: real, s: Stamp) {
    s.NegativeInfinity? || now > s.time
  }

  /**
   * (now - s) / duration, the fraction of a timed phase that has elapsed;
   * with s at minus infinity the elapsed time is infinite, which Clamp01
   * turns into 1.
   */
  function Fraction(now: real, s: Stamp, duration: real): (f: real)
    requires duration > 0.0
    ensures s.NegativeInfinity? ==> f == 1.0
    ensures s.At? ==> (f >= 1.0 <==> now - s.time >= duration)
  {
    match s
    case NegativeInfinity => 1.0
    case At(t) => (now - t) / duration
  }

  datatype Option<T> = None | Some(value: T)

  /** A call scheduled with MonoBehaviour.Invoke: which method, and when. */
  datatype Invocation<M> = Invocation(name: M, due: real)
}
