/** Time-normalised interpolation shared by every animated component: the clamped
    progress of an elapsed-time loop, linear interpolation and the two animation
    curves the components use by default. Durations and offsets are exact reals;
    single-precision rounding is not modelled. */
module Tween {

  /** A world-space position (a Vector3 by value). */
  datatype Vec3 = Vec3(x: real, y: real, z: real) {
    function Plus(o: Vec3): Vec3 { Vec3(x + o.x, y + o.y, z + o.z) }
  }

  datatype Option<T> = None | Some(value: T)

  /** A canvas anchored position (a Vector2 by value). */
  datatype Vec2 = Vec2(x: real, y: real)

  /** Clamps a value to [0, 1]. */
  function Clamp01(v: real): (r: real)
    ensures 0.0 <= r <= 1.0
    ensures 0.0 <= v <= 1.0 ==> r == v
    ensures v <= 0.0 ==> r == 0.0
    ensures v >= 1.0 ==> r == 1.0
  {
    if v < 0.0 then 0.0 else if v > 1.0 then 1.0 else v
  }

  /** Progress of a loop that has run `elapsed` seconds of a `duration`-second stage. */
  function Progress(elapsed: real, duration: real): (p: real)
    requires duration > 0.0
    ensures 0.0 <= p <= 1.0
  {
    Clamp01(elapsed / duration)
  }

  /** Progress never goes backwards while time moves forward. */
  lemma ProgressMonotone(e1: real, e2: real, duration: real)
    requires duration > 0.0 && e1 <= e2
    ensures Progress(e1, duration) <= Progress(e2, duration)
  {
    DivMonotone(e1, e2, duration);
  }

  lemma MulNonneg(a: real, b: real)
    requires a >= 0.0 && b >= 0.0
    ensures a * b >= 0.0
  {
  }

  lemma DivMonotone(a: real, b: real, d: real)
    requires d > 0.0 && a <= b
    ensures a / d <= b / d
  {
    var qa, qb := a / d, b / d;
    assert qa * d == a && qb * d == b;
    assert (qa - qb) * d == a - b;
    if qb < qa {
      MulPos(qa - qb, d);
    }
  }

  lemma MulPos(a: real, b: real)
    requires a > 0.0 && b > 0.0
    ensures a * b > 0.0
  {
  }

  /** Once the elapsed time reaches the duration, progress is exactly 1. */
  lemma ProgressComplete(elapsed: real, duration: real)
    requires duration > 0.0 && elapsed >= duration
    ensures Progress(elapsed, duration) == 1.0
  {
    DivMonotone(duration, elapsed, duration);
    assert duration / duration == 1.0;
  }

  /** Progress stays below 1 while the stage is unfinished. */
  lemma ProgressBelowOne(elapsed: real, duration: real)
    requires duration > 0.0 && 0.0 <= elapsed < duration
    ensures Progress(elapsed, duration) == elapsed / duration < 1.0
  {
    var q := elapsed / duration;
    assert q * duration == elapsed;
    if q >= 1.0 {
      MulNonneg(q - 1.0, duration);
      assert (q - 1.0) * duration == elapsed - duration;
    }
    if q < 0.0 {
      MulNonneg(-q, duration);
    }
  }

  /** Interpolation between two scalars with the parameter clamped to [0, 1]. */
  function Lerp(a: real, b: real, t: real): (r: real)
    ensures t <= 0.0 ==> r == a
    ensures t >= 1.0 ==> r == b
  {
    a + (b - a) * Clamp01(t)
  }

  /** Interpolation between two positions, component by component. */
  function Lerp2(a: Vec2, b: Vec2, t: real): (r: Vec2)
    ensures t <= 0.0 ==> r == a
    ensures t >= 1.0 ==> r == b
  {
    Vec2(Lerp(a.x, b.x, t), Lerp(a.y, b.y, t))
  }

  function Lerp3(a: Vec3, b: Vec3, t: real): (r: Vec3)
    ensures t <= 0.0 ==> r == a
    ensures t >= 1.0 ==> r == b
  {
    Vec3(Lerp(a.x, b.x, t), Lerp(a.y, b.y, t), Lerp(a.z, b.z, t))
  }

  /** The smooth ease 3t^2 - 2t^3 on the clamped parameter. */
  function SmoothStep(t: real): (r: real)
    ensures 0.0 <= r <= 1.0
    ensures t <= 0.0 ==> r == 0.0
    ensures t >= 1.0 ==> r == 1.0
  {
    var u := Clamp01(t);
    SmoothStepBounds(u);
    u * u * (3.0 - 2.0 * u)
  }

  lemma SmoothStepBounds(u: real)
    requires 0.0 <= u <= 1.0
    ensures 0.0 <= u * u * (3.0 - 2.0 * u) <= 1.0
  {
    MulNonneg(u, u);
    MulNonneg(u * u, 3.0 - 2.0 * u);
    MulNonneg(1.0 - u, 1.0 - u);
    MulNonneg((1.0 - u) * (1.0 - u), 1.0 + 2.0 * u);
    assert 1.0 - u * u * (3.0 - 2.0 * u) == (1.0 - u) * (1.0 - u) * (1.0 + 2.0 * u);
  }

  /** The animation curves the components are configured with by default:
      an ease-in-out from 0 to 1 (a cubic with flat ends, the same polynomial as
      SmoothStep) and a straight line from 1 down to 0. */
  datatype Curve = EaseInOut | LinearOneToZero

  function Evaluate(c: Curve, t: real): (r: real)
    ensures 0.0 <= r <= 1.0
    ensures c == EaseInOut ==> (t <= 0.0 ==> r == 0.0) && (t >= 1.0 ==> r == 1.0)
    ensures c == LinearOneToZero ==> (t <= 0.0 ==> r == 1.0) && (t >= 1.0 ==> r == 0.0)
  {
    match c
    case EaseInOut => SmoothStep(t)
    case LinearOneToZero => 1.0 - Clamp01(t)
  }

  /** The smaller and larger of two reals, for an unordered random range. */
  function Min(a: real, b: real): real { if a <= b then a else b }
  function Max(a: real, b: real): real { if a <= b then b else a }

  /** Pending waits of routines that all wait the same time, as elapsed times,
      oldest first: the ones still running after `dt` more seconds, with their
      time advanced. */
  function AdvanceWaits(waits: seq<real>, dt: real, wait: real): (r: seq<real>)
    ensures |r| <= |waits|
    ensures forall e :: e in r ==> e < wait
  {
    if waits == [] then []
    else (if waits[0] + dt < wait then [waits[0] + dt] else []) + AdvanceWaits(waits[1..], dt, wait)
  }

  /** Waiting times that never were negative stay non-negative. */
  lemma {:induction false} AdvanceWaitsNonnegative(waits: seq<real>, dt: real, wait: real)
    requires dt >= 0.0 && forall e :: e in waits ==> e >= 0.0
    ensures forall e :: e in AdvanceWaits(waits, dt, wait) ==> e >= 0.0
  {
    if waits != [] {
      assert forall e :: e in waits[1..] ==> e in waits;
      AdvanceWaitsNonnegative(waits[1..], dt, wait);
      var head := if waits[0] + dt < wait then [waits[0] + dt] else [];
      assert waits[0] in waits;
      assert AdvanceWaits(waits, dt, wait) == head + AdvanceWaits(waits[1..], dt, wait);
    }
  }

  /** Whether some pending wait is over within `dt` more seconds. */
  predicate AnyWaitOver(waits: seq<real>, dt: real, wait: real)
  {
    exists i :: 0 <= i < |waits| && waits[i] + dt >= wait
  }

  /** A frame leaves every pending wait running exactly when none of them is
      over. */
  lemma {:induction false} AdvanceWaitsAll(waits: seq<real>, dt: real, wait: real)
    ensures |AdvanceWaits(waits, dt, wait)| == |waits| <==> !AnyWaitOver(waits, dt, wait)
  {
    if waits != [] {
      AdvanceWaitsAll(waits[1..], dt, wait);
      if AnyWaitOver(waits[1..], dt, wait) {
        var i :| 0 <= i < |waits[1..]| && waits[1..][i] + dt >= wait;
        assert waits[i + 1] + dt >= wait;
      }
      if AnyWaitOver(waits, dt, wait) && waits[0] + dt < wait {
        var i :| 0 <= i < |waits| && waits[i] + dt >= wait;
        assert waits[1..][i - 1] + dt >= wait;
      }
    }
  }
}
