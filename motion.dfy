/**
  The motion planner: the per-axis displacement of one frame (calculateMoveDistance), and
  what repeating it frame after frame does.
 */
module Motion {

  function Abs(x: real): real {
    if x < 0.0 then -x else x
  }

  /** x lies on the closed segment between a and b, whichever way round they are. */
  predicate Between(x: real, a: real, b: real) {
    (a <= x <= b) || (b <= x <= a)
  }

  /** What is left of a distance `gap >= 0` after a step of `step >= 0` that may not overshoot. */
  function Shrunk(gap: real, step: real): real {
    if step >= gap then 0.0 else gap - step
  }

  /**
    The signed displacement along one axis that moves `current` towards `destination` by
    at most `moveDistance`, clamped to the exact remainder so that it never passes the
    destination.
   */
  function MoveDistance(current: real, destination: real, moveDistance: real): (r: real)
    // standing on the target: no move, whatever the step
    ensures destination == current ==> r == 0.0
    // never overshoots
    ensures moveDistance >= 0.0 ==> Between(current + r, current, destination)
    // a step that reaches or passes the target lands exactly on it
    ensures moveDistance >= Abs(destination - current) ==> r == destination - current
    // a shorter step is taken whole, in the direction of the target
    ensures 0.0 <= moveDistance < Abs(destination - current) ==>
              r == (if destination < current then -moveDistance else moveDistance)
    ensures moveDistance > 0.0 ==> (r == 0.0 <==> destination == current)
    ensures moveDistance >= 0.0 ==> Abs(r) <= moveDistance
    // the remaining distance shrinks by the step, down to exactly zero
    ensures moveDistance >= 0.0 ==>
              Abs(destination - (current + r)) == Shrunk(Abs(destination - current), moveDistance)
  {
    var distance := destination - current;
    if distance < 0.0 then
      (if current - moveDistance < destination then distance else -moveDistance)
    else if distance > 0.0 then
      (if current + moveDistance > destination then distance else moveDistance)
    else
      0.0
  }

  /** The coordinate after `n` frames, each moving by MoveDistance with the same step. */
  function Iterate(current: real, destination: real, moveDistance: real, n: nat): (r: real)
    // however many frames, a non-negative step never carries the coordinate past the target
    ensures moveDistance >= 0.0 ==> Between(r, current, destination)
    decreases n
  {
    if n == 0 then current
    else Iterate(current + MoveDistance(current, destination, moveDistance), destination, moveDistance, n - 1)
  }

  /** Once on the target, further frames stay on it. */
  lemma {:induction false} StaysOnTarget(destination: real, moveDistance: real, n: nat)
    ensures Iterate(destination, destination, moveDistance, n) == destination
    decreases n
  {
    if n > 0 {
      StaysOnTarget(destination, moveDistance, n - 1);
    }
  }

  /** The distance `n` whole steps cover: n * step, built up one step at a time. */
  function Covered(n: nat, step: real): real
    decreases n
  {
    if n == 0 then 0.0 else Covered(n - 1, step) + step
  }

  lemma {:induction false} CoveredIsProduct(n: nat, step: real)
    ensures Covered(n, step) == n as real * step
    decreases n
  {
    if n > 0 {
      CoveredIsProduct(n - 1, step);
      assert (n - 1) as real * step + step == n as real * step;
    }
  }

  /** With a positive step, `n` frames land exactly on the target once n whole steps cover the distance. */
  lemma {:induction false} ReachedAfter(current: real, destination: real, moveDistance: real, n: nat)
    requires moveDistance > 0.0
    requires Abs(destination - current) <= Covered(n, moveDistance)
    ensures Iterate(current, destination, moveDistance, n) == destination
    decreases n
  {
    if n == 0 {
      assert current == destination;
    } else {
      var next := current + MoveDistance(current, destination, moveDistance);
      if moveDistance >= Abs(destination - current) {
        assert next == destination;
        StaysOnTarget(destination, moveDistance, n - 1);
      } else {
        assert Abs(destination - next) == Abs(destination - current) - moveDistance;
        ReachedAfter(next, destination, moveDistance, n - 1);
      }
    }
  }

  /** Before n whole steps cover the distance, exactly that much has been taken off it, so the target is not reached. */
  lemma {:induction false} NotYetReached(current: real, destination: real, moveDistance: real, n: nat)
    requires moveDistance > 0.0
    requires Covered(n, moveDistance) < Abs(destination - current)
    ensures Abs(destination - Iterate(current, destination, moveDistance, n))
              == Abs(destination - current) - Covered(n, moveDistance)
    ensures Iterate(current, destination, moveDistance, n) != destination
    decreases n
  {
    if n > 0 {
      var next := current + MoveDistance(current, destination, moveDistance);
      CoveredNonNegative(n - 1, moveDistance);
      assert Abs(destination - next) == Abs(destination - current) - moveDistance;
      NotYetReached(next, destination, moveDistance, n - 1);
    }
  }

  lemma {:induction false} CoveredNonNegative(n: nat, step: real)
    requires step >= 0.0
    ensures Covered(n, step) >= 0.0
    decreases n
  {
    if n > 0 {
      CoveredNonNegative(n - 1, step);
    }
  }

  lemma ScaleMonotonic(a: real, b: real, m: real)
    requires a < b && m > 0.0
    ensures a * m < b * m
  {
  }

  /** The ceiling of |destination - current| / step: the number of frames the approach takes. */
  function FramesToArrive(current: real, destination: real, moveDistance: real): (k: nat)
    requires moveDistance > 0.0
    ensures Abs(destination - current) <= k as real * moveDistance
    ensures k == 0 || (k - 1) as real * moveDistance < Abs(destination - current)
  {
    var q := Abs(destination - current) / moveDistance;
    assert q * moveDistance == Abs(destination - current);
    assert q >= 0.0;
    var f := q.Floor;
    assert f as real <= q < f as real + 1.0;
    var k: nat := if f as real == q then f else f + 1;
    assert q <= k as real;
    assert k as real * moveDistance >= q * moveDistance;
    assert k > 0 ==> (k - 1) as real * moveDistance < q * moveDistance by {
      if k > 0 {
        assert (k - 1) as real < q;
        ScaleMonotonic((k - 1) as real, q, moveDistance);
      }
    }
    assert k == 0 || (k - 1) as real * moveDistance < Abs(destination - current);
    k
  }

  /**
    Exact arrival: with a fixed positive step the coordinate equals the destination after
    exactly FramesToArrive frames, and at no earlier frame.
   */
  lemma ArrivesExactly(current: real, destination: real, moveDistance: real)
    requires moveDistance > 0.0
    ensures Iterate(current, destination, moveDistance, FramesToArrive(current, destination, moveDistance)) == destination
    ensures forall n: nat :: n < FramesToArrive(current, destination, moveDistance) ==>
              Iterate(current, destination, moveDistance, n) != destination
  {
    var k := FramesToArrive(current, destination, moveDistance);
    CoveredIsProduct(k, moveDistance);
    ReachedAfter(current, destination, moveDistance, k);
    forall n: nat | n < k
      ensures Iterate(current, destination, moveDistance, n) != destination
    {
      assert k > 0;
      var before := (k - 1) as real * moveDistance;
      assert before < Abs(destination - current);
      ScaleLe(n, k - 1, moveDistance);
      assert n as real * moveDistance <= before;
      CoveredIsProduct(n, moveDistance);
      assert Covered(n, moveDistance) < Abs(destination - current);
      NotYetReached(current, destination, moveDistance, n);
    }
  }

  /** Every frame count from FramesToArrive on finds the coordinate on the target. */
  lemma ReachedFrom(current: real, destination: real, moveDistance: real, n: nat)
    requires moveDistance > 0.0
    requires FramesToArrive(current, destination, moveDistance) <= n
    ensures Iterate(current, destination, moveDistance, n) == destination
  {
    var k := FramesToArrive(current, destination, moveDistance);
    ScaleLe(k, n, moveDistance);
    CoveredIsProduct(n, moveDistance);
    ReachedAfter(current, destination, moveDistance, n);
  }

  lemma ScaleLe(a: nat, b: nat, m: real)
    requires a <= b && m > 0.0
    ensures a as real * m <= b as real * m
  {
  }

  /** Worked cases: a step of 4 towards 10 moves 4, 4, 2; a step of 10 towards -5 moves exactly -5. */
  lemma Examples()
    ensures MoveDistance(0.0, 10.0, 4.0) == 4.0
    ensures Iterate(0.0, 10.0, 4.0, 1) == 4.0
    ensures Iterate(0.0, 10.0, 4.0, 2) == 8.0
    ensures Iterate(0.0, 10.0, 4.0, 3) == 10.0
    ensures FramesToArrive(0.0, 10.0, 4.0) == 3
    ensures MoveDistance(0.0, -5.0, 10.0) == -5.0
  {
    ArrivesExactly(0.0, 10.0, 4.0);
  }
}
