/**
  One circle (struct Object, main.cpp lines 22-38): where its shape is, where it is going and
  which leg it is on, with the three things that happen to one circle: construction, one
  frame of movement (the movement half of draw) and one transition of updateDestination.
 */
module Objects {
  import opened Config
  import opened Motion
  import opened Directions

  /** `position` is the shape's position; SFML keeps it inside the CircleShape. */
  datatype Object = Object(position: Vec2, destination: Vec2, direction: Direction)

  /** What is left of the current leg. */
  function Remaining(o: Object): Vec2 {
    Vec2(o.destination.x - o.position.x, o.destination.y - o.position.y)
  }

  /** The arrival test of the frame loop: exact equality on both axes. */
  predicate Arrived(o: Object)
    ensures Arrived(o) <==> o.position == o.destination
    ensures Arrived(o) <==> Remaining(o) == Vec2(0.0, 0.0)
  {
    o.destination.x == o.position.x && o.destination.y == o.position.y
  }

  /**
    The constructor: a circle starts on a horizontal leg, LEFT exactly when its destination
    lies to its left, RIGHT otherwise; on a horizontal first leg that direction is its heading.
   */
  function MakeObject(position: Vec2, destination: Vec2): (o: Object)
    ensures o.position == position && o.destination == destination
    ensures Horizontal(o.direction)
    ensures o.direction == Left <==> position.x > destination.x
    ensures position.y == destination.y && position.x != destination.x ==> Heading(o.direction, Remaining(o))
  {
    Object(position, destination, if position.x > destination.x then Left else Right)
  }

  /**
    One frame of movement: each axis moves by MoveDistance with the frame's step. The
    destination and direction are untouched; with a non-negative step no axis passes its
    destination and what remains of each axis shrinks by the step, down to exactly zero.
   */
  function Step(o: Object, pixelMove: real): (r: Object)
    ensures r.destination == o.destination && r.direction == o.direction
    ensures Arrived(o) ==> r == o
    ensures pixelMove >= 0.0 ==>
              Between(r.position.x, o.position.x, o.destination.x) &&
              Between(r.position.y, o.position.y, o.destination.y)
    ensures pixelMove >= 0.0 ==>
              Abs(Remaining(r).x) == Shrunk(Abs(Remaining(o).x), pixelMove) &&
              Abs(Remaining(r).y) == Shrunk(Abs(Remaining(o).y), pixelMove)
  {
    var dx := MoveDistance(o.position.x, o.destination.x, pixelMove);
    var dy := MoveDistance(o.position.y, o.destination.y, pixelMove);
    o.(position := Vec2(o.position.x + dx, o.position.y + dy))
  }

  /**
    One transition of updateDestination for one circle: the position stays, the direction
    moves one place round the cycle, and the new destination lies, from the current
    position, the way the new direction names.
   */
  function Advance(o: Object): (r: Object)
    ensures r.position == o.position
    ensures r.direction == Next(o.direction)
    ensures Heading(r.direction, Remaining(r))
    ensures Remaining(r) == Offset(o.direction)
  {
    var v := Offset(o.direction);
    o.(destination := Vec2(o.position.x + v.x, o.position.y + v.y), direction := Next(o.direction))
  }

  /** The transition table worked for a circle at (100, 100). */
  lemma AdvanceExamples(d: Direction)
    ensures var r := Advance(Object(Vec2(100.0, 100.0), Vec2(100.0, 100.0), d));
      match d
      case Left => r.destination == Vec2(100.0 + 2.0 * Move, 100.0 - 2.0 * Move) && r.direction == TopRight
      case Right => r.destination == Vec2(100.0 - 2.0 * Move, 100.0 + 2.0 * Move) && r.direction == BottomLeft
      case TopRight => r.destination == Vec2(100.0 + Move, 100.0) && r.direction == Right
      case BottomLeft => r.destination == Vec2(100.0 - Move, 100.0) && r.direction == Left
  {
  }

  /** The circle after `n` frames with the same step. */
  function StepN(o: Object, pixelMove: real, n: nat): (r: Object)
    ensures r.destination == o.destination && r.direction == o.direction
    ensures pixelMove >= 0.0 ==>
              Between(r.position.x, o.position.x, o.destination.x) &&
              Between(r.position.y, o.position.y, o.destination.y)
    decreases n
  {
    if n == 0 then o else StepN(Step(o, pixelMove), pixelMove, n - 1)
  }

  /** Its axes move independently, each as Iterate says. */
  lemma {:induction false} StepNAxes(o: Object, pixelMove: real, n: nat)
    ensures StepN(o, pixelMove, n).destination == o.destination
    ensures StepN(o, pixelMove, n).direction == o.direction
    ensures StepN(o, pixelMove, n).position.x == Iterate(o.position.x, o.destination.x, pixelMove, n)
    ensures StepN(o, pixelMove, n).position.y == Iterate(o.position.y, o.destination.y, pixelMove, n)
    decreases n
  {
    if n > 0 {
      StepNAxes(Step(o, pixelMove), pixelMove, n - 1);
    }
  }

  /**
    With a fixed positive step a circle arrives, in the exact sense the frame loop tests,
    after the larger of the two axes' frame counts, and not before.
   */
  lemma CircleArrives(o: Object, pixelMove: real)
    requires pixelMove > 0.0
    ensures var k := Max(FramesToArrive(o.position.x, o.destination.x, pixelMove),
                         FramesToArrive(o.position.y, o.destination.y, pixelMove));
      Arrived(StepN(o, pixelMove, k)) &&
      forall n: nat :: n < k ==> !Arrived(StepN(o, pixelMove, n))
  {
    var kx := FramesToArrive(o.position.x, o.destination.x, pixelMove);
    var ky := FramesToArrive(o.position.y, o.destination.y, pixelMove);
    ArrivedFrom(o, pixelMove, Max(kx, ky));
    forall n: nat | n < Max(kx, ky)
      ensures !Arrived(StepN(o, pixelMove, n))
    {
      NotArrivedBefore(o, pixelMove, n);
    }
  }

  lemma ArrivedFrom(o: Object, pixelMove: real, n: nat)
    requires pixelMove > 0.0
    requires FramesToArrive(o.position.x, o.destination.x, pixelMove) <= n
    requires FramesToArrive(o.position.y, o.destination.y, pixelMove) <= n
    ensures Arrived(StepN(o, pixelMove, n))
  {
    StepNAxes(o, pixelMove, n);
    ReachedFrom(o.position.x, o.destination.x, pixelMove, n);
    ReachedFrom(o.position.y, o.destination.y, pixelMove, n);
  }

  lemma NotArrivedBefore(o: Object, pixelMove: real, n: nat)
    requires pixelMove > 0.0
    requires n < FramesToArrive(o.position.x, o.destination.x, pixelMove) ||
             n < FramesToArrive(o.position.y, o.destination.y, pixelMove)
    ensures !Arrived(StepN(o, pixelMove, n))
  {
    StepNAxes(o, pixelMove, n);
    ArrivesExactly(o.position.x, o.destination.x, pixelMove);
    ArrivesExactly(o.position.y, o.destination.y, pixelMove);
  }

  function Max(a: nat, b: nat): nat {
    if a < b then b else a
  }

  /**
    Two circles are in step when they are on the same kind of leg and have the same
    distance left on each axis; frames with the same step then treat them alike.
   */
  predicate InStep(a: Object, b: Object) {
    && Horizontal(a.direction) == Horizontal(b.direction)
    && Abs(Remaining(a).x) == Abs(Remaining(b).x)
    && Abs(Remaining(a).y) == Abs(Remaining(b).y)
  }

  /** Two circles in step arrive together. */
  lemma InStepArriveTogether(a: Object, b: Object)
    requires InStep(a, b)
    ensures Arrived(a) <==> Arrived(b)
  {
  }

  /** A frame's movement keeps circles in step. */
  lemma StepKeepsInStep(a: Object, b: Object, pixelMove: real)
    requires InStep(a, b) && pixelMove >= 0.0
    ensures InStep(Step(a, pixelMove), Step(b, pixelMove))
  {
  }

  /** A transition keeps circles in step. */
  lemma AdvanceKeepsInStep(a: Object, b: Object)
    requires InStep(a, b)
    ensures InStep(Advance(a), Advance(b))
  {
  }
}
