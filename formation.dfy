/**
  The vector of circles and what the frame loop does to it: updateDestination
  (main.cpp lines 81-115), the loop that moves every circle (lines 173-174, the movement
  half of draw), one whole frame (lines 164-174) and a run of frames. std::vector<Object>
  holds its circles by value, so it is an array of Object values, rewritten slot by slot.
 */
module Formation {
  import opened Directions
  import opened Objects

  /** Every circle after one transition. */
  function AdvanceAll(objs: seq<Object>): (r: seq<Object>)
    ensures |r| == |objs|
    ensures forall i :: 0 <= i < |objs| ==>
              && r[i].position == objs[i].position
              && r[i].direction == Next(objs[i].direction)
              && Remaining(r[i]) == Offset(objs[i].direction)
  {
    seq(|objs|, i requires 0 <= i < |objs| => Advance(objs[i]))
  }

  /** Every circle after one frame of movement. */
  function StepAll(objs: seq<Object>, pixelMove: real): (r: seq<Object>)
    ensures |r| == |objs|
    ensures forall i :: 0 <= i < |objs| ==>
              r[i].destination == objs[i].destination && r[i].direction == objs[i].direction
    ensures Synchronized(objs) && pixelMove >= 0.0 ==> Synchronized(r)
  {
    seq(|objs|, i requires 0 <= i < |objs| => Step(objs[i], pixelMove))
  }

  /**
    One frame: if the first circle has arrived, every circle takes its next transition;
    then every circle moves.
   */
  function FrameSpec(objs: seq<Object>, pixelMove: real): (r: seq<Object>)
    requires |objs| > 0
    ensures |r| == |objs|
    // every circle is re-planned exactly when the first one has arrived
    ensures forall i :: 0 <= i < |objs| ==>
              r[i].direction == (if Arrived(objs[0]) then Next(objs[i].direction) else objs[i].direction)
    ensures !Arrived(objs[0]) ==> forall i :: 0 <= i < |objs| ==> r[i].destination == objs[i].destination
  {
    StepAll(if Arrived(objs[0]) then AdvanceAll(objs) else objs, pixelMove)
  }

  /** The circles after the frames whose steps are `pixelMoves`, in order. */
  function Run(objs: seq<Object>, pixelMoves: seq<real>): (r: seq<Object>)
    requires |objs| > 0
    ensures |r| == |objs|
    decreases |pixelMoves|
  {
    if pixelMoves == [] then objs
    else FrameSpec(Run(objs, pixelMoves[..|pixelMoves| - 1]), pixelMoves[|pixelMoves| - 1])
  }

  /** Every circle is in step with the first one. */
  predicate Synchronized(objs: seq<Object>) {
    forall i :: 0 < i < |objs| ==> InStep(objs[0], objs[i])
  }

  /** In a synchronized formation, the first circle has arrived exactly when every circle has. */
  lemma RepresentativeArrival(objs: seq<Object>)
    requires |objs| > 0 && Synchronized(objs)
    ensures Arrived(objs[0]) <==> forall i :: 0 <= i < |objs| ==> Arrived(objs[i])
  {
    forall i | 0 < i < |objs|
      ensures Arrived(objs[0]) <==> Arrived(objs[i])
    {
      InStepArriveTogether(objs[0], objs[i]);
    }
  }

  /** A frame with a non-negative step keeps a formation synchronized. */
  lemma FrameKeepsSynchronized(objs: seq<Object>, pixelMove: real)
    requires |objs| > 0 && Synchronized(objs) && pixelMove >= 0.0
    ensures Synchronized(FrameSpec(objs, pixelMove))
  {
    var planned := if Arrived(objs[0]) then AdvanceAll(objs) else objs;
    forall i | 0 < i < |objs|
      ensures InStep(planned[0], planned[i])
    {
      if Arrived(objs[0]) {
        AdvanceKeepsInStep(objs[0], objs[i]);
      }
    }
    forall i | 0 < i < |objs|
      ensures InStep(FrameSpec(objs, pixelMove)[0], FrameSpec(objs, pixelMove)[i])
    {
      StepKeepsInStep(planned[0], planned[i], pixelMove);
    }
  }

  /**
    Every frame of a run with non-negative steps starts from a synchronized formation, so
    checking only the first circle finds arrival exactly when every circle has arrived.
   */
  lemma {:induction false} RunKeepsSynchronized(objs: seq<Object>, pixelMoves: seq<real>)
    requires |objs| > 0 && Synchronized(objs)
    requires forall k :: 0 <= k < |pixelMoves| ==> pixelMoves[k] >= 0.0
    ensures Synchronized(Run(objs, pixelMoves))
    decreases |pixelMoves|
  {
    if pixelMoves != [] {
      var earlier := pixelMoves[..|pixelMoves| - 1];
      RunKeepsSynchronized(objs, earlier);
      FrameKeepsSynchronized(Run(objs, earlier), pixelMoves[|pixelMoves| - 1]);
    }
  }

  /**
    updateDestination: each circle, independently of the others, keeps its position, moves
    its direction one place round the cycle and takes the destination that transition
    names relative to its own position. The number of circles is that of the array.
   */
  method UpdateDestination(objects: array<Object>)
    modifies objects
    ensures objects[..] == AdvanceAll(old(objects[..]))
    ensures forall i :: 0 <= i < objects.Length ==>
              && objects[i].position == old(objects[i].position)
              && objects[i].direction == Next(old(objects[i].direction))
              && Remaining(objects[i]) == Offset(old(objects[i].direction))
  {
    for i := 0 to objects.Length
      invariant forall k :: 0 <= k < i ==> objects[k] == Advance(old(objects[k]))
      invariant forall k :: i <= k < objects.Length ==> objects[k] == old(objects[k])
    {
      objects[i] := Advance(objects[i]);
    }
  }

  /** The loop that draws every circle, moving each by its own MoveDistance with the shared step. */
  method UpdateShapes(objects: array<Object>, pixelMove: real)
    modifies objects
    ensures objects[..] == StepAll(old(objects[..]), pixelMove)
  {
    for i := 0 to objects.Length
      invariant forall k :: 0 <= k < i ==> objects[k] == Step(old(objects[k]), pixelMove)
      invariant forall k :: i <= k < objects.Length ==> objects[k] == old(objects[k])
    {
      objects[i] := Step(objects[i], pixelMove);
    }
  }

  /**
    One frame of the main loop: test the first circle for exact arrival, re-plan every
    circle if it has arrived, then move every circle. objects.front() needs a non-empty vector.
   */
  method Frame(objects: array<Object>, pixelMove: real)
    requires objects.Length > 0
    modifies objects
    ensures objects[..] == FrameSpec(old(objects[..]), pixelMove)
  {
    var first := objects[0];
    if first.destination.x == first.position.x && first.destination.y == first.position.y {
      UpdateDestination(objects);
    }
    UpdateShapes(objects, pixelMove);
  }

  /** The main loop for as many frames as there are steps in `pixelMoves` (one per frame, from the clock). */
  method RunFrames(objects: array<Object>, pixelMoves: seq<real>)
    requires objects.Length > 0
    modifies objects
    ensures objects[..] == Run(old(objects[..]), pixelMoves)
  {
    for k := 0 to |pixelMoves|
      invariant objects[..] == Run(old(objects[..]), pixelMoves[..k])
    {
      Frame(objects, pixelMoves[k]);
      assert pixelMoves[..k + 1][..k] == pixelMoves[..k];
    }
    assert pixelMoves[..|pixelMoves|] == pixelMoves;
  }
}
