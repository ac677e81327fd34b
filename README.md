# Geomart motion model

A Dafny model of the motion logic of Geomart, a small SFML animation. A 16 × 16 grid of
circles moves in lockstep through a fixed four-leg choreography:

- a horizontal leg of one `MOVE` (20 pixels);
- a diagonal leg of `2·MOVE` on each axis;
- a horizontal leg of one `MOVE`;
- a diagonal leg back.

Every frame, each circle steps towards its destination by at most the frame's pixel distance
on each axis. The step is clamped to the exact remainder, so a circle never passes its target.
When the first circle stands exactly on its destination, every circle is given its next
destination and direction.

Modules, following the parts of `main.cpp`:

- `Config`: the window, radius and margin constants, and `Move` = 2 · radius.
- `Motion`: `calculateMoveDistance` as `MoveDistance`, and the coordinate after `n` frames
  (`Iterate`). It proves no overshoot, exact landing and the exact frame count of an approach:
  the ceiling of distance / step.
- `Directions`: the `Direction` enumeration and the `switch` of `updateDestination`. That switch
  is split into the cycle `Next` and the destination offset `Offset`. It proves the four-cycle
  and that the four legs of one cycle add up to zero.
- `Objects`: the `Object` struct as a value. It holds the constructor's direction rule
  (`MakeObject`), the movement half of `draw` (`Step`) and one transition (`Advance`). It also
  defines when two circles are "in step": same kind of leg and the same distance left on each
  axis.
- `Formation`: the `std::vector<Object>` as an `array<Object>`. It holds `updateDestination`,
  the draw loop, one frame of the main loop and a run of frames, as methods with loops proved
  against the functions `AdvanceAll`, `StepAll`, `FrameSpec` and `Run`. It proves that frames
  keep a formation synchronized. In a synchronized formation the first circle has arrived iff
  every circle has, which is why the frame loop may test only `objects.front()`.
- `Layout`: `isOdd` (the low bit of a 32-bit two's complement `int`) and the grid-building
  loop. It proves that the grid starts synchronized, and so that the one-circle arrival test
  is sound for every run of frames from it.

The vector stores its `Object`s by value and `updateDestination` rewrites each in place. The
model therefore uses an array of datatype values, and each loop rewrites one slot per circle.
The source has no object identity to model, and no aliasing between circles.

Where the code and its comments disagree, the model follows the code. The doc comment of
`calculateMoveDistance` (main.cpp:44-45) says it "returns destination" when the step would pass
the target. The code returns the remaining distance `destination - current_position`, and so
does `MoveDistance`.

## Model

| member | source | states |
|---|---|---|
| Motion.MoveDistance | main.cpp:47-57 | with a non-negative step the move never passes the destination and is at most the step; a step that reaches or passes the target gives exactly the remainder; a shorter step is taken whole towards the target; with a positive step the move is zero iff the circle is on the target; the remaining distance shrinks by the step down to exactly zero |
| Motion.Iterate | main.cpp:69-70 | the coordinate after n frames of the same step; with a non-negative step it never leaves the segment between the start and the target |
| Motion.StaysOnTarget | main.cpp:56 | once on the target, further frames keep the coordinate there |
| Motion.ReachedAfter | main.cpp:49-56 | with a positive step, n frames land exactly on the target once n · step covers the distance |
| Motion.NotYetReached | main.cpp:49-56 | before n · step covers the distance, exactly n · step has been taken off it and the target is not reached |
| Motion.FramesToArrive | main.cpp:47-57 | the frame count of an approach is the ceiling of distance / step |
| Motion.ReachedFrom | main.cpp:164-169 | from that frame count on, the coordinate equals the destination |
| Motion.ArrivesExactly | main.cpp:164-169 | with a fixed positive step the coordinate equals the destination exactly after FramesToArrive frames and at no earlier frame, which the exact-equality arrival test relies on |
| Motion.Examples | main.cpp:47-57 | worked cases: step 4 towards 10 moves 4, 4, 2 and lands on 10 in 3 frames; step 10 towards -5 moves exactly -5 |
| Directions.Next | main.cpp:87-113 | each transition changes the direction and alternates horizontal and diagonal legs |
| Directions.Offset | main.cpp:87-113 | the new destination points the way the new direction names; after a horizontal leg it is a diagonal of 2·MOVE on each axis, after a diagonal leg a horizontal offset of MOVE |
| Directions.FourCycle | main.cpp:87-113 | four transitions return any direction to itself, and fewer never do |
| Directions.CyclePeriod | main.cpp:87-113 | any number of transitions depends only on that number modulo 4 |
| Directions.CycleCloses | main.cpp:87-113 | the offsets of the four legs of one cycle sum to zero on both axes |
| Objects.Arrived | main.cpp:167-168 | the exact-equality arrival test holds exactly when position equals destination, that is, when nothing remains on either axis |
| Objects.MakeObject | main.cpp:24-33 | the constructor keeps position and destination, starts on a horizontal leg, LEFT iff position.x > destination.x, and on a horizontal first leg that direction is the real heading |
| Objects.Step | main.cpp:66-70 | one frame of movement keeps destination and direction, leaves an arrived circle as it is, never passes the destination on either axis, and shrinks each axis's remainder by the step |
| Objects.Advance | main.cpp:85-113 | a transition keeps the position, moves the direction one place round the cycle, and sets the destination relative to the current position, heading the way the new direction names |
| Objects.AdvanceExamples | main.cpp:87-113 | the four transitions of a circle at (100, 100), row by row of the table |
| Objects.StepN | main.cpp:69-70 | a circle after n frames of the same step keeps its destination and direction and, with a non-negative step, stays between its start and its destination on both axes |
| Objects.StepNAxes | main.cpp:69-70 | over n frames the two axes move independently, each as the one-axis iteration says |
| Objects.CircleArrives | main.cpp:164-174 | with a fixed positive step a circle arrives exactly after the larger of its two axes' frame counts, and not before |
| Objects.InStepArriveTogether | main.cpp:164-168 | two circles in step have arrived together or not at all |
| Objects.StepKeepsInStep | main.cpp:69-70 | a frame's movement with a non-negative step keeps circles in step |
| Objects.AdvanceKeepsInStep | main.cpp:87-113 | a transition keeps circles in step |
| Formation.AdvanceAll | main.cpp:83-114 | every circle after one transition: as many circles, each keeping its position, with its direction advanced and the offset of its old direction as what remains |
| Formation.StepAll | main.cpp:173-174 | every circle after one frame of movement: as many circles, destinations and directions untouched, and a synchronized formation stays synchronized under a non-negative step |
| Formation.FrameSpec | main.cpp:164-174 | one frame keeps the number of circles; every circle's direction advances exactly when the first circle has arrived, and otherwise no destination changes |
| Formation.Run | main.cpp:151-178 | a run of frames keeps the number of circles |
| Formation.RepresentativeArrival | main.cpp:164-169 | in a synchronized formation the first circle has arrived iff every circle has |
| Formation.FrameKeepsSynchronized | main.cpp:164-174 | a frame with a non-negative step keeps the formation synchronized |
| Formation.RunKeepsSynchronized | main.cpp:151-178 | any run of frames with non-negative steps keeps the formation synchronized |
| Formation.UpdateDestination | main.cpp:81-115 | every circle, independently of the others, keeps its position, has its direction advanced one place and gets the offset of its old direction as its new destination; the array is the transition of every element |
| Formation.UpdateShapes | main.cpp:171-174 | every circle moves by its own per-axis step with the shared frame distance |
| Formation.Frame | main.cpp:164-174 | one frame: with the first circle arrived, every circle is re-planned, then every circle is moved |
| Formation.RunFrames | main.cpp:151-178 | the frame loop over a sequence of per-frame distances gives the state of the run of frames |
| Layout.IsOdd | main.cpp:60-63 | the low bit of the 32-bit two's complement pattern is set iff the number is odd (n % 2 == 1), for negative numbers too |
| Layout.LayoutObject | main.cpp:130-144 | an even row's first destination is one MOVE right of its position and it heads RIGHT; an odd row's is one MOVE left and it heads LEFT; y is 40·row + 15 and the destination keeps it |
| Layout.Row | main.cpp:132-137 | the row of slot i is the one whose ShapesByRow slots contain i, and every slot of the grid lies in one of its ShapesByCol rows |
| Layout.Grid | main.cpp:124-145 | the grid holds 256 circles, each on a horizontal leg with one MOVE left along x and none along y |
| Layout.GridSynchronized | main.cpp:125-145 | the grid is non-empty and starts synchronized |
| Layout.GridPositionsDistinct | main.cpp:136-137 | no two circles of the grid share a position |
| Layout.BuildObjects | main.cpp:124-145 | the building loop yields the grid, circle by circle, in index order |
| Layout.FrontArrivalMeansAll | main.cpp:164-169 | after any run of frames with non-negative steps from the grid, checking only the first circle finds arrival exactly when every circle has arrived |
| Layout.Animate | main.cpp:117-178 | the program without its window: the grid, then one frame per given per-frame distance |

## Left out

- The window, event polling, `clear`, `draw`, `display` and the frame-rate limit (main.cpp:120-121, 154-162, 173-177) are left out. They are I/O through SFML, and SFML is not part of this model.
- `sf::Clock`, `MOVE_TIME` and `MOVE_SPEED` (main.cpp:12-13, 148, 172) are left out. Each frame's pixel distance is a parameter (`pixelMove`, or the sequence `pixelMoves` of a run).
- `while(window.isOpen())` runs until the window closes. The model runs a finite list of frames, one per given distance.
- Floating point is left out: coordinates are `real`. The model says nothing about `float` rounding, and in particular nothing about whether `current + (destination - current)` rounds back to `destination` in `float`.
- The fill colour, the radius of the `CircleShape` and the drawing itself (main.cpp:25, 28, 73) are presentation only.
- `MoveDistance` is defined for every step, negative ones included. The no-overshoot and synchrony properties are stated for non-negative steps, which is what a clock yields.
- `Formation.Frame` requires a non-empty array, because `objects.front()` needs one. The grid always has 256 circles.
