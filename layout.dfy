/**
  The initial grid (main.cpp lines 124-145): a square of circles, one row after another,
  every row shifted half a step and starting on a horizontal leg of one Move, to the right
  on even rows and to the left on odd ones.
 */
module Layout {
  import opened Config
  import opened Motion
  import opened Directions
  import opened Objects
  import opened Formation

  /** C++ `int` on the platforms SFML targets: 32-bit two's complement. */
  newtype Int32 = x: int | -0x8000_0000 <= x < 0x8000_0000

  /** The value of the 32-bit two's complement pattern of n, read as unsigned. */
  function Unsigned(n: Int32): (u: int)
    ensures 0 <= u < 0x1_0000_0000
    ensures u % 2 == n as int % 2
  {
    if n < 0 then n as int + 0x1_0000_0000 else n as int
  }

  /** isOdd: the lowest bit of the two's complement pattern (number & 1), which is the parity of the number. */
  function IsOdd(number: Int32): (r: bool)
    ensures r <==> number as int % 2 == 1
  {
    var u := Unsigned(number);
    LowBitIsParity(u);
    (u as bv32) & 1 == 1
  }

  lemma LowBitIsParity(u: int)
    requires 0 <= u < 0x1_0000_0000
    ensures ((u as bv32) & 1 == 1) <==> u % 2 == 1
  {
  }

  const ShapesByRow: nat := WindowWidth / (CircleMargin + CircleRadius) + 1
  const ShapesByCol: nat := WindowHeight / (CircleMargin + CircleRadius) + 1
  const ShapeCount: nat := ShapesByRow * ShapesByCol
  const VerticalMargin: int := CircleMargin / 2

  /** The row of the i-th circle. */
  function Row(i: nat): (r: nat)
    ensures r * ShapesByRow <= i < (r + 1) * ShapesByRow
    ensures i < ShapeCount ==> r < ShapesByCol
  {
    assert ShapesByRow == 16 && ShapesByCol == 16;
    i / ShapesByRow
  }

  /**
    The i-th circle of the grid: column i % ShapesByRow, row i / ShapesByRow, spaced
    radius plus margin apart, even rows shifted half a Move right and odd rows half a Move
    left; its first destination is one Move along its row, right on even rows and left on odd.
   */
  function LayoutObject(i: nat): (o: Object)
    requires i < ShapeCount
    ensures o.position.y == o.destination.y
    ensures Row(i) % 2 == 0 ==> o.destination.x == o.position.x + Move && o.direction == Right
    ensures Row(i) % 2 == 1 ==> o.destination.x == o.position.x - Move && o.direction == Left
    ensures o.position.y == ((CircleRadius + CircleMargin) * Row(i) + VerticalMargin) as real
  {
    var isOddRow := IsOdd(Row(i) as Int32);
    var xOffset := if !isOddRow then -Move / 2.0 else Move / 2.0;
    var position := Vec2(((CircleRadius + CircleMargin) * (i % ShapesByRow)) as real - xOffset,
                         ((CircleRadius + CircleMargin) * Row(i) + VerticalMargin) as real);
    var offset := if isOddRow then -Move else Move;
    MakeObject(position, Vec2(position.x + offset, position.y))
  }

  /** The whole grid, in construction order. */
  function Grid(): (g: seq<Object>)
    ensures |g| == ShapeCount == 256
    ensures forall i :: 0 <= i < |g| ==>
              Horizontal(g[i].direction) && Abs(Remaining(g[i]).x) == Move && Remaining(g[i]).y == 0.0
  {
    seq(ShapeCount, i requires 0 <= i < ShapeCount => LayoutObject(i))
  }

  /** The grid starts synchronized: every circle has one Move left to go along x, none along y. */
  lemma GridSynchronized()
    ensures |Grid()| == ShapeCount > 0
    ensures Synchronized(Grid())
  {
    var g := Grid();
    forall i | 0 <= i < |g|
      ensures Horizontal(g[i].direction) && Abs(Remaining(g[i]).x) == Move && Remaining(g[i]).y == 0.0
    {
      assert g[i] == LayoutObject(i);
    }
  }

  /** No two circles of the grid share a position. */
  lemma GridPositionsDistinct(i: nat, j: nat)
    requires i < ShapeCount && j < ShapeCount && i != j
    ensures LayoutObject(i).position != LayoutObject(j).position
  {
    assert ShapesByRow == 16;
    var oi, oj := LayoutObject(i), LayoutObject(j);
    if Row(i) == Row(j) {
      assert i == 16 * Row(i) + i % 16 && j == 16 * Row(j) + j % 16;
      assert i % 16 != j % 16;
      assert IsOdd(Row(i) as Int32) == IsOdd(Row(j) as Int32);
      assert oi.position.x - oj.position.x == (40 * (i % 16) - 40 * (j % 16)) as real;
    } else {
      assert oi.position.y - oj.position.y == (40 * Row(i) - 40 * Row(j)) as real;
    }
  }

  /** The loop that builds the vector: one circle per index, in order. */
  method BuildObjects() returns (objects: array<Object>)
    ensures fresh(objects)
    ensures objects[..] == Grid()
  {
    objects := new Object[ShapeCount];
    for i := 0 to ShapeCount
      invariant forall k :: 0 <= k < i ==> objects[k] == LayoutObject(k)
    {
      objects[i] := LayoutObject(i);
    }
  }

  /**
    From the grid, after any run of frames with non-negative steps, the first circle has
    arrived exactly when every circle has: the one-circle arrival test of the frame loop is sound.
   */
  lemma FrontArrivalMeansAll(pixelMoves: seq<real>)
    requires forall k :: 0 <= k < |pixelMoves| ==> pixelMoves[k] >= 0.0
    ensures |Grid()| > 0
    ensures var objs := Run(Grid(), pixelMoves);
      Arrived(objs[0]) <==> forall i :: 0 <= i < |objs| ==> Arrived(objs[i])
  {
    GridSynchronized();
    RunKeepsSynchronized(Grid(), pixelMoves);
    RepresentativeArrival(Run(Grid(), pixelMoves));
  }

  /** The program without its window: build the grid, then run one frame per step in `pixelMoves`. */
  method Animate(pixelMoves: seq<real>) returns (objects: array<Object>)
    ensures fresh(objects)
    ensures objects.Length == ShapeCount
    ensures objects[..] == Run(Grid(), pixelMoves)
  {
    objects := BuildObjects();
    GridSynchronized();
    RunFrames(objects, pixelMoves);
  }
}
