/**
  The direction state machine's table (updateDestination's switch, main.cpp lines 87-113):
  the closed set of four directions, the fixed cycle between them, and the destination
  offset each transition chooses. Coordinates follow SFML: x grows to the right, y downwards,
  so "top" means a smaller y.
 */
module Directions {
  import opened Config
  import opened Motion

  /** What a circle is doing on its current leg (enum class Direction). */
  datatype Direction = Left | Right | TopRight | BottomLeft

  datatype Vec2 = Vec2(x: real, y: real)

  /** The legs that run along a row. */
  predicate Horizontal(d: Direction) {
    d == Left || d == Right
  }

  /** `delta` points the way `d` names. */
  predicate Heading(d: Direction, delta: Vec2) {
    match d
    case Left => delta.x < 0.0 && delta.y == 0.0
    case Right => delta.x > 0.0 && delta.y == 0.0
    case TopRight => delta.x > 0.0 && delta.y < 0.0
    case BottomLeft => delta.x < 0.0 && delta.y > 0.0
  }

  /** The direction of the next leg. Horizontal and diagonal legs alternate. */
  function Next(d: Direction): (r: Direction)
    ensures r != d
    ensures Horizontal(r) != Horizontal(d)
  {
    match d
    case Left => TopRight
    case Right => BottomLeft
    case TopRight => Right
    case BottomLeft => Left
  }

  /**
    The next destination relative to the current position: it points the way the next
    direction names, a diagonal of 2 * Move on each axis after a horizontal leg and a
    horizontal leg of Move after a diagonal one.
   */
  function Offset(d: Direction): (v: Vec2)
    ensures Heading(Next(d), v)
    ensures Horizontal(d) ==> Abs(v.x) == 2.0 * Move && Abs(v.y) == 2.0 * Move
    ensures !Horizontal(d) ==> Abs(v.x) == Move && v.y == 0.0
  {
    match d
    case Left => Vec2(Move * 2.0, -(Move * 2.0))
    case Right => Vec2(-(Move * 2.0), Move * 2.0)
    case TopRight => Vec2(Move, 0.0)
    case BottomLeft => Vec2(-Move, 0.0)
  }

  /** The direction reached after `n` transitions. */
  function NextN(d: Direction, n: nat): Direction
    decreases n
  {
    if n == 0 then d else NextN(Next(d), n - 1)
  }

  /** LEFT -> TOP_RIGHT -> RIGHT -> BOTTOM_LEFT -> LEFT is a cycle of length exactly four. */
  lemma FourCycle(d: Direction)
    ensures NextN(d, 4) == d
    ensures NextN(d, 1) != d && NextN(d, 2) != d && NextN(d, 3) != d
  {
  }

  /** Any number of transitions depends only on that number modulo four. */
  lemma {:induction false} CyclePeriod(d: Direction, n: nat)
    ensures NextN(d, n) == NextN(d, n % 4)
    decreases n
  {
    if n >= 4 {
      assert NextN(d, n) == NextN(NextN(d, 4), n - 4) by {
        NextNSplit(d, 4, n - 4);
      }
      FourCycle(d);
      CyclePeriod(d, n - 4);
      assert (n - 4) % 4 == n % 4;
    }
  }

  lemma {:induction false} NextNSplit(d: Direction, a: nat, b: nat)
    ensures NextN(d, a + b) == NextN(NextN(d, a), b)
    decreases a
  {
    if a > 0 {
      NextNSplit(Next(d), a - 1, b);
    }
  }

  /** The four legs of one cycle add up to nothing: a circle that completes every leg is back where it began. */
  lemma CycleCloses(d: Direction)
    ensures var d1 := Next(d); var d2 := Next(d1); var d3 := Next(d2);
      && Offset(d).x + Offset(d1).x + Offset(d2).x + Offset(d3).x == 0.0
      && Offset(d).y + Offset(d1).y + Offset(d2).y + Offset(d3).y == 0.0
  {
    match d
    case Left =>
    case Right =>
    case TopRight =>
    case BottomLeft =>
  }
}
