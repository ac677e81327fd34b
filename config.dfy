/** The fixed numeric configuration of the animation (main.cpp, lines 6-11). All units are pixels. */
module Config {
  const WindowWidth: int := 600
  const WindowHeight: int := 600
  const CircleRadius: int := 10
  const CircleMargin: int := 30

  /** One elementary step of the choreography: a circle's diameter. */
  const Move: real := (CircleRadius * 2) as real
}
