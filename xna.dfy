/**
 * The host framework's value types that the modelled code computes with:
 * integer points and rectangles, real-valued vectors, and game time.
 * A `Rectangle`'s edges are those of the framework: Left = X, Right = X + Width,
 * Top = Y, Bottom = Y + Height, with C# int arithmetic.
 */
module Xna {
  import opened Int32

  datatype Point = Point(x: int32, y: int32)

  datatype Rectangle = Rectangle(x: int32, y: int32, width: int32, height: int32) {
    function Left(): int32 { x }
    function Right(): int32 { Add(x, width) }
    function Top(): int32 { y }
    function Bottom(): int32 { Add(y, height) }
    function Location(): Point { Point(x, y) }
  }

  /** The framework's `Point - Point`, componentwise C# int subtraction. */
  function PointMinus(a: Point, b: Point): Point {
    Point(Sub(a.x, b.x), Sub(a.y, b.y))
  }

  /** `Vector2` and `Vector4`; their float components are modelled as reals. */
  datatype Vector2 = Vector2(x: real, y: real)
  datatype Vector4 = Vector4(x: real, y: real, z: real, w: real)
  datatype RectangleF = RectangleF(x: real, y: real, width: real, height: real)

  /** The per-tick time value that the code passes through unchanged. */
  datatype GameTime = GameTime(totalTicks: int, elapsedTicks: int)

  /** Identity of the `Game` instance a service belongs to. */
  datatype Game = Game(id: nat)
}
