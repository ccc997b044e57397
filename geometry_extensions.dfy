/**
 * GeometryExtensions: the midpoints of the four sides of an integer
 * `Rectangle`, with C#'s truncating `/ 2` and wrapping `+`.
 */
module Geometry {
  import opened Int32
  import opened Xna

  /** `CenterTop`: half the width along the top edge. */
  function CenterTop(r: Rectangle): (p: Point)
    ensures p.y == r.Top()
  {
    Point(Add(r.x, Quot(r.width, 2)), r.y)
  }

  /** `CenterBottom`: half the width along the bottom edge. */
  function CenterBottom(r: Rectangle): (p: Point)
    ensures p.y == r.Bottom() && p.x == CenterTop(r).x
  {
    Point(Add(r.x, Quot(r.width, 2)), Add(r.y, r.height))
  }

  /** `CenterRight`: half the height down the right edge. */
  function CenterRight(r: Rectangle): (p: Point)
    ensures p.x == r.Right() && p.y == CenterLeft(r).y
  {
    Point(Add(r.x, r.width), Add(r.y, Quot(r.height, 2)))
  }

  /** `CenterLeft`: half the height down the left edge. */
  function CenterLeft(r: Rectangle): (p: Point)
    ensures p.x == r.Left()
  {
    Point(r.x, Add(r.y, Quot(r.height, 2)))
  }

  /**
   * Each side midpoint lies on its side: the top and bottom midpoints on
   * the Top and Bottom edges and one above the other, the left and right
   * ones on the Left and Right edges and level with each other.
   */
  lemma SidesOnEdges(r: Rectangle)
    ensures CenterTop(r).y == r.Top() && CenterBottom(r).y == r.Bottom()
    ensures CenterLeft(r).x == r.Left() && CenterRight(r).x == r.Right()
    ensures CenterTop(r).x == CenterBottom(r).x && CenterLeft(r).y == CenterRight(r).y
  {
  }

  /**
   * When `X + Width` does not overflow, the horizontal midpoint lies
   * between Left and Right (in either order, for a negative width) and
   * splits the width into two parts that differ by at most one.
   */
  lemma {:induction false} HorizontalMidpoint(r: Rectangle)
    requires Min <= r.x + r.width <= Max
    ensures var c := CenterTop(r).x;
      -1 <= r.width - 2 * (c - r.Left()) <= 1 &&
      (r.width >= 0 ==> r.Left() <= c <= r.Right()) &&
      (r.width <= 0 ==> r.Right() <= c <= r.Left())
  {
    HalfBetween(r.x, r.width);
  }

  /** The same for the vertical midpoint, between Top and Bottom. */
  lemma {:induction false} VerticalMidpoint(r: Rectangle)
    requires Min <= r.y + r.height <= Max
    ensures var c := CenterLeft(r).y;
      -1 <= r.height - 2 * (c - r.Top()) <= 1 &&
      (r.height >= 0 ==> r.Top() <= c <= r.Bottom()) &&
      (r.height <= 0 ==> r.Bottom() <= c <= r.Top())
  {
    HalfBetween(r.y, r.height);
  }

  /** `a + d / 2` lies between `a` and `a + d` and does not overflow when `a + d` does not. */
  lemma {:induction false} HalfBetween(a: int32, d: int32)
    requires Min <= a + d <= Max
    ensures var h := Quot(d, 2);
      Add(a, h) == a + h && -1 <= d - 2 * h <= 1 &&
      (d >= 0 ==> 0 <= h <= d) && (d <= 0 ==> d <= h <= 0)
  {
  }
}
