/**
 * SquareGrid: a grid of cells `XScale` wide and `YScale` high, mapping cell
 * indices to positions (scale times index plus an offset inside the cell),
 * and BoundedSquareGrid, which accepts only the indices 1..XCells and
 * 1..YCells before delegating. Floats are modelled as reals.
 */
module Grids {
  import opened Int32
  import opened Xna
  import Wrappers

  /**
   * `GridPositionOffset`. A C# enum variable can hold any value of its
   * underlying int, so the type is that int and the named members are constants.
   */
  type GridPositionOffset = int32
  const None: GridPositionOffset := 0
  const Center: GridPositionOffset := 1
  const CellSize: GridPositionOffset := 2

  predicate Known(offset: GridPositionOffset) {
    offset == None || offset == Center || offset == CellSize
  }

  /** `ArgumentOutOfRangeException` naming the rejected parameter, and the `ArgumentException` for an unknown offset. */
  datatype GridError = OutOfRange(paramName: string) | UnknownOffset(offset: GridPositionOffset)

  type Result<T> = Wrappers.Result<T, GridError>

  /** `GetOffset(offset, scale)`: where in a cell of width `scale` the offset points. */
  function GetOffset(offset: GridPositionOffset, scale: real): (r: Result<real>)
    ensures r.Success? <==> Known(offset)
    ensures r.Failure? ==> r.error == UnknownOffset(offset)
    ensures offset == None ==> r.Success? && r.value == 0.0
  {
    if offset == None then Wrappers.Success(0.0)
    else if offset == Center then Wrappers.Success(scale / 2.0)
    else if offset == CellSize then Wrappers.Success(scale)
    else Wrappers.Failure(UnknownOffset(offset))
  }

  /**
   * Center is the midpoint between the start of a cell and its far edge
   * (CellSize), which is one cell further on.
   */
  lemma OffsetsWithinCell(scale: real)
    ensures var start, mid, end := GetOffset(None, scale).value, GetOffset(Center, scale).value, GetOffset(CellSize, scale).value;
            start == 0.0 && end == scale && 2.0 * mid == start + end &&
            (scale >= 0.0 ==> start <= mid <= end)
  {
  }

  /** `GetPosition(x, y, xscale, yscale, xoffset, yoffset)`, offsets evaluated X first. */
  function Position(x: int32, y: int32, xscale: real, yscale: real,
                    xoffset: GridPositionOffset := None, yoffset: GridPositionOffset := None): (r: Result<Vector2>)
    ensures r.Success? <==> Known(xoffset) && Known(yoffset)
    ensures r.Failure? ==> r.error == UnknownOffset(if Known(xoffset) then yoffset else xoffset)
  {
    match GetOffset(xoffset, xscale)
    case Failure(e) => Wrappers.Failure(e)
    case Success(dx) =>
      match GetOffset(yoffset, yscale)
      case Failure(e) => Wrappers.Failure(e)
      case Success(dy) => Wrappers.Success(Vector2(x as real * xscale + dx, y as real * yscale + dy))
  }

  /** Without offsets, a cell's position is its index times the scale. */
  lemma PositionWithoutOffset(x: int32, y: int32, xscale: real, yscale: real)
    ensures Position(x, y, xscale, yscale) == Wrappers.Success(Vector2(x as real * xscale, y as real * yscale))
  {
  }

  /** The far edge of a cell is the start of the next one, along either axis. */
  lemma {:induction false} FarEdgeIsNextCell(x: int32, y: int32, xscale: real, yscale: real)
    requires x < Max && y < Max
    ensures Position(x, y, xscale, yscale, CellSize, CellSize) == Position(x + 1, y + 1, xscale, yscale)
  {
    assert Vector2(x as real * xscale + xscale, y as real * yscale + yscale) == Vector2((x + 1) as real * xscale, (y + 1) as real * yscale);
  }

  /** The Center offsets point at the middle of the cell. */
  lemma {:induction false} CenterIsMidCell(x: int32, y: int32, xscale: real, yscale: real)
    ensures Position(x, y, xscale, yscale, Center, Center) ==
            Wrappers.Success(Vector2((x as real + 0.5) * xscale, (y as real + 0.5) * yscale))
  {
    assert Vector2(x as real * xscale + xscale / 2.0, y as real * yscale + yscale / 2.0) ==
           Vector2((x as real + 0.5) * xscale, (y as real + 0.5) * yscale);
  }

  /** `GetArea(x1, y1, x2, y2, xscale, yscale, ...)`: two corners, each with its own offsets, evaluated in order. */
  function Area(x1: int32, y1: int32, x2: int32, y2: int32, xscale: real, yscale: real,
                x1offset: GridPositionOffset := None, y1offset: GridPositionOffset := None,
                x2offset: GridPositionOffset := CellSize, y2offset: GridPositionOffset := CellSize): (r: Result<Vector4>)
    ensures r.Success? <==> Known(x1offset) && Known(y1offset) && Known(x2offset) && Known(y2offset)
  {
    match GetOffset(x1offset, xscale)
    case Failure(e) => Wrappers.Failure(e)
    case Success(a) =>
      match GetOffset(y1offset, yscale)
      case Failure(e) => Wrappers.Failure(e)
      case Success(b) =>
        match GetOffset(x2offset, xscale)
        case Failure(e) => Wrappers.Failure(e)
        case Success(c) =>
          match GetOffset(y2offset, yscale)
          case Failure(e) => Wrappers.Failure(e)
          case Success(d) =>
            Wrappers.Success(Vector4(x1 as real * xscale + a, y1 as real * yscale + b,
                                     x2 as real * xscale + c, y2 as real * yscale + d))
  }

  /**
   * With the default offsets an area runs from the start of cell (x1, y1)
   * to the start of cell (x2 + 1, y2 + 1), so it covers both end cells.
   */
  lemma {:induction false} AreaCoversEndCells(x1: int32, y1: int32, x2: int32, y2: int32, xscale: real, yscale: real)
    requires x2 < Max && y2 < Max
    ensures var a := Area(x1, y1, x2, y2, xscale, yscale);
            var p, q := Position(x1, y1, xscale, yscale), Position(x2 + 1, y2 + 1, xscale, yscale);
            a.Success? && p.Success? && q.Success? &&
            a.value == Vector4(p.value.x, p.value.y, q.value.x, q.value.y)
  {
    assert (x2 + 1) as real * xscale == x2 as real * xscale + xscale;
    assert (y2 + 1) as real * yscale == y2 as real * yscale + yscale;
  }

  /** `SquareGrid(XScale, YScale)`. */
  datatype SquareGrid = SquareGrid(xScale: real, yScale: real) {

    /** `this[x, y]`: the position without offsets. */
    function Cell(x: int32, y: int32): (r: Result<Vector2>)
      ensures r.Success? && r.value == Vector2(x as real * xScale, y as real * yScale)
    {
      GetPosition(x, y)
    }

    function GetPosition(x: int32, y: int32, xoffset: GridPositionOffset := None, yoffset: GridPositionOffset := None): (r: Result<Vector2>)
      ensures r.Success? <==> Known(xoffset) && Known(yoffset)
    {
      Position(x, y, xScale, yScale, xoffset, yoffset)
    }

    function GetArea(x1: int32, y1: int32, x2: int32, y2: int32,
                     x1offset: GridPositionOffset := None, y1offset: GridPositionOffset := None,
                     x2offset: GridPositionOffset := CellSize, y2offset: GridPositionOffset := CellSize): (r: Result<Vector4>)
      ensures r.Success? <==> Known(x1offset) && Known(y1offset) && Known(x2offset) && Known(y2offset)
    {
      Area(x1, y1, x2, y2, xScale, yScale, x1offset, y1offset, x2offset, y2offset)
    }

    /** The offset in a cell of this grid's width: its start, its middle, its far edge, or the exception. */
    function GetXOffset(offset: GridPositionOffset): (r: Result<real>)
      ensures offset == None ==> r == Wrappers.Success(0.0)
      ensures offset == Center ==> r == Wrappers.Success(xScale / 2.0)
      ensures offset == CellSize ==> r == Wrappers.Success(xScale)
      ensures !Known(offset) ==> r == Wrappers.Failure(UnknownOffset(offset))
    {
      GetOffset(offset, xScale)
    }

    /** The offset in a cell of this grid's height: its start, its middle, its far edge, or the exception. */
    function GetYOffset(offset: GridPositionOffset): (r: Result<real>)
      ensures offset == None ==> r == Wrappers.Success(0.0)
      ensures offset == Center ==> r == Wrappers.Success(yScale / 2.0)
      ensures offset == CellSize ==> r == Wrappers.Success(yScale)
      ensures !Known(offset) ==> r == Wrappers.Failure(UnknownOffset(offset))
    {
      GetOffset(offset, yScale)
    }
  }

  /** `new SquareGrid(scale)`: square cells. */
  function Uniform(scale: real): (g: SquareGrid)
    ensures g.xScale == g.yScale == scale
  {
    SquareGrid(scale, scale)
  }

  /** `x` lies in 1..cells, the indices a bounded grid accepts. */
  predicate InCells(x: int32, cells: int32) {
    1 <= x <= cells
  }

  /**
   * The guards of a bounded grid: upper bounds first, in parameter order,
   * then `ThrowIfNegativeOrZero` in the order the guards are written.
   */
  function CheckCell(x: int32, y: int32, xCells: int32, yCells: int32): (r: Wrappers.Outcome<GridError>)
    ensures r.Pass? <==> InCells(x, xCells) && InCells(y, yCells)
    ensures r.Fail? ==> (r.error == OutOfRange("x") && !InCells(x, xCells)) ||
                        (r.error == OutOfRange("y") && !InCells(y, yCells))
    ensures x > xCells ==> r == Wrappers.Fail(OutOfRange("x"))
    ensures x <= xCells && y > yCells ==> r == Wrappers.Fail(OutOfRange("y"))
    ensures x <= xCells && y <= yCells && x <= 0 ==> r == Wrappers.Fail(OutOfRange("x"))
  {
    if x > xCells then Wrappers.Fail(OutOfRange("x"))
    else if y > yCells then Wrappers.Fail(OutOfRange("y"))
    else if x <= 0 then Wrappers.Fail(OutOfRange("x"))
    else if y <= 0 then Wrappers.Fail(OutOfRange("y"))
    else Wrappers.Pass
  }

  function CheckArea(x1: int32, y1: int32, x2: int32, y2: int32, xCells: int32, yCells: int32): (r: Wrappers.Outcome<GridError>)
    ensures r.Pass? <==> InCells(x1, xCells) && InCells(x2, xCells) && InCells(y1, yCells) && InCells(y2, yCells)
    ensures r.Fail? ==> (r.error == OutOfRange("x1") && !InCells(x1, xCells)) ||
                        (r.error == OutOfRange("x2") && !InCells(x2, xCells)) ||
                        (r.error == OutOfRange("y1") && !InCells(y1, yCells)) ||
                        (r.error == OutOfRange("y2") && !InCells(y2, yCells))
    ensures x1 > xCells ==> r == Wrappers.Fail(OutOfRange("x1"))
    ensures x1 <= xCells && x2 > xCells ==> r == Wrappers.Fail(OutOfRange("x2"))
    ensures x1 <= xCells && x2 <= xCells && y1 > yCells ==> r == Wrappers.Fail(OutOfRange("y1"))
    ensures x1 <= xCells && x2 <= xCells && y1 <= yCells && y2 > yCells ==> r == Wrappers.Fail(OutOfRange("y2"))
    ensures x1 <= xCells && x2 <= xCells && y1 <= yCells && y2 <= yCells && x1 <= 0 ==>
              r == Wrappers.Fail(OutOfRange("x1"))
    ensures x1 <= xCells && x2 <= xCells && y1 <= yCells && y2 <= yCells && x1 > 0 && y1 <= 0 ==>
              r == Wrappers.Fail(OutOfRange("y1"))
    ensures x1 <= xCells && x2 <= xCells && y1 <= yCells && y2 <= yCells && x1 > 0 && y1 > 0 && x2 <= 0 ==>
              r == Wrappers.Fail(OutOfRange("x2"))
  {
    if x1 > xCells then Wrappers.Fail(OutOfRange("x1"))
    else if x2 > xCells then Wrappers.Fail(OutOfRange("x2"))
    else if y1 > yCells then Wrappers.Fail(OutOfRange("y1"))
    else if y2 > yCells then Wrappers.Fail(OutOfRange("y2"))
    else if x1 <= 0 then Wrappers.Fail(OutOfRange("x1"))
    else if y1 <= 0 then Wrappers.Fail(OutOfRange("y1"))
    else if x2 <= 0 then Wrappers.Fail(OutOfRange("x2"))
    else if y2 <= 0 then Wrappers.Fail(OutOfRange("y2"))
    else Wrappers.Pass
  }

  /** `BoundedSquareGrid(Grid, XCells, YCells)`. */
  datatype BoundedSquareGrid = BoundedSquareGrid(grid: SquareGrid, xCells: int32, yCells: int32) {

    /** `this[x, y]`: in bounds, the unbounded grid's position; otherwise the guard's exception. */
    function Cell(x: int32, y: int32): (r: Result<Vector2>)
      ensures r.Success? <==> InCells(x, xCells) && InCells(y, yCells)
      ensures r.Success? ==> r == grid.Cell(x, y)
      ensures r.Failure? ==> Wrappers.Fail(r.error) == CheckCell(x, y, xCells, yCells)
    {
      match CheckCell(x, y, xCells, yCells)
      case Fail(e) => Wrappers.Failure(e)
      case Pass => grid.Cell(x, y)
    }

    function GetPosition(x: int32, y: int32, xoffset: GridPositionOffset := None, yoffset: GridPositionOffset := None): (r: Result<Vector2>)
      ensures !(InCells(x, xCells) && InCells(y, yCells)) ==> r.Failure? && Wrappers.Fail(r.error) == CheckCell(x, y, xCells, yCells)
      ensures InCells(x, xCells) && InCells(y, yCells) ==> r == grid.GetPosition(x, y, xoffset, yoffset)
    {
      match CheckCell(x, y, xCells, yCells)
      case Fail(e) => Wrappers.Failure(e)
      case Pass => grid.GetPosition(x, y, xoffset, yoffset)
    }

    function GetArea(x1: int32, y1: int32, x2: int32, y2: int32,
                     x1offset: GridPositionOffset := None, y1offset: GridPositionOffset := None,
                     x2offset: GridPositionOffset := CellSize, y2offset: GridPositionOffset := CellSize): (r: Result<Vector4>)
      ensures !(InCells(x1, xCells) && InCells(x2, xCells) && InCells(y1, yCells) && InCells(y2, yCells)) ==>
                r.Failure? && Wrappers.Fail(r.error) == CheckArea(x1, y1, x2, y2, xCells, yCells)
      ensures InCells(x1, xCells) && InCells(x2, xCells) && InCells(y1, yCells) && InCells(y2, yCells) ==>
                r == grid.GetArea(x1, y1, x2, y2, x1offset, y1offset, x2offset, y2offset)
    {
      match CheckArea(x1, y1, x2, y2, xCells, yCells)
      case Fail(e) => Wrappers.Failure(e)
      case Pass => grid.GetArea(x1, y1, x2, y2, x1offset, y1offset, x2offset, y2offset)
    }
  }

  /** Index 0 is never a cell of a bounded grid: the guard names the first zero coordinate. */
  lemma {:induction false} ZeroRejected(b: BoundedSquareGrid, x: int32, y: int32)
    requires x == 0 || y == 0
    ensures b.GetPosition(x, y).Failure?
    ensures x == 0 && y <= b.yCells ==> b.GetPosition(x, y).error == OutOfRange("x")
  {
  }
}
