/**
 * DataGrid: one value per cell of a bounded square grid, stored in an
 * `XCells × YCells` array, with cell handles that carry their indices and
 * an enumerator over cell handles.
 */
module DataGrids {
  import opened Int32
  import opened Xna
  import opened Grids
  import Wrappers

  /** `IndexOutOfRangeException` from the array, and `OverflowException` from allocating it with a negative size. */
  datatype DataError = IndexOutOfRange | Overflow

  class DataGrid<T(0)> {
    /** `Bounds`. */
    const bounds: BoundedSquareGrid
    /** `_dat`. */
    const data: array2<T>

    /** The primary constructor body; a negative dimension makes the array allocation throw, see `New`. */
    constructor (bounds: BoundedSquareGrid)
      requires bounds.xCells >= 0 && bounds.yCells >= 0
      ensures this.bounds == bounds
      ensures fresh(data) && data.Length0 == bounds.xCells && data.Length1 == bounds.yCells
    {
      this.bounds := bounds;
      data := new T[bounds.xCells, bounds.yCells];
    }

    /** `this[x, y]`: accepts `0..XCells` and `0..YCells`, both ends included, and hands out a cell. */
    function Cell(x: int32, y: int32): (r: Wrappers.Result<CellData<T>, GridError>)
      ensures r.Success? <==> 0 <= x <= bounds.xCells && 0 <= y <= bounds.yCells
      ensures r.Success? ==> r.value == CellData(this, x, y)
      ensures r.Failure? ==> r.error == OutOfRange("x") || r.error == OutOfRange("y")
      ensures r.Failure? && r.error == OutOfRange("x") ==> !(0 <= x <= bounds.xCells)
      ensures r.Failure? && r.error == OutOfRange("y") ==> !(0 <= y <= bounds.yCells)
      ensures x > bounds.xCells ==> r == Wrappers.Failure(OutOfRange("x"))
      ensures x <= bounds.xCells && y > bounds.yCells ==> r == Wrappers.Failure(OutOfRange("y"))
      ensures x <= bounds.xCells && y <= bounds.yCells && x < 0 ==> r == Wrappers.Failure(OutOfRange("x"))
    {
      if x > bounds.xCells then Wrappers.Failure(OutOfRange("x"))
      else if y > bounds.yCells then Wrappers.Failure(OutOfRange("y"))
      else if x < 0 then Wrappers.Failure(OutOfRange("x"))
      else if y < 0 then Wrappers.Failure(OutOfRange("y"))
      else Wrappers.Success(CellData(this, x, y))
    }

    /** `GetCells()`: a fresh enumerator. */
    method GetCells() returns (e: CellDataEnumerator<T>)
      ensures fresh(e) && e.grid == this && e.x == 0 && e.y == 0 && e.current == Wrappers.None
    {
      e := new CellDataEnumerator(this);
    }
  }

  /** `new DataGrid<T>(bounds)`: the array allocation rejects a negative dimension. */
  method New<T(0)>(bounds: BoundedSquareGrid) returns (r: Wrappers.Result<DataGrid<T>, DataError>)
    ensures r.Success? <==> bounds.xCells >= 0 && bounds.yCells >= 0
    ensures r.Failure? ==> r.error == Overflow
    ensures r.Success? ==> fresh(r.value) && fresh(r.value.data) && r.value.bounds == bounds &&
                           r.value.data.Length0 == bounds.xCells && r.value.data.Length1 == bounds.yCells
  {
    if bounds.xCells < 0 || bounds.yCells < 0 {
      return Wrappers.Failure(Overflow);
    }
    var g := new DataGrid<T>(bounds);
    return Wrappers.Success(g);
  }

  /** `CellData`: a handle on one cell of a grid, by its indices. */
  datatype CellData<T(0)> = CellData(grid: DataGrid<T>, x: int32, y: int32) {

    /** `GetPosition(xoffset, yoffset)`: asks the bounded grid, which rejects index 0. */
    function GetPosition(xoffset: GridPositionOffset := None, yoffset: GridPositionOffset := None): (r: Grids.Result<Vector2>)
      ensures InCells(x, grid.bounds.xCells) && InCells(y, grid.bounds.yCells) ==>
                r == grid.bounds.grid.GetPosition(x, y, xoffset, yoffset)
      ensures !(InCells(x, grid.bounds.xCells) && InCells(y, grid.bounds.yCells)) ==> r.Failure?
    {
      grid.bounds.GetPosition(x, y, xoffset, yoffset)
    }

    /** `AreaF`: the rectangle of the cell, its index times the scale, one scale wide and high. */
    function AreaF(): (r: RectangleF)
      ensures r.x == x as real * grid.bounds.grid.xScale && r.y == y as real * grid.bounds.grid.yScale
      ensures r.width == grid.bounds.grid.xScale && r.height == grid.bounds.grid.yScale
    {
      RectangleF(x as real * grid.bounds.grid.xScale, y as real * grid.bounds.grid.yScale,
                 grid.bounds.grid.xScale, grid.bounds.grid.yScale)
    }

    /** Reading `Data`: the array element, or `IndexOutOfRangeException` outside the array. */
    function Data(): (r: Wrappers.Result<T, DataError>)
      reads grid.data
      ensures r.Success? <==> 0 <= x < grid.data.Length0 && 0 <= y < grid.data.Length1
      ensures r.Success? ==> r.value == grid.data[x, y]
      ensures r.Failure? ==> r.error == IndexOutOfRange
    {
      if 0 <= x < grid.data.Length0 && 0 <= y < grid.data.Length1 then Wrappers.Success(grid.data[x, y])
      else Wrappers.Failure(IndexOutOfRange)
    }

    /** Writing through the `Data` reference: only this cell changes. */
    method SetData(value: T) returns (r: Wrappers.Outcome<DataError>)
      modifies grid.data
      ensures r.Pass? <==> 0 <= x < grid.data.Length0 && 0 <= y < grid.data.Length1
      ensures r.Fail? ==> r.error == IndexOutOfRange
      ensures r.Pass? ==> grid.data[x, y] == value
      ensures forall i, j :: 0 <= i < grid.data.Length0 && 0 <= j < grid.data.Length1 && (i != x || j != y) ==>
                grid.data[i, j] == old(grid.data[i, j])
    {
      if 0 <= x < grid.data.Length0 && 0 <= y < grid.data.Length1 {
        grid.data[x, y] := value;
        return Wrappers.Pass;
      }
      return Wrappers.Fail(IndexOutOfRange);
    }
  }

  /**
   * The indexer admits index `XCells`, one past the array, so the handle
   * it returns for that index has no data.
   */
  lemma {:induction false} LastIndexHasNoData<T(0)>(g: DataGrid<T>, y: int32)
    requires g.data.Length0 == g.bounds.xCells && g.data.Length1 == g.bounds.yCells
    requires g.bounds.xCells >= 0 && 0 <= y <= g.bounds.yCells
    ensures g.Cell(g.bounds.xCells, y).Success?
    ensures g.Cell(g.bounds.xCells, y).value.Data() == Wrappers.Failure(IndexOutOfRange)
  {
  }

  /** The indexer admits index 0, which the bounded grid rejects, so that handle has no position. */
  lemma {:induction false} ZeroIndexHasNoPosition<T(0)>(g: DataGrid<T>, y: int32)
    requires 0 <= y <= g.bounds.yCells && g.bounds.xCells >= 0
    ensures g.Cell(0, y).Success?
    ensures g.Cell(0, y).value.GetPosition().Failure?
  {
    ZeroRejected(g.bounds, 0, y);
  }

  /** What one `MoveNext()` makes of the enumerator's indices, and its result. */
  datatype Advance = Advance(x: int32, y: int32, more: bool)

  /** The limit the enumerator compares its indices with, whatever the grid's size. */
  const Limit: int32 := 100

  /** `MoveNext()`: past the end of a column move to the next one; report whether the column index is below the limit. */
  function Step(x: int32, y: int32): (r: Advance)
    ensures y < Limit ==> r.x == x && r.y == y
    ensures y >= Limit ==> r.x == Add(x, 1) && r.y == 0
    ensures r.more <==> r.x < Limit
  {
    var (x', y') := if y >= Limit then (Add(x, 1), 0) else (x, y);
    Advance(x', y', x' < Limit)
  }

  /** `n + 1` calls of `MoveNext()` in a row; `more` is the last one's result. */
  function Steps(x: int32, y: int32, n: nat): (r: Advance)
    ensures r.more <==> r.x < Limit
    ensures y < Limit ==> r == Advance(x, y, x < Limit)
    decreases n
  {
    var r := Step(x, y);
    if n == 0 then r else Steps(r.x, r.y, n - 1)
  }

  /**
   * From the start the indices never move, since nothing increases `y`:
   * however many times `MoveNext()` is called, it returns true on cell (0, 0).
   */
  lemma {:induction false} StuckAtStart(n: nat)
    ensures Steps(0, 0, n) == Advance(0, 0, true)
  {
    if n > 0 {
      StuckAtStart(n - 1);
    }
  }

  /** Once past the limit the enumerator reports the end on every further call. */
  lemma {:induction false} EndIsFinal(x: int32, y: int32, n: nat)
    requires x >= Limit && y < Limit
    ensures !Steps(x, y, n).more
  {
    if n > 0 {
      EndIsFinal(x, y, n - 1);
    }
  }

  class CellDataEnumerator<T(0)> {
    const grid: DataGrid<T>
    var x: int32
    var y: int32
    /** `Current`; `None` is the struct default that no `MoveNext()` has replaced. */
    var current: Wrappers.Option<CellData<T>>

    constructor (grid: DataGrid<T>)
      ensures this.grid == grid && x == 0 && y == 0 && current == Wrappers.None
    {
      this.grid := grid;
      x, y := 0, 0;
      current := Wrappers.None;
    }

    method MoveNext() returns (more: bool)
      modifies this
      ensures Advance(x, y, more) == Step(old(x), old(y))
      ensures more ==> current == Wrappers.Some(CellData(grid, x, y))
      ensures !more ==> current == old(current)
    {
      if y >= Limit {
        x := Add(x, 1);
        y := 0;
      }
      if x >= Limit {
        return false;
      }
      current := Wrappers.Some(CellData(grid, x, y));
      return true;
    }

    method Reset()
      modifies this
      ensures x == 0 && y == 0 && current == old(current)
    {
      x, y := 0, 0;
    }
  }
}
