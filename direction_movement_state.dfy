/**
 * DirectionMovementState: a position on the integer grid that moves one
 * unit at a time in one of four cardinal directions, remembers where it
 * started, and reacts when it reaches the edge of a rectangle. Coordinates
 * are C# ints, so every step and every edge computation wraps around.
 */
module Movement {
  import opened Int32
  import opened Xna
  import opened Wrappers

  /** `CardinalDirection`, with the enum's underlying values 0..3. */
  datatype CardinalDirection = North | West | East | South

  function Ordinal(d: CardinalDirection): (n: int)
    ensures 0 <= n < 4
  {
    match d
    case North => 0
    case West => 1
    case East => 2
    case South => 3
  }

  /** The cast `(CardinalDirection)n` of a value in range. */
  function FromOrdinal(n: int): (d: CardinalDirection)
    requires 0 <= n < 4
    ensures Ordinal(d) == n
  {
    if n == 0 then North else if n == 1 then West else if n == 2 then East else South
  }

  /** What `MoveWithinBounds` does at an edge. */
  datatype BoundsCheckReaction = Stop | Bounce | Reset | ResetAndChangeDirection | Slide

  /** The exception `MoveWithinBounds` can throw. */
  datatype MovementError = InvalidOperation

  /** The value of the struct: initial position, current position, direction. */
  datatype Mover = Mover(initialX: int32, initialY: int32, x: int32, y: int32, direction: CardinalDirection)

  /** `new DirectionMovementState(x, y)`: the default direction is the enum's zero, North. */
  function Create(x: int32, y: int32): (m: Mover)
    ensures m.x == m.initialX == x && m.y == m.initialY == y && Ordinal(m.direction) == 0
  {
    Mover(x, y, x, y, North)
  }

  /** The unit step of a direction along each axis, as plain integers. */
  function DeltaX(d: CardinalDirection): int {
    if d == West then 1 else if d == East then -1 else 0
  }

  function DeltaY(d: CardinalDirection): int {
    if d == South then 1 else if d == North then -1 else 0
  }

  function Opposite(d: CardinalDirection): CardinalDirection {
    match d
    case North => South
    case South => North
    case West => East
    case East => West
  }

  predicate Horizontal(d: CardinalDirection) {
    d == West || d == East
  }

  /** `Move()`: one wrapping unit step in the current direction. */
  function Moved(m: Mover): (r: Mover)
    ensures r.initialX == m.initialX && r.initialY == m.initialY && r.direction == m.direction
    ensures (r.x - m.x - DeltaX(m.direction)) % Modulus == 0
    ensures (r.y - m.y - DeltaY(m.direction)) % Modulus == 0
    ensures Horizontal(m.direction) <==> r.y == m.y
    ensures !Horizontal(m.direction) <==> r.x == m.x
  {
    match m.direction
    case West => m.(x := Add(m.x, 1))
    case East => m.(x := Sub(m.x, 1))
    case South => m.(y := Add(m.y, 1))
    case North => m.(y := Sub(m.y, 1))
  }

  /** A step in the opposite direction undoes a step, wrap-around included. */
  lemma {:induction false} MoveBack(m: Mover)
    ensures Moved(Moved(m).(direction := Opposite(m.direction))).(direction := m.direction) == m
  {
    match m.direction
    case West => AddSub(m.x, 1);
    case East => SubAdd(m.x, 1);
    case South => AddSub(m.y, 1);
    case North => SubAdd(m.y, 1);
  }

  /** `RandomizeDirection()`, given the draw `Random.Next()` returned, which lies in [0, Int32.MaxValue). */
  function Randomized(m: Mover, draw: int32): (r: Mover)
    requires 0 <= draw < Max
    ensures Ordinal(r.direction) == draw % 4
    ensures r == m.(direction := r.direction)
  {
    m.(direction := FromOrdinal(draw % 4))
  }

  /** The condition under which Stop mode makes its extra step before the edge checks. */
  predicate StopMoves(m: Mover, r: Rectangle) {
    (m.direction == East && m.x >= r.Left()) ||
    (m.direction == West && m.x < r.Right()) ||
    (m.direction == North && m.y >= r.Top()) ||
    (m.direction == South && m.y < r.Bottom())
  }

  /** The horizontal-edge test: moving sideways on the left edge, or one step from the right edge in any direction. */
  predicate AtHorizontalEdge(m: Mover, r: Rectangle) {
    (Horizontal(m.direction) && m.x == r.Left()) || Add(m.x, 1) >= r.Right()
  }

  /** The vertical-edge test, tried only when the horizontal one fails. */
  predicate AtVerticalEdge(m: Mover, r: Rectangle) {
    (m.direction == North && m.y <= r.Top()) || (m.direction == South && Add(m.y, 1) >= r.Bottom())
  }

  /** The horizontal branch pulls X back to `Right - 1` when at or past Right, and to 0 when negative. */
  function ClampX(m: Mover, r: Rectangle): (c: Mover)
    ensures c == m.(x := c.x)
    ensures m.x >= r.Right() && r.Right() > Min ==> c.x == r.Right() - 1
    ensures r.Right() == Min ==> c.x == Max
    ensures 0 <= m.x < r.Right() ==> c == m
    ensures m.x < 0 && m.x < r.Right() ==> c.x == 0
  {
    if m.x >= r.Right() then m.(x := Sub(r.Right(), 1))
    else if m.x < 0 then m.(x := 0)
    else m
  }

  /** The vertical branch pulls Y back to `Bottom - 1` when at or past Bottom, and to 0 when negative. */
  function ClampY(m: Mover, r: Rectangle): (c: Mover)
    ensures c == m.(y := c.y)
    ensures m.y >= r.Bottom() && r.Bottom() > Min ==> c.y == r.Bottom() - 1
    ensures r.Bottom() == Min ==> c.y == Max
    ensures 0 <= m.y < r.Bottom() ==> c == m
    ensures m.y < 0 && m.y < r.Bottom() ==> c.y == 0
  {
    if m.y >= r.Bottom() then m.(y := Sub(r.Bottom(), 1))
    else if m.y < 0 then m.(y := 0)
    else m
  }

  /** The state after one part of a call, and whether that part threw. */
  datatype Attempt = Attempt(state: Mover, outcome: Outcome<MovementError>)

  /** Back to the initial position, and for ResetAndChangeDirection a random direction. */
  function ResetTo(m: Mover, reaction: BoundsCheckReaction, draw: int32): (r: Mover)
    requires 0 <= draw < Max
    ensures r.x == m.initialX && r.y == m.initialY
    ensures r.initialX == m.initialX && r.initialY == m.initialY
    ensures reaction != ResetAndChangeDirection ==> r.direction == m.direction
    ensures reaction == ResetAndChangeDirection ==> Ordinal(r.direction) == draw % 4
  {
    var home := m.(x := m.initialX, y := m.initialY);
    if reaction == ResetAndChangeDirection then Randomized(home, draw) else home
  }

  /** The reaction at the horizontal edge, on the clamped state. */
  function HorizontalReaction(m: Mover, r: Rectangle, reaction: BoundsCheckReaction, draw: int32): (a: Attempt)
    requires 0 <= draw < Max
    ensures a.outcome.Fail? <==> reaction == Bounce && !Horizontal(m.direction)
    ensures a.outcome.Fail? ==> a.outcome.error == InvalidOperation && a.state == m
    ensures a.state.initialX == m.initialX && a.state.initialY == m.initialY
    ensures reaction != Reset && reaction != ResetAndChangeDirection ==> a.state.x == m.x && a.state.y == m.y
  {
    match reaction
    case Bounce =>
      if Horizontal(m.direction) then Attempt(m.(direction := Opposite(m.direction)), Pass)
      else Attempt(m, Fail(InvalidOperation))
    case Slide =>
      Attempt(m.(direction := if Sub(m.y, r.Top()) > Sub(r.Bottom(), m.y) then North else South), Pass)
    case Reset => Attempt(ResetTo(m, reaction, draw), Pass)
    case ResetAndChangeDirection => Attempt(ResetTo(m, reaction, draw), Pass)
    case Stop => Attempt(m, Pass)
  }

  /** The reaction at the vertical edge, on the clamped state. */
  function VerticalReaction(m: Mover, r: Rectangle, reaction: BoundsCheckReaction, draw: int32): (a: Attempt)
    requires 0 <= draw < Max
    ensures a.outcome.Fail? <==> reaction == Bounce && Horizontal(m.direction)
    ensures a.outcome.Fail? ==> a.outcome.error == InvalidOperation && a.state == m
    ensures a.state.initialX == m.initialX && a.state.initialY == m.initialY
    ensures reaction != Reset && reaction != ResetAndChangeDirection ==> a.state.x == m.x && a.state.y == m.y
  {
    match reaction
    case Bounce =>
      if !Horizontal(m.direction) then Attempt(m.(direction := Opposite(m.direction)), Pass)
      else Attempt(m, Fail(InvalidOperation))
    case Slide =>
      Attempt(m.(direction := if Sub(m.x, r.Left()) > Sub(r.Right(), m.x) then East else West), Pass)
    case Reset => Attempt(ResetTo(m, reaction, draw), Pass)
    case ResetAndChangeDirection => Attempt(ResetTo(m, reaction, draw), Pass)
    case Stop => Attempt(m, Pass)
  }

  /** The first part of `MoveWithinBounds`: Stop mode's conditional step. */
  function StopStep(m: Mover, r: Rectangle, reaction: BoundsCheckReaction): (s: Mover)
    ensures s.initialX == m.initialX && s.initialY == m.initialY && s.direction == m.direction
    ensures !(reaction == Stop && StopMoves(m, r)) ==> s == m
  {
    if reaction == Stop && StopMoves(m, r) then Moved(m) else m
  }

  /** The second part: at most one edge branch, each clamping first and then reacting. */
  function EdgeReaction(m: Mover, r: Rectangle, reaction: BoundsCheckReaction, draw: int32): (a: Attempt)
    requires 0 <= draw < Max
    ensures a.outcome.Fail? <==> reaction == Bounce && AtHorizontalEdge(m, r) && !Horizontal(m.direction)
    ensures a.state.initialX == m.initialX && a.state.initialY == m.initialY
    ensures !AtHorizontalEdge(m, r) && !AtVerticalEdge(m, r) ==> a == Attempt(m, Pass)
  {
    if AtHorizontalEdge(m, r) then HorizontalReaction(ClampX(m, r), r, reaction, draw)
    else if AtVerticalEdge(m, r) then VerticalReaction(ClampY(m, r), r, reaction, draw)
    else Attempt(m, Pass)
  }

  /**
   * `MoveWithinBounds(rectangle, boundsCheck)`: the conditional Stop step,
   * the edge reaction, then the unconditional final `Move()`. A throw
   * leaves the struct as it was when the exception was raised.
   */
  function WithinBounds(m: Mover, r: Rectangle, reaction: BoundsCheckReaction, draw: int32): (a: Attempt)
    requires 0 <= draw < Max
    ensures a.outcome.Fail? ==> a.outcome.error == InvalidOperation
    ensures a.state.initialX == m.initialX && a.state.initialY == m.initialY
    ensures a.outcome.Pass? ==> a.state == Moved(EdgeReaction(StopStep(m, r, reaction), r, reaction, draw).state)
  {
    var edge := EdgeReaction(StopStep(m, r, reaction), r, reaction, draw);
    if edge.outcome.Pass? then Attempt(Moved(edge.state), Pass) else edge
  }

  /** No call moves the remembered initial position. */
  lemma InitialKept(m: Mover, r: Rectangle, reaction: BoundsCheckReaction, draw: int32)
    requires 0 <= draw < Max
    ensures var a := WithinBounds(m, r, reaction, draw);
            a.state.initialX == m.initialX && a.state.initialY == m.initialY
  {
  }

  /** Only Bounce at the horizontal edge while moving North or South throws; the state is then the clamped one. */
  lemma {:induction false} ThrowsExactly(m: Mover, r: Rectangle, reaction: BoundsCheckReaction, draw: int32)
    requires 0 <= draw < Max
    ensures var a := WithinBounds(m, r, reaction, draw);
            a.outcome.Fail? <==> reaction == Bounce && AtHorizontalEdge(m, r) && !Horizontal(m.direction)
    ensures var a := WithinBounds(m, r, reaction, draw);
            a.outcome.Fail? ==> a.outcome == Fail(InvalidOperation) && a.state == ClampX(m, r)
  {
    var s := StopStep(m, r, reaction);
    if reaction == Bounce {
      assert s == m;
      if !AtHorizontalEdge(m, r) && AtVerticalEdge(m, r) {
        assert !Horizontal(m.direction);
      }
    }
  }

  /**
   * In Stop mode, when the extra step applies and lands inside the
   * clamping limits, one call moves the state two steps.
   */
  lemma {:induction false} StopMovesTwice(m: Mover, r: Rectangle, draw: int32)
    requires 0 <= draw < Max
    requires StopMoves(m, r)
    requires 0 <= Moved(m).x < r.Right() && 0 <= Moved(m).y < r.Bottom()
    ensures WithinBounds(m, r, Stop, draw) == Attempt(Moved(Moved(m)), Pass)
  {
    var m1 := Moved(m);
    assert StopStep(m, r, Stop) == m1;
    assert ClampX(m1, r) == m1 && ClampY(m1, r) == m1;
  }

  /** Away from both edges every reaction ends in exactly one step (two for an applicable Stop step). */
  lemma {:induction false} InsideOneStep(m: Mover, r: Rectangle, reaction: BoundsCheckReaction, draw: int32)
    requires 0 <= draw < Max
    requires reaction != Stop || !StopMoves(m, r)
    requires !AtHorizontalEdge(m, r) && !AtVerticalEdge(m, r)
    ensures WithinBounds(m, r, reaction, draw) == Attempt(Moved(m), Pass)
  {
    assert StopStep(m, r, reaction) == m;
  }

  /** Bounce at the horizontal edge while moving sideways turns around and steps back. */
  lemma {:induction false} BounceHorizontal(m: Mover, r: Rectangle, draw: int32)
    requires 0 <= draw < Max
    requires AtHorizontalEdge(m, r) && Horizontal(m.direction)
    ensures var c := ClampX(m, r);
            WithinBounds(m, r, Bounce, draw) == Attempt(Moved(c.(direction := Opposite(m.direction))), Pass)
  {
    assert StopStep(m, r, Bounce) == m;
  }

  /** Bounce at the vertical edge always swaps North and South and never throws. */
  lemma {:induction false} BounceVertical(m: Mover, r: Rectangle, draw: int32)
    requires 0 <= draw < Max
    requires !AtHorizontalEdge(m, r) && AtVerticalEdge(m, r)
    ensures var c := ClampY(m, r);
            WithinBounds(m, r, Bounce, draw) == Attempt(Moved(c.(direction := Opposite(m.direction))), Pass)
    ensures Opposite(m.direction) == if m.direction == North then South else North
  {
    assert StopStep(m, r, Bounce) == m;
  }

  /** Slide at the horizontal edge heads North iff the state is nearer the bottom than the top, else South. */
  lemma {:induction false} SlideHorizontal(m: Mover, r: Rectangle, draw: int32)
    requires 0 <= draw < Max
    requires AtHorizontalEdge(m, r)
    ensures var a := WithinBounds(m, r, Slide, draw);
            a.outcome == Pass && (a.state.direction == North <==> Sub(m.y, r.Top()) > Sub(r.Bottom(), m.y)) &&
            (a.state.direction == North || a.state.direction == South)
  {
    assert StopStep(m, r, Slide) == m;
    assert ClampX(m, r).y == m.y;
  }

  /** Slide at the vertical edge heads East iff the state is nearer the right than the left, else West. */
  lemma {:induction false} SlideVertical(m: Mover, r: Rectangle, draw: int32)
    requires 0 <= draw < Max
    requires !AtHorizontalEdge(m, r) && AtVerticalEdge(m, r)
    ensures var a := WithinBounds(m, r, Slide, draw);
            a.outcome == Pass && (a.state.direction == East <==> Sub(m.x, r.Left()) > Sub(r.Right(), m.x)) &&
            (a.state.direction == East || a.state.direction == West)
  {
    assert StopStep(m, r, Slide) == m;
    assert ClampY(m, r).x == m.x;
  }

  /**
   * Reset and ResetAndChangeDirection at either edge restore the initial
   * position before the final step; only the latter changes direction.
   */
  lemma {:induction false} ResetAtEdge(m: Mover, r: Rectangle, reaction: BoundsCheckReaction, draw: int32)
    requires 0 <= draw < Max
    requires reaction == Reset || reaction == ResetAndChangeDirection
    requires AtHorizontalEdge(m, r) || AtVerticalEdge(m, r)
    ensures var d := if reaction == Reset then m.direction else FromOrdinal(draw % 4);
            WithinBounds(m, r, reaction, draw) == Attempt(Moved(m.(x := m.initialX, y := m.initialY, direction := d)), Pass)
  {
    assert StopStep(m, r, reaction) == m;
  }

  /** The mutable struct. */
  class DirectionMovementState {
    var initialX: int32
    var initialY: int32
    var x: int32
    var y: int32
    var direction: CardinalDirection

    function State(): Mover
      reads this
    {
      Mover(initialX, initialY, x, y, direction)
    }

    /** `Position`. */
    function Position(): (p: Point)
      reads this
      ensures p.x == x && p.y == y
    {
      Point(x, y)
    }

    constructor (x: int32, y: int32)
      ensures State() == Create(x, y)
    {
      initialX, initialY := x, y;
      this.x, this.y := x, y;
      direction := North;
    }

    method Move()
      modifies this`x, this`y
      ensures State() == Moved(old(State()))
    {
      match direction {
        case West => x := Add(x, 1);
        case East => x := Sub(x, 1);
        case South => y := Add(y, 1);
        case North => y := Sub(y, 1);
      }
    }

    /** `RandomizeDirection(random)`, given the draw `random.Next()` returned. */
    method RandomizeDirection(draw: int32)
      requires 0 <= draw < Max
      modifies this`direction
      ensures State() == Randomized(old(State()), draw)
    {
      direction := FromOrdinal(draw % 4);
    }

    /** `MoveWithinBounds(rectangle, boundsCheck)`; `draw` is what `Random.Next()` returns if a direction is drawn. */
    method MoveWithinBounds(r: Rectangle, reaction: BoundsCheckReaction, draw: int32) returns (outcome: Outcome<MovementError>)
      requires 0 <= draw < Max
      modifies this`x, this`y, this`direction
      ensures State() == WithinBounds(old(State()), r, reaction, draw).state
      ensures outcome == WithinBounds(old(State()), r, reaction, draw).outcome
    {
      if reaction == Stop && StopMoves(State(), r) {
        Move();
      }
      ghost var stepped := State();
      outcome := Pass;
      if AtHorizontalEdge(State(), r) {
        outcome := HorizontalEdgeBranch(r, reaction, draw);
      } else if AtVerticalEdge(State(), r) {
        outcome := VerticalEdgeBranch(r, reaction, draw);
      }
      assert Attempt(State(), outcome) == EdgeReaction(stepped, r, reaction, draw);
      if outcome.Fail? {
        return;
      }
      Move();
    }

    /** The horizontal-edge branch of `MoveWithinBounds`: clamp X, then react. */
    method HorizontalEdgeBranch(r: Rectangle, reaction: BoundsCheckReaction, draw: int32) returns (outcome: Outcome<MovementError>)
      requires 0 <= draw < Max
      modifies this`x, this`y, this`direction
      ensures Attempt(State(), outcome) == HorizontalReaction(ClampX(old(State()), r), r, reaction, draw)
    {
      if x >= r.Right() {
        x := Sub(r.Right(), 1);
      } else if x < 0 {
        x := 0;
      }
      outcome := Pass;
      match reaction {
        case Bounce =>
          if direction == West {
            direction := East;
          } else if direction == East {
            direction := West;
          } else {
            outcome := Fail(InvalidOperation);
          }
        case Slide =>
          direction := if Sub(y, r.Top()) > Sub(r.Bottom(), y) then North else South;
        case Reset =>
          x, y := initialX, initialY;
        case ResetAndChangeDirection =>
          x, y := initialX, initialY;
          RandomizeDirection(draw);
        case Stop =>
      }
    }

    /** The vertical-edge branch of `MoveWithinBounds`: clamp Y, then react. */
    method VerticalEdgeBranch(r: Rectangle, reaction: BoundsCheckReaction, draw: int32) returns (outcome: Outcome<MovementError>)
      requires 0 <= draw < Max
      modifies this`x, this`y, this`direction
      ensures Attempt(State(), outcome) == VerticalReaction(ClampY(old(State()), r), r, reaction, draw)
    {
      if y >= r.Bottom() {
        y := Sub(r.Bottom(), 1);
      } else if y < 0 {
        y := 0;
      }
      outcome := Pass;
      match reaction {
        case Bounce =>
          if direction == North {
            direction := South;
          } else if direction == South {
            direction := North;
          } else {
            outcome := Fail(InvalidOperation);
          }
        case Slide =>
          direction := if Sub(x, r.Left()) > Sub(r.Right(), x) then East else West;
        case Reset =>
          x, y := initialX, initialY;
        case ResetAndChangeDirection =>
          x, y := initialX, initialY;
          RandomizeDirection(draw);
        case Stop =>
      }
    }
  }
}
