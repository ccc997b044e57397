/**
 * MouseStateMemory: the last mouse state seen and how far the pointer and
 * both scroll wheels moved since the state before it.
 */
module Mouse {
  import opened Int32
  import opened Xna

  /** The part of the framework's `MouseState` the memory reads. */
  datatype MouseState = MouseState(x: int32, y: int32, scrollWheelValue: int32, horizontalScrollWheelValue: int32) {
    function Position(): Point { Point(x, y) }
  }

  /** The wheel deltas: horizontal in `x`, vertical in `y`. */
  datatype MouseStateMemory = MouseStateMemory(lastState: MouseState, positionDelta: Point, wheelDelta: Vector2)

  /** `new MouseStateMemory(state)`: nothing has moved yet. */
  function Remember(state: MouseState): (m: MouseStateMemory)
    ensures m.lastState == state
    ensures m.positionDelta == Point(0, 0) && m.wheelDelta == Vector2(0.0, 0.0)
  {
    MouseStateMemory(state, Point(0, 0), Vector2(0.0, 0.0))
  }

  /**
   * `new MouseStateMemory(oldState, newState)`: the position delta is the
   * framework's `Point` subtraction, the wheel deltas C# int differences
   * widened to float.
   */
  function Between(oldState: MouseState, newState: MouseState): (m: MouseStateMemory)
    ensures m.lastState == newState
    ensures Add(oldState.x, m.positionDelta.x) == newState.x && Add(oldState.y, m.positionDelta.y) == newState.y
  {
    SubAdd(newState.x, oldState.x);
    SubAdd(newState.y, oldState.y);
    MouseStateMemory(
      newState,
      PointMinus(newState.Position(), oldState.Position()),
      Vector2(Sub(newState.horizontalScrollWheelValue, oldState.horizontalScrollWheelValue) as real,
              Sub(newState.scrollWheelValue, oldState.scrollWheelValue) as real))
  }

  /** `new MouseStateMemory(memory, newState)`: measure from the memory's last state. */
  function Following(memory: MouseStateMemory, newState: MouseState): (m: MouseStateMemory)
    ensures m.lastState == newState
    ensures memory.lastState == newState ==> m.positionDelta == Point(0, 0) && m.wheelDelta == Vector2(0.0, 0.0)
  {
    Between(memory.lastState, newState)
  }

  /**
   * Adding the deltas back to the old state gives the new one, with the
   * same wrap-around as the subtraction: the memory loses nothing about
   * the new position and wheels.
   */
  lemma {:induction false} DeltasRestore(oldState: MouseState, newState: MouseState)
    ensures var m := Between(oldState, newState);
      m.lastState == newState &&
      Point(Add(oldState.x, m.positionDelta.x), Add(oldState.y, m.positionDelta.y)) == newState.Position() &&
      Add(oldState.horizontalScrollWheelValue, m.wheelDelta.x.Floor) == newState.horizontalScrollWheelValue &&
      Add(oldState.scrollWheelValue, m.wheelDelta.y.Floor) == newState.scrollWheelValue
  {
    SubAdd(newState.x, oldState.x);
    SubAdd(newState.y, oldState.y);
    SubAdd(newState.horizontalScrollWheelValue, oldState.horizontalScrollWheelValue);
    SubAdd(newState.scrollWheelValue, oldState.scrollWheelValue);
  }

  /** A state compared with itself has moved nowhere. */
  lemma {:induction false} StillHasNoDelta(state: MouseState)
    ensures Between(state, state) == Remember(state)
  {
  }

  /**
   * Remembering one state and then following it with a second gives the
   * deltas between the two; following a memory looks only at its last state.
   */
  lemma {:induction false} FollowingChains(a: MouseState, b: MouseState, m: MouseStateMemory)
    ensures Following(Remember(a), b) == Between(a, b)
    ensures m.lastState == a ==> Following(m, b) == Between(a, b)
  {
  }
}
