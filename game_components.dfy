/**
 * A game component as the scene sees it through the host framework's
 * interfaces: `IGameComponent` (Initialize), `IUpdateable` (Enabled,
 * UpdateOrder), `IDrawable` (Visible, DrawOrder) and optionally
 * `IDisposable`. A component is an identity together with the interfaces
 * it implements; its changeable properties are kept apart, in a `World`
 * that maps each component to its current `State`.
 */
module GameComponents {
  import opened Int32

  datatype Component = Component(id: nat, isUpdateable: bool, isDrawable: bool, isDisposable: bool)

  /** The properties a component's owner may change at any time. */
  datatype State = State(enabled: bool, visible: bool, updateOrder: int32, drawOrder: int32)

  /** The framework's defaults for a fresh component: enabled, visible, both orders 0. */
  const Fresh := State(true, true, 0, 0)

  type World = map<Component, State>

  function StateOf(w: World, c: Component): (s: State)
    ensures c in w ==> s == w[c]
    ensures c !in w ==> s == Fresh
  {
    if c in w then w[c] else Fresh
  }
}
