/**
 * GameComponentOrderComparer: both `Compare` overloads. The overloads differ
 * only in the key they read, so the key is a parameter here; a nullable
 * component is an `Option<Component>`.
 */
module OrderComparer {
  import opened Wrappers
  import opened GameComponents

  /** Which overload: `IUpdateable` (UpdateOrder) or `IDrawable` (DrawOrder). */
  datatype OrderKey = UpdateOrder | DrawOrder

  function Key(w: World, c: Component, key: OrderKey): int {
    match key
    case UpdateOrder => StateOf(w, c).updateOrder
    case DrawOrder => StateOf(w, c).drawOrder
  }

  /** `int.CompareTo`: -1, 0 or 1 as `a` is below, equal to or above `b`. */
  function CompareTo(a: int, b: int): (r: int)
    ensures r == -1 || r == 0 || r == 1
    ensures r < 0 <==> a < b
    ensures r == 0 <==> a == b
  {
    if a < b then -1 else if a > b then 1 else 0
  }

  /** `Compare(x, y)`: the same reference (null included) gives 0, null sorts first, otherwise the keys decide. */
  function Compare(key: OrderKey, w: World, x: Option<Component>, y: Option<Component>): (r: int)
    ensures r == -1 || r == 0 || r == 1
    ensures r == 0 <==> x == y || (x.Some? && y.Some? && Key(w, x.value, key) == Key(w, y.value, key))
  {
    if x == y then 0
    else if x.None? then -1
    else if y.None? then 1
    else CompareTo(Key(w, x.value, key), Key(w, y.value, key))
  }

  function Sign(n: int): int {
    if n < 0 then -1 else if n > 0 then 1 else 0
  }

  lemma CompareSelf(key: OrderKey, w: World, x: Option<Component>)
    ensures Compare(key, w, x, x) == 0
  {
  }

  lemma CompareNull(key: OrderKey, w: World, y: Component)
    ensures Compare(key, w, None, Some(y)) == -1
    ensures Compare(key, w, Some(y), None) == 1
  {
  }

  /** Distinct components compare by the sign of their key difference, so equal keys give 0. */
  lemma CompareDistinct(key: OrderKey, w: World, x: Component, y: Component)
    requires x != y
    ensures Compare(key, w, Some(x), Some(y)) == Sign(Key(w, x, key) - Key(w, y, key))
    ensures Key(w, x, key) == Key(w, y, key) ==> Compare(key, w, Some(x), Some(y)) == 0
  {
  }

  /** For two components the reference test agrees with the keys, since a component has one key. */
  lemma CompareNonNull(key: OrderKey, w: World, x: Component, y: Component)
    ensures Compare(key, w, Some(x), Some(y)) == CompareTo(Key(w, x, key), Key(w, y, key))
  {
  }

  lemma CompareAntisymmetric(key: OrderKey, w: World, x: Option<Component>, y: Option<Component>)
    ensures Sign(Compare(key, w, x, y)) == -Sign(Compare(key, w, y, x))
  {
  }

  lemma CompareTransitive(key: OrderKey, w: World, x: Option<Component>, y: Option<Component>, z: Option<Component>)
    requires Compare(key, w, x, y) <= 0 && Compare(key, w, y, z) <= 0
    ensures Compare(key, w, x, z) <= 0
  {
  }
}
