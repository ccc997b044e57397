# DiegoG.MonoGame core, modelled in Dafny

DiegoG.MonoGame is a set of extension libraries for the MonoGame engine.
This project models the pieces of it whose behaviour can be stated exactly,
and proves properties of that model:

- **`Scene`** (`scene_lists.dfy`, `scene.dfy`). A game component that owns a
  collection of child components. It keeps two lists: the updateable
  children sorted by UpdateOrder and the drawable children sorted by
  DrawOrder.
  - Insertion uses a three-case rule: append, prepend, or binary search.
  - A re-order is "remove the first occurrence, then insert again".
  - `Update` and `Draw` call the enabled (or visible) members in list order.
  - `Dispose` disposes the disposable members and clears everything.
  - Which components throw from their `Initialize`, `Update`, `Draw` or
    `Dispose` is a parameter (`throwing`). A dispatch loop stops at the
    first callee that throws and the exception escapes; a handler whose
    last call throws has already updated the lists. A throw during
    `Dispose` leaves the collection and the lists as they were.
  - Components are values. Their Enabled, Visible, UpdateOrder and DrawOrder
    live in a `World` map. The scene's state is a `SceneState` value with one
    transition function per operation. The `Scene` class changes its fields
    in place and ensures `State() == Transition(old(State()))`.
  - The removal handler unsubscribes a different method from
    `DrawOrderChanged` than the one the add handler subscribed. The model
    keeps that as written: draw subscriptions never go away, and a worked
    scenario shows a removed component coming back into the draw list,
    twice and out of order.
- **`GameComponentOrderComparer`** (`game_component_order_comparer.dfy`).
  Compares two components by UpdateOrder or DrawOrder. A component equal to
  itself (or null to null) compares 0, null sorts first, and otherwise the
  result is the `int.CompareTo` of the keys.
- **`DisposableObjectDictionary`** (`disposable_object_dictionary.dfy`). A
  string-keyed dictionary plus a set of tracked values.
  - `Add` throws when `set.Add` *succeeds*, that is, when the value is new;
    the model keeps that as written.
  - `Clear` and `Dispose` dispose every stored value, go on after a failure,
    and raise one aggregate error when any disposal threw.
  - Which values throw on `Dispose` is a parameter (`failing`). Every
    `Dispose` call is logged in `disposeCalls`.
- **`CallDeferrer`** (`call_deferrer.dfy`). Four FIFO queues of deferred
  calls. Draining a queue runs until it is empty, so a call deferred to the
  same queue during the drain runs in that same drain. What a callback
  defers is given up front as a finite list of reactions, and which
  invocations throw (after making their deferrals) as a set of invocation
  numbers. A throw ends the drain with the rest of the queue still pending.
- **`DirectionMovementState`** (`direction_movement_state.dfy`). An integer
  position, its initial value and a cardinal direction, with `Move`,
  `RandomizeDirection` and the bounds reactions of `MoveWithinBounds`: Stop,
  Bounce, Slide, Reset and ResetAndChangeDirection.
- **`SquareGrid`, `BoundedSquareGrid`** (`square_grid.dfy`) and **`DataGrid`**
  (`data_grid.dfy`).
  - Cell positions, offsets and areas, over `real`.
  - The bounded grid's argument checks.
  - The data grid's indexer, its backing array and its cell enumerator.
- **`VectorExtensions`** (`vector_extensions.dfy`). Packs two ints into one
  `ulong` and back, in both the Common and the Extended library (their
  packing code is identical). Also the corners of a `Rectangle`, plain and
  scaled, and `FindCentroid`.
- **`GeometryExtensions`** (`geometry_extensions.dfy`): the midpoints of the
  sides of an integer `Rectangle`.
- **`MouseStateMemory`** (`mouse_state_memory.dfy`): the last mouse state and
  the pointer and wheel deltas since the state before it.

Shared support:

- `int32.dfy`: C# `int` as a bounded integer, with wrapping `+`, `-`, `*`
  and truncating `/`.
- `xna.dfy`: the engine's value types used here (`Point`, `Rectangle`,
  `Vector2`, `Vector4`, `RectangleF`, `GameTime`).
- `game_components.dfy`: components and their mutable state.
- `wrappers.dfy`: `Result`, `Outcome` and `Option`.
- Thrown exceptions are `Failure`/`Fail` values naming the exception.

Where the code and its documentation disagree, the model follows the code.

- `Add` in the dictionary throws on a new value, as written; see above.
- The `DataGrid` indexer accepts index 0 and the index one past the
  array's end.
- Its enumerator compares with the constant 100, whatever the grid's size,
  and from the start it never advances. This is stated in
  `LastIndexHasNoData`, `ZeroIndexHasNoPosition` and `StuckAtStart`.

## Model

| member | source | states |
|---|---|---|
| OrderComparer.CompareTo | DiegoG.MonoGame.Extended/GameComponentOrderComparer.cs:12 | `int.CompareTo` gives -1, 0 or 1, with 0 exactly on equal keys and -1 exactly on a smaller one |
| OrderComparer.Compare | DiegoG.MonoGame.Extended/GameComponentOrderComparer.cs:11-12 | the result is -1, 0 or 1, and 0 exactly when both are the same reference (null included) or two components with equal keys |
| OrderComparer.CompareSelf | DiegoG.MonoGame.Extended/GameComponentOrderComparer.cs:11-12 | any component, null included, compares 0 with itself, under either key |
| OrderComparer.CompareNull | DiegoG.MonoGame.Extended/GameComponentOrderComparer.cs:11-12 | null against a component gives -1, a component against null gives 1 |
| OrderComparer.CompareDistinct | DiegoG.MonoGame.Extended/GameComponentOrderComparer.cs:11-12 | for distinct components the result's sign is the sign of the key difference, so equal keys compare 0 |
| OrderComparer.CompareNonNull | DiegoG.MonoGame.Extended/GameComponentOrderComparer.cs:11-12 | on two components the comparer is `CompareTo` of their keys |
| OrderComparer.CompareAntisymmetric | DiegoG.MonoGame.Extended/GameComponentOrderComparer.cs:11-12 | swapping the arguments negates the result, for every pair and either key |
| OrderComparer.CompareTransitive | DiegoG.MonoGame.Extended/GameComponentOrderComparer.cs:11-17 | both overloads are transitive: at most 0 twice in a row gives at most 0 |
| SceneLists.IndexOf | DiegoG.MonoGame.Extended/Scene.cs:80 | the index of the first occurrence, or -1 exactly when absent |
| SceneLists.RemoveFirst | DiegoG.MonoGame.Extended/Scene.cs:80 | `List.Remove` of a present member makes the list one shorter; an absent one leaves it unchanged |
| SceneLists.RemoveFirstElements | DiegoG.MonoGame.Extended/Scene.cs:80 | removal takes exactly one occurrence of a member out of the multiset, and nothing else |
| SceneLists.RemoveFirstKeepsOrder | DiegoG.MonoGame.Extended/Scene.cs:87 | removal keeps a sorted list sorted |
| SceneLists.RemoveFirstKeepsOthers | DiegoG.MonoGame.Extended/Scene.cs:87 | every other member stays |
| SceneLists.RemoveFirstInserted | DiegoG.MonoGame.Extended/Scene.cs:164-165 | removing what was inserted into a list lacking it restores the list |
| SceneLists.SearchKeys | DiegoG.MonoGame.Extended/Scene.cs:185-187 | a hit is an index in the window whose key equals the target; a miss is the complement of a point inside the window or one past it |
| SceneLists.ProbeBelow | DiegoG.MonoGame.Extended/Scene.cs:185-187 | every index below a miss's insertion point has a probe at or above it, before the point, whose key was smaller |
| SceneLists.ProbeAbove | DiegoG.MonoGame.Extended/Scene.cs:185-187 | every index from a miss's insertion point on has a probe at or below it, from the point on, whose key was larger |
| SceneLists.BinarySearch | DiegoG.MonoGame.Extended/Scene.cs:185 | `List.BinarySearch` with the order comparer: a hit carries the item's key, a miss gives an insertion point in the window |
| SceneLists.BinarySearchMissBelow | DiegoG.MonoGame.Extended/Scene.cs:185-187 | on a sorted list every key left of a miss's insertion point is smaller than the item's |
| SceneLists.BinarySearchMissAbove | DiegoG.MonoGame.Extended/Scene.cs:185-187 | on a sorted list every key from a miss's insertion point to the window's end is larger than the item's |
| SceneLists.InsertionIndex | DiegoG.MonoGame.Extended/Scene.cs:169-191 | the three-case rule gives an index from 0 to the list's length |
| SceneLists.InsertionIndexSplits | DiegoG.MonoGame.Extended/Scene.cs:169-191 | on a sorted list, keys before the insertion index are at most the item's and keys from it on at least the item's |
| SceneLists.SearchSplits | DiegoG.MonoGame.Extended/Scene.cs:185-189 | the index the binary search case produces splits the sorted list the same way |
| SceneLists.SearchHitSplits | DiegoG.MonoGame.Extended/Scene.cs:185 | a hit's index splits a sorted list |
| SceneLists.SearchMissSplits | DiegoG.MonoGame.Extended/Scene.cs:186-187 | the complement of a miss splits a sorted list |
| SceneLists.InsertionCases | DiegoG.MonoGame.Extended/Scene.cs:173-183 | an empty list or a last key at most the item's appends; otherwise a first key at least the item's prepends |
| SceneLists.InsertSorted | DiegoG.MonoGame.Extended/Scene.cs:169-191 | an insertion makes the list one longer |
| SceneLists.InsertSortedElements | DiegoG.MonoGame.Extended/Scene.cs:136-158 | insertion adds exactly one occurrence of the item to the multiset |
| SceneLists.SortedInsertAt | DiegoG.MonoGame.Extended/Scene.cs:189 | inserting at a splitting index keeps a list sorted |
| SceneLists.InsertSortedKeepsOrder | DiegoG.MonoGame.Extended/Scene.cs:169-191 | insertion keeps a sorted list sorted |
| SceneLists.InsertSortedSplices | DiegoG.MonoGame.Extended/Scene.cs:169-191 | the item sits at the insertion index, and the list with it taken out is the old list, so the old members keep their relative order |
| SceneLists.MoveSorted | DiegoG.MonoGame.Extended/Scene.cs:160-167 | after a move the item is listed, and the list is as long as before, or one longer when the item was missing |
| SceneLists.MoveSortedElements | DiegoG.MonoGame.Extended/Scene.cs:160-167 | a move keeps the multiset of members, adding the item once when it was missing |
| SceneLists.MoveSortedRepeatedly | DiegoG.MonoGame.Extended/Scene.cs:121-125 | with no subscription nothing moves; with one or more, the item ends listed and no other member is added |
| SceneLists.MoveSortedRepeatedlyMultiset | DiegoG.MonoGame.Extended/Scene.cs:160-167 | repeated moves keep the multiset, adding the item once when it was missing |
| SceneLists.MoveSortedSorts | DiegoG.MonoGame.Extended/Scene.cs:160-167 | when the list without the item is sorted under the new keys, the move ends sorted with the item once |
| SceneLists.MoveSortedRepeatedlySorts | DiegoG.MonoGame.Extended/Scene.cs:121-125 | repeated moves of an item listed at most once end sorted |
| SceneLists.ReKeyedSorts | DiegoG.MonoGame.Extended/Scene.cs:121-134 | after a key change of one component listed at most once, moving it once per subscription leaves the list sorted by the new keys |
| SceneLists.SortedByKeysAgree | DiegoG.MonoGame.Extended/Scene.cs:160-167 | whether a list is sorted depends only on its members' keys, so changing another component's key does not matter |
| SceneLists.Selected | DiegoG.MonoGame.Extended/Scene.cs:29-34 | the members a dispatch loop calls are members with the flag set |
| SceneLists.SelectedAppend | DiegoG.MonoGame.Extended/Scene.cs:29-34 | the calls made over `s + t` are those over `s` followed by those over `t` |
| SceneLists.SelectedSnoc | DiegoG.MonoGame.Extended/Scene.cs:29-34 | one more list element adds one call exactly when its flag is set |
| SceneLists.SelectedSorted | DiegoG.MonoGame.Extended/Scene.cs:44-49 | the members called from a sorted list come in key order |
| SceneLists.SelectedCount | DiegoG.MonoGame.Extended/Scene.cs:44-49 | a flagged member is called once per occurrence, an unflagged one never |
| SceneLists.CallsUntil | DiegoG.MonoGame.Extended/Scene.cs:29-34 | the calls a loop makes when some callees throw: a prefix of the calls it would make, which is all of them unless its last call throws |
| SceneLists.CallsUntilFirst | DiegoG.MonoGame.Extended/Scene.cs:29-34 | the loop stops at the first callee that throws: no call before the last throws, and the last throws exactly when some callee does |
| SceneLists.CallsUntilAppend | DiegoG.MonoGame.Extended/Scene.cs:29-34 | calls that do not throw are all made, and the loop then goes on with the rest |
| SceneLists.DispatchStops | DiegoG.MonoGame.Extended/Scene.cs:29-34 | a loop stops right after the first flagged member that throws |
| SceneLists.DispatchCompletes | DiegoG.MonoGame.Extended/Scene.cs:29-34 | when no callee throws, every call is made |
| SceneLists.DispatchStep | DiegoG.MonoGame.Extended/Scene.cs:29-33 | one round of a loop adds the call on the current member exactly when its flag is set |
| SceneLists.DispatchRound | DiegoG.MonoGame.Extended/Scene.cs:29-33 | one round from calls none of which threw: the round adds the flagged member's call; when that call throws the loop has made exactly the calls `CallsUntil` allows, otherwise still none has thrown |
| SceneLists.SelectedAround | DiegoG.MonoGame.Extended/Scene.cs:29-34 | the calls of a loop split at any member into those before it, its own when flagged, and those after it |
| SceneLists.SelectedNoneThrow | DiegoG.MonoGame.Extended/Scene.cs:29-34 | when no flagged member throws, no call of the loop throws |
| SceneLists.DispatchAll | DiegoG.MonoGame.Extended/Scene.cs:29-34 | when no flagged member throws, the loop makes all its calls and its last call does not throw |
| SceneLists.SelectedThrows | DiegoG.MonoGame.Extended/Scene.cs:29-34 | some call of the loop is on a throwing member exactly when some flagged member throws |
| SceneLists.DispatchInterrupted | DiegoG.MonoGame.Extended/Scene.cs:29-34 | a loop ends in an exception exactly when a flagged member throws; its last call is then on a flagged member and no earlier call throws |
| Scenes.UpdateAdded | DiegoG.MonoGame.Extended/Scene.cs:105-110 | the add handler keeps the update list's bookkeeping for a new member |
| Scenes.DrawAdded | DiegoG.MonoGame.Extended/Scene.cs:98-103 | the add handler keeps the draw list's bookkeeping |
| Scenes.UpdateRemoved | DiegoG.MonoGame.Extended/Scene.cs:84-89 | the remove handler keeps the update bookkeeping of the members left |
| Scenes.DrawRemoved | DiegoG.MonoGame.Extended/Scene.cs:77-82 | the remove handler keeps the weaker draw bookkeeping, with the draw subscription still in place |
| Scenes.UpdateMoved | DiegoG.MonoGame.Extended/Scene.cs:121-125 | the UpdateOrderChanged handlers keep the update bookkeeping; the list is sorted again |
| Scenes.DrawMoved | DiegoG.MonoGame.Extended/Scene.cs:115-119 | the DrawOrderChanged handlers keep the draw bookkeeping |
| Scenes.DistinctAppend | DiegoG.MonoGame.Extended/Scene.cs:8 | appending a non-member keeps the collection free of repeats |
| Scenes.DistinctRemove | DiegoG.MonoGame.Extended/Scene.cs:8 | removing keeps the collection free of repeats |
| Scenes.Empty | DiegoG.MonoGame.Extended/Scene.cs:12-16 | a new scene holds and lists nothing, listens to its collection, has made no calls, and satisfies the invariant |
| Scenes.OnAdded | DiegoG.MonoGame.Extended/Scene.cs:95-113 | the add handler subscribes an updateable and a drawable, leaves the list of a kind the component is not untouched, initializes the component, and changes neither the collection nor the disposals |
| Scenes.OnAddedElements | DiegoG.MonoGame.Extended/Scene.cs:95-113 | the add handler lists an updateable and a drawable once more each |
| Scenes.Added | DiegoG.MonoGame.Extended/Scene.cs:95-113 | a component already held changes nothing; otherwise it joins the end of the collection and is initialized iff the scene listens, and a scene that does not listen keeps its lists |
| Scenes.OnRemoved | DiegoG.MonoGame.Extended/Scene.cs:74-93 | the remove handler leaves the lists of a kind the component is not untouched, keeps the draw subscriptions and the collection, and disposes a disposable component once |
| Scenes.OnRemovedElements | DiegoG.MonoGame.Extended/Scene.cs:74-93 | the remove handler takes one occurrence out of each list the component belongs to and out of the update subscriptions |
| Scenes.Removed | DiegoG.MonoGame.Extended/Scene.cs:74-93 | a component not held changes nothing; otherwise one occurrence leaves the collection, the draw subscriptions stay, and it is disposed iff the scene listens and it is disposable |
| Scenes.UpdateOrderSet | DiegoG.MonoGame.Extended/Scene.cs:121-125 | an unchanged key changes nothing; otherwise only the component's UpdateOrder and the update list change |
| Scenes.DrawOrderSet | DiegoG.MonoGame.Extended/Scene.cs:115-119 | an unchanged key changes nothing; otherwise only the component's DrawOrder and the draw list change |
| Scenes.Disposed | DiegoG.MonoGame.Extended/Scene.cs:53-70 | disposal detaches the collection handlers, keeps the world, the initializations and every order subscription, and only adds Dispose calls on disposable members |
| Scenes.AddedConsistent | DiegoG.MonoGame.Extended/Scene.cs:95-113 | adding a component keeps the scene's invariant |
| Scenes.AddedInserts | DiegoG.MonoGame.Extended/Scene.cs:95-113 | a new member joins the collection's end and is initialized once; it joins the update list iff updateable and the draw list iff drawable, each list staying sorted with the old members in their order |
| Scenes.RemovedConsistent | DiegoG.MonoGame.Extended/Scene.cs:74-93 | removing a component keeps the invariant |
| Scenes.RemovedDeletes | DiegoG.MonoGame.Extended/Scene.cs:74-93 | a removed member leaves the collection and the update list, loses its update subscription, and is disposed iff disposable |
| Scenes.RemovedKeepsDrawSubscription | DiegoG.MonoGame.Extended/Scene.cs:80-81 | a removed drawable loses one occurrence in the draw list, which stays sorted if it was, but its draw subscription survives |
| Scenes.UpdateOrderSetConsistent | DiegoG.MonoGame.Extended/Scene.cs:121-125 | setting UpdateOrder keeps the invariant |
| Scenes.UpdateOrderSetMoves | DiegoG.MonoGame.Extended/Scene.cs:160-167 | only the component's key changes; the update list is sorted by the new keys and keeps its members; the draw list and everything else are untouched |
| Scenes.DrawOrderSetConsistent | DiegoG.MonoGame.Extended/Scene.cs:115-119 | setting DrawOrder keeps the invariant |
| Scenes.DrawOrderSetMoves | DiegoG.MonoGame.Extended/Scene.cs:127-134 | only the key and the draw list change, and the draw list keeps its members |
| Scenes.DrawOrderSetSorts | DiegoG.MonoGame.Extended/Scene.cs:127-134 | a sorted draw list listing the component at most once is sorted by the new keys afterwards |
| Scenes.DisposedConsistent | DiegoG.MonoGame.Extended/Scene.cs:53-70 | disposal keeps the invariant |
| Scenes.DisposedClears | DiegoG.MonoGame.Extended/Scene.cs:53-70 | a disposed scene no longer reacts to adds; when no disposable member throws, each is disposed once more and the collection and both lists end empty |
| Scenes.DisposeInterrupted | DiegoG.MonoGame.Extended/Scene.cs:58-62 | disposal is interrupted iff a disposable member throws; then the members before the first such one are disposed, that one is the last call and its exception escapes, and the collection and both lists stay |
| Scenes.ReorderedAfterDispose | DiegoG.MonoGame.Extended/Scene.cs:53-70 | the order subscriptions survive disposal, so a former member whose UpdateOrder changes is listed again, alone when disposal completed |
| Scenes.UpdateCallsEachOnce | DiegoG.MonoGame.Extended/Scene.cs:23-36 | `Update` calls every enabled updateable member exactly once, nothing else, in UpdateOrder |
| Scenes.DrawCallsEachMember | DiegoG.MonoGame.Extended/Scene.cs:38-51 | `Draw` calls every visible drawable member, only visible subscribed drawables, in draw-list order |
| Scenes.OrderedAddSmaller | DiegoG.MonoGame.Extended/Scene.cs:179-182 | adding UpdateOrder 10 then 5 prepends the second |
| Scenes.OrderedAddEqual | DiegoG.MonoGame.Extended/Scene.cs:173-177 | adding a key equal to the last appends it after the equal key |
| Scenes.OrderedTakeOut | DiegoG.MonoGame.Extended/Scene.cs:164 | the re-order's removal step on the example list |
| Scenes.OrderedPutBack | DiegoG.MonoGame.Extended/Scene.cs:165 | the re-order's insertion step on the example list |
| Scenes.OrderedRaise | DiegoG.MonoGame.Extended/Scene.cs:160-167 | raising the first member's key to 20 moves it to the end |
| Scenes.UpdateOrderExample | DiegoG.MonoGame.Extended/Scene.cs:169-191 | keys 10, 5, 10 added in that order are listed 5, 10, 10; raising the 5 to 20 gives 10, 10, 20 |
| Scenes.StaleAddBoth | DiegoG.MonoGame.Extended/Scene.cs:95-103 | the stale-subscription scenario, step 1: two drawables added |
| Scenes.StaleRemove | DiegoG.MonoGame.Extended/Scene.cs:77-82 | step 2: removing one keeps its draw subscription |
| Scenes.StaleReorder | DiegoG.MonoGame.Extended/Scene.cs:127-134 | step 3: its DrawOrder changes and it is back in the draw list while not a member |
| Scenes.StaleAddAgain | DiegoG.MonoGame.Extended/Scene.cs:98-103 | step 4: adding it again lists it twice and subscribes twice |
| Scenes.StaleMoveTwice | DiegoG.MonoGame.Extended/Scene.cs:127-134 | two moves of a component listed twice with the smallest key leave the list as it was |
| Scenes.StaleReorderAgain | DiegoG.MonoGame.Extended/Scene.cs:115-119 | step 5: changing its DrawOrder again runs both stale handlers |
| Scenes.StaleDrawSubscription | DiegoG.MonoGame.Extended/Scene.cs:81 | the five steps together, from an empty scene |
| Scenes.StaleDrawTwice | DiegoG.MonoGame.Extended/Scene.cs:42-50 | the end state lists the component twice, out of DrawOrder, and draws it twice |
| Scenes.Scene.constructor | DiegoG.MonoGame.Extended/Scene.cs:12-16 | a new scene is empty, listens to its collection and keeps the invariant |
| Scenes.Scene.AddSortedUpdateable | DiegoG.MonoGame.Extended/Scene.cs:169-191 | the update list becomes the sorted insertion of the item, all else unchanged |
| Scenes.Scene.AddSortedDrawable | DiegoG.MonoGame.Extended/Scene.cs:136-158 | the draw list becomes the sorted insertion of the item by DrawOrder |
| Scenes.Scene.MoveSortedUpdateable | DiegoG.MonoGame.Extended/Scene.cs:160-167 | the update list becomes the move of the item |
| Scenes.Scene.MoveSortedDrawable | DiegoG.MonoGame.Extended/Scene.cs:127-134 | the draw list becomes the move of the item |
| Scenes.Scene.OnComponentAdded | DiegoG.MonoGame.Extended/Scene.cs:95-113 | the state becomes the add handler's; the component's Initialize exception, if any, escapes after the lists are updated |
| Scenes.Scene.OnComponentRemoved | DiegoG.MonoGame.Extended/Scene.cs:74-93 | the state becomes the remove handler's, with the mismatched draw unsubscription; a Dispose exception escapes after the lists are updated |
| Scenes.Scene.Add | DiegoG.MonoGame.Extended/Scene.cs:95-113 | fails with ArgumentException on a component already held, passes on the Initialize exception of a listening scene, otherwise passes; the new state is `Added`, and the invariant holds |
| Scenes.Scene.Remove | DiegoG.MonoGame.Extended/Scene.cs:74-93 | returns whether the component was held, or the exception of its Dispose; the new state is `Removed`, and the invariant holds |
| Scenes.Scene.SetUpdateOrder | DiegoG.MonoGame.Extended/Scene.cs:121-125 | the new state is `UpdateOrderSet`, with one move per subscription |
| Scenes.Scene.SetDrawOrder | DiegoG.MonoGame.Extended/Scene.cs:115-119 | the new state is `DrawOrderSet` |
| Scenes.Scene.Update | DiegoG.MonoGame.Extended/Scene.cs:27-35 | the loop calls the enabled members of the update list in list order until one throws, that exception escapes, and nothing changes |
| Scenes.Scene.Draw | DiegoG.MonoGame.Extended/Scene.cs:42-50 | the loop calls the visible members of the draw list in list order until one throws, and that exception escapes |
| Scenes.Scene.DisposeMembers | DiegoG.MonoGame.Extended/Scene.cs:58-62 | the loop disposes the disposable members in collection order until one throws, and that exception escapes |
| Scenes.Scene.Release | DiegoG.MonoGame.Extended/Scene.cs:55-67 | detaches the handlers and disposes the members; the new state is `Disposed`, and the outcome is the first Dispose exception |
| Scenes.Scene.Dispose | DiegoG.MonoGame.Extended/Scene.cs:53-70 | the new state is `Disposed`, the outcome is the first Dispose exception, and the invariant holds |
| DisposableObjects.Failed | DiegoG.MonoGame.Extended/DisposableObjectDictionary.cs:55-65 | no more exceptions are collected than disposals are made |
| DisposableObjects.FailedCount | DiegoG.MonoGame.Extended/DisposableObjectDictionary.cs:55-65 | a value whose disposal throws has one exception collected per occurrence in the values, so a value stored under two keys fails twice; a value that does not throw has none |
| DisposableObjects.FailedMembers | DiegoG.MonoGame.Extended/DisposableObjectDictionary.cs:55-68 | a value's exception is collected iff its disposal throws, and none are collected iff no disposal throws |
| DisposableObjects.ValuesAt | DiegoG.MonoGame.Extended/DisposableObjectDictionary.cs:50 | the values snapshot holds one value per key, the value under that key |
| DisposableObjects.EnumerationLength | DiegoG.MonoGame.Extended/DisposableObjectDictionary.cs:50 | an enumeration of the keys has one entry per key |
| DisposableObjects.DistinctCount | DiegoG.MonoGame.Extended/DisposableObjectDictionary.cs:50 | a key list without repeats has as many keys as elements |
| DisposableObjects.NoneFailed | DiegoG.MonoGame.Extended/DisposableObjectDictionary.cs:67-68 | no exception is collected iff no stored value throws on disposal |
| DisposableObjects.DisposableObjectDictionary.constructor | DiegoG.MonoGame.Extended/DisposableObjectDictionary.cs:9-10 | starts with no keys, no tracked values and no disposals |
| DisposableObjects.DisposableObjectDictionary.Add | DiegoG.MonoGame.Extended/DisposableObjectDictionary.cs:12-17 | a new value is tracked and an ArgumentException is thrown with the dictionary unchanged; a tracked value under a present key throws; otherwise the key maps to the value |
| DisposableObjects.DisposableObjectDictionary.RemoveWithoutDisposing | DiegoG.MonoGame.Extended/DisposableObjectDictionary.cs:19-28 | returns whether the key was present; removes it and untracks its value, disposing nothing |
| DisposableObjects.DisposableObjectDictionary.Remove | DiegoG.MonoGame.Extended/DisposableObjectDictionary.cs:30-40 | the same state change, and the value is disposed exactly once; its exception propagates |
| DisposableObjects.DisposableObjectDictionary.ClearWithoutDisposing | DiegoG.MonoGame.Extended/DisposableObjectDictionary.cs:42-46 | both collections end empty and nothing is disposed |
| DisposableObjects.DisposableObjectDictionary.Values | DiegoG.MonoGame.Extended/DisposableObjectDictionary.cs:50 | the snapshot lists each key's value once, in some order of the keys |
| DisposableObjects.DisposableObjectDictionary.DisposeEach | DiegoG.MonoGame.Extended/DisposableObjectDictionary.cs:54-65 | every value is disposed in order, and the failures are those that threw |
| DisposableObjects.DisposableObjectDictionary.Clear | DiegoG.MonoGame.Extended/DisposableObjectDictionary.cs:48-69 | empties both collections, disposes every stored value once, and raises the aggregate error iff some disposal threw |
| DisposableObjects.DisposableObjectDictionary.ContainsKey | DiegoG.MonoGame.Extended/DisposableObjectDictionary.cs:71 | true iff the key is stored |
| DisposableObjects.DisposableObjectDictionary.TryGetValue | DiegoG.MonoGame.Extended/DisposableObjectDictionary.cs:73 | finds a value iff the key is stored, and then the stored value |
| DisposableObjects.DisposableObjectDictionary.Get | DiegoG.MonoGame.Extended/DisposableObjectDictionary.cs:75 | the stored value, or KeyNotFoundException for an absent key |
| DisposableObjects.DisposableObjectDictionary.Count | DiegoG.MonoGame.Extended/DisposableObjectDictionary.cs:81 | the number of keys |
| DisposableObjects.DisposableObjectDictionary.Dispose | DiegoG.MonoGame.Extended/DisposableObjectDictionary.cs:89-92 | exactly what `Clear` does |
| Deferrer.For | DiegoG.MonoGame.Extended/CallDeferrer.cs:37-42 | the calls that reach a queue are exactly the calls deferred to it, at most one per deferral |
| Deferrer.ForAppend | DiegoG.MonoGame.Extended/CallDeferrer.cs:37-42 | deferrals made one after another reach a queue in the order made |
| Deferrer.EnqueueAllQueues | DiegoG.MonoGame.Extended/CallDeferrer.cs:37-42 | each queue grows by exactly the calls deferred to it, in order |
| Deferrer.NextProgress | DiegoG.MonoGame.Extended/CallDeferrer.cs:46 | each round of a drain uses up a reaction or shortens the queue |
| Deferrer.WithQueueReplaces | DiegoG.MonoGame.Extended/CallDeferrer.cs:46 | replacing one queue leaves the other three as they were |
| Deferrer.Enqueue | DiegoG.MonoGame.Extended/CallDeferrer.cs:37 | a deferral joins the back of its own queue, and only that queue changes |
| Deferrer.Drain | DiegoG.MonoGame.Extended/CallDeferrer.cs:44-47 | a drain that ends in an exception reports the last invocation it made |
| Deferrer.Calls | DiegoG.MonoGame.Extended/CallDeferrer.cs:46 | one call per invocation |
| Deferrer.DrainStep | DiegoG.MonoGame.Extended/CallDeferrer.cs:46 | a round dequeues the front call, invokes it, then the drain goes on |
| Deferrer.DrainThrows | DiegoG.MonoGame.Extended/CallDeferrer.cs:46 | a round whose invocation throws ends the drain with that invocation and the queues of that round |
| Deferrer.DrainRound | DiegoG.MonoGame.Extended/CallDeferrer.cs:46 | a drain before a round that does not throw is that round followed by the drain after it |
| Deferrer.DrainRoundThrows | DiegoG.MonoGame.Extended/CallDeferrer.cs:46 | a round that throws completes the drain pending before it, with the round's queues, invocations and exception |
| Deferrer.DrainAdvance | DiegoG.MonoGame.Extended/CallDeferrer.cs:46 | one round of the loop, thrown or not: a thrown round completes the pending drain; a round that does not throw leaves a drain that finishes it, and uses up a reaction or shortens the queue |
| Deferrer.DrainRoundOutcome | DiegoG.MonoGame.Extended/CallDeferrer.cs:46 | after a round that does not throw, the rest of the drain ends as the whole drain does |
| Deferrer.DrainIdle | DiegoG.MonoGame.Extended/CallDeferrer.cs:46 | draining an empty queue invokes nothing and changes nothing |
| Deferrer.DrainStopsAtThrow | DiegoG.MonoGame.Extended/CallDeferrer.cs:44-47 | a drain fails exactly when its last invocation throws, and no earlier invocation throws |
| Deferrer.DrainEmpties | DiegoG.MonoGame.Extended/CallDeferrer.cs:44-47 | a drain that ends without an exception leaves its queue empty |
| Deferrer.NextQueues | DiegoG.MonoGame.Extended/CallDeferrer.cs:46 | a round shortens the drained queue by its front and extends every queue by what the invocation deferred |
| Deferrer.DrainInvokes | DiegoG.MonoGame.Extended/CallDeferrer.cs:44-47 | the calls a drain invokes followed by what is left in its queue are the calls queued before it followed by those its invocations deferred to the same queue, in FIFO order |
| Deferrer.ThrownRound | DiegoG.MonoGame.Extended/CallDeferrer.cs:46 | the invocation of a round that throws followed by the queue it leaves is the queue before it plus what that invocation deferred |
| Deferrer.DrainArguments | DiegoG.MonoGame.Extended/CallDeferrer.cs:46 | every invocation passes the deferrer's game and the given time |
| Deferrer.DrainQueues | DiegoG.MonoGame.Extended/CallDeferrer.cs:49-52 | every other queue gains exactly what the invocations deferred to it |
| Deferrer.CallDeferrer.constructor | DiegoG.MonoGame.Extended/CallDeferrer.cs:28-35 | four empty queues and no invocations, with the given callbacks |
| Deferrer.CallDeferrer.DeferTo | DiegoG.MonoGame.Extended/CallDeferrer.cs:37 | the action joins the back of its queue, the other three unchanged |
| Deferrer.CallDeferrer.DeferToUpdateStart | DiegoG.MonoGame.Extended/CallDeferrer.cs:39 | the action joins the back of the update-start queue only |
| Deferrer.CallDeferrer.DeferToUpdateEnd | DiegoG.MonoGame.Extended/CallDeferrer.cs:40 | the action joins the back of the update-end queue only |
| Deferrer.CallDeferrer.DeferToDrawStart | DiegoG.MonoGame.Extended/CallDeferrer.cs:41 | the action joins the back of the draw-start queue only |
| Deferrer.CallDeferrer.DeferToDrawEnd | DiegoG.MonoGame.Extended/CallDeferrer.cs:42 | the action joins the back of the draw-end queue only |
| Deferrer.CallDeferrer.RunCallback | DiegoG.MonoGame.Extended/CallDeferrer.cs:46 | a callback's deferrals are enqueued one after another |
| Deferrer.CallDeferrer.Dequeue | DiegoG.MonoGame.Extended/CallDeferrer.cs:46 | `TryDequeue` on a non-empty queue returns its front and removes it |
| Deferrer.CallDeferrer.InvokeNext | DiegoG.MonoGame.Extended/CallDeferrer.cs:46 | one round: dequeue, invoke with the game and time, apply the callback's deferrals, and pass on the exception of an invocation that throws; the drain pending before it is then complete (when it threw) or finished by the drain after it, which is smaller |
| Deferrer.CallDeferrer.Execute | DiegoG.MonoGame.Extended/CallDeferrer.cs:44-47 | the loop runs the drain until the queue is empty or an invocation throws: the queues, the invocations and the outcome become the drain's |
| Deferrer.CallDeferrer.ExecuteUpdateStartDeferredCalls | DiegoG.MonoGame.Extended/CallDeferrer.cs:49 | drains the update-start queue, with the drain's outcome |
| Deferrer.CallDeferrer.ExecuteUpdateEndDeferredCalls | DiegoG.MonoGame.Extended/CallDeferrer.cs:50 | drains the update-end queue, with the drain's outcome |
| Deferrer.CallDeferrer.ExecuteDrawStartDeferredCalls | DiegoG.MonoGame.Extended/CallDeferrer.cs:51 | drains the draw-start queue, with the drain's outcome |
| Deferrer.CallDeferrer.ExecuteDrawEndDeferredCalls | DiegoG.MonoGame.Extended/CallDeferrer.cs:52 | drains the draw-end queue, with the drain's outcome |
| Movement.Ordinal | DiegoG.MonoGame.Extended/DirectionMovementState.cs:6-12 | the enum value of a direction is one of 0 to 3 |
| Movement.FromOrdinal | DiegoG.MonoGame.Extended/DirectionMovementState.cs:127-130 | the cast `(CardinalDirection)n` of 0 to 3 is the direction with that value |
| Movement.Create | DiegoG.MonoGame.Extended/DirectionMovementState.cs:23-28 | the position and the initial position are both the given point; the direction is the enum's default, North |
| Movement.Moved | DiegoG.MonoGame.Extended/DirectionMovementState.cs:32-51 | exactly one coordinate moves one step (West +X, East -X, South +Y, North -Y, wrapping); the direction and initial position are kept |
| Movement.MoveBack | DiegoG.MonoGame.Extended/DirectionMovementState.cs:32-51 | a move in the opposite direction undoes a move |
| Movement.Randomized | DiegoG.MonoGame.Extended/DirectionMovementState.cs:127-130 | the direction becomes the one numbered `draw % 4` and nothing else changes |
| Movement.ClampX | DiegoG.MonoGame.Extended/DirectionMovementState.cs:69-70 | X at or past Right becomes Right - 1, negative X becomes 0, and an X inside is kept |
| Movement.ClampY | DiegoG.MonoGame.Extended/DirectionMovementState.cs:97-98 | the same for Y with Bottom |
| Movement.ResetTo | DiegoG.MonoGame.Extended/DirectionMovementState.cs:85-92 | back to the initial position, keeping the direction for Reset and taking the drawn one for ResetAndChangeDirection |
| Movement.HorizontalReaction | DiegoG.MonoGame.Extended/DirectionMovementState.cs:74-92 | throws InvalidOperationException iff Bounce meets the edge heading North or South, and then changes nothing; keeps the initial position, and only the Reset reactions move the state |
| Movement.VerticalReaction | DiegoG.MonoGame.Extended/DirectionMovementState.cs:102-121 | the same at the vertical edge, throwing iff Bounce heads West or East |
| Movement.StopStep | DiegoG.MonoGame.Extended/DirectionMovementState.cs:58-65 | the conditional step keeps the direction and the initial position, and changes nothing unless Stop mode's condition holds |
| Movement.EdgeReaction | DiegoG.MonoGame.Extended/DirectionMovementState.cs:67-124 | throws iff Bounce meets the horizontal edge heading North or South; away from both edges nothing happens |
| Movement.WithinBounds | DiegoG.MonoGame.Extended/DirectionMovementState.cs:56-125 | the only exception is InvalidOperationException; the initial position is kept; a call that does not throw ends with the final move |
| Movement.InitialKept | DiegoG.MonoGame.Extended/DirectionMovementState.cs:56-125 | `MoveWithinBounds` never changes the initial position |
| Movement.ThrowsExactly | DiegoG.MonoGame.Extended/DirectionMovementState.cs:74-81 | it throws InvalidOperationException iff Bounce meets the horizontal edge while heading North or South, after clamping X |
| Movement.StopMovesTwice | DiegoG.MonoGame.Extended/DirectionMovementState.cs:58-65 | in Stop mode with the stop condition true the state moves twice in one call |
| Movement.InsideOneStep | DiegoG.MonoGame.Extended/DirectionMovementState.cs:67-124 | away from both edges the call is a single move |
| Movement.BounceHorizontal | DiegoG.MonoGame.Extended/DirectionMovementState.cs:74-81 | at the horizontal edge Bounce clamps X, swaps West and East, then moves |
| Movement.BounceVertical | DiegoG.MonoGame.Extended/DirectionMovementState.cs:102-109 | at the vertical edge Bounce clamps Y, swaps North and South, then moves |
| Movement.SlideHorizontal | DiegoG.MonoGame.Extended/DirectionMovementState.cs:82-84 | at the horizontal edge Slide turns North iff `Y - Top > Bottom - Y`, else South |
| Movement.SlideVertical | DiegoG.MonoGame.Extended/DirectionMovementState.cs:110-112 | at the vertical edge Slide turns East iff `X - Left > Right - X`, else West |
| Movement.ResetAtEdge | DiegoG.MonoGame.Extended/DirectionMovementState.cs:85-92 | at either edge Reset returns to the initial position before the final move; ResetAndChangeDirection also takes the drawn direction |
| Movement.DirectionMovementState.Position | DiegoG.MonoGame.Extended/DirectionMovementState.cs:29 | the point (X, Y) |
| Movement.DirectionMovementState.constructor | DiegoG.MonoGame.Extended/DirectionMovementState.cs:23-28 | the state is `Create(x, y)` |
| Movement.DirectionMovementState.Move | DiegoG.MonoGame.Extended/DirectionMovementState.cs:32-51 | the state becomes `Moved` of the old one |
| Movement.DirectionMovementState.RandomizeDirection | DiegoG.MonoGame.Extended/DirectionMovementState.cs:127-130 | the state becomes `Randomized` of the old one |
| Movement.DirectionMovementState.MoveWithinBounds | DiegoG.MonoGame.Extended/DirectionMovementState.cs:56-125 | the state and outcome are those of `WithinBounds` |
| Movement.DirectionMovementState.HorizontalEdgeBranch | DiegoG.MonoGame.Extended/DirectionMovementState.cs:67-93 | the horizontal branch clamps X and then reacts |
| Movement.DirectionMovementState.VerticalEdgeBranch | DiegoG.MonoGame.Extended/DirectionMovementState.cs:95-122 | the vertical branch clamps Y and then reacts |
| Grids.GetOffset | DiegoG.MonoGame.Extended/SquareGrid.cs:107-114 | None gives 0; Center and CellSize succeed; any other value throws ArgumentException naming it |
| Grids.OffsetsWithinCell | DiegoG.MonoGame.Extended/SquareGrid.cs:107-114 | the offsets are 0, half the scale and the scale |
| Grids.Position | DiegoG.MonoGame.Extended/SquareGrid.cs:101-105 | succeeds iff both offsets are known; then index times scale plus offset, on each axis |
| Grids.PositionWithoutOffset | DiegoG.MonoGame.Extended/SquareGrid.cs:101-105 | with default offsets the position is index times scale |
| Grids.FarEdgeIsNextCell | DiegoG.MonoGame.Extended/SquareGrid.cs:101-112 | a cell's far corner is the next cell's origin |
| Grids.CenterIsMidCell | DiegoG.MonoGame.Extended/SquareGrid.cs:101-111 | a cell's centre is halfway across it |
| Grids.Area | DiegoG.MonoGame.Extended/SquareGrid.cs:86-99 | succeeds iff all four offsets are known; then the four scaled coordinates with their offsets |
| Grids.AreaCoversEndCells | DiegoG.MonoGame.Extended/SquareGrid.cs:86-99 | with default offsets the area runs from the first cell's origin to the far side of the second |
| Grids.SquareGrid.Cell | DiegoG.MonoGame.Extended/SquareGrid.cs:63-64 | the indexer is index times scale |
| Grids.SquareGrid.GetPosition | DiegoG.MonoGame.Extended/SquareGrid.cs:75-76 | the grid's scales passed to `Position` |
| Grids.SquareGrid.GetArea | DiegoG.MonoGame.Extended/SquareGrid.cs:66-73 | the grid's scales passed to `Area` |
| Grids.SquareGrid.GetXOffset | DiegoG.MonoGame.Extended/SquareGrid.cs:78-79 | None gives 0, Center half the cell width, CellSize the cell width; any other value throws ArgumentException naming it |
| Grids.SquareGrid.GetYOffset | DiegoG.MonoGame.Extended/SquareGrid.cs:81-82 | the same with the cell height |
| Grids.Uniform | DiegoG.MonoGame.Extended/SquareGrid.cs:60-61 | the single-scale constructor sets both scales to it |
| Grids.CheckCell | DiegoG.MonoGame.Extended/SquareGrid.cs:18-21 | passes iff both indices are in `1..cells`, else names an offending argument, checking the upper bounds of x and y before their lower bounds |
| Grids.CheckArea | DiegoG.MonoGame.Extended/SquareGrid.cs:35-42 | passes iff all four indices are in range, else names an offending argument, in the order of the checks: the upper bounds of x1, x2, y1, y2, then the lower bounds of x1, y1, x2, y2 |
| Grids.BoundedSquareGrid.Cell | DiegoG.MonoGame.Extended/SquareGrid.cs:14-25 | succeeds iff both indices are in range, and then is the grid's cell |
| Grids.BoundedSquareGrid.GetPosition | DiegoG.MonoGame.Extended/SquareGrid.cs:47-55 | fails on an index out of range, otherwise delegates unchanged |
| Grids.BoundedSquareGrid.GetArea | DiegoG.MonoGame.Extended/SquareGrid.cs:27-45 | fails on an index out of range, otherwise delegates unchanged |
| Grids.ZeroRejected | DiegoG.MonoGame.Extended/SquareGrid.cs:51-52 | index 0 is rejected |
| DataGrids.DataGrid.constructor | DiegoG.MonoGame.Extended/DataGrid.cs:70-71 | the array is `XCells × YCells` |
| DataGrids.New | DiegoG.MonoGame.Extended/DataGrid.cs:70 | allocation fails with OverflowException iff a dimension is negative |
| DataGrids.DataGrid.Cell | DiegoG.MonoGame.Extended/DataGrid.cs:73-84 | succeeds iff `0 <= x <= XCells` and `0 <= y <= YCells`, and then carries (x, y); otherwise names x or y, the upper bounds checked before the lower ones |
| DataGrids.DataGrid.GetCells | DiegoG.MonoGame.Extended/DataGrid.cs:86-87 | a fresh enumerator at (0, 0) |
| DataGrids.CellData.GetPosition | DiegoG.MonoGame.Extended/DataGrid.cs:50-51 | the bounded grid's position, which fails outside `1..cells` |
| DataGrids.CellData.AreaF | DiegoG.MonoGame.Extended/DataGrid.cs:53-58 | the cell's rectangle: index times scale, one scale wide and high |
| DataGrids.CellData.Data | DiegoG.MonoGame.Extended/DataGrid.cs:67 | the array element, or IndexOutOfRangeException outside the array |
| DataGrids.CellData.SetData | DiegoG.MonoGame.Extended/DataGrid.cs:67 | writing through the reference changes only this cell |
| DataGrids.LastIndexHasNoData | DiegoG.MonoGame.Extended/DataGrid.cs:77 | the indexer accepts `x == XCells`, but that cell has no data |
| DataGrids.ZeroIndexHasNoPosition | DiegoG.MonoGame.Extended/DataGrid.cs:79-80 | the indexer accepts 0, but that cell has no position |
| DataGrids.Step | DiegoG.MonoGame.Extended/DataGrid.cs:16-27 | below 100 the indices stay; at 100 x advances and y resets; true iff x is below 100 |
| DataGrids.Steps | DiegoG.MonoGame.Extended/DataGrid.cs:16-27 | each call returns true iff the column index is below 100; while the row index is below 100, no number of calls moves the indices |
| DataGrids.StuckAtStart | DiegoG.MonoGame.Extended/DataGrid.cs:16-27 | from the start every call returns true on cell (0, 0) |
| DataGrids.EndIsFinal | DiegoG.MonoGame.Extended/DataGrid.cs:24 | once past the limit every call returns false |
| DataGrids.CellDataEnumerator.constructor | DiegoG.MonoGame.Extended/DataGrid.cs:9-12 | starts at (0, 0) with no current cell |
| DataGrids.CellDataEnumerator.MoveNext | DiegoG.MonoGame.Extended/DataGrid.cs:16-27 | the indices and result are `Step`'s; on true the current cell is (x, y) |
| DataGrids.CellDataEnumerator.Reset | DiegoG.MonoGame.Extended/DataGrid.cs:29-32 | both indices become 0 |
| Vectors.ToUnsigned | DiegoG.MonoGame.Extended/VectorExtensions.cs:10-11 | `(uint)a` keeps a non-negative int and adds 2^32 to a negative one |
| Vectors.ToSigned | DiegoG.MonoGame.Extended/VectorExtensions.cs:24 | `(int)w` is two's complement |
| Vectors.SignedUnsigned | DiegoG.MonoGame.Extended/VectorExtensions.cs:10-24 | the int-to-uint cast is inverted by the uint-to-int cast |
| Vectors.UnsignedSigned | DiegoG.MonoGame.Extended/VectorExtensions.cs:18-24 | and the other way round |
| Vectors.Low | DiegoG.MonoGame.Common/VectorExtensions.cs:27 | `(uint)packed` differs from the value by a multiple of 2^32 |
| Vectors.High | DiegoG.MonoGame.Common/VectorExtensions.cs:28 | `packed >> 32` is the number of whole 2^32 steps in the value |
| Vectors.PackWords | DiegoG.MonoGame.Extended/VectorExtensions.cs:14-15 | the low half of `Pack(a, b)` is a and the high half b |
| Vectors.PackHalves | DiegoG.MonoGame.Common/VectorExtensions.cs:19-20 | the low 32 bits of `Pack(a, b)` are a and the high 32 bits b |
| Vectors.HalvesPack | DiegoG.MonoGame.Extended/VectorExtensions.cs:14-25 | every `ulong` is the packing of its halves |
| Vectors.Pack | DiegoG.MonoGame.Extended/VectorExtensions.cs:10-15 | the low half of `Pack(a, b)` is `(uint)a` and the high half `(uint)b` |
| Vectors.Unpack | DiegoG.MonoGame.Extended/VectorExtensions.cs:18-25 | the two ints are the two halves read back as ints |
| Vectors.UnpackPack | DiegoG.MonoGame.Extended/VectorExtensions.cs:10-25 | `Unpack(Pack(a, b)) == (a, b)` for all ints, negatives included |
| Vectors.PackUnpack | DiegoG.MonoGame.Common/VectorExtensions.cs:15-30 | `Pack(Unpack(u)) == u` for every `ulong` |
| Vectors.ToLong | DiegoG.MonoGame.Extended/VectorExtensions.cs:28-29 | unpacking a point's long gives its X and Y |
| Vectors.ToPoint | DiegoG.MonoGame.Extended/VectorExtensions.cs:32-33 | `ToPoint` reads the halves as `Unpack` does |
| Vectors.PointRoundTrip | DiegoG.MonoGame.Common/VectorExtensions.cs:33-38 | `ToPoint(ToLong(p)) == p` |
| Vectors.LongRoundTrip | DiegoG.MonoGame.Extended/VectorExtensions.cs:28-33 | `ToLong(ToPoint(v)) == v` |
| Vectors.CornersAreEdges | DiegoG.MonoGame.Extended/VectorExtensions.cs:56-66 | each corner pairs the rectangle's Left or Right with its Top or Bottom |
| Vectors.TopLeft | DiegoG.MonoGame.Extended/VectorExtensions.cs:62-63 | the corner at Left and Top |
| Vectors.TopRight | DiegoG.MonoGame.Extended/VectorExtensions.cs:56-57 | the corner at Right and Top |
| Vectors.BottomLeft | DiegoG.MonoGame.Extended/VectorExtensions.cs:59-60 | the corner at Left and Bottom |
| Vectors.BottomRight | DiegoG.MonoGame.Extended/VectorExtensions.cs:65-66 | the corner at Right and Bottom |
| Vectors.Scaled | DiegoG.MonoGame.Extended/VectorExtensions.cs:44-54 | the rectangle every scaled corner is taken from; a factor of 1 keeps it and 0 collapses it |
| Vectors.TopLeftScaled | DiegoG.MonoGame.Extended/VectorExtensions.cs:50-51 | the top-left corner of the scaled rectangle |
| Vectors.TopRightScaled | DiegoG.MonoGame.Extended/VectorExtensions.cs:44-45 | the top-right corner of the scaled rectangle |
| Vectors.BottomLeftScaled | DiegoG.MonoGame.Extended/VectorExtensions.cs:47-48 | the bottom-left corner of the scaled rectangle |
| Vectors.BottomRightScaled | DiegoG.MonoGame.Extended/VectorExtensions.cs:53-54 | the bottom-right corner of the scaled rectangle |
| Vectors.ScaledCorners | DiegoG.MonoGame.Extended/VectorExtensions.cs:44-54 | each scaled corner is the corner of the rectangle with every term times `mult`; a factor of 1 changes nothing |
| Vectors.WrapAdd | DiegoG.MonoGame.Extended/VectorExtensions.cs:73-77 | wrapping after each addition is wrapping the exact sum once |
| Vectors.SumsStep | DiegoG.MonoGame.Extended/VectorExtensions.cs:73-77 | one more point adds its coordinates to the wrapped running sums |
| Vectors.FindCentroid | DiegoG.MonoGame.Extended/VectorExtensions.cs:68-80 | throws DivideByZeroException iff the list is empty; otherwise each coordinate is the wrapped sum divided by the count, truncating |
| Vectors.SumXBounds | DiegoG.MonoGame.Extended/VectorExtensions.cs:73-77 | the X sum lies between the count times the least and the greatest X |
| Vectors.SumYBounds | DiegoG.MonoGame.Extended/VectorExtensions.cs:73-77 | the same for Y |
| Vectors.QuotBetween | DiegoG.MonoGame.Extended/VectorExtensions.cs:79 | a truncated average of values between lo and hi lies between lo and hi |
| Vectors.CentroidInBoundingBox | DiegoG.MonoGame.Extended/VectorExtensions.cs:68-80 | when the sums do not overflow, the centroid lies within the points' bounding box |
| Geometry.SidesOnEdges | DiegoG.MonoGame.Extended/GeometryExtensions.cs:18-21 | each side midpoint lies on its side; top and bottom share X, left and right share Y |
| Geometry.CenterTop | DiegoG.MonoGame.Extended/GeometryExtensions.cs:18 | lies on the Top edge |
| Geometry.CenterBottom | DiegoG.MonoGame.Extended/GeometryExtensions.cs:19 | lies on the Bottom edge, below CenterTop |
| Geometry.CenterRight | DiegoG.MonoGame.Extended/GeometryExtensions.cs:20 | lies on the Right edge, level with CenterLeft |
| Geometry.CenterLeft | DiegoG.MonoGame.Extended/GeometryExtensions.cs:21 | lies on the Left edge |
| Geometry.HorizontalMidpoint | DiegoG.MonoGame.Extended/GeometryExtensions.cs:18-19 | without overflow, the X of CenterTop lies between Left and Right and halves the width, give or take one |
| Geometry.VerticalMidpoint | DiegoG.MonoGame.Extended/GeometryExtensions.cs:20-21 | the same for the Y of CenterLeft between Top and Bottom |
| Mouse.Remember | DiegoG.MonoGame.Extended/MouseStateMemory.cs:8-13 | the state is kept with zero deltas |
| Mouse.Between | DiegoG.MonoGame.Extended/MouseStateMemory.cs:15-23 | the new state is kept, and the old position plus the position delta, with wrap-around, is the new position |
| Mouse.Following | DiegoG.MonoGame.Extended/MouseStateMemory.cs:25-26 | the new state is kept, and following a memory with its own last state gives zero deltas |
| Mouse.DeltasRestore | DiegoG.MonoGame.Extended/MouseStateMemory.cs:15-23 | the new state is kept, and adding the deltas to the old state gives the new position and wheel values |
| Mouse.StillHasNoDelta | DiegoG.MonoGame.Extended/MouseStateMemory.cs:15-23 | the same state twice gives zero deltas |
| Mouse.FollowingChains | DiegoG.MonoGame.Extended/MouseStateMemory.cs:25-26 | the chaining constructor is the two-state constructor on the memory's last state |

## Left out

- Locks in `Scene` (`lock (updateables)`, `lock (drawables)`): the model is sequential.
- Engine event plumbing: the component collection's add and remove notifications and the order-changed events are explicit calls. The collection comes from MonoGame, which is not part of this model; only its duplicate check and its remove result are modelled.
- `Scenes.Scene.AddSortedDrawable`: `drawables.BinarySearch(item)` uses the element type's default comparison, which lives in the .NET library and the component's own class. The model takes it to order by DrawOrder, through the DrawOrder overload of the order comparer. The exception the default comparison can raise is not modelled.
- `LoadContent` and the base class's `Update`, `Draw` and `Dispose`: engine code.
- `CallDeferrerExtensions`: it looks up the deferrer through the game's service container.
- CallDeferrer callbacks: a callback is modelled by the list of calls it defers, given up front for each invocation in turn, and by whether it throws once it has deferred them. A drain that a callback keeps refilling forever is therefore not modelled.
- Re-entrancy: in `Scenes.Scene.Update`, `Scenes.Scene.Draw`, `Scenes.Scene.OnComponentAdded`, `Scenes.Scene.OnComponentRemoved` and `Scenes.Scene.DisposeMembers` a callee may throw, but it may not add or remove scene members, change an UpdateOrder, DrawOrder, Enabled or Visible, or dispose the scene while the loop or handler runs; the C# loops re-read `Count` and the list on every round, which the model does not capture. Likewise `Deferrer.CallDeferrer.InvokeNext` and `Deferrer.CallDeferrer.Execute` let a callback defer calls and throw, but not drain a queue itself from inside the drain.
- Deferrer.WithQueue, Deferrer.EnqueueAll: carry no ensures of their own, which keeps the drain proofs small; what they do to the queues is stated by `WithQueueReplaces`, `Enqueue` and `EnqueueAllQueues`.
- Movement.StopMoves, Movement.AtHorizontalEdge, Movement.AtVerticalEdge: predicates that spell out the code's conditions; what follows from them is stated by `StopStep`, `EdgeReaction`, `StopMovesTwice`, `InsideOneStep` and `ThrowsExactly`.
- The order in which `Dictionary.Values` lists values is unspecified. `Clear` is stated for some enumeration of the keys.
- Exception message texts in the dictionary, the grids and the scene are constants copied from the code, not the framework's formatting.
- `Movement.FromOrdinal`: the `default` throw of `Move` is unreachable on the four named directions, and so is the throw of vertical Bounce. A direction outside the enum is not modelled.
- The `RectangleF` overload of `MoveWithinBounds`, the `RectangleF` block of `GeometryExtensions`, `ToRectangle` and `SortVertices`: floating point.
- `CellData.Area`: float-to-int casts.
- Floats (`SquareGrid`, `AreaF`, wheel deltas) are `real`, without IEEE rounding. `Mouse.DeltasRestore` assumes the int-to-float widening of a wheel difference is exact.
- `RandomizeDirection` takes the result of `Random.Shared.Next()` as a parameter, a value in `0..int.MaxValue-1`.
- Struct copy semantics: `GetEnumerator` returns a copy of the enumerator struct; the model has one enumerator object.
- `Vectors.PackWords`: `uint` and `ulong` are modelled by their values. The bitwise `|`, `<<` and `>>` of the packing code are the equivalent arithmetic `+`, `* 2^32` and `/ 2^32`, which agree because the two halves do not overlap.
- Int32.Wrap, Int32.Add, Int32.Sub, Int32.Mul, Int32.Quot, Int32.AddSub, Int32.SubAdd and the Seqs lemmas have no row: they state C# integer semantics and facts about sequences, not code of the repository.
