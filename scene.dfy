/**
 * Scene: a drawable game component that owns a collection of child
 * components, keeps the updateable ones in a list sorted by UpdateOrder and
 * the drawable ones in a list sorted by DrawOrder, keeps both sorted as
 * children come and go and change their keys, and dispatches Update and
 * Draw over them.
 *
 * A scene's state is the value `SceneState`; each thing that can happen to
 * a scene is a pure transition on it (`Added`, `Removed`, `UpdateOrderSet`,
 * `DrawOrderSet`, `Disposed`), and the lemmas below say what each
 * transition does and that it keeps `Consistent`. The class `Scene` holds
 * the same state in fields and changes it in place through methods proved
 * against the transitions.
 *
 * The host framework's part is modelled as follows: its component
 * collection refuses a component it already holds, appends otherwise and
 * then raises ComponentAdded; removal of an absent component does nothing,
 * removal of a present one raises ComponentRemoved; a component raises
 * UpdateOrderChanged / DrawOrderChanged only when the key really changes,
 * running each subscribed handler once per subscription.
 */
module Scenes {
  import opened Wrappers
  import opened Int32
  import opened Xna
  import opened GameComponents
  import opened OrderComparer
  import opened SceneLists
  import opened Seqs

  /**
   * The update side of a scene's bookkeeping. Each subscription to
   * `UpdateOrderChanged` is single and belongs to an updateable; the list
   * is sorted by UpdateOrder and holds only subscribed components; while
   * the collection is observed it holds exactly the updateable members.
   */
  ghost predicate UpdateBookkeeping(w: World, components: seq<Component>, listening: bool,
                                    updateables: seq<Component>, subs: multiset<Component>) {
    (forall c :: c in subs ==> subs[c] == 1 && c.isUpdateable) &&
    multiset(updateables) <= subs &&
    (listening ==> multiset(updateables) == subs) &&
    (listening ==> forall c :: c in components ==> (c in subs <==> c.isUpdateable)) &&
    (listening ==> forall c :: c in subs ==> c in components) &&
    SortedBy(UpdateOrder, w, updateables)
  }

  /**
   * The draw side, weaker because removal never unsubscribes the draw
   * handler: subscriptions belong to drawables, the list holds only
   * subscribed components, and while the collection is observed every
   * drawable member is in the list.
   */
  ghost predicate DrawBookkeeping(components: seq<Component>, listening: bool,
                                  drawables: seq<Component>, subs: multiset<Component>) {
    (forall c :: c in subs ==> c.isDrawable) &&
    (forall c :: c in drawables ==> c in subs) &&
    (listening ==> forall c :: c in components && c.isDrawable ==> c in drawables)
  }

  /** The `ComponentAdded` handler keeps the update bookkeeping of a new member. */
  lemma UpdateAdded(w: World, components: seq<Component>, updateables: seq<Component>,
                    subs: multiset<Component>, c: Component, updateables': seq<Component>, subs': multiset<Component>)
    requires UpdateBookkeeping(w, components, true, updateables, subs) && c !in components
    requires updateables' == if c.isUpdateable then InsertSorted(UpdateOrder, w, updateables, c) else updateables
    requires subs' == subs + if c.isUpdateable then multiset{c} else multiset{}
    ensures UpdateBookkeeping(w, components + [c], true, updateables', subs')
    ensures c in updateables' <==> c.isUpdateable
  {
    var comps := components + [c];
    if c.isUpdateable {
      var r := updateables';
      InsertSortedElements(UpdateOrder, w, updateables, c);
      InsertSortedKeepsOrder(UpdateOrder, w, updateables, c);
      assert c !in subs;
      assert multiset(r) == subs';
      forall x | x in subs' ensures subs'[x] == 1 && x.isUpdateable && x in comps {
        if x != c {
          assert x in subs;
        }
      }
      forall x | x in comps ensures x in subs' <==> x.isUpdateable {
        if x != c {
          assert x in components;
        }
      }
    } else {
      forall x | x in comps ensures x in subs <==> x.isUpdateable {
        if x != c {
          assert x in components;
        }
      }
      assert c !in subs;
    }
  }

  /** The `ComponentAdded` handler keeps the draw bookkeeping of a new member. */
  lemma DrawAdded(w: World, components: seq<Component>, drawables: seq<Component>,
                  subs: multiset<Component>, c: Component, drawables': seq<Component>, subs': multiset<Component>)
    requires DrawBookkeeping(components, true, drawables, subs)
    requires drawables' == if c.isDrawable then InsertSorted(DrawOrder, w, drawables, c) else drawables
    requires subs' == subs + if c.isDrawable then multiset{c} else multiset{}
    ensures DrawBookkeeping(components + [c], true, drawables', subs')
    ensures multiset(drawables') == multiset(drawables) + if c.isDrawable then multiset{c} else multiset{}
  {
    if c.isDrawable {
      InsertSortedElements(DrawOrder, w, drawables, c);
    }
  }

  lemma DistinctAppend(s: seq<Component>, c: Component)
    requires Distinct(s) && c !in s
    ensures Distinct(s + [c])
  {
    assert multiset(s + [c]) == multiset(s) + multiset{c};
  }


  lemma DistinctRemove(s: seq<Component>, c: Component)
    requires Distinct(s) && c in s
    ensures Distinct(RemoveFirst(s, c)) && c !in RemoveFirst(s, c)
  {
    var r := RemoveFirst(s, c);
    RemoveFirstElements(s, c);
    assert multiset(r)[c] == 0;
    forall x | x in r ensures multiset(r)[x] == 1 {
      assert x in s;
    }
  }

  /** The `ComponentRemoved` handler keeps the update bookkeeping of the members left. */
  lemma UpdateRemoved(w: World, components: seq<Component>, updateables: seq<Component>, subs: multiset<Component>,
                      c: Component, components': seq<Component>, updateables': seq<Component>, subs': multiset<Component>)
    requires UpdateBookkeeping(w, components, true, updateables, subs) && c in components
    requires components' == RemoveFirst(components, c) && c !in components'
    requires updateables' == if c.isUpdateable then RemoveFirst(updateables, c) else updateables
    requires subs' == if c.isUpdateable then subs - multiset{c} else subs
    ensures UpdateBookkeeping(w, components', true, updateables', subs')
    ensures c !in updateables' && c !in subs'
  {
    RemoveFirstElements(components, c);
    if c.isUpdateable {
      assert c in subs;
      RemoveFirstKeepsOrder(UpdateOrder, w, updateables, c);
      RemoveFirstElements(updateables, c);
      forall x | x in subs' ensures x in components' {
        assert x in subs && x != c;
        RemoveFirstKeepsOthers(components, c, x);
      }
      forall x | x in components' ensures x in subs' <==> x.isUpdateable {
        assert x in components && x != c;
      }
    } else {
      assert c !in subs;
      forall x | x in subs' ensures x in components' {
        RemoveFirstKeepsOthers(components, c, x);
      }
    }
  }

  /** The `ComponentRemoved` handler keeps the draw bookkeeping, but leaves the draw subscription in place. */
  lemma DrawRemoved(components: seq<Component>, drawables: seq<Component>, subs: multiset<Component>,
                    c: Component, components': seq<Component>, drawables': seq<Component>)
    requires DrawBookkeeping(components, true, drawables, subs) && c in components
    requires components' == RemoveFirst(components, c) && c !in components'
    requires drawables' == if c.isDrawable then RemoveFirst(drawables, c) else drawables
    ensures DrawBookkeeping(components', true, drawables', subs)
    ensures c.isDrawable ==> multiset(drawables') == multiset(drawables) - multiset{c} && c in subs
  {
    RemoveFirstElements(components, c);
    RemoveFirstElements(drawables, c);
    forall x | x in components' && x.isDrawable ensures x in drawables' {
      assert x in components && x != c;
      if c.isDrawable {
        RemoveFirstKeepsOthers(drawables, c, x);
      }
    }
  }

  /**
   * The `UpdateOrderChanged` handlers of `c`, run once per subscription
   * after its key changed, keep the update bookkeeping: the list is sorted
   * again, and it gains `c` only when `c` was subscribed but not listed.
   */
  lemma UpdateMoved(w: World, w': World, components: seq<Component>, listening: bool,
                    updateables: seq<Component>, subs: multiset<Component>, c: Component, updateables': seq<Component>)
    requires UpdateBookkeeping(w, components, listening, updateables, subs)
    requires forall x :: x != c ==> Key(w', x, UpdateOrder) == Key(w, x, UpdateOrder)
    requires updateables' == MoveSortedRepeatedly(UpdateOrder, w', updateables, c, subs[c])
    ensures UpdateBookkeeping(w', components, listening, updateables', subs)
    ensures multiset(updateables') ==
            multiset(updateables) + if c in subs && c !in updateables then multiset{c} else multiset{}
  {
    var n := subs[c];
    assert multiset(updateables)[c] <= n <= 1;
    ReKeyedSorts(UpdateOrder, w, w', updateables, c, n);
    if n > 0 {
      MoveSortedRepeatedlyMultiset(UpdateOrder, w', updateables, c, n);
    }
  }

  /**
   * The `DrawOrderChanged` handlers of `c`, run once per subscription,
   * keep the draw bookkeeping; the list gains `c` when it was subscribed
   * but not listed.
   */
  lemma DrawMoved(w': World, components: seq<Component>, listening: bool,
                  drawables: seq<Component>, subs: multiset<Component>, c: Component, drawables': seq<Component>)
    requires DrawBookkeeping(components, listening, drawables, subs)
    requires drawables' == MoveSortedRepeatedly(DrawOrder, w', drawables, c, subs[c])
    ensures DrawBookkeeping(components, listening, drawables', subs)
    ensures multiset(drawables') ==
            multiset(drawables) + if c in subs && c !in drawables then multiset{c} else multiset{}
  {
    if c in subs {
      MoveSortedRepeatedlyMultiset(DrawOrder, w', drawables, c, subs[c]);
      assert multiset(drawables) <= multiset(drawables');
      forall x | x in drawables' ensures x in subs {
        assert x in drawables || x == c;
      }
      forall x | x in drawables ensures x in drawables' {
        assert multiset(drawables)[x] > 0;
        assert multiset(drawables')[x] > 0;
      }
    } else {
      assert c !in drawables;
      assert drawables' == drawables;
    }
  }

  /**
   * Everything a scene holds: the world of component states it reads, its
   * collection `SceneComponents`, the two sorted lists, whether its
   * ComponentAdded/ComponentRemoved handlers are attached, its handlers in
   * each component's UpdateOrderChanged / DrawOrderChanged invocation list
   * (one entry per subscription), and the Initialize and Dispose calls it
   * has made on components, in order.
   */
  datatype SceneState = SceneState(
    world: World,
    components: seq<Component>,
    updateables: seq<Component>,
    drawables: seq<Component>,
    listening: bool,
    updateSubs: seq<Component>,
    drawSubs: seq<Component>,
    initialized: seq<Component>,
    disposed: seq<Component>)

  /**
   * An exception out of the scene: the collection's ArgumentException, or
   * whatever a component's own Initialize, Update, Draw or Dispose threw.
   */
  datatype SceneError = Argument(message: string) | Threw(component: Component)

  /** What every reachable scene satisfies: a collection without repeats and the bookkeeping of both lists. */
  ghost predicate Consistent(st: SceneState) {
    Distinct(st.components) &&
    UpdateBookkeeping(st.world, st.components, st.listening, st.updateables, multiset(st.updateSubs)) &&
    DrawBookkeeping(st.components, st.listening, st.drawables, multiset(st.drawSubs))
  }

  /** `new Scene(game)`: nothing held, the collection handlers attached. */
  function Empty(w: World): (r: SceneState)
    ensures Consistent(r)
    ensures r.world == w && r.listening && r.components == [] && r.updateables == [] && r.drawables == []
    ensures r.updateSubs == [] && r.drawSubs == [] && r.initialized == [] && r.disposed == []
  {
    SceneState(w, [], [], [], true, [], [], [], [])
  }

  /**
   * The scene's ComponentAdded handler: a drawable is inserted into
   * `drawables` and subscribed to, an updateable is inserted into
   * `updateables` and subscribed to, and the component is initialized.
   */
  function OnAdded(st: SceneState, c: Component): (r: SceneState)
    ensures r.world == st.world && r.components == st.components && r.listening == st.listening
    ensures r.disposed == st.disposed && r.initialized == st.initialized + [c]
    ensures c.isUpdateable ==> c in r.updateSubs
    ensures !c.isUpdateable ==> r.updateables == st.updateables && r.updateSubs == st.updateSubs
    ensures c.isDrawable ==> c in r.drawSubs
    ensures !c.isDrawable ==> r.drawables == st.drawables && r.drawSubs == st.drawSubs
  {
    st.(drawables := if c.isDrawable then InsertSorted(DrawOrder, st.world, st.drawables, c) else st.drawables,
        drawSubs := st.drawSubs + if c.isDrawable then [c] else [],
        updateables := if c.isUpdateable then InsertSorted(UpdateOrder, st.world, st.updateables, c) else st.updateables,
        updateSubs := st.updateSubs + if c.isUpdateable then [c] else [],
        initialized := st.initialized + [c])
  }

  /**
   * `SceneComponents.Add(c)`. Refused, with no change, when `c` is already
   * a member; otherwise `c` is appended and, while the handlers are
   * attached, ComponentAdded runs the scene's handler.
   */
  function Added(st: SceneState, c: Component): (r: SceneState)
    ensures c in st.components ==> r == st
    ensures c !in st.components ==> r.components == st.components + [c]
    ensures r.world == st.world && r.listening == st.listening && r.disposed == st.disposed
    ensures c !in st.components ==> r.initialized == st.initialized + if st.listening then [c] else []
    ensures !st.listening ==> r.updateables == st.updateables && r.drawables == st.drawables
  {
    if c in st.components then st
    else
      var appended := st.(components := st.components + [c]);
      if st.listening then OnAdded(appended, c) else appended
  }

  /**
   * The scene's ComponentRemoved handler: the component leaves `drawables`
   * and `updateables`, its UpdateOrderChanged subscription is dropped, and
   * a disposable component is disposed. The handler unsubscribes a
   * different method from DrawOrderChanged than the one it subscribed, so
   * the draw subscription stays.
   */
  function OnRemoved(st: SceneState, c: Component): (r: SceneState)
    ensures r.world == st.world && r.components == st.components && r.listening == st.listening
    ensures r.initialized == st.initialized && r.drawSubs == st.drawSubs
    ensures r.disposed == st.disposed + if c.isDisposable then [c] else []
    ensures !c.isUpdateable ==> r.updateables == st.updateables && r.updateSubs == st.updateSubs
    ensures !c.isDrawable ==> r.drawables == st.drawables
  {
    st.(drawables := if c.isDrawable then RemoveFirst(st.drawables, c) else st.drawables,
        updateables := if c.isUpdateable then RemoveFirst(st.updateables, c) else st.updateables,
        updateSubs := if c.isUpdateable then RemoveFirst(st.updateSubs, c) else st.updateSubs,
        disposed := st.disposed + if c.isDisposable then [c] else [])
  }

  /** The add handler lists an updateable and a drawable once more each. */
  lemma OnAddedElements(st: SceneState, c: Component)
    ensures var r := OnAdded(st, c);
            multiset(r.updateables) == multiset(st.updateables) + (if c.isUpdateable then multiset{c} else multiset{}) &&
            multiset(r.drawables) == multiset(st.drawables) + (if c.isDrawable then multiset{c} else multiset{})
  {
    var r := OnAdded(st, c);
    if c.isUpdateable {
      assert r.updateables == InsertSorted(UpdateOrder, st.world, st.updateables, c);
      InsertSortedElements(UpdateOrder, st.world, st.updateables, c);
    }
    if c.isDrawable {
      assert r.drawables == InsertSorted(DrawOrder, st.world, st.drawables, c);
      InsertSortedElements(DrawOrder, st.world, st.drawables, c);
    }
  }

  /** The remove handler takes one occurrence out of each list, and out of the update subscriptions. */
  lemma OnRemovedElements(st: SceneState, c: Component)
    ensures var r := OnRemoved(st, c);
            multiset(r.updateables) == multiset(st.updateables) - (if c.isUpdateable then multiset{c} else multiset{}) &&
            multiset(r.updateSubs) == multiset(st.updateSubs) - (if c.isUpdateable then multiset{c} else multiset{}) &&
            multiset(r.drawables) == multiset(st.drawables) - (if c.isDrawable then multiset{c} else multiset{})
  {
    var r := OnRemoved(st, c);
    if c.isUpdateable {
      assert r.updateables == RemoveFirst(st.updateables, c) && r.updateSubs == RemoveFirst(st.updateSubs, c);
      RemoveFirstElements(st.updateables, c);
      RemoveFirstElements(st.updateSubs, c);
    }
    if c.isDrawable {
      assert r.drawables == RemoveFirst(st.drawables, c);
      RemoveFirstElements(st.drawables, c);
    }
  }

  /**
   * `SceneComponents.Remove(c)`. No change when `c` is not a member;
   * otherwise `c` leaves the collection and, while the handlers are
   * attached, ComponentRemoved runs the scene's handler.
   */
  function Removed(st: SceneState, c: Component): (r: SceneState)
    ensures c !in st.components ==> r == st
    ensures multiset(r.components) == multiset(st.components) - multiset{c}
    ensures r.world == st.world && r.listening == st.listening && r.initialized == st.initialized
    ensures r.drawSubs == st.drawSubs
    ensures r.disposed == st.disposed + if c in st.components && st.listening && c.isDisposable then [c] else []
  {
    RemoveFirstElements(st.components, c);
    if c !in st.components then st
    else
      var removed := st.(components := RemoveFirst(st.components, c));
      if st.listening then OnRemoved(removed, c) else removed
  }

  /**
   * `c.UpdateOrder = k`. Nothing happens when the key does not change;
   * otherwise the key is set and the scene's handler moves `c` within
   * `updateables` once per subscription.
   */
  function UpdateOrderSet(st: SceneState, c: Component, k: int32): (r: SceneState)
    ensures StateOf(st.world, c).updateOrder == k ==> r == st
    ensures StateOf(r.world, c) == StateOf(st.world, c).(updateOrder := k)
    ensures forall x :: x != c ==> StateOf(r.world, x) == StateOf(st.world, x)
    ensures r.(world := st.world, updateables := st.updateables) == st
  {
    if StateOf(st.world, c).updateOrder == k then st
    else
      var w := st.world[c := StateOf(st.world, c).(updateOrder := k)];
      st.(world := w, updateables := MoveSortedRepeatedly(UpdateOrder, w, st.updateables, c, multiset(st.updateSubs)[c]))
  }

  /** `c.DrawOrder = k`, the same for the draw list. */
  function DrawOrderSet(st: SceneState, c: Component, k: int32): (r: SceneState)
    ensures StateOf(st.world, c).drawOrder == k ==> r == st
    ensures StateOf(r.world, c) == StateOf(st.world, c).(drawOrder := k)
    ensures forall x :: x != c ==> StateOf(r.world, x) == StateOf(st.world, x)
    ensures r.(world := st.world, drawables := st.drawables) == st
  {
    if StateOf(st.world, c).drawOrder == k then st
    else
      var w := st.world[c := StateOf(st.world, c).(drawOrder := k)];
      st.(world := w, drawables := MoveSortedRepeatedly(DrawOrder, w, st.drawables, c, multiset(st.drawSubs)[c]))
  }

  /**
   * The exception a dispatch loop lets out: that of its last call, when
   * that call threw.
   */
  function Escaped(calls: seq<Component>, throwing: set<Component>): Outcome<SceneError> {
    if |calls| > 0 && calls[|calls| - 1] in throwing then Fail(Threw(calls[|calls| - 1])) else Pass
  }

  /**
   * The Dispose calls of `Dispose()`: the disposable members in collection
   * order, up to and including the first whose Dispose throws.
   */
  function DisposeCalls(st: SceneState, throwing: set<Component>): seq<Component> {
    CallsUntil(Selected(Disposable, st.world, st.components), throwing)
  }

  /**
   * `Dispose()`, the members in `throwing` throwing from their Dispose:
   * detach the collection handlers, dispose the disposable members in
   * collection order, then clear the collection and both lists. A throw
   * ends the method at once, so the collection and the lists stay as they
   * were. The order-changed subscriptions are left in place.
   */
  function Disposed(st: SceneState, throwing: set<Component>): (r: SceneState)
    ensures !r.listening && r.world == st.world && r.initialized == st.initialized
    ensures r.updateSubs == st.updateSubs && r.drawSubs == st.drawSubs
    ensures st.disposed <= r.disposed
    ensures forall x :: x in r.disposed[|st.disposed|..] ==> x in st.components && x.isDisposable
  {
    var calls := DisposeCalls(st, throwing);
    assert (st.disposed + calls)[|st.disposed|..] == calls;
    assert forall x :: x in calls ==> x in Selected(Disposable, st.world, st.components);
    var detached := st.(listening := false, disposed := st.disposed + calls);
    if Escaped(calls, throwing).Fail? then detached
    else detached.(components := [], drawables := [], updateables := [])
  }

  lemma AddedConsistent(st: SceneState, c: Component, st': SceneState)
    requires Consistent(st) && st' == Added(st, c)
    ensures Consistent(st')
  {
    if c !in st.components {
      var r := Added(st, c);
      DistinctAppend(st.components, c);
      if st.listening {
        UpdateAdded(st.world, st.components, st.updateables, multiset(st.updateSubs), c, r.updateables, multiset(r.updateSubs));
        DrawAdded(st.world, st.components, st.drawables, multiset(st.drawSubs), c, r.drawables, multiset(r.drawSubs));
      }
    }
  }

  /**
   * Adding a new member while listening: it joins the end of the
   * collection, is initialized, joins `updateables` exactly when it is
   * updateable, at a place that leaves the other members in their order
   * and the list sorted, and joins `drawables` once more when it is
   * drawable, keeping a sorted draw list sorted.
   */
  lemma AddedInserts(st: SceneState, c: Component)
    requires Consistent(st) && st.listening && c !in st.components
    ensures var r := Added(st, c);
            r.components == st.components + [c] && r.initialized == st.initialized + [c] &&
            (c in r.updateables <==> c.isUpdateable) &&
            RemoveFirst(r.updateables, c) == st.updateables &&
            SortedBy(UpdateOrder, r.world, r.updateables) &&
            multiset(r.drawables) == multiset(st.drawables) + (if c.isDrawable then multiset{c} else multiset{}) &&
            (c !in st.drawables ==> RemoveFirst(r.drawables, c) == st.drawables) &&
            (SortedBy(DrawOrder, st.world, st.drawables) ==> SortedBy(DrawOrder, r.world, r.drawables)) &&
            r.disposed == st.disposed
  {
    var r := Added(st, c);
    AddedConsistent(st, c, r);
    UpdateAdded(st.world, st.components, st.updateables, multiset(st.updateSubs), c, r.updateables, multiset(r.updateSubs));
    assert c !in st.updateSubs;
    assert c !in st.updateables;
    if c.isUpdateable {
      RemoveFirstInserted(st.updateables, InsertionIndex(UpdateOrder, st.world, st.updateables, c), c);
    }
    DrawAdded(st.world, st.components, st.drawables, multiset(st.drawSubs), c, r.drawables, multiset(r.drawSubs));
    if c.isDrawable {
      if c !in st.drawables {
        RemoveFirstInserted(st.drawables, InsertionIndex(DrawOrder, st.world, st.drawables, c), c);
      }
      if SortedBy(DrawOrder, st.world, st.drawables) {
        InsertSortedKeepsOrder(DrawOrder, st.world, st.drawables, c);
      }
    }
  }

  lemma RemovedConsistent(st: SceneState, c: Component, st': SceneState)
    requires Consistent(st) && st' == Removed(st, c)
    ensures Consistent(st')
  {
    if c in st.components {
      var r := Removed(st, c);
      DistinctRemove(st.components, c);
      RemoveFirstElements(st.updateSubs, c);
      if st.listening {
        UpdateRemoved(st.world, st.components, st.updateables, multiset(st.updateSubs), c, r.components, r.updateables, multiset(r.updateSubs));
        DrawRemoved(st.components, st.drawables, multiset(st.drawSubs), c, r.components, r.drawables);
      }
    }
  }

  /**
   * Removing a member while listening: it leaves the collection and the
   * update list and loses its update subscription, and a disposable
   * member is disposed.
   */
  lemma RemovedDeletes(st: SceneState, c: Component)
    requires Consistent(st) && st.listening && c in st.components
    ensures var r := Removed(st, c);
            c !in r.components && multiset(r.components) == multiset(st.components) - multiset{c} &&
            c !in r.updateables && c !in r.updateSubs &&
            r.disposed == st.disposed + (if c.isDisposable then [c] else []) &&
            r.initialized == st.initialized
  {
    var r := Removed(st, c);
    DistinctRemove(st.components, c);
    RemoveFirstElements(st.components, c);
    RemoveFirstElements(st.updateSubs, c);
    UpdateRemoved(st.world, st.components, st.updateables, multiset(st.updateSubs), c, r.components, r.updateables, multiset(r.updateSubs));
  }

  /**
   * Removing a drawable member while listening takes one occurrence out of
   * the draw list, keeping a sorted draw list sorted, but its draw
   * subscription survives.
   */
  lemma RemovedKeepsDrawSubscription(st: SceneState, c: Component)
    requires Consistent(st) && st.listening && c in st.components && c.isDrawable
    ensures var r := Removed(st, c);
            multiset(r.drawables) == multiset(st.drawables) - multiset{c} && c in r.drawSubs &&
            (SortedBy(DrawOrder, st.world, st.drawables) ==> SortedBy(DrawOrder, r.world, r.drawables))
  {
    var r := Removed(st, c);
    DistinctRemove(st.components, c);
    DrawRemoved(st.components, st.drawables, multiset(st.drawSubs), c, r.components, r.drawables);
    if SortedBy(DrawOrder, st.world, st.drawables) {
      RemoveFirstKeepsOrder(DrawOrder, st.world, st.drawables, c);
    }
  }

  lemma UpdateOrderSetConsistent(st: SceneState, c: Component, k: int32, st': SceneState)
    requires Consistent(st) && st' == UpdateOrderSet(st, c, k)
    ensures Consistent(st')
  {
    if StateOf(st.world, c).updateOrder != k {
      var r := UpdateOrderSet(st, c, k);
      UpdateMoved(st.world, r.world, st.components, st.listening, st.updateables, multiset(st.updateSubs), c, r.updateables);
    }
  }

  /**
   * Setting a component's UpdateOrder: its key becomes `k` and nothing else
   * in the world changes; the update list is sorted by the new keys, keeps
   * its members while the scene listens, and gains `c` when it was
   * subscribed but not listed; nothing else in the scene changes.
   */
  lemma UpdateOrderSetMoves(st: SceneState, c: Component, k: int32)
    requires Consistent(st)
    ensures var r := UpdateOrderSet(st, c, k);
            StateOf(r.world, c) == StateOf(st.world, c).(updateOrder := k) &&
            (forall x :: x != c ==> StateOf(r.world, x) == StateOf(st.world, x)) &&
            SortedBy(UpdateOrder, r.world, r.updateables) &&
            (st.listening ==> multiset(r.updateables) == multiset(st.updateables)) &&
            (StateOf(st.world, c).updateOrder != k && c in st.updateSubs && c !in st.updateables ==>
               multiset(r.updateables) == multiset(st.updateables) + multiset{c}) &&
            r.(world := st.world, updateables := st.updateables) == st
  {
    if StateOf(st.world, c).updateOrder != k {
      var r := UpdateOrderSet(st, c, k);
      UpdateMoved(st.world, r.world, st.components, st.listening, st.updateables, multiset(st.updateSubs), c, r.updateables);
      if st.listening && c in st.updateSubs {
        assert c in st.updateables;
      }
    }
  }

  lemma DrawOrderSetConsistent(st: SceneState, c: Component, k: int32, st': SceneState)
    requires Consistent(st) && st' == DrawOrderSet(st, c, k)
    ensures Consistent(st')
  {
    if StateOf(st.world, c).drawOrder != k {
      var r := DrawOrderSet(st, c, k);
      SortedByKeysAgree(UpdateOrder, st.world, r.world, st.updateables);
      DrawMoved(r.world, st.components, st.listening, st.drawables, multiset(st.drawSubs), c, r.drawables);
    }
  }

  /**
   * Setting a component's DrawOrder: its key becomes `k` and nothing else
   * in the world changes; the draw list keeps its members, gaining `c` when
   * it was subscribed but not listed; nothing else in the scene changes.
   */
  lemma DrawOrderSetMoves(st: SceneState, c: Component, k: int32)
    requires Consistent(st)
    ensures var r := DrawOrderSet(st, c, k);
            StateOf(r.world, c) == StateOf(st.world, c).(drawOrder := k) &&
            (forall x :: x != c ==> StateOf(r.world, x) == StateOf(st.world, x)) &&
            multiset(r.drawables) ==
              multiset(st.drawables) +
                (if StateOf(st.world, c).drawOrder != k && c in st.drawSubs && c !in st.drawables then multiset{c} else multiset{}) &&
            r.(world := st.world, drawables := st.drawables) == st
  {
    if StateOf(st.world, c).drawOrder != k {
      var r := DrawOrderSet(st, c, k);
      DrawMoved(r.world, st.components, st.listening, st.drawables, multiset(st.drawSubs), c, r.drawables);
    }
  }

  /**
   * A sorted draw list that holds the re-keyed component at most once is
   * sorted by the new keys afterwards. (A component can be listed twice
   * once its stale subscription has put it back; see `StaleDrawSubscription`.)
   */
  lemma DrawOrderSetSorts(st: SceneState, c: Component, k: int32)
    requires Consistent(st)
    requires SortedBy(DrawOrder, st.world, st.drawables) && multiset(st.drawables)[c] <= 1
    ensures SortedBy(DrawOrder, DrawOrderSet(st, c, k).world, DrawOrderSet(st, c, k).drawables)
  {
    if StateOf(st.world, c).drawOrder != k {
      var r := DrawOrderSet(st, c, k);
      var n := multiset(st.drawSubs)[c];
      assert r.drawables == MoveSortedRepeatedly(DrawOrder, r.world, st.drawables, c, n);
      assert n == 0 ==> c !in st.drawables;
      ReKeyedSorts(DrawOrder, st.world, r.world, st.drawables, c, n);
    }
  }

  lemma DisposedConsistent(st: SceneState, throwing: set<Component>, st': SceneState)
    requires Consistent(st) && st' == Disposed(st, throwing)
    ensures Consistent(st')
  {
  }

  /**
   * Disposing a scene stops it reacting to the collection: a component
   * added afterwards is neither listed nor initialized. When no disposable
   * member throws, each of them is disposed exactly once more and the scene
   * is left with no members and no listed components.
   */
  lemma DisposedClears(st: SceneState, throwing: set<Component>, c: Component)
    requires Consistent(st)
    ensures var r := Disposed(st, throwing);
            !r.listening &&
            Added(r, c).updateables == r.updateables && Added(r, c).drawables == r.drawables &&
            Added(r, c).initialized == st.initialized
    ensures var r := Disposed(st, throwing);
            (forall x :: x in st.components && x.isDisposable ==> x !in throwing) ==>
              r.components == [] && r.updateables == [] && r.drawables == [] &&
              forall x :: multiset(r.disposed)[x] ==
                          multiset(st.disposed)[x] + if x in st.components && x.isDisposable then 1 else 0
  {
    var r := Disposed(st, throwing);
    var all := Selected(Disposable, st.world, st.components);
    if forall x :: x in st.components && x.isDisposable ==> x !in throwing {
      DispatchCompletes(all, throwing);
      forall x ensures multiset(r.disposed)[x] ==
                       multiset(st.disposed)[x] + if x in st.components && x.isDisposable then 1 else 0 {
        SelectedCount(Disposable, st.world, st.components, x);
      }
    }
  }

  /**
   * A disposable member that throws from its Dispose interrupts disposal
   * exactly when one is a member: the members before the first such one
   * in collection order are disposed, that one is the last Dispose call,
   * and the collection and both lists stay as they were.
   */
  lemma DisposeInterrupted(st: SceneState, throwing: set<Component>)
    ensures var calls := DisposeCalls(st, throwing);
            Escaped(calls, throwing).Fail? <==> exists x :: x in st.components && x.isDisposable && x in throwing
    ensures var calls := DisposeCalls(st, throwing);
            var r := Disposed(st, throwing);
            Escaped(calls, throwing).Fail? ==>
              r.components == st.components && r.updateables == st.updateables && r.drawables == st.drawables &&
              r.disposed == st.disposed + calls &&
              Escaped(calls, throwing) == Fail(Threw(calls[|calls| - 1])) && calls[|calls| - 1].isDisposable &&
              calls[|calls| - 1] in st.components && calls[|calls| - 1] in throwing &&
              forall i :: 0 <= i < |calls| - 1 ==> calls[i] !in throwing
  {
    var calls := DisposeCalls(st, throwing);
    DispatchInterrupted(Disposable, st.world, st.components, throwing);
    assert Escaped(calls, throwing).Fail? <==> |calls| > 0 && calls[|calls| - 1] in throwing;
    assert (exists x :: x in st.components && Flagged(st.world, x, Disposable) && x in throwing) <==>
           (exists x :: x in st.components && x.isDisposable && x in throwing);
  }

  /**
   * Disposal leaves the UpdateOrderChanged subscriptions in place: once an
   * updateable former member's UpdateOrder changes, the disposed scene
   * lists it again, alone when disposal completed.
   */
  lemma ReorderedAfterDispose(st: SceneState, throwing: set<Component>, c: Component, k: int32)
    requires Consistent(st) && st.listening && c in st.components && c.isUpdateable
    requires StateOf(st.world, c).updateOrder != k
    ensures c in UpdateOrderSet(Disposed(st, throwing), c, k).updateables
    ensures Escaped(DisposeCalls(st, throwing), throwing).Pass? ==>
              UpdateOrderSet(Disposed(st, throwing), c, k).updateables == [c] &&
              UpdateOrderSet(Disposed(st, throwing), c, k).components == []
  {
    var d := Disposed(st, throwing);
    assert multiset(d.updateSubs)[c] == 1;
    var w := d.world[c := StateOf(d.world, c).(updateOrder := k)];
    assert RemoveFirst([], c) == [];
    assert InsertSorted(UpdateOrder, w, [], c) == [c];
  }

  /**
   * What `Update` calls on a listening scene: every enabled updateable
   * member exactly once, nothing else, in UpdateOrder.
   */
  lemma UpdateCallsEachOnce(st: SceneState)
    requires Consistent(st) && st.listening
    ensures var calls := Selected(Enabled, st.world, st.updateables);
            SortedBy(UpdateOrder, st.world, calls) &&
            forall x :: multiset(calls)[x] ==
                        if x in st.components && x.isUpdateable && StateOf(st.world, x).enabled then 1 else 0
  {
    SelectedSorted(Enabled, UpdateOrder, st.world, st.updateables);
    forall x ensures multiset(Selected(Enabled, st.world, st.updateables))[x] ==
                     if x in st.components && x.isUpdateable && StateOf(st.world, x).enabled then 1 else 0 {
      SelectedCount(Enabled, st.world, st.updateables, x);
      if x !in st.components || !x.isUpdateable {
        assert x !in st.updateSubs;
      }
    }
  }

  /**
   * What `Draw` calls on a listening scene: every visible drawable member
   * at least once, and only visible components the scene subscribed to,
   * in the order of the draw list.
   */
  lemma DrawCallsEachMember(st: SceneState)
    requires Consistent(st) && st.listening
    ensures var calls := Selected(Visible, st.world, st.drawables);
            (forall x :: x in st.components && x.isDrawable && StateOf(st.world, x).visible ==> x in calls) &&
            (forall x :: x in calls ==> x in st.drawSubs && StateOf(st.world, x).visible) &&
            (SortedBy(DrawOrder, st.world, st.drawables) ==> SortedBy(DrawOrder, st.world, calls))
  {
    var calls := Selected(Visible, st.world, st.drawables);
    forall x | x in st.components && x.isDrawable && StateOf(st.world, x).visible ensures x in calls {
      SelectedCount(Visible, st.world, st.drawables, x);
    }
    if SortedBy(DrawOrder, st.world, st.drawables) {
      SelectedSorted(Visible, DrawOrder, st.world, st.drawables);
    }
  }

  /**
   * Three updateables `Player`, `Timer` and `Camera` added with
   * UpdateOrder 10, 5 and 10 are listed as 5, 10, 10, the two equal keys in
   * the order they were added; raising `Timer`'s key to 20 moves it to the
   * end. `Ordered1` to `Ordered3` are the scene after each addition.
   */
  const Player := Component(1, true, false, false)
  const Timer := Component(2, true, false, false)
  const Camera := Component(3, true, false, false)
  const Timeline: World := map[Player := State(true, true, 10, 0), Timer := State(true, true, 5, 0), Camera := State(true, true, 10, 0)]
  const Ordered1 := SceneState(Timeline, [Player], [Player], [], true, [Player], [], [Player], [])
  const Ordered2 := SceneState(Timeline, [Player, Timer], [Timer, Player], [], true, [Player, Timer], [], [Player, Timer], [])
  const Ordered3 := SceneState(Timeline, [Player, Timer, Camera], [Timer, Player, Camera], [], true,
                               [Player, Timer, Camera], [], [Player, Timer, Camera], [])

  lemma OrderedAddSmaller()
    ensures Added(Added(Empty(Timeline), Player), Timer) == Ordered2
  {
    assert Added(Empty(Timeline), Player) == Ordered1;
    assert InsertionIndex(UpdateOrder, Timeline, [Player], Timer) == 0;
  }

  lemma OrderedAddEqual()
    ensures Added(Ordered2, Camera) == Ordered3
  {
    assert Key(Timeline, Player, UpdateOrder) == 10 && Key(Timeline, Camera, UpdateOrder) == 10;
    assert InsertionIndex(UpdateOrder, Timeline, [Timer, Player], Camera) == 2;
    assert InsertSorted(UpdateOrder, Timeline, [Timer, Player], Camera) == [Timer, Player, Camera];
    var appended := Ordered2.(components := [Player, Timer, Camera]);
    assert Added(Ordered2, Camera) == OnAdded(appended, Camera);
  }

  const Raised: World := Timeline[Timer := State(true, true, 20, 0)]

  lemma OrderedTakeOut()
    ensures RemoveFirst([Timer, Player, Camera], Timer) == [Player, Camera]
  {
    assert [Timer, Player, Camera][..2] == [Timer, Player] && [Timer, Player][..1] == [Timer];
    assert IndexOf([Timer], Timer) == 0;
    assert IndexOf([Timer, Player, Camera], Timer) == 0;
  }

  lemma OrderedPutBack()
    ensures InsertSorted(UpdateOrder, Raised, [Player, Camera], Timer) == [Player, Camera, Timer]
  {
    assert Key(Raised, Camera, UpdateOrder) == 10 && Key(Raised, Timer, UpdateOrder) == 20;
  }

  lemma OrderedRaise()
    ensures UpdateOrderSet(Ordered3, Timer, 20).updateables == [Player, Camera, Timer]
  {
    assert multiset(Ordered3.updateSubs)[Timer] == 1;
    OrderedTakeOut();
    OrderedPutBack();
    assert MoveSortedRepeatedly(UpdateOrder, Raised, Ordered3.updateables, Timer, 1) == [Player, Camera, Timer];
  }

  lemma UpdateOrderExample()
    ensures Added(Added(Added(Empty(Timeline), Player), Timer), Camera).updateables == [Timer, Player, Camera]
    ensures UpdateOrderSet(Added(Added(Added(Empty(Timeline), Player), Timer), Camera), Timer, 20).updateables ==
            [Player, Camera, Timer]
  {
    OrderedAddSmaller();
    OrderedAddEqual();
    OrderedRaise();
  }

  /**
   * The stale draw subscription at work, on two drawables `Sprite` and
   * `Overlay` with DrawOrder 1 and 2. Both are added; `Overlay` is
   * removed, which leaves its draw subscription; changing its DrawOrder to
   * 3 puts it back into the draw list although it is no longer a member;
   * adding it again lists it twice and subscribes twice; changing its
   * DrawOrder to 0 then leaves the draw list unsorted, and Draw draws it
   * twice. `Stale1` to `Stale5` are the scene after each step.
   */
  const Sprite := Component(1, false, true, false)
  const Overlay := Component(2, false, true, false)
  const Stage: World := map[Sprite := State(true, true, 0, 1), Overlay := State(true, true, 0, 2)]
  const Stage3: World := Stage[Overlay := State(true, true, 0, 3)]
  const Stage5: World := Stage3[Overlay := State(true, true, 0, 0)]
  const Stale1 := SceneState(Stage, [Sprite, Overlay], [], [Sprite, Overlay], true, [], [Sprite, Overlay], [Sprite, Overlay], [])
  const Stale2 := SceneState(Stage, [Sprite], [], [Sprite], true, [], [Sprite, Overlay], [Sprite, Overlay], [])
  const Stale3 := SceneState(Stage3, [Sprite], [], [Sprite, Overlay], true, [], [Sprite, Overlay], [Sprite, Overlay], [])
  const Stale4 := SceneState(Stage3, [Sprite, Overlay], [], [Sprite, Overlay, Overlay], true, [],
                             [Sprite, Overlay, Overlay], [Sprite, Overlay, Overlay], [])
  const Stale5 := SceneState(Stage5, [Sprite, Overlay], [], [Sprite, Overlay, Overlay], true, [],
                             [Sprite, Overlay, Overlay], [Sprite, Overlay, Overlay], [])

  lemma StaleAddBoth()
    ensures Added(Added(Empty(Stage), Sprite), Overlay) == Stale1
  {
    assert Added(Empty(Stage), Sprite).drawables == [Sprite];
  }

  lemma StaleRemove()
    ensures Removed(Stale1, Overlay) == Stale2
  {
    assert IndexOf([Sprite, Overlay], Overlay) == 1;
  }

  lemma StaleReorder()
    ensures DrawOrderSet(Stale2, Overlay, 3) == Stale3
  {
    assert multiset(Stale2.drawSubs)[Overlay] == 1;
    assert RemoveFirst([Sprite], Overlay) == [Sprite];
  }

  lemma StaleAddAgain()
    ensures Added(Stale3, Overlay) == Stale4
  {
    assert InsertionIndex(DrawOrder, Stage3, [Sprite, Overlay], Overlay) == 2;
  }

  /** Moving a component listed twice, with a key at most every other key, leaves the list as it was. */
  lemma StaleMoveTwice()
    ensures MoveSortedRepeatedly(DrawOrder, Stage5, [Sprite, Overlay, Overlay], Overlay, 2) == [Sprite, Overlay, Overlay]
  {
    assert [Sprite, Overlay, Overlay][..2] == [Sprite, Overlay];
    assert [Sprite, Overlay][..1] == [Sprite];
    assert IndexOf([Sprite, Overlay], Overlay) == 1;
    assert IndexOf([Sprite, Overlay, Overlay], Overlay) == 1;
    assert RemoveFirst([Sprite, Overlay, Overlay], Overlay) == [Sprite, Overlay];
    assert MoveSorted(DrawOrder, Stage5, [Sprite, Overlay, Overlay], Overlay) == [Sprite, Overlay, Overlay];
    assert MoveSortedRepeatedly(DrawOrder, Stage5, [Sprite, Overlay, Overlay], Overlay, 1) == [Sprite, Overlay, Overlay];
  }

  lemma StaleReorderAgain()
    ensures DrawOrderSet(Stale4, Overlay, 0) == Stale5
  {
    assert multiset(Stale4.drawSubs)[Overlay] == 2;
    StaleMoveTwice();
  }

  lemma StaleDrawSubscription()
    ensures DrawOrderSet(Added(DrawOrderSet(Removed(Added(Added(Empty(Stage), Sprite), Overlay), Overlay), Overlay, 3),
                               Overlay), Overlay, 0) == Stale5
  {
    StaleAddBoth();
    StaleRemove();
    StaleReorder();
    StaleAddAgain();
    StaleReorderAgain();
  }

  /** The end state lists `Overlay` twice, out of DrawOrder, and draws it twice. */
  lemma StaleDrawTwice()
    ensures Stale5.components == [Sprite, Overlay] && Stale5.drawables == [Sprite, Overlay, Overlay]
    ensures !SortedBy(DrawOrder, Stale5.world, Stale5.drawables)
    ensures Selected(Visible, Stale5.world, Stale5.drawables) == [Sprite, Overlay, Overlay]
  {
    assert Stage5[Sprite].drawOrder == 1 && Stage5[Overlay].drawOrder == 0;
    assert Key(Stale5.world, Stale5.drawables[0], DrawOrder) > Key(Stale5.world, Stale5.drawables[1], DrawOrder);
    assert Selected(Visible, Stage5, [Sprite]) == [Sprite];
    assert [Sprite, Overlay][..1] == [Sprite];
    assert [Sprite, Overlay, Overlay][..2] == [Sprite, Overlay];
  }

  /** The framework's message when a component is added to a collection twice. */
  const SameComponentTwice := "Cannot Add Same Component Multiple Times"

  class Scene {
    const game: Game
    /** The current properties of every component, as the scene reads them. */
    var world: World
    /** `SceneComponents`: the scene's component collection. */
    var components: seq<Component>
    var updateables: seq<Component>
    var drawables: seq<Component>
    /** Whether the scene's handlers are still attached to ComponentAdded / ComponentRemoved. */
    var listening: bool
    /** The scene's handlers in each component's UpdateOrderChanged / DrawOrderChanged invocation list. */
    var updateSubscriptions: seq<Component>
    var drawSubscriptions: seq<Component>
    /** The Initialize() and Dispose() calls the scene has made on components, in order. */
    var initialized: seq<Component>
    var disposed: seq<Component>

    ghost function State(): SceneState
      reads this
    {
      SceneState(world, components, updateables, drawables, listening,
                 updateSubscriptions, drawSubscriptions, initialized, disposed)
    }

    ghost predicate Valid()
      reads this
    {
      Consistent(State())
    }

    /** `new Scene(game)`, in a world of component states. */
    constructor (game: Game, world: World)
      ensures Valid() && this.game == game && State() == Empty(world)
    {
      this.game, this.world := game, world;
      components, updateables, drawables := [], [], [];
      listening := true;
      updateSubscriptions, drawSubscriptions := [], [];
      initialized, disposed := [], [];
    }

    /** `AddSortedUpdateable`: the three-case insertion by UpdateOrder. */
    method AddSortedUpdateable(item: Component)
      modifies this`updateables
      ensures updateables == InsertSorted(UpdateOrder, world, old(updateables), item)
    {
      var order := StateOf(world, item).updateOrder;
      if |updateables| == 0 || CompareTo(StateOf(world, updateables[|updateables| - 1]).updateOrder, order) <= 0 {
        updateables := updateables + [item];
        return;
      }
      if CompareTo(StateOf(world, updateables[0]).updateOrder, order) >= 0 {
        updateables := [item] + updateables;
        return;
      }
      var index := BinarySearch(UpdateOrder, world, updateables, item, 0, |updateables| - 1);
      if index < 0 {
        index := -index - 1;
      }
      updateables := updateables[..index] + [item] + updateables[index..];
    }

    /**
     * `AddSortedDrawable`: the three-case insertion by DrawOrder. The middle
     * case is written with the DrawOrder overload of the order comparer.
     */
    method AddSortedDrawable(item: Component)
      modifies this`drawables
      ensures drawables == InsertSorted(DrawOrder, world, old(drawables), item)
    {
      var order := StateOf(world, item).drawOrder;
      if |drawables| == 0 || CompareTo(StateOf(world, drawables[|drawables| - 1]).drawOrder, order) <= 0 {
        drawables := drawables + [item];
        return;
      }
      if CompareTo(StateOf(world, drawables[0]).drawOrder, order) >= 0 {
        drawables := [item] + drawables;
        return;
      }
      var index := BinarySearch(DrawOrder, world, drawables, item, 0, |drawables| - 1);
      if index < 0 {
        index := -index - 1;
      }
      drawables := drawables[..index] + [item] + drawables[index..];
    }

    method MoveSortedUpdateable(item: Component)
      modifies this`updateables
      ensures updateables == MoveSorted(UpdateOrder, world, old(updateables), item)
    {
      updateables := RemoveFirst(updateables, item);
      AddSortedUpdateable(item);
    }

    method MoveSortedDrawable(item: Component)
      modifies this`drawables
      ensures drawables == MoveSorted(DrawOrder, world, old(drawables), item)
    {
      drawables := RemoveFirst(drawables, item);
      AddSortedDrawable(item);
    }

    /**
     * The ComponentAdded handler. `c.Initialize()` comes last, so when it
     * throws (`c` in `throwing`) the lists and subscriptions are already
     * updated and the exception propagates.
     */
    method OnComponentAdded(c: Component, throwing: set<Component>) returns (outcome: Outcome<SceneError>)
      modifies this`updateables, this`drawables, this`updateSubscriptions, this`drawSubscriptions, this`initialized
      ensures State() == OnAdded(old(State()), c)
      ensures outcome == if c in throwing then Fail(Threw(c)) else Pass
    {
      if c.isDrawable {
        AddSortedDrawable(c);
        drawSubscriptions := drawSubscriptions + [c];
      } else {
        assert drawSubscriptions + [] == drawSubscriptions;
      }
      if c.isUpdateable {
        AddSortedUpdateable(c);
        updateSubscriptions := updateSubscriptions + [c];
      } else {
        assert updateSubscriptions + [] == updateSubscriptions;
      }
      initialized := initialized + [c];
      outcome := if c in throwing then Fail(Threw(c)) else Pass;
    }

    /**
     * The ComponentRemoved handler, with its mismatched DrawOrderChanged
     * unsubscription. `Dispose()` comes last, so when it throws the lists
     * are already updated and the exception propagates.
     */
    method OnComponentRemoved(c: Component, throwing: set<Component>) returns (outcome: Outcome<SceneError>)
      modifies this`updateables, this`drawables, this`updateSubscriptions, this`disposed
      ensures State() == OnRemoved(old(State()), c)
      ensures outcome == if c.isDisposable && c in throwing then Fail(Threw(c)) else Pass
    {
      ghost var target := OnRemoved(State(), c);
      if c.isDrawable {
        drawables := RemoveFirst(drawables, c);
      }
      assert drawables == target.drawables;
      if c.isUpdateable {
        updateables := RemoveFirst(updateables, c);
        updateSubscriptions := RemoveFirst(updateSubscriptions, c);
      }
      assert updateables == target.updateables && updateSubscriptions == target.updateSubs;
      if c.isDisposable {
        disposed := disposed + [c];
      } else {
        assert disposed + [] == disposed;
      }
      assert disposed == target.disposed;
      outcome := if c.isDisposable && c in throwing then Fail(Threw(c)) else Pass;
    }

    /**
     * `SceneComponents.Add(c)`: fails on a component already held, and
     * passes on the exception of `c.Initialize()` when `c` is in `throwing`;
     * the component stays added either way.
     */
    method Add(c: Component, throwing: set<Component>) returns (outcome: Outcome<SceneError>)
      requires Valid()
      modifies this
      ensures Valid()
      ensures outcome == if c in old(components) then Fail(Argument(SameComponentTwice))
                         else if old(listening) && c in throwing then Fail(Threw(c))
                         else Pass
      ensures State() == Added(old(State()), c)
    {
      if c in components {
        return Fail(Argument(SameComponentTwice));
      }
      components := components + [c];
      assert State() == old(State()).(components := old(components) + [c]);
      outcome := Pass;
      if listening {
        outcome := OnComponentAdded(c, throwing);
      }
      AddedConsistent(old(State()), c, State());
    }

    /**
     * `SceneComponents.Remove(c)`: false when `c` is not held, true when it
     * was removed, or the exception of `c.Dispose()` when `c` is in
     * `throwing`; the component is removed either way.
     */
    method Remove(c: Component, throwing: set<Component>) returns (result: Result<bool, SceneError>)
      requires Valid()
      modifies this
      ensures Valid()
      ensures result == if c !in old(components) then Success(false)
                        else if old(listening) && c.isDisposable && c in throwing then Failure(Threw(c))
                        else Success(true)
      ensures State() == Removed(old(State()), c)
    {
      if c !in components {
        return Success(false);
      }
      components := RemoveFirst(components, c);
      assert State() == old(State()).(components := RemoveFirst(old(components), c));
      result := Success(true);
      if listening {
        var outcome := OnComponentRemoved(c, throwing);
        if outcome.Fail? {
          result := Failure(outcome.error);
        }
      }
      RemovedConsistent(old(State()), c, State());
    }

    /**
     * `c.UpdateOrder = k`: the setter raises UpdateOrderChanged only on a
     * change, and each subscription runs the scene's handler, which moves
     * `c` within the update list.
     */
    method SetUpdateOrder(c: Component, k: int32)
      requires Valid()
      modifies this
      ensures Valid()
      ensures State() == UpdateOrderSet(old(State()), c, k)
    {
      if StateOf(world, c).updateOrder == k {
        return;
      }
      world := world[c := StateOf(world, c).(updateOrder := k)];
      var n := multiset(updateSubscriptions)[c];
      var i := 0;
      while i < n
        invariant 0 <= i <= n
        invariant world == old(world)[c := StateOf(old(world), c).(updateOrder := k)]
        invariant updateables == MoveSortedRepeatedly(UpdateOrder, world, old(updateables), c, i)
        invariant State() == old(State()).(world := world, updateables := updateables)
      {
        MoveSortedUpdateable(c);
        i := i + 1;
      }
      UpdateOrderSetConsistent(old(State()), c, k, State());
    }

    /** `c.DrawOrder = k`, the same for the draw list. */
    method SetDrawOrder(c: Component, k: int32)
      requires Valid()
      modifies this
      ensures Valid()
      ensures State() == DrawOrderSet(old(State()), c, k)
    {
      if StateOf(world, c).drawOrder == k {
        return;
      }
      world := world[c := StateOf(world, c).(drawOrder := k)];
      var n := multiset(drawSubscriptions)[c];
      var i := 0;
      while i < n
        invariant 0 <= i <= n
        invariant world == old(world)[c := StateOf(old(world), c).(drawOrder := k)]
        invariant drawables == MoveSortedRepeatedly(DrawOrder, world, old(drawables), c, i)
        invariant State() == old(State()).(world := world, drawables := drawables)
      {
        MoveSortedDrawable(c);
        i := i + 1;
      }
      DrawOrderSetConsistent(old(State()), c, k, State());
    }

    /**
     * `Update(gameTime)`: the members of the update list whose Update is
     * called, in call order. A call on a member in `throwing` throws, which
     * ends the loop and propagates.
     */
    method Update(gameTime: GameTime, throwing: set<Component>) returns (called: seq<Component>, outcome: Outcome<SceneError>)
      ensures called == CallsUntil(Selected(Enabled, world, updateables), throwing)
      ensures outcome == Escaped(called, throwing)
    {
      var list, w := updateables, world;
      called := [];
      var index := 0;
      while index < |list|
        invariant 0 <= index <= |list|
        invariant called == Selected(Enabled, w, list[..index])
        invariant forall j :: 0 <= j < index ==> !(Flagged(w, list[j], Enabled) && list[j] in throwing)
      {
        var dr := list[index];
        DispatchRound(Enabled, w, list, index, called, throwing);
        if StateOf(w, dr).enabled {
          called := called + [dr];
          if dr in throwing {
            return called, Fail(Threw(dr));
          }
        }
        index := index + 1;
      }
      assert list[..index] == list;
      DispatchAll(Enabled, w, list, throwing);
      outcome := Pass;
    }

    /**
     * `Draw(gameTime)`: the members of the draw list whose Draw is called,
     * in call order, up to the first call that throws.
     */
    method Draw(gameTime: GameTime, throwing: set<Component>) returns (called: seq<Component>, outcome: Outcome<SceneError>)
      ensures called == CallsUntil(Selected(Visible, world, drawables), throwing)
      ensures outcome == Escaped(called, throwing)
    {
      var list, w := drawables, world;
      called := [];
      var index := 0;
      while index < |list|
        invariant 0 <= index <= |list|
        invariant called == Selected(Visible, w, list[..index])
        invariant forall j :: 0 <= j < index ==> !(Flagged(w, list[j], Visible) && list[j] in throwing)
      {
        var dr := list[index];
        DispatchRound(Visible, w, list, index, called, throwing);
        if StateOf(w, dr).visible {
          called := called + [dr];
          if dr in throwing {
            return called, Fail(Threw(dr));
          }
        }
        index := index + 1;
      }
      assert list[..index] == list;
      DispatchAll(Visible, w, list, throwing);
      outcome := Pass;
    }

    /**
     * The disposal loop of `Dispose()`: every disposable member, in
     * collection order, up to the first whose Dispose throws.
     */
    method DisposeMembers(throwing: set<Component>) returns (outcome: Outcome<SceneError>)
      modifies this`disposed
      ensures disposed == old(disposed) + CallsUntil(Selected(Disposable, world, components), throwing)
      ensures outcome == Escaped(CallsUntil(Selected(Disposable, world, components), throwing), throwing)
    {
      var members := components;
      ghost var w := world;
      ghost var before := disposed;
      var index := 0;
      while index < |members|
        invariant 0 <= index <= |members|
        invariant disposed == before + Selected(Disposable, w, members[..index])
        invariant forall j :: 0 <= j < index ==> !(Flagged(w, members[j], Disposable) && members[j] in throwing)
      {
        var component := members[index];
        ghost var calls := Selected(Disposable, w, members[..index]);
        DispatchRound(Disposable, w, members, index, calls, throwing);
        if component.isDisposable {
          disposed := disposed + [component];
          Associative(before, calls, [component]);
          if component in throwing {
            return Fail(Threw(component));
          }
        }
        index := index + 1;
      }
      assert members[..index] == members;
      DispatchAll(Disposable, w, members, throwing);
      outcome := Pass;
    }

    /**
     * The body of `Dispose()`: detach the collection handlers, dispose every
     * disposable member in collection order, then clear the collection and
     * both lists; a throwing Dispose ends it early.
     */
    method Release(throwing: set<Component>) returns (outcome: Outcome<SceneError>)
      modifies this
      ensures State() == Disposed(old(State()), throwing)
      ensures outcome == Escaped(DisposeCalls(old(State()), throwing), throwing)
    {
      listening := false;
      outcome := DisposeMembers(throwing);
      if outcome.Fail? {
        return;
      }
      components := [];
      drawables := [];
      updateables := [];
    }

    /** `Dispose()`, which keeps the scene's invariant. */
    method Dispose(throwing: set<Component>) returns (outcome: Outcome<SceneError>)
      requires Valid()
      modifies this
      ensures Valid()
      ensures State() == Disposed(old(State()), throwing)
      ensures outcome == Escaped(DisposeCalls(old(State()), throwing), throwing)
    {
      ghost var st := State();
      DisposedConsistent(st, throwing, Disposed(st, throwing));
      outcome := Release(throwing);
    }
  }
}
