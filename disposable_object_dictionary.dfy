/**
 * DisposableObjectDictionary<T>: a string-keyed dictionary of disposable
 * values together with a hash set of tracked values. Removing or clearing
 * disposes the values it drops unless the "WithoutDisposing" variant is
 * used. Calls to a value's `Dispose()` are recorded in a log; which values
 * throw from `Dispose()` is a parameter of the dictionary.
 */
module DisposableObjects {
  import opened Wrappers

  /** The exceptions the dictionary's operations let escape. */
  datatype Error<T> =
    | Argument(message: string)
    | KeyNotFound(key: string)
    | DisposeThrew(value: T)
    | Aggregate(message: string, failed: seq<T>)

  /** The message of the `ArgumentException` thrown by `Add`'s own guard. */
  const AlreadyAddedMessage := "This object has already been added under a different key"
  /** The message of the `ArgumentException` that `Dictionary.Add` throws for a key already present. */
  const DuplicateKeyMessage := "An item with the same key has already been added."
  /** The message of the `AggregateException` thrown by `Clear`. */
  const AggregateMessage := "One or more exceptions were thrown whilst attempting to dispose of this collection's items during a Clear operation"

  /** The values of `vs` whose disposal throws, in order (the exceptions `Clear` collects). */
  function Failed<T>(failing: set<T>, vs: seq<T>): (r: seq<T>)
    ensures |r| <= |vs|
  {
    if |vs| == 0 then []
    else Failed(failing, vs[..|vs| - 1]) + if vs[|vs| - 1] in failing then [vs[|vs| - 1]] else []
  }

  /**
   * One exception is collected for each occurrence of a failing value in
   * `vs` (a value stored under two keys fails twice), none for any other.
   */
  lemma {:induction false} FailedCount<T>(failing: set<T>, vs: seq<T>, v: T)
    ensures multiset(Failed(failing, vs))[v] == if v in failing then multiset(vs)[v] else 0
  {
    if |vs| > 0 {
      var init, last := vs[..|vs| - 1], vs[|vs| - 1];
      FailedCount(failing, init, v);
      assert vs == init + [last];
    }
  }

  /** Exactly the failing values of `vs` are collected, so nothing is collected iff no value fails. */
  lemma {:induction false} FailedMembers<T>(failing: set<T>, vs: seq<T>)
    ensures forall v :: v in Failed(failing, vs) <==> v in vs && v in failing
    ensures Failed(failing, vs) == [] <==> forall i :: 0 <= i < |vs| ==> vs[i] !in failing
  {
    if |vs| > 0 {
      var init := vs[..|vs| - 1];
      FailedMembers(failing, init);
      assert vs == init + [vs[|vs| - 1]];
      assert forall i :: 0 <= i < |init| ==> init[i] == vs[i];
    }
  }

  /** `keys` lists every key of `m` exactly once: an order in which the dictionary may enumerate its entries. */
  ghost predicate Enumerates<T>(m: map<string, T>, keys: seq<string>) {
    (forall k :: k in keys <==> k in m) &&
    (forall i, j :: 0 <= i < j < |keys| ==> keys[i] != keys[j])
  }

  /** The list `dict.Values.ToList()` for the enumeration order `keys`. */
  function ValuesAt<T>(m: map<string, T>, keys: seq<string>): (vs: seq<T>)
    requires forall k :: k in keys ==> k in m
    ensures |vs| == |keys|
    ensures forall i :: 0 <= i < |keys| ==> vs[i] == m[keys[i]]
  {
    if |keys| == 0 then [] else ValuesAt(m, keys[..|keys| - 1]) + [m[keys[|keys| - 1]]]
  }

  /** A list without repetitions has as many distinct elements as it is long. */
  lemma {:induction false} DistinctCount(keys: seq<string>)
    requires forall i, j :: 0 <= i < j < |keys| ==> keys[i] != keys[j]
    ensures |set k | k in keys| == |keys|
  {
    if |keys| > 0 {
      var init, last := keys[..|keys| - 1], keys[|keys| - 1];
      DistinctCount(init);
      assert (set k | k in keys) == (set k | k in init) + {last} by {
        assert keys == init + [last];
      }
      assert last !in init by {
        forall i | 0 <= i < |init| ensures init[i] != last {
          assert keys[i] != keys[|keys| - 1];
        }
      }
    }
  }

  /** An enumeration visits as many entries as the dictionary holds. */
  lemma EnumerationLength<T>(m: map<string, T>, keys: seq<string>)
    requires Enumerates(m, keys)
    ensures |keys| == |m|
  {
    assert m.Keys == set k | k in keys;
    DistinctCount(keys);
  }

  /** Nothing fails in an enumeration exactly when no value of the map is failing. */
  lemma NoneFailed<T>(m: map<string, T>, keys: seq<string>, failing: set<T>)
    requires Enumerates(m, keys)
    ensures Failed(failing, ValuesAt(m, keys)) == [] <==> forall k :: k in m ==> m[k] !in failing
  {
    var values := ValuesAt(m, keys);
    FailedMembers(failing, values);
    if Failed(failing, values) == [] {
      forall k | k in m ensures m[k] !in failing {
        var i :| 0 <= i < |keys| && keys[i] == k;
        assert values[i] == m[k];
      }
    } else {
      var v :| v in Failed(failing, values);
      var i :| 0 <= i < |values| && values[i] == v;
      assert keys[i] in m;
    }
  }

  class DisposableObjectDictionary<T(==)> {
    /** `dict`. */
    var dict: map<string, T>
    /** `set`: the tracked values. */
    var tracked: set<T>
    /** Every `Dispose()` call made on a value, in order, whether or not it threw. */
    var disposeCalls: seq<T>
    /** The values whose `Dispose()` throws. */
    const failing: set<T>

    constructor (failing: set<T>)
      ensures dict == map[] && tracked == {} && disposeCalls == [] && this.failing == failing
    {
      dict, tracked, disposeCalls := map[], {}, [];
      this.failing := failing;
    }

    /**
     * `Add(key, value)`. The guard throws when `set.Add` reports that the
     * value was NOT yet tracked, after tracking it; a value already tracked
     * goes on to `dict.Add`, which refuses a key already present.
     */
    method Add(key: string, value: T) returns (outcome: Outcome<Error<T>>)
      modifies this`dict, this`tracked
      ensures value !in old(tracked) ==>
                outcome == Fail(Argument(AlreadyAddedMessage)) && tracked == old(tracked) + {value} && dict == old(dict)
      ensures value in old(tracked) && key in old(dict) ==>
                outcome == Fail(Argument(DuplicateKeyMessage)) && tracked == old(tracked) && dict == old(dict)
      ensures value in old(tracked) && key !in old(dict) ==>
                outcome == Pass && tracked == old(tracked) && dict == old(dict)[key := value]
    {
      var newlyTracked := value !in tracked;
      tracked := tracked + {value};
      if newlyTracked {
        return Fail(Argument(AlreadyAddedMessage));
      }
      if key in dict {
        return Fail(Argument(DuplicateKeyMessage));
      }
      dict := dict[key := value];
      outcome := Pass;
    }

    /** `RemoveWithoutDisposing(key)`: drop the entry and untrack its value; false when the key is absent. */
    method RemoveWithoutDisposing(key: string) returns (removed: bool)
      modifies this`dict, this`tracked
      ensures removed <==> key in old(dict)
      ensures removed ==> dict == old(dict) - {key} && tracked == old(tracked) - {old(dict)[key]}
      ensures !removed ==> dict == old(dict) && tracked == old(tracked)
    {
      if key in dict {
        var value := dict[key];
        dict := dict - {key};
        tracked := tracked - {value};
        return true;
      }
      return false;
    }

    /**
     * `Remove(key)`: as `RemoveWithoutDisposing`, and then the dropped value
     * is disposed once; an exception from its `Dispose()` escapes after the
     * entry is gone.
     */
    method Remove(key: string) returns (result: Result<bool, Error<T>>)
      modifies this`dict, this`tracked, this`disposeCalls
      ensures key in old(dict) ==>
                dict == old(dict) - {key} && tracked == old(tracked) - {old(dict)[key]} &&
                disposeCalls == old(disposeCalls) + [old(dict)[key]] &&
                result == if old(dict)[key] in failing then Failure(DisposeThrew(old(dict)[key])) else Success(true)
      ensures key !in old(dict) ==>
                result == Success(false) && dict == old(dict) && tracked == old(tracked) && disposeCalls == old(disposeCalls)
    {
      if key in dict {
        var value := dict[key];
        dict := dict - {key};
        tracked := tracked - {value};
        disposeCalls := disposeCalls + [value];
        if value in failing {
          return Failure(DisposeThrew(value));
        }
        return Success(true);
      }
      return Success(false);
    }

    /** `ClearWithoutDisposing()`. */
    method ClearWithoutDisposing()
      modifies this`dict, this`tracked
      ensures dict == map[] && tracked == {}
    {
      dict := map[];
      tracked := {};
    }

    /** `dict.Values.ToList()`: the values in some enumeration order of the keys. */
    method Values() returns (values: seq<T>, ghost keys: seq<string>)
      ensures Enumerates(dict, keys) && values == ValuesAt(dict, keys)
    {
      var remaining := dict.Keys;
      values, keys := [], [];
      while remaining != {}
        invariant remaining <= dict.Keys
        invariant forall k :: k in keys <==> k in dict && k !in remaining
        invariant forall i, j :: 0 <= i < j < |keys| ==> keys[i] != keys[j]
        invariant values == ValuesAt(dict, keys)
        decreases |remaining|
      {
        var k :| k in remaining;
        assert (keys + [k])[..|keys|] == keys;
        values, keys := values + [dict[k]], keys + [k];
        remaining := remaining - {k};
      }
    }

    /** The disposal loop of `Clear`: every value is disposed in list order, and the failures are collected. */
    method DisposeEach(values: seq<T>) returns (failures: seq<T>)
      modifies this`disposeCalls
      ensures disposeCalls == old(disposeCalls) + values
      ensures failures == Failed(failing, values)
    {
      failures := [];
      for i := 0 to |values|
        invariant disposeCalls == old(disposeCalls) + values[..i]
        invariant failures == Failed(failing, values[..i])
      {
        assert values[..i + 1][..i] == values[..i];
        disposeCalls := disposeCalls + [values[i]];
        if values[i] in failing {
          failures := failures + [values[i]];
        }
      }
      assert values[..|values|] == values;
    }

    /**
     * `Clear()`: snapshot the values, empty both collections, then dispose
     * every snapshot value even when earlier disposals throw, and throw one
     * aggregate exception carrying every failure if there was any.
     */
    method Clear() returns (outcome: Outcome<Error<T>>)
      modifies this`dict, this`tracked, this`disposeCalls
      ensures dict == map[] && tracked == {}
      ensures exists keys :: Enumerates(old(dict), keys) &&
                var values := ValuesAt(old(dict), keys);
                disposeCalls == old(disposeCalls) + values &&
                outcome == if Failed(failing, values) == [] then Pass
                           else Fail(Aggregate(AggregateMessage, Failed(failing, values)))
      ensures outcome.Pass? <==> forall k :: k in old(dict) ==> old(dict)[k] !in failing
      ensures |disposeCalls| == |old(disposeCalls)| + |old(dict)|
    {
      var values, keys := Values();
      dict := map[];
      tracked := {};
      var failures := DisposeEach(values);
      if failures != [] {
        outcome := Fail(Aggregate(AggregateMessage, failures));
      } else {
        outcome := Pass;
      }
      EnumerationLength(old(dict), keys);
      NoneFailed(old(dict), keys, failing);
    }

    /** `ContainsKey(key)`. */
    function ContainsKey(key: string): (r: bool)
      reads this
      ensures r <==> key in dict
    {
      key in dict
    }

    /** `TryGetValue(key, out value)`: the stored value, or nothing for an absent key. */
    function TryGetValue(key: string): (r: Option<T>)
      reads this
      ensures r.Some? <==> key in dict
      ensures r.Some? ==> r.value == dict[key]
    {
      if key in dict then Some(dict[key]) else None
    }

    /** The indexer `this[key]`, which throws `KeyNotFoundException` for an absent key. */
    function Get(key: string): (r: Result<T, Error<T>>)
      reads this
      ensures key in dict ==> r == Success(dict[key])
      ensures key !in dict ==> r == Failure(KeyNotFound(key))
    {
      if key in dict then Success(dict[key]) else Failure(KeyNotFound(key))
    }

    /** `Count`: the number of entries. */
    function Count(): (n: nat)
      reads this
      ensures n == |dict.Keys|
    {
      |dict|
    }

    /** `Dispose()`, which is `Clear()`. */
    method Dispose() returns (outcome: Outcome<Error<T>>)
      modifies this`dict, this`tracked, this`disposeCalls
      ensures dict == map[] && tracked == {}
      ensures exists keys :: Enumerates(old(dict), keys) &&
                var values := ValuesAt(old(dict), keys);
                disposeCalls == old(disposeCalls) + values &&
                outcome == if Failed(failing, values) == [] then Pass
                           else Fail(Aggregate(AggregateMessage, Failed(failing, values)))
      ensures outcome.Pass? <==> forall k :: k in old(dict) ==> old(dict)[k] !in failing
      ensures |disposeCalls| == |old(disposeCalls)| + |old(dict)|
    {
      outcome := Clear();
    }
  }
}
