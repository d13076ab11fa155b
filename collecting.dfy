/**
 * The ingestion loops shared by `parse_data` and the data transformer:
 * build one record per raw item, in order, stopping at the first `KeyError`;
 * keyed collections insert each record under its id, so a later duplicate id
 * overwrites an earlier one while keeping the first one's position.
 */
module Collecting {
  import opened Wrappers
  import opened Domain
  import opened Raw

  /** `item[f]`: the field's value, or `KeyError` naming `f` when it is absent. */
  function Need<T>(o: Option<T>, f: Field): Result<T, KeyError>
  {
    match o
    case Some(v) => Success(v)
    case None => Failure(KeyError(f.Text()))
  }

  /** `for item in items: out[id] = make(item)`. */
  function Collect<R, V>(items: seq<R>, make: R -> Result<V, KeyError>, key: V -> Id): Result<Keyed<V>, KeyError> {
    if items == [] then Success(EmptyKeyed())
    else
      var acc :- Collect(items[..|items| - 1], make, key);
      var v :- make(items[|items| - 1]);
      Success(acc.Put(key(v), v))
  }

  /** `for item in items: out.append(make(item))`. */
  function CollectList<R, V>(items: seq<R>, make: R -> Result<V, KeyError>): Result<seq<V>, KeyError> {
    if items == [] then Success([])
    else
      var acc :- CollectList(items[..|items| - 1], make);
      var v :- make(items[|items| - 1]);
      Success(acc + [v])
  }

  ghost predicate AllMade<R, V>(items: seq<R>, make: R -> Result<V, KeyError>) {
    forall i :: 0 <= i < |items| ==> make(items[i]).Success?
  }

  /** Item `i` is the first whose record cannot be built, with error `e`. */
  ghost predicate FirstFailure<R, V>(items: seq<R>, make: R -> Result<V, KeyError>, i: int, e: KeyError) {
    && 0 <= i < |items|
    && make(items[i]) == Failure(e)
    && forall j :: 0 <= j < i ==> make(items[j]).Success?
  }

  /** No later item builds a record with the same id as item `i`. */
  ghost predicate LastWithKey<R, V>(items: seq<R>, make: R -> Result<V, KeyError>, key: V -> Id, i: int)
    requires AllMade(items, make) && 0 <= i < |items|
  {
    forall j :: i < j < |items| ==> key(make(items[j]).value) != key(make(items[i]).value)
  }

  /** The collection is built iff every item is; otherwise the error is the first failing item's. */
  lemma {:induction false} CollectOutcome<R, V>(items: seq<R>, make: R -> Result<V, KeyError>, key: V -> Id)
    ensures Collect(items, make, key).Success? <==> AllMade(items, make)
    ensures Collect(items, make, key).Failure? ==>
              exists i :: FirstFailure(items, make, i, Collect(items, make, key).error)
  {
    if items != [] {
      var init := items[..|items| - 1];
      CollectOutcome(init, make, key);
      assert forall i :: 0 <= i < |init| ==> init[i] == items[i];
      if Collect(init, make, key).Failure? {
        var i :| FirstFailure(init, make, i, Collect(init, make, key).error);
        assert FirstFailure(items, make, i, Collect(items, make, key).error);
      } else if make(items[|items| - 1]).Failure? {
        assert FirstFailure(items, make, |items| - 1, Collect(items, make, key).error);
      }
    }
  }

  /** One more item: the collection so far with that item's record put under its id. */
  lemma CollectSnoc<R, V>(items: seq<R>, make: R -> Result<V, KeyError>, key: V -> Id)
    requires AllMade(items, make) && items != []
    ensures AllMade(items[..|items| - 1], make)
    ensures Collect(items, make, key).Success? && Collect(items[..|items| - 1], make, key).Success?
    ensures var v := make(items[|items| - 1]).value;
            Collect(items, make, key).value == Collect(items[..|items| - 1], make, key).value.Put(key(v), v)
  {
    var init := items[..|items| - 1];
    assert forall i :: 0 <= i < |init| ==> init[i] == items[i];
    CollectOutcome(items, make, key);
    CollectOutcome(init, make, key);
  }

  /** A built collection is a valid keyed collection holding exactly the ids of the items. */
  lemma {:induction false} CollectKeys<R, V>(items: seq<R>, make: R -> Result<V, KeyError>, key: V -> Id)
    requires AllMade(items, make)
    ensures Collect(items, make, key).Success?
    ensures Collect(items, make, key).value.Valid()
    ensures forall x :: x in Collect(items, make, key).value.entries
                    <==> exists i :: 0 <= i < |items| && key(make(items[i]).value) == x
  {
    CollectOutcome(items, make, key);
    if items != [] {
      var init := items[..|items| - 1];
      CollectSnoc(items, make, key);
      CollectKeys(init, make, key);
      var n := |items| - 1;
      forall x ensures x in Collect(items, make, key).value.entries
                       <==> exists i :: 0 <= i < |items| && key(make(items[i]).value) == x
      {
        if x in Collect(init, make, key).value.entries {
          var i :| 0 <= i < |init| && key(make(init[i]).value) == x;
          assert items[i] == init[i];
        }
        if exists i :: 0 <= i < |items| && key(make(items[i]).value) == x {
          var i :| 0 <= i < |items| && key(make(items[i]).value) == x;
          if i < n {
            assert init[i] == items[i];
          }
        }
      }
    }
  }

  /** Each id holds the record of the last item with that id: a later duplicate overwrites an earlier one. */
  lemma {:induction false} CollectLastWins<R, V>(items: seq<R>, make: R -> Result<V, KeyError>, key: V -> Id, i: int)
    requires AllMade(items, make) && 0 <= i < |items| && LastWithKey(items, make, key, i)
    ensures Collect(items, make, key).Success?
    ensures key(make(items[i]).value) in Collect(items, make, key).value.entries
    ensures Collect(items, make, key).value.entries[key(make(items[i]).value)] == make(items[i]).value
  {
    CollectSnoc(items, make, key);
    var init := items[..|items| - 1];
    if i < |items| - 1 {
      assert forall j :: 0 <= j < |init| ==> init[j] == items[j];
      CollectLastWins(init, make, key, i);
    }
  }

  /** The loop's step: the first `i + 1` items give the first `i` items' collection with item `i` put in. */
  lemma CollectStep<R, V>(items: seq<R>, make: R -> Result<V, KeyError>, key: V -> Id, i: int)
    requires 0 <= i < |items| && Collect(items[..i], make, key).Success? && make(items[i]).Success?
    ensures Collect(items[..i + 1], make, key)
            == Success(Collect(items[..i], make, key).value.Put(key(make(items[i]).value), make(items[i]).value))
  {
    assert items[..i + 1][..i] == items[..i];
  }

  /** Once item `i` fails to build, after the first `i` were built, the whole collection fails with its error. */
  lemma {:induction false} CollectFailsAt<R, V>(items: seq<R>, make: R -> Result<V, KeyError>, key: V -> Id, i: int)
    requires 0 <= i < |items| && Collect(items[..i], make, key).Success? && make(items[i]).Failure?
    ensures Collect(items, make, key) == Failure(make(items[i]).error)
  {
    var init := items[..|items| - 1];
    if i == |items| - 1 {
      assert init == items[..i];
    } else {
      assert init[..i] == items[..i] && init[i] == items[i];
      CollectFailsAt(init, make, key, i);
    }
  }

  /** The list loop's step, as `CollectStep`. */
  lemma CollectListStep<R, V>(items: seq<R>, make: R -> Result<V, KeyError>, i: int)
    requires 0 <= i < |items| && CollectList(items[..i], make).Success? && make(items[i]).Success?
    ensures CollectList(items[..i + 1], make) == Success(CollectList(items[..i], make).value + [make(items[i]).value])
  {
    assert items[..i + 1][..i] == items[..i];
  }

  /** The list loop's failure, as `CollectFailsAt`. */
  lemma {:induction false} CollectListFailsAt<R, V>(items: seq<R>, make: R -> Result<V, KeyError>, i: int)
    requires 0 <= i < |items| && CollectList(items[..i], make).Success? && make(items[i]).Failure?
    ensures CollectList(items, make) == Failure(make(items[i]).error)
  {
    var init := items[..|items| - 1];
    if i == |items| - 1 {
      assert init == items[..i];
    } else {
      assert init[..i] == items[..i] && init[i] == items[i];
      CollectListFailsAt(init, make, i);
    }
  }

  /**
   * `out` is what the loop leaves: a valid keyed collection holding exactly the
   * items' ids, each with the record of the last item carrying it.
   */
  ghost predicate Holds<R, V>(out: Keyed<V>, items: seq<R>, make: R -> Result<V, KeyError>, key: V -> Id)
    requires AllMade(items, make)
  {
    && out.Valid()
    && (forall x :: x in out.entries <==> exists i :: 0 <= i < |items| && key(make(items[i]).value) == x)
    && (forall i :: 0 <= i < |items| && LastWithKey(items, make, key, i) ==>
          key(make(items[i]).value) in out.entries && out.entries[key(make(items[i]).value)] == make(items[i]).value)
  }

  lemma CollectHolds<R, V>(items: seq<R>, make: R -> Result<V, KeyError>, key: V -> Id)
    requires AllMade(items, make)
    ensures Collect(items, make, key).Success?
    ensures Holds(Collect(items, make, key).value, items, make, key)
  {
    CollectKeys(items, make, key);
    forall i | 0 <= i < |items| && LastWithKey(items, make, key, i)
      ensures key(make(items[i]).value) in Collect(items, make, key).value.entries
      ensures Collect(items, make, key).value.entries[key(make(items[i]).value)] == make(items[i]).value
    {
      CollectLastWins(items, make, key, i);
    }
  }

  /** Two builders that agree wherever the first succeeds build the same collection from items the first accepts. */
  lemma {:induction false} CollectAgree<R, V>(items: seq<R>, make: R -> Result<V, KeyError>, other: R -> Result<V, KeyError>, key: V -> Id)
    requires AllMade(items, make)
    requires forall i :: 0 <= i < |items| ==> other(items[i]) == make(items[i])
    ensures Collect(items, other, key) == Collect(items, make, key)
  {
    if items != [] {
      var init := items[..|items| - 1];
      assert forall i :: 0 <= i < |init| ==> init[i] == items[i];
      CollectAgree(init, make, other, key);
    }
  }

  /** The same for lists. */
  lemma {:induction false} CollectListAgree<R, V>(items: seq<R>, make: R -> Result<V, KeyError>, other: R -> Result<V, KeyError>)
    requires forall i :: 0 <= i < |items| ==> other(items[i]) == make(items[i])
    ensures CollectList(items, other) == CollectList(items, make)
  {
    if items != [] {
      var init := items[..|items| - 1];
      assert forall i :: 0 <= i < |init| ==> init[i] == items[i];
      CollectListAgree(init, make, other);
    }
  }

  /** A built list has one record per item, in order. */
  lemma {:induction false} CollectListFacts<R, V>(items: seq<R>, make: R -> Result<V, KeyError>)
    ensures CollectList(items, make).Success? <==> AllMade(items, make)
    ensures CollectList(items, make).Success? ==>
              |CollectList(items, make).value| == |items|
              && forall i :: 0 <= i < |items| ==> CollectList(items, make).value[i] == make(items[i]).value
  {
    if items != [] {
      var init := items[..|items| - 1];
      CollectListFacts(init, make);
      assert forall i :: 0 <= i < |init| ==> init[i] == items[i];
    }
  }
}
