/**
 * Repeat counting, shared by the simulated-annealing cost and the genetic
 * fitness: walking the timetable, an assignment is a repeat when its
 * (teacher, slot) pair, or (room, slot) pair, was already taken by an
 * earlier assignment.
 */
module Repetition {
  import opened Sequences
  import opened Domain

  /** The (resource, slot) pair an assignment occupies; the resource is the room when `byRoom`, else the teacher. */
  function Occupied(a: Assignment, byRoom: bool): (Id, Id) {
    if byRoom then (a.room, a.slot) else (a.teacher, a.slot)
  }

  function OccupiedPairs(sol: Solution, byRoom: bool): set<(Id, Id)> {
    set c | c in sol :: Occupied(sol[c], byRoom)
  }

  /** No two courses occupy the same (resource, slot) pair. */
  ghost predicate ClashFree(sol: Solution, byRoom: bool) {
    forall c1, c2 :: c1 in sol && c2 in sol && c1 != c2 ==> Occupied(sol[c1], byRoom) != Occupied(sol[c2], byRoom)
  }

  /** There are at most as many occupied pairs as assignments, and exactly as many iff no two share a pair. */
  lemma {:induction false} PairsCount(sol: Solution, byRoom: bool)
    ensures |OccupiedPairs(sol, byRoom)| <= |sol|
    ensures |OccupiedPairs(sol, byRoom)| == |sol| <==> ClashFree(sol, byRoom)
    decreases |sol|
  {
    if sol != map[] {
      var k :| k in sol;
      var rest := sol - {k};
      assert rest.Keys == sol.Keys - {k};
      assert |rest| == |sol| - 1;
      PairsCount(rest, byRoom);
      var p := Occupied(sol[k], byRoom);
      assert OccupiedPairs(sol, byRoom) == OccupiedPairs(rest, byRoom) + {p} by {
        forall q | q in OccupiedPairs(sol, byRoom) ensures q in OccupiedPairs(rest, byRoom) + {p} {
          var c :| c in sol && Occupied(sol[c], byRoom) == q;
          if c != k {
            assert c in rest && rest[c] == sol[c];
          }
        }
      }
      if p in OccupiedPairs(rest, byRoom) {
        var c :| c in rest && Occupied(rest[c], byRoom) == p;
        assert c in sol && c != k && Occupied(sol[c], byRoom) == Occupied(sol[k], byRoom);
      } else if ClashFree(rest, byRoom) {
        forall c1, c2 | c1 in sol && c2 in sol && c1 != c2
          ensures Occupied(sol[c1], byRoom) != Occupied(sol[c2], byRoom)
        {
          if c1 == k {
            assert c2 in rest && rest[c2] == sol[c2];
            assert Occupied(sol[c2], byRoom) in OccupiedPairs(rest, byRoom);
          } else if c2 == k {
            assert c1 in rest && rest[c1] == sol[c1];
            assert Occupied(sol[c1], byRoom) in OccupiedPairs(rest, byRoom);
          } else {
            assert rest[c1] == sol[c1] && rest[c2] == sol[c2];
          }
        }
      } else {
        var c1, c2 :| c1 in rest && c2 in rest && c1 != c2 && Occupied(rest[c1], byRoom) == Occupied(rest[c2], byRoom);
        assert c1 in sol && c2 in sol && Occupied(sol[c1], byRoom) == Occupied(sol[c2], byRoom);
      }
    }
  }

  /** The number of repeats: assignments minus distinct occupied pairs; zero exactly when the timetable is clash-free. */
  function Repeats(sol: Solution, byRoom: bool): (n: nat)
    ensures n == 0 <==> ClashFree(sol, byRoom)
  {
    PairsCount(sol, byRoom);
    |sol| - |OccupiedPairs(sol, byRoom)|
  }

  /**
   * The source's loop: visit the courses in `keys` order with the set of pairs
   * seen so far, counting one repeat per pair already seen.
   */
  function RepeatScan(sol: Solution, keys: seq<Id>, byRoom: bool, seen: set<(Id, Id)>): nat
    requires forall c :: c in keys ==> c in sol
  {
    if keys == [] then 0
    else
      var p := Occupied(sol[keys[0]], byRoom);
      (if p in seen then 1 else 0) + RepeatScan(sol, keys[1..], byRoom, seen + {p})
  }

  function PairsOf(sol: Solution, keys: seq<Id>, byRoom: bool): set<(Id, Id)>
    requires forall c :: c in keys ==> c in sol
  {
    set c | c in keys :: Occupied(sol[c], byRoom)
  }

  lemma PairsOfCons(sol: Solution, keys: seq<Id>, byRoom: bool)
    requires keys != [] && forall c :: c in keys ==> c in sol
    ensures PairsOf(sol, keys, byRoom) == {Occupied(sol[keys[0]], byRoom)} + PairsOf(sol, keys[1..], byRoom)
  {
    assert forall c :: c in keys <==> c == keys[0] || c in keys[1..];
  }

  lemma AddOne<X>(seen: set<X>, p: X)
    ensures |seen + {p}| == |seen| + (if p in seen then 0 else 1)
  {
    if p in seen {
      assert seen + {p} == seen;
    }
  }

  lemma {:induction false} ScanBalance(sol: Solution, keys: seq<Id>, byRoom: bool, seen: set<(Id, Id)>)
    requires forall c :: c in keys ==> c in sol
    ensures RepeatScan(sol, keys, byRoom, seen) + |seen + PairsOf(sol, keys, byRoom)| == |keys| + |seen|
  {
    if keys != [] {
      var p := Occupied(sol[keys[0]], byRoom);
      ScanBalance(sol, keys[1..], byRoom, seen + {p});
      PairsOfCons(sol, keys, byRoom);
      assert (seen + {p}) + PairsOf(sol, keys[1..], byRoom) == seen + PairsOf(sol, keys, byRoom);
      AddOne(seen, p);
    }
  }

  /**
   * Scanning every course once, in any order, counts exactly `Repeats`: the
   * count does not depend on the dict's iteration order.
   */
  lemma ScanCountsRepeats(sol: Solution, keys: seq<Id>, byRoom: bool)
    requires Distinct(keys)
    requires forall c :: c in keys <==> c in sol
    ensures RepeatScan(sol, keys, byRoom, {}) == Repeats(sol, byRoom)
  {
    ScanBalance(sol, keys, byRoom, {});
    assert PairsOf(sol, keys, byRoom) == OccupiedPairs(sol, byRoom);
    DistinctCardinality(keys);
    assert (set c | c in keys) == sol.Keys;
  }
}
