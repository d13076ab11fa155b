/**
 * The equitable-teaching-load measure of `calculate_constraint_violations`:
 * each teacher's load is the sum of the weekly hours of the courses the
 * timetable gives them; the measure is ten times the standard deviation of
 * the loads, truncated. The arithmetic is exact here (see README).
 */
module TeachingLoad {
  import opened Sequences
  import opened Domain

  /** Every timetabled course and its teacher are known, as the source's lookups demand. */
  ghost predicate LoadLookups(data: Dataset, tt: Keyed<Assignment>) {
    forall c :: c in tt.entries ==> c in data.courses.entries && tt.entries[c].teacher in data.teachers.entries
  }

  /** The weekly hours a course adds to teacher `t`'s load. */
  function HoursFor(data: Dataset, tt: Keyed<Assignment>, c: Id, t: Id): int {
    if c in tt.entries && c in data.courses.entries && tt.entries[c].teacher == t
    then data.courses.entries[c].hoursPerWeek else 0
  }

  /** Teacher `t`'s load from the courses `keys`. */
  ghost function LoadOver(data: Dataset, tt: Keyed<Assignment>, keys: seq<Id>, t: Id): int {
    if keys == [] then 0
    else LoadOver(data, tt, keys[..|keys| - 1], t) + HoursFor(data, tt, keys[|keys| - 1], t)
  }

  /** The loads of the teachers `ts`, in order, from the courses `keys`. */
  ghost function LoadsOf(data: Dataset, tt: Keyed<Assignment>, ts: seq<Id>, keys: seq<Id>): seq<int> {
    if ts == [] then [] else LoadsOf(data, tt, ts[..|ts| - 1], keys) + [LoadOver(data, tt, keys, ts[|ts| - 1])]
  }

  function Sum(s: seq<int>): int {
    if s == [] then 0 else Sum(s[..|s| - 1]) + s[|s| - 1]
  }

  /** The weekly hours of the known courses among `keys`. */
  ghost function Hours(data: Dataset, tt: Keyed<Assignment>, keys: seq<Id>): int {
    if keys == [] then 0
    else
      var c := keys[|keys| - 1];
      Hours(data, tt, keys[..|keys| - 1]) + (if c in tt.entries && c in data.courses.entries then data.courses.entries[c].hoursPerWeek else 0)
  }

  lemma {:induction false} LoadsOfSnocCourse(data: Dataset, tt: Keyed<Assignment>, ts: seq<Id>, keys: seq<Id>, c: Id)
    requires Distinct(ts)
    ensures Sum(LoadsOf(data, tt, ts, keys + [c]))
         == Sum(LoadsOf(data, tt, ts, keys))
            + (if c in tt.entries && c in data.courses.entries && tt.entries[c].teacher in ts
               then data.courses.entries[c].hoursPerWeek else 0)
  {
    assert (keys + [c])[..|keys|] == keys;
    if ts != [] {
      var init := ts[..|ts| - 1];
      assert Distinct(init);
      LoadsOfSnocCourse(data, tt, init, keys, c);
      var l1, l2 := LoadsOf(data, tt, init, keys + [c]), LoadsOf(data, tt, init, keys);
      assert (l1 + [LoadOver(data, tt, keys + [c], ts[|ts| - 1])])[..|l1|] == l1;
      assert (l2 + [LoadOver(data, tt, keys, ts[|ts| - 1])])[..|l2|] == l2;
      assert forall t :: t in ts <==> t in init || t == ts[|ts| - 1];
    }
  }

  lemma {:induction false} NoLoads(data: Dataset, tt: Keyed<Assignment>, ts: seq<Id>)
    ensures Sum(LoadsOf(data, tt, ts, [])) == 0
  {
    if ts != [] {
      NoLoads(data, tt, ts[..|ts| - 1]);
      var l := LoadsOf(data, tt, ts[..|ts| - 1], []);
      assert (l + [0])[..|l|] == l;
    }
  }

  /** The loads add up to the weekly hours of every timetabled course: no hour is lost or counted twice. */
  lemma {:induction false} LoadsAddUp(data: Dataset, tt: Keyed<Assignment>, ts: seq<Id>, keys: seq<Id>)
    requires Distinct(ts)
    requires forall c :: c in keys && c in tt.entries && c in data.courses.entries ==> tt.entries[c].teacher in ts
    ensures Sum(LoadsOf(data, tt, ts, keys)) == Hours(data, tt, keys)
  {
    if keys == [] {
      NoLoads(data, tt, ts);
    } else {
      var init := keys[..|keys| - 1];
      LoadsAddUp(data, tt, ts, init);
      assert init + [keys[|keys| - 1]] == keys;
      LoadsOfSnocCourse(data, tt, ts, init, keys[|keys| - 1]);
    }
  }

  lemma {:induction false} LoadsOfIndex(data: Dataset, tt: Keyed<Assignment>, ts: seq<Id>, keys: seq<Id>)
    ensures |LoadsOf(data, tt, ts, keys)| == |ts|
    ensures forall i :: 0 <= i < |ts| ==> LoadsOf(data, tt, ts, keys)[i] == LoadOver(data, tt, keys, ts[i])
  {
    if ts != [] {
      LoadsOfIndex(data, tt, ts[..|ts| - 1], keys);
    }
  }

  /** Each known teacher's load over the whole timetable, as `teaching_load`'s first loop builds it. */
  method AccumulateLoads(data: Dataset, tt: Keyed<Assignment>) returns (load: map<Id, int>)
    requires data.Valid() && tt.Valid() && LoadLookups(data, tt)
    ensures load.Keys == data.teachers.entries.Keys
    ensures forall t :: t in load ==> load[t] == LoadOver(data, tt, tt.order, t)
  {
    load := map t | t in data.teachers.entries :: 0;
    for i := 0 to |tt.order|
      invariant load.Keys == data.teachers.entries.Keys
      invariant forall t :: t in load ==> load[t] == LoadOver(data, tt, tt.order[..i], t)
    {
      var c := tt.order[i];
      var t := tt.entries[c].teacher;
      var course := data.courses.entries[c];
      load := load[t := load[t] + course.hoursPerWeek];
      assert tt.order[..i + 1][..i] == tt.order[..i];
    }
    assert tt.order[..|tt.order|] == tt.order;
  }

  /** `teaching_load`: the loads of the teachers in the dataset's order. */
  method TeachingLoads(data: Dataset, tt: Keyed<Assignment>) returns (loads: seq<int>)
    requires data.Valid() && tt.Valid() && LoadLookups(data, tt)
    ensures loads == LoadsOf(data, tt, data.teachers.order, tt.order)
  {
    var load := AccumulateLoads(data, tt);
    var order := data.teachers.order;
    loads := seq(|order|, i requires 0 <= i < |order| => load[order[i]]);
    LoadsOfIndex(data, tt, order, tt.order);
  }

  /** The squared deviations of `loads` from `mean`, summed. */
  function SquaredDeviations(loads: seq<int>, mean: real): (r: real)
    ensures r >= 0.0
  {
    if loads == [] then 0.0
    else
      var d := loads[|loads| - 1] as real - mean;
      SquaredDeviations(loads[..|loads| - 1], mean) + d * d
  }

  function Mean(loads: seq<int>): real
    requires loads != []
  {
    Sum(loads) as real / |loads| as real
  }

  /** The population variance of the loads. */
  function Variance(loads: seq<int>): (v: real)
    requires loads != []
    ensures v >= 0.0
  {
    SquaredDeviations(loads, Mean(loads)) / |loads| as real
  }

  function CountUp(v: real, k: nat): (r: nat)
    requires (k * k) as real <= v
    ensures (r * r) as real <= v < ((r + 1) * (r + 1)) as real
    decreases v.Floor - k * k
  {
    if ((k + 1) * (k + 1)) as real <= v then CountUp(v, k + 1) else k
  }

  /** `int(std_dev * 10)`: the largest `k` with `k <= 10 * sqrt(variance)`. */
  function ScaledStdDev(variance: real): (k: nat)
    requires variance >= 0.0
    ensures (k * k) as real <= 100.0 * variance < ((k + 1) * (k + 1)) as real
  {
    CountUp(100.0 * variance, 0)
  }

  /** `equitable_teaching_load`: 0 without teachers, else the scaled standard deviation of the loads. */
  function EquitableLoad(loads: seq<int>): nat {
    if loads == [] then 0 else ScaledStdDev(Variance(loads))
  }

  lemma {:induction false} SumConstant(loads: seq<int>, x: int)
    requires forall i :: 0 <= i < |loads| ==> loads[i] == x
    ensures Sum(loads) == |loads| * x
  {
    if loads != [] {
      SumConstant(loads[..|loads| - 1], x);
    }
  }

  lemma {:induction false} NoDeviation(loads: seq<int>, x: int)
    requires forall i :: 0 <= i < |loads| ==> loads[i] == x
    ensures SquaredDeviations(loads, x as real) == 0.0
  {
    if loads != [] {
      NoDeviation(loads[..|loads| - 1], x);
    }
  }

  /** Equal loads for every teacher incur no penalty. */
  lemma BalancedLoadsNoPenalty(loads: seq<int>)
    requires forall i, j :: 0 <= i < |loads| && 0 <= j < |loads| ==> loads[i] == loads[j]
    ensures EquitableLoad(loads) == 0
  {
    if loads != [] {
      var x := loads[0];
      SumConstant(loads, x);
      assert Mean(loads) == x as real;
      NoDeviation(loads, x);
      var k := ScaledStdDev(Variance(loads));
      assert (k * k) as real <= 0.0;
    }
  }
}
