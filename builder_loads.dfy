/**
 * Course loads and overflow, as the builder computes them: the per-course
 * enrolment map, the total overflow above the course limit, the course of a
 * value that is most over the limit, the post-move check of a candidate value
 * and the candidate's own excess measure.
 */
module BuilderLoads {
  import opened Common

  // ---------------------------------------------------------------------------
  // Per-course enrolment (mapAssignments)
  // ---------------------------------------------------------------------------

  /** One more enrolment in course `t`; a course seen for the first time gets 1. */
  function Inc(m: Loads, t: Course): Loads
  {
    m[t := if t in m then m[t] + 1 else 1]
  }

  /** Enrol once in every token of `comb`, left to right. */
  function AddCourses(m: Loads, comb: Combination): Loads
  {
    if comb == [] then m else Inc(AddCourses(m, comb[..|comb| - 1]), comb[|comb| - 1])
  }

  /** The enrolment map of an assignment, built slot by slot as the source's loop does. */
  function LoadMap(table: seq<Combination>, cpa: Assignment): Loads
    requires ValuesInRange(cpa, |table|)
  {
    if cpa == [] then map[]
    else
      var m := LoadMap(table, cpa[..|cpa| - 1]);
      match cpa[|cpa| - 1]
      case None => m
      case Some(v) => AddCourses(m, table[v])
  }

  /** Reference count: occurrences of `t` in the combinations of all assigned slots. */
  function LoadOf(table: seq<Combination>, cpa: Assignment, t: Course): nat
    requires ValuesInRange(cpa, |table|)
  {
    if cpa == [] then 0
    else
      LoadOf(table, cpa[..|cpa| - 1], t) +
      match cpa[|cpa| - 1]
      case None => 0
      case Some(v) => Count(t, table[v])
  }

  /** Reference count: number of assigned agents whose combination holds `t`. */
  function Holders(table: seq<Combination>, cpa: Assignment, t: Course): nat
    requires ValuesInRange(cpa, |table|)
  {
    if cpa == [] then 0
    else
      Holders(table, cpa[..|cpa| - 1], t) +
      if cpa[|cpa| - 1].Some? && t in table[cpa[|cpa| - 1].value] then 1 else 0
  }

  /** Some assigned agent's combination holds `t`. */
  predicate Enrolled(table: seq<Combination>, cpa: Assignment, t: Course)
    requires ValuesInRange(cpa, |table|)
  {
    exists i :: 0 <= i < |cpa| && cpa[i].Some? && t in table[cpa[i].value]
  }

  predicate RowsDuplicateFree(table: seq<Combination>)
  {
    forall v :: 0 <= v < |table| ==> DuplicateFree(table[v])
  }

  lemma {:induction false} AddCoursesAt(m: Loads, comb: Combination, t: Course)
    ensures t in AddCourses(m, comb) <==> t in m || t in comb
    ensures t in AddCourses(m, comb) ==>
      AddCourses(m, comb)[t] == (if t in m then m[t] else 0) + Count(t, comb)
  {
    if comb != [] {
      var init := comb[..|comb| - 1];
      AddCoursesAt(m, init, t);
      assert comb == init + [comb[|comb| - 1]];
      CountPositive(t, init);
    }
  }

  /**
   * mapAssignments: a course is a key exactly when some assigned agent's combination
   * holds it, and its value is the number of times it occurs in assigned combinations.
   */
  lemma {:induction false} LoadMapMeaning(table: seq<Combination>, cpa: Assignment, t: Course)
    requires ValuesInRange(cpa, |table|)
    ensures t in LoadMap(table, cpa) <==> Enrolled(table, cpa, t)
    ensures t in LoadMap(table, cpa) ==> LoadMap(table, cpa)[t] == LoadOf(table, cpa, t)
    ensures t !in LoadMap(table, cpa) ==> LoadOf(table, cpa, t) == 0
  {
    if cpa != [] {
      var init := cpa[..|cpa| - 1];
      assert ValuesInRange(init, |table|);
      LoadMapMeaning(table, init, t);
      var m := LoadMap(table, init);
      assert Enrolled(table, init, t) ==> Enrolled(table, cpa, t) by {
        if Enrolled(table, init, t) {
          var i :| 0 <= i < |init| && init[i].Some? && t in table[init[i].value];
          assert cpa[i] == init[i];
        }
      }
      match cpa[|cpa| - 1]
      case None =>
        assert Enrolled(table, cpa, t) ==> Enrolled(table, init, t) by {
          if Enrolled(table, cpa, t) {
            var i :| 0 <= i < |cpa| && cpa[i].Some? && t in table[cpa[i].value];
            assert i < |init| && init[i] == cpa[i];
          }
        }
      case Some(v) =>
        AddCoursesAt(m, table[v], t);
        CountPositive(t, table[v]);
        assert Enrolled(table, cpa, t) ==> Enrolled(table, init, t) || t in table[v] by {
          if Enrolled(table, cpa, t) {
            var i :| 0 <= i < |cpa| && cpa[i].Some? && t in table[cpa[i].value];
            if i < |init| { assert init[i] == cpa[i]; }
          }
        }
    }
  }

  /**
   * When no combination repeats a course, the load of a course is the number of
   * assigned agents enrolled in it.
   */
  lemma {:induction false} LoadOfIsHolders(table: seq<Combination>, cpa: Assignment, t: Course)
    requires ValuesInRange(cpa, |table|)
    requires RowsDuplicateFree(table)
    ensures LoadOf(table, cpa, t) == Holders(table, cpa, t)
  {
    if cpa != [] {
      var init := cpa[..|cpa| - 1];
      assert ValuesInRange(init, |table|);
      LoadOfIsHolders(table, init, t);
      if cpa[|cpa| - 1].Some? {
        CountDuplicateFree(t, table[cpa[|cpa| - 1].value]);
      }
    }
  }

  /** Every key of an enrolment map holds at least one enrolment. */
  lemma {:induction false} LoadMapPositive(table: seq<Combination>, cpa: Assignment, t: Course)
    requires ValuesInRange(cpa, |table|)
    requires t in LoadMap(table, cpa)
    ensures LoadMap(table, cpa)[t] >= 1
  {
    LoadMapMeaning(table, cpa, t);
    var i :| 0 <= i < |cpa| && cpa[i].Some? && t in table[cpa[i].value];
    LoadOfAtLeastOne(table, cpa, t, i);
  }

  lemma {:induction false} LoadOfAtLeastOne(table: seq<Combination>, cpa: Assignment, t: Course, i: nat)
    requires ValuesInRange(cpa, |table|)
    requires i < |cpa| && cpa[i].Some? && t in table[cpa[i].value]
    ensures LoadOf(table, cpa, t) >= 1
  {
    var init := cpa[..|cpa| - 1];
    assert ValuesInRange(init, |table|);
    if i == |cpa| - 1 {
      CountPositive(t, table[cpa[i].value]);
    } else {
      assert init[i] == cpa[i];
      LoadOfAtLeastOne(table, init, t, i);
    }
  }

  /** mapAssignments: the nested loop over assigned agents and their courses. */
  method MapAssignments(table: seq<Combination>, cpa: Assignment) returns (m: Loads)
    requires ValuesInRange(cpa, |table|)
    ensures m == LoadMap(table, cpa)
  {
    m := map[];
    var i := 0;
    while i < |cpa|
      invariant 0 <= i <= |cpa|
      invariant ValuesInRange(cpa[..i], |table|)
      invariant m == LoadMap(table, cpa[..i])
    {
      assert cpa[..i + 1][..i] == cpa[..i];
      if cpa[i].Some? {
        var comb := table[cpa[i].value];
        ghost var base := m;
        var j := 0;
        while j < |comb|
          invariant 0 <= j <= |comb|
          invariant m == AddCourses(base, comb[..j])
        {
          assert comb[..j + 1][..j] == comb[..j];
          var t := comb[j];
          if t !in m {
            m := m[t := 1];
          } else {
            m := m[t := m[t] + 1];
          }
          j := j + 1;
        }
        assert comb[..j] == comb;
      }
      i := i + 1;
    }
    assert cpa[..i] == cpa;
  }

  // ---------------------------------------------------------------------------
  // Total overflow (calculate_extra_courses)
  // ---------------------------------------------------------------------------

  /** Excess of one course above the limit; nothing when it is within it. */
  function Over(load: int, limit: int): (e: nat)
    ensures e > 0 <==> load > limit
  {
    if load > limit then load - limit else 0
  }

  ghost function Pick(keys: set<Course>): (k: Course)
    requires keys != {}
    ensures k in keys
  {
    var k :| k in keys; k
  }

  /** Sum of `Over` over the courses in `keys`, in no particular order. */
  ghost function ExcessOn(m: Loads, limit: int, keys: set<Course>): int
    requires keys <= m.Keys
    decreases keys
  {
    if keys == {} then 0
    else
      var k := Pick(keys);
      Over(m[k], limit) + ExcessOn(m, limit, keys - {k})
  }

  /** Reference total overflow: the sum of `Over` over every course of the map. */
  ghost function TotalExcess(m: Loads, limit: int): int
  {
    ExcessOn(m, limit, m.Keys)
  }

  /** The sum does not depend on which course is taken out first. */
  lemma {:induction false} ExcessOnRemove(m: Loads, limit: int, keys: set<Course>, k: Course)
    requires keys <= m.Keys && k in keys
    ensures ExcessOn(m, limit, keys) == Over(m[k], limit) + ExcessOn(m, limit, keys - {k})
    decreases keys
  {
    var j := Pick(keys);
    if j != k {
      ExcessOnRemove(m, limit, keys - {j}, k);
      ExcessOnRemove(m, limit, keys - {k}, j);
      assert keys - {j} - {k} == keys - {k} - {j};
    }
  }

  lemma {:induction false} ExcessOnNonNegative(m: Loads, limit: int, keys: set<Course>)
    requires keys <= m.Keys
    ensures ExcessOn(m, limit, keys) >= 0
    ensures ExcessOn(m, limit, keys) == 0 <==> forall k :: k in keys ==> m[k] <= limit
    decreases keys
  {
    if keys != {} {
      var j := Pick(keys);
      ExcessOnNonNegative(m, limit, keys - {j});
      if ExcessOn(m, limit, keys) == 0 {
        forall k | k in keys ensures m[k] <= limit {
          if k != j {
            assert k in keys - {j};
          }
        }
      }
    }
  }

  /**
   * calculate_extra_courses is never negative, and it is zero exactly when no
   * course is above the limit.
   */
  lemma TotalExcessZeroIff(m: Loads, limit: int)
    ensures TotalExcess(m, limit) >= 0
    ensures TotalExcess(m, limit) == 0 <==> forall k :: k in m ==> m[k] <= limit
  {
    ExcessOnNonNegative(m, limit, m.Keys);
  }

  /** Any single course contributes its own excess to the total. */
  lemma TotalExcessAtLeast(m: Loads, limit: int, k: Course)
    requires k in m
    ensures TotalExcess(m, limit) >= Over(m[k], limit)
  {
    ExcessOnRemove(m, limit, m.Keys, k);
    ExcessOnNonNegative(m, limit, m.Keys - {k});
  }

  /** calculate_extra_courses: the loop over the key set. */
  method CalculateExtraCourses(m: Loads, limit: int) returns (e: int)
    ensures e == TotalExcess(m, limit)
  {
    e := 0;
    var keys := m.Keys;
    while keys != {}
      invariant keys <= m.Keys
      invariant e + ExcessOn(m, limit, keys) == TotalExcess(m, limit)
      decreases keys
    {
      var k :| k in keys;
      ExcessOnRemove(m, limit, keys, k);
      if m[k] > limit {
        e := e + (m[k] - limit);
      }
      keys := keys - {k};
    }
  }

  // ---------------------------------------------------------------------------
  // Scans over the courses of one value (checkSelfAssignment, checkNewAssignment)
  // ---------------------------------------------------------------------------

  /** Load of each course of `comb`, 0 for a course absent from the map. */
  function LoadsAt(m: Loads, comb: Combination): (r: seq<int>)
    ensures |r| == |comb|
  {
    seq(|comb|, j requires 0 <= j < |comb| => if comb[j] in m then m[comb[j]] else 0)
  }

  /** Which courses of `comb` are above the limit. */
  function OverFlags(m: Loads, limit: int, comb: Combination): (r: seq<bool>)
    ensures |r| == |comb|
  {
    seq(|comb|, j requires 0 <= j < |comb| => comb[j] in m && m[comb[j]] > limit)
  }

  /** Which courses of `comb` have an entry in the map. */
  function PresentFlags(m: Loads, comb: Combination): (r: seq<bool>)
    ensures |r| == |comb|
  {
    seq(|comb|, j requires 0 <= j < |comb| => comb[j] in m)
  }

  /** A course of the table proper: course tokens are never empty. */
  predicate Tokens(comb: Combination)
  {
    forall j :: 0 <= j < |comb| ==> comb[j] != ""
  }

  /**
   * checkSelfAssignment: the scan keeps the course with the largest load above both
   * 0 and the limit (strictly larger replaces), "" when there is none.
   */
  function SelfKey(m: Loads, limit: int, comb: Combination): Course
  {
    ArgMax(comb, LoadsAt(m, comb), OverFlags(m, limit, comb), false, "", 0).0
  }

  /** A course of the value is above the limit (and, as the scan requires, above 0). */
  predicate Hot(m: Loads, limit: int, t: Course)
  {
    t in m && m[t] > limit && m[t] > 0
  }

  /**
   * checkSelfAssignment returns "" iff no course of the value is above the limit;
   * otherwise it returns such a course of maximal load, the first one scanned on ties.
   */
  lemma SelfKeyMeaning(m: Loads, limit: int, comb: Combination)
    requires Tokens(comb)
    ensures var key := SelfKey(m, limit, comb);
      (key == "" <==> forall j :: 0 <= j < |comb| ==> !Hot(m, limit, comb[j])) &&
      (key != "" ==>
        exists i :: 0 <= i < |comb| && comb[i] == key && Hot(m, limit, key) &&
          (forall j :: 0 <= j < |comb| && comb[j] in m && m[comb[j]] > limit ==> m[comb[j]] <= m[key]) &&
          (forall j :: 0 <= j < i && comb[j] in m && m[comb[j]] > limit ==> m[comb[j]] < m[key]))
  {
    var loads, flags := LoadsAt(m, comb), OverFlags(m, limit, comb);
    assert forall j :: 0 <= j < |comb| ==>
      loads[j] == (if comb[j] in m then m[comb[j]] else 0) && flags[j] == (comb[j] in m && m[comb[j]] > limit);
    ArgMaxFirst(comb, loads, flags, "", 0);
    var r := ArgMax(comb, loads, flags, false, "", 0);
    if !(forall j :: 0 <= j < |comb| && flags[j] ==> loads[j] <= 0) {
      var i :| 0 <= i < |comb| && flags[i] && r == (comb[i], loads[i]) && loads[i] > 0 &&
        (forall j :: 0 <= j < |comb| && flags[j] ==> loads[j] <= loads[i]) &&
        (forall j :: 0 <= j < i && flags[j] ==> loads[j] < loads[i]);
      assert Hot(m, limit, comb[i]);
      assert r.0 != "";
    }
  }

  /** Whatever checkSelfAssignment returns other than "" is an overloaded course of the value. */
  lemma SelfKeyHot(m: Loads, limit: int, comb: Combination)
    ensures var key := SelfKey(m, limit, comb);
      key != "" ==> key in comb && Hot(m, limit, key)
  {
    var loads, flags := LoadsAt(m, comb), OverFlags(m, limit, comb);
    ArgMaxFirst(comb, loads, flags, "", 0);
    var r := ArgMax(comb, loads, flags, false, "", 0);
    if r.0 != "" {
      var i :| 0 <= i < |comb| && flags[i] && r == (comb[i], loads[i]) && loads[i] > 0;
      assert comb[i] in m && m[comb[i]] == loads[i];
    }
  }

  /** checkSelfAssignment: the loop over the value's courses. */
  method CheckSelfAssignment(inst: Instance, v: int, m: Loads) returns (key: Course)
    requires 0 <= v < |inst.table|
    ensures key == SelfKey(m, inst.limit, inst.table[v])
  {
    var comb := inst.table[v];
    ghost var loads, flags := LoadsAt(m, comb), OverFlags(m, inst.limit, comb);
    var maxBeta := 0;
    key := "";
    var i := 0;
    while i < |comb|
      invariant 0 <= i <= |comb|
      invariant ArgMax(comb[i..], loads[i..], flags[i..], false, key, maxBeta) ==
                ArgMax(comb, loads, flags, false, "", 0)
    {
      assert comb[i..][1..] == comb[i + 1..] && loads[i..][1..] == loads[i + 1..] && flags[i..][1..] == flags[i + 1..];
      var t := comb[i];
      if t in m && m[t] > maxBeta && m[t] > inst.limit {
        maxBeta := m[t];
        key := t;
      }
      i := i + 1;
    }
  }

  /**
   * The post-move check's scan: starting from the limit, keep the course whose load
   * is at least the best so far (so the last maximal one wins), "" when none
   * reaches the limit.
   */
  function NewKey(m: Loads, limit: int, comb: Combination): Course
  {
    ArgMax(comb, LoadsAt(m, comb), PresentFlags(m, comb), true, "", limit).0
  }

  /**
   * The scan returns "" iff every course of the candidate is absent or below the
   * limit; otherwise it returns a course at or above the limit, of maximal load,
   * the last one scanned on ties.
   */
  lemma NewKeyMeaning(m: Loads, limit: int, comb: Combination)
    requires Tokens(comb)
    ensures var key := NewKey(m, limit, comb);
      (key == "" <==> forall j :: 0 <= j < |comb| ==> comb[j] !in m || m[comb[j]] < limit) &&
      (key != "" ==>
        exists i :: 0 <= i < |comb| && comb[i] == key && key in m && m[key] >= limit &&
          (forall j :: 0 <= j < |comb| && comb[j] in m ==> m[comb[j]] <= m[key]) &&
          (forall j :: i < j < |comb| && comb[j] in m ==> m[comb[j]] < m[key]))
  {
    var loads, flags := LoadsAt(m, comb), PresentFlags(m, comb);
    assert forall j :: 0 <= j < |comb| ==>
      loads[j] == (if comb[j] in m then m[comb[j]] else 0) && flags[j] == (comb[j] in m);
    ArgMaxLast(comb, loads, flags, "", limit);
    var r := ArgMax(comb, loads, flags, true, "", limit);
    if !(forall j :: 0 <= j < |comb| && flags[j] ==> loads[j] < limit) {
      var i :| 0 <= i < |comb| && flags[i] && r == (comb[i], loads[i]) && loads[i] >= limit &&
        (forall j :: 0 <= j < |comb| && flags[j] ==> loads[j] <= loads[i]) &&
        (forall j :: i < j < |comb| && flags[j] ==> loads[j] < loads[i]);
      assert r.0 != "";
    }
  }

  /** The read-only second loop of checkNewAssignment. */
  method NewAssignmentKey(inst: Instance, m: Loads, v: int) returns (key: Course)
    requires 0 <= v < |inst.table|
    ensures key == NewKey(m, inst.limit, inst.table[v])
  {
    var comb := inst.table[v];
    ghost var loads, flags := LoadsAt(m, comb), PresentFlags(m, comb);
    var maxBeta := inst.limit;
    key := "";
    var i := 0;
    while i < |comb|
      invariant 0 <= i <= |comb|
      invariant ArgMax(comb[i..], loads[i..], flags[i..], true, key, maxBeta) ==
                ArgMax(comb, loads, flags, true, "", inst.limit)
    {
      assert comb[i..][1..] == comb[i + 1..] && loads[i..][1..] == loads[i + 1..] && flags[i..][1..] == flags[i + 1..];
      var t := comb[i];
      if t in m && m[t] >= maxBeta {
        maxBeta := m[t];
        key := t;
      }
      i := i + 1;
    }
  }

  /** The map after one enrolment in each token of `comb` is withdrawn. */
  function Decremented(m: Loads, comb: Combination): (r: Loads)
    ensures r.Keys == m.Keys
  {
    map t | t in m :: m[t] - Count(t, comb)
  }

  /** The value whose enrolments checkNewAssignment withdraws: -1, or a row of the table. */
  predicate OldValueCounted(inst: Instance, m: Loads, oldVal: int)
  {
    oldVal == -1 || (0 <= oldVal < |inst.table| && forall t :: t in inst.table[oldVal] ==> t in m)
  }

  function Withdraw(inst: Instance, m: Loads, oldVal: int): Loads
    requires OldValueCounted(inst, m, oldVal)
  {
    if oldVal == -1 then m else Decremented(m, inst.table[oldVal])
  }

  /**
   * The caller's course map, which checkNewAssignment changes in place. Every
   * call withdraws the old value's enrolments again.
   */
  class CourseLoads {
    var counts: Loads

    constructor (m: Loads)
      ensures counts == m
    {
      counts := m;
    }

    /** The first loop of checkNewAssignment: one enrolment of each course of `oldVal` is withdrawn. */
    method WithdrawValue(inst: Instance, oldVal: int)
      requires OldValueCounted(inst, counts, oldVal)
      modifies this
      ensures counts == Withdraw(inst, old(counts), oldVal)
    {
      if oldVal != -1 {
        var comb := inst.table[oldVal];
        var j := 0;
        while j < |comb|
          invariant 0 <= j <= |comb|
          invariant counts == Decremented(old(counts), comb[..j])
        {
          assert comb[..j + 1][..j] == comb[..j];
          var t := comb[j];
          counts := counts[t := counts[t] - 1];
          j := j + 1;
        }
        assert comb[..j] == comb;
      }
    }

    /** checkNewAssignment: withdraw `oldVal` (unless -1) in place, then scan `newVal`. */
    method CheckNewAssignment(inst: Instance, oldVal: int, newVal: int) returns (key: Course)
      requires OldValueCounted(inst, counts, oldVal)
      requires 0 <= newVal < |inst.table|
      modifies this
      ensures counts == Withdraw(inst, old(counts), oldVal)
      ensures key == NewKey(counts, inst.limit, inst.table[newVal])
    {
      WithdrawValue(inst, oldVal);
      key := NewAssignmentKey(inst, counts, newVal);
    }
  }

  /** Withdrawing a value twice takes its enrolments off twice. */
  lemma WithdrawTwice(inst: Instance, m: Loads, oldVal: int, t: Course)
    requires oldVal != -1 && OldValueCounted(inst, m, oldVal)
    requires t in inst.table[oldVal]
    ensures OldValueCounted(inst, Withdraw(inst, m, oldVal), oldVal)
    ensures Withdraw(inst, Withdraw(inst, m, oldVal), oldVal)[t] < Withdraw(inst, m, oldVal)[t] < m[t]
  {
    CountPositive(t, inst.table[oldVal]);
  }

  // ---------------------------------------------------------------------------
  // Candidate excess (checkMinAssignment)
  // ---------------------------------------------------------------------------

  /** checkMinAssignment: sum of (load - limit) over the value's courses at or above the limit. */
  function MinExcess(m: Loads, limit: int, comb: Combination): (e: int)
  {
    if comb == [] then 0
    else
      var t := comb[|comb| - 1];
      MinExcess(m, limit, comb[..|comb| - 1]) + if t in m && m[t] >= limit then m[t] - limit else 0
  }

  /** Reference measure: the sum of `Over` over the value's courses. */
  function CourseExcess(m: Loads, limit: int, comb: Combination): nat
  {
    if comb == [] then 0
    else
      var t := comb[|comb| - 1];
      CourseExcess(m, limit, comb[..|comb| - 1]) + if t in m then Over(m[t], limit) else 0
  }

  /**
   * checkMinAssignment equals the sum of the courses' excess above the limit: it is
   * never negative, and a course exactly at the limit adds nothing.
   */
  lemma {:induction false} MinExcessMeaning(m: Loads, limit: int, comb: Combination)
    ensures MinExcess(m, limit, comb) == CourseExcess(m, limit, comb)
    ensures MinExcess(m, limit, comb) >= 0
    ensures MinExcess(m, limit, comb) == 0 <==>
      forall j :: 0 <= j < |comb| ==> comb[j] !in m || m[comb[j]] <= limit
  {
    if comb != [] {
      var init := comb[..|comb| - 1];
      MinExcessMeaning(m, limit, init);
      assert forall j :: 0 <= j < |init| ==> init[j] == comb[j];
    }
  }
}
