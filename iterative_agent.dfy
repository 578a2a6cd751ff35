/**
 * IterativeAgent (class DSAAgent of the earlier agent framework): a single chain
 * pass. Each agent, on START, rebuilds the enrolment map from its view, takes the
 * value of highest added cost that puts it in no full course (a course already at
 * the limit), or failing that the value the second scan settles on, and hands
 * START to the next agent. The last agent adds its map's overflow to a shared
 * total and writes one line.
 */
module IterativeAgent {
  import opened Common
  import opened BuilderLoads

  /** A course is full when it is in the map with a load at or above the limit. */
  predicate Full(m: Loads, limit: int, t: Course)
  {
    t in m && m[t] >= limit
  }

  /** How many positions of `comb` name a full course. */
  function FullCount(m: Loads, limit: int, comb: Combination): (c: nat)
    ensures c <= |comb|
  {
    if comb == [] then 0
    else FullCount(m, limit, comb[..|comb| - 1]) + (if Full(m, limit, comb[|comb| - 1]) then 1 else 0)
  }

  /** The count is positive exactly when the combination names some full course. */
  lemma {:induction false} FullCountPositive(m: Loads, limit: int, comb: Combination)
    ensures FullCount(m, limit, comb) > 0 <==> exists j :: 0 <= j < |comb| && Full(m, limit, comb[j])
  {
    if comb != [] {
      var init := comb[..|comb| - 1];
      FullCountPositive(m, limit, init);
      if exists j :: 0 <= j < |comb| && Full(m, limit, comb[j]) {
        var j :| 0 <= j < |comb| && Full(m, limit, comb[j]);
        if j < |comb| - 1 {
          assert init[j] == comb[j];
        }
      } else {
        assert forall j :: 0 <= j < |init| ==> init[j] == comb[j];
      }
    }
  }

  /** checkSelfAssignment: whether some course of `v` is already full. */
  method CheckSelfAssignment(inst: Instance, m: Loads, v: int) returns (flag: bool)
    requires 0 <= v < |inst.table|
    ensures flag <==> exists j :: 0 <= j < |inst.table[v]| && Full(m, inst.limit, inst.table[v][j])
  {
    var comb := inst.table[v];
    flag := false;
    var j := 0;
    while j < |comb|
      invariant 0 <= j <= |comb|
      invariant flag <==> exists i :: 0 <= i < j && Full(m, inst.limit, comb[i])
    {
      if comb[j] in m && m[comb[j]] >= inst.limit {
        flag := true;
      }
      j := j + 1;
    }
  }

  /** checkMinAssignment: how many courses of `v` are already full. */
  method CheckMinAssignment(inst: Instance, m: Loads, v: int) returns (exceed: int)
    requires 0 <= v < |inst.table|
    ensures exceed == FullCount(m, inst.limit, inst.table[v])
  {
    var comb := inst.table[v];
    exceed := 0;
    var j := 0;
    while j < |comb|
      invariant 0 <= j <= |comb|
      invariant exceed == FullCount(m, inst.limit, comb[..j])
    {
      assert comb[..j + 1][..j] == comb[..j];
      if comb[j] in m && m[comb[j]] >= inst.limit {
        exceed := exceed + 1;
      }
      j := j + 1;
    }
    assert comb[..j] == comb;
  }

  // ---------------------------------------------------------------------------
  // find_max_value
  // ---------------------------------------------------------------------------

  /** Per domain value: does it name no full course (phase 1 may take it)? */
  function Roomy(inst: Instance, m: Loads, dom: seq<int>): (r: seq<bool>)
    requires DomainRows(inst, dom)
    ensures |r| == |dom| && forall j :: 0 <= j < |dom| ==> r[j] == (FullCount(m, inst.limit, inst.table[dom[j]]) == 0)
  {
    seq(|dom|, j requires 0 <= j < |dom| => FullCount(m, inst.limit, inst.table[dom[j]]) == 0)
  }

  /** Per domain value: how many of its courses are full. */
  function FullCounts(inst: Instance, m: Loads, dom: seq<int>): (r: seq<int>)
    requires DomainRows(inst, dom)
    ensures |r| == |dom| && forall j :: 0 <= j < |dom| ==> r[j] == FullCount(m, inst.limit, inst.table[dom[j]])
  {
    seq(|dom|, j requires 0 <= j < |dom| => FullCount(m, inst.limit, inst.table[dom[j]]))
  }

  /**
   * The second scan: a value is taken when its cost beats the best so far and its
   * count of full courses does not exceed the best so far. Returns the final
   * (value, cost, count).
   */
  function Phase2(dom: seq<int>, costs: seq<int>, counts: seq<int>, best: int, cost: int, exceed: int): (int, int, int)
    requires |dom| == |costs| == |counts|
    decreases |dom|
  {
    if dom == [] then (best, cost, exceed)
    else if Beats(costs[0], counts[0], cost, exceed) then Phase2(dom[1..], costs[1..], counts[1..], dom[0], costs[0], counts[0])
    else Phase2(dom[1..], costs[1..], counts[1..], best, cost, exceed)
  }

  /** (cost, count) beats (best cost, best count) in the second scan. */
  predicate Beats(c: int, k: int, cost: int, exceed: int)
  {
    c > cost && k <= exceed
  }

  /**
   * `r` is where the second scan of positions lo.. from (best, cost, exceed) ends:
   * the start when no position beats it, otherwise a position that beats the start
   * and that no later position beats in turn.
   */
  ghost predicate IsLastTaken(dom: seq<int>, costs: seq<int>, counts: seq<int>, lo: nat,
                              best: int, cost: int, exceed: int, r: (int, int, int))
    requires |dom| == |costs| == |counts|
  {
    ((forall j :: lo <= j < |dom| ==> !Beats(costs[j], counts[j], cost, exceed)) && r == (best, cost, exceed)) ||
    (exists i :: lo <= i < |dom| && r == (dom[i], costs[i], counts[i]) && Beats(costs[i], counts[i], cost, exceed) &&
       (forall j :: i < j < |dom| ==> !Beats(costs[j], counts[j], costs[i], counts[i])))
  }

  /** The second scan ends on its start or on a value no later value beats. */
  lemma {:induction false} Phase2Taken(dom: seq<int>, costs: seq<int>, counts: seq<int>, best: int, cost: int, exceed: int)
    requires |dom| == |costs| == |counts|
    ensures IsLastTaken(dom, costs, counts, 0, best, cost, exceed, Phase2(dom, costs, counts, best, cost, exceed))
  {
    if dom != [] {
      var r := Phase2(dom, costs, counts, best, cost, exceed);
      if Beats(costs[0], counts[0], cost, exceed) {
        Phase2Taken(dom[1..], costs[1..], counts[1..], dom[0], costs[0], counts[0]);
        TakenShift(dom, costs, counts, dom[0], costs[0], counts[0], r);
        TakenTake(dom, costs, counts, best, cost, exceed, r);
      } else {
        Phase2Taken(dom[1..], costs[1..], counts[1..], best, cost, exceed);
        TakenShift(dom, costs, counts, best, cost, exceed, r);
        TakenSkip(dom, costs, counts, best, cost, exceed, r);
      }
    }
  }

  /** The tail's scan, read at positions 1.. of the whole domain. */
  lemma TakenShift(dom: seq<int>, costs: seq<int>, counts: seq<int>, best: int, cost: int, exceed: int,
                   r: (int, int, int))
    requires |dom| == |costs| == |counts| > 0
    requires IsLastTaken(dom[1..], costs[1..], counts[1..], 0, best, cost, exceed, r)
    ensures IsLastTaken(dom, costs, counts, 1, best, cost, exceed, r)
  {
    assert forall j :: 1 <= j < |dom| ==>
      dom[j] == dom[1..][j - 1] && costs[j] == costs[1..][j - 1] && counts[j] == counts[1..][j - 1];
    if !(forall j :: 0 <= j < |dom| - 1 ==> !Beats(costs[1..][j], counts[1..][j], cost, exceed)) ||
       r != (best, cost, exceed) {
      var i :| 0 <= i < |dom| - 1 && r == (dom[1..][i], costs[1..][i], counts[1..][i]) &&
        Beats(costs[1..][i], counts[1..][i], cost, exceed) &&
        (forall j :: i < j < |dom| - 1 ==> !Beats(costs[1..][j], counts[1..][j], costs[1..][i], counts[1..][i]));
      assert 1 <= i + 1 < |dom| && r == (dom[i + 1], costs[i + 1], counts[i + 1]);
    }
  }

  /** A head that beats the start becomes the start of the scan of positions 1.. . */
  lemma TakenTake(dom: seq<int>, costs: seq<int>, counts: seq<int>, best: int, cost: int, exceed: int,
                  r: (int, int, int))
    requires |dom| == |costs| == |counts| > 0 && Beats(costs[0], counts[0], cost, exceed)
    requires IsLastTaken(dom, costs, counts, 1, dom[0], costs[0], counts[0], r)
    ensures IsLastTaken(dom, costs, counts, 0, best, cost, exceed, r)
  {
    if (forall j :: 1 <= j < |dom| ==> !Beats(costs[j], counts[j], costs[0], counts[0])) &&
       r == (dom[0], costs[0], counts[0]) {
      assert 0 <= 0 < |dom| && r == (dom[0], costs[0], counts[0]);
    } else {
      var i :| 1 <= i < |dom| && r == (dom[i], costs[i], counts[i]) &&
        Beats(costs[i], counts[i], costs[0], counts[0]) &&
        (forall j :: i < j < |dom| ==> !Beats(costs[j], counts[j], costs[i], counts[i]));
      assert 0 <= i < |dom| && r == (dom[i], costs[i], counts[i]) && Beats(costs[i], counts[i], cost, exceed);
    }
  }

  /** A head that does not beat the start leaves the start of the scan of positions 1.. unchanged. */
  lemma TakenSkip(dom: seq<int>, costs: seq<int>, counts: seq<int>, best: int, cost: int, exceed: int,
                  r: (int, int, int))
    requires |dom| == |costs| == |counts| > 0 && !Beats(costs[0], counts[0], cost, exceed)
    requires IsLastTaken(dom, costs, counts, 1, best, cost, exceed, r)
    ensures IsLastTaken(dom, costs, counts, 0, best, cost, exceed, r)
  {
    if !((forall j :: 1 <= j < |dom| ==> !Beats(costs[j], counts[j], cost, exceed)) && r == (best, cost, exceed)) {
      var i :| 1 <= i < |dom| && r == (dom[i], costs[i], counts[i]) && Beats(costs[i], counts[i], cost, exceed) &&
        (forall j :: i < j < |dom| ==> !Beats(costs[j], counts[j], costs[i], counts[i]));
      assert 0 <= i < |dom| && r == (dom[i], costs[i], counts[i]);
    }
  }

  /**
   * find_max_value on the map `m` of the view and the view's added costs: the
   * first scan from (-1, -1) over values with no full course; when it takes
   * nothing, the second scan from its cost with the count bound Integer.MAX_VALUE.
   */
  function Choice(inst: Instance, m: Loads, dom: seq<int>, added: int -> int): int
    requires DomainRows(inst, dom)
  {
    var costs := AddedCosts(dom, added);
    var (b, c) := ArgMax(dom, costs, Roomy(inst, m, dom), false, -1, -1);
    if b == -1 then Phase2(dom, costs, FullCounts(inst, m, dom), -1, c, IntMax).0 else b
  }

  /**
   * The choice is the first value of highest added cost among those with no full
   * course, when one costs more than -1; otherwise the second scan's value, which
   * no later value beats on both cost and count. It is -1 for an empty domain, and
   * it lies in the domain when added costs are non-negative and combinations are
   * shorter than Integer.MAX_VALUE.
   */
  lemma ChoiceMeaning(inst: Instance, m: Loads, dom: seq<int>, added: int -> int)
    requires DomainRows(inst, dom)
    ensures var r := Choice(inst, m, dom, added);
      var costs := AddedCosts(dom, added);
      var roomy := Roomy(inst, m, dom);
      (r == -1 || r in dom) && (dom == [] ==> r == -1) &&
      ((exists j :: 0 <= j < |dom| && roomy[j] && costs[j] > -1) ==>
        (exists i :: 0 <= i < |dom| && roomy[i] && r == dom[i] &&
          (forall j :: 0 <= j < |dom| && roomy[j] ==> costs[j] <= costs[i]) &&
          (forall j :: 0 <= j < i && roomy[j] ==> costs[j] < costs[i]))) &&
      ((forall j :: 0 <= j < |dom| && roomy[j] ==> costs[j] <= -1) ==>
        r == Phase2(dom, costs, FullCounts(inst, m, dom), -1, -1, IntMax).0)
    ensures (dom != [] && (forall j :: 0 <= j < |dom| ==> added(dom[j]) >= 0 && |inst.table[dom[j]]| <= IntMax)) ==>
      Choice(inst, m, dom, added) in dom
  {
    var costs := AddedCosts(dom, added);
    var roomy := Roomy(inst, m, dom);
    var counts := FullCounts(inst, m, dom);
    ArgMaxFirst(dom, costs, roomy, -1, -1);
    Phase2Taken(dom, costs, counts, -1, -1, IntMax);
    var (b, c) := ArgMax(dom, costs, roomy, false, -1, -1);
    if b == -1 {
      assert c == -1 && forall j :: 0 <= j < |dom| && roomy[j] ==> costs[j] <= -1;
    }
  }

  /** find_max_value: the two set-draining scans. */
  method FindMaxValue(inst: Instance, m: Loads, dom: seq<int>, added: int -> int) returns (best: int)
    requires DomainRows(inst, dom)
    ensures best == Choice(inst, m, dom, added)
  {
    var costs := AddedCosts(dom, added);
    var roomy := Roomy(inst, m, dom);
    best := -1;
    var cost := -1;
    var i := 0;
    while i < |dom|
      invariant 0 <= i <= |dom|
      invariant ArgMax(dom[i..], costs[i..], roomy[i..], false, best, cost) == ArgMax(dom, costs, roomy, false, -1, -1)
    {
      assert dom[i..][1..] == dom[i + 1..] && costs[i..][1..] == costs[i + 1..] && roomy[i..][1..] == roomy[i + 1..];
      var full := CheckSelfAssignment(inst, m, dom[i]);
      FullCountPositive(m, inst.limit, inst.table[dom[i]]);
      if added(dom[i]) > cost && !full {
        best, cost := dom[i], added(dom[i]);
      }
      i := i + 1;
    }
    assert dom[i..] == [];
    if best == -1 {
      var counts := FullCounts(inst, m, dom);
      var exceed := IntMax;
      i := 0;
      while i < |dom|
        invariant 0 <= i <= |dom|
        invariant Phase2(dom[i..], costs[i..], counts[i..], best, cost, exceed) ==
          Phase2(dom, costs, counts, -1, ArgMax(dom, costs, roomy, false, -1, -1).1, IntMax)
      {
        assert dom[i..][1..] == dom[i + 1..] && costs[i..][1..] == costs[i + 1..] && counts[i..][1..] == counts[i + 1..];
        var count := CheckMinAssignment(inst, m, dom[i]);
        if added(dom[i]) > cost && count <= exceed {
          best, cost, exceed := dom[i], added(dom[i]), count;
        }
        i := i + 1;
      }
      assert dom[i..] == [];
    }
  }

  // ---------------------------------------------------------------------------
  // The agent
  // ---------------------------------------------------------------------------

  /** What `output` writes: elapsed time is left out; the sentinel line when `flag` is up. */
  datatype Line = Record(cost: int, extra: int) | TimeOut

  /** The statics: the overflow total, the finished count, the sentinel flag and the start time. */
  class Statics {
    var extraCourses: int
    var numAgents: int
    var flag: bool
    var startTime: int
    var lines: seq<Line>

    /** Java's defaults for static fields. */
    constructor()
      ensures extraCourses == 0 && numAgents == 0 && !flag && lines == []
    {
      extraCourses := 0;
      numAgents := 0;
      flag := false;
      startTime := 0;
      lines := [];
    }
  }

  /** The line `output` writes from a view and the overflow total. */
  function LineFor(flag: bool, cost: int, extra: int): Line
  {
    if flag then TimeOut else Record(cost, extra)
  }

  class Agent {
    const id: int
    const n: int
    var cpa: Assignment
    var submitted: Option<int>
    var outbox: seq<Message>
    var courses: Option<Loads>
    var finished: bool
    var finalValue: Option<int>

    /** The agent's own slot of its view always holds the value it submitted. */
    predicate Valid()
      reads this
    {
      0 <= id < n && |cpa| == n && cpa[id] == submitted
    }

    constructor(id: int, n: int)
      requires 0 <= id < n
      ensures this.id == id && this.n == n && cpa == Unassigned(n) && submitted == None && courses == None
      ensures outbox == [] && !finished && finalValue == None && Valid()
    {
      this.id := id;
      this.n := n;
      cpa := Unassigned(n);
      submitted := None;
      outbox := [];
      courses := None;
      finished := false;
      finalValue := None;
    }

    /** assignNewValue: record, submit and broadcast the value, then pass START on unless this is the last agent. */
    method AssignNewValue(v: int)
      requires Valid()
      modifies this
      ensures Valid() && cpa == old(cpa)[id := Some(v)] && submitted == Some(v)
      ensures outbox == old(outbox) + [Assign(id, v)] + (if id != n - 1 then [Message.Start(id + 1)] else [])
      ensures courses == old(courses) && finished == old(finished) && finalValue == old(finalValue)
    {
      cpa := cpa[id := Some(v)];
      submitted := Some(v);
      outbox := outbox + [Assign(id, v)];
      if id != n - 1 {
        outbox := outbox + [Message.Start(id + 1)];
      }
    }

    /**
     * iterate (start of the first agent, and handleStart): rebuild the map from the
     * view, keep it, and take find_max_value's answer. `added` is calcAddedCost of
     * this agent on its view.
     */
    method Iterate(inst: Instance, dom: seq<int>, added: int -> int)
      requires Valid() && ValuesInRange(cpa, |inst.table|) && DomainRows(inst, dom)
      modifies this
      ensures Valid() && finished == old(finished) && finalValue == old(finalValue)
      ensures courses == Some(LoadMap(inst.table, old(cpa)))
      ensures var v := Choice(inst, LoadMap(inst.table, old(cpa)), dom, added);
        cpa == old(cpa)[id := Some(v)] && submitted == Some(v) &&
        outbox == old(outbox) + [Assign(id, v)] + (if id != n - 1 then [Message.Start(id + 1)] else [])
    {
      var m := MapAssignments(inst.table, cpa);
      courses := Some(m);
      var v := FindMaxValue(inst, m, dom, added);
      AssignNewValue(v);
    }

    /** start: an empty view; only the first agent stamps the time and iterates. */
    method Start(s: Statics, inst: Instance, dom: seq<int>, added: int -> int, now: int)
      requires 0 <= id < n && DomainRows(inst, dom)
      modifies this, s
      ensures Valid() && finished == old(finished)
      ensures s.extraCourses == old(s.extraCourses) && s.numAgents == old(s.numAgents)
      ensures s.flag == old(s.flag) && s.lines == old(s.lines)
      ensures id == 0 ==> (s.startTime == now && courses == Some(LoadMap(inst.table, Unassigned(n))) &&
        cpa == Unassigned(n)[0 := Some(Choice(inst, LoadMap(inst.table, Unassigned(n)), dom, added))])
      ensures id != 0 ==> (s.startTime == old(s.startTime) && courses == old(courses) &&
        cpa == Unassigned(n) && outbox == old(outbox))
    {
      cpa := Unassigned(n);
      submitted := None;
      if id == 0 {
        s.startTime := now;
        Iterate(inst, dom, added);
      }
    }

    /** handleAssignment: another agent's broadcast value. */
    method HandleAssignment(i: int, v: int)
      requires Valid() && 0 <= i < n && i != id
      modifies this
      ensures Valid() && cpa == old(cpa)[i := Some(v)]
      ensures submitted == old(submitted) && outbox == old(outbox) && courses == old(courses)
      ensures finished == old(finished) && finalValue == old(finalValue)
    {
      cpa := cpa[i := Some(v)];
    }

    /**
     * onMailBoxEmpty as written: finish and count; the last agent adds the overflow
     * of the map it kept from its last iterate (built before its own assignment),
     * writes the line and clears the overflow total and the count. An agent that
     * never iterated has no map: the exception is swallowed and nothing is written.
     */
    method OnMailBoxEmpty(s: Statics, inst: Instance, calcCost: Assignment -> int)
      requires Valid() && !finished
      modifies this, s
      ensures Valid() && finished && finalValue == old(submitted)
      ensures cpa == old(cpa) && courses == old(courses) && outbox == old(outbox)
      ensures s.flag == old(s.flag) && s.startTime == old(s.startTime)
      ensures (id == n - 1 && courses.Some?) ==> (
        s.lines == old(s.lines) +
          [LineFor(s.flag, calcCost(cpa), old(s.extraCourses) + TotalExcess(courses.value, inst.limit))] &&
        s.extraCourses == 0 && s.numAgents == 0)
      ensures !(id == n - 1 && courses.Some?) ==> (
        s.lines == old(s.lines) && s.extraCourses == old(s.extraCourses) && s.numAgents == old(s.numAgents) + 1)
    {
      finished := true;
      finalValue := submitted;
      s.numAgents := s.numAgents + 1;
      if id == n - 1 && courses.Some? {
        var e := CalculateExtraCourses(courses.value, inst.limit);
        s.extraCourses := s.extraCourses + e;
        s.lines := s.lines + [LineFor(s.flag, calcCost(cpa), s.extraCourses)];
        s.extraCourses := 0;
        s.numAgents := 0;
      }
    }

    /**
     * onMailBoxEmpty with the map rebuilt from the final view before the overflow
     * is added, as GreedyAgent does: the line then carries the overflow of the
     * joint assignment the pass ends on.
     */
    method OnMailBoxEmptyRemapped(s: Statics, inst: Instance, calcCost: Assignment -> int)
      requires Valid() && !finished && ValuesInRange(cpa, |inst.table|)
      modifies this, s
      ensures Valid() && finished && finalValue == old(submitted)
      ensures cpa == old(cpa) && outbox == old(outbox)
      ensures s.flag == old(s.flag) && s.startTime == old(s.startTime)
      ensures id == n - 1 ==> (courses == Some(LoadMap(inst.table, cpa)) &&
        s.lines == old(s.lines) +
          [LineFor(s.flag, calcCost(cpa), old(s.extraCourses) + TotalExcess(LoadMap(inst.table, cpa), inst.limit))] &&
        s.extraCourses == 0 && s.numAgents == 0)
      ensures id != n - 1 ==> (courses == old(courses) &&
        s.lines == old(s.lines) && s.extraCourses == old(s.extraCourses) && s.numAgents == old(s.numAgents) + 1)
    {
      finished := true;
      finalValue := submitted;
      s.numAgents := s.numAgents + 1;
      if id == n - 1 {
        var m := MapAssignments(inst.table, cpa);
        courses := Some(m);
        var e := CalculateExtraCourses(m, inst.limit);
        s.extraCourses := s.extraCourses + e;
        s.lines := s.lines + [LineFor(s.flag, calcCost(cpa), s.extraCourses)];
        s.extraCourses := 0;
        s.numAgents := 0;
      }
    }
  }

  /**
   * The map the last agent keeps misses its own courses. Two agents, one course
   * "c1" with limit 1, both with domain [0]: agent 0 takes 0; agent 1 finds c1
   * full, so phase 1 takes nothing and phase 2 takes 0. Its kept map has c1 at 1
   * (no overflow), while the final assignment has c1 at 2 (overflow 1).
   */
  lemma StaleOverflow(inst: Instance, added: int -> int, before: Assignment)
    requires inst.table == [["c1"]] && inst.limit == 1 && added(0) == 0
    requires before == [Some(0), None]
    ensures var kept := LoadMap(inst.table, before);
      var v := Choice(inst, kept, [0], added);
      v == 0 && TotalExcess(kept, inst.limit) == 0 &&
      TotalExcess(LoadMap(inst.table, before[1 := Some(v)]), inst.limit) >= 1
  {
    var kept := LoadMap(inst.table, before);
    assert AddCourses(map[], ["c1"]) == map["c1" := 1] by {
      assert ["c1"][..0] == [];
    }
    assert before[..1] == [Some(0)] && [Some(0)][..0] == [];
    assert LoadMap(inst.table, []) == map[];
    assert LoadMap(inst.table, [Some(0)]) == map["c1" := 1];
    assert kept == map["c1" := 1];
    TotalExcessZeroIff(kept, inst.limit);
    assert FullCount(kept, 1, ["c1"][..0]) == 0;
    assert FullCount(kept, 1, ["c1"]) == 1;
    ChoiceMeaning(inst, kept, [0], added);
    var after := before[1 := Some(0)];
    assert after[..1] == [Some(0)];
    assert AddCourses(map["c1" := 1], ["c1"]) == map["c1" := 2] by {
      assert ["c1"][..0] == [];
    }
    assert LoadMap(inst.table, after) == map["c1" := 2];
    TotalExcessAtLeast(LoadMap(inst.table, after), inst.limit, "c1");
  }
}
