/**
 * CourseAlgoAgent (the earlier agent framework): stochastic local search with
 * repair, run by every agent on its own view. Each tick an agent rebuilds the
 * enrolment map, keeps its own incumbent among the views with no course over the
 * limit and its own fallback among the views of smallest overflow, and then, with
 * one random draw, either leaves an overloaded course (probability p2, the
 * course's beta) or, when its value overloads nothing, explores (probability p1).
 * Every scan starts from the agent's persistent field `bestVal`.
 */
module CourseAlgoAgent {
  import opened Common
  import opened BuilderLoads
  import opened Strategies
  import DsaRc

  // ---------------------------------------------------------------------------
  // checkAllAssignments
  // ---------------------------------------------------------------------------

  /** No course of the map is above the limit. */
  predicate AllWithin(m: Loads, limit: int)
  {
    forall t :: t in m ==> m[t] <= limit
  }

  /**
   * checkAllAssignments: the loop over the map's values, leaving at the first
   * course above the limit. It holds exactly when calculate_extra_courses is zero.
   */
  method CheckAllAssignments(m: Loads, limit: int) returns (ok: bool)
    ensures ok <==> AllWithin(m, limit)
    ensures ok <==> TotalExcess(m, limit) == 0
  {
    ok := true;
    var keys := m.Keys;
    while keys != {} && ok
      invariant keys <= m.Keys
      invariant ok <==> forall t :: t in m.Keys - keys ==> m[t] <= limit
      decreases |keys|
    {
      var t :| t in keys;
      if m[t] > limit {
        ok := false;
      }
      keys := keys - {t};
    }
    TotalExcessZeroIff(m, limit);
  }

  // ---------------------------------------------------------------------------
  // The scans of a tick
  // ---------------------------------------------------------------------------

  /** checkSelfAssignment(v) returns "": no course of `v` is above the limit. */
  predicate Settled(inst: Instance, m: Loads, v: int)
    requires 0 <= v < |inst.table|
  {
    SelfKey(m, inst.limit, inst.table[v]) == ""
  }

  /** The settled test for each candidate, in scan order. */
  function SettledFlags(inst: Instance, m: Loads, vals: seq<int>): (r: seq<bool>)
    requires DomainRows(inst, vals)
    ensures |r| == |vals| && forall j :: 0 <= j < |vals| ==> r[j] == Settled(inst, m, vals[j])
  {
    seq(|vals|, j requires 0 <= j < |vals| => Settled(inst, m, vals[j]))
  }

  /** The strict scan `added(v) > cost` over the eligible candidates, starting from `from` at `cost`. */
  function Scan(vals: seq<int>, ok: seq<bool>, added: int -> int, from: int, cost: int): int
    requires |vals| == |ok|
  {
    ArgMax(vals, AddedCosts(vals, added), ok, false, from, cost).0
  }

  /**
   * `r` is what a strict scan over the candidate set `e` from (`from`, `cost`) should
   * end on: a candidate of maximal added cost when some candidate beats `cost`, and
   * otherwise the start value itself.
   */
  ghost predicate Top(e: set<int>, added: int -> int, cost: int, from: int, r: int)
  {
    if exists w :: w in e && added(w) > cost then
      r in e && added(r) > cost && forall w :: w in e ==> added(w) <= added(r)
    else r == from
  }

  /** The scan over a sequence ends on the top of the set of its eligible candidates. */
  lemma ScanTop(vals: seq<int>, ok: seq<bool>, added: int -> int, from: int, cost: int, e: set<int>)
    requires |vals| == |ok|
    requires forall w :: w in e <==> exists j :: 0 <= j < |vals| && ok[j] && vals[j] == w
    ensures Top(e, added, cost, from, Scan(vals, ok, added, from, cost))
  {
    var costs := AddedCosts(vals, added);
    ArgMaxFirst(vals, costs, ok, from, cost);
    var r := ArgMax(vals, costs, ok, false, from, cost);
    if exists w :: w in e && added(w) > cost {
      var w :| w in e && added(w) > cost;
      var j :| 0 <= j < |vals| && ok[j] && vals[j] == w;
      assert costs[j] > cost;
      var i :| 0 <= i < |vals| && ok[i] && r == (vals[i], costs[i]) && costs[i] > cost &&
        (forall j :: 0 <= j < |vals| && ok[j] ==> costs[j] <= costs[i]);
      forall u | u in e
        ensures added(u) <= added(r.0)
      {
        var k :| 0 <= k < |vals| && ok[k] && vals[k] == u;
        assert costs[k] <= costs[i];
      }
    } else {
      assert forall j :: 0 <= j < |vals| && ok[j] ==> costs[j] <= cost by {
        forall j | 0 <= j < |vals| && ok[j]
          ensures costs[j] <= cost
        {
          assert exists k :: 0 <= k < |vals| && ok[k] && vals[k] == vals[j];
          assert vals[j] in e;
        }
      }
    }
  }

  /** The loop that drains a candidate set, testing checkSelfAssignment only on a value that beats the best so far. */
  method ScanSettled(inst: Instance, m: Loads, vals: seq<int>, added: int -> int, from: int, cost0: int)
    returns (best: int)
    requires DomainRows(inst, vals)
    ensures best == Scan(vals, SettledFlags(inst, m, vals), added, from, cost0)
  {
    ghost var costs, ok := AddedCosts(vals, added), SettledFlags(inst, m, vals);
    best := from;
    var cost := cost0;
    var i := 0;
    while i < |vals|
      invariant 0 <= i <= |vals|
      invariant ArgMax(vals[i..], costs[i..], ok[i..], false, best, cost) == ArgMax(vals, costs, ok, false, from, cost0)
    {
      assert vals[i..][1..] == vals[i + 1..] && costs[i..][1..] == costs[i + 1..] && ok[i..][1..] == ok[i + 1..];
      var v := vals[i];
      if added(v) > cost {
        var key := CheckSelfAssignment(inst, v, m);
        if key == "" {
          best, cost := v, added(v);
        }
      }
      i := i + 1;
    }
    assert vals[i..] == [];
  }

  // ---------------------------------------------------------------------------
  // The decision of a tick below the budget
  // ---------------------------------------------------------------------------

  /** What a tick needs: the domain's values index the table, and the agent has submitted one of the table's values. */
  predicate Ready(inst: Instance, dom: seq<int>, submitted: Option<int>)
  {
    DomainRows(inst, dom) && submitted.Some? && 0 <= submitted.value < |inst.table|
  }

  /** Candidates of the repair that avoids the course `key`: domain values without it that overload nothing. */
  ghost function AvoidingSet(inst: Instance, m: Loads, dom: seq<int>, key: Course): set<int>
  {
    set w | w in dom && 0 <= w < |inst.table| && key !in inst.table[w] && Settled(inst, m, w)
  }

  /** Candidates of the repair that keeps every course within the limit. */
  ghost function CoveringSet(inst: Instance, m: Loads, dom: seq<int>): set<int>
  {
    set w | w in dom && 0 <= w < |inst.table| && Covers(inst, m, w)
  }

  /** Candidates of exploration: domain values that overload nothing. */
  ghost function SettledSet(inst: Instance, m: Loads, dom: seq<int>): set<int>
  {
    set w | w in dom && 0 <= w < |inst.table| && Settled(inst, m, w)
  }

  /**
   * The value-changing part of onMailBoxEmpty below the budget, on the map `m` of
   * the view. Reassign(v) means assignNewValue(v) is called, which leaves the value
   * as it is when v is the submitted one.
   */
  function Decide(inst: Instance, m: Loads, dom: seq<int>, submitted: Option<int>, bestVal: int,
                  draw: real, p1: real, added: int -> int): Decision
    requires Ready(inst, dom, submitted)
  {
    var key := DsaRc.BetaKey(inst, m, submitted);
    if key != "" then
      if draw < Beta(m, inst.limit, key) then
        if |CleanCourses(m, inst.limit, true)| >= |inst.table[0]| then
          var valid := WithoutKey(inst, dom, key);
          WithoutKeyMeaning(inst, dom, key);
          Reassign(Scan(valid, SettledFlags(inst, m, valid), added, bestVal, -1))
        else
          var covering := CoveringValues(inst, m, dom);
          Reassign(Scan(covering, AllOk(|covering|), added, bestVal, -1))
      else Keep
    else if draw < p1 then
      Reassign(Scan(dom, SettledFlags(inst, m, dom), added, bestVal, added(submitted.value)))
    else Keep
  }

  /**
   * One draw decides both branches: with an overloaded course the agent moves iff
   * draw < beta, otherwise iff draw < p1. When at least a combination's worth of
   * courses is within the limit, the repair takes the best value that avoids the
   * course and overloads nothing; otherwise the best value holding every course
   * within the limit. Exploration takes the best value that overloads nothing and
   * beats the current value's added cost. A scan that finds nothing hands
   * `bestVal` to assignNewValue.
   */
  lemma DecideMeaning(inst: Instance, m: Loads, dom: seq<int>, submitted: Option<int>, bestVal: int,
                      draw: real, p1: real, added: int -> int)
    requires Ready(inst, dom, submitted)
    ensures var key := DsaRc.BetaKey(inst, m, submitted);
      var d := Decide(inst, m, dom, submitted, bestVal, draw, p1, added);
      (key != "" ==> (d.Reassign? <==> draw < Beta(m, inst.limit, key))) &&
      (key == "" ==> (d.Reassign? <==> draw < p1)) &&
      (key != "" && d.Reassign? && |CleanCourses(m, inst.limit, true)| >= |inst.table[0]| ==>
        Top(AvoidingSet(inst, m, dom, key), added, -1, bestVal, d.value)) &&
      (key != "" && d.Reassign? && |CleanCourses(m, inst.limit, true)| < |inst.table[0]| ==>
        Top(CoveringSet(inst, m, dom), added, -1, bestVal, d.value)) &&
      (key == "" && d.Reassign? ==>
        Top(SettledSet(inst, m, dom), added, added(submitted.value), bestVal, d.value))
  {
    var key := DsaRc.BetaKey(inst, m, submitted);
    if key != "" && draw < Beta(m, inst.limit, key) {
      if |CleanCourses(m, inst.limit, true)| >= |inst.table[0]| {
        AvoidingTop(inst, m, dom, key, added, bestVal);
      } else {
        CoveringTop(inst, m, dom, added, bestVal);
      }
    } else if key == "" && draw < p1 {
      SettledTop(inst, m, dom, added, bestVal, added(submitted.value));
    }
  }

  /** The repair scan over validDomain ends on the top of the avoiding candidates. */
  lemma AvoidingTop(inst: Instance, m: Loads, dom: seq<int>, key: Course, added: int -> int, bestVal: int)
    requires DomainRows(inst, dom)
    ensures var valid := WithoutKey(inst, dom, key);
      DomainRows(inst, valid) &&
      Top(AvoidingSet(inst, m, dom, key), added, -1, bestVal, Scan(valid, SettledFlags(inst, m, valid), added, bestVal, -1))
  {
    var valid := WithoutKey(inst, dom, key);
    WithoutKeyMeaning(inst, dom, key);
    var flags := SettledFlags(inst, m, valid);
    var e := AvoidingSet(inst, m, dom, key);
    forall w
      ensures w in e <==> exists j :: 0 <= j < |valid| && flags[j] && valid[j] == w
    {
      if exists j :: 0 <= j < |valid| && flags[j] && valid[j] == w {
        var j :| 0 <= j < |valid| && flags[j] && valid[j] == w;
        assert valid[j] in valid;
      }
      if w in e {
        assert w in valid;
        var j :| 0 <= j < |valid| && valid[j] == w;
        assert flags[j];
      }
    }
    ScanTop(valid, flags, added, bestVal, -1, e);
  }

  /** The repair scan over noValidDomain ends on the top of the covering candidates. */
  lemma CoveringTop(inst: Instance, m: Loads, dom: seq<int>, added: int -> int, bestVal: int)
    requires DomainRows(inst, dom)
    ensures var covering := CoveringValues(inst, m, dom);
      Top(CoveringSet(inst, m, dom), added, -1, bestVal, Scan(covering, AllOk(|covering|), added, bestVal, -1))
  {
    var covering := CoveringValues(inst, m, dom);
    CoveringValuesMeaning(inst, m, dom);
    var e := CoveringSet(inst, m, dom);
    var ok := AllOk(|covering|);
    forall w
      ensures w in e <==> exists j :: 0 <= j < |covering| && ok[j] && covering[j] == w
    {
      if exists j :: 0 <= j < |covering| && ok[j] && covering[j] == w {
        var j :| 0 <= j < |covering| && ok[j] && covering[j] == w;
        assert covering[j] in covering;
      }
      if w in e {
        assert w in covering;
        var j :| 0 <= j < |covering| && covering[j] == w;
        assert ok[j];
      }
    }
    ScanTop(covering, ok, added, bestVal, -1, e);
  }

  /** The exploration scan over the domain ends on the top of the settled candidates above `cost`. */
  lemma SettledTop(inst: Instance, m: Loads, dom: seq<int>, added: int -> int, bestVal: int, cost: int)
    requires DomainRows(inst, dom)
    ensures Top(SettledSet(inst, m, dom), added, cost, bestVal, Scan(dom, SettledFlags(inst, m, dom), added, bestVal, cost))
  {
    var flags := SettledFlags(inst, m, dom);
    var e := SettledSet(inst, m, dom);
    forall w
      ensures w in e <==> exists j :: 0 <= j < |dom| && flags[j] && dom[j] == w
    {
      if exists j :: 0 <= j < |dom| && flags[j] && dom[j] == w {
        var j :| 0 <= j < |dom| && flags[j] && dom[j] == w;
        assert dom[j] in dom;
      }
      if w in e {
        var j :| 0 <= j < |dom| && dom[j] == w;
        assert flags[j];
      }
    }
    ScanTop(dom, flags, added, bestVal, cost, e);
  }

  /**
   * The scans of a tick: the beta_key lookup is the caller's; then the repair with
   * the regime count (courses at or below the limit against the size of the first
   * combination), validDomain or noValidDomain, or exploration over the whole domain.
   */
  method ChooseValue(inst: Instance, m: Loads, dom: seq<int>, submitted: Option<int>, key: Course,
                     bestVal: int, draw: real, p1: real, added: int -> int) returns (d: Decision)
    requires Ready(inst, dom, submitted) && key == DsaRc.BetaKey(inst, m, submitted)
    ensures d == Decide(inst, m, dom, submitted, bestVal, draw, p1, added)
  {
    if key != "" {
      if draw < Beta(m, inst.limit, key) {
        var clean := CountClean(m, inst.limit, true);
        if clean >= |inst.table[0]| {
          var valid := ValidDomain(inst, dom, key);
          WithoutKeyMeaning(inst, dom, key);
          var v := ScanSettled(inst, m, valid, added, bestVal, -1);
          d := Reassign(v);
        } else {
          var covering := NoValidDomain(inst, m, dom);
          var v, _ := ScanBest(covering, AddedCosts(covering, added), AllOk(|covering|), false, bestVal, -1);
          d := Reassign(v);
        }
      } else {
        d := Keep;
      }
    } else if draw < p1 {
      var v := ScanSettled(inst, m, dom, added, bestVal, added(submitted.value));
      d := Reassign(v);
    } else {
      d := Keep;
    }
  }

  /**
   * With `bestVal` equal to the submitted value, exploration never moves the agent to
   * a value of lower added cost: it keeps its value or moves to a strictly better one
   * that overloads nothing; and a repair that finds no candidate keeps the value.
   */
  lemma SteadyExploration(inst: Instance, m: Loads, dom: seq<int>, submitted: Option<int>,
                          draw: real, p1: real, added: int -> int)
    requires Ready(inst, dom, submitted)
    ensures var key := DsaRc.BetaKey(inst, m, submitted);
      var sub := submitted.value;
      var d := Decide(inst, m, dom, submitted, sub, draw, p1, added);
      (key == "" && d.Reassign? ==>
        d.value == sub ||
        (d.value in dom && 0 <= d.value < |inst.table| && Settled(inst, m, d.value) && added(d.value) > added(sub))) &&
      (key != "" && d.Reassign? && d.value !in dom ==> d.value == sub)
  {
    DecideMeaning(inst, m, dom, submitted, submitted.value, draw, p1, added);
  }

  // ---------------------------------------------------------------------------
  // The incumbents
  // ---------------------------------------------------------------------------

  /**
   * The feasible incumbent after a tick: the view replaces it when no course of the
   * view is over the limit and it is the first such view or costs strictly more.
   * What it holds never has overflow, and its cost never falls.
   */
  function BestStep(inst: Instance, best: Option<Assignment>, cpa: Assignment,
                    calcCost: Assignment -> int): (r: Option<Assignment>)
    requires ValuesInRange(cpa, |inst.table|)
    ensures r != best ==> r == Some(cpa) && TotalExcess(LoadMap(inst.table, cpa), inst.limit) == 0
    ensures best.Some? ==> r.Some? && calcCost(r.value) >= calcCost(best.value)
    ensures (TotalExcess(LoadMap(inst.table, cpa), inst.limit) == 0 &&
             (best.None? || calcCost(cpa) > calcCost(best.value))) ==> r == Some(cpa)
  {
    TotalExcessZeroIff(LoadMap(inst.table, cpa), inst.limit);
    if AllWithin(LoadMap(inst.table, cpa), inst.limit) && (best.None? || calcCost(cpa) > calcCost(best.value)) then
      Some(cpa)
    else best
  }

  /**
   * The fallback after a tick: the view replaces the agent's own fallback when its
   * overflow is at most the shared smallest overflow and it costs strictly more;
   * the shared smallest overflow then becomes the view's. The shared value never
   * rises and the fallback's cost never falls.
   */
  function MinStep(minCpa: Assignment, minExceed: int, cpa: Assignment, extra: int,
                   calcCost: Assignment -> int): (r: (Assignment, int))
    ensures r.1 <= minExceed && calcCost(r.0) >= calcCost(minCpa)
    ensures r != (minCpa, minExceed) ==> r == (cpa, extra) && calcCost(cpa) > calcCost(minCpa)
  {
    if extra <= minExceed && calcCost(cpa) > calcCost(minCpa) then (cpa, extra) else (minCpa, minExceed)
  }

  // ---------------------------------------------------------------------------
  // The agent
  // ---------------------------------------------------------------------------

  /** The integer columns of the line `output` writes: the incumbent's cost and the smallest overflow. */
  datatype Line = Line(cost: int, minExceed: int)

  /** The statics: the smallest overflow seen, the finished count, the written and once-per-run flags, the start time. */
  class Statics {
    var minExceed: int
    var numAgents: int
    var done: bool
    var first: bool
    var startTime: int
    var lines: seq<Line>

    /** Java's defaults for static fields. */
    constructor()
      ensures minExceed == 0 && numAgents == 0 && !done && !first && lines == []
    {
      minExceed := 0;
      numAgents := 0;
      done := false;
      first := false;
      startTime := 0;
      lines := [];
    }

    /** init's shared part, once per run: a fresh count, no line yet, no overflow seen yet. */
    method Init(now: int)
      requires !first
      modifies this
      ensures first && !done && numAgents == 0 && minExceed == IntMax && startTime == now
      ensures lines == old(lines)
    {
      done := false;
      first := true;
      numAgents := 0;
      minExceed := IntMax;
      startTime := now;
    }

    /** output: once every agent is counted and no line is written yet, raise `done` and write one line. */
    method Output(n: int, cost: int)
      modifies this
      ensures numAgents == n && !old(done) ==> done && lines == old(lines) + [Line(cost, minExceed)]
      ensures !(numAgents == n && !old(done)) ==> done == old(done) && lines == old(lines)
      ensures numAgents == old(numAgents) && minExceed == old(minExceed)
      ensures first == old(first) && startTime == old(startTime)
    {
      if numAgents == n && !done {
        done := true;
        lines := lines + [Line(cost, minExceed)];
      }
    }

    /** clear: a zero count, and `first` lowered so that the next run initialises again. */
    method Clear()
      modifies this
      ensures numAgents == 0 && !first
      ensures minExceed == old(minExceed) && done == old(done) && startTime == old(startTime) && lines == old(lines)
    {
      numAgents := 0;
      first := false;
    }
  }

  class Agent {
    const id: int
    const n: int
    const p1: real
    var cpa: Assignment
    var submitted: Option<int>
    var bestCpa: Option<Assignment>
    var minCpa: Assignment
    var bestVal: int
    var outbox: seq<Message>
    var finished: bool
    var finalValue: Option<int>

    /** The agent's own slot holds its submitted value; the view and both incumbents cover all agents. */
    predicate Valid()
      reads this
    {
      0 <= id < n && |cpa| == n && cpa[id] == submitted && |minCpa| == n &&
      (bestCpa.Some? ==> |bestCpa.value| == n)
    }

    /** The agent holds the value its scans start from. */
    predicate Seeded()
      reads this
    {
      submitted == Some(bestVal)
    }

    /** The incumbent, if any, is an assignment with no course over the limit. */
    ghost predicate FeasibleBest(inst: Instance)
      reads this
    {
      bestCpa.Some? ==>
        ValuesInRange(bestCpa.value, |inst.table|) &&
        TotalExcess(LoadMap(inst.table, bestCpa.value), inst.limit) == 0
    }

    constructor(id: int, n: int, p1: real)
      requires 0 <= id < n
      ensures this.id == id && this.n == n && this.p1 == p1
      ensures cpa == Unassigned(n) && submitted == None && bestCpa == None && minCpa == Unassigned(n)
      ensures bestVal == 0 && outbox == [] && !finished && finalValue == None && Valid()
    {
      this.id := id;
      this.n := n;
      this.p1 := p1;
      cpa := Unassigned(n);
      submitted := None;
      bestCpa := None;
      minCpa := Unassigned(n);
      bestVal := 0;
      outbox := [];
      finished := false;
      finalValue := None;
    }

    /**
     * assignNewValue: the submitted value, or -1 when there is none, is compared with
     * `v`; only a different value is recorded, submitted and broadcast.
     */
    method AssignNewValue(v: int)
      requires Valid()
      modifies this
      ensures Valid()
      ensures var current := if old(submitted).Some? then old(submitted).value else -1;
        (v != current ==> (cpa == old(cpa)[id := Some(v)] && submitted == Some(v) &&
          outbox == old(outbox) + [Assign(id, v)])) &&
        (v == current ==> cpa == old(cpa) && submitted == old(submitted) && outbox == old(outbox))
      ensures bestCpa == old(bestCpa) && minCpa == old(minCpa) && bestVal == old(bestVal)
      ensures finished == old(finished) && finalValue == old(finalValue)
    {
      var current := -1;
      if submitted.Some? {
        current := submitted.value;
      }
      if v != current {
        cpa := cpa[id := Some(v)];
        submitted := Some(v);
        outbox := outbox + [Assign(id, v)];
      }
    }

    /**
     * start as written: the first agent of a run initialises the statics and its own
     * `bestVal` to 0; every agent starts from an empty view and an empty fallback
     * and submits its random first value `pick`.
     */
    method Start(s: Statics, pick: int, now: int)
      requires Valid() && submitted == None && 0 <= pick
      modifies this, s
      ensures Valid() && cpa == Unassigned(n)[id := Some(pick)] && submitted == Some(pick)
      ensures minCpa == Unassigned(n) && outbox == old(outbox) + [Assign(id, pick)]
      ensures bestVal == (if old(s.first) then old(bestVal) else 0)
      ensures bestCpa == old(bestCpa) && finished == old(finished) && finalValue == old(finalValue)
      ensures !old(s.first) ==> s.first && !s.done && s.numAgents == 0 && s.minExceed == IntMax && s.startTime == now
      ensures old(s.first) ==> (s.first && s.done == old(s.done) && s.numAgents == old(s.numAgents) &&
        s.minExceed == old(s.minExceed) && s.startTime == old(s.startTime))
      ensures s.lines == old(s.lines)
    {
      if !s.first {
        s.Init(now);
        bestVal := 0;
      }
      cpa := Unassigned(n);
      minCpa := Unassigned(n);
      AssignNewValue(pick);
    }

    /**
     * start with `bestVal` seeded from the first value: the scans then start from the
     * value the agent holds, so a scan that finds nothing leaves it in place.
     */
    method StartSeeded(s: Statics, pick: int, now: int)
      requires Valid() && submitted == None && 0 <= pick
      modifies this, s
      ensures Valid() && Seeded() && cpa == Unassigned(n)[id := Some(pick)] && submitted == Some(pick)
      ensures minCpa == Unassigned(n) && outbox == old(outbox) + [Assign(id, pick)]
      ensures bestCpa == old(bestCpa) && finished == old(finished) && finalValue == old(finalValue)
      ensures !old(s.first) ==> s.first && !s.done && s.numAgents == 0 && s.minExceed == IntMax && s.startTime == now
      ensures old(s.first) ==> (s.first && s.done == old(s.done) && s.numAgents == old(s.numAgents) &&
        s.minExceed == old(s.minExceed) && s.startTime == old(s.startTime))
      ensures s.lines == old(s.lines)
    {
      if !s.first {
        s.Init(now);
      }
      cpa := Unassigned(n);
      minCpa := Unassigned(n);
      AssignNewValue(pick);
      bestVal := pick;
    }

    /** handleAssignment: another agent's broadcast value. */
    method HandleAssignment(i: int, v: int)
      requires Valid() && 0 <= i < n && i != id
      modifies this
      ensures Valid() && cpa == old(cpa)[i := Some(v)]
      ensures submitted == old(submitted) && outbox == old(outbox) && bestVal == old(bestVal)
      ensures bestCpa == old(bestCpa) && minCpa == old(minCpa)
      ensures finished == old(finished) && finalValue == old(finalValue)
    {
      cpa := cpa[i := Some(v)];
    }

    /**
     * The incumbent updates of a tick, on the view's map `m` and the beta_key `key`
     * of the submitted value: the feasible incumbent only when the value overloads
     * nothing and checkAllAssignments holds, then the fallback.
     */
    method Track(s: Statics, inst: Instance, m: Loads, key: Course, calcCost: Assignment -> int)
      requires Valid() && ValuesInRange(cpa, |inst.table|)
      requires m == LoadMap(inst.table, cpa) && key == DsaRc.BetaKey(inst, m, submitted)
      modifies this, s
      ensures cpa == old(cpa) && submitted == old(submitted) && outbox == old(outbox) && bestVal == old(bestVal)
      ensures Valid() && bestCpa == BestStep(inst, old(bestCpa), cpa, calcCost)
      ensures (minCpa, s.minExceed) == MinStep(old(minCpa), old(s.minExceed), cpa, TotalExcess(m, inst.limit), calcCost)
      ensures finished == old(finished) && finalValue == old(finalValue)
      ensures s.numAgents == old(s.numAgents) && s.done == old(s.done) && s.first == old(s.first)
      ensures s.startTime == old(s.startTime) && s.lines == old(s.lines)
    {
      if key == "" {
        var ok := CheckAllAssignments(m, inst.limit);
        if ok && (bestCpa.None? || calcCost(cpa) > calcCost(bestCpa.value)) {
          bestCpa := Some(cpa);
        }
      } else {
        assert m[key] > inst.limit;
      }
      var extra := CalculateExtraCourses(m, inst.limit);
      if extra <= s.minExceed && calcCost(cpa) > calcCost(minCpa) {
        minCpa := cpa;
        s.minExceed := extra;
      }
    }

    /**
     * onMailBoxEmpty below the tick budget: the map of the view, the incumbent and
     * fallback updates, then the single-draw decision of `Decide`; a decision hands
     * its value to assignNewValue and stores it in `bestVal`. `added` is
     * calcAddedCost of this agent on the view and `calcCost` the framework's cost.
     */
    method Tick(s: Statics, inst: Instance, dom: seq<int>, draw: real,
                added: int -> int, calcCost: Assignment -> int)
      requires Valid() && !finished && ValuesInRange(cpa, |inst.table|) && Ready(inst, dom, submitted)
      modifies this, s
      ensures Valid() && !finished && finalValue == old(finalValue)
      ensures bestCpa == BestStep(inst, old(bestCpa), old(cpa), calcCost)
      ensures (minCpa, s.minExceed) ==
        MinStep(old(minCpa), old(s.minExceed), old(cpa), TotalExcess(LoadMap(inst.table, old(cpa)), inst.limit), calcCost)
      ensures s.numAgents == old(s.numAgents) && s.done == old(s.done) && s.first == old(s.first)
      ensures s.startTime == old(s.startTime) && s.lines == old(s.lines)
      ensures match Decide(inst, LoadMap(inst.table, old(cpa)), dom, old(submitted), old(bestVal), draw, p1, added)
        case Keep => bestVal == old(bestVal) && cpa == old(cpa) && submitted == old(submitted) && outbox == old(outbox)
        case Reassign(v) => (bestVal == v && Seeded() &&
          (v == old(submitted).value ==> cpa == old(cpa) && submitted == old(submitted) && outbox == old(outbox)) &&
          (v != old(submitted).value ==>
            cpa == old(cpa)[id := Some(v)] && submitted == Some(v) && outbox == old(outbox) + [Assign(id, v)]))
      ensures old(Seeded()) ==> Seeded()
      ensures old(FeasibleBest(inst)) ==> FeasibleBest(inst)
    {
      var m := MapAssignments(inst.table, cpa);
      var key := CheckSelfAssignment(inst, submitted.value, m);
      assert key == DsaRc.BetaKey(inst, m, submitted);
      Track(s, inst, m, key, calcCost);
      var d := ChooseValue(inst, m, dom, submitted, key, bestVal, draw, p1, added);
      if d.Reassign? {
        bestVal := d.value;
        AssignNewValue(bestVal);
      }
    }

    /**
     * onMailBoxEmpty at the tick budget: an agent without an incumbent falls back on
     * its fallback, is counted and finishes with its incumbent's value; the agent that
     * completes the count writes the line (its incumbent's cost and the smallest
     * overflow) and clears the count.
     */
    method Finish(s: Statics, calcCost: Assignment -> int)
      requires Valid() && !finished
      modifies this, s
      ensures Valid() && finished
      ensures bestCpa == Some(if old(bestCpa).Some? then old(bestCpa).value else old(minCpa))
      ensures finalValue == bestCpa.value[id]
      ensures cpa == old(cpa) && submitted == old(submitted) && outbox == old(outbox)
      ensures minCpa == old(minCpa) && bestVal == old(bestVal)
      ensures s.minExceed == old(s.minExceed) && s.startTime == old(s.startTime)
      ensures old(s.numAgents) + 1 == n && !old(s.done) ==>
        s.done && s.lines == old(s.lines) + [Line(calcCost(bestCpa.value), s.minExceed)] &&
        s.numAgents == 0 && !s.first
      ensures !(old(s.numAgents) + 1 == n && !old(s.done)) ==>
        s.numAgents == old(s.numAgents) + 1 && s.done == old(s.done) && s.first == old(s.first) &&
        s.lines == old(s.lines)
    {
      if bestCpa.None? {
        bestCpa := Some(minCpa);
      }
      s.numAgents := s.numAgents + 1;
      finished := true;
      finalValue := bestCpa.value[id];
      if s.numAgents == n && !s.done {
        s.Output(n, calcCost(bestCpa.value));
        s.Clear();
      }
    }
  }

  /**
   * start sets `bestVal` to 0 rather than to the first value, so the first
   * exploration that finds nothing better moves the agent to value 0. One agent,
   * table [["a"], ["b"]], limit 1: the agent starts on value 1 of added cost 5,
   * value 0 has added cost 0; no course is over the limit, the draw passes p1, and
   * the decision moves the agent to the cheaper value 0.
   */
  lemma StaleExploration(inst: Instance, added: int -> int, draw: real, p1: real)
    requires inst.table == [["a"], ["b"]] && inst.limit == 1
    requires added(0) == 0 && added(1) == 5 && draw < p1
    ensures var m := LoadMap(inst.table, [Some(1)]);
      var d := Decide(inst, m, [0, 1], Some(1), 0, draw, p1, added);
      d == Reassign(0) && added(d.value) < added(1)
  {
    var m := LoadMap(inst.table, [Some(1)]);
    assert [Some(1)][..0] == [];
    assert LoadMap(inst.table, []) == map[];
    assert AddCourses(map[], ["b"]) == map["b" := 1] by {
      assert ["b"][..0] == [];
    }
    assert m == map["b" := 1];
    SelfKeyMeaning(m, inst.limit, inst.table[1]);
    assert DsaRc.BetaKey(inst, m, Some(1)) == "";
    DecideMeaning(inst, m, [0, 1], Some(1), 0, draw, p1, added);
    var e := SettledSet(inst, m, [0, 1]);
    assert forall w :: w in e ==> w == 0 || w == 1;
  }
}
