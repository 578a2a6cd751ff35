/**
 * DSA_RC: stochastic local search with repair. Each tick an agent rebuilds the
 * enrolment map from its view of the assignment, updates the shared anytime
 * incumbent, and then, with one random draw, either leaves an overloaded course
 * (probability beta) or, when none of its courses is overloaded, moves to its
 * best response (probability alpha).
 */
module DsaRc {
  import opened Common
  import opened BuilderLoads
  import opened BuilderCost
  import opened BuilderSearch
  import opened BuilderReport
  import opened Strategies

  /** What a tick needs so that none of the builder's lookups fails. */
  predicate Ready(inst: Instance, id: int, dom: seq<int>, cpa: Assignment)
  {
    ValuesInRange(cpa, |inst.table|) && Scorable(inst, id, dom) && |inst.table| > 0
  }

  /**
   * The course the agent's submitted value overloads most (beta_key); "" when the
   * value has none, and also when the lookup throws (no value, or -1).
   */
  function BetaKey(inst: Instance, m: Loads, submitted: Option<int>): (key: Course)
    ensures key != "" ==>
      submitted.Some? && 0 <= submitted.value < |inst.table| &&
      key in inst.table[submitted.value] && Hot(m, inst.limit, key)
  {
    if submitted.Some? && 0 <= submitted.value < |inst.table| then
      SelfKeyHot(m, inst.limit, inst.table[submitted.value]);
      SelfKey(m, inst.limit, inst.table[submitted.value])
    else ""
  }

  /** The value-changing part of onMailBoxEmpty for a tick below the budget. */
  function Decide(inst: Instance, id: int, dom: seq<int>, cpa: Assignment, submitted: Option<int>,
                  draw: real, alpha: real): Decision
    requires Ready(inst, id, dom, cpa)
  {
    var m := LoadMap(inst.table, cpa);
    var key := BetaKey(inst, m, submitted);
    OwnValueCounted(inst, cpa, id);
    ScorableRows(inst, id, dom);
    if key != "" then
      if draw < Beta(m, inst.limit, key) then
        if |CleanCourses(m, inst.limit, false)| >= |inst.table[0]| then
          var valid := WithoutKey(inst, dom, key);
          WithoutKeyMeaning(inst, dom, key);
          ScorableSub(inst, id, dom, valid);
          Reassign(FindMaxAsWritten(inst, cpa, id, valid, m).0)
        else
          var covering := CoveringValues(inst, m, dom);
          CoveringValuesMeaning(inst, m, dom);
          ScorableSub(inst, id, dom, covering);
          Reassign(ArgMax(covering, Costs(inst, cpa, id, covering), AllOk(|covering|), false, 0, -1).0)
      else Keep
    else if draw < alpha then Reassign(FindMaxAsWritten(inst, cpa, id, dom, m).0)
    else Keep
  }

  /**
   * One draw decides both branches: with an overloaded course the value changes iff
   * draw < beta, otherwise iff draw < alpha. A repair either avoids the overloaded
   * course (when enough courses are strictly below the limit) or lands on a value
   * holding every course within the limit, with 0 as the default; exploration stays
   * in the domain (or -1 for an empty one).
   */
  lemma DecideMeaning(inst: Instance, id: int, dom: seq<int>, cpa: Assignment, submitted: Option<int>,
                      draw: real, alpha: real)
    requires Ready(inst, id, dom, cpa)
    ensures var m := LoadMap(inst.table, cpa);
      var key := BetaKey(inst, m, submitted);
      var d := Decide(inst, id, dom, cpa, submitted, draw, alpha);
      (key != "" ==> (d.Reassign? <==> draw < Beta(m, inst.limit, key))) &&
      (key == "" ==> (d.Reassign? <==> draw < alpha)) &&
      (key != "" && d.Reassign? && |CleanCourses(m, inst.limit, false)| >= |inst.table[0]| ==>
        d.value == -1 || (d.value in dom && key !in inst.table[d.value])) &&
      (key != "" && d.Reassign? && |CleanCourses(m, inst.limit, false)| < |inst.table[0]| ==>
        d.value == 0 || (d.value in dom && Covers(inst, m, d.value))) &&
      (key == "" && d.Reassign? ==> d.value == -1 || d.value in dom)
  {
    var m := LoadMap(inst.table, cpa);
    var key := BetaKey(inst, m, submitted);
    var d := Decide(inst, id, dom, cpa, submitted, draw, alpha);
    OwnValueCounted(inst, cpa, id);
    ScorableRows(inst, id, dom);
    if key != "" && draw < Beta(m, inst.limit, key) {
      if |CleanCourses(m, inst.limit, false)| >= |inst.table[0]| {
        var valid := WithoutKey(inst, dom, key);
        WithoutKeyMeaning(inst, dom, key);
        ScorableSub(inst, id, dom, valid);
        assert d == Reassign(FindMaxAsWritten(inst, cpa, id, valid, m).0);
        var v := FindMaxAsWritten(inst, cpa, id, valid, m).0;
        assert v == -1 || (v in dom && key !in inst.table[v]) by {
          FindMaxAsWrittenInDomain(inst, cpa, id, valid, m);
        }
      } else {
        var covering := CoveringValues(inst, m, dom);
        CoveringValuesMeaning(inst, m, dom);
        ScorableSub(inst, id, dom, covering);
        var costs := Costs(inst, cpa, id, covering);
        assert d == Reassign(ArgMax(covering, costs, AllOk(|covering|), false, 0, -1).0);
        var v := ArgMax(covering, costs, AllOk(|covering|), false, 0, -1).0;
        assert v == 0 || (v in dom && Covers(inst, m, v)) by {
          StrictFallback(covering, costs);
        }
      }
    } else if key == "" && draw < alpha {
      assert d == Reassign(FindMaxAsWritten(inst, cpa, id, dom, m).0);
      var v := FindMaxAsWritten(inst, cpa, id, dom, m).0;
      assert v == -1 || v in dom by {
        FindMaxAsWrittenInDomain(inst, cpa, id, dom, m);
      }
    }
  }

  /**
   * The value a tick below the budget chooses: the beta_key lookup, the regime test
   * (courses strictly below the limit against the size of a combination), then
   * validDomain with find_max_value, or noValidDomain with a strict scan from (0, -1);
   * or, with no overloaded course, find_max_value over the whole domain.
   */
  method ChooseValue(inst: Instance, id: int, dom: seq<int>, cpa: Assignment, submitted: Option<int>,
                     draw: real, alpha: real) returns (d: Decision)
    requires Ready(inst, id, dom, cpa)
    ensures d == Decide(inst, id, dom, cpa, submitted, draw, alpha)
  {
    var m := MapAssignments(inst.table, cpa);
    var key: Course := "";
    if submitted.Some? && 0 <= submitted.value < |inst.table| {
      key := CheckSelfAssignment(inst, submitted.value, m);
    }
    assert key == BetaKey(inst, m, submitted);
    OwnValueCounted(inst, cpa, id);
    ScorableRows(inst, id, dom);
    if key != "" {
      if draw < Beta(m, inst.limit, key) {
        var clean := CountClean(m, inst.limit, false);
        if clean >= |inst.table[0]| {
          var valid := ValidDomain(inst, dom, key);
          WithoutKeyMeaning(inst, dom, key);
          ScorableSub(inst, id, dom, valid);
          var loads := new CourseLoads(m);
          var v := FindMaxValueAsWritten(loads, inst, valid, cpa, id);
          d := Reassign(v);
        } else {
          var covering := NoValidDomain(inst, m, dom);
          CoveringValuesMeaning(inst, m, dom);
          ScorableSub(inst, id, dom, covering);
          var v, _ := ScanBest(covering, Costs(inst, cpa, id, covering), AllOk(|covering|), false, 0, -1);
          d := Reassign(v);
        }
      } else {
        d := Keep;
      }
    } else if draw < alpha {
      var loads := new CourseLoads(m);
      var v := FindMaxValueAsWritten(loads, inst, dom, cpa, id);
      d := Reassign(v);
    } else {
      d := Keep;
    }
  }

  /** The statics of DSA_RC: the incumbent shared by all agents, and the builder while it exists. */
  class Shared {
    var bestCpa: Option<Assignment>
    const builder: Aggregator
    var live: bool

    constructor(b: Aggregator)
      ensures builder == b && bestCpa == None && !live
    {
      builder := b;
      bestCpa := None;
      live := false;
    }

    /** The anytime update: keep `cpa` when it has fewer excess enrolments, or as many and a higher cost. */
    method Offer(cpa: Assignment, inst: Instance, calcCost: Assignment -> int)
      requires ValuesInRange(cpa, |inst.table|)
      modifies this, builder
      ensures (bestCpa, builder.extraCourses) ==
        Anytime(old(bestCpa), old(builder.extraCourses), cpa, TotalExcess(LoadMap(inst.table, cpa), inst.limit), calcCost)
      ensures live == old(live) && builder.numAgents == old(builder.numAgents)
      ensures builder.done == old(builder.done) && builder.reports == old(builder.reports)
    {
      var m := MapAssignments(inst.table, cpa);
      var extra := CalculateExtraCourses(m, inst.limit);
      if bestCpa.None? || extra < builder.extraCourses ||
         (extra == builder.extraCourses && calcCost(cpa) > calcCost(bestCpa.value)) {
        bestCpa := Some(cpa);
        builder.SetExtraCourses(extra);
      }
    }
  }

  class Agent {
    const id: int
    const n: int
    const it: int
    const alpha: real
    var cpa: Assignment
    var submitted: Option<int>
    var outbox: seq<Message>
    var finished: bool
    var finalValue: Option<int>

    /** The agent's own slot of its view always holds the value it submitted. */
    predicate Valid()
      reads this
    {
      0 <= id < n && |cpa| == n && cpa[id] == submitted
    }

    constructor(id: int, n: int, it: int, alpha: real)
      requires 0 <= id < n
      ensures this.id == id && this.n == n && this.it == it && this.alpha == alpha
      ensures cpa == Unassigned(n) && submitted == None && outbox == [] && !finished
      ensures Valid()
    {
      this.id := id;
      this.n := n;
      this.it := it;
      this.alpha := alpha;
      cpa := Unassigned(n);
      submitted := None;
      outbox := [];
      finished := false;
      finalValue := None;
    }

    /** assignNewValue: record the value locally, submit it and broadcast it. */
    method AssignNewValue(v: int)
      requires Valid()
      modifies this
      ensures Valid()
      ensures cpa == old(cpa)[id := Some(v)] && submitted == Some(v)
      ensures outbox == old(outbox) + [Assign(id, v)]
      ensures finished == old(finished) && finalValue == old(finalValue)
    {
      cpa := cpa[id := Some(v)];
      submitted := Some(v);
      outbox := outbox + [Assign(id, v)];
    }

    /** start: the first agent creates the builder; every agent starts from an empty view and takes a random first value. */
    method Start(s: Shared, pick: int)
      requires 0 <= id < n
      modifies this, s, s.builder
      ensures Valid() && s.live
      ensures cpa == Unassigned(n)[id := Some(pick)] && submitted == Some(pick)
      ensures outbox == old(outbox) + [Assign(id, pick)]
      ensures s.bestCpa == old(s.bestCpa)
      ensures !old(s.live) ==> s.builder.numAgents == 0 && s.builder.extraCourses == IntMax && !s.builder.done
      ensures old(s.live) ==> (s.builder.numAgents == old(s.builder.numAgents) &&
        s.builder.extraCourses == old(s.builder.extraCourses) && s.builder.done == old(s.builder.done))
      ensures s.builder.reports == old(s.builder.reports)
    {
      if !s.live {
        s.builder.Rebuild();
        s.live := true;
      }
      cpa := Unassigned(n);
      submitted := None;
      AssignNewValue(pick);
    }

    /** handleAssignment: another agent's broadcast value. */
    method HandleAssignment(i: int, v: int)
      requires Valid() && 0 <= i < n && i != id
      modifies this
      ensures Valid() && cpa == old(cpa)[i := Some(v)]
      ensures submitted == old(submitted) && outbox == old(outbox)
      ensures finished == old(finished) && finalValue == old(finalValue)
    {
      cpa := cpa[i := Some(v)];
    }

    /**
     * onMailBoxEmpty at the tick budget: the agent finishes with its submitted value;
     * the last one to finish has the builder write the incumbent and drops the builder.
     */
    method Finish(s: Shared, inst: Instance)
      requires Valid() && s.live && !finished
      requires s.builder.numAgents + 1 == n && !s.builder.done ==>
        s.bestCpa.Some? && ReportReady(inst, s.bestCpa.value)
      modifies this, s, s.builder
      ensures Valid() && finished && finalValue == old(submitted)
      ensures cpa == old(cpa) && submitted == old(submitted) && outbox == old(outbox)
      ensures s.bestCpa == old(s.bestCpa)
      ensures old(s.builder.numAgents) + 1 == n ==> (!s.live &&
        (!old(s.builder.done) ==>
          s.builder.numAgents == 0 && s.builder.extraCourses == 0 &&
          s.builder.reports == old(s.builder.reports) + [MakeReport(inst, old(s.bestCpa).value, old(s.builder.extraCourses))]))
      ensures old(s.builder.numAgents) + 1 != n ==> (s.live &&
        s.builder.numAgents == old(s.builder.numAgents) + 1 && s.builder.reports == old(s.builder.reports))
    {
      s.builder.Update();
      finished := true;
      finalValue := submitted;
      if s.builder.numAgents == n {
        // once the builder has written, output ignores its argument
        var best := if s.bestCpa.Some? then s.bestCpa.value else [];
        var _ := s.builder.Output(inst, best, n);
        s.live := false;
      }
    }

    /**
     * onMailBoxEmpty below the tick budget: the anytime update from the agent's view,
     * then the single-draw decision of `Decide`.
     */
    method Tick(s: Shared, inst: Instance, dom: seq<int>, draw: real, calcCost: Assignment -> int)
      requires Valid() && s.live && !finished && Ready(inst, id, dom, cpa)
      modifies this, s, s.builder
      ensures Valid() && s.live && !finished
      ensures (s.bestCpa, s.builder.extraCourses) ==
        Anytime(old(s.bestCpa), old(s.builder.extraCourses), old(cpa),
                TotalExcess(LoadMap(inst.table, old(cpa)), inst.limit), calcCost)
      ensures s.builder.numAgents == old(s.builder.numAgents) && s.builder.done == old(s.builder.done)
      ensures s.builder.reports == old(s.builder.reports)
      ensures match Decide(inst, id, dom, old(cpa), old(submitted), draw, alpha)
        case Keep => cpa == old(cpa) && submitted == old(submitted) && outbox == old(outbox)
        case Reassign(v) => (cpa == old(cpa)[id := Some(v)] && submitted == Some(v) &&
          outbox == old(outbox) + [Assign(id, v)])
    {
      s.Offer(cpa, inst, calcCost);
      var d := ChooseValue(inst, id, dom, cpa, submitted, draw, alpha);
      if d.Reassign? {
        AssignNewValue(d.value);
      }
    }
  }
}
