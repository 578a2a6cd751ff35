/**
 * DSA: plain stochastic local search. Each tick an agent rebuilds the enrolment map
 * from its view, updates its own incumbent against the builder's shared best
 * overflow, and with probability p moves to the builder's best response over its
 * whole domain. When the tick budget is spent, the last agent to finish has the
 * builder write its incumbent.
 */
module Dsa {
  import opened Common
  import opened BuilderLoads
  import opened BuilderSearch
  import opened BuilderReport
  import opened Strategies
  import opened DsaRc
  import opened DsaRcUnary

  /** The value-changing part of a tick below the budget: one draw against p. */
  function DsaDecide(inst: Instance, id: int, dom: seq<int>, cpa: Assignment, draw: real, p: real): Decision
    requires Ready(inst, id, dom, cpa)
  {
    OwnValueCounted(inst, cpa, id);
    if draw < p then Reassign(FindMaxAsWritten(inst, cpa, id, dom, LoadMap(inst.table, cpa)).0) else Keep
  }

  /**
   * The value changes iff the draw is below p, and a new value comes from the
   * domain (or is -1, find_max_value's answer for an empty domain). Under the
   * bounds that keep every excess below Integer.MAX_VALUE, a non-empty domain
   * always yields one of its own values.
   */
  lemma DsaDecideMeaning(inst: Instance, id: int, dom: seq<int>, cpa: Assignment, draw: real, p: real,
                         width: nat)
    requires Ready(inst, id, dom, cpa)
    ensures var d := DsaDecide(inst, id, dom, cpa, draw, p);
      (d.Reassign? <==> draw < p) &&
      (d.Reassign? ==> d.value == -1 || d.value in dom) &&
      ((d.Reassign? && dom != [] && Narrow(inst, width) && inst.limit >= 0 &&
        width * width * |cpa| < IntMax) ==> d.value in dom)
  {
    var m := LoadMap(inst.table, cpa);
    OwnValueCounted(inst, cpa, id);
    if draw < p {
      FindMaxAsWrittenInDomain(inst, cpa, id, dom, m);
      if dom != [] && Narrow(inst, width) && inst.limit >= 0 && width * width * |cpa| < IntMax {
        SearchLandsAsWritten(inst, cpa, id, dom, width);
      }
    }
  }

  /** A DSA agent; its statics (the builder and the two utility arrays) have the same shape as DSA_RCUnary's. */
  class DsaAgent {
    const id: int
    const n: int
    const it: int
    const p: real
    var cpa: Assignment
    var submitted: Option<int>
    var bestCpa: Option<Assignment>
    var outbox: seq<Message>
    var finished: bool
    var finalValue: Option<int>

    /** The agent's own slot of its view always holds the value it submitted. */
    predicate Valid()
      reads this
    {
      0 <= id < n && |cpa| == n && cpa[id] == submitted
    }

    constructor(id: int, n: int, it: int, p: real)
      requires 0 <= id < n
      ensures this.id == id && this.n == n && this.it == it && this.p == p
      ensures cpa == Unassigned(n) && submitted == None && bestCpa == None
      ensures outbox == [] && !finished && Valid()
    {
      this.id := id;
      this.n := n;
      this.it := it;
      this.p := p;
      cpa := Unassigned(n);
      submitted := None;
      bestCpa := None;
      outbox := [];
      finished := false;
      finalValue := None;
    }

    /** assignNewValue: record the value locally, submit it and broadcast it. */
    method AssignNewValue(v: int)
      requires Valid()
      modifies this
      ensures Valid()
      ensures cpa == old(cpa)[id := Some(v)] && submitted == Some(v)
      ensures outbox == old(outbox) + [Assign(id, v)]
      ensures bestCpa == old(bestCpa) && finished == old(finished) && finalValue == old(finalValue)
    {
      cpa := cpa[id := Some(v)];
      submitted := Some(v);
      outbox := outbox + [Assign(id, v)];
    }

    /**
     * start: the first agent creates the builder and the arrays; every agent starts
     * from an empty view and takes a random first value.
     */
    method Start(s: UnaryShared, pick: int)
      requires 0 <= id < n
      modifies this, s, s.builder
      ensures Valid() && s.live
      ensures cpa == Unassigned(n)[id := Some(pick)] && submitted == Some(pick)
      ensures outbox == old(outbox) + [Assign(id, pick)] && bestCpa == old(bestCpa)
      ensures !old(s.live) ==> (s.arraysLive &&
        s.builder.numAgents == 0 && s.builder.extraCourses == IntMax && !s.builder.done)
      ensures old(s.live) ==> (s.builder.numAgents == old(s.builder.numAgents) &&
        s.builder.extraCourses == old(s.builder.extraCourses) && s.builder.done == old(s.builder.done) &&
        s.arraysLive == old(s.arraysLive))
      ensures s.builder.reports == old(s.builder.reports)
    {
      if !s.live {
        s.builder.Rebuild();
        s.live := true;
        s.arraysLive := true;
      }
      cpa := Unassigned(n);
      submitted := None;
      AssignNewValue(pick);
    }

    /** handleAssignment: another agent's broadcast value. */
    method HandleAssignment(i: int, v: int)
      requires Valid() && 0 <= i < n && i != id
      modifies this
      ensures Valid() && cpa == old(cpa)[i := Some(v)]
      ensures submitted == old(submitted) && outbox == old(outbox) && bestCpa == old(bestCpa)
      ensures finished == old(finished) && finalValue == old(finalValue)
    {
      cpa := cpa[i := Some(v)];
    }

    /**
     * onMailBoxEmpty at the tick budget: the agent finishes with its submitted value
     * and is counted; the last one has the builder write its own incumbent, then
     * drops the builder and the arrays.
     */
    method Finish(s: UnaryShared, inst: Instance)
      requires Valid() && s.live && !finished
      requires s.builder.numAgents + 1 == n && !s.builder.done ==> bestCpa.Some? && ReportReady(inst, bestCpa.value)
      modifies this, s, s.builder
      ensures Valid() && finished && finalValue == old(submitted)
      ensures cpa == old(cpa) && submitted == old(submitted) && outbox == old(outbox) && bestCpa == old(bestCpa)
      ensures old(s.builder.numAgents) + 1 == n ==> (!s.live && !s.arraysLive &&
        (!old(s.builder.done) ==>
          s.builder.numAgents == 0 &&
          s.builder.reports == old(s.builder.reports) + [MakeReport(inst, bestCpa.value, old(s.builder.extraCourses))]))
      ensures old(s.builder.numAgents) + 1 != n ==> (s.live && s.arraysLive == old(s.arraysLive) &&
        s.builder.numAgents == old(s.builder.numAgents) + 1 && s.builder.reports == old(s.builder.reports))
    {
      finished := true;
      finalValue := submitted;
      s.builder.Update();
      if s.builder.numAgents == n {
        // once the builder has written, output ignores its argument
        var best := if bestCpa.Some? then bestCpa.value else [];
        var _ := s.builder.Output(inst, best, n);
        s.live := false;
        s.arraysLive := false;
      }
    }

    /**
     * onMailBoxEmpty below the tick budget: the agent's own incumbent follows the
     * anytime rule against the shared best overflow, then `DsaDecide` applies.
     */
    method Tick(s: UnaryShared, inst: Instance, dom: seq<int>, draw: real, calcCost: Assignment -> int)
      requires Valid() && s.live && !finished && Ready(inst, id, dom, cpa)
      modifies this, s.builder
      ensures Valid() && !finished
      ensures (bestCpa, s.builder.extraCourses) ==
        Anytime(old(bestCpa), old(s.builder.extraCourses), old(cpa),
                TotalExcess(LoadMap(inst.table, old(cpa)), inst.limit), calcCost)
      ensures s.builder.numAgents == old(s.builder.numAgents) && s.builder.done == old(s.builder.done)
      ensures s.builder.reports == old(s.builder.reports)
      ensures match DsaDecide(inst, id, dom, old(cpa), draw, p)
        case Keep => cpa == old(cpa) && submitted == old(submitted) && outbox == old(outbox)
        case Reassign(v) => (cpa == old(cpa)[id := Some(v)] && submitted == Some(v) &&
          outbox == old(outbox) + [Assign(id, v)])
    {
      var m := MapAssignments(inst.table, cpa);
      var extra := CalculateExtraCourses(m, inst.limit);
      if bestCpa.None? || extra < s.builder.extraCourses ||
         (extra == s.builder.extraCourses && calcCost(cpa) > calcCost(bestCpa.value)) {
        bestCpa := Some(cpa);
        s.builder.SetExtraCourses(extra);
      }
      if draw < p {
        OwnValueCounted(inst, cpa, id);
        var loads := new CourseLoads(m);
        var v := FindMaxValueAsWritten(loads, inst, dom, cpa, id);
        AssignNewValue(v);
      }
    }
  }
}
