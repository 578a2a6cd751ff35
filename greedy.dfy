/**
 * Greedy: every agent takes, once and without looking at its peers, the domain value
 * of highest unary cost; the last agent to finish sets the overflow from its view
 * and has the builder write the line.
 */
module Greedy {
  import opened Common
  import opened BuilderLoads
  import opened BuilderReport
  import opened Strategies

  /** The value find_max_value settles on: a `>` scan of the domain from value 0 at cost -1. */
  function Choice(dom: seq<int>, unary: int -> int): int
  {
    ArgMax(dom, AddedCosts(dom, unary), AllOk(|dom|), false, 0, -1).0
  }

  /**
   * The choice is 0 when the domain is empty or no cost exceeds -1, and otherwise
   * the first value of highest unary cost. It reads nothing but the agent's own
   * unary costs.
   */
  lemma ChoiceMeaning(dom: seq<int>, unary: int -> int)
    ensures var v := Choice(dom, unary);
      ((forall j :: 0 <= j < |dom| ==> unary(dom[j]) <= -1) && v == 0) ||
      (exists i :: 0 <= i < |dom| && v == dom[i] && unary(dom[i]) > -1 &&
        (forall j :: 0 <= j < |dom| ==> unary(dom[j]) <= unary(dom[i])) &&
        (forall j :: 0 <= j < i ==> unary(dom[j]) < unary(dom[i])))
  {
    StrictFallback(dom, AddedCosts(dom, unary));
  }

  /** find_max_value: drains the domain, keeping each value whose unary cost beats the best so far. */
  method FindMaxValue(dom: seq<int>, unary: int -> int) returns (v: int)
    ensures v == Choice(dom, unary)
  {
    var cost;
    v, cost := ScanBest(dom, AddedCosts(dom, unary), AllOk(|dom|), false, 0, -1);
  }

  /** The statics of Greedy: the builder while it exists. */
  class Statics {
    const builder: Aggregator
    var live: bool

    constructor(b: Aggregator)
      ensures builder == b && !live
    {
      builder := b;
      live := false;
    }
  }

  class Agent {
    const id: int
    const n: int
    var cpa: Assignment
    var submitted: Option<int>
    var outbox: seq<Message>
    var finished: bool
    var finalValue: Option<int>

    /** The agent's own slot of its view always holds the value it submitted. */
    predicate Valid()
      reads this
    {
      0 <= id < n && |cpa| == n && cpa[id] == submitted
    }

    constructor(id: int, n: int)
      requires 0 <= id < n
      ensures this.id == id && this.n == n && cpa == Unassigned(n) && submitted == None
      ensures outbox == [] && !finished && finalValue == None && Valid()
    {
      this.id := id;
      this.n := n;
      cpa := Unassigned(n);
      submitted := None;
      outbox := [];
      finished := false;
      finalValue := None;
    }

    /** assignNewValue: record the value locally, submit it and broadcast it. */
    method AssignNewValue(v: int)
      requires Valid()
      modifies this
      ensures Valid() && cpa == old(cpa)[id := Some(v)] && submitted == Some(v)
      ensures outbox == old(outbox) + [Assign(id, v)]
      ensures finished == old(finished) && finalValue == old(finalValue)
    {
      cpa := cpa[id := Some(v)];
      submitted := Some(v);
      outbox := outbox + [Assign(id, v)];
    }

    /**
     * start: the first agent creates the builder; every agent starts from an empty
     * view and takes `find_max_value`'s answer at once.
     */
    method Start(s: Statics, dom: seq<int>, unary: int -> int)
      requires 0 <= id < n
      modifies this, s, s.builder
      ensures Valid() && s.live && finished == old(finished)
      ensures cpa == Unassigned(n)[id := Some(Choice(dom, unary))] && submitted == Some(Choice(dom, unary))
      ensures outbox == old(outbox) + [Assign(id, Choice(dom, unary))]
      ensures !old(s.live) ==> s.builder.numAgents == 0 && s.builder.extraCourses == IntMax && !s.builder.done
      ensures old(s.live) ==> (s.builder.numAgents == old(s.builder.numAgents) &&
        s.builder.extraCourses == old(s.builder.extraCourses) && s.builder.done == old(s.builder.done))
      ensures s.builder.reports == old(s.builder.reports)
    {
      if !s.live {
        s.builder.Rebuild();
        s.live := true;
      }
      cpa := Unassigned(n);
      submitted := None;
      var v := FindMaxValue(dom, unary);
      AssignNewValue(v);
    }

    /** handleAssignment: another agent's broadcast value. */
    method HandleAssignment(i: int, v: int)
      requires Valid() && 0 <= i < n && i != id
      modifies this
      ensures Valid() && cpa == old(cpa)[i := Some(v)]
      ensures submitted == old(submitted) && outbox == old(outbox)
      ensures finished == old(finished) && finalValue == old(finalValue)
    {
      cpa := cpa[i := Some(v)];
    }

    /**
     * onMailBoxEmpty: the agent finishes with its submitted value and is counted; the
     * last one sets the overflow from its own view, has the builder write that view
     * and drops the builder.
     */
    method Finish(s: Statics, inst: Instance)
      requires Valid() && s.live && !finished
      requires s.builder.numAgents + 1 == n ==> (ValuesInRange(cpa, |inst.table|) &&
        (!s.builder.done ==> ReportReady(inst, cpa)))
      modifies this, s, s.builder
      ensures Valid() && finished && finalValue == old(submitted)
      ensures cpa == old(cpa) && submitted == old(submitted) && outbox == old(outbox)
      ensures old(s.builder.numAgents) + 1 == n ==> (!s.live &&
        (!old(s.builder.done) ==> (s.builder.numAgents == 0 &&
          s.builder.reports == old(s.builder.reports) + [MakeReport(inst, cpa, TotalExcess(LoadMap(inst.table, cpa), inst.limit))])))
      ensures old(s.builder.numAgents) + 1 != n ==> (s.live &&
        s.builder.numAgents == old(s.builder.numAgents) + 1 && s.builder.reports == old(s.builder.reports) &&
        s.builder.extraCourses == old(s.builder.extraCourses))
    {
      finished := true;
      finalValue := submitted;
      s.builder.Update();
      if s.builder.numAgents == n {
        var m := MapAssignments(inst.table, cpa);
        var extra := CalculateExtraCourses(m, inst.limit);
        s.builder.SetExtraCourses(extra);
        var _ := s.builder.Output(inst, cpa, n);
        s.live := false;
      }
    }
  }
}
