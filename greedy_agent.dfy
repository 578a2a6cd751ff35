/**
 * GreedyAgent (the earlier agent framework): every agent takes the value of highest
 * added cost on its empty starting view, counts itself on its first empty mailbox,
 * and the agent that completes the count adds the overflow of its view to the
 * shared total, writes one line and clears the statics for the next run.
 */
module GreedyAgent {
  import opened Common
  import opened BuilderLoads
  import Greedy

  /** The integer columns of the line `output` writes: total cost and the accumulated overflow. */
  datatype Line = Line(cost: int, extra: int)

  /** The statics of GreedyAgent: the overflow total, the finished count, the once-per-run flag and its time stamp. */
  class Statics {
    var extraCourses: int
    var numAgents: int
    var first: bool
    var startTime: int
    var lines: seq<Line>

    /** Java's defaults for static fields: zero, false, and no line written yet. */
    constructor()
      ensures extraCourses == 0 && numAgents == 0 && !first && lines == []
    {
      extraCourses := 0;
      numAgents := 0;
      first := false;
      startTime := 0;
      lines := [];
    }

    /** init: the first agent of a run raises `first` and stamps the start time; later calls change nothing. */
    method Init(now: int)
      modifies this
      ensures first
      ensures startTime == (if old(first) then old(startTime) else now)
      ensures extraCourses == old(extraCourses) && numAgents == old(numAgents) && lines == old(lines)
    {
      if !first {
        first := true;
        startTime := now;
      }
    }

    /** calculate_extra_courses: adds the overflow of `m` to the running total rather than replacing it. */
    method CalculateExtraCourses(m: Loads, limit: int)
      modifies this
      ensures extraCourses == old(extraCourses) + TotalExcess(m, limit)
      ensures numAgents == old(numAgents) && first == old(first) && startTime == old(startTime)
      ensures lines == old(lines)
    {
      var e := BuilderLoads.CalculateExtraCourses(m, limit);
      extraCourses := extraCourses + e;
    }

    /** clear: zero the overflow total and the count, and lower `first` for the next run. */
    method Clear()
      modifies this
      ensures extraCourses == 0 && numAgents == 0 && !first
      ensures startTime == old(startTime) && lines == old(lines)
    {
      extraCourses := 0;
      numAgents := 0;
      first := false;
    }
  }

  class Agent {
    const id: int
    const n: int
    var cpa: Assignment
    var submitted: Option<int>
    var outbox: seq<Message>
    var finished: bool
    var finalValue: Option<int>

    /** The agent's own slot of its view always holds the value it submitted. */
    predicate Valid()
      reads this
    {
      0 <= id < n && |cpa| == n && cpa[id] == submitted
    }

    constructor(id: int, n: int)
      requires 0 <= id < n
      ensures this.id == id && this.n == n && cpa == Unassigned(n) && submitted == None
      ensures outbox == [] && !finished && finalValue == None && Valid()
    {
      this.id := id;
      this.n := n;
      cpa := Unassigned(n);
      submitted := None;
      outbox := [];
      finished := false;
      finalValue := None;
    }

    /** assignNewValue: record the value locally, submit it and broadcast it. */
    method AssignNewValue(v: int)
      requires Valid()
      modifies this
      ensures Valid() && cpa == old(cpa)[id := Some(v)] && submitted == Some(v)
      ensures outbox == old(outbox) + [Assign(id, v)]
      ensures finished == old(finished) && finalValue == old(finalValue)
    {
      cpa := cpa[id := Some(v)];
      submitted := Some(v);
      outbox := outbox + [Assign(id, v)];
    }

    /**
     * start: init once per run, then an empty view and find_max_value's answer.
     * `added` is calcAddedCost of this agent on that empty view.
     */
    method Start(s: Statics, dom: seq<int>, added: int -> int, now: int)
      requires 0 <= id < n
      modifies this, s
      ensures Valid() && finished == old(finished) && s.first
      ensures s.startTime == (if old(s.first) then old(s.startTime) else now)
      ensures cpa == Unassigned(n)[id := Some(Greedy.Choice(dom, added))]
      ensures submitted == Some(Greedy.Choice(dom, added))
      ensures outbox == old(outbox) + [Assign(id, Greedy.Choice(dom, added))]
      ensures s.extraCourses == old(s.extraCourses) && s.numAgents == old(s.numAgents) && s.lines == old(s.lines)
    {
      if !s.first {
        s.Init(now);
      }
      cpa := Unassigned(n);
      submitted := None;
      var v := Greedy.FindMaxValue(dom, added);
      AssignNewValue(v);
    }

    /** handleAssignment: another agent's broadcast value. */
    method HandleAssignment(i: int, v: int)
      requires Valid() && 0 <= i < n && i != id
      modifies this
      ensures Valid() && cpa == old(cpa)[i := Some(v)]
      ensures submitted == old(submitted) && outbox == old(outbox)
      ensures finished == old(finished) && finalValue == old(finalValue)
    {
      cpa := cpa[i := Some(v)];
    }

    /**
     * onMailBoxEmpty: the agent counts itself and finishes with its submitted value.
     * The one that brings the count to the number of agents adds its view's overflow
     * to the total, writes the line and clears the statics.
     */
    method OnMailBoxEmpty(s: Statics, inst: Instance, calcCost: Assignment -> int)
      requires Valid() && !finished
      requires s.numAgents + 1 == n ==> ValuesInRange(cpa, |inst.table|)
      modifies this, s
      ensures Valid() && finished && finalValue == old(submitted)
      ensures cpa == old(cpa) && submitted == old(submitted) && outbox == old(outbox)
      ensures old(s.numAgents) + 1 == n ==> (
        s.lines == old(s.lines) + [Line(calcCost(cpa), old(s.extraCourses) + TotalExcess(LoadMap(inst.table, cpa), inst.limit))] &&
        s.extraCourses == 0 && s.numAgents == 0 && !s.first)
      ensures old(s.numAgents) + 1 != n ==> (
        s.numAgents == old(s.numAgents) + 1 && s.extraCourses == old(s.extraCourses) &&
        s.first == old(s.first) && s.lines == old(s.lines))
    {
      s.numAgents := s.numAgents + 1;
      finished := true;
      finalValue := submitted;
      if s.numAgents == n {
        var m := MapAssignments(inst.table, cpa);
        s.CalculateExtraCourses(m, inst.limit);
        s.lines := s.lines + [Line(calcCost(cpa), s.extraCourses)];
        s.Clear();
      }
    }
  }
}
