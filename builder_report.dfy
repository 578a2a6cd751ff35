/**
 * What the builder reports once every agent has finished: total, unary and
 * binary utility, the friend-course count, three sampled agent utilities and the
 * overflow, plus the shared completion counter that makes the report happen
 * exactly once per run.
 */
module BuilderReport {
  import opened Common
  import opened BuilderCost

  /** Every assigned agent's value can be scored, as calculateTotalCost needs. */
  predicate Scored(inst: Instance, cpa: Assignment)
  {
    forall i :: 0 <= i < |cpa| && cpa[i].Some? ==> Rated(inst, i, cpa[i].value)
  }

  /** Utility of each agent under `cpa`; 0 for a slot that is not assigned. */
  function Utilities(inst: Instance, cpa: Assignment): (r: seq<int>)
    requires Scored(inst, cpa)
    ensures |r| == |cpa|
  {
    seq(|cpa|, i requires 0 <= i < |cpa| =>
      if cpa[i].Some? then AgentCost(inst, cpa, i, cpa[i].value) else 0)
  }

  function UnaryParts(inst: Instance, cpa: Assignment): (r: seq<int>)
    requires Scored(inst, cpa)
    ensures |r| == |cpa|
  {
    seq(|cpa|, i requires 0 <= i < |cpa| =>
      if cpa[i].Some? then Unary(inst, i, Courses(inst, cpa[i].value)) else 0)
  }

  function BinaryParts(inst: Instance, cpa: Assignment): (r: seq<int>)
    requires Scored(inst, cpa)
    ensures |r| == |cpa|
  {
    seq(|cpa|, i requires 0 <= i < |cpa| =>
      if cpa[i].Some? then Binary(inst, cpa, i, Courses(inst, cpa[i].value)) else 0)
  }

  /** calculateTotalCost splits into calculateTotalUnary plus calculateTotalBinary. */
  lemma TotalSplit(inst: Instance, cpa: Assignment)
    requires Scored(inst, cpa)
    ensures Sum(Utilities(inst, cpa)) == Sum(UnaryParts(inst, cpa)) + Sum(BinaryParts(inst, cpa))
  {
    SumSplit(UnaryParts(inst, cpa), BinaryParts(inst, cpa), Utilities(inst, cpa));
  }

  /** The total binary utility is never negative. */
  lemma TotalBinaryNonNegative(inst: Instance, cpa: Assignment)
    requires Scored(inst, cpa)
    ensures Sum(BinaryParts(inst, cpa)) >= 0
  {
    var b := BinaryParts(inst, cpa);
    forall i | 0 <= i < |b| ensures b[i] >= 0 {
      if cpa[i].Some? {
        BinaryBounds(inst, cpa, i, cpa[i].value);
      }
    }
    SumZeroIff(b);
  }

  function Abs(x: int): nat
  {
    if x < 0 then -x else x
  }

  /** Sum over j of |x - u[j]|: one row of the Gini double loop. */
  function GiniRow(u: seq<int>, x: int): (r: seq<int>)
    ensures |r| == |u|
  {
    seq(|u|, j requires 0 <= j < |u| => Abs(x - u[j]))
  }

  /**
   * The integer numerator of gini_coef: the sum over all ordered pairs (i, j) of
   * |u[i] - u[j]|. The division by 2 n^2 mean and the scaling by 100 are left out.
   */
  function GiniNumerator(u: seq<int>): int
  {
    Sum(seq(|u|, i requires 0 <= i < |u| => Sum(GiniRow(u, u[i]))))
  }

  /** The Gini numerator is non-negative and zero exactly when all utilities are equal. */
  lemma GiniZeroIff(u: seq<int>)
    ensures GiniNumerator(u) >= 0
    ensures GiniNumerator(u) == 0 <==> forall i, j :: 0 <= i < |u| && 0 <= j < |u| ==> u[i] == u[j]
  {
    var rows := seq(|u|, i requires 0 <= i < |u| => Sum(GiniRow(u, u[i])));
    forall i | 0 <= i < |u|
      ensures rows[i] >= 0
      ensures rows[i] == 0 <==> forall j :: 0 <= j < |u| ==> u[i] == u[j]
    {
      var row := GiniRow(u, u[i]);
      SumZeroIff(row);
      assert forall j :: 0 <= j < |u| ==> (row[j] == 0 <==> u[i] == u[j]);
    }
    SumZeroIff(rows);
  }

  /** The agents whose utilities to_String samples: the first, the middle (n / 2) and the last. */
  function SampleIds(n: nat): (r: seq<int>)
    requires n > 0
    ensures |r| == 3
    ensures forall k :: 0 <= k < 3 ==> 0 <= r[k] < n
    ensures r[0] <= r[1] <= r[2]
    ensures n >= 3 ==> r[0] < r[1] < r[2]
  {
    [0, n / 2, n - 1]
  }

  /** Every slot is assigned: what to_String and gini_coef assume when they index agents 0..n-1. */
  predicate FullyAssigned(cpa: Assignment)
  {
    forall i :: 0 <= i < |cpa| ==> cpa[i].Some?
  }

  /** Every neighbour of an assigned agent is assigned to a row of the table, as find_friends needs. */
  predicate NeighborsAssigned(inst: Instance, cpa: Assignment)
  {
    |inst.neighbors| >= |cpa| &&
    forall i :: 0 <= i < |cpa| && cpa[i].Some? ==>
      0 <= cpa[i].value < |inst.table| &&
      forall k :: 0 <= k < |inst.neighbors[i]| ==>
        var nb := inst.neighbors[i][k];
        0 <= nb < |cpa| && cpa[nb].Some? && 0 <= cpa[nb].value < |inst.table|
  }

  /** find_friends: common courses of agent `id` with each of its neighbours, added up. */
  function FindFriends(inst: Instance, cpa: Assignment, id: int): (r: seq<int>)
    requires NeighborsAssigned(inst, cpa)
    requires 0 <= id < |cpa| && cpa[id].Some?
    ensures |r| == |inst.neighbors[id]|
  {
    var nbs := inst.neighbors[id];
    seq(|nbs|, k requires 0 <= k < |nbs| =>
      PairMatches(inst.table[cpa[id].value], inst.table[cpa[nbs[k]].value]) as int)
  }

  /** Two combinations share a course. */
  predicate Overlap(c1: Combination, c2: Combination)
  {
    exists t :: t in c1 && t in c2
  }

  /** intersection_courses is zero exactly when the combinations have no course in common. */
  lemma {:induction false} PairMatchesZeroIff(c1: Combination, c2: Combination)
    ensures PairMatches(c1, c2) == 0 <==> !Overlap(c1, c2)
  {
    if c1 != [] {
      var init, last := c1[..|c1| - 1], c1[|c1| - 1];
      PairMatchesZeroIff(init, c2);
      CountPositive(last, c2);
      assert c1 == init + [last];
      if Overlap(c1, c2) && !Overlap(init, c2) {
        var t :| t in c1 && t in c2;
        assert t == last;
      }
    }
  }

  /** Agent `id` has no friend-course at all iff it shares no course with any neighbour. */
  lemma FindFriendsZeroIff(inst: Instance, cpa: Assignment, id: int)
    requires NeighborsAssigned(inst, cpa)
    requires 0 <= id < |cpa| && cpa[id].Some?
    ensures Sum(FindFriends(inst, cpa, id)) >= 0
    ensures Sum(FindFriends(inst, cpa, id)) == 0 <==>
      forall k :: 0 <= k < |inst.neighbors[id]| ==>
        !Overlap(inst.table[cpa[id].value], inst.table[cpa[inst.neighbors[id][k]].value])
  {
    var f := FindFriends(inst, cpa, id);
    forall k | 0 <= k < |f|
      ensures f[k] == 0 <==> !Overlap(inst.table[cpa[id].value], inst.table[cpa[inst.neighbors[id][k]].value])
    {
      PairMatchesZeroIff(inst.table[cpa[id].value], inst.table[cpa[inst.neighbors[id][k]].value]);
    }
    SumZeroIff(f);
  }

  /** calc_friends: find_friends added up over the assigned agents. */
  function CalcFriends(inst: Instance, cpa: Assignment): (r: seq<int>)
    requires NeighborsAssigned(inst, cpa)
    ensures |r| == |cpa|
  {
    seq(|cpa|, i requires 0 <= i < |cpa| =>
      if cpa[i].Some? then Sum(FindFriends(inst, cpa, i)) else 0)
  }

  /** The friend count of a run is zero iff no agent shares a course with any of its neighbours. */
  lemma CalcFriendsZeroIff(inst: Instance, cpa: Assignment)
    requires NeighborsAssigned(inst, cpa)
    ensures Sum(CalcFriends(inst, cpa)) >= 0
    ensures Sum(CalcFriends(inst, cpa)) == 0 <==>
      forall i, k :: 0 <= i < |cpa| && cpa[i].Some? && 0 <= k < |inst.neighbors[i]| ==>
        !Overlap(inst.table[cpa[i].value], inst.table[cpa[inst.neighbors[i][k]].value])
  {
    var f := CalcFriends(inst, cpa);
    forall i | 0 <= i < |cpa|
      ensures f[i] >= 0
      ensures f[i] == 0 <==> cpa[i].None? || forall k :: 0 <= k < |inst.neighbors[i]| ==>
        !Overlap(inst.table[cpa[i].value], inst.table[cpa[inst.neighbors[i][k]].value])
    {
      if cpa[i].Some? {
        FindFriendsZeroIff(inst, cpa, i);
      }
    }
    SumZeroIff(f);
  }

  /** One line of the results file, without the floating-point Gini column. */
  datatype Report = Report(totalCost: int, extraCourses: int, friends: int, samples: seq<int>,
                           totalUnary: int, totalBinary: int)

  /** Everything output needs of the final assignment before it can write the line. */
  predicate ReportReady(inst: Instance, cpa: Assignment)
  {
    |cpa| > 0 && FullyAssigned(cpa) && Scored(inst, cpa) && NeighborsAssigned(inst, cpa)
  }

  /** The line output writes for `cpa`, with `extra` as the overflow column. */
  function MakeReport(inst: Instance, cpa: Assignment, extra: int): (r: Report)
    requires ReportReady(inst, cpa)
    ensures r.totalCost == r.totalUnary + r.totalBinary
    ensures r.totalBinary >= 0 && r.friends >= 0
    ensures |r.samples| == 3 && r.samples[0] == Utilities(inst, cpa)[0]
    ensures r.samples[2] == Utilities(inst, cpa)[|cpa| - 1]
  {
    TotalSplit(inst, cpa);
    TotalBinaryNonNegative(inst, cpa);
    CalcFriendsZeroIff(inst, cpa);
    var u := Utilities(inst, cpa);
    var ids := SampleIds(|cpa|);
    Report(Sum(u), extra, Sum(CalcFriends(inst, cpa)), [u[ids[0]], u[ids[1]], u[ids[2]]],
           Sum(UnaryParts(inst, cpa)), Sum(BinaryParts(inst, cpa)))
  }

  /**
   * The builder's static bookkeeping, shared by all agents of a run: how many
   * agents have finished, the overflow to report, whether this run's line was
   * written, how many lines were written, and the lines themselves.
   */
  class Aggregator {
    var numAgents: int
    var extraCourses: int
    var done: bool
    var numRounds: int
    var reports: seq<Report>

    /** The first builder of the program: the counters start afresh, no line written yet. */
    constructor()
      ensures numAgents == 0 && extraCourses == IntMax && !done
      ensures numRounds == 0 && reports == []
    {
      numAgents := 0;
      extraCourses := IntMax;
      done := false;
      numRounds := 0;
      reports := [];
    }

    /** A later builder: the constructor resets the counters, but num_rounds and the file persist. */
    method Rebuild()
      modifies this
      ensures numAgents == 0 && extraCourses == IntMax && !done
      ensures numRounds == old(numRounds) && reports == old(reports)
    {
      numAgents := 0;
      extraCourses := IntMax;
      done := false;
    }

    /** update: one more agent has finished. */
    method Update()
      modifies this
      ensures numAgents == old(numAgents) + 1
      ensures extraCourses == old(extraCourses) && done == old(done)
      ensures numRounds == old(numRounds) && reports == old(reports)
    {
      numAgents := numAgents + 1;
    }

    method SetExtraCourses(courses: int)
      modifies this
      ensures extraCourses == courses
      ensures numAgents == old(numAgents) && done == old(done)
      ensures numRounds == old(numRounds) && reports == old(reports)
    {
      extraCourses := courses;
    }

    /** clear: ready for the next run; the overflow restarts at 0, not at Integer.MAX_VALUE. */
    method Clear()
      modifies this
      ensures numAgents == 0 && extraCourses == 0 && !done
      ensures numRounds == old(numRounds) && reports == old(reports)
    {
      numAgents := 0;
      extraCourses := 0;
      done := false;
    }

    /**
     * output: writes one line, only when all `n` agents have finished and this
     * run's line is not written yet, and then clears the counters; otherwise
     * nothing changes.
     */
    method Output(inst: Instance, cpa: Assignment, n: int) returns (wrote: bool)
      requires numAgents == n && !done ==> ReportReady(inst, cpa)
      modifies this
      ensures wrote <==> old(numAgents) == n && !old(done)
      ensures wrote ==> numAgents == 0 && extraCourses == 0 && !done && numRounds == old(numRounds) + 1 &&
                        reports == old(reports) + [MakeReport(inst, cpa, old(extraCourses))]
      ensures !wrote ==> numAgents == old(numAgents) && extraCourses == old(extraCourses) &&
                         done == old(done) && numRounds == old(numRounds) && reports == old(reports)
    {
      wrote := false;
      if numAgents == n && !done {
        done := true;
        numRounds := numRounds + 1;
        reports := reports + [MakeReport(inst, cpa, extraCourses)];
        Clear();
        wrote := true;
      }
    }
  }

  /**
   * Once per run: with n > 0 agents, after output has written a line a second
   * output writes nothing until n more updates have come in.
   */
  method OutputOnce(agg: Aggregator, inst: Instance, cpa: Assignment, n: int) returns (first: bool, second: bool)
    requires n > 0 && agg.numAgents == n && !agg.done && ReportReady(inst, cpa)
    modifies agg
    ensures first && !second
    ensures |agg.reports| == |old(agg.reports)| + 1
  {
    first := agg.Output(inst, cpa, n);
    second := agg.Output(inst, cpa, n);
  }
}
