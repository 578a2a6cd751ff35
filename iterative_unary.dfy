/**
 * IterativeUnary: one pass of sequential best responses. Agent 0 chooses first, and
 * each agent hands the START token to the next one after its assignment has been
 * broadcast, so agent i answers exactly the choices of agents 0..i-1. Once the last
 * agent has chosen, the agents finish one by one in ascending order of id.
 */
module IterativeUnary {
  import opened Common
  import opened BuilderLoads
  import opened BuilderReport

  /** The view after agents 0..k-1 have each taken `pick`'s answer, in order. */
  function Chain(pick: (Assignment, int) -> int, n: nat, k: nat): (c: Assignment)
    requires k <= n
    ensures |c| == n
  {
    if k == 0 then Unassigned(n)
    else
      var c := Chain(pick, n, k - 1);
      c[k - 1 := Some(pick(c, k - 1))]
  }

  /**
   * After k turns of the chain, each of the first k agents holds its answer to the
   * view left by the agents before it, and the others hold nothing.
   */
  lemma {:induction false} ChainShape(pick: (Assignment, int) -> int, n: nat, k: nat)
    requires k <= n
    ensures forall i :: 0 <= i < n ==>
      Chain(pick, n, k)[i] == (if i < k then Some(pick(Chain(pick, n, i), i)) else None)
  {
    if k > 0 {
      ChainShape(pick, n, k - 1);
    }
  }

  /** The ids 0..k-1 in ascending order. */
  function Upto(k: nat): (s: seq<int>)
    ensures |s| == k && forall i :: 0 <= i < k ==> s[i] == i
  {
    seq(k, i => i)
  }

  /** One run of IterativeUnary in sequential order; every agent's view equals `cpa`. */
  class SequentialPass {
    const n: int
    const builder: Aggregator
    var live: bool
    var lastDone: bool
    var cpa: Assignment
    var holder: int
    var finished: seq<int>

    /** Agents finish strictly in id order, and the builder counts exactly the finished ones. */
    predicate Valid()
      reads this, builder
    {
      n >= 1 && |cpa| == n && 0 <= holder < n &&
      0 <= builder.numAgents <= n && finished == Upto(builder.numAgents)
    }

    /**
     * start: the first agent to start creates the builder and clears the last_done
     * flag; every agent begins with an empty view.
     */
    constructor(n: int, builder: Aggregator)
      requires n >= 1
      modifies builder
      ensures this.n == n && this.builder == builder && live && !lastDone
      ensures cpa == Unassigned(n) && holder == 0 && finished == []
      ensures builder.numAgents == 0 && builder.extraCourses == IntMax && !builder.done
      ensures builder.reports == old(builder.reports)
      ensures Valid()
    {
      this.n := n;
      this.builder := builder;
      live := true;
      lastDone := false;
      cpa := Unassigned(n);
      holder := 0;
      finished := [];
      new;
      builder.Rebuild();
    }

    /**
     * iterate and assignNewValue: the holder takes the unary best response on its
     * view and sends START to the next agent; the last agent raises last_done.
     */
    method Iterate(pick: (Assignment, int) -> int)
      requires Valid() && !lastDone
      modifies this
      ensures Valid() && live == old(live) && finished == old(finished)
      ensures cpa == old(cpa)[old(holder) := Some(pick(old(cpa), old(holder)))]
      ensures old(holder) != n - 1 ==> holder == old(holder) + 1 && !lastDone
      ensures old(holder) == n - 1 ==> holder == old(holder) && lastDone
    {
      var v := pick(cpa, holder);
      cpa := cpa[holder := Some(v)];
      if holder != n - 1 {
        holder := holder + 1;
      } else {
        lastDone := true;
      }
    }

    /** The pass: each agent in turn answers the agents before it, after which last_done is raised. */
    method Run(pick: (Assignment, int) -> int)
      requires Valid() && !lastDone && cpa == Unassigned(n) && holder == 0
      modifies this
      ensures Valid() && lastDone && live == old(live) && finished == old(finished)
      ensures cpa == Chain(pick, n, n)
      ensures forall i :: 0 <= i < n ==> cpa[i] == Some(pick(Chain(pick, n, i), i))
    {
      while !lastDone
        invariant Valid() && live == old(live) && finished == old(finished)
        invariant !lastDone ==> cpa == Chain(pick, n, holder)
        invariant lastDone ==> cpa == Chain(pick, n, n)
        decreases (if lastDone then 0 else 1), n - holder
      {
        Iterate(pick);
      }
      ChainShape(pick, n, n);
    }

    /**
     * onMailBoxEmpty for agent `id`: once last_done is up, only the agent whose id
     * equals the builder's count finishes; when that is the last agent, it sets the
     * overflow from its view and drops the builder (the line itself is written by
     * outputUnary, which this model leaves out).
     */
    method OnMailBoxEmpty(inst: Instance, id: int)
      requires Valid() && 0 <= id < n
      requires lastDone ==> live
      requires lastDone && id == builder.numAgents && id == n - 1 ==> ValuesInRange(cpa, |inst.table|)
      modifies this, builder
      ensures Valid() && cpa == old(cpa) && lastDone == old(lastDone)
      ensures builder.reports == old(builder.reports) && builder.done == old(builder.done)
      ensures old(lastDone) && id == old(builder.numAgents) ==>
        finished == old(finished) + [id] && builder.numAgents == id + 1 &&
        (id == n - 1 ==> (builder.numAgents == n && !live &&
          builder.extraCourses == TotalExcess(LoadMap(inst.table, cpa), inst.limit))) &&
        (id != n - 1 ==> live && builder.extraCourses == old(builder.extraCourses))
      ensures !(old(lastDone) && id == old(builder.numAgents)) ==>
        finished == old(finished) && live == old(live) &&
        builder.numAgents == old(builder.numAgents) && builder.extraCourses == old(builder.extraCourses)
    {
      if lastDone {
        if id == builder.numAgents {
          finished := finished + [id];
          builder.Update();
          if id == n - 1 && builder.numAgents == n {
            var m := MapAssignments(inst.table, cpa);
            var extra := CalculateExtraCourses(m, inst.limit);
            builder.SetExtraCourses(extra);
            live := false;
          }
        }
      }
    }
  }
}
