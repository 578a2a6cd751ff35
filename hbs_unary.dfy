/**
 * HBSUnary: the HBS token ring with the unary best response. Before each assignment
 * the holder credits its marginal contribution to one of three shared accumulators
 * (the first agent, agent (n+1)/2 and the last agent), which count its turns too.
 */
module HbsUnary {
  import opened Common
  import opened BuilderLoads
  import opened BuilderReport
  import opened Hbs

  /** assignUtility's accumulator slot for agent `id`, or -1 for an agent that is not sampled. */
  function SlotOf(n: int, id: int): (k: int)
    ensures -1 <= k < 3
  {
    if id == 0 then 0
    else if id == (n + 1) / 2 then 1
    else if id == n - 1 then 2
    else -1
  }

  /** The agent whose turns feed slot `k`, or -1 when no agent of 0..n-1 does. */
  function Owner(n: int, k: int): (id: int)
    ensures id == -1 || 0 <= id < n
  {
    if k == 0 && n >= 1 then 0
    else if k == 1 && 0 < (n + 1) / 2 < n then (n + 1) / 2
    else if k == 2 && n - 1 != 0 && n - 1 != (n + 1) / 2 && n >= 1 then n - 1
    else -1
  }

  /** An agent feeds slot k exactly when it is the slot's owner. */
  lemma SlotOwner(n: int, id: int, k: int)
    requires 0 <= id < n && 0 <= k < 3
    ensures SlotOf(n, id) == k <==> Owner(n, k) == id
  {
  }

  /**
   * Which slots are fed at all: the first agent's always; the middle agent's from
   * two agents on; the last agent's only from four agents on, since with two or
   * three agents the last agent is (n+1)/2 and the earlier test takes it.
   */
  lemma SlotsFed(n: int)
    requires n >= 1
    ensures Owner(n, 0) == 0
    ensures Owner(n, 1) != -1 <==> n >= 2
    ensures Owner(n, 2) != -1 <==> n >= 4
  {
  }

  /** Sum of the gains logged at the turns taken by `id`. */
  function GainSum(id: int, turns: seq<int>, gains: seq<int>): int
    requires |turns| == |gains|
  {
    if turns == [] then 0
    else GainSum(id, turns[..|turns| - 1], gains[..|gains| - 1]) + (if turns[|turns| - 1] == id then gains[|gains| - 1] else 0)
  }

  /** Adds `x` to slot k of the three accumulators; slot -1 leaves them alone. */
  function Credit(acc: seq<int>, k: int, x: int): (r: seq<int>)
    requires |acc| == 3 && -1 <= k < 3
    ensures |r| == 3
    ensures forall j :: 0 <= j < 3 ==> r[j] == acc[j] + (if j == k then x else 0)
  {
    if k == -1 then acc else acc[k := acc[k] + x]
  }

  /** The accumulators hold, per slot, the owner's turn count and the sum of its gains. */
  predicate Tallied(n: int, turns: seq<int>, gains: seq<int>, utilities: seq<int>, iterations: seq<int>)
  {
    |turns| == |gains| && |utilities| == 3 && |iterations| == 3 &&
    forall k :: 0 <= k < 3 ==>
      iterations[k] == (if Owner(n, k) == -1 then 0 else Count(Owner(n, k), turns)) &&
      utilities[k] == (if Owner(n, k) == -1 then 0 else GainSum(Owner(n, k), turns, gains))
  }

  /** Crediting the holder's slot after each turn keeps the accumulators tallied. */
  lemma TallyStep(n: int, turns: seq<int>, gains: seq<int>, utilities: seq<int>, iterations: seq<int>,
                  id: int, g: int)
    requires 0 <= id < n && Tallied(n, turns, gains, utilities, iterations)
    ensures Tallied(n, turns + [id], gains + [g],
                    Credit(utilities, SlotOf(n, id), g), Credit(iterations, SlotOf(n, id), 1))
  {
    var turns', gains' := turns + [id], gains + [g];
    assert turns'[..|turns'| - 1] == turns;
    assert gains'[..|gains'| - 1] == gains;
    forall k | 0 <= k < 3
      ensures SlotOf(n, id) == k <==> Owner(n, k) == id
    {
      SlotOwner(n, id, k);
    }
  }

  /** Every agent that has taken a turn holds a value, and no other agent does. */
  predicate Held(cpa: Assignment, turns: seq<int>)
  {
    forall i :: 0 <= i < |cpa| ==> (cpa[i].Some? <==> i in turns)
  }

  /**
   * One run of HBSUnary in sequential order. The value find_max_value_unary
   * returns and the holder's marginal contribution (calcCost minus calcCostWithout
   * on its view) are parameters of the view and the holder.
   */
  class UnaryRing {
    const n: int
    const it: int
    const builder: Aggregator
    const utilities: array<int>
    const iterations: array<int>
    var arraysLive: bool
    var cpa: Assignment
    var rounds: int
    var holder: int
    var turns: seq<int>
    ghost var gains: seq<int>
    var finished: nat

    predicate Valid()
      reads this
    {
      n >= 1 && |cpa| == n && 0 <= holder < n && rounds >= 0 &&
      utilities.Length == 3 && iterations.Length == 3 && utilities != iterations
    }

    function State(): Token
      reads this
    {
      Token(cpa, rounds, holder, turns)
    }

    /** start: the first agent allocates the two zeroed accumulators; every agent begins with an empty view. */
    constructor(n: int, it: int, builder: Aggregator)
      requires n >= 1
      ensures this.n == n && this.it == it && this.builder == builder
      ensures cpa == Unassigned(n) && rounds == 0 && holder == 0 && turns == [] && gains == [] && finished == 0
      ensures arraysLive && utilities[..] == [0, 0, 0] && iterations[..] == [0, 0, 0]
      ensures fresh(utilities) && fresh(iterations) && Valid()
    {
      this.n := n;
      this.it := it;
      this.builder := builder;
      utilities := new int[3](_ => 0);
      iterations := new int[3](_ => 0);
      arraysLive := true;
      cpa := Unassigned(n);
      rounds := 0;
      holder := 0;
      turns := [];
      gains := [];
      finished := 0;
    }

    /** assignUtility: the holder's gain and one turn go to its slot, if it has one. */
    method AssignUtility(g: int)
      requires Valid() && arraysLive
      modifies utilities, iterations
      ensures utilities[..] == Credit(old(utilities[..]), SlotOf(n, holder), g)
      ensures iterations[..] == Credit(old(iterations[..]), SlotOf(n, holder), 1)
    {
      if holder == 0 {
        utilities[0] := utilities[0] + g;
        iterations[0] := iterations[0] + 1;
      } else if holder == (n + 1) / 2 {
        utilities[1] := utilities[1] + g;
        iterations[1] := iterations[1] + 1;
      } else if holder == n - 1 {
        utilities[2] := utilities[2] + g;
        iterations[2] := iterations[2] + 1;
      }
    }

    /**
     * iterate and assignNewValue: the holder takes the unary best response, credits
     * its contribution on the view before the assignment, and hands the token on
     * exactly as in HBS.
     */
    method Iterate(pick: (Assignment, int) -> int, gain: (Assignment, int) -> int)
      requires Valid() && arraysLive
      modifies this, utilities, iterations
      ensures Valid() && arraysLive && finished == old(finished)
      ensures State() == Step(n, old(State()), pick(old(cpa), old(holder)))
      ensures gains == old(gains) + [gain(old(cpa), old(holder))]
      ensures utilities[..] == Credit(old(utilities[..]), SlotOf(n, old(holder)), gain(old(cpa), old(holder)))
      ensures iterations[..] == Credit(old(iterations[..]), SlotOf(n, old(holder)), 1)
    {
      var v := pick(cpa, holder);
      AssignUtility(gain(cpa, holder));
      gains := gains + [gain(cpa, holder)];
      cpa := cpa[holder := Some(v)];
      turns := turns + [holder];
      if rounds % 2 == 0 {
        if holder != n - 1 {
          holder := holder + 1;
        } else {
          rounds := rounds + 1;
        }
      } else {
        if holder != 0 {
          holder := holder - 1;
        } else {
          rounds := rounds + 1;
        }
      }
    }

    /** One turn of the scheduler, keeping the schedule and the tallies. */
    method Turn(pick: (Assignment, int) -> int, gain: (Assignment, int) -> int, total: int, ghost k: nat)
      returns (ghost k': nat)
      requires Valid() && arraysLive && rounds < total && OnTrack(n, total, State(), k)
      requires Held(cpa, turns) && Tallied(n, turns, gains, utilities[..], iterations[..])
      modifies this, utilities, iterations
      ensures Valid() && arraysLive && OnTrack(n, total, State(), k') && finished == old(finished)
      ensures Held(cpa, turns) && Tallied(n, turns, gains, utilities[..], iterations[..])
      ensures rounds > old(rounds) || (rounds == old(rounds) && k' > k)
    {
      ghost var t := State();
      ghost var u, c := utilities[..], iterations[..];
      TallyStep(n, turns, gains, u, c, holder, gain(cpa, holder));
      Iterate(pick, gain);
      k' := NextPosition(n, t, k);
      StepOnTrack(n, total, t, k, pick(t.cpa, t.holder));
    }

    /**
     * The whole search: Sweeps(it) sweeps of n turns, after which every agent holds
     * a value, and each fed slot has counted exactly one turn per sweep.
     */
    method Run(pick: (Assignment, int) -> int, gain: (Assignment, int) -> int)
      requires Valid() && arraysLive
      requires cpa == Unassigned(n) && rounds == 0 && holder == 0 && turns == [] && gains == []
      requires utilities[..] == [0, 0, 0] && iterations[..] == [0, 0, 0]
      modifies this, utilities, iterations
      ensures Valid() && arraysLive && finished == old(finished)
      ensures rounds == Sweeps(it) && turns == Schedule(n, Sweeps(it))
      ensures forall i :: 0 <= i < n ==> cpa[i].Some?
      ensures |gains| == |turns|
      ensures forall k :: 0 <= k < 3 ==> iterations[k] == (if Owner(n, k) == -1 then 0 else Sweeps(it))
      ensures forall k :: 0 <= k < 3 ==>
        utilities[k] == (if Owner(n, k) == -1 then 0 else GainSum(Owner(n, k), turns, gains))
    {
      var total := Sweeps(it);
      ghost var k: nat := 0;
      assert Sweep(n, 0)[..0] == [];
      while rounds < total
        invariant Valid() && arraysLive && OnTrack(n, total, State(), k) && finished == old(finished)
        invariant Held(cpa, turns) && Tallied(n, turns, gains, utilities[..], iterations[..])
        decreases total - rounds, n - k
      {
        k := Turn(pick, gain, total, k);
      }
      assert Sweep(n, total)[..0] == [];
      assert turns == Schedule(n, total);
      EveryAgentActs(n, total);
      forall k | 0 <= k < 3 && Owner(n, k) != -1
        ensures Count(Owner(n, k), turns) == total
      {
        ScheduleCount(n, total, Owner(n, k));
      }
    }

    /**
     * onMailBoxEmpty once rounds >= it: the agent finishes; the last one sets the
     * overflow from the live assignment, resets `rounds` and drops the accumulators
     * (the line itself is written by outputUnary, which this model leaves out).
     */
    method Finish(inst: Instance)
      requires Valid() && rounds >= it && finished < n
      requires builder.numAgents + 1 == n ==> ValuesInRange(cpa, |inst.table|)
      modifies this, builder
      ensures Valid() && cpa == old(cpa) && turns == old(turns) && finished == old(finished) + 1
      ensures builder.numAgents == old(builder.numAgents) + 1 && builder.reports == old(builder.reports)
      ensures old(builder.numAgents) + 1 == n ==> (rounds == 0 && !arraysLive &&
        builder.extraCourses == TotalExcess(LoadMap(inst.table, cpa), inst.limit))
      ensures old(builder.numAgents) + 1 != n ==> (rounds == old(rounds) && arraysLive == old(arraysLive) &&
        builder.extraCourses == old(builder.extraCourses))
    {
      finished := finished + 1;
      builder.Update();
      if builder.numAgents == n {
        var m := MapAssignments(inst.table, cpa);
        var extra := CalculateExtraCourses(m, inst.limit);
        builder.SetExtraCourses(extra);
        rounds := 0;
        arraysLive := false;
      }
    }
  }
}
