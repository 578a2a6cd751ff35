/**
 * HBS: hill climbing by a token that sweeps the ring of agents, forward on even
 * rounds and backward on odd ones. Only the agent at the end of a sweep advances
 * the shared `rounds` counter and, while rounds < it, takes the next turn itself.
 * Once rounds reaches it, the agents finish and the last one reports the live
 * assignment.
 */
module Hbs {
  import opened Common
  import opened BuilderLoads
  import opened BuilderCost
  import opened BuilderSearch
  import opened BuilderReport

  /** Where the token goes after an agent has assigned. */
  datatype HandOff = SendStart(to: int) | EndSweep

  /** assignNewValue's hand-off: START to the next (even round) or previous (odd round) agent, unless at the end. */
  function HandOffAfter(n: int, id: int, rounds: int): (h: HandOff)
    ensures h.SendStart? <==> (if rounds % 2 == 0 then id != n - 1 else id != 0)
    ensures h.SendStart? ==> h.to == (if rounds % 2 == 0 then id + 1 else id - 1)
  {
    if rounds % 2 == 0 then
      if id != n - 1 then SendStart(id + 1) else EndSweep
    else
      if id != 0 then SendStart(id - 1) else EndSweep
  }

  /** The agents in the order they act during sweep `r`: ascending ids on even sweeps, descending on odd ones. */
  function Sweep(n: nat, r: nat): (s: seq<int>)
    ensures |s| == n
  {
    seq(n, i requires 0 <= i < n => if r % 2 == 0 then i else n - 1 - i)
  }

  /** The order of all turns of `sweeps` complete sweeps. */
  function Schedule(n: nat, sweeps: nat): seq<int>
  {
    if sweeps == 0 then [] else Schedule(n, sweeps - 1) + Sweep(n, sweeps - 1)
  }

  /** Every sweep is n turns, so `sweeps` sweeps are sweeps * n turns. */
  lemma {:induction false} ScheduleLength(n: nat, sweeps: nat)
    ensures |Schedule(n, sweeps)| == sweeps * n
  {
    if sweeps > 0 {
      ScheduleLength(n, sweeps - 1);
      assert sweeps * n == (sweeps - 1) * n + n;
    }
  }

  lemma {:induction false} CountAppend(x: int, a: seq<int>, b: seq<int>)
    ensures Count(x, a + b) == Count(x, a) + Count(x, b)
  {
    if b == [] {
      assert a + b == a;
    } else {
      CountAppend(x, a, b[..|b| - 1]);
      assert (a + b)[..|a + b| - 1] == a + b[..|b| - 1];
      assert (a + b)[|a + b| - 1] == b[|b| - 1];
    }
  }

  /** Each agent of the ring acts exactly once per sweep, so `sweeps` times in all. */
  lemma {:induction false} ScheduleCount(n: nat, sweeps: nat, id: int)
    requires 0 <= id < n
    ensures Count(id, Schedule(n, sweeps)) == sweeps
  {
    if sweeps > 0 {
      ScheduleCount(n, sweeps - 1, id);
      var s := Sweep(n, sweeps - 1);
      CountAppend(id, Schedule(n, sweeps - 1), s);
      assert DuplicateFree(s);
      if (sweeps - 1) % 2 == 0 { assert s[id] == id; } else { assert s[n - 1 - id] == id; }
      CountDuplicateFree(id, s);
    }
  }

  /**
   * The hand-off walks each sweep: within it every agent passes START to the agent
   * after it in the sweep, and the sweep's last agent ends it. Consecutive sweeps
   * meet at the same end agent, who takes the next turn itself.
   */
  lemma SweepHandOff(n: nat, r: nat, k: nat)
    requires n >= 1 && k < n
    ensures k + 1 < n ==> HandOffAfter(n, Sweep(n, r)[k], r) == SendStart(Sweep(n, r)[k + 1])
    ensures k + 1 == n ==> HandOffAfter(n, Sweep(n, r)[k], r) == EndSweep
    ensures Sweep(n, r + 1)[0] == Sweep(n, r)[n - 1]
  {
  }

  /** What every turn needs: each agent's domain is non-empty and scorable, and no excess can overflow. */
  predicate RingReady(inst: Instance, doms: seq<seq<int>>, n: int, width: nat)
  {
    n >= 1 && |doms| == n &&
    (forall i :: 0 <= i < n ==> Scorable(inst, i, doms[i]) && doms[i] != []) &&
    Narrow(inst, width) && inst.limit >= 0 && width * width * n < IntMax
  }

  /** The friend columns the report reads name agents of the ring. */
  predicate NeighborsInRing(inst: Instance, n: int)
  {
    |inst.neighbors| >= n &&
    forall i, k :: 0 <= i < n && 0 <= k < |inst.neighbors[i]| ==> 0 <= inst.neighbors[i][k] < n
  }

  /** One turn extends the schedule by the token holder and moves the token to the next agent of the schedule. */
  lemma Advance(n: nat, r: nat, k: nat, turns: seq<int>, holder: int)
    requires n >= 1 && k < n && turns == Schedule(n, r) + Sweep(n, r)[..k] && holder == Sweep(n, r)[k]
    ensures match HandOffAfter(n, holder, r)
      case SendStart(t) => (k + 1 < n && t == Sweep(n, r)[k + 1] &&
        turns + [holder] == Schedule(n, r) + Sweep(n, r)[..k + 1])
      case EndSweep => (k + 1 == n && holder == Sweep(n, r + 1)[0] &&
        turns + [holder] == Schedule(n, r + 1) + Sweep(n, r + 1)[..0])
  {
    SweepHandOff(n, r, k);
    var s := Sweep(n, r);
    assert s[..k + 1] == s[..k] + [s[k]];
    if k + 1 == n {
      assert s[..k + 1] == s;
      assert Sweep(n, r + 1)[..0] == [];
    }
  }

  /** Exactly the agents that have taken a turn hold a value, and each holds a value of its domain. */
  predicate Settled(doms: seq<seq<int>>, cpa: Assignment, turns: seq<int>)
  {
    |cpa| == |doms| &&
    (forall i :: 0 <= i < |cpa| ==> (cpa[i].Some? <==> i in turns)) &&
    (forall i :: 0 <= i < |cpa| && cpa[i].Some? ==> cpa[i].value in doms[i])
  }

  /** A turn keeps the assignment settled: the holder joins the turns with a value of its domain. */
  lemma SettledStep(doms: seq<seq<int>>, cpa: Assignment, turns: seq<int>, id: int, v: int)
    requires Settled(doms, cpa, turns) && 0 <= id < |cpa| && v in doms[id]
    ensures Settled(doms, cpa[id := Some(v)], turns + [id])
  {
  }

  lemma SettledInRange(inst: Instance, doms: seq<seq<int>>, cpa: Assignment, turns: seq<int>)
    requires Settled(doms, cpa, turns)
    requires forall i :: 0 <= i < |doms| ==> Scorable(inst, i, doms[i])
    ensures ValuesInRange(cpa, |inst.table|)
  {
    forall i | 0 <= i < |cpa| && cpa[i].Some? ensures 0 <= cpa[i].value < |inst.table| {
      var j :| 0 <= j < |doms[i]| && doms[i][j] == cpa[i].value;
      ScorableRows(inst, i, doms[i]);
    }
  }

  /** With at least one sweep, every agent of the ring takes a turn. */
  lemma EveryAgentActs(n: nat, sweeps: nat)
    requires sweeps >= 1
    ensures forall i :: 0 <= i < n ==> i in Schedule(n, sweeps)
  {
    forall i | 0 <= i < n ensures i in Schedule(n, sweeps) {
      ScheduleCount(n, sweeps, i);
      CountPositive(i, Schedule(n, sweeps));
    }
  }

  /** A fully assigned ring whose values come from the agents' domains can be reported. */
  lemma ReadyAfterRun(inst: Instance, doms: seq<seq<int>>, cpa: Assignment, n: int)
    requires n >= 1 && |doms| == n && |cpa| == n && NeighborsInRing(inst, n)
    requires forall i :: 0 <= i < n ==> Scorable(inst, i, doms[i])
    requires forall i :: 0 <= i < n ==> cpa[i].Some? && cpa[i].value in doms[i]
    ensures ReportReady(inst, cpa)
  {
    forall i | 0 <= i < n ensures Rated(inst, i, cpa[i].value) && 0 <= cpa[i].value < |inst.table| {
      var j :| 0 <= j < |doms[i]| && doms[i][j] == cpa[i].value;
      ScorableRows(inst, i, doms[i]);
    }
  }

  /**
   * A turn's answer: find_max_value over the agent's domain with the loads of its
   * live view. Under the ring's bounds it is always a value of that domain.
   */
  function Reply(inst: Instance, cpa: Assignment, id: int, dom: seq<int>, width: nat): (v: int)
    requires Scorable(inst, id, dom) && ValuesInRange(cpa, |inst.table|)
    requires Narrow(inst, width) && inst.limit >= 0 && width * width * |cpa| < IntMax
    requires dom != []
    ensures v in dom
  {
    SearchLandsAsWritten(inst, cpa, id, dom, width);
    FindMaxAsWritten(inst, cpa, id, dom, LoadMap(inst.table, cpa)).0
  }

  /** The search state of the ring: the shared view, the sweep counter, the token holder and the turns taken so far. */
  datatype Token = Token(cpa: Assignment, rounds: int, holder: int, turns: seq<int>)

  /**
   * The number of sweeps a run makes: the first agent starts a sweep whatever `it`
   * is, and each later sweep starts only while rounds < it.
   */
  function Sweeps(it: int): (s: nat)
    ensures s >= 1 && (it >= 1 ==> s == it)
  {
    if it < 1 then 1 else it
  }

  /** One turn: the holder takes `v`, and the token moves on as assignNewValue hands it off. */
  function Step(n: int, t: Token, v: int): Token
    requires 0 <= t.holder < |t.cpa|
  {
    match HandOffAfter(n, t.holder, t.rounds)
    case SendStart(next) => Token(t.cpa[t.holder := Some(v)], t.rounds, next, t.turns + [t.holder])
    case EndSweep => Token(t.cpa[t.holder := Some(v)], t.rounds + 1, t.holder, t.turns + [t.holder])
  }

  /** The token is at position `k` of sweep `t.rounds`, and the turns so far are the schedule up to it. */
  predicate OnTrack(n: int, it: int, t: Token, k: nat)
  {
    n >= 1 && k < n && |t.cpa| == n && 0 <= t.holder < n && 0 <= t.rounds <= it &&
    t.turns == Schedule(n, t.rounds) + Sweep(n, t.rounds)[..k] &&
    (t.rounds < it ==> t.holder == Sweep(n, t.rounds)[k]) &&
    (t.rounds == it ==> k == 0)
  }

  /** The token's position in its sweep after one turn. */
  function NextPosition(n: int, t: Token, k: nat): nat
  {
    if HandOffAfter(n, t.holder, t.rounds).SendStart? then k + 1 else 0
  }

  /**
   * A turn keeps the run on schedule, whatever value the holder takes: the token
   * moves to the next agent of the sweep schedule, and the run makes progress.
   */
  lemma StepOnTrack(n: int, it: int, t: Token, k: nat, v: int)
    requires OnTrack(n, it, t, k) && t.rounds < it
    ensures var t' := Step(n, t, v);
      OnTrack(n, it, t', NextPosition(n, t, k)) &&
      (t'.rounds > t.rounds || (t'.rounds == t.rounds && NextPosition(n, t, k) > k))
  {
    Advance(n, t.rounds, k, t.turns, t.holder);
  }

  /** A turn that takes a value of the holder's domain also keeps the assignment settled. */
  lemma StepKeeps(n: int, it: int, doms: seq<seq<int>>, t: Token, k: nat, v: int)
    requires OnTrack(n, it, t, k) && t.rounds < it && Settled(doms, t.cpa, t.turns)
    requires v in doms[t.holder]
    ensures var t' := Step(n, t, v);
      OnTrack(n, it, t', NextPosition(n, t, k)) && Settled(doms, t'.cpa, t'.turns) &&
      (t'.rounds > t.rounds || (t'.rounds == t.rounds && NextPosition(n, t, k) > k))
  {
    StepOnTrack(n, it, t, k, v);
    SettledStep(doms, t.cpa, t.turns, t.holder, v);
  }

  /**
   * One run of HBS in sequential order. Every assignment is broadcast before the
   * token moves on, so all agents' views equal `cpa`.
   */
  class Ring {
    const n: int
    const it: int
    const builder: Aggregator
    var cpa: Assignment
    var rounds: int
    var holder: int
    var turns: seq<int>
    var finished: nat

    predicate Valid()
      reads this
    {
      n >= 1 && |cpa| == n && 0 <= holder < n && rounds >= 0
    }

    function State(): Token
      reads this
    {
      Token(cpa, rounds, holder, turns)
    }

    /** start: every agent begins with an empty view, and the first agent holds the token. */
    constructor(n: int, it: int, builder: Aggregator)
      requires n >= 1
      ensures this.n == n && this.it == it && this.builder == builder
      ensures cpa == Unassigned(n) && rounds == 0 && holder == 0 && turns == [] && finished == 0
      ensures Valid()
    {
      this.n := n;
      this.it := it;
      this.builder := builder;
      cpa := Unassigned(n);
      rounds := 0;
      holder := 0;
      turns := [];
      finished := 0;
    }

    /**
     * iterate and assignNewValue: the token holder rebuilds the loads from its view,
     * moves to find_max_value's answer and hands the token on; at the end of a sweep
     * it advances `rounds` and keeps the token.
     */
    method Iterate(inst: Instance, doms: seq<seq<int>>, width: nat)
      requires Valid() && RingReady(inst, doms, n, width) && ValuesInRange(cpa, |inst.table|)
      modifies this
      ensures Valid() && finished == old(finished)
      ensures State() == Step(n, old(State()), Reply(inst, old(cpa), old(holder), doms[old(holder)], width))
    {
      var dom := doms[holder];
      SearchLandsAsWritten(inst, cpa, holder, dom, width);
      ScorableRows(inst, holder, dom);
      var m := MapAssignments(inst.table, cpa);
      var loads := new CourseLoads(m);
      var v := FindMaxValueAsWritten(loads, inst, dom, cpa, holder);
      cpa := cpa[holder := Some(v)];
      turns := turns + [holder];
      if rounds % 2 == 0 {
        if holder != n - 1 {
          holder := holder + 1;
        } else {
          rounds := rounds + 1;
        }
      } else {
        if holder != 0 {
          holder := holder - 1;
        } else {
          rounds := rounds + 1;
        }
      }
    }

    /** One turn of the scheduler: the token holder iterates, and the token moves one place along the schedule. */
    method Turn(inst: Instance, doms: seq<seq<int>>, width: nat, total: int, ghost k: nat) returns (ghost k': nat)
      requires Valid() && RingReady(inst, doms, n, width) && rounds < total
      requires OnTrack(n, total, State(), k) && Settled(doms, cpa, turns)
      modifies this
      ensures Valid() && OnTrack(n, total, State(), k') && Settled(doms, cpa, turns) && finished == old(finished)
      ensures rounds > old(rounds) || (rounds == old(rounds) && k' > k)
    {
      ghost var t := State();
      assert ValuesInRange(cpa, |inst.table|) by {
        SettledInRange(inst, doms, cpa, turns);
      }
      Iterate(inst, doms, width);
      k' := NextPosition(n, t, k);
      StepKeeps(n, total, doms, t, k, Reply(inst, t.cpa, t.holder, doms[t.holder], width));
    }

    /**
     * The whole search: the token makes exactly Sweeps(it) sweeps, n turns each,
     * after which every agent holds a value of its domain.
     */
    method Run(inst: Instance, doms: seq<seq<int>>, width: nat)
      requires Valid() && RingReady(inst, doms, n, width)
      requires cpa == Unassigned(n) && rounds == 0 && holder == 0 && turns == []
      modifies this
      ensures Valid() && rounds == Sweeps(it) && turns == Schedule(n, Sweeps(it)) && |turns| == Sweeps(it) * n
      ensures forall i :: 0 <= i < n ==> cpa[i].Some? && cpa[i].value in doms[i]
      ensures finished == old(finished)
      ensures NeighborsInRing(inst, n) ==> ReportReady(inst, cpa)
    {
      var total := Sweeps(it);
      ghost var k: nat := 0;
      assert Sweep(n, 0)[..0] == [];
      while rounds < total
        invariant Valid() && OnTrack(n, total, State(), k) && Settled(doms, cpa, turns) && finished == old(finished)
        decreases total - rounds, n - k
      {
        k := Turn(inst, doms, width, total, k);
      }
      assert Sweep(n, total)[..0] == [];
      ScheduleLength(n, total);
      EveryAgentActs(n, total);
      assert forall i :: 0 <= i < n ==> cpa[i].Some? && cpa[i].value in doms[i];
      if NeighborsInRing(inst, n) {
        ReadyAfterRun(inst, doms, cpa, n);
      }
    }

    /**
     * onMailBoxEmpty once rounds >= it: the agent finishes; the last one sets the
     * overflow from the live assignment, has the builder write the line and resets
     * `rounds` for the next run.
     */
    method Finish(inst: Instance)
      requires Valid() && rounds >= it && finished < n
      requires builder.numAgents + 1 == n ==> (ValuesInRange(cpa, |inst.table|) &&
        (!builder.done ==> ReportReady(inst, cpa)))
      modifies this, builder
      ensures Valid() && cpa == old(cpa) && turns == old(turns) && finished == old(finished) + 1
      ensures old(builder.numAgents) + 1 == n ==> (rounds == 0 &&
        (!old(builder.done) ==> (builder.numAgents == 0 &&
          builder.reports == old(builder.reports) + [MakeReport(inst, cpa, TotalExcess(LoadMap(inst.table, cpa), inst.limit))])))
      ensures old(builder.numAgents) + 1 != n ==> (
        rounds == old(rounds) && builder.numAgents == old(builder.numAgents) + 1 && builder.reports == old(builder.reports))
    {
      finished := finished + 1;
      builder.Update();
      if builder.numAgents == n {
        var m := MapAssignments(inst.table, cpa);
        var extra := CalculateExtraCourses(m, inst.limit);
        builder.SetExtraCourses(extra);
        var _ := builder.Output(inst, cpa, n);
        rounds := 0;
      }
    }
  }
}
