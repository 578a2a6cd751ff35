/**
 * DSA_RCUnary: the repair search of DSA_RC with three differences. Each agent keeps
 * its own incumbent (compared against the builder's shared best overflow), the
 * fallback scan ranks values by the framework's added cost and lets a later value
 * win ties, and the best response comes from the builder's unary search.
 */
module DsaRcUnary {
  import opened Common
  import opened BuilderLoads
  import opened BuilderReport
  import opened Strategies
  import opened DsaRc

  /** What a tick needs: the view's values and the domain's values index the table. */
  predicate UnaryReady(inst: Instance, dom: seq<int>, cpa: Assignment)
  {
    ValuesInRange(cpa, |inst.table|) && DomainRows(inst, dom) && |inst.table| > 0
  }

  /**
   * The value-changing part of a tick below the budget. `betaDraw` is the draw of the
   * repair test and `alphaDraw` the draw of the exploration test (each is taken only
   * on its own branch); `added` is calcAddedCost and `maxUnary` the builder's unary
   * best response.
   */
  function DecideUnary(inst: Instance, dom: seq<int>, cpa: Assignment, submitted: Option<int>,
                       betaDraw: real, alphaDraw: real, alpha: real,
                       added: int -> int, maxUnary: seq<int> -> int): Decision
    requires UnaryReady(inst, dom, cpa)
  {
    var m := LoadMap(inst.table, cpa);
    var key := BetaKey(inst, m, submitted);
    if key != "" then
      if betaDraw < Beta(m, inst.limit, key) then
        if |CleanCourses(m, inst.limit, false)| >= |inst.table[0]| then
          Reassign(maxUnary(WithoutKey(inst, dom, key)))
        else
          var covering := CoveringValues(inst, m, dom);
          Reassign(ArgMax(covering, AddedCosts(covering, added), AllOk(|covering|), true, 0, -1).0)
      else Keep
    else if alphaDraw < alpha then Reassign(maxUnary(dom))
    else Keep
  }

  /**
   * With an overloaded course the value changes iff the repair draw is below beta;
   * otherwise iff the exploration draw is below alpha. A repair asks the unary search
   * over exactly the domain values without the overloaded course (when enough courses
   * are strictly below the limit), or lands on a value holding every course within
   * the limit whose added cost no other such value beats, with 0 as the default.
   */
  lemma DecideUnaryMeaning(inst: Instance, dom: seq<int>, cpa: Assignment, submitted: Option<int>,
                           betaDraw: real, alphaDraw: real, alpha: real,
                           added: int -> int, maxUnary: seq<int> -> int)
    requires UnaryReady(inst, dom, cpa)
    ensures var m := LoadMap(inst.table, cpa);
      var key := BetaKey(inst, m, submitted);
      var d := DecideUnary(inst, dom, cpa, submitted, betaDraw, alphaDraw, alpha, added, maxUnary);
      (key != "" ==> (d.Reassign? <==> betaDraw < Beta(m, inst.limit, key))) &&
      (key == "" ==> (d.Reassign? <==> alphaDraw < alpha)) &&
      (key != "" && d.Reassign? && |CleanCourses(m, inst.limit, false)| >= |inst.table[0]| ==>
        exists r: seq<int> :: d.value == maxUnary(r) &&
          forall v :: v in r <==> v in dom && 0 <= v < |inst.table| && key !in inst.table[v]) &&
      (key != "" && d.Reassign? && |CleanCourses(m, inst.limit, false)| < |inst.table[0]| ==>
        d.value == 0 ||
        (d.value in dom && Covers(inst, m, d.value) &&
         forall w :: w in CoveringValues(inst, m, dom) ==> added(w) <= added(d.value))) &&
      (key == "" && d.Reassign? ==> d.value == maxUnary(dom))
  {
    var m := LoadMap(inst.table, cpa);
    var key := BetaKey(inst, m, submitted);
    if key != "" && betaDraw < Beta(m, inst.limit, key) {
      if |CleanCourses(m, inst.limit, false)| >= |inst.table[0]| {
        WithoutKeyMeaning(inst, dom, key);
      } else {
        var covering := CoveringValues(inst, m, dom);
        var costs := AddedCosts(covering, added);
        CoveringValuesMeaning(inst, m, dom);
        LooseFallback(covering, costs);
        var r := ArgMax(covering, costs, AllOk(|covering|), true, 0, -1).0;
        if r != 0 {
          var i :| 0 <= i < |covering| && r == covering[i] &&
            (forall j :: 0 <= j < |covering| ==> costs[j] <= costs[i]);
          forall w | w in covering ensures added(w) <= added(r) {
            var j :| 0 <= j < |covering| && covering[j] == w;
            assert costs[j] <= costs[i];
          }
        }
      }
    }
  }

  /**
   * The value a tick below the budget chooses: the regime test, then validDomain
   * with the unary search, or noValidDomain drained with `>=` from (0, -1); with no
   * overloaded course, the unary search over the whole domain.
   */
  method ChooseValueUnary(inst: Instance, dom: seq<int>, cpa: Assignment, submitted: Option<int>,
                          betaDraw: real, alphaDraw: real, alpha: real,
                          added: int -> int, maxUnary: seq<int> -> int) returns (d: Decision)
    requires UnaryReady(inst, dom, cpa)
    ensures d == DecideUnary(inst, dom, cpa, submitted, betaDraw, alphaDraw, alpha, added, maxUnary)
  {
    var m := MapAssignments(inst.table, cpa);
    var key: Course := "";
    if submitted.Some? && 0 <= submitted.value < |inst.table| {
      key := CheckSelfAssignment(inst, submitted.value, m);
    }
    assert key == BetaKey(inst, m, submitted);
    if key != "" {
      if betaDraw < Beta(m, inst.limit, key) {
        var clean := CountClean(m, inst.limit, false);
        if clean >= |inst.table[0]| {
          var valid := ValidDomain(inst, dom, key);
          d := Reassign(maxUnary(valid));
        } else {
          var covering := NoValidDomain(inst, m, dom);
          var v, _ := ScanBest(covering, AddedCosts(covering, added), AllOk(|covering|), true, 0, -1);
          d := Reassign(v);
        }
      } else {
        d := Keep;
      }
    } else if alphaDraw < alpha {
      d := Reassign(maxUnary(dom));
    } else {
      d := Keep;
    }
  }

  /** The statics of DSA_RCUnary: the builder while it exists and the two utility arrays. */
  class UnaryShared {
    const builder: Aggregator
    var live: bool
    var arraysLive: bool

    constructor(b: Aggregator)
      ensures builder == b && !live && !arraysLive
    {
      builder := b;
      live := false;
      arraysLive := false;
    }
  }

  class UnaryAgent {
    const id: int
    const n: int
    const it: int
    const alpha: real
    var cpa: Assignment
    var submitted: Option<int>
    var bestCpa: Option<Assignment>
    var outbox: seq<Message>
    var finished: bool
    var finalValue: Option<int>

    /** The agent's own slot of its view always holds the value it submitted. */
    predicate Valid()
      reads this
    {
      0 <= id < n && |cpa| == n && cpa[id] == submitted
    }

    constructor(id: int, n: int, it: int, alpha: real)
      requires 0 <= id < n
      ensures this.id == id && this.n == n && this.it == it && this.alpha == alpha
      ensures cpa == Unassigned(n) && submitted == None && bestCpa == None
      ensures outbox == [] && !finished && Valid()
    {
      this.id := id;
      this.n := n;
      this.it := it;
      this.alpha := alpha;
      cpa := Unassigned(n);
      submitted := None;
      bestCpa := None;
      outbox := [];
      finished := false;
      finalValue := None;
    }

    /** assignNewValue: record the value locally, submit it and broadcast it. */
    method AssignNewValue(v: int)
      requires Valid()
      modifies this
      ensures Valid()
      ensures cpa == old(cpa)[id := Some(v)] && submitted == Some(v)
      ensures outbox == old(outbox) + [Assign(id, v)]
      ensures bestCpa == old(bestCpa) && finished == old(finished) && finalValue == old(finalValue)
    {
      cpa := cpa[id := Some(v)];
      submitted := Some(v);
      outbox := outbox + [Assign(id, v)];
    }

    /** start: the first agent creates the builder and the arrays; every agent starts from an empty view and takes a random first value. */
    method Start(s: UnaryShared, pick: int)
      requires 0 <= id < n
      modifies this, s, s.builder
      ensures Valid() && s.live
      ensures cpa == Unassigned(n)[id := Some(pick)] && submitted == Some(pick)
      ensures outbox == old(outbox) + [Assign(id, pick)] && bestCpa == old(bestCpa)
      ensures !old(s.live) ==> (s.arraysLive &&
        s.builder.numAgents == 0 && s.builder.extraCourses == IntMax && !s.builder.done)
      ensures old(s.live) ==> (s.builder.numAgents == old(s.builder.numAgents) &&
        s.builder.extraCourses == old(s.builder.extraCourses) && s.builder.done == old(s.builder.done) &&
        s.arraysLive == old(s.arraysLive))
      ensures s.builder.reports == old(s.builder.reports)
    {
      if !s.live {
        s.builder.Rebuild();
        s.live := true;
        s.arraysLive := true;
      }
      cpa := Unassigned(n);
      submitted := None;
      AssignNewValue(pick);
    }

    /** handleAssignment: another agent's broadcast value. */
    method HandleAssignment(i: int, v: int)
      requires Valid() && 0 <= i < n && i != id
      modifies this
      ensures Valid() && cpa == old(cpa)[i := Some(v)]
      ensures submitted == old(submitted) && outbox == old(outbox) && bestCpa == old(bestCpa)
      ensures finished == old(finished) && finalValue == old(finalValue)
    {
      cpa := cpa[i := Some(v)];
    }

    /**
     * onMailBoxEmpty at the tick budget: the agent finishes with its submitted value;
     * the last one drops the builder and resets the utility arrays (the line itself
     * is written by outputUnary, which this model leaves out).
     */
    method Finish(s: UnaryShared)
      requires Valid() && s.live && !finished
      modifies this, s, s.builder
      ensures Valid() && finished && finalValue == old(submitted)
      ensures cpa == old(cpa) && submitted == old(submitted) && outbox == old(outbox) && bestCpa == old(bestCpa)
      ensures s.builder.numAgents == old(s.builder.numAgents) + 1 && s.builder.reports == old(s.builder.reports)
      ensures s.live <==> s.builder.numAgents != n
      ensures s.arraysLive <==> old(s.arraysLive) && s.builder.numAgents != n
    {
      s.builder.Update();
      finished := true;
      finalValue := submitted;
      if s.builder.numAgents == n {
        s.live := false;
        s.arraysLive := false;
      }
    }

    /**
     * onMailBoxEmpty below the tick budget: the agent's own incumbent follows the
     * anytime rule against the shared best overflow, then `DecideUnary` applies.
     */
    method Tick(s: UnaryShared, inst: Instance, dom: seq<int>, betaDraw: real, alphaDraw: real,
                calcCost: Assignment -> int, added: int -> int, maxUnary: seq<int> -> int)
      requires Valid() && s.live && !finished && UnaryReady(inst, dom, cpa)
      modifies this, s.builder
      ensures Valid() && !finished
      ensures (bestCpa, s.builder.extraCourses) ==
        Anytime(old(bestCpa), old(s.builder.extraCourses), old(cpa),
                TotalExcess(LoadMap(inst.table, old(cpa)), inst.limit), calcCost)
      ensures s.builder.numAgents == old(s.builder.numAgents) && s.builder.done == old(s.builder.done)
      ensures s.builder.reports == old(s.builder.reports)
      ensures match DecideUnary(inst, dom, old(cpa), old(submitted), betaDraw, alphaDraw, alpha, added, maxUnary)
        case Keep => cpa == old(cpa) && submitted == old(submitted) && outbox == old(outbox)
        case Reassign(v) => (cpa == old(cpa)[id := Some(v)] && submitted == Some(v) &&
          outbox == old(outbox) + [Assign(id, v)])
    {
      var m := MapAssignments(inst.table, cpa);
      var extra := CalculateExtraCourses(m, inst.limit);
      if bestCpa.None? || extra < s.builder.extraCourses ||
         (extra == s.builder.extraCourses && calcCost(cpa) > calcCost(bestCpa.value)) {
        bestCpa := Some(cpa);
        s.builder.SetExtraCourses(extra);
      }
      var d := ChooseValueUnary(inst, dom, cpa, submitted, betaDraw, alphaDraw, alpha, added, maxUnary);
      if d.Reassign? {
        AssignNewValue(d.value);
      }
    }
  }
}
