/**
 * The builder's two-phase best response (find_max_value). Phase 1 keeps the first
 * value of highest utility whose courses would all stay within the limit after
 * the agent moves; if it accepts nothing, phase 2 keeps the value of least excess
 * and, among those, of highest utility, the last one scanned on ties.
 *
 * `FindMax` and `FindMaxValue` compute the agent's own enrolments withdrawn ONCE;
 * `FindMaxAsWritten` and `FindMaxValueAsWritten` follow the source, which
 * withdraws them again in the caller's map every time the post-move check runs.
 */
module BuilderSearch {
  import opened Common
  import opened BuilderLoads
  import opened BuilderCost

  /** The agent's own value as the search reads it: -1 when it has none yet. */
  function OwnValue(cpa: Assignment, id: int): int
  {
    if 0 <= id < |cpa| && cpa[id].Some? then cpa[id].value else -1
  }

  /** Every value of the domain can be scored for the agent. */
  predicate Scorable(inst: Instance, id: int, dom: seq<int>)
  {
    forall j :: 0 <= j < |dom| ==> Rated(inst, id, dom[j])
  }

  function Costs(inst: Instance, cpa: Assignment, id: int, dom: seq<int>): (r: seq<int>)
    requires Scorable(inst, id, dom)
    ensures |r| == |dom|
  {
    seq(|dom|, j requires 0 <= j < |dom| => AgentCost(inst, cpa, id, dom[j]))
  }

  /** Which values pass the post-move check against `base`. */
  function CleanFlags(inst: Instance, base: Loads, dom: seq<int>): (r: seq<bool>)
    requires Scorable(inst, 0, dom) || forall j :: 0 <= j < |dom| ==> 0 <= dom[j] < |inst.table|
    ensures |r| == |dom|
  {
    seq(|dom|, j requires 0 <= j < |dom| =>
      0 <= dom[j] < |inst.table| && NewKey(base, inst.limit, inst.table[dom[j]]) == "")
  }

  function Excesses(inst: Instance, base: Loads, dom: seq<int>): (r: seq<int>)
    ensures |r| == |dom|
  {
    seq(|dom|, j requires 0 <= j < |dom| =>
      if 0 <= dom[j] < |inst.table| then MinExcess(base, inst.limit, inst.table[dom[j]]) else 0)
  }

  /** (e1, c1) is at least as good as (e2, c2): less excess, or equal excess and no less utility. */
  predicate LexAtLeast(e1: int, c1: int, e2: int, c2: int)
  {
    e1 < e2 || (e1 == e2 && c1 >= c2)
  }

  /**
   * Phase 2's scan: a value replaces the best so far when its utility is no lower
   * and its excess no higher, or its excess is strictly lower.
   */
  function Phase2(dom: seq<int>, excess: seq<int>, costs: seq<int>,
                  best: int, cost: int, exceed: int): (int, int, int)
    requires |dom| == |excess| == |costs|
    decreases |dom|
  {
    if dom == [] then (best, cost, exceed)
    else if (costs[0] >= cost && excess[0] <= exceed) || excess[0] < exceed then
      Phase2(dom[1..], excess[1..], costs[1..], dom[0], costs[0], excess[0])
    else
      Phase2(dom[1..], excess[1..], costs[1..], best, cost, exceed)
  }

  /**
   * `r` is what phase 2 over positions lo.. from (best, cost, exceed) should end on:
   * the start itself when no value is lexicographically at least as good, otherwise
   * the LAST value that is lexicographically best (least excess, then highest utility).
   */
  predicate IsLexLast(dom: seq<int>, excess: seq<int>, costs: seq<int>, lo: nat,
                      best: int, cost: int, exceed: int, r: (int, int, int))
    requires |dom| == |excess| == |costs|
  {
    ((forall j :: lo <= j < |dom| ==> !LexAtLeast(excess[j], costs[j], exceed, cost)) &&
      r == (best, cost, exceed)) ||
    (exists i :: lo <= i < |dom| && r == (dom[i], costs[i], excess[i]) &&
      LexAtLeast(excess[i], costs[i], exceed, cost) &&
      (forall j :: lo <= j < |dom| ==> LexAtLeast(excess[i], costs[i], excess[j], costs[j])) &&
      (forall j :: i < j < |dom| ==> !LexAtLeast(excess[j], costs[j], excess[i], costs[i])))
  }

  /** Phase 2 either keeps its start or ends on the last lexicographically best value. */
  lemma {:induction false} Phase2Last(dom: seq<int>, excess: seq<int>, costs: seq<int>,
                                      best: int, cost: int, exceed: int)
    requires |dom| == |excess| == |costs|
    ensures IsLexLast(dom, excess, costs, 0, best, cost, exceed, Phase2(dom, excess, costs, best, cost, exceed))
  {
    if dom != [] {
      var r := Phase2(dom, excess, costs, best, cost, exceed);
      if LexAtLeast(excess[0], costs[0], exceed, cost) {
        Phase2Last(dom[1..], excess[1..], costs[1..], dom[0], costs[0], excess[0]);
        Phase2Shift(dom, excess, costs, dom[0], costs[0], excess[0], r);
        Phase2Take(dom, excess, costs, best, cost, exceed, r);
      } else {
        Phase2Last(dom[1..], excess[1..], costs[1..], best, cost, exceed);
        Phase2Shift(dom, excess, costs, best, cost, exceed, r);
        Phase2Skip(dom, excess, costs, best, cost, exceed, r);
      }
    }
  }

  /** The tail's scan, read at positions 1.. of the whole domain. */
  lemma Phase2Shift(dom: seq<int>, excess: seq<int>, costs: seq<int>, best: int, cost: int, exceed: int,
                    r: (int, int, int))
    requires |dom| == |excess| == |costs| > 0
    requires IsLexLast(dom[1..], excess[1..], costs[1..], 0, best, cost, exceed, r)
    ensures IsLexLast(dom, excess, costs, 1, best, cost, exceed, r)
  {
    assert forall j :: 1 <= j < |dom| ==>
      dom[j] == dom[1..][j - 1] && excess[j] == excess[1..][j - 1] && costs[j] == costs[1..][j - 1];
    if !(forall j :: 0 <= j < |dom| - 1 ==> !LexAtLeast(excess[1..][j], costs[1..][j], exceed, cost)) ||
       r != (best, cost, exceed) {
      var i :| 0 <= i < |dom| - 1 && r == (dom[1..][i], costs[1..][i], excess[1..][i]) &&
        LexAtLeast(excess[1..][i], costs[1..][i], exceed, cost) &&
        (forall j :: 0 <= j < |dom| - 1 ==> LexAtLeast(excess[1..][i], costs[1..][i], excess[1..][j], costs[1..][j])) &&
        (forall j :: i < j < |dom| - 1 ==> !LexAtLeast(excess[1..][j], costs[1..][j], excess[1..][i], costs[1..][i]));
      assert 1 <= i + 1 < |dom| && r == (dom[i + 1], costs[i + 1], excess[i + 1]);
    }
  }

  /** A head at least as good as the start becomes the start of the scan of positions 1.. . */
  lemma Phase2Take(dom: seq<int>, excess: seq<int>, costs: seq<int>, best: int, cost: int, exceed: int,
                   r: (int, int, int))
    requires |dom| == |excess| == |costs| > 0 && LexAtLeast(excess[0], costs[0], exceed, cost)
    requires IsLexLast(dom, excess, costs, 1, dom[0], costs[0], excess[0], r)
    ensures IsLexLast(dom, excess, costs, 0, best, cost, exceed, r)
  {
    if (forall j :: 1 <= j < |dom| ==> !LexAtLeast(excess[j], costs[j], excess[0], costs[0])) &&
       r == (dom[0], costs[0], excess[0]) {
      assert 0 <= 0 < |dom| && r == (dom[0], costs[0], excess[0]);
    } else {
      var i :| 1 <= i < |dom| && r == (dom[i], costs[i], excess[i]) &&
        LexAtLeast(excess[i], costs[i], excess[0], costs[0]) &&
        (forall j :: 1 <= j < |dom| ==> LexAtLeast(excess[i], costs[i], excess[j], costs[j])) &&
        (forall j :: i < j < |dom| ==> !LexAtLeast(excess[j], costs[j], excess[i], costs[i]));
      assert 0 <= i < |dom| && r == (dom[i], costs[i], excess[i]) && LexAtLeast(excess[i], costs[i], exceed, cost);
    }
  }

  /** A head worse than the start leaves the start of the scan of positions 1.. unchanged. */
  lemma Phase2Skip(dom: seq<int>, excess: seq<int>, costs: seq<int>, best: int, cost: int, exceed: int,
                   r: (int, int, int))
    requires |dom| == |excess| == |costs| > 0 && !LexAtLeast(excess[0], costs[0], exceed, cost)
    requires IsLexLast(dom, excess, costs, 1, best, cost, exceed, r)
    ensures IsLexLast(dom, excess, costs, 0, best, cost, exceed, r)
  {
    if !((forall j :: 1 <= j < |dom| ==> !LexAtLeast(excess[j], costs[j], exceed, cost)) &&
         r == (best, cost, exceed)) {
      var i :| 1 <= i < |dom| && r == (dom[i], costs[i], excess[i]) &&
        LexAtLeast(excess[i], costs[i], exceed, cost) &&
        (forall j :: 1 <= j < |dom| ==> LexAtLeast(excess[i], costs[i], excess[j], costs[j])) &&
        (forall j :: i < j < |dom| ==> !LexAtLeast(excess[j], costs[j], excess[i], costs[i]));
      assert 0 <= i < |dom| && r == (dom[i], costs[i], excess[i]);
    }
  }

  /** The loads the corrected search checks candidates against: own enrolments withdrawn once. */
  function Base(inst: Instance, m: Loads, cpa: Assignment, id: int): Loads
    requires OldValueCounted(inst, m, OwnValue(cpa, id))
  {
    Withdraw(inst, m, OwnValue(cpa, id))
  }

  /** Phase 1: the first clean value of highest utility above -1, or (-1, -1). */
  function Phase1(inst: Instance, cpa: Assignment, id: int, dom: seq<int>, base: Loads): (int, int)
    requires Scorable(inst, id, dom)
  {
    ArgMax(dom, Costs(inst, cpa, id, dom), CleanFlags(inst, base, dom), false, -1, -1)
  }

  /** find_max_value with the agent's own enrolments withdrawn once. */
  function FindMax(inst: Instance, cpa: Assignment, id: int, dom: seq<int>, m: Loads): int
    requires Scorable(inst, id, dom)
    requires OldValueCounted(inst, m, OwnValue(cpa, id))
  {
    var base := Base(inst, m, cpa, id);
    var (b, c) := Phase1(inst, cpa, id, dom, base);
    if b != -1 then b
    else Phase2(dom, Excesses(inst, base, dom), Costs(inst, cpa, id, dom), -1, c, IntMax).0
  }

  /** The agent's own value is counted in the enrolment map built from the same assignment. */
  lemma OwnValueCounted(inst: Instance, cpa: Assignment, id: int)
    requires ValuesInRange(cpa, |inst.table|)
    ensures OldValueCounted(inst, LoadMap(inst.table, cpa), OwnValue(cpa, id))
  {
    var own := OwnValue(cpa, id);
    if own != -1 {
      forall t | t in inst.table[own] ensures t in LoadMap(inst.table, cpa) {
        LoadMapMeaning(inst.table, cpa, t);
        assert Enrolled(inst.table, cpa, t);
      }
    }
  }

  /** Every value drawn from a scorable domain is scorable. */
  lemma ScorableSub(inst: Instance, id: int, dom: seq<int>, sub: seq<int>)
    requires Scorable(inst, id, dom)
    requires forall v :: v in sub ==> v in dom
    ensures Scorable(inst, id, sub)
  {
    forall j | 0 <= j < |sub| ensures Rated(inst, id, sub[j]) {
      assert sub[j] in sub;
      var k :| 0 <= k < |dom| && dom[k] == sub[j];
    }
  }

  /** Every domain value, scorable or not, is a row of the table. */
  lemma ScorableRows(inst: Instance, id: int, dom: seq<int>)
    requires Scorable(inst, id, dom)
    ensures forall j :: 0 <= j < |dom| ==> 0 <= dom[j] < |inst.table| && Tokens(inst.table[dom[j]])
  {
    forall j | 0 <= j < |dom| ensures 0 <= dom[j] < |inst.table| && Tokens(inst.table[dom[j]]) {
      assert Convertible(inst, dom[j]);
      var comb := inst.table[dom[j]];
      forall k | 0 <= k < |comb| ensures comb[k] != "" {
        assert |comb[k]| >= 2;
      }
    }
  }

  /** An empty domain yields -1. */
  lemma FindMaxEmpty(inst: Instance, cpa: Assignment, id: int, m: Loads)
    requires OldValueCounted(inst, m, OwnValue(cpa, id))
    ensures FindMax(inst, cpa, id, [], m) == -1
  {
  }

  /**
   * The result is -1 or a domain value; with a non-empty domain whose excess values
   * stay below Integer.MAX_VALUE it is always a domain value, so -1 means the
   * domain was empty.
   */
  lemma FindMaxInDomain(inst: Instance, cpa: Assignment, id: int, dom: seq<int>, m: Loads)
    requires Scorable(inst, id, dom)
    requires OldValueCounted(inst, m, OwnValue(cpa, id))
    ensures var r := FindMax(inst, cpa, id, dom, m);
      var bounded := forall j :: 0 <= j < |dom| ==>
        MinExcess(Base(inst, m, cpa, id), inst.limit, inst.table[dom[j]]) < IntMax;
      (r == -1 || r in dom) &&
      (dom != [] && bounded ==> r in dom && r != -1)
  {
    ScorableRows(inst, id, dom);
    var base := Base(inst, m, cpa, id);
    var costs, clean, ex := Costs(inst, cpa, id, dom), CleanFlags(inst, base, dom), Excesses(inst, base, dom);
    ArgMaxFirst(dom, costs, clean, -1, -1);
    var (b, c) := Phase1(inst, cpa, id, dom, base);
    assert forall j :: 0 <= j < |dom| ==> dom[j] != -1;
    if b == -1 {
      assert forall j :: 0 <= j < |dom| && clean[j] ==> costs[j] <= -1;
      assert c == -1;
      Phase2Last(dom, ex, costs, -1, c, IntMax);
      if dom != [] && forall j :: 0 <= j < |dom| ==> MinExcess(base, inst.limit, inst.table[dom[j]]) < IntMax {
        assert LexAtLeast(ex[0], costs[0], IntMax, c);
      }
    }
  }

  /** A value passes the post-move check iff each of its courses stays within the limit once the agent joins. */
  lemma CleanMeaning(inst: Instance, base: Loads, v: int)
    requires 0 <= v < |inst.table| && Tokens(inst.table[v])
    ensures NewKey(base, inst.limit, inst.table[v]) == "" <==>
      forall t :: t in inst.table[v] ==> t !in base || base[t] + 1 <= inst.limit
  {
    NewKeyMeaning(base, inst.limit, inst.table[v]);
    var comb := inst.table[v];
    assert (forall j :: 0 <= j < |comb| ==> comb[j] !in base || base[comb[j]] < inst.limit) <==>
           (forall t :: t in comb ==> t !in base || base[t] + 1 <= inst.limit);
  }

  /**
   * Phase 1 decides whenever some value passes the post-move check with utility
   * above -1: the result is then the first such value of highest utility, and
   * every course of it stays within the limit once the agent joins.
   */
  lemma FindMaxPhase1(inst: Instance, cpa: Assignment, id: int, dom: seq<int>, m: Loads)
    requires Scorable(inst, id, dom)
    requires OldValueCounted(inst, m, OwnValue(cpa, id))
    ensures var r := FindMax(inst, cpa, id, dom, m);
      var base := Base(inst, m, cpa, id);
      var clean := CleanFlags(inst, base, dom);
      var costs := Costs(inst, cpa, id, dom);
      (exists j :: 0 <= j < |dom| && clean[j] && costs[j] > -1) ==>
        exists i :: 0 <= i < |dom| && dom[i] == r && clean[i] && costs[i] > -1 &&
          (forall t :: t in inst.table[r] ==> t !in base || base[t] + 1 <= inst.limit) &&
          (forall j :: 0 <= j < |dom| && clean[j] ==> costs[j] <= costs[i]) &&
          (forall j :: 0 <= j < i && clean[j] ==> costs[j] < costs[i])
  {
    ScorableRows(inst, id, dom);
    var base := Base(inst, m, cpa, id);
    var costs, clean := Costs(inst, cpa, id, dom), CleanFlags(inst, base, dom);
    var r := FindMax(inst, cpa, id, dom, m);
    if exists j :: 0 <= j < |dom| && clean[j] && costs[j] > -1 {
      var i := FirstAboveNone(dom, costs, clean);
      assert dom[i] != -1 && r == dom[i];
      assert forall t :: t in inst.table[r] ==> t !in base || base[t] + 1 <= inst.limit by {
        CleanMeaning(inst, base, dom[i]);
      }
    }
  }

  /** A `>` scan from (-1, -1) that meets an eligible cost above -1 ends on the first eligible maximum. */
  lemma FirstAboveNone(dom: seq<int>, costs: seq<int>, clean: seq<bool>) returns (i: int)
    requires |dom| == |costs| == |clean|
    requires exists j :: 0 <= j < |dom| && clean[j] && costs[j] > -1
    ensures 0 <= i < |dom| && clean[i] && ArgMax(dom, costs, clean, false, -1, -1) == (dom[i], costs[i]) && costs[i] > -1
    ensures forall j :: 0 <= j < |dom| && clean[j] ==> costs[j] <= costs[i]
    ensures forall j :: 0 <= j < i && clean[j] ==> costs[j] < costs[i]
  {
    ArgMaxFirst(dom, costs, clean, -1, -1);
    var p := ArgMax(dom, costs, clean, false, -1, -1);
    i :| 0 <= i < |dom| && clean[i] && p == (dom[i], costs[i]) && costs[i] > -1 &&
      (forall j :: 0 <= j < |dom| && clean[j] ==> costs[j] <= costs[i]) &&
      (forall j :: 0 <= j < i && clean[j] ==> costs[j] < costs[i]);
  }

  /**
   * Phase 2 runs only when phase 1 found nothing; its result then has the least
   * excess and, among those, the highest utility, the last one scanned on ties.
   */
  lemma FindMaxPhase2(inst: Instance, cpa: Assignment, id: int, dom: seq<int>, m: Loads)
    requires Scorable(inst, id, dom)
    requires OldValueCounted(inst, m, OwnValue(cpa, id))
    requires forall j :: 0 <= j < |dom| ==>
      MinExcess(Base(inst, m, cpa, id), inst.limit, inst.table[dom[j]]) < IntMax
    ensures var r := FindMax(inst, cpa, id, dom, m);
      var base := Base(inst, m, cpa, id);
      var clean := CleanFlags(inst, base, dom);
      var costs := Costs(inst, cpa, id, dom);
      var ex := Excesses(inst, base, dom);
      dom != [] && (forall j :: 0 <= j < |dom| && clean[j] ==> costs[j] <= -1) ==>
        exists i :: 0 <= i < |dom| && dom[i] == r &&
          (forall j :: 0 <= j < |dom| ==> LexAtLeast(ex[i], costs[i], ex[j], costs[j])) &&
          (forall j :: i < j < |dom| ==> !LexAtLeast(ex[j], costs[j], ex[i], costs[i]))
  {
    ScorableRows(inst, id, dom);
    var base := Base(inst, m, cpa, id);
    var costs, clean, ex := Costs(inst, cpa, id, dom), CleanFlags(inst, base, dom), Excesses(inst, base, dom);
    if dom != [] && forall j :: 0 <= j < |dom| && clean[j] ==> costs[j] <= -1 {
      ArgMaxFirst(dom, costs, clean, -1, -1);
      assert Phase1(inst, cpa, id, dom, base) == (-1, -1);
      Phase2Last(dom, ex, costs, -1, -1, IntMax);
      assert LexAtLeast(ex[0], costs[0], IntMax, -1);
    }
  }

  /**
   * find_max_value, corrected: the agent's own enrolments are withdrawn once from
   * a copy of the map, then both phases scan the domain in order.
   */
  method FindMaxValue(inst: Instance, dom: seq<int>, m: Loads, cpa: Assignment, id: int)
    returns (best: int)
    requires Scorable(inst, id, dom)
    requires OldValueCounted(inst, m, OwnValue(cpa, id))
    ensures best == FindMax(inst, cpa, id, dom, m)
  {
    var oldVal := -1;
    if 0 <= id < |cpa| && cpa[id].Some? {
      oldVal := cpa[id].value;
    }
    var loads := new CourseLoads(m);
    loads.WithdrawValue(inst, oldVal);
    var base := loads.counts;
    var cost;
    best, cost := ScanClean(inst, dom, base, cpa, id);
    if best == -1 {
      best := ScanExcess(inst, dom, base, cpa, id, cost);
    }
  }

  /** Phase 1 of find_max_value: the first value of highest utility that passes the post-move check. */
  method ScanClean(inst: Instance, dom: seq<int>, base: Loads, cpa: Assignment, id: int)
    returns (best: int, cost: int)
    requires Scorable(inst, id, dom)
    ensures (best, cost) == Phase1(inst, cpa, id, dom, base)
  {
    ScorableRows(inst, id, dom);
    ghost var costs, clean := Costs(inst, cpa, id, dom), CleanFlags(inst, base, dom);
    best := -1;
    cost := -1;
    var i := 0;
    while i < |dom|
      invariant 0 <= i <= |dom|
      invariant ArgMax(dom[i..], costs[i..], clean[i..], false, best, cost) == ArgMax(dom, costs, clean, false, -1, -1)
    {
      assert dom[i..][1..] == dom[i + 1..] && costs[i..][1..] == costs[i + 1..] && clean[i..][1..] == clean[i + 1..];
      var v := dom[i];
      var c := AgentCost(inst, cpa, id, v);
      if c > cost {
        var key := NewAssignmentKey(inst, base, v);
        if key == "" {
          best := v;
          cost := c;
        }
      }
      i := i + 1;
    }
    assert dom[i..] == [];
  }

  /** Phase 2 of find_max_value: least checkMinAssignment first, then utility, the later value winning ties. */
  method ScanExcess(inst: Instance, dom: seq<int>, base: Loads, cpa: Assignment, id: int, c1: int)
    returns (best: int)
    requires Scorable(inst, id, dom)
    ensures best == Phase2(dom, Excesses(inst, base, dom), Costs(inst, cpa, id, dom), -1, c1, IntMax).0
  {
    ScorableRows(inst, id, dom);
    ghost var costs, ex := Costs(inst, cpa, id, dom), Excesses(inst, base, dom);
    best := -1;
    var cost := c1;
    var exceed := IntMax;
    var i := 0;
    while i < |dom|
      invariant 0 <= i <= |dom|
      invariant Phase2(dom[i..], ex[i..], costs[i..], best, cost, exceed) == Phase2(dom, ex, costs, -1, c1, IntMax)
    {
      assert dom[i..][1..] == dom[i + 1..] && costs[i..][1..] == costs[i + 1..] && ex[i..][1..] == ex[i + 1..];
      var v := dom[i];
      var min := MinExcess(base, inst.limit, inst.table[v]);
      var c := AgentCost(inst, cpa, id, v);
      if (c >= cost && min <= exceed) || min < exceed {
        best := v;
        cost := c;
        exceed := min;
      }
      i := i + 1;
    }
    assert dom[i..] == [];
  }

  /** Every combination of the table has at most `width` courses. */
  predicate Narrow(inst: Instance, width: nat)
  {
    forall v :: 0 <= v < |inst.table| ==> |inst.table[v]| <= width
  }

  lemma {:induction false} CountAtMost(t: Course, s: seq<Course>)
    ensures Count(t, s) <= |s|
  {
    if s != [] {
      CountAtMost(t, s[..|s| - 1]);
    }
  }

  /** With combinations of at most `width` courses, no course is held more than |cpa| * width times. */
  lemma {:induction false} LoadOfBound(inst: Instance, cpa: Assignment, t: Course, width: nat)
    requires ValuesInRange(cpa, |inst.table|) && Narrow(inst, width)
    ensures LoadOf(inst.table, cpa, t) <= |cpa| * width
  {
    if cpa != [] {
      var init := cpa[..|cpa| - 1];
      assert ValuesInRange(init, |inst.table|);
      LoadOfBound(inst, init, t, width);
      if cpa[|cpa| - 1].Some? {
        CountAtMost(t, inst.table[cpa[|cpa| - 1].value]);
      }
      assert |cpa| * width == |init| * width + width;
    }
  }

  /** checkMinAssignment stays within |comb| times the largest load, for a limit that is not negative. */
  lemma {:induction false} MinExcessBound(m: Loads, limit: int, comb: Combination, cap: nat)
    requires limit >= 0 && forall t :: t in m ==> m[t] <= cap
    ensures MinExcess(m, limit, comb) <= |comb| * cap
  {
    if comb != [] {
      MinExcessBound(m, limit, comb[..|comb| - 1], cap);
      assert |comb| * cap == (|comb| - 1) * cap + cap;
    }
  }

  /** No load of the enrolment map built from `cpa` exceeds `cap` = |cpa| * width, nor does any after the withdrawal. */
  lemma BaseBound(inst: Instance, cpa: Assignment, id: int, width: nat, cap: nat, base: Loads)
    requires ValuesInRange(cpa, |inst.table|) && Narrow(inst, width) && cap == |cpa| * width
    requires OldValueCounted(inst, LoadMap(inst.table, cpa), OwnValue(cpa, id))
    requires base == Base(inst, LoadMap(inst.table, cpa), cpa, id)
    ensures forall t :: t in base ==> base[t] <= cap
  {
    var m := LoadMap(inst.table, cpa);
    forall t | t in m ensures m[t] <= cap {
      LoadMapMeaning(inst.table, cpa, t);
      LoadOfBound(inst, cpa, t, width);
    }
  }

  /**
   * With a limit that is not negative and combinations narrow enough that no excess
   * can reach Integer.MAX_VALUE, find_max_value over a non-empty domain always lands
   * on a value of that domain.
   */
  lemma SearchLands(inst: Instance, cpa: Assignment, id: int, dom: seq<int>, width: nat)
    requires Scorable(inst, id, dom) && ValuesInRange(cpa, |inst.table|)
    requires Narrow(inst, width) && inst.limit >= 0 && width * width * |cpa| < IntMax
    requires dom != []
    ensures OldValueCounted(inst, LoadMap(inst.table, cpa), OwnValue(cpa, id))
    ensures FindMax(inst, cpa, id, dom, LoadMap(inst.table, cpa)) in dom
  {
    OwnValueCounted(inst, cpa, id);
    BaseBelowMax(inst, cpa, id, dom, width);
    FindMaxInDomain(inst, cpa, id, dom, LoadMap(inst.table, cpa));
  }

  /** Under the same bounds, no value of the domain reaches Integer.MAX_VALUE in checkMinAssignment. */
  lemma BaseBelowMax(inst: Instance, cpa: Assignment, id: int, dom: seq<int>, width: nat)
    requires Scorable(inst, id, dom) && ValuesInRange(cpa, |inst.table|)
    requires Narrow(inst, width) && inst.limit >= 0 && width * width * |cpa| < IntMax
    requires OldValueCounted(inst, LoadMap(inst.table, cpa), OwnValue(cpa, id))
    ensures forall j :: 0 <= j < |dom| ==>
      MinExcess(Base(inst, LoadMap(inst.table, cpa), cpa, id), inst.limit, inst.table[dom[j]]) < IntMax
  {
    var base := Base(inst, LoadMap(inst.table, cpa), cpa, id);
    var cap := |cpa| * width;
    Regroup(width, |cpa|);
    BaseBound(inst, cpa, id, width, cap, base);
    ScorableRows(inst, id, dom);
    ExcessesBelowMax(inst, base, dom, width, cap);
  }

  lemma Regroup(width: nat, n: nat)
    ensures width * (n * width) == width * width * n
  {
  }

  /** Every value of the domain has checkMinAssignment below Integer.MAX_VALUE when loads are at most `cap`. */
  lemma ExcessesBelowMax(inst: Instance, base: Loads, dom: seq<int>, width: nat, cap: nat)
    requires forall j :: 0 <= j < |dom| ==> 0 <= dom[j] < |inst.table|
    requires Narrow(inst, width) && inst.limit >= 0 && width * cap < IntMax
    requires forall t :: t in base ==> base[t] <= cap
    ensures forall j :: 0 <= j < |dom| ==> MinExcess(base, inst.limit, inst.table[dom[j]]) < IntMax
  {
    forall j | 0 <= j < |dom| ensures MinExcess(base, inst.limit, inst.table[dom[j]]) < IntMax {
      var comb := inst.table[dom[j]];
      MinExcessBound(base, inst.limit, comb, cap);
      assert |comb| * cap <= width * cap;
    }
  }

  // ---------------------------------------------------------------------------
  // find_max_value as written: the withdrawal repeats on every post-move check
  // ---------------------------------------------------------------------------

  /**
   * Phase 1 as written: each value whose utility beats the best so far runs
   * checkNewAssignment, which withdraws `oldVal` from `counts` again.
   */
  function Phase1AsWritten(inst: Instance, cpa: Assignment, id: int, dom: seq<int>, oldVal: int,
                           best: int, cost: int, counts: Loads): (int, int, Loads)
    requires Scorable(inst, id, dom)
    requires OldValueCounted(inst, counts, oldVal)
    decreases |dom|
  {
    if dom == [] then (best, cost, counts)
    else
      assert Rated(inst, id, dom[0]);
      var c := AgentCost(inst, cpa, id, dom[0]);
      if c > cost then
        var counts' := Withdraw(inst, counts, oldVal);
        if NewKey(counts', inst.limit, inst.table[dom[0]]) == "" then
          Phase1AsWritten(inst, cpa, id, dom[1..], oldVal, dom[0], c, counts')
        else
          Phase1AsWritten(inst, cpa, id, dom[1..], oldVal, best, cost, counts')
      else
        Phase1AsWritten(inst, cpa, id, dom[1..], oldVal, best, cost, counts)
  }

  /** find_max_value as written: the result and the caller's map afterwards. */
  function FindMaxAsWritten(inst: Instance, cpa: Assignment, id: int, dom: seq<int>, m: Loads): (int, Loads)
    requires Scorable(inst, id, dom)
    requires OldValueCounted(inst, m, OwnValue(cpa, id))
  {
    var (b, c, counts) := Phase1AsWritten(inst, cpa, id, dom, OwnValue(cpa, id), -1, -1, m);
    if b != -1 then (b, counts)
    else (Phase2(dom, Excesses(inst, counts, dom), Costs(inst, cpa, id, dom), -1, c, IntMax).0, counts)
  }

  lemma Phase1AsWrittenKeys(inst: Instance, cpa: Assignment, id: int, dom: seq<int>, oldVal: int,
                            best: int, cost: int, counts: Loads)
    requires Scorable(inst, id, dom)
    requires OldValueCounted(inst, counts, oldVal)
    ensures Phase1AsWritten(inst, cpa, id, dom, oldVal, best, cost, counts).2.Keys == counts.Keys
    decreases |dom|
  {
    if dom != [] {
      Phase1AsWrittenKeys(inst, cpa, id, dom[1..], oldVal, best, cost, counts);
      var counts' := Withdraw(inst, counts, oldVal);
      Phase1AsWrittenKeys(inst, cpa, id, dom[1..], oldVal, best, cost, counts');
      Phase1AsWrittenKeys(inst, cpa, id, dom[1..], oldVal, dom[0], AgentCost(inst, cpa, id, dom[0]), counts');
    }
  }

  /** find_max_value exactly as the source runs it on the caller's map. */
  method FindMaxValueAsWritten(loads: CourseLoads, inst: Instance, dom: seq<int>, cpa: Assignment, id: int)
    returns (best: int)
    requires Scorable(inst, id, dom)
    requires OldValueCounted(inst, loads.counts, OwnValue(cpa, id))
    modifies loads
    ensures (best, loads.counts) == FindMaxAsWritten(inst, cpa, id, dom, old(loads.counts))
  {
    var cost;
    best, cost := ScanCleanAsWritten(loads, inst, dom, cpa, id);
    if best == -1 {
      best := ScanExcess(inst, dom, loads.counts, cpa, id, cost);
    }
  }

  /** Phase 1 as written: every post-move check withdraws the old value from the caller's map again. */
  method ScanCleanAsWritten(loads: CourseLoads, inst: Instance, dom: seq<int>, cpa: Assignment, id: int)
    returns (best: int, cost: int)
    requires Scorable(inst, id, dom)
    requires OldValueCounted(inst, loads.counts, OwnValue(cpa, id))
    modifies loads
    ensures (best, cost, loads.counts) == Phase1AsWritten(inst, cpa, id, dom, OwnValue(cpa, id), -1, -1, old(loads.counts))
  {
    ScorableRows(inst, id, dom);
    var oldVal := -1;
    if 0 <= id < |cpa| && cpa[id].Some? {
      oldVal := cpa[id].value;
    }
    best := -1;
    cost := -1;
    var i := 0;
    while i < |dom|
      invariant 0 <= i <= |dom|
      invariant OldValueCounted(inst, loads.counts, oldVal)
      invariant Phase1AsWritten(inst, cpa, id, dom[i..], oldVal, best, cost, loads.counts) ==
                Phase1AsWritten(inst, cpa, id, dom, oldVal, -1, -1, old(loads.counts))
    {
      assert dom[i..][1..] == dom[i + 1..];
      var v := dom[i];
      var c := AgentCost(inst, cpa, id, v);
      if c > cost {
        var key := loads.CheckNewAssignment(inst, oldVal, v);
        if key == "" {
          best := v;
          cost := c;
        }
      }
      i := i + 1;
    }
    assert dom[i..] == [];
  }

  /** No load of `m` is above `cap`. */
  predicate Capped(m: Loads, cap: int)
  {
    forall t :: t in m ==> m[t] <= cap
  }

  /** Every course of `a` is a course of `b`, with no higher load. */
  predicate Below(a: Loads, b: Loads)
  {
    forall t :: t in a ==> t in b && a[t] <= b[t]
  }

  /** A withdrawal only lowers loads. */
  lemma WithdrawBelow(inst: Instance, m: Loads, oldVal: int)
    requires OldValueCounted(inst, m, oldVal)
    ensures Below(Withdraw(inst, m, oldVal), m) && OldValueCounted(inst, Withdraw(inst, m, oldVal), oldVal)
  {
  }

  /**
   * Phase 1 as written either keeps its start or ends on a domain value, and the
   * repeated withdrawals leave every load at or below where it started.
   */
  lemma {:induction false} Phase1AsWrittenOutcome(inst: Instance, cpa: Assignment, id: int, dom: seq<int>, oldVal: int,
                                                 best: int, cost: int, counts: Loads)
    requires Scorable(inst, id, dom)
    requires OldValueCounted(inst, counts, oldVal)
    ensures var r := Phase1AsWritten(inst, cpa, id, dom, oldVal, best, cost, counts);
      ((r.0, r.1) == (best, cost) || r.0 in dom) && Below(r.2, counts)
    decreases |dom|
  {
    if dom != [] {
      assert Rated(inst, id, dom[0]);
      var c := AgentCost(inst, cpa, id, dom[0]);
      Phase1AsWrittenOutcome(inst, cpa, id, dom[1..], oldVal, best, cost, counts);
      if c > cost {
        var counts' := Withdraw(inst, counts, oldVal);
        WithdrawBelow(inst, counts, oldVal);
        Phase1AsWrittenOutcome(inst, cpa, id, dom[1..], oldVal, best, cost, counts');
        Phase1AsWrittenOutcome(inst, cpa, id, dom[1..], oldVal, dom[0], c, counts');
      }
    }
  }

  /**
   * find_max_value as written answers -1 or a domain value, and leaves no load of the
   * caller's map higher than it was; over a non-empty domain it answers a domain value
   * whenever no checkMinAssignment on the map it leaves reaches Integer.MAX_VALUE.
   */
  lemma FindMaxAsWrittenInDomain(inst: Instance, cpa: Assignment, id: int, dom: seq<int>, m: Loads)
    requires Scorable(inst, id, dom)
    requires OldValueCounted(inst, m, OwnValue(cpa, id))
    ensures var r := FindMaxAsWritten(inst, cpa, id, dom, m);
      var bounded := forall j :: 0 <= j < |dom| ==> MinExcess(r.1, inst.limit, inst.table[dom[j]]) < IntMax;
      (r.0 == -1 || r.0 in dom) && Below(r.1, m) &&
      (dom != [] && bounded ==> r.0 in dom)
  {
    ScorableRows(inst, id, dom);
    var (b, c, counts) := Phase1AsWritten(inst, cpa, id, dom, OwnValue(cpa, id), -1, -1, m);
    Phase1AsWrittenOutcome(inst, cpa, id, dom, OwnValue(cpa, id), -1, -1, m);
    assert forall j :: 0 <= j < |dom| ==> dom[j] != -1;
    if b == -1 {
      assert c == -1;
      var costs, ex := Costs(inst, cpa, id, dom), Excesses(inst, counts, dom);
      Phase2Last(dom, ex, costs, -1, c, IntMax);
      if dom != [] && forall j :: 0 <= j < |dom| ==> MinExcess(counts, inst.limit, inst.table[dom[j]]) < IntMax {
        assert LexAtLeast(ex[0], costs[0], IntMax, c);
      }
    }
  }

  /**
   * With a limit that is not negative and combinations narrow enough that no excess
   * can reach Integer.MAX_VALUE, find_max_value as written also lands on a value of a
   * non-empty domain: its repeated withdrawals only lower the loads.
   */
  lemma SearchLandsAsWritten(inst: Instance, cpa: Assignment, id: int, dom: seq<int>, width: nat)
    requires Scorable(inst, id, dom) && ValuesInRange(cpa, |inst.table|)
    requires Narrow(inst, width) && inst.limit >= 0 && width * width * |cpa| < IntMax
    requires dom != []
    ensures OldValueCounted(inst, LoadMap(inst.table, cpa), OwnValue(cpa, id))
    ensures FindMaxAsWritten(inst, cpa, id, dom, LoadMap(inst.table, cpa)).0 in dom
  {
    OwnValueCounted(inst, cpa, id);
    var m := LoadMap(inst.table, cpa);
    FindMaxAsWrittenInDomain(inst, cpa, id, dom, m);
    ScorableRows(inst, id, dom);
    LoweredBelowMax(inst, cpa, FindMaxAsWritten(inst, cpa, id, dom, m).1, dom, width);
  }

  /** Under the same bounds, no map below the enrolment map reaches Integer.MAX_VALUE in checkMinAssignment. */
  lemma LoweredBelowMax(inst: Instance, cpa: Assignment, counts: Loads, dom: seq<int>, width: nat)
    requires forall j :: 0 <= j < |dom| ==> 0 <= dom[j] < |inst.table|
    requires ValuesInRange(cpa, |inst.table|) && Narrow(inst, width)
    requires inst.limit >= 0 && width * width * |cpa| < IntMax
    requires Below(counts, LoadMap(inst.table, cpa))
    ensures forall j :: 0 <= j < |dom| ==> MinExcess(counts, inst.limit, inst.table[dom[j]]) < IntMax
  {
    var cap := |cpa| * width;
    LoadMapCapped(inst, cpa, width);
    assert Capped(counts, cap);
    Regroup(width, |cpa|);
    ExcessesBelowMax(inst, counts, dom, width, cap);
  }

  /** The enrolment map built from `cpa` holds no load above |cpa| * width. */
  lemma LoadMapCapped(inst: Instance, cpa: Assignment, width: nat)
    requires ValuesInRange(cpa, |inst.table|) && Narrow(inst, width)
    ensures Capped(LoadMap(inst.table, cpa), |cpa| * width)
  {
    var m := LoadMap(inst.table, cpa);
    forall t | t in m ensures m[t] <= |cpa| * width {
      LoadMapMeaning(inst.table, cpa, t);
      LoadOfBound(inst, cpa, t, width);
    }
  }

  /**
   * Two one-course values with limit 1: agents 0 and 1 hold "c1", agent 2 holds
   * "c2"; agent 0 rates "c2" at 5 and nobody weighs a friend.
   */
  function WithdrawalExample(): Instance
  {
    Instance(1, [[0, 5], [0, 0], [0, 0]], [[0, 0, 0], [0, 0, 0], [0, 0, 0]], [["c1"], ["c2"]], 1, [[], [], []])
  }

  lemma ExampleLoads()
    ensures var inst := WithdrawalExample();
      ValuesInRange([Some(0), Some(0), Some(1)], |inst.table|) &&
      LoadMap(inst.table, [Some(0), Some(0), Some(1)]) == map["c1" := 2, "c2" := 1]
  {
    var inst := WithdrawalExample();
    var cpa := [Some(0), Some(0), Some(1)];
    var c1, c2 := inst.table[0], inst.table[1];
    assert c1[..0] == [] && c2[..0] == [];
    assert AddCourses(map[], c1) == map["c1" := 1];
    assert AddCourses(map["c1" := 1], c1) == map["c1" := 2];
    assert AddCourses(map["c1" := 2], c2) == map["c1" := 2, "c2" := 1];
    assert cpa[..1][..0] == [] && cpa[..2][..1] == cpa[..1] && cpa[..3][..2] == cpa[..2] && cpa[..3] == cpa;
    assert LoadMap(inst.table, cpa[..1]) == map["c1" := 1];
    assert LoadMap(inst.table, cpa[..2]) == map["c1" := 2];
  }

  lemma ExampleCosts(cpa: Assignment)
    ensures var inst := WithdrawalExample();
      Rated(inst, 0, 1) && Rated(inst, 0, 0) &&
      AgentCost(inst, cpa, 0, 1) == 5 && AgentCost(inst, cpa, 0, 0) == 0
  {
    var inst := WithdrawalExample();
    assert Courses(inst, 0) == [0];
    assert Courses(inst, 1) == [1];
    assert Rated(inst, 0, 1) && Rated(inst, 0, 0);
    assert Unary(inst, 0, [1]) == 5 && Unary(inst, 0, [0]) == 0;
    BinaryUpToNoFriends(inst, cpa, 0, [1], 3);
    BinaryUpToNoFriends(inst, cpa, 0, [0], 3);
  }

  lemma ScorablePair(inst: Instance, id: int, a: int, b: int)
    requires Rated(inst, id, a) && Rated(inst, id, b)
    ensures Scorable(inst, id, [a, b]) && Scorable(inst, id, [b]) && Scorable(inst, id, [])
  {
  }

  lemma ExampleWithdraw()
    ensures var inst := WithdrawalExample();
      OldValueCounted(inst, map["c1" := 2, "c2" := 1], 0) &&
      Withdraw(inst, map["c1" := 2, "c2" := 1], 0) == map["c1" := 1, "c2" := 1] &&
      Withdraw(inst, map["c1" := 1, "c2" := 1], 0) == map["c1" := 0, "c2" := 1]
  {
    var comb: Combination := ["c1"];
    assert comb[..0] == [];
    assert Count("c1", comb) == 1 && Count("c2", comb) == 0;
  }

  lemma ExampleKeys()
    ensures NewKey(map["c1" := 1, "c2" := 1], 1, ["c2"]) == "c2"
    ensures NewKey(map["c1" := 1, "c2" := 1], 1, ["c1"]) == "c1"
    ensures NewKey(map["c1" := 0, "c2" := 1], 1, ["c1"]) == ""
    ensures MinExcess(map["c1" := 1, "c2" := 1], 1, ["c2"]) == 0
    ensures MinExcess(map["c1" := 1, "c2" := 1], 1, ["c1"]) == 0
  {
    var c1: Combination, c2: Combination := ["c1"], ["c2"];
    assert c1[1..] == [] && c2[1..] == [] && c1[..0] == [] && c2[..0] == [];
    assert LoadsAt(map["c1" := 1, "c2" := 1], c2) == [1];
    assert LoadsAt(map["c1" := 1, "c2" := 1], c1) == [1];
    assert LoadsAt(map["c1" := 0, "c2" := 1], c1) == [0];
  }

  /** Phase 1 as written over a two-value domain whose first value fails its check and whose second passes its own. */
  lemma AsWrittenPair(inst: Instance, cpa: Assignment, id: int, a: int, b: int, oldVal: int,
                      m: Loads, once: Loads, twice: Loads)
    requires Rated(inst, id, a) && Rated(inst, id, b)
    requires OldValueCounted(inst, m, oldVal) && once == Withdraw(inst, m, oldVal)
    requires OldValueCounted(inst, once, oldVal) && twice == Withdraw(inst, once, oldVal)
    requires AgentCost(inst, cpa, id, a) > -1 && NewKey(once, inst.limit, inst.table[a]) != ""
    requires AgentCost(inst, cpa, id, b) > -1 && NewKey(twice, inst.limit, inst.table[b]) == ""
    ensures Scorable(inst, id, [a, b])
    ensures Phase1AsWritten(inst, cpa, id, [a, b], oldVal, -1, -1, m) == (b, AgentCost(inst, cpa, id, b), twice)
  {
    ScorablePair(inst, id, a, b);
    assert [a, b][1..] == [b] && [b][1..] == [];
    assert Phase1AsWritten(inst, cpa, id, [b], oldVal, -1, -1, once) == (b, AgentCost(inst, cpa, id, b), twice);
  }

  lemma ExampleAsWritten(inst: Instance, cpa: Assignment, m: Loads)
    requires inst == WithdrawalExample() && cpa == [Some(0), Some(0), Some(1)]
    requires m == map["c1" := 2, "c2" := 1]
    ensures Scorable(inst, 0, [1, 0]) && OldValueCounted(inst, m, OwnValue(cpa, 0)) &&
      FindMaxAsWritten(inst, cpa, 0, [1, 0], m) == (0, map["c1" := 0, "c2" := 1])
  {
    ExampleCosts(cpa);
    ExampleWithdraw();
    ExampleKeys();
    assert OwnValue(cpa, 0) == 0;
    AsWrittenPair(inst, cpa, 0, 1, 0, 0, m, map["c1" := 1, "c2" := 1], map["c1" := 0, "c2" := 1]);
  }

  lemma ExampleCorrectedPhase1(cpa: Assignment)
    ensures var inst := WithdrawalExample();
      Scorable(inst, 0, [1, 0]) &&
      Phase1(inst, cpa, 0, [1, 0], map["c1" := 1, "c2" := 1]) == (-1, -1)
  {
    var inst := WithdrawalExample();
    var once: Loads := map["c1" := 1, "c2" := 1];
    ExampleCosts(cpa);
    ExampleKeys();
    ScorablePair(inst, 0, 1, 0);
    var clean := CleanFlags(inst, once, [1, 0]);
    assert clean[0] == false && clean[1] == false;
    var costs := Costs(inst, cpa, 0, [1, 0]);
    assert [1, 0][1..] == [0] && [0][1..] == [];
    assert ArgMax([0], costs[1..], clean[1..], false, -1, -1) == (-1, -1);
  }

  /** Phase 2 over two values of equal excess keeps the one of higher utility. */
  lemma Phase2Pair(a: int, b: int, e: int, ca: int, cb: int)
    requires e < IntMax && ca > cb
    ensures Phase2([a, b], [e, e], [ca, cb], -1, -1, IntMax).0 == a
  {
    assert [a, b][1..] == [b] && [e, e][1..] == [e] && [ca, cb][1..] == [cb];
    assert [b][1..] == [] && [e][1..] == [] && [cb][1..] == [];
    assert Phase2([b], [e], [cb], a, ca, e) == (a, ca, e);
  }

  lemma ExampleCorrected(inst: Instance, cpa: Assignment, m: Loads)
    requires inst == WithdrawalExample() && cpa == [Some(0), Some(0), Some(1)]
    requires m == map["c1" := 2, "c2" := 1]
    ensures Scorable(inst, 0, [1, 0]) && OldValueCounted(inst, m, OwnValue(cpa, 0)) &&
      Base(inst, m, cpa, 0) == map["c1" := 1, "c2" := 1] &&
      FindMax(inst, cpa, 0, [1, 0], m) == 1
  {
    var once: Loads := map["c1" := 1, "c2" := 1];
    var dom := [1, 0];
    ExampleCosts(cpa);
    ExampleWithdraw();
    ExampleKeys();
    ScorablePair(inst, 0, 1, 0);
    assert OwnValue(cpa, 0) == 0;
    ExampleCorrectedPhase1(cpa);
    var ex := Excesses(inst, once, dom);
    assert ex == [0, 0];
    var costs := Costs(inst, cpa, 0, dom);
    assert costs == [5, 0];
    Phase2Pair(1, 0, 0, 5, 0);
  }

  /**
   * The repeated withdrawal makes phase 1 accept a value whose course is over the
   * limit after the move: scanning [1, 0] for agent 0 on the enrolment map of the
   * example, the check of value 1 takes agent 0 out of "c1" once, the check of
   * value 0 takes it out again, so "c1" reads 0 and value 0 passes, although with
   * agent 0 in it "c1" holds 2 > 1. Withdrawing once, no value passes and phase 2
   * picks value 1 (same excess, higher utility).
   */
  lemma RepeatedWithdrawal()
    ensures var inst := WithdrawalExample();
      var cpa := [Some(0), Some(0), Some(1)];
      var m := map["c1" := 2, "c2" := 1];
      ValuesInRange(cpa, |inst.table|) && m == LoadMap(inst.table, cpa) &&
      Scorable(inst, 0, [1, 0]) && OldValueCounted(inst, m, OwnValue(cpa, 0)) &&
      FindMaxAsWritten(inst, cpa, 0, [1, 0], m).0 == 0 &&
      Base(inst, m, cpa, 0)["c1"] + 1 > inst.limit &&
      FindMax(inst, cpa, 0, [1, 0], m) == 1
  {
    ExampleLoads();
    ExampleAsWritten(WithdrawalExample(), [Some(0), Some(0), Some(1)], map["c1" := 2, "c2" := 1]);
    ExampleCorrected(WithdrawalExample(), [Some(0), Some(0), Some(1)], map["c1" := 2, "c2" := 1]);
  }
}
