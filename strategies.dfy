/**
 * Decision pieces the repair agents share: the domain filters validDomain and
 * noValidDomain, the clean-course count that picks between them, the beta
 * probability, the two-key anytime incumbent rule, and the best-value scan.
 */
module Strategies {
  import opened Common
  import opened BuilderLoads

  // ---------------------------------------------------------------------------
  // validDomain: drop the values that contain the overloaded course
  // ---------------------------------------------------------------------------

  /** The domain, in scan order, without the values whose combination contains `key`. */
  function WithoutKey(inst: Instance, dom: seq<int>, key: Course): seq<int>
    requires DomainRows(inst, dom)
  {
    if dom == [] then []
    else
      var last := dom[|dom| - 1];
      WithoutKey(inst, dom[..|dom| - 1], key) + (if key in inst.table[last] then [] else [last])
  }

  /** validDomain keeps exactly the values whose combination lacks `key`, and never adds one. */
  lemma {:induction false} WithoutKeyMeaning(inst: Instance, dom: seq<int>, key: Course)
    requires DomainRows(inst, dom)
    ensures |WithoutKey(inst, dom, key)| <= |dom| && DomainRows(inst, WithoutKey(inst, dom, key))
    ensures forall v :: v in WithoutKey(inst, dom, key) <==>
      v in dom && 0 <= v < |inst.table| && key !in inst.table[v]
  {
    if dom != [] {
      var init := dom[..|dom| - 1];
      WithoutKeyMeaning(inst, init, key);
      assert dom == init + [dom[|dom| - 1]];
    }
  }

  /** validDomain: each value is dropped as soon as one of its courses equals `key`. */
  method ValidDomain(inst: Instance, dom: seq<int>, key: Course) returns (r: seq<int>)
    requires DomainRows(inst, dom)
    ensures r == WithoutKey(inst, dom, key)
  {
    r := [];
    var i := 0;
    while i < |dom|
      invariant 0 <= i <= |dom|
      invariant r == WithoutKey(inst, dom[..i], key)
    {
      assert dom[..i + 1][..i] == dom[..i];
      var comb := inst.table[dom[i]];
      var found := false;
      var k := 0;
      while k < |comb| && !found
        invariant 0 <= k <= |comb|
        invariant found <==> key in comb[..k]
      {
        assert comb[..k + 1] == comb[..k] + [comb[k]];
        if comb[k] == key {
          found := true;
        }
        k := k + 1;
      }
      assert found <==> key in comb by {
        if !found {
          assert comb[..k] == comb;
        }
      }
      if !found {
        r := r + [dom[i]];
      }
      i := i + 1;
    }
    assert dom[..i] == dom;
  }

  // ---------------------------------------------------------------------------
  // noValidDomain: keep the values that contain every course still within the limit
  // ---------------------------------------------------------------------------

  /** The courses whose load is at most the limit (validCourses). */
  function ValidCourses(m: Loads, limit: int): set<Course>
  {
    set t | t in m && m[t] <= limit
  }

  /** How many positions of `comb` hold a course of `valid` (courses_contained). */
  function CountIn(comb: Combination, valid: set<Course>): nat
  {
    if comb == [] then 0
    else CountIn(comb[..|comb| - 1], valid) + (if comb[|comb| - 1] in valid then 1 else 0)
  }

  /** noValidDomain's test for one value: it contains as many valid courses as there are. */
  predicate Covers(inst: Instance, m: Loads, v: int)
    requires 0 <= v < |inst.table|
  {
    CountIn(inst.table[v], ValidCourses(m, inst.limit)) == |ValidCourses(m, inst.limit)|
  }

  function CoveringValues(inst: Instance, m: Loads, dom: seq<int>): seq<int>
    requires DomainRows(inst, dom)
  {
    if dom == [] then []
    else
      var last := dom[|dom| - 1];
      CoveringValues(inst, m, dom[..|dom| - 1]) + (if Covers(inst, m, last) then [last] else [])
  }

  lemma {:induction false} CoveringValuesMeaning(inst: Instance, m: Loads, dom: seq<int>)
    requires DomainRows(inst, dom)
    ensures |CoveringValues(inst, m, dom)| <= |dom|
    ensures forall v :: v in CoveringValues(inst, m, dom) <==>
      v in dom && 0 <= v < |inst.table| && Covers(inst, m, v)
  {
    if dom != [] {
      var init := dom[..|dom| - 1];
      CoveringValuesMeaning(inst, m, init);
      assert dom == init + [dom[|dom| - 1]];
    }
  }

  /** In a combination without repeated courses, the count is the number of valid courses it holds. */
  lemma {:induction false} CountInDuplicateFree(comb: Combination, valid: set<Course>)
    requires DuplicateFree(comb)
    ensures CountIn(comb, valid) == |valid * Elems(comb)|
  {
    if comb != [] {
      var init, last := comb[..|comb| - 1], comb[|comb| - 1];
      CountInDuplicateFree(init, valid);
      assert last !in init;
      if last in valid {
        assert valid * Elems(comb) == valid * Elems(init) + {last};
      } else {
        assert valid * Elems(comb) == valid * Elems(init);
      }
    }
  }

  /** A subset as large as its superset is the whole superset. */
  lemma SubsetSize<T>(a: set<T>, b: set<T>)
    requires a <= b
    ensures |a| <= |b|
    ensures |a| == |b| <==> a == b
  {
    assert b == a + (b - a);
    assert a * (b - a) == {};
    if |a| == |b| {
      assert |b - a| == 0;
    }
  }

  /**
   * For a combination without repeated courses, noValidDomain keeps the value iff
   * every course within the limit belongs to it (validCourses is a subset of it).
   */
  lemma CoversMeaning(inst: Instance, m: Loads, v: int)
    requires 0 <= v < |inst.table| && DuplicateFree(inst.table[v])
    ensures Covers(inst, m, v) <==> forall t :: t in m && m[t] <= inst.limit ==> t in inst.table[v]
  {
    var valid := ValidCourses(m, inst.limit);
    var mine := Elems(inst.table[v]);
    CountInDuplicateFree(inst.table[v], valid);
    SubsetSize(valid * mine, valid);
    assert forall t :: t in valid <==> t in m && m[t] <= inst.limit;
    assert valid * mine == valid <==> forall t :: t in valid ==> t in mine;
  }

  /** noValidDomain, as the source builds it: first the list of valid courses, then a count per value. */
  method NoValidDomain(inst: Instance, m: Loads, dom: seq<int>) returns (r: seq<int>)
    requires DomainRows(inst, dom)
    ensures r == CoveringValues(inst, m, dom)
  {
    var valid := CollectValid(m, inst.limit);
    r := [];
    var i := 0;
    while i < |dom|
      invariant 0 <= i <= |dom|
      invariant r == CoveringValues(inst, m, dom[..i])
    {
      assert dom[..i + 1][..i] == dom[..i];
      var contained := CountContained(inst.table[dom[i]], valid);
      if contained == |valid| {
        r := r + [dom[i]];
      }
      i := i + 1;
    }
    assert dom[..i] == dom;
  }

  /** The loop over the map that gathers the courses within the limit. */
  method CollectValid(m: Loads, limit: int) returns (valid: set<Course>)
    ensures valid == ValidCourses(m, limit)
  {
    valid := {};
    var keys := m.Keys;
    while keys != {}
      invariant keys <= m.Keys && valid <= m.Keys - keys
      invariant forall u :: u in m.Keys - keys ==> (u in valid <==> m[u] <= limit)
      decreases |keys|
    {
      var t :| t in keys;
      if m[t] <= limit {
        valid := valid + {t};
      }
      keys := keys - {t};
    }
  }

  /** courses_contained: the loop over a combination that counts its valid courses. */
  method CountContained(comb: Combination, valid: set<Course>) returns (contained: nat)
    ensures contained == CountIn(comb, valid)
  {
    contained := 0;
    var k := 0;
    while k < |comb|
      invariant 0 <= k <= |comb|
      invariant contained == CountIn(comb[..k], valid)
    {
      assert comb[..k + 1][..k] == comb[..k];
      if comb[k] in valid {
        contained := contained + 1;
      }
      k := k + 1;
    }
    assert comb[..k] == comb;
  }

  // ---------------------------------------------------------------------------
  // The regime test: how many courses are still clean
  // ---------------------------------------------------------------------------

  /** Courses whose load is below the limit (`inclusive`: at most the limit). */
  function CleanCourses(m: Loads, limit: int, inclusive: bool): set<Course>
  {
    set t | t in m && (m[t] < limit || (inclusive && m[t] == limit))
  }

  /**
   * Counting with < never gives more than counting with <=, and the two agree
   * exactly when no course sits at the limit.
   */
  lemma CleanCountOrder(m: Loads, limit: int)
    ensures |CleanCourses(m, limit, false)| <= |CleanCourses(m, limit, true)|
    ensures |CleanCourses(m, limit, false)| == |CleanCourses(m, limit, true)| <==>
      forall t :: t in m ==> m[t] != limit
  {
    var strict, loose := CleanCourses(m, limit, false), CleanCourses(m, limit, true);
    SubsetSize(strict, loose);
    if exists t :: t in m && m[t] == limit {
      var t :| t in m && m[t] == limit;
      assert t in loose && t !in strict;
    } else {
      assert strict == loose;
    }
  }

  /** The loop over the map's values that counts the clean courses. */
  method CountClean(m: Loads, limit: int, inclusive: bool) returns (n: nat)
    ensures n == |CleanCourses(m, limit, inclusive)|
  {
    n := 0;
    var keys := m.Keys;
    ghost var clean: set<Course> := {};
    while keys != {}
      invariant keys <= m.Keys && clean <= m.Keys - keys && n == |clean|
      invariant forall u :: u in m.Keys - keys ==> (u in clean <==> m[u] < limit || (inclusive && m[u] == limit))
      decreases |keys|
    {
      var t :| t in keys;
      if m[t] < limit || (inclusive && m[t] == limit) {
        n := n + 1;
        clean := clean + {t};
      }
      keys := keys - {t};
    }
    assert clean == CleanCourses(m, limit, inclusive);
  }

  // ---------------------------------------------------------------------------
  // Beta: the probability of leaving an overloaded course
  // ---------------------------------------------------------------------------

  /** (load - limit) / load of the course, in exact rational arithmetic. */
  function Beta(m: Loads, limit: int, key: Course): real
    requires key in m && m[key] != 0
  {
    (m[key] - limit) as real / m[key] as real
  }

  /** A quotient by a positive denominator compares with 0 and 1 as its numerator compares with 0 and the denominator. */
  lemma Ratio(num: real, den: real)
    requires den > 0.0
    ensures num / den > 0.0 <==> num > 0.0
    ensures num / den <= 1.0 <==> num <= den
    ensures num / den < 1.0 <==> num < den
  {
    var q := num / den;
    assert q * den == num;
    if q > 0.0 { assert q * den > 0.0; }
    if q <= 1.0 { assert q * den <= 1.0 * den; }
    if q > 1.0 { assert q * den > 1.0 * den; }
    if q < 1.0 { assert q * den < 1.0 * den; }
    if q >= 1.0 { assert q * den >= 1.0 * den; }
  }

  /**
   * For an overloaded course of positive load, beta is positive; it is at most 1
   * iff the limit is not negative, and below 1 iff the limit is positive.
   */
  lemma BetaRange(m: Loads, limit: int, key: Course)
    requires Hot(m, limit, key)
    ensures 0.0 < Beta(m, limit, key)
    ensures Beta(m, limit, key) <= 1.0 <==> limit >= 0
    ensures Beta(m, limit, key) < 1.0 <==> limit > 0
  {
    Ratio((m[key] - limit) as real, m[key] as real);
  }

  /** What a tick does to the agent's value: keep it, or assign (and broadcast) `value`. */
  datatype Decision = Keep | Reassign(value: int)

  // ---------------------------------------------------------------------------
  // The anytime incumbent
  // ---------------------------------------------------------------------------

  /**
   * The two-key anytime rule: `cpa` replaces the incumbent when there is none, when
   * its overflow is strictly lower than the shared best, or when it is equal and
   * its cost is strictly higher.
   */
  predicate Improves(best: Option<Assignment>, bestExtra: int, extra: int, cost: int, bestCost: int)
  {
    best.None? || extra < bestExtra || (extra == bestExtra && cost > bestCost)
  }

  /** The anytime step: the incumbent and the shared best overflow after one tick. */
  function Anytime(best: Option<Assignment>, bestExtra: int, cpa: Assignment, extra: int,
                   calcCost: Assignment -> int): (r: (Option<Assignment>, int))
    ensures r.0.Some?
  {
    if best.None? || Improves(best, bestExtra, extra, calcCost(cpa), calcCost(best.value)) then (Some(cpa), extra)
    else (best, bestExtra)
  }

  /**
   * Once there is an incumbent, the rule never makes it worse: the shared best
   * overflow does not rise, and at equal overflow the incumbent's cost does not fall.
   * A second tick on the same assignment and overflow changes nothing.
   */
  lemma AnytimeMonotone(best: Option<Assignment>, bestExtra: int, cpa: Assignment, extra: int,
                        calcCost: Assignment -> int)
    requires best.Some?
    ensures var (b, e) := Anytime(best, bestExtra, cpa, extra, calcCost);
      e <= bestExtra && (e == bestExtra ==> calcCost(b.value) >= calcCost(best.value)) &&
      (b != best ==> b == Some(cpa) && e == extra)
    ensures var (b, e) := Anytime(best, bestExtra, cpa, extra, calcCost);
      Anytime(b, e, cpa, extra, calcCost) == (b, e)
  {
  }

  // ---------------------------------------------------------------------------
  // The best-value scan
  // ---------------------------------------------------------------------------

  /**
   * The set-draining loop of the fallbacks: scan `vals` in order and keep the
   * eligible value whose cost beats (with `orEqual`: reaches) the best so far.
   */
  method ScanBest(vals: seq<int>, costs: seq<int>, ok: seq<bool>, orEqual: bool, best0: int, cost0: int)
    returns (best: int, cost: int)
    requires |vals| == |costs| == |ok|
    ensures (best, cost) == ArgMax(vals, costs, ok, orEqual, best0, cost0)
  {
    best, cost := best0, cost0;
    var i := 0;
    while i < |vals|
      invariant 0 <= i <= |vals|
      invariant ArgMax(vals[i..], costs[i..], ok[i..], orEqual, best, cost) == ArgMax(vals, costs, ok, orEqual, best0, cost0)
    {
      assert vals[i..][1..] == vals[i + 1..] && costs[i..][1..] == costs[i + 1..] && ok[i..][1..] == ok[i + 1..];
      if ok[i] && (costs[i] > cost || (orEqual && costs[i] == cost)) {
        best, cost := vals[i], costs[i];
      }
      i := i + 1;
    }
    assert vals[i..] == [];
  }

  /** All candidates eligible: the fallbacks that filter nothing. */
  function AllOk(n: nat): (r: seq<bool>)
    ensures |r| == n && forall j :: 0 <= j < n ==> r[j]
  {
    seq(n, _ => true)
  }

  /**
   * The strict fallback (start value 0, start cost -1, `>`): value 0 for an empty set
   * or when no cost exceeds -1; otherwise the first value of highest cost.
   */
  lemma StrictFallback(vals: seq<int>, costs: seq<int>)
    requires |vals| == |costs|
    ensures var r := ArgMax(vals, costs, AllOk(|vals|), false, 0, -1).0;
      ((forall j :: 0 <= j < |vals| ==> costs[j] <= -1) && r == 0) ||
      (exists i :: 0 <= i < |vals| && r == vals[i] && costs[i] > -1 &&
        (forall j :: 0 <= j < |vals| ==> costs[j] <= costs[i]) &&
        (forall j :: 0 <= j < i ==> costs[j] < costs[i]))
  {
    ArgMaxFirst(vals, costs, AllOk(|vals|), 0, -1);
  }

  /**
   * The fallback with `>=`: value 0 for an empty set or when every cost is below -1;
   * otherwise the LAST value of highest cost.
   */
  lemma LooseFallback(vals: seq<int>, costs: seq<int>)
    requires |vals| == |costs|
    ensures var r := ArgMax(vals, costs, AllOk(|vals|), true, 0, -1).0;
      ((forall j :: 0 <= j < |vals| ==> costs[j] < -1) && r == 0) ||
      (exists i :: 0 <= i < |vals| && r == vals[i] && costs[i] >= -1 &&
        (forall j :: 0 <= j < |vals| ==> costs[j] <= costs[i]) &&
        (forall j :: i < j < |vals| ==> costs[j] < costs[i]))
  {
    ArgMaxLast(vals, costs, AllOk(|vals|), 0, -1);
  }
}
