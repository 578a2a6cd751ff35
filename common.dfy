/**
 * Vocabulary shared by every part of the course-allocation model: optional values,
 * an agent's view of the joint assignment, the course-load map, and the
 * "scan the domain, keep the best so far" loop that all strategies use.
 */
module Common {

  datatype Option<T> = None | Some(value: T)

  /** A course token as it appears in the combination table, e.g. "c3". */
  type Course = string

  /** One row of the combination table: the courses of one domain value. */
  type Combination = seq<Course>

  /**
   * An agent's local copy of the joint assignment: slot i holds the value of
   * agent i once it is known. Values are ints because a search may return -1.
   */
  type Assignment = seq<Option<int>>

  /** Course token -> number of agents enrolled in it. */
  type Loads = map<Course, int>

  /**
   * One allocation problem as the builder reads it from its input files: the
   * course capacity, each agent's course ratings and friendship weights, the
   * combination table (one row per domain value) and the `numCourses` parameter.
   * `neighbors[a]` are the ids the constraint graph links to agent `a`.
   */
  datatype Instance = Instance(
    limit: int,
    ratings: seq<seq<int>>,
    friends: seq<seq<int>>,
    table: seq<Combination>,
    numCourses: nat,
    neighbors: seq<seq<int>>)

  /**
   * What an agent sends: ASSIGNMENT(sender, value) to every other agent, or START
   * to the agent `to`, which then takes its turn.
   */
  datatype Message = Assign(sender: int, value: int) | Start(to: int)

  /** Java's Integer.MAX_VALUE, used as the "no bound yet" sentinel. */
  const IntMax: int := 0x7fff_ffff

  /** A fresh assignment in which no agent has a value yet. */
  function Unassigned(n: nat): (a: Assignment)
    ensures |a| == n
    ensures forall i :: 0 <= i < n ==> a[i] == None
  {
    seq(n, _ => None)
  }

  /** Every assigned value of `cpa` is a row of a table with `rows` rows. */
  predicate ValuesInRange(cpa: Assignment, rows: nat)
  {
    forall i :: 0 <= i < |cpa| && cpa[i].Some? ==> 0 <= cpa[i].value < rows
  }

  /** Every domain value names a row of the combination table. */
  predicate DomainRows(inst: Instance, dom: seq<int>)
  {
    forall j :: 0 <= j < |dom| ==> 0 <= dom[j] < |inst.table|
  }

  /** The added costs (calcAddedCost on the agent's view) of the values, in scan order. */
  function AddedCosts(vals: seq<int>, added: int -> int): (c: seq<int>)
    ensures |c| == |vals| && forall j :: 0 <= j < |vals| ==> c[j] == added(vals[j])
  {
    seq(|vals|, j requires 0 <= j < |vals| => added(vals[j]))
  }

  /** Number of positions of `s` that hold `x`. */
  function Count<T(==)>(x: T, s: seq<T>): nat
  {
    if s == [] then 0 else Count(x, s[..|s| - 1]) + (if s[|s| - 1] == x then 1 else 0)
  }

  predicate DuplicateFree<T(==)>(s: seq<T>)
  {
    forall i, j :: 0 <= i < j < |s| ==> s[i] != s[j]
  }

  /** The elements of a sequence, collected from the front. */
  function Elems<T(!new)>(s: seq<T>): (e: set<T>)
    ensures forall x :: x in e <==> x in s
  {
    if s == [] then {} else Elems(s[..|s| - 1]) + {s[|s| - 1]}
  }

  lemma {:induction false} CountPositive<T>(x: T, s: seq<T>)
    ensures Count(x, s) > 0 <==> x in s
  {
    if s != [] {
      CountPositive(x, s[..|s| - 1]);
      assert s == s[..|s| - 1] + [s[|s| - 1]];
    }
  }

  /** In a sequence without repetitions every element is counted once. */
  lemma {:induction false} CountDuplicateFree<T>(x: T, s: seq<T>)
    requires DuplicateFree(s)
    ensures Count(x, s) == if x in s then 1 else 0
  {
    if s != [] {
      var init := s[..|s| - 1];
      CountDuplicateFree(x, init);
      assert s == init + [s[|s| - 1]];
      if s[|s| - 1] == x {
        assert x !in init;
      }
    }
  }

  /**
   * The scan `for v in vals: if ok(v) && cost(v) > bestCost { best = v; bestCost = cost(v) }`,
   * with `>=` instead of `>` when `orEqual` holds. Returns the final (best, bestCost).
   */
  function ArgMax<T>(vals: seq<T>, costs: seq<int>, ok: seq<bool>, orEqual: bool,
                     best: T, bestCost: int): (T, int)
    requires |vals| == |costs| == |ok|
    decreases |vals|
  {
    if vals == [] then (best, bestCost)
    else if ok[0] && (costs[0] > bestCost || (orEqual && costs[0] == bestCost)) then
      ArgMax(vals[1..], costs[1..], ok[1..], orEqual, vals[0], costs[0])
    else
      ArgMax(vals[1..], costs[1..], ok[1..], orEqual, best, bestCost)
  }

  /**
   * `r` is what a `>` scan of positions lo.. from (best, bestCost) should end on: the
   * start itself when no eligible candidate beats `bestCost`, otherwise the FIRST
   * eligible candidate of maximal cost.
   */
  ghost predicate IsFirstMax<T>(vals: seq<T>, costs: seq<int>, ok: seq<bool>, lo: nat,
                                best: T, bestCost: int, r: (T, int))
    requires |vals| == |costs| == |ok|
  {
    ((forall j :: lo <= j < |vals| && ok[j] ==> costs[j] <= bestCost) && r == (best, bestCost)) ||
    (exists i :: lo <= i < |vals| && ok[i] && r == (vals[i], costs[i]) && costs[i] > bestCost &&
       (forall j :: lo <= j < |vals| && ok[j] ==> costs[j] <= costs[i]) &&
       (forall j :: lo <= j < i && ok[j] ==> costs[j] < costs[i]))
  }

  /** With `>`, the scan either keeps its start or ends on the first eligible candidate of maximal cost. */
  lemma {:induction false} ArgMaxFirst<T>(vals: seq<T>, costs: seq<int>, ok: seq<bool>,
                                          best: T, bestCost: int)
    requires |vals| == |costs| == |ok|
    ensures IsFirstMax(vals, costs, ok, 0, best, bestCost, ArgMax(vals, costs, ok, false, best, bestCost))
  {
    if vals != [] {
      var r := ArgMax(vals, costs, ok, false, best, bestCost);
      if ok[0] && costs[0] > bestCost {
        ArgMaxFirst(vals[1..], costs[1..], ok[1..], vals[0], costs[0]);
        FirstShift(vals, costs, ok, vals[0], costs[0], r);
        FirstTake(vals, costs, ok, best, bestCost, r);
      } else {
        ArgMaxFirst(vals[1..], costs[1..], ok[1..], best, bestCost);
        FirstShift(vals, costs, ok, best, bestCost, r);
        FirstSkip(vals, costs, ok, best, bestCost, r);
      }
    }
  }

  /** The tail's scan, read at positions 1.. of the whole sequence. */
  lemma FirstShift<T>(vals: seq<T>, costs: seq<int>, ok: seq<bool>, best: T, bestCost: int, r: (T, int))
    requires |vals| == |costs| == |ok| > 0
    requires IsFirstMax(vals[1..], costs[1..], ok[1..], 0, best, bestCost, r)
    ensures IsFirstMax(vals, costs, ok, 1, best, bestCost, r)
  {
    assert forall j :: 1 <= j < |vals| ==> vals[j] == vals[1..][j - 1] && costs[j] == costs[1..][j - 1] && ok[j] == ok[1..][j - 1];
    if !(forall j :: 0 <= j < |vals| - 1 && ok[1..][j] ==> costs[1..][j] <= bestCost) || r != (best, bestCost) {
      var i :| 0 <= i < |vals| - 1 && ok[1..][i] && r == (vals[1..][i], costs[1..][i]) && costs[1..][i] > bestCost &&
        (forall j :: 0 <= j < |vals| - 1 && ok[1..][j] ==> costs[1..][j] <= costs[1..][i]) &&
        (forall j :: 0 <= j < i && ok[1..][j] ==> costs[1..][j] < costs[1..][i]);
      assert 1 <= i + 1 < |vals| && ok[i + 1] && r == (vals[i + 1], costs[i + 1]);
    }
  }

  /** A head that beats the start becomes the start of the scan of positions 1.. . */
  lemma FirstTake<T>(vals: seq<T>, costs: seq<int>, ok: seq<bool>, best: T, bestCost: int, r: (T, int))
    requires |vals| == |costs| == |ok| > 0 && ok[0] && costs[0] > bestCost
    requires IsFirstMax(vals, costs, ok, 1, vals[0], costs[0], r)
    ensures IsFirstMax(vals, costs, ok, 0, best, bestCost, r)
  {
    if (forall j :: 1 <= j < |vals| && ok[j] ==> costs[j] <= costs[0]) && r == (vals[0], costs[0]) {
      assert 0 <= 0 < |vals| && ok[0] && r == (vals[0], costs[0]) && costs[0] > bestCost;
    } else {
      var i :| 1 <= i < |vals| && ok[i] && r == (vals[i], costs[i]) && costs[i] > costs[0] &&
        (forall j :: 1 <= j < |vals| && ok[j] ==> costs[j] <= costs[i]) &&
        (forall j :: 1 <= j < i && ok[j] ==> costs[j] < costs[i]);
      assert 0 <= i < |vals| && ok[i] && r == (vals[i], costs[i]) && costs[i] > bestCost;
    }
  }

  /** A head that does not beat the start leaves the start of the scan of positions 1.. unchanged. */
  lemma FirstSkip<T>(vals: seq<T>, costs: seq<int>, ok: seq<bool>, best: T, bestCost: int, r: (T, int))
    requires |vals| == |costs| == |ok| > 0 && !(ok[0] && costs[0] > bestCost)
    requires IsFirstMax(vals, costs, ok, 1, best, bestCost, r)
    ensures IsFirstMax(vals, costs, ok, 0, best, bestCost, r)
  {
    if !((forall j :: 1 <= j < |vals| && ok[j] ==> costs[j] <= bestCost) && r == (best, bestCost)) {
      var i :| 1 <= i < |vals| && ok[i] && r == (vals[i], costs[i]) && costs[i] > bestCost &&
        (forall j :: 1 <= j < |vals| && ok[j] ==> costs[j] <= costs[i]) &&
        (forall j :: 1 <= j < i && ok[j] ==> costs[j] < costs[i]);
      assert 0 <= i < |vals| && ok[i] && r == (vals[i], costs[i]) && costs[i] > bestCost;
    }
  }

  /**
   * `r` is what a `>=` scan of positions lo.. from (best, bestCost) should end on: the
   * start itself when no eligible candidate reaches `bestCost`, otherwise the LAST
   * eligible candidate of maximal cost.
   */
  ghost predicate IsLastMax<T>(vals: seq<T>, costs: seq<int>, ok: seq<bool>, lo: nat,
                               best: T, bestCost: int, r: (T, int))
    requires |vals| == |costs| == |ok|
  {
    ((forall j :: lo <= j < |vals| && ok[j] ==> costs[j] < bestCost) && r == (best, bestCost)) ||
    (exists i :: lo <= i < |vals| && ok[i] && r == (vals[i], costs[i]) && costs[i] >= bestCost &&
       (forall j :: lo <= j < |vals| && ok[j] ==> costs[j] <= costs[i]) &&
       (forall j :: i < j < |vals| && ok[j] ==> costs[j] < costs[i]))
  }

  /** With `>=`, the scan either keeps its start or ends on the last eligible candidate of maximal cost. */
  lemma {:induction false} ArgMaxLast<T>(vals: seq<T>, costs: seq<int>, ok: seq<bool>,
                                         best: T, bestCost: int)
    requires |vals| == |costs| == |ok|
    ensures IsLastMax(vals, costs, ok, 0, best, bestCost, ArgMax(vals, costs, ok, true, best, bestCost))
  {
    if vals != [] {
      var r := ArgMax(vals, costs, ok, true, best, bestCost);
      if ok[0] && costs[0] >= bestCost {
        ArgMaxLast(vals[1..], costs[1..], ok[1..], vals[0], costs[0]);
        LastShift(vals, costs, ok, vals[0], costs[0], r);
        LastTake(vals, costs, ok, best, bestCost, r);
      } else {
        ArgMaxLast(vals[1..], costs[1..], ok[1..], best, bestCost);
        LastShift(vals, costs, ok, best, bestCost, r);
        LastSkip(vals, costs, ok, best, bestCost, r);
      }
    }
  }

  /** The tail's scan, read at positions 1.. of the whole sequence. */
  lemma LastShift<T>(vals: seq<T>, costs: seq<int>, ok: seq<bool>, best: T, bestCost: int, r: (T, int))
    requires |vals| == |costs| == |ok| > 0
    requires IsLastMax(vals[1..], costs[1..], ok[1..], 0, best, bestCost, r)
    ensures IsLastMax(vals, costs, ok, 1, best, bestCost, r)
  {
    assert forall j :: 1 <= j < |vals| ==> vals[j] == vals[1..][j - 1] && costs[j] == costs[1..][j - 1] && ok[j] == ok[1..][j - 1];
    if !(forall j :: 0 <= j < |vals| - 1 && ok[1..][j] ==> costs[1..][j] < bestCost) || r != (best, bestCost) {
      var i :| 0 <= i < |vals| - 1 && ok[1..][i] && r == (vals[1..][i], costs[1..][i]) && costs[1..][i] >= bestCost &&
        (forall j :: 0 <= j < |vals| - 1 && ok[1..][j] ==> costs[1..][j] <= costs[1..][i]) &&
        (forall j :: i < j < |vals| - 1 && ok[1..][j] ==> costs[1..][j] < costs[1..][i]);
      assert 1 <= i + 1 < |vals| && ok[i + 1] && r == (vals[i + 1], costs[i + 1]);
    }
  }

  /** A head that reaches the start becomes the start of the scan of positions 1.. . */
  lemma LastTake<T>(vals: seq<T>, costs: seq<int>, ok: seq<bool>, best: T, bestCost: int, r: (T, int))
    requires |vals| == |costs| == |ok| > 0 && ok[0] && costs[0] >= bestCost
    requires IsLastMax(vals, costs, ok, 1, vals[0], costs[0], r)
    ensures IsLastMax(vals, costs, ok, 0, best, bestCost, r)
  {
    if (forall j :: 1 <= j < |vals| && ok[j] ==> costs[j] < costs[0]) && r == (vals[0], costs[0]) {
      assert 0 <= 0 < |vals| && ok[0] && r == (vals[0], costs[0]) && costs[0] >= bestCost;
    } else {
      var i :| 1 <= i < |vals| && ok[i] && r == (vals[i], costs[i]) && costs[i] >= costs[0] &&
        (forall j :: 1 <= j < |vals| && ok[j] ==> costs[j] <= costs[i]) &&
        (forall j :: i < j < |vals| && ok[j] ==> costs[j] < costs[i]);
      assert 0 <= i < |vals| && ok[i] && r == (vals[i], costs[i]) && costs[i] >= bestCost;
    }
  }

  /** A head below the start leaves the start of the scan of positions 1.. unchanged. */
  lemma LastSkip<T>(vals: seq<T>, costs: seq<int>, ok: seq<bool>, best: T, bestCost: int, r: (T, int))
    requires |vals| == |costs| == |ok| > 0 && !(ok[0] && costs[0] >= bestCost)
    requires IsLastMax(vals, costs, ok, 1, best, bestCost, r)
    ensures IsLastMax(vals, costs, ok, 0, best, bestCost, r)
  {
    if !((forall j :: 1 <= j < |vals| && ok[j] ==> costs[j] < bestCost) && r == (best, bestCost)) {
      var i :| 1 <= i < |vals| && ok[i] && r == (vals[i], costs[i]) && costs[i] >= bestCost &&
        (forall j :: 1 <= j < |vals| && ok[j] ==> costs[j] <= costs[i]) &&
        (forall j :: i < j < |vals| && ok[j] ==> costs[j] < costs[i]);
      assert 0 <= i < |vals| && ok[i] && r == (vals[i], costs[i]) && costs[i] >= bestCost;
    }
  }

  /** Sum of a sequence, folded from the front as the source's accumulating loops do. */
  function Sum(s: seq<int>): int
  {
    if s == [] then 0 else Sum(s[..|s| - 1]) + s[|s| - 1]
  }

  /** A sum of non-negative terms is non-negative, and zero exactly when every term is. */
  lemma {:induction false} SumZeroIff(s: seq<int>)
    requires forall i :: 0 <= i < |s| ==> s[i] >= 0
    ensures Sum(s) >= 0
    ensures Sum(s) == 0 <==> forall i :: 0 <= i < |s| ==> s[i] == 0
  {
    if s != [] {
      SumZeroIff(s[..|s| - 1]);
    }
  }

  /** Summing termwise sums is summing the two sums. */
  lemma {:induction false} SumSplit(a: seq<int>, b: seq<int>, c: seq<int>)
    requires |a| == |b| == |c|
    requires forall i :: 0 <= i < |c| ==> c[i] == a[i] + b[i]
    ensures Sum(c) == Sum(a) + Sum(b)
  {
    if c != [] {
      var n := |c| - 1;
      SumSplit(a[..n], b[..n], c[..n]);
    }
  }
}
