/**
 * An agent's utility for a value, as the builder scores it: the unary part sums
 * the agent's ratings of the value's courses, the binary part adds, for every
 * friend with a positive weight whose value can be read, the number of distinct
 * courses they share times the weight.
 */
module BuilderCost {
  import opened Common

  /**
   * Character.getNumericValue on ASCII characters: '0'..'9' give 0..9, Latin
   * letters of either case give 10..35, any other character -1. Every non-ASCII
   * character is also read as -1 here.
   */
  function NumericValue(c: char): (r: int)
    ensures -1 <= r <= 35
    ensures '0' <= c <= '9' ==> r == c as int - '0' as int
  {
    if '0' <= c <= '9' then c as int - '0' as int
    else if 'a' <= c <= 'z' then c as int - 'a' as int + 10
    else if 'A' <= c <= 'Z' then c as int - 'A' as int + 10
    else -1
  }

  /** The course index a token names: its second character read as a number, minus 1. */
  function CourseIndex(t: Course): int
    requires |t| >= 2
  {
    NumericValue(t[1]) - 1
  }

  /**
   * convertDomain2Courses succeeds on `v`: the row exists, fits in an array of
   * `numCourses` entries, and every token has a second character.
   */
  predicate Convertible(inst: Instance, v: int)
  {
    0 <= v < |inst.table| && |inst.table[v]| <= inst.numCourses &&
    forall j :: 0 <= j < |inst.table[v]| ==> |inst.table[v][j]| >= 2
  }

  /** convertDomain2Courses: the value's course indices, padded with 0 to `numCourses` entries. */
  function Courses(inst: Instance, v: int): (r: seq<int>)
    requires Convertible(inst, v)
    ensures |r| == inst.numCourses
  {
    var comb := inst.table[v];
    seq(inst.numCourses, j requires 0 <= j < inst.numCourses =>
      if j < |comb| then CourseIndex(comb[j]) else 0)
  }

  /** Distinct course indices two index arrays have in common. */
  function Shared(a: seq<int>, b: seq<int>): set<int>
  {
    set x | x in a && x in b
  }

  // ---------------------------------------------------------------------------
  // Unary part (calculateUnary)
  // ---------------------------------------------------------------------------

  /** Every index of `courses` is a column of the agent's rating row. */
  predicate RatesAll(inst: Instance, agent: int, courses: seq<int>)
  {
    0 <= agent < |inst.ratings| &&
    forall j :: 0 <= j < |courses| ==> 0 <= courses[j] < |inst.ratings[agent]|
  }

  /** calculateUnary: the sum of the agent's ratings over the index array. */
  function Unary(inst: Instance, agent: int, courses: seq<int>): int
    requires RatesAll(inst, agent, courses)
  {
    if courses == [] then 0
    else Unary(inst, agent, courses[..|courses| - 1]) + inst.ratings[agent][courses[|courses| - 1]]
  }

  /** Sum of the agent's ratings of the courses named by the tokens of `comb`. */
  function RatingSum(inst: Instance, agent: int, comb: Combination): int
    requires 0 <= agent < |inst.ratings|
    requires forall j :: 0 <= j < |comb| ==> |comb[j]| >= 2 && 0 <= CourseIndex(comb[j]) < |inst.ratings[agent]|
  {
    if comb == [] then 0
    else RatingSum(inst, agent, comb[..|comb| - 1]) + inst.ratings[agent][CourseIndex(comb[|comb| - 1])]
  }

  lemma {:induction false} UnaryAppendZeros(inst: Instance, agent: int, courses: seq<int>, k: nat)
    requires RatesAll(inst, agent, courses + seq(k, _ => 0))
    ensures RatesAll(inst, agent, courses)
    ensures k > 0 ==> |inst.ratings[agent]| > 0
    ensures Unary(inst, agent, courses + seq(k, _ => 0)) ==
            Unary(inst, agent, courses) + (if k == 0 then 0 else k * inst.ratings[agent][0])
  {
    var s := courses + seq(k, _ => 0);
    assert forall j :: 0 <= j < |courses| ==> courses[j] == s[j];
    if k == 0 {
      assert s == courses;
    } else {
      assert s[|courses|] == 0;
      var r0 := inst.ratings[agent][0];
      var s' := courses + seq(k - 1, _ => 0);
      assert s[..|s| - 1] == s';
      assert RatesAll(inst, agent, s') by {
        assert forall j :: 0 <= j < |s'| ==> s'[j] == s[j];
      }
      UnaryAppendZeros(inst, agent, courses, k - 1);
      assert s[|s| - 1] == 0;
      assert Unary(inst, agent, s) == Unary(inst, agent, s') + r0;
      MulStep(k, r0);
    }
  }

  lemma MulStep(k: int, r: int)
    ensures (if k - 1 == 0 then 0 else (k - 1) * r) + r == k * r
  {
  }

  lemma {:induction false} UnaryOfTokens(inst: Instance, agent: int, comb: Combination)
    requires 0 <= agent < |inst.ratings|
    requires forall j :: 0 <= j < |comb| ==> |comb[j]| >= 2 && 0 <= CourseIndex(comb[j]) < |inst.ratings[agent]|
    ensures RatesAll(inst, agent, seq(|comb|, j requires 0 <= j < |comb| => CourseIndex(comb[j])))
    ensures Unary(inst, agent, seq(|comb|, j requires 0 <= j < |comb| => CourseIndex(comb[j]))) ==
            RatingSum(inst, agent, comb)
  {
    var s := seq(|comb|, j requires 0 <= j < |comb| => CourseIndex(comb[j]));
    if comb != [] {
      var init := comb[..|comb| - 1];
      UnaryOfTokens(inst, agent, init);
      var s' := seq(|init|, j requires 0 <= j < |init| => CourseIndex(init[j]));
      assert s[..|s| - 1] == s';
    }
  }

  /**
   * The unary utility of a value is the sum of the agent's ratings of its courses,
   * plus the rating of course index 0 once for every padding entry of the
   * `numCourses`-long array (a value with fewer courses than `numCourses`).
   */
  lemma UnaryOfValue(inst: Instance, agent: int, v: int)
    requires Convertible(inst, v)
    requires RatesAll(inst, agent, Courses(inst, v))
    ensures var comb := inst.table[v];
      (forall j :: 0 <= j < |comb| ==> 0 <= CourseIndex(comb[j]) < |inst.ratings[agent]|) &&
      (|comb| < inst.numCourses ==> |inst.ratings[agent]| > 0) &&
      Unary(inst, agent, Courses(inst, v)) ==
        RatingSum(inst, agent, comb) +
        (if |comb| == inst.numCourses then 0 else (inst.numCourses - |comb|) * inst.ratings[agent][0])
  {
    var comb := inst.table[v];
    var idx := seq(|comb|, j requires 0 <= j < |comb| => CourseIndex(comb[j]));
    var k := inst.numCourses - |comb|;
    assert Courses(inst, v) == idx + seq(k, _ => 0);
    UnaryAppendZeros(inst, agent, idx, k);
    assert forall j :: 0 <= j < |comb| ==> idx[j] == CourseIndex(comb[j]);
    UnaryOfTokens(inst, agent, comb);
  }

  // ---------------------------------------------------------------------------
  // Binary part (calculateBinary, intersectionSize)
  // ---------------------------------------------------------------------------

  /**
   * The friend's course array when it can be computed: a friend with no value, a
   * value outside the table or an unconvertible value throws inside the source's
   * try block and is skipped.
   */
  function FriendCourses(inst: Instance, cpa: Assignment, i: int): Option<seq<int>>
  {
    if 0 <= i < |cpa| && cpa[i].Some? && Convertible(inst, cpa[i].value)
    then Some(Courses(inst, cpa[i].value)) else None
  }

  /** The contribution of friend `i` to the agent's binary utility. */
  function FriendTerm(inst: Instance, cpa: Assignment, agent: int, courses: seq<int>, i: int): int
    requires 0 <= agent < |inst.friends| && 0 <= i < |inst.friends[agent]|
  {
    var w := inst.friends[agent][i];
    if w > 0 then
      match FriendCourses(inst, cpa, i)
      case Some(fc) => |Shared(courses, fc)| * w
      case None => 0
    else 0
  }

  /** calculateBinary over the first `n` friend columns. */
  function BinaryUpTo(inst: Instance, cpa: Assignment, agent: int, courses: seq<int>, n: nat): (r: int)
    requires 0 <= agent < |inst.friends| && n <= |inst.friends[agent]|
    ensures r >= 0
  {
    if n == 0 then 0
    else BinaryUpTo(inst, cpa, agent, courses, n - 1) + FriendTerm(inst, cpa, agent, courses, n - 1)
  }

  /** calculateBinary: every friend column of the agent's row. */
  function Binary(inst: Instance, cpa: Assignment, agent: int, courses: seq<int>): int
    requires 0 <= agent < |inst.friends|
  {
    BinaryUpTo(inst, cpa, agent, courses, |inst.friends[agent]|)
  }

  /** calculateAgentCost succeeds for `agent` on `v`. */
  predicate Rated(inst: Instance, agent: int, v: int)
  {
    Convertible(inst, v) && RatesAll(inst, agent, Courses(inst, v)) && agent < |inst.friends|
  }

  /** calculateAgentCost: unary plus binary utility of `v` for `agent`, given the others' values. */
  function AgentCost(inst: Instance, cpa: Assignment, agent: int, v: int): int
    requires Rated(inst, agent, v)
  {
    var courses := Courses(inst, v);
    Unary(inst, agent, courses) + Binary(inst, cpa, agent, courses)
  }

  /** The binary part only looks at friend columns with a positive weight. */
  predicate AgreeOnFriends(inst: Instance, agent: int, cpa: Assignment, cpa': Assignment)
    requires 0 <= agent < |inst.friends|
  {
    forall i :: 0 <= i < |inst.friends[agent]| && inst.friends[agent][i] > 0 ==>
      FriendCourses(inst, cpa, i) == FriendCourses(inst, cpa', i)
  }

  lemma {:induction false} BinaryUpToFrame(inst: Instance, agent: int, courses: seq<int>,
                                           cpa: Assignment, cpa': Assignment, n: nat)
    requires 0 <= agent < |inst.friends| && n <= |inst.friends[agent]|
    requires AgreeOnFriends(inst, agent, cpa, cpa')
    ensures BinaryUpTo(inst, cpa, agent, courses, n) == BinaryUpTo(inst, cpa', agent, courses, n)
  {
    if n > 0 {
      BinaryUpToFrame(inst, agent, courses, cpa, cpa', n - 1);
    }
  }

  /**
   * An agent's utility depends on the others only through the friends it weighs
   * positively: two assignments that agree there give the same utility.
   */
  lemma AgentCostFrame(inst: Instance, agent: int, v: int, cpa: Assignment, cpa': Assignment)
    requires Rated(inst, agent, v)
    requires AgreeOnFriends(inst, agent, cpa, cpa')
    ensures AgentCost(inst, cpa, agent, v) == AgentCost(inst, cpa', agent, v)
  {
    BinaryUpToFrame(inst, agent, Courses(inst, v), cpa, cpa', |inst.friends[agent]|);
  }

  lemma {:induction false} BinaryUpToNoFriends(inst: Instance, cpa: Assignment, agent: int,
                                               courses: seq<int>, n: nat)
    requires 0 <= agent < |inst.friends| && n <= |inst.friends[agent]|
    requires forall i :: 0 <= i < n && inst.friends[agent][i] > 0 ==> FriendCourses(inst, cpa, i).None?
    ensures BinaryUpTo(inst, cpa, agent, courses, n) == 0
  {
    if n > 0 {
      BinaryUpToNoFriends(inst, cpa, agent, courses, n - 1);
    }
  }

  /**
   * A friend without a usable value is skipped silently: when no positively
   * weighted friend has one, the utility is the unary part alone.
   */
  lemma AgentCostWithoutFriends(inst: Instance, cpa: Assignment, agent: int, v: int)
    requires Rated(inst, agent, v)
    requires forall i :: 0 <= i < |inst.friends[agent]| && inst.friends[agent][i] > 0 ==>
      FriendCourses(inst, cpa, i).None?
    ensures AgentCost(inst, cpa, agent, v) == Unary(inst, agent, Courses(inst, v))
  {
    BinaryUpToNoFriends(inst, cpa, agent, Courses(inst, v), |inst.friends[agent]|);
  }

  lemma {:induction false} CommonBound(a: seq<int>, b: seq<int>)
    ensures |Shared(a, b)| <= |a|
  {
    if a != [] {
      var init, last := a[..|a| - 1], a[|a| - 1];
      CommonBound(init, b);
      assert a == init + [last];
      assert Shared(a, b) == Shared(init, b) + (if last in b then {last} else {});
    }
  }

  lemma ScaleBound(size: nat, bound: nat, w: int)
    requires size <= bound && w > 0
    ensures size * w <= bound * w
  {
  }

  lemma {:induction false} BinaryUpToBound(inst: Instance, cpa: Assignment, agent: int,
                                           courses: seq<int>, n: nat)
    requires 0 <= agent < |inst.friends| && n <= |inst.friends[agent]|
    ensures BinaryUpTo(inst, cpa, agent, courses, n) <=
      |courses| * PositiveWeight(inst.friends[agent][..n])
  {
    if n > 0 {
      var row := inst.friends[agent];
      BinaryUpToBound(inst, cpa, agent, courses, n - 1);
      assert row[..n][..n - 1] == row[..n - 1];
      var w := row[n - 1];
      var before := PositiveWeight(row[..n - 1]);
      var term := FriendTerm(inst, cpa, agent, courses, n - 1);
      if w > 0 {
        assert PositiveWeight(row[..n]) == before + w;
        assert term <= |courses| * w by {
          match FriendCourses(inst, cpa, n - 1)
          case Some(fc) =>
            CommonBound(courses, fc);
            ScaleBound(|Shared(courses, fc)|, |courses|, w);
          case None =>
        }
        assert |courses| * (before + w) == |courses| * before + |courses| * w;
      } else {
        assert PositiveWeight(row[..n]) == before;
      }
    }
  }

  /** Sum of the positive entries of a friendship row. */
  function PositiveWeight(row: seq<int>): nat
  {
    if row == [] then 0
    else PositiveWeight(row[..|row| - 1]) + if row[|row| - 1] > 0 then row[|row| - 1] else 0
  }

  /**
   * The binary utility is at least 0 and at most `numCourses` times the sum of the
   * agent's positive friendship weights.
   */
  lemma BinaryBounds(inst: Instance, cpa: Assignment, agent: int, v: int)
    requires Rated(inst, agent, v)
    ensures 0 <= Binary(inst, cpa, agent, Courses(inst, v)) <=
      inst.numCourses * PositiveWeight(inst.friends[agent])
  {
    BinaryUpToBound(inst, cpa, agent, Courses(inst, v), |inst.friends[agent]|);
    assert inst.friends[agent][..|inst.friends[agent]|] == inst.friends[agent];
  }

  /** intersectionSize: the nested loop that collects the common entries in a set. */
  method IntersectionSize(a: seq<int>, b: seq<int>) returns (size: nat)
    ensures size == |Shared(a, b)|
    ensures size <= |a| && size <= |b|
  {
    var common: set<int> := {};
    var i := 0;
    while i < |a|
      invariant 0 <= i <= |a|
      invariant common == Shared(a[..i], b)
    {
      var j := 0;
      while j < |b|
        invariant 0 <= j <= |b|
        invariant common == Shared(a[..i], b) + (if a[i] in b[..j] then {a[i]} else {})
      {
        assert b[..j + 1] == b[..j] + [b[j]];
        if a[i] == b[j] {
          common := common + {a[i]};
        }
        j := j + 1;
      }
      assert b[..j] == b;
      assert a[..i + 1] == a[..i] + [a[i]];
      i := i + 1;
    }
    assert a[..i] == a;
    size := |common|;
    CommonBound(a, b);
    CommonBound(b, a);
    assert Shared(a, b) == Shared(b, a);
  }

  // ---------------------------------------------------------------------------
  // Shared courses between two combinations (intersection_courses)
  // ---------------------------------------------------------------------------

  /** intersection_courses: the number of equal (token, token) pairs of two combinations. */
  function PairMatches(c1: Combination, c2: Combination): nat
  {
    if c1 == [] then 0 else PairMatches(c1[..|c1| - 1], c2) + Count(c1[|c1| - 1], c2)
  }

  /** Without repeated tokens, the pair count is the number of shared courses. */
  lemma {:induction false} PairMatchesShared(c1: Combination, c2: Combination)
    requires DuplicateFree(c1) && DuplicateFree(c2)
    ensures PairMatches(c1, c2) == |set t | t in c1 && t in c2|
  {
    if c1 != [] {
      var init, last := c1[..|c1| - 1], c1[|c1| - 1];
      assert DuplicateFree(init);
      PairMatchesShared(init, c2);
      CountDuplicateFree(last, c2);
      assert last !in init;
      assert c1 == init + [last];
      var before := set t | t in init && t in c2;
      if last in c2 {
        assert (set t | t in c1 && t in c2) == before + {last};
      } else {
        assert (set t | t in c1 && t in c2) == before;
      }
    }
  }
}
