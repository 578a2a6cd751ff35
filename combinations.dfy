/**
 * The problem generators' enumeration of course combinations: `generate(n, k)`
 * lists every k-subset of the courses 0..n-1 as a strictly increasing index
 * array, by backtracking over one scratch array, and `convertCombinations`
 * turns each index array into the course names it stands for.
 */
module Combinations {

  /** Strictly increasing, and every entry in [lo, hi]. */
  predicate IncreasingWithin(c: seq<int>, lo: int, hi: int)
  {
    (forall i :: 0 <= i < |c| ==> lo <= c[i] <= hi) &&
    (forall i, j :: 0 <= i < j < |c| ==> c[i] < c[j])
  }

  /** `a` comes before `b` in lexicographic order, the two first differing at position p. */
  predicate LexBeforeAt(a: seq<int>, b: seq<int>, p: nat)
  {
    p < |a| && p < |b| && a[..p] == b[..p] && a[p] < b[p]
  }

  ghost predicate LexBefore(a: seq<int>, b: seq<int>)
  {
    exists p: nat :: LexBeforeAt(a, b, p)
  }

  /** The lists come in strictly increasing lexicographic order. */
  ghost predicate Ordered(out: seq<seq<int>>)
  {
    forall i, j :: 0 <= i < j < |out| ==> LexBefore(out[i], out[j])
  }

  /**
   * What helper appends: with `prefix` already written into the scratch array,
   * either the prefix is complete (k entries) and is recorded, or the value
   * `start` is taken at the next position, after which `start` is skipped.
   */
  function Extend(prefix: seq<int>, start: int, end: int, k: nat): seq<seq<int>>
    requires |prefix| <= k
    decreases end - start + 1
  {
    if |prefix| == k then [prefix]
    else if start <= end then Extend(prefix + [start], start + 1, end, k) + Extend(prefix, start + 1, end, k)
    else []
  }

  /** The list generate(n, k) returns. */
  function Combos(n: int, k: nat): seq<seq<int>>
  {
    Extend([], 0, n - 1, k)
  }

  /** The binomial coefficient, by Pascal's rule. */
  function Choose(m: int, r: int): nat
    decreases if m < 0 then 0 else m
  {
    if r == 0 then 1
    else if m <= 0 || r < 0 then 0
    else Choose(m - 1, r - 1) + Choose(m - 1, r)
  }

  /** The shape every list Extend(prefix, start, end, k) has. */
  predicate Extends(c: seq<int>, prefix: seq<int>, start: int, end: int, k: nat)
  {
    |prefix| <= |c| == k && c[..|prefix|] == prefix && IncreasingWithin(c[|prefix|..], start, end)
  }

  /** A list that extends prefix + [start] from start + 1 on extends the prefix from start. */
  lemma TakenExtends(c: seq<int>, prefix: seq<int>, start: int, end: int, k: nat)
    requires start <= end && Extends(c, prefix + [start], start + 1, end, k)
    ensures Extends(c, prefix, start, end, k) && c[|prefix|] == start
  {
    var p' := prefix + [start];
    assert c[..|p'|] == p';
    assert c[..|prefix|] == p'[..|prefix|] == prefix;
    assert c[|prefix|] == p'[|prefix|] == start;
    var tail := c[|prefix|..];
    assert tail[1..] == c[|p'|..];
  }

  /** A list that extends the prefix from start + 1 extends it from start, past start. */
  lemma SkippedExtends(c: seq<int>, prefix: seq<int>, start: int, end: int, k: nat)
    requires |prefix| < k && Extends(c, prefix, start + 1, end, k)
    ensures Extends(c, prefix, start, end, k) && start < c[|prefix|]
  {
    assert c[|prefix|..][0] == c[|prefix|];
  }

  /** Lists of two lexicographically ordered runs, every list of the first below every one of the second. */
  lemma LexConcat(a: seq<seq<int>>, b: seq<seq<int>>, p: nat)
    requires Ordered(a) && Ordered(b)
    requires forall i, j :: 0 <= i < |a| && 0 <= j < |b| ==> LexBeforeAt(a[i], b[j], p)
    ensures Ordered(a + b)
  {
    var out := a + b;
    forall i, j | 0 <= i < j < |out|
      ensures LexBefore(out[i], out[j])
    {
      if j < |a| {
        assert out[i] == a[i] && out[j] == a[j];
      } else if i >= |a| {
        assert out[i] == b[i - |a|] && out[j] == b[j - |a|];
      } else {
        assert out[i] == a[i] && out[j] == b[j - |a|];
        assert LexBeforeAt(out[i], out[j], p);
      }
    }
  }

  /** Extend produces C(end - start + 1, k - |prefix|) lists. */
  lemma {:induction false} ExtendCount(prefix: seq<int>, start: int, end: int, k: nat)
    requires |prefix| <= k
    ensures |Extend(prefix, start, end, k)| == Choose(end - start + 1, k - |prefix|)
    decreases end - start + 1
  {
    if |prefix| < k && start <= end {
      ExtendCount(prefix + [start], start + 1, end, k);
      ExtendCount(prefix, start + 1, end, k);
    }
  }

  /** Every list Extend produces has k entries, starts with the prefix and continues strictly increasing inside [start, end]. */
  lemma {:induction false} ExtendForm(prefix: seq<int>, start: int, end: int, k: nat)
    requires |prefix| <= k
    ensures forall c :: c in Extend(prefix, start, end, k) ==> Extends(c, prefix, start, end, k)
    decreases end - start + 1
  {
    if |prefix| == k {
      assert prefix[..|prefix|] == prefix;
    } else if start <= end {
      ExtendForm(prefix + [start], start + 1, end, k);
      ExtendForm(prefix, start + 1, end, k);
      forall c | c in Extend(prefix + [start], start + 1, end, k)
        ensures Extends(c, prefix, start, end, k)
      {
        TakenExtends(c, prefix, start, end, k);
      }
      forall c | c in Extend(prefix, start + 1, end, k)
        ensures Extends(c, prefix, start, end, k)
      {
        SkippedExtends(c, prefix, start, end, k);
      }
    }
  }

  /** The lists Extend produces come in strictly increasing lexicographic order. */
  lemma {:induction false} ExtendOrdered(prefix: seq<int>, start: int, end: int, k: nat)
    requires |prefix| <= k
    ensures Ordered(Extend(prefix, start, end, k))
    decreases end - start + 1
  {
    if |prefix| < k && start <= end {
      var p' := prefix + [start];
      var a := Extend(p', start + 1, end, k);
      var b := Extend(prefix, start + 1, end, k);
      ExtendOrdered(p', start + 1, end, k);
      ExtendOrdered(prefix, start + 1, end, k);
      ExtendForm(p', start + 1, end, k);
      ExtendForm(prefix, start + 1, end, k);
      forall i, j | 0 <= i < |a| && 0 <= j < |b|
        ensures LexBeforeAt(a[i], b[j], |prefix|)
      {
        assert a[i] in a && b[j] in b;
        TakenExtends(a[i], prefix, start, end, k);
        SkippedExtends(b[j], prefix, start, end, k);
      }
      LexConcat(a, b, |prefix|);
    }
  }

  /** A list that extends the prefix with `start` next extends prefix + [start] from start + 1. */
  lemma TakenBack(c: seq<int>, prefix: seq<int>, start: int, end: int, k: nat)
    requires |prefix| < k && Extends(c, prefix, start, end, k) && c[|prefix|] == start
    ensures Extends(c, prefix + [start], start + 1, end, k)
  {
    var p' := prefix + [start];
    assert c[..|p'|] == c[..|prefix|] + [c[|prefix|]];
    assert c[|p'|..] == c[|prefix|..][1..];
  }

  /** A list that extends the prefix with something other than `start` next extends it from start + 1. */
  lemma SkippedBack(c: seq<int>, prefix: seq<int>, start: int, end: int, k: nat)
    requires |prefix| < k && Extends(c, prefix, start, end, k) && c[|prefix|] != start
    ensures Extends(c, prefix, start + 1, end, k)
  {
    assert c[|prefix|..][0] == c[|prefix|];
  }

  /**
   * Conversely every list that starts with the prefix, has k entries and
   * continues strictly increasing inside [start, end] is produced.
   */
  lemma {:induction false} ExtendComplete(prefix: seq<int>, start: int, end: int, k: nat, c: seq<int>)
    requires |prefix| <= k && Extends(c, prefix, start, end, k)
    ensures c in Extend(prefix, start, end, k)
    decreases end - start + 1
  {
    if |prefix| == k {
      assert c == c[..|prefix|];
    } else {
      assert c[|prefix|..][0] == c[|prefix|];
      if c[|prefix|] == start {
        TakenBack(c, prefix, start, end, k);
        ExtendComplete(prefix + [start], start + 1, end, k, c);
      } else {
        SkippedBack(c, prefix, start, end, k);
        ExtendComplete(prefix, start + 1, end, k, c);
      }
    }
  }

  /**
   * generate(n, k): a list is produced exactly when it is a strictly increasing
   * k-list of indices in 0..n-1; the lists come in strictly increasing
   * lexicographic order, so none is produced twice, and there are C(n, k) of them.
   */
  lemma CombosMeaning(n: int, k: nat)
    ensures var out := Combos(n, k);
      |out| == Choose(n, k) &&
      (forall c :: c in out <==> |c| == k && IncreasingWithin(c, 0, n - 1)) &&
      (forall i, j :: 0 <= i < j < |out| ==> LexBefore(out[i], out[j])) &&
      (forall i, j :: 0 <= i < j < |out| ==> out[i] != out[j])
  {
    var out := Combos(n, k);
    ExtendCount([], 0, n - 1, k);
    ExtendOrdered([], 0, n - 1, k);
    OrderedDistinct(out);
    forall c
      ensures c in out <==> |c| == k && IncreasingWithin(c, 0, n - 1)
    {
      CombosMember(n, k, c);
    }
  }

  /** A list is in generate(n, k) iff it is a strictly increasing k-list within 0..n-1. */
  lemma CombosMember(n: int, k: nat, c: seq<int>)
    ensures c in Combos(n, k) <==> |c| == k && IncreasingWithin(c, 0, n - 1)
  {
    assert c[..0] == [] && c[0..] == c;
    if c in Combos(n, k) {
      ExtendForm([], 0, n - 1, k);
      assert Extends(c, [], 0, n - 1, k);
    }
    if |c| == k && IncreasingWithin(c, 0, n - 1) {
      ExtendComplete([], 0, n - 1, k, c);
    }
  }

  /** Lists in strictly increasing lexicographic order are pairwise different. */
  lemma OrderedDistinct(out: seq<seq<int>>)
    requires Ordered(out)
    ensures forall i, j :: 0 <= i < j < |out| ==> LexBefore(out[i], out[j]) && out[i] != out[j]
  {
    forall i, j | 0 <= i < j < |out|
      ensures out[i] != out[j]
    {
      LexBeforeDistinct(out[i], out[j]);
    }
  }

  /** Two lists in strictly increasing lexicographic order are different. */
  lemma LexBeforeDistinct(a: seq<int>, b: seq<int>)
    requires LexBefore(a, b)
    ensures a != b
  {
    var p: nat :| LexBeforeAt(a, b, p);
  }

  /**
   * helper: with `data[..index]` holding the prefix, appends to `acc` every
   * completion of it, writing the scratch array in place and recording a copy
   * of it each time it is full. Entries before `index` are left as they were.
   */
  method Helper(data: array<int>, start: int, end: int, index: int, acc: seq<seq<int>>)
    returns (out: seq<seq<int>>)
    requires 0 <= index <= data.Length
    modifies data
    ensures out == acc + Extend(old(data[..index]), start, end, data.Length)
    ensures data[..index] == old(data[..index])
    decreases end - start + 1
  {
    if index == data.Length {
      out := acc + [data[..]];
      assert data[..] == data[..index];
    } else if start <= end {
      ghost var prefix := data[..index];
      data[index] := start;
      assert data[..index + 1] == prefix + [start];
      out := Helper(data, start + 1, end, index + 1, acc);
      assert data[..index] == data[..index + 1][..index] == prefix;
      out := Helper(data, start + 1, end, index, out);
    } else {
      out := acc;
    }
  }

  /** generate: run helper from an empty prefix over a fresh scratch array of k entries. */
  method Generate(n: int, k: nat) returns (combinations: seq<seq<int>>)
    ensures combinations == Combos(n, k)
  {
    var data := new int[k];
    assert data[..0] == [];
    combinations := Helper(data, 0, n - 1, 0, []);
  }

  /** The course names of one index array, position by position. */
  function Named(arr: seq<int>, listCourses: seq<string>): (r: seq<string>)
    requires forall i :: 0 <= i < |arr| ==> 0 <= arr[i] < |listCourses|
    ensures |r| == |arr| && forall j :: 0 <= j < |arr| ==> r[j] == listCourses[arr[j]]
  {
    seq(|arr|, j requires 0 <= j < |arr| => listCourses[arr[j]])
  }

  /** Every index of every combination names a course. */
  predicate IndexesCourses(combinations: seq<seq<int>>, listCourses: seq<string>)
  {
    forall i, j :: 0 <= i < |combinations| && 0 <= j < |combinations[i]| ==>
      0 <= combinations[i][j] < |listCourses|
  }

  /** The index lists generate produces name courses whenever they are drawn from the course list. */
  lemma CombosIndexCourses(listCourses: seq<string>, k: nat)
    ensures IndexesCourses(Combos(|listCourses|, k), listCourses)
  {
    var out := Combos(|listCourses|, k);
    CombosMeaning(|listCourses|, k);
    forall i, j | 0 <= i < |out| && 0 <= j < |out[i]|
      ensures 0 <= out[i][j] < |listCourses|
    {
      assert out[i] in out;
    }
  }

  /** The generator's `d` (the domain size) and the named combinations it writes to combinations.csv. */
  class CombinationTable {
    var d: int
    var courseCombinations: seq<seq<string>>

    constructor()
      ensures d == 6 && courseCombinations == []
    {
      d := 6;
      courseCombinations := [];
    }

    /**
     * convertCombinations: `d` becomes the number of combinations, and entry i of
     * the table is combination i with every index replaced by its course name.
     */
    method ConvertCombinations(combinations: seq<seq<int>>, listCourses: seq<string>)
      requires IndexesCourses(combinations, listCourses)
      modifies this
      ensures d == |combinations| && |courseCombinations| == |combinations|
      ensures forall i :: 0 <= i < |combinations| ==> courseCombinations[i] == Named(combinations[i], listCourses)
    {
      d := |combinations|;
      courseCombinations := [];
      for i := 0 to |combinations|
        invariant d == |combinations| && |courseCombinations| == i
        invariant forall h :: 0 <= h < i ==> courseCombinations[h] == Named(combinations[h], listCourses)
      {
        var arr := combinations[i];
        var temp: seq<string> := [];
        for index := 0 to |arr|
          invariant |temp| == index
          invariant forall j :: 0 <= j < index ==> temp[j] == listCourses[arr[j]]
        {
          temp := temp + [listCourses[arr[index]]];
        }
        courseCombinations := courseCombinations + [temp];
      }
    }
  }
}
