/**
 * The FirstModel problem generator of the simulator tree
 * (code/java/modules/FirstModel.java): before it lists the course combinations,
 * defineProblem shuffles which student each agent stands for, by permuting the
 * rows of the friendship and the course-rating matrices with one random
 * permutation, and writes both shuffled matrices back as CSV files headed
 * "a1,...,an" and "c1,...,cm".
 */
module FirstModelGen {
  import opened Common
  import opened GeneratorText
  import opened RandomPicks
  import Combinations

  /** `s` lists 0..n-1 in some order: n entries, each in range, no two equal. */
  predicate IsPermutation(s: seq<int>, n: int)
  {
    |s| == n &&
    (forall i :: 0 <= i < n ==> 0 <= s[i] < n) &&
    (forall i, j :: 0 <= i < j < n ==> s[i] != s[j])
  }

  /** Row i of the result is row s[i] of `rows`. */
  function Permuted<T>(rows: seq<T>, s: seq<int>): (r: seq<T>)
    requires |s| == |rows| && forall i :: 0 <= i < |s| ==> 0 <= s[i] < |rows|
    ensures |r| == |rows|
  {
    seq(|rows|, i requires 0 <= i < |rows| => rows[s[i]])
  }

  /** The permutation left once its last entry `k` is removed: entries above k move down by one. */
  function Renumbered(s: seq<int>, k: int): (r: seq<int>)
    requires |s| > 0
    ensures |r| == |s| - 1
  {
    seq(|s| - 1, i requires 0 <= i < |s| - 1 => if s[i] > k then s[i] - 1 else s[i])
  }

  lemma RenumberedPermutation(s: seq<int>, n: nat)
    requires n > 0 && IsPermutation(s, n)
    ensures IsPermutation(Renumbered(s, s[n - 1]), n - 1)
    ensures forall i :: 0 <= i < n - 1 ==> s[i] != s[n - 1]
  {
    var k := s[n - 1];
    var s' := Renumbered(s, k);
    forall i | 0 <= i < n - 1
      ensures 0 <= s'[i] < n - 1 && s[i] != k
    {
      assert s[i] != s[n - 1];
    }
    forall i, j | 0 <= i < j < n - 1
      ensures s'[i] != s'[j]
    {
      assert s[i] != s[j];
    }
  }

  /** Permuting the other rows by the renumbered permutation gives all but the last permuted row. */
  lemma PermutedDrop<T>(rows: seq<T>, s: seq<int>)
    requires |rows| > 0 && IsPermutation(s, |rows|)
    ensures var k := s[|rows| - 1];
      IsPermutation(Renumbered(s, k), |rows| - 1) &&
      Permuted(rows[..k] + rows[k + 1..], Renumbered(s, k)) == Permuted(rows, s)[..|rows| - 1]
  {
    var n := |rows|;
    var k := s[n - 1];
    RenumberedPermutation(s, n);
    var rows' := rows[..k] + rows[k + 1..];
    var s' := Renumbered(s, k);
    var p := Permuted(rows, s);
    forall i | 0 <= i < n - 1
      ensures Permuted(rows', s')[i] == p[i]
    {
      if s[i] > k {
        assert rows'[s'[i]] == rows[k + 1..][s[i] - 1 - k];
      } else {
        assert rows'[s'[i]] == rows[..k][s[i]];
      }
    }
  }

  /** Permuting by a permutation keeps the multiset of rows. */
  lemma {:induction false} PermutedMultiset<T>(rows: seq<T>, s: seq<int>)
    requires IsPermutation(s, |rows|)
    ensures multiset(Permuted(rows, s)) == multiset(rows)
    decreases |rows|
  {
    var n := |rows|;
    if n > 0 {
      var k := s[n - 1];
      PermutedDrop(rows, s);
      PermutedMultiset(rows[..k] + rows[k + 1..], Renumbered(s, k));
      var p := Permuted(rows, s);
      assert p == p[..n - 1] + [rows[k]];
      assert rows == rows[..k] + [rows[k]] + rows[k + 1..];
    }
  }

  /** The swap order the swaps map holds for rows 0..n-1. */
  function SwapOrder(swaps: map<int, int>, n: nat): (s: seq<int>)
    requires forall i :: 0 <= i < n ==> i in swaps
    ensures |s| == n && forall i :: 0 <= i < n ==> s[i] == swaps[i]
  {
    seq(n, i requires 0 <= i < n => swaps[i])
  }

  /** Every row 0..n-1 has an entry in the swaps map, naming a row in range. */
  predicate SwapsCover(swaps: map<int, int>, n: nat)
  {
    forall i :: 0 <= i < n ==> i in swaps && 0 <= swaps[i] < n
  }

  /**
   * The friendship matrix relabelled by `s` on both axes: agent i stands for
   * student s[i], so its weight for agent j is student s[i]'s weight for
   * student s[j].
   */
  function Relabelled(rows: seq<seq<int>>, s: seq<int>): (r: seq<seq<int>>)
    requires IsPermutation(s, |rows|) && forall i :: 0 <= i < |rows| ==> |rows[i]| == |rows|
    ensures |r| == |rows| && forall i :: 0 <= i < |rows| ==> |r[i]| == |rows|
  {
    seq(|rows|, i requires 0 <= i < |rows| => Permuted(rows[s[i]], s))
  }

  /** No agent is its own friend: the friendship matrix has a zero diagonal. */
  predicate ZeroDiagonal(rows: seq<seq<int>>)
  {
    forall i :: 0 <= i < |rows| && i < |rows[i]| ==> rows[i][i] == 0
  }

  /**
   * Relabelling on both axes keeps a friendship a friendship between the same two
   * students: every entry comes from the entry of the students the two agents stand
   * for, no agent becomes its own friend, and each row keeps the weights of its
   * student's original row.
   */
  lemma RelabelledMeaning(rows: seq<seq<int>>, s: seq<int>)
    requires IsPermutation(s, |rows|) && forall i :: 0 <= i < |rows| ==> |rows[i]| == |rows|
    ensures var r := Relabelled(rows, s);
      (forall i, j :: 0 <= i < |rows| && 0 <= j < |rows| ==> r[i][j] == rows[s[i]][s[j]]) &&
      (ZeroDiagonal(rows) ==> ZeroDiagonal(r)) &&
      (forall i :: 0 <= i < |rows| ==> multiset(r[i]) == multiset(rows[s[i]])) &&
      multiset(seq(|rows|, i requires 0 <= i < |rows| => multiset(r[i]))) == multiset(seq(|rows|, i requires 0 <= i < |rows| => multiset(rows[i])))
  {
    var r := Relabelled(rows, s);
    forall i | 0 <= i < |rows|
      ensures multiset(r[i]) == multiset(rows[s[i]])
    {
      PermutedMultiset(rows[s[i]], s);
    }
    var bags := seq(|rows|, i requires 0 <= i < |rows| => multiset(rows[i]));
    PermutedMultiset(bags, s);
    assert seq(|rows|, i requires 0 <= i < |rows| => multiset(r[i])) == Permuted(bags, s);
  }

  /**
   * Permuting only the rows of the friendship matrix, as defineProblem does, can
   * make an agent its own friend: two students who are each other's friends,
   * swapped, each end up with a weight on their own column.
   */
  lemma SelfFriendship(rows: seq<seq<int>>, s: seq<int>)
    requires rows == [[0, 6], [6, 0]] && s == [1, 0]
    ensures IsPermutation(s, |rows|) && ZeroDiagonal(rows)
    ensures Permuted(rows, s)[0][0] == 6 && !ZeroDiagonal(Permuted(rows, s))
  {
    assert Permuted(rows, s)[0] == rows[1];
  }

  /** What defineProblem ends in. */
  datatype Outcome =
    | Exit                  // System.exit(1): the two matrices differ in row count
    | Crash                 // an exception: no rows, an empty first row, or a negative combination size
    | Defined(friendsFile: seq<string>, coursesFile: seq<string>, combinations: seq<seq<int>>)

  /** The header defineProblem builds: the names joined by ","; an empty row makes substring throw. */
  function HeaderText(letter: char, count: nat): Option<string>
  {
    if count == 0 then None else Some(Join(",", Names(letter, count)))
  }

  /** The names, each followed by a comma. */
  function Terminated(parts: seq<string>): string
  {
    if |parts| == 0 then "" else Terminated(parts[..|parts| - 1]) + parts[|parts| - 1] + ","
  }

  lemma {:induction false} TerminatedJoin(parts: seq<string>)
    requires |parts| > 0
    ensures Terminated(parts) == Join(",", parts) + ","
    decreases |parts|
  {
    if |parts| > 1 {
      var init := parts[..|parts| - 1];
      TerminatedJoin(init);
      assert init[..|init| - 1] == parts[..|parts| - 2];
    }
  }

  /**
   * The header loop of defineProblem: append the letter, the column number and a
   * comma for every column, then cut the last character off.
   */
  method BuildHeader(letter: char, count: nat) returns (header: Option<string>)
    ensures header == HeaderText(letter, count)
  {
    var acc := "";
    for i := 0 to count
      invariant acc == Terminated(Names(letter, i))
    {
      assert Names(letter, i + 1)[..i] == Names(letter, i);
      acc := acc + ([letter] + NatToString(i + 1)) + ",";
    }
    if |acc| == 0 {
      return None;
    }
    TerminatedJoin(Names(letter, count));
    header := Some(acc[..|acc| - 1]);
  }

  /**
   * A header has one name per column, and in order: it starts with the first
   * name and, having no trailing comma, ends in the digits of the last one.
   */
  lemma HeaderMeaning(letter: char, count: nat)
    requires count > 0
    ensures var h := HeaderText(letter, count);
      h.Some? && |h.value| >= 2 && h.value[0] == letter && IsDigit(h.value[|h.value| - 1]) &&
      Terminated(Names(letter, count)) == h.value + ","
  {
    var names := Names(letter, count);
    TerminatedJoin(names);
    JoinEnds(names, letter);
  }

  lemma {:induction false} JoinEnds(names: seq<string>, letter: char)
    requires |names| > 0
    requires forall i :: 0 <= i < |names| ==> |names[i]| >= 2 && names[i][0] == letter && IsDigit(names[i][|names[i]| - 1])
    ensures var j := Join(",", names); |j| >= 2 && j[0] == letter && IsDigit(j[|j| - 1])
    decreases |names|
  {
    if |names| > 1 {
      JoinEnds(names[..|names| - 1], letter);
    }
  }

  /** writeResults: each row's Arrays.toString with the spaces removed. */
  function WriteResults(rows: seq<seq<int>>): (r: seq<string>)
    ensures |r| == |rows|
  {
    seq(|rows|, i requires 0 <= i < |rows| => RemoveSpaces(ArrayToString(rows[i])))
  }

  /** write2csv with a header: the header line, then every string without its brackets. */
  function Write2Csv(header: string, lines: seq<string>): (r: seq<string>)
    ensures |r| == |lines| + 1
  {
    [header] + seq(|lines|, i requires 0 <= i < |lines| => Unbracket(lines[i]))
  }

  /** The written swap files: the header, then every matrix row as its numerals joined by ",". */
  lemma SwapFileMeaning(header: string, rows: seq<seq<int>>)
    ensures var file := Write2Csv(header, WriteResults(rows));
      file[0] == header &&
      forall i :: 0 <= i < |rows| ==> file[i + 1] == Join(",", Numerals(rows[i])) && file[i + 1] == WrittenRow(rows[i])
  {
    var file := Write2Csv(header, WriteResults(rows));
    forall i | 0 <= i < |rows|
      ensures file[i + 1] == WrittenRow(rows[i]) && file[i + 1] == Join(",", Numerals(rows[i]))
    {
      assert file[i + 1] == Unbracket(WriteResults(rows)[i]);
      WrittenRowJoin(rows[i]);
    }
  }

  /**
   * pick_random_agents as written here: it keeps drawing while the set holds at
   * most `amount` ids, so it stops with amount + 1 of them.
   */
  method PickRandomAgents(amount: int, limit: int, draws: seq<int>) returns (picks: Option<set<int>>, used: nat)
    requires forall i :: 0 <= i < |draws| ==> 0 <= draws[i] < limit
    ensures used <= |draws|
    ensures picks.Some? ==> (picks.value == Agents(draws[..used]) &&
      |picks.value| == (if amount < 0 then 0 else amount + 1) &&
      forall a :: a in picks.value ==> 1 <= a <= limit)
    ensures forall u :: 0 <= u < used ==> |Agents(draws[..u])| <= amount
    ensures picks.None? ==> used == |draws| && |Agents(draws)| <= amount
  {
    var chosen: set<int> := {};
    used := 0;
    assert draws[..0] == [];
    while |chosen| <= amount && used < |draws|
      invariant used <= |draws| && chosen == Agents(draws[..used])
      invariant forall u :: 0 <= u < used ==> |Agents(draws[..u])| <= amount
      invariant amount >= 0 ==> |chosen| <= amount + 1
      decreases |draws| - used
    {
      AgentsStep(draws, used);
      chosen := chosen + {draws[used] + 1};
      used := used + 1;
    }
    if |chosen| <= amount {
      assert draws[..used] == draws;
      picks := None;
    } else {
      AgentsWithin(draws[..used], limit);
      picks := Some(chosen);
    }
  }

  /** The generator's swap map and its combination table. */
  class Generator {
    var swaps: map<int, int>
    const table: Combinations.CombinationTable

    constructor(table: Combinations.CombinationTable)
      ensures swaps == map[] && this.table == table
    {
      swaps := map[];
      this.table := table;
    }

    /**
     * init_swaps: `shuffled` is the order Collections.shuffle left 0..size-1 in;
     * row i is mapped to shuffled[i], and keys beyond size keep their entries.
     */
    method InitSwaps(size: nat, shuffled: seq<int>)
      requires IsPermutation(shuffled, size)
      modifies this
      ensures SwapsCover(swaps, size) && SwapOrder(swaps, size) == shuffled
      ensures IsPermutation(SwapOrder(swaps, size), size)
      ensures forall k :: k in old(swaps) && !(0 <= k < size) ==> k in swaps && swaps[k] == old(swaps)[k]
      ensures forall k :: k in swaps ==> k in old(swaps) || 0 <= k < size
    {
      for i := 0 to size
        invariant forall h :: 0 <= h < i ==> h in swaps && swaps[h] == shuffled[h]
        invariant forall k :: k in old(swaps) && !(0 <= k < i) ==> k in swaps && swaps[k] == old(swaps)[k]
        invariant forall k :: k in swaps ==> k in old(swaps) || 0 <= k < i
      {
        swaps := swaps[i := shuffled[i]];
      }
    }

    /**
     * swap: in place, row i becomes the original row swaps[i]; the rows are read
     * from a shallow copy taken before any is overwritten.
     */
    method Swap(mat: array<seq<int>>)
      requires SwapsCover(swaps, mat.Length)
      modifies mat
      ensures mat[..] == Permuted(old(mat[..]), SwapOrder(swaps, mat.Length))
    {
      var tmp := mat[..];
      for i := 0 to mat.Length
        invariant forall h :: 0 <= h < i ==> mat[h] == tmp[swaps[h]]
        invariant forall h :: i <= h < mat.Length ==> mat[h] == tmp[h]
      {
        mat[i] := tmp[swaps[i]];
      }
    }

    /** The swap defineProblem needs for the friendship matrix: rows and columns relabelled alike. */
    method SwapAgents(mat: array<seq<int>>)
      requires SwapsCover(swaps, mat.Length) && IsPermutation(SwapOrder(swaps, mat.Length), mat.Length)
      requires forall i :: 0 <= i < mat.Length ==> |mat[i]| == mat.Length
      modifies mat
      ensures mat[..] == Relabelled(old(mat[..]), SwapOrder(swaps, mat.Length))
    {
      var tmp := mat[..];
      var order := SwapOrder(swaps, mat.Length);
      for i := 0 to mat.Length
        invariant forall h :: 0 <= h < i ==> mat[h] == Permuted(tmp[order[h]], order)
        invariant forall h :: i <= h < mat.Length ==> mat[h] == tmp[h]
      {
        var row := tmp[swaps[i]];
        var relabelled: seq<int> := [];
        for j := 0 to mat.Length
          invariant |relabelled| == j && forall h :: 0 <= h < j ==> relabelled[h] == row[order[h]]
        {
          relabelled := relabelled + [row[swaps[j]]];
        }
        mat[i] := relabelled;
      }
    }

    /**
     * defineProblem once both matrices are read: exit when their row counts
     * differ; otherwise draw the swap order, permute the rows of both the friendship
     * matrix and the course ratings by it, write both with their headers, and set
     * up the course combinations.
     */
    method DefineProblem(friends: array<seq<int>>, courses: array<seq<int>>, shuffled: seq<int>,
                         listCourses: seq<string>, c: int) returns (o: Outcome)
      requires friends != courses
      requires IsPermutation(shuffled, friends.Length)
      modifies this, friends, courses, table
      ensures friends.Length != courses.Length ==> (o == Exit && friends[..] == old(friends[..]) &&
        courses[..] == old(courses[..]) && swaps == old(swaps))
      ensures friends.Length == courses.Length ==> (
        SwapsCover(swaps, friends.Length) && SwapOrder(swaps, friends.Length) == shuffled &&
        friends[..] == Permuted(old(friends[..]), shuffled) &&
        courses[..] == Permuted(old(courses[..]), shuffled))
      ensures friends.Length == courses.Length && friends.Length > 0 && |friends[0]| > 0 && |courses[0]| > 0 && c >= 0 ==> (
        o == Defined(
          Write2Csv(HeaderText('a', |friends[0]|).value, WriteResults(friends[..])),
          Write2Csv(HeaderText('c', |courses[0]|).value, WriteResults(courses[..])),
          Combinations.Combos(|listCourses|, c)) &&
        table.d == |o.combinations| && |table.courseCombinations| == table.d &&
        Combinations.IndexesCourses(o.combinations, listCourses) &&
        forall i :: 0 <= i < table.d ==>
          table.courseCombinations[i] == Combinations.Named(o.combinations[i], listCourses))
      ensures friends.Length == courses.Length && !(friends.Length > 0 && |friends[0]| > 0 && |courses[0]| > 0 && c >= 0) ==> o == Crash
    {
      if friends.Length != courses.Length {
        return Exit;
      }
      InitSwaps(friends.Length, shuffled);
      Swap(friends);
      Swap(courses);
      if friends.Length == 0 {
        return Crash;
      }
      var friendsHeader := BuildHeader('a', |friends[0]|);
      if friendsHeader.None? {
        return Crash;
      }
      var friendsFile := Write2Csv(friendsHeader.value, WriteResults(friends[..]));
      var coursesHeader := BuildHeader('c', |courses[0]|);
      if coursesHeader.None? {
        return Crash;
      }
      var coursesFile := Write2Csv(coursesHeader.value, WriteResults(courses[..]));
      if c < 0 {
        return Crash;
      }
      var combinations := Combinations.Generate(|listCourses|, c);
      Combinations.CombosIndexCourses(listCourses, c);
      table.ConvertCombinations(combinations, listCourses);
      o := Defined(friendsFile, coursesFile, combinations);
    }
  }
}
