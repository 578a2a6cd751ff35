/**
 * The FirstModel problem generator of the newer module (modules/FirstModel.java):
 * it samples student rankings into courses.csv (a "c1".."cm" header, then one
 * score row per sampled ranking), builds friendship.csv (an "a1".."an" header,
 * then one row per agent with three friends weighted 6, 4 and 2), and lists the
 * course combinations that make up every agent's domain.
 */
module FirstModel {
  import opened Common
  import opened GeneratorText
  import opened RandomPicks
  import Combinations
  import Strategies

  /** max_friends: the number of friends every agent is given. */
  const MaxFriends := 3

  /**
   * pick_random_agents: draw line numbers 1..limit until `amount` distinct ones are
   * held; `used` is the number of draws consumed.
   */
  method PickRandomAgents(amount: int, limit: int, draws: seq<int>) returns (picks: Option<set<int>>, used: nat)
    requires forall i :: 0 <= i < |draws| ==> 0 <= draws[i] < limit
    ensures used <= |draws|
    ensures picks.Some? ==> (picks.value == Agents(draws[..used]) &&
      |picks.value| == (if amount < 0 then 0 else amount) &&
      forall a :: a in picks.value ==> 1 <= a <= limit)
    ensures forall u :: 0 <= u < used ==> |Agents(draws[..u])| < amount
    ensures picks.None? ==> used == |draws| && |Agents(draws)| < amount
  {
    var chosen: set<int> := {};
    used := 0;
    assert draws[..0] == [];
    while |chosen| < amount && used < |draws|
      invariant used <= |draws| && chosen == Agents(draws[..used])
      invariant forall u :: 0 <= u < used ==> |Agents(draws[..u])| < amount
      invariant amount >= 0 ==> |chosen| <= amount
      decreases |draws| - used
    {
      AgentsStep(draws, used);
      chosen := chosen + {draws[used] + 1};
      used := used + 1;
    }
    if |chosen| < amount {
      assert draws[..used] == draws;
      picks := None;
    } else {
      AgentsWithin(draws[..used], limit);
      picks := Some(chosen);
    }
  }

  /** The friends of an agent in columns before `j`. */
  function Before(friends: set<int>, j: int): set<int>
  {
    set f | f in friends && 0 <= f < j
  }

  /** The weight the friend in column j gets: 6 for the first friend, then 4, then 2. */
  function Weight(friends: set<int>, j: int): int
  {
    (MaxFriends - |Before(friends, j)|) * 2
  }

  /** One friendship row as generate_problem writes it: the weight in each friend's column, "0" elsewhere. */
  function FriendText(n: nat, friends: set<int>): (row: seq<string>)
    ensures |row| == n
  {
    seq(n, j => if j in friends then IntToString(Weight(friends, j)) else "0")
  }

  /**
   * The friend-row loop of generate_problem: walk the columns, writing the
   * weight for a friend and counting it, and "0" for everyone else.
   */
  method FriendRow(n: nat, friends: set<int>) returns (row: seq<string>)
    ensures row == FriendText(n, friends)
  {
    var current := 0;
    row := [];
    assert Before(friends, 0) == {};
    ghost var text := FriendText(n, friends);
    for j := 0 to n
      invariant current == |Before(friends, j)|
      invariant row == text[..j]
    {
      BeforeStep(friends, j);
      assert text[..j + 1] == text[..j] + [text[j]];
      if j in friends {
        row := row + [IntToString((MaxFriends - current) * 2)];
        current := current + 1;
      } else {
        row := row + ["0"];
      }
    }
    assert text[..n] == text;
  }

  lemma BeforeStep(friends: set<int>, j: int)
    requires 0 <= j
    ensures |Before(friends, j + 1)| == |Before(friends, j)| + (if j in friends then 1 else 0)
  {
    if j in friends {
      assert Before(friends, j + 1) == Before(friends, j) + {j};
    } else {
      assert Before(friends, j + 1) == Before(friends, j);
    }
  }

  /** A friend in column j1 is counted before every later column and not before its own. */
  lemma BeforeGrows(friends: set<int>, j1: int, j2: int)
    requires 0 <= j1 < j2 && j1 in friends
    ensures |Before(friends, j1)| < |Before(friends, j2)|
  {
    assert Before(friends, j1) + {j1} <= Before(friends, j2);
    Strategies.SubsetSize(Before(friends, j1) + {j1}, Before(friends, j2));
  }

  /**
   * A row for three friends in [0, n), none of them the agent itself: the entry
   * is nonzero exactly in the friends' columns, so never on the diagonal; each
   * friend's weight is 6, 4 or 2, and the weights fall strictly from left to right.
   */
  lemma FriendRowShape(n: nat, self: int, friends: set<int>)
    requires FriendsOf(friends, n, self)
    ensures var row := FriendText(n, friends);
      (forall j :: 0 <= j < n ==> (row[j] != "0" <==> j in friends)) &&
      (0 <= self < n ==> row[self] == "0") &&
      (forall j :: j in friends ==> Weight(friends, j) in {6, 4, 2}) &&
      (forall j1, j2 :: j1 in friends && j2 in friends && j1 < j2 ==> Weight(friends, j1) > Weight(friends, j2))
  {
    var row := FriendText(n, friends);
    forall j | j in friends
      ensures Weight(friends, j) in {6, 4, 2}
    {
      assert Before(friends, j) <= friends - {j};
      Strategies.SubsetSize(Before(friends, j), friends - {j});
    }
    forall j | 0 <= j < n && j in friends
      ensures row[j] != "0"
    {
      var w := Weight(friends, j);
      assert w in {6, 4, 2};
      assert NatToString(w) == [Digit(w)];
    }
    forall j1, j2 | j1 in friends && j2 in friends && j1 < j2
      ensures Weight(friends, j1) > Weight(friends, j2)
    {
      BeforeGrows(friends, j1, j2);
    }
  }

  /** The score texts of one converted ranking. */
  function ScoreRow(ratings: seq<Option<int>>): (r: seq<string>)
    ensures |r| == |ratings| && forall j :: 0 <= j < |ratings| ==> r[j] == ScoreText(ratings[j])
  {
    seq(|ratings|, j requires 0 <= j < |ratings| => ScoreText(ratings[j]))
  }

  /**
   * The score rows of the sampled lines among the first k, in file order, and
   * whether a line failed to convert (which ends the reading).
   */
  function Sampled(lines: seq<seq<int>>, picks: set<int>, k: nat): (seq<seq<string>>, bool)
    requires k <= |lines|
  {
    if k == 0 then ([], false)
    else
      var prev := Sampled(lines, picks, k - 1);
      if prev.1 || k - 1 !in picks then prev
      else match ConvertRatings(lines[k - 1])
        case None => (prev.0, true)
        case Some(r) => (prev.0 + [ScoreRow(r)], false)
  }

  /** courses.csv's rows: a course-name header sized by the first sampled row, then the rows. */
  function CourseFile(rows: seq<seq<string>>): seq<seq<string>>
  {
    if |rows| == 0 then [] else [Names('c', |rows[0]|)] + rows
  }

  /**
   * The course part of generate_problem: number the lines from 0, convert each
   * sampled one, add the header before the first converted row only, and stop
   * reading at a line that fails to convert.
   */
  method GenerateCourses(lines: seq<seq<int>>, picks: set<int>) returns (rows: seq<seq<string>>)
    ensures rows == CourseFile(Sampled(lines, picks, |lines|).0)
  {
    var index := -1;
    var first := false;
    rows := [];
    var k := 0;
    while k < |lines|
      invariant k <= |lines| && index == k - 1
      invariant !Sampled(lines, picks, k).1
      invariant first <==> |Sampled(lines, picks, k).0| > 0
      invariant rows == CourseFile(Sampled(lines, picks, k).0)
      decreases |lines| - k
    {
      index := index + 1;
      if index in picks {
        var ratings := ConvertRatings(lines[k]);
        if ratings.None? {
          FailureStops(lines, picks, k + 1, |lines|);
          return;
        }
        var text := ScoreRow(ratings.value);
        if !first {
          first := true;
          rows := rows + [Names('c', |text|)];
        }
        rows := rows + [text];
      }
      k := k + 1;
    }
  }

  /** Once a line has failed to convert, later lines add nothing. */
  lemma {:induction false} FailureStops(lines: seq<seq<int>>, picks: set<int>, k: nat, k': nat)
    requires k <= k' <= |lines| && Sampled(lines, picks, k).1
    ensures Sampled(lines, picks, k') == Sampled(lines, picks, k)
    decreases k' - k
  {
    if k < k' {
      FailureStops(lines, picks, k, k' - 1);
    }
  }

  /**
   * Every sampled row is the score row of a sampled line that converted, and when
   * that line is a ranking naming every course once, its scores are a permutation
   * of m..1.
   */
  lemma {:induction false} SampledRows(lines: seq<seq<int>>, picks: set<int>, k: nat)
    requires k <= |lines|
    ensures forall r :: r in Sampled(lines, picks, k).0 ==>
      exists i :: 0 <= i < k && i in picks && ConvertRatings(lines[i]).Some? &&
        r == ScoreRow(ConvertRatings(lines[i]).value) &&
        (IsRanking(lines[i]) ==> ScorePermutation(ConvertRatings(lines[i]).value))
  {
    if k > 0 {
      SampledRows(lines, picks, k - 1);
      var prev := Sampled(lines, picks, k - 1);
      if !prev.1 && k - 1 in picks && ConvertRatings(lines[k - 1]).Some? {
        var i := k - 1;
        if IsRanking(lines[i]) {
          ConvertRatingsInverts(lines[i]);
        }
        assert Sampled(lines, picks, k).0 == prev.0 + [ScoreRow(ConvertRatings(lines[i]).value)];
      }
    }
  }

  /**
   * The header is the only name row: it comes first, has as many names as the
   * first sampled row has scores, and every later row is the score row of a
   * sampled line that converted.
   */
  lemma CourseFileMeaning(lines: seq<seq<int>>, picks: set<int>)
    ensures var rows := Sampled(lines, picks, |lines|).0;
      var file := CourseFile(rows);
      (|rows| == 0 ==> file == []) &&
      (|rows| > 0 ==> |file| == |rows| + 1 && file[0] == Names('c', |rows[0]|) && file[1..] == rows) &&
      (forall h :: 1 <= h < |file| ==>
        exists i :: 0 <= i < |lines| && i in picks && ConvertRatings(lines[i]).Some? &&
          file[h] == ScoreRow(ConvertRatings(lines[i]).value))
  {
    var rows := Sampled(lines, picks, |lines|).0;
    SampledRows(lines, picks, |lines|);
    var file := CourseFile(rows);
    forall h | 1 <= h < |file|
      ensures exists i :: (0 <= i < |lines| && i in picks && ConvertRatings(lines[i]).Some? &&
        file[h] == ScoreRow(ConvertRatings(lines[i]).value))
    {
      assert file[h] == rows[h - 1];
      assert rows[h - 1] in rows;
    }
  }

  /** Three friends in [0, n), none of them the agent `self`: what pick_random_friends(3, self) returns. */
  predicate FriendsOf(friends: set<int>, n: nat, self: int)
  {
    |friends| == MaxFriends && self !in friends && forall f :: f in friends ==> 0 <= f < n
  }

  /** A row generate_problem can write for agent `self`: the text of some friends it may draw. */
  ghost predicate FriendRowOf(row: seq<string>, n: nat, self: int)
  {
    exists friends: set<int> :: FriendsOf(friends, n, self) && row == FriendText(n, friends)
  }

  /**
   * The friendship part of generate_problem: the "a1".."an" header, then for every
   * agent the row of the friends pick_random_friends draws for it; None when an
   * agent's draws run out before three friends are found.
   */
  method GenerateFriends(n: nat, friendDraws: seq<seq<int>>) returns (rows: Option<seq<seq<string>>>)
    requires |friendDraws| == n
    requires forall i, t :: 0 <= i < n && 0 <= t < |friendDraws[i]| ==> 0 <= friendDraws[i][t] < n
    ensures rows.Some? ==> (|rows.value| == n + 1 && rows.value[0] == Names('a', n) &&
      forall i :: 0 <= i < n ==> FriendRowOf(rows.value[1..][i], n, i))
  {
    var body: seq<seq<string>> := [];
    for i := 0 to n
      invariant |body| == i
      invariant forall h :: 0 <= h < i ==> FriendRowOf(body[h], n, h)
    {
      var friends, _ := PickRandomFriends(MaxFriends, i, n, friendDraws[i]);
      if friends.None? {
        return None;
      }
      var row := FriendRow(n, friends.value);
      body := body + [row];
    }
    rows := Some([Names('a', n)] + body);
    assert rows.value[1..] == body;
  }

  /** Every friendship row generate_problem writes has the shape FriendRowShape states. */
  lemma FriendRowsShape(row: seq<string>, n: nat, self: int)
    requires FriendRowOf(row, n, self)
    ensures |row| == n && (0 <= self < n ==> row[self] == "0")
    ensures exists friends: set<int> :: (|friends| == MaxFriends &&
      (forall j :: 0 <= j < n ==> (row[j] != "0" <==> j in friends)) &&
      (forall j :: j in friends ==> Weight(friends, j) in {6, 4, 2}) &&
      (forall j1, j2 :: j1 in friends && j2 in friends && j1 < j2 ==> Weight(friends, j1) > Weight(friends, j2)))
  {
    var friends: set<int> :| FriendsOf(friends, n, self) && row == FriendText(n, friends);
    FriendRowShape(n, self, friends);
  }

  /**
   * generate_problem: courses.csv from the sampled lines of the rankings file, then
   * friendship.csv; the friendship rows are None when some agent's draws run out.
   */
  method GenerateProblem(n: nat, lines: seq<seq<int>>, picks: set<int>, friendDraws: seq<seq<int>>)
    returns (courses: seq<seq<string>>, friends: Option<seq<seq<string>>>)
    requires |friendDraws| == n
    requires forall i, t :: 0 <= i < n && 0 <= t < |friendDraws[i]| ==> 0 <= friendDraws[i][t] < n
    ensures courses == CourseFile(Sampled(lines, picks, |lines|).0)
    ensures friends.Some? ==> (|friends.value| == n + 1 && friends.value[0] == Names('a', n) &&
      forall i :: 0 <= i < n ==> FriendRowOf(friends.value[1..][i], n, i))
  {
    courses := GenerateCourses(lines, picks);
    friends := GenerateFriends(n, friendDraws);
  }

  /**
   * defineProblem after the files are read: `d` and the named combinations are set
   * from generate(m, c) over the m course names; a negative `c` is a negative array
   * size, which throws.
   */
  method DefineProblem(table: Combinations.CombinationTable, listCourses: seq<string>, c: int)
    returns (combinations: Option<seq<seq<int>>>)
    modifies table
    ensures c < 0 ==> (combinations == None && table.d == old(table.d) &&
      table.courseCombinations == old(table.courseCombinations))
    ensures c >= 0 ==> (combinations == Some(Combinations.Combos(|listCourses|, c)) &&
      table.d == |combinations.value| && |table.courseCombinations| == table.d &&
      Combinations.IndexesCourses(combinations.value, listCourses) &&
      forall i :: 0 <= i < table.d ==>
        table.courseCombinations[i] == Combinations.Named(combinations.value[i], listCourses))
  {
    if c < 0 {
      return None;
    }
    var combos := Combinations.Generate(|listCourses|, c);
    Combinations.CombosIndexCourses(listCourses, c);
    table.ConvertCombinations(combos, listCourses);
    combinations := Some(combos);
  }
}
