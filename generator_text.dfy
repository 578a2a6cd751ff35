/**
 * The text the problem generators write: decimal numerals, the "a1".."an" and
 * "c1".."ck" name rows, comma-joined CSV rows, and the inversion of a course
 * ranking into per-course scores (convertRatings).
 */
module GeneratorText {
  import opened Common

  predicate IsDigit(c: char)
  {
    '0' <= c <= '9'
  }

  function Digit(d: int): (c: char)
    requires 0 <= d < 10
    ensures IsDigit(c)
  {
    ('0' as int + d) as char
  }

  /** Integer.toString on a non-negative value: its decimal digits, most significant first. */
  function NatToString(n: nat): (s: string)
    ensures |s| >= 1 && forall i :: 0 <= i < |s| ==> IsDigit(s[i])
  {
    if n < 10 then [Digit(n)] else NatToString(n / 10) + [Digit(n % 10)]
  }

  /** Integer.toString and String.valueOf: a minus sign before the digits of a negative value. */
  function IntToString(x: int): string
  {
    if x < 0 then "-" + NatToString(-x) else NatToString(x)
  }

  /** Integer.parseInt on a string of decimal digits. */
  function ParseDigits(s: string): int
  {
    if |s| == 0 then 0 else ParseDigits(s[..|s| - 1]) * 10 + (s[|s| - 1] as int - '0' as int)
  }

  /** Integer.parseInt: an optional minus sign, then decimal digits. */
  function ParseInt(s: string): int
  {
    if |s| > 0 && s[0] == '-' then -ParseDigits(s[1..]) else ParseDigits(s)
  }

  /** Reading back the digits Integer.toString wrote gives the number again. */
  lemma {:induction false} ParseNatToString(n: nat)
    ensures ParseDigits(NatToString(n)) == n
    decreases n
  {
    if n >= 10 {
      var s := NatToString(n);
      ParseNatToString(n / 10);
      assert s[..|s| - 1] == NatToString(n / 10);
    }
  }

  /** Integer.parseInt(Integer.toString(x)) == x, for every int. */
  lemma ParseIntToString(x: int)
    ensures ParseInt(IntToString(x)) == x
  {
    if x < 0 {
      var s := IntToString(x);
      assert s[1..] == NatToString(-x);
      ParseNatToString(-x);
    } else {
      ParseNatToString(x);
      assert IsDigit(NatToString(x)[0]);
    }
  }

  /** courses_names / friends_names: `k` names, the letter followed by 1..k. */
  function Names(letter: char, k: nat): (r: seq<string>)
    ensures |r| == k
  {
    seq(k, i requires 0 <= i < k => [letter] + NatToString(i + 1))
  }

  /**
   * Name i starts with the letter and reads back as i + 1, so the k names are
   * pairwise different; the names of a shorter row are its prefix.
   */
  lemma NamesMeaning(letter: char, k: nat)
    ensures var r := Names(letter, k);
      (forall i :: 0 <= i < k ==> |r[i]| >= 2 && r[i][0] == letter && ParseDigits(r[i][1..]) == i + 1) &&
      (forall i, j :: 0 <= i < k && 0 <= j < k && r[i] == r[j] ==> i == j) &&
      (forall h :: 0 <= h <= k ==> r[..h] == Names(letter, h))
  {
    var r := Names(letter, k);
    forall i | 0 <= i < k
      ensures |r[i]| >= 2 && r[i][0] == letter && ParseDigits(r[i][1..]) == i + 1
    {
      assert r[i][1..] == NatToString(i + 1);
      ParseNatToString(i + 1);
    }
  }

  /** String.join(sep, parts): the parts with `sep` between neighbours. */
  function Join(sep: string, parts: seq<string>): string
  {
    if |parts| == 0 then ""
    else if |parts| == 1 then parts[0]
    else Join(sep, parts[..|parts| - 1]) + sep + parts[|parts| - 1]
  }

  /** The numerals of a row of integers. */
  function Numerals(xs: seq<int>): (r: seq<string>)
    ensures |r| == |xs| && forall i :: 0 <= i < |xs| ==> r[i] == IntToString(xs[i])
  {
    seq(|xs|, i requires 0 <= i < |xs| => IntToString(xs[i]))
  }

  /** Arrays.toString: the numerals between brackets, separated by a comma and a space. */
  function ArrayToString(xs: seq<int>): string
  {
    "[" + Join(", ", Numerals(xs)) + "]"
  }

  /** String.replace(" ", ""): every space dropped. */
  function RemoveSpaces(s: string): string
  {
    if |s| == 0 then ""
    else RemoveSpaces(s[..|s| - 1]) + (if s[|s| - 1] == ' ' then "" else [s[|s| - 1]])
  }

  lemma {:induction false} RemoveSpacesAppend(a: string, b: string)
    ensures RemoveSpaces(a + b) == RemoveSpaces(a) + RemoveSpaces(b)
    decreases |b|
  {
    if |b| > 0 {
      var b' := b[..|b| - 1];
      assert (a + b)[..|a + b| - 1] == a + b';
      RemoveSpacesAppend(a, b');
    } else {
      assert a + b == a;
    }
  }

  /** A character a CSV row of integers may hold. */
  predicate NumeralChar(c: char)
  {
    IsDigit(c) || c == '-'
  }

  predicate NumeralsOnly(s: string)
  {
    forall i :: 0 <= i < |s| ==> NumeralChar(s[i])
  }

  lemma NumeralText(x: int)
    ensures NumeralsOnly(IntToString(x))
  {
  }

  lemma {:induction false} RemoveSpacesKeeps(s: string)
    requires NumeralsOnly(s)
    ensures RemoveSpaces(s) == s
    decreases |s|
  {
    if |s| > 0 {
      RemoveSpacesKeeps(s[..|s| - 1]);
      assert s[..|s| - 1] + [s[|s| - 1]] == s;
    }
  }

  lemma RemoveSpacesSeparator()
    ensures RemoveSpaces(", ") == ","
  {
    assert ", "[..1] == ",";
    assert ","[..0] == "";
  }

  /** Dropping the spaces of a ", "-joined row of numerals gives the ","-joined row. */
  lemma {:induction false} RemoveSpacesJoin(xs: seq<int>)
    ensures RemoveSpaces(Join(", ", Numerals(xs))) == Join(",", Numerals(xs))
    decreases |xs|
  {
    var ns := Numerals(xs);
    if |xs| == 1 {
      NumeralText(xs[0]);
      RemoveSpacesKeeps(ns[0]);
    } else if |xs| > 1 {
      var xs' := xs[..|xs| - 1];
      var last := ns[|ns| - 1];
      assert ns[..|ns| - 1] == Numerals(xs');
      var wide := Join(", ", Numerals(xs'));
      assert Join(", ", ns) == wide + ", " + last;
      assert Join(",", ns) == Join(",", Numerals(xs')) + "," + last;
      RemoveSpacesJoin(xs');
      NumeralText(xs[|xs| - 1]);
      RemoveSpacesKeeps(last);
      RemoveSpacesAppend(wide + ", ", last);
      RemoveSpacesAppend(wide, ", ");
      RemoveSpacesSeparator();
    }
  }

  /** Every character of a ","-joined row of numerals is a digit, a minus sign or a comma. */
  lemma {:induction false} JoinedNumeralChars(xs: seq<int>)
    ensures forall i :: 0 <= i < |Join(",", Numerals(xs))| ==> NumeralChar(Join(",", Numerals(xs))[i]) || Join(",", Numerals(xs))[i] == ','
    decreases |xs|
  {
    var ns := Numerals(xs);
    if |xs| == 1 {
      NumeralText(xs[0]);
    } else if |xs| > 1 {
      var xs' := xs[..|xs| - 1];
      assert ns[..|ns| - 1] == Numerals(xs');
      JoinedNumeralChars(xs');
      NumeralText(xs[|xs| - 1]);
    }
  }

  /**
   * writeResults then write2csv: the row's Arrays.toString with its spaces removed and
   * its first and last characters (the brackets) cut off.
   */
  function WrittenRow(xs: seq<int>): string
  {
    Unbracket(RemoveSpaces(ArrayToString(xs)))
  }

  /** substring(1, length - 1): the text without its first and last characters. */
  function Unbracket(s: string): string
  {
    if |s| >= 2 then s[1..|s| - 1] else ""
  }

  lemma RemoveSpacesBrackets()
    ensures RemoveSpaces("[") == "[" && RemoveSpaces("]") == "]"
  {
    assert "["[..0] == "" && "]"[..0] == "";
  }

  lemma WrittenRowJoin(xs: seq<int>)
    ensures WrittenRow(xs) == Join(",", Numerals(xs))
  {
    var body := Join(", ", Numerals(xs));
    RemoveSpacesAppend("[" + body, "]");
    RemoveSpacesAppend("[", body);
    RemoveSpacesBrackets();
    RemoveSpacesJoin(xs);
    var s := RemoveSpaces(ArrayToString(xs));
    assert s == "[" + Join(",", Numerals(xs)) + "]";
    assert s[1..|s| - 1] == Join(",", Numerals(xs));
  }

  /**
   * A written row is exactly the row's numerals joined by ","; it holds no space
   * and no bracket, and reading each numeral back gives the row.
   */
  lemma WrittenRowMeaning(xs: seq<int>)
    ensures WrittenRow(xs) == Join(",", Numerals(xs))
    ensures forall i :: 0 <= i < |WrittenRow(xs)| ==> WrittenRow(xs)[i] !in {' ', '[', ']'}
    ensures forall i :: 0 <= i < |xs| ==> ParseInt(Numerals(xs)[i]) == xs[i]
  {
    WrittenRowJoin(xs);
    JoinedNumeralChars(xs);
    forall i | 0 <= i < |xs|
      ensures ParseInt(Numerals(xs)[i]) == xs[i]
    {
      ParseIntToString(xs[i]);
    }
  }

  /** The ratings array while convertRatings runs: None once an index has fallen outside it. */
  function Fill(courses: seq<int>, k: nat): (r: Option<seq<Option<int>>>)
    requires k <= |courses|
    ensures r.Some? ==> |r.value| == |courses|
  {
    if k == 0 then Some(seq(|courses|, _ => None))
    else
      match Fill(courses, k - 1)
      case None => None
      case Some(ratings) =>
        var c := courses[k - 1];
        if 1 <= c <= |courses| then Some(ratings[c - 1 := Some(|courses| - (k - 1))]) else None
  }

  /**
   * convertRatings on a parsed line: course `courses[i]` (1-based) gets score
   * m - i, where m is the line's length. A course number outside 1..m throws
   * (None); entries no course names stay null (None inside the result).
   */
  function ConvertRatings(courses: seq<int>): Option<seq<Option<int>>>
  {
    Fill(courses, |courses|)
  }

  /** The line names every course 1..m exactly once. */
  predicate IsRanking(courses: seq<int>)
  {
    (forall i :: 0 <= i < |courses| ==> 1 <= courses[i] <= |courses|) &&
    (forall i, j :: 0 <= i < |courses| && 0 <= j < |courses| && courses[i] == courses[j] ==> i == j) &&
    (forall c :: 1 <= c <= |courses| ==> c in courses)
  }

  lemma {:induction false} FillFails(courses: seq<int>, k: nat)
    requires k <= |courses|
    ensures Fill(courses, k).None? <==> exists i :: 0 <= i < k && !(1 <= courses[i] <= |courses|)
  {
    if k > 0 {
      FillFails(courses, k - 1);
    }
  }

  lemma {:induction false} FillWrites(courses: seq<int>, k: nat)
    requires k <= |courses| && IsRanking(courses)
    ensures Fill(courses, k).Some?
    ensures forall i :: 0 <= i < k ==> Fill(courses, k).value[courses[i] - 1] == Some(|courses| - i)
  {
    if k > 0 {
      FillWrites(courses, k - 1);
    }
  }

  /** convertRatings throws exactly when some course number lies outside 1..m. */
  lemma ConvertRatingsFails(courses: seq<int>)
    ensures ConvertRatings(courses).None? <==> exists i :: 0 <= i < |courses| && !(1 <= courses[i] <= |courses|)
  {
    FillFails(courses, |courses|);
  }

  /** Every entry is a score in 1..m and no two entries share one: the scores m..1 in some order. */
  predicate ScorePermutation(r: seq<Option<int>>)
  {
    (forall j :: 0 <= j < |r| ==> r[j].Some? && 1 <= r[j].value <= |r|) &&
    (forall j1, j2 :: 0 <= j1 < |r| && 0 <= j2 < |r| && r[j1] == r[j2] ==> j1 == j2)
  }

  /**
   * For a ranking of 1..m, the course listed at position i scores m - i (the first
   * m, the last 1), no entry stays null, and the scores are a permutation of 1..m.
   */
  lemma ConvertRatingsInverts(courses: seq<int>)
    requires IsRanking(courses)
    ensures var r := ConvertRatings(courses);
      r.Some? && |r.value| == |courses| &&
      (forall i :: 0 <= i < |courses| ==> r.value[courses[i] - 1] == Some(|courses| - i)) &&
      (forall j :: 0 <= j < |courses| ==> r.value[j].Some? && 1 <= r.value[j].value <= |courses|) &&
      (forall j1, j2 :: 0 <= j1 < |courses| && 0 <= j2 < |courses| && r.value[j1] == r.value[j2] ==> j1 == j2) &&
      (forall v :: 1 <= v <= |courses| ==> r.value[courses[|courses| - v] - 1] == Some(v))
  {
    var m := |courses|;
    FillWrites(courses, m);
    var r := ConvertRatings(courses).value;
    forall j | 0 <= j < m
      ensures r[j].Some? && 1 <= r[j].value <= m
    {
      assert j + 1 in courses;
      var i :| 0 <= i < m && courses[i] == j + 1;
    }
    forall j1, j2 | 0 <= j1 < m && 0 <= j2 < m && r[j1] == r[j2]
      ensures j1 == j2
    {
      assert j1 + 1 in courses && j2 + 1 in courses;
      var i1 :| 0 <= i1 < m && courses[i1] == j1 + 1;
      var i2 :| 0 <= i2 < m && courses[i2] == j2 + 1;
    }
  }

  /** The text of one score: String.valueOf of the value, or "null" for an entry never written. */
  function ScoreText(o: Option<int>): string
  {
    match o
    case None => "null"
    case Some(v) => IntToString(v)
  }
}
