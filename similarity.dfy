/**
 * `calculateSimilarity`: a Levenshtein distance computed with a dynamic-programming
 * table `track`, turned into a score `1 - distance / maxLength`, or `1` when both
 * strings are empty. Scores are exact rationals, so the matcher's `< 0.5` test is exact.
 */
module Similarity {

  function Min3(a: nat, b: nat, c: nat): nat
  {
    if a <= b && a <= c then a else if b <= c then b else c
  }

  function Max(a: nat, b: nat): nat
  {
    if a >= b then a else b
  }

  /** The `indicator` of the table: 0 when the two characters agree, 1 otherwise. */
  function Indicator(x: char, y: char): nat
  {
    if x == y then 0 else 1
  }

  /**
   * Edit distance between the prefixes `a[..i]` and `b[..j]` (insertion, deletion and
   * substitution each cost 1): the recurrence cell `track[j][i]` of the table follows.
   */
  function Distance(a: string, b: string, i: nat, j: nat): nat
    requires i <= |a| && j <= |b|
    decreases i + j
  {
    if i == 0 then j
    else if j == 0 then i
    else Min3(Distance(a, b, i - 1, j) + 1, Distance(a, b, i, j - 1) + 1,
              Distance(a, b, i - 1, j - 1) + Indicator(a[i - 1], b[j - 1]))
  }

  /** The edit distance between two whole strings. */
  function Lev(a: string, b: string): nat
  {
    Distance(a, b, |a|, |b|)
  }

  /** The value `calculateSimilarity` returns. */
  function Score(a: string, b: string): real
  {
    var maxLength := Max(|a|, |b|);
    if maxLength == 0 then 1.0 else 1.0 - (Lev(a, b) as real) / (maxLength as real)
  }

  /** `calculateSimilarity(str1, str2)`: fills the table row by row, then normalises. */
  method CalculateSimilarity(str1: string, str2: string) returns (score: real)
    ensures score == Score(str1, str2)
  {
    var track := new nat[|str2| + 1, |str1| + 1];
    var i := 0;
    while i <= |str1|
      invariant 0 <= i <= |str1| + 1
      invariant forall k :: 0 <= k < i ==> track[0, k] == k
    {
      track[0, i] := i;
      i := i + 1;
    }
    var j := 0;
    while j <= |str2|
      invariant 0 <= j <= |str2| + 1
      invariant forall k :: 0 <= k <= |str1| ==> track[0, k] == k
      invariant forall l :: 0 <= l < j ==> track[l, 0] == l
    {
      track[j, 0] := j;
      j := j + 1;
    }
    j := 1;
    var above := 0;  // the last row filled in, j - 1
    while j <= |str2|
      invariant 1 <= j <= |str2| + 1 && above + 1 == j
      invariant forall k {:trigger track[above, k]} :: 0 <= k <= |str1| ==> track[above, k] == Distance(str1, str2, k, above)
      invariant forall l :: j <= l <= |str2| ==> track[l, 0] == l
    {
      FillRow(track, str1, str2, above, j);
      j, above := j + 1, j;
    }
    var distance := track[|str2|, |str1|];
    var maxLength := Max(|str1|, |str2|);
    if maxLength == 0 {
      return 1.0;
    }
    score := 1.0 - (distance as real) / (maxLength as real);
  }

  /** The inner loop of the table: row `j` from row `above == j - 1`. */
  method FillRow(track: array2<nat>, str1: string, str2: string, above: nat, j: nat)
    requires track.Length0 == |str2| + 1 && track.Length1 == |str1| + 1
    requires 1 <= j <= |str2| && above + 1 == j
    requires forall k {:trigger track[above, k]} :: 0 <= k <= |str1| ==> track[above, k] == Distance(str1, str2, k, above)
    requires track[j, 0] == j
    modifies track
    ensures forall k {:trigger track[j, k]} :: 0 <= k <= |str1| ==> track[j, k] == Distance(str1, str2, k, j)
    ensures forall l :: j < l <= |str2| ==> track[l, 0] == old(track[l, 0])
  {
    var i := 1;
    while i <= |str1|
      invariant 1 <= i <= |str1| + 1
      invariant forall k {:trigger track[above, k]} :: 0 <= k <= |str1| ==> track[above, k] == Distance(str1, str2, k, above)
      invariant forall k {:trigger track[j, k]} :: 0 <= k < i ==> track[j, k] == Distance(str1, str2, k, j)
      invariant forall l :: j < l <= |str2| ==> track[l, 0] == old(track[l, 0])
    {
      var indicator := if str1[i - 1] == str2[j - 1] then 0 else 1;
      var left, up, diagonal := track[j, i - 1], track[above, i], track[above, i - 1];
      DistanceCell(str1, str2, i, j, left, up, diagonal, indicator);
      track[j, i] := Min3(left + 1, up + 1, diagonal + indicator);
      i := i + 1;
    }
  }

  /** One interior cell of the table, from the three cells it is computed from. */
  lemma DistanceCell(a: string, b: string, i: nat, j: nat, left: nat, up: nat, diagonal: nat, indicator: nat)
    requires 1 <= i <= |a| && 1 <= j <= |b|
    requires left == Distance(a, b, i - 1, j) && up == Distance(a, b, i, j - 1)
    requires diagonal == Distance(a, b, i - 1, j - 1) && indicator == Indicator(a[i - 1], b[j - 1])
    ensures Distance(a, b, i, j) == Min3(left + 1, up + 1, diagonal + indicator)
  {
  }

  /** A prefix is at distance 0 from itself. */
  lemma {:induction false} DistanceSelf(a: string, i: nat)
    requires i <= |a|
    ensures Distance(a, a, i, i) == 0
    decreases i
  {
    if i > 0 {
      DistanceSelf(a, i - 1);
    }
  }

  /** Distance 0 between prefixes means the prefixes are equal. */
  lemma {:induction false} DistanceZero(a: string, b: string, i: nat, j: nat)
    requires i <= |a| && j <= |b| && Distance(a, b, i, j) == 0
    ensures a[..i] == b[..j]
    decreases i + j
  {
    if i > 0 && j > 0 {
      DistanceZero(a, b, i - 1, j - 1);
      assert a[..i] == a[..i - 1] + [a[i - 1]] && b[..j] == b[..j - 1] + [b[j - 1]];
    }
  }

  /** The recurrence is symmetric: a deletion in one string is an insertion in the other. */
  lemma {:induction false} DistanceSymmetric(a: string, b: string, i: nat, j: nat)
    requires i <= |a| && j <= |b|
    ensures Distance(a, b, i, j) == Distance(b, a, j, i)
    decreases i + j
  {
    if i > 0 && j > 0 {
      DistanceSymmetric(a, b, i - 1, j);
      DistanceSymmetric(a, b, i, j - 1);
      DistanceSymmetric(a, b, i - 1, j - 1);
      SymmetricCell(a, b, i, j);
    }
  }

  /** The inductive step of `DistanceSymmetric`: one interior cell from its three neighbours. */
  lemma SymmetricCell(a: string, b: string, i: nat, j: nat)
    requires 1 <= i <= |a| && 1 <= j <= |b|
    requires Distance(a, b, i - 1, j) == Distance(b, a, j, i - 1)
    requires Distance(a, b, i, j - 1) == Distance(b, a, j - 1, i)
    requires Distance(a, b, i - 1, j - 1) == Distance(b, a, j - 1, i - 1)
    ensures Distance(a, b, i, j) == Distance(b, a, j, i)
  {
    var x, y, z := Distance(a, b, i - 1, j), Distance(a, b, i, j - 1), Distance(a, b, i - 1, j - 1);
    var indicator := Indicator(a[i - 1], b[j - 1]);
    assert Indicator(b[j - 1], a[i - 1]) == indicator;
    DistanceCell(a, b, i, j, x, y, z, indicator);
    DistanceCell(b, a, j, i, y, x, z, indicator);
    Min3Swap(x + 1, y + 1, z + indicator);
  }

  lemma Min3Swap(x: nat, y: nat, z: nat)
    ensures Min3(x, y, z) == Min3(y, x, z)
  {
  }

  /** No table entry exceeds the longer of its two prefix lengths. */
  lemma {:induction false} DistanceUpper(a: string, b: string, i: nat, j: nat)
    requires i <= |a| && j <= |b|
    ensures Distance(a, b, i, j) <= Max(i, j)
    decreases i + j
  {
    if i > 0 && j > 0 {
      DistanceUpper(a, b, i - 1, j - 1);
    }
  }

  /** At least the difference in length must be inserted or deleted. */
  lemma {:induction false} DistanceLower(a: string, b: string, i: nat, j: nat)
    requires i <= |a| && j <= |b|
    ensures Distance(a, b, i, j) >= i - j && Distance(a, b, i, j) >= j - i
    decreases i + j
  {
    if i > 0 && j > 0 {
      DistanceLower(a, b, i - 1, j);
      DistanceLower(a, b, i, j - 1);
      DistanceLower(a, b, i - 1, j - 1);
    }
  }

  lemma RatioBounds(d: real, m: real)
    requires 0.0 <= d <= m && 0.0 < m
    ensures 0.0 <= d / m <= 1.0
  {
    assert d / m * m == d;
  }

  /** Scores lie in [0, 1]. */
  lemma ScoreBounds(a: string, b: string)
    ensures 0.0 <= Score(a, b) <= 1.0
  {
    DistanceUpper(a, b, |a|, |b|);
    var maxLength := Max(|a|, |b|);
    if maxLength > 0 {
      RatioBounds(Lev(a, b) as real, maxLength as real);
    }
  }

  /** `calculateSimilarity(s, s) == 1`, the empty-string guard included. */
  lemma ScoreSelf(a: string)
    ensures Score(a, a) == 1.0
  {
    DistanceSelf(a, |a|);
  }

  /** A score of 1 happens exactly for identical strings. */
  lemma ScoreOneIffEqual(a: string, b: string)
    ensures Score(a, b) == 1.0 <==> a == b
  {
    if a == b {
      DistanceSelf(a, |a|);
    } else if Max(|a|, |b|) > 0 && Score(a, b) == 1.0 {
      var maxLength := Max(|a|, |b|);
      assert (Lev(a, b) as real) / (maxLength as real) == 0.0;
      assert Lev(a, b) as real == 0.0 * (maxLength as real);
      DistanceZero(a, b, |a|, |b|);
    }
  }

  /** `calculateSimilarity(a, b) == calculateSimilarity(b, a)`. */
  lemma ScoreSymmetric(a: string, b: string)
    ensures Score(a, b) == Score(b, a)
  {
    DistanceSymmetric(a, b, |a|, |b|);
  }

  /** Against the empty string every non-empty string scores 0. */
  lemma ScoreEmpty(s: string)
    requires s != []
    ensures Score("", s) == 0.0 && Score(s, "") == 0.0
  {
  }
}
