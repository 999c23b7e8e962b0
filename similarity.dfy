/**
 * `calculateSimilarity` (src/utils/music/autoplay.ts:20-52): normalised edit
 * distance between two strings after lower-casing, removing everything but ASCII
 * `\w` and `\s`, and trimming.
 */
module Similarity {
  import opened Text

  /** `replace(/[^\w\s]/g, '')`: keeps ASCII word characters and `\s` characters. */
  function KeepWordAndSpace(s: string): (r: string)
    ensures |r| <= |s|
    ensures forall i :: 0 <= i < |r| ==> IsAsciiWord(r[i]) || IsSpace(r[i])
  {
    if s == [] then []
    else (if IsAsciiWord(s[0]) || IsSpace(s[0]) then [s[0]] else []) + KeepWordAndSpace(s[1..])
  }

  lemma {:induction false} KeepWordAndSpaceDropsHangul(s: string)
    requires forall i :: 0 <= i < |s| ==> IsHangul(s[i])
    ensures KeepWordAndSpace(s) == []
  {
    if s != [] {
      KeepWordAndSpaceDropsHangul(s[1..]);
    }
  }

  /** The `normalize` helper of calculateSimilarity. */
  function Normalize(s: string): string {
    Trim(KeepWordAndSpace(ToLower(s)))
  }

  function Min3(x: nat, y: nat, z: nat): (m: nat)
  {
    if x <= y && x <= z then x else if y <= z then y else z
  }

  function Max(x: nat, y: nat): nat {
    if x >= y then x else y
  }

  /**
   * `matrix[i][j]` of the source: the edit distance between the first `i`
   * characters of `b` and the first `j` characters of `a`. Row 0 and column 0 hold
   * their indices; equal characters take the diagonal, others one more than the
   * least of the three neighbours.
   */
  function Dist(a: string, b: string, i: nat, j: nat): nat
    requires i <= |b| && j <= |a|
    decreases i + j
  {
    if i == 0 then j
    else if j == 0 then i
    else if b[i - 1] == a[j - 1] then Dist(a, b, i - 1, j - 1)
    else Min3(Dist(a, b, i - 1, j), Dist(a, b, i, j - 1), Dist(a, b, i - 1, j - 1)) + 1
  }

  lemma DistBounds(a: string, b: string, i: nat, j: nat)
    requires i <= |b| && j <= |a|
    ensures Dist(a, b, i, j) <= Max(i, j)
    ensures Dist(a, b, i, j) >= i - j && Dist(a, b, i, j) >= j - i
  {
    DistAtMostLonger(a, b, i, j);
    DistAtLeastGap(a, b, i, j);
  }

  /** The distance never exceeds the longer prefix. */
  lemma {:induction false} DistAtMostLonger(a: string, b: string, i: nat, j: nat)
    requires i <= |b| && j <= |a|
    ensures Dist(a, b, i, j) <= Max(i, j)
    decreases i + j
  {
    if i > 0 && j > 0 {
      DistAtMostLonger(a, b, i - 1, j - 1);
      if b[i - 1] != a[j - 1] {
        Min3Bounds(Dist(a, b, i - 1, j), Dist(a, b, i, j - 1), Dist(a, b, i - 1, j - 1));
      }
    }
  }

  /** The distance is at least the difference of the prefix lengths. */
  lemma {:induction false} DistAtLeastGap(a: string, b: string, i: nat, j: nat)
    requires i <= |b| && j <= |a|
    ensures Dist(a, b, i, j) >= i - j && Dist(a, b, i, j) >= j - i
    decreases i + j
  {
    if i > 0 && j > 0 {
      DistAtLeastGap(a, b, i - 1, j - 1);
      if b[i - 1] != a[j - 1] {
        DistAtLeastGap(a, b, i - 1, j);
        DistAtLeastGap(a, b, i, j - 1);
        Min3Bounds(Dist(a, b, i - 1, j), Dist(a, b, i, j - 1), Dist(a, b, i - 1, j - 1));
      }
    }
  }

  lemma Min3Bounds(x: nat, y: nat, z: nat)
    ensures Min3(x, y, z) <= x && Min3(x, y, z) <= y && Min3(x, y, z) <= z
    ensures Min3(x, y, z) == x || Min3(x, y, z) == y || Min3(x, y, z) == z
  {
  }

  /** Distance zero only between equal prefixes. */
  lemma {:induction false} DistZero(a: string, b: string, i: nat, j: nat)
    requires i <= |b| && j <= |a|
    requires Dist(a, b, i, j) == 0
    ensures i == j && b[..i] == a[..j]
    decreases i + j
  {
    if i > 0 && j > 0 {
      DistZero(a, b, i - 1, j - 1);
      assert b[..i] == b[..i - 1] + [b[i - 1]];
      assert a[..j] == a[..j - 1] + [a[j - 1]];
    }
  }

  lemma {:induction false} DistSymmetric(a: string, b: string, i: nat, j: nat)
    requires i <= |b| && j <= |a|
    ensures Dist(a, b, i, j) == Dist(b, a, j, i)
    decreases i + j
  {
    if i > 0 && j > 0 {
      if b[i - 1] == a[j - 1] {
        DistSymmetric(a, b, i - 1, j - 1);
      } else {
        DistSymmetric(a, b, i - 1, j);
        DistSymmetric(a, b, i, j - 1);
        DistSymmetric(a, b, i - 1, j - 1);
        Min3Swap(Dist(a, b, i - 1, j), Dist(a, b, i, j - 1), Dist(a, b, i - 1, j - 1));
      }
    }
  }

  lemma Min3Swap(x: nat, y: nat, z: nat)
    ensures Min3(x, y, z) == Min3(y, x, z)
  {
  }

  /** `(maxLength - distance) / maxLength` for two different non-empty strings. */
  function Ratio(a: string, b: string): (r: real)
    requires a != b && |a| > 0 && |b| > 0
    ensures 0.0 <= r < 1.0
  {
    var m := Max(|a|, |b|);
    var d := Dist(a, b, |b|, |a|);
    DistBounds(a, b, |b|, |a|);
    assert b[..|b|] == b && a[..|a|] == a;
    assert d > 0 by {
      if d == 0 {
        DistZero(a, b, |b|, |a|);
      }
    }
    RatioBelowOne(m, d);
    (m - d) as real / m as real
  }

  lemma RatioBelowOne(m: nat, d: nat)
    requires 0 < d <= m
    ensures 0.0 <= (m - d) as real / m as real < 1.0
  {
  }

  lemma RatioSymmetric(a: string, b: string)
    requires a != b && |a| > 0 && |b| > 0
    ensures Ratio(a, b) == Ratio(b, a)
  {
    DistSymmetric(a, b, |b|, |a|);
  }

  /** The score of two already normalised strings. */
  function NormalizedScore(a: string, b: string): (r: real)
    ensures 0.0 <= r <= 1.0
    ensures r == 1.0 <==> a == b
    ensures a != b && (a == [] || b == []) ==> r == 0.0
  {
    if a == b then 1.0
    else if |a| == 0 || |b| == 0 then 0.0
    else Ratio(a, b)
  }

  /** The source's score for two strings. */
  function Similarity(str1: string, str2: string): (r: real)
    ensures 0.0 <= r <= 1.0
  {
    NormalizedScore(Normalize(str1), Normalize(str2))
  }

  /** 1.0 exactly when both strings normalise to the same text. */
  lemma SimilarityOneIffSameNormalForm(str1: string, str2: string)
    ensures Similarity(str1, str2) == 1.0 <==> Normalize(str1) == Normalize(str2)
  {
  }

  /** 0.0 when the normal forms differ and one of them is empty. */
  lemma SimilarityZeroAgainstEmpty(str1: string, str2: string)
    requires Normalize(str1) != Normalize(str2)
    requires Normalize(str1) == [] || Normalize(str2) == []
    ensures Similarity(str1, str2) == 0.0
  {
  }

  lemma SimilaritySymmetric(str1: string, str2: string)
    ensures Similarity(str1, str2) == Similarity(str2, str1)
  {
    var a := Normalize(str1);
    var b := Normalize(str2);
    if a != b && |a| > 0 && |b| > 0 {
      RatioSymmetric(a, b);
    }
  }

  /**
   * Hangul has no ASCII `\w` characters, so two strings made only of Hangul
   * syllables both normalise to "" and score 1.0 whatever syllables they hold.
   */
  lemma HangulOnlyScoresOne(str1: string, str2: string)
    requires forall i :: 0 <= i < |str1| ==> IsHangul(str1[i])
    requires forall i :: 0 <= i < |str2| ==> IsHangul(str2[i])
    ensures Similarity(str1, str2) == 1.0
  {
    ToLowerKeepsHangul(str1);
    ToLowerKeepsHangul(str2);
    KeepWordAndSpaceDropsHangul(str1);
    KeepWordAndSpaceDropsHangul(str2);
  }

  /** calculateSimilarity: normalises both strings, then scores them. */
  method CalculateSimilarity(str1: string, str2: string) returns (r: real)
    ensures r == Similarity(str1, str2)
  {
    r := ScoreOf(Normalize(str1), Normalize(str2));
  }

  /** The early returns, then the nested loops over a (|b|+1) x (|a|+1) integer matrix. */
  method ScoreOf(a: string, b: string) returns (r: real)
    ensures r == NormalizedScore(a, b)
  {
    if a == b {
      return 1.0;
    }
    if |a| == 0 || |b| == 0 {
      return 0.0;
    }
    var distance := EditDistance(a, b);
    var maxLength := Max(|a|, |b|);
    DistBounds(a, b, |b|, |a|);
    r := (maxLength - distance) as real / maxLength as real;
  }

  /** Fills the matrix row by row; the bottom-right cell is the distance. */
  method EditDistance(a: string, b: string) returns (d: nat)
    ensures d == Dist(a, b, |b|, |a|)
  {
    var matrix := NewMatrix(a, b);
    var i := 1;
    while i <= |b|
      invariant 1 <= i <= |b| + 1
      invariant forall ii, jj {:trigger matrix[ii, jj]} :: 0 <= ii < i && 0 <= jj <= |a| ==> matrix[ii, jj] == Dist(a, b, ii, jj)
      invariant forall ii :: i <= ii <= |b| ==> matrix[ii, 0] == ii
    {
      FillRow(a, b, matrix, i);
      i := i + 1;
    }
    d := matrix[|b|, |a|];
  }

  /** A fresh matrix whose column 0 and row 0 hold their indices. */
  method NewMatrix(a: string, b: string) returns (matrix: array2<nat>)
    ensures fresh(matrix) && matrix.Length0 == |b| + 1 && matrix.Length1 == |a| + 1
    ensures forall ii :: 0 <= ii <= |b| ==> matrix[ii, 0] == ii
    ensures forall jj :: 0 <= jj <= |a| ==> matrix[0, jj] == Dist(a, b, 0, jj)
  {
    matrix := new nat[|b| + 1, |a| + 1];
    var i := 0;
    while i <= |b|
      invariant 0 <= i <= |b| + 1
      invariant forall ii :: 0 <= ii < i ==> matrix[ii, 0] == ii
    {
      matrix[i, 0] := i;
      i := i + 1;
    }
    var j := 0;
    while j <= |a|
      invariant 0 <= j <= |a| + 1
      invariant forall jj :: 0 <= jj < j ==> matrix[0, jj] == jj
      invariant forall ii :: 1 <= ii <= |b| ==> matrix[ii, 0] == ii
    {
      matrix[0, j] := j;
      j := j + 1;
    }
  }

  /** Fills row `i` from left to right once the rows above it are filled. */
  method FillRow(a: string, b: string, matrix: array2<nat>, i: nat)
    requires matrix.Length0 == |b| + 1 && matrix.Length1 == |a| + 1 && 1 <= i <= |b|
    requires forall ii, jj {:trigger matrix[ii, jj]} :: 0 <= ii < i && 0 <= jj <= |a| ==> matrix[ii, jj] == Dist(a, b, ii, jj)
    requires forall ii :: i <= ii <= |b| ==> matrix[ii, 0] == ii
    modifies matrix
    ensures forall ii, jj {:trigger matrix[ii, jj]} :: 0 <= ii <= i && 0 <= jj <= |a| ==> matrix[ii, jj] == Dist(a, b, ii, jj)
    ensures forall ii :: i < ii <= |b| ==> matrix[ii, 0] == ii
  {
    var j := 1;
    while j <= |a|
      invariant 1 <= j <= |a| + 1
      invariant forall ii, jj {:trigger matrix[ii, jj]} :: 0 <= ii < i && 0 <= jj <= |a| ==> matrix[ii, jj] == Dist(a, b, ii, jj)
      invariant forall jj {:trigger matrix[i, jj]} :: 0 <= jj < j ==> matrix[i, jj] == Dist(a, b, i, jj)
      invariant forall ii :: i < ii <= |b| ==> matrix[ii, 0] == ii
    {
      if b[i - 1] == a[j - 1] {
        matrix[i, j] := matrix[i - 1, j - 1];
      } else {
        matrix[i, j] := Min3(matrix[i - 1, j], matrix[i, j - 1], matrix[i - 1, j - 1]) + 1;
      }
      j := j + 1;
    }
  }
}
