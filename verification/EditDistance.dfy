/**
 The edit distance of the permission audit.

 The reference notion is an edit path: a chain of strings in which every step inserts, deletes
 or replaces one character at any position.  The table the audit fills is specified by the
 recursion `Dist`, and `Dist` is proved to be the length of a shortest edit path.
 */
module EditDistance {

  // ----- Edit paths: the meaning of "n edits apart" -----

  ghost predicate InsertedAt(u: string, v: string, i: nat) {
    i <= |u| && |v| == |u| + 1 && v[..i] == u[..i] && v[i + 1..] == u[i..]
  }

  ghost predicate ReplacedAt(u: string, v: string, i: nat) {
    i < |u| == |v| && u[i] != v[i] && u[..i] == v[..i] && u[i + 1..] == v[i + 1..]
  }

  /** `v` arises from `u` by one insertion, one deletion or one replacement. */
  ghost predicate OneEdit(u: string, v: string) {
    || (exists i: nat :: InsertedAt(u, v, i))
    || (exists i: nat :: InsertedAt(v, u, i))
    || (exists i: nat :: ReplacedAt(u, v, i))
  }

  ghost predicate IsEditPath(path: seq<string>, a: string, b: string) {
    && |path| > 0
    && path[0] == a
    && path[|path| - 1] == b
    && forall k :: 0 <= k < |path| - 1 ==> OneEdit(path[k], path[k + 1])
  }

  // ----- The recursion the table follows -----

  function Min(x: nat, y: nat): nat {
    if x <= y then x else y
  }

  function Cost(x: char, y: char): nat {
    if x == y then 0 else 1
  }

  /** Distance of two strings, by their last characters. */
  function Dist(a: string, b: string): nat
    decreases |a| + |b|
  {
    var m, n := |a|, |b|;
    if m == 0 then n
    else if n == 0 then m
    else Min(Min(Dist(a[..m - 1], b) + 1, Dist(a, b[..n - 1]) + 1),
             Dist(a[..m - 1], b[..n - 1]) + Cost(a[m - 1], b[n - 1]))
  }

  // ----- Dist is a metric -----

  lemma {:induction false} DistZeroIffEqual(a: string, b: string)
    ensures Dist(a, b) == 0 <==> a == b
    decreases |a| + |b|
  {
    var m, n := |a|, |b|;
    if m == 0 || n == 0 {
    } else {
      DistZeroIffEqual(a[..m - 1], b[..n - 1]);
      assert a == a[..m - 1] + [a[m - 1]];
      assert b == b[..n - 1] + [b[n - 1]];
    }
  }

  lemma {:induction false} DistSymmetric(a: string, b: string)
    ensures Dist(a, b) == Dist(b, a)
    decreases |a| + |b|
  {
    var m, n := |a|, |b|;
    if m == 0 || n == 0 {
    } else {
      DistSymmetric(a[..m - 1], b);
      DistSymmetric(a, b[..n - 1]);
      DistSymmetric(a[..m - 1], b[..n - 1]);
    }
  }

  lemma {:induction false} DistAtLeastLengthGap(a: string, b: string)
    ensures |a| <= |b| + Dist(a, b)
    ensures |b| <= |a| + Dist(a, b)
    decreases |a| + |b|
  {
    var m, n := |a|, |b|;
    if m == 0 || n == 0 {
    } else {
      DistAtLeastLengthGap(a[..m - 1], b);
      DistAtLeastLengthGap(a, b[..n - 1]);
      DistAtLeastLengthGap(a[..m - 1], b[..n - 1]);
    }
  }

  lemma {:induction false} DistAtMostLengthSum(a: string, b: string)
    ensures Dist(a, b) <= |a| + |b|
    decreases |a| + |b|
  {
    var m, n := |a|, |b|;
    if m == 0 || n == 0 {
    } else {
      DistAtMostLengthSum(a[..m - 1], b);
    }
  }

  lemma {:induction false} DistTriangle(a: string, b: string, c: string)
    ensures Dist(a, c) <= Dist(a, b) + Dist(b, c)
    decreases |a| + |b| + |c|
  {
    var m, n, p := |a|, |b|, |c|;
    if m == 0 || p == 0 {
      DistAtLeastLengthGap(b, c);
      DistAtLeastLengthGap(a, b);
    } else if n == 0 {
      DistAtMostLengthSum(a, c);
    } else {
      var a', b', c' := a[..m - 1], b[..n - 1], c[..p - 1];
      if Dist(a, b) == Dist(a', b) + 1 {
        DistTriangle(a', b, c);
      } else if Dist(b, c) == Dist(b, c') + 1 {
        DistTriangle(a, b, c');
      } else if Dist(a, b) == Dist(a, b') + 1 {
        if Dist(b, c) == Dist(b', c) + 1 {
          DistTriangle(a, b', c);
        } else {
          DistTriangle(a, b', c');
        }
      } else if Dist(b, c) == Dist(b', c) + 1 {
        DistTriangle(a', b', c);
      } else {
        DistTriangle(a', b', c');
      }
    }
  }

  // ----- No edit path is shorter than Dist -----

  lemma {:induction false} CommonSuffix(u: string, v: string, s: string)
    ensures Dist(u + s, v + s) <= Dist(u, v)
    decreases |s|
  {
    if s == "" {
      assert u + s == u && v + s == v;
    } else {
      var t := s[..|s| - 1];
      assert (u + s)[..|u + s| - 1] == u + t;
      assert (v + s)[..|v + s| - 1] == v + t;
      CommonSuffix(u, v, t);
    }
  }

  lemma InsertionCostsOne(u: string, v: string, i: nat)
    requires InsertedAt(u, v, i)
    ensures Dist(u, v) <= 1
  {
    var p := u[..i];
    var s := u[i..];
    assert u == p + s && v == (p + [v[i]]) + s;
    assert (p + [v[i]])[..i] == p;
    DistZeroIffEqual(p, p);
    CommonSuffix(p, p + [v[i]], s);
  }

  lemma ReplacementCostsOne(u: string, v: string, i: nat)
    requires ReplacedAt(u, v, i)
    ensures Dist(u, v) <= 1
  {
    var p, q, s := u[..i + 1], v[..i + 1], u[i + 1..];
    assert u == p + s && v == q + s;
    assert p[..i] == u[..i] == q[..i];
    DistZeroIffEqual(p[..i], q[..i]);
    CommonSuffix(p, q, s);
  }

  lemma OneEditCostsOne(u: string, v: string)
    requires OneEdit(u, v)
    ensures Dist(u, v) <= 1
  {
    if i: nat :| InsertedAt(u, v, i) {
      InsertionCostsOne(u, v, i);
    } else if i: nat :| InsertedAt(v, u, i) {
      InsertionCostsOne(v, u, i);
      DistSymmetric(u, v);
    } else {
      var i: nat :| ReplacedAt(u, v, i);
      ReplacementCostsOne(u, v, i);
    }
  }

  lemma {:induction false} NoShorterPath(path: seq<string>, a: string, b: string)
    requires IsEditPath(path, a, b)
    ensures Dist(a, b) <= |path| - 1
    decreases |path|
  {
    if |path| == 1 {
      DistZeroIffEqual(a, b);
    } else {
      var x := path[1];
      assert IsEditPath(path[1..], x, b);
      NoShorterPath(path[1..], x, b);
      OneEditCostsOne(a, x);
      DistTriangle(a, x, b);
    }
  }

  // ----- Some edit path has length Dist -----

  /** Every string of the path, with `c` appended. */
  ghost function Lifted(path: seq<string>, c: char): seq<string> {
    seq(|path|, k requires 0 <= k < |path| => path[k] + [c])
  }

  lemma OneEditLifts(u: string, v: string, c: char)
    requires OneEdit(u, v)
    ensures OneEdit(u + [c], v + [c])
  {
    if i: nat :| InsertedAt(u, v, i) {
      assert InsertedAt(u + [c], v + [c], i);
    } else if i: nat :| InsertedAt(v, u, i) {
      assert InsertedAt(v + [c], u + [c], i);
    } else {
      var i: nat :| ReplacedAt(u, v, i);
      assert ReplacedAt(u + [c], v + [c], i);
    }
  }

  lemma PathLifts(path: seq<string>, a: string, b: string, c: char)
    requires IsEditPath(path, a, b)
    ensures IsEditPath(Lifted(path, c), a + [c], b + [c])
  {
    var lifted := Lifted(path, c);
    forall k | 0 <= k < |lifted| - 1 ensures OneEdit(lifted[k], lifted[k + 1]) {
      OneEditLifts(path[k], path[k + 1], c);
    }
  }

  lemma PathExtends(path: seq<string>, a: string, b: string, c: string)
    requires IsEditPath(path, a, b) && OneEdit(b, c)
    ensures IsEditPath(path + [c], a, c)
  {
    var longer := path + [c];
    forall k | 0 <= k < |longer| - 1 ensures OneEdit(longer[k], longer[k + 1]) {
      if k < |path| - 1 {
        assert OneEdit(path[k], path[k + 1]);
      }
    }
  }

  lemma PathPrepends(path: seq<string>, a: string, b: string, c: string)
    requires OneEdit(a, b) && IsEditPath(path, b, c)
    ensures IsEditPath([a] + path, a, c)
  {
    var longer := [a] + path;
    forall k | 0 <= k < |longer| - 1 ensures OneEdit(longer[k], longer[k + 1]) {
      if k > 0 {
        assert OneEdit(path[k - 1], path[k]);
      }
    }
  }

  ghost predicate HasPath(a: string, b: string, length: nat) {
    exists path :: IsEditPath(path, a, b) && |path| == length
  }

  /** From a path for all but the last characters to a path for the whole strings. */
  lemma PathKeepsOrReplacesLast(init: seq<string>, a: string, b: string, x: char, y: char)
    requires IsEditPath(init, a, b)
    ensures HasPath(a + [x], b + [y], |init| + Cost(x, y))
  {
    PathLifts(init, a, b, x);
    var path := Lifted(init, x);
    assert IsEditPath(path, a + [x], b + [x]);
    if x != y {
      assert ReplacedAt(b + [x], b + [y], |b|);
      PathExtends(path, a + [x], b + [x], b + [y]);
      assert IsEditPath(path + [b + [y]], a + [x], b + [y]);
    }
  }

  lemma PathDeletesLast(tail: seq<string>, a: string, b: string)
    requires a != "" && IsEditPath(tail, a[..|a| - 1], b)
    ensures IsEditPath([a] + tail, a, b)
  {
    assert InsertedAt(a[..|a| - 1], a, |a| - 1);
    PathPrepends(tail, a, a[..|a| - 1], b);
  }

  lemma PathInsertsLast(init: seq<string>, a: string, b: string)
    requires b != "" && IsEditPath(init, a, b[..|b| - 1])
    ensures IsEditPath(init + [b], a, b)
  {
    assert InsertedAt(b[..|b| - 1], b, |b| - 1);
    PathExtends(init, a, b[..|b| - 1], b);
  }

  lemma PathKeepsOrReplacesEnds(init: seq<string>, a: string, b: string)
    requires a != "" && b != "" && IsEditPath(init, a[..|a| - 1], b[..|b| - 1])
    ensures HasPath(a, b, |init| + Cost(a[|a| - 1], b[|b| - 1]))
  {
    var m, n := |a| - 1, |b| - 1;
    PathKeepsOrReplacesLast(init, a[..m], b[..n], a[m], b[n]);
    assert a == a[..m] + [a[m]] && b == b[..n] + [b[n]];
  }

  predicate DeletesLast(a: string, b: string) {
    a != "" && Dist(a, b) == Dist(a[..|a| - 1], b) + 1
  }

  predicate InsertsLast(a: string, b: string) {
    b != "" && Dist(a, b) == Dist(a, b[..|b| - 1]) + 1
  }

  /** What a shortest path does with the last characters. */
  lemma LastEdit(a: string, b: string)
    requires (a != "" || b != "") && !DeletesLast(a, b) && !InsertsLast(a, b)
    ensures a != "" && b != ""
    ensures Dist(a, b) == Dist(a[..|a| - 1], b[..|b| - 1]) + Cost(a[|a| - 1], b[|b| - 1])
  {
  }

  lemma {:induction false} ShortestPathExists(a: string, b: string)
    ensures HasPath(a, b, Dist(a, b) + 1)
    decreases |a| + |b|
  {
    if a == "" && b == "" {
      assert IsEditPath([a], a, b);
    } else if DeletesLast(a, b) {
      ShortestPathExists(a[..|a| - 1], b);
      var tail :| IsEditPath(tail, a[..|a| - 1], b) && |tail| == Dist(a, b);
      PathDeletesLast(tail, a, b);
      assert |[a] + tail| == Dist(a, b) + 1;
    } else if InsertsLast(a, b) {
      ShortestPathExists(a, b[..|b| - 1]);
      var init :| IsEditPath(init, a, b[..|b| - 1]) && |init| == Dist(a, b);
      PathInsertsLast(init, a, b);
      assert |init + [b]| == Dist(a, b) + 1;
    } else {
      LastEdit(a, b);
      ShortestPathExists(a[..|a| - 1], b[..|b| - 1]);
      var init :| IsEditPath(init, a[..|a| - 1], b[..|b| - 1]) && |init| == Dist(a[..|a| - 1], b[..|b| - 1]) + 1;
      PathKeepsOrReplacesEnds(init, a, b);
    }
  }

  /** `Dist` is the length of a shortest edit path: one exists, and none is shorter. */
  lemma DistIsMinimal(a: string, b: string)
    ensures HasPath(a, b, Dist(a, b) + 1)
    ensures forall path :: IsEditPath(path, a, b) ==> |path| >= Dist(a, b) + 1
  {
    ShortestPathExists(a, b);
    forall path | IsEditPath(path, a, b) ensures |path| >= Dist(a, b) + 1 {
      NoShorterPath(path, a, b);
    }
  }

  /** Distance one is exactly one edit. */
  lemma DistOneIffOneEdit(a: string, b: string)
    ensures Dist(a, b) == 1 <==> OneEdit(a, b)
  {
    if Dist(a, b) == 1 {
      ShortestPathExists(a, b);
      var path :| IsEditPath(path, a, b) && |path| == 2;
      assert OneEdit(path[0], path[1]);
    }
    if OneEdit(a, b) {
      OneEditCostsOne(a, b);
      DistZeroIffEqual(a, b);
    }
  }

  // ----- The table -----

  const PRUNED: nat := 99

  function Gap(m: nat, n: nat): nat {
    if m >= n then m - n else n - m
  }

  /** The entry of the table for the first `i` characters of `a` and the first `j` of `b`. */
  ghost function Cell(a: string, b: string, i: nat, j: nat): nat
    requires i <= |a| && j <= |b|
  {
    Dist(a[..i], b[..j])
  }

  lemma CellStep(a: string, b: string, i: nat, j: nat)
    requires 0 < i <= |a| && 0 < j <= |b|
    ensures Cell(a, b, i, j) == Min(Min(Cell(a, b, i - 1, j) + 1, Cell(a, b, i, j - 1) + 1),
                                    Cell(a, b, i - 1, j - 1) + Cost(a[i - 1], b[j - 1]))
  {
    assert a[..i][..i - 1] == a[..i - 1];
    assert b[..j][..j - 1] == b[..j - 1];
  }

  lemma CellOfEmpty(a: string, b: string, i: nat, j: nat)
    requires i <= |a| && j <= |b| && (i == 0 || j == 0)
    ensures Cell(a, b, i, j) == i + j
  {
  }

  /** The first `rows` rows of the table hold the distances of the prefixes. */
  ghost predicate RowsDone(dp: array2<nat>, a: string, b: string, rows: nat)
    requires dp.Length0 == |a| + 1 && dp.Length1 == |b| + 1 && rows <= dp.Length0
    reads dp
  {
    forall r, k :: 0 <= r < rows && 0 <= k <= |b| ==> dp[r, k] == Cell(a, b, r, k)
  }

  /** The inner loop: row `i`, from the row before and the first entry. */
  method FillRow(dp: array2<nat>, a: string, b: string, i: nat)
    requires 0 < i <= |a| && dp.Length0 == |a| + 1 && dp.Length1 == |b| + 1
    requires RowsDone(dp, a, b, i) && forall r :: 0 <= r <= |a| ==> dp[r, 0] == r
    modifies dp
    ensures RowsDone(dp, a, b, i + 1) && forall r :: 0 <= r <= |a| ==> dp[r, 0] == r
  {
    CellOfEmpty(a, b, i, 0);
    for j := 1 to |b| + 1
      invariant forall r :: 0 <= r <= |a| ==> dp[r, 0] == r
      invariant RowsDone(dp, a, b, i)
      invariant forall k :: 0 <= k < j ==> dp[i, k] == Cell(a, b, i, k)
    {
      var cost := if a[i - 1] == b[j - 1] then 0 else 1;
      dp[i, j] := Min(Min(dp[i - 1, j] + 1, dp[i, j - 1] + 1), dp[i - 1, j - 1] + cost);
      CellStep(a, b, i, j);
    }
  }

  /** The borders of the table: deleting everything, or inserting everything. */
  method FillBorders(dp: array2<nat>, a: string, b: string)
    requires dp.Length0 == |a| + 1 && dp.Length1 == |b| + 1
    modifies dp
    ensures forall r :: 0 <= r <= |a| ==> dp[r, 0] == r
    ensures RowsDone(dp, a, b, 1)
  {
    for i := 0 to |a| + 1
      invariant forall r :: 0 <= r < i ==> dp[r, 0] == r
    {
      dp[i, 0] := i;
    }
    for j := 0 to |b| + 1
      invariant forall r :: 0 <= r <= |a| ==> dp[r, 0] == r
      invariant forall k :: 0 <= k < j ==> dp[0, k] == k
    {
      dp[0, j] := j;
    }
    forall k | 0 <= k <= |b| ensures dp[0, k] == Cell(a, b, 0, k) {
      CellOfEmpty(a, b, 0, k);
    }
  }

  /**
   Fills the table row by row.  A length gap above two is pruned to 99; otherwise the answer is
   the distance.  Up to two the answer is the distance in either case, so the prune never
   changes a comparison with one or two.
   */
  method Levenshtein(a: string, b: string) returns (d: nat)
    ensures d == if Gap(|a|, |b|) > 2 then PRUNED else Dist(a, b)
    ensures d <= 2 || Dist(a, b) <= 2 ==> d == Dist(a, b)
  {
    var m, n := |a|, |b|;
    DistAtLeastLengthGap(a, b);
    if Gap(m, n) > 2 {
      return PRUNED;
    }
    var dp := new nat[m + 1, n + 1]((i, j) => 0);
    FillBorders(dp, a, b);
    for i := 1 to m + 1
      invariant forall r :: 0 <= r <= m ==> dp[r, 0] == r
      invariant RowsDone(dp, a, b, i)
    {
      FillRow(dp, a, b, i);
    }
    assert a[..m] == a && b[..n] == b;
    d := dp[m, n];
  }
}
