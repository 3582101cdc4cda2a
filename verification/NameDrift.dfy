/**
 The name-drift pass of the permission audit (Check 5): all pairs of known permission names
 that share their resource and are one edit apart.
 */
module NameDrift {
  import opened EditDistance

  // ----- Permission names -----

  predicate IsLower(c: char) { 'a' <= c <= 'z' }

  predicate IsWordChar(c: char) {
    IsLower(c) || 'A' <= c <= 'Z' || '0' <= c <= '9' || c == '_' || c == '-'
  }

  predicate IsResourceChar(c: char) { IsWordChar(c) || c == ':' || c == '.' }

  /** A lower-case start, resource characters, then a colon, a lower-case letter and word characters. */
  predicate IsNameSplitAt(s: string, colon: nat) {
    && 2 <= colon && colon + 2 < |s|
    && s[colon] == ':' && IsLower(s[0]) && IsLower(s[colon + 1])
    && (forall k :: 0 < k < colon ==> IsResourceChar(s[k]))
    && (forall k :: colon + 1 < k < |s| ==> IsWordChar(s[k]))
  }

  /** What the audit's extraction patterns let through. */
  predicate IsPermissionName(s: string) {
    exists colon | 0 <= colon < |s| :: IsNameSplitAt(s, colon)
  }

  lemma NamesHaveNoBar(s: string)
    requires IsPermissionName(s)
    ensures '|' !in s
  {
  }

  /** The text before the first colon; the whole string when there is none. */
  function Resource(s: string): (r: string)
    ensures r <= s && ':' !in r
    ensures |r| < |s| ==> s[|r|] == ':'
  {
    if s == "" || s[0] == ':' then "" else [s[0]] + Resource(s[1..])
  }

  // ----- The pair loop -----

  predicate Drifts(a: string, b: string) {
    Resource(a) == Resource(b) && Dist(a, b) == 1
  }

  /** The two names of a reported pair, the earlier of the list first. */
  datatype Issue = NameDriftIssue(first: string, second: string)

  function DriftKey(a: string, b: string): string {
    a + "|" + b
  }

  lemma FirstBar(a: string, b: string, k: nat)
    requires '|' !in a && k < |DriftKey(a, b)| && DriftKey(a, b)[k] == '|'
    ensures |a| <= k
  {
    assert DriftKey(a, b)[..|a|] == a;
    assert forall m :: 0 <= m < |a| ==> DriftKey(a, b)[m] == DriftKey(a, b)[..|a|][m];
  }

  /** Without a bar in the names, the key of a pair belongs to that pair alone. */
  lemma DriftKeyInjective(a: string, b: string, c: string, d: string)
    requires '|' !in a && '|' !in c
    requires DriftKey(a, b) == DriftKey(c, d)
    ensures a == c && b == d
  {
    var key := DriftKey(a, b);
    FirstBar(a, b, |c|);
    FirstBar(c, d, |a|);
    assert a == key[..|a|] && c == key[..|c|];
    assert b == key[|a| + 1..] && d == key[|c| + 1..];
  }

  predicate NamesDiffer(known: seq<string>, i: nat, j: nat)
    requires i < |known| && j < |known|
  {
    known[i] != known[j]
  }

  /** The list of names comes from a set, and every name from the extraction patterns. */
  ghost predicate IsKnownList(known: seq<string>) {
    && (forall i, j :: 0 <= i < j < |known| ==> NamesDiffer(known, i, j))
    && (forall i :: 0 <= i < |known| ==> IsPermissionName(known[i]))
  }

  type Pair = (nat, nat)

  predicate DriftsAt(known: seq<string>, x: nat, y: nat)
    requires x < |known| && y < |known|
  {
    Drifts(known[x], known[y])
  }

  /** The positions of the drifting pairs. */
  ghost function DriftingPairs(known: seq<string>): set<Pair> {
    set x: nat, y: nat | x < y < |known| && DriftsAt(known, x, y) :: (x, y)
  }

  ghost predicate IsDriftingSet(known: seq<string>, pairs: set<Pair>) {
    forall x: nat, y: nat {:trigger DriftsAt(known, x, y)} :: x < y < |known| ==> (DriftsAt(known, x, y) <==> (x, y) in pairs)
  }

  /** The pairs of `pairs` that row `i` of the loops meets, for partners before `j`. */
  ghost function RowPairs(pairs: set<Pair>, i: nat, j: nat): seq<Pair>
    requires i < j
  {
    if j == i + 1 then []
    else RowPairs(pairs, i, j - 1) + if (i, j - 1) in pairs then [(i, j - 1)] else []
  }

  /** The pairs that the first `rows` rows meet, for a list of `n` names. */
  ghost function MetPairs(pairs: set<Pair>, n: nat, rows: nat): seq<Pair>
    requires rows <= n
  {
    if rows == 0 then [] else MetPairs(pairs, n, rows - 1) + RowPairs(pairs, rows - 1, n)
  }

  /** Pair (x, y) is met at (i, j) or later. */
  predicate IsAhead(x: int, y: int, i: int, j: int) {
    x > i || (x == i && y >= j)
  }

  /** No key of a pair still ahead has been seen. */
  ghost predicate AheadUnseen(known: seq<string>, seen: set<string>, i: nat, j: nat) {
    forall x, y :: 0 <= x < y < |known| && IsAhead(x, y, i, j) ==> DriftKey(known[x], known[y]) !in seen
  }

  lemma SameNameSamePosition(known: seq<string>, i: nat, j: nat)
    requires IsKnownList(known) && i < |known| && j < |known| && known[i] == known[j]
    ensures i == j
  {
    assert i < j ==> NamesDiffer(known, i, j);
    assert j < i ==> NamesDiffer(known, j, i);
  }

  lemma KeysDiffer(known: seq<string>, i: nat, j: nat, x: nat, y: nat)
    requires IsKnownList(known) && i < j < |known| && x < y < |known|
    requires DriftKey(known[i], known[j]) == DriftKey(known[x], known[y])
    ensures i == x && j == y
  {
    NamesHaveNoBar(known[i]);
    NamesHaveNoBar(known[x]);
    DriftKeyInjective(known[i], known[j], known[x], known[y]);
    SameNameSamePosition(known, i, x);
    SameNameSamePosition(known, j, y);
  }

  lemma SeeKey(known: seq<string>, seen: set<string>, i: nat, j: nat)
    requires IsKnownList(known) && i < j < |known| && AheadUnseen(known, seen, i, j)
    ensures DriftKey(known[i], known[j]) !in seen
    ensures AheadUnseen(known, seen + {DriftKey(known[i], known[j])}, i, j + 1)
  {
    assert IsAhead(i, j, i, j);
    forall x, y | 0 <= x < y < |known| && IsAhead(x, y, i, j + 1)
      ensures DriftKey(known[x], known[y]) !in seen + {DriftKey(known[i], known[j])}
    {
      assert IsAhead(x, y, i, j);
      if DriftKey(known[i], known[j]) == DriftKey(known[x], known[y]) {
        KeysDiffer(known, i, j, x, y);
      }
    }
  }

  lemma NextRowUnseen(known: seq<string>, seen: set<string>, i: nat)
    requires AheadUnseen(known, seen, i, |known|)
    ensures AheadUnseen(known, seen, i + 1, i + 2)
  {
    assert forall x, y :: 0 <= x < y < |known| && IsAhead(x, y, i + 1, i + 2) ==> IsAhead(x, y, i, |known|);
  }

  ghost predicate NoRepeats(pairs: seq<Pair>) {
    forall k, l :: 0 <= k < l < |pairs| ==> pairs[k] != pairs[l]
  }

  lemma {:induction false} RowPairsExact(pairs: set<Pair>, i: nat, j: nat)
    requires i < j
    ensures forall p :: p in RowPairs(pairs, i, j) <==> p in pairs && p.0 == i < p.1 < j
    ensures NoRepeats(RowPairs(pairs, i, j))
    decreases j
  {
    if j > i + 1 {
      RowPairsExact(pairs, i, j - 1);
    }
  }

  lemma JoinNoRepeats(a: seq<Pair>, b: seq<Pair>)
    requires NoRepeats(a) && NoRepeats(b)
    requires forall p :: p in a ==> p !in b
    ensures NoRepeats(a + b)
  {
    forall k, l | 0 <= k < l < |a + b| ensures (a + b)[k] != (a + b)[l] {
      if k < |a| <= l {
        assert (a + b)[k] in a && (a + b)[l] in b;
      }
    }
  }

  lemma {:induction false} MetPairsExact(pairs: set<Pair>, n: nat, rows: nat)
    requires rows <= n
    ensures forall p :: p in MetPairs(pairs, n, rows) <==> p in pairs && p.0 < rows && p.0 < p.1 < n
    ensures NoRepeats(MetPairs(pairs, n, rows))
    decreases rows
  {
    if rows == 0 {
    } else {
      var met, row := MetPairs(pairs, n, rows - 1), RowPairs(pairs, rows - 1, n);
      MetPairsExact(pairs, n, rows - 1);
      RowPairsExact(pairs, rows - 1, n);
      JoinNoRepeats(met, row);
      assert MetPairs(pairs, n, rows) == met + row;
      assert forall p :: p in met + row <==> p in met || p in row;
    }
  }

  function IssueOf(known: seq<string>, p: Pair): Issue
    requires p.0 < |known| && p.1 < |known|
  {
    NameDriftIssue(known[p.0], known[p.1])
  }

  /** The issues are those of the given positions, in that order. */
  ghost predicate IssuesOf(known: seq<string>, issues: seq<Issue>, pairs: seq<Pair>) {
    && |issues| == |pairs|
    && forall k :: 0 <= k < |issues| ==> pairs[k].0 < pairs[k].1 < |known| && issues[k] == IssueOf(known, pairs[k])
  }

  ghost predicate SamePair(p: Issue, q: Issue) {
    {p.first, p.second} == {q.first, q.second}
  }

  /** The pairs of names a report should hold: same resource, and one edit apart. */
  ghost predicate IsFullReport(known: seq<string>, issues: seq<Issue>) {
    && (forall x: nat, y: nat :: x < y < |known| ==>
          (NameDriftIssue(known[x], known[y]) in issues <==> Resource(known[x]) == Resource(known[y]) && OneEdit(known[x], known[y])))
    && (forall issue :: issue in issues ==> exists x: nat, y: nat :: x < y < |known| && issue == NameDriftIssue(known[x], known[y]))
    && (forall k, l :: 0 <= k < l < |issues| ==> !SamePair(issues[k], issues[l]))
  }

  lemma SamePairSamePositions(known: seq<string>, p: Pair, q: Pair)
    requires IsKnownList(known)
    requires p.0 < p.1 < |known| && q.0 < q.1 < |known|
    requires SamePair(IssueOf(known, p), IssueOf(known, q))
    ensures p == q
  {
    var a, b := IssueOf(known, p), IssueOf(known, q);
    assert a.first in {b.first, b.second} && a.second in {b.first, b.second};
    assert b.first in {a.first, a.second};
    if a.first == b.first {
      SameNameSamePosition(known, p.0, q.0);
      if a.second == b.second {
        SameNameSamePosition(known, p.1, q.1);
      } else {
        SameNameSamePosition(known, p.1, q.0);
      }
    } else {
      SameNameSamePosition(known, p.0, q.1);
      SameNameSamePosition(known, p.1, q.0);
    }
  }

  lemma ReportMembers(known: seq<string>, issues: seq<Issue>, pairs: seq<Pair>, x: nat, y: nat)
    requires IsKnownList(known) && IssuesOf(known, issues, pairs)
    requires x < y < |known|
    ensures NameDriftIssue(known[x], known[y]) in issues <==> (x, y) in pairs
  {
    if NameDriftIssue(known[x], known[y]) in issues {
      var k :| 0 <= k < |issues| && issues[k] == NameDriftIssue(known[x], known[y]);
      SamePairSamePositions(known, (x, y), pairs[k]);
    }
    if (x, y) in pairs {
      var k :| 0 <= k < |pairs| && pairs[k] == (x, y);
      assert issues[k] == IssueOf(known, (x, y));
    }
  }

  lemma ReportIsExact(known: seq<string>, issues: seq<Issue>, pairs: seq<Pair>, x: nat, y: nat)
    requires IsKnownList(known) && IssuesOf(known, issues, pairs)
    requires x < y < |known| && ((x, y) in pairs <==> Drifts(known[x], known[y]))
    ensures NameDriftIssue(known[x], known[y]) in issues
       <==> Resource(known[x]) == Resource(known[y]) && OneEdit(known[x], known[y])
  {
    ReportMembers(known, issues, pairs, x, y);
    DistOneIffOneEdit(known[x], known[y]);
  }

  lemma ReportHasNoPairTwice(known: seq<string>, issues: seq<Issue>, pairs: seq<Pair>, k: nat, l: nat)
    requires IsKnownList(known) && IssuesOf(known, issues, pairs) && NoRepeats(pairs)
    requires k < l < |issues|
    ensures !SamePair(issues[k], issues[l])
  {
    if SamePair(issues[k], issues[l]) {
      SamePairSamePositions(known, pairs[k], pairs[l]);
    }
  }

  lemma MetPairsAreFullReport(known: seq<string>, issues: seq<Issue>, drifting: set<Pair>)
    requires IsKnownList(known) && IsDriftingSet(known, drifting)
    requires IssuesOf(known, issues, MetPairs(drifting, |known|, |known|))
    ensures IsFullReport(known, issues)
  {
    var pairs := MetPairs(drifting, |known|, |known|);
    MetPairsExact(drifting, |known|, |known|);
    forall x: nat, y: nat | x < y < |known|
      ensures NameDriftIssue(known[x], known[y]) in issues <==> Resource(known[x]) == Resource(known[y]) && OneEdit(known[x], known[y])
    {
      assert (x, y) in pairs <==> DriftsAt(known, x, y);
      ReportIsExact(known, issues, pairs, x, y);
    }
    forall k, l | 0 <= k < l < |issues| ensures !SamePair(issues[k], issues[l]) {
      ReportHasNoPairTwice(known, issues, pairs, k, l);
    }
  }

  lemma MeetPair(known: seq<string>, issues: seq<Issue>, issues': seq<Issue>, met: seq<Pair>, drifting: set<Pair>, i: nat, j: nat)
    requires i < j < |known|
    requires IssuesOf(known, issues, met + RowPairs(drifting, i, j))
    requires issues' == if (i, j) in drifting then issues + [NameDriftIssue(known[i], known[j])] else issues
    ensures IssuesOf(known, issues', met + RowPairs(drifting, i, j + 1))
  {
    var tail := if (i, j) in drifting then [(i, j)] else [];
    assert met + RowPairs(drifting, i, j + 1) == (met + RowPairs(drifting, i, j)) + tail;
  }

  /** The test of one pair: same resource, and a table that says one. */
  method TestPair(a: string, b: string) returns (drifts: bool)
    ensures drifts == Drifts(a, b)
  {
    if Resource(a) != Resource(b) {
      return false;
    }
    var d := Levenshtein(a, b);
    drifts := d > 0 && d <= 1;
  }

  /** One pair of the inner loop: skipped if its key has been seen, reported if it drifts. */
  method MeetNames(known: seq<string>, i: nat, j: nat, reported: seq<Issue>, seen: set<string>, ghost met: seq<Pair>, ghost drifting: set<Pair>)
      returns (issues: seq<Issue>, driftSeen: set<string>)
    requires i < j < |known| && IsDriftingSet(known, drifting)
    requires IssuesOf(known, reported, met + RowPairs(drifting, i, j))
    ensures driftSeen == seen + {DriftKey(known[i], known[j])}
    ensures DriftKey(known[i], known[j]) in seen ==> issues == reported
    ensures DriftKey(known[i], known[j]) !in seen ==> IssuesOf(known, issues, met + RowPairs(drifting, i, j + 1))
  {
    issues, driftSeen := reported, seen;
    var key := DriftKey(known[i], known[j]);
    if key in driftSeen {
      return;
    }
    driftSeen := driftSeen + {key};
    var drifts := TestPair(known[i], known[j]);
    if drifts {
      issues := issues + [NameDriftIssue(known[i], known[j])];
    }
    assert drifts == DriftsAt(known, i, j);
    MeetPair(known, reported, issues, met, drifting, i, j);
  }

  /** The inner loop: name `i` against every later name. */
  method ReportRow(known: seq<string>, i: nat, reported: seq<Issue>, seen: set<string>, ghost drifting: set<Pair>)
      returns (issues: seq<Issue>, driftSeen: set<string>)
    requires IsKnownList(known) && i < |known| && IsDriftingSet(known, drifting)
    requires IssuesOf(known, reported, MetPairs(drifting, |known|, i))
    requires AheadUnseen(known, seen, i, i + 1)
    ensures IssuesOf(known, issues, MetPairs(drifting, |known|, i + 1))
    ensures AheadUnseen(known, driftSeen, i + 1, i + 2)
  {
    issues, driftSeen := reported, seen;
    ghost var met := MetPairs(drifting, |known|, i);
    assert met + [] == met;
    for j := i + 1 to |known|
      invariant IssuesOf(known, issues, met + RowPairs(drifting, i, j))
      invariant AheadUnseen(known, driftSeen, i, j)
    {
      SeeKey(known, driftSeen, i, j);
      issues, driftSeen := MeetNames(known, i, j, issues, driftSeen, met, drifting);
    }
    NextRowUnseen(known, driftSeen, i);
  }

  /** The outer loop. */
  method ReportRows(known: seq<string>, ghost drifting: set<Pair>) returns (issues: seq<Issue>)
    requires IsKnownList(known) && IsDriftingSet(known, drifting)
    ensures IssuesOf(known, issues, MetPairs(drifting, |known|, |known|))
  {
    issues := [];
    var driftSeen: set<string> := {};
    for i := 0 to |known|
      invariant IssuesOf(known, issues, MetPairs(drifting, |known|, i))
      invariant AheadUnseen(known, driftSeen, i, i + 1)
    {
      issues, driftSeen := ReportRow(known, i, issues, driftSeen, drifting);
    }
  }

  /**
   Reports the pairs one edit apart.  The guard works on the pruned distance; the report is
   nevertheless about the true one, and no pair is lost to `driftSeen`.
   */
  method FindNameDrift(known: seq<string>) returns (issues: seq<Issue>)
    requires IsKnownList(known)
    ensures IsFullReport(known, issues)
  {
    issues := ReportRows(known, DriftingPairs(known));
    MetPairsAreFullReport(known, issues, DriftingPairs(known));
  }
}
