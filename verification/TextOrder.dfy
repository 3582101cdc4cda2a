/** The order of strings, and the sorted duplicate-free lists the scripts build with it. */
module TextOrder {

  /** Character by character; a proper prefix comes first. */
  predicate Less(a: string, b: string) {
    if b == "" then false
    else if a == "" then true
    else a[0] < b[0] || (a[0] == b[0] && Less(a[1..], b[1..]))
  }

  /** `a` ends at `n`, or has the smaller character there; up to there the two agree. */
  ghost predicate DivergesAt(a: string, b: string, n: nat) {
    n <= |a| && n < |b| && a[..n] == b[..n] && (n == |a| || a[n] < b[n])
  }

  lemma DivergesLater(a: string, b: string, n: nat)
    requires a != "" && b != "" && a[0] == b[0]
    ensures DivergesAt(a, b, n + 1) <==> DivergesAt(a[1..], b[1..], n)
  {
    if n + 1 <= |a| && n + 1 < |b| {
      assert a[..n + 1] == [a[0]] + a[1..][..n] && b[..n + 1] == [b[0]] + b[1..][..n];
      assert a[1..][..n] == a[..n + 1][1..] && b[1..][..n] == b[..n + 1][1..];
    }
  }

  /** Less is: a proper prefix, or the smaller character at the first place where the two differ. */
  lemma {:induction false} LessMeaning(a: string, b: string)
    ensures Less(a, b) <==> exists n: nat :: DivergesAt(a, b, n)
    decreases |a|
  {
    if a != "" && b != "" && a[0] == b[0] {
      LessMeaning(a[1..], b[1..]);
      if n: nat :| DivergesAt(a[1..], b[1..], n) {
        DivergesLater(a, b, n);
      }
      if n: nat :| DivergesAt(a, b, n) {
        assert n > 0;
        DivergesLater(a, b, n - 1);
      }
    } else if Less(a, b) {
      assert DivergesAt(a, b, 0);
    } else {
      forall n: nat | 0 < n <= |a| && n < |b| ensures a[..n] != b[..n] {
        assert a[..n][0] == a[0] && b[..n][0] == b[0];
      }
    }
  }

  lemma {:induction false} LessTotal(a: string, b: string)
    ensures Less(a, b) || Less(b, a) || a == b
    ensures !(Less(a, b) && Less(b, a))
    ensures a == b ==> !Less(a, b)
    decreases |a|
  {
    if a == "" || b == "" {
    } else {
      LessTotal(a[1..], b[1..]);
      assert a == [a[0]] + a[1..] && b == [b[0]] + b[1..];
    }
  }

  lemma {:induction false} LessTransitive(a: string, b: string, c: string)
    requires Less(a, b) && Less(b, c)
    ensures Less(a, c)
    decreases |a|
  {
    if a == "" || !(a[0] == b[0] == c[0]) {
    } else {
      LessTransitive(a[1..], b[1..], c[1..]);
    }
  }

  /** Strictly increasing, so without duplicates. */
  ghost predicate IsSorted(s: seq<string>) {
    forall i, j :: 0 <= i < j < |s| ==> Less(s[i], s[j])
  }

  function Insert(x: string, s: seq<string>): seq<string> {
    if s == [] then [x]
    else if x == s[0] then s
    else if Less(x, s[0]) then [x] + s
    else [s[0]] + Insert(x, s[1..])
  }

  /** The non-empty values, sorted, each once. */
  function Unique(values: seq<string>): seq<string> {
    if values == [] then []
    else if values[0] == "" then Unique(values[1..])
    else Insert(values[0], Unique(values[1..]))
  }

  lemma {:induction false} InsertMeaning(x: string, s: seq<string>)
    requires IsSorted(s)
    ensures IsSorted(Insert(x, s))
    ensures forall y :: y in Insert(x, s) <==> y == x || y in s
    decreases |s|
  {
    if s == [] {
    } else {
      LessTotal(x, s[0]);
      var tail := s[1..];
      assert s == [s[0]] + tail;
      if Less(x, s[0]) && x != s[0] {
        forall j | 0 <= j < |s| ensures Less(x, s[j]) {
          if j > 0 { LessTransitive(x, s[0], s[j]); }
        }
      } else if x != s[0] {
        InsertMeaning(x, tail);
        forall j | 0 <= j < |Insert(x, tail)| ensures Less(s[0], Insert(x, tail)[j]) {
          assert Insert(x, tail)[j] in Insert(x, tail);
        }
      }
    }
  }

  /** The result is sorted, and holds exactly the non-empty values. */
  lemma {:induction false} UniqueMeaning(values: seq<string>)
    ensures IsSorted(Unique(values))
    ensures forall x :: x in Unique(values) <==> x != "" && x in values
    decreases |values|
  {
    if values == [] {
    } else {
      UniqueMeaning(values[1..]);
      if values[0] != "" {
        InsertMeaning(values[0], Unique(values[1..]));
      }
    }
  }

  lemma HeadIsLeast(s: seq<string>, x: string)
    requires IsSorted(s) && x in s
    ensures x == s[0] || Less(s[0], x)
  {
  }

  lemma LeastIsFirst(s: seq<string>, t: seq<string>)
    requires IsSorted(s) && IsSorted(t) && s != [] && t != []
    requires forall x :: x in s <==> x in t
    ensures s[0] == t[0]
  {
    HeadIsLeast(t, s[0]);
    HeadIsLeast(s, t[0]);
    LessTotal(s[0], t[0]);
  }

  /** Sorted lists with the same elements are equal. */
  lemma {:induction false} SortedDetermined(s: seq<string>, t: seq<string>)
    requires IsSorted(s) && IsSorted(t)
    requires forall x :: x in s <==> x in t
    ensures s == t
    decreases |s|
  {
    assert t != [] ==> t[0] in t;
    if s == [] {
    } else {
      assert s[0] in t;
      LeastIsFirst(s, t);
      LessTotal(s[0], s[0]);
      assert s == [s[0]] + s[1..] && t == [t[0]] + t[1..];
      forall x ensures x in s[1..] <==> x in t[1..] {
        assert x in s <==> x in t;
        assert s[0] !in s[1..];
        assert t[0] !in t[1..];
      }
      SortedDetermined(s[1..], t[1..]);
    }
  }

  /** Sorting part of the values first changes nothing. */
  lemma UniqueAbsorbs(a: seq<string>, b: seq<string>)
    ensures Unique(Unique(a) + b) == Unique(a + b)
  {
    UniqueMeaning(a);
    UniqueMeaning(Unique(a) + b);
    UniqueMeaning(a + b);
    SortedDetermined(Unique(Unique(a) + b), Unique(a + b));
  }
}
