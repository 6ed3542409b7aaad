/**
 * Row sets of a table held in storage order. A `SELECT ... WHERE c` keeps the
 * rows satisfying `c`; a `DELETE ... WHERE c` leaves the rows that do not.
 */
module Filtering {

  /** The rows of `s` that satisfy `p`, in their storage order. */
  function Filter<T>(s: seq<T>, p: T -> bool): (r: seq<T>)
    ensures |r| <= |s|
    ensures forall x :: x in r ==> x in s && p(x)
  {
    if |s| == 0 then []
    else Filter(s[..|s| - 1], p) + (if p(s[|s| - 1]) then [s[|s| - 1]] else [])
  }

  /** Rows whose key strictly increases along the storage order (rows appended with fresh auto-increment ids). */
  predicate Ascending<T>(s: seq<T>, key: T -> int)
  {
    forall i, j :: 0 <= i < j < |s| ==> key(s[i]) < key(s[j])
  }

  /** Every row that satisfies the condition is kept. */
  lemma {:induction false} FilterKeeps<T>(s: seq<T>, p: T -> bool, x: T)
    requires x in s && p(x)
    ensures x in Filter(s, p)
  {
    var n := |s| - 1;
    assert s == s[..n] + [s[n]];
    if s[n] != x {
      FilterKeeps(s[..n], p, x);
    }
  }

  /** Membership in a filtered table, both directions. */
  lemma FilterMembers<T>(s: seq<T>, p: T -> bool)
    ensures forall x :: x in Filter(s, p) <==> x in s && p(x)
  {
    forall x | x in s && p(x) ensures x in Filter(s, p) {
      FilterKeeps(s, p, x);
    }
  }

  /** A condition that every row satisfies keeps the table as it is. */
  lemma {:induction false} FilterAll<T>(s: seq<T>, p: T -> bool)
    requires forall x :: x in s ==> p(x)
    ensures Filter(s, p) == s
  {
    if |s| > 0 {
      var n := |s| - 1;
      assert s == s[..n] + [s[n]];
      FilterAll(s[..n], p);
    }
  }

  /** A condition that no row satisfies selects nothing. */
  lemma {:induction false} FilterNone<T>(s: seq<T>, p: T -> bool)
    requires forall x :: x in s ==> !p(x)
    ensures Filter(s, p) == []
  {
    if |s| > 0 {
      var n := |s| - 1;
      assert s[n] in s;
      assert forall x :: x in s[..n] ==> x in s;
      FilterNone(s[..n], p);
    }
  }

  /** Filtering a table with one more row appended. */
  lemma FilterAppendOne<T>(s: seq<T>, x: T, p: T -> bool)
    ensures Filter(s + [x], p) == Filter(s, p) + (if p(x) then [x] else [])
  {
    assert (s + [x])[..|s|] == s;
  }

  /** Filtering a concatenation filters each part. */
  lemma {:induction false} FilterAppend<T>(s: seq<T>, t: seq<T>, p: T -> bool)
    ensures Filter(s + t, p) == Filter(s, p) + Filter(t, p)
  {
    if |t| == 0 {
      assert s + t == s;
    } else {
      var n := |t| - 1;
      assert (s + t)[..|s + t| - 1] == s + t[..n];
      FilterAppend(s, t[..n], p);
    }
  }

  /** A narrower condition applied after a wider one is the narrower condition alone. */
  lemma {:induction false} FilterNarrower<T>(s: seq<T>, p: T -> bool, q: T -> bool)
    requires forall x :: q(x) ==> p(x)
    ensures Filter(Filter(s, p), q) == Filter(s, q)
  {
    if |s| > 0 {
      var n := |s| - 1;
      var last := if p(s[n]) then [s[n]] else [];
      FilterAppend(Filter(s[..n], p), last, q);
      FilterNarrower(s[..n], p, q);
      if p(s[n]) {
        assert Filter(last, q) == Filter([], q) + (if q(s[n]) then [s[n]] else []);
      }
    }
  }

  /** The rows satisfying a condition and the rows failing it together make up the table. */
  lemma {:induction false} FilterSplit<T>(s: seq<T>, p: T -> bool, q: T -> bool)
    requires forall x :: q(x) == !p(x)
    ensures |Filter(s, p)| + |Filter(s, q)| == |s|
  {
    if |s| > 0 {
      FilterSplit(s[..|s| - 1], p, q);
    }
  }

  /** Dropping rows keeps the remaining keys in ascending order. */
  lemma {:induction false} FilterAscending<T>(s: seq<T>, p: T -> bool, key: T -> int)
    requires Ascending(s, key)
    ensures Ascending(Filter(s, p), key)
  {
    if |s| > 0 {
      var n := |s| - 1;
      var f := Filter(s[..n], p);
      FilterAscending(s[..n], p, key);
      forall i | 0 <= i < |f| ensures key(f[i]) < key(s[n]) {
        assert f[i] in s[..n];
        var k :| 0 <= k < n && s[..n][k] == f[i];
        assert s[k] == f[i];
      }
    }
  }

  /** Two ascending tables holding the same rows are the same table: the order is fixed by the keys. */
  lemma {:induction false} AscendingDeterminedByMembers<T>(s: seq<T>, t: seq<T>, key: T -> int)
    requires Ascending(s, key) && Ascending(t, key)
    requires forall x :: x in s <==> x in t
    ensures s == t
    decreases |s| + |t|
  {
    assert |s| > 0 ==> s[0] in t;
    assert |t| > 0 ==> t[0] in s;
    if |s| > 0 && |t| > 0 {
      var m, n := |s| - 1, |t| - 1;
      // The last row of each is the row with the greatest key, so both have the same last row.
      assert t[n] in s;
      var i :| 0 <= i < |s| && s[i] == t[n];
      assert s[m] in t;
      var j :| 0 <= j < |t| && t[j] == s[m];
      assert key(t[n]) <= key(s[m]) && key(s[m]) <= key(t[n]);
      assert i == m;
      forall x ensures x in s[..m] <==> x in t[..n] {
        if x in s[..m] {
          var i :| 0 <= i < m && s[..m][i] == x;
          assert key(x) < key(s[m]);
          assert x in t && x != t[n];
          var j :| 0 <= j < |t| && t[j] == x;
          assert t[..n][j] == x;
        }
        if x in t[..n] {
          var j :| 0 <= j < n && t[..n][j] == x;
          assert key(x) < key(t[n]);
          assert x in s && x != s[m];
          var i :| 0 <= i < |s| && s[i] == x;
          assert s[..m][i] == x;
        }
      }
      AscendingDeterminedByMembers(s[..m], t[..n], key);
      assert s == s[..m] + [s[m]];
      assert t == t[..n] + [t[n]];
    }
  }
}
