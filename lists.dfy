/**
 * The two Array operations the pages are built from: `filter` (keep the
 * elements a callback accepts, in order) and a summing `reduce` (fold a
 * numeric projection into a total starting from 0).
 */
module Lists {

  /** `s.filter(keep)`: the elements of `s` that `keep` accepts, in their original order. */
  function Filter<T>(s: seq<T>, keep: T -> bool): (r: seq<T>)
    ensures |r| <= |s|
    ensures forall i :: 0 <= i < |r| ==> keep(r[i])
  {
    if s == [] then []
    else (if keep(s[0]) then [s[0]] else []) + Filter(s[1..], keep)
  }

  /** Filtering neither invents elements nor loses an accepted one. */
  lemma {:induction false} FilterMembers<T>(s: seq<T>, keep: T -> bool)
    ensures forall i :: 0 <= i < |Filter(s, keep)| ==> Filter(s, keep)[i] in s
    ensures forall i :: 0 <= i < |s| && keep(s[i]) ==> s[i] in Filter(s, keep)
  {
    if s != [] {
      FilterMembers(s[1..], keep);
      var rest := Filter(s[1..], keep);
      var head := if keep(s[0]) then [s[0]] else [];
      assert Filter(s, keep) == head + rest;
      forall i | 0 <= i < |s| && keep(s[i]) ensures s[i] in Filter(s, keep) {
        if i > 0 {
          assert s[i] == s[1..][i - 1];
        }
      }
    }
  }

  /** Filtering distributes over concatenation: what survives keeps its relative order. */
  lemma {:induction false} FilterAppend<T>(a: seq<T>, b: seq<T>, keep: T -> bool)
    ensures Filter(a + b, keep) == Filter(a, keep) + Filter(b, keep)
  {
    if a == [] {
      assert a + b == b;
    } else {
      assert (a + b)[0] == a[0];
      assert (a + b)[1..] == a[1..] + b;
      FilterAppend(a[1..], b, keep);
    }
  }

  /** A callback that accepts every element leaves the sequence unchanged. */
  lemma {:induction false} FilterKeepsAll<T>(s: seq<T>, keep: T -> bool)
    requires forall i :: 0 <= i < |s| ==> keep(s[i])
    ensures Filter(s, keep) == s
  {
    if s != [] {
      assert keep(s[0]);
      FilterKeepsAll(s[1..], keep);
    }
  }

  /** Two callbacks that agree on the elements filter alike. */
  lemma {:induction false} FilterCongruent<T>(s: seq<T>, keep1: T -> bool, keep2: T -> bool)
    requires forall i :: 0 <= i < |s| ==> keep1(s[i]) == keep2(s[i])
    ensures Filter(s, keep1) == Filter(s, keep2)
  {
    if s != [] {
      assert keep1(s[0]) == keep2(s[0]);
      FilterCongruent(s[1..], keep1, keep2);
    }
  }

  /** Every element is kept by exactly one of two complementary callbacks. */
  lemma {:induction false} FilterPartition<T>(s: seq<T>, keep: T -> bool, drop: T -> bool)
    requires forall i :: 0 <= i < |s| ==> drop(s[i]) == !keep(s[i])
    ensures |Filter(s, keep)| + |Filter(s, drop)| == |s|
  {
    if s != [] {
      assert drop(s[0]) == !keep(s[0]);
      FilterPartition(s[1..], keep, drop);
    }
  }

  /** Whatever holds of every element still holds of every element that survives a filter. */
  lemma {:induction false} FilterKeepsProperty<T>(s: seq<T>, keep: T -> bool, good: T -> bool)
    requires forall k :: 0 <= k < |s| ==> good(s[k])
    ensures forall j :: 0 <= j < |Filter(s, keep)| ==> good(Filter(s, keep)[j])
  {
    if s != [] {
      assert forall k :: 0 <= k < |s[1..]| ==> s[1..][k] == s[k + 1];
      FilterKeepsProperty(s[1..], keep, good);
    }
  }

  /** Filtering keeps distinct keys distinct. */
  lemma {:induction false} FilterKeepsDistinctKeys<T, K>(s: seq<T>, keep: T -> bool, key: T -> K)
    requires forall i, j :: 0 <= i < j < |s| ==> key(s[i]) != key(s[j])
    ensures forall i, j :: 0 <= i < j < |Filter(s, keep)| ==> key(Filter(s, keep)[i]) != key(Filter(s, keep)[j])
  {
    if s != [] {
      var tail := s[1..];
      assert forall k :: 0 <= k < |tail| ==> tail[k] == s[k + 1];
      FilterKeepsDistinctKeys(tail, keep, key);
      FilterKeepsProperty(tail, keep, (t: T) => key(t) != key(s[0]));
      var rest := Filter(tail, keep);
      var head := if keep(s[0]) then [s[0]] else [];
      var r := head + rest;
      assert r == Filter(s, keep);
      forall i, j | 0 <= i < j < |r| ensures key(r[i]) != key(r[j]) {
        if head != [] && i == 0 {
          assert r[j] == rest[j - 1];
        } else {
          assert r[i] == rest[i - |head|] && r[j] == rest[j - |head|];
        }
      }
    }
  }

  /** `s.reduce((acc, x) => acc + f(x), 0)`, defined from the front; `SumLeftFold` shows it is the left fold. */
  function Sum<T>(s: seq<T>, f: T -> real): real
  {
    if s == [] then 0.0 else f(s[0]) + Sum(s[1..], f)
  }

  /** The order `reduce` folds in: the total of all but the last element, plus the last. */
  lemma SumLeftFold<T>(s: seq<T>, f: T -> real)
    requires s != []
    ensures Sum(s, f) == Sum(s[..|s| - 1], f) + f(s[|s| - 1])
  {
    SumAppend(s[..|s| - 1], [s[|s| - 1]], f);
    assert s[..|s| - 1] + [s[|s| - 1]] == s;
  }

  /** The total of a concatenation is the sum of the totals. */
  lemma {:induction false} SumAppend<T>(a: seq<T>, b: seq<T>, f: T -> real)
    ensures Sum(a + b, f) == Sum(a, f) + Sum(b, f)
  {
    if a == [] {
      assert a + b == b;
    } else {
      assert (a + b)[0] == a[0];
      assert (a + b)[1..] == a[1..] + b;
      SumAppend(a[1..], b, f);
    }
  }

  /** The total splits into the part one callback keeps and the part its complement keeps. */
  lemma {:induction false} SumPartition<T>(s: seq<T>, f: T -> real, keep: T -> bool, drop: T -> bool)
    requires forall i :: 0 <= i < |s| ==> drop(s[i]) == !keep(s[i])
    ensures Sum(s, f) == Sum(Filter(s, keep), f) + Sum(Filter(s, drop), f)
  {
    if s != [] {
      assert drop(s[0]) == !keep(s[0]);
      SumPartition(s[1..], f, keep, drop);
      var k := if keep(s[0]) then [s[0]] else [];
      var n := if drop(s[0]) then [s[0]] else [];
      SumAppend(k, Filter(s[1..], keep), f);
      SumAppend(n, Filter(s[1..], drop), f);
    }
  }

  /** A total of non-negative terms is non-negative. */
  lemma {:induction false} SumNonNegative<T>(s: seq<T>, f: T -> real)
    requires forall i :: 0 <= i < |s| ==> f(s[i]) >= 0.0
    ensures Sum(s, f) >= 0.0
  {
    if s != [] {
      assert f(s[0]) >= 0.0;
      SumNonNegative(s[1..], f);
    }
  }

  /** Changing the term of one position by `d`, and no other, changes the total by `d`. */
  lemma {:induction false} SumBump<T>(a: seq<T>, b: seq<T>, f: T -> real, k: int, d: real)
    requires |a| == |b|
    requires forall i :: 0 <= i < |a| ==> f(b[i]) == f(a[i]) + (if i == k then d else 0.0)
    ensures Sum(b, f) == Sum(a, f) + (if 0 <= k < |a| then d else 0.0)
  {
    if a != [] {
      assert f(b[0]) == f(a[0]) + (if 0 == k then d else 0.0);
      forall i | 0 <= i < |a[1..]|
        ensures f(b[1..][i]) == f(a[1..][i]) + (if i == k - 1 then d else 0.0)
      {
        assert f(b[i + 1]) == f(a[i + 1]) + (if i + 1 == k then d else 0.0);
      }
      SumBump(a[1..], b[1..], f, k - 1, d);
    }
  }
}
