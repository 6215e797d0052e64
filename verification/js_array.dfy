/** The two array operations the views rely on: `[...xs].sort(cmp)` and
    `xs.slice(0, k)`. The sort is stable (as `Array.prototype.sort` has been
    since ES2019) and is given by a "may come before" relation `le`, which
    holds of (a, b) exactly when `cmp(a, b) <= 0`. */
module JsArray {
  import opened Types

  /** `le` is total and transitive: a consistent comparator. */
  ghost predicate TotalPreorder<T(!new)>(le: (T, T) -> bool) {
    && (forall a, b :: le(a, b) || le(b, a))
    && (forall a, b, c :: le(a, b) && le(b, c) ==> le(a, c))
  }

  /** Every element may come before every later one. */
  ghost predicate SortedBy<T>(s: seq<T>, le: (T, T) -> bool) {
    forall i, j :: 0 <= i < j < |s| ==> le(s[i], s[j])
  }

  /** Inserts `x` in front of the first element it may precede. */
  function Insert<T(!new)>(x: T, s: seq<T>, le: (T, T) -> bool): (r: seq<T>)
    ensures multiset(r) == multiset(s) + multiset{x}
    ensures forall y :: y in r ==> y == x || y in s
  {
    if |s| == 0 then [x]
    else if le(x, s[0]) then
      assert s == [s[0]] + s[1..];
      [x] + s
    else
      assert s == [s[0]] + s[1..];
      [s[0]] + Insert(x, s[1..], le)
  }

  /** Inserting into an ordered sequence keeps it ordered. */
  lemma {:induction false} InsertSorted<T(!new)>(x: T, s: seq<T>, le: (T, T) -> bool)
    requires TotalPreorder(le)
    requires SortedBy(s, le)
    ensures SortedBy(Insert(x, s, le), le)
  {
    if |s| > 0 {
      var r := Insert(x, s, le);
      if le(x, s[0]) {
        assert r == [x] + s;
        forall j | 0 < j < |r| ensures le(x, r[j]) {
          assert r[j] == s[j - 1];
          if j > 1 {
            assert le(s[0], s[j - 1]);
          }
        }
      } else {
        var rest := Insert(x, s[1..], le);
        assert r == [s[0]] + rest;
        assert SortedBy(s[1..], le) by {
          forall i, j | 0 <= i < j < |s[1..]| ensures le(s[1..][i], s[1..][j]) {
            assert s[1..][i] == s[i + 1] && s[1..][j] == s[j + 1];
          }
        }
        InsertSorted(x, s[1..], le);
        assert le(s[0], x);
        forall y | y in rest ensures le(s[0], y) {
          if y != x {
            var k :| 0 <= k < |s[1..]| && s[1..][k] == y;
            assert s[k + 1] == y;
          }
        }
        forall i, j | 0 <= i < j < |r| ensures le(r[i], r[j]) {
          if i == 0 {
            assert r[j] == rest[j - 1];
          } else {
            assert r[i] == rest[i - 1] && r[j] == rest[j - 1];
          }
        }
      }
    }
  }

  /** Putting the head back into the sorted tail completes the sort. */
  lemma InsertHead<T(!new)>(xs: seq<T>, rest: seq<T>, le: (T, T) -> bool)
    requires |xs| > 0 && multiset(rest) == multiset(xs[1..])
    requires TotalPreorder(le) ==> SortedBy(rest, le)
    ensures var r := Insert(xs[0], rest, le);
      |r| == |xs| && multiset(r) == multiset(xs) && (TotalPreorder(le) ==> SortedBy(r, le))
  {
    var r := Insert(xs[0], rest, le);
    assert xs == [xs[0]] + xs[1..];
    assert |r| == |multiset(r)|;
    if TotalPreorder(le) {
      InsertSorted(xs[0], rest, le);
    }
  }

  /** The stable sort of `xs` by `le`: a permutation of `xs`, and ordered when
      `le` is a consistent comparator. */
  function Sort<T(!new)>(xs: seq<T>, le: (T, T) -> bool): (r: seq<T>)
    ensures |r| == |xs|
    ensures multiset(r) == multiset(xs)
    ensures TotalPreorder(le) ==> SortedBy(r, le)
  {
    if |xs| == 0 then []
    else
      var rest := Sort(xs[1..], le);
      InsertHead(xs, rest, le);
      Insert(xs[0], rest, le)
  }

  /** `xs.slice(0, k)`: a non-negative `k` keeps the first min(k, |xs|)
      elements, a negative `k` drops the last -k (and keeps none when there are
      fewer than that). */
  function Take<T>(xs: seq<T>, k: int): (r: seq<T>)
    ensures |r| <= |xs| && r == xs[..|r|]
    ensures k >= 0 ==> |r| == if k <= |xs| then k else |xs|
    ensures k < 0 ==> |r| == if |xs| + k >= 0 then |xs| + k else 0
  {
    if k >= 0 then (if k <= |xs| then xs[..k] else xs)
    else if |xs| + k >= 0 then xs[..|xs| + k]
    else []
  }

  /** A duplicate-free sequence holds each value at most once. */
  lemma {:induction false} DistinctCount<T>(s: seq<T>, x: T)
    requires Distinct(s)
    ensures multiset(s)[x] <= 1
  {
    if |s| > 0 {
      assert s == [s[0]] + s[1..];
      assert Distinct(s[1..]) by {
        forall i, j | 0 <= i < j < |s[1..]| ensures s[1..][i] != s[1..][j] {
          assert s[1..][i] == s[i + 1] && s[1..][j] == s[j + 1];
        }
      }
      DistinctCount(s[1..], x);
      if x == s[0] {
        forall k | 0 <= k < |s[1..]| ensures s[1..][k] != x {
          assert s[1..][k] == s[k + 1];
        }
        assert multiset(s[1..])[x] == 0;
      }
    }
  }

  /** Two equal entries at different positions count twice. */
  lemma RepeatCount<T>(s: seq<T>, i: nat, j: nat)
    requires i < j < |s|
    ensures s[i] == s[j] ==> multiset(s)[s[i]] >= 2
  {
    assert s == s[..j] + [s[j]] + s[j + 1..];
    assert s[..j][i] == s[i];
    assert s[i] in multiset(s[..j]);
  }

  /** A permutation of a duplicate-free sequence is duplicate-free. */
  lemma PermutationKeepsDistinct<T>(a: seq<T>, b: seq<T>)
    requires multiset(a) == multiset(b)
    requires Distinct(a)
    ensures Distinct(b)
  {
    forall i, j | 0 <= i < j < |b| ensures b[i] != b[j] {
      DistinctCount(a, b[i]);
      RepeatCount(b, i, j);
    }
  }
}
