/** The two query shapes the routes ask of the database: keep the rows that pass a
    test (`.eq`, `.lt`, `.lte`, `.filter`), and order rows by a numeric column
    ascending (`.order(col, { ascending: true })`). Rows with equal keys may come
    back in any order, as in the database. */
module Ordering {

  predicate SortedBy<T>(xs: seq<T>, key: T -> int) {
    forall i, j | 0 <= i < j < |xs| :: key(xs[i]) <= key(xs[j])
  }

  /** The rows that pass `keep`, in their original order. */
  function Where<T(==,!new)>(xs: seq<T>, keep: T -> bool): (r: seq<T>)
    ensures |r| <= |xs|
    ensures forall x :: x in r <==> x in xs && keep(x)
    ensures multiset(r) <= multiset(xs)
  {
    if xs == [] then []
    else
      var rest := Where(xs[1..], keep);
      assert xs == [xs[0]] + xs[1..];
      if keep(xs[0]) then [xs[0]] + rest else rest
  }

  function InsertBy<T(==,!new)>(x: T, xs: seq<T>, key: T -> int): (r: seq<T>)
    ensures multiset(r) == multiset(xs) + multiset{x}
    ensures forall y | y in r :: y == x || y in xs
  {
    if xs == [] then [x]
    else if key(x) <= key(xs[0]) then [x] + xs
    else
      assert xs == [xs[0]] + xs[1..];
      [xs[0]] + InsertBy(x, xs[1..], key)
  }

  /** Inserting into a sorted list keeps it sorted. */
  lemma {:induction false} InsertBySorted<T(!new)>(x: T, xs: seq<T>, key: T -> int)
    requires SortedBy(xs, key)
    ensures SortedBy(InsertBy(x, xs, key), key)
  {
    if xs != [] && key(x) > key(xs[0]) {
      var rest := InsertBy(x, xs[1..], key);
      assert SortedBy(xs[1..], key) by {
        forall i, j | 0 <= i < j < |xs[1..]| ensures key(xs[1..][i]) <= key(xs[1..][j]) {
          assert xs[1..][i] == xs[i + 1] && xs[1..][j] == xs[j + 1];
        }
      }
      InsertBySorted(x, xs[1..], key);
      var r := [xs[0]] + rest;
      forall i, j | 0 <= i < j < |r| ensures key(r[i]) <= key(r[j]) {
        if i > 0 {
          assert r[i] == rest[i - 1] && r[j] == rest[j - 1];
        } else {
          assert r[j] in rest;
          if r[j] != x {
            var k :| 0 <= k < |xs[1..]| && xs[1..][k] == r[j];
            assert xs[k + 1] == r[j];
          }
        }
      }
    }
  }

  /** The rows ordered by `key`, ascending: a sorted permutation of the input. */
  function SortBy<T(==,!new)>(xs: seq<T>, key: T -> int): (r: seq<T>)
    ensures SortedBy(r, key)
    ensures multiset(r) == multiset(xs)
  {
    if xs == [] then []
    else
      assert xs == [xs[0]] + xs[1..];
      var rest := SortBy(xs[1..], key);
      InsertBySorted(xs[0], rest, key);
      InsertBy(xs[0], rest, key)
  }

  /** A sorted permutation holds the same rows: nothing is lost or invented. */
  lemma SortBySameRows<T(!new)>(xs: seq<T>, key: T -> int, x: T)
    ensures x in SortBy(xs, key) <==> x in xs
  {
    assert x in SortBy(xs, key) <==> x in multiset(SortBy(xs, key));
    assert x in xs <==> x in multiset(xs);
  }

  /** `xs.filter(p).length`. */
  function Count<T>(xs: seq<T>, p: T -> bool): (n: nat)
    ensures n <= |xs|
  {
    if xs == [] then 0 else (if p(xs[0]) then 1 else 0) + Count(xs[1..], p)
  }

  lemma {:induction false} CountAppend<T>(a: seq<T>, b: seq<T>, p: T -> bool)
    ensures Count(a + b, p) == Count(a, p) + Count(b, p)
  {
    if a == [] {
      assert a + b == b;
    } else {
      assert (a + b)[1..] == a[1..] + b;
      CountAppend(a[1..], b, p);
    }
  }

  /** No row passes exactly when the count is zero. */
  lemma {:induction false} CountZero<T>(xs: seq<T>, p: T -> bool)
    ensures Count(xs, p) == 0 <==> forall i | 0 <= i < |xs| :: !p(xs[i])
  {
    if xs != [] {
      CountZero(xs[1..], p);
      assert forall i | 1 <= i < |xs| :: xs[i] == xs[1..][i - 1];
    }
  }

  /** At most one row passes. */
  predicate AtMostOne<T>(xs: seq<T>, p: T -> bool) {
    forall i, j | 0 <= i < j < |xs| :: !(p(xs[i]) && p(xs[j]))
  }

  /** When at most one row can pass, the count is 0 or 1: `.single()` then finds a
      row exactly when some row passes. */
  lemma {:induction false} CountAtMostOne<T>(xs: seq<T>, p: T -> bool)
    requires AtMostOne(xs, p)
    ensures Count(xs, p) <= 1
    ensures Count(xs, p) == 1 <==> exists i | 0 <= i < |xs| :: p(xs[i])
  {
    if xs != [] {
      assert AtMostOne(xs[1..], p) by {
        forall i, j | 0 <= i < j < |xs[1..]| ensures !(p(xs[1..][i]) && p(xs[1..][j])) {
          assert xs[1..][i] == xs[i + 1] && xs[1..][j] == xs[j + 1];
        }
      }
      CountAtMostOne(xs[1..], p);
      CountZero(xs[1..], p);
      if p(xs[0]) {
        assert forall i | 0 <= i < |xs[1..]| :: !p(xs[1..][i]) by {
          forall i | 0 <= i < |xs[1..]| ensures !p(xs[1..][i]) {
            assert xs[1..][i] == xs[i + 1];
          }
        }
      } else {
        assert (exists i | 0 <= i < |xs| :: p(xs[i])) ==> exists i | 0 <= i < |xs[1..]| :: p(xs[1..][i]) by {
          if i :| 0 <= i < |xs| && p(xs[i]) {
            assert xs[1..][i - 1] == xs[i];
          }
        }
        assert (exists i | 0 <= i < |xs[1..]| :: p(xs[1..][i])) ==> exists i | 0 <= i < |xs| :: p(xs[i]) by {
          if i :| 0 <= i < |xs[1..]| && p(xs[1..][i]) {
            assert xs[i + 1] == xs[1..][i];
          }
        }
      }
    }
  }

  /** The least element of a non-empty set of naturals. */
  function Least(ks: set<nat>): (m: nat)
    requires ks != {}
    ensures m in ks && forall k | k in ks :: m <= k
  {
    LeastExists(ks);
    var m :| m in ks && forall k | k in ks :: m <= k;
    m
  }

  lemma LeastExists(ks: set<nat>)
    requires ks != {}
    ensures exists m | m in ks :: forall k | k in ks :: m <= k
  {
    var x :| x in ks;
    LeastBelow(ks, x);
  }

  /** Descending from any member reaches the least one. */
  lemma {:induction false} LeastBelow(ks: set<nat>, x: nat)
    requires x in ks
    ensures exists m | m in ks :: forall k | k in ks :: m <= k
    decreases x
  {
    if exists y | y in ks :: y < x {
      var y :| y in ks && y < x;
      LeastBelow(ks, y);
    } else {
      assert forall k | k in ks :: x <= k;
    }
  }

  /** The keys of a table in ascending order, each once. */
  function AscendingKeys(ks: set<nat>): (r: seq<nat>)
    ensures |r| == |ks|
    ensures forall k :: k in r <==> k in ks
    ensures forall i, j | 0 <= i < j < |r| :: r[i] < r[j]
    decreases |ks|
  {
    if ks == {} then []
    else
      var m := Least(ks);
      var rest := AscendingKeys(ks - {m});
      LeastThenRest(ks, m, rest);
      [m] + rest
  }

  /** The least key followed by the others in ascending order lists the keys in
      ascending order. */
  lemma LeastThenRest(ks: set<nat>, m: nat, rest: seq<nat>)
    requires m in ks && forall k | k in ks :: m <= k
    requires |rest| == |ks - {m}| && forall k :: k in rest <==> k in ks - {m}
    requires forall i, j | 0 <= i < j < |rest| :: rest[i] < rest[j]
    ensures |[m] + rest| == |ks|
    ensures forall k :: k in [m] + rest <==> k in ks
    ensures forall i, j | 0 <= i < j < |[m] + rest| :: ([m] + rest)[i] < ([m] + rest)[j]
  {
    var r := [m] + rest;
    assert forall k :: k in r <==> k == m || k in rest;
    forall i, j | 0 <= i < j < |r| ensures r[i] < r[j] {
      assert r[j] == rest[j - 1] && rest[j - 1] in ks - {m};
      if i > 0 {
        assert r[i] == rest[i - 1];
      }
    }
  }
}
