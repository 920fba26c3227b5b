/** The pieces of SQL semantics the data layer relies on, over rows kept in
    insertion order: a WHERE filter, a stable ORDER BY, distinctness of
    a key (PRIMARY KEY, UNIQUE) and the BINARY collation on text. */
module Sql {

  /** No element occurs twice. */
  predicate Distinct<T(==)>(s: seq<T>) {
    forall i, j :: 0 <= i < j < |s| ==> s[i] != s[j]
  }

  /** No two rows share a key: the PRIMARY KEY / UNIQUE constraint. */
  predicate DistinctBy<T, K(==)>(s: seq<T>, key: T -> K) {
    forall i, j :: 0 <= i < j < |s| ==> key(s[i]) != key(s[j])
  }

  /** The keys present in a table. */
  function KeySet<T(==), K>(s: seq<T>, key: T -> K): set<K> {
    set x | x in s :: key(x)
  }

  lemma DistinctBySnoc<T, K>(s: seq<T>, x: T, key: T -> K)
    ensures DistinctBy(s + [x], key) <==> DistinctBy(s, key) && key(x) !in KeySet(s, key)
  {
    var r := s + [x];
    if DistinctBy(s, key) && key(x) !in KeySet(s, key) {
      forall i, j | 0 <= i < j < |r| ensures key(r[i]) != key(r[j]) {
        if j == |s| {
          assert r[i] in s;
        }
      }
    }
    if DistinctBy(r, key) {
      forall i, j | 0 <= i < j < |s| ensures key(s[i]) != key(s[j]) {
        assert s[i] == r[i] && s[j] == r[j];
      }
      forall y | y in s ensures key(y) != key(x) {
        var i :| 0 <= i < |s| && s[i] == y;
        assert r[i] == y && r[|s|] == x;
      }
    }
  }

  /** A table whose first `n` rows already repeat a key repeats it. */
  lemma NotDistinctByExtends<T, K>(s: seq<T>, n: nat, key: T -> K)
    requires n <= |s| && !DistinctBy(s[..n], key)
    ensures !DistinctBy(s, key)
  {
    var i, j :| 0 <= i < j < n && key(s[..n][i]) == key(s[..n][j]);
    assert s[..n][i] == s[i] && s[..n][j] == s[j];
  }

  lemma NotDistinctExtends<T>(s: seq<T>, n: nat)
    requires n <= |s| && !Distinct(s[..n])
    ensures !Distinct(s)
  {
    var i, j :| 0 <= i < j < n && s[..n][i] == s[..n][j];
    assert s[..n][i] == s[i] && s[..n][j] == s[j];
  }

  lemma DistinctSnoc<T>(s: seq<T>, x: T)
    ensures Distinct(s + [x]) <==> Distinct(s) && x !in s
  {
    var r := s + [x];
    if Distinct(r) {
      forall i, j | 0 <= i < j < |s| ensures s[i] != s[j] {
        assert s[i] == r[i] && s[j] == r[j];
      }
      forall i | 0 <= i < |s| ensures s[i] != x {
        assert r[i] == s[i] && r[|s|] == x;
      }
    }
  }

  /** Two tables with the same key row by row have the same keys, and one
      repeats a key exactly when the other does. */
  lemma SameKeys<T, K>(a: seq<T>, b: seq<T>, key: T -> K)
    requires |a| == |b|
    requires forall i :: 0 <= i < |a| ==> key(a[i]) == key(b[i])
    ensures DistinctBy(a, key) <==> DistinctBy(b, key)
    ensures KeySet(a, key) == KeySet(b, key)
  {
    forall k | k in KeySet(a, key) ensures k in KeySet(b, key) {
      var x :| x in a && key(x) == k;
      var i :| 0 <= i < |a| && a[i] == x;
      assert b[i] in b;
    }
    forall k | k in KeySet(b, key) ensures k in KeySet(a, key) {
      var x :| x in b && key(x) == k;
      var i :| 0 <= i < |b| && b[i] == x;
      assert a[i] in a;
    }
  }

  /** Under a key with no repeats, the key picks out one row. */
  lemma KeyDetermines<T, K>(s: seq<T>, key: T -> K, x: T, y: T)
    requires DistinctBy(s, key) && x in s && y in s && key(x) == key(y)
    ensures x == y
  {
    var i :| 0 <= i < |s| && s[i] == x;
    var j :| 0 <= j < |s| && s[j] == y;
    assert i == j;
  }

  /** Under a key with no repeats, two different rows have different keys. */
  lemma DistinctKeys<T, K>(s: seq<T>, key: T -> K, x: T, y: T)
    requires DistinctBy(s, key) && x in s && y in s && x != y
    ensures key(x) != key(y)
  {
    var i :| 0 <= i < |s| && s[i] == x;
    var j :| 0 <= j < |s| && s[j] == y;
    if i < j {
      assert key(s[i]) != key(s[j]);
    } else {
      assert key(s[j]) != key(s[i]);
    }
  }

  /** Two tables together repeat no key exactly when neither does and they
      share none. */
  lemma DistinctByConcat<T, K>(a: seq<T>, b: seq<T>, key: T -> K)
    ensures DistinctBy(a + b, key) <==>
      DistinctBy(a, key) && DistinctBy(b, key) && KeySet(a, key) !! KeySet(b, key)
  {
    var r := a + b;
    if DistinctBy(r, key) {
      forall i, j | 0 <= i < j < |b| ensures key(b[i]) != key(b[j]) {
        assert b[i] == r[|a| + i] && b[j] == r[|a| + j];
      }
      forall i, j | 0 <= i < j < |a| ensures key(a[i]) != key(a[j]) {
        assert a[i] == r[i] && a[j] == r[j];
      }
      forall k | k in KeySet(a, key) ensures k !in KeySet(b, key) {
        var x :| x in a && key(x) == k;
        var i :| 0 <= i < |a| && a[i] == x;
        forall y | y in b ensures key(y) != k {
          var j :| 0 <= j < |b| && b[j] == y;
          assert r[i] == x && r[|a| + j] == y;
        }
      }
    }
    if DistinctBy(a, key) && DistinctBy(b, key) && KeySet(a, key) !! KeySet(b, key) {
      forall i, j | 0 <= i < j < |r| ensures key(r[i]) != key(r[j]) {
        if j < |a| {
          assert r[i] == a[i] && r[j] == a[j];
        } else if i >= |a| {
          assert r[i] == b[i - |a|] && r[j] == b[j - |a|];
        } else {
          assert r[i] == a[i] && r[j] == b[j - |a|];
          assert key(r[i]) in KeySet(a, key) && key(r[j]) in KeySet(b, key);
        }
      }
    }
  }

  lemma DistinctConcat<T>(a: seq<T>, b: seq<T>)
    ensures Distinct(a + b) <==> Distinct(a) && Distinct(b) && (forall x :: x in a ==> x !in b)
  {
    var r := a + b;
    if Distinct(r) {
      forall i, j | 0 <= i < j < |b| ensures b[i] != b[j] {
        assert b[i] == r[|a| + i] && b[j] == r[|a| + j];
      }
      forall i, j | 0 <= i < j < |a| ensures a[i] != a[j] {
        assert a[i] == r[i] && a[j] == r[j];
      }
      forall x | x in a ensures x !in b {
        var i :| 0 <= i < |a| && a[i] == x;
        forall j | 0 <= j < |b| ensures b[j] != x {
          assert r[i] == x && r[|a| + j] == b[j];
        }
      }
    }
    if Distinct(a) && Distinct(b) && (forall x :: x in a ==> x !in b) {
      forall i, j | 0 <= i < j < |r| ensures r[i] != r[j] {
        if j < |a| {
          assert r[i] == a[i] && r[j] == a[j];
        } else if i >= |a| {
          assert r[i] == b[i - |a|] && r[j] == b[j - |a|];
        } else {
          assert r[i] == a[i] && r[j] == b[j - |a|];
          assert a[i] in a;
        }
      }
    }
  }

  /** The rows of `s` that `keep` accepts, in table order (a WHERE clause). */
  function Filter<T(==,!new)>(s: seq<T>, keep: T -> bool): (r: seq<T>)
    ensures |r| <= |s|
    ensures forall x :: x in r <==> x in s && keep(x)
  {
    if s == [] then []
    else
      var rest := Filter(s[..|s| - 1], keep);
      assert s == s[..|s| - 1] + [s[|s| - 1]];
      if keep(s[|s| - 1]) then rest + [s[|s| - 1]] else rest
  }

  lemma {:induction false} FilterConcat<T(!new)>(a: seq<T>, b: seq<T>, keep: T -> bool)
    ensures Filter(a + b, keep) == Filter(a, keep) + Filter(b, keep)
  {
    if b != [] {
      var b' := b[..|b| - 1];
      assert (a + b)[..|a + b| - 1] == a + b';
      FilterConcat(a, b', keep);
    } else {
      assert a + b == a;
    }
  }

  lemma {:induction false} FilterKeepsAll<T(!new)>(s: seq<T>, keep: T -> bool)
    requires forall x :: x in s ==> keep(x)
    ensures Filter(s, keep) == s
  {
    if s != [] {
      FilterKeepsAll(s[..|s| - 1], keep);
      assert s == s[..|s| - 1] + [s[|s| - 1]];
    }
  }

  lemma {:induction false} FilterNone<T(!new)>(s: seq<T>, keep: T -> bool)
    requires forall x :: x in s ==> !keep(x)
    ensures Filter(s, keep) == []
  {
    if s != [] {
      FilterNone(s[..|s| - 1], keep);
      assert s[|s| - 1] in s;
    }
  }

  /** Filtering twice, when the second test implies the first, is
      filtering once. */
  lemma {:induction false} FilterFilter<T(!new)>(s: seq<T>, f: T -> bool, g: T -> bool)
    requires forall x :: x in s && g(x) ==> f(x)
    ensures Filter(Filter(s, f), g) == Filter(s, g)
  {
    if s != [] {
      var init, x := s[..|s| - 1], s[|s| - 1];
      assert s == init + [x];
      FilterFilter(init, f, g);
      if f(x) {
        FilterConcat(Filter(init, f), [x], g);
      }
    }
  }

  /** A DELETE removes some row exactly when some row fails to be kept. */
  lemma {:induction false} FilterRemovesSome<T(!new)>(s: seq<T>, keep: T -> bool)
    ensures |Filter(s, keep)| < |s| <==> exists x :: x in s && !keep(x)
  {
    if s != [] {
      var init, x := s[..|s| - 1], s[|s| - 1];
      assert s == init + [x];
      FilterRemovesSome(init, keep);
      if exists y :: y in init && !keep(y) {
        var y :| y in init && !keep(y);
        assert y in s;
      }
    }
  }

  lemma {:induction false} FilterDistinctBy<T(!new), K>(s: seq<T>, keep: T -> bool, key: T -> K)
    requires DistinctBy(s, key)
    ensures DistinctBy(Filter(s, keep), key)
  {
    if s != [] {
      var init, x := s[..|s| - 1], s[|s| - 1];
      assert s == init + [x];
      DistinctBySnoc(init, x, key);
      FilterDistinctBy(init, keep, key);
      if keep(x) {
        DistinctBySnoc(Filter(init, keep), x, key);
      }
    }
  }

  lemma {:induction false} FilterDistinct<T(!new)>(s: seq<T>, keep: T -> bool)
    requires Distinct(s)
    ensures Distinct(Filter(s, keep))
  {
    if s != [] {
      var init, x := s[..|s| - 1], s[|s| - 1];
      assert s == init + [x];
      FilterDistinct(init, keep);
      if keep(x) {
        var r := Filter(init, keep) + [x];
        forall i, j | 0 <= i < j < |r| ensures r[i] != r[j] {
          if j == |r| - 1 {
            assert r[i] in init;
            var k :| 0 <= k < |init| && init[k] == r[i];
            assert s[k] == r[i] && s[|s| - 1] == x;
          }
        }
      }
    }
  }

  /** `less(a, b)`: row `a` sorts strictly before row `b`. */
  predicate SortedBy<T>(s: seq<T>, less: (T, T) -> bool) {
    forall i, j :: 0 <= i < j < |s| ==> !less(s[j], s[i])
  }

  /** An ordering on sort keys: asymmetric and negatively transitive, so
      that "neither sorts before the other" is an equivalence. */
  ghost predicate StrictWeakOrder<T(!new)>(less: (T, T) -> bool) {
    && (forall a, b :: less(a, b) ==> !less(b, a))
    && (forall a, b, c :: less(a, c) ==> less(a, b) || less(b, c))
  }

  /** Where `x` goes in the sorted `s`: before the first row not sorting
      before it, hence before the rows that tie with it. */
  function InsertPos<T>(x: T, s: seq<T>, less: (T, T) -> bool): (k: nat)
    ensures k <= |s|
    ensures forall i :: 0 <= i < k ==> less(s[i], x)
    ensures k < |s| ==> !less(s[k], x)
  {
    if s == [] || !less(s[0], x) then 0 else 1 + InsertPos(x, s[1..], less)
  }

  function InsertBy<T>(x: T, s: seq<T>, less: (T, T) -> bool): seq<T> {
    var k := InsertPos(x, s, less);
    s[..k] + [x] + s[k..]
  }

  lemma InsertByMultiset<T>(x: T, s: seq<T>, less: (T, T) -> bool)
    ensures multiset(InsertBy(x, s, less)) == multiset{x} + multiset(s)
  {
    var k := InsertPos(x, s, less);
    assert s == s[..k] + s[k..];
  }

  /** ORDER BY as a stable insertion sort: rows that tie keep their table
      order. */
  function SortBy<T>(s: seq<T>, less: (T, T) -> bool): (r: seq<T>)
    ensures multiset(r) == multiset(s)
    ensures |r| == |s|
  {
    if s == [] then []
    else
      var rest := SortBy(s[1..], less);
      InsertByMultiset(s[0], rest, less);
      assert s == [s[0]] + s[1..];
      InsertBy(s[0], rest, less)
  }

  lemma SortByMembers<T>(s: seq<T>, less: (T, T) -> bool)
    ensures forall x :: x in SortBy(s, less) <==> x in s
  {
    var r := SortBy(s, less);
    forall x ensures x in r <==> x in s {
      assert x in r <==> x in multiset(r);
      assert x in s <==> x in multiset(s);
    }
  }

  /** Inserting into a sorted list keeps it sorted. */
  lemma InsertBySorted<T(!new)>(x: T, s: seq<T>, less: (T, T) -> bool)
    requires StrictWeakOrder(less) && SortedBy(s, less)
    ensures SortedBy(InsertBy(x, s, less), less)
  {
    var k := InsertPos(x, s, less);
    var r := InsertBy(x, s, less);
    forall i, j | 0 <= i < j < |r| ensures !less(r[j], r[i]) {
      if j == k {
        assert r[i] == s[i] && less(s[i], x);
      } else if i == k {
        assert r[j] == s[j - 1] && !less(s[k], x);
        if j - 1 > k {
          assert !less(s[j - 1], s[k]);
        }
      } else {
        var i' := if i < k then i else i - 1;
        var j' := if j < k then j else j - 1;
        assert r[i] == s[i'] && r[j] == s[j'];
      }
    }
  }

  lemma {:induction false} SortBySorted<T(!new)>(s: seq<T>, less: (T, T) -> bool)
    requires StrictWeakOrder(less)
    ensures SortedBy(SortBy(s, less), less)
  {
    if s != [] {
      SortBySorted(s[1..], less);
      InsertBySorted(s[0], SortBy(s[1..], less), less);
    }
  }

  lemma {:induction false} SortByIdentity<T>(s: seq<T>, less: (T, T) -> bool)
    requires SortedBy(s, less)
    ensures SortBy(s, less) == s
  {
    if s != [] {
      assert SortedBy(s[1..], less) by {
        forall i, j | 0 <= i < j < |s[1..]| ensures !less(s[1..][j], s[1..][i]) {
          assert s[1..][j] == s[j + 1] && s[1..][i] == s[i + 1];
        }
      }
      SortByIdentity(s[1..], less);
      assert InsertPos(s[0], s[1..], less) == 0;
      assert s == [s[0]] + s[1..];
    }
  }

  lemma DistinctByInsertAt<T, K>(s: seq<T>, k: nat, x: T, key: T -> K)
    requires k <= |s|
    requires DistinctBy(s, key) && key(x) !in KeySet(s, key)
    ensures DistinctBy(s[..k] + [x] + s[k..], key)
  {
    var r := s[..k] + [x] + s[k..];
    forall i, j | 0 <= i < j < |r| ensures key(r[i]) != key(r[j]) {
      if i == k {
        assert r[j] == s[j - 1] && r[j] in s;
      } else if j == k {
        assert r[i] == s[i] && r[i] in s;
      } else {
        var i' := if i < k then i else i - 1;
        var j' := if j < k then j else j - 1;
        assert r[i] == s[i'] && r[j] == s[j'];
      }
    }
  }

  lemma {:induction false} SortByDistinctBy<T, K>(s: seq<T>, less: (T, T) -> bool, key: T -> K)
    requires DistinctBy(s, key)
    ensures DistinctBy(SortBy(s, less), key)
  {
    if s != [] {
      var tail := s[1..];
      assert DistinctBy(tail, key) by {
        forall i, j | 0 <= i < j < |tail| ensures key(tail[i]) != key(tail[j]) {
          assert tail[i] == s[i + 1] && tail[j] == s[j + 1];
        }
      }
      SortByDistinctBy(tail, less, key);
      var rest := SortBy(tail, less);
      forall y | y in rest ensures key(y) != key(s[0]) {
        assert y in multiset(rest);
        assert y in tail;
        var m :| 0 <= m < |tail| && tail[m] == y;
        assert s[m + 1] == y;
      }
      DistinctByInsertAt(rest, InsertPos(s[0], rest, less), s[0], key);
    }
  }

  /** Text order under SQLite's BINARY collation. Comparing the UTF-8 bytes
      of two strings orders them as comparing their code points does. */
  predicate StrLess(a: string, b: string) {
    if a == [] then b != []
    else if b == [] then false
    else if a[0] != b[0] then a[0] < b[0]
    else StrLess(a[1..], b[1..])
  }

  lemma {:induction false} StrLessTransitive(a: string, b: string, c: string)
    requires StrLess(a, b) && StrLess(b, c)
    ensures StrLess(a, c)
  {
    if a != [] && b != [] && c != [] && a[0] == b[0] && b[0] == c[0] {
      StrLessTransitive(a[1..], b[1..], c[1..]);
    }
  }

  lemma {:induction false} StrLessTotal(a: string, b: string)
    ensures a == b || StrLess(a, b) || StrLess(b, a)
    ensures !(StrLess(a, b) && StrLess(b, a))
  {
    if a != [] && b != [] && a[0] == b[0] {
      StrLessTotal(a[1..], b[1..]);
      if a[1..] == b[1..] {
        assert a == [a[0]] + a[1..] && b == [b[0]] + b[1..];
      }
    }
  }

  lemma {:induction false} StrLessIrreflexive(a: string)
    ensures !StrLess(a, a)
  {
    if a != [] {
      StrLessIrreflexive(a[1..]);
    }
  }
}
