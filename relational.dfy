/** The parts of SQL query evaluation the data-access layer uses, over a table
    held as a sequence of rows: `WHERE` (Filter), `ORDER BY` (SortBy, for any
    total preorder on rows) and `LIMIT` (Take). */
module Relational {

  /** `le(a, b)` means "row a may come before row b": total and transitive. */
  ghost predicate TotalPreorder<T(!new)>(le: (T, T) -> bool) {
    && (forall a, b :: le(a, b) || le(b, a))
    && (forall a, b, c :: le(a, b) && le(b, c) ==> le(a, c))
  }

  predicate SortedBy<T>(s: seq<T>, le: (T, T) -> bool) {
    forall i, j :: 0 <= i < j < |s| ==> le(s[i], s[j])
  }

  /** No row occurs twice. */
  predicate NoDuplicates<T(==)>(s: seq<T>) {
    forall i, j :: 0 <= i < j < |s| ==> s[i] != s[j]
  }

  /** No two rows share a key (a primary key or `DISTINCT ON` column). */
  predicate UniqueKeys<T, K(==)>(s: seq<T>, key: T -> K) {
    forall i, j :: 0 <= i < j < |s| ==> key(s[i]) != key(s[j])
  }

  /** `WHERE p`: keeps exactly the rows satisfying `p`, each as often as it
      occurs, in table order. */
  function Filter<T(!new)>(s: seq<T>, p: T -> bool): (r: seq<T>)
    ensures |r| <= |s|
    ensures forall x :: x in r <==> x in s && p(x)
  {
    if s == [] then []
    else
      var rest := Filter(s[1..], p);
      assert forall x :: x in s <==> x == s[0] || x in s[1..];
      if p(s[0]) then [s[0]] + rest else rest
  }

  /** `WHERE` keeps every satisfying row exactly as often as the table holds
      it, and drops every other row. */
  lemma {:induction false} FilterCounts<T(!new)>(s: seq<T>, p: T -> bool, x: T)
    ensures multiset(Filter(s, p))[x] == if p(x) then multiset(s)[x] else 0
  {
    if s != [] {
      assert s == [s[0]] + s[1..];
      FilterCounts(s[1..], p, x);
    }
  }

  /** `WHERE` selects a sub-multiset of the table. */
  lemma {:induction false} FilterIsSubMultiset<T(!new)>(s: seq<T>, p: T -> bool)
    ensures multiset(Filter(s, p)) <= multiset(s)
  {
    forall x ensures multiset(Filter(s, p))[x] <= multiset(s)[x] {
      FilterCounts(s, p, x);
    }
  }

  function InsertBy<T(!new)>(x: T, s: seq<T>, le: (T, T) -> bool): (r: seq<T>)
    requires TotalPreorder(le) && SortedBy(s, le)
    ensures SortedBy(r, le)
    ensures multiset(r) == multiset(s) + multiset{x}
  {
    if s == [] then [x]
    else if le(x, s[0]) then [x] + s
    else
      var rest := InsertBy(x, s[1..], le);
      assert s == [s[0]] + s[1..];
      assert forall k :: 0 <= k < |rest| ==> le(s[0], rest[k]) by {
        forall k | 0 <= k < |rest| ensures le(s[0], rest[k]) {
          assert rest[k] in multiset(rest);
          if rest[k] != x {
            assert rest[k] in multiset(s[1..]);
            var j :| 0 <= j < |s[1..]| && s[1..][j] == rest[k];
            assert s[j + 1] == rest[k];
          }
        }
      }
      [s[0]] + rest
  }

  /** `ORDER BY`: a sorted permutation of the rows. */
  function SortBy<T(!new)>(s: seq<T>, le: (T, T) -> bool): (r: seq<T>)
    requires TotalPreorder(le)
    ensures SortedBy(r, le)
    ensures multiset(r) == multiset(s)
    ensures |r| == |s|
  {
    if s == [] then []
    else
      assert s == [s[0]] + s[1..];
      var r := InsertBy(s[0], SortBy(s[1..], le), le);
      assert |r| == |multiset(r)|;
      r
  }

  /** `LIMIT n` for a non-negative `n`: the first `n` rows, or all of them. */
  function Take<T>(s: seq<T>, n: nat): (r: seq<T>)
    ensures |r| == if n < |s| then n else |s|
    ensures r == s[..|r|]
  {
    if n < |s| then s[..n] else s
  }

  /** A prefix of a sorted sequence is sorted. */
  lemma {:induction false} TakeKeepsSorted<T>(s: seq<T>, n: nat, le: (T, T) -> bool)
    requires SortedBy(s, le)
    ensures SortedBy(Take(s, n), le)
  {
  }

  /** A row left out by `LIMIT` over a sorted result comes after (or ties with)
      every row that was kept: the kept rows are the first `n` in the order. */
  lemma {:induction false} TakeKeepsFirst<T>(s: seq<T>, n: nat, le: (T, T) -> bool, x: T)
    requires SortedBy(s, le) && x in s && x !in Take(s, n)
    ensures |Take(s, n)| == n
    ensures forall i :: 0 <= i < |Take(s, n)| ==> le(Take(s, n)[i], x)
  {
    var j :| 0 <= j < |s| && s[j] == x;
  }

  /** Every row `LIMIT` keeps came from the input, no more often than there. */
  lemma {:induction false} TakeIsSubMultiset<T>(s: seq<T>, n: nat)
    ensures multiset(Take(s, n)) <= multiset(s)
  {
    var t := Take(s, n);
    assert s == t + s[|t|..];
  }

  /** Rows of a sub-multiset are rows of the whole. */
  lemma {:induction false} SubMultisetMembers<T>(t: seq<T>, s: seq<T>)
    requires multiset(t) <= multiset(s)
    ensures forall x :: x in t ==> x in s
  {
    forall x | x in t ensures x in s {
      assert x in multiset(t);
    }
  }

  /** A row occurring at two positions occurs at least twice. */
  lemma {:induction false} TwoPositions<T>(s: seq<T>, i: nat, j: nat)
    requires i < j < |s| && s[i] == s[j]
    ensures multiset(s)[s[i]] >= 2
  {
    assert s == s[..i] + [s[i]] + s[i + 1..j] + [s[j]] + s[j + 1..];
  }

  /** A sequence without duplicates holds each row at most once. */
  lemma {:induction false} NoDuplicatesAtMostOnce<T>(s: seq<T>, x: T)
    requires NoDuplicates(s)
    ensures multiset(s)[x] <= 1
  {
    if s != [] {
      assert s == [s[0]] + s[1..];
      NoDuplicatesAtMostOnce(s[1..], x);
      if s[0] == x {
        assert x !in s[1..] by {
          forall j | 0 <= j < |s[1..]| ensures s[1..][j] != x {
            assert s[1..][j] == s[j + 1];
          }
        }
      }
    }
  }

  lemma {:induction false} UniqueKeysTail<T, K>(s: seq<T>, key: T -> K)
    requires s != [] && UniqueKeys(s, key)
    ensures UniqueKeys(s[1..], key)
    ensures forall e :: e in s[1..] ==> key(e) != key(s[0])
  {
    forall i, j | 0 <= i < j < |s[1..]| ensures key(s[1..][i]) != key(s[1..][j]) {
      assert s[1..][i] == s[i + 1] && s[1..][j] == s[j + 1];
    }
    forall e | e in s[1..] ensures key(e) != key(s[0]) {
      var j :| 0 <= j < |s[1..]| && s[1..][j] == e;
      assert s[j + 1] == e;
    }
  }

  lemma {:induction false} UniqueKeysCons<T, K>(x: T, s: seq<T>, key: T -> K)
    requires UniqueKeys(s, key) && forall e :: e in s ==> key(e) != key(x)
    ensures UniqueKeys([x] + s, key)
  {
    var r := [x] + s;
    forall i, j | 0 <= i < j < |r| ensures key(r[i]) != key(r[j]) {
      assert r[j] == s[j - 1];
      if i > 0 {
        assert r[i] == s[i - 1];
      }
    }
  }

  /** Rows with distinct keys are distinct rows. */
  lemma {:induction false} UniqueKeysNoDuplicates<T, K>(s: seq<T>, key: T -> K)
    requires UniqueKeys(s, key)
    ensures NoDuplicates(s)
  {
  }

  /** Two rows of a uniquely keyed sequence with the same key are the same row. */
  lemma {:induction false} UniqueKeysSameRow<T, K>(s: seq<T>, key: T -> K, x: T, y: T)
    requires UniqueKeys(s, key) && x in s && y in s && key(x) == key(y)
    ensures x == y
  {
    var i :| 0 <= i < |s| && s[i] == x;
    var j :| 0 <= j < |s| && s[j] == y;
    assert !(i < j) && !(j < i);
  }

  /** Any selection, reordering or prefix of uniquely keyed rows is uniquely
      keyed: keys stay distinct in every sub-multiset. */
  lemma {:induction false} SubMultisetKeepsUniqueKeys<T, K>(s: seq<T>, t: seq<T>, key: T -> K)
    requires UniqueKeys(s, key) && multiset(t) <= multiset(s)
    ensures UniqueKeys(t, key)
  {
    forall i, j | 0 <= i < j < |t| ensures key(t[i]) != key(t[j]) {
      assert t[i] in multiset(s) && t[j] in multiset(s);
      if t[i] == t[j] {
        TwoPositions(t, i, j);
        UniqueKeysNoDuplicates(s, key);
        NoDuplicatesAtMostOnce(s, t[i]);
      }
    }
  }
}
