/** The ordering the services ask the database for with `order: { ... }`:
    rows sorted by a list of columns, each ascending or descending. A row's
    sort key is a sequence of integers (a descending column is negated), and
    keys are compared lexicographically. */
module Sorting {

  /** Lexicographic comparison of sort keys. */
  predicate KeyLeq(a: seq<int>, b: seq<int>)
    decreases |a|
  {
    if a == [] then true
    else if b == [] then false
    else a[0] < b[0] || (a[0] == b[0] && KeyLeq(a[1..], b[1..]))
  }

  lemma {:induction false} KeyLeqTotal(a: seq<int>, b: seq<int>)
    ensures KeyLeq(a, b) || KeyLeq(b, a)
    decreases |a|
  {
    if a != [] && b != [] && a[0] == b[0] {
      KeyLeqTotal(a[1..], b[1..]);
    }
  }

  lemma {:induction false} KeyLeqTransitive(a: seq<int>, b: seq<int>, c: seq<int>)
    requires KeyLeq(a, b) && KeyLeq(b, c)
    ensures KeyLeq(a, c)
    decreases |a|
  {
    if a != [] && b != [] && c != [] && a[0] == b[0] == c[0] {
      KeyLeqTransitive(a[1..], b[1..], c[1..]);
    }
  }

  /** Every earlier row's key is at most every later row's key. */
  predicate SortedBy<T>(s: seq<T>, key: T -> seq<int>) {
    forall i, j :: 0 <= i < j < |s| ==> KeyLeq(key(s[i]), key(s[j]))
  }

  /** Inserts one row into a list, in front of the first row whose key is
      not smaller; the rows are kept, with one more occurrence of `x`. */
  function InsertBy<T>(x: T, s: seq<T>, key: T -> seq<int>): (r: seq<T>)
    ensures multiset(r) == multiset(s) + multiset{x}
    decreases |s|
  {
    if s == [] then [x]
    else if KeyLeq(key(x), key(s[0])) then [x] + s
    else
      assert s == [s[0]] + s[1..];
      [s[0]] + InsertBy(x, s[1..], key)
  }

  /** Every row of `s` sorts at or after `lo`. */
  predicate AllAfter<T>(lo: seq<int>, s: seq<T>, key: T -> seq<int>) {
    forall k :: 0 <= k < |s| ==> KeyLeq(lo, key(s[k]))
  }

  lemma {:induction false} InsertByAfter<T>(lo: seq<int>, x: T, s: seq<T>, key: T -> seq<int>)
    requires AllAfter(lo, s, key) && KeyLeq(lo, key(x))
    ensures AllAfter(lo, InsertBy(x, s, key), key)
    decreases |s|
  {
    if s != [] && !KeyLeq(key(x), key(s[0])) {
      InsertByAfter(lo, x, s[1..], key);
    }
  }

  /** Inserting into a sorted list keeps it sorted. */
  lemma {:induction false} InsertBySorted<T>(x: T, s: seq<T>, key: T -> seq<int>)
    requires SortedBy(s, key)
    ensures SortedBy(InsertBy(x, s, key), key)
    decreases |s|
  {
    if s == [] {
    } else if KeyLeq(key(x), key(s[0])) {
      forall j | 0 < j < |s| ensures KeyLeq(key(x), key(s[j])) {
        KeyLeqTransitive(key(x), key(s[0]), key(s[j]));
      }
    } else {
      KeyLeqTotal(key(x), key(s[0]));
      InsertBySorted(x, s[1..], key);
      InsertByAfter(key(s[0]), x, s[1..], key);
      var rest := InsertBy(x, s[1..], key);
      assert InsertBy(x, s, key) == [s[0]] + rest;
    }
  }

  /** No row occurs twice. */
  predicate Distinct<T(==)>(s: seq<T>) {
    forall i, j :: 0 <= i < j < |s| ==> s[i] != s[j]
  }

  lemma {:induction false} InsertByDistinct<T>(x: T, s: seq<T>, key: T -> seq<int>)
    requires Distinct(s) && x !in s
    ensures Distinct(InsertBy(x, s, key))
    decreases |s|
  {
    if s != [] && !KeyLeq(key(x), key(s[0])) {
      InsertByDistinct(x, s[1..], key);
      var rest := InsertBy(x, s[1..], key);
      assert s[0] !in multiset(rest) by {
        assert s[0] !in s[1..];
      }
    }
  }

  /** The rows of a query result in the requested order: each matching row
      exactly once, sorted by its key. Ties keep whatever order the rows are
      taken in, which the database does not specify either. */
  method SortSet<T(==)>(rows: set<T>, key: T -> seq<int>) returns (r: seq<T>)
    ensures SortedBy(r, key)
    ensures Distinct(r)
    ensures forall x :: x in r <==> x in rows
  {
    r := [];
    var remaining := rows;
    while remaining != {}
      invariant remaining <= rows
      invariant SortedBy(r, key) && Distinct(r)
      invariant forall x :: x in r <==> x in rows - remaining
      decreases remaining
    {
      var x :| x in remaining;
      InsertBySorted(x, r, key);
      InsertByDistinct(x, r, key);
      var next := InsertBy(x, r, key);
      forall y ensures y in next <==> y in r || y == x {
        assert y in next <==> y in multiset(next);
        assert y in r <==> y in multiset(r);
      }
      r := next;
      remaining := remaining - {x};
    }
  }
}
