/**
 * The `ORDER BY` clauses of the listing queries: a stable insertion sort by a comparator, the
 * comparators the endpoints use, and SQLite's BINARY collation on text.
 */
module Sorting {
  import opened Js

  ghost predicate TotalPreorder<T(!new)>(le: (T, T) -> bool) {
    && (forall a, b :: le(a, b) || le(b, a))
    && (forall a, b, c :: le(a, b) && le(b, c) ==> le(a, c))
  }

  predicate SortedBy<T>(s: seq<T>, le: (T, T) -> bool) {
    forall i, j :: 0 <= i < j < |s| ==> le(s[i], s[j])
  }

  /** Puts `x` in front of the first element it may precede. */
  function Insert<T(!new)>(x: T, s: seq<T>, le: (T, T) -> bool): (r: seq<T>)
    ensures multiset(r) == multiset(s) + multiset{x}
    ensures forall y :: y in r <==> y == x || y in s
  {
    if s == [] then [x]
    else if le(x, s[0]) then [x] + s
    else
      assert s == [s[0]] + s[1..];
      [s[0]] + Insert(x, s[1..], le)
  }

  lemma {:induction false} InsertSorted<T(!new)>(x: T, s: seq<T>, le: (T, T) -> bool)
    requires TotalPreorder(le) && SortedBy(s, le)
    ensures SortedBy(Insert(x, s, le), le)
  {
    if s == [] {
    } else if le(x, s[0]) {
      InsertFrontSorted(x, s, le);
    } else {
      var tail := s[1..];
      assert SortedBy(tail, le) by {
        forall i, j | 0 <= i < j < |tail| ensures le(tail[i], tail[j]) {
          assert tail[i] == s[i + 1] && tail[j] == s[j + 1];
        }
      }
      InsertSorted(x, tail, le);
      InsertBehindSorted(x, s, le);
    }
  }

  lemma InsertFrontSorted<T(!new)>(x: T, s: seq<T>, le: (T, T) -> bool)
    requires TotalPreorder(le) && SortedBy(s, le)
    requires s != [] && le(x, s[0])
    ensures SortedBy([x] + s, le)
  {
    var r := [x] + s;
    forall i, j | 0 <= i < j < |r| ensures le(r[i], r[j]) {
      if i == 0 {
        if j > 1 {
          assert le(s[0], s[j - 1]);
        }
      } else {
        assert r[i] == s[i - 1] && r[j] == s[j - 1];
      }
    }
  }

  lemma InsertBehindSorted<T(!new)>(x: T, s: seq<T>, le: (T, T) -> bool)
    requires TotalPreorder(le) && SortedBy(s, le)
    requires s != [] && !le(x, s[0]) && SortedBy(Insert(x, s[1..], le), le)
    ensures SortedBy([s[0]] + Insert(x, s[1..], le), le)
  {
    var tail := s[1..];
    var rest := Insert(x, tail, le);
    var r := [s[0]] + rest;
    assert le(s[0], x);
    forall y | y in rest ensures le(s[0], y) {
      if y != x {
        var k :| 0 <= k < |tail| && tail[k] == y;
        assert s[k + 1] == y;
      }
    }
    forall i, j | 0 <= i < j < |r| ensures le(r[i], r[j]) {
      if i == 0 {
        assert r[j] in rest;
      } else {
        assert r[i] == rest[i - 1] && r[j] == rest[j - 1];
      }
    }
  }

  /** The rows of `s` ordered by `le`; rows that compare equal keep their order in `s`. */
  function SortBy<T(!new)>(s: seq<T>, le: (T, T) -> bool): (r: seq<T>)
    ensures multiset(r) == multiset(s)
    ensures |r| == |s|
  {
    if s == [] then []
    else
      assert s == [s[0]] + s[1..];
      var r := Insert(s[0], SortBy(s[1..], le), le);
      assert |r| == |multiset(r)| == |s|;
      r
  }

  lemma {:induction false} SortBySorted<T(!new)>(s: seq<T>, le: (T, T) -> bool)
    requires TotalPreorder(le)
    ensures SortedBy(SortBy(s, le), le)
  {
    if s != [] {
      SortBySorted(s[1..], le);
      InsertSorted(s[0], SortBy(s[1..], le), le);
    }
  }

  lemma SortByMembership<T(!new)>(s: seq<T>, le: (T, T) -> bool, x: T)
    ensures x in SortBy(s, le) <==> x in s
  {
    var r := SortBy(s, le);
    assert x in r <==> x in multiset(r);
    assert x in s <==> x in multiset(s);
  }

  /** A run cut out of a sorted list (a page of it) is sorted. */
  lemma SortedSlice<T>(s: seq<T>, le: (T, T) -> bool, a: int, b: int)
    requires SortedBy(s, le) && 0 <= a <= b <= |s|
    ensures SortedBy(s[a..b], le)
  {
    forall i, j | 0 <= i < j < b - a ensures le(s[a..b][i], s[a..b][j]) {
      assert s[a..b][i] == s[a + i] && s[a..b][j] == s[a + j];
    }
  }

  /** Everything a caller needs to know about `SortBy` under a total preorder. */
  lemma SortByFacts<T(!new)>(s: seq<T>, le: (T, T) -> bool)
    requires TotalPreorder(le)
    ensures var r := SortBy(s, le);
      && |r| == |s|
      && multiset(r) == multiset(s)
      && SortedBy(r, le)
      && (forall x :: x in r <==> x in s)
  {
    SortBySorted(s, le);
    forall x ensures x in SortBy(s, le) <==> x in s {
      SortByMembership(s, le, x);
    }
  }

  // ---------------------------------------------------------------- text order

  /** SQLite's BINARY collation: code-point-wise lexicographic order. */
  predicate StrLe(a: string, b: string) {
    if a == [] then true
    else if b == [] then false
    else if a[0] != b[0] then a[0] < b[0]
    else StrLe(a[1..], b[1..])
  }

  lemma {:induction false} StrLeTotal(a: string, b: string)
    ensures StrLe(a, b) || StrLe(b, a)
  {
    if a != [] && b != [] && a[0] == b[0] {
      StrLeTotal(a[1..], b[1..]);
    }
  }

  lemma {:induction false} StrLeTransitive(a: string, b: string, c: string)
    requires StrLe(a, b) && StrLe(b, c)
    ensures StrLe(a, c)
  {
    if a != [] && b != [] && c != [] && a[0] == b[0] && b[0] == c[0] {
      StrLeTransitive(a[1..], b[1..], c[1..]);
    }
  }

  lemma {:induction false} StrLeAntisymmetric(a: string, b: string)
    requires StrLe(a, b) && StrLe(b, a)
    ensures a == b
  {
    if a != [] && b != [] {
      StrLeAntisymmetric(a[1..], b[1..]);
      assert a == [a[0]] + a[1..] && b == [b[0]] + b[1..];
    }
  }

  /** Ordering rows by a text key with `le(x, y) = StrLe(key(x), key(y))` is a total preorder. */
  lemma TextKeyPreorder<T(!new)>(key: T -> string)
    ensures TotalPreorder((x: T, y: T) => StrLe(key(x), key(y)))
  {
    forall a, b ensures StrLe(key(a), key(b)) || StrLe(key(b), key(a)) {
      StrLeTotal(key(a), key(b));
    }
    forall a, b, c | StrLe(key(a), key(b)) && StrLe(key(b), key(c)) ensures StrLe(key(a), key(c)) {
      StrLeTransitive(key(a), key(b), key(c));
    }
  }

  // ---------------------------------------------------------------- numeric and nullable keys

  /** `ORDER BY key DESC` over a NOT NULL integer key. */
  predicate IntDesc(a: int, b: int) { a >= b }

  /** SQLite orders NULL before every value, so `ASC` puts NULLs first ... */
  predicate NullableAsc(a: Option<int>, b: Option<int>) {
    a.None? || (b.Some? && a.value <= b.value)
  }

  /** ... and `DESC` puts them last. */
  predicate NullableDesc(a: Option<int>, b: Option<int>) {
    NullableAsc(b, a)
  }

  lemma IntKeyDescPreorder<T(!new)>(key: T -> int)
    ensures TotalPreorder((x: T, y: T) => IntDesc(key(x), key(y)))
  {
  }

  lemma NullableKeyAscPreorder<T(!new)>(key: T -> Option<int>)
    ensures TotalPreorder((x: T, y: T) => NullableAsc(key(x), key(y)))
  {
  }

  lemma NullableKeyDescPreorder<T(!new)>(key: T -> Option<int>)
    ensures TotalPreorder((x: T, y: T) => NullableDesc(key(x), key(y)))
  {
  }
}
