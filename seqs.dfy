/**
 * Sequence helpers standing for `Array.prototype.filter`, `[...new Set(xs)]`, counting,
 * summing and the SQL `IN (...)` membership test used by every listing query.
 */
module Seqs {

  /** `xs.filter(p)` (also: the rows a `WHERE p` keeps, in table order). */
  function Filter<T(!new)>(xs: seq<T>, p: T -> bool): (r: seq<T>)
    ensures |r| <= |xs|
    ensures forall x :: x in r <==> x in xs && p(x)
  {
    if xs == [] then []
    else
      var rest := Filter(xs[1..], p);
      assert xs == [xs[0]] + xs[1..];
      if p(xs[0]) then [xs[0]] + rest else rest
  }

  lemma {:induction false} FilterAppend<T(!new)>(a: seq<T>, b: seq<T>, p: T -> bool)
    ensures Filter(a + b, p) == Filter(a, p) + Filter(b, p)
    decreases |b|
  {
    if b == [] {
      assert a + b == a;
    } else {
      var b' := b[..|b| - 1];
      var x := b[|b| - 1];
      var h: seq<T> := if p(x) then [x] else [];
      assert a + b == (a + b') + [x];
      assert b == b' + [x];
      calc {
        Filter(a + b, p);
        Filter((a + b') + [x], p);
        { FilterSnoc(a + b', x, p); }
        Filter(a + b', p) + h;
        { FilterAppend(a, b', p); }
        (Filter(a, p) + Filter(b', p)) + h;
        Filter(a, p) + (Filter(b', p) + h);
        { FilterSnoc(b', x, p); }
        Filter(a, p) + Filter(b' + [x], p);
      }
    }
  }

  /** Unfolds `Filter` at the last element. */
  lemma {:induction false} FilterSnoc<T(!new)>(xs: seq<T>, x: T, p: T -> bool)
    ensures Filter(xs + [x], p) == Filter(xs, p) + (if p(x) then [x] else [])
  {
    if xs == [] {
      assert xs + [x] == [x];
      assert [x][1..] == [];
    } else {
      FilterSnoc(xs[1..], x, p);
      assert (xs + [x])[1..] == xs[1..] + [x];
    }
  }

  lemma {:induction false} FilterAll<T(!new)>(xs: seq<T>, p: T -> bool)
    requires forall x :: x in xs ==> p(x)
    ensures Filter(xs, p) == xs
  {
    if xs != [] {
      FilterAll(xs[1..], p);
    }
  }

  /** Filtering twice is filtering once by the conjunction. */
  lemma {:induction false} FilterFilter<T(!new)>(xs: seq<T>, p: T -> bool, q: T -> bool, both: T -> bool)
    requires forall x :: x in xs ==> (both(x) <==> p(x) && q(x))
    ensures Filter(Filter(xs, p), q) == Filter(xs, both)
  {
    if xs != [] {
      FilterFilter(xs[1..], p, q, both);
    }
  }

  /** A filter that rejects every element leaves nothing. */
  lemma {:induction false} FilterNone<T(!new)>(xs: seq<T>, p: T -> bool)
    requires forall x :: x in xs ==> !p(x)
    ensures Filter(xs, p) == []
  {
    if xs != [] {
      FilterNone(xs[1..], p);
    }
  }

  /** Filters by predicates that agree on the elements give the same rows. */
  lemma {:induction false} FilterCongruent<T(!new)>(xs: seq<T>, p: T -> bool, q: T -> bool)
    requires forall x :: x in xs ==> (p(x) <==> q(x))
    ensures Filter(xs, p) == Filter(xs, q)
  {
    if xs != [] {
      FilterCongruent(xs[1..], p, q);
    }
  }

  /** Every element of a prefix of `xs` is an element of `xs`. */
  lemma TakeMembers<T>(xs: seq<T>, n: int)
    requires 0 <= n <= |xs|
    ensures forall x :: x in xs[..n] ==> x in xs
  {
    forall x | x in xs[..n] ensures x in xs {
      var k :| 0 <= k < n && xs[..n][k] == x;
      assert xs[k] == x;
    }
  }

  /** Every element of a suffix of `xs` is an element of `xs`. */
  lemma DropMembers<T>(xs: seq<T>, n: int)
    requires 0 <= n <= |xs|
    ensures forall x :: x in xs[n..] ==> x in xs
  {
    forall x | x in xs[n..] ensures x in xs {
      var k :| 0 <= k < |xs| - n && xs[n..][k] == x;
      assert xs[n + k] == x;
    }
  }

  /** `xs.map(f)` */
  function MapSeq<T, U>(xs: seq<T>, f: T -> U): (r: seq<U>)
    ensures |r| == |xs|
    ensures forall i :: 0 <= i < |xs| ==> r[i] == f(xs[i])
  {
    seq(|xs|, i requires 0 <= i < |xs| => f(xs[i]))
  }

  /** An element kept from `xs.map(f)` is the image of an element of `xs`. */
  lemma FilterMapMembers<T, U(!new)>(xs: seq<T>, f: T -> U, p: U -> bool, y: U)
    requires y in Filter(MapSeq(xs, f), p)
    ensures p(y) && exists i :: 0 <= i < |xs| && y == f(xs[i])
  {
    var ys := MapSeq(xs, f);
    var i :| 0 <= i < |ys| && ys[i] == y;
    assert y == f(xs[i]);
  }

  lemma FilterSingleton<T(!new)>(x: T, p: T -> bool)
    ensures Filter([x], p) == if p(x) then [x] else []
  {
    assert [x][1..] == [];
  }

  lemma MapSingleton<T, U>(x: T, f: T -> U)
    ensures MapSeq([x], f) == [f(x)]
  {
  }

  /** `xs.filter(x => key(x)).map(key)` for a text key: the non-empty keys, in order. */
  function NonEmptyKeys<T(!new)>(xs: seq<T>, key: T -> string): seq<string> {
    MapSeq(Filter(xs, x => key(x) != ""), key)
  }

  lemma NonEmptyKeysMembers<T(!new)>(xs: seq<T>, key: T -> string)
    ensures forall id :: id in NonEmptyKeys(xs, key) <==> id != "" && exists x :: x in xs && key(x) == id
  {
    var f := Filter(xs, x => key(x) != "");
    var ks := NonEmptyKeys(xs, key);
    forall id ensures id in ks <==> id != "" && exists x :: x in xs && key(x) == id {
      if id in ks {
        var i :| 0 <= i < |ks| && ks[i] == id;
        assert f[i] in f;
      }
      if id != "" && exists x :: x in xs && key(x) == id {
        var x :| x in xs && key(x) == id;
        assert x in f;
        var i :| 0 <= i < |f| && f[i] == x;
        assert ks[i] == id;
      }
    }
  }

  predicate Distinct<T(==)>(xs: seq<T>) {
    forall i, j :: 0 <= i < j < |xs| ==> xs[i] != xs[j]
  }

  /** `[...new Set(xs)]`: the first occurrence of every value, in order of first appearance. */
  function Dedup<T(==,!new)>(xs: seq<T>): (r: seq<T>)
    ensures forall x :: x in r <==> x in xs
    ensures Distinct(r)
    ensures |r| <= |xs|
  {
    if xs == [] then []
    else
      var d := Dedup(xs[..|xs| - 1]);
      var last := xs[|xs| - 1];
      assert xs == xs[..|xs| - 1] + [last];
      if last in d then d else d + [last]
  }

  /** A sequence is empty exactly when nothing is in it. */
  lemma NoMembers<T>(xs: seq<T>)
    ensures xs == [] <==> forall x :: x !in xs
  {
    if xs != [] {
      assert xs[0] in xs;
    }
  }

  lemma DistinctCardinality<T>(xs: seq<T>)
    requires Distinct(xs)
    ensures |set x | x in xs| == |xs|
  {
    if xs != [] {
      var init := xs[..|xs| - 1];
      var last := xs[|xs| - 1];
      DistinctCardinality(init);
      assert xs == init + [last];
      assert (set x | x in xs) == (set x | x in init) + {last};
      assert last !in (set x | x in init);
    }
  }

  /** `[...new Set(xs)].length` is the number of distinct values of `xs`. */
  lemma DedupCardinality<T(!new)>(xs: seq<T>)
    ensures |Dedup(xs)| == |set x | x in xs|
  {
    DistinctCardinality(Dedup(xs));
    assert (set x | x in Dedup(xs)) == (set x | x in xs);
  }

  /** Number of elements of `xs` satisfying `p`. */
  function Count<T(!new)>(xs: seq<T>, p: T -> bool): nat {
    |Filter(xs, p)|
  }

  function Sum(xs: seq<nat>): nat {
    if xs == [] then 0 else xs[0] + Sum(xs[1..])
  }

  lemma {:induction false} SumAppend(a: seq<nat>, b: seq<nat>)
    ensures Sum(a + b) == Sum(a) + Sum(b)
  {
    if a == [] {
      assert a + b == b;
    } else {
      assert (a + b)[1..] == a[1..] + b;
      SumAppend(a[1..], b);
    }
  }

  function Concat<T>(xss: seq<seq<T>>): seq<T> {
    if xss == [] then [] else xss[0] + Concat(xss[1..])
  }

  lemma {:induction false} ConcatAppend<T>(a: seq<seq<T>>, b: seq<seq<T>>)
    ensures Concat(a + b) == Concat(a) + Concat(b)
  {
    if a == [] {
      assert a + b == b;
    } else {
      assert (a + b)[1..] == a[1..] + b;
      ConcatAppend(a[1..], b);
    }
  }

  lemma ConcatSnoc<T>(a: seq<seq<T>>, x: seq<T>)
    ensures Concat(a + [x]) == Concat(a) + x
  {
    ConcatAppend(a, [x]);
    assert Concat([x]) == x + Concat([x][1..]);
  }
}
