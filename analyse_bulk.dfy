/**
 * The bulk queries of the agent analysis (`GET /api/admin/analyse`): the company ids are cut into
 * chunks small enough for D1's limit on bound parameters, tasks and activities are fetched chunk
 * by chunk, and every result is grouped by agent.
 */
module AnalyseBulk {
  import opened Js
  import opened Seqs

  /** `SQL_VAR_LIMIT`: a conservative bound on the parameters one D1 query may bind. */
  const SqlVarLimit := 50

  /** `Math.max(1, SQL_VAR_LIMIT - pageIdCount - 5)`: the company ids per chunk, leaving room for
      the agent ids of the page and a margin of five. */
  function ChunkSize(pageIdCount: nat): (r: int)
    ensures r >= 1
    ensures pageIdCount <= SqlVarLimit - 6 ==> pageIdCount + r + 5 == SqlVarLimit
    ensures pageIdCount > SqlVarLimit - 6 ==> r == 1
  {
    var room := SqlVarLimit - pageIdCount - 5;
    if room > 1 then room else 1
  }

  /** `chunk(arr, size)`: consecutive pieces of `size` elements (a non-positive size counts as 1);
      only the last piece may be shorter. */
  method Chunk<T>(arr: seq<T>, size: int) returns (out: seq<seq<T>>)
    ensures Concat(out) == arr
    ensures var n := if size <= 0 then 1 else size;
      && (forall k :: 0 <= k < |out| ==> 1 <= |out[k]| <= n)
      && (forall k :: 0 <= k < |out| - 1 ==> |out[k]| == n)
      && |out| * n >= |arr|
      && (|out| > 0 ==> (|out| - 1) * n < |arr|)
      && (arr == [] ==> out == [])
  {
    var n := if size <= 0 then 1 else size;
    out := [];
    var i := 0;
    while i < |arr|
      invariant i >= 0
      invariant i == |out| * n
      invariant |out| > 0 ==> i - n < |arr|
      invariant arr == [] ==> out == []
      invariant i <= |arr| ==> Concat(out) == arr[..i]
      invariant i > |arr| ==> Concat(out) == arr
      invariant forall k :: 0 <= k < |out| ==> 1 <= |out[k]| <= n
      invariant forall k :: 0 <= k < |out| - 1 ==> |out[k]| == n
      invariant i <= |arr| ==> forall k :: 0 <= k < |out| ==> |out[k]| == n
    {
      // `arr.slice(i, i + size)`, which stops at the end of `arr`
      var end := if i + n <= |arr| then i + n else |arr|;
      var piece := arr[i..end];
      ConcatSnoc(out, piece);
      assert arr[..i] + piece == arr[..end];
      NextChunkStart(|out|, n);
      var longer := out + [piece];
      assert forall k :: 0 <= k < |out| ==> longer[k] == out[k];
      out := longer;
      i := i + n;
    }
    NextChunkStart(|out| - 1, n);
  }

  lemma NextChunkStart(m: int, n: int)
    ensures (m + 1) * n == m * n + n
  {
  }

  /** `findMany({ where: and(keep, inArray(key, ids)) })`: the rows that pass `keep` and whose key
      is one of `ids`, in table order. */
  function Fetch<T(!new)>(rows: seq<T>, keep: T -> bool, key: T -> int, ids: seq<int>): (r: seq<T>)
    ensures |r| <= |rows|
    ensures forall x :: x in r <==> x in rows && keep(x) && key(x) in ids
  {
    if rows == [] then []
    else
      var rest := Fetch(rows[1..], keep, key, ids);
      assert forall x :: x in rows <==> x == rows[0] || x in rows[1..];
      if keep(rows[0]) && key(rows[0]) in ids then [rows[0]] + rest else rest
  }

  lemma {:induction false} FetchNoIds<T(!new)>(rows: seq<T>, keep: T -> bool, key: T -> int)
    ensures Fetch(rows, keep, key, []) == []
  {
    if rows != [] {
      FetchNoIds(rows[1..], keep, key);
    }
  }

  /** Fetching by two disjoint id lists finds, together, exactly the rows one query over both finds. */
  lemma {:induction false} FetchDisjointUnion<T(!new)>(rows: seq<T>, keep: T -> bool, key: T -> int,
                                                 a: seq<int>, b: seq<int>)
    requires forall x :: x in a ==> x !in b
    ensures multiset(Fetch(rows, keep, key, a + b))
         == multiset(Fetch(rows, keep, key, a)) + multiset(Fetch(rows, keep, key, b))
  {
    if rows != [] {
      FetchDisjointUnion(rows[1..], keep, key, a, b);
    }
  }

  lemma DistinctPrefix<T>(a: seq<T>, b: seq<T>)
    requires Distinct(a + b)
    ensures Distinct(a)
  {
    forall i, j | 0 <= i < j < |a| ensures a[i] != a[j] {
      assert (a + b)[i] == a[i] && (a + b)[j] == a[j];
    }
  }

  lemma DistinctHalvesDisjoint<T>(a: seq<T>, b: seq<T>)
    requires Distinct(a + b)
    ensures forall x :: x in a ==> x !in b
  {
    forall x | x in a ensures x !in b {
      var i :| 0 <= i < |a| && a[i] == x;
      forall j | 0 <= j < |b| ensures b[j] != x {
        assert (a + b)[i] == a[i] && (a + b)[|a| + j] == b[j];
      }
    }
  }

  /** The chunked loop `for (companyIds of chunks) all = all.concat(findMany(...))`. It finds every row
      the single query over all ids would find, and when the ids are distinct, each exactly once. */
  method FetchInChunks<T(!new)>(rows: seq<T>, keep: T -> bool, key: T -> int, chunks: seq<seq<int>>)
    returns (all: seq<T>)
    ensures forall x :: x in all <==> x in rows && keep(x) && key(x) in Concat(chunks)
    ensures Distinct(Concat(chunks)) ==> multiset(all) == multiset(Fetch(rows, keep, key, Concat(chunks)))
  {
    all := [];
    var i := 0;
    assert chunks[..0] == [];
    FetchNoIds(rows, keep, key);
    while i < |chunks|
      invariant 0 <= i <= |chunks|
      invariant forall x :: x in all <==> x in rows && keep(x) && key(x) in Concat(chunks[..i])
      invariant Distinct(Concat(chunks)) ==>
        multiset(all) == multiset(Fetch(rows, keep, key, Concat(chunks[..i])))
    {
      var done := Concat(chunks[..i]);
      var found := Fetch(rows, keep, key, chunks[i]);
      assert chunks[..i + 1] == chunks[..i] + [chunks[i]];
      ConcatSnoc(chunks[..i], chunks[i]);
      if Distinct(Concat(chunks)) {
        assert chunks == chunks[..i + 1] + chunks[i + 1..];
        ConcatAppend(chunks[..i + 1], chunks[i + 1..]);
        DistinctPrefix(done + chunks[i], Concat(chunks[i + 1..]));
        DistinctHalvesDisjoint(done, chunks[i]);
        FetchDisjointUnion(rows, keep, key, done, chunks[i]);
      }
      all := all + found;
      i := i + 1;
    }
    assert chunks[..i] == chunks;
  }

  /** The rows whose key is `Some(k)`, in order: what `groups.get(k)` holds once the `forEach` that
      fills a `Map<string, Row[]>` is done. */
  function Group<T(!new)>(rows: seq<T>, key: T -> Option<string>, k: string): (r: seq<T>)
    ensures |r| <= |rows|
    ensures forall x :: x in r <==> x in rows && key(x) == Some(k)
  {
    if rows == [] then []
    else
      var init := rows[..|rows| - 1];
      var last := rows[|rows| - 1];
      assert rows == init + [last];
      Group(init, key, k) + (if key(last) == Some(k) then [last] else [])
  }

  /** One more row joins the group of its own key only. */
  lemma GroupSnoc<T(!new)>(rows: seq<T>, row: T, key: T -> Option<string>, k: string)
    ensures Group(rows + [row], key, k) == Group(rows, key, k) + (if key(row) == Some(k) then [row] else [])
  {
    assert (rows + [row])[..|rows|] == rows;
  }

  /** `rows.forEach(r => { if (key(r) == null) return; if (!m.has(key(r))) m.set(key(r), []);
      m.get(key(r)).push(r) })` */
  method GroupByKey<T(!new)>(rows: seq<T>, key: T -> Option<string>) returns (groups: map<string, seq<T>>)
    ensures forall k :: k in groups <==> Group(rows, key, k) != []
    ensures forall k :: k in groups ==> groups[k] == Group(rows, key, k)
  {
    groups := map[];
    var i := 0;
    while i < |rows|
      invariant 0 <= i <= |rows|
      invariant forall k :: GroupOf(groups, k) == Group(rows[..i], key, k)
      invariant forall k :: k in groups ==> groups[k] != []
    {
      var r := rows[i];
      var seen := rows[..i];
      assert rows[..i + 1] == seen + [r];
      ghost var before := groups;
      if key(r).Some? {
        var k := key(r).value;
        if k !in groups {
          groups := groups[k := []];
        }
        groups := groups[k := groups[k] + [r]];
      }
      forall j ensures GroupOf(groups, j) == Group(seen + [r], key, j) {
        GroupSnoc(seen, r, key, j);
        assert GroupOf(before, j) == Group(seen, key, j);
      }
      i := i + 1;
    }
    assert rows[..i] == rows;
    forall k ensures k in groups <==> Group(rows, key, k) != [] {
      assert GroupOf(groups, k) == Group(rows, key, k);
    }
  }

  /** `groups.get(k) || []` */
  function GroupOf<T>(groups: map<string, seq<T>>, k: string): seq<T> {
    if k in groups then groups[k] else []
  }

  /** Looking up any agent in the grouped map gives that agent's rows, and rows without a key are
      in no group. */
  lemma GroupOfIsGroup<T(!new)>(rows: seq<T>, key: T -> Option<string>, groups: map<string, seq<T>>, k: string)
    requires forall j :: j in groups <==> Group(rows, key, j) != []
    requires forall j :: j in groups ==> groups[j] == Group(rows, key, j)
    ensures GroupOf(groups, k) == Group(rows, key, k)
    ensures forall x :: x in GroupOf(groups, k) ==> key(x).Some?
  {
  }
}
