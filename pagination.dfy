/**
 * The paging arithmetic shared by the analyse, user and import-log listings:
 * `page = parseInt(query.page) || 1`, `limit = parseInt(query.limit) || d`,
 * `offset = (page - 1) * limit`, `pages = Math.ceil(total / limit)`, and the two ways a page is cut
 * out of the rows: SQLite's `LIMIT ... OFFSET ...` and `Array.prototype.slice`.
 */
module Pagination {
  import opened Js
  import opened Seqs
  import opened Sorting

  /** `parseInt(param as string) || default`: an absent parameter reads as `"undefined"`, which does not
      parse; `NaN` and `0` both fall back to the default. */
  function IntParamOr(param: Option<string>, default: int): (r: int)
    requires default != 0
    ensures r != 0
    ensures param.None? ==> r == default
    ensures param.Some? && ParseIntStr(param.value).Some? && ParseIntStr(param.value).value != 0 ==>
      r == ParseIntStr(param.value).value
    ensures param.Some? && (ParseIntStr(param.value).None? || ParseIntStr(param.value) == Some(0)) ==>
      r == default
  {
    match param
    case None => default
    case Some(text) =>
      var parsed := ParseIntStr(text);
      if parsed.Some? && parsed.value != 0 then parsed.value else default
  }

  /** `parseInt(undefined)` is `NaN`: the text "undefined" has no leading digit. */
  lemma UndefinedIsNaN()
    ensures ParseIntStr("undefined") == None
  {
    var u := "undefined";
    assert !IsJsSpace(u[0]);
    assert TrimStart(u) == u;
    assert !IsDigit(u[0]);
    assert DigitPrefix(u) == [];
  }

  /** A parameter written as a non-zero number is read back as that number; `"0"` falls back. */
  lemma IntParamOfNumber(n: int, default: int)
    requires default != 0
    ensures IntParamOr(Some(IntToString(n)), default) == if n == 0 then default else n
  {
    ParseIntOfIntToString(n);
  }

  /** The query texts `"1"`, `"2"`, ..., `String(k)` a client sends to walk through `k` pages. */
  function PageNumbers(k: nat): (texts: seq<string>)
    ensures |texts| == k
  {
    seq(k, i requires 0 <= i < k => IntToString(i + 1))
  }

  /** Whatever the default, the i-th of those texts reads back as page number `i + 1`. */
  lemma PageNumbersRead(k: nat, default: int)
    requires default != 0
    ensures forall i :: 0 <= i < k ==> IntParamOr(Some(PageNumbers(k)[i]), default) == i + 1
  {
    forall i | 0 <= i < k
      ensures IntParamOr(Some(PageNumbers(k)[i]), default) == i + 1
    {
      PageNumberRead(k, i, default);
    }
  }

  lemma PageNumberRead(k: nat, i: nat, default: int)
    requires i < k && default != 0
    ensures IntParamOr(Some(PageNumbers(k)[i]), default) == i + 1
  {
    var text := PageNumbers(k)[i];
    assert text == IntToString(i + 1);
    IntParamOfNumber(i + 1, default);
  }

  function Offset(page: int, limit: int): int {
    (page - 1) * limit
  }

  /** `Math.ceil(total / limit)` (the limit is never 0, because `|| d` replaces a 0). */
  function Pages(total: nat, limit: int): (r: int)
    requires limit != 0
    ensures limit > 0 ==> r >= 0
  {
    CeilDiv(total, limit)
  }

  /** No rows means no pages, whatever the limit. */
  lemma PagesOfNothing(limit: int)
    requires limit != 0
    ensures Pages(0, limit) == 0
  {
    if limit > 0 {
      assert (limit - 1) / limit == 0;
    } else {
      assert 0 / (-limit) == 0;
    }
  }

  /** From page 1 on, with a positive limit, the offset is never negative. */
  lemma OffsetNonNegative(page: int, limit: int)
    requires page >= 1 && limit > 0
    ensures Offset(page, limit) >= 0
  {
    MulNonNegative(page - 1, limit);
  }

  lemma MulNonNegative(a: int, b: int)
    requires a >= 0 && b >= 0
    ensures a * b >= 0
  {
  }

  lemma MulMonotone(a: int, b: int, limit: int)
    requires a <= b && limit > 0
    ensures a * limit <= b * limit
  {
    MulNonNegative(b - a, limit);
    assert b * limit - a * limit == (b - a) * limit;
  }

  /** Where SQLite starts reading for `OFFSET offset`: a negative offset counts as 0. */
  function StartRow(offset: int, len: nat): (s: nat)
    ensures s <= len
  {
    if offset <= 0 then 0 else if offset > len then len else offset
  }

  /** `... LIMIT limit OFFSET offset` over `rows` already in result order: the rows from position
      `max(offset, 0)` on, at most `limit` of them, and all of them when `limit` is negative. */
  function LimitOffset<T>(rows: seq<T>, limit: int, offset: int): (r: seq<T>)
    ensures var s := StartRow(offset, |rows|);
      && s + |r| <= |rows|
      && r == rows[s..s + |r|]
      && (limit < 0 ==> s + |r| == |rows|)
      && (limit >= 0 ==> |r| == if limit <= |rows| - s then limit else |rows| - s)
  {
    var s := StartRow(offset, |rows|);
    if limit < 0 || s + limit > |rows| then rows[s..] else rows[s..s + limit]
  }

  /** Page `page` of `rows` as the listing endpoints request it. */
  function PageOf<T>(rows: seq<T>, page: int, limit: int): seq<T> {
    LimitOffset(rows, limit, Offset(page, limit))
  }

  /** Pages `1..k` of `rows`, in page order. */
  function FirstPages<T>(rows: seq<T>, limit: int, k: nat): seq<seq<T>> {
    seq(k, i requires 0 <= i < k => PageOf(rows, i + 1, limit))
  }

  /** With a non-negative offset and limit, the page is the run of rows between the two bounds,
      each cut at the end of the rows. */
  lemma LimitOffsetSpan<T>(rows: seq<T>, limit: int, offset: int)
    requires limit >= 0 && offset >= 0
    ensures LimitOffset(rows, limit, offset) == rows[Min(offset, |rows|)..Min(offset + limit, |rows|)]
  {
  }

  function Min(a: int, b: int): int { if a <= b then a else b }

  lemma NextMultiple(k: int, limit: int)
    ensures k * limit == (k - 1) * limit + limit
  {
  }

  lemma FirstPagesSnoc<T>(rows: seq<T>, limit: int, k: nat)
    requires k > 0
    ensures FirstPages(rows, limit, k) == FirstPages(rows, limit, k - 1) + [PageOf(rows, k, limit)]
  {
    var all, prev := FirstPages(rows, limit, k), FirstPages(rows, limit, k - 1);
    assert |all| == |prev + [PageOf(rows, k, limit)]|;
    forall i | 0 <= i < k ensures all[i] == (prev + [PageOf(rows, k, limit)])[i] {
    }
  }

  /** Pages that are, one by one, pages 1, 2, ... of `rows` are the first pages of `rows`. */
  lemma PagesInOrder<T>(pages: seq<seq<T>>, rows: seq<T>, limit: int)
    requires forall i :: 0 <= i < |pages| ==> pages[i] == PageOf(rows, i + 1, limit)
    ensures pages == FirstPages(rows, limit, |pages|)
  {
  }

  /** Reading pages `1..k` in turn yields the first `k * limit` rows. */
  lemma {:induction false} FirstPagesConcat<T>(rows: seq<T>, limit: int, k: nat)
    requires limit > 0
    ensures Concat(FirstPages(rows, limit, k)) == rows[..Min(k * limit, |rows|)]
  {
    if k == 0 {
      assert FirstPages(rows, limit, 0) == [];
    } else {
      FirstPagesConcat(rows, limit, k - 1);
      var prev := FirstPages(rows, limit, k - 1);
      var page := PageOf(rows, k, limit);
      FirstPagesSnoc(rows, limit, k);
      ConcatSnoc(prev, page);
      var a, b := Min((k - 1) * limit, |rows|), Min(k * limit, |rows|);
      PageBetween(rows, limit, k);
      assert rows[..a] + rows[a..b] == rows[..b];
    }
  }

  lemma PageBetween<T>(rows: seq<T>, limit: int, k: nat)
    requires limit > 0 && k > 0
    ensures 0 <= Min((k - 1) * limit, |rows|) <= Min(k * limit, |rows|) <= |rows|
    ensures PageOf(rows, k, limit) == rows[Min((k - 1) * limit, |rows|)..Min(k * limit, |rows|)]
  {
    var o := (k - 1) * limit;
    MulNonNegative(k - 1, limit);
    NextMultiple(k, limit);
    LimitOffsetSpan(rows, limit, o);
  }

  /** The `pages` the endpoints report is exactly enough: pages `1..pages` together hold every row,
      in order, and each of them holds at most `limit` rows. */
  lemma PagesCoverRows<T>(rows: seq<T>, limit: int)
    requires limit > 0
    ensures Pages(|rows|, limit) >= 0
    ensures Concat(FirstPages(rows, limit, Pages(|rows|, limit))) == rows
    ensures forall p :: 1 <= p ==> |PageOf(rows, p, limit)| <= limit
  {
    var n := Pages(|rows|, limit);
    assert n == (|rows| + limit - 1) / limit;
    FirstPagesConcat(rows, limit, n);
    assert n * limit >= |rows|;
    assert rows[..Min(n * limit, |rows|)] == rows;
  }

  /** A page (numbered from 1) has rows exactly when its number is at most `pages`. */
  lemma PageNonEmptyIffWithinPages<T>(rows: seq<T>, page: int, limit: int)
    requires limit > 0 && page >= 1
    ensures PageOf(rows, page, limit) != [] <==> page <= Pages(|rows|, limit)
  {
    var n := Pages(|rows|, limit);
    var offset := Offset(page, limit);
    OffsetNonNegative(page, limit);
    if page <= n {
      MulMonotone(page - 1, n - 1, limit);
      assert offset < |rows|;
      assert PageOf(rows, page, limit)[0] == rows[offset];
    } else {
      MulMonotone(n, page - 1, limit);
      assert offset >= |rows|;
    }
  }


  /** A page number below 1 gives a negative offset, which SQLite reads as 0: the first page. */
  lemma PageBelowOne<T>(rows: seq<T>, page: int, limit: int)
    requires page < 1 && limit > 0
    ensures PageOf(rows, page, limit) == PageOf(rows, 1, limit)
  {
    MulMonotone(page - 1, 0, limit);
  }

  /** For a page number of at least 1 and a positive limit, cutting the page out of the list with
      `slice(offset, offset + limit)` gives the same rows as `LIMIT limit OFFSET offset`. */
  lemma SliceIsLimitOffset<T>(rows: seq<T>, page: int, limit: int)
    requires page >= 1 && limit > 0
    ensures var offset := Offset(page, limit);
      Slice(rows, offset, offset + limit) == LimitOffset(rows, limit, offset)
  {
    var offset := Offset(page, limit);
    OffsetNonNegative(page, limit);
  }

  /** From page 1 on, with a positive limit, page `page` is the run of rows from `(page - 1) * limit`
      up to `page * limit`, both cut at the end of the rows. */
  lemma PageSpan<T>(rows: seq<T>, page: int, limit: int)
    requires page >= 1 && limit > 0
    ensures var offset := Offset(page, limit);
      PageOf(rows, page, limit) == rows[Min(offset, |rows|)..Min(offset + limit, |rows|)]
  {
    OffsetNonNegative(page, limit);
    LimitOffsetSpan(rows, limit, Offset(page, limit));
  }


  /** A page cut from rows in sorted order is itself in that order, holds only those rows and,
      for a non-negative limit, at most `limit` of them. */
  lemma SortedPage<T>(rows: seq<T>, le: (T, T) -> bool, page: int, limit: int)
    requires SortedBy(rows, le)
    ensures var r := PageOf(rows, page, limit);
      && SortedBy(r, le)
      && (forall x :: x in r ==> x in rows)
      && (limit >= 0 ==> |r| <= limit)
  {
    var r := PageOf(rows, page, limit);
    var s := StartRow(Offset(page, limit), |rows|);
    assert r == rows[s..s + |r|];
    SortedSlice(rows, le, s, s + |r|);
    forall x | x in r ensures x in rows {
      var k :| 0 <= k < |r| && r[k] == x;
      assert rows[s + k] == x;
    }
  }
}
