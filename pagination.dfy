/** The page arithmetic of the listing endpoints: the page number and page
    size parsed from the query string, the row offset, the number of pages,
    and the rows LIMIT/OFFSET select. */
module Pagination {
  import opened Common

  /** `parseInt(page) || 1`: the parsed value is None when parseInt gives
      NaN; NaN and 0 are falsy and give the default. */
  function PageNumber(parsed: Option<int>): (r: int)
    ensures r != 0
    ensures parsed.Some? && parsed.value != 0 ==> r == parsed.value
    ensures parsed.None? || parsed.value == 0 ==> r == 1
  {
    if TruthyNumber(parsed) then parsed.value else 1
  }

  /** `parseInt(limit) || 10` */
  function PageSize(parsed: Option<int>): (r: int)
    ensures r != 0
    ensures parsed.Some? && parsed.value != 0 ==> r == parsed.value
    ensures parsed.None? || parsed.value == 0 ==> r == 10
  {
    if TruthyNumber(parsed) then parsed.value else 10
  }

  /** `(pageNumber - 1) * pageSize` */
  function Offset(pageNumber: int, pageSize: int): int {
    (pageNumber - 1) * pageSize
  }

  /** `Math.ceil(n / d)` for a count n and a positive page size d. */
  function CeilDiv(n: nat, d: int): (r: nat)
    requires d >= 1
    ensures (r - 1) * d < n <= r * d
  {
    if n % d == 0 then n / d else n / d + 1
  }

  /** LIMIT size OFFSET offset over the rows in table order. */
  function Window<T>(rows: seq<T>, offset: nat, size: nat): (r: seq<T>)
    ensures |r| <= size
    ensures |r| == if offset >= |rows| then 0 else Min(size, |rows| - offset)
    ensures forall i :: 0 <= i < |r| ==> r[i] == rows[offset + i]
  {
    if offset >= |rows| then [] else rows[offset..offset + Min(size, |rows| - offset)]
  }

  function Min(a: int, b: int): int {
    if a <= b then a else b
  }

  /** The payload of a listing: the page's rows, the page number, the number
      of pages and the number of matching rows. */
  datatype Page<T> = Page(rows: seq<T>, currentPage: int, totalPages: nat, totalCount: nat)

  /** Postgres rejects a negative LIMIT or OFFSET, so a negative page size,
      or a page number below 1, ends in the catch with 500. */
  predicate Accepted(pageNumber: int, pageSize: int) {
    pageSize >= 0 && Offset(pageNumber, pageSize) >= 0
  }

  /** One page of `matching`, and the count of all of them. */
  function Paginate<T>(matching: seq<T>, page: Option<int>, limit: Option<int>): (r: Response<Page<T>>)
    ensures r.status == 200 || r.status == 500
    ensures r.status == 200 <==> r.data.Some?
    ensures r.status == 200 <==> PageNumber(page) >= 1 && PageSize(limit) >= 1
  {
    var pageNumber := PageNumber(page);
    var pageSize := PageSize(limit);
    if !Accepted(pageNumber, pageSize) then Response(500, None)
    else
      AcceptedIsPositive(pageNumber, pageSize);
      var offset := Offset(pageNumber, pageSize);
      Response(200, Some(Page(Window(matching, offset, pageSize), pageNumber,
                              CeilDiv(|matching|, pageSize), |matching|)))
  }

  // ----------------------------------------------------------------------
  // Properties

  /** Since neither value is 0, the query is accepted exactly when both are
      at least 1. */
  lemma AcceptedIsPositive(pageNumber: int, pageSize: int)
    requires pageNumber != 0 && pageSize != 0
    ensures Accepted(pageNumber, pageSize) <==> pageNumber >= 1 && pageSize >= 1
  {
    if pageSize >= 1 && pageNumber < 1 {
      assert (pageNumber - 1) * pageSize <= -pageSize by {
        assert (pageNumber - 1) <= -1;
        MulMonotone(pageNumber - 1, -1, pageSize);
      }
    }
  }

  lemma MulMonotone(a: int, b: int, c: int)
    requires a <= b && c >= 0
    ensures a * c <= b * c
  {
  }

  /** An accepted page holds at most pageSize rows, the ones from the
      offset on, and the total is the number of all matching rows. */
  lemma PaginateWindow<T>(matching: seq<T>, page: Option<int>, limit: Option<int>)
    requires Paginate(matching, page, limit).status == 200
    ensures var p := Paginate(matching, page, limit).data.value;
      && var offset := Offset(PageNumber(page), PageSize(limit));
      && p.currentPage == PageNumber(page)
      && p.totalCount == |matching|
      && |p.rows| <= PageSize(limit)
      && p.totalCount >= |p.rows|
      && (forall i :: 0 <= i < |p.rows| ==> offset + i < |matching| && p.rows[i] == matching[offset + i])
      && (p.totalPages - 1) * PageSize(limit) < p.totalCount <= p.totalPages * PageSize(limit)
  {
  }

  /** A page has rows exactly when its number is at most the number of
      pages. */
  lemma NonEmptyIffInRange<T>(rows: seq<T>, pageNumber: int, pageSize: int)
    requires pageNumber >= 1 && pageSize >= 1
    ensures |Window(rows, Offset(pageNumber, pageSize), pageSize)| > 0
        <==> pageNumber <= CeilDiv(|rows|, pageSize)
  {
    var c := CeilDiv(|rows|, pageSize);
    var offset := Offset(pageNumber, pageSize);
    if pageNumber <= c {
      MulMonotone(pageNumber - 1, c - 1, pageSize);
    } else {
      MulMonotone(c, pageNumber - 1, pageSize);
    }
  }

  /** Every row lies on exactly one page: row i is entry i % size of page
      i / size + 1, and that page is within the number of pages. */
  lemma EveryRowOnItsPage<T>(matching: seq<T>, pageSize: int, i: nat)
    requires pageSize >= 1 && i < |matching|
    ensures var p := i / pageSize + 1;
      && p <= CeilDiv(|matching|, pageSize)
      && i % pageSize < |Window(matching, Offset(p, pageSize), pageSize)|
      && Window(matching, Offset(p, pageSize), pageSize)[i % pageSize] == matching[i]
  {
    var p := i / pageSize + 1;
    assert Offset(p, pageSize) == i / pageSize * pageSize;
    assert i == i / pageSize * pageSize + i % pageSize;
    NonEmptyIffInRange(matching, p, pageSize);
  }
}
