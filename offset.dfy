/**
 * Offset pagination: the page of rows at the request's offset and the
 * metadata reported with it (total pages by ceiling division, next and
 * previous flags). The executed query is reduced to the ordered sequence of
 * rows it would return without offset and limit.
 */
module OffsetPagination {
  import opened Wrappers
  import opened QuerySchemas

  /** `total_pages`: the ceiling of total over limit for a positive total, else 1. */
  function TotalPages(total: Option<int>, limit: int): (pages: int)
    requires limit >= 1
    ensures pages >= 1
    ensures total.Some? && total.value > 0 ==> (pages - 1) * limit < total.value <= pages * limit
    ensures !(total.Some? && total.value > 0) ==> pages == 1
  {
    if total.Some? && total.value > 0 then
      var t := total.value;
      var p := (t + limit - 1) / limit;
      assert p * limit <= t + limit - 1 < p * limit + limit;
      assert (p - 1) * limit == p * limit - limit;
      p
    else 1
  }

  /** `rows[offset:offset + limit]`, as OFFSET and LIMIT select them. */
  function Window<T>(rows: seq<T>, offset: nat, limit: nat): (w: seq<T>)
    ensures |w| <= limit
    ensures offset >= |rows| ==> w == []
    ensures offset < |rows| ==> w == rows[offset..if offset + limit <= |rows| then offset + limit else |rows|]
  {
    if offset >= |rows| then []
    else if offset + limit <= |rows| then rows[offset..offset + limit]
    else rows[offset..]
  }

  /** `_apply_ordering`: the sort fields naming a model column, in order; others are skipped. */
  function AppliedOrdering(columns: set<string>, sortFields: seq<SortField>): (r: seq<SortField>)
    ensures |r| <= |sortFields|
    ensures forall k :: 0 <= k < |r| ==> r[k].0 in columns && r[k] in sortFields
    ensures (forall k :: 0 <= k < |sortFields| ==> sortFields[k].0 in columns) ==> r == sortFields
  {
    if sortFields == [] then []
    else
      var rest := AppliedOrdering(columns, sortFields[1..]);
      if sortFields[0].0 in columns then [sortFields[0]] + rest else rest
  }

  /**
   * `paginate`: `rows` is the ordered query result without offset and limit,
   * `totalCount` the count passed in; the count is taken from the query when
   * none is passed and `includeTotalCount` is set.
   */
  function Paginate<T>(rows: seq<T>, req: OffsetRequest, includeTotalCount: bool, totalCount: Option<int>): (r: OffsetResponse<T>)
    requires req.limit >= 1 && req.offset >= 0 && (req.page.Some? ==> req.page.value >= 1)
    ensures r.items == Window(rows, GetOffset(req), req.limit)
    ensures r.page == GetPage(req) && r.perPage == req.limit
  {
    var offset := GetOffset(req);
    var page := GetPage(req);
    var total := if totalCount.None? && includeTotalCount then Some(|rows|) else totalCount;
    var totalPages := TotalPages(total, req.limit);
    var known := total.Some? && total.value != 0;
    OffsetResponse(
      Window(rows, offset, req.limit),
      if known then total.value else 0,
      page, req.limit, totalPages,
      if known then page < totalPages else false,
      page > 1)
  }

  /** The flags: next iff the total is non-zero and the page is before the last; previous iff past the first page. */
  lemma PaginateFlags<T>(rows: seq<T>, req: OffsetRequest, includeTotalCount: bool, totalCount: Option<int>)
    requires req.limit >= 1 && req.offset >= 0 && (req.page.Some? ==> req.page.value >= 1)
    ensures var r := Paginate(rows, req, includeTotalCount, totalCount);
      r.hasPrevious <==> GetPage(req) > 1
    ensures var r := Paginate(rows, req, includeTotalCount, totalCount);
      r.hasNext <==> r.totalCount != 0 && r.page < r.totalPages
  {
  }

  /** Without a count, the total is reported as 0, there is one page and no next page. */
  lemma UnknownTotal<T>(rows: seq<T>, req: OffsetRequest)
    requires req.limit >= 1 && req.offset >= 0 && (req.page.Some? ==> req.page.value >= 1)
    ensures var r := Paginate(rows, req, false, None);
      r.totalCount == 0 && r.totalPages == 1 && !r.hasNext
  {
  }

  /**
   * With a true count and a page number, there is a next page exactly when
   * rows remain after this one, and then the next page is not empty.
   */
  lemma HasNextIffMoreRows<T>(rows: seq<T>, req: OffsetRequest)
    requires req.limit >= 1 && req.offset >= 0 && req.page.Some? && req.page.value >= 1
    ensures var r := Paginate(rows, req, true, None);
      r.hasNext <==> req.page.value * req.limit < |rows|
    ensures var r := Paginate(rows, req, true, None);
      r.hasNext ==> Window(rows, GetOffset(req.(page := Some(req.page.value + 1))), req.limit) != []
  {
    var p := req.page.value;
    var tp := TotalPages(Some(|rows|), req.limit);
    if |rows| > 0 {
      BeforeLastPage(p, tp, req.limit, |rows|);
    }
    var r := Paginate(rows, req, true, None);
    assert r.hasNext <==> |rows| > 0 && p < tp;
    assert GetOffset(req.(page := Some(p + 1))) == p * req.limit;
  }

  /** A page is before the last one exactly when rows remain after it. */
  lemma BeforeLastPage(p: int, pages: int, limit: int, total: int)
    requires limit >= 1 && total > 0
    requires (pages - 1) * limit < total <= pages * limit
    ensures p < pages <==> p * limit < total
  {
    if p < pages {
      MulMono(p, pages - 1, limit);
    } else {
      MulMono(pages, p, limit);
    }
  }

  lemma MulMono(a: int, b: int, m: int)
    requires a <= b && m >= 0
    ensures a * m <= b * m
  {
    assert b * m - a * m == (b - a) * m;
  }
}
