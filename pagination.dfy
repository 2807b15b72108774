/** Pagination of the list queries (`paginate`): one page of a query's
    rows, with the page number, the page size and the number of rows the
    query matches without the page window. The rows the query matches are
    given as a sequence in result order; `skip` and `take` become a slice. */
module Pagination {
  import opened Entities

  const DefaultSize := 25

  datatype PaginatedResponse<T> = PaginatedResponse(data: seq<T>, page: int, size: int, total: int)

  /** `params.size || DEFAULT_SIZE`: an absent or zero size means the default. */
  function EffectiveSize(size: Option<int>): int {
    if size.Some? && size.value != 0 then size.value else DefaultSize
  }

  /** `skip(skip).take(take)` on the matched rows. */
  function Window<T>(rows: seq<T>, skip: nat, take: nat): (r: seq<T>)
    ensures |r| <= take
  {
    var from := if skip <= |rows| then skip else |rows|;
    var to := if skip + take <= |rows| then skip + take else |rows|;
    rows[from..to]
  }

  /** The response for the matched rows of a query: the window of the
      requested page, the page echoed, the effective size, and the count of
      every matched row. Page and size are validated non-negative. */
  function Respond<T>(rows: seq<T>, page: int, size: Option<int>): PaginatedResponse<T>
    requires page >= 0 && (size.Some? ==> size.value >= 0)
  {
    var s := EffectiveSize(size);
    PaginatedResponse(Window(rows, s * page, s), page, s, |rows|)
  }

  /** The parameters of `paginate`; `query` is filled in when the caller gave none. */
  class PaginateParams<T> {
    const typeName: string
    const page: int
    const size: Option<int>
    var query: Option<seq<T>>

    constructor(typeName: string, page: int, size: Option<int>, query: Option<seq<T>>)
      ensures this.typeName == typeName && this.page == page && this.size == size && this.query == query
    {
      this.typeName := typeName;
      this.page := page;
      this.size := size;
      this.query := query;
    }
  }

  /** `paginate`: with no query given, the query selects every row of the
      type (`table`) and is stored back into the parameters. */
  method Paginate<T>(params: PaginateParams<T>, table: seq<T>) returns (r: PaginatedResponse<T>)
    requires params.page >= 0 && (params.size.Some? ==> params.size.value >= 0)
    modifies params`query
    ensures params.query == Some(old(params.query).GetOr(table))
    ensures r == Respond(params.query.value, params.page, params.size)
  {
    if params.query.None? {
      params.query := Some(table);
    }
    var size := EffectiveSize(params.size);
    var rows := params.query.value;
    var data := Window(rows, size * params.page, size);
    r := PaginatedResponse(data, params.page, size, |rows|);
  }

  /** The size is the requested one unless it is absent or 0, then 25. */
  lemma EffectiveSizeDefault(size: Option<int>)
    ensures EffectiveSize(None) == 25 && EffectiveSize(Some(0)) == 25
    ensures size.Some? && size.value != 0 ==> EffectiveSize(size) == size.value
    ensures size.Some? && size.value >= 0 ==> EffectiveSize(size) >= 1
  {
  }

  /** A page holds at most `size` rows: the matched rows from `size * page` on,
      in order; the page is echoed and the total counts every matched row. */
  lemma PageContents<T>(rows: seq<T>, page: int, size: Option<int>)
    requires page >= 0 && (size.Some? ==> size.value >= 0)
    ensures var r := Respond(rows, page, size);
      var first := r.size * page;
      && r.size == EffectiveSize(size) && r.size >= 1
      && r.page == page && r.total == |rows|
      && |r.data| <= r.size
      && (first >= |rows| ==> r.data == [])
      && (first < |rows| ==> |r.data| == (if first + r.size <= |rows| then r.size else |rows| - first))
      && forall i :: 0 <= i < |r.data| ==> first + i < |rows| && r.data[i] == rows[first + i]
  {
  }

  /** The total does not depend on the page or its size. */
  lemma TotalIndependentOfPage<T>(rows: seq<T>, page1: int, size1: Option<int>, page2: int, size2: Option<int>)
    requires page1 >= 0 && (size1.Some? ==> size1.value >= 0)
    requires page2 >= 0 && (size2.Some? ==> size2.value >= 0)
    ensures Respond(rows, page1, size1).total == Respond(rows, page2, size2).total == |rows|
  {
  }

  /** Every matched row is on exactly one page: row `i` is at position
      `i % size` of page `i / size`. */
  lemma RowOnItsPage<T>(rows: seq<T>, size: nat, i: nat)
    requires size >= 1 && i < |rows|
    ensures var r := Respond(rows, i / size, Some(size));
      i % size < |r.data| && r.data[i % size] == rows[i]
  {
    var page := i / size;
    assert size * page + i % size == i;
    assert size * page <= i;
  }

  /** Pages of one size follow each other: the rows of page `p` and page
      `p + 1` together are the window of twice the size from the start of page `p`. */
  lemma {:induction false} AdjacentPages<T>(rows: seq<T>, page: nat, size: nat)
    requires size >= 1
    ensures Respond(rows, page, Some(size)).data + Respond(rows, page + 1, Some(size)).data
         == Window(rows, size * page, 2 * size)
  {
    var a := size * page;
    assert size * (page + 1) == a + size;
    WindowsAdjacent(rows, a, size);
  }

  /** Two windows of one width that touch make up the window of twice the width. */
  lemma WindowsAdjacent<T>(rows: seq<T>, skip: nat, take: nat)
    ensures Window(rows, skip, take) + Window(rows, skip + take, take) == Window(rows, skip, 2 * take)
  {
    var lo := if skip <= |rows| then skip else |rows|;
    var mid := if skip + take <= |rows| then skip + take else |rows|;
    var hi := if skip + 2 * take <= |rows| then skip + 2 * take else |rows|;
    assert rows[lo..mid] + rows[mid..hi] == rows[lo..hi];
  }
}
