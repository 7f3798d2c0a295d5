/** List pagination: `take(limit).skip((page - 1) * limit)` and the page count. */
module Paging {

  function Min(a: nat, b: nat): nat { if a <= b then a else b }

  /** Rows of one page; a skip beyond the end yields nothing. */
  function PageOf<T>(rows: seq<T>, page: nat, limit: nat): seq<T>
    requires page >= 1 && limit >= 1
  {
    var skip := (page - 1) * limit;
    rows[Min(skip, |rows|)..Min(skip + limit, |rows|)]
  }

  /** `Math.ceil(total / limit)`. */
  function TotalPages(total: nat, limit: nat): nat
    requires limit >= 1
  {
    if total % limit == 0 then total / limit else total / limit + 1
  }

  function FirstPages<T>(rows: seq<T>, limit: nat, n: nat): seq<T>
    requires limit >= 1
  {
    if n == 0 then [] else FirstPages(rows, limit, n - 1) + PageOf(rows, n, limit)
  }

  lemma {:induction false} FirstPagesArePrefix<T>(rows: seq<T>, limit: nat, n: nat)
    requires limit >= 1
    ensures n * limit >= 0 && FirstPages(rows, limit, n) == rows[..Min(n * limit, |rows|)]
  {
    if n > 0 {
      FirstPagesArePrefix(rows, limit, n - 1);
      assert n * limit == (n - 1) * limit + limit;
    }
  }

  lemma MulMonotone(a: int, b: int, limit: nat)
    requires a <= b
    ensures a * limit <= b * limit
  {
  }

  lemma PageCountCovers(total: nat, limit: nat, page: nat)
    requires limit >= 1 && page >= 1
    ensures total <= TotalPages(total, limit) * limit
    ensures page <= TotalPages(total, limit) <==> (page - 1) * limit < total
  {
    var d, m, pages := total / limit, total % limit, TotalPages(total, limit);
    assert total == d * limit + m;
    assert (d + 1) * limit == d * limit + limit;
    assert pages * limit == if m == 0 then d * limit else d * limit + limit;
    if page <= pages {
      MulMonotone(page - 1, pages - 1, limit);
      assert (pages - 1) * limit == pages * limit - limit;
    } else {
      MulMonotone(pages, page - 1, limit);
    }
  }

  /** Pages 1..totalPages partition the rows in order; exactly those pages are nonempty, none is over the limit. */
  lemma PagesPartitionRows<T>(rows: seq<T>, limit: nat)
    requires limit >= 1
    ensures FirstPages(rows, limit, TotalPages(|rows|, limit)) == rows
    ensures forall page: nat | page >= 1 ::
      && |PageOf(rows, page, limit)| <= limit
      && (PageOf(rows, page, limit) != [] <==> page <= TotalPages(|rows|, limit))
  {
    FirstPagesArePrefix(rows, limit, TotalPages(|rows|, limit));
    PageCountCovers(|rows|, limit, 1);
    forall page: nat | page >= 1
      ensures |PageOf(rows, page, limit)| <= limit
      ensures PageOf(rows, page, limit) != [] <==> page <= TotalPages(|rows|, limit)
    {
      PageCountCovers(|rows|, limit, page);
    }
  }
}
