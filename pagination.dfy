/** The pagination step both mock repositories end with: slice the 1-based page
    `[(page-1)*limit, page*limit)` out of the filtered list and describe it. */
module Pagination {
  import opened Seqs
  import opened Types

  function Min(a: int, b: int): int { if a < b then a else b }
  function Max(a: int, b: int): int { if a < b then b else a }

  /** `Math.ceil(n / d)` for a whole `n` and a positive `d`. */
  function CeilDiv(n: nat, d: int): (r: nat)
    requires d > 0
    ensures r * d >= n
    ensures r > 0 ==> (r - 1) * d < n
    ensures r == 0 <==> n == 0
  {
    var q := (n + d - 1) / d;
    assert q * d <= n + d - 1 < q * d + d;
    q
  }

  lemma MulMono(a: int, b: int, d: int)
    requires a <= b && d > 0
    ensures a * d <= b * d
  {
  }

  /** `startIndex`: where the 1-based page begins; the page ends `limit` later. */
  function PageStart(page: int, limit: int): (r: int)
    ensures page >= 1 && limit > 0 ==> r >= 0
  {
    (page - 1) * limit
  }

  /** The page's window: from a page of at least 1, `slice(startIndex, endIndex)`
      is the plain subsequence between the clamped bounds. */
  lemma PageWindow<T>(filtered: seq<T>, page: int, limit: int)
    requires limit > 0
    ensures page >= 1 ==>
      JsSlice(filtered, PageStart(page, limit), PageStart(page, limit) + limit)
      == filtered[Min(PageStart(page, limit), |filtered|)..Min(PageStart(page, limit) + limit, |filtered|)]
    ensures page >= 1 ==>
      |JsSlice(filtered, PageStart(page, limit), PageStart(page, limit) + limit)|
      == Min(limit, Max(0, |filtered| - PageStart(page, limit)))
  {
    SliceWindow(filtered, PageStart(page, limit), PageStart(page, limit) + limit, limit);
  }

  /** There is a next page exactly when the page is before the last one. */
  lemma NextPageIff(n: nat, page: int, limit: int)
    requires limit > 0
    ensures page >= 1 ==> (PageStart(page, limit) + limit < n <==> page < CeilDiv(n, limit))
  {
    var tp := CeilDiv(n, limit);
    assert PageStart(page, limit) + limit == page * limit;
    if page < 1 {
    } else if page < tp {
      MulMono(page, tp - 1, limit);
    } else {
      MulMono(tp, page, limit);
    }
  }

  /** A window of `limit` items from a non-negative `start`. */
  lemma SliceWindow<T>(s: seq<T>, start: int, end: int, limit: int)
    requires limit > 0 && end == start + limit
    ensures start >= 0 ==> JsSlice(s, start, end) == s[Min(start, |s|)..Min(end, |s|)]
    ensures start >= 0 ==> |JsSlice(s, start, end)| == Min(limit, Max(0, |s| - start))
  {
  }

  /** The page of `filtered` that `getArticles` / `getLibraryItems` return.
      `limit` must be positive: with zero or a negative limit the page count is
      `Infinity` or `NaN` in floating point. */
  function Paginate<T>(filtered: seq<T>, page: int, limit: int): (r: Response<T>)
    requires limit > 0
    ensures r.pagination.page == page && r.pagination.limit == limit
    ensures r.pagination.total == |filtered|
    ensures r.pagination.totalPages * limit >= |filtered|
    ensures r.pagination.totalPages > 0 ==> (r.pagination.totalPages - 1) * limit < |filtered|
    ensures r.pagination.hasNext <==> PageStart(page, limit) + limit < |filtered|
    ensures r.pagination.hasPrev <==> page > 1
    ensures page >= 1 ==>
      r.data == filtered[Min(PageStart(page, limit), |filtered|)..Min(PageStart(page, limit) + limit, |filtered|)]
    ensures page >= 1 ==>
      |r.data| == Min(limit, Max(0, |filtered| - PageStart(page, limit)))
    ensures page >= 1 ==> (r.pagination.hasNext <==> page < r.pagination.totalPages)
    ensures page < 1 ==> r.data == JsSlice(filtered, PageStart(page, limit), PageStart(page, limit) + limit)
  {
    var start := PageStart(page, limit);
    var end := start + limit;
    PageWindow(filtered, page, limit);
    NextPageIff(|filtered|, page, limit);
    Response(JsSlice(filtered, start, end),
             PaginationInfo(page, limit, |filtered|, CeilDiv(|filtered|, limit), end < |filtered|, page > 1))
  }

  /** Data of pages `1..k`, one after the other. */
  function PagesUpTo<T>(filtered: seq<T>, k: nat, limit: int): seq<T>
    requires limit > 0
  {
    if k == 0 then [] else PagesUpTo(filtered, k - 1, limit) + Paginate(filtered, k, limit).data
  }

  /** Where page `k` starts and ends. */
  lemma PageBounds(k: int, limit: int)
    requires limit > 0 && k >= 1
    ensures PageStart(k, limit) == (k - 1) * limit
    ensures PageStart(k, limit) + limit == k * limit
    ensures 0 <= (k - 1) * limit <= k * limit
  {
  }

  /** A prefix followed by the window after it is the longer prefix. */
  lemma PrefixThenWindow<T>(s: seq<T>, prev: seq<T>, window: seq<T>, a: int, b: int)
    requires 0 <= a <= b
    requires prev == s[..Min(a, |s|)] && window == s[Min(a, |s|)..Min(b, |s|)]
    ensures prev + window == s[..Min(b, |s|)]
  {
  }

  /** Pages `1..k` are pages `1..k-1` followed by the window of page `k`. */
  lemma PagesUpToStep<T>(filtered: seq<T>, k: nat, limit: int)
    requires limit > 0 && k > 0
    ensures PagesUpTo(filtered, k, limit)
         == PagesUpTo(filtered, k - 1, limit)
          + filtered[Min(PageStart(k, limit), |filtered|)..Min(PageStart(k, limit) + limit, |filtered|)]
  {
  }

  /** Reading pages `1..k` in order yields the first `min(k*limit, total)` items:
      pages never overlap or skip an item. */
  lemma {:induction false} PagesUpToPrefix<T>(filtered: seq<T>, k: nat, limit: int)
    requires limit > 0
    ensures PagesUpTo(filtered, k, limit) == filtered[..Min(k * limit, |filtered|)]
  {
    if k > 0 {
      var prev := PagesUpTo(filtered, k - 1, limit);
      PagesUpToPrefix(filtered, k - 1, limit);
      var a, b := (k - 1) * limit, k * limit;
      PageBounds(k, limit);
      var window := filtered[Min(a, |filtered|)..Min(b, |filtered|)];
      PagesUpToStep(filtered, k, limit);
      assert PagesUpTo(filtered, k, limit) == prev + window;
      PrefixThenWindow(filtered, prev, window, a, b);
    }
  }

  /** All `totalPages` pages together are exactly the filtered list. */
  lemma AllPagesCoverFiltered<T>(filtered: seq<T>, limit: int)
    requires limit > 0
    ensures PagesUpTo(filtered, Paginate(filtered, 1, limit).pagination.totalPages, limit) == filtered
  {
    var tp := Paginate(filtered, 1, limit).pagination.totalPages;
    PagesUpToPrefix(filtered, tp, limit);
    assert Min(tp * limit, |filtered|) == |filtered|;
  }

  /** A page past the last one is empty but still reports the full total. */
  lemma PastLastPageEmpty<T>(filtered: seq<T>, page: int, limit: int)
    requires limit > 0 && page >= 1
    requires page > Paginate(filtered, 1, limit).pagination.totalPages
    ensures Paginate(filtered, page, limit).data == []
    ensures Paginate(filtered, page, limit).pagination.total == |filtered|
  {
    var tp := Paginate(filtered, 1, limit).pagination.totalPages;
    MulMono(tp, page - 1, limit);
  }
}
