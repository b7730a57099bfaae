/** Fixed-size pagination of the filtered list, and the previous/next handlers. */
module Pagination {

  /** Page size of the listing. */
  const ItemsPerPage: nat := 10

  function Min(a: int, b: int): int { if a <= b then a else b }
  function Max(a: int, b: int): int { if a >= b then a else b }

  /** `Math.ceil(n / ItemsPerPage)` for a list length `n`, as integer ceiling division. */
  function TotalPages(n: nat): (pages: nat)
    ensures n <= pages * ItemsPerPage
    ensures pages > 0 ==> (pages - 1) * ItemsPerPage < n
    ensures pages == 0 <==> n == 0
  {
    (n + ItemsPerPage - 1) / ItemsPerPage
  }

  /** A bound given to `Array.prototype.slice`: a negative one counts from the
      end, and the result is clamped to `[0, len]`. */
  function SliceBound(i: int, len: nat): (k: nat)
    ensures k <= len
    ensures 0 <= i <= len ==> k == i
    ensures i < 0 ==> k == Max(len + i, 0)
    ensures len < i ==> k == len
  {
    if i < 0 then Max(len + i, 0) else Min(i, len)
  }

  /** `s.slice(start, end)`: the elements from the first bound up to the second,
      or nothing when the second does not lie after the first. */
  function Slice<T>(s: seq<T>, start: int, end: int): (r: seq<T>)
    ensures |r| <= |s|
    ensures 0 <= start <= end ==> r == s[Min(start, |s|)..Min(end, |s|)]
  {
    var from, to := SliceBound(start, |s|), SliceBound(end, |s|);
    if from < to then s[from..to] else []
  }

  /** The records shown on page `page` (numbered from 1). */
  function PageSlice<T>(items: seq<T>, page: int): (r: seq<T>)
    ensures |r| <= ItemsPerPage
    ensures 1 <= page ==>
      r == items[Min((page - 1) * ItemsPerPage, |items|)..Min(page * ItemsPerPage, |items|)]
  {
    var startIndex := (page - 1) * ItemsPerPage;
    Slice(items, startIndex, startIndex + ItemsPerPage)
  }

  /** A page within the page count holds the records from `(page - 1) * 10` to
      `page * 10` (or to the end), and is not empty; a page after the last is empty. */
  lemma PageSliceBounds<T>(items: seq<T>, page: int)
    requires 1 <= page
    ensures page <= TotalPages(|items|) ==>
      PageSlice(items, page) == items[(page - 1) * ItemsPerPage..Min(page * ItemsPerPage, |items|)]
      && 0 < |PageSlice(items, page)|
    ensures page > TotalPages(|items|) ==> PageSlice(items, page) == []
  {
    var n := |items|;
    if page > TotalPages(n) {
      assert (page - 1) * ItemsPerPage >= TotalPages(n) * ItemsPerPage;
    }
  }

  /** Pages `1..k` written one after the other. */
  function PagesUpTo<T>(items: seq<T>, k: nat): (r: seq<T>)
    ensures |r| <= k * ItemsPerPage
  {
    if k == 0 then [] else PagesUpTo(items, k - 1) + PageSlice(items, k)
  }

  /** The first `k` pages are the first `10 * k` records (or all of them). */
  lemma {:induction false} PagesUpToPrefix<T>(items: seq<T>, k: nat)
    ensures PagesUpTo(items, k) == items[..Min(k * ItemsPerPage, |items|)]
  {
    if k > 0 {
      PagesUpToPrefix(items, k - 1);
      var a, b := Min((k - 1) * ItemsPerPage, |items|), Min(k * ItemsPerPage, |items|);
      assert items[..a] + items[a..b] == items[..b];
    }
  }

  /** Pages `1..TotalPages(n)` concatenate back to the whole list. */
  lemma PagesCoverList<T>(items: seq<T>)
    ensures PagesUpTo(items, TotalPages(|items|)) == items
  {
    PagesUpToPrefix(items, TotalPages(|items|));
  }

  /** The record at index `i` is on page `i / 10 + 1`, at position `i % 10`. */
  lemma PageOfIndex<T>(items: seq<T>, i: nat)
    requires i < |items|
    ensures 1 <= i / ItemsPerPage + 1 <= TotalPages(|items|)
    ensures i % ItemsPerPage < |PageSlice(items, i / ItemsPerPage + 1)|
    ensures PageSlice(items, i / ItemsPerPage + 1)[i % ItemsPerPage] == items[i]
  {
    var p := i / ItemsPerPage + 1;
    assert (p - 1) * ItemsPerPage + i % ItemsPerPage == i;
    PageSliceBounds(items, p);
  }

  /** The "previous" handler: `Math.max(1, page - 1)`. Clicking it changes the
      page exactly when the control is enabled, i.e. when not on page 1. */
  function PrevPage(current: int): (p: int)
    ensures 1 <= p
    ensures current > 1 ==> p == current - 1
    ensures p == current <==> PrevDisabled(current)
  {
    Max(1, current - 1)
  }

  /** The "previous" control is disabled on page 1. */
  predicate PrevDisabled(current: int) { current == 1 }

  /** The "next" handler: `Math.min(total, page + 1)`. Clicking it changes the
      page exactly when the control is enabled, i.e. when not on the last page. */
  function NextPage(current: int, total: int): (p: int)
    ensures p <= total
    ensures current < total ==> p == current + 1
    ensures 1 <= current <= total ==> 1 <= p
    ensures p == current <==> NextDisabled(current, total)
  {
    Min(total, current + 1)
  }

  /** The "next" control is disabled on the last page. */
  predicate NextDisabled(current: int, total: int) { current == total }
}
