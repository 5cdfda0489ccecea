/**
 * The browser's pagination arithmetic: ten names per page, the page start
 * index, the shown slice, the page count and the Prev/Next conditions.
 */
module Pagination {

  const ItemsPerPage: nat := 10

  /** Pages are numbered from 1; the browser never goes below page 1. */
  type PageNumber = p: int | 1 <= p witness 1

  function Min(a: int, b: int): int {
    if a <= b then a else b
  }

  /** `startIndex = (page - 1) * ITEMS_PER_PAGE`: the number of names on earlier pages. */
  function StartIndex(page: PageNumber): nat {
    (page - 1) * ItemsPerPage
  }

  /** `s.slice(begin, end)` for non-negative bounds: both are clamped to the length. */
  function Slice<T>(s: seq<T>, begin: nat, end: nat): (r: seq<T>)
    ensures |r| == if begin < end && begin < |s| then Min(end, |s|) - begin else 0
    ensures forall i :: 0 <= i < |r| ==> begin + i < |s| && r[i] == s[begin + i]
  {
    var b := Min(begin, |s|);
    var e := Min(end, |s|);
    if e <= b then [] else s[b..e]
  }

  /** `paginatedFiles`: the names shown on `page`. */
  function PageItems<T>(files: seq<T>, page: PageNumber): seq<T> {
    Slice(files, StartIndex(page), StartIndex(page) + ItemsPerPage)
  }

  /**
   * A page is the contiguous run of at most ten names starting at its start
   * index, and holds ten names unless it reaches the end of the list.
   */
  lemma PageIsContiguousSlice<T>(files: seq<T>, page: PageNumber)
    ensures |PageItems(files, page)| <= ItemsPerPage
    ensures forall i :: 0 <= i < |PageItems(files, page)| ==>
      PageItems(files, page)[i] == files[StartIndex(page) + i]
    ensures |PageItems(files, page)| < ItemsPerPage ==> StartIndex(page) + |PageItems(files, page)| >= |files|
  {
  }

  /** `Math.ceil(n / ITEMS_PER_PAGE)`, in integers: the fewest pages that hold `n` names. */
  function PageCount(n: nat): (count: nat)
    ensures count * ItemsPerPage >= n
    ensures n > 0 ==> (count - 1) * ItemsPerPage < n
    ensures n == 0 ==> count == 0
  {
    (n + ItemsPerPage - 1) / ItemsPerPage
  }

  /** Prev is disabled on page 1. */
  predicate PrevDisabled(page: PageNumber) {
    page == 1
  }

  /** Next is disabled when `startIndex + ITEMS_PER_PAGE >= filteredFiles.length`. */
  predicate NextDisabled(page: PageNumber, n: nat) {
    StartIndex(page) + ItemsPerPage >= n
  }

  /**
   * When Prev is enabled on an existing page, the page it leads to is a full
   * page of ten names.
   */
  lemma PrevShowsFullPage<T>(files: seq<T>, page: PageNumber)
    requires !PrevDisabled(page) && page <= PageCount(|files|)
    ensures |PageItems(files, page - 1)| == ItemsPerPage
  {
  }

  /**
   * Next is disabled exactly on the last page or beyond it, that is exactly
   * when the next page would show nothing.
   */
  lemma {:induction false} NextDisabledIffLastPage<T>(files: seq<T>, page: PageNumber)
    ensures NextDisabled(page, |files|) <==> page >= PageCount(|files|)
    ensures NextDisabled(page, |files|) <==> |PageItems(files, page + 1)| == 0
  {
    assert StartIndex(page + 1) == StartIndex(page) + ItemsPerPage;
  }

  /** On any page from 1 to the page count, something is shown. */
  lemma ExistingPageNonEmpty<T>(files: seq<T>, page: PageNumber)
    requires page <= PageCount(|files|)
    ensures |PageItems(files, page)| > 0
  {
    assert StartIndex(page) < |files|;
  }

  /** Pages 1 to `k`, one after the other. */
  function Pages<T>(files: seq<T>, k: nat): seq<T> {
    if k == 0 then [] else Pages(files, k - 1) + PageItems(files, k)
  }

  /** The first `k` pages are the first `10 * k` names (or all of them). */
  lemma {:induction false} PagesArePrefix<T>(files: seq<T>, k: nat)
    ensures Pages(files, k) == files[..Min(k * ItemsPerPage, |files|)]
  {
    if k > 0 {
      PagesArePrefix(files, k - 1);
      var lo := Min((k - 1) * ItemsPerPage, |files|);
      var hi := Min(k * ItemsPerPage, |files|);
      assert PageItems(files, k) == files[lo..hi];
      assert files[..lo] + files[lo..hi] == files[..hi];
    }
  }

  /** The start index of a page within the list is the number of names on the earlier pages. */
  lemma StartIndexCountsEarlierPages<T>(files: seq<T>, page: PageNumber)
    requires StartIndex(page) <= |files|
    ensures |Pages(files, page - 1)| == StartIndex(page)
  {
    PagesArePrefix(files, page - 1);
  }

  /** The pages 1 through the page count, concatenated, give back the whole list. */
  lemma PagesPartitionList<T>(files: seq<T>)
    ensures Pages(files, PageCount(|files|)) == files
  {
    PagesArePrefix(files, PageCount(|files|));
  }

  /** Name `i` is shown on page `i / 10 + 1`, at position `i % 10`, and that page exists. */
  lemma PageOfIndex<T>(files: seq<T>, i: nat)
    requires i < |files|
    ensures i / ItemsPerPage + 1 <= PageCount(|files|)
    ensures var page := i / ItemsPerPage + 1;
            i % ItemsPerPage < |PageItems(files, page)| && PageItems(files, page)[i % ItemsPerPage] == files[i]
  {
    var page: PageNumber := i / ItemsPerPage + 1;
    assert StartIndex(page) + i % ItemsPerPage == i;
  }
}
