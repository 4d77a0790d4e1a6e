/**
 * Pagination of the filtered list: `Math.ceil(n / itemsPerPage)` pages, and
 * page `p` is `list.slice((p - 1) * itemsPerPage, p * itemsPerPage)`.
 */
module Pagination {

  const ITEMS_PER_PAGE: nat := 6

  function Min(a: int, b: int): int { if a <= b then a else b }

  function Max(a: int, b: int): int { if a >= b then a else b }

  /** `Math.ceil(n / ITEMS_PER_PAGE)`: the fewest pages that hold `n` items. */
  function TotalPages(n: nat): (t: nat)
    ensures n <= t * ITEMS_PER_PAGE < n + ITEMS_PER_PAGE
  {
    (n + ITEMS_PER_PAGE - 1) / ITEMS_PER_PAGE
  }

  /**
   * How `Array.prototype.slice` reads a bound: a negative bound counts from
   * the end, and the result is clamped to `[0, len]`.
   */
  function SliceBound(i: int, len: nat): (k: nat)
    ensures k <= len
    ensures 0 <= i <= len ==> k == i
    ensures i > len ==> k == len
    ensures i < 0 ==> k == Max(0, len + i)
  {
    if i < 0 then (if len + i < 0 then 0 else len + i)
    else if i > len then len
    else i
  }

  /** `s.slice(start, end)`; empty when the clamped end does not exceed the clamped start. */
  function Slice<T>(s: seq<T>, start: int, end: int): (r: seq<T>)
    ensures |r| == Max(0, SliceBound(end, |s|) - SliceBound(start, |s|))
    ensures forall i :: 0 <= i < |r| ==> r[i] == s[SliceBound(start, |s|) + i]
  {
    var b := SliceBound(start, |s|);
    var e := SliceBound(end, |s|);
    if b < e then s[b..e] else []
  }

  /** `paginatedEvents` for the 1-based page number `page`. */
  function Page<T>(s: seq<T>, page: int): seq<T>
  {
    Slice(s, (page - 1) * ITEMS_PER_PAGE, page * ITEMS_PER_PAGE)
  }

  /** The page bar is rendered only when `totalPages > 1`. */
  predicate ShowsPageBar(n: nat) {
    TotalPages(n) > 1
  }

  /**
   * For a page number of at least 1, the page is the run of at most six
   * items starting at `(page - 1) * 6`, cut short by the end of the list.
   */
  lemma PageIsWindow<T>(s: seq<T>, page: int)
    requires page >= 1
    ensures |Page(s, page)| == Min(ITEMS_PER_PAGE, Max(0, |s| - (page - 1) * ITEMS_PER_PAGE))
    ensures forall k :: 0 <= k < |Page(s, page)| ==> Page(s, page)[k] == s[(page - 1) * ITEMS_PER_PAGE + k]
  {
  }

  /** A page holds at most six items. */
  lemma PageAtMostSix<T>(s: seq<T>, page: int)
    ensures |Page(s, page)| <= ITEMS_PER_PAGE
  {
  }

  /** Every page from `TotalPages + 1` on is empty. */
  lemma PageBeyondLastIsEmpty<T>(s: seq<T>, page: int)
    requires page > TotalPages(|s|)
    ensures Page(s, page) == []
  {
  }

  /** Every page from 1 to `TotalPages` holds at least one item. */
  lemma PageInRangeIsNonEmpty<T>(s: seq<T>, page: int)
    requires 1 <= page <= TotalPages(|s|)
    ensures Page(s, page) != []
  {
  }

  /** Pages `1..k` laid end to end. */
  function PagesUpTo<T>(s: seq<T>, k: nat): seq<T>
  {
    if k == 0 then [] else PagesUpTo(s, k - 1) + Page(s, k)
  }

  /** Pages `1..k` laid end to end are the first `min(6k, |s|)` items. */
  lemma {:induction false} PagesUpToIsPrefix<T>(s: seq<T>, k: nat)
    ensures PagesUpTo(s, k) == s[..Min(k * ITEMS_PER_PAGE, |s|)]
  {
    if k > 0 {
      PagesUpToIsPrefix(s, k - 1);
      var lo := Min((k - 1) * ITEMS_PER_PAGE, |s|);
      var hi := Min(k * ITEMS_PER_PAGE, |s|);
      assert Page(s, k) == s[lo..hi];
      assert s[..lo] + s[lo..hi] == s[..hi];
    }
  }

  /** Pages `1..TotalPages` laid end to end give back the whole list. */
  lemma AllPagesRebuildList<T>(s: seq<T>)
    ensures PagesUpTo(s, TotalPages(|s|)) == s
  {
    PagesUpToIsPrefix(s, TotalPages(|s|));
    assert s[..|s|] == s;
  }

  /** The page bar appears exactly when there are more than six items. */
  lemma PageBarIffMoreThanOnePage(n: nat)
    ensures ShowsPageBar(n) <==> n > ITEMS_PER_PAGE
  {
  }
}
