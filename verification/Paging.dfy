/** The pages of `DataView`: which page number `setPagingOptions` and a refresh settle on, and what it shows. */
module Paging {
  import opened Wrappers
  import opened SlickCore

  /** `pagenum`, a number that can become `NaN`. */
  datatype Page = NaN | At(n: int)

  /** Where `slice` starts or ends, for any whole number. */
  function SliceAt(k: int, length: nat): (at: nat)
    ensures at <= length
  {
    if k < 0 then (if length + k < 0 then 0 else length + k) else if k <= length then k else length
  }

  function Slice(items: seq<Item>, from: int, to: int): seq<Item> {
    var lo, hi := SliceAt(from, |items|), SliceAt(to, |items|);
    if lo <= hi then items[lo..hi] else []
  }

  /** The part of the items that a page shows; without a page size all of them. */
  function PageOf(items: seq<Item>, size: nat, page: Page): seq<Item> {
    if size == 0 then items
    else match page
      case NaN => []
      case At(n) => Slice(items, size * n, size * n + size)
  }

  /** The page a refresh shows: the one wanted, or the last that does not lie behind the end. */
  function PageNumber(wanted: Page, size: nat, total: nat): Page {
    if size > 0 && wanted.At? && total < wanted.n * size then At(total / size) else wanted
  }

  /** `Math.max(0, Math.ceil(total / size) - 1)` */
  function LastPage(size: nat, total: nat): (n: nat)
    requires size > 0
  {
    if total == 0 then 0 else (total + size - 1) / size - 1
  }

  function AtMost(page: Page, n: int): Page {
    if page.At? && page.n > n then At(n) else page
  }

  /** `setPagingOptions` up to its refresh: the size and the page wanted. */
  function Options(size: nat, page: Page, total: nat, pageSize: Option<nat>, pageNum: Option<int>): (nat, Page) {
    var size' := if pageSize.Some? then pageSize.value else size;
    var page' := if pageSize.None? then page else if size' == 0 then At(0) else AtMost(page, LastPage(size', total));
    var page'' := if pageNum.None? then page'
                  else if size' == 0 then (if total == 0 then NaN else At(pageNum.value))
                  else AtMost(At(pageNum.value), LastPage(size', total));
    (size', page'')
  }

  lemma LastPageFits(size: nat, total: nat)
    requires size > 0
    ensures total > 0 ==> LastPage(size, total) * size < total <= (LastPage(size, total) + 1) * size
    ensures total / size * size <= total < (total / size + 1) * size
  {
    var n := total + size - 1;
    assert n == n / size * size + n % size;
    assert total == total / size * size + total % size;
    if total > 0 {
      assert LastPage(size, total) + 1 == n / size;
      Multiply(n / size, size);
    }
  }

  lemma Multiply(k: int, size: int)
    ensures (k - 1) * size == k * size - size && (k + 1) * size == k * size + size
  {
  }

  /** Options given for a page size leave the page within the rows counted last, if it was a page at all. */
  lemma OptionsFit(size: nat, page: Page, total: nat, pageSize: Option<nat>, pageNum: Option<int>)
    ensures var (size', page') := Options(size, page, total, pageSize, pageNum);
            && (size' > 0 && total > 0 && page'.At? && (pageSize.Some? || pageNum.Some?) ==> page'.n * size' < total)
            && (page'.NaN? <==>
                  if pageNum.Some? then size' == 0 && total == 0 else page.NaN? && !(pageSize.Some? && size' == 0))
  {
    var (size', page') := Options(size, page, total, pageSize, pageNum);
    if size' > 0 && total > 0 && page'.At? && (pageSize.Some? || pageNum.Some?) {
      LastPageFits(size', total);
      Smaller(page'.n, LastPage(size', total), size');
    }
  }

  lemma Smaller(a: int, b: int, size: nat)
    requires a <= b
    ensures a * size <= b * size
  {
  }

  /**
   A page asked for that begins within the rows counted last is taken, a later one becomes the
   last; without any rows that is the first, and negative pages are taken. A new page size asks
   for the page there was, or for the first if there is to be no paging.
   */
  lemma OptionsExact(size: nat, page: Page, total: nat, pageSize: Option<nat>, pageNum: Option<int>)
    ensures var (size', page') := Options(size, page, total, pageSize, pageNum);
            var asked := if pageNum.Some? then At(pageNum.value) else page;
            && size' == (if pageSize.Some? then pageSize.value else size)
            && (pageSize.None? && pageNum.None? ==> page' == page)
            && (size' == 0 && pageSize.Some? && pageNum.None? ==> page' == At(0))
            && (size' == 0 && total > 0 && pageNum.Some? ==> page' == asked)
            && (size' > 0 && asked.At? && asked.n * size' < total ==> page' == asked)
            && (size' > 0 && asked.At? && asked.n * size' >= total > 0 && (pageSize.Some? || pageNum.Some?) ==>
                  page'.At? && page'.n * size' < total <= (page'.n + 1) * size')
            && (size' > 0 && asked.At? && total == 0 && (pageSize.Some? || pageNum.Some?) ==>
                  page' == At(if asked.n < 0 then asked.n else 0))
  {
    var (size', page') := Options(size, page, total, pageSize, pageNum);
    var asked := if pageNum.Some? then At(pageNum.value) else page;
    if size' > 0 && asked.At? {
      LastPageFits(size', total);
      Beyond(asked.n, LastPage(size', total), size', total);
    }
  }

  lemma Beyond(n: int, last: nat, size: nat, total: nat)
    requires size > 0 && total > 0 ==> last * size < total <= (last + 1) * size
    ensures size > 0 && total > 0 ==> (n * size < total <==> n <= last)
  {
    if size > 0 && total > 0 {
      if n <= last { Smaller(n, last, size); } else { Smaller(last + 1, n, size); }
    }
  }

  /** A refresh never shows a page behind the end, and leaves a page alone that is not. */
  lemma PageNumberFits(wanted: Page, size: nat, total: nat)
    ensures var page := PageNumber(wanted, size, total);
            && (size > 0 && page.At? ==> page.n * size <= total)
            && (page != wanted <==> size > 0 && wanted.At? && total < wanted.n * size)
            && PageNumber(page, size, total) == page
  {
    if size > 0 {
      LastPageFits(size, total);
    }
  }

  /** ... and a page that lies behind the end gives way to the last that does not. */
  lemma PageNumberLast(wanted: int, size: nat, total: nat)
    requires size > 0 && total < wanted * size
    ensures var page := PageNumber(At(wanted), size, total);
            page.At? && 0 <= page.n && page.n * size <= total < (page.n + 1) * size
  {
    LastPageFits(size, total);
    Quotient(total, size);
  }

  lemma Quotient(total: nat, size: nat)
    requires size > 0
    ensures total / size >= 0
  {
  }

  lemma PageMembers(items: seq<Item>, size: nat, page: Page, x: Item)
    ensures x in PageOf(items, size, page) ==> x in items
  {
  }

  /** A page from the start of the list: the items at its positions, as many as there are. */
  lemma PageShows(items: seq<Item>, size: nat, n: nat)
    requires size > 0
    ensures var lo := size * n;
            var shown := PageOf(items, size, At(n));
            && |shown| == (if |items| <= lo then 0 else if |items| - lo < size then |items| - lo else size)
            && forall i :: 0 <= i < |shown| ==> shown[i] == items[lo + i]
  {
    assert size * n >= 0;
  }

  /** A negative page is counted from the end, one page too far; the last page before the first is empty. */
  lemma PageBeforeFirst(items: seq<Item>, size: nat, n: int)
    requires size > 0 && n < 0
    ensures var lo, hi := |items| + size * n, |items| + size * n + size;
            var shown := PageOf(items, size, At(n));
            && (n == -1 || hi <= 0 ==> shown == [])
            && (n < -1 && hi > 0 ==> 0 < hi <= |items| && shown == items[(if lo < 0 then 0 else lo)..hi])
  {
    Behind(size, n);
    PageSlice(items, size, n, size * n, size * n + size);
  }

  lemma Behind(size: nat, n: int)
    requires size > 0 && n < 0
    ensures size * n < 0 && (if n == -1 then size * n + size == 0 else size * n + size < 0)
  {
    if n < -1 {
      Multiply(n + 1, size);
      Smaller(n + 1, -1, size);
    }
  }

  lemma PageSlice(items: seq<Item>, size: nat, n: int, from: int, to: int)
    requires size > 0 && from == size * n && to == size * n + size
    ensures PageOf(items, size, At(n)) == Slice(items, from, to)
  {
  }

  /** Once the page is `NaN` no page size brings it back, and no page shows anything. */
  lemma LostPage(items: seq<Item>, size: nat, total: nat, pageSize: nat)
    requires pageSize > 0
    ensures Options(size, NaN, total, Some(pageSize), None) == (pageSize, NaN)
    ensures PageNumber(NaN, pageSize, |items|) == NaN && PageOf(items, pageSize, NaN) == []
  {
  }
}
