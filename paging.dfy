/**
 * Django's `Paginator(object_list, per_page)` with `orphans = 0` and
 * `allow_empty_first_page = True`, and its `get_page(number)`: an integer page
 * number outside 1..num_pages is replaced by the last page.
 */
module Paging {
  import Sorting

  datatype Page<T> = Page(items: seq<T>, number: nat, numPages: nat, hasNext: bool, hasPrevious: bool)

  function Min(a: int, b: int): int { if a <= b then a else b }

  /** `Paginator.num_pages`: at least one page, and exactly enough pages for `count` items. */
  function NumPages(count: nat, perPage: nat): (r: nat)
    requires perPage > 0
    ensures r >= 1
    ensures count <= r * perPage
    ensures count == 0 || (r - 1) * perPage < count
  {
    if count == 0 then 1
    else
      var q := (count + perPage - 1) / perPage;
      var m := (count + perPage - 1) % perPage;
      assert q * perPage + m == count + perPage - 1;
      assert (q - 1) * perPage == q * perPage - perPage;
      q
  }

  lemma MulMonotone(a: nat, b: nat, c: nat)
    requires a <= b
    ensures a * c <= b * c
  {
  }

  /** Every page up to the last starts inside the list. */
  lemma PageStartInRange(count: nat, perPage: nat, number: nat)
    requires perPage > 0 && 1 <= number <= NumPages(count, perPage)
    ensures (number - 1) * perPage <= count
  {
    MulMonotone(number - 1, NumPages(count, perPage) - 1, perPage);
  }

  /** Items of page `number` (1-based): `object_list[bottom:top]`. */
  function PageItems<T>(items: seq<T>, number: nat, perPage: nat): (r: seq<T>)
    requires perPage > 0 && 1 <= number <= NumPages(|items|, perPage)
  {
    PageStartInRange(|items|, perPage, number);
    items[(number - 1) * perPage .. Min(number * perPage, |items|)]
  }

  /** A page holds at most `perPage` items, and none only when the list is empty. */
  lemma PageItemsSize<T>(items: seq<T>, number: nat, perPage: nat)
    requires perPage > 0 && 1 <= number <= NumPages(|items|, perPage)
    ensures |PageItems(items, number, perPage)| <= perPage
    ensures PageItems(items, number, perPage) == [] <==> items == []
  {
    var n := NumPages(|items|, perPage);
    PageStartInRange(|items|, perPage, number);
    assert number * perPage == (number - 1) * perPage + perPage;
    if items != [] {
      MulMonotone(number - 1, n - 1, perPage);
    }
  }

  /** `Paginator.get_page(requested)` for an integer `requested`. */
  function GetPage<T>(items: seq<T>, requested: int, perPage: nat): (p: Page<T>)
    requires perPage > 0
    ensures p.numPages == NumPages(|items|, perPage)
    ensures 1 <= p.number <= p.numPages
    ensures 1 <= requested <= p.numPages ==> p.number == requested
    ensures !(1 <= requested <= p.numPages) ==> p.number == p.numPages
    ensures p.hasPrevious <==> p.number > 1
    ensures p.hasNext <==> p.number < p.numPages
    ensures p.items == PageItems(items, p.number, perPage)
    ensures |p.items| <= perPage
    ensures p.items == [] <==> items == []
  {
    var n := NumPages(|items|, perPage);
    var number := if 1 <= requested <= n then requested else n;
    PageItemsSize(items, number, perPage);
    Page(PageItems(items, number, perPage), number, n, number < n, number > 1)
  }

  /** Everything on a page comes from the list. */
  lemma PageItemsInList<T>(items: seq<T>, number: nat, perPage: nat)
    requires perPage > 0 && 1 <= number <= NumPages(|items|, perPage)
    ensures forall x :: x in PageItems(items, number, perPage) ==> x in items
  {
    PageBounds(|items|, perPage, number);
    var lo, hi := (number - 1) * perPage, Min(number * perPage, |items|);
    forall x | x in PageItems(items, number, perPage)
      ensures x in items
    {
      var i :| 0 <= i < |items[lo..hi]| && items[lo..hi][i] == x;
      assert items[lo + i] == x;
    }
  }

  /** A page of a sorted list is sorted. */
  lemma PageOfSorted(items: seq<nat>, number: nat, perPage: nat, key: nat -> int)
    requires perPage > 0 && 1 <= number <= NumPages(|items|, perPage)
    requires Sorting.SortedBy(items, key)
    ensures Sorting.SortedBy(PageItems(items, number, perPage), key)
  {
    PageBounds(|items|, perPage, number);
    Sorting.SliceSorted(items, (number - 1) * perPage, Min(number * perPage, |items|), key);
  }

  /** Pages 1..k, one after the other. */
  function PagesUpTo<T>(items: seq<T>, perPage: nat, k: nat): seq<T>
    requires perPage > 0 && k <= NumPages(|items|, perPage)
  {
    if k == 0 then [] else PagesUpTo(items, perPage, k - 1) + PageItems(items, k, perPage)
  }

  /** Where page `k` starts and ends, in the terms `PagesUpTo` needs. */
  lemma PageBounds(count: nat, perPage: nat, k: nat)
    requires perPage > 0 && 1 <= k <= NumPages(count, perPage)
    ensures 0 <= (k - 1) * perPage <= count
    ensures Min((k - 1) * perPage, count) == (k - 1) * perPage
    ensures (k - 1) * perPage <= Min(k * perPage, count)
  {
    PageStartInRange(count, perPage, k);
    assert k * perPage == (k - 1) * perPage + perPage;
  }

  lemma {:induction false} PagesUpToPrefix<T>(items: seq<T>, perPage: nat, k: nat)
    requires perPage > 0 && k <= NumPages(|items|, perPage)
    ensures PagesUpTo(items, perPage, k) == items[..Min(k * perPage, |items|)]
  {
    if k > 0 {
      PagesUpToPrefix(items, perPage, k - 1);
      PageBounds(|items|, perPage, k);
      var lo := (k - 1) * perPage;
      var hi := Min(k * perPage, |items|);
      assert PagesUpTo(items, perPage, k - 1) == items[..lo];
      assert PageItems(items, k, perPage) == items[lo..hi];
      assert items[..lo] + items[lo..hi] == items[..hi];
    }
  }

  /** Reading every page in order gives back the whole list, each item once. */
  lemma PagesCoverList<T>(items: seq<T>, perPage: nat)
    requires perPage > 0
    ensures PagesUpTo(items, perPage, NumPages(|items|, perPage)) == items
  {
    PagesUpToPrefix(items, perPage, NumPages(|items|, perPage));
    assert items[..|items|] == items;
  }
}
