/**
 * The task page's pagination control (js/pages/tareas.js, `renderPagination`
 * and `handlePaginationClick`): a previous link, a window of up to five page
 * links around the current page, a next link, and the click rule that turns a
 * link's `data-page` text back into a page to load.
 */
module TareasPagination {
  import opened JsSemantics

  /** Which kind of link an item is. */
  datatype LinkKind = Prev | Number | Next

  /** One `<li class="page-item">` with its `data-page` target and its CSS state. */
  datatype PageItem = PageItem(target: int, kind: LinkKind, active: bool, disabled: bool)

  /** First page of the window: `Math.max(1, page - 2)`. */
  function WindowStart(page: int): int { Max(1, page - 2) }

  /** Last page of the window: `Math.min(pages, page + 2)`. */
  function WindowEnd(page: int, pages: int): int { Min(pages, page + 2) }

  /** How many numbered links the window holds (the loop runs from start to end inclusive). */
  function WindowSize(page: int, pages: int): nat
  {
    if WindowStart(page) <= WindowEnd(page, pages) then WindowEnd(page, pages) - WindowStart(page) + 1 else 0
  }

  function PrevItem(page: int): PageItem
  {
    PageItem(Max(1, page - 1), Prev, false, page <= 1)
  }

  function NextItem(page: int, pages: int): PageItem
  {
    PageItem(Min(pages, page + 1), Next, false, page >= pages)
  }

  function WindowItem(page: int, p: int): PageItem
  {
    PageItem(p, Number, p == page, false)
  }

  /** The whole control, in the order the items are appended. */
  function PaginationItems(page: int, pages: int): (r: seq<PageItem>)
    ensures |r| == WindowSize(page, pages) + 2
  {
    [PrevItem(page)]
    + seq(WindowSize(page, pages), i => WindowItem(page, WindowStart(page) + i))
    + [NextItem(page, pages)]
  }

  /** `renderPagination(page, pages)`: builds the list item by item, as the loop appends them. */
  method RenderPagination(page: int, pages: int) returns (items: seq<PageItem>)
    ensures items == PaginationItems(page, pages)
  {
    items := [PageItem(Max(1, page - 1), Prev, false, page <= 1)];
    var start := Max(1, page - 2);
    var end := Min(pages, page + 2);
    var p := start;
    while p <= end
      invariant start <= p <= Max(start, end + 1)
      invariant items == [PrevItem(page)] + seq(p - start, i => WindowItem(page, start + i))
    {
      ghost var done := seq(p - start, i => WindowItem(page, start + i));
      items := items + [PageItem(p, Number, p == page, false)];
      p := p + 1;
      assert seq(p - start, i => WindowItem(page, start + i)) == done + [WindowItem(page, p - 1)];
    }
    assert p - start == WindowSize(page, pages);
    items := items + [PageItem(Min(pages, page + 1), Next, false, page >= pages)];
  }

  /** Where each item of the control sits. */
  lemma ItemAt(page: int, pages: int, i: int)
    requires 0 <= i < WindowSize(page, pages) + 2
    ensures var items := PaginationItems(page, pages);
      (i == 0 ==> items[i] == PrevItem(page)) &&
      (0 < i <= WindowSize(page, pages) ==> items[i] == WindowItem(page, WindowStart(page) + i - 1)) &&
      (i == WindowSize(page, pages) + 1 ==> items[i] == NextItem(page, pages))
  {
    var w := seq(WindowSize(page, pages), j => WindowItem(page, WindowStart(page) + j));
    var items := PaginationItems(page, pages);
    assert items == [PrevItem(page)] + w + [NextItem(page, pages)];
    if 0 < i <= WindowSize(page, pages) {
      assert items[i] == w[i - 1];
    }
  }

  /**
   * The numbered links: at most five, consecutive and ascending from
   * `max(1, page - 2)`, each within [1, pages], each inactive unless it is the
   * current page.
   */
  lemma WindowShape(page: int, pages: int)
    ensures WindowSize(page, pages) <= 5
    ensures forall i :: 1 <= i <= WindowSize(page, pages) ==>
      var it := PaginationItems(page, pages)[i];
      it.kind == Number && !it.disabled &&
      it.target == WindowStart(page) + i - 1 &&
      1 <= it.target <= pages &&
      (it.active <==> it.target == page)
  {
    forall i | 1 <= i <= WindowSize(page, pages) {
      ItemAt(page, pages, i);
    }
  }

  /** The window is empty exactly when there is no page, or the current page lies more than two pages outside [1, pages]. */
  lemma WindowEmptyIff(page: int, pages: int)
    ensures WindowSize(page, pages) == 0 <==> pages < 1 || page > pages + 2 || page < -1
  {
  }

  /** Exactly one link is active when the current page is a real page, and none otherwise. */
  lemma ExactlyOneActive(page: int, pages: int)
    ensures 1 <= page <= pages ==>
      var items := PaginationItems(page, pages);
      var k := page - WindowStart(page) + 1;
      0 < k < |items| - 1 && items[k].active && items[k].target == page &&
      forall j :: 0 <= j < |items| && items[j].active ==> j == k
    ensures !(1 <= page <= pages) ==>
      forall j :: 0 <= j < |PaginationItems(page, pages)| ==> !PaginationItems(page, pages)[j].active
  {
    forall j | 0 <= j < WindowSize(page, pages) + 2 {
      ItemAt(page, pages, j);
    }
  }

  /** The previous and next links are always present; each is disabled exactly at its boundary. */
  lemma PrevNextLinks(page: int, pages: int)
    ensures var items := PaginationItems(page, pages);
      items[0].kind == Prev && items[0].target == Max(1, page - 1) && (items[0].disabled <==> page <= 1) &&
      items[|items| - 1].kind == Next && items[|items| - 1].target == Min(pages, page + 1) &&
      (items[|items| - 1].disabled <==> page >= pages)
  {
    ItemAt(page, pages, 0);
    ItemAt(page, pages, WindowSize(page, pages) + 1);
  }

  /**
   * Nothing keeps the current page in range: past the last page by more than
   * one, the previous link is enabled and still targets a page past the last
   * (for page 3 of 1 it targets page 2).
   */
  lemma PrevLinkPastLastPage(page: int, pages: int)
    requires 1 <= pages && page > pages + 1
    ensures var prev := PaginationItems(page, pages)[0];
      prev.kind == Prev && !prev.disabled && prev.target == page - 1 && prev.target > pages
    ensures PaginationItems(3, 1)[0] == PageItem(2, Prev, false, false)
  {
    ItemAt(page, pages, 0);
    ItemAt(3, 1, 0);
  }

  /** When the current page is a real page, every link of the control targets a real page. */
  lemma TargetsInRange(page: int, pages: int)
    requires 1 <= page <= pages
    ensures forall it :: it in PaginationItems(page, pages) ==> 1 <= it.target <= pages
  {
    var items := PaginationItems(page, pages);
    forall it | it in items ensures 1 <= it.target <= pages {
      var j :| 0 <= j < |items| && items[j] == it;
      ItemAt(page, pages, j);
    }
  }

  /**
   * `handlePaginationClick`: a click outside an `a[data-page]` link (`None`) or
   * on a link whose `data-page` is not a number dispatches nothing; anything
   * else loads the parsed page, with no range check.
   */
  function ClickTarget(dataPage: Option<string>): (r: Option<int>)
    ensures dataPage.None? ==> r.None?
    ensures dataPage.Some? && ParseInt(dataPage.value).None? ==> r.None?
    ensures dataPage.Some? && ParseInt(dataPage.value).Some? ==> r == ParseInt(dataPage.value)
  {
    if dataPage.None? then None else ParseInt(dataPage.value)
  }

  /** Clicking any rendered link (whose `data-page` is `${target}`) loads exactly its target. */
  lemma ClickLoadsRenderedTarget(page: int, pages: int, it: PageItem)
    requires it in PaginationItems(page, pages)
    ensures ClickTarget(Some(IntToString(it.target))) == Some(it.target)
  {
    ParseIntRoundTrip(it.target);
  }
}
