/** Console pagination metadata and the walk along next_offset. */
module Pagination {
  import opened PyValues

  datatype Page = Page(offset: int, limit: int, total: int, pages: int, current: int,
                       hasPrev: bool, hasNext: bool, prevOffset: int, nextOffset: int)

  /** Python's `//`. */
  function FloorDiv(a: int, b: int): int
    requires b != 0
  {
    if b > 0 then a / b else (-a) / (-b)
  }

  /** It floors: the remainder has the sign of the divisor. */
  lemma FloorDivFloors(a: int, b: int)
    requires b != 0
    ensures b > 0 ==> FloorDiv(a, b) * b <= a < FloorDiv(a, b) * b + b
    ensures b < 0 ==> FloorDiv(a, b) * b + b < a <= FloorDiv(a, b) * b
  {
    if b > 0 {
      QuotientBounds(a, b);
    } else {
      QuotientBounds(-a, -b);
      assert ((-a) / (-b)) * (-b) == -(((-a) / (-b)) * b);
    }
  }

  /** `_paginate`; None is the ZeroDivisionError for a zero limit. */
  function Paginate(offset: int, limit: int, total: int): Option<Page> {
    if total > 0 && limit == 0 then None else
      var pages := if total > 0 then Max(1, FloorDiv(total + limit - 1, limit)) else 1;
      var current := if total > 0 then Low(FloorDiv(offset, limit) + 1, pages) else 1;
      Some(Page(offset, limit, total, pages, current, offset > 0, offset + limit < total,
                Max(0, offset - limit), offset + limit))
  }

  function Max(a: int, b: int): int { if a < b then b else a }
  function Low(a: int, b: int): int { if a < b then a else b }

  /** The pages seen from an offset on, following next_offset while has_next. */
  function Walk(offset: int, limit: int, total: int): seq<Page>
    requires limit >= 1
    decreases total - offset
  {
    var page := Paginate(offset, limit, total).value;
    [page] + if page.hasNext then Walk(page.nextOffset, limit, total) else []
  }

  lemma QuotientBounds(a: int, b: int)
    requires b >= 1
    ensures (a / b) * b <= a < (a / b) * b + b
  {}

  lemma Cancel(p: int, q: int, b: int)
    requires b >= 1 && p * b < q * b + b
    ensures p <= q
  {
    if p > q {
      Scale(q + 1, p, b);
    }
  }

  lemma Scale(p: int, q: int, b: int)
    requires p <= q && b >= 0
    ensures p * b <= q * b
  {}

  /** A quotient is pinned by its bounds. */
  lemma QuotientIs(a: int, b: int, q: int)
    requires b >= 1 && q * b <= a < q * b + b
    ensures a / b == q
  {
    QuotientBounds(a, b);
    Cancel(a / b, q, b);
    Cancel(q, a / b, b);
  }

  /** The page count of a listing. */
  function PageCount(limit: int, total: int): int
    requires limit >= 1
  {
    if total > 0 then (total + limit - 1) / limit else 1
  }

  /** pages is the least positive number of windows that covers the listing. */
  lemma PageCountCovers(limit: int, total: int)
    requires limit >= 1
    ensures PageCount(limit, total) >= 1
    ensures PageCount(limit, total) * limit >= total
    ensures total > 0 ==> (PageCount(limit, total) - 1) * limit < total
  {
    if total > 0 {
      var q := PageCount(limit, total);
      QuotientBounds(total + limit - 1, limit);
      assert (q - 1) * limit == q * limit - limit;
      Cancel(1, q, limit);
    }
  }

  /** The k-th page of an aligned walk. */
  lemma AlignedPage(k: int, limit: int, total: int)
    requires limit >= 1 && 0 <= k < PageCount(limit, total)
    ensures var page := Paginate(k * limit, limit, total).value;
            && page.pages == PageCount(limit, total) && page.current == k + 1
            && (page.hasNext <==> k + 1 < PageCount(limit, total))
            && page.nextOffset == (k + 1) * limit
            && (page.hasPrev <==> k > 0)
            && page.prevOffset == (if k == 0 then 0 else (k - 1) * limit)
  {
    var q := PageCount(limit, total);
    PageCountCovers(limit, total);
    QuotientIs(k * limit, limit, k);
    assert (k + 1) * limit == k * limit + limit && (k - 1) * limit == k * limit - limit;
    if k > 0 {
      Scale(1, k, limit);
    }
    if k + 1 < q {
      Scale(k + 1, q - 1, limit);
    }
  }

  /** The page with index j, the first being 0, and the walk from there. */
  function PageAt(j: int, limit: int, total: int): Option<Page> {
    Paginate(j * limit, limit, total)
  }

  function WalkAt(k: int, limit: int, total: int): seq<Page>
    requires limit >= 1
  {
    Walk(k * limit, limit, total)
  }

  lemma WalkStep(k: int, limit: int, total: int)
    requires limit >= 1 && 0 <= k < PageCount(limit, total)
    ensures PageAt(k, limit, total).Some?
    ensures WalkAt(k, limit, total) == [PageAt(k, limit, total).value] +
              if k + 1 < PageCount(limit, total) then WalkAt(k + 1, limit, total) else []
  {
    AlignedPage(k, limit, total);
  }

  /** From page k on, the walk visits exactly the remaining pages in turn. */
  lemma {:induction false} WalkFrom(k: int, limit: int, total: int, pages: int)
    requires limit >= 1 && pages == PageCount(limit, total) && 0 <= k < pages
    ensures |WalkAt(k, limit, total)| == pages - k
    ensures forall j :: k <= j < pages ==> PageAt(j, limit, total) == Some(WalkAt(k, limit, total)[j - k])
    decreases pages - k
  {
    WalkStep(k, limit, total);
    if k + 1 < pages {
      WalkFrom(k + 1, limit, total, pages);
    }
  }

  /** An item lies in a page's window. */
  predicate Shows(page: Page, x: int) {
    page.offset <= x < page.offset + page.limit
  }

  /** The index of the page whose window holds an item. */
  function PageOf(x: nat, limit: int): nat
    requires limit >= 1
  {
    x / limit
  }

  /** Following next_offset from the start ends after exactly `pages` pages, numbered 1, 2, ..., each
      of whose prev_offset leads back to the page before it; and every item of the listing is shown by
      one page and no other. */
  lemma WalkVisitsEverythingOnce(limit: int, total: int)
    requires limit >= 1
    ensures var walk := Walk(0, limit, total);
            && |walk| == PageCount(limit, total)
            && (forall k :: 0 <= k < |walk| ==> walk[k].current == k + 1 && walk[k].pages == |walk|)
            && (forall k :: 0 < k < |walk| ==> walk[k].hasPrev && walk[k].prevOffset == walk[k - 1].offset)
            && !walk[0].hasPrev
            && (forall x: nat :: x < total ==> PageOf(x, limit) < |walk| && Shows(walk[PageOf(x, limit)], x))
            && (forall x: nat, k :: x < total && 0 <= k < |walk| && Shows(walk[k], x) ==> k == PageOf(x, limit))
  {
    PageCountCovers(limit, total);
    assert 0 * limit == 0;
    WalkFrom(0, limit, total, PageCount(limit, total));
    var walk := Walk(0, limit, total);
    assert WalkAt(0, limit, total) == walk;
    forall k | 0 <= k < |walk|
      ensures walk[k].offset == k * limit && walk[k].limit == limit
      ensures walk[k].current == k + 1 && walk[k].pages == |walk| && (walk[k].hasPrev <==> k > 0)
      ensures k > 0 ==> walk[k].prevOffset == (k - 1) * limit
    {
      assert PageAt(k, limit, total) == Some(walk[k - 0]);
      AlignedPage(k, limit, total);
    }
    forall x: nat | x < total ensures PageOf(x, limit) < |walk| && Shows(walk[PageOf(x, limit)], x) {
      ItemPage(x, limit, total);
    }
    forall x: nat, k | x < total && 0 <= k < |walk| && Shows(walk[k], x) ensures k == PageOf(x, limit) {
      QuotientIs(x, limit, k);
    }
  }

  lemma ItemPage(x: int, limit: int, total: int)
    requires limit >= 1 && 0 <= x < total
    ensures 0 <= x / limit < PageCount(limit, total)
    ensures (x / limit) * limit <= x < (x / limit) * limit + limit
  {
    QuotientBounds(x, limit);
    PageCountCovers(limit, total);
    Cancel(0, x / limit, limit);
    var q := PageCount(limit, total);
    assert (q - 1) * limit == q * limit - limit;
    Cancel(x / limit, q - 1, limit);
  }

  /** The current page number stays in range for any offset, even past the end, and inside the listing
      it is the number of the page the offset falls in. */
  lemma CurrentInRange(offset: int, limit: int, total: int)
    requires offset >= 0 && limit >= 1
    ensures var page := Paginate(offset, limit, total).value;
            && 1 <= page.current <= page.pages && page.pages == PageCount(limit, total)
            && (offset < total ==> (page.current - 1) * limit <= offset < page.current * limit)
  {
    PageCountCovers(limit, total);
    QuotientBounds(offset, limit);
    Cancel(0, offset / limit, limit);
    if offset < total {
      ItemPage(offset, limit, total);
      assert Paginate(offset, limit, total).value.current == offset / limit + 1;
      assert (offset / limit + 1) * limit == (offset / limit) * limit + limit;
    }
  }

  /** What holds of any page, whatever the limit: it fails only for a zero limit on a listing that is not
      empty, and it says truly what lies before and after. */
  lemma AnyPage(offset: int, limit: int, total: int)
    ensures Paginate(offset, limit, total).None? <==> total > 0 && limit == 0
    ensures Paginate(offset, limit, total).Some? ==>
              var page := Paginate(offset, limit, total).value;
              && page.offset == offset && page.limit == limit && page.total == total && page.pages >= 1
              && page.nextOffset - offset == limit && (page.hasNext <==> page.nextOffset < total)
              && (page.hasPrev <==> 0 < offset) && page.prevOffset >= 0
              && (page.prevOffset > 0 ==> offset - page.prevOffset == limit) && page.prevOffset + limit >= offset
              && (total <= 0 ==> page.pages == 1 && page.current == 1)
              && page.current <= page.pages
  {}

  /** One step forward and one back returns to any offset, aligned or not. */
  lemma PrevUndoesNext(offset: int, limit: int, total: int)
    requires offset >= 0 && limit >= 1
    ensures var page := Paginate(offset, limit, total).value;
            Paginate(page.nextOffset, limit, total).value.prevOffset == offset
  {}
}
