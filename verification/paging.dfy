/** Limit/offset paging: the clamps, has_more of the API and the page links of the web UI. */
module Paging {
  const MAX_INT := 0x7fff_ffff_ffff_ffff
  const WORD64 := 0x1_0000_0000_0000_0000
  const DEFAULT_LIMIT := 50
  const MAX_LIMIT := 500

  // PageOpts.validated, and pageParams, which repeats it.
  function ValidLimit(limit: int): (l: int)
    ensures 1 <= l <= MAX_LIMIT
    ensures 1 <= limit <= 500 ==> l == limit
    ensures limit <= 0 ==> l == 50
    ensures limit > 500 ==> l == 500
  {
    if limit <= 0 then DEFAULT_LIMIT else if limit > MAX_LIMIT then MAX_LIMIT else limit
  }

  function ValidOffset(offset: int): (o: nat)
    ensures offset >= 0 ==> o == offset
  {
    if offset < 0 then 0 else offset
  }

  // The result of a signed 64-bit addition or multiplication.
  function Wrap(x: int): (w: int)
    ensures -MAX_INT - 1 <= w <= MAX_INT
    ensures -MAX_INT - 1 <= x <= MAX_INT ==> w == x
  {
    var w := x % WORD64;
    if w > MAX_INT then w - WORD64 else w
  }

  predicate HasMore(offset: int, limit: int, total: int) {
    Wrap(offset + limit) < total
  }

  // SELECT … LIMIT limit OFFSET offset.
  function Slice<T>(rows: seq<T>, offset: nat, limit: nat): (page: seq<T>)
    ensures |page| <= limit
    ensures forall i | 0 <= i < |page| :: offset + i < |rows| && page[i] == rows[offset + i]
    ensures |page| < limit ==> offset + |page| >= |rows|
  {
    if offset >= |rows| then []
    else if offset + limit >= |rows| then rows[offset..]
    else rows[offset..offset + limit]
  }

  /** has_more tells the truth, that rows follow this page, exactly when the sum does not overflow.
      The offset comes from a query parameter whose range error is ignored, so 2^63 - 1 is possible;
      then the answer is yes after the last row. */
  lemma HasMoreIsRightExactlyWithoutOverflow<T>(rows: seq<T>, offset: nat, limit: int)
    requires |rows| <= MAX_INT && offset <= MAX_INT && 1 <= limit <= MAX_LIMIT
    ensures (HasMore(offset, limit, |rows|) <==> offset + limit < |rows|) <==> offset + limit <= MAX_INT
  {
  }

  lemma HasMoreWithinRange(offset: nat, limit: nat, total: nat)
    requires offset + limit <= MAX_INT
    ensures HasMore(offset, limit, total) <==> offset + limit < total
  {
  }

  // The offset after k pages.
  function Pages(k: nat, limit: nat): nat {
    if k == 0 then 0 else Pages(k - 1, limit) + limit
  }

  lemma {:induction false} PagesIsProduct(k: nat, limit: nat)
    ensures Pages(k, limit) == k * limit
  {
    if k > 0 {
      PagesIsProduct(k - 1, limit);
    }
  }

  // k pages are enough and k - 1 are not.
  lemma PagesNeeded(total: nat, limit: nat, k: nat)
    requires limit > 0 && k > 0 && Pages(k, limit) >= total && (total > 0 ==> Pages(k - 1, limit) < total)
    requires total == 0 ==> k == 1
    ensures k == Requests(total, limit)
  {
    PagesIsProduct(k, limit);
    PagesIsProduct(k - 1, limit);
    if total > 0 {
      CeilDivBounds(total, limit, k);
    }
  }

  function CeilDiv(a: nat, b: nat): nat
    requires b > 0
  {
    (a + b - 1) / b
  }

  function Requests(total: nat, limit: nat): nat
    requires limit > 0
  {
    if total == 0 then 1 else CeilDiv(total, limit)
  }

  lemma CeilDivBounds(a: nat, b: nat, k: nat)
    requires b > 0 && (k - 1) * b < a <= k * b && k > 0
    ensures CeilDiv(a, b) == k
  {
    assert a + b - 1 == k * b + (a - 1 - (k - 1) * b);
    var r := a - 1 - (k - 1) * b;
    assert 0 <= r < b;
    DivUnique(k, b, r);
  }

  lemma DivUnique(k: nat, b: nat, r: nat)
    requires r < b
    ensures (k * b + r) / b == k
  {
    var q := (k * b + r) / b;
    assert k * b + r == q * b + (k * b + r) % b;
    assert q < k ==> (q + 1) * b <= k * b;
    assert q > k ==> (k + 1) * b <= q * b;
  }

  lemma SliceExtends<T>(rows: seq<T>, offset: nat, limit: nat)
    requires offset <= |rows|
    ensures rows[..offset] + Slice(rows, offset, limit) == if offset + limit >= |rows| then rows else rows[..offset + limit]
  {
  }

  /** An API client that starts at offset 0 and goes on while has_more holds gets every row exactly
      once, in order, in max(1, ⌈total/limit⌉) requests. */
  method WalkApi<T>(rows: seq<T>, rawLimit: int) returns (all: seq<T>, requests: nat)
    requires |rows| + MAX_LIMIT <= MAX_INT
    ensures all == rows
    ensures requests == Requests(|rows|, ValidLimit(rawLimit))
  {
    var limit: nat := ValidLimit(rawLimit);
    var offset: nat := 0;
    all, requests := Slice(rows, 0, limit), 1;
    SliceExtends(rows, 0, limit);
    HasMoreWithinRange(0, limit, |rows|);
    while HasMore(offset, limit, |rows|)
      invariant HasMore(offset, limit, |rows|) <==> offset + limit < |rows|
      invariant requests >= 1 && offset == Pages(requests - 1, limit)
      invariant |rows| == 0 ==> requests == 1
      invariant offset == 0 || offset < |rows|
      invariant all == if offset + limit >= |rows| then rows else rows[..offset + limit]
      decreases |rows| - offset
    {
      SliceExtends(rows, offset + limit, limit);
      offset := offset + limit;
      all := all + Slice(rows, offset, limit);
      requests := requests + 1;
      HasMoreWithinRange(offset, limit, |rows|);
    }
    PagesNeeded(|rows|, limit, requests);
  }

  // ── The web UI ────────────────────────────────────────────────────────────────

  datatype Pager = Pager(page: int, totalPages: int, hasPrev: bool, hasNext: bool, prevPage: int, nextPage: int)

  // A sum that wrapped is negative; its quotient is below 1 whichever way it is rounded.
  function NewPager(total: nat, page: int, limit: int): (p: Pager)
    ensures 1 <= p.page <= p.totalPages
    ensures p.hasNext <==> p.page < p.totalPages
    ensures p.hasPrev <==> p.page > 1
    ensures p.hasPrev ==> 1 <= p.prevPage == p.page - 1
    ensures 1 <= page <= p.totalPages ==> p.page == page
  {
    var l := if limit <= 0 then 50 else limit;
    var sum := Wrap(total + l - 1);
    var pages := if sum < 0 then 0 else sum / l;
    var totalPages := if pages < 1 then 1 else pages;
    var first := if page < 1 then 1 else page;
    var shown := if first > totalPages then totalPages else first;
    Pager(shown, totalPages, shown > 1, shown < totalPages, shown - 1, Wrap(shown + 1))
  }

  // pageOffset multiplies 64-bit integers.
  function PageOffset(page: int, limit: nat): int {
    var p := if page < 1 then 1 else page;
    Wrap((p - 1) * limit)
  }

  // The offset of the query that a web list page sends.
  function FetchedOffset(page: int, limit: nat): nat {
    ValidOffset(PageOffset(page, limit))
  }

  lemma CeilDivCovers(total: nat, limit: nat)
    requires limit > 0
    ensures CeilDiv(total, limit) * limit >= total
    ensures total > 0 ==> CeilDiv(total, limit) >= 1 && (CeilDiv(total, limit) - 1) * limit < total
    ensures total == 0 ==> CeilDiv(total, limit) == 0
  {
    var q := CeilDiv(total, limit);
    var r := (total + limit - 1) % limit;
    assert total + limit - 1 == q * limit + r;
    assert (q - 1) * limit == q * limit - limit;
    if total == 0 {
      DivUnique(0, limit, limit - 1);
    }
  }

  lemma SomePage(total: nat, limit: nat)
    requires limit > 0
    ensures Requests(total, limit) >= 1
  {
    CeilDivCovers(total, limit);
  }

  lemma NoRowsNoPages(limit: nat)
    requires limit > 0
    ensures (limit - 1) / limit == 0
  {
    DivUnique(0, limit, limit - 1);
  }

  lemma PagerShows(total: nat, page: nat, limit: nat)
    requires limit > 0 && total + limit <= MAX_INT && 1 <= page <= Requests(total, limit)
    ensures var p := NewPager(total, page, limit);
            p.page == page && p.totalPages == Requests(total, limit) && (p.hasNext ==> p.nextPage == page + 1)
  {
    SomePage(total, limit);
    assert Wrap(total + limit - 1) == total + limit - 1;
    if total == 0 {
      NoRowsNoPages(limit);
    }
    PagesFit(total, limit);
  }

  lemma PagesFit(total: nat, limit: nat)
    requires limit > 0 && total + limit <= MAX_INT
    ensures Requests(total, limit) <= MAX_INT
  {
    CeilDivCovers(total, limit);
    if total > 0 {
      MultiplesGrow(1, limit, CeilDiv(total, limit) - 1);
    }
  }

  lemma OffsetInRange(total: nat, page: nat, limit: nat)
    requires limit > 0 && total <= MAX_INT && 1 <= page <= Requests(total, limit)
    ensures FetchedOffset(page, limit) == Pages(page - 1, limit)
  {
    PagesIsProduct(page - 1, limit);
    if page > 1 {
      PagesBelow(total, page - 1, limit);
    }
  }

  lemma PagesBelow(total: nat, page: nat, limit: nat)
    requires limit > 0 && 1 <= page < Requests(total, limit)
    ensures Pages(page, limit) < total && page * limit < total
  {
    PagesIsProduct(page, limit);
    CeilDivCovers(total, limit);
    MultiplesGrow(page, CeilDiv(total, limit) - 1, limit);
  }

  lemma PagesBefore(total: nat, page: nat, limit: nat)
    requires limit > 0 && 1 <= page < Requests(total, limit)
    ensures Pages(page, limit) < total
  {
    PagesBelow(total, page, limit);
  }

  lemma MultiplesGrow(a: nat, b: int, limit: nat)
    requires a <= b
    ensures a * limit <= b * limit
  {
  }

  lemma LastPageCovers(total: nat, limit: nat)
    requires limit > 0
    ensures Pages(Requests(total, limit), limit) >= total
  {
    PagesIsProduct(Requests(total, limit), limit);
    CeilDivCovers(total, limit);
  }

  /** One request for a list page: the rows of the query and the pager beside them. */
  method WebPage<T>(rows: seq<T>, page: nat, limit: nat) returns (got: seq<T>, pager: Pager)
    requires 1 <= limit <= 200 && |rows| + limit <= MAX_INT && 1 <= page <= Requests(|rows|, limit)
    ensures got == Slice(rows, Pages(page - 1, limit), limit)
    ensures pager.page == page && pager.totalPages == Requests(|rows|, limit)
    ensures pager.hasNext <==> page < Requests(|rows|, limit)
    ensures pager.hasNext ==> pager.nextPage == page + 1
  {
    PagerShows(|rows|, page, limit);
    OffsetInRange(|rows|, page, limit);
    got := Slice(rows, FetchedOffset(page, limit), limit);
    pager := NewPager(|rows|, page, limit);
  }

  /** A reader who starts on page 1 and follows the next links sees every row exactly once. */
  method WalkWeb<T>(rows: seq<T>, limit: nat) returns (all: seq<T>, pages: nat)
    requires 1 <= limit <= 200 && |rows| + limit <= MAX_INT
    ensures all == rows
    ensures pages == Requests(|rows|, limit)
  {
    SomePage(|rows|, limit);
    ghost var last := Requests(|rows|, limit);
    LastPageCovers(|rows|, limit);
    var pager;
    all, pager := WebPage(rows, 1, limit);
    pages := 1;
    SliceExtends(rows, 0, limit);
    assert Pages(1, limit) == limit;
    while pager.hasNext
      invariant 1 <= pages <= last
      invariant pager.hasNext <==> pages < last
      invariant pager.hasNext ==> pager.nextPage == pages + 1
      invariant all == if Pages(pages, limit) >= |rows| then rows else rows[..Pages(pages, limit)]
      decreases last - pages
    {
      PagesBefore(|rows|, pages, limit);
      SliceExtends(rows, Pages(pages, limit), limit);
      var got;
      got, pager := WebPage(rows, pager.nextPage, limit);
      all := all + got;
      pages := pages + 1;
    }
  }

  // The product for a page past the last one comes back to the offset of the last one: by whole
  // turns, or, for a list of one page, by turning negative, which the list queries take for 0.
  predicate ComesBack(page: int, limit: nat, totalPages: nat) {
    var turned := ((page - 1) * limit) % WORD64;
    turned == (totalPages - 1) * limit || (totalPages == 1 && turned > MAX_INT)
  }

  lemma LastOffsetFits(total: nat, page: int, limit: nat)
    requires limit > 0 && total + limit <= MAX_INT
    ensures var p := NewPager(total, page, limit).page;
            0 <= (p - 1) * limit <= MAX_INT && FetchedOffset(p, limit) == (p - 1) * limit
  {
    PagerWithin(total, page, limit);
    var p := NewPager(total, page, limit).page;
    if p > 1 {
      PagesBelow(total, p - 1, limit);
    }
    OffsetOfPage(p, limit);
  }

  lemma PagerWithin(total: nat, page: int, limit: nat)
    requires limit > 0 && total + limit <= MAX_INT
    ensures 1 <= NewPager(total, page, limit).page <= Requests(total, limit)
  {
    SomePage(total, limit);
    assert Wrap(total + limit - 1) == total + limit - 1;
    if total == 0 {
      NoRowsNoPages(limit);
    }
  }

  lemma OffsetOfPage(p: nat, limit: nat)
    requires p >= 1 && (p - 1) * limit <= MAX_INT
    ensures FetchedOffset(p, limit) == (p - 1) * limit
  {
  }

  /** The pager clamps the page number that it shows, the query does not: the rows fetched are those
      of the page shown exactly when the requested page is not past the last one, or its product
      with the limit overflows and comes back to the offset shown. */
  lemma ShownPageIsFetchedPageExactlyInRange(total: nat, page: int, limit: nat)
    requires limit > 0 && total + limit <= MAX_INT
    ensures var p := NewPager(total, page, limit);
            FetchedOffset(p.page, limit) == FetchedOffset(page, limit)
            <==> page <= p.totalPages || ComesBack(page, limit, p.totalPages)
    ensures var p := NewPager(total, page, limit);
            (page - 1) * limit <= MAX_INT ==>
              (FetchedOffset(p.page, limit) == FetchedOffset(page, limit) <==> page <= p.totalPages)
  {
    LastOffsetFits(total, page, limit);
    var p := NewPager(total, page, limit);
    if page > p.totalPages {
      Monotone(p.totalPages, page, limit);
      WrappedOffset((page - 1) * limit);
    }
  }

  lemma WrappedOffset(x: nat)
    ensures ValidOffset(Wrap(x)) == if x % WORD64 > MAX_INT then 0 else x % WORD64
    ensures x <= MAX_INT ==> x % WORD64 == x
  {
  }

  /** Page 2^58 + 1 of 64 rows each: the product is 2^64, so a list of one page is shown as asked. */
  lemma WrappedPageIsShown(total: nat)
    requires total <= 64
    ensures var page := 0x400_0000_0000_0001;
            && NewPager(total, page, 64).totalPages == 1
            && FetchedOffset(NewPager(total, page, 64).page, 64) == FetchedOffset(page, 64) == 0
  {
  }

  lemma Monotone(a: int, b: int, limit: nat)
    requires 1 <= a < b && limit > 0
    ensures (a - 1) * limit < (b - 1) * limit
  {
  }
}
