/** Pages of the catalog: slicing a list, and reading the page data a server or the slicing gives. */
module CatalogPages {
  import opened Basics

  datatype PageInfo = PageInfo(total: int, page: int, pageSize: int, totalPages: int, hasPrevious: bool, hasNext: bool)

  /** Page data as received: a field that is missing or not a whole number is none. */
  datatype PageShape = PageShape(count: nat, total: Option<int>, page: Option<int>, pageSize: Option<int>,
                                 totalPages: Option<int>, hasPrevious: Option<bool>, hasNext: Option<bool>)

  function PositiveInteger(value: Option<int>, fallback: int): int {
    if value.Some? && value.value > 0 then value.value else fallback
  }

  function Max(a: int, b: int): int { if a < b then b else a }

  /** How many pages hold `total` entries: the quotient, rounded up. */
  function TotalPages(total: nat, size: int): nat
    requires size > 0
  {
    if total == 0 then 0 else (total - 1) / size + 1
  }

  function CatalogPageInfo(payload: PageShape, fallbackPageSize: int): PageInfo
    requires fallbackPageSize > 0
  {
    var pageSize := PositiveInteger(payload.pageSize, fallbackPageSize);
    var total := if payload.total.Some? && payload.total.value >= 0 then payload.total.value else payload.count;
    var totalPages := if payload.totalPages.Some? && payload.totalPages.value >= 0 then payload.totalPages.value
                      else TotalPages(total, pageSize);
    var page := if totalPages == 0 then 1 else Min(PositiveInteger(payload.page, 1), totalPages);
    PageInfo(total, page, pageSize, totalPages,
      if payload.hasPrevious.Some? then payload.hasPrevious.value else page > 1,
      if payload.hasNext.Some? then payload.hasNext.value else totalPages > 0 && page < totalPages)
  }

  function ClampedPage(total: nat, requestedPage: int, size: int): int
    requires size > 0
  {
    var totalPages := TotalPages(total, size);
    if totalPages == 0 then 1 else Min(Max(1, requestedPage), totalPages)
  }

  /** The part of the list a page shows. */
  function PageItems<T>(items: seq<T>, requestedPage: int, size: int): seq<T>
    requires size > 0
  {
    var page := ClampedPage(|items|, requestedPage, size);
    ClampWithin(|items|, requestedPage, size);
    items[Min((page - 1) * size, |items|)..Min((page - 1) * size + size, |items|)]
  }

  function PaginateInfo(total: nat, requestedPage: int, size: int): PageInfo
    requires size > 0
  {
    var page, totalPages := ClampedPage(total, requestedPage, size), TotalPages(total, size);
    PageInfo(total, page, size, totalPages, page > 1, totalPages > 0 && page < totalPages)
  }

  /** The first and last position the range text names. */
  function RangeStart(info: PageInfo): int { (info.page - 1) * info.pageSize + 1 }

  function RangeEnd(info: PageInfo): int { Min(info.total, RangeStart(info) + info.pageSize - 1) }

  // ---------- the pages partition the list ----------

  lemma PagesCover(total: nat, size: int)
    requires size > 0
    ensures total <= TotalPages(total, size) * size < total + size
  {
    if total > 0 {
      var q, r := (total - 1) / size, (total - 1) % size;
      assert total - 1 == q * size + r;
      assert (q + 1) * size == q * size + size;
    }
  }

  lemma ProductIsMonotone(a: int, b: int, size: int)
    requires a <= b && size > 0
    ensures a * size <= b * size
  {
  }

  /** Any requested page is brought to an existing one (or to the first, when there is none), and an
      existing page is left as requested. */
  lemma ClampWithin(total: nat, requestedPage: int, size: int)
    requires size > 0
    ensures var page := ClampedPage(total, requestedPage, size);
            && 1 <= page <= Max(1, TotalPages(total, size)) && (page - 1) * size >= 0
            && (1 <= requestedPage <= TotalPages(total, size) ==> page == requestedPage)
            && (total > 0 ==> (page - 1) * size < total)
  {
    var page := ClampedPage(total, requestedPage, size);
    PagesCover(total, size);
    ProductIsMonotone(0, page - 1, size);
    if total > 0 {
      ProductIsMonotone(page - 1, TotalPages(total, size) - 1, size);
      assert (TotalPages(total, size) - 1) * size == TotalPages(total, size) * size - size;
    }
  }

  function FirstPages<T>(items: seq<T>, pages: nat, size: int): seq<T>
    requires size > 0
  {
    if pages == 0 then [] else FirstPages(items, pages - 1, size) + PageItems(items, pages, size)
  }

  lemma PageAt<T>(items: seq<T>, page: nat, size: int)
    requires size > 0 && 1 <= page <= TotalPages(|items|, size)
    ensures 0 <= (page - 1) * size <= |items| && (page - 1) * size <= page * size
    ensures PageItems(items, page, size) == items[(page - 1) * size..Min(page * size, |items|)]
  {
    ClampWithin(|items|, page, size);
    assert page * size == (page - 1) * size + size;
  }

  lemma Append<T>(items: seq<T>, start: int, end: int)
    requires 0 <= start <= |items| && start <= end
    ensures items[..Min(start, |items|)] + items[start..Min(end, |items|)] == items[..Min(end, |items|)]
  {
  }

  lemma {:induction false} FirstPagesAre<T>(items: seq<T>, pages: nat, size: int)
    requires size > 0 && pages <= TotalPages(|items|, size)
    ensures 0 <= pages * size && FirstPages(items, pages, size) == items[..Min(pages * size, |items|)]
  {
    if pages > 0 {
      FirstPagesAre(items, pages - 1, size);
      PageAt(items, pages, size);
      Append(items, (pages - 1) * size, pages * size);
    }
  }

  /** All pages in order are the list. */
  lemma PagesConcatenate<T>(items: seq<T>, size: int)
    requires size > 0
    ensures FirstPages(items, TotalPages(|items|, size), size) == items
  {
    FirstPagesAre(items, TotalPages(|items|, size), size);
    PagesCover(|items|, size);
    assert items[..|items|] == items;
  }

  /** The range the text names is exactly what the page shows, and it is never empty. */
  lemma RangeIsThePage<T>(items: seq<T>, requestedPage: int, size: int)
    requires size > 0 && items != []
    ensures var info := PaginateInfo(|items|, requestedPage, size);
            && 1 <= RangeStart(info) <= RangeEnd(info) <= |items|
            && PageItems(items, requestedPage, size) == items[RangeStart(info) - 1..RangeEnd(info)]
  {
    ClampWithin(|items|, requestedPage, size);
  }

  /** A page says it has one before or after it exactly when there are entries before or after its own; every
      page but the last is full, and there are as many as that takes. */
  lemma NeighboursIff<T>(items: seq<T>, requestedPage: int, size: int)
    requires size > 0
    ensures var info, shown := PaginateInfo(|items|, requestedPage, size), PageItems(items, requestedPage, size);
            var start := (info.page - 1) * size;
            && info.total == |items| && info.pageSize == size
            && 0 <= start && start + |shown| <= |items| && shown == items[start..start + |shown|]
            && (info.hasPrevious <==> start > 0) && (info.hasNext <==> start + |shown| < |items|)
            && (info.hasNext ==> |shown| == size)
            && (info.totalPages - 1) * size < |items| <= info.totalPages * size
  {
    var page := ClampedPage(|items|, requestedPage, size);
    ClampWithin(|items|, requestedPage, size);
    PagesCover(|items|, size);
    PageEnds(page, TotalPages(|items|, size), size, |items|);
  }

  lemma PageEnds(page: int, pages: int, size: int, total: int)
    requires size > 0 && 1 <= page && total <= pages * size < total + size
    ensures page > 1 <==> (page - 1) * size > 0
    ensures page < pages <==> (page - 1) * size + size < total
    ensures (pages - 1) * size < total <= pages * size
  {
    Times(page, size);
    Times(pages, size);
    if page > 1 { ProductIsMonotone(1, page - 1, size); }
    if page < pages { ProductIsMonotone(page, pages - 1, size); } else { ProductIsMonotone(pages, page, size); }
  }

  lemma Times(n: int, size: int)
    ensures n * size == (n - 1) * size + size
  {
  }

  // ---------- reading page data ----------

  /** Page data the server sends is taken as sent where it makes sense; the page is brought to the last one there
      is, and neighbours not spoken of are those the page has. */
  lemma ServerDataIsKept(payload: PageShape, fallback: int)
    requires fallback > 0
    ensures var info := CatalogPageInfo(payload, fallback);
            && (payload.total.Some? && payload.total.value >= 0 ==> info.total == payload.total.value)
            && (payload.pageSize.Some? && payload.pageSize.value > 0 ==> info.pageSize == payload.pageSize.value)
            && (payload.totalPages.Some? && payload.totalPages.value >= 0 ==> info.totalPages == payload.totalPages.value)
            && (payload.page.Some? && 0 < payload.page.value <= info.totalPages ==> info.page == payload.page.value)
            && (payload.page.Some? && payload.page.value > info.totalPages > 0 ==> info.page == info.totalPages)
            && (payload.hasPrevious.Some? ==> info.hasPrevious == payload.hasPrevious.value)
            && (payload.hasNext.Some? ==> info.hasNext == payload.hasNext.value)
            && (payload.hasPrevious.None? ==> (info.hasPrevious <==> info.page > 1))
            && (payload.hasNext.None? ==> (info.hasNext <==> info.page < info.totalPages))
  {
  }

  /** A server that sends entries and no page data is read as one that sent them as the first page. */
  lemma MissingDataIsFirstPage(count: nat, fallback: int)
    requires fallback > 0
    ensures CatalogPageInfo(PageShape(count, None, None, None, None, None, None), fallback) == PaginateInfo(count, 1, fallback)
  {
  }

  function AsShape(info: PageInfo, count: nat): PageShape {
    PageShape(count, Some(info.total), Some(info.page), Some(info.pageSize), Some(info.totalPages),
      Some(info.hasPrevious), Some(info.hasNext))
  }

  /** Reading the data of a page that was sliced here changes nothing. */
  lemma PaginateInfoIsRead(total: nat, requestedPage: int, size: int, count: nat, fallback: int)
    requires size > 0 && fallback > 0
    ensures var info := PaginateInfo(total, requestedPage, size); CatalogPageInfo(AsShape(info, count), fallback) == info
  {
    ClampWithin(total, requestedPage, size);
  }

  /** Reading page data twice is reading it once, whatever the server sent; the page read exists. */
  lemma ReadingIsIdempotent(payload: PageShape, count: nat, fallback: int)
    requires fallback > 0
    ensures var info := CatalogPageInfo(payload, fallback);
            && CatalogPageInfo(AsShape(info, count), fallback) == info
            && 1 <= info.page <= Max(1, info.totalPages) && info.pageSize > 0 && info.total >= 0
  {
  }
}
