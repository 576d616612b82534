/** Pagination of a search result (`page`/`limit` clamping and `slice`). */
module Paging {
  import opened Wrappers
  import opened Numbers
  import opened Text

  const DefaultPage := 1
  const DefaultLimit := 20
  const MaxLimit := 100

  /**
   * The response envelope. `page` and `limit` are `None` when the request's
   * value is NaN to `parseInt` (NaN propagates through `Math.max`/`Math.min`
   * and is written as `null`).
   */
  datatype Page<T> = Page(total: nat, page: Option<int>, limit: Option<int>, data: seq<T>)

  function Max(a: int, b: int): int { if a >= b then a else b }
  function Min(a: int, b: int): int { if a <= b then a else b }

  /** `Math.max(1, parseInt(page))` with the default `page = 1` for an absent parameter. */
  function PageNumber(page: Option<string>): (r: Option<int>)
    ensures r.Some? ==> r.value >= 1
    ensures page.Some? ==> (r.None? <==> ParseIntAuto(page.value).None?)
    ensures page.Some? && ParseIntAuto(page.value).Some? && ParseIntAuto(page.value).value >= 1 ==>
      r == ParseIntAuto(page.value)
  {
    match page
    case None => Some(DefaultPage)
    case Some(s) => match ParseIntAuto(s) case None => None case Some(p) => Some(Max(1, p))
  }

  /** `Math.min(100, Math.max(1, parseInt(limit)))` with the default `limit = 20`. */
  function PageLimit(limit: Option<string>): (r: Option<int>)
    ensures r.Some? ==> 1 <= r.value <= MaxLimit
    ensures limit.Some? ==> (r.None? <==> ParseIntAuto(limit.value).None?)
    ensures limit.Some? && ParseIntAuto(limit.value).Some? && 1 <= ParseIntAuto(limit.value).value <= MaxLimit ==>
      r == ParseIntAuto(limit.value)
  {
    match limit
    case None => Some(DefaultLimit)
    case Some(s) => match ParseIntAuto(s) case None => None case Some(l) => Some(Min(MaxLimit, Max(1, l)))
  }

  /** `xs.slice(start, end)` for `0 <= start`: a start past the end gives an empty slice. */
  function Slice<T>(xs: seq<T>, start: nat, end: nat): seq<T> {
    if start >= |xs| || end <= start then [] else xs[start..Min(end, |xs|)]
  }

  /** `(pageNum - 1) * limitNum`, the index of a page's first record. */
  function PageStart(p: int, l: int): (r: nat)
    requires p >= 1 && l >= 1
    ensures p == 1 ==> r == 0
  {
    (p - 1) * l
  }

  /** Each page ends where the next one starts, so the pages cover the results without gap or overlap. */
  lemma PagesAdjacent(p: int, l: int)
    requires p >= 1 && l >= 1
    ensures PageStart(p + 1, l) == PageStart(p, l) + l
  {
    assert p * l == (p - 1) * l + l;
  }

  /** `slice(start, start + len)`: up to `len` records from `start`, fewer near the end. */
  function Window<T>(xs: seq<T>, start: nat, len: nat): (w: seq<T>)
    ensures |w| == Min(len, Max(0, |xs| - start))
    ensures forall i :: 0 <= i < |w| ==> w[i] == xs[start + i]
  {
    Slice(xs, start, start + len)
  }

  function Paginate<T>(xs: seq<T>, page: Option<string>, limit: Option<string>): (r: Page<T>)
    ensures r.total == |xs|
    ensures r.page.Some? ==> r.page.value >= 1
    ensures r.limit.Some? ==> 1 <= r.limit.value <= MaxLimit
    ensures r.page.None? || r.limit.None? ==> r.data == []
    ensures r.page.Some? && r.limit.Some? ==>
      var l, start := r.limit.value, PageStart(r.page.value, r.limit.value);
      && |r.data| == Min(l, Max(0, |xs| - start))
      && forall i :: 0 <= i < |r.data| ==> r.data[i] == xs[start + i]
  {
    var p, l := PageNumber(page), PageLimit(limit);
    if p.None? || l.None? then
      Page(|xs|, p, l, [])
    else
      Page(|xs|, p, l, Window(xs, PageStart(p.value, l.value), l.value))
  }

  /** Every record on a page is one of the paged records. */
  lemma PaginateMembers<T>(xs: seq<T>, page: Option<string>, limit: Option<string>, x: T)
    requires x in Paginate(xs, page, limit).data
    ensures x in xs
  {
    var p, l := PageNumber(page), PageLimit(limit);
    var w := Window(xs, PageStart(p.value, l.value), l.value);
    var i :| 0 <= i < |w| && w[i] == x;
    assert w[i] == xs[PageStart(p.value, l.value) + i];
  }

  /** Without `page` and `limit` the first twenty results are returned. */
  lemma PaginateDefaults<T>(xs: seq<T>)
    ensures Paginate(xs, None, None) == Page(|xs|, Some(1), Some(20), xs[..Min(20, |xs|)])
  {
  }

  /** A page number of one or less reads as the first page, whatever the limit. */
  lemma PageBelowOneIsFirst<T>(xs: seq<T>, page: string, limit: Option<string>)
    requires ParseIntAuto(page).Some? && ParseIntAuto(page).value <= 1
    ensures PageNumber(Some(page)) == Some(DefaultPage)
    ensures Paginate(xs, Some(page), limit) == Paginate(xs, None, limit)
  {
  }

  /** A limit of 100 or more reads as 100, whatever the page. */
  lemma LimitAboveMaxIsMax<T>(xs: seq<T>, page: Option<string>, limit: string)
    requires ParseIntAuto(limit).Some? && ParseIntAuto(limit).value >= MaxLimit
    ensures PageLimit(Some(limit)) == Some(MaxLimit)
    ensures Paginate(xs, page, Some(limit)) == Paginate(xs, page, Some(Decimal(MaxLimit)))
  {
    ParseDecimal(MaxLimit);
  }

  /** A limit of one or less reads as one, whatever the page. */
  lemma LimitBelowOneIsOne<T>(xs: seq<T>, page: Option<string>, limit: string)
    requires ParseIntAuto(limit).Some? && ParseIntAuto(limit).value <= 1
    ensures PageLimit(Some(limit)) == Some(1)
    ensures Paginate(xs, page, Some(limit)) == Paginate(xs, page, Some(Decimal(1)))
  {
    ParseDecimal(1);
  }

  /** The page number is read without a radix: `page=0x2` is page 2. */
  lemma PageNumberHex(h: string)
    requires h != [] && AllHexDigits(h) && HexDigitsValue(h) >= 1
    ensures PageNumber(Some("0x" + h)) == Some(HexDigitsValue(h))
  {
    HexPrefix(h);
  }

  /** Leading white space before the page number is skipped: `page=%202` is page 2. */
  lemma PageNumberSkipsWhite(w: string, s: string)
    requires forall i :: 0 <= i < |w| ==> IsWhite(w[i])
    ensures PageNumber(Some(w + s)) == PageNumber(Some(s))
    ensures PageLimit(Some(w + s)) == PageLimit(Some(s))
  {
    ParseIntSkipsWhite(w, s);
  }

  /** A page past the last result is empty, not an error. */
  lemma PastLastPage<T>(xs: seq<T>, page: Option<string>, limit: Option<string>)
    requires PageNumber(page).Some? && PageLimit(limit).Some?
    requires PageStart(PageNumber(page).value, PageLimit(limit).value) >= |xs|
    ensures Paginate(xs, page, limit).data == []
    ensures Paginate(xs, page, limit).total == |xs|
  {
  }
}
