/**
 * The pagination arithmetic and query-string handling that both list
 * `Get` actions repeat: parsing `fields`, clamping `pageSize`, the
 * `X-Pagination` metadata with its previous/next links, and the
 * `Skip`/`Take` page slice.
 */
module ListQuery {
  import opened Results
  import opened Text
  import opened ListOps
  import Shaping

  /** `fields.ToLower().Split(',')`, or no names at all when `fields` is null. */
  function ParseFields(fields: Option<string>): (r: seq<string>)
    ensures fields.None? ==> r == []
    ensures fields.Some? ==> |r| >= 1 && Join(r, ',') == Lower(fields.value)
    ensures forall i | 0 <= i < |r| :: ',' !in r[i]
  {
    match fields
    case None => []
    case Some(s) => Split(Lower(s), ',')
  }

  /** A string with no upper-case letter is its own lower-case form. */
  lemma LowerOfLower(s: string)
    requires forall i | 0 <= i < |s| :: !IsUpper(s[i])
    ensures Lower(s) == s
  {
  }

  /** Gluing lower-case tokens gives a lower-case string. */
  lemma {:induction false} JoinLower(tokens: seq<string>, sep: char)
    requires |tokens| >= 1 && !IsUpper(sep)
    requires forall t | t in tokens :: forall i | 0 <= i < |t| :: !IsUpper(t[i])
    ensures forall i | 0 <= i < |Join(tokens, sep)| :: !IsUpper(Join(tokens, sep)[i])
    decreases |tokens|
  {
    if |tokens| > 1 {
      JoinLower(tokens[1..], sep);
      assert Join(tokens, sep) == tokens[0] + [sep] + Join(tokens[1..], sep);
    }
  }

  /**
   * Parsing is exact: lower-case, comma-free names joined with commas are
   * read back as the same names, in order, duplicates and empty names kept.
   */
  lemma ParseJoined(tokens: seq<string>)
    requires |tokens| >= 1
    requires forall t | t in tokens :: ',' !in t && forall i | 0 <= i < |t| :: !IsUpper(t[i])
    ensures ParseFields(Some(Join(tokens, ','))) == tokens
  {
    JoinLower(tokens, ',');
    LowerOfLower(Join(tokens, ','));
    SplitJoin(tokens, ',');
  }

  /** An empty `fields` string is one empty name, not an empty list. */
  lemma ParseEmptyString()
    ensures ParseFields(Some("")) == [""]
  {
    assert Lower("") == "";
  }

  /** The names are not trimmed: a space after a comma stays in the name. */
  lemma ParseKeepsSpaces()
    ensures ParseFields(Some("id, title")) == ["id", " title"]
  {
    assert Join(["id", " title"], ',') == "id, title";
    ParseJoined(["id", " title"]);
  }

  /** `pageSize > max ? max : pageSize`. */
  function ClampPageSize(pageSize: int, max: int): (r: int)
    ensures r <= max && r <= pageSize
    ensures r == max || r == pageSize
  {
    if pageSize > max then max else pageSize
  }

  /** `(int)Math.Ceiling((double)totalCount / pageSize)`. */
  function TotalPages(totalCount: nat, pageSize: int): nat
    requires pageSize >= 1
  {
    (totalCount + pageSize - 1) / pageSize
  }

  /** The page count is the ceiling: the last page is neither empty nor overfull. */
  lemma TotalPagesBounds(totalCount: nat, pageSize: int)
    requires pageSize >= 1
    ensures var r := TotalPages(totalCount, pageSize);
      (r - 1) * pageSize < totalCount <= r * pageSize
  {
    var r := TotalPages(totalCount, pageSize);
    var m := (totalCount + pageSize - 1) % pageSize;
    assert totalCount + pageSize - 1 == r * pageSize + m;
    assert (r - 1) * pageSize == r * pageSize - pageSize;
  }

  lemma MulMonotone(a: int, b: int, k: nat)
    requires a <= b
    ensures a * k <= b * k
  {
    assert b * k - a * k == (b - a) * k;
  }

  /** A page number is below the page count exactly when items remain past its page. */
  lemma {:induction false} BeforeLastPage(page: int, totalCount: nat, pageSize: int)
    requires pageSize >= 1
    ensures page < TotalPages(totalCount, pageSize) <==> page * pageSize < totalCount
  {
    var r: int := TotalPages(totalCount, pageSize);
    TotalPagesBounds(totalCount, pageSize);
    if page < r {
      MulMonotone(page, r - 1, pageSize);
    } else {
      MulMonotone(r, page, pageSize);
    }
  }

  /** The `X-Pagination` header. */
  datatype PageMetadata = PageMetadata(
    currentPage: int,
    pageSize: int,
    totalCount: nat,
    totalPages: nat,
    previousPageLink: string,
    nextPageLink: string)

  /**
   * The header for one page: a link to the previous page when there is a
   * page before this one, to the next when there is one after, `""` otherwise.
   * `link` builds the URL of a page number.
   */
  function BuildMetadata(page: int, pageSize: int, totalCount: nat, link: int -> string): (m: PageMetadata)
    requires pageSize >= 1
    ensures m.currentPage == page && m.pageSize == pageSize && m.totalCount == totalCount
    ensures (m.totalPages - 1) * pageSize < totalCount <= m.totalPages * pageSize
    ensures m.previousPageLink == if page > 1 then link(page - 1) else ""
    ensures m.nextPageLink == if page * pageSize < totalCount then link(page + 1) else ""
  {
    var totalPages := TotalPages(totalCount, pageSize);
    BeforeLastPage(page, totalCount, pageSize);
    PageMetadata(
      page, pageSize, totalCount, totalPages,
      if page > 1 then link(page - 1) else "",
      if page < totalPages then link(page + 1) else "")
  }

  /**
   * With a link builder that never yields an empty URL, the previous link is
   * present exactly when `page > 1` and the next exactly when
   * `page < totalPages`.
   */
  lemma LinksPresent(page: int, pageSize: int, totalCount: nat, link: int -> string)
    requires pageSize >= 1
    requires forall p :: link(p) != ""
    ensures BuildMetadata(page, pageSize, totalCount, link).previousPageLink != "" <==> page > 1
    ensures BuildMetadata(page, pageSize, totalCount, link).nextPageLink != "" <==>
      page < BuildMetadata(page, pageSize, totalCount, link).totalPages
  {
    BeforeLastPage(page, totalCount, pageSize);
  }

  /** Where page `page` starts: the number of items on the pages before it. */
  function PageStart(page: int, pageSize: int): int {
    (page - 1) * pageSize
  }

  /**
   * `.Skip(pageSize * (page - 1)).Take(pageSize)`, with unbounded arithmetic:
   * the stretch of at most `pageSize` items where the page starts. A page
   * below 1 skips a negative count, so it is the first page.
   */
  function PageSlice<T>(s: seq<T>, page: int, pageSize: int): (r: seq<T>)
    requires pageSize >= 1
    ensures |r| <= pageSize
    ensures page >= 1 ==>
      r == s[Min(PageStart(page, pageSize), |s|)..Min(PageStart(page, pageSize) + pageSize, |s|)]
    ensures page <= 1 ==> r == s[..Min(pageSize, |s|)]
  {
    var skip := pageSize * (page - 1);
    SkipOffset(page, pageSize, skip);
    SkipTake(s, skip, pageSize);
    Take(Skip(s, skip), pageSize)
  }

  /** At most `n` items from offset `lo`; a negative offset starts at the front. */
  lemma SkipTake<T>(s: seq<T>, lo: int, n: int)
    requires n >= 1
    ensures |Take(Skip(s, lo), n)| <= n
    ensures lo >= 0 ==> Take(Skip(s, lo), n) == s[Min(lo, |s|)..Min(lo + n, |s|)]
    ensures lo <= 0 ==> Take(Skip(s, lo), n) == s[..Min(n, |s|)]
  {
  }

  /** The skip count is where the page starts; it is negative below page 1. */
  lemma SkipOffset(page: int, pageSize: int, lo: int)
    requires pageSize >= 1
    requires lo == pageSize * (page - 1)
    ensures lo == PageStart(page, pageSize)
    ensures page < 1 ==> lo < 0
    ensures page == 1 ==> lo == 0
    ensures page > 1 ==> lo >= pageSize
  {
    if page < 1 {
      MulMonotone(page - 1, -1, pageSize);
    } else if page > 1 {
      MulMonotone(1, page - 1, pageSize);
    }
  }

  /**
   * Where page `page` starts, against the length `n`: a page before the
   * last leaves items after it, and every page up to the last starts inside.
   */
  lemma PageCountOffsets(n: nat, page: int, pageSize: int)
    requires pageSize >= 1
    ensures page < TotalPages(n, pageSize) <==> PageStart(page, pageSize) + pageSize < n
    ensures page - 1 < TotalPages(n, pageSize) <==> PageStart(page, pageSize) < n
    ensures n > 0 ==> TotalPages(n, pageSize) >= 1
  {
    var lo := PageStart(page, pageSize);
    BeforeLastPage(page, n, pageSize);
    assert page * pageSize == lo + pageSize;
    BeforeLastPage(page - 1, n, pageSize);
    BeforeLastPage(0, n, pageSize);
  }

  /**
   * A page is empty exactly when there are no items or it lies past the
   * last page; every page before the last is full, and the last holds the
   * rest.
   */
  lemma PageSliceSize<T>(s: seq<T>, page: int, pageSize: int)
    requires pageSize >= 1
    ensures var r := PageSlice(s, page, pageSize);
      var totalPages := TotalPages(|s|, pageSize);
      && (|r| == 0 <==> |s| == 0 || page > totalPages)
      && (1 <= page < totalPages ==> |r| == pageSize)
      && (1 <= page == totalPages ==> |r| == |s| - PageStart(page, pageSize))
  {
    PageCountOffsets(|s|, page, pageSize);
    SkipOffset(page, pageSize, pageSize * (page - 1));
  }

  function Min(a: int, b: int): int {
    if a < b then a else b
  }

  /** Pages 1 to `n`, one after the other. */
  function Pages<T>(s: seq<T>, pageSize: int, n: nat): seq<T>
    requires pageSize >= 1
  {
    if n == 0 then [] else Pages(s, pageSize, n - 1) + PageSlice(s, n, pageSize)
  }

  lemma PagesPrefix<T>(s: seq<T>, pageSize: int, n: nat)
    requires pageSize >= 1
    ensures Pages(s, pageSize, n) == s[..Min(n * pageSize, |s|)]
  {
    MulMonotone(0, n, pageSize);
    PagesPrefixAt(s, pageSize, n, n * pageSize);
  }

  /** `PagesPrefix` with the end of page `n` passed in as `hi`. */
  lemma {:induction false} PagesPrefixAt<T>(s: seq<T>, pageSize: int, n: nat, hi: int)
    requires pageSize >= 1
    requires hi == n * pageSize && hi >= 0
    ensures Pages(s, pageSize, n) == s[..Min(hi, |s|)]
  {
    if n > 0 {
      var lo := hi - pageSize;
      PageEnds(n, pageSize, hi);
      var a, b := Min(lo, |s|), Min(hi, |s|);
      calc {
        Pages(s, pageSize, n);
        Pages(s, pageSize, n - 1) + PageSlice(s, n, pageSize);
        { PagesPrefixAt(s, pageSize, n - 1, lo); }
        s[..a] + PageSlice(s, n, pageSize);
        s[..a] + s[a..b];
        { SliceConcat(s, a, b); }
        s[..b];
      }
    }
  }

  /** Page `n` starts one page size before it ends. */
  lemma PageEnds(n: int, pageSize: int, hi: int)
    requires n >= 1 && pageSize >= 1
    requires hi == n * pageSize
    ensures hi - pageSize == (n - 1) * pageSize == PageStart(n, pageSize)
    ensures hi - pageSize >= 0
  {
    MulMonotone(0, n - 1, pageSize);
  }

  lemma SliceConcat<T>(s: seq<T>, a: int, b: int)
    requires 0 <= a <= b <= |s|
    ensures s[..a] + s[a..b] == s[..b]
  {
  }

  /** Pages 1 to `totalPages`, in order, are the whole sequence: nothing lost, nothing repeated. */
  lemma PagesCover<T>(s: seq<T>, pageSize: int)
    requires pageSize >= 1
    ensures Pages(s, pageSize, TotalPages(|s|, pageSize)) == s
  {
    TotalPagesBounds(|s|, pageSize);
    PagesPrefix(s, pageSize, TotalPages(|s|, pageSize));
  }

  /**
   * The page just past the last one is empty, has no next link and links
   * back to the last page.
   */
  lemma PastLastPage<T>(s: seq<T>, pageSize: int, link: int -> string)
    requires pageSize >= 1
    requires forall p :: link(p) != ""
    requires TotalPages(|s|, pageSize) >= 1
    ensures var page := TotalPages(|s|, pageSize) + 1;
      var m := BuildMetadata(page, pageSize, |s|, link);
      && PageSlice(s, page, pageSize) == []
      && m.nextPageLink == ""
      && m.previousPageLink == link(page - 1)
      && m.previousPageLink != ""
  {
    var page := TotalPages(|s|, pageSize) + 1;
    BeforeLastPage(page, |s|, pageSize);
    PageSliceSize(s, page, pageSize);
  }

  /** Seven items, page 1 of size 5: the first five, two pages, a link to page 2 only. */
  lemma SevenItemsFirstPage<T>(s: seq<T>, link: int -> string)
    requires |s| == 7
    ensures PageSlice(s, 1, 5) == s[..5]
    ensures BuildMetadata(1, 5, 7, link) == PageMetadata(1, 5, 7, 2, "", link(2))
  {
    assert TotalPages(7, 5) == 2;
  }

  /** What a list action answers. */
  datatype ListResponse<T> =
    | Ok(header: PageMetadata, body: seq<T>)
    | NotFound
    | InternalServerError
      /**
       * The action returned `Ok` with its header written, and shaping an
       * item threw later, while the deferred `Select` was enumerated for
       * serialisation, outside the action's `try`.
       */
    | BodyFault(header: PageMetadata, fault: Shaping.Fault)

  /**
   * `Ok(collection.Select(shape))` with the header already written: the
   * body is every item shaped, or the first item's shaping fault.
   */
  function Respond<T, U>(header: PageMetadata, items: seq<T>, shape: T -> Result<U, Shaping.Fault>): (r: ListResponse<U>)
    ensures r.Ok? || r.BodyFault?
    ensures r.header == header
    ensures r.Ok? <==> forall i | 0 <= i < |items| :: shape(items[i]).Ok?
    ensures r.Ok? ==> |r.body| == |items| && forall i | 0 <= i < |items| :: Result.Ok(r.body[i]) == shape(items[i])
    ensures r.BodyFault? ==>
      exists i | 0 <= i < |items| ::
        && shape(items[i]) == Err(r.fault)
        && forall j | 0 <= j < i :: shape(items[j]).Ok?
  {
    match Shaping.MapAll(items, shape)
    case Ok(body) => ListResponse.Ok(header, body)
    case Err(f) => BodyFault(header, f)
  }

  const Int32Min: int := -0x8000_0000
  const Int32Max: int := 0x7FFF_FFFF

  predicate IsInt32(x: int) {
    Int32Min <= x <= Int32Max
  }

  /** Unchecked 32-bit `int` arithmetic: the result modulo 2^32, read as signed. */
  function Wrap32(x: int): (r: int)
    ensures IsInt32(r)
    ensures IsInt32(x) ==> r == x
    ensures (x - r) % 0x1_0000_0000 == 0
  {
    (x - Int32Min) % 0x1_0000_0000 + Int32Min
  }

  /** The slice as compiled: `pageSize * (page - 1)` wraps around on 32 bits. */
  function PageSliceAsWritten<T>(s: seq<T>, page: int, pageSize: int): (r: seq<T>)
    requires IsInt32(page) && 1 <= pageSize <= Int32Max
    ensures |r| <= pageSize
    ensures IsInt32(page - 1) && IsInt32(pageSize * (page - 1)) ==> r == PageSlice(s, page, pageSize)
  {
    var skip := Wrap32(pageSize * Wrap32(page - 1));
    assert IsInt32(page - 1) && IsInt32(pageSize * (page - 1)) ==> skip == pageSize * (page - 1);
    Take(Skip(s, skip), pageSize)
  }

  /**
   * A page far past the end whose skip count overflows: page 429496730 of
   * 10 items skips 4294967290, which wraps to -6, so the first page comes
   * back where an empty page is due.
   */
  lemma OverflowReturnsFirstPage<T>(s: seq<T>)
    requires |s| == 20
    ensures PageSliceAsWritten(s, 429496730, 10) == s[..10]
    ensures PageSlice(s, 429496730, 10) == []
  {
    assert Wrap32(429496729) == 429496729;
    assert Wrap32(4294967290) == -6;
    assert TotalPages(20, 10) == 2;
  }
}
