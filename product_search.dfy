/** allProducts and keySearch, which src/controllers/productController.ts and
    src/controllers/product.public.Controller.ts both implement with the same
    logic (they differ only in the name of the payload key for the rows).

    The ILIKE operator is a parameter: `ilike(value, keyword)` stands for
    `value ILIKE '%' || keyword || '%'`, whose case folding and wildcard
    rules are not part of this model. */
module ProductSearch {
  import opened Common
  import opened Schema
  import opened Pagination

  /** The page the query string asks for: at most pageSize rows, row i
      being row offset + i of `rows`; the page number as parsed; the count
      of all rows, and totalPages its ceiling over pageSize. */
  predicate IsPage(pg: Page<Product>, rows: seq<Product>, page: Option<int>, limit: Option<int>)
    requires PageSize(limit) >= 1
  {
    var offset := Offset(PageNumber(page), PageSize(limit));
    && pg.currentPage == PageNumber(page)
    && pg.totalCount == |rows|
    && |pg.rows| <= PageSize(limit)
    && |pg.rows| == (if offset >= |rows| then 0 else Min(PageSize(limit), |rows| - offset))
    && (forall i :: 0 <= i < |pg.rows| ==> 0 <= offset + i < |rows| && pg.rows[i] == rows[offset + i])
    && (pg.totalPages - 1) * PageSize(limit) < pg.totalCount <= pg.totalPages * PageSize(limit)
  }

  /** allProducts: one page of the products table, counted with COUNT(*). */
  function AllProducts(ps: seq<Product>, page: Option<int>, limit: Option<int>): (r: Response<Page<Product>>)
    ensures r.status == 200 <==> PageNumber(page) >= 1 && PageSize(limit) >= 1
    ensures r.status != 200 ==> r.status == 500 && r.data.None?
    ensures r.status == 200 ==> r.data.Some? && IsPage(r.data.value, ps, page, limit)
  {
    var r := Paginate(ps, page, limit);
    if r.status == 200 then PaginateWindow(ps, page, limit); r else r
  }

  /** `query.keyword || ""` */
  function Keyword(keyword: Option<string>): string {
    if Truthy(keyword) then keyword.value else ""
  }

  /** The WHERE clause of both keySearch queries: the keyword occurs in the
      title, the description, the seller's name, the status, or one of the
      categories or image URLs. A null description does not match. */
  predicate Matches(p: Product, keyword: string, ilike: (string, string) -> bool) {
    || ilike(p.title, keyword)
    || (p.description.Some? && ilike(p.description.value, keyword))
    || ilike(p.sellerName, keyword)
    || ilike(p.status, keyword)
    || (exists c :: c in p.category && ilike(c, keyword))
    || (exists img :: img in p.images && ilike(img, keyword))
  }

  function Matching(ps: seq<Product>, keyword: string, ilike: (string, string) -> bool): seq<Product> {
    Filter(ps, (p: Product) => Matches(p, keyword, ilike))
  }

  /** keySearch: the page query and the count query share one WHERE clause,
      so the page is a window of exactly the rows that are counted. */
  function KeySearch(ps: seq<Product>, keyword: Option<string>, page: Option<int>, limit: Option<int>,
                     ilike: (string, string) -> bool)
    : (r: Response<Page<Product>>)
    ensures r.status == 200 <==> PageNumber(page) >= 1 && PageSize(limit) >= 1
    ensures r.status != 200 ==> r.status == 500 && r.data.None?
    ensures r.status == 200 ==> r.data.Some? && IsPage(r.data.value, Matching(ps, Keyword(keyword), ilike), page, limit)
    ensures r.status == 200 ==> forall p :: p in r.data.value.rows ==> p in ps && Matches(p, Keyword(keyword), ilike)
  {
    var m := Matching(ps, Keyword(keyword), ilike);
    var r := Paginate(m, page, limit);
    if r.status == 200 then
      PaginateWindow(m, page, limit);
      assert forall i :: 0 <= i < |r.data.value.rows| ==> r.data.value.rows[i] in m;
      r
    else r
  }

  // ----------------------------------------------------------------------
  // Properties

  /** Every returned row is one of the counted rows, so a page never holds
      more rows than the count. */
  lemma KeySearchRowsCounted(ps: seq<Product>, keyword: Option<string>, page: Option<int>, limit: Option<int>,
                             ilike: (string, string) -> bool)
    requires KeySearch(ps, keyword, page, limit, ilike).status == 200
    ensures var p := KeySearch(ps, keyword, page, limit, ilike).data.value;
      && |p.rows| <= p.totalCount
      && forall i :: 0 <= i < |p.rows| ==>
           p.rows[i] == Matching(ps, Keyword(keyword), ilike)[Offset(PageNumber(page), PageSize(limit)) + i]
  {
    PaginateWindow(Matching(ps, Keyword(keyword), ilike), page, limit);
  }

  /** With no keyword the pattern is '%%', which every non-null value
      matches: keySearch then lists the same page as allProducts. */
  lemma EmptyKeywordListsAll(ps: seq<Product>, page: Option<int>, limit: Option<int>,
                             ilike: (string, string) -> bool)
    requires forall s :: ilike(s, "")
    ensures KeySearch(ps, None, page, limit, ilike) == AllProducts(ps, page, limit)
  {
    assert forall p :: p in ps ==> ilike(p.title, "");
    FilterAll(ps, (p: Product) => Matches(p, "", ilike));
  }

  /** A keyword no product matches gives an empty page and a count of 0. */
  lemma NoMatchNoRows(ps: seq<Product>, keyword: Option<string>, page: Option<int>, limit: Option<int>,
                      ilike: (string, string) -> bool)
    requires forall p :: p in ps ==> !Matches(p, Keyword(keyword), ilike)
    requires KeySearch(ps, keyword, page, limit, ilike).status == 200
    ensures KeySearch(ps, keyword, page, limit, ilike).data.value.rows == []
    ensures KeySearch(ps, keyword, page, limit, ilike).data.value.totalCount == 0
    ensures KeySearch(ps, keyword, page, limit, ilike).data.value.totalPages == 0
  {
    FilterNone(ps, (p: Product) => Matches(p, Keyword(keyword), ilike));
  }
}
