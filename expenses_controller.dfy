/**
 * ExpenseTracker.API/Controllers/ExpensesController.cs: the list `Get`
 * action (`api/expensegroups/{expenseGroupId}/expenses`), which pages and
 * shapes the expenses of one group.
 */
module ExpensesController {
  import opened Results
  import opened ListQuery
  import Shaping
  import Entities
  import ExpenseFactory

  const MaxPageSize: int := 2
  const DefaultSort: string := "date"
  const DefaultPage: int := 1
  const DefaultPageSize: int := MaxPageSize
  /** The route name the pagination links of this action are built with, as written. */
  const RouteName: string := "ExpenseGroupsList"

  /** The route values of a pagination link. */
  datatype LinkValues = LinkValues(
    page: int,
    pageSize: int,
    sort: string,
    fields: Option<string>)

  /**
   * The list `Get`. `getExpenses` is the repository's `GetExpenses` (`None`
   * for a null result), `applySort` is `ApplySort` (`None` when it throws),
   * `link` is `UrlHelper.Link`. The header is computed from the collection
   * before sorting; the page is cut from the sorted collection. Shaping each
   * expense is a deferred `Select`: its failure surfaces as `BodyFault`.
   */
  function Get(
    getExpenses: int -> Option<seq<Entities.Expense>>,
    applySort: (seq<Entities.Expense>, string) -> Option<seq<Entities.Expense>>,
    link: (string, LinkValues) -> string,
    expenseGroupId: int, sort: string, fields: Option<string>,
    page: int, pageSize: int): (r: ListResponse<ExpenseFactory.ShapedExpense>)
    requires pageSize >= 1
    ensures r.NotFound? <==> getExpenses(expenseGroupId).None?
    ensures getExpenses(expenseGroupId).Some? ==>
      var expenses := getExpenses(expenseGroupId).value;
      && (r.InternalServerError? <==> applySort(expenses, sort).None?)
      && (!r.InternalServerError? ==>
            var ps := ClampPageSize(pageSize, MaxPageSize);
            var items := PageSlice(applySort(expenses, sort).value, page, ps);
            var listOfFields := ParseFields(fields);
            && r.header.currentPage == page
            && r.header.pageSize == ps
            && r.header.totalCount == |expenses|
            && r.header.totalPages == TotalPages(|expenses|, ps)
            && r.header.previousPageLink ==
                 (if page > 1 then link(RouteName, LinkValues(page - 1, ps, sort, fields)) else "")
            && r.header.nextPageLink ==
                 (if page < r.header.totalPages then link(RouteName, LinkValues(page + 1, ps, sort, fields)) else "")
            && (r.Ok? <==> forall i | 0 <= i < |items| :: ExpenseFactory.ShapeEntity(items[i], listOfFields).Ok?)
            && (r.Ok? ==>
                  && |r.body| == |items|
                  && forall i | 0 <= i < |items| :: Result.Ok(r.body[i]) == ExpenseFactory.ShapeEntity(items[i], listOfFields))
            && (r.BodyFault? ==> FirstFault(items, listOfFields, r.fault)))
  {
    var listOfFields := ParseFields(fields);
    match getExpenses(expenseGroupId)
    case None => NotFound
    case Some(expenses) =>
      var ps := ClampPageSize(pageSize, MaxPageSize);
      var header := Header(link, page, ps, |expenses|, sort, fields);
      match applySort(expenses, sort)
      case None => InternalServerError
      case Some(sorted) => ShapePage(header, PageSlice(sorted, page, ps), listOfFields)
  }

  /** Shaping the page fails first at some item, with `fault`: every item before it shapes. */
  predicate FirstFault(items: seq<Entities.Expense>, listOfFields: seq<string>, fault: Shaping.Fault) {
    exists i | 0 <= i < |items| ::
      && ExpenseFactory.ShapeEntity(items[i], listOfFields) == Err(fault)
      && forall j | 0 <= j < i :: ExpenseFactory.ShapeEntity(items[j], listOfFields).Ok?
  }

  /** The `X-Pagination` header, its links built on the route this action names. */
  function Header(
    link: (string, LinkValues) -> string,
    page: int, pageSize: int, totalCount: nat, sort: string, fields: Option<string>): (m: PageMetadata)
    requires pageSize >= 1
    ensures m.currentPage == page && m.pageSize == pageSize && m.totalCount == totalCount
    ensures m.totalPages == TotalPages(totalCount, pageSize)
    ensures m.previousPageLink ==
      (if page > 1 then link(RouteName, LinkValues(page - 1, pageSize, sort, fields)) else "")
    ensures m.nextPageLink ==
      (if page < m.totalPages then link(RouteName, LinkValues(page + 1, pageSize, sort, fields)) else "")
  {
    BeforeLastPage(page, totalCount, pageSize);
    BuildMetadata(page, pageSize, totalCount, p => link(RouteName, LinkValues(p, pageSize, sort, fields)))
  }

  /** `Ok(expenses.Select(...))`: every expense on the page shaped, or the first fault. */
  function ShapePage(header: PageMetadata, items: seq<Entities.Expense>, listOfFields: seq<string>): (r: ListResponse<ExpenseFactory.ShapedExpense>)
    ensures (r.Ok? || r.BodyFault?) && r.header == header
    ensures r.Ok? <==> forall i | 0 <= i < |items| :: ExpenseFactory.ShapeEntity(items[i], listOfFields).Ok?
    ensures r.Ok? ==>
      && |r.body| == |items|
      && forall i | 0 <= i < |items| :: Result.Ok(r.body[i]) == ExpenseFactory.ShapeEntity(items[i], listOfFields)
    ensures r.BodyFault? ==> FirstFault(items, listOfFields, r.fault)
  {
    Respond(header, items, e => ExpenseFactory.ShapeEntity(e, listOfFields))
  }

  /**
   * When sorting keeps every expense, a page holds at most two expenses and
   * is empty exactly when there are none or the page lies past the last one.
   */
  lemma PageBounds(
    getExpenses: int -> Option<seq<Entities.Expense>>,
    applySort: (seq<Entities.Expense>, string) -> Option<seq<Entities.Expense>>,
    link: (string, LinkValues) -> string,
    expenseGroupId: int, sort: string, fields: Option<string>,
    page: int, pageSize: int)
    requires pageSize >= 1
    requires getExpenses(expenseGroupId).Some?
    requires applySort(getExpenses(expenseGroupId).value, sort).Some?
    requires |applySort(getExpenses(expenseGroupId).value, sort).value| == |getExpenses(expenseGroupId).value|
    requires Get(getExpenses, applySort, link, expenseGroupId, sort, fields, page, pageSize).Ok?
    ensures var r := Get(getExpenses, applySort, link, expenseGroupId, sort, fields, page, pageSize);
      && |r.body| <= MaxPageSize
      && (|r.body| == 0 <==> r.header.totalCount == 0 || page > r.header.totalPages)
  {
    var sorted := applySort(getExpenses(expenseGroupId).value, sort).value;
    PageSliceSize(sorted, page, ClampPageSize(pageSize, MaxPageSize));
  }

  /** Without `fields`, every expense on the page is returned whole. */
  lemma NoFieldsWhole(
    getExpenses: int -> Option<seq<Entities.Expense>>,
    applySort: (seq<Entities.Expense>, string) -> Option<seq<Entities.Expense>>,
    link: (string, LinkValues) -> string,
    expenseGroupId: int, sort: string, page: int, pageSize: int)
    requires pageSize >= 1
    requires getExpenses(expenseGroupId).Some?
    requires applySort(getExpenses(expenseGroupId).value, sort).Some?
    ensures var r := Get(getExpenses, applySort, link, expenseGroupId, sort, None, page, pageSize);
      var items := PageSlice(applySort(getExpenses(expenseGroupId).value, sort).value, page, ClampPageSize(pageSize, MaxPageSize));
      && r.Ok?
      && |r.body| == |items|
      && forall i | 0 <= i < |items| :: r.body[i] == ExpenseFactory.WholeExpense(ExpenseFactory.ToDto(items[i]))
  {
  }

  /**
   * The action with every optional parameter left at its default: the first
   * two expenses in date order, each returned whole.
   */
  function GetWithDefaults(
    getExpenses: int -> Option<seq<Entities.Expense>>,
    applySort: (seq<Entities.Expense>, string) -> Option<seq<Entities.Expense>>,
    link: (string, LinkValues) -> string,
    expenseGroupId: int): (r: ListResponse<ExpenseFactory.ShapedExpense>)
    ensures getExpenses(expenseGroupId).Some? && applySort(getExpenses(expenseGroupId).value, DefaultSort).Some? ==>
      var sorted := applySort(getExpenses(expenseGroupId).value, DefaultSort).value;
      && r.Ok?
      && r.header.currentPage == 1
      && r.header.pageSize == 2
      && r.header.previousPageLink == ""
      && |r.body| == Min(2, |sorted|)
      && forall i | 0 <= i < |r.body| :: r.body[i] == ExpenseFactory.WholeExpense(ExpenseFactory.ToDto(sorted[i]))
  {
    Get(getExpenses, applySort, link, expenseGroupId, DefaultSort, None, DefaultPage, DefaultPageSize)
  }
}
