/**
 * ExpenseTracker.API/Controllers/ExpenseGroupsController.cs: the list
 * `Get` action (`api/expensegroups`), which filters, counts, pages and
 * shapes expense groups.
 */
module ExpenseGroupsController {
  import opened Results
  import opened Text
  import opened ListOps
  import opened ListQuery
  import Shaping
  import Entities
  import ExpenseGroupFactory

  const MaxPageSize: int := 10
  const DefaultSort: string := "id"
  const DefaultPage: int := 1
  const DefaultPageSize: int := 5
  /** The route every pagination link of this action points to. */
  const RouteName: string := "ExpenseGroupsList"

  /**
   * The repository's two queries over all groups: without their expenses
   * loaded, and with them (`GetExpenseGroups`, `GetExpenseGroupsWithExpenses`).
   */
  datatype GroupQueries = GroupQueries(
    expenseGroups: seq<Entities.ExpenseGroup>,
    expenseGroupsWithExpenses: seq<Entities.ExpenseGroup>)

  /** The route values of a pagination link. */
  datatype LinkValues = LinkValues(
    page: int,
    pageSize: int,
    sort: string,
    status: Option<string>,
    userId: Option<string>,
    fields: Option<string>)

  /** The expenses are loaded when some requested name mentions them. */
  predicate IncludeExpenses(listOfFields: seq<string>) {
    exists i | 0 <= i < |listOfFields| :: Contains(listOfFields[i], "expenses")
  }

  /**
   * The controller loads the expenses exactly when the factory will find
   * expense fields to shape.
   */
  lemma IncludeExpensesAgrees(listOfFields: seq<string>)
    ensures IncludeExpenses(listOfFields) <==> |Filter(listOfFields, ExpenseGroupFactory.IsExpenseField)| > 0
  {
    var expenseFields := Filter(listOfFields, ExpenseGroupFactory.IsExpenseField);
    if |expenseFields| > 0 {
      assert expenseFields[0] in listOfFields;
    }
    assert forall i | 0 <= i < |listOfFields| ::
      Contains(listOfFields[i], "expenses") ==> listOfFields[i] in expenseFields;
  }

  /** The `switch` on the lower-cased status word; `-1` means "any status". */
  function StatusId(status: Option<string>): (r: int)
    ensures r == 1 <==> status.Some? && Lower(status.value) == "open"
    ensures r == 2 <==> status.Some? && Lower(status.value) == "confirmed"
    ensures r == 3 <==> status.Some? && Lower(status.value) == "processed"
    ensures r == -1 <==> status.None? || Lower(status.value) !in ["open", "confirmed", "processed"]
  {
    if status.None? then -1
    else
      var word := Lower(status.value);
      if word == "open" then 1
      else if word == "confirmed" then 2
      else if word == "processed" then 3
      else -1
  }

  /** The status word is matched ignoring case. */
  lemma StatusIgnoresCase()
    ensures StatusId(Some("Open")) == 1
    ensures StatusId(Some("CONFIRMED")) == 2
    ensures StatusId(Some("closed")) == -1
  {
    assert Lower("Open") == "open";
    assert Lower("CONFIRMED") == "confirmed";
    assert Lower("closed") == "closed";
  }

  /** A group passes both `Where` clauses: status id unless it is -1, user unless none is given. */
  predicate Matches(g: Entities.ExpenseGroup, statusId: int, userId: Option<string>): (b: bool)
    ensures statusId == -1 && userId.None? ==> b
    ensures b && statusId != -1 ==> g.expenseGroupStatusId == statusId
    ensures b && userId.Some? ==> g.userId == userId.value
  {
    && (statusId == -1 || g.expenseGroupStatusId == statusId)
    && (userId.None? || g.userId == userId.value)
  }

  /** The two `Where` clauses, in sequence order. */
  function FilterGroups(groups: seq<Entities.ExpenseGroup>, statusId: int, userId: Option<string>): (r: seq<Entities.ExpenseGroup>)
    ensures |r| <= |groups|
    ensures forall g :: g in r <==> g in groups && Matches(g, statusId, userId)
  {
    if |groups| == 0 then []
    else if Matches(groups[0], statusId, userId) then [groups[0]] + FilterGroups(groups[1..], statusId, userId)
    else FilterGroups(groups[1..], statusId, userId)
  }

  /**
   * The recursion is LINQ's `Where` with `Matches` as the condition, so it
   * inherits `Filter`'s properties.
   */
  lemma {:induction false} FilterGroupsIsWhere(
    groups: seq<Entities.ExpenseGroup>, statusId: int, userId: Option<string>,
    p: Entities.ExpenseGroup -> bool)
    requires forall g :: p(g) == Matches(g, statusId, userId)
    ensures FilterGroups(groups, statusId, userId) == Filter(groups, p)
  {
    if |groups| > 0 {
      FilterGroupsIsWhere(groups[1..], statusId, userId, p);
    }
  }

  /**
   * Filtering keeps the order of the sorted groups and keeps every copy of a
   * matching group: the matches of a concatenation are the matches of each
   * part in turn, and a matching group occurs as often as in the input.
   */
  lemma FilterGroupsKeepsOrder(
    a: seq<Entities.ExpenseGroup>, b: seq<Entities.ExpenseGroup>,
    statusId: int, userId: Option<string>, g: Entities.ExpenseGroup)
    ensures FilterGroups(a + b, statusId, userId) == FilterGroups(a, statusId, userId) + FilterGroups(b, statusId, userId)
    ensures multiset(FilterGroups(a, statusId, userId))[g] ==
      if Matches(g, statusId, userId) then multiset(a)[g] else 0
  {
    var p := (x: Entities.ExpenseGroup) => Matches(x, statusId, userId);
    FilterGroupsIsWhere(a + b, statusId, userId, p);
    FilterGroupsIsWhere(a, statusId, userId, p);
    FilterGroupsIsWhere(b, statusId, userId, p);
    FilterAppend(a, b, p);
    FilterCount(a, p, g);
  }

  /** With no status and no user given, nothing is filtered out and the order is kept. */
  lemma {:induction false} NoFilter(groups: seq<Entities.ExpenseGroup>)
    ensures FilterGroups(groups, StatusId(None), None) == groups
  {
    if |groups| > 0 {
      NoFilter(groups[1..]);
    }
  }

  /**
   * The list `Get`. `applySort` is `ApplySort` (`None` when it throws);
   * `link` is `UrlHelper.Link`. The shaping of each group is a deferred
   * `Select`: its failure surfaces as `BodyFault`, after the header is set.
   */
  function Get(
    queries: GroupQueries,
    applySort: (seq<Entities.ExpenseGroup>, string) -> Option<seq<Entities.ExpenseGroup>>,
    link: (string, LinkValues) -> string,
    sort: string, status: Option<string>, userId: Option<string>, fields: Option<string>,
    page: int, pageSize: int): (r: ListResponse<ExpenseGroupFactory.ShapedGroup>)
    requires pageSize >= 1
    ensures !r.NotFound?
    ensures var listOfFields := ParseFields(fields);
      var source := if IncludeExpenses(listOfFields) then queries.expenseGroupsWithExpenses else queries.expenseGroups;
      && (r.InternalServerError? <==> applySort(source, sort).None?)
      && (!r.InternalServerError? ==>
            var selected := FilterGroups(applySort(source, sort).value, StatusId(status), userId);
            var ps := ClampPageSize(pageSize, MaxPageSize);
            var items := PageSlice(selected, page, ps);
            && r.header.currentPage == page
            && r.header.pageSize == ps
            && r.header.totalCount == |selected|
            && r.header.totalPages == TotalPages(|selected|, ps)
            && r.header.previousPageLink ==
                 (if page > 1 then link(RouteName, LinkValues(page - 1, ps, sort, status, userId, fields)) else "")
            && r.header.nextPageLink ==
                 (if page < r.header.totalPages then link(RouteName, LinkValues(page + 1, ps, sort, status, userId, fields)) else "")
            && (r.Ok? <==> forall i | 0 <= i < |items| :: ExpenseGroupFactory.ShapeEntity(items[i], listOfFields).Ok?)
            && (r.Ok? ==>
                  && |r.body| == |items|
                  && forall i | 0 <= i < |items| :: Result.Ok(r.body[i]) == ExpenseGroupFactory.ShapeEntity(items[i], listOfFields))
            && (r.BodyFault? ==> FirstFault(items, listOfFields, r.fault)))
  {
    var listOfFields := ParseFields(fields);
    var includeExpenses := IncludeExpenses(listOfFields);
    var statusId := StatusId(status);
    var source := if includeExpenses then queries.expenseGroupsWithExpenses else queries.expenseGroups;
    match applySort(source, sort)
    case None => InternalServerError
    case Some(sorted) =>
      var selected := FilterGroups(sorted, statusId, userId);
      var ps := ClampPageSize(pageSize, MaxPageSize);
      var header := Header(link, page, ps, |selected|, sort, status, userId, fields);
      ShapePage(header, PageSlice(selected, page, ps), listOfFields)
  }

  /** Shaping the page fails first at some item, with `fault`: every item before it shapes. */
  predicate FirstFault(items: seq<Entities.ExpenseGroup>, listOfFields: seq<string>, fault: Shaping.Fault) {
    exists i | 0 <= i < |items| ::
      && ExpenseGroupFactory.ShapeEntity(items[i], listOfFields) == Err(fault)
      && forall j | 0 <= j < i :: ExpenseGroupFactory.ShapeEntity(items[j], listOfFields).Ok?
  }

  /** The `X-Pagination` header, its links built on this action's route. */
  function Header(
    link: (string, LinkValues) -> string,
    page: int, pageSize: int, totalCount: nat,
    sort: string, status: Option<string>, userId: Option<string>, fields: Option<string>): (m: PageMetadata)
    requires pageSize >= 1
    ensures m.currentPage == page && m.pageSize == pageSize && m.totalCount == totalCount
    ensures m.totalPages == TotalPages(totalCount, pageSize)
    ensures m.previousPageLink ==
      (if page > 1 then link(RouteName, LinkValues(page - 1, pageSize, sort, status, userId, fields)) else "")
    ensures m.nextPageLink ==
      (if page < m.totalPages then link(RouteName, LinkValues(page + 1, pageSize, sort, status, userId, fields)) else "")
  {
    BeforeLastPage(page, totalCount, pageSize);
    BuildMetadata(page, pageSize, totalCount, p => link(RouteName, LinkValues(p, pageSize, sort, status, userId, fields)))
  }

  /** `Ok(groups.Select(...))`: every group on the page shaped, or the first fault. */
  function ShapePage(header: PageMetadata, items: seq<Entities.ExpenseGroup>, listOfFields: seq<string>): (r: ListResponse<ExpenseGroupFactory.ShapedGroup>)
    ensures (r.Ok? || r.BodyFault?) && r.header == header
    ensures r.Ok? <==> forall i | 0 <= i < |items| :: ExpenseGroupFactory.ShapeEntity(items[i], listOfFields).Ok?
    ensures r.Ok? ==>
      && |r.body| == |items|
      && forall i | 0 <= i < |items| :: Result.Ok(r.body[i]) == ExpenseGroupFactory.ShapeEntity(items[i], listOfFields)
    ensures r.BodyFault? ==> FirstFault(items, listOfFields, r.fault)
  {
    Respond(header, items, g => ExpenseGroupFactory.ShapeEntity(g, listOfFields))
  }

  /** The query without expenses is never consulted when expenses are requested, and vice versa. */
  lemma OnlyChosenQuery(
    queries: GroupQueries, other: seq<Entities.ExpenseGroup>,
    applySort: (seq<Entities.ExpenseGroup>, string) -> Option<seq<Entities.ExpenseGroup>>,
    link: (string, LinkValues) -> string,
    sort: string, status: Option<string>, userId: Option<string>, fields: Option<string>,
    page: int, pageSize: int)
    requires pageSize >= 1
    ensures IncludeExpenses(ParseFields(fields)) ==>
      Get(queries.(expenseGroups := other), applySort, link, sort, status, userId, fields, page, pageSize) ==
      Get(queries, applySort, link, sort, status, userId, fields, page, pageSize)
    ensures !IncludeExpenses(ParseFields(fields)) ==>
      Get(queries.(expenseGroupsWithExpenses := other), applySort, link, sort, status, userId, fields, page, pageSize) ==
      Get(queries, applySort, link, sort, status, userId, fields, page, pageSize)
  {
  }

  /**
   * A page is never longer than 10 groups, and it is empty exactly when no
   * group matches or the page lies past the last one.
   */
  lemma PageBounds(
    queries: GroupQueries,
    applySort: (seq<Entities.ExpenseGroup>, string) -> Option<seq<Entities.ExpenseGroup>>,
    link: (string, LinkValues) -> string,
    sort: string, status: Option<string>, userId: Option<string>, fields: Option<string>,
    page: int, pageSize: int)
    requires pageSize >= 1
    requires Get(queries, applySort, link, sort, status, userId, fields, page, pageSize).Ok?
    ensures var r := Get(queries, applySort, link, sort, status, userId, fields, page, pageSize);
      && |r.body| <= MaxPageSize
      && |r.body| <= pageSize
      && (|r.body| == 0 <==> r.header.totalCount == 0 || page > r.header.totalPages)
  {
    var listOfFields := ParseFields(fields);
    var source := if IncludeExpenses(listOfFields) then queries.expenseGroupsWithExpenses else queries.expenseGroups;
    var selected := FilterGroups(applySort(source, sort).value, StatusId(status), userId);
    PageSliceSize(selected, page, ClampPageSize(pageSize, MaxPageSize));
  }

  /**
   * The action with every optional parameter left at its default: the first
   * five groups in sort order, all of them, each returned whole.
   */
  function GetWithDefaults(
    queries: GroupQueries,
    applySort: (seq<Entities.ExpenseGroup>, string) -> Option<seq<Entities.ExpenseGroup>>,
    link: (string, LinkValues) -> string): (r: ListResponse<ExpenseGroupFactory.ShapedGroup>)
    ensures applySort(queries.expenseGroups, DefaultSort).None? ==> r.InternalServerError?
    ensures applySort(queries.expenseGroups, DefaultSort).Some? ==>
      var sorted := applySort(queries.expenseGroups, DefaultSort).value;
      && r.Ok?
      && r.header.currentPage == 1
      && r.header.pageSize == 5
      && r.header.totalCount == |sorted|
      && r.header.previousPageLink == ""
      && |r.body| == Min(5, |sorted|)
      && forall i | 0 <= i < |r.body| :: r.body[i] == ExpenseGroupFactory.WholeGroup(ExpenseGroupFactory.ToDto(sorted[i]))
  {
    match applySort(queries.expenseGroups, DefaultSort)
    case None => Get(queries, applySort, link, DefaultSort, None, None, None, DefaultPage, DefaultPageSize)
    case Some(sorted) =>
      NoFilter(sorted);
      assert !IncludeExpenses(ParseFields(None));
      Get(queries, applySort, link, DefaultSort, None, None, None, DefaultPage, DefaultPageSize)
  }
}
