# ExpenseTracker response shaping and pagination, in Dafny

This project models the part of the ExpenseTracker web API that decides
what a list request returns:

- **Field-subset shaping.** `ExpenseFactory.CreateDataShapedObject` and
  `ExpenseGroupFactory.CreateDataShapedObject` cut a DTO down to the
  requested fields. The group version also shapes each of the group's
  expenses. It breaks the tie between the bare name `expenses` and dotted
  sub-fields such as `expenses.amount`.
- **Entity/DTO mappers.** `CreateExpense` and `CreateExpenseGroup`, both
  directions.
- **The two list `Get` actions.** `ExpenseGroupsController.Get` and
  `ExpensesController.Get` parse `fields`, map the status word, filter,
  clamp the page size, build the `X-Pagination` header with its
  previous/next links, cut the page and shape every item on it.

Reflection and `ExpandoObject` are replaced by two things:

- a field table per DTO type, keyed by the lower-cased property name;
- an ordered list of `(key, value)` entries, filled one `Add` at a time.

Exceptions become `Result` values. A `Fault` says which exception it was:
an unknown property (a null reference from `GetProperty`), a duplicate
`Add`, or a `foreach` over a null list.

Files:

- `results.dfy`: `Option` and `Result`.
- `text.dfy`: `ToLower`, `Contains`, `IndexOf`/`Substring` and `Split`.
- `listops.dfy`: LINQ `Where`/`Select`/`Skip`/`Take`, `List.Remove` and
  `RemoveRange`.
- `entities.dfy`: the entities and the DTOs.
- `shaping.dfy`: the shared `foreach`-and-`Add` loop and its reference
  function.
- `expense_factory.dfy`, `expense_group_factory.dfy`: the two factories.
- `listquery.dfy`: paging arithmetic shared by both actions.
- `expense_groups_controller.dfy`, `expenses_controller.dfy`: the two
  actions.

The two `CreateDataShapedObject` overloads on DTOs are methods with loops.
Each is proved equal to a reference function (`Shape`), and the lemmas
state what that function promises. The mappers and the controller actions
are functions, as in the source.

The model follows the code in these places, which a reader may not
expect:

- Names are split on `,` without trimming or de-duplication.
- A name counts as an expense name when it *contains* `expenses`.
- The `expenses` key comes last only in partial mode. A bare `expenses`
  keeps its requested position and carries the full list.
- An unknown or repeated name that does not contain `expenses` is a
  failure, not a dropped name. Names that contain `expenses` are different.
  When the full list is returned, the extra expense names are removed
  before the lookup, so a second `expenses` or an unknown `expenses.x` is
  dropped. In partial mode an unknown sub-field fails only a group that has
  at least one expense.
- A page below 1 is not rejected: `Skip` is given a negative count. The
  model gives `Skip` its in-memory meaning, where a negative count skips
  nothing, so such a page is the first page. In the application `Skip` runs
  on the Entity Framework query, and the database provider decides what a
  negative count does.
- Both actions return `Ok(...)` around a deferred `Select`. A shaping
  failure therefore happens while the body is serialised, after the
  header is written and outside the action's `try`/`catch`. The model
  reports it as `ListResponse.BodyFault`, not as `InternalServerError`.
  Only a failure inside the action (`ApplySort` throwing) gives
  `InternalServerError`.

Some properties of widely used functions are stated as separate lemmas
rather than as `ensures` clauses. Examples are the character-by-character
meaning of `Lower` and the order and multiplicity kept by `Filter`. Keeping
them out of the function's contract keeps every caller's proof small.

## Model

| member | source | states |
|---|---|---|
| Text.Lower | ExpenseTracker.API/Controllers/ExpenseGroupsController.cs:46 | lower-casing keeps the length and leaves no upper-case letter; `LowerEachChar` gives each character |
| Text.LowerChar | ExpenseTracker.API/Controllers/ExpenseGroupsController.cs:53 | an upper-case ASCII letter becomes its lower-case letter; every other character is kept |
| Text.LowerEachChar | ExpenseTracker.API/Controllers/ExpenseGroupsController.cs:46 | lower-casing works character by character: each position of the result is the lower-cased input character at that position |
| Text.ContainsAnywhere | ExpenseTracker.Repository/Factories/ExpenseGroupFactory.cs:58 | `Contains` holds when the word occurs at any position of the name, and never when the name is shorter than the word |
| Text.ContainsExamples | ExpenseTracker.Repository/Factories/ExpenseGroupFactory.cs:58 | the word need not start the name (`myexpenses` contains `expenses`), and the match is case-sensitive (`Expenses` does not) |
| Text.IndexOf | ExpenseTracker.Repository/Factories/ExpenseGroupFactory.cs:69 | -1 exactly when the character is absent, otherwise its first position |
| Text.AfterFirstDot | ExpenseTracker.Repository/Factories/ExpenseGroupFactory.cs:69 | a name without a dot is kept whole; otherwise the result is what follows the first dot |
| Text.Split | ExpenseTracker.API/Controllers/ExpenseGroupsController.cs:46 | at least one token, none containing the separator, and joining them gives the input back |
| Text.SplitJoin | ExpenseTracker.API/Controllers/ExpenseGroupsController.cs:46 | splitting separator-free tokens joined by the separator gives the tokens back |
| ListOps.Filter | ExpenseTracker.Repository/Factories/ExpenseGroupFactory.cs:58 | `Where` keeps only elements that satisfy the predicate, and every element that does; order and multiplicity are stated by `FilterAppend` and `FilterCount` |
| ListOps.Reject | ExpenseTracker.Repository/Factories/ExpenseGroupFactory.cs:68 | the elements kept are exactly the input elements that do not satisfy the predicate |
| ListOps.FilterAppend | ExpenseTracker.Repository/Factories/ExpenseGroupFactory.cs:58 | `Where` keeps relative order: the result for a concatenation is the result for each part, in turn |
| ListOps.RejectAppend | ExpenseTracker.Repository/Factories/ExpenseGroupFactory.cs:68 | the rejected elements of a concatenation are those of each part, in turn |
| ListOps.FilterRejectPartition | ExpenseTracker.Repository/Factories/ExpenseGroupFactory.cs:58 | every element goes to exactly one of the kept and the rejected lists, as often as it occurs |
| ListOps.FilterCount | ExpenseTracker.Repository/Factories/ExpenseGroupFactory.cs:58 | an element satisfying the predicate is kept as often as it occurs in the input, and any other element not at all; the rejected list the reverse |
| ListOps.Map | ExpenseTracker.Repository/Factories/ExpenseGroupFactory.cs:69 | `Select` keeps the length and maps element by element |
| ListOps.RemoveFirst | ExpenseTracker.Repository/Factories/ExpenseGroupFactory.cs:76 | `List.Remove` takes away one occurrence of the value and nothing else |
| ListOps.RemoveRangeCount | ExpenseTracker.Repository/Factories/ExpenseGroupFactory.cs:68 | `RemoveRange` takes away one occurrence per listed item where there is one, and nothing else |
| ListOps.RemoveRangeIsDropFirsts | ExpenseTracker.Repository/Factories/ExpenseGroupFactory.cs:77 | `RemoveRange` removes, for every value, as many leading occurrences as the range lists, in any order |
| ListOps.DropFiltered | ExpenseTracker.Repository/Factories/ExpenseGroupFactory.cs:68 | removing every element that satisfies the predicate leaves the others, in order |
| ListOps.DropFilteredButOne | ExpenseTracker.Repository/Factories/ExpenseGroupFactory.cs:76-77 | removing all expense names but one `expenses` drops the earlier copies and keeps the last in place |
| ListOps.Skip | ExpenseTracker.API/Controllers/ExpenseGroupsController.cs:129 | a non-positive count skips nothing; a count past the end leaves nothing |
| ListOps.Take | ExpenseTracker.API/Controllers/ExpenseGroupsController.cs:130 | a non-positive count takes nothing; a count past the end takes everything |
| Shaping.BuildBag | ExpenseTracker.Repository/Factories/ExpenseFactory.cs:54-61 | succeeds exactly when every name is a property ignoring case and no name repeats; keys are the names as written, in order, each valued by its property; an unknown or repeated name is reported |
| Shaping.BagFailureStands | ExpenseTracker.Repository/Factories/ExpenseFactory.cs:54-61 | the first failing `Add` or lookup ends the loop with that failure |
| Shaping.BagFailureIgnoresValues | ExpenseTracker.Repository/Factories/ExpenseFactory.cs:56-60 | whether and how the loop fails depends on the property names only |
| Shaping.FillBag | ExpenseTracker.Repository/Factories/ExpenseFactory.cs:53-61 | the `foreach`/`Add` loop computes `BuildBag` |
| Shaping.MapAll | ExpenseTracker.Repository/Factories/ExpenseGroupFactory.cs:100-103 | shaping a list succeeds exactly when every element does, element by element; otherwise the earliest failure is returned |
| Shaping.MapFailureStands | ExpenseTracker.Repository/Factories/ExpenseGroupFactory.cs:100-103 | a failing child ends the loop with that failure |
| ExpenseFactory.EntityRoundTrip | ExpenseTracker.Repository/Factories/ExpenseFactory.cs:12-36 | entity to DTO and back is the identity |
| ExpenseFactory.ToDto | ExpenseTracker.Repository/Factories/ExpenseFactory.cs:12-22 | the DTO copies the amount, date, description, group id and id of the entity |
| ExpenseFactory.ToEntity | ExpenseTracker.Repository/Factories/ExpenseFactory.cs:26-36 | the entity copies the amount, date, description, group id and id of the DTO |
| ExpenseFactory.DtoRoundTrip | ExpenseTracker.Repository/Factories/ExpenseFactory.cs:12-36 | DTO to entity and back is the identity |
| ExpenseFactory.Fields | ExpenseTracker.Repository/Factories/ExpenseFactory.cs:56-58 | the lookup table holds exactly the five `DTO.Expense` properties |
| ExpenseFactory.Shape | ExpenseTracker.Repository/Factories/ExpenseFactory.cs:45-63 | no names gives the DTO unchanged; otherwise success exactly when all names resolve and are distinct, and then the keys are the names in order, each valued by its property |
| ExpenseFactory.ShapeEntity | ExpenseTracker.Repository/Factories/ExpenseFactory.cs:38-42 | shaping an entity with no names gives its DTO; otherwise its keys are the requested names |
| ExpenseFactory.ShapeEntityOfDto | ExpenseTracker.Repository/Factories/ExpenseFactory.cs:38-42 | shaping an entity equals shaping the DTO it maps to |
| ExpenseFactory.FailureIgnoresValues | ExpenseTracker.Repository/Factories/ExpenseFactory.cs:56-60 | a failure depends on the names, not on the expense's values |
| ExpenseFactory.CreateDataShapedObject | ExpenseTracker.Repository/Factories/ExpenseFactory.cs:45-63 | the method computes `Shape` |
| ExpenseFactory.ShapeAmountOnly | ExpenseTracker.Repository/Factories/ExpenseFactory.cs:54-61 | asking for `amount` gives exactly one `amount` entry |
| ExpenseFactory.ShapeIgnoresCase | ExpenseTracker.Repository/Factories/ExpenseFactory.cs:57 | `ID` and `Description` match ignoring case and keep the requested spelling as keys |
| ExpenseFactory.ShapeUnknownFails | ExpenseTracker.Repository/Factories/ExpenseFactory.cs:56-58 | an unknown name (`cost`) fails |
| ExpenseFactory.ShapeDuplicateFails | ExpenseTracker.Repository/Factories/ExpenseFactory.cs:60 | a repeated name fails on the second `Add` |
| ExpenseGroupFactory.ToEntity | ExpenseTracker.Repository/Factories/ExpenseGroupFactory.cs:19-30 | a null expense list becomes an empty list; otherwise it is mapped element by element |
| ExpenseGroupFactory.ToDto | ExpenseTracker.Repository/Factories/ExpenseGroupFactory.cs:33-44 | the expense list is present, as long as the entity's, and mapped element by element |
| ExpenseGroupFactory.EntityRoundTrip | ExpenseTracker.Repository/Factories/ExpenseGroupFactory.cs:19-44 | entity to DTO and back is the identity |
| ExpenseGroupFactory.DtoRoundTrip | ExpenseTracker.Repository/Factories/ExpenseGroupFactory.cs:19-44 | DTO to entity and back is the identity, except that a null list comes back empty |
| ExpenseGroupFactory.Fields | ExpenseTracker.Repository/Factories/ExpenseGroupFactory.cs:89-91 | the lookup table holds exactly the six `DTO.ExpenseGroup` properties; `expenses` gives the full list |
| ExpenseGroupFactory.IsExpenseField | ExpenseTracker.Repository/Factories/ExpenseGroupFactory.cs:58 | an expense name is at least as long as `expenses`, and every name that starts with `expenses` is one |
| ExpenseGroupFactory.SelectFields | ExpenseTracker.Repository/Factories/ExpenseGroupFactory.cs:57-78 | partial mode shapes the children with one name per expense name; otherwise no child names are kept |
| ExpenseGroupFactory.SelectFieldsPlain | ExpenseTracker.Repository/Factories/ExpenseGroupFactory.cs:64-78 | the names left for the group come from the requested ones, none more often than requested; in partial mode none is an expense name, and otherwise only `expenses` itself can be |
| ExpenseGroupFactory.PartialIff | ExpenseTracker.Repository/Factories/ExpenseGroupFactory.cs:58-62 | partial mode holds exactly when some name contains `expenses` and no name is exactly `expenses` |
| ExpenseGroupFactory.PartialSelection | ExpenseTracker.Repository/Factories/ExpenseGroupFactory.cs:64-70 | in partial mode every expense name leaves the list, and each child is shaped with those names cut after their first dot |
| ExpenseGroupFactory.FullSelection | ExpenseTracker.Repository/Factories/ExpenseGroupFactory.cs:71-78 | otherwise every expense name leaves the list except the last `expenses`, which keeps its place |
| ExpenseGroupFactory.ShapeChildren | ExpenseTracker.Repository/Factories/ExpenseGroupFactory.cs:99-103 | when it succeeds, there is one shaped child per expense, each shaped by the expense factory with the same names |
| ExpenseGroupFactory.ShapeEach | ExpenseTracker.Repository/Factories/ExpenseGroupFactory.cs:99-103 | the `foreach` over the expenses computes `ShapeChildren` |
| ExpenseGroupFactory.Shape | ExpenseTracker.Repository/Factories/ExpenseGroupFactory.cs:51-107 | no names gives the DTO unchanged; otherwise the result is a key/value list |
| ExpenseGroupFactory.ShapeSelected | ExpenseTracker.Repository/Factories/ExpenseGroupFactory.cs:83-105 | a successful result is a key/value list |
| ExpenseGroupFactory.AppendChildren | ExpenseTracker.Repository/Factories/ExpenseGroupFactory.cs:96-105 | on success the list is present and every expense shapes, and `expenses` is appended last with the shaped children; with the list present it never fails on a null collection |
| ExpenseGroupFactory.SelectedPartialShape | ExpenseTracker.Repository/Factories/ExpenseGroupFactory.cs:84-105 | a partial selection yields its names, each valued by the property it names, then `expenses` holding the shaped children |
| ExpenseGroupFactory.PartialShape | ExpenseTracker.Repository/Factories/ExpenseGroupFactory.cs:64-105 | partial mode: the keys are the names without `expenses`, in order, each valued by the property it names, then one final `expenses` holding each expense shaped with the sub-field names |
| ExpenseGroupFactory.SelectedFullShape | ExpenseTracker.Repository/Factories/ExpenseGroupFactory.cs:83-94 | a selection that is not partial yields its names as keys, in order, each valued by the property it names |
| ExpenseGroupFactory.FullShape | ExpenseTracker.Repository/Factories/ExpenseGroupFactory.cs:71-94 | otherwise: the keys are the names left by the tie-break, each valued by its property; `expenses` carries the full list |
| ExpenseGroupFactory.ShapeSucceeds | ExpenseTracker.Repository/Factories/ExpenseGroupFactory.cs:84-105 | shaping succeeds exactly when the remaining names resolve and are distinct and, in partial mode, the list is present and every expense shapes |
| ExpenseGroupFactory.NoNullCollection | ExpenseTracker.Repository/Factories/ExpenseGroupFactory.cs:100 | with the list present, shaping never fails on a null collection |
| ExpenseGroupFactory.ShapeEntity | ExpenseTracker.Repository/Factories/ExpenseGroupFactory.cs:46-49 | shaping an entity with no names gives its DTO, and it never fails on a null collection |
| ExpenseGroupFactory.CreateDataShapedObject | ExpenseTracker.Repository/Factories/ExpenseGroupFactory.cs:51-107 | the method, with its list surgery and both loops, computes `Shape` |
| ExpenseGroupFactory.FullListWins | ExpenseTracker.Repository/Factories/ExpenseGroupFactory.cs:71-78 | `expenses` together with `expenses.amount` returns the full list under `expenses` and drops the sub-field |
| ExpenseGroupFactory.TitleWithAmountsSelection | ExpenseTracker.Repository/Factories/ExpenseGroupFactory.cs:58-70 | `title,expenses.amount` selects `title` for the group and `amount` for each expense |
| ExpenseGroupFactory.TitleWithAmounts | ExpenseTracker.Repository/Factories/ExpenseGroupFactory.cs:64-105 | `title,expenses.amount` gives the title, then `expenses` holding each expense cut down to its amount |
| ListQuery.ParseFields | ExpenseTracker.API/Controllers/ExpenseGroupsController.cs:43-47 | null gives no names; otherwise the names, joined by commas, are the lower-cased parameter, and none contains a comma |
| ListQuery.ParseJoined | ExpenseTracker.API/Controllers/ExpenseGroupsController.cs:46 | lower-case, comma-free names joined by commas are read back exactly, duplicates and empty names kept |
| ListQuery.ParseEmptyString | ExpenseTracker.API/Controllers/ExpenseGroupsController.cs:46 | an empty parameter is one empty name |
| ListQuery.ParseKeepsSpaces | ExpenseTracker.API/Controllers/ExpenseGroupsController.cs:46 | names are not trimmed |
| ListQuery.ClampPageSize | ExpenseTracker.API/Controllers/ExpenseGroupsController.cs:81 | the result is the smaller of the requested size and the maximum |
| ListQuery.TotalPagesBounds | ExpenseTracker.API/Controllers/ExpenseGroupsController.cs:85 | the page count is the ceiling of count over page size: the last page is neither empty nor overfull |
| ListQuery.BeforeLastPage | ExpenseTracker.API/Controllers/ExpenseGroupsController.cs:100 | a page is before the last exactly when items remain after it |
| ListQuery.BuildMetadata | ExpenseTracker.API/Controllers/ExpenseGroupsController.cs:84-120 | the header carries the page, size and count, the ceiling page count, a previous link when `page > 1` and a next link when items remain |
| ListQuery.LinksPresent | ExpenseTracker.API/Controllers/ExpenseGroupsController.cs:88-110 | with a link builder that never returns `""`, the previous link is present exactly when `page > 1`, the next exactly when `page < totalPages` |
| ListQuery.PageSlice | ExpenseTracker.API/Controllers/ExpenseGroupsController.cs:129-130 | the page is the stretch of at most `pageSize` items starting at `pageSize * (page - 1)`; a page below 1 is the first page |
| ListQuery.PageSliceSize | ExpenseTracker.API/Controllers/ExpenseGroupsController.cs:84-130 | a page is empty exactly when there are no items or it lies past the last page; every page before the last is full, and the last holds the rest |
| ListQuery.PagesPrefix | ExpenseTracker.API/Controllers/ExpenseGroupsController.cs:129-130 | pages 1 to n, in order, are the first `n * pageSize` items |
| ListQuery.PagesCover | ExpenseTracker.API/Controllers/ExpenseGroupsController.cs:129-130 | pages 1 to `totalPages`, in order, are the whole collection |
| ListQuery.PastLastPage | ExpenseTracker.API/Controllers/ExpenseGroupsController.cs:88-130 | the page after the last is empty, has no next link and links back to the last page |
| ListQuery.SevenItemsFirstPage | ExpenseTracker.API/Controllers/ExpenseGroupsController.cs:84-130 | 7 items, page 1 of 5: the first five items, two pages, no previous link, a link to page 2 |
| ListQuery.Respond | ExpenseTracker.API/Controllers/ExpenseGroupsController.cs:127-132 | `Ok` with the header and every item shaped, in order, exactly when every item shapes; otherwise a body fault with the earliest failure |
| ListQuery.Wrap32 | ExpenseTracker.API/Controllers/ExpenseGroupsController.cs:129 | 32-bit wrap-around: the result is a 32-bit value congruent to the input, and 32-bit inputs are unchanged |
| ListQuery.PageSliceAsWritten | ExpenseTracker.API/Controllers/ExpenseGroupsController.cs:129-130 | the slice with the skip count wrapped to 32 bits agrees with `PageSlice` while the product fits |
| ListQuery.OverflowReturnsFirstPage | ExpenseTracker.API/Controllers/ExpenseGroupsController.cs:129 | page 429496730 of size 10 over 20 items returns the first ten items as written, where the intended page is empty |
| ExpenseGroupsController.StatusId | ExpenseTracker.API/Controllers/ExpenseGroupsController.cs:50-65 | `open`, `confirmed` and `processed`, in any case, give 1, 2 and 3; null or any other word gives -1 |
| ExpenseGroupsController.StatusIgnoresCase | ExpenseTracker.API/Controllers/ExpenseGroupsController.cs:53 | `Open` gives 1, `CONFIRMED` gives 2, `closed` gives -1 |
| ExpenseGroupsController.IncludeExpensesAgrees | ExpenseTracker.API/Controllers/ExpenseGroupsController.cs:47 | the expenses are loaded exactly when the group factory will find an expense name to shape |
| ExpenseGroupsController.Matches | ExpenseTracker.API/Controllers/ExpenseGroupsController.cs:78-79 | with no status and no user every group passes; a passing group has the requested status id and user, when given |
| ExpenseGroupsController.FilterGroups | ExpenseTracker.API/Controllers/ExpenseGroupsController.cs:78-79 | keeps exactly the groups with the status id (unless -1) and the user (unless none is given); order and multiplicity are stated by `FilterGroupsKeepsOrder` |
| ExpenseGroupsController.FilterGroupsIsWhere | ExpenseTracker.API/Controllers/ExpenseGroupsController.cs:78-79 | the two `Where` clauses are one `Where` with `Matches` as the condition |
| ExpenseGroupsController.FilterGroupsKeepsOrder | ExpenseTracker.API/Controllers/ExpenseGroupsController.cs:76-79 | the groups kept stay in sort order: the kept groups of a concatenation are those of each part, in turn; a matching group is kept as often as it occurs |
| ExpenseGroupsController.NoFilter | ExpenseTracker.API/Controllers/ExpenseGroupsController.cs:78-79 | with no status and no user, every group is kept, in order |
| ExpenseGroupsController.Get | ExpenseTracker.API/Controllers/ExpenseGroupsController.cs:37-139 | a sort failure gives InternalServerError; otherwise the header holds the page, the clamped size, the filtered count, the page count and the links, and the body is each group on the page shaped with the parsed names, or the first shaping failure, every group before it shaping |
| ExpenseGroupsController.Header | ExpenseTracker.API/Controllers/ExpenseGroupsController.cs:84-120 | the header holds the page, size and count, the ceiling page count, and links to this route for the previous page when `page > 1` and the next when `page < totalPages` |
| ExpenseGroupsController.ShapePage | ExpenseTracker.API/Controllers/ExpenseGroupsController.cs:127-132 | every group on the page shaped, in order, or the first shaping failure, every group before it shaping |
| ExpenseGroupsController.OnlyChosenQuery | ExpenseTracker.API/Controllers/ExpenseGroupsController.cs:67-73 | the answer depends only on the query that `includeExpenses` picks |
| ExpenseGroupsController.PageBounds | ExpenseTracker.API/Controllers/ExpenseGroupsController.cs:81-132 | a page holds at most 10 groups and no more than requested, and is empty exactly when nothing matches or the page is past the last |
| ExpenseGroupsController.GetWithDefaults | ExpenseTracker.API/Controllers/ExpenseGroupsController.cs:37-38 | the default request returns page 1 of size 5 with every group counted and at most the first five groups, whole |
| ExpensesController.Get | ExpenseTracker.API/Controllers/ExpensesController.cs:167-235 | a null collection gives NotFound; the header counts the unsorted collection with the size clamped to 2; a sort failure gives InternalServerError; the body is each expense on the page of the sorted collection shaped with the parsed names, or the first shaping failure, every expense before it shaping |
| ExpensesController.Header | ExpenseTracker.API/Controllers/ExpensesController.cs:182-217 | the header holds the page, size and count, the ceiling page count, and links built on the route name as written for the previous page when `page > 1` and the next when `page < totalPages` |
| ExpensesController.ShapePage | ExpenseTracker.API/Controllers/ExpensesController.cs:224-229 | every expense on the page shaped, in order, or the first shaping failure, every expense before it shaping |
| ExpensesController.PageBounds | ExpenseTracker.API/Controllers/ExpensesController.cs:182-229 | when sorting keeps every expense, a page holds at most two and is empty exactly when there are none or the page is past the last |
| ExpensesController.NoFieldsWhole | ExpenseTracker.API/Controllers/ExpensesController.cs:224-229 | without `fields`, every expense on the page is returned whole |
| ExpensesController.GetWithDefaults | ExpenseTracker.API/Controllers/ExpensesController.cs:167-168 | the default request returns page 1 of size 2 holding at most the first two expenses in sort order, whole |

## Left out

- Text.Lower: folds only the ASCII letters A to Z. `string.ToLower` under the current culture also folds other letters.
- Property sets: each DTO's properties are the ones its mappers copy. The DTO classes themselves are not part of this model.
- ListOps.RemoveRange: the `RemoveRange(List)` helper is not part of this model. It is taken to call `List.Remove` once per listed item.
- Sorting: `ApplySort` is not part of this model. It is a parameter that returns the sorted collection, or `None` when it throws. No property of the ordering is assumed.
- Links: `UrlHelper.Link` is a parameter from a route name and route values to a string. The expense list's links use the route name `ExpenseGroupsList`, as written.
- Repository access (`GetExpenseGroups`, `GetExpenseGroupsWithExpenses`, `GetExpenses`) is a parameter, and EF's deferred `IQueryable` execution is not modelled.
- HTTP plumbing is not modelled: the `X-Pagination` header write, JSON serialisation, CORS and routing.
- The other actions of both controllers (single-item `Get`, `Post`, `Put`, `Patch`, `Delete`) are not modelled. They only dispatch on repository status.
- ExpenseTracker.WebClient is not modelled. It holds asynchronous HTTP calls and MVC views.
- ListQuery.TotalPages: `Math.Ceiling` over `double` is modelled as integer ceiling division. This is exact for every 32-bit count and page size.
- ExpenseGroupsController.Get: requires `pageSize >= 1`. For a size of 0 or less the source computes the page count by a `double` division (by zero when the size is 0) followed by an unchecked cast to `int`; those sizes are not modelled. `page` is unrestricted.
- ExpensesController.Get: requires `pageSize >= 1`, for the same reason.
- Entities: an entity's expense collection is always present. Only a DTO's list can be null.
- Copying: the caller's field list cannot change, because Dafny sequences are values. The copy at `ExpenseGroupFactory.cs:53` therefore needs no separate statement.
- Integer width: counts, ids and page numbers are unbounded integers, and both `Get` models page with `PageSlice`, whose skip count is unbounded too. The 32-bit skip count as written is modelled only by `PageSliceAsWritten`, under "Findings".
- Text.AfterFirstDot: `IndexOf(".")` is the culture-sensitive string overload. It is modelled as an ordinal search for the character `.`.

## Findings

| source | as written | input that shows it | evidently intended | confidence | as-written member | corrected member |
|---|---|---|---|---|---|---|
| ExpenseTracker.API/Controllers/ExpenseGroupsController.cs:129 | `Skip(pageSize * (page - 1))` multiplies in unchecked 32-bit `int`. The same expression is at ExpensesController.cs:226. | `page = 429496730`, `pageSize = 10`, 20 items: the product 4294967290 wraps to -6, `Skip(-6)` skips nothing, and the first ten items come back. | A page past the last is empty. | medium, not executed (a query provider might reject the negative skip instead) | ListQuery.OverflowReturnsFirstPage | ListQuery.PageSlice |
