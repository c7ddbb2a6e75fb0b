/**
 * ExpenseTracker.Repository/Factories/ExpenseGroupFactory.cs: the group
 * entity/DTO mappers and the shaping of a group, which decides between
 * returning the full expense list and shaping each expense.
 */
module ExpenseGroupFactory {
  import opened Results
  import opened Text
  import opened ListOps
  import opened Shaping
  import Entities
  import Dto
  import ExpenseFactory

  /** A value in a shaped group: a scalar, the full expense list, or shaped expenses. */
  datatype GroupValue =
    | GroupScalar(scalar: Scalar)
    | AllExpenses(expenses: Option<seq<Dto.Expense>>)
    | ShapedExpenses(children: seq<ExpenseFactory.ShapedExpense>)

  /** A group as returned: the DTO itself, or only the requested fields. */
  datatype ShapedGroup =
    | WholeGroup(group: Dto.ExpenseGroup)
    | GroupBag(entries: seq<(string, GroupValue)>)

  /** `CreateExpenseGroup(DTO.ExpenseGroup)`: a null expense list becomes an empty one. */
  function ToEntity(d: Dto.ExpenseGroup): (e: Entities.ExpenseGroup)
    ensures e.id == d.id && e.userId == d.userId && e.title == d.title
    ensures e.description == d.description && e.expenseGroupStatusId == d.expenseGroupStatusId
    ensures d.expenses.None? ==> e.expenses == []
    ensures d.expenses.Some? ==> |e.expenses| == |d.expenses.value|
    ensures d.expenses.Some? ==>
      forall i | 0 <= i < |e.expenses| :: e.expenses[i] == ExpenseFactory.ToEntity(d.expenses.value[i])
  {
    var expenses := match d.expenses
      case None => []
      case Some(es) => Map(es, ExpenseFactory.ToEntity);
    Entities.ExpenseGroup(d.id, d.userId, d.title, d.description, d.expenseGroupStatusId, expenses)
  }

  /** `CreateExpenseGroup(ExpenseGroup)`: the expense list is mapped element-wise. */
  function ToDto(e: Entities.ExpenseGroup): (d: Dto.ExpenseGroup)
    ensures d.id == e.id && d.userId == e.userId && d.title == e.title
    ensures d.description == e.description && d.expenseGroupStatusId == e.expenseGroupStatusId
    ensures d.expenses.Some? && |d.expenses.value| == |e.expenses|
    ensures forall i | 0 <= i < |e.expenses| :: d.expenses.value[i] == ExpenseFactory.ToDto(e.expenses[i])
  {
    Dto.ExpenseGroup(e.id, e.userId, e.title, e.description, e.expenseGroupStatusId,
      Some(Map(e.expenses, ExpenseFactory.ToDto)))
  }

  /** Entity to DTO and back is the identity. */
  lemma EntityRoundTrip(e: Entities.ExpenseGroup)
    ensures ToEntity(ToDto(e)) == e
  {
    var back := ToEntity(ToDto(e)).expenses;
    forall i | 0 <= i < |e.expenses|
      ensures back[i] == e.expenses[i]
    {
      ExpenseFactory.EntityRoundTrip(e.expenses[i]);
    }
  }

  /** DTO to entity and back is the identity, except that a null list comes back empty. */
  lemma DtoRoundTrip(d: Dto.ExpenseGroup)
    ensures ToDto(ToEntity(d)) == d.(expenses := Some(if d.expenses.Some? then d.expenses.value else []))
  {
    var back := ToDto(ToEntity(d)).expenses.value;
    if d.expenses.Some? {
      forall i | 0 <= i < |back|
        ensures back[i] == d.expenses.value[i]
      {
        ExpenseFactory.DtoRoundTrip(d.expenses.value[i]);
      }
      assert back == d.expenses.value;
    }
  }

  /** The public instance properties of `DTO.ExpenseGroup`, as declared. */
  const PropertyNames: seq<string> :=
    ["Description", "ExpenseGroupStatusId", "Id", "Title", "UserId", "Expenses"]

  /** The property names, lower-cased. */
  lemma PropertyKeys()
    ensures (set p | p in PropertyNames :: Lower(p)) ==
      {"description", "expensegroupstatusid", "id", "title", "userid", "expenses"}
  {
    assert Lower("Description") == "description";
    assert Lower("ExpenseGroupStatusId") == "expensegroupstatusid";
    assert Lower("Id") == "id";
    assert Lower("Title") == "title";
    assert Lower("UserId") == "userid";
    assert Lower("Expenses") == "expenses";
  }

  /** The property table reflection would consult, keyed by lower-cased name. */
  function Fields(g: Dto.ExpenseGroup): (t: map<string, GroupValue>)
    ensures t.Keys == set p | p in PropertyNames :: Lower(p)
    ensures "expenses" in t && t["expenses"] == AllExpenses(g.expenses)
  {
    PropertyKeys();
    map[
      "description" := GroupScalar(TextValue(g.description)),
      "expensegroupstatusid" := GroupScalar(IntValue(g.expenseGroupStatusId)),
      "id" := GroupScalar(IntValue(g.id)),
      "title" := GroupScalar(TextValue(g.title)),
      "userid" := GroupScalar(TextValue(g.userId)),
      "expenses" := AllExpenses(g.expenses)]
  }

  /** A requested name refers to the expense collection when it contains "expenses". */
  predicate IsExpenseField(f: string): (b: bool)
    ensures b ==> |f| >= |"expenses"|
    ensures |f| >= |"expenses"| && f[..|"expenses"|] == "expenses" ==> b
  {
    ContainsAnywhere(f, "expenses", 0);
    Contains(f, "expenses")
  }

  /**
   * How the requested names are split: the names looked up on the group, in
   * order; whether expenses are shaped partially; and the names each expense
   * is shaped with when they are.
   */
  datatype Selection = Selection(plain: seq<string>, partial: bool, childFields: seq<string>)

  /** The list surgery before the `ExpandoObject` is filled. */
  function SelectFields(fields: seq<string>): (r: Selection)
    ensures r.partial ==> |r.childFields| == |Filter(fields, IsExpenseField)| > 0
    ensures !r.partial ==> r.childFields == []
  {
    var expenseFields := Filter(fields, IsExpenseField);
    var partial := |expenseFields| > 0 && "expenses" !in expenseFields;
    if partial then
      Selection(RemoveRange(fields, expenseFields), true, Map(expenseFields, AfterFirstDot))
    else
      Selection(RemoveRange(fields, RemoveFirst(expenseFields, "expenses")), false, [])
  }

  /**
   * The names left for the group are taken from the requested ones, each at
   * most as often; in partial mode none mentions "expenses", otherwise only
   * "expenses" itself can.
   */
  lemma SelectFieldsPlain(fields: seq<string>)
    ensures multiset(SelectFields(fields).plain) <= multiset(fields)
    ensures var sel := SelectFields(fields);
      forall x | x in sel.plain && IsExpenseField(x) :: !sel.partial && x == "expenses"
  {
    var sel := SelectFields(fields);
    var expenseFields := Filter(fields, IsExpenseField);
    var removed := if sel.partial then expenseFields else RemoveFirst(expenseFields, "expenses");
    assert sel.plain == RemoveRange(fields, removed);
    RemoveRangeCount(fields, removed);
    forall x | x in sel.plain && IsExpenseField(x)
      ensures !sel.partial && x == "expenses"
    {
      assert multiset(fields)[x] - multiset(removed)[x] > 0 by {
        assert x in multiset(sel.plain);
      }
      FilterCount(fields, IsExpenseField, x);
    }
  }

  /** Partial mode: some name mentions "expenses" and none is exactly "expenses". */
  lemma PartialIff(fields: seq<string>)
    ensures SelectFields(fields).partial <==>
      (exists i | 0 <= i < |fields| :: IsExpenseField(fields[i])) && "expenses" !in fields
  {
    ContainsSelf("expenses");
    var expenseFields := Filter(fields, IsExpenseField);
    if exists i | 0 <= i < |fields| :: IsExpenseField(fields[i]) {
      var i :| 0 <= i < |fields| && IsExpenseField(fields[i]);
      assert fields[i] in expenseFields;
    }
    if |expenseFields| > 0 {
      var x := expenseFields[0];
      assert x in fields && IsExpenseField(x);
      var i :| 0 <= i < |fields| && fields[i] == x;
    }
  }

  /**
   * In partial mode every expense-related name leaves the list, and each
   * expense is shaped with those names minus the text up to the first dot.
   */
  lemma PartialSelection(fields: seq<string>)
    requires SelectFields(fields).partial
    ensures SelectFields(fields).plain == Reject(fields, IsExpenseField)
    ensures SelectFields(fields).childFields == Map(Filter(fields, IsExpenseField), AfterFirstDot)
    ensures "expenses" !in SelectFields(fields).plain
  {
    var expenseFields := Filter(fields, IsExpenseField);
    RemoveRangeIsDropFirsts(fields, expenseFields);
    DropFiltered(fields, IsExpenseField);
    ContainsSelf("expenses");
  }

  /**
   * Otherwise every expense-related name leaves the list except the last
   * "expenses", which keeps its place among the other names.
   */
  lemma FullSelection(fields: seq<string>)
    requires !SelectFields(fields).partial
    ensures SelectFields(fields).plain == RejectKeepingLast(fields, IsExpenseField, "expenses")
  {
    var expenseFields := Filter(fields, IsExpenseField);
    var removed := RemoveFirst(expenseFields, "expenses");
    RemoveRangeIsDropFirsts(fields, removed);
    ContainsSelf("expenses");
    DropFilteredButOne(fields, IsExpenseField, "expenses");
  }

  /** Each expense shaped with the same names; the first failure wins. */
  function ShapeChildren(expenses: seq<Dto.Expense>, childFields: seq<string>): (r: Result<seq<ExpenseFactory.ShapedExpense>, Fault>)
    ensures r.Ok? ==> |r.value| == |expenses|
    ensures r.Ok? ==> forall i | 0 <= i < |expenses| :: Ok(r.value[i]) == ExpenseFactory.Shape(expenses[i], childFields)
  {
    MapAll(expenses, e => ExpenseFactory.Shape(e, childFields))
  }

  /**
   * `CreateDataShapedObject(DTO.ExpenseGroup, fields)`: the DTO unchanged for
   * an empty list; otherwise the selected names looked up on the group and,
   * in partial mode, a final "expenses" entry holding each expense shaped.
   */
  function Shape(g: Dto.ExpenseGroup, fields: seq<string>): (r: Result<ShapedGroup, Fault>)
    ensures |fields| == 0 ==> r == Ok(WholeGroup(g))
    ensures |fields| > 0 && r.Ok? ==> r.value.GroupBag?
  {
    if |fields| == 0 then Ok(WholeGroup(g)) else ShapeSelected(g, SelectFields(fields))
  }

  /** The `ExpandoObject` filled from the selected names, then the partial-mode entry. */
  function ShapeSelected(g: Dto.ExpenseGroup, sel: Selection): (r: Result<ShapedGroup, Fault>)
    ensures r.Ok? ==> r.value.GroupBag?
  {
    match BuildBag(sel.plain, Fields(g))
    case Err(f) => Err(f)
    case Ok(bag) =>
      if !sel.partial then Ok(GroupBag(bag)) else AppendChildren(g, sel.childFields, bag)
  }

  /** Partial mode: each expense shaped, added under "expenses" after the other entries. */
  function AppendChildren(g: Dto.ExpenseGroup, childFields: seq<string>, bag: seq<(string, GroupValue)>): (r: Result<ShapedGroup, Fault>)
    ensures r.Ok? ==>
      && g.expenses.Some?
      && ShapeChildren(g.expenses.value, childFields).Ok?
      && r == Ok(GroupBag(bag + [("expenses", ShapedExpenses(ShapeChildren(g.expenses.value, childFields).value))]))
    ensures r.Err? && g.expenses.Some? ==> !r.error.NullCollection?
  {
    match g.expenses
    case None => Err(NullCollection)
    case Some(es) =>
      match ShapeChildren(es, childFields)
      case Err(f) =>
        var i :| 0 <= i < |es| && ExpenseFactory.Shape(es[i], childFields) == Err(f);
        Err(f)
      case Ok(children) =>
        if "expenses" in Keys(bag) then Err(DuplicateKey("expenses"))
        else Ok(GroupBag(bag + [("expenses", ShapedExpenses(children))]))
  }

  /** A partial selection that shapes yields its names, then "expenses". */
  lemma SelectedPartialShape(g: Dto.ExpenseGroup, sel: Selection)
    requires sel.partial && ShapeSelected(g, sel).Ok?
    ensures g.expenses.Some? && ShapeChildren(g.expenses.value, sel.childFields).Ok?
    ensures var entries := ShapeSelected(g, sel).value.entries;
      && Keys(entries) == sel.plain + ["expenses"]
      && (forall i | 0 <= i < |entries| - 1 :: entries[i].1 == Fields(g)[Lower(entries[i].0)])
      && entries[|entries| - 1].1 == ShapedExpenses(ShapeChildren(g.expenses.value, sel.childFields).value)
  {
    var bag := BuildBag(sel.plain, Fields(g)).value;
    var entries := ShapeSelected(g, sel).value.entries;
    assert entries == bag + [("expenses", ShapedExpenses(ShapeChildren(g.expenses.value, sel.childFields).value))];
    assert Keys(entries) == Keys(bag) + ["expenses"];
    forall i | 0 <= i < |entries| - 1
      ensures entries[i].1 == Fields(g)[Lower(entries[i].0)]
    {
      assert entries[i] == bag[i];
      assert Keys(bag)[i] == bag[i].0;
    }
  }

  /**
   * Partial mode: the keys are the names not about expenses, in requested
   * order, then "expenses", holding one shaped child per expense.
   */
  lemma PartialShape(g: Dto.ExpenseGroup, fields: seq<string>)
    requires |fields| > 0 && SelectFields(fields).partial
    requires Shape(g, fields).Ok?
    ensures g.expenses.Some?
    ensures var entries := Shape(g, fields).value.entries;
      && Keys(entries) == Reject(fields, IsExpenseField) + ["expenses"]
      && (forall i | 0 <= i < |entries| - 1 :: entries[i].1 == Fields(g)[Lower(entries[i].0)])
      && entries[|entries| - 1].1 ==
           ShapedExpenses(ShapeChildren(g.expenses.value, Map(Filter(fields, IsExpenseField), AfterFirstDot)).value)
  {
    PartialSelection(fields);
    SelectedPartialShape(g, SelectFields(fields));
  }

  /** A selection that is not partial yields its names, each valued by the property it names. */
  lemma SelectedFullShape(g: Dto.ExpenseGroup, sel: Selection)
    requires !sel.partial && ShapeSelected(g, sel).Ok?
    ensures var entries := ShapeSelected(g, sel).value.entries;
      && Keys(entries) == sel.plain
      && forall i | 0 <= i < |entries| :: entries[i].1 == Fields(g)[Lower(entries[i].0)]
  {
    var entries := ShapeSelected(g, sel).value.entries;
    forall i | 0 <= i < |entries|
      ensures entries[i].1 == Fields(g)[Lower(entries[i].0)]
    {
      assert Keys(entries)[i] == entries[i].0;
    }
  }

  /**
   * Otherwise: the keys are the names left by the tie-break, each valued by
   * the property it names, so "expenses" carries the full expense list.
   */
  lemma FullShape(g: Dto.ExpenseGroup, fields: seq<string>)
    requires |fields| > 0 && !SelectFields(fields).partial
    requires Shape(g, fields).Ok?
    ensures var entries := Shape(g, fields).value.entries;
      && Keys(entries) == RejectKeepingLast(fields, IsExpenseField, "expenses")
      && (forall i | 0 <= i < |entries| :: entries[i].1 == Fields(g)[Lower(entries[i].0)])
      && (forall i | 0 <= i < |entries| && entries[i].0 == "expenses" :: entries[i].1 == AllExpenses(g.expenses))
  {
    var sel := SelectFields(fields);
    assert Shape(g, fields) == ShapeSelected(g, sel);
    var entries := ShapeSelected(g, sel).value.entries;
    SelectedFullShape(g, sel);
    FullSelection(fields);
    ExpensesEntry(g);
  }

  /** The "expenses" name looks up the expense list. */
  lemma ExpensesEntry(g: Dto.ExpenseGroup)
    ensures Lower("expenses") == "expenses"
    ensures Fields(g)[Lower("expenses")] == AllExpenses(g.expenses)
  {
    assert Lower("expenses") == "expenses";
  }

  /**
   * Shaping succeeds exactly when the names left for the group resolve and
   * are distinct and, in partial mode, the list is present and every expense
   * shapes; the final "expenses" key never collides.
   */
  lemma ShapeSucceeds(g: Dto.ExpenseGroup, fields: seq<string>)
    requires |fields| > 0
    ensures Shape(g, fields).Ok? <==>
      var sel := SelectFields(fields);
      && AllKnown(sel.plain, Fields(g))
      && Distinct(sel.plain)
      && (sel.partial ==>
            && g.expenses.Some?
            && forall i | 0 <= i < |g.expenses.value| :: ExpenseFactory.Shape(g.expenses.value[i], sel.childFields).Ok?)
  {
    var sel := SelectFields(fields);
    if sel.partial {
      PartialSelection(fields);
    }
  }

  /** With the expense list present, shaping never runs over a null collection. */
  lemma NoNullCollection(g: Dto.ExpenseGroup, fields: seq<string>)
    requires g.expenses.Some?
    ensures Shape(g, fields).Err? ==> !Shape(g, fields).error.NullCollection?
  {
    if |fields| > 0 {
      var sel := SelectFields(fields);
      var bag := BuildBag(sel.plain, Fields(g));
      if bag.Ok? && sel.partial {
        var es := g.expenses.value;
        var c := MapAll(es, e => ExpenseFactory.Shape(e, sel.childFields));
        if c.Err? {
          var i :| 0 <= i < |es| && ExpenseFactory.Shape(es[i], sel.childFields) == Err(c.error);
        }
      }
    }
  }

  /** `CreateDataShapedObject(ExpenseGroup, fields)`: shape the entity's DTO. */
  function ShapeEntity(e: Entities.ExpenseGroup, fields: seq<string>): (r: Result<ShapedGroup, Fault>)
    ensures |fields| == 0 ==> r == Ok(WholeGroup(ToDto(e)))
    ensures r.Err? ==> !r.error.NullCollection?
  {
    NoNullCollection(ToDto(e), fields);
    Shape(ToDto(e), fields)
  }

  /** The body of `CreateDataShapedObject(DTO.ExpenseGroup, fields)`. */
  method CreateDataShapedObject(expenseGroup: Dto.ExpenseGroup, listOfFields: seq<string>) returns (r: Result<ShapedGroup, Fault>)
    ensures r == Shape(expenseGroup, listOfFields)
  {
    var listOfFieldsToWorkWith := listOfFields;
    if |listOfFieldsToWorkWith| == 0 {
      return Ok(WholeGroup(expenseGroup));
    }
    ghost var sel := SelectFields(listOfFields);
    var listOfExpenseFields := Filter(listOfFieldsToWorkWith, IsExpenseField);
    var returnPartialExpense := |listOfExpenseFields| > 0 && "expenses" !in listOfExpenseFields;
    if returnPartialExpense {
      listOfFieldsToWorkWith := RemoveRange(listOfFieldsToWorkWith, listOfExpenseFields);
      listOfExpenseFields := Map(listOfExpenseFields, AfterFirstDot);
    } else {
      listOfExpenseFields := RemoveFirst(listOfExpenseFields, "expenses");
      listOfFieldsToWorkWith := RemoveRange(listOfFieldsToWorkWith, listOfExpenseFields);
    }
    assert listOfFieldsToWorkWith == sel.plain && returnPartialExpense == sel.partial;
    assert returnPartialExpense ==> listOfExpenseFields == sel.childFields;
    var filled := FillBag(listOfFieldsToWorkWith, Fields(expenseGroup));
    if filled.Err? {
      return Err(filled.error);
    }
    var objectToReturn := filled.value;
    if returnPartialExpense {
      if expenseGroup.expenses.None? {
        return Err(NullCollection);
      }
      var expenses := ShapeEach(expenseGroup.expenses.value, listOfExpenseFields);
      if expenses.Err? {
        return Err(expenses.error);
      }
      if "expenses" in Keys(objectToReturn) {
        return Err(DuplicateKey("expenses"));
      }
      objectToReturn := objectToReturn + [("expenses", ShapedExpenses(expenses.value))];
    }
    r := Ok(GroupBag(objectToReturn));
  }

  /** The `foreach` over the group's expenses, shaping each one; the first failure wins. */
  method ShapeEach(all: seq<Dto.Expense>, childFields: seq<string>) returns (r: Result<seq<ExpenseFactory.ShapedExpense>, Fault>)
    ensures r == ShapeChildren(all, childFields)
  {
    var expenses: seq<ExpenseFactory.ShapedExpense> := [];
    var i := 0;
    while i < |all|
      invariant 0 <= i <= |all|
      invariant ShapeChildren(all[..i], childFields) == Ok(expenses)
    {
      var shaped := ExpenseFactory.CreateDataShapedObject(all[i], childFields);
      assert all[..i + 1][..i] == all[..i];
      if shaped.Err? {
        MapFailureStands(all, e => ExpenseFactory.Shape(e, childFields), i + 1);
        return Err(shaped.error);
      }
      expenses := expenses + [shaped.value];
      i := i + 1;
    }
    assert all[..i] == all;
    r := Ok(expenses);
  }

  lemma BothExpenseFields()
    ensures Filter(["expenses", "expenses.amount"], IsExpenseField) == ["expenses", "expenses.amount"]
  {
    var fields := ["expenses", "expenses.amount"];
    assert IsExpenseField(fields[0]) && IsExpenseField(fields[1]);
    assert fields[1..][1..] == [];
  }

  /** With both names the sub-field leaves the list and "expenses" stays. */
  lemma FullListSelection()
    ensures SelectFields(["expenses", "expenses.amount"]) == Selection(["expenses"], false, [])
  {
    var fields := ["expenses", "expenses.amount"];
    BothExpenseFields();
    assert RemoveFirst(fields, "expenses") == ["expenses.amount"];
    assert RemoveFirst(fields, "expenses.amount") == ["expenses"];
    assert RemoveRange(fields, ["expenses.amount"]) == ["expenses"];
  }

  lemma ExpensesBag(g: Dto.ExpenseGroup)
    ensures BuildBag(["expenses"], Fields(g)) == Ok([("expenses", AllExpenses(g.expenses))])
  {
    assert Lower("expenses") == "expenses";
    var r := BuildBag(["expenses"], Fields(g));
    assert AllKnown(["expenses"], Fields(g));
    assert Keys(r.value)[0] == r.value[0].0 == "expenses";
    assert r.value == [("expenses", AllExpenses(g.expenses))];
  }

  /** The tie-break: "expenses" with a sub-field returns the full list and drops the sub-field. */
  lemma FullListWins(g: Dto.ExpenseGroup)
    ensures Shape(g, ["expenses", "expenses.amount"]) == Ok(GroupBag([("expenses", AllExpenses(g.expenses))]))
  {
    FullListSelection();
    ExpensesBag(g);
  }

  lemma TitleAmountExpenseFields()
    ensures Filter(["title", "expenses.amount"], IsExpenseField) == ["expenses.amount"]
  {
    var fields := ["title", "expenses.amount"];
    assert !IsExpenseField("title");
    assert IsExpenseField("expenses.amount");
    assert fields[1..] == ["expenses.amount"];
    assert fields[1..][1..] == [];
  }

  lemma AmountAfterDot()
    ensures AfterFirstDot("expenses.amount") == "amount"
  {
    assert "expenses.amount"[8] == '.';
    assert '.' !in "expenses.amount"[..8];
    assert IndexOf("expenses.amount", '.') == 8;
  }

  lemma TitleAmountRemoved()
    ensures RemoveRange(["title", "expenses.amount"], ["expenses.amount"]) == ["title"]
  {
    var fields := ["title", "expenses.amount"];
    assert fields[1..] == ["expenses.amount"];
    assert RemoveFirst(fields, "expenses.amount") == ["title"];
    assert ["expenses.amount"][1..] == [];
  }

  /** How `title,expenses.amount` is split: "title" for the group, "amount" for each expense. */
  lemma TitleWithAmountsSelection()
    ensures SelectFields(["title", "expenses.amount"]) == Selection(["title"], true, ["amount"])
  {
    TitleAmountExpenseFields();
    AmountAfterDot();
    TitleAmountRemoved();
    assert Map(["expenses.amount"], AfterFirstDot) == ["amount"];
  }

  lemma TitleBag(g: Dto.ExpenseGroup)
    ensures BuildBag(["title"], Fields(g)) == Ok([("title", GroupScalar(TextValue(g.title)))])
  {
    assert Lower("title") == "title";
    var r := BuildBag(["title"], Fields(g));
    assert AllKnown(["title"], Fields(g));
    assert Keys(r.value)[0] == r.value[0].0 == "title";
    assert r.value[0] == ("title", GroupScalar(TextValue(g.title)));
    assert r.value == [("title", GroupScalar(TextValue(g.title)))];
  }

  lemma AmountChildren(es: seq<Dto.Expense>)
    ensures ShapeChildren(es, ["amount"]).Ok?
    ensures |ShapeChildren(es, ["amount"]).value| == |es|
    ensures forall i | 0 <= i < |es| ::
      ShapeChildren(es, ["amount"]).value[i] == ExpenseFactory.ExpenseBag([("amount", DecimalValue(es[i].amount))])
  {
    forall i | 0 <= i < |es|
      ensures ExpenseFactory.Shape(es[i], ["amount"]) ==
        Ok(ExpenseFactory.ExpenseBag([("amount", DecimalValue(es[i].amount))]))
    {
      ExpenseFactory.ShapeAmountOnly(es[i]);
    }
  }

  /**
   * A plain field with a dotted sub-field: the title, then "expenses"
   * holding each expense cut down to its amount.
   */
  lemma TitleWithAmounts(g: Dto.ExpenseGroup)
    requires g.expenses.Some?
    ensures ShapeChildren(g.expenses.value, ["amount"]).Ok?
    ensures Shape(g, ["title", "expenses.amount"]) ==
      Ok(GroupBag([
        ("title", GroupScalar(TextValue(g.title))),
        ("expenses", ShapedExpenses(ShapeChildren(g.expenses.value, ["amount"]).value))]))
    ensures var children := ShapeChildren(g.expenses.value, ["amount"]).value;
      && |children| == |g.expenses.value|
      && forall i | 0 <= i < |g.expenses.value| ::
           children[i] == ExpenseFactory.ExpenseBag([("amount", DecimalValue(g.expenses.value[i].amount))])
  {
    var sel := Selection(["title"], true, ["amount"]);
    var title := ("title", GroupScalar(TextValue(g.title)));
    var bag := [title];
    AmountChildren(g.expenses.value);
    var x := ("expenses", ShapedExpenses(ShapeChildren(g.expenses.value, ["amount"]).value));
    assert ShapeSelected(g, sel) == Ok(GroupBag([title, x])) by {
      TitleBag(g);
      assert Keys(bag)[0] == "title";
      assert AppendChildren(g, ["amount"], bag) == Ok(GroupBag(bag + [x]));
      assert bag + [x] == [title, x];
    }
    assert Shape(g, ["title", "expenses.amount"]) == ShapeSelected(g, sel) by {
      TitleWithAmountsSelection();
    }
  }
}
