/**
 * ExpenseTracker.Repository/Factories/ExpenseFactory.cs: the expense
 * entity/DTO mappers and the field-subset shaping of one expense.
 */
module ExpenseFactory {
  import opened Results
  import opened Text
  import opened Shaping
  import Entities
  import Dto

  /** An expense as returned: the DTO itself, or only the requested fields. */
  datatype ShapedExpense =
    | WholeExpense(expense: Dto.Expense)
    | ExpenseBag(entries: seq<(string, Scalar)>)

  /** `CreateExpense(Expense)`: entity to DTO, field by field. */
  function ToDto(e: Entities.Expense): (d: Dto.Expense)
    ensures d.id == e.id && d.description == e.description && d.date == e.date
    ensures d.amount == e.amount && d.expenseGroupId == e.expenseGroupId
  {
    Dto.Expense(e.id, e.description, e.date, e.amount, e.expenseGroupId)
  }

  /** `CreateExpense(DTO.Expense)`: DTO to entity, field by field. */
  function ToEntity(d: Dto.Expense): (e: Entities.Expense)
    ensures e.id == d.id && e.description == d.description && e.date == d.date
    ensures e.amount == d.amount && e.expenseGroupId == d.expenseGroupId
  {
    Entities.Expense(d.id, d.description, d.date, d.amount, d.expenseGroupId)
  }

  lemma EntityRoundTrip(e: Entities.Expense)
    ensures ToEntity(ToDto(e)) == e
  {
  }

  lemma DtoRoundTrip(d: Dto.Expense)
    ensures ToDto(ToEntity(d)) == d
  {
  }

  /** The public instance properties of `DTO.Expense`, as declared. */
  const PropertyNames: seq<string> := ["Amount", "Date", "Description", "ExpenseGroupId", "Id"]

  /** The property names, lower-cased. */
  lemma PropertyKeys()
    ensures (set p | p in PropertyNames :: Lower(p)) == {"amount", "date", "description", "expensegroupid", "id"}
  {
    assert Lower("Amount") == "amount";
    assert Lower("Date") == "date";
    assert Lower("Description") == "description";
    assert Lower("ExpenseGroupId") == "expensegroupid";
    assert Lower("Id") == "id";
  }

  /** The property table reflection would consult, keyed by lower-cased name. */
  function Fields(d: Dto.Expense): (t: map<string, Scalar>)
    ensures t.Keys == set p | p in PropertyNames :: Lower(p)
  {
    PropertyKeys();
    map[
      "amount" := DecimalValue(d.amount),
      "date" := DateValue(d.date),
      "description" := TextValue(d.description),
      "expensegroupid" := IntValue(d.expenseGroupId),
      "id" := IntValue(d.id)]
  }

  /**
   * `CreateDataShapedObject(DTO.Expense, fields)`: the DTO unchanged for an
   * empty list; otherwise one entry per requested field, keyed as requested,
   * in requested order, or a failure.
   */
  function Shape(d: Dto.Expense, fields: seq<string>): (r: Result<ShapedExpense, Fault>)
    ensures |fields| == 0 ==> r == Ok(WholeExpense(d))
    ensures |fields| > 0 ==> (r.Ok? <==> AllKnown(fields, Fields(d)) && Distinct(fields))
    ensures |fields| > 0 && r.Ok? ==> r.value.ExpenseBag? && Keys(r.value.entries) == fields
    ensures |fields| > 0 && r.Ok? ==>
      forall i | 0 <= i < |fields| :: r.value.entries[i].1 == Fields(d)[Lower(fields[i])]
    ensures r.Err? ==> !r.error.NullCollection?
  {
    if |fields| == 0 then Ok(WholeExpense(d))
    else
      match BuildBag(fields, Fields(d))
      case Ok(entries) => Ok(ExpenseBag(entries))
      case Err(f) => Err(f)
  }

  /** `CreateDataShapedObject(Expense, fields)`: shape the entity's DTO. */
  function ShapeEntity(e: Entities.Expense, fields: seq<string>): (r: Result<ShapedExpense, Fault>)
    ensures |fields| == 0 ==> r == Ok(WholeExpense(ToDto(e)))
    ensures |fields| > 0 && r.Ok? ==> r.value.ExpenseBag? && Keys(r.value.entries) == fields
  {
    Shape(ToDto(e), fields)
  }

  /** Shaping an entity agrees with shaping any DTO that maps to it. */
  lemma ShapeEntityOfDto(d: Dto.Expense, fields: seq<string>)
    ensures ShapeEntity(ToEntity(d), fields) == Shape(d, fields)
  {
    DtoRoundTrip(d);
  }

  /** Whether shaping fails, and how, depends on the field names only. */
  lemma FailureIgnoresValues(d1: Dto.Expense, d2: Dto.Expense, fields: seq<string>)
    requires Shape(d1, fields).Err?
    ensures Shape(d2, fields) == Shape(d1, fields)
  {
    BagFailureIgnoresValues(fields, Fields(d1), Fields(d2));
  }

  /** The `foreach` that fills the `ExpandoObject`. */
  method CreateDataShapedObject(expense: Dto.Expense, listOfFields: seq<string>) returns (r: Result<ShapedExpense, Fault>)
    ensures r == Shape(expense, listOfFields)
  {
    if |listOfFields| == 0 {
      return Ok(WholeExpense(expense));
    }
    var bag := FillBag(listOfFields, Fields(expense));
    match bag {
      case Ok(entries) => r := Ok(ExpenseBag(entries));
      case Err(f) => r := Err(f);
    }
  }

  /** A single requested field yields exactly that field, e.g. `amount`. */
  lemma ShapeAmountOnly(d: Dto.Expense)
    ensures Shape(d, ["amount"]) == Ok(ExpenseBag([("amount", DecimalValue(d.amount))]))
  {
    assert Lower("amount") == "amount";
    var r := BuildBag(["amount"], Fields(d));
    assert AllKnown(["amount"], Fields(d));
    assert Keys(r.value)[0] == r.value[0].0 == "amount";
    assert r.value[0] == ("amount", DecimalValue(d.amount));
    assert r.value == [("amount", DecimalValue(d.amount))];
  }

  /** Matching ignores case; the key keeps the spelling that was requested. */
  lemma ShapeIgnoresCase(d: Dto.Expense)
    ensures Shape(d, ["ID", "Description"]) ==
      Ok(ExpenseBag([("ID", IntValue(d.id)), ("Description", TextValue(d.description))]))
  {
    assert Lower("ID") == "id";
    assert Lower("Description") == "description";
    var fields := ["ID", "Description"];
    var r := BuildBag(fields, Fields(d));
    assert AllKnown(fields, Fields(d));
    assert Keys(r.value)[0] == r.value[0].0 == "ID";
    assert Keys(r.value)[1] == r.value[1].0 == "Description";
    assert r.value[0] == ("ID", IntValue(d.id));
    assert r.value[1] == ("Description", TextValue(d.description));
    assert r.value == [("ID", IntValue(d.id)), ("Description", TextValue(d.description))];
  }

  /** A name that is no property fails. */
  lemma ShapeUnknownFails(d: Dto.Expense)
    ensures Shape(d, ["id", "cost"]) == Err(UnknownField("cost"))
  {
    assert Lower("id") == "id";
    assert Lower("cost") == "cost";
    assert ["id", "cost"][..1] == ["id"];
  }

  /** A name requested twice fails on the second `Add`. */
  lemma ShapeDuplicateFails(d: Dto.Expense)
    ensures Shape(d, ["id", "id"]) == Err(DuplicateKey("id"))
  {
    assert Lower("id") == "id";
    assert ["id", "id"][..1] == ["id"];
  }
}
