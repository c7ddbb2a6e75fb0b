/**
 * The persistence-side records (ExpenseTracker.Repository.Entities).
 * A `DateTime` is its tick count, a `decimal` a real number. An entity's
 * expense collection is always present (see README, "Left out").
 */
module Entities {

  datatype Expense = Expense(
    id: int,
    description: string,
    date: int,
    amount: real,
    expenseGroupId: int)

  datatype ExpenseGroup = ExpenseGroup(
    id: int,
    userId: string,
    title: string,
    description: string,
    expenseGroupStatusId: int,
    expenses: seq<Expense>)
}

/**
 * The transfer objects (ExpenseTracker.DTO) the API returns. A DTO group's
 * `Expenses` list may be `null`, modelled as `None`.
 */
module Dto {
  import opened Results

  datatype Expense = Expense(
    id: int,
    description: string,
    date: int,
    amount: real,
    expenseGroupId: int)

  datatype ExpenseGroup = ExpenseGroup(
    id: int,
    userId: string,
    title: string,
    description: string,
    expenseGroupStatusId: int,
    expenses: Option<seq<Expense>>)
}
