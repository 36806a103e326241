// The documents of the two Mongo collections the core works on (Category and
// Expense), the partial update accepted by the expense update handler, and the
// error outcomes of the handlers.

module Records {

  /** Users and documents are identified by ids; a Mongo ObjectId is modelled by a natural number. */
  type UserId = nat
  type Id = nat

  datatype Option<T> = None | Some(value: T)

  /** The distinct failures the handlers report (the message each one sends is given beside it). */
  datatype Error =
    | InvalidCategory      // "Invalid category"
    | BudgetExceeded       // "Expense exceeds category budget"
    | ExpenseNotFound      // "Expense not found"
    | NegativeBudget       // "Budget cannot be negative"
    | CategoryExists       // "Category already exists"
    | CategoryNotFound     // "Category not found"
    | BudgetBelowSpend     // "New budget must be greater than current expenses"
    | CategoryInUse        // "Cannot delete category with existing expenses"
    | ReportFailed         // "Error generating report"

  datatype Result<T> = Ok(value: T) | Err(error: Error)

  /** A handler that returns only a confirmation message either passes or fails. */
  datatype Outcome = Pass | Fail(error: Error)

  /**
   * An instant: the millisecond timestamp the `date` sort compares, and the
   * calendar year and month that Mongo's `$year` and `$month` extract from it.
   * The extraction itself is not modelled; the three fields are given together.
   */
  datatype Date = Date(stamp: int, year: int, month: int)

  /** Amounts and budgets are whole numbers of the smallest currency unit. */
  datatype Category = Category(id: Id, name: string, userId: UserId, budget: int)

  datatype Expense = Expense(
    id: Id,
    userId: UserId,
    categoryId: Id,
    amount: int,
    description: Option<string>,
    date: Date)

  /** The fields an expense update may carry; an absent field is left as it was. */
  datatype Patch = Patch(amount: Option<int>, description: Option<string>, date: Option<Date>)

  /** The expense after a partial update (`findOneAndUpdate` with `{ new: true }`). */
  function ApplyPatch(e: Expense, p: Patch): Expense
  {
    e.(amount := if p.amount.Some? then p.amount.value else e.amount,
       description := if p.description.Some? then p.description else e.description,
       date := if p.date.Some? then p.date.value else e.date)
  }
}
