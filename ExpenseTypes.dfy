/** The records the expenses page and the two charts work on. */
module ExpenseTypes {

  /**
   * An expense as the server returns it. The amount, a JavaScript number in
   * reais, is held as a whole number of centavos.
   */
  datatype Expense = Expense(id: string, description: string, amount: int, date: string)

  /** The number the amount field of the form holds: a value in centavos, or NaN. */
  datatype Amount = Cents(cents: int) | NotANumber

  /** The new-expense form (`newExpense`). */
  datatype Draft = Draft(description: string, amount: Amount, date: string)

  /** The form's initial state, and what it is reset to after a successful create. */
  const EmptyDraft := Draft("", Cents(0), "")

  /** The sum of the amounts of a list of expenses. */
  function SumAmounts(es: seq<Expense>): int
  {
    if es == [] then 0 else SumAmounts(es[..|es| - 1]) + es[|es| - 1].amount
  }
}
