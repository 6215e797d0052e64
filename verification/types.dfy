/** The records of the finance ledger: the shapes of an expense, a budget, a
    savings goal and a spending category, shared by the seed data, the
    arithmetic helpers, the provider and the views. */
module Types {

  /** An optional value; used for `find` results, optional arguments and
      nullable selections. */
  datatype Option<T> = None | Some(value: T)

  /** A logged expense. Amounts are whole UZS. `date` stands for the instant
      the expense happened, as an integer that orders like those instants. */
  datatype Expense = Expense(id: string, amount: int, category: string, description: string, date: int)

  /** The budget of one category: the allowed `limit` and the running total `spent`. */
  datatype Budget = Budget(category: string, limit: int, spent: int)

  /** A savings goal; contributions raise `currentAmount`. */
  datatype Goal = Goal(id: string, name: string, targetAmount: int, currentAmount: int, deadline: string)

  /** A fixed spending category with its colour and icon tokens. */
  datatype Category = Category(name: string, color: string, icon: string)

  /** No value occurs twice in `s`. */
  predicate Distinct<T(==)>(s: seq<T>) {
    forall i, j :: 0 <= i < j < |s| ==> s[i] != s[j]
  }

  function Min(a: int, b: int): int {
    if a <= b then a else b
  }

  function Max(a: int, b: int): int {
    if a >= b then a else b
  }
}
