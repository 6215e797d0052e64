/** The provider keeps each budget's `spent` by increments instead of
    recomputing it from the expense list. What it does keep is the drift
    `spent - (total of that category's expenses)`: adding an expense never
    changes it, and deleting one does not either unless the floor at 0 bites
    or several expenses share the deleted id. The seed data already starts
    with a drift in Housing, so "spent equals the category total" is not an
    invariant of the running system. */
module BudgetDrift {
  import opened Types
  import opened FinanceUtils
  import opened FinanceContext
  import SeedData

  /** The drift of the first budget of category `c`, or None when there is no
      such budget. */
  function Drift(s: State, c: string): Option<int> {
    var k := BudgetIndex(s.budgets, c);
    if k < |s.budgets| then Some(s.budgets[k].spent - CategoryTotal(s.expenses, c)) else None
  }

  /** Adding an expense leaves the drift of every category as it was. */
  lemma AddExpensePreservesDrift(s: State, d: ExpenseDraft, id: string, c: string)
    ensures Drift(AddExpense(s, d, id).state, c) == Drift(s, c)
  {
    var r := AddExpense(s, d, id).state;
    BudgetIndexSameCategories(s.budgets, r.budgets, c);
    assert r.expenses[1..] == s.expenses;
  }

  /** At most one expense carries `id`. */
  predicate AtMostOneWithId(es: seq<Expense>, id: string) {
    forall i, j :: 0 <= i < |es| && 0 <= j < |es| && es[i].id == id && es[j].id == id ==> i == j
  }

  /** Deleting `id` does not hit the floor at 0: the budget charged has at
      least the deleted amount left. */
  predicate DeleteStaysAboveZero(s: State, id: string) {
    var k := ExpenseIndex(s.expenses, id);
    k < |s.expenses| ==>
      var e := s.expenses[k];
      var j := BudgetIndex(s.budgets, e.category);
      j < |s.budgets| ==> s.budgets[j].spent >= e.amount
  }

  /** Removing the one expense with `id` takes exactly its amount off its category's total. */
  lemma {:induction false} CategoryTotalRemoveOne(es: seq<Expense>, id: string, k: nat, c: string)
    requires k < |es| && es[k].id == id
    requires forall i :: 0 <= i < |es| && i != k ==> es[i].id != id
    ensures CategoryTotal(RemoveExpenses(es, id), c)
         == CategoryTotal(es, c) - (if es[k].category == c then es[k].amount else 0)
  {
    if k == 0 {
      assert RemoveExpenses(es[1..], id) == es[1..] by {
        assert forall i :: 0 <= i < |es[1..]| ==> es[1..][i] == es[i + 1];
      }
    } else {
      assert forall i :: 0 <= i < |es[1..]| && i != k - 1 ==> es[1..][i] == es[i + 1];
      CategoryTotalRemoveOne(es[1..], id, k - 1, c);
      var rest := RemoveExpenses(es[1..], id);
      assert RemoveExpenses(es, id) == [es[0]] + rest;
      assert ([es[0]] + rest)[1..] == rest;
    }
  }

  /** Deleting an expense keeps every budget's category in place. */
  lemma DeleteExpenseKeepsCategories(s: State, id: string)
    ensures var bs := DeleteExpense(s, id).state.budgets;
      |bs| == |s.budgets| && forall i :: 0 <= i < |bs| ==> bs[i].category == s.budgets[i].category
  {
  }

  /** Deleting the expense with `id`, when the floor does not bite, takes its
      amount off the first budget of its category and leaves every other
      category's first budget alone. */
  lemma DeleteExpenseSpent(s: State, id: string, c: string)
    requires DeleteStaysAboveZero(s, id)
    requires ExpenseIndex(s.expenses, id) < |s.expenses|
    ensures var e := s.expenses[ExpenseIndex(s.expenses, id)];
      var j := BudgetIndex(s.budgets, c);
      j < |s.budgets| ==>
        DeleteExpense(s, id).state.budgets[j].spent
          == s.budgets[j].spent - (if e.category == c then e.amount else 0)
  {
  }

  /** Deleting an expense leaves every drift as it was when its id is not
      shared and the floor at 0 does not bite. */
  lemma DeleteExpensePreservesDrift(s: State, id: string, c: string)
    requires AtMostOneWithId(s.expenses, id)
    requires DeleteStaysAboveZero(s, id)
    ensures Drift(DeleteExpense(s, id).state, c) == Drift(s, c)
  {
    var k := ExpenseIndex(s.expenses, id);
    if k < |s.expenses| {
      var r := DeleteExpense(s, id).state;
      DeleteExpenseKeepsCategories(s, id);
      BudgetIndexSameCategories(s.budgets, r.budgets, c);
      CategoryTotalRemoveOne(s.expenses, id, k, c);
      DeleteExpenseSpent(s, id, c);
    }
  }

  /** Why the floor matters: an expense larger than its budget's spent,
      once deleted, moves the drift. */
  lemma FloorMovesDrift()
    ensures var s := State([Expense("a", 10, "Food", "Lunch", 0)], [Budget("Food", 100, 0)], []);
      Drift(s, "Food") == Some(-10) && Drift(DeleteExpense(s, "a").state, "Food") == Some(0)
  {
    var s := State([Expense("a", 10, "Food", "Lunch", 0)], [Budget("Food", 100, 0)], []);
    assert RemoveExpenses(s.expenses, "a") == [];
  }

  /** Why a shared id matters: both expenses go, but only one amount comes
      off the budget. */
  lemma SharedIdMovesDrift()
    ensures var s := State([Expense("a", 10, "Food", "Lunch", 0), Expense("a", 10, "Food", "Dinner", 1)],
                           [Budget("Food", 100, 20)], []);
      Drift(s, "Food") == Some(0) && Drift(DeleteExpense(s, "a").state, "Food") == Some(10)
  {
    var s := State([Expense("a", 10, "Food", "Lunch", 0), Expense("a", 10, "Food", "Dinner", 1)],
                   [Budget("Food", 100, 20)], []);
    assert RemoveExpenses(s.expenses, "a") == [];
  }

  /** The seed budgets have one budget per category. */
  lemma SeedBudgetsUnique()
    ensures UniqueCategories(SeedData.Budgets)
  {
    SeedData.SeedCategoryNamesDistinct();
    SeedData.SeedBudgetCategoriesListed();
  }

  /** The first seed budget of the `i`-th seed category is the `i`-th budget. */
  lemma SeedBudgetIndex(i: nat)
    requires i < |SeedData.SeedCategoryNames|
    ensures i < |SeedData.Budgets|
    ensures BudgetIndex(SeedData.Budgets, SeedData.SeedCategoryNames[i]) == i
  {
    SeedData.SeedCategoryNamesDistinct();
    SeedData.SeedBudgetCategoriesListed();
    var k := BudgetIndex(SeedData.Budgets, SeedData.SeedCategoryNames[i]);
    assert k <= i;
    assert SeedData.SeedCategoryNames[k] == SeedData.SeedCategoryNames[i];
  }

  /** Housing's seed budget records ten times its seed expenses. */
  lemma SeedHousingDrift()
    ensures Drift(Initial, "Housing") == Some(1350000)
  {
    SeedData.SeedSpentMatchesExpensesExceptHousing();
    SeedData.SeedNamesRanked();
    SeedBudgetIndex(2);
  }

  /** A seed category other than Housing starts in step. */
  lemma SeedDriftAt(i: nat)
    requires i < |SeedData.SeedCategoryNames| && SeedData.SeedCategoryNames[i] != "Housing"
    ensures Drift(Initial, SeedData.SeedCategoryNames[i]) == Some(0)
  {
    SeedData.SeedBudgetCategoriesListed();
    SeedBudgetIndex(i);
    SeedData.SeedSpentAt(i);
  }

  /** The seed state: Housing records 1350000 more than its expenses, every
      other seed category is in step. */
  lemma SeedDrift()
    ensures Drift(Initial, "Housing") == Some(1350000)
    ensures forall i :: 0 <= i < |SeedData.SeedCategoryNames| && SeedData.SeedCategoryNames[i] != "Housing" ==>
      Drift(Initial, SeedData.SeedCategoryNames[i]) == Some(0)
  {
    SeedHousingDrift();
    forall i | 0 <= i < |SeedData.SeedCategoryNames| && SeedData.SeedCategoryNames[i] != "Housing"
      ensures Drift(Initial, SeedData.SeedCategoryNames[i]) == Some(0)
    {
      SeedDriftAt(i);
    }
  }
}
