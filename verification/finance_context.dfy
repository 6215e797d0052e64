/** The finance provider: the ledger state (expenses, budgets, goals) and
    its six operations, each a deterministic transition that returns the new
    state together with the toasts it raises. Ids the source draws from the
    clock are passed in. */
module FinanceContext {
  import opened Types
  import SeedData

  /** An expense as the form submits it, before it has an id. */
  datatype ExpenseDraft = ExpenseDraft(amount: int, category: string, description: string, date: int)

  /** A goal as submitted, before it has an id. */
  datatype GoalDraft = GoalDraft(name: string, targetAmount: int, currentAmount: int, deadline: string)

  datatype State = State(expenses: seq<Expense>, budgets: seq<Budget>, goals: seq<Goal>)

  /** The toasts of the dashboard, carrying the names they interpolate. */
  datatype Notice =
    | BudgetAlert(category: string)           // "Budget Alert": spending went over the limit
    | BudgetWarning(category: string)         // "Budget Warning": over 90% of the limit
    | GoalAdded(goalName: string)
    | GoalAchieved(goalName: string)
    | ExpenseDeleted
    | GoalDeleted(goalName: string)
    | BudgetUpdated(category: string, limit: int)
    | ContributionAdded(amount: int)

  /** What an operation leaves behind: the next state and its toasts, in order. */
  datatype Outcome = Outcome(state: State, notices: seq<Notice>)

  /** The provider starts from the seed data. */
  const Initial: State := State(SeedData.Expenses, SeedData.Budgets, SeedData.Goals)

  // ---------------------------------------------------------------------
  // Lookups (`Array.prototype.find`): the position of the first match, or
  // the length when nothing matches.

  function BudgetIndex(bs: seq<Budget>, c: string): (i: nat)
    ensures i <= |bs|
    ensures i < |bs| ==> bs[i].category == c
    ensures forall j :: 0 <= j < i ==> bs[j].category != c
  {
    if |bs| == 0 then 0 else if bs[0].category == c then 0 else 1 + BudgetIndex(bs[1..], c)
  }

  function ExpenseIndex(es: seq<Expense>, id: string): (i: nat)
    ensures i <= |es|
    ensures i < |es| ==> es[i].id == id
    ensures forall j :: 0 <= j < i ==> es[j].id != id
  {
    if |es| == 0 then 0 else if es[0].id == id then 0 else 1 + ExpenseIndex(es[1..], id)
  }

  function GoalIndex(gs: seq<Goal>, id: string): (i: nat)
    ensures i <= |gs|
    ensures i < |gs| ==> gs[i].id == id
    ensures forall j :: 0 <= j < i ==> gs[j].id != id
  {
    if |gs| == 0 then 0 else if gs[0].id == id then 0 else 1 + GoalIndex(gs[1..], id)
  }

  function FindBudget(bs: seq<Budget>, c: string): Option<Budget> {
    var i := BudgetIndex(bs, c);
    if i < |bs| then Some(bs[i]) else None
  }

  function FindExpense(es: seq<Expense>, id: string): Option<Expense> {
    var i := ExpenseIndex(es, id);
    if i < |es| then Some(es[i]) else None
  }

  function FindGoal(gs: seq<Goal>, id: string): Option<Goal> {
    var i := GoalIndex(gs, id);
    if i < |gs| then Some(gs[i]) else None
  }

  // ---------------------------------------------------------------------
  // Budgets

  /** The `prev.map` of `updateBudget`: every budget of category `c` gets the
      new limit, and the new `spent` when one is supplied; the rest stay. */
  function SetBudgets(bs: seq<Budget>, c: string, limit: int, spent: Option<int>): (r: seq<Budget>)
    ensures |r| == |bs|
    ensures forall i :: 0 <= i < |bs| && bs[i].category != c ==> r[i] == bs[i]
    ensures forall i :: 0 <= i < |bs| && bs[i].category == c ==>
      r[i] == Budget(c, limit, if spent.Some? then spent.value else bs[i].spent)
  {
    if |bs| == 0 then []
    else
      var b := bs[0];
      var b' := if b.category == c then b.(limit := limit, spent := if spent.Some? then spent.value else b.spent) else b;
      [b'] + SetBudgets(bs[1..], c, limit, spent)
  }

  /** `updateBudget(category, limit, spent?)`. It raises no toast and never
      inserts: an unknown category leaves the budgets as they are. */
  function UpdateBudget(s: State, c: string, limit: int, spent: Option<int>): (r: Outcome)
    ensures r.notices == []
    ensures r.state.expenses == s.expenses && r.state.goals == s.goals
    ensures |r.state.budgets| == |s.budgets|
    ensures forall i :: 0 <= i < |s.budgets| ==> r.state.budgets[i].category == s.budgets[i].category
    ensures forall i :: 0 <= i < |s.budgets| && s.budgets[i].category == c ==>
      r.state.budgets[i].limit == limit
      && r.state.budgets[i].spent == (if spent.Some? then spent.value else s.budgets[i].spent)
    ensures forall i :: 0 <= i < |s.budgets| && s.budgets[i].category != c ==> r.state.budgets[i] == s.budgets[i]
  {
    Outcome(s.(budgets := SetBudgets(s.budgets, c, limit, spent)), [])
  }

  /** Budgets keep their categories position by position, so a category's
      first budget is found at the same place. */
  lemma {:induction false} BudgetIndexSameCategories(bs: seq<Budget>, bs': seq<Budget>, c: string)
    requires |bs| == |bs'|
    requires forall i :: 0 <= i < |bs| ==> bs[i].category == bs'[i].category
    ensures BudgetIndex(bs, c) == BudgetIndex(bs', c)
  {
    var i, i' := BudgetIndex(bs, c), BudgetIndex(bs', c);
    if i < |bs| {
      assert bs'[i].category == c;
    }
    if i' < |bs| {
      assert bs[i'].category == c;
    }
  }

  /** Setting a budget twice to the same values is setting it once. */
  lemma UpdateBudgetIdempotent(s: State, c: string, limit: int, spent: Option<int>)
    ensures var once := UpdateBudget(s, c, limit, spent).state;
      UpdateBudget(once, c, limit, spent).state == once
  {
    var once := UpdateBudget(s, c, limit, spent).state;
    var twice := UpdateBudget(once, c, limit, spent).state;
    assert twice.budgets == once.budgets;
  }

  /** Unlike an upsert, an update of a category without a budget changes nothing. */
  lemma UpdateBudgetNeverInserts(s: State, c: string, limit: int, spent: Option<int>)
    requires forall i :: 0 <= i < |s.budgets| ==> s.budgets[i].category != c
    ensures UpdateBudget(s, c, limit, spent) == Outcome(s, [])
  {
    assert UpdateBudget(s, c, limit, spent).state.budgets == s.budgets;
  }

  // ---------------------------------------------------------------------
  // Expenses

  /** The `prev.filter` of `deleteExpense`: drops every expense with id `id`. */
  function RemoveExpenses(es: seq<Expense>, id: string): (r: seq<Expense>)
    ensures |r| <= |es|
    ensures forall e :: e in r <==> e in es && e.id != id
    ensures (forall i :: 0 <= i < |es| ==> es[i].id != id) ==> r == es
  {
    if |es| == 0 then []
    else
      var rest := RemoveExpenses(es[1..], id);
      assert forall e :: e in es <==> e == es[0] || e in es[1..] by {
        assert es == [es[0]] + es[1..];
      }
      if es[0].id == id then rest
      else
        assert es == [es[0]] + es[1..];
        [es[0]] + rest
  }

  /** The filter keeps the survivors in their order: it works piecewise on a concatenation. */
  lemma {:induction false} RemoveExpensesAppend(a: seq<Expense>, b: seq<Expense>, id: string)
    ensures RemoveExpenses(a + b, id) == RemoveExpenses(a, id) + RemoveExpenses(b, id)
  {
    if |a| == 0 {
      assert a + b == b;
    } else {
      assert (a + b)[1..] == a[1..] + b;
      RemoveExpensesAppend(a[1..], b, id);
    }
  }

  /** The stored expense `{ ...draft, id }`. */
  function ExpenseWithId(d: ExpenseDraft, id: string): Expense {
    Expense(id, d.amount, d.category, d.description, d.date)
  }

  /** `addExpense(draft)`: the new expense goes to the front; the first budget
      of its category (if any) has its spent raised by the amount, written to
      every budget of that category; then "Budget Alert" when the new spent is
      over the limit, else "Budget Warning" when it is over 90% of it. */
  function AddExpense(s: State, d: ExpenseDraft, id: string): (r: Outcome)
    ensures r.state.expenses == [ExpenseWithId(d, id)] + s.expenses
    ensures r.state.goals == s.goals
    ensures |r.state.budgets| == |s.budgets|
    ensures forall i :: 0 <= i < |s.budgets| && s.budgets[i].category != d.category ==>
      r.state.budgets[i] == s.budgets[i]
    ensures BudgetIndex(s.budgets, d.category) == |s.budgets| ==>
      r.state.budgets == s.budgets && r.notices == []
    ensures var k := BudgetIndex(s.budgets, d.category);
      k < |s.budgets| ==>
        var b := s.budgets[k];
        var newSpent := b.spent + d.amount;
        && r.state.budgets[k] == b.(spent := newSpent)
        && (forall i :: 0 <= i < |s.budgets| && s.budgets[i].category == d.category ==>
              r.state.budgets[i] == b.(spent := newSpent))
        && (r.notices == [BudgetAlert(d.category)] <==> newSpent > b.limit)
        && (r.notices == [BudgetWarning(d.category)] <==> newSpent <= b.limit && 10 * newSpent > 9 * b.limit)
        && (r.notices == [] <==> newSpent <= b.limit && 10 * newSpent <= 9 * b.limit)
  {
    var expenses := [ExpenseWithId(d, id)] + s.expenses;
    match FindBudget(s.budgets, d.category)
    case None => Outcome(s.(expenses := expenses), [])
    case Some(b) =>
      var newSpent := b.spent + d.amount;
      var budgets := SetBudgets(s.budgets, d.category, b.limit, Some(newSpent));
      var notices :=
        if newSpent > b.limit then [BudgetAlert(d.category)]
        else if 10 * newSpent > 9 * b.limit then [BudgetWarning(d.category)]
        else [];
      Outcome(State(expenses, budgets, s.goals), notices)
  }

  /** `deleteExpense(id)`: a no-op when no expense has the id. Otherwise every
      expense with that id goes, the first budget of the first match's
      category has its spent lowered by that match's amount, floored at 0,
      and "Expense Deleted" is raised. */
  function DeleteExpense(s: State, id: string): (r: Outcome)
    ensures ExpenseIndex(s.expenses, id) == |s.expenses| ==> r == Outcome(s, [])
    ensures var k := ExpenseIndex(s.expenses, id);
      k < |s.expenses| ==>
        var e := s.expenses[k];
        var j := BudgetIndex(s.budgets, e.category);
        && r.notices == [ExpenseDeleted]
        && r.state.goals == s.goals
        && r.state.expenses == RemoveExpenses(s.expenses, id)
        && |r.state.budgets| == |s.budgets|
        && (forall i :: 0 <= i < |s.budgets| && s.budgets[i].category != e.category ==>
              r.state.budgets[i] == s.budgets[i])
        && (j == |s.budgets| ==> r.state.budgets == s.budgets)
        && (j < |s.budgets| ==>
              forall i :: 0 <= i < |s.budgets| && s.budgets[i].category == e.category ==>
                r.state.budgets[i] == s.budgets[j].(spent := Max(0, s.budgets[j].spent - e.amount)))
  {
    match FindExpense(s.expenses, id)
    case None => Outcome(s, [])
    case Some(e) =>
      var expenses := RemoveExpenses(s.expenses, id);
      var budgets :=
        match FindBudget(s.budgets, e.category)
        case None => s.budgets
        case Some(b) => SetBudgets(s.budgets, e.category, b.limit, Some(Max(0, b.spent - e.amount)));
      Outcome(State(expenses, budgets, s.goals), [ExpenseDeleted])
  }

  /** No two budgets share a category (true of the seed data). */
  predicate UniqueCategories(bs: seq<Budget>) {
    forall i, j :: 0 <= i < j < |bs| ==> bs[i].category != bs[j].category
  }

  /** Deleting an expense just added under a fresh id undoes the addition,
      provided budgets have one per category and the budget's spent was not
      negative (so the floor at 0 does not bite). */
  lemma AddThenDeleteExpense(s: State, d: ExpenseDraft, id: string)
    requires forall i :: 0 <= i < |s.expenses| ==> s.expenses[i].id != id
    requires UniqueCategories(s.budgets)
    requires forall i :: 0 <= i < |s.budgets| ==> s.budgets[i].spent >= 0
    ensures DeleteExpense(AddExpense(s, d, id).state, id) == Outcome(s, [ExpenseDeleted])
  {
    var s1 := AddExpense(s, d, id).state;
    var e := ExpenseWithId(d, id);
    assert ExpenseIndex(s1.expenses, id) == 0;
    var r := DeleteExpense(s1, id);
    assert r.state.expenses == s.expenses by {
      RemoveExpensesAppend([e], s.expenses, id);
      assert s1.expenses == [e] + s.expenses;
      assert RemoveExpenses([e], id) == [];
    }
    BudgetIndexSameCategories(s.budgets, s1.budgets, d.category);
    assert r.state.budgets == s.budgets by {
      var k := BudgetIndex(s.budgets, d.category);
      if k < |s.budgets| {
        forall i | 0 <= i < |s.budgets| ensures r.state.budgets[i] == s.budgets[i] {
          if s.budgets[i].category == d.category {
            assert i == k;
          }
        }
      }
    }
  }

  // ---------------------------------------------------------------------
  // Goals

  /** The stored goal `{ ...draft, id }`. */
  function GoalWithId(d: GoalDraft, id: string): Goal {
    Goal(id, d.name, d.targetAmount, d.currentAmount, d.deadline)
  }

  /** `addGoal(draft)`: the new goal goes to the end, with a "Goal Added" toast. */
  function AddGoal(s: State, d: GoalDraft, id: string): (r: Outcome)
    ensures r.state.goals == s.goals + [GoalWithId(d, id)]
    ensures r.state.expenses == s.expenses && r.state.budgets == s.budgets
    ensures r.notices == [GoalAdded(d.name)]
  {
    Outcome(s.(goals := s.goals + [GoalWithId(d, id)]), [GoalAdded(d.name)])
  }

  /** A contribution of `amount` to one goal, clamped at its target. */
  function Contribute(g: Goal, amount: int): Goal {
    g.(currentAmount := Min(g.currentAmount + amount, g.targetAmount))
  }

  /** The `prev.map` of `updateGoal`: every goal with id `id` receives the contribution. */
  function ContributeGoals(gs: seq<Goal>, id: string, amount: int): (r: seq<Goal>)
    ensures |r| == |gs|
    ensures forall i :: 0 <= i < |gs| && gs[i].id != id ==> r[i] == gs[i]
    ensures forall i :: 0 <= i < |gs| && gs[i].id == id ==>
      r[i].currentAmount == Min(gs[i].currentAmount + amount, gs[i].targetAmount)
      && r[i] == gs[i].(currentAmount := r[i].currentAmount)
  {
    if |gs| == 0 then []
    else [if gs[0].id == id then Contribute(gs[0], amount) else gs[0]] + ContributeGoals(gs[1..], id, amount)
  }

  /** The toasts `updateGoal` raises inside its map: one "Goal Achieved" per
      matching goal whose new amount reaches its target, whether or not the
      goal was already complete. */
  function AchievedNotices(gs: seq<Goal>, id: string, amount: int): (r: seq<Notice>)
    ensures |r| <= |gs|
    ensures forall k :: 0 <= k < |r| ==> r[k].GoalAchieved?
    ensures r == [] <==> forall i :: 0 <= i < |gs| && gs[i].id == id ==>
      gs[i].currentAmount + amount < gs[i].targetAmount
  {
    if |gs| == 0 then []
    else
      var g := gs[0];
      var rest := AchievedNotices(gs[1..], id, amount);
      assert forall i :: 1 <= i < |gs| ==> gs[i] == gs[1..][i - 1];
      (if g.id == id && g.currentAmount + amount >= g.targetAmount then [GoalAchieved(g.name)] else []) + rest
  }

  /** One goal raises "Goal Achieved", with its name, exactly when it has the
      id and the contribution reaches its target. */
  lemma AchievedNoticesOne(g: Goal, id: string, amount: int)
    ensures AchievedNotices([g], id, amount)
         == if g.id == id && g.currentAmount + amount >= g.targetAmount then [GoalAchieved(g.name)] else []
  {
    assert [g][1..] == [];
  }

  /** The toasts follow the goals piecewise, so they come in list order. */
  lemma {:induction false} AchievedNoticesAppend(a: seq<Goal>, b: seq<Goal>, id: string, amount: int)
    ensures AchievedNotices(a + b, id, amount) == AchievedNotices(a, id, amount) + AchievedNotices(b, id, amount)
  {
    if |a| == 0 {
      assert a + b == b;
    } else {
      assert (a + b)[1..] == a[1..] + b;
      assert (a + b)[0] == a[0];
      AchievedNoticesAppend(a[1..], b, id, amount);
    }
  }

  /** `updateGoal(id, amount)`: the goal's amount becomes
      min(current + amount, target); a toast for each goal reaching its
      target; an unknown id changes nothing and raises nothing. */
  function UpdateGoal(s: State, id: string, amount: int): (r: Outcome)
    ensures r.state.expenses == s.expenses && r.state.budgets == s.budgets
    ensures |r.state.goals| == |s.goals|
    ensures forall i :: 0 <= i < |s.goals| && s.goals[i].id != id ==> r.state.goals[i] == s.goals[i]
    ensures forall i :: 0 <= i < |s.goals| && s.goals[i].id == id ==>
      r.state.goals[i] == s.goals[i].(currentAmount := Min(s.goals[i].currentAmount + amount, s.goals[i].targetAmount))
    ensures r.notices == AchievedNotices(s.goals, id, amount)
    ensures GoalIndex(s.goals, id) == |s.goals| ==> r == Outcome(s, [])
  {
    var goals := ContributeGoals(s.goals, id, amount);
    assert GoalIndex(s.goals, id) == |s.goals| ==> goals == s.goals;
    Outcome(s.(goals := goals), AchievedNotices(s.goals, id, amount))
  }

  /** With ids unique, a contribution raises exactly one "Goal Achieved" when
      the sum reaches the target, and none otherwise. */
  lemma {:induction false} UpdateGoalNoticeUniqueId(gs: seq<Goal>, id: string, amount: int, k: nat)
    requires k < |gs| && gs[k].id == id
    requires forall i :: 0 <= i < |gs| && i != k ==> gs[i].id != id
    ensures AchievedNotices(gs, id, amount)
         == if gs[k].currentAmount + amount >= gs[k].targetAmount then [GoalAchieved(gs[k].name)] else []
  {
    var rest := AchievedNotices(gs[1..], id, amount);
    if k == 0 {
      assert rest == [] by {
        assert forall i :: 0 <= i < |gs[1..]| ==> gs[1..][i] == gs[i + 1];
      }
    } else {
      assert forall i :: 0 <= i < |gs[1..]| && i != k - 1 ==> gs[1..][i] == gs[i + 1];
      UpdateGoalNoticeUniqueId(gs[1..], id, amount, k - 1);
    }
  }

  /** The achieved toast is level-triggered: contributing again to a goal that
      is already at its target raises it again, and leaves the goal as it is. */
  lemma GoalAchievedRefires(s: State, id: string, amount: int, k: nat)
    requires k < |s.goals| && s.goals[k].id == id
    requires forall i :: 0 <= i < |s.goals| && i != k ==> s.goals[i].id != id
    requires s.goals[k].currentAmount == s.goals[k].targetAmount
    requires amount >= 0
    ensures UpdateGoal(s, id, amount).notices == [GoalAchieved(s.goals[k].name)]
    ensures UpdateGoal(s, id, amount).state == s
  {
    UpdateGoalNoticeUniqueId(s.goals, id, amount, k);
    assert UpdateGoal(s, id, amount).state.goals == s.goals;
  }

  /** Goals that are within their targets stay within them after any contribution. */
  lemma UpdateGoalKeepsWithinTarget(s: State, id: string, amount: int)
    requires forall i :: 0 <= i < |s.goals| ==> s.goals[i].currentAmount <= s.goals[i].targetAmount
    ensures var gs := UpdateGoal(s, id, amount).state.goals;
      forall i :: 0 <= i < |gs| ==> gs[i].currentAmount <= gs[i].targetAmount
  {
  }

  /** The `prev.filter` of `deleteGoal`: drops every goal with id `id`. */
  function RemoveGoals(gs: seq<Goal>, id: string): (r: seq<Goal>)
    ensures |r| <= |gs|
    ensures forall g :: g in r <==> g in gs && g.id != id
    ensures (forall i :: 0 <= i < |gs| ==> gs[i].id != id) ==> r == gs
  {
    if |gs| == 0 then []
    else
      var rest := RemoveGoals(gs[1..], id);
      assert forall g :: g in gs <==> g == gs[0] || g in gs[1..] by {
        assert gs == [gs[0]] + gs[1..];
      }
      if gs[0].id == id then rest
      else
        assert gs == [gs[0]] + gs[1..];
        [gs[0]] + rest
  }

  /** The filter keeps the surviving goals in their order. */
  lemma {:induction false} RemoveGoalsAppend(a: seq<Goal>, b: seq<Goal>, id: string)
    ensures RemoveGoals(a + b, id) == RemoveGoals(a, id) + RemoveGoals(b, id)
  {
    if |a| == 0 {
      assert a + b == b;
    } else {
      assert (a + b)[1..] == a[1..] + b;
      RemoveGoalsAppend(a[1..], b, id);
    }
  }

  /** `deleteGoal(id)`: a no-op when no goal has the id; otherwise every goal
      with that id goes and "Goal Deleted" names the first of them. */
  function DeleteGoal(s: State, id: string): (r: Outcome)
    ensures GoalIndex(s.goals, id) == |s.goals| ==> r == Outcome(s, [])
    ensures var k := GoalIndex(s.goals, id);
      k < |s.goals| ==>
        && r.notices == [GoalDeleted(s.goals[k].name)]
        && r.state.expenses == s.expenses && r.state.budgets == s.budgets
        && r.state.goals == RemoveGoals(s.goals, id)
        && |r.state.goals| < |s.goals|
  {
    match FindGoal(s.goals, id)
    case None => Outcome(s, [])
    case Some(g) =>
      assert s.goals[GoalIndex(s.goals, id)] !in RemoveGoals(s.goals, id);
      assert |RemoveGoals(s.goals, id)| < |s.goals| by {
        RemoveGoalsShorter(s.goals, id, GoalIndex(s.goals, id));
      }
      Outcome(s.(goals := RemoveGoals(s.goals, id)), [GoalDeleted(g.name)])
  }

  lemma {:induction false} RemoveGoalsShorter(gs: seq<Goal>, id: string, k: nat)
    requires k < |gs| && gs[k].id == id
    ensures |RemoveGoals(gs, id)| < |gs|
  {
    if k > 0 {
      RemoveGoalsShorter(gs[1..], id, k - 1);
    }
  }

  /** Deleting a goal just added under a fresh id gives back the goals as they were. */
  lemma AddThenDeleteGoal(s: State, d: GoalDraft, id: string)
    requires forall i :: 0 <= i < |s.goals| ==> s.goals[i].id != id
    ensures DeleteGoal(AddGoal(s, d, id).state, id) == Outcome(s, [GoalDeleted(d.name)])
  {
    var g := GoalWithId(d, id);
    var s1 := AddGoal(s, d, id).state;
    assert GoalIndex(s1.goals, id) == |s.goals| by {
      assert s1.goals[|s.goals|] == g;
    }
    RemoveGoalsAppend(s.goals, [g], id);
    assert RemoveGoals([g], id) == [];
  }
}
