/** The budget card: budgets sorted exceeded-first and then by percentage
    used, the top five unless detailed, the "Exceeded" / "Almost exceeded"
    badges, the bar colour, and the guarded save of a new limit. */
module BudgetOverview {
  import opened Types
  import opened FinanceUtils
  import opened FinanceContext
  import opened JsArray

  function Percentage(b: Budget): int {
    BudgetPercentage(b.spent, b.limit)
  }

  predicate Exceeded(b: Budget) {
    IsBudgetExceeded(b.spent, b.limit)
  }

  /** The comparator of the card's sort, as "may come before": exceeded
      budgets first, then the larger percentage first. */
  predicate ShowsBefore(a: Budget, b: Budget) {
    || (Exceeded(a) && !Exceeded(b))
    || (Exceeded(a) == Exceeded(b) && Percentage(a) >= Percentage(b))
  }

  lemma ShowsBeforeConsistent()
    ensures TotalPreorder(ShowsBefore)
  {
  }

  /** `[...budgets].sort(...)`: a permutation of the budgets with every
      exceeded one ahead of every other, and percentages non-increasing among
      budgets of the same status. */
  function SortedBudgets(bs: seq<Budget>): (r: seq<Budget>)
    ensures |r| == |bs| && multiset(r) == multiset(bs)
    ensures forall i, j :: 0 <= i < j < |r| && Exceeded(r[j]) ==> Exceeded(r[i])
    ensures forall i, j :: 0 <= i < j < |r| && Exceeded(r[i]) == Exceeded(r[j]) ==>
      Percentage(r[i]) >= Percentage(r[j])
  {
    ShowsBeforeConsistent();
    var r := Sort(bs, ShowsBefore);
    assert forall i, j :: 0 <= i < j < |r| ==> ShowsBefore(r[i], r[j]);
    r
  }

  /** The budgets on the card: all of them when detailed, else the first five sorted. */
  function DisplayBudgets(bs: seq<Budget>, detailed: bool): (r: seq<Budget>)
    ensures |r| == if detailed || |bs| <= 5 then |bs| else 5
    ensures r == SortedBudgets(bs)[..|r|]
  {
    if detailed then SortedBudgets(bs) else Take(SortedBudgets(bs), 5)
  }

  /** "View All Budgets" is offered when not detailed and there are more than five. */
  predicate ShowViewAllBudgets(bs: seq<Budget>, detailed: bool) {
    !detailed && |bs| > 5
  }

  /** The "View All Budgets" button appears exactly when some budget is left off the card. */
  lemma ViewAllBudgetsIffHidden(bs: seq<Budget>, detailed: bool)
    ensures ShowViewAllBudgets(bs, detailed) <==> |DisplayBudgets(bs, detailed)| < |bs|
  {
  }

  /** The "Almost exceeded" badge: rounded percentage at least 90 and not
      exceeded. With a positive limit that is spending from 89.5% of the limit
      up to and including the limit itself; a zero limit never shows it. */
  function IsWarning(b: Budget): (r: bool)
    ensures b.limit > 0 ==> (r <==> 200 * b.spent >= 179 * b.limit && b.spent <= b.limit)
    ensures b.limit == 0 ==> !r
  {
    var p := Percentage(b);
    if b.limit > 0 && p < 100 then
      if p >= 90 then
        MulMonotone(179, 2 * p - 1, b.limit);
        p >= 90 && !Exceeded(b)
      else
        assert 200 * b.spent >= 179 * b.limit ==> 2 * p + 1 > 179 by {
          if 200 * b.spent >= 179 * b.limit {
            MulStrictCancel(179, 2 * p + 1, b.limit);
          }
        }
        p >= 90 && !Exceeded(b)
    else p >= 90 && !Exceeded(b)
  }

  /** Spending exactly the limit shows "Almost exceeded", not "Exceeded". */
  lemma AtLimitIsAlmostExceeded(b: Budget)
    requires 0 < b.limit && b.spent == b.limit
    ensures IsWarning(b) && !Exceeded(b)
  {
  }

  /** A "Budget Warning" toast from adding an expense always leaves the budget
      showing the "Almost exceeded" badge (over 90% is past 89.5%). */
  lemma WarningToastShowsBadge(s: State, d: ExpenseDraft, id: string)
    requires AddExpense(s, d, id).notices == [BudgetWarning(d.category)]
    ensures var k := BudgetIndex(s.budgets, d.category);
      k < |s.budgets| && s.budgets[k].limit > 0 && IsWarning(AddExpense(s, d, id).state.budgets[k])
  {
  }

  /** The converse fails: at 89.5% the badge shows, yet the toast's 90% bar is not passed. */
  lemma BadgeWithoutWarningToast()
    ensures IsWarning(Budget("Food", 1000, 895))
    ensures !(10 * 895 > 9 * 1000)
  {
  }

  /** With a positive limit an exceeded budget and an "Almost exceeded" one
      both draw the alert colour. */
  lemma BadgedBudgetsUseAlertColor(b: Budget)
    requires b.limit > 0
    requires Exceeded(b) || IsWarning(b)
    ensures BudgetColorClass(Percentage(b)) == BgAlert
  {
    if IsWarning(b) {
      assert Percentage(b) >= 90;
    }
  }

  /** A zero limit is exceeded by any spending, yet its bar reads 0% and is
      drawn in the success colour. */
  lemma ZeroLimitExceededLooksHealthy(b: Budget)
    requires b.limit == 0 && b.spent > 0
    ensures Exceeded(b)
    ensures Percentage(b) == 0 && BudgetColorClass(Percentage(b)) == BgSuccess
  {
  }

  /** The edit dialog's state: the category being edited (null when closed)
      and the typed limit. */
  datatype Editor = Editor(editingCategory: Option<string>, newLimit: int)

  /** `handleEditBudget`: opens the editor on a category with its current limit. */
  function HandleEditBudget(category: string, currentLimit: int): (r: Editor)
    ensures r.editingCategory == Some(category) && r.newLimit == currentLimit
  {
    Editor(Some(category), currentLimit)
  }

  /** The editor holds a category: a non-null, non-empty string. */
  predicate Editing(ed: Editor) {
    ed.editingCategory.Some? && ed.editingCategory.value != ""
  }

  /** `handleSaveBudget`: only with a category being edited and a limit of at
      least 0 does it update that category's limit, toast, and close the
      editor. It never passes a spent, so no budget's spent changes. */
  function HandleSaveBudget(s: State, ed: Editor): (r: (Outcome, Editor))
    ensures !(Editing(ed) && ed.newLimit >= 0) ==> r == (Outcome(s, []), ed)
    ensures Editing(ed) && ed.newLimit >= 0 ==>
      var c := ed.editingCategory.value;
      && r.1.editingCategory == None && r.1.newLimit == ed.newLimit
      && r.0.notices == [BudgetUpdated(c, ed.newLimit)]
      && r.0.state.expenses == s.expenses && r.0.state.goals == s.goals
      && |r.0.state.budgets| == |s.budgets|
      && (forall i :: 0 <= i < |s.budgets| ==>
            r.0.state.budgets[i].category == s.budgets[i].category
            && r.0.state.budgets[i].spent == s.budgets[i].spent)
      && (forall i :: 0 <= i < |s.budgets| ==>
            r.0.state.budgets[i].limit == if s.budgets[i].category == c then ed.newLimit else s.budgets[i].limit)
  {
    if Editing(ed) && ed.newLimit >= 0 then
      var c := ed.editingCategory.value;
      var o := UpdateBudget(s, c, ed.newLimit, None);
      (Outcome(o.state, o.notices + [BudgetUpdated(c, ed.newLimit)]), ed.(editingCategory := None))
    else (Outcome(s, []), ed)
  }

  /** Opening the editor on a budget and saving without typing gives the
      state back unchanged, with only the "Budget Updated" toast, when the
      budget has a category, a limit of at least 0, and no other budget
      shares its category. */
  lemma EditThenSaveKeepsState(s: State, i: nat)
    requires i < |s.budgets|
    requires s.budgets[i].category != "" && s.budgets[i].limit >= 0
    requires forall j :: 0 <= j < |s.budgets| && j != i ==> s.budgets[j].category != s.budgets[i].category
    ensures var b := s.budgets[i];
      HandleSaveBudget(s, HandleEditBudget(b.category, b.limit)).0 == Outcome(s, [BudgetUpdated(b.category, b.limit)])
  {
    var b := s.budgets[i];
    var r := HandleSaveBudget(s, HandleEditBudget(b.category, b.limit)).0;
    assert r.state.budgets == s.budgets by {
      forall j | 0 <= j < |s.budgets| ensures r.state.budgets[j] == s.budgets[j] {
        if j == i {
          assert r.state.budgets[j].limit == b.limit;
        }
      }
    }
  }
}
