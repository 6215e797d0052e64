/** The goals card: goals in ascending order of progress, the first three
    in compact mode, the "Completed" badge, and the guarded contribution
    dialog. */
module FinancialGoals {
  import opened Types
  import opened FinanceUtils
  import opened FinanceContext
  import opened JsArray

  function Progress(g: Goal): int {
    GoalProgress(g.currentAmount, g.targetAmount)
  }

  /** The comparator `aProgress - bProgress`, as "may come before". */
  predicate LessProgressFirst(a: Goal, b: Goal) {
    Progress(a) <= Progress(b)
  }

  lemma LessProgressFirstConsistent()
    ensures TotalPreorder(LessProgressFirst)
  {
  }

  /** `[...goals].sort(...)`: a permutation of the goals, least progress first. */
  function SortedGoals(gs: seq<Goal>): (r: seq<Goal>)
    ensures |r| == |gs| && multiset(r) == multiset(gs)
    ensures forall i, j :: 0 <= i < j < |r| ==> Progress(r[i]) <= Progress(r[j])
  {
    LessProgressFirstConsistent();
    var r := Sort(gs, LessProgressFirst);
    assert forall i, j :: 0 <= i < j < |r| ==> LessProgressFirst(r[i], r[j]);
    r
  }

  /** The goals on the card: all of them, or the three least advanced in compact mode. */
  function DisplayGoals(gs: seq<Goal>, compact: bool): (r: seq<Goal>)
    ensures |r| == if !compact || |gs| <= 3 then |gs| else 3
    ensures r == SortedGoals(gs)[..|r|]
  {
    if compact then Take(SortedGoals(gs), 3) else SortedGoals(gs)
  }

  predicate ShowViewAllGoals(gs: seq<Goal>, compact: bool) {
    compact && |gs| > 3
  }

  /** "View All Goals" appears exactly when some goal is left off the card,
      and a goal left off has at least the progress of every goal shown. */
  lemma ViewAllGoalsIffHidden(gs: seq<Goal>, compact: bool)
    ensures ShowViewAllGoals(gs, compact) <==> |DisplayGoals(gs, compact)| < |gs|
    ensures var shown := DisplayGoals(gs, compact);
      var sorted := SortedGoals(gs);
      forall i, j :: 0 <= i < |shown| <= j < |sorted| ==> Progress(shown[i]) <= Progress(sorted[j])
  {
  }

  /** The "Completed" badge: rounded progress of 100, which for a positive
      target is saving at least 99.5% of it; a zero target never completes. */
  function IsCompleted(g: Goal): (r: bool)
    ensures g.targetAmount > 0 ==> (r <==> 200 * g.currentAmount >= 199 * g.targetAmount)
    ensures g.targetAmount == 0 ==> !r
  {
    Progress(g) >= 100
  }

  /** A contribution that reaches a positive target leaves the goal at its
      target and marked "Completed", and the provider raises a "Goal
      Achieved" toast for it. */
  lemma ContributionReachingTargetCompletes(s: State, id: string, amount: int, k: nat)
    requires k < |s.goals| && s.goals[k].id == id
    requires s.goals[k].targetAmount > 0
    ensures var g := UpdateGoal(s, id, amount).state.goals[k];
      s.goals[k].currentAmount + amount >= s.goals[k].targetAmount ==> IsCompleted(g) && g.currentAmount == g.targetAmount
    ensures s.goals[k].currentAmount + amount >= s.goals[k].targetAmount ==> UpdateGoal(s, id, amount).notices != []
  {
  }

  /** The contribution dialog's state: the goal it is open on (null when
      closed) and the typed amount. */
  datatype ContributionForm = ContributionForm(selectedGoal: Option<string>, contributionAmount: int)

  /** The dialog can contribute: a non-empty goal id and a positive amount. */
  predicate CanContribute(f: ContributionForm) {
    f.selectedGoal.Some? && f.selectedGoal.value != "" && f.contributionAmount > 0
  }

  /** `handleContribute`: with a goal selected and a positive amount, the
      selected goal receives the contribution (clamped at its target), the
      provider's toasts are followed by "Contribution Added", and the dialog
      resets; otherwise nothing happens. */
  function HandleContribute(s: State, f: ContributionForm): (r: (Outcome, ContributionForm))
    ensures !CanContribute(f) ==> r == (Outcome(s, []), f)
    ensures CanContribute(f) ==>
      var o := UpdateGoal(s, f.selectedGoal.value, f.contributionAmount);
      r.0 == Outcome(o.state, o.notices + [ContributionAdded(f.contributionAmount)])
    ensures CanContribute(f) ==>
      var id := f.selectedGoal.value;
      && r.1 == ContributionForm(None, 0)
      && r.0.state.expenses == s.expenses && r.0.state.budgets == s.budgets
      && |r.0.state.goals| == |s.goals|
      && (forall i :: 0 <= i < |s.goals| && s.goals[i].id != id ==> r.0.state.goals[i] == s.goals[i])
      && (forall i :: 0 <= i < |s.goals| && s.goals[i].id == id ==>
            r.0.state.goals[i].currentAmount == Min(s.goals[i].currentAmount + f.contributionAmount, s.goals[i].targetAmount))
      && |r.0.notices| > 0 && r.0.notices[|r.0.notices| - 1] == ContributionAdded(f.contributionAmount)
  {
    if CanContribute(f) then
      var o := UpdateGoal(s, f.selectedGoal.value, f.contributionAmount);
      (Outcome(o.state, o.notices + [ContributionAdded(f.contributionAmount)]), ContributionForm(None, 0))
    else (Outcome(s, []), f)
  }

  /** A contribution through the dialog never lowers a goal that is within
      its target, and never lifts one past it. */
  lemma ContributeNeverLowers(s: State, f: ContributionForm)
    requires forall i :: 0 <= i < |s.goals| ==> s.goals[i].currentAmount <= s.goals[i].targetAmount
    ensures var gs := HandleContribute(s, f).0.state.goals;
      |gs| == |s.goals|
      && forall i :: 0 <= i < |gs| ==>
           s.goals[i].currentAmount <= gs[i].currentAmount <= gs[i].targetAmount
  {
  }

  /** `handleDeleteGoal` hands the id to the provider's `deleteGoal`: no goal
      with that id is left on the card, and every other goal stays. */
  lemma DeletedGoalLeavesCard(s: State, id: string)
    ensures var gs := DeleteGoal(s, id).state.goals;
      (forall g :: g in gs ==> g.id != id) && (forall g :: g in s.goals && g.id != id ==> g in gs)
  {
  }
}
