/** The expense list: expenses newest first, cut to `limit` when one is
    given, the category colour token of each row, and the details dialog
    with its delete action. */
module ExpenseHistory {
  import opened Types
  import opened FinanceContext
  import opened JsArray
  import SeedData

  /** The comparator `time(b) - time(a)`, as "may come before". */
  predicate NewerFirst(a: Expense, b: Expense) {
    a.date >= b.date
  }

  lemma NewerFirstConsistent()
    ensures TotalPreorder(NewerFirst)
  {
  }

  /** `[...expenses].sort(...)`: a permutation of the expenses, newest first. */
  function SortedExpenses(es: seq<Expense>): (r: seq<Expense>)
    ensures |r| == |es| && multiset(r) == multiset(es)
    ensures forall i, j :: 0 <= i < j < |r| ==> r[i].date >= r[j].date
  {
    NewerFirstConsistent();
    var r := Sort(es, NewerFirst);
    assert forall i, j :: 0 <= i < j < |r| ==> NewerFirst(r[i], r[j]);
    r
  }

  /** The optional `limit` prop is truthy: given and not 0. */
  predicate LimitGiven(limit: Option<int>) {
    limit.Some? && limit.value != 0
  }

  /** The rows shown: every expense without a limit, else `slice(0, limit)`
      of the sorted list (a negative limit drops that many from the end). */
  function DisplayExpenses(es: seq<Expense>, limit: Option<int>): (r: seq<Expense>)
    ensures |r| <= |es| && r == SortedExpenses(es)[..|r|]
    ensures !LimitGiven(limit) ==> |r| == |es|
    ensures LimitGiven(limit) && limit.value > 0 ==> |r| == if limit.value < |es| then limit.value else |es|
    ensures LimitGiven(limit) && limit.value < 0 ==> |r| == if |es| + limit.value > 0 then |es| + limit.value else 0
  {
    if LimitGiven(limit) then Take(SortedExpenses(es), limit.value) else SortedExpenses(es)
  }

  /** `limit && expenses.length > limit`. */
  predicate ShowViewAllExpenses(es: seq<Expense>, limit: Option<int>) {
    LimitGiven(limit) && |es| > limit.value
  }

  /** Without a limit or with a positive one, "View All Expenses" appears
      exactly when some expense is left out, and no expense left out is newer
      than one shown. */
  lemma ViewAllExpensesIffHidden(es: seq<Expense>, limit: Option<int>)
    requires limit.None? || limit.value >= 0
    ensures ShowViewAllExpenses(es, limit) <==> |DisplayExpenses(es, limit)| < |es|
    ensures var shown := DisplayExpenses(es, limit);
      var sorted := SortedExpenses(es);
      forall i, j :: 0 <= i < |shown| <= j < |sorted| ==> shown[i].date >= sorted[j].date
  {
  }

  /** A negative limit breaks that match: with no expenses at all the button
      still shows, as any length exceeds a negative number. */
  lemma NegativeLimitShowsViewAll(es: seq<Expense>, k: int)
    requires k < 0
    ensures ShowViewAllExpenses(es, Some(k))
    ensures es == [] ==> DisplayExpenses(es, Some(k)) == []
  {
  }

  /** The position of the first category named `name`, or the length when none is. */
  function CategoryIndex(cats: seq<Category>, name: string): (i: nat)
    ensures i <= |cats|
    ensures i < |cats| ==> cats[i].name == name
    ensures forall j :: 0 <= j < i ==> cats[j].name != name
  {
    if |cats| == 0 then 0 else if cats[0].name == name then 0 else 1 + CategoryIndex(cats[1..], name)
  }

  /** `categories.find(cat => cat.name === name)`, scanning from the front. */
  function FindCategory(cats: seq<Category>, name: string): (r: Option<Category>)
    ensures var k := CategoryIndex(cats, name);
      r == if k < |cats| then Some(cats[k]) else None
  {
    if |cats| == 0 then None
    else if cats[0].name == name then Some(cats[0])
    else FindCategory(cats[1..], name)
  }

  /** `getCategoryColor`: the colour token of the first category with that
      name, or "other" when there is none or its token is empty. */
  function CategoryColor(cats: seq<Category>, name: string): (r: string)
    ensures r != ""
    ensures (forall i :: 0 <= i < |cats| ==> cats[i].name != name) ==> r == "other"
    ensures var k := CategoryIndex(cats, name);
      k < |cats| ==> r == if cats[k].color != "" then cats[k].color else "other"
  {
    match FindCategory(cats, name)
    case Some(c) => if c.color != "" then c.color else "other"
    case None => "other"
  }

  /** With no name repeated, looking up a listed category's name finds that category. */
  lemma CategoryIndexOfListed(cats: seq<Category>, i: nat)
    requires forall a, b :: 0 <= a < b < |cats| ==> cats[a].name != cats[b].name
    requires i < |cats|
    ensures CategoryIndex(cats, cats[i].name) == i
  {
    assert CategoryIndex(cats, cats[i].name) <= i;
  }

  /** A listed category with a token, not preceded by one of the same name,
      shows its own token. */
  lemma ListedCategoryColor(cats: seq<Category>, i: nat)
    requires i < |cats| && cats[i].color != ""
    requires forall j :: 0 <= j < i ==> cats[j].name != cats[i].name
    ensures CategoryColor(cats, cats[i].name) == cats[i].color
  {
  }

  /** The `i`-th seed category shows its own token. */
  lemma SeedCategoryColor(i: nat)
    requires i < |SeedData.Categories|
    ensures CategoryColor(SeedData.Categories, SeedData.Categories[i].name) == SeedData.Categories[i].color
  {
    SeedData.SeedCategoryNamesDistinct();
    SeedData.SeedCategoryNamesListed();
    SeedData.SeedCategoryColorsSet();
    ListedCategoryColor(SeedData.Categories, i);
  }

  /** Every seed category shows its own token. */
  lemma SeedCategoryColors()
    ensures forall i :: 0 <= i < |SeedData.Categories| ==>
      CategoryColor(SeedData.Categories, SeedData.Categories[i].name) == SeedData.Categories[i].color
  {
    forall i | 0 <= i < |SeedData.Categories|
      ensures CategoryColor(SeedData.Categories, SeedData.Categories[i].name) == SeedData.Categories[i].color
    {
      SeedCategoryColor(i);
    }
  }

  /** An expense filed under a name outside the seed list falls back to "other". */
  lemma UnlistedCategoryColor(name: string)
    requires forall i :: 0 <= i < |SeedData.SeedCategoryNames| ==> SeedData.SeedCategoryNames[i] != name
    ensures CategoryColor(SeedData.Categories, name) == "other"
  {
    SeedData.SeedCategoryNamesListed();
    forall i | 0 <= i < |SeedData.Categories| ensures SeedData.Categories[i].name != name {
      assert SeedData.Categories[i].name == SeedData.SeedCategoryNames[i];
    }
  }

  /** `getExpenseDetails`: `expenses.find` by id. */
  function GetExpenseDetails(es: seq<Expense>, id: string): (r: Option<Expense>)
    ensures r.None? <==> forall i :: 0 <= i < |es| ==> es[i].id != id
    ensures r.Some? ==> r.value == es[ExpenseIndex(es, id)] && r.value.id == id
  {
    if |es| == 0 then None
    else if es[0].id == id then Some(es[0])
    else
      var r := GetExpenseDetails(es[1..], id);
      assert forall i :: 1 <= i < |es| ==> es[i] == es[1..][i - 1];
      assert r.Some? ==> ExpenseIndex(es, id) == ExpenseIndex(es[1..], id) + 1 by {
        if r.Some? {
          var k := ExpenseIndex(es[1..], id);
          assert es[k + 1].id == id;
          var m := ExpenseIndex(es, id);
          assert m <= k + 1;
          assert m >= 1;
          assert es[1..][m - 1].id == id;
        }
      }
      r
  }

  /** The list's transient state: the expense whose details are open and
      whether the dialog is shown. */
  datatype HistoryView = HistoryView(selectedExpense: Option<string>, showDialog: bool)

  /** The dialog frame, titled "Expense Details", is open: a non-empty id is
      selected and the dialog is shown, whether or not the id names an expense. */
  predicate FrameShown(v: HistoryView) {
    v.selectedExpense.Some? && v.selectedExpense.value != "" && v.showDialog
  }

  /** The details body renders inside the frame: the selected id still names
      an expense (otherwise the body is `null`). */
  predicate DetailsShown(es: seq<Expense>, v: HistoryView) {
    FrameShown(v) && GetExpenseDetails(es, v.selectedExpense.value).Some?
  }

  /** `handleViewDetails`: selects the id and opens the dialog. The frame
      opens for any non-empty id; the details body renders exactly when the
      id names an expense, and then shows the first expense with that id. */
  function HandleViewDetails(es: seq<Expense>, id: string): (r: HistoryView)
    ensures r.selectedExpense == Some(id) && r.showDialog
    ensures FrameShown(r) <==> id != ""
    ensures id != "" ==> (DetailsShown(es, r) <==> exists i :: 0 <= i < |es| && es[i].id == id)
    ensures id == "" ==> !DetailsShown(es, r)
    ensures DetailsShown(es, r) ==> GetExpenseDetails(es, r.selectedExpense.value) == GetExpenseDetails(es, id)
  {
    HistoryView(Some(id), true)
  }

  /** `handleDelete`: deletes through the provider and clears the selection.
      Afterwards no expense carries the id, every other expense is still
      listed, and the details dialog no longer renders. */
  function HandleDelete(s: State, v: HistoryView, id: string): (r: (Outcome, HistoryView))
    ensures r.0 == DeleteExpense(s, id)
    ensures GetExpenseDetails(r.0.state.expenses, id).None?
    ensures forall e :: e in s.expenses && e.id != id ==> e in r.0.state.expenses
    ensures r.1.selectedExpense.None? && r.1.showDialog == v.showDialog
    ensures !FrameShown(r.1) && !DetailsShown(r.0.state.expenses, r.1)
  {
    var o := DeleteExpense(s, id);
    assert forall e :: e in o.state.expenses ==> e.id != id;
    (o, v.(selectedExpense := None))
  }
}
