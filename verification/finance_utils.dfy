/** The pure arithmetic helpers of the dashboard: sums, per-category totals,
    rounded and capped percentages, the exceeded test, the remaining budget
    and the colour class of a budget bar. */
module FinanceUtils {
  import opened Types

  // ---------------------------------------------------------------------
  // Sums

  /** The sum of all expense amounts (`calculateTotalExpenses`). */
  function TotalExpenses(es: seq<Expense>): (r: int)
    ensures |es| == 0 ==> r == 0
    ensures |es| == 1 ==> r == es[0].amount
    ensures (forall i :: 0 <= i < |es| ==> es[i].amount >= 0) ==> r >= 0
  {
    if |es| == 0 then 0 else es[0].amount + TotalExpenses(es[1..])
  }

  lemma {:induction false} TotalExpensesAppend(a: seq<Expense>, b: seq<Expense>)
    ensures TotalExpenses(a + b) == TotalExpenses(a) + TotalExpenses(b)
  {
    if |a| == 0 {
      assert a + b == b;
    } else {
      assert (a + b)[1..] == a[1..] + b;
      TotalExpensesAppend(a[1..], b);
    }
  }

  /** The sum of all budget limits (`calculateTotalBudget`). */
  function TotalBudget(bs: seq<Budget>): (r: int)
    ensures |bs| == 0 ==> r == 0
    ensures |bs| == 1 ==> r == bs[0].limit
    ensures (forall i :: 0 <= i < |bs| ==> bs[i].limit >= 0) ==> r >= 0
  {
    if |bs| == 0 then 0 else bs[0].limit + TotalBudget(bs[1..])
  }

  lemma {:induction false} TotalBudgetAppend(a: seq<Budget>, b: seq<Budget>)
    ensures TotalBudget(a + b) == TotalBudget(a) + TotalBudget(b)
  {
    if |a| == 0 {
      assert a + b == b;
    } else {
      assert (a + b)[1..] == a[1..] + b;
      TotalBudgetAppend(a[1..], b);
    }
  }

  /** The sum of all budgets' spent totals (`calculateTotalSpent`). */
  function TotalSpent(bs: seq<Budget>): (r: int)
    ensures |bs| == 0 ==> r == 0
    ensures |bs| == 1 ==> r == bs[0].spent
    ensures (forall i :: 0 <= i < |bs| ==> bs[i].spent >= 0) ==> r >= 0
  {
    if |bs| == 0 then 0 else bs[0].spent + TotalSpent(bs[1..])
  }

  lemma {:induction false} TotalSpentAppend(a: seq<Budget>, b: seq<Budget>)
    ensures TotalSpent(a + b) == TotalSpent(a) + TotalSpent(b)
  {
    if |a| == 0 {
      assert a + b == b;
    } else {
      assert (a + b)[1..] == a[1..] + b;
      TotalSpentAppend(a[1..], b);
    }
  }

  // ---------------------------------------------------------------------
  // Per-category totals

  /** The sum of the amounts of the expenses whose category is `c`, i.e. the
      total of `es.filter(e => e.category === c)`. */
  function CategoryTotal(es: seq<Expense>, c: string): int
  {
    if |es| == 0 then 0
    else (if es[0].category == c then es[0].amount else 0) + CategoryTotal(es[1..], c)
  }

  lemma {:induction false} CategoryTotalAppend(a: seq<Expense>, b: seq<Expense>, c: string)
    ensures CategoryTotal(a + b, c) == CategoryTotal(a, c) + CategoryTotal(b, c)
  {
    if |a| == 0 {
      assert a + b == b;
    } else {
      assert (a + b)[1..] == a[1..] + b;
      CategoryTotalAppend(a[1..], b, c);
    }
  }

  /** Some expense of `es` has category `c`. */
  predicate HasCategory(es: seq<Expense>, c: string) {
    exists i :: 0 <= i < |es| && es[i].category == c
  }

  /** The left fold behind `calculateExpensesByCategory`: starting from `acc`,
      each expense adds its amount under its category (0 when the key is new). */
  function ByCategoryFrom(acc: map<string, int>, es: seq<Expense>): (r: map<string, int>)
    ensures forall c :: c in r <==> c in acc || HasCategory(es, c)
    ensures forall c :: c in r ==> r[c] == (if c in acc then acc[c] else 0) + CategoryTotal(es, c)
    decreases |es|
  {
    if |es| == 0 then acc
    else
      var c := es[0].category;
      var acc' := acc[c := (if c in acc then acc[c] else 0) + es[0].amount];
      var r := ByCategoryFrom(acc', es[1..]);
      assert forall k :: HasCategory(es[1..], k) ==> HasCategory(es, k) by {
        forall k | HasCategory(es[1..], k) ensures HasCategory(es, k) {
          var i :| 0 <= i < |es[1..]| && es[1..][i].category == k;
          assert es[i + 1].category == k;
        }
      }
      assert forall k :: HasCategory(es, k) ==> k == c || HasCategory(es[1..], k) by {
        forall k | HasCategory(es, k) && k != c ensures HasCategory(es[1..], k) {
          var i :| 0 <= i < |es| && es[i].category == k;
          assert i > 0;
          assert es[1..][i - 1].category == k;
        }
      }
      r
  }

  /** `calculateExpensesByCategory`: a key for exactly the categories that
      occur, each mapped to the total of its expenses. */
  function ExpensesByCategory(es: seq<Expense>): (r: map<string, int>)
    ensures forall c :: c in r <==> exists i :: 0 <= i < |es| && es[i].category == c
    ensures forall c :: c in r ==> r[c] == CategoryTotal(es, c)
  {
    ByCategoryFrom(map[], es)
  }

  /** The sum of `m`'s values at the keys listed in `ks`. */
  function SumAt(m: map<string, int>, ks: seq<string>): int
    requires forall k :: k in ks ==> k in m
  {
    if |ks| == 0 then 0 else m[ks[0]] + SumAt(m, ks[1..])
  }

  /** The sum of the per-category totals of `es` over the names `ks`. */
  function SumOfCategoryTotals(es: seq<Expense>, ks: seq<string>): int
  {
    if |ks| == 0 then 0 else CategoryTotal(es, ks[0]) + SumOfCategoryTotals(es, ks[1..])
  }

  /** The total of the expenses whose category is one of `ks`. */
  function TotalInCategories(es: seq<Expense>, ks: seq<string>): int
  {
    if |es| == 0 then 0
    else (if es[0].category in ks then es[0].amount else 0) + TotalInCategories(es[1..], ks)
  }

  /** Peeling the first expense off every per-category total removes its
      amount exactly once, when its category is listed. */
  lemma {:induction false} SumOfCategoryTotalsCons(es: seq<Expense>, ks: seq<string>)
    requires |es| > 0
    requires Distinct(ks)
    ensures SumOfCategoryTotals(es, ks)
         == (if es[0].category in ks then es[0].amount else 0) + SumOfCategoryTotals(es[1..], ks)
  {
    if |ks| > 0 {
      SumOfCategoryTotalsCons(es, ks[1..]);
      assert ks[0] !in ks[1..] by {
        forall j | 0 <= j < |ks[1..]| ensures ks[1..][j] != ks[0] {
          assert ks[1..][j] == ks[j + 1];
        }
      }
      assert es[0].category in ks <==> es[0].category == ks[0] || es[0].category in ks[1..] by {
        assert ks == [ks[0]] + ks[1..];
      }
    }
  }

  /** Summing the per-category totals over distinct names gives the total of
      the expenses in those categories; nothing is counted twice. */
  lemma {:induction false} SumOfCategoryTotalsIsTotalInCategories(es: seq<Expense>, ks: seq<string>)
    requires Distinct(ks)
    ensures SumOfCategoryTotals(es, ks) == TotalInCategories(es, ks)
  {
    if |es| == 0 {
      SumOfCategoryTotalsEmpty(ks);
    } else {
      SumOfCategoryTotalsCons(es, ks);
      SumOfCategoryTotalsIsTotalInCategories(es[1..], ks);
    }
  }

  lemma {:induction false} SumOfCategoryTotalsEmpty(ks: seq<string>)
    ensures SumOfCategoryTotals([], ks) == 0
  {
    if |ks| > 0 {
      SumOfCategoryTotalsEmpty(ks[1..]);
    }
  }

  /** When every expense's category is listed, the listed categories hold the whole total. */
  lemma {:induction false} TotalInAllCategories(es: seq<Expense>, ks: seq<string>)
    requires forall i :: 0 <= i < |es| ==> es[i].category in ks
    ensures TotalInCategories(es, ks) == TotalExpenses(es)
  {
    if |es| > 0 {
      TotalInAllCategories(es[1..], ks);
    }
  }

  lemma {:induction false} SumAtByCategory(es: seq<Expense>, ks: seq<string>)
    requires forall k :: k in ks ==> k in ExpensesByCategory(es)
    ensures SumAt(ExpensesByCategory(es), ks) == SumOfCategoryTotals(es, ks)
  {
    if |ks| > 0 {
      SumAtByCategory(es, ks[1..]);
    }
  }

  /** The values of `calculateExpensesByCategory` add up to
      `calculateTotalExpenses` of the same list: summed over any duplicate-free
      listing `ks` of the map's keys. */
  lemma ExpensesByCategorySumsToTotal(es: seq<Expense>, ks: seq<string>)
    requires Distinct(ks)
    requires forall k :: k in ks <==> k in ExpensesByCategory(es)
    ensures SumAt(ExpensesByCategory(es), ks) == TotalExpenses(es)
  {
    SumAtByCategory(es, ks);
    SumOfCategoryTotalsIsTotalInCategories(es, ks);
    TotalInAllCategories(es, ks);
  }

  // ---------------------------------------------------------------------
  // Percentages

  /** The floor of a / b, for either sign of b. */
  function FloorDiv(a: int, b: int): (q: int)
    requires b != 0
    ensures b > 0 ==> b * q <= a < b * q + b
    ensures b < 0 ==> b * q >= a > b * q + b
  {
    if b > 0 then a / b else (-a) / (-b)
  }

  /** `Math.round((part / whole) * 100)` over exact rationals. Math.round
      rounds halves up, so this is the floor of 100·part/whole + 1/2, that is
      the integer r with r - 1/2 <= 100·part/whole < r + 1/2. */
  function RoundedPercent(part: int, whole: int): (r: int)
    requires whole != 0
    ensures whole > 0 ==> (2 * r - 1) * whole <= 200 * part < (2 * r + 1) * whole
    ensures whole < 0 ==> (2 * r - 1) * whole >= 200 * part > (2 * r + 1) * whole
  {
    var q := FloorDiv(200 * part + whole, 2 * whole);
    assert (2 * q - 1) * whole == 2 * whole * q - whole;
    assert (2 * q + 1) * whole == 2 * whole * q + 2 * whole - whole;
    q
  }

  lemma MulStrictCancel(a: int, b: int, w: int)
    requires w > 0
    requires a * w < b * w
    ensures a < b
  {
    assert b * w - a * w == (b - a) * w;
  }

  lemma MulMonotone(a: int, b: int, w: int)
    requires w >= 0
    requires a <= b
    ensures a * w <= b * w
  {
    assert b * w - a * w == (b - a) * w;
  }

  /** `calculateBudgetPercentage(spent, limit)`: 0 for a zero limit, otherwise
      the rounded percentage capped at 100. */
  function BudgetPercentage(spent: int, limit: int): (r: int)
    ensures limit == 0 ==> r == 0
    ensures r <= 100
    ensures 0 < limit <= spent ==> r == 100
    ensures limit > 0 && r < 100 ==> (2 * r - 1) * limit <= 200 * spent < (2 * r + 1) * limit
    ensures limit > 0 && r == 100 ==> 200 * spent >= 199 * limit
  {
    if limit == 0 then 0
    else
      var p := RoundedPercent(spent, limit);
      RoundedPercentAtHundred(spent, limit, p);
      Min(p, 100)
  }

  /** Where a positive-denominator rounded percentage p stands against 100. */
  lemma RoundedPercentAtHundred(part: int, whole: int, p: int)
    requires whole > 0 ==> (2 * p - 1) * whole <= 200 * part < (2 * p + 1) * whole
    ensures 0 < whole <= part ==> p >= 100
    ensures whole > 0 && p >= 100 ==> 200 * part >= 199 * whole
    ensures whole > 0 && 200 * part >= 199 * whole ==> p >= 100
  {
    if whole > 0 {
      if part >= whole {
        assert 200 * whole <= 200 * part;
        MulStrictCancel(200, 2 * p + 1, whole);
      }
      if p >= 100 {
        MulMonotone(199, 2 * p - 1, whole);
      }
      if 200 * part >= 199 * whole {
        MulStrictCancel(199, 2 * p + 1, whole);
      }
    }
  }

  /** For a fixed positive limit, more spending never shows a smaller percentage. */
  lemma BudgetPercentageMonotone(s1: int, s2: int, limit: int)
    requires limit > 0
    requires s1 <= s2
    ensures BudgetPercentage(s1, limit) <= BudgetPercentage(s2, limit)
  {
    var p1 := RoundedPercent(s1, limit);
    var p2 := RoundedPercent(s2, limit);
    assert (2 * p1 - 1) * limit < (2 * p2 + 1) * limit;
    MulStrictCancel(2 * p1 - 1, 2 * p2 + 1, limit);
  }

  /** `isBudgetExceeded`: strictly over the limit; spending exactly the limit
      is not exceeded. A budget is within its limit exactly when the remaining
      budget is the plain difference, and an exceeded budget with a positive
      limit reads 100%. */
  function IsBudgetExceeded(spent: int, limit: int): (r: bool)
    ensures !r <==> RemainingBudget(spent, limit) == limit - spent
    ensures r ==> RemainingBudget(spent, limit) == 0
    ensures r && limit > 0 ==> BudgetPercentage(spent, limit) == 100
  {
    spent > limit
  }

  /** `calculateGoalProgress`; the source repeats the percentage formula verbatim.
      With a positive target the goal reads 100% exactly when at least 99.5% of
      it has been saved. */
  function GoalProgress(currentAmount: int, targetAmount: int): (r: int)
    ensures targetAmount == 0 ==> r == 0
    ensures r <= 100
    ensures targetAmount > 0 ==> (r == 100 <==> 200 * currentAmount >= 199 * targetAmount)
    ensures targetAmount > 0 && r < 100 ==>
      (2 * r - 1) * targetAmount <= 200 * currentAmount < (2 * r + 1) * targetAmount
  {
    var r := BudgetPercentage(currentAmount, targetAmount);
    if targetAmount > 0 then
      RoundedPercentAtHundred(currentAmount, targetAmount, RoundedPercent(currentAmount, targetAmount));
      r
    else r
  }

  /** `calculateRemainingBudget`: what is left of the limit, never negative. */
  function RemainingBudget(spent: int, limit: int): (r: int)
    ensures r >= 0
    ensures r == limit - spent <==> spent <= limit
    ensures spent >= limit ==> r == 0
  {
    Max(0, limit - spent)
  }

  /** The three bar colours of `getBudgetColorClass`. */
  datatype ColorClass = BgSuccess | BgWarning | BgAlert

  /** `getBudgetColorClass`: success below 70%, warning from 70% to below 90%,
      alert from 90%; every percentage falls in exactly one band. */
  function BudgetColorClass(percentage: int): (r: ColorClass)
    ensures r == BgSuccess <==> percentage < 70
    ensures r == BgWarning <==> 70 <= percentage < 90
    ensures r == BgAlert <==> 90 <= percentage
  {
    if percentage < 70 then BgSuccess
    else if percentage < 90 then BgWarning
    else BgAlert
  }

  // ---------------------------------------------------------------------
  // Date range

  /** `filterExpensesByDateRange`, inclusive at both ends, keeping order. */
  function FilterByDateRange(es: seq<Expense>, start: int, end: int): (r: seq<Expense>)
    ensures |r| <= |es|
    ensures forall e :: e in r <==> e in es && start <= e.date <= end
    ensures (forall i :: 0 <= i < |es| ==> start <= es[i].date <= end) ==> r == es
  {
    if |es| == 0 then []
    else
      var rest := FilterByDateRange(es[1..], start, end);
      assert forall e :: e in es <==> e == es[0] || e in es[1..] by {
        assert es == [es[0]] + es[1..];
      }
      if start <= es[0].date <= end then [es[0]] + rest else rest
  }

  /** A single expense is kept exactly when it is dated within the range. */
  lemma FilterByDateRangeOne(e: Expense, start: int, end: int)
    ensures FilterByDateRange([e], start, end) == if start <= e.date <= end then [e] else []
  {
    assert [e][1..] == [];
  }

  /** The filter works piecewise on a concatenation, so the kept expenses
      stay in their order, each as often as it occurs. */
  lemma {:induction false} FilterByDateRangeAppend(a: seq<Expense>, b: seq<Expense>, start: int, end: int)
    ensures FilterByDateRange(a + b, start, end) == FilterByDateRange(a, start, end) + FilterByDateRange(b, start, end)
  {
    if |a| == 0 {
      assert a + b == b;
    } else {
      assert (a + b)[1..] == a[1..] + b;
      FilterByDateRangeAppend(a[1..], b, start, end);
    }
  }
}
