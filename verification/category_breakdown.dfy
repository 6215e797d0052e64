/** The spending chart: one slice per listed category with spending above
    zero, largest first, each with its share of the total as a rounded
    percentage and its palette colour; the first four are the "Top
    Categories". */
module CategoryBreakdown {
  import opened Types
  import opened FinanceUtils
  import opened JsArray
  import SeedData

  /** One slice of the chart. */
  datatype Slice = Slice(name: string, value: int, percentage: int, color: string)

  /** The chart palette `COLORS`, keyed by category name. */
  const Palette: seq<(string, string)> := [
    ("Food", "#4CAF50"),
    ("Transport", "#2196F3"),
    ("Housing", "#9C27B0"),
    ("Entertainment", "#FF9800"),
    ("Shopping", "#F44336"),
    ("Health", "#00BCD4"),
    ("Education", "#3F51B5"),
    ("Utilities", "#795548"),
    ("Travel", "#009688"),
    ("Other", "#607D8B")
  ]

  /** The colour used for a name missing from the palette. */
  const FallbackColor: string := "#607D8B"

  /** The position of `name` in the palette, or its length when absent. */
  function PaletteIndex(pal: seq<(string, string)>, name: string): (i: nat)
    ensures i <= |pal|
    ensures i < |pal| ==> pal[i].0 == name
    ensures forall j :: 0 <= j < i ==> pal[j].0 != name
  {
    if |pal| == 0 then 0 else if pal[0].0 == name then 0 else 1 + PaletteIndex(pal[1..], name)
  }

  /** `COLORS[name] || '#607D8B'`: the palette entry, or the fallback when the
      name is missing or its entry is empty. */
  function ChartColor(name: string): (r: string)
    ensures (forall i :: 0 <= i < |Palette| ==> Palette[i].0 != name) ==> r == FallbackColor
    ensures forall i :: 0 <= i < |Palette| && Palette[i].0 == name && (forall j :: 0 <= j < i ==> Palette[j].0 != name) ==>
      r == if Palette[i].1 != "" then Palette[i].1 else FallbackColor
    ensures r != ""
  {
    var k := PaletteIndex(Palette, name);
    if k < |Palette| && Palette[k].1 != "" then Palette[k].1 else FallbackColor
  }

  /** `Math.round((value / total) * 100)`, or 0 when the total is not positive. */
  function ShareOf(value: int, total: int): (r: int)
    ensures total <= 0 ==> r == 0
    ensures total > 0 ==> (2 * r - 1) * total <= 200 * value < (2 * r + 1) * total
    ensures total > 0 && 0 <= value <= total ==> 0 <= r <= 100
  {
    if total > 0 then
      var r := RoundedPercent(value, total);
      assert 0 <= value <= total ==> 0 <= r <= 100 by {
        if 0 <= value <= total {
          assert (2 * r - 1) * total <= 200 * total;
          assert 0 * total <= (2 * r + 1) * total;
          if r > 100 {
            MulMonotone(201, 2 * r - 1, total);
          }
          if r < 0 {
            MulMonotone(2 * r + 1, -1, total);
          }
        }
      }
      r
    else 0
  }

  /** The slice computed for the category called `name`. */
  function ChartSlice(name: string, es: seq<Expense>): Slice {
    var v := CategoryTotal(es, name);
    Slice(name, v, ShareOf(v, TotalExpenses(es)), ChartColor(name))
  }

  /** `categories.map(...)`: a slice per listed name, in list order. */
  function AllSlices(names: seq<string>, es: seq<Expense>): (r: seq<Slice>)
    ensures |r| == |names|
    ensures forall i :: 0 <= i < |names| ==> r[i] == ChartSlice(names[i], es)
  {
    if |names| == 0 then [] else [ChartSlice(names[0], es)] + AllSlices(names[1..], es)
  }

  /** `.filter(category => category.value > 0)`, keeping order. */
  function KeepSpent(xs: seq<Slice>): (r: seq<Slice>)
    ensures |r| <= |xs|
    ensures forall x :: x in r <==> x in xs && x.value > 0
    ensures Distinct(xs) ==> Distinct(r)
  {
    if |xs| == 0 then []
    else
      var rest := KeepSpent(xs[1..]);
      assert xs == [xs[0]] + xs[1..];
      assert Distinct(xs) ==> Distinct(rest) && xs[0] !in rest by {
        if Distinct(xs) {
          forall i, j | 0 <= i < j < |xs[1..]| ensures xs[1..][i] != xs[1..][j] {
            assert xs[1..][i] == xs[i + 1] && xs[1..][j] == xs[j + 1];
          }
          forall k | 0 <= k < |xs[1..]| ensures xs[1..][k] != xs[0] {
            assert xs[1..][k] == xs[k + 1];
          }
        }
      }
      if xs[0].value > 0 then [xs[0]] + rest else rest
  }

  /** A single slice is kept exactly when its value is positive. */
  lemma KeepSpentOne(x: Slice)
    ensures KeepSpent([x]) == if x.value > 0 then [x] else []
  {
    assert [x][1..] == [];
  }

  /** The filter works piecewise on a concatenation, so the kept slices stay
      in their order; this order fixes how the stable sort breaks ties. */
  lemma {:induction false} KeepSpentAppend(a: seq<Slice>, b: seq<Slice>)
    ensures KeepSpent(a + b) == KeepSpent(a) + KeepSpent(b)
  {
    if |a| == 0 {
      assert a + b == b;
    } else {
      assert (a + b)[1..] == a[1..] + b;
      assert (a + b)[0] == a[0];
      KeepSpentAppend(a[1..], b);
    }
  }

  /** The comparator `b.value - a.value`, as "may come before". */
  predicate LargerFirst(a: Slice, b: Slice) {
    a.value >= b.value
  }

  lemma LargerFirstConsistent()
    ensures TotalPreorder(LargerFirst)
  {
  }

  /** Distinct names give distinct slices. */
  lemma AllSlicesDistinct(names: seq<string>, es: seq<Expense>)
    requires Distinct(names)
    ensures Distinct(AllSlices(names, es))
  {
    var xs := AllSlices(names, es);
    forall i, j | 0 <= i < j < |xs| ensures xs[i] != xs[j] {
      assert xs[i].name == names[i] && xs[j].name == names[j];
    }
  }

  /** Every listed name has its slice among all slices, and every slice there
      is the slice of a listed name. */
  lemma AllSlicesOfNames(names: seq<string>, es: seq<Expense>)
    ensures forall c :: c in names ==> ChartSlice(c, es) in AllSlices(names, es)
    ensures forall x :: x in AllSlices(names, es) ==> x.name in names && x == ChartSlice(x.name, es)
  {
    var all := AllSlices(names, es);
    forall c | c in names ensures ChartSlice(c, es) in all {
      var i :| 0 <= i < |names| && names[i] == c;
      assert all[i] == ChartSlice(c, es);
    }
  }

  /** The slices with spending, largest first. */
  function SpentSlicesSorted(names: seq<string>, es: seq<Expense>): seq<Slice> {
    Sort(KeepSpent(AllSlices(names, es)), LargerFirst)
  }

  /** The sorted slices are those of all slices with a positive value. */
  lemma SpentSlicesMembers(names: seq<string>, es: seq<Expense>)
    ensures |SpentSlicesSorted(names, es)| <= |names|
    ensures forall x :: x in SpentSlicesSorted(names, es) <==> x in AllSlices(names, es) && x.value > 0
  {
    var kept := KeepSpent(AllSlices(names, es));
    var r := Sort(kept, LargerFirst);
    assert forall x :: x in r <==> x in multiset(r);
    assert forall x :: x in kept <==> x in multiset(kept);
  }

  /** Each sorted slice is the slice of a listed name with spending. */
  lemma SpentSlicesSound(names: seq<string>, es: seq<Expense>)
    ensures var r := SpentSlicesSorted(names, es);
      forall i :: 0 <= i < |r| ==> r[i].name in names && r[i].value > 0 && r[i] == ChartSlice(r[i].name, es)
  {
    SpentSlicesMembers(names, es);
    AllSlicesOfNames(names, es);
    var r := SpentSlicesSorted(names, es);
    assert forall i :: 0 <= i < |r| ==> r[i] in r;
  }

  /** Every listed name with spending has its slice among the sorted ones. */
  lemma SpentSlicesComplete(names: seq<string>, es: seq<Expense>)
    ensures forall c :: c in names && CategoryTotal(es, c) > 0 ==> ChartSlice(c, es) in SpentSlicesSorted(names, es)
  {
    SpentSlicesMembers(names, es);
    AllSlicesOfNames(names, es);
  }

  /** The sorted slices run from the largest value down. */
  lemma SpentSlicesOrdered(names: seq<string>, es: seq<Expense>)
    ensures var r := SpentSlicesSorted(names, es);
      forall i, j :: 0 <= i < j < |r| ==> r[i].value >= r[j].value
  {
    LargerFirstConsistent();
    var r := SpentSlicesSorted(names, es);
    assert forall i, j :: 0 <= i < j < |r| ==> LargerFirst(r[i], r[j]);
  }

  /** Distinct names give sorted slices with distinct names. */
  lemma SpentSlicesNamesDistinct(names: seq<string>, es: seq<Expense>)
    requires Distinct(names)
    ensures var r := SpentSlicesSorted(names, es);
      forall i, j :: 0 <= i < j < |r| ==> r[i].name != r[j].name
  {
    var kept := KeepSpent(AllSlices(names, es));
    var r := SpentSlicesSorted(names, es);
    assert r == Sort(kept, LargerFirst);
    AllSlicesDistinct(names, es);
    PermutationKeepsDistinct(kept, r);
    SpentSlicesSound(names, es);
    forall i, j | 0 <= i < j < |r| ensures r[i].name != r[j].name {
      assert r[i] != r[j];
      assert r[i] == ChartSlice(r[i].name, es) && r[j] == ChartSlice(r[j].name, es);
    }
  }

  /** `expensesByCategory` over the categories listed by `names`: exactly one
      slice for every listed name whose expenses total more than zero, and
      nothing else; each slice carries its category's total, share and
      colour; the largest total comes first. */
  function ChartOf(names: seq<string>, es: seq<Expense>): (r: seq<Slice>)
    requires Distinct(names)
    ensures |r| <= |names|
    ensures forall i :: 0 <= i < |r| ==>
      r[i].name in names && r[i].value > 0 && r[i] == ChartSlice(r[i].name, es)
    ensures forall c :: c in names && CategoryTotal(es, c) > 0 ==> ChartSlice(c, es) in r
    ensures forall i, j :: 0 <= i < j < |r| ==> r[i].value >= r[j].value
    ensures forall i, j :: 0 <= i < j < |r| ==> r[i].name != r[j].name
  {
    SpentSlicesMembers(names, es);
    SpentSlicesSound(names, es);
    SpentSlicesComplete(names, es);
    SpentSlicesOrdered(names, es);
    SpentSlicesNamesDistinct(names, es);
    SpentSlicesSorted(names, es)
  }

  /** The chart of the dashboard, over the ten seed categories. */
  function SpendingByCategory(es: seq<Expense>): (r: seq<Slice>)
    ensures |r| <= 10
    ensures forall i :: 0 <= i < |r| ==>
      r[i].name in SeedData.SeedCategoryNames && r[i].value > 0 && r[i] == ChartSlice(r[i].name, es)
    ensures forall c :: c in SeedData.SeedCategoryNames && CategoryTotal(es, c) > 0 ==> ChartSlice(c, es) in r
    ensures forall i, j :: 0 <= i < j < |r| ==> r[i].value >= r[j].value
    ensures forall i, j :: 0 <= i < j < |r| ==> r[i].name != r[j].name
  {
    SeedData.SeedCategoryNamesDistinct();
    ChartOf(SeedData.SeedCategoryNames, es)
  }

  /** "Top Categories": the first four slices, each at least as large as any
      slice left out. */
  function TopCategories(es: seq<Expense>): (r: seq<Slice>)
    ensures var chart := SpendingByCategory(es);
      && |r| == (if |chart| < 4 then |chart| else 4)
      && r == chart[..|r|]
      && forall i, j :: 0 <= i < |r| <= j < |chart| ==> r[i].value >= chart[j].value
  {
    Take(SpendingByCategory(es), 4)
  }

  /** The expenses whose category is not among `names`. */
  function Unlisted(es: seq<Expense>, names: seq<string>): (r: seq<Expense>)
    ensures forall e :: e in r <==> e in es && e.category !in names
  {
    if |es| == 0 then []
    else
      assert es == [es[0]] + es[1..];
      (if es[0].category !in names then [es[0]] else []) + Unlisted(es[1..], names)
  }

  /** The sum of the slices' values. */
  function SumValues(xs: seq<Slice>): int {
    if |xs| == 0 then 0 else xs[0].value + SumValues(xs[1..])
  }

  lemma {:induction false} SumValuesAllSlices(names: seq<string>, es: seq<Expense>)
    ensures SumValues(AllSlices(names, es)) == SumOfCategoryTotals(es, names)
  {
    if |names| > 0 {
      SumValuesAllSlices(names[1..], es);
      assert AllSlices(names, es)[1..] == AllSlices(names[1..], es);
    }
  }

  lemma {:induction false} TotalSplitsByListing(es: seq<Expense>, names: seq<string>)
    ensures TotalExpenses(es) == TotalInCategories(es, names) + TotalExpenses(Unlisted(es, names))
  {
    if |es| > 0 {
      TotalSplitsByListing(es[1..], names);
      var u := Unlisted(es[1..], names);
      if es[0].category !in names {
        assert Unlisted(es, names) == [es[0]] + u;
        assert ([es[0]] + u)[1..] == u;
      } else {
        assert Unlisted(es, names) == u;
      }
    }
  }

  /** Before the zero slices are dropped, the slices' values add up to the
      whole total except the expenses filed under unlisted categories, which
      count toward the total (and so toward every share's denominator) but
      have no slice of their own. */
  lemma SlicesAndUnlistedMakeTotal(names: seq<string>, es: seq<Expense>)
    requires Distinct(names)
    ensures SumValues(AllSlices(names, es)) + TotalExpenses(Unlisted(es, names)) == TotalExpenses(es)
  {
    SumValuesAllSlices(names, es);
    SumOfCategoryTotalsIsTotalInCategories(es, names);
    TotalSplitsByListing(es, names);
  }

  /** The palette lists the seed categories, in the same order. */
  lemma PaletteFollowsSeedCategories()
    ensures |Palette| == |SeedData.SeedCategoryNames|
    ensures forall i :: 0 <= i < |Palette| ==> Palette[i].0 == SeedData.SeedCategoryNames[i]
  {
  }

  /** In a palette without repeated names, each name is found at its own position. */
  lemma PaletteIndexOfListed(pal: seq<(string, string)>, i: nat)
    requires forall a, b :: 0 <= a < b < |pal| ==> pal[a].0 != pal[b].0
    requires i < |pal|
    ensures PaletteIndex(pal, pal[i].0) == i
  {
    assert PaletteIndex(pal, pal[i].0) <= i;
  }

  /** Every seed category is drawn in its own palette colour, never through
      the fallback (although "Other" happens to share the fallback's colour). */
  lemma SeedChartColors(i: nat)
    requires i < |SeedData.SeedCategoryNames|
    ensures ChartColor(SeedData.SeedCategoryNames[i]) == Palette[i].1
  {
    PaletteFollowsSeedCategories();
    SeedData.SeedCategoryNamesDistinct();
    PaletteIndexOfListed(Palette, i);
  }

  /** A name that is not a seed category is drawn in the fallback colour. */
  lemma UnlistedChartColor(name: string)
    requires forall i :: 0 <= i < |SeedData.SeedCategoryNames| ==> SeedData.SeedCategoryNames[i] != name
    ensures ChartColor(name) == FallbackColor
  {
    PaletteFollowsSeedCategories();
    forall i | 0 <= i < |Palette| ensures Palette[i].0 != name {
      assert Palette[i].0 == SeedData.SeedCategoryNames[i];
    }
  }
}
