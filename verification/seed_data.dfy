/** The bundled seed dataset the provider starts from: ten categories, ten
    expenses, one budget per category, three goals, and the chart breakdown
    derived from them. Expense dates are written as YYYYMMDDhhmm numbers,
    which order exactly like the local-time instants the ISO strings denote. */
module SeedData {
  import opened Types
  import opened FinanceUtils

  const Categories: seq<Category> := [
    Category("Food", "food", "utensils"),
    Category("Transport", "transport", "car"),
    Category("Housing", "housing", "home"),
    Category("Entertainment", "entertainment", "tv"),
    Category("Shopping", "shopping", "shopping-bag"),
    Category("Health", "health", "heart-pulse"),
    Category("Education", "education", "book"),
    Category("Utilities", "utilities", "lightbulb"),
    Category("Travel", "travel", "plane"),
    Category("Other", "other", "more-horizontal")
  ]

  const Expenses: seq<Expense> := [
    Expense("1", 25000, "Food", "Lunch", 202305101200),
    Expense("2", 20000, "Transport", "Taxi ride", 202305101430),
    Expense("3", 150000, "Housing", "Rent payment", 202305010900),
    Expense("4", 35000, "Entertainment", "Movie tickets", 202305081900),
    Expense("5", 75000, "Shopping", "New shirt", 202305071645),
    Expense("6", 45000, "Health", "Pharmacy", 202305051015),
    Expense("7", 18000, "Food", "Dinner", 202305092000),
    Expense("8", 15000, "Transport", "Bus fare", 202305060830),
    Expense("9", 60000, "Utilities", "Electricity bill", 202305041120),
    Expense("10", 120000, "Travel", "Weekend trip", 202305020745)
  ]

  const Budgets: seq<Budget> := [
    Budget("Food", 500000, 43000),
    Budget("Transport", 300000, 35000),
    Budget("Housing", 1500000, 1500000),
    Budget("Entertainment", 200000, 35000),
    Budget("Shopping", 400000, 75000),
    Budget("Health", 300000, 45000),
    Budget("Education", 200000, 0),
    Budget("Utilities", 400000, 60000),
    Budget("Travel", 500000, 120000),
    Budget("Other", 100000, 0)
  ]

  const Goals: seq<Goal> := [
    Goal("1", "Emergency Fund", 6000000, 2500000, "2023-12-31T23:59:59"),
    Goal("2", "New Laptop", 8000000, 3200000, "2023-08-15T23:59:59"),
    Goal("3", "Vacation", 10000000, 1500000, "2024-02-28T23:59:59")
  ]

  /** One slice of the bundled category chart. */
  datatype ChartEntry = ChartEntry(name: string, value: int, color: string)

  /** `categories.map(...)` of the seed module: each category's name and colour
      token with the total of the expenses filed under it. */
  function Breakdown(cats: seq<Category>, es: seq<Expense>): (r: seq<ChartEntry>)
    ensures |r| == |cats|
    ensures forall i :: 0 <= i < |cats| ==>
      r[i].name == cats[i].name && r[i].color == cats[i].color && r[i].value == CategoryTotal(es, cats[i].name)
  {
    seq(|cats|, i requires 0 <= i < |cats| => ChartEntry(cats[i].name, CategoryTotal(es, cats[i].name), cats[i].color))
  }

  const CategoryBreakdown: seq<ChartEntry> := Breakdown(Categories, Expenses)

  function CategoryNames(cats: seq<Category>): (r: seq<string>)
    ensures |r| == |cats|
    ensures forall i :: 0 <= i < |cats| ==> r[i] == cats[i].name
  {
    if |cats| == 0 then [] else [cats[0].name] + CategoryNames(cats[1..])
  }

  /** The names of the seed categories, in list order. */
  const SeedCategoryNames: seq<string> := ["Food", "Transport", "Housing", "Entertainment", "Shopping",
                                            "Health", "Education", "Utilities", "Travel", "Other"]

  /** The position of a seed category name in the list, and 10 for any other name. */
  function SeedRank(name: string): nat {
    if name == "Food" then 0
    else if name == "Transport" then 1
    else if name == "Housing" then 2
    else if name == "Entertainment" then 3
    else if name == "Shopping" then 4
    else if name == "Health" then 5
    else if name == "Education" then 6
    else if name == "Utilities" then 7
    else if name == "Travel" then 8
    else if name == "Other" then 9
    else 10
  }

  /** Every seed category name sits at its own rank. */
  lemma SeedNamesRanked()
    ensures |SeedCategoryNames| == 10
    ensures forall i :: 0 <= i < 10 ==> SeedRank(SeedCategoryNames[i]) == i
  {
    var ns := SeedCategoryNames;
    assert SeedRank(ns[0]) == 0;
    assert SeedRank(ns[1]) == 1;
    assert SeedRank(ns[2]) == 2;
    assert SeedRank(ns[3]) == 3;
    assert SeedRank(ns[4]) == 4;
    assert SeedRank(ns[5]) == 5;
    assert SeedRank(ns[6]) == 6;
    assert SeedRank(ns[7]) == 7;
    assert SeedRank(ns[8]) == 8;
    assert SeedRank(ns[9]) == 9;
  }

  /** No seed category name occurs twice. */
  lemma SeedCategoryNamesDistinct()
    ensures |SeedCategoryNames| == 10
    ensures Distinct(SeedCategoryNames)
  {
    SeedNamesRanked();
  }

  lemma FirstCategoriesNamed()
    ensures |Categories| == 10
    ensures forall i :: 0 <= i < 5 ==> Categories[i].name == SeedCategoryNames[i]
  {
    assert Categories[0].name == SeedCategoryNames[0];
    assert Categories[1].name == SeedCategoryNames[1];
    assert Categories[2].name == SeedCategoryNames[2];
    assert Categories[3].name == SeedCategoryNames[3];
    assert Categories[4].name == SeedCategoryNames[4];
  }

  lemma LastCategoriesNamed()
    ensures |Categories| == 10
    ensures forall i :: 5 <= i < 10 ==> Categories[i].name == SeedCategoryNames[i]
  {
    assert Categories[5].name == SeedCategoryNames[5];
    assert Categories[6].name == SeedCategoryNames[6];
    assert Categories[7].name == SeedCategoryNames[7];
    assert Categories[8].name == SeedCategoryNames[8];
    assert Categories[9].name == SeedCategoryNames[9];
  }

  /** The seed categories carry the listed names, in order. */
  lemma SeedCategoryNamesListed()
    ensures |Categories| == |SeedCategoryNames| == 10
    ensures forall i :: 0 <= i < |Categories| ==> Categories[i].name == SeedCategoryNames[i]
    ensures CategoryNames(Categories) == SeedCategoryNames
  {
    FirstCategoriesNamed();
    LastCategoriesNamed();
  }

  /** Every seed category has a colour token. */
  lemma SeedCategoryColorsSet()
    ensures forall i :: 0 <= i < |Categories| ==> Categories[i].color != ""
  {
  }

  /** There is exactly one budget per category, listed in category order. */
  lemma SeedBudgetsFollowCategories()
    ensures |Budgets| == |Categories|
    ensures forall i :: 0 <= i < |Budgets| ==> Budgets[i].category == Categories[i].name
  {
  }

  /** The seed budgets carry the listed names, in order. */
  lemma SeedBudgetCategoriesListed()
    ensures |Budgets| == |SeedCategoryNames| == 10
    ensures forall i :: 0 <= i < |Budgets| ==> Budgets[i].category == SeedCategoryNames[i]
  {
    SeedBudgetsFollowCategories();
    SeedCategoryNamesListed();
  }

  /** Seed expense ids are pairwise distinct, and so are seed goal ids. */
  lemma SeedIdsDistinct()
    ensures forall i, j :: 0 <= i < j < |Expenses| ==> Expenses[i].id != Expenses[j].id
    ensures forall i, j :: 0 <= i < j < |Goals| ==> Goals[i].id != Goals[j].id
  {
  }

  /** Every seed expense is filed under a known category. */
  lemma SeedExpenseCategoriesKnown()
    ensures forall i :: 0 <= i < |Expenses| ==> Expenses[i].category in SeedCategoryNames
  {
    var ns := SeedCategoryNames;
    assert Expenses[0].category == ns[0];
    assert Expenses[1].category == ns[1];
    assert Expenses[2].category == ns[2];
    assert Expenses[3].category == ns[3];
    assert Expenses[4].category == ns[4];
    assert Expenses[5].category == ns[5];
    assert Expenses[6].category == ns[0];
    assert Expenses[7].category == ns[1];
    assert Expenses[8].category == ns[7];
    assert Expenses[9].category == ns[8];
  }

  /** Every seed goal is still within its target. */
  lemma SeedGoalsWithinTarget()
    ensures forall i :: 0 <= i < |Goals| ==> 0 <= Goals[i].currentAmount <= Goals[i].targetAmount
  {
  }

  // The expense total of each seed category, worked out one category at a time.
  lemma SeedFoodTotal() ensures CategoryTotal(Expenses, "Food") == 43000 { }
  lemma SeedTransportTotal() ensures CategoryTotal(Expenses, "Transport") == 35000 { }
  lemma SeedHousingTotal() ensures CategoryTotal(Expenses, "Housing") == 150000 { }
  lemma SeedEntertainmentTotal() ensures CategoryTotal(Expenses, "Entertainment") == 35000 { }
  lemma SeedShoppingTotal() ensures CategoryTotal(Expenses, "Shopping") == 75000 { }
  lemma SeedHealthTotal() ensures CategoryTotal(Expenses, "Health") == 45000 { }
  lemma SeedEducationTotal() ensures CategoryTotal(Expenses, "Education") == 0 { }
  lemma SeedUtilitiesTotal() ensures CategoryTotal(Expenses, "Utilities") == 60000 { }
  lemma SeedTravelTotal() ensures CategoryTotal(Expenses, "Travel") == 120000 { }
  lemma SeedOtherTotal() ensures CategoryTotal(Expenses, "Other") == 0 { }

  /** Every seed budget's `spent` is the total of its category's seed
      expenses, except Housing, whose budget records 1500000 against 150000 of
      expenses. */
  lemma SeedSpentMatchesExpensesExceptHousing()
    ensures Budgets[0].category == "Food" && Budgets[0].spent == CategoryTotal(Expenses, "Food")
    ensures Budgets[1].category == "Transport" && Budgets[1].spent == CategoryTotal(Expenses, "Transport")
    ensures Budgets[3].category == "Entertainment" && Budgets[3].spent == CategoryTotal(Expenses, "Entertainment")
    ensures Budgets[4].category == "Shopping" && Budgets[4].spent == CategoryTotal(Expenses, "Shopping")
    ensures Budgets[5].category == "Health" && Budgets[5].spent == CategoryTotal(Expenses, "Health")
    ensures Budgets[6].category == "Education" && Budgets[6].spent == CategoryTotal(Expenses, "Education")
    ensures Budgets[7].category == "Utilities" && Budgets[7].spent == CategoryTotal(Expenses, "Utilities")
    ensures Budgets[8].category == "Travel" && Budgets[8].spent == CategoryTotal(Expenses, "Travel")
    ensures Budgets[9].category == "Other" && Budgets[9].spent == CategoryTotal(Expenses, "Other")
    ensures Budgets[2].category == "Housing"
    ensures Budgets[2].spent == 1500000 && CategoryTotal(Expenses, "Housing") == 150000
  {
    assert Budgets[0] == Budget("Food", 500000, 43000);
    assert Budgets[1] == Budget("Transport", 300000, 35000);
    assert Budgets[2] == Budget("Housing", 1500000, 1500000);
    assert Budgets[3] == Budget("Entertainment", 200000, 35000);
    assert Budgets[4] == Budget("Shopping", 400000, 75000);
    assert Budgets[5] == Budget("Health", 300000, 45000);
    assert Budgets[6] == Budget("Education", 200000, 0);
    assert Budgets[7] == Budget("Utilities", 400000, 60000);
    assert Budgets[8] == Budget("Travel", 500000, 120000);
    assert Budgets[9] == Budget("Other", 100000, 0);
    SeedFoodTotal();
    SeedTransportTotal();
    SeedHousingTotal();
    SeedEntertainmentTotal();
    SeedShoppingTotal();
    SeedHealthTotal();
    SeedEducationTotal();
    SeedUtilitiesTotal();
    SeedTravelTotal();
    SeedOtherTotal();
  }

  /** `SeedSpentMatchesExpensesExceptHousing`, one budget at a time. */
  lemma SeedSpentAt(i: nat)
    requires i < |Budgets| && i != 2
    ensures Budgets[i].spent == CategoryTotal(Expenses, Budgets[i].category)
  {
    SeedSpentMatchesExpensesExceptHousing();
    if i == 0 {
    } else if i == 1 {
    } else if i == 3 {
    } else if i == 4 {
    } else if i == 5 {
    } else if i == 6 {
    } else if i == 7 {
    } else if i == 8 {
    } else {
      assert i == 9;
    }
  }

  /** The bundled chart of the seed module: each category's name and colour
      token with the total of its seed expenses. */
  lemma SeedBreakdownValues()
    ensures |CategoryBreakdown| == 10
    ensures CategoryBreakdown[0] == ChartEntry("Food", 43000, "food")
    ensures CategoryBreakdown[1] == ChartEntry("Transport", 35000, "transport")
    ensures CategoryBreakdown[2] == ChartEntry("Housing", 150000, "housing")
    ensures CategoryBreakdown[3] == ChartEntry("Entertainment", 35000, "entertainment")
    ensures CategoryBreakdown[4] == ChartEntry("Shopping", 75000, "shopping")
    ensures CategoryBreakdown[5] == ChartEntry("Health", 45000, "health")
    ensures CategoryBreakdown[6] == ChartEntry("Education", 0, "education")
    ensures CategoryBreakdown[7] == ChartEntry("Utilities", 60000, "utilities")
    ensures CategoryBreakdown[8] == ChartEntry("Travel", 120000, "travel")
    ensures CategoryBreakdown[9] == ChartEntry("Other", 0, "other")
  {
    FoodEntry();
    TransportEntry();
    HousingEntry();
    EntertainmentEntry();
    ShoppingEntry();
    HealthEntry();
    EducationEntry();
    UtilitiesEntry();
    TravelEntry();
    OtherEntry();
  }

  // One chart entry at a time: the category first, then its total.
  lemma FoodEntry()
    ensures CategoryBreakdown[0] == ChartEntry("Food", 43000, "food")
  {
    assert Categories[0] == Category("Food", "food", "utensils");
    SeedFoodTotal();
  }

  lemma TransportEntry()
    ensures CategoryBreakdown[1] == ChartEntry("Transport", 35000, "transport")
  {
    assert Categories[1] == Category("Transport", "transport", "car");
    SeedTransportTotal();
  }

  lemma HousingEntry()
    ensures CategoryBreakdown[2] == ChartEntry("Housing", 150000, "housing")
  {
    assert Categories[2] == Category("Housing", "housing", "home");
    SeedHousingTotal();
  }

  lemma EntertainmentEntry()
    ensures CategoryBreakdown[3] == ChartEntry("Entertainment", 35000, "entertainment")
  {
    assert Categories[3] == Category("Entertainment", "entertainment", "tv");
    SeedEntertainmentTotal();
  }

  lemma ShoppingEntry()
    ensures CategoryBreakdown[4] == ChartEntry("Shopping", 75000, "shopping")
  {
    assert Categories[4] == Category("Shopping", "shopping", "shopping-bag");
    SeedShoppingTotal();
  }

  lemma HealthEntry()
    ensures CategoryBreakdown[5] == ChartEntry("Health", 45000, "health")
  {
    assert Categories[5] == Category("Health", "health", "heart-pulse");
    SeedHealthTotal();
  }

  lemma EducationEntry()
    ensures CategoryBreakdown[6] == ChartEntry("Education", 0, "education")
  {
    assert Categories[6] == Category("Education", "education", "book");
    SeedEducationTotal();
  }

  lemma UtilitiesEntry()
    ensures CategoryBreakdown[7] == ChartEntry("Utilities", 60000, "utilities")
  {
    assert Categories[7] == Category("Utilities", "utilities", "lightbulb");
    SeedUtilitiesTotal();
  }

  lemma TravelEntry()
    ensures CategoryBreakdown[8] == ChartEntry("Travel", 120000, "travel")
  {
    assert Categories[8] == Category("Travel", "travel", "plane");
    SeedTravelTotal();
  }

  lemma OtherEntry()
    ensures CategoryBreakdown[9] == ChartEntry("Other", 0, "other")
  {
    assert Categories[9] == Category("Other", "other", "more-horizontal");
    SeedOtherTotal();
  }
}
