// The budget aggregator (`BudgetService`): read-only derivations over the two
// collections. A user's summary (total budget, total spent, what remains), a
// per-category breakdown, spending totals per year or per month newest first,
// and per-month, per-category trend groups with a spending suggestion.

module BudgetService {
  import opened Records
  import opened Ledger
  import opened Grouping
  import opened Sorting

  // ---------------------------------------------------------------------------
  // getBudgetSummary
  // ---------------------------------------------------------------------------

  datatype BudgetSummary = BudgetSummary(totalBudget: int, totalExpenses: int, remainingBudget: int)

  /** The reference sum of the budgets of a list of categories. */
  function SumBudgets(cs: seq<Category>): int
  {
    if cs == [] then 0 else cs[0].budget + SumBudgets(cs[1..])
  }

  /** `categories.reduce((sum, category) => sum + category.budget, acc)`: a left fold. */
  function ReduceBudgets(acc: int, cs: seq<Category>): int
    decreases |cs|
  {
    if cs == [] then acc else ReduceBudgets(acc + cs[0].budget, cs[1..])
  }

  lemma {:induction false} ReduceBudgetsIsSum(acc: int, cs: seq<Category>)
    ensures ReduceBudgets(acc, cs) == acc + SumBudgets(cs)
    decreases |cs|
  {
    if cs != [] {
      ReduceBudgetsIsSum(acc + cs[0].budget, cs[1..]);
    }
  }

  /**
   * getBudgetSummary: the budgets of the user's categories added up, the amounts
   * of all the user's expenses added up (whatever their category), and the
   * difference, which nothing keeps from being negative.
   */
  function GetBudgetSummary(cs: seq<Category>, es: seq<Expense>, userId: UserId): (r: BudgetSummary)
    ensures r.totalBudget == SumBudgets(CategoriesOf(cs, userId))
    ensures r.totalExpenses == SumAmounts(OwnedBy(es, userId))
    ensures r.remainingBudget == r.totalBudget - r.totalExpenses
  {
    var categories := CategoriesOf(cs, userId);
    var totalBudget := ReduceBudgets(0, categories);
    ReduceBudgetsIsSum(0, categories);
    var totalExpenseAmount := WholeTotal(OwnedBy(es, userId));
    BudgetSummary(totalBudget, totalExpenseAmount, totalBudget - totalExpenseAmount)
  }

  lemma {:induction false} CategoriesOfUniqueIds(cs: seq<Category>, u: UserId)
    requires UniqueIds(cs)
    ensures UniqueIds(CategoriesOf(cs, u))
  {
    if cs != [] {
      var rest := CategoriesOf(cs[1..], u);
      assert UniqueIds(cs[1..]) by {
        forall i, j | 0 <= i < j < |cs[1..]| ensures cs[1..][i].id != cs[1..][j].id {
          assert cs[1..][i] == cs[i + 1] && cs[1..][j] == cs[j + 1];
        }
      }
      CategoriesOfUniqueIds(cs[1..], u);
      if cs[0].userId == u {
        var r := [cs[0]] + rest;
        forall i, j | 0 <= i < j < |r|
          ensures r[i].id != r[j].id
        {
          assert r[j] == rest[j - 1] && rest[j - 1] in cs[1..];
          if i > 0 {
            assert r[i] == rest[i - 1];
          } else {
            var k :| 0 <= k < |cs[1..]| && cs[1..][k] == r[j];
            assert cs[k + 1] == r[j];
          }
        }
      }
    }
  }

  /** The spend of user u summed over a list of categories. */
  function SpendAcross(es: seq<Expense>, u: UserId, cs: seq<Category>): int
  {
    if cs == [] then 0 else Spend(es, u, cs[0].id) + SpendAcross(es, u, cs[1..])
  }

  /** What one expense contributes to SpendAcross. */
  function ShareAcross(e: Expense, u: UserId, cs: seq<Category>): int
  {
    if cs == [] then 0 else Share(e, u, cs[0].id) + ShareAcross(e, u, cs[1..])
  }

  lemma {:induction false} SpendAcrossCons(es: seq<Expense>, u: UserId, cs: seq<Category>)
    requires es != []
    ensures SpendAcross(es, u, cs) == ShareAcross(es[0], u, cs) + SpendAcross(es[1..], u, cs)
  {
    if cs != [] {
      SpendCons(es, u, cs[0].id);
      SpendAcrossCons(es, u, cs[1..]);
    }
  }

  lemma {:induction false} NoSpendAcross(u: UserId, cs: seq<Category>)
    ensures SpendAcross([], u, cs) == 0
  {
    if cs != [] {
      NoSpendAcross(u, cs[1..]);
    }
  }

  lemma {:induction false} ShareAcrossZero(e: Expense, u: UserId, cs: seq<Category>)
    requires forall c :: c in cs ==> Share(e, u, c.id) == 0
    ensures ShareAcross(e, u, cs) == 0
  {
    if cs != [] {
      assert cs[0] in cs;
      assert forall c :: c in cs[1..] ==> c in cs;
      ShareAcrossZero(e, u, cs[1..]);
    }
  }

  /** An expense of u whose category appears once in the list contributes its whole amount. */
  lemma {:induction false} ShareAcrossOnce(e: Expense, u: UserId, cs: seq<Category>)
    requires UniqueIds(cs)
    requires e.userId == u
    requires exists c :: c in cs && c.id == e.categoryId
    ensures ShareAcross(e, u, cs) == e.amount
  {
    assert UniqueIds(cs[1..]) by {
      forall i, j | 0 <= i < j < |cs[1..]| ensures cs[1..][i].id != cs[1..][j].id {
        assert cs[1..][i] == cs[i + 1] && cs[1..][j] == cs[j + 1];
      }
    }
    if cs[0].id == e.categoryId {
      forall c | c in cs[1..]
        ensures Share(e, u, c.id) == 0
      {
        var k :| 0 <= k < |cs[1..]| && cs[1..][k] == c;
        assert cs[k + 1] == c;
      }
      ShareAcrossZero(e, u, cs[1..]);
    } else {
      var c :| c in cs && c.id == e.categoryId;
      assert c in cs[1..] by {
        var k :| 0 <= k < |cs| && cs[k] == c;
        assert k != 0;
        assert cs[1..][k - 1] == c;
      }
      ShareAcrossOnce(e, u, cs[1..]);
    }
  }

  /** When each of u's expenses has its category in the list once, u's total spend splits by category. */
  lemma {:induction false} OwnedSpendSplits(es: seq<Expense>, u: UserId, cs: seq<Category>)
    requires UniqueIds(cs)
    requires forall e :: e in es && e.userId == u ==> exists c :: c in cs && c.id == e.categoryId
    ensures SumAmounts(OwnedBy(es, u)) == SpendAcross(es, u, cs)
  {
    if es != [] {
      var e := es[0];
      assert forall x :: x in es[1..] ==> x in es;
      OwnedSpendSplits(es[1..], u, cs);
      SpendAcrossCons(es, u, cs);
      var head := if e.userId == u then [e] else [];
      assert OwnedBy(es, u) == head + OwnedBy(es[1..], u);
      SumAmountsConcat(head, OwnedBy(es[1..], u));
      if e.userId == u {
        assert e in es;
        ShareAcrossOnce(e, u, cs);
        assert SumAmounts([e]) == e.amount + SumAmounts([e][1..]);
        assert [e][1..] == [];
      } else {
        ShareAcrossZero(e, u, cs);
      }
    } else {
      NoSpendAcross(u, cs);
    }
  }

  lemma {:induction false} SpendAcrossWithinBudgets(es: seq<Expense>, u: UserId, cs: seq<Category>)
    requires forall c :: c in cs ==> Spend(es, u, c.id) <= c.budget
    ensures SpendAcross(es, u, cs) <= SumBudgets(cs)
  {
    if cs != [] {
      assert cs[0] in cs;
      assert forall c :: c in cs[1..] ==> c in cs;
      SpendAcrossWithinBudgets(es, u, cs[1..]);
    }
  }

  /**
   * In a consistent store where every expense's category is in place, no user's
   * remaining budget is negative: each expense counts against exactly one of the
   * user's categories, and each category's spend is within its budget.
   */
  lemma RemainingNonNegative(cs: seq<Category>, es: seq<Expense>, next: nat, userId: UserId)
    requires Consistent(cs, es, next)
    requires Referenced(cs, es)
    ensures GetBudgetSummary(cs, es, userId).remainingBudget >= 0
  {
    var categories := CategoriesOf(cs, userId);
    assert UniqueIds(cs);
    CategoriesOfUniqueIds(cs, userId);
    forall e | e in es && e.userId == userId
      ensures exists c :: c in categories && c.id == e.categoryId
    {
      var k := CategoryIndex(cs, e.categoryId, e.userId).value;
      assert cs[k] in cs && cs[k] in categories;
    }
    OwnedSpendSplits(es, userId, categories);
    SpendAcrossWithinBudgets(es, userId, categories);
  }

  // ---------------------------------------------------------------------------
  // getCategoryWiseSummary
  // ---------------------------------------------------------------------------

  datatype CategorySummary = CategorySummary(
    categoryId: Id,
    categoryName: string,
    totalBudget: int,
    totalExpense: int,
    remaining: int)

  /** The `map` callback: the category's group total found by id, or 0 when it has no group. */
  function CategorySummaryOf(c: Category, groups: seq<Group>): CategorySummary
  {
    var expense := Lookup(groups, CategoryKey(c.id));
    CategorySummary(c.id, c.name, c.budget, TotalOrZero(expense), c.budget - TotalOrZero(expense))
  }

  /**
   * getCategoryWiseSummary: one entry per category of every user, in store order;
   * the total is the sum of the amounts of every expense filed under that category
   * id, and what remains is the budget less that total.
   */
  function GetCategoryWiseSummary(cs: seq<Category>, es: seq<Expense>): (r: seq<CategorySummary>)
    ensures |r| == |cs|
    ensures forall i :: 0 <= i < |cs| ==>
      && r[i].categoryId == cs[i].id
      && r[i].categoryName == cs[i].name
      && r[i].totalBudget == cs[i].budget
      && r[i].totalExpense == SumWhere(es, ByCategory, CategoryKey(cs[i].id))
      && r[i].remaining == cs[i].budget - r[i].totalExpense
  {
    var groups := GroupSum(es, ByCategory);
    GroupSumSpec(es, ByCategory);
    assert forall k :: !Occurs(es, ByCategory, k) ==> SumWhere(es, ByCategory, k) == 0 by {
      forall k | !Occurs(es, ByCategory, k) ensures SumWhere(es, ByCategory, k) == 0 {
        SumWhereAbsent(es, ByCategory, k);
      }
    }
    seq(|cs|, i requires 0 <= i < |cs| => CategorySummaryOf(cs[i], groups))
  }

  /** Where every expense under a category id belongs to user u, the category-id total is u's spend there. */
  lemma {:induction false} CategoryTotalIsSpend(es: seq<Expense>, u: UserId, id: Id)
    requires forall e :: e in es && e.categoryId == id ==> e.userId == u
    ensures SumWhere(es, ByCategory, CategoryKey(id)) == Spend(es, u, id)
  {
    if es != [] {
      assert es[0] in es;
      assert forall x :: x in es[1..] ==> x in es;
      CategoryTotalIsSpend(es[1..], u, id);
      SpendCons(es, u, id);
    }
  }

  /** In a consistent store where every expense's category is in place, no category's remainder is negative. */
  lemma CategoryRemainingNonNegative(cs: seq<Category>, es: seq<Expense>, next: nat)
    requires Consistent(cs, es, next)
    requires Referenced(cs, es)
    ensures forall s :: s in GetCategoryWiseSummary(cs, es) ==> s.remaining >= 0
  {
    var r := GetCategoryWiseSummary(cs, es);
    forall i | 0 <= i < |cs|
      ensures r[i].remaining >= 0
    {
      var c := cs[i];
      assert c in cs;
      forall e | e in es && e.categoryId == c.id
        ensures e.userId == c.userId
      {
        var k := CategoryIndex(cs, e.categoryId, e.userId).value;
        SameIdSameCategory(cs, cs[k], c);
      }
      CategoryTotalIsSpend(es, c.userId, c.id);
    }
  }

  // ---------------------------------------------------------------------------
  // getSpendingSummary
  // ---------------------------------------------------------------------------

  datatype Period = Monthly | Yearly

  /** One line of the summary; `month` is absent (undefined) for a yearly summary. */
  datatype SpendingEntry = SpendingEntry(year: int, month: Option<int>, totalSpent: int)

  function PeriodGrouping(period: Period): GroupBy
  {
    if period == Monthly then ByMonth else ByYear
  }

  function SpendingEntryOf(period: Period, g: Group): SpendingEntry
  {
    SpendingEntry(KeyYear(g.key), if period == Monthly then Some(KeyMonth(g.key)) else None, g.total)
  }

  /** The groups of the summary pipeline, after its `$sort` stage. */
  function SortedPeriodGroups(es: seq<Expense>, period: Period): seq<Group>
  {
    SortDesc(GroupSum(es, PeriodGrouping(period)), GroupRank)
  }

  /** getSpendingSummary: one entry per group of the sorted pipeline, in its order. */
  function GetSpendingSummary(es: seq<Expense>, period: Period): (r: seq<SpendingEntry>)
    ensures |r| == |GroupSum(es, PeriodGrouping(period))|
    ensures forall i :: 0 <= i < |r| ==> (r[i].month.Some? <==> period == Monthly)
  {
    var sorted := SortedPeriodGroups(es, period);
    seq(|sorted|, i requires 0 <= i < |sorted| => SpendingEntryOf(period, sorted[i]))
  }

  /** The reference total: the amounts of the expenses dated in the year (and month, when one is given). */
  function SpentIn(es: seq<Expense>, year: int, month: Option<int>): int
  {
    if es == [] then 0
    else (if es[0].date.year == year && (month.None? || es[0].date.month == month.value) then es[0].amount else 0)
         + SpentIn(es[1..], year, month)
  }

  function MonthOrZero(month: Option<int>): int
  {
    if month.Some? then month.value else 0
  }

  function SumSpent(r: seq<SpendingEntry>): int
  {
    if r == [] then 0 else r[0].totalSpent + SumSpent(r[1..])
  }

  lemma {:induction false} SumSpentMatches(r: seq<SpendingEntry>, gs: seq<Group>)
    requires |r| == |gs|
    requires forall i :: 0 <= i < |r| ==> r[i].totalSpent == gs[i].total
    ensures SumSpent(r) == SumTotals(gs)
  {
    if r != [] {
      assert forall i :: 1 <= i < |r| ==> r[1..][i - 1] == r[i] && gs[1..][i - 1] == gs[i];
      SumSpentMatches(r[1..], gs[1..]);
    }
  }

  /** A group of the pipeline carries the key of one of the expenses. */
  lemma GroupKeyOfSome(es: seq<Expense>, g: GroupBy, gs: seq<Group>, i: nat)
    requires multiset(gs) == multiset(GroupSum(es, g))
    requires i < |gs|
    ensures gs[i].total == SumWhere(es, g, gs[i].key)
    ensures exists e :: e in es && KeyOf(g, e) == gs[i].key
  {
    assert gs[i] in multiset(GroupSum(es, g));
    GroupSumMembers(es, g, gs[i]);
  }

  lemma {:induction false} YearTotalIsSpentIn(es: seq<Expense>, year: int)
    ensures SumWhere(es, ByYear, YearKey(year)) == SpentIn(es, year, None)
  {
    if es != [] {
      YearTotalIsSpentIn(es[1..], year);
    }
  }

  lemma {:induction false} MonthTotalIsSpentIn(es: seq<Expense>, year: int, month: int)
    ensures SumWhere(es, ByMonth, MonthKey(year, month)) == SpentIn(es, year, Some(month))
  {
    if es != [] {
      MonthTotalIsSpentIn(es[1..], year, month);
    }
  }

  /** The summary is newest first: year descending, then month descending. */
  lemma SpendingSummarySorted(es: seq<Expense>, period: Period)
    ensures var r := GetSpendingSummary(es, period);
      forall i, j :: 0 <= i < j < |r| ==>
        NotBefore((r[i].year, MonthOrZero(r[i].month)), (r[j].year, MonthOrZero(r[j].month)))
  {
    var g := PeriodGrouping(period);
    var sorted := SortedPeriodGroups(es, period);
    var r := GetSpendingSummary(es, period);
    forall i | 0 <= i < |r|
      ensures (r[i].year, MonthOrZero(r[i].month)) == GroupRank(sorted[i])
    {
      GroupKeyOfSome(es, g, sorted, i);
    }
  }

  /** Every entry's total is what was spent in its year (and month), and the period occurs among the expenses. */
  lemma SpendingSummaryEntries(es: seq<Expense>, period: Period)
    ensures var r := GetSpendingSummary(es, period);
      forall i :: 0 <= i < |r| ==>
        && r[i].totalSpent == SpentIn(es, r[i].year, r[i].month)
        && exists e :: e in es && e.date.year == r[i].year && (period == Monthly ==> r[i].month == Some(e.date.month))
  {
    var g := PeriodGrouping(period);
    var sorted := SortedPeriodGroups(es, period);
    var r := GetSpendingSummary(es, period);
    forall i | 0 <= i < |r|
      ensures r[i].totalSpent == SpentIn(es, r[i].year, r[i].month)
      ensures exists e :: e in es && e.date.year == r[i].year && (period == Monthly ==> r[i].month == Some(e.date.month))
    {
      GroupKeyOfSome(es, g, sorted, i);
      var e :| e in es && KeyOf(g, e) == sorted[i].key;
      EntryOfExpenseGroup(period, sorted[i], e);
      SummaryGroupTotal(es, period, sorted[i], e);
      assert r[i] == SpendingEntryOf(period, sorted[i]);
    }
  }

  /** The entry built from an expense's group totals what was spent in that expense's year (and month). */
  lemma SummaryGroupTotal(es: seq<Expense>, period: Period, x: Group, e: Expense)
    requires x.key == KeyOf(PeriodGrouping(period), e)
    requires x.total == SumWhere(es, PeriodGrouping(period), x.key)
    ensures var entry := SpendingEntryOf(period, x);
      entry.totalSpent == SpentIn(es, entry.year, entry.month)
  {
    if period == Monthly {
      MonthTotalIsSpentIn(es, e.date.year, e.date.month);
    } else {
      YearTotalIsSpentIn(es, e.date.year);
    }
  }

  /** Some group of the pipeline carries each expense's key. */
  lemma GroupOfExpense(es: seq<Expense>, g: GroupBy, e: Expense)
    requires e in es
    ensures exists x :: x in GroupSum(es, g) && x.key == KeyOf(g, e)
  {
    GroupSumSpec(es, g);
    assert Occurs(es, g, KeyOf(g, e));
    var gs := GroupSum(es, g);
    assert Lookup(gs, KeyOf(g, e)).Some?;
    var j :| 0 <= j < |gs| && gs[j].key == KeyOf(g, e);
    assert gs[j] in gs;
  }

  /** The entry for the group of one expense's year (and month). */
  lemma SpendingSummaryHasEntry(es: seq<Expense>, period: Period, e: Expense)
    requires e in es
    ensures var r := GetSpendingSummary(es, period);
      exists i :: 0 <= i < |r| && r[i].year == e.date.year && (period == Monthly ==> r[i].month == Some(e.date.month))
  {
    var g := PeriodGrouping(period);
    var sorted := SortedPeriodGroups(es, period);
    var r := GetSpendingSummary(es, period);
    GroupOfExpense(es, g, e);
    var x :| x in GroupSum(es, g) && x.key == KeyOf(g, e);
    assert x in multiset(GroupSum(es, g));
    assert x in multiset(sorted);
    var i :| 0 <= i < |sorted| && sorted[i] == x;
    EntryOfExpenseGroup(period, x, e);
    assert r[i] == SpendingEntryOf(period, x);
  }

  /** The entry built from an expense's group carries that expense's year (and month). */
  lemma EntryOfExpenseGroup(period: Period, x: Group, e: Expense)
    requires x.key == KeyOf(PeriodGrouping(period), e)
    ensures SpendingEntryOf(period, x).year == e.date.year
    ensures period == Monthly ==> SpendingEntryOf(period, x).month == Some(e.date.month)
  {
  }

  /** Every expense's year (and month) has an entry. */
  lemma SpendingSummaryComplete(es: seq<Expense>, period: Period)
    ensures var r := GetSpendingSummary(es, period);
      forall e :: e in es ==>
        exists i :: 0 <= i < |r| && r[i].year == e.date.year && (period == Monthly ==> r[i].month == Some(e.date.month))
  {
    forall e | e in es
      ensures var r := GetSpendingSummary(es, period);
        exists i :: 0 <= i < |r| && r[i].year == e.date.year && (period == Monthly ==> r[i].month == Some(e.date.month))
    {
      SpendingSummaryHasEntry(es, period, e);
    }
  }

  /** One entry per period: no two entries share a year (and month). */
  lemma SpendingSummaryDistinct(es: seq<Expense>, period: Period)
    ensures var r := GetSpendingSummary(es, period);
      forall i, j :: 0 <= i < j < |r| ==> (r[i].year, r[i].month) != (r[j].year, r[j].month)
  {
    var g := PeriodGrouping(period);
    var sorted := SortedPeriodGroups(es, period);
    var r := GetSpendingSummary(es, period);
    GroupSumSpec(es, g);
    DistinctKeysPermutation(sorted, GroupSum(es, g));
    forall i, j | 0 <= i < j < |r|
      ensures (r[i].year, r[i].month) != (r[j].year, r[j].month)
    {
      GroupKeyOfSome(es, g, sorted, i);
      GroupKeyOfSome(es, g, sorted, j);
      var ei :| ei in es && KeyOf(g, ei) == sorted[i].key;
      var ej :| ej in es && KeyOf(g, ej) == sorted[j].key;
      DistinctGroupsDistinctPeriods(period, sorted[i], sorted[j], ei, ej);
      assert r[i] == SpendingEntryOf(period, sorted[i]);
      assert r[j] == SpendingEntryOf(period, sorted[j]);
    }
  }

  /** Two groups of expenses with different keys give entries for different periods. */
  lemma DistinctGroupsDistinctPeriods(period: Period, x: Group, y: Group, ex: Expense, ey: Expense)
    requires x.key == KeyOf(PeriodGrouping(period), ex) && y.key == KeyOf(PeriodGrouping(period), ey)
    requires x.key != y.key
    ensures var a, b := SpendingEntryOf(period, x), SpendingEntryOf(period, y);
      (a.year, a.month) != (b.year, b.month)
  {
  }

  /** The entries' totals add up to the sum of all the amounts. */
  lemma SpendingSummaryTotal(es: seq<Expense>, period: Period)
    ensures SumSpent(GetSpendingSummary(es, period)) == SumAmounts(es)
  {
    var g := PeriodGrouping(period);
    var sorted := SortedPeriodGroups(es, period);
    SumSpentMatches(GetSpendingSummary(es, period), sorted);
    SumTotalsPermutation(sorted, GroupSum(es, g));
    GroupSumSpec(es, g);
  }

  // ---------------------------------------------------------------------------
  // getSpendingTrends
  // ---------------------------------------------------------------------------

  /** One trend line: the category's name ("Unknown" when it is gone) and a suggestion. */
  datatype TrendEntry = TrendEntry(year: int, month: int, category: string, totalSpent: int, suggestion: string)

  function OverspendingText(subject: string): string
  {
    "You are overspending on " + subject
  }

  function WithinBudgetText(subject: string): string
  {
    "You're within budget for " + subject
  }

  /** `${category?.name}`: the name, or the text "undefined" when the category was not found. */
  function SubjectOf(category: Option<Category>): string
  {
    if category.Some? then category.value.name else "undefined"
  }

  /** `category?.budget || 0`. */
  function BudgetOrZero(category: Option<Category>): int
  {
    if category.Some? then category.value.budget else 0
  }

  /** The suggestion is the overspending text exactly when the total exceeds the budget, and the within-budget text otherwise. */
  function Suggestion(totalSpent: int, category: Option<Category>): (s: string)
    ensures s == OverspendingText(SubjectOf(category)) <==> totalSpent > BudgetOrZero(category)
    ensures s == WithinBudgetText(SubjectOf(category)) <==> totalSpent <= BudgetOrZero(category)
  {
    var subject := SubjectOf(category);
    assert OverspendingText(subject)[3] != WithinBudgetText(subject)[3];
    if totalSpent > BudgetOrZero(category) then OverspendingText(subject) else WithinBudgetText(subject)
  }

  /** `_id.category` of a trend group. */
  function KeyCategory(k: Key): Id
  {
    if k.TrendKey? then k.categoryId else 0
  }

  /** The `map` callback: the group's category is the first one with its id, whoever owns it. */
  function TrendEntryOf(cs: seq<Category>, g: Group): (t: TrendEntry)
    ensures CategoryById(cs, KeyCategory(g.key)).None? ==>
      && t.category == "Unknown"
      && (t.suggestion == OverspendingText("undefined") <==> g.total > 0)
  {
    var category := CategoryById(cs, KeyCategory(g.key));
    TrendEntry(
      KeyYear(g.key),
      KeyMonth(g.key),
      if category.Some? then category.value.name else "Unknown",
      g.total,
      Suggestion(g.total, category))
  }

  function SortedTrendGroups(es: seq<Expense>): seq<Group>
  {
    SortDesc(GroupSum(es, ByMonthAndCategory), GroupRank)
  }

  /** getSpendingTrends: one entry per (year, month, category id) group, newest first. */
  function GetSpendingTrends(cs: seq<Category>, es: seq<Expense>): (r: seq<TrendEntry>)
    ensures |r| == |GroupSum(es, ByMonthAndCategory)|
    ensures forall i, j :: 0 <= i < j < |r| ==> NotBefore((r[i].year, r[i].month), (r[j].year, r[j].month))
  {
    var sorted := SortedTrendGroups(es);
    assert forall i, j :: 0 <= i < j < |sorted| ==> NotBefore(GroupRank(sorted[i]), GroupRank(sorted[j]));
    seq(|sorted|, i requires 0 <= i < |sorted| => TrendEntryOf(cs, sorted[i]))
  }

  /** The reference total: the amounts of the expenses of one category dated in one month. */
  function SpentOn(es: seq<Expense>, year: int, month: int, categoryId: Id): int
  {
    if es == [] then 0
    else (if es[0].date.year == year && es[0].date.month == month && es[0].categoryId == categoryId
          then es[0].amount else 0)
         + SpentOn(es[1..], year, month, categoryId)
  }

  lemma {:induction false} TrendTotalIsSpentOn(es: seq<Expense>, year: int, month: int, categoryId: Id)
    ensures SumWhere(es, ByMonthAndCategory, TrendKey(year, month, categoryId)) == SpentOn(es, year, month, categoryId)
  {
    if es != [] {
      TrendTotalIsSpentOn(es[1..], year, month, categoryId);
    }
  }

  /**
   * The reference trend line for the month and category of one expense, computed
   * from the expenses directly: what was spent on that category in that month,
   * the category's name ("Unknown" when it is gone) and the suggestion.
   */
  function TrendEntryFor(cs: seq<Category>, es: seq<Expense>, e: Expense): TrendEntry
  {
    var category := CategoryById(cs, e.categoryId);
    var spent := SpentOn(es, e.date.year, e.date.month, e.categoryId);
    TrendEntry(
      e.date.year,
      e.date.month,
      if category.Some? then category.value.name else "Unknown",
      spent,
      Suggestion(spent, category))
  }

  /**
   * Every trend entry stands for the expenses of one category in one month: it is
   * the reference line of some expense, so its total is what was spent on that
   * category in that month, its name is the category's (or "Unknown"), and its
   * suggestion compares that total with the category's budget (0 when gone).
   */
  lemma SpendingTrendsEntries(cs: seq<Category>, es: seq<Expense>, i: nat)
    requires i < |GetSpendingTrends(cs, es)|
    ensures exists e :: e in es && GetSpendingTrends(cs, es)[i] == TrendEntryFor(cs, es, e)
  {
    var sorted := SortedTrendGroups(es);
    GroupKeyOfSome(es, ByMonthAndCategory, sorted, i);
    var e :| e in es && KeyOf(ByMonthAndCategory, e) == sorted[i].key;
    TrendGroupIsEntryFor(cs, es, sorted[i], e);
    assert GetSpendingTrends(cs, es)[i] == TrendEntryOf(cs, sorted[i]);
  }

  /** The line built from an expense's month-and-category group is that expense's reference line. */
  lemma TrendGroupIsEntryFor(cs: seq<Category>, es: seq<Expense>, x: Group, e: Expense)
    requires x.key == KeyOf(ByMonthAndCategory, e)
    requires x.total == SumWhere(es, ByMonthAndCategory, x.key)
    ensures TrendEntryOf(cs, x) == TrendEntryFor(cs, es, e)
  {
    TrendTotalIsSpentOn(es, e.date.year, e.date.month, e.categoryId);
  }

  /**
   * Every expense's month and category has a trend entry: at some position the
   * group is the one keyed by the expense's (year, month, category id), and the
   * entry there is that expense's reference line.
   */
  lemma SpendingTrendsComplete(cs: seq<Category>, es: seq<Expense>, e: Expense)
    requires e in es
    ensures var r := GetSpendingTrends(cs, es);
      exists i :: 0 <= i < |r|
        && SortedTrendGroups(es)[i].key == KeyOf(ByMonthAndCategory, e)
        && r[i] == TrendEntryFor(cs, es, e)
  {
    var sorted := SortedTrendGroups(es);
    GroupOfExpense(es, ByMonthAndCategory, e);
    var x :| x in GroupSum(es, ByMonthAndCategory) && x.key == KeyOf(ByMonthAndCategory, e);
    assert x in multiset(GroupSum(es, ByMonthAndCategory));
    assert x in multiset(sorted);
    var i :| 0 <= i < |sorted| && sorted[i] == x;
    GroupKeyOfSome(es, ByMonthAndCategory, sorted, i);
    TrendGroupIsEntryFor(cs, es, sorted[i], e);
    assert GetSpendingTrends(cs, es)[i] == TrendEntryOf(cs, sorted[i]);
  }

  /**
   * No two trend entries come from the same (year, month, category id) group, so
   * the entry `SpendingTrendsComplete` finds for an expense is the only one for it.
   */
  lemma SpendingTrendsDistinct(es: seq<Expense>)
    ensures var sorted := SortedTrendGroups(es);
      forall i, j :: 0 <= i < j < |sorted| ==> sorted[i].key != sorted[j].key
  {
    GroupSumSpec(es, ByMonthAndCategory);
    DistinctKeysPermutation(SortedTrendGroups(es), GroupSum(es, ByMonthAndCategory));
  }

  function SumTrendSpent(r: seq<TrendEntry>): int
  {
    if r == [] then 0 else r[0].totalSpent + SumTrendSpent(r[1..])
  }

  lemma {:induction false} SumTrendSpentMatches(r: seq<TrendEntry>, gs: seq<Group>)
    requires |r| == |gs|
    requires forall i :: 0 <= i < |r| ==> r[i].totalSpent == gs[i].total
    ensures SumTrendSpent(r) == SumTotals(gs)
  {
    if r != [] {
      assert forall i :: 1 <= i < |r| ==> r[1..][i - 1] == r[i] && gs[1..][i - 1] == gs[i];
      SumTrendSpentMatches(r[1..], gs[1..]);
    }
  }

  /** The trend totals add up to the sum of all the amounts. */
  lemma SpendingTrendsTotal(cs: seq<Category>, es: seq<Expense>)
    ensures SumTrendSpent(GetSpendingTrends(cs, es)) == SumAmounts(es)
  {
    var sorted := SortedTrendGroups(es);
    SumTrendSpentMatches(GetSpendingTrends(cs, es), sorted);
    SumTotalsPermutation(sorted, GroupSum(es, ByMonthAndCategory));
    GroupSumSpec(es, ByMonthAndCategory);
  }
}
