// The expense ledger (`ExpenseService`): creating an expense under the
// per-category ceiling, updating it with the ceiling re-checked, deleting it,
// and the queries that read the expense collection back (the category total,
// the newest-first listing, the lookup by id and the CSV report rows).

module ExpenseService {
  import opened Records
  import opened Ledger
  import opened Grouping
  import opened Sorting
  import opened Store

  // ---------------------------------------------------------------------------
  // Queries
  // ---------------------------------------------------------------------------

  /**
   * getTotalExpensesByCategory: `$match { userId, categoryId }`, one `$group` with
   * `_id: null`, then `[0]?.total || 0`. It is the live spend the budget bounds,
   * and 0 when nothing matches.
   */
  function TotalExpensesByCategory(es: seq<Expense>, userId: UserId, categoryId: Id): (r: int)
    ensures r == Spend(es, userId, categoryId)
    ensures (forall e :: e in es ==> !(e.userId == userId && e.categoryId == categoryId)) ==> r == 0
  {
    var matched := Matching(es, userId, categoryId);
    assert matched != [] ==> matched[0] in matched;
    WholeTotal(matched)
  }

  /** What `populate("categoryId", "name budget")` puts in place of the category id. */
  datatype CategoryRef = CategoryRef(id: Id, name: string, budget: int)

  /** An expense with its category populated; `None` where the category is gone (Mongo gives null). */
  datatype PopulatedExpense = PopulatedExpense(expense: Expense, category: Option<CategoryRef>)

  /** Populating resolves the category by id alone, whoever owns it. */
  function Populate(cs: seq<Category>, e: Expense): (p: PopulatedExpense)
    ensures p.expense == e
    ensures p.category.None? <==> forall c :: c in cs ==> c.id != e.categoryId
    ensures p.category.Some? ==>
      exists c :: c in cs && c.id == e.categoryId && p.category.value == CategoryRef(c.id, c.name, c.budget)
  {
    match CategoryById(cs, e.categoryId)
    case None => PopulatedExpense(e, None)
    case Some(c) => PopulatedExpense(e, Some(CategoryRef(c.id, c.name, c.budget)))
  }

  function PopulateAll(cs: seq<Category>, es: seq<Expense>): (r: seq<PopulatedExpense>)
    ensures |r| == |es| && forall i :: 0 <= i < |es| ==> r[i] == Populate(cs, es[i])
  {
    seq(|es|, i requires 0 <= i < |es| => Populate(cs, es[i]))
  }

  /** The `sort({ date: -1 })` order. */
  function DateRank(p: PopulatedExpense): (int, int)
  {
    (p.expense.date.stamp, 0)
  }

  /** getAllExpenses: the user's expenses with their categories, newest first. */
  function GetAllExpenses(cs: seq<Category>, es: seq<Expense>, userId: UserId): (r: seq<PopulatedExpense>)
    ensures forall i, j :: 0 <= i < j < |r| ==> r[i].expense.date.stamp >= r[j].expense.date.stamp
    ensures multiset(r) == multiset(PopulateAll(cs, OwnedBy(es, userId)))
  {
    var r := SortDesc(PopulateAll(cs, OwnedBy(es, userId)), DateRank);
    assert forall i, j :: 0 <= i < j < |r| ==> NotBefore(DateRank(r[i]), DateRank(r[j]));
    r
  }

  /** The listing holds every expense of the user and nothing else, each with its own category. */
  lemma GetAllExpensesMembers(cs: seq<Category>, es: seq<Expense>, userId: UserId)
    ensures forall e :: Populate(cs, e) in GetAllExpenses(cs, es, userId) <==> e in es && e.userId == userId
    ensures forall p :: p in GetAllExpenses(cs, es, userId) ==> p == Populate(cs, p.expense)
  {
    var owned := OwnedBy(es, userId);
    var ps := PopulateAll(cs, owned);
    var r := GetAllExpenses(cs, es, userId);
    assert forall p :: p in r <==> p in ps by {
      forall p ensures p in r <==> p in ps {
        assert p in r <==> p in multiset(r);
        assert p in ps <==> p in multiset(ps);
      }
    }
    forall e
      ensures Populate(cs, e) in ps <==> e in owned
    {
      if e in owned {
        var i :| 0 <= i < |owned| && owned[i] == e;
        assert ps[i] == Populate(cs, e);
      }
      if Populate(cs, e) in ps {
        var i :| 0 <= i < |ps| && ps[i] == Populate(cs, e);
        assert owned[i] == e;
      }
    }
    forall p | p in ps
      ensures p == Populate(cs, p.expense)
    {
      var i :| 0 <= i < |ps| && ps[i] == p;
    }
  }

  /** getExpenseById: `findOne({ _id: expenseId, userId })`, populated; `None` where Mongo gives null. */
  function GetExpenseById(cs: seq<Category>, es: seq<Expense>, expenseId: Id, userId: UserId): (r: Option<PopulatedExpense>)
    ensures r.None? <==> forall e :: e in es ==> !(e.id == expenseId && e.userId == userId)
    ensures r.Some? ==>
      && r.value.expense in es
      && r.value.expense.id == expenseId
      && r.value.expense.userId == userId
      && r.value == Populate(cs, r.value.expense)
  {
    match ExpenseIndex(es, expenseId, userId)
    case None => None
    case Some(i) => Some(Populate(cs, es[i]))
  }

  /** An expense appended with a fresh id is what the lookup by that id and its owner returns. */
  lemma CreatedIsRetrievable(cs: seq<Category>, es: seq<Expense>, next: nat, e: Expense)
    requires Consistent(cs, es, next)
    requires e.id == next
    ensures GetExpenseById(cs, es + [e], e.id, e.userId) == Some(Populate(cs, e))
  {
    var es' := es + [e];
    assert es'[|es|] == e;
    forall j | 0 <= j < |es|
      ensures es'[j].id != e.id
    {
      assert es'[j] == es[j];
      assert es[j] in es;
    }
  }

  /** The row the CSV report writes for one expense. */
  datatype CsvRow = CsvRow(category: string, amount: int, budget: int, date: Date)

  /**
   * The CSV mapping: one row per expense, in order, from the populated category's
   * name and budget; reading `.name` of a null category throws, and the report fails.
   */
  function CsvRows(ps: seq<PopulatedExpense>): (r: Result<seq<CsvRow>>)
    ensures r.Ok? <==> forall i :: 0 <= i < |ps| ==> ps[i].category.Some?
    ensures r.Err? ==> r.error == ReportFailed
    ensures r.Ok? ==> |r.value| == |ps|
    ensures r.Ok? ==> forall i :: 0 <= i < |ps| ==>
      && r.value[i].category == ps[i].category.value.name
      && r.value[i].budget == ps[i].category.value.budget
      && r.value[i].amount == ps[i].expense.amount
      && r.value[i].date == ps[i].expense.date
  {
    if ps == [] then Ok([])
    else if ps[0].category.None? then Err(ReportFailed)
    else
      match CsvRows(ps[1..])
      case Err(error) => Err(error)
      case Ok(rest) =>
        var row := CsvRow(ps[0].category.value.name, ps[0].expense.amount, ps[0].category.value.budget, ps[0].expense.date);
        assert forall i :: 1 <= i < |ps| ==> ps[i] == ps[1..][i - 1];
        Ok([row] + rest)
  }

  /**
   * generateExpenseReport in CSV form: the rows of `find({ userId })` in store order.
   * It fails exactly when some expense of the user has lost its category.
   */
  function ExpenseReportCsv(cs: seq<Category>, es: seq<Expense>, userId: UserId): (r: Result<seq<CsvRow>>)
    ensures r.Ok? <==> forall e :: e in es && e.userId == userId ==> exists c :: c in cs && c.id == e.categoryId
    ensures r.Ok? ==> |r.value| == |OwnedBy(es, userId)|
  {
    var owned := OwnedBy(es, userId);
    var ps := PopulateAll(cs, owned);
    assert forall e :: e in owned ==> exists i :: 0 <= i < |owned| && owned[i] == e;
    CsvRows(ps)
  }

  /** With every expense's category in place, the CSV report never fails. */
  lemma ReportSucceedsWhenReferenced(cs: seq<Category>, es: seq<Expense>, userId: UserId)
    requires Referenced(cs, es)
    ensures ExpenseReportCsv(cs, es, userId).Ok?
  {
    forall e | e in es && e.userId == userId
      ensures exists c :: c in cs && c.id == e.categoryId
    {
      var k := CategoryIndex(cs, e.categoryId, e.userId).value;
      assert cs[k] in cs;
    }
  }

  // ---------------------------------------------------------------------------
  // Writes
  // ---------------------------------------------------------------------------

  /**
   * createExpense: the category must exist for the user, and the live spend plus
   * the new amount must not exceed its budget (reaching it exactly is allowed).
   * On success exactly one expense is appended, dated `now`, and it is what the
   * lookup by its id returns.
   */
  method CreateExpense(db: Db, userId: UserId, categoryId: Id, amount: int, now: Date) returns (r: Result<Expense>)
    requires db.Valid()
    requires amount >= 0
    modifies db
    ensures db.Valid()
    ensures db.categories == old(db.categories)
    ensures r == Err(InvalidCategory) <==> CategoryIndex(db.categories, categoryId, userId).None?
    ensures r == Err(BudgetExceeded) <==>
      && CategoryIndex(db.categories, categoryId, userId).Some?
      && Spend(old(db.expenses), userId, categoryId) + amount
         > db.categories[CategoryIndex(db.categories, categoryId, userId).value].budget
    ensures r.Ok? <==>
      && CategoryIndex(db.categories, categoryId, userId).Some?
      && Spend(old(db.expenses), userId, categoryId) + amount
         <= db.categories[CategoryIndex(db.categories, categoryId, userId).value].budget
    ensures r.Err? ==> db.expenses == old(db.expenses) && db.nextId == old(db.nextId)
    ensures r.Ok? ==>
      && r.value == Expense(old(db.nextId), userId, categoryId, amount, None, now)
      && db.expenses == old(db.expenses) + [r.value]
      && db.nextId == old(db.nextId) + 1
      && GetExpenseById(db.categories, db.expenses, r.value.id, userId) == Some(Populate(db.categories, r.value))
    ensures old(Referenced(db.categories, db.expenses)) ==> Referenced(db.categories, db.expenses)
  {
    var cs, es, next := db.categories, db.expenses, db.nextId;
    var found := CategoryIndex(cs, categoryId, userId);
    if found.None? {
      return Err(InvalidCategory);
    }
    var category := cs[found.value];
    var current := TotalExpensesByCategory(es, userId, categoryId);
    if current + amount > category.budget {
      return Err(BudgetExceeded);
    }
    var e := Expense(next, userId, categoryId, amount, None, now);
    ExpenseAddedKeepsConsistent(cs, es, next, e);
    CreatedIsRetrievable(cs, es, next, e);
    db.expenses, db.nextId := es + [e], next + 1;
    db.ConsistentIsValid(cs, es + [e], next + 1);
    r := Ok(e);
  }

  /** `if (data.amount)`: only a present, non-zero amount triggers the budget check. */
  predicate AmountGiven(p: Patch)
  {
    p.amount.Some? && p.amount.value != 0
  }

  /** The update guard's comparison: the spend without the old amount, plus the new one, against the budget. */
  ghost predicate PatchOverBudget(es: seq<Expense>, e: Expense, c: Category, newAmount: int)
  {
    Spend(es, e.userId, c.id) - e.amount + newAmount > c.budget
  }

  /**
   * updateExpense: the expense must exist for the user; a given amount is checked
   * against the budget of the expense's category with the expense's old amount
   * left out. On success the expense is patched in place and nothing else changes.
   */
  method UpdateExpense(db: Db, expenseId: Id, userId: UserId, patch: Patch) returns (r: Result<Expense>)
    requires db.Valid()
    requires patch.amount.Some? ==> patch.amount.value >= 0
    modifies db
    ensures db.Valid()
    ensures db.categories == old(db.categories) && db.nextId == old(db.nextId)
    ensures r == Err(ExpenseNotFound) <==> ExpenseIndex(old(db.expenses), expenseId, userId).None?
    ensures r == Err(InvalidCategory) <==>
      && ExpenseIndex(old(db.expenses), expenseId, userId).Some?
      && AmountGiven(patch)
      && CategoryById(db.categories, old(db.expenses)[ExpenseIndex(old(db.expenses), expenseId, userId).value].categoryId).None?
    ensures r == Err(BudgetExceeded) <==>
      && ExpenseIndex(old(db.expenses), expenseId, userId).Some?
      && AmountGiven(patch)
      && var e := old(db.expenses)[ExpenseIndex(old(db.expenses), expenseId, userId).value];
         && CategoryById(db.categories, e.categoryId).Some?
         && PatchOverBudget(old(db.expenses), e, CategoryById(db.categories, e.categoryId).value, patch.amount.value)
    ensures r.Ok? <==>
      && ExpenseIndex(old(db.expenses), expenseId, userId).Some?
      && (AmountGiven(patch) ==>
            var e := old(db.expenses)[ExpenseIndex(old(db.expenses), expenseId, userId).value];
            && CategoryById(db.categories, e.categoryId).Some?
            && !PatchOverBudget(old(db.expenses), e, CategoryById(db.categories, e.categoryId).value, patch.amount.value))
    ensures r.Err? ==> db.expenses == old(db.expenses)
    ensures r.Ok? ==>
      && ExpenseIndex(old(db.expenses), expenseId, userId).Some?
      && var i := ExpenseIndex(old(db.expenses), expenseId, userId).value;
         && r.value == ApplyPatch(old(db.expenses)[i], patch)
         && db.expenses == old(db.expenses)[i := r.value]
         && GetExpenseById(db.categories, db.expenses, expenseId, userId) == Some(Populate(db.categories, r.value))
    ensures old(Referenced(db.categories, db.expenses)) ==> Referenced(db.categories, db.expenses)
  {
    var found := ExpenseIndex(db.expenses, expenseId, userId);
    if found.None? {
      return Err(ExpenseNotFound);
    }
    var i := found.value;
    var expense := db.expenses[i];
    if AmountGiven(patch) {
      var category := CategoryById(db.categories, expense.categoryId);
      if category.None? {
        return Err(InvalidCategory);
      }
      var current := TotalExpensesByCategory(db.expenses, userId, category.value.id);
      if current - expense.amount + patch.amount.value > category.value.budget {
        return Err(BudgetExceeded);
      }
    }
    var cs, es, next := db.categories, db.expenses, db.nextId;
    var updated := ApplyPatch(expense, patch);
    ExpensePatchedKeepsConsistent(cs, es, next, i, patch);
    PatchedIsRetrievable(cs, es, i, patch);
    db.expenses := es[i := updated];
    db.ConsistentIsValid(cs, es[i := updated], next);
    r := Ok(updated);
  }

  /** A patched expense keeps its place: the lookup by its id and owner returns the patched version. */
  lemma PatchedIsRetrievable(cs: seq<Category>, es: seq<Expense>, i: nat, p: Patch)
    requires i < |es|
    requires ExpenseIndex(es, es[i].id, es[i].userId) == Some(i)
    ensures GetExpenseById(cs, es[i := ApplyPatch(es[i], p)], es[i].id, es[i].userId)
            == Some(Populate(cs, ApplyPatch(es[i], p)))
  {
    var es' := es[i := ApplyPatch(es[i], p)];
    assert es'[i] == ApplyPatch(es[i], p);
    assert forall j :: 0 <= j < i ==> es'[j] == es[j];
  }

  /**
   * deleteExpense: `findOneAndDelete({ _id: expenseId, userId })` removes the first
   * match and returns it, or returns null and changes nothing; afterwards no
   * expense of the user carries that id.
   */
  method DeleteExpense(db: Db, expenseId: Id, userId: UserId) returns (r: Option<Expense>)
    requires db.Valid()
    modifies db
    ensures db.Valid()
    ensures db.categories == old(db.categories) && db.nextId == old(db.nextId)
    ensures ExpenseIndex(old(db.expenses), expenseId, userId).None? ==> r.None? && db.expenses == old(db.expenses)
    ensures ExpenseIndex(old(db.expenses), expenseId, userId).Some? ==>
      var i := ExpenseIndex(old(db.expenses), expenseId, userId).value;
      && r == Some(old(db.expenses)[i])
      && db.expenses == old(db.expenses)[..i] + old(db.expenses)[i + 1..]
    ensures GetExpenseById(db.categories, db.expenses, expenseId, userId).None?
    ensures old(Referenced(db.categories, db.expenses)) ==> Referenced(db.categories, db.expenses)
  {
    var found := ExpenseIndex(db.expenses, expenseId, userId);
    if found.None? {
      return None;
    }
    var i := found.value;
    var cs, es, next := db.categories, db.expenses, db.nextId;
    r := Some(es[i]);
    ExpenseRemovedKeepsConsistent(cs, es, next, i);
    RemovedExpenseGone(es, i);
    db.expenses := es[..i] + es[i + 1..];
    db.ConsistentIsValid(cs, es[..i] + es[i + 1..], next);
  }
}
