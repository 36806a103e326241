// The category ledger (the category controller's handlers): creating a
// category, listing a user's categories, changing a budget and deleting a
// category, each as its guards followed by one write to the store. The HTTP
// status codes and response bodies are not modelled; each guard that returns
// early becomes an `Err` or `Fail` carrying its message's `Error`.

module CategoryController {
  import opened Records
  import opened Ledger
  import opened Store

  /**
   * createCategory: a negative budget is refused before the store is read, then a
   * name the user already has; otherwise exactly one category is added, so each
   * (owner, name) pair stays unique.
   */
  method CreateCategory(db: Db, userId: UserId, name: string, budget: int) returns (r: Result<Category>)
    requires db.Valid()
    modifies db
    ensures db.Valid()
    ensures db.expenses == old(db.expenses)
    ensures budget < 0 ==> r == Err(NegativeBudget)
    ensures r == Err(CategoryExists) <==> budget >= 0 && HasCategoryNamed(old(db.categories), name, userId)
    ensures r.Ok? <==> budget >= 0 && !HasCategoryNamed(old(db.categories), name, userId)
    ensures r.Err? ==> db.categories == old(db.categories) && db.nextId == old(db.nextId)
    ensures r.Ok? ==>
      && r.value == Category(old(db.nextId), name, userId, budget)
      && db.categories == old(db.categories) + [r.value]
      && db.nextId == old(db.nextId) + 1
    ensures old(Referenced(db.categories, db.expenses)) ==> Referenced(db.categories, db.expenses)
  {
    if budget < 0 {
      return Err(NegativeBudget);
    }
    if HasCategoryNamed(db.categories, name, userId) {
      return Err(CategoryExists);
    }
    var cs, es, next := db.categories, db.expenses, db.nextId;
    var c := Category(next, name, userId, budget);
    CategoryAddedKeepsConsistent(cs, es, next, c);
    db.categories, db.nextId := cs + [c], next + 1;
    db.ConsistentIsValid(cs + [c], es, next + 1);
    r := Ok(c);
  }

  /** getUserCategories: exactly the caller's categories. */
  method GetUserCategories(db: Db, userId: UserId) returns (r: seq<Category>)
    ensures forall c :: c in r <==> c in db.categories && c.userId == userId
    ensures |r| <= |db.categories|
  {
    r := CategoriesOf(db.categories, userId);
  }

  /**
   * updateCategoryBudget, with the ids of the spend pipeline cast to ObjectId: a
   * negative budget is refused first, then a category the user does not have, then
   * a budget below the category's current spend (equal is accepted). On success
   * only that category's budget changes, so every category stays within its budget.
   */
  method UpdateCategoryBudget(db: Db, userId: UserId, categoryId: Id, newBudget: int) returns (r: Result<Category>)
    requires db.Valid()
    modifies db
    ensures db.Valid()
    ensures db.expenses == old(db.expenses) && db.nextId == old(db.nextId)
    ensures r == Err(NegativeBudget) <==> newBudget < 0
    ensures r == Err(CategoryNotFound) <==>
      newBudget >= 0 && CategoryIndex(old(db.categories), categoryId, userId).None?
    ensures r == Err(BudgetBelowSpend) <==>
      && newBudget >= 0
      && CategoryIndex(old(db.categories), categoryId, userId).Some?
      && Spend(db.expenses, userId, categoryId) > newBudget
    ensures r.Ok? <==>
      && newBudget >= 0
      && CategoryIndex(old(db.categories), categoryId, userId).Some?
      && Spend(db.expenses, userId, categoryId) <= newBudget
    ensures r.Err? ==> db.categories == old(db.categories)
    ensures r.Ok? ==>
      && CategoryIndex(old(db.categories), categoryId, userId).Some?
      && var i := CategoryIndex(old(db.categories), categoryId, userId).value;
         && r.value == old(db.categories)[i].(budget := newBudget)
         && db.categories == old(db.categories)[i := r.value]
    ensures old(Referenced(db.categories, db.expenses)) ==> Referenced(db.categories, db.expenses)
  {
    if newBudget < 0 {
      return Err(NegativeBudget);
    }
    var found := CategoryIndex(db.categories, categoryId, userId);
    if found.None? {
      return Err(CategoryNotFound);
    }
    var i := found.value;
    var current := AggregateSpend(db.expenses, ObjectId(userId), ObjectId(categoryId));
    CastMatchIsSpend(db.expenses, userId, categoryId);
    if current > newBudget {
      return Err(BudgetBelowSpend);
    }
    var cs, es, next := db.categories, db.expenses, db.nextId;
    var updated := cs[i].(budget := newBudget);
    BudgetChangedKeepsConsistent(cs, es, next, i, newBudget);
    db.categories := cs[i := updated];
    db.ConsistentIsValid(cs[i := updated], es, next);
    r := Ok(updated);
  }

  /**
   * deleteCategory: the category must exist for the user, and no expense of the
   * user may reference it; on success exactly that category is removed, and the
   * user no longer has a category with that id.
   */
  method DeleteCategory(db: Db, userId: UserId, categoryId: Id) returns (r: Outcome)
    requires db.Valid()
    modifies db
    ensures db.Valid()
    ensures db.expenses == old(db.expenses) && db.nextId == old(db.nextId)
    ensures r == Fail(CategoryNotFound) <==> CategoryIndex(old(db.categories), categoryId, userId).None?
    ensures r == Fail(CategoryInUse) <==>
      && CategoryIndex(old(db.categories), categoryId, userId).Some?
      && |Matching(db.expenses, userId, categoryId)| > 0
    ensures r.Pass? <==>
      && CategoryIndex(old(db.categories), categoryId, userId).Some?
      && |Matching(db.expenses, userId, categoryId)| == 0
    ensures r.Fail? ==> db.categories == old(db.categories)
    ensures r.Pass? ==>
      && CategoryIndex(old(db.categories), categoryId, userId).Some?
      && var i := CategoryIndex(old(db.categories), categoryId, userId).value;
         db.categories == old(db.categories)[..i] + old(db.categories)[i + 1..]
    ensures CategoryIndex(db.categories, categoryId, userId).None? <==> r.Pass? || r == Fail(CategoryNotFound)
    ensures old(Referenced(db.categories, db.expenses)) ==> Referenced(db.categories, db.expenses)
  {
    var found := CategoryIndex(db.categories, categoryId, userId);
    if found.None? {
      return Fail(CategoryNotFound);
    }
    var i := found.value;
    var count := |Matching(db.expenses, userId, categoryId)|;
    if count > 0 {
      return Fail(CategoryInUse);
    }
    var cs, es, next := db.categories, db.expenses, db.nextId;
    CategoryRemovedKeepsConsistent(cs, es, next, i);
    db.categories := cs[..i] + cs[i + 1..];
    db.ConsistentIsValid(cs[..i] + cs[i + 1..], es, next);
    r := Pass;
  }

  // ---------------------------------------------------------------------------
  // The budget-update guard as written
  // ---------------------------------------------------------------------------

  /**
   * An id as a `$match` stage compares it. Aggregation pipelines are not cast to
   * the schema's types, so a filter value is compared as it arrives: an ObjectId
   * field never equals a string, whatever the hexadecimal digits of both.
   */
  datatype BsonId = ObjectId(n: nat) | HexString(n: nat)

  /** `$match { userId, categoryId }` then `$sum: "$amount"`, over stored ObjectId fields. */
  function AggregateSpend(es: seq<Expense>, userId: BsonId, categoryId: BsonId): int
  {
    if es == [] then 0
    else (if ObjectId(es[0].userId) == userId && ObjectId(es[0].categoryId) == categoryId then es[0].amount else 0)
         + AggregateSpend(es[1..], userId, categoryId)
  }

  /** Filter values cast to ObjectId give the spend the budget bounds. */
  lemma {:induction false} CastMatchIsSpend(es: seq<Expense>, userId: UserId, categoryId: Id)
    ensures AggregateSpend(es, ObjectId(userId), ObjectId(categoryId)) == Spend(es, userId, categoryId)
  {
    if es != [] {
      CastMatchIsSpend(es[1..], userId, categoryId);
      SpendCons(es, userId, categoryId);
    }
  }

  /** Filter values left as strings (the token's user id, the request body's category id) match nothing. */
  lemma {:induction false} UncastMatchIsZero(es: seq<Expense>, userId: UserId, categoryId: Id)
    ensures AggregateSpend(es, HexString(userId), HexString(categoryId)) == 0
  {
    if es != [] {
      UncastMatchIsZero(es[1..], userId, categoryId);
    }
  }

  /**
   * updateCategoryBudget as written: the spend is read through the uncast `$match`.
   * Gives the category list it would save. Its spend guard never fires: any
   * non-negative budget for an existing category is accepted.
   */
  function UpdateCategoryBudgetAsWritten(cs: seq<Category>, es: seq<Expense>, userId: UserId, categoryId: Id, newBudget: int)
    : (r: Result<seq<Category>>)
    ensures r.Ok? <==> newBudget >= 0 && CategoryIndex(cs, categoryId, userId).Some?
  {
    if newBudget < 0 then Err(NegativeBudget)
    else
      match CategoryIndex(cs, categoryId, userId)
      case None => Err(CategoryNotFound)
      case Some(i) =>
        var current := AggregateSpend(es, HexString(userId), HexString(categoryId));
        UncastMatchIsZero(es, userId, categoryId);
        if current > newBudget then Err(BudgetBelowSpend)
        else Ok(cs[i := cs[i].(budget := newBudget)])
  }

  /**
   * A consistent store where the guard as written lets a budget of 50 through for
   * a category that already holds an expense of 80, leaving it over budget.
   */
  lemma AsWrittenBudgetUpdateBreaksCeiling()
    ensures var cs := [Category(1, "food", 7, 100)];
            var es := [Expense(2, 7, 1, 80, None, Date(0, 2024, 1))];
            && Consistent(cs, es, 3)
            && UpdateCategoryBudgetAsWritten(cs, es, 7, 1, 50).Ok?
            && !WithinBudget(UpdateCategoryBudgetAsWritten(cs, es, 7, 1, 50).value, es)
  {
    var cs := [Category(1, "food", 7, 100)];
    var es := [Expense(2, 7, 1, 80, None, Date(0, 2024, 1))];
    SpendSingle(es[0], 7, 1);
    assert Spend(es, 7, 1) == 80;
    var saved := UpdateCategoryBudgetAsWritten(cs, es, 7, 1, 50).value;
    assert saved == [Category(1, "food", 7, 50)];
    assert saved[0] in saved;
  }
}
