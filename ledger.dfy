// Queries over the two collections that both ledgers share (the filters and
// lookups the handlers send to Mongo, and the sum of amounts), the store
// invariant every successful write keeps, and one lemma per kind of write
// showing that it keeps it.

module Ledger {
  import opened Records

  // ---------------------------------------------------------------------------
  // Sums and filters
  // ---------------------------------------------------------------------------

  /** `$sum: "$amount"` over a sequence of expenses. */
  function SumAmounts(es: seq<Expense>): int
  {
    if es == [] then 0 else es[0].amount + SumAmounts(es[1..])
  }

  /** The expenses the filter `{ userId: u, categoryId: c }` selects, in store order. */
  function Matching(es: seq<Expense>, u: UserId, c: Id): (r: seq<Expense>)
    ensures forall e :: e in r <==> e in es && e.userId == u && e.categoryId == c
    ensures |r| <= |es|
  {
    if es == [] then []
    else (if es[0].userId == u && es[0].categoryId == c then [es[0]] else []) + Matching(es[1..], u, c)
  }

  /** The expenses the filter `{ userId: u }` selects, in store order. */
  function OwnedBy(es: seq<Expense>, u: UserId): (r: seq<Expense>)
    ensures forall e :: e in r <==> e in es && e.userId == u
    ensures |r| <= |es|
  {
    if es == [] then []
    else (if es[0].userId == u then [es[0]] else []) + OwnedBy(es[1..], u)
  }

  /** The categories the filter `{ userId: u }` selects, in store order. */
  function CategoriesOf(cs: seq<Category>, u: UserId): (r: seq<Category>)
    ensures forall c :: c in r <==> c in cs && c.userId == u
    ensures |r| <= |cs|
  {
    if cs == [] then []
    else (if cs[0].userId == u then [cs[0]] else []) + CategoriesOf(cs[1..], u)
  }

  /** What user u has spent in category c: the quantity the category's budget bounds. */
  function Spend(es: seq<Expense>, u: UserId, c: Id): int
  {
    SumAmounts(Matching(es, u, c))
  }

  /** The part of Spend(_, u, c) that one expense contributes. */
  function Share(e: Expense, u: UserId, c: Id): int
  {
    if e.userId == u && e.categoryId == c then e.amount else 0
  }

  lemma {:induction false} SumAmountsConcat(a: seq<Expense>, b: seq<Expense>)
    ensures SumAmounts(a + b) == SumAmounts(a) + SumAmounts(b)
  {
    if a == [] {
      assert a + b == b;
    } else {
      assert (a + b)[1..] == a[1..] + b;
      SumAmountsConcat(a[1..], b);
    }
  }

  lemma {:induction false} MatchingConcat(a: seq<Expense>, b: seq<Expense>, u: UserId, c: Id)
    ensures Matching(a + b, u, c) == Matching(a, u, c) + Matching(b, u, c)
  {
    if a == [] {
      assert a + b == b;
    } else {
      assert (a + b)[1..] == a[1..] + b;
      MatchingConcat(a[1..], b, u, c);
    }
  }

  lemma SpendConcat(a: seq<Expense>, b: seq<Expense>, u: UserId, c: Id)
    ensures Spend(a + b, u, c) == Spend(a, u, c) + Spend(b, u, c)
  {
    MatchingConcat(a, b, u, c);
    SumAmountsConcat(Matching(a, u, c), Matching(b, u, c));
  }

  lemma SpendSingle(e: Expense, u: UserId, c: Id)
    ensures Spend([e], u, c) == Share(e, u, c)
  {
    assert [e][1..] == [];
    assert Matching([e], u, c) == (if e.userId == u && e.categoryId == c then [e] else []) + Matching([], u, c);
    if e.userId == u && e.categoryId == c {
      assert SumAmounts([e]) == e.amount + SumAmounts([]);
    }
  }

  lemma SpendAppend(es: seq<Expense>, e: Expense, u: UserId, c: Id)
    ensures Spend(es + [e], u, c) == Spend(es, u, c) + Share(e, u, c)
  {
    SpendConcat(es, [e], u, c);
    SpendSingle(e, u, c);
  }

  lemma SpendCons(es: seq<Expense>, u: UserId, c: Id)
    requires es != []
    ensures Spend(es, u, c) == Share(es[0], u, c) + Spend(es[1..], u, c)
  {
    assert es == [es[0]] + es[1..];
    SpendConcat([es[0]], es[1..], u, c);
    SpendSingle(es[0], u, c);
  }

  lemma SpendSplit(es: seq<Expense>, i: nat, u: UserId, c: Id)
    requires i < |es|
    ensures Spend(es, u, c) == Spend(es[..i], u, c) + Share(es[i], u, c) + Spend(es[i + 1..], u, c)
  {
    assert es == es[..i] + [es[i]] + es[i + 1..];
    SpendConcat(es[..i] + [es[i]], es[i + 1..], u, c);
    SpendAppend(es[..i], es[i], u, c);
  }

  lemma SpendReplace(es: seq<Expense>, i: nat, e: Expense, u: UserId, c: Id)
    requires i < |es|
    ensures Spend(es[i := e], u, c) == Spend(es, u, c) - Share(es[i], u, c) + Share(e, u, c)
  {
    var es' := es[i := e];
    assert es'[..i] == es[..i] && es'[i + 1..] == es[i + 1..];
    SpendSplit(es, i, u, c);
    SpendSplit(es', i, u, c);
  }

  lemma SpendRemove(es: seq<Expense>, i: nat, u: UserId, c: Id)
    requires i < |es|
    ensures Spend(es[..i] + es[i + 1..], u, c) == Spend(es, u, c) - Share(es[i], u, c)
  {
    SpendSplit(es, i, u, c);
    SpendConcat(es[..i], es[i + 1..], u, c);
  }

  lemma SpendUnused(es: seq<Expense>, u: UserId, c: Id)
    requires forall e :: e in es ==> e.categoryId != c
    ensures Spend(es, u, c) == 0
  {
    if es != [] {
      assert es[0] in es;
      SpendUnused(es[1..], u, c);
    }
  }

  // ---------------------------------------------------------------------------
  // Lookups (`findOne`, `findById`)
  // ---------------------------------------------------------------------------

  /** Index of the category `findOne({ _id: id, userId: u })` returns: the first match in store order. */
  function CategoryIndex(cs: seq<Category>, id: Id, u: UserId): (r: Option<nat>)
    ensures r.Some? ==> r.value < |cs| && cs[r.value].id == id && cs[r.value].userId == u
    ensures r.Some? ==> forall j :: 0 <= j < r.value ==> !(cs[j].id == id && cs[j].userId == u)
    ensures r.None? <==> forall c :: c in cs ==> !(c.id == id && c.userId == u)
  {
    if cs == [] then None
    else if cs[0].id == id && cs[0].userId == u then Some(0)
    else
      var rest := CategoryIndex(cs[1..], id, u);
      if rest.None? then None
      else
        assert forall c :: c in cs ==> c == cs[0] || c in cs[1..];
        Some(rest.value + 1)
  }

  /** The category `findById(id)` (and `populate`) resolves, whoever owns it. */
  function CategoryById(cs: seq<Category>, id: Id): (r: Option<Category>)
    ensures r.Some? ==> r.value in cs && r.value.id == id
    ensures r.None? <==> forall c :: c in cs ==> c.id != id
  {
    if cs == [] then None
    else if cs[0].id == id then Some(cs[0])
    else CategoryById(cs[1..], id)
  }

  /** Index of the expense `findOne({ _id: id, userId: u })` returns: the first match in store order. */
  function ExpenseIndex(es: seq<Expense>, id: Id, u: UserId): (r: Option<nat>)
    ensures r.Some? ==> r.value < |es| && es[r.value].id == id && es[r.value].userId == u
    ensures r.Some? ==> forall j :: 0 <= j < r.value ==> !(es[j].id == id && es[j].userId == u)
    ensures r.None? <==> forall e :: e in es ==> !(e.id == id && e.userId == u)
  {
    if es == [] then None
    else if es[0].id == id && es[0].userId == u then Some(0)
    else
      var rest := ExpenseIndex(es[1..], id, u);
      if rest.None? then None
      else
        assert forall e :: e in es ==> e == es[0] || e in es[1..];
        Some(rest.value + 1)
  }

  /** Whether `findOne({ name, userId: u })` finds a category. */
  function HasCategoryNamed(cs: seq<Category>, name: string, u: UserId): (b: bool)
    ensures b <==> exists c :: c in cs && c.name == name && c.userId == u
  {
    if cs == [] then false
    else if cs[0].name == name && cs[0].userId == u then true
    else
      assert forall c :: c in cs ==> c == cs[0] || c in cs[1..];
      HasCategoryNamed(cs[1..], name, u)
  }

  // ---------------------------------------------------------------------------
  // The store invariant
  // ---------------------------------------------------------------------------

  /** The central contract: no category's spend exceeds its budget. */
  ghost predicate WithinBudget(cs: seq<Category>, es: seq<Expense>)
  {
    forall c :: c in cs ==> Spend(es, c.userId, c.id) <= c.budget
  }

  /** Category ids are unique, and so are (owner, name) pairs. */
  /** No two categories of the list share an id. */
  ghost predicate UniqueIds(cs: seq<Category>)
  {
    forall i, j :: 0 <= i < j < |cs| ==> cs[i].id != cs[j].id
  }

  ghost predicate UniqueCategories(cs: seq<Category>)
  {
    && UniqueIds(cs)
    && forall i, j :: 0 <= i < j < |cs| ==> cs[i].userId != cs[j].userId || cs[i].name != cs[j].name
  }

  ghost predicate UniqueExpenseIds(es: seq<Expense>)
  {
    forall i, j :: 0 <= i < j < |es| ==> es[i].id != es[j].id
  }

  /**
   * What holds of the store between requests: every id is below the next one to be
   * handed out, ids and (owner, name) pairs are unique, budgets are non-negative
   * (the schema's `min: 0`), amounts are non-negative (the expense validation
   * schema asks for positive ones), and every category is within its budget.
   */
  ghost predicate Consistent(cs: seq<Category>, es: seq<Expense>, next: nat)
  {
    && (forall c :: c in cs ==> c.id < next && c.budget >= 0)
    && (forall e :: e in es ==> e.id < next && e.categoryId < next && e.amount >= 0)
    && UniqueCategories(cs)
    && UniqueExpenseIds(es)
    && WithinBudget(cs, es)
  }

  /** Every expense's category exists and belongs to the expense's owner. */
  ghost predicate Referenced(cs: seq<Category>, es: seq<Expense>)
  {
    forall e :: e in es ==> CategoryIndex(cs, e.categoryId, e.userId).Some?
  }

  lemma SameIdSameCategory(cs: seq<Category>, a: Category, b: Category)
    requires UniqueCategories(cs)
    requires a in cs && b in cs && a.id == b.id
    ensures a == b
  {
    var i :| 0 <= i < |cs| && cs[i] == a;
    var j :| 0 <= j < |cs| && cs[j] == b;
    assert i == j;
  }

  /** Position a of a sequence with its element i removed. */
  lemma RemovedAt<T>(s: seq<T>, i: nat, a: nat)
    requires i < |s| && a < |s| - 1
    ensures (s[..i] + s[i + 1..])[a] == s[if a < i then a else a + 1]
  {
  }

  /** Removing a category keeps ids and (owner, name) pairs unique, and keeps every other category. */
  lemma CategoryRemovedUnique(cs: seq<Category>, i: nat)
    requires UniqueCategories(cs)
    requires i < |cs|
    ensures UniqueCategories(cs[..i] + cs[i + 1..])
    ensures forall x :: x in cs[..i] + cs[i + 1..] ==> x in cs && x.id != cs[i].id
    ensures forall k :: 0 <= k < |cs| && k != i ==> cs[k] in cs[..i] + cs[i + 1..]
  {
    var cs' := cs[..i] + cs[i + 1..];
    forall a, b | 0 <= a < b < |cs'|
      ensures cs'[a].id != cs'[b].id && (cs'[a].userId != cs'[b].userId || cs'[a].name != cs'[b].name)
    {
      RemovedAt(cs, i, a);
      RemovedAt(cs, i, b);
    }
    forall x | x in cs'
      ensures x in cs && x.id != cs[i].id
    {
      var a :| 0 <= a < |cs'| && cs'[a] == x;
      RemovedAt(cs, i, a);
    }
    forall k | 0 <= k < |cs| && k != i
      ensures cs[k] in cs'
    {
      var k0 := if k < i then k else k - 1;
      RemovedAt(cs, i, k0);
    }
  }

  /** With unique ids, once an expense is removed no remaining expense carries its id. */
  lemma RemovedExpenseGone(es: seq<Expense>, i: nat)
    requires UniqueExpenseIds(es)
    requires i < |es|
    ensures forall e :: e in es[..i] + es[i + 1..] ==> e.id != es[i].id
  {
    var es' := es[..i] + es[i + 1..];
    forall e | e in es'
      ensures e.id != es[i].id
    {
      var a :| 0 <= a < |es'| && es'[a] == e;
      RemovedAt(es, i, a);
    }
  }

  // ---------------------------------------------------------------------------
  // Each successful write keeps the invariant
  // ---------------------------------------------------------------------------

  /** Appending an expense that passed the create guard keeps the store consistent. */
  lemma ExpenseAddedKeepsConsistent(cs: seq<Category>, es: seq<Expense>, next: nat, e: Expense)
    requires Consistent(cs, es, next)
    requires e.id == next && e.amount >= 0
    requires CategoryIndex(cs, e.categoryId, e.userId).Some?
    requires Spend(es, e.userId, e.categoryId) + e.amount
             <= cs[CategoryIndex(cs, e.categoryId, e.userId).value].budget
    ensures Consistent(cs, es + [e], next + 1)
    ensures Referenced(cs, es) ==> Referenced(cs, es + [e])
  {
    var k := CategoryIndex(cs, e.categoryId, e.userId).value;
    var es' := es + [e];
    forall c | c in cs
      ensures Spend(es', c.userId, c.id) <= c.budget
    {
      SpendAppend(es, e, c.userId, c.id);
      if c.userId == e.userId && c.id == e.categoryId {
        SameIdSameCategory(cs, c, cs[k]);
      }
    }
    forall i, j | 0 <= i < j < |es'|
      ensures es'[i].id != es'[j].id
    {
      assert es'[i] in es;
      if j < |es| {
        assert es'[i] == es[i] && es'[j] == es[j];
      }
    }
    assert forall x :: x in es' ==> x in es || x == e;
  }

  /**
   * Applying a patch that passed the update guard keeps the store consistent; a patch
   * whose amount is 0 skips the guard and is harmless, since it only lowers the spend.
   */
  lemma ExpensePatchedKeepsConsistent(cs: seq<Category>, es: seq<Expense>, next: nat, i: nat, p: Patch)
    requires Consistent(cs, es, next)
    requires i < |es|
    requires p.amount.Some? ==> p.amount.value >= 0
    requires p.amount.Some? && p.amount.value != 0 ==>
      && CategoryById(cs, es[i].categoryId).Some?
      && Spend(es, es[i].userId, es[i].categoryId) - es[i].amount + p.amount.value
         <= CategoryById(cs, es[i].categoryId).value.budget
    ensures Consistent(cs, es[i := ApplyPatch(es[i], p)], next)
    ensures Referenced(cs, es) ==> Referenced(cs, es[i := ApplyPatch(es[i], p)])
  {
    var e' := ApplyPatch(es[i], p);
    var es' := es[i := e'];
    forall c | c in cs
      ensures Spend(es', c.userId, c.id) <= c.budget
    {
      SpendReplace(es, i, e', c.userId, c.id);
      if c.userId == es[i].userId && c.id == es[i].categoryId && p.amount.Some? && p.amount.value != 0 {
        SameIdSameCategory(cs, c, CategoryById(cs, es[i].categoryId).value);
      }
    }
    forall a, b | 0 <= a < b < |es'|
      ensures es'[a].id != es'[b].id
    {
      assert es[a].id != es[b].id;
    }
    forall x | x in es'
      ensures x in es || x == e'
    {
      var a :| 0 <= a < |es'| && es'[a] == x;
      if a != i {
        assert x == es[a];
      }
    }
    assert es[i] in es;
  }

  /** Removing any one expense keeps the store consistent (amounts are non-negative). */
  lemma ExpenseRemovedKeepsConsistent(cs: seq<Category>, es: seq<Expense>, next: nat, i: nat)
    requires Consistent(cs, es, next)
    requires i < |es|
    ensures Consistent(cs, es[..i] + es[i + 1..], next)
    ensures Referenced(cs, es) ==> Referenced(cs, es[..i] + es[i + 1..])
  {
    var es' := es[..i] + es[i + 1..];
    assert es[i] in es;
    forall c | c in cs
      ensures Spend(es', c.userId, c.id) <= c.budget
    {
      SpendRemove(es, i, c.userId, c.id);
    }
    forall a, b | 0 <= a < b < |es'|
      ensures es'[a].id != es'[b].id
    {
      var a0 := if a < i then a else a + 1;
      var b0 := if b < i then b else b + 1;
      assert es'[a] == es[a0] && es'[b] == es[b0];
    }
    assert forall x :: x in es' ==> x in es;
  }

  /** Adding a fresh category with a non-negative budget and an unused name keeps the store consistent. */
  lemma CategoryAddedKeepsConsistent(cs: seq<Category>, es: seq<Expense>, next: nat, c: Category)
    requires Consistent(cs, es, next)
    requires c.id == next && c.budget >= 0
    requires !HasCategoryNamed(cs, c.name, c.userId)
    ensures Consistent(cs + [c], es, next + 1)
    ensures Referenced(cs, es) ==> Referenced(cs + [c], es)
  {
    var cs' := cs + [c];
    SpendUnused(es, c.userId, c.id);
    assert forall x :: x in cs' ==> x in cs || x == c;
    forall a, b | 0 <= a < b < |cs'|
      ensures cs'[a].id != cs'[b].id && (cs'[a].userId != cs'[b].userId || cs'[a].name != cs'[b].name)
    {
      assert cs'[a] in cs;
      if b < |cs| {
        assert cs'[a] == cs[a] && cs'[b] == cs[b];
      }
    }
    if Referenced(cs, es) {
      forall e | e in es
        ensures CategoryIndex(cs', e.categoryId, e.userId).Some?
      {
        var k := CategoryIndex(cs, e.categoryId, e.userId).value;
        assert cs'[k] == cs[k];
      }
    }
  }

  /** Setting a budget no lower than the category's spend keeps the store consistent. */
  lemma BudgetChangedKeepsConsistent(cs: seq<Category>, es: seq<Expense>, next: nat, i: nat, budget: int)
    requires Consistent(cs, es, next)
    requires i < |cs|
    requires 0 <= budget && Spend(es, cs[i].userId, cs[i].id) <= budget
    ensures Consistent(cs[i := cs[i].(budget := budget)], es, next)
    ensures Referenced(cs, es) ==> Referenced(cs[i := cs[i].(budget := budget)], es)
  {
    var cs' := cs[i := cs[i].(budget := budget)];
    forall x | x in cs'
      ensures x.id < next && x.budget >= 0 && Spend(es, x.userId, x.id) <= x.budget
    {
      var a :| 0 <= a < |cs'| && cs'[a] == x;
      assert cs[a] in cs;
    }
    forall a, b | 0 <= a < b < |cs'|
      ensures cs'[a].id != cs'[b].id && (cs'[a].userId != cs'[b].userId || cs'[a].name != cs'[b].name)
    {
      assert cs[a].id != cs[b].id && (cs[a].userId != cs[b].userId || cs[a].name != cs[b].name);
    }
    if Referenced(cs, es) {
      forall e | e in es
        ensures CategoryIndex(cs', e.categoryId, e.userId).Some?
      {
        var k := CategoryIndex(cs, e.categoryId, e.userId).value;
        assert cs'[k] in cs';
      }
    }
  }

  /**
   * Removing a category that none of its owner's expenses reference keeps the store
   * consistent, and afterwards the owner has no category with that id.
   */
  lemma CategoryRemovedKeepsConsistent(cs: seq<Category>, es: seq<Expense>, next: nat, i: nat)
    requires Consistent(cs, es, next)
    requires i < |cs|
    requires |Matching(es, cs[i].userId, cs[i].id)| == 0
    ensures Consistent(cs[..i] + cs[i + 1..], es, next)
    ensures Referenced(cs, es) ==> Referenced(cs[..i] + cs[i + 1..], es)
    ensures CategoryIndex(cs[..i] + cs[i + 1..], cs[i].id, cs[i].userId).None?
  {
    var cs' := cs[..i] + cs[i + 1..];
    CategoryRemovedUnique(cs, i);
    if Referenced(cs, es) {
      forall e | e in es
        ensures CategoryIndex(cs', e.categoryId, e.userId).Some?
      {
        var k := CategoryIndex(cs, e.categoryId, e.userId).value;
        assert k != i;
        assert cs[k] in cs';
      }
    }
  }
}
