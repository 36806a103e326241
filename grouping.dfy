// The `$group` stage of the aggregation pipelines: expenses are folded into one
// group per distinct `_id` expression, each group carrying the `$sum` of the
// amounts of its expenses; and `find` over the resulting groups.

module Grouping {
  import opened Records
  import opened Ledger

  /** The `_id` expressions the pipelines group by. */
  datatype GroupBy =
    | Whole               // `_id: null`: one group for everything matched
    | ByCategory          // `_id: "$categoryId"`
    | ByYear              // `_id: { year: { $year: "$date" } }`
    | ByMonth             // `_id: { year: { $year: "$date" }, month: { $month: "$date" } }`
    | ByMonthAndCategory  // `_id: { year, month, category: "$categoryId" }`

  datatype Key =
    | NoKey
    | CategoryKey(categoryId: Id)
    | YearKey(year: int)
    | MonthKey(year: int, month: int)
    | TrendKey(year: int, month: int, categoryId: Id)

  function KeyOf(g: GroupBy, e: Expense): Key
  {
    match g
    case Whole => NoKey
    case ByCategory => CategoryKey(e.categoryId)
    case ByYear => YearKey(e.date.year)
    case ByMonth => MonthKey(e.date.year, e.date.month)
    case ByMonthAndCategory => TrendKey(e.date.year, e.date.month, e.categoryId)
  }

  datatype Group = Group(key: Key, total: int)

  /** The reference sum: the amounts of the expenses whose key is k. */
  function SumWhere(es: seq<Expense>, g: GroupBy, k: Key): int
  {
    if es == [] then 0
    else (if KeyOf(g, es[0]) == k then es[0].amount else 0) + SumWhere(es[1..], g, k)
  }

  /** Some expense has key k. */
  ghost predicate Occurs(es: seq<Expense>, g: GroupBy, k: Key)
  {
    exists e :: e in es && KeyOf(g, e) == k
  }

  ghost predicate DistinctKeys(gs: seq<Group>)
  {
    forall i, j :: 0 <= i < j < |gs| ==> gs[i].key != gs[j].key
  }

  function SumTotals(gs: seq<Group>): int
  {
    if gs == [] then 0 else gs[0].total + SumTotals(gs[1..])
  }

  /** `groups.find(e => e._id == k)`, giving that group's total. */
  function Lookup(gs: seq<Group>, k: Key): (r: Option<int>)
    ensures r.None? <==> forall i :: 0 <= i < |gs| ==> gs[i].key != k
  {
    if gs == [] then None
    else if gs[0].key == k then Some(gs[0].total)
    else
      assert forall i :: 1 <= i < |gs| ==> gs[i] == gs[1..][i - 1];
      Lookup(gs[1..], k)
  }

  /** The `x?.total || 0` idiom over a lookup. */
  function TotalOrZero(r: Option<int>): int
  {
    if r.Some? then r.value else 0
  }

  /** Adds one expense's amount to the group for key k, opening the group if it is new. */
  function AddTo(gs: seq<Group>, k: Key, amount: int): seq<Group>
  {
    if gs == [] then [Group(k, amount)]
    else if gs[0].key == k then [Group(k, gs[0].total + amount)] + gs[1..]
    else [gs[0]] + AddTo(gs[1..], k, amount)
  }

  /** The `$group` stage with `$sum: "$amount"`. */
  function GroupSum(es: seq<Expense>, g: GroupBy): seq<Group>
  {
    if es == [] then []
    else AddTo(GroupSum(es[1..], g), KeyOf(g, es[0]), es[0].amount)
  }

  lemma {:induction false} AddToLookup(gs: seq<Group>, k: Key, amount: int, k': Key)
    ensures Lookup(AddTo(gs, k, amount), k')
            == if k' == k then Some(TotalOrZero(Lookup(gs, k)) + amount) else Lookup(gs, k')
  {
    if gs == [] {
      assert [Group(k, amount)][1..] == [];
    } else if gs[0].key == k {
      assert ([Group(k, gs[0].total + amount)] + gs[1..])[1..] == gs[1..];
    } else {
      AddToLookup(gs[1..], k, amount, k');
      assert ([gs[0]] + AddTo(gs[1..], k, amount))[1..] == AddTo(gs[1..], k, amount);
    }
  }

  lemma {:induction false} AddToDistinct(gs: seq<Group>, k: Key, amount: int)
    requires DistinctKeys(gs)
    ensures DistinctKeys(AddTo(gs, k, amount))
  {
    if gs != [] && gs[0].key != k {
      var rest := AddTo(gs[1..], k, amount);
      AddToDistinct(gs[1..], k, amount);
      AddToLookup(gs[1..], k, amount, gs[0].key);
      assert Lookup(gs[1..], gs[0].key).None? by {
        forall i | 0 <= i < |gs[1..]|
          ensures gs[1..][i].key != gs[0].key
        {
          assert gs[1..][i] == gs[i + 1];
        }
      }
      var r := [gs[0]] + rest;
      forall i, j | 0 <= i < j < |r|
        ensures r[i].key != r[j].key
      {
        if i > 0 {
          assert r[i] == rest[i - 1] && r[j] == rest[j - 1];
        } else {
          assert r[j] == rest[j - 1];
        }
      }
    } else if gs != [] {
      var r := [Group(k, gs[0].total + amount)] + gs[1..];
      forall i, j | 0 <= i < j < |r|
        ensures r[i].key != r[j].key
      {
        assert r[j] == gs[j];
        if i > 0 {
          assert r[i] == gs[i];
        }
      }
    }
  }

  lemma {:induction false} AddToSum(gs: seq<Group>, k: Key, amount: int)
    ensures SumTotals(AddTo(gs, k, amount)) == SumTotals(gs) + amount
  {
    if gs == [] {
      assert SumTotals([Group(k, amount)]) == amount + SumTotals([]);
    } else if gs[0].key == k {
      assert ([Group(k, gs[0].total + amount)] + gs[1..])[1..] == gs[1..];
    } else {
      AddToSum(gs[1..], k, amount);
      assert ([gs[0]] + AddTo(gs[1..], k, amount))[1..] == AddTo(gs[1..], k, amount);
    }
  }

  lemma {:induction false} SumWhereAbsent(es: seq<Expense>, g: GroupBy, k: Key)
    requires !Occurs(es, g, k)
    ensures SumWhere(es, g, k) == 0
  {
    if es != [] {
      assert es[0] in es;
      assert !Occurs(es[1..], g, k) by {
        forall e | e in es[1..] ensures KeyOf(g, e) != k {
          assert e in es;
        }
      }
      SumWhereAbsent(es[1..], g, k);
    }
  }

  /**
   * The `$group` stage yields one group per distinct key; the group for k exists
   * exactly when some expense has key k, and its total is the sum of those
   * expenses' amounts; the totals together add up to all the amounts.
   */
  lemma {:induction false} GroupSumSpec(es: seq<Expense>, g: GroupBy)
    ensures DistinctKeys(GroupSum(es, g))
    ensures forall k :: Lookup(GroupSum(es, g), k)
                        == if Occurs(es, g, k) then Some(SumWhere(es, g, k)) else None
    ensures SumTotals(GroupSum(es, g)) == SumAmounts(es)
  {
    if es == [] {
    } else {
      var rest := GroupSum(es[1..], g);
      var k0 := KeyOf(g, es[0]);
      GroupSumSpec(es[1..], g);
      AddToDistinct(rest, k0, es[0].amount);
      AddToSum(rest, k0, es[0].amount);
      forall k
        ensures Lookup(GroupSum(es, g), k) == if Occurs(es, g, k) then Some(SumWhere(es, g, k)) else None
      {
        GroupSumLookupStep(es, g, k);
      }
    }
  }

  lemma OccursCons(es: seq<Expense>, g: GroupBy, k: Key)
    requires es != []
    ensures Occurs(es, g, k) <==> KeyOf(g, es[0]) == k || Occurs(es[1..], g, k)
  {
    assert es[0] in es;
    assert forall e :: e in es ==> e == es[0] || e in es[1..];
    assert forall e :: e in es[1..] ==> e in es;
  }

  lemma GroupSumLookupStep(es: seq<Expense>, g: GroupBy, k: Key)
    requires es != []
    requires Lookup(GroupSum(es[1..], g), k)
             == if Occurs(es[1..], g, k) then Some(SumWhere(es[1..], g, k)) else None
    ensures Lookup(GroupSum(es, g), k) == if Occurs(es, g, k) then Some(SumWhere(es, g, k)) else None
  {
    AddToLookup(GroupSum(es[1..], g), KeyOf(g, es[0]), es[0].amount, k);
    OccursCons(es, g, k);
    if !Occurs(es[1..], g, k) {
      SumWhereAbsent(es[1..], g, k);
    }
  }

  /** In a sequence of groups with distinct keys, `find` by a group's key gives that group. */
  lemma {:induction false} LookupAt(gs: seq<Group>, i: nat)
    requires DistinctKeys(gs)
    requires i < |gs|
    ensures Lookup(gs, gs[i].key) == Some(gs[i].total)
  {
    if i > 0 {
      assert gs[0].key != gs[i].key;
      assert DistinctKeys(gs[1..]) by {
        forall a, b | 0 <= a < b < |gs[1..]| ensures gs[1..][a].key != gs[1..][b].key {
          assert gs[1..][a] == gs[a + 1] && gs[1..][b] == gs[b + 1];
        }
      }
      assert gs[1..][i - 1] == gs[i];
      LookupAt(gs[1..], i - 1);
    }
  }

  /** Every group of `GroupSum` is the sum of the expenses with its key, and no group is empty of expenses. */
  lemma GroupSumMembers(es: seq<Expense>, g: GroupBy, x: Group)
    requires x in GroupSum(es, g)
    ensures x.total == SumWhere(es, g, x.key) && Occurs(es, g, x.key)
  {
    var gs := GroupSum(es, g);
    GroupSumSpec(es, g);
    var i :| 0 <= i < |gs| && gs[i] == x;
    LookupAt(gs, i);
  }

  lemma {:induction false} SumTotalsConcat(a: seq<Group>, b: seq<Group>)
    ensures SumTotals(a + b) == SumTotals(a) + SumTotals(b)
  {
    if a == [] {
      assert a + b == b;
    } else {
      assert (a + b)[1..] == a[1..] + b;
      SumTotalsConcat(a[1..], b);
    }
  }

  lemma SumTotalsRemove(b: seq<Group>, k: nat)
    requires k < |b|
    ensures SumTotals(b) == b[k].total + SumTotals(b[..k] + b[k + 1..])
  {
    assert b == b[..k] + b[k..];
    assert b[k..][1..] == b[k + 1..];
    SumTotalsConcat(b[..k], b[k..]);
    SumTotalsConcat(b[..k], b[k + 1..]);
  }

  lemma MultisetRemove<T>(a: seq<T>, b: seq<T>, k: nat)
    requires a != [] && k < |b| && b[k] == a[0]
    requires multiset(a) == multiset(b)
    ensures multiset(a[1..]) == multiset(b[..k] + b[k + 1..])
  {
    assert a == [a[0]] + a[1..];
    assert b == b[..k] + [b[k]] + b[k + 1..];
    assert multiset(b) == multiset(b[..k]) + multiset{b[k]} + multiset(b[k + 1..]);
    assert multiset(b[..k] + b[k + 1..]) == multiset(b[..k]) + multiset(b[k + 1..]);
    assert multiset(a) == multiset{a[0]} + multiset(a[1..]);
    assert multiset(a[1..]) == multiset(a) - multiset{a[0]};
    assert multiset(b[..k] + b[k + 1..]) == multiset(b) - multiset{b[k]};
  }

  /** Reordering groups does not change the sum of their totals. */
  lemma {:induction false} SumTotalsPermutation(a: seq<Group>, b: seq<Group>)
    requires multiset(a) == multiset(b)
    ensures SumTotals(a) == SumTotals(b)
  {
    if a == [] {
      assert |b| == |multiset(b)| == 0;
    } else {
      assert a[0] in multiset(b);
      var k :| 0 <= k < |b| && b[k] == a[0];
      MultisetRemove(a, b, k);
      SumTotalsPermutation(a[1..], b[..k] + b[k + 1..]);
      SumTotalsRemove(b, k);
    }
  }
  lemma MultisetTwice<T>(a: seq<T>, i: nat, j: nat)
    requires i < j < |a| && a[i] == a[j]
    ensures multiset(a)[a[i]] >= 2
  {
    assert a == a[..j] + [a[j]] + a[j + 1..];
    assert a[..j][i] == a[i];
    assert multiset(a) == multiset(a[..j]) + multiset{a[j]} + multiset(a[j + 1..]);
  }

  lemma DistinctKeysOnce(b: seq<Group>, p: nat)
    requires DistinctKeys(b)
    requires p < |b|
    ensures multiset(b)[b[p]] == 1
  {
    assert b == b[..p] + [b[p]] + b[p + 1..];
    assert multiset(b) == multiset(b[..p]) + multiset{b[p]} + multiset(b[p + 1..]);
    assert b[p] !in b[..p] by {
      forall k | 0 <= k < p ensures b[..p][k] != b[p] {
        assert b[..p][k] == b[k];
      }
    }
    assert b[p] !in b[p + 1..] by {
      var rest := b[p + 1..];
      forall k | 0 <= k < |rest| ensures rest[k] != b[p] {
        assert rest[k] == b[p + 1 + k];
      }
    }
  }

  /** Reordering groups keeps their keys distinct. */
  lemma DistinctKeysPermutation(a: seq<Group>, b: seq<Group>)
    requires multiset(a) == multiset(b)
    requires DistinctKeys(b)
    ensures DistinctKeys(a)
  {
    forall i, j | 0 <= i < j < |a|
      ensures a[i].key != a[j].key
    {
      assert a[i] in multiset(b) && a[j] in multiset(b);
      var p :| 0 <= p < |b| && b[p] == a[i];
      var q :| 0 <= q < |b| && b[q] == a[j];
      if a[i] == a[j] {
        MultisetTwice(a, i, j);
        DistinctKeysOnce(b, p);
        assert false;
      } else if p < q {
        assert b[p].key != b[q].key;
      } else {
        assert b[q].key != b[p].key;
      }
    }
  }

  /** With `_id: null` the `$group` stage yields no group for no expenses, and otherwise one group holding the whole sum. */
  lemma {:induction false} GroupSumWhole(es: seq<Expense>)
    ensures GroupSum(es, Whole) == if es == [] then [] else [Group(NoKey, SumAmounts(es))]
  {
    if es != [] {
      GroupSumWhole(es[1..]);
      if es[1..] != [] {
        assert [Group(NoKey, SumAmounts(es[1..]))][1..] == [];
      }
    }
  }

  /** `groups[0]?.total || 0` after a `$group` with `_id: null`: the sum of all the amounts, 0 for none. */
  function WholeTotal(es: seq<Expense>): (r: int)
    ensures r == SumAmounts(es)
  {
    var gs := GroupSum(es, Whole);
    GroupSumWhole(es);
    if gs == [] then 0 else gs[0].total
  }

  /** `_id.year` of a group, 0 where the key has none. */
  function KeyYear(k: Key): int
  {
    match k
    case YearKey(y) => y
    case MonthKey(y, _) => y
    case TrendKey(y, _, _) => y
    case _ => 0
  }

  /** `_id.month` of a group, 0 where the key has none (all such groups tie on it). */
  function KeyMonth(k: Key): int
  {
    match k
    case MonthKey(_, m) => m
    case TrendKey(_, m, _) => m
    case _ => 0
  }

  /** The `$sort: { "_id.year": -1, "_id.month": -1 }` order. */
  function GroupRank(g: Group): (int, int)
  {
    (KeyYear(g.key), KeyMonth(g.key))
  }
}
