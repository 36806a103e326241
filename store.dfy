// The two Mongo collections the handlers read and write, held in memory. Every
// handler runs as one atomic step on this store, and the `_id` Mongo generates
// for a new document is drawn from a counter.

module Store {
  import opened Records
  import opened Ledger

  class Db {
    var categories: seq<Category>
    var expenses: seq<Expense>
    /** The next `_id` to hand out; every id in use is below it. */
    var nextId: nat

    ghost predicate Valid()
      reads this
    {
      Consistent(categories, expenses, nextId)
    }

    /** The store is valid as soon as its fields hold a consistent state. */
    lemma ConsistentIsValid(cs: seq<Category>, es: seq<Expense>, next: nat)
      requires Consistent(cs, es, next)
      requires categories == cs && expenses == es && nextId == next
      ensures Valid()
    {
    }

    /** Both collections empty. */
    constructor ()
      ensures Valid()
      ensures categories == [] && expenses == [] && nextId == 0
    {
      categories := [];
      expenses := [];
      nextId := 0;
    }
  }
}
