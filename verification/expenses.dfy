/** The expense record, the failures an invocation can end in, and the invariant a well-kept store satisfies. */
module Expenses {
  import opened Results
  import opened Dates

  /** One stored entry: the JSON object with keys id, date, description and amount. */
  datatype Expense = Expense(id: int, date: string, description: string, amount: int)

  /** How an invocation fails without touching the data file. */
  datatype Error =
    /** `args.desc` or `args.amt` looked up on a namespace that only has `description` and `amount`. */
    | AttributeMissing(name: string)
    /** `delete` without `--id`. */
    | IdMissing
    /** `int()` raised on the month field of some stored date. */
    | MonthNotNumeric(field: string)

  /** IDs strictly increase along the list. */
  predicate IdsIncreasing(xs: seq<Expense>) {
    forall i, j :: 0 <= i < j < |xs| ==> xs[i].id < xs[j].id
  }

  predicate IdsPositive(xs: seq<Expense>) {
    forall i :: 0 <= i < |xs| ==> xs[i].id >= 1
  }

  /** The date of `e` carries a month number the monthly summary can read, and it is a real month. */
  predicate HasMonth(e: Expense) {
    match MonthOf(e.date)
    case Some(m) => 1 <= m <= 12
    case None => false
  }

  predicate AllHaveMonths(xs: seq<Expense>) {
    forall i :: 0 <= i < |xs| ==> HasMonth(xs[i])
  }

  /** What every store built by `add` and `delete` from an empty file satisfies. */
  predicate Valid(xs: seq<Expense>) {
    IdsIncreasing(xs) && IdsPositive(xs) && AllHaveMonths(xs)
  }

  /** Increasing IDs are unique IDs: an ID names at most one record. */
  lemma IncreasingIdsAreUnique(xs: seq<Expense>, i: nat, j: nat)
    requires IdsIncreasing(xs)
    requires i < |xs| && j < |xs| && xs[i].id == xs[j].id
    ensures i == j
  {
  }
}
