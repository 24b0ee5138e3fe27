/** The `summary` command's aggregates: the grand total and the total of one month. */
module Summary {
  import opened Results
  import opened Sequences
  import opened Dates
  import opened Expenses
  import opened Store

  /** Sum of the amounts, accumulated front to back; 0 for an empty store. */
  function Total(xs: seq<Expense>): int {
    if |xs| == 0 then 0 else Total(xs[..|xs| - 1]) + xs[|xs| - 1].amount
  }

  /** The total of two stores laid end to end is the sum of their totals. */
  lemma {:induction false} TotalOfConcat(a: seq<Expense>, b: seq<Expense>)
    ensures Total(a + b) == Total(a) + Total(b)
  {
    if |b| == 0 {
      assert a + b == a;
    } else {
      TotalOfConcat(a, b[..|b| - 1]);
      assert (a + b)[..|a + b| - 1] == a + b[..|b| - 1];
    }
  }

  /** The running sum of the grand-total loop. */
  method TotalExpenses(xs: seq<Expense>) returns (total: int)
    ensures total == Total(xs)
  {
    total := 0;
    var i := 0;
    while i < |xs|
      invariant 0 <= i <= |xs|
      invariant total == Total(xs[..i])
    {
      assert xs[..i + 1][..i] == xs[..i];
      total := total + xs[i].amount;
      i := i + 1;
    }
    assert xs[..|xs|] == xs;
  }

  /** The records whose month field reads as `month`, in store order. */
  function InMonth(xs: seq<Expense>, month: int): seq<Expense> {
    if |xs| == 0 then []
    else
      var front := xs[..|xs| - 1];
      var last := xs[|xs| - 1];
      if MonthOf(last.date) == Some(month) then InMonth(front, month) + [last] else InMonth(front, month)
  }

  /** The month's selection holds each record of that month exactly as many times as the store does, and no
      record of any other month, so its total is the sum of exactly that month's amounts. */
  lemma {:induction false} InMonthSelectsExactly(xs: seq<Expense>, month: int)
    ensures forall e :: multiset(InMonth(xs, month))[e]
                        == if MonthOf(e.date) == Some(month) then multiset(xs)[e] else 0
  {
    if |xs| > 0 {
      InMonthSelectsExactly(xs[..|xs| - 1], month);
      assert xs == xs[..|xs| - 1] + [xs[|xs| - 1]];
    }
  }

  /** What the monthly loop produces: ValueError on the first stored date whose month field is not a number
      (the whole summary fails, whatever month was asked for), otherwise the sum of the amounts of the records
      whose month field reads as `month`. */
  function MonthlyTotal(xs: seq<Expense>, month: int): (r: Result<int, Error>)
    ensures r.Ok? <==> forall i :: 0 <= i < |xs| ==> MonthOf(xs[i].date).Some?
    ensures r.Ok? ==> r.value == Total(InMonth(xs, month))
    ensures r.Err? ==>
              exists i :: 0 <= i < |xs| && MonthOf(xs[i].date).None?
                          && r.error == MonthNotNumeric(MonthField(xs[i].date))
                          && forall j :: 0 <= j < i ==> MonthOf(xs[j].date).Some?
  {
    match FirstWhere(xs, (e: Expense) => MonthOf(e.date).None?)
    case None => Ok(Total(InMonth(xs, month)))
    case Some(i) => Err(MonthNotNumeric(MonthField(xs[i].date)))
  }

  /** The monthly loop: convert each record's month field, add the amount when it matches, and fail at the
      first field that does not convert. */
  method MonthlySummary(xs: seq<Expense>, month: int) returns (r: Result<int, Error>)
    ensures r == MonthlyTotal(xs, month)
  {
    var total := 0;
    var i := 0;
    while i < |xs|
      invariant 0 <= i <= |xs|
      invariant forall j :: 0 <= j < i ==> MonthOf(xs[j].date).Some?
      invariant total == Total(InMonth(xs[..i], month))
    {
      var parsed := MonthOf(xs[i].date);
      if parsed.None? {
        FirstWhereIsFirstHit(xs, (e: Expense) => MonthOf(e.date).None?, i);
        return Err(MonthNotNumeric(MonthField(xs[i].date)));
      }
      MonthlyStep(xs, i, month);
      if parsed.value == month {
        total := total + xs[i].amount;
      }
      i := i + 1;
    }
    assert xs[..|xs|] == xs;
    r := Ok(total);
  }

  /** Extending the scanned prefix by one record adds its amount to the month it belongs to. */
  lemma MonthlyStep(xs: seq<Expense>, i: nat, month: int)
    requires i < |xs|
    ensures Total(InMonth(xs[..i + 1], month))
            == Total(InMonth(xs[..i], month)) + (if MonthOf(xs[i].date) == Some(month) then xs[i].amount else 0)
  {
    assert xs[..i + 1][..i] == xs[..i];
    var front := InMonth(xs[..i], month);
    if MonthOf(xs[i].date) == Some(month) {
      assert InMonth(xs[..i + 1], month) == front + [xs[i]];
      assert (front + [xs[i]])[..|front|] == front;
    }
  }

  /** Sum of the monthly totals of months `lo` up to but excluding `hi`. */
  function SumOfMonths(xs: seq<Expense>, lo: int, hi: int): int
    decreases hi - lo
  {
    if lo >= hi then 0 else Total(InMonth(xs, lo)) + SumOfMonths(xs, lo + 1, hi)
  }

  /** One more record adds its amount to exactly the month range that contains its month. */
  lemma {:induction false} SumOfMonthsGrows(xs: seq<Expense>, e: Expense, lo: int, hi: int)
    ensures SumOfMonths(xs + [e], lo, hi)
            == SumOfMonths(xs, lo, hi)
               + (if MonthOf(e.date).Some? && lo <= MonthOf(e.date).value < hi then e.amount else 0)
    decreases hi - lo
  {
    if lo < hi {
      SumOfMonthsGrows(xs, e, lo + 1, hi);
      assert (xs + [e])[..|xs|] == xs;
    }
  }

  /** When every stored date carries a month from 1 to 12, every monthly summary succeeds. */
  lemma MonthlyTotalsSucceed(xs: seq<Expense>)
    requires AllHaveMonths(xs)
    ensures forall m :: MonthlyTotal(xs, m) == Ok(Total(InMonth(xs, m)))
  {
    assert forall i :: 0 <= i < |xs| ==> HasMonth(xs[i]);
  }

  /** When every stored date carries a month from 1 to 12, the twelve monthly totals add up to the grand total. */
  lemma {:induction false} MonthsPartitionTotal(xs: seq<Expense>)
    requires AllHaveMonths(xs)
    ensures SumOfMonths(xs, 1, 13) == Total(xs)
  {
    if |xs| > 0 {
      var front := xs[..|xs| - 1];
      assert AllHaveMonths(front) by {
        forall i | 0 <= i < |front|
          ensures HasMonth(front[i])
        {
          assert front[i] == xs[i];
        }
      }
      var last := xs[|xs| - 1];
      assert xs == front + [last];
      assert HasMonth(last);
      assert MonthOf(last.date).Some? && 1 <= MonthOf(last.date).value < 13;
      MonthsPartitionTotal(front);
      SumOfMonthsGrows(front, last, 1, 13);
      assert SumOfMonths(xs, 1, 13) == SumOfMonths(front, 1, 13) + last.amount;
      assert Total(xs) == Total(front) + last.amount;
    }
  }

  /** When every stored date carries a month from 1 to 12, the summaries for months 1 to 12 all succeed and
      their results add up to the grand total. */
  lemma MonthlySummariesAddUp(xs: seq<Expense>)
    requires AllHaveMonths(xs)
    ensures forall m :: MonthlyTotal(xs, m).Ok?
    ensures MonthlyTotal(xs, 1).value + MonthlyTotal(xs, 2).value + MonthlyTotal(xs, 3).value + MonthlyTotal(xs, 4).value + MonthlyTotal(xs, 5).value + MonthlyTotal(xs, 6).value + MonthlyTotal(xs, 7).value + MonthlyTotal(xs, 8).value + MonthlyTotal(xs, 9).value + MonthlyTotal(xs, 10).value + MonthlyTotal(xs, 11).value + MonthlyTotal(xs, 12).value
            == Total(xs)
  {
    MonthlyTotalsSucceed(xs);
    MonthsPartitionTotal(xs);
    assert SumOfMonths(xs, 12, 13) == Total(InMonth(xs, 12)) + SumOfMonths(xs, 13, 13);
    assert SumOfMonths(xs, 11, 13) == Total(InMonth(xs, 11)) + SumOfMonths(xs, 12, 13);
    assert SumOfMonths(xs, 10, 13) == Total(InMonth(xs, 10)) + SumOfMonths(xs, 11, 13);
    assert SumOfMonths(xs, 9, 13) == Total(InMonth(xs, 9)) + SumOfMonths(xs, 10, 13);
    assert SumOfMonths(xs, 8, 13) == Total(InMonth(xs, 8)) + SumOfMonths(xs, 9, 13);
    assert SumOfMonths(xs, 7, 13) == Total(InMonth(xs, 7)) + SumOfMonths(xs, 8, 13);
    assert SumOfMonths(xs, 6, 13) == Total(InMonth(xs, 6)) + SumOfMonths(xs, 7, 13);
    assert SumOfMonths(xs, 5, 13) == Total(InMonth(xs, 5)) + SumOfMonths(xs, 6, 13);
    assert SumOfMonths(xs, 4, 13) == Total(InMonth(xs, 4)) + SumOfMonths(xs, 5, 13);
    assert SumOfMonths(xs, 3, 13) == Total(InMonth(xs, 3)) + SumOfMonths(xs, 4, 13);
    assert SumOfMonths(xs, 2, 13) == Total(InMonth(xs, 2)) + SumOfMonths(xs, 3, 13);
    assert SumOfMonths(xs, 1, 13) == Total(InMonth(xs, 1)) + SumOfMonths(xs, 2, 13);
  }

  /** A successful add raises the grand total by exactly the new amount. */
  lemma TotalAfterAdd(xs: seq<Expense>, today: Date, description: Option<string>, amount: Option<int>)
    requires ValidDate(today)
    requires Add(xs, today, description, amount).Ok?
    ensures Total(Add(xs, today, description, amount).value.0) == Total(xs) + amount.value
  {
    var ys := Add(xs, today, description, amount).value.0;
    assert ys[..|ys| - 1] == xs;
  }

  /** Delete lowers the grand total by the amount of the record it removed, and by nothing when no record has
      the ID. */
  lemma TotalAfterRemove(xs: seq<Expense>, id: int)
    ensures match FirstWhere(xs, (e: Expense) => e.id == id)
            case None => Total(Remove(xs, id)) == Total(xs)
            case Some(i) => Total(Remove(xs, id)) == Total(xs) - xs[i].amount
  {
    match FirstWhere(xs, (e: Expense) => e.id == id)
    case None =>
    case Some(i) =>
      RemoveCutsFirstMatch(xs, id, i);
      var before, after := xs[..i], xs[i + 1..];
      assert xs == before + ([xs[i]] + after);
      TotalOfConcat(before, after);
      TotalOfConcat(before, [xs[i]] + after);
      TotalOfConcat([xs[i]], after);
      assert Total([xs[i]]) == xs[i].amount by {
        assert [xs[i]][..0] == [];
      }
  }
}
