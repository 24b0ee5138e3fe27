/** One invocation of the tracker on the loaded store: what it writes back to the data file and what it reports. */
module Commands {
  import opened Results
  import opened Dates
  import opened Expenses
  import opened Store
  import opened Summary

  /** The parsed command line: the sub-command and its options, None where an option was not given. */
  datatype Command =
    | AddCommand(description: Option<string>, amount: Option<int>)
    | DeleteCommand(id: Option<int>)
    | SummaryCommand(month: Option<int>)

  /** What a successful invocation reports. */
  datatype Reply = Added(id: int) | Deleted(id: int) | Spent(total: int)

  /** The list written to the data file, if the invocation writes it, and the reply or failure. */
  datatype Invocation = Invocation(saved: Option<seq<Expense>>, reply: Result<Reply, Error>)

  /** Runs `command` on the store loaded from the data file, with the clock reading `today`.
      Only a successful add or delete writes the file; a failed command and every summary leave it alone.
      Delete reports success for any ID it is given, whether or not a record had it. */
  function Run(xs: seq<Expense>, today: Date, command: Command): (r: Invocation)
    requires ValidDate(today)
    ensures r.saved.Some? <==> r.reply.Ok? && !command.SummaryCommand?
    ensures command.AddCommand? ==>
              (r.reply.Ok? <==> DescriptionGiven(command.description) && AmountGiven(command.amount))
    ensures command.AddCommand? && r.reply.Ok? ==> r.reply == Ok(Added(NextId(xs)))
    ensures command.AddCommand? && r.reply.Err? ==>
              r.reply == Err(Add(xs, today, command.description, command.amount).error)
    ensures command.DeleteCommand? ==> (r.reply.Ok? <==> command.id.Some?)
    ensures command.DeleteCommand? && command.id.None? ==> r.reply == Err(IdMissing)
    ensures command.DeleteCommand? && command.id.Some? ==> r.reply.value == Deleted(command.id.value)
    ensures r.reply.Ok? && r.reply.value.Added? ==>
              && r.reply.value.id == NextId(xs)
              && r.saved.Some? && |r.saved.value| == |xs| + 1 && r.saved.value[..|xs|] == xs
    ensures command.AddCommand? && r.reply.Ok? ==>
              r.saved == Some(Add(xs, today, command.description, command.amount).value.0)
    ensures command.DeleteCommand? && command.id.Some? ==> r.saved == Some(Remove(xs, command.id.value))
    ensures command.SummaryCommand? && command.month.None? ==> r.reply == Ok(Spent(Total(xs)))
    ensures command.SummaryCommand? && command.month.Some? ==>
              match MonthlyTotal(xs, command.month.value)
              case Ok(total) => r.reply == Ok(Spent(total))
              case Err(e) => r.reply == Err(e)
  {
    match command
    case AddCommand(description, amount) =>
      (match Add(xs, today, description, amount)
       case Ok((ys, id)) => Invocation(Some(ys), Ok(Added(id)))
       case Err(e) => Invocation(None, Err(e)))
    case DeleteCommand(id) =>
      if id.None? then Invocation(None, Err(IdMissing))
      else Invocation(Some(Remove(xs, id.value)), Ok(Deleted(id.value)))
    case SummaryCommand(month) =>
      if month.None? then Invocation(None, Ok(Spent(Total(xs))))
      else
        match MonthlyTotal(xs, month.value)
        case Ok(total) => Invocation(None, Ok(Spent(total)))
        case Err(e) => Invocation(None, Err(e))
  }

  /** Whatever an invocation writes back to the data file is a valid store when the loaded one was. */
  lemma RunPreservesValid(xs: seq<Expense>, today: Date, command: Command)
    requires ValidDate(today) && Valid(xs)
    ensures Run(xs, today, command).saved.Some? ==> Valid(Run(xs, today, command).saved.value)
  {
    match command
    case AddCommand(description, amount) =>
      if Add(xs, today, description, amount).Ok? {
        AddPreservesValid(xs, today, description, amount);
      }
    case DeleteCommand(id) =>
      if id.Some? {
        RemovePreservesValid(xs, id.value);
      }
    case SummaryCommand(_) =>
  }

  /** Deleting an ID no record has writes back the store exactly as it was loaded, and still reports success. */
  lemma DeleteMissingIdKeepsStore(xs: seq<Expense>, today: Date, id: int)
    requires ValidDate(today)
    requires forall i :: 0 <= i < |xs| ==> xs[i].id != id
    ensures Run(xs, today, DeleteCommand(Some(id))) == Invocation(Some(xs), Ok(Deleted(id)))
  {
  }

  /** Adding "Coffee" for 5 to an empty store gives one record with ID 1 dated today, and a total of 5. */
  lemma FirstAddScenario(today: Date)
    requires ValidDate(today)
    ensures var r := Run([], today, AddCommand(Some("Coffee"), Some(5)));
            && r == Invocation(Some([Expense(1, FormatDate(today), "Coffee", 5)]), Ok(Added(1)))
            && Run(r.saved.value, today, SummaryCommand(None)).reply == Ok(Spent(5))
  {
    var r := Run([], today, AddCommand(Some("Coffee"), Some(5)));
    assert r.saved.value == [Expense(1, FormatDate(today), "Coffee", 5)];
    assert Total(r.saved.value) == Total([]) + 5;
  }

  /** The store of the scenario below: two records dated in March, one in April. */
  function MarchAprilStore(): seq<Expense> {
    [Expense(1, "05-03-2024", "Rent", 10), Expense(2, "07-04-2024", "Food", 20), Expense(3, "09-03-2024", "Bus", 5)]
  }

  /** The month fields of the scenario's dates read as 3, 4 and 3. */
  lemma MarchAprilMonths()
    ensures MonthOf(MarchAprilStore()[0].date) == Some(3)
    ensures MonthOf(MarchAprilStore()[1].date) == Some(4)
    ensures MonthOf(MarchAprilStore()[2].date) == Some(3)
  {
    var xs := MarchAprilStore();
    assert MonthField(xs[0].date) == "03" && MonthField(xs[1].date) == "04" && MonthField(xs[2].date) == "03";
    assert DigitsValue("03") == 3 by {
      assert "03"[..1] == "0";
    }
    assert DigitsValue("04") == 4 by {
      assert "04"[..1] == "0";
    }
  }

  /** March selects the first and third records, April the second. */
  lemma MarchAprilSelections()
    ensures InMonth(MarchAprilStore(), 3) == [MarchAprilStore()[0], MarchAprilStore()[2]]
    ensures InMonth(MarchAprilStore(), 4) == [MarchAprilStore()[1]]
  {
    var xs := MarchAprilStore();
    MarchAprilMonths();
    assert xs[..2] == [xs[0], xs[1]] && [xs[0], xs[1]][..1] == [xs[0]] && [xs[0]][..0] == [];
    assert InMonth([xs[0]], 3) == [xs[0]];
    assert InMonth([xs[0], xs[1]], 3) == [xs[0]];
    assert InMonth([xs[0]], 4) == [];
    assert InMonth([xs[0], xs[1]], 4) == [xs[1]];
  }

  /** With two March records and one April record, the March summary adds only the March amounts and the
      April summary only the April amount. */
  lemma MarchAprilScenario()
    ensures Run(MarchAprilStore(), Date(1, 1, 2024), SummaryCommand(Some(3))).reply == Ok(Spent(15))
    ensures Run(MarchAprilStore(), Date(1, 1, 2024), SummaryCommand(Some(4))).reply == Ok(Spent(20))
  {
    var xs := MarchAprilStore();
    MarchAprilMonths();
    MarchAprilSelections();
    assert MonthlyTotal(xs, 3).Ok? && MonthlyTotal(xs, 4).Ok?;
    assert Total([xs[0], xs[2]]) == 15 by {
      assert [xs[0], xs[2]][..1] == [xs[0]] && [xs[0]][..0] == [];
      assert Total([xs[0]]) == 10;
    }
    assert Total([xs[1]]) == 20 by {
      assert [xs[1]][..0] == [];
    }
  }
}
