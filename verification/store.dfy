/** The expense store's mutating operations: ID assignment and add, first-match delete. */
module Store {
  import opened Results
  import opened Sequences
  import opened Dates
  import opened Expenses

  /** The ID the next add assigns: one more than the ID of the final record, or 1 for an empty store.
      On a store with increasing IDs it exceeds every ID present, so the new record's ID is fresh. */
  function NextId(xs: seq<Expense>): (r: int)
    ensures IdsIncreasing(xs) ==> forall i :: 0 <= i < |xs| ==> xs[i].id < r
    ensures IdsPositive(xs) ==> r >= 1
  {
    if |xs| == 0 then 1 else xs[|xs| - 1].id + 1
  }

  /** Largest ID in a non-empty store. */
  function MaxId(xs: seq<Expense>): (m: int)
    requires |xs| > 0
    ensures forall i :: 0 <= i < |xs| ==> xs[i].id <= m
    ensures exists i :: 0 <= i < |xs| && xs[i].id == m
  {
    if |xs| == 1 then xs[0].id
    else
      var m := MaxId(xs[..|xs| - 1]);
      if xs[|xs| - 1].id > m then xs[|xs| - 1].id else m
  }

  /** While IDs increase along the list, "last + 1" and "largest + 1" agree. */
  lemma NextIdIsMaxPlusOne(xs: seq<Expense>)
    requires IdsIncreasing(xs) && |xs| > 0
    ensures NextId(xs) == MaxId(xs) + 1
  {
  }

  /** Python truthiness of the parsed `--description`: present and non-empty. */
  predicate DescriptionGiven(description: Option<string>) {
    description.Some? && description.value != ""
  }

  /** Python truthiness of the parsed `--amount`: present and non-zero. */
  predicate AmountGiven(amount: Option<int>) {
    amount.Some? && amount.value != 0
  }

  /** The `add` command on the loaded store. `description or desc` consults the non-existent attribute `desc`
      exactly when the description is absent or empty, and likewise `amount or amt` for an absent or zero
      amount, so those inputs end in an attribute lookup failure with nothing appended. Otherwise the record
      dated `today` is appended under the next ID, and that ID is returned beside the new store. */
  function Add(xs: seq<Expense>, today: Date, description: Option<string>, amount: Option<int>)
    : (r: Result<(seq<Expense>, int), Error>)
    requires ValidDate(today)
    ensures r.Ok? <==> DescriptionGiven(description) && AmountGiven(amount)
    ensures r.Err? ==> r.error == AttributeMissing(if DescriptionGiven(description) then "amt" else "desc")
    ensures r.Ok? ==>
              var (ys, id) := r.value;
              && |ys| == |xs| + 1
              && ys[..|xs|] == xs
              && id == NextId(xs)
              && ys[|xs|] == Expense(id, FormatDate(today), description.value, amount.value)
              && MonthOf(ys[|xs|].date) == Some(today.month)
  {
    if !DescriptionGiven(description) then Err(AttributeMissing("desc"))
    else if !AmountGiven(amount) then Err(AttributeMissing("amt"))
    else
      var id := NextId(xs);
      var ys := xs + [Expense(id, FormatDate(today), description.value, amount.value)];
      MonthOfFormattedDate(today);
      assert ys[..|xs|] == xs;
      Ok((ys, id))
  }

  /** A successful add keeps the store valid: the new ID exceeds every earlier one and the new date carries a month. */
  lemma AddPreservesValid(xs: seq<Expense>, today: Date, description: Option<string>, amount: Option<int>)
    requires ValidDate(today) && Valid(xs)
    requires Add(xs, today, description, amount).Ok?
    ensures Valid(Add(xs, today, description, amount).value.0)
  {
    var ys := Add(xs, today, description, amount).value.0;
    forall i, j | 0 <= i < j < |ys|
      ensures ys[i].id < ys[j].id
    {
      assert ys[i] == xs[i];
      if j < |xs| {
        assert ys[j] == xs[j];
      }
    }
    forall i | 0 <= i < |ys|
      ensures ys[i].id >= 1 && HasMonth(ys[i])
    {
      if i < |xs| {
        assert ys[i] == xs[i];
      }
    }
  }

  /** The store without the first record whose ID is `id`; with no such record, the store as it was. */
  function Remove(xs: seq<Expense>, id: int): (r: seq<Expense>)
    ensures (forall j :: 0 <= j < |xs| ==> xs[j].id != id) ==> r == xs
    ensures (exists j :: 0 <= j < |xs| && xs[j].id == id) ==> |r| == |xs| - 1
    ensures multiset(r) <= multiset(xs)
  {
    RemoveFirstWhere(xs, (e: Expense) => e.id == id)
  }

  /** Only the first match goes: the records before it and after it remain, in their order. */
  lemma RemoveCutsFirstMatch(xs: seq<Expense>, id: int, i: nat)
    requires i < |xs| && xs[i].id == id
    requires forall j :: 0 <= j < i ==> xs[j].id != id
    ensures Remove(xs, id) == xs[..i] + xs[i + 1..]
  {
    RemoveFirstWhereSplits(xs, (e: Expense) => e.id == id, i);
  }

  /** The `delete` loop: scan from the front, and at the first record with the ID call `list.remove` on it
      and stop. `list.remove` deletes the first record EQUAL to the one found, which is that same record. */
  method Delete(xs: seq<Expense>, id: int) returns (ys: seq<Expense>)
    ensures ys == Remove(xs, id)
  {
    ys := xs;
    var i := 0;
    while i < |xs|
      invariant 0 <= i <= |xs|
      invariant forall j :: 0 <= j < i ==> xs[j].id != id
    {
      var expense := xs[i];
      if expense.id == id {
        assert expense !in xs[..i];
        ys := ListRemove(xs, expense);
        RemoveCutsFirstMatch(xs, id, i);
        return;
      }
      i := i + 1;
    }
  }

  /** Delete keeps the store valid: a sub-sequence of increasing IDs still increases. */
  lemma RemovePreservesValid(xs: seq<Expense>, id: int)
    requires Valid(xs)
    ensures Valid(Remove(xs, id))
  {
    match FirstWhere(xs, (e: Expense) => e.id == id)
    case None =>
    case Some(i) =>
      RemoveCutsFirstMatch(xs, id, i);
      var ys := Remove(xs, id);
      assert |ys| == |xs| - 1;
      forall k | 0 <= k < |ys|
        ensures ys[k] == xs[Kept(i, k)]
      {
      }
      forall a, b | 0 <= a < b < |ys|
        ensures ys[a].id < ys[b].id
      {
        assert ys[a] == xs[Kept(i, a)] && ys[b] == xs[Kept(i, b)];
      }
      forall k | 0 <= k < |ys|
        ensures ys[k].id >= 1 && HasMonth(ys[k])
      {
        assert ys[k] == xs[Kept(i, k)];
      }
  }

  /** Position in the original store of the `k`-th record left after the record at `i` is cut out. */
  function Kept(i: nat, k: nat): (j: nat)
    ensures j == k || j == k + 1
    ensures k < i <==> j < i
  {
    if k < i then k else k + 1
  }

  /** "Last + 1" is not "largest ever + 1": adding, deleting the record just added and adding again hands out
      the deleted record's ID a second time. */
  lemma AddDeleteAddReusesId(xs: seq<Expense>, today: Date, description: Option<string>, amount: Option<int>)
    requires ValidDate(today) && IdsIncreasing(xs)
    requires Add(xs, today, description, amount).Ok?
    ensures var (ys, id) := Add(xs, today, description, amount).value;
            Remove(ys, id) == xs && NextId(Remove(ys, id)) == id
  {
    var (ys, id) := Add(xs, today, description, amount).value;
    RemoveCutsFirstMatch(ys, id, |xs|);
    assert ys[..|xs|] + ys[|xs| + 1..] == xs;
  }

  /** After the final record is deleted, the next add never assigns more than the deleted ID. */
  lemma DeleteLastThenAddReusesAtMost(xs: seq<Expense>)
    requires IdsIncreasing(xs) && IdsPositive(xs) && |xs| > 0
    ensures NextId(Remove(xs, xs[|xs| - 1].id)) <= xs[|xs| - 1].id
  {
    var n := |xs|;
    RemoveCutsFirstMatch(xs, xs[n - 1].id, n - 1);
    assert Remove(xs, xs[n - 1].id) == xs[..n - 1];
  }

  /** A run of successful adds, one per (description, amount) entry, on the same day. */
  function AddAll(xs: seq<Expense>, today: Date, entries: seq<(string, int)>): seq<Expense>
    requires ValidDate(today)
    requires forall k :: 0 <= k < |entries| ==> entries[k].0 != "" && entries[k].1 != 0
  {
    if |entries| == 0 then xs
    else
      var entry := entries[|entries| - 1];
      Add(AddAll(xs, today, entries[..|entries| - 1]), today, Some(entry.0), Some(entry.1)).value.0
  }

  /** Starting from an empty store, successive adds number the records 1, 2, 3, ... */
  lemma {:induction false} AddsNumberFromOne(today: Date, entries: seq<(string, int)>)
    requires ValidDate(today)
    requires forall k :: 0 <= k < |entries| ==> entries[k].0 != "" && entries[k].1 != 0
    ensures |AddAll([], today, entries)| == |entries|
    ensures forall k :: 0 <= k < |entries| ==> AddAll([], today, entries)[k].id == k + 1
  {
    if |entries| > 0 {
      var n := |entries|;
      AddsNumberFromOne(today, entries[..n - 1]);
      var before := AddAll([], today, entries[..n - 1]);
      var after := AddAll([], today, entries);
      assert after[..n - 1] == before;
      forall k | 0 <= k < n
        ensures after[k].id == k + 1
      {
        if k < n - 1 {
          assert after[k] == before[k];
        }
      }
    }
  }
}
