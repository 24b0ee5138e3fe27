/** Generic first-match search and removal on sequences, the two list idioms the tracker uses. */
module Sequences {
  import opened Results

  /** Index of the first element satisfying `p`, as a front-to-back scan that stops at the first hit finds it. */
  function FirstWhere<T>(xs: seq<T>, p: T -> bool): (r: Option<nat>)
    ensures r.Some? ==> r.value < |xs| && p(xs[r.value])
    ensures r.Some? ==> forall j :: 0 <= j < r.value ==> !p(xs[j])
    ensures r.None? <==> forall j :: 0 <= j < |xs| ==> !p(xs[j])
  {
    if |xs| == 0 then None
    else if p(xs[0]) then Some(0)
    else match FirstWhere(xs[1..], p)
      case None => None
      case Some(i) => Some(i + 1)
  }

  /** The first-match index is determined by the elements: the first `i` with `p(xs[i])` is it. */
  lemma FirstWhereIsFirstHit<T>(xs: seq<T>, p: T -> bool, i: nat)
    requires i < |xs| && p(xs[i])
    requires forall j :: 0 <= j < i ==> !p(xs[j])
    ensures FirstWhere(xs, p) == Some(i)
  {
  }

  /** Drops the first element satisfying `p` and keeps everything else in order; no match leaves `xs` as it is. */
  function RemoveFirstWhere<T>(xs: seq<T>, p: T -> bool): (r: seq<T>)
    ensures (forall j :: 0 <= j < |xs| ==> !p(xs[j])) ==> r == xs
    ensures (exists j :: 0 <= j < |xs| && p(xs[j])) ==> |r| == |xs| - 1
    ensures multiset(r) <= multiset(xs)
  {
    if |xs| == 0 then []
    else
      assert xs == [xs[0]] + xs[1..];
      if p(xs[0]) then xs[1..]
      else
        assert (exists j :: 0 <= j < |xs| && p(xs[j])) ==> (exists j :: 0 <= j < |xs[1..]| && p(xs[1..][j]));
        [xs[0]] + RemoveFirstWhere(xs[1..], p)
  }

  /** Removal cuts out exactly the first hit: what precedes it and what follows it stay, in order. */
  lemma {:induction false} RemoveFirstWhereSplits<T>(xs: seq<T>, p: T -> bool, i: nat)
    requires i < |xs| && p(xs[i])
    requires forall j :: 0 <= j < i ==> !p(xs[j])
    ensures RemoveFirstWhere(xs, p) == xs[..i] + xs[i + 1..]
  {
    if i == 0 {
      assert RemoveFirstWhere(xs, p) == xs[1..];
    } else {
      var tail := xs[1..];
      assert !p(xs[0]);
      assert RemoveFirstWhere(xs, p) == [xs[0]] + RemoveFirstWhere(tail, p);
      forall j | 0 <= j < i - 1
        ensures !p(tail[j])
      {
        assert tail[j] == xs[j + 1];
      }
      RemoveFirstWhereSplits(tail, p, i - 1);
      assert xs[..i] == [xs[0]] + tail[..i - 1];
      assert xs[i + 1..] == tail[i..];
    }
  }

  /** Python's `list.remove(v)`: deletes the first element equal to `v`, which the caller guarantees is present;
      the elements before and after it stay, in order. */
  function ListRemove<T(==)>(xs: seq<T>, v: T): (r: seq<T>)
    requires v in xs
    ensures |r| == |xs| - 1
    ensures forall i :: 0 <= i < |xs| && xs[i] == v && v !in xs[..i] ==> r == xs[..i] + xs[i + 1..]
  {
    var equal := x => x == v;
    var r := RemoveFirstWhere(xs, equal);
    assert forall i :: 0 <= i < |xs| && xs[i] == v && v !in xs[..i] ==> r == xs[..i] + xs[i + 1..] by {
      forall i | 0 <= i < |xs| && xs[i] == v && v !in xs[..i]
        ensures r == xs[..i] + xs[i + 1..]
      {
        assert forall j :: 0 <= j < i ==> xs[..i][j] == xs[j];
        RemoveFirstWhereSplits(xs, equal, i);
      }
    }
    r
  }
}
