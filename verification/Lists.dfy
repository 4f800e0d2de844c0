/** Intrusive lists as sequences of distinct indices, and induction along a run. */
module Lists {

  /** list_del_init: the list without b. */
  function Without(list: seq<nat>, b: nat): (r: seq<nat>)
    ensures |r| == |list| - (if b in list then 1 else 0)
  {
    if list == [] then []
    else if list[0] == b then list[1..]
    else [list[0]] + Without(list[1..], b)
  }

  ghost predicate Distinct(list: seq<nat>) {
    forall i, j :: 0 <= i < j < |list| ==> list[i] != list[j]
  }

  lemma {:induction false} WithoutFacts(list: seq<nat>, b: nat)
    requires Distinct(list)
    ensures Distinct(Without(list, b))
    ensures forall x :: x in Without(list, b) <==> x in list && x != b
  {
    if list != [] && list[0] != b {
      var rest := list[1..];
      WithoutFacts(rest, b);
      assert list == [list[0]] + rest;
      assert forall x :: x in list <==> x == list[0] || x in rest;
      assert list[0] !in rest;
      Prepend(list[0], Without(rest, b));
    } else if list != [] {
      assert forall x :: x in list <==> x == list[0] || x in list[1..];
    }
  }

  lemma Prepend(b: nat, list: seq<nat>)
    requires Distinct(list) && b !in list
    ensures Distinct([b] + list)
  {
  }

  lemma AppendFacts(list: seq<nat>, b: nat)
    requires Distinct(list) && b !in list
    ensures Distinct(list + [b])
    ensures forall x :: x in list + [b] <==> x in list || x == b
  {
  }

  lemma {:induction false} NotIn(list: seq<nat>, b: nat)
    requires b !in list
    ensures Without(list, b) == list
  {
    if list != [] {
      NotIn(list[1..], b);
      assert list == [list[0]] + list[1..];
    }
  }

  /** Taking the last element away again. */
  lemma {:induction false} WithoutLast(list: seq<nat>, b: nat)
    requires b !in list
    ensures Without(list + [b], b) == list
  {
    if list == [] {
      assert [] + [b] == [b];
    } else {
      WithoutLast(list[1..], b);
      assert (list + [b])[1..] == list[1..] + [b];
      assert list == [list[0]] + list[1..];
    }
  }

  function Numbers(n: nat): seq<nat> { seq(n, i => i) }

  /** What holds somewhere and is kept by every step holds from there on. */
  lemma {:induction false} Induct<T>(run: seq<T>, holds: T -> bool, from: nat, at: nat)
    requires from <= at < |run| && holds(run[from])
    requires forall i :: from < i <= at && holds(run[i - 1]) ==> holds(run[i])
    ensures holds(run[at])
  {
    if from < at {
      Induct(run, holds, from, at - 1);
    }
  }
}
