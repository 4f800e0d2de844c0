/** Group identities of the buffer service (mpp/base/mpp_buffer_impl.cpp): a 32-bit
    counter that is moved past every id in use, so that the next id is free between
    calls even after it wraps. */
module GroupIds {
  import opened Lists

  const COUNT := 0x1_0000_0000

  /** Distinct, by counting. */
  lemma {:induction false} DistinctCounts(ids: seq<nat>)
    ensures Distinct(ids) <==> forall x :: x in ids ==> multiset(ids)[x] == 1
  {
    if ids != [] {
      var init, last := ids[..|ids| - 1], ids[|ids| - 1];
      assert ids == init + [last];
      DistinctCounts(init);
      if Distinct(ids) {
        assert last !in init;
      } else if Distinct(init) {
        assert last in init by {
          if last !in init {
            AppendFacts(init, last);
          }
        }
        assert multiset(ids)[last] > 1;
      } else {
        var x :| x in init && multiset(init)[x] != 1;
        assert x in ids && multiset(ids)[x] > 1;
      }
    }
  }

  ghost predicate InRange(ids: seq<nat>) {
    forall x :: x in ids ==> x < COUNT
  }

  function SetOf(ids: seq<nat>): set<nat> { set x | x in ids }

  lemma {:induction false} SetOfSize(ids: seq<nat>)
    requires Distinct(ids)
    ensures |SetOf(ids)| == |ids|
  {
    if ids != [] {
      var init, last := ids[..|ids| - 1], ids[|ids| - 1];
      assert ids == init + [last];
      assert last !in init;
      SetOfSize(init);
      assert SetOf(ids) == SetOf(init) + {last};
    }
  }

  function Below(n: nat): (s: set<nat>)
    ensures |s| == n && forall x: nat :: x in s <==> x < n
  {
    if n == 0 then {} else Below(n - 1) + {n - 1}
  }

  lemma SubsetSize(a: set<nat>, b: set<nat>)
    requires a <= b
    ensures |a| <= |b|
  {
    assert b == a + (b - a);
  }

  /** Every id below n but one is taken ... */
  ghost predicate OnlyFree(ids: seq<nat>, id: nat, n: nat) {
    forall x: nat :: x < n && x != id ==> x in ids
  }

  /** ... exactly when n - 1 groups exist. */
  lemma OnlyFreeIffFull(ids: seq<nat>, id: nat, n: nat)
    requires Distinct(ids) && (forall x :: x in ids ==> x < n) && id < n && id !in ids
    ensures OnlyFree(ids, id, n) <==> |ids| >= n - 1
  {
    var taken, others := SetOf(ids), Below(n) - {id};
    SetOfSize(ids);
    assert taken <= others;
    if OnlyFree(ids, id, n) {
      assert others <= taken;
      SubsetSize(others, taken);
    } else {
      var x: nat :| x < n && x != id && x !in ids;
      assert taken <= others - {x};
      SubsetSize(taken, others - {x});
    }
  }

  /** The k-th id after `id`, wrapping. */
  function After(id: nat, k: nat): nat { (id + k) % COUNT }

  lemma AfterNext(id: nat, k: nat)
    ensures (After(id, k) + 1) % COUNT == After(id, k + 1)
  {
  }

  class Service {
    var groupId: nat
    var listed: seq<nat>
    var orphans: seq<nat>

    ghost function All(): seq<nat>
      reads this
    {
      listed + orphans
    }

    /** Ids pairwise distinct. */
    ghost predicate Unique()
      reads this
    {
      Distinct(All()) && InRange(All()) && groupId < COUNT
    }

    /** The invariant between calls: besides, the next id is free. */
    ghost predicate Valid()
      reads this
    {
      Unique() && groupId !in All()
    }

    constructor ()
      ensures Valid() && All() == []
    {
      groupId, listed, orphans := 0, [], [];
    }

    method GetGroupById(id: nat) returns (found: bool)
      ensures found <==> id in All()
    {
      for i := 0 to |listed|
        invariant id !in listed[..i]
      {
        if listed[i] == id {
          return true;
        }
      }
      for i := 0 to |orphans|
        invariant id !in orphans[..i]
      {
        if orphans[i] == id {
          return true;
        }
      }
      assert listed[..|listed|] == listed && orphans[..|orphans|] == orphans;
      found := false;
    }

    /** The search runs around the ring once at most: the id handed out is itself still
        free. It ends there only when no other id is. */
    method GetGroupId() returns (id: nat)
      requires Valid()
      modifies this`groupId
      ensures id == old(groupId) && groupId < COUNT && groupId !in All()
      ensures groupId == id <==> OnlyFree(All(), id, COUNT)
    {
      id := groupId;
      ghost var k := 1;
      AfterNext(id, 0);
      groupId := (groupId + 1) % COUNT;
      var taken := GetGroupById(groupId);
      while taken
        invariant 1 <= k <= COUNT && groupId == After(id, k)
        invariant taken <==> groupId in All()
        invariant forall j :: 1 <= j < k ==> After(id, j) in All()
        decreases COUNT - k
      {
        AfterNext(id, k);
        groupId := (groupId + 1) % COUNT;
        k := k + 1;
        taken := GetGroupById(groupId);
      }
      RingReached(All(), id, k);
    }

    /** A new group: its id differs from all others; the next id stays free unless this was
        group number 2^32. */
    method GetGroup() returns (id: nat)
      requires Valid()
      modifies this
      ensures id == old(groupId) && id !in old(All()) && Unique()
      ensures listed == old(listed) + [id] && orphans == old(orphans)
      ensures Valid() <==> |old(All())| < COUNT - 1
    {
      id := GetGroupId();
      OnlyFreeIffFull(All(), id, COUNT);
      ghost var before := All();
      listed := listed + [id];
      OneMore(before, listed, orphans, old(listed), id);
    }

    /** put_group: a group with buffers in use moves to the orphans, any other is destroyed. */
    method Put(k: nat, busy: bool)
      requires Valid() && k < |listed|
      modifies this
      ensures Valid() && listed == old(listed)[..k] + old(listed)[k + 1..]
      ensures orphans == old(orphans) + if busy then [old(listed)[k]] else []
    {
      ghost var before := All();
      Unlisted(listed, orphans, k, busy);
      var id := listed[k];
      listed := listed[..k] + listed[k + 1..];
      if busy {
        orphans := orphans + [id];
      } else {
        assert orphans + [] == orphans;
      }
      FewerElements(before, All());
    }

    /** destroy_group on an orphan whose last buffer is gone: the id is free again. */
    method Destroy(k: nat)
      requires Valid() && k < |orphans|
      modifies this
      ensures Valid() && listed == old(listed) && orphans == old(orphans)[..k] + old(orphans)[k + 1..]
    {
      ghost var before := All();
      assert orphans == orphans[..k] + [orphans[k]] + orphans[k + 1..];
      orphans := orphans[..k] + orphans[k + 1..];
      assert multiset(All()) == multiset(before) - multiset{old(orphans)[k]};
      FewerElements(before, All());
    }
  }

  lemma RingReached(ids: seq<nat>, id: nat, k: nat)
    requires id < COUNT && id !in ids && 1 <= k <= COUNT
    requires forall j :: 1 <= j < k ==> After(id, j) in ids
    requires After(id, k) !in ids
    ensures After(id, k) == id <==> OnlyFree(ids, id, COUNT)
  {
    if k == COUNT {
      forall x: nat | x < COUNT && x != id ensures x in ids {
        var j := if x > id then x - id else x + COUNT - id;
        assert After(id, j) == x;
      }
    }
  }

  lemma Unlisted(listed: seq<nat>, orphans: seq<nat>, k: nat, busy: bool)
    requires k < |listed|
    ensures var moved := if busy then [listed[k]] else [];
            multiset((listed[..k] + listed[k + 1..]) + (orphans + moved)) <= multiset(listed + orphans)
  {
    assert listed == listed[..k] + [listed[k]] + listed[k + 1..];
  }

  lemma OneMore(before: seq<nat>, listed: seq<nat>, orphans: seq<nat>, was: seq<nat>, id: nat)
    requires Distinct(before) && id !in before && before == was + orphans && listed == was + [id]
    ensures Distinct(listed + orphans)
    ensures |listed + orphans| == |before| + 1
    ensures forall x :: x in listed + orphans <==> x in before || x == id
  {
    AppendFacts(before, id);
    assert multiset(listed + orphans) == multiset(before + [id]);
    FewerElements(before + [id], listed + orphans);
    assert forall x :: x in listed + orphans <==> x in multiset(before + [id]);
  }

  lemma FewerElements(a: seq<nat>, b: seq<nat>)
    requires multiset(b) <= multiset(a) && Distinct(a)
    ensures forall x :: x in b ==> x in a
    ensures Distinct(b)
  {
    DistinctCounts(a);
    DistinctCounts(b);
    forall x | x in b ensures x in a && multiset(b)[x] == 1 {
      assert x in multiset(b) && x in multiset(a);
      assert multiset(a)[x] == 1;
    }
  }
}
