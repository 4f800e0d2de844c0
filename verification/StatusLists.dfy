/** Tasks that sit on exactly one of several status lists. Both the task group shared
    with the hardware thread (mpp/hal/hal_task.cpp) and the task queue between two
    ports (mpp/base/mpp_task_impl.cpp) are such a structure: a list and a counter per
    status, a status per task, and one operation that moves a task to the end of
    another list. */
module StatusLists {
  import opened Lists

  datatype Group<S> = Group(status: seq<S>, lists: map<S, seq<nat>>, counts: map<S, int>)

  /** The lists partition the tasks by status and the counters are their lengths. */
  ghost predicate Inv<S(!new)>(g: Group<S>) {
    && g.counts.Keys == g.lists.Keys
    && (forall t :: 0 <= t < |g.status| ==> g.status[t] in g.lists)
    && (forall s :: s in g.lists ==> Distinct(g.lists[s]) && g.counts[s] == |g.lists[s]|)
    && (forall s, t: nat {:trigger t in g.lists[s]} ::
          s in g.lists ==> (t in g.lists[s] <==> t < |g.status| && g.status[t] == s))
  }

  /** list_del_init, list_add_tail, both counters, the status. */
  function Move<S>(g: Group<S>, t: nat, to: S): Group<S> {
    if t >= |g.status| || g.status[t] !in g.lists || g.status[t] !in g.counts then g else
    var from := g.status[t];
    var lists := g.lists[from := Without(g.lists[from], t)];
    var counts := g.counts[from := g.counts[from] - 1];
    if to !in lists || to !in counts then g
    else Group(g.status[t := to], lists[to := lists[to] + [t]], counts[to := counts[to] + 1])
  }

  lemma MoveInv<S(!new)>(g: Group<S>, t: nat, to: S)
    requires Inv(g) && t < |g.status| && to in g.lists
    ensures Inv(Move(g, t, to))
    ensures Move(g, t, to).status == g.status[t := to]
    ensures Move(g, t, to).lists.Keys == g.lists.Keys
  {
    var from := g.status[t];
    WithoutFacts(g.lists[from], t);
    if to == from {
      AppendFacts(Without(g.lists[from], t), t);
    } else {
      AppendFacts(g.lists[to], t);
    }
  }

  /** What a move does to every list. */
  lemma MoveLists<S(!new)>(g: Group<S>, t: nat, to: S)
    requires Inv(g) && t < |g.status| && to in g.lists && g.status[t] != to
    ensures Move(g, t, to).lists ==
              g.lists[g.status[t] := Without(g.lists[g.status[t]], t)][to := g.lists[to] + [t]]
  {
  }

  lemma HeadIs<S(!new)>(g: Group<S>, s: S)
    requires Inv(g) && s in g.lists && g.lists[s] != []
    ensures g.lists[s][0] < |g.status| && g.status[g.lists[s][0]] == s
  {
    assert g.lists[s][0] in g.lists[s];
  }

  /** An empty list: no task has the status. */
  lemma EmptyIs<S(!new)>(g: Group<S>, s: S)
    requires Inv(g) && s in g.lists
    ensures g.lists[s] == [] <==> forall t :: 0 <= t < |g.status| ==> g.status[t] != s
  {
    if g.lists[s] != [] {
      HeadIs(g, s);
    }
    forall t | 0 <= t < |g.status| && g.lists[s] == [] ensures g.status[t] != s {
      assert t !in g.lists[s];
    }
  }
}
