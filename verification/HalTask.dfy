/** The tasks passed between the parser thread and the hardware thread
    (mpp/hal/hal_task.cpp): a list per status, and the information a task carries. */
module HalTask {
  import opened Wrappers
  import opened Lists
  import opened StatusLists

  datatype Status = Idle | Prepare | WaitProc | Processing | ProcDone

  const STATUSES := {Idle, Prepare, WaitProc, Processing, ProcDone}

  /** HalDecTask, as far as the two threads read it: the packet slot and whether there is
      an output slot. */
  datatype Info = Info(valid: bool, eos: bool, infoChange: bool, input: Option<nat>, output: bool)

  /** hal_task_info_init for a decoder. */
  const NO_INFO := Info(false, false, false, None, false)

  ghost predicate Ok(g: Group<Status>) { Inv(g) && g.lists.Keys == STATUSES }

  function Fresh(n: nat): Group<Status> {
    Group(seq(n, _ => Idle),
          map[Idle := Numbers(n), Prepare := [], WaitProc := [], Processing := [], ProcDone := []],
          map[Idle := n, Prepare := 0, WaitProc := 0, Processing := 0, ProcDone := 0])
  }

  lemma FreshOk(n: nat)
    ensures Ok(Fresh(n))
  {
    forall t: nat ensures t in Numbers(n) <==> t < n {
      if t < n {
        assert Numbers(n)[t] == t;
      }
    }
  }

  lemma Grown(n: nat)
    ensures Fresh(n + 1) ==
              Group(Fresh(n).status + [Idle], Fresh(n).lists[Idle := Numbers(n) + [n]], Fresh(n).counts[Idle := n + 1])
  {
    assert Numbers(n) + [n] == Numbers(n + 1);
    assert Fresh(n).status + [Idle] == Fresh(n + 1).status;
  }

  /** hal_task_get_hnd: the task that has had the status longest; it stays where it is. */
  function First(g: Group<Status>, s: Status): Option<nat> {
    if s !in g.lists || g.lists[s] == [] then None else Some(g.lists[s][0])
  }

  lemma FirstIs(g: Group<Status>, s: Status)
    requires Ok(g)
    ensures First(g, s).Some? ==> First(g, s).value < |g.status| && g.status[First(g, s).value] == s
    ensures First(g, s).None? <==> forall t :: 0 <= t < |g.status| ==> g.status[t] != s
  {
    EmptyIs(g, s);
    if First(g, s).Some? {
      HeadIs(g, s);
    }
  }

  /** hal_task_hnd_set_status moves exactly one task. */
  lemma SetStatusOk(g: Group<Status>, t: nat, to: Status)
    requires Ok(g) && t < |g.status|
    ensures Ok(Move(g, t, to)) && Move(g, t, to).status == g.status[t := to]
  {
    MoveInv(g, t, to);
  }

  class TaskGroup {
    var status: seq<Status>
    var lists: map<Status, seq<nat>>
    var counts: map<Status, int>
    var infos: seq<Info>

    ghost function Value(): Group<Status>
      reads this
    {
      Group(status, lists, counts)
    }

    constructor (count: nat)
      ensures Value() == Fresh(count) && Ok(Value()) && infos == seq(count, _ => NO_INFO)
    {
      status, infos := [], seq(count, _ => NO_INFO);
      lists := map[Idle := [], Prepare := [], WaitProc := [], Processing := [], ProcDone := []];
      counts := map[Idle := 0, Prepare := 0, WaitProc := 0, Processing := 0, ProcDone := 0];
      new;
      assert status == Fresh(0).status && Numbers(0) == [];
      for i := 0 to count
        invariant Value() == Fresh(i) && infos == seq(count, _ => NO_INFO)
      {
        status := status + [Idle];
        lists := lists[Idle := lists[Idle] + [i]];
        counts := counts[Idle := counts[Idle] + 1];
        Grown(i);
      }
      FreshOk(count);
    }

    method GetHandle(s: Status) returns (hnd: Option<nat>)
      requires Ok(Value())
      ensures hnd == First(Value(), s)
      ensures hnd.Some? ==> hnd.value < |status| && status[hnd.value] == s
      ensures hnd.None? ==> forall t :: 0 <= t < |status| ==> status[t] != s
    {
      FirstIs(Value(), s);
      if lists[s] == [] {
        return None;
      }
      hnd := Some(lists[s][0]);
    }

    method CheckEmpty(s: Status) returns (empty: bool)
      requires Ok(Value())
      ensures empty <==> forall t :: 0 <= t < |status| ==> status[t] != s
    {
      EmptyIs(Value(), s);
      empty := lists[s] == [];
    }

    method GetCount(s: Status) returns (n: int)
      requires Ok(Value())
      ensures n == |set t: nat | 0 <= t < |status| && status[t] == s|
    {
      n := counts[s];
      CountIs(Value(), s);
    }

    method SetStatus(t: nat, to: Status)
      requires Ok(Value()) && t < |status|
      modifies this`status, this`lists, this`counts
      ensures Value() == Move(old(Value()), t, to)
    {
      var from := status[t];
      lists := lists[from := Without(lists[from], t)];
      lists := lists[to := lists[to] + [t]];
      counts := counts[from := counts[from] - 1];
      counts := counts[to := counts[to] + 1];
      status := status[t := to];
    }

    method SetInfo(t: nat, info: Info)
      requires t < |infos|
      modifies this`infos
      ensures infos == old(infos)[t := info]
    {
      infos := infos[t := info];
    }
  }

  /** A counter is the number of tasks with its status. */
  lemma CountIs(g: Group<Status>, s: Status)
    requires Ok(g)
    ensures g.counts[s] == |set t: nat | 0 <= t < |g.status| && g.status[t] == s|
  {
    var tasks := set t: nat | 0 <= t < |g.status| && g.status[t] == s;
    assert forall t :: t in tasks <==> t in g.lists[s];
    DistinctSize(g.lists[s], tasks);
  }

  lemma {:induction false} DistinctSize(list: seq<nat>, members: set<nat>)
    requires Distinct(list) && forall t :: t in members <==> t in list
    ensures |members| == |list|
  {
    if list == [] {
      assert members == {};
    } else {
      assert list == [list[0]] + list[1..];
      assert forall t: nat :: t in list <==> t == list[0] || t in list[1..];
      DistinctSize(list[1..], members - {list[0]});
    }
  }
}
