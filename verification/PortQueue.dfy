/** The task queue between a producer and a consumer (mpp/base/mpp_task_impl.cpp):
    tasks circulate input port - input hold - output port - output hold. */
module PortQueue {
  import opened Lists
  import opened StatusLists

  datatype Status = InputPort | InputHold | OutputPort | OutputHold

  datatype Port = Input | Output

  const STATUSES := {InputPort, InputHold, OutputPort, OutputHold}

  function Curr(p: Port): Status { if p.Input? then InputPort else OutputPort }

  function OnDequeue(p: Port): Status { if p.Input? then InputHold else OutputHold }

  function OnEnqueue(p: Port): Status { if p.Input? then OutputPort else InputPort }

  predicate Held(s: Status) { s.InputHold? || s.OutputHold? }

  /** The queue as a value, with the history of its two port lists: tasks `entered` at the
      input side and `delivered` at the output port; `returned` by the consumer and `taken`
      again by the producer. */
  datatype Queue = Queue(
    ready: bool, g: Group<Status>,
    entered: seq<nat>, delivered: seq<nat>, returned: seq<nat>, taken: seq<nat>)

  ghost predicate Ok(q: Queue) { Inv(q.g) && q.g.lists.Keys == STATUSES }

  /** First in, first out at both port lists. */
  ghost predicate InOrder(q: Queue) {
    && OutputPort in q.g.lists && q.entered == q.delivered + q.g.lists[OutputPort]
    && InputPort in q.g.lists && q.returned == q.taken + q.g.lists[InputPort]
  }

  function Count(q: Queue, s: Status): int { if s in q.g.counts then q.g.counts[s] else 0 }

  function List(q: Queue, s: Status): seq<nat> { if s in q.g.lists then q.g.lists[s] else [] }

  /** mpp_port_dequeue. */
  predicate CanDequeue(q: Queue, port: Port) { q.ready && Count(q, Curr(port)) != 0 && List(q, Curr(port)) != [] }

  function Dequeue(q: Queue, port: Port): Queue
    requires CanDequeue(q, port)
  {
    var t := List(q, Curr(port))[0];
    var q' := q.(g := Move(q.g, t, OnDequeue(port)));
    if port.Output? then q'.(delivered := q.delivered + [t]) else q'.(taken := q.taken + [t])
  }

  /** mpp_port_enqueue: the task leaves whatever list it is on. */
  function Enqueue(q: Queue, port: Port, t: nat): Queue {
    if !q.ready then q else
    var q' := q.(g := Move(q.g, t, OnEnqueue(port)));
    if port.Input? then q'.(entered := q.entered + [t]) else q'.(returned := q.returned + [t])
  }

  lemma DequeueOk(q: Queue, port: Port)
    requires Ok(q)
    ensures CanDequeue(q, port) <==> q.ready && q.g.lists[Curr(port)] != []
    ensures CanDequeue(q, port) ==> Ok(Dequeue(q, port)) && (InOrder(q) ==> InOrder(Dequeue(q, port)))
    ensures CanDequeue(q, port) ==>
              var t := q.g.lists[Curr(port)][0];
              t < |q.g.status| && Dequeue(q, port).g.status == q.g.status[t := OnDequeue(port)]
  {
    var c := Curr(port);
    if CanDequeue(q, port) {
      var t := q.g.lists[c][0];
      HeadIs(q.g, c);
      MoveInv(q.g, t, OnDequeue(port));
      MoveLists(q.g, t, OnDequeue(port));
    }
  }

  lemma EnqueueOk(q: Queue, port: Port, t: nat)
    requires Ok(q) && t < |q.g.status|
    ensures Ok(Enqueue(q, port, t))
    ensures q.ready ==> Enqueue(q, port, t).g.status == q.g.status[t := OnEnqueue(port)]
  {
    MoveInv(q.g, t, OnEnqueue(port));
  }

  /** The order of the ports survives an enqueue exactly when the task was held, as it is
      when every holder returns only what it took. */
  lemma EnqueueOrder(q: Queue, port: Port, t: nat)
    requires Ok(q) && InOrder(q) && q.ready && t < |q.g.status|
    ensures InOrder(Enqueue(q, port, t)) <==> Held(q.g.status[t])
  {
    var from, to := q.g.status[t], OnEnqueue(port);
    var q' := Enqueue(q, port, t);
    assert t in q.g.lists[from];
    if from == to {
      assert |q'.g.lists[to]| == |q.g.lists[to]|;
    } else {
      MoveLists(q.g, t, to);
      if !Held(from) {
        assert |q'.g.lists[from]| == |q.g.lists[from]| - 1;
      }
    }
  }

  /** One round of the drain: the head of the output port goes back to the producer. */
  lemma DrainRound(q: Queue)
    requires Ok(q) && InOrder(q) && CanDequeue(q, Output)
    ensures var t := q.g.lists[OutputPort][0];
            var q' := Enqueue(Dequeue(q, Output), Output, t);
            && t < |q.g.status| && Ok(q') && InOrder(q') && q'.ready
            && q'.g.lists == q.g.lists[OutputPort := q.g.lists[OutputPort][1..]][InputPort := q.g.lists[InputPort] + [t]]
  {
    var t := q.g.lists[OutputPort][0];
    var mid := Dequeue(q, Output);
    DequeueOk(q, Output);
    EnqueueOk(mid, Output, t);
    EnqueueOrder(mid, Output, t);
    MoveLists(q.g, t, OutputHold);
    MoveLists(mid.g, t, InputPort);
    assert t !in q.g.lists[OutputHold];
    WithoutLast(q.g.lists[OutputHold], t);
  }

  /** mpp_task_queue_deinit expects every task back at the producer: once the output port is
      empty, that is the case exactly when the consumer holds none. */
  lemma DeinitCondition(q: Queue)
    requires Ok(q) && q.g.lists[OutputPort] == []
    ensures (forall t :: 0 <= t < |q.g.status| ==> q.g.status[t] == InputPort || q.g.status[t] == InputHold)
            <==> q.g.lists[OutputHold] == []
  {
    EmptyIs(q.g, OutputPort);
    EmptyIs(q.g, OutputHold);
  }

  // ---- whole runs -------------------------------------------------------------------

  datatype Op = Deq(port: Port) | Enq(port: Port, task: nat)

  /** A holder enqueues only tasks it dequeued from the same port. */
  predicate Disciplined(q: Queue, op: Op) {
    op.Enq? ==> op.task < |q.g.status| && q.g.status[op.task] == OnDequeue(op.port)
  }

  function Step(q: Queue, op: Op): Queue {
    match op
    case Deq(port) => if CanDequeue(q, port) then Dequeue(q, port) else q
    case Enq(port, t) => Enqueue(q, port, t)
  }

  ghost predicate IsRun(run: seq<Queue>, ops: seq<Op>) {
    && |run| == |ops| + 1
    && forall i :: 0 <= i < |ops| ==> Disciplined(run[i], ops[i]) && run[i + 1] == Step(run[i], ops[i])
  }

  /** In every disciplined run the lists stay a partition, and the tasks delivered at the
      output port are, in order, the first ones that entered at the input side. */
  lemma {:induction false} RunInOrder(run: seq<Queue>, ops: seq<Op>, at: nat)
    requires IsRun(run, ops) && at < |run| && Ok(run[0]) && InOrder(run[0])
    ensures Ok(run[at]) && InOrder(run[at])
    ensures run[at].delivered <= run[at].entered && run[at].taken <= run[at].returned
  {
    if at > 0 {
      RunInOrder(run, ops, at - 1);
      var q := run[at - 1];
      assert Disciplined(q, ops[at - 1]) && run[at] == Step(q, ops[at - 1]);
      match ops[at - 1]
      case Deq(port) => DequeueOk(q, port);
      case Enq(port, t) =>
        EnqueueOk(q, port, t);
        if q.ready {
          EnqueueOrder(q, port, t);
        }
    }
  }

  /** n tasks, all at the input port. */
  function Fresh(n: nat): Group<Status> {
    Group(seq(n, _ => InputPort),
          map[InputPort := Numbers(n), InputHold := [], OutputPort := [], OutputHold := []],
          map[InputPort := n, InputHold := 0, OutputPort := 0, OutputHold := 0])
  }

  lemma FreshOk(n: nat, ready: bool)
    ensures var q := Queue(ready, Fresh(n), [], [], Numbers(n), []); Ok(q) && InOrder(q)
  {
    assert [] + Numbers(n) == Numbers(n);
    forall t: nat ensures t in Numbers(n) <==> t < n {
      if t < n {
        assert Numbers(n)[t] == t;
      }
    }
  }

  lemma Grown(n: nat)
    ensures Numbers(n + 1) == Numbers(n) + [n]
    ensures Fresh(n + 1).status == Fresh(n).status + [InputPort]
    ensures Fresh(n + 1).lists == Fresh(n).lists[InputPort := Numbers(n) + [n]]
    ensures Fresh(n + 1).counts == Fresh(n).counts[InputPort := n + 1]
  {
  }

  /** The port lists after k rounds of a drain. */
  ghost predicate Drained(l: map<Status, seq<nat>>, l': map<Status, seq<nat>>, k: nat) {
    && InputPort in l && OutputPort in l && k <= |l[OutputPort]|
    && l' == l[OutputPort := l[OutputPort][k..]][InputPort := l[InputPort] + l[OutputPort][..k]]
  }

  lemma DrainStart(l: map<Status, seq<nat>>)
    requires InputPort in l && OutputPort in l
    ensures Drained(l, l, 0)
  {
    assert l[OutputPort][0..] == l[OutputPort] && l[InputPort] + l[OutputPort][..0] == l[InputPort];
  }

  lemma DrainStep(l: map<Status, seq<nat>>, l1: map<Status, seq<nat>>, k: nat, l2: map<Status, seq<nat>>)
    requires Drained(l, l1, k) && l1[OutputPort] != []
    requires l2 == l1[OutputPort := l1[OutputPort][1..]][InputPort := l1[InputPort] + [l1[OutputPort][0]]]
    ensures Drained(l, l2, k + 1)
  {
    var o := l[OutputPort];
    assert o[k..][1..] == o[k + 1..] && o[..k] + [o[k]] == o[..k + 1];
    assert l[InputPort] + o[..k] + [o[k]] == l[InputPort] + o[..k + 1];
  }

  class TaskQueue {
    var ready: bool
    var status: seq<Status>
    var lists: map<Status, seq<nat>>
    var counts: map<Status, int>
    ghost var entered: seq<nat>
    ghost var delivered: seq<nat>
    ghost var returned: seq<nat>
    ghost var taken: seq<nat>

    ghost function Value(): Queue
      reads this
    {
      Queue(ready, Group(status, lists, counts), entered, delivered, returned, taken)
    }

    constructor ()
      ensures Value() == Queue(false, Fresh(0), [], [], [], [])
    {
      ready, status := false, [];
      lists := map[InputPort := [], InputHold := [], OutputPort := [], OutputHold := []];
      counts := map[InputPort := 0, InputHold := 0, OutputPort := 0, OutputHold := 0];
      entered, delivered, returned, taken := [], [], [], [];
      new;
      assert status == Fresh(0).status && Numbers(0) == [];
    }

    method Setup(taskCount: nat)
      requires Value() == Queue(false, Fresh(0), [], [], [], [])
      modifies this
      ensures Value() == Queue(true, Fresh(taskCount), [], [], Numbers(taskCount), [])
    {
      for i := 0 to taskCount
        invariant Value() == Queue(false, Fresh(i), [], [], Numbers(i), [])
      {
        status := status + [InputPort];
        lists := lists[InputPort := lists[InputPort] + [i]];
        counts := counts[InputPort := counts[InputPort] + 1];
        returned := returned + [i];
        Grown(i);
      }
      ready := true;
    }

    method PortDequeue(port: Port) returns (ok: bool, task: nat)
      requires Ok(Value())
      modifies this
      ensures ok <==> CanDequeue(old(Value()), port)
      ensures ok ==> task == old(lists)[Curr(port)][0] && Value() == Dequeue(old(Value()), port)
      ensures !ok ==> Value() == old(Value())
    {
      DequeueOk(Value(), port);
      task := 0;
      if !ready {
        return false, task;
      }
      var curr, next := Curr(port), OnDequeue(port);
      if counts[curr] == 0 {
        return false, task;
      }
      task := lists[curr][0];
      MoveTask(task, next);
      if port.Output? {
        delivered := delivered + [task];
      } else {
        taken := taken + [task];
      }
      ok := true;
    }

    method MoveTask(task: nat, next: Status)
      requires Ok(Value()) && task < |status|
      modifies this`status, this`lists, this`counts
      ensures Value().g == Move(old(Value()).g, task, next)
    {
      var curr := status[task];
      lists := lists[curr := Without(lists[curr], task)];
      counts := counts[curr := counts[curr] - 1];
      lists := lists[next := lists[next] + [task]];
      counts := counts[next := counts[next] + 1];
      status := status[task := next];
    }

    method PortEnqueue(port: Port, task: nat) returns (ok: bool)
      requires Ok(Value()) && task < |status|
      modifies this
      ensures ok == old(ready) && Value() == Enqueue(old(Value()), port, task)
    {
      if !ready {
        return false;
      }
      MoveTask(task, OnEnqueue(port));
      if port.Input? {
        entered := entered + [task];
      } else {
        returned := returned + [task];
      }
      ok := true;
    }

    /** release_task_in_port on the consumer's port: it empties the port, in order; what
        either side holds stays held. */
    method Drain()
      requires Ok(Value()) && InOrder(Value())
      modifies this
      ensures Ok(Value()) && InOrder(Value()) && ready == old(ready)
      ensures ready ==> Drained(old(lists), lists, |old(lists)[OutputPort]|) && lists[OutputPort] == []
    {
      ghost var l, moved := lists, 0;
      DrainStart(l);
      while true
        invariant Ok(Value()) && InOrder(Value()) && ready == old(ready) && Drained(l, lists, moved)
        decreases |lists[OutputPort]|
      {
        ghost var q := Value();
        DequeueOk(q, Output);
        var ok, task := PortDequeue(Output);
        if !ok {
          break;
        }
        DrainRound(q);
        var _ := PortEnqueue(Output, task);
        DrainStep(l, q.g.lists, moved, lists);
        moved := moved + 1;
      }
    }
  }
}
