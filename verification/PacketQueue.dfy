/** The semaphore queue that feeds the parser (osal/mpp_queue.cpp), with its callers
    (mpp/mpp.cpp): pushes and flushes run under the list's mutex, while a puller reads
    the flush flag and waits on the semaphore without it. Every shared access is one
    step, and any number of pullers interleave with the mutex holder. */
module PacketQueue {

  /** Where a puller is: outside, about to wait, or past the wait and not yet popped. */
  datatype Puller = Outside | AtWait | Past

  /** What the holder of the mutex has left to do. */
  datatype Holder = Free | PushAdded | PushUnflagged | FlushFlagged | FlushPosted

  datatype State = State(items: seq<nat>, sem: nat, flag: bool, holder: Holder, pullers: seq<Puller>)

  datatype Step =
    | PushAdd(item: nat, stored: bool)
    | PushUnflag
    | PushPost
    | RemoveHead
    | FlushFlag
    | FlushPost
    | FlushList
    | ReadFlag(i: nat)
    | Wait(i: nat)
    | Pop(i: nat)

  predicate Enabled(s: State, step: Step) {
    match step
    case PushAdd(_, _) => s.holder == Free
    case PushUnflag => s.holder == PushAdded
    case PushPost => s.holder == PushUnflagged
    case RemoveHead => s.holder == Free && s.items != []
    case FlushFlag => s.holder == Free
    case FlushPost => s.holder == FlushFlagged
    case FlushList => s.holder == FlushPosted
    case ReadFlag(i) => i < |s.pullers| && s.pullers[i] == Outside
    case Wait(i) => i < |s.pullers| && s.pullers[i] == AtWait && s.sem > 0
    case Pop(i) => i < |s.pullers| && s.pullers[i] == Past && s.holder == Free
  }

  function Next(s: State, step: Step): State
    requires Enabled(s, step)
  {
    match step
    case PushAdd(x, stored) => s.(items := if stored then s.items + [x] else s.items, holder := PushAdded)
    case PushUnflag => s.(flag := false, holder := PushUnflagged)
    case PushPost => s.(sem := s.sem + 1, holder := Free)
    case RemoveHead => s.(items := s.items[1..])
    case FlushFlag => s.(flag := true, holder := FlushFlagged)
    case FlushPost => s.(sem := s.sem + 1, holder := FlushPosted)
    case FlushList => s.(items := [], holder := Free)
    case ReadFlag(i) => s.(pullers := s.pullers[i := if s.flag then Past else AtWait])
    case Wait(i) => s.(sem := s.sem - 1, pullers := s.pullers[i := Past])
    case Pop(i) =>
      s.(items := if s.items == [] then [] else s.items[1..], pullers := s.pullers[i := Outside])
  }

  function CountPast(pullers: seq<Puller>): nat {
    if pullers == [] then 0 else CountPast(pullers[1..]) + (if pullers[0] == Past then 1 else 0)
  }

  lemma {:induction false} CountUpdate(pullers: seq<Puller>, i: nat, pc: Puller)
    requires i < |pullers|
    ensures CountPast(pullers[i := pc]) ==
              CountPast(pullers) - (if pullers[i] == Past then 1 else 0) + (if pc == Past then 1 else 0)
  {
    if i > 0 {
      CountUpdate(pullers[1..], i - 1, pc);
      assert pullers[i := pc][1..] == pullers[1..][i - 1 := pc];
    }
  }

  lemma {:induction false} PastCounts(pullers: seq<Puller>, i: nat)
    requires i < |pullers| && pullers[i] == Past
    ensures CountPast(pullers) >= 1
  {
    if i > 0 {
      PastCounts(pullers[1..], i - 1);
    }
  }

  /** A push between its append and its post has a wakeup still to give. */
  function Owed(s: State): nat { if s.holder == PushAdded || s.holder == PushUnflagged then 1 else 0 }

  /** Wakeups available, handed out or owed, over and above the packets queued. */
  function Surplus(s: State): int { s.sem + CountPast(s.pullers) + Owed(s) - |s.items| }

  /** The only steps that change the balance: packets that disappear without a pull, posts
      without a packet, waits skipped by the flag, and pulls that find nothing. */
  function Gain(s: State, step: Step): int
    requires Enabled(s, step)
  {
    match step
    case PushAdd(_, stored) => if stored then 0 else 1
    case RemoveHead => 1
    case FlushPost => 1
    case FlushList => |s.items|
    case ReadFlag(_) => if s.flag then 1 else 0
    case Pop(_) => if s.items == [] then -1 else 0
    case _ => 0
  }

  /** Conservation of wakeups, exactly. */
  lemma SurplusStep(s: State, step: Step)
    requires Enabled(s, step)
    ensures Surplus(Next(s, step)) == Surplus(s) + Gain(s, step)
  {
    match step
    case ReadFlag(i) => CountUpdate(s.pullers, i, if s.flag then Past else AtWait);
    case Wait(i) => CountUpdate(s.pullers, i, Past);
    case Pop(i) => CountUpdate(s.pullers, i, Outside);
    case _ =>
  }

  /** A pull that finds nothing was covered by a wakeup of its own. */
  lemma StepCovered(s: State, step: Step)
    requires Surplus(s) >= 0 && Enabled(s, step)
    ensures Surplus(Next(s, step)) >= 0
  {
    SurplusStep(s, step);
    if step.Pop? {
      PastCounts(s.pullers, step.i);
    }
  }

  ghost predicate IsRun(run: seq<State>, steps: seq<Step>) {
    && |run| == |steps| + 1
    && run[0].items == [] && run[0].sem == 0 && run[0].holder == Free
    && forall i :: 0 <= i < |steps| ==> Enabled(run[i], steps[i]) && run[i + 1] == Next(run[i], steps[i])
  }

  /** In every interleaving: a puller that would block on the semaphore while packets are
      queued finds, for each of them, a puller already past the wait or the push that is
      about to post. With the mutex free every queued packet is claimed by another puller. */
  lemma {:induction false} NoLostWakeup(run: seq<State>, steps: seq<Step>, at: nat)
    requires IsRun(run, steps) && at < |run|
    ensures Surplus(run[at]) >= 0
    ensures run[at].sem == 0 ==> |run[at].items| <= CountPast(run[at].pullers) + Owed(run[at])
    ensures run[at].sem == 0 && run[at].holder == Free ==> |run[at].items| <= CountPast(run[at].pullers)
  {
    if at > 0 {
      NoLostWakeup(run, steps, at - 1);
      StepCovered(run[at - 1], steps[at - 1]);
    }
  }
}
