/** Two promises of the slot table over whole runs (mpp/base/mpp_buf_slot.cpp): a slot
    that is handed out again is held by nobody, and slots leave the display queue in
    the order they entered it, each only once it is filled. */
module SlotSafety {
  import opened Wrappers
  import opened Lists
  import opened BufferPool
  import opened Slots

  // ---- a slot and those who really hold it -----------------------------------------

  /** The bits of one slot beside the true number of hardware and queue holders. */
  datatype Tracked = Tracked(slot: Slot, hal: nat, que: nat)

  datatype Use =
    | Take
    | Hold(f: Flag)
    | Drop(f: Flag)
    | Queue
    | Unqueue
    | GiveFrame
    | GiveBuffer(b: Id)

  /** Holders are added to slots in use only, and only a holder lets go. */
  predicate Legal(t: Tracked, u: Use) {
    match u
    case Take => !t.slot.onUsed
    case Hold(_) => t.slot.onUsed
    case Queue => t.slot.onUsed
    case GiveFrame => t.slot.onUsed
    case GiveBuffer(_) => t.slot.onUsed
    case Unqueue => t.que > 0
    case Drop(f) =>
      match f
      case CodecReady => t.slot.onUsed
      case CodecUse => t.slot.codecUse
      case HalInput => t.hal > 0
      case HalOutput => t.slot.halOutput
      case QueueUse => t.que > 0
  }

  /** The counters have room for one more holder. */
  predicate InRange(t: Tracked, u: Use) {
    && (u == Hold(HalInput) ==> t.hal < 255)
    && (u == Hold(QueueUse) || u == Queue ==> t.que < 31)
  }

  function Released(s: Slot): Slot {
    if Releasable(s) then s.(onUsed := false, frame := None, buffer := None) else s
  }

  function Step(t: Tracked, u: Use): Tracked {
    match u
    case Take => t.(slot := t.slot.(onUsed := true, notReady := true))
    case Hold(f) =>
      Tracked(SetBits(t.slot, f), if f == HalInput then t.hal + 1 else t.hal, if f == QueueUse then t.que + 1 else t.que)
    case Drop(f) =>
      Tracked(Released(ClrBits(t.slot, f)),
              if f == HalInput && t.hal > 0 then t.hal - 1 else t.hal,
              if f == QueueUse && t.que > 0 then t.que - 1 else t.que)
    case Queue => Tracked(SetBits(t.slot, QueueUse), t.hal, t.que + 1)
    case Unqueue => Tracked(ClrBits(t.slot, QueueUse), t.hal, if t.que > 0 then t.que - 1 else 0)
    case GiveFrame => t.(slot := t.slot.(frame := Some(Frame(None))))
    case GiveBuffer(b) =>
      t.(slot := t.slot.(buffer := Some(b), frame := if t.slot.frame.Some? then Some(Frame(Some(b))) else None))
  }

  /** A use of slot i of a table. Take is get_unused where it picks i, Unqueue is a dequeue
      that delivers i. */
  function Used(t: Table, i: nat, u: Use): Table {
    match u
    case Take => Acquire(t).1
    case Hold(f) => SetFlag(t, i, f)
    case Drop(f) => ClrFlag(t, i, f)
    case Queue => Enqueue(t, i)
    case Unqueue => Dequeue(t).1
    case GiveFrame => SetFrame(t, i)
    case GiveBuffer(b) => SetBuffer(t, i, b)
  }

  predicate Applies(t: Table, i: nat, u: Use) {
    i < |t.slots| && (u.Take? ==> Acquire(t).0 == Some(i)) && (u.Unqueue? ==> Dequeue(t).0 == Some(i))
  }

  /** Every operation of the table is one step of the slot it names and leaves the others. */
  lemma TableFollows(t: Table, i: nat, u: Use, hal: nat, que: nat)
    requires Applies(t, i, u)
    ensures Used(t, i, u).slots == t.slots[i := Step(Tracked(t.slots[i], hal, que), u).slot]
  {
    if u.Drop? {
      var s := ClrBits(t.slots[i], u.f);
      assert t.slots[i := s][i := Released(s)] == t.slots[i := Released(s)];
    }
  }

  /** The counters tell the truth, and a slot not in use has no holder, frame or buffer. */
  ghost predicate Safe(t: Tracked) {
    t.slot.halUse == t.hal && t.slot.queueUse == t.que && (!t.slot.onUsed ==> t.slot == UNUSED)
  }

  /** Safety survives a legal step exactly when the counters have room for it. */
  lemma StepSafe(t: Tracked, u: Use)
    requires Safe(t) && Legal(t, u) && t.hal <= 255 && t.que <= 31
    ensures Safe(Step(t, u)) <==> InRange(t, u)
  {
  }

  // ---- a table and its holders, over whole runs ----------------------------------------

  /** A table beside the true number of holders of each of its slots. */
  datatype Tracking = Tracking(t: Table, hal: seq<nat>, que: seq<nat>)

  predicate Sized(w: Tracking) { |w.t.slots| == |w.hal| == |w.que| }

  function Track(w: Tracking, i: nat): Tracked
    requires Sized(w) && i < |w.t.slots|
  {
    Tracked(w.t.slots[i], w.hal[i], w.que[i])
  }

  /** What is asked of the callers. Which slot is taken and which leaves the queue is the
      table's own choice; the queue's hold on a slot is given up by the dequeue alone. */
  predicate Rightful(w: Tracking, i: nat, u: Use)
    requires Sized(w)
  {
    && Applies(w.t, i, u)
    && (u.Take? || u.Unqueue? || Legal(Track(w, i), u))
    && (u == Drop(QueueUse) && i in w.t.queue ==> w.que[i] > 1)
  }

  function Act(w: Tracking, i: nat, u: Use): Tracking
    requires Sized(w) && i < |w.t.slots|
  {
    var x := Step(Track(w, i), u);
    Tracking(Used(w.t, i, u), w.hal[i := x.hal], w.que[i := x.que])
  }

  /** Every slot is safe, and the queue holds each slot that is in it, once. */
  ghost predicate TableSafe(w: Tracking) {
    && Sized(w) && (forall i :: 0 <= i < |w.t.slots| ==> SlotSafe(Track(w, i)))
    && Distinct(w.t.queue) && (forall i :: i in w.t.queue ==> i < |w.t.slots| && w.que[i] > 0)
  }

  ghost predicate SlotSafe(x: Tracked) { Safe(x) && x.hal <= 255 && x.que <= 31 }

  /** The slot that the table picks is one the use is legal for: a free slot has no holder,
      and the queue does hold the slot at its head. */
  lemma PickIsLegal(w: Tracking, i: nat, u: Use)
    requires TableSafe(w) && Rightful(w, i, u)
    ensures Legal(Track(w, i), u)
  {
    if u.Unqueue? {
      assert i == w.t.queue[0] && i in w.t.queue;
    }
  }

  lemma QueueAfter(t: Table, i: nat, u: Use)
    requires Applies(t, i, u) && Distinct(t.queue) && forall k :: k in t.queue ==> k < |t.slots|
    ensures var q := Used(t, i, u).queue;
            Distinct(q) && forall k :: k in q <==> (k in t.queue && !(u.Unqueue? && k == i)) || (u.Queue? && k == i)
  {
    if u.Queue? {
      WithoutFacts(t.queue, i);
      AppendFacts(Without(t.queue, i), i);
    } else if u.Unqueue? {
      assert t.queue == [i] + t.queue[1..];
      assert forall k :: k in t.queue <==> k == i || k in t.queue[1..];
    }
  }

  /** The table stays safe exactly when the counters of the slot have room. */
  lemma ActSafe(w: Tracking, i: nat, u: Use)
    requires TableSafe(w) && Rightful(w, i, u)
    ensures TableSafe(Act(w, i, u)) <==> InRange(Track(w, i), u)
  {
    var x, w' := Track(w, i), Act(w, i, u);
    PickIsLegal(w, i, u);
    assert SlotSafe(x);
    StepSafe(x, u);
    TableFollows(w.t, i, u, x.hal, x.que);
    QueueAfter(w.t, i, u);
    Others(w, i, Step(x, u), w');
    HoldsQueue(x, u, w'.que[i]);
  }

  lemma Others(w: Tracking, i: nat, x: Tracked, w': Tracking)
    requires Sized(w) && i < |w.t.slots| && w'.t.slots == w.t.slots[i := x.slot]
    requires w'.hal == w.hal[i := x.hal] && w'.que == w.que[i := x.que]
    ensures Sized(w') && Track(w', i) == x
    ensures forall k :: 0 <= k < |w.t.slots| && k != i ==> Track(w', k) == Track(w, k)
  {
  }

  /** What a step leaves of the queue's hold. */
  lemma HoldsQueue(x: Tracked, u: Use, que: nat)
    requires que == Step(x, u).que
    ensures u.Queue? ==> que > 0
    ensures x.que > 0 && !u.Unqueue? && !(u == Drop(QueueUse) && x.que <= 1) ==> que > 0
  {
  }

  function Empty(count: nat, pool: Pool): Tracking {
    Tracking(Table(seq(count, _ => UNUSED), [], pool), seq(count, _ => 0), seq(count, _ => 0))
  }

  ghost predicate IsRun(run: seq<Tracking>, acts: seq<(nat, Use)>) {
    && |run| == |acts| + 1 && run[0] == Empty(|run[0].t.slots|, run[0].t.pool)
    && forall k :: 0 <= k < |acts| ==>
         && Sized(run[k]) && Rightful(run[k], acts[k].0, acts[k].1)
         && InRange(Track(run[k], acts[k].0), acts[k].1) && run[k + 1] == Act(run[k], acts[k].0, acts[k].1)
  }

  lemma {:induction false} RunIsSafe(run: seq<Tracking>, acts: seq<(nat, Use)>, at: nat)
    requires IsRun(run, acts) && at < |run|
    ensures TableSafe(run[at])
  {
    if at > 0 {
      RunIsSafe(run, acts, at - 1);
      var i, u := acts[at - 1].0, acts[at - 1].1;
      assert run[at] == Act(run[at - 1], i, u);
      ActSafe(run[at - 1], i, u);
    }
  }

  /** In every reachable state the slot that get_unused hands out has no codec, hardware or
      queue holder, no frame and no buffer, and does not wait in the display queue. */
  lemma NeverReissued(run: seq<Tracking>, acts: seq<(nat, Use)>, at: nat)
    requires IsRun(run, acts) && at < |run| && Acquire(run[at].t).0.Some?
    ensures Sized(run[at])
    ensures var i := Acquire(run[at].t).0.value;
            i < |run[at].t.slots| && Track(run[at], i) == Tracked(UNUSED, 0, 0) && i !in run[at].t.queue
  {
    RunIsSafe(run, acts, at);
    var i := Acquire(run[at].t).0.value;
    assert SlotSafe(Track(run[at], i));
  }

  /** One more act makes a longer run. */
  lemma Extend(run: seq<Tracking>, acts: seq<(nat, Use)>, i: nat, u: Use) returns (run': seq<Tracking>, acts': seq<(nat, Use)>)
    requires IsRun(run, acts)
    requires var w := run[|run| - 1]; Sized(w) && Rightful(w, i, u) && InRange(Track(w, i), u)
    ensures IsRun(run', acts') && run'[|run'| - 1] == Act(run[|run| - 1], i, u)
  {
    var w := run[|run| - 1];
    run', acts' := run + [Act(w, i, u)], acts + [(i, u)];
    forall k | 0 <= k < |acts'|
      ensures
        && Sized(run'[k]) && Rightful(run'[k], acts'[k].0, acts'[k].1)
        && InRange(Track(run'[k], acts'[k].0), acts'[k].1) && run'[k + 1] == Act(run'[k], acts'[k].0, acts'[k].1)
    {
      if k < |acts| {
        assert acts'[k] == acts[k] && run'[k] == run[k] && run'[k + 1] == run[k + 1];
      } else {
        assert acts'[k] == (i, u) && run'[k] == w;
      }
    }
  }

  /** A table of one slot, which the codec and n hardware users hold. */
  function Held(n: nat, pool: Pool): Tracking {
    Tracking(Table([Slot(true, false, true, false, n, 0, None, None)], [], pool), [n], [0])
  }

  lemma {:induction false} HeldRun(n: nat, pool: Pool) returns (run: seq<Tracking>, acts: seq<(nat, Use)>)
    requires n <= 255
    ensures IsRun(run, acts) && run[|run| - 1] == Held(n, pool)
  {
    if n > 0 {
      run, acts := HeldRun(n - 1, pool);
      run, acts := Extend(run, acts, 0, Hold(HalInput));
    } else {
      run, acts := CodecHolds(pool);
    }
  }

  lemma CodecHolds(pool: Pool) returns (run: seq<Tracking>, acts: seq<(nat, Use)>)
    ensures IsRun(run, acts) && run[|run| - 1] == Held(0, pool)
  {
    run, acts := [Empty(1, pool)], [];
    run, acts := Extend(run, acts, 0, Use.Take);
    run, acts := Extend(run, acts, 0, Hold(CodecReady));
    run, acts := Extend(run, acts, 0, Hold(CodecUse));
  }

  /** A run comes to 255 hardware holders. The next one makes the 8-bit counter read zero,
      and the release by the codec then frees the slot under all of them. */
  lemma WrapFreesHeldSlot(pool: Pool) returns (run: seq<Tracking>, acts: seq<(nat, Use)>)
    ensures IsRun(run, acts)
    ensures var full := run[|run| - 1];
            && Sized(full) && Rightful(full, 0, Hold(HalInput)) && Rightful(Act(full, 0, Hold(HalInput)), 0, Drop(CodecUse))
            && var after := Act(Act(full, 0, Hold(HalInput)), 0, Drop(CodecUse));
            after.hal == [256] && Acquire(after.t).0 == Some(0)
  {
    run, acts := HeldRun(255, pool);
    var w := Act(Held(255, pool), 0, Hold(HalInput));
    assert w == Tracking(Table([Slot(true, false, true, false, 0, 0, None, None)], [], pool), [256], [0]);
  }

  // ---- the display queue ----------------------------------------------------------------

  /** The table with everything ever enqueued and dequeued. */
  datatype Display = Display(t: Table, asked: seq<nat>, shown: seq<nat>)

  ghost predicate InOrder(d: Display) { d.asked == d.shown + d.t.queue }

  function Ask(d: Display, i: nat): Display {
    Display(Enqueue(d.t, i), d.asked + [i], d.shown)
  }

  function Show(d: Display): Display {
    var (r, t) := Dequeue(d.t);
    if r.None? then d else Display(t, d.asked, d.shown + [r.value])
  }

  /** Order survives an enqueue exactly when the slot is not already queued: otherwise it
      moves to the end. */
  lemma AskOrder(d: Display, i: nat)
    requires InOrder(d) && i < |d.t.slots|
    ensures InOrder(Ask(d, i)) <==> i !in d.t.queue
  {
    if i !in d.t.queue {
      NotIn(d.t.queue, i);
    }
  }

  /** A dequeue delivers the head or nothing, and only a filled slot. */
  lemma ShowOrder(d: Display)
    requires InOrder(d)
    ensures InOrder(Show(d))
    ensures |Show(d).shown| > |d.shown| <==>
              d.t.queue != [] && d.t.queue[0] < |d.t.slots| && !d.t.slots[d.t.queue[0]].notReady
    ensures Show(d).shown == d.shown || (d.t.queue != [] && Show(d).shown == d.shown + [d.t.queue[0]])
  {
  }

  datatype Event = Asked(i: nat) | Tried | Elsewhere(slots: seq<Slot>, pool: Pool)

  /** Slots change freely in between; a slot is enqueued only while it is not queued. */
  predicate Allowed(d: Display, e: Event) {
    match e
    case Asked(i) => i < |d.t.slots| && i !in d.t.queue
    case Tried => true
    case Elsewhere(slots, _) => |slots| == |d.t.slots|
  }

  function Happen(d: Display, e: Event): Display {
    match e
    case Asked(i) => Ask(d, i)
    case Tried => Show(d)
    case Elsewhere(slots, pool) => d.(t := Table(slots, d.t.queue, pool))
  }

  ghost predicate IsHistory(run: seq<Display>, events: seq<Event>) {
    && |run| == |events| + 1 && InOrder(run[0])
    && forall i :: 0 <= i < |events| ==> Allowed(run[i], events[i]) && run[i + 1] == Happen(run[i], events[i])
  }

  /** At every point the slots delivered are, in order, the first ones enqueued. */
  lemma {:induction false} DisplayOrder(run: seq<Display>, events: seq<Event>, at: nat)
    requires IsHistory(run, events) && at < |run|
    ensures InOrder(run[at]) && run[at].shown <= run[at].asked
  {
    if at > 0 {
      DisplayOrder(run, events, at - 1);
      var d, e := run[at - 1], events[at - 1];
      assert Allowed(d, e) && run[at] == Happen(d, e);
      match e
      case Asked(i) => AskOrder(d, i);
      case Tried => ShowOrder(d);
      case Elsewhere(_, _) =>
    }
  }
}
