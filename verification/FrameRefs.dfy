/** The references on frame buffers, from allocation to the last release, over the slot
    table, the pool and the output frames: mpp/codec/mpp_dec.cpp takes one extra
    reference when it fills a slot and gives it to the frame it outputs, or drops it on
    reset; mpp/base/mpp_frame.cpp copies a frame without counting. */
module FrameRefs {
  import opened Wrappers
  import opened BufferPool
  import opened Slots

  /** `extra`: slots whose filling reference has not been passed on yet; `outputs`: the
      references owned by frames given to the user; `hand`: a buffer the parser got and has
      not yet given to a slot. */
  datatype State = State(t: Table, extra: set<nat>, outputs: multiset<Id>, hand: Option<Id>)

  // ---- counting ------------------------------------------------------------------------

  function One(o: Option<Id>, b: Id): nat { if o == Some(b) then 1 else 0 }

  /** The buffer named, or 0. */
  function Named(o: Option<Id>): Id { if o.Some? then o.value else 0 }

  /** The reference slot i took when it was filled, until it is displayed or dropped. */
  function Pending(s: Slot, extra: bool): Option<Id> { if extra then s.buffer else None }

  function SlotRefs(s: Slot, extra: bool, b: Id): nat {
    One(s.buffer, b) + One(FrameBuffer(s), b) + One(Pending(s, extra), b)
  }

  function Held(slots: seq<Slot>, extra: set<nat>, b: Id): nat {
    if slots == [] then 0
    else
      var n := |slots| - 1;
      Held(slots[..n], extra, b) + SlotRefs(slots[n], n in extra, b)
  }

  lemma {:induction false} HeldUpdate(slots: seq<Slot>, extra: set<nat>, i: nat, s: Slot, extra': set<nat>, b: Id)
    requires i < |slots|
    requires forall k :: k in extra - {i} <==> k in extra' - {i}
    ensures Held(slots[i := s], extra', b) ==
              Held(slots, extra, b) - SlotRefs(slots[i], i in extra, b) + SlotRefs(s, i in extra', b)
    ensures Held(slots, extra, b) >= SlotRefs(slots[i], i in extra, b)
  {
    var n := |slots| - 1;
    if i < n {
      HeldUpdate(slots[..n], extra, i, s, extra', b);
      assert slots[i := s][..n] == slots[..n][i := s];
      assert n in extra - {i} <==> n in extra' - {i};
    } else {
      assert slots[i := s][..n] == slots[..n];
      assert forall k :: 0 <= k < n ==> (k in extra <==> k in extra - {i}) && (k in extra' <==> k in extra' - {i});
      HeldSame(slots[..n], extra, extra', b);
    }
  }

  lemma {:induction false} HeldSame(slots: seq<Slot>, extra: set<nat>, extra': set<nat>, b: Id)
    requires forall k :: 0 <= k < |slots| ==> (k in extra <==> k in extra')
    ensures Held(slots, extra, b) == Held(slots, extra', b)
  {
    if slots != [] {
      HeldSame(slots[..|slots| - 1], extra, extra', b);
    }
  }

  /** Conservation: every reference on b has exactly one owner. */
  ghost predicate Balanced(s: State, b: Id) {
    Refs(s.t.pool, b) == Held(s.t.slots, s.extra, b) + s.outputs[b] + One(s.hand, b)
  }

  ghost predicate Conserved(s: State) {
    Inv(s.t.pool) && forall b: Id :: Balanced(s, b)
  }

  // ---- what the pool operations do to a count --------------------------------------------

  lemma DecRefs(p: Pool, b: Id, x: Id)
    requires Inv(p)
    ensures Refs(DecRef(p, b), x) == if x == b && Refs(p, b) > 0 then Refs(p, x) - 1 else Refs(p, x)
    ensures Inv(DecRef(p, b))
  {
    if b in p.bufs {
      DecRefInv(p, b);
    }
  }

  lemma IncRefs(p: Pool, b: Id, x: Id)
    requires Inv(p) && b in p.bufs
    ensures Refs(IncRef(p, b), x) == if x == b then Refs(p, x) + 1 else Refs(p, x)
    ensures Inv(IncRef(p, b))
  {
    IncRefInv(p, b);
  }

  lemma PutRefs(p: Pool, o: Option<Id>, x: Id)
    requires Inv(p)
    ensures Refs(Put(p, o), x) == if o == Some(x) && Refs(p, x) > 0 then Refs(p, x) - 1 else Refs(p, x)
    ensures Inv(Put(p, o))
  {
    if o.Some? {
      DecRefs(p, o.value, x);
    }
  }

  lemma PutTwice(p: Pool, o: Option<Id>, o': Option<Id>, x: Id)
    requires Inv(p)
    ensures Refs(p, x) >= One(o, x) + One(o', x) ==>
              Refs(Put(Put(p, o), o'), x) == Refs(p, x) - One(o, x) - One(o', x)
    ensures Inv(Put(Put(p, o), o'))
  {
    PutRefs(p, o, x);
    PutRefs(Put(p, o), o', x);
  }

  lemma UnusedRefs(p: Pool, size: nat, x: Id)
    requires Inv(p)
    ensures var (r, p') := GetUnused(p, size);
            && Refs(p', x) == (if r == Some(x) then 1 else Refs(p, x))
            && (r == Some(x) ==> Refs(p, x) == 0)
            && (x in p'.bufs ==> x in p.bufs) && p'.nextId == p.nextId
  {
    var k := FirstFit(p, size, 0);
    DropFirstRefs(p, k, x);
    DropFirstFacts(p, k);
    if k < |p.listUnused| {
      assert p.listUnused[k] in p.listUnused;
    }
  }

  ghost predicate SameRefs(p: Pool, q: Pool, x: Id) { Shape(q) && Refs(q, x) == Refs(p, x) && q.nextId == p.nextId }

  lemma DropRefs(p: Pool, q: Pool, x: Id)
    requires SameRefs(p, q, x) && q.listUnused != []
    ensures SameRefs(p, Drop(q, q.listUnused[0]), x)
  {
    assert q.listUnused[0] in q.listUnused;
    KeepsShape(q, q.listUnused[0]);
  }

  lemma DropFirstRefs(p: Pool, k: nat, x: Id)
    requires Shape(p)
    ensures Refs(DropFirst(p, k), x) == Refs(p, x) && DropFirst(p, k).nextId == p.nextId
  {
    forall q: Pool | SameRefs(p, q, x) && q.listUnused != [] ensures SameRefs(p, Drop(q, q.listUnused[0]), x) {
      DropRefs(p, q, x);
    }
    DropFirstKeeps(p, k, q => SameRefs(p, q, x));
  }

  // ---- the steps -------------------------------------------------------------------------

  datatype Step =
    | TakeSlot
    | Hold(i: nat, f: Flag)
    | QueueSlot(i: nat)
    | Describe(i: nat)
    | GetUnusedBuffer(size: nat)
    | MakeBuffer(size: nat)
    | Attach(i: nat)
    | Deliver
    | DropDisplay
    | DropReset
    | LetGo(i: nat, f: Flag)
    | UserFrees(b: Id)
    | ClearGroup

  /** The parser gets a buffer, an unused one or a new one, while it has none in hand ... */
  function Get(s: State, size: nat): State {
    if s.hand.Some? then s
    else
      var (r, p) := GetUnused(s.t.pool, size);
      s.(t := s.t.(pool := p), hand := r)
  }

  function Make(s: State, size: nat): State {
    if s.hand.Some? then s
    else
      var (r, p) := Create(s.t.pool, size, true);
      s.(t := s.t.(pool := p), hand := r)
  }

  /** ... and gives it to a slot that has none; the reference it got stays, pending. */
  function AttachTo(s: State, i: nat): State {
    if s.hand.None? || i >= |s.t.slots| || s.t.slots[i].buffer.Some? then s
    else State(SetBuffer(s.t, i, s.hand.value), s.extra + {i}, s.outputs, None)
  }

  /** Where the display queue's head goes: the user, with an uncounted copy of the slot's
      frame, or nowhere, in which case one reference is put. */
  datatype Fate = ToUser | PutFrames | PutSlots

  function Leave(s: State, fate: Fate): State {
    var (r, t) := Dequeue(s.t);
    if r.None? then s
    else
      var slot := s.t.slots[r.value];
      match fate
      case ToUser => s.(t := t, extra := s.extra - {r.value}, outputs := Owned(s.outputs, FrameBuffer(slot)))
      case PutFrames => s.(t := t.(pool := Put(t.pool, FrameBuffer(slot))), extra := s.extra - {r.value})
      case PutSlots => s.(t := t.(pool := Put(t.pool, slot.buffer)), extra := s.extra - {r.value})
  }

  function Owned(outputs: multiset<Id>, o: Option<Id>): multiset<Id> {
    if o.Some? then outputs + multiset{o.value} else outputs
  }

  /** mpp_frame_deinit by the user. */
  function Free(s: State, b: Id): State {
    if b !in s.outputs then s
    else s.(t := s.t.(pool := DecRef(s.t.pool, b)), outputs := s.outputs - multiset{b})
  }

  function Take(s: State, e: Step): State {
    match e
    case TakeSlot => s.(t := Acquire(s.t).1)
    case Hold(i, f) => s.(t := SetFlag(s.t, i, f))
    case QueueSlot(i) => s.(t := Enqueue(s.t, i))
    case Describe(i) => s.(t := SetFrame(s.t, i))
    case GetUnusedBuffer(size) => Get(s, size)
    case MakeBuffer(size) => Make(s, size)
    case Attach(i) => AttachTo(s, i)
    case Deliver => Leave(s, ToUser)
    case DropDisplay => Leave(s, PutFrames)
    case DropReset => Leave(s, PutSlots)
    case LetGo(i, f) => s.(t := ClrFlag(s.t, i, f))
    case UserFrees(b) => Free(s, b)
    case ClearGroup => s.(t := s.t.(pool := Reset(s.t.pool)))
  }

  function Owes(s: State, i: nat): Option<Id> {
    if i < |s.t.slots| then Pending(s.t.slots[i], i in s.extra) else None
  }

  /** The discipline of the decoder: a slot is described before it is filled, and its filling
      reference is passed on once, through its frame, before the slot is released. */
  predicate Disciplined(s: State, e: Step) {
    match e
    case Describe(i) => i < |s.t.slots| ==> FrameBuffer(s.t.slots[i]).None?
    case Deliver => LeavesOnce(s)
    case DropDisplay => LeavesOnce(s)
    case DropReset =>
      var r := Dequeue(s.t).0;
      r.Some? ==> Owes(s, r.value) == s.t.slots[r.value].buffer
    case LetGo(i, f) => i < |s.t.slots| && Releasable(ClrBits(s.t.slots[i], f)) ==> Owes(s, i).None?
    case _ => true
  }

  predicate LeavesOnce(s: State) {
    var r := Dequeue(s.t).0;
    r.Some? ==> Owes(s, r.value) == FrameBuffer(s.t.slots[r.value])
  }

  // ---- each step, exactly ------------------------------------------------------------------

  /** A step on one slot balances b exactly when the pool moved as the slot did. */
  lemma SlotStep(s: State, s': State, i: nat, b: Id)
    requires i < |s.t.slots| && |s'.t.slots| == |s.t.slots|
    requires s'.t.slots == s.t.slots[i := s'.t.slots[i]]
    requires s'.extra - {i} == s.extra - {i} && s'.hand == s.hand
    requires Balanced(s, b)
    ensures Balanced(s', b) <==>
              Refs(s'.t.pool, b) - Refs(s.t.pool, b) ==
              SlotRefs(s'.t.slots[i], i in s'.extra, b) - SlotRefs(s.t.slots[i], i in s.extra, b)
              + s'.outputs[b] - s.outputs[b]
    ensures Refs(s.t.pool, b) >= SlotRefs(s.t.slots[i], i in s.extra, b)
  {
    HeldUpdate(s.t.slots, s.extra, i, s'.t.slots[i], s'.extra, b);
  }

  /** Bits and queues own nothing. */
  lemma BitsStep(s: State, t: Table, i: nat, slot: Slot)
    requires Conserved(s) && i < |s.t.slots| && t.slots == s.t.slots[i := slot] && t.pool == s.t.pool
    requires slot.buffer == s.t.slots[i].buffer && slot.frame == s.t.slots[i].frame
    ensures Conserved(s.(t := t))
  {
    forall b: Id ensures Balanced(s.(t := t), b) {
      assert Balanced(s, b);
      SlotStep(s, s.(t := t), i, b);
    }
  }

  lemma NeutralStep(s: State, e: Step)
    requires Conserved(s) && (e.TakeSlot? || e.Hold? || e.QueueSlot?)
    ensures Conserved(Take(s, e))
  {
    var i := if e.TakeSlot? then FirstUnused(s.t.slots, 0) else e.i;
    if i < |s.t.slots| {
      var t := Take(s, e).t;
      BitsStep(s, t, i, t.slots[i]);
    }
  }

  /** A frame copied over one that has a buffer leaks that buffer's reference. */
  lemma DescribeStep(s: State, i: nat)
    requires Conserved(s)
    ensures Conserved(Take(s, Describe(i))) <==> Disciplined(s, Describe(i))
  {
    var s' := Take(s, Describe(i));
    if i < |s.t.slots| {
      forall b: Id ensures Balanced(s', b) <==> FrameBuffer(s.t.slots[i]) != Some(b) {
        SlotStep(s, s', i, b);
      }
      var o := FrameBuffer(s.t.slots[i]);
      if o.Some? {
        assert !Balanced(s', Named(o));
      }
    }
  }

  /** A buffer got had no owner, and the hand is its only one. */
  lemma GetStep(s: State, size: nat)
    requires Conserved(s)
    ensures Conserved(Get(s, size))
  {
    if s.hand.None? {
      GetUnusedInv(s.t.pool, size);
      forall b: Id ensures Balanced(Get(s, size), b) {
        assert Balanced(s, b);
        UnusedRefs(s.t.pool, size, b);
      }
    }
  }

  lemma MakeRefs(p: Pool, size: nat, x: Id)
    requires Inv(p)
    ensures var (r, p') := Create(p, size, true);
            && Refs(p', x) == (if r == Some(x) then 1 else Refs(p, x)) && (r == Some(x) ==> Refs(p, x) == 0)
  {
  }

  lemma MakeStep(s: State, size: nat)
    requires Conserved(s)
    ensures Conserved(Make(s, size))
  {
    if s.hand.None? {
      CreateInv(s.t.pool, size, true);
      forall b: Id ensures Balanced(Make(s, size), b) {
        assert Balanced(s, b);
        MakeRefs(s.t.pool, size, b);
      }
    }
  }

  /** Filling a slot: one reference each for the slot, its frame and the display to come, the
      last being the one in hand. */
  lemma AttachBalance(s: State, i: nat, x: Id, b: Id)
    requires i < |s.t.slots| && s.t.slots[i].buffer.None? && Balanced(s, b) && Balanced(s, x) && Inv(s.t.pool)
    requires s.hand == Some(x)
    ensures Inv(AttachTo(s, i).t.pool) && Balanced(AttachTo(s, i), b)
  {
    var s' := AttachTo(s, i);
    HeldUpdate(s.t.slots, s.extra, i, s'.t.slots[i], s'.extra, b);
    FillRefs(s.t, i, x, b);
  }

  lemma AttachStep(s: State, i: nat)
    requires Conserved(s)
    ensures Conserved(AttachTo(s, i))
    ensures s.hand.Some? && i < |s.t.slots| && s.t.slots[i].buffer.None? ==> Owes(AttachTo(s, i), i) == s.hand
  {
    if s.hand.Some? && i < |s.t.slots| && s.t.slots[i].buffer.None? {
      forall b: Id ensures Inv(AttachTo(s, i).t.pool) && Balanced(AttachTo(s, i), b) {
        assert Balanced(s, b) && Balanced(s, Named(s.hand));
        AttachBalance(s, i, Named(s.hand), b);
      }
      assert Balanced(AttachTo(s, i), 0);
    }
  }

  /** What set_prop(SLOT_BUFFER) does to the counts, for a slot without a buffer. */
  lemma FillRefs(t: Table, i: nat, b: Id, x: Id)
    requires Inv(t.pool) && b in t.pool.bufs && i < |t.slots| && t.slots[i].buffer.None?
    requires Refs(t.pool, x) >= One(FrameBuffer(t.slots[i]), x)
    ensures Inv(SetBuffer(t, i, b).pool)
    ensures Refs(SetBuffer(t, i, b).pool, x) ==
              Refs(t.pool, x) + One(Some(b), x) + (if t.slots[i].frame.Some? then One(Some(b), x) else 0)
              - One(FrameBuffer(t.slots[i]), x)
  {
    IncRefs(t.pool, b, x);
    if t.slots[i].frame.Some? {
      var p := IncRef(t.pool, b);
      IncRefs(p, b, x);
      PutRefs(IncRef(p, b), FrameBuffer(t.slots[i]), x);
    }
  }

  /** A slot leaves the display queue: the filling reference must be what its frame carries,
      or, on a reset, what the slot carries. */
  function Gone(s: Slot, e: Step): Option<Id> { if e.DropReset? then s.buffer else FrameBuffer(s) }

  lemma DeliverBalance(s: State, b: Id)
    requires Conserved(s) && Dequeue(s.t).0.Some?
    ensures var i := Dequeue(s.t).0.value;
            Balanced(Leave(s, ToUser), b) <==> One(FrameBuffer(s.t.slots[i]), b) == One(Owes(s, i), b)
  {
    assert Balanced(s, b);
    SlotStep(s, Leave(s, ToUser), s.t.queue[0], b);
  }

  lemma DropBalance(s: State, e: Step, b: Id)
    requires Balanced(s, b) && (e.DropDisplay? || e.DropReset?) && Dequeue(s.t).0.Some?
    requires var gone := Gone(s.t.slots[Dequeue(s.t).0.value], e);
             Refs(Put(s.t.pool, gone), b) == if gone == Some(b) && Refs(s.t.pool, b) > 0 then Refs(s.t.pool, b) - 1 else Refs(s.t.pool, b)
    ensures var i := Dequeue(s.t).0.value;
            Balanced(Take(s, e), b) <==> One(Gone(s.t.slots[i], e), b) == One(Owes(s, i), b)
  {
    var s', i := Take(s, e), s.t.queue[0];
    SlotStep(s, s', i, b);
    assert s'.t.pool == Put(s.t.pool, Gone(s.t.slots[i], e));
  }

  lemma LeaveOne(s: State, e: Step, b: Id)
    requires Conserved(s) && (e.Deliver? || e.DropDisplay? || e.DropReset?) && Dequeue(s.t).0.Some?
    ensures var i := Dequeue(s.t).0.value;
            Balanced(Take(s, e), b) <==> One(Gone(s.t.slots[i], e), b) == One(Owes(s, i), b)
  {
    if e.Deliver? {
      DeliverBalance(s, b);
    } else {
      PutRefs(s.t.pool, Gone(s.t.slots[Dequeue(s.t).0.value], e), b);
      assert Balanced(s, b);
      DropBalance(s, e, b);
    }
  }

  lemma LeavePool(s: State, e: Step)
    requires Inv(s.t.pool) && (e.Deliver? || e.DropDisplay? || e.DropReset?)
    ensures Inv(Take(s, e).t.pool)
  {
    var r := Dequeue(s.t).0;
    if r.Some? {
      PutRefs(s.t.pool, Gone(s.t.slots[r.value], e), 0);
    }
  }

  lemma LeaveStep(s: State, e: Step)
    requires Conserved(s) && (e.Deliver? || e.DropDisplay? || e.DropReset?)
    ensures Conserved(Take(s, e)) <==> Disciplined(s, e)
  {
    LeavePool(s, e);
    var r := Dequeue(s.t).0;
    if r.Some? {
      var gone, owed := Gone(s.t.slots[r.value], e), Owes(s, r.value);
      forall b: Id ensures Balanced(Take(s, e), b) <==> One(gone, b) == One(owed, b) {
        LeaveOne(s, e, b);
      }
      if gone != owed {
        assert !Balanced(Take(s, e), if gone.Some? then Named(gone) else Named(owed));
      }
    }
  }

  /** A release drops the slot's and its frame's references; one still pending leaks. */
  lemma ReleaseBalance(s: State, i: nat, slot: Slot, p: Pool, b: Id)
    requires i < |s.t.slots| && Balanced(s, b) && slot.frame.None? && slot.buffer.None?
    requires var n := One(FrameBuffer(s.t.slots[i]), b) + One(s.t.slots[i].buffer, b);
             Refs(s.t.pool, b) >= n ==> Refs(p, b) == Refs(s.t.pool, b) - n
    ensures Balanced(s.(t := Table(s.t.slots[i := slot], s.t.queue, p)), b) <==> Owes(s, i) != Some(b)
  {
    HeldUpdate(s.t.slots, s.extra, i, slot, s.extra, b);
  }

  /** What clearing a flag leaves in entry i and in the pool. */
  lemma ClearedTable(t: Table, i: nat, f: Flag)
    requires i < |t.slots|
    ensures var slot := ClrBits(t.slots[i], f);
            var was := t.slots[i];
            ClrFlag(t, i, f) ==
            if Releasable(slot)
            then Table(t.slots[i := slot.(onUsed := false, frame := None, buffer := None)], t.queue,
                       Put(Put(t.pool, FrameBuffer(was)), was.buffer))
            else t.(slots := t.slots[i := slot])
  {
    var slot := ClrBits(t.slots[i], f);
    var slots := t.slots[i := slot];
    assert slots[i := slot.(onUsed := false, frame := None, buffer := None)]
        == t.slots[i := slot.(onUsed := false, frame := None, buffer := None)];
  }

  lemma LetGoStep(s: State, i: nat, f: Flag)
    requires Conserved(s)
    ensures Conserved(Take(s, LetGo(i, f))) <==> Disciplined(s, LetGo(i, f))
  {
    if i < |s.t.slots| {
      ClearedTable(s.t, i, f);
      var slot := ClrBits(s.t.slots[i], f);
      if Releasable(slot) {
        ReleaseStep(s, i, slot.(onUsed := false, frame := None, buffer := None));
      } else {
        BitsStep(s, s.t.(slots := s.t.slots[i := slot]), i, slot);
      }
    }
  }

  lemma ReleaseStep(s: State, i: nat, slot: Slot)
    requires Conserved(s) && i < |s.t.slots| && slot.frame.None? && slot.buffer.None?
    ensures var was := s.t.slots[i];
            var p := Put(Put(s.t.pool, FrameBuffer(was)), was.buffer);
            Conserved(s.(t := Table(s.t.slots[i := slot], s.t.queue, p))) <==> Owes(s, i).None?
  {
    var was := s.t.slots[i];
    var p := Put(Put(s.t.pool, FrameBuffer(was)), was.buffer);
    var s' := s.(t := Table(s.t.slots[i := slot], s.t.queue, p));
    PutTwice(s.t.pool, FrameBuffer(was), was.buffer, 0);
    forall b: Id ensures Balanced(s', b) <==> Owes(s, i) != Some(b) {
      ReleaseOne(s, i, slot, b);
    }
    assert Balanced(s', Named(Owes(s, i))) || !Balanced(s', Named(Owes(s, i)));
  }

  lemma ReleaseOne(s: State, i: nat, slot: Slot, b: Id)
    requires Inv(s.t.pool) && Balanced(s, b) && i < |s.t.slots| && slot.frame.None? && slot.buffer.None?
    ensures var was := s.t.slots[i];
            var p := Put(Put(s.t.pool, FrameBuffer(was)), was.buffer);
            Balanced(s.(t := Table(s.t.slots[i := slot], s.t.queue, p)), b) <==> Owes(s, i) != Some(b)
  {
    var was := s.t.slots[i];
    var p := Put(Put(s.t.pool, FrameBuffer(was)), was.buffer);
    PutTwice(s.t.pool, FrameBuffer(was), was.buffer, b);
    ReleaseBalance(s, i, slot, p, b);
  }

  lemma FreeStep(s: State, b: Id)
    requires Conserved(s)
    ensures Conserved(Free(s, b))
  {
    assert Balanced(s, b);
    DecRefs(s.t.pool, b, b);
    forall x: Id ensures Balanced(Free(s, b), x) {
      assert Balanced(s, x);
      DecRefs(s.t.pool, b, x);
    }
  }

  /** Clearing the group changes nobody's count. */
  lemma ClearStep(s: State)
    requires Conserved(s)
    ensures Conserved(Take(s, ClearGroup))
  {
    ResetInv(s.t.pool);
    var p := Reset(s.t.pool);
    forall x: Id ensures Balanced(Take(s, ClearGroup), x) {
      assert Balanced(s, x);
      if x !in p.bufs && x in s.t.pool.bufs {
        assert x !in p.listUsed;
      }
    }
  }

  /** The books stay balanced exactly as long as the decoder keeps its discipline. */
  lemma StepConserves(s: State, e: Step)
    requires Conserved(s)
    ensures Conserved(Take(s, e)) <==> Disciplined(s, e)
  {
    match e
    case Describe(i) => DescribeStep(s, i);
    case GetUnusedBuffer(size) => GetStep(s, size);
    case MakeBuffer(size) => MakeStep(s, size);
    case Attach(i) => AttachStep(s, i);
    case LetGo(i, f) => LetGoStep(s, i, f);
    case UserFrees(b) => FreeStep(s, b);
    case ClearGroup => ClearStep(s);
    case Deliver => LeaveStep(s, e);
    case DropDisplay => LeaveStep(s, e);
    case DropReset => LeaveStep(s, e);
    case _ => NeutralStep(s, e);
  }

  // ---- whole runs --------------------------------------------------------------------------

  ghost predicate Initial(s: State) {
    && Inv(s.t.pool) && s.outputs == multiset{} && s.extra == {} && s.hand.None?
    && (forall b :: Refs(s.t.pool, b) == 0)
    && (forall i :: 0 <= i < |s.t.slots| ==> s.t.slots[i] == UNUSED)
  }

  ghost predicate IsRun(run: seq<State>, steps: seq<Step>) {
    && |run| == |steps| + 1 && Initial(run[0])
    && forall i :: 0 <= i < |steps| ==> Disciplined(run[i], steps[i]) && run[i + 1] == Take(run[i], steps[i])
  }

  lemma {:induction false} NothingHeld(slots: seq<Slot>, extra: set<nat>, b: Id)
    ensures Held(slots, extra, b) == 0 <==>
              forall i :: 0 <= i < |slots| ==> slots[i].buffer != Some(b) && FrameBuffer(slots[i]) != Some(b)
  {
    if slots != [] {
      NothingHeld(slots[..|slots| - 1], extra, b);
    }
  }

  lemma {:induction false} RunConserves(run: seq<State>, steps: seq<Step>, at: nat)
    requires IsRun(run, steps) && at < |run|
    ensures Conserved(run[at])
  {
    if at == 0 {
      var s := run[0];
      forall b: Id ensures Balanced(s, b) {
        NothingHeld(s.t.slots, s.extra, b);
      }
    } else {
      RunConserves(run, steps, at - 1);
      StepConserves(run[at - 1], steps[at - 1]);
      assert run[at] == Take(run[at - 1], steps[at - 1]);
    }
  }

  /** A buffer's count is zero exactly when no slot has it, no slot's frame has it, and the
      user owns no frame with it; while anyone has it, it cannot be handed out again. */
  lemma ZeroIffUnowned(run: seq<State>, steps: seq<Step>, at: nat, b: Id, size: nat)
    requires IsRun(run, steps) && at < |run|
    ensures var s := run[at];
            Refs(s.t.pool, b) == 0 <==>
              (forall i :: 0 <= i < |s.t.slots| ==>
                 s.t.slots[i].buffer != Some(b) && FrameBuffer(s.t.slots[i]) != Some(b))
              && b !in s.outputs && s.hand != Some(b)
    ensures Refs(run[at].t.pool, b) > 0 ==>
              GetUnused(run[at].t.pool, size).0 != Some(b) && Create(run[at].t.pool, size, true).0 != Some(b)
  {
    RunConserves(run, steps, at);
    var s := run[at];
    assert Balanced(s, b);
    NothingHeld(s.t.slots, s.extra, b);
    UnusedRefs(s.t.pool, size, b);
    MakeRefs(s.t.pool, size, b);
  }

  // ---- runs that leak ------------------------------------------------------------------------

  ghost predicate Reached(s: State) { exists run: seq<State>, steps: seq<Step> :: IsRun(run, steps) && run[|run| - 1] == s }

  lemma StartReached(s: State)
    requires Initial(s)
    ensures Reached(s)
  {
    var run: seq<State>, steps: seq<Step> := [s], [];
    assert IsRun(run, steps);
  }

  lemma NextReached(s: State, e: Step)
    requires Reached(s) && Disciplined(s, e)
    ensures Reached(Take(s, e))
  {
    var run: seq<State>, steps: seq<Step> :| IsRun(run, steps) && run[|run| - 1] == s;
    var run', steps' := run + [Take(s, e)], steps + [e];
    forall i | 0 <= i < |steps'| ensures Disciplined(run'[i], steps'[i]) && run'[i + 1] == Take(run'[i], steps'[i]) {
      if i < |steps| {
        assert run'[i] == run[i] && run'[i + 1] == run[i + 1] && steps'[i] == steps[i];
      }
    }
    assert IsRun(run', steps') && run'[|run'| - 1] == Take(s, e);
  }

  /** The state after e, on a run if e is disciplined, with a first slot like this. */
  ghost predicate Came(s: State, slot: Slot) { Reached(s) && s.t.slots != [] && s.t.slots[0] == slot }

  const FIRST := UNUSED.(onUsed := true, notReady := true)

  lemma TakeFirst(s: State) returns (s': State)
    requires Initial(s) && s.t.slots != []
    ensures Came(s', FIRST) && s'.t.pool == s.t.pool && s'.hand.None? && s'.extra == {}
  {
    StartReached(s);
    NextReached(s, TakeSlot);
    s' := Take(s, TakeSlot);
    assert s.t.slots[0] == UNUSED;
  }

  lemma DescribeFirst(s: State) returns (s': State)
    requires Came(s, FIRST)
    ensures Came(s', FIRST.(frame := Some(Frame(None)))) && s'.t.pool == s.t.pool && s'.hand == s.hand && s'.extra == s.extra
  {
    NextReached(s, Describe(0));
    s' := Take(s, Describe(0));
  }

  lemma MakeFirst(s: State, size: nat, slot: Slot) returns (s': State)
    requires Came(s, slot) && s.hand.None? && !Refused(s.t.pool, size)
    ensures Came(s', slot) && s'.hand.Some? && s'.extra == s.extra
  {
    NextReached(s, MakeBuffer(size));
    s' := Take(s, MakeBuffer(size));
  }

  lemma AttachFirst(s: State) returns (s': State)
    requires Came(s, FIRST.(frame := Some(Frame(None)))) && s.hand.Some?
    ensures Came(s', FIRST.(frame := Some(Frame(s.hand)), buffer := s.hand)) && 0 in s'.extra
  {
    NextReached(s, Attach(0));
    s' := Take(s, Attach(0));
  }

  lemma HoldFirst(s: State, f: Flag, slot: Slot) returns (s': State)
    requires Came(s, slot)
    ensures Came(s', SetBits(slot, f)) && s'.extra == s.extra
  {
    NextReached(s, Hold(0, f));
    s' := Take(s, Hold(0, f));
  }

  /** A slot taken, described and filled. */
  lemma FilledSlot(s: State, size: nat) returns (s': State, b: Option<Id>)
    requires Initial(s) && s.t.slots != [] && !Refused(s.t.pool, size)
    ensures b.Some? && Came(s', FIRST.(frame := Some(Frame(b)), buffer := b)) && 0 in s'.extra
  {
    var s1 := TakeFirst(s);
    var s2 := DescribeFirst(s1);
    var s3 := MakeFirst(s2, size, s2.t.slots[0]);
    s' := AttachFirst(s3);
    b := s3.hand;
  }

  /** Describing a filled slot again leaves a reference nobody owns ... */
  lemma DescribeLeak(s: State, size: nat) returns (s': State)
    requires Initial(s) && s.t.slots != [] && !Refused(s.t.pool, size)
    ensures Reached(s') && Conserved(s') && !Conserved(Take(s', Describe(0)))
  {
    var b;
    s', b := FilledSlot(s, size);
    ReachedConserves(s');
    DescribeStep(s', 0);
  }

  lemma ReachedConserves(s: State)
    requires Reached(s)
    ensures Conserved(s)
  {
    var run: seq<State>, steps: seq<Step> :| IsRun(run, steps) && run[|run| - 1] == s;
    RunConserves(run, steps, |run| - 1);
  }

  /** ... and so does releasing it before it was displayed. */
  lemma ReleaseLeak(s: State, size: nat) returns (s': State)
    requires Initial(s) && s.t.slots != [] && !Refused(s.t.pool, size)
    ensures Reached(s') && Conserved(s') && !Conserved(Take(s', LetGo(0, CodecUse)))
  {
    var s1, b := FilledSlot(s, size);
    var s2 := HoldFirst(s1, CodecReady, s1.t.slots[0]);
    s' := HoldFirst(s2, CodecUse, s2.t.slots[0]);
    ReachedConserves(s');
    LetGoStep(s', 0, CodecUse);
  }
}
