/** The buffer slots shared by parser, hardware layer and display
    (mpp/base/mpp_buf_slot.cpp), with the references they take on buffers
    (mpp/base/mpp_frame.cpp): holder bits and counters, the display queue, and the
    release of a slot nobody holds. The slot count is fixed. */
module Slots {
  import opened Wrappers
  import opened Lists
  import opened BufferPool

  /** An MppFrame, as far as its buffer reference is concerned. */
  datatype Frame = Frame(buffer: Option<Id>)

  datatype Slot = Slot(
    onUsed: bool, notReady: bool, codecUse: bool, halOutput: bool,
    halUse: nat, queueUse: nat,           // 8 and 5 bits wide
    frame: Option<Frame>, buffer: Option<Id>)

  const UNUSED := Slot(false, false, false, false, 0, 0, None, None)

  datatype Flag = CodecReady | CodecUse | HalInput | HalOutput | QueueUse

  datatype Table = Table(slots: seq<Slot>, queue: seq<nat>, pool: Pool)

  // ---- one slot (slot_ops_with_log) --------------------------------------------------

  function SetBits(s: Slot, f: Flag): Slot {
    match f
    case CodecReady => s.(notReady := false)
    case CodecUse => s.(codecUse := true)
    case HalInput => s.(halUse := (s.halUse + 1) % 256)
    case HalOutput => s.(halOutput := true, notReady := true)
    case QueueUse => s.(queueUse := (s.queueUse + 1) % 32)
  }

  /** A counter at zero is reported and left alone. */
  function ClrBits(s: Slot, f: Flag): Slot {
    match f
    case CodecReady => s.(notReady := true)
    case CodecUse => s.(codecUse := false)
    case HalInput => if s.halUse > 0 then s.(halUse := s.halUse - 1) else s
    case HalOutput => s.(halOutput := false, notReady := false)
    case QueueUse => if s.queueUse > 0 then s.(queueUse := s.queueUse - 1) else s
  }

  /** check_entry_unused: in use, filled, and held by nobody. */
  predicate Releasable(s: Slot) {
    s.onUsed && !s.notReady && !s.codecUse && !s.halOutput && s.halUse == 0 && s.queueUse == 0
  }

  function Put(p: Pool, b: Option<Id>): Pool { if b.Some? then DecRef(p, b.value) else p }

  function FrameBuffer(s: Slot): Option<Id> { if s.frame.Some? then s.frame.value.buffer else None }

  // ---- the table -----------------------------------------------------------------------

  /** check_entry_unused on entry i: the slot's frame and then its own reference go. */
  function Settle(t: Table, i: nat): Table {
    if i >= |t.slots| || !Releasable(t.slots[i]) then t
    else
      var s := t.slots[i];
      Table(t.slots[i := s.(onUsed := false, frame := None, buffer := None)], t.queue,
            Put(Put(t.pool, FrameBuffer(s)), s.buffer))
  }

  function SetFlag(t: Table, i: nat, f: Flag): Table {
    if i >= |t.slots| then t else t.(slots := t.slots[i := SetBits(t.slots[i], f)])
  }

  function ClrFlag(t: Table, i: nat, f: Flag): Table {
    if i >= |t.slots| then t else Settle(t.(slots := t.slots[i := ClrBits(t.slots[i], f)]), i)
  }

  /** The first slot not in use, from i on. */
  function FirstUnused(slots: seq<Slot>, i: nat): (k: nat)
    requires i <= |slots|
    ensures i <= k <= |slots|
    ensures forall j :: i <= j < k ==> slots[j].onUsed
    ensures k < |slots| ==> !slots[k].onUsed
    decreases |slots| - i
  {
    if i == |slots| || !slots[i].onUsed then i else FirstUnused(slots, i + 1)
  }

  function Acquire(t: Table): (Option<nat>, Table) {
    var k := FirstUnused(t.slots, 0);
    if k == |t.slots| then (None, t)
    else (Some(k), t.(slots := t.slots[k := t.slots[k].(onUsed := true, notReady := true)]))
  }

  function Enqueue(t: Table, i: nat): Table {
    if i >= |t.slots| then t
    else t.(slots := t.slots[i := SetBits(t.slots[i], QueueUse)], queue := Without(t.queue, i) + [i])
  }

  /** The head of the display queue, once it is filled. */
  function Dequeue(t: Table): (Option<nat>, Table) {
    if t.queue == [] || t.queue[0] >= |t.slots| || t.slots[t.queue[0]].notReady then (None, t)
    else
      var i := t.queue[0];
      (Some(i), t.(slots := t.slots[i := ClrBits(t.slots[i], QueueUse)], queue := t.queue[1..]))
  }

  /** set_prop(SLOT_FRAME): the parser's frame, which carries no buffer, is copied over. */
  function SetFrame(t: Table, i: nat): Table {
    if i >= |t.slots| then t else t.(slots := t.slots[i := t.slots[i].(frame := Some(Frame(None)))])
  }

  /** set_prop(SLOT_BUFFER): the slot takes a reference, and so does its frame. */
  function SetBuffer(t: Table, i: nat, b: Id): Table {
    if i >= |t.slots| then t
    else
      var s := t.slots[i];
      var p := IncRef(Put(t.pool, s.buffer), b);
      var retarget := s.frame.Some? && s.frame.value.buffer != Some(b);
      var p' := if retarget then Put(IncRef(p, b), s.frame.value.buffer) else p;
      var frame := if s.frame.Some? then Some(Frame(Some(b))) else None;
      Table(t.slots[i := s.(buffer := Some(b), frame := frame)], t.queue, p')
  }

  // ---- the mutable table -----------------------------------------------------------------

  class SlotTable {
    var slots: seq<Slot>
    var queue: seq<nat>
    const pool: BufferGroup

    ghost function Value(): Table
      reads this, pool
    {
      Table(slots, queue, pool.Value())
    }

    constructor (count: nat, pool: BufferGroup)
      ensures Value() == Table(seq(count, _ => UNUSED), [], pool.Value())
    {
      slots := seq(count, _ => UNUSED);
      queue := [];
      this.pool := pool;
    }

    /** The search for a free slot; -1 in the source is None here, where the source aborts. */
    method GetUnused() returns (index: Option<nat>)
      modifies this
      ensures (index, Value()) == Acquire(old(Value()))
    {
      var i := 0;
      while i < |slots|
        invariant 0 <= i <= |slots| && FirstUnused(slots, 0) == FirstUnused(slots, i)
      {
        if !slots[i].onUsed {
          assert FirstUnused(slots, 0) == i;
          var s := slots[i].(onUsed := true);
          slots := slots[i := s.(notReady := true)];
          return Some(i);
        }
        i := i + 1;
      }
      index := None;
    }

    method Set(i: nat, f: Flag)
      requires i < |slots|
      modifies this
      ensures Value() == SetFlag(old(Value()), i, f)
    {
      slots := slots[i := SetBits(slots[i], f)];
    }

    method Clear(i: nat, f: Flag)
      requires i < |slots|
      modifies this, pool
      ensures Value() == ClrFlag(old(Value()), i, f)
    {
      slots := slots[i := ClrBits(slots[i], f)];
      CheckUnused(i);
    }

    method CheckUnused(i: nat)
      requires i < |slots|
      modifies this, pool
      ensures Value() == Settle(old(Value()), i)
    {
      if Releasable(slots[i]) {
        var s := slots[i];
        if s.frame.Some? {
          PutBuffer(s.frame.value.buffer);
          s := s.(frame := None);
        }
        if s.buffer.Some? {
          PutBuffer(s.buffer);
          s := s.(buffer := None);
        }
        slots := slots[i := s.(onUsed := false)];
      }
    }

    method PutBuffer(b: Option<Id>)
      modifies pool
      ensures pool.Value() == Put(old(pool.Value()), b)
    {
      if b.Some? && b.value in pool.bufs {
        pool.RefDec(b.value);
      }
    }

    method EnqueueDisplay(i: nat)
      requires i < |slots|
      modifies this
      ensures Value() == Enqueue(old(Value()), i)
    {
      slots := slots[i := SetBits(slots[i], QueueUse)];
      queue := Without(queue, i) + [i];
    }

    method DequeueDisplay() returns (index: Option<nat>)
      requires forall i :: i in queue ==> i < |slots|
      modifies this
      ensures (index, Value()) == Dequeue(old(Value()))
    {
      if queue == [] {
        return None;
      }
      var i := queue[0];
      assert i in queue;
      if slots[i].notReady {
        return None;
      }
      queue := queue[1..];
      slots := slots[i := ClrBits(slots[i], QueueUse)];
      index := Some(i);
    }

    method SetFrameProp(i: nat)
      requires i < |slots|
      modifies this
      ensures Value() == SetFrame(old(Value()), i)
    {
      slots := slots[i := slots[i].(frame := Some(Frame(None)))];
    }

    method SetBufferProp(i: nat, b: Id)
      requires i < |slots| && b in pool.bufs
      modifies this, pool
      ensures Value() == SetBuffer(old(Value()), i, b)
    {
      var s := slots[i];
      PutBuffer(s.buffer);
      IncBuffer(b);
      s := s.(buffer := Some(b));
      if s.frame.Some? {
        if s.frame.value.buffer != Some(b) {
          IncBuffer(b);
          PutBuffer(s.frame.value.buffer);
        }
        s := s.(frame := Some(Frame(Some(b))));
      }
      slots := slots[i := s];
    }

    method IncBuffer(b: Id)
      modifies pool
      ensures pool.Value() == IncRef(old(pool.Value()), b)
    {
      if b in pool.bufs {
        pool.RefInc(b);
      }
    }
  }
}
