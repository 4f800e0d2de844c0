/** Who holds which packet slot, and the references on packet buffers, while both threads
    run (mpp/codec/mpp_dec.cpp over mpp/base/mpp_buf_slot.cpp and
    mpp/base/mpp_buffer_impl.cpp): a slot in use belongs to the parser or to exactly one
    frame in processing. */
module DecoderSlots {
  import opened Wrappers
  import opened Lists
  import opened BufferPool
  import opened Slots
  import opened HalTask
  import opened Decoder
  import opened DecoderTasks
  import FrameRefs

  /** A slot as the search hands it out. */
  const TAKEN := UNUSED.(onUsed := true, notReady := true)

  /** A slot with a packet the hardware is to read: one holder, a buffer, no frame. */
  predicate Full(s: Slot) { s.buffer.Some? && s == TAKEN.(notReady := false, halUse := 1, buffer := s.buffer) }

  // ---- ownership -------------------------------------------------------------------------

  /** The slot a frame in processing holds, until the hardware thread has cleared it. */
  function CargoAt(st: Status, info: Info, t: nat, h: HalPc): Option<nat> {
    if st == Processing && Real(info) && h != HDone(t) then info.input else None
  }

  function Cargo(status: seq<Status>, infos: seq<Info>, h: HalPc): (c: seq<Option<nat>>)
    ensures |c| == |status|
    ensures forall t :: 0 <= t < |status| ==> c[t] == CargoAt(status[t], InfoOf(infos, t), t, h)
  {
    seq(|status|, t requires 0 <= t < |status| => CargoAt(status[t], InfoOf(infos, t), t, h))
  }

  ghost predicate Owned(slots: seq<Slot>, input: Option<nat>, cargo: seq<Option<nat>>) {
    && (forall i: nat :: i < |slots| && slots[i].onUsed ==> input == Some(i) || Some(i) in cargo)
    && (forall i: nat :: i < |slots| && !slots[i].onUsed ==> slots[i] == UNUSED)
    && (input.Some? ==> input.value < |slots| && slots[input.value].onUsed)
    && (forall t: nat :: t < |cargo| && cargo[t].Some? ==>
          cargo[t].value < |slots| && Full(slots[cargo[t].value]) && cargo[t] != input)
    && (forall t: nat, t': nat :: t < t' < |cargo| && cargo[t].Some? ==> cargo[t] != cargo[t'])
  }

  /** A task carries at most one slot, and one task carries none: some slot is not carried. */
  lemma Spare(cargo: seq<Option<nat>>, hnd: nat) returns (i: nat)
    requires 2 <= |cargo| <= 3 && hnd < |cargo| && cargo[hnd].None?
    ensures i < |cargo| && Some(i) !in cargo
  {
    i := if Some(0) !in cargo then 0 else if |cargo| == 2 || Some(1) !in cargo then 1 else 2;
  }

  /** Some slot is carried by nobody. */
  ghost predicate Roomy(slots: seq<Slot>, cargo: seq<Option<nat>>) { exists i: nat :: i < |slots| && Some(i) !in cargo }

  lemma RoomIsFree(slots: seq<Slot>, cargo: seq<Option<nat>>)
    requires Owned(slots, None, cargo) && Roomy(slots, cargo)
    ensures FirstUnused(slots, 0) < |slots|
  {
    var i: nat :| i < |slots| && Some(i) !in cargo;
    assert !slots[i].onUsed;
  }

  /** With a task in hand that carries nothing there is room: there are as many slots as tasks. */
  lemma TasksLeaveRoom(slots: seq<Slot>, cargo: seq<Option<nat>>, hnd: nat)
    requires 2 <= |slots| <= 3 && |cargo| == |slots| && hnd < |cargo| && cargo[hnd].None?
    ensures Roomy(slots, cargo)
  {
    var i := Spare(cargo, hnd);
  }

  /** So, with no slot of its own, the parser finds one free. */
  lemma FreeSlot(slots: seq<Slot>, cargo: seq<Option<nat>>, hnd: nat)
    requires Owned(slots, None, cargo) && 2 <= |slots| <= 3 && |cargo| == |slots|
    requires hnd < |cargo| && cargo[hnd].None?
    ensures FirstUnused(slots, 0) < |slots|
  {
    TasksLeaveRoom(slots, cargo, hnd);
    RoomIsFree(slots, cargo);
  }

  lemma OwnTaken(slots: seq<Slot>, cargo: seq<Option<nat>>, k: nat)
    requires Owned(slots, None, cargo) && k < |slots| && !slots[k].onUsed
    ensures slots[k] == UNUSED && Owned(slots[k := TAKEN], Some(k), cargo)
  {
  }

  lemma OwnEdit(slots: seq<Slot>, i: nat, cargo: seq<Option<nat>>, s: Slot)
    requires Owned(slots, Some(i), cargo) && s.onUsed
    ensures Owned(slots[i := s], Some(i), cargo)
  {
  }

  lemma OwnPublish(slots: seq<Slot>, i: nat, cargo: seq<Option<nat>>, t: nat)
    requires Owned(slots, Some(i), cargo) && Full(slots[i]) && t < |cargo| && cargo[t].None?
    ensures Owned(slots, None, cargo[t := Some(i)])
  {
    var cargo' := cargo[t := Some(i)];
    forall k: nat | k < |slots| && slots[k].onUsed ensures Some(k) in cargo' {
      if k != i {
        var u :| 0 <= u < |cargo| && cargo[u] == Some(k);
        assert cargo'[u] == Some(k);
      } else {
        assert cargo'[t] == Some(k);
      }
    }
  }

  /** A slot nobody will give back. */
  lemma OwnSpill(slots: seq<Slot>, i: nat, cargo: seq<Option<nat>>)
    requires Owned(slots, Some(i), cargo) && Full(slots[i])
    ensures Owned(slots, None, cargo + [Some(i)])
  {
    var cargo' := cargo + [Some(i)];
    forall k: nat | k < |slots| && slots[k].onUsed ensures Some(k) in cargo' {
      if k != i {
        assert Some(k) in cargo;
      } else {
        assert cargo'[|cargo|] == Some(k);
      }
    }
  }

  lemma OwnDrop(slots: seq<Slot>, i: nat, cargo: seq<Option<nat>>)
    requires Owned(slots, Some(i), cargo)
    ensures Owned(slots[i := UNUSED], None, cargo)
  {
  }

  lemma OwnFinish(slots: seq<Slot>, input: Option<nat>, cargo: seq<Option<nat>>, t: nat)
    requires Owned(slots, input, cargo) && t < |cargo| && cargo[t].Some?
    ensures cargo[t].value < |slots| && Owned(slots[cargo[t].value := UNUSED], input, cargo[t := None])
  {
    var i := cargo[t].value;
    var slots', cargo' := slots[i := UNUSED], cargo[t := None];
    forall k: nat | k < |slots'| && slots'[k].onUsed ensures input == Some(k) || Some(k) in cargo' {
      if input != Some(k) {
        var u :| 0 <= u < |cargo| && cargo[u] == Some(k);
        assert cargo'[u] == Some(k);
      }
    }
  }

  // ---- the parser's slot ---------------------------------------------------------------------

  predicate ParserSlot(p: Parser, s: Slot) {
    if p.copyRdy then Full(s)
    else if p.pc.AtPktBuf? || p.pc.AtBufGet? || p.pc.AtBufMake? || p.pc.AtBufSet? then s == TAKEN
    else if p.pc.AtBufPut? || p.pc.AtCopy? then s.buffer.Some? && s == TAKEN.(buffer := s.buffer)
    else p.pc.AtCopied? && s.buffer.Some? && s == TAKEN.(buffer := s.buffer, notReady := false)
  }

  ghost predicate SlotsOk(slots: seq<Slot>, p: Parser, cargo: seq<Option<nat>>) {
    && Owned(slots, p.info.input, cargo)
    && (p.info.input.Some? ==> ParserSlot(p, slots[p.info.input.value]))
  }

  // ---- the buffers ---------------------------------------------------------------------------

  /** The reference the parser holds between getting a buffer and giving it to the slot. */
  function Loose(pc: Pc): multiset<Id> {
    match pc
    case AtBufSet(b) => multiset{b}
    case AtBufPut(b) => multiset{b}
    case _ => multiset{}
  }

  function Books(t: Table, pc: Pc): FrameRefs.State { FrameRefs.State(t, {}, Loose(pc), None) }

  predicate Config(p: Pool) { p.internal && !p.misc && p.limitCount == 3 && p.limitSize == 0 }

  /** References on packet buffers are those of the slots and of the parser; once the search for
      an unused buffer has failed, at most two buffers exist. */
  ghost predicate PoolOk(t: Table, pc: Pc) {
    FrameRefs.Conserved(Books(t, pc)) && Config(t.pool) && (pc.AtBufMake? ==> t.pool.bufferCount <= 2)
  }

  /** Distinct buffers sit in distinct slots, and the parser's slot has none yet. */
  lemma UsedBound(slots: seq<Slot>, skip: nat, list: seq<Id>)
    requires |slots| <= 3 && skip < |slots| && slots[skip].buffer.None? && Distinct(list)
    requires forall b :: b in list ==> exists i: nat :: i < |slots| && slots[i].buffer == Some(b)
    ensures |list| <= 2
  {
    if |list| >= 3 {
      assert list[0] in list && list[1] in list && list[2] in list;
      var i: nat :| i < |slots| && slots[i].buffer == Some(list[0]);
      var j: nat :| j < |slots| && slots[j].buffer == Some(list[1]);
      var k: nat :| k < |slots| && slots[k].buffer == Some(list[2]);
      assert false;
    }
  }

  // ---- what each operation does to a slot of known shape --------------------------------------

  /** Clearing the hardware's hold on a full slot frees it and puts its buffer. */
  lemma ClearFull(t: Table, i: nat)
    requires i < |t.slots| && Full(t.slots[i])
    ensures ClrFlag(t, i, HalInput) == Table(t.slots[i := UNUSED], t.queue, Put(t.pool, t.slots[i].buffer))
  {
    FrameRefs.ClearedTable(t, i, HalInput);
  }

  lemma AttachTaken(t: Table, i: nat, b: Id)
    requires i < |t.slots| && t.slots[i] == TAKEN
    ensures SetBuffer(t, i, b) == Table(t.slots[i := TAKEN.(buffer := Some(b))], t.queue, IncRef(t.pool, b))
  {
  }

  // ---- the pool's books ------------------------------------------------------------------------

  lemma PutConfig(p: Pool, o: Option<Id>)
    requires Inv(p)
    ensures Put(p, o).bufferCount <= p.bufferCount && (Config(p) ==> Config(Put(p, o)))
  {
    if o.Some? && o.value in p.bufs {
      DecRefInv(p, o.value);
    }
  }

  lemma PoolCleared(t: Table, pc: Pc, pc': Pc, i: nat)
    requires PoolOk(t, pc) && i < |t.slots| && Full(t.slots[i]) && Loose(pc) == Loose(pc') && (pc'.AtBufMake? ==> pc.AtBufMake?)
    ensures PoolOk(ClrFlag(t, i, HalInput), pc')
  {
    FrameRefs.LetGoStep(Books(t, pc), i, HalInput);
    ClearFull(t, i);
    PutConfig(t.pool, t.slots[i].buffer);
  }

  lemma PoolFlagged(t: Table, pc: Pc, pc': Pc, i: nat, f: Flag)
    requires PoolOk(t, pc) && Loose(pc) == Loose(pc') && !pc'.AtBufMake?
    ensures PoolOk(SetFlag(t, i, f), pc')
  {
    FrameRefs.NeutralStep(Books(t, pc), FrameRefs.Hold(i, f));
  }

  lemma PoolAcquired(t: Table, pc: Pc, pc': Pc)
    requires PoolOk(t, pc) && Loose(pc) == Loose(pc') && !pc'.AtBufMake?
    ensures PoolOk(Acquire(t).1, pc')
  {
    FrameRefs.NeutralStep(Books(t, pc), FrameRefs.TakeSlot);
  }

  /** A buffer got: it had no reference, and the parser's is its only one. */
  lemma PoolGot(t: Table, pc: Pc, p: Pool, b: Id)
    requires PoolOk(t, pc) && Loose(pc) == multiset{} && Inv(p) && Config(p) && Refs(t.pool, b) == 0
    requires forall x: Id :: Refs(p, x) == if x == b then 1 else Refs(t.pool, x)
    ensures PoolOk(t.(pool := p), AtBufSet(b))
  {
    var s := Books(t.(pool := p), AtBufSet(b));
    forall x: Id ensures FrameRefs.Balanced(s, x) {
      assert FrameRefs.Balanced(Books(t, pc), x);
    }
  }

  lemma PoolSame(t: Table, pc: Pc, p: Pool, pc': Pc)
    requires PoolOk(t, pc) && Loose(pc) == multiset{} == Loose(pc') && Inv(p) && Config(p)
    requires pc'.AtBufMake? ==> p.bufferCount <= 2
    requires forall x: Id :: Refs(p, x) == Refs(t.pool, x)
    ensures PoolOk(t.(pool := p), pc')
  {
    var s := Books(t.(pool := p), pc');
    forall x: Id ensures FrameRefs.Balanced(s, x) {
      assert FrameRefs.Balanced(Books(t, pc), x);
    }
  }

  lemma PoolAttached(t: Table, i: nat, b: Id)
    requires PoolOk(t, AtBufSet(b)) && i < |t.slots| && t.slots[i] == TAKEN
    ensures PoolOk(SetBuffer(t, i, b), AtBufPut(b))
  {
    AttachTaken(t, i, b);
    var s, s' := Books(t, AtBufSet(b)), Books(SetBuffer(t, i, b), AtBufPut(b));
    assert FrameRefs.Balanced(s, b);
    FrameRefs.IncRefs(t.pool, b, b);
    forall x: Id ensures FrameRefs.Balanced(s', x) {
      assert FrameRefs.Balanced(s, x);
      FrameRefs.IncRefs(t.pool, b, x);
      FrameRefs.HeldUpdate(t.slots, {}, i, TAKEN.(buffer := Some(b)), {}, x);
    }
  }

  lemma PoolReturned(t: Table, b: Id)
    requires PoolOk(t, AtBufPut(b))
    ensures PoolOk(t.(pool := DecRef(t.pool, b)), AtCopy)
  {
    FrameRefs.FreeStep(Books(t, AtBufPut(b)), b);
    PutConfig(t.pool, Some(b));
  }

  // ---- getting a buffer ------------------------------------------------------------------------

  /** Packet slots never have a frame. */
  lemma NoFrames(slots: seq<Slot>, p: Parser, cargo: seq<Option<nat>>, i: nat)
    requires SlotsOk(slots, p, cargo) && i < |slots|
    ensures FrameBuffer(slots[i]).None?
  {
    if slots[i].onUsed && p.info.input != Some(i) {
      var t: nat :| t < |cargo| && cargo[t] == Some(i);
    }
  }

  lemma UsedInSlot(t: Table, p: Parser, cargo: seq<Option<nat>>, b: Id)
    requires SlotsOk(t.slots, p, cargo) && PoolOk(t, p.pc) && Loose(p.pc) == multiset{} && b in t.pool.listUsed
    ensures exists i: nat :: i < |t.slots| && t.slots[i].buffer == Some(b)
  {
    assert FrameRefs.Balanced(Books(t, p.pc), b);
    FrameRefs.NothingHeld(t.slots, {}, b);
    var i: nat :| i < |t.slots| && (t.slots[i].buffer == Some(b) || FrameBuffer(t.slots[i]) == Some(b));
    NoFrames(t.slots, p, cargo, i);
  }

  /** The parser's slot has no buffer, so at most two are in use. */
  lemma TwoInUse(t: Table, p: Parser, cargo: seq<Option<nat>>)
    requires SlotsOk(t.slots, p, cargo) && PoolOk(t, p.pc) && |t.slots| <= 3
    requires p.pc.AtBufGet? && p.info.input.Some? && !p.copyRdy
    ensures |t.pool.listUsed| <= 2
  {
    forall b | b in t.pool.listUsed ensures exists i: nat :: i < |t.slots| && t.slots[i].buffer == Some(b) {
      UsedInSlot(t, p, cargo, b);
    }
    UsedBound(t.slots, p.info.input.value, t.pool.listUsed);
  }

  lemma UnusedConfig(p: Pool, size: nat)
    requires Inv(p) && Config(p)
    ensures var (r, p') := GetUnused(p, size);
            && Inv(p') && Config(p') && (r.None? ==> p'.bufferCount == |p.listUsed|)
  {
    var k := FirstFit(p, size, 0);
    DropFirstFacts(p, k);
    GetUnusedInv(p, size);
    GetUnusedMeaning(p, size);
  }

  lemma CreateConfig(p: Pool, size: nat, x: Id)
    requires Inv(p) && Config(p) && p.bufferCount <= 2
    ensures var (r, p') := Create(p, size, true);
            && r == Some(p.nextId) && Inv(p') && Config(p') && Refs(p, p.nextId) == 0
            && Refs(p', x) == if x == p.nextId then 1 else Refs(p, x)
  {
    CreateInv(p, size, true);
  }

  lemma StepBufGet(t: Table, p: Parser, cargo: seq<Option<nat>>, size: nat)
    requires SlotsOk(t.slots, p, cargo) && PoolOk(t, p.pc) && |t.slots| <= 3
    requires p.pc.AtBufGet? && p.info.input.Some? && !p.copyRdy
    ensures var (r, pool) := GetUnused(t.pool, size);
            PoolOk(t.(pool := pool), if r.Some? then AtBufSet(r.value) else AtBufMake(size))
  {
    var (r, pool) := GetUnused(t.pool, size);
    UnusedConfig(t.pool, size);
    forall x: Id ensures Refs(pool, x) == (if r == Some(x) then 1 else Refs(t.pool, x)) && (r == Some(x) ==> Refs(t.pool, x) == 0) {
      FrameRefs.UnusedRefs(t.pool, size, x);
    }
    if r.Some? {
      PoolGot(t, p.pc, pool, r.value);
    } else {
      TwoInUse(t, p, cargo);
      PoolSame(t, p.pc, pool, AtBufMake(size));
    }
  }

  lemma StepBufMake(t: Table, size: nat)
    requires PoolOk(t, AtBufMake(size))
    ensures var (r, pool) := Create(t.pool, size, true);
            r.Some? && PoolOk(t.(pool := pool), AtBufSet(r.value))
  {
    var (r, pool) := Create(t.pool, size, true);
    CreateConfig(t.pool, size, 0);
    forall x: Id ensures Refs(pool, x) == if x == t.pool.nextId then 1 else Refs(t.pool, x) {
      CreateConfig(t.pool, size, x);
    }
    PoolGot(t, AtBufMake(size), pool, t.pool.nextId);
  }
}
