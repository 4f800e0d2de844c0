/** Every step of either thread keeps the ownership of packet slots and the books of their
    buffers (DecoderSlots). */
module DecoderPackets {
  import opened Wrappers
  import opened BufferPool
  import opened Slots
  import opened HalTask
  import opened Decoder
  import opened DecoderGate
  import opened DecoderTasks
  import opened DecoderSlots

  /** The packet slots as the parser sees them. */
  ghost predicate PktOk(t: Table, p: Parser, cargo: seq<Option<nat>>) {
    SlotsOk(t.slots, p, cargo) && PoolOk(t, p.pc) && 2 <= |t.slots| <= 3
  }

  // ---- filling a slot ------------------------------------------------------------------------

  /** The parser moves on to pc, with the slot it has. */
  predicate Goes(p: Parser, p': Parser, pc: Pc) {
    p'.pc == pc && p'.info.input == p.info.input && p'.copyRdy == (p.copyRdy || p.pc.AtCopied?)
  }

  lemma StepPktSlot(t: Table, p: Parser, p': Parser, cargo: seq<Option<nat>>)
    requires PktOk(t, p, cargo) && BitsOk(p) && p.pc.AtPktSlot? && Roomy(t.slots, cargo)
    ensures p.info.input.None? ==> Acquire(t).0.Some?
    ensures Goes(p, p', AtPktBuf) && p.info.input.Some? ==> PktOk(t, p', cargo)
    ensures p.info.input.None? && p'.info.input == Acquire(t).0 && p'.pc == AtPktBuf && p'.copyRdy == p.copyRdy ==>
              PktOk(Acquire(t).1, p', cargo)
  {
    if p.info.input.None? {
      RoomIsFree(t.slots, cargo);
      OwnTaken(t.slots, cargo, FirstUnused(t.slots, 0));
      PoolAcquired(t, p.pc, AtPktBuf);
    }
  }

  lemma StepPktBuf(t: Table, p: Parser, p': Parser, cargo: seq<Option<nat>>)
    requires PktOk(t, p, cargo) && BitsOk(p) && p.pc.AtPktBuf?
    ensures BufferAt(t, p.info.input).Some? <==> p.copyRdy
    ensures Goes(p, p', if p.copyRdy then AtPrev else AtBufGet) ==> PktOk(t, p', cargo)
  {
  }

  lemma StepBuf(t: Table, p: Parser, p': Parser, cargo: seq<Option<nat>>, size: nat)
    requires PktOk(t, p, cargo) && BitsOk(p) && p.pc.AtBufGet?
    ensures var (r, pool) := GetUnused(t.pool, size);
            Goes(p, p', if r.Some? then AtBufSet(r.value) else AtBufMake(size)) ==> PktOk(t.(pool := pool), p', cargo)
  {
    StepBufGet(t, p, cargo, size);
  }

  lemma StepMake(t: Table, p: Parser, p': Parser, cargo: seq<Option<nat>>)
    requires PktOk(t, p, cargo) && BitsOk(p) && p.pc.AtBufMake?
    ensures var (r, pool) := Create(t.pool, p.pc.size, true);
            r.Some? && (Goes(p, p', AtBufSet(r.value)) ==> PktOk(t.(pool := pool), p', cargo))
  {
    StepBufMake(t, p.pc.size);
  }

  lemma StepBufSet(t: Table, p: Parser, p': Parser, cargo: seq<Option<nat>>)
    requires PktOk(t, p, cargo) && BitsOk(p) && p.pc.AtBufSet? && Goes(p, p', AtBufPut(p.pc.b))
    ensures PktOk(SetBuffer(t, At(p.info.input), p.pc.b), p', cargo)
  {
    var i, b := p.info.input.value, p.pc.b;
    AttachTaken(t, i, b);
    OwnEdit(t.slots, i, cargo, TAKEN.(buffer := Some(b)));
    PoolAttached(t, i, b);
  }

  lemma StepBufPut(t: Table, p: Parser, p': Parser, cargo: seq<Option<nat>>)
    requires PktOk(t, p, cargo) && BitsOk(p) && p.pc.AtBufPut? && Goes(p, p', AtCopy)
    ensures PktOk(t.(pool := DecRef(t.pool, p.pc.b)), p', cargo)
  {
    PoolReturned(t, p.pc.b);
  }

  lemma StepCopy(t: Table, p: Parser, p': Parser, cargo: seq<Option<nat>>)
    requires PktOk(t, p, cargo) && BitsOk(p) && p.pc.AtCopy? && Goes(p, p', AtCopied)
    ensures PktOk(SetFlag(t, At(p.info.input), CodecReady), p', cargo)
  {
    var i := p.info.input.value;
    OwnEdit(t.slots, i, cargo, SetBits(t.slots[i], CodecReady));
    PoolFlagged(t, p.pc, AtCopied, i, CodecReady);
  }

  lemma StepCopied(t: Table, p: Parser, p': Parser, cargo: seq<Option<nat>>)
    requires PktOk(t, p, cargo) && BitsOk(p) && p.pc.AtCopied? && Goes(p, p', AtPrev)
    ensures PktOk(SetFlag(t, At(p.info.input), HalInput), p', cargo)
  {
    var i := p.info.input.value;
    CopiedIsFull(p, t.slots[i]);
    OwnEdit(t.slots, i, cargo, SetBits(t.slots[i], HalInput));
    PoolFlagged(t, p.pc, AtPrev, i, HalInput);
  }

  lemma CopiedIsFull(p: Parser, s: Slot)
    requires ParserSlot(p, s) && p.pc.AtCopied? && !p.copyRdy
    ensures Full(SetBits(s, HalInput))
  {
  }

  // ---- letting it go ----------------------------------------------------------------------------

  /** The parser gives its slot up. */
  lemma StepDrop(t: Table, p: Parser, p': Parser, cargo: seq<Option<nat>>)
    requires PktOk(t, p, cargo) && BitsOk(p) && (p.pc.AtResetClear? || p.pc.AtDrop?)
    requires p'.info.input.None? && (p'.pc.AtTop? || p'.pc.AtGate?)
    ensures PktOk(if p.copyRdy then ClrFlag(t, At(p.info.input), HalInput) else t, p', cargo)
  {
    if p.copyRdy {
      var i := p.info.input.value;
      ClearFull(t, i);
      OwnDrop(t.slots, i, cargo);
      PoolCleared(t, p.pc, p'.pc, i);
    }
  }

  /** The slot goes with the task. */
  lemma StepPublish(t: Table, p: Parser, p': Parser, cargo: seq<Option<nat>>, hnd: nat)
    requires PktOk(t, p, cargo) && BitsOk(p) && p.pc == AtPublish(RealTask) && hnd < |cargo| && cargo[hnd].None?
    requires p'.info.input.None? && p'.pc.AtTop?
    ensures PktOk(t, p', cargo[hnd := p.info.input])
  {
    OwnPublish(t.slots, p.info.input.value, cargo, hnd);
  }

  /** The hardware thread is done with the packet. */
  lemma StepFinish(t: Table, p: Parser, cargo: seq<Option<nat>>, u: nat)
    requires PktOk(t, p, cargo) && u < |cargo| && cargo[u].Some?
    ensures PktOk(ClrFlag(t, cargo[u].value, HalInput), p, cargo[u := None])
  {
    var i := cargo[u].value;
    ClearFull(t, i);
    OwnFinish(t.slots, p.info.input, cargo, u);
    PoolCleared(t, p.pc, p.pc, i);
  }

  /** Everything else leaves slots, buffers and the parser's slot alone. */
  lemma StepElsewhere(t: Table, p: Parser, p': Parser, cargo: seq<Option<nat>>)
    requires PktOk(t, p, cargo) && BitsOk(p) && p'.info.input == p.info.input && p'.copyRdy == p.copyRdy
    requires !PartOf(p.pc).Filling? && (!PartOf(p'.pc).Filling? || p'.pc.AtPktSlot?)
    ensures PktOk(t, p', cargo)
  {
  }

  // ---- the parser thread --------------------------------------------------------------------------

  predicate Taken(p: Parser, p': Parser, v: View, c: Choice) {
    && p'.pc == PacketPc(p, v, c) && p'.copyRdy == (p.copyRdy || p.pc.AtCopied?)
    && p'.info.input == if p.pc.AtPktSlot? && p.info.input.None? then v.found else p.info.input
  }

  lemma TakingPackets(s: State, p': Parser, c: Choice, cargo: seq<Option<nat>>)
    requires PktOk(s.pkt, s.p, cargo) && BitsOk(s.p) && Roomy(s.pkt.slots, cargo)
    requires s.p.pc.AtPktSlot? || s.p.pc.AtPktBuf? || s.p.pc.AtBufGet? || s.p.pc.AtBufMake?
    requires Taken(s.p, p', ViewOf(s, c), c)
    ensures Supplied(s.p, ViewOf(s, c)) && PktOk(PktAfter(s.pkt, s.p, c), p', cargo)
  {
    var t, p := s.pkt, s.p;
    match p.pc
    case AtPktSlot => StepPktSlot(t, p, p', cargo);
    case AtPktBuf => StepPktBuf(t, p, p', cargo);
    case AtBufGet => StepBuf(t, p, p', cargo, c.size);
    case AtBufMake(_) => StepMake(t, p, p', cargo);
  }

  lemma CopyingPackets(s: State, p': Parser, c: Choice, cargo: seq<Option<nat>>)
    requires PktOk(s.pkt, s.p, cargo) && BitsOk(s.p)
    requires s.p.pc.AtBufSet? || s.p.pc.AtBufPut? || s.p.pc.AtCopy? || s.p.pc.AtCopied?
    requires Taken(s.p, p', ViewOf(s, c), c)
    ensures PktOk(PktAfter(s.pkt, s.p, c), p', cargo)
  {
    var t, p := s.pkt, s.p;
    match p.pc
    case AtBufSet(_) => StepBufSet(t, p, p', cargo);
    case AtBufPut(_) => StepBufPut(t, p, p', cargo);
    case AtCopy => StepCopy(t, p, p', cargo);
    case AtCopied => StepCopied(t, p, p', cargo);
  }

  lemma FillingPackets(s: State, p': Parser, c: Choice, cargo: seq<Option<nat>>)
    requires PktOk(s.pkt, s.p, cargo) && BitsOk(s.p) && PartOf(s.p.pc).Filling?
    requires Roomy(s.pkt.slots, cargo) && p' == PacketControl(s.p, ViewOf(s, c), c)
    ensures Supplied(s.p, ViewOf(s, c)) && PktOk(PktAfter(s.pkt, s.p, c), p', cargo)
  {
    if s.p.pc.AtPktSlot? || s.p.pc.AtPktBuf? || s.p.pc.AtBufGet? || s.p.pc.AtBufMake? {
      TakingPackets(s, p', c, cargo);
    } else {
      CopyingPackets(s, p', c, cargo);
    }
  }

  predicate Releases(pc: Pc) { pc.AtResetClear? || pc.AtDrop? || pc == AtPublish(RealTask) }

  /** The parser's slot changes only while it is filled and when it is let go. */
  predicate InputKept(p: Parser, p': Parser) {
    && (!PartOf(p'.pc).Filling? || p'.pc.AtPktSlot?)
    && (if Releases(p.pc) then p'.info.input.None? && (p'.pc.AtTop? || p'.pc.AtGate?)
        else p'.info.input == p.info.input && p'.copyRdy == p.copyRdy)
  }

  lemma ControlInput(p: Parser, v: View, c: Choice)
    requires !PartOf(p.pc).Filling?
    ensures InputKept(p, Control(p, v, c))
  {
    match PartOf(p.pc)
    case Resetting => ResetInput(p, v);
    case Preparing =>
    case Parsing => ParseInput(p, v, c);
    case Submitting =>
      if p.pc.AtPublish? {
        PublishInput(p, v, c);
      } else {
        SubmitInput(p, v, c);
      }
  }

  lemma ResetInput(p: Parser, v: View)
    requires PartOf(p.pc).Resetting?
    ensures InputKept(p, ResetControl(p, v))
  {
  }

  lemma ParseInput(p: Parser, v: View, c: Choice)
    requires PartOf(p.pc).Parsing?
    ensures InputKept(p, ParseControl(p, v, c))
  {
  }

  lemma SubmitInput(p: Parser, v: View, c: Choice)
    requires PartOf(p.pc).Submitting? && !p.pc.AtPublish?
    ensures InputKept(p, SubmitControl(p, v, c))
  {
    match p.pc
    case AtChange =>
    case AtInfoSet =>
    case AtWait =>
    case AtFrame =>
    case AtSetIdle =>
    case AtDrop =>
  }

  lemma PublishInput(p: Parser, v: View, c: Choice)
    requires p.pc.AtPublish?
    ensures InputKept(p, SubmitControl(p, v, c))
  {
  }

  /** Only the hand-over of a frame changes what tasks carry. */
  lemma CargoAfter(j: Jobs, p': Parser, c: Choice)
    requires Handles(j) && Honest(j.p) && (j.p.pc.AtPublish? ==> MovesTask(j.p, p'))
    ensures var cargo := Cargo(j.status, j.infos, j.h);
            Cargo(JobsAfter(j, p', c).status, JobsAfter(j, p', c).infos, j.h) ==
            if j.p.pc == AtPublish(RealTask) then cargo[j.p.hnd.value := j.p.info.input] else cargo
    ensures j.p.hnd.Some? ==> Cargo(j.status, j.infos, j.h)[j.p.hnd.value].None?
  {
  }

  /** The hand-over of a frame apart, every step keeps what is carried as it is. */
  lemma OtherPackets(s: State, p': Parser, c: Choice, cargo: seq<Option<nat>>)
    requires PktOk(s.pkt, s.p, cargo) && BitsOk(s.p) && !PartOf(s.p.pc).Filling? && InputKept(s.p, p')
    requires s.p.pc != AtPublish(RealTask)
    ensures PktOk(PktAfter(s.pkt, s.p, c), p', cargo)
  {
    if s.p.pc.AtResetClear? || s.p.pc.AtDrop? {
      StepDrop(s.pkt, s.p, p', cargo);
    } else {
      StepElsewhere(s.pkt, s.p, p', cargo);
    }
  }

  lemma ParserPkt(s: State, p': Parser, c: Choice, v: View, cargo: seq<Option<nat>>)
    requires PktOk(s.pkt, s.p, cargo) && BitsOk(s.p) && v == ViewOf(s, c) && p' == Control(s.p, v, c)
    requires s.p.pc != AtPublish(RealTask) && (PartOf(s.p.pc).Filling? ==> Roomy(s.pkt.slots, cargo))
    ensures Supplied(s.p, v) && PktOk(PktAfter(s.pkt, s.p, c), p', cargo)
    ensures |PktAfter(s.pkt, s.p, c).slots| == |s.pkt.slots|
  {
    SlotCount(s.pkt, s.p, c);
    if PartOf(s.p.pc).Filling? {
      FillingPackets(s, p', c, cargo);
    } else {
      ControlInput(s.p, v, c);
      OtherPackets(s, p', c, cargo);
    }
  }

  lemma SlotCount(t: Table, p: Parser, c: Choice)
    ensures |PktAfter(t, p, c).slots| == |t.slots|
  {
  }

  /** A frame that the hardware thread will not give the slot of back. */
  lemma StepSpill(t: Table, p: Parser, p': Parser, cargo: seq<Option<nat>>)
    requires PktOk(t, p, cargo) && BitsOk(p) && p.pc == AtPublish(RealTask)
    requires p'.info.input.None? && p'.pc.AtTop?
    ensures PktOk(t, p', cargo + [p.info.input])
  {
    OwnSpill(t.slots, p.info.input.value, cargo);
  }

  ghost predicate PacketsOk(s: State) {
    |s.pkt.slots| == TaskCount(s.fast) && PktOk(s.pkt, s.p, Cargo(s.g.status, s.infos, s.h))
  }

  /** The cargo after a parser step, on the whole state. */
  lemma EffectCargo(s: State, p': Parser, c: Choice)
    requires TasksOk(s) && Honest(s.p) && (s.p.pc.AtPublish? ==> MovesTask(s.p, p'))
    ensures var s', cargo := Effect(s, p', c), Cargo(s.g.status, s.infos, s.h);
            Cargo(s'.g.status, s'.infos, s'.h) ==
            if s.p.pc == AtPublish(RealTask) then cargo[s.p.hnd.value := s.p.info.input] else cargo
    ensures s.p.hnd.Some? ==> Cargo(s.g.status, s.infos, s.h)[s.p.hnd.value].None?
  {
    GroupAfterOk(s.g, s.infos, s.p);
    CargoAfter(JobsOf(s), p', c);
  }

  lemma HandOverPackets(s: State, p': Parser, c: Choice, cargo: seq<Option<nat>>)
    requires PktOk(s.pkt, s.p, cargo) && BitsOk(s.p) && FlagsOk(s.p) && s.p.pc == AtPublish(RealTask)
    requires s.p.hnd.Some? && s.p.hnd.value < |cargo| && cargo[s.p.hnd.value].None?
    requires p' == Control(s.p, ViewOf(s, c), c)
    ensures PktOk(PktAfter(s.pkt, s.p, c), p', cargo[s.p.hnd.value := s.p.info.input])
  {
    ControlInput(s.p, ViewOf(s, c), c);
    StepPublish(s.pkt, s.p, p', cargo, s.p.hnd.value);
  }

  /** The parser finds what it needs, and every step of it keeps slots and buffers in order. */
  lemma ParserPackets(s: State, p': Parser, c: Choice)
    requires TasksOk(s) && PacketsOk(s) && BitsOk(s.p) && FlagsOk(s.p) && p' == Control(s.p, ViewOf(s, c), c)
    ensures Supplied(s.p, ViewOf(s, c)) && (Honest(s.p) ==> PacketsOk(Effect(s, p', c)))
  {
    var v, cargo := ViewOf(s, c), Cargo(s.g.status, s.infos, s.h);
    if s.p.pc == AtPublish(RealTask) {
      ControlMoves(s.p, v, c);
      if Honest(s.p) {
        EffectCargo(s, p', c);
        HandOverPackets(s, p', c, cargo);
      }
    } else {
      RoomForFilling(s);
      ParserPkt(s, p', c, v, cargo);
      if Honest(s.p) {
        if s.p.pc.AtPublish? {
          ControlMoves(s.p, v, c);
        }
        EffectCargo(s, p', c);
      }
    }
  }

  lemma RoomForFilling(s: State)
    requires TasksOk(s) && PacketsOk(s) && FlagsOk(s.p)
    ensures PartOf(s.p.pc).Filling? ==> Roomy(s.pkt.slots, Cargo(s.g.status, s.infos, s.h))
  {
    if PartOf(s.p.pc).Filling? {
      TasksLeaveRoom(s.pkt.slots, Cargo(s.g.status, s.infos, s.h), s.p.hnd.value);
    }
  }

  // ---- the hardware thread --------------------------------------------------------------------------

  lemma CargoMoved(j: Jobs, st: Status, h: HalPc)
    requires Handles(j) && (j.h.HIdle? || j.h.HFastIdle? || j.h.HDone?) && !st.Processing? && !h.HDone?
    ensures Cargo(j.status[j.h.t := st], j.infos, h) == Cargo(j.status, j.infos, j.h)
  {
  }

  lemma HalCargo(s: State)
    requires TasksOk(s) && !s.h.HClear?
    ensures Cargo(HalStep(s).g.status, HalStep(s).infos, HalStep(s).h) == Cargo(s.g.status, s.infos, s.h)
  {
    if s.h.HIdle? || s.h.HFastIdle? {
      SetStatusOk(s.g, s.h.t, Idle);
      CargoMoved(JobsOf(s), Idle, HalStep(s).h);
    } else if s.h.HDone? {
      SetStatusOk(s.g, s.h.t, ProcDone);
      CargoMoved(JobsOf(s), ProcDone, HalStep(s).h);
    } else {
      HalLeaves(s);
    }
  }

  lemma HalLeaves(s: State)
    requires !s.h.HClear? && !s.h.HIdle? && !s.h.HFastIdle? && !s.h.HDone?
    ensures HalStep(s).g == s.g && HalStep(s).infos == s.infos && !HalStep(s).h.HDone?
  {
  }

  lemma WakePacket(t: Table, p: Parser, cargo: seq<Option<nat>>)
    requires PktOk(t, p, cargo) && BitsOk(p)
    ensures PktOk(t, Wake(p), cargo)
  {
  }

  lemma ClearedCargo(j: Jobs)
    requires Handles(j) && j.h.HClear?
    ensures j.h.t < |j.status| && Cargo(j.status, j.infos, HDone(j.h.t)) == Cargo(j.status, j.infos, j.h)[j.h.t := None]
  {
  }

  lemma HalPackets(s: State)
    requires TasksOk(s) && PacketsOk(s) && BitsOk(s.p) && Jobbed(JobsOf(s))
    ensures PacketsOk(HalStep(s))
  {
    var cargo := Cargo(s.g.status, s.infos, s.h);
    if s.h.HClear? {
      ClearedCargo(JobsOf(s));
      StepFinish(s.pkt, s.p, cargo, s.h.t);
    } else {
      HalCargo(s);
      WakePacket(s.pkt, s.p, cargo);
    }
  }
}
