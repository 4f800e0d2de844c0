/** What the parser thread's own bits promise at every point of its loop, and the gate an
    information change closes (mpp/codec/mpp_dec.cpp). Nothing here depends on what the
    hardware thread does. */
module DecoderGate {
  import opened Decoder

  // ---- regions of the loop --------------------------------------------------------------

  predicate HasHandle(pc: Pc) { !pc.AtHandle? && !pc.AtDrop? && !PartOf(pc).Resetting? }

  /** The packet slot is taken and not yet filled. */
  predicate Taking(pc: Pc) { PartOf(pc).Filling? && !pc.AtPktSlot? }

  predicate Unfilled(pc: Pc) { Taking(pc) && !pc.AtPktBuf? }

  predicate Submits(pc: Pc) { PartOf(pc).Submitting? && pc != AtPublish(EosPrepare) }

  predicate BoundForHardware(pc: Pc) { pc.AtFrame? || pc == AtPublish(RealTask) }

  predicate InfoBound(pc: Pc) { pc.AtInfoSet? || pc == AtPublish(InfoTask) }

  predicate GivesUp(pc: Pc) { pc.AtSetIdle? || pc.AtDrop? || pc == AtPublish(EosParse) }

  // ---- the bits, whatever the parse call finds ----------------------------------------------

  predicate FlagsOk(p: Parser) {
    && (HasHandle(p.pc) ==> p.hnd.Some?)
    && (Submits(p.pc) ==> p.parsedRdy)
    && (p.genRdy || p.info.infoChange ==> p.parsedRdy)
    && (PartOf(p.pc).Filling? || PartOf(p.pc).Parsing? ==> p.info.valid && p.currRdy)
    && (InfoBound(p.pc) ==> p.info.infoChange && !p.genRdy)
    && (BoundForHardware(p.pc) || GivesUp(p.pc) ==> !p.info.infoChange && !p.genRdy)
    && (p.pc == AtPublish(EosPrepare) ==> p.info.eos && !p.info.valid)
  }

  /** In normal mode everything from the parse on happens with the previous task done; the
      parser waits for that task only while it is not, and sleeps only with a wait bit up. */
  predicate PrevOk(p: Parser, fast: bool) {
    && (p.pc.AtParse? || Submits(p.pc) || p.parsedRdy || p.pc.AtReset? || p.pc.AtResetClear? ==> fast || p.prevRdy)
    && (p.pc.AtResetGet? || p.pc.AtResetIdle? || p.pc.AtPrevIdle? ==> !fast && !p.prevRdy)
    && (p.pc.AtResetCheck? ==> fast)
    && (p.wait.prev ==> !fast && !p.prevRdy)
    && (p.pc.AtBlocked? ==> p.wait != NO_WAIT)
  }

  /** While a change is pending nothing is on its way to the hardware, and the parser waits
      only once the change is announced. */
  predicate GateOk(p: Parser, changed: bool) {
    changed ==> !BoundForHardware(p.pc) && (p.pc.AtWait? ==> p.genRdy)
  }

  predicate LocalOk(p: Parser, fast: bool, changed: bool) { FlagsOk(p) && PrevOk(p, fast) && GateOk(p, changed) }

  function ChangedAfter(p: Parser, changed: bool, c: Choice): bool { changed || (Parses(p, c) && c.raise) }

  // ---- what a step leaves alone -----------------------------------------------------------------

  /** The task in hand, except for its packet slot. */
  predicate SameTask(p: Parser, q: Parser) {
    && q.hnd == p.hnd && q.currRdy == p.currRdy && q.genRdy == p.genRdy && q.parsedRdy == p.parsedRdy
    && q.info == p.info.(input := q.info.input)
  }

  lemma ResetFrame(p: Parser, v: View)
    requires PartOf(p.pc).Resetting? && !p.pc.AtResetClear?
    ensures var q := ResetControl(p, v);
            && SameTask(p, q) && q.info == p.info && q.copyRdy == p.copyRdy
            && ((PartOf(q.pc).Resetting? && (q.pc.AtAbort? ==> p.pc.AtAbort?)) || q.pc.AtHandle?)
  {
    match p.pc
    case AtTop =>
    case AtGate =>
    case AtBlocked =>
    case AtWoken =>
    case AtResetGet =>
    case AtResetIdle(_) =>
    case AtResetCheck =>
    case AtReset =>
    case AtAbort =>
  }

  lemma FillFrame(p: Parser, v: View, c: Choice)
    requires PartOf(p.pc).Filling?
    ensures var q := PacketControl(p, v, c);
            && SameTask(p, q) && q.prevRdy == p.prevRdy && q.wait == p.wait
            && (PartOf(q.pc).Filling? || q.pc.AtPrev? || q.pc.AtTop? || q.pc.AtAbort?)
  {
    match p.pc
    case AtPktSlot =>
    case AtPktBuf =>
    case AtBufGet =>
    case AtBufMake(_) =>
    case AtBufSet(_) =>
    case AtBufPut(_) =>
    case AtCopy =>
    case AtCopied =>
  }

  lemma LoopPrev(p: Parser, v: View)
    requires PrevOk(p, v.fast) && (p.pc.AtTop? || p.pc.AtGate? || p.pc.AtBlocked? || p.pc.AtWoken? || p.pc.AtAbort?)
    ensures PrevOk(ResetControl(p, v), v.fast)
  {
  }

  lemma ResettingPrev(p: Parser, v: View)
    requires PrevOk(p, v.fast) && PartOf(p.pc).Resetting?
    ensures PrevOk(ResetControl(p, v), v.fast)
  {
    match p.pc
    case AtResetGet =>
    case AtResetIdle(_) =>
    case AtResetCheck =>
    case AtReset =>
    case AtResetClear =>
    case _ => LoopPrev(p, v);
  }

  lemma ResettingLocal(p: Parser, v: View)
    requires LocalOk(p, v.fast, v.changed) && PartOf(p.pc).Resetting?
    ensures LocalOk(ResetControl(p, v), v.fast, v.changed)
  {
    if !p.pc.AtResetClear? {
      ResetFrame(p, v);
    }
    ResettingPrev(p, v);
  }

  lemma PreparingLocal(p: Parser, v: View, c: Choice)
    requires LocalOk(p, v.fast, v.changed) && PartOf(p.pc).Preparing?
    ensures LocalOk(PrepareControl(p, v, c), v.fast, v.changed)
  {
    match p.pc
    case AtHandle =>
    case AtPrepare =>
  }

  lemma FillingLocal(p: Parser, v: View, c: Choice)
    requires LocalOk(p, v.fast, v.changed) && PartOf(p.pc).Filling?
    ensures LocalOk(PacketControl(p, v, c), v.fast, v.changed)
  {
    FillFrame(p, v, c);
  }

  lemma ParsingLocal(p: Parser, v: View, c: Choice)
    requires LocalOk(p, v.fast, v.changed) && PartOf(p.pc).Parsing?
    ensures LocalOk(ParseControl(p, v, c), v.fast, ChangedAfter(p, v.changed, c))
  {
    match p.pc
    case AtPrev =>
    case AtPrevIdle(_) =>
    case AtParse =>
  }

  lemma PublishFlags(p: Parser, v: View, c: Choice)
    requires FlagsOk(p) && p.pc.AtPublish?
    ensures FlagsOk(SubmitControl(p, v, c))
  {
    match p.pc.kind
    case EosPrepare =>
    case EosParse =>
    case InfoTask =>
    case RealTask =>
  }

  lemma DecideFlags(p: Parser, v: View, c: Choice)
    requires FlagsOk(p) && (p.pc.AtChange? || p.pc.AtInfoSet? || p.pc.AtWait?)
    ensures FlagsOk(SubmitControl(p, v, c))
  {
  }

  lemma SubmittingFlags(p: Parser, v: View, c: Choice)
    requires FlagsOk(p) && PartOf(p.pc).Submitting?
    ensures FlagsOk(SubmitControl(p, v, c))
  {
    match p.pc
    case AtChange => DecideFlags(p, v, c);
    case AtInfoSet => DecideFlags(p, v, c);
    case AtWait => DecideFlags(p, v, c);
    case AtPublish(_) => PublishFlags(p, v, c);
    case AtFrame =>
    case AtSetIdle =>
    case AtDrop =>
  }

  lemma SubmittingPrev(p: Parser, v: View, c: Choice)
    requires FlagsOk(p) && PrevOk(p, v.fast) && PartOf(p.pc).Submitting?
    ensures PrevOk(SubmitControl(p, v, c), v.fast)
  {
    match p.pc
    case AtChange =>
    case AtInfoSet =>
    case AtWait =>
    case AtFrame =>
    case AtSetIdle =>
    case AtDrop =>
    case AtPublish(EosPrepare) =>
    case AtPublish(EosParse) =>
    case AtPublish(InfoTask) =>
    case AtPublish(RealTask) =>
  }

  lemma SubmittingGate(p: Parser, v: View, c: Choice)
    requires GateOk(p, v.changed) && PartOf(p.pc).Submitting?
    ensures GateOk(SubmitControl(p, v, c), v.changed)
  {
    match p.pc
    case AtChange =>
    case AtInfoSet =>
    case AtWait =>
    case AtFrame =>
    case AtSetIdle =>
    case AtDrop =>
    case AtPublish(EosPrepare) =>
    case AtPublish(EosParse) =>
    case AtPublish(InfoTask) =>
    case AtPublish(RealTask) =>
  }

  lemma SubmittingLocal(p: Parser, v: View, c: Choice)
    requires LocalOk(p, v.fast, v.changed) && PartOf(p.pc).Submitting?
    ensures LocalOk(SubmitControl(p, v, c), v.fast, v.changed)
  {
    SubmittingFlags(p, v, c);
    SubmittingPrev(p, v, c);
    SubmittingGate(p, v, c);
  }

  /** The bits and the gate are kept by every step of the parser, whatever it finds. */
  lemma ControlLocal(p: Parser, v: View, c: Choice)
    requires LocalOk(p, v.fast, v.changed)
    ensures LocalOk(Control(p, v, c), v.fast, ChangedAfter(p, v.changed, c))
  {
    match PartOf(p.pc)
    case Resetting => ResettingLocal(p, v);
    case Preparing => PreparingLocal(p, v, c);
    case Filling => FillingLocal(p, v, c);
    case Parsing => ParsingLocal(p, v, c);
    case Submitting => SubmittingLocal(p, v, c);
  }

  lemma WakeLocal(p: Parser, fast: bool, changed: bool)
    requires LocalOk(p, fast, changed)
    ensures LocalOk(Wake(p), fast, changed)
  {
  }

  // ---- the packet slot, as long as lookups succeed --------------------------------------------

  predicate BitsOk(p: Parser) {
    && !p.pc.AtAbort?
    && (p.copyRdy ==> p.info.input.Some?)
    && (p.info.input.Some? ==> p.copyRdy || Taking(p.pc))
    && (Taking(p.pc) ==> p.info.input.Some?)
    && (Unfilled(p.pc) ==> !p.copyRdy)
    && (PartOf(p.pc).Parsing? || Submits(p.pc) || p.parsedRdy ==> p.copyRdy)
  }

  /** The search for a packet slot succeeds, the group grants a new buffer, and a slot that
      was filled still has its buffer. */
  predicate Supplied(p: Parser, v: View) {
    p.pc.AtBufMake? || (p.pc.AtPktSlot? && p.info.input.None?) || (p.pc.AtPktBuf? && p.copyRdy) ==> v.found.Some?
  }

  lemma FillingBits(p: Parser, v: View, c: Choice)
    requires BitsOk(p) && PartOf(p.pc).Filling? && Supplied(p, v) && FlagsOk(p)
    ensures BitsOk(PacketControl(p, v, c))
  {
    match p.pc
    case AtPktSlot =>
    case AtPktBuf =>
    case AtBufGet =>
    case AtBufMake(_) =>
    case AtBufSet(_) =>
    case AtBufPut(_) =>
    case AtCopy =>
    case AtCopied =>
  }

  lemma PublishBits(p: Parser, v: View, c: Choice)
    requires BitsOk(p) && FlagsOk(p) && p.pc.AtPublish?
    ensures BitsOk(SubmitControl(p, v, c))
  {
  }

  lemma SubmittingBits(p: Parser, v: View, c: Choice)
    requires BitsOk(p) && FlagsOk(p) && PartOf(p.pc).Submitting?
    ensures BitsOk(SubmitControl(p, v, c))
  {
    match p.pc
    case AtChange =>
    case AtInfoSet =>
    case AtWait =>
    case AtFrame =>
    case AtSetIdle =>
    case AtDrop =>
    case AtPublish(_) => PublishBits(p, v, c);
  }

  lemma ParsingBits(p: Parser, v: View, c: Choice)
    requires BitsOk(p) && PartOf(p.pc).Parsing?
    ensures BitsOk(ParseControl(p, v, c))
  {
  }

  lemma ControlBits(p: Parser, v: View, c: Choice)
    requires BitsOk(p) && FlagsOk(p) && Supplied(p, v)
    ensures BitsOk(Control(p, v, c))
  {
    match PartOf(p.pc)
    case Resetting =>
      if !p.pc.AtResetClear? {
        ResetFrame(p, v);
      }
    case Preparing =>
    case Filling => FillingBits(p, v, c);
    case Parsing => ParsingBits(p, v, c);
    case Submitting => SubmittingBits(p, v, c);
  }

  // ---- the outcome of the parse -------------------------------------------------------------------

  predicate Decides(pc: Pc) { pc.AtChange? || pc.AtWait? || InfoBound(pc) || GivesUp(pc) }

  /** A parse outcome kept for another round has an output slot, so has a frame on its way to the
      hardware, and a given-up end of stream has none. */
  predicate OutcomeOk(p: Parser) {
    && (p.parsedRdy && !Decides(p.pc) ==> p.info.output)
    && (p.genRdy ==> p.info.output)
    && (p.pc == AtPublish(EosParse) ==> p.info.eos && !p.info.output)
  }

  /** The two steps that end it: handing over what makes the hardware thread abort, and handing
      over a frame that it will take for an end of stream. */
  predicate Dooms(p: Parser) { p.pc.AtPublish? && Fatal(p.info) }

  predicate Spills(p: Parser) { p.pc == AtPublish(RealTask) && p.info.eos && !p.info.valid }

  lemma PreparingOutcome(p: Parser, v: View, c: Choice)
    requires OutcomeOk(p) && FlagsOk(p) && PartOf(p.pc).Preparing?
    ensures OutcomeOk(PrepareControl(p, v, c))
  {
  }

  lemma ParsingOutcome(p: Parser, v: View, c: Choice)
    requires OutcomeOk(p) && FlagsOk(p) && PartOf(p.pc).Parsing?
    ensures OutcomeOk(ParseControl(p, v, c))
  {
  }

  lemma SubmittingOutcome(p: Parser, v: View, c: Choice)
    requires OutcomeOk(p) && FlagsOk(p) && GateOk(p, v.changed) && PartOf(p.pc).Submitting? && !Dooms(p)
    ensures OutcomeOk(SubmitControl(p, v, c))
  {
    match p.pc
    case AtChange =>
    case AtInfoSet =>
    case AtWait =>
    case AtFrame =>
    case AtSetIdle =>
    case AtDrop =>
    case AtPublish(EosPrepare) =>
    case AtPublish(EosParse) =>
    case AtPublish(InfoTask) =>
    case AtPublish(RealTask) =>
  }

  lemma ControlOutcome(p: Parser, v: View, c: Choice)
    requires OutcomeOk(p) && FlagsOk(p) && GateOk(p, v.changed) && !Dooms(p)
    ensures OutcomeOk(Control(p, v, c))
  {
    match PartOf(p.pc)
    case Parsing => ParsingOutcome(p, v, c);
    case Submitting => SubmittingOutcome(p, v, c);
    case Resetting =>
      if !p.pc.AtResetClear? {
        ResetFrame(p, v);
      }
    case Preparing => PreparingOutcome(p, v, c);
    case Filling => FillFrame(p, v, c);
  }

  // ---- frames the hardware thread will wait for ------------------------------------------------------

  predicate SoundOk(p: Parser) {
    p.pc.AtChange? || p.pc.AtWait? || BoundForHardware(p.pc) ==> !(p.info.output && p.info.eos && !p.info.valid)
  }

  predicate EosChoice(p: Parser, c: Choice) { Parses(p, c) && c.eos && c.output ==> c.valid }

  lemma SubmittingSound(p: Parser, v: View, c: Choice)
    requires SoundOk(p) && PartOf(p.pc).Submitting?
    ensures SoundOk(SubmitControl(p, v, c))
  {
  }

  lemma ParsingSound(p: Parser, v: View, c: Choice)
    requires FlagsOk(p) && EosChoice(p, c) && PartOf(p.pc).Parsing?
    ensures SoundOk(ParseControl(p, v, c))
  {
  }

  lemma ControlSound(p: Parser, v: View, c: Choice)
    requires FlagsOk(p) && SoundOk(p) && EosChoice(p, c)
    ensures SoundOk(Control(p, v, c))
  {
    match PartOf(p.pc)
    case Parsing => ParsingSound(p, v, c);
    case Submitting => SubmittingSound(p, v, c);
    case Resetting =>
      if !p.pc.AtResetClear? {
        ResetFrame(p, v);
      }
    case Preparing =>
    case Filling => FillFrame(p, v, c);
  }

  // ---- one announcement ----------------------------------------------------------------------------

  /** While the flag is in the task, the task is valid, so no end of stream carries it along. */
  predicate OnceOk(p: Parser, changed: bool, pushed: nat) {
    && (p.info.infoChange ==> p.info.valid && p.currRdy)
    && (PartOf(p.pc).Submitting? && !p.pc.AtDrop? && p.pc != AtPublish(EosPrepare) ==> p.currRdy)
    && (changed ==> pushed == (if p.genRdy then 1 else 0) && (p.pc.AtChange? ==> p.info.valid))
  }

  predicate ValidChoice(p: Parser, changed: bool, c: Choice) { Parses(p, c) && (changed || c.raise) ==> c.valid }

  lemma PreparingOnce(p: Parser, v: View, c: Choice, pushed: nat)
    requires FlagsOk(p) && OnceOk(p, v.changed, pushed) && PartOf(p.pc).Preparing?
    ensures OnceOk(PrepareControl(p, v, c), v.changed, PushedAfter(pushed, p, v.changed, c))
  {
  }

  lemma ParsingOnce(p: Parser, v: View, c: Choice, pushed: nat)
    requires LocalOk(p, v.fast, v.changed) && OnceOk(p, v.changed, pushed)
    requires PartOf(p.pc).Parsing? && ValidChoice(p, v.changed, c)
    ensures OnceOk(ParseControl(p, v, c), ChangedAfter(p, v.changed, c), PushedAfter(pushed, p, v.changed, c))
  {
  }

  lemma SubmittingOnce(p: Parser, v: View, c: Choice, pushed: nat)
    requires LocalOk(p, v.fast, v.changed) && OnceOk(p, v.changed, pushed) && PartOf(p.pc).Submitting?
    ensures OnceOk(SubmitControl(p, v, c), v.changed, PushedAfter(pushed, p, v.changed, c))
  {
    match p.pc
    case AtChange =>
    case AtInfoSet =>
    case AtWait =>
    case AtFrame =>
    case AtSetIdle =>
    case AtDrop =>
    case AtPublish(EosPrepare) =>
    case AtPublish(EosParse) =>
    case AtPublish(InfoTask) =>
    case AtPublish(RealTask) =>
  }

  lemma ControlOnce(p: Parser, v: View, c: Choice, pushed: nat)
    requires LocalOk(p, v.fast, v.changed) && OnceOk(p, v.changed, pushed) && ValidChoice(p, v.changed, c)
    ensures OnceOk(Control(p, v, c), ChangedAfter(p, v.changed, c), PushedAfter(pushed, p, v.changed, c))
  {
    match PartOf(p.pc)
    case Parsing => ParsingOnce(p, v, c, pushed);
    case Submitting => SubmittingOnce(p, v, c, pushed);
    case Resetting =>
      if !p.pc.AtResetClear? {
        ResetFrame(p, v);
      }
    case Preparing => PreparingOnce(p, v, c, pushed);
    case Filling => FillFrame(p, v, c);
  }
}
