/** The whole invariant of the decoder's threads (mpp/codec/mpp_dec.cpp), kept by every step of
    anybody whatever the codec's parse call finds, and the two hand-overs that end it: a task
    without an output slot at which the hardware thread aborts, and a frame which it takes for
    an end of stream. */
module DecoderInvariant {
  import opened Wrappers
  import opened Lists
  import opened BufferPool
  import opened Slots
  import opened HalTask
  import opened Decoder
  import opened DecoderGate
  import opened DecoderTasks
  import opened DecoderSlots
  import opened DecoderPackets

  /** What holds whatever the parse call finds ... */
  ghost predicate Base(s: State) { LocalOk(s.p, s.fast, s.changed) && TasksOk(s) }

  /** ... and as long as what was handed over is what it seems. */
  ghost predicate Good(s: State) {
    Base(s) && BitsOk(s.p) && OutcomeOk(s.p) && Jobbed(JobsOf(s)) && PacketsOk(s)
  }

  /** The hardware thread has aborted, or will: at a task before it, or at the end of the one it
      has in hand. */
  ghost predicate Doomed(s: State) { s.h.HAbort? || Late(s) || exists t: nat :: DoomedBy(JobsOf(s), t) }

  predicate DoomedBy(j: Jobs, t: nat) { Has(j.status, t, Processing) && Fatal(InfoOf(j.infos, t)) }

  predicate Late(s: State) { (Holds(s.h) || s.h.HFrame?) && !s.hinfo.output }

  // ---- the start ------------------------------------------------------------------------------

  lemma StartTasks(fast: bool, group: Pool)
    ensures TasksOk(Start(fast, group)) && Jobbed(JobsOf(Start(fast, group)))
  {
    FreshOk(TaskCount(fast));
  }

  lemma NoneHeld(slots: seq<Slot>, b: Id)
    requires forall i :: 0 <= i < |slots| ==> slots[i] == UNUSED
    ensures FrameRefs.Held(slots, {}, b) == 0
  {
    FrameRefs.NothingHeld(slots, {}, b);
  }

  lemma StartPool(slots: seq<Slot>, pool: Pool)
    requires forall i :: 0 <= i < |slots| ==> slots[i] == UNUSED
    requires PacketGroup(pool)
    ensures PoolOk(Table(slots, [], pool), AtTop)
  {
    forall b: Id ensures FrameRefs.Balanced(Books(Table(slots, [], pool), AtTop), b) {
      NoneHeld(slots, b);
    }
  }

  lemma StartPackets(slots: seq<Slot>, pool: Pool, cargo: seq<Option<nat>>)
    requires forall i :: 0 <= i < |slots| ==> slots[i] == UNUSED
    requires forall t: nat :: t < |cargo| ==> cargo[t].None?
    requires 2 <= |slots| <= 3 && PoolOk(Table(slots, [], pool), AtTop)
    ensures PktOk(Table(slots, [], pool), NO_TASK, cargo)
  {
  }

  lemma StartPkt(fast: bool, group: Pool)
    requires PacketGroup(group)
    ensures PacketsOk(Start(fast, group))
  {
    var s := Start(fast, group);
    StartPool(s.pkt.slots, group);
    StartPackets(s.pkt.slots, group, Cargo(s.g.status, s.infos, s.h));
  }

  lemma StartLocal(p: Parser, fast: bool, changed: bool, pushed: nat)
    requires p.pc.AtTop? && p.prevRdy && !p.currRdy && !p.copyRdy && !p.genRdy && !p.parsedRdy && !p.wait.prev
    requires p.info.input.None? && !p.info.infoChange && !changed
    ensures LocalOk(p, fast, changed) && BitsOk(p) && OutcomeOk(p) && OnceOk(p, changed, pushed)
  {
  }

  lemma StartGood(fast: bool, group: Pool)
    requires PacketGroup(group)
    ensures Good(Start(fast, group))
  {
    StartLocal(Start(fast, group).p, fast, Start(fast, group).changed, 0);
    StartTasks(fast, group);
    StartPkt(fast, group);
  }

  // ---- every step -------------------------------------------------------------------------------

  lemma ParserBase(s: State, c: Choice)
    requires Base(s)
    ensures Base(ParserStep(s, c))
  {
    var v := ViewOf(s, c);
    ControlLocal(s.p, v, c);
    ParserTasks(s, Control(s.p, v, c), c);
  }

  lemma BaseStep(s: State, e: Event)
    requires Base(s)
    ensures Base(Next(s, e))
  {
    match e
    case ParserMoves(c) => ParserBase(s, c);
    case HalMoves => HalTasks(s); WakeLocal(s.p, s.fast, s.changed);
    case UserResets =>
    case UserReady =>
    case UserSignals => SignalJobs(s);
  }

  lemma ParserGood(s: State, c: Choice)
    requires Good(s)
    ensures Supplied(s.p, ViewOf(s, c)) && (!Dooms(s.p) && !Spills(s.p) ==> Good(ParserStep(s, c)))
  {
    var v := ViewOf(s, c);
    var p' := Control(s.p, v, c);
    ParserPackets(s, p', c);
    if !Dooms(s.p) && !Spills(s.p) {
      OutcomeIsHonest(s.p);
      ControlLocal(s.p, v, c);
      ParserTasks(s, p', c);
      ControlBits(s.p, v, c);
      ControlOutcome(s.p, v, c);
    }
  }

  lemma WakeGood(p: Parser)
    requires BitsOk(p) && OutcomeOk(p)
    ensures BitsOk(Wake(p)) && OutcomeOk(Wake(p))
  {
  }

  lemma HalGood(s: State)
    requires Good(s)
    ensures Good(HalStep(s))
  {
    BaseStep(s, HalMoves);
    HalTasks(s);
    HalPackets(s);
    WakeGood(s.p);
  }

  lemma SignalJobs(s: State)
    requires Base(s)
    ensures Base(s.(p := Wake(s.p)))
    ensures Jobbed(JobsOf(s)) ==> Jobbed(JobsOf(s.(p := Wake(s.p))))
  {
    WakeLocal(s.p, s.fast, s.changed);
    UserWakes(JobsOf(s));
  }

  lemma SignalGood(s: State)
    requires Good(s)
    ensures Good(s.(p := Wake(s.p)))
  {
    SignalJobs(s);
    WakeGood(s.p);
    WakePacket(s.pkt, s.p, Cargo(s.g.status, s.infos, s.h));
  }

  /** Every step of anybody keeps everything, except those two hand-overs. */
  lemma StepGood(s: State, e: Event)
    requires Good(s)
    ensures !(e.ParserMoves? && (Dooms(s.p) || Spills(s.p))) ==> Good(Next(s, e))
  {
    match e
    case ParserMoves(c) => ParserGood(s, c);
    case HalMoves => HalGood(s);
    case UserResets =>
    case UserReady =>
    case UserSignals => SignalGood(s);
  }

  // ---- a task without an output slot --------------------------------------------------------------

  lemma HalKeepsDoom(s: State, t: nat)
    requires TasksOk(s) && DoomedBy(JobsOf(s), t)
    ensures HalStep(s).h.HAbort? || Late(HalStep(s)) || DoomedBy(JobsOf(HalStep(s)), t)
  {
    if s.h.HIdle? || s.h.HFastIdle? {
      SetStatusOk(s.g, s.h.t, Idle);
      assert s.h.t != t;
    } else if s.h.HDone? {
      SetStatusOk(s.g, s.h.t, ProcDone);
    } else {
      HalReadsDoom(s, t);
    }
  }

  lemma HalReadsDoom(s: State, t: nat)
    requires TasksOk(s) && DoomedBy(JobsOf(s), t) && !s.h.HIdle? && !s.h.HFastIdle? && !s.h.HDone?
    ensures HalStep(s).h.HAbort? || DoomedBy(JobsOf(HalStep(s)), t)
  {
  }

  lemma HalStaysLate(s: State)
    requires Late(s)
    ensures HalStep(s).h.HAbort? || Late(HalStep(s))
  {
  }

  lemma ParserKeepsDoom(s: State, p': Parser, c: Choice, t: nat)
    requires TasksOk(s) && DoomedBy(JobsOf(s), t)
    ensures DoomedBy(JobsOf(Effect(s, p', c)), t)
  {
    GroupAfterOk(s.g, s.infos, s.p);
  }

  /** The hardware thread cannot be saved. */
  lemma DoomedStep(s: State, e: Event)
    requires Base(s) && Doomed(s)
    ensures Doomed(Next(s, e))
  {
    if s.h.HAbort? || Late(s) {
      if e.HalMoves? && Late(s) {
        HalStaysLate(s);
      }
    } else {
      var t: nat :| DoomedBy(JobsOf(s), t);
      DoomedByStep(s, e, t);
    }
  }

  lemma DoomedByStep(s: State, e: Event, t: nat)
    requires Base(s) && DoomedBy(JobsOf(s), t)
    ensures Doomed(Next(s, e))
  {
    match e
    case ParserMoves(c) =>
      ParserKeepsDoom(s, Control(s.p, ViewOf(s, c), c), c, t);
      assert DoomedBy(JobsOf(Next(s, e)), t);
    case HalMoves => HalKeepsDoom(s, t);
    case _ => assert DoomedBy(JobsOf(Next(s, e)), t);
  }

  lemma DoomingStep(s: State, c: Choice)
    requires Base(s) && Dooms(s.p)
    ensures Doomed(ParserStep(s, c))
  {
    GroupAfterOk(s.g, s.infos, s.p);
    assert DoomedBy(JobsOf(ParserStep(s, c)), s.p.hnd.value);
  }

  // ---- runs -----------------------------------------------------------------------------------------

  lemma BaseKept(run: seq<State>, events: seq<Event>, at: nat)
    requires Steps(run, events) && at < |run| && Base(run[0])
    ensures Base(run[at])
  {
    forall i | 0 < i < |run| && Base(run[i - 1]) ensures Base(run[i]) {
      BaseOfRun(run, events, i);
    }
    Induct(run, s => Base(s), 0, at);
  }

  lemma RunBase(run: seq<State>, events: seq<Event>, fast: bool, at: nat)
    requires Execution(run, events, fast) && at < |run|
    ensures Base(run[at])
  {
    BaseAtStart(run, events, fast);
    BaseKept(run, events, at);
  }

  lemma StartOfRun(run: seq<State>, events: seq<Event>, fast: bool)
    requires Execution(run, events, fast)
    ensures Good(run[0])
  {
    StartGood(fast, run[0].pkt.pool);
  }

  lemma BaseAtStart(run: seq<State>, events: seq<Event>, fast: bool)
    requires Execution(run, events, fast)
    ensures Base(run[0])
  {
    StartOfRun(run, events, fast);
  }

  lemma BaseOfRun(run: seq<State>, events: seq<Event>, at: nat)
    requires Steps(run, events) && 0 < at < |run| && Base(run[at - 1])
    ensures Base(run[at])
  {
    BaseStep(run[at - 1], events[at - 1]);
    assert StepAt(run, events, at - 1);
  }

  /** Every parse of the run with an output slot is valid at the end of the stream. */
  ghost predicate EosRun(run: seq<State>, events: seq<Event>) {
    |run| == |events| + 1 && forall i :: 0 <= i < |events| ==> EosAt(run, events, i)
  }

  ghost predicate EosAt(run: seq<State>, events: seq<Event>, i: nat) { i < |events| < |run| && EosOk(run[i], events[i]) }

  ghost predicate Kept(s: State) { !Doomed(s) ==> Good(s) && SoundOk(s.p) }

  lemma SoundSpillsNot(p: Parser)
    requires FlagsOk(p) && OutcomeOk(p) && SoundOk(p)
    ensures !Spills(p)
  {
  }

  lemma SoundStep(s: State, e: Event)
    requires FlagsOk(s.p) && SoundOk(s.p) && EosOk(s, e)
    ensures SoundOk(Next(s, e).p)
  {
    match e
    case ParserMoves(c) => ControlSound(s.p, ViewOf(s, c), c);
    case HalMoves => HalTellsNothing(s);
    case _ =>
  }

  lemma KeptStep(s: State, e: Event)
    requires Base(s) && Kept(s) && EosOk(s, e)
    ensures Kept(Next(s, e))
  {
    if Doomed(s) {
      DoomedStep(s, e);
    } else {
      StepGood(s, e);
      SoundSpillsNot(s.p);
      SoundStep(s, e);
      if e.ParserMoves? && Dooms(s.p) {
        DoomingStep(s, e.c);
      }
    }
  }

  lemma KeptAtStart(run: seq<State>, events: seq<Event>, fast: bool)
    requires Execution(run, events, fast)
    ensures Kept(run[0])
  {
    StartOfRun(run, events, fast);
  }

  lemma KeptOfRun(run: seq<State>, events: seq<Event>, fast: bool, at: nat)
    requires Execution(run, events, fast) && EosRun(run, events) && 0 < at < |run| && Kept(run[at - 1])
    ensures Kept(run[at])
  {
    RunBase(run, events, fast, at - 1);
    assert EosAt(run, events, at - 1);
    KeptStep(run[at - 1], events[at - 1]);
    assert StepAt(run, events, at - 1);
  }

  /** Everything is in order in every state of every such run, until the hardware thread is
      bound to abort. */
  lemma RunGood(run: seq<State>, events: seq<Event>, fast: bool, at: nat)
    requires Execution(run, events, fast) && EosRun(run, events) && at < |run|
    ensures Kept(run[at])
  {
    KeptAtStart(run, events, fast);
    forall i | 0 < i < |run| && Kept(run[i - 1]) ensures Kept(run[i]) {
      KeptOfRun(run, events, fast, i);
    }
    Induct(run, s => Kept(s), 0, at);
  }

  // ---- no task without an output slot, if every parse shows one -------------------------------------

  predicate ShownChoice(p: Parser, changed: bool, c: Choice) {
    Parses(p, c) && (changed || c.raise || (c.eos && c.valid)) ==> c.output
  }

  predicate Showable(p: Parser, changed: bool) {
    && (p.pc.AtChange? && changed ==> p.info.output) && (InfoBound(p.pc) ==> p.info.output)
    && (p.pc.AtChange? || p.pc.AtWait? || p.pc == AtPublish(EosParse) ==> (p.info.eos && p.info.valid ==> p.info.output))
  }

  lemma ParsingShown(p: Parser, v: View, c: Choice)
    requires FlagsOk(p) && OutcomeOk(p) && ShownChoice(p, v.changed, c) && PartOf(p.pc).Parsing?
    ensures Showable(ParseControl(p, v, c), ChangedAfter(p, v.changed, c))
  {
  }

  lemma ControlShown(p: Parser, v: View, c: Choice)
    requires FlagsOk(p) && OutcomeOk(p) && ShownChoice(p, v.changed, c) && Showable(p, v.changed)
    ensures Showable(Control(p, v, c), ChangedAfter(p, v.changed, c))
  {
    match PartOf(p.pc)
    case Resetting =>
      if !p.pc.AtResetClear? {
        ResetFrame(p, v);
      }
    case Preparing => PreparingShown(p, v, c);
    case Filling => FillFrame(p, v, c);
    case Parsing => ParsingShown(p, v, c);
    case Submitting => SubmittingShown(p, v, c);
  }

  lemma PreparingShown(p: Parser, v: View, c: Choice)
    requires PartOf(p.pc).Preparing?
    ensures Showable(PrepareControl(p, v, c), v.changed)
  {
  }

  lemma SubmittingShown(p: Parser, v: View, c: Choice)
    requires Showable(p, v.changed) && PartOf(p.pc).Submitting?
    ensures Showable(SubmitControl(p, v, c), v.changed)
  {
  }

  ghost predicate Fine(s: State) { Good(s) && !Doomed(s) && Showable(s.p, s.changed) && SoundOk(s.p) }

  lemma HalStaysClear(s: State)
    requires TasksOk(s) && !Doomed(s)
    ensures !Doomed(HalStep(s))
  {
    var s' := HalStep(s);
    HalClear(s);
    if s'.h.HAbort? || Late(s') {
      HalSpares(s);
    }
    forall t: nat ensures !DoomedBy(JobsOf(s'), t) {
      assert !DoomedBy(JobsOf(s), t);
    }
  }

  /** The hardware thread makes no task one in processing ... */
  lemma HalClear(s: State)
    requires TasksOk(s)
    ensures HalStep(s).infos == s.infos
    ensures forall t: nat :: Has(HalStep(s).g.status, t, Processing) ==> Has(s.g.status, t, Processing)
  {
    if s.h.HIdle? || s.h.HFastIdle? {
      SetStatusOk(s.g, s.h.t, Idle);
    } else if s.h.HDone? {
      SetStatusOk(s.g, s.h.t, ProcDone);
    }
  }

  /** ... and aborts at none that is fit. */
  lemma HalSpares(s: State)
    requires TasksOk(s) && (HalStep(s).h.HAbort? || Late(HalStep(s)))
    ensures Doomed(s)
  {
    if s.h.HInfo? || s.h.HDone? {
      SparesFit(JobsOf(s), HalStep(s));
      assert DoomedBy(JobsOf(s), s.h.t);
    } else {
      LateBefore(s);
    }
  }

  lemma SparesFit(j: Jobs, s': State)
    requires Handles(j) && (j.h.HInfo? || j.h.HDone?)
    requires j.h.HInfo? ==> s'.h.HAbort? ==> Fatal(InfoOf(j.infos, j.h.t))
    requires j.h.HInfo? ==> !Holds(s'.h) && !s'.h.HFrame?
    requires j.h.HDone? ==> !s'.h.HAbort? && s'.hinfo == j.hinfo
    requires s'.h.HAbort? || Late(s')
    ensures DoomedBy(j, j.h.t)
  {
  }

  lemma LateBefore(s: State)
    requires (HalStep(s).h.HAbort? || Late(HalStep(s))) && !s.h.HInfo? && !s.h.HDone?
    ensures s.h.HAbort? || Late(s)
  {
  }

  lemma ParserStaysClear(s: State, p': Parser, c: Choice)
    requires TasksOk(s) && !Doomed(s) && !Dooms(s.p)
    ensures !Doomed(Effect(s, p', c))
  {
    GroupAfterOk(s.g, s.infos, s.p);
    var j, j' := JobsOf(s), JobsOf(Effect(s, p', c));
    forall t: nat ensures !DoomedBy(j', t) {
      assert !DoomedBy(j, t);
    }
  }

  lemma ShownDoomsNot(p: Parser, changed: bool)
    requires FlagsOk(p) && OutcomeOk(p) && Showable(p, changed)
    ensures !Dooms(p)
  {
  }

  lemma ParserFine(s: State, c: Choice)
    requires Fine(s) && EosChoice(s.p, c) && ShownChoice(s.p, s.changed, c)
    ensures Fine(ParserStep(s, c))
  {
    ShownDoomsNot(s.p, s.changed);
    SoundSpillsNot(s.p);
    ParserGood(s, c);
    ControlShown(s.p, ViewOf(s, c), c);
    ControlSound(s.p, ViewOf(s, c), c);
    ParserStaysClear(s, Control(s.p, ViewOf(s, c), c), c);
  }

  lemma FineStep(s: State, e: Event)
    requires Fine(s) && EosOk(s, e) && ShownOk(s, e)
    ensures Fine(Next(s, e))
  {
    match e
    case ParserMoves(c) => ParserFine(s, c);
    case HalMoves => HalFine(s);
    case _ => UserFine(s, e);
  }

  lemma HalFine(s: State)
    requires Fine(s)
    ensures Fine(HalStep(s))
  {
    HalGood(s);
    HalStaysClear(s);
    HalTellsNothing(s);
  }

  lemma WakeSound(p: Parser, changed: bool)
    requires Showable(p, changed) && SoundOk(p)
    ensures Showable(Wake(p), changed) && SoundOk(Wake(p)) && Showable(p, false)
  {
  }

  lemma UserFine(s: State, e: Event)
    requires Fine(s) && (e.UserResets? || e.UserReady? || e.UserSignals?)
    ensures Fine(Next(s, e))
  {
    StepGood(s, e);
    WakeSound(s.p, s.changed);
    KeepsClear(s, Next(s, e));
  }

  lemma KeepsClear(s: State, s': State)
    requires !Doomed(s) && s'.g == s.g && s'.infos == s.infos && s'.h == s.h && s'.hinfo == s.hinfo
    ensures !Doomed(s')
  {
    forall t: nat ensures !DoomedBy(JobsOf(s'), t) {
      assert !DoomedBy(JobsOf(s), t);
    }
  }

  ghost predicate ShownRun(run: seq<State>, events: seq<Event>) {
    |run| == |events| + 1 && forall i :: 0 <= i < |events| ==> ShownAt(run, events, i)
  }

  ghost predicate ShownAt(run: seq<State>, events: seq<Event>, i: nat) { i < |events| < |run| && ShownOk(run[i], events[i]) }

  lemma FineAtStart(run: seq<State>, events: seq<Event>, fast: bool)
    requires Execution(run, events, fast)
    ensures Fine(run[0])
  {
    StartOfRun(run, events, fast);
    forall t: nat ensures !DoomedBy(JobsOf(run[0]), t) {
    }
  }

  lemma FineOfRun(run: seq<State>, events: seq<Event>, fast: bool, at: nat)
    requires Execution(run, events, fast) && EosRun(run, events) && ShownRun(run, events) && 0 < at < |run| && Fine(run[at - 1])
    ensures Fine(run[at])
  {
    assert EosAt(run, events, at - 1) && ShownAt(run, events, at - 1);
    FineStep(run[at - 1], events[at - 1]);
    assert StepAt(run, events, at - 1);
  }

  /** If besides every parse that ends with the change mark up, or with a valid end of stream, has
      an output slot, the hardware thread never aborts and everything is in order throughout. */
  lemma RunFine(run: seq<State>, events: seq<Event>, fast: bool, at: nat)
    requires Execution(run, events, fast) && EosRun(run, events) && ShownRun(run, events) && at < |run|
    ensures Fine(run[at])
  {
    FineAtStart(run, events, fast);
    forall i | 0 < i < |run| && Fine(run[i - 1]) ensures Fine(run[i]) {
      FineOfRun(run, events, fast, i);
    }
    Induct(run, s => Fine(s), 0, at);
  }

  lemma HalTellsNothing(s: State)
    ensures HalStep(s).changed == s.changed && HalStep(s).pushed == s.pushed
    ensures HalStep(s).p == s.p || HalStep(s).p == Wake(s.p)
  {
  }
}
