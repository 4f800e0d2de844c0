/** Runs of the decoder that show where its promises end (mpp/codec/mpp_dec.cpp): the
    conditions on the codec's parse call in DecoderInvariant and DecoderSafety are needed, and
    the lost wakeups of DecoderWaits do happen. */
module DecoderRuns {
  import opened Wrappers
  import opened BufferPool
  import opened Slots
  import opened HalTask
  import opened Decoder
  import opened DecoderGate
  import opened DecoderTasks
  import opened DecoderSlots
  import opened DecoderInvariant
  import opened DecoderNormal
  import opened DecoderWaits

  // ---- reachable states ----------------------------------------------------------------------

  ghost predicate Reached(s: State, fast: bool) {
    exists run: seq<State>, events: seq<Event> :: Execution(run, events, fast) && run[|run| - 1] == s
  }

  /** A state on a run whose parse calls all keep what is asked of them. */
  ghost predicate On(s: State, fast: bool) {
    exists run: seq<State>, events: seq<Event> ::
      Execution(run, events, fast) && EosRun(run, events) && ShownRun(run, events) && run[|run| - 1] == s
  }

  lemma ExtendSteps(run: seq<State>, events: seq<Event>, e: Event)
    requires Steps(run, events)
    ensures Steps(run + [Next(run[|run| - 1], e)], events + [e])
  {
    var run', events' := run + [Next(run[|run| - 1], e)], events + [e];
    forall i | 0 <= i < |events'| ensures StepAt(run', events', i) {
      if i < |events| {
        assert StepAt(run, events, i);
      }
    }
  }

  lemma Extend(run: seq<State>, events: seq<Event>, fast: bool, s: State, e: Event)
    requires Execution(run, events, fast) && run[|run| - 1] == s
    ensures var run' := run + [Next(s, e)];
            Execution(run', events + [e], fast) && run'[|run'| - 1] == Next(s, e)
  {
    ExtendSteps(run, events, e);
  }

  lemma NextReached(s: State, e: Event, fast: bool)
    requires Reached(s, fast)
    ensures Reached(Next(s, e), fast)
  {
    var run: seq<State>, events: seq<Event> :| Execution(run, events, fast) && run[|run| - 1] == s;
    Extend(run, events, fast, s, e);
  }

  lemma ExtendKept(run: seq<State>, events: seq<Event>, s: State, e: Event)
    requires EosRun(run, events) && ShownRun(run, events) && run[|run| - 1] == s && EosOk(s, e) && ShownOk(s, e)
    ensures EosRun(run + [Next(s, e)], events + [e]) && ShownRun(run + [Next(s, e)], events + [e])
  {
    var run', events' := run + [Next(s, e)], events + [e];
    forall i | 0 <= i < |events'| ensures EosAt(run', events', i) && ShownAt(run', events', i) {
      if i < |events| {
        assert EosAt(run, events, i) && ShownAt(run, events, i);
      }
    }
  }

  lemma NextOn(s: State, e: Event, fast: bool)
    requires On(s, fast) && EosOk(s, e) && ShownOk(s, e)
    ensures On(Next(s, e), fast)
  {
    var run: seq<State>, events: seq<Event> :|
      Execution(run, events, fast) && EosRun(run, events) && ShownRun(run, events) && run[|run| - 1] == s;
    Extend(run, events, fast, s, e);
    ExtendKept(run, events, s, e);
    assert EosRun(run + [Next(s, e)], events + [e]);
  }

  lemma StartOn(fast: bool, group: Pool)
    requires PacketGroup(group)
    ensures On(Start(fast, group), fast)
  {
    var run: seq<State>, events: seq<Event> := [Start(fast, group)], [];
    assert Execution(run, events, fast) && EosRun(run, events) && ShownRun(run, events);
  }

  lemma OnIsFine(s: State, fast: bool)
    requires On(s, fast)
    ensures Fine(s) && s.fast == fast && Reached(s, fast)
  {
    var run: seq<State>, events: seq<Event> :|
      Execution(run, events, fast) && EosRun(run, events) && ShownRun(run, events) && run[|run| - 1] == s;
    RunFine(run, events, fast, |run| - 1);
    RunMode(run, events, fast, |run| - 1);
  }

  lemma OnReached(s: State, fast: bool)
    requires On(s, fast)
    ensures Reached(s, fast)
  {
    OnIsFine(s, fast);
  }

  lemma ReachedBase(s: State, fast: bool)
    requires Reached(s, fast)
    ensures Base(s) && s.fast == fast
  {
    var run: seq<State>, events: seq<Event> :| Execution(run, events, fast) && run[|run| - 1] == s;
    RunBase(run, events, fast, |run| - 1);
    RunMode(run, events, fast, |run| - 1);
  }

  lemma ReachedNormal(s: State)
    requires Reached(s, false)
    ensures NormalKept(s)
  {
    var run: seq<State>, events: seq<Event> :| Execution(run, events, false) && run[|run| - 1] == s;
    RunNormal(run, events, |run| - 1);
  }

  // ---- kinds of runs ------------------------------------------------------------------------------

  /** The steps that touch nothing shared. */
  predicate Inner(pc: Pc) { pc.AtTop? || pc.AtGate? || pc.AtHandle? || pc.AtPrepare? || pc.AtPrev? || pc.AtChange? || pc.AtWait? }

  /** A property of states that the parser's inner steps keep ... */
  ghost predicate Keeps(inv: State -> bool) {
    forall s: State, c: Choice :: inv(s) && Inner(s.p.pc) ==> inv(ParserStep(s, c))
  }

  /** ... and that a slot and a buffer can be had by. */
  ghost predicate Feeds(inv: State -> bool) {
    forall s: State, c: Choice :: inv(s) && PartOf(s.p.pc).Filling? ==> Fed(inv, s, c)
  }

  ghost predicate Fed(inv: State -> bool, s: State, c: Choice) { inv(ParserStep(s, c)) && Supplied(s.p, ViewOf(s, c)) }

  lemma OnWalks(s: State, c: Choice, fast: bool)
    requires On(s, fast) && !Parses(s.p, c)
    ensures On(ParserStep(s, c), fast)
  {
    NextOn(s, ParserMoves(c), fast);
  }

  lemma OnFed(s: State, c: Choice, fast: bool)
    requires On(s, fast) && PartOf(s.p.pc).Filling?
    ensures On(ParserStep(s, c), fast) && Supplied(s.p, ViewOf(s, c))
  {
    OnWalks(s, c, fast);
    OnIsFine(s, fast);
    ParserGood(s, c);
  }

  lemma OnInner(s: State, c: Choice, fast: bool)
    requires On(s, fast) && Inner(s.p.pc)
    ensures On(ParserStep(s, c), fast)
  {
    OnWalks(s, c, fast);
  }

  lemma OnKind(fast: bool)
    ensures Keeps(s => On(s, fast)) && Feeds(s => On(s, fast))
  {
    OnFeeds(fast);
    var inv := s => On(s, fast);
    forall s: State, c: Choice | inv(s) && Inner(s.p.pc) ensures inv(ParserStep(s, c)) {
      OnInner(s, c, fast);
    }
  }

  lemma OnFeeds(fast: bool)
    ensures Feeds(s => On(s, fast))
  {
    var inv := s => On(s, fast);
    forall s: State, c: Choice | inv(s) && PartOf(s.p.pc).Filling? ensures Fed(inv, s, c) {
      OnFed(s, c, fast);
    }
  }

  lemma ReachedKind(fast: bool)
    ensures Keeps(s => Reached(s, fast))
  {
    var inv := s => Reached(s, fast);
    forall s: State, c: Choice | inv(s) && Inner(s.p.pc) ensures inv(ParserStep(s, c)) {
      NextReached(s, ParserMoves(c), fast);
    }
  }

  // ---- the parser on its way to the parse call ---------------------------------------------------

  /** Everything shared but the packet slots is as it was. */
  predicate Same(s: State, s': State) {
    && s'.g == s.g && s'.infos == s.infos && s'.h == s.h && s'.hw == s.hw && s'.fast == s.fast
    && s'.changed == s.changed && s'.resetFlag == s.resetFlag && s'.pushed == s.pushed
  }

  predicate SameParser(p: Parser, q: Parser) { SameTask(p, q) && q.prevRdy == p.prevRdy && q.wait == p.wait }

  lemma InnerStep(s: State, c: Choice, p': Parser)
    requires Inner(s.p.pc) && p' == Control(s.p, ViewOf(s, c), c) && !p'.pc.AtPublish?
    ensures ParserStep(s, c).p == p' && Same(s, ParserStep(s, c))
  {
  }

  lemma Inside(s: State, c: Choice, inv: State -> bool, p': Parser) returns (s': State)
    requires inv(s) && Keeps(inv) && Inner(s.p.pc) && p' == Control(s.p, ViewOf(s, c), c) && !p'.pc.AtPublish?
    ensures inv(s') && s'.p == p' && Same(s, s')
  {
    s' := ParserStep(s, c);
    InnerStep(s, c, p');
  }

  function Distance(pc: Pc): nat {
    match pc
    case AtPktSlot => 8
    case AtPktBuf => 7
    case AtBufGet => 6
    case AtBufMake(_) => 5
    case AtBufSet(_) => 4
    case AtBufPut(_) => 3
    case AtCopy => 2
    case AtCopied => 1
    case _ => 0
  }

  lemma FillShared(s: State, c: Choice)
    requires PartOf(s.p.pc).Filling?
    ensures Same(s, ParserStep(s, c)) && ParserStep(s, c).p == PacketControl(s.p, ViewOf(s, c), c)
  {
    FillFrame(s.p, ViewOf(s, c), c);
  }

  lemma Nearer(p: Parser, v: View, c: Choice)
    requires PartOf(p.pc).Filling? && Supplied(p, v)
    ensures var q := PacketControl(p, v, c);
            Distance(q.pc) < Distance(p.pc) && (PartOf(q.pc).Filling? || q.pc.AtPrev?)
  {
  }

  lemma Fill(s: State, c: Choice)
    requires PartOf(s.p.pc).Filling? && Supplied(s.p, ViewOf(s, c))
    ensures var s' := ParserStep(s, c);
            && Same(s, s') && SameParser(s.p, s'.p)
            && Distance(s'.p.pc) < Distance(s.p.pc) && (PartOf(s'.p.pc).Filling? || s'.p.pc.AtPrev?)
  {
    FillShared(s, c);
    FillFrame(s.p, ViewOf(s, c), c);
    Nearer(s.p, ViewOf(s, c), c);
  }

  lemma {:induction false} ToPrev(s: State, c: Choice, inv: State -> bool) returns (s': State)
    requires inv(s) && Feeds(inv) && (PartOf(s.p.pc).Filling? || s.p.pc.AtPrev?)
    ensures inv(s') && s'.p.pc.AtPrev? && Same(s, s') && SameParser(s.p, s'.p)
    decreases Distance(s.p.pc)
  {
    s' := s;
    if !s.p.pc.AtPrev? {
      assert Fed(inv, s, c);
      Fill(s, c);
      s' := ToPrev(ParserStep(s, c), c, inv);
    }
  }

  /** Where the parser's own code goes from the top of the loop, ... */
  lemma LoopMoves(p: Parser, v: View, c: Choice)
    ensures p.pc.AtTop? && !v.resetFlag ==> Control(p, v, c) == p.(pc := AtGate)
    ensures p.pc.AtTop? && v.resetFlag && !v.fast && p.prevRdy ==> Control(p, v, c) == p.(pc := AtReset)
    ensures p.pc.AtGate? && p.wait == NO_WAIT && !v.held ==> Control(p, v, c) == p.(pc := AtHandle)
  {
  }

  /** ... from the lookup of a task, ... */
  lemma HandleMoves(p: Parser, v: View, c: Choice)
    requires p.pc.AtHandle?
    ensures Control(p, v, c) ==
            if p.hnd.Some? then p.(wait := p.wait.(hnd := false), pc := AtPrepare)
            else if v.found.Some? then p.(hnd := v.found, wait := p.wait.(hnd := false), pc := AtPrepare)
            else p.(wait := p.wait.(hnd := true), pc := AtTop)
  {
  }

  /** ... from the split, ... */
  lemma PrepareMoves(p: Parser, v: View, c: Choice)
    requires p.pc.AtPrepare?
    ensures !p.currRdy && c.go && c.valid ==>
              Control(p, v, c) == p.(info := p.info.(valid := true, eos := c.eos), currRdy := true, pc := AtPktSlot)
    ensures p.currRdy && p.info.valid ==> Control(p, v, c) == p.(pc := AtPktSlot)
    ensures p.currRdy && !p.info.valid && !p.info.eos ==> Control(p, v, c) == p.(currRdy := false, pc := AtTop)
  {
  }

  /** ... past the previous task, ... */
  lemma PrevMoves(p: Parser, v: View, c: Choice)
    ensures p.pc.AtPrev? && (v.fast || p.prevRdy) ==> Control(p, v, c) == p.(pc := AtParse)
  {
  }

  /** ... and past the parse. */
  lemma ParseMoves(p: Parser, v: View, c: Choice)
    requires p.pc.AtParse? && c.go
    ensures Control(p, v, c) ==
            if p.parsedRdy then p.(wait := p.wait.(pic := false), pc := AtChange)
            else p.(info := p.info.(valid := c.valid, eos := c.eos, output := c.output),
                    parsedRdy := true, wait := p.wait.(pic := false), pc := AtChange)
  {
  }

  lemma ChangeMoves(p: Parser, v: View, c: Choice)
    requires p.pc.AtChange?
    ensures Control(p, v, c) ==
            if v.changed && !p.genRdy then p.(info := p.info.(infoChange := true), pc := AtInfoSet) else p.(pc := AtWait)
  {
  }

  lemma WaitMoves(p: Parser, v: View, c: Choice)
    requires p.pc.AtWait?
    ensures v.changed ==> Control(p, v, c) == p.(wait := p.wait.(info := true), pc := AtTop)
    ensures !v.changed && p.info.output ==>
              Control(p, v, c) == p.(genRdy := false, info := p.info.(infoChange := false),
                                     wait := p.wait.(info := false), pc := AtFrame)
  {
  }

  /** From the top of the loop to the lookup of a task, with no wait bit up. */
  lemma ToHandle(s: State, c: Choice, inv: State -> bool) returns (s': State)
    requires inv(s) && Keeps(inv) && (s.p.pc.AtTop? || s.p.pc.AtGate?) && s.p.wait == NO_WAIT && !s.resetFlag && !Holds(s.h)
    ensures inv(s') && s'.p == s.p.(pc := AtHandle) && Same(s, s')
  {
    s' := s;
    if s.p.pc.AtTop? {
      s' := ToGate(s, c, inv);
    }
    LoopMoves(s'.p, ViewOf(s', c), c);
    s' := Inside(s', c, inv, s'.p.(pc := AtHandle));
  }

  lemma ToGate(s: State, c: Choice, inv: State -> bool) returns (s': State)
    requires inv(s) && Keeps(inv) && s.p.pc.AtTop? && !s.resetFlag
    ensures inv(s') && s'.p == s.p.(pc := AtGate) && Same(s, s')
  {
    LoopMoves(s.p, ViewOf(s, c), c);
    s' := Inside(s, c, inv, s.p.(pc := AtGate));
  }

  lemma TakeHandle(s: State, c: Choice, inv: State -> bool) returns (s': State)
    requires inv(s) && Keeps(inv) && s.p.pc.AtHandle? && s.p.hnd.None? && First(s.g, Idle).Some?
    ensures inv(s') && Same(s, s')
    ensures s'.p == s.p.(hnd := First(s.g, Idle), wait := s.p.wait.(hnd := false), pc := AtPrepare)
  {
    HandleMoves(s.p, ViewOf(s, c), c);
    s' := Inside(s, c, inv, s.p.(hnd := First(s.g, Idle), wait := s.p.wait.(hnd := false), pc := AtPrepare));
  }

  lemma FindPacket(s: State, c: Choice, inv: State -> bool) returns (s': State)
    requires inv(s) && Keeps(inv) && s.p.pc.AtPrepare?
    requires if s.p.currRdy then s.p.info.valid else c.go && c.valid && !c.eos
    ensures inv(s') && Same(s, s') && s'.p.pc.AtPktSlot? && s'.p.currRdy
    ensures s'.p == (if s.p.currRdy then s.p else s.p.(info := s.p.info.(valid := true, eos := false), currRdy := true)).(pc := AtPktSlot)
  {
    PrepareMoves(s.p, ViewOf(s, c), c);
    s' := Inside(s, c, inv, Control(s.p, ViewOf(s, c), c));
  }

  lemma PastPrev(s: State, c: Choice, inv: State -> bool) returns (s': State)
    requires inv(s) && Keeps(inv) && s.p.pc.AtPrev? && (s.fast || s.p.prevRdy)
    ensures inv(s') && s'.p == s.p.(pc := AtParse) && Same(s, s')
  {
    PrevMoves(s.p, ViewOf(s, c), c);
    s' := Inside(s, c, inv, s.p.(pc := AtParse));
  }

  /** The parser between tasks, at the top of its loop. */
  predicate Between(s: State) {
    && (s.p.pc.AtTop? || s.p.pc.AtGate?) && s.p.wait == NO_WAIT && s.p.hnd.None? && !s.p.currRdy && !s.p.parsedRdy && !s.p.genRdy
    && !s.p.info.infoChange && (s.fast || s.p.prevRdy) && !s.resetFlag && !Holds(s.h)
  }

  /** A packet is found, and its parse call comes next. */
  predicate AtCall(p: Parser) {
    p.pc.AtParse? && p.hnd.Some? && p.currRdy && !p.parsedRdy && !p.genRdy && !p.info.infoChange && p.wait == NO_WAIT
  }

  lemma ToCall(s: State, c: Choice, inv: State -> bool) returns (s': State)
    requires inv(s) && Keeps(inv) && Feeds(inv) && Between(s) && First(s.g, Idle).Some? && c.go && c.valid && !c.eos
    ensures inv(s') && AtCall(s'.p) && Same(s, s') && s'.p.prevRdy == s.p.prevRdy
  {
    var s1 := ToHandle(s, c, inv);
    var s2 := TakeHandle(s1, c, inv);
    var s3 := FindPacket(s2, c, inv);
    var s4 := ToPrev(s3, c, inv);
    s' := PastPrev(s4, c, inv);
  }

  /** The parse call and what it leaves. */
  lemma Call(s: State, c: Choice)
    requires s.p.pc.AtParse? && !s.p.parsedRdy && c.go
    ensures var s' := ParserStep(s, c);
            && s'.p == s.p.(info := s.p.info.(valid := c.valid, eos := c.eos, output := c.output),
                            parsedRdy := true, wait := s.p.wait.(pic := false), pc := AtChange)
            && s'.g == s.g && s'.infos == s.infos && s'.h == s.h && s'.hw == s.hw && s'.fast == s.fast
            && s'.resetFlag == s.resetFlag && s'.changed == (s.changed || c.raise)
            && s'.pushed == if c.raise && !s.changed then 0 else s.pushed
  {
    ParseMoves(s.p, ViewOf(s, c), c);
  }

  /** A parse call that keeps what is asked. */
  lemma FairCall(s: State, c: Choice, fast: bool) returns (s': State)
    requires On(s, fast) && AtCall(s.p) && c.go
    requires (c.eos && c.output ==> c.valid) && (s.changed || c.raise || (c.eos && c.valid) ==> c.output)
    ensures s' == ParserStep(s, c) && On(s', fast)
  {
    s' := ParserStep(s, c);
    NextOn(s, ParserMoves(c), fast);
  }

  /** From the start to a parse call. */
  lemma FirstCall(group: Pool, c: Choice, fast: bool) returns (s: State)
    requires PacketGroup(group) && c.go && c.valid && !c.eos
    ensures On(s, fast) && AtCall(s.p) && !s.changed && s.h.HTop? && !s.resetFlag && s.p.prevRdy && s.fast == fast
    ensures s.g == HalTask.Fresh(TaskCount(fast))
  {
    StartOn(fast, group);
    OnKind(fast);
    FreshIdle(fast);
    s := ToCall(Start(fast, group), c, s => On(s, fast));
  }

  lemma FreshIdle(fast: bool)
    ensures First(HalTask.Fresh(TaskCount(fast)), Idle) == Some(0)
  {
  }

  // ---- a frame at the end of the stream, left invalid ------------------------------------------------

  lemma ToFrame(s: State, c: Choice, inv: State -> bool) returns (s': State)
    requires inv(s) && Keeps(inv) && s.p.pc.AtChange? && !s.changed && s.p.info.output
    ensures inv(s') && Same(s, s')
    ensures s'.p == s.p.(genRdy := false, info := s.p.info.(infoChange := false), wait := s.p.wait.(info := false), pc := AtFrame)
  {
    ChangeMoves(s.p, ViewOf(s, c), c);
    var s1 := Inside(s, c, inv, s.p.(pc := AtWait));
    WaitMoves(s1.p, ViewOf(s1, c), c);
    s' := Inside(s1, c, inv, Control(s1.p, ViewOf(s1, c), c));
  }

  lemma StartFrame(s: State, c: Choice)
    requires s.p.pc.AtFrame? && c.go
    ensures var s' := ParserStep(s, c);
            && s'.p == s.p.(wait := s.p.wait.(pic := false), pc := AtPublish(RealTask))
            && s'.g == s.g && s'.h == s.h && s'.changed == s.changed && s'.resetFlag == s.resetFlag && s'.fast == s.fast
  {
  }

  lemma RestIsClear(s: State)
    requires s.h.HTop? && forall t: nat :: !Has(s.g.status, t, Processing)
    ensures !Doomed(s)
  {
    forall t: nat ensures !DoomedBy(JobsOf(s), t) {
      assert !Has(s.g.status, t, Processing);
    }
  }

  lemma FreshRests(fast: bool)
    ensures forall t: nat :: !Has(HalTask.Fresh(TaskCount(fast)).status, t, Processing)
  {
  }

  /** In normal mode a frame about to be handed over, with nothing else going on, is in order. */
  lemma SubmitIsGood(s: State)
    requires Reached(s, false) && s.p.pc == AtPublish(RealTask) && s.h.HTop? && forall t: nat :: !Has(s.g.status, t, Processing)
    ensures Good(s) && !s.fast
  {
    ReachedNormal(s);
    ReachedBase(s, false);
    RestIsClear(s);
    if Locked(s) {
      StuckIsIdle(s);
    }
  }

  /** A frame parsed as b says, up to its hand-over. */
  lemma ToHandOver(s: State, b: Choice, fast: bool) returns (s': State)
    requires Reached(s, fast) && s.p.pc.AtParse? && !s.p.parsedRdy && b.go && b.output && !b.raise && !s.changed
    ensures Reached(s', fast) && s'.p.pc == AtPublish(RealTask) && s'.g == s.g && s'.h == s.h
    ensures s'.p.info.eos == b.eos && s'.p.info.valid == b.valid
  {
    var s1 := ParserStep(s, b);
    NextReached(s, ParserMoves(b), fast);
    Call(s, b);
    ReachedKind(fast);
    var s2 := ToFrame(s1, b, s => Reached(s, fast));
    StartFrame(s2, b);
    NextReached(s2, ParserMoves(b), fast);
    s' := ParserStep(s2, b);
  }

  /** In normal mode, a last frame with an output slot that its parse leaves invalid: the parser
      is stuck for good, its hardware job is never waited for and its slot never given back. */
  lemma StuckRun(group: Pool, c: Choice, b: Choice) returns (s: State)
    requires PacketGroup(group) && c.go && c.valid && !c.eos
    requires b.go && !b.valid && b.eos && b.output && !b.raise
    ensures Reached(s, false) && Locked(s)
  {
    var s1 := FirstCall(group, c, false);
    OnReached(s1, false);
    var s2 := ToHandOver(s1, b, false);
    FreshRests(false);
    SubmitIsGood(s2);
    SpillLocks(s2, b);
    NextReached(s2, ParserMoves(b), false);
    s := ParserStep(s2, b);
  }

  // ---- a valid end of stream without an output slot -------------------------------------------------

  lemma DoomNow(s: State, c: Choice, fast: bool) returns (s': State)
    requires Reached(s, fast) && Dooms(s.p)
    ensures Reached(s', fast) && AbortComes(s')
  {
    s' := ParserStep(s, c);
    NextReached(s, ParserMoves(c), fast);
    ReachedBase(s, fast);
    ReachedBase(s', fast);
    DoomingStep(s, c);
    DoomedAborts(s');
  }

  lemma DecideEos(s: State, c: Choice, fast: bool) returns (s': State)
    requires Reached(s, fast) && s.p.pc.AtWait? && !s.changed && !s.p.info.output && s.p.info.eos && s.p.info.valid
    ensures Reached(s', fast) && Dooms(s'.p)
  {
    EosDooms(s, c);
    NextReached(s, ParserMoves(c), fast);
    s' := ParserStep(s, c);
  }

  lemma ReachedTasks(s: State, fast: bool)
    requires Reached(s, fast)
    ensures TasksOk(s) && FlagsOk(s.p)
  {
    ReachedBase(s, fast);
  }

  lemma EosDooms(s: State, c: Choice)
    requires s.p.pc.AtWait? && !s.changed && !s.p.info.output && s.p.info.eos && s.p.info.valid
    ensures Dooms(ParserStep(s, c).p)
  {
  }

  /** An end of stream that is valid without an output slot: the hardware thread aborts. */
  lemma EosAbortRun(group: Pool, c: Choice, b: Choice, fast: bool) returns (s: State)
    requires PacketGroup(group) && c.go && c.valid && !c.eos
    requires b.go && b.valid && b.eos && !b.output && !b.raise
    ensures Reached(s, fast) && AbortComes(s)
  {
    var s1 := FirstCall(group, c, fast);
    OnReached(s1, fast);
    var s2 := ParserStep(s1, b);
    NextReached(s1, ParserMoves(b), fast);
    Call(s1, b);
    ReachedKind(fast);
    ChangeMoves(s2.p, ViewOf(s2, b), b);
    var s3 := Inside(s2, b, s => Reached(s, fast), s2.p.(pc := AtWait));
    var s4 := DecideEos(s3, b, fast);
    s := DoomNow(s4, b, fast);
  }

  // ---- a change announced ---------------------------------------------------------------------------

  lemma InfoWritten(s: State, c: Choice)
    requires s.p.pc.AtInfoSet? && s.p.hnd.Some? && s.p.hnd.value < |s.infos|
    ensures var s' := ParserStep(s, c);
            && s'.p == s.p.(pc := AtPublish(InfoTask)) && s'.g == s.g && s'.h == s.h && s'.changed == s.changed
            && s'.resetFlag == s.resetFlag && s'.pushed == s.pushed && s'.fast == s.fast
  {
  }

  lemma InfoPublished(s: State, c: Choice)
    requires TasksOk(s) && s.p.pc == AtPublish(InfoTask) && s.p.hnd.Some? && s.p.info.infoChange
    ensures var s' := ParserStep(s, c);
            && s'.p == s.p.(hnd := None, genRdy := true, pc := AtTop) && s'.h == s.h && s'.changed == s.changed
            && s'.resetFlag == s.resetFlag && s'.pushed == s.pushed + 1 && s'.fast == s.fast
            && s'.g.status == s.g.status[s.p.hnd.value := Processing]
  {
    SetStatusOk(s.g, s.p.hnd.value, Processing);
  }

  lemma OnTasks(s: State, fast: bool)
    requires On(s, fast)
    ensures TasksOk(s) && FlagsOk(s.p)
  {
    OnIsFine(s, fast);
  }

  lemma WriteInfo(s: State, c: Choice, fast: bool) returns (s': State)
    requires On(s, fast) && s.p.pc.AtInfoSet?
    ensures On(s', fast) && s'.p == s.p.(pc := AtPublish(InfoTask)) && s'.g == s.g && s'.h == s.h && s'.fast == s.fast
    ensures s'.changed == s.changed && s'.resetFlag == s.resetFlag && s'.pushed == s.pushed
  {
    OnTasks(s, fast);
    InfoWritten(s, c);
    OnWalks(s, c, fast);
    s' := ParserStep(s, c);
  }

  lemma PublishInfo(s: State, c: Choice, fast: bool) returns (s': State)
    requires On(s, fast) && s.p.pc == AtPublish(InfoTask)
    ensures On(s', fast) && s'.h == s.h && s'.changed == s.changed && s'.resetFlag == s.resetFlag && s'.fast == s.fast
    ensures s'.pushed == s.pushed + 1 && s'.p == s.p.(hnd := None, genRdy := true, pc := AtTop)
    ensures s.p.hnd.Some? && s.p.hnd.value < |s.g.status| && s'.g.status == s.g.status[s.p.hnd.value := Processing]
  {
    OnTasks(s, fast);
    InfoPublished(s, c);
    OnWalks(s, c, fast);
    s' := ParserStep(s, c);
  }

  lemma Announce(s: State, c: Choice, fast: bool) returns (s': State)
    requires On(s, fast) && s.p.pc.AtChange? && s.changed && !s.p.genRdy
    ensures On(s', fast) && s'.changed && s'.h == s.h && s'.resetFlag == s.resetFlag && s'.pushed == s.pushed + 1
    ensures s'.p == s.p.(info := s.p.info.(infoChange := true), hnd := None, genRdy := true, pc := AtTop) && s'.fast == s.fast
    ensures s.p.hnd.Some? && s.p.hnd.value < |s.g.status| && s'.g.status == s.g.status[s.p.hnd.value := Processing]
  {
    OnKind(fast);
    ChangeMoves(s.p, ViewOf(s, c), c);
    var s1 := Inside(s, c, s => On(s, fast), s.p.(info := s.p.info.(infoChange := true), pc := AtInfoSet));
    var s2 := WriteInfo(s1, c, fast);
    s' := PublishInfo(s2, c, fast);
  }

  lemma IdleLeft(s: State, fast: bool, u: nat)
    requires On(s, fast) && Has(s.g.status, u, Idle)
    ensures First(s.g, Idle).Some?
  {
    OnTasks(s, fast);
    FirstIs(s.g, Idle);
  }

  /** The task not handed over is still idle. */
  lemma OtherIdle(s: State, fast: bool, t: nat)
    requires On(s, fast) && t < TaskCount(fast)
    requires s.g.status == HalTask.Fresh(TaskCount(fast)).status[t := Processing]
    ensures First(s.g, Idle).Some?
  {
    IdleLeft(s, fast, if t == 0 then 1 else 0);
  }

  /** A first picture that raises the change mark, announced. */
  lemma Announced(group: Pool, c: Choice, r: Choice) returns (s: State)
    requires PacketGroup(group) && c.go && c.valid && !c.eos && r.go && !r.eos && r.output && r.raise
    ensures On(s, false) && s.changed && s.pushed == 1 && s.h.HTop? && !s.resetFlag && !s.fast && First(s.g, Idle).Some?
    ensures s.p.pc.AtTop? && s.p.wait == NO_WAIT && s.p.hnd.None? && s.p.currRdy && s.p.parsedRdy && s.p.genRdy && s.p.prevRdy
    ensures s.p.info.valid == r.valid && !s.p.info.eos && s.p.info.infoChange
  {
    var s1 := FirstCall(group, c, false);
    Call(s1, r);
    var s2 := FairCall(s1, r, false);
    s := Announce(s2, c, false);
    OtherIdle(s, false, s2.p.hnd.value);
  }

  // ---- a reset while it is pending --------------------------------------------------------------------

  lemma ResetSteps(s: State, c: Choice)
    requires s.p.pc.AtReset? || s.p.pc.AtResetClear?
    ensures var s' := ParserStep(s, c);
            && s'.p == (if s.p.pc.AtReset? then s.p.(pc := AtResetClear) else NO_TASK.(pc := AtGate))
            && s'.g == s.g && s'.h == s.h && s'.changed == s.changed && s'.fast == s.fast
            && s'.resetFlag == (s.resetFlag && s.p.pc.AtResetClear?)
  {
  }

  lemma ResetNow(s: State, c: Choice) returns (s': State)
    requires On(s, false) && s.p.pc.AtTop? && s.p.prevRdy && !s.fast
    ensures On(s', false) && s'.p == NO_TASK.(pc := AtGate) && s'.g == s.g && s'.h == s.h
    ensures s'.changed == s.changed && !s'.resetFlag && s'.fast == s.fast
  {
    NextOn(s, UserResets, false);
    OnKind(false);
    var s1 := Next(s, UserResets);
    LoopMoves(s1.p, ViewOf(s1, c), c);
    var s2 := Inside(s1, c, s => On(s, false), s1.p.(pc := AtReset));
    ResetSteps(s2, c);
    OnWalks(s2, c, false);
    var s3 := ParserStep(s2, c);
    ResetSteps(s3, c);
    OnWalks(s3, c, false);
    s' := ParserStep(s3, c);
  }

  /** Announced, reset, and parsed again, with the change still pending. */
  lemma CallAfterReset(group: Pool, c: Choice, r: Choice) returns (s: State)
    requires PacketGroup(group) && c.go && c.valid && !c.eos && r.go && !r.eos && r.output && r.raise
    ensures On(s, false) && AtCall(s.p) && s.changed
  {
    var s1 := Announced(group, c, r);
    var s2 := ResetNow(s1, c);
    OnKind(false);
    s := ToCall(s2, c, s => On(s, false));
  }

  lemma DecideInfo(s: State, c: Choice, fast: bool) returns (s': State)
    requires Reached(s, fast) && s.p.pc.AtChange? && s.changed && !s.p.genRdy && !s.p.info.output
    ensures Reached(s', fast) && Dooms(s'.p)
  {
    ReachedKind(fast);
    ChangeMoves(s.p, ViewOf(s, c), c);
    var s1 := Inside(s, c, s => Reached(s, fast), s.p.(info := s.p.info.(infoChange := true), pc := AtInfoSet));
    ReachedTasks(s1, fast);
    InfoDooms(s1, c);
    NextReached(s1, ParserMoves(c), fast);
    s' := ParserStep(s1, c);
  }

  lemma InfoDooms(s: State, c: Choice)
    requires TasksOk(s) && FlagsOk(s.p) && s.p.pc.AtInfoSet? && s.p.info.infoChange && !s.p.info.output
    ensures Dooms(ParserStep(s, c).p)
  {
    InfoWritten(s, c);
  }

  /** A reset while a change is pending, then a packet without a picture: the hardware thread
      aborts. */
  lemma AbortRun(group: Pool, c: Choice, r: Choice, b: Choice) returns (s: State)
    requires PacketGroup(group) && c.go && c.valid && !c.eos && r.go && !r.eos && r.output && r.raise
    requires b.go && !b.output && !b.raise
    ensures Reached(s, false) && AbortComes(s)
  {
    var s1 := CallAfterReset(group, c, r);
    OnReached(s1, false);
    NextReached(s1, ParserMoves(b), false);
    Call(s1, b);
    var s2 := DecideInfo(ParserStep(s1, b), b, false);
    s := DoomNow(s2, b, false);
  }

  // ---- a change announced twice -------------------------------------------------------------------------

  lemma EosFound(s: State, c: Choice)
    requires s.p.pc.AtPrepare? && !s.p.currRdy && c.go && !c.valid && c.eos && s.p.hnd.Some?
    ensures var s' := ParserStep(s, c);
            && s'.p == s.p.(info := s.p.info.(valid := false, eos := true), pc := AtPublish(EosPrepare))
            && s'.g == s.g && s'.h == s.h && s'.changed == s.changed && s'.pushed == s.pushed && s'.resetFlag == s.resetFlag
  {
  }

  lemma EosHandedOver(s: State, c: Choice)
    requires TasksOk(s) && s.p.pc == AtPublish(EosPrepare) && s.p.hnd.Some?
    ensures var s' := ParserStep(s, c);
            && s'.p == s.p.(hnd := None, pc := AtTop) && s'.h == s.h && s'.changed == s.changed
            && s'.resetFlag == s.resetFlag && s'.pushed == s.pushed + (if s.p.info.infoChange then 1 else 0)
            && s'.g.status == s.g.status[s.p.hnd.value := Processing]
  {
    SetStatusOk(s.g, s.p.hnd.value, Processing);
  }

  lemma PrepareEos(s: State, c: Choice, fast: bool) returns (s': State)
    requires On(s, fast) && s.p.pc.AtPrepare? && !s.p.currRdy && c.go && !c.valid && c.eos && s.p.hnd.Some?
    ensures On(s', fast) && s'.h == s.h && s'.changed == s.changed && s'.resetFlag == s.resetFlag
    ensures s'.pushed == s.pushed + (if s.p.info.infoChange then 1 else 0)
    ensures s'.p == s.p.(info := s.p.info.(valid := false, eos := true), hnd := None, pc := AtTop)
    ensures s.p.hnd.value < |s.g.status| && s'.g.status == s.g.status[s.p.hnd.value := Processing]
  {
    EosFound(s, c);
    OnWalks(s, c, fast);
    var s1 := ParserStep(s, c);
    OnTasks(s1, fast);
    EosHandedOver(s1, c);
    OnWalks(s1, c, fast);
    s' := ParserStep(s1, c);
  }

  lemma DropTask(s: State, c: Choice, inv: State -> bool) returns (s': State)
    requires inv(s) && Keeps(inv) && s.p.pc.AtPrepare? && s.p.currRdy && !s.p.info.valid && !s.p.info.eos
    ensures inv(s') && Same(s, s') && s'.p == s.p.(currRdy := false, pc := AtTop)
  {
    PrepareMoves(s.p, ViewOf(s, c), c);
    s' := Inside(s, c, inv, s.p.(currRdy := false, pc := AtTop));
  }

  lemma KeepHandle(s: State, c: Choice, inv: State -> bool) returns (s': State)
    requires inv(s) && Keeps(inv) && s.p.pc.AtHandle? && s.p.hnd.Some?
    ensures inv(s') && Same(s, s') && s'.p == s.p.(wait := s.p.wait.(hnd := false), pc := AtPrepare)
  {
    HandleMoves(s.p, ViewOf(s, c), c);
    s' := Inside(s, c, inv, s.p.(wait := s.p.wait.(hnd := false), pc := AtPrepare));
  }

  /** From an announced task that is not valid to the next packet. */
  lemma NextPacket(s: State, c: Choice, inv: State -> bool) returns (s': State)
    requires inv(s) && Keeps(inv) && s.p.pc.AtTop? && s.p.wait == NO_WAIT && !s.resetFlag && !Holds(s.h)
    requires s.p.hnd.None? && First(s.g, Idle).Some? && s.p.currRdy && !s.p.info.valid && !s.p.info.eos
    ensures inv(s') && Same(s, s') && s'.p.pc.AtPrepare? && !s'.p.currRdy && s'.p.hnd.Some?
    ensures s'.p.info.infoChange == s.p.info.infoChange
  {
    var s1 := ToHandle(s, c, inv);
    var s2 := TakeHandle(s1, c, inv);
    var s3 := DropTask(s2, c, inv);
    var s4 := ToHandle(s3, c, inv);
    s' := KeepHandle(s4, c, inv);
  }

  /** A picture that raises the mark but is left invalid, then an end of stream: the change is
      announced twice, and the end of stream not at all. */
  lemma TwiceRun(group: Pool, c: Choice, r: Choice, b: Choice) returns (s: State)
    requires PacketGroup(group) && c.go && c.valid && !c.eos
    requires r.go && !r.valid && !r.eos && r.output && r.raise
    requires b.go && !b.valid && b.eos
    ensures Reached(s, false) && s.changed && s.pushed == 2
  {
    var s1 := Announced(group, c, r);
    OnKind(false);
    var s2 := NextPacket(s1, c, s => On(s, false));
    s := PrepareEos(s2, b, false);
    OnReached(s, false);
  }

  // ---- a lost wakeup ---------------------------------------------------------------------------------------

  /** A frame goes to the hardware. */
  lemma Submit(s: State, c: Choice, fast: bool) returns (s': State)
    requires On(s, fast) && s.p.pc.AtFrame? && s.p.wait == NO_WAIT && c.go
    ensures On(s', fast) && s'.h == s.h && s'.changed == s.changed && s'.resetFlag == s.resetFlag
    ensures s'.p.pc.AtTop? && s'.p.wait == NO_WAIT && s'.p.hnd.None? && !s'.p.currRdy
    ensures s.p.hnd.Some? && s.p.hnd.value < |s.g.status| && s'.g.status == s.g.status[s.p.hnd.value := Processing]
  {
    var s1 := StartOne(s, c, fast);
    s' := PublishOne(s1, c, fast);
  }

  lemma StartOne(s: State, c: Choice, fast: bool) returns (s': State)
    requires On(s, fast) && s.p.pc.AtFrame? && c.go
    ensures On(s', fast) && s'.g == s.g && s'.h == s.h && s'.changed == s.changed && s'.resetFlag == s.resetFlag
    ensures s'.p == s.p.(wait := s.p.wait.(pic := false), pc := AtPublish(RealTask))
  {
    StartFrame(s, c);
    OnWalks(s, c, fast);
    s' := ParserStep(s, c);
  }

  lemma PublishOne(s: State, c: Choice, fast: bool) returns (s': State)
    requires On(s, fast) && s.p.pc == AtPublish(RealTask) && s.p.wait == NO_WAIT
    ensures On(s', fast) && s'.h == s.h && s'.changed == s.changed && s'.resetFlag == s.resetFlag
    ensures s'.p.pc.AtTop? && s'.p.wait == NO_WAIT && s'.p.hnd.None? && !s'.p.currRdy
    ensures s.p.hnd.Some? && s.p.hnd.value < |s.g.status| && s'.g.status == s.g.status[s.p.hnd.value := Processing]
  {
    OnTasks(s, fast);
    RealPublished(s, c);
    OnWalks(s, c, fast);
    s' := ParserStep(s, c);
  }

  lemma MissHandle(s: State, c: Choice, inv: State -> bool) returns (s': State)
    requires inv(s) && Keeps(inv) && s.p.pc.AtHandle? && s.p.hnd.None? && First(s.g, Idle).None?
    ensures inv(s') && Same(s, s') && s'.p == s.p.(wait := s.p.wait.(hnd := true), pc := AtTop)
  {
    HandleMoves(s.p, ViewOf(s, c), c);
    s' := Inside(s, c, inv, s.p.(wait := s.p.wait.(hnd := true), pc := AtTop));
  }

  lemma NoneIdle(s: State, fast: bool)
    requires On(s, fast) && forall t: nat :: !Has(s.g.status, t, Idle)
    ensures First(s.g, Idle).None?
  {
    OnTasks(s, fast);
    FirstIs(s.g, Idle);
    assert First(s.g, Idle).Some? ==> Has(s.g.status, First(s.g, Idle).value, Idle);
  }

  lemma {:induction false} HalToRest(s: State, fast: bool) returns (s': State)
    requires On(s, fast) && !s.p.pc.AtBlocked?
    ensures On(s', fast) && HalRests(s') && s'.p == s.p && s'.resetFlag == s.resetFlag && s'.changed == s.changed
    decreases Work(s)
  {
    s' := s;
    if !HalRests(s) {
      HalOnce(s, fast);
      s' := HalToRest(HalStep(s), fast);
    }
  }

  lemma HalOnce(s: State, fast: bool)
    requires On(s, fast) && !s.p.pc.AtBlocked? && !HalRests(s)
    ensures On(HalStep(s), fast) && HalStep(s).p == s.p && HalStep(s).resetFlag == s.resetFlag && HalStep(s).changed == s.changed
    ensures Work(HalStep(s)) < Work(s)
  {
    OnIsFine(s, fast);
    HalProgress(s);
    NextOn(s, HalMoves, fast);
    HalTellsNothing(s);
  }

  lemma FrameOut(group: Pool, c: Choice) returns (s: State, t: nat)
    requires PacketGroup(group) && c.go && c.valid && !c.eos && c.output && !c.raise
    ensures On(s, false) && s.p.pc.AtTop? && s.p.wait == NO_WAIT && s.p.hnd.None? && !s.p.currRdy && !s.resetFlag && s.h.HTop?
    ensures t < 2 && s.g.status == HalTask.Fresh(TaskCount(false)).status[t := Processing]
  {
    var s1 := FirstCall(group, c, false);
    Call(s1, c);
    var s2 := FairCall(s1, c, false);
    OnKind(false);
    var s3 := ToFrame(s2, c, s => On(s, false));
    s := Submit(s3, c, false);
    t := s3.p.hnd.value;
  }

  lemma FoundIdle(s: State, fast: bool)
    requires On(s, fast) && First(s.g, Idle).Some?
    ensures Has(s.g.status, First(s.g, Idle).value, Idle)
  {
    OnTasks(s, fast);
    FirstIs(s.g, Idle);
  }

  lemma NoneLeft(status: seq<Status>, status': seq<Status>, t: nat, u: nat)
    requires t < 2 && status == HalTask.Fresh(2).status[t := Processing] && Has(status, u, Idle)
    requires status' == status[u := Processing]
    ensures forall k: nat :: !Has(status', k, Idle)
  {
  }

  /** In normal mode: a frame is in the hardware's hands, the next packet is an end of stream. */
  lemma BothOut(group: Pool, c: Choice, b: Choice) returns (s: State)
    requires PacketGroup(group) && c.go && c.valid && !c.eos && c.output && !c.raise && b.go && !b.valid && b.eos
    ensures On(s, false) && s.p.pc.AtTop? && s.p.wait == NO_WAIT && s.p.hnd.None? && !s.resetFlag && s.h.HTop?
    ensures forall t: nat :: !Has(s.g.status, t, Idle)
  {
    var s1, t := FrameOut(group, c);
    OnKind(false);
    var s2 := ToHandle(s1, c, s => On(s, false));
    OtherIdle(s2, false, t);
    var s3 := TakeHandle(s2, c, s => On(s, false));
    FoundIdle(s2, false);
    s := PrepareEos(s3, b, false);
    NoneLeft(s2.g.status, s.g.status, t, First(s2.g, Idle).value);
  }

  /** At the top of the loop with a stale bit up, the hardware thread ends all its work, and the
      parser goes to sleep for nothing. */
  lemma SleepTooLate(s: State, c: Choice) returns (s': State)
    requires On(s, false) && s.p.pc.AtTop? && Stale(s.p.wait) && !s.resetFlag
    ensures Reached(s', false) && s'.p == s.p.(pc := AtBlocked) && s'.changed == s.changed && !WakeComes(s')
    ensures First(s'.g, Idle).Some?
  {
    var s1 := HalToRest(s, false);
    OnKind(false);
    var s2 := ToGate(s1, c, s => On(s, false));
    s' := Sleep(s2, c);
  }

  lemma Sleep(s: State, c: Choice) returns (s': State)
    requires On(s, false) && s.p.pc.AtGate? && Stale(s.p.wait) && !s.resetFlag && HalRests(s)
    ensures Reached(s', false) && s'.p == s.p.(pc := AtBlocked) && s'.changed == s.changed && !WakeComes(s')
    ensures First(s'.g, Idle).Some?
  {
    SleepsLost(s, c);
    OnReached(s, false);
    NextReached(s, ParserMoves(c), false);
    s' := ParserStep(s, c);
  }

  lemma SleepsLost(s: State, c: Choice)
    requires On(s, false) && s.p.pc.AtGate? && Stale(s.p.wait) && !s.resetFlag && HalRests(s)
    ensures var s' := ParserStep(s, c);
            && s'.p == s.p.(pc := AtBlocked) && s'.changed == s.changed && !WakeComes(s') && First(s'.g, Idle).Some?
  {
    OnIsFine(s, false);
    LostIff(s, c);
    GateBlocks(s, c);
  }

  /** The parser looks for a third task and finds none; before it goes to sleep the hardware
      thread finishes both. The parser sleeps, with an idle task there, and the hardware
      thread will not wake it. */
  lemma LostRun(group: Pool, c: Choice, b: Choice) returns (s: State)
    requires PacketGroup(group) && c.go && c.valid && !c.eos && c.output && !c.raise && b.go && !b.valid && b.eos
    ensures Reached(s, false) && s.p.pc.AtBlocked? && s.p.wait.hnd && First(s.g, Idle).Some? && !WakeComes(s)
  {
    var s1 := BothOut(group, c, b);
    OnKind(false);
    var s2 := ToHandle(s1, c, s => On(s, false));
    NoneIdle(s2, false);
    var s3 := MissHandle(s2, c, s => On(s, false));
    s := SleepTooLate(s3, c);
  }

  // ---- a lost ready --------------------------------------------------------------------------------------------

  /** An announced change, seen pending once more on the next round. */
  lemma SeePending(s: State, c: Choice, fast: bool) returns (s': State)
    requires On(s, fast) && s.p.pc.AtParse? && s.p.parsedRdy && s.p.genRdy && s.changed && c.go
    ensures On(s', fast) && s'.p.pc.AtTop? && s'.p.wait.info && s'.resetFlag == s.resetFlag
  {
    OnKind(fast);
    var s1 := ParsedAlready(s, c, fast);
    ChangeMoves(s1.p, ViewOf(s1, c), c);
    var s2 := Inside(s1, c, s => On(s, fast), s1.p.(pc := AtWait));
    WaitMoves(s2.p, ViewOf(s2, c), c);
    s' := Inside(s2, c, s => On(s, fast), s2.p.(wait := s2.p.wait.(info := true), pc := AtTop));
  }

  lemma ParsedAlready(s: State, c: Choice, fast: bool) returns (s': State)
    requires On(s, fast) && s.p.pc.AtParse? && s.p.parsedRdy && c.go
    ensures On(s', fast) && s'.p == s.p.(wait := s.p.wait.(pic := false), pc := AtChange)
    ensures s'.changed == s.changed && s'.resetFlag == s.resetFlag
  {
    ParseMoves(s.p, ViewOf(s, c), c);
    OnWalks(s, c, fast);
    s' := ParserStep(s, c);
  }

  /** A change announced by a valid picture, and the parser about to look whether it is over. */
  lemma Pending(group: Pool, c: Choice, r: Choice) returns (s: State)
    requires PacketGroup(group) && c.go && c.valid && !c.eos && r.go && r.valid && !r.eos && r.output && r.raise
    ensures On(s, false) && s.p.pc.AtParse? && s.p.parsedRdy && s.p.genRdy && s.changed && !s.resetFlag
  {
    var s1 := Announced(group, c, r);
    OnKind(false);
    var s2 := ToHandle(s1, c, s => On(s, false));
    var s3 := TakeHandle(s2, c, s => On(s, false));
    var s4 := FindPacket(s3, c, s => On(s, false));
    var s5 := ToPrev(s4, c, s => On(s, false));
    s := PastPrev(s5, c, s => On(s, false));
  }

  /** The user's ready comes, with its signal, after the parser has seen the change pending and
      before it goes to sleep: the parser sleeps, no change is pending, and the hardware thread
      will not wake it. */
  lemma LostReadyRun(group: Pool, c: Choice, r: Choice) returns (s: State)
    requires PacketGroup(group) && c.go && c.valid && !c.eos && r.go && r.valid && !r.eos && r.output && r.raise
    ensures Reached(s, false) && s.p.pc.AtBlocked? && s.p.wait.info && !s.changed && !WakeComes(s)
  {
    var s1 := Pending(group, c, r);
    var s2 := SeePending(s1, c, false);
    var s3 := ReadyNow(s2, false);
    s := SleepTooLate(s3, c);
  }

  lemma ReadyNow(s: State, fast: bool) returns (s': State)
    requires On(s, fast) && !s.p.pc.AtBlocked?
    ensures On(s', fast) && s' == s.(changed := false)
  {
    NextOn(s, UserReady, fast);
    s' := s.(changed := false);
    SignalMissed(s');
  }

  /** A signal to a parser that is awake does nothing. */
  lemma SignalMissed(s: State)
    requires !s.p.pc.AtBlocked?
    ensures Next(s, UserSignals) == s
  {
  }

  // ---- packet slots lost in fast mode -----------------------------------------------------------------------------

  /** In fast mode, with some packet slots lost. */
  ghost predicate Leaky(s: State, lost: seq<Option<nat>>) { Reached(s, true) && Spilt(s, lost) }

  lemma SomeLeft(slots: seq<Slot>, lost: seq<Option<nat>>)
    requires |slots| == 3 && |lost| <= 2
    ensures Roomy(slots, lost)
  {
    if Some(0) in lost && Some(1) in lost {
      assert Some(2) !in lost;
    }
  }

  lemma LeakyWalks(s: State, c: Choice, lost: seq<Option<nat>>)
    requires Leaky(s, lost) && s.p.pc != AtPublish(RealTask) && (PartOf(s.p.pc).Filling? ==> |lost| <= 2)
    ensures Leaky(ParserStep(s, c), lost) && Supplied(s.p, ViewOf(s, c))
  {
    ReachedBase(s, true);
    if PartOf(s.p.pc).Filling? {
      SomeLeft(s.pkt.slots, lost);
    }
    SpiltParser(s, c, lost);
    NextReached(s, ParserMoves(c), true);
  }

  lemma LeakyInner(s: State, c: Choice, lost: seq<Option<nat>>)
    requires Leaky(s, lost) && Inner(s.p.pc)
    ensures Leaky(ParserStep(s, c), lost)
  {
    LeakyWalks(s, c, lost);
  }

  lemma LeakyKeeps(lost: seq<Option<nat>>)
    ensures Keeps(s => Leaky(s, lost))
  {
    var inv := s => Leaky(s, lost);
    forall s: State, c: Choice | inv(s) && Inner(s.p.pc) ensures inv(ParserStep(s, c)) {
      LeakyInner(s, c, lost);
    }
  }

  lemma LeakyFed(s: State, c: Choice, lost: seq<Option<nat>>)
    requires Leaky(s, lost) && PartOf(s.p.pc).Filling? && |lost| <= 2
    ensures Leaky(ParserStep(s, c), lost) && Supplied(s.p, ViewOf(s, c))
  {
    LeakyWalks(s, c, lost);
  }

  lemma LeakyFeeds(lost: seq<Option<nat>>)
    requires |lost| <= 2
    ensures Feeds(s => Leaky(s, lost))
  {
    var inv := s => Leaky(s, lost);
    forall s: State, c: Choice | inv(s) && PartOf(s.p.pc).Filling? ensures Fed(inv, s, c) {
      LeakyFed(s, c, lost);
    }
  }

  ghost predicate AllIdle(status: seq<Status>) { forall t :: 0 <= t < |status| ==> status[t].Idle? }

  /** Both threads between tasks. */
  ghost predicate AtEase(s: State) {
    Between(s) && s.h.HTop? && AllIdle(s.g.status) && !s.changed && s.p.info == NO_INFO
  }

  lemma EaseOffers(s: State)
    requires Reached(s, true) && AllIdle(s.g.status)
    ensures First(s.g, Idle).Some?
  {
    ReachedGroup(s);
    IdleOffered(s.g);
  }

  lemma ReachedGroup(s: State)
    requires Reached(s, true)
    ensures Ok(s.g) && |s.g.status| == |s.infos| == 3
  {
    ReachedBase(s, true);
  }

  lemma IdleOffered(g: StatusLists.Group<Status>)
    requires Ok(g) && AllIdle(g.status) && |g.status| == 3
    ensures First(g, Idle).Some?
  {
    FirstIs(g, Idle);
    assert g.status[0] == Idle;
  }

  /** A last frame with an output slot, left invalid, up to its hand-over. */
  lemma ToSpill(s: State, c: Choice, b: Choice, lost: seq<Option<nat>>) returns (s': State)
    requires Leaky(s, lost) && |lost| <= 2 && AtEase(s)
    requires c.go && c.valid && !c.eos && b.go && !b.valid && b.eos && b.output && !b.raise
    ensures Leaky(s', lost) && s'.p.pc == AtPublish(RealTask) && s'.g == s.g && s'.h == s.h && s'.changed == s.changed
    ensures s'.resetFlag == s.resetFlag && s'.p.info.eos && !s'.p.info.valid && s'.p.wait == NO_WAIT
  {
    EaseOffers(s);
    LeakyKeeps(lost);
    LeakyFeeds(lost);
    var s1 := ToCall(s, c, s => Leaky(s, lost));
    LeakyWalks(s1, b, lost);
    Call(s1, b);
    var s2 := ToFrame(ParserStep(s1, b), b, s => Leaky(s, lost));
    LeakyWalks(s2, b, lost);
    StartFrame(s2, b);
    s' := ParserStep(s2, b);
  }

  /** A parser done with its task. */
  predicate Clear(p: Parser) {
    p.pc.AtTop? && p.wait == NO_WAIT && p.hnd.None? && !p.currRdy && !p.parsedRdy && !p.genRdy && p.info == NO_INFO
  }

  /** The hand-over. */
  lemma SpillStep(s: State, c: Choice)
    requires Base(s) && s.p.pc == AtPublish(RealTask) && s.p.info.eos && !s.p.info.valid && s.p.wait == NO_WAIT
    ensures var s', t := ParserStep(s, c), s.p.hnd.value;
            && Clear(s'.p) && s'.h == s.h && s'.changed == s.changed && s'.resetFlag == s.resetFlag
            && t < |s.g.status| && s'.g.status == s.g.status[t := Processing] && PassedOver(InfoOf(s'.infos, t))
  {
    RealPublished(s, c);
  }

  lemma SpillOne(s: State, c: Choice, lost: seq<Option<nat>>) returns (s': State, t: nat)
    requires Leaky(s, lost) && s.p.pc == AtPublish(RealTask) && s.p.info.eos && !s.p.info.valid && s.p.wait == NO_WAIT
    ensures Leaky(s', lost + [s.p.info.input]) && s.p.info.input.Some?
    ensures Clear(s'.p) && s'.h == s.h && s'.changed == s.changed && s'.resetFlag == s.resetFlag
    ensures t < |s.g.status| && s'.g.status == s.g.status[t := Processing] && PassedOver(InfoOf(s'.infos, t))
  {
    ReachedBase(s, true);
    SpillLoses(s, c, lost);
    SpillStep(s, c);
    NextReached(s, ParserMoves(c), true);
    s', t := ParserStep(s, c), s.p.hnd.value;
  }

  predicate PassedOver(info: Info) { !info.infoChange && info.eos && !info.valid }

  /** The hardware thread passes the task over. */
  lemma HalPasses(s: State, t: nat)
    requires Ok(s.g) && s.h.HTop? && First(s.g, Processing) == Some(t) && t < |s.g.status| == |s.infos| && PassedOver(InfoOf(s.infos, t))
    requires !s.p.pc.AtBlocked?
    ensures var s' := HalStep(HalStep(HalStep(HalStep(s))));
            && s'.h.HTop? && s'.p == s.p && s'.pkt == s.pkt && s'.fast == s.fast && s'.changed == s.changed
            && s'.resetFlag == s.resetFlag && s'.g.status == s.g.status[t := Idle]
  {
    SetStatusOk(s.g, t, Idle);
  }

  lemma OnlyProcessing(g: StatusLists.Group<Status>, status: seq<Status>, t: nat)
    requires Ok(g) && AllIdle(status) && t < |status| && g.status == status[t := Processing]
    ensures First(g, Processing) == Some(t)
  {
    FirstIs(g, Processing);
    assert g.status[t] == Processing;
  }

  lemma HalPassesReached(s: State, status: seq<Status>, t: nat) returns (s': State)
    requires Reached(s, true) && s.h.HTop? && AllIdle(status) && t < |status| && s.g.status == status[t := Processing]
    requires PassedOver(InfoOf(s.infos, t)) && !s.p.pc.AtBlocked?
    ensures Reached(s', true) && s'.h.HTop? && s'.p == s.p && s'.pkt == s.pkt && s'.fast == s.fast && s'.changed == s.changed
    ensures s'.resetFlag == s.resetFlag && AllIdle(s'.g.status)
  {
    ReachedGroup(s);
    OnlyProcessing(s.g, status, t);
    HalPasses(s, t);
    s' := FourSteps(s);
  }

  lemma FourSteps(s: State) returns (s': State)
    requires Reached(s, true)
    ensures s' == HalStep(HalStep(HalStep(HalStep(s)))) && Reached(s', true)
  {
    s' := s;
    for i := 0 to 4
      invariant Reached(s', true)
      invariant i == 0 ==> s' == s
      invariant i == 1 ==> s' == HalStep(s)
      invariant i == 2 ==> s' == HalStep(HalStep(s))
      invariant i == 3 ==> s' == HalStep(HalStep(HalStep(s)))
      invariant i == 4 ==> s' == HalStep(HalStep(HalStep(HalStep(s))))
    {
      NextReached(s', HalMoves, true);
      s' := HalStep(s');
    }
  }

  ghost predicate AllSome(lost: seq<Option<nat>>) { forall t :: 0 <= t < |lost| ==> lost[t].Some? }

  lemma Spill(s: State, c: Choice, b: Choice, lost: seq<Option<nat>>) returns (s': State, lost': seq<Option<nat>>, t: nat)
    requires Leaky(s, lost) && |lost| <= 2 && AllSome(lost) && AtEase(s)
    requires c.go && c.valid && !c.eos && b.go && !b.valid && b.eos && b.output && !b.raise
    ensures Leaky(s', lost') && |lost'| == |lost| + 1 && AllSome(lost')
    ensures Clear(s'.p) && s'.h.HTop? && !s'.changed && !s'.resetFlag
    ensures t < |s.g.status| && s'.g.status == s.g.status[t := Processing] && PassedOver(InfoOf(s'.infos, t))
  {
    var s1 := ToSpill(s, c, b, lost);
    lost' := lost + [s1.p.info.input];
    s', t := SpillOne(s1, c, lost);
    OneMore(lost, s1.p.info.input);
  }

  lemma OneMore(lost: seq<Option<nat>>, input: Option<nat>)
    requires AllSome(lost) && input.Some?
    ensures AllSome(lost + [input])
  {
  }

  /** One such frame, and one packet slot less. */
  lemma LoseOne(s: State, c: Choice, b: Choice, lost: seq<Option<nat>>) returns (s': State, lost': seq<Option<nat>>)
    requires Leaky(s, lost) && |lost| <= 2 && AllSome(lost) && AtEase(s)
    requires c.go && c.valid && !c.eos && b.go && !b.valid && b.eos && b.output && !b.raise
    ensures Leaky(s', lost') && AtEase(s') && |lost'| == |lost| + 1 && AllSome(lost')
  {
    var s1, lost1, t := Spill(s, c, b, lost);
    lost' := lost1;
    s' := HalPassesReached(s1, s.g.status, t);
    LeakyFrame(s1, s', lost');
    EaseAgain(s');
  }

  lemma LeakyFrame(s: State, s': State, lost: seq<Option<nat>>)
    requires Leaky(s, lost) && Reached(s', true) && s'.p == s.p && s'.pkt == s.pkt && s'.fast == s.fast
    ensures Leaky(s', lost)
  {
  }

  lemma EaseAgain(s: State)
    requires Reached(s, true) && Clear(s.p) && s.h.HTop? && AllIdle(s.g.status) && !s.changed && !s.resetFlag
    ensures AtEase(s)
  {
    ReachedMode(s, true);
  }

  lemma ReachedMode(s: State, fast: bool)
    requires Reached(s, fast)
    ensures s.fast == fast
  {
    ReachedBase(s, fast);
  }

  lemma StartLeaks(group: Pool)
    requires PacketGroup(group)
    ensures Leaky(Start(true, group), []) && AtEase(Start(true, group))
  {
    StartOn(true, group);
    OnReached(Start(true, group), true);
    StartSpilt(group);
  }

  lemma StartSpilt(group: Pool)
    requires PacketGroup(group)
    ensures Spilt(Start(true, group), [])
  {
    StartGood(true, group);
    NothingCarried(Start(true, group));
  }

  lemma AllTaken(slots: seq<Slot>, lost: seq<Option<nat>>)
    requires Owned(slots, None, lost) && |slots| == |lost| == 3 && AllSome(lost)
    ensures FirstUnused(slots, 0) == 3
  {
    assert slots[lost[0].value].onUsed && slots[lost[1].value].onUsed && slots[lost[2].value].onUsed;
  }

  lemma NoSlot(s: State, c: Choice)
    requires s.p.pc.AtPktSlot? && s.p.info.input.None? && FirstUnused(s.pkt.slots, 0) == |s.pkt.slots|
    ensures ParserStep(s, c).p.pc.AtAbort?
  {
  }

  lemma NoSlotLeft(s: State, c: Choice, lost: seq<Option<nat>>) returns (s': State)
    requires Leaky(s, lost) && |lost| == 3 && AllSome(lost) && s.p.pc.AtPktSlot? && s.p.info.input.None?
    ensures Reached(s', true) && s'.p.pc.AtAbort?
  {
    ReachedMode(s, true);
    AllTaken(s.pkt.slots, lost);
    NoSlot(s, c);
    NextReached(s, ParserMoves(c), true);
    s' := ParserStep(s, c);
  }

  /** With every slot lost the next packet ends it. */
  lemma NextPacketAborts(s: State, c: Choice, lost: seq<Option<nat>>) returns (s': State)
    requires Leaky(s, lost) && AtEase(s) && |lost| == 3 && AllSome(lost) && c.go && c.valid && !c.eos
    ensures Reached(s', true) && s'.p.pc.AtAbort?
  {
    EaseOffers(s);
    LeakyKeeps(lost);
    var s1 := ToHandle(s, c, s => Leaky(s, lost));
    var s2 := TakeHandle(s1, c, s => Leaky(s, lost));
    var s3 := FindPacket(s2, c, s => Leaky(s, lost));
    s' := NoSlotLeft(s3, c, lost);
  }

  /** In fast mode, last frames with an output slot that their parse leaves invalid: each keeps
      its packet slot for good, and after the third one the next packet finds no slot and the
      process aborts. */
  lemma FullRun(group: Pool, c: Choice, b: Choice) returns (s: State)
    requires PacketGroup(group) && c.go && c.valid && !c.eos
    requires b.go && !b.valid && b.eos && b.output && !b.raise
    ensures Reached(s, true) && s.p.pc.AtAbort?
  {
    StartLeaks(group);
    var s1, lost1 := LoseOne(Start(true, group), c, b, []);
    var s2, lost2 := LoseOne(s1, c, b, lost1);
    var s3, lost3 := LoseOne(s2, c, b, lost2);
    s := NextPacketAborts(s3, c, lost3);
  }
}
