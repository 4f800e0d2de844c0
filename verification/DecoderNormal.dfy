/** Normal mode, where the parser submits a frame only when the one before is done
    (mpp/codec/mpp_dec.cpp): one hardware job at a time, and, when the hardware thread takes a
    frame for an end of stream, a parser that waits for ever, with its packet slots still in
    order. Nothing here is asked of the codec's parse call. */
module DecoderNormal {
  import opened Wrappers
  import opened Lists
  import opened Slots
  import opened HalTask
  import opened Decoder
  import opened DecoderGate
  import opened DecoderTasks
  import opened DecoderSlots
  import opened DecoderPackets
  import opened DecoderInvariant

  // ---- one hardware job at a time -------------------------------------------------------------

  /** At most one job runs; the bit prev_task_rdy is down exactly while one frame is with the
      hardware thread or done and not collected; and a frame is parsed, and its job started,
      only when no job runs. */
  ghost predicate Single(j: Jobs) {
    && (forall t, t' :: t in j.hw && t' in j.hw ==> t == t')
    && (j.p.prevRdy <==> forall t: nat :: !Busy(j.status, j.infos, t))
    && (forall t: nat, t': nat :: Busy(j.status, j.infos, t) && Busy(j.status, j.infos, t') ==> t == t')
    && (j.p.pc.AtParse? || j.p.pc.AtFrame? ==> j.hw == {})
  }

  lemma JobsAreSingle(j: Jobs)
    requires Handles(j) && Jobbed(j) && !j.fast && FlagsOk(j.p)
    ensures Single(j)
  {
    assert forall t: nat :: Busy(j.status, j.infos, t) ==> t == 0 || t == 1;
    assert forall t :: t in j.hw ==> Busy(j.status, j.infos, t) || j.p.pc == AtPublish(RealTask);
  }

  lemma EffectMode(s: State, p': Parser, c: Choice)
    ensures Effect(s, p', c).fast == s.fast
  {
  }

  lemma NextMode(s: State, e: Event)
    ensures Next(s, e).fast == s.fast
  {
    if e.ParserMoves? {
      EffectMode(s, Control(s.p, ViewOf(s, e.c), e.c), e.c);
    }
  }

  lemma {:induction false} RunMode(run: seq<State>, events: seq<Event>, fast: bool, at: nat)
    requires Execution(run, events, fast) && at < |run|
    ensures run[at].fast == fast
  {
    if at > 0 {
      RunMode(run, events, fast, at - 1);
      NextMode(run[at - 1], events[at - 1]);
      assert StepAt(run, events, at - 1);
    }
  }

  // ---- a parser that waits for ever ---------------------------------------------------------------

  /** Normal mode, the previous task awaited, and no frame that could be it. */
  ghost predicate Stuck(s: State) { Base(s) && !s.fast && !s.p.prevRdy && NoneBusy(JobsOf(s)) }

  ghost predicate NoneBusy(j: Jobs) { forall t: nat :: !Busy(j.status, j.infos, t) }

  /** Handing over a frame, to the hardware thread of normal mode, makes that frame the one busy
      or none. */
  lemma OnlyBusy(j: Jobs)
    requires Handles(j) && Jobbed(j) && FlagsOk(j.p) && !j.fast && j.p.pc == AtPublish(RealTask)
    ensures var status := j.status[j.p.hnd.value := Processing];
            forall u: nat :: Busy(status, j.infos, u) <==> u == j.p.hnd.value && Real(j.p.info)
  {
    JobsAreSingle(j);
    var status, t := j.status[j.p.hnd.value := Processing], j.p.hnd.value;
    forall u: nat ensures Busy(status, j.infos, u) <==> u == t && Real(j.p.info) {
      assert !Busy(j.status, j.infos, u);
    }
  }

  lemma RealPublished(s: State, c: Choice)
    requires TasksOk(s) && s.p.pc == AtPublish(RealTask) && s.p.hnd.Some?
    ensures var s' := ParserStep(s, c);
            && s'.p == s.p.(hnd := None, copyRdy := false, currRdy := false, parsedRdy := false, prevRdy := false,
                            info := NO_INFO, pc := AtTop)
            && s'.h == s.h && s'.changed == s.changed && s'.resetFlag == s.resetFlag && s'.infos == s.infos
            && s'.g.status == s.g.status[s.p.hnd.value := Processing]
  {
    SetStatusOk(s.g, s.p.hnd.value, Processing);
  }

  /** Handing over a frame leaves the parser waiting for nothing exactly when the frame is an
      invalid end of stream. */
  lemma StuckIff(s: State, c: Choice)
    requires Base(s) && Jobbed(JobsOf(s)) && !s.fast && s.p.pc == AtPublish(RealTask)
    ensures Stuck(ParserStep(s, c)) <==> s.p.info.eos && !s.p.info.valid
  {
    ParserBase(s, c);
    OnlyBusy(JobsOf(s));
    RealPublished(s, c);
    NextMode(s, ParserMoves(c));
    assert Busy(ParserStep(s, c).g.status, s.infos, s.p.hnd.value) <==> Real(s.p.info);
  }

  lemma StuckParser(s: State, p': Parser, c: Choice)
    requires Stuck(s) && p' == Control(s.p, ViewOf(s, c), c)
    ensures !p'.prevRdy
    ensures forall t: nat :: !Busy(Effect(s, p', c).g.status, Effect(s, p', c).infos, t)
  {
    GroupAfterOk(s.g, s.infos, s.p);
    LookFinds(s, c);
    StuckControl(JobsOf(s), p', ViewOf(s, c), c);
    var s' := Effect(s, p', c);
    forall t: nat ensures !Busy(s'.g.status, s'.infos, t) {
      assert !Busy(s.g.status, s.infos, t);
    }
  }

  lemma StuckControl(j: Jobs, p': Parser, v: View, c: Choice)
    requires Handles(j) && FlagsOk(j.p) && !j.fast && !j.p.prevRdy && FoundOk(j, v) && p' == Control(j.p, v, c)
    requires forall t: nat :: !Busy(j.status, j.infos, t)
    ensures !p'.prevRdy && (!Moves(j.p.pc) || j.p.pc == AtPublish(EosPrepare))
  {
    assert j.p.pc.AtResetIdle? || j.p.pc.AtPrevIdle? ==> Busy(j.status, j.infos, j.p.pc.t);
  }

  lemma StuckHal(s: State)
    requires Stuck(s)
    ensures !HalStep(s).p.prevRdy && forall t: nat :: !Busy(HalStep(s).g.status, HalStep(s).infos, t)
  {
    var s' := HalStep(s);
    assert s.h.HDone? || s.h.HFastIdle? ==> Busy(s.g.status, s.infos, s.h.t);
    if s.h.HIdle? {
      SetStatusOk(s.g, s.h.t, Idle);
    }
    forall t: nat ensures !Busy(s'.g.status, s'.infos, t) {
      assert !Busy(s.g.status, s.infos, t);
    }
  }

  /** No step of anybody frees it: not the hardware thread, not the user, not a reset. */
  lemma StuckStep(s: State, e: Event)
    requires Stuck(s)
    ensures Stuck(Next(s, e))
  {
    BaseStep(s, e);
    NextMode(s, e);
    match e
    case ParserMoves(c) => StuckParser(s, Control(s.p, ViewOf(s, c), c), c);
    case HalMoves => StuckHal(s);
    case _ =>
  }

  lemma StuckOfRun(run: seq<State>, events: seq<Event>, at: nat)
    requires Steps(run, events) && 0 < at < |run| && Stuck(run[at - 1])
    ensures Stuck(run[at])
  {
    StuckStep(run[at - 1], events[at - 1]);
    assert StepAt(run, events, at - 1);
  }

  lemma StuckIsIdle(s: State)
    requires Stuck(s)
    ensures !s.p.pc.AtParse? && !Submits(s.p.pc) && !s.p.pc.AtReset?
  {
  }

  lemma StuckForEver(run: seq<State>, events: seq<Event>, from: nat, at: nat)
    requires Steps(run, events) && from <= at < |run| && Stuck(run[from])
    ensures Stuck(run[at])
  {
    forall i | from < i < |run| && Stuck(run[i - 1]) ensures Stuck(run[i]) {
      StuckOfRun(run, events, i);
    }
    Induct(run, s => Stuck(s), from, at);
  }

  /** So nothing is parsed, submitted or reset any more. */
  lemma NothingDecoded(run: seq<State>, events: seq<Event>, from: nat, at: nat)
    requires Steps(run, events) && from <= at < |run| && Stuck(run[from])
    ensures !run[at].p.pc.AtParse? && !Submits(run[at].p.pc) && !run[at].p.pc.AtReset?
  {
    StuckForEver(run, events, from, at);
    StuckIsIdle(run[at]);
  }

  // ---- packet slots that are not given back ---------------------------------------------------------

  /** The packet slots are in order, but for those lost. */
  ghost predicate Spilt(s: State, lost: seq<Option<nat>>) {
    BitsOk(s.p) && PktOk(s.pkt, s.p, lost) && |s.pkt.slots| == TaskCount(s.fast)
  }

  lemma SpiltParser(s: State, c: Choice, lost: seq<Option<nat>>)
    requires Base(s) && Spilt(s, lost) && s.p.pc != AtPublish(RealTask)
    requires PartOf(s.p.pc).Filling? ==> Roomy(s.pkt.slots, lost)
    ensures Spilt(ParserStep(s, c), lost) && Supplied(s.p, ViewOf(s, c))
  {
    var v := ViewOf(s, c);
    ParserPkt(s, Control(s.p, v, c), c, v, lost);
    ControlBits(s.p, v, c);
  }

  lemma SpiltWoken(s: State, lost: seq<Option<nat>>)
    requires Spilt(s, lost)
    ensures Spilt(s.(p := Wake(s.p)), lost)
  {
    WakePacket(s.pkt, s.p, lost);
  }

  lemma HalKeepsPacket(s: State)
    requires !s.h.HClear?
    ensures HalStep(s).pkt == s.pkt && HalStep(s).fast == s.fast
  {
  }

  lemma SpiltHal(s: State, lost: seq<Option<nat>>)
    requires Spilt(s, lost) && !s.h.HClear?
    ensures Spilt(HalStep(s), lost)
  {
    HalKeepsPacket(s);
    HalTellsNothing(s);
    SpiltWoken(s, lost);
  }

  /** A frame taken for an end of stream: its slot is lost. */
  lemma SpillLoses(s: State, c: Choice, lost: seq<Option<nat>>)
    requires Base(s) && Spilt(s, lost) && s.p.pc == AtPublish(RealTask)
    ensures Spilt(ParserStep(s, c), lost + [s.p.info.input])
  {
    SpillClears(s.p, ViewOf(s, c), c);
    SpillKeeps(s, c);
    StepSpill(s.pkt, s.p, Control(s.p, ViewOf(s, c), c), lost);
  }

  lemma SpillClears(p: Parser, v: View, c: Choice)
    requires BitsOk(p) && FlagsOk(p) && p.pc == AtPublish(RealTask)
    ensures var p' := Control(p, v, c);
            BitsOk(p') && p'.info.input.None? && p'.pc.AtTop?
  {
    ControlInput(p, v, c);
    ControlBits(p, v, c);
  }

  lemma SpillKeeps(s: State, c: Choice)
    requires s.p.pc == AtPublish(RealTask)
    ensures ParserStep(s, c).pkt == s.pkt && ParserStep(s, c).fast == s.fast
    ensures ParserStep(s, c).p == Control(s.p, ViewOf(s, c), c)
  {
  }

  lemma OwnedRest(slots: seq<Slot>, input: Option<nat>, cargo: seq<Option<nat>>)
    requires Owned(slots, input, cargo) && forall t: nat :: t < |cargo| ==> cargo[t].None?
    ensures Owned(slots, input, [])
  {
  }

  lemma NothingCarried(s: State)
    requires TasksOk(s) && PacketsOk(s) && BitsOk(s.p) && NoneBusy(JobsOf(s))
    ensures Spilt(s, [])
  {
    var cargo := Cargo(s.g.status, s.infos, s.h);
    forall t: nat | t < |cargo| ensures cargo[t].None? {
      assert !Busy(s.g.status, s.infos, t);
    }
    OwnedRest(s.pkt.slots, s.p.info.input, cargo);
  }

  // ---- every run of normal mode -----------------------------------------------------------------------

  ghost predicate AtMostOne(hw: set<nat>) { forall t, t' :: t in hw && t' in hw ==> t == t' }

  /** Stuck, with one slot lost and one job running for good. */
  ghost predicate Locked(s: State) { Stuck(s) && AtMostOne(s.hw) && exists i: nat :: Spilt(s, [Some(i)]) }

  lemma LockedRoom(s: State, i: nat)
    requires !s.fast && Spilt(s, [Some(i)])
    ensures Roomy(s.pkt.slots, [Some(i)])
  {
    var k: nat := if i == 0 then 1 else 0;
    assert k < |s.pkt.slots| && Some(k) !in [Some(i)];
  }

  lemma LockedSlots(s: State, e: Event, i: nat)
    requires Stuck(s) && Spilt(s, [Some(i)])
    ensures Spilt(Next(s, e), [Some(i)])
  {
    match e
    case ParserMoves(c) =>
      StuckIsIdle(s);
      LockedRoom(s, i);
      SpiltParser(s, c, [Some(i)]);
    case HalMoves =>
      assert s.h.HClear? ==> Busy(s.g.status, s.infos, s.h.t);
      SpiltHal(s, [Some(i)]);
    case UserResets =>
    case UserReady =>
    case UserSignals => SpiltWoken(s, [Some(i)]);
  }

  lemma StuckStarts(s: State, e: Event)
    requires Stuck(s)
    ensures Next(s, e).hw == s.hw
  {
    StuckIsIdle(s);
    assert s.h.HWait? ==> Busy(s.g.status, s.infos, s.h.t);
  }

  lemma LockedStep(s: State, e: Event)
    requires Locked(s)
    ensures Locked(Next(s, e))
  {
    var i: nat :| Spilt(s, [Some(i)]);
    StuckStep(s, e);
    LockedSlots(s, e, i);
    StuckStarts(s, e);
  }

  lemma SpillSlots(s: State, c: Choice)
    requires Good(s) && s.p.pc == AtPublish(RealTask) && NoneBusy(JobsOf(s))
    ensures exists i: nat :: Spilt(ParserStep(s, c), [Some(i)])
  {
    NothingCarried(s);
    LostOne(s, c);
  }

  lemma LostOne(s: State, c: Choice)
    requires Base(s) && Spilt(s, []) && s.p.pc == AtPublish(RealTask)
    ensures exists i: nat :: Spilt(ParserStep(s, c), [Some(i)])
  {
    SpillLoses(s, c, []);
    JustOne(s.p);
  }

  lemma JustOne(p: Parser)
    requires BitsOk(p) && p.pc == AtPublish(RealTask)
    ensures [] + [p.info.input] == [Some(At(p.info.input))]
  {
  }

  lemma SubmitJobs(s: State, c: Choice)
    requires Good(s) && !s.fast && s.p.pc == AtPublish(RealTask)
    ensures NoneBusy(JobsOf(s)) && AtMostOne(ParserStep(s, c).hw)
  {
    JobsAreSingle(JobsOf(s));
    OneStarted(s, c);
  }

  lemma OneStarted(s: State, c: Choice)
    requires s.p.pc == AtPublish(RealTask)
    ensures ParserStep(s, c).hw == s.hw
  {
  }

  /** In normal mode a frame taken for an end of stream locks the parser. */
  lemma SpillLocks(s: State, c: Choice)
    requires Good(s) && !s.fast && Spills(s.p)
    ensures Locked(ParserStep(s, c))
  {
    StuckIff(s, c);
    SubmitJobs(s, c);
    SpillSlots(s, c);
  }

  ghost predicate NormalKept(s: State) { Doomed(s) || Good(s) || Locked(s) }

  lemma NormalStep(s: State, e: Event)
    requires Base(s) && !s.fast && NormalKept(s)
    ensures NormalKept(Next(s, e))
  {
    if Doomed(s) {
      DoomedStep(s, e);
    } else if Locked(s) {
      LockedStep(s, e);
    } else {
      GoodStep(s, e);
    }
  }

  lemma GoodStep(s: State, e: Event)
    requires Good(s) && !s.fast
    ensures NormalKept(Next(s, e))
  {
    StepGood(s, e);
    if e.ParserMoves? && Dooms(s.p) {
      DoomingStep(s, e.c);
    } else if e.ParserMoves? && Spills(s.p) {
      SpillLocks(s, e.c);
    }
  }

  lemma NormalOfRun(run: seq<State>, events: seq<Event>, at: nat)
    requires Execution(run, events, false) && 0 < at < |run| && NormalKept(run[at - 1])
    ensures NormalKept(run[at])
  {
    RunBase(run, events, false, at - 1);
    RunMode(run, events, false, at - 1);
    NormalStep(run[at - 1], events[at - 1]);
    assert StepAt(run, events, at - 1);
  }

  /** In normal mode, whatever the parse call finds, everything is in order until the hardware
      thread is bound to abort or the parser is locked. */
  lemma RunNormal(run: seq<State>, events: seq<Event>, at: nat)
    requires Execution(run, events, false) && at < |run|
    ensures NormalKept(run[at])
  {
    StartOfRun(run, events, false);
    forall i | 0 < i < |run| && NormalKept(run[i - 1]) ensures NormalKept(run[i]) {
      NormalOfRun(run, events, i);
    }
    Induct(run, s => NormalKept(s), 0, at);
  }
}
