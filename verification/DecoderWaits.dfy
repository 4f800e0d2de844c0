/** The waits of the decoder's parser (mpp/codec/mpp_dec.cpp): what its lookups wait for, when
    a sleeping parser is woken by the hardware thread and when the wakeup is lost, and what
    becomes of a frame the hardware thread takes for an end of stream. */
module DecoderWaits {
  import opened HalTask
  import opened Slots
  import opened Decoder
  import opened DecoderGate
  import opened DecoderTasks
  import opened DecoderInvariant

  // ---- the hardware thread by itself --------------------------------------------------------

  function HalRun(s: State, n: nat): State
    decreases n
  {
    if n == 0 then s else HalRun(HalStep(s), n - 1)
  }

  predicate HalRests(s: State) { s.h.HTop? && First(s.g, Processing).None? }

  function Rank(h: HalPc): nat {
    match h
    case HTop => 7
    case HInfo(_) => 6
    case HIdle(_) => 5
    case HWait(_) => 5
    case HClear(_) => 4
    case HDone(_) => 3
    case HFast => 11
    case HFastIdle(_) => 10
    case HSignal(_) => 9
    case HFrame => 8
    case HAbort => 0
  }

  function Backlog(g: StatusLists.Group<Status>): nat { if Processing in g.lists then |g.lists[Processing]| else 0 }

  function Work(s: State): nat { 10 * Backlog(s.g) + Rank(s.h) }

  lemma MoveBacklog(g: StatusLists.Group<Status>, t: nat, to: Status)
    requires Ok(g) && t < |g.status| && !to.Processing?
    ensures Backlog(StatusLists.Move(g, t, to)) == Backlog(g) - (if g.status[t].Processing? then 1 else 0)
  {
    assert g.status[t].Processing? ==> t in g.lists[Processing];
  }

  lemma MoveProgress(s: State, t: nat, to: Status)
    requires Ok(s.g) && t < |s.g.status|
    requires match s.h
             case HIdle(u) => u == t && to == Idle && s.g.status[t].Processing?
             case HDone(u) => u == t && to == ProcDone && s.g.status[t].Processing?
             case HFastIdle(u) => u == t && to == Idle && s.g.status[t].ProcDone?
             case _ => false
    ensures Work(HalStep(s)) < Work(s)
  {
    MoveBacklog(s.g, t, to);
  }

  lemma QuietProgress(s: State)
    requires !HalRests(s) && !s.h.HIdle? && !s.h.HDone? && !s.h.HFastIdle? && !s.h.HAbort?
    ensures Work(HalStep(s)) < Work(s)
  {
  }

  /** Every step of the hardware thread is progress, until it has nothing to do or aborts. */
  lemma HalProgress(s: State)
    requires TasksOk(s) && !HalRests(s) && !s.h.HAbort?
    ensures Work(HalStep(s)) < Work(s)
  {
    match s.h
    case HIdle(t) => MoveProgress(s, t, Idle);
    case HDone(t) => MoveProgress(s, t, ProcDone);
    case HFastIdle(t) => MoveProgress(s, t, Idle);
    case _ => QuietProgress(s);
  }

  // ---- a doomed hardware thread aborts ------------------------------------------------------

  ghost predicate AbortComes(s: State) { exists n: nat :: HalRun(s, n).h.HAbort? }

  lemma AbortNow(s: State)
    requires s.h.HAbort?
    ensures AbortComes(s)
  {
    assert HalRun(s, 0) == s;
  }

  lemma AbortNext(s: State)
    requires AbortComes(HalStep(s))
    ensures AbortComes(s)
  {
    var n: nat :| HalRun(HalStep(s), n).h.HAbort?;
    assert HalRun(s, n + 1) == HalRun(HalStep(s), n);
  }

  lemma {:induction false} DoomedAborts(s: State)
    requires Base(s) && Doomed(s)
    ensures AbortComes(s)
    decreases Work(s)
  {
    if s.h.HAbort? {
      AbortNow(s);
    } else {
      DoomedWorks(s);
      BaseStep(s, HalMoves);
      DoomedStep(s, HalMoves);
      HalProgress(s);
      DoomedAborts(HalStep(s));
      AbortNext(s);
    }
  }

  lemma DoomedWorks(s: State)
    requires Base(s) && Doomed(s) && !s.h.HAbort?
    ensures !HalRests(s)
  {
    FirstIs(s.g, Processing);
    if !Late(s) {
      var t: nat :| DoomedBy(JobsOf(s), t);
    }
  }

  // ---- the tasks it aborts at -------------------------------------------------------------------

  /** The hardware thread aborts before it is at the top again. */
  ghost predicate AbortsHere(s: State) {
    exists n: nat :: HalRun(s, n).h.HAbort? && forall m: nat :: m < n ==> !HalRun(s, m).h.HTop?
  }

  lemma AbortsLater(s: State)
    requires !s.h.HTop? && !s.h.HAbort?
    ensures AbortsHere(s) <==> AbortsHere(HalStep(s))
  {
    if AbortsHere(s) {
      var n: nat :| HalRun(s, n).h.HAbort? && forall m: nat :: m < n ==> !HalRun(s, m).h.HTop?;
      AbortsAfter(s, n);
    }
    if AbortsHere(HalStep(s)) {
      var n: nat :| HalRun(HalStep(s), n).h.HAbort? && forall m: nat :: m < n ==> !HalRun(HalStep(s), m).h.HTop?;
      AbortsBefore(s, n);
    }
  }

  lemma AbortsAfter(s: State, n: nat)
    requires !s.h.HAbort? && HalRun(s, n).h.HAbort? && forall m: nat :: m < n ==> !HalRun(s, m).h.HTop?
    ensures AbortsHere(HalStep(s))
  {
    assert HalRun(s, n) == HalRun(HalStep(s), n - 1);
    forall m: nat | m < n - 1 ensures !HalRun(HalStep(s), m).h.HTop? {
      assert HalRun(s, m + 1) == HalRun(HalStep(s), m);
    }
  }

  lemma AbortsBefore(s: State, n: nat)
    requires !s.h.HTop? && HalRun(HalStep(s), n).h.HAbort? && forall m: nat :: m < n ==> !HalRun(HalStep(s), m).h.HTop?
    ensures AbortsHere(s)
  {
    assert HalRun(s, n + 1) == HalRun(HalStep(s), n);
    forall m: nat | m < n + 1 ensures !HalRun(s, m).h.HTop? {
      if m > 0 {
        assert HalRun(s, m) == HalRun(HalStep(s), m - 1);
      }
    }
  }

  lemma AbortsAtOnce(s: State)
    ensures s.h.HAbort? ==> AbortsHere(s)
    ensures s.h.HTop? ==> !AbortsHere(s)
  {
    assert HalRun(s, 0) == s;
  }

  predicate InHand(h: HalPc) { h.HWait? || h.HClear? || h.HDone? || Holds(h) || h.HFrame? }

  lemma HandGoesOn(s: State)
    requires InHand(s.h) && !s.h.HFrame?
    ensures InHand(HalStep(s).h) && HalStep(s).hinfo == s.hinfo
  {
  }

  lemma {:induction false} HandAborts(s: State)
    requires Base(s) && InHand(s.h)
    ensures AbortsHere(s) <==> !s.hinfo.output
    decreases Work(s)
  {
    AbortsLater(s);
    if s.h.HFrame? {
      AbortsAtOnce(HalStep(s));
    } else {
      HandGoesOn(s);
      HalProgress(s);
      BaseStep(s, HalMoves);
      HandAborts(HalStep(s));
    }
  }

  lemma PassesOver(s: State)
    requires s.h.HIdle?
    ensures !AbortsHere(s)
  {
    var s' := HalStep(s);
    AbortsLater(s);
    AbortsLater(s');
    AbortsAtOnce(HalStep(s'));
  }

  /** The hardware thread aborts at a task exactly when it has no output slot and announces a
      change or is taken for a frame. */
  lemma AbortsIff(s: State)
    requires Base(s) && s.h.HInfo?
    ensures var info := InfoOf(s.infos, s.h.t);
            AbortsHere(s) <==> !info.output && (info.infoChange || !(info.eos && !info.valid))
  {
    var s' := HalStep(s);
    AbortsLater(s);
    BaseStep(s, HalMoves);
    if s'.h.HAbort? {
      AbortsAtOnce(s');
    } else if s'.h.HIdle? {
      PassesOver(s');
    } else {
      HandAborts(s');
    }
  }

  // ---- lookups ----------------------------------------------------------------------------------

  /** A lookup the parser, or a reset, makes now finds nothing. */
  predicate Starved(s: State) {
    match s.p.pc
    case AtHandle => s.p.hnd.None? && First(s.g, Idle).None?
    case AtPrev => !s.fast && !s.p.prevRdy && First(s.g, ProcDone).None?
    case AtResetGet => First(s.g, ProcDone).None?
    case AtResetCheck => First(s.g, Processing).Some?
    case _ => false
  }

  /** Once the hardware thread has nothing to do, every lookup succeeds. */
  lemma RestFeeds(s: State)
    requires Good(s) && HalRests(s)
    ensures !Starved(s)
  {
    FirstIs(s.g, Idle);
    FirstIs(s.g, Processing);
    FirstIs(s.g, ProcDone);
    RestJobs(JobsOf(s));
  }

  /** Nothing in processing and the hardware thread at the top: in normal mode at most one task
      is done, in fast mode none. */
  lemma RestJobs(j: Jobs)
    requires Handles(j) && Jobbed(j) && (j.h.HTop? || j.h.HFrame?) && forall t: nat :: !Has(j.status, t, Processing)
    ensures exists t: nat :: Has(j.status, t, Idle)
    ensures !j.fast && !j.p.prevRdy ==> exists t: nat :: Has(j.status, t, ProcDone)
  {
    assert !Has(j.status, 0, Processing) && !Has(j.status, 1, Processing);
    assert j.fast ==> !Has(j.status, 0, ProcDone);
    if Has(j.status, 0, ProcDone) {
      assert Has(j.status, 1, Idle);
    } else {
      assert Has(j.status, 0, Idle);
    }
  }

  /** The hardware thread, left to itself, makes the lookup succeed after finitely many steps. */
  ghost predicate LookupComes(s: State) { exists n: nat :: !Starved(HalRun(s, n)) }

  lemma ComesNow(s: State)
    requires !Starved(s)
    ensures LookupComes(s)
  {
    assert HalRun(s, 0) == s;
  }

  lemma ComesNext(s: State)
    requires LookupComes(HalStep(s))
    ensures LookupComes(s)
  {
    var n: nat :| !Starved(HalRun(HalStep(s), n));
    assert HalRun(s, n + 1) == HalRun(HalStep(s), n);
  }

  lemma {:induction false} GoodLookupComes(s: State)
    requires Good(s) && !Doomed(s)
    ensures LookupComes(s)
    decreases Work(s)
  {
    if HalRests(s) {
      RestFeeds(s);
      ComesNow(s);
    } else {
      HalGood(s);
      HalStaysClear(s);
      HalProgress(s);
      GoodLookupComes(HalStep(s));
      ComesNext(s);
    }
  }

  lemma LookupsSucceed(run: seq<State>, events: seq<Event>, fast: bool, at: nat)
    requires Execution(run, events, fast) && EosRun(run, events) && at < |run|
    ensures LookupComes(run[at]) || Doomed(run[at])
  {
    RunGood(run, events, fast, at);
    if !Doomed(run[at]) {
      GoodLookupComes(run[at]);
    }
  }

  // ---- sleeping ----------------------------------------------------------------------------------

  /** The hardware thread, left to itself, wakes the parser. */
  ghost predicate WakeComes(s: State) { exists n: nat :: !HalRun(s, n).p.pc.AtBlocked? }

  lemma WakeNext(s: State)
    requires WakeComes(HalStep(s))
    ensures WakeComes(s)
  {
    var n: nat :| !HalRun(HalStep(s), n).p.pc.AtBlocked?;
    assert HalRun(s, n + 1) == HalRun(HalStep(s), n);
  }

  lemma WakeNow(s: State)
    requires !s.p.pc.AtBlocked?
    ensures WakeComes(s)
  {
    assert HalRun(s, 0) == s;
  }

  /** The hardware thread has no signal left to give. */
  predicate Spent(s: State) { (s.h.HTop? || s.h.HFrame?) && First(s.g, Processing).None? }

  lemma WorksToSignal(s: State)
    requires !Spent(s) && !s.h.HSignal?
    ensures !Spent(HalStep(s)) && HalStep(s).p == s.p
  {
  }

  lemma SignalWakes(s: State)
    requires s.h.HSignal?
    ensures !HalStep(s).p.pc.AtBlocked?
  {
  }

  lemma {:induction false} WorkWakes(s: State)
    requires Base(s) && !Doomed(s) && !Spent(s)
    ensures WakeComes(s)
    decreases Work(s)
  {
    if s.h.HSignal? {
      SignalWakes(s);
      WakeNow(HalStep(s));
    } else {
      WorksToSignal(s);
      HalProgress(s);
      BaseStep(s, HalMoves);
      HalStaysClear(s);
      WorkWakes(HalStep(s));
    }
    WakeNext(s);
  }

  lemma {:induction false} SpentForEver(s: State, n: nat)
    requires (Spent(s) || s.h.HAbort?) && s.p.pc.AtBlocked?
    ensures HalRun(s, n).p.pc.AtBlocked?
    decreases n
  {
    if n > 0 {
      SpentForEver(HalStep(s), n - 1);
    }
  }

  /** A sleeping parser is woken by the hardware thread exactly when that thread has a signal
      left to give. */
  lemma WokenIff(s: State)
    requires Base(s) && !Doomed(s) && s.p.pc.AtBlocked?
    ensures WakeComes(s) <==> !Spent(s)
  {
    if Spent(s) {
      forall n: nat ensures HalRun(s, n).p.pc.AtBlocked? {
        SpentForEver(s, n);
      }
    } else {
      WorkWakes(s);
    }
  }

  /** The wait for the previous task looks again under the lock, so it is never lost. */
  lemma PrevWaitEnds(s: State)
    requires Good(s) && !Doomed(s) && s.p.pc.AtBlocked? && OnlyPrev(s.p.wait)
    ensures WakeComes(s)
  {
    FirstIs(s.g, Processing);
    if Spent(s) {
      RestJobs(JobsOf(s));
      assert false;
    }
    WokenIff(s);
  }

  /** In every run: a parser asleep is woken by the hardware thread, unless that thread has no
      signal left; and then it sleeps on a bit that is not looked at again: no task, an
      information change or no frame buffer. */
  lemma SleepersWake(run: seq<State>, events: seq<Event>, fast: bool, at: nat)
    requires Execution(run, events, fast) && EosRun(run, events) && at < |run| && run[at].p.pc.AtBlocked?
    ensures Doomed(run[at]) || WakeComes(run[at]) || (Spent(run[at]) && !OnlyPrev(run[at].p.wait))
  {
    RunGood(run, events, fast, at);
    if !Doomed(run[at]) {
      WokenIff(run[at]);
      if OnlyPrev(run[at].p.wait) {
        PrevWaitEnds(run[at]);
      }
    }
  }

  /** A bit that is up although what it waits for may have come: no task, an information change,
      no frame buffer. */
  predicate Stale(w: Wait) { w.hnd || w.info || w.pic }

  /** The lost wakeup, exactly: at the gate with such a bit up, the parser goes to sleep, and the
      hardware thread does not wake it exactly when its last signal came before; an idle task is
      there then all the same. */
  lemma LostIff(s: State, c: Choice)
    requires Good(s) && !Doomed(s) && s.p.pc.AtGate? && Stale(s.p.wait) && !s.resetFlag && !Holds(s.h)
    ensures var s' := ParserStep(s, c);
            && s'.p.pc.AtBlocked? && (!WakeComes(s') <==> Spent(s))
            && (Spent(s) ==> First(s'.g, Idle).Some?)
  {
    var s' := ParserStep(s, c);
    GateBlocks(s, c);
    ParserBase(s, c);
    KeepsClear(s, s');
    WokenIff(s');
    if Spent(s) {
      FirstIs(s.g, Idle);
      FirstIs(s.g, Processing);
      RestJobs(JobsOf(s));
    }
  }

  lemma GateBlocks(s: State, c: Choice)
    requires s.p.pc.AtGate? && Stale(s.p.wait) && !s.resetFlag && !Holds(s.h)
    ensures var s' := ParserStep(s, c);
            && s'.p == s.p.(pc := AtBlocked) && s'.g == s.g && s'.infos == s.infos && s'.h == s.h && s'.hinfo == s.hinfo
            && s'.changed == s.changed
  {
  }

  /** A reset is never lost: with its flag up the parser does not go to sleep, and the signal that
      follows the flag wakes one that sleeps. */
  lemma ResetGetsThrough(s: State, c: Choice)
    requires s.resetFlag
    ensures !s.p.pc.AtBlocked? ==> !ParserStep(s, c).p.pc.AtBlocked?
    ensures !Next(s, UserSignals).p.pc.AtBlocked?
  {
    if !s.p.pc.AtBlocked? {
      ResetKeepsAwake(s.p, ViewOf(s, c), c);
    }
  }

  lemma ResetKeepsAwake(p: Parser, v: View, c: Choice)
    requires v.resetFlag && !p.pc.AtBlocked?
    ensures !Control(p, v, c).pc.AtBlocked?
  {
    if PartOf(p.pc).Filling? {
      FillFrame(p, v, c);
    } else if PartOf(p.pc).Submitting? {
      SubmitKeepsAwake(p, v, c);
    } else if PartOf(p.pc).Resetting? {
      LoopKeepsAwake(p, v);
    }
  }

  lemma LoopKeepsAwake(p: Parser, v: View)
    requires v.resetFlag && PartOf(p.pc).Resetting? && !p.pc.AtBlocked?
    ensures !ResetControl(p, v).pc.AtBlocked?
  {
  }

  lemma SubmitKeepsAwake(p: Parser, v: View, c: Choice)
    requires PartOf(p.pc).Submitting?
    ensures !SubmitControl(p, v, c).pc.AtBlocked?
  {
  }

  // ---- an end of stream that is not what it seems ----------------------------------------------

  lemma EosDecided(s: State, c: Choice)
    requires s.p.pc.AtWait? && s.p.hnd.Some? && !s.changed && !s.p.info.output && s.p.info.eos
    requires s.p.hnd.value < |s.infos|
    ensures var s' := ParserStep(s, c);
            && s'.p.pc == AtPublish(EosParse) && s'.p.hnd == s.p.hnd && s'.g == s.g && s'.hw == s.hw
            && s'.infos == s.infos[s.p.hnd.value := s.p.info.(infoChange := false)]
  {
  }

  lemma EosPublished(s: State, c: Choice)
    requires Ok(s.g) && s.p.pc == AtPublish(EosParse) && s.p.hnd.Some? && s.p.hnd.value < |s.g.status|
    ensures var s' := ParserStep(s, c);
            s'.hw == s.hw && s'.infos == s.infos && Has(s'.g.status, s.p.hnd.value, Processing)
  {
    SetStatusOk(s.g, s.p.hnd.value, Processing);
  }

  /** An end of stream without an output slot is handed over without a job; the hardware thread
      takes it for a frame, and then aborts, exactly when the parse left it valid. */
  lemma EosWithoutOutput(s: State, c: Choice)
    requires TasksOk(s) && s.p.pc.AtWait? && s.p.hnd.Some? && !s.changed && !s.p.info.output && s.p.info.eos
    ensures var s', t := ParserStep(ParserStep(s, c), c), s.p.hnd.value;
            && s'.hw == s.hw && Has(s'.g.status, t, Processing)
            && (Real(InfoOf(s'.infos, t)) <==> s.p.info.valid) && (DoomedBy(JobsOf(s'), t) <==> s.p.info.valid)
  {
    EosDecided(s, c);
    EosPublished(ParserStep(s, c), c);
  }

  lemma Thrice(s: State)
    ensures HalRun(s, 3) == HalStep(HalStep(HalStep(s)))
  {
    assert HalRun(s, 3) == HalRun(HalStep(s), 2);
    assert HalRun(HalStep(s), 2) == HalRun(HalStep(HalStep(s)), 1);
  }

  lemma FrameWaitedFor(s: State)
    requires TasksOk(s) && s.h.HInfo? && Real(InfoOf(s.infos, s.h.t))
    ensures var s' := HalStep(HalStep(HalStep(s)));
            && s'.hw == s.hw - {s.h.t} && s'.h == HDone(s.h.t)
            && s'.pkt == ClrFlag(s.pkt, At(InfoOf(s.infos, s.h.t).input), HalInput)
  {
  }

  lemma FramePassedOver(s: State)
    requires TasksOk(s) && s.h.HInfo? && !Real(InfoOf(s.infos, s.h.t)) && !InfoOf(s.infos, s.h.t).infoChange
    ensures var s' := HalStep(HalStep(HalStep(s)));
            s'.hw == s.hw && s'.h == HTop && s'.pkt == s.pkt && Has(s'.g.status, s.h.t, Idle)
  {
    SetStatusOk(s.g, s.h.t, Idle);
  }

  /** When the hardware thread comes to a frame whose job was started, it waits for the job and
      gives the packet slot back exactly when the frame is not an invalid end of stream; such a
      one goes idle with its job running and its slot held. */
  lemma FrameAwaitedIff(s: State)
    requires TasksOk(s) && s.h.HInfo? && s.h.t in s.hw && !InfoOf(s.infos, s.h.t).infoChange
    ensures var s', info := HalRun(s, 3), InfoOf(s.infos, s.h.t);
            && (s.h.t !in s'.hw <==> !(info.eos && !info.valid))
            && s'.pkt == (if info.eos && !info.valid then s.pkt else ClrFlag(s.pkt, At(info.input), HalInput))
            && (info.eos && !info.valid ==> Has(s'.g.status, s.h.t, Idle))
  {
    Thrice(s);
    if Real(InfoOf(s.infos, s.h.t)) {
      FrameWaitedFor(s);
    } else {
      FramePassedOver(s);
    }
  }
}
