/** The task handles of the two threads, and the hardware jobs behind them
    (mpp/codec/mpp_dec.cpp, mpp/hal/hal_task.cpp): who may move which task, and, in
    normal mode, one job at a time. */
module DecoderTasks {
  import opened Wrappers
  import opened StatusLists
  import opened HalTask
  import opened Decoder
  import opened DecoderGate

  predicate Has(status: seq<Status>, t: nat, st: Status) { t < |status| && status[t] == st }

  function InfoOf(infos: seq<Info>, t: nat): Info { if t < |infos| then infos[t] else NO_INFO }

  // ---- the parser owns idle tasks (and done ones in normal mode), the hardware thread
  //      those in processing ------------------------------------------------------------

  predicate ParserTask(status: seq<Status>, infos: seq<Info>, p: Parser) {
    && (p.hnd.Some? ==> Has(status, p.hnd.value, Idle))
    && (p.pc.AtPublish? && p.hnd.Some? ==> InfoOf(infos, p.hnd.value) == p.info)
    && (p.pc.AtResetIdle? ==> Has(status, p.pc.t, ProcDone))
    && (p.pc.AtPrevIdle? ==> Has(status, p.pc.t, ProcDone))
  }

  predicate HalTaskOk(status: seq<Status>, infos: seq<Info>, h: HalPc, hinfo: Info, fast: bool) {
    match h
    case HInfo(t) => Has(status, t, Processing)
    case HIdle(t) => Has(status, t, Processing) && !Real(InfoOf(infos, t)) && !Fatal(InfoOf(infos, t))
    case HWait(t) => Has(status, t, Processing) && Real(hinfo) && InfoOf(infos, t) == hinfo
    case HClear(t) => Has(status, t, Processing) && Real(hinfo) && InfoOf(infos, t) == hinfo
    case HDone(t) => Has(status, t, Processing) && Real(hinfo) && InfoOf(infos, t) == hinfo
    case HFast => fast
    case HFastIdle(t) => fast && Has(status, t, ProcDone)
    case _ => true
  }

  predicate OnlyPrev(w: Wait) { w.prev && !w.hnd && !w.info && !w.pic }

  /** A parser that sleeps only for the previous task: it is not done, or the signal comes. */
  ghost predicate WaitOk(status: seq<Status>, p: Parser, h: HalPc) {
    p.pc.AtBlocked? && OnlyPrev(p.wait) ==> h == HSignal(true) || forall t :: !Has(status, t, ProcDone)
  }

  /** The two statuses nobody sets. */
  ghost predicate InUse(status: seq<Status>) {
    forall t: nat :: t < |status| ==> !status[t].Prepare? && !status[t].WaitProc?
  }

  // ---- jobs --------------------------------------------------------------------------------

  /** A frame in the hands of the hardware thread, or done and not yet collected. */
  predicate Busy(status: seq<Status>, infos: seq<Info>, t: nat) {
    Has(status, t, ProcDone) || (Has(status, t, Processing) && Real(InfoOf(infos, t)))
  }

  function Count(b: bool): nat { if b then 1 else 0 }

  predicate Waited(h: HalPc, t: nat) { h == HClear(t) || h == HDone(t) }

  /** The jobs running are those of the frames handed over and not waited for, and the one
      just started. */
  ghost predicate JobsOk(status: seq<Status>, infos: seq<Info>, p: Parser, h: HalPc, hw: set<nat>) {
    forall t :: t in hw <==>
      || (Has(status, t, Processing) && Real(InfoOf(infos, t)) && !Waited(h, t))
      || (p.pc == AtPublish(RealTask) && p.hnd == Some(t))
  }

  /** Normal mode: the bit prev_task_rdy is down exactly while one frame is busy. Fast mode:
      a done task is the hardware thread's, for a moment. */
  ghost predicate OneBusy(status: seq<Status>, infos: seq<Info>, p: Parser, h: HalPc, fast: bool) {
    && (!fast ==> Count(Busy(status, infos, 0)) + Count(Busy(status, infos, 1)) == if p.prevRdy then 0 else 1)
    && (fast ==> forall t :: Has(status, t, ProcDone) ==> h.HFast? || h == HFastIdle(t))
    && (fast && h.HFast? ==> forall t, t' :: Has(status, t, ProcDone) && Has(status, t', ProcDone) ==> t == t')
  }

  /** Frames in processing carry a packet slot. */
  ghost predicate CargoOk(status: seq<Status>, infos: seq<Info>) {
    forall t :: Has(status, t, Processing) && Real(InfoOf(infos, t)) ==> InfoOf(infos, t).input.Some?
  }

  /** The task group and everything that depends on it, with the lists left out. */
  datatype Jobs = Jobs(status: seq<Status>, infos: seq<Info>, p: Parser, h: HalPc, hinfo: Info, hw: set<nat>, fast: bool)

  function JobsOf(s: State): Jobs { Jobs(s.g.status, s.infos, s.p, s.h, s.hinfo, s.hw, s.fast) }

  /** What holds whatever the parse call finds ... */
  ghost predicate Handles(j: Jobs) {
    && |j.status| == TaskCount(j.fast) == |j.infos| && PrevOk(j.p, j.fast)
    && ParserTask(j.status, j.infos, j.p)
    && HalTaskOk(j.status, j.infos, j.h, j.hinfo, j.fast)
    && WaitOk(j.status, j.p, j.h) && InUse(j.status)
  }

  /** ... and what needs the tasks handed over to be what they seem. */
  ghost predicate Jobbed(j: Jobs) {
    && JobsOk(j.status, j.infos, j.p, j.h, j.hw)
    && OneBusy(j.status, j.infos, j.p, j.h, j.fast)
    && CargoOk(j.status, j.infos)
  }

  ghost predicate TasksOk(s: State) { Ok(s.g) && Handles(JobsOf(s)) }

  // ---- the hardware thread's steps -----------------------------------------------------------

  lemma HalPicks(j: Jobs, t: nat)
    requires Handles(j) && j.h.HTop? && Has(j.status, t, Processing)
    ensures Handles(j.(h := HInfo(t))) && (Jobbed(j) ==> Jobbed(j.(h := HInfo(t))))
  {
  }

  lemma HalReads(j: Jobs)
    requires Handles(j) && j.h.HInfo?
    ensures var info := InfoOf(j.infos, j.h.t);
            var j' := j.(hinfo := info, 
                         h := if info.infoChange && !info.output then HAbort else if Real(info) then HWait(j.h.t) else HIdle(j.h.t));
            Handles(j') && (Jobbed(j) ==> Jobbed(j'))
  {
  }

  lemma HalWaits(j: Jobs)
    requires Handles(j) && (j.h.HWait? || j.h.HClear?)
    ensures var j' := if j.h.HWait? then j.(hw := j.hw - {j.h.t}, h := HClear(j.h.t)) else j.(h := HDone(j.h.t));
            Handles(j') && (Jobbed(j) ==> Jobbed(j'))
  {
  }

  lemma HalIdles(j: Jobs)
    requires Handles(j) && (j.h.HIdle? || j.h.HFastIdle?)
    ensures var j' := j.(status := j.status[j.h.t := Idle], h := HSignal(j.h.HFastIdle?));
            Handles(j') && (Jobbed(j) ==> Jobbed(j'))
  {
    var status := j.status[j.h.t := Idle];
    assert forall t :: Has(status, t, ProcDone) ==> Has(j.status, t, ProcDone);
  }

  lemma HalEnds(j: Jobs)
    requires Handles(j) && j.h.HDone?
    ensures var j' := j.(status := j.status[j.h.t := ProcDone], h := if j.fast then HFast else HSignal(true));
            Handles(j') && (Jobbed(j) ==> Jobbed(j'))
  {
    var status := j.status[j.h.t := ProcDone];
    assert forall t :: Has(status, t, ProcDone) <==> t == j.h.t || Has(j.status, t, ProcDone);
  }

  lemma HalCollects(j: Jobs, t: nat)
    requires Handles(j) && j.h.HFast? && Has(j.status, t, ProcDone)
    ensures Handles(j.(h := HFastIdle(t))) && (Jobbed(j) ==> Jobbed(j.(h := HFastIdle(t))))
  {
  }

  lemma HalReleases(j: Jobs)
    requires Handles(j) && j.h.HFast? && forall t :: !Has(j.status, t, ProcDone)
    ensures Handles(j.(h := HSignal(true))) && (Jobbed(j) ==> Jobbed(j.(h := HSignal(true))))
  {
  }

  lemma HalWakes(j: Jobs, h: HalPc)
    requires Handles(j) && j.h.HSignal? && (h.HTop? || h.HFrame?)
    ensures Handles(j.(p := Wake(j.p), h := h)) && (Jobbed(j) ==> Jobbed(j.(p := Wake(j.p), h := h)))
  {
  }

  lemma HalShows(j: Jobs, h: HalPc)
    requires Handles(j) && j.h.HFrame? && (h.HTop? || h.HAbort?)
    ensures Handles(j.(h := h)) && (Jobbed(j) ==> Jobbed(j.(h := h)))
  {
  }

  /** A signal of the user. */
  lemma UserWakes(j: Jobs)
    requires Handles(j)
    ensures Handles(j.(p := Wake(j.p))) && (Jobbed(j) ==> Jobbed(j.(p := Wake(j.p))))
  {
  }

  /** Every step of the hardware thread keeps the tasks in order. */
  lemma HalTasks(s: State)
    requires TasksOk(s)
    ensures TasksOk(HalStep(s)) && (Jobbed(JobsOf(s)) ==> Jobbed(JobsOf(HalStep(s))))
  {
    var j := JobsOf(s);
    match s.h
    case HTop => HalLooks(s, Processing);
    case HFast => HalLooks(s, ProcDone);
    case HInfo(_) => HalReads(j);
    case HWait(_) => HalWaits(j);
    case HClear(_) => HalWaits(j);
    case HIdle(_) => HalMovesTask(s, Idle);
    case HDone(_) => HalMovesTask(s, ProcDone);
    case HFastIdle(_) => HalMovesTask(s, Idle);
    case _ => HalCloses(s);
  }

  lemma HalCloses(s: State)
    requires TasksOk(s) && (s.h.HSignal? || s.h.HFrame? || s.h.HAbort?)
    ensures TasksOk(HalStep(s)) && (Jobbed(JobsOf(s)) ==> Jobbed(JobsOf(HalStep(s))))
  {
    if s.h.HSignal? {
      HalWakes(JobsOf(s), HalStep(s).h);
    } else if s.h.HFrame? {
      HalShows(JobsOf(s), HalStep(s).h);
    }
  }

  lemma HalLooks(s: State, st: Status)
    requires TasksOk(s) && ((s.h.HTop? && st == Processing) || (s.h.HFast? && st == ProcDone))
    ensures TasksOk(HalStep(s)) && (Jobbed(JobsOf(s)) ==> Jobbed(JobsOf(HalStep(s))))
  {
    var j, r := JobsOf(s), First(s.g, st);
    FirstIs(s.g, st);
    if s.h.HTop? {
      if r.Some? {
        HalPicks(j, r.value);
      }
    } else if r.Some? {
      HalCollects(j, r.value);
    } else {
      HalReleases(j);
    }
  }

  lemma HalMovesTask(s: State, st: Status)
    requires TasksOk(s) && ((s.h.HDone? && st == ProcDone) || ((s.h.HIdle? || s.h.HFastIdle?) && st == Idle))
    ensures TasksOk(HalStep(s)) && (Jobbed(JobsOf(s)) ==> Jobbed(JobsOf(HalStep(s))))
  {
    SetStatusOk(s.g, s.h.t, st);
    if s.h.HDone? {
      HalEnds(JobsOf(s));
    } else {
      HalIdles(JobsOf(s));
    }
  }

  // ---- the parser thread's steps -------------------------------------------------------------

  /** A step that moves no task and hands none over. */
  lemma ParserQuiet(j: Jobs, p: Parser)
    requires Handles(j) && PrevOk(p, j.fast) && ParserTask(j.status, j.infos, p) && WaitOk(j.status, p, j.h)
    requires j.p.pc != AtPublish(RealTask) && p.pc != AtPublish(RealTask)
    requires j.fast || p.prevRdy == j.p.prevRdy
    ensures Handles(j.(p := p)) && (Jobbed(j) ==> Jobbed(j.(p := p)))
  {
  }

  /** The previous frame's task is collected. */
  lemma ParserCollects(j: Jobs, p: Parser)
    requires Handles(j) && PrevOk(p, j.fast) && (j.p.pc.AtResetIdle? || j.p.pc.AtPrevIdle?)
    requires (p.pc.AtReset? || p.pc.AtParse?) && p.hnd == j.p.hnd && p.prevRdy
    ensures var j' := j.(p := p, status := j.status[j.p.pc.t := Idle]);
            Handles(j') && (Jobbed(j) ==> Jobbed(j'))
  {
  }

  /** A handle's information is filled in, for a task without a job ... */
  lemma ParserWrites(j: Jobs, p: Parser)
    requires Handles(j) && PrevOk(p, j.fast) && p.hnd.Some? && p.hnd == j.p.hnd && p.prevRdy == j.p.prevRdy
    requires !j.p.pc.AtPublish? && p.pc.AtPublish? && !p.pc.kind.RealTask?
    ensures var j' := j.(p := p, infos := j.infos[p.hnd.value := p.info]);
            Handles(j') && (Jobbed(j) ==> Jobbed(j'))
  {
  }

  /** ... or together with the start of its job. */
  lemma ParserStarts(j: Jobs, p: Parser)
    requires Handles(j) && PrevOk(p, j.fast) && p.hnd.Some? && p.hnd == j.p.hnd && p.prevRdy == j.p.prevRdy
    requires j.p.pc.AtFrame? && p.pc == AtPublish(RealTask)
    ensures var j' := j.(p := p, infos := j.infos[p.hnd.value := p.info], hw := j.hw + {p.hnd.value});
            Handles(j') && (Jobbed(j) ==> Jobbed(j'))
  {
  }

  /** A task goes to the hardware thread. */
  lemma ParserPublishes(j: Jobs, p: Parser)
    requires Handles(j) && PrevOk(p, j.fast) && j.p.pc.AtPublish? && j.p.hnd.Some? && p.hnd.None?
    requires p.pc.AtTop? || p.pc.AtDrop?
    ensures Handles(j.(p := p, status := j.status[j.p.hnd.value := Processing]))
  {
    var status := j.status[j.p.hnd.value := Processing];
    assert forall t :: Has(status, t, ProcDone) <==> Has(j.status, t, ProcDone);
  }

  /** One without a job changes nobody's ... */
  lemma ParserNotifies(j: Jobs, p: Parser)
    requires Handles(j) && Jobbed(j) && j.p.pc.AtPublish? && !j.p.pc.kind.RealTask? && !Real(j.p.info)
    requires j.p.hnd.Some? && p.prevRdy == j.p.prevRdy && (p.pc.AtTop? || p.pc.AtDrop?)
    ensures Jobbed(j.(p := p, status := j.status[j.p.hnd.value := Processing]))
  {
    var status := j.status[j.p.hnd.value := Processing];
    assert forall t :: Has(status, t, ProcDone) <==> Has(j.status, t, ProcDone);
  }

  /** ... one with a job is the one frame the hardware is busy with. */
  lemma ParserSubmits(j: Jobs, p: Parser)
    requires Handles(j) && Jobbed(j) && j.p.pc == AtPublish(RealTask) && Real(j.p.info) && j.p.info.input.Some?
    requires j.p.hnd.Some? && !p.prevRdy && p.pc.AtTop?
    ensures Jobbed(j.(p := p, status := j.status[j.p.hnd.value := Processing]))
  {
    var status := j.status[j.p.hnd.value := Processing];
    assert forall t :: Has(status, t, ProcDone) <==> Has(j.status, t, ProcDone);
  }

  // What the parser's own code does with its handle, by kind of step.

  predicate Moves(pc: Pc) { pc.AtResetIdle? || pc.AtPrevIdle? || pc.AtSetIdle? || pc.AtPublish? }

  /** A step that moves no task and hands none over: the handle is kept, dropped or the one
      just found, and so is a task to collect; and it goes to sleep only at the gate. */
  predicate Quietly(p: Parser, p': Parser, v: View) {
    && !Moves(p.pc) && !p'.pc.AtPublish?
    && (p'.hnd == p.hnd || p'.hnd.None? || (p.pc.AtHandle? && p'.hnd == v.found))
    && (v.fast || p'.prevRdy == p.prevRdy)
    && (p'.pc.AtResetIdle? ==> p.pc.AtResetGet? && v.found == Some(p'.pc.t))
    && (p'.pc.AtPrevIdle? ==> p.pc.AtPrev? && v.found == Some(p'.pc.t))
    && (p'.pc.AtBlocked? ==> p' == p || (p.pc.AtGate? && !v.held && MustWait(p'.wait, v.found)))
  }

  predicate HandsOver(p: Parser, p': Parser, c: Choice) {
    && !Moves(p.pc) && p'.pc.AtPublish? && p'.hnd == p.hnd && p.hnd.Some? && p'.prevRdy == p.prevRdy
    && (p'.pc.kind.RealTask? <==> p.pc.AtFrame?) && (p.pc.AtFrame? ==> c.go)
  }

  predicate MovesTask(p: Parser, p': Parser) {
    && (p.pc.AtSetIdle? ==> p.hnd.Some? && p'.hnd.None? && p'.pc.AtDrop? && p'.prevRdy == p.prevRdy)
    && (p.pc.AtResetIdle? ==> p'.pc.AtReset? && p'.hnd == p.hnd && p'.prevRdy)
    && (p.pc.AtPrevIdle? ==> p'.pc.AtParse? && p'.hnd == p.hnd && p'.prevRdy)
    && (p.pc.AtPublish? ==>
          && p.hnd.Some? && p'.hnd.None? && (p'.pc.AtTop? || p'.pc.AtDrop?)
          && (if p.pc.kind.RealTask? then !p'.prevRdy && p'.pc.AtTop? else p'.prevRdy == p.prevRdy))
  }

  /** The tasks handed over are what they seem. */
  predicate Honest(p: Parser) {
    p.pc.AtPublish? ==> if p.pc.kind.RealTask? then Real(p.info) && p.info.input.Some? else !Real(p.info)
  }

  lemma OutcomeIsHonest(p: Parser)
    requires BitsOk(p) && FlagsOk(p) && OutcomeOk(p) && !Dooms(p) && !Spills(p)
    ensures Honest(p)
  {
  }

  lemma ControlMoves(p: Parser, v: View, c: Choice)
    requires FlagsOk(p) && Moves(p.pc)
    ensures MovesTask(p, Control(p, v, c))
  {
  }

  lemma ControlStays(p: Parser, v: View, c: Choice)
    requires FlagsOk(p) && PrevOk(p, v.fast) && !Moves(p.pc)
    ensures var p' := Control(p, v, c);
            if p'.pc.AtPublish? then HandsOver(p, p', c) else Quietly(p, p', v)
  {
    match PartOf(p.pc)
    case Submitting => SubmitStays(p, v, c);
    case Resetting => ResetStays(p, v);
    case Filling => FillFrame(p, v, c);
    case Preparing => PrepareStays(p, v, c);
    case Parsing => ParseStays(p, v, c);
  }

  lemma PrepareStays(p: Parser, v: View, c: Choice)
    requires FlagsOk(p) && PartOf(p.pc).Preparing?
    ensures var p' := PrepareControl(p, v, c);
            if p'.pc.AtPublish? then HandsOver(p, p', c) else Quietly(p, p', v)
  {
  }

  lemma ParseStays(p: Parser, v: View, c: Choice)
    requires !Moves(p.pc) && PartOf(p.pc).Parsing?
    ensures Quietly(p, ParseControl(p, v, c), v)
  {
  }

  lemma SubmitStays(p: Parser, v: View, c: Choice)
    requires FlagsOk(p) && !Moves(p.pc) && PartOf(p.pc).Submitting?
    ensures var p' := SubmitControl(p, v, c);
            if p'.pc.AtPublish? then HandsOver(p, p', c) else Quietly(p, p', v)
  {
  }

  lemma ResetStays(p: Parser, v: View)
    requires PrevOk(p, v.fast) && !Moves(p.pc) && PartOf(p.pc).Resetting?
    ensures Quietly(p, ResetControl(p, v), v)
  {
  }

  /** A parser step seen from the statuses alone. */
  function StatusAfter(status: seq<Status>, p: Parser): seq<Status> {
    match p.pc
    case AtResetIdle(t) => if t < |status| then status[t := Idle] else status
    case AtPrevIdle(t) => if t < |status| then status[t := Idle] else status
    case AtSetIdle => if p.hnd.Some? && p.hnd.value < |status| then status[p.hnd.value := Idle] else status
    case AtPublish(_) => if p.hnd.Some? && p.hnd.value < |status| then status[p.hnd.value := Processing] else status
    case _ => status
  }

  function JobsAfter(j: Jobs, p': Parser, c: Choice): Jobs {
    Jobs(StatusAfter(j.status, j.p), InfosAfter(j.infos, j.p, p'), p', j.h, j.hinfo,
         if Starts(j.p, c) then j.hw + {j.p.hnd.value} else j.hw, j.fast)
  }

  lemma CollectGroup(g: Group<Status>, p: Parser)
    requires Ok(g) && (p.pc.AtResetIdle? || p.pc.AtPrevIdle?) && p.pc.t < |g.status|
    ensures Ok(GroupAfter(g, p)) && GroupAfter(g, p).status == StatusAfter(g.status, p)
  {
    SetStatusOk(g, p.pc.t, Idle);
  }

  lemma HandGroup(g: Group<Status>, p: Parser)
    requires Ok(g) && (p.pc.AtSetIdle? || p.pc.AtPublish?) && p.hnd.Some? && p.hnd.value < |g.status|
    ensures Ok(GroupAfter(g, p)) && GroupAfter(g, p).status == StatusAfter(g.status, p)
  {
    SetStatusOk(g, p.hnd.value, if p.pc.AtSetIdle? then Idle else Processing);
  }

  lemma GroupAfterOk(g: Group<Status>, infos: seq<Info>, p: Parser)
    requires Ok(g) && ParserTask(g.status, infos, p)
    ensures Ok(GroupAfter(g, p)) && GroupAfter(g, p).status == StatusAfter(g.status, p)
  {
    if p.pc.AtResetIdle? || p.pc.AtPrevIdle? {
      CollectGroup(g, p);
    } else if (p.pc.AtSetIdle? || p.pc.AtPublish?) && p.hnd.Some? {
      HandGroup(g, p);
    }
  }

  lemma HandOverStep(j: Jobs, p': Parser, c: Choice)
    requires Handles(j) && PrevOk(p', j.fast) && HandsOver(j.p, p', c)
    ensures Handles(JobsAfter(j, p', c)) && (Jobbed(j) ==> Jobbed(JobsAfter(j, p', c)))
  {
    if j.p.pc.AtFrame? {
      ParserStarts(j, p');
    } else {
      ParserWrites(j, p');
    }
  }

  lemma PublishHandles(j: Jobs, p': Parser, c: Choice)
    requires Handles(j) && PrevOk(p', j.fast) && j.p.pc.AtPublish? && MovesTask(j.p, p')
    ensures Handles(JobsAfter(j, p', c))
  {
    ParserPublishes(j, p');
  }

  lemma PublishJobs(j: Jobs, p': Parser, c: Choice)
    requires Handles(j) && Jobbed(j) && Honest(j.p) && j.p.pc.AtPublish? && MovesTask(j.p, p')
    ensures Jobbed(JobsAfter(j, p', c))
  {
    if j.p.pc.kind.RealTask? {
      ParserSubmits(j, p');
    } else {
      ParserNotifies(j, p');
    }
  }

  lemma PublishStep(j: Jobs, p': Parser, c: Choice)
    requires Handles(j) && PrevOk(p', j.fast) && j.p.pc.AtPublish? && MovesTask(j.p, p')
    ensures Handles(JobsAfter(j, p', c)) && (Jobbed(j) && Honest(j.p) ==> Jobbed(JobsAfter(j, p', c)))
  {
    PublishHandles(j, p', c);
    if Jobbed(j) && Honest(j.p) {
      PublishJobs(j, p', c);
    }
  }

  lemma MoveStep(j: Jobs, p': Parser, c: Choice)
    requires Handles(j) && PrevOk(p', j.fast) && Moves(j.p.pc) && !j.p.pc.AtPublish? && MovesTask(j.p, p')
    ensures Handles(JobsAfter(j, p', c)) && (Jobbed(j) ==> Jobbed(JobsAfter(j, p', c)))
  {
    if j.p.pc.AtSetIdle? {
      assert StatusAfter(j.status, j.p) == j.status;
      ParserQuiet(j, p');
    } else {
      ParserCollects(j, p');
    }
  }

  /** What the parser finds by a lookup has the status it asked for. */
  ghost predicate FoundOk(j: Jobs, v: View) {
    && v.fast == j.fast && v.held == Holds(j.h)
    && (j.p.pc.AtHandle? && v.found.Some? ==> Has(j.status, v.found.value, Idle))
    && ((j.p.pc.AtResetGet? || j.p.pc.AtPrev?) && v.found.Some? ==> Has(j.status, v.found.value, ProcDone))
    && (j.p.pc.AtGate? && v.found.None? ==> forall t :: !Has(j.status, t, ProcDone))
  }

  lemma QuietStep(j: Jobs, p': Parser, v: View, c: Choice)
    requires Handles(j) && PrevOk(p', j.fast) && Quietly(j.p, p', v) && !Starts(j.p, c) && FoundOk(j, v)
    ensures Handles(JobsAfter(j, p', c)) && (Jobbed(j) ==> Jobbed(JobsAfter(j, p', c)))
  {
    ParserQuiet(j, p');
  }

  lemma ControlJobs(j: Jobs, p': Parser, v: View, c: Choice)
    requires Handles(j) && FlagsOk(j.p) && PrevOk(p', j.fast) && p' == Control(j.p, v, c) && FoundOk(j, v)
    ensures Handles(JobsAfter(j, p', c)) && (Jobbed(j) && Honest(j.p) ==> Jobbed(JobsAfter(j, p', c)))
  {
    if Moves(j.p.pc) {
      ControlMoves(j.p, v, c);
      if j.p.pc.AtPublish? {
        PublishStep(j, p', c);
      } else {
        MoveStep(j, p', c);
      }
    } else {
      ControlStays(j.p, v, c);
      if p'.pc.AtPublish? {
        HandOverStep(j, p', c);
      } else {
        QuietStep(j, p', v, c);
      }
    }
  }

  lemma LookFinds(s: State, c: Choice)
    requires Ok(s.g)
    ensures FoundOk(JobsOf(s), ViewOf(s, c))
  {
    FirstIs(s.g, Idle);
    FirstIs(s.g, ProcDone);
  }

  /** Every step of the parser keeps the handles in order, and the jobs too as long as what it
      hands over is what it seems. */
  lemma ParserTasks(s: State, p': Parser, c: Choice)
    requires TasksOk(s) && FlagsOk(s.p) && PrevOk(p', s.fast) && p' == Control(s.p, ViewOf(s, c), c)
    ensures TasksOk(Effect(s, p', c))
    ensures Jobbed(JobsOf(s)) && Honest(s.p) ==> Jobbed(JobsOf(Effect(s, p', c)))
  {
    LookFinds(s, c);
    GroupAfterOk(s.g, s.infos, s.p);
    ControlJobs(JobsOf(s), p', ViewOf(s, c), c);
    assert JobsOf(Effect(s, p', c)) == JobsAfter(JobsOf(s), p', c);
  }
}
