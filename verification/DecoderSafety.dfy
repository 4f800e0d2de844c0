/** What holds in every interleaving of the decoder's threads and the user, in normal and in
    fast mode (mpp/codec/mpp_dec.cpp): resources never run out, one hardware job at a time
    in normal mode, a pending information change holds the hardware back and is announced
    once. Each theorem names what it needs of the codec's parse call, if anything. */
module DecoderSafety {
  import opened Wrappers
  import opened Lists
  import opened BufferPool
  import opened Slots
  import opened HalTask
  import opened Decoder
  import opened DecoderGate
  import opened DecoderTasks
  import opened DecoderSlots
  import opened DecoderPackets
  import opened DecoderInvariant
  import opened DecoderNormal

  // ---- resources suffice ------------------------------------------------------------------

  predicate Enough(s: State) {
    && !s.p.pc.AtAbort?
    && (s.p.pc.AtPktSlot? && s.p.info.input.None? ==> Acquire(s.pkt).0.Some?)
    && (s.p.pc.AtBufMake? ==> !Refused(s.pkt.pool, s.p.pc.size))
  }

  lemma GoodHasEnough(s: State, c: Choice)
    requires Good(s)
    ensures Enough(s)
  {
    ParserPackets(s, Control(s.p, ViewOf(s, c), c), c);
    SuppliedIsEnough(s, c);
  }

  lemma SuppliedIsEnough(s: State, c: Choice)
    requires Supplied(s.p, ViewOf(s, c)) && !s.p.pc.AtAbort?
    ensures Enough(s)
  {
  }

  lemma LockedHasEnough(s: State, c: Choice)
    requires Locked(s)
    ensures Enough(s)
  {
    var i: nat :| Spilt(s, [Some(i)]);
    StuckIsIdle(s);
    LockedRoom(s, i);
    SpiltParser(s, c, [Some(i)]);
    SuppliedIsEnough(s, c);
  }

  /** Whenever the parser looks for a packet slot it finds one, so it never aborts, and
      whenever it needs a new packet buffer the group of three grants it: in normal mode in every
      run, in fast mode if frames at the end of the stream are valid. */
  lemma ResourcesSuffice(run: seq<State>, events: seq<Event>, fast: bool, at: nat, c: Choice)
    requires Execution(run, events, fast) && (fast ==> EosRun(run, events)) && at < |run|
    ensures Enough(run[at]) || Doomed(run[at])
  {
    if fast {
      RunGood(run, events, fast, at);
    } else {
      RunNormal(run, events, at);
    }
    if Good(run[at]) {
      GoodHasEnough(run[at], c);
    } else if Locked(run[at]) {
      LockedHasEnough(run[at], c);
    }
  }

  /** Slot i is the parser's, or a frame in processing carries it. */
  ghost predicate HasOwner(s: State, i: nat) {
    s.p.info.input == Some(i) || exists t: nat :: Has(s.g.status, t, Processing) && InfoOf(s.infos, t).input == Some(i)
  }

  lemma GoodHasOwner(s: State, i: nat)
    requires Good(s) && i < |s.pkt.slots| && s.pkt.slots[i].onUsed
    ensures HasOwner(s, i)
  {
    var cargo := Cargo(s.g.status, s.infos, s.h);
    if s.p.info.input != Some(i) {
      var t: nat :| t < |cargo| && cargo[t] == Some(i);
      assert Has(s.g.status, t, Processing);
    }
  }

  /** No slot in use is without owner, in fast mode if ends of stream are sound and in normal
      mode until the parser is stuck. */
  lemma SlotsHaveOwners(run: seq<State>, events: seq<Event>, fast: bool, at: nat, i: nat)
    requires Execution(run, events, fast) && at < |run|
    requires i < |run[at].pkt.slots| && run[at].pkt.slots[i].onUsed
    ensures EosRun(run, events) ==> HasOwner(run[at], i) || Doomed(run[at])
    ensures !fast ==> HasOwner(run[at], i) || Doomed(run[at]) || Stuck(run[at])
  {
    if EosRun(run, events) {
      RunGood(run, events, fast, at);
    } else if !fast {
      RunNormal(run, events, at);
    }
    if Good(run[at]) {
      GoodHasOwner(run[at], i);
    }
  }

  // ---- one hardware job at a time -------------------------------------------------------------

  /** In normal mode, in every run until the hardware thread is bound to abort, at most one job
      runs; and until the parser is stuck everything Single says holds. */
  lemma OneJob(run: seq<State>, events: seq<Event>, at: nat)
    requires Execution(run, events, false) && at < |run|
    ensures Doomed(run[at]) || AtMostOne(run[at].hw)
    ensures Doomed(run[at]) || Stuck(run[at]) || Single(JobsOf(run[at]))
  {
    RunNormal(run, events, at);
    RunMode(run, events, false, at);
    if Good(run[at]) {
      JobsAreSingle(JobsOf(run[at]));
    }
  }

  // ---- the gate of an information change --------------------------------------------------------

  lemma GateHolds(s: State, e: Event)
    requires LocalOk(s.p, s.fast, s.changed) && s.changed
    ensures Next(s, e).hw <= s.hw
  {
    if e.ParserMoves? {
      assert !Starts(s.p, e.c);
    }
  }

  /** No hardware job is started while a change is pending, whatever the parse call finds. */
  lemma NoStartWhileChanged(run: seq<State>, events: seq<Event>, fast: bool, at: nat)
    requires Execution(run, events, fast) && at < |events| && run[at].changed
    ensures run[at + 1].hw <= run[at].hw
  {
    RunBase(run, events, fast, at);
    GateHolds(run[at], events[at]);
    assert StepAt(run, events, at);
  }

  /** A task with the information-change flag is handed over. */
  predicate Announces(s: State, e: Event) { e.ParserMoves? && s.p.pc.AtPublish? && s.p.info.infoChange }

  predicate ResetsParser(s: State, e: Event) { e.ParserMoves? && s.p.pc.AtResetClear? }

  lemma PushedStep(s: State, e: Event)
    ensures s.changed && !ResetsParser(s, e) ==> Next(s, e).pushed == s.pushed + (if Announces(s, e) then 1 else 0)
    ensures Next(s, e).changed && (!s.changed || ResetsParser(s, e)) ==> Next(s, e).pushed == 0
  {
  }

  /** Announcements in steps i to k. */
  function Announced(run: seq<State>, events: seq<Event>, i: nat, k: nat): nat
    requires i <= k <= |events| <= |run|
  {
    if i == k then 0 else Announced(run, events, i, k - 1) + (if Announces(run[k - 1], events[k - 1]) then 1 else 0)
  }

  /** The change is raised or the parser reset in the step before i, and neither ready nor a
      reset comes until k. */
  ghost predicate Pending(run: seq<State>, events: seq<Event>, i: nat, k: nat) {
    && 0 < i <= k < |run| && |run| == |events| + 1
    && (!run[i - 1].changed || ResetsParser(run[i - 1], events[i - 1]))
    && (forall m :: i <= m <= k ==> run[m].changed)
    && (forall m :: i <= m < k ==> !ResetsParser(run[m], events[m]))
  }

  lemma PushedAt(run: seq<State>, events: seq<Event>, fast: bool, m: nat)
    requires Execution(run, events, fast) && m < |events|
    ensures var s, e, s' := run[m], events[m], run[m + 1];
            && (s.changed && !ResetsParser(s, e) ==> s'.pushed == s.pushed + (if Announces(s, e) then 1 else 0))
            && (s'.changed && (!s.changed || ResetsParser(s, e)) ==> s'.pushed == 0)
  {
    PushedStep(run[m], events[m]);
    assert StepAt(run, events, m);
  }

  lemma {:induction false} PushedCounts(run: seq<State>, events: seq<Event>, fast: bool, i: nat, k: nat)
    requires Execution(run, events, fast) && Pending(run, events, i, k)
    ensures run[k].pushed == Announced(run, events, i, k)
  {
    PushedAt(run, events, fast, k - 1);
    assert run[k].changed;
    if i < k {
      PushedCounts(run, events, fast, i, k - 1);
      assert run[k - 1].changed;
    }
  }

  ghost predicate ValidRun(run: seq<State>, events: seq<Event>) {
    |run| == |events| + 1 && forall i :: 0 <= i < |events| ==> ValidAt(run, events, i)
  }

  ghost predicate ValidAt(run: seq<State>, events: seq<Event>, i: nat) { i < |events| < |run| && ValidOk(run[i], events[i]) }

  lemma WakeOnce(p: Parser, changed: bool, pushed: nat)
    requires OnceOk(p, changed, pushed)
    ensures OnceOk(Wake(p), changed, pushed) && OnceOk(p, false, pushed)
  {
  }

  lemma OnceStep(s: State, e: Event)
    requires Base(s) && OnceOk(s.p, s.changed, s.pushed) && ValidOk(s, e)
    ensures var s' := Next(s, e); OnceOk(s'.p, s'.changed, s'.pushed)
  {
    match e
    case ParserMoves(c) => ParserOnce(s, c);
    case HalMoves => WakeOnce(s.p, s.changed, s.pushed); HalTellsNothing(s);
    case _ => WakeOnce(s.p, s.changed, s.pushed);
  }

  lemma ParserOnce(s: State, c: Choice)
    requires LocalOk(s.p, s.fast, s.changed) && OnceOk(s.p, s.changed, s.pushed) && ValidChoice(s.p, s.changed, c)
    ensures var s' := ParserStep(s, c); OnceOk(s'.p, s'.changed, s'.pushed)
  {
    ControlOnce(s.p, ViewOf(s, c), c, s.pushed);
  }

  lemma OnceOfRun(run: seq<State>, events: seq<Event>, fast: bool, at: nat)
    requires Execution(run, events, fast) && ValidRun(run, events) && 0 < at < |run|
    requires OnceOk(run[at - 1].p, run[at - 1].changed, run[at - 1].pushed)
    ensures OnceOk(run[at].p, run[at].changed, run[at].pushed)
  {
    RunBase(run, events, fast, at - 1);
    assert ValidAt(run, events, at - 1);
    OnceStep(run[at - 1], events[at - 1]);
    assert StepAt(run, events, at - 1);
  }

  lemma RunOnce(run: seq<State>, events: seq<Event>, fast: bool, at: nat)
    requires Execution(run, events, fast) && ValidRun(run, events) && at < |run|
    ensures OnceOk(run[at].p, run[at].changed, run[at].pushed)
  {
    OnceAtStart(run, events, fast);
    forall i | 0 < i < |run| && OnceOk(run[i - 1].p, run[i - 1].changed, run[i - 1].pushed)
      ensures OnceOk(run[i].p, run[i].changed, run[i].pushed)
    {
      OnceOfRun(run, events, fast, i);
    }
    Induct(run, (s: State) => OnceOk(s.p, s.changed, s.pushed), 0, at);
  }

  lemma OnceAtStart(run: seq<State>, events: seq<Event>, fast: bool)
    requires Execution(run, events, fast)
    ensures OnceOk(run[0].p, run[0].changed, run[0].pushed)
  {
    StartLocal(run[0].p, fast, run[0].changed, run[0].pushed);
  }

  /** While a change is pending it is announced at most once, and exactly once by the time the
      parser waits for it, if every parse that ends with the mark up leaves the task valid. */
  lemma AnnouncedOnce(run: seq<State>, events: seq<Event>, fast: bool, i: nat, k: nat)
    requires Execution(run, events, fast) && ValidRun(run, events) && Pending(run, events, i, k)
    ensures Announced(run, events, i, k) <= 1
    ensures run[k].p.pc.AtWait? ==> Announced(run, events, i, k) == 1
  {
    PushedCounts(run, events, fast, i, k);
    RunOnce(run, events, fast, k);
    RunBase(run, events, fast, k);
  }

  /** Why it must: a task that still has the flag can be handed over from step 3, as an end of
      stream and a second announcement, exactly when it is not ready any more or invalid. */
  lemma RepeatsIff(s: State)
    requires Base(s) && s.p.pc.AtPrepare? && s.p.info.infoChange
    ensures (exists c :: Announces(ParserStep(s, c), ParserMoves(c))) <==>
              !s.p.currRdy || (!s.p.info.valid && s.p.info.eos)
  {
    var c := Choice(true, false, true, false, false, 0);
    RepeatsWith(s, c);
    forall c' ensures Announces(ParserStep(s, c'), ParserMoves(c')) ==>
                           !s.p.currRdy || (!s.p.info.valid && s.p.info.eos) {
      RepeatsWith(s, c');
    }
  }

  lemma RepeatsWith(s: State, c: Choice)
    requires s.p.pc.AtPrepare? && s.p.info.infoChange
    ensures Announces(ParserStep(s, c), ParserMoves(c)) <==>
              if s.p.currRdy then !s.p.info.valid && s.p.info.eos else c.go && !c.valid && c.eos
  {
  }

  /** At every point past step 1 the parser has a task in hand, and it is idle. */
  lemma HandleInHand(run: seq<State>, events: seq<Event>, fast: bool, at: nat)
    requires Execution(run, events, fast) && at < |run|
    ensures HasHandle(run[at].p.pc) ==> run[at].p.hnd.Some? && Has(run[at].g.status, run[at].p.hnd.value, Idle)
  {
    RunBase(run, events, fast, at);
  }
}
