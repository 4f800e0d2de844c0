/** The decoder's two threads (mpp/codec/mpp_dec.cpp) as a state machine: the parser
    thread with try_proc_dec_task and reset_dec_task, and the hardware thread. A step is
    one locked region of a shared object together with the thread's own code around it;
    steps of the two threads and of the user interleave in any order. Shared are the
    task group, the packet slots with their buffer group, the information-change mark of
    the frame slots, the reset flag, and the lock and condition variable the parser
    sleeps on. What the codec's parser finds is arbitrary. */
module Decoder {
  import opened Wrappers
  import opened StatusLists
  import opened BufferPool
  import opened Slots
  import opened HalTask

  /** Why a task is handed to the hardware thread: end of stream found while splitting or
      while parsing, an information change, or a frame to decode. */
  datatype Kind = EosPrepare | EosParse | InfoTask | RealTask

  /** Where the parser thread is. */
  datatype Pc =
    | AtTop | AtGate | AtBlocked | AtWoken
    | AtResetGet | AtResetIdle(t: nat) | AtResetCheck | AtReset | AtResetClear
    | AtHandle | AtPrepare
    | AtPktSlot | AtPktBuf | AtBufGet | AtBufMake(size: nat) | AtBufSet(b: Id) | AtBufPut(b: Id)
    | AtCopy | AtCopied
    | AtPrev | AtPrevIdle(t: nat)
    | AtParse | AtChange | AtInfoSet | AtWait
    | AtFrame | AtSetIdle | AtDrop
    | AtPublish(kind: Kind)
    | AtAbort

  /** The wait bits the parser goes to sleep on: no task, the previous task not done, an
      information change, no frame buffer. */
  datatype Wait = Wait(hnd: bool, prev: bool, info: bool, pic: bool)

  const NO_WAIT := Wait(false, false, false, false)

  /** DecTask. */
  datatype Parser = Parser(
    pc: Pc, hnd: Option<nat>,
    currRdy: bool, copyRdy: bool, prevRdy: bool, genRdy: bool, parsedRdy: bool,
    wait: Wait, info: Info)

  /** dec_task_init. */
  const NO_TASK := Parser(AtTop, None, false, false, true, false, false, NO_WAIT, NO_INFO)

  /** Where the hardware thread is, and with which task. */
  datatype HalPc =
    | HTop | HInfo(t: nat) | HIdle(t: nat) | HWait(t: nat) | HClear(t: nat) | HDone(t: nat)
    | HFast | HFastIdle(t: nat)
    | HSignal(locked: bool) | HFrame | HAbort

  /** The hardware thread has the parser's lock from the end of a frame to the signal. */
  predicate Holds(h: HalPc) { h.HFast? || h.HFastIdle? || h == HSignal(true) }

  /** `hw`: tasks whose hardware job was started and not yet waited for; `pushed`: tasks with
      the information-change flag handed over since the change was raised or the parser was
      reset. */
  datatype State = State(
    fast: bool, g: Group<Status>, infos: seq<Info>, pkt: Table,
    changed: bool, resetFlag: bool,
    p: Parser, h: HalPc, hinfo: Info,
    hw: set<nat>, pushed: nat)

  /** What the code outside the model decides: whether a packet or a frame buffer is there,
      what splitting or parsing finds, the packet size. */
  datatype Choice = Choice(go: bool, valid: bool, eos: bool, output: bool, raise: bool, size: nat)

  function TaskCount(fast: bool): nat { if fast then 3 else 2 }

  /** The packet buffer group at the start: internal, limited to three buffers of any size,
      none of them in use. */
  ghost predicate PacketGroup(p: Pool) {
    && BufferPool.Inv(p) && p.internal && !p.misc && p.limitCount == 3 && p.limitSize == 0
    && forall b :: Refs(p, b) == 0
  }

  /** A new internal group, once limited, is one. */
  lemma NewGroup(p: Pool)
    requires p == Empty(p.internal, p.misc) && p.internal && !p.misc
    ensures PacketGroup(LimitConfig(p, 0, 3))
  {
    EmptyInv(p.internal, p.misc);
  }

  function Start(fast: bool, group: Pool): State {
    var n := TaskCount(fast);
    State(fast, Fresh(n), seq(n, _ => NO_INFO), Table(seq(n, _ => UNUSED), [], group),
          false, false, NO_TASK, HTop, NO_INFO, {}, 0)
  }

  /** A task the hardware has a job for. */
  predicate Real(info: Info) { !info.infoChange && !(info.eos && !info.valid) }

  // ---- the parser thread: its own code ----------------------------------------------------

  /** What a step reads of the shared state: the mode, the two marks, whether the hardware
      thread has the parser's lock, and the outcome of the lookup or allocation it makes (see
      Look). */
  datatype View = View(fast: bool, resetFlag: bool, changed: bool, held: bool, found: Option<nat>)

  /** check_task_wait: only the wait for the previous task looks again. */
  predicate MustWait(w: Wait, done: Option<nat>) { w.hnd || (w.prev && done.None?) || w.info || w.pic }

  /** The top of the loop, the wait under the parser's lock, and reset_dec_task: where they
      lead, and the bits they change. */
  function ResetPc(p: Parser, v: View): Pc {
    match p.pc
    case AtTop =>
      if !v.resetFlag then AtGate else if v.fast then AtResetCheck else if p.prevRdy then AtReset else AtResetGet
    case AtGate => if v.held then AtGate else if !v.resetFlag && MustWait(p.wait, v.found) then AtBlocked else AtHandle
    case AtWoken => if v.held then AtWoken else AtHandle
    case AtResetGet => if v.found.Some? then AtResetIdle(v.found.value) else AtTop
    case AtResetIdle(_) => AtReset
    case AtResetCheck => if v.found.None? then AtReset else AtTop
    case AtReset => AtResetClear
    case _ => p.pc
  }

  function ResetControl(p: Parser, v: View): Parser {
    if p.pc.AtResetClear? then NO_TASK.(pc := AtGate)
    else
      p.(pc := ResetPc(p, v), prevRdy := p.prevRdy || p.pc.AtResetIdle?,
         wait := p.wait.(prev := (p.wait.prev && !p.pc.AtResetIdle?) || (p.pc.AtResetGet? && v.found.None?)))
  }

  /** Steps 1 to 3: a task handle, a packet, the split. */
  function Prepared(p: Parser, c: Choice): Info {
    if p.pc.AtPrepare? && !p.currRdy && c.go then p.info.(valid := c.valid, eos := c.eos) else p.info
  }

  function PreparePc(p: Parser, v: View, c: Choice): Pc {
    match p.pc
    case AtHandle => if p.hnd.Some? || v.found.Some? then AtPrepare else AtTop
    case AtPrepare =>
      if !p.currRdy && !c.go then AtTop
      else if Prepared(p, c).valid then AtPktSlot
      else if Prepared(p, c).eos then AtPublish(EosPrepare)
      else AtTop
    case _ => p.pc
  }

  function PrepareControl(p: Parser, v: View, c: Choice): Parser {
    var hnd := if p.pc.AtHandle? && p.hnd.None? then v.found else p.hnd;
    p.(pc := PreparePc(p, v, c), hnd := hnd, info := Prepared(p, c),
       currRdy := if p.pc.AtPrepare? && (p.currRdy || c.go) then Prepared(p, c).valid else p.currRdy,
       wait := p.wait.(hnd := if p.pc.AtHandle? then hnd.None? else p.wait.hnd))
  }

  /** Steps 4 to 6: a packet slot, its buffer, the copy. */
  function PacketPc(p: Parser, v: View, c: Choice): Pc {
    match p.pc
    case AtPktSlot => if p.info.input.None? && v.found.None? then AtAbort else AtPktBuf
    case AtPktBuf => if v.found.None? then AtBufGet else if p.copyRdy then AtPrev else AtCopy
    case AtBufGet => if v.found.Some? then AtBufSet(v.found.value) else AtBufMake(c.size)
    case AtBufMake(_) => if v.found.Some? then AtBufSet(v.found.value) else AtTop
    case AtBufSet(b) => AtBufPut(b)
    case AtBufPut(_) => if p.copyRdy then AtPrev else AtCopy
    case AtCopy => AtCopied
    case AtCopied => AtPrev
    case _ => p.pc
  }

  function PacketControl(p: Parser, v: View, c: Choice): Parser {
    p.(pc := PacketPc(p, v, c), copyRdy := p.copyRdy || p.pc.AtCopied?,
       info := p.info.(input := if p.pc.AtPktSlot? && p.info.input.None? then v.found else p.info.input))
  }

  /** Steps 7 and 8: the previous task, the parser, whose parse call is made once per packet. */
  predicate Parses(p: Parser, c: Choice) { p.pc.AtParse? && c.go && !p.parsedRdy }

  function ParsePc(p: Parser, v: View, c: Choice): Pc {
    match p.pc
    case AtPrev =>
      if v.fast || p.prevRdy then AtParse else if v.found.Some? then AtPrevIdle(v.found.value) else AtTop
    case AtPrevIdle(_) => AtParse
    case AtParse => if c.go then AtChange else AtTop
    case _ => p.pc
  }

  function ParseControl(p: Parser, v: View, c: Choice): Parser {
    var waits := p.pc.AtPrev? && !v.fast && !p.prevRdy && v.found.None?;
    p.(pc := ParsePc(p, v, c), prevRdy := p.prevRdy || p.pc.AtPrevIdle?, parsedRdy := p.parsedRdy || Parses(p, c),
       wait := p.wait.(prev := (p.wait.prev && !p.pc.AtPrevIdle?) || waits,
                       pic := if p.pc.AtParse? then !c.go else p.wait.pic),
       info := if Parses(p, c) then p.info.(valid := c.valid, eos := c.eos, output := c.output) else p.info)
  }

  /** Steps 9 to 12: the information change, nothing to decode, the frame buffer and the
      hardware start. */
  function SubmitPc(p: Parser, v: View, c: Choice): Pc {
    match p.pc
    case AtChange => if v.changed && !p.genRdy then AtInfoSet else AtWait
    case AtInfoSet => AtPublish(InfoTask)
    case AtWait =>
      if v.changed then AtTop else if p.info.output then AtFrame else if p.info.eos then AtPublish(EosParse) else AtSetIdle
    case AtSetIdle => AtDrop
    case AtDrop => AtTop
    case AtFrame => if c.go then AtPublish(RealTask) else AtTop
    case AtPublish(kind) => if kind == EosParse then AtDrop else AtTop
    case _ => p.pc
  }

  /** The task is done with: its bits are cleared and its information initialised. */
  predicate Finishes(pc: Pc) { pc.AtDrop? || pc == AtPublish(RealTask) }

  function SubmitInfo(p: Parser, v: View): Info {
    if Finishes(p.pc) then NO_INFO
    else p.info.(infoChange := (p.info.infoChange && (!p.pc.AtWait? || v.changed)) || (p.pc.AtChange? && v.changed && !p.genRdy))
  }

  function SubmitControl(p: Parser, v: View, c: Choice): Parser {
    var done := Finishes(p.pc);
    p.(pc := SubmitPc(p, v, c), hnd := if p.pc.AtSetIdle? || p.pc.AtPublish? then None else p.hnd,
       currRdy := p.currRdy && !done, copyRdy := p.copyRdy && !done, parsedRdy := p.parsedRdy && !done,
       prevRdy := p.prevRdy && p.pc != AtPublish(RealTask),
       genRdy := (p.genRdy && (!p.pc.AtWait? || v.changed)) || p.pc == AtPublish(InfoTask),
       wait := p.wait.(info := if p.pc.AtWait? then v.changed else p.wait.info,
                       pic := if p.pc.AtFrame? then !c.go else p.wait.pic),
       info := SubmitInfo(p, v))
  }

  datatype Part = Resetting | Preparing | Filling | Parsing | Submitting

  function PartOf(pc: Pc): Part {
    match pc
    case AtTop | AtGate | AtBlocked | AtWoken | AtResetGet | AtResetIdle(_) | AtResetCheck | AtReset | AtResetClear | AtAbort => Resetting
    case AtHandle | AtPrepare => Preparing
    case AtPktSlot | AtPktBuf | AtBufGet | AtBufMake(_) | AtBufSet(_) | AtBufPut(_) | AtCopy | AtCopied => Filling
    case AtPrev | AtPrevIdle(_) | AtParse => Parsing
    case AtChange | AtInfoSet | AtWait | AtFrame | AtSetIdle | AtDrop | AtPublish(_) => Submitting
  }

  function Control(p: Parser, v: View, c: Choice): Parser {
    match PartOf(p.pc)
    case Resetting => ResetControl(p, v)
    case Preparing => PrepareControl(p, v, c)
    case Filling => PacketControl(p, v, c)
    case Parsing => ParseControl(p, v, c)
    case Submitting => SubmitControl(p, v, c)
  }

  // ---- the parser thread: the locked regions ------------------------------------------------

  function At(input: Option<nat>): nat { if input.Some? then input.value else 0 }

  function BufferAt(t: Table, input: Option<nat>): Option<Id> {
    if input.Some? && input.value < |t.slots| then t.slots[input.value].buffer else None
  }

  /** What the step looks up: a task by status, a free slot, the slot's buffer, a buffer. */
  function Look(s: State, c: Choice): Option<nat> {
    match s.p.pc
    case AtResetGet | AtPrev | AtGate => First(s.g, ProcDone)
    case AtResetCheck => First(s.g, Processing)
    case AtHandle => First(s.g, Idle)
    case AtPktSlot => if s.p.info.input.None? then Acquire(s.pkt).0 else None
    case AtPktBuf => BufferAt(s.pkt, s.p.info.input)
    case AtBufGet => GetUnused(s.pkt.pool, c.size).0
    case AtBufMake(size) => Create(s.pkt.pool, size, true).0
    case _ => None
  }

  /** What it does to the task group: set_status. */
  function GroupAfter(g: Group<Status>, p: Parser): Group<Status> {
    match p.pc
    case AtResetIdle(t) => Move(g, t, Idle)
    case AtPrevIdle(t) => Move(g, t, Idle)
    case AtSetIdle => if p.hnd.Some? then Move(g, p.hnd.value, Idle) else g
    case AtPublish(_) => if p.hnd.Some? then Move(g, p.hnd.value, Processing) else g
    case _ => g
  }

  /** set_info comes right before a task is handed over. */
  function InfosAfter(infos: seq<Info>, p: Parser, p': Parser): seq<Info> {
    if p'.pc.AtPublish? && !p.pc.AtPublish? && p.hnd.Some? && p.hnd.value < |infos|
    then infos[p.hnd.value := p'.info] else infos
  }

  /** What it does to the packet slots and their buffer group. */
  function PktAfter(t: Table, p: Parser, c: Choice): Table {
    match p.pc
    case AtResetClear => if p.copyRdy then ClrFlag(t, At(p.info.input), HalInput) else t
    case AtDrop => if p.copyRdy then ClrFlag(t, At(p.info.input), HalInput) else t
    case AtPktSlot => if p.info.input.None? then Acquire(t).1 else t
    case AtBufGet => t.(pool := GetUnused(t.pool, c.size).1)
    case AtBufMake(size) => t.(pool := Create(t.pool, size, true).1)
    case AtBufSet(b) => SetBuffer(t, At(p.info.input), b)
    case AtBufPut(b) => t.(pool := DecRef(t.pool, b))
    case AtCopy => SetFlag(t, At(p.info.input), CodecReady)
    case AtCopied => SetFlag(t, At(p.info.input), HalInput)
    case _ => t
  }

  function PushedAfter(pushed: nat, p: Parser, changed: bool, c: Choice): nat {
    if p.pc.AtResetClear? || (Parses(p, c) && c.raise && !changed) then 0
    else if p.pc.AtPublish? && p.info.infoChange then pushed + 1
    else pushed
  }

  predicate Starts(p: Parser, c: Choice) { p.pc.AtFrame? && c.go && p.hnd.Some? }

  /** The step that takes the parser's own state to p'. */
  function Effect(s: State, p': Parser, c: Choice): State {
    var p := s.p;
    s.(p := p', g := GroupAfter(s.g, p), infos := InfosAfter(s.infos, p, p'), pkt := PktAfter(s.pkt, p, c),
       changed := s.changed || (Parses(p, c) && c.raise),
       resetFlag := s.resetFlag && !p.pc.AtReset?,
       hw := if Starts(p, c) then s.hw + {p.hnd.value} else s.hw,
       pushed := PushedAfter(s.pushed, p, s.changed, c))
  }

  function ViewOf(s: State, c: Choice): View { View(s.fast, s.resetFlag, s.changed, Holds(s.h), Look(s, c)) }

  function ParserStep(s: State, c: Choice): State { Effect(s, Control(s.p, ViewOf(s, c), c), c) }

  // ---- the hardware thread ----------------------------------------------------------------

  /** A signal reaches the parser only while it sleeps. */
  function Wake(p: Parser): Parser { if p.pc.AtBlocked? then p.(pc := AtWoken) else p }

  /** An information change shows the output slot's frame, and after a frame's job its output slot
      is cleared: without one the slot table aborts. */
  predicate Fatal(info: Info) { !info.output && (info.infoChange || Real(info)) }

  function HalStep(s: State): State {
    match s.h
    case HTop =>
      var r := First(s.g, Processing);
      s.(h := if r.Some? then HInfo(r.value) else HTop)
    case HInfo(t) =>
      var info := if t < |s.infos| then s.infos[t] else s.hinfo;
      s.(hinfo := info,
         h := if info.infoChange && !info.output then HAbort else if Real(info) then HWait(t) else HIdle(t))
    case HIdle(t) => s.(g := Move(s.g, t, Idle), h := HSignal(false))
    case HWait(t) => s.(hw := s.hw - {t}, h := HClear(t))
    case HClear(t) => s.(pkt := ClrFlag(s.pkt, At(s.hinfo.input), HalInput), h := HDone(t))
    case HDone(t) => s.(g := Move(s.g, t, ProcDone), h := if s.fast then HFast else HSignal(true))
    case HFast =>
      var r := First(s.g, ProcDone);
      s.(h := if r.Some? then HFastIdle(r.value) else HSignal(true))
    case HFastIdle(t) => s.(g := Move(s.g, t, Idle), h := HSignal(true))
    case HSignal(locked) => s.(p := Wake(s.p), h := if locked then HFrame else HTop)
    case HFrame => s.(h := if s.hinfo.output then HTop else HAbort)
    case HAbort => s
  }

  // ---- runs ---------------------------------------------------------------------------------

  /** The user resets, reports that new buffers are ready, or signals the parser, as the end of
      a reset call, ready and a buffer coming back do. */
  datatype Event = ParserMoves(c: Choice) | HalMoves | UserResets | UserReady | UserSignals

  function Next(s: State, e: Event): State {
    match e
    case ParserMoves(c) => ParserStep(s, c)
    case HalMoves => HalStep(s)
    case UserResets => s.(resetFlag := true)
    case UserReady => s.(changed := false)
    case UserSignals => s.(p := Wake(s.p))
  }

  ghost predicate StepAt(run: seq<State>, events: seq<Event>, i: nat) {
    i < |events| < |run| && run[i + 1] == Next(run[i], events[i])
  }

  ghost predicate Steps(run: seq<State>, events: seq<Event>) {
    |run| == |events| + 1 && forall i :: 0 <= i < |events| ==> StepAt(run, events, i)
  }

  ghost predicate Execution(run: seq<State>, events: seq<Event>, fast: bool) {
    Steps(run, events) && run[0] == Start(fast, run[0].pkt.pool) && PacketGroup(run[0].pkt.pool)
  }

  // ---- what may be asked of the codec's parse call -----------------------------------------------

  predicate ParsesIn(s: State, e: Event) { e.ParserMoves? && Parses(s.p, e.c) }

  /** At the end of the stream a task with an output slot is valid. */
  predicate EosOk(s: State, e: Event) { ParsesIn(s, e) && e.c.eos && e.c.output ==> e.c.valid }

  /** A call that ends with the change mark up, or with a valid end of stream, has an output slot. */
  predicate ShownOk(s: State, e: Event) {
    ParsesIn(s, e) && (s.changed || e.c.raise || (e.c.eos && e.c.valid)) ==> e.c.output
  }

  /** A call that ends with the change mark up leaves the task valid. */
  predicate ValidOk(s: State, e: Event) { ParsesIn(s, e) && (s.changed || e.c.raise) ==> e.c.valid }
}
