# Verified model of the Media Process Platform core

A Dafny model of the parts of Rockchip's Media Process Platform whose correctness only
shows over whole runs: the decoder's two threads with the task group, slots and buffer
pool they share, the queues that feed them, the bit streams they read and write, and
three pieces of fixed-point arithmetic. `dafny verify dfyconfig.toml` checks everything.

Intrusive lists are sequences, null pointers and negative indices are `Option`, buffers
and tasks are numbers. Operations that change state in place are classes; each method is
proved equal to a function on the value of the object, and the laws are lemmas about those
functions. The concurrent parts are state machines: one locked region, with the thread's
own code around it, is one step, and steps interleave in any order.

## What is proved

**The decoder (`Decoder*.dfy`).** `Decoder` is the parser thread (`try_proc_dec_task`,
`reset_dec_task` and the loop with its wait bits and condition variable), the hardware
thread and the user, over one shared state; `fast` chooses two or three tasks. The codec's
parse call is abstract and may find anything. `DecoderGate`, `DecoderTasks`, `DecoderSlots`
and `DecoderPackets` hold the inductive invariant in layers, `DecoderInvariant` puts them
together, `DecoderNormal` follows normal mode to its dead ends; `DecoderSafety` has the
theorems over every interleaving. The hardware thread is bound to abort from the moment it is
handed a task without an output slot that announces a change or that it takes for a frame;
until then, with what is asked of the parse calls of the run:

- nothing: a task in hand is idle and never null, and no hardware job starts while an
  information change is pending;
- in normal mode nothing: the search for a packet slot always succeeds and the group of three
  buffers never refuses one; at most one hardware job runs; and until the parser is stuck, a
  slot in use has one owner, and a frame is parsed and started only when no job runs;
- in fast mode, that an end of stream with an output slot is valid: the search succeeds, no
  buffer is refused, a slot in use has one owner;
- besides, that a call which ends with the change mark up, or with a valid end of stream, has
  an output slot: no abort;
- that a call which ends with the change mark up leaves the task valid: the change is
  announced exactly once.

`DecoderWaits` is about waiting and aborting: at which tasks the hardware thread aborts, when
it makes a lookup of the parser succeed, when it wakes a sleeping parser and when the wakeup is
lost. `DecoderRuns` has runs from the start that show each of the conditions is needed: a parser
stuck for good, packet slots lost until the process aborts, two ways for the hardware thread to
abort, a change announced twice, two lost wakeups. Packets are not empty and the operating
system provides the memory asked for.

**Slots, buffers, references.** `BufferPool` is one buffer group and its books; `Slots` the
slot table; `SlotSafety` says, over runs of the whole table, that a slot handed out is held by
nobody and not waiting for display, and that display order is the order of enqueueing; `FrameRefs` says that every reference on a frame buffer
has exactly one owner: the parser that just got it, the slot, the slot's frame, the display
still to come, or a frame given to the user.

**Queues and identities.** `HalTask` and `PortQueue` are the two users of `StatusLists`;
`PacketQueue` is the semaphore queue; `GroupIds` the ids of buffer groups; `InfoChange`
the detection of a new picture geometry.

**Bit streams and arithmetic.** `BitReader` refines a reader of a plain list of bits
(`Rbsp`: sections 7.2, 7.3.1, 7.3.2.11, 7.4.1, 9.1 and 9.1.1 of ITU-T H.264); `BitPut` is
the 64-bit packer; `ScaledDivision` is `axb_div_c`; `LinReg` the weighted regression.

### Where the code falls short of what one would expect

Each is kept as the code has it, with the exact condition proved.

- A frame with an output slot that its parse leaves invalid at the end of the stream is not
  waited for and keeps its packet slot (`DecoderWaits.FrameAwaitedIff`). In normal mode the
  parser then waits for ever, and a reset with it (`DecoderNormal.StuckIff`, `NothingDecoded`,
  `DecoderRuns.StuckRun`); in fast mode nothing gives the slot back, and once all three are gone
  the next packet aborts the process (`DecoderRuns.FullRun`). The H.264 parser returns such a
  task (mpp/codec/dec/h264/h264d_api.c:591-605).
- An end of stream that is valid but has no output slot is taken for a frame, and the hardware
  thread aborts when it clears the output slot (`DecoderWaits.AbortsIff`, `EosWithoutOutput`,
  `DecoderRuns.EosAbortRun`). The H.265 parser makes one of a last packet without a picture
  (mpp/codec/dec/h265/h265d_parser.c:1754 and 1807-1811), and the VP9 parser of a last frame that
  repeats another (mpp/codec/dec/vp9/vp9d_api.c:179-184 and vp9d_parser.c:1566-1585).
- A reset leaves a pending information change pending; a packet without a picture after it is
  announced without an output slot, and the hardware thread aborts
  (`DecoderWaits.AbortsIff`, `DecoderRuns.AbortRun`).
- A picture that raises a change and is left invalid is dropped after it was announced, and an
  end of stream found next is taken for a second announcement
  (`DecoderSafety.RepeatsIff`, `DecoderRuns.TwiceRun`).
- The parser goes to sleep on a bit set earlier, without looking again: no task, an information
  change, no frame buffer. If the last signal comes in between, it is lost: the parser sleeps
  beside an idle task (`DecoderWaits.LostIff`, `DecoderRuns.LostRun`), or with the change made
  ready (`DecoderRuns.LostReadyRun`). The wait for the previous task looks again under the lock
  and is never lost (`PrevWaitEnds`), and neither is a reset (`ResetGetsThrough`).
- A frame description copied onto a slot whose frame already has a buffer leaks that
  buffer's reference, and so does a slot released before its display reference is passed
  on: `FrameRefs.StepConserves` is an if-and-only-if, `DescribeLeak` and `ReleaseLeak` are
  runs.
- The 8-bit and 5-bit holder counters wrap; `SlotSafety.StepSafe` says safety survives a
  step exactly when the counter has room, `ActSafe` the same of a whole table, and
  `WrapFreesHeldSlot` is a run to a held slot that is free.
- A slot enqueued while it is queued moves to the end (`SlotSafety.AskOrder`), and so does a
  task enqueued that nobody holds (`PortQueue.EnqueueOrder`).
- The next group id stays free only while fewer than 2^32 - 1 groups exist
  (`GroupIds.Service.GetGroup`).
- A frame geometry preset by the user is compared with aligned strides later, so the very
  same description raises a change exactly when a given stride is not aligned
  (`InfoChange.PresetQuietIff`).
- `axb_div_c` overflows in its fast path exactly when the product is -2^31 and the divisor -1
  (`ScaledDivision.AxbDivC`, `OverflowExample`); the model wraps there.
- `axb_div_c` may saturate although the quotient fits; it needs a quotient above 2^30
  (`ScaledDivision.SaturationExample`).
- The regression's intercept is a `double`, so its "rounding" term is never truncated away:
  the result is off by half the weight sum divided by the weight sum
  (`LinReg.FitIntercept`).
- A put that fills the packer's buffer exactly writes the word after the last one
  (`BitPut.Packer.PutBits`).
- A failed read or skip leaves the reader at its last byte, not where it was
  (`BitReader.AfterFailure`); more data is reported while raw bytes remain, even zeros
  (`BitReader.Reader.HasMoreRbspData`).

## Model

| member | source | states |
|---|---|---|
| `DecoderInvariant.RunGood` | mpp/codec/mpp_dec.cpp:75-711 | in every interleaving of parser, hardware thread and user, in both modes, through resets, end-of-stream and information-change tasks, the whole invariant holds until the hardware thread is bound to abort, if an end of stream with an output slot is valid |
| `DecoderInvariant.RunBase` | mpp/codec/mpp_dec.cpp:75-711 | the invariant of bits, handles and gate holds in every interleaving, whatever the parse call finds |
| `DecoderInvariant.RunFine` | mpp/codec/mpp_dec.cpp:631-697 | if besides every parse that ends with the change mark up, or with a valid end of stream, has an output slot, the whole invariant holds throughout and the hardware thread never aborts |
| `DecoderInvariant.StepGood` | mpp/codec/mpp_dec.cpp:551-589 | whatever the parse call finds, every step of anybody keeps the whole invariant, except two hand-overs: a task without an output slot that is a change or taken for a frame, and a frame that is an invalid end of stream |
| `DecoderNormal.RunNormal` | mpp/codec/mpp_dec.cpp:75-711 | in normal mode, whatever the parse call finds: the whole invariant holds until the hardware thread is bound to abort or the parser is stuck, and then the packet slots but one are in order and one job at most runs for good |
| `DecoderNormal.SpillLocks` | mpp/codec/mpp_dec.cpp:525-542 | in normal mode handing over a frame that is an invalid end of stream leads from the whole invariant to that stuck state |
| `DecoderSafety.ResourcesSuffice` | mpp/codec/mpp_dec.cpp:341-386 | until the hardware thread is bound to abort, the packet-slot search finds a free slot, the parser never aborts, and a new packet buffer is never refused by the group limit of 3; in normal mode whatever the parse call finds, in fast mode if an end of stream with an output slot is valid |
| `DecoderSafety.SlotsHaveOwners` | mpp/codec/mpp_dec.cpp:671-672 | a packet slot in use is the parser's or is carried by a task in processing: in normal mode until the parser is stuck, and in both modes if an end of stream with an output slot is valid |
| `DecoderSafety.OneJob` | mpp/codec/mpp_dec.cpp:388-404 | normal mode, whatever the parse call finds: at most one hardware job runs; and until the parser is stuck, prev_task_rdy is up exactly when no frame is in processing or done, at most one is, and at the parse and at the hardware start no job runs |
| `DecoderSafety.NoStartWhileChanged` | mpp/codec/mpp_dec.cpp:438-461 | no step adds a hardware job while an information change is pending, whatever the parse call finds |
| `DecoderSafety.AnnouncedOnce` | mpp/codec/mpp_dec.cpp:438-456 | from the raise or the reset on, until ready or the next reset, at most one task with the information-change flag is handed over, and exactly one once the parser waits, if parses that end with the mark up are valid |
| `DecoderSafety.PushedCounts` | mpp/codec/mpp_dec.cpp:439-450 | the history variable of the gate is the number of announcements counted over the run |
| `DecoderSafety.RepeatsIff` | mpp/codec/mpp_dec.cpp:327-335 | a task that still has the flag can be handed over again from step 3 exactly when it is not ready any more, or invalid at the end of the stream |
| `DecoderSafety.HandleInHand` | mpp/codec/mpp_dec.cpp:457-461 | at every point past step 1 the parser has a task in hand and that task is idle, so the handle asserted there is never null |
| `DecoderWaits.AbortsIff` | mpp/codec/mpp_dec.cpp:624-697 | the hardware thread aborts at a task exactly when it has no output slot and announces a change or is taken for a frame |
| `DecoderWaits.DoomedAborts` | mpp/codec/mpp_dec.cpp:624-697 | once such a task is handed over, the hardware thread reaches it and aborts |
| `DecoderWaits.EosWithoutOutput` | mpp/codec/mpp_dec.cpp:463-479 | an end of stream without output becomes a task with no job, which the hardware thread takes for a frame, and aborts at, exactly when the parse left it valid |
| `DecoderWaits.FrameAwaitedIff` | mpp/codec/mpp_dec.cpp:648-672 | a frame whose job was started is waited for, and its packet slot given back, exactly when it is not an invalid end of stream |
| `DecoderNormal.StuckIff` | mpp/codec/mpp_dec.cpp:525-542 | in normal mode handing over a frame leaves the parser waiting for nothing exactly when the frame is an invalid end of stream |
| `DecoderNormal.NothingDecoded` | mpp/codec/mpp_dec.cpp:112-134 | from then on no step of anybody parses, submits or resets |
| `DecoderWaits.LookupsSucceed` | mpp/codec/mpp_dec.cpp:112-142 | from every state of every run the hardware thread alone makes a lookup for a task, by the parser or by a polling reset, succeed after finitely many steps |
| `DecoderWaits.RestFeeds` | mpp/codec/mpp_dec.cpp:388-404 | when the hardware thread has nothing to do, every such lookup would succeed |
| `DecoderWaits.HalProgress` | mpp/codec/mpp_dec.cpp:598-711 | every step of the hardware thread lowers a measure of the work left, until it has nothing to do or aborts |
| `DecoderWaits.WokenIff` | mpp/codec/mpp_dec.cpp:577-578 | a sleeping parser is woken by the hardware thread exactly when that thread has a signal left to give |
| `DecoderWaits.PrevWaitEnds` | mpp/codec/mpp_dec.cpp:95-110 | a parser that sleeps only for the previous task is always woken, because it looked again under the lock |
| `DecoderWaits.LostIff` | mpp/codec/mpp_dec.cpp:95-110 | a parser at the gate with the bit for a missing task, an information change or a frame buffer up goes to sleep, and is not woken by the hardware thread exactly when that thread gave its last signal before; an idle task is there then |
| `DecoderWaits.ResetGetsThrough` | mpp/codec/mpp_dec.cpp:95-99 | with the reset flag up the parser does not go to sleep, and the signal that follows the flag wakes it |
| `DecoderWaits.SleepersWake` | mpp/codec/mpp_dec.cpp:569-580 | in every run a sleeping parser is woken by the hardware thread, unless that has nothing left to do and the parser sleeps on a bit it does not look at again |
| `DecoderRuns.StuckRun` | mpp/codec/mpp_dec.cpp:648-660 | a run of normal mode that reaches the state from which nothing is decoded any more |
| `DecoderRuns.FullRun` | mpp/codec/mpp_dec.cpp:654-661 | a run of fast mode in which three invalid last frames keep their packet slots and the next packet aborts the process |
| `DecoderRuns.EosAbortRun` | mpp/codec/mpp_dec.cpp:690-690 | a run, in either mode, in which an end of stream that is valid without an output slot makes the hardware thread abort |
| `DecoderRuns.AbortRun` | mpp/codec/mpp_dec.cpp:150-155 | a run with a reset during a pending change after which the hardware thread aborts |
| `DecoderRuns.TwiceRun` | mpp/codec/mpp_dec.cpp:327-335 | a run that announces one change twice |
| `DecoderRuns.LostRun` | mpp/codec/mpp_dec.cpp:645-658 | a run after which the parser sleeps beside an idle task and the hardware thread never wakes it |
| `DecoderRuns.LostReadyRun` | mpp/mpp.cpp:715-718 | a run after which the parser sleeps on a change that ready has ended, and the hardware thread never wakes it |
| `Decoder.NewGroup` | mpp/mpp.cpp:100-101 | the new internal group with a limit of 3 is a group the runs may start from |
| `DecoderGate.ControlLocal` | mpp/codec/mpp_dec.cpp:241-545 | the parser's ready and wait bits and the gate are kept by each of its steps, whatever it finds |
| `DecoderGate.ControlBits` | mpp/codec/mpp_dec.cpp:341-386 | the packet slot and its bits stay consistent as long as lookups succeed |
| `DecoderGate.ControlOutcome` | mpp/codec/mpp_dec.cpp:427-479 | what the parser is about to hand over is what its place in the code says: frames have an output slot, given-up ends of stream have none; whatever the parse call finds, up to a hand-over the hardware thread aborts at |
| `DecoderGate.ControlSound` | mpp/codec/mpp_dec.cpp:427-461 | no frame on its way to the hardware is an invalid end of stream, if the parse call never makes one |
| `DecoderGate.ControlOnce` | mpp/codec/mpp_dec.cpp:438-461 | the number of announcements follows info_task_gen_rdy, if parses under a pending change are valid |
| `DecoderTasks.HalTasks` | mpp/codec/mpp_dec.cpp:608-688 | the hardware thread's steps keep: each thread's task has the status it expects, jobs are those of frames not yet waited for, and one busy frame in normal mode |
| `DecoderTasks.ParserTasks` | mpp/codec/mpp_dec.cpp:241-545 | the same for the parser's steps |
| `DecoderTasks.ParserSubmits` | mpp/codec/mpp_dec.cpp:525-540 | handing over a frame takes prev_task_rdy down and makes exactly that task busy |
| `DecoderTasks.HalEnds` | mpp/codec/mpp_dec.cpp:678-686 | a finished frame stays the one busy frame until the parser collects it, or goes idle at once in fast mode |
| `DecoderSlots.FreeSlot` | mpp/base/mpp_buf_slot.cpp:662-687 | with an idle task in hand and no slot of its own, the parser's search finds a free slot: slots in use are carried by other tasks |
| `DecoderSlots.TwoInUse` | mpp/base/mpp_buffer_impl.cpp:404-439 | when the parser asks for a packet buffer at most two are in use |
| `DecoderSlots.StepBufGet` | mpp/base/mpp_buffer.cpp:78-91 | a search that fails leaves at most two buffers, one that succeeds a buffer whose only reference is the parser's |
| `DecoderSlots.StepBufMake` | mpp/base/mpp_buffer_impl.cpp:267-272 | under that bound the creation is granted and the books stay balanced |
| `DecoderSlots.ClearFull` | mpp/base/mpp_buf_slot.cpp:703-721 | clearing the hardware's hold on a filled packet slot frees the slot and puts its buffer |
| `DecoderPackets.ParserPackets` | mpp/codec/mpp_dec.cpp:347-386 | parser steps keep slot ownership and buffer books, and always find what they look for |
| `DecoderPackets.HalPackets` | mpp/codec/mpp_dec.cpp:663-672 | hardware thread steps keep slot ownership and buffer books |
| `DecoderPackets.CargoAfter` | mpp/codec/mpp_dec.cpp:525-542 | only the hand-over of a frame changes which task carries which slot, and it carries the parser's |
| `HalTask.FreshOk` | mpp/hal/hal_task.cpp:79-90 | the initial lists partition the tasks and the counters match |
| `HalTask.FirstIs` | mpp/hal/hal_task.cpp:124-156 | a task found has the status asked for; none is found exactly when no task has it |
| `HalTask.SetStatusOk` | mpp/hal/hal_task.cpp:171-190 | set_status changes one task's status and keeps the lists a partition with matching counters |
| `HalTask.CountIs` | mpp/hal/hal_task.cpp:158-169 | a counter is the number of tasks with its status |
| `HalTask.TaskGroup.constructor` | mpp/hal/hal_task.cpp:49-106 | the init loop builds the initial group |
| `HalTask.TaskGroup.GetHandle` | mpp/hal/hal_task.cpp:124-142 | returns the head of the list, or none exactly when no task has the status |
| `HalTask.TaskGroup.CheckEmpty` | mpp/hal/hal_task.cpp:144-156 | true exactly when no task has the status |
| `HalTask.TaskGroup.GetCount` | mpp/hal/hal_task.cpp:158-169 | returns the number of tasks with the status |
| `HalTask.TaskGroup.SetStatus` | mpp/hal/hal_task.cpp:171-190 | the new group is the old one with that task moved |
| `StatusLists.MoveInv` | mpp/hal/hal_task.cpp:182-188 | moving a task keeps the partition into lists and the counters, and changes one status |
| `BufferPool.RunInv` | mpp/base/mpp_buffer_impl.cpp:189-241 | in every run each buffer is on exactly one list, used iff referenced, the counters are the list lengths, buffer_count is their sum and usage the sum of sizes |
| `BufferPool.RunLimit` | mpp/base/mpp_buffer_impl.cpp:267-272 | limits set only while the group is empty are never exceeded |
| `BufferPool.ApplyInv` | mpp/base/mpp_buffer_impl.cpp:250-326 | every operation keeps these books and the limit |
| `BufferPool.IncRefInv` | mpp/base/mpp_buffer_impl.cpp:220-241 | taking a reference keeps the books |
| `BufferPool.DecRefInv` | mpp/base/mpp_buffer_impl.cpp:362-402 | dropping one does too, and never adds a buffer |
| `BufferPool.LastRefReturns` | mpp/base/mpp_buffer_impl.cpp:382-397 | the last reference returns a plain buffer to the unused list |
| `BufferPool.LastRefDies` | mpp/base/mpp_buffer_impl.cpp:382-397 | a discarded or misc buffer dies with its last reference and leaves the books balanced |
| `BufferPool.CreateInv` | mpp/base/mpp_buffer_impl.cpp:250-326 | creation keeps books and limit and succeeds exactly when not refused |
| `BufferPool.GetUnusedFinds` | mpp/base/mpp_buffer_impl.cpp:404-439 | the search succeeds exactly when some unused buffer is large enough |
| `BufferPool.GetUnusedMeaning` | mpp/base/mpp_buffer_impl.cpp:404-439 | the buffer found was unused, is large enough and has one reference; an internal group has no unused buffer left after a failure |
| `BufferPool.SearchIsFirstFit` | mpp/base/mpp_buffer_impl.cpp:411-436 | the loop that deletes while it iterates computes the first fit |
| `BufferPool.ResetInv` | mpp/base/mpp_buffer_impl.cpp:471-500 | after a reset only used buffers remain, all marked, with unchanged counts, and the books balance |
| `BufferPool.BufferGroup.RefInc` | mpp/base/mpp_buffer_impl.cpp:220-241 | the new group is the specified one |
| `BufferPool.BufferGroup.RefDec` | mpp/base/mpp_buffer_impl.cpp:362-402 | the new group is the specified one |
| `BufferPool.BufferGroup.DeinitBuffer` | mpp/base/mpp_buffer_impl.cpp:189-218 | the buffer is off its list and out of the books |
| `BufferPool.BufferGroup.CreateBuffer` | mpp/base/mpp_buffer_impl.cpp:250-326 | result and new group are the specified ones |
| `BufferPool.BufferGroup.TakeUnused` | mpp/base/mpp_buffer_impl.cpp:404-439 | the loop returns the first fit and leaves the specified group |
| `BufferPool.BufferGroup.GroupReset` | mpp/base/mpp_buffer_impl.cpp:471-500 | the two loops leave the specified group |
| `GroupIds.OnlyFreeIffFull` | mpp/base/mpp_buffer_impl.cpp:623-632 | one id is free exactly when all but one are taken |
| `GroupIds.Service.GetGroupById` | mpp/base/mpp_buffer_impl.cpp:794-810 | found exactly when a listed or orphan group has the id |
| `GroupIds.Service.GetGroupId` | mpp/base/mpp_buffer_impl.cpp:623-632 | the search ends, at a free id, and comes back to its start exactly when no other id is free |
| `GroupIds.Service.GetGroup` | mpp/base/mpp_buffer_impl.cpp:634-682 | the new id differs from all listed and orphan ids, even after the counter wrapped; the next one stays free exactly while fewer than 2^32 - 1 groups existed |
| `GroupIds.Service.Put` | mpp/base/mpp_buffer_impl.cpp:706-753 | a busy group becomes an orphan, another goes; ids stay distinct and the next id free |
| `GroupIds.Service.Destroy` | mpp/base/mpp_buffer_impl.cpp:755-792 | an orphan goes; ids stay distinct and the next id free |
| `Slots.FirstUnused` | mpp/base/mpp_buf_slot.cpp:673-681 | the first slot not in use |
| `Slots.SlotTable.GetUnused` | mpp/base/mpp_buf_slot.cpp:662-687 | the search loop returns and marks the first slot not in use |
| `Slots.SlotTable.Clear` | mpp/base/mpp_buf_slot.cpp:703-721 | one holder less, and the slot released if nobody is left |
| `Slots.SlotTable.CheckUnused` | mpp/base/mpp_buf_slot.cpp:439-461 | a filled slot without holders gives up its frame's and its own reference and is free |
| `Slots.SlotTable.DequeueDisplay` | mpp/base/mpp_buf_slot.cpp:742-766 | the head leaves the queue once it is filled |
| `Slots.SlotTable.SetBufferProp` | mpp/base/mpp_buf_slot.cpp:837-849 | slot and frame take a reference each and give up the old ones |
| `SlotSafety.TableFollows` | mpp/base/mpp_buf_slot.cpp:662-766 | every table operation is one step of the slot it names and leaves the others |
| `SlotSafety.StepSafe` | mpp/base/mpp_buf_slot.cpp:322-410 | the counters tell the truth after a step exactly when they had room for it |
| `SlotSafety.ActSafe` | mpp/base/mpp_buf_slot.cpp:662-766 | a table of any size stays safe under an operation exactly when the counters of its slot have room; that a slot taken is free and a slot dequeued is held by the queue follows |
| `SlotSafety.NeverReissued` | mpp/base/mpp_buf_slot.cpp:662-687 | in every run of a whole table the slot get_unused hands out has no holder, frame or buffer and is not in the display queue |
| `SlotSafety.WrapFreesHeldSlot` | mpp/base/mpp_buf_slot.cpp:147-163 | a run after which a 256th hardware holder lets the held slot be freed and handed out |
| `SlotSafety.AskOrder` | mpp/base/mpp_buf_slot.cpp:723-740 | display order survives an enqueue exactly when the slot is not queued |
| `SlotSafety.ShowOrder` | mpp/base/mpp_buf_slot.cpp:742-766 | a dequeue delivers the head, and exactly when it is filled |
| `SlotSafety.DisplayOrder` | mpp/base/mpp_buf_slot.cpp:723-766 | in every run the slots delivered are, in order, the first ones enqueued |
| `FrameRefs.StepConserves` | mpp/codec/mpp_dec.cpp:505-513 | a step keeps "each reference has exactly one owner" exactly when the decoder keeps its discipline |
| `FrameRefs.RunConserves` | mpp/codec/mpp_dec.cpp:219-239 | in every disciplined run, for every buffer, ref_count is slot references plus frame references plus pending display references plus output frames |
| `FrameRefs.ZeroIffUnowned` | mpp/base/mpp_frame.cpp:61-75 | the count is zero exactly when no slot, slot frame or output frame has the buffer; until then it cannot be handed out again |
| `FrameRefs.AttachStep` | mpp/codec/mpp_dec.cpp:505-513 | giving a buffer to a slot adds a reference each for slot and frame, and the one in hand stays pending for the display |
| `FrameRefs.GetStep` | mpp/base/mpp_buffer.cpp:78-79 | an unused buffer found had no owner, and the parser is its only one |
| `FrameRefs.MakeStep` | mpp/base/mpp_buffer.cpp:80-91 | the same for a new one |
| `FrameRefs.DescribeLeak` | mpp/base/mpp_buf_slot.cpp:788-805 | a run after which describing a filled slot again leaves a reference nobody owns |
| `FrameRefs.ReleaseLeak` | mpp/base/mpp_buf_slot.cpp:439-461 | a run after which releasing a slot not yet displayed does |
| `FrameRefs.LeaveStep` | mpp/codec/mpp_dec.cpp:169-176 | leaving the display queue balances exactly when the reference put or passed on is the one still pending |
| `FrameRefs.DeliverBalance` | mpp/base/mpp_frame.cpp:122-131 | the uncounted copy given to the user balances exactly when its buffer is the pending one |
| `FrameRefs.DescribeStep` | mpp/base/mpp_buf_slot.cpp:788-805 | a description balances exactly when the slot's frame has no buffer |
| `FrameRefs.LetGoStep` | mpp/base/mpp_buf_slot.cpp:439-461 | a release balances exactly when no reference of the slot is pending |
| `FrameRefs.FillRefs` | mpp/base/mpp_frame.cpp:105-120 | what setting a buffer does to every count |
| `InfoChange.MarkMeans` | mpp/base/mpp_buf_slot.cpp:788-819 | until ready, the mark is up exactly when some frame set differed from the geometry in force, which does not move; the last frame decides what ready installs |
| `InfoChange.QuietAfterReady` | mpp/base/mpp_buf_slot.cpp:597-629 | after ready a frame raises the mark exactly when its geometry differs from the last one's; the same description never does |
| `InfoChange.PresetQuietIff` | mpp/base/mpp_buf_slot.cpp:935-944 | after a preset the same description stays quiet exactly when the strides given are aligned |
| `InfoChange.Detector.Generate` | mpp/base/mpp_buf_slot.cpp:231-270 | the geometry derived, with 32-bit wrap-around |
| `InfoChange.Detector.SetFrameInfo` | mpp/base/mpp_buf_slot.cpp:817-819 | the mark goes up if one of the six compared fields differs, and stays up |
| `InfoChange.Detector.MakeReady` | mpp/base/mpp_buf_slot.cpp:597-629 | the derived geometry is in force, the mark down |
| `InfoChange.Detector.PresetInfo` | mpp/base/mpp_buf_slot.cpp:935-944 | the preset geometry is in force, the mark as it was |
| `PacketQueue.SurplusStep` | osal/mpp_queue.cpp:31-61 | the exact change of (semaphore + pullers past the wait + posts owed - packets) for every step |
| `PacketQueue.StepCovered` | mpp/mpp.cpp:600-605 | the balance never becomes negative, whatever removes packets from outside |
| `PacketQueue.NoLostWakeup` | osal/mpp_queue.cpp:31-61 | in every interleaving a puller that would block leaves no packet unclaimed |
| `PortQueue.DequeueOk` | mpp/base/mpp_task_impl.cpp:178-226 | a dequeue is possible exactly when the port has a task, takes the oldest and keeps partition and order |
| `PortQueue.EnqueueOk` | mpp/base/mpp_task_impl.cpp:228-269 | an enqueue keeps the partition and moves one task |
| `PortQueue.EnqueueOrder` | mpp/base/mpp_task_impl.cpp:228-269 | order survives an enqueue exactly when the task was held |
| `PortQueue.RunInOrder` | mpp/base/mpp_task_impl.cpp:86-114 | in every disciplined run the four lists partition the tasks, and tasks leave each port in the order they came |
| `PortQueue.DrainRound` | mpp/codec/mpp_enc.cpp:48-81 | one round of the drain returns the oldest task |
| `PortQueue.DeinitCondition` | mpp/base/mpp_task_impl.cpp:402-420 | with the output port empty, all tasks are back exactly when the consumer holds none |
| `PortQueue.TaskQueue.Setup` | mpp/base/mpp_task_impl.cpp:368-400 | the loop puts all tasks on the input port in order |
| `PortQueue.TaskQueue.PortDequeue` | mpp/base/mpp_task_impl.cpp:178-226 | result and new queue, and refusal exactly when not ready or empty |
| `PortQueue.TaskQueue.PortEnqueue` | mpp/base/mpp_task_impl.cpp:228-269 | the new queue, or refusal when not ready |
| `PortQueue.TaskQueue.Drain` | mpp/codec/mpp_enc.cpp:48-81 | the loop ends with the output port empty and its tasks back in order, and what is held stays held |
| `Rbsp.EscapeRoundTrip` | mpp/base/mpp_bitread.c:25-54 | removing emulation prevention bytes undoes inserting them, for every payload |
| `Rbsp.EscapeHidesStartCodes` | mpp/base/mpp_bitread.c:36-45 | an escaped payload contains no start code |
| `Rbsp.UeRoundTrip` | mpp/base/mpp_bitread.c:181-206 | decoding an Exp-Golomb code gives the value and the code's length |
| `Rbsp.UeDecodeRange` | mpp/base/mpp_bitread.c:181-206 | a decoded value is at most 2^32 - 2 |
| `Rbsp.SeMapping` | mpp/base/mpp_bitread.c:213-226 | the signed mapping is inverted, and codes up to 2^32 - 2 are exactly the values below 2^31 in magnitude |
| `Rbsp.MoreDataIsPayload` | mpp/base/mpp_bitread.c:234-248 | before a stop bit and padding there is more data exactly while payload bits remain |
| `BitReader.Reader.UpdateCurrByte` | mpp/base/mpp_bitread.c:25-54 | the next payload byte, emulation bytes dropped on the fly |
| `BitReader.Reader.ReadBits` | mpp/base/mpp_bitread.c:61-82 | succeeds exactly when n <= 31 bits remain, returns their value and consumes them |
| `BitReader.Reader.SkipBits` | mpp/base/mpp_bitread.c:109-124 | ends where a read of the same length does |
| `BitReader.Reader.ReadLong32` | mpp/base/mpp_bitread.c:89-102 | 32 bits, most significant first |
| `BitReader.Reader.ShowBits` | mpp/base/mpp_bitread.c:147-158 | the value of the next bits, with the whole state unchanged |
| `BitReader.Reader.ReadUe` | mpp/base/mpp_bitread.c:181-206 | decodes exactly when a code is there, in all four outcomes, without overflow |
| `BitReader.Reader.ReadSe` | mpp/base/mpp_bitread.c:213-226 | the signed value of the code |
| `BitReader.Reader.HasMoreRbspData` | mpp/base/mpp_bitread.c:234-248 | true exactly when raw bytes or, in the last byte, bits after the next one remain; on a stream closed by a stop bit exactly when more than that bit and its padding remain; the position is kept |
| `BitReader.Reader.Run` | mpp/base/mpp_bitread.c:25-226 | any sequence of read, skip, show, ue and se calls answers and ends as on the plain list of payload bits |
| `BitReader.UeThroughStream` | mpp/base/mpp_bitread.c:181-206 | every value 0..2^32-2, written anywhere into an escaped stream, is read back and exactly its code consumed |
| `BitReader.SeThroughStream` | mpp/base/mpp_bitread.c:213-226 | the same for every signed value of magnitude below 2^31 |
| `BitReader.MoreDataThroughStream` | mpp/base/mpp_bitread.c:234-248 | at every position of an escaped payload with stop bit and padding, more data is reported exactly while payload bits remain |
| `BitPut.NextWords` | mpp/base/mpp_bitput.c:41-48 | the merged word and the carried rest hold the old bits followed by the new ones |
| `BitPut.Packer.PutBits` | mpp/base/mpp_bitput.c:33-52 | writes past the buffer exactly when the put ends at or beyond its end; otherwise the stream is extended by the low bits of the value, least significant first |
| `BitPut.Packer.PutAlign` | mpp/base/mpp_bitput.c:54-75 | pads with the flag bit to the least multiple of any power of two an RK_S32 holds |
| `BitPut.Packer.BufferHolds` | mpp/base/mpp_bitput.c:41-49 | the words of the buffer, read from the first bit, are the bits put |
| `BitPut.PutAll` | mpp/base/mpp_bitput.c:33-52 | for any sequence of puts the buffer is the concatenation of the low bits of each value |
| `BitPut.MaskedIndex` | mpp/base/mpp_bitput.c:58-58 | the word index masked with ((align & 0xfe0) >> 6) - 1 is its remainder within the unit up to 2048, and modulo 2^32 above, for every power of two |
| `BitPut.PadBits` | mpp/base/mpp_bitput.c:58-59 | for every power of two an RK_S32 holds, the masked offset gives, in 32-bit arithmetic, the distance to the next multiple |
| `ScaledDivision.AxbDivC` | osal/mpp_common.cpp:58-108 | when the product fits and the divisor is not zero, exact unless the product is -2^31 and the divisor -1; otherwise the magnitude is never above the true quotient and closer than min(abs a, abs b) / 2^shift + 1, unless it saturates, and then the quotient exceeds 2^30; it fits whenever the quotient does, and wraps otherwise |
| `ScaledDivision.QuotientFits` | osal/mpp_common.cpp:68-69 | the quotient of a product in range fits 32 bits exactly unless it is -2^31 over -1 |
| `ScaledDivision.OverflowExample` | osal/mpp_common.cpp:68-69 | 2^16 * -2^15 / -1 does not return 2^31 |
| `ScaledDivision.OverflowTest` | osal/mpp_common.cpp:66-69 | dividing the wrapped product back finds out exactly whether it fits |
| `ScaledDivision.Magnitude` | osal/mpp_common.cpp:87-107 | the slow path's bound on magnitudes, and when it saturates |
| `ScaledDivision.FindLeft` | osal/mpp_common.cpp:93-96 | the loop finds the headroom of the larger factor |
| `ScaledDivision.FindRight` | osal/mpp_common.cpp:98-99 | the loop finds by how much the smaller factor exceeds the divisor |
| `ScaledDivision.ProductFits` | osal/mpp_common.cpp:101-107 | the slow path's product stays below 2^32 |
| `ScaledDivision.ShiftsUnique` | osal/mpp_common.cpp:93-99 | the two searches have no choice |
| `ScaledDivision.SaturationExample` | osal/mpp_common.cpp:101-102 | 2^30 * 3 / 2 returns 2^31 - 1, although the quotient fits |
| `LinReg.GramSign` | mpp/codec/mpp_rc.cpp:957-969 | weighted Cauchy-Schwarz: the Gram determinant is not negative, and zero exactly when all samples of nonzero weight share x |
| `LinReg.DenominatorSign` | mpp/codec/mpp_rc.cpp:971-972 | sign and zero survive the truncated division |
| `LinReg.DivRounds` | mpp/codec/mpp_rc.cpp:41-42 | for a positive divisor DIV rounds to nearest |
| `LinReg.TableIsGood` | mpp/codec/mpp_rc.cpp:740-747 | every row of the weight table meets what the fit needs |
| `LinReg.FitSlope` | mpp/codec/mpp_rc.cpp:971-985 | the slope is the rounded quotient by a positive number, or 0 |
| `LinReg.FitIntercept` | mpp/codec/mpp_rc.cpp:987-987 | the intercept, with its untruncated rounding term |
| `LinReg.Regression.Save` | mpp/codec/mpp_rc.cpp:758-773 | the ring holds the newest samples |
| `LinReg.Regression.Accumulate` | mpp/codec/mpp_rc.cpp:957-969 | the loop visits the n newest samples in age order, each with its weight |
| `LinReg.Regression.Update` | mpp/codec/mpp_rc.cpp:930-994 | the fit over the n newest samples; its denominator is zero exactly when they share x where the weight counts |

## Left out

- Buffer groups already put, and the teardown of the service: the pool invariant is for groups not yet put; `GroupIds` models only the ids of orphans.
- The sum of sizes for external groups on the standard allocator, whose release zeroes the size before it is subtracted: an allocator that keeps the size is assumed.
- Slot tables that grow or are re-initialised, and `mpp_buf_slot_reset`: the slot count is fixed.
- Logs, the eos property of slots, display and decode counters.
- `mpp_read_longbits` at widths other than 32, `mpp_skip_longbits`, `mpp_show_longbits`, `mpp_align_get_bits` and the counter of emulation bytes.
- `mpp_data_update` and `mpp_data_avg`: the ring of the regression is the harder of the two ring buffers.
- Floating-point rate control, the quadratic fit, and overflow of 64-bit sums in the regression, which is over unbounded integers; the `double` intercept is a real number.
- AxbDivC: arguments of INT_MIN are excluded, since negating them overflows.
- Allocators over ion and drm, ioctl calls, platform detection, environment, legacy interfaces, register tools.
- Codec parsers and hardware register generation: abstract; the clock and the sleep in a reset are left to the scheduler, and spurious wakeups of the condition variable are not modelled.
- The exit code of the two decoder threads, the thread for MJPEG, frame-slot operations inside a reset, and user calls other than reset, ready and the signals they send.
- Frame slots inside the decoder interleaving: `FrameRefs` proves what the discipline of describing, filling, displaying and releasing is worth; keeping it is up to the codec parsers, which are abstract.
- `mpp_list::del_by_key` and the buffered branch of `mpp_packet_copy_init`.
- FrameRefs.Leave: dequeueing a slot and copying its frame are one step, because the slot's second queue reference keeps it from being released in between.
- The memory exhaustion paths of initialisation functions, and null-pointer argument checks.
- In-place update inside `Decoder` is modelled on values; the classes `SlotTable`, `BufferGroup` and `TaskGroup` are proved equal to the functions it uses.
