/** One buffer group of the pool (mpp/base/mpp_buffer_impl.cpp), for a group that has
    not been put: buffers on a used and an unused list, reference counts, counters,
    limits and the discard mark of a reset. The operations are functions on a value;
    the class at the end is the mutable group, proved equal to them. */
module BufferPool {
  import opened Wrappers
  import opened Lists

  type Id = nat

  datatype Buffer = Buffer(size: nat, refs: nat, used: bool, discard: bool)

  datatype Pool = Pool(
    internal: bool, misc: bool,
    bufs: map<Id, Buffer>, listUsed: seq<Id>, listUnused: seq<Id>,
    countUsed: int, countUnused: int, bufferCount: int, usage: int,
    limitCount: int, limitSize: nat, nextId: Id)

  // ---- sizes ------------------------------------------------------------------------

  function SizeOf(bufs: map<Id, Buffer>, b: Id): nat {
    if b in bufs then bufs[b].size else 0
  }

  function Total(list: seq<Id>, bufs: map<Id, Buffer>): nat {
    if list == [] then 0 else SizeOf(bufs, list[0]) + Total(list[1..], bufs)
  }

  lemma {:induction false} TotalAppend(list: seq<Id>, b: Id, bufs: map<Id, Buffer>)
    ensures Total(list + [b], bufs) == Total(list, bufs) + SizeOf(bufs, b)
  {
    if list == [] {
      assert [] + [b] == [b];
    } else {
      TotalAppend(list[1..], b, bufs);
      assert (list + [b])[1..] == list[1..] + [b];
    }
  }

  lemma {:induction false} TotalWithout(list: seq<Id>, b: Id, bufs: map<Id, Buffer>)
    requires b in list
    ensures Total(Without(list, b), bufs) == Total(list, bufs) - SizeOf(bufs, b)
  {
    if list[0] != b {
      TotalWithout(list[1..], b, bufs);
    }
  }

  lemma {:induction false} TotalSame(list: seq<Id>, bufs: map<Id, Buffer>, bufs': map<Id, Buffer>)
    requires forall x :: x in list ==> SizeOf(bufs, x) == SizeOf(bufs', x)
    ensures Total(list, bufs) == Total(list, bufs')
  {
    if list != [] {
      TotalSame(list[1..], bufs, bufs');
    }
  }

  // ---- the invariant ----------------------------------------------------------------

  ghost predicate Shape(p: Pool) {
    && Distinct(p.listUsed) && Distinct(p.listUnused)
    && (forall b :: b in p.listUsed <==> b in p.bufs && p.bufs[b].used)
    && (forall b :: b in p.listUnused <==> b in p.bufs && !p.bufs[b].used)
    && (forall b :: b in p.bufs ==> (p.bufs[b].used <==> p.bufs[b].refs > 0))
    && (forall b :: b in p.bufs ==> b < p.nextId)
  }

  ghost predicate Counted(p: Pool) {
    && p.countUsed == |p.listUsed| && p.countUnused == |p.listUnused|
    && p.bufferCount == |p.listUsed| + |p.listUnused|
    && p.usage == Total(p.listUsed, p.bufs) + Total(p.listUnused, p.bufs)
  }

  ghost predicate Inv(p: Pool) { Shape(p) && Counted(p) }

  /** A positive limit is respected; a limit of zero is no limit. */
  ghost predicate WithinLimit(p: Pool) { p.limitCount > 0 ==> p.bufferCount <= p.limitCount }

  function Empty(internal: bool, misc: bool): Pool {
    Pool(internal, misc, map[], [], [], 0, 0, 0, 0, 0, 0, 0)
  }

  lemma EmptyInv(internal: bool, misc: bool)
    ensures Inv(Empty(internal, misc)) && WithinLimit(Empty(internal, misc))
  {
  }

  // ---- operations ---------------------------------------------------------------------

  function Refs(p: Pool, b: Id): nat { if b in p.bufs then p.bufs[b].refs else 0 }

  function LimitConfig(p: Pool, size: nat, count: int): Pool {
    p.(limitSize := size, limitCount := count)
  }

  /** inc_buffer_ref_no_lock. */
  function IncRef(p: Pool, b: Id): Pool {
    if b !in p.bufs then p else
    var buf := p.bufs[b];
    var p' := if buf.used then p
              else p.(listUnused := Without(p.listUnused, b), listUsed := p.listUsed + [b],
                      countUsed := p.countUsed + 1, countUnused := p.countUnused - 1);
    p'.(bufs := p.bufs[b := buf.(used := true, refs := buf.refs + 1)])
  }

  /** deinit_buffer_no_lock: off its list, its memory gone, the group's books adjusted.
      The caller keeps the counter of the list it was on. */
  function Deinit(p: Pool, b: Id): Pool {
    p.(bufs := p.bufs - {b}, listUsed := Without(p.listUsed, b), listUnused := Without(p.listUnused, b),
       usage := p.usage - SizeOf(p.bufs, b), bufferCount := p.bufferCount - 1)
  }

  /** mpp_buffer_ref_dec. A count that is not positive is reported and left alone. */
  function DecRef(p: Pool, b: Id): Pool {
    if b !in p.bufs || p.bufs[b].refs == 0 then p else
    var buf := p.bufs[b];
    if buf.refs > 1 then p.(bufs := p.bufs[b := buf.(refs := buf.refs - 1)])
    else
      var idle := p.(bufs := p.bufs[b := buf.(refs := 0, used := false)],
                     listUsed := Without(p.listUsed, b), countUsed := p.countUsed - 1);
      if p.misc || buf.discard then Deinit(idle, b)
      else idle.(listUnused := p.listUnused + [b], countUnused := p.countUnused + 1)
  }

  /** mpp_buffer_create: refused at the count or size limit; the buffer starts unused,
      and is referenced at once when the caller asked for it. */
  predicate Refused(p: Pool, size: nat) {
    || (p.limitCount != 0 && p.bufferCount >= p.limitCount)
    || (p.limitSize != 0 && size > p.limitSize)
  }

  function Register(p: Pool, size: nat): Pool {
    p.(bufs := p.bufs[p.nextId := Buffer(size, 0, false, false)], listUnused := p.listUnused + [p.nextId],
       nextId := p.nextId + 1, usage := p.usage + size,
       bufferCount := p.bufferCount + 1, countUnused := p.countUnused + 1)
  }

  function Create(p: Pool, size: nat, take: bool): (Option<Id>, Pool) {
    if Refused(p, size) then (None, p)
    else if take then (Some(p.nextId), IncRef(Register(p, size), p.nextId))
    else (Some(p.nextId), Register(p, size))
  }

  /** Destroys an unused buffer. */
  function Drop(p: Pool, b: Id): Pool {
    var p' := Deinit(p, b);
    p'.(countUnused := p'.countUnused - 1)
  }

  /** Destroys the first k unused buffers. */
  function DropFirst(p: Pool, k: nat): Pool
    decreases k
  {
    if k == 0 || p.listUnused == [] then p else DropFirst(Drop(p, p.listUnused[0]), k - 1)
  }

  lemma KeepsShape(p: Pool, b: Id)
    requires Shape(p) && b in p.listUnused
    ensures b in p.bufs && Shape(Drop(p, b))
    ensures Drop(p, b).listUsed == p.listUsed && |Drop(p, b).listUnused| == |p.listUnused| - 1
    ensures p.listUnused[0] == b ==> Drop(p, b).listUnused == p.listUnused[1..]
  {
    WithoutFacts(p.listUnused, b);
    NotIn(p.listUsed, b);
  }

  // ---- every operation keeps the invariant --------------------------------------------

  lemma IncRefInv(p: Pool, b: Id)
    requires Inv(p) && b in p.bufs
    ensures Inv(IncRef(p, b)) && IncRef(p, b).bufferCount == p.bufferCount
  {
    var p' := IncRef(p, b);
    TotalSame(p.listUsed, p.bufs, p'.bufs);
    TotalSame(p.listUnused, p.bufs, p'.bufs);
    if !p.bufs[b].used {
      WithoutFacts(p.listUnused, b);
      AppendFacts(p.listUsed, b);
      TotalAppend(p.listUsed, b, p'.bufs);
      TotalWithout(p.listUnused, b, p'.bufs);
    }
  }

  lemma DropInv(p: Pool, b: Id)
    requires Inv(p) && b in p.listUnused
    ensures b in p.bufs && Inv(Drop(p, b)) && Drop(p, b).bufferCount == p.bufferCount - 1
  {
    KeepsShape(p, b);
    var p' := Drop(p, b);
    TotalWithout(p.listUnused, b, p.bufs);
    TotalSame(p.listUsed, p.bufs, p'.bufs);
    TotalSame(p'.listUnused, p.bufs, p'.bufs) by {
      WithoutFacts(p.listUnused, b);
    }
  }

  lemma DecRefInv(p: Pool, b: Id)
    requires Inv(p) && b in p.bufs
    ensures Inv(DecRef(p, b)) && DecRef(p, b).bufferCount <= p.bufferCount
  {
    var buf := p.bufs[b];
    if buf.refs > 1 {
      var p' := DecRef(p, b);
      TotalSame(p.listUsed, p.bufs, p'.bufs);
      TotalSame(p.listUnused, p.bufs, p'.bufs);
    } else if buf.refs == 1 {
      if p.misc || buf.discard {
        LastRefDies(p, b);
      } else {
        LastRefReturns(p, b);
      }
    }
  }

  /** The last reference goes: the buffer returns to the unused list ... */
  lemma LastRefReturns(p: Pool, b: Id)
    requires Inv(p) && b in p.bufs && p.bufs[b].refs == 1 && !(p.misc || p.bufs[b].discard)
    ensures Inv(DecRef(p, b)) && DecRef(p, b).bufferCount == p.bufferCount
    ensures b in DecRef(p, b).listUnused
  {
    var p' := DecRef(p, b);
    WithoutFacts(p.listUsed, b);
    AppendFacts(p.listUnused, b);
    assert Shape(p');
    TotalWithout(p.listUsed, b, p.bufs);
    TotalSame(p'.listUsed, p.bufs, p'.bufs);
    TotalSame(p.listUnused, p.bufs, p'.bufs);
    TotalAppend(p.listUnused, b, p'.bufs);
  }

  /** ... or is destroyed. */
  lemma LastRefDies(p: Pool, b: Id)
    requires Inv(p) && b in p.bufs && p.bufs[b].refs == 1 && (p.misc || p.bufs[b].discard)
    ensures Inv(DecRef(p, b)) && DecRef(p, b).bufferCount == p.bufferCount - 1
    ensures b !in DecRef(p, b).bufs
  {
    var p', list := DecRef(p, b), Without(p.listUsed, b);
    WithoutFacts(p.listUsed, b);
    NotIn(list, b);
    NotIn(p.listUnused, b);
    LastRefAway(p, b);
    AwayShape(p, p', b);
    TotalWithout(p.listUsed, b, p.bufs);
    TotalSame(list, p.bufs, p'.bufs);
    TotalSame(p.listUnused, p.bufs, p'.bufs);
  }

  lemma LastRefAway(p: Pool, b: Id)
    requires b in p.bufs && p.bufs[b].refs == 1 && (p.misc || p.bufs[b].discard)
    requires Without(Without(p.listUsed, b), b) == Without(p.listUsed, b) && Without(p.listUnused, b) == p.listUnused
    ensures DecRef(p, b) == p.(bufs := p.bufs - {b}, listUsed := Without(p.listUsed, b), countUsed := p.countUsed - 1,
                               usage := p.usage - p.bufs[b].size, bufferCount := p.bufferCount - 1)
  {
    assert p.bufs[b := p.bufs[b].(refs := 0, used := false)] - {b} == p.bufs - {b};
  }

  lemma AwayShape(p: Pool, p': Pool, b: Id)
    requires Shape(p) && b in p.listUsed
    requires p'.bufs == p.bufs - {b} && p'.listUsed == Without(p.listUsed, b)
    requires p'.listUnused == p.listUnused && p'.nextId == p.nextId
    ensures Shape(p')
  {
    WithoutFacts(p.listUsed, b);
  }

  lemma RegisterInv(p: Pool, size: nat)
    requires Inv(p)
    ensures Inv(Register(p, size))
  {
    var p' := Register(p, size);
    TotalSame(p.listUsed, p.bufs, p'.bufs);
    TotalSame(p.listUnused, p.bufs, p'.bufs);
    AppendFacts(p.listUnused, p.nextId);
    TotalAppend(p.listUnused, p.nextId, p'.bufs);
  }

  lemma CreateInv(p: Pool, size: nat, take: bool)
    requires Inv(p)
    ensures Inv(Create(p, size, take).1)
    ensures WithinLimit(p) ==> WithinLimit(Create(p, size, take).1)
    ensures Create(p, size, take).0.Some? <==> !Refused(p, size)
  {
    if !Refused(p, size) {
      RegisterInv(p, size);
      if take {
        IncRefInv(Register(p, size), p.nextId);
      }
    }
  }

  // ---- taking an unused buffer ----------------------------------------------------------

  /** The first unused buffer, from i on, that is large enough. */
  function FirstFit(p: Pool, size: nat, i: nat): (k: nat)
    requires i <= |p.listUnused|
    ensures i <= k <= |p.listUnused|
    ensures forall j :: i <= j < k ==> SizeOf(p.bufs, p.listUnused[j]) < size
    ensures k < |p.listUnused| ==> SizeOf(p.bufs, p.listUnused[k]) >= size
    decreases |p.listUnused| - i
  {
    if i == |p.listUnused| || SizeOf(p.bufs, p.listUnused[i]) >= size then i else FirstFit(p, size, i + 1)
  }

  /** mpp_buffer_get_unused: an internal group destroys the buffers it passes over. */
  function GetUnused(p: Pool, size: nat): (Option<Id>, Pool) {
    var k := FirstFit(p, size, 0);
    if p.internal then TakeAt(DropFirst(p, k), 0) else TakeAt(p, k)
  }

  function TakeAt(p: Pool, k: nat): (Option<Id>, Pool) {
    if k >= |p.listUnused| then (None, p)
    else (Some(p.listUnused[k]), IncRef(p, p.listUnused[k]))
  }

  lemma {:induction false} DropFirstFacts(p: Pool, k: nat)
    requires Shape(p) && k <= |p.listUnused|
    ensures Shape(DropFirst(p, k)) && DropFirst(p, k).listUsed == p.listUsed
    ensures DropFirst(p, k).listUnused == p.listUnused[k..]
    ensures forall b :: b in DropFirst(p, k).bufs ==> b in p.bufs && DropFirst(p, k).bufs[b] == p.bufs[b]
    ensures forall j :: k <= j < |p.listUnused| ==> p.listUnused[j] in DropFirst(p, k).bufs && p.listUnused[j] in p.bufs
    ensures DropFirst(p, k).limitCount == p.limitCount && DropFirst(p, k).limitSize == p.limitSize
    ensures DropFirst(p, k).internal == p.internal && DropFirst(p, k).misc == p.misc
    decreases k
  {
    if k == 0 {
      assert forall j :: 0 <= j < |p.listUnused| ==> p.listUnused[j] in p.listUnused;
    } else {
      var b := p.listUnused[0];
      KeepsShape(p, b);
      DropFirstFacts(Drop(p, b), k - 1);
      assert p.listUnused[1..][k - 1..] == p.listUnused[k..];
      var d := Drop(p, b);
      forall j | k <= j < |p.listUnused| ensures p.listUnused[j] in DropFirst(p, k).bufs && p.listUnused[j] in p.bufs {
        assert d.listUnused[j - 1] == p.listUnused[j];
      }
    }
  }

  /** What destroying one unused buffer keeps, destroying k of them keeps. */
  lemma {:induction false} DropFirstKeeps(p: Pool, k: nat, holds: Pool -> bool)
    requires holds(p) && forall q: Pool :: holds(q) && q.listUnused != [] ==> holds(Drop(q, q.listUnused[0]))
    ensures holds(DropFirst(p, k))
    decreases k
  {
    if k > 0 && p.listUnused != [] {
      DropFirstKeeps(Drop(p, p.listUnused[0]), k - 1, holds);
    }
  }

  ghost predicate DropsFrom(p: Pool, q: Pool) {
    Inv(q) && q.bufferCount - |q.listUnused| == p.bufferCount - |p.listUnused|
  }

  lemma DropFirstInv(p: Pool, k: nat)
    requires Inv(p) && k <= |p.listUnused|
    ensures Inv(DropFirst(p, k)) && DropFirst(p, k).bufferCount == p.bufferCount - k
  {
    forall q: Pool | DropsFrom(p, q) && q.listUnused != [] ensures DropsFrom(p, Drop(q, q.listUnused[0])) {
      DropsOne(p, q);
    }
    DropFirstKeeps(p, k, q => DropsFrom(p, q));
    DropFirstFacts(p, k);
  }

  lemma DropsOne(p: Pool, q: Pool)
    requires DropsFrom(p, q) && q.listUnused != []
    ensures DropsFrom(p, Drop(q, q.listUnused[0]))
  {
    assert q.listUnused[0] in q.listUnused;
    DropInv(q, q.listUnused[0]);
    KeepsShape(q, q.listUnused[0]);
  }

  lemma GetUnusedInv(p: Pool, size: nat)
    requires Inv(p)
    ensures Inv(GetUnused(p, size).1) && GetUnused(p, size).1.bufferCount <= p.bufferCount
  {
    var k := FirstFit(p, size, 0);
    DropFirstFacts(p, k);
    DropFirstInv(p, k);
    if k < |p.listUnused| {
      var d := if p.internal then DropFirst(p, k) else p;
      assert p.listUnused[k..][0] == p.listUnused[k];
      IncRefInv(d, p.listUnused[k]);
    }
  }

  /** The meaning of a search: success exactly when some unused buffer is large enough. */
  lemma GetUnusedFinds(p: Pool, size: nat)
    requires Inv(p)
    ensures GetUnused(p, size).0.Some? <==> exists b :: b in p.listUnused && SizeOf(p.bufs, b) >= size
  {
    var k := FirstFit(p, size, 0);
    DropFirstFacts(p, k);
    if k < |p.listUnused| {
      assert p.listUnused[k] in p.listUnused;
    }
  }

  /** A buffer found is one of the unused ones, large enough, now referenced once and at the
      end of the used list; what an internal group has left after a failure is used. */
  lemma GetUnusedMeaning(p: Pool, size: nat)
    requires Inv(p)
    ensures var (r, p') := GetUnused(p, size);
            && (r.Some? ==> r.value in p.listUnused && r.value in p'.bufs
                            && p'.bufs[r.value].refs == 1 && p'.bufs[r.value].size >= size
                            && p'.listUsed == p.listUsed + [r.value])
            && (r.None? ==> p'.listUsed == p.listUsed && (p.internal ==> p'.listUnused == []))
  {
    var k := FirstFit(p, size, 0);
    DropFirstFacts(p, k);
    if k < |p.listUnused| {
      assert p.listUnused[k] in p.listUnused;
    }
  }

  // ---- reset ------------------------------------------------------------------------------

  /** mpp_buffer_group_reset: used buffers are marked, unused ones destroyed. */
  function MarkUsed(p: Pool): Pool {
    p.(bufs := map b | b in p.bufs :: if b in p.listUsed then p.bufs[b].(discard := true) else p.bufs[b])
  }

  function Reset(p: Pool): Pool {
    DropFirst(MarkUsed(p), |p.listUnused|)
  }

  lemma MarkShape(p: Pool)
    requires Shape(p)
    ensures Shape(MarkUsed(p))
  {
  }

  /** After a reset only used buffers remain, each marked, so each dies with its last
      reference: nothing from before the reset is ever handed out again. */
  lemma ResetInv(p: Pool)
    requires Inv(p)
    ensures Inv(Reset(p)) && Reset(p).listUnused == [] && Reset(p).listUsed == p.listUsed
    ensures forall b :: b in Reset(p).bufs ==> Reset(p).bufs[b].discard && Reset(p).bufs[b].refs == Refs(p, b)
    ensures Reset(p).bufferCount <= p.bufferCount
  {
    var m := MarkUsed(p);
    MarkShape(p);
    TotalSame(p.listUsed, p.bufs, m.bufs);
    TotalSame(p.listUnused, p.bufs, m.bufs);
    DropFirstInv(m, |p.listUnused|);
    DropFirstFacts(m, |p.listUnused|);
    var q := Reset(p);
    forall b | b in q.bufs ensures q.bufs[b].discard && q.bufs[b].refs == Refs(p, b) {
      assert b in q.listUsed;
    }
  }

  // ---- whole runs -----------------------------------------------------------------------

  datatype Op =
    | Limit(size: nat, count: int)
    | New(size: nat, take: bool)
    | Inc(b: Id)
    | Dec(b: Id)
    | Take(size: nat)
    | Clear

  /** A call on a buffer of the group; the caller holds buffers it references. */
  predicate Callable(p: Pool, op: Op) {
    (op.Inc? || op.Dec?) ==> op.b in p.bufs
  }

  function Apply(p: Pool, op: Op): Pool {
    match op
    case Limit(size, count) => LimitConfig(p, size, count)
    case New(size, take) => Create(p, size, take).1
    case Inc(b) => IncRef(p, b)
    case Dec(b) => DecRef(p, b)
    case Take(size) => GetUnused(p, size).1
    case Clear => Reset(p)
  }

  lemma ApplyInv(p: Pool, op: Op)
    requires Inv(p) && Callable(p, op)
    ensures Inv(Apply(p, op))
    ensures WithinLimit(p) && !op.Limit? ==> WithinLimit(Apply(p, op))
  {
    match op
    case Limit(size, count) =>
    case New(size, take) => CreateInv(p, size, take);
    case Inc(b) => IncRefInv(p, b);
    case Dec(b) => DecRefInv(p, b);
    case Take(size) =>
      GetUnusedInv(p, size);
      KeepsLimit(p, FirstFit(p, size, 0));
    case Clear =>
      ResetInv(p);
      MarkShape(p);
      DropFirstFacts(MarkUsed(p), |p.listUnused|);
  }

  lemma KeepsLimit(p: Pool, k: nat)
    requires Shape(p) && k <= |p.listUnused|
    ensures DropFirst(p, k).limitCount == p.limitCount
  {
    DropFirstFacts(p, k);
  }

  ghost predicate IsRun(run: seq<Pool>, ops: seq<Op>) {
    && |run| == |ops| + 1
    && forall i :: 0 <= i < |ops| ==>
         Callable(run[i], ops[i]) && run[i + 1] == Apply(run[i], ops[i])
  }

  lemma StepOfRun(run: seq<Pool>, ops: seq<Op>, i: nat)
    requires IsRun(run, ops) && 0 < i < |run| && Inv(run[i - 1])
    ensures Inv(run[i])
    ensures WithinLimit(run[i - 1]) && (ops[i - 1].Limit? ==> run[i - 1].bufferCount == 0) ==> WithinLimit(run[i])
  {
    ApplyInv(run[i - 1], ops[i - 1]);
    assert run[i] == Apply(run[i - 1], ops[i - 1]);
  }

  /** In every run the books balance at every point ... */
  lemma RunInv(run: seq<Pool>, ops: seq<Op>, at: nat)
    requires IsRun(run, ops) && at < |run| && Inv(run[0])
    ensures Inv(run[at])
  {
    forall i | 0 < i <= at && Inv(run[i - 1]) ensures Inv(run[i]) {
      StepOfRun(run, ops, i);
    }
    Induct(run, p => Inv(p), 0, at);
  }

  /** ... and limits set only while the group is empty are never exceeded. */
  lemma RunLimit(run: seq<Pool>, ops: seq<Op>, at: nat)
    requires IsRun(run, ops) && at < |run| && Inv(run[0]) && WithinLimit(run[0])
    requires forall i :: 0 <= i < at && ops[i].Limit? ==> run[i].bufferCount == 0
    ensures WithinLimit(run[at])
  {
    forall i | 0 < i <= at && WithinLimit(run[i - 1]) ensures WithinLimit(run[i]) {
      RunInv(run, ops, i - 1);
      StepOfRun(run, ops, i);
    }
    Induct(run, p => WithinLimit(p), 0, at);
  }

  // ---- the mutable group -----------------------------------------------------------------

  /** The search as the loop runs it: look at one buffer, take it, destroy it or step over. */
  function Search(p: Pool, size: nat, i: nat): (Option<Id>, Pool)
    decreases |p.listUnused| - i
  {
    if i >= |p.listUnused| then (None, p)
    else
      var b := p.listUnused[i];
      if SizeOf(p.bufs, b) >= size then (Some(b), IncRef(p, b))
      else if p.internal then Search(Drop(p, b), size, i)
      else Search(p, size, i + 1)
  }

  lemma {:induction false} FitAfterDrop(p: Pool, size: nat, i: nat)
    requires Shape(p) && i < |p.listUnused|
    ensures var d := Drop(p, p.listUnused[0]);
            |d.listUnused| == |p.listUnused| - 1 && FirstFit(p, size, i + 1) == FirstFit(d, size, i) + 1
    decreases |p.listUnused| - i
  {
    var b := p.listUnused[0];
    assert b in p.listUnused;
    KeepsShape(p, b);
    if i + 1 < |p.listUnused| {
      FitAfterDrop(p, size, i + 1);
      assert p.listUnused[i + 1] != b;
    }
  }

  /** The loop computes the first fit: internal groups shrink from the front ... */
  lemma {:induction false} SearchInternal(p: Pool, size: nat)
    requires Shape(p) && p.internal
    ensures Search(p, size, 0) == GetUnused(p, size)
    decreases |p.listUnused|
  {
    if p.listUnused != [] {
      var b := p.listUnused[0];
      KeepsShape(p, b);
      if SizeOf(p.bufs, b) < size {
        SearchInternal(Drop(p, b), size);
        GetAfterDrop(p, size);
      }
    }
  }

  lemma GetAfterDrop(p: Pool, size: nat)
    requires Shape(p) && p.internal && p.listUnused != [] && SizeOf(p.bufs, p.listUnused[0]) < size
    ensures p.listUnused[0] in p.bufs && Shape(Drop(p, p.listUnused[0]))
    ensures GetUnused(p, size) == GetUnused(Drop(p, p.listUnused[0]), size)
  {
    var b := p.listUnused[0];
    assert b in p.listUnused;
    KeepsShape(p, b);
    var d, k := Drop(p, b), FirstFit(p, size, 0);
    FitAfterDrop(p, size, 0);
    assert k == FirstFit(p, size, 1) == FirstFit(d, size, 0) + 1;
    assert DropFirst(p, k) == DropFirst(d, k - 1);
  }

  /** ... and external groups are only looked at. */
  lemma {:induction false} SearchExternal(p: Pool, size: nat, i: nat)
    requires Shape(p) && !p.internal && i <= |p.listUnused|
    ensures var k := FirstFit(p, size, i);
            Search(p, size, i) == TakeAt(p, k)
    decreases |p.listUnused| - i
  {
    if i < |p.listUnused| {
      SearchExternal(p, size, i + 1);
    }
  }

  lemma SearchIsFirstFit(p: Pool, size: nat)
    requires Shape(p)
    ensures Search(p, size, 0) == GetUnused(p, size)
  {
    if p.internal {
      SearchInternal(p, size);
    } else {
      SearchExternal(p, size, 0);
    }
  }

  /** What happens to a buffer whose count has reached zero. */
  function Released(p: Pool, b: Id): Pool
    requires b in p.bufs
  {
    var idle := p.(bufs := p.bufs[b := p.bufs[b].(used := false)],
                   listUsed := Without(p.listUsed, b), countUsed := p.countUsed - 1);
    if p.misc || p.bufs[b].discard then Deinit(idle, b)
    else idle.(listUnused := p.listUnused + [b], countUnused := p.countUnused + 1)
  }

  lemma LastStep(p: Pool, b: Id)
    requires b in p.bufs && p.bufs[b].refs == 1
    ensures DecRef(p, b) == Released(p.(bufs := p.bufs[b := p.bufs[b].(refs := 0)]), b)
  {
    var zero := p.bufs[b := p.bufs[b].(refs := 0)];
    assert zero[b := zero[b].(used := false)] == p.bufs[b := p.bufs[b].(refs := 0, used := false)];
  }

  class BufferGroup {
    const internal: bool
    const misc: bool
    var bufs: map<Id, Buffer>
    var listUsed: seq<Id>
    var listUnused: seq<Id>
    var countUsed: int
    var countUnused: int
    var bufferCount: int
    var usage: int
    var limitCount: int
    var limitSize: nat
    var nextId: Id

    ghost function Value(): Pool
      reads this
    {
      Pool(internal, misc, bufs, listUsed, listUnused, countUsed, countUnused, bufferCount, usage,
           limitCount, limitSize, nextId)
    }

    constructor (internal: bool, misc: bool)
      ensures Value() == Empty(internal, misc)
    {
      this.internal, this.misc := internal, misc;
      bufs, listUsed, listUnused := map[], [], [];
      countUsed, countUnused, bufferCount, usage := 0, 0, 0, 0;
      limitCount, limitSize, nextId := 0, 0, 0;
    }

    method RefInc(b: Id)
      requires b in bufs
      modifies this
      ensures Value() == IncRef(old(Value()), b)
    {
      if !bufs[b].used {
        bufs := bufs[b := bufs[b].(used := true)];
        listUnused := Without(listUnused, b);
        listUsed := listUsed + [b];
        countUsed, countUnused := countUsed + 1, countUnused - 1;
      }
      bufs := bufs[b := bufs[b].(refs := bufs[b].refs + 1)];
    }

    method DeinitBuffer(b: Id)
      modifies this
      ensures Value() == Deinit(old(Value()), b)
    {
      listUsed, listUnused := Without(listUsed, b), Without(listUnused, b);
      usage := usage - SizeOf(bufs, b);
      bufferCount := bufferCount - 1;
      bufs := bufs - {b};
    }

    method RefDec(b: Id)
      requires b in bufs
      modifies this
      ensures Value() == DecRef(old(Value()), b)
    {
      if bufs[b].refs == 0 {
        return;
      }
      ghost var p := Value();
      bufs := bufs[b := bufs[b].(refs := bufs[b].refs - 1)];
      if bufs[b].refs == 0 {
        LastStep(p, b);
        LastRef(b);
      }
    }

    /** The count has reached zero: off the used list, then back to the unused one, or away. */
    method LastRef(b: Id)
      requires b in bufs
      modifies this
      ensures Value() == Released(old(Value()), b)
    {
      bufs := bufs[b := bufs[b].(used := false)];
      listUsed := Without(listUsed, b);
      if misc || bufs[b].discard {
        DeinitBuffer(b);
      } else {
        listUnused := listUnused + [b];
        countUnused := countUnused + 1;
      }
      countUsed := countUsed - 1;
    }

    method CreateBuffer(size: nat, take: bool) returns (r: Option<Id>)
      modifies this
      ensures (r, Value()) == Create(old(Value()), size, take)
    {
      if limitCount != 0 && bufferCount >= limitCount {
        return None;
      }
      if limitSize != 0 && size > limitSize {
        return None;
      }
      var b := nextId;
      bufs := bufs[b := Buffer(size, 0, false, false)];
      listUnused := listUnused + [b];
      nextId := nextId + 1;
      usage, bufferCount, countUnused := usage + size, bufferCount + 1, countUnused + 1;
      if take {
        RefInc(b);
      }
      r := Some(b);
    }

    /** The search deletes while it iterates. */
    method TakeUnused(size: nat) returns (r: Option<Id>)
      requires Shape(Value())
      modifies this
      ensures (r, Value()) == GetUnused(old(Value()), size)
    {
      ghost var p := Value();
      SearchIsFirstFit(p, size);
      var i: nat := 0;
      r := None;
      while i < |listUnused|
        invariant Shape(Value()) && Search(Value(), size, i) == Search(p, size, 0)
        decreases |listUnused| - i
      {
        var pos := listUnused[i];
        assert pos in listUnused;
        if bufs[pos].size >= size {
          RefInc(pos);
          return Some(pos);
        } else if internal {
          KeepsShape(Value(), pos);
          DropUnused(pos);
        } else {
          i := i + 1;
        }
      }
    }

    method DropUnused(b: Id)
      requires b in listUnused
      modifies this
      ensures Value() == Drop(old(Value()), b) && |listUnused| == |old(listUnused)| - 1
    {
      DeinitBuffer(b);
      countUnused := countUnused - 1;
    }

    method GroupReset()
      requires Shape(Value())
      modifies this
      ensures Value() == Reset(old(Value()))
    {
      MarkAllUsed();
      DropAllUnused();
    }

    method DropAllUnused()
      modifies this
      ensures Value() == DropFirst(old(Value()), |old(listUnused)|)
    {
      ghost var m := Value();
      while listUnused != []
        invariant DropFirst(Value(), |listUnused|) == DropFirst(m, |m.listUnused|)
        decreases |listUnused|
      {
        ghost var v := Value();
        assert DropFirst(v, |v.listUnused|) == DropFirst(Drop(v, v.listUnused[0]), |v.listUnused| - 1);
        DropUnused(listUnused[0]);
      }
    }

    method MarkAllUsed()
      requires Shape(Value())
      modifies this
      ensures Value() == MarkUsed(old(Value()))
    {
      ghost var p := Value();
      for i := 0 to |listUsed|
        invariant Value() == p.(bufs := bufs) && bufs.Keys == p.bufs.Keys
        invariant forall b :: b in p.bufs ==>
                    bufs[b] == if b in listUsed[..i] then p.bufs[b].(discard := true) else p.bufs[b]
      {
        var pos := listUsed[i];
        assert pos in p.listUsed;
        bufs := bufs[pos := bufs[pos].(discard := true)];
      }
      assert listUsed[..|listUsed|] == listUsed;
    }
  }
}
