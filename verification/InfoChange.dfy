/** The detection of a change in the picture geometry (mpp/base/mpp_buf_slot.cpp): every
    frame description set on a slot is turned into the geometry the hardware needs and
    compared with the geometry in force (mpp/base/mpp_frame.cpp); `ready` puts the last
    one derived into force. */
module InfoChange {
  import opened Wrappers

  type U32 = n: nat | n < 0x1_0000_0000

  function Wrap(n: nat): U32 { n % 0x1_0000_0000 }

  /** The fields of a frame the parser sets. */
  datatype Frame = Frame(width: U32, height: U32, fmt: U32, horStride: U32, verStride: U32)

  /** The two semi-planar formats with ten bits a sample. */
  const YUV420SP_10BIT: U32 := 1
  const YUV422SP_10BIT: U32 := 3

  function Depth(fmt: U32): nat { if fmt == YUV420SP_10BIT || fmt == YUV422SP_10BIT then 10 else 8 }

  /** The fields mpp_frame_info_cmp compares. */
  datatype Geometry = Geometry(width: U32, height: U32, fmt: U32, horStride: U32, verStride: U32, bufSize: U32)

  /** The hardware's alignment rules and the bytes per pixel, as set up by the hardware layer. */
  datatype Rules = Rules(hor: U32 -> U32, ver: U32 -> U32, len: Option<U32 -> U32>, numerator: U32, denominator: U32)

  // ---- generate_info_set -----------------------------------------------------------------

  function HorStride(r: Rules, f: Frame, force: bool): U32 {
    if f.horStride == 0 then (r.hor)(Wrap(f.width * Depth(f.fmt)) / 8)
    else if force then f.horStride
    else (r.hor)(f.horStride)
  }

  function VerStride(r: Rules, f: Frame, force: bool): U32 {
    if f.verStride == 0 then (r.ver)(f.height)
    else if force then f.verStride
    else (r.ver)(f.verStride)
  }

  function BufSize(r: Rules, hor: U32, ver: U32): U32
    requires r.denominator != 0
  {
    var area := Wrap(hor * ver);
    if r.len.Some? then (r.len.value)(area) else Wrap(area * r.numerator) / r.denominator
  }

  function Derive(r: Rules, f: Frame, force: bool): Geometry
    requires r.denominator != 0
  {
    var hor, ver := HorStride(r, f, force), VerStride(r, f, force);
    Geometry(f.width, f.height, f.fmt, hor, ver, BufSize(r, hor, ver))
  }

  // ---- the mark ------------------------------------------------------------------------------

  /** `info` is in force, `infoSet` is the last geometry derived. */
  datatype State = State(info: Geometry, infoSet: Geometry, bufSize: U32, changed: bool)

  datatype Op = SetFrame(f: Frame) | Ready | Preset(f: Frame)

  function Apply(r: Rules, s: State, op: Op): State
    requires r.denominator != 0
  {
    match op
    case SetFrame(f) =>
      var g := Derive(r, f, false);
      State(s.info, g, g.bufSize, s.changed || s.info != g)
    case Ready => State(s.infoSet, s.infoSet, s.infoSet.bufSize, false)
    case Preset(f) =>
      var g := Derive(r, f, true);
      State(g, g, g.bufSize, s.changed)
  }

  function Run(r: Rules, s: State, ops: seq<Op>): State
    requires r.denominator != 0
  {
    if ops == [] then s else Apply(r, Run(r, s, ops[..|ops| - 1]), ops[|ops| - 1])
  }

  ghost predicate AllFrames(ops: seq<Op>) { forall i :: 0 <= i < |ops| ==> ops[i].SetFrame? }

  /** Until the next `ready` the mark tells whether any frame differed from the geometry in
      force; that geometry does not move; and the last frame decides what `ready` installs. */
  lemma {:induction false} MarkMeans(r: Rules, s: State, ops: seq<Op>)
    requires r.denominator != 0 && AllFrames(ops)
    ensures var s' := Run(r, s, ops);
            && s'.info == s.info
            && (s'.changed <==> s.changed || exists i :: 0 <= i < |ops| && Derive(r, ops[i].f, false) != s.info)
            && s'.infoSet == (if ops == [] then s.infoSet else Derive(r, ops[|ops| - 1].f, false))
  {
    if ops != [] {
      var n := |ops| - 1;
      var before := ops[..n];
      MarkMeans(r, s, before);
      if exists i :: 0 <= i < n && Derive(r, before[i].f, false) != s.info {
        var i :| 0 <= i < n && Derive(r, before[i].f, false) != s.info;
        assert ops[i] == before[i];
      }
      forall i | 0 <= i < |ops| && Derive(r, ops[i].f, false) != s.info
        ensures i == n || exists k :: 0 <= k < n && Derive(r, before[k].f, false) != s.info
      {
        if i < n {
          assert before[i] == ops[i];
        }
      }
    }
  }

  /** After frames that end with f and a `ready`, a frame raises the mark exactly when its
      geometry differs from f's: the same description never does. */
  lemma QuietAfterReady(r: Rules, s: State, ops: seq<Op>, f: Frame, f': Frame)
    requires r.denominator != 0 && AllFrames(ops)
    ensures var s' := Apply(r, Run(r, s, ops + [SetFrame(f)]), Ready);
            && s'.info == Derive(r, f, false) && !s'.changed
            && (Apply(r, s', SetFrame(f')).changed <==> Derive(r, f', false) != Derive(r, f, false))
            && !Apply(r, s', SetFrame(f)).changed
  {
    MarkMeans(r, s, ops + [SetFrame(f)]);
  }

  /** A geometry preset by the user is taken with its strides as they are: the first frame with
      the same description raises the mark exactly when a stride given is not aligned. */
  lemma PresetQuietIff(r: Rules, s: State, f: Frame)
    requires r.denominator != 0 && !s.changed
    ensures !Apply(r, Apply(r, s, Preset(f)), SetFrame(f)).changed <==>
              (f.horStride != 0 ==> (r.hor)(f.horStride) == f.horStride)
              && (f.verStride != 0 ==> (r.ver)(f.verStride) == f.verStride)
  {
  }

  // ---- the mutable fields ----------------------------------------------------------------------

  class Detector {
    const rules: Rules
    var info: Geometry
    var infoSet: Geometry
    var bufSize: U32
    var changed: bool

    ghost function Value(): State
      reads this
    {
      State(info, infoSet, bufSize, changed)
    }

    constructor (rules: Rules, info: Geometry)
      ensures this.rules == rules && Value() == State(info, info, info.bufSize, false)
    {
      this.rules := rules;
      this.info, infoSet, bufSize, changed := info, info, info.bufSize, false;
    }

    /** generate_info_set. */
    method Generate(f: Frame, force: bool)
      requires rules.denominator != 0
      modifies this`infoSet, this`bufSize
      ensures infoSet == Derive(rules, f, force) && bufSize == infoSet.bufSize
    {
      var depth := if f.fmt == YUV420SP_10BIT || f.fmt == YUV422SP_10BIT then 10 else 8;
      var hor := if f.horStride != 0 then (rules.hor)(f.horStride) else (rules.hor)(Wrap(f.width * depth) / 8);
      var ver := if f.verStride != 0 then (rules.ver)(f.verStride) else (rules.ver)(f.height);
      if force && f.horStride != 0 {
        hor := f.horStride;
      }
      if force && f.verStride != 0 {
        ver := f.verStride;
      }
      var area := Wrap(hor * ver);
      var size: U32 := Wrap(area * rules.numerator) / rules.denominator;
      if rules.len.Some? {
        size := (rules.len.value)(area);
      }
      infoSet := Geometry(f.width, f.height, f.fmt, hor, ver, size);
      bufSize := size;
    }

    method SetFrameInfo(f: Frame)
      requires rules.denominator != 0
      modifies this
      ensures Value() == Apply(rules, old(Value()), SetFrame(f))
    {
      Generate(f, false);
      if info != infoSet {
        changed := true;
      }
    }

    method MakeReady()
      requires rules.denominator != 0
      modifies this
      ensures Value() == Apply(rules, old(Value()), Ready)
    {
      info := infoSet;
      bufSize := info.bufSize;
      changed := false;
    }

    method PresetInfo(f: Frame)
      requires rules.denominator != 0
      modifies this
      ensures Value() == Apply(rules, old(Value()), Preset(f))
    {
      Generate(f, true);
      info := infoSet;
    }
  }
}
