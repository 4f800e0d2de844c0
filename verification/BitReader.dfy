/** The NAL bit reader (mpp/base/mpp_bitread.c). Its state is refined by one value,
    `Remaining()`, the list of bits still to come once emulation prevention bytes
    are gone; every call is specified on that list alone. */
module BitReader {
  import opened Bits
  import opened Rbsp

  // ---- shifting bytes into a 32-bit accumulator --------------------------------

  /** `*out |= curr << k`, kept in 32 bits. */
  function ShiftIn(out: nat, curr: Byte, k: nat): nat {
    Low(Or(out, Shl(curr, k)), 32)
  }

  /** `*out |= curr >> k`, kept in 32 bits, then the mask of n bits. */
  function Finish(out: nat, curr: Byte, k: nat, n: nat): nat {
    Low(Low(Or(out, Shr(curr, k)), 32), n)
  }

  /** A read of |taken| + todo bits under way: `taken` has been gathered in `out`, with
      room for the `todo` missing bits. Above its unread bits the current byte holds
      stale ones; they fall outside the wanted bits on the first byte, and a byte just
      loaded has none. */
  ghost predicate Gathered(taken: seq<bool>, todo: nat, left: nat, out: nat) {
    && |taken| + todo <= 31
    && Low(out, |taken| + todo) == Shl(Val(taken), todo)
    && ((out == 0 && taken == []) || left == 8)
  }

  /** A fresh byte in a wider word: zeros, then its bits. */
  lemma FreshByte(curr: Byte, n: nat)
    requires n >= 8
    ensures Msb(curr, n) == Zeros(n - 8) + Msb(curr, 8)
  {
    Pow2Step(0);
    ShrSmall(curr, 8);
    MsbShr(curr, 8, n - 8);
    MsbZero(n - 8);
  }

  /** The first 8 - k bits of a fresh byte in a wider word. */
  lemma FreshHigh(curr: Byte, k: nat, n: nat)
    requires k <= 8 && 8 - k <= n
    ensures Msb(Shr(curr, k), n) == Zeros(n - (8 - k)) + Msb(Shr(curr, k), 8 - k)
  {
    var y := Shr(curr, k);
    FreshByte(curr, n + k);
    MsbShr(curr, k, n);
    MsbShr(curr, k, 8 - k);
    var wide := Zeros(n + k - 8) + (Msb(y, 8 - k) + Msb(curr, k));
    assert Msb(y, n) == wide[..n];
  }

  lemma Overlay(a: seq<bool>, b: seq<bool>, t: nat)
    ensures Either(a + Zeros(|b| + t), Zeros(|a|) + b + Zeros(t)) == a + b + Zeros(t)
  {
  }

  /** Two words that do not overlap: the first part from one, the next from the other. */
  lemma OrPlaced(x: nat, y: nat, a: seq<bool>, b: seq<bool>, t: nat)
    requires |a| + |b| + t <= 32
    requires Msb(x, |a| + |b| + t) == a + Zeros(|b| + t)
    requires Msb(y, |a| + |b| + t) == Zeros(|a|) + b + Zeros(t)
    ensures Msb(Low(Or(x, y), 32), |a| + |b| + t) == a + b + Zeros(t)
  {
    var n := |a| + |b| + t;
    MsbOr(x, y, n);
    Overlay(a, b, t);
    MsbLow(Or(x, y), 32, n);
  }

  /** One whole byte, or what was left of the first one. */
  lemma GatherByte(taken: seq<bool>, todo: nat, out: nat, curr: Byte, left: nat)
    requires Gathered(taken, todo, left, out) && left < todo
    ensures Gathered(taken + Msb(curr, left), todo - left, 8, ShiftIn(out, curr, todo - left))
  {
    MsbPadded(out, taken, todo);
    ByteJoins(taken, Msb(curr, left), todo - left, out, curr, left);
  }

  lemma ByteJoins(taken: seq<bool>, byte: seq<bool>, t: nat, out: nat, curr: Byte, left: nat)
    requires (taken == [] || left == 8) && byte == Msb(curr, left) && |taken| + left + t <= 31
    requires Msb(out, |taken| + (left + t)) == taken + Zeros(left + t)
    ensures Low(ShiftIn(out, curr, t), |taken + byte| + t) == Shl(Val(taken + byte), t)
  {
    ByteInPlace(|taken|, curr, left, t);
    OrPlaced(out, Shl(curr, t), taken, byte, t);
    MsbPadded(ShiftIn(out, curr, t), taken + byte, t);
  }

  lemma ByteInPlace(k: nat, curr: Byte, left: nat, t: nat)
    requires k == 0 || left == 8
    ensures Msb(Shl(curr, t), k + left + t) == Zeros(k) + Msb(curr, left) + Zeros(t)
  {
    MsbShl(curr, t, k + left + t);
    if left == 8 {
      FreshByte(curr, k + left);
    } else {
      assert Zeros(0) + Msb(curr, left) == Msb(curr, left);
    }
  }

  /** The last bits, from the top of the unread ones. */
  lemma GatherLast(taken: seq<bool>, todo: nat, out: nat, curr: Byte, left: nat)
    requires Gathered(taken, todo, left, out) && todo <= left
    ensures var y := Shr(curr, left - todo);
            Finish(out, curr, left - todo, |taken| + todo) == Val(taken + Msb(y, todo))
  {
    var n, y := |taken| + todo, Shr(curr, left - todo);
    MsbPadded(out, taken, todo);
    LastBits(|taken|, curr, left, todo);
    OrPlacedLast(out, y, taken, Msb(y, todo));
    ValMsb(Low(Or(out, y), 32), n);
  }

  lemma OrPlacedLast(x: nat, y: nat, a: seq<bool>, b: seq<bool>)
    requires |a| + |b| <= 32
    requires Msb(x, |a| + |b|) == a + Zeros(|b|) && Msb(y, |a| + |b|) == Zeros(|a|) + b
    ensures Msb(Low(Or(x, y), 32), |a| + |b|) == a + b
  {
    var n := |a| + |b|;
    MsbOr(x, y, n);
    OverlayLast(a, b);
    MsbLow(Or(x, y), 32, n);
  }

  lemma LastBits(k: nat, curr: Byte, left: nat, todo: nat)
    requires todo <= left && (k == 0 || left == 8)
    ensures var y := Shr(curr, left - todo); Msb(y, k + todo) == Zeros(k) + Msb(y, todo)
  {
    if left == 8 {
      FreshHigh(curr, left - todo, k + todo);
    } else {
      assert Zeros(0) == [];
    }
  }

  lemma NothingYet(n: nat, left: nat)
    requires n <= 31
    ensures Gathered([], n, left, 0)
  {
    MsbPadded(0, [], n);
    MsbZero(n);
  }

  /** Cutting a list known as two parts. */
  lemma Cut(a: seq<bool>, b: seq<bool>)
    ensures (a + b)[..|a|] == a && (a + b)[|a|..] == b
  {
  }

  // ---- the reader ------------------------------------------------------------------

  /** What a read or skip that runs out of bits leaves: the last byte, whole. */
  function AfterFailure(before: seq<bool>): seq<bool> {
    if |before| >= 8 then before[|before| - 8..] else before
  }

  /** What a ue(v) read leaves, in all four of its outcomes. */
  function AfterUe(before: seq<bool>): seq<bool> {
    var z := LeadingZeros(before);
    if z == |before| then []
    else if z > 31 then before[z + 1..]
    else if |before| < 2 * z + 1 then AfterFailure(before[z + 1..])
    else before[2 * z + 1..]
  }

  // ---- the simple reader: nothing but a list of bits -----------------------------

  datatype Call = Read(n: nat) | Skip(n: nat) | Show(n: nat) | Ue | Se

  datatype Answer = Failed | Value(v: int)

  /** One call on the list: the answer, and the list left. */
  function SimpleCall(bits: seq<bool>, c: Call): (Answer, seq<bool>) {
    match c
    case Read(n) =>
      if n > 31 then (Failed, bits)
      else if n > |bits| then (Failed, AfterFailure(bits))
      else (Value(Val(bits[..n])), bits[n..])
    case Skip(n) => if n > |bits| then (Failed, AfterFailure(bits)) else (Value(0), bits[n..])
    case Show(n) => if n > |bits| then (Failed, bits) else (Value(Val(bits[..n])), bits)
    case Ue => (if UeDecode(bits).Some? then Value(UeDecode(bits).value.0) else Failed, AfterUe(bits))
    case Se => (if UeDecode(bits).Some? then Value(UeToSe(UeDecode(bits).value.0)) else Failed, AfterUe(bits))
  }

  function SimpleRun(bits: seq<bool>, calls: seq<Call>): (seq<Answer>, seq<bool>) {
    if calls == [] then ([], bits)
    else
      var (answers, rest) := SimpleRun(bits, calls[..|calls| - 1]);
      var (a, rest') := SimpleCall(rest, calls[|calls| - 1]);
      (answers + [a], rest')
  }

  /** What prev_two_bytes_ knows of the bytes behind the pointer. */
  ghost predicate Tracks(prevTwo: nat, seen: seq<Byte>) {
    && (prevTwo % 0x100 == 0 <==> |seen| >= 1 && seen[|seen| - 1] == 0)
    && (prevTwo == 0 <==> |seen| >= 2 && seen[|seen| - 1] == 0 && seen[|seen| - 2] == 0)
  }

  /** Bits in the middle of four pieces. */
  lemma CutInside(taken: seq<bool>, y: seq<bool>, low: seq<bool>, rest: seq<bool>)
    ensures var before := taken + ((y + low) + rest);
            |taken| + |y| <= |before| && before[..|taken| + |y|] == taken + y && before[|taken| + |y|..] == low + rest
  {
    Regroup(y, low, rest);
    Regroup(taken, y, low + rest);
    Cut(taken + y, low + rest);
  }

  class Reader {
    const data: seq<Byte>
    const detect: bool
    var pos: nat          // data_, as an index
    var bytesLeft: nat
    var curr: Byte
    var left: nat         // num_remaining_bits_in_curr_byte_
    var prevTwo: nat      // the low 16 bits of prev_two_bytes_
    var usedBits: nat

    ghost predicate Valid()
      reads this
    {
      pos + bytesLeft == |data| && left <= 8 && Tracks(prevTwo, data[..pos])
    }

    ghost function Rest(): seq<Byte>
      reads this
      requires Valid()
    {
      Payload(data, detect, pos)
    }

    /** The bits still to come. */
    ghost function Remaining(): (r: seq<bool>)
      reads this
      requires Valid()
      ensures |r| == left + 8 * |Rest()|
    {
      Msb(curr, left) + BitsOf(Rest())
    }

    /** The whole register state, for calls that restore it. */
    ghost function Snapshot(): (nat, nat, Byte, nat, nat, nat)
      reads this
    {
      (pos, bytesLeft, curr, left, prevTwo, usedBits)
    }

    constructor (data: seq<Byte>, detect: bool)
      ensures Valid() && this.data == data && this.detect == detect
      ensures Remaining() == BitsOf(Payload(data, detect, 0)) && usedBits == 0
    {
      this.data, this.detect := data, detect;
      pos, bytesLeft := 0, |data|;
      curr, left := 0, 0;
      prevTwo := 0xffff;
      usedBits := 0;
    }

    method UpdateCurrByte() returns (ok: bool)
      requires Valid()
      modifies this
      ensures Valid() && usedBits == old(usedBits)
      ensures ok <==> old(Rest()) != []
      ensures ok ==> left == 8 && [curr] + Rest() == old(Rest())
      ensures !ok ==> left == old(left) && curr == old(curr) && Rest() == []
    {
      if bytesLeft < 1 {
        return false;
      }
      if detect && data[pos] == 3 && prevTwo == 0 {
        assert Rest() == Payload(data, detect, pos + 1);
        pos := pos + 1;
        bytesLeft := bytesLeft - 1;
        prevTwo := 0xffff;
        if bytesLeft < 1 {
          return false;
        }
      }
      assert !(detect && IsEmulation(data, pos));
      assert Rest() == old(Rest()) == [data[pos]] + Payload(data, detect, pos + 1);
      curr := data[pos];
      pos := pos + 1;
      bytesLeft := bytesLeft - 1;
      left := 8;
      prevTwo := (prevTwo % 0x100) * 0x100 + curr;
      ok := true;
    }

    /** Takes the last k bits off the current byte and counts the n bits of the call. */
    method Consume(k: nat, n: nat, ghost before: seq<bool>, ghost taken: seq<bool>)
      requires Valid() && k <= left && |taken| + k == n && before == taken + Remaining()
      modifies this
      ensures Valid() && usedBits == old(usedBits) + n
      ensures n <= |before| && Remaining() == before[n..]
      ensures before[..n] == taken + Msb(Shr(old(curr), old(left) - k), k)
    {
      ghost var y := Msb(Shr(curr, left - k), k);
      MsbShr(curr, left - k, k);
      CutInside(taken, y, Msb(curr, left - k), BitsOf(Rest()));
      left := left - k;
      usedBits := usedBits + n;
    }

    /** Leaves the current byte behind and loads the next one. */
    method NextByte(ghost before: seq<bool>, ghost taken: seq<bool>) returns (ok: bool)
      requires Valid() && before == taken + Remaining() && (taken == [] || left == 8)
      modifies this
      ensures Valid() && usedBits == old(usedBits)
      ensures ok ==> left == 8 && before == (taken + old(Msb(curr, left))) + Remaining() && |Rest()| < |old(Rest())|
      ensures !ok ==> |before| == |taken| + old(left) && Remaining() == AfterFailure(before)
    {
      Regroup(taken, Msb(curr, left), BitsOf(Rest()));
      ok := UpdateCurrByte();
    }

    /** One round of it: what is left of the current byte, and the next byte loaded. */
    method GatherOne(todo: nat, out: nat, ghost taken: seq<bool>, ghost before: seq<bool>)
      returns (ok: bool, todo': nat, out': nat, ghost taken': seq<bool>)
      requires Valid() && before == taken + Remaining() && Gathered(taken, todo, left, out) && left < todo
      modifies this
      ensures Valid() && usedBits == old(usedBits)
      ensures ok ==> Gathered(taken', todo', left, out') && before == taken' + Remaining()
      ensures ok ==> |taken'| + todo' == |taken| + todo && todo' <= todo && |Rest()| < |old(Rest())|
      ensures !ok ==> |taken| + todo > |before| && Remaining() == AfterFailure(before)
    {
      GatherByte(taken, todo, out, curr, left);
      out', todo', taken' := ShiftIn(out, curr, todo - left), todo - left, taken + Msb(curr, left);
      ok := NextByte(before, taken);
    }

    /** The loop of a read: whole bytes, until the current one holds all the bits
        still missing. */
    method GatherBytes(n: nat) returns (ok: bool, todo: nat, out: nat, ghost taken: seq<bool>)
      requires Valid() && n <= 31
      modifies this
      ensures Valid() && usedBits == old(usedBits)
      ensures ok ==> todo <= left && |taken| + todo == n && old(Remaining()) == taken + Remaining()
      ensures ok ==> Gathered(taken, todo, left, out)
      ensures !ok ==> n > |old(Remaining())| && Remaining() == AfterFailure(old(Remaining()))
    {
      todo, out, taken := n, 0, [];
      ghost var before := Remaining();
      NothingYet(n, left);
      while left < todo
        invariant Valid() && usedBits == old(usedBits)
        invariant |taken| + todo == n && before == taken + Remaining()
        invariant Gathered(taken, todo, left, out)
        decreases todo, |Rest()|
      {
        ok, todo, out, taken := GatherOne(todo, out, taken, before);
        if !ok {
          return;
        }
      }
      ok := true;
    }

    method ReadBits(n: nat) returns (ok: bool, out: nat)
      requires Valid()
      modifies this
      ensures Valid()
      ensures ok <==> n <= 31 && n <= |old(Remaining())|
      ensures ok ==> out == Val(old(Remaining())[..n])
      ensures ok ==> Remaining() == old(Remaining())[n..] && usedBits == old(usedBits) + n
      ensures !ok && n > 31 ==> Snapshot() == old(Snapshot())
      ensures !ok && n <= 31 ==> Remaining() == AfterFailure(old(Remaining())) && usedBits == old(usedBits)
    {
      if n > 31 {
        return false, 0;
      }
      ghost var before, taken := Remaining(), [];
      var todo;
      ok, todo, out, taken := GatherBytes(n);
      if ok {
        GatherLast(taken, todo, out, curr, left);
        out := Finish(out, curr, left - todo, n);
        Consume(todo, n, before, taken);
      }
    }

    method SkipBits(n: nat) returns (ok: bool)
      requires Valid()
      modifies this
      ensures Valid()
      ensures ok <==> n <= |old(Remaining())|
      ensures ok ==> Remaining() == old(Remaining())[n..] && usedBits == old(usedBits) + n
      ensures !ok ==> Remaining() == AfterFailure(old(Remaining())) && usedBits == old(usedBits)
    {
      var todo: nat := n;
      ghost var before, taken := Remaining(), [];
      while left < todo
        invariant Valid() && usedBits == old(usedBits)
        invariant |taken| + todo == n && before == taken + Remaining()
        invariant taken == [] || left == 8
        decreases todo, |Rest()|
      {
        todo := todo - left;
        ghost var more := taken + Msb(curr, left);
        var loaded := NextByte(before, taken);
        if !loaded {
          return false;
        }
        taken := more;
      }
      Consume(todo, n, before, taken);
      ok := true;
    }

    /** mpp_read_longbits at 32 bits: two halves of 16. */
    method ReadLong32() returns (ok: bool, out: nat)
      requires Valid()
      modifies this
      ensures Valid()
      ensures ok <==> 32 <= |old(Remaining())|
      ensures ok ==> out == Val(old(Remaining())[..32]) && Remaining() == old(Remaining())[32..]
      ensures ok ==> usedBits == old(usedBits) + 32
    {
      ghost var before := Remaining();
      var hi, lo;
      out := 0;
      ok, hi := ReadBits(16);
      if !ok {
        return;
      }
      ok, lo := ReadBits(16);
      if !ok {
        return;
      }
      out := Low(Or(Low(Shl(hi, 16), 32), lo), 32);
      Thirds(before);
      JoinHalves(before[..16], before[16..][..16]);
    }

    /** Reads and puts every register back. */
    method ShowBits(n: nat) returns (ok: bool, out: nat)
      requires Valid() && n <= 32
      modifies this
      ensures Valid() && Snapshot() == old(Snapshot()) && Remaining() == old(Remaining())
      ensures ok <==> n <= |old(Remaining())|
      ensures ok ==> out == Val(old(Remaining())[..n])
    {
      var p, b, c, l, t, u := pos, bytesLeft, curr, left, prevTwo, usedBits;
      if n <= 31 {
        ok, out := ReadBits(n);
      } else {
        ok, out := ReadLong32();
      }
      pos, bytesLeft, curr, left, prevTwo, usedBits := p, b, c, l, t, u;
    }

    method ReadUe() returns (ok: bool, val: nat)
      requires Valid()
      modifies this
      ensures Valid()
      ensures ok <==> UeDecode(old(Remaining())).Some?
      ensures ok ==> val == UeDecode(old(Remaining())).value.0 <= 0xFFFF_FFFE
      ensures Remaining() == AfterUe(old(Remaining()))
      ensures ok ==> usedBits == old(usedBits) + UeDecode(old(Remaining())).value.1
    {
      ghost var before := Remaining();
      val := 0;
      var zeros: nat, bit: nat := 0, 0;
      var got;
      got, bit := ReadBits(1);
      if !got {
        return false, val;
      }
      BitValue(before, 0);
      while bit == 0
        invariant Valid() && Scanned(before, zeros) && usedBits == old(usedBits) + zeros + 1
        invariant Remaining() == before[zeros + 1..]
        invariant bit == 0 <==> !before[zeros]
        decreases |before| - zeros
      {
        ghost var here := Remaining();
        got, bit := ReadBits(1);
        if !got {
          AllZeros(before, zeros);
          return false, val;
        }
        zeros := zeros + 1;
        BitValue(before, zeros);
        assert here[1..] == before[zeros + 1..];
      }
      ghost var here := Remaining();
      CodeFound(before, zeros);
      if zeros > 31 {
        return false, val;
      }
      val := Shl(1, zeros) - 1;
      if zeros > 0 {
        var rest;
        got, rest := ReadBits(zeros);
        if !got {
          return false, val;
        }
        val := val + rest;
      }
      ok := true;
    }

    method ReadSe() returns (ok: bool, val: int)
      requires Valid()
      modifies this
      ensures Valid()
      ensures ok <==> UeDecode(old(Remaining())).Some?
      ensures ok ==> val == UeToSe(UeDecode(old(Remaining())).value.0) && -0x7FFF_FFFF <= val <= 0x7FFF_FFFF
      ensures Remaining() == AfterUe(old(Remaining()))
      ensures ok ==> usedBits == old(usedBits) + UeDecode(old(Remaining())).value.1
    {
      var ue;
      ok, ue := ReadUe();
      val := 0;
      if ok {
        if ue % 2 == 0 {
          var half: int := ue / 2;
          val := -half;
        } else {
          val := ue / 2 + 1;
        }
      }
    }

    /** Any sequence of calls answers as the simple reader does, and ends where it ends. */
    method Run(calls: seq<Call>) returns (answers: seq<Answer>)
      requires Valid() && forall c :: c in calls && c.Show? ==> c.n <= 32
      modifies this
      ensures Valid() && (answers, Remaining()) == SimpleRun(old(Remaining()), calls)
    {
      ghost var before := Remaining();
      answers := [];
      for i := 0 to |calls|
        invariant Valid() && (answers, Remaining()) == SimpleRun(before, calls[..i])
      {
        assert calls[..i + 1][..i] == calls[..i];
        var a := Answered(calls[i]);
        answers := answers + [a];
      }
      assert calls[..|calls|] == calls;
    }

    method Answered(c: Call) returns (a: Answer)
      requires Valid() && (c.Show? ==> c.n <= 32)
      modifies this
      ensures Valid() && (a, Remaining()) == SimpleCall(old(Remaining()), c)
    {
      var ok, v := false, 0;
      match c {
        case Read(n) => ok, v := ReadBits(n);
        case Skip(n) => ok := SkipBits(n);
        case Show(n) => ok, v := ShowBits(n);
        case Ue => ok, v := ReadUe();
        case Se => ok, v := ReadSe();
      }
      a := if ok then Value(v) else Failed;
    }

    /** More data is reported while raw bytes remain, or payload bits do after the next one; on a
        stream closed by a stop bit that is the standard's more_rbsp_data(). */
    method HasMoreRbspData() returns (more: bool)
      requires Valid()
      modifies this
      ensures Valid() && Remaining() == old(Remaining()) && usedBits == old(usedBits)
      ensures more <==> old(Remaining()) != [] && (bytesLeft > 0 || MoreData(old(Remaining())))
      ensures Closed(data, detect) ==> (more <==> MoreData(old(Remaining())))
    {
      ghost var before := Remaining();
      if left == 0 {
        var loaded := UpdateCurrByte();
        if !loaded {
          assert before == [];
          return false;
        }
        assert Remaining() == before;
      }
      if bytesLeft > 0 {
        if Closed(data, detect) {
          ClosedPayload(data, detect, pos);
          MoreInTail(curr, left, Rest());
        }
        return true;
      }
      more := Low(curr, left - 1) != 0;
      MoreInByte(curr, left);
      assert before == Msb(curr, left);
    }
  }

  lemma MoreInTail(curr: Byte, left: nat, rest: seq<Byte>)
    requires left >= 1 && rest != [] && rest[|rest| - 1] != 0
    ensures MoreData(Msb(curr, left) + BitsOf(rest))
  {
    var j := LastByteBit(rest);
    OneFollows(Msb(curr, left), BitsOf(rest), j);
  }

  lemma OneFollows(a: seq<bool>, b: seq<bool>, j: nat)
    requires |a| >= 1 && j < |b| && b[j]
    ensures MoreData(a + b)
  {
    assert (a + b)[|a| + j];
  }

  /** The test on the last byte: a one bit below the next bit. */
  lemma MoreInByte(curr: Byte, left: nat)
    requires left >= 1
    ensures Low(curr, left - 1) != 0 <==> MoreData(Msb(curr, left))
  {
    var b, t := Msb(curr, left), Msb(curr, left - 1);
    MsbShr(curr, left - 1, 1);
    assert b[1..] == t;
    AnyBit(curr, left - 1);
    if Low(curr, left - 1) != 0 {
      var i :| 0 <= i < |t| && t[i];
      assert b[i + 1];
    }
    if MoreData(b) {
      var j :| 0 < j < |b| && b[j];
      assert t[j - 1];
    }
  }

  /** The scan for the first one bit has passed `zeros` zero bits. */
  ghost predicate Scanned(bits: seq<bool>, zeros: nat) {
    zeros < |bits| && forall i :: 0 <= i < zeros ==> !bits[i]
  }

  lemma AllZeros(bits: seq<bool>, zeros: nat)
    requires Scanned(bits, zeros) && !bits[zeros] && |bits| == zeros + 1
    ensures UeDecode(bits).None? && AfterUe(bits) == []
  {
  }

  lemma CodeFound(bits: seq<bool>, zeros: nat)
    requires Scanned(bits, zeros) && bits[zeros]
    ensures UeDecode(bits).Some? <==> zeros <= 31 && zeros <= |bits[zeros + 1..]|
    ensures UeDecode(bits).Some? ==>
              UeDecode(bits).value == (Shl(1, zeros) - 1 + Val(bits[zeros + 1..][..zeros]), 2 * zeros + 1)
    ensures UeDecode(bits).Some? ==> UeDecode(bits).value.0 <= 0xFFFF_FFFE
    ensures Shl(1, zeros) >= 1
    ensures var tail := bits[zeros + 1..];
            AfterUe(bits) == if zeros > 31 then tail
                             else if zeros > |tail| then AfterFailure(tail)
                             else tail[zeros..]
    ensures zeros == 0 ==> Val(bits[zeros + 1..][..zeros]) == 0
  {
    assert LeadingZeros(bits) == zeros;
    ShlOne(zeros);
    if zeros <= |bits[zeros + 1..]| {
      assert bits[zeros + 1..][zeros..] == bits[2 * zeros + 1..];
    }
    if UeDecode(bits).Some? {
      assert bits[zeros + 1..][..zeros] == bits[zeros + 1..2 * zeros + 1];
      UeDecodeRange(bits);
    }
  }

  lemma BitValue(bits: seq<bool>, k: nat)
    requires k < |bits|
    ensures Val(bits[k..][..1]) == (if bits[k] then 1 else 0)
  {
    assert bits[k..][..1] == [bits[k]];
    assert Val([]) == 0;
  }

  lemma Thirds(bits: seq<bool>)
    requires |bits| >= 32
    ensures bits[..16] + bits[16..][..16] == bits[..32] && bits[16..][16..] == bits[32..]
  {
  }

  /** (hi << 16) | lo, in 32 bits. */
  lemma JoinHalves(a: seq<bool>, b: seq<bool>)
    requires |a| == 16 && |b| == 16
    ensures Low(Or(Low(Shl(Val(a), 16), 32), Val(b)), 32) == Val(a + b)
  {
    var x, y := Low(Shl(Val(a), 16), 32), Val(b);
    assert Msb(x, 32) == a + Zeros(16) by {
      MsbLow(Shl(Val(a), 16), 32, 32);
      MsbShl(Val(a), 16, 32);
      MsbVal(a);
    }
    assert Msb(y, 32) == Zeros(16) + b by {
      MsbVal(b);
      ValBound(b);
      ShrSmall(y, 16);
      MsbShr(y, 16, 16);
      MsbZero(16);
    }
    OrPlacedLast(x, y, a, b);
    ValMsb(Low(Or(x, y), 32), 32);
    LowSmall(Low(Or(x, y), 32), 32);
  }

  // ---- round trips through a real stream -------------------------------------------

  /** Bits are packed into bytes, emulation bytes are inserted, and a reader with
      detection on skips `pre`: it stands exactly at `code`. */
  method StreamAt(pre: seq<bool>, code: seq<bool>, post: seq<bool>) returns (reader: Reader)
    requires (|pre| + |code| + |post|) % 8 == 0
    ensures fresh(reader) && reader.Valid() && reader.Remaining() == code + post
    ensures reader.detect && reader.data == Escape(Pack(pre + code + post))
  {
    var bits := pre + code + post;
    reader := new Reader(Escape(Pack(bits)), true);
    EscapeRoundTrip(Pack(bits));
    PackRoundTrip(bits);
    Regroup(pre, code, post);
    Cut(pre, code + post);
    var _ := reader.SkipBits(|pre|);
  }

  /** Every ue(v) value, anywhere in any stream, is read back and its code consumed. */
  method UeThroughStream(pre: seq<bool>, v: nat, post: seq<bool>) returns (ok: bool, val: nat, used: nat)
    requires v <= 0xFFFF_FFFE
    requires (|pre| + |UeEncode(v)| + |post|) % 8 == 0
    ensures ok && val == v && used == |UeEncode(v)|
  {
    var reader := StreamAt(pre, UeEncode(v), post);
    UeRoundTrip(v, post);
    var start := reader.usedBits;
    ok, val := reader.ReadUe();
    used := reader.usedBits - start;
  }

  /** The same for every se(v) value a 32-bit reader can return. */
  method SeThroughStream(pre: seq<bool>, v: int, post: seq<bool>) returns (ok: bool, val: int, used: nat)
    requires -0x7FFF_FFFF <= v <= 0x7FFF_FFFF
    requires (|pre| + |UeEncode(SeToUe(v))| + |post|) % 8 == 0
    ensures ok && val == v && used == |UeEncode(SeToUe(v))|
  {
    var reader := StreamAt(pre, UeEncode(SeToUe(v)), post);
    UeRoundTrip(SeToUe(v), post);
    SeMapping(v);
    var start := reader.usedBits;
    ok, val := reader.ReadSe();
    used := reader.usedBits - start;
  }

  /** A payload, its stop bit and zero padding, escaped: after `done` payload bits the
      reader reports more data exactly while payload bits remain. */
  method MoreDataThroughStream(done: seq<bool>, todo: seq<bool>, padding: nat) returns (more: bool)
    requires padding < 8 && (|done| + |todo| + 1 + padding) % 8 == 0
    ensures more <==> todo != []
  {
    var tail := [true] + Zeros(padding);
    var reader := StreamAt(done, todo, tail);
    ghost var bits := done + todo + tail;
    assert bits[|done| + |todo|];
    ClosedBits(bits, padding);
    StoppedPayload(todo, padding);
    more := reader.HasMoreRbspData();
  }

  lemma ClosedBits(bits: seq<bool>, padding: nat)
    requires padding < 8 <= |bits| && |bits| % 8 == 0 && bits[|bits| - 1 - padding]
    ensures Closed(Escape(Pack(bits)), true)
  {
    StopByte(bits, padding);
    ClosedAlone(Pack(bits));
  }

  lemma ClosedAlone(payload: seq<Byte>)
    requires payload != [] && payload[|payload| - 1] != 0
    ensures Closed(Escape(payload), true)
  {
    EscapeClosed([], payload, 0);
    var raw := Escape(payload);
    assert [] + raw == raw;
  }

  lemma StoppedPayload(payload: seq<bool>, padding: nat)
    ensures MoreData(payload + ([true] + Zeros(padding))) <==> payload != []
  {
    assert payload + ([true] + Zeros(padding)) == payload + [true] + Zeros(padding);
    MoreDataIsPayload(payload, padding);
  }

  /** The byte that holds the stop bit is not zero. */
  lemma {:induction false} StopByte(bits: seq<bool>, padding: nat)
    requires padding < 8 <= |bits| && |bits| % 8 == 0 && bits[|bits| - 1 - padding]
    ensures var p := Pack(bits); p != [] && p[|p| - 1] != 0
  {
    if |bits| == 8 {
      assert bits[..8] == bits;
      MsbVal(bits);
      MsbZero(8);
    } else {
      StopByte(bits[8..], padding);
    }
  }
}
