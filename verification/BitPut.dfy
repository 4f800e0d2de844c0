/** The 64-bit packer (mpp/base/mpp_bitput.c): values are appended least significant
    bit first to a buffer of 64-bit words. */
module BitPut {
  import opened Arith
  import opened Bits

  /** The bits of the words of a buffer, each word least significant bit first. */
  function Stream(words: seq<nat>): (b: seq<bool>)
    ensures |b| == 64 * |words|
  {
    if words == [] then [] else Stream(words[..|words| - 1]) + Lsb(words[|words| - 1], 64)
  }

  lemma {:induction false} StreamPrefix(words: seq<nat>, k: nat)
    requires k <= |words|
    ensures Stream(words)[..64 * k] == Stream(words[..k])
  {
    if k < |words| {
      var init := words[..|words| - 1];
      StreamPrefix(init, k);
      assert init[..k] == words[..k];
      assert Stream(words)[..64 * k] == Stream(init)[..64 * k];
    } else {
      assert words[..k] == words;
    }
  }

  /** (v << (w - n)) >> (w - n) on words of w bits: the low n bits. */
  function MaskIn(v: nat, n: nat, w: nat): nat
    requires n <= w
  {
    Shr(Low(Shl(v, w - n), w), w - n)
  }

  function Mask(v: nat, n: nat): nat
    requires n <= 64
  {
    MaskIn(v, n, 64)
  }

  lemma MaskInBits(v: nat, n: nat, w: nat)
    requires n <= w
    ensures MaskIn(v, n, w) < Pow2(n) && Lsb(MaskIn(v, n, w), n) == Lsb(v, n)
  {
    var h := w - n;
    var x := Low(Shl(v, h), w);
    ShrBound(x, h, n);
    LsbLow(Shl(v, h), w, w);
    LsbShl(v, h, w);
    LsbShr(x, h, n);
    assert Lsb(x, w)[h..] == Lsb(v, n);
  }

  lemma MaskBits(v: nat, n: nat)
    requires n <= 64
    ensures Mask(v, n) < Pow2(n) && Lsb(Mask(v, n), n) == Lsb(v, n)
  {
    MaskInBits(v, n, 64);
  }

  /** `bvalue | (v << p)` in 64 bits, with p bits already in bvalue: the next k bits,
      as far as the word reaches. */
  function Merge(bvalue: nat, v: nat, p: nat): nat {
    Or(bvalue, Low(Shl(v, p), 64))
  }

  lemma MergeBits(bvalue: nat, v: nat, p: nat, k: nat)
    requires bvalue < Pow2(p) && p + k <= 64
    ensures Lsb(Merge(bvalue, v, p), p + k) == Lsb(bvalue, p) + Lsb(v, k)
  {
    var y := Low(Shl(v, p), 64);
    LsbOr(bvalue, y, p + k);
    LsbShr(bvalue, p, k);
    ShrSmall(bvalue, p);
    LsbZero(k);
    LsbLow(Shl(v, p), 64, p + k);
    LsbShl(v, p, p + k);
    OverlayLast(Lsb(bvalue, p), Lsb(v, k));
  }

  lemma MergeBound(bvalue: nat, v: nat, p: nat, k: nat)
    requires bvalue < Pow2(p) && v < Pow2(k) && p + k <= 64
    ensures Merge(bvalue, v, p) < Pow2(p + k)
  {
    ShlBound(v, k, p);
    Pow2Mono(p, p + k);
    Pow2Mono(p + k, 64);
    LowSmall(Shl(v, p), 64);
    OrBound(bvalue, Shl(v, p), p + k);
  }

  /** A put that stays inside the current word. */
  lemma InWord(done: seq<bool>, b: nat, p: nat, invalue: nat, n: nat)
    requires b < Pow2(p) && p + n <= 64
    ensures var w := Merge(b, Mask(invalue, n), p);
            w < Pow2(p + n) && done + Lsb(w, p + n) == (done + Lsb(b, p)) + Lsb(invalue, n)
  {
    var v := Mask(invalue, n);
    MaskBits(invalue, n);
    MergeBits(b, v, p, n);
    MergeBound(b, v, p, n);
    Regroup(done, Lsb(b, p), Lsb(v, n));
  }

  /** A put that fills the current word and leaves the rest for the next one. */
  lemma AcrossWords(words: seq<nat>, b: nat, p: nat, invalue: nat, n: nat)
    requires b < Pow2(p) && p < 64 && n <= 64 <= p + n
    ensures var v := Mask(invalue, n);
            var rest := Shr(v, 64 - p);
            && rest < Pow2(p + n - 64)
            && Stream(words + [Merge(b, v, p)]) + Lsb(rest, p + n - 64)
               == (Stream(words) + Lsb(b, p)) + Lsb(invalue, n)
  {
    var v, k := Mask(invalue, n), 64 - p;
    var rest := Shr(v, k);
    MaskBits(invalue, n);
    ShrBound(v, k, n - k);
    MergeBits(b, v, p, k);
    LsbShr(v, k, n - k);
    StreamAppend(words, Merge(b, v, p));
    var s, x, y, z := Stream(words), Lsb(b, p), Lsb(v, k), Lsb(rest, n - k);
    Regroup(s, x, y);
    Regroup(s + x, y, z);
  }

  lemma StreamAppend(words: seq<nat>, w: nat)
    ensures Stream(words + [w]) == Stream(words) + Lsb(w, 64)
  {
    var all := words + [w];
    assert all[..|all| - 1] == words && all[|all| - 1] == w;
  }

  /** The two words a put computes: the current one with the new bits merged in, and,
      when it overflows, what is left for the next one. */
  method NextWords(bvalue: nat, bitpos: nat, invalue: nat, n: nat, ghost words: seq<nat>) returns (w: nat, rest: nat)
    requires bvalue < Pow2(bitpos) && bitpos < 64 && n <= 64 && (n == 64 ==> bitpos != 0)
    ensures bitpos + n < 64 ==> w < Pow2(bitpos + n)
    ensures bitpos + n < 64 ==> Stream(words) + Lsb(w, bitpos + n) == (Stream(words) + Lsb(bvalue, bitpos)) + Lsb(invalue, n)
    ensures bitpos + n >= 64 ==> rest < Pow2(bitpos + n - 64)
    ensures bitpos + n >= 64 ==>
              Stream(words + [w]) + Lsb(rest, bitpos + n - 64) == (Stream(words) + Lsb(bvalue, bitpos)) + Lsb(invalue, n)
  {
    var v := Mask(invalue, n);
    w := Merge(bvalue, v, bitpos);
    rest := 0;
    if bitpos + n >= 64 {
      rest := Shr(v, 64 - bitpos);
      AcrossWords(words, bvalue, bitpos, invalue, n);
    } else {
      InWord(Stream(words), bvalue, bitpos, invalue, n);
    }
  }

  class Packer {
    const pbuf: array<nat>
    var index: nat
    var bvalue: nat
    var bitpos: nat

    ghost predicate Valid()
      reads this, pbuf
    {
      && index <= pbuf.Length
      && bitpos < 64 && bvalue < Pow2(bitpos)
      && (bitpos > 0 ==> index < pbuf.Length && pbuf[index] == bvalue)
    }

    /** All the bits put so far. */
    ghost function Written(): (b: seq<bool>)
      reads this, pbuf
      requires Valid()
      ensures |b| == 64 * index + bitpos
    {
      Stream(pbuf[..index]) + Lsb(bvalue, bitpos)
    }

    constructor (data: array<nat>)
      ensures Valid() && pbuf == data && Written() == []
    {
      pbuf := data;
      index, bvalue, bitpos := 0, 0, 0;
    }

    /** What a consumer of the buffer sees: its first bits are the bits put. */
    lemma BufferHolds()
      requires Valid()
      ensures |Written()| <= 64 * pbuf.Length
      ensures Stream(pbuf[..])[..|Written()|] == Written()
    {
      var words := pbuf[..];
      assert words[..index] == pbuf[..index];
      StreamPrefix(words, index);
      if bitpos > 0 {
        StreamPrefix(words, index + 1);
        assert words[..index + 1] == words[..index] + [bvalue];
        StreamAppend(words[..index], bvalue);
        LsbShr(bvalue, bitpos, 64 - bitpos);
        var s := Stream(words[..index + 1]);
        assert s == Stream(words[..index]) + Lsb(bvalue, 64);
        assert s[..64 * index + bitpos] == Written();
        assert Stream(words)[..64 * index + bitpos] == Stream(words)[..64 * (index + 1)][..64 * index + bitpos];
      }
    }

    /** The put ends below the end of the buffer. The word it ends in is written even when no bit
        of it is used, so filling the buffer exactly already reaches one word past it. */
    ghost predicate Inside(lbits: nat)
      reads this, pbuf
    {
      64 * index + bitpos + lbits < 64 * pbuf.Length
    }

    /** overrun: the source writes the word after the last one; here it is left out. */
    method PutBits(invalue: nat, lbits: nat) returns (overrun: bool)
      requires Valid() && lbits <= 64 && (lbits == 64 ==> bitpos != 0)
      modifies this, pbuf
      ensures overrun <==> lbits > 0 && old(index) < pbuf.Length && !old(Inside(lbits))
      ensures overrun ==> index == pbuf.Length
      ensures !overrun ==> Valid()
      ensures !overrun ==> Written() == old(Written()) + if old(index) < pbuf.Length then Lsb(invalue, lbits) else []
    {
      overrun := false;
      if lbits == 0 || index >= pbuf.Length {
        return;
      }
      ghost var words := pbuf[..index];
      var next := bitpos + lbits;
      var w, rest := NextWords(bvalue, bitpos, invalue, lbits, words);
      bvalue := w;
      if next >= 64 {
        pbuf[index] := bvalue;
        words := words + [bvalue];
        bvalue := rest;
        index := index + 1;
        assert pbuf[..index] == words;
      }
      if index < pbuf.Length {
        pbuf[index] := bvalue;
        assert pbuf[..index] == words;
      } else {
        overrun := true;
      }
      bitpos := if next >= 64 then next - 64 else next;
    }

    /** Pads with the flag bit to the least multiple of align_bits, any power of two. */
    method PutAlign(alignBits: nat, flag: int)
      requires Valid() && IsAlignment(alignBits)
      requires 64 * index + bitpos + Padding(64 * index + bitpos, alignBits) < 64 * pbuf.Length
      modifies this, pbuf
      ensures Valid()
      ensures |Written()| % alignBits == 0
      ensures |old(Written())| <= |Written()| < |old(Written())| + alignBits
      ensures Written() == old(Written()) + Fill(|Written()| - |old(Written())|, flag != 0)
    {
      var len := PadBits(index, bitpos, alignBits);
      PutFlag(len, flag != 0);
    }

    /** The loop of the padding: eight bits at a time, then the rest. */
    method PutFlag(count: nat, flag: bool)
      requires Valid() && Inside(count)
      modifies this, pbuf
      ensures Valid() && Written() == old(Written()) + Fill(count, flag)
    {
      var len := count;
      while len > 0
        invariant Valid() && 0 <= len <= count && Inside(len)
        invariant Written() == old(Written()) + Fill(count - len, flag)
      {
        var n := if len >= 8 then 8 else len;
        PutChunk(n, flag);
        Longer(old(Written()), count - len, n, flag);
        len := len - n;
      }
    }

    method PutChunk(n: nat, flag: bool)
      requires Valid() && 1 <= n <= 8 && Inside(n)
      modifies this, pbuf
      ensures Valid() && Written() == old(Written()) + Fill(n, flag)
    {
      var pad := FlagWord(n, flag);
      var _ := PutBits(pad, n);
    }
  }

  lemma Longer(done: seq<bool>, a: nat, b: nat, bit: bool)
    ensures (done + Fill(a, bit)) + Fill(b, bit) == done + Fill(a + b, bit)
  {
  }

  /** n copies of the flag bit. */
  method FlagWord(n: nat, flag: bool) returns (pad: nat)
    requires n <= 64
    ensures Lsb(pad, n) == Fill(n, flag)
  {
    var ones := if flag then 0xFFFF_FFFF_FFFF_FFFF else 0;
    pad := Mask(ones, n);
    MaskBits(ones, n);
    if flag {
      Pow2Of64();
      LsbOnes(64, n);
    } else {
      LsbZero(n);
    }
  }

  /** A power of two that an RK_S32 holds. */
  ghost predicate IsAlignment(align: nat) { exists e: nat :: e <= 30 && align == Pow2(e) }

  /** The distance from n to the next multiple of d. */
  function Padding(n: nat, d: nat): nat
    requires d > 0
  {
    (d - n % d) % d
  }

  function U32(x: int): (r: nat)
    ensures r < 0x1_0000_0000
  {
    x % 0x1_0000_0000
  }

  /** `((align & 0xfe0) >> 6) - 1`, converted to the type of the word index. */
  function WordMask(align: nat): nat { U32(Shr(And(align, 0xFE0), 6) - 1) }

  lemma SmallPowers()
    ensures Pow2(0) == 1 && Pow2(1) == 2 && Pow2(2) == 4 && Pow2(3) == 8 && Pow2(4) == 16 && Pow2(5) == 32 && Pow2(6) == 64
  {
  }

  /** How many bits of the word index the mask keeps: those below the unit up to 2048, and
      all 32 of them above, where nothing of the alignment is left to make a mask from. */
  function KeptBits(e: nat): nat
    requires e >= 6
  {
    if e < 12 then e - 6 else 32
  }

  lemma WordMaskIs(e: nat)
    requires e >= 6
    ensures WordMask(Pow2(e)) == Pow2(KeptBits(e)) - 1
  {
    Pow2Sum(6, e - 6);
    SmallPowers();
    MiddleBits(Pow2(e - 6));
    MaskOf(Low(Pow2(e - 6), 6), e);
  }

  lemma MaskOf(m: nat, e: nat)
    requires e >= 6 && m == Low(Pow2(e - 6), 6)
    ensures U32(m - 1) == Pow2(KeptBits(e)) - 1
  {
    if e < 12 {
      SmallPowers();
      Pow2Mono(e - 6, 5);
      LowSmall(Pow2(e - 6), 6);
    } else {
      Pow2Values();
      LowOfPow2(e - 6, 6);
    }
  }

  lemma {:induction false} LowOfPow2(j: nat, k: nat)
    requires j >= k
    ensures Low(Pow2(j), k) == 0
  {
    if k > 0 {
      LowOfPow2(j - 1, k - 1);
    }
  }

  /** The constant keeps bits 5 to 11, so six bits of x in 64 * x. */
  lemma MiddleBits(x: nat)
    ensures Shr(And(64 * x, 0xFE0), 6) == Low(x, 6)
  {
    KeepsMiddle(x);
    SmallPowers();
    AndOnes(x, 6);
    ShrOf64(Low(x, 6));
  }

  lemma KeepsMiddle(x: nat)
    ensures And(64 * x, 0xFE0) == 64 * And(x, 0x3F)
  {
    AndEight(8 * x, 0x1FC);
    AndFour(2 * x, 0x7F);
    AndOdd(x, 0x3F);
  }

  lemma AndFour(x: nat, y: nat)
    ensures And(4 * x, 4 * y) == 4 * And(x, y)
  {
    AndDouble(2 * x, 2 * y);
    AndDouble(x, y);
  }

  lemma AndEight(x: nat, y: nat)
    ensures And(8 * x, 8 * y) == 8 * And(x, y)
  {
    AndFour(2 * x, 2 * y);
    AndDouble(x, y);
  }

  lemma AndDouble(x: nat, y: nat)
    ensures And(2 * x, 2 * y) == 2 * And(x, y)
  {
  }

  lemma AndOdd(x: nat, y: nat)
    ensures And(2 * x, 2 * y + 1) == 2 * And(x, y)
  {
    assert (2 * y + 1) / 2 == y;
  }

  lemma ShrOf64(x: nat)
    ensures Shr(64 * x, 6) == x
  {
    assert Shr(64 * x, 6) == Shr(32 * x, 5) == Shr(16 * x, 4) == Shr(8 * x, 3);
    assert Shr(8 * x, 3) == Shr(4 * x, 2) == Shr(2 * x, 1) == Shr(x, 0);
  }

  /** What the mask of the word index computes: the index modulo the words it can tell apart. */
  lemma MaskedIndex(index: nat, e: nat)
    requires e >= 6
    ensures And(index, WordMask(Pow2(e))) == index % Pow2(KeptBits(e))
  {
    var k := KeptBits(e);
    WordMaskIs(e);
    AndOnes(index, k);
    LowIsRemainder(index, k);
    var q: nat :| index == q * Pow2(k) + Low(index, k);
    DivUnique(index, Pow2(k), q, Low(index, k));
  }

  /** The distance to the next multiple, by the masked word index, all in RK_U32: a power of
      two divides 2^32, so no wrap disturbs the remainder. */
  method PadBits(index: nat, bitpos: nat, align: nat) returns (len: nat)
    requires bitpos < 64 && IsAlignment(align)
    ensures len == Padding(64 * index + bitpos, align)
    ensures len < align && (64 * index + bitpos + len) % align == 0
  {
    var wordOffset := if align >= 64 then U32(And(index, WordMask(align)) * 64) else 0;
    len := U32(align - (wordOffset + bitpos % align)) % align;
    ghost var units, g := UnitsOf(index, align);
    Pad(64 * index, bitpos, align, g, units);
    NextMultiple(64 * index + bitpos, align);
  }

  lemma UnitsOf(index: nat, align: nat) returns (units: int, g: nat)
    requires IsAlignment(align)
    ensures align > 0 && 0x1_0000_0000 == g * align
    ensures (if align >= 64 then U32(And(index, WordMask(align)) * 64) else 0) == 64 * index - units * align
  {
    var e: nat :| e <= 30 && align == Pow2(e);
    units := WordOffset(index, e);
    Multiples(e);
    g := Pow2(32 - e);
  }

  lemma Multiples(e: nat)
    requires e <= 32
    ensures 0x1_0000_0000 == Pow2(32 - e) * Pow2(e)
    ensures e <= 6 ==> 64 == Pow2(6 - e) * Pow2(e)
    ensures e >= 6 ==> Pow2(e) == 64 * Pow2(e - 6)
  {
    Pow2Values();
    SmallPowers();
    Pow2Sum(32 - e, e);
    if e <= 6 {
      Pow2Sum(6 - e, e);
    }
    if e >= 6 {
      Pow2Sum(6, e - 6);
    }
  }

  /** The word offset is 64 * index, up to whole units. */
  lemma WordOffset(index: nat, e: nat) returns (units: int)
    requires e <= 30
    ensures (if Pow2(e) >= 64 then U32(And(index, WordMask(Pow2(e))) * 64) else 0) == 64 * index - units * Pow2(e)
  {
    SmallPowers();
    if e < 6 {
      Multiples(e);
      Pow2Mono(e, 5);
      units := Pow2(6 - e) * index;
      Commute(Pow2(6 - e), index, Pow2(e));
    } else {
      Pow2Mono(6, e);
      MaskedIndex(index, e);
      var c := UnitsKept(e);
      Multiples(e);
      units := Offset(index, Pow2(KeptBits(e)), c, Pow2(32 - e), Pow2(e));
    }
  }

  lemma Offset(index: nat, K: nat, c: nat, g: nat, d: nat) returns (units: int)
    requires K > 0 && 64 * K == c * d && 0x1_0000_0000 == g * d
    ensures U32(index % K * 64) == 64 * index - units * d
  {
    var r, q := index % K, index / K;
    var t := (r * 64) / 0x1_0000_0000;
    units := q * c + t * g;
    assert index == q * K + r;
    Recount(index, r, q, K, c, t, g, d);
  }

  /** The words the mask tells apart make whole units. */
  lemma UnitsKept(e: nat) returns (c: nat)
    requires 6 <= e <= 30
    ensures 64 * Pow2(KeptBits(e)) == c * Pow2(e)
  {
    Multiples(e);
    Pow2Values();
    c := if e < 12 then 1 else 64 * Pow2(32 - e);
    Double64(Pow2(32 - e), Pow2(e));
  }

  lemma Commute(a: int, b: int, c: int)
    ensures (a * b) * c == (a * c) * b
  {
  }

  lemma Double64(a: int, b: int)
    ensures (64 * a) * b == 64 * (a * b)
  {
  }

  lemma Recount(index: int, r: int, q: int, K: int, c: int, t: int, g: int, d: int)
    requires index == q * K + r && 64 * K == c * d && 0x1_0000_0000 == g * d
    ensures r * 64 - t * 0x1_0000_0000 == 64 * index - (q * c + t * g) * d
  {
    calc {
      (q * c + t * g) * d;
      (q * c) * d + (t * g) * d;
      q * (c * d) + t * (g * d);
      q * (64 * K) + t * 0x1_0000_0000;
      64 * (q * K) + t * 0x1_0000_0000;
    }
  }

  /** Whole units more or less do not change the remainder. */
  lemma Shift(x: int, q: int, d: nat)
    requires d > 0
    ensures (x + q * d) % d == x % d
  {
    assert x == (x / d) * d + x % d;
    assert x + q * d == (x / d + q) * d + x % d;
    DivUnique(x + q * d, d, x / d + q, x % d);
  }

  lemma Pad(start: nat, bitpos: nat, d: nat, g: nat, units: int)
    requires d > 0 && 0x1_0000_0000 == g * d
    ensures U32(d - (start - units * d + bitpos % d)) % d == Padding(start + bitpos, d)
  {
    var n, r := start + bitpos, bitpos % d;
    var x := d - (start - units * d + r);
    var q, t := bitpos / d, x / 0x1_0000_0000;
    Gather(x, start, bitpos, r, units, q, t, g, d);
    Shift(d - n, units + q - t * g, d);
    PaddingIs(n, d);
  }

  lemma PaddingIs(n: nat, d: nat)
    requires d > 0
    ensures Padding(n, d) == (d - n) % d
  {
    var w := n / d;
    assert n == w * d + n % d;
    Shift(d - n, w, d);
  }

  lemma Gather(x: int, start: int, bitpos: int, r: int, units: int, q: int, t: int, g: int, d: int)
    requires x == d - (start - units * d + r) && bitpos == q * d + r && 0x1_0000_0000 == g * d
    ensures x - t * 0x1_0000_0000 == d - (start + bitpos) + (units + q - t * g) * d
  {
    calc {
      (units + q - t * g) * d;
      units * d + q * d - (t * g) * d;
      units * d + q * d - t * (g * d);
    }
  }

  lemma NextMultiple(n: nat, d: nat)
    requires d > 0
    ensures Padding(n, d) < d && (n + Padding(n, d)) % d == 0
  {
    var q, w := n / d, n % d;
    assert n == q * d + w;
    if w == 0 {
      DivUnique(d, d, 1, 0);
    } else {
      DivUnique(d - w, d, 0, d - w);
      DivUnique(n + (d - w), d, q + 1, 0);
    }
  }

  /** Any sequence of puts: the buffer, read from its first bit, is the concatenation of
      the low bits of each value. */
  function Concat(puts: seq<(nat, nat)>): seq<bool> {
    if puts == [] then [] else Concat(puts[..|puts| - 1]) + Lsb(puts[|puts| - 1].0, puts[|puts| - 1].1)
  }

  method PutAll(data: array<nat>, puts: seq<(nat, nat)>)
    requires forall i :: 0 <= i < |puts| ==> 1 <= puts[i].1 <= 64 && (puts[i].1 == 64 ==> |Concat(puts[..i])| % 64 != 0)
    requires forall i :: 0 <= i <= |puts| ==> |Concat(puts[..i])| < 64 * data.Length
    modifies data
    ensures |Concat(puts)| <= |Stream(data[..])|
    ensures Stream(data[..])[..|Concat(puts)|] == Concat(puts)
  {
    var packer := new Packer(data);
    for i := 0 to |puts|
      invariant packer.Valid() && packer.pbuf == data && fresh(packer)
      invariant packer.Written() == Concat(puts[..i])
    {
      assert puts[..i + 1][..i] == puts[..i];
      assert |Concat(puts[..i + 1])| == |Concat(puts[..i])| + puts[i].1;
      var _ := packer.PutBits(puts[i].0, puts[i].1);
    }
    assert puts[..|puts|] == puts;
    packer.BufferHolds();
  }
}
