/** The byte stream of a NAL unit and the bit string it carries: removal and
    insertion of emulation prevention bytes (sections 7.3.1 and 7.4.1 of ITU-T
    H.264), the Exp-Golomb codes (sections 9.1 and 9.1.1) and the end of the
    payload (sections 7.2 and 7.3.2.11). Everything here is independent of the
    reader. */
module Rbsp {
  import opened Wrappers
  import opened Bits

  type Byte = n: nat | n < 256

  /** A 0x03 that directly follows two zero bytes. */
  predicate IsEmulation(raw: seq<Byte>, i: nat)
    requires i < |raw|
  {
    i >= 2 && raw[i - 2] == 0 && raw[i - 1] == 0 && raw[i] == 3
  }

  /** The bytes from position i on, without the emulation prevention bytes. */
  function Payload(raw: seq<Byte>, detect: bool, i: nat): seq<Byte>
    requires i <= |raw|
    decreases |raw| - i
  {
    if i == |raw| then []
    else if detect && IsEmulation(raw, i) then Payload(raw, detect, i + 1)
    else [raw[i]] + Payload(raw, detect, i + 1)
  }

  /** Bytes as bits, most significant bit of each byte first. */
  function BitsOf(bytes: seq<Byte>): (b: seq<bool>)
    ensures |b| == 8 * |bytes|
  {
    if bytes == [] then [] else Msb(bytes[0], 8) + BitsOf(bytes[1..])
  }

  /** The sender: 0x03 goes in front of every byte up to 3 that follows two zeros.
      `zeros` is the number of zero bytes just emitted, counted up to 2. */
  function Escape(payload: seq<Byte>, zeros: nat := 0): seq<Byte> {
    if payload == [] then []
    else
      var b := payload[0];
      if zeros >= 2 && b <= 3 then
        [3, b] + Escape(payload[1..], if b == 0 then 1 else 0)
      else
        [b] + Escape(payload[1..], if b == 0 then zeros + 1 else 0)
  }

  /** What `zeros` says about the bytes already sent. */
  predicate EndsInZeros(sent: seq<Byte>, zeros: nat) {
    && (zeros >= 1 <==> |sent| >= 1 && sent[|sent| - 1] == 0)
    && (zeros >= 2 <==> |sent| >= 2 && sent[|sent| - 1] == 0 && sent[|sent| - 2] == 0)
  }

  lemma {:induction false} EscapeInverse(sent: seq<Byte>, payload: seq<Byte>, zeros: nat)
    requires EndsInZeros(sent, zeros)
    ensures Payload(sent + Escape(payload, zeros), true, |sent|) == payload
    decreases |payload|
  {
    if payload == [] {
      assert sent + [] == sent;
    } else {
      var b, rest := payload[0], payload[1..];
      assert payload == [b] + rest;
      if zeros >= 2 && b <= 3 {
        var z := if b == 0 then 1 else 0;
        EscapeInverse(sent + [3, b], rest, z);
        var raw := (sent + [3, b]) + Escape(rest, z);
        Regroup(sent, [3, b], Escape(rest, z));
        assert IsEmulation(raw, |sent|) && !IsEmulation(raw, |sent| + 1);
      } else {
        var z := if b == 0 then zeros + 1 else 0;
        EscapeInverse(sent + [b], rest, z);
        var raw := (sent + [b]) + Escape(rest, z);
        Regroup(sent, [b], Escape(rest, z));
        assert !IsEmulation(raw, |sent|);
      }
    }
  }

  /** Stripping undoes inserting, for every payload. */
  lemma EscapeRoundTrip(payload: seq<Byte>)
    ensures Payload(Escape(payload), true, 0) == payload
  {
    EscapeInverse([], payload, 0);
    assert [] + Escape(payload) == Escape(payload);
  }

  /** No two zero bytes followed by a byte below 3. */
  predicate StartCodeAt(raw: seq<Byte>, i: nat)
    requires i + 2 < |raw|
  {
    raw[i] == 0 && raw[i + 1] == 0 && raw[i + 2] <= 2
  }

  predicate NoStartCode(raw: seq<Byte>) {
    forall i :: 0 <= i < |raw| - 2 ==> !StartCodeAt(raw, i)
  }

  lemma NoStartCodeExtend(sent: seq<Byte>, b: Byte)
    requires NoStartCode(sent)
    requires |sent| >= 2 && sent[|sent| - 1] == 0 && sent[|sent| - 2] == 0 ==> b >= 3
    ensures NoStartCode(sent + [b])
  {
    var raw := sent + [b];
    forall i | 0 <= i < |raw| - 2 ensures !StartCodeAt(raw, i) {
      if i < |sent| - 2 {
        assert !StartCodeAt(sent, i);
      }
    }
  }

  /** What the insertion is for: the stream never imitates a start code. */
  lemma {:induction false} EscapeHidesStartCodes(sent: seq<Byte>, payload: seq<Byte>, zeros: nat)
    requires EndsInZeros(sent, zeros) && NoStartCode(sent)
    ensures NoStartCode(sent + Escape(payload, zeros))
    decreases |payload|
  {
    if payload == [] {
      assert sent + [] == sent;
    } else {
      var b, rest := payload[0], payload[1..];
      if zeros >= 2 && b <= 3 {
        var z := if b == 0 then 1 else 0;
        NoStartCodeExtend(sent, 3);
        NoStartCodeExtend(sent + [3], b);
        EscapeHidesStartCodes(sent + [3] + [b], rest, z);
        assert sent + Escape(payload, zeros) == sent + [3] + [b] + Escape(rest, z);
      } else {
        var z := if b == 0 then zeros + 1 else 0;
        NoStartCodeExtend(sent, b);
        EscapeHidesStartCodes(sent + [b], rest, z);
        assert Escape(payload, zeros) == [b] + Escape(rest, z);
        assert sent + ([b] + Escape(rest, z)) == sent + [b] + Escape(rest, z);
      }
    }
  }

  // ---- bits to bytes -----------------------------------------------------------

  function Pack(bits: seq<bool>): (bytes: seq<Byte>)
    requires |bits| % 8 == 0
  {
    if bits == [] then [] else
      (ValBound(bits[..8]); Pow2Step(0); [Val(bits[..8])]) + Pack(bits[8..])
  }

  lemma {:induction false} PackRoundTrip(bits: seq<bool>)
    requires |bits| % 8 == 0
    ensures BitsOf(Pack(bits)) == bits
  {
    if bits != [] {
      PackRoundTrip(bits[8..]);
      MsbVal(bits[..8]);
      assert Pack(bits)[1..] == Pack(bits[8..]);
      assert bits == bits[..8] + bits[8..];
    }
  }

  // ---- Exp-Golomb codes --------------------------------------------------------

  function LeadingZeros(bits: seq<bool>): (z: nat)
    ensures z <= |bits|
    ensures forall i :: 0 <= i < z ==> !bits[i]
    ensures z < |bits| ==> bits[z]
  {
    if bits == [] || bits[0] then 0 else 1 + LeadingZeros(bits[1..])
  }

  /** Value and length of the ue(v) code at the front, if there is a whole one
      with at most 31 leading zeros. */
  function UeDecode(bits: seq<bool>): Option<(nat, nat)> {
    var z := LeadingZeros(bits);
    if z > 31 || |bits| < 2 * z + 1 then None
    else Some((Pow2(z) - 1 + Val(bits[z + 1..2 * z + 1]), 2 * z + 1))
  }

  function FloorLog2(n: nat): (z: nat)
    requires n >= 1
    ensures Pow2(z) <= n < 2 * Pow2(z)
  {
    if n == 1 then 0 else 1 + FloorLog2(n / 2)
  }

  /** The ue(v) code: z zeros, then v + 1 in z + 1 bits. */
  function UeEncode(v: nat): seq<bool> {
    var z := FloorLog2(v + 1);
    Zeros(z) + Msb(v + 1, z + 1)
  }

  lemma {:induction false} LeadingZerosOf(z: nat, tail: seq<bool>)
    requires |tail| > 0 && tail[0]
    ensures LeadingZeros(Zeros(z) + tail) == z
  {
    var bits := Zeros(z) + tail;
    if z > 0 {
      LeadingZerosOf(z - 1, tail);
      assert bits[1..] == Zeros(z - 1) + tail;
    }
  }

  /** Every value up to 2^32 - 2 is written and read back, whatever follows. */
  lemma UeRoundTrip(v: nat, post: seq<bool>)
    requires v <= 0xFFFF_FFFE
    ensures UeDecode(UeEncode(v) + post) == Some((v, |UeEncode(v)|))
  {
    var z := FloorLog2(v + 1);
    var r := v + 1 - Pow2(z);
    if z > 31 {
      Pow2Mono(32, z);
      Pow2Values();
      assert false;
    }
    var code := Msb(v + 1, z + 1);
    MsbTop(z, r);
    LeadingZerosOf(z, code + post);
    var bits := UeEncode(v) + post;
    assert bits == Zeros(z) + (code + post);
    assert bits[z + 1..2 * z + 1] == Msb(r, z);
    ValMsb(r, z);
    LowSmall(r, z);
  }

  /** A decoded value always fits 32 bits. */
  lemma UeDecodeRange(bits: seq<bool>)
    requires UeDecode(bits).Some?
    ensures UeDecode(bits).value.0 <= 0xFFFF_FFFE
    ensures UeDecode(bits).value.1 <= |bits|
  {
    var z := LeadingZeros(bits);
    ValBound(bits[z + 1..2 * z + 1]);
    Pow2Mono(z, 31);
    Pow2Values();
  }

  /** The se(v) mapping: 0, 1, -1, 2, -2, ... are numbered 0, 1, 2, 3, 4, ... */
  function SeToUe(v: int): nat { if v > 0 then 2 * v - 1 else -2 * v }

  function UeToSe(k: nat): int { if k % 2 == 0 then -(k / 2) else k / 2 + 1 }

  /** The mapping is inverted, and 32 bits hold exactly the values below 2^31 in magnitude. */
  lemma SeMapping(v: int)
    ensures UeToSe(SeToUe(v)) == v
    ensures SeToUe(v) <= 0xFFFF_FFFE <==> -0x7FFF_FFFF <= v <= 0x7FFF_FFFF
  {
    var k := SeToUe(v);
    if v > 0 {
      assert k == 2 * (v - 1) + 1;
      assert k / 2 == v - 1 && k % 2 == 1;
    } else {
      assert k == 2 * (-v);
      assert k / 2 == -v && k % 2 == 0;
    }
  }

  // ---- end of the payload -------------------------------------------------------

  /** more_rbsp_data(): a one bit follows the next bit, so the next bit is not the
      stop bit. */
  predicate MoreData(bits: seq<bool>) {
    exists j :: 0 < j < |bits| && bits[j]
  }

  /** On a payload closed by a stop bit and zeros, MoreData says that payload remains. */
  lemma MoreDataIsPayload(payload: seq<bool>, padding: nat)
    ensures MoreData(payload + [true] + Zeros(padding)) <==> payload != []
  {
    var bits := payload + [true] + Zeros(padding);
    assert bits[|payload|];
  }

  /** A stream whose last byte is payload and holds a one bit, as the stop bit makes it. */
  predicate Closed(raw: seq<Byte>, detect: bool) {
    raw != [] ==> raw[|raw| - 1] != 0 && !(detect && IsEmulation(raw, |raw| - 1))
  }

  lemma {:induction false} ClosedPayload(raw: seq<Byte>, detect: bool, i: nat)
    requires Closed(raw, detect) && i < |raw|
    ensures Payload(raw, detect, i) != []
    ensures var p := Payload(raw, detect, i); p[|p| - 1] == raw[|raw| - 1]
    decreases |raw| - i
  {
    if i == |raw| - 1 {
      assert Payload(raw, detect, i + 1) == [];
    } else {
      ClosedPayload(raw, detect, i + 1);
      var p := Payload(raw, detect, i + 1);
      assert Payload(raw, detect, i) == p || Payload(raw, detect, i) == [raw[i]] + p;
    }
  }

  /** Escaping a payload that ends in a nonzero byte gives a closed stream. */
  lemma {:induction false} EscapeClosed(sent: seq<Byte>, payload: seq<Byte>, zeros: nat)
    requires EndsInZeros(sent, zeros)
    requires payload != [] && payload[|payload| - 1] != 0
    ensures Closed(sent + Escape(payload, zeros), true)
    decreases |payload|, 0
  {
    var b, rest := payload[0], payload[1..];
    if zeros >= 2 && b <= 3 {
      var z := if b == 0 then 1 else 0;
      assert Escape(payload, zeros) == [3, b] + Escape(rest, z);
      EscapeClosedStep(sent, [3, b], rest, z);
    } else {
      var z := if b == 0 then zeros + 1 else 0;
      assert Escape(payload, zeros) == [b] + Escape(rest, z);
      EscapeClosedStep(sent, [b], rest, z);
    }
  }

  lemma {:induction false} EscapeClosedStep(sent: seq<Byte>, head: seq<Byte>, rest: seq<Byte>, z: nat)
    requires EndsInZeros(sent + head, z)
    requires rest == [] ==> Closed(sent + head, true)
    requires rest != [] ==> rest[|rest| - 1] != 0
    ensures Closed(sent + (head + Escape(rest, z)), true)
    decreases |rest|, 1
  {
    Regroup(sent, head, Escape(rest, z));
    if rest == [] {
      assert (sent + head) + [] == sent + head;
    } else {
      EscapeClosed(sent + head, rest, z);
    }
  }

  predicate SomeBit(b: seq<bool>) {
    exists i :: 0 <= i < |b| && b[i]
  }

  lemma {:induction false} AnyBit(v: nat, k: nat)
    ensures Low(v, k) != 0 <==> SomeBit(Msb(v, k))
  {
    if k > 0 {
      AnyBit(v / 2, k - 1);
      var b, h := Msb(v, k), Msb(v / 2, k - 1);
      assert b[k - 1] == (v % 2 == 1) && forall i :: 0 <= i < k - 1 ==> b[i] == h[i];
      if SomeBit(h) {
        var i :| 0 <= i < |h| && h[i];
        assert b[i];
      }
    }
  }

  lemma {:induction false} LastByteBit(bytes: seq<Byte>) returns (j: nat)
    requires bytes != [] && bytes[|bytes| - 1] != 0
    ensures j < 8 * |bytes| && BitsOf(bytes)[j]
  {
    if |bytes| == 1 {
      Pow2Step(0);
      LowSmall(bytes[0], 8);
      AnyBit(bytes[0], 8);
      var b := Msb(bytes[0], 8);
      j :| 0 <= j < |b| && b[j];
    } else {
      j := LastByteBit(bytes[1..]);
      j := 8 + j;
    }
  }
}
