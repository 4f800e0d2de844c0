/** Machine words as naturals and as bit lists. The shifts, the bitwise or and the
    truncation are defined by halving, and one lemma each says what they do to the
    bits, so that every proof about them is a statement about lists. Shared by the
    stream reader and the stream packer. */
module Bits {

  function Pow2(n: nat): (r: nat)
    ensures r >= 1
  {
    if n == 0 then 1 else 2 * Pow2(n - 1)
  }

  /** v << k on unbounded naturals. */
  function Shl(v: nat, k: nat): nat {
    if k == 0 then v else 2 * Shl(v, k - 1)
  }

  /** v >> k. */
  function Shr(v: nat, k: nat): nat {
    if k == 0 then v else Shr(v / 2, k - 1)
  }

  /** The low k bits of v: truncation to a k-bit word, or v & ((1 << k) - 1). */
  function Low(v: nat, k: nat): (r: nat)
    ensures r < Pow2(k)
  {
    if k == 0 then 0 else 2 * Low(v / 2, k - 1) + v % 2
  }

  /** Bitwise or. */
  function Or(x: nat, y: nat): nat {
    if x == 0 && y == 0 then 0
    else 2 * Or(x / 2, y / 2) + (if x % 2 == 1 || y % 2 == 1 then 1 else 0)
  }

  /** Bitwise and. */
  function And(x: nat, y: nat): nat {
    if x == 0 || y == 0 then 0
    else 2 * And(x / 2, y / 2) + (if x % 2 == 1 && y % 2 == 1 then 1 else 0)
  }

  function Fill(n: nat, bit: bool): (b: seq<bool>)
    ensures |b| == n && forall i :: 0 <= i < n ==> b[i] == bit
  {
    seq(n, _ => bit)
  }

  function Zeros(n: nat): (b: seq<bool>)
    ensures |b| == n && forall i :: 0 <= i < n ==> !b[i]
  {
    Fill(n, false)
  }

  /** The bits of either list. */
  function Either(a: seq<bool>, b: seq<bool>): (c: seq<bool>)
    requires |a| == |b|
    ensures |c| == |a| && forall i :: 0 <= i < |a| ==> c[i] == (a[i] || b[i])
  {
    seq(|a|, i requires 0 <= i < |a| => a[i] || b[i])
  }

  lemma {:induction false} ShrSmall(v: nat, k: nat)
    requires v < Pow2(k)
    ensures Shr(v, k) == 0
  {
    if k > 0 {
      ShrSmall(v / 2, k - 1);
    }
  }

  lemma {:induction false} ShlOne(k: nat)
    ensures Shl(1, k) == Pow2(k)
  {
    if k > 0 {
      ShlOne(k - 1);
    }
  }

  lemma {:induction false} ShlBound(v: nat, k: nat, t: nat)
    requires v < Pow2(k)
    ensures Shl(v, t) < Pow2(k + t)
  {
    if t > 0 {
      ShlBound(v, k, t - 1);
    }
  }

  lemma {:induction false} ShrBound(v: nat, k: nat, n: nat)
    requires v < Pow2(k + n)
    ensures Shr(v, k) < Pow2(n)
  {
    if k > 0 {
      ShrBound(v / 2, k - 1, n);
    }
  }

  lemma {:induction false} OrBound(x: nat, y: nat, n: nat)
    requires x < Pow2(n) && y < Pow2(n)
    ensures Or(x, y) < Pow2(n)
  {
    if n > 0 {
      OrBound(x / 2, y / 2, n - 1);
    }
  }

  /** Two lists that do not overlap. */
  lemma OverlayLast(a: seq<bool>, b: seq<bool>)
    ensures Either(a + Zeros(|b|), Zeros(|a|) + b) == a + b
  {
  }

  lemma {:induction false} LowSmall(v: nat, k: nat)
    requires v < Pow2(k)
    ensures Low(v, k) == v
  {
    if k > 0 {
      LowSmall(v / 2, k - 1);
    }
  }

  lemma {:induction false} Pow2Mono(a: nat, b: nat)
    requires a <= b
    ensures Pow2(a) <= Pow2(b)
    decreases b
  {
    if a < b {
      Pow2Mono(a, b - 1);
    }
  }

  lemma Double(x: nat, p: nat)
    ensures x * (2 * p) == 2 * (x * p)
  {
  }

  lemma {:induction false} Pow2Sum(a: nat, b: nat)
    ensures Pow2(a + b) == Pow2(a) * Pow2(b)
  {
    if b > 0 {
      Pow2Sum(a, b - 1);
      Double(Pow2(a), Pow2(b - 1));
    }
  }

  lemma {:induction false} Pow2Step(k: nat)
    ensures Pow2(k + 8) == 0x100 * Pow2(k)
  {
    assert Pow2(k + 1) == 2 * Pow2(k);
    assert Pow2(k + 2) == 2 * Pow2(k + 1);
    assert Pow2(k + 3) == 2 * Pow2(k + 2);
    assert Pow2(k + 4) == 2 * Pow2(k + 3);
    assert Pow2(k + 5) == 2 * Pow2(k + 4);
    assert Pow2(k + 6) == 2 * Pow2(k + 5);
    assert Pow2(k + 7) == 2 * Pow2(k + 6);
    assert Pow2(k + 8) == 2 * Pow2(k + 7);
  }

  lemma Pow2Values()
    ensures Pow2(8) == 0x100 && Pow2(16) == 0x1_0000
    ensures Pow2(31) == 0x8000_0000 && Pow2(32) == 0x1_0000_0000
  {
    Pow2Step(0);
    Pow2Step(8);
    Pow2Step(16);
    Pow2Step(24);
  }

  lemma Pow2Of64()
    ensures Pow2(64) == 0x1_0000_0000_0000_0000
  {
    Pow2Values();
    Pow2Step(32);
    Pow2Step(40);
    Pow2Step(48);
    Pow2Step(56);
  }

  // ---- most significant bit first ------------------------------------------------

  /** The low n bits of v, most significant first. */
  function Msb(v: nat, n: nat): (b: seq<bool>)
    ensures |b| == n
  {
    if n == 0 then [] else Msb(v / 2, n - 1) + [v % 2 == 1]
  }

  /** The number a list writes, first bit most significant. */
  function Val(b: seq<bool>): nat {
    if b == [] then 0 else 2 * Val(b[..|b| - 1]) + (if b[|b| - 1] then 1 else 0)
  }

  lemma {:induction false} ValBound(b: seq<bool>)
    ensures Val(b) < Pow2(|b|)
  {
    if b != [] {
      ValBound(b[..|b| - 1]);
    }
  }

  lemma {:induction false} ValMsb(v: nat, n: nat)
    ensures Val(Msb(v, n)) == Low(v, n)
  {
    if n > 0 {
      ValMsb(v / 2, n - 1);
      var b := Msb(v, n);
      assert b[..|b| - 1] == Msb(v / 2, n - 1);
    }
  }

  lemma {:induction false} MsbVal(b: seq<bool>)
    ensures Msb(Val(b), |b|) == b
  {
    if b != [] {
      MsbVal(b[..|b| - 1]);
      assert b == b[..|b| - 1] + [b[|b| - 1]];
    }
  }

  lemma {:induction false} MsbZero(n: nat)
    ensures Msb(0, n) == Zeros(n)
  {
    if n > 0 {
      MsbZero(n - 1);
    }
  }

  lemma {:induction false} MsbOr(x: nat, y: nat, n: nat)
    ensures Msb(Or(x, y), n) == Either(Msb(x, n), Msb(y, n))
  {
    if n > 0 {
      MsbOr(x / 2, y / 2, n - 1);
      assert Or(x, y) / 2 == Or(x / 2, y / 2);
    }
  }

  lemma {:induction false} MsbLow(v: nat, k: nat, n: nat)
    requires n <= k
    ensures Msb(Low(v, k), n) == Msb(v, n)
  {
    if n > 0 {
      MsbLow(v / 2, k - 1, n - 1);
    }
  }

  lemma {:induction false} MsbShl(v: nat, k: nat, n: nat)
    requires k <= n
    ensures Msb(Shl(v, k), n) == Msb(v, n - k) + Zeros(k)
  {
    if k > 0 {
      MsbShl(v, k - 1, n - 1);
      assert Shl(v, k) / 2 == Shl(v, k - 1);
      assert Zeros(k) == Zeros(k - 1) + [false];
    }
  }

  lemma {:induction false} MsbShr(v: nat, k: nat, n: nat)
    ensures Msb(v, n + k) == Msb(Shr(v, k), n) + Msb(v, k)
  {
    if k > 0 {
      MsbShr(v / 2, k - 1, n);
    }
  }

  /** A word by its bits: `a`, then t zeros. */
  lemma MsbPadded(x: nat, a: seq<bool>, t: nat)
    ensures Low(x, |a| + t) == Shl(Val(a), t) <==> Msb(x, |a| + t) == a + Zeros(t)
  {
    var n, w := |a| + t, Shl(Val(a), t);
    ValBound(a);
    ShlBound(Val(a), |a|, t);
    LowSmall(w, n);
    MsbShl(Val(a), t, n);
    MsbVal(a);
    MsbLow(x, n, n);
    ValMsb(x, n);
    ValMsb(w, n);
  }

  /** A leading one: 2^z + r in z + 1 bits. */
  lemma {:induction false} MsbTop(z: nat, r: nat)
    requires r < Pow2(z)
    ensures Msb(Pow2(z) + r, z + 1) == [true] + Msb(r, z)
  {
    if z == 0 {
      assert Msb(1 / 2, 0) == [];
    } else {
      MsbTop(z - 1, r / 2);
      assert (Pow2(z) + r) / 2 == Pow2(z - 1) + r / 2;
    }
  }

  // ---- least significant bit first -------------------------------------------------

  /** The low n bits of v, least significant first. */
  function Lsb(v: nat, n: nat): (b: seq<bool>)
    ensures |b| == n
  {
    if n == 0 then [] else [v % 2 == 1] + Lsb(v / 2, n - 1)
  }

  lemma {:induction false} LsbZero(n: nat)
    ensures Lsb(0, n) == Zeros(n)
  {
    if n > 0 {
      LsbZero(n - 1);
    }
  }

  lemma {:induction false} LsbOr(x: nat, y: nat, n: nat)
    ensures Lsb(Or(x, y), n) == Either(Lsb(x, n), Lsb(y, n))
  {
    if n > 0 {
      LsbOr(x / 2, y / 2, n - 1);
      assert Or(x, y) / 2 == Or(x / 2, y / 2);
    }
  }

  lemma {:induction false} LsbLow(v: nat, k: nat, n: nat)
    requires n <= k
    ensures Lsb(Low(v, k), n) == Lsb(v, n)
  {
    if n > 0 {
      LsbLow(v / 2, k - 1, n - 1);
    }
  }

  lemma {:induction false} LsbShl(v: nat, k: nat, n: nat)
    requires k <= n
    ensures Lsb(Shl(v, k), n) == Zeros(k) + Lsb(v, n - k)
  {
    if k > 0 {
      LsbShl(v, k - 1, n - 1);
      assert Shl(v, k) / 2 == Shl(v, k - 1);
      assert Zeros(k) == [false] + Zeros(k - 1);
    }
  }

  lemma {:induction false} LsbShr(v: nat, k: nat, n: nat)
    ensures Lsb(v, k + n) == Lsb(v, k) + Lsb(Shr(v, k), n)
  {
    if k > 0 {
      LsbShr(v / 2, k - 1, n);
    }
  }

  lemma {:induction false} LsbOnes(k: nat, n: nat)
    requires n <= k
    ensures Lsb(Pow2(k) - 1, n) == Fill(n, true)
  {
    if n > 0 {
      LsbOnes(k - 1, n - 1);
      var h := Pow2(k - 1);
      assert (2 * h - 1) / 2 == h - 1 && (2 * h - 1) % 2 == 1;
      assert Fill(n, true) == [true] + Fill(n - 1, true);
    }
  }

  lemma Regroup<T>(a: seq<T>, b: seq<T>, c: seq<T>)
    ensures a + (b + c) == (a + b) + c
  {
  }

  /** A mask of k ones keeps the low k bits, ... */
  lemma {:induction false} AndOnes(v: nat, k: nat)
    ensures And(v, Pow2(k) - 1) == Low(v, k)
  {
    if k == 0 {
    } else if v == 0 {
      LowZero(k);
    } else {
      var y := Pow2(k) - 1;
      assert y == 2 * (Pow2(k - 1) - 1) + 1;
      assert y / 2 == Pow2(k - 1) - 1 && y % 2 == 1;
      AndOnes(v / 2, k - 1);
    }
  }

  lemma {:induction false} LowZero(k: nat)
    ensures Low(0, k) == 0
  {
    if k > 0 {
      LowZero(k - 1);
    }
  }

  /** ... the remainder by 2^k. */
  lemma {:induction false} LowIsRemainder(v: nat, k: nat)
    ensures exists q: nat :: v == q * Pow2(k) + Low(v, k)
  {
    if k == 0 {
      assert v == v * Pow2(0) + Low(v, 0);
    } else {
      LowIsRemainder(v / 2, k - 1);
      var q: nat :| v / 2 == q * Pow2(k - 1) + Low(v / 2, k - 1);
      TwiceQuotient(v, q, Pow2(k - 1), Low(v / 2, k - 1));
      assert v == q * Pow2(k) + Low(v, k);
    }
  }

  lemma TwiceQuotient(v: nat, q: nat, p: nat, r: nat)
    requires v / 2 == q * p + r
    ensures v == q * (2 * p) + (2 * r + v % 2)
  {
    assert q * (2 * p) == 2 * (q * p);
  }
}
