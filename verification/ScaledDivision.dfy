/** a * b / c without a 64-bit product (osal/mpp_common.cpp). Machine arithmetic is
    written out: signed products wrap to 32 bits, division truncates toward zero and
    unsigned shifts and products are taken modulo 2^32. */
module ScaledDivision {
  import opened Arith
  import opened Bits

  const U32 := 0x1_0000_0000
  const MAX := 0x7FFF_FFFF

  predicate Fits(x: int) { -0x8000_0000 <= x <= MAX }

  function Wrap(x: int): (r: int)
    ensures Fits(r) && (Fits(x) ==> r == x)
  {
    (x + 0x8000_0000) % U32 - 0x8000_0000
  }

  /** The overflow test of the fast path is exact. */
  lemma OverflowTest(a: int, b: int)
    requires Abs(b) <= MAX && b != 0
    ensures Quot(Wrap(a * b), b) == a <==> Fits(a * b)
  {
    var p := Wrap(a * b);
    QuotExact(a, b);
    QuotNear(p, b);
    var k := (a * b + 0x8000_0000) / U32;
    assert a * b - p == k * U32;
  }

  // ---- shifts as products and quotients ---------------------------------------

  lemma {:induction false} ShlIsProduct(a: nat, k: nat)
    ensures Shl(a, k) == a * Pow2(k)
  {
    if k > 0 {
      ShlIsProduct(a, k - 1);
      assert a * (2 * Pow2(k - 1)) == 2 * (a * Pow2(k - 1));
    }
  }

  lemma {:induction false} ShrIsQuotient(v: nat, k: nat)
    ensures Shr(v, k) * Pow2(k) <= v < (Shr(v, k) + 1) * Pow2(k)
  {
    if k > 0 {
      ShrIsQuotient(v / 2, k - 1);
      var y, P := Shr(v, k), Pow2(k - 1);
      Double(y, P);
      Double(y + 1, P);
    }
  }

  lemma {:induction false} ShrShl(a: nat, k: nat)
    ensures Shr(Shl(a, k), k) == a
  {
    if k > 0 {
      ShrShl(a, k - 1);
      assert Shl(a, k) / 2 == Shl(a, k - 1);
    }
  }

  /** The guard of the first loop: shifting up and back loses nothing exactly when
      nothing left the word. */
  lemma ShiftGuard(a: nat, k: nat)
    ensures Shr(Low(Shl(a, k), 32), k) == a <==> Shl(a, k) < U32
  {
    Pow2Values();
    var x := Low(Shl(a, k), 32);
    if Shl(a, k) < U32 {
      LowSmall(Shl(a, k), 32);
      ShrShl(a, k);
    } else {
      ShrIsQuotient(x, k);
      ShlIsProduct(a, k);
      var y, P := Shr(x, k), Pow2(k);
      assert y * P < a * P;
    }
  }

  lemma {:induction false} ShrMono(b: nat, j: nat, k: nat)
    requires j <= k
    ensures Shr(b, k) <= Shr(b, j)
  {
    if j > 0 {
      ShrMono(b / 2, j - 1, k - 1);
    } else if k > 0 {
      ShrMono(b / 2, 0, k - 1);
    }
  }

  // ---- the two search loops ------------------------------------------------------

  /** left after its final decrement: the most places a can move and stay below 2^31. */
  ghost predicate Headroom(a: nat, left: nat) {
    Shl(a, left) < 0x8000_0000 <= Shl(a, left + 1)
  }

  /** The fewest places b must move to drop to c or below. */
  ghost predicate Excess(b: nat, c: nat, right: nat) {
    Shr(b, right) <= c && (right > 0 ==> Shr(b, right - 1) > c)
  }

  /** The guard of the first loop. */
  method Survives(a: nat, k: nat) returns (same: bool)
    ensures same <==> Shl(a, k) < U32
  {
    same := Shr(Low(Shl(a, k), 32), k) == a;
    ShiftGuard(a, k);
  }

  method FindLeft(a: nat) returns (left: nat)
    requires 1 <= a <= MAX
    ensures Headroom(a, left) && left <= 30
  {
    left := 31;
    Pow2Values();
    ShlIsProduct(a, 31);
    assert Shl(a, 1) == 2 * Shl(a, 0);
    var same := Survives(a, left);
    while !same
      invariant 1 <= left <= 31 && (same <==> Shl(a, left) < U32)
      invariant left < 31 ==> Shl(a, left + 1) >= U32
      invariant left == 31 ==> Shl(a, left) >= 0x8000_0000
      decreases left
    {
      left := left - 1;
      same := Survives(a, left);
    }
    left := left - 1;
  }

  method FindRight(b: nat, c: nat) returns (right: nat)
    requires b <= MAX
    ensures Excess(b, c, right)
  {
    right := 0;
    while Shr(b, right) > c
      invariant right <= 31 && (right > 0 ==> Shr(b, right - 1) > c)
      decreases 31 - right
    {
      if right == 31 {
        Pow2Values();
        ShrSmall(b, 31);
        assert false;
      }
      right := right + 1;
    }
  }

  /** The fewest places are more than left exactly when left places are too few. */
  lemma ExcessAbove(b: nat, c: nat, right: nat, left: nat)
    requires Excess(b, c, right)
    ensures right > left <==> Shr(b, left) > c
  {
    if right > left {
      ShrMono(b, left, right - 1);
    } else {
      ShrMono(b, right, left);
    }
  }

  // ---- the bounds of the slow path --------------------------------------------------

  /** The scaled quotient times b, before the last shift; S is 2^shift. */
  ghost predicate Scaled(a: nat, b: nat, c: nat, S: nat, q: nat, m: nat) {
    && c >= 1 && S >= 1
    && q * c <= a * S < (q + 1) * c
    && m * S <= q * b < (m + 1) * S
  }

  /** The unsigned product cannot leave 32 bits: L = 2^left = S * R. */
  lemma ProductFits(a: nat, b: nat, c: nat, S: nat, R: nat, q: nat)
    requires c >= 1 && q * c <= a * S
    requires a * (S * R) < 0x8000_0000 && b < (c + 1) * R
    ensures q * b < U32
  {
    var L := S * R;
    MulMono(b, q * c, a * S);
    assert (q * b) * c == b * (q * c) && b * (a * S) == (a * S) * b;
    MulMono(a * S, b, (c + 1) * R);
    assert (a * S) * ((c + 1) * R) == (a * L) * (c + 1);
    MulMono(c + 1, a * L, 0x7FFF_FFFF);
    assert (q * b) * c < U32 * c;
    if q * b >= U32 {
      MulMono(c, U32, q * b);
    }
  }

  /** Never above the true quotient, ... */
  lemma ScaledBelow(a: nat, b: nat, c: nat, S: nat, q: nat, m: nat)
    requires Scaled(a, b, c, S, q, m)
    ensures m * c <= a * b
  {
    MulMono(c, m * S, q * b);
    MulMono(b, q * c, a * S);
    Swap(c, m, S);
    Swap(c, q, b);
    Swap(b, a, S);
    Cancel(S, c * m, b * a);
  }

  /** ... and short of it by less than b / S + 1. */
  lemma ScaledClose(a: nat, b: nat, c: nat, S: nat, q: nat, m: nat)
    requires Scaled(a, b, c, S, q, m) && b >= 1
    ensures (a * b) * S < c * (m * S + S + b)
  {
    MulMono(b, a * S + 1, (q + 1) * c);
    MulMono(c, q * b + 1, (m + 1) * S);
    Swap(b, a, S);
    Swap(b, q + 1, c);
    Expand(c, m, S, b);
    assert (a * b) * S < c * (q * b) + c * b;
  }

  lemma Swap(x: nat, y: nat, z: nat)
    ensures x * (y * z) == z * (x * y) == y * (x * z)
  {
  }

  lemma Expand(c: nat, m: nat, S: nat, b: nat)
    ensures c * (m * S + S + b) == c * ((m + 1) * S) + c * b
  {
  }

  lemma Cancel(s: nat, x: int, y: int)
    requires s >= 1 && s * x <= s * y
    ensures x <= y
  {
    if x > y {
      MulMono(s, y + 1, x);
    }
  }

  /** Saturation only happens above 2^30. */
  lemma SaturatedIsLarge(a: nat, b: nat, c: nat, left: nat)
    requires Headroom(a, left) && Shr(b, left) > c
    ensures a * b > 0x4000_0000 * c
  {
    ShlIsProduct(a, left);
    assert Shl(a, left + 1) == 2 * Shl(a, left);
    LargeFactor(b, c, left);
    LargeProduct(a, b, c, Pow2(left));
  }

  lemma LargeFactor(b: nat, c: nat, left: nat)
    requires Shr(b, left) > c
    ensures (c + 1) * Pow2(left) <= b
  {
    ShrIsQuotient(b, left);
    MulMono(Pow2(left), c + 1, Shr(b, left));
  }

  lemma LargeProduct(a: nat, b: nat, c: nat, L: nat)
    requires a * L >= 0x4000_0000 && (c + 1) * L <= b
    ensures a * b > 0x4000_0000 * c
  {
    MulMono(a, (c + 1) * L, b);
    assert a * ((c + 1) * L) == (c + 1) * (a * L);
    MulMono(c + 1, 0x4000_0000, a * L);
  }

  // ---- the operation -----------------------------------------------------------------

  ghost predicate Arguments(a: int, b: int, c: int) {
    Abs(a) <= MAX && Abs(b) <= MAX && Abs(c) <= MAX
  }

  function Sign(a: int, b: int, c: int): (s: int)
    ensures s == 1 || s == -1
  {
    (if a < 0 then -1 else 1) * (if b < 0 then -1 else 1) * (if c < 0 then -1 else 1)
  }

  function Larger(a: int, b: int): int { if Abs(b) > Abs(a) then Abs(b) else Abs(a) }

  function Smaller(a: int, b: int): int { if Abs(b) > Abs(a) then Abs(a) else Abs(b) }

  /** Everything promised of the slow path's magnitude m. */
  ghost predicate CloseFromBelow(a: nat, b: nat, c: nat, shift: nat, m: nat) {
    m * c <= a * b && (a * b) * Pow2(shift) < c * (m * Pow2(shift) + Pow2(shift) + b)
  }

  /** The slow path on magnitudes, a >= b. */
  method Magnitude(a: nat, b: nat, c: nat) returns (saturated: bool, m: nat, ghost left: nat, ghost right: nat)
    requires 1 <= b <= a <= MAX && 1 <= c
    ensures Headroom(a, left) && Excess(b, c, right)
    ensures saturated <==> right > left
    ensures saturated ==> m == MAX && a * b > 0x4000_0000 * c
    ensures !saturated ==> m < U32 && CloseFromBelow(a, b, c, left - right, m)
    ensures a * b < 0x8000_0000 * c ==> m <= MAX
  {
    var l := FindLeft(a);
    var r := FindRight(b, c);
    left, right := l, r;
    ExcessAbove(b, c, r, l);
    if r > l {
      SaturatedIsLarge(a, b, c, l);
      return true, MAX, l, r;
    }
    var shift := l - r;
    saturated := false;
    m := Scale(a, b, c, shift, l, r);
    if m > MAX {
      MulMono(c, MAX + 1, m);
    }
  }

  /** ((a << shift) / c * b) >> shift in unsigned 32-bit arithmetic. */
  method Scale(a: nat, b: nat, c: nat, shift: nat, ghost left: nat, ghost right: nat) returns (m: nat)
    requires 1 <= b && 1 <= c && shift + right == left
    requires Headroom(a, left) && Excess(b, c, right)
    ensures CloseFromBelow(a, b, c, shift, m) && m < U32
  {
    ghost var S, R := Pow2(shift), Pow2(right);
    Room(a, b, c, shift, left, right);
    var x := ShiftUp(a, shift);
    var q := x / c;
    Floor(x, c);
    ProductFits(a, b, c, S, R, q);
    var p := MulU32(q, b);
    m := ShiftDown(p, shift);
    MulMono(m, 1, S);
    ScaledBelow(a, b, c, S, q, m);
    ScaledClose(a, b, c, S, q, m);
  }

  /** What the two search loops guarantee, as products. */
  lemma Room(a: nat, b: nat, c: nat, shift: nat, left: nat, right: nat)
    requires shift + right == left && Headroom(a, left) && Excess(b, c, right)
    ensures a * (Pow2(shift) * Pow2(right)) < 0x8000_0000
    ensures a * Pow2(shift) < 0x8000_0000
    ensures b < (c + 1) * Pow2(right)
  {
    ShlIsProduct(a, left);
    Pow2Sum(shift, right);
    RoomBelow(a, Pow2(shift), Pow2(right));
    RoomAbove(b, c, right);
  }

  lemma RoomBelow(a: nat, S: nat, R: nat)
    requires R >= 1
    ensures a * S <= a * (S * R)
  {
    MulMono(S, 1, R);
    MulMono(a, S, S * R);
  }

  lemma RoomAbove(b: nat, c: nat, right: nat)
    requires Shr(b, right) <= c
    ensures b < (c + 1) * Pow2(right)
  {
    ShrIsQuotient(b, right);
    MulMono(Pow2(right), Shr(b, right) + 1, c + 1);
  }

  method ShiftUp(a: nat, k: nat) returns (x: nat)
    requires a * Pow2(k) < U32
    ensures x == a * Pow2(k)
  {
    x := Low(Shl(a, k), 32);
    ShlIsProduct(a, k);
    Pow2Values();
    LowSmall(Shl(a, k), 32);
  }

  method ShiftDown(p: nat, k: nat) returns (m: nat)
    ensures m * Pow2(k) <= p < (m + 1) * Pow2(k)
  {
    m := Shr(p, k);
    ShrIsQuotient(p, k);
  }

  method MulU32(x: nat, y: nat) returns (p: nat)
    requires x * y < U32
    ensures p == x * y
  {
    MulMono(x, 0, y);
    p := Low(x * y, 32);
    Pow2Values();
    LowSmall(x * y, 32);
  }

  lemma Floor(x: nat, c: nat)
    requires c >= 1
    ensures x / c >= 0 && (x / c) * c <= x < (x / c + 1) * c
  {
    var q, r := x / c, x % c;
    assert x == q * c + r;
    if q < 0 {
      MulMono(c, q, -1);
    }
  }

  /** The one product in range whose quotient is not: -2^31 over -1, which overflows. */
  predicate Overflows(x: int, c: int) { x == -0x8000_0000 && c == -1 }

  /** The fast path's quotient, as a 32-bit value, is exact except at that overflow. */
  lemma QuotientFits(x: int, c: int)
    requires Fits(x) && c != 0
    ensures Wrap(Quot(x, c)) == Quot(x, c) <==> !Overflows(x, c)
    ensures Overflows(x, c) ==> Wrap(Quot(x, c)) == x
  {
    QuotientBound(Abs(x), Abs(c));
  }

  lemma QuotientBound(x: nat, c: nat)
    requires c >= 1
    ensures 0 <= x / c <= x && (c >= 2 ==> x / c <= x / 2)
  {
    Floor(x, c);
    MulMono(x / c, 1, c);
    if c >= 2 {
      MulMono(x / c, 2, c);
    }
  }

  /** a * b / c. The fast path is taken exactly when the product fits, and is exact except
      for a product of -2^31 over -1; the slow path's magnitude is never above the true quotient and misses it by less than
      min(|a|, |b|) / 2^shift + 1, unless it saturates, which needs a quotient above 2^30. A
      magnitude that does not fit, which needs a quotient of 2^31 or more, wraps. */
  method AxbDivC(a: int, b: int, c: int) returns (r: int, ghost m: nat, ghost left: nat, ghost right: nat)
    requires Arguments(a, b, c)
    ensures Fits(r)
    ensures a == 0 || b == 0 ==> r == 0
    ensures a != 0 && b != 0 && c == 0 ==> r == MAX * Sign(a, b, c)
    ensures a != 0 && b != 0 && c != 0 && Fits(a * b) ==> (r == Quot(a * b, c) <==> !Overflows(a * b, c))
    ensures a != 0 && b != 0 && c != 0 && !Fits(a * b) ==>
      && r == Wrap(Wrap(m) * Sign(a, b, c)) && (m <= MAX ==> r == m * Sign(a, b, c))
      && Headroom(Larger(a, b), left) && Excess(Smaller(a, b), Abs(c), right)
      && (right > left ==> m == MAX && Larger(a, b) * Smaller(a, b) > 0x4000_0000 * Abs(c))
      && (right <= left ==> m < U32 && CloseFromBelow(Larger(a, b), Smaller(a, b), Abs(c), left - right, m))
      && (Larger(a, b) * Smaller(a, b) < 0x8000_0000 * Abs(c) ==> m <= MAX)
  {
    m, left, right := 0, 0, 0;
    if a == 0 || b == 0 {
      r := 0;
      return;
    }
    var fits := FitsTest(a, b);
    if fits && c != 0 {
      r := Wrap(Quot(Wrap(a * b), c));
      QuotientFits(a * b, c);
      return;
    }
    var sign := Sign(a, b, c);
    if c == 0 {
      r := MAX * sign;
      return;
    }
    var saturated, magnitude;
    saturated, magnitude, left, right := Magnitude(Larger(a, b), Smaller(a, b), Abs(c));
    m := magnitude;
    r := Signed(magnitude, sign);
  }

  method FitsTest(a: int, b: int) returns (fits: bool)
    requires b != 0 && Abs(b) <= MAX
    ensures fits <==> Fits(a * b)
  {
    fits := Quot(Wrap(a * b), b) == a;
    OverflowTest(a, b);
  }

  method Signed(m: nat, sign: int) returns (r: int)
    requires sign == 1 || sign == -1
    ensures r == Wrap(Wrap(m) * sign) && (m <= MAX ==> r == m * sign)
  {
    r := Wrap(Wrap(m) * sign);
  }

  // ---- saturation below the maximum ------------------------------------------------------

  lemma {:induction false} ShlMono(a: nat, j: nat, k: nat)
    requires j <= k
    ensures Shl(a, j) <= Shl(a, k)
    decreases k
  {
    if j < k {
      ShlMono(a, j, k - 1);
    }
  }

  /** The two loops have no choice. */
  lemma ShiftsUnique(a: nat, left: nat, left': nat, b: nat, c: nat, right: nat, right': nat)
    requires Headroom(a, left) && Headroom(a, left') && Excess(b, c, right) && Excess(b, c, right')
    ensures left == left' && right == right'
  {
    if left < left' {
      ShlMono(a, left + 1, left');
    } else if left' < left {
      ShlMono(a, left' + 1, left);
    }
    ExcessAbove(b, c, right, right');
    ExcessAbove(b, c, right', right);
  }

  lemma SaturatesBelowMax()
    ensures Headroom(0x4000_0000, 0) && Excess(3, 2, 1) && !Fits(0x4000_0000 * 3)
  {
    assert Shl(0x4000_0000, 1) == 2 * Shl(0x4000_0000, 0);
    assert Shr(3, 1) == Shr(3 / 2, 0);
  }

  /** Saturation can be far off: 2^30 * 3 / 2 is 1610612736, yet 2^31 - 1 is returned. */
  method SaturationExample() returns (r: int)
    ensures r == MAX && Quot(0x4000_0000 * 3, 2) == 1610612736 < MAX
  {
    ghost var m, left, right;
    r, m, left, right := AxbDivC(0x4000_0000, 3, 2);
    SaturatesBelowMax();
    ShiftsUnique(0x4000_0000, 0, left, 3, 2, 1, right);
  }

  /** The overflow of the fast path: 2^16 * -2^15 / -1 is 2^31, which no 32-bit result is. */
  method OverflowExample() returns (r: int)
    ensures Quot(0x1_0000 * -0x8000, -1) == 0x8000_0000 && r != 0x8000_0000 && Fits(r)
  {
    ghost var m, left, right;
    r, m, left, right := AxbDivC(0x1_0000, -0x8000, -1);
  }
}
