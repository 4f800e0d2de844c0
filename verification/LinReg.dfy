/** The weighted regression of the rate controller (mpp/codec/mpp_rc.cpp), over
    unbounded integers: ring buffers of samples, the accumulation from the newest
    sample back, and the division that follows. */
module LinReg {
  import opened Arith

  const WEIGHTS: seq<seq<int>> := [
    [1000, 500, 250, 125, 63, 31, 16, 8, 4, 2, 1, 0, 0, 0, 0],
    [1000, 600, 360, 216, 130, 78, 47, 28, 17, 10, 6, 4, 2, 1, 0],
    [1000, 700, 490, 343, 240, 168, 117, 82, 57, 40, 32, 26, 20, 16, 13],
    [1000, 800, 640, 512, 409, 328, 262, 210, 168, 134, 107, 86, 69, 55, 44],
    [1000, 900, 810, 729, 656, 590, 531, 478, 430, 387, 348, 313, 282, 254, 229],
    [1000, 1000, 1000, 1000, 1000, 1000, 1000, 1000, 1000, 1000, 1000, 1000, 1000, 1000, 1000]
  ]

  predicate GoodWeights(w: seq<int>) {
    |w| == 15 && w[0] == 1000 && forall k :: 0 <= k < 15 ==> w[k] >= 0
  }

  function Weights(mode: nat): seq<int>
    requires mode < 6
  {
    WEIGHTS[mode]
  }

  lemma TableIsGood(mode: nat)
    requires mode < 6
    ensures GoodWeights(Weights(mode))
  {
  }

  // ---- weighted sums, newest sample first ----------------------------------------

  datatype Sums = Sums(w: int, x: int, y: int, xy: int, xx: int)

  function Add(s: Sums, w: int, x: int, y: int): Sums {
    Sums(s.w + w, s.x + w * x, s.y + w * y, s.xy + w * x * y, s.xx + w * x * x)
  }

  function Acc(w: seq<int>, x: seq<int>, y: seq<int>, k: nat): Sums
    requires k <= |w| && k <= |x| && k <= |y|
  {
    if k == 0 then Sums(0, 0, 0, 0, 0)
    else
      Add(Acc(w, x, y, k - 1), w[k - 1], x[k - 1], y[k - 1])
  }

  /** The weighted squared distance of the samples from c. */
  function Spread(s: Sums, c: int): int { s.xx - 2 * c * s.x + c * c * s.w }

  /** The numerator of the denominator: ws * sum(w x x) - (sum w x)^2. */
  function Gram(s: Sums): int { s.w * s.xx - s.x * s.x }

  lemma SpreadStep(s: Sums, w: int, x: int, y: int, c: int)
    ensures Spread(Add(s, w, x, y), c)
         == Spread(s, c) + w * ((x - c) * (x - c))
  {
  }

  lemma GramStep(s: Sums, w: int, x: int, y: int)
    ensures Gram(Add(s, w, x, y))
         == Gram(s) + w * Spread(s, x)
  {
  }

  /** Every sample of nonzero weight has x == c. */
  ghost predicate AllAt(w: seq<int>, x: seq<int>, k: nat, c: int)
    requires k <= |w| && k <= |x|
  {
    forall j :: 0 <= j < k && w[j] != 0 ==> x[j] == c
  }

  lemma {:induction false} SpreadSign(w: seq<int>, x: seq<int>, y: seq<int>, k: nat, c: int)
    requires k <= |w| && k <= |x| && k <= |y|
    requires forall j :: 0 <= j < k ==> w[j] >= 0
    ensures Spread(Acc(w, x, y, k), c) >= 0
    ensures Spread(Acc(w, x, y, k), c) == 0 <==> AllAt(w, x, k, c)
  {
    if k > 0 {
      SpreadSign(w, x, y, k - 1, c);
      SpreadStep(Acc(w, x, y, k - 1), w[k - 1], x[k - 1], y[k - 1], c);
      Square(x[k - 1] - c);
      Weighted(w[k - 1], (x[k - 1] - c) * (x[k - 1] - c));
    }
  }

  lemma Square(d: int)
    ensures d * d >= 0 && (d * d == 0 <==> d == 0)
  {
  }

  lemma Weighted(w: int, t: int)
    requires w >= 0 && t >= 0
    ensures w * t >= 0 && (w * t == 0 <==> w == 0 || t == 0)
  {
  }

  /** Cauchy-Schwarz with its equality case: zero exactly when the weighted samples
      share one x. */
  lemma {:induction false} GramSign(w: seq<int>, x: seq<int>, y: seq<int>, k: nat)
    requires k <= |w| && k <= |x| && k <= |y|
    requires forall j :: 0 <= j < k ==> w[j] >= 0
    ensures Gram(Acc(w, x, y, k)) >= 0
    ensures Gram(Acc(w, x, y, k)) == 0 <==> exists c :: AllAt(w, x, k, c)
  {
    if k == 0 {
      assert AllAt(w, x, 0, 0);
    } else {
      var s, wk, xk := Acc(w, x, y, k - 1), w[k - 1], x[k - 1];
      GramSign(w, x, y, k - 1);
      GramStep(s, wk, xk, y[k - 1]);
      SpreadSign(w, x, y, k - 1, xk);
      Weighted(wk, Spread(s, xk));
      if Gram(Acc(w, x, y, k)) == 0 {
        if wk == 0 {
          var c :| AllAt(w, x, k - 1, c);
          assert AllAt(w, x, k, c);
        } else {
          assert AllAt(w, x, k, xk);
        }
      }
      if c :| AllAt(w, x, k, c) {
        assert AllAt(w, x, k - 1, c);
        if wk != 0 {
          assert AllAt(w, x, k - 1, xk);
        }
      }
    }
  }

  // ---- the truncated denominator and the rounding division -------------------------

  function Denominator(s: Sums): int
    requires s.w > 0
  {
    s.xx - Quot(s.x * s.x, s.w)
  }

  /** Truncation loses less than one, so sign and zero survive it. */
  lemma DenominatorSign(s: Sums)
    requires s.w > 0 && Gram(s) >= 0
    ensures Denominator(s) >= 0
    ensures Denominator(s) == 0 <==> Gram(s) == 0
  {
    var q := Quot(s.x * s.x, s.w);
    QuotNear(s.x * s.x, s.w);
    assert s.x * s.x >= 0;
    QuotFloor(s.x * s.x, s.w);
    var d := Denominator(s);
    assert s.w * d == s.w * s.xx - q * s.w;
    if d < 0 {
      MulMono(s.w, d, -1);
    }
    if d == 0 {
      assert q * s.w == s.w * s.xx;
    }
    if Gram(s) == 0 {
      SmallMultiple(d, s.w);
    }
  }

  lemma QuotFloor(a: int, b: int)
    requires a >= 0 && b > 0
    ensures 0 <= a - Quot(a, b) * b < b
  {
    var q, r := a / b, a % b;
    assert a == q * b + r;
  }

  /** DIV(a, b): half of b away from zero, then truncate. */
  function Div(a: int, b: int): int
    requires b != 0
  {
    Quot(a + Quot((if a < 0 then -1 else 1) * b, 2), b)
  }

  /** For a positive divisor DIV rounds to nearest. */
  lemma DivRounds(a: int, b: int)
    requires b > 0
    ensures 2 * Abs(a - b * Div(a, b)) <= b
  {
    if a >= 0 {
      DivRoundsUp(a, b);
    } else {
      DivRoundsUp(-a, b);
      DivOdd(a, b);
    }
  }

  lemma DivRoundsUp(a: int, b: int)
    requires b > 0 && a >= 0
    ensures 2 * Abs(a - b * Div(a, b)) <= b
  {
    var h := b / 2;
    var q := Quot(a + h, b);
    assert Quot(b, 2) == h;
    QuotFloor(a + h, b);
    assert 0 <= a + h - q * b < b;
  }

  /** DIV is an odd function of its dividend. */
  lemma DivOdd(a: int, b: int)
    requires b > 0 && a < 0
    ensures Div(a, b) == -Div(-a, b)
  {
    var h := b / 2;
    assert Quot(b, 2) == h && Quot(-b, 2) == -h;
    assert Quot(a - h, b) == -Quot(h - a, b);
  }

  /** b is the rounded quotient of the truncated covariance by a positive number, or 0. */
  ghost predicate Slope(s: Sums, b: int)
    requires s.w > 0
  {
    var d := Denominator(s);
    && d >= 0
    && (d == 0 ==> b == 0)
    && (d > 0 ==> 2 * Abs(s.xy - Quot(s.y * s.x, s.w) - d * b) <= d)
  }

  /** a is not rounded: half the weight, as an integer, is added and never truncated away. */
  ghost predicate Intercept(s: Sums, b: int, a: real) {
    var exact := s.y - s.x * b;
    a * s.w as real == exact as real + (if exact < 0 then -(s.w / 2) else s.w / 2) as real
  }

  method FitSlope(s: Sums) returns (b: int)
    requires s.w > 0 && Denominator(s) >= 0
    ensures Slope(s, b)
  {
    var num := s.xy - Quot(s.y * s.x, s.w);
    var denom := Denominator(s);
    if denom != 0 {
      b := Div(num, denom);
      DivRounds(num, denom);
    } else {
      b := 0;
    }
  }

  method FitIntercept(s: Sums, b: int) returns (a: real)
    requires s.w > 0
    ensures Intercept(s, b, a)
  {
    var exact := s.y - s.x * b;
    var half := Quot((if exact < 0 then -1 else 1) * s.w, 2);
    assert half == if exact < 0 then -(s.w / 2) else s.w / 2;
    a := (exact as real + half as real) / (s.w as real);
  }

  // ---- the ring buffer ---------------------------------------------------------------

  datatype Sample = Sample(x: int, r: int)

  function Y(s: Sample): int { s.x * s.x * s.r }

  /** The x of the n newest samples, newest first; likewise their y. */
  function NewestX(samples: seq<Sample>, n: nat): (xs: seq<int>)
    requires n <= |samples|
    ensures |xs| == n && forall k :: 0 <= k < n ==> xs[k] == samples[|samples| - 1 - k].x
  {
    seq(n, k requires 0 <= k < n => samples[|samples| - 1 - k].x)
  }

  function NewestY(samples: seq<Sample>, n: nat): (ys: seq<int>)
    requires n <= |samples|
    ensures |ys| == n && forall k :: 0 <= k < n ==> ys[k] == Y(samples[|samples| - 1 - k])
  {
    seq(n, k requires 0 <= k < n => Y(samples[|samples| - 1 - k]))
  }

  /** Stepping back around the ring. */
  lemma RingBack(count: nat, size: nat)
    requires 0 < size && 0 < count
    ensures (count - 1) % size == if count % size == 0 then size - 1 else count % size - 1
  {
    var q, r := count / size, count % size;
    assert count == q * size + r;
    if r == 0 {
      assert count - 1 == (q - 1) * size + (size - 1);
      DivUnique(count - 1, size, q - 1, size - 1);
    } else {
      DivUnique(count - 1, size, q, r - 1);
    }
  }

  lemma RingForward(count: nat, size: nat)
    requires 0 < size
    ensures (count + 1) % size == if count % size + 1 >= size then 0 else count % size + 1
  {
    var q, r := count / size, count % size;
    assert count == q * size + r;
    if r + 1 >= size {
      assert count + 1 == (q + 1) * size + 0;
      DivUnique(count + 1, size, q + 1, 0);
    } else {
      DivUnique(count + 1, size, q, r + 1);
    }
  }

  /** Sample numbers less than `size` apart live in different cells. */
  lemma RingDistinct(j: nat, count: nat, size: nat)
    requires 0 < size && j < count < j + size
    ensures j % size != count % size
  {
    var a, b := j / size, count / size;
    assert j == a * size + j % size && count == b * size + count % size;
    if j % size == count % size {
      assert count - j == (b - a) * size;
      SmallMultiple(b - a, size);
    }
  }

  predicate Stored(s: Sample, x: int, r: int, y: int) {
    x == s.x && r == s.r && y == Y(s)
  }

  class Regression {
    const size: nat
    const weights: seq<int>          // the row of the table selected by weight_mode
    const x: array<int>
    const r: array<int>
    const y: array<int>
    var n: nat
    var i: nat
    var a: real
    var b: int
    ghost var samples: seq<Sample>   // everything ever saved, oldest first

    ghost predicate Valid()
      reads this, x, r, y
    {
      && 1 <= size <= 15 && GoodWeights(weights)
      && x.Length == r.Length == y.Length == size
      && x != r && x != y && r != y
      && n == (if |samples| < size then |samples| else size)
      && i == |samples| % size
      && forall j :: |samples| - n <= j < |samples| ==>
           Stored(samples[j], x[j % size], r[j % size], y[j % size])
    }

    constructor (size: nat, weightMode: nat)
      requires 1 <= size <= 15 && weightMode < 6
      ensures Valid() && samples == [] && weights == Weights(weightMode) && fresh(x) && fresh(r) && fresh(y)
    {
      this.size := size;
      weights := Weights(weightMode);
      TableIsGood(weightMode);
      x := new int[size];
      r := new int[size];
      y := new int[size];
      n, i, a, b := 0, 0, 0.0, 0;
      samples := [];
    }

    method Save(xv: int, rv: int)
      requires Valid()
      modifies this, x, r, y
      ensures Valid() && samples == old(samples) + [Sample(xv, rv)]
    {
      ghost var count := |samples|;
      RingForward(count, size);
      forall j | count - n <= j < count && j + size > count ensures j % size != i {
        RingDistinct(j, count, size);
      }
      x[i] := xv;
      r[i] := rv;
      y[i] := xv * xv * rv;
      i := i + 1;
      if i >= size {
        i := 0;
      }
      if n < size {
        n := n + 1;
      }
      samples := samples + [Sample(xv, rv)];
    }

    /** Walks back from the newest sample and fits b (and a, in floating point, here real). */
    method Update()
      requires Valid() && n >= 1
      modifies this`a, this`b
      ensures Valid()
      ensures var s := Acc(weights, NewestX(samples, n), NewestY(samples, n), n); s.w > 0 && Slope(s, b) && Intercept(s, b, a)
      ensures var s := Acc(weights, NewestX(samples, n), NewestY(samples, n), n);
              Denominator(s) == 0 <==> exists c :: AllAt(weights, NewestX(samples, n), n, c)
    {
      var sums := Accumulate();
      WeightSum(weights, NewestX(samples, n), NewestY(samples, n), n);
      GramSign(weights, NewestX(samples, n), NewestY(samples, n), n);
      DenominatorSign(sums);
      b := FitSlope(sums);
      a := FitIntercept(sums, b);
    }

    method Accumulate() returns (sums: Sums)
      requires Valid()
      ensures sums == Acc(weights, NewestX(samples, n), NewestY(samples, n), n)
    {
      ghost var xs, ys := NewestX(samples, n), NewestY(samples, n);
      var at, idx := i, 0;
      sums := Sums(0, 0, 0, 0, 0);
      while idx < n
        invariant 0 <= idx <= n && at == (|samples| - idx) % size
        invariant sums == Acc(weights, xs, ys, idx)
      {
        RingBack(|samples| - idx, size);
        if at == 0 {
          at := size - 1;
        } else {
          at := at - 1;
        }
        ghost var j := |samples| - 1 - idx;
        assert Stored(samples[j], x[j % size], r[j % size], y[j % size]);
        sums := Add(sums, weights[idx], x[at], y[at]);
        idx := idx + 1;
      }
    }
  }

  lemma {:induction false} WeightSum(w: seq<int>, x: seq<int>, y: seq<int>, k: nat)
    requires GoodWeights(w) && 1 <= k <= 15 && k <= |x| && k <= |y|
    ensures Acc(w, x, y, k).w >= 1000
  {
    if k == 1 {
      assert Acc(w, x, y, 0).w == 0;
    } else {
      WeightSum(w, x, y, k - 1);
    }
  }
}
