/** SmoothQuant: column rescaling, per-channel INT8 weights, and the W8A8 product. */
module SmoothQuant {
  import opened Options
  import opened Matrices
  import opened Rounding

  /** |a - b| <= e */
  ghost predicate Within(a: real, b: real, e: real) { a - b <= e && b - a <= e }

  // ── Per-channel INT8 ──

  const INT8_LEVELS: int := 127

  function ChannelCode(x: real, s: real): int
    requires s > 0.0
  {
    var c := Code(x, s);
    if c < -128 then -128 else if c > 127 then 127 else c
  }

  function Channel(w: Mat, i: nat): (r: seq<real>)
    ensures |r| == w.cols
  {
    seq(w.cols, j requires 0 <= j < w.cols => At(w, i, j))
  }

  function ChannelScale(w: Mat, i: nat): (r: real)
    ensures r >= TINY
  {
    ScaleOf(Channel(w, i), INT8_LEVELS)
  }

  datatype Int8 = Int8(codes: seq<seq<int>>, scales: seq<real>)

  function QuantizePerChannel(w: Mat): (q: Int8)
    ensures |q.codes| == |q.scales| == w.rows
  {
    Int8(seq(w.rows, i requires 0 <= i < w.rows => seq(w.cols,
        j requires 0 <= j < w.cols => ChannelCode(At(w, i, j), ChannelScale(w, i)))),
         seq(w.rows, i requires 0 <= i < w.rows => ChannelScale(w, i)))
  }

  function CodeAt(q: Int8, i: nat, j: nat): int { if i < |q.codes| && j < |q.codes[i]| then q.codes[i][j] else 0 }

  function DequantizePerChannel(q: Int8, rows: nat, cols: nat): Mat
    requires rows <= |q.scales|
  {
    Build(rows, cols, (i: nat, j: nat) => if i < rows then Dequant(CodeAt(q, i, j), q.scales[i]) else 0.0)
  }

  /** No code is clamped, and every weight comes back within half its channel's scale. */
  lemma ChannelError(w: Mat, i: nat, j: nat)
    requires i < w.rows && j < w.cols
    ensures var q := QuantizePerChannel(w);
            && -127 <= CodeAt(q, i, j) <= 127 && CodeAt(q, i, j) == Code(At(w, i, j), q.scales[i])
            && Within(At(DequantizePerChannel(q, w.rows, w.cols), i, j), At(w, i, j), q.scales[i] / 2.0)
  {
    assert Channel(w, i)[j] == At(w, i, j);
    CodeInRange(Channel(w, i), INT8_LEVELS, j);
    HalfStep(At(w, i, j), ChannelScale(w, i));
  }

  /** In terms of the weights alone: a weight comes back within a 254th of the largest magnitude `m` of its channel
      (of 127e-9 in a smaller channel), and a weight of that magnitude exactly. */
  lemma ChannelRecovered(w: Mat, i: nat, j: nat, m: real)
    requires i < w.rows && j < w.cols && forall k: nat | k < w.cols :: Abs(At(w, i, k)) <= m
    ensures var x := At(DequantizePerChannel(QuantizePerChannel(w), w.rows, w.cols), i, j);
            && Abs(x - At(w, i, j)) * 254.0 <= (if m >= 0.000000127 then m else 0.000000127)
            && (Abs(At(w, i, j)) == m >= 0.000000127 ==> x == At(w, i, j))
  {
    ChannelError(w, i, j);
    assert forall k: nat | k < w.cols :: Channel(w, i)[k] == At(w, i, k);
    var s := ChannelScale(w, i);
    ValueRecovered(Channel(w, i), INT8_LEVELS, j, m, s, Dequant(Code(At(w, i, j), s), s), 0.000000127);
  }

  // ── Smoothing ──

  type Pow = (real, real) -> real

  /** x^y * x^(1-y) == x */
  ghost predicate PowersSplit(pow: Pow, x: real, y: real) { pow(x, y) * pow(x, 1.0 - y) == x }

  /** What is used of the power function. */
  ghost predicate PowLike(pow: Pow) {
    && (forall x: real, y: real | x > 0.0 :: pow(x, y) > 0.0)
    && (forall y: real | y > 0.0 :: pow(0.0, y) == 0.0)
    && pow(0.0, 0.0) == 1.0
    && forall x: real, y: real | x >= 0.0 && 0.0 <= y <= 1.0 :: PowersSplit(pow, x, y)
  }

  const FLOOR: real := 0.00000001

  /** max|X_j|^alpha / max|W_j|^(1-alpha), at least 1e-8; `None` where the division is by zero. */
  function Factor(pow: Pow, alpha: real, act: real, weight: real): Option<real> {
    var d := pow(weight, 1.0 - alpha);
    if d == 0.0 then None else Some(MaxReal(pow(act, alpha) / d, FLOOR))
  }

  /** A factor is finite exactly when the weight column is non-zero or alpha is 1, and is then positive. */
  lemma FactorFiniteIff(pow: Pow, alpha: real, act: real, weight: real)
    requires PowLike(pow) && 0.0 <= alpha <= 1.0 && weight >= 0.0
    ensures Factor(pow, alpha, act, weight).Some? <==> weight > 0.0 || alpha == 1.0
    ensures Factor(pow, alpha, act, weight).Some? ==> Factor(pow, alpha, act, weight).value >= FLOOR
  {
    if weight == 0.0 && alpha < 1.0 {
      assert pow(0.0, 1.0 - alpha) == 0.0;
    } else if weight == 0.0 {
      assert 1.0 - alpha == 0.0;
    }
  }

  /** Migration.  A factor above the floor splits the ranges of both sides by the power law: the weight column
      keeps max|X|^alpha * max|W|^alpha and the activation max|X|^(1-alpha) * max|W|^(1-alpha). */
  lemma FactorMigrates(pow: Pow, alpha: real, act: real, weight: real)
    requires PowLike(pow) && 0.0 <= alpha <= 1.0 && act >= 0.0 && weight >= 0.0 && (weight > 0.0 || alpha == 1.0)
    ensures Factor(pow, alpha, act, weight).Some? && Factor(pow, alpha, act, weight).value > 0.0
    ensures var s := Factor(pow, alpha, act, weight).value;
            if pow(act, alpha) >= 0.00000001 * pow(weight, 1.0 - alpha) then
              && weight * s == pow(act, alpha) * pow(weight, alpha)
              && act * (1.0 / s) == pow(act, 1.0 - alpha) * pow(weight, 1.0 - alpha)
            else s == 0.00000001
  {
    FactorFiniteIff(pow, alpha, act, weight);
    var p, d := pow(act, alpha), pow(weight, 1.0 - alpha);
    DenominatorPositive(pow, alpha, weight);
    AboveFloor(p, d);
    if p >= FLOOR * d {
      FloorPositive(d);
      assert PowersSplit(pow, act, alpha) && PowersSplit(pow, weight, alpha);
      SplitRanges(p, d, pow(act, 1.0 - alpha), pow(weight, alpha), act, weight);
    }
  }

  lemma FloorPositive(d: real)
    requires d > 0.0
    ensures FLOOR * d > 0.0
  {
  }

  lemma DenominatorPositive(pow: Pow, alpha: real, weight: real)
    requires PowLike(pow) && weight >= 0.0 && (weight > 0.0 || alpha == 1.0)
    ensures pow(weight, 1.0 - alpha) > 0.0
  {
    if weight == 0.0 {
      assert 1.0 - alpha == 0.0;
    }
  }

  lemma AboveFloor(p: real, d: real)
    requires d > 0.0
    ensures p / d >= FLOOR <==> p >= FLOOR * d
  {
    DivMul(p, d);
    if p / d >= FLOOR {
      MulMono(FLOOR, p / d, d);
    }
    if p / d < FLOOR {
      assert (FLOOR - p / d) * d > 0.0;
      assert (FLOOR - p / d) * d == FLOOR * d - p;
    }
  }

  lemma SplitRanges(p: real, d: real, q: real, e: real, act: real, weight: real)
    requires p > 0.0 && d > 0.0 && p * q == act && e * d == weight
    ensures p / d > 0.0 && weight * (p / d) == p * e && act * (1.0 / (p / d)) == q * d
  {
    var s := p / d;
    DivMul(p, d);
    assert s > 0.0;
    assert weight * s == e * (s * d);
    DivMul(1.0, s);
    var t := 1.0 / s;
    assert act * t == q * ((s * d) * t) == q * (d * (t * s));
  }

  function ColumnMax(w: Mat, j: nat): real { MaxAbs(seq(w.rows, i requires 0 <= i < w.rows => At(w, i, j))) }

  ghost predicate Positive(s: seq<real>) { forall j | 0 <= j < |s| :: s[j] > 0.0 }

  /** W * s, column by column. */
  function Smoothed(w: Mat, s: seq<real>): Mat {
    Build(w.rows, w.cols, (i: nat, j: nat) => At(w, i, j) * EntryOr(s, j))
  }

  function EntryOr(s: seq<real>, j: nat): real { if j < |s| then s[j] else 1.0 }

  /** The stored activation scales, 1 / s. */
  function Inverses(s: seq<real>): (r: seq<real>)
    requires Positive(s)
    ensures |r| == |s| && Positive(r)
  {
    seq(|s|, j requires 0 <= j < |s| => 1.0 / s[j])
  }

  /** activation * act_scale. */
  function ScaledInput(x: Mat, t: seq<real>): Mat {
    Build(x.rows, x.cols, (i: nat, j: nat) => At(x, i, j) * EntryOr(t, j))
  }

  lemma Cancel(x: real, w: real, s: real)
    requires s > 0.0
    ensures (x * (1.0 / s)) * (w * s) == x * w
  {
    DivMul(1.0, s);
    var t := 1.0 / s;
    assert (x * t) * (w * s) == (x * w) * (t * s);
  }

  lemma {:induction false} SmoothDot(x: Mat, w: Mat, s: seq<real>, i: nat, o: nat, k: nat)
    requires Positive(s) && x.cols == w.cols == |s| && i < x.rows && o < w.rows && k <= |s|
    ensures DotT(ScaledInput(x, Inverses(s)), Smoothed(w, s), i, o, k) == DotT(x, w, i, o, k)
  {
    if k > 0 {
      SmoothDot(x, w, s, i, o, k - 1);
      Cancel(At(x, i, k - 1), At(w, o, k - 1), s[k - 1]);
    }
  }

  /** Rescaling alone preserves the product exactly. */
  lemma SmoothingPreserves(x: Mat, w: Mat, s: seq<real>)
    requires Positive(s) && x.cols == w.cols == |s|
    ensures MatMulT(ScaledInput(x, Inverses(s)), Smoothed(w, s)) == MatMulT(x, w)
  {
    var left, right := MatMulT(ScaledInput(x, Inverses(s)), Smoothed(w, s)), MatMulT(x, w);
    forall i: nat, o: nat | i < x.rows && o < w.rows ensures At(left, i, o) == At(right, i, o) {
      SmoothDot(x, w, s, i, o, |s|);
    }
    MatEqual(left, right);
  }

  // ── W8A8 ──

  /** Dequantise weights, scale activations, multiply. */
  function W8A8(x: Mat, t: Option<seq<real>>, q: Int8, cols: nat): Mat {
    MatMulT(if t.Some? then ScaledInput(x, t.value) else x, DequantizePerChannel(q, |q.scales|, cols))
  }

  ghost predicate Close(f: nat -> real, g: nat -> real, h: nat -> real, j: nat) { Within(f(j), g(j), h(j)) }

  lemma {:induction false} SumError(f: nat -> real, g: nat -> real, h: nat -> real, n: nat)
    requires forall j: nat | j < n :: Close(f, g, h, j)
    ensures Within(Sum(f, n), Sum(g, n), Sum(h, n))
  {
    if n > 0 {
      SumError(f, g, h, n - 1);
      assert Close(f, g, h, n - 1);
    }
  }

  lemma {:induction false} SumScaled(f: nat -> real, h: nat -> real, e: real, n: nat)
    requires forall j: nat | j < n :: h(j) == e * f(j)
    ensures Sum(h, n) == e * Sum(f, n)
  {
    if n > 0 {
      SumScaled(f, h, e, n - 1);
      assert h(n - 1) == e * f(n - 1);
      assert e * (Sum(f, n - 1) + f(n - 1)) == e * Sum(f, n - 1) + e * f(n - 1);
    }
  }

  function Terms(y: Mat, w: Mat, i: nat, o: nat): nat -> real { (j: nat) => At(y, i, j) * At(w, o, j) }

  lemma {:induction false} DotIsSum(y: Mat, w: Mat, i: nat, o: nat, n: nat)
    ensures DotT(y, w, i, o, n) == Sum(Terms(y, w, i, o), n)
  {
    if n > 0 {
      DotIsSum(y, w, i, o, n - 1);
    }
  }

  function Times(e: real, f: nat -> real): nat -> real { (j: nat) => e * f(j) }

  function AbsRow(y: Mat, i: nat): nat -> real { (j: nat) => Abs(At(y, i, j)) }

  lemma ProductError(y: real, b: real, c: real, e: real)
    requires Within(b, c, e)
    ensures Within(y * b, y * c, e * Abs(y))
  {
    assert y * b - y * c == y * (b - c);
    if y >= 0.0 {
      MulMono(b - c, e, y);
      MulMono(-e, b - c, y);
    } else {
      MulMono(b - c, e, -y);
      MulMono(-e, b - c, -y);
    }
  }

  lemma ColumnError(y: Mat, w: Mat, v: Mat, e: real, i: nat, o: nat, j: nat)
    requires Within(At(v, o, j), At(w, o, j), e)
    ensures Close(Terms(y, v, i, o), Terms(y, w, i, o), Times(e, AbsRow(y, i)), j)
  {
    ProductError(At(y, i, j), At(v, o, j), At(w, o, j), e);
  }

  lemma DotError(y: Mat, w: Mat, v: Mat, h: nat -> real, i: nat, o: nat, n: nat)
    requires forall j: nat | j < n :: Close(Terms(y, v, i, o), Terms(y, w, i, o), h, j)
    ensures Within(DotT(y, v, i, o, n), DotT(y, w, i, o, n), Sum(h, n))
  {
    SumError(Terms(y, v, i, o), Terms(y, w, i, o), h, n);
    DotIsSum(y, v, i, o, n);
    DotIsSum(y, w, i, o, n);
  }

  lemma ProductEntry(y: Mat, w: Mat, i: nat, o: nat)
    requires i < y.rows && o < w.rows
    ensures At(MatMulT(y, w), i, o) == DotT(y, w, i, o, y.cols)
  {
  }

  /** Entry (i, o) of two products differs by at most the sum of the first `n` terms of `h`. */
  ghost predicate EntryWithin(a: Mat, b: Mat, i: nat, o: nat, h: nat -> real, n: nat) {
    Within(At(a, i, o), At(b, i, o), Sum(h, n))
  }

  lemma ProductsWithin(y: Mat, w: Mat, v: Mat, h: nat -> real, i: nat, o: nat)
    requires i < y.rows && o < w.rows && o < v.rows
    requires forall j: nat | j < y.cols :: Close(Terms(y, v, i, o), Terms(y, w, i, o), h, j)
    ensures EntryWithin(MatMulT(y, v), MatMulT(y, w), i, o, h, y.cols)
  {
    DotError(y, w, v, h, i, o, y.cols);
    ProductEntry(y, v, i, o);
    ProductEntry(y, w, i, o);
  }

  lemma ChannelClose(w: Mat, q: Int8, v: Mat, o: nat, j: nat)
    requires q == QuantizePerChannel(w) && v == DequantizePerChannel(q, w.rows, w.cols) && o < w.rows && j < w.cols
    ensures Within(At(v, o, j), At(w, o, j), q.scales[o] / 2.0)
  {
    ChannelError(w, o, j);
  }

  /** INT8 weights: each output is off by at most half its channel's scale times the sum of |y_j|. */
  lemma QuantizedProduct(y: Mat, w: Mat, q: Int8, v: Mat, i: nat, o: nat)
    requires q == QuantizePerChannel(w) && v == DequantizePerChannel(q, w.rows, w.cols)
    requires y.cols == w.cols && i < y.rows && o < w.rows
    ensures EntryWithin(MatMulT(y, v), MatMulT(y, w), i, o, Times(q.scales[o] / 2.0, AbsRow(y, i)), y.cols)
  {
    var e := q.scales[o] / 2.0;
    forall j: nat | j < y.cols ensures Within(At(v, o, j), At(w, o, j), e) {
      ChannelClose(w, q, v, o, j);
    }
    EntriesClose(y, w, v, e, i, o);
  }

  lemma EntriesClose(y: Mat, w: Mat, v: Mat, e: real, i: nat, o: nat)
    requires i < y.rows && o < w.rows && o < v.rows
    requires forall j: nat | j < y.cols :: Within(At(v, o, j), At(w, o, j), e)
    ensures EntryWithin(MatMulT(y, v), MatMulT(y, w), i, o, Times(e, AbsRow(y, i)), y.cols)
  {
    forall j: nat | j < y.cols ensures Close(Terms(y, v, i, o), Terms(y, w, i, o), Times(e, AbsRow(y, i)), j) {
      ColumnError(y, w, v, e, i, o, j);
    }
    ProductsWithin(y, w, v, Times(e, AbsRow(y, i)), i, o);
  }

  /** |x_j| / s_j */
  function InputTerms(x: Mat, s: seq<real>, i: nat): nat -> real {
    (j: nat) => if j < |s| && s[j] > 0.0 then Abs(At(x, i, j)) / s[j] else 0.0
  }

  lemma DivAbs(x: real, s: real)
    requires s > 0.0
    ensures Abs(x * (1.0 / s)) == Abs(x) / s
  {
    assert x * (1.0 / s) == x / s;
    if x >= 0.0 {
      assert x / s >= 0.0;
    } else {
      assert (-x) / s >= 0.0;
      assert (-x) / s == -(x / s);
    }
  }

  ghost predicate SameAt(f: nat -> real, g: nat -> real, j: nat) { f(j) == g(j) }

  lemma {:induction false} TimesSame(e: real, f: nat -> real, g: nat -> real, n: nat)
    requires forall j: nat | j < n :: SameAt(f, g, j)
    ensures Sum(Times(e, f), n) == Sum(Times(e, g), n)
  {
    if n > 0 {
      TimesSame(e, f, g, n - 1);
      assert SameAt(f, g, n - 1);
    }
  }

  lemma InputTermIs(x: Mat, s: seq<real>, i: nat, j: nat)
    requires Positive(s) && x.cols == |s| && i < x.rows && j < |s|
    ensures SameAt(AbsRow(ScaledInput(x, Inverses(s)), i), InputTerms(x, s, i), j)
  {
    DivAbs(At(x, i, j), s[j]);
  }

  lemma InputMass(x: Mat, y: Mat, s: seq<real>, i: nat, e: real)
    requires Positive(s) && x.cols == |s| && i < x.rows && y == ScaledInput(x, Inverses(s))
    ensures Sum(Times(e, AbsRow(y, i)), |s|) == Sum(Times(e, InputTerms(x, s, i)), |s|)
  {
    var f, g := AbsRow(y, i), InputTerms(x, s, i);
    forall j: nat | j < |s| ensures SameAt(f, g, j) {
      InputTermIs(x, s, i, j);
    }
    TimesSame(e, f, g, |s|);
  }

  lemma W8A8IsProduct(x: Mat, t: seq<real>, w: Mat, y: Mat, q: Int8, v: Mat)
    requires y == ScaledInput(x, t) && q == QuantizePerChannel(w) && v == DequantizePerChannel(q, w.rows, w.cols)
    ensures W8A8(x, Some(t), q, w.cols) == MatMulT(y, v)
  {
  }

  /** The W8A8 product of a layer, against the product with its own weight. */
  lemma W8A8Within(x: Mat, t: seq<real>, w: Mat, y: Mat, q: Int8, a: Mat, b: Mat, e: real, i: nat, o: nat)
    requires y == ScaledInput(x, t) && q == QuantizePerChannel(w) && x.cols == w.cols && i < x.rows && o < w.rows
    requires a == W8A8(x, Some(t), q, w.cols) && b == MatMulT(y, w) && e == q.scales[o] / 2.0
    ensures EntryWithin(a, b, i, o, Times(e, AbsRow(y, i)), x.cols)
  {
    var v := DequantizePerChannel(q, w.rows, w.cols);
    W8A8IsProduct(x, t, w, y, q, v);
    QuantizedProduct(y, w, q, v, i, o);
  }

  /** |u - v| <= e * (f(0) + ... + f(n - 1)) */
  ghost predicate WithinShare(u: real, v: real, e: real, f: nat -> real, n: nat) { Within(u, v, e * Sum(f, n)) }

  lemma BoundFactored(u: real, v: real, e: real, f: nat -> real, n: nat)
    requires Within(u, v, Sum(Times(e, f), n))
    ensures WithinShare(u, v, e, f, n)
  {
    SumScaled(f, Times(e, f), e, n);
  }

  lemma BoundInInputs(a: Mat, b: Mat, x: Mat, s: seq<real>, y: Mat, e: real, i: nat, o: nat)
    requires Positive(s) && x.cols == |s| && i < x.rows && y == ScaledInput(x, Inverses(s))
    requires EntryWithin(a, b, i, o, Times(e, AbsRow(y, i)), x.cols)
    ensures WithinShare(At(a, i, o), At(b, i, o), e, InputTerms(x, s, i), |s|)
  {
    InputMass(x, y, s, i, e);
    BoundFactored(At(a, i, o), At(b, i, o), e, InputTerms(x, s, i), |s|);
  }

  /** The same bound in terms of the unscaled input. */
  lemma W8A8InInputs(x: Mat, s: seq<real>, w: Mat, y: Mat, q: Int8, a: Mat, b: Mat, e: real, i: nat, o: nat)
    requires Positive(s) && x.cols == w.cols == |s| && i < x.rows && o < w.rows
    requires y == ScaledInput(x, Inverses(s)) && q == QuantizePerChannel(w)
    requires a == W8A8(x, Some(Inverses(s)), q, w.cols) && b == MatMulT(y, w) && e == q.scales[o] / 2.0
    ensures WithinShare(At(a, i, o), At(b, i, o), e, InputTerms(x, s, i), |s|)
  {
    W8A8Within(x, Inverses(s), w, y, q, a, b, e, i, o);
    BoundInInputs(a, b, x, s, y, e, i, o);
  }

  lemma W8A8Smoothed(x: Mat, w: Mat, s: seq<real>, v: Mat, q: Int8, a: Mat, b: Mat, e: real, i: nat, o: nat)
    requires Positive(s) && x.cols == w.cols == |s| && i < x.rows && o < w.rows
    requires v == Smoothed(w, s) && q == QuantizePerChannel(v)
    requires a == W8A8(x, Some(Inverses(s)), q, w.cols) && b == MatMulT(x, w) && e == q.scales[o] / 2.0
    ensures WithinShare(At(a, i, o), At(b, i, o), e, InputTerms(x, s, i), |s|)
  {
    SmoothingPreserves(x, w, s);
    W8A8InInputs(x, s, v, ScaledInput(x, Inverses(s)), q, a, b, e, i, o);
  }

  /** Main result.  Smoothing, INT8 quantisation and the W8A8 product: each output differs from the original
      layer's by at most half its channel's scale times the sum of |x_j| / s_j. */
  lemma W8A8Error(x: Mat, w: Mat, s: seq<real>, i: nat, o: nat)
    requires Positive(s) && x.cols == w.cols == |s| && i < x.rows && o < w.rows
    ensures var q := QuantizePerChannel(Smoothed(w, s));
            WithinShare(At(W8A8(x, Some(Inverses(s)), q, w.cols), i, o), At(MatMulT(x, w), i, o),
                        q.scales[o] / 2.0, InputTerms(x, s, i), |s|)
  {
    var q := QuantizePerChannel(Smoothed(w, s));
    W8A8Smoothed(x, w, s, Smoothed(w, s), q, W8A8(x, Some(Inverses(s)), q, w.cols), MatMulT(x, w), q.scales[o] / 2.0,
                 i, o);
  }
}
