/** One query row of causal attention, tile by tile, against the one-pass softmax.  Scores and values are
    read by column; whatever a masked load returns past the sequence end takes no part. */
module OnlineSoftmax {
  type Exp = real -> real

  ghost predicate Adds(e: Exp, x: real, y: real) { e(x + y) == e(x) * e(y) }

  /** All that is used of the exponential. */
  ghost predicate ExpLike(e: Exp) {
    (forall x: real :: e(x) > 0.0) && forall x: real, y: real :: Adds(e, x, y)
  }

  lemma Rescale(e: Exp, x: real, y: real)
    requires ExpLike(e)
    ensures e(x - y) * e(y) == e(x) && e(y) > 0.0
  {
    assert Adds(e, x - y, y);
    assert (x - y) + y == x;
  }

  // ── One-pass softmax ──

  /** Weighted sum of `g` over the first `n` columns. */
  ghost function Mass(e: Exp, s: nat -> real, g: nat -> real, n: nat): real {
    if n == 0 then 0.0 else Mass(e, s, g, n - 1) + e(s(n - 1)) * g(n - 1)
  }

  const ONE: nat -> real := (j: nat) => 1.0

  ghost function Softmax(e: Exp, s: nat -> real, g: nat -> real, n: nat): real
    requires Mass(e, s, ONE, n) != 0.0
  {
    Mass(e, s, g, n) / Mass(e, s, ONE, n)
  }

  lemma {:induction false} MassPositive(e: Exp, s: nat -> real, n: nat)
    requires ExpLike(e) && n > 0
    ensures Mass(e, s, ONE, n) > 0.0
    decreases n
  {
    assert ONE(n - 1) == 1.0;
    Rescale(e, 0.0, s(n - 1));
    if n > 1 {
      MassPositive(e, s, n - 1);
    } else {
      assert Mass(e, s, ONE, 0) == 0.0;
    }
  }

  lemma {:induction false} MassShift(e: Exp, s: nat -> real, g: nat -> real, n: nat, c: real)
    requires ExpLike(e)
    ensures Mass(e, (j: nat) => s(j) - c, g, n) * e(c) == Mass(e, s, g, n)
  {
    if n > 0 {
      MassShift(e, s, g, n - 1, c);
      Rescale(e, s(n - 1), c);
      var rest := Mass(e, (j: nat) => s(j) - c, g, n - 1);
      assert (rest + e(s(n - 1) - c) * g(n - 1)) * e(c) == rest * e(c) + e(s(n - 1) - c) * e(c) * g(n - 1);
    }
  }

  /** Subtracting any constant, such as the maximum, from all scores leaves the softmax unchanged. */
  lemma ShiftInvariant(e: Exp, s: nat -> real, g: nat -> real, n: nat, c: real)
    requires ExpLike(e) && n > 0
    ensures Mass(e, s, ONE, n) != 0.0 && Mass(e, (j: nat) => s(j) - c, ONE, n) != 0.0
    ensures Softmax(e, (j: nat) => s(j) - c, g, n) == Softmax(e, s, g, n)
  {
    var shifted := (j: nat) => s(j) - c;
    MassPositive(e, s, n);
    MassPositive(e, shifted, n);
    MassShift(e, s, g, n, c);
    MassShift(e, s, ONE, n, c);
    SameRatio(Mass(e, shifted, g, n), Mass(e, shifted, ONE, n), e(c));
  }

  lemma SameRatio(a: real, b: real, f: real)
    requires b != 0.0 && f != 0.0
    ensures b * f != 0.0 && (a * f) / (b * f) == a / b
  {
    var q := a / b;
    assert q * (b * f) == (q * b) * f == a * f;
  }

  // ── Masked scores ──

  datatype Score = NegInf | Fin(x: real)

  function MaxScore(a: Score, b: Score): Score {
    if a.NegInf? then b else if b.NegInf? then a else if a.x >= b.x then a else b
  }

  /** exp(a - b) for finite b; the difference of two infinities would not be a number. */
  function ExpDiff(e: Exp, a: Score, b: Score): real
    requires b.Fin?
  {
    if a.NegInf? then 0.0 else e(a.x - b.x)
  }

  /** The score of column `j` under the causal mask of row `r`. */
  function Masked(s: nat -> real, r: nat, j: nat): Score { if r >= j then Fin(s(j)) else NegInf }

  function TileMax(s: nat -> real, r: nat, c: nat, k: nat): Score {
    if k == 0 then NegInf else MaxScore(TileMax(s, r, c, k - 1), Masked(s, r, c + k - 1))
  }

  /** The contribution of the first `k` columns of the tile at `c`. */
  function TileMass(e: Exp, s: nat -> real, g: nat -> real, r: nat, c: nat, k: nat, m: Score): real
    requires m.Fin?
  {
    if k == 0 then 0.0 else TileMass(e, s, g, r, c, k - 1, m) + ExpDiff(e, Masked(s, r, c + k - 1), m) * g(c + k - 1)
  }

  // ── The recurrence ──

  /** Visible columns among the first `c`. */
  function Visible(r: nat, c: nat): nat { if c <= r + 1 then c else r + 1 }

  /** `m` is the maximum of the first `n` scores. */
  ghost predicate IsMax(s: nat -> real, n: nat, m: Score) {
    if n == 0 then m.NegInf?
    else m.Fin? && (forall j: nat | j < n :: s(j) <= m.x) && exists j: nat | j < n :: s(j) == m.x
  }

  /** An accumulator relative to the running maximum. */
  ghost predicate Accumulates(e: Exp, s: nat -> real, g: nat -> real, n: nat, m: Score, a: real) {
    if m.NegInf? then n == 0 && a == 0.0 else a * e(m.x) == Mass(e, s, g, n)
  }

  lemma {:induction false} TileMaxIsMax(s: nat -> real, r: nat, c: nat, k: nat, m: Score)
    requires IsMax(s, Visible(r, c), m)
    ensures IsMax(s, Visible(r, c + k), MaxScore(m, TileMax(s, r, c, k)))
    decreases k
  {
    if k > 0 {
      TileMaxIsMax(s, r, c, k - 1, m);
      TileMaxNext(s, r, c, k - 1, m);
    }
  }

  lemma TileMaxNext(s: nat -> real, r: nat, c: nat, k: nat, m: Score)
    requires IsMax(s, Visible(r, c + k), MaxScore(m, TileMax(s, r, c, k)))
    ensures IsMax(s, Visible(r, c + (k + 1)), MaxScore(m, TileMax(s, r, c, k + 1)))
  {
    var best := MaxScore(m, TileMax(s, r, c, k));
    MaxJoin(s, r, c + k, best);
    assert c + k + 1 == c + (k + 1);
    assert MaxScore(m, TileMax(s, r, c, k + 1)) == MaxScore(best, Masked(s, r, c + k));
  }

  lemma MaxJoin(s: nat -> real, r: nat, j: nat, m: Score)
    requires IsMax(s, Visible(r, j), m)
    ensures IsMax(s, Visible(r, j + 1), MaxScore(m, Masked(s, r, j)))
  {
    var n := MaxScore(m, Masked(s, r, j));
    if r >= j && m.Fin? && n == m {
      var i: nat :| i < Visible(r, j) && s(i) == m.x;
      assert i < Visible(r, j + 1) && s(i) == n.x;
    } else if r >= j {
      assert j < Visible(r, j + 1) && s(j) == n.x;
    }
  }

  /** What column `j` adds to the mass of row `r`. */
  ghost function ColumnMass(e: Exp, s: nat -> real, g: nat -> real, r: nat, j: nat): real {
    if j <= r then e(s(j)) * g(j) else 0.0
  }

  lemma MassNext(e: Exp, s: nat -> real, g: nat -> real, r: nat, j: nat)
    ensures Mass(e, s, g, Visible(r, j + 1)) == Mass(e, s, g, Visible(r, j)) + ColumnMass(e, s, g, r, j)
  {
  }

  ghost function ScaledTile(e: Exp, s: nat -> real, g: nat -> real, r: nat, c: nat, k: nat, m: Score): real
    requires m.Fin?
  {
    TileMass(e, s, g, r, c, k, m) * e(m.x)
  }

  lemma ScaledNext(e: Exp, s: nat -> real, g: nat -> real, r: nat, c: nat, k: nat, m: Score)
    requires ExpLike(e) && m.Fin?
    ensures ScaledTile(e, s, g, r, c, k + 1, m) == ScaledTile(e, s, g, r, c, k, m) + ColumnMass(e, s, g, r, c + k)
  {
    var j, rest := c + k, TileMass(e, s, g, r, c, k, m);
    var p := ExpDiff(e, Masked(s, r, j), m);
    assert TileMass(e, s, g, r, c, k + 1, m) == rest + p * g(j);
    assert (rest + p * g(j)) * e(m.x) == rest * e(m.x) + (p * e(m.x)) * g(j);
    if j <= r {
      Rescale(e, s(j), m.x);
    }
  }

  ghost predicate TileAdds(e: Exp, s: nat -> real, g: nat -> real, r: nat, c: nat, k: nat, m: Score)
    requires m.Fin?
  {
    Mass(e, s, g, Visible(r, c)) + ScaledTile(e, s, g, r, c, k, m) == Mass(e, s, g, Visible(r, c + k))
  }

  lemma TileAddsNext(e: Exp, s: nat -> real, g: nat -> real, r: nat, c: nat, k: nat, m: Score)
    requires ExpLike(e) && m.Fin? && TileAdds(e, s, g, r, c, k, m)
    ensures TileAdds(e, s, g, r, c, k + 1, m)
  {
    ScaledNext(e, s, g, r, c, k, m);
    MassAfter(e, s, g, r, c, k);
  }

  lemma MassAfter(e: Exp, s: nat -> real, g: nat -> real, r: nat, c: nat, k: nat)
    ensures Mass(e, s, g, Visible(r, c + (k + 1)))
            == Mass(e, s, g, Visible(r, c + k)) + ColumnMass(e, s, g, r, c + k)
  {
    MassNext(e, s, g, r, c + k);
    assert c + k + 1 == c + (k + 1);
  }

  lemma {:induction false} TileMassAdds(e: Exp, s: nat -> real, g: nat -> real, r: nat, c: nat, k: nat, m: Score)
    requires ExpLike(e) && m.Fin?
    ensures TileAdds(e, s, g, r, c, k, m)
    decreases k
  {
    if k == 0 {
      assert TileMass(e, s, g, r, c, 0, m) == 0.0;
    } else {
      TileMassAdds(e, s, g, r, c, k - 1, m);
      TileAddsNext(e, s, g, r, c, k - 1, m);
    }
  }

  /** One tile: the old accumulator is rescaled by exp(m - m'), the tile is added relative to m'. */
  lemma TileStep(e: Exp, s: nat -> real, g: nat -> real, r: nat, c: nat, w: nat, m: Score, m': Score, a: real)
    requires ExpLike(e) && m'.Fin? && Accumulates(e, s, g, Visible(r, c), m, a)
    ensures Accumulates(e, s, g, Visible(r, c + w), m', Rescaled(e, s, g, r, c, w, m, m', a))
  {
    TileMassAdds(e, s, g, r, c, w, m');
    var alpha, tile := ExpDiff(e, m, m'), TileMass(e, s, g, r, c, w, m');
    assert (a * alpha + tile) * e(m'.x) == a * (alpha * e(m'.x)) + tile * e(m'.x);
    if m.Fin? {
      Rescale(e, m.x, m'.x);
    }
  }

  // ── The loop ──

  function Column(v: (nat, nat) -> real, d: nat): nat -> real { (j: nat) => v(j, d) }

  lemma FinalRatio(e: Exp, s: nat -> real, g: nat -> real, n: nat, m: Score, l: real, a: real)
    requires ExpLike(e) && n > 0 && m.Fin?
    requires Accumulates(e, s, ONE, n, m, l) && Accumulates(e, s, g, n, m, a)
    ensures l > 0.0 && Mass(e, s, ONE, n) != 0.0 && a / l == Softmax(e, s, g, n)
  {
    MassPositive(e, s, n);
    Rescale(e, m.x, m.x);
    SameRatio(a, l, e(m.x));
  }

  /** The accumulators of all value columns. */
  ghost predicate AccumulateAll(e: Exp, s: nat -> real, v: (nat, nat) -> real, n: nat, m: Score, acc: seq<real>) {
    forall d | 0 <= d < |acc| :: Accumulates(e, s, Column(v, d), n, m, acc[d])
  }

  /** Rescaling by exp(m - m') and adding the tile: one accumulator. */
  function Rescaled(e: Exp, s: nat -> real, g: nat -> real, r: nat, c: nat, w: nat, m: Score, m': Score, a: real): real
    requires m'.Fin?
  {
    a * ExpDiff(e, m, m') + TileMass(e, s, g, r, c, w, m')
  }

  function RescaledAll(e: Exp, s: nat -> real, v: (nat, nat) -> real, r: nat, c: nat, w: nat, m: Score, m': Score,
                       acc: seq<real>): seq<real>
    requires m'.Fin?
  {
    seq(|acc|, d requires 0 <= d < |acc| => Rescaled(e, s, Column(v, d), r, c, w, m, m', acc[d]))
  }

  lemma AllTileStep(e: Exp, s: nat -> real, v: (nat, nat) -> real, r: nat, c: nat, w: nat, m: Score, m': Score,
                    acc: seq<real>)
    requires ExpLike(e) && m'.Fin? && AccumulateAll(e, s, v, Visible(r, c), m, acc)
    ensures AccumulateAll(e, s, v, Visible(r, c + w), m', RescaledAll(e, s, v, r, c, w, m, m', acc))
  {
    forall d | 0 <= d < |acc|
      ensures Accumulates(e, s, Column(v, d), Visible(r, c + w), m',
              Rescaled(e, s, Column(v, d), r, c, w, m, m', acc[d]))
    {
      TileStep(e, s, Column(v, d), r, c, w, m, m', acc[d]);
    }
  }

  /** The state when the first `c` columns are done. */
  ghost predicate RowState(e: Exp, s: nat -> real, v: (nat, nat) -> real, r: nat, c: nat, m: Score, l: real,
                           acc: seq<real>) {
    var n := Visible(r, c);
    IsMax(s, n, m) && Accumulates(e, s, ONE, n, m, l) && AccumulateAll(e, s, v, n, m, acc)
  }

  lemma RowStart(e: Exp, s: nat -> real, v: (nat, nat) -> real, r: nat, acc: seq<real>)
    requires forall d | 0 <= d < |acc| :: acc[d] == 0.0
    ensures RowState(e, s, v, r, 0, NegInf, 0.0, acc)
  {
  }

  lemma RowHasMax(e: Exp, s: nat -> real, v: (nat, nat) -> real, r: nat, c: nat, w: nat, m: Score, l: real,
                  acc: seq<real>)
    requires RowState(e, s, v, r, c, m, l, acc) && w > 0
    ensures MaxScore(m, TileMax(s, r, c, w)).Fin?
  {
    TileMaxIsMax(s, r, c, w, m);
  }

  lemma RowStep(e: Exp, s: nat -> real, v: (nat, nat) -> real, r: nat, c: nat, w: nat, m: Score, l: real,
                acc: seq<real>, m': Score)
    requires ExpLike(e) && RowState(e, s, v, r, c, m, l, acc) && m' == MaxScore(m, TileMax(s, r, c, w)) && m'.Fin?
    ensures RowState(e, s, v, r, c + w, m', Rescaled(e, s, ONE, r, c, w, m, m', l),
            RescaledAll(e, s, v, r, c, w, m, m', acc))
  {
    TileMaxIsMax(s, r, c, w, m);
    TileStep(e, s, ONE, r, c, w, m, m', l);
    AllTileStep(e, s, v, r, c, w, m, m', acc);
  }

  function Divided(acc: seq<real>, l: real): seq<real>
    requires l != 0.0
  {
    seq(|acc|, d requires 0 <= d < |acc| => acc[d] / l)
  }

  lemma FinalRow(e: Exp, s: nat -> real, v: (nat, nat) -> real, r: nat, c: nat, m: Score, l: real, acc: seq<real>)
    requires ExpLike(e) && r < c && RowState(e, s, v, r, c, m, l, acc)
    ensures l > 0.0 && Mass(e, s, ONE, r + 1) != 0.0
    ensures forall d | 0 <= d < |acc| :: Divided(acc, l)[d] == Softmax(e, s, Column(v, d), r + 1)
  {
    var n := r + 1;
    FinalRatio(e, s, ONE, n, m, l, l);
    forall d | 0 <= d < |acc| ensures acc[d] / l == Softmax(e, s, Column(v, d), n) {
      FinalRatio(e, s, Column(v, d), n, m, l, acc[d]);
    }
  }

  /** The kernel's loop over tiles of any width, for row `r` of a sequence of `n`: no infinity is ever
      subtracted from another, and the result is the softmax-weighted sum of the visible value rows. */
  method AttendRow(e: Exp, s: nat -> real, v: (nat, nat) -> real, dim: nat, r: nat, n: nat, w: nat)
    returns (out: seq<real>)
    requires ExpLike(e) && r < n && w > 0
    ensures |out| == dim && Mass(e, s, ONE, r + 1) != 0.0
    ensures forall d | 0 <= d < dim :: out[d] == Softmax(e, s, (j: nat) => v(j, d), r + 1)
  {
    var m := NegInf;
    var l := 0.0;
    var acc := seq(dim, d => 0.0);
    RowStart(e, s, v, r, acc);
    var c := 0;
    while c < n
      invariant |acc| == dim && RowState(e, s, v, r, c, m, l, acc)
    {
      RowHasMax(e, s, v, r, c, w, m, l, acc);
      var next := MaxScore(m, TileMax(s, r, c, w));
      RowStep(e, s, v, r, c, w, m, l, acc, next);
      l := Rescaled(e, s, ONE, r, c, w, m, next, l);
      acc := RescaledAll(e, s, v, r, c, w, m, next, acc);
      m := next;
      c := c + w;
    }
    FinalRow(e, s, v, r, c, m, l, acc);
    out := Divided(acc, l);
  }
}
