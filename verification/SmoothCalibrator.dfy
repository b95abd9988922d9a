/** The SmoothQuant calibrator: what it stores for each layer, and when the layer keeps its function. */
module SmoothCalibrator {
  import opened Options
  import opened Lists
  import opened Matrices
  import opened Rounding
  import opened SmoothQuant

  // ── One layer ──

  /** A layer's weight; the entries of its `lost` columns are no numbers any more. */
  datatype Weight = Weight(mat: Mat, lost: set<nat>)

  /** One factor per column; `None` is a factor that is not finite. */
  type Factors = seq<Option<real>>

  function LayerFactors(pow: Pow, alpha: real, w: Weight, act: seq<real>): Factors {
    seq(|act|, j requires 0 <= j < |act| => if j in w.lost then None else Factor(pow, alpha, act[j],
        ColumnMax(w.mat, j)))
  }

  function Finite(s: Factors): seq<real> {
    seq(|s|, j requires 0 <= j < |s| => if s[j].Some? then s[j].value else 1.0)
  }

  /** weight * s: a factor that is not finite loses its column. */
  function Rescaled(w: Weight, s: Factors): Weight {
    Weight(Smoothed(w.mat, Finite(s)), w.lost + set j: nat | j < |s| && s[j].None?)
  }

  /** 1 / s.  The reciprocal of an infinite factor would be 0; it is `None` here, since its column is lost
      from the weight already. */
  function InverseOf(s: Factors): Factors {
    seq(|s|, j requires 0 <= j < |s| => if s[j].Some? && s[j].value != 0.0 then Some(1.0 / s[j].value) else None)
  }

  /** Row maxima run over all columns, so one lost column leaves no row with a scale. */
  function QuantizeWeight(w: Weight): Option<Int8> { if w.lost == {} then Some(QuantizePerChannel(w.mat)) else None }

  predicate Applies(w: Weight, act: seq<real>) { w.mat.cols == |act| }

  // ── The calibrator ──

  datatype Stat = Stat(name: string, absmax: seq<real>)

  function StatNames(stats: seq<Stat>): seq<string> { seq(|stats|, i requires 0 <= i < |stats| => stats[i].name) }

  /** Statistic `k` is for a layer of the model, of matching width. */
  predicate Matches(weights: map<string, Weight>, stats: seq<Stat>, k: int) {
    0 <= k < |stats| && stats[k].name in weights && Applies(weights[stats[k].name], stats[k].absmax)
  }

  /** The factors after the first `n` statistics. */
  function FactorsAfter(pow: Pow, alpha: real, weights: map<string, Weight>, start: map<string, Factors>,
                        stats: seq<Stat>, n: nat)
    : map<string, Factors>
    requires n <= |stats|
  {
    if n == 0 then start
    else
      var before := FactorsAfter(pow, alpha, weights, start, stats, n - 1);
      if !Matches(weights, stats, n - 1) then before
      else
        var stat := stats[n - 1];
        before[stat.name := LayerFactors(pow, alpha, weights[stat.name], stat.absmax)]
  }

  /** Each matching statistic sets its layer's factors. */
  lemma {:induction false} FactorsSet(pow: Pow, alpha: real, weights: map<string, Weight>, start: map<string, Factors>,
                                      stats: seq<Stat>, n: nat, k: int)
    requires n <= |stats| && Unique(StatNames(stats)) && Matches(weights, stats, k) && k < n
    ensures var x, after := stats[k].name, FactorsAfter(pow, alpha, weights, start, stats, n);
            x in after && after[x] == LayerFactors(pow, alpha, weights[x], stats[k].absmax)
    decreases n
  {
    if k == n - 1 {
      FactorsLast(pow, alpha, weights, start, stats, n);
    } else {
      FactorsSet(pow, alpha, weights, start, stats, n - 1, k);
      assert StatNames(stats)[k] != StatNames(stats)[n - 1];
      FactorsStay(pow, alpha, weights, start, stats, n, stats[k].name);
    }
  }

  lemma FactorsLast(pow: Pow, alpha: real, weights: map<string, Weight>, start: map<string, Factors>,
                    stats: seq<Stat>, n: nat)
    requires 0 < n <= |stats| && Matches(weights, stats, n - 1)
    ensures var stat, after := stats[n - 1], FactorsAfter(pow, alpha, weights, start, stats, n);
            stat.name in after && after[stat.name] == LayerFactors(pow, alpha, weights[stat.name], stat.absmax)
  {
  }

  lemma FactorsStay(pow: Pow, alpha: real, weights: map<string, Weight>, start: map<string, Factors>,
                    stats: seq<Stat>, n: nat, x: string)
    requires 0 < n <= |stats| && x != stats[n - 1].name
    ensures var before := FactorsAfter(pow, alpha, weights, start, stats, n - 1);
            var after := FactorsAfter(pow, alpha, weights, start, stats, n);
            (x in after <==> x in before) && (x in before ==> after[x] == before[x])
  {
  }

  /** Nothing else gets factors. */
  lemma {:induction false} FactorsKept(pow: Pow, alpha: real, weights: map<string, Weight>, start: map<string, Factors>,
                                       stats: seq<Stat>, n: nat)
    requires n <= |stats|
    ensures var after := FactorsAfter(pow, alpha, weights, start, stats, n);
            && (forall x | x in start :: x in after)
            && forall x | x in after :: x in start || exists k :: Matches(weights, stats, k) && stats[k].name == x
    decreases n
  {
    if n > 0 {
      FactorsKept(pow, alpha, weights, start, stats, n - 1);
    }
  }

  /** Exactly the layers in `done` are rescaled. */
  ghost predicate Applied(before: map<string, Weight>, after: map<string, Weight>, factors: map<string, Factors>,
                          done: seq<string>) {
    && after.Keys == before.Keys && (forall x | x in done :: x in factors)
    && forall x | x in before :: after[x] == if x in done then Rescaled(before[x], factors[x]) else before[x]
  }

  lemma AppliedNext(before: map<string, Weight>, after: map<string, Weight>, factors: map<string, Factors>,
                    done: seq<string>, name: string)
    requires Applied(before, after, factors, done) && name in before && name in factors && name !in done
    ensures Applied(before, after[name := Rescaled(after[name], factors[name])], factors, done + [name])
  {
  }

  ghost predicate ScalesSet(scales: map<string, Factors>, factors: map<string, Factors>, done: seq<string>) {
    forall x | x in done :: x in factors && x in scales && scales[x] == InverseOf(factors[x])
  }

  lemma ScalesNext(scales: map<string, Factors>, factors: map<string, Factors>, done: seq<string>, name: string)
    requires ScalesSet(scales, factors, done) && name in factors
    ensures ScalesSet(scales[name := InverseOf(factors[name])], factors, done + [name])
  {
  }

  class Calibrator {
    const pow: Pow
    const alpha: real
    var weights: map<string, Weight>
    var names: seq<string>  // layers with factors, in insertion order
    var factors: map<string, Factors>
    var actScales: map<string, Factors>
    var quantised: map<string, Option<Int8>>

    ghost predicate Valid()
      reads this
    {
      Unique(names) && (forall x :: x in names <==> x in factors) && forall x | x in factors :: x in weights
    }

    constructor (pow: Pow, alpha: real, weights: map<string, Weight>)
      ensures this.pow == pow && this.alpha == alpha && this.weights == weights
      ensures Valid() && factors == map[] && actScales == map[] && quantised == map[]
    {
      this.pow, this.alpha, this.weights := pow, alpha, weights;
      names, factors, actScales, quantised := [], map[], map[], map[];
    }

    /** First loop of calibration: factors for every layer with statistics of matching width. */
    method ComputeFactors(stats: seq<Stat>)
      requires Valid()
      modifies this`names, this`factors
      ensures Valid() && factors == FactorsAfter(pow, alpha, weights, old(factors), stats, |stats|)
    {
      for i := 0 to |stats|
        invariant Valid() && factors == FactorsAfter(pow, alpha, weights, old(factors), stats, i)
      {
        var name := stats[i].name;
        if Matches(weights, stats, i) {
          if name !in factors { names := names + [name]; }
          factors := factors[name := LayerFactors(pow, alpha, weights[name], stats[i].absmax)];
        }
      }
    }

    /** Second loop: every layer with factors is rescaled and gets the inverse as activation scale. */
    method ApplyFactors()
      requires Valid()
      modifies this`weights, this`actScales
      ensures Valid() && weights.Keys == old(weights).Keys
      ensures forall x | x in weights ::
                weights[x] == if x in factors then Rescaled(old(weights)[x], factors[x]) else old(weights)[x]
      ensures forall x | x in factors :: x in actScales && actScales[x] == InverseOf(factors[x])
    {
      for i := 0 to |names|
        invariant Valid() && Applied(old(weights), weights, factors, names[..i])
        invariant ScalesSet(actScales, factors, names[..i])
      {
        var name := names[i];
        assert name !in names[..i] && names[..i + 1] == names[..i] + [name];
        AppliedNext(old(weights), weights, factors, names[..i], name);
        ScalesNext(actScales, factors, names[..i], name);
        weights := weights[name := Rescaled(weights[name], factors[name])];
        actScales := actScales[name := InverseOf(factors[name])];
      }
      assert names[..|names|] == names;
    }

    /** Both loops: layers with matching statistics get new factors, and all layers with factors, earlier
        ones included, are rescaled. */
    method Calibrate(stats: seq<Stat>)
      requires Valid() && Unique(StatNames(stats))
      modifies this`names, this`factors, this`weights, this`actScales
      ensures Valid() && weights.Keys == old(weights).Keys
      ensures forall k | Matches(old(weights), stats, k) ::
                var x, s := stats[k].name, LayerFactors(pow, alpha, old(weights)[stats[k].name], stats[k].absmax);
                x in factors && weights[x] == Rescaled(old(weights)[x], s) && x in actScales
                    && actScales[x] == InverseOf(s)
      ensures forall x | x in weights ::
                weights[x] == if x in factors then Rescaled(old(weights)[x], factors[x]) else old(weights)[x]
      ensures forall x | x in factors ::
                x in old(factors) || exists k :: Matches(old(weights), stats, k) && stats[k].name == x
    {
      ComputeFactors(stats);
      ApplyFactors();
      FactorsKept(pow, alpha, old(weights), old(factors), stats, |stats|);
      forall k | Matches(old(weights), stats, k)
        ensures stats[k].name in factors
        ensures factors[stats[k].name] == LayerFactors(pow, alpha, old(weights)[stats[k].name], stats[k].absmax)
      {
        FactorsSet(pow, alpha, old(weights), old(factors), stats, |stats|, k);
      }
    }

    /** Codes for every smoothed layer. */
    method Quantize()
      requires Valid()
      modifies this`quantised
      ensures forall x | x in factors :: x in quantised && quantised[x] == QuantizeWeight(weights[x])
    {
      for i := 0 to |names|
        invariant forall x | x in names[..i] :: x in quantised && quantised[x] == QuantizeWeight(weights[x])
      {
        assert names[..i + 1] == names[..i] + [names[i]];
        quantised := quantised[names[i] := QuantizeWeight(weights[names[i]])];
      }
      assert names[..|names|] == names;
    }
  }

  // ── Lost columns ──

  /** Calibration loses exactly the zero columns, unless alpha is 1. */
  lemma LostColumnsExact(pow: Pow, alpha: real, w: Weight, act: seq<real>, j: nat)
    requires PowLike(pow) && 0.0 <= alpha <= 1.0 && j < |act|
    ensures j in Rescaled(w, LayerFactors(pow, alpha, w, act)).lost
            <==> j in w.lost || (alpha < 1.0 && ColumnMax(w.mat, j) == 0.0)
  {
    FactorFiniteIff(pow, alpha, act[j], ColumnMax(w.mat, j));
  }

  /** Calibrating and then quantising a sound layer yields codes exactly when alpha is 1 or no column is
      zero: one zero column costs every row its scale. */
  lemma QuantisedIff(pow: Pow, alpha: real, w: Mat, act: seq<real>)
    requires PowLike(pow) && 0.0 <= alpha <= 1.0 && |act| == w.cols
    ensures QuantizeWeight(Rescaled(Weight(w, {}), LayerFactors(pow, alpha, Weight(w, {}), act))).Some?
            <==> alpha == 1.0 || forall j: nat | j < w.cols :: ColumnMax(w, j) > 0.0
  {
    var weight := Weight(w, {});
    var lost := Rescaled(weight, LayerFactors(pow, alpha, weight, act)).lost;
    forall j: nat | j < |act| ensures j in lost <==> alpha < 1.0 && ColumnMax(w, j) == 0.0 {
      LostColumnsExact(pow, alpha, weight, act, j);
    }
    if lost == {} {
      forall j: nat | j < w.cols ensures alpha == 1.0 || ColumnMax(w, j) > 0.0 {
        assert j !in lost;
      }
    } else {
      var j :| j in lost;
    }
  }

  // ── The layer's function ──

  /** The factors of a layer without zero columns. */
  lemma LayerValues(pow: Pow, alpha: real, act: seq<real>, w: Mat) returns (s: seq<real>)
    requires PowLike(pow) && 0.0 <= alpha <= 1.0 && |act| == w.cols
    requires alpha == 1.0 || forall j: nat | j < w.cols :: ColumnMax(w, j) > 0.0
    ensures var factors := LayerFactors(pow, alpha, Weight(w, {}), act);
            && s == Finite(factors) && Positive(s) && |s| == |act|
            && Rescaled(Weight(w, {}), factors) == Weight(Smoothed(w, s), {})
            && |InverseOf(factors)| == |s| && forall j: nat | j < |s| :: InverseOf(factors)[j] == Some(Inverses(s)[j])
  {
    var factors := LayerFactors(pow, alpha, Weight(w, {}), act);
    s := Finite(factors);
    forall j: nat | j < |act| ensures factors[j].Some? && factors[j].value > 0.0 {
      FactorFiniteIff(pow, alpha, act[j], ColumnMax(w, j));
    }
  }

  /** What calibration and quantisation store for a layer without zero columns computes the layer's original
      function up to the INT8 error. */
  lemma LayerKept(pow: Pow, alpha: real, act: seq<real>, w: Mat, x: Mat, i: nat, o: nat) returns (s: seq<real>)
    requires PowLike(pow) && 0.0 <= alpha <= 1.0 && |act| == w.cols == x.cols && i < x.rows && o < w.rows
    requires alpha == 1.0 || forall j: nat | j < w.cols :: ColumnMax(w, j) > 0.0
    ensures var factors := LayerFactors(pow, alpha, Weight(w, {}), act);
            && Positive(s) && |s| == |act| && Rescaled(Weight(w, {}), factors) == Weight(Smoothed(w, s), {})
            && |InverseOf(factors)| == |s| && forall j: nat | j < |s| :: InverseOf(factors)[j] == Some(Inverses(s)[j])
    ensures var q := QuantizePerChannel(Smoothed(w, s));
            WithinShare(At(W8A8(x, Some(Inverses(s)), q, w.cols), i, o), At(MatMulT(x, w), i, o),
                        q.scales[o] / 2.0, InputTerms(x, s, i), |s|)
  {
    s := LayerValues(pow, alpha, act, w);
    W8A8Error(x, w, s, i, o);
  }

  // ── What calibration smooths ──

  /** `m` is the largest magnitude in column `j`. */
  ghost predicate IsColumnMax(w: Mat, j: nat, m: real) {
    && m >= 0.0 && (forall i: nat | i < w.rows :: Abs(At(w, i, j)) <= m)
    && (m == 0.0 || exists i: nat | i < w.rows :: Abs(At(w, i, j)) == m)
  }

  lemma ColumnMaxIs(w: Mat, j: nat, m: real)
    ensures IsColumnMax(w, j, m) <==> m == ColumnMax(w, j)
  {
    var column := seq(w.rows, i requires 0 <= i < w.rows => At(w, i, j));
    forall i: nat | i < w.rows ensures column[i] == At(w, i, j) {
    }
    if IsColumnMax(w, j, m) {
      if m != 0.0 {
        var i: nat :| i < w.rows && Abs(At(w, i, j)) == m;
        assert Abs(column[i]) == m;
      }
      MaxAbsIs(column, m);
    }
    if m == ColumnMax(w, j) && m != 0.0 {
      var k :| 0 <= k < |column| && Abs(column[k]) == m;
      assert Abs(At(w, k, j)) == m;
    }
  }

  lemma ScaledBelow(a: real, m: real, s: real)
    requires s > 0.0 && Abs(a) <= m
    ensures Abs(a * s) <= m * s && (Abs(a) == m ==> Abs(a * s) == m * s)
  {
    AbsScaled(a, s);
    MulMono(Abs(a), m, s);
  }

  lemma ScaledColumnMax(w: Mat, v: Mat, s: real, j: nat, m: real)
    requires s > 0.0 && v.rows == w.rows && IsColumnMax(w, j, m)
    requires forall i: nat | i < w.rows :: At(v, i, j) == At(w, i, j) * s
    ensures IsColumnMax(v, j, m * s)
  {
    ProductSign(m, s);
    forall i: nat | i < w.rows
      ensures Abs(At(v, i, j)) <= m * s && (Abs(At(w, i, j)) == m ==> Abs(At(v, i, j)) == m * s)
    {
      ScaledBelow(At(w, i, j), m, s);
    }
  }

  /** Column `j` of a stored weight `v` and its stored activation scale `t` share the ranges `act` and `weight` of
      the activation and of the original column: above the floor by the power law, and at the floor by 1e-8. */
  ghost predicate Balanced(pow: Pow, alpha: real, v: Mat, t: real, j: nat, act: real, weight: real) {
    if pow(act, alpha) >= 0.00000001 * pow(weight, 1.0 - alpha) then
      && IsColumnMax(v, j, pow(act, alpha) * pow(weight, alpha))
      && act * t == pow(act, 1.0 - alpha) * pow(weight, 1.0 - alpha)
    else IsColumnMax(v, j, weight * 0.00000001) && t * 0.00000001 == 1.0
  }

  /** Every column of what calibration stores for a layer is balanced. */
  lemma StoredBalanced(pow: Pow, alpha: real, act: seq<real>, w: Mat, j: nat, weight: real)
    requires PowLike(pow) && 0.0 <= alpha <= 1.0 && |act| == w.cols && j < w.cols && act[j] >= 0.0
    requires IsColumnMax(w, j, weight) && (weight > 0.0 || alpha == 1.0)
    ensures var factors := LayerFactors(pow, alpha, Weight(w, {}), act);
            && InverseOf(factors)[j].Some?
            && Balanced(pow, alpha, Rescaled(Weight(w, {}), factors).mat, InverseOf(factors)[j].value, j, act[j],
                        weight)
  {
    var factors := LayerFactors(pow, alpha, Weight(w, {}), act);
    ColumnMaxIs(w, j, weight);
    var s := FactorOf(pow, alpha, act[j], weight);
    StoredColumn(w, factors, j, s);
    FactorBalances(pow, alpha, act[j], weight, s, w, Rescaled(Weight(w, {}), factors).mat, j);
  }

  lemma FactorOf(pow: Pow, alpha: real, act: real, weight: real) returns (s: real)
    requires PowLike(pow) && 0.0 <= alpha <= 1.0 && act >= 0.0 && weight >= 0.0 && (weight > 0.0 || alpha == 1.0)
    ensures s > 0.0 && Factor(pow, alpha, act, weight) == Some(s) && Splits(pow, alpha, act, weight, s)
  {
    FactorMigrates(pow, alpha, act, weight);
    s := Factor(pow, alpha, act, weight).value;
  }

  ghost predicate Splits(pow: Pow, alpha: real, act: real, weight: real, s: real)
    requires s > 0.0
  {
    if pow(act, alpha) >= 0.00000001 * pow(weight, 1.0 - alpha) then
      && weight * s == pow(act, alpha) * pow(weight, alpha)
      && act * (1.0 / s) == pow(act, 1.0 - alpha) * pow(weight, 1.0 - alpha)
    else s == 0.00000001
  }

  lemma StoredColumn(w: Mat, factors: Factors, j: nat, s: real)
    requires |factors| == w.cols && j < w.cols && factors[j] == Some(s) && s > 0.0
    ensures InverseOf(factors)[j] == Some(1.0 / s)
    ensures Rescaled(Weight(w, {}), factors).mat.rows == w.rows
    ensures forall i: nat | i < w.rows :: At(Rescaled(Weight(w, {}), factors).mat, i, j) == At(w, i, j) * s
  {
    assert Finite(factors)[j] == s;
  }

  lemma FactorBalances(pow: Pow, alpha: real, act: real, weight: real, s: real, w: Mat, v: Mat, j: nat)
    requires s > 0.0 && v.rows == w.rows && IsColumnMax(w, j, weight)
    requires forall i: nat | i < w.rows :: At(v, i, j) == At(w, i, j) * s
    requires Splits(pow, alpha, act, weight, s)
    ensures Balanced(pow, alpha, v, 1.0 / s, j, act, weight)
  {
    ScaledColumnMax(w, v, s, j, weight);
    DivMul(1.0, s);
  }

  /** At alpha 1/2 the two sides get the same range. */
  lemma BalancedAtHalf(pow: Pow, v: Mat, t: real, j: nat, act: real, weight: real)
    requires Balanced(pow, 0.5, v, t, j, act, weight) && pow(act, 0.5) >= 0.00000001 * pow(weight, 0.5)
    ensures IsColumnMax(v, j, act * t)
  {
  }

  /** Column `j` has range `weight` and is not lost in calibration. */
  ghost predicate ColumnKept(w: Mat, alpha: real, j: nat, weight: real) {
    j < w.cols && IsColumnMax(w, j, weight) && (weight > 0.0 || alpha == 1.0)
  }

  /** A first calibration: every non-zero column of a layer with statistics is balanced by what it stores. */
  method CalibrateBalances(c: Calibrator, stats: seq<Stat>, k: nat, ghost w: Mat)
    requires c.Valid() && Unique(StatNames(stats)) && PowLike(c.pow) && 0.0 <= c.alpha <= 1.0
    requires 0 <= k < |stats| && stats[k].name in c.weights && c.weights[stats[k].name] == Weight(w, {})
    requires |stats[k].absmax| == w.cols
    requires forall j | 0 <= j < |stats[k].absmax| :: stats[k].absmax[j] >= 0.0
    modifies c
    ensures c.Valid() && stats[k].name in c.weights && stats[k].name in c.actScales
    ensures var v, t := c.weights[stats[k].name], c.actScales[stats[k].name];
            && v.mat.cols == |t| == w.cols
            && forall j: nat, weight: real | ColumnKept(w, c.alpha, j, weight) ::
                 t[j].Some? && Balanced(c.pow, c.alpha, v.mat, t[j].value, j, stats[k].absmax[j], weight)
  {
    assert Matches(c.weights, stats, k);
    c.Calibrate(stats);
    forall j: nat, weight: real | ColumnKept(w, c.alpha, j, weight)
      ensures var v, t := c.weights[stats[k].name], c.actScales[stats[k].name];
              t[j].Some? && Balanced(c.pow, c.alpha, v.mat, t[j].value, j, stats[k].absmax[j], weight)
    {
      StoredBalanced(c.pow, c.alpha, stats[k].absmax, w, j, weight);
    }
  }

  // ── Calibrating twice ──

  /** Row vector with a single 1. */
  function Unit(n: nat, j: nat): Mat { Build(1, n, (i: nat, k: nat) => if k == j then 1.0 else 0.0) }

  lemma {:induction false} UnitDot(n: nat, j: nat, w: Mat, o: nat, k: nat)
    requires j < n && k <= n
    ensures DotT(Unit(n, j), w, 0, o, k) == if j < k then At(w, o, j) else 0.0
  {
    if k > 0 {
      UnitDot(n, j, w, o, k - 1);
    }
  }

  /** A matrix is determined by its products. */
  lemma ProductsDetermine(v: Mat, w: Mat, o: nat, j: nat)
    requires v.rows == w.rows && v.cols == w.cols && o < w.rows && j < w.cols
    requires MatMulT(Unit(w.cols, j), v) == MatMulT(Unit(w.cols, j), w)
    ensures At(v, o, j) == At(w, o, j)
  {
    UnitDot(w.cols, j, v, o, w.cols);
    UnitDot(w.cols, j, w, o, w.cols);
    ProductEntry(Unit(w.cols, j), v, 0, o);
    ProductEntry(Unit(w.cols, j), w, 0, o);
  }

  lemma {:induction false} SameDot(x: Mat, v: Mat, w: Mat, i: nat, o: nat, k: nat)
    requires forall j: nat | j < k :: At(v, o, j) == At(w, o, j)
    ensures DotT(x, v, i, o, k) == DotT(x, w, i, o, k)
  {
    if k > 0 {
      SameDot(x, v, w, i, o, k - 1);
    }
  }

  /** Factors that leave column `j` as it is. */
  ghost predicate Idle(w: Mat, s: seq<real>, j: nat)
    requires j < |s|
  {
    s[j] == 1.0 || forall o: nat | o < w.rows :: At(w, o, j) == 0.0
  }

  lemma ScaledEntry(a: real, s: real)
    ensures a * s == a <==> a == 0.0 || s == 1.0
  {
    assert a * s - a == a * (s - 1.0);
    if a != 0.0 && a * s == a {
      assert s == (a * s) / a;
    }
  }

  /** The function a layer computes through its stored activation scales after a second calibration. */
  function AfterTwo(w: Mat, s1: seq<real>, s2: seq<real>, x: Mat): Mat
    requires Positive(s2)
  {
    MatMulT(ScaledInput(x, Inverses(s2)), Smoothed(Smoothed(w, s1), s2))
  }

  lemma AfterTwoIs(w: Mat, s1: seq<real>, s2: seq<real>, x: Mat)
    requires Positive(s2) && x.cols == w.cols == |s1| == |s2|
    ensures AfterTwo(w, s1, s2, x) == MatMulT(x, Smoothed(w, s1))
  {
    SmoothingPreserves(x, Smoothed(w, s1), s2);
  }

  lemma IdleKeeps(w: Mat, s: seq<real>, x: Mat)
    requires x.cols == w.cols == |s| && forall j: nat | j < |s| :: Idle(w, s, j)
    ensures MatMulT(x, Smoothed(w, s)) == MatMulT(x, w)
  {
    var v := Smoothed(w, s);
    forall i: nat, o: nat | i < x.rows && o < w.rows ensures At(MatMulT(x, v), i, o) == At(MatMulT(x, w), i, o) {
      forall j: nat | j < |s| ensures At(v, o, j) == At(w, o, j) {
        assert Idle(w, s, j);
        ScaledEntry(At(w, o, j), s[j]);
      }
      SameDot(x, v, w, i, o, x.cols);
      ProductEntry(x, v, i, o);
      ProductEntry(x, w, i, o);
    }
    MatEqual(MatMulT(x, v), MatMulT(x, w));
  }

  ghost predicate KeptFor(w: Mat, s1: seq<real>, s2: seq<real>, x: Mat)
    requires Positive(s2)
  {
    x.cols == w.cols ==> AfterTwo(w, s1, s2, x) == MatMulT(x, w)
  }

  /** The activation scales keep only the last inverse.  So a second calibration preserves the layer's
      function exactly when the first factors were 1 on every non-zero column. */
  lemma SecondCalibrationIff(w: Mat, s1: seq<real>, s2: seq<real>)
    requires Positive(s2) && w.cols == |s1| == |s2|
    ensures (forall x: Mat :: KeptFor(w, s1, s2, x)) <==> forall j: nat | j < |s1| :: Idle(w, s1, j)
  {
    if forall j: nat | j < |s1| :: Idle(w, s1, j) {
      forall x: Mat ensures KeptFor(w, s1, s2, x) {
        if x.cols == w.cols {
          AfterTwoIs(w, s1, s2, x);
          IdleKeeps(w, s1, x);
        }
      }
    }
    if forall x: Mat :: KeptFor(w, s1, s2, x) {
      forall j: nat | j < |s1| ensures Idle(w, s1, j) {
        assert KeptFor(w, s1, s2, Unit(w.cols, j));
        AfterTwoIs(w, s1, s2, Unit(w.cols, j));
        forall o: nat | o < w.rows ensures At(w, o, j) == 0.0 || s1[j] == 1.0 {
          ProductsDetermine(Smoothed(w, s1), w, o, j);
          ScaledEntry(At(w, o, j), s1[j]);
        }
      }
    }
  }

  /** What a layer computes from its stored weight and activation scales. */
  function StoredOutput(w: Weight, t: Factors, x: Mat): Mat { MatMulT(ScaledInput(x, Finite(t)), w.mat) }

  ghost predicate Keeps(w: Weight, t: Factors, original: Mat, x: Mat) {
    x.cols == original.cols ==> StoredOutput(w, t, x) == MatMulT(x, original)
  }

  lemma ColumnMaxFrom(w: Mat, j: nat) returns (i: nat)
    requires ColumnMax(w, j) > 0.0
    ensures i < w.rows && Abs(At(w, i, j)) > 0.0
  {
    var column := seq(w.rows, i requires 0 <= i < w.rows => At(w, i, j));
    var k :| 0 <= k < |column| && Abs(column[k]) == ColumnMax(w, j);
    i := k;
  }

  lemma ColumnMaxCovers(w: Mat, i: nat, j: nat)
    requires i < w.rows
    ensures Abs(At(w, i, j)) <= ColumnMax(w, j)
  {
    var column := seq(w.rows, i requires 0 <= i < w.rows => At(w, i, j));
    assert column[i] == At(w, i, j);
  }

  lemma ColumnStaysNonZero(w: Mat, s: seq<real>, j: nat)
    requires Positive(s) && j < |s| && |s| == w.cols && ColumnMax(w, j) > 0.0
    ensures ColumnMax(Smoothed(w, s), j) > 0.0
  {
    var i := ColumnMaxFrom(w, j);
    ScaledNonZero(At(w, i, j), s[j]);
    ColumnMaxCovers(Smoothed(w, s), i, j);
  }

  lemma ScaledNonZero(a: real, s: real)
    requires s > 0.0 && Abs(a) > 0.0
    ensures Abs(a * s) > 0.0
  {
    AbsScaled(a, s);
    assert Abs(a) * s > 0.0;
  }

  /** The layer's factors in the first and in the second of two calibrations. */
  lemma FactorsOfTwo(pow: Pow, alpha: real, act1: seq<real>, act2: seq<real>, w: Mat)
    returns (s1: seq<real>, s2: seq<real>)
    requires PowLike(pow) && 0.0 <= alpha <= 1.0 && |act1| == |act2| == w.cols
    requires alpha == 1.0 || forall j: nat | j < w.cols :: ColumnMax(w, j) > 0.0
    ensures var first := Weight(w, {});
            var f1 := LayerFactors(pow, alpha, first, act1);
            var f2 := LayerFactors(pow, alpha, Rescaled(first, f1), act2);
            && s1 == Finite(f1) && s2 == Finite(f2) && Positive(s1) && Positive(s2) && |s1| == |s2| == w.cols
            && Rescaled(Rescaled(first, f1), f2) == Weight(Smoothed(Smoothed(w, s1), s2), {})
            && Finite(InverseOf(f2)) == Inverses(s2)
  {
    s1 := LayerValues(pow, alpha, act1, w);
    var v := Smoothed(w, s1);
    if alpha != 1.0 {
      forall j: nat | j < v.cols ensures ColumnMax(v, j) > 0.0 {
        ColumnStaysNonZero(w, s1, j);
      }
    }
    s2 := LayerValues(pow, alpha, act2, v);
  }

  /** One calibrator calibrated twice: a layer without zero columns that both sets of statistics cover still
      computes its original function if and only if the first factors were 1 on every non-zero column. */
  method CalibrateTwice(c: Calibrator, stats1: seq<Stat>, stats2: seq<Stat>, k1: nat, k2: nat, ghost w: Mat)
    returns (ghost s1: seq<real>)
    requires c.Valid() && Unique(StatNames(stats1)) && Unique(StatNames(stats2))
    requires PowLike(c.pow) && 0.0 <= c.alpha <= 1.0
    requires k1 < |stats1| && k2 < |stats2| && stats1[k1].name == stats2[k2].name
    requires stats1[k1].name in c.weights && c.weights[stats1[k1].name] == Weight(w, {})
    requires |stats1[k1].absmax| == |stats2[k2].absmax| == w.cols
    requires c.alpha == 1.0 || forall j: nat | j < w.cols :: ColumnMax(w, j) > 0.0
    modifies c
    ensures c.Valid() && stats1[k1].name in c.weights && stats1[k1].name in c.actScales
    ensures s1 == Finite(LayerFactors(c.pow, c.alpha, Weight(w, {}), stats1[k1].absmax)) && |s1| == w.cols
    ensures var x := stats1[k1].name;
            (forall input: Mat :: Keeps(c.weights[x], c.actScales[x], w, input))
            <==> forall j: nat | j < |s1| :: Idle(w, s1, j)
  {
    var x := stats1[k1].name;
    ghost var s2;
    s1, s2 := FactorsOfTwo(c.pow, c.alpha, stats1[k1].absmax, stats2[k2].absmax, w);
    assert Matches(c.weights, stats1, k1);
    c.Calibrate(stats1);
    assert Matches(c.weights, stats2, k2);
    c.Calibrate(stats2);
    SecondCalibrationIff(w, s1, s2);
    StoredAfterTwo(c.weights[x], c.actScales[x], w, s1, s2);
  }

  lemma StoredAfterTwo(v: Weight, t: Factors, w: Mat, s1: seq<real>, s2: seq<real>)
    requires Positive(s2) && v.mat == Smoothed(Smoothed(w, s1), s2) && Finite(t) == Inverses(s2)
    ensures forall x: Mat :: Keeps(v, t, w, x) <==> KeptFor(w, s1, s2, x)
  {
  }
}
