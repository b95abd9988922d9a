/** Correctness of the matmul-to-BLAS rewrite. */
module BlasRewriteProof {
  import opened Options
  import opened Matrices
  import opened BufferPrograms
  import opened BlasRewrite

  // ── What the rewritten program is, in terms of the original ──

  ghost predicate ErasedBy(prog: seq<Instr>, m: nat, k: nat) {
    IsMatmul(prog, m) && ChainOf(prog, m).Some? && InChain(ChainOf(prog, m).value, k)
  }

  ghost predicate IsErased(prog: seq<Instr>, j: nat, k: nat) { exists m: nat | m < j :: ErasedBy(prog, m, k) }

  ghost function TargetAt(prog: seq<Instr>, j: nat, k: nat): Instr
    requires k < |prog|
  {
    if IsMatmul(prog, k) then (if k < j then Replacement(prog, k) else prog[k])
    else if IsErased(prog, j, k) then Erased
    else prog[k]
  }

  /** `cur` is `prog` with the matmuls before `j` rewritten and their chains erased. */
  ghost predicate Partly(cur: seq<Instr>, prog: seq<Instr>, j: nat) {
    |cur| == |prog| && forall k: nat | k < |prog| :: cur[k] == TargetAt(prog, j, k)
  }

  lemma ErasedIsCopy(prog: seq<Instr>, m: nat, k: nat)
    requires ErasedBy(prog, m, k)
    ensures k < |prog| && (prog[k].Turn? || prog[k].Spread?) && !IsMatmul(prog, k)
  {
  }

  /** Whoever reads an erased copy's destination later belongs to the chain or comes after an overwrite. */
  lemma LaterReader(sh: Shapes, prog: seq<Instr>, m: nat, k: nat, x: Buf, r: nat)
    requires Safe(sh, prog) && ErasedBy(prog, m, k) && LastOperand(prog[k]) == Some(x)
    requires k < r < |prog| && x in Reads(prog[r])
    ensures OverwrittenBetween(prog, x, k, r) || (r == m && x == prog[m].b)
            || (ErasedBy(prog, m, r) && prog[r].Spread? && k < r)
  {
    assert SafeAt(sh, prog, m);
  }

  /** What the search finds for an operand of matmul `m` was not erased by an earlier matmul. */
  lemma OperandNotErased(sh: Shapes, prog: seq<Instr>, m: nat, r: nat)
    requires Safe(sh, prog) && IsMatmul(prog, m) && LastWriter(prog, prog[m].b, m) == Some(r)
    ensures !IsErased(prog, m, r)
  {
    if IsErased(prog, m, r) {
      var m': nat :| m' < m && ErasedBy(prog, m', r);
      LastIsNotOverwritten(prog, prog[m].b, m, r);
      MatmulReader(sh, prog, m', r, m);
    }
  }

  /** A product that reads an erased copy of another one comes after an overwrite. */
  lemma MatmulReader(sh: Shapes, prog: seq<Instr>, m': nat, r: nat, m: nat)
    requires Safe(sh, prog) && IsMatmul(prog, m) && m' < m && r < m && ErasedBy(prog, m', r)
    requires LastOperand(prog[r]) == Some(prog[m].b)
    ensures OverwrittenBetween(prog, prog[m].b, r, m)
  {
    LaterReader(sh, prog, m', r, prog[m].b, m);
  }

  lemma LastIsNotOverwritten(prog: seq<Instr>, x: Buf, m: nat, r: nat)
    requires m <= |prog| && LastWriter(prog, x, m) == Some(r)
    ensures !OverwrittenBetween(prog, x, r, m)
  {
  }

  /** Nor was the source of its broadcast. */
  lemma SourceNotErased(sh: Shapes, prog: seq<Instr>, m: nat, s: nat, r: nat)
    requires Safe(sh, prog) && IsMatmul(prog, m) && LastWriter(prog, prog[m].b, m) == Some(s) && prog[s].Spread?
    requires LastWriter(prog, prog[s].src, s) == Some(r)
    ensures !IsErased(prog, m, r)
  {
    if IsErased(prog, m, r) {
      var m': nat :| m' < m && ErasedBy(prog, m', r);
      LaterReader(sh, prog, m', r, prog[s].src, s);
      OperandNotErased(sh, prog, m, s);
    }
  }

  lemma OnlyCopiesErased(prog: seq<Instr>, j: nat, k: nat)
    requires k < |prog| && !prog[k].Turn? && !prog[k].Spread?
    ensures !IsErased(prog, j, k)
  {
    forall m: nat | ErasedBy(prog, m, k) ensures false {
      ErasedIsCopy(prog, m, k);
    }
  }

  /** Rewriting never makes an operation a writer of something new. */
  lemma OperandKept(prog: seq<Instr>, cur: seq<Instr>, j: nat, k: nat)
    requires Partly(cur, prog, j) && k < |prog|
    ensures LastOperand(cur[k]) == LastOperand(prog[k]) || LastOperand(cur[k]) == None
    ensures IsMatmul(prog, k) && k < j ==> LastOperand(cur[k]) == None
    ensures !IsMatmul(prog, k) && !IsErased(prog, j, k) ==> cur[k] == prog[k]
  {
  }

  lemma LastWriterIs(prog: seq<Instr>, x: Buf, n: nat, k: nat)
    requires k < n <= |prog| && LastOperand(prog[k]) == Some(x)
    requires forall i | k < i < n :: LastOperand(prog[i]) != Some(x)
    ensures LastWriter(prog, x, n) == Some(k)
  {
  }

  /** Past the zero fill of a rewritten matmul's accumulator, nothing is a writer of it any more. */
  lemma SilentAfterFill(prog: seq<Instr>, cur: seq<Instr>, j: nat, x: Buf, r: nat, f: nat, k: nat)
    requires Partly(cur, prog, j) && j <= |prog| && f < k < j && r < j && IsMatmul(prog, r)
    requires k < r ==> !Touches(prog[k], x)
    requires r < k ==> LastOperand(prog[k]) != Some(x)
    ensures LastOperand(cur[k]) != Some(x)
  {
    OperandKept(prog, cur, j, k);
  }

  lemma FillKept(prog: seq<Instr>, cur: seq<Instr>, j: nat, x: Buf, f: nat)
    requires Partly(cur, prog, j) && f < |prog| && prog[f] == ZeroFill(x)
    ensures cur[f] == ZeroFill(x)
  {
    OnlyCopiesErased(prog, j, f);
    OperandKept(prog, cur, j, f);
  }

  ghost predicate FillsAt(prog: seq<Instr>, x: Buf, f: nat, r: nat) {
    f < r <= |prog| && prog[f] == ZeroFill(x) && forall k | f < k < r :: !Touches(prog[k], x)
  }

  /** Behind a rewritten matmul, the search finds the zero fill of its accumulator. */
  lemma FillBehindMatmul(prog: seq<Instr>, cur: seq<Instr>, j: nat, x: Buf, n: nat, r: nat, f: nat)
    requires Partly(cur, prog, j) && n <= j <= |prog| && LastWriter(prog, x, n) == Some(r) && IsMatmul(prog, r)
    requires FillsAt(prog, x, f, r)
    ensures LastWriter(cur, x, n) == Some(f) && cur[f] == ZeroFill(x)
  {
    FillKept(prog, cur, j, x, f);
    assert r < n && forall k | r < k < n :: LastOperand(prog[k]) != Some(x);
    forall k | f < k < n ensures LastOperand(cur[k]) != Some(x) {
      SilentAfterFill(prog, cur, j, x, r, f, k);
    }
    LastWriterIs(cur, x, n, f);
  }

  /** Searching the partly rewritten program finds the original writer, unless that was a matmul already
      rewritten; then it finds the zero fill before it. */
  lemma SameWriter(sh: Shapes, prog: seq<Instr>, cur: seq<Instr>, j: nat, x: Buf, n: nat)
    requires Safe(sh, prog) && Partly(cur, prog, j) && n <= j <= |prog|
    requires LastWriter(prog, x, n).Some? ==> !IsErased(prog, j, LastWriter(prog, x, n).value)
    ensures var r, r' := LastWriter(prog, x, n), LastWriter(cur, x, n);
            && (r.None? ==> r'.None?)
            && (r.Some? && !IsMatmul(prog, r.value) ==> r' == r && cur[r.value] == prog[r.value])
            && (r.Some? && IsMatmul(prog, r.value) ==> r'.Some? && cur[r'.value].ZeroFill?)
  {
    var r := LastWriter(prog, x, n);
    if r.Some? && IsMatmul(prog, r.value) {
      assert SafeAt(sh, prog, r.value);
      var f :| 0 <= f < r.value && prog[f] == ZeroFill(x) && forall k | f < k < r.value :: !Touches(prog[k], x);
      assert FillsAt(prog, x, f, r.value);
      FillBehindMatmul(prog, cur, j, x, n, r.value, f);
    } else {
      forall k: nat | k < n ensures LastOperand(cur[k]) == LastOperand(prog[k]) || LastOperand(cur[k]) == None {
        OperandKept(prog, cur, j, k);
      }
      if r.Some? {
        OperandKept(prog, cur, j, r.value);
        LastWriterIs(cur, x, n, r.value);
      }
    }
  }

  lemma SameChain(sh: Shapes, prog: seq<Instr>, cur: seq<Instr>, m: nat)
    requires Safe(sh, prog) && Partly(cur, prog, m) && IsMatmul(prog, m)
    ensures IsMatmul(cur, m) && cur[m] == prog[m] && ChainOf(cur, m) == ChainOf(prog, m)
  {
    var b := prog[m].b;
    var k := LastWriter(prog, b, m);
    if k.Some? { OperandNotErased(sh, prog, m, k.value); }
    SameWriter(sh, prog, cur, m, b, m);
    if k.Some? && !IsMatmul(prog, k.value) && prog[m].batched && prog[k.value].Spread? {
      var src := prog[k.value].src;
      var t := LastWriter(prog, src, k.value);
      if t.Some? { SourceNotErased(sh, prog, m, k.value, t.value); }
      SameWriter(sh, prog, cur, m, src, k.value);
    }
  }

  lemma ErasedNext(prog: seq<Instr>, m: nat, k: nat)
    ensures IsErased(prog, m + 1, k) <==> IsErased(prog, m, k) || ErasedBy(prog, m, k)
  {
    if IsErased(prog, m + 1, k) {
      var m': nat :| m' < m + 1 && ErasedBy(prog, m', k);
      assert m' < m || m' == m;
    }
  }

  /** What the step for product `m` changes: the product itself and the copies of its chain. */
  lemma TargetNext(prog: seq<Instr>, m: nat, k: nat)
    requires m < |prog| && k < |prog|
    ensures TargetAt(prog, m + 1, k) == if k == m && IsMatmul(prog, m) then Replacement(prog, m)
                                        else if ErasedBy(prog, m, k) then Erased else TargetAt(prog, m, k)
  {
    ErasedNext(prog, m, k);
    if ErasedBy(prog, m, k) {
      ErasedIsCopy(prog, m, k);
    }
  }

  lemma RewriteAtIs(cur: seq<Instr>, m: nat, k: nat)
    requires m < |cur| && k < |cur|
    ensures RewriteAt(cur, m)[k] == if ErasedBy(cur, m, k) then Erased
                                    else if k == m && IsMatmul(cur, m) then Replacement(cur, m) else cur[k]
  {
  }

  /** One step of the rewrite. */
  lemma RewriteStep(sh: Shapes, prog: seq<Instr>, cur: seq<Instr>, m: nat)
    requires Safe(sh, prog) && Partly(cur, prog, m) && m < |prog|
    ensures Partly(RewriteAt(cur, m), prog, m + 1)
  {
    if IsMatmul(prog, m) {
      SameChain(sh, prog, cur, m);
    }
    forall k: nat | k < |prog| ensures RewriteAt(cur, m)[k] == TargetAt(prog, m + 1, k) {
      StepAt(prog, cur, m, k);
    }
  }

  lemma StepAt(prog: seq<Instr>, cur: seq<Instr>, m: nat, k: nat)
    requires Partly(cur, prog, m) && m < |prog| && k < |prog|
    requires IsMatmul(prog, m) ==> IsMatmul(cur, m) && cur[m] == prog[m] && ChainOf(cur, m) == ChainOf(prog, m)
    ensures RewriteAt(cur, m)[k] == TargetAt(prog, m + 1, k)
  {
    assert IsMatmul(cur, m) <==> IsMatmul(prog, m);
    TargetNext(prog, m, k);
    RewriteAtIs(cur, m, k);
    if ErasedBy(prog, m, k) {
      ErasedIsCopy(prog, m, k);
    }
  }

  lemma NothingYet(prog: seq<Instr>)
    ensures Partly(prog, prog, 0)
  {
  }

  /** Rewriting matmul by matmul gives, for a safe program, each replacement computed on the original. */
  lemma {:induction false} RewriteIsTarget(sh: Shapes, prog: seq<Instr>, n: nat)
    requires Safe(sh, prog) && n <= |prog|
    ensures Partly(RewriteUpTo(prog, n), prog, n)
  {
    if n == 0 {
      NothingYet(prog);
    } else {
      RewriteIsTarget(sh, prog, n - 1);
      RewriteStep(sh, prog, RewriteUpTo(prog, n - 1), n - 1);
    }
  }

  // ── Stale temporaries ──

  /** The last write to `x` before `k` was erased, at `t`. */
  ghost predicate StaleSince(prog: seq<Instr>, k: nat, x: Buf, t: nat) {
    t < k <= |prog| && IsErased(prog, |prog|, t) && x in Writes(prog[t])
        && forall i | t < i < k :: x !in Writes(prog[i])
  }

  /** An erased temporary: at `k` it does not hold what the original program gives it. */
  ghost predicate Stale(prog: seq<Instr>, k: nat, x: Buf) { exists t: nat :: StaleSince(prog, k, x, t) }

  /** A stale temporary is read only by its product or by an erased broadcast. */
  lemma StaleReader(sh: Shapes, prog: seq<Instr>, k: nat, x: Buf, t: nat)
    requires Safe(sh, prog) && k < |prog| && StaleSince(prog, k, x, t) && x in Reads(prog[k])
    ensures IsErased(prog, |prog|, k) || (IsMatmul(prog, k) && ChainOf(prog, k).Some? && x == prog[k].b)
  {
    var m: nat :| m < |prog| && ErasedBy(prog, m, t);
    ErasedIsCopy(prog, m, t);
    LaterReader(sh, prog, m, t, x, k);
  }

  lemma KeptReadsFresh(sh: Shapes, prog: seq<Instr>, k: nat, x: Buf)
    requires Safe(sh, prog) && k < |prog| && !IsErased(prog, |prog|, k) && x in Reads(prog[k])
    requires IsMatmul(prog, k) ==> x != prog[k].b || ChainOf(prog, k).None?
    ensures !Stale(prog, k, x)
  {
    if Stale(prog, k, x) {
      var t: nat :| StaleSince(prog, k, x, t);
      StaleReader(sh, prog, k, x, t);
    }
  }

  /** The weight behind a chain was read by the transpose and has not been written since. */
  lemma WeightFresh(sh: Shapes, prog: seq<Instr>, k: nat, c: Chain)
    requires Safe(sh, prog) && IsMatmul(prog, k) && ChainOf(prog, k) == Some(c)
    ensures !Stale(prog, k, c.w)
  {
    assert SafeAt(sh, prog, k);
    if Stale(prog, k, c.w) {
      var t: nat :| StaleSince(prog, k, c.w, t);
      assert t < c.t by { WeightUnwritten(prog, k, c, t); }
      assert StaleSince(prog, c.t, c.w, t);
      var m: nat :| m < |prog| && ErasedBy(prog, m, t);
      ErasedIsCopy(prog, m, t);
      LaterReader(sh, prog, m, t, c.w, c.t);
    }
  }

  lemma WeightUnwritten(prog: seq<Instr>, k: nat, c: Chain, t: nat)
    requires IsMatmul(prog, k) && ChainOf(prog, k) == Some(c) && ChainStable(prog, k, c) && t < k
             && c.w in Writes(prog[t])
    ensures t < c.t
  {
  }

  /** What the call put in place of a matmul reads is fresh. */
  lemma MatmulReadsFresh(sh: Shapes, prog: seq<Instr>, k: nat)
    requires Safe(sh, prog) && IsMatmul(prog, k)
    ensures !Stale(prog, k, prog[k].a)
    ensures ChainOf(prog, k).None? ==> !Stale(prog, k, prog[k].b)
    ensures ChainOf(prog, k).Some? ==> !Stale(prog, k, ChainOf(prog, k).value.w)
  {
    assert SafeAt(sh, prog, k);
    OnlyCopiesErased(prog, |prog|, k);
    KeptReadsFresh(sh, prog, k, prog[k].a);
    if ChainOf(prog, k).None? {
      KeptReadsFresh(sh, prog, k, prog[k].b);
    } else {
      WeightFresh(sh, prog, k, ChainOf(prog, k).value);
    }
  }

  // ── Values when a matmul executes ──

  ghost predicate AllZero(c: Tensor, sh: Shape) {
    forall n: nat, i: nat, j: nat | n < sh.batch && i < sh.rows && j < sh.cols :: At3(c, n, i, j) == 0.0
  }

  lemma AccumulatorIsZero(sh: Shapes, ext: Ext, s: Store, prog: seq<Instr>, m: nat)
    requires IsMatmul(prog, m) && ZeroFilled(prog, m)
    ensures AllZero(Get(Before(sh, ext, s, prog, m), prog[m].c), sh(prog[m].c))
  {
    var c := prog[m].c;
    var f :| 0 <= f < m && prog[f] == ZeroFill(c) && forall k | f < k < m :: !Touches(prog[k], c);
    FilledValue(sh, ext, s, prog, c, f);
    assert NoWrites(prog, c, f, m) by {
      assert forall k | f < k < m :: !Touches(prog[k], c);
    }
    KeptSince(sh, ext, s, prog, c, f, m);
  }

  lemma KeptSince(sh: Shapes, ext: Ext, s: Store, prog: seq<Instr>, x: Buf, i: nat, j: nat)
    requires i < j <= |prog| && NoWrites(prog, x, i, j)
    ensures Get(Before(sh, ext, s, prog, j), x) == Get(Before(sh, ext, s, prog, i + 1), x)
  {
    Unwritten(sh, ext, s, prog, x, i + 1, j);
  }

  lemma FilledValue(sh: Shapes, ext: Ext, s: Store, prog: seq<Instr>, c: Buf, f: nat)
    requires f < |prog| && prog[f] == ZeroFill(c)
    ensures AllZero(Get(Before(sh, ext, s, prog, f + 1), c), sh(c))
  {
    BeforeNext(sh, ext, s, prog, f);
  }

  /** The copy holds the transposed weight. */
  ghost predicate HoldsTranspose(b: Tensor, w: Tensor, sh: Shape) {
    forall n: nat, p: nat, j: nat | n < sh.batch && p < sh.rows && j < sh.cols :: At3(b, n, p, j) == At3(w, 0, j, p)
  }

  lemma WeightKept(sh: Shapes, ext: Ext, s: Store, prog: seq<Instr>, m: nat, c: Chain, k: nat)
    requires IsMatmul(prog, m) && ChainOf(prog, m) == Some(c) && ChainStable(prog, m, c) && c.t <= k <= m
    ensures Get(Before(sh, ext, s, prog, k), c.w) == Get(Before(sh, ext, s, prog, m), c.w)
  {
    Unwritten(sh, ext, s, prog, c.w, k, m);
  }

  lemma Rank2Holds(sh: Shapes, ext: Ext, s: Store, prog: seq<Instr>, m: nat, c: Chain)
    requires IsMatmul(prog, m) && ChainOf(prog, m) == Some(c) && c.Rank2? && ChainStable(prog, m, c)
    ensures var st := Before(sh, ext, s, prog, m);
            HoldsTranspose(Get(st, prog[m].b), Get(st, c.w), sh(prog[m].b))
  {
    var b := prog[m].b;
    WeightKept(sh, ext, s, prog, m, c, c.t);
    BeforeNext(sh, ext, s, prog, c.t);
    Unwritten(sh, ext, s, prog, b, c.t + 1, m);
  }

  lemma Rank3Holds(sh: Shapes, ext: Ext, s: Store, prog: seq<Instr>, m: nat, c: Chain)
    requires IsMatmul(prog, m) && ChainOf(prog, m) == Some(c) && c.Rank3? && ChainStable(prog, m, c)
             && ShapesAgree(sh, prog, m)
    ensures var st := Before(sh, ext, s, prog, m);
            HoldsTranspose(Get(st, prog[m].b), Get(st, c.w), sh(prog[m].b))
  {
    var w := Get(Before(sh, ext, s, prog, m), c.w);
    Rank3Turned(sh, ext, s, prog, m, c);
    Rank3Spread(sh, ext, s, prog, m, c);
    SpreadOfTurn(sh(prog[c.s].src), sh(prog[m].b), w);
  }

  lemma Rank3Turned(sh: Shapes, ext: Ext, s: Store, prog: seq<Instr>, m: nat, c: Chain)
    requires IsMatmul(prog, m) && ChainOf(prog, m) == Some(c) && c.Rank3? && ChainStable(prog, m, c)
    ensures Get(Before(sh, ext, s, prog, c.s), prog[c.s].src)
            == TurnValue(sh(prog[c.s].src), Get(Before(sh, ext, s, prog, m), c.w))
  {
    WeightKept(sh, ext, s, prog, m, c, c.t);
    BeforeNext(sh, ext, s, prog, c.t);
    KeptSince(sh, ext, s, prog, prog[c.s].src, c.t, c.s);
  }

  lemma Rank3Spread(sh: Shapes, ext: Ext, s: Store, prog: seq<Instr>, m: nat, c: Chain)
    requires IsMatmul(prog, m) && ChainOf(prog, m) == Some(c) && c.Rank3? && ChainStable(prog, m, c)
    ensures Get(Before(sh, ext, s, prog, m), prog[m].b)
            == SpreadValue(sh(prog[m].b), Get(Before(sh, ext, s, prog, c.s), prog[c.s].src))
  {
    BeforeNext(sh, ext, s, prog, c.s);
    OneWrite(sh, ext, Before(sh, ext, s, prog, c.s), prog[c.s], prog[m].b);
    KeptSince(sh, ext, s, prog, prog[m].b, c.s, m);
  }

  lemma SpreadOfTurn(src: Shape, dst: Shape, w: Tensor)
    requires src == Shape(1, dst.rows, dst.cols)
    ensures HoldsTranspose(SpreadValue(dst, TurnValue(src, w)), w, dst)
  {
  }

  lemma {:induction false} DotOverTranspose(a: Mat, b: Mat, w: Mat, i: nat, j: nat, k: nat)
    requires forall p: nat | p < k :: At(b, p, j) == At(w, j, p)
    ensures Dot(a, b, i, j, k) == DotT(a, w, i, j, k)
  {
    if k > 0 {
      DotOverTranspose(a, b, w, i, j, k - 1);
    }
  }

  /** Overwriting is accumulating exactly when the accumulator holds zeros. */
  lemma AccIsGemm(sh: Shape, k: nat, a: Tensor, b: Tensor, c: Tensor)
    ensures AccValue(sh, k, a, b, c) == GemmValue(sh, k, a, b) <==> AllZero(c, sh)
  {
    var acc, gemm := AccValue(sh, k, a, b, c), GemmValue(sh, k, a, b);
    forall n: nat, i: nat, j: nat | n < sh.batch && i < sh.rows && j < sh.cols
      ensures At3(acc, n, i, j) == At3(c, n, i, j) + At3(gemm, n, i, j)
    {
      GemmAt(sh, k, a, b, n, i, j);
    }
    if AllZero(c, sh) {
      TensorEqual(acc, gemm, sh);
    }
  }

  lemma GemmIsGemmT(sh: Shape, bsh: Shape, a: Tensor, b: Tensor, w: Tensor)
    requires bsh.batch == sh.batch && bsh.cols == sh.cols && HoldsTranspose(b, w, bsh)
    ensures GemmValue(sh, bsh.rows, a, b) == GemmTValue(sh, bsh.rows, a, w)
  {
    var left, right := GemmValue(sh, bsh.rows, a, b), GemmTValue(sh, bsh.rows, a, w);
    forall n: nat, i: nat, j: nat | n < sh.batch && i < sh.rows && j < sh.cols
      ensures At3(left, n, i, j) == At3(right, n, i, j)
    {
      GemmAt(sh, bsh.rows, a, b, n, i, j);
      GemmTAt(sh, bsh.rows, a, w, n, i, j);
      assert forall p: nat | p < bsh.rows :: At(MatAt(b, n), p, j) == At3(b, n, p, j) == At3(w, 0, j, p);
      DotOverTranspose(MatAt(a, n), MatAt(b, n), MatAt(w, 0), i, j, bsh.rows);
    }
    TensorEqual(left, right, sh);
  }

  // ── Bridge calls mean what the bridge's loops store ──

  lemma GemmAt(sh: Shape, k: nat, a: Tensor, b: Tensor, n: nat, i: nat, j: nat)
    requires n < sh.batch && i < sh.rows && j < sh.cols
    ensures At3(GemmValue(sh, k, a, b), n, i, j) == Dot(MatAt(a, n), MatAt(b, n), i, j, k)
  {
  }

  lemma GemmTAt(sh: Shape, k: nat, a: Tensor, w: Tensor, n: nat, i: nat, j: nat)
    requires n < sh.batch && i < sh.rows && j < sh.cols
    ensures At3(GemmTValue(sh, k, a, w), n, i, j) == DotT(MatAt(a, n), MatAt(w, 0), i, j, k)
  {
  }

  lemma MatMulAt(a: Mat, b: Mat, i: nat, j: nat)
    requires i < a.rows && j < b.cols
    ensures At(MatMul(a, b), i, j) == Dot(a, b, i, j, a.cols)
  {
  }

  lemma MatMulTAt(a: Mat, w: Mat, i: nat, j: nat)
    requires i < a.rows && j < w.rows
    ensures At(MatMulT(a, w), i, j) == DotT(a, w, i, j, a.cols)
  {
  }

  /** Batch `n` of a plain call is the matrix product. */
  lemma CallIsProduct(sh: Shape, k: nat, a: Tensor, b: Tensor, n: nat)
    requires n < sh.batch && n < |a| && n < |b| && a[n].rows == sh.rows && a[n].cols == k && b[n].cols == sh.cols
    ensures GemmValue(sh, k, a, b)[n] == MatMul(a[n], b[n])
  {
    var call, product := GemmValue(sh, k, a, b), MatMul(a[n], b[n]);
    forall i: nat, j: nat | i < sh.rows && j < sh.cols ensures At(call[n], i, j) == At(product, i, j) {
      GemmAt(sh, k, a, b, n, i, j);
      MatMulAt(a[n], b[n], i, j);
    }
    MatEqual(call[n], product);
  }

  /** Batch `n` of a call with a transposed weight is the product with its materialised transpose. */
  lemma TransCallIsProduct(sh: Shape, k: nat, a: Tensor, w: Tensor, n: nat)
    requires n < sh.batch && n < |a| && |w| > 0 && Rect(w[0]) && a[n].rows == sh.rows && a[n].cols == k
             && w[0].rows == sh.cols
    ensures GemmTValue(sh, k, a, w)[n] == MatMul(a[n], Transpose(w[0]))
  {
    var call, product := GemmTValue(sh, k, a, w), MatMulT(a[n], w[0]);
    forall i: nat, j: nat | i < sh.rows && j < sh.cols ensures At(call[n], i, j) == At(product, i, j) {
      GemmTAt(sh, k, a, w, n, i, j);
      MatMulTAt(a[n], w[0], i, j);
    }
    MatEqual(call[n], product);
    TransposedProduct(a[n], w[0]);
  }

  // ── Simulation ──

  /** At `k` the stores agree on everything but stale temporaries. */
  ghost predicate Agree(prog: seq<Instr>, k: nat, s: Store, s': Store) {
    forall x: Buf | !Stale(prog, k, x) :: Get(s, x) == Get(s', x)
  }

  /** When matmul `m` executes, accumulating is overwriting, and through a chain the copy is the weight. */
  lemma MatmulValue(sh: Shapes, ext: Ext, s: Store, prog: seq<Instr>, m: nat)
    requires IsMatmul(prog, m) && ZeroFilled(prog, m) && ShapesAgree(sh, prog, m)
    requires ChainOf(prog, m).Some? ==> ChainStable(prog, m, ChainOf(prog, m).value)
    ensures var st, csh, k := Before(sh, ext, s, prog, m), sh(prog[m].c), sh(prog[m].a).cols;
            var a, b, c := Get(st, prog[m].a), Get(st, prog[m].b), Get(st, prog[m].c);
            && AccValue(csh, k, a, b, c) == GemmValue(csh, k, a, b)
            && (ChainOf(prog, m).Some? ==>
                   GemmValue(csh, k, a, b) == GemmTValue(csh, k, a, Get(st, ChainOf(prog, m).value.w)))
  {
    var st, csh, k := Before(sh, ext, s, prog, m), sh(prog[m].c), sh(prog[m].a).cols;
    AccumulatorIsZero(sh, ext, s, prog, m);
    AccIsGemm(csh, k, Get(st, prog[m].a), Get(st, prog[m].b), Get(st, prog[m].c));
    if ChainOf(prog, m).Some? {
      var ch := ChainOf(prog, m).value;
      if ch.Rank2? { Rank2Holds(sh, ext, s, prog, m, ch); } else { Rank3Holds(sh, ext, s, prog, m, ch); }
      GemmIsGemmT(csh, sh(prog[m].b), Get(st, prog[m].a), Get(st, prog[m].b), Get(st, ch.w));
    }
  }

  lemma CallValue(sh: Shapes, ext: Ext, st: Store, a: Buf, b: Buf, c: Buf)
    ensures Get(Step(sh, ext, st, Gemm(a, b, c)), c) == GemmValue(sh(c), sh(a).cols, Get(st, a), Get(st, b))
    ensures Get(Step(sh, ext, st, GemmT(a, b, c)), c) == GemmTValue(sh(c), sh(a).cols, Get(st, a), Get(st, b))
  {
  }

  lemma ReplacementValue(sh: Shapes, ext: Ext, prog: seq<Instr>, m: nat, st: Store)
    requires IsMatmul(prog, m)
    ensures var csh, k, a := sh(prog[m].c), sh(prog[m].a).cols, Get(st, prog[m].a);
            Get(Step(sh, ext, st, Replacement(prog, m)), prog[m].c) ==
            match ChainOf(prog, m)
            case None => GemmValue(csh, k, a, Get(st, prog[m].b))
            case Some(c) => GemmTValue(csh, k, a, Get(st, c.w))
  {
    var op := prog[m];
    CallValue(sh, ext, st, op.a, match ChainOf(prog, m) case None => op.b case Some(c) => c.w, op.c);
  }

  lemma MatmulSame(sh: Shapes, ext: Ext, s: Store, prog: seq<Instr>, m: nat, st': Store)
    requires Safe(sh, prog) && IsMatmul(prog, m) && Agree(prog, m, Before(sh, ext, s, prog, m), st')
    ensures Get(Step(sh, ext, Before(sh, ext, s, prog, m), prog[m]), prog[m].c)
            == Get(Step(sh, ext, st', Replacement(prog, m)), prog[m].c)
  {
    assert SafeAt(sh, prog, m);
    MatmulReadsFresh(sh, prog, m);
    MatmulValue(sh, ext, s, prog, m);
    ReplacementValue(sh, ext, prog, m, st');
  }

  /** A kept operation does the same in both runs. */
  lemma KeptSame(sh: Shapes, ext: Ext, prog: seq<Instr>, st: Store, st': Store, k: nat, x: Buf)
    requires Safe(sh, prog) && k < |prog| && !IsMatmul(prog, k) && !IsErased(prog, |prog|, k)
    requires Agree(prog, k, st, st') && x in Writes(prog[k])
    ensures Get(Step(sh, ext, st, prog[k]), x) == Get(Step(sh, ext, st', prog[k]), x)
  {
    forall y | y in Reads(prog[k]) ensures Get(st, y) == Get(st', y) {
      KeptReadsFresh(sh, prog, k, y);
    }
    SameResults(sh, ext, st, st', prog[k], x);
  }

  /** The operation at `k` of the rewritten program writes no more than the original one. */
  lemma TargetWrites(prog: seq<Instr>, k: nat, x: Buf)
    requires k < |prog| && x !in Writes(prog[k])
    ensures x !in Writes(TargetAt(prog, |prog|, k))
  {
  }

  /** A buffer the operation does not write stays as fresh as it was. */
  lemma StaysFresh(prog: seq<Instr>, k: nat, x: Buf)
    requires k < |prog| && x !in Writes(prog[k]) && !Stale(prog, k + 1, x)
    ensures !Stale(prog, k, x)
  {
    if Stale(prog, k, x) {
      var t: nat :| StaleSince(prog, k, x, t);
      assert StaleSince(prog, k + 1, x, t);
    }
  }

  lemma WrittenSame(sh: Shapes, ext: Ext, s: Store, prog: seq<Instr>, k: nat, st': Store, x: Buf)
    requires Safe(sh, prog) && k < |prog| && Agree(prog, k, Before(sh, ext, s, prog, k), st')
    requires x in Writes(prog[k]) && !IsErased(prog, |prog|, k)
    ensures Get(Step(sh, ext, Before(sh, ext, s, prog, k), prog[k]), x)
            == Get(Step(sh, ext, st', TargetAt(prog, |prog|, k)), x)
  {
    if IsMatmul(prog, k) {
      MatmulSame(sh, ext, s, prog, k, st');
    } else {
      KeptSame(sh, ext, prog, Before(sh, ext, s, prog, k), st', k, x);
    }
  }

  lemma AgreeStep(sh: Shapes, ext: Ext, s: Store, prog: seq<Instr>, k: nat, st': Store, x: Buf)
    requires Safe(sh, prog) && k < |prog| && Agree(prog, k, Before(sh, ext, s, prog, k), st') && !Stale(prog, k + 1, x)
    ensures Get(Step(sh, ext, Before(sh, ext, s, prog, k), prog[k]), x)
            == Get(Step(sh, ext, st', TargetAt(prog, |prog|, k)), x)
  {
    if x in Writes(prog[k]) {
      assert !StaleSince(prog, k + 1, x, k);
      WrittenSame(sh, ext, s, prog, k, st', x);
    } else {
      StaysFresh(prog, k, x);
      Frame(sh, ext, Before(sh, ext, s, prog, k), prog[k], x);
      TargetWrites(prog, k, x);
      Frame(sh, ext, st', TargetAt(prog, |prog|, k), x);
    }
  }

  lemma SimulationStep(sh: Shapes, ext: Ext, s: Store, prog: seq<Instr>, q: seq<Instr>, k: nat)
    requires Safe(sh, prog) && Partly(q, prog, |prog|) && k < |prog|
    requires Agree(prog, k, Before(sh, ext, s, prog, k), Before(sh, ext, s, q, k))
    ensures Agree(prog, k + 1, Before(sh, ext, s, prog, k + 1), Before(sh, ext, s, q, k + 1))
  {
    var next, next' := Before(sh, ext, s, prog, k + 1), Before(sh, ext, s, q, k + 1);
    BeforeNext(sh, ext, s, prog, k);
    BeforeNext(sh, ext, s, q, k);
    forall x: Buf | !Stale(prog, k + 1, x) ensures Get(next, x) == Get(next', x) {
      AgreeStep(sh, ext, s, prog, k, Before(sh, ext, s, q, k), x);
    }
  }

  lemma {:induction false} Simulation(sh: Shapes, ext: Ext, s: Store, prog: seq<Instr>, q: seq<Instr>, k: nat)
    requires Safe(sh, prog) && Partly(q, prog, |prog|) && k <= |prog|
    ensures Agree(prog, k, Before(sh, ext, s, prog, k), Before(sh, ext, s, q, k))
    decreases k
  {
    if k > 0 {
      Simulation(sh, ext, s, prog, q, k - 1);
      SimulationStep(sh, ext, s, prog, q, k - 1);
    }
  }

  /** Main theorem.  Rewriting every f32 matmul and batch_matmul of a safe program, erasing the recognised
      transpose and broadcast copies, leaves the final contents of every buffer unchanged unless its last
      write was an erased copy, from any initial store and for any meaning of the other operations. */
  lemma RewritePreserves(sh: Shapes, ext: Ext, s: Store, prog: seq<Instr>, x: Buf)
    requires Safe(sh, prog) && !Stale(prog, |prog|, x)
    ensures Get(RunProg(sh, ext, s, RewriteUpTo(prog, |prog|)), x) == Get(RunProg(sh, ext, s, prog), x)
  {
    var q := RewriteUpTo(prog, |prog|);
    RewriteIsTarget(sh, prog, |prog|);
    Simulation(sh, ext, s, prog, q, |prog|);
    assert prog[..|prog|] == prog && q[..|prog|] == q;
  }

  /** Taking the erased operations out of the list changes nothing. */
  function Compact(prog: seq<Instr>): seq<Instr> {
    if prog == [] then []
    else
      var n := |prog| - 1;
      Compact(prog[..n]) + (if prog[n] == Erased then [] else [prog[n]])
  }

  lemma RunSnoc(sh: Shapes, ext: Ext, s: Store, prog: seq<Instr>, op: Instr)
    ensures RunProg(sh, ext, s, prog + [op]) == Step(sh, ext, RunProg(sh, ext, s, prog), op)
  {
    assert (prog + [op])[..|prog|] == prog;
  }

  lemma {:induction false} CompactRuns(sh: Shapes, ext: Ext, s: Store, prog: seq<Instr>)
    ensures RunProg(sh, ext, s, Compact(prog)) == RunProg(sh, ext, s, prog)
  {
    if prog != [] {
      var n := |prog| - 1;
      CompactRuns(sh, ext, s, prog[..n]);
      RunSnoc(sh, ext, s, prog[..n], prog[n]);
      assert prog[..n] + [prog[n]] == prog;
      if prog[n] == Erased {
        assert Compact(prog) == Compact(prog[..n]);
      } else {
        RunSnoc(sh, ext, s, Compact(prog[..n]), prog[n]);
        assert Compact(prog) == Compact(prog[..n]) + [prog[n]];
      }
    }
  }

  // ── Buffers reused for a second copy ──

  /** The buffer of a copy may hold another copy later. */
  const REUSED: seq<Instr> :=
    [ZeroFill(5), ZeroFill(6), Turn(0, 2), MatMulAcc(1, 2, 5, false, true), Turn(3, 2), MatMulAcc(5, 2, 6, false, true)]

  lemma ReusedChains()
    ensures ChainOf(REUSED, 3) == Some(Rank2(2, 0)) && ChainOf(REUSED, 5) == Some(Rank2(4, 3))
  {
    LastWriterIs(REUSED, 2, 3, 2);
    LastWriterIs(REUSED, 2, 5, 4);
  }

  lemma ReusedFills()
    ensures ZeroFilled(REUSED, 3) && ZeroFilled(REUSED, 5)
  {
    assert FillsAt(REUSED, 5, 0, 3);
    assert FillsAt(REUSED, 6, 1, 5);
  }

  lemma ReusedLive()
    ensures OnlyLiveReader(REUSED, 2, 2, 3) && OnlyLiveReader(REUSED, 2, 4, 5)
  {
    assert 2 in Writes(REUSED[4]) && LastOperand(REUSED[4]) == Some(2);
    assert OverwrittenBetween(REUSED, 2, 2, 5);
  }

  lemma ReusedShapes(sh: Shapes)
    requires forall x: Buf :: sh(x) == Shape(1, 1, 1)
    ensures ShapesAgree(sh, REUSED, 3) && ShapesAgree(sh, REUSED, 5)
  {
    ReusedChains();
  }

  lemma ReusedChainSafe()
    ensures ChainSafe(REUSED, 3, Rank2(2, 0)) && ChainSafe(REUSED, 5, Rank2(4, 3))
  {
    ReusedLive();
  }

  lemma ReusedIsSafe(sh: Shapes)
    requires forall x: Buf :: sh(x) == Shape(1, 1, 1)
    ensures Safe(sh, REUSED)
  {
    ReusedChains();
    ReusedFills();
    ReusedShapes(sh);
    ReusedChainSafe();
    forall m: nat | IsMatmul(REUSED, m) ensures SafeAt(sh, REUSED, m) {
      assert m == 3 || m == 5;
    }
  }
}
