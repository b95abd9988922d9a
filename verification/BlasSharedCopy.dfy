/** Two products that share one transposed copy: erasing it for the first leaves the second without it. */
module BlasSharedCopy {
  import opened Options
  import opened Matrices
  import opened BufferPrograms
  import opened BlasRewrite
  import opened BlasRewriteProof

  /** Where the copy read by the product is filled. */
  function FillOf(c: Chain): nat { if c.Rank2? then c.t else c.s }

  /** Only `f` writes `x`, or is found when searching for its writer, before `n`. */
  ghost predicate OnlyWriter(prog: seq<Instr>, x: Buf, f: nat, n: nat) {
    forall k: nat | k < n && k < |prog| && k != f :: !Touches(prog[k], x)
  }

  ghost predicate NeverWritten(prog: seq<Instr>, x: Buf, n: nat) {
    forall k: nat | k < n && k < |prog| :: x !in Writes(prog[k])
  }

  /** What `x` holds before `n` is up to the caller: an input of the program, or the result of an operation
      the rewrite knows nothing about. */
  ghost predicate Free(prog: seq<Instr>, x: Buf, n: nat) {
    NeverWritten(prog, x, n) || exists p: nat :: ResultOf(prog, x, n, p)
  }

  ghost predicate ResultOf(prog: seq<Instr>, x: Buf, n: nat, p: nat) {
    p < n && p < |prog| && prog[p].Other? && x in prog[p].outs && NoWrites(prog, x, p, n)
  }

  /** The last operation is a product through the same chain as an earlier one; its left operand and the
      weight are free, the copies have no other writer, and all else is as the rewrite needs. */
  ghost predicate SharesCopy(sh: Shapes, prog: seq<Instr>, m1: nat, m2: nat, c: Chain) {
    && m1 < m2 && |prog| == m2 + 1 && IsMatmul(prog, m1) && IsMatmul(prog, m2)
    && ChainOf(prog, m1) == Some(c) && ChainOf(prog, m2) == Some(c)
    && ChainStable(prog, m2, c) && ZeroFilled(prog, m2) && ShapesAgree(sh, prog, m2)
    && prog[m2].a != prog[m2].b && c.w != prog[m2].b && Free(prog, prog[m2].a, m2) && Free(prog, c.w, m2)
    && OnlyWriter(prog, prog[m2].b, FillOf(c), m2)
    && (c.Rank3? ==> OnlyWriter(prog, prog[c.s].src, c.t, m2)
                     && forall k: nat | k < m2 && k != c.s :: prog[c.s].src !in Reads(prog[k]))
  }

  // ── What rewriting can do to a program, safe or not ──

  ghost predicate ShadowAt(cur: Instr, was: Instr, done: bool) {
    || cur == was
    || (cur == Erased && (was.Turn? || was.Spread?))
    || (done && was.MatMulAcc? && ((cur.Gemm? && cur.c == was.c) || (cur.GemmT? && cur.c == was.c)))
  }

  ghost predicate Shadow(cur: seq<Instr>, prog: seq<Instr>, n: nat) {
    |cur| == |prog| && forall k: nat | k < |prog| :: ShadowAt(cur[k], prog[k], k < n)
  }

  lemma ShadowStep(cur: seq<Instr>, prog: seq<Instr>, n: nat)
    requires Shadow(cur, prog, n) && n < |prog|
    ensures Shadow(RewriteAt(cur, n), prog, n + 1)
  {
    var next := RewriteAt(cur, n);
    assert ShadowAt(cur[n], prog[n], false);
    forall k: nat | k < |prog| ensures ShadowAt(next[k], prog[k], k < n + 1) {
      assert ShadowAt(cur[k], prog[k], k < n);
    }
  }

  lemma {:induction false} RewriteShadows(prog: seq<Instr>, n: nat)
    requires n <= |prog|
    ensures Shadow(RewriteUpTo(prog, n), prog, n)
  {
    if n > 0 {
      RewriteShadows(prog, n - 1);
      ShadowStep(RewriteUpTo(prog, n - 1), prog, n - 1);
    }
  }

  lemma ShadowOperand(cur: Instr, was: Instr, done: bool)
    requires ShadowAt(cur, was, done)
    ensures LastOperand(cur) == LastOperand(was) || LastOperand(cur) == None
    ensures Writes(cur) <= Writes(was)
    ensures cur.Turn? || cur.Spread? || cur.MatMulAcc? ==> cur == was
  {
  }

  lemma ErasedStays(cur: seq<Instr>, n: nat, k: nat)
    requires n < |cur| && k < |cur| && cur[k] == Erased
    ensures RewriteAt(cur, n)[k] == Erased
  {
  }

  // ── The shared copy is erased for the first product ──

  /** Searching for a buffer with a single writer finds it, or nothing once it is erased. */
  lemma FindOnly(cur: seq<Instr>, prog: seq<Instr>, n: nat, x: Buf, f: nat, i: nat)
    requires Shadow(cur, prog, n) && OnlyWriter(prog, x, f, i) && f < i <= |prog| && LastOperand(prog[f]) == Some(x)
    requires prog[f].Turn? || prog[f].Spread?
    ensures cur[f] == prog[f] || cur[f] == Erased
    ensures LastWriter(cur, x, i) == if cur[f] == Erased then None else Some(f)
  {
    forall k: nat | k < i && k != f ensures LastOperand(cur[k]) != Some(x) {
      assert ShadowAt(cur[k], prog[k], k < n);
      ShadowOperand(cur[k], prog[k], k < n);
      assert !Touches(prog[k], x);
    }
    assert ShadowAt(cur[f], prog[f], f < n);
    if cur[f] != Erased {
      LastWriterIs(cur, x, i, f);
    }
  }

  /** The transpose of a batched chain is erased only together with the broadcast. */
  lemma TogetherStep(prog: seq<Instr>, cur: seq<Instr>, n: nat, c: Chain, b: Buf, m2: nat)
    requires Shadow(cur, prog, n) && n < m2 < |prog| && c.Rank3? && c.t < c.s < m2
    requires prog[c.s].Spread? && prog[c.t].Turn? && prog[c.t].dst == prog[c.s].src
    requires forall k: nat | k < m2 && k != c.s :: prog[c.s].src !in Reads(prog[k])
    requires cur[c.t] == Erased ==> cur[c.s] == Erased
    ensures RewriteAt(cur, n)[c.t] == Erased ==> RewriteAt(cur, n)[c.s] == Erased
  {
    assert ShadowAt(cur[n], prog[n], false) && ShadowAt(cur[c.t], prog[c.t], c.t < n);
    if cur[c.s] == Erased {
      ErasedStays(cur, n, c.s);
    } else if IsMatmul(cur, n) && ChainOf(cur, n).Some? {
      var d := ChainOf(cur, n).value;
      if d.Rank3? {
        assert ShadowAt(cur[d.s], prog[d.s], d.s < n);
      }
    }
  }

  lemma {:induction false} ErasedTogether(prog: seq<Instr>, n: nat, c: Chain, m2: nat)
    requires n <= m2 < |prog| && c.Rank3? && c.t < c.s < m2
    requires prog[c.s].Spread? && prog[c.t].Turn? && prog[c.t].dst == prog[c.s].src
    requires forall k: nat | k < m2 && k != c.s :: prog[c.s].src !in Reads(prog[k])
    ensures RewriteUpTo(prog, n)[c.t] == Erased ==> RewriteUpTo(prog, n)[c.s] == Erased
    decreases n
  {
    if n > 0 {
      ErasedTogether(prog, n - 1, c, m2);
      RewriteShadows(prog, n - 1);
      TogetherStep(prog, RewriteUpTo(prog, n - 1), n - 1, c, prog[c.s].dst, m2);
    }
  }

  /** Rewriting the first product erases the copy, if it was not erased already. */
  lemma CopyErased(sh: Shapes, prog: seq<Instr>, m1: nat, m2: nat, c: Chain)
    requires SharesCopy(sh, prog, m1, m2, c)
    ensures RewriteUpTo(prog, m1 + 1)[FillOf(c)] == Erased
  {
    var cur, f, b := RewriteUpTo(prog, m1), FillOf(c), prog[m2].b;
    RewriteShadows(prog, m1);
    assert ShadowAt(cur[m1], prog[m1], false);
    if cur[f] == Erased {
      ErasedStays(cur, m1, f);
    } else {
      FindOnly(cur, prog, m1, b, f, m1);
      if c.Rank3? {
        ErasedTogether(prog, m1, c, m2);
        FindOnly(cur, prog, m1, prog[c.s].src, c.t, c.s);
      }
    }
  }

  lemma {:induction false} StaysErased(prog: seq<Instr>, k: nat, i: nat, j: nat)
    requires i <= j <= |prog| && k < |prog| && RewriteUpTo(prog, i)[k] == Erased
    ensures RewriteUpTo(prog, j)[k] == Erased
    decreases j
  {
    if i < j {
      StaysErased(prog, k, i, j - 1);
      ErasedStays(RewriteUpTo(prog, j - 1), j - 1, k);
    }
  }

  /** A partly rewritten program leaves alone what the original never writes, or writes only where erased. */
  lemma ShadowWrites(cur: seq<Instr>, prog: seq<Instr>, n: nat, x: Buf, f: nat)
    requires Shadow(cur, prog, n) && n <= |prog| && OnlyWriter(prog, x, f, n) && (f < |prog| ==> cur[f] == Erased)
    ensures NeverWritten(cur, x, n)
  {
    forall k: nat | k < n ensures x !in Writes(cur[k]) {
      assert ShadowAt(cur[k], prog[k], k < n);
      ShadowOperand(cur[k], prog[k], k < n);
      assert k != f ==> !Touches(prog[k], x);
    }
  }

  lemma ShadowWritesNoMore(cur: seq<Instr>, prog: seq<Instr>, n: nat, k: nat)
    requires Shadow(cur, prog, n) && k < n <= |prog|
    ensures Writes(cur[k]) <= Writes(prog[k]) && (prog[k].Other? ==> cur[k] == prog[k])
  {
    assert ShadowAt(cur[k], prog[k], k < n);
    ShadowOperand(cur[k], prog[k], k < n);
  }

  /** Rewriting leaves free buffers free. */
  lemma ShadowFree(cur: seq<Instr>, prog: seq<Instr>, n: nat, x: Buf)
    requires Shadow(cur, prog, n) && n <= |prog| && Free(prog, x, n)
    ensures Free(cur, x, n)
  {
    forall k: nat | k < n ensures Writes(cur[k]) <= Writes(prog[k]) && (prog[k].Other? ==> cur[k] == prog[k]) {
      ShadowWritesNoMore(cur, prog, n, k);
    }
    if NeverWritten(prog, x, n) {
      assert NeverWritten(cur, x, n);
    } else {
      var p: nat :| ResultOf(prog, x, n, p);
      assert ResultOf(cur, x, n, p);
    }
  }

  /** When the second product is reached, its copy is gone and nobody fills the buffer. */
  lemma SecondFound(sh: Shapes, prog: seq<Instr>, m1: nat, m2: nat, c: Chain, cur: seq<Instr>, b: Buf)
    requires SharesCopy(sh, prog, m1, m2, c) && cur == RewriteUpTo(prog, m2) && b == prog[m2].b
    ensures |cur| == |prog| && cur[m2] == prog[m2] && LastWriter(cur, b, m2).None? && NeverWritten(cur, b, m2)
  {
    var f := FillOf(c);
    CopyErased(sh, prog, m1, m2, c);
    StaysErased(prog, f, m1 + 1, m2);
    RewriteShadows(prog, m2);
    assert ShadowAt(cur[m2], prog[m2], false);
    FindOnly(cur, prog, m2, b, f, m2);
    ShadowWrites(cur, prog, m2, b, f);
  }

  /** So the second product becomes a plain call on a buffer nobody fills. */
  lemma SecondIsPlain(sh: Shapes, prog: seq<Instr>, m1: nat, m2: nat, c: Chain)
    requires SharesCopy(sh, prog, m1, m2, c)
    ensures var q := RewriteUpTo(prog, |prog|);
            && q[m2] == Gemm(prog[m2].a, prog[m2].b, prog[m2].c)
            && NeverWritten(q, prog[m2].b, m2) && Free(q, prog[m2].a, m2)
  {
    var cur, op := RewriteUpTo(prog, m2), prog[m2];
    SecondFound(sh, prog, m1, m2, c, cur, op.b);
    assert Free(cur, op.a, m2) by {
      RewriteShadows(prog, m2);
      ShadowFree(cur, prog, m2, op.a);
    }
    BecomesPlain(prog, cur, m2, op.a, op.b, op.c);
  }

  lemma BecomesPlain(prog: seq<Instr>, cur: seq<Instr>, m: nat, a: Buf, b: Buf, c: Buf)
    requires |prog| == m + 1 && cur == RewriteUpTo(prog, m) && IsMatmul(cur, m)
    requires cur[m].a == a && cur[m].b == b && cur[m].c == c && LastWriter(cur, b, m).None?
    requires NeverWritten(cur, b, m) && Free(cur, a, m)
    ensures var q := RewriteUpTo(prog, |prog|); q[m] == Gemm(a, b, c) && NeverWritten(q, b, m) && Free(q, a, m)
  {
    PlainRewrite(cur, m);
    Elsewhere(cur, m, Gemm(a, b, c), b);
    FreeElsewhere(cur, m, Gemm(a, b, c), a);
  }

  /** A product whose operand has no writer becomes a plain call. */
  lemma PlainRewrite(cur: seq<Instr>, m: nat)
    requires IsMatmul(cur, m) && LastWriter(cur, cur[m].b, m).None?
    ensures RewriteAt(cur, m) == cur[m := Gemm(cur[m].a, cur[m].b, cur[m].c)]
  {
  }

  lemma Elsewhere(cur: seq<Instr>, m: nat, op: Instr, x: Buf)
    requires m < |cur| && NeverWritten(cur, x, m)
    ensures NeverWritten(cur[m := op], x, m)
  {
  }

  lemma FreeElsewhere(cur: seq<Instr>, m: nat, op: Instr, x: Buf)
    requires m < |cur| && Free(cur, x, m)
    ensures Free(cur[m := op], x, m)
  {
    if NeverWritten(cur, x, m) {
      Elsewhere(cur, m, op, x);
    } else {
      var p: nat :| ResultOf(cur, x, m, p);
      assert ResultOf(cur[m := op], x, m, p);
    }
  }

  // ── What the second product computes ──

  lemma KeptFromStart(sh: Shapes, ext: Ext, s: Store, prog: seq<Instr>, x: Buf, n: nat)
    requires n <= |prog| && NeverWritten(prog, x, n)
    ensures Get(Before(sh, ext, s, prog, n), x) == Get(s, x)
  {
    Unwritten(sh, ext, s, prog, x, 0, n);
  }

  lemma LastStep(sh: Shapes, ext: Ext, s: Store, prog: seq<Instr>, n: nat)
    requires |prog| == n + 1
    ensures RunProg(sh, ext, s, prog) == Step(sh, ext, Before(sh, ext, s, prog, n), prog[n])
  {
    BeforeNext(sh, ext, s, prog, n);
    assert prog[..n + 1] == prog;
  }

  /** The original program multiplies by the transposed weight. */
  lemma OriginalProduct(sh: Shapes, ext: Ext, s: Store, prog: seq<Instr>, m1: nat, m2: nat, c: Chain)
    requires SharesCopy(sh, prog, m1, m2, c)
    ensures var st := Before(sh, ext, s, prog, m2);
            Get(RunProg(sh, ext, s, prog), prog[m2].c)
            == GemmTValue(sh(prog[m2].c), sh(prog[m2].a).cols, Get(st, prog[m2].a), Get(st, c.w))
  {
    MatmulValue(sh, ext, s, prog, m2);
    LastStep(sh, ext, s, prog, m2);
  }

  /** The rewritten program multiplies by whatever the buffer held at the start. */
  lemma RewrittenProduct(sh: Shapes, ext: Ext, s: Store, prog: seq<Instr>, m1: nat, m2: nat, c: Chain)
    requires SharesCopy(sh, prog, m1, m2, c)
    ensures var q := RewriteUpTo(prog, |prog|);
            Get(RunProg(sh, ext, s, q), prog[m2].c)
            == GemmValue(sh(prog[m2].c), sh(prog[m2].a).cols, Get(Before(sh, ext, s, q, m2), prog[m2].a),
                Get(s, prog[m2].b))
  {
    SecondIsPlain(sh, prog, m1, m2, c);
    PlainLast(sh, ext, s, RewriteUpTo(prog, |prog|), prog[m2].a, prog[m2].b, prog[m2].c, m2);
  }

  lemma PlainLast(sh: Shapes, ext: Ext, s: Store, q: seq<Instr>, a: Buf, b: Buf, c: Buf, n: nat)
    requires |q| == n + 1 && q[n] == Gemm(a, b, c) && NeverWritten(q, b, n)
    ensures Get(RunProg(sh, ext, s, q), c)
            == GemmValue(sh(c), sh(a).cols, Get(Before(sh, ext, s, q, n), a), Get(s, b))
  {
    KeptFromStart(sh, ext, s, q, b, n);
    LastStep(sh, ext, s, q, n);
  }

  // ── When the two agree ──

  ghost predicate EmptyProduct(sh: Shape, k: nat) { sh.batch == 0 || sh.rows == 0 || sh.cols == 0 || k == 0 }

  lemma EmptyAgree(sh: Shape, k: nat, a: Tensor, b: Tensor, a': Tensor, w: Tensor)
    requires EmptyProduct(sh, k)
    ensures GemmValue(sh, k, a, b) == GemmTValue(sh, k, a', w)
  {
    TensorEqual(GemmValue(sh, k, a, b), GemmTValue(sh, k, a', w), sh);
  }

  /** A tensor of ones. */
  function Ones(n: nat): Tensor { Make(Shape(1, n, n), (b: nat, i: nat, j: nat) => 1.0) }

  lemma {:induction false} OnesDot(n: nat, k: nat)
    requires k <= n && n > 0
    ensures DotT(MatAt(Ones(n), 0), MatAt(Ones(n), 0), 0, 0, k) == k as real
  {
    if k > 0 {
      OnesDot(n, k - 1);
      assert At3(Ones(n), 0, 0, k - 1) == 1.0;
    }
  }

  lemma {:induction false} EmptyDot(a: Mat, k: nat)
    ensures Dot(a, MatAt([], 0), 0, 0, k) == 0.0
  {
    if k > 0 {
      EmptyDot(a, k - 1);
    }
  }

  /** Ones times ones is not ones times nothing. */
  lemma OnesDiffer(sh: Shape, k: nat)
    requires !EmptyProduct(sh, k)
    ensures GemmValue(sh, k, Ones(k), []) != GemmTValue(sh, k, Ones(k), Ones(k))
  {
    OnesDot(k, k);
    EmptyDot(MatAt(Ones(k), 0), k);
    assert At3(GemmValue(sh, k, Ones(k), []), 0, 0, 0) == 0.0;
    assert At3(GemmTValue(sh, k, Ones(k), Ones(k)), 0, 0, 0) == k as real;
  }

  // ── Free buffers can be made to hold ones ──

  /** Every unknown operation yields `t`. */
  function Constant(t: Tensor): Ext { (id: nat, n: nat, vals: seq<Tensor>) => t }

  lemma {:induction false} ConstantWrites(s: Store, t: Tensor, id: nat, vals: seq<Tensor>, writes: seq<Buf>, x: Buf)
    requires x in writes
    ensures Get(WriteAll(s, Constant(t), id, vals, writes), x) == t
  {
    var n := |writes| - 1;
    if writes[n] != x {
      assert x in writes[..n];
      ConstantWrites(s, t, id, vals, writes[..n], x);
    }
  }

  lemma FreeHolds(sh: Shapes, s: Store, prog: seq<Instr>, x: Buf, n: nat, t: Tensor)
    requires n <= |prog| && Free(prog, x, n) && Get(s, x) == t
    ensures Get(Before(sh, Constant(t), s, prog, n), x) == t
  {
    if NeverWritten(prog, x, n) {
      KeptFromStart(sh, Constant(t), s, prog, x, n);
    } else {
      var p: nat :| ResultOf(prog, x, n, p);
      ResultHolds(sh, s, prog, x, n, t, p);
    }
  }

  lemma ResultHolds(sh: Shapes, s: Store, prog: seq<Instr>, x: Buf, n: nat, t: Tensor, p: nat)
    requires n <= |prog| && ResultOf(prog, x, n, p)
    ensures Get(Before(sh, Constant(t), s, prog, n), x) == t
  {
    var st, op := Before(sh, Constant(t), s, prog, p), prog[p];
    BeforeNext(sh, Constant(t), s, prog, p);
    ConstantWrites(st, t, op.id, Values(st, op.ins), op.outs, x);
    KeptSince(sh, Constant(t), s, prog, x, p, n);
  }

  // ── Exactly when the second product survives ──

  ghost predicate SecondKept(sh: Shapes, ext: Ext, s: Store, prog: seq<Instr>, x: Buf) {
    Get(RunProg(sh, ext, s, RewriteUpTo(prog, |prog|)), x) == Get(RunProg(sh, ext, s, prog), x)
  }

  lemma EmptyKept(sh: Shapes, ext: Ext, s: Store, prog: seq<Instr>, m1: nat, m2: nat, c: Chain)
    requires SharesCopy(sh, prog, m1, m2, c) && EmptyProduct(sh(prog[m2].c), sh(prog[m2].a).cols)
    ensures SecondKept(sh, ext, s, prog, prog[m2].c)
  {
    var st, st' := Before(sh, ext, s, prog, m2), Before(sh, ext, s, RewriteUpTo(prog, |prog|), m2);
    OriginalProduct(sh, ext, s, prog, m1, m2, c);
    RewrittenProduct(sh, ext, s, prog, m1, m2, c);
    EmptyAgree(sh(prog[m2].c), sh(prog[m2].a).cols, Get(st', prog[m2].a), Get(s, prog[m2].b), Get(st, prog[m2].a),
        Get(st, c.w));
  }

  lemma NonEmptyLost(sh: Shapes, prog: seq<Instr>, m1: nat, m2: nat, c: Chain) returns (s: Store, ext: Ext)
    requires SharesCopy(sh, prog, m1, m2, c) && !EmptyProduct(sh(prog[m2].c), sh(prog[m2].a).cols)
    ensures !SecondKept(sh, ext, s, prog, prog[m2].c)
  {
    var k := sh(prog[m2].a).cols;
    s, ext := map[prog[m2].a := Ones(k), c.w := Ones(k)], Constant(Ones(k));
    SecondIsPlain(sh, prog, m1, m2, c);
    FreeHolds(sh, s, prog, prog[m2].a, m2, Ones(k));
    FreeHolds(sh, s, prog, c.w, m2, Ones(k));
    FreeHolds(sh, s, RewriteUpTo(prog, |prog|), prog[m2].a, m2, Ones(k));
    OriginalProduct(sh, ext, s, prog, m1, m2, c);
    RewrittenProduct(sh, ext, s, prog, m1, m2, c);
    OnesDiffer(sh(prog[m2].c), k);
  }

  /** With a shared copy, and all else as the rewrite needs, the second accumulator is right from every store
      and for every meaning of the other operations exactly when its product is empty. */
  lemma SharedCopyIff(sh: Shapes, prog: seq<Instr>, m1: nat, m2: nat, c: Chain)
    requires SharesCopy(sh, prog, m1, m2, c)
    ensures (forall s: Store, ext: Ext :: SecondKept(sh, ext, s, prog, prog[m2].c))
            <==> EmptyProduct(sh(prog[m2].c), sh(prog[m2].a).cols)
  {
    if EmptyProduct(sh(prog[m2].c), sh(prog[m2].a).cols) {
      forall s: Store, ext: Ext ensures SecondKept(sh, ext, s, prog, prog[m2].c) {
        EmptyKept(sh, ext, s, prog, m1, m2, c);
      }
    } else {
      var s, ext := NonEmptyLost(sh, prog, m1, m2, c);
    }
  }

  // ── A witness ──

  /** An activation computed by the program, multiplied twice by one transposed weight. */
  const SHARED: seq<Instr> :=
    [Other(7, [1], [5], Some(5)), ZeroFill(3), ZeroFill(4), Turn(0, 2), MatMulAcc(5, 2, 3, false, true),
     MatMulAcc(5, 2, 4, false, true)]

  lemma SharedChains()
    ensures ChainOf(SHARED, 4) == Some(Rank2(3, 0)) && ChainOf(SHARED, 5) == Some(Rank2(3, 0))
  {
    LastWriterIs(SHARED, 2, 4, 3);
    LastWriterIs(SHARED, 2, 5, 3);
  }

  lemma SharedIsStable()
    ensures ChainStable(SHARED, 5, Rank2(3, 0)) && OnlyWriter(SHARED, 2, 3, 5) && ZeroFilled(SHARED, 5)
  {
    assert FillsAt(SHARED, 4, 2, 5);
  }

  lemma SharedIsFree()
    ensures Free(SHARED, 5, 5) && Free(SHARED, 0, 5)
  {
    assert ResultOf(SHARED, 5, 5, 0);
    assert NeverWritten(SHARED, 0, 5);
  }

  lemma SharedShares(sh: Shapes)
    requires forall x: Buf :: sh(x) == Shape(1, 1, 1)
    ensures SharesCopy(sh, SHARED, 4, 5, Rank2(3, 0))
  {
    SharedChains();
    SharedIsStable();
    SharedIsFree();
  }

  /** Two products with one transposed weight: the second one can be wrong after the rewrite. */
  lemma SharedCopyBreaks(sh: Shapes)
    requires forall x: Buf :: sh(x) == Shape(1, 1, 1)
    ensures exists s: Store, ext: Ext :: !SecondKept(sh, ext, s, SHARED, 4)
  {
    SharedShares(sh);
    SharedCopyIff(sh, SHARED, 4, 5, Rank2(3, 0));
  }
}
