/** The matmul-to-BLAS rewrite: transposed weights are used in place, the copies are erased, and every
    buffer other than the erased temporaries ends with the same contents. */
module BlasRewrite {
  import opened Options
  import opened Matrices
  import opened BufferPrograms

  // ── Chain matching ──

  /** The last operation before `m` whose last operand is `x`. */
  function LastWriter(prog: seq<Instr>, x: Buf, m: nat): (r: Option<nat>)
    requires m <= |prog|
    ensures r.Some? ==> r.value < m && LastOperand(prog[r.value]) == Some(x)
    ensures r.Some? ==> forall k | r.value < k < m :: LastOperand(prog[k]) != Some(x)
    ensures r.None? ==> forall k | 0 <= k < m :: LastOperand(prog[k]) != Some(x)
  {
    if m == 0 then None else if LastOperand(prog[m - 1]) == Some(x) then Some(m - 1) else LastWriter(prog, x, m - 1)
  }

  method FindLastWriter(prog: seq<Instr>, x: Buf, m: nat) returns (r: Option<nat>)
    requires m <= |prog|
    ensures r == LastWriter(prog, x, m)
  {
    var idx: nat := m;
    while idx > 0
      invariant idx <= m && LastWriter(prog, x, idx) == LastWriter(prog, x, m)
    {
      idx := idx - 1;
      if LastOperand(prog[idx]) == Some(x) { return Some(idx); }
    }
    return None;
  }

  /** A recognised weight copy: transpose at `t`, for the batched form also broadcast at `s`. */
  datatype Chain = Rank2(t: nat, w: Buf) | Rank3(t: nat, s: nat, w: Buf)

  predicate IsMatmul(prog: seq<Instr>, m: nat) { m < |prog| && prog[m].MatMulAcc? && prog[m].f32 }

  function ChainOf(prog: seq<Instr>, m: nat): (r: Option<Chain>)
    requires IsMatmul(prog, m)
    ensures r.Some? && r.value.Rank2? ==> r.value.t < m && prog[r.value.t] == Turn(r.value.w, prog[m].b)
    ensures r.Some? && r.value.Rank3? ==>
              r.value.t < r.value.s < m && prog[r.value.s].Spread? && prog[r.value.s].dst == prog[m].b &&
              prog[r.value.t] == Turn(r.value.w, prog[r.value.s].src)
  {
    match LastWriter(prog, prog[m].b, m)
    case None => None
    case Some(k) =>
      if !prog[m].batched then
        (if prog[k].Turn? then Some(Rank2(k, prog[k].src)) else None)
      else if !prog[k].Spread? then None
      else match LastWriter(prog, prog[k].src, k)
        case None => None
        case Some(t) => if prog[t].Turn? then Some(Rank3(t, k, prog[t].src)) else None
  }

  predicate InChain(c: Chain, k: nat) { k == c.t || (c.Rank3? && k == c.s) }

  function Replacement(prog: seq<Instr>, m: nat): Instr
    requires IsMatmul(prog, m)
  {
    match ChainOf(prog, m)
    case None => Gemm(prog[m].a, prog[m].b, prog[m].c)
    case Some(c) => GemmT(prog[m].a, c.w, prog[m].c)
  }

  // ── The rewrite ──

  function RewriteAt(prog: seq<Instr>, m: nat): (r: seq<Instr>)
    requires m < |prog|
    ensures |r| == |prog|
  {
    if !IsMatmul(prog, m) then prog
    else match ChainOf(prog, m)
      case None => prog[m := Replacement(prog, m)]
      case Some(Rank2(t, _)) => prog[m := Replacement(prog, m)][t := Erased]
      case Some(Rank3(t, s, _)) => prog[m := Replacement(prog, m)][t := Erased][s := Erased]
  }

  function RewriteUpTo(prog: seq<Instr>, n: nat): (r: seq<Instr>)
    requires n <= |prog|
    ensures |r| == |prog|
  {
    if n == 0 then prog else RewriteAt(RewriteUpTo(prog, n - 1), n - 1)
  }

  /** Matmuls are rewritten one after the other, each against the program as rewritten so far. */
  method RewriteMatmuls(prog: seq<Instr>) returns (r: seq<Instr>)
    ensures r == RewriteUpTo(prog, |prog|)
  {
    r := prog;
    for m := 0 to |prog|
      invariant r == RewriteUpTo(prog, m)
    {
      if IsMatmul(r, m) {
        var chain := ChainOf(r, m);
        var call := if chain.Some? then GemmT(r[m].a, chain.value.w, r[m].c) else Gemm(r[m].a, r[m].b, r[m].c);
        r := r[m := call];
        if chain.Some? {
          r := r[chain.value.t := Erased];
          if chain.value.Rank3? {
            r := r[chain.value.s := Erased];
          }
        }
      }
    }
  }

  // ── What the rewrite needs ──

  ghost predicate Touches(op: Instr, x: Buf) { x in Writes(op) || LastOperand(op) == Some(x) }

  /** The accumulator is zero-filled, and nothing touches it in between. */
  ghost predicate ZeroFilled(prog: seq<Instr>, m: nat)
    requires IsMatmul(prog, m)
  {
    exists f | 0 <= f < m :: prog[f] == ZeroFill(prog[m].c) && forall k | f < k < m :: !Touches(prog[k], prog[m].c)
  }

  ghost predicate NoWrites(prog: seq<Instr>, x: Buf, i: nat, j: nat) {
    forall k | i < k < j && k < |prog| :: x !in Writes(prog[k])
  }

  /** Between `i` and `j` some operation overwrites `x`, its last operand. */
  ghost predicate OverwrittenBetween(prog: seq<Instr>, x: Buf, i: nat, j: nat) {
    exists k | i < k < j && k < |prog| :: x in Writes(prog[k]) && LastOperand(prog[k]) == Some(x)
  }

  /** While the copy made at `f` is live only `r` reads it: any other reader comes after the next overwrite. */
  ghost predicate OnlyLiveReader(prog: seq<Instr>, x: Buf, f: nat, r: nat) {
    forall k: nat | f < k < |prog| && k != r && x in Reads(prog[k]) :: OverwrittenBetween(prog, x, f, k)
  }

  /** Neither the copies nor the weight are written before the product uses them. */
  ghost predicate ChainStable(prog: seq<Instr>, m: nat, c: Chain)
    requires IsMatmul(prog, m)
  {
    && c.w !in Writes(prog[if c.t < |prog| then c.t else m]) && NoWrites(prog, c.w, c.t, m)
    && match c
       case Rank2(t, _) => NoWrites(prog, prog[m].b, t, m)
       case Rank3(t, s, _) =>
           s < |prog| && prog[s].Spread? && NoWrites(prog, prog[m].b, s, m) && NoWrites(prog, prog[s].src, t, s)
  }

  /** The copies are stable, and while live they are read only by the chain. */
  ghost predicate ChainSafe(prog: seq<Instr>, m: nat, c: Chain)
    requires IsMatmul(prog, m)
  {
    var b := prog[m].b;
    && ChainStable(prog, m, c) && prog[m].a != b && prog[m].c != b
    && match c
       case Rank2(t, _) => OnlyLiveReader(prog, b, t, m)
       case Rank3(t, s, _) => OnlyLiveReader(prog, b, s, m) && OnlyLiveReader(prog, prog[s].src, t, s)
  }

  /** The shapes the verifier of the buffer dialect enforces. */
  ghost predicate ShapesAgree(sh: Shapes, prog: seq<Instr>, m: nat)
    requires IsMatmul(prog, m)
  {
    var a, b, c := sh(prog[m].a), sh(prog[m].b), sh(prog[m].c);
    && b.batch == c.batch && b.rows == a.cols && b.cols == c.cols
    && match ChainOf(prog, m)
       case Some(Rank3(_, s, _)) => sh(prog[s].src) == Shape(1, b.rows, b.cols)
       case _ => true
  }

  ghost predicate SafeAt(sh: Shapes, prog: seq<Instr>, m: nat)
    requires IsMatmul(prog, m)
  {
    && ZeroFilled(prog, m) && ShapesAgree(sh, prog, m)
    && (ChainOf(prog, m).Some? ==> ChainSafe(prog, m, ChainOf(prog, m).value))
  }

  ghost predicate Safe(sh: Shapes, prog: seq<Instr>) {
    forall m: nat | IsMatmul(prog, m) :: SafeAt(sh, prog, m)
  }
}
