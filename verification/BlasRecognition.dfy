/** Which weight copies the rewrite recognises, told from the operations of the program alone. */
module BlasRecognition {
  import opened Options
  import opened BufferPrograms
  import opened BlasRewrite
  import opened BlasRewriteProof

  /** No operation between `i` and `j` has `x` as its last operand. */
  ghost predicate NoneBetween(prog: seq<Instr>, x: Buf, i: nat, j: nat) {
    forall k | i < k < j && k < |prog| :: LastOperand(prog[k]) != Some(x)
  }

  ghost predicate IsProduct(prog: seq<Instr>, m: nat, batched: bool) {
    m < |prog| && prog[m].MatMulAcc? && prog[m].f32 && prog[m].batched == batched
  }

  /** The plain product at `m` multiplies by a transposed copy of `w`, made at `t`. */
  ghost predicate TurnedFor(prog: seq<Instr>, m: nat, t: nat, w: Buf) {
    IsProduct(prog, m, false) && t < m && prog[t] == Turn(w, prog[m].b) && NoneBetween(prog, prog[m].b, t, m)
  }

  /** The batched product at `m` multiplies by the broadcast, made at `s`, of a transposed copy of `w`, made at
      `t`, not necessarily right before it. */
  ghost predicate SpreadFor(prog: seq<Instr>, m: nat, t: nat, s: nat, w: Buf) {
    && IsProduct(prog, m, true) && t < s < m
    && prog[s].Spread? && prog[s].dst == prog[m].b && NoneBetween(prog, prog[m].b, s, m)
    && prog[t] == Turn(w, prog[s].src) && NoneBetween(prog, prog[s].src, t, s)
  }

  /** The product at `m` reads a copy of the weight `w`. */
  ghost predicate CopyRead(prog: seq<Instr>, m: nat, w: Buf) {
    (exists t: nat :: TurnedFor(prog, m, t, w)) || exists t: nat, s: nat :: SpreadFor(prog, m, t, s, w)
  }

  /** The operation at `k` makes the copy read by the product at `m`. */
  ghost predicate CopyMade(prog: seq<Instr>, m: nat, k: nat) {
    || (exists w: Buf :: TurnedFor(prog, m, k, w))
    || (exists s: nat, w: Buf :: SpreadFor(prog, m, k, s, w))
    || exists t: nat, w: Buf :: SpreadFor(prog, m, t, k, w)
  }

  /** Of two last writers there is one. */
  lemma LastIsOne(prog: seq<Instr>, x: Buf, i: nat, j: nat, m: nat)
    requires i < m <= |prog| && j < m && LastOperand(prog[i]) == Some(x) && LastOperand(prog[j]) == Some(x)
    requires NoneBetween(prog, x, i, m) && NoneBetween(prog, x, j, m)
    ensures i == j
  {
  }

  lemma TurnedIff(prog: seq<Instr>, m: nat, t: nat, w: Buf)
    requires IsMatmul(prog, m)
    ensures ChainOf(prog, m) == Some(Rank2(t, w)) <==> TurnedFor(prog, m, t, w)
  {
    if TurnedFor(prog, m, t, w) {
      LastWriterIs(prog, prog[m].b, m, t);
    }
  }

  lemma SpreadIff(prog: seq<Instr>, m: nat, t: nat, s: nat, w: Buf)
    requires IsMatmul(prog, m)
    ensures ChainOf(prog, m) == Some(Rank3(t, s, w)) <==> SpreadFor(prog, m, t, s, w)
  {
    if SpreadFor(prog, m, t, s, w) {
      LastWriterIs(prog, prog[m].b, m, s);
      LastWriterIs(prog, prog[s].src, s, t);
    }
  }

  /** A chain is found exactly when the product reads a copy of a weight. */
  lemma ChainIff(prog: seq<Instr>, m: nat, w: Buf)
    requires IsMatmul(prog, m)
    ensures ChainOf(prog, m).Some? && ChainOf(prog, m).value.w == w <==> CopyRead(prog, m, w)
  {
    match ChainOf(prog, m) {
      case None =>
      case Some(Rank2(t, v)) => TurnedIff(prog, m, t, v);
      case Some(Rank3(t, s, v)) => SpreadIff(prog, m, t, s, v);
    }
    forall t: nat | TurnedFor(prog, m, t, w) ensures ChainOf(prog, m) == Some(Rank2(t, w)) {
      TurnedIff(prog, m, t, w);
    }
    forall t: nat, s: nat | SpreadFor(prog, m, t, s, w) ensures ChainOf(prog, m) == Some(Rank3(t, s, w)) {
      SpreadIff(prog, m, t, s, w);
    }
  }

  lemma MadeIff(prog: seq<Instr>, m: nat, k: nat)
    ensures ErasedBy(prog, m, k) <==> CopyMade(prog, m, k)
  {
    if ErasedBy(prog, m, k) {
      match ChainOf(prog, m).value {
        case Rank2(t, w) => TurnedIff(prog, m, t, w);
        case Rank3(t, s, w) => SpreadIff(prog, m, t, s, w);
      }
    }
    forall w: Buf | TurnedFor(prog, m, k, w) ensures ErasedBy(prog, m, k) {
      TurnedIff(prog, m, k, w);
    }
    forall s: nat, w: Buf | SpreadFor(prog, m, k, s, w) ensures ErasedBy(prog, m, k) {
      SpreadIff(prog, m, k, s, w);
    }
    forall t: nat, w: Buf | SpreadFor(prog, m, t, k, w) ensures ErasedBy(prog, m, k) {
      SpreadIff(prog, m, t, k, w);
    }
  }

  /** In a safe program an f32 product becomes a call on the weight itself exactly when its right operand is a
      copy of that weight, and a plain call exactly when it is no copy of any. */
  lemma ProductRewritten(sh: Shapes, prog: seq<Instr>, m: nat, w: Buf)
    requires Safe(sh, prog) && m < |prog| && prog[m].MatMulAcc? && prog[m].f32
    ensures var op, q := prog[m], RewriteUpTo(prog, |prog|);
            && (q[m] == GemmT(op.a, w, op.c) <==> CopyRead(prog, m, w))
            && (q[m] == Gemm(op.a, op.b, op.c) <==> forall v: Buf :: !CopyRead(prog, m, v))
  {
    RewriteIsTarget(sh, prog, |prog|);
    ChainIff(prog, m, w);
    if ChainOf(prog, m).Some? {
      ChainIff(prog, m, ChainOf(prog, m).value.w);
    } else {
      forall v: Buf ensures !CopyRead(prog, m, v) {
        ChainIff(prog, m, v);
      }
    }
  }

  /** Every other operation is erased exactly when it makes a copy read by a product, and kept as it is
      otherwise. */
  lemma OthersRewritten(sh: Shapes, prog: seq<Instr>, k: nat)
    requires Safe(sh, prog) && k < |prog| && !(prog[k].MatMulAcc? && prog[k].f32)
    ensures RewriteUpTo(prog, |prog|)[k] == if exists m: nat :: CopyMade(prog, m, k) then Erased else prog[k]
  {
    RewriteIsTarget(sh, prog, |prog|);
    forall m: nat ensures ErasedBy(prog, m, k) <==> CopyMade(prog, m, k) {
      MadeIff(prog, m, k);
    }
    if IsErased(prog, |prog|, k) {
      var m: nat :| m < |prog| && ErasedBy(prog, m, k);
      assert CopyMade(prog, m, k);
    }
  }
}
