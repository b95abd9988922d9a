/** Straight-line programs over mutable tensor buffers, before and after the BLAS rewrite. */
module BufferPrograms {
  import opened Options
  import opened Matrices

  type Buf = nat

  /** The run-time shape of a buffer; a rank-2 buffer is one batch. */
  datatype Shape = Shape(batch: nat, rows: nat, cols: nat)
  type Shapes = Buf -> Shape
  type Tensor = seq<Mat>
  type Store = map<Buf, Tensor>

  datatype Instr =
    | Turn(src: Buf, dst: Buf)                                  // linalg.generic: transpose
    | Spread(src: Buf, dst: Buf)                                // linalg.generic: broadcast rank 2 to rank 3
    | ZeroFill(dst: Buf)                                        // linalg.fill with zero
    | MatMulAcc(a: Buf, b: Buf, c: Buf, batched: bool, f32: bool)  // linalg.matmul / batch_matmul: c += a b
    | Other(id: nat, ins: seq<Buf>, outs: seq<Buf>, last: Option<Buf>)
    | Gemm(a: Buf, b: Buf, c: Buf)                              // bridge call: c = a b
    | GemmT(a: Buf, w: Buf, c: Buf)                             // bridge call: c = a wᵀ
    | Erased

  /** What unknown operations compute: operation, output number, values read. */
  type Ext = (nat, nat, seq<Tensor>) -> Tensor

  // ── Tensors ──

  function MatAt(t: Tensor, b: nat): Mat { if b < |t| then t[b] else Mat(0, 0, []) }

  function At3(t: Tensor, b: nat, i: nat, j: nat): real { At(MatAt(t, b), i, j) }

  ghost predicate Shaped(t: Tensor, s: Shape) {
    |t| == s.batch && forall b | 0 <= b < |t| :: Rect(t[b]) && t[b].rows == s.rows && t[b].cols == s.cols
  }

  function Make(s: Shape, f: (nat, nat, nat) -> real): (t: Tensor)
    ensures Shaped(t, s)
    ensures forall b: nat, i: nat, j: nat | b < s.batch && i < s.rows && j < s.cols :: At3(t, b, i, j) == f(b, i, j)
  {
    seq(s.batch, b requires 0 <= b < s.batch => Build(s.rows, s.cols, (i: nat, j: nat) => f(b, i, j)))
  }

  lemma TensorEqual(t: Tensor, u: Tensor, s: Shape)
    requires Shaped(t, s) && Shaped(u, s)
    requires forall b: nat, i: nat, j: nat | b < s.batch && i < s.rows && j < s.cols ::
             At3(t, b, i, j) == At3(u, b, i, j)
    ensures t == u
  {
    forall b: nat | b < s.batch ensures t[b] == u[b] {
      assert forall i: nat, j: nat | i < s.rows && j < s.cols ::
          At(t[b], i, j) == At3(t, b, i, j) && At(u[b], i, j) == At3(u, b, i, j);
      MatEqual(t[b], u[b]);
    }
  }

  // ── Effects ──

  function Get(s: Store, x: Buf): Tensor { if x in s then s[x] else [] }

  function Values(s: Store, bufs: seq<Buf>): seq<Tensor> {
    seq(|bufs|, i requires 0 <= i < |bufs| => Get(s, bufs[i]))
  }

  function WriteAll(s: Store, ext: Ext, id: nat, vals: seq<Tensor>, writes: seq<Buf>): Store {
    if writes == [] then s
    else
      var n := |writes| - 1;
      WriteAll(s, ext, id, vals, writes[..n])[writes[n] := ext(id, n, vals)]
  }

  function TurnValue(sh: Shape, src: Tensor): Tensor { Make(sh, (b: nat, i: nat, j: nat) => At3(src, 0, j, i)) }

  function SpreadValue(sh: Shape, src: Tensor): Tensor { Make(sh, (b: nat, i: nat, j: nat) => At3(src, 0, i, j)) }

  function AccValue(sh: Shape, k: nat, a: Tensor, b: Tensor, c: Tensor): Tensor {
    Make(sh, (n: nat, i: nat, j: nat) => At3(c, n, i, j) + Dot(MatAt(a, n), MatAt(b, n), i, j, k))
  }

  function GemmValue(sh: Shape, k: nat, a: Tensor, b: Tensor): Tensor {
    Make(sh, (n: nat, i: nat, j: nat) => Dot(MatAt(a, n), MatAt(b, n), i, j, k))
  }

  function GemmTValue(sh: Shape, k: nat, a: Tensor, w: Tensor): Tensor {
    Make(sh, (n: nat, i: nat, j: nat) => DotT(MatAt(a, n), MatAt(w, 0), i, j, k))
  }

  function Step(sh: Shapes, ext: Ext, s: Store, op: Instr): Store {
    match op
    case Turn(src, dst) => s[dst := TurnValue(sh(dst), Get(s, src))]
    case Spread(src, dst) => s[dst := SpreadValue(sh(dst), Get(s, src))]
    case ZeroFill(dst) => s[dst := Make(sh(dst), (b: nat, i: nat, j: nat) => 0.0)]
    case MatMulAcc(a, b, c, _, _) => s[c := AccValue(sh(c), sh(a).cols, Get(s, a), Get(s, b), Get(s, c))]
    case Other(id, ins, outs, _) => WriteAll(s, ext, id, Values(s, ins), outs)
    case Gemm(a, b, c) => s[c := GemmValue(sh(c), sh(a).cols, Get(s, a), Get(s, b))]
    case GemmT(a, w, c) => s[c := GemmTValue(sh(c), sh(a).cols, Get(s, a), Get(s, w))]
    case Erased => s
  }

  function RunProg(sh: Shapes, ext: Ext, s: Store, prog: seq<Instr>): Store {
    if prog == [] then s else Step(sh, ext, RunProg(sh, ext, s, prog[..|prog| - 1]), prog[|prog| - 1])
  }

  // ── Reads and writes ──

  function Reads(op: Instr): set<Buf> {
    match op
    case Turn(src, _) => {src}
    case Spread(src, _) => {src}
    case ZeroFill(_) => {}
    case MatMulAcc(a, b, c, _, _) => {a, b, c}
    case Other(_, ins, _, _) => set x | x in ins
    case Gemm(a, b, _) => {a, b}
    case GemmT(a, w, _) => {a, w}
    case Erased => {}
  }

  function Writes(op: Instr): set<Buf> {
    match op
    case Turn(_, dst) => {dst}
    case Spread(_, dst) => {dst}
    case ZeroFill(dst) => {dst}
    case MatMulAcc(_, _, c, _, _) => {c}
    case Other(_, _, outs, _) => set x | x in outs
    case Gemm(_, _, c) => {c}
    case GemmT(_, _, c) => {c}
    case Erased => {}
  }

  /** The last operand of an operation with at least two; bridge calls take casts of the buffers instead. */
  function LastOperand(op: Instr): Option<Buf> {
    match op
    case Turn(_, dst) => Some(dst)
    case Spread(_, dst) => Some(dst)
    case ZeroFill(dst) => Some(dst)
    case MatMulAcc(_, _, c, _, _) => Some(c)
    case Other(_, _, _, last) => last
    case Gemm(_, _, _) => None
    case GemmT(_, _, _) => None
    case Erased => None
  }

  lemma {:induction false} WriteAllFrame(s: Store, ext: Ext, id: nat, vals: seq<Tensor>, writes: seq<Buf>, x: Buf)
    requires x !in writes
    ensures Get(WriteAll(s, ext, id, vals, writes), x) == Get(s, x)
  {
    if writes != [] {
      WriteAllFrame(s, ext, id, vals, writes[..|writes| - 1], x);
    }
  }

  lemma {:induction false} WriteAllSame(s: Store, s': Store, ext: Ext, id: nat, vals: seq<Tensor>, writes: seq<Buf>,
                                        x: Buf)
    requires x in writes
    ensures Get(WriteAll(s, ext, id, vals, writes), x) == Get(WriteAll(s', ext, id, vals, writes), x)
  {
    var n := |writes| - 1;
    if writes[n] != x {
      assert x in writes[..n];
      WriteAllSame(s, s', ext, id, vals, writes[..n], x);
    }
  }

  lemma Frame(sh: Shapes, ext: Ext, s: Store, op: Instr, x: Buf)
    requires x !in Writes(op)
    ensures Get(Step(sh, ext, s, op), x) == Get(s, x)
  {
    if op.Other? {
      WriteAllFrame(s, ext, op.id, Values(s, op.ins), op.outs, x);
    }
  }

  /** An operation's results depend only on what it reads. */
  lemma SameResults(sh: Shapes, ext: Ext, s: Store, s': Store, op: Instr, x: Buf)
    requires forall y | y in Reads(op) :: Get(s, y) == Get(s', y)
    requires x in Writes(op)
    ensures Get(Step(sh, ext, s, op), x) == Get(Step(sh, ext, s', op), x)
  {
    if op.Other? {
      assert Values(s, op.ins) == Values(s', op.ins);
      WriteAllSame(s, s', ext, op.id, Values(s, op.ins), op.outs, x);
    } else {
      OneWrite(sh, ext, s, op, x);
      OneWrite(sh, ext, s', op, x);
      SameWritten(sh, s, s', op);
    }
  }

  lemma SameWritten(sh: Shapes, s: Store, s': Store, op: Instr)
    requires !op.Other? && forall y | y in Reads(op) :: Get(s, y) == Get(s', y)
    ensures Written(sh, s, op) == Written(sh, s', op)
  {
  }

  /** What an operation other than an unknown one writes. */
  function Written(sh: Shapes, s: Store, op: Instr): Tensor
    requires !op.Other?
  {
    match op
    case Turn(src, dst) => TurnValue(sh(dst), Get(s, src))
    case Spread(src, dst) => SpreadValue(sh(dst), Get(s, src))
    case ZeroFill(dst) => Make(sh(dst), (b: nat, i: nat, j: nat) => 0.0)
    case MatMulAcc(a, b, c, _, _) => AccValue(sh(c), sh(a).cols, Get(s, a), Get(s, b), Get(s, c))
    case Gemm(a, b, c) => GemmValue(sh(c), sh(a).cols, Get(s, a), Get(s, b))
    case GemmT(a, w, c) => GemmTValue(sh(c), sh(a).cols, Get(s, a), Get(s, w))
    case Erased => []
  }

  lemma OneWrite(sh: Shapes, ext: Ext, s: Store, op: Instr, x: Buf)
    requires !op.Other? && x in Writes(op)
    ensures Get(Step(sh, ext, s, op), x) == Written(sh, s, op)
  {
  }

  /** The store when instruction `k` is about to execute. */
  function Before(sh: Shapes, ext: Ext, s: Store, prog: seq<Instr>, k: nat): Store
    requires k <= |prog|
  {
    RunProg(sh, ext, s, prog[..k])
  }

  lemma BeforeNext(sh: Shapes, ext: Ext, s: Store, prog: seq<Instr>, k: nat)
    requires k < |prog|
    ensures Before(sh, ext, s, prog, k + 1) == Step(sh, ext, Before(sh, ext, s, prog, k), prog[k])
  {
    assert prog[..k + 1][..k] == prog[..k];
  }

  /** A buffer nobody writes between two points keeps its value. */
  lemma {:induction false} Unwritten(sh: Shapes, ext: Ext, s: Store, prog: seq<Instr>, x: Buf, i: nat, j: nat)
    requires i <= j <= |prog| && forall k | i <= k < j :: x !in Writes(prog[k])
    ensures Get(Before(sh, ext, s, prog, j), x) == Get(Before(sh, ext, s, prog, i), x)
    decreases j
  {
    if i < j {
      Unwritten(sh, ext, s, prog, x, i, j - 1);
      BeforeNext(sh, ext, s, prog, j - 1);
      Frame(sh, ext, Before(sh, ext, s, prog, j - 1), prog[j - 1], x);
    }
  }
}
