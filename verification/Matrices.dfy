/** Real matrices and their flat, strided storage. */
module Matrices {
  import opened Arith

  datatype Mat = Mat(rows: nat, cols: nat, cells: seq<seq<real>>)

  /** A cell, zero outside the matrix. */
  function At(m: Mat, i: nat, j: nat): real {
    if i < m.rows && j < m.cols && i < |m.cells| && j < |m.cells[i]| then m.cells[i][j] else 0.0
  }

  ghost predicate Rect(m: Mat) { |m.cells| == m.rows && forall r | 0 <= r < m.rows :: |m.cells[r]| == m.cols }

  function Build(rows: nat, cols: nat, f: (nat, nat) -> real): (m: Mat)
    ensures m.rows == rows && m.cols == cols && Rect(m)
    ensures forall i: nat, j: nat | i < rows && j < cols :: At(m, i, j) == f(i, j)
  {
    Mat(rows, cols, seq(rows, i requires 0 <= i < rows => seq(cols, j requires 0 <= j < cols => f(i, j))))
  }

  /** Matrices of one shape are equal when their cells are. */
  lemma MatEqual(a: Mat, b: Mat)
    requires Rect(a) && Rect(b) && a.rows == b.rows && a.cols == b.cols
    requires forall i: nat, j: nat | i < a.rows && j < a.cols :: At(a, i, j) == At(b, i, j)
    ensures a == b
  {
    forall i: nat | i < a.rows ensures a.cells[i] == b.cells[i] {
      assert forall j: nat | j < a.cols :: a.cells[i][j] == At(a, i, j) == At(b, i, j) == b.cells[i][j];
    }
  }

  function Sum(f: nat -> real, n: nat): real { if n == 0 then 0.0 else Sum(f, n - 1) + f(n - 1) }

  function Transpose(m: Mat): Mat { Build(m.cols, m.rows, (i: nat, j: nat) => At(m, j, i)) }

  /** Row `i` of `a` times column `j` of `b`, over the first `k` terms. */
  function Dot(a: Mat, b: Mat, i: nat, j: nat, k: nat): real {
    if k == 0 then 0.0 else Dot(a, b, i, j, k - 1) + At(a, i, k - 1) * At(b, k - 1, j)
  }

  /** Row `i` of `a` times row `j` of `w`. */
  function DotT(a: Mat, w: Mat, i: nat, j: nat, k: nat): real {
    if k == 0 then 0.0 else DotT(a, w, i, j, k - 1) + At(a, i, k - 1) * At(w, j, k - 1)
  }

  function MatMul(a: Mat, b: Mat): Mat { Build(a.rows, b.cols, (i: nat, j: nat) => Dot(a, b, i, j, a.cols)) }

  function MatMulT(a: Mat, w: Mat): Mat { Build(a.rows, w.rows, (i: nat, j: nat) => DotT(a, w, i, j, a.cols)) }

  lemma TransposeAt(w: Mat, i: nat, j: nat)
    requires Rect(w)
    ensures At(Transpose(w), i, j) == At(w, j, i)
  {
  }

  lemma {:induction false} DotTIsDot(a: Mat, w: Mat, i: nat, j: nat, k: nat)
    requires Rect(w)
    ensures DotT(a, w, i, j, k) == Dot(a, Transpose(w), i, j, k)
  {
    if k > 0 {
      DotTIsDot(a, w, i, j, k - 1);
      TransposeAt(w, k - 1, j);
    }
  }

  /** Multiplying by a weight stored row by row is multiplying by its materialised transpose. */
  lemma TransposedProduct(a: Mat, w: Mat)
    requires Rect(w)
    ensures MatMulT(a, w) == MatMul(a, Transpose(w))
  {
    var left, right := MatMulT(a, w), MatMul(a, Transpose(w));
    forall i: nat, j: nat | i < a.rows && j < w.rows ensures At(left, i, j) == At(right, i, j) {
      DotTIsDot(a, w, i, j, a.cols);
    }
    MatEqual(left, right);
  }

  // ── Flat storage with inner stride 1 ──

  /** Buffer index of cell (i, j). */
  function CellIndex(off: nat, ld: nat, i: nat, j: nat): (x: nat)
    ensures x >= off + j
  {
    assert i * ld >= 0;
    off + i * ld + j
  }

  /** The strided region lies inside a buffer of length `len`. */
  ghost predicate Fits(len: nat, off: nat, rows: nat, cols: nat, ld: nat) {
    forall i: nat, j: nat | i < rows && j < cols :: CellIndex(off, ld, i, j) < len
  }

  /** The matrix a buffer region holds. */
  ghost function View(buf: seq<real>, off: nat, rows: nat, cols: nat, ld: nat): (m: Mat)
    requires Fits(|buf|, off, rows, cols, ld)
    ensures m.rows == rows && m.cols == cols && Rect(m)
    ensures forall i: nat, j: nat | i < rows && j < cols :: At(m, i, j) == buf[CellIndex(off, ld, i, j)]
  {
    Mat(rows, cols, seq(rows, i requires 0 <= i < rows => seq(cols, j requires 0 <= j < cols =>
      buf[CellIndex(off, ld, i, j)])))
  }

  /** Is buffer index `x` a cell of the region? */
  ghost predicate InRegion(x: nat, off: nat, rows: nat, cols: nat, ld: nat) {
    ld > 0 && x >= off && (x - off) / ld < rows && (x - off) % ld < cols
  }

  /** The cells of a region with rows no longer than the leading stride have distinct indices. */
  lemma CellOf(off: nat, ld: nat, cols: nat, i: nat, j: nat)
    requires j < cols <= ld
    ensures var x := CellIndex(off, ld, i, j); (x - off) / ld == i && (x - off) % ld == j
  {
    BlockOf(i, j, ld);
  }

  lemma CellUnique(off: nat, ld: nat, i: nat, j: nat, x: nat)
    requires ld > 0 && x >= off && (x - off) / ld == i && (x - off) % ld == j
    ensures x == CellIndex(off, ld, i, j)
  {
    assert x - off == ld * i + j;
    assert ld * i == i * ld;
  }
}
