/** The scalar GEMM loops of the BLAS bridge on flat buffers, proved against matrix products. */
module BlasBridge {
  import opened Arith
  import opened Matrices

  /** Has output index `x` been stored when the loops are at row `i`, column `j`? */
  ghost predicate Done(x: nat, off: nat, n: nat, ld: nat, i: nat, j: nat) {
    ld > 0 && x >= off && (((x - off) / ld < i && (x - off) % ld < n) || ((x - off) / ld == i && (x - off) % ld < j))
  }

  /** Stored cells hold `val` of their coordinates, all others what they held before. */
  ghost predicate Progress(c: seq<real>, before: seq<real>, off: nat, n: nat, ld: nat, i: nat, j: nat,
                           val: (nat, nat) -> real) {
    && |c| == |before|
    && forall x: nat | x < |c| ::
         c[x] == if Done(x, off, n, ld, i, j) then val((x - off) / ld, (x - off) % ld) else before[x]
  }

  lemma StoreCell(c: seq<real>, before: seq<real>, off: nat, n: nat, ld: nat, i: nat, j: nat, val: (nat, nat) -> real)
    requires j < n <= ld && CellIndex(off, ld, i, j) < |c| && Progress(c, before, off, n, ld, i, j, val)
    ensures Progress(c[CellIndex(off, ld, i, j) := val(i, j)], before, off, n, ld, i, j + 1, val)
  {
    var at := CellIndex(off, ld, i, j);
    CellOf(off, ld, n, i, j);
    forall x: nat | x < |c| ensures Done(x, off, n, ld, i, j + 1) <==> Done(x, off, n, ld, i, j) || x == at {
      if ld > 0 && x >= off && (x - off) / ld == i && (x - off) % ld == j {
        CellUnique(off, ld, i, j, x);
      }
    }
  }

  lemma NextRow(c: seq<real>, before: seq<real>, off: nat, n: nat, ld: nat, i: nat, val: (nat, nat) -> real)
    requires Progress(c, before, off, n, ld, i, n, val)
    ensures Progress(c, before, off, n, ld, i + 1, 0, val)
  {
    assert forall x: nat :: Done(x, off, n, ld, i, n) <==> Done(x, off, n, ld, i + 1, 0);
  }

  /** When all rows are done the region holds the product and nothing else has changed. */
  lemma Finished(c: seq<real>, before: seq<real>, off: nat, m: nat, n: nat, ld: nat, val: (nat, nat) -> real,
                 product: Mat)
    requires n <= ld && Fits(|c|, off, m, n, ld) && Progress(c, before, off, n, ld, m, 0, val)
    requires Rect(product) && product.rows == m && product.cols == n
    requires forall i: nat, j: nat | i < m && j < n :: At(product, i, j) == val(i, j)
    ensures View(c, off, m, n, ld) == product
    ensures forall x: nat | x < |c| && !InRegion(x, off, m, n, ld) :: c[x] == before[x]
  {
    var v := View(c, off, m, n, ld);
    forall i: nat, j: nat | i < m && j < n ensures At(v, i, j) == At(product, i, j) {
      CellOf(off, ld, n, i, j);
      assert Done(CellIndex(off, ld, i, j), off, n, ld, m, 0);
    }
    MatEqual(v, product);
    forall x: nat | x < |c| && !InRegion(x, off, m, n, ld) ensures c[x] == before[x] {
      assert !Done(x, off, n, ld, m, 0);
    }
  }

  /** The innermost loop of the plain product. */
  method DotLoop(a: array<real>, b: array<real>, aOff: nat, bOff: nat, m: nat, n: nat, k: nat, lda: nat, ldb: nat,
                 i: nat, j: nat) returns (sum: real)
    requires i < m && j < n && Fits(a.Length, aOff, m, k, lda) && Fits(b.Length, bOff, k, n, ldb)
    ensures sum == Dot(View(a[..], aOff, m, k, lda), View(b[..], bOff, k, n, ldb), i, j, k)
  {
    ghost var left, right := View(a[..], aOff, m, k, lda), View(b[..], bOff, k, n, ldb);
    sum := 0.0;
    for p := 0 to k
      invariant sum == Dot(left, right, i, j, p)
    {
      var x, y := CellIndex(aOff, lda, i, p), CellIndex(bOff, ldb, p, j);
      assert x < a.Length && y < b.Length && At(left, i, p) == a[x] && At(right, p, j) == b[y];
      sum := sum + a[x] * b[y];
    }
  }

  /** The innermost loop of the product with a transposed weight. */
  method DotTransLoop(a: array<real>, b: array<real>, aOff: nat, bOff: nat, m: nat, n: nat, k: nat, lda: nat, ldb: nat,
                      i: nat, j: nat) returns (sum: real)
    requires i < m && j < n && Fits(a.Length, aOff, m, k, lda) && Fits(b.Length, bOff, n, k, ldb)
    ensures sum == DotT(View(a[..], aOff, m, k, lda), View(b[..], bOff, n, k, ldb), i, j, k)
  {
    ghost var left, right := View(a[..], aOff, m, k, lda), View(b[..], bOff, n, k, ldb);
    sum := 0.0;
    for p := 0 to k
      invariant sum == DotT(left, right, i, j, p)
    {
      var x, y := CellIndex(aOff, lda, i, p), CellIndex(bOff, ldb, j, p);
      assert x < a.Length && y < b.Length && At(left, i, p) == a[x] && At(right, j, p) == b[y];
      sum := sum + a[x] * b[y];
    }
  }

  function DotValues(left: Mat, right: Mat, k: nat): (nat, nat) -> real {
    (i: nat, j: nat) => Dot(left, right, i, j, k)
  }

  /** The body of the two outer loops. */
  method GemmCell(a: array<real>, b: array<real>, c: array<real>, aOff: nat, bOff: nat, cOff: nat,
                  m: nat, n: nat, k: nat, lda: nat, ldb: nat, ldc: nat, i: nat, j: nat, ghost before: seq<real>)
    requires c != a && c != b && i < m && j < n <= ldc
    requires Fits(a.Length, aOff, m, k, lda) && Fits(b.Length, bOff, k, n, ldb) && Fits(c.Length, cOff, m, n, ldc)
    requires Progress(c[..], before, cOff, n, ldc, i, j,
             DotValues(View(a[..], aOff, m, k, lda), View(b[..], bOff, k, n, ldb), k))
    modifies c
    ensures Progress(c[..], before, cOff, n, ldc, i, j + 1,
            DotValues(View(a[..], aOff, m, k, lda), View(b[..], bOff, k, n, ldb), k))
  {
    ghost var val := DotValues(View(a[..], aOff, m, k, lda), View(b[..], bOff, k, n, ldb), k);
    var sum := DotLoop(a, b, aOff, bOff, m, n, k, lda, ldb, i, j);
    assert CellIndex(cOff, ldc, i, j) < c.Length;
    StoreCell(c[..], before, cOff, n, ldc, i, j, val);
    c[CellIndex(cOff, ldc, i, j)] := sum;
  }

  /** C = A B with row-major operands and unit inner strides. */
  method NaiveSgemm(a: array<real>, b: array<real>, c: array<real>, aOff: nat, bOff: nat, cOff: nat,
                    m: nat, n: nat, k: nat, lda: nat, ldb: nat, ldc: nat)
    requires c != a && c != b && n <= ldc
    requires Fits(a.Length, aOff, m, k, lda) && Fits(b.Length, bOff, k, n, ldb) && Fits(c.Length, cOff, m, n, ldc)
    modifies c
    ensures View(c[..], cOff, m, n, ldc) == MatMul(View(a[..], aOff, m, k, lda), View(b[..], bOff, k, n, ldb))
    ensures forall x: nat | x < c.Length && !InRegion(x, cOff, m, n, ldc) :: c[x] == old(c[x])
  {
    ghost var left, right := View(a[..], aOff, m, k, lda), View(b[..], bOff, k, n, ldb);
    ghost var val := DotValues(left, right, k);
    ghost var before := c[..];
    for i := 0 to m
      invariant Progress(c[..], before, cOff, n, ldc, i, 0, val)
    {
      for j := 0 to n
        invariant Progress(c[..], before, cOff, n, ldc, i, j, val)
      {
        GemmCell(a, b, c, aOff, bOff, cOff, m, n, k, lda, ldb, ldc, i, j, before);
      }
      NextRow(c[..], before, cOff, n, ldc, i, val);
    }
    Finished(c[..], before, cOff, m, n, ldc, val, MatMul(left, right));
  }

  /** C = A Bᵀ, with B stored as [n, k]. */
  method NaiveSgemmTransB(a: array<real>, b: array<real>, c: array<real>, aOff: nat, bOff: nat, cOff: nat,
                          m: nat, n: nat, k: nat, lda: nat, ldb: nat, ldc: nat)
    requires c != a && c != b && n <= ldc
    requires Fits(a.Length, aOff, m, k, lda) && Fits(b.Length, bOff, n, k, ldb) && Fits(c.Length, cOff, m, n, ldc)
    modifies c
    ensures View(c[..], cOff, m, n, ldc) == MatMul(View(a[..], aOff, m, k, lda), Transpose(View(b[..], bOff, n, k,
            ldb)))
    ensures forall x: nat | x < c.Length && !InRegion(x, cOff, m, n, ldc) :: c[x] == old(c[x])
  {
    ghost var left, weight := View(a[..], aOff, m, k, lda), View(b[..], bOff, n, k, ldb);
    ghost var val := (i: nat, j: nat) => DotT(left, weight, i, j, k);
    ghost var before := c[..];
    for i := 0 to m
      invariant Progress(c[..], before, cOff, n, ldc, i, 0, val)
    {
      for j := 0 to n
        invariant Progress(c[..], before, cOff, n, ldc, i, j, val)
      {
        var sum := DotTransLoop(a, b, aOff, bOff, m, n, k, lda, ldb, i, j);
        assert CellIndex(cOff, ldc, i, j) < c.Length;
        StoreCell(c[..], before, cOff, n, ldc, i, j, val);
        c[CellIndex(cOff, ldc, i, j)] := sum;
      }
      NextRow(c[..], before, cOff, n, ldc, i, val);
    }
    Finished(c[..], before, cOff, m, n, ldc, val, MatMulT(left, weight));
    TransposedProduct(left, weight);
  }

  lemma MulMono(a: nat, b: nat, k: nat)
    requires a <= b
    ensures a * k <= b * k
  {
    assert b * k == a * k + (b - a) * k;
  }

  /** Regions of different batches do not meet. */
  lemma BatchesApart(x: nat, bi: nat, bj: nat, stride: nat, m: nat, n: nat, ld: nat)
    requires bi < bj && n <= ld && StrideCovers(m, n, ld, stride)
    requires InRegion(x, bi * stride, m, n, ld)
    ensures x < bj * stride
  {
    var q, r := (x - bi * stride) / ld, (x - bi * stride) % ld;
    assert x - bi * stride == q * ld + r;
    MulMono(q, m - 1, ld);
    MulMono(bi + 1, bj, stride);
    assert (bi + 1) * stride == bi * stride + stride;
  }

  /** Start of batch `i` in a buffer. */
  function BatchStart(i: nat, stride: nat): nat { i * stride }

  /** The batch stride is at least the extent of one m×n region. */
  ghost predicate StrideCovers(m: nat, n: nat, ld: nat, stride: nat) { m == 0 || (m - 1) * ld + n <= stride }

  /** Index `x` lies in none of the first `batch` regions. */
  ghost predicate Outside(x: nat, batch: nat, stride: nat, m: nat, n: nat, ld: nat) {
    forall i: nat | i < batch :: !InRegion(x, BatchStart(i, stride), m, n, ld)
  }

  /** Batched C = A Bᵀ with one shared weight. */
  method BatchSgemmTransB(a: array<real>, b: array<real>, c: array<real>, batch: nat, m: nat, n: nat, k: nat,
                          aStride: nat, lda: nat, ldb: nat, cStride: nat, ldc: nat)
    requires c != a && c != b && n <= ldc && StrideCovers(m, n, ldc, cStride)
    requires forall i: nat | i < batch :: Fits(a.Length, BatchStart(i, aStride), m, k, lda)
    requires forall i: nat | i < batch :: Fits(c.Length, BatchStart(i, cStride), m, n, ldc)
    requires Fits(b.Length, 0, n, k, ldb)
    modifies c
    ensures forall i: nat | i < batch ::
              View(c[..], BatchStart(i, cStride), m, n, ldc) ==
              MatMul(View(a[..], BatchStart(i, aStride), m, k, lda), Transpose(View(b[..], 0, n, k, ldb)))
    ensures forall x: nat | x < c.Length && Outside(x, batch, cStride, m, n, ldc) :: c[x] == old(c[x])
  {
    ghost var left, weight, start := a[..], Transpose(View(b[..], 0, n, k, ldb)), c[..];
    ghost var products := seq(batch, i requires 0 <= i < batch => MatMul(View(left, BatchStart(i, aStride), m, k, lda),
        weight));
    for bi := 0 to batch
      invariant BatchesDone(c[..], start, products, bi, cStride, m, n, ldc)
    {
      ghost var before := c[..];
      NaiveSgemmTransB(a, b, c, BatchStart(bi, aStride), 0, BatchStart(bi, cStride), m, n, k, lda, ldb, ldc);
      NextBatch(c[..], before, start, products, bi, cStride, m, n, ldc);
    }
  }

  /** The first `bi` regions hold their products, everything outside them is unchanged. */
  ghost predicate BatchesDone(c: seq<real>, start: seq<real>, products: seq<Mat>, bi: nat, stride: nat, m: nat, n: nat,
                              ld: nat) {
    && |c| == |start| && bi <= |products|
    && (forall i: nat | i < bi ::
           Fits(|c|, BatchStart(i, stride), m, n, ld) && View(c, BatchStart(i, stride), m, n, ld) == products[i])
    && (forall x: nat | x < |c| && Outside(x, bi, stride, m, n, ld) :: c[x] == start[x])
  }

  lemma NextBatch(c: seq<real>, before: seq<real>, start: seq<real>, products: seq<Mat>, bi: nat, stride: nat, m: nat,
                  n: nat, ld: nat)
    requires BatchesDone(before, start, products, bi, stride, m, n, ld) && bi < |products| && |c| == |before|
    requires n <= ld && StrideCovers(m, n, ld, stride) && Fits(|c|, BatchStart(bi, stride), m, n, ld)
    requires View(c, BatchStart(bi, stride), m, n, ld) == products[bi]
    requires forall x: nat | x < |c| && !InRegion(x, BatchStart(bi, stride), m, n, ld) :: c[x] == before[x]
    ensures BatchesDone(c, start, products, bi + 1, stride, m, n, ld)
  {
    forall i: nat | i < bi ensures View(c, BatchStart(i, stride), m, n, ld) == products[i] {
      EarlierBatchKept(c, before, i, bi, stride, m, n, ld);
    }
    forall x: nat | x < |c| && Outside(x, bi + 1, stride, m, n, ld) ensures c[x] == start[x] {
      assert Outside(x, bi, stride, m, n, ld) && !InRegion(x, BatchStart(bi, stride), m, n, ld);
    }
  }

  lemma EarlierBatchKept(c: seq<real>, before: seq<real>, i: nat, bi: nat, stride: nat, m: nat, n: nat, ld: nat)
    requires |c| == |before| && i < bi && n <= ld && StrideCovers(m, n, ld, stride)
    requires Fits(|c|, BatchStart(i, stride), m, n, ld)
    requires forall x: nat | x < |c| && !InRegion(x, BatchStart(bi, stride), m, n, ld) :: c[x] == before[x]
    ensures View(c, BatchStart(i, stride), m, n, ld) == View(before, BatchStart(i, stride), m, n, ld)
  {
    var off := BatchStart(i, stride);
    forall r: nat, j: nat | r < m && j < n
      ensures At(View(c, off, m, n, ld), r, j) == At(View(before, off, m, n, ld), r, j)
    {
      CellOf(off, ld, n, r, j);
      BatchesApart(CellIndex(off, ld, r, j), i, bi, stride, m, n, ld);
    }
    MatEqual(View(c, off, m, n, ld), View(before, off, m, n, ld));
  }

  // ── Offsets and strides the fallback ignores ──

  /** Buffer index of cell (i, j), counted from the aligned pointer: offset `off`, outer stride `s0`, inner
      stride `s1`. */
  function StridedIndex(off: nat, s0: nat, s1: nat, i: nat, j: nat): nat {
    CellIndex(off, s0, i, 0) + CellIndex(0, s1, j, 0)
  }

  /** The matrix the memref denotes. */
  ghost function StridedView(buf: seq<real>, rows: nat, cols: nat, off: nat, s0: nat, s1: nat): (m: Mat)
    requires forall i: nat, j: nat | i < rows && j < cols :: StridedIndex(off, s0, s1, i, j) < |buf|
    ensures m.rows == rows && m.cols == cols && Rect(m)
    ensures forall i: nat, j: nat | i < rows && j < cols :: At(m, i, j) == buf[StridedIndex(off, s0, s1, i, j)]
  {
    Mat(rows, cols, seq(rows, i requires 0 <= i < rows => seq(cols, j requires 0 <= j < cols =>
      buf[StridedIndex(off, s0, s1, i, j)])))
  }

  /** What differs is seen in a buffer that holds its own indices. */
  lemma FallbackMisreads(len: nat, rows: nat, cols: nat, off: nat, s0: nat, s1: nat, j: nat)
    requires Fits(len, 0, rows, cols, s0) && rows > 0 && j < cols && j != off + CellIndex(0, s1, j, 0)
    requires forall i: nat, j: nat | i < rows && j < cols :: StridedIndex(off, s0, s1, i, j) < len
    ensures exists buf: seq<real> :: |buf| == len
                                     && View(buf, 0, rows, cols, s0) != StridedView(buf, rows, cols, off, s0, s1)
  {
    var buf := seq(len, x => x as real);
    assert CellIndex(0, s0, 0, j) == j && StridedIndex(off, s0, s1, 0, j) == off + CellIndex(0, s1, j, 0);
    assert At(View(buf, 0, rows, cols, s0), 0, j) == j as real;
    assert At(StridedView(buf, rows, cols, off, s0, s1), 0, j) == (off + CellIndex(0, s1, j, 0)) as real;
    assert |buf| == len && View(buf, 0, rows, cols, s0) != StridedView(buf, rows, cols, off, s0, s1);
  }

  /** The scalar fallback is called with the aligned pointer and the outer strides only.  It reads an operand
      as the memref denotes it, whatever the contents, exactly when the operand is empty, or has offset 0 and
      inner stride 1 or a single column. */
  lemma FallbackReadsMemrefIff(len: nat, rows: nat, cols: nat, off: nat, s0: nat, s1: nat)
    requires Fits(len, 0, rows, cols, s0)
    requires forall i: nat, j: nat | i < rows && j < cols :: StridedIndex(off, s0, s1, i, j) < len
    ensures (forall buf: seq<real> | |buf| == len ::
            View(buf, 0, rows, cols, s0) == StridedView(buf, rows, cols, off, s0, s1))
            <==> rows == 0 || cols == 0 || (off == 0 && (cols == 1 || s1 == 1))
  {
    if rows == 0 || cols == 0 || (off == 0 && (cols == 1 || s1 == 1)) {
      forall buf: seq<real> | |buf| == len
        ensures View(buf, 0, rows, cols, s0) == StridedView(buf, rows, cols, off, s0, s1)
      {
        MatEqual(View(buf, 0, rows, cols, s0), StridedView(buf, rows, cols, off, s0, s1));
      }
    } else {
      FallbackMisreads(len, rows, cols, off, s0, s1, if off != 0 then 0 else 1);
    }
  }
}
