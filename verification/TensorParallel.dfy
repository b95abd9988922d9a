/** Tensor-parallel linear layers and embeddings against their dense forms, for every world size. */
module TensorParallel {
  import opened Options
  import opened Matrices

  /** Global index of element `q` of rank `p`'s shard of size `k`. */
  function ShardPos(p: nat, k: nat, q: nat): nat {
    assert p * k >= 0;
    p * k + q
  }

  function BiasAt(b: Option<seq<real>>, o: nat): real { if b.Some? && o < |b.value| then b.value[o] else 0.0 }

  /** F.linear. */
  function Linear(x: Mat, w: Mat, b: Option<seq<real>>): Mat {
    Build(x.rows, w.rows, (i: nat, o: nat) => DotT(x, w, i, o, x.cols) + BiasAt(b, o))
  }

  function Map(f: real -> real, m: Mat): Mat { Build(m.rows, m.cols, (i: nat, j: nat) => f(At(m, i, j))) }

  /** Rank `p`'s rows of a weight split by output features, and of its bias. */
  function RowShard(w: Mat, p: nat, k: nat): Mat { Build(k, w.cols, (i: nat, j: nat) => At(w, ShardPos(p, k, i), j)) }

  function BiasShard(b: Option<seq<real>>, p: nat, k: nat): Option<seq<real>> {
    if b.None? then None else Some(seq(k, q requires 0 <= q < k => BiasAt(b, ShardPos(p, k, q))))
  }

  /** Rank `p`'s columns: of a weight split by input features, or of an input not yet split. */
  function ColShard(w: Mat, p: nat, k: nat): Mat { Build(w.rows, k, (i: nat, j: nat) => At(w, i, ShardPos(p, k, j))) }

  function SumAt(parts: seq<Mat>, i: nat, j: nat, n: nat): real
    requires n <= |parts|
  {
    if n == 0 then 0.0 else SumAt(parts, i, j, n - 1) + At(parts[n - 1], i, j)
  }

  function AllReduce(parts: seq<Mat>, rows: nat, cols: nat): Mat {
    Build(rows, cols, (i: nat, j: nat) => SumAt(parts, i, j, |parts|))
  }

  /** ColumnParallelLinear without gathering, on rank `p`. */
  function ColumnForward(x: Mat, w: Mat, b: Option<seq<real>>, p: nat, k: nat): Mat {
    Linear(x, RowShard(w, p, k), BiasShard(b, p, k))
  }

  /** RowParallelLinear before the reduction, on rank `p`; `x` is already the rank's part if `split`. */
  function RowPartial(x: Mat, split: bool, w: Mat, b: Option<seq<real>>, p: nat, k: nat): Mat {
    Linear(if split then x else ColShard(x, p, k), ColShard(w, p, k), b)
  }

  // ── Sharded sums ──

  /** `part` holds rank `p`'s columns of row `i` of `whole`. */
  ghost predicate IsPart(whole: Mat, part: Mat, i: nat, p: nat, k: nat) {
    forall q: nat | q < k :: At(part, i, q) == At(whole, i, ShardPos(p, k, q))
  }

  lemma ShardNext(p: nat, k: nat)
    ensures ShardPos(p + 1, k, 0) == ShardPos(p, k, k)
  {
  }

  lemma {:induction false} DotOfShard(h: Mat, part: Mat, w: Mat, i: nat, o: nat, p: nat, k: nat, q: nat)
    requires IsPart(h, part, i, p, k) && o < w.rows && q <= k
    ensures DotT(h, w, i, o, ShardPos(p, k, q))
            == DotT(h, w, i, o, ShardPos(p, k, 0)) + DotT(part, ColShard(w, p, k), i, o, q)
  {
    if q > 0 {
      DotOfShard(h, part, w, i, o, p, k, q - 1);
      ShardStep(h, part, w, i, o, p, k, q - 1);
    }
  }

  lemma ShardStep(h: Mat, part: Mat, w: Mat, i: nat, o: nat, p: nat, k: nat, q: nat)
    requires IsPart(h, part, i, p, k) && o < w.rows && q < k
    ensures DotT(h, w, i, o, ShardPos(p, k, q + 1)) - DotT(h, w, i, o, ShardPos(p, k, q))
            == DotT(part, ColShard(w, p, k), i, o, q + 1) - DotT(part, ColShard(w, p, k), i, o, q)
  {
    assert ShardPos(p, k, q + 1) == ShardPos(p, k, q) + 1;
    assert At(ColShard(w, p, k), o, q) == At(w, o, ShardPos(p, k, q));
  }

  /** What rank `p` contributes to entry (i, o). */
  ghost predicate Contributes(partial: Mat, part: Mat, w: Mat, bias: real, i: nat, o: nat, p: nat, k: nat) {
    At(partial, i, o) == DotT(part, ColShard(w, p, k), i, o, k) + bias
  }

  /** `b` added up `n` times. */
  function Repeated(n: nat, b: real): real { if n == 0 then 0.0 else Repeated(n - 1, b) + b }

  lemma {:induction false} RepeatedSign(n: nat, b: real)
    ensures b > 0.0 && n > 0 ==> Repeated(n, b) > 0.0
    ensures b < 0.0 && n > 0 ==> Repeated(n, b) < 0.0
    ensures b == 0.0 ==> Repeated(n, b) == 0.0
  {
    if n > 0 {
      RepeatedSign(n - 1, b);
    }
  }

  /** Summed over ranks, the partial products make up the dense one, and every rank's bias is counted. */
  lemma {:induction false} RanksAdd(h: Mat, hs: seq<Mat>, parts: seq<Mat>, w: Mat, bias: real, i: nat, o: nat, k: nat,
                                    n: nat)
    requires n <= |parts| == |hs| && o < w.rows
    requires forall p: nat | p < n :: IsPart(h, hs[p], i, p, k) && Contributes(parts[p], hs[p], w, bias, i, o, p, k)
    ensures SumAt(parts, i, o, n) == DotT(h, w, i, o, ShardPos(n, k, 0)) + Repeated(n, bias)
  {
    if n > 0 {
      var p := n - 1;
      RanksAdd(h, hs, parts, w, bias, i, o, k, p);
      assert IsPart(h, hs[p], i, p, k) && Contributes(parts[p], hs[p], w, bias, i, o, p, k);
      DotOfShard(h, hs[p], w, i, o, p, k, k);
      ShardNext(p, k);
    }
  }

  // ── Row-parallel layer ──

  lemma ReducedAt(parts: seq<Mat>, rows: nat, cols: nat, i: nat, j: nat)
    requires i < rows && j < cols
    ensures At(AllReduce(parts, rows, cols), i, j) == SumAt(parts, i, j, |parts|)
  {
  }

  function RowParts(x: Mat, w: Mat, b: Option<seq<real>>, t: nat, k: nat): seq<Mat> {
    seq(t, p requires 0 <= p < t => RowPartial(x, false, w, b, p, k))
  }

  /** The layer's output on every rank. */
  function RowForward(x: Mat, w: Mat, b: Option<seq<real>>, t: nat, k: nat): Mat {
    AllReduce(RowParts(x, w, b, t, k), x.rows, w.rows)
  }

  function InputParts(x: Mat, t: nat, k: nat): seq<Mat> { seq(t, p requires 0 <= p < t => ColShard(x, p, k)) }

  lemma PartialAt(x: Mat, part: Mat, split: bool, w: Mat, b: Option<seq<real>>, p: nat, k: nat, i: nat, o: nat)
    requires i < x.rows && o < w.rows && part == (if split then x else ColShard(x, p, k)) && part.cols == k
    ensures Contributes(RowPartial(x, split, w, b, p, k), part, w, BiasAt(b, o), i, o, p, k)
  {
  }

  lemma InputPart(x: Mat, k: nat, i: nat, p: nat)
    requires i < x.rows
    ensures IsPart(x, ColShard(x, p, k), i, p, k)
  {
  }

  lemma RowForwardAt(x: Mat, w: Mat, b: Option<seq<real>>, t: nat, k: nat, i: nat, o: nat)
    requires x.cols == ShardPos(t, k, 0) && i < x.rows && o < w.rows
    ensures SumAt(RowParts(x, w, b, t, k), i, o, t) == DotT(x, w, i, o, x.cols) + Repeated(t, BiasAt(b, o))
  {
    var hs, parts := InputParts(x, t, k), RowParts(x, w, b, t, k);
    forall p: nat | p < t ensures IsPart(x, hs[p], i, p, k)
        && Contributes(parts[p], hs[p], w, BiasAt(b, o), i, o, p, k) {
      InputPart(x, k, i, p);
      PartialAt(x, ColShard(x, p, k), false, w, b, p, k, i, o);
    }
    RanksAdd(x, hs, parts, w, BiasAt(b, o), i, o, k, t);
  }

  /** Every rank adds the bias before the reduction, so it is counted once per rank. */
  lemma RowBiasExcess(x: Mat, w: Mat, b: Option<seq<real>>, t: nat, k: nat, i: nat, o: nat)
    requires x.cols == ShardPos(t, k, 0) && t > 0 && i < x.rows && o < w.rows
    ensures At(RowForward(x, w, b, t, k), i, o) == At(Linear(x, w, b), i, o) + Repeated(t - 1, BiasAt(b, o))
  {
    ReducedAt(RowParts(x, w, b, t, k), x.rows, w.rows, i, o);
    RowForwardAt(x, w, b, t, k, i, o);
  }

  ghost predicate ZeroBias(b: Option<seq<real>>, n: nat) { forall o: nat | o < n :: BiasAt(b, o) == 0.0 }

  /** The row-parallel layer is the dense layer exactly when it has one rank or no non-zero bias. */
  lemma RowParallelIff(x: Mat, w: Mat, b: Option<seq<real>>, t: nat, k: nat)
    requires x.cols == ShardPos(t, k, 0) && t > 0
    ensures RowForward(x, w, b, t, k) == Linear(x, w, b) <==> t == 1 || x.rows == 0 || ZeroBias(b, w.rows)
  {
    var left, right := RowForward(x, w, b, t, k), Linear(x, w, b);
    if t == 1 || x.rows == 0 || ZeroBias(b, w.rows) {
      forall i: nat, o: nat | i < x.rows && o < w.rows ensures At(left, i, o) == At(right, i, o) {
        RowBiasExcess(x, w, b, t, k, i, o);
        RepeatedSign(t - 1, BiasAt(b, o));
      }
      MatEqual(left, right);
    } else {
      var o: nat :| o < w.rows && BiasAt(b, o) != 0.0;
      RowBiasExcess(x, w, b, t, k, 0, o);
      RepeatedSign(t - 1, BiasAt(b, o));
    }
  }

  // ── Two layers ──

  lemma {:induction false} DotOfRows(x: Mat, w: Mat, i: nat, p: nat, k: nat, q: nat, n: nat)
    requires q < k && n <= w.cols
    ensures DotT(x, RowShard(w, p, k), i, q, n) == DotT(x, w, i, ShardPos(p, k, q), n)
  {
    if n > 0 {
      DotOfRows(x, w, i, p, k, q, n - 1);
    }
  }

  lemma ShardBelow(p: nat, t: nat, k: nat, q: nat)
    requires p < t && q < k
    ensures ShardPos(p, k, q) < ShardPos(t, k, 0)
  {
    assert (t - p - 1) * k >= 0;
    assert t * k == p * k + k + (t - p - 1) * k;
  }

  /** A rank's hidden activations are its part of the dense ones. */
  lemma HiddenPart(f: real -> real, x: Mat, w: Mat, b: Option<seq<real>>, t: nat, k: nat, i: nat, p: nat)
    requires x.cols == w.cols && w.rows == ShardPos(t, k, 0) && i < x.rows && p < t
    ensures IsPart(Map(f, Linear(x, w, b)), Map(f, ColumnForward(x, w, b, p, k)), i, p, k)
  {
    forall q: nat | q < k
      ensures At(Map(f, ColumnForward(x, w, b, p, k)), i, q) == At(Map(f, Linear(x, w, b)), i, ShardPos(p, k, q))
    {
      ShardBelow(p, t, k, q);
      DotOfRows(x, w, i, p, k, q, x.cols);
    }
  }

  function HiddenParts(f: real -> real, x: Mat, w: Mat, b: Option<seq<real>>, t: nat, k: nat): seq<Mat> {
    seq(t, p requires 0 <= p < t => Map(f, ColumnForward(x, w, b, p, k)))
  }

  function SplitParts(hs: seq<Mat>, w: Mat, k: nat): seq<Mat> {
    seq(|hs|, p requires 0 <= p < |hs| => RowPartial(hs[p], true, w, None, p, k))
  }

  /** Column-parallel layer, elementwise map, row-parallel layer. */
  function TwoLayers(f: real -> real, x: Mat, w1: Mat, b1: Option<seq<real>>, w2: Mat, t: nat, k: nat): Mat {
    AllReduce(SplitParts(HiddenParts(f, x, w1, b1, t, k), w2, k), x.rows, w2.rows)
  }

  lemma SplitSum(h: Mat, hs: seq<Mat>, w: Mat, k: nat, i: nat, o: nat)
    requires o < w.rows && forall p: nat | p < |hs| :: IsPart(h, hs[p], i, p, k) && hs[p].cols == k && i < hs[p].rows
    ensures SumAt(SplitParts(hs, w, k), i, o, |hs|) == DotT(h, w, i, o, ShardPos(|hs|, k, 0))
  {
    var parts := SplitParts(hs, w, k);
    forall p: nat | p < |hs| ensures Contributes(parts[p], hs[p], w, 0.0, i, o, p, k) {
      PartialAt(hs[p], hs[p], true, w, None, p, k, i, o);
    }
    RanksAdd(h, hs, parts, w, 0.0, i, o, k, |hs|);
    RepeatedSign(|hs|, 0.0);
  }

  lemma TwoLayersAt(f: real -> real, x: Mat, w1: Mat, b1: Option<seq<real>>, w2: Mat, t: nat, k: nat, i: nat, o: nat)
    requires x.cols == w1.cols && w1.rows == ShardPos(t, k, 0) && i < x.rows && o < w2.rows
    ensures At(TwoLayers(f, x, w1, b1, w2, t, k), i, o) == DotT(Map(f, Linear(x, w1, b1)), w2, i, o, w1.rows)
  {
    var h, hs := Map(f, Linear(x, w1, b1)), HiddenParts(f, x, w1, b1, t, k);
    forall p: nat | p < t ensures IsPart(h, hs[p], i, p, k) && hs[p].cols == k && i < hs[p].rows {
      HiddenPart(f, x, w1, b1, t, k, i, p);
    }
    SplitSum(h, hs, w2, k, i, o);
    ReducedAt(SplitParts(hs, w2, k), x.rows, w2.rows, i, o);
  }

  /** For every world size dividing the hidden dimension, the sharded two-layer block is the dense one. */
  lemma TwoLayersDense(f: real -> real, x: Mat, w1: Mat, b1: Option<seq<real>>, w2: Mat, t: nat, k: nat)
    requires x.cols == w1.cols && w1.rows == ShardPos(t, k, 0)
    ensures TwoLayers(f, x, w1, b1, w2, t, k) == Linear(Map(f, Linear(x, w1, b1)), w2, None)
  {
    var left, right := TwoLayers(f, x, w1, b1, w2, t, k), Linear(Map(f, Linear(x, w1, b1)), w2, None);
    forall i: nat, o: nat | i < x.rows && o < w2.rows ensures At(left, i, o) == At(right, i, o) {
      TwoLayersAt(f, x, w1, b1, w2, t, k, i, o);
    }
    MatEqual(left, right);
  }

  // ── Vocabulary-parallel embedding ──

  function RowOf(w: Mat, r: nat): (v: seq<real>)
    ensures |v| == w.cols
  {
    seq(w.cols, d requires 0 <= d < w.cols => At(w, r, d))
  }

  /** A rank's output for one id: its own row, or zeros for ids of other ranks. */
  function Looked(shard: Mat, start: int, id: int): (v: seq<real>)
    ensures |v| == shard.cols
  {
    if start <= id < start + shard.rows then RowOf(shard, id - start) else seq(shard.cols, d => 0.0)
  }

  /** Ids of other ranks are looked up as id 0 and then blanked. */
  method VocabForward(shard: Mat, start: int, ids: seq<int>) returns (out: seq<seq<real>>)
    ensures |out| == |ids| && forall i | 0 <= i < |ids| :: out[i] == Looked(shard, start, ids[i])
  {
    var n := |ids|;
    var local := new int[n];
    var mask := new bool[n];
    for i := 0 to n
      invariant forall j | 0 <= j < i :: mask[j] == (start <= ids[j] < start + shard.rows)
      invariant forall j | 0 <= j < i :: local[j] == if mask[j] then ids[j] - start else 0
    {
      mask[i] := start <= ids[i] < start + shard.rows;
      local[i] := ids[i] - start;
      if !mask[i] { local[i] := 0; }
    }
    out := [];
    for i := 0 to n
      invariant |out| == i && forall j | 0 <= j < i :: out[j] == Looked(shard, start, ids[j])
    {
      var row := RowOf(shard, local[i]);
      if !mask[i] { row := seq(shard.cols, d => 0.0); }
      out := out + [row];
    }
  }

  /** Does rank `p` own the id? */
  predicate Owns(k: nat, p: nat, id: int) { ShardPos(p, k, 0) <= id < ShardPos(p, k, k) }

  /** Exactly one rank owns a valid id. */
  lemma {:induction false} OwnersSum(e: nat -> real, k: nat, id: int, v: real, n: nat)
    requires forall p: nat | p < n :: e(p) == if Owns(k, p, id) then v else 0.0
    ensures Sum(e, n) == if 0 <= id < ShardPos(n, k, 0) then v else 0.0
  {
    if n > 0 {
      OwnersSum(e, k, id, v, n - 1);
      ShardNext(n - 1, k);
    }
  }

  function RankEntry(table: Mat, k: nat, id: int, d: nat): nat -> real
    requires d < table.cols
  {
    (p: nat) => Looked(RowShard(table, p, k), ShardPos(p, k, 0), id)[d]
  }

  lemma RankEntryIs(table: Mat, k: nat, id: int, d: nat, p: nat)
    requires d < table.cols
    ensures RankEntry(table, k, id, d)(p) == if Owns(k, p, id) then At(table, id, d) else 0.0
  {
    var shard, start := RowShard(table, p, k), ShardPos(p, k, 0);
    if start <= id < start + k {
      assert At(shard, id - start, d) == At(table, ShardPos(p, k, id - start), d);
    }
  }

  /** Summed over ranks, lookups give the row of the full table for every valid id, and zeros otherwise. */
  lemma VocabSum(table: Mat, k: nat, id: int, d: nat, t: nat)
    requires d < table.cols
    ensures Sum(RankEntry(table, k, id, d), t) == if 0 <= id < ShardPos(t, k, 0) then At(table, id, d) else 0.0
  {
    var e := RankEntry(table, k, id, d);
    var v := if 0 <= id then At(table, id, d) else 0.0;
    forall p: nat | p < t ensures e(p) == if Owns(k, p, id) then v else 0.0 {
      RankEntryIs(table, k, id, d, p);
    }
    OwnersSum(e, k, id, v, t);
  }
}
