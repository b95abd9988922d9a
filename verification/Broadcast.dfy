/** Abstract broadcasting of tensor shapes with dynamic dimensions. */
module Broadcast {
  import opened Options

  datatype Dim = Dyn | Known(n: nat)
  type Shape = seq<Dim>

  function Max(a: nat, b: nat): nat { if a >= b then a else b }

  function MaxRank(shapes: seq<Shape>): (r: nat)
    ensures forall k | 0 <= k < |shapes| :: |shapes[k]| <= r
    ensures shapes != [] ==> exists k | 0 <= k < |shapes| :: |shapes[k]| == r
  {
    if shapes == [] then 0
    else
      var n := |shapes| - 1;
      var rest := MaxRank(shapes[..n]);
      assert forall k | 0 <= k < n :: shapes[k] == shapes[..n][k];
      assert n > 0 ==> exists k | 0 <= k < n :: |shapes[k]| == rest by {
        if n > 0 {
          var k :| 0 <= k < n && |shapes[..n][k]| == rest;
          assert |shapes[k]| == rest;
        }
      }
      Max(rest, |shapes[n]|)
  }

  /** Dimension `r` counted from the right; missing ones are 1. */
  function FromRight(s: Shape, r: nat): Dim { if r < |s| then s[|s| - 1 - r] else Known(1) }

  function Column(shapes: seq<Shape>, r: nat): seq<Dim> {
    seq(|shapes|, k requires 0 <= k < |shapes| => FromRight(shapes[k], r))
  }

  /** The static sizes other than 1. */
  function NonOnes(dims: seq<Dim>): (r: seq<nat>)
    ensures forall v :: v in r <==> v != 1 && Known(v) in dims
  {
    if dims == [] then []
    else
      var n := |dims| - 1;
      assert dims == dims[..n] + [dims[n]];
      NonOnes(dims[..n]) + (if dims[n].Known? && dims[n].n != 1 then [dims[n].n] else [])
  }

  function JoinDims(dims: seq<Dim>): Option<Dim>
    requires dims != []
  {
    var sizes := NonOnes(dims);
    if sizes == [] then Some(if Dyn in dims then Dyn else dims[0])
    else if forall v | v in sizes :: v == sizes[0] then Some(Known(sizes[0]))
    else None
  }

  /** The dimensions produced by `f`, unless one of them fails. */
  function Collect(f: nat -> Option<Dim>, n: nat): (r: Option<Shape>)
    ensures r.Some? ==> |r.value| == n && forall i: nat | i < n :: f(i) == Some(r.value[i])
    ensures r.None? ==> exists i: nat | i < n :: f(i).None?
  {
    if n == 0 then Some([])
    else match (Collect(f, n - 1), f(n - 1))
      case (Some(front), Some(d)) => Some(front + [d])
      case _ => None
  }

  lemma {:induction false} CollectFails(f: nat -> Option<Dim>, n: nat, m: nat)
    requires m <= n && Collect(f, m).None?
    ensures Collect(f, n).None?
    decreases n - m
  {
    if m < n {
      CollectFails(f, n, m + 1);
    }
  }

  /** Dimension `i` of the result, counted from the left. */
  function JoinedAt(shapes: seq<Shape>, rank: nat): nat -> Option<Dim>
    requires shapes != []
  {
    (i: nat) => if i < rank then JoinDims(Column(shapes, rank - 1 - i)) else None
  }

  /** `None` is the error on incompatible sizes. */
  function Broadcast(shapes: seq<Shape>): Option<Shape> {
    if shapes == [] then Some([])
    else
      var rank := MaxRank(shapes);
      Collect(JoinedAt(shapes, rank), rank)
  }

  method CollectColumn(shapes: seq<Shape>, rank: nat, i: nat) returns (dims: seq<Dim>)
    requires i < rank && forall k | 0 <= k < |shapes| :: |shapes[k]| <= rank
    ensures dims == Column(shapes, rank - 1 - i)
  {
    dims := [];
    for k := 0 to |shapes|
      invariant |dims| == k && forall j | 0 <= j < k :: dims[j] == FromRight(shapes[j], rank - 1 - i)
    {
      var idx := |shapes[k]| - rank + i;
      dims := dims + [if idx >= 0 then shapes[k][idx] else Known(1)];
    }
  }

  method JoinColumn(shapes: seq<Shape>, rank: nat, i: nat) returns (d: Option<Dim>)
    requires shapes != [] && i < rank && forall k | 0 <= k < |shapes| :: |shapes[k]| <= rank
    ensures d == JoinedAt(shapes, rank)(i)
  {
    var dims := CollectColumn(shapes, rank, i);
    d := JoinDims(dims);
  }

  method BroadcastShapes(shapes: seq<Shape>) returns (r: Option<Shape>)
    ensures r == Broadcast(shapes)
  {
    if shapes == [] { return Some([]); }
    var rank := MaxRank(shapes);
    ghost var f := JoinedAt(shapes, rank);
    var result: Shape := [];
    for i := 0 to rank
      invariant Collect(f, i) == Some(result)
    {
      var d := JoinColumn(shapes, rank, i);
      if d.None? {
        CollectFails(f, rank, i + 1);
        return None;
      }
      result := result + [d.value];
    }
    r := Some(result);
  }

  // ── One column ──

  /** What a joined dimension says about its column. */
  ghost predicate Joins(dims: seq<Dim>, d: Dim) {
    && (forall v | Known(v) in dims && v != 1 :: d == Known(v))
    && (d.Known? && d.n != 1 ==> d in dims)
    && (d == Dyn ==> Dyn in dims)
    && (d == Known(1) ==> Dyn !in dims)
  }

  lemma JoinIs(dims: seq<Dim>)
    requires dims != []
    ensures JoinDims(dims).Some? ==> Joins(dims, JoinDims(dims).value)
    ensures JoinDims(dims).None? <==> exists u, v | Known(u) in dims && Known(v) in dims :: u != 1 && v != 1 && u != v
  {
    var sizes := NonOnes(dims);
    if JoinDims(dims).None? {
      var v :| v in sizes && v != sizes[0];
      assert sizes[0] in sizes;
      assert Known(sizes[0]) in dims && Known(v) in dims;
    } else if sizes != [] {
      assert sizes[0] in sizes;
    } else {
      assert dims[0] in dims;
      assert dims[0].Known? ==> dims[0].n !in sizes;
    }
  }

  lemma JoinUnique(dims: seq<Dim>, d: Dim)
    requires dims != [] && Joins(dims, d)
    ensures JoinDims(dims) == Some(d)
  {
    JoinIs(dims);
  }

  function JoinBoth(a: Option<Dim>, b: Option<Dim>): Option<Dim> {
    if a.Some? && b.Some? then JoinDims([a.value, b.value]) else None
  }

  lemma JoinConcatSome(xs: seq<Dim>, ys: seq<Dim>, a: Dim, b: Dim, d: Dim)
    requires Joins(xs, a) && Joins(ys, b) && Joins([a, b], d)
    ensures Joins(xs + ys, d)
  {
    assert a in [a, b] && b in [a, b];
  }

  /** Joining is independent of how the column is split. */
  lemma JoinConcat(xs: seq<Dim>, ys: seq<Dim>)
    requires xs != [] && ys != []
    ensures JoinDims(xs + ys) == JoinBoth(JoinDims(xs), JoinDims(ys))
  {
    JoinIs(xs);
    JoinIs(ys);
    JoinIs(xs + ys);
    var a, b := JoinDims(xs), JoinDims(ys);
    if a.Some? && b.Some? {
      JoinIs([a.value, b.value]);
      if JoinDims([a.value, b.value]).Some? {
        JoinConcatSome(xs, ys, a.value, b.value, JoinDims([a.value, b.value]).value);
        JoinUnique(xs + ys, JoinDims([a.value, b.value]).value);
      } else {
        assert [a.value, b.value][0] == a.value && [a.value, b.value][1] == b.value;
        assert a.value in xs + ys && b.value in xs + ys;
      }
    }
  }

  lemma OnesJoin(dims: seq<Dim>)
    requires dims != [] && forall d | d in dims :: d == Known(1)
    ensures JoinDims(dims) == Some(Known(1))
  {
    JoinUnique(dims, Known(1));
  }

  // ── Whole shapes ──

  /** Broadcasting, column by column from the right. */
  ghost predicate IsResult(shapes: seq<Shape>, res: Shape) {
    |res| == MaxRank(shapes) && forall r: nat :: shapes != [] ==> JoinDims(Column(shapes, r)) == Some(FromRight(res, r))
  }

  /** The column fails. */
  ghost predicate Fails(shapes: seq<Shape>, r: nat) { shapes != [] && JoinDims(Column(shapes, r)).None? }

  lemma BeyondRank(shapes: seq<Shape>, r: nat)
    requires shapes != [] && r >= MaxRank(shapes)
    ensures JoinDims(Column(shapes, r)) == Some(Known(1))
  {
    assert forall k | 0 <= k < |shapes| :: FromRight(shapes[k], r) == Known(1);
    OnesJoin(Column(shapes, r));
  }

  /** The result, read from the left. */
  lemma CollectIs(shapes: seq<Shape>, f: nat -> Option<Dim>, rank: nat, r: nat, res: Shape)
    requires shapes != [] && f == JoinedAt(shapes, rank) && r < rank && Collect(f, rank) == Some(res)
    ensures JoinDims(Column(shapes, r)) == Some(FromRight(res, r))
  {
    assert f(rank - 1 - r) == Some(res[rank - 1 - r]);
  }

  lemma CollectFailsAt(shapes: seq<Shape>, f: nat -> Option<Dim>, rank: nat) returns (r: nat)
    requires shapes != [] && f == JoinedAt(shapes, rank) && Collect(f, rank).None?
    ensures Fails(shapes, r)
  {
    var i: nat :| i < rank && f(i).None?;
    r := rank - 1 - i;
  }

  lemma BroadcastIs(shapes: seq<Shape>)
    requires shapes != []
    ensures Broadcast(shapes).Some? ==> IsResult(shapes, Broadcast(shapes).value)
    ensures Broadcast(shapes).None? ==> exists r: nat :: Fails(shapes, r)
  {
    var rank := MaxRank(shapes);
    if Broadcast(shapes).Some? {
      var res := Broadcast(shapes).value;
      forall r: nat ensures JoinDims(Column(shapes, r)) == Some(FromRight(res, r)) {
        if r < rank {
          CollectIs(shapes, JoinedAt(shapes, rank), rank, r, res);
        } else {
          BeyondRank(shapes, r);
        }
      }
    } else {
      var r := CollectFailsAt(shapes, JoinedAt(shapes, rank), rank);
    }
  }

  lemma SameFromRight(a: Shape, b: Shape)
    requires |a| == |b| && forall r: nat | r < |a| :: FromRight(a, r) == FromRight(b, r)
    ensures a == b
  {
    forall i: nat | i < |a| ensures a[i] == b[i] {
      assert FromRight(a, |a| - 1 - i) == FromRight(b, |a| - 1 - i);
    }
  }

  lemma ResultUnique(shapes: seq<Shape>, res: Shape)
    requires shapes != [] && IsResult(shapes, res)
    ensures Broadcast(shapes) == Some(res)
  {
    BroadcastIs(shapes);
    if Broadcast(shapes).Some? {
      var res' := Broadcast(shapes).value;
      forall r: nat | r < |res| ensures FromRight(res, r) == FromRight(res', r) {
        assert JoinDims(Column(shapes, r)) == Some(FromRight(res, r));
      }
      SameFromRight(res, res');
    }
  }

  lemma FailsBroadcast(shapes: seq<Shape>, r: nat)
    requires Fails(shapes, r)
    ensures Broadcast(shapes).None?
  {
    BroadcastIs(shapes);
  }

  function BroadcastBoth(a: Option<Shape>, b: Option<Shape>): Option<Shape> {
    if a.Some? && b.Some? then Broadcast([a.value, b.value]) else None
  }

  lemma ColumnConcat(xs: seq<Shape>, ys: seq<Shape>, r: nat)
    ensures Column(xs + ys, r) == Column(xs, r) + Column(ys, r)
  {
  }

  lemma RankConcat(xs: seq<Shape>, ys: seq<Shape>)
    requires xs != [] && ys != []
    ensures MaxRank(xs + ys) == Max(MaxRank(xs), MaxRank(ys))
  {
    var all := xs + ys;
    var s :| 0 <= s < |all| && |all[s]| == MaxRank(all);
    var a :| 0 <= a < |xs| && |xs[a]| == MaxRank(xs);
    var b :| 0 <= b < |ys| && |ys[b]| == MaxRank(ys);
    assert all[a] == xs[a] && all[|xs| + b] == ys[b];
    assert all[s] == if s < |xs| then xs[s] else ys[s - |xs|];
  }

  lemma RankPair(a: Shape, b: Shape)
    ensures MaxRank([a, b]) == Max(|a|, |b|)
  {
    var s := [a, b];
    assert s[0] == a && s[1] == b;
  }

  lemma ColumnJoins(xs: seq<Shape>, ys: seq<Shape>, a: Shape, b: Shape, r: nat)
    requires xs != [] && ys != [] && IsResult(xs, a) && IsResult(ys, b)
    ensures JoinDims(Column(xs + ys, r)) == JoinDims(Column([a, b], r))
  {
    ColumnConcat(xs, ys, r);
    JoinConcat(Column(xs, r), Column(ys, r));
    assert JoinDims(Column(xs, r)) == Some(FromRight(a, r));
    assert JoinDims(Column(ys, r)) == Some(FromRight(b, r));
    assert Column([a, b], r) == [FromRight(a, r), FromRight(b, r)];
  }

  lemma ConcatSome(xs: seq<Shape>, ys: seq<Shape>, a: Shape, b: Shape)
    requires xs != [] && ys != [] && IsResult(xs, a) && IsResult(ys, b)
    ensures Broadcast(xs + ys) == Broadcast([a, b])
  {
    BroadcastIs([a, b]);
    if Broadcast([a, b]).Some? {
      var res := Broadcast([a, b]).value;
      forall r: nat ensures JoinDims(Column(xs + ys, r)) == Some(FromRight(res, r)) {
        ColumnJoins(xs, ys, a, b, r);
        assert JoinDims(Column([a, b], r)) == Some(FromRight(res, r));
      }
      RankConcat(xs, ys);
      RankPair(a, b);
      ResultUnique(xs + ys, res);
    } else {
      var r: nat :| Fails([a, b], r);
      ColumnJoins(xs, ys, a, b, r);
      FailsBroadcast(xs + ys, r);
    }
  }

  lemma ConcatNone(xs: seq<Shape>, ys: seq<Shape>, r: nat)
    requires xs != [] && ys != [] && (Fails(xs, r) || Fails(ys, r))
    ensures Broadcast(xs + ys).None?
  {
    ColumnConcat(xs, ys, r);
    JoinConcat(Column(xs, r), Column(ys, r));
    FailsBroadcast(xs + ys, r);
  }

  /** Broadcasting a list is broadcasting the results of any two parts of it. */
  lemma BroadcastConcat(xs: seq<Shape>, ys: seq<Shape>)
    requires xs != [] && ys != []
    ensures Broadcast(xs + ys) == BroadcastBoth(Broadcast(xs), Broadcast(ys))
  {
    BroadcastIs(xs);
    BroadcastIs(ys);
    if Broadcast(xs).None? {
      var r: nat :| Fails(xs, r);
      ConcatNone(xs, ys, r);
    } else if Broadcast(ys).None? {
      var r: nat :| Fails(ys, r);
      ConcatNone(xs, ys, r);
    } else {
      ConcatSome(xs, ys, Broadcast(xs).value, Broadcast(ys).value);
    }
  }

  lemma JoinSameSet(xs: seq<Dim>, ys: seq<Dim>)
    requires xs != [] && ys != [] && forall d :: d in xs <==> d in ys
    ensures JoinDims(xs) == JoinDims(ys)
  {
    JoinIs(xs);
    JoinIs(ys);
    if JoinDims(xs).Some? {
      JoinUnique(ys, JoinDims(xs).value);
    }
  }

  ghost predicate SameShapes(xs: seq<Shape>, ys: seq<Shape>) { forall s :: s in xs <==> s in ys }

  lemma SameColumn(xs: seq<Shape>, ys: seq<Shape>, r: nat)
    requires xs != [] && ys != [] && SameShapes(xs, ys)
    ensures JoinDims(Column(xs, r)) == JoinDims(Column(ys, r))
  {
    forall d ensures d in Column(xs, r) <==> d in Column(ys, r) {
      InColumn(xs, ys, r, d);
      InColumn(ys, xs, r, d);
    }
    JoinSameSet(Column(xs, r), Column(ys, r));
  }

  lemma InColumn(xs: seq<Shape>, ys: seq<Shape>, r: nat, d: Dim)
    requires SameShapes(xs, ys)
    ensures d in Column(xs, r) ==> d in Column(ys, r)
  {
    if d in Column(xs, r) {
      var k :| 0 <= k < |xs| && FromRight(xs[k], r) == d;
      assert xs[k] in ys;
      var j :| 0 <= j < |ys| && ys[j] == xs[k];
      assert Column(ys, r)[j] == d;
    }
  }

  lemma SameRank(xs: seq<Shape>, ys: seq<Shape>)
    requires xs != [] && ys != [] && SameShapes(xs, ys)
    ensures MaxRank(xs) <= MaxRank(ys)
  {
    var k :| 0 <= k < |xs| && |xs[k]| == MaxRank(xs);
    assert xs[k] in ys;
    var j :| 0 <= j < |ys| && ys[j] == xs[k];
  }

  /** Neither order nor repetition of the shapes matters. */
  lemma OrderFree(xs: seq<Shape>, ys: seq<Shape>)
    requires xs != [] && ys != [] && SameShapes(xs, ys)
    ensures Broadcast(xs) == Broadcast(ys)
  {
    BroadcastIs(xs);
    SameRank(xs, ys);
    SameRank(ys, xs);
    if Broadcast(xs).Some? {
      var res := Broadcast(xs).value;
      forall r: nat ensures JoinDims(Column(ys, r)) == Some(FromRight(res, r)) {
        SameColumn(xs, ys, r);
        assert JoinDims(Column(xs, r)) == Some(FromRight(res, r));
      }
      ResultUnique(ys, res);
    } else {
      var r: nat :| Fails(xs, r);
      SameColumn(xs, ys, r);
      FailsBroadcast(ys, r);
    }
  }

  // ── Folds ──

  /** Any way of combining shapes two at a time. */
  datatype Fold = Leaf(shape: Shape) | Pair(left: Fold, right: Fold)

  function Leaves(t: Fold): (r: seq<Shape>)
    ensures r != []
  {
    match t
    case Leaf(s) => [s]
    case Pair(l, r) => Leaves(l) + Leaves(r)
  }

  function Eval(t: Fold): Option<Shape> {
    match t
    case Leaf(s) => Some(s)
    case Pair(l, r) => BroadcastBoth(Eval(l), Eval(r))
  }

  lemma Single(s: Shape)
    ensures Broadcast([s]) == Some(s)
  {
    var one := [s];
    assert one[0] == s && MaxRank(one) == |s|;
    forall r: nat ensures JoinDims(Column([s], r)) == Some(FromRight(s, r)) {
      assert Column([s], r) == [FromRight(s, r)];
      JoinUnique([FromRight(s, r)], FromRight(s, r));
    }
    ResultUnique([s], s);
  }

  /** The n-ary form equals every fold of the binary form over the same shapes. */
  lemma {:induction false} AnyFold(t: Fold)
    ensures Eval(t) == Broadcast(Leaves(t))
  {
    match t
    case Leaf(s) => Single(s);
    case Pair(l, r) =>
      AnyFold(l);
      AnyFold(r);
      BroadcastConcat(Leaves(l), Leaves(r));
  }

  /** Folds over the same shapes agree, however they are ordered and bracketed. */
  lemma FoldsAgree(t: Fold, u: Fold)
    requires SameShapes(Leaves(t), Leaves(u))
    ensures Eval(t) == Eval(u)
  {
    AnyFold(t);
    AnyFold(u);
    OrderFree(Leaves(t), Leaves(u));
  }

  // ── Concrete shapes ──

  type Sizes = seq<nat>

  function SizeFromRight(s: Sizes, r: nat): nat { if r < |s| then s[|s| - 1 - r] else 1 }

  /** `c` is what `s` may be at run time. */
  ghost predicate Instance(s: Shape, c: Sizes) {
    |s| == |c| && forall i | 0 <= i < |s| :: s[i] == Dyn || s[i] == Known(c[i])
  }

  ghost predicate Instances(shapes: seq<Shape>, cs: seq<Sizes>) {
    |shapes| == |cs| && forall k | 0 <= k < |shapes| :: Instance(shapes[k], cs[k])
  }

  /** Size `v` is the broadcast of column `r`: every size there is 1 or `v`, and `v` occurs. */
  ghost predicate ColumnIs(cs: seq<Sizes>, r: nat, v: nat) {
    && (forall k | 0 <= k < |cs| :: SizeFromRight(cs[k], r) == 1 || SizeFromRight(cs[k], r) == v)
    && exists k | 0 <= k < |cs| :: SizeFromRight(cs[k], r) == v
  }

  /** NumPy's rule on concrete shapes. */
  ghost predicate BroadcastsTo(shapes: seq<Shape>, cs: seq<Sizes>, c: Sizes) {
    |c| == MaxRank(shapes) && forall r: nat | r < |c| :: ColumnIs(cs, r, SizeFromRight(c, r))
  }

  lemma InstanceAt(s: Shape, c: Sizes, r: nat)
    requires Instance(s, c)
    ensures FromRight(s, r) == Dyn || FromRight(s, r) == Known(SizeFromRight(c, r))
  {
  }

  lemma SizesIn(shapes: seq<Shape>, cs: seq<Sizes>, r: nat, v: nat, u: nat)
    requires Instances(shapes, cs) && ColumnIs(cs, r, v) && Known(u) in Column(shapes, r)
    ensures u == 1 || u == v
  {
    var k :| 0 <= k < |shapes| && FromRight(shapes[k], r) == Known(u);
    InstanceAt(shapes[k], cs[k], r);
  }

  /** A column that really broadcasts to `v` joins to a dimension that may be `v`. */
  lemma ColumnSound(shapes: seq<Shape>, cs: seq<Sizes>, r: nat, v: nat)
    requires shapes != [] && Instances(shapes, cs) && ColumnIs(cs, r, v)
    ensures JoinDims(Column(shapes, r)).Some?
    ensures var d := JoinDims(Column(shapes, r)).value; d == Dyn || d == Known(v)
  {
    var dims := Column(shapes, r);
    JoinIs(dims);
    forall u | Known(u) in dims ensures u == 1 || u == v {
      SizesIn(shapes, cs, r, v, u);
    }
    if JoinDims(dims) == Some(Known(1)) {
      var k :| 0 <= k < |cs| && SizeFromRight(cs[k], r) == v;
      InstanceAt(shapes[k], cs[k], r);
      assert dims[k] in dims;
    }
  }

  /** Soundness: a concrete result is an instance of the inferred shape. */
  lemma BroadcastSound(shapes: seq<Shape>, cs: seq<Sizes>, c: Sizes)
    requires shapes != [] && Instances(shapes, cs) && BroadcastsTo(shapes, cs, c)
    ensures Broadcast(shapes).Some? && Instance(Broadcast(shapes).value, c)
  {
    BroadcastIs(shapes);
    if Broadcast(shapes).None? {
      var r: nat :| Fails(shapes, r);
      FailsInside(shapes, r);
      ColumnSound(shapes, cs, r, SizeFromRight(c, r));
    } else {
      var res := Broadcast(shapes).value;
      forall i | 0 <= i < |res| ensures res[i] == Dyn || res[i] == Known(c[i]) {
        DimSound(shapes, cs, c, res, i);
      }
    }
  }

  lemma DimSound(shapes: seq<Shape>, cs: seq<Sizes>, c: Sizes, res: Shape, i: nat)
    requires shapes != [] && Instances(shapes, cs) && BroadcastsTo(shapes, cs, c) && Broadcast(shapes) == Some(res)
    requires i < |res| == |c|
    ensures res[i] == Dyn || res[i] == Known(c[i])
  {
    var r := |res| - 1 - i;
    ColumnSound(shapes, cs, r, SizeFromRight(c, r));
    ColumnInferred(shapes, res, r);
  }

  lemma ColumnInferred(shapes: seq<Shape>, res: Shape, r: nat)
    requires shapes != [] && Broadcast(shapes) == Some(res) && r < |res|
    ensures JoinDims(Column(shapes, r)) == Some(FromRight(res, r))
  {
    BroadcastIs(shapes);
  }

  lemma FailsInside(shapes: seq<Shape>, r: nat)
    requires Fails(shapes, r)
    ensures r < MaxRank(shapes)
  {
    if r >= MaxRank(shapes) {
      BeyondRank(shapes, r);
    }
  }

  /** Every dynamic dimension takes the size of the result. */
  function Chosen(s: Shape, c: Sizes): Sizes {
    seq(|s|, i requires 0 <= i < |s| => if s[i].Known? then s[i].n else SizeFromRight(c, |s| - 1 - i))
  }

  lemma ChosenAt(s: Shape, c: Sizes, r: nat)
    ensures SizeFromRight(Chosen(s, c), r) == match FromRight(s, r) case Known(n) => n case Dyn => SizeFromRight(c, r)
  {
  }

  function ChosenAll(shapes: seq<Shape>, c: Sizes): seq<Sizes> {
    seq(|shapes|, k requires 0 <= k < |shapes| => Chosen(shapes[k], c))
  }

  lemma ColumnReached(shapes: seq<Shape>, c: Sizes, r: nat)
    requires shapes != [] && JoinDims(Column(shapes, r)).Some?
    requires var d := JoinDims(Column(shapes, r)).value; d == Dyn || d == Known(SizeFromRight(c, r))
    ensures ColumnIs(ChosenAll(shapes, c), r, SizeFromRight(c, r))
  {
    var dims, cs, v := Column(shapes, r), ChosenAll(shapes, c), SizeFromRight(c, r);
    var d := JoinDims(dims).value;
    JoinIs(dims);
    forall k | 0 <= k < |cs| ensures SizeFromRight(cs[k], r) == 1 || SizeFromRight(cs[k], r) == v {
      ChosenAt(shapes[k], c, r);
      assert dims[k] in dims;
    }
    var w := if d.Known? && d.n == 1 then dims[0] else d;
    var k :| 0 <= k < |dims| && dims[k] == w;
    ChosenAt(shapes[k], c, r);
    assert SizeFromRight(cs[k], r) == v;
  }

  /** Precision: every instance of the inferred shape is the result for some instances of the inputs. */
  lemma BroadcastReached(shapes: seq<Shape>, c: Sizes)
    requires shapes != [] && Broadcast(shapes).Some? && Instance(Broadcast(shapes).value, c)
    ensures Instances(shapes, ChosenAll(shapes, c)) && BroadcastsTo(shapes, ChosenAll(shapes, c), c)
  {
    BroadcastIs(shapes);
    var res := Broadcast(shapes).value;
    forall r: nat | r < |c| ensures ColumnIs(ChosenAll(shapes, c), r, SizeFromRight(c, r)) {
      InstanceAt(res, c, r);
      assert JoinDims(Column(shapes, r)) == Some(FromRight(res, r));
      ColumnReached(shapes, c, r);
    }
  }

  /** The inferred shape describes exactly the possible concrete results, and inference fails exactly when
      there is none. */
  lemma BroadcastExact(shapes: seq<Shape>, c: Sizes)
    requires shapes != []
    ensures (exists cs :: Instances(shapes, cs) && BroadcastsTo(shapes, cs, c))
            <==> Broadcast(shapes).Some? && Instance(Broadcast(shapes).value, c)
  {
    if exists cs :: Instances(shapes, cs) && BroadcastsTo(shapes, cs, c) {
      var cs :| Instances(shapes, cs) && BroadcastsTo(shapes, cs, c);
      BroadcastSound(shapes, cs, c);
    }
    if Broadcast(shapes).Some? && Instance(Broadcast(shapes).value, c) {
      BroadcastReached(shapes, c);
    }
  }
}
