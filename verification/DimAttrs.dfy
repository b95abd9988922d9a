/** Clamping of dimension attributes at a function boundary, and when it changes nothing. */
module DimAttrs {
  import opened Ssa

  datatype Port = Port(name: Name, tp: string)

  const DIM_NAMES := {"dim", "dim0", "dim1", "dimensions", "axis"}
  const DIM_LIST_NAMES := {"dims"}
  const FIXED_OPS := {"weight", "constant", "_func_boundary"}

  function CountX(tp: string): nat {
    if tp == [] then 0 else CountX(tp[1..]) + if tp[0] == 'x' then 1 else 0
  }

  predicate IsTensor(tp: string) { |tp| >= 7 && (tp[..7] == "tensor<" || IsTensor(tp[1..])) }

  /** The rank read off a type string: the number of 'x' separators, at least 1 for a tensor, 0 otherwise. */
  function Rank(tp: string): nat {
    if !IsTensor(tp) then 0 else if CountX(tp) == 0 then 1 else CountX(tp)
  }

  /** Ranks by input name; a later input with the same name wins. */
  function Ranks(ports: seq<Port>): map<Name, nat> {
    if ports == [] then map[]
    else
      var n := |ports| - 1;
      Ranks(ports[..n])[ports[n].name := Rank(ports[n].tp)]
  }

  function ClampInt(a: Attr, rank: nat): Attr
    requires rank > 0
  {
    if a.IntAttr? && a.i >= rank then IntAttr(rank - 1) else a
  }

  function Clamp(key: string, a: Attr, rank: nat): Attr
    requires rank > 0
  {
    if key in DIM_NAMES then ClampInt(a, rank)
    else if key in DIM_LIST_NAMES && a.ListAttr? then
      ListAttr(seq(|a.items|, i requires 0 <= i < |a.items| => ClampInt(a.items[i], rank)))
    else a
  }

  function ClampAll(attrs: Attrs, rank: nat): Attrs
    requires rank > 0
  {
    map key | key in attrs :: Clamp(key, attrs[key], rank)
  }

  /** The attributes after the operands `names` have been considered in order. */
  function AdjustAttrs(attrs: Attrs, names: seq<Name>, ranks: map<Name, nat>): Attrs {
    if names == [] then attrs
    else
      var n := |names| - 1;
      var before := AdjustAttrs(attrs, names[..n], ranks);
      if names[n] in ranks && ranks[names[n]] > 0 then ClampAll(before, ranks[names[n]]) else before
  }

  function AdjustOp(op: Op, ranks: map<Name, nat>): Op {
    if op.opName in FIXED_OPS then op else op.(attrs := AdjustAttrs(op.attrs, op.operands, ranks))
  }

  predicate IntFits(a: Attr, rank: nat) { a.IntAttr? ==> a.i < rank }

  predicate Fits(key: string, a: Attr, rank: nat) {
    && (key in DIM_NAMES ==> IntFits(a, rank))
    && (key in DIM_LIST_NAMES && a.ListAttr? ==> forall item | item in a.items :: IntFits(item, rank))
  }

  /** Every dimension attribute is below the rank of every ranked operand. */
  predicate AttrsFit(attrs: Attrs, names: seq<Name>, ranks: map<Name, nat>) {
    forall x, key | x in names && x in ranks && ranks[x] > 0 && key in attrs :: Fits(key, attrs[key], ranks[x])
  }

  /** `small` is `big` with some integers lowered. */
  ghost predicate Lowered(small: Attr, big: Attr) {
    || small == big
    || (small.IntAttr? && big.IntAttr? && small.i <= big.i)
    || (small.ListAttr? && big.ListAttr? && |small.items| == |big.items| &&
        forall i | 0 <= i < |small.items| :: LoweredItem(small.items[i], big.items[i]))
  }

  ghost predicate LoweredItem(small: Attr, big: Attr) {
    small == big || (small.IntAttr? && big.IntAttr? && small.i <= big.i)
  }

  lemma ClampLowers(key: string, a: Attr, rank: nat)
    requires rank > 0
    ensures Lowered(Clamp(key, a, rank), a)
    ensures Fits(key, Clamp(key, a, rank), rank)
    ensures Fits(key, a, rank) ==> Clamp(key, a, rank) == a
  {
    if key !in DIM_NAMES && key in DIM_LIST_NAMES && a.ListAttr? {
      var c := Clamp(key, a, rank);
      if Fits(key, a, rank) {
        assert forall i | 0 <= i < |a.items| :: a.items[i] in a.items;
        assert c.items == a.items;
      }
    }
  }

  /** A value no larger than a fitting one fits. */
  lemma FitsDown(key: string, small: Attr, big: Attr, rank: nat)
    requires Lowered(small, big) && Fits(key, big, rank)
    ensures Fits(key, small, rank)
  {
    if small.ListAttr? && big.ListAttr? && small != big {
      forall item | item in small.items ensures key in DIM_LIST_NAMES ==> IntFits(item, rank) {
        var i :| 0 <= i < |small.items| && small.items[i] == item;
        assert LoweredItem(small.items[i], big.items[i]) && big.items[i] in big.items;
      }
    }
  }

  /** Whatever happens, the adjusted attributes fit the ranks of all operands considered. */
  lemma {:induction false} AdjustedFit(attrs: Attrs, names: seq<Name>, ranks: map<Name, nat>)
    ensures AdjustAttrs(attrs, names, ranks).Keys == attrs.Keys
    ensures AttrsFit(AdjustAttrs(attrs, names, ranks), names, ranks)
  {
    if names != [] {
      var n := |names| - 1;
      AdjustedFit(attrs, names[..n], ranks);
      var before := AdjustAttrs(attrs, names[..n], ranks);
      var after := AdjustAttrs(attrs, names, ranks);
      assert names == names[..n] + [names[n]];
      forall x, key | x in names && x in ranks && ranks[x] > 0 && key in after
        ensures Fits(key, after[key], ranks[x])
      {
        if names[n] in ranks && ranks[names[n]] > 0 {
          ClampLowers(key, before[key], ranks[names[n]]);
          if x != names[n] {
            FitsDown(key, after[key], before[key], ranks[x]);
          }
        }
      }
    }
  }

  lemma {:induction false} FittingUnchanged(attrs: Attrs, names: seq<Name>, ranks: map<Name, nat>)
    requires AttrsFit(attrs, names, ranks)
    ensures AdjustAttrs(attrs, names, ranks) == attrs
  {
    if names != [] {
      var n := |names| - 1;
      assert names == names[..n] + [names[n]];
      FittingUnchanged(attrs, names[..n], ranks);
      if names[n] in ranks && ranks[names[n]] > 0 {
        forall key | key in attrs ensures Clamp(key, attrs[key], ranks[names[n]]) == attrs[key] {
          ClampLowers(key, attrs[key], ranks[names[n]]);
        }
      }
    }
  }

  predicate OpFits(op: Op, ranks: map<Name, nat>) {
    op.opName in FIXED_OPS || AttrsFit(op.attrs, op.operands, ranks)
  }

  /** Adjusting leaves an operation alone exactly when its dimension attributes are in range for every
      function input it reads; outside that range it changes the operation. */
  lemma AdjustIdentity(op: Op, ranks: map<Name, nat>)
    ensures AdjustOp(op, ranks) == op <==> OpFits(op, ranks)
  {
    if op.opName !in FIXED_OPS {
      AdjustedFit(op.attrs, op.operands, ranks);
      if OpFits(op, ranks) {
        FittingUnchanged(op.attrs, op.operands, ranks);
      }
    }
  }

  // ── What an adjusted attribute is ──

  /** `i` is the value `was`, lowered to the last dimension of the smallest rank among the operands that it is not
      below already. */
  ghost predicate LeastFitting(i: int, was: int, names: seq<Name>, ranks: map<Name, nat>) {
    && i <= was && (forall x | x in names && x in ranks && ranks[x] > 0 :: i < ranks[x])
    && (i == was || exists x :: x in names && x in ranks && ranks[x] > 0 && i == ranks[x] - 1)
  }

  ghost predicate AdjustedInt(a: Attr, was: Attr, names: seq<Name>, ranks: map<Name, nat>) {
    if was.IntAttr? then a.IntAttr? && LeastFitting(a.i, was.i, names, ranks) else a == was
  }

  ghost predicate AdjustedTo(key: string, a: Attr, was: Attr, names: seq<Name>, ranks: map<Name, nat>) {
    if key in {"dim", "dim0", "dim1", "dimensions", "axis"} then AdjustedInt(a, was, names, ranks)
    else if key == "dims" && was.ListAttr? then
      && a.ListAttr? && |a.items| == |was.items|
      && forall i | 0 <= i < |was.items| :: AdjustedInt(a.items[i], was.items[i], names, ranks)
    else a == was
  }

  lemma ClampedInt(a: Attr, was: Attr, names: seq<Name>, x: Name, ranks: map<Name, nat>)
    requires AdjustedInt(a, was, names, ranks)
    ensures AdjustedInt(if x in ranks && ranks[x] > 0 then ClampInt(a, ranks[x]) else a, was, names + [x], ranks)
  {
    if was.IntAttr? && x in ranks && ranks[x] > 0 && a.i >= ranks[x] {
      assert x in names + [x];
    }
  }

  lemma ClampedTo(key: string, a: Attr, was: Attr, names: seq<Name>, x: Name, ranks: map<Name, nat>)
    requires AdjustedTo(key, a, was, names, ranks)
    ensures AdjustedTo(key, if x in ranks && ranks[x] > 0 then Clamp(key, a, ranks[x]) else a, was, names + [x], ranks)
  {
    if key in DIM_NAMES {
      ClampedInt(a, was, names, x, ranks);
    } else if key in DIM_LIST_NAMES && was.ListAttr? {
      forall i | 0 <= i < |was.items|
        ensures AdjustedInt(if x in ranks && ranks[x] > 0 then ClampInt(a.items[i], ranks[x]) else a.items[i],
                            was.items[i], names + [x], ranks)
      {
        ClampedInt(a.items[i], was.items[i], names, x, ranks);
      }
    }
  }

  /** Each dimension attribute becomes the largest dimension it may be, no larger than it was, for all ranked operands
      together; every other attribute stays. */
  lemma {:induction false} AdjustedExact(attrs: Attrs, names: seq<Name>, ranks: map<Name, nat>, key: string)
    requires key in attrs
    ensures key in AdjustAttrs(attrs, names, ranks)
    ensures AdjustedTo(key, AdjustAttrs(attrs, names, ranks)[key], attrs[key], names, ranks)
  {
    if names != [] {
      var n := |names| - 1;
      AdjustedExact(attrs, names[..n], ranks, key);
      ClampedTo(key, AdjustAttrs(attrs, names[..n], ranks)[key], attrs[key], names[..n], names[n], ranks);
      assert names == names[..n] + [names[n]];
    }
  }

  /** Adjusting touches nothing but attributes, and not those of weights, constants and sentinels. */
  lemma AdjustedOp(op: Op, ranks: map<Name, nat>, key: string)
    ensures AdjustOp(op, ranks).(attrs := op.attrs) == op && AdjustOp(op, ranks).attrs.Keys == op.attrs.Keys
    ensures op.opName in {"weight", "constant", "_func_boundary"} ==> AdjustOp(op, ranks) == op
    ensures op.opName !in {"weight", "constant", "_func_boundary"} && key in op.attrs ==>
              AdjustedTo(key, AdjustOp(op, ranks).attrs[key], op.attrs[key], op.operands, ranks)
  {
    AdjustedFit(op.attrs, op.operands, ranks);
    if key in op.attrs {
      AdjustedExact(op.attrs, op.operands, ranks, key);
    }
  }

  // ── Ranks of printed types ──

  function DimsText(dims: seq<string>): string { if dims == [] then "" else dims[0] + ("x" + DimsText(dims[1..])) }

  lemma {:induction false} CountConcat(s: string, t: string)
    ensures CountX(s + t) == CountX(s) + CountX(t)
  {
    if s == [] {
      assert s + t == t;
    } else {
      CountConcat(s[1..], t);
      assert (s + t)[1..] == s[1..] + t;
    }
  }

  lemma {:induction false} CountNone(s: string)
    requires 'x' !in s
    ensures CountX(s) == 0
  {
    if s != [] {
      CountNone(s[1..]);
    }
  }

  lemma {:induction false} CountDims(dims: seq<string>)
    requires forall i | 0 <= i < |dims| :: 'x' !in dims[i]
    ensures CountX(DimsText(dims)) == |dims|
  {
    if dims != [] {
      CountDims(dims[1..]);
      CountNone(dims[0]);
      CountConcat(dims[0], "x" + DimsText(dims[1..]));
      CountConcat("x", DimsText(dims[1..]));
      assert CountX("x") == 1;
    }
  }

  /** The rank of a printed tensor type is its number of dimensions, counting a scalar as one. */
  lemma RankOfTensor(dims: seq<string>, elem: string)
    requires 'x' !in elem && forall i | 0 <= i < |dims| :: 'x' !in dims[i]
    ensures Rank("tensor<" + (DimsText(dims) + (elem + ">"))) == if dims == [] then 1 else |dims|
  {
    var rest := DimsText(dims) + (elem + ">");
    CountDims(dims);
    CountNone(elem + ">");
    CountNone("tensor<");
    CountConcat(DimsText(dims), elem + ">");
    CountConcat("tensor<", rest);
    assert ("tensor<" + rest)[..7] == "tensor<";
  }

  ghost predicate OpensAt(tp: string, n: nat) { n + 7 <= |tp| && tp[n..n + 7] == "tensor<" }

  /** Anything else has rank 0: exactly the texts without `tensor<`. */
  lemma RankZeroIff(tp: string)
    ensures Rank(tp) == 0 <==> forall n: nat :: !OpensAt(tp, n)
  {
    OpensIff(tp);
  }

  lemma {:induction false} OpensIff(tp: string)
    ensures IsTensor(tp) <==> exists n: nat :: OpensAt(tp, n)
  {
    if |tp| >= 7 {
      OpensIff(tp[1..]);
      forall n: nat ensures OpensAt(tp[1..], n) <==> OpensAt(tp, n + 1) {
        OpensLater(tp, n);
      }
      assert OpensAt(tp, 0) <==> tp[..7] == "tensor<" by {
        assert tp[0..0 + 7] == tp[..7];
      }
      if exists n: nat :: OpensAt(tp, n) {
        var n: nat :| OpensAt(tp, n);
        assert n > 0 ==> OpensAt(tp[1..], n - 1);
      }
    }
  }

  lemma OpensLater(tp: string, n: nat)
    requires tp != []
    ensures OpensAt(tp[1..], n) <==> OpensAt(tp, n + 1)
  {
    if n + 8 <= |tp| {
      assert tp[1..][n..n + 7] == tp[n + 1..n + 1 + 7];
    }
  }
}
