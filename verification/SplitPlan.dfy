/** Well-formed split programs, and what their inputs, outputs and plan edges are. */
module SplitPlan {
  import opened Options
  import opened Lists
  import opened Ssa
  import opened Blocks
  import opened Names
  import opened DimAttrs
  import opened Splitter

  function Declared(g: Graph): set<Name> { Elems(PortNames(g.globals)) }

  /** Names bound before block `fi` runs. */
  function Known(blocks: seq<Block>, globals: set<Name>, fi: nat): set<Name>
    requires fi <= |blocks|
  {
    if fi == 0 then globals else Known(blocks, globals, fi - 1) + Elems(Results(blocks[fi - 1]))
  }

  /** What the splitter relies on: at least two nonempty blocks, SSA form, distinct global inputs, weight
      operations that name only themselves, and weights loaded in block 0. */
  ghost predicate WellFormed(g: Graph) {
    && |g.blocks| > 1
    && (forall b | b in g.blocks :: b != [])
    && Unique(PortNames(g.globals))
    && SsaForm(Flatten(g.blocks), Declared(g))
    && (forall fi, op | 0 <= fi < |g.blocks| && op in g.blocks[fi] && IsWeight(op) ::
          forall x | x in op.operands :: x == op.result)
    && (forall fi, x | 0 < fi < |g.blocks| && x in Results(g.blocks[fi]) :: x !in g.weights)
  }

  // ── SSA form, block by block ──

  lemma {:induction false} SsaConcat(a: seq<Op>, b: seq<Op>, known: set<Name>)
    requires SsaForm(a + b, known)
    ensures SsaForm(a, known) && SsaForm(b, known + Elems(Results(a)))
  {
    if a == [] {
      assert a + b == b && Results(a) == [];
      assert known + Elems(Results(a)) == known;
    } else {
      assert (a + b)[0] == a[0] && (a + b)[1..] == a[1..] + b;
      var known' := known + {a[0].result};
      SsaConcat(a[1..], b, known');
      assert Results(a) == [a[0].result] + Results(a[1..]);
      assert known + Elems(Results(a)) == known' + Elems(Results(a[1..]));
    }
  }

  lemma ResultsConcat(a: seq<Op>, b: seq<Op>)
    ensures Results(a + b) == Results(a) + Results(b)
  {
  }

  lemma {:induction false} KnownPrefix(blocks: seq<Block>, last: Block, globals: set<Name>, fi: nat)
    requires fi <= |blocks|
    ensures Known(blocks + [last], globals, fi) == Known(blocks, globals, fi)
  {
    if fi > 0 {
      KnownPrefix(blocks, last, globals, fi - 1);
    }
  }

  lemma LastBlockSsa(init: seq<Block>, last: Block, globals: set<Name>)
    requires SsaForm(Flatten(init + [last]), globals)
    ensures SsaForm(Flatten(init), globals) && SsaForm(last, globals + Elems(Results(Flatten(init))))
    ensures globals + Elems(Results(Flatten(init + [last])))
            == globals + Elems(Results(Flatten(init))) + Elems(Results(last))
  {
    assert (init + [last])[..|init|] == init;
    SsaConcat(Flatten(init), last, globals);
    ResultsConcat(Flatten(init), last);
  }

  lemma {:induction false} BlocksSsa(blocks: seq<Block>, globals: set<Name>)
    requires SsaForm(Flatten(blocks), globals)
    ensures forall fi | 0 <= fi < |blocks| :: SsaForm(blocks[fi], Known(blocks, globals, fi))
    ensures Known(blocks, globals, |blocks|) == globals + Elems(Results(Flatten(blocks)))
  {
    if blocks == [] {
      assert Results(Flatten(blocks)) == [];
    } else {
      var n := |blocks| - 1;
      var init, last := blocks[..n], blocks[n];
      assert blocks == init + [last];
      LastBlockSsa(init, last, globals);
      BlocksSsa(init, globals);
      KnownPrefix(init, last, globals, n);
      forall fi | 0 <= fi < |blocks| ensures SsaForm(blocks[fi], Known(blocks, globals, fi)) {
        KnownPrefix(init, last, globals, fi);
      }
    }
  }

  lemma {:induction false} KnownGrows(blocks: seq<Block>, globals: set<Name>, j: nat, fi: nat)
    requires j <= fi <= |blocks|
    ensures Known(blocks, globals, j) <= Known(blocks, globals, fi)
    decreases fi
  {
    if j < fi {
      KnownGrows(blocks, globals, j, fi - 1);
    }
  }

  /** A name known before block `fi` is global or comes from a strictly earlier block. */
  lemma {:induction false} KnownOrigin(blocks: seq<Block>, globals: set<Name>, fi: nat, x: Name) returns (j: nat)
    requires fi <= |blocks| && x in Known(blocks, globals, fi) && x !in globals
    ensures j < fi && x in Results(blocks[j])
  {
    if x in Results(blocks[fi - 1]) {
      j := fi - 1;
    } else {
      j := KnownOrigin(blocks, globals, fi - 1, x);
    }
  }

  lemma ResultIndex(ops: seq<Op>, x: Name) returns (i: nat)
    requires x in Results(ops)
    ensures i < |ops| && ops[i].result == x
  {
    i :| 0 <= i < |ops| && Results(ops)[i] == x;
  }

  /** A block's results are new: neither global nor produced by an earlier block. */
  lemma ResultsAreFresh(g: Graph, fi: nat, x: Name)
    requires WellFormed(g) && fi < |g.blocks| && x in Results(g.blocks[fi])
    ensures x !in Known(g.blocks, Declared(g), fi)
    ensures x !in Declared(g)
  {
    BlocksSsa(g.blocks, Declared(g));
    SsaFormByIndex(g.blocks[fi], Known(g.blocks, Declared(g), fi));
    var i := ResultIndex(g.blocks[fi], x);
    KnownGrows(g.blocks, Declared(g), 0, fi);
  }

  lemma ProducedOnce(g: Graph, j: nat, fi: nat, x: Name)
    requires WellFormed(g) && j < |g.blocks| && fi < |g.blocks|
    requires x in Results(g.blocks[j]) && x in Results(g.blocks[fi])
    ensures j == fi
  {
    if j < fi {
      ResultsAreFresh(g, fi, x);
      KnownGrows(g.blocks, Declared(g), j + 1, fi);
    } else if fi < j {
      ResultsAreFresh(g, j, x);
      KnownGrows(g.blocks, Declared(g), fi + 1, j);
    }
  }

  lemma {:induction false} ProducersSound(blocks: seq<Block>, x: Name)
    requires x in Producers(blocks)
    ensures x in Results(blocks[Producers(blocks)[x]])
  {
    var n := |blocks| - 1;
    if x !in Results(blocks[n]) {
      ProducersSound(blocks[..n], x);
    }
  }

  lemma {:induction false} ProducersComplete(blocks: seq<Block>, fi: nat, x: Name)
    requires fi < |blocks| && x in Results(blocks[fi])
    ensures x in Producers(blocks)
  {
    var n := |blocks| - 1;
    if x !in Results(blocks[n]) {
      ProducersComplete(blocks[..n], fi, x);
    }
  }

  /** In a well-formed program the producer map is exact. */
  lemma ProducerIs(g: Graph, fi: nat, x: Name)
    requires WellFormed(g) && fi < |g.blocks|
    ensures x in Results(g.blocks[fi]) <==> x in Producers(g.blocks) && Producers(g.blocks)[x] == fi
  {
    if x in Results(g.blocks[fi]) {
      ProducersComplete(g.blocks, fi, x);
    }
    if x in Producers(g.blocks) {
      ProducersSound(g.blocks, x);
      if x in Results(g.blocks[fi]) {
        ProducedOnce(g, fi, Producers(g.blocks)[x], x);
      }
    }
  }

  // ── Inputs ──

  ghost predicate Reads(block: Block, x: Name) { exists op | op in block :: x in op.operands }

  /** The needed names are exactly the read names that a strictly earlier block produces. */
  lemma NeededIsEarlier(g: Graph, fi: nat, x: Name)
    requires WellFormed(g) && fi < |g.blocks|
    ensures x in Needed(g.blocks, fi) <==>
            Reads(g.blocks[fi], x) && x in Producers(g.blocks) && Producers(g.blocks)[x] < fi
  {
    if x in Needed(g.blocks, fi) {
      var op :| op in g.blocks[fi] && x in op.operands;
      var j := Producers(g.blocks)[x];
      ProducerIs(g, j, x);
      OperandOrigin(g, fi, op, x);
      ProducerIs(g, fi, x);
      if x in Known(g.blocks, Declared(g), fi) && x !in Declared(g) {
        var j' := KnownOrigin(g.blocks, Declared(g), fi, x);
        ProducerIs(g, j', x);
      } else {
        ResultsAreFresh(g, j, x);
      }
    }
  }

  lemma OperandOrigin(g: Graph, fi: nat, op: Op, x: Name)
    requires WellFormed(g) && fi < |g.blocks| && op in g.blocks[fi] && x in op.operands
    ensures x in Known(g.blocks, Declared(g), fi) || x in Results(g.blocks[fi])
  {
    BlocksSsa(g.blocks, Declared(g));
    SsaFormByIndex(g.blocks[fi], Known(g.blocks, Declared(g), fi));
    var i :| 0 <= i < |g.blocks[fi]| && g.blocks[fi][i] == op;
    assert Results(g.blocks[fi])[i] == op.result;
    if !IsWeight(op) {
      assert x in Uses(g.blocks[fi][i]);
      if x !in Known(g.blocks, Declared(g), fi) {
        var j :| 0 <= j < i && g.blocks[fi][j].result == x;
        assert Results(g.blocks[fi])[j] == x;
      }
    }
  }

  lemma {:induction false} FlattenHead(blocks: seq<Block>)
    requires blocks != []
    ensures Flatten(blocks) == blocks[0] + Flatten(blocks[1..])
  {
    var n := |blocks| - 1;
    if n == 0 {
      assert blocks[..0] == [] && blocks[1..] == [];
    } else {
      var front, tail := blocks[..n], blocks[1..];
      FlattenHead(front);
      assert front[1..] == tail[..n - 1] && front[0] == blocks[0];
      FlattenLast(blocks);
      FlattenLast(tail);
    }
  }

  lemma FlattenLast(blocks: seq<Block>)
    requires blocks != []
    ensures Flatten(blocks) == Flatten(blocks[..|blocks| - 1]) + blocks[|blocks| - 1]
  {
  }

  lemma UniqueResults(g: Graph)
    requires WellFormed(g)
    ensures Unique(Results(Flatten(g.blocks)))
  {
    SsaFormByIndex(Flatten(g.blocks), Declared(g));
  }

  lemma {:induction false} FlattenMember(blocks: seq<Block>, fi: nat, x: Name)
    requires fi < |blocks| && x in Results(blocks[fi])
    ensures x in Results(Flatten(blocks))
  {
    var n := |blocks| - 1;
    ResultsConcat(Flatten(blocks[..n]), blocks[n]);
    if fi < n {
      FlattenMember(blocks[..n], fi, x);
    }
  }

  /** The five segments of the calling convention partition any set of produced names. */
  lemma InputOrderPartition(g: Graph, needed: set<Name>)
    requires WellFormed(g) && forall x | x in needed :: x in Results(Flatten(g.blocks))
    ensures Unique(InputOrder(g, needed))
    ensures Elems(InputOrder(g, needed)) == needed
  {
    var b0, bs := Results(g.blocks[0]), Results(Flatten(g.blocks[1..]));
    FlattenHead(g.blocks);
    ResultsConcat(g.blocks[0], Flatten(g.blocks[1..]));
    UniqueResults(g);
    SegmentsPartition(g, b0, bs, needed);
    InputSegments(g, needed);
  }

  lemma SegmentsPartition(g: Graph, b0: seq<Name>, bs: seq<Name>, needed: set<Name>)
    requires Results(Flatten(g.blocks)) == b0 + bs && Unique(b0 + bs) && forall x | x in needed :: x in b0 + bs
    ensures var order := Segments(Activations(g, needed, b0), Activations(g, needed, bs), NeededWeights(g, needed),
                Types(Flatten(g.blocks)));
            Unique(order) && Elems(order) == needed
  {
    UniqueSplit(b0, bs);
    SegmentsUnique(Activations(g, needed, b0), Activations(g, needed, bs), NeededWeights(g, needed),
                   Types(Flatten(g.blocks)), needed - g.weights, needed * g.weights);
    assert needed == (needed - g.weights) + (needed * g.weights);
  }

  lemma InputSegments(g: Graph, needed: set<Name>)
    requires g.blocks != []
    ensures InputOrder(g, needed) == Segments(Activations(g, needed, Results(g.blocks[0])),
                Activations(g, needed, Results(Flatten(g.blocks[1..]))), NeededWeights(g, needed),
                Types(Flatten(g.blocks)))
  {
  }

  lemma UniqueSplit(a: seq<Name>, b: seq<Name>)
    requires Unique(a + b)
    ensures Unique(a) && Unique(b) && forall x | x in a :: x !in b
  {
    assert forall i | 0 <= i < |a| :: (a + b)[i] == a[i];
    assert forall i | 0 <= i < |b| :: (a + b)[|a| + i] == b[i];
  }

  function Segments(first: seq<Name>, later: seq<Name>, ws: seq<Name>, types: map<Name, string>): seq<Name> {
    var rest := if first == [] then [] else first[1..];
    (if first == [] then [] else first[..1]) + later + Filter(rest, x => !IsUnit(types, x)) + ws
    + Filter(rest, x => IsUnit(types, x))
  }

  lemma SegmentsUnique(first: seq<Name>, later: seq<Name>, ws: seq<Name>, types: map<Name, string>,
                       plain: set<Name>, weights: set<Name>)
    requires Unique(first) && Unique(later) && Unique(ws)
    requires forall x | x in first :: x !in later
    requires Elems(first) + Elems(later) == plain && Elems(ws) == weights && plain !! weights
    ensures Unique(Segments(first, later, ws, types))
    ensures Elems(Segments(first, later, ws, types)) == plain + weights
  {
    var head := if first == [] then [] else first[..1];
    var rest := if first == [] then [] else first[1..];
    assert head + rest == first;
    UniqueSplit(head, rest);
    var masks, units := Filter(rest, x => !IsUnit(types, x)), Filter(rest, x => IsUnit(types, x));
    assert forall x :: x in first <==> x in Elems(first);
    assert forall x :: x in later <==> x in Elems(later);
    assert forall x :: x in ws <==> x in Elems(ws);
    UniqueConcat(head, later);
    UniqueConcat(head + later, masks);
    UniqueConcat(head + later + masks, ws);
    UniqueConcat(head + later + masks + ws, units);
    assert Segments(first, later, ws, types) == head + later + masks + ws + units;
    forall x ensures x in Elems(Segments(first, later, ws, types)) <==> x in plain + weights {
      assert x in rest ==> x in masks || x in units;
      assert x in first <==> x in head || x in rest;
    }
  }

  lemma NeededIsProduced(g: Graph, fi: nat, x: Name)
    requires fi < |g.blocks| && x in Needed(g.blocks, fi)
    ensures x in Results(Flatten(g.blocks))
  {
    ProducersSound(g.blocks, x);
    FlattenMember(g.blocks, Producers(g.blocks)[x], x);
  }

  /** Every input of a function after the first: a duplicate-free listing of the needed names. */
  lemma InputsArePermutation(g: Graph, fi: nat)
    requires WellFormed(g) && 0 < fi < |g.blocks|
    ensures Unique(PortNames(InputPorts(g, fi)))
    ensures Elems(PortNames(InputPorts(g, fi))) == Needed(g.blocks, fi)
  {
    var needed := Needed(g.blocks, fi);
    forall x | x in needed ensures x in Results(Flatten(g.blocks)) {
      NeededIsProduced(g, fi, x);
    }
    InputOrderPartition(g, needed);
    assert PortNames(InputPorts(g, fi)) == InputOrder(g, needed);
  }

  // ── Outputs ──

  lemma OutputNamesAre(g: Graph, fi: nat)
    requires fi < |g.blocks|
    ensures OutputOrder(g, fi) != [] ==> OutputNames(Outputs(g, fi)) == OutputOrder(g, fi)
  {
  }

  lemma OutputOrderMembers(g: Graph, fi: nat, x: Name)
    requires fi < |g.blocks|
    ensures x in OutputOrder(g, fi) <==> x in Exported(g, fi)
  {
    var exported := Exported(g, fi);
    if IsA(g.blocks, fi) {
      var s := AttentionSources(g.blocks[fi + 1]);
      var head := Filter([s.q, s.k, s.v], x => x != "" && x in exported);
      assert OutputOrder(g, fi) == head + Filter(Sort(exported), x => x !in head);
    }
  }

  /** Without the fallback, a block's outputs are exactly the results used later or globally. */
  lemma OutputsExact(g: Graph, fi: nat, x: Name)
    requires fi < |g.blocks| && OutputOrder(g, fi) != []
    ensures x in OutputNames(Outputs(g, fi)) <==>
            x in Results(g.blocks[fi]) && (UsedLater(g.blocks, fi, x) || x in g.globalOutputs)
  {
    OutputNamesAre(g, fi);
    OutputOrderMembers(g, fi, x);
  }

  /** The query, key and value names that block `fi` exports for the attention after it. */
  function HeadNames(g: Graph, fi: nat): seq<Name>
    requires fi < |g.blocks|
  {
    if !IsA(g.blocks, fi) then []
    else
      var s := AttentionSources(g.blocks[fi + 1]);
      Filter([s.q, s.k, s.v], x => x != "" && x in Exported(g, fi))
  }

  /** Outputs are listed once each exactly when query, key and value sources are not repeated. */
  lemma OutputsOnce(g: Graph, fi: nat)
    requires WellFormed(g) && fi < |g.blocks|
    ensures Unique(OutputNames(Outputs(g, fi))) <==> Unique(HeadNames(g, fi))
  {
    BlocksSsa(g.blocks, Declared(g));
    SsaFormByIndex(g.blocks[fi], Known(g.blocks, Declared(g), fi));
    assert Unique(Results(g.blocks[fi]));
    var exported := Exported(g, fi);
    var order := OutputOrder(g, fi);
    if IsA(g.blocks, fi) {
      var head := HeadNames(g, fi);
      var tail := Filter(Sort(exported), x => x !in head);
      assert order == head + tail;
      if Unique(head) {
        UniqueConcat(head, tail);
      } else if Unique(order) {
        UniqueSplit(head, tail);
      }
    }
    assert order == [] ==> |OutputNames(Outputs(g, fi))| <= 1;
    OutputNamesAre(g, fi);
  }

  // ── Edges ──

  /** Every input of a function after the first is routed to a strictly earlier function and to an
      existing output slot of it that carries that very name. */
  lemma RouteIsExact(g: Graph, fi: nat, x: Name)
    requires WellFormed(g) && 0 < fi < |g.blocks| && x in Needed(g.blocks, fi)
    ensures Route(g, Funcs(g), fi, x).Some?
    ensures var e := Route(g, Funcs(g), fi, x).value;
            e.StepOutput? && e.func < fi && e.slot < |Outputs(g, e.func)| && Outputs(g, e.func)[e.slot].name == x
  {
    NeededIsExported(g, fi, x);
    var j := Producers(g.blocks)[x];
    assert Funcs(g)[j].outputs == Outputs(g, j);
    RouteTo(g, Funcs(g), fi, x);
  }

  lemma RouteTo(g: Graph, funcs: seq<Func>, fi: nat, x: Name)
    requires g.blocks != [] && |funcs| == |g.blocks| && fi > 0 && x in Producers(g.blocks)
    requires var j := Producers(g.blocks)[x];
             x in OutputNames(funcs[j].outputs) && (x in g.weights ==> j == 0)
    ensures var j := Producers(g.blocks)[x];
            var slot := IndexOr(OutputNames(funcs[j].outputs), x, 0);
            0 <= slot < |funcs[j].outputs| && funcs[j].outputs[slot].name == x &&
            Route(g, funcs, fi, x) == Some(StepOutput(j, slot))
  {
  }

  /** What a later block needs, its producing block outputs. */
  lemma NeededIsExported(g: Graph, fi: nat, x: Name)
    requires WellFormed(g) && fi < |g.blocks| && x in Needed(g.blocks, fi)
    ensures var j := Producers(g.blocks)[x];
            j < fi && x in Results(g.blocks[j]) && x in OutputNames(Outputs(g, j))
  {
    var j := Producers(g.blocks)[x];
    NeededIsEarlier(g, fi, x);
    ProducersSound(g.blocks, x);
    var op :| op in g.blocks[fi] && x in op.operands;
    assert UsedLater(g.blocks, j, x);
    OutputOrderMembers(g, j, x);
    OutputNamesAre(g, j);
  }
}
