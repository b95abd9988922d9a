/** The splitter from program and boundaries to execution: the theorems about split modules, stated on the
    operation list and the boundary set. */
module SplitEndToEnd {
  import opened Options
  import opened Lists
  import opened Ssa
  import opened Blocks
  import opened Names
  import opened DimAttrs
  import opened Splitter
  import opened SplitPlan
  import opened Interpreters
  import opened SplitBuilder
  import opened SplitCorrect
  import opened GqaBoundary
  import opened CacheContract

  /** The blocks the splitter makes of a program. */
  function GraphOf(ops: seq<Op>, cuts: set<int>, globals: seq<Port>, outs: seq<Name>, weights: set<Name>): Graph {
    Graph(BlocksOf(WithSentinels(ops, cuts)), globals, outs, weights)
  }

  // ── Positions ──

  lemma {:induction false} NoEmptyBlock(blocks: seq<Block>, cuts: set<int>)
    requires CutExactly(blocks, cuts)
    ensures forall b | b in blocks :: b != []
  {
    if blocks != [] {
      var n := |blocks| - 1;
      NoEmptyBlock(blocks[..n], cuts);
      assert blocks == blocks[..n] + [blocks[n]];
    }
  }

  /** Index of the first operation of block `fi`. */
  function StartOf(blocks: seq<Block>, fi: nat): nat
    requires fi <= |blocks|
  {
    |Flatten(blocks[..fi])|
  }

  lemma {:induction false} StartIsCut(blocks: seq<Block>, cuts: set<int>, fi: nat)
    requires CutExactly(blocks, cuts) && 0 < fi < |blocks|
    ensures StartOf(blocks, fi) in cuts
    decreases |blocks|
  {
    var n := |blocks| - 1;
    if fi < n {
      StartIsCut(blocks[..n], cuts, fi);
      assert blocks[..n][..fi] == blocks[..fi];
    }
  }

  lemma NextStart(blocks: seq<Block>, fi: nat)
    requires fi < |blocks|
    ensures StartOf(blocks, fi + 1) == StartOf(blocks, fi) + |blocks[fi]|
  {
    assert blocks[..fi + 1][..fi] == blocks[..fi];
  }

  lemma {:induction false} OpAt(blocks: seq<Block>, fi: nat, p: nat)
    requires fi < |blocks| && p < |blocks[fi]|
    ensures StartOf(blocks, fi) + p < |Flatten(blocks)| && Flatten(blocks)[StartOf(blocks, fi) + p] == blocks[fi][p]
    decreases |blocks|
  {
    var n := |blocks| - 1;
    if fi < n {
      OpAt(blocks[..n], fi, p);
      assert blocks[..n][..fi] == blocks[..fi];
    }
  }

  // ── Meaning ──

  /** Operation `i` comes after some boundary strictly inside the program. */
  ghost predicate AfterCut(ops: seq<Op>, cuts: set<int>, i: int) { exists c :: c in Inside(ops, cuts) && c <= i }

  /** What the splitter relies on, read off the program: SSA form, distinct global inputs, self-named weight
      operations, and no weight loaded and no global input read after the first boundary. */
  ghost predicate Splittable(ops: seq<Op>, cuts: set<int>, globals: seq<Port>, weights: set<Name>) {
    var names := Elems(PortNames(globals));
    && Plain(ops) && Inside(ops, cuts) != {} && Unique(PortNames(globals)) && SsaForm(ops, names)
    && (forall op | op in ops && IsWeight(op) :: forall x | x in op.operands :: x == op.result)
    && (forall i | 0 <= i < |ops| && AfterCut(ops, cuts, i) :: ops[i].result !in weights)
    && (forall i, x | 0 <= i < |ops| && AfterCut(ops, cuts, i) && x in Uses(ops[i]) :: x !in names)
  }

  lemma LaterBlockAfterCut(ops: seq<Op>, cuts: set<int>, blocks: seq<Block>, fi: nat, p: nat)
    requires CutExactly(blocks, cuts) && Flatten(blocks) == ops && 0 < fi < |blocks| && p < |blocks[fi]|
    ensures var i := StartOf(blocks, fi) + p; i < |ops| && ops[i] == blocks[fi][p] && AfterCut(ops, cuts, i)
  {
    OpAt(blocks, fi, p);
    StartIsCut(blocks, cuts, fi);
    NoEmptyBlock(blocks, cuts);
    FirstBlockBefore(blocks, fi);
    assert StartOf(blocks, fi) in Inside(ops, cuts);
  }

  lemma {:induction false} FirstBlockBefore(blocks: seq<Block>, fi: nat)
    requires 0 < fi <= |blocks| && forall b | b in blocks :: b != []
    ensures StartOf(blocks, fi) > 0
  {
    NextStart(blocks, fi - 1);
    assert blocks[fi - 1] in blocks;
  }

  lemma SplitWellFormed(ops: seq<Op>, cuts: set<int>, globals: seq<Port>, outs: seq<Name>, weights: set<Name>)
    requires Splittable(ops, cuts, globals, weights)
    ensures var g := GraphOf(ops, cuts, globals, outs, weights);
            WellFormed(g) && Flatten(g.blocks) == ops && CutExactly(g.blocks, cuts)
  {
    var g := GraphOf(ops, cuts, globals, outs, weights);
    SplitCutsExactly(ops, cuts);
    NoEmptyBlock(g.blocks, cuts);
    BlockCount(ops, cuts);
    forall fi, op | 0 <= fi < |g.blocks| && op in g.blocks[fi] ensures op in ops {
      var p :| 0 <= p < |g.blocks[fi]| && g.blocks[fi][p] == op;
      OpAt(g.blocks, fi, p);
    }
    forall fi, x | 0 < fi < |g.blocks| && x in Results(g.blocks[fi]) ensures x !in g.weights {
      var p :| 0 <= p < |g.blocks[fi]| && Results(g.blocks[fi])[p] == x;
      LaterBlockAfterCut(ops, cuts, g.blocks, fi, p);
    }
  }

  lemma LaterBlocksReadNoGlobal(ops: seq<Op>, cuts: set<int>, globals: seq<Port>, outs: seq<Name>, weights: set<Name>)
    requires Splittable(ops, cuts, globals, weights)
    ensures GlobalsReadFirst(GraphOf(ops, cuts, globals, outs, weights))
  {
    var g := GraphOf(ops, cuts, globals, outs, weights);
    SplitCutsExactly(ops, cuts);
    forall fi, op, x | 0 < fi < |g.blocks| && op in g.blocks[fi] && x in Uses(op) ensures x !in Declared(g) {
      var p :| 0 <= p < |g.blocks[fi]| && g.blocks[fi][p] == op;
      LaterBlockAfterCut(ops, cuts, g.blocks, fi, p);
    }
  }

  /** Main theorem.  For every program, every set of boundaries and every semantics of the operations: the
      program cut at the boundaries, run function by function through the plan, leaves in every output slot
      the value the whole program gives that name; and the executor's flat run is the program's run. */
  lemma SplitAnywhere<V(!new)>(ops: seq<Op>, cuts: set<int>, globals: seq<Port>, outs: seq<Name>, weights: set<Name>,
                               sem: Sem<V>, args: seq<V>, zero: V)
    requires Splittable(ops, cuts, globals, weights) && |args| == |globals|
    requires DimsInRange(GraphOf(ops, cuts, globals, outs, weights))
    ensures var g := GraphOf(ops, cuts, globals, outs, weights);
            && WellFormed(g) && PlanFits(Funcs(g), Plan(g))
            && var whole, slots := Run(sem, ops, Bind(globals, args)),
                SlotRun(sem, Funcs(g), Plan(g), args, zero, |g.blocks|);
            && whole.Some? && slots.Some? && |slots.value| == |g.blocks|
            && (forall fi | 0 <= fi < |g.blocks| :: Returns(FuncOf(g, fi), slots.value[fi], whole.value))
            && Run(sem, Interpreters.AllOps(Funcs(g)), Bind(globals, args)) == whole
  {
    var g := GraphOf(ops, cuts, globals, outs, weights);
    SplitWellFormed(ops, cuts, globals, outs, weights);
    LaterBlocksReadNoGlobal(ops, cuts, globals, outs, weights);
    SplitPreservesMeaning(g, sem, args, zero);
    FlatRunIsUnsplit(g, sem, args);
  }

  // ── Routing through the ABI ──

  /** The edge a descriptor stands for when global inputs are numbered in order. */
  function EdgeOf(f: Field, i: nat): Edge
    requires !f.WeightField?
  {
    if f.GlobalField? then GlobalInput(i) else StepOutput(f.func, f.slot)
  }

  lemma FirstEdge(g: Graph, i: nat)
    requires WellFormed(g) && i < |g.globals|
    ensures |Plan(g)[0]| == |g.globals| && Plan(g)[0][i] == GlobalInput(i)
  {
    PlanEdge(g, 0, i);
    RouteGlobal(g, i);
  }

  lemma LaterEdge(g: Graph, fi: nat, i: nat)
    requires WellFormed(g) && 0 < fi < |g.blocks| && i < |InputPorts(g, fi)|
    ensures |Plan(g)[fi]| == |InputPorts(g, fi)| && Plan(g)[fi][i].StepOutput?
  {
    PlanEdge(g, fi, i);
    InputsArePermutation(g, fi);
    var x := InputPorts(g, fi)[i].name;
    assert PortNames(InputPorts(g, fi))[i] == x && x in Elems(PortNames(InputPorts(g, fi)));
    RouteIsExact(g, fi, x);
  }

  lemma FieldBack(edges: seq<Edge>, i: nat)
    requires i < |edges| && (edges[i].GlobalInput? ==> edges[i] == GlobalInput(i))
    ensures !FieldsOf(edges)[i].WeightField? && EdgeOf(FieldsOf(edges)[i], i) == edges[i]
  {
  }

  /** Descriptors drop the number of a global input, and lose nothing by it: in the plan of a split module
      the `i`-th input of function 0 is global input `i`, and all other inputs come from earlier functions. */
  lemma FieldsKeepRouting(g: Graph, fi: nat, i: nat)
    requires WellFormed(g) && fi < |g.blocks| && i < |InputPorts(g, fi)|
    ensures i < |Plan(g)[fi]|
    ensures !FieldsOf(Plan(g)[fi])[i].WeightField? && EdgeOf(FieldsOf(Plan(g)[fi])[i], i) == Plan(g)[fi][i]
  {
    if fi == 0 { FirstEdge(g, i); } else { LaterEdge(g, fi, i); }
    FieldBack(Plan(g)[fi], i);
  }

  // ── The cache contract ──

  /** `x` is produced before `i`, with no boundary in between. */
  ghost predicate ProducedJustBefore(ops: seq<Op>, cuts: set<int>, x: Name, i: nat)
    requires i <= |ops|
  {
    exists j :: 0 <= j < i && ops[j].result == x && forall c | c in cuts :: !(j < c < i)
  }

  /** Attention `i` is dense: no repeat-kv chains on both key and value, three different operands, key and
      value produced right before. */
  ghost predicate DenseAttention(ops: seq<Op>, cuts: set<int>, i: nat)
    requires i < |ops|
  {
    && (ChainStart(ops, i, 1).None? || ChainStart(ops, i, 2).None?) && DenseArgs([ops[i]])
    && ProducedJustBefore(ops, cuts, ops[i].operands[1], i) && ProducedJustBefore(ops, cuts, ops[i].operands[2], i)
  }

  ghost predicate DenseProgram(ops: seq<Op>, cuts: set<int>) {
    forall i: nat {:trigger DenseAttention(ops, cuts, i)} | i < |ops| && ops[i].opName == SDPA ::
      DenseAttention(ops, cuts, i)
  }

  lemma ProducedInBlockBefore(ops: seq<Op>, cuts: set<int>, blocks: seq<Block>, fi: nat, x: Name)
    requires CutExactly(blocks, cuts) && Flatten(blocks) == ops && fi < |blocks| && StartOf(blocks, fi) <= |ops|
    requires ProducedJustBefore(ops, cuts, x, StartOf(blocks, fi))
    ensures fi > 0 && x in Results(blocks[fi - 1])
  {
    var start := StartOf(blocks, fi);
    var j :| 0 <= j < start && ops[j].result == x && forall c | c in cuts :: !(j < c < start);
    assert fi > 0 by { assert blocks[..0] == []; }
    var before := StartOf(blocks, fi - 1);
    NextStart(blocks, fi - 1);
    NoEmptyBlock(blocks, cuts);
    assert blocks[fi - 1] in blocks;
    if fi > 1 {
      StartIsCut(blocks, cuts, fi - 1);
    } else {
      assert blocks[..0] == [];
    }
    OpAt(blocks, fi - 1, j - before);
    assert Results(blocks[fi - 1])[j - before] == x;
  }

  /** Cutting a dense program at its attentions, and anywhere else, makes a dense module. */
  lemma DenseAfterSplit(ops: seq<Op>, cuts: set<int>, globals: seq<Port>, outs: seq<Name>, weights: set<Name>)
    requires Splittable(ops, cuts, globals, weights) && DenseProgram(ops, cuts)
    requires forall b | b in Boundaries(ops, |ops|) :: b in cuts
    ensures DenseModule(GraphOf(ops, cuts, globals, outs, weights))
  {
    SplitCutsExactly(ops, cuts);
    AttentionsAreCuts(ops, cuts);
    AttentionsOpenBlocks(ops, cuts, BlocksOf(WithSentinels(ops, cuts)));
  }

  lemma AttentionsAreCuts(ops: seq<Op>, cuts: set<int>)
    requires DenseProgram(ops, cuts) && forall b | b in Boundaries(ops, |ops|) :: b in cuts
    ensures forall i | 0 <= i < |ops| && ops[i].opName == SDPA :: i in cuts
  {
    forall i | 0 <= i < |ops| && ops[i].opName == SDPA ensures i in cuts {
      assert DenseAttention(ops, cuts, i);
      BoundaryNotAfter(ops, i);
      BoundaryListed(ops, i, |ops|);
    }
  }

  lemma AttentionsOpenBlocks(ops: seq<Op>, cuts: set<int>, blocks: seq<Block>)
    requires CutExactly(blocks, cuts) && Flatten(blocks) == ops && DenseProgram(ops, cuts)
    requires forall i | 0 <= i < |ops| && ops[i].opName == SDPA :: i in cuts
    ensures forall fi: nat, p: nat | IsSdpaAt(blocks, fi, p) :: p == 0 && fi > 0 && DenseSdpa(blocks, fi - 1)
  {
    forall fi: nat, p: nat | IsSdpaAt(blocks, fi, p) ensures p == 0 && fi > 0 && DenseSdpa(blocks, fi - 1) {
      SdpaOpensBlock(blocks, cuts, fi, p);
      FirstOp(blocks, ops, fi);
      OpensDensely(ops, cuts, blocks, fi, blocks[fi][0]);
    }
  }

  lemma FirstOp(blocks: seq<Block>, ops: seq<Op>, fi: nat)
    requires Flatten(blocks) == ops && fi < |blocks| && blocks[fi] != []
    ensures StartOf(blocks, fi) < |ops| && ops[StartOf(blocks, fi)] == blocks[fi][0]
  {
    OpAt(blocks, fi, 0);
  }

  lemma OpensDensely(ops: seq<Op>, cuts: set<int>, blocks: seq<Block>, fi: nat, op: Op)
    requires CutExactly(blocks, cuts) && Flatten(blocks) == ops && DenseProgram(ops, cuts)
    requires fi < |blocks| && blocks[fi] != [] && blocks[fi][0] == op && op.opName == SDPA
    requires StartOf(blocks, fi) < |ops| && ops[StartOf(blocks, fi)] == op
    ensures fi > 0 && DenseSdpa(blocks, fi - 1)
  {
    AttentionFacts(ops, cuts, StartOf(blocks, fi), op);
    DenseOpens(ops, cuts, blocks, fi, op);
  }

  lemma AttentionFacts(ops: seq<Op>, cuts: set<int>, i: nat, op: Op)
    requires DenseProgram(ops, cuts) && i < |ops| && ops[i] == op && op.opName == SDPA
    ensures DenseArgs([op])
    ensures ProducedJustBefore(ops, cuts, op.operands[1], i) && ProducedJustBefore(ops, cuts, op.operands[2], i)
  {
    assert DenseAttention(ops, cuts, i);
  }

  lemma DenseOpens(ops: seq<Op>, cuts: set<int>, blocks: seq<Block>, fi: nat, op: Op)
    requires CutExactly(blocks, cuts) && Flatten(blocks) == ops && fi < |blocks|
    requires blocks[fi] != [] && blocks[fi][0] == op && DenseArgs([op]) && StartOf(blocks, fi) <= |ops|
    requires ProducedJustBefore(ops, cuts, op.operands[1], StartOf(blocks, fi))
    requires ProducedJustBefore(ops, cuts, op.operands[2], StartOf(blocks, fi))
    ensures fi > 0 && DenseSdpa(blocks, fi - 1)
  {
    ProducedInBlockBefore(ops, cuts, blocks, fi, op.operands[1]);
    ProducedInBlockBefore(ops, cuts, blocks, fi, op.operands[2]);
    DensePair(blocks, fi - 1, op);
  }

  lemma DensePair(blocks: seq<Block>, a: nat, op: Op)
    requires a + 1 < |blocks| && blocks[a + 1] != [] && blocks[a + 1][0] == op && DenseArgs([op])
    requires op.operands[1] in Results(blocks[a]) && op.operands[2] in Results(blocks[a])
    ensures DenseSdpa(blocks, a)
  {
    DenseHead(blocks[a + 1], op);
  }

  lemma DenseHead(block: Block, op: Op)
    requires block != [] && block[0] == op && DenseArgs([op])
    ensures DenseArgs(block)
  {
  }

  /** End to end: in a dense program cut at its attentions, the attention at `i` reads its key and value from
      two adjacent output slots, is intercepted for exactly these, and both intercepts get the layer given by
      the number of attentions before it. */
  lemma ContractAnywhere(ops: seq<Op>, cuts: set<int>, globals: seq<Port>, outs: seq<Name>, weights: set<Name>, i: nat)
    returns (f: nat, s: nat)
    requires Splittable(ops, cuts, globals, weights) && DenseProgram(ops, cuts)
    requires forall b | b in Boundaries(ops, |ops|) :: b in cuts
    requires i < |ops| && ops[i].opName == SDPA
    ensures var g := GraphOf(ops, cuts, globals, outs, weights);
            && WellFormed(g) && OwnIntercepts(g, ops[i], f, s)
            && GetsLayer(ops[..i], ops[i], Table(g), SsaProducer(Funcs(g)), SdpaCount(ops[..i]))
  {
    SplitWellFormed(ops, cuts, globals, outs, weights);
    DenseAfterSplit(ops, cuts, globals, outs, weights);
    f, s := ContractOf(GraphOf(ops, cuts, globals, outs, weights), ops, i);
  }

  lemma ContractOf(g: Graph, ops: seq<Op>, i: nat) returns (f: nat, s: nat)
    requires WellFormed(g) && DenseModule(g) && Flatten(g.blocks) == ops && i < |ops| && ops[i].opName == SDPA
    ensures OwnIntercepts(g, ops[i], f, s)
    ensures GetsLayer(ops[..i], ops[i], Table(g), SsaProducer(Funcs(g)), SdpaCount(ops[..i]))
  {
    assert ops[..i] + [ops[i]] == ops[..i + 1];
    LayersInProgramOrder(g, ops[..i], ops[i]);
    f, s := EveryAttentionHasPair(g, ops[i]);
  }
}
