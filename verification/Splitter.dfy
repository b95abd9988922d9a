/** What the splitter computes for each block: inputs, outputs, cache markings and plan edges. */
module Splitter {
  import opened Options
  import opened Ssa
  import opened Blocks
  import opened Names
  import opened DimAttrs

  const SDPA := "scaled_dot_product_attention"
  const REPEAT_OPS := {"unsqueeze", "expand", "view"}
  const MAX_TRACE: nat := 8

  datatype Graph = Graph(blocks: seq<Block>, globals: seq<Port>, globalOutputs: seq<Name>, weights: set<Name>)

  datatype Output = Output(name: Name, consumed: bool)

  datatype Func = Func(inputs: seq<Port>, outputs: seq<Output>, ops: seq<Op>)

  /** A plan edge: a global input, or the output `slot` of function `func`. */
  datatype Edge = GlobalInput(index: nat) | StepOutput(func: nat, slot: nat)

  datatype Binding = Binding(func: nat, slot: nat, slab: string)

  function PortNames(ports: seq<Port>): seq<Name> {
    seq(|ports|, i requires 0 <= i < |ports| => ports[i].name)
  }

  function OutputNames(outputs: seq<Output>): seq<Name> {
    seq(|outputs|, i requires 0 <= i < |outputs| => outputs[i].name)
  }

  /** The block producing each name; a later block wins. */
  function Producers(blocks: seq<Block>): (r: map<Name, nat>)
    ensures forall x | x in r :: r[x] < |blocks|
  {
    if blocks == [] then map[]
    else
      var n := |blocks| - 1;
      Producers(blocks[..n]) + map x | x in Results(blocks[n]) :: n
  }

  function Types(ops: seq<Op>): map<Name, string> {
    if ops == [] then map[] else Types(ops[..|ops| - 1])[ops[|ops| - 1].result := ops[|ops| - 1].outType]
  }

  function TypeOf(types: map<Name, string>, x: Name): string { if x in types then types[x] else "tensor<f32>" }

  function IsUnit(types: map<Name, string>, x: Name): bool {
    x in types && |types[x]| >= 9 && types[x][..9] == "tensor<1x"
  }

  // ── Inputs ──

  /** Names read by block `fi` that another block produces. */
  function Needed(blocks: seq<Block>, fi: nat): set<Name>
    requires fi < |blocks|
  {
    set op, x | op in blocks[fi] && x in op.operands && x in Producers(blocks) && Producers(blocks)[x] != fi :: x
  }

  function Activations(g: Graph, needed: set<Name>, names: seq<Name>): seq<Name> {
    Filter(names, x => x in needed && x !in g.weights)
  }

  function NeededWeights(g: Graph, needed: set<Name>): seq<Name> {
    Sort(Filter(Results(Flatten(g.blocks)), x => x in needed && x in g.weights))
  }

  /** The calling convention for the needed names: the first value of block 0, values of later blocks,
      the other values of block 0, weights by name, and the unit-size values of block 0 last.  Sorting by
      producing position is listing in program order. */
  function InputOrder(g: Graph, needed: set<Name>): seq<Name>
    requires g.blocks != []
  {
    var types := Types(Flatten(g.blocks));
    var first := Activations(g, needed, Results(g.blocks[0]));
    var later := Activations(g, needed, Results(Flatten(g.blocks[1..])));
    var rest := if first == [] then [] else first[1..];
    (if first == [] then [] else first[..1])
    + later
    + Filter(rest, x => !IsUnit(types, x))
    + NeededWeights(g, needed)
    + Filter(rest, x => IsUnit(types, x))
  }

  function InputPorts(g: Graph, fi: nat): seq<Port>
    requires fi < |g.blocks|
  {
    if fi == 0 then g.globals
    else
      var names := InputOrder(g, Needed(g.blocks, fi));
      var types := Types(Flatten(g.blocks));
      seq(|names|, i requires 0 <= i < |names| => Port(names[i], TypeOf(types, names[i])))
  }

  // ── Attention blocks ──

  /** Position of the first attention operation. */
  function SdpaPos(block: Block): (r: Option<nat>)
    ensures r.Some? ==> r.value < |block| && block[r.value].opName == SDPA
    ensures r.Some? ==> forall i | 0 <= i < r.value :: block[i].opName != SDPA
    ensures r.None? ==> forall op | op in block :: op.opName != SDPA
  {
    if block == [] then None
    else if block[0].opName == SDPA then Some(0)
    else match SdpaPos(block[1..]) case None => None case Some(p) => Some(p + 1)
  }

  /** A b-block: not the first block, and nothing but repeat-kv operations before its attention. */
  predicate IsB(blocks: seq<Block>, fi: nat)
    requires fi < |blocks|
  {
    fi > 0 && match SdpaPos(blocks[fi])
              case None => false
              case Some(p) => forall op | op in blocks[fi][..p] :: op.opName in REPEAT_OPS
  }

  predicate IsA(blocks: seq<Block>, fi: nat)
    requires fi < |blocks|
  {
    fi + 1 < |blocks| && IsB(blocks, fi + 1)
  }

  /** Index of the operation of the block that produces `x`; the last one wins. */
  function LocalProducer(block: Block, x: Name): (r: Option<nat>)
    ensures r.Some? ==> r.value < |block| && block[r.value].result == x
    ensures r.None? ==> forall op | op in block :: op.result != x
  {
    if block == [] then None
    else if block[|block| - 1].result == x then Some(|block| - 1)
    else LocalProducer(block[..|block| - 1], x)
  }

  /** Follows first operands back through repeat-kv operations of the block, at most `steps` of them. */
  function Trace(block: Block, x: Name, steps: nat): Name
    decreases steps
  {
    if steps == 0 then x
    else match LocalProducer(block, x)
      case None => x
      case Some(i) =>
        if block[i].opName !in REPEAT_OPS || block[i].operands == [] then x
        else Trace(block, block[i].operands[0], steps - 1)
  }

  datatype Qkv = Qkv(q: Name, k: Name, v: Name)

  /** The query read by the attention of a b-block and the key and value sources to be cached. */
  function AttentionSources(block: Block): Qkv {
    match SdpaPos(block)
    case None => Qkv("", "", "")
    case Some(p) =>
      var args := block[p].operands;
      Qkv(if |args| > 0 then args[0] else "",
          if |args| > 1 then Trace(block, args[1], MAX_TRACE) else "",
          if |args| > 2 then Trace(block, args[2], MAX_TRACE) else "")
  }

  // ── Outputs ──

  predicate UsedLater(blocks: seq<Block>, fi: nat, x: Name) {
    exists later, op :: fi < later < |blocks| && op in blocks[later] && x in op.operands
  }

  function Exported(g: Graph, fi: nat): seq<Name>
    requires fi < |g.blocks|
  {
    Filter(Results(g.blocks[fi]), x => UsedLater(g.blocks, fi, x) || x in g.globalOutputs)
  }

  /** Query, key and value first for an a-block, then everything else by name. */
  function OrderOutputs(blocks: seq<Block>, fi: nat, exported: seq<Name>): seq<Name>
    requires fi < |blocks|
  {
    if IsA(blocks, fi) then
      var s := AttentionSources(blocks[fi + 1]);
      var head := Filter([s.q, s.k, s.v], x => x != "" && x in exported);
      head + Filter(Sort(exported), x => x !in head)
    else Sort(exported)
  }

  function OutputOrder(g: Graph, fi: nat): seq<Name>
    requires fi < |g.blocks|
  {
    OrderOutputs(g.blocks, fi, Exported(g, fi))
  }

  /** The key and value names the cache takes over from block `fi`. */
  function Marked(blocks: seq<Block>, fi: nat): set<Name>
    requires fi < |blocks|
  {
    if IsA(blocks, fi) then
      var s := AttentionSources(blocks[fi + 1]); {s.k, s.v} - {""}
    else {}
  }

  /** The outputs of block `fi`; a block nobody reads still gets one. */
  function Outputs(g: Graph, fi: nat): seq<Output>
    requires fi < |g.blocks|
  {
    var names := OutputOrder(g, fi);
    var marked := Marked(g.blocks, fi);
    if names == [] then
      (if g.blocks[fi] == [] then [] else [Output(g.blocks[fi][0].result, false)])
    else seq(|names|, i requires 0 <= i < |names| => Output(names[i], names[i] in marked))
  }

  // ── Cache bindings ──

  /** The slab each cached name of block `fi` goes to: operand 1 is the key, operand 2 the value. */
  function SlabFor(blocks: seq<Block>, fi: nat, slabs: map<int, string>): map<Name, string>
    requires fi < |blocks|
  {
    if !IsA(blocks, fi) then map[]
    else
      var s := AttentionSources(blocks[fi + 1]);
      (if s.k != "" && 1 in slabs then map[s.k := slabs[1]] else map[])
      + (if s.v != "" && 2 in slabs then map[s.v := slabs[2]] else map[])
  }

  /** Bindings of the first `n` output slots of block `fi`. */
  function BlockBindings(fi: nat, outputs: seq<Output>, slabFor: map<Name, string>): seq<Binding> {
    if outputs == [] then []
    else
      var n := |outputs| - 1;
      BlockBindings(fi, outputs[..n], slabFor)
      + if outputs[n].consumed && outputs[n].name in slabFor then [Binding(fi, n, slabFor[outputs[n].name])] else []
  }

  function Bindings(g: Graph, slabs: map<int, string>, n: nat): seq<Binding>
    requires n <= |g.blocks|
  {
    if n == 0 then []
    else Bindings(g, slabs, n - 1) + BlockBindings(n - 1, Outputs(g, n - 1), SlabFor(g.blocks, n - 1, slabs))
  }

  // ── Functions and plan ──

  function AdjustBlock(block: Block, ranks: map<Name, nat>): seq<Op> {
    seq(|block|, i requires 0 <= i < |block| => AdjustOp(block[i], ranks))
  }

  function FuncOf(g: Graph, fi: nat): Func
    requires fi < |g.blocks|
  {
    var ports := InputPorts(g, fi);
    Func(ports, Outputs(g, fi), AdjustBlock(g.blocks[fi], Ranks(ports)))
  }

  function Funcs(g: Graph): seq<Func> {
    seq(|g.blocks|, fi requires 0 <= fi < |g.blocks| => FuncOf(g, fi))
  }

  function WeightName(op: Op): string {
    if "name" in op.attrs && op.attrs["name"].OtherAttr? then op.attrs["name"].text else ""
  }

  /** A constant the compiler lifted out of the graph. */
  predicate IsConst(name: string) { "_const_" <= name }

  /** Global input names: the declared ones, then the weights loaded by function 0, constants excepted. */
  function GlobalNames(declared: seq<Name>, ops: seq<Op>): seq<Name> {
    if ops == [] then declared
    else
      var n := |ops| - 1;
      var names := GlobalNames(declared, ops[..n]);
      var w := WeightName(ops[n]);
      if IsWeight(ops[n]) && w != "" && w !in names && !IsConst(w) then names + [w] else names
  }

  /** The edge for input `x` of function `fi`.  `None` is the lookup error for a name that is no global. */
  function Route(g: Graph, funcs: seq<Func>, fi: nat, x: Name): Option<Edge>
    requires g.blocks != [] && |funcs| == |g.blocks|
  {
    var globals := GlobalNames(PortNames(g.globals), funcs[0].ops);
    var gi := IndexOr(globals, x, -1);
    if fi == 0 then
      (if gi >= 0 then Some(GlobalInput(gi)) else None)
    else if x in g.weights then
      var slot := IndexOr(OutputNames(funcs[0].outputs), x, -1);
      if slot >= 0 then Some(StepOutput(0, slot)) else if gi >= 0 then Some(GlobalInput(gi)) else None
    else
      var producers := Producers(g.blocks);
      if x in producers && producers[x] > 0 then
        Some(StepOutput(producers[x], IndexOr(OutputNames(funcs[producers[x]].outputs), x, 0)))
      else
        Some(StepOutput(0, IndexOr(OutputNames(funcs[0].outputs), x, 0)))
  }

  predicate AllRouted(g: Graph, funcs: seq<Func>, fi: nat)
    requires g.blocks != [] && |funcs| == |g.blocks| && fi < |funcs|
  {
    forall p | p in funcs[fi].inputs :: Route(g, funcs, fi, p.name).Some?
  }

  function StepEdges(g: Graph, funcs: seq<Func>, fi: nat): seq<Edge>
    requires g.blocks != [] && |funcs| == |g.blocks| && fi < |funcs| && AllRouted(g, funcs, fi)
  {
    var ports := funcs[fi].inputs;
    seq(|ports|, i requires 0 <= i < |ports| => assert ports[i] in ports; Route(g, funcs, fi, ports[i].name).value)
  }
}
