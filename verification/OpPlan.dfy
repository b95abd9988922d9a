/** The op-level kernel plan of the covered decoder functions: its data, its evaluation, its validator. */
module OpPlan {
  import opened Options
  import opened Ssa
  import Splitter

  type Output = Splitter.Output

  /** A function of the compiled module, with the weights and constants it refers to. */
  datatype PlanFunc = PlanFunc(name: string, func: Splitter.Func, weights: set<Name>, consts: set<Name>)

  datatype Source = FromNode(node: nat,
      slot: nat) | FromWeight(name: Name) | FromConst(name: Name) | FromFunc(func: nat, output: nat)

  datatype Lifetime = Transient | LayerPersistent | GraphPersistent | CacheOwned

  datatype CacheMark = CacheMark(slab: string, func: nat, output: nat)

  /** A node has one output; its kernel is the canonical name of the operation. */
  datatype Node = Node(index: nat, kernel: string, funcs: seq<nat>, attrs: Attrs, inputs: seq<Source>,
                       life: Lifetime, cache: Option<CacheMark>)

  datatype NodeRef = NodeRef(node: nat, slot: nat)

  datatype FuncOutput = FuncOutput(func: nat, output: nat, value: NodeRef, consumed: bool)

  datatype Plan = Plan(nodes: seq<Node>, outputs: seq<FuncOutput>, globalOutput: Option<NodeRef>)

  type Position = (nat, nat)
  type Bindings = map<Position, string>

  function Canonical(opName: string): Option<string> {
    if opName == "linear" then Some("linear_transb")
    else if opName == "scaled_dot_product_attention" then Some("attention_causal")
    else if opName in {"layer_norm", "add", "relu", "mul", "view", "transpose", "identity"} then Some(opName)
    else None
  }

  predicate InCatalog(kernel: string) {
    kernel in {"layer_norm", "linear_transb", "attention_causal", "add", "relu", "mul", "view", "transpose", "identity"}
  }

  // ── Covered functions ──

  predicate HasOp(f: PlanFunc, opName: string) { exists op | op in f.func.ops :: op.opName == opName }

  /** `functions[i]` and `functions[i + 1]` are the two halves of a decoder layer. */
  predicate IsPair(fs: seq<PlanFunc>, i: nat) {
    && i + 1 < |fs| && fs[i].name != []
    && fs[i].name[|fs[i].name| - 1] == 'a' && fs[i + 1].name == fs[i].name[..|fs[i].name| - 1] + ['b']
    && HasOp(fs[i], "layer_norm") && HasOp(fs[i], "linear")
    && fs[i + 1].func.ops != [] && fs[i + 1].func.ops[0].opName == "scaled_dot_product_attention"
  }

  predicate IsCovered(fs: seq<PlanFunc>, fi: nat) { IsPair(fs, fi) || (fi > 0 && IsPair(fs, fi - 1)) }

  ghost predicate InRange(fs: seq<PlanFunc>, covered: seq<nat>) { forall c | 0 <= c < |covered| :: covered[c] < |fs| }

  // ── Nodes ──

  datatype Item = Item(fi: nat, op: Op)

  function ItemsOf(fi: nat, ops: seq<Op>): seq<Item> { seq(|ops|, i requires 0 <= i < |ops| => Item(fi, ops[i])) }

  /** Covered operations in emission order. */
  function Work(fs: seq<PlanFunc>, covered: seq<nat>): seq<Item>
    requires InRange(fs, covered)
  {
    if covered == [] then []
    else
      var n := |covered| - 1;
      Work(fs, covered[..n]) + ItemsOf(covered[n], fs[covered[n]].func.ops)
  }

  ghost predicate NamedAt(fs: seq<PlanFunc>, x: Name, p: Position) {
    p.0 < |fs| && p.1 < |fs[p.0].func.outputs| && fs[p.0].func.outputs[p.1].name == x
  }

  /** For every output name, the first function output carrying it. */
  ghost predicate FirstOutputs(fs: seq<PlanFunc>, outs: map<Name, Position>) {
    && (forall x | x in outs :: NamedAt(fs, x, outs[x]))
    && (forall fi: nat, oi: nat | fi < |fs| && oi < |fs[fi].func.outputs| ::
          var x := fs[fi].func.outputs[oi].name;
          x in outs && (outs[x].0 < fi || (outs[x].0 == fi && outs[x].1 <= oi)))
  }

  function Resolve(f: PlanFunc, at: map<Name, NodeRef>, outs: map<Name, Position>, x: Name): Option<Source> {
    if x in at then Some(FromNode(at[x].node, at[x].slot))
    else if x in f.weights then Some(FromWeight(x))
    else if x in f.consts then Some(FromConst(x))
    else if x in outs then Some(FromFunc(outs[x].0, outs[x].1))
    else None
  }

  function ResolveAll(f: PlanFunc, at: map<Name, NodeRef>, outs: map<Name, Position>,
                      xs: seq<Name>): (r: Option<seq<Source>>)
    ensures r.Some? ==> |r.value| == |xs|
    ensures r.Some? ==> forall i | 0 <= i < |xs| :: Resolve(f, at, outs, xs[i]) == Some(r.value[i])
    ensures r.None? ==> exists i | 0 <= i < |xs| :: Resolve(f, at, outs, xs[i]).None?
  {
    if xs == [] then Some([])
    else
      var n := |xs| - 1;
      match (ResolveAll(f, at, outs, xs[..n]), Resolve(f, at, outs, xs[n]))
      case (Some(rest), Some(last)) => Some(rest + [last])
      case _ => None
  }

  datatype Built = Built(nodes: seq<Node>, at: map<Name, NodeRef>)

  function NewNode(index: nat, fi: nat, op: Op, kernel: string, inputs: seq<Source>): Node {
    Node(index, kernel, [fi], op.attrs, inputs, GraphPersistent, None)
  }

  function AddNode(fs: seq<PlanFunc>, outs: map<Name, Position>, b: Built, it: Item): Option<Built>
    requires it.fi < |fs|
  {
    match Canonical(it.op.opName)
    case None => None
    case Some(kernel) =>
      match ResolveAll(fs[it.fi], b.at, outs, it.op.operands)
      case None => None
      case Some(inputs) =>
        var k := |b.nodes|;
        Some(Built(b.nodes + [NewNode(k, it.fi, it.op, kernel, inputs)], b.at[it.op.result := NodeRef(k, 0)]))
  }

  ghost predicate ItemsInRange(fs: seq<PlanFunc>, work: seq<Item>) { forall i | 0 <= i < |work| :: work[i].fi < |fs| }

  function Build(fs: seq<PlanFunc>, outs: map<Name, Position>, work: seq<Item>): Option<Built>
    requires ItemsInRange(fs, work)
  {
    if work == [] then Some(Built([], map[]))
    else
      var n := |work| - 1;
      match Build(fs, outs, work[..n])
      case None => None
      case Some(b) => AddNode(fs, outs, b, work[n])
  }

  // ── Output projection ──

  datatype Slot = Slot(fi: nat, oi: nat, out: Output)

  function SlotsOf(fi: nat, outs: seq<Output>): seq<Slot> {
    seq(|outs|, i requires 0 <= i < |outs| => Slot(fi, i, outs[i]))
  }

  /** Outputs of the covered functions, in order. */
  function Slots(fs: seq<PlanFunc>, covered: seq<nat>): seq<Slot>
    requires InRange(fs, covered)
  {
    if covered == [] then []
    else
      var n := |covered| - 1;
      Slots(fs, covered[..n]) + SlotsOf(covered[n], fs[covered[n]].func.outputs)
  }

  datatype Context = Context(at: map<Name, NodeRef>, bindings: Bindings, external: set<Name>, uses: multiset<Name>)

  datatype Projection = Projection(nodes: seq<Node>, outputs: seq<FuncOutput>, projected: set<Position>)

  function RuledLife(c: Context, x: Name): Lifetime {
    if x in c.external then GraphPersistent else if c.uses[x] == 1 then Transient else LayerPersistent
  }

  function MarkOf(c: Context, s: Slot): CacheMark
    requires (s.fi, s.oi) in c.bindings
  {
    CacheMark(c.bindings[(s.fi, s.oi)], s.fi, s.oi)
  }

  function Marked(c: Context, node: Node, s: Slot): Node
    requires s.out.consumed ==> (s.fi, s.oi) in c.bindings
  {
    if s.out.consumed then node.(life := CacheOwned, cache := Some(MarkOf(c, s)))
    else node.(life := RuledLife(c, s.out.name))
  }

  /** What finalisation demands of one output. */
  predicate Projectable(c: Context, count: nat, s: Slot) {
    s.out.name in c.at && c.at[s.out.name].node < count && (s.out.consumed ==> (s.fi, s.oi) in c.bindings)
  }

  function ProjectStep(c: Context, p: Projection, s: Slot): Option<Projection> {
    if !Projectable(c, |p.nodes|, s) then None
    else
      var ref := c.at[s.out.name];
      Some(Projection(p.nodes[ref.node := Marked(c, p.nodes[ref.node], s)],
                      p.outputs + [FuncOutput(s.fi, s.oi, ref, s.out.consumed)],
                      if s.out.consumed then p.projected + {(s.fi, s.oi)} else p.projected))
  }

  function Project(c: Context, nodes: seq<Node>, slots: seq<Slot>): Option<Projection> {
    if slots == [] then Some(Projection(nodes, [], {}))
    else
      var n := |slots| - 1;
      match Project(c, nodes, slots[..n])
      case None => None
      case Some(p) => ProjectStep(c, p, slots[n])
  }

  /** The cross-check at the end of output finalisation. */
  predicate CacheChecked(p: Projection, covered: seq<nat>, bindings: Bindings) {
    && (forall k: Position | k in bindings && k.0 in covered :: k in p.projected)
    && CachesBound(p.nodes, bindings)
  }

  predicate MarkBound(node: Node, bindings: Bindings) {
    node.cache.Some? ==>
      var m := node.cache.value;
      (m.func, m.output) in bindings && bindings[(m.func, m.output)] == m.slab
  }

  predicate CachesBound(nodes: seq<Node>, bindings: Bindings) {
    forall i | 0 <= i < |nodes| :: MarkBound(nodes[i], bindings)
  }

  /** The last visible output that has a node, searched backwards from `n`. */
  function LastVisible(outs: seq<Output>, at: map<Name, NodeRef>, n: nat): (r: Option<NodeRef>)
    requires n <= |outs|
    ensures r.Some? ==> exists i | 0 <= i < n :: !outs[i].consumed && outs[i].name in at && r == Some(at[outs[i].name])
                                               && forall j | i < j < n && !outs[j].consumed :: outs[j].name !in at
    ensures r.None? ==> forall j | 0 <= j < n && !outs[j].consumed :: outs[j].name !in at
  {
    if n == 0 then None
    else if !outs[n - 1].consumed && outs[n - 1].name in at then Some(at[outs[n - 1].name])
    else LastVisible(outs, at, n - 1)
  }

  // ── Consumers ──

  function OperandsOf(ops: seq<Op>): seq<Name> {
    if ops == [] then [] else OperandsOf(ops[..|ops| - 1]) + ops[|ops| - 1].operands
  }

  /** Names read by functions outside the plan. */
  ghost function External(fs: seq<PlanFunc>, covered: seq<nat>): set<Name> {
    set fi: nat, x | fi < |fs| && fi !in covered && x in OperandsOf(fs[fi].func.ops) :: x
  }

  /** Operand occurrences in covered functions. */
  ghost function CoveredUses(fs: seq<PlanFunc>, covered: seq<nat>): multiset<Name>
    requires InRange(fs, covered)
  {
    if covered == [] then multiset{}
    else
      var n := |covered| - 1;
      CoveredUses(fs, covered[..n]) + multiset(OperandsOf(fs[covered[n]].func.ops))
  }

  // ── Generation, up to validation ──

  lemma {:induction false} WorkInRange(fs: seq<PlanFunc>, covered: seq<nat>)
    requires InRange(fs, covered)
    ensures ItemsInRange(fs, Work(fs, covered))
  {
    if covered != [] {
      WorkInRange(fs, covered[..|covered| - 1]);
    }
  }

  ghost function ContextFor(fs: seq<PlanFunc>, covered: seq<nat>, bindings: Bindings, at: map<Name, NodeRef>): Context
    requires InRange(fs, covered)
  {
    Context(at, bindings, External(fs, covered), CoveredUses(fs, covered))
  }

  /** Node building, output finalisation and its cross-check. */
  ghost function Drafted(fs: seq<PlanFunc>, covered: seq<nat>, outs: map<Name, Position>,
                         bindings: Bindings): Option<Plan>
    requires InRange(fs, covered) && covered != []
  {
    WorkInRange(fs, covered);
    match Build(fs, outs, Work(fs, covered))
    case None => None
    case Some(b) =>
      match Project(ContextFor(fs, covered, bindings, b.at), b.nodes, Slots(fs, covered))
      case None => None
      case Some(p) =>
        if CacheChecked(p, covered, bindings) then
          var last := fs[covered[|covered| - 1]].func.outputs;
          Some(Plan(p.nodes, p.outputs, LastVisible(last, b.at, |last|)))
        else None
  }

  // ── Validation ──

  predicate InputOk(fs: seq<PlanFunc>, nodes: seq<Node>, idx: nat, s: Source) {
    match s
    case FromFunc(fi, oi) => fi < |fs| && oi < |fs[fi].func.outputs|
    case FromNode(k, slot) => k < idx && slot < 1
    case FromWeight(x) => exists f | f in fs :: x in f.weights
    case FromConst(x) => exists f | f in fs :: x in f.consts
  }

  predicate NodeOk(fs: seq<PlanFunc>, nodes: seq<Node>, idx: nat)
    requires idx < |nodes|
  {
    var node := nodes[idx];
    && node.index == idx && InCatalog(node.kernel)
    && node.funcs != [] && (forall fi | fi in node.funcs :: fi < |fs|)
    && forall s | s in node.inputs :: InputOk(fs, nodes, idx, s)
  }

  predicate HasMark(nodes: seq<Node>, k: Position) {
    exists i | 0 <= i < |nodes| :: nodes[i].cache.Some? && (nodes[i].cache.value.func, nodes[i].cache.value.output) == k
  }

  predicate SourceOf(nodes: seq<Node>, fi: nat) { exists i | 0 <= i < |nodes| :: fi in nodes[i].funcs }

  /** The validator run by the compiler and again when the plan is loaded. */
  predicate Accepted(plan: Plan, fs: seq<PlanFunc>, bindings: Bindings) {
    && plan.nodes != []
    && (forall idx: nat | idx < |plan.nodes| :: NodeOk(fs, plan.nodes, idx))
    && CachesBound(plan.nodes, bindings)
    && (forall k: Position | k in bindings && SourceOf(plan.nodes, k.0) :: HasMark(plan.nodes, k))
  }

  // ── Evaluation ──

  type Given<!V> = Source -> V

  function InputValue<V>(vals: seq<V>, given: Given<V>, s: Source): Option<V> {
    match s
    case FromNode(k, slot) => if k < |vals| && slot == 0 then Some(vals[k]) else None
    case _ => Some(given(s))
  }

  predicate Available<V>(vals: seq<V>, given: Given<V>, inputs: seq<Source>) {
    forall i | 0 <= i < |inputs| :: InputValue(vals, given, inputs[i]).Some?
  }

  function InputValues<V>(vals: seq<V>, given: Given<V>, inputs: seq<Source>): seq<V>
    requires Available(vals, given, inputs)
  {
    seq(|inputs|, i requires 0 <= i < |inputs| => InputValue(vals, given, inputs[i]).value)
  }

  /** Kernels run node by node; weights, constants and outputs of other functions are given. */
  function EvalNodes<V>(hal: Sem<V>, given: Given<V>, nodes: seq<Node>): Option<seq<V>> {
    if nodes == [] then Some([])
    else
      var n := |nodes| - 1;
      match EvalNodes(hal, given, nodes[..n])
      case None => None
      case Some(vals) =>
        if Available(vals, given, nodes[n].inputs)
        then Some(vals + [hal(nodes[n].kernel, nodes[n].attrs, InputValues(vals, given, nodes[n].inputs))])
        else None
  }
}
