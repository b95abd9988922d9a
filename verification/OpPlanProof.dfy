/** The op plan computes what the functions compute, and its validator accepts it exactly when cache
    outputs are distinct. */
module OpPlanProof {
  import opened Options
  import opened Lists
  import opened Ssa
  import Splitter
  import Interpreters
  import opened OpPlan

  // ── Nodes ──

  /** `s` carries the value named `x` to node `i`. */
  ghost predicate Carries(fs: seq<PlanFunc>, outs: map<Name, Position>, work: seq<Item>, i: nat, x: Name, s: Source)
    requires i < |work|
  {
    match s
    case FromNode(k, slot) => k < i && slot == 0 && work[k].op.result == x
    case FromWeight(y) => y == x && work[i].fi < |fs| && x in fs[work[i].fi].weights
    case FromConst(y) => y == x && work[i].fi < |fs| && x in fs[work[i].fi].consts
    case FromFunc(fi, oi) => x in outs && outs[x] == (fi, oi) && forall k | 0 <= k < i :: work[k].op.result != x
  }

  /** Operations with a kernel of their own name. */
  const OWN_KERNEL: set<string> := {"layer_norm", "add", "relu", "mul", "view", "transpose", "identity"}

  /** `kernel` is the HAL kernel that stands for the operation. */
  ghost predicate KernelOf(opName: string, kernel: string) {
    || (opName == "linear" && kernel == "linear_transb")
    || (opName == "scaled_dot_product_attention" && kernel == "attention_causal")
    || (opName in OWN_KERNEL && kernel == opName)
  }

  ghost predicate HasKernel(opName: string) {
    opName == "linear" || opName == "scaled_dot_product_attention" || opName in OWN_KERNEL
  }

  lemma CanonicalIff(opName: string)
    ensures Canonical(opName).Some? <==> HasKernel(opName)
    ensures Canonical(opName).Some? ==> KernelOf(opName, Canonical(opName).value)
  {
  }

  /** The catalog of the validator holds the kernels of operations and nothing else. */
  lemma CatalogIsKernels(kernel: string)
    ensures InCatalog(kernel) <==> exists opName :: KernelOf(opName, kernel)
  {
    if InCatalog(kernel) {
      var opName := if kernel == "linear_transb" then "linear"
                    else if kernel == "attention_causal" then "scaled_dot_product_attention" else kernel;
      assert KernelOf(opName, kernel);
    }
  }

  ghost predicate NodeFor(fs: seq<PlanFunc>, outs: map<Name, Position>, work: seq<Item>, i: nat, node: Node)
    requires i < |work|
  {
    var op := work[i].op;
    && KernelOf(op.opName, node.kernel) && |node.inputs| == |op.operands|
    && node == Node(i, node.kernel, [work[i].fi], op.attrs, node.inputs, GraphPersistent, None)
    && forall a | 0 <= a < |op.operands| :: Carries(fs, outs, work, i, op.operands[a], node.inputs[a])
  }

  ghost predicate MapFor(work: seq<Item>, at: map<Name, NodeRef>) {
    && (forall x | x in at :: at[x].slot == 0 && at[x].node < |work| && work[at[x].node].op.result == x)
    && (forall i | 0 <= i < |work| :: work[i].op.result in at)
  }

  ghost predicate BuiltFor(fs: seq<PlanFunc>, outs: map<Name, Position>, work: seq<Item>, b: Built) {
    && |b.nodes| == |work| && MapFor(work, b.at)
    && forall i | 0 <= i < |work| :: NodeFor(fs, outs, work, i, b.nodes[i])
  }

  lemma CarriesLonger(fs: seq<PlanFunc>, outs: map<Name, Position>, work: seq<Item>, it: Item, i: nat, node: Node)
    requires i < |work| && NodeFor(fs, outs, work, i, node)
    ensures NodeFor(fs, outs, work + [it], i, node)
  {
    var longer := work + [it];
    assert forall k | 0 <= k < |work| :: longer[k] == work[k];
    forall a | 0 <= a < |work[i].op.operands|
      ensures Carries(fs, outs, longer, i, work[i].op.operands[a], node.inputs[a])
    {
      assert Carries(fs, outs, work, i, work[i].op.operands[a], node.inputs[a]);
    }
  }

  lemma AddNodeBuilt(fs: seq<PlanFunc>, outs: map<Name, Position>, work: seq<Item>, b: Built, it: Item)
    requires it.fi < |fs| && BuiltFor(fs, outs, work, b) && AddNode(fs, outs, b, it).Some?
    ensures BuiltFor(fs, outs, work + [it], AddNode(fs, outs, b, it).value)
  {
    var longer, next := work + [it], AddNode(fs, outs, b, it).value;
    var n := |work|;
    assert forall k | 0 <= k < n :: longer[k] == work[k];
    forall i | 0 <= i < |longer| ensures NodeFor(fs, outs, longer, i, next.nodes[i]) {
      if i < n {
        CarriesLonger(fs, outs, work, it, i, b.nodes[i]);
      } else {
        var inputs := next.nodes[n].inputs;
        CanonicalIff(it.op.opName);
        forall a | 0 <= a < |it.op.operands| ensures Carries(fs, outs, longer, n, it.op.operands[a], inputs[a]) {
          assert Resolve(fs[it.fi], b.at, outs, it.op.operands[a]) == Some(inputs[a]);
        }
      }
    }
  }

  lemma BuildNext(fs: seq<PlanFunc>, outs: map<Name, Position>, work: seq<Item>, n: nat)
    requires ItemsInRange(fs, work) && n < |work|
    ensures Build(fs, outs, work[..n + 1]) ==
            match Build(fs, outs, work[..n]) case None => None case Some(b) => AddNode(fs, outs, b, work[n])
  {
    assert work[..n + 1][..n] == work[..n];
  }

  ghost predicate BuiltUpTo(fs: seq<PlanFunc>, outs: map<Name, Position>, work: seq<Item>, n: nat)
    requires ItemsInRange(fs, work) && n <= |work|
  {
    Build(fs, outs, work[..n]).Some? ==> BuiltFor(fs, outs, work[..n], Build(fs, outs, work[..n]).value)
  }

  lemma BuiltStep(fs: seq<PlanFunc>, outs: map<Name, Position>, work: seq<Item>, n: nat)
    requires ItemsInRange(fs, work) && n < |work| && Build(fs, outs, work[..n + 1]).Some?
    requires BuiltUpTo(fs, outs, work, n)
    ensures BuiltUpTo(fs, outs, work, n + 1)
  {
    var front := work[..n];
    BuildNext(fs, outs, work, n);
    AddNodeBuilt(fs, outs, front, Build(fs, outs, front).value, work[n]);
    PrefixSnoc(work, n);
  }

  lemma PrefixSnoc(work: seq<Item>, n: nat)
    requires n < |work|
    ensures work[..n + 1] == work[..n] + [work[n]]
  {
  }

  lemma NothingBuilt(fs: seq<PlanFunc>, outs: map<Name, Position>, work: seq<Item>)
    requires work == []
    ensures Build(fs, outs, work).Some? && BuiltFor(fs, outs, work, Build(fs, outs, work).value)
  {
  }

  lemma {:induction false} BuildPrefixIsBuilt(fs: seq<PlanFunc>, outs: map<Name, Position>, work: seq<Item>, n: nat)
    requires ItemsInRange(fs, work) && n <= |work|
    ensures BuiltUpTo(fs, outs, work, n)
    decreases n
  {
    if n == 0 {
      NothingBuilt(fs, outs, work[..n]);
    } else {
      BuildPrefixIsBuilt(fs, outs, work, n - 1);
      if Build(fs, outs, work[..n]).Some? {
        BuiltStep(fs, outs, work, n - 1);
      }
    }
  }

  lemma BuildIsBuilt(fs: seq<PlanFunc>, outs: map<Name, Position>, work: seq<Item>)
    requires ItemsInRange(fs, work) && Build(fs, outs, work).Some?
    ensures BuiltFor(fs, outs, work, Build(fs, outs, work).value)
  {
    assert work[..|work|] == work;
    BuildPrefixIsBuilt(fs, outs, work, |work|);
  }

  /** An operand can be resolved: an earlier covered result, a weight or constant of the function, or an
      output of any function. */
  ghost predicate Resolvable(fs: seq<PlanFunc>, outs: map<Name, Position>, work: seq<Item>, i: nat, x: Name)
    requires i < |work| && work[i].fi < |fs|
  {
    (exists k | 0 <= k < i :: work[k].op.result == x) || x in fs[work[i].fi].weights || x in fs[work[i].fi].consts
        || x in outs
  }

  ghost predicate Buildable(fs: seq<PlanFunc>, outs: map<Name, Position>, work: seq<Item>, i: nat)
    requires i < |work| && work[i].fi < |fs|
  {
    HasKernel(work[i].op.opName) && forall x | x in work[i].op.operands :: Resolvable(fs, outs, work, i, x)
  }

  ghost predicate AllBuildable(fs: seq<PlanFunc>, outs: map<Name, Position>, work: seq<Item>, n: nat)
    requires ItemsInRange(fs, work) && n <= |work|
  {
    forall i | 0 <= i < n :: Buildable(fs, outs, work, i)
  }

  lemma AddSucceedsIff(fs: seq<PlanFunc>, outs: map<Name, Position>, work: seq<Item>, n: nat, b: Built)
    requires n < |work| && ItemsInRange(fs, work) && BuiltFor(fs, outs, work[..n], b)
    ensures AddNode(fs, outs, b, work[n]).Some? <==> Buildable(fs, outs, work, n)
  {
    var f := fs[work[n].fi];
    CanonicalIff(work[n].op.opName);
    forall x ensures Resolve(f, b.at, outs, x).Some? <==> Resolvable(fs, outs, work, n, x) {
      if x in b.at {
        assert work[..n][b.at[x].node].op.result == x;
      }
      forall k | 0 <= k < n && work[k].op.result == x ensures x in b.at {
        assert work[..n][k].op.result == x;
      }
    }
  }

  lemma BuildStepIff(fs: seq<PlanFunc>, outs: map<Name, Position>, work: seq<Item>, n: nat)
    requires ItemsInRange(fs, work) && n < |work|
    ensures Build(fs, outs, work[..n + 1]).Some? <==> Build(fs, outs, work[..n]).Some? && Buildable(fs, outs, work, n)
  {
    BuildNext(fs, outs, work, n);
    if Build(fs, outs, work[..n]).Some? {
      BuildPrefixIsBuilt(fs, outs, work, n);
      AddSucceedsIff(fs, outs, work, n, Build(fs, outs, work[..n]).value);
    }
  }

  lemma AllBuildableStep(fs: seq<PlanFunc>, outs: map<Name, Position>, work: seq<Item>, n: nat)
    requires ItemsInRange(fs, work) && n < |work|
    ensures AllBuildable(fs, outs, work, n + 1) <==> AllBuildable(fs, outs, work, n) && Buildable(fs, outs, work, n)
  {
  }

  /** Node building succeeds exactly when every covered operation has a kernel and resolvable operands. */
  lemma {:induction false} BuildSucceedsIff(fs: seq<PlanFunc>, outs: map<Name, Position>, work: seq<Item>, n: nat)
    requires ItemsInRange(fs, work) && n <= |work|
    ensures Build(fs, outs, work[..n]).Some? <==> AllBuildable(fs, outs, work, n)
    decreases n
  {
    if n > 0 {
      BuildSucceedsIff(fs, outs, work, n - 1);
      BuildStepIff(fs, outs, work, n - 1);
      AllBuildableStep(fs, outs, work, n - 1);
    }
  }

  // ── Evaluation ──

  ghost predicate SameMeaning<V(!new)>(hal: Sem<V>, kernel: string, sem: Sem<V>, opName: string) {
    forall attrs, args :: hal(kernel, attrs, args) == sem(opName, attrs, args)
  }

  /** The transposed-weight kernel is `linear`, the causal-attention kernel is the attention, and every other
      kernel is the operation of its name. */
  ghost predicate Implements<V(!new)>(hal: Sem<V>, sem: Sem<V>) {
    && SameMeaning(hal, "linear_transb", sem, "linear")
    && SameMeaning(hal, "attention_causal", sem, "scaled_dot_product_attention")
    && SameMeaning(hal, "layer_norm", sem, "layer_norm") && SameMeaning(hal, "add", sem, "add")
    && SameMeaning(hal, "relu", sem, "relu") && SameMeaning(hal, "mul", sem, "mul")
    && SameMeaning(hal, "view", sem, "view") && SameMeaning(hal, "transpose", sem, "transpose")
    && SameMeaning(hal, "identity", sem, "identity")
  }

  lemma KernelMeaning<V(!new)>(hal: Sem<V>, sem: Sem<V>, opName: string, kernel: string)
    requires Implements(hal, sem) && KernelOf(opName, kernel)
    ensures SameMeaning(hal, kernel, sem, opName)
  {
  }

  /** Weights, constants and outputs of uncovered functions are given the values of the function-level execution. */
  ghost predicate GivenBy<V(!new)>(given: Given<V>, fs: seq<PlanFunc>, covered: seq<nat>, env: Env<V>) {
    && (forall f, x | f in fs && x in f.weights :: x in env && given(FromWeight(x)) == env[x])
    && (forall f, x | f in fs && x in f.consts :: x in env && given(FromConst(x)) == env[x])
    && (forall fi: nat, oi: nat | fi < |fs| && fi !in covered && oi < |fs[fi].func.outputs| ::
          fs[fi].func.outputs[oi].name in env && given(FromFunc(fi, oi)) == env[fs[fi].func.outputs[oi].name])
  }

  /** No node reads an output of a covered function other than through its node. */
  ghost predicate ReadsUncovered(node: Node, covered: seq<nat>) {
    forall s | s in node.inputs && s.FromFunc? :: s.func !in covered
  }

  ghost predicate SolvesWork<V(!new)>(sem: Sem<V>, work: seq<Item>, env: Env<V>) {
    forall i | 0 <= i < |work| ::
      var op := work[i].op;
      op.result in env && Ready(op, env.Keys) && env[op.result] == Value(sem, op, env)
  }

  ghost predicate ValuesFor<V(!new)>(vals: seq<V>, work: seq<Item>, env: Env<V>) {
    |vals| == |work| && forall i | 0 <= i < |work| :: work[i].op.result in env && vals[i] == env[work[i].op.result]
  }

  lemma SourceValue<V(!new)>(given: Given<V>, fs: seq<PlanFunc>, covered: seq<nat>, outs: map<Name, Position>,
                             work: seq<Item>, env: Env<V>,
                             vals: seq<V>, i: nat, x: Name, s: Source)
    requires i < |work| && GivenBy(given, fs, covered, env) && FirstOutputs(fs, outs)
    requires ValuesFor(vals, work[..i], env) && Carries(fs, outs, work, i, x, s) && (s.FromFunc? ==> s.func !in covered)
    ensures x in env && InputValue(vals, given, s) == Some(env[x])
  {
    if s.FromNode? {
      assert work[..i][s.node] == work[s.node];
    } else if s.FromWeight? || s.FromConst? {
      assert fs[work[i].fi] in fs;
    }
  }

  /** The node for an operation computes the operation's value. */
  lemma NodeValue<V(!new)>(hal: Sem<V>, sem: Sem<V>, given: Given<V>, fs: seq<PlanFunc>, covered: seq<nat>,
                           outs: map<Name, Position>,
                           work: seq<Item>, env: Env<V>, vals: seq<V>, i: nat, node: Node)
    requires i < |work| && Implements(hal, sem) && GivenBy(given, fs, covered, env) && FirstOutputs(fs, outs)
    requires SolvesWork(sem, work, env) && ValuesFor(vals, work[..i], env) && NodeFor(fs, outs, work, i, node)
    requires ReadsUncovered(node, covered)
    ensures Available(vals, given, node.inputs)
    ensures hal(node.kernel, node.attrs, InputValues(vals, given, node.inputs)) == env[work[i].op.result]
  {
    var op := work[i].op;
    assert Uses(op) == op.operands;
    KernelMeaning(hal, sem, op.opName, node.kernel);
    forall a | 0 <= a < |node.inputs|
      ensures op.operands[a] in env && InputValue(vals, given, node.inputs[a]) == Some(env[op.operands[a]])
    {
      SourceValue(given, fs, covered, outs, work, env, vals, i, op.operands[a], node.inputs[a]);
    }
    assert InputValues(vals, given, node.inputs) == Args(Uses(op), env);
  }

  lemma EvalNext<V>(hal: Sem<V>, given: Given<V>, nodes: seq<Node>, n: nat, v: V)
    requires n < |nodes| && EvalNodes(hal, given, nodes[..n]).Some?
    requires var vals := EvalNodes(hal, given, nodes[..n]).value;
             Available(vals, given, nodes[n].inputs)
                 && hal(nodes[n].kernel, nodes[n].attrs, InputValues(vals, given, nodes[n].inputs)) == v
    ensures EvalNodes(hal, given, nodes[..n + 1]) == Some(EvalNodes(hal, given, nodes[..n]).value + [v])
  {
    assert nodes[..n + 1][..n] == nodes[..n];
  }

  lemma ValuesNext<V(!new)>(vals: seq<V>, work: seq<Item>, env: Env<V>, n: nat, v: V)
    requires n < |work| && ValuesFor(vals, work[..n], env) && work[n].op.result in env && v == env[work[n].op.result]
    ensures ValuesFor(vals + [v], work[..n + 1], env)
  {
    assert forall i | 0 <= i < n :: work[..n + 1][i] == work[..n][i];
  }

  lemma {:induction false} NodesCompute<V(!new)>(hal: Sem<V>, sem: Sem<V>, given: Given<V>, fs: seq<PlanFunc>,
                                                 covered: seq<nat>,
                                                 outs: map<Name, Position>, work: seq<Item>, env: Env<V>,
                                                     nodes: seq<Node>, n: nat)
    requires Implements(hal, sem) && GivenBy(given, fs, covered, env) && FirstOutputs(fs, outs)
             && SolvesWork(sem, work, env)
    requires n <= |nodes| == |work|
    requires forall i | 0 <= i < |work| :: NodeFor(fs, outs, work, i, nodes[i]) && ReadsUncovered(nodes[i], covered)
    ensures EvalNodes(hal, given, nodes[..n]).Some?
    ensures ValuesFor(EvalNodes(hal, given, nodes[..n]).value, work[..n], env)
    decreases n
  {
    if n > 0 {
      NodesCompute(hal, sem, given, fs, covered, outs, work, env, nodes, n - 1);
      var vals := EvalNodes(hal, given, nodes[..n - 1]).value;
      NodeValue(hal, sem, given, fs, covered, outs, work, env, vals, n - 1, nodes[n - 1]);
      EvalNext(hal, given, nodes, n - 1, env[work[n - 1].op.result]);
      ValuesNext(vals, work, env, n - 1, env[work[n - 1].op.result]);
    }
  }

  // ── Output projection ──

  ghost predicate Refers(c: Context, s: Slot, i: int) { s.out.name in c.at && c.at[s.out.name].node == i }

  /** `k` is the last of the first `n` outputs carried by node `i`. */
  ghost predicate LastAt(c: Context, slots: seq<Slot>, n: nat, i: int, k: int) {
    0 <= k < n <= |slots| && Refers(c, slots[k], i) && forall j | k < j < n :: !Refers(c, slots[j], i)
  }

  /** `k` is the last of the first `n` cache outputs carried by node `i`. */
  ghost predicate LastCacheAt(c: Context, slots: seq<Slot>, n: nat, i: int, k: int) {
    && 0 <= k < n <= |slots| && slots[k].out.consumed && Refers(c, slots[k], i)
    && forall j | k < j < n && slots[j].out.consumed :: !Refers(c, slots[j], i)
  }

  /** A node's cache mark is that of the last cache output it carries. */
  ghost predicate CacheRight(c: Context, slots: seq<Slot>, n: nat, i: int, cache: Option<CacheMark>)
    requires n <= |slots|
  {
    if cache.None? then forall k | 0 <= k < n && slots[k].out.consumed :: !Refers(c, slots[k], i)
    else exists k ::
        LastCacheAt(c, slots, n, i, k) && (slots[k].fi, slots[k].oi) in c.bindings && cache.value == MarkOf(c, slots[k])
  }

  function SlotLife(c: Context, s: Slot): Lifetime { if s.out.consumed then CacheOwned else RuledLife(c, s.out.name) }

  /** A node's lifetime is that of the last output it carries; other nodes keep theirs. */
  ghost predicate LifeRight(c: Context, slots: seq<Slot>, n: nat, i: int, orig: Lifetime, life: Lifetime)
    requires n <= |slots|
  {
    || (life == orig && forall k | 0 <= k < n :: !Refers(c, slots[k], i))
    || exists k :: LastAt(c, slots, n, i, k) && life == SlotLife(c, slots[k])
  }

  ghost predicate NodeRight(c: Context, slots: seq<Slot>, n: nat, i: int, orig: Node, node: Node)
    requires n <= |slots|
  {
    && node == orig.(life := node.life, cache := node.cache)
    && CacheRight(c, slots, n, i, node.cache) && LifeRight(c, slots, n, i, orig.life, node.life)
  }

  lemma NodeRightStep(c: Context, slots: seq<Slot>, n: nat, i: int, orig: Node, node: Node, after: Node)
    requires n < |slots| && NodeRight(c, slots, n, i, orig, node)
    requires slots[n].out.consumed ==> (slots[n].fi, slots[n].oi) in c.bindings
    requires after == if Refers(c, slots[n], i) then Marked(c, node, slots[n]) else node
    ensures NodeRight(c, slots, n + 1, i, orig, after)
  {
    CacheStep(c, slots, n, i, node, after);
    LifeStep(c, slots, n, i, orig.life, node, after);
  }

  lemma CacheStep(c: Context, slots: seq<Slot>, n: nat, i: int, node: Node, after: Node)
    requires n < |slots| && CacheRight(c, slots, n, i, node.cache)
    requires slots[n].out.consumed ==> (slots[n].fi, slots[n].oi) in c.bindings
    requires after == if Refers(c, slots[n], i) then Marked(c, node, slots[n]) else node
    ensures CacheRight(c, slots, n + 1, i, after.cache)
  {
    if Refers(c, slots[n], i) && slots[n].out.consumed {
      assert LastCacheAt(c, slots, n + 1, i, n);
    } else if after.cache.Some? {
      var k :| LastCacheAt(c, slots, n, i, k) && (slots[k].fi, slots[k].oi) in c.bindings
          && after.cache.value == MarkOf(c, slots[k]);
      assert LastCacheAt(c, slots, n + 1, i, k);
    }
  }

  lemma LifeStep(c: Context, slots: seq<Slot>, n: nat, i: int, orig: Lifetime, node: Node, after: Node)
    requires n < |slots| && LifeRight(c, slots, n, i, orig, node.life)
    requires slots[n].out.consumed ==> (slots[n].fi, slots[n].oi) in c.bindings
    requires after == if Refers(c, slots[n], i) then Marked(c, node, slots[n]) else node
    ensures LifeRight(c, slots, n + 1, i, orig, after.life)
  {
    if Refers(c, slots[n], i) {
      assert LastAt(c, slots, n + 1, i, n);
    } else if exists k :: LastAt(c, slots, n, i, k) && node.life == SlotLife(c, slots[k]) {
      var k :| LastAt(c, slots, n, i, k) && node.life == SlotLife(c, slots[k]);
      assert LastAt(c, slots, n + 1, i, k);
    }
  }

  /** All of what finalisation does to nodes and outputs. */
  ghost predicate ProjectedFor(c: Context, nodes: seq<Node>, slots: seq<Slot>, n: nat, p: Projection)
    requires n <= |slots|
  {
    && |p.nodes| == |nodes| && |p.outputs| == n
    && (forall i | 0 <= i < |nodes| :: NodeRight(c, slots, n, i, nodes[i], p.nodes[i]))
    && (forall k | 0 <= k < n :: Projectable(c, |nodes|, slots[k]))
    && (forall k | 0 <= k < n ::
           p.outputs[k] == FuncOutput(slots[k].fi, slots[k].oi, c.at[slots[k].out.name], slots[k].out.consumed))
    && (forall pos ::
           pos in p.projected <==> exists k | 0 <= k < n :: slots[k].out.consumed && pos == (slots[k].fi, slots[k].oi))
  }

  lemma ProjectStepFor(c: Context, nodes: seq<Node>, slots: seq<Slot>, n: nat, p: Projection)
    requires n < |slots| && ProjectedFor(c, nodes, slots, n, p) && Projectable(c, |nodes|, slots[n])
    ensures ProjectedFor(c, nodes, slots, n + 1, ProjectStep(c, p, slots[n]).value)
  {
    var q := ProjectStep(c, p, slots[n]).value;
    forall i | 0 <= i < |nodes| ensures NodeRight(c, slots, n + 1, i, nodes[i], q.nodes[i]) {
      NodeRightStep(c, slots, n, i, nodes[i], p.nodes[i], q.nodes[i]);
    }
  }

  lemma ProjectNext(c: Context, nodes: seq<Node>, slots: seq<Slot>, n: nat)
    requires n < |slots|
    ensures Project(c, nodes, slots[..n + 1]) ==
            match Project(c, nodes, slots[..n]) case None => None case Some(p) => ProjectStep(c, p, slots[n])
  {
    assert slots[..n + 1][..n] == slots[..n];
  }

  ghost predicate AllProjectable(c: Context, count: nat, slots: seq<Slot>, n: nat)
    requires n <= |slots|
  {
    forall k | 0 <= k < n :: Projectable(c, count, slots[k])
  }

  /** Projection succeeds exactly when every covered output has a node and every cache output a binding. */
  lemma {:induction false} ProjectIsProjected(c: Context, nodes: seq<Node>, slots: seq<Slot>, n: nat)
    requires n <= |slots| && forall i | 0 <= i < |nodes| :: nodes[i].cache.None?
    ensures Project(c, nodes, slots[..n]).Some? <==> AllProjectable(c, |nodes|, slots, n)
    ensures Project(c, nodes, slots[..n]).Some? ==>
            ProjectedFor(c, nodes, slots, n, Project(c, nodes, slots[..n]).value)
    decreases n
  {
    if n > 0 {
      ProjectNext(c, nodes, slots, n - 1);
      ProjectIsProjected(c, nodes, slots, n - 1);
      if Project(c, nodes, slots[..n]).Some? {
        ProjectStepFor(c, nodes, slots, n - 1, Project(c, nodes, slots[..n - 1]).value);
      }
    }
  }

  // ── Covered functions, operations and outputs ──

  lemma {:induction false} WorkIsCovered(fs: seq<PlanFunc>, covered: seq<nat>)
    requires InRange(fs, covered)
    ensures forall i | 0 <= i < |Work(fs, covered)| ::
              var it := Work(fs, covered)[i];
              it.fi in covered && it.fi < |fs| && it.op in fs[it.fi].func.ops
  {
    if covered != [] {
      WorkIsCovered(fs, covered[..|covered| - 1]);
    }
  }

  lemma {:induction false} CoveredHasWork(fs: seq<PlanFunc>, covered: seq<nat>, c: nat)
    requires InRange(fs, covered) && c < |covered| && fs[covered[c]].func.ops != []
    ensures exists i | 0 <= i < |Work(fs, covered)| :: Work(fs, covered)[i].fi == covered[c]
    decreases |covered|
  {
    var n := |covered| - 1;
    var w := Work(fs, covered);
    if c == n {
      assert w[|Work(fs, covered[..n])|].fi == covered[c];
    } else {
      CoveredHasWork(fs, covered[..n], c);
      var i :| 0 <= i < |Work(fs, covered[..n])| && Work(fs, covered[..n])[i].fi == covered[..n][c];
      assert w[i].fi == covered[c];
    }
  }

  ghost predicate IsSlot(fs: seq<PlanFunc>, covered: seq<nat>, s: Slot) {
    s.fi in covered && s.fi < |fs| && s.oi < |fs[s.fi].func.outputs| && s.out == fs[s.fi].func.outputs[s.oi]
  }

  lemma {:induction false} SlotsAreOutputs(fs: seq<PlanFunc>, covered: seq<nat>)
    requires InRange(fs, covered)
    ensures forall k | 0 <= k < |Slots(fs, covered)| :: IsSlot(fs, covered, Slots(fs, covered)[k])
  {
    if covered != [] {
      SlotsAreOutputs(fs, covered[..|covered| - 1]);
    }
  }

  lemma {:induction false} OutputHasSlot(fs: seq<PlanFunc>, covered: seq<nat>, c: nat, oi: nat)
    requires InRange(fs, covered) && c < |covered| && oi < |fs[covered[c]].func.outputs|
    ensures Slot(covered[c], oi, fs[covered[c]].func.outputs[oi]) in Slots(fs, covered)
    decreases |covered|
  {
    var n := |covered| - 1;
    if c == n {
      assert SlotsOf(covered[n], fs[covered[n]].func.outputs)[oi] in Slots(fs, covered);
    } else {
      OutputHasSlot(fs, covered[..n], c, oi);
    }
  }

  /** No position occurs twice. */
  ghost predicate PositionsUnique(slots: seq<Slot>) {
    forall j, k | 0 <= j < k < |slots| :: slots[j].fi != slots[k].fi || slots[j].oi != slots[k].oi
  }

  lemma {:induction false} SlotsUnique(fs: seq<PlanFunc>, covered: seq<nat>)
    requires InRange(fs, covered) && Increasing(covered)
    ensures PositionsUnique(Slots(fs, covered))
  {
    if covered != [] {
      var n := |covered| - 1;
      var front := covered[..n];
      SlotsUnique(fs, front);
      SlotsAreOutputs(fs, front);
      var slots := Slots(fs, covered);
      forall j, k | 0 <= j < k < |slots| ensures slots[j].fi != slots[k].fi || slots[j].oi != slots[k].oi {
        if j < |Slots(fs, front)| <= k {
          assert IsSlot(fs, front, Slots(fs, front)[j]);
        }
      }
    }
  }

  // ── The validator ──

  /** Two cache outputs of covered functions never share a name. */
  ghost predicate CacheNamesDistinct(slots: seq<Slot>) {
    forall j, k | 0 <= j < k < |slots| && slots[j].out.consumed && slots[k].out.consumed ::
        slots[j].out.name != slots[k].out.name
  }

  lemma NodeAccepted(fs: seq<PlanFunc>, outs: map<Name, Position>, work: seq<Item>, nodes: seq<Node>, i: nat,
                     orig: Node)
    requires i < |nodes| == |work| && FirstOutputs(fs, outs) && ItemsInRange(fs, work)
    requires NodeFor(fs, outs, work, i, orig) && nodes[i] == orig.(life := nodes[i].life, cache := nodes[i].cache)
    ensures NodeOk(fs, nodes, i)
  {
    forall s | s in nodes[i].inputs ensures InputOk(fs, nodes, i, s) {
      var a :| 0 <= a < |orig.inputs| && orig.inputs[a] == s;
      assert Carries(fs, outs, work, i, work[i].op.operands[a], s);
      assert fs[work[i].fi] in fs;
    }
  }

  /** A cache mark comes from the last cache output its node carries. */
  lemma MarkSource(c: Context, nodes: seq<Node>, slots: seq<Slot>, p: Projection, i: nat) returns (l: nat)
    requires ProjectedFor(c, nodes, slots, |slots|, p) && i < |nodes| && p.nodes[i].cache.Some?
    ensures LastCacheAt(c, slots, |slots|, i, l)
    ensures p.nodes[i].cache.value.func == slots[l].fi && p.nodes[i].cache.value.output == slots[l].oi
  {
    var n := |slots|;
    assert NodeRight(c, slots, n, i, nodes[i], p.nodes[i]);
    var k :| LastCacheAt(c, slots, n, i, k) && (slots[k].fi, slots[k].oi) in c.bindings
        && p.nodes[i].cache.value == MarkOf(c, slots[k]);
    l := k;
  }

  lemma MarkedNode(c: Context, nodes: seq<Node>, slots: seq<Slot>, p: Projection, k: nat, i: nat)
    requires ProjectedFor(c, nodes, slots, |slots|, p) && k < |slots| && slots[k].out.consumed && Refers(c, slots[k], i)
    ensures i < |nodes| && p.nodes[i].cache.Some?
  {
    assert Projectable(c, |nodes|, slots[k]);
    assert NodeRight(c, slots, |slots|, i, nodes[i], p.nodes[i]);
  }

  /** The mark of a cache output survives exactly when no later cache output has its node. */
  lemma MarkSurvives(c: Context, nodes: seq<Node>, slots: seq<Slot>, p: Projection, k: nat, i: nat)
    requires ProjectedFor(c, nodes, slots, |slots|, p) && PositionsUnique(slots)
    requires k < |slots| && slots[k].out.consumed && Refers(c, slots[k], i)
    ensures HasMark(p.nodes, (slots[k].fi, slots[k].oi)) <==> LastCacheAt(c, slots, |slots|, i, k)
  {
    MarkedNode(c, nodes, slots, p, k, i);
    var l := MarkSource(c, nodes, slots, p, i);
    if HasMark(p.nodes, (slots[k].fi, slots[k].oi)) {
      var i' :| 0 <= i' < |p.nodes| && p.nodes[i'].cache.Some?
                && (p.nodes[i'].cache.value.func, p.nodes[i'].cache.value.output) == (slots[k].fi, slots[k].oi);
      var l' := MarkSource(c, nodes, slots, p, i');
      assert l' == k;
    }
    if LastCacheAt(c, slots, |slots|, i, k) {
      assert l == k;
    }
  }

  lemma LastIfDistinct(c: Context, slots: seq<Slot>, work: seq<Item>, k: nat)
    requires MapFor(work, c.at) && k < |slots| && slots[k].out.consumed && slots[k].out.name in c.at
             && CacheNamesDistinct(slots)
    ensures LastCacheAt(c, slots, |slots|, c.at[slots[k].out.name].node, k)
  {
  }

  lemma LastThenDistinct(c: Context, slots: seq<Slot>)
    requires forall k | 0 <= k < |slots| && slots[k].out.consumed ::
               slots[k].out.name in c.at && LastCacheAt(c, slots, |slots|, c.at[slots[k].out.name].node, k)
    ensures CacheNamesDistinct(slots)
  {
    forall j, k | 0 <= j < k < |slots| && slots[j].out.consumed && slots[k].out.consumed
      ensures slots[j].out.name != slots[k].out.name
    {
      assert !Refers(c, slots[k], c.at[slots[j].out.name].node);
    }
  }

  /** Every cache output still has its mark. */
  ghost predicate AllMarked(slots: seq<Slot>, nodes: seq<Node>) {
    forall k | 0 <= k < |slots| && slots[k].out.consumed :: HasMark(nodes, (slots[k].fi, slots[k].oi))
  }

  lemma AllMarkedIff(c: Context, nodes: seq<Node>, slots: seq<Slot>, p: Projection, work: seq<Item>)
    requires ProjectedFor(c, nodes, slots, |slots|, p) && PositionsUnique(slots) && MapFor(work, c.at)
    ensures AllMarked(slots, p.nodes) <==> CacheNamesDistinct(slots)
  {
    forall k | 0 <= k < |slots| && slots[k].out.consumed
      ensures slots[k].out.name in c.at
      ensures HasMark(p.nodes, (slots[k].fi, slots[k].oi))
              <==> LastCacheAt(c, slots, |slots|, c.at[slots[k].out.name].node, k)
    {
      assert Projectable(c, |nodes|, slots[k]);
      MarkSurvives(c, nodes, slots, p, k, c.at[slots[k].out.name].node);
    }
    if CacheNamesDistinct(slots) {
      forall k | 0 <= k < |slots| && slots[k].out.consumed ensures HasMark(p.nodes, (slots[k].fi, slots[k].oi)) {
        LastIfDistinct(c, slots, work, k);
      }
    }
    if AllMarked(slots, p.nodes) {
      LastThenDistinct(c, slots);
    }
  }

  /** Every covered function has at least one operation. */
  ghost predicate AllHaveOps(fs: seq<PlanFunc>, covered: seq<nat>)
    requires InRange(fs, covered)
  {
    forall c | 0 <= c < |covered| :: fs[covered[c]].func.ops != []
  }

  lemma SourcesAreCovered(fs: seq<PlanFunc>, covered: seq<nat>, outs: map<Name, Position>, nodes: seq<Node>,
                          marked: seq<Node>, fi: nat)
    requires InRange(fs, covered) && AllHaveOps(fs, covered)
    requires |marked| == |nodes| == |Work(fs, covered)|
    requires forall i | 0 <= i < |nodes| ::
               NodeFor(fs, outs, Work(fs, covered), i, nodes[i]) && marked[i].funcs == nodes[i].funcs
    ensures SourceOf(marked, fi) <==> fi in covered
  {
    var work := Work(fs, covered);
    assert forall i | 0 <= i < |work| :: marked[i].funcs == [work[i].fi];
    WorkIsCovered(fs, covered);
    if fi in covered {
      var c :| 0 <= c < |covered| && covered[c] == fi;
      CoveredHasWork(fs, covered, c);
      var i :| 0 <= i < |work| && work[i].fi == fi;
      assert fi in marked[i].funcs;
    }
  }

  /** What a drafted plan consists of. */
  lemma DraftedParts(fs: seq<PlanFunc>, covered: seq<nat>, outs: map<Name, Position>, bindings: Bindings)
    returns (b: Built, p: Projection)
    requires InRange(fs, covered) && covered != [] && Drafted(fs, covered, outs, bindings).Some?
    ensures BuiltFor(fs, outs, Work(fs, covered), b)
    ensures ProjectedFor(ContextFor(fs, covered, bindings, b.at), b.nodes, Slots(fs, covered), |Slots(fs, covered)|, p)
    ensures CacheChecked(p, covered, bindings)
    ensures var plan := Drafted(fs, covered, outs, bindings).value;
            var last := fs[covered[|covered| - 1]].func.outputs;
            plan == Plan(p.nodes, p.outputs, LastVisible(last, b.at, |last|))
  {
    var slots := Slots(fs, covered);
    WorkInRange(fs, covered);
    b := Build(fs, outs, Work(fs, covered)).value;
    BuildIsBuilt(fs, outs, Work(fs, covered));
    var c := ContextFor(fs, covered, bindings, b.at);
    p := Project(c, b.nodes, slots).value;
    assert forall i | 0 <= i < |b.nodes| :: NodeFor(fs, outs, Work(fs, covered), i, b.nodes[i]);
    assert slots[..|slots|] == slots;
    ProjectIsProjected(c, b.nodes, slots, |slots|);
  }

  /** The node for an operation: its place, its kernel, its attributes. */
  ghost predicate NodeOf(it: Item, i: nat, node: Node) {
    && node.index == i && node.funcs == [it.fi] && node.attrs == it.op.attrs && HasKernel(it.op.opName)
    && node.kernel == (if it.op.opName == "linear" then "linear_transb"
                       else if it.op.opName == "scaled_dot_product_attention" then "attention_causal"
                       else it.op.opName)
  }

  lemma NodeForIs(fs: seq<PlanFunc>, outs: map<Name, Position>, work: seq<Item>, i: nat, node: Node)
    requires i < |work| && NodeFor(fs, outs, work, i, node)
    ensures NodeOf(work[i], i, node) && node.life == GraphPersistent && node.cache == None
  {
  }

  lemma NodeStays(c: Context, slots: seq<Slot>, i: nat, it: Item, orig: Node, node: Node)
    requires NodeRight(c, slots, |slots|, i, orig, node) && NodeOf(it, i, orig)
    ensures NodeOf(it, i, node)
    ensures (forall k | 0 <= k < |slots| :: !Refers(c, slots[k], i)) && orig.cache == None ==>
            node.life == orig.life && node.cache == None
  {
  }

  ghost predicate IsOutputName(slots: seq<Slot>, x: Name) { exists k :: 0 <= k < |slots| && slots[k].out.name == x }

  /** Node `i` of a drafted plan runs the kernel of the `i`-th covered operation, with its attributes; when
      the operation's result is no covered output, the node keeps the lifetime it was made with. */
  lemma DraftedNode(fs: seq<PlanFunc>, covered: seq<nat>, outs: map<Name, Position>, bindings: Bindings, i: nat)
    requires InRange(fs, covered) && covered != [] && Drafted(fs, covered, outs, bindings).Some?
    requires i < |Work(fs, covered)|
    ensures var nodes, it := Drafted(fs, covered, outs, bindings).value.nodes, Work(fs, covered)[i];
            && |nodes| == |Work(fs, covered)| && NodeOf(it, i, nodes[i])
            && (!IsOutputName(Slots(fs, covered), it.op.result) ==>
                   nodes[i].life == GraphPersistent && nodes[i].cache == None)
  {
    var b, p := DraftedParts(fs, covered, outs, bindings);
    var c, slots, work := ContextFor(fs, covered, bindings, b.at), Slots(fs, covered), Work(fs, covered);
    NodeForIs(fs, outs, work, i, b.nodes[i]);
    NodeStays(c, slots, i, work[i], b.nodes[i], p.nodes[i]);
    if !IsOutputName(slots, work[i].op.result) {
      NotCarried(c, slots, work, i);
    }
  }

  lemma NotCarried(c: Context, slots: seq<Slot>, work: seq<Item>, i: nat)
    requires MapFor(work, c.at) && i < |work| && !IsOutputName(slots, work[i].op.result)
    ensures forall k | 0 <= k < |slots| :: !Refers(c, slots[k], i)
  {
  }

  lemma MarksAccepted(slots: seq<Slot>, p: Projection, covered: seq<nat>, bindings: Bindings)
    requires forall pos :: pos in p.projected <==> exists k | 0 <= k < |slots| ::
               slots[k].out.consumed && pos == (slots[k].fi, slots[k].oi)
    requires CacheChecked(p, covered, bindings)
    requires forall k | 0 <= k < |slots| && slots[k].out.consumed ::
               (slots[k].fi, slots[k].oi) in bindings && slots[k].fi in covered
    ensures (forall pos: Position | pos in bindings && pos.0 in covered :: HasMark(p.nodes, pos))
            <==> AllMarked(slots, p.nodes)
  {
    if AllMarked(slots, p.nodes) {
      forall pos: Position | pos in bindings && pos.0 in covered ensures HasMark(p.nodes, pos) {
        assert pos in p.projected;
      }
    }
  }

  /** A plan that gets through building and finalisation is accepted by the validator exactly when the
      cache outputs of covered functions have distinct names. */
  lemma AcceptedIff(fs: seq<PlanFunc>, covered: seq<nat>, outs: map<Name, Position>, bindings: Bindings)
    requires InRange(fs, covered) && covered != [] && Increasing(covered) && AllHaveOps(fs, covered)
             && FirstOutputs(fs, outs)
    requires Drafted(fs, covered, outs, bindings).Some?
    ensures Accepted(Drafted(fs, covered, outs, bindings).value, fs, bindings)
            <==> CacheNamesDistinct(Slots(fs, covered))
  {
    var b, p := DraftedParts(fs, covered, outs, bindings);
    var slots, work := Slots(fs, covered), Work(fs, covered);
    var c := ContextFor(fs, covered, bindings, b.at);
    SlotsUnique(fs, covered);
    AllMarkedIff(c, b.nodes, slots, p, work);
    NodesAccepted(fs, covered, outs, b, p, c);
    SlotsAreOutputs(fs, covered);
    forall k | 0 <= k < |slots| && slots[k].out.consumed
      ensures (slots[k].fi, slots[k].oi) in bindings && slots[k].fi in covered {
      assert IsSlot(fs, covered, slots[k]) && Projectable(c, |b.nodes|, slots[k]);
    }
    MarksAccepted(slots, p, covered, bindings);
  }

  lemma NodesAccepted(fs: seq<PlanFunc>, covered: seq<nat>, outs: map<Name, Position>, b: Built, p: Projection,
                      c: Context)
    requires InRange(fs, covered) && covered != [] && AllHaveOps(fs, covered) && FirstOutputs(fs, outs)
    requires BuiltFor(fs, outs, Work(fs, covered), b)
             && ProjectedFor(c, b.nodes, Slots(fs, covered), |Slots(fs, covered)|, p)
    ensures p.nodes != []
    ensures forall i: nat | i < |p.nodes| :: NodeOk(fs, p.nodes, i)
    ensures forall fi: nat :: SourceOf(p.nodes, fi) <==> fi in covered
  {
    var work := Work(fs, covered);
    WorkInRange(fs, covered);
    CoveredHasWork(fs, covered, 0);
    forall i: nat | i < |p.nodes| ensures NodeOk(fs, p.nodes, i) && p.nodes[i].funcs == b.nodes[i].funcs {
      assert NodeRight(c, Slots(fs, covered), |Slots(fs, covered)|, i, b.nodes[i], p.nodes[i]);
      NodeAccepted(fs, outs, work, p.nodes, i, b.nodes[i]);
    }
    forall fi: nat ensures SourceOf(p.nodes, fi) <==> fi in covered {
      SourcesAreCovered(fs, covered, outs, b.nodes, p.nodes, fi);
    }
  }

  // ── Lifetimes ──

  /** A transient node carries a visible covered output with exactly one operand use in covered functions
      and none in the others. */
  lemma TransientUsedOnce(fs: seq<PlanFunc>, covered: seq<nat>, outs: map<Name, Position>, bindings: Bindings, i: nat)
    returns (k: nat)
    requires InRange(fs, covered) && covered != [] && Drafted(fs, covered, outs, bindings).Some?
    requires var nodes := Drafted(fs, covered, outs, bindings).value.nodes; i < |nodes| && nodes[i].life == Transient
    ensures k < |Slots(fs, covered)| && !Slots(fs, covered)[k].out.consumed
    ensures i < |Work(fs, covered)| && Work(fs, covered)[i].op.result == Slots(fs, covered)[k].out.name
    ensures CoveredUses(fs, covered)[Slots(fs, covered)[k].out.name] == 1
    ensures Slots(fs, covered)[k].out.name !in External(fs, covered)
  {
    var b, p := DraftedParts(fs, covered, outs, bindings);
    var slots := Slots(fs, covered);
    var c := ContextFor(fs, covered, bindings, b.at);
    assert NodeFor(fs, outs, Work(fs, covered), i, b.nodes[i]);
    assert NodeRight(c, slots, |slots|, i, b.nodes[i], p.nodes[i]);
    var l :| LastAt(c, slots, |slots|, i, l) && Transient == SlotLife(c, slots[l]);
    k := l;
  }

  ghost predicate NamesDistinct(slots: seq<Slot>) {
    forall j, k | 0 <= j < k < |slots| :: slots[j].out.name != slots[k].out.name
  }

  lemma LifeOfSlot(c: Context, nodes: seq<Node>, slots: seq<Slot>, p: Projection, work: seq<Item>, k: nat)
    requires ProjectedFor(c, nodes, slots, |slots|, p) && MapFor(work, c.at) && |work| == |nodes|
             && NamesDistinct(slots) && k < |slots|
    ensures slots[k].out.name in c.at && c.at[slots[k].out.name].node < |p.nodes|
    ensures p.nodes[c.at[slots[k].out.name].node].life == SlotLife(c, slots[k])
  {
    assert Projectable(c, |nodes|, slots[k]);
    var i := c.at[slots[k].out.name].node;
    assert NodeRight(c, slots, |slots|, i, nodes[i], p.nodes[i]);
    assert Refers(c, slots[k], i);
    var l :| LastAt(c, slots, |slots|, i, l) && p.nodes[i].life == SlotLife(c, slots[l]);
    assert slots[l].out.name == slots[k].out.name;
  }

  /** With distinct names, every covered output has the lifetime its consumers call for. */
  lemma LifetimesExact(fs: seq<PlanFunc>, covered: seq<nat>, outs: map<Name, Position>, bindings: Bindings, k: nat)
    requires InRange(fs, covered) && covered != [] && Drafted(fs, covered, outs, bindings).Some?
    requires k < |Slots(fs, covered)| && NamesDistinct(Slots(fs, covered))
    ensures var plan, s := Drafted(fs, covered, outs, bindings).value, Slots(fs, covered)[k];
            && k < |plan.outputs| && plan.outputs[k].func == s.fi && plan.outputs[k].output == s.oi
                && plan.outputs[k].value.node < |plan.nodes|
            && var life := plan.nodes[plan.outputs[k].value.node].life;
            && (life == CacheOwned <==> s.out.consumed)
            && (life == GraphPersistent <==> !s.out.consumed && s.out.name in External(fs, covered))
            && (life == Transient <==>
                   !s.out.consumed && s.out.name !in External(fs, covered) && CoveredUses(fs, covered)[s.out.name] == 1)
  {
    var b, p := DraftedParts(fs, covered, outs, bindings);
    LifeOfSlot(ContextFor(fs, covered, bindings, b.at), b.nodes, Slots(fs, covered), p, Work(fs, covered), k);
  }

  // ── Plan evaluation against function execution ──

  lemma {:induction false} EvalIgnoresMarks<V>(hal: Sem<V>, given: Given<V>, nodes: seq<Node>, marked: seq<Node>)
    requires |nodes| == |marked| && forall i | 0 <= i < |nodes| ::
             marked[i] == nodes[i].(life := marked[i].life, cache := marked[i].cache)
    ensures EvalNodes(hal, given, marked) == EvalNodes(hal, given, nodes)
  {
    if nodes != [] {
      EvalIgnoresMarks(hal, given, nodes[..|nodes| - 1], marked[..|nodes| - 1]);
    }
  }

  function Bodies(fs: seq<PlanFunc>): seq<Splitter.Func> { seq(|fs|, i requires 0 <= i < |fs| => fs[i].func) }

  /** All operations of the module, in order. */
  function ModuleOps(fs: seq<PlanFunc>): seq<Op> { Interpreters.AllOps(Bodies(fs)) }

  lemma ModuleOpsSnoc(fs: seq<PlanFunc>)
    requires fs != []
    ensures ModuleOps(fs) == ModuleOps(fs[..|fs| - 1]) + fs[|fs| - 1].func.ops
  {
    assert Bodies(fs)[..|fs| - 1] == Bodies(fs[..|fs| - 1]);
  }

  lemma {:induction false} OpInModule(fs: seq<PlanFunc>, fi: nat, op: Op)
    requires fi < |fs| && op in fs[fi].func.ops
    ensures op in ModuleOps(fs)
    decreases |fs|
  {
    ModuleOpsSnoc(fs);
    if fi < |fs| - 1 {
      OpInModule(fs[..|fs| - 1], fi, op);
    }
  }

  lemma ModuleSolvesWork<V(!new)>(sem: Sem<V>, fs: seq<PlanFunc>, covered: seq<nat>, env: Env<V>)
    requires InRange(fs, covered) && Solves(sem, ModuleOps(fs), env)
    ensures SolvesWork(sem, Work(fs, covered), env)
  {
    var work := Work(fs, covered);
    WorkIsCovered(fs, covered);
    forall i | 0 <= i < |work| ensures work[i].op in ModuleOps(fs) {
      OpInModule(fs, work[i].fi, work[i].op);
    }
  }

  lemma PlanNodesCompute<V(!new)>(hal: Sem<V>, sem: Sem<V>, given: Given<V>, fs: seq<PlanFunc>, covered: seq<nat>,
                                  outs: map<Name, Position>, env: Env<V>, c: Context, b: Built, p: Projection)
    requires InRange(fs, covered) && FirstOutputs(fs, outs) && Implements(hal, sem) && GivenBy(given, fs, covered, env)
    requires Solves(sem, ModuleOps(fs), env) && BuiltFor(fs, outs, Work(fs, covered), b)
    requires ProjectedFor(c, b.nodes, Slots(fs, covered), |Slots(fs, covered)|, p)
    requires forall i | 0 <= i < |b.nodes| :: ReadsUncovered(b.nodes[i], covered)
    ensures EvalNodes(hal, given, p.nodes).Some?
    ensures ValuesFor(EvalNodes(hal, given, p.nodes).value, Work(fs, covered), env)
  {
    var work := Work(fs, covered);
    ModuleSolvesWork(sem, fs, covered, env);
    NodesCompute(hal, sem, given, fs, covered, outs, work, env, b.nodes, |work|);
    assert b.nodes[..|work|] == b.nodes && work[..|work|] == work;
    forall i | 0 <= i < |b.nodes| ensures p.nodes[i]
        == b.nodes[i].(life := p.nodes[i].life, cache := p.nodes[i].cache) {
      assert NodeRight(c, Slots(fs, covered), |Slots(fs, covered)|, i, b.nodes[i], p.nodes[i]);
    }
    EvalIgnoresMarks(hal, given, b.nodes, p.nodes);
  }

  ghost predicate CarriesOutput<V(!new)>(plan: Plan, vals: seq<V>, k: int, fi: nat, oi: nat, v: V) {
    && 0 <= k < |plan.outputs| && plan.outputs[k].func == fi && plan.outputs[k].output == oi
    && plan.outputs[k].value.slot == 0 && plan.outputs[k].value.node < |vals| && vals[plan.outputs[k].value.node] == v
  }

  // Functions keep their order, so covered operations appear in module order.

  ghost function Start(fs: seq<PlanFunc>, fi: nat): nat
    requires fi <= |fs|
  {
    |ModuleOps(fs[..fi])|
  }

  lemma {:induction false} OpPosition(fs: seq<PlanFunc>, fi: nat, q: nat)
    requires fi < |fs| && q < |fs[fi].func.ops|
    ensures Start(fs, fi) + q < |ModuleOps(fs)| && ModuleOps(fs)[Start(fs, fi) + q] == fs[fi].func.ops[q]
    decreases |fs|
  {
    var front := fs[..|fs| - 1];
    ModuleOpsSnoc(fs);
    if fi < |fs| - 1 {
      OpPosition(front, fi, q);
      assert front[..fi] == fs[..fi];
    }
  }

  lemma {:induction false} StartGrows(fs: seq<PlanFunc>, a: nat, b: nat)
    requires a < b <= |fs|
    ensures Start(fs, a) + |fs[a].func.ops| <= Start(fs, b)
    decreases b
  {
    ModuleOpsSnoc(fs[..b]);
    assert fs[..b][..b - 1] == fs[..b - 1];
    if a < b - 1 {
      StartGrows(fs, a, b - 1);
    }
  }

  ghost predicate Embeds(work: seq<Item>, all: seq<Op>, f: seq<nat>, bound: nat) {
    && |f| == |work| && (forall i | 0 <= i < |f| :: f[i] < bound && f[i] < |all| && all[f[i]] == work[i].op)
    && forall i, j | 0 <= i < j < |f| :: f[i] < f[j]
  }

  lemma EmbedsMore(fs: seq<PlanFunc>, work: seq<Item>, fi: nat, f: seq<nat>) returns (g: seq<nat>)
    requires fi < |fs| && Embeds(work, ModuleOps(fs), f, Start(fs, fi))
    ensures Embeds(work + ItemsOf(fi, fs[fi].func.ops), ModuleOps(fs), g, Start(fs, fi + 1))
  {
    var start, ops := Start(fs, fi), fs[fi].func.ops;
    var tail: seq<nat> := seq(|ops|, q requires 0 <= q < |ops| => start + q);
    g := f + tail;
    StartGrows(fs, fi, fi + 1);
    forall i | 0 <= i < |g| ensures g[i] < |ModuleOps(fs)| && ModuleOps(fs)[g[i]] == (work + ItemsOf(fi, ops))[i].op {
      if i >= |f| {
        OpPosition(fs, fi, i - |f|);
      }
    }
  }

  lemma EmbedsWider(work: seq<Item>, all: seq<Op>, f: seq<nat>, a: nat, b: nat)
    requires Embeds(work, all, f, a) && a <= b
    ensures Embeds(work, all, f, b)
  {
  }

  /** Where the operations after the last covered function start. */
  ghost function NextStart(fs: seq<PlanFunc>, covered: seq<nat>): nat
    requires InRange(fs, covered)
  {
    if covered == [] then 0 else Start(fs, covered[|covered| - 1] + 1)
  }

  lemma NextStartBelow(fs: seq<PlanFunc>, covered: seq<nat>, fi: nat)
    requires InRange(fs, covered) && fi < |fs| && (covered != [] ==> covered[|covered| - 1] < fi)
    ensures NextStart(fs, covered) <= Start(fs, fi)
  {
    if covered != [] && covered[|covered| - 1] + 1 < fi {
      StartGrows(fs, covered[|covered| - 1] + 1, fi);
    }
  }

  lemma {:induction false} WorkEmbeds(fs: seq<PlanFunc>, covered: seq<nat>) returns (f: seq<nat>)
    requires InRange(fs, covered) && Increasing(covered)
    ensures Embeds(Work(fs, covered), ModuleOps(fs), f, NextStart(fs, covered))
  {
    if covered == [] {
      f := [];
    } else {
      var n := |covered| - 1;
      var front, last := covered[..n], covered[n];
      f := WorkEmbeds(fs, front);
      NextStartBelow(fs, front, last);
      EmbedsWider(Work(fs, front), ModuleOps(fs), f, NextStart(fs, front), Start(fs, last));
      f := EmbedsMore(fs, Work(fs, front), last, f);
      WorkSnoc(fs, covered, front, last);
    }
  }

  lemma WorkSnoc(fs: seq<PlanFunc>, covered: seq<nat>, front: seq<nat>, last: nat)
    requires InRange(fs, covered) && covered == front + [last] && InRange(fs, front) && last < |fs|
    ensures Work(fs, covered) == Work(fs, front) + ItemsOf(last, fs[last].func.ops)
    ensures NextStart(fs, covered) == Start(fs, last + 1)
  {
    assert covered[..|covered| - 1] == front;
  }

  /** In SSA form, a covered result read by a covered operation was produced earlier. */
  lemma ProducedEarlier(fs: seq<PlanFunc>, covered: seq<nat>, known: set<Name>, i: nat, j: nat)
    requires InRange(fs, covered) && Increasing(covered) && SsaForm(ModuleOps(fs), known)
    requires i < |Work(fs, covered)| && j < |Work(fs, covered)|
    requires Work(fs, covered)[j].op.result in Uses(Work(fs, covered)[i].op)
    ensures j < i
  {
    var work, all := Work(fs, covered), ModuleOps(fs);
    var f := WorkEmbeds(fs, covered);
    var x := work[j].op.result;
    SsaFormByIndex(all, known);
    assert all[f[j]].result == x && x in Uses(all[f[i]]);
    var g :| 0 <= g < f[i] && all[g].result == x;
    assert g == f[j];
  }

  lemma CoveredOutputHasNode(fs: seq<PlanFunc>, covered: seq<nat>, c: Context, nodes: seq<Node>, p: Projection,
                             fi: nat, oi: nat)
    requires InRange(fs, covered) && fi in covered && oi < |fs[fi].func.outputs|
    requires ProjectedFor(c, nodes, Slots(fs, covered), |Slots(fs, covered)|, p)
    ensures fs[fi].func.outputs[oi].name in c.at
  {
    var slots := Slots(fs, covered);
    var q :| 0 <= q < |covered| && covered[q] == fi;
    OutputHasSlot(fs, covered, q, oi);
    var k :| 0 <= k < |slots| && slots[k] == Slot(fi, oi, fs[fi].func.outputs[oi]);
    assert Projectable(c, |nodes|, slots[k]);
  }

  lemma NoCoveredReads(fs: seq<PlanFunc>, covered: seq<nat>, outs: map<Name, Position>, known: set<Name>, c: Context,
                       b: Built, p: Projection, i: nat)
    requires InRange(fs, covered) && Increasing(covered) && FirstOutputs(fs, outs) && SsaForm(ModuleOps(fs), known)
    requires BuiltFor(fs, outs, Work(fs, covered), b) && c.at == b.at
    requires ProjectedFor(c, b.nodes, Slots(fs, covered), |Slots(fs, covered)|, p) && i < |b.nodes|
    ensures ReadsUncovered(b.nodes[i], covered)
  {
    var work, node := Work(fs, covered), b.nodes[i];
    assert NodeFor(fs, outs, work, i, node);
    forall s | s in node.inputs && s.FromFunc? ensures s.func !in covered {
      var x := InputName(fs, outs, work, i, node, s);
      InputUncovered(fs, covered, outs, known, c, b, p, i, x, s);
    }
  }

  lemma InputName(fs: seq<PlanFunc>, outs: map<Name, Position>, work: seq<Item>, i: nat, node: Node, s: Source)
    returns (x: Name)
    requires i < |work| && NodeFor(fs, outs, work, i, node) && s in node.inputs
    ensures x in Uses(work[i].op) && Carries(fs, outs, work, i, x, s)
  {
    var a :| 0 <= a < |node.inputs| && node.inputs[a] == s;
    x := work[i].op.operands[a];
  }

  /** An output a node reads by function and slot belongs to no covered function. */
  lemma InputUncovered(fs: seq<PlanFunc>, covered: seq<nat>, outs: map<Name, Position>, known: set<Name>, c: Context,
                       b: Built, p: Projection, i: nat, x: Name, s: Source)
    requires InRange(fs, covered) && Increasing(covered) && FirstOutputs(fs, outs) && SsaForm(ModuleOps(fs), known)
    requires MapFor(Work(fs, covered), b.at) && c.at == b.at && s.FromFunc?
    requires ProjectedFor(c, b.nodes, Slots(fs, covered), |Slots(fs, covered)|, p) && i < |Work(fs, covered)|
    requires x in Uses(Work(fs, covered)[i].op)
    requires Carries(fs, outs, Work(fs, covered), i, x, s)
    ensures s.func !in covered
  {
    if s.func in covered {
      assert fs[s.func].func.outputs[s.output].name == x;
      CoveredOutputHasNode(fs, covered, c, b.nodes, p, s.func, s.output);
      ProducedEarlier(fs, covered, known, i, b.at[x].node);
    }
  }

  /** Main theorem.  For a module in SSA form, evaluating the plan node by node, with weights, constants and
      uncovered functions' outputs given, yields for every output of every covered function the value that
      executing the functions yields. */
  lemma PlanYieldsOutputs<V(!new)>(hal: Sem<V>, sem: Sem<V>, given: Given<V>, fs: seq<PlanFunc>, covered: seq<nat>,
                                   outs: map<Name, Position>, bindings: Bindings, init: Env<V>, c: nat, oi: nat)
    requires InRange(fs, covered) && covered != [] && Increasing(covered) && FirstOutputs(fs, outs)
    requires Drafted(fs, covered, outs, bindings).Some?
    requires Implements(hal, sem) && SsaForm(ModuleOps(fs), init.Keys)
    requires Run(sem, ModuleOps(fs), init).Some? && GivenBy(given, fs, covered, Run(sem, ModuleOps(fs), init).value)
    requires c < |covered| && oi < |fs[covered[c]].func.outputs|
    ensures var env, plan := Run(sem, ModuleOps(fs), init).value, Drafted(fs, covered, outs, bindings).value;
            && EvalNodes(hal, given, plan.nodes).Some?
            && fs[covered[c]].func.outputs[oi].name in env
            && exists k :: CarriesOutput(plan, EvalNodes(hal, given, plan.nodes).value, k, covered[c], oi,
                env[fs[covered[c]].func.outputs[oi].name])
  {
    var env, plan := Run(sem, ModuleOps(fs), init).value, Drafted(fs, covered, outs, bindings).value;
    var slots := Slots(fs, covered);
    RunSolves(sem, ModuleOps(fs), init);
    var b, p := DraftedParts(fs, covered, outs, bindings);
    var ctx := ContextFor(fs, covered, bindings, b.at);
    forall i | 0 <= i < |b.nodes| ensures ReadsUncovered(b.nodes[i], covered) {
      NoCoveredReads(fs, covered, outs, init.Keys, ctx, b, p, i);
    }
    PlanNodesCompute(hal, sem, given, fs, covered, outs, env, ctx, b, p);
    OutputHasSlot(fs, covered, c, oi);
    var k :| 0 <= k < |slots| && slots[k] == Slot(covered[c], oi, fs[covered[c]].func.outputs[oi]);
    assert Projectable(ctx, |b.nodes|, slots[k]);
    assert CarriesOutput(plan, EvalNodes(hal, given, plan.nodes).value, k, covered[c], oi, env[slots[k].out.name]);
  }

  // ── One name serving as both key and value ──

  function SharedOps(): seq<Op> {
    [Op("layer_norm", ["x"], "n", map[], ""), Op("linear", ["n"], "q", map[], ""), Op("linear", ["n"], "k", map[], "")]
  }

  function SharedOutputs(): seq<Output> {
    [Splitter.Output("q", false), Splitter.Output("k", true), Splitter.Output("k", true)]
  }

  function SharedAttention(): Op { Op("scaled_dot_product_attention", ["q", "k", "k"], "o", map[], "") }

  /** A module with an attention on [q, k, k], of the shape the splitter emits then: the key is listed twice,
      and both slots are bound to the value's slab. */
  function SharedModule(): seq<PlanFunc> {
    [PlanFunc("main_0a", Splitter.Func([], SharedOutputs(), SharedOps()), {"x"}, {}),
     PlanFunc("main_0b", Splitter.Func([], [Splitter.Output("o", false)], [SharedAttention()]), {}, {})]
  }

  const SHARED_BINDINGS: Bindings := map[(0, 1) := "v", (0, 2) := "v"]

  /** What the proofs use of the module, as one statement about variables. */
  ghost predicate SharedParts(fs: seq<PlanFunc>, covered: seq<nat>, work: seq<Item>, slots: seq<Slot>) {
    && fs == SharedModule() && covered == [0, 1] && InRange(fs, covered)
    && work == Work(fs, covered) && work == ItemsOf(0, SharedOps()) + [Item(1, SharedAttention())]
    && slots == Slots(fs, covered)
    && slots == SlotsOf(0, SharedOutputs()) + [Slot(1, 0, Splitter.Output("o", false))]
  }

  lemma SharedWork() returns (fs: seq<PlanFunc>, covered: seq<nat>, work: seq<Item>, slots: seq<Slot>)
    ensures SharedParts(fs, covered, work, slots)
  {
    fs, covered := SharedModule(), [0, 1];
    work, slots := Work(fs, covered), Slots(fs, covered);
    assert [0, 1][..1] == [0] && [0][..0] == [];
    assert Work(fs, [0]) == ItemsOf(0, SharedOps());
    assert Slots(fs, [0]) == SlotsOf(0, SharedOutputs());
  }

  lemma SharedBuilds(fs: seq<PlanFunc>, covered: seq<nat>, work: seq<Item>, slots: seq<Slot>, outs: map<Name, Position>)
    requires SharedParts(fs, covered, work, slots)
    ensures ItemsInRange(fs, work) && Build(fs, outs, work).Some?
  {
    SharedLinears(fs, outs, work);
    SharedLast(fs, outs, work);
    BuildAll(fs, outs, work);
  }

  lemma BuildAll(fs: seq<PlanFunc>, outs: map<Name, Position>, work: seq<Item>)
    requires ItemsInRange(fs, work) && AllBuildable(fs, outs, work, |work|)
    ensures Build(fs, outs, work).Some?
  {
    BuildSucceedsIff(fs, outs, work, |work|);
    assert work[..|work|] == work;
  }

  lemma SharedLinears(fs: seq<PlanFunc>, outs: map<Name, Position>, work: seq<Item>)
    requires fs == SharedModule() && work == ItemsOf(0, SharedOps()) + [Item(1, SharedAttention())]
    ensures Buildable(fs, outs, work, 0) && Buildable(fs, outs, work, 1) && Buildable(fs, outs, work, 2)
  {
    assert work[0] == Item(0, SharedOps()[0]) && work[1] == Item(0, SharedOps()[1])
        && work[2] == Item(0, SharedOps()[2]);
    assert Resolvable(fs, outs, work, 0, "x");
    assert Resolvable(fs, outs, work, 1, "n") && Resolvable(fs, outs, work, 2, "n") by {
      assert work[0].op.result == "n";
    }
  }

  lemma SharedLast(fs: seq<PlanFunc>, outs: map<Name, Position>, work: seq<Item>)
    requires fs == SharedModule() && work == ItemsOf(0, SharedOps()) + [Item(1, SharedAttention())]
    ensures Buildable(fs, outs, work, 3)
  {
    assert work[1].op.result == "q" && work[2].op.result == "k" && work[3].op == SharedAttention();
    assert Resolvable(fs, outs, work, 3, "q") && Resolvable(fs, outs, work, 3, "k");
  }

  ghost predicate Unmarked(work: seq<Item>, b: Built, c: Context, bindings: Bindings) {
    && MapFor(work, b.at) && |b.nodes| == |work| && (forall i | 0 <= i < |b.nodes| :: b.nodes[i].cache.None?)
    && c.at == b.at && c.bindings == bindings
  }

  /** A sufficient condition on what is built and projected. */
  lemma DraftedIf(fs: seq<PlanFunc>, covered: seq<nat>, outs: map<Name, Position>, bindings: Bindings, work: seq<Item>,
                  slots: seq<Slot>)
    requires InRange(fs, covered) && covered != [] && Work(fs, covered) == work && Slots(fs, covered) == slots
    requires ItemsInRange(fs, work) && Build(fs, outs, work).Some?
    requires forall b: Built, c: Context | Unmarked(work, b, c, bindings) ::
               Project(c, b.nodes, slots).Some? && CacheChecked(Project(c, b.nodes, slots).value, covered, bindings)
    ensures Drafted(fs, covered, outs, bindings).Some?
  {
    var b := Build(fs, outs, work).value;
    BuildIsBuilt(fs, outs, work);
    assert forall i | 0 <= i < |b.nodes| :: NodeFor(fs, outs, work, i, b.nodes[i]);
    var c := ContextFor(fs, covered, bindings, b.at);
    assert Unmarked(work, b, c, bindings);
  }

  lemma SharedDrafted(fs: seq<PlanFunc>, covered: seq<nat>, work: seq<Item>, slots: seq<Slot>,
                      outs: map<Name, Position>)
    requires SharedParts(fs, covered, work, slots)
    ensures Drafted(fs, covered, outs, SHARED_BINDINGS).Some?
  {
    SharedBuilds(fs, covered, work, slots, outs);
    forall b: Built, c: Context | Unmarked(work, b, c, SHARED_BINDINGS)
      ensures Project(c, b.nodes, slots).Some?
              && CacheChecked(Project(c, b.nodes, slots).value, covered, SHARED_BINDINGS)
    {
      SharedProjects(c, b, work, slots);
    }
    DraftedIf(fs, covered, outs, SHARED_BINDINGS, work, slots);
  }

  lemma NotAcceptedIf(fs: seq<PlanFunc>, covered: seq<nat>, outs: map<Name, Position>, bindings: Bindings, j: nat,
                      k: nat)
    requires InRange(fs, covered) && covered != [] && Increasing(covered) && AllHaveOps(fs, covered)
             && FirstOutputs(fs, outs)
    requires Drafted(fs, covered, outs, bindings).Some?
    requires j < k < |Slots(fs, covered)| && Slots(fs, covered)[j].out == Slots(fs, covered)[k].out
             && Slots(fs, covered)[k].out.consumed
    ensures !Accepted(Drafted(fs, covered, outs, bindings).value, fs, bindings)
  {
    AcceptedIff(fs, covered, outs, bindings);
  }

  lemma SharedSlots(fs: seq<PlanFunc>, covered: seq<nat>, work: seq<Item>, slots: seq<Slot>)
    requires SharedParts(fs, covered, work, slots)
    ensures Increasing(covered) && AllHaveOps(fs, covered)
    ensures |slots| == 4 && slots[1].out == slots[2].out && slots[2].out.consumed
  {
  }

  /** The draft goes through, both bindings being projected, yet the validator turns it down: the second
      mark replaces the first. */
  lemma SharedNameRejected(outs: map<Name, Position>)
    requires FirstOutputs(SharedModule(), outs)
    ensures InRange(SharedModule(), [0, 1]) && Drafted(SharedModule(), [0, 1], outs, SHARED_BINDINGS).Some?
    ensures !Accepted(Drafted(SharedModule(), [0, 1], outs, SHARED_BINDINGS).value, SharedModule(), SHARED_BINDINGS)
  {
    var fs, covered, work, slots := SharedWork();
    SharedDrafted(fs, covered, work, slots, outs);
    SharedSlots(fs, covered, work, slots);
    NotAcceptedIf(fs, covered, outs, SHARED_BINDINGS, 1, 2);
  }

  lemma SharedProjects(c: Context, b: Built, work: seq<Item>, slots: seq<Slot>)
    requires |work| == 4 && work[1].op.result == "q" && work[2].op.result == "k" && work[3].op.result == "o"
    requires MapFor(work, b.at) && c.at == b.at && |b.nodes| == 4 && c.bindings == SHARED_BINDINGS
    requires forall i | 0 <= i < |b.nodes| :: b.nodes[i].cache.None?
    requires slots == SlotsOf(0, SharedOutputs()) + [Slot(1, 0, Splitter.Output("o", false))]
    ensures Project(c, b.nodes, slots).Some? && CacheChecked(Project(c, b.nodes, slots).value, [0, 1], SHARED_BINDINGS)
  {
    assert "q" in b.at && "k" in b.at && "o" in b.at;
    ProjectIsProjected(c, b.nodes, slots, 4);
    assert slots[..4] == slots;
    var p := Project(c, b.nodes, slots).value;
    assert (0, 1) in p.projected && (0, 2) in p.projected by {
      assert slots[1].out.consumed && slots[2].out.consumed;
    }
    forall i | 0 <= i < |p.nodes| ensures MarkBound(p.nodes[i], SHARED_BINDINGS) {
      assert NodeRight(c, slots, 4, i, b.nodes[i], p.nodes[i]);
    }
  }
}
