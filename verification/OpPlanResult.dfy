/** What a generated plan says about outputs, caches and the result of the module, and what acceptance is worth. */
module OpPlanResult {
  import opened Options
  import opened Lists
  import opened Ssa
  import opened OpPlan
  import opened OpPlanProof

  // ── Outputs ──

  ghost predicate IsOutput(fs: seq<PlanFunc>, covered: seq<nat>, fi: nat, oi: nat) {
    fi in covered && fi < |fs| && oi < |fs[fi].func.outputs|
  }

  ghost predicate ListedAt(plan: Plan, fi: nat, oi: nat, k: nat) {
    k < |plan.outputs| && plan.outputs[k].func == fi && plan.outputs[k].output == oi
  }

  ghost predicate PositionBefore(a: Position, b: Position) { a.0 < b.0 || (a.0 == b.0 && a.1 < b.1) }

  /** The outputs of the plan are those of the covered functions, each once, in order and with its visibility. */
  ghost predicate OutputsListed(fs: seq<PlanFunc>, covered: seq<nat>, plan: Plan) {
    && (forall k: nat | k < |plan.outputs| ::
          var o := plan.outputs[k];
          IsOutput(fs, covered, o.func, o.output) && o.consumed == fs[o.func].func.outputs[o.output].consumed)
    && (forall fi: nat, oi: nat | IsOutput(fs, covered, fi, oi) :: exists k: nat :: ListedAt(plan, fi, oi, k))
    && forall j, k | 0 <= j < k < |plan.outputs| ::
         PositionBefore((plan.outputs[j].func, plan.outputs[j].output), (plan.outputs[k].func, plan.outputs[k].output))
  }

  ghost predicate SlotsInOrder(slots: seq<Slot>) {
    forall j, k | 0 <= j < k < |slots| :: PositionBefore((slots[j].fi, slots[j].oi), (slots[k].fi, slots[k].oi))
  }

  lemma {:induction false} SlotsOrdered(fs: seq<PlanFunc>, covered: seq<nat>)
    requires InRange(fs, covered) && Increasing(covered)
    ensures SlotsInOrder(Slots(fs, covered))
  {
    if covered != [] {
      var n := |covered| - 1;
      var front, last := Slots(fs, covered[..n]), SlotsOf(covered[n], fs[covered[n]].func.outputs);
      SlotsOrdered(fs, covered[..n]);
      SlotsAreOutputs(fs, covered[..n]);
      forall j | 0 <= j < |front| ensures front[j].fi < covered[n] {
        assert IsSlot(fs, covered[..n], front[j]);
        var c :| 0 <= c < n && covered[c] == front[j].fi;
      }
      OrderJoined(front, last, covered[n]);
    }
  }

  lemma OrderJoined(front: seq<Slot>, last: seq<Slot>, f: nat)
    requires SlotsInOrder(front) && SlotsInOrder(last)
    requires (forall j | 0 <= j < |front| :: front[j].fi < f) && forall k | 0 <= k < |last| :: last[k].fi == f
    ensures SlotsInOrder(front + last)
  {
  }

  lemma PlanOutputs(fs: seq<PlanFunc>, covered: seq<nat>, outs: map<Name, Position>, bindings: Bindings)
    requires InRange(fs, covered) && covered != [] && Increasing(covered) && Drafted(fs, covered, outs, bindings).Some?
    ensures OutputsListed(fs, covered, Drafted(fs, covered, outs, bindings).value)
  {
    var b, p := DraftedParts(fs, covered, outs, bindings);
    var c, slots := ContextFor(fs, covered, bindings, b.at), Slots(fs, covered);
    SlotsAreOutputs(fs, covered);
    SlotsOrdered(fs, covered);
    OutputsFromSlots(fs, covered, c, b.nodes, slots, p, Drafted(fs, covered, outs, bindings).value);
  }

  lemma OutputsFromSlots(fs: seq<PlanFunc>, covered: seq<nat>, c: Context, nodes: seq<Node>, slots: seq<Slot>,
                         p: Projection, plan: Plan)
    requires InRange(fs, covered) && slots == Slots(fs, covered) && ProjectedFor(c, nodes, slots, |slots|, p)
    requires (forall k | 0 <= k < |slots| :: IsSlot(fs, covered, slots[k])) && SlotsInOrder(slots)
    requires plan.outputs == p.outputs
    ensures OutputsListed(fs, covered, plan)
  {
    forall k: nat | k < |plan.outputs|
      ensures plan.outputs[k].func == slots[k].fi && plan.outputs[k].output == slots[k].oi
              && plan.outputs[k].consumed == slots[k].out.consumed && IsSlot(fs, covered, slots[k])
    {
    }
    forall fi: nat, oi: nat | IsOutput(fs, covered, fi, oi) ensures exists k: nat :: ListedAt(plan, fi, oi, k) {
      var q :| 0 <= q < |covered| && covered[q] == fi;
      OutputHasSlot(fs, covered, q, oi);
      var k :| 0 <= k < |slots| && slots[k] == Slot(fi, oi, fs[fi].func.outputs[oi]);
      assert ListedAt(plan, fi, oi, k);
    }
  }

  // ── Cache marks ──

  /** Output `oi` of covered function `fi` is a cache output, and its node is marked with its slab and position. */
  ghost predicate MarkedFor(plan: Plan, bindings: Bindings, fi: nat, oi: nat) {
    exists k: nat ::
      && ListedAt(plan, fi, oi, k) && plan.outputs[k].value.node < |plan.nodes| && (fi, oi) in bindings
      && plan.nodes[plan.outputs[k].value.node].cache == Some(CacheMark(bindings[(fi, oi)], fi, oi))
  }

  /** Marks are those of cache outputs; when cache outputs have distinct names, every one of them is marked. */
  lemma CacheMarks(fs: seq<PlanFunc>, covered: seq<nat>, outs: map<Name, Position>, bindings: Bindings)
    requires InRange(fs, covered) && covered != [] && Increasing(covered) && Drafted(fs, covered, outs, bindings).Some?
    requires CacheNamesDistinct(Slots(fs, covered))
    ensures var plan := Drafted(fs, covered, outs, bindings).value;
            && (forall fi: nat, oi: nat | IsOutput(fs, covered, fi, oi) && fs[fi].func.outputs[oi].consumed ::
                  MarkedFor(plan, bindings, fi, oi))
            && forall i: nat | i < |plan.nodes| && plan.nodes[i].cache.Some? ::
                 var m := plan.nodes[i].cache.value;
                 IsOutput(fs, covered, m.func, m.output) && fs[m.func].func.outputs[m.output].consumed
  {
    var plan := Drafted(fs, covered, outs, bindings).value;
    var b, p := DraftedParts(fs, covered, outs, bindings);
    var c, slots := ContextFor(fs, covered, bindings, b.at), Slots(fs, covered);
    SlotsAreOutputs(fs, covered);
    forall fi: nat, oi: nat | IsOutput(fs, covered, fi, oi) && fs[fi].func.outputs[oi].consumed
      ensures MarkedFor(plan, bindings, fi, oi)
    {
      var q :| 0 <= q < |covered| && covered[q] == fi;
      OutputHasSlot(fs, covered, q, oi);
      var k :| 0 <= k < |slots| && slots[k] == Slot(fi, oi, fs[fi].func.outputs[oi]);
      SlotMarked(c, b.nodes, slots, p, Work(fs, covered), k);
      assert ListedAt(plan, fi, oi, k);
    }
    forall i: nat | i < |plan.nodes| && plan.nodes[i].cache.Some?
      ensures var m := plan.nodes[i].cache.value;
              IsOutput(fs, covered, m.func, m.output) && fs[m.func].func.outputs[m.output].consumed
    {
      var l := MarkSource(c, b.nodes, slots, p, i);
      assert IsSlot(fs, covered, slots[l]);
    }
  }

  lemma SlotMarked(c: Context, nodes: seq<Node>, slots: seq<Slot>, p: Projection, work: seq<Item>, k: nat)
    requires ProjectedFor(c, nodes, slots, |slots|, p) && MapFor(work, c.at) && CacheNamesDistinct(slots)
    requires k < |slots| && slots[k].out.consumed
    ensures (slots[k].fi, slots[k].oi) in c.bindings && slots[k].out.name in c.at
    ensures c.at[slots[k].out.name].node < |p.nodes|
    ensures p.nodes[c.at[slots[k].out.name].node].cache == Some(MarkOf(c, slots[k]))
  {
    assert Projectable(c, |nodes|, slots[k]);
    var i := c.at[slots[k].out.name].node;
    LastIfDistinct(c, slots, work, k);
    assert NodeRight(c, slots, |slots|, i, nodes[i], p.nodes[i]);
    RightMark(c, slots, i, p.nodes[i].cache, k);
  }

  lemma RightMark(c: Context, slots: seq<Slot>, i: int, cache: Option<CacheMark>, k: nat)
    requires CacheRight(c, slots, |slots|, i, cache) && LastCacheAt(c, slots, |slots|, i, k)
    requires (slots[k].fi, slots[k].oi) in c.bindings
    ensures cache == Some(MarkOf(c, slots[k]))
  {
    assert cache.Some?;
    var l :| LastCacheAt(c, slots, |slots|, i, l) && (slots[l].fi, slots[l].oi) in c.bindings
             && cache.value == MarkOf(c, slots[l]);
    assert l == k;
  }

  // ── The result of the module ──

  /** The last visible output of a function. */
  ghost predicate LastVisibleAt(outputs: seq<Output>, i: nat) {
    i < |outputs| && !outputs[i].consumed && forall j | i < j < |outputs| :: outputs[j].consumed
  }

  /** The plan's global output is the node of the last visible output of the last covered function, and there is
      none exactly when that function shows nothing. */
  lemma GlobalOutput<V(!new)>(hal: Sem<V>, sem: Sem<V>, given: Given<V>, fs: seq<PlanFunc>, covered: seq<nat>,
                              outs: map<Name, Position>, bindings: Bindings, init: Env<V>, oi: nat)
    requires InRange(fs, covered) && covered != [] && Increasing(covered) && FirstOutputs(fs, outs)
    requires Drafted(fs, covered, outs, bindings).Some?
    requires Implements(hal, sem) && SsaForm(ModuleOps(fs), init.Keys)
    requires Run(sem, ModuleOps(fs), init).Some? && GivenBy(given, fs, covered, Run(sem, ModuleOps(fs), init).value)
    ensures var plan, last := Drafted(fs, covered, outs, bindings).value, fs[covered[|covered| - 1]].func.outputs;
            && (plan.globalOutput.None? <==> forall j | 0 <= j < |last| :: last[j].consumed)
            && (LastVisibleAt(last, oi) ==>
                  && plan.globalOutput.Some? && plan.globalOutput.value.slot == 0
                  && EvalNodes(hal, given, plan.nodes).Some?
                  && var vals, env := EvalNodes(hal, given, plan.nodes).value, Run(sem, ModuleOps(fs), init).value;
                  && plan.globalOutput.value.node < |vals| && last[oi].name in env
                  && vals[plan.globalOutput.value.node] == env[last[oi].name])
  {
    var plan, f := Drafted(fs, covered, outs, bindings).value, covered[|covered| - 1];
    var last := fs[f].func.outputs;
    var b, p := DraftedParts(fs, covered, outs, bindings);
    var c := ContextFor(fs, covered, bindings, b.at);
    forall j: nat | j < |last| ensures last[j].name in b.at {
      CoveredOutputHasNode(fs, covered, c, b.nodes, p, f, j);
    }
    VisibleFound(last, b.at, oi);
    if LastVisibleAt(last, oi) {
      PlanYieldsOutputs(hal, sem, given, fs, covered, outs, bindings, init, |covered| - 1, oi);
      var env, vals := Run(sem, ModuleOps(fs), init).value, EvalNodes(hal, given, plan.nodes).value;
      var k :| CarriesOutput(plan, vals, k, f, oi, env[last[oi].name]);
      CarriedByName(fs, covered, c, b, p, k, f, oi);
    }
  }

  lemma VisibleFound(last: seq<Output>, at: map<Name, NodeRef>, oi: nat)
    requires forall j: nat | j < |last| :: last[j].name in at
    ensures LastVisible(last, at, |last|).None? <==> forall j | 0 <= j < |last| :: last[j].consumed
    ensures LastVisibleAt(last, oi) ==> LastVisible(last, at, |last|) == Some(at[last[oi].name])
  {
  }

  /** The node listed for an output is the one that carries its name. */
  lemma CarriedByName(fs: seq<PlanFunc>, covered: seq<nat>, c: Context, b: Built, p: Projection, k: int, f: nat,
                      oi: nat)
    requires InRange(fs, covered) && Increasing(covered) && IsOutput(fs, covered, f, oi)
    requires MapFor(Work(fs, covered), b.at) && c.at == b.at
    requires ProjectedFor(c, b.nodes, Slots(fs, covered), |Slots(fs, covered)|, p)
    requires 0 <= k < |p.outputs| && p.outputs[k].func == f && p.outputs[k].output == oi
    ensures var x := fs[f].func.outputs[oi].name; x in b.at && b.at[x] == p.outputs[k].value && b.at[x].slot == 0
  {
    var slots := Slots(fs, covered);
    SlotsAreOutputs(fs, covered);
    assert IsSlot(fs, covered, slots[k]) && Projectable(c, |b.nodes|, slots[k]);
  }

  // ── What acceptance is worth ──

  /** Sources other than nodes are weights, constants and function outputs of the module. */
  ghost predicate SourcesExist(fs: seq<PlanFunc>, node: Node) {
    forall s | s in node.inputs ::
      match s
      case FromNode(_, _) => true
      case FromWeight(x) => exists f :: f in fs && x in f.weights
      case FromConst(x) => exists f :: f in fs && x in f.consts
      case FromFunc(fi, oi) => fi < |fs| && oi < |fs[fi].func.outputs|
  }

  /** Any accepted plan, generated or loaded, evaluates for all kernels and all given values; it runs known kernels
      only, on values the module has, and its cache marks are exactly the bindings of the functions it covers. */
  lemma AcceptedRuns<V>(hal: Sem<V>, given: Given<V>, plan: Plan, fs: seq<PlanFunc>, bindings: Bindings)
    requires Accepted(plan, fs, bindings)
    ensures plan.nodes != [] && EvalNodes(hal, given, plan.nodes).Some?
    ensures forall i: nat | i < |plan.nodes| ::
              var node := plan.nodes[i];
              && node.index == i && (exists opName :: KernelOf(opName, node.kernel)) && SourcesExist(fs, node)
              && node.funcs != [] && (forall fi | fi in node.funcs :: fi < |fs|)
              && (node.cache.Some? ==>
                    var m := node.cache.value;
                    (m.func, m.output) in bindings && bindings[(m.func, m.output)] == m.slab)
    ensures forall pos: Position, i: nat | pos in bindings && i < |plan.nodes| && pos.0 in plan.nodes[i].funcs ::
              exists j: nat :: j < |plan.nodes| && plan.nodes[j].cache == Some(CacheMark(bindings[pos], pos.0, pos.1))
  {
    EvaluatesUpTo(hal, given, plan.nodes, fs, |plan.nodes|);
    assert plan.nodes[..|plan.nodes|] == plan.nodes;
    forall i: nat | i < |plan.nodes|
      ensures NodeOk(fs, plan.nodes, i) && (exists opName :: KernelOf(opName, plan.nodes[i].kernel))
              && SourcesExist(fs, plan.nodes[i]) && MarkBound(plan.nodes[i], bindings)
    {
      CatalogIsKernels(plan.nodes[i].kernel);
      SourcesOf(fs, plan.nodes, i);
    }
    forall pos: Position, i: nat | pos in bindings && i < |plan.nodes| && pos.0 in plan.nodes[i].funcs
      ensures exists j: nat :: j < |plan.nodes| && plan.nodes[j].cache == Some(CacheMark(bindings[pos], pos.0, pos.1))
    {
      assert SourceOf(plan.nodes, pos.0);
      assert HasMark(plan.nodes, pos);
      var j :| 0 <= j < |plan.nodes| && plan.nodes[j].cache.Some?
               && (plan.nodes[j].cache.value.func, plan.nodes[j].cache.value.output) == pos;
      assert MarkBound(plan.nodes[j], bindings);
    }
  }

  lemma SourcesOf(fs: seq<PlanFunc>, nodes: seq<Node>, i: nat)
    requires i < |nodes| && NodeOk(fs, nodes, i)
    ensures SourcesExist(fs, nodes[i])
  {
    forall s | s in nodes[i].inputs ensures InputOk(fs, nodes, i, s) {
    }
  }

  lemma {:induction false} EvaluatesUpTo<V>(hal: Sem<V>, given: Given<V>, nodes: seq<Node>, fs: seq<PlanFunc>, n: nat)
    requires n <= |nodes| && forall i: nat | i < |nodes| :: NodeOk(fs, nodes, i)
    ensures EvalNodes(hal, given, nodes[..n]).Some? && |EvalNodes(hal, given, nodes[..n]).value| == n
    decreases n
  {
    if n > 0 {
      EvaluatesUpTo(hal, given, nodes, fs, n - 1);
      assert nodes[..n][..n - 1] == nodes[..n - 1];
      var vals := EvalNodes(hal, given, nodes[..n - 1]).value;
      assert NodeOk(fs, nodes, n - 1);
      var inputs := nodes[n - 1].inputs;
      forall i | 0 <= i < |inputs| ensures InputValue(vals, given, inputs[i]).Some? {
        assert InputOk(fs, nodes, n - 1, inputs[i]);
      }
    }
  }
}
