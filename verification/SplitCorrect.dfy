/** Compiler correctness of the splitter: for any operation semantics, the slot-routed functions compute
    what the unsplit program computes. */
module SplitCorrect {
  import opened Options
  import opened Lists
  import opened Ssa
  import opened Blocks
  import opened Names
  import opened DimAttrs
  import opened Splitter
  import opened SplitPlan
  import opened Interpreters

  /** Blocks after the first read no global input directly. */
  ghost predicate GlobalsReadFirst(g: Graph) {
    forall fi, op, x | 0 < fi < |g.blocks| && op in g.blocks[fi] && x in Uses(op) :: x !in Declared(g)
  }

  /** Dimension attributes are below the ranks of the function inputs they apply to. */
  ghost predicate DimsInRange(g: Graph) {
    forall fi, op | 0 <= fi < |g.blocks| && op in g.blocks[fi] :: OpFits(op, Ranks(InputPorts(g, fi)))
  }

  lemma BlockUnadjusted(g: Graph, fi: nat)
    requires DimsInRange(g) && fi < |g.blocks|
    ensures FuncOf(g, fi).ops == g.blocks[fi]
  {
    var ranks := Ranks(InputPorts(g, fi));
    forall i | 0 <= i < |g.blocks[fi]| ensures AdjustOp(g.blocks[fi][i], ranks) == g.blocks[fi][i] {
      AdjustIdentity(g.blocks[fi][i], ranks);
    }
  }

  lemma {:induction false} OpsOfBlocks(funcs: seq<Func>, blocks: seq<Block>)
    requires |funcs| == |blocks| && forall fi | 0 <= fi < |funcs| :: funcs[fi].ops == blocks[fi]
    ensures AllOps(funcs) == Flatten(blocks)
  {
    if funcs != [] {
      OpsOfBlocks(funcs[..|funcs| - 1], blocks[..|blocks| - 1]);
    }
  }

  // ── The plan exists ──

  lemma {:induction false} GlobalNamesPrefix(declared: seq<Name>, ops: seq<Op>)
    ensures |declared| <= |GlobalNames(declared, ops)|
    ensures GlobalNames(declared, ops)[..|declared|] == declared
  {
    if ops != [] {
      GlobalNamesPrefix(declared, ops[..|ops| - 1]);
    }
  }

  lemma RouteGlobal(g: Graph, i: nat)
    requires WellFormed(g) && i < |g.globals|
    ensures Route(g, Funcs(g), 0, g.globals[i].name) == Some(GlobalInput(i))
  {
    var declared := PortNames(g.globals);
    var names := GlobalNames(declared, Funcs(g)[0].ops);
    GlobalNamesPrefix(declared, Funcs(g)[0].ops);
    IndexInPrefix(names, declared, i);
    assert declared[i] == g.globals[i].name;
  }

  lemma EveryInputRouted(g: Graph, fi: nat)
    requires WellFormed(g) && fi < |g.blocks|
    ensures AllRouted(g, Funcs(g), fi)
  {
    var ports := InputPorts(g, fi);
    forall p | p in ports ensures Route(g, Funcs(g), fi, p.name).Some? {
      var i :| 0 <= i < |ports| && ports[i] == p;
      InputRouted(g, fi, ports, i);
    }
  }

  lemma InputRouted(g: Graph, fi: nat, ports: seq<Port>, i: nat)
    requires WellFormed(g) && fi < |g.blocks| && ports == InputPorts(g, fi) && i < |ports|
    ensures Route(g, Funcs(g), fi, ports[i].name).Some?
  {
    if fi == 0 {
      RouteGlobal(g, i);
    } else {
      InputsArePermutation(g, fi);
      assert PortNames(ports)[i] == ports[i].name;
      RouteIsExact(g, fi, ports[i].name);
    }
  }

  /** The execution plan of a well-formed program. */
  function Plan(g: Graph): seq<seq<Edge>>
    requires WellFormed(g)
  {
    seq(|g.blocks|, fi requires 0 <= fi < |g.blocks| =>
      EveryInputRouted(g, fi); StepEdges(g, Funcs(g), fi))
  }

  // ── One function ──

  lemma {:induction false} BindBelow<V>(ports: seq<Port>, args: seq<V>, big: Env<V>)
    requires |ports| == |args|
    requires forall i | 0 <= i < |ports| :: ports[i].name in big && big[ports[i].name] == args[i]
    ensures Below(Bind(ports, args), big)
    ensures Bind(ports, args).Keys == Elems(PortNames(ports))
  {
    if ports == [] {
      assert PortNames(ports) == [];
    } else {
      var n := |ports| - 1;
      BindBelow(ports[..n], args[..n], big);
      assert PortNames(ports) == PortNames(ports[..n]) + [ports[n].name];
    }
  }

  lemma LastDiffers(ports: seq<Port>, n: nat)
    requires n < |ports| && Unique(PortNames(ports))
    ensures forall i | 0 <= i < n :: ports[i].name != ports[n].name
  {
    forall i | 0 <= i < n ensures ports[i].name != ports[n].name {
      assert PortNames(ports)[i] == ports[i].name && PortNames(ports)[n] == ports[n].name;
    }
  }

  /** Distinct inputs keep their own arguments. */
  lemma {:induction false} BindAt<V>(ports: seq<Port>, args: seq<V>)
    requires |ports| == |args| && Unique(PortNames(ports))
    ensures forall i | 0 <= i < |ports| ::
              ports[i].name in Bind(ports, args) && Bind(ports, args)[ports[i].name] == args[i]
    ensures Bind(ports, args).Keys == Elems(PortNames(ports))
  {
    if ports == [] {
      assert PortNames(ports) == [];
    } else {
      var n := |ports| - 1;
      assert PortNames(ports) == PortNames(ports[..n]) + [ports[n].name];
      UniqueSplit(PortNames(ports[..n]), [ports[n].name]);
      BindAt(ports[..n], args[..n]);
      LastDiffers(ports, n);
    }
  }

  /** Fewer initial names suffice as long as no missing one is read. */
  lemma {:induction false} DefinedFromLess(ops: seq<Op>, known: set<Name>, less: set<Name>)
    requires DefinedBeforeUse(ops, known)
    requires forall op, x | op in ops && x in Uses(op) && x in known :: x in less
    ensures DefinedBeforeUse(ops, less)
  {
    if ops != [] {
      assert ops[0] in ops;
      DefinedFromLess(ops[1..], known + {ops[0].result}, less + {ops[0].result});
    }
  }

  lemma {:induction false} DefinedUses(ops: seq<Op>, known: set<Name>, op: Op, x: Name)
    requires DefinedBeforeUse(ops, known) && op in ops && x in Uses(op)
    ensures x in known || x in Results(ops)
  {
    assert Results(ops) == [ops[0].result] + Results(ops[1..]);
    if op != ops[0] {
      DefinedUses(ops[1..], known + {ops[0].result}, op, x);
    }
  }

  /** A function after the first can run on its computed inputs exactly when its block reads no global
      input directly. */
  lemma FunctionClosed(g: Graph, fi: nat)
    requires WellFormed(g) && 0 < fi < |g.blocks|
    ensures DefinedBeforeUse(g.blocks[fi], Elems(PortNames(InputPorts(g, fi)))) <==>
            forall op, x | op in g.blocks[fi] && x in Uses(op) :: x !in Declared(g)
  {
    var block, inputs := g.blocks[fi], Elems(PortNames(InputPorts(g, fi)));
    InputsArePermutation(g, fi);
    if forall op, x | op in block && x in Uses(op) :: x !in Declared(g) {
      BlocksSsa(g.blocks, Declared(g));
      var known := Known(g.blocks, Declared(g), fi);
      SsaFormDefined(block, known);
      forall op, x | op in block && x in Uses(op) && x in known ensures x in inputs {
        var j := KnownOrigin(g.blocks, Declared(g), fi, x);
        ProducerIs(g, j, x);
        NeededIsEarlier(g, fi, x);
      }
      DefinedFromLess(block, known, inputs);
    } else if DefinedBeforeUse(block, inputs) {
      var op, x :| op in block && x in Uses(op) && x in Declared(g);
      DefinedUses(block, inputs, op, x);
      if x in Results(block) {
        ResultsAreFresh(g, fi, x);
      } else {
        NeededIsEarlier(g, fi, x);
        ProducersSound(g.blocks, x);
        ResultsAreFresh(g, Producers(g.blocks)[x], x);
      }
    }
  }

  lemma FirstFunctionClosed(g: Graph)
    requires WellFormed(g)
    ensures DefinedBeforeUse(g.blocks[0], Elems(PortNames(InputPorts(g, 0))))
  {
    BlocksSsa(g.blocks, Declared(g));
    SsaFormDefined(g.blocks[0], Declared(g));
  }

  lemma {:induction false} FlattenContains(blocks: seq<Block>, fi: nat, op: Op)
    requires fi < |blocks| && op in blocks[fi]
    ensures op in Flatten(blocks)
  {
    var n := |blocks| - 1;
    if fi < n {
      FlattenContains(blocks[..n], fi, op);
    }
  }

  lemma OutputsProduced(g: Graph, fi: nat, s: nat)
    requires WellFormed(g) && fi < |g.blocks| && s < |Outputs(g, fi)|
    ensures Outputs(g, fi)[s].name in Results(g.blocks[fi])
  {
    var order := OutputOrder(g, fi);
    if order == [] {
      assert Results(g.blocks[fi])[0] == Outputs(g, fi)[s].name;
    } else {
      OutputOrderMembers(g, fi, order[s]);
    }
  }

  // ── Any module whose edges carry matching names is correct ──

  /** The function's equations hold in `final`, its inputs suffice to run it, and it returns its own results. */
  ghost predicate FuncSound<V(!new)>(sem: Sem<V>, f: Func, final: Env<V>) {
    && Solves(sem, f.ops, final)
    && DefinedBeforeUse(f.ops, Elems(PortNames(f.inputs)))
    && forall o | o in f.outputs :: o.name in Results(f.ops)
  }

  /** The edge delivers the final value of `x` to function `fi`. */
  ghost predicate EdgeSound<V(!new)>(e: Edge, funcs: seq<Func>, fi: nat, x: Name, globals: seq<V>, final: Env<V>)
    requires fi < |funcs|
  {
    match e
    case GlobalInput(i) => i < |globals| && x in final && final[x] == globals[i]
    case StepOutput(f, s) => f < fi && s < |funcs[f].outputs| && funcs[f].outputs[s].name == x
  }

  ghost predicate EdgesSound<V(!new)>(edges: seq<Edge>, funcs: seq<Func>, fi: nat, globals: seq<V>, final: Env<V>)
    requires fi < |funcs|
  {
    |edges| == |funcs[fi].inputs| &&
    forall i | 0 <= i < |edges| :: EdgeSound(edges[i], funcs, fi, funcs[fi].inputs[i].name, globals, final)
  }

  ghost predicate ModuleSound<V(!new)>(sem: Sem<V>, funcs: seq<Func>, plan: seq<seq<Edge>>, globals: seq<V>,
                                       final: Env<V>) {
    && PlanFits(funcs, plan)
    && (forall fi | 0 <= fi < |funcs| :: FuncSound(sem, funcs[fi], final))
    && (forall fi | 0 <= fi < |funcs| :: EdgesSound(plan[fi], funcs, fi, globals, final))
  }

  /** The values returned by `f` are the final values of its output names. */
  ghost predicate Returns<V(!new)>(f: Func, res: seq<V>, final: Env<V>) {
    |res| == |f.outputs| &&
    forall s | 0 <= s < |res| :: f.outputs[s].name in final && res[s] == final[f.outputs[s].name]
  }

  /** A call on arguments that are final values returns final values. */
  lemma CallReturns<V(!new)>(sem: Sem<V>, f: Func, args: seq<V>, final: Env<V>)
    requires FuncSound(sem, f, final) && |args| == |f.inputs|
    requires forall i | 0 <= i < |args| :: f.inputs[i].name in final && final[f.inputs[i].name] == args[i]
    ensures Call(sem, f, args).Some? && Returns(f, Call(sem, f, args).value, final)
  {
    BindBelow(f.inputs, args, final);
    RunStaysBelow(sem, f.ops, Bind(f.inputs, args), final);
  }

  /** Sound edges fetch final values. */
  lemma GatherSound<V(!new)>(
      funcs: seq<Func>, edges: seq<Edge>, fi: nat, globals: seq<V>, outs: seq<seq<V>>, zero: V, final: Env<V>)
    requires fi < |funcs| && |outs| == fi && EdgesSound(edges, funcs, fi, globals, final)
    requires forall f | 0 <= f < fi :: Returns(funcs[f], outs[f], final)
    ensures var args := Gather(edges, globals, outs, zero);
            forall i | 0 <= i < |args| :: funcs[fi].inputs[i].name in final
                && final[funcs[fi].inputs[i].name] == args[i]
  {
  }

  lemma {:induction false} SoundModuleRuns<V(!new)>(
      sem: Sem<V>, funcs: seq<Func>, plan: seq<seq<Edge>>, globals: seq<V>, zero: V, final: Env<V>, n: nat)
    requires ModuleSound(sem, funcs, plan, globals, final) && n <= |funcs|
    ensures var r := SlotRun(sem, funcs, plan, globals, zero, n);
            r.Some? && |r.value| == n && forall fi | 0 <= fi < n :: Returns(funcs[fi], r.value[fi], final)
  {
    if n > 0 {
      var fi := n - 1;
      SoundModuleRuns(sem, funcs, plan, globals, zero, final, fi);
      SoundStep(sem, funcs, plan, globals, zero, final, fi, SlotRun(sem, funcs, plan, globals, zero, fi).value);
    }
  }

  lemma SoundStep<V(!new)>(sem: Sem<V>, funcs: seq<Func>, plan: seq<seq<Edge>>, globals: seq<V>, zero: V, final: Env<V>,
                           fi: nat, outs: seq<seq<V>>)
    requires ModuleSound(sem, funcs, plan, globals, final) && fi < |funcs| && |outs| == fi
    requires forall i | 0 <= i < fi :: Returns(funcs[i], outs[i], final)
    ensures var args := Gather(plan[fi], globals, outs, zero);
            Call(sem, funcs[fi], args).Some? && Returns(funcs[fi], Call(sem, funcs[fi], args).value, final)
  {
    var args := Gather(plan[fi], globals, outs, zero);
    GatherSound(funcs, plan[fi], fi, globals, outs, zero, final);
    CallReturns(sem, funcs[fi], args, final);
  }

  /** A function whose inputs do not suffice stops every run of the module. */
  lemma StuckFunction<V>(sem: Sem<V>, funcs: seq<Func>, plan: seq<seq<Edge>>, globals: seq<V>, zero: V, fi: nat)
    requires PlanFits(funcs, plan) && fi < |funcs|
    requires !DefinedBeforeUse(funcs[fi].ops, Elems(PortNames(funcs[fi].inputs)))
    ensures SlotRun(sem, funcs, plan, globals, zero, |funcs|).None?
  {
    var before := SlotRun(sem, funcs, plan, globals, zero, fi);
    if before.Some? {
      var args := Gather(plan[fi], globals, before.value, zero);
      BindKeys(funcs[fi].inputs, args);
      RunDefined(sem, funcs[fi].ops, Bind(funcs[fi].inputs, args));
    }
    SlotRunFails(sem, funcs, plan, globals, zero, fi + 1, |funcs|);
  }

  // ── The splitter builds such a module ──

  lemma SplitFuncSound<V(!new)>(g: Graph, sem: Sem<V>, fi: nat, final: Env<V>)
    requires WellFormed(g) && DimsInRange(g) && GlobalsReadFirst(g) && fi < |g.blocks|
    requires Solves(sem, Flatten(g.blocks), final)
    ensures FuncSound(sem, FuncOf(g, fi), final)
  {
    BlockUnadjusted(g, fi);
    forall op | op in g.blocks[fi] ensures op in Flatten(g.blocks) {
      FlattenContains(g.blocks, fi, op);
    }
    if fi == 0 { FirstFunctionClosed(g); } else { FunctionClosed(g, fi); }
    forall o | o in Outputs(g, fi) ensures o.name in Results(g.blocks[fi]) {
      var s :| 0 <= s < |Outputs(g, fi)| && Outputs(g, fi)[s] == o;
      OutputsProduced(g, fi, s);
    }
  }

  lemma PlanEdge(g: Graph, fi: nat, i: nat)
    requires WellFormed(g) && fi < |g.blocks| && i < |InputPorts(g, fi)|
    ensures |Plan(g)[fi]| == |InputPorts(g, fi)|
    ensures Some(Plan(g)[fi][i]) == Route(g, Funcs(g), fi, InputPorts(g, fi)[i].name)
  {
    EveryInputRouted(g, fi);
    assert Plan(g)[fi] == StepEdges(g, Funcs(g), fi);
  }

  lemma GlobalEdgeSound<V(!new)>(g: Graph, i: nat, globals: seq<V>, final: Env<V>)
    requires WellFormed(g) && |globals| == |g.globals| && i < |g.globals|
    requires Below(Bind(g.globals, globals), final)
    ensures Route(g, Funcs(g), 0, g.globals[i].name).Some?
    ensures EdgeSound(Route(g, Funcs(g), 0, g.globals[i].name).value, Funcs(g), 0, g.globals[i].name, globals, final)
  {
    RouteGlobal(g, i);
    BindAt(g.globals, globals);
  }

  lemma StepEdgeSound<V(!new)>(g: Graph, fi: nat, i: nat, globals: seq<V>, final: Env<V>)
    requires WellFormed(g) && 0 < fi < |g.blocks| && i < |InputPorts(g, fi)|
    ensures var x := InputPorts(g, fi)[i].name;
            Route(g, Funcs(g), fi, x).Some? && EdgeSound(Route(g, Funcs(g), fi, x).value, Funcs(g), fi, x, globals,
                final)
  {
    var x := InputPorts(g, fi)[i].name;
    InputsArePermutation(g, fi);
    assert PortNames(InputPorts(g, fi))[i] == x;
    RouteIsExact(g, fi, x);
    var e := Route(g, Funcs(g), fi, x).value;
    assert Funcs(g)[e.func].outputs == Outputs(g, e.func);
  }

  lemma SplitEdgeSound<V(!new)>(g: Graph, fi: nat, i: nat, globals: seq<V>, final: Env<V>)
    requires WellFormed(g) && fi < |g.blocks| && |globals| == |g.globals| && i < |InputPorts(g, fi)|
    requires Below(Bind(g.globals, globals), final)
    ensures |Plan(g)[fi]| == |InputPorts(g, fi)|
    ensures EdgeSound(Plan(g)[fi][i], Funcs(g), fi, InputPorts(g, fi)[i].name, globals, final)
  {
    PlanEdge(g, fi, i);
    if fi == 0 { GlobalEdgeSound(g, i, globals, final); } else { StepEdgeSound(g, fi, i, globals, final); }
  }

  // ── The whole module ──

  function InitialEnv<V>(g: Graph, globals: seq<V>): Env<V>
    requires |globals| == |g.globals|
  {
    Bind(g.globals, globals)
  }

  lemma UnsplitRuns<V(!new)>(g: Graph, sem: Sem<V>, globals: seq<V>)
    requires WellFormed(g) && |globals| == |g.globals|
    ensures Run(sem, Flatten(g.blocks), InitialEnv(g, globals)).Some?
    ensures var final := Run(sem, Flatten(g.blocks), InitialEnv(g, globals)).value;
            Solves(sem, Flatten(g.blocks), final) && Below(InitialEnv(g, globals), final)
  {
    BindAt(g.globals, globals);
    RunSolves(sem, Flatten(g.blocks), InitialEnv(g, globals));
  }

  lemma PlanFitsFuncs(g: Graph)
    requires WellFormed(g)
    ensures PlanFits(Funcs(g), Plan(g))
  {
  }

  lemma SplitModuleSound<V(!new)>(g: Graph, sem: Sem<V>, globals: seq<V>, final: Env<V>)
    requires WellFormed(g) && DimsInRange(g) && GlobalsReadFirst(g) && |globals| == |g.globals|
    requires Solves(sem, Flatten(g.blocks), final) && Below(InitialEnv(g, globals), final)
    ensures ModuleSound(sem, Funcs(g), Plan(g), globals, final)
  {
    PlanFitsFuncs(g);
    var funcs, plan := Funcs(g), Plan(g);
    forall fi | 0 <= fi < |funcs| ensures FuncSound(sem, funcs[fi], final) {
      SplitFuncSound(g, sem, fi, final);
    }
    forall fi | 0 <= fi < |funcs| ensures EdgesSound(plan[fi], funcs, fi, globals, final) {
      forall i | 0 <= i < |plan[fi]|
        ensures EdgeSound(plan[fi][i], funcs, fi, funcs[fi].inputs[i].name, globals, final)
      {
        SplitEdgeSound(g, fi, i, globals, final);
      }
    }
  }

  /** Main theorem.  For every well-formed program and every semantics of its operations, running the split
      functions in order, inputs fetched only through plan edges, succeeds and leaves in every output slot
      the value the unsplit program gives that name. */
  lemma SplitPreservesMeaning<V(!new)>(g: Graph, sem: Sem<V>, globals: seq<V>, zero: V)
    requires WellFormed(g) && DimsInRange(g) && GlobalsReadFirst(g) && |globals| == |g.globals|
    ensures PlanFits(Funcs(g), Plan(g))
    ensures var flat := Run(sem, Flatten(g.blocks), InitialEnv(g, globals));
            var slots := SlotRun(sem, Funcs(g), Plan(g), globals, zero, |g.blocks|);
            && flat.Some? && slots.Some? && |slots.value| == |g.blocks|
            && forall fi | 0 <= fi < |g.blocks| :: Returns(FuncOf(g, fi), slots.value[fi], flat.value)
  {
    UnsplitRuns(g, sem, globals);
    var final := Run(sem, Flatten(g.blocks), InitialEnv(g, globals)).value;
    SplitModuleSound(g, sem, globals, final);
    SoundModuleRuns(sem, Funcs(g), Plan(g), globals, zero, final, |g.blocks|);
    forall fi | 0 <= fi < |g.blocks| ensures Funcs(g)[fi] == FuncOf(g, fi) { }
  }

  /** Every global output the program produces is carried by some slot, with the unsplit value. */
  lemma GlobalOutputCarried<V(!new)>(g: Graph, sem: Sem<V>, globals: seq<V>, zero: V, x: Name)
    returns (f: nat, s: nat)
    requires WellFormed(g) && DimsInRange(g) && GlobalsReadFirst(g) && |globals| == |g.globals|
    requires x in g.globalOutputs && x in Results(Flatten(g.blocks))
    ensures f < |g.blocks| && s < |Outputs(g, f)| && Outputs(g, f)[s].name == x
    ensures PlanFits(Funcs(g), Plan(g))
    ensures var flat := Run(sem, Flatten(g.blocks), InitialEnv(g, globals));
            var slots := SlotRun(sem, Funcs(g), Plan(g), globals, zero, |g.blocks|);
            flat.Some? && slots.Some? && |slots.value| == |g.blocks| && s < |slots.value[f]| &&
            x in flat.value && slots.value[f][s] == flat.value[x]
  {
    SplitPreservesMeaning(g, sem, globals, zero);
    f := FlattenOrigin(g.blocks, x);
    assert x in Exported(g, f);
    OutputOrderMembers(g, f, x);
    OutputNamesAre(g, f);
    s :| 0 <= s < |OutputNames(Outputs(g, f))| && OutputNames(Outputs(g, f))[s] == x;
    assert Returns(FuncOf(g, f), SlotRun(sem, Funcs(g), Plan(g), globals, zero, |g.blocks|).value[f],
                   Run(sem, Flatten(g.blocks), InitialEnv(g, globals)).value);
  }

  lemma {:induction false} FlattenOrigin(blocks: seq<Block>, x: Name) returns (f: nat)
    requires x in Results(Flatten(blocks))
    ensures f < |blocks| && x in Results(blocks[f])
  {
    var n := |blocks| - 1;
    ResultsConcat(Flatten(blocks[..n]), blocks[n]);
    if x in Results(blocks[n]) {
      f := n;
    } else {
      f := FlattenOrigin(blocks[..n], x);
    }
  }

  /** The executor's flat run over the split functions is the unsplit run. */
  lemma FlatRunIsUnsplit<V(!new)>(g: Graph, sem: Sem<V>, globals: seq<V>)
    requires WellFormed(g) && DimsInRange(g) && |globals| == |g.globals|
    ensures Run(sem, AllOps(Funcs(g)), InitialEnv(g, globals)) == Run(sem, Flatten(g.blocks), InitialEnv(g, globals))
  {
    var funcs := Funcs(g);
    forall fi | 0 <= fi < |funcs| ensures funcs[fi].ops == g.blocks[fi] {
      BlockUnadjusted(g, fi);
    }
    OpsOfBlocks(funcs, g.blocks);
  }

  /** The slot-routed run goes through exactly when no later block reads a global input directly. */
  lemma SlotRunSucceedsIff<V(!new)>(g: Graph, sem: Sem<V>, globals: seq<V>, zero: V)
    requires WellFormed(g) && DimsInRange(g) && |globals| == |g.globals|
    ensures PlanFits(Funcs(g), Plan(g))
    ensures SlotRun(sem, Funcs(g), Plan(g), globals, zero, |g.blocks|).Some? <==> GlobalsReadFirst(g)
  {
    PlanFitsFuncs(g);
    if GlobalsReadFirst(g) {
      SplitPreservesMeaning(g, sem, globals, zero);
    } else {
      var fi, op, x :| 0 < fi < |g.blocks| && op in g.blocks[fi] && x in Uses(op) && x in Declared(g);
      FunctionClosed(g, fi);
      BlockUnadjusted(g, fi);
      StuckFunction(sem, Funcs(g), Plan(g), globals, zero, fi);
    }
  }

  lemma {:induction false} BindKeys<V>(ports: seq<Port>, args: seq<V>)
    requires |ports| == |args|
    ensures Bind(ports, args).Keys == Elems(PortNames(ports))
  {
    if ports == [] {
      assert PortNames(ports) == [];
    } else {
      var n := |ports| - 1;
      BindKeys(ports[..n], args[..n]);
      assert PortNames(ports) == PortNames(ports[..n]) + [ports[n].name];
    }
  }
}
