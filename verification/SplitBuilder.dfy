/** The splitter's loops, proved to compute the specification: producer map, needed and exported names,
    functions, cache bindings, function names, plan edges and their wire format. */
module SplitBuilder {
  import opened Options
  import opened Lists
  import opened Ssa
  import opened Blocks
  import opened Names
  import opened DimAttrs
  import opened Splitter

  method MarkProducers(producer: map<Name, nat>, block: Block, fi: nat) returns (r: map<Name, nat>)
    ensures r == producer + map x | x in Results(block) :: fi
  {
    r := producer;
    ghost var results := Results(block);
    for i := 0 to |block|
      invariant forall x :: x in r <==> x in producer || x in results[..i]
      invariant forall x | x in r :: r[x] == if x in results[..i] then fi else producer[x]
    {
      assert results[..i + 1] == results[..i] + [block[i].result];
      r := r[block[i].result := fi];
    }
    assert results[..|block|] == results;
  }

  method BuildProducers(blocks: seq<Block>) returns (producer: map<Name, nat>)
    ensures producer == Producers(blocks)
  {
    producer := map[];
    for fi := 0 to |blocks|
      invariant producer == Producers(blocks[..fi])
    {
      producer := MarkProducers(producer, blocks[fi], fi);
      assert blocks[..fi + 1][..fi] == blocks[..fi];
    }
    assert blocks[..|blocks|] == blocks;
  }

  function NeededOf(ops: seq<Op>, producer: map<Name, nat>, fi: nat): set<Name> {
    set op, x | op in ops && x in op.operands && x in producer && producer[x] != fi :: x
  }

  method ComputeNeeded(block: Block, producer: map<Name, nat>, fi: nat) returns (needed: set<Name>)
    ensures needed == NeededOf(block, producer, fi)
  {
    needed := {};
    for i := 0 to |block|
      invariant needed == NeededOf(block[..i], producer, fi)
    {
      var operands := block[i].operands;
      ghost var before := needed;
      for k := 0 to |operands|
        invariant needed == before + set x | x in operands[..k] && x in producer && producer[x] != fi
      {
        assert operands[..k + 1] == operands[..k] + [operands[k]];
        if operands[k] in producer && producer[operands[k]] != fi {
          needed := needed + {operands[k]};
        }
      }
      assert operands[..|operands|] == operands;
      assert block[..i + 1] == block[..i] + [block[i]];
    }
    assert block[..|block|] == block;
  }

  /** Does any operation of any block from `from` on read `x`? */
  method IsUsedFrom(blocks: seq<Block>, from: nat, x: Name) returns (used: bool)
    requires from <= |blocks|
    ensures used <==> exists later, op :: from <= later < |blocks| && op in blocks[later] && x in op.operands
  {
    for fi := from to |blocks|
      invariant forall later, op | from <= later < fi && op in blocks[later] :: x !in op.operands
    {
      for i := 0 to |blocks[fi]|
        invariant forall op | op in blocks[fi][..i] :: x !in op.operands
      {
        if x in blocks[fi][i].operands {
          assert blocks[fi][i] in blocks[fi];
          return true;
        }
      }
      assert blocks[fi][..|blocks[fi]|] == blocks[fi];
    }
    return false;
  }

  method ComputeExported(g: Graph, fi: nat) returns (exported: seq<Name>)
    requires fi < |g.blocks|
    ensures exported == Exported(g, fi)
  {
    var produced := Results(g.blocks[fi]);
    exported := [];
    for i := 0 to |produced|
      invariant exported == Filter(produced[..i], x => UsedLater(g.blocks, fi, x) || x in g.globalOutputs)
    {
      assert produced[..i + 1][..i] == produced[..i] && produced[..i + 1][i] == produced[i];
      var used := IsUsedFrom(g.blocks, fi + 1, produced[i]);
      if used || produced[i] in g.globalOutputs {
        exported := exported + [produced[i]];
      }
    }
    assert produced[..|produced|] == produced;
  }

  /** Output descriptors of one block and the cache bindings of its slots. */
  method BuildOutputs(fi: nat, order: seq<Name>, marked: set<Name>, slabFor: map<Name, string>)
    returns (outputs: seq<Output>, bindings: seq<Binding>)
    ensures outputs == seq(|order|, i requires 0 <= i < |order| => Output(order[i], order[i] in marked))
    ensures bindings == BlockBindings(fi, outputs, slabFor)
  {
    outputs, bindings := [], [];
    for i := 0 to |order|
      invariant |outputs| == i
      invariant forall k | 0 <= k < i :: outputs[k] == Output(order[k], order[k] in marked)
      invariant bindings == BlockBindings(fi, outputs, slabFor)
    {
      var consumed := order[i] in marked;
      var next := outputs + [Output(order[i], consumed)];
      assert next[..i] == outputs;
      outputs := next;
      if consumed && order[i] in slabFor {
        bindings := bindings + [Binding(fi, i, slabFor[order[i]])];
      }
    }
  }

  /** One function of the split module, and the cache bindings of its outputs. */
  method BuildFunction(g: Graph, fi: nat, producer: map<Name, nat>, slabs: map<int, string>)
    returns (f: Func, added: seq<Binding>)
    requires fi < |g.blocks| && g.blocks[fi] != [] && producer == Producers(g.blocks)
    ensures f == Funcs(g)[fi]
    ensures added == BlockBindings(fi, Outputs(g, fi), SlabFor(g.blocks, fi, slabs))
  {
    var ports := g.globals;
    if fi > 0 {
      var needed := ComputeNeeded(g.blocks[fi], producer, fi);
      var names := InputOrder(g, needed);
      var types := Types(Flatten(g.blocks));
      ports := seq(|names|, i requires 0 <= i < |names| => Port(names[i], TypeOf(types, names[i])));
    }
    assert ports == InputPorts(g, fi);
    var exported := ComputeExported(g, fi);
    var order := OrderOutputs(g.blocks, fi, exported);
    var outputs;
    outputs, added := BuildOutputs(fi, order, Marked(g.blocks, fi), SlabFor(g.blocks, fi, slabs));
    if outputs == [] {
      outputs := [Output(g.blocks[fi][0].result, false)];
    }
    assert outputs == Outputs(g, fi);
    BindingsOfFallback(g, fi, slabs, added);
    f := Func(ports, outputs, AdjustBlock(g.blocks[fi], Ranks(ports)));
  }

  method MakeMultiFunctions(g: Graph, slabs: map<int, string>)
    returns (funcs: seq<Func>, bindings: seq<Binding>)
    requires forall b | b in g.blocks :: b != []
    ensures funcs == Funcs(g)
    ensures bindings == Bindings(g, slabs, |g.blocks|)
  {
    var producer := BuildProducers(g.blocks);
    funcs, bindings := [], [];
    ghost var spec := Funcs(g);
    for fi := 0 to |g.blocks|
      invariant funcs == spec[..fi]
      invariant bindings == Bindings(g, slabs, fi)
    {
      assert g.blocks[fi] in g.blocks;
      var f, added := BuildFunction(g, fi, producer, slabs);
      PrefixStep(spec, fi);
      funcs, bindings := funcs + [f], bindings + added;
    }
    PrefixStep(spec, |spec|);
  }

  lemma PrefixStep<T>(s: seq<T>, i: nat)
    requires i <= |s|
    ensures i < |s| ==> s[..i + 1] == s[..i] + [s[i]]
    ensures i == |s| ==> s[..i] == s
  {
  }

  lemma BindingsOfFallback(g: Graph, fi: nat, slabs: map<int, string>, added: seq<Binding>)
    requires fi < |g.blocks|
    requires OutputOrder(g, fi) != [] ==>
               added == BlockBindings(fi, Outputs(g, fi), SlabFor(g.blocks, fi, slabs))
    requires OutputOrder(g, fi) == [] ==> added == []
    ensures added == BlockBindings(fi, Outputs(g, fi), SlabFor(g.blocks, fi, slabs))
  {
  }

  // ── Plan edges ──

  method BuildPlan(g: Graph, funcs: seq<Func>) returns (plan: Option<seq<seq<Edge>>>)
    requires g.blocks != [] && |funcs| == |g.blocks|
    ensures plan.Some? <==> forall fi | 0 <= fi < |funcs| :: AllRouted(g, funcs, fi)
    ensures plan.Some? ==> |plan.value| == |funcs|
    ensures plan.Some? ==> forall fi | 0 <= fi < |funcs| :: plan.value[fi] == StepEdges(g, funcs, fi)
  {
    var steps: seq<seq<Edge>> := [];
    for fi := 0 to |funcs|
      invariant |steps| == fi
      invariant forall k | 0 <= k < fi :: AllRouted(g, funcs, k) && steps[k] == StepEdges(g, funcs, k)
    {
      var edges: seq<Edge> := [];
      for i := 0 to |funcs[fi].inputs|
        invariant |edges| == i
        invariant forall k | 0 <= k < i :: Route(g, funcs, fi, funcs[fi].inputs[k].name) == Some(edges[k])
      {
        var e := Route(g, funcs, fi, funcs[fi].inputs[i].name);
        if e.None? {
          assert funcs[fi].inputs[i] in funcs[fi].inputs;
          assert !AllRouted(g, funcs, fi);
          return None;
        }
        edges := edges + [e.value];
      }
      assert AllRouted(g, funcs, fi) && edges == StepEdges(g, funcs, fi);
      steps := steps + [edges];
    }
    return Some(steps);
  }

  // ── Function names ──

  /** `main_N`, or `main_Na` and `main_Nb` for the two halves of a split layer. */
  datatype FuncName = Unnamed | Whole(n: nat) | FirstHalf(n: nat) | SecondHalf(n: nat)

  ghost predicate NamesBelow(names: seq<FuncName>, k: nat, layer: nat)
    requires k <= |names|
  {
    && (forall i | 0 <= i < k :: names[i] == Unnamed || names[i].n < layer)
    && (forall i, j | 0 <= i < j < k :: names[i] == Unnamed || names[i] != names[j])
  }

  /** A b-block that keeps its name: it is no first half itself, or the block after it is still to come. */
  predicate Closing(blocks: seq<Block>, b: nat, fi: nat)
    requires b < |blocks|
  {
    IsB(blocks, b) && (b == fi - 1 || !IsA(blocks, b))
  }

  /** How block `i` is named once the blocks before `fi` are processed: an a-block is a first half as soon as the
      block after it is processed, and until then unnamed or, as a b-block, a second half. */
  ghost predicate KindFits(blocks: seq<Block>, name: FuncName, i: nat, fi: nat)
    requires i < |blocks|
  {
    && (name.Whole? <==> !IsA(blocks, i) && !IsB(blocks, i))
    && (name.FirstHalf? <==> IsA(blocks, i) && i + 1 < fi)
    && (name.SecondHalf? <==> IsB(blocks, i) && (i + 1 == fi || !IsA(blocks, i)))
  }

  /** Every name given so far is right: what is still unnamed awaits the next block. */
  ghost predicate NamesFit(blocks: seq<Block>, names: seq<FuncName>, fi: nat, layer: nat)
    requires |names| == |blocks| && fi <= |blocks|
  {
    && NamesBelow(names, fi, layer)
    && (forall i | 0 <= i < fi :: KindFits(blocks, names[i], i, fi))
    && (forall b | 0 < b < fi && Closing(blocks, b, fi) :: names[b] == SecondHalf(names[b - 1].n))
  }

  lemma NamesPair(blocks: seq<Block>, names: seq<FuncName>, fi: nat, layer: nat, next: seq<FuncName>)
    requires |names| == |blocks| && fi < |blocks| && IsB(blocks, fi) && NamesFit(blocks, names, fi, layer)
    requires next == names[fi - 1 := FirstHalf(layer)][fi := SecondHalf(layer)]
    ensures NamesFit(blocks, next, fi + 1, layer + 1)
  {
    PairBelow(blocks, names, fi, layer, next);
    forall i | 0 <= i < fi + 1 ensures KindFits(blocks, next[i], i, fi + 1) {
      assert i < fi ==> KindFits(blocks, names[i], i, fi);
    }
    forall b | 0 < b < fi + 1 && Closing(blocks, b, fi + 1) ensures next[b] == SecondHalf(next[b - 1].n) {
      PairKeeps(blocks, names, fi, layer, next, b);
    }
  }

  lemma PairBelow(blocks: seq<Block>, names: seq<FuncName>, fi: nat, layer: nat, next: seq<FuncName>)
    requires |names| == |blocks| && fi < |blocks| && IsB(blocks, fi) && NamesFit(blocks, names, fi, layer)
    requires next == names[fi - 1 := FirstHalf(layer)][fi := SecondHalf(layer)]
    ensures NamesBelow(next, fi + 1, layer + 1)
  {
  }

  lemma PairKeeps(blocks: seq<Block>, names: seq<FuncName>, fi: nat, layer: nat, next: seq<FuncName>, b: nat)
    requires |names| == |blocks| && fi < |blocks| && IsB(blocks, fi) && NamesFit(blocks, names, fi, layer)
    requires next == names[fi - 1 := FirstHalf(layer)][fi := SecondHalf(layer)]
    requires 0 < b < fi + 1 && Closing(blocks, b, fi + 1)
    ensures next[b] == SecondHalf(next[b - 1].n)
  {
    if b < fi {
      assert b != fi - 1;
      assert Closing(blocks, b, fi);
    }
  }

  lemma NamesOne(blocks: seq<Block>, names: seq<FuncName>, fi: nat, layer: nat, name: FuncName, next: seq<FuncName>)
    requires |names| == |blocks| && fi < |blocks| && !IsB(blocks, fi) && NamesFit(blocks, names, fi, layer)
    requires next == names[fi := name]
    requires if IsA(blocks, fi) then name == Unnamed else name == Whole(layer)
    ensures NamesFit(blocks, next, fi + 1, if IsA(blocks, fi) then layer else layer + 1)
  {
    OneBelow(names, fi, layer, name, next);
    forall i | 0 <= i < fi + 1 ensures KindFits(blocks, next[i], i, fi + 1) {
      assert i < fi ==> KindFits(blocks, names[i], i, fi);
    }
    forall b | 0 < b < fi + 1 && Closing(blocks, b, fi + 1) ensures next[b] == SecondHalf(next[b - 1].n) {
      assert b < fi && Closing(blocks, b, fi);
    }
  }

  lemma OneBelow(names: seq<FuncName>, fi: nat, layer: nat, name: FuncName, next: seq<FuncName>)
    requires fi < |names| && NamesBelow(names, fi, layer) && next == names[fi := name]
    requires name == Unnamed || name == Whole(layer)
    ensures NamesBelow(next, fi + 1, if name == Unnamed then layer else layer + 1)
  {
  }

  /** Every function has a name of its own.  A block before a b-block is a first half, any other b-block the second
      half of the number before it, and every other block stands alone. */
  ghost predicate NamedRight(blocks: seq<Block>, names: seq<FuncName>) {
    && |names| == |blocks| && Unique(names)
    && forall i | 0 <= i < |names| ::
         && (names[i].FirstHalf? <==> IsA(blocks, i)) && (names[i].Whole? <==> !IsA(blocks, i) && !IsB(blocks, i))
         && (names[i].SecondHalf? <==> IsB(blocks, i) && !IsA(blocks, i))
         && (names[i].SecondHalf? ==> i > 0 && names[i - 1] == FirstHalf(names[i].n))
  }

  method AssignNames(blocks: seq<Block>) returns (names: seq<FuncName>)
    ensures NamedRight(blocks, names)
  {
    names := seq(|blocks|, i => Unnamed);
    var layer := 0;
    for fi := 0 to |blocks|
      invariant |names| == |blocks|
      invariant NamesFit(blocks, names, fi, layer)
    {
      ghost var before := names;
      if IsB(blocks, fi) {
        names := names[fi - 1 := FirstHalf(layer)][fi := SecondHalf(layer)];
        NamesPair(blocks, before, fi, layer, names);
        layer := layer + 1;
      } else if IsA(blocks, fi) {
        names := names[fi := Unnamed];
        NamesOne(blocks, before, fi, layer, Unnamed, names);
      } else {
        names := names[fi := Whole(layer)];
        NamesOne(blocks, before, fi, layer, Whole(layer), names);
        layer := layer + 1;
      }
    }
    NamesDone(blocks, names, layer);
  }

  lemma NamesDone(blocks: seq<Block>, names: seq<FuncName>, layer: nat)
    requires |names| == |blocks| && NamesFit(blocks, names, |names|, layer)
    ensures NamedRight(blocks, names)
  {
    var n := |names|;
    forall i | 0 <= i < n
      ensures names[i] != Unnamed && (names[i].SecondHalf? ==> i > 0 && names[i - 1] == FirstHalf(names[i].n))
    {
      assert KindFits(blocks, names[i], i, n);
      if names[i].SecondHalf? {
        assert Closing(blocks, i, n) && KindFits(blocks, names[i - 1], i - 1, n);
      }
    }
  }

  /** An input of a compiled function, as its ABI descriptor records it. */
  datatype Field = GlobalField | SsaField(func: nat, slot: nat) | WeightField(name: string)

  function FieldOf(e: Edge): Field {
    match e
    case GlobalInput(_) => GlobalField
    case StepOutput(f, s) => SsaField(f, s)
  }

  function FieldsOf(edges: seq<Edge>): seq<Field> { seq(|edges|, i requires 0 <= i < |edges| => FieldOf(edges[i])) }

  /** The promoted weights, each once, constants left out. */
  function Promoted(names: seq<string>): (r: seq<string>)
    ensures Unique(r) && forall x :: x in r <==> x in names && !IsConst(x)
  {
    if names == [] then []
    else
      var n := |names| - 1;
      var before := Promoted(names[..n]);
      assert names == names[..n] + [names[n]];
      if names[n] in before || IsConst(names[n]) then before else before + [names[n]]
  }

  function WeightFields(names: seq<string>): seq<Field> {
    seq(|Promoted(names)|, i requires 0 <= i < |Promoted(names)| => WeightField(Promoted(names)[i]))
  }

  /** What the descriptor of function `fi` lists. */
  function InputFields(edges: seq<Edge>, fi: nat, weights: seq<string>): seq<Field> {
    FieldsOf(edges) + if fi == 0 then WeightFields(weights) else []
  }

  /** The ABI merge looks a function's plan step up by name and takes the first match; distinct names make
      that the function's own step.  Function 0 also takes the promoted weights. */
  method MergeRouting(names: seq<FuncName>, plan: seq<seq<Edge>>, weights: seq<string>)
    returns (fields: seq<seq<Field>>)
    requires |names| == |plan| && Unique(names)
    ensures |fields| == |plan| && forall fi | 0 <= fi < |plan| :: fields[fi] == InputFields(plan[fi], fi, weights)
  {
    fields := [];
    for fi := 0 to |names|
      invariant |fields| == fi && forall k | 0 <= k < fi :: fields[k] == InputFields(plan[k], k, weights)
    {
      var step := 0;
      while names[step] != names[fi]
        invariant 0 <= step <= fi
        decreases fi - step
      {
        step := step + 1;
      }
      var row := FieldsOf(plan[step]);
      if fi == 0 {
        row := row + WeightFields(weights);
      }
      fields := fields + [row];
    }
  }

  // ── Wire format ──

  function FlatEdge(e: Edge): seq<int> {
    match e
    case GlobalInput(i) => [0, i, 0]
    case StepOutput(f, s) => [1, f, s]
  }

  function FlatEdges(edges: seq<Edge>): seq<int> {
    if edges == [] then [] else FlatEdge(edges[0]) + FlatEdges(edges[1..])
  }

  function FlatSteps(steps: seq<seq<Edge>>): seq<int> {
    if steps == [] then [] else [|steps[0]|] + FlatEdges(steps[0]) + FlatSteps(steps[1..])
  }

  function FlatPlan(steps: seq<seq<Edge>>, globals: nat): seq<int> {
    [|steps|, globals] + FlatSteps(steps)
  }

  lemma {:induction false} FlatEdgesAppend(edges: seq<Edge>, e: Edge)
    ensures FlatEdges(edges + [e]) == FlatEdges(edges) + FlatEdge(e)
  {
    if edges == [] {
      assert [e][1..] == [] && edges + [e] == [e];
    } else {
      assert (edges + [e])[1..] == edges[1..] + [e];
      FlatEdgesAppend(edges[1..], e);
    }
  }

  lemma {:induction false} FlatStepsAppend(steps: seq<seq<Edge>>, edges: seq<Edge>)
    ensures FlatSteps(steps + [edges]) == FlatSteps(steps) + [|edges|] + FlatEdges(edges)
  {
    if steps == [] {
      assert [edges][1..] == [] && steps + [edges] == [edges];
    } else {
      assert (steps + [edges])[1..] == steps[1..] + [edges];
      FlatStepsAppend(steps[1..], edges);
    }
  }

  lemma FlatEdgesNext(edges: seq<Edge>, i: nat)
    requires i < |edges|
    ensures FlatEdges(edges[..i + 1]) == FlatEdges(edges[..i]) + FlatEdge(edges[i])
  {
    assert edges[..i + 1] == edges[..i] + [edges[i]];
    FlatEdgesAppend(edges[..i], edges[i]);
  }

  lemma FlatStepsNext(steps: seq<seq<Edge>>, i: nat)
    requires i < |steps|
    ensures FlatSteps(steps[..i + 1]) == FlatSteps(steps[..i]) + [|steps[i]|] + FlatEdges(steps[i])
  {
    assert steps[..i + 1] == steps[..i] + [steps[i]];
    FlatStepsAppend(steps[..i], steps[i]);
  }

  lemma Regroup(a: seq<int>, b: seq<int>, c: seq<int>)
    ensures a + b + c == a + (b + c)
  {
  }

  method FlattenPlan(steps: seq<seq<Edge>>, globals: nat) returns (data: seq<int>)
    ensures data == FlatPlan(steps, globals)
  {
    data := [|steps|, globals];
    ghost var front := data;
    for fi := 0 to |steps|
      invariant data == front + FlatSteps(steps[..fi])
    {
      data := data + [|steps[fi]|];
      ghost var before := data;
      for i := 0 to |steps[fi]|
        invariant data == before + FlatEdges(steps[fi][..i])
      {
        FlatEdgesNext(steps[fi], i);
        Regroup(before, FlatEdges(steps[fi][..i]), FlatEdge(steps[fi][i]));
        data := data + FlatEdge(steps[fi][i]);
      }
      assert steps[fi][..|steps[fi]|] == steps[fi];
      FlatStepsNext(steps, fi);
      Regroup(front, FlatSteps(steps[..fi]), [|steps[fi]|]);
      Regroup(front, FlatSteps(steps[..fi]) + [|steps[fi]|], FlatEdges(steps[fi]));
    }
    assert steps[..|steps|] == steps;
  }

  /** Reads `n` edges from the front of the array. */
  function ReadEdges(data: seq<int>, n: nat): Option<(seq<Edge>, seq<int>)> {
    if n == 0 then Some(([], data))
    else if |data| < 3 || data[0] !in {0, 1} || data[1] < 0 || data[2] < 0 then None
    else
      match ReadEdges(data[3..], n - 1)
      case None => None
      case Some((rest, tail)) =>
        Some(([if data[0] == 0 then GlobalInput(data[1]) else StepOutput(data[1], data[2])] + rest, tail))
  }

  function ReadSteps(data: seq<int>, n: nat): Option<seq<seq<Edge>>>
    decreases n
  {
    if n == 0 then (if data == [] then Some([]) else None)
    else if data == [] || data[0] < 0 then None
    else
      match ReadEdges(data[1..], data[0])
      case None => None
      case Some((edges, tail)) =>
        match ReadSteps(tail, n - 1)
        case None => None
        case Some(rest) => Some([edges] + rest)
  }

  function ReadPlan(data: seq<int>): Option<(seq<seq<Edge>>, nat)> {
    if |data| < 2 || data[0] < 0 || data[1] < 0 then None
    else match ReadSteps(data[2..], data[0])
      case None => None
      case Some(steps) => Some((steps, data[1]))
  }

  lemma ReadOne(e: Edge, rest: seq<int>, n: nat)
    ensures ReadEdges(FlatEdge(e) + rest, n + 1) ==
            match ReadEdges(rest, n) case None => None case Some((more, tail)) => Some(([e] + more, tail))
  {
    var data := FlatEdge(e) + rest;
    assert data[3..] == rest;
  }

  lemma {:induction false} ReadEdgesBack(edges: seq<Edge>, tail: seq<int>)
    ensures ReadEdges(FlatEdges(edges) + tail, |edges|) == Some((edges, tail))
  {
    if edges == [] {
      assert FlatEdges(edges) + tail == tail;
    } else {
      var rest := FlatEdges(edges[1..]) + tail;
      assert FlatEdges(edges) + tail == FlatEdge(edges[0]) + rest;
      ReadEdgesBack(edges[1..], tail);
      ReadOne(edges[0], rest, |edges| - 1);
      assert edges == [edges[0]] + edges[1..];
    }
  }

  lemma FlatStepsTail(steps: seq<seq<Edge>>)
    requires steps != []
    ensures FlatSteps(steps)[0] == |steps[0]| && FlatSteps(steps)[1..] == FlatEdges(steps[0]) + FlatSteps(steps[1..])
  {
  }

  lemma {:induction false} ReadStepsBack(steps: seq<seq<Edge>>)
    ensures ReadSteps(FlatSteps(steps), |steps|) == Some(steps)
  {
    if steps != [] {
      FlatStepsTail(steps);
      ReadEdgesBack(steps[0], FlatSteps(steps[1..]));
      ReadStepsBack(steps[1..]);
      assert steps == [steps[0]] + steps[1..];
    }
  }

  /** The flat integer array determines the plan. */
  lemma PlanRoundTrip(steps: seq<seq<Edge>>, globals: nat)
    ensures ReadPlan(FlatPlan(steps, globals)) == Some((steps, globals))
  {
    assert FlatPlan(steps, globals)[2..] == FlatSteps(steps);
    ReadStepsBack(steps);
  }

  // ── Where each word stands ──

  /** The word that opens step `i`: two words of header, then one count and three words an input for each
      earlier step. */
  function StepWord(steps: seq<seq<Edge>>, i: nat): nat
    requires i <= |steps|
  {
    if i == 0 then 2 else StepWord(steps, i - 1) + 1 + 3 * |steps[i - 1]|
  }

  /** Three words: where an input comes from, its index, and its slot or 0. */
  ghost predicate WordsOf(e: Edge, source: int, index: int, slot: int) {
    match e
    case GlobalInput(g) => source == 0 && index == g && slot == 0
    case StepOutput(f, s) => source == 1 && index == f && slot == s
  }

  lemma {:induction false} EdgeWords(edges: seq<Edge>, k: nat)
    requires k < |edges|
    ensures var f := FlatEdges(edges);
            |f| == 3 * |edges| && WordsOf(edges[k], f[3 * k], f[3 * k + 1], f[3 * k + 2])
  {
    if k > 0 {
      EdgeWords(edges[1..], k - 1);
    } else if |edges| > 1 {
      EdgeWords(edges[1..], 0);
    }
  }

  lemma EdgesLength(edges: seq<Edge>)
    ensures |FlatEdges(edges)| == 3 * |edges|
  {
    if edges != [] {
      EdgeWords(edges, 0);
    }
  }

  lemma {:induction false} StepPrefix(steps: seq<seq<Edge>>, i: nat)
    requires i <= |steps|
    ensures 2 + |FlatSteps(steps[..i])| == StepWord(steps, i)
  {
    if i > 0 {
      StepPrefix(steps, i - 1);
      FlatStepsNext(steps, i - 1);
      EdgesLength(steps[i - 1]);
    }
  }

  lemma {:induction false} FlatStepsCut(front: seq<seq<Edge>>, back: seq<seq<Edge>>)
    ensures FlatSteps(front + back) == FlatSteps(front) + FlatSteps(back)
  {
    if front == [] {
      assert front + back == back;
    } else {
      assert (front + back)[1..] == front[1..] + back;
      FlatStepsCut(front[1..], back);
    }
  }

  lemma PlanParts(steps: seq<seq<Edge>>, globals: nat, i: nat) returns (back: seq<int>)
    requires i < |steps|
    ensures FlatPlan(steps, globals) ==
            ([|steps|, globals] + FlatSteps(steps[..i])) + ([|steps[i]|] + FlatEdges(steps[i]) + back)
  {
    assert steps == steps[..i] + steps[i..];
    FlatStepsCut(steps[..i], steps[i..]);
    back := FlatSteps(steps[i..][1..]);
    Regroup([|steps|, globals], FlatSteps(steps[..i]), FlatSteps(steps[i..]));
  }

  lemma Middle(front: seq<int>, count: int, mid: seq<int>, back: seq<int>, x: nat)
    requires x < |mid|
    ensures var data, w := front + ([count] + mid + back), |front|;
            w + 1 + |mid| <= |data| && data[w] == count && data[w + 1 + x] == mid[x]
  {
  }

  lemma StepWords(steps: seq<seq<Edge>>, globals: nat, i: nat, x: nat)
    requires i < |steps| && x < |FlatEdges(steps[i])|
    ensures var data, w := FlatPlan(steps, globals), StepWord(steps, i);
            w + 1 + |FlatEdges(steps[i])| <= |data| && data[w] == |steps[i]|
            && data[w + 1 + x] == FlatEdges(steps[i])[x]
  {
    StepPrefix(steps, i);
    var back := PlanParts(steps, globals, i);
    Middle([|steps|, globals] + FlatSteps(steps[..i]), |steps[i]|, FlatEdges(steps[i]), back, x);
  }

  lemma PlanHeader(steps: seq<seq<Edge>>, globals: nat)
    ensures var data := FlatPlan(steps, globals);
            |data| == StepWord(steps, |steps|) && |data| >= 2 && data[0] == |steps| && data[1] == globals
  {
    StepPrefix(steps, |steps|);
    assert steps[..|steps|] == steps;
  }

  lemma ThreeWords(steps: seq<seq<Edge>>, globals: nat, i: nat, x: nat)
    requires i < |steps| && x + 2 < |FlatEdges(steps[i])|
    ensures var data, w, f := FlatPlan(steps, globals), StepWord(steps, i), FlatEdges(steps[i]);
            w + x + 3 < |data| && data[w] == |steps[i]|
            && data[w + x + 1] == f[x] && data[w + x + 2] == f[x + 1] && data[w + x + 3] == f[x + 2]
  {
    StepWords(steps, globals, i, x);
    StepWords(steps, globals, i, x + 1);
    StepWords(steps, globals, i, x + 2);
  }

  lemma EdgeStands(steps: seq<seq<Edge>>, globals: nat, i: nat, k: nat)
    requires i < |steps| && k < |steps[i]|
    ensures var data, w := FlatPlan(steps, globals), StepWord(steps, i);
            w + 3 * k + 3 < |data| && data[w] == |steps[i]|
            && WordsOf(steps[i][k], data[w + 3 * k + 1], data[w + 3 * k + 2], data[w + 3 * k + 3])
  {
    EdgeWords(steps[i], k);
    ThreeWords(steps, globals, i, 3 * k);
  }

  /** The wire format, word by word: both counts first, then for each step its number of inputs and three words
      an input. */
  lemma WireWords(steps: seq<seq<Edge>>, globals: nat, i: nat, k: nat)
    requires i < |steps| && k < |steps[i]|
    ensures var data := FlatPlan(steps, globals);
            |data| == StepWord(steps, |steps|) && |data| >= 2 && data[0] == |steps| && data[1] == globals
    ensures var data, w := FlatPlan(steps, globals), StepWord(steps, i);
            w + 3 * k + 3 < |data| && data[w] == |steps[i]|
            && WordsOf(steps[i][k], data[w + 3 * k + 1], data[w + 3 * k + 2], data[w + 3 * k + 3])
  {
    PlanHeader(steps, globals);
    EdgeStands(steps, globals, i, k);
  }
}
