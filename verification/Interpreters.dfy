/** The two interpreters of a split module: the executor's flat environment and the slot-routed runner. */
module Interpreters {
  import opened Options
  import opened Ssa
  import opened Blocks
  import opened Names
  import opened DimAttrs
  import opened Splitter

  /** Arguments bound to input names; a later input with the same name wins. */
  function Bind<V>(ports: seq<Port>, args: seq<V>): Env<V>
    requires |ports| == |args|
  {
    if ports == [] then map[]
    else
      var n := |ports| - 1;
      Bind(ports[..n], args[..n])[ports[n].name := args[n]]
  }

  /** The values a function returns, in slot order. */
  function Fetch<V>(outputs: seq<Output>, env: Env<V>): Option<seq<V>> {
    if forall o | o in outputs :: o.name in env then
      Some(seq(|outputs|, i requires 0 <= i < |outputs| => assert outputs[i] in outputs; env[outputs[i].name]))
    else None
  }

  /** One compiled function, called on its arguments. */
  function Call<V>(sem: Sem<V>, f: Func, args: seq<V>): Option<seq<V>>
    requires |args| == |f.inputs|
  {
    match Run(sem, f.ops, Bind(f.inputs, args))
    case None => None
    case Some(env) => Fetch(f.outputs, env)
  }

  /** The argument an edge selects; a missing producer slot reads as zeros. */
  function EdgeValue<V>(e: Edge, globals: seq<V>, outs: seq<seq<V>>, zero: V): V {
    match e
    case GlobalInput(i) => if i < |globals| then globals[i] else zero
    case StepOutput(f, s) => if f < |outs| && s < |outs[f]| then outs[f][s] else zero
  }

  function Gather<V>(edges: seq<Edge>, globals: seq<V>, outs: seq<seq<V>>, zero: V): seq<V> {
    seq(|edges|, i requires 0 <= i < |edges| => EdgeValue(edges[i], globals, outs, zero))
  }

  ghost predicate PlanFits(funcs: seq<Func>, plan: seq<seq<Edge>>) {
    |plan| == |funcs| && forall fi | 0 <= fi < |funcs| :: |plan[fi]| == |funcs[fi].inputs|
  }

  /** Output slots of the first `n` functions, each fetching its inputs only through plan edges. */
  function SlotRun<V>(sem: Sem<V>, funcs: seq<Func>, plan: seq<seq<Edge>>, globals: seq<V>, zero: V, n: nat)
    : Option<seq<seq<V>>>
    requires PlanFits(funcs, plan) && n <= |funcs|
  {
    if n == 0 then Some([])
    else match SlotRun(sem, funcs, plan, globals, zero, n - 1)
      case None => None
      case Some(outs) =>
        match Call(sem, funcs[n - 1], Gather(plan[n - 1], globals, outs, zero))
        case None => None
        case Some(res) => Some(outs + [res])
  }

  /** The arguments of one call, fetched edge by edge. */
  method GatherArgs<V>(edges: seq<Edge>, globals: seq<V>, outs: seq<seq<V>>, zero: V) returns (args: seq<V>)
    ensures args == Gather(edges, globals, outs, zero)
  {
    args := [];
    for i := 0 to |edges|
      invariant args == Gather(edges, globals, outs, zero)[..i]
    {
      args := args + [EdgeValue(edges[i], globals, outs, zero)];
    }
  }

  method RunCtypes<V>(sem: Sem<V>, funcs: seq<Func>, plan: seq<seq<Edge>>, globals: seq<V>, zero: V)
    returns (r: Option<seq<seq<V>>>)
    requires PlanFits(funcs, plan)
    ensures r == SlotRun(sem, funcs, plan, globals, zero, |funcs|)
  {
    var funcOutputs: seq<seq<V>> := [];
    for fi := 0 to |funcs|
      invariant SlotRun(sem, funcs, plan, globals, zero, fi) == Some(funcOutputs)
    {
      var args := GatherArgs(plan[fi], globals, funcOutputs, zero);
      var res := Call(sem, funcs[fi], args);
      if res.None? {
        assert SlotRun(sem, funcs, plan, globals, zero, fi + 1).None?;
        SlotRunFails(sem, funcs, plan, globals, zero, fi + 1, |funcs|);
        return None;
      }
      funcOutputs := funcOutputs + [res.value];
    }
    return Some(funcOutputs);
  }

  lemma {:induction false} SlotRunFails<V>(
      sem: Sem<V>, funcs: seq<Func>, plan: seq<seq<Edge>>, globals: seq<V>, zero: V, k: nat, n: nat)
    requires PlanFits(funcs, plan) && k <= n <= |funcs| && SlotRun(sem, funcs, plan, globals, zero, k).None?
    ensures SlotRun(sem, funcs, plan, globals, zero, n).None?
    decreases n
  {
    if k < n {
      SlotRunFails(sem, funcs, plan, globals, zero, k, n - 1);
    }
  }

  function AllOps(funcs: seq<Func>): seq<Op> {
    if funcs == [] then [] else AllOps(funcs[..|funcs| - 1]) + funcs[|funcs| - 1].ops
  }

  /** The flat interpreter: one environment, all functions in order, values stored by name. */
  method RunForward<V>(sem: Sem<V>, funcs: seq<Func>, inputs: Env<V>) returns (r: Option<Env<V>>)
    ensures r == Run(sem, AllOps(funcs), inputs)
  {
    var values := inputs;
    assert AllOps(funcs[..0]) == [];
    for fi := 0 to |funcs|
      invariant Run(sem, AllOps(funcs[..fi]), inputs) == Some(values)
    {
      var ops := funcs[fi].ops;
      assert funcs[..fi + 1][..fi] == funcs[..fi] && AllOps(funcs[..fi + 1]) == AllOps(funcs[..fi]) + ops;
      RunConcat(sem, AllOps(funcs[..fi]), ops, inputs);
      ghost var before := values;
      for i := 0 to |ops|
        invariant Run(sem, ops, before) == Run(sem, ops[i..], values)
      {
        if !Ready(ops[i], values.Keys) {
          AllOpsFails(sem, funcs, inputs, fi + 1);
          return None;
        }
        values := values[ops[i].result := Value(sem, ops[i], values)];
        assert ops[i..][1..] == ops[i + 1..];
      }
    }
    assert funcs[..|funcs|] == funcs;
    return Some(values);
  }

  lemma {:induction false} AllOpsFails<V>(sem: Sem<V>, funcs: seq<Func>, inputs: Env<V>, n: nat)
    requires n <= |funcs| && Run(sem, AllOps(funcs[..n]), inputs).None?
    ensures Run(sem, AllOps(funcs), inputs).None?
    decreases |funcs|
  {
    if n < |funcs| {
      var init := funcs[..|funcs| - 1];
      assert init[..n] == funcs[..n];
      AllOpsFails(sem, init, inputs, n);
      RunConcat(sem, AllOps(init), funcs[|funcs| - 1].ops, inputs);
    } else {
      assert funcs[..n] == funcs;
    }
  }
}
