/** The pass of a compiled dense module with its cache attached: where it is intercepted, and when the intercepts
    change nothing but the attentions. */
module CompiledPass {
  import opened Options
  import opened Ssa
  import opened Blocks
  import opened Splitter
  import opened SplitPlan
  import opened SplitCorrect
  import opened CachedRun
  import opened CachedExecutor
  import CacheContract
  import Interpreters

  // ── Where the module is intercepted ──

  /** Slabs and operands of the intercepts that apply. */
  function PlacesOf(applied: seq<CacheContract.Intercept>): Places {
    seq(|applied|, i requires 0 <= i < |applied| =>
      (applied[i].slab, if applied[i].source.Operand? then applied[i].source.index else 0))
  }

  function TablePlaces(g: Graph): Op -> Places {
    (op: Op) => PlacesOf(CacheContract.Applied(CacheContract.Table(g), op, CacheContract.SsaProducer(Funcs(g))))
  }

  /** Keys from operand 1 and values from operand 2 of every attention. */
  function DensePlaces(op: Op): Places { if op.opName == SDPA then [("k", 1), ("v", 2)] else [] }

  lemma TableIsForAttention(g: Graph)
    ensures forall i | i in CacheContract.Table(g) :: i.opName == SDPA
  {
    CacheContract.LlamaSlabs();
  }

  lemma TablePlacesAre(g: Graph, op: Op)
    requires WellFormed(g) && CacheContract.DenseModule(g) && op in Flatten(g.blocks)
    ensures TablePlaces(g)(op) == DensePlaces(op)
  {
    var table, producer := CacheContract.Table(g), CacheContract.SsaProducer(Funcs(g));
    if op.opName == SDPA {
      var f, s := CacheContract.EveryAttentionHasPair(g, op);
      PairPlaces(f, s);
    } else {
      TableIsForAttention(g);
      CacheContract.AppliedNone(table, op, producer);
    }
  }

  lemma PairPlaces(f: nat, s: nat)
    ensures PlacesOf(CacheContract.PairAt(f, s)) == [("k", 1), ("v", 2)]
  {
  }

  // ── Layers in program order ──

  const SLABS: set<string> := {"k", "v"}

  function Both(n: nat): Counters { map["k" := n, "v" := n] }

  /** The intercepts of an operation with `n` attentions before it. */
  function DenseHooks(op: Op, n: nat): seq<Hook> {
    if op.opName == SDPA then [Hook("k", n, 1), Hook("v", n, 2)] else []
  }

  function AllDenseHooks(ops: seq<Op>, n: nat): seq<seq<Hook>> {
    if ops == [] then []
    else [DenseHooks(ops[0], n)] + AllDenseHooks(ops[1..], n + if ops[0].opName == SDPA then 1 else 0)
  }

  lemma OneAttention(n: nat)
    ensures Layered([("k", 1), ("v", 2)], Both(n)) == [Hook("k", n, 1), Hook("v", n, 2)]
    ensures Advanced([("k", 1), ("v", 2)], Both(n)) == Both(n + 1)
  {
    var places: Places := [("k", 1), ("v", 2)];
    var mid := Both(n)["k" := n + 1];
    assert places[1..] == [("v", 2)];
    OnePlace(("v", 2), mid, n);
    assert mid["v" := n + 1] == Both(n + 1);
  }

  lemma OnePlace(p: (string, nat), counters: Counters, n: nat)
    requires p.0 in counters && counters[p.0] == n
    ensures Layered([p], counters) == [Hook(p.0, n, p.1)] && Advanced([p], counters) == counters[p.0 := n + 1]
  {
    assert [p][1..] == [];
  }

  ghost predicate Dense(ops: seq<Op>, place: Op -> Places) {
    forall i | 0 <= i < |ops| ::
      place(ops[i]) == DensePlaces(ops[i]) && (ops[i].opName == SDPA ==> |ops[i].operands| >= 3)
  }

  lemma DenseFits(ops: seq<Op>, place: Op -> Places)
    requires Dense(ops, place)
    ensures AllFit(ops, place, SLABS)
  {
    forall i | 0 <= i < |ops| ensures PlacesFit(ops[i], place(ops[i]), SLABS) {
      assert place(ops[i]) == DensePlaces(ops[i]);
    }
  }

  /** Attention number `n` of the pass writes and reads layer `n` of both slabs. */
  lemma {:induction false} DenseLayers(ops: seq<Op>, place: Op -> Places, n: nat)
    requires Dense(ops, place) && AllFit(ops, place, Both(n).Keys)
    ensures LayeredAll(ops, place, Both(n)) == AllDenseHooks(ops, n)
    ensures forall s | s in SLABS :: AdvancedAll(ops, place, Both(n))[s] == n + Attentions(ops)
    decreases ops
  {
    if ops != [] {
      assert place(ops[0]) == DensePlaces(ops[0]) && PlacesFit(ops[0], place(ops[0]), Both(n).Keys);
      if ops[0].opName == SDPA {
        OneAttention(n);
        DenseLayers(ops[1..], place, n + 1);
      } else {
        DenseLayers(ops[1..], place, n);
      }
    }
  }

  function Attentions(ops: seq<Op>): nat {
    if ops == [] then 0 else (if ops[0].opName == SDPA then 1 else 0) + Attentions(ops[1..])
  }

  // ── When intercepts change nothing but attentions ──

  /** No key and no value of an attention is read by anything else. */
  ghost predicate KeysAndValuesReadOnce(ops: seq<Op>) {
    forall i | 0 <= i < |ops| && ops[i].opName == SDPA :: ReadHere(ops, i, 1) && ReadHere(ops, i, 2)
  }

  lemma {:induction false} DenseHooksAt(ops: seq<Op>, n: nat, i: nat)
    requires i < |ops|
    ensures |AllDenseHooks(ops, n)| == |ops|
    ensures ops[i].opName == SDPA ==> exists l: nat :: AllDenseHooks(ops, n)[i] == [Hook("k", l, 1), Hook("v", l, 2)]
    ensures ops[i].opName != SDPA ==> AllDenseHooks(ops, n)[i] == []
    decreases ops
  {
    var next := n + if ops[0].opName == SDPA then 1 else 0;
    if i > 0 {
      DenseHooksAt(ops[1..], next, i - 1);
      assert AllDenseHooks(ops, n)[i] == AllDenseHooks(ops[1..], next)[i - 1];
    } else {
      assert AllDenseHooks(ops, n)[0] == DenseHooks(ops[0], n);
      DenseHooksLength(ops, n);
    }
  }

  lemma {:induction false} DenseHooksLength(ops: seq<Op>, n: nat)
    ensures |AllDenseHooks(ops, n)| == |ops|
    decreases ops
  {
    if ops != [] {
      DenseHooksLength(ops[1..], n + if ops[0].opName == SDPA then 1 else 0);
    }
  }

  lemma ReadOnceMeans(ops: seq<Op>, n: nat)
    ensures |AllDenseHooks(ops, n)| == |ops|
    ensures ReadOnce(ops, AllDenseHooks(ops, n)) <==> KeysAndValuesReadOnce(ops)
  {
    DenseHooksLength(ops, n);
    var hooks := AllDenseHooks(ops, n);
    forall i | 0 <= i < |ops|
      ensures (forall h: Hook | h in hooks[i] :: ReadHere(ops, i, h.operand))
              <==> (ops[i].opName == SDPA ==> ReadHere(ops, i, 1) && ReadHere(ops, i, 2))
    {
      DenseHooksAt(ops, n, i);
      if ops[i].opName == SDPA {
        var l: nat :| hooks[i] == [Hook("k", l, 1), Hook("v", l, 2)];
        assert hooks[i][0] in hooks[i] && hooks[i][1] in hooks[i];
      }
    }
  }

  lemma ModuleIsDense(g: Graph)
    requires WellFormed(g) && DimsInRange(g) && CacheContract.DenseModule(g)
    ensures Interpreters.AllOps(Funcs(g)) == Flatten(g.blocks)
    ensures Dense(Flatten(g.blocks), TablePlaces(g))
  {
    var ops, funcs := Flatten(g.blocks), Funcs(g);
    forall fi | 0 <= fi < |funcs| ensures funcs[fi].ops == g.blocks[fi] {
      BlockUnadjusted(g, fi);
    }
    OpsOfBlocks(funcs, g.blocks);
    forall i | 0 <= i < |ops|
      ensures TablePlaces(g)(ops[i]) == DensePlaces(ops[i]) && (ops[i].opName == SDPA ==> |ops[i].operands| >= 3)
    {
      assert ops[i] in ops;
      TablePlacesAre(g, ops[i]);
      if ops[i].opName == SDPA {
        var f, s := CacheContract.EveryAttentionHasPair(g, ops[i]);
      }
    }
  }

  /** The executed operations of a compiled dense module are intercepted at every attention, key and value, in the
      layer of the attention's number; the slabs need one layer per attention. */
  lemma ModuleHooks(g: Graph)
    requires WellFormed(g) && DimsInRange(g) && CacheContract.DenseModule(g)
    ensures var ops := Interpreters.AllOps(Funcs(g));
            && AllFit(ops, TablePlaces(g), SLABS)
            && LayeredAll(ops, TablePlaces(g), Zeros(SLABS)) == AllDenseHooks(ops, 0)
            && forall s | s in SLABS :: AdvancedAll(ops, TablePlaces(g), Zeros(SLABS))[s] == Attentions(ops)
  {
    ModuleIsDense(g);
    DensePass(Interpreters.AllOps(Funcs(g)), TablePlaces(g), Zeros(SLABS));
  }

  lemma DensePass(ops: seq<Op>, place: Op -> Places, start: Counters)
    requires Dense(ops, place) && start == Zeros(SLABS)
    ensures start.Keys == SLABS && AllFit(ops, place, SLABS) && LayeredAll(ops, place, start) == AllDenseHooks(ops, 0)
    ensures forall s | s in SLABS :: AdvancedAll(ops, place, start)[s] == Attentions(ops)
  {
    DenseFits(ops, place);
    ZerosAre(start);
    DenseLayers(ops, place, 0);
  }

  lemma ZerosAre(start: Counters)
    requires start == Zeros(SLABS)
    ensures start == Both(0) && start.Keys == SLABS
  {
  }

  /** For a compiled dense module the executor with its cache computes, from every input, for every cache and every
      meaning of the operations, what the attentions with replaced keys and values compute, exactly when no key
      or value of an attention is read by anything else. */
  lemma ModuleChangesOnlyAttentions(g: Graph)
    requires WellFormed(g) && DimsInRange(g) && CacheContract.DenseModule(g)
    ensures var ops := Interpreters.AllOps(Funcs(g));
            && HooksFit(ops, AllDenseHooks(ops, 0))
            && ((forall sem: Sem<int>, see: See<int>, env: Env<int> | env.Keys == Declared(g) ::
                   AgreeFor(sem, see, ops, AllDenseHooks(ops, 0), env))
                <==> KeysAndValuesReadOnce(ops))
  {
    var ops := Interpreters.AllOps(Funcs(g));
    ModuleHooks(g);
    ModuleIsDense(g);
    CachedIsDirectIff(ops, AllDenseHooks(ops, 0), Declared(g));
    ReadOnceMeans(ops, 0);
  }
}
