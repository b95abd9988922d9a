/** The KV-cache contract between splitter and executor: bindings made at compile time select, at run
    time, exactly the attention they were made for, and layers are numbered in program order. */
module CacheContract {
  import opened Options
  import opened Lists
  import opened Ssa
  import opened Blocks
  import opened Names
  import opened DimAttrs
  import opened Splitter
  import opened SplitPlan
  import opened SplitCorrect

  datatype Source = Operand(index: nat) | ResultValue | Named(text: string)

  datatype Intercept = Intercept(slab: string, opName: string, direction: string, source: Source,
                                 layer: string, func: Option<nat>, slot: Option<nat>)

  // ── Policy and binding ──

  /** The standard attention policy: keys from operand 1, values from operand 2. */
  const LLAMA: seq<Intercept> :=
    [Intercept("k", SDPA, "read_write", Operand(1), "sequential", None, None),
     Intercept("v", SDPA, "read_write", Operand(2), "sequential", None, None)]

  /** The slab each attention operand is cached in, as the splitter reads it off the policy. */
  function OperandSlabs(policy: seq<Intercept>): map<int, string> {
    if policy == [] then map[]
    else
      var i := policy[|policy| - 1];
      var before := OperandSlabs(policy[..|policy| - 1]);
      if i.opName == SDPA && i.source.Operand? then before[i.source.index := i.slab] else before
  }

  function Templates(policy: seq<Intercept>): map<string, Intercept> {
    if policy == [] then map[]
    else
      var i := policy[|policy| - 1];
      var before := Templates(policy[..|policy| - 1]);
      if i.opName == SDPA then before[i.slab := i] else before
  }

  function Others(policy: seq<Intercept>): seq<Intercept> {
    if policy == [] then []
    else
      var i := policy[|policy| - 1];
      Others(policy[..|policy| - 1]) + if i.opName != SDPA then [i] else []
  }

  function Entry(templates: map<string, Intercept>, b: Binding): Intercept {
    if b.slab in templates then
      var t := templates[b.slab];
      Intercept(b.slab, SDPA, t.direction, t.source, t.layer, Some(b.func), Some(b.slot))
    else Intercept(b.slab, SDPA, "read_write", Operand(1), "sequential", Some(b.func), Some(b.slot))
  }

  function Entries(templates: map<string, Intercept>, bindings: seq<Binding>): seq<Intercept> {
    seq(|bindings|, i requires 0 <= i < |bindings| => Entry(templates, bindings[i]))
  }

  function Bound(policy: seq<Intercept>, bindings: seq<Binding>): seq<Intercept> {
    if bindings == [] then policy else Others(policy) + Entries(Templates(policy), bindings)
  }

  method BindCachePolicy(policy: seq<Intercept>, bindings: seq<Binding>) returns (r: seq<Intercept>)
    ensures r == Bound(policy, bindings)
  {
    if bindings == [] {
      return policy;
    }
    var templates := Templates(policy);
    r := Others(policy);
    for i := 0 to |bindings|
      invariant r == Others(policy) + Entries(templates, bindings[..i])
    {
      r := r + [Entry(templates, bindings[i])];
      assert Entries(templates, bindings[..i + 1])
          == Entries(templates, bindings[..i]) + [Entry(templates, bindings[i])];
    }
    assert bindings[..|bindings|] == bindings;
  }

  // ── What binding keeps and adds, told from the policy alone ──

  /** `at` lists in order the places of the intercepts for operations other than attention. */
  ghost predicate OthersAt(policy: seq<Intercept>, at: seq<nat>) {
    && Increasing(at)
    && forall k: nat :: k in at <==> k < |policy| && policy[k].opName != "scaled_dot_product_attention"
  }

  /** The last attention intercept of a slab. */
  ghost predicate LastOf(policy: seq<Intercept>, slab: string, t: nat) {
    && t < |policy| && policy[t].opName == "scaled_dot_product_attention" && policy[t].slab == slab
    && forall j | t < j < |policy| && policy[j].opName == "scaled_dot_product_attention" :: policy[j].slab != slab
  }

  /** The concrete intercept of a binding: the last template of its slab, without one the standard key intercept,
      at the function and slot of the binding. */
  ghost predicate EntryFor(policy: seq<Intercept>, b: Binding, i: Intercept) {
    && i.slab == b.slab && i.opName == "scaled_dot_product_attention"
    && i.func == Some(b.func) && i.slot == Some(b.slot)
    && (forall t: nat | LastOf(policy, b.slab, t) ::
          i.direction == policy[t].direction && i.source == policy[t].source && i.layer == policy[t].layer)
    && ((forall t: nat :: !LastOf(policy, b.slab, t)) ==>
          i.direction == "read_write" && i.source == Operand(1) && i.layer == "sequential")
  }

  ghost predicate BoundFor(policy: seq<Intercept>, bindings: seq<Binding>, r: seq<Intercept>, at: seq<nat>) {
    && OthersAt(policy, at) && |r| == |at| + |bindings|
    && (forall i | 0 <= i < |at| :: at[i] < |policy| && r[i] == policy[at[i]])
    && forall b | 0 <= b < |bindings| :: EntryFor(policy, bindings[b], r[|at| + b])
  }

  lemma {:induction false} OthersAre(policy: seq<Intercept>) returns (at: seq<nat>)
    ensures OthersAt(policy, at) && |Others(policy)| == |at|
    ensures forall i | 0 <= i < |at| :: at[i] < |policy| && Others(policy)[i] == policy[at[i]]
  {
    at := [];
    if policy != [] {
      var n := |policy| - 1;
      at := OthersAre(policy[..n]);
      assert forall k: nat | k < n :: policy[..n][k] == policy[k];
      if policy[n].opName != "scaled_dot_product_attention" {
        at := at + [n];
      }
    }
  }

  lemma {:induction false} TemplateIsLast(policy: seq<Intercept>, slab: string, t: nat)
    ensures LastOf(policy, slab, t) ==> slab in Templates(policy) && Templates(policy)[slab] == policy[t]
    decreases |policy|
  {
    if policy != [] && t < |policy| - 1 {
      TemplateIsLast(policy[..|policy| - 1], slab, t);
      assert LastOf(policy, slab, t) ==> LastOf(policy[..|policy| - 1], slab, t);
    }
  }

  lemma {:induction false} TemplateFrom(policy: seq<Intercept>, slab: string) returns (t: nat)
    requires slab in Templates(policy)
    ensures LastOf(policy, slab, t)
  {
    var n := |policy| - 1;
    if policy[n].opName == SDPA && policy[n].slab == slab {
      t := n;
    } else {
      t := TemplateFrom(policy[..n], slab);
    }
  }

  lemma EntryIsFor(policy: seq<Intercept>, b: Binding)
    ensures EntryFor(policy, b, Entry(Templates(policy), b))
  {
    forall t: nat | LastOf(policy, b.slab, t)
      ensures b.slab in Templates(policy) && Templates(policy)[b.slab] == policy[t]
    {
      TemplateIsLast(policy, b.slab, t);
    }
    if b.slab in Templates(policy) {
      var t := TemplateFrom(policy, b.slab);
    }
  }

  /** Binding keeps the intercepts of other operations in order and adds one per binding; without bindings the
      policy stays as it is. */
  lemma BoundExact(policy: seq<Intercept>, bindings: seq<Binding>) returns (at: seq<nat>)
    ensures bindings == [] ==> Bound(policy, bindings) == policy
    ensures bindings != [] ==> BoundFor(policy, bindings, Bound(policy, bindings), at)
  {
    at := OthersAre(policy);
    forall b | 0 <= b < |bindings| ensures EntryFor(policy, bindings[b], Entries(Templates(policy), bindings)[b]) {
      EntryIsFor(policy, bindings[b]);
    }
  }

  /** The last attention intercept with the operand as its source. */
  ghost predicate LastSource(policy: seq<Intercept>, operand: nat, t: nat) {
    && t < |policy| && policy[t].opName == "scaled_dot_product_attention" && policy[t].source == Operand(operand)
    && forall j | t < j < |policy| && policy[j].opName == "scaled_dot_product_attention" ::
         policy[j].source != Operand(operand)
  }

  /** The splitter reads an operand's slab off the last attention intercept that names the operand. */
  lemma {:induction false} SlabIs(policy: seq<Intercept>, operand: nat, slab: string)
    ensures operand in OperandSlabs(policy) && OperandSlabs(policy)[operand] == slab
            <==> exists t: nat :: LastSource(policy, operand, t) && policy[t].slab == slab
  {
    if policy != [] {
      var n := |policy| - 1;
      SlabIs(policy[..n], operand, slab);
      if policy[n].opName == SDPA && policy[n].source == Operand(operand) {
        assert LastSource(policy, operand, n);
      } else {
        forall t: nat ensures LastSource(policy, operand, t) <==> LastSource(policy[..n], operand, t) {
        }
      }
    }
  }

  // ── Run-time matching ──

  /** Output name → (function, slot); a later function or slot wins. */
  function SlotsOf(f: nat, outputs: seq<Output>): map<Name, (nat, nat)> {
    if outputs == [] then map[]
    else
      var n := |outputs| - 1;
      SlotsOf(f, outputs[..n])[outputs[n].name := (f, n)]
  }

  function SsaProducer(funcs: seq<Func>): map<Name, (nat, nat)> {
    if funcs == [] then map[]
    else
      var n := |funcs| - 1;
      SsaProducer(funcs[..n]) + SlotsOf(n, funcs[n].outputs)
  }

  /** The contract keys an intercept carries. */
  function Params(i: Intercept): seq<nat> {
    (if i.func.Some? then [i.func.value] else []) + (if i.slot.Some? then [i.slot.value] else [])
  }

  /** Does the intercept apply to this operation?  With contract keys, its source operand must come from
      exactly that function output. */
  predicate Applies(i: Intercept, op: Op, producer: map<Name, (nat, nat)>) {
    && i.opName == op.opName
    && i.direction in {"write", "read_write"}
    && (|Params(i)| >= 2 ==>
          && i.source.Operand? && i.source.index < |op.operands|
          && op.operands[i.source.index] in producer
          && producer[op.operands[i.source.index]] == (Params(i)[0], Params(i)[1]))
  }

  /** Intercepts that write apply the same whether or not they also read; one that only reads never applies. */
  lemma WritersApply(i: Intercept, op: Op, producer: map<Name, (nat, nat)>)
    ensures Applies(i.(direction := "write"), op, producer) <==> Applies(i.(direction := "read_write"), op, producer)
    ensures !Applies(i.(direction := "read"), op, producer)
  {
  }

  function Applied(intercepts: seq<Intercept>, op: Op, producer: map<Name, (nat, nat)>): seq<Intercept> {
    if intercepts == [] then []
    else
      var n := |intercepts| - 1;
      Applied(intercepts[..n], op, producer) + if Applies(intercepts[n], op, producer) then [intercepts[n]] else []
  }

  lemma {:induction false} AppliedConcat(a: seq<Intercept>, b: seq<Intercept>, op: Op, producer: map<Name, (nat, nat)>)
    ensures Applied(a + b, op, producer) == Applied(a, op, producer) + Applied(b, op, producer)
  {
    if b == [] {
      assert a + b == a;
    } else {
      var n := |b| - 1;
      assert (a + b)[..|a + b| - 1] == a + b[..n];
      AppliedConcat(a, b[..n], op, producer);
    }
  }

  lemma {:induction false} AppliedNone(a: seq<Intercept>, op: Op, producer: map<Name, (nat, nat)>)
    requires forall i | i in a :: !Applies(i, op, producer)
    ensures Applied(a, op, producer) == []
  {
    if a != [] {
      AppliedNone(a[..|a| - 1], op, producer);
      assert a[|a| - 1] in a;
    }
  }

  // ── Dense attention ──

  /** The block opens with an attention whose query, key and value are three different names. */
  ghost predicate DenseArgs(block: Block) {
    && block != [] && block[0].opName == SDPA && |block[0].operands| >= 3
    && var args := block[0].operands;
       && args[0] != args[1] && args[0] != args[2] && args[1] != args[2]
       && args[1] != "" && args[2] != ""
  }

  /** The attention that opens block `a + 1` reads a key and a value produced by block `a`. */
  ghost predicate DenseSdpa(blocks: seq<Block>, a: nat) {
    && a + 1 < |blocks| && DenseArgs(blocks[a + 1])
    && blocks[a + 1][0].operands[1] in Results(blocks[a])
    && blocks[a + 1][0].operands[2] in Results(blocks[a])
  }

  predicate IsSdpaAt(blocks: seq<Block>, fi: nat, p: nat) {
    fi < |blocks| && p < |blocks[fi]| && blocks[fi][p].opName == SDPA
  }

  /** Every attention opens a block after the first, densely. */
  ghost predicate DenseModule(g: Graph) {
    forall fi: nat, p: nat | IsSdpaAt(g.blocks, fi, p) :: p == 0 && fi > 0 && DenseSdpa(g.blocks, fi - 1)
  }

  /** When every attention is a boundary, attentions are found only at the start of blocks. */
  lemma {:induction false} SdpaOpensBlock(blocks: seq<Block>, cuts: set<int>, fi: nat, p: nat)
    requires CutExactly(blocks, cuts)
    requires forall i | 0 <= i < |Flatten(blocks)| && Flatten(blocks)[i].opName == SDPA :: i in cuts
    requires fi < |blocks| && p < |blocks[fi]| && blocks[fi][p].opName == SDPA
    ensures p == 0
  {
    var n := |blocks| - 1;
    var init, flat := Flatten(blocks[..n]), Flatten(blocks);
    assert flat == init + blocks[n];
    if fi == n {
      assert flat[|init| + p] == blocks[n][p];
      assert |init| + p in cuts;
    } else {
      forall i | 0 <= i < |init| && init[i].opName == SDPA ensures i in cuts {
        assert flat[i] == init[i];
      }
      SdpaOpensBlock(blocks[..n], cuts, fi, p);
    }
  }

  lemma DenseIsA(g: Graph, a: nat)
    requires WellFormed(g) && DenseModule(g) && a < |g.blocks| && IsA(g.blocks, a)
    ensures DenseSdpa(g.blocks, a)
    ensures var args := g.blocks[a + 1][0].operands;
            AttentionSources(g.blocks[a + 1]) == Qkv(args[0], args[1], args[2])
  {
    var block := g.blocks[a + 1];
    assert IsSdpaAt(g.blocks, a + 1, SdpaPos(block).value);
    assert SdpaPos(block) == Some(0);
    TraceStays(g, a, block[0].operands[1]);
    TraceStays(g, a, block[0].operands[2]);
  }

  lemma TraceStays(g: Graph, a: nat, x: Name)
    requires WellFormed(g) && a + 1 < |g.blocks| && x in Results(g.blocks[a])
    ensures Trace(g.blocks[a + 1], x, MAX_TRACE) == x
  {
    var r := LocalProducer(g.blocks[a + 1], x);
    if r.Some? {
      assert Results(g.blocks[a + 1])[r.value] == x;
      ProducedOnce(g, a, a + 1, x);
    }
  }

  // ── The bindings of one a-block ──

  lemma {:induction false} UnconsumedTail(f: nat, outputs: seq<Output>, slabFor: map<Name, string>, m: nat)
    requires m <= |outputs| && forall i | m <= i < |outputs| :: !outputs[i].consumed
    ensures BlockBindings(f, outputs, slabFor) == BlockBindings(f, outputs[..m], slabFor)
    decreases |outputs|
  {
    if m < |outputs| {
      UnconsumedTail(f, outputs[..|outputs| - 1], slabFor, m);
      assert outputs[..|outputs| - 1][..m] == outputs[..m];
    } else {
      assert outputs[..m] == outputs;
    }
  }

  /** Where the key sits among the outputs of an a-block: after the query if the block exports it. */
  function KeyPos(exported: seq<Name>, q: Name): nat { if q != "" && q in exported then 1 else 0 }

  /** The output slot of the key in a-block `a`; the value has the next slot. */
  function KeySlot(g: Graph, a: nat): nat
    requires a + 1 < |g.blocks| && g.blocks[a + 1] != [] && |g.blocks[a + 1][0].operands| >= 3
  {
    KeyPos(Exported(g, a), g.blocks[a + 1][0].operands[0])
  }

  /** An a-block's outputs start [query, key, value], or [key, value] when the query comes from elsewhere. */
  lemma OrderStartsQkv(blocks: seq<Block>, a: nat, exported: seq<Name>, s: Qkv)
    requires a < |blocks| && IsA(blocks, a) && AttentionSources(blocks[a + 1]) == s && Unique(exported)
    requires s.k in exported && s.v in exported && s.k != "" && s.v != ""
    requires s.q != s.k && s.q != s.v && s.k != s.v
    ensures var order, p := OrderOutputs(blocks, a, exported), KeyPos(exported, s.q);
            p + 1 < |order| && order[p] == s.k && order[p + 1] == s.v && Unique(order)
  {
    var keep := (x: Name) => x != "" && x in exported;
    var head := Filter([s.q, s.k, s.v], keep);
    FilterThree(s.q, s.k, s.v, keep);
    var tail := Filter(Sort(exported), x => x !in head);
    UniqueConcat(head, tail);
    assert OrderOutputs(blocks, a, exported) == head + tail;
  }

  lemma FilterThree(q: Name, k: Name, v: Name, keep: Name -> bool)
    requires keep(k) && keep(v)
    ensures Filter([q, k, v], keep) == if keep(q) then [q, k, v] else [k, v]
  {
    assert [q, k, v][..2] == [q, k] && [q, k][..1] == [q] && [q][..0] == [];
    assert Filter([q], keep) == if keep(q) then [q] else [];
    assert Filter([q, k], keep) == Filter([q], keep) + [k];
  }

  const KV_SLABS: map<int, string> := map[1 := "k", 2 := "v"]

  lemma LlamaSlabs()
    ensures OperandSlabs(LLAMA) == KV_SLABS
    ensures Templates(LLAMA) == map["k" := LLAMA[0], "v" := LLAMA[1]]
    ensures Others(LLAMA) == []
  {
    assert LLAMA[..1] == [LLAMA[0]] && [LLAMA[0]][..0] == [];
    assert OperandSlabs([LLAMA[0]]) == map[1 := "k"];
    assert Templates([LLAMA[0]]) == map["k" := LLAMA[0]];
    assert Others([LLAMA[0]]) == [];
  }

  /** Block `a` exports the key and value that the attention opening the next block reads. */
  ghost predicate QkvExported(g: Graph, a: nat) {
    && a + 1 < |g.blocks| && IsA(g.blocks, a) && DenseArgs(g.blocks[a + 1])
    && var args, exported := g.blocks[a + 1][0].operands, Exported(g, a);
       && AttentionSources(g.blocks[a + 1]) == Qkv(args[0], args[1], args[2])
       && args[1] in exported && args[2] in exported && Unique(exported)
  }

  /** Every a-block of the module does. */
  ghost predicate DenseExports(g: Graph) {
    forall a | 0 <= a < |g.blocks| && IsA(g.blocks, a) :: QkvExported(g, a)
  }

  lemma DenseModuleExports(g: Graph)
    requires WellFormed(g) && DenseModule(g)
    ensures DenseExports(g)
  {
    forall a | 0 <= a < |g.blocks| && IsA(g.blocks, a) ensures QkvExported(g, a) {
      KeyValueExported(g, a);
    }
  }

  lemma KeyValueExported(g: Graph, a: nat)
    requires WellFormed(g) && DenseModule(g) && a < |g.blocks| && IsA(g.blocks, a)
    ensures QkvExported(g, a)
  {
    DenseIsA(g, a);
    UniqueExports(g, a);
    var args := g.blocks[a + 1][0].operands;
    UsedNextIsExported(g, a, args[1]);
    UsedNextIsExported(g, a, args[2]);
  }

  lemma UniqueExports(g: Graph, a: nat)
    requires WellFormed(g) && a < |g.blocks|
    ensures Unique(Exported(g, a))
  {
    BlocksSsa(g.blocks, Declared(g));
    SsaFormByIndex(g.blocks[a], Known(g.blocks, Declared(g), a));
    assert Unique(Results(g.blocks[a]));
  }

  lemma UsedNextIsExported(g: Graph, a: nat, x: Name)
    requires a + 1 < |g.blocks| && g.blocks[a + 1] != [] && x in g.blocks[a + 1][0].operands
    requires x in Results(g.blocks[a])
    ensures x in Exported(g, a)
  {
    assert g.blocks[a + 1][0] in g.blocks[a + 1];
    assert UsedLater(g.blocks, a, x);
  }

  /** The output list a block gets from a nonempty order. */
  function Describe(order: seq<Name>, marked: set<Name>): seq<Output> {
    seq(|order|, i requires 0 <= i < |order| => Output(order[i], order[i] in marked))
  }

  lemma DescribeNames(order: seq<Name>, marked: set<Name>)
    ensures OutputNames(Describe(order, marked)) == order
  {
  }

  /** Key and value sit at slots `s` and `s + 1`, and nothing else goes to the cache. */
  ghost predicate KvAt(outs: seq<Output>, s: nat, k: Name, v: Name) {
    && s + 1 < |outs| && outs[s].name == k && outs[s + 1].name == v
    && Unique(OutputNames(outs))
    && forall i | 0 <= i < |outs| :: outs[i].consumed <==> i == s || i == s + 1
  }

  lemma OutputsFromExports(g: Graph, a: nat, s: Qkv)
    requires a < |g.blocks| && IsA(g.blocks, a) && AttentionSources(g.blocks[a + 1]) == s
    requires var exported := Exported(g, a); s.k in exported && s.v in exported && Unique(exported)
    requires s.k != "" && s.v != "" && s.q != s.k && s.q != s.v && s.k != s.v
    ensures KvAt(Outputs(g, a), KeyPos(Exported(g, a), s.q), s.k, s.v)
  {
    OrderStartsQkv(g.blocks, a, Exported(g, a), s);
    OutputsDescribed(g, a);
    assert Marked(g.blocks, a) == {s.k, s.v};
    DescribeQkv(OutputOrder(g, a), KeyPos(Exported(g, a), s.q), s.k, s.v);
  }

  /** The outputs of an a-block. */
  lemma ABlockOutputs(g: Graph, a: nat)
    requires QkvExported(g, a)
    ensures var args := g.blocks[a + 1][0].operands; KvAt(Outputs(g, a), KeySlot(g, a), args[1], args[2])
  {
    var args := g.blocks[a + 1][0].operands;
    OutputsFromExports(g, a, Qkv(args[0], args[1], args[2]));
  }

  lemma OutputsDescribed(g: Graph, a: nat)
    requires a < |g.blocks| && OutputOrder(g, a) != []
    ensures Outputs(g, a) == Describe(OutputOrder(g, a), Marked(g.blocks, a))
  {
  }

  lemma DescribeQkv(order: seq<Name>, s: nat, k: Name, v: Name)
    requires s + 1 < |order| && order[s] == k && order[s + 1] == v && Unique(order)
    ensures KvAt(Describe(order, {k, v}), s, k, v)
  {
    DescribeNames(order, {k, v});
  }

  /** An a-block contributes its key binding and then its value binding, at those names' output slots. */
  lemma ABlockBindings(g: Graph, a: nat)
    requires QkvExported(g, a)
    ensures BindingsOf(g, a) == [Binding(a, KeySlot(g, a), "k"), Binding(a, KeySlot(g, a) + 1, "v")]
  {
    ABlockOutputs(g, a);
    var args := g.blocks[a + 1][0].operands;
    SlabsOfABlock(g.blocks, a, Qkv(args[0], args[1], args[2]));
    TwoBindings(a, Outputs(g, a), KeySlot(g, a), args[1], args[2]);
  }

  lemma SlabsOfABlock(blocks: seq<Block>, a: nat, s: Qkv)
    requires a < |blocks| && IsA(blocks, a) && AttentionSources(blocks[a + 1]) == s && s.k != "" && s.v != ""
    ensures SlabFor(blocks, a, KV_SLABS) == map[s.k := "k", s.v := "v"]
  {
  }

  /** The cache bindings block `a` contributes under the standard policy. */
  function BindingsOf(g: Graph, a: nat): seq<Binding>
    requires a < |g.blocks|
  {
    BlockBindings(a, Outputs(g, a), SlabFor(g.blocks, a, KV_SLABS))
  }

  lemma TwoBindings(f: nat, outs: seq<Output>, s: nat, k: Name, v: Name)
    requires s <= 1 && k != v && KvAt(outs, s, k, v)
    ensures BlockBindings(f, outs, map[k := "k", v := "v"]) == [Binding(f, s, "k"), Binding(f, s + 1, "v")]
  {
    var slabFor := map[k := "k", v := "v"];
    UnconsumedTail(f, outs, slabFor, s + 2);
    assert outs[..s + 2][..s + 1] == outs[..s + 1] && outs[..s + 1][..s] == outs[..s];
    UnconsumedTail(f, outs[..s], slabFor, 0);
    assert outs[..s][..0] == [];
    assert BlockBindings(f, outs[..s + 1], slabFor) == [Binding(f, s, "k")];
  }

  lemma OtherBlockBindings(g: Graph, a: nat)
    requires a < |g.blocks| && !IsA(g.blocks, a)
    ensures BindingsOf(g, a) == []
  {
    var outs := Outputs(g, a);
    UnconsumedTail(a, outs, SlabFor(g.blocks, a, KV_SLABS), 0);
    assert outs[..0] == [];
  }

  // ── The producer map at run time ──

  lemma {:induction false} SlotsOfExact(f: nat, outputs: seq<Output>, s: nat)
    requires s < |outputs| && Unique(OutputNames(outputs))
    ensures outputs[s].name in SlotsOf(f, outputs) && SlotsOf(f, outputs)[outputs[s].name] == (f, s)
  {
    var n := |outputs| - 1;
    assert OutputNames(outputs) == OutputNames(outputs[..n]) + [outputs[n].name];
    if s < n {
      UniqueSplit(OutputNames(outputs[..n]), [outputs[n].name]);
      assert OutputNames(outputs[..n])[s] == outputs[s].name;
      assert outputs[n].name in [outputs[n].name];
      SlotsOfExact(f, outputs[..n], s);
    }
  }

  lemma {:induction false} SlotsOfKeys(f: nat, outputs: seq<Output>)
    ensures SlotsOf(f, outputs).Keys == Elems(OutputNames(outputs))
  {
    if outputs != [] {
      var n := |outputs| - 1;
      SlotsOfKeys(f, outputs[..n]);
      assert OutputNames(outputs) == OutputNames(outputs[..n]) + [outputs[n].name];
    } else {
      assert OutputNames(outputs) == [];
    }
  }

  /** A name that one function outputs once and no later function outputs is found at that slot. */
  lemma {:induction false} SsaProducerExact(funcs: seq<Func>, f: nat, s: nat)
    requires f < |funcs| && s < |funcs[f].outputs| && Unique(OutputNames(funcs[f].outputs))
    requires forall j | f < j < |funcs| :: funcs[f].outputs[s].name !in OutputNames(funcs[j].outputs)
    ensures var x := funcs[f].outputs[s].name; x in SsaProducer(funcs) && SsaProducer(funcs)[x] == (f, s)
  {
    var n := |funcs| - 1;
    SlotsOfKeys(n, funcs[n].outputs);
    if f == n {
      SlotsOfExact(n, funcs[n].outputs, s);
    } else {
      SsaProducerExact(funcs[..n], f, s);
    }
  }

  lemma OutputElsewhere(g: Graph, f: nat, j: nat, s: nat)
    requires WellFormed(g) && f < j < |g.blocks| && s < |Outputs(g, f)|
    ensures Outputs(g, f)[s].name !in OutputNames(Outputs(g, j))
  {
    var x := Outputs(g, f)[s].name;
    OutputsProduced(g, f, s);
    if x in OutputNames(Outputs(g, j)) {
      var s' :| 0 <= s' < |Outputs(g, j)| && OutputNames(Outputs(g, j))[s'] == x;
      OutputsProduced(g, j, s');
      ProducedOnce(g, f, j, x);
    }
  }

  lemma ProducerOfOutput(g: Graph, f: nat, s: nat)
    requires WellFormed(g) && f < |g.blocks| && s < |Outputs(g, f)| && Unique(OutputNames(Outputs(g, f)))
    ensures var x := Outputs(g, f)[s].name;
            x in SsaProducer(Funcs(g)) && SsaProducer(Funcs(g))[x] == (f, s)
  {
    var x, funcs := Outputs(g, f)[s].name, Funcs(g);
    OutputsOfFunc(g, f);
    forall j | f < j < |funcs| ensures x !in OutputNames(funcs[j].outputs) {
      OutputElsewhere(g, f, j, s);
      OutputsOfFunc(g, j);
    }
    SsaProducerExact(funcs, f, s);
  }

  lemma OutputsOfFunc(g: Graph, j: nat)
    requires WellFormed(g) && j < |g.blocks|
    ensures j < |Funcs(g)| && Funcs(g)[j].outputs == Outputs(g, j)
  {
  }

  // ── End to end ──

  /** The intercepts a key binding at slot `s` of function `f` and the value binding after it turn into. */
  function PairAt(f: nat, s: nat): seq<Intercept> {
    [Intercept("k", "scaled_dot_product_attention", "read_write", Operand(1), "sequential", Some(f), Some(s)),
     Intercept("v", "scaled_dot_product_attention", "read_write", Operand(2), "sequential", Some(f), Some(s + 1))]
  }

  /** Key and value of the attention are found at slots `s` and `s + 1` of function `f`. */
  ghost predicate ReadsFrom(op: Op, producer: map<Name, (nat, nat)>, f: nat, s: nat) {
    && op.opName == SDPA && |op.operands| >= 3
    && op.operands[1] in producer && producer[op.operands[1]] == (f, s)
    && op.operands[2] in producer && producer[op.operands[2]] == (f, s + 1)
  }

  function LlamaEntries(bindings: seq<Binding>): seq<Intercept> { Entries(Templates(LLAMA), bindings) }

  lemma EntriesConcat(a: seq<Binding>, b: seq<Binding>)
    ensures LlamaEntries(a + b) == LlamaEntries(a) + LlamaEntries(b)
  {
  }

  /** A pair of intercepts applies, as a whole, exactly when it belongs to the function read from. */
  lemma PairApplies(op: Op, producer: map<Name, (nat, nat)>, f: nat, s: nat, a: nat, p: nat)
    requires ReadsFrom(op, producer, f, s) && (a == f ==> p == s)
    ensures Applied(LlamaEntries([Binding(a, p, "k"), Binding(a, p + 1, "v")]), op, producer)
            == if a == f then PairAt(f, s) else []
  {
    LlamaSlabs();
    var k, v := PairAt(a, p)[0], PairAt(a, p)[1];
    assert LlamaEntries([Binding(a, p, "k"), Binding(a, p + 1, "v")]) == [k, v];
    assert Params(k) == [a, p] && Params(v) == [a, p + 1];
    AppliedTwo(k, v, op, producer);
  }

  lemma AppliedTwo(k: Intercept, v: Intercept, op: Op, producer: map<Name, (nat, nat)>)
    ensures Applied([k, v], op, producer) ==
            (if Applies(k, op, producer) then [k] else []) + (if Applies(v, op, producer) then [v] else [])
  {
    assert [k, v][..1] == [k] && [k][..0] == [];
    assert Applied([k], op, producer) == if Applies(k, op, producer) then [k] else [];
  }

  /** What the bindings of block `a` do at an attention that reads from function `f`. */
  lemma AppliedFromBlock(g: Graph, op: Op, producer: map<Name, (nat, nat)>, f: nat, s: nat, a: nat)
    requires DenseExports(g) && a < |g.blocks| && ReadsFrom(op, producer, f, s)
    requires QkvExported(g, f) && s == KeySlot(g, f)
    ensures Applied(LlamaEntries(BindingsOf(g, a)), op, producer) == if a == f then PairAt(f, s) else []
  {
    if IsA(g.blocks, a) {
      ABlockBindings(g, a);
      PairApplies(op, producer, f, s, a, KeySlot(g, a));
    } else {
      OtherBlockBindings(g, a);
      assert LlamaEntries([]) == [];
    }
  }

  /** Applied(before ++ last) from its parts. */
  lemma AppliedStep(before: seq<Binding>, last: seq<Binding>, op: Op, producer: map<Name, (nat, nat)>)
    ensures Applied(LlamaEntries(before + last), op, producer) ==
            Applied(LlamaEntries(before), op, producer) + Applied(LlamaEntries(last), op, producer)
  {
    EntriesConcat(before, last);
    AppliedConcat(LlamaEntries(before), LlamaEntries(last), op, producer);
  }

  function Join(parts: seq<seq<Binding>>): seq<Binding> {
    if parts == [] then [] else Join(parts[..|parts| - 1]) + parts[|parts| - 1]
  }

  ghost predicate Splits(h: seq<Binding> -> seq<Intercept>, a: seq<Binding>, b: seq<Binding>) {
    h(a + b) == h(a) + h(b)
  }

  /** A function that treats binding tables piecewise, and is empty on all pieces but one, gives that one. */
  lemma {:induction false} OwnPart(h: seq<Binding> -> seq<Intercept>, parts: seq<seq<Binding>>, f: nat,
                                   own: seq<Intercept>)
    requires h([]) == [] && forall a, b :: Splits(h, a, b)
    requires forall a | 0 <= a < |parts| :: h(parts[a]) == if a == f then own else []
    ensures h(Join(parts)) == if f < |parts| then own else []
  {
    if parts != [] {
      var n := |parts| - 1;
      OwnPart(h, parts[..n], f, own);
      assert Splits(h, Join(parts[..n]), parts[n]);
    }
  }

  /** Only the own part of a binding table applies. */
  lemma AppliedJoin(parts: seq<seq<Binding>>, op: Op, producer: map<Name, (nat, nat)>, f: nat, own: seq<Intercept>)
    requires forall a | 0 <= a < |parts| :: Applied(LlamaEntries(parts[a]), op, producer) == if a == f then own else []
    ensures Applied(LlamaEntries(Join(parts)), op, producer) == if f < |parts| then own else []
  {
    var h := (b: seq<Binding>) => Applied(LlamaEntries(b), op, producer);
    assert h([]) == [] by {
      assert LlamaEntries([]) == [];
    }
    forall a, b ensures Splits(h, a, b) {
      AppliedStep(a, b, op, producer);
    }
    OwnPart(h, parts, f, own);
  }

  lemma {:induction false} BindingsJoin(g: Graph, parts: seq<seq<Binding>>)
    requires |parts| <= |g.blocks| && forall a | 0 <= a < |parts| :: parts[a] == BindingsOf(g, a)
    ensures Bindings(g, KV_SLABS, |parts|) == Join(parts)
  {
    if parts != [] {
      BindingsJoin(g, parts[..|parts| - 1]);
    }
  }

  /** The intercept table of the compiled module. */
  function Table(g: Graph): seq<Intercept> {
    Bound(LLAMA, Bindings(g, OperandSlabs(LLAMA), |g.blocks|))
  }

  lemma TableIsEntries(g: Graph)
    requires Bindings(g, KV_SLABS, |g.blocks|) != []
    ensures Table(g) == LlamaEntries(Bindings(g, KV_SLABS, |g.blocks|))
  {
    LlamaSlabs();
  }

  lemma KeyValueSlots(g: Graph, a: nat)
    requires WellFormed(g) && QkvExported(g, a)
    ensures ReadsFrom(g.blocks[a + 1][0], SsaProducer(Funcs(g)), a, KeySlot(g, a))
  {
    ABlockOutputs(g, a);
    ProducerOfOutput(g, a, KeySlot(g, a));
    ProducerOfOutput(g, a, KeySlot(g, a) + 1);
  }

  lemma OwnPairApplies(g: Graph, op: Op, producer: map<Name, (nat, nat)>, a: nat)
    requires DenseExports(g) && QkvExported(g, a) && ReadsFrom(op, producer, a, KeySlot(g, a))
    ensures Applied(LlamaEntries(Bindings(g, KV_SLABS, |g.blocks|)), op, producer) == PairAt(a, KeySlot(g, a))
  {
    var parts := seq(|g.blocks|, b requires 0 <= b < |g.blocks| => BindingsOf(g, b));
    var own := PairAt(a, KeySlot(g, a));
    forall b | 0 <= b < |parts|
      ensures Applied(LlamaEntries(parts[b]), op, producer) == if b == a then own else []
    {
      AppliedFromBlock(g, op, producer, a, KeySlot(g, a), b);
    }
    AppliedJoin(parts, op, producer, a, own);
    BindingsJoin(g, parts);
  }

  /** Main contract.  At run time the attention after a-block `a` applies exactly two intercepts: its own
      key intercept, then its own value intercept. */
  lemma AttentionAppliesOwnPair(g: Graph, a: nat)
    requires WellFormed(g) && DenseModule(g) && a < |g.blocks| && IsA(g.blocks, a)
    ensures QkvExported(g, a)
    ensures Applied(Table(g), g.blocks[a + 1][0], SsaProducer(Funcs(g))) == PairAt(a, KeySlot(g, a))
  {
    DenseModuleExports(g);
    KeyValueSlots(g, a);
    var op, producer := g.blocks[a + 1][0], SsaProducer(Funcs(g));
    OwnPairApplies(g, op, producer, a);
    assert LlamaEntries([]) == [];
    TableIsEntries(g);
  }

  // ── Layer numbers ──

  /** Layer indices handed out to intercepts in order: each takes and increments its slab's counter. */
  function TakeLayers(applied: seq<Intercept>, counters: map<string, nat>): (seq<nat>, map<string, nat>)
    requires forall i | i in applied :: i.slab in counters
  {
    if applied == [] then ([], counters)
    else
      assert applied[0] in applied;
      var slab := applied[0].slab;
      var (rest, after) := TakeLayers(applied[1..], counters[slab := counters[slab] + 1]);
      ([counters[slab]] + rest, after)
  }

  /** One key intercept followed by one value intercept. */
  ghost predicate IsPair(applied: seq<Intercept>) {
    |applied| == 2 && applied[0].slab == "k" && applied[1].slab == "v"
  }

  lemma PairTakes(applied: seq<Intercept>, counters: map<string, nat>)
    requires IsPair(applied) && "k" in counters && "v" in counters
    ensures TakeLayers(applied, counters).0 == [counters["k"], counters["v"]]
    ensures TakeLayers(applied, counters).1 == counters["k" := counters["k"] + 1]["v" := counters["v"] + 1]
  {
    var last := applied[1..];
    assert last == [applied[1]] && last[1..] == [];
    var mid := counters["k" := counters["k"] + 1];
    var end := mid["v" := mid["v"] + 1];
    assert TakeLayers([], end) == ([], end);
    assert TakeLayers(last, mid).0 == [mid["v"]] && TakeLayers(last, mid).1 == end;
    assert TakeLayers(applied, counters).0 == [counters["k"]] + [mid["v"]];
    assert TakeLayers(applied, counters).1 == end;
  }

  function SdpaCount(ops: seq<Op>): nat {
    if ops == [] then 0 else SdpaCount(ops[..|ops| - 1]) + if ops[|ops| - 1].opName == SDPA then 1 else 0
  }

  ghost predicate AllPaired(ops: seq<Op>, table: seq<Intercept>, producer: map<Name, (nat, nat)>) {
    forall op | op in ops && op.opName == SDPA :: IsPair(Applied(table, op, producer))
  }

  /** The slab counters after a prefix of a forward pass that began with `start`; only attentions are
      intercepted. */
  ghost function CountersAfter(ops: seq<Op>, table: seq<Intercept>, producer: map<Name, (nat, nat)>,
                               start: map<string, nat>): (r: map<string, nat>)
    requires AllPaired(ops, table, producer) && "k" in start && "v" in start
    ensures "k" in r && "v" in r
  {
    if ops == [] then start
    else
      var n := |ops| - 1;
      var before := CountersAfter(ops[..n], table, producer, start);
      if ops[n].opName != SDPA then before
      else
        var applied := Applied(table, ops[n], producer);
        assert ops[n] in ops;
        PairTakes(applied, before);
        TakeLayers(applied, before).1
  }

  /** Both counters count the attentions passed. */
  lemma {:induction false} CountersCount(ops: seq<Op>, table: seq<Intercept>, producer: map<Name, (nat, nat)>)
    requires AllPaired(ops, table, producer)
    ensures CountersAfter(ops, table, producer, map["k" := 0, "v" := 0])
            == map["k" := SdpaCount(ops), "v" := SdpaCount(ops)]
  {
    if ops != [] {
      var n := |ops| - 1;
      CountersCount(ops[..n], table, producer);
      if ops[n].opName == SDPA {
        assert ops[n] in ops;
        PairTakes(Applied(table, ops[n], producer), CountersAfter(ops[..n], table, producer, map["k" := 0, "v" := 0]));
      }
    }
  }

  /** The attention reads its key from slot `s` and its value from slot `s + 1` of function `f`, the names
      listed there, and is intercepted for exactly these two. */
  ghost predicate OwnIntercepts(g: Graph, op: Op, f: nat, s: nat) {
    && f < |g.blocks| && |op.operands| >= 3 && KvAt(Outputs(g, f), s, op.operands[1], op.operands[2])
    && ReadsFrom(op, SsaProducer(Funcs(g)), f, s)
    && Applied(Table(g), op, SsaProducer(Funcs(g))) == PairAt(f, s)
  }

  /** Every attention of the program has its own pair. */
  lemma EveryAttentionHasPair(g: Graph, op: Op) returns (f: nat, s: nat)
    requires WellFormed(g) && DenseModule(g) && op in Flatten(g.blocks) && op.opName == SDPA
    ensures OwnIntercepts(g, op, f, s)
  {
    var fi, p := FlattenPosition(g.blocks, op);
    assert IsSdpaAt(g.blocks, fi, p);
    f := fi - 1;
    OpeningSdpaIsB(g.blocks, f);
    AttentionAppliesOwnPair(g, f);
    s := KeySlot(g, f);
    KeyValueSlots(g, f);
    ABlockOutputs(g, f);
  }

  lemma OpeningSdpaIsB(blocks: seq<Block>, a: nat)
    requires a + 1 < |blocks| && blocks[a + 1] != [] && blocks[a + 1][0].opName == SDPA
    ensures IsA(blocks, a)
  {
    assert SdpaPos(blocks[a + 1]) == Some(0);
  }

  lemma {:induction false} FlattenPosition(blocks: seq<Block>, op: Op) returns (fi: nat, p: nat)
    requires op in Flatten(blocks)
    ensures fi < |blocks| && p < |blocks[fi]| && blocks[fi][p] == op
  {
    var n := |blocks| - 1;
    if op in blocks[n] {
      fi := n;
      p :| 0 <= p < |blocks[n]| && blocks[n][p] == op;
    } else {
      fi, p := FlattenPosition(blocks[..n], op);
    }
  }

  lemma ModulePaired(g: Graph)
    requires WellFormed(g) && DenseModule(g)
    ensures AllPaired(Flatten(g.blocks), Table(g), SsaProducer(Funcs(g)))
  {
    forall op | op in Flatten(g.blocks) && op.opName == SDPA
      ensures IsPair(Applied(Table(g), op, SsaProducer(Funcs(g))))
    {
      var f, s := EveryAttentionHasPair(g, op);
    }
  }

  /** After the operations `before`, the attention `op` is intercepted for key and value, both in layer `i`. */
  ghost predicate GetsLayer(before: seq<Op>, op: Op, table: seq<Intercept>, producer: map<Name, (nat, nat)>, i: nat) {
    && AllPaired(before, table, producer) && IsPair(Applied(table, op, producer))
    && var counters := CountersAfter(before, table, producer, map["k" := 0, "v" := 0]);
       TakeLayers(Applied(table, op, producer), counters).0 == [i, i]
  }

  lemma LayerAt(ops: seq<Op>, before: seq<Op>, op: Op, table: seq<Intercept>, producer: map<Name, (nat, nat)>)
    requires AllPaired(ops, table, producer) && before + [op] <= ops && op.opName == SDPA
    ensures GetsLayer(before, op, table, producer, SdpaCount(before))
  {
    assert ops[..|before|] == before && ops[|before|] == op;
    CountersCount(before, table, producer);
    PairTakes(Applied(table, op, producer), CountersAfter(before, table, producer, map["k" := 0, "v" := 0]));
  }

  /** In a forward pass that starts with both counters at zero, attention number `i` in program order
      gets layer `i` in the key slab and in the value slab. */
  lemma LayersInProgramOrder(g: Graph, before: seq<Op>, op: Op)
    requires WellFormed(g) && DenseModule(g) && before + [op] <= Flatten(g.blocks) && op.opName == SDPA
    ensures GetsLayer(before, op, Table(g), SsaProducer(Funcs(g)), SdpaCount(before))
  {
    ModulePaired(g);
    LayerAt(Flatten(g.blocks), before, op, Table(g), SsaProducer(Funcs(g)));
  }
}
