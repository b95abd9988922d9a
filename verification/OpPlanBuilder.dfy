/** The loops that generate the op plan. */
module OpPlanBuilder {
  import opened Options
  import opened Lists
  import opened Ssa
  import opened OpPlan
  import opened OpPlanProof

  // ── Covered functions ──

  /** Pairs never overlap: a second half ends in 'b', so it is no first half. */
  lemma PairsApart(fs: seq<PlanFunc>, i: nat)
    requires IsPair(fs, i)
    ensures !IsPair(fs, i + 1)
  {
    var b := fs[i + 1].name;
    assert b[|b| - 1] == 'b';
  }

  /** The covered functions in order: both halves of every pair, and nothing else. */
  ghost predicate CoveredUpTo(fs: seq<PlanFunc>, covered: seq<nat>, n: nat) {
    && Increasing(covered) && (forall c | 0 <= c < |covered| :: covered[c] < n && covered[c] < |fs|)
    && forall fi: nat | fi < n :: fi in covered <==> IsCovered(fs, fi)
  }

  lemma CoveredHaveOps(fs: seq<PlanFunc>, covered: seq<nat>)
    requires InRange(fs, covered) && forall fi | fi in covered :: IsCovered(fs, fi)
    ensures AllHaveOps(fs, covered)
  {
    forall c | 0 <= c < |covered| ensures fs[covered[c]].func.ops != [] {
      assert IsCovered(fs, covered[c]);
      if IsPair(fs, covered[c]) {
        assert HasOp(fs[covered[c]], "linear");
      }
    }
  }

  /** Greedy scanning finds every decoder-layer pair. */
  method CoveredDecoderFunctions(fs: seq<PlanFunc>) returns (covered: seq<nat>)
    ensures InRange(fs, covered) && Increasing(covered)
    ensures forall fi: nat :: fi in covered <==> IsCovered(fs, fi)
  {
    covered := [];
    var i := 0;
    while i + 1 < |fs|
      invariant 0 <= i && (i <= |fs| || i == 0) && CoveredUpTo(fs, covered, i)
      invariant i > 0 ==> !IsPair(fs, i - 1)
    {
      if IsPair(fs, i) {
        PairsApart(fs, i);
        assert IsCovered(fs, i) && IsCovered(fs, i + 1);
        covered := covered + [i, i + 1];
        i := i + 2;
      } else {
        assert !IsCovered(fs, i);
        i := i + 1;
      }
    }
  }

  // ── Maps over the module ──

  predicate Before(p: Position, n: nat, m: nat) { p.0 < n || (p.0 == n && p.1 < m) }

  ghost predicate Listed(fs: seq<PlanFunc>, outs: map<Name, Position>, x: Name, n: nat, m: nat) {
    x in outs && NamedAt(fs, x, outs[x]) && Before(outs[x], n, m)
  }

  ghost predicate Seen(outs: map<Name, Position>, x: Name, fi: nat, oi: nat) {
    x in outs && Before(outs[x], fi, oi + 1)
  }

  /** Positions of earlier functions, and earlier positions of the same one. */
  ghost predicate FirstUpTo(fs: seq<PlanFunc>, outs: map<Name, Position>, n: nat, m: nat) {
    && (forall x | x in outs :: Listed(fs, outs, x, n, m))
    && (forall fi: nat, oi: nat | fi < |fs| && oi < |fs[fi].func.outputs| && Before((fi, oi), n, m) ::
          Seen(outs, fs[fi].func.outputs[oi].name, fi, oi))
  }

  function FirstKept(outs: map<Name, Position>, x: Name, p: Position): map<Name, Position> {
    if x in outs then outs else outs[x := p]
  }

  lemma FirstInsert(fs: seq<PlanFunc>, outs: map<Name, Position>, n: nat, m: nat)
    requires n < |fs| && m < |fs[n].func.outputs| && FirstUpTo(fs, outs, n, m)
    ensures FirstUpTo(fs, FirstKept(outs, fs[n].func.outputs[m].name, (n, m)), n, m + 1)
  {
    var y := fs[n].func.outputs[m].name;
    var next := FirstKept(outs, y, (n, m));
    forall x | x in next ensures Listed(fs, next, x, n, m + 1) {
      assert x in outs ==> Listed(fs, outs, x, n, m);
    }
    forall fi: nat, oi: nat | fi < |fs| && oi < |fs[fi].func.outputs| && Before((fi, oi), n, m + 1)
      ensures Seen(next, fs[fi].func.outputs[oi].name, fi, oi)
    {
      if Before((fi, oi), n, m) {
        assert Seen(outs, fs[fi].func.outputs[oi].name, fi, oi);
      } else {
        assert y in outs ==> Listed(fs, outs, y, n, m);
      }
    }
  }

  lemma FirstRow(fs: seq<PlanFunc>, outs: map<Name, Position>, n: nat)
    requires n < |fs| && FirstUpTo(fs, outs, n, |fs[n].func.outputs|)
    ensures FirstUpTo(fs, outs, n + 1, 0)
  {
    forall x | x in outs ensures Listed(fs, outs, x, n + 1, 0) {
      assert Listed(fs, outs, x, n, |fs[n].func.outputs|);
    }
  }

  lemma FirstDone(fs: seq<PlanFunc>, outs: map<Name, Position>)
    requires FirstUpTo(fs, outs, |fs|, 0)
    ensures FirstOutputs(fs, outs)
  {
    forall x | x in outs ensures NamedAt(fs, x, outs[x]) {
      assert Listed(fs, outs, x, |fs|, 0);
    }
    forall fi: nat, oi: nat | fi < |fs| && oi < |fs[fi].func.outputs|
      ensures var x := fs[fi].func.outputs[oi].name;
              x in outs && (outs[x].0 < fi || (outs[x].0 == fi && outs[x].1 <= oi))
    {
      assert Seen(outs, fs[fi].func.outputs[oi].name, fi, oi);
    }
  }

  method FirstFunctionOutputs(fs: seq<PlanFunc>) returns (outs: map<Name, Position>)
    ensures FirstOutputs(fs, outs)
  {
    outs := map[];
    for fi := 0 to |fs|
      invariant FirstUpTo(fs, outs, fi, 0)
    {
      for oi := 0 to |fs[fi].func.outputs|
        invariant FirstUpTo(fs, outs, fi, oi)
      {
        FirstInsert(fs, outs, fi, oi);
        var x := fs[fi].func.outputs[oi].name;
        if x !in outs {
          outs := outs[x := (fi, oi)];
        }
      }
      FirstRow(fs, outs, fi);
    }
    FirstDone(fs, outs);
  }

  lemma OperandsNext(ops: seq<Op>, i: nat)
    requires i < |ops|
    ensures OperandsOf(ops[..i + 1]) == OperandsOf(ops[..i]) + ops[i].operands
  {
    assert ops[..i + 1][..i] == ops[..i];
  }

  method OperandSet(ops: seq<Op>) returns (names: set<Name>)
    ensures forall x :: x in names <==> x in OperandsOf(ops)
  {
    names := {};
    for i := 0 to |ops|
      invariant forall x :: x in names <==> x in OperandsOf(ops[..i])
    {
      OperandsNext(ops, i);
      names := names + set x | x in ops[i].operands;
    }
    assert ops[..|ops|] == ops;
  }

  method ExternalConsumers(fs: seq<PlanFunc>, covered: seq<nat>) returns (names: set<Name>)
    ensures names == External(fs, covered)
  {
    names := {};
    for fi := 0 to |fs|
      invariant forall x :: x in names <==> exists k: nat | k < fi :: k !in covered && x in OperandsOf(fs[k].func.ops)
    {
      if fi !in covered {
        var more := OperandSet(fs[fi].func.ops);
        names := names + more;
      }
    }
  }

  function CountOf(counts: map<Name, nat>, x: Name): nat { if x in counts then counts[x] else 0 }

  ghost predicate Counts(counts: map<Name, nat>, uses: multiset<Name>) { forall x :: CountOf(counts, x) == uses[x] }

  method CountOperands(start: map<Name, nat>, ghost uses: multiset<Name>, xs: seq<Name>)
    returns (counts: map<Name, nat>)
    requires Counts(start, uses)
    ensures Counts(counts, uses + multiset(xs))
  {
    counts := start;
    for i := 0 to |xs|
      invariant Counts(counts, uses + multiset(xs[..i]))
    {
      assert xs[..i + 1] == xs[..i] + [xs[i]];
      counts := counts[xs[i] := CountOf(counts, xs[i]) + 1];
    }
    assert xs[..|xs|] == xs;
  }

  method ConsumerCounts(fs: seq<PlanFunc>, covered: seq<nat>) returns (counts: map<Name, nat>)
    requires InRange(fs, covered)
    ensures Counts(counts, CoveredUses(fs, covered))
  {
    counts := map[];
    for c := 0 to |covered|
      invariant Counts(counts, CoveredUses(fs, covered[..c]))
    {
      var ops := fs[covered[c]].func.ops;
      for i := 0 to |ops|
        invariant Counts(counts, CoveredUses(fs, covered[..c]) + multiset(OperandsOf(ops[..i])))
      {
        OperandsNext(ops, i);
        counts := CountOperands(counts, CoveredUses(fs, covered[..c]) + multiset(OperandsOf(ops[..i])),
            ops[i].operands);
        assert CoveredUses(fs, covered[..c]) + multiset(OperandsOf(ops[..i])) + multiset(ops[i].operands)
            == CoveredUses(fs, covered[..c]) + multiset(OperandsOf(ops[..i + 1]));
      }
      assert ops[..|ops|] == ops && covered[..c + 1][..c] == covered[..c];
    }
    assert covered[..|covered|] == covered;
  }

  // ── Nodes ──

  method ResolveInputs(f: PlanFunc, at: map<Name, NodeRef>, outs: map<Name, Position>, xs: seq<Name>)
    returns (r: Option<seq<Source>>)
    ensures r == ResolveAll(f, at, outs, xs)
  {
    var inputs: seq<Source> := [];
    for a := 0 to |xs|
      invariant |inputs| == a && forall i | 0 <= i < a :: Resolve(f, at, outs, xs[i]) == Some(inputs[i])
    {
      var source := Resolve(f, at, outs, xs[a]);
      if source.None? { return None; }
      inputs := inputs + [source.value];
    }
    r := Some(inputs);
    var all := ResolveAll(f, at, outs, xs);
    assert all.Some?;
    assert all.value == inputs;
  }

  lemma {:induction false} BuildFails(fs: seq<PlanFunc>, outs: map<Name, Position>, work: seq<Item>, n: nat)
    requires ItemsInRange(fs, work) && n <= |work| && Build(fs, outs, work[..n]).None?
    ensures Build(fs, outs, work).None?
    decreases |work| - n
  {
    if n == |work| {
      assert work[..n] == work;
    } else {
      BuildNext(fs, outs, work, n);
      BuildFails(fs, outs, work, n + 1);
    }
  }

  /** Prefixes of the covered functions and of their operations give prefixes of the work. */
  lemma {:induction false} WorkPrefix(fs: seq<PlanFunc>, covered: seq<nat>, c: nat, i: nat)
    requires InRange(fs, covered) && c < |covered| && i <= |fs[covered[c]].func.ops|
    ensures var part := Work(fs, covered[..c]) + ItemsOf(covered[c], fs[covered[c]].func.ops[..i]);
            |part| <= |Work(fs, covered)| && Work(fs, covered)[..|part|] == part
    decreases |covered|
  {
    var n := |covered| - 1;
    var part := Work(fs, covered[..c]) + ItemsOf(covered[c], fs[covered[c]].func.ops[..i]);
    if c < n {
      WorkPrefix(fs, covered[..n], c, i);
      assert covered[..n][..c] == covered[..c];
      assert Work(fs, covered)[..|part|] == Work(fs, covered[..n])[..|part|];
    }
  }

  lemma ItemNext(fi: nat, ops: seq<Op>, front: seq<Item>, i: nat)
    requires i < |ops|
    ensures front + ItemsOf(fi, ops[..i + 1]) == (front + ItemsOf(fi, ops[..i])) + [Item(fi, ops[i])]
  {
  }

  lemma PartNext(fs: seq<PlanFunc>, outs: map<Name, Position>, covered: seq<nat>, c: nat, i: nat)
    requires InRange(fs, covered) && c < |covered| && i < |fs[covered[c]].func.ops|
    ensures var ops := fs[covered[c]].func.ops;
            var part, next := Work(fs, covered[..c]) + ItemsOf(covered[c], ops[..i]),
                Work(fs, covered[..c]) + ItemsOf(covered[c], ops[..i + 1]);
            && ItemsInRange(fs, part) && ItemsInRange(fs, next)
            && Build(fs, outs, next) == match Build(fs, outs, part)
                                        case None => None
                                        case Some(b) => AddNode(fs, outs, b, Item(covered[c], ops[i]))
  {
    WorkInRange(fs, covered[..c]);
    var ops := fs[covered[c]].func.ops;
    var next := Work(fs, covered[..c]) + ItemsOf(covered[c], ops[..i + 1]);
    ItemNext(covered[c], ops, Work(fs, covered[..c]), i);
    assert next[..|next| - 1] == Work(fs, covered[..c]) + ItemsOf(covered[c], ops[..i]);
  }

  lemma PartFails(fs: seq<PlanFunc>, outs: map<Name, Position>, covered: seq<nat>, c: nat, i: nat, part: seq<Item>)
    requires InRange(fs, covered) && c < |covered| && i <= |fs[covered[c]].func.ops|
    requires part == Work(fs, covered[..c]) + ItemsOf(covered[c], fs[covered[c]].func.ops[..i])
    requires ItemsInRange(fs, part) && Build(fs, outs, part).None?
    ensures ItemsInRange(fs, Work(fs, covered)) && Build(fs, outs, Work(fs, covered)).None?
  {
    WorkInRange(fs, covered);
    WorkPrefix(fs, covered, c, i);
    var work := Work(fs, covered);
    assert work[..|part|] == part;
    BuildFails(fs, outs, work, |part|);
  }

  method BuildNodes(fs: seq<PlanFunc>, covered: seq<nat>, outs: map<Name, Position>) returns (r: Option<Built>)
    requires InRange(fs, covered)
    ensures ItemsInRange(fs, Work(fs, covered)) && r == Build(fs, outs, Work(fs, covered))
  {
    WorkInRange(fs, covered);
    var b := Built([], map[]);
    for c := 0 to |covered|
      invariant ItemsInRange(fs, Work(fs, covered[..c])) && Build(fs, outs, Work(fs, covered[..c])) == Some(b)
    {
      ghost var front := Work(fs, covered[..c]);
      var func, ops := fs[covered[c]], fs[covered[c]].func.ops;
      assert front + ItemsOf(covered[c], ops[..0]) == front;
      for i := 0 to |ops|
        invariant ItemsInRange(fs, front + ItemsOf(covered[c], ops[..i]))
        invariant Build(fs, outs, front + ItemsOf(covered[c], ops[..i])) == Some(b)
      {
        var op := ops[i];
        PartNext(fs, outs, covered, c, i);
        var kernel := Canonical(op.opName);
        var inputs := ResolveInputs(func, b.at, outs, op.operands);
        if kernel.None? || inputs.None? {
          PartFails(fs, outs, covered, c, i + 1, front + ItemsOf(covered[c], ops[..i + 1]));
          return None;
        }
        var k := |b.nodes|;
        b := Built(b.nodes + [NewNode(k, covered[c], op, kernel.value, inputs.value)],
            b.at[op.result := NodeRef(k, 0)]);
      }
      assert ops[..|ops|] == ops && covered[..c + 1][..c] == covered[..c];
    }
    assert covered[..|covered|] == covered;
    r := Some(b);
  }

  // ── Outputs ──

  lemma {:induction false} ProjectFails(c: Context, nodes: seq<Node>, slots: seq<Slot>, n: nat)
    requires n <= |slots| && Project(c, nodes, slots[..n]).None?
    ensures Project(c, nodes, slots).None?
    decreases |slots| - n
  {
    if n == |slots| {
      assert slots[..n] == slots;
    } else {
      ProjectNext(c, nodes, slots, n);
      ProjectFails(c, nodes, slots, n + 1);
    }
  }

  method CollectSlots(fs: seq<PlanFunc>, covered: seq<nat>) returns (slots: seq<Slot>)
    requires InRange(fs, covered)
    ensures slots == Slots(fs, covered)
  {
    slots := [];
    for c := 0 to |covered|
      invariant slots == Slots(fs, covered[..c])
    {
      slots := slots + SlotsOf(covered[c], fs[covered[c]].func.outputs);
      assert covered[..c + 1][..c] == covered[..c];
    }
    assert covered[..|covered|] == covered;
  }

  method FinalizeOutputs(at: map<Name, NodeRef>, bindings: Bindings, external: set<Name>, counts: map<Name, nat>,
                         nodes: seq<Node>, slots: seq<Slot>, ghost c: Context) returns (r: Option<Projection>)
    requires c == Context(at, bindings, external, c.uses) && Counts(counts, c.uses)
    ensures r == Project(c, nodes, slots)
  {
    var p := Projection(nodes, [], {});
    for k := 0 to |slots|
      invariant Project(c, nodes, slots[..k]) == Some(p)
    {
      ProjectNext(c, nodes, slots, k);
      var s := slots[k];
      if s.out.name !in at || at[s.out.name].node >= |p.nodes| || (s.out.consumed && (s.fi, s.oi) !in bindings) {
        ProjectFails(c, nodes, slots, k + 1);
        return None;
      }
      var ref := at[s.out.name];
      var node := p.nodes[ref.node];
      var projected := p.projected;
      if s.out.consumed {
        node := node.(life := CacheOwned, cache := Some(CacheMark(bindings[(s.fi, s.oi)], s.fi, s.oi)));
        projected := projected + {(s.fi, s.oi)};
      } else if s.out.name in external {
        node := node.(life := GraphPersistent);
      } else if CountOf(counts, s.out.name) == 1 {
        node := node.(life := Transient);
      } else {
        node := node.(life := LayerPersistent);
      }
      p := Projection(p.nodes[ref.node := node], p.outputs + [FuncOutput(s.fi, s.oi, ref, s.out.consumed)], projected);
    }
    assert slots[..|slots|] == slots;
    r := Some(p);
  }

  // ── The whole generator ──

  datatype Generated = NothingToCover | Rejected | Generated(plan: Plan)

  method FindGlobalOutput(outs: seq<Output>, at: map<Name, NodeRef>) returns (r: Option<NodeRef>)
    ensures r == LastVisible(outs, at, |outs|)
  {
    var n: nat := |outs|;
    while n > 0
      invariant n <= |outs| && LastVisible(outs, at, n) == LastVisible(outs, at, |outs|)
    {
      n := n - 1;
      if !outs[n].consumed && outs[n].name in at { return Some(at[outs[n].name]); }
    }
    r := None;
  }

  /** Builds, finalises and cross-checks; `None` is any of the errors raised on the way. */
  method DraftPlan(fs: seq<PlanFunc>, covered: seq<nat>, outs: map<Name, Position>, bindings: Bindings)
    returns (r: Option<Plan>)
    requires InRange(fs, covered) && covered != []
    ensures r == Drafted(fs, covered, outs, bindings)
  {
    var built := BuildNodes(fs, covered, outs);
    if built.None? { return None; }
    var external := ExternalConsumers(fs, covered);
    var counts := ConsumerCounts(fs, covered);
    var slots := CollectSlots(fs, covered);
    var p := FinalizeOutputs(built.value.at, bindings, external, counts, built.value.nodes, slots,
                             ContextFor(fs, covered, bindings, built.value.at));
    if p.None? || !CacheChecked(p.value, covered, bindings) { return None; }
    var global := FindGlobalOutput(fs[covered[|covered| - 1]].func.outputs, built.value.at);
    r := Some(Plan(p.value.nodes, p.value.outputs, global));
  }

  /** A plan comes out exactly when it can be drafted and cache outputs have distinct names. */
  method GenerateOpPlan(fs: seq<PlanFunc>, bindings: Bindings)
    returns (r: Generated, covered: seq<nat>, outs: map<Name, Position>)
    ensures InRange(fs, covered) && Increasing(covered) && (forall fi: nat :: fi in covered <==> IsCovered(fs, fi))
    ensures FirstOutputs(fs, outs)
    ensures r.NothingToCover? <==> forall i: nat :: !IsPair(fs, i)
    ensures r.NothingToCover? <==> covered == []
    ensures covered != [] ==>
              (r.Generated? <==> Drafted(fs, covered, outs, bindings).Some? && CacheNamesDistinct(Slots(fs, covered)))
    ensures covered != [] && r.Generated? ==>
              Drafted(fs, covered, outs, bindings) == Some(r.plan) && Accepted(r.plan, fs, bindings)
  {
    covered := CoveredDecoderFunctions(fs);
    outs := FirstFunctionOutputs(fs);
    if covered == [] {
      assert forall i: nat :: IsPair(fs, i) ==> IsCovered(fs, i) && i in covered;
      return NothingToCover, covered, outs;
    }
    assert IsCovered(fs, covered[0]);
    var plan := DraftPlan(fs, covered, outs, bindings);
    if plan.None? { return Rejected, covered, outs; }
    CoveredHaveOps(fs, covered);
    AcceptedIff(fs, covered, outs, bindings);
    r := if Accepted(plan.value, fs, bindings) then Generated(plan.value) else Rejected;
  }
}
