/** Which functions of a split module the op plan covers, and which modules its validator turns down, read off the
    blocks of the program. */
module OpPlanOfSplit {
  import opened Options
  import opened Lists
  import opened Ssa
  import opened Names
  import opened Blocks
  import opened Splitter
  import opened SplitPlan
  import CacheContract
  import SplitBuilder
  import Text
  import opened OpPlan
  import opened OpPlanProof

  // ── Cache outputs that share a name within one block ──

  /** Block `a` exports a key or value that its attention also reads in another of the three places. */
  predicate RepeatsSource(g: Graph, a: nat)
    requires a < |g.blocks|
  {
    && IsA(g.blocks, a)
    && var s, exported := AttentionSources(g.blocks[a + 1]), Exported(g, a);
       || (s.k != "" && s.k in exported && (s.q == s.k || s.v == s.k))
       || (s.v != "" && s.v in exported && s.q == s.v)
  }

  ghost predicate SameCacheName(outs: seq<Splitter.Output>, i: nat, j: nat) {
    i < j < |outs| && outs[i].consumed && outs[j].consumed && outs[i].name == outs[j].name
  }

  lemma OutputAt(g: Graph, a: nat, i: nat)
    requires a < |g.blocks| && i < |Outputs(g, a)| && Outputs(g, a)[i].consumed
    ensures i < |OutputOrder(g, a)| && OutputOrder(g, a)[i] == Outputs(g, a)[i].name
    ensures OutputOrder(g, a)[i] in Splitter.Marked(g.blocks, a) && OutputOrder(g, a)[i] in Exported(g, a)
  {
    OutputOrderMembers(g, a, OutputOrder(g, a)[i]);
  }

  lemma HeadIs(g: Graph, a: nat)
    requires a < |g.blocks| && IsA(g.blocks, a)
    ensures var s := AttentionSources(g.blocks[a + 1]);
            && HeadNames(g, a) == Filter([s.q, s.k, s.v], x => x != "" && x in Exported(g, a))
            && OutputOrder(g, a) == HeadNames(g, a) + Filter(Sort(Exported(g, a)), x => x !in HeadNames(g, a))
  {
    var head := HeadNames(g, a);
    assert OutputOrder(g, a) == head + Filter(Sort(Exported(g, a)), x => x !in head);
  }

  /** A name cached twice stands in two of the three places. */
  lemma TwiceRepeats(g: Graph, a: nat, i: nat, j: nat)
    requires a < |g.blocks| && SameCacheName(Outputs(g, a), i, j)
    ensures RepeatsSource(g, a)
  {
    OutputAt(g, a, i);
    OutputAt(g, a, j);
    HeadIs(g, a);
    var s, x, head := AttentionSources(g.blocks[a + 1]), Outputs(g, a)[i].name, HeadNames(g, a);
    InHead(head, Filter(Sort(Exported(g, a)), y => y !in head), x, j);
    var p, q := FilterPlaces([s.q, s.k, s.v], y => y != "" && y in Exported(g, a), i, j);
    TwoOfThree(s, x, p, q);
  }

  lemma TwoOfThree(s: Qkv, x: Name, p: nat, q: nat)
    requires p < q < 3 && [s.q, s.k, s.v][p] == x && [s.q, s.k, s.v][q] == x
    ensures (x == s.k && (s.q == s.k || s.v == s.k)) || (x == s.v && s.q == s.v)
  {
  }

  lemma InHead(head: seq<Name>, tail: seq<Name>, x: Name, j: nat)
    requires x in head && x !in tail && j < |head + tail| && (head + tail)[j] == x
    ensures j < |head|
  {
    forall m | |head| <= m < |head + tail| ensures (head + tail)[m] != x {
      assert (head + tail)[m] in tail;
    }
  }

  lemma HeadTwice(g: Graph, a: nat, i: nat, j: nat, x: Name)
    requires a < |g.blocks| && IsA(g.blocks, a) && i < j < |HeadNames(g, a)|
    requires HeadNames(g, a)[i] == x && HeadNames(g, a)[j] == x && x != ""
    requires x == AttentionSources(g.blocks[a + 1]).k || x == AttentionSources(g.blocks[a + 1]).v
    ensures SameCacheName(Outputs(g, a), i, j)
  {
    HeadIs(g, a);
    var order := OutputOrder(g, a);
    assert order[i] == x && order[j] == x;
  }

  /** And the other way round. */
  lemma RepeatsTwice(g: Graph, a: nat) returns (i: nat, j: nat)
    requires a < |g.blocks| && RepeatsSource(g, a)
    ensures SameCacheName(Outputs(g, a), i, j)
  {
    var s, exported := AttentionSources(g.blocks[a + 1]), Exported(g, a);
    HeadIs(g, a);
    if s.k != "" && s.k in exported && s.q == s.k {
      i, j := FilterTwice([s.q, s.k, s.v], x => x != "" && x in Exported(g, a), 0, 1);
      HeadTwice(g, a, i, j, s.k);
    } else if s.k != "" && s.k in exported && s.v == s.k {
      i, j := FilterTwice([s.q, s.k, s.v], x => x != "" && x in Exported(g, a), 1, 2);
      HeadTwice(g, a, i, j, s.k);
    } else {
      i, j := FilterTwice([s.q, s.k, s.v], x => x != "" && x in Exported(g, a), 0, 2);
      HeadTwice(g, a, i, j, s.v);
    }
  }

  // ── Across the module ──

  /** The functions of the module are those the splitter makes of `g`. */
  ghost predicate FromSplitter(g: Graph, fs: seq<PlanFunc>) {
    |fs| == |g.blocks| && forall i | 0 <= i < |fs| :: fs[i].func == Funcs(g)[i]
  }

  lemma SplitHasOps(g: Graph, fs: seq<PlanFunc>, covered: seq<nat>)
    requires WellFormed(g) && FromSplitter(g, fs) && InRange(fs, covered)
    ensures AllHaveOps(fs, covered)
  {
    forall c | 0 <= c < |covered| ensures fs[covered[c]].func.ops != [] {
      assert g.blocks[covered[c]] in g.blocks;
    }
  }

  // ── Covered functions ──

  /** The text of a function name. */
  function NameText(base: string, name: SplitBuilder.FuncName): string {
    match name
    case Unnamed => ""
    case Whole(n) => base + "_" + Text.NatText(n)
    case FirstHalf(n) => base + "_" + Text.NatText(n) + "a"
    case SecondHalf(n) => base + "_" + Text.NatText(n) + "b"
  }

  ghost predicate NamedBy(fs: seq<PlanFunc>, base: string, names: seq<SplitBuilder.FuncName>) {
    |names| == |fs| && forall i | 0 <= i < |fs| :: fs[i].name == NameText(base, names[i])
  }

  ghost predicate BlockHas(block: Block, opName: string) {
    exists i | 0 <= i < |block| :: block[i].opName == opName
  }

  /** Blocks `i` and `i + 1` are the halves of a decoder layer: the second opens with its attention and is not itself
      followed by a b-block. */
  ghost predicate DecoderAt(g: Graph, i: nat) {
    && i + 1 < |g.blocks| && IsB(g.blocks, i + 1) && !IsA(g.blocks, i + 1)
    && BlockHas(g.blocks[i], "layer_norm") && BlockHas(g.blocks[i], "linear")
    && g.blocks[i + 1][0].opName == "scaled_dot_product_attention"
  }

  lemma OpsKeepNames(g: Graph, i: nat, opName: string)
    requires i < |g.blocks|
    ensures |Funcs(g)[i].ops| == |g.blocks[i]|
    ensures forall k | 0 <= k < |g.blocks[i]| :: Funcs(g)[i].ops[k].opName == g.blocks[i][k].opName
    ensures (exists op :: op in Funcs(g)[i].ops && op.opName == opName) <==> BlockHas(g.blocks[i], opName)
  {
    NamesSame(Funcs(g)[i].ops, g.blocks[i], opName);
  }

  lemma NamesSame(ops: seq<Op>, block: seq<Op>, opName: string)
    requires |ops| == |block| && forall k | 0 <= k < |block| :: ops[k].opName == block[k].opName
    ensures (exists op :: op in ops && op.opName == opName) <==> BlockHas(block, opName)
  {
    if BlockHas(block, opName) {
      var k :| 0 <= k < |block| && block[k].opName == opName;
      assert ops[k] in ops;
    }
  }

  lemma TextsEnd(base: string, n: nat)
    ensures var t := base + "_" + Text.NatText(n); t != [] && t[|t| - 1] != 'a' && t[|t| - 1] != 'b'
  {
    Text.NatBack(n);
    var d := Text.NatText(n);
    assert d[|d| - 1] in d;
  }

  lemma SameNumber(base: string, n: nat, m: nat)
    requires base + "_" + Text.NatText(n) == base + "_" + Text.NatText(m)
    ensures n == m
  {
    var a, b := base + "_" + Text.NatText(n), base + "_" + Text.NatText(m);
    assert a[|base + "_"|..] == Text.NatText(n) && b[|base + "_"|..] == Text.NatText(m);
    Text.NatBack(n);
    Text.NatBack(m);
  }

  /** `t` is `s` with its last 'a' replaced by 'b'. */
  ghost predicate Siblings(s: string, t: string) {
    s != [] && s[|s| - 1] == 'a' && t == s[..|s| - 1] + ['b']
  }

  /** A name ends in 'a' exactly when it is a first half, and the sibling 'b' belongs to the second half of the same
      number alone. */
  lemma SiblingIff(base: string, x: SplitBuilder.FuncName, y: SplitBuilder.FuncName)
    ensures Siblings(NameText(base, x), NameText(base, y))
            <==> x.FirstHalf? && y == SplitBuilder.SecondHalf(x.n)
  {
    if !x.Unnamed? { TextsEnd(base, x.n); }
    if !y.Unnamed? { TextsEnd(base, y.n); }
    var s, t := NameText(base, x), NameText(base, y);
    if x.FirstHalf? {
      assert s[..|s| - 1] == base + "_" + Text.NatText(x.n);
      if y.SecondHalf? {
        assert t[..|t| - 1] == base + "_" + Text.NatText(y.n);
        if t == s[..|s| - 1] + ['b'] {
          SameNumber(base, x.n, y.n);
        }
      }
    }
  }

  /** The scan takes two functions of a split module for a pair exactly when their blocks are the halves of a
      decoder layer. */
  lemma PairIff(g: Graph, fs: seq<PlanFunc>, base: string, names: seq<SplitBuilder.FuncName>, i: nat)
    requires WellFormed(g) && FromSplitter(g, fs)
    requires SplitBuilder.NamedRight(g.blocks, names) && NamedBy(fs, base, names)
    ensures IsPair(fs, i) <==> DecoderAt(g, i)
  {
    if i + 1 < |fs| {
      assert g.blocks[i + 1] in g.blocks;
      PairParts(fs, i, fs[i].name, fs[i + 1].name);
      SiblingIff(base, names[i], names[i + 1]);
      HalvesIff(g.blocks, names, i);
      HasOpIff(g, fs, i, "layer_norm");
      HasOpIff(g, fs, i, "linear");
      FirstOpIs(g, fs, i + 1);
    }
  }

  lemma PairParts(fs: seq<PlanFunc>, i: nat, s: string, t: string)
    requires i + 1 < |fs| && fs[i].name == s && fs[i + 1].name == t
    ensures IsPair(fs, i)
            <==> Siblings(s, t) && HasOp(fs[i], "layer_norm") && HasOp(fs[i], "linear")
                 && fs[i + 1].func.ops != [] && fs[i + 1].func.ops[0].opName == "scaled_dot_product_attention"
  {
  }

  lemma HalvesIff(blocks: seq<Block>, names: seq<SplitBuilder.FuncName>, i: nat)
    requires SplitBuilder.NamedRight(blocks, names) && i + 1 < |blocks|
    ensures names[i].FirstHalf? && names[i + 1] == SplitBuilder.SecondHalf(names[i].n)
            <==> IsB(blocks, i + 1) && !IsA(blocks, i + 1)
  {
  }

  lemma HasOpIff(g: Graph, fs: seq<PlanFunc>, i: nat, opName: string)
    requires FromSplitter(g, fs) && i < |fs|
    ensures HasOp(fs[i], opName) <==> BlockHas(g.blocks[i], opName)
  {
    OpsKeepNames(g, i, opName);
  }

  lemma FirstOpIs(g: Graph, fs: seq<PlanFunc>, i: nat)
    requires FromSplitter(g, fs) && i < |fs| && g.blocks[i] != []
    ensures fs[i].func.ops != [] && fs[i].func.ops[0].opName == g.blocks[i][0].opName
  {
    OpsKeepNames(g, i, "");
  }

  /** So the plan covers exactly the halves of decoder layers. */
  lemma CoveredIff(g: Graph, fs: seq<PlanFunc>, base: string, names: seq<SplitBuilder.FuncName>, fi: nat)
    requires WellFormed(g) && FromSplitter(g, fs)
    requires SplitBuilder.NamedRight(g.blocks, names) && NamedBy(fs, base, names)
    ensures IsCovered(fs, fi) <==> DecoderAt(g, fi) || (fi > 0 && DecoderAt(g, fi - 1))
  {
    PairIff(g, fs, base, names, fi);
    if fi > 0 {
      PairIff(g, fs, base, names, fi - 1);
    }
  }

  /** Two cache outputs with one name belong to one block, which repeats a source. */
  lemma ClashRepeats(g: Graph, fs: seq<PlanFunc>, covered: seq<nat>, slots: seq<Slot>, j: nat, k: nat)
    requires WellFormed(g) && FromSplitter(g, fs) && InRange(fs, covered) && Increasing(covered)
    requires slots == Slots(fs, covered) && j < k < |slots| && slots[j].out.consumed && slots[k].out.consumed
    requires slots[j].out.name == slots[k].out.name
    ensures slots[j].fi in covered && slots[j].fi < |g.blocks| && RepeatsSource(g, slots[j].fi)
  {
    SlotsAreOutputs(fs, covered);
    SlotsUnique(fs, covered);
    var s, t := slots[j], slots[k];
    assert IsSlot(fs, covered, s) && IsSlot(fs, covered, t);
    assert (s.fi, s.oi) != (t.fi, t.oi);
    SameBlock(g, s.fi, s.oi, t.fi, t.oi);
  }

  lemma SameBlock(g: Graph, a: nat, i: nat, b: nat, j: nat)
    requires WellFormed(g) && a < |g.blocks| && b < |g.blocks| && i < |Outputs(g, a)| && j < |Outputs(g, b)|
    requires Outputs(g, a)[i].consumed && Outputs(g, b)[j].consumed && (a, i) != (b, j)
    requires Outputs(g, a)[i].name == Outputs(g, b)[j].name
    ensures RepeatsSource(g, a)
  {
    if a < b {
      DifferentBlocks(g, a, b, i, j);
    } else if b < a {
      DifferentBlocks(g, b, a, j, i);
    } else if i < j {
      TwiceRepeats(g, a, i, j);
    } else {
      TwiceRepeats(g, a, j, i);
    }
  }

  lemma DifferentBlocks(g: Graph, a: nat, b: nat, i: nat, j: nat)
    requires WellFormed(g) && a < b < |g.blocks| && i < |Outputs(g, a)| && j < |Outputs(g, b)|
    ensures Outputs(g, a)[i].name != Outputs(g, b)[j].name
  {
    CacheContract.OutputElsewhere(g, a, b, i);
    assert OutputNames(Outputs(g, b))[j] == Outputs(g, b)[j].name;
  }

  lemma SlotFound(fs: seq<PlanFunc>, covered: seq<nat>, a: nat, oi: nat) returns (k: nat)
    requires InRange(fs, covered) && a in covered && a < |fs| && oi < |fs[a].func.outputs|
    ensures k < |Slots(fs, covered)| && Slots(fs, covered)[k] == Slot(a, oi, fs[a].func.outputs[oi])
  {
    var c :| 0 <= c < |covered| && covered[c] == a;
    OutputHasSlot(fs, covered, c, oi);
    k :| 0 <= k < |Slots(fs, covered)| && Slots(fs, covered)[k] == Slot(a, oi, fs[a].func.outputs[oi]);
  }

  lemma RepeatClashes(g: Graph, fs: seq<PlanFunc>, covered: seq<nat>, slots: seq<Slot>, a: nat)
    requires FromSplitter(g, fs) && InRange(fs, covered) && a in covered && a < |g.blocks| && RepeatsSource(g, a)
    requires slots == Slots(fs, covered)
    ensures !CacheNamesDistinct(slots)
  {
    var i, j := RepeatsTwice(g, a);
    assert fs[a].func.outputs == Outputs(g, a);
    var k := SlotFound(fs, covered, a, i);
    var l := SlotFound(fs, covered, a, j);
    SlotsClash(slots, k, l);
  }

  lemma SlotsClash(slots: seq<Slot>, k: nat, l: nat)
    requires k < |slots| && l < |slots| && k != l && slots[k].out.consumed && slots[l].out.consumed
    requires slots[k].out.name == slots[l].out.name
    ensures !CacheNamesDistinct(slots)
  {
    assert k < l || l < k;
  }

  /** A drafted plan of a split module is accepted exactly when no covered block exports a key or value that its
      attention reads in two of its three places. */
  lemma SplitAcceptedIff(g: Graph, fs: seq<PlanFunc>, covered: seq<nat>, outs: map<Name, Position>, bindings: Bindings)
    requires WellFormed(g) && FromSplitter(g, fs)
    requires InRange(fs, covered) && covered != [] && Increasing(covered) && FirstOutputs(fs, outs)
    requires Drafted(fs, covered, outs, bindings).Some?
    ensures Accepted(Drafted(fs, covered, outs, bindings).value, fs, bindings)
            <==> forall a | a in covered :: !RepeatsSource(g, a)
  {
    var slots := Slots(fs, covered);
    SplitHasOps(g, fs, covered);
    AcceptedIff(fs, covered, outs, bindings);
    if !CacheNamesDistinct(slots) {
      var j: nat, k: nat :| j < k < |slots| && slots[j].out.consumed && slots[k].out.consumed
          && slots[j].out.name == slots[k].out.name;
      ClashRepeats(g, fs, covered, slots, j, k);
    }
    forall a | a in covered && RepeatsSource(g, a) ensures !CacheNamesDistinct(slots) {
      RepeatClashes(g, fs, covered, slots, a);
    }
  }
}
