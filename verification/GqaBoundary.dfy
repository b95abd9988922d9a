/** Where the cache boundary of an attention goes, and how far the key/value trace reaches. */
module GqaBoundary {
  import opened Options
  import opened Lists
  import opened Ssa
  import opened Blocks
  import opened Splitter
  import opened SplitPlan

  /** The producing index of a name in the whole program; the last one wins. */
  function ProducerAt(ops: seq<Op>, x: Name): Option<nat> { LocalProducer(ops, x) }

  /** Indices met when following first operands of repeat-kv operations before index `bound`, up to and
      including the first unsqueeze. */
  function Path(ops: seq<Op>, x: Name, bound: nat, steps: nat): seq<nat>
    requires bound <= |ops|
    decreases steps
  {
    if steps == 0 then []
    else match ProducerAt(ops, x)
      case None => []
      case Some(i) =>
        if i >= bound || ops[i].opName !in REPEAT_OPS || ops[i].operands == [] then []
        else if ops[i].opName == "unsqueeze" then [i]
        else [i] + Path(ops, ops[i].operands[0], bound, steps - 1)
  }

  method TracePath(ops: seq<Op>, x: Name, bound: nat, limit: nat) returns (path: seq<nat>)
    requires bound <= |ops|
    ensures path == Path(ops, x, bound, limit)
  {
    path := [];
    var cur, left := x, limit;
    while left > 0
      invariant path + Path(ops, cur, bound, left) == Path(ops, x, bound, limit)
    {
      var i := ProducerAt(ops, cur);
      if i.None? || i.value >= bound { break; }
      var op := ops[i.value];
      if op.opName !in REPEAT_OPS || op.operands == [] { break; }
      assert path + ([i.value] + Path(ops, op.operands[0], bound, left - 1))
          == path + [i.value] + Path(ops, op.operands[0], bound, left - 1);
      path := path + [i.value];
      if op.opName == "unsqueeze" { return; }
      cur, left := op.operands[0], left - 1;
    }
  }

  /** The unsqueeze that starts a recognised view(expand(unsqueeze(x))) chain feeding an operand. */
  function ChainStart(ops: seq<Op>, sdpa: nat, operand: nat): (r: Option<nat>)
    requires sdpa < |ops|
  {
    if operand >= |ops[sdpa].operands| then None
    else
      var path := Path(ops, ops[sdpa].operands[operand], sdpa, MAX_TRACE);
      PathBelow(ops, ops[sdpa].operands[operand], sdpa, MAX_TRACE);
      if |path| == 3 && ops[path[0]].opName == "view" && ops[path[1]].opName == "expand"
         && ops[path[2]].opName == "unsqueeze"
      then Some(path[2]) else None
  }

  lemma {:induction false} PathBelow(ops: seq<Op>, x: Name, bound: nat, steps: nat)
    requires bound <= |ops|
    ensures forall i | i in Path(ops, x, bound, steps) :: i < bound
    decreases steps
  {
    if steps > 0 {
      var i := ProducerAt(ops, x);
      if i.Some? && i.value < bound && ops[i.value].operands != [] {
        PathBelow(ops, ops[i.value].operands[0], bound, steps - 1);
      }
    }
  }

  /** The boundary of one attention: before both chains when both are recognised, else the attention. */
  function BoundaryOf(ops: seq<Op>, sdpa: nat): nat
    requires sdpa < |ops|
  {
    var k, v := ChainStart(ops, sdpa, 1), ChainStart(ops, sdpa, 2);
    if k.Some? && v.Some? then (if k.value < v.value then k.value else v.value) else sdpa
  }

  function Boundaries(ops: seq<Op>, n: nat): seq<nat>
    requires n <= |ops|
  {
    if n == 0 then []
    else Boundaries(ops, n - 1) + if ops[n - 1].opName == SDPA then [BoundaryOf(ops, n - 1)] else []
  }

  method SdpaCacheBoundaries(ops: seq<Op>) returns (boundaries: seq<nat>)
    ensures boundaries == Boundaries(ops, |ops|)
  {
    boundaries := [];
    for i := 0 to |ops|
      invariant boundaries == Boundaries(ops, i)
    {
      if ops[i].opName == SDPA {
        var boundary := OneBoundary(ops, i);
        boundaries := boundaries + [boundary];
      }
    }
  }

  /** Collects the recognised chains and takes the earlier start when there are two. */
  method OneBoundary(ops: seq<Op>, sdpa: nat) returns (boundary: nat)
    requires sdpa < |ops|
    ensures boundary == BoundaryOf(ops, sdpa)
  {
    var k, v := ChainStart(ops, sdpa, 1), ChainStart(ops, sdpa, 2);
    var starts := (if k.Some? then [k.value] else []) + (if v.Some? then [v.value] else []);
    boundary := if |starts| == 2 then (if starts[0] < starts[1] then starts[0] else starts[1]) else sdpa;
  }

  lemma {:induction false} BoundaryListed(ops: seq<Op>, sdpa: nat, n: nat)
    requires sdpa < n <= |ops| && ops[sdpa].opName == SDPA
    ensures BoundaryOf(ops, sdpa) in Boundaries(ops, n)
    decreases n
  {
    if sdpa < n - 1 {
      BoundaryListed(ops, sdpa, n - 1);
    }
  }

  /** A boundary never lies after its attention, and a recognised one is an unsqueeze that lies before the
      attention and not after the other chain's unsqueeze. */
  lemma BoundaryNotAfter(ops: seq<Op>, sdpa: nat)
    requires sdpa < |ops|
    ensures BoundaryOf(ops, sdpa) <= sdpa
    ensures var k, v := ChainStart(ops, sdpa, 1), ChainStart(ops, sdpa, 2);
            k.Some? && v.Some? ==>
              && BoundaryOf(ops, sdpa) < sdpa && ops[BoundaryOf(ops, sdpa)].opName == "unsqueeze"
              && BoundaryOf(ops, sdpa) <= k.value && BoundaryOf(ops, sdpa) <= v.value
    ensures ChainStart(ops, sdpa, 1).None? || ChainStart(ops, sdpa, 2).None? ==> BoundaryOf(ops, sdpa) == sdpa
  {
    forall operand | 0 <= operand < |ops[sdpa].operands|
      ensures forall i | i in Path(ops, ops[sdpa].operands[operand], sdpa, MAX_TRACE) :: i < sdpa
    {
      PathBelow(ops, ops[sdpa].operands[operand], sdpa, MAX_TRACE);
    }
  }

  // ── The boundaries, told from the operations alone ──

  /** `i` is the last operation whose result is `x`; in SSA form the only one. */
  ghost predicate Defines(ops: seq<Op>, x: Name, i: nat) {
    i < |ops| && ops[i].result == x && forall j | i < j < |ops| :: ops[j].result != x
  }

  /** Before `end`, operation `i` with the given name defines `x`. */
  ghost predicate DefinedBy(ops: seq<Op>, end: nat, x: Name, opName: string, i: nat) {
    Defines(ops, x, i) && i < end && ops[i].opName == opName && ops[i].operands != []
  }

  /** An operand of the attention is a view (at `v`) of an expand (at `e`) of an unsqueeze (at `u`), all three
      before the attention. */
  ghost predicate Repeated(ops: seq<Op>, sdpa: nat, operand: nat, v: nat, e: nat, u: nat) {
    && sdpa < |ops| && operand < |ops[sdpa].operands|
    && DefinedBy(ops, sdpa, ops[sdpa].operands[operand], "view", v)
    && DefinedBy(ops, sdpa, ops[v].operands[0], "expand", e)
    && DefinedBy(ops, sdpa, ops[e].operands[0], "unsqueeze", u)
  }

  ghost predicate RepeatedFrom(ops: seq<Op>, sdpa: nat, operand: nat, u: nat) {
    exists v: nat, e: nat :: Repeated(ops, sdpa, operand, v, e, u)
  }

  /** Where the boundary of the attention belongs: at the earlier of the two unsqueezes when key and value are
      both repeated heads, else at the attention. */
  ghost predicate BelongsAt(ops: seq<Op>, sdpa: nat, boundary: nat) {
    || (exists k: nat, v: nat ::
          && RepeatedFrom(ops, sdpa, 1, k) && RepeatedFrom(ops, sdpa, 2, v)
          && boundary == if k < v then k else v)
    || (boundary == sdpa
        && ((forall k: nat :: !RepeatedFrom(ops, sdpa, 1, k)) || forall v: nat :: !RepeatedFrom(ops, sdpa, 2, v)))
  }

  lemma {:induction false} DefinesIs(ops: seq<Op>, x: Name, i: nat)
    ensures ProducerAt(ops, x) == Some(i) <==> Defines(ops, x, i)
  {
    var n := |ops| - 1;
    if ops != [] && ops[n].result != x {
      DefinesIs(ops[..n], x, i);
    }
  }

  lemma RepeatedIsFound(ops: seq<Op>, sdpa: nat, operand: nat, v: nat, e: nat, u: nat)
    requires Repeated(ops, sdpa, operand, v, e, u)
    ensures ChainStart(ops, sdpa, operand) == Some(u)
  {
    var x, y, z := ops[sdpa].operands[operand], ops[v].operands[0], ops[e].operands[0];
    DefinesIs(ops, x, v);
    DefinesIs(ops, y, e);
    DefinesIs(ops, z, u);
    assert Path(ops, z, sdpa, MAX_TRACE - 2) == [u];
    assert Path(ops, y, sdpa, MAX_TRACE - 1) == [e, u];
    assert Path(ops, x, sdpa, MAX_TRACE) == [v, e, u];
  }

  /** What a path consists of. */
  lemma PathStep(ops: seq<Op>, x: Name, bound: nat, steps: nat)
    requires bound <= |ops| && Path(ops, x, bound, steps) != []
    ensures var path := Path(ops, x, bound, steps);
            && steps > 0 && DefinedBy(ops, bound, x, ops[path[0]].opName, path[0])
            && (|path| > 1 ==> path[1..] == Path(ops, ops[path[0]].operands[0], bound, steps - 1))
  {
    DefinesIs(ops, x, Path(ops, x, bound, steps)[0]);
  }

  lemma FoundIsRepeated(ops: seq<Op>, sdpa: nat, operand: nat)
    requires sdpa < |ops| && ChainStart(ops, sdpa, operand).Some?
    ensures RepeatedFrom(ops, sdpa, operand, ChainStart(ops, sdpa, operand).value)
  {
    var x := ops[sdpa].operands[operand];
    var path := Path(ops, x, sdpa, MAX_TRACE);
    PathBelow(ops, x, sdpa, MAX_TRACE);
    var v, e, u := path[0], path[1], path[2];
    PathStep(ops, x, sdpa, MAX_TRACE);
    PathStep(ops, ops[v].operands[0], sdpa, MAX_TRACE - 1);
    PathStep(ops, ops[e].operands[0], sdpa, MAX_TRACE - 2);
    assert Repeated(ops, sdpa, operand, v, e, u);
  }

  lemma ChainIff(ops: seq<Op>, sdpa: nat, operand: nat, u: nat)
    requires sdpa < |ops|
    ensures ChainStart(ops, sdpa, operand) == Some(u) <==> RepeatedFrom(ops, sdpa, operand, u)
  {
    if ChainStart(ops, sdpa, operand) == Some(u) {
      FoundIsRepeated(ops, sdpa, operand);
    }
    forall v: nat, e: nat | Repeated(ops, sdpa, operand, v, e, u) ensures ChainStart(ops, sdpa, operand) == Some(u) {
      RepeatedIsFound(ops, sdpa, operand, v, e, u);
    }
  }

  lemma BoundaryBelongs(ops: seq<Op>, sdpa: nat, boundary: nat)
    requires sdpa < |ops|
    ensures BoundaryOf(ops, sdpa) == boundary <==> BelongsAt(ops, sdpa, boundary)
  {
    forall operand: nat, u: nat
      ensures ChainStart(ops, sdpa, operand) == Some(u) <==> RepeatedFrom(ops, sdpa, operand, u)
    {
      ChainIff(ops, sdpa, operand, u);
    }
    var k, v := ChainStart(ops, sdpa, 1), ChainStart(ops, sdpa, 2);
    if k.Some? {
      assert RepeatedFrom(ops, sdpa, 1, k.value);
    }
    if v.Some? {
      assert RepeatedFrom(ops, sdpa, 2, v.value);
    }
  }

  /** The first `n` operations' attentions, in order. */
  ghost predicate AttentionsAt(ops: seq<Op>, at: seq<nat>, n: nat) {
    && Increasing(at)
    && forall k: nat :: k in at <==> k < n && k < |ops| && ops[k].opName == "scaled_dot_product_attention"
  }

  lemma LastOff(at: seq<nat>, last: nat) returns (front: seq<nat>)
    requires Increasing(at) && last in at && forall k | k in at :: k <= last
    ensures at == front + [last] && Increasing(front)
    ensures forall k: nat :: k in front <==> k in at && k != last
  {
    var i :| 0 <= i < |at| && at[i] == last;
    assert at[|at| - 1] in at;
    front := at[..i];
    assert at == front + [last];
  }

  lemma AttentionsBefore(ops: seq<Op>, at: seq<nat>, n: nat) returns (front: seq<nat>)
    requires 0 < n <= |ops| && AttentionsAt(ops, at, n)
    ensures AttentionsAt(ops, front, n - 1)
    ensures at == front + if ops[n - 1].opName == "scaled_dot_product_attention" then [n - 1] else []
  {
    if n - 1 in at {
      front := LastOff(at, n - 1);
    } else {
      front := at;
    }
  }

  lemma NoneBefore(ops: seq<Op>, at: seq<nat>)
    requires AttentionsAt(ops, at, 0)
    ensures at == []
  {
    NoMembers(at);
  }

  /** Boundary for boundary, `boundaries` are those of the attentions at `at`. */
  ghost predicate BoundariesAt(ops: seq<Op>, at: seq<nat>, boundaries: seq<nat>) {
    |boundaries| == |at| && forall i | 0 <= i < |at| :: at[i] < |ops| && boundaries[i] == BoundaryOf(ops, at[i])
  }

  lemma BoundaryAdded(ops: seq<Op>, front: seq<nat>, boundaries: seq<nat>, k: nat)
    requires k < |ops| && BoundariesAt(ops, front, boundaries)
    ensures BoundariesAt(ops, front + [k], boundaries + [BoundaryOf(ops, k)])
  {
  }

  lemma {:induction false} BoundariesFrom(ops: seq<Op>, at: seq<nat>, n: nat)
    requires n <= |ops| && AttentionsAt(ops, at, n)
    ensures BoundariesAt(ops, at, Boundaries(ops, n))
    decreases n
  {
    if n == 0 {
      NoneBefore(ops, at);
    } else {
      var front := AttentionsBefore(ops, at, n);
      BoundariesFrom(ops, front, n - 1);
      BoundaryAdded(ops, front, Boundaries(ops, n - 1), n - 1);
    }
  }

  ghost predicate AllBelong(ops: seq<Op>, at: seq<nat>, boundaries: seq<nat>) {
    |boundaries| == |at| && forall i | 0 <= i < |at| :: BelongsAt(ops, at[i], boundaries[i])
  }

  lemma BelongIff(ops: seq<Op>, at: seq<nat>, boundaries: seq<nat>)
    requires forall i | 0 <= i < |at| :: at[i] < |ops|
    ensures BoundariesAt(ops, at, boundaries) <==> AllBelong(ops, at, boundaries)
  {
    if |boundaries| == |at| {
      forall i | 0 <= i < |at|
        ensures BoundaryOf(ops, at[i]) == boundaries[i] <==> BelongsAt(ops, at[i], boundaries[i])
      {
        BoundaryBelongs(ops, at[i], boundaries[i]);
      }
    }
  }

  /** Main result.  There is one boundary per attention, in program order, and it lies where it belongs. */
  lemma BoundariesExact(ops: seq<Op>, at: seq<nat>, boundaries: seq<nat>)
    requires AttentionsAt(ops, at, |ops|)
    ensures boundaries == Boundaries(ops, |ops|) <==> AllBelong(ops, at, boundaries)
  {
    var found := Boundaries(ops, |ops|);
    BoundariesFrom(ops, at, |ops|);
    BelongIff(ops, at, boundaries);
    BelongIff(ops, at, found);
    SameBoundaries(ops, at, found, boundaries);
  }

  lemma SameBoundaries(ops: seq<Op>, at: seq<nat>, a: seq<nat>, b: seq<nat>)
    requires BoundariesAt(ops, at, a)
    ensures BoundariesAt(ops, at, b) <==> a == b
  {
  }

  // ── Tracing the cache source inside a b-block ──

  /** Repeat-kv operations between `x` and the first value defined outside the block. */
  function Hops(block: Block, x: Name, bound: nat): nat
    requires bound <= |block|
    decreases bound
  {
    match LocalProducer(block, x)
    case None => 0
    case Some(i) =>
      if i < bound && block[i].operands != [] then 1 + Hops(block, block[i].operands[0], i) else 0
  }

  /** What a b-block has before its attention at `p`: repeat-kv operations with at least one operand. */
  ghost predicate RepeatPrefix(block: Block, p: nat) {
    p <= |block| && forall i | 0 <= i < p :: block[i].opName in REPEAT_OPS && block[i].operands != []
  }

  ghost predicate Available(block: Block, known: set<Name>, p: nat, x: Name) {
    p <= |block| && (x in known || exists j | 0 <= j < p :: block[j].result == x)
  }

  /** Tracing reaches a value defined outside the block exactly when at most `steps` operations separate
      them. */
  lemma {:induction false} TraceLeavesIff(block: Block, known: set<Name>, p: nat, x: Name, steps: nat)
    requires SsaForm(block, known) && RepeatPrefix(block, p) && Available(block, known, p, x)
    ensures Trace(block, x, steps) !in Results(block) <==> Hops(block, x, p) <= steps
    ensures Hops(block, x, p) <= p
    decreases p
  {
    SsaFormByIndex(block, known);
    match LocalProducer(block, x)
    case None =>
      NotAResult(block, x);
    case Some(i) =>
      assert Results(block)[i] == x;
      assert i < p;
      var y := block[i].operands[0];
      assert y in Uses(block[i]);
      assert Available(block, known, i, y);
      TraceLeavesIff(block, known, i, y, if steps == 0 then 0 else steps - 1);
  }

  lemma NotAResult(block: Block, x: Name)
    requires forall op | op in block :: op.result != x
    ensures x !in Results(block)
  {
    assert forall i | 0 <= i < |block| :: block[i] in block && Results(block)[i] == block[i].result;
  }

  /** In a b-block with at most eight repeat-kv operations the cache source always lies outside. */
  lemma CacheSourceOutside(block: Block, known: set<Name>, p: nat, x: Name)
    requires SsaForm(block, known) && RepeatPrefix(block, p) && Available(block, known, p, x)
    requires p <= MAX_TRACE
    ensures Trace(block, x, MAX_TRACE) !in Results(block)
  {
    TraceLeavesIff(block, known, p, x, MAX_TRACE);
  }

  lemma TraceStep(block: Block, x: Name, i: nat, steps: nat)
    requires Defines(block, x, i) && block[i].opName in REPEAT_OPS && block[i].operands != [] && steps > 0
    ensures Trace(block, x, steps) == Trace(block, block[i].operands[0], steps - 1)
  {
    DefinesIs(block, x, i);
  }

  lemma ProducerResult(block: Block, w: Name)
    ensures LocalProducer(block, w).Some? ==> w in Results(block)
  {
    var r := LocalProducer(block, w);
    if r.Some? {
      assert Results(block)[r.value] == w;
    }
  }

  lemma TraceStays(block: Block, w: Name, steps: nat)
    requires w !in Results(block)
    ensures Trace(block, w, steps) == w
  {
    ProducerResult(block, w);
  }

  lemma TraceThree(block: Block, p: nat, operand: nat, v: nat, e: nat, u: nat, steps: nat)
    requires Repeated(block, p, operand, v, e, u) && steps > 3 && block[u].operands[0] !in Results(block)
    ensures Trace(block, block[p].operands[operand], steps) == block[u].operands[0]
  {
    TraceStep(block, block[p].operands[operand], v, steps);
    TraceStep(block, block[v].operands[0], e, steps - 1);
    TraceStep(block, block[e].operands[0], u, steps - 2);
    TraceStays(block, block[u].operands[0], steps - 3);
  }

  /** When a b-block repeats the heads of its key or value itself, what is cached is the value it repeats. */
  lemma NativeHeadsCached(block: Block, p: nat, v: nat, e: nat, u: nat, operand: nat)
    requires SdpaPos(block) == Some(p) && (operand == 1 || operand == 2) && Repeated(block, p, operand, v, e, u)
    requires block[u].operands[0] !in Results(block)
    ensures (if operand == 1 then AttentionSources(block).k else AttentionSources(block).v) == block[u].operands[0]
  {
    TraceThree(block, p, operand, v, e, u, MAX_TRACE);
  }
}
