/** Cutting a program into blocks: boundary sentinels are inserted, then the augmented list is
    partitioned at them.  The blocks are exactly the program, cut exactly at the boundaries. */
module Blocks {
  import opened Options
  import opened Lists
  import opened Ssa
  import opened Arith

  type Block = seq<Op>

  const SENTINEL: Op := Op("_func_boundary", [], "", map[], "")

  predicate IsBoundary(op: Op) { op.opName == "_func_boundary" }

  /** No operation of the program is itself a sentinel. */
  predicate Plain(ops: seq<Op>) { forall op | op in ops :: !IsBoundary(op) }

  function Flatten(blocks: seq<Block>): seq<Op> {
    if blocks == [] then [] else Flatten(blocks[..|blocks| - 1]) + blocks[|blocks| - 1]
  }

  /** The program with a sentinel before every operation whose index is in `cuts`. */
  function WithSentinels(ops: seq<Op>, cuts: set<int>): seq<Op> {
    if ops == [] then []
    else
      var n := |ops| - 1;
      WithSentinels(ops[..n], cuts) + (if n in cuts then [SENTINEL] else []) + [ops[n]]
  }

  /** The boundary indices the two splitting modes use. */
  function Cuts(ops: seq<Op>, opsPerFunc: nat, boundaries: seq<int>): set<int>
    requires opsPerFunc > 0
  {
    if boundaries != [] then set b | b in boundaries
    else set i | 0 < i < |ops| && i % opsPerFunc == 0
  }

  lemma SentinelsNext(ops: seq<Op>, i: nat, cuts: set<int>)
    requires i < |ops|
    ensures WithSentinels(ops[..i + 1], cuts)
            == WithSentinels(ops[..i], cuts) + (if i in cuts then [SENTINEL] else []) + [ops[i]]
  {
    assert ops[..i + 1][..i] == ops[..i];
  }

  method SplitIntoFunctions(ops: seq<Op>, opsPerFunc: nat, boundaries: seq<int>)
    returns (augmented: seq<Op>, count: nat)
    requires opsPerFunc > 0
    ensures augmented == WithSentinels(ops, Cuts(ops, opsPerFunc, boundaries))
    ensures count == if boundaries != [] then |boundaries| + 1
                     else if |ops| <= opsPerFunc then 1
                     else (|ops| + opsPerFunc - 1) / opsPerFunc
  {
    if boundaries != [] {
      var boundarySet := set b | b in boundaries;
      augmented := [];
      for i := 0 to |ops|
        invariant augmented == WithSentinels(ops[..i], boundarySet)
      {
        SentinelsNext(ops, i, boundarySet);
        if i in boundarySet {
          augmented := augmented + [SENTINEL];
        }
        augmented := augmented + [ops[i]];
      }
      assert ops[..|ops|] == ops;
      return augmented, |boundaries| + 1;
    }
    var cuts := Cuts(ops, opsPerFunc, boundaries);
    if |ops| <= opsPerFunc {
      NoCutsInside(ops, opsPerFunc);
      NoSentinels(ops, cuts);
      return ops, 1;
    }
    augmented := [];
    for i := 0 to |ops|
      invariant augmented == WithSentinels(ops[..i], cuts)
    {
      SentinelsNext(ops, i, cuts);
      if i > 0 && i % opsPerFunc == 0 {
        augmented := augmented + [SENTINEL];
      }
      augmented := augmented + [ops[i]];
    }
    assert ops[..|ops|] == ops;
    count := (|ops| + opsPerFunc - 1) / opsPerFunc;
  }

  lemma NoCutsInside(ops: seq<Op>, opsPerFunc: nat)
    requires 0 < opsPerFunc && |ops| <= opsPerFunc
    ensures Cuts(ops, opsPerFunc, []) == {}
  {
    forall i | 0 < i < |ops| ensures i % opsPerFunc != 0 {
      UniqueDiv(i, opsPerFunc, 0, i);
    }
  }

  lemma {:induction false} NoSentinels(ops: seq<Op>, cuts: set<int>)
    requires forall i | 0 <= i < |ops| :: i !in cuts
    ensures WithSentinels(ops, cuts) == ops
  {
    if ops != [] {
      NoSentinels(ops[..|ops| - 1], cuts);
    }
  }

  /** The partition so far: finished blocks and the block being filled. */
  datatype Cut = Cut(done: seq<Block>, current: Block)

  function Step(c: Cut, op: Op): Cut {
    if IsBoundary(op) then (if c.current != [] then Cut(c.done + [c.current], []) else c)
    else Cut(c.done, c.current + [op])
  }

  function Scan(augmented: seq<Op>): Cut {
    if augmented == [] then Cut([], [])
    else Step(Scan(augmented[..|augmented| - 1]), augmented[|augmented| - 1])
  }

  function Close(c: Cut): seq<Block> { if c.current != [] then c.done + [c.current] else c.done }

  function BlocksOf(augmented: seq<Op>): seq<Block> { Close(Scan(augmented)) }

  method PartitionBlocks(augmented: seq<Op>) returns (blocks: seq<Block>)
    ensures blocks == BlocksOf(augmented)
  {
    blocks := [];
    var current: Block := [];
    for i := 0 to |augmented|
      invariant Scan(augmented[..i]) == Cut(blocks, current)
    {
      assert augmented[..i + 1][..i] == augmented[..i];
      if IsBoundary(augmented[i]) {
        if current != [] {
          blocks := blocks + [current];
          current := [];
        }
      } else {
        current := current + [augmented[i]];
      }
    }
    assert augmented[..|augmented|] == augmented;
    if current != [] {
      blocks := blocks + [current];
    }
  }

  function Inside(ops: seq<Op>, cuts: set<int>): set<int> { set c | c in cuts && 0 < c < |ops| }

  /** No block is empty, every block but the first starts at a cut, and no cut lies inside a block. */
  ghost predicate CutExactly(blocks: seq<Block>, cuts: set<int>) {
    blocks == [] ||
    (var init, last := blocks[..|blocks| - 1], blocks[|blocks| - 1];
     && CutExactly(init, cuts)
     && last != []
     && (init != [] ==> |Flatten(init)| in cuts)
     && forall c | c in cuts :: !(|Flatten(init)| < c < |Flatten(init)| + |last|))
  }

  /** The state of the scan after an augmented prefix: closed, it is the prefix, cut exactly. */
  ghost predicate ScanInvariant(c: Cut, ops: seq<Op>, cuts: set<int>) {
    && (ops != [] ==> c.current != [])
    && (ops == [] ==> c == Cut([], []))
    && CutExactly(Close(c), cuts)
    && Flatten(Close(c)) == ops
  }

  lemma FlattenAppend(blocks: seq<Block>, b: Block)
    ensures Flatten(blocks + [b]) == Flatten(blocks) + b
  {
    assert (blocks + [b])[..|blocks|] == blocks;
  }

  /** A cut opens a new block for the operation after it. */
  lemma OpenBlock(was: seq<Block>, op: Op, cuts: set<int>)
    requires CutExactly(was, cuts) && (was == [] || |Flatten(was)| in cuts)
    ensures CutExactly(was + [[op]], cuts)
  {
    assert (was + [[op]])[..|was|] == was;
  }

  /** Without a cut the operation joins the block being filled. */
  lemma GrowBlock(done: seq<Block>, current: Block, op: Op, cuts: set<int>)
    requires CutExactly(done + [current], cuts) && |Flatten(done + [current])| !in cuts
    ensures CutExactly(done + [current + [op]], cuts)
  {
    FlattenAppend(done, current);
    assert (done + [current])[..|done|] == done;
    assert (done + [current + [op]])[..|done|] == done;
  }

  /** One operation, with or without a sentinel before it, keeps the scan exact. */
  lemma ScanStep(c: Cut, ops: seq<Op>, op: Op, cuts: set<int>)
    requires ScanInvariant(c, ops, cuts) && !IsBoundary(op)
    ensures ScanInvariant(Step(if |ops| in cuts then Step(c, SENTINEL) else c, op), ops + [op], cuts)
  {
    var next := Step(if |ops| in cuts then Step(c, SENTINEL) else c, op);
    assert IsBoundary(SENTINEL) && [] + [op] == [op];
    if ops == [] {
      OpenBlock([], op, cuts);
      FlattenAppend([], [op]);
      assert Close(next) == [] + [[op]];
    } else if |ops| in cuts {
      assert Close(next) == Close(c) + [[op]];
      OpenBlock(Close(c), op, cuts);
      FlattenAppend(Close(c), [op]);
    } else {
      assert Close(next) == c.done + [c.current + [op]];
      GrowBlock(c.done, c.current, op, cuts);
      FlattenAppend(c.done, c.current);
      FlattenAppend(c.done, c.current + [op]);
    }
  }

  lemma ScanSentinelStep(before: seq<Op>, cut: bool, op: Op)
    ensures Scan(before + (if cut then [SENTINEL] else []) + [op]) ==
            Step(if cut then Step(Scan(before), SENTINEL) else Scan(before), op)
  {
    var mid := before + (if cut then [SENTINEL] else []);
    var aug := mid + [op];
    assert aug[..|aug| - 1] == mid && aug[|aug| - 1] == op;
    if cut {
      assert mid[..|mid| - 1] == before && mid[|mid| - 1] == SENTINEL;
    } else {
      assert mid == before;
    }
  }

  /** Splitting at any boundary set and partitioning again gives back the program, cut exactly at the
      boundaries that lie strictly inside it. */
  lemma SplitCutsExactly(ops: seq<Op>, cuts: set<int>)
    requires Plain(ops)
    ensures CutExactly(BlocksOf(WithSentinels(ops, cuts)), cuts)
    ensures Flatten(BlocksOf(WithSentinels(ops, cuts))) == ops
  {
    ScanCutsExactly(ops, cuts);
  }

  lemma {:induction false} ScanCutsExactly(ops: seq<Op>, cuts: set<int>)
    requires Plain(ops)
    ensures ScanInvariant(Scan(WithSentinels(ops, cuts)), ops, cuts)
  {
    if ops != [] {
      var n := |ops| - 1;
      ScanCutsExactly(ops[..n], cuts);
      var c, next := Scan(WithSentinels(ops[..n], cuts)), Scan(WithSentinels(ops, cuts));
      assert next == Step(if n in cuts then Step(c, SENTINEL) else c, ops[n]) by {
        ScanSentinelStep(WithSentinels(ops[..n], cuts), n in cuts, ops[n]);
      }
      ScanStep(c, ops[..n], ops[n], cuts);
      assert ops[..n] + [ops[n]] == ops;
    }
  }

  /** Every cut strictly inside the program opens one block. */
  lemma {:induction false} BlockCount(ops: seq<Op>, cuts: set<int>)
    requires Plain(ops) && ops != []
    ensures Scan(WithSentinels(ops, cuts)).current != []
    ensures |BlocksOf(WithSentinels(ops, cuts))| == 1 + |Inside(ops, cuts)|
  {
    var n := |ops| - 1;
    var before := WithSentinels(ops[..n], cuts);
    var c, next := Scan(before), Scan(WithSentinels(ops, cuts));
    assert next == Step(if n in cuts then Step(c, SENTINEL) else c, ops[n]) by {
      ScanSentinelStep(before, n in cuts, ops[n]);
    }
    assert next.current != [] && |Close(next)| == |Close(c)| + if n in cuts || c.current == [] then 1 else 0 by {
      CountStep(c, n in cuts, ops[n]);
    }
    InsideStep(ops, cuts);
    if n == 0 {
      assert before == [];
    } else {
      BlockCount(ops[..n], cuts);
    }
  }

  lemma InsideStep(ops: seq<Op>, cuts: set<int>)
    requires ops != []
    ensures var n := |ops| - 1;
            |Inside(ops, cuts)| == if n == 0 then 0 else |Inside(ops[..n], cuts)| + if n in cuts then 1 else 0
  {
    var n := |ops| - 1;
    if n == 0 {
      assert Inside(ops, cuts) == {};
    } else if n in cuts {
      assert Inside(ops, cuts) == Inside(ops[..n], cuts) + {n};
    } else {
      assert Inside(ops, cuts) == Inside(ops[..n], cuts);
    }
  }

  lemma CountStep(c: Cut, cut: bool, op: Op)
    requires !IsBoundary(op)
    ensures var next := Step(if cut then Step(c, SENTINEL) else c, op);
            next.current != [] && |Close(next)| == |Close(c)| + if cut || c.current == [] then 1 else 0
  {
    assert IsBoundary(SENTINEL);
  }

  function SetOf(s: seq<int>): set<int> { set x | x in s }

  lemma {:induction false} SetOfSeqSize(s: seq<int>)
    ensures |SetOf(s)| <= |s|
    ensures |SetOf(s)| == |s| <==> Unique(s)
  {
    if s != [] {
      var n := |s| - 1;
      SetOfSeqSize(s[..n]);
      SetOfSnoc(s, n);
      UniqueSnoc(s, n);
    }
  }

  lemma SetOfSnoc(s: seq<int>, n: nat)
    requires |s| == n + 1
    ensures SetOf(s) == SetOf(s[..n]) + {s[n]} && (s[n] in s[..n] <==> s[n] in SetOf(s[..n]))
  {
    assert s == s[..n] + [s[n]];
  }

  lemma UniqueSnoc(s: seq<int>, n: nat)
    requires |s| == n + 1
    ensures Unique(s) <==> Unique(s[..n]) && s[n] !in s[..n]
  {
    if Unique(s[..n]) && s[n] !in s[..n] {
      forall i, j | 0 <= i < j < |s| ensures s[i] != s[j] {
        assert s[i] in s[..n];
      }
    }
  }

  /** The function count reported with explicit boundaries is the number of blocks exactly when the
      boundaries are distinct and lie strictly inside the program. */
  lemma ReportedCountExact(ops: seq<Op>, boundaries: seq<int>)
    requires Plain(ops) && ops != []
    ensures |BlocksOf(WithSentinels(ops, set b | b in boundaries))| == |boundaries| + 1
            <==> Unique(boundaries) && forall b | b in boundaries :: 0 < b < |ops|
  {
    var cuts := set b | b in boundaries;
    BlockCount(ops, cuts);
    SetOfSeqSize(boundaries);
    var inside := Inside(ops, cuts);
    if forall b | b in boundaries :: 0 < b < |ops| {
      assert inside == cuts;
    } else {
      var b :| b in boundaries && !(0 < b < |ops|);
      SubsetSize(inside, cuts - {b});
    }
  }

  /** Op-count splitting always reports the number of blocks it produces. */
  lemma OpCountExact(ops: seq<Op>, opsPerFunc: nat)
    requires Plain(ops) && ops != [] && opsPerFunc > 0
    ensures |BlocksOf(WithSentinels(ops, Cuts(ops, opsPerFunc, [])))|
            == if |ops| <= opsPerFunc then 1 else (|ops| + opsPerFunc - 1) / opsPerFunc
  {
    var cuts := Cuts(ops, opsPerFunc, []);
    BlockCount(ops, cuts);
    assert Inside(ops, cuts) == cuts;
    MultiplesBelow(|ops|, opsPerFunc);
    CeilDiv(|ops|, opsPerFunc);
  }

  /** With at most one block the splitter keeps the augmented list as the function body; a sentinel
      survives in it exactly when index 0 was a boundary. */
  lemma SingleBlockBody(ops: seq<Op>, cuts: set<int>)
    requires Plain(ops) && ops != []
    requires |BlocksOf(WithSentinels(ops, cuts))| <= 1
    ensures WithSentinels(ops, cuts) == if 0 in cuts then [SENTINEL] + ops else ops
  {
    BlockCount(ops, cuts);
    assert Inside(ops, cuts) == {};
    assert forall i | 0 < i < |ops| && i in cuts :: i in Inside(ops, cuts);
    SingleBlockBodyUpTo(ops, cuts);
  }

  lemma {:induction false} SingleBlockBodyUpTo(ops: seq<Op>, cuts: set<int>)
    requires ops != [] && forall i | 0 < i < |ops| :: i !in cuts
    ensures WithSentinels(ops, cuts) == if 0 in cuts then [SENTINEL] + ops else ops
  {
    var n := |ops| - 1;
    if n == 0 {
      assert ops[..0] == [] && WithSentinels(ops[..0], cuts) == [];
      assert ops == [ops[0]];
    } else {
      SingleBlockBodyUpTo(ops[..n], cuts);
      NoSentinelHere(ops, cuts, n);
      Rejoin([SENTINEL], ops, n);
    }
  }

  lemma NoSentinelHere(ops: seq<Op>, cuts: set<int>, n: nat)
    requires |ops| == n + 1 && n !in cuts
    ensures WithSentinels(ops, cuts) == WithSentinels(ops[..n], cuts) + [ops[n]]
  {
  }

  lemma Rejoin(front: seq<Op>, ops: seq<Op>, n: nat)
    requires |ops| == n + 1
    ensures front + ops[..n] + [ops[n]] == front + ops && ops[..n] + [ops[n]] == ops
  {
  }
}
