/** The calling convention as an order on names: what comes before what in a function's inputs and outputs. */
module CallingConvention {
  import opened Lists
  import opened Ssa
  import opened Blocks
  import opened Names
  import opened Splitter
  import opened SplitPlan

  // ── Inputs ──

  /** Activations of block 0 that the function needs. */
  ghost predicate InFirst(g: Graph, needed: set<Name>, x: Name)
    requires g.blocks != []
  {
    x in Results(g.blocks[0]) && x in needed && x !in g.weights
  }

  function Pos(g: Graph, x: Name): int { IndexOr(Results(Flatten(g.blocks)), x, -1) }

  /** The first activation of block 0; what later blocks produce; other activations of block 0; weights; and
      last the activations of block 0 with a leading dimension of 1. */
  ghost function Rank(g: Graph, needed: set<Name>, x: Name): nat
    requires g.blocks != []
  {
    if x in g.weights then 3
    else if x !in Results(g.blocks[0]) then 1
    else if forall y | InFirst(g, needed, y) :: Pos(g, x) <= Pos(g, y) then 0
    else if IsUnit(Types(Flatten(g.blocks)), x) then 4
    else 2
  }

  /** Names of equal rank come in program order, weights alphabetically. */
  ghost predicate Precedes(g: Graph, needed: set<Name>, x: Name, y: Name)
    requires g.blocks != []
  {
    || Rank(g, needed, x) < Rank(g, needed, y)
    || (Rank(g, needed, x) == Rank(g, needed, y) && if x in g.weights then Before(x, y) else Pos(g, x) < Pos(g, y))
  }

  ghost predicate InOrder(g: Graph, needed: set<Name>, s: seq<Name>)
    requires g.blocks != []
  {
    forall i, j | 0 <= i < j < |s| :: Precedes(g, needed, s[i], s[j])
  }

  ghost predicate Ranked(g: Graph, needed: set<Name>, s: seq<Name>, low: nat, high: nat)
    requires g.blocks != []
  {
    forall x | x in s :: low <= Rank(g, needed, x) < high
  }

  lemma OrderConcat(g: Graph, needed: set<Name>, a: seq<Name>, b: seq<Name>, low: nat, mid: nat, high: nat)
    requires g.blocks != [] && low <= mid <= high
    requires InOrder(g, needed, a) && Ranked(g, needed, a, low, mid)
    requires InOrder(g, needed, b) && Ranked(g, needed, b, mid, high)
    ensures InOrder(g, needed, a + b) && Ranked(g, needed, a + b, low, high)
  {
    var s := a + b;
    forall i, j | 0 <= i < j < |s| ensures Precedes(g, needed, s[i], s[j]) {
      if i < |a| && j >= |a| {
        assert a[i] in a && b[j - |a|] in b;
      } else if i >= |a| {
        assert Precedes(g, needed, b[i - |a|], b[j - |a|]);
      }
    }
  }

  /** The names of `s` stand in program order. */
  ghost predicate Climbs(g: Graph, s: seq<Name>) { forall i, j | 0 <= i < j < |s| :: Pos(g, s[i]) < Pos(g, s[j]) }

  lemma FilterClimbs(g: Graph, s: seq<Name>, keep: Name -> bool)
    requires Climbs(g, s)
    ensures Climbs(g, Filter(s, keep))
  {
    var r := Filter(s, keep);
    forall i, j | 0 <= i < j < |r| ensures Pos(g, r[i]) < Pos(g, r[j]) {
      var a, b := FilterPlaces(s, keep, i, j);
    }
  }

  lemma PartsClimb(g: Graph, a: seq<Name>, b: seq<Name>)
    requires Results(Flatten(g.blocks)) == a + b && Unique(a + b)
    ensures Climbs(g, a) && Climbs(g, b)
  {
    forall i, j | 0 <= i < j < |a| ensures Pos(g, a[i]) < Pos(g, a[j]) {
      PosAt(g, a + b, i);
      PosAt(g, a + b, j);
    }
    forall i, j | 0 <= i < j < |b| ensures Pos(g, b[i]) < Pos(g, b[j]) {
      PosAt(g, a + b, |a| + i);
      PosAt(g, a + b, |a| + j);
    }
  }

  lemma PosAt(g: Graph, all: seq<Name>, i: nat)
    requires Results(Flatten(g.blocks)) == all && Unique(all) && i < |all|
    ensures Pos(g, all[i]) == i
  {
    IndexAt(all, i);
  }

  /** Program order within one rank is the required order. */
  lemma ClimbsInOrder(g: Graph, needed: set<Name>, s: seq<Name>, r: nat)
    requires g.blocks != [] && Climbs(g, s) && Ranked(g, needed, s, r, r + 1) && r != 3
    ensures InOrder(g, needed, s)
  {
    forall i, j | 0 <= i < j < |s| ensures Precedes(g, needed, s[i], s[j]) {
      assert s[i] in s && s[j] in s;
    }
  }

  lemma WeightsInOrder(g: Graph, needed: set<Name>, ws: seq<Name>)
    requires g.blocks != [] && Alphabetical(ws) && forall x | x in ws :: x in g.weights
    ensures InOrder(g, needed, ws) && Ranked(g, needed, ws, 3, 4)
  {
    forall i, j | 0 <= i < j < |ws| ensures Precedes(g, needed, ws[i], ws[j]) {
      assert ws[i] in ws && ws[j] in ws;
    }
  }

  /** Only the first activation of block 0 has rank 0. */
  lemma FirstRanks(g: Graph, needed: set<Name>, first: seq<Name>, k: nat)
    requires g.blocks != [] && Climbs(g, first) && k < |first|
    requires forall x :: x in first <==> InFirst(g, needed, x)
    ensures Rank(g, needed, first[k]) == if k
            == 0 then 0 else if IsUnit(Types(Flatten(g.blocks)), first[k]) then 4 else 2
  {
    var x := first[k];
    assert first[k] in first && first[0] in first;
    if k == 0 {
      forall y | InFirst(g, needed, y) ensures Pos(g, x) <= Pos(g, y) {
        var m :| 0 <= m < |first| && first[m] == y;
      }
    } else {
      assert InFirst(g, needed, first[0]) && Pos(g, first[0]) < Pos(g, x);
    }
  }

  lemma RestRanks(g: Graph, needed: set<Name>, first: seq<Name>, rest: seq<Name>)
    requires g.blocks != [] && first != [] && rest == first[1..] && Climbs(g, first)
    requires forall x :: x in first <==> InFirst(g, needed, x)
    ensures Climbs(g, rest)
    ensures forall x | x in rest :: Rank(g, needed, x) == if IsUnit(Types(Flatten(g.blocks)), x) then 4 else 2
  {
    forall i, j | 0 <= i < j < |rest| ensures Pos(g, rest[i]) < Pos(g, rest[j]) {
      assert rest[i] == first[i + 1] && rest[j] == first[j + 1];
    }
    forall x | x in rest ensures Rank(g, needed, x) == if IsUnit(Types(Flatten(g.blocks)), x) then 4 else 2 {
      FirstRanks(g, needed, first, Index(rest, x) + 1);
    }
  }

  lemma KeptInOrder(g: Graph, needed: set<Name>, rest: seq<Name>, keep: Name -> bool, r: nat)
    requires g.blocks != [] && Climbs(g, rest) && r != 3 && forall x | x in rest && keep(x) :: Rank(g, needed, x) == r
    ensures InOrder(g, needed, Filter(rest, keep)) && Ranked(g, needed, Filter(rest, keep), r, r + 1)
  {
    FilterClimbs(g, rest, keep);
    ClimbsInOrder(g, needed, Filter(rest, keep), r);
  }

  lemma LaterInOrder(g: Graph, needed: set<Name>, later: seq<Name>)
    requires g.blocks != [] && Climbs(g, later)
    requires forall x | x in later :: x !in g.weights && x !in Results(g.blocks[0])
    ensures InOrder(g, needed, later) && Ranked(g, needed, later, 1, 2)
  {
    ClimbsInOrder(g, needed, later, 1);
  }

  lemma HeadInOrder(g: Graph, needed: set<Name>, first: seq<Name>)
    requires g.blocks != [] && first != [] && Climbs(g, first) && forall x :: x in first <==> InFirst(g, needed, x)
    ensures InOrder(g, needed, first[..1]) && Ranked(g, needed, first[..1], 0, 1)
  {
    FirstRanks(g, needed, first, 0);
  }

  lemma SegmentsInOrder(g: Graph, needed: set<Name>, first: seq<Name>, later: seq<Name>, ws: seq<Name>)
    requires g.blocks != [] && Climbs(g, first) && forall x :: x in first <==> InFirst(g, needed, x)
    requires Climbs(g, later) && forall x | x in later :: x !in g.weights && x !in Results(g.blocks[0])
    requires Alphabetical(ws) && forall x | x in ws :: x in g.weights
    ensures InOrder(g, needed, Segments(first, later, ws, Types(Flatten(g.blocks))))
  {
    var types := Types(Flatten(g.blocks));
    LaterInOrder(g, needed, later);
    WeightsInOrder(g, needed, ws);
    var head, masks, units: seq<Name> := [], [], [];
    if first != [] {
      head, masks, units := first[..1], Filter(first[1..], x => !IsUnit(types, x)),
          Filter(first[1..], x => IsUnit(types, x));
      HeadInOrder(g, needed, first);
      RestRanks(g, needed, first, first[1..]);
      KeptInOrder(g, needed, first[1..], x => !IsUnit(types, x), 2);
      KeptInOrder(g, needed, first[1..], x => IsUnit(types, x), 4);
    }
    OrderConcat(g, needed, head, later, 0, 1, 2);
    OrderConcat(g, needed, head + later, masks, 0, 2, 3);
    OrderConcat(g, needed, head + later + masks, ws, 0, 3, 4);
    OrderConcat(g, needed, head + later + masks + ws, units, 0, 4, 5);
    assert Segments(first, later, ws, types) == head + later + masks + ws + units;
  }

  lemma InputsInOrder(g: Graph, fi: nat)
    requires WellFormed(g) && 0 < fi < |g.blocks|
    ensures InOrder(g, Needed(g.blocks, fi), PortNames(InputPorts(g, fi)))
  {
    var needed := Needed(g.blocks, fi);
    ResultsInTwo(g);
    ActivationsInOrder(g, needed, Results(g.blocks[0]), Results(Flatten(g.blocks[1..])));
    WeightsSorted(g, needed);
    InputSegments(g, needed);
    SegmentsInOrder(g, needed, Activations(g, needed, Results(g.blocks[0])),
                    Activations(g, needed, Results(Flatten(g.blocks[1..]))), NeededWeights(g, needed));
    assert PortNames(InputPorts(g, fi)) == InputOrder(g, needed);
  }

  lemma WeightsSorted(g: Graph, needed: set<Name>)
    ensures Alphabetical(NeededWeights(g, needed)) && forall x | x in NeededWeights(g, needed) :: x in g.weights
  {
    SortSorts(Filter(Results(Flatten(g.blocks)), x => x in needed && x in g.weights));
  }

  lemma ResultsInTwo(g: Graph)
    requires WellFormed(g)
    ensures Results(Flatten(g.blocks)) == Results(g.blocks[0]) + Results(Flatten(g.blocks[1..]))
    ensures Unique(Results(g.blocks[0]) + Results(Flatten(g.blocks[1..])))
  {
    FlattenHead(g.blocks);
    ResultsConcat(g.blocks[0], Flatten(g.blocks[1..]));
    UniqueResults(g);
  }

  lemma ActivationsInOrder(g: Graph, needed: set<Name>, b0: seq<Name>, bs: seq<Name>)
    requires g.blocks != [] && Results(Flatten(g.blocks)) == b0 + bs && Unique(b0 + bs) && b0 == Results(g.blocks[0])
    ensures var first := Activations(g, needed, b0);
            Climbs(g, first) && forall x :: x in first <==> InFirst(g, needed, x)
    ensures var later := Activations(g, needed, bs);
            Climbs(g, later) && forall x | x in later :: x !in g.weights && x !in b0
  {
    UniqueSplit(b0, bs);
    PartsClimb(g, b0, bs);
    FilterClimbs(g, b0, x => x in needed && x !in g.weights);
    FilterClimbs(g, bs, x => x in needed && x !in g.weights);
  }

  /** An order that never goes both ways lets only one listing of a set be in order. */
  lemma {:induction false} OneListing(g: Graph, needed: set<Name>, a: seq<Name>, b: seq<Name>)
    requires g.blocks != [] && Unique(a) && Unique(b) && Elems(a) == Elems(b)
    requires forall x | x in a :: x in Results(Flatten(g.blocks))
    requires InOrder(g, needed, a) && InOrder(g, needed, b)
    ensures a == b
    decreases |a|
  {
    assert a != [] ==> a[0] in Elems(a);
    assert b != [] ==> b[0] in Elems(b);
    if a != [] {
      assert a[0] in Elems(a) && a[0] in b;
      assert b[0] in Elems(b) && b[0] in a;
      SameHead(g, needed, a, b);
      TailElems(a);
      TailElems(b);
      OneListing(g, needed, a[1..], b[1..]);
      assert a == [a[0]] + a[1..] && b == [b[0]] + b[1..];
    }
  }

  lemma TailElems(s: seq<Name>)
    requires s != [] && Unique(s)
    ensures Elems(s[1..]) == Elems(s) - {s[0]} && Unique(s[1..])
  {
    assert s == [s[0]] + s[1..];
  }

  lemma SameHead(g: Graph, needed: set<Name>, a: seq<Name>, b: seq<Name>)
    requires g.blocks != [] && a != [] && b != [] && a[0] in b && b[0] in a
    requires a[0] in Results(Flatten(g.blocks)) && b[0] in Results(Flatten(g.blocks))
    requires InOrder(g, needed, a) && InOrder(g, needed, b)
    ensures a[0] == b[0]
  {
    var i :| 0 <= i < |a| && a[i] == b[0];
    var j :| 0 <= j < |b| && b[j] == a[0];
    if i > 0 && j > 0 {
      NotBoth(g, needed, a[0], b[0]);
    }
  }

  lemma NotBoth(g: Graph, needed: set<Name>, x: Name, y: Name)
    requires g.blocks != [] && Precedes(g, needed, x, y) && Precedes(g, needed, y, x)
    ensures x == y
  {
    if x in g.weights && y in g.weights {
      BeforeBoth(x, y);
    }
  }

  /** The calling convention of a function after the first, as an order: its inputs are the one listing of
      the needed names that is in order. */
  lemma InputsAre(g: Graph, fi: nat, names: seq<Name>)
    requires WellFormed(g) && 0 < fi < |g.blocks|
    ensures names == PortNames(InputPorts(g, fi)) <==>
            Unique(names) && Elems(names) == Needed(g.blocks, fi) && InOrder(g, Needed(g.blocks, fi), names)
  {
    var needed := Needed(g.blocks, fi);
    var inputs := PortNames(InputPorts(g, fi));
    InputsArePermutation(g, fi);
    InputsInOrder(g, fi);
    if Unique(names) && Elems(names) == needed && InOrder(g, needed, names) {
      forall x | x in names ensures x in Results(Flatten(g.blocks)) {
        assert x in Elems(names);
        NeededIsProduced(g, fi, x);
      }
      OneListing(g, needed, names, inputs);
    }
  }

  // ── Outputs ──

  /** The query, key and value the next attention reads come first, everything else alphabetically. */
  lemma OutputsInOrder(g: Graph, fi: nat)
    requires fi < |g.blocks|
    ensures var head, order := HeadNames(g, fi), OutputOrder(g, fi);
            |head| <= |order| && order[..|head|] == head && Alphabetical(order[|head|..])
            && forall x | x in order[|head|..] :: x !in head
  {
    var exported, head, order := Exported(g, fi), HeadNames(g, fi), OutputOrder(g, fi);
    SortSorts(exported);
    if IsA(g.blocks, fi) {
      var tail := Filter(Sort(exported), x => x !in head);
      FilterInOrder(Sort(exported), x => x !in head);
      assert order == head + tail;
    }
  }
}
