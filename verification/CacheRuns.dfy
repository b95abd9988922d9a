/** Runs of the paged cache with any number of interleaved requests: the physical slabs refine a plain
    per-request store, and decode steps see exactly the rows produced so far. */
module CacheRuns {
  import opened Options
  import opened Arith
  import opened PagedStore

  type Req = string

  /** What happens to the cache: the block manager hands out or takes back blocks, and the executor writes
      one operand's rows for one request. */
  datatype Event<Row> =
    | Grow(req: Req, blocks: seq<nat>)
    | Free(req: Req)
    | Write(req: Req, slab: string, layer: nat, positions: seq<nat>, rows: seq<Row>)

  datatype Phys<Row> = Phys(tables: map<Req, Table>, cells: map<Cell, Row>)

  /** A row of a request, independent of where it is stored. */
  datatype Spot = Spot(req: Req, slab: string, layer: nat, pos: nat)
  type Logic<Row> = map<Spot, Row>

  function TableOf(tables: map<Req, Table>, req: Req): Table { if req in tables then tables[req] else [] }

  // ── One event ──

  /** New blocks are distinct and belong to no request; writes are for known requests. */
  ghost predicate Enabled<Row(!new)>(tables: map<Req, Table>, e: Event<Row>) {
    match e
    case Grow(req, blocks) =>
      && (forall i, j | 0 <= i < j < |blocks| :: blocks[i] != blocks[j])
      && (forall r, b | r in tables && b in blocks :: b !in tables[r])
    case Free(req) => req in tables
    case Write(req, slab, layer, positions, rows) => req in tables && |positions| == |rows|
  }

  function StepTables<Row>(tables: map<Req, Table>, e: Event<Row>): map<Req, Table> {
    match e
    case Grow(req, blocks) => tables[req := TableOf(tables, req) + blocks]
    case Free(req) => tables - {req}
    case Write(_, _, _, _, _) => tables
  }

  function StepCells<Row>(cells: map<Cell, Row>, tables: map<Req, Table>, e: Event<Row>, bs: nat): map<Cell, Row>
    requires bs > 0
  {
    match e
    case Write(req, slab, layer, positions, rows) =>
      if |positions| != |rows| then cells
      else WriteCells(cells, [TableOf(tables, req)], bs, slab, layer, positions, rows, |positions|)
    case _ => cells
  }

  function StepPhys<Row>(s: Phys<Row>, e: Event<Row>, bs: nat): Phys<Row>
    requires bs > 0
  {
    Phys(StepTables(s.tables, e), StepCells(s.cells, s.tables, e, bs))
  }

  /** The plain store: the last row written for each covered position of each request. */
  function WriteLogic<Row>(l: Logic<Row>, table: Table, bs: nat, req: Req, slab: string, layer: nat,
                           positions: seq<nat>, rows: seq<Row>, n: nat): Logic<Row>
    requires bs > 0 && n <= |positions| && n <= |rows|
  {
    if n == 0 then l
    else
      var before := WriteLogic(l, table, bs, req, slab, layer, positions, rows, n - 1);
      if positions[n - 1] / bs < |table| then before[Spot(req, slab, layer,
          positions[n - 1]) := rows[n - 1]] else before
  }

  function StepLogic<Row>(l: Logic<Row>, tables: map<Req, Table>, e: Event<Row>, bs: nat): Logic<Row>
    requires bs > 0
  {
    match e
    case Grow(_, _) => l
    case Free(req) => map spot | spot in l && spot.req != req :: l[spot]
    case Write(req, slab, layer, positions, rows) =>
      if |positions| != |rows| then l
      else WriteLogic(l, TableOf(tables, req), bs, req, slab, layer, positions, rows, |positions|)
  }

  // ── The invariant ──

  /** No physical block serves two positions. */
  ghost predicate Disjoint(tables: map<Req, Table>) {
    forall r, r', i, j | r in tables && r' in tables && 0 <= i < |tables[r]| && 0 <= j < |tables[r']| &&
      tables[r][i] == tables[r'][j] :: r == r' && i == j
  }

  ghost predicate Stored<Row(!new)>(s: Phys<Row>, spot: Spot, row: Row, bs: nat)
    requires bs > 0
  {
    && spot.req in s.tables && spot.pos / bs < |s.tables[spot.req]|
    && var c := Cell(spot.slab, s.tables[spot.req][spot.pos / bs], spot.layer, spot.pos % bs);
       c in s.cells && s.cells[c] == row
  }

  /** Tables are disjoint and every row of the plain store sits in its cell. */
  ghost predicate Refines<Row(!new)>(s: Phys<Row>, l: Logic<Row>, bs: nat)
    requires bs > 0
  {
    Disjoint(s.tables) && forall spot | spot in l :: Stored(s, spot, l[spot], bs)
  }

  lemma SamePosition(a: nat, b: nat, bs: nat)
    requires bs > 0 && a / bs == b / bs && a % bs == b % bs
    ensures a == b
  {
    assert a == bs * (a / bs) + a % bs;
    assert b == bs * (b / bs) + b % bs;
  }

  /** Storing one row leaves every other row of every request where it was. */
  lemma OneRow<Row(!new)>(s: Phys<Row>, l: Logic<Row>, bs: nat, spot: Spot, row: Row)
    requires bs > 0 && Refines(s, l, bs) && spot.req in s.tables && spot.pos / bs < |s.tables[spot.req]|
    ensures var c := Cell(spot.slab, s.tables[spot.req][spot.pos / bs], spot.layer, spot.pos % bs);
            Refines(s.(cells := s.cells[c := row]), l[spot := row], bs)
  {
    var c := Cell(spot.slab, s.tables[spot.req][spot.pos / bs], spot.layer, spot.pos % bs);
    var s' := s.(cells := s.cells[c := row]);
    var l' := l[spot := row];
    forall other | other in l' ensures Stored(s', other, l'[other], bs) {
      if other != spot {
        assert Stored(s, other, l[other], bs);
        CellsApart(s, l, bs, spot, other);
      }
    }
  }

  /** Different places of covered requests lie in different cells. */
  lemma CellsApart<Row(!new)>(s: Phys<Row>, l: Logic<Row>, bs: nat, a: Spot, b: Spot)
    requires bs > 0 && Refines(s, l, bs) && a != b
    requires a.req in s.tables && a.pos / bs < |s.tables[a.req]| && b.req in s.tables && b.pos / bs < |s.tables[b.req]|
    ensures Cell(a.slab, s.tables[a.req][a.pos / bs], a.layer, a.pos % bs)
            != Cell(b.slab, s.tables[b.req][b.pos / bs], b.layer, b.pos % bs)
  {
    if s.tables[b.req][b.pos / bs] == s.tables[a.req][a.pos / bs] && b.pos % bs == a.pos % bs && a.req == b.req {
      if a.pos / bs == b.pos / bs {
        SamePosition(b.pos, a.pos, bs);
      }
    }
  }

  lemma {:induction false} WriteRefines<Row(!new)>(s: Phys<Row>, l: Logic<Row>, bs: nat, req: Req, slab: string,
                                                   layer: nat,
                                       positions: seq<nat>, rows: seq<Row>, n: nat)
    requires bs > 0 && Refines(s, l, bs) && req in s.tables && n <= |positions| && n <= |rows|
    ensures Refines(s.(cells := WriteCells(s.cells, [s.tables[req]], bs, slab, layer, positions, rows, n)),
                    WriteLogic(l, s.tables[req], bs, req, slab, layer, positions, rows, n), bs)
    decreases n
  {
    if n > 0 {
      WriteRefines(s, l, bs, req, slab, layer, positions, rows, n - 1);
      var s1 := s.(cells := WriteCells(s.cells, [s.tables[req]], bs, slab, layer, positions, rows, n - 1));
      var l1 := WriteLogic(l, s.tables[req], bs, req, slab, layer, positions, rows, n - 1);
      var pos := positions[n - 1];
      OneTable(s.tables[req], bs, pos);
      if pos / bs < |s.tables[req]| {
        OneRow(s1, l1, bs, Spot(req, slab, layer, pos), rows[n - 1]);
      }
    }
  }

  lemma OneTable(table: Table, bs: nat, pos: nat)
    requires bs > 0
    ensures Target([table], bs, pos) == if pos / bs < |table| then Some((table[pos / bs], pos % bs)) else None
  {
    assert [table][1..] == [];
  }

  lemma GrowRefines<Row(!new)>(s: Phys<Row>, l: Logic<Row>, bs: nat, req: Req, blocks: seq<nat>)
    requires bs > 0 && Refines(s, l, bs) && Enabled<Row>(s.tables, Grow(req, blocks))
    ensures Refines(StepPhys(s, Grow(req, blocks), bs), l, bs)
  {
    var s' := StepPhys(s, Grow(req, blocks), bs);
    var old' := TableOf(s.tables, req);
    GrowDisjoint(s.tables, req, blocks);
    forall spot | spot in l ensures Stored(s', spot, l[spot], bs) {
      assert Stored(s, spot, l[spot], bs);
    }
  }

  lemma GrowDisjoint(tables: map<Req, Table>, req: Req, blocks: seq<nat>)
    requires Disjoint(tables)
    requires forall i, j | 0 <= i < j < |blocks| :: blocks[i] != blocks[j]
    requires forall r, b | r in tables && b in blocks :: b !in tables[r]
    ensures Disjoint(tables[req := TableOf(tables, req) + blocks])
  {
    var before := TableOf(tables, req);
    var after := tables[req := before + blocks];
    forall r, r', i, j | r in after && r' in after && 0 <= i < |after[r]| && 0 <= j < |after[r']|
        && after[r][i] == after[r'][j]
      ensures r == r' && i == j
    {
      var new1, new2 := r == req && i >= |before|, r' == req && j >= |before|;
      if new1 { assert after[r][i] in blocks; }
      if new2 { assert after[r'][j] in blocks; }
      if !new1 { assert r in tables && tables[r][i] == after[r][i]; }
      if !new2 { assert r' in tables && tables[r'][j] == after[r'][j]; }
    }
  }

  /** Every event keeps the refinement. */
  lemma StepRefines<Row(!new)>(s: Phys<Row>, l: Logic<Row>, e: Event<Row>, bs: nat)
    requires bs > 0 && Refines(s, l, bs) && Enabled(s.tables, e)
    ensures Refines(StepPhys(s, e, bs), StepLogic(l, s.tables, e, bs), bs)
  {
    match e
    case Grow(req, blocks) => GrowRefines(s, l, bs, req, blocks);
    case Free(req) =>
      forall spot | spot in l && spot.req != req ensures Stored(StepPhys(s, e, bs), spot, l[spot], bs) {
        assert Stored(s, spot, l[spot], bs);
      }
    case Write(req, slab, layer, positions, rows) =>
      WriteRefines(s, l, bs, req, slab, layer, positions, rows, |positions|);
  }

  // ── Whole runs ──

  function TablesAfter<Row>(trace: seq<Event<Row>>): map<Req, Table> {
    if trace == [] then map[] else StepTables(TablesAfter(trace[..|trace| - 1]), trace[|trace| - 1])
  }

  /** The cells after a run that began with `init`. */
  function CellsAfter<Row>(init: map<Cell, Row>, trace: seq<Event<Row>>, bs: nat): map<Cell, Row>
    requires bs > 0
  {
    if trace == [] then init
    else
      var before := trace[..|trace| - 1];
      StepCells(CellsAfter(init, before, bs), TablesAfter(before), trace[|trace| - 1], bs)
  }

  function PhysAfter<Row>(init: map<Cell, Row>, trace: seq<Event<Row>>, bs: nat): Phys<Row>
    requires bs > 0
  {
    Phys(TablesAfter(trace), CellsAfter(init, trace, bs))
  }

  function LogicAfter<Row>(trace: seq<Event<Row>>, bs: nat): Logic<Row>
    requires bs > 0
  {
    if trace == [] then map[]
    else
      var before := trace[..|trace| - 1];
      StepLogic(LogicAfter(before, bs), TablesAfter(before), trace[|trace| - 1], bs)
  }

  ghost predicate Legal<Row(!new)>(trace: seq<Event<Row>>) {
    trace == [] || (Legal(trace[..|trace| - 1]) && Enabled(TablesAfter(trace[..|trace| - 1]), trace[|trace| - 1]))
  }

  /** After any legal interleaving the slabs refine the plain per-request store. */
  lemma {:induction false} RunRefines<Row(!new)>(init: map<Cell, Row>, trace: seq<Event<Row>>, bs: nat)
    requires bs > 0 && Legal(trace)
    ensures Refines(PhysAfter(init, trace, bs), LogicAfter(trace, bs), bs)
  {
    if trace != [] {
      var before := trace[..|trace| - 1];
      RunRefines(init, before, bs);
      StepRefines(PhysAfter(init, before, bs), LogicAfter(before, bs), trace[|trace| - 1], bs);
    }
  }

  /** A paged read returns, at every written position, the last row that request wrote there. */
  lemma ReadIsLastWritten<Row(!new)>(init: map<Cell, Row>, trace: seq<Event<Row>>, bs: nat, req: Req, slab: string,
                                     layer: nat, len: nat, zero: Row, t: nat)
    requires bs > 0 && Legal(trace) && t < len && Spot(req, slab, layer, t) in LogicAfter(trace, bs)
    ensures req in PhysAfter(init, trace, bs).tables
    ensures var s := PhysAfter(init, trace, bs);
            ReadRows(s.cells, s.tables[req], bs, slab, layer, len, zero)[t]
                == LogicAfter(trace, bs)[Spot(req, slab, layer, t)]
  {
    RunRefines(init, trace, bs);
    var spot := Spot(req, slab, layer, t);
    assert Stored(PhysAfter(init, trace, bs), spot, LogicAfter(trace, bs)[spot], bs);
  }

  lemma {:induction false} WriteLeavesCell<Row>(cells: map<Cell, Row>, table: Table, bs: nat, slab: string, layer: nat,
                                        positions: seq<nat>, rows: seq<Row>, n: nat, c: Cell)
    requires bs > 0 && n <= |positions| && n <= |rows| && c.phys !in table
    ensures var after := WriteCells(cells, [table], bs, slab, layer, positions, rows, n);
            (c in after <==> c in cells) && (c in cells ==> after[c] == cells[c])
    decreases n
  {
    if n > 0 {
      WriteLeavesCell(cells, table, bs, slab, layer, positions, rows, n - 1, c);
      OneTable(table, bs, positions[n - 1]);
    }
  }

  /** A write by one request changes nothing another request can read, written or not. */
  lemma OtherRequestsUntouched<Row(!new)>(init: map<Cell, Row>, trace: seq<Event<Row>>, bs: nat, e: Event<Row>,
                                          req: Req,
                                          slab: string, layer: nat, len: nat, zero: Row)
    requires bs > 0 && Legal(trace + [e]) && e.Write? && e.req != req && req in PhysAfter(init, trace, bs).tables
    ensures var s, s' := PhysAfter(init, trace, bs), PhysAfter(init, trace + [e], bs);
            req in s'.tables && s'.tables[req] == s.tables[req] &&
            ReadRows(s'.cells, s.tables[req], bs, slab, layer, len, zero) ==
            ReadRows(s.cells, s.tables[req], bs, slab, layer, len, zero)
  {
    assert (trace + [e])[..|trace|] == trace;
    RunRefines(init, trace, bs);
    var s := PhysAfter(init, trace, bs);
    forall t: nat | t < len && t / bs < |s.tables[req]|
      ensures s.tables[req][t / bs] !in s.tables[e.req]
    {
    }
    forall t: nat | t < len
      ensures ReadRow(PhysAfter(init, trace + [e], bs).cells, s.tables[req], bs, slab, layer, t, zero) ==
              ReadRow(s.cells, s.tables[req], bs, slab, layer, t, zero)
    {
      if t / bs < |s.tables[req]| {
        var c := Cell(slab, s.tables[req][t / bs], layer, t % bs);
        WriteLeavesCell(s.cells, s.tables[e.req], bs, e.slab, e.layer, e.positions, e.rows, |e.positions|, c);
      }
    }
  }

  // ── One forward pass ──

  /** The cache events of one forward pass, up to layer `n`: key rows and value rows, layer by layer. */
  function ForwardEvents<Row>(req: Req, positions: seq<nat>, keys: seq<seq<Row>>, values: seq<seq<Row>>,
                              n: nat): seq<Event<Row>>
    requires n <= |keys| && n <= |values|
  {
    if n == 0 then []
    else ForwardEvents(req, positions, keys, values, n - 1)
         + [Write(req, "k", n - 1, positions, keys[n - 1])] + [Write(req, "v", n - 1, positions, values[n - 1])]
  }

  lemma EventsNext<Row>(trace: seq<Event<Row>>, req: Req, positions: seq<nat>, keys: seq<seq<Row>>,
                        values: seq<seq<Row>>, n: nat)
    requires n < |keys| && n < |values|
    ensures trace + ForwardEvents(req, positions, keys, values, n + 1)
            == trace + ForwardEvents(req, positions, keys, values, n)
               + [Write(req, "k", n, positions, keys[n])] + [Write(req, "v", n, positions, values[n])]
  {
  }

  lemma NoEvents<Row>(trace: seq<Event<Row>>, req: Req, positions: seq<nat>, keys: seq<seq<Row>>,
                      values: seq<seq<Row>>)
    ensures trace + ForwardEvents(req, positions, keys, values, 0) == trace
  {
  }

  lemma AfterWrite<Row>(init: map<Cell, Row>, trace: seq<Event<Row>>, e: Event<Row>, bs: nat)
    requires bs > 0 && e.Write? && |e.positions| == |e.rows|
    ensures var s, s' := PhysAfter(init, trace, bs), PhysAfter(init, trace + [e], bs);
            s'.tables == s.tables &&
            s'.cells == WriteCells(s.cells, [TableOf(s.tables, e.req)], bs, e.slab, e.layer, e.positions, e.rows,
                |e.positions|)
  {
    assert (trace + [e])[..|trace|] == trace;
  }

  /** The two writes of one layer take the cells one layer further. */
  lemma LayerWritten<Row>(init: map<Cell, Row>, before: seq<Event<Row>>, bs: nat, req: Req, positions: seq<nat>,
                          keys: seq<seq<Row>>, values: seq<seq<Row>>, n: nat, cells: map<Cell, Row>, k: Event<Row>,
                          v: Event<Row>)
    requires bs > 0 && n < |keys| && n < |values|
    requires forall i | 0 <= i < n + 1 :: |keys[i]| == |positions| && |values[i]| == |positions|
    requires k == Write(req, "k", n, positions, keys[n]) && v == Write(req, "v", n, positions, values[n])
    requires var s := PhysAfter(init, before, bs);
             s.cells == ForwardCells(cells, TableOf(s.tables, req), bs, positions, keys, values, n)
    ensures var s, s' := PhysAfter(init, before, bs), PhysAfter(init, before + [k] + [v], bs);
            && s'.tables == s.tables
            && s'.cells == ForwardCells(cells, TableOf(s.tables, req), bs, positions, keys, values, n + 1)
  {
    AfterPair(init, before, k, v, bs);
  }

  /** A forward pass of the cache manager is that sequence of events. */
  lemma {:induction false} ForwardIsEvents<Row>(init: map<Cell, Row>, trace: seq<Event<Row>>, bs: nat, req: Req,
                                                positions: seq<nat>,
                                        keys: seq<seq<Row>>, values: seq<seq<Row>>, n: nat)
    requires bs > 0 && n <= |keys| && n <= |values|
    requires forall i | 0 <= i < n :: |keys[i]| == |positions| && |values[i]| == |positions|
    ensures var s, s' := PhysAfter(init, trace, bs),
            PhysAfter(init, trace + ForwardEvents(req, positions, keys, values, n), bs);
            s'.tables == s.tables &&
            s'.cells == ForwardCells(s.cells, TableOf(s.tables, req), bs, positions, keys, values, n)
    decreases n
  {
    if n == 0 {
      NoEvents(trace, req, positions, keys, values);
    } else {
      ForwardIsEvents(init, trace, bs, req, positions, keys, values, n - 1);
      var before := trace + ForwardEvents(req, positions, keys, values, n - 1);
      var k, v := Write(req, "k", n - 1, positions, keys[n - 1]), Write(req, "v", n - 1, positions, values[n - 1]);
      EventsNext(trace, req, positions, keys, values, n - 1);
      LayerWritten(init, before, bs, req, positions, keys, values, n - 1, PhysAfter(init, trace, bs).cells, k, v);
    }
  }

  lemma AfterPair<Row>(init: map<Cell, Row>, trace: seq<Event<Row>>, k: Event<Row>, v: Event<Row>, bs: nat)
    requires bs > 0 && k.Write? && |k.positions| == |k.rows| && v.Write? && |v.positions| == |v.rows|
    ensures var s, s' := PhysAfter(init, trace, bs), PhysAfter(init, trace + [k] + [v], bs);
            && s'.tables == s.tables
            && s'.cells == WriteCells(WriteCells(s.cells, [TableOf(s.tables, k.req)], bs, k.slab, k.layer, k.positions,
                k.rows, |k.positions|),
                                      [TableOf(s.tables, v.req)], bs, v.slab, v.layer, v.positions, v.rows,
                                          |v.positions|)
  {
    AfterWrite(init, trace, k, bs);
    AfterWrite(init, trace + [k], v, bs);
  }

  // ── Prefill, then decode ──

  /** The rows produced so far for one layer of one request, in position order. */
  function LogOf<Row>(trace: seq<Event<Row>>, req: Req, slab: string, layer: nat): seq<Row> {
    if trace == [] then []
    else
      var before := LogOf(trace[..|trace| - 1], req, slab, layer);
      match trace[|trace| - 1]
      case Grow(_, _) => before
      case Free(r) => if r == req then [] else before
      case Write(r, s, l, _, rows) => if r == req && s == slab && l == layer then before + rows else before
  }

  /** A request's rows are written at consecutive, covered positions, in chunks of any size. */
  ghost predicate InOrder<Row(!new)>(before: seq<Event<Row>>, e: Event<Row>, bs: nat)
    requires bs > 0
  {
    e.Write? ==>
      var log := LogOf(before, e.req, e.slab, e.layer);
      && |e.rows| >= 1 && |e.positions| == |e.rows|
      && (forall i | 0 <= i < |e.positions| :: e.positions[i] == |log| + i)
      && (|log| + |e.rows| - 1) / bs < |TableOf(TablesAfter(before), e.req)|
  }

  ghost predicate Protocol<Row(!new)>(trace: seq<Event<Row>>, bs: nat)
    requires bs > 0
  {
    trace == [] || (Protocol(trace[..|trace| - 1], bs) && InOrder(trace[..|trace| - 1], trace[|trace| - 1], bs))
  }

  predicate LayerOf(spot: Spot, req: Req, slab: string, layer: nat) {
    spot.req == req && spot.slab == slab && spot.layer == layer
  }

  /** Consecutive covered writes fill consecutive spots and touch nothing else. */
  lemma {:induction false} WriteLogicRange<Row>(l: Logic<Row>, table: Table, bs: nat, req: Req, slab: string,
                                                layer: nat,
                                        positions: seq<nat>, rows: seq<Row>, from: nat, n: nat)
    requires bs > 0 && n <= |positions| && n <= |rows|
    requires forall i | 0 <= i < n :: positions[i] == from + i && positions[i] / bs < |table|
    ensures var after := WriteLogic(l, table, bs, req, slab, layer, positions, rows, n);
            && (forall t: nat | from <= t < from + n ::
                   Spot(req, slab, layer, t) in after && after[Spot(req, slab, layer, t)] == rows[t - from])
            && (forall spot | spot in l && !(LayerOf(spot, req, slab, layer) && spot.pos >= from) ::
                  spot in after && after[spot] == l[spot])
    decreases n
  {
    if n > 0 {
      WriteLogicRange(l, table, bs, req, slab, layer, positions, rows, from, n - 1);
    }
  }

  lemma DivMonotone(a: nat, b: nat, bs: nat)
    requires bs > 0 && a <= b
    ensures a / bs <= b / bs
  {
    assert a == bs * (a / bs) + a % bs;
    assert b == bs * (b / bs) + b % bs;
    if a / bs > b / bs {
      ScaleUp(bs, a / bs, b / bs);
    }
  }

  ghost predicate LogStored<Row(!new)>(l: Logic<Row>, log: seq<Row>, req: Req, slab: string, layer: nat) {
    forall t: nat | t < |log| :: Spot(req, slab, layer, t) in l && l[Spot(req, slab, layer, t)] == log[t]
  }

  /** The plain store holds the produced rows, each at its position. */
  lemma {:induction false} LogicHoldsLog<Row(!new)>(trace: seq<Event<Row>>, bs: nat, req: Req, slab: string, layer: nat)
    requires bs > 0 && Legal(trace) && Protocol(trace, bs)
    ensures LogStored(LogicAfter(trace, bs), LogOf(trace, req, slab, layer), req, slab, layer)
  {
    if trace != [] {
      var before, e := trace[..|trace| - 1], trace[|trace| - 1];
      LogicHoldsLog(before, bs, req, slab, layer);
      if e.Write? {
        LogStep(LogicAfter(before, bs), before, e, bs, req, slab, layer);
      }
    }
  }

  lemma LogStep<Row(!new)>(l: Logic<Row>, before: seq<Event<Row>>, e: Event<Row>, bs: nat, req: Req, slab: string,
                           layer: nat)
    requires bs > 0 && e.Write? && InOrder(before, e, bs)
    requires LogStored(l, LogOf(before, req, slab, layer), req, slab, layer)
    ensures var own := e.req == req && e.slab == slab && e.layer == layer;
            LogStored(StepLogic(l, TablesAfter(before), e, bs),
                      LogOf(before, req, slab, layer) + if own then e.rows else [], req, slab, layer)
  {
    var log := LogOf(before, e.req, e.slab, e.layer);
    var table := TableOf(TablesAfter(before), e.req);
    forall i | 0 <= i < |e.positions| ensures e.positions[i] / bs < |table| {
      DivMonotone(e.positions[i], |log| + |e.rows| - 1, bs);
    }
    WriteLogicRange(l, table, bs, e.req, e.slab, e.layer, e.positions, e.rows, |log|, |e.positions|);
    var after := StepLogic(l, TablesAfter(before), e, bs);
    if e.req == req && e.slab == slab && e.layer == layer {
      forall t: nat | t < |log| + |e.rows|
        ensures Spot(req, slab, layer, t) in after && after[Spot(req, slab, layer, t)] == (log + e.rows)[t]
      {
        assert t < |log| ==> Spot(req, slab, layer, t) in l;
      }
    }
  }

  /** Decoding: the gathered prefix is exactly the rows produced so far. */
  lemma GatheredIsLog<Row(!new)>(init: map<Cell, Row>, before: seq<Event<Row>>, e: Event<Row>, bs: nat, zero: Row)
    requires bs > 0 && Legal(before + [e]) && Protocol(before + [e], bs) && e.Write? && |e.rows| == 1
    ensures var s := PhysAfter(init, before + [e], bs);
            Seen(s.cells, TableOf(s.tables, e.req), bs, e.slab, e.layer, e.positions, e.rows, true, zero)
            == LogOf(before + [e], e.req, e.slab, e.layer)
  {
    var trace := before + [e];
    assert trace[..|trace| - 1] == before;
    var log, full := LogOf(before, e.req, e.slab, e.layer), LogOf(trace, e.req, e.slab, e.layer);
    assert full == log + e.rows;
    LogicHoldsLog(trace, bs, e.req, e.slab, e.layer);
    var s := PhysAfter(init, trace, bs);
    assert MaxPos(e.positions) == |log|;
    var gathered := ReadRows(s.cells, TableOf(s.tables, e.req), bs, e.slab, e.layer, |log| + 1, zero);
    forall t | 0 <= t < |log| + 1 ensures gathered[t] == full[t] {
      ReadIsLastWritten(init, trace, bs, e.req, e.slab, e.layer, |log| + 1, zero, t);
    }
  }

  /** Main theorem.  In any legal run, interleaved with any other requests, what the attention sees of an
      operand after its intercept is exactly the rows produced for that layer so far, in position order, if
      and only if the write is a single token or the first chunk: a second prefill chunk sees only itself. */
  lemma AttentionSeesHistory<Row(!new)>(init: map<Cell, Row>, before: seq<Event<Row>>, e: Event<Row>, bs: nat,
                                        zero: Row)
    requires bs > 0 && Legal(before + [e]) && Protocol(before + [e], bs) && e.Write?
    ensures var s := PhysAfter(init, before + [e], bs);
            Seen(s.cells, TableOf(s.tables, e.req), bs, e.slab, e.layer, e.positions, e.rows, |e.rows| == 1, zero)
            == LogOf(before + [e], e.req, e.slab, e.layer)
            <==> |e.rows| == 1 || LogOf(before, e.req, e.slab, e.layer) == []
  {
    var trace := before + [e];
    assert trace[..|trace| - 1] == before;
    if |e.rows| == 1 {
      GatheredIsLog(init, before, e, bs, zero);
    } else {
      var log := LogOf(before, e.req, e.slab, e.layer);
      assert LogOf(trace, e.req, e.slab, e.layer) == log + e.rows;
      assert log + e.rows == e.rows ==> |log| == 0;
    }
  }

  lemma {:induction false} PrefixLegal<Row(!new)>(trace: seq<Event<Row>>, more: seq<Event<Row>>, bs: nat)
    requires bs > 0 && Legal(trace + more) && Protocol(trace + more, bs)
    ensures Legal(trace) && Protocol(trace, bs)
    decreases more
  {
    if more == [] {
      assert trace + more == trace;
    } else {
      var n := |more| - 1;
      assert (trace + more)[..|trace + more| - 1] == trace + more[..n];
      PrefixLegal(trace, more[..n], bs);
    }
  }

  lemma {:induction false} ForwardEventsPrefix<Row>(req: Req, positions: seq<nat>, keys: seq<seq<Row>>,
                                                    values: seq<seq<Row>>, i: nat, n: nat)
    requires i <= n <= |keys| && n <= |values|
    ensures ForwardEvents(req, positions, keys, values, i) <= ForwardEvents(req, positions, keys, values, n)
    decreases n
  {
    if i < n {
      ForwardEventsPrefix(req, positions, keys, values, i, n - 1);
    }
  }

  /** Writes of earlier layers leave the rows of layer `i` alone. */
  lemma {:induction false} LogOfLaterLayer<Row>(trace: seq<Event<Row>>, req: Req, b: Batch<Row>, slab: string, i: nat,
                                                n: nat)
    requires b.Fits() && n <= i <= |b.keys|
    ensures LogOf(trace + ForwardEvents(req, b.positions, b.keys, b.values, n), req, slab, i)
            == LogOf(trace, req, slab, i)
    decreases n
  {
    if n == 0 {
      NoEvents(trace, req, b.positions, b.keys, b.values);
    } else {
      LogOfLaterLayer(trace, req, b, slab, i, n - 1);
      var before := trace + ForwardEvents(req, b.positions, b.keys, b.values, n - 1);
      var k, v := Write(req, "k", n - 1, b.positions, b.keys[n - 1]),
          Write(req, "v", n - 1, b.positions, b.values[n - 1]);
      EventsNext(trace, req, b.positions, b.keys, b.values, n - 1);
      LogSkips(before, k, req, slab, i);
      LogSkips(before + [k], v, req, slab, i);
    }
  }

  lemma LogSkips<Row>(trace: seq<Event<Row>>, e: Event<Row>, req: Req, slab: string, layer: nat)
    requires e.Write? && e.layer != layer
    ensures LogOf(trace + [e], req, slab, layer) == LogOf(trace, req, slab, layer)
  {
    assert (trace + [e])[..|trace|] == trace;
  }

  /** The pass is a decode step, or the first chunk of its request for layer `i`. */
  ghost predicate OneChunk<Row(!new)>(trace: seq<Event<Row>>, req: Req, b: Batch<Row>, i: nat) {
    |b.positions| == 1 || (LogOf(trace, req, "k", i) == [] && LogOf(trace, req, "v", i) == [])
  }

  /** The events of a pass up to and including attention `i`. */
  function Through<Row>(trace: seq<Event<Row>>, req: Req, b: Batch<Row>, i: nat): seq<Event<Row>>
    requires i < |b.keys| && i < |b.values|
  {
    trace + ForwardEvents(req, b.positions, b.keys, b.values, i + 1)
  }

  /** End to end over whole forward passes: attention `i` of a pass sees, as keys and as values, the rows
      produced for layer `i` of that request from position 0 on, if and only if the pass is a decode step or
      the request's first chunk. */
  lemma ForwardSeesHistory<Row(!new)>(init: map<Cell, Row>, trace: seq<Event<Row>>, bs: nat, req: Req, b: Batch<Row>,
                                      i: nat, zero: Row)
    requires bs > 0 && b.Fits() && i < |b.keys| && b.isDecode == (|b.positions| == 1)
    requires b.table == TableOf(TablesAfter(trace), req)
    requires var all := trace + ForwardEvents(req, b.positions, b.keys, b.values, |b.keys|);
               Legal(all) && Protocol(all, bs)
    ensures var done := Through(trace, req, b, i);
            SeenAt(b, CellsAfter(init, trace, bs), bs, zero, i, LogOf(done, req, "k", i), LogOf(done, req, "v", i))
            <==> OneChunk(trace, req, b, i)
  {
    var before := trace + ForwardEvents(req, b.positions, b.keys, b.values, i);
    var k, v := Write(req, "k", i, b.positions, b.keys[i]), Write(req, "v", i, b.positions, b.values[i]);
    assert Through(trace, req, b, i) == before + [k] + [v];
    PassPrefixLegal(trace, bs, req, b, i);
    PrefixLegal(before + [k], [v], bs);
    LogOfLaterLayer(trace, req, b, "k", i, i);
    LogOfLaterLayer(trace, req, b, "v", i, i);
    LayerSeesHistory(init, trace, before, bs, req, b, i, zero);
  }

  lemma PassPrefixLegal<Row(!new)>(trace: seq<Event<Row>>, bs: nat, req: Req, b: Batch<Row>, i: nat)
    requires bs > 0 && b.Fits() && i < |b.keys|
    requires var all := trace + ForwardEvents(req, b.positions, b.keys, b.values, |b.keys|);
               Legal(all) && Protocol(all, bs)
    ensures var done := trace + ForwardEvents(req, b.positions, b.keys, b.values, i + 1);
              Legal(done) && Protocol(done, bs)
  {
    var upTo := ForwardEvents(req, b.positions, b.keys, b.values, i + 1);
    var all := ForwardEvents(req, b.positions, b.keys, b.values, |b.keys|);
    ForwardEventsPrefix(req, b.positions, b.keys, b.values, i + 1, |b.keys|);
    assert trace + all == (trace + upTo) + all[|upTo|..];
    PrefixLegal(trace + upTo, all[|upTo|..], bs);
  }

  lemma LayerSeesHistory<Row(!new)>(init: map<Cell, Row>, trace: seq<Event<Row>>, before: seq<Event<Row>>, bs: nat,
                                    req: Req,
                                    b: Batch<Row>, i: nat, zero: Row)
    requires bs > 0 && b.Fits() && i < |b.keys| && b.isDecode == (|b.positions| == 1)
    requires b.table == TableOf(TablesAfter(trace), req)
    requires before == trace + ForwardEvents(req, b.positions, b.keys, b.values, i)
    requires var k, v := Write(req, "k", i, b.positions, b.keys[i]), Write(req, "v", i, b.positions, b.values[i]);
             && Legal(before + [k]) && Protocol(before + [k], bs)
             && Legal(before + [k] + [v]) && Protocol(before + [k] + [v], bs)
    ensures var done := before + [Write(req, "k", i, b.positions, b.keys[i])] + [Write(req, "v", i, b.positions,
            b.values[i])];
            SeenAt(b, CellsAfter(init, trace, bs), bs, zero, i, LogOf(done, req, "k", i), LogOf(done, req, "v", i))
            <==> |b.positions| == 1 || (LogOf(before, req, "k", i) == [] && LogOf(before, req, "v", i) == [])
  {
    var k, v := Write(req, "k", i, b.positions, b.keys[i]), Write(req, "v", i, b.positions, b.values[i]);
    var mid := before + [k];
    var done := mid + [v];
    ForwardIsEvents(init, trace, bs, req, b.positions, b.keys, b.values, i);
    AfterWrite(init, before, k, bs);
    AfterWrite(init, mid, v, bs);
    AttentionSeesHistory(init, before, k, bs, zero);
    AttentionSeesHistory(init, mid, v, bs, zero);
    assert done[..|done| - 1] == mid && done[|done| - 1] == v;
    assert mid[..|mid| - 1] == before && mid[|mid| - 1] == k;
  }
}
