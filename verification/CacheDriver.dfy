/** One cache manager driven through any schedule of requests: allocation, release and forward passes. */
module CacheDriver {
  import opened Options
  import opened PagedStore
  import opened CacheRuns

  /** The block manager hands out or takes back blocks; the inference loop runs one request's pass. */
  datatype Action<Row> =
    | Allocate(req: Req, blocks: seq<nat>)
    | Release(req: Req)
    | Serve(req: Req, positions: seq<nat>, keys: seq<seq<Row>>, values: seq<seq<Row>>)

  /** The pass of a `Serve`: the request's own table, and the decode flag for a single token. */
  function BatchOf<Row>(tables: map<Req, Table>, a: Action<Row>): Batch<Row>
    requires a.Serve?
  {
    Batch(TableOf(tables, a.req), a.positions, a.keys, a.values, |a.positions| == 1)
  }

  function EventsOf<Row>(a: Action<Row>): seq<Event<Row>> {
    match a
    case Allocate(req, blocks) => [Grow(req, blocks)]
    case Release(req) => [Free(req)]
    case Serve(req, positions, keys, values) =>
      if |keys| == |values| then ForwardEvents(req, positions, keys, values, |keys|) else []
  }

  function TraceOf<Row>(actions: seq<Action<Row>>): seq<Event<Row>> {
    if actions == [] then [] else TraceOf(actions[..|actions| - 1]) + EventsOf(actions[|actions| - 1])
  }

  lemma {:induction false} TracePrefix<Row>(actions: seq<Action<Row>>, j: nat) returns (rest: seq<Event<Row>>)
    requires j <= |actions|
    ensures TraceOf(actions) == TraceOf(actions[..j]) + rest
    decreases |actions| - j, |actions|
  {
    if j == |actions| {
      assert actions[..j] == actions;
      rest := [];
    } else {
      var more := TracePrefix(actions, j + 1);
      assert actions[..j + 1][..j] == actions[..j];
      rest := EventsOf(actions[j]) + more;
    }
  }

  /** Rows fit the positions, layers fit the slabs, and blocks exist. */
  ghost predicate Sized<Row(!new)>(a: Action<Row>, layers: nat, blocks: nat) {
    match a
    case Allocate(_, more) => forall b | b in more :: b < blocks
    case Release(_) => true
    case Serve(_, _, _, _) => BatchOf(map[], a).Fits() && |a.keys| <= layers
  }

  ghost predicate Schedulable<Row(!new)>(actions: seq<Action<Row>>, layers: nat, blocks: nat, bs: nat)
    requires bs > 0
  {
    Legal(TraceOf(actions)) && Protocol(TraceOf(actions), bs)
        && forall j | 0 <= j < |actions| :: Sized(actions[j], layers, blocks)
  }

  /** What the attentions of one action see; nothing but for `Serve`. */
  datatype Views<Row> = Views(keys: seq<seq<Row>>, values: seq<seq<Row>>)

  /** Attention `i` sees the whole history of its layer exactly when the pass is a decode step or a first chunk. */
  ghost predicate SeesHistory<Row(!new)>(trace: seq<Event<Row>>, b: Batch<Row>, req: Req, v: Views<Row>, i: nat)
    requires i < |b.keys| && i < |b.values| && i < |v.keys| && i < |v.values|
  {
    var done := Through(trace, req, b, i);
    v.keys[i] == LogOf(done, req, "k", i) && v.values[i] == LogOf(done, req, "v", i) <==> OneChunk(trace, req, b, i)
  }

  ghost predicate Served<Row(!new)>(trace: seq<Event<Row>>, a: Action<Row>, v: Views<Row>) {
    a.Serve? ==>
      && |v.keys| == |v.values| == |a.keys| == |a.values|
      && forall i: nat | i < |a.keys| :: SeesHistory(trace, BatchOf(TablesAfter(trace), a), a.req, v, i)
  }

  // ── One action ──

  lemma ActionLegal<Row(!new)>(actions: seq<Action<Row>>, layers: nat, blocks: nat, bs: nat, j: nat)
    requires bs > 0 && Schedulable(actions, layers, blocks, bs) && j < |actions|
    ensures var trace := TraceOf(actions[..j]);
            && TraceOf(actions[..j + 1]) == trace + EventsOf(actions[j])
            && Legal(trace + EventsOf(actions[j])) && Protocol(trace + EventsOf(actions[j]), bs)
  {
    assert actions[..j + 1][..j] == actions[..j];
    var rest := TracePrefix(actions, j + 1);
    PrefixLegal(TraceOf(actions[..j + 1]), rest, bs);
  }

  /** What a pass showed, against the history. */
  lemma PassSees<Row(!new)>(init: map<Cell, Row>, trace: seq<Event<Row>>, bs: nat, req: Req, b: Batch<Row>, zero: Row,
                            v: Views<Row>, i: nat)
    requires bs > 0 && b.Fits() && i < |b.keys| && |v.keys| == |v.values| == |b.keys|
             && b.isDecode == (|b.positions| == 1)
    requires b.table == TableOf(TablesAfter(trace), req)
    requires var all := trace + ForwardEvents(req, b.positions, b.keys, b.values, |b.keys|);
               Legal(all) && Protocol(all, bs)
    requires SeenAt(b, CellsAfter(init, trace, bs), bs, zero, i, v.keys[i], v.values[i])
    ensures SeesHistory(trace, b, req, v, i)
  {
    ForwardSeesHistory(init, trace, bs, req, b, i, zero);
  }

  lemma OneEvent<Row>(init: map<Cell, Row>, trace: seq<Event<Row>>, e: Event<Row>, bs: nat)
    requires bs > 0 && !e.Write?
    ensures TablesAfter(trace + [e]) == StepTables(TablesAfter(trace), e)
    ensures CellsAfter(init, trace + [e], bs) == CellsAfter(init, trace, bs)
  {
    assert (trace + [e])[..|trace|] == trace;
  }

  ghost predicate InRange(tables: map<Req, Table>, blocks: nat) {
    forall r | r in tables :: forall b | b in tables[r] :: b < blocks
  }

  /** One pass on the manager, from the cells of a run, leaves the cells of the longer run. */
  method ServeOne<Row(0,!new)>(m: CacheManager<Row>, tables: map<Req, Table>, a: Action<Row>, ghost init: map<Cell,
                               Row>,
                               ghost trace: seq<Event<Row>>, ghost layers: nat) returns (v: Views<Row>)
    requires m.Valid() && {"k", "v"} <= m.slabs.Keys && layers <= m.slabs["k"].Length1 && layers <= m.slabs["v"].Length1
    requires a.Serve? && Sized(a, layers, m.numBlocks) && tables == TablesAfter(trace) && InRange(tables, m.numBlocks)
    requires m.cells == CellsAfter(init, trace, m.blockSize)
    requires Legal(trace + EventsOf(a)) && Protocol(trace + EventsOf(a), m.blockSize)
    modifies m, m.slabs["k"], m.slabs["v"]
    ensures m.Valid() && m.cells == CellsAfter(init, trace + EventsOf(a), m.blockSize)
    ensures TablesAfter(trace + EventsOf(a)) == tables
    ensures |v.keys| == |v.values| == |a.keys| == |a.values|
    ensures forall i: nat | i < |a.keys| :: SeesHistory(trace, BatchOf(tables, a), a.req, v, i)
  {
    var b := BatchOf(tables, a);
    var keys, values := Forward(m, b);
    v := Views(keys, values);
    ForwardIsEvents(init, trace, m.blockSize, a.req, a.positions, a.keys, a.values, |a.keys|);
    forall i: nat | i < |a.keys| ensures SeesHistory(trace, b, a.req, v, i) {
      PassSees(init, trace, m.blockSize, a.req, b, m.zero, v, i);
    }
  }

  lemma GrowInRange(tables: map<Req, Table>, req: Req, more: seq<nat>, blocks: nat)
    requires InRange(tables, blocks) && forall b | b in more :: b < blocks
    ensures InRange(tables[req := TableOf(tables, req) + more], blocks)
  {
  }

  /** One action: tables, cells and views follow the run. */
  method Act<Row(0,!new)>(m: CacheManager<Row>, tables: map<Req, Table>, a: Action<Row>, ghost init: map<Cell, Row>,
                          ghost trace: seq<Event<Row>>, ghost layers: nat)
                            returns (after: map<Req, Table>, v: Views<Row>)
    requires m.Valid() && {"k", "v"} <= m.slabs.Keys && layers <= m.slabs["k"].Length1 && layers <= m.slabs["v"].Length1
    requires Sized(a, layers, m.numBlocks) && tables == TablesAfter(trace) && InRange(tables, m.numBlocks)
    requires m.cells == CellsAfter(init, trace, m.blockSize)
    requires Legal(trace + EventsOf(a)) && Protocol(trace + EventsOf(a), m.blockSize)
    modifies m, m.slabs["k"], m.slabs["v"]
    ensures m.Valid() && m.cells == CellsAfter(init, trace + EventsOf(a), m.blockSize)
    ensures after == TablesAfter(trace + EventsOf(a)) && InRange(after, m.numBlocks) && Served(trace, a, v)
  {
    after, v := tables, Views([], []);
    match a {
      case Allocate(req, blocks) =>
        OneEvent(init, trace, Grow(req, blocks), m.blockSize);
        GrowInRange(tables, req, blocks, m.numBlocks);
        after := tables[req := TableOf(tables, req) + blocks];
      case Release(req) =>
        OneEvent(init, trace, Free(req), m.blockSize);
        after := tables - {req};
      case Serve(_, _, _, _) =>
        v := ServeOne(m, tables, a, init, trace, layers);
    }
  }

  // ── Whole schedules ──

  /** Every action so far was served as its history demands. */
  ghost predicate AllServed<Row(!new)>(actions: seq<Action<Row>>, views: seq<Views<Row>>) {
    |views| <= |actions| && forall j: nat | j < |views| :: ServedAt(actions, j, views[j])
  }

  ghost predicate ServedAt<Row(!new)>(actions: seq<Action<Row>>, j: nat, v: Views<Row>)
    requires j < |actions|
  {
    Served(TraceOf(actions[..j]), actions[j], v)
  }

  lemma ServedMore<Row(!new)>(actions: seq<Action<Row>>, views: seq<Views<Row>>, v: Views<Row>)
    requires AllServed(actions, views) && |views| < |actions|
    requires ServedAt(actions, |views|, v)
    ensures AllServed(actions, views + [v])
  {
    var more := views + [v];
    forall j: nat | j < |more| ensures ServedAt(actions, j, more[j]) {
      assert j < |views| ==> more[j] == views[j];
    }
  }

  /** Driving one manager through a schedule: every attention of every pass sees exactly the history of its
      layer and request, if and only if the pass is a decode step or the request's first chunk. */
  method Drive<Row(0,!new)>(m: CacheManager<Row>, actions: seq<Action<Row>>, ghost layers: nat)
    returns (views: seq<Views<Row>>)
    requires m.Valid() && {"k", "v"} <= m.slabs.Keys && layers <= m.slabs["k"].Length1 && layers <= m.slabs["v"].Length1
    requires Schedulable(actions, layers, m.numBlocks, m.blockSize)
    modifies m, m.slabs["k"], m.slabs["v"]
    ensures m.Valid() && m.cells == CellsAfter(old(m.cells), TraceOf(actions), m.blockSize)
    ensures |views| == |actions| && AllServed(actions, views)
  {
    ghost var init := m.cells;
    var tables: map<Req, Table> := map[];
    views := [];
    for j := 0 to |actions|
      invariant m.Valid() && m.cells == CellsAfter(init, TraceOf(actions[..j]), m.blockSize)
      invariant tables == TablesAfter(TraceOf(actions[..j])) && InRange(tables, m.numBlocks)
      invariant |views| == j && AllServed(actions, views)
    {
      ActionLegal(actions, layers, m.numBlocks, m.blockSize, j);
      ghost var trace := TraceOf(actions[..j]);
      var v;
      tables, v := Act(m, tables, actions[j], init, trace, layers);
      ServedMore(actions, views, v);
      views := views + [v];
    }
    assert actions[..|actions|] == actions;
  }

  /** From a freshly built manager. */
  method DriveFresh<Row(0,!new)>(layers: nat, blocks: nat, bs: nat, zero: Row, actions: seq<Action<Row>>)
    returns (m: CacheManager<Row>, views: seq<Views<Row>>)
    requires bs > 0 && Schedulable(actions, layers, blocks, bs)
    ensures fresh(m) && m.Valid() && |views| == |actions| && AllServed(actions, views)
  {
    var specs := [("k", layers), ("v", layers)];
    m := new CacheManager(specs, blocks, bs, zero);
    FreshLayers(layers);
    assert specs[0] in specs && specs[1] in specs;
    views := Drive(m, actions, layers);
  }

  lemma FreshLayers(layers: nat)
    ensures LayersOf([("k", layers), ("v", layers)], "k") == Some(layers)
    ensures LayersOf([("k", layers), ("v", layers)], "v") == Some(layers)
  {
    assert [("k", layers), ("v", layers)][..1] == [("k", layers)];
  }
}
