/** The executor's loop over operations with the cache manager attached: what a whole pass computes. */
module CachedExecutor {
  import opened Options
  import opened Ssa
  import opened Blocks
  import opened Splitter
  import opened SplitPlan
  import opened PagedStore
  import opened CachedRun
  import CacheContract

  // ── Layers are handed out slab by slab, in execution order ──

  /** Where an operation is intercepted: slab and operand, in order. */
  type Places = seq<(string, nat)>

  type Counters = map<string, nat>

  function Advanced(places: Places, counters: Counters): (r: Counters)
    requires forall p | p in places :: p.0 in counters
    ensures r.Keys == counters.Keys
    decreases |places|
  {
    if places == [] then counters
    else
      assert places[0] in places;
      Advanced(places[1..], counters[places[0].0 := counters[places[0].0] + 1])
  }

  function Layered(places: Places, counters: Counters): (r: seq<Hook>)
    requires forall p | p in places :: p.0 in counters
    decreases |places|
  {
    if places == [] then []
    else
      assert places[0] in places;
      var (slab, p) := places[0];
      [Hook(slab, counters[slab], p)] + Layered(places[1..], counters[slab := counters[slab] + 1])
  }

  /** Every intercepted operand exists and goes to a slab. */
  ghost predicate PlacesFit(op: Op, places: Places, slabs: set<string>) {
    forall p | p in places :: p.0 in slabs && p.1 < |Uses(op)|
  }

  ghost predicate AllFit(ops: seq<Op>, place: Op -> Places, slabs: set<string>) {
    forall i | 0 <= i < |ops| :: PlacesFit(ops[i], place(ops[i]), slabs)
  }

  ghost function AdvancedAll(ops: seq<Op>, place: Op -> Places, counters: Counters): (r: Counters)
    requires AllFit(ops, place, counters.Keys)
    ensures r.Keys == counters.Keys
  {
    if ops == [] then counters
    else
      assert PlacesFit(ops[0], place(ops[0]), counters.Keys);
      AdvancedAll(ops[1..], place, Advanced(place(ops[0]), counters))
  }

  ghost function LayeredAll(ops: seq<Op>, place: Op -> Places, counters: Counters): (r: seq<seq<Hook>>)
    requires AllFit(ops, place, counters.Keys)
    ensures HooksFit(ops, r)
  {
    if ops == [] then []
    else
      assert PlacesFit(ops[0], place(ops[0]), counters.Keys);
      var rest := LayeredAll(ops[1..], place, Advanced(place(ops[0]), counters));
      LayeredFit(ops[0], place(ops[0]), counters);
      [Layered(place(ops[0]), counters)] + rest
  }

  lemma {:induction false} LayeredFit(op: Op, places: Places, counters: Counters)
    requires PlacesFit(op, places, counters.Keys)
    ensures InRange(|Uses(op)|, Layered(places, counters))
    decreases |places|
  {
    if places != [] {
      assert places[0] in places;
      LayeredFit(op, places[1..], counters[places[0].0 := counters[places[0].0] + 1]);
    }
  }

  lemma {:induction false} AdvancedGrows(places: Places, counters: Counters)
    requires forall p | p in places :: p.0 in counters
    ensures forall s | s in counters :: counters[s] <= Advanced(places, counters)[s]
    decreases |places|
  {
    if places != [] {
      assert places[0] in places;
      AdvancedGrows(places[1..], counters[places[0].0 := counters[places[0].0] + 1]);
    }
  }

  // ── What the cache returns depends on the slab and layer only ──

  /** What the cache returns when nothing has been written to the layer since `start`. */
  function CacheView<Row>(start: map<Cell, Row>, table: Table, bs: nat, positions: seq<nat>, isDecode: bool,
                          zero: Row): See<seq<Row>>
    requires bs > 0
  {
    (slab: string, layer: nat, rows: seq<Row>) =>
      if |rows| < |positions| then None
      else Some(Seen(WriteCells(start, [table], bs, slab, layer, positions, rows, |positions|), table, bs, slab,
                     layer, positions, rows, isDecode, zero))
  }

  ghost predicate SameLayer<Row(!new)>(a: map<Cell, Row>, b: map<Cell, Row>, slab: string, layer: nat) {
    forall c: Cell | c.slab == slab && c.layer == layer :: (c in a <==> c in b) && (c in a ==> a[c] == b[c])
  }

  lemma {:induction false} WriteSame<Row(!new)>(a: map<Cell, Row>, b: map<Cell, Row>, table: Table, bs: nat,
                                                slab: string, layer: nat, positions: seq<nat>, rows: seq<Row>, n: nat)
    requires bs > 0 && n <= |positions| && n <= |rows| && SameLayer(a, b, slab, layer)
    ensures SameLayer(WriteCells(a, [table], bs, slab, layer, positions, rows, n),
                      WriteCells(b, [table], bs, slab, layer, positions, rows, n), slab, layer)
  {
    if n > 0 {
      WriteSame(a, b, table, bs, slab, layer, positions, rows, n - 1);
    }
  }

  lemma {:induction false} WriteOther<Row(!new)>(a: map<Cell, Row>, table: Table, bs: nat, slab: string, layer: nat,
                                                 positions: seq<nat>, rows: seq<Row>, n: nat, s: string, l: nat)
    requires bs > 0 && n <= |positions| && n <= |rows| && (s != slab || l != layer)
    ensures SameLayer(WriteCells(a, [table], bs, slab, layer, positions, rows, n), a, s, l)
  {
    if n > 0 {
      WriteOther(a, table, bs, slab, layer, positions, rows, n - 1, s, l);
    }
  }

  lemma SeenSame<Row(!new)>(a: map<Cell, Row>, b: map<Cell, Row>, table: Table, bs: nat, slab: string, layer: nat,
                            positions: seq<nat>, rows: seq<Row>, isDecode: bool, zero: Row)
    requires bs > 0 && SameLayer(a, b, slab, layer)
    ensures Seen(a, table, bs, slab, layer, positions, rows, isDecode, zero)
            == Seen(b, table, bs, slab, layer, positions, rows, isDecode, zero)
  {
    if isDecode && positions != [] {
      var len := MaxPos(positions) + 1;
      forall t: nat | t < len
        ensures ReadRow(a, table, bs, slab, layer, t, zero) == ReadRow(b, table, bs, slab, layer, t, zero)
      {
      }
      assert ReadRows(a, table, bs, slab, layer, len, zero) == ReadRows(b, table, bs, slab, layer, len, zero);
    }
  }

  /** Layers not handed out yet are as they were when the pass began. */
  ghost predicate Untouched<Row(!new)>(cells: map<Cell, Row>, start: map<Cell, Row>, counters: Counters) {
    forall s: string, l: nat | s in counters && l >= counters[s] :: SameLayer(cells, start, s, l)
  }

  lemma WriteTouchesOne<Row(!new)>(cells: map<Cell, Row>, start: map<Cell, Row>, counters: Counters, table: Table,
                                   bs: nat, slab: string, positions: seq<nat>, rows: seq<Row>)
    requires bs > 0 && slab in counters && |positions| <= |rows| && Untouched(cells, start, counters)
    ensures Untouched(WriteCells(cells, [table], bs, slab, counters[slab], positions, rows, |positions|), start,
                      counters[slab := counters[slab] + 1])
  {
    var layer := counters[slab];
    var after := WriteCells(cells, [table], bs, slab, layer, positions, rows, |positions|);
    var next := counters[slab := layer + 1];
    forall s: string, l: nat | s in next && l >= next[s] ensures SameLayer(after, start, s, l) {
      WriteOther(cells, table, bs, slab, layer, positions, rows, |positions|, s, l);
      assert SameLayer(cells, start, s, l);
    }
  }

  lemma ViewIs<Row(!new)>(cells: map<Cell, Row>, start: map<Cell, Row>, table: Table, bs: nat, slab: string,
                          layer: nat, positions: seq<nat>, rows: seq<Row>, isDecode: bool, zero: Row)
    requires bs > 0 && |positions| <= |rows| && SameLayer(cells, start, slab, layer)
    ensures CacheView(start, table, bs, positions, isDecode, zero)(slab, layer, rows)
            == Some(Seen(WriteCells(cells, [table], bs, slab, layer, positions, rows, |positions|), table, bs, slab,
                         layer, positions, rows, isDecode, zero))
  {
    var a, b := WriteCells(cells, [table], bs, slab, layer, positions, rows, |positions|),
        WriteCells(start, [table], bs, slab, layer, positions, rows, |positions|);
    WriteSame(cells, start, table, bs, slab, layer, positions, rows, |positions|);
    SeenSame(a, b, table, bs, slab, layer, positions, rows, isDecode, zero);
  }

  // ── The loop ──

  ghost predicate InPass<Row(0,!new)>(m: CacheManager<Row>, table: Table, start: map<Cell, Row>)
    reads m, m.slabs.Values
  {
    m.Valid() && m.tables == [table] && m.TablesInRange() && Untouched(m.cells, start, m.counters)
  }

  ghost predicate RoomFor<Row(0,!new)>(m: CacheManager<Row>, counters: Counters)
    reads m
  {
    counters.Keys == m.slabs.Keys && forall s | s in counters :: counters[s] <= m.slabs[s].Length1
  }

  /** One intercept: rows of the operand go to the next layer of the slab and come back as the cache returns them. */
  method InterceptOne<Row(0,!new)>(m: CacheManager<Row>, table: Table, ghost start: map<Cell, Row>,
                                   ghost see: See<seq<Row>>, slab: string, rows: seq<Row>, positions: seq<nat>,
                                   isDecode: bool)
    returns (seen: Option<seq<Row>>)
    requires InPass(m, table, start) && slab in m.slabs && m.counters[slab] < m.slabs[slab].Length1
    requires see == CacheView(start, table, m.blockSize, positions, isDecode, m.zero)
    modifies m, m.slabs.Values
    ensures seen == see(slab, old(m.counters[slab]), rows)
    ensures m.Valid()
    ensures seen.Some? ==> InPass(m, table, start)
    ensures seen.Some? ==> m.counters == old(m.counters)[slab := old(m.counters[slab]) + 1]
  {
    if |rows| < |positions| {
      return None;
    }
    assert m.slabs[slab] in m.slabs.Values;
    ViewIs(m.cells, start, table, m.blockSize, slab, m.counters[slab], positions, rows, isDecode, m.zero);
    WriteTouchesOne(m.cells, start, m.counters, table, m.blockSize, slab, positions, rows);
    var got := m.Intercept(slab, rows, positions, isDecode);
    seen := Some(got);
  }

  lemma LayeredFirst(rest: Places, counters: Counters, next: Counters)
    requires (forall p | p in rest :: p.0 in counters) && rest != [] && rest[0].0 in counters
    requires next == counters[rest[0].0 := counters[rest[0].0] + 1]
    ensures (forall p | p in rest[1..] :: p in rest) && Advanced(rest, counters) == Advanced(rest[1..], next)
    ensures Layered(rest, counters) == [Hook(rest[0].0, counters[rest[0].0], rest[0].1)] + Layered(rest[1..], next)
  {
  }

  lemma OverwrittenFirst<V>(see: See<V>, names: seq<Name>, h: Hook, rest: seq<Hook>, env: Env<V>)
    requires (forall x | x in names :: x in env) && InRange(|names|, [h] + rest)
    ensures h.operand < |names| && InRange(|names|, rest)
    ensures Overwritten(see, names, [h] + rest, env)
            == match see(h.slab, h.layer, env[names[h.operand]])
               case None => None
               case Some(v) => Overwritten(see, names, rest, env[names[h.operand] := v])
  {
    var hooks := [h] + rest;
    assert hooks[0] in hooks && hooks[1..] == rest;
    assert forall k | k in rest :: k in hooks;
  }

  /** What remains to be done for the operation: all intercepts lead to `all`, and the counters to `last`. */
  ghost predicate Going<V>(see: See<V>, rest: Places, names: seq<Name>, counters: Counters, seen: Env<V>,
                           all: Option<Env<V>>, last: Counters) {
    && (forall x | x in names :: x in seen) && (forall p | p in rest :: p.0 in counters && p.1 < |names|)
    && InRange(|names|, Layered(rest, counters)) && Advanced(rest, counters) == last
    && Overwritten(see, names, Layered(rest, counters), seen) == all
  }

  /** The next layer of the slab is one that `last` counts. */
  lemma GoingFirst<V>(see: See<V>, rest: Places, names: seq<Name>, counters: Counters, seen: Env<V>,
                      all: Option<Env<V>>, last: Counters)
    requires Going(see, rest, names, counters, seen, all, last) && rest != []
    ensures rest[0].1 < |names| && names[rest[0].1] in seen
    ensures rest[0].0 in counters && last.Keys == counters.Keys && counters[rest[0].0] < last[rest[0].0]
  {
    var slab := rest[0].0;
    assert rest[0] in rest && names[rest[0].1] in names;
    AdvancedGrows(rest[1..], counters[slab := counters[slab] + 1]);
  }

  lemma GoingNext<V>(see: See<V>, rest: Places, names: seq<Name>, counters: Counters, seen: Env<V>,
                     all: Option<Env<V>>, last: Counters, slab: string, x: Name, got: Option<V>, next: Counters)
    requires Going(see, rest, names, counters, seen, all, last) && rest != []
    requires slab == rest[0].0 && rest[0].1 < |names| && x == names[rest[0].1] && x in seen && slab in counters
    requires next == counters[slab := counters[slab] + 1] && got == see(slab, counters[slab], seen[x])
    ensures got.None? ==> all.None?
    ensures got.Some? ==> Going(see, rest[1..], names, next, seen[x := got.value], all, last)
  {
    LayeredFirst(rest, counters, next);
    OverwrittenFirst(see, names, Hook(slab, counters[slab], rest[0].1), Layered(rest[1..], next), seen);
  }

  /** The first of the remaining intercepts. */
  method InterceptFirst<Row(0,!new)>(m: CacheManager<Row>, table: Table, ghost start: map<Cell, Row>,
                                     ghost see: See<seq<Row>>, rest: Places, names: seq<Name>, seen: Env<seq<Row>>,
                                     positions: seq<nat>, isDecode: bool, ghost all: Option<Env<seq<Row>>>,
                                     ghost last: Counters)
    returns (r: Option<Env<seq<Row>>>)
    requires InPass(m, table, start) && rest != [] && RoomFor(m, last)
    requires see == CacheView(start, table, m.blockSize, positions, isDecode, m.zero)
    requires Going(see, rest, names, m.counters, seen, all, last)
    modifies m, m.slabs.Values
    ensures m.Valid() && (r.None? ==> all.None?)
    ensures r.Some? ==> InPass(m, table, start) && Going(see, rest[1..], names, m.counters, r.value, all, last)
  {
    GoingFirst(see, rest, names, m.counters, seen, all, last);
    var slab, x := rest[0].0, names[rest[0].1];
    ghost var counters := m.counters;
    var got := InterceptOne(m, table, start, see, slab, seen[x], positions, isDecode);
    if got.None? {
      GoingNext(see, rest, names, counters, seen, all, last, slab, x, got, counters[slab := counters[slab] + 1]);
      return None;
    }
    GoingNext(see, rest, names, counters, seen, all, last, slab, x, got, m.counters);
    return Some(seen[x := got.value]);
  }

  /** All intercepts of one operation. */
  method InterceptAll<Row(0,!new)>(m: CacheManager<Row>, table: Table, ghost start: map<Cell, Row>, places: Places,
                                   op: Op, env: Env<seq<Row>>, positions: seq<nat>, isDecode: bool)
    returns (r: Option<Env<seq<Row>>>)
    requires InPass(m, table, start) && PlacesFit(op, places, m.counters.Keys) && Ready(op, env.Keys)
    requires RoomFor(m, Advanced(places, m.counters))
    modifies m, m.slabs.Values
    ensures m.Valid() && InRange(|Uses(op)|, Layered(places, old(m.counters)))
    ensures r == Overwritten(CacheView(start, table, m.blockSize, positions, isDecode, m.zero), Uses(op),
                             Layered(places, old(m.counters)), env)
    ensures r.Some? ==> InPass(m, table, start) && m.counters == Advanced(places, old(m.counters))
  {
    ghost var see := CacheView(start, table, m.blockSize, positions, isDecode, m.zero);
    LayeredFit(op, places, m.counters);
    ghost var all := Overwritten(see, Uses(op), Layered(places, m.counters), env);
    ghost var last := Advanced(places, m.counters);
    var rest, seen := places, env;
    while rest != []
      invariant InPass(m, table, start) && RoomFor(m, last)
      invariant Going(see, rest, Uses(op), m.counters, seen, all, last)
      decreases |rest|
    {
      var next := InterceptFirst(m, table, start, see, rest, Uses(op), seen, positions, isDecode, all, last);
      if next.None? {
        return None;
      }
      rest, seen := rest[1..], next.value;
    }
    return Some(seen);
  }

  // ── A whole pass ──

  function Prepended<V>(vs: seq<V>, r: Option<(Env<V>, seq<V>)>): Option<(Env<V>, seq<V>)> {
    match r case None => None case Some((env, more)) => Some((env, vs + more))
  }

  lemma PrependNothing<V>(r: Option<(Env<V>, seq<V>)>)
    ensures Prepended([], r) == r
  {
    if r.Some? {
      assert [] + r.value.1 == r.value.1;
    }
  }

  /** What remains of the pass leads to `all`, and the counters to `last`. */
  ghost predicate Running<V>(sem: Sem<V>, see: See<V>, todo: seq<Op>, place: Op -> Places, counters: Counters,
                             env: Env<V>, values: seq<V>, all: Option<(Env<V>, seq<V>)>, last: Counters) {
    && AllFit(todo, place, counters.Keys) && AdvancedAll(todo, place, counters) == last
    && Prepended(values, RunCached(sem, see, todo, LayeredAll(todo, place, counters), env)) == all
  }

  lemma {:induction false} AdvancedAllGrows(ops: seq<Op>, place: Op -> Places, counters: Counters)
    requires AllFit(ops, place, counters.Keys)
    ensures forall s | s in counters :: counters[s] <= AdvancedAll(ops, place, counters)[s]
    decreases ops
  {
    if ops != [] {
      assert PlacesFit(ops[0], place(ops[0]), counters.Keys);
      AdvancedGrows(place(ops[0]), counters);
      AdvancedAllGrows(ops[1..], place, Advanced(place(ops[0]), counters));
    }
  }

  lemma RunningFirst<V>(sem: Sem<V>, see: See<V>, todo: seq<Op>, place: Op -> Places, counters: Counters, env: Env<V>,
                        values: seq<V>, all: Option<(Env<V>, seq<V>)>, last: Counters)
    requires Running(sem, see, todo, place, counters, env, values, all, last) && todo != []
    ensures PlacesFit(todo[0], place(todo[0]), counters.Keys) && last.Keys == counters.Keys
    ensures forall s | s in counters :: Advanced(place(todo[0]), counters)[s] <= last[s]
    ensures !Ready(todo[0], env.Keys) ==> all.None?
  {
    assert PlacesFit(todo[0], place(todo[0]), counters.Keys);
    AdvancedAllGrows(todo[1..], place, Advanced(place(todo[0]), counters));
  }

  lemma RunningNext<V>(sem: Sem<V>, see: See<V>, todo: seq<Op>, place: Op -> Places, counters: Counters, env: Env<V>,
                       values: seq<V>, all: Option<(Env<V>, seq<V>)>, last: Counters, op: Op, seen: Option<Env<V>>)
    requires Running(sem, see, todo, place, counters, env, values, all, last) && todo != [] && op == todo[0]
    requires PlacesFit(op, place(op), counters.Keys) && Ready(op, env.Keys)
    requires InRange(|Uses(op)|, Layered(place(op), counters))
    requires seen == Overwritten(see, Uses(op), Layered(place(op), counters), env)
    ensures seen.None? ==> all.None?
    ensures seen.Some? ==> Ready(op, seen.value.Keys)
                           && Running(sem, see, todo[1..], place, Advanced(place(op), counters),
                                      seen.value[op.result := Value(sem, op, seen.value)],
                                      values + [Value(sem, op, seen.value)], all, last)
  {
    var hooks := LayeredAll(todo, place, counters);
    assert hooks[0] == Layered(place(op), counters);
    assert hooks[1..] == LayeredAll(todo[1..], place, Advanced(place(op), counters));
    if seen.Some? {
      var v := Value(sem, op, seen.value);
      Regrouped(values, v, RunCached(sem, see, todo[1..], hooks[1..], seen.value[op.result := v]));
    }
  }

  lemma Regrouped<V>(values: seq<V>, v: V, r: Option<(Env<V>, seq<V>)>)
    ensures Prepended(values + [v], r)
            == Prepended(values, match r case None => None case Some((env, vs)) => Some((env, [v] + vs)))
  {
    if r.Some? {
      assert values + [v] + r.value.1 == values + ([v] + r.value.1);
    }
  }

  function Zeros(slabs: set<string>): Counters { map s | s in slabs :: 0 }

  /** The executor's loop over the operations of one pass. */
  method RunOps<Row(0,!new)>(m: CacheManager<Row>, table: Table, ghost start: map<Cell, Row>, sem: Sem<seq<Row>>,
                             place: Op -> Places, ops: seq<Op>, inputs: Env<seq<Row>>, positions: seq<nat>,
                             isDecode: bool)
    returns (r: Option<(Env<seq<Row>>, seq<seq<Row>>)>)
    requires InPass(m, table, start) && AllFit(ops, place, m.counters.Keys)
    requires RoomFor(m, AdvancedAll(ops, place, m.counters))
    modifies m, m.slabs.Values
    ensures m.Valid() && AllFit(ops, place, old(m.counters).Keys)
    ensures r == RunCached(sem, CacheView(start, table, m.blockSize, positions, isDecode, m.zero), ops,
                           LayeredAll(ops, place, old(m.counters)), inputs)
  {
    ghost var see := CacheView(start, table, m.blockSize, positions, isDecode, m.zero);
    ghost var all := RunCached(sem, see, ops, LayeredAll(ops, place, m.counters), inputs);
    ghost var last := AdvancedAll(ops, place, m.counters);
    var todo, env, values := ops, inputs, [];
    PrependNothing(all);
    while todo != []
      invariant InPass(m, table, start) && RoomFor(m, last)
      invariant Running(sem, see, todo, place, m.counters, env, values, all, last)
      decreases |todo|
    {
      RunningFirst(sem, see, todo, place, m.counters, env, values, all, last);
      var op := todo[0];
      if !Ready(op, env.Keys) {
        return None;
      }
      ghost var counters := m.counters;
      var seen := InterceptAll(m, table, start, place(op), op, env, positions, isDecode);
      RunningNext(sem, see, todo, place, counters, env, values, all, last, op, seen);
      if seen.None? {
        return None;
      }
      var v := Value(sem, op, seen.value);
      env, values, todo := seen.value[op.result := v], values + [v], todo[1..];
    }
    assert values + [] == values;
    return Some((env, values));
  }

  lemma NotDecodingIsTransparent<Row(!new)>(start: map<Cell, Row>, table: Table, bs: nat, positions: seq<nat>,
                                            zero: Row)
    requires bs > 0
    ensures Transparent(CacheView(start, table, bs, positions, false, zero))
  {
  }

  /** A whole pass from a manager in any state.  It computes the cached run; a prefill pass computes the plain run;
      and where no intercepted name is read again, a decode step differs only in the operands it replaces. */
  method RunPass<Row(0,!new)>(m: CacheManager<Row>, table: Table, sem: Sem<seq<Row>>, place: Op -> Places, ops: seq<Op>,
                              inputs: Env<seq<Row>>, positions: seq<nat>, isDecode: bool)
    returns (r: Option<(Env<seq<Row>>, seq<seq<Row>>)>)
    requires m.Valid() && (forall x | x in table :: x < m.numBlocks) && AllFit(ops, place, m.slabs.Keys)
    requires RoomFor(m, AdvancedAll(ops, place, Zeros(m.slabs.Keys)))
    modifies m, m.slabs.Values
    ensures m.Valid()
    ensures r == RunCached(sem, CacheView(old(m.cells), table, m.blockSize, positions, isDecode, m.zero), ops,
                           LayeredAll(ops, place, Zeros(m.slabs.Keys)), inputs)
    ensures !isDecode && r.Some? ==> Run(sem, ops, inputs) == Some(r.value.0)
    ensures ReadOnce(ops, LayeredAll(ops, place, Zeros(m.slabs.Keys))) ==>
              SameValues(r, RunDirect(sem, CacheView(old(m.cells), table, m.blockSize, positions, isDecode, m.zero),
                  ops,
                                      LayeredAll(ops, place, Zeros(m.slabs.Keys)), inputs))
  {
    ghost var start := m.cells;
    m.BeginStep([table]);
    assert m.counters == Zeros(m.slabs.Keys);
    r := RunOps(m, table, start, sem, place, ops, inputs, positions, isDecode);
    ghost var see, hooks := CacheView(start, table, m.blockSize, positions, isDecode, m.zero),
        LayeredAll(ops, place, Zeros(m.slabs.Keys));
    if !isDecode {
      NotDecodingIsTransparent(start, table, m.blockSize, positions, m.zero);
      PrefillIsPlain(sem, see, ops, hooks, inputs);
    }
    if ReadOnce(ops, hooks) {
      CachedIsDirect(sem, see, ops, hooks, inputs);
    }
  }
}
