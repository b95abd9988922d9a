/** Paged storage of cache rows: where a position lives, what a write leaves, what a read returns. */
module PagedStore {
  import opened Options
  import opened Arith

  /** One row of one slab: physical block, layer, offset in the block. */
  datatype Cell = Cell(slab: string, phys: nat, layer: nat, offset: nat)

  /** The block table of one request: physical block ids in position order. */
  type Table = seq<nat>

  /** The physical place of a position: the first table long enough to cover it. */
  function Target(tables: seq<Table>, bs: nat, pos: nat): (r: Option<(nat, nat)>)
    requires bs > 0
    ensures r.Some? ==> r.value.1 < bs
  {
    if tables == [] then None
    else if pos / bs < |tables[0]| then Some((tables[0][pos / bs], pos % bs))
    else Target(tables[1..], bs, pos)
  }

  /** The cells after rows have been written at the first `n` positions; uncovered positions are skipped. */
  function WriteCells<Row>(cells: map<Cell, Row>, tables: seq<Table>, bs: nat, slab: string, layer: nat,
                           positions: seq<nat>, rows: seq<Row>, n: nat): map<Cell, Row>
    requires bs > 0 && n <= |positions| && n <= |rows|
  {
    if n == 0 then cells
    else
      var before := WriteCells(cells, tables, bs, slab, layer, positions, rows, n - 1);
      match Target(tables, bs, positions[n - 1])
      case None => before
      case Some(t) => before[Cell(slab, t.0, layer, t.1) := rows[n - 1]]
  }

  /** The row read for position `t` of a request: zero beyond the table. */
  function ReadRow<Row>(cells: map<Cell, Row>, table: Table, bs: nat, slab: string, layer: nat, t: nat, zero: Row): Row
    requires bs > 0
  {
    if t / bs < |table| && Cell(slab, table[t / bs], layer, t % bs) in cells
    then cells[Cell(slab, table[t / bs], layer, t % bs)] else zero
  }

  function ReadRows<Row>(cells: map<Cell, Row>, table: Table, bs: nat, slab: string, layer: nat, len: nat,
                         zero: Row): seq<Row>
    requires bs > 0
  {
    seq(len, t requires 0 <= t < len => ReadRow(cells, table, bs, slab, layer, t, zero))
  }

  function MaxPos(positions: seq<nat>): (m: nat)
    requires positions != []
    ensures m in positions && forall p | p in positions :: p <= m
  {
    if |positions| == 1 then positions[0]
    else
      assert positions == [positions[0]] + positions[1..];
      var m := MaxPos(positions[1..]);
      if positions[0] > m then positions[0] else m
  }

  /** What the attention sees of one operand: the gathered prefix on a decode step, else its own rows. */
  function Seen<Row>(cells: map<Cell, Row>, table: Table, bs: nat, slab: string, layer: nat,
                     positions: seq<nat>, rows: seq<Row>, isDecode: bool, zero: Row): seq<Row>
    requires bs > 0
  {
    if isDecode && positions != [] then ReadRows(cells, table, bs, slab, layer, MaxPos(positions) + 1, zero) else rows
  }

  /** The cells after `n` layers of one forward pass have written their key and value rows. */
  function ForwardCells<Row>(cells: map<Cell, Row>, table: Table, bs: nat, positions: seq<nat>,
                             keys: seq<seq<Row>>, values: seq<seq<Row>>, n: nat): map<Cell, Row>
    requires bs > 0 && n <= |keys| && n <= |values|
    requires forall i | 0 <= i < n :: |keys[i]| == |positions| && |values[i]| == |positions|
    decreases n, 0
  {
    if n == 0 then cells
    else
      WriteCells(KeyCells(cells, table, bs, positions, keys, values, n - 1), [table], bs, "v", n - 1, positions,
                 values[n - 1], |positions|)
  }

  /** The cells when layer `i` has written its keys but not yet its values. */
  function KeyCells<Row>(cells: map<Cell, Row>, table: Table, bs: nat, positions: seq<nat>,
                         keys: seq<seq<Row>>, values: seq<seq<Row>>, i: nat): map<Cell, Row>
    requires bs > 0 && i < |keys| && i < |values|
    requires forall k | 0 <= k <= i :: |keys[k]| == |positions| && |values[k]| == |positions|
    decreases i, 1
  {
    WriteCells(ForwardCells(cells, table, bs, positions, keys, values, i), [table], bs, "k", i, positions,
               keys[i], |positions|)
  }

  /** The number of layers of a slab: its last specification counts. */
  function LayersOf(specs: seq<(string, nat)>, name: string): Option<nat> {
    if specs == [] then None
    else if specs[|specs| - 1].0 == name then Some(specs[|specs| - 1].1)
    else LayersOf(specs[..|specs| - 1], name)
  }

  class CacheManager<Row(0)> {
    const blockSize: nat
    const numBlocks: nat
    const zero: Row
    const slabs: map<string, array3<Row>>
    var counters: map<string, nat>
    var tables: seq<Table>
    ghost var cells: map<Cell, Row>

    /** The slab tensors have the declared shape, do not alias, and hold exactly `cells`. */
    ghost predicate Valid()
      reads this, slabs.Values
    {
      && blockSize > 0
      && counters.Keys == slabs.Keys
      && (forall s | s in slabs :: slabs[s].Length0 == numBlocks && slabs[s].Length2 == blockSize)
      && Apart(slabs)
      && (forall s | s in slabs :: Holds(s))
    }

    ghost predicate Holds(s: string)
      requires s in slabs
      reads this, slabs.Values
    {
      assert slabs[s] in slabs.Values;
      forall p: nat, l: nat, o: nat | p < slabs[s].Length0 && l < slabs[s].Length1 && o < slabs[s].Length2 ::
        Cell(s, p, l, o) in cells && slabs[s][p, l, o] == cells[Cell(s, p, l, o)]
    }

    /** Physical block ids are in range for the slabs. */
    predicate TablesInRange()
      reads this
    {
      forall t | t in tables :: forall b | b in t :: b < numBlocks
    }

    /** Allocates one zero-filled tensor per paged slab, given as name and number of layers. */
    constructor (specs: seq<(string, nat)>, blocks: nat, bs: nat, fill: Row)
      requires bs > 0
      ensures Valid() && blockSize == bs && numBlocks == blocks && zero == fill && tables == []
      ensures slabs.Keys == set spec | spec in specs :: spec.0
      ensures forall s | s in slabs :: fresh(slabs[s]) && LayersOf(specs, s) == Some(slabs[s].Length1)
      ensures forall c | c in cells :: cells[c] == fill
      ensures forall s | s in counters :: counters[s] == 0
    {
      blockSize, numBlocks, zero, tables := bs, blocks, fill, [];
      var made, filled := Allocate(specs, blocks, bs, fill);
      slabs := made;
      cells := filled;
      counters := map s | s in made :: 0;
    }

    static method AllocateOne(name: string, blocks: nat, layers: nat, bs: nat, fill: Row)
      returns (tensor: array3<Row>, ghost filled: map<Cell, Row>)
      ensures fresh(tensor) && tensor.Length0 == blocks && tensor.Length1 == layers && tensor.Length2 == bs
      ensures (forall c | c in filled :: filled[c] == fill) && Filled(tensor, name, filled, fill)
    {
      tensor := new Row[blocks, layers, bs]((p, l, o) => fill);
      ghost var all := set p: nat, l: nat, o: nat | p < blocks && l < layers && o < bs :: Cell(name, p, l, o);
      filled := map c | c in all :: fill;
    }

    /** Zero-filled tensors that do not alias, and the cells they hold. */
    static method Allocate(specs: seq<(string, nat)>, blocks: nat, bs: nat, fill: Row)
      returns (made: map<string, array3<Row>>, ghost filled: map<Cell, Row>)
      ensures Shaped(specs, made, blocks, bs)
      ensures forall s | s in made :: fresh(made[s])
      ensures Apart(made)
      ensures forall c | c in filled :: filled[c] == fill
      ensures forall s | s in made :: Filled(made[s], s, filled, fill)
    {
      made, filled := map[], map[];
      for i := 0 to |specs|
        invariant Shaped(specs[..i], made, blocks, bs)
        invariant forall s | s in made :: fresh(made[s])
        invariant Apart(made)
        invariant forall c | c in filled :: filled[c] == fill
        invariant forall s | s in made :: Filled(made[s], s, filled, fill)
      {
        var (name, layers) := specs[i];
        var tensor, more := AllocateOne(name, blocks, layers, bs, fill);
        FilledNext(made, name, tensor, filled, more, fill);
        filled := filled + more;
        ShapedNext(specs, i, made, blocks, bs, tensor);
        made := made[name := tensor];
      }
      assert specs[..|specs|] == specs;
    }

    static ghost predicate Apart(made: map<string, array3<Row>>) {
      forall s, s' | s in made && s' in made && s != s' :: made[s] != made[s']
    }

    /** One tensor per name, with the layers of its last specification. */
    static ghost predicate Shaped(specs: seq<(string, nat)>, made: map<string, array3<Row>>, blocks: nat, bs: nat) {
      && made.Keys == (set spec | spec in specs :: spec.0)
      && forall s | s in made ::
           made[s].Length0 == blocks && made[s].Length2 == bs && LayersOf(specs, s) == Some(made[s].Length1)
    }

    static lemma ShapedNext(specs: seq<(string, nat)>, i: nat, made: map<string, array3<Row>>, blocks: nat, bs: nat,
                            tensor: array3<Row>)
      requires i < |specs| && Shaped(specs[..i], made, blocks, bs)
      requires tensor.Length0 == blocks && tensor.Length1 == specs[i].1 && tensor.Length2 == bs
      ensures Shaped(specs[..i + 1], made[specs[i].0 := tensor], blocks, bs)
    {
      assert specs[..i + 1] == specs[..i] + [specs[i]] && specs[..i + 1][..i] == specs[..i];
    }

    /** Another filled tensor leaves the others filled. */
    static lemma FilledNext(made: map<string, array3<Row>>, name: string, tensor: array3<Row>,
                            filled: map<Cell, Row>, more: map<Cell, Row>, fill: Row)
      requires forall s | s in made :: Filled(made[s], s, filled, fill)
      requires Filled(tensor, name, more, fill)
      requires (forall c | c in filled :: filled[c] == fill) && forall c | c in more :: more[c] == fill
      ensures forall c | c in filled + more :: (filled + more)[c] == fill
      ensures forall s | s in made :: Filled(made[s], s, filled + more, fill)
      ensures Filled(tensor, name, filled + more, fill)
    {
    }

    static ghost predicate Filled(tensor: array3<Row>, s: string, filled: map<Cell, Row>, fill: Row)
      reads tensor
    {
      forall p: nat, l: nat, o: nat | p < tensor.Length0 && l < tensor.Length1 && o < tensor.Length2 ::
        Cell(s, p, l, o) in filled && tensor[p, l, o] == fill
    }

    method BeginStep(newTables: seq<Table>)
      requires Valid()
      modifies this
      ensures Valid() && tables == newTables && cells == old(cells)
      ensures counters.Keys == old(counters.Keys) && forall s | s in counters :: counters[s] == 0
    {
      tables := newTables;
      counters := map s | s in counters :: 0;
    }

    method ResolveLayer(slab: string) returns (layer: nat)
      requires Valid() && slab in counters
      modifies this
      ensures Valid() && tables == old(tables) && cells == old(cells)
      ensures layer == old(counters[slab]) && counters == old(counters)[slab := layer + 1]
    {
      layer := counters[slab];
      counters := counters[slab := layer + 1];
    }

    method WritePaged(slab: string, layer: nat, rows: seq<Row>, positions: seq<nat>)
      requires Valid() && slab in slabs && layer < slabs[slab].Length1 && |positions| <= |rows|
      requires TablesInRange()
      modifies this, slabs[slab]
      ensures Valid() && tables == old(tables) && counters == old(counters)
      ensures cells == WriteCells(old(cells), tables, blockSize, slab, layer, positions, rows, |positions|)
    {
      var tensor := slabs[slab];
      if tables == [] {
        NoTables(cells, blockSize, slab, layer, positions, rows, |positions|);
        return;
      }
      for i := 0 to |positions|
        invariant tables == old(tables) && counters == old(counters)
        invariant Valid()
        invariant cells == WriteCells(old(cells), tables, blockSize, slab, layer, positions, rows, i)
      {
        var place := Locate(positions[i]);
        if place.Some? {
          StoreRow(tensor, slab, place.value.0, layer, place.value.1, rows[i]);
        }
      }
    }

    /** Searches the tables in order for one that covers the position. */
    method Locate(pos: nat) returns (place: Option<(nat, nat)>)
      requires Valid() && TablesInRange()
      ensures place == Target(tables, blockSize, pos)
      ensures place.Some? ==> place.value.0 < numBlocks && place.value.1 < blockSize
    {
      var block, offset := pos / blockSize, pos % blockSize;
      for r := 0 to |tables|
        invariant Target(tables, blockSize, pos) == Target(tables[r..], blockSize, pos)
      {
        if block < |tables[r]| {
          assert tables[r] in tables && tables[r][block] in tables[r];
          return Some((tables[r][block], offset));
        }
        assert tables[r..][1..] == tables[r + 1..];
      }
      return None;
    }

    /** One row stored in place. */
    method StoreRow(tensor: array3<Row>, slab: string, phys: nat, layer: nat, offset: nat, row: Row)
      requires Valid() && slab in slabs && tensor == slabs[slab]
      requires phys < numBlocks && layer < tensor.Length1 && offset < blockSize
      modifies this`cells, tensor
      ensures Valid() && cells == old(cells)[Cell(slab, phys, layer, offset) := row]
    {
      tensor[phys, layer, offset] := row;
      cells := cells[Cell(slab, phys, layer, offset) := row];
      assert Holds(slab);
      assert forall s | s in slabs && s != slab :: old(Holds(s)) && slabs[s] != tensor;
      assert forall s | s in slabs && s != slab :: Holds(s);
    }

    lemma RowInBlock(slab: string, layer: nat, table: Table, blk: nat, k: nat)
      requires Valid() && slab in slabs && layer < slabs[slab].Length1 && blk < |table| && k < blockSize
      requires table[blk] < numBlocks
      ensures ReadRow(cells, table, blockSize, slab, layer, blk * blockSize + k, zero)
              == slabs[slab][table[blk], layer, k]
    {
      BlockOf(blk, k, blockSize);
      assert Holds(slab);
      assert Cell(slab, table[blk], layer, k) in cells;
    }

    /** The first rows of one block, copied to their positions. */
    method CopyBlock(slab: string, layer: nat, table: Table, blk: nat, out: array<Row>, count: nat)
      requires Valid() && slab in slabs && layer < slabs[slab].Length1 && blk < |table| && table[blk] < numBlocks
      requires count <= blockSize && blk * blockSize + count <= out.Length
      modifies out
      ensures forall t: nat | t < out.Length ::
                out[t] == if blk * blockSize <= t < blk * blockSize + count
                          then ReadRow(cells, table, blockSize, slab, layer, t, zero) else old(out[t])
    {
      var start := blk * blockSize;
      for k := 0 to count
        invariant forall t: nat | t < out.Length ::
            out[t] == if start <= t < start + k then ReadRow(cells, table, blockSize, slab, layer, t, zero)
                      else old(out[t])
      {
        RowInBlock(slab, layer, table, blk, k);
        out[start + k] := slabs[slab][table[blk], layer, k];
      }
    }

    /** The rows of one request, block by block, zero beyond its table. */
    method GatherTable(slab: string, layer: nat, table: Table, len: nat) returns (rows: seq<Row>)
      requires Valid() && slab in slabs && layer < slabs[slab].Length1
      requires forall b | b in table :: b < numBlocks
      ensures rows == ReadRows(cells, table, blockSize, slab, layer, len, zero)
    {
      var out := new Row[len](i => zero);
      ghost var want := ReadRows(cells, table, blockSize, slab, layer, len, zero);
      var blk := 0;
      while blk < |table| && blk * blockSize < len
        invariant 0 <= blk <= |table|
        invariant Valid()
        invariant forall t: nat | t < len ::
            out[t] == if t < blk * blockSize then want[t] else zero
      {
        var start := blk * blockSize;
        var end := if start + blockSize < len then start + blockSize else len;
        assert table[blk] in table;
        CopyBlock(slab, layer, table, blk, out, end - start);
        assert (blk + 1) * blockSize == start + blockSize;
        blk := blk + 1;
      }
      forall t: nat | t < len && t >= blk * blockSize
        ensures want[t] == zero
      {
        assert blk == |table|;
        BeyondTable(t, blk, blockSize);
      }
      rows := out[..];
    }

    method ReadPaged(slab: string, layer: nat, len: nat) returns (r: Option<seq<seq<Row>>>)
      requires Valid() && slab in slabs && layer < slabs[slab].Length1 && TablesInRange()
      ensures r.None? <==> tables == []
      ensures r.Some? ==> |r.value| == |tables|
      ensures r.Some? ==> forall i | 0 <= i < |tables| ::
                r.value[i] == ReadRows(cells, tables[i], blockSize, slab, layer, len, zero)
    {
      if tables == [] { return None; }
      var result := [];
      for i := 0 to |tables|
        invariant |result| == i
        invariant forall k | 0 <= k < i :: result[k] == ReadRows(cells, tables[k], blockSize, slab, layer, len, zero)
      {
        assert tables[i] in tables;
        var rows := GatherTable(slab, layer, tables[i], len);
        result := result + [rows];
      }
      return Some(result);
    }

    /** The executor's cache intercept on one operand: take the next layer, write the rows, and on a decode
        step replace them by the gathered prefix of the one active request.  Without tables nothing is written
        and the rows stay. */
    method Intercept(slab: string, rows: seq<Row>, positions: seq<nat>, isDecode: bool) returns (seen: seq<Row>)
      requires Valid() && slab in slabs && |tables| <= 1 && TablesInRange() && |positions| <= |rows|
      requires counters[slab] < slabs[slab].Length1
      modifies this, slabs[slab]
      ensures Valid() && tables == old(tables)
      ensures counters == old(counters)[slab := old(counters[slab]) + 1]
      ensures cells == WriteCells(old(cells), tables, blockSize, slab, old(counters[slab]), positions, rows,
              |positions|)
      ensures seen == if tables == [] then rows
                      else Seen(cells, tables[0], blockSize, slab, old(counters[slab]), positions, rows, isDecode, zero)
    {
      var layer := ResolveLayer(slab);
      WritePaged(slab, layer, rows, positions);
      seen := rows;
      if tables != [] && isDecode && positions != [] {
        var gathered := ReadPaged(slab, layer, MaxPos(positions) + 1);
        seen := gathered.value[0];
      }
    }
  }

  /** The rows of one forward pass: per attention, key and value rows for the same positions. */
  datatype Batch<Row> = Batch(table: Table, positions: seq<nat>, keys: seq<seq<Row>>, values: seq<seq<Row>>,
      isDecode: bool)
  {
    ghost predicate Fits() {
      |keys| == |values| && forall i | 0 <= i < |keys| :: |keys[i]| == |positions| && |values[i]| == |positions|
    }
  }

  /** What attention `i` of the pass sees of its keys and values, starting from `cells`. */
  ghost predicate SeenAt<Row(!new)>(b: Batch<Row>, cells: map<Cell, Row>, bs: nat, zero: Row, i: nat, seenK: seq<Row>,
                                    seenV: seq<Row>)
    requires bs > 0 && b.Fits() && i < |b.keys|
  {
    && seenK == Seen(KeyCells(cells, b.table, bs, b.positions, b.keys, b.values, i), b.table, bs, "k", i, b.positions,
                     b.keys[i], b.isDecode, zero)
    && seenV == Seen(ForwardCells(cells, b.table, bs, b.positions, b.keys, b.values, i + 1), b.table, bs, "v", i,
                     b.positions, b.values[i], b.isDecode, zero)
  }

  /** Where the pass stands before attention `i`. */
  ghost predicate PassAt<Row(0,!new)>(m: CacheManager<Row>, b: Batch<Row>, start: map<Cell, Row>, i: nat)
    requires b.Fits() && i <= |b.keys|
    reads m, m.slabs.Values
  {
    && m.Valid() && m.tables == [b.table] && m.TablesInRange() && {"k", "v"} <= m.slabs.Keys
    && m.counters["k"] == i && m.counters["v"] == i
    && m.cells == ForwardCells(start, b.table, m.blockSize, b.positions, b.keys, b.values, i)
  }

  /** Attention `i` of a forward pass: keys first, then values, both in layer `i`. */
  method ServeAttention<Row(0,!new)>(m: CacheManager<Row>, b: Batch<Row>, ghost start: map<Cell, Row>, i: nat)
    returns (seenK: seq<Row>, seenV: seq<Row>)
    requires b.Fits() && i < |b.keys| && PassAt(m, b, start, i)
    requires i < m.slabs["k"].Length1 && i < m.slabs["v"].Length1
    modifies m, m.slabs["k"], m.slabs["v"]
    ensures PassAt(m, b, start, i + 1)
    ensures SeenAt(b, start, m.blockSize, m.zero, i, seenK, seenV)
  {
    seenK := m.Intercept("k", b.keys[i], b.positions, b.isDecode);
    assert m.cells == KeyCells(start, b.table, m.blockSize, b.positions, b.keys, b.values, i);
    seenV := m.Intercept("v", b.values[i], b.positions, b.isDecode);
  }

  /** One forward pass for one request: counters are reset once, and attention `i` uses layer `i`. */
  method Forward<Row(0,!new)>(m: CacheManager<Row>, b: Batch<Row>)
    returns (seenKeys: seq<seq<Row>>, seenValues: seq<seq<Row>>)
    requires m.Valid() && {"k", "v"} <= m.slabs.Keys && (forall x | x in b.table :: x < m.numBlocks) && b.Fits()
    requires |b.keys| <= m.slabs["k"].Length1 && |b.keys| <= m.slabs["v"].Length1
    modifies m, m.slabs["k"], m.slabs["v"]
    ensures m.Valid() && m.tables == [b.table]
    ensures m.cells == ForwardCells(old(m.cells), b.table, m.blockSize, b.positions, b.keys, b.values, |b.keys|)
    ensures |seenKeys| == |seenValues| == |b.keys|
    ensures forall i | 0 <= i < |b.keys| :: SeenAt(b, old(m.cells), m.blockSize, m.zero, i, seenKeys[i], seenValues[i])
  {
    ghost var start := m.cells;
    m.BeginStep([b.table]);
    seenKeys, seenValues := [], [];
    for i := 0 to |b.keys|
      invariant PassAt(m, b, start, i) && SeenUpTo(b, start, m.blockSize, m.zero, i, seenKeys, seenValues)
    {
      var seenK, seenV := ServeAttention(m, b, start, i);
      SeenNext(b, start, m.blockSize, m.zero, i, seenKeys, seenValues, seenK, seenV);
      seenKeys, seenValues := seenKeys + [seenK], seenValues + [seenV];
    }
  }

  ghost predicate SeenUpTo<Row(!new)>(b: Batch<Row>, cells: map<Cell, Row>, bs: nat, zero: Row, n: nat,
                                      seenKeys: seq<seq<Row>>, seenValues: seq<seq<Row>>)
    requires bs > 0 && b.Fits() && n <= |b.keys|
  {
    && |seenKeys| == |seenValues| == n
    && forall i | 0 <= i < n :: SeenAt(b, cells, bs, zero, i, seenKeys[i], seenValues[i])
  }

  lemma SeenNext<Row(!new)>(b: Batch<Row>, cells: map<Cell, Row>, bs: nat, zero: Row, n: nat,
                            seenKeys: seq<seq<Row>>, seenValues: seq<seq<Row>>, seenK: seq<Row>, seenV: seq<Row>)
    requires bs > 0 && b.Fits() && n < |b.keys| && SeenUpTo(b, cells, bs, zero, n, seenKeys, seenValues)
    requires SeenAt(b, cells, bs, zero, n, seenK, seenV)
    ensures SeenUpTo(b, cells, bs, zero, n + 1, seenKeys + [seenK], seenValues + [seenV])
  {
  }

  lemma BeyondTable(t: nat, blocks: nat, bs: nat)
    requires bs > 0 && t >= blocks * bs
    ensures t / bs >= blocks
  {
    assert t == bs * (t / bs) + t % bs && bs * blocks == blocks * bs;
    if t / bs < blocks {
      ScaleUp(bs, blocks, t / bs);
    }
  }

  lemma {:induction false} NoTables<Row>(cells: map<Cell, Row>, bs: nat, slab: string, layer: nat,
                                         positions: seq<nat>, rows: seq<Row>, n: nat)
    requires bs > 0 && n <= |positions| && n <= |rows|
    ensures WriteCells(cells, [], bs, slab, layer, positions, rows, n) == cells
  {
    if n > 0 {
      NoTables(cells, bs, slab, layer, positions, rows, n - 1);
    }
  }
}
