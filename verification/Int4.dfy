/** Packed INT4 weights: nibble packing and group-wise quantisation of a weight row. */
module Int4 {
  import opened Options
  import opened Arith
  import opened Rounding

  // ── Nibbles ──

  ghost predicate Nibbles(s: seq<int>) { forall i | 0 <= i < |s| :: 0 <= s[i] < 16 }

  ghost predicate Bytes(s: seq<int>) { forall i | 0 <= i < |s| :: 0 <= s[i] < 256 }

  /** (low & 15) | ((high & 15) << 4). */
  function PackByte(low: int, high: int): int { low % 16 + high % 16 * 16 }

  lemma LowBits(x: bv8)
    ensures (x & 15) as int == x as int % 16
  {
  }

  lemma JoinedBits(a: bv8, b: bv8)
    requires a < 16 && b < 16
    ensures (a | (b << 4)) as int == a as int + b as int * 16
  {
  }

  /** The arithmetic form of packing and unpacking is the bitwise one. */
  lemma BitsAreArithmetic(x: bv8, y: bv8)
    ensures ((x & 15) | ((y & 15) << 4)) as int == PackByte(x as int, y as int)
    ensures ((x >> 4) & 15) as int == x as int / 16 % 16
  {
    LowBits(x);
    LowBits(y);
    JoinedBits(x & 15, y & 15);
  }

  function Pack(w: seq<int>): Option<seq<int>> {
    if |w| % 2 != 0 then None
    else Some(seq(|w| / 2, i requires 0 <= i < |w| / 2 => PackByte(w[2 * i], w[2 * i + 1])))
  }

  function NibbleAt(packed: seq<int>, j: nat): int
    requires j < 2 * |packed|
  {
    if j % 2 == 0 then packed[j / 2] % 16 else packed[j / 2] / 16 % 16
  }

  function Unpack(packed: seq<int>): seq<int> {
    seq(2 * |packed|, j requires 0 <= j < 2 * |packed| => NibbleAt(packed, j))
  }

  /** Fills the even positions, then the odd ones, of a fresh tensor. */
  method UnpackInt4(packed: seq<int>) returns (r: array<int>)
    ensures fresh(r) && r[..] == Unpack(packed)
  {
    var n := |packed|;
    r := new int[2 * n];
    for i := 0 to n
      invariant forall j | 0 <= j < i :: r[2 * j] == packed[j] % 16
    {
      r[2 * i] := packed[i] % 16;
    }
    for i := 0 to n
      invariant forall j | 0 <= j < n :: r[2 * j] == packed[j] % 16
      invariant forall j | 0 <= j < i :: r[2 * j + 1] == packed[j] / 16 % 16
    {
      r[2 * i + 1] := packed[i] / 16 % 16;
    }
    forall j | 0 <= j < 2 * n ensures r[j] == NibbleAt(packed, j) {
      assert j == 2 * (j / 2) + j % 2;
    }
  }

  lemma ByteHalves(low: int, high: int)
    ensures PackByte(low, high) % 16 == low % 16 && PackByte(low, high) / 16 % 16 == high % 16
    ensures 0 <= PackByte(low, high) < 256
  {
  }

  lemma HalvesByte(b: int)
    requires 0 <= b < 256
    ensures PackByte(b % 16, b / 16 % 16) == b
  {
  }

  lemma PackedNibble(w: seq<int>, j: nat)
    requires |w| % 2 == 0 && j < |w|
    ensures j < 2 * |Pack(w).value| && NibbleAt(Pack(w).value, j) == w[j] % 16
  {
    var i := j / 2;
    ByteHalves(w[2 * i], w[2 * i + 1]);
    assert Pack(w).value[i] == PackByte(w[2 * i], w[2 * i + 1]);
    assert j == if j % 2 == 0 then 2 * i else 2 * i + 1;
  }

  /** Unpacking gives back what was packed. */
  lemma UnpackAfterPack(w: seq<int>)
    requires |w| % 2 == 0 && Nibbles(w)
    ensures Bytes(Pack(w).value) && Unpack(Pack(w).value) == w
  {
    var p := Pack(w).value;
    var u := Unpack(p);
    PackLength(w);
    forall j: nat | j < |w| ensures u[j] == w[j] {
      PackedNibble(w, j);
    }
    PackBytes(w);
  }

  lemma PackBytes(w: seq<int>)
    requires |w| % 2 == 0
    ensures Bytes(Pack(w).value)
  {
    var p := Pack(w).value;
    forall i: nat | i < |p| ensures 0 <= p[i] < 256 {
      ByteHalves(w[2 * i], w[2 * i + 1]);
    }
  }

  lemma PackLength(w: seq<int>)
    requires |w| % 2 == 0
    ensures |Unpack(Pack(w).value)| == |w|
  {
  }

  lemma ByteBack(p: seq<int>, i: nat)
    requires Bytes(p) && i < |p|
    ensures PackByte(Unpack(p)[2 * i], Unpack(p)[2 * i + 1]) == p[i]
  {
    assert (2 * i) % 2 == 0 && (2 * i + 1) % 2 == 1 && (2 * i) / 2 == i && (2 * i + 1) / 2 == i;
    HalvesByte(p[i]);
  }

  /** Packing is onto: every byte string is the packing of its nibbles. */
  lemma PackAfterUnpack(p: seq<int>)
    requires Bytes(p)
    ensures Nibbles(Unpack(p)) && Pack(Unpack(p)) == Some(p)
  {
    var u := Unpack(p);
    assert |u| == 2 * |p| && |u| / 2 == |p|;
    forall i | 0 <= i < |p| ensures PackByte(u[2 * i], u[2 * i + 1]) == p[i] {
      ByteBack(p, i);
    }
    assert Pack(u).value == p;
  }

  // ── Group-wise quantisation of one row ──

  const LEVELS: int := 7

  function NumGroups(n: nat, size: nat): nat
    requires size > 0
  {
    (n + size - 1) / size
  }

  /** Position of element `k` of group `g`. */
  function GroupPos(g: nat, size: nat, k: nat): nat {
    assert g * size >= 0;
    g * size + k
  }

  /** Group `g` of the row padded with zeros. */
  function Group(w: seq<real>, size: nat, g: nat): (r: seq<real>)
    ensures |r| == size
  {
    seq(size, k requires 0 <= k < size => if GroupPos(g, size, k) < |w| then w[GroupPos(g, size, k)] else 0.0)
  }

  function Scales(w: seq<real>, size: nat): (r: seq<real>)
    requires size > 0
    ensures |r| == NumGroups(|w|, size) && forall g | 0 <= g < |r| :: r[g] >= TINY
  {
    seq(NumGroups(|w|, size), g requires 0 <= g < NumGroups(|w|, size) => ScaleOf(Group(w, size, g), LEVELS))
  }

  function Clamp(x: int, lo: int, hi: int): int { if x < lo then lo else if x > hi then hi else x }

  lemma FactorLess(k: nat, a: nat, b: nat)
    requires k > 0 && k * a < k * b
    ensures a < b
  {
    if a > b {
      ScaleUp(k, a, b);
    }
  }

  lemma GroupExists(n: nat, size: nat, j: nat)
    requires size > 0 && j < n
    ensures j / size < NumGroups(n, size) && j % size < size && GroupPos(j / size, size, j % size) == j
  {
    var g, k, q := j / size, j % size, NumGroups(n, size);
    assert j == size * g + k && size * g == g * size;
    assert n + size - 1 == size * q + (n + size - 1) % size;
    FactorLess(size, g, q);
  }

  /** The scale of column `j`. */
  function ScaleAt(scales: seq<real>, size: nat, j: nat): real
    requires size > 0
  {
    var g := j / size;
    if g < |scales| then scales[g] else TINY
  }

  /** The unsigned code of column `j`, zero point 8. */
  function RowCode(w: seq<real>, size: nat, j: nat): int
    requires size > 0 && j < |w|
  {
    GroupExists(|w|, size, j);
    Clamp(Code(w[j], ScaleAt(Scales(w, size), size, j)) + 8, 0, 15)
  }

  function RowCodes(w: seq<real>, size: nat): seq<int>
    requires size > 0
  {
    seq(|w|, j requires 0 <= j < |w| => RowCode(w, size, j))
  }

  datatype Quantised = Quantised(packed: seq<int>, scales: seq<real>)

  /** `None` is the error on an odd width. */
  function QuantizeRow(w: seq<real>, size: nat): Option<Quantised>
    requires size > 0
  {
    match Pack(RowCodes(w, size))
    case None => None
    case Some(p) => Some(Quantised(p, Scales(w, size)))
  }

  function DequantizeRow(q: Quantised, size: nat): seq<real>
    requires size > 0
  {
    var codes := Unpack(q.packed);
    seq(|codes|, j requires 0 <= j < |codes| => Dequant(codes[j] - 8, ScaleAt(q.scales, size, j)))
  }

  /** In terms of its group, column `j` has the group's scale and code. */
  lemma ColumnInGroup(w: seq<real>, size: nat, j: nat)
    requires size > 0 && j < |w|
    ensures var group := Group(w, size, j / size);
            && j % size < |group| && group[j % size] == w[j]
            && ScaleAt(Scales(w, size), size, j) == ScaleOf(group, LEVELS)
  {
    GroupExists(|w|, size, j);
  }

  /** The clamp never bites: codes lie in 1..15 without it. */
  lemma ClampNeverBites(w: seq<real>, size: nat, j: nat)
    requires size > 0 && j < |w|
    ensures var s := ScaleAt(Scales(w, size), size, j);
            s > 0.0 && RowCode(w, size, j) == Code(w[j], s) + 8 && 1 <= RowCode(w, size, j) <= 15
  {
    CodeOfColumn(w, size, j);
  }

  lemma CodeOfColumn(w: seq<real>, size: nat, j: nat)
    requires size > 0 && j < |w|
    ensures var s := ScaleAt(Scales(w, size), size, j); s > 0.0 && -LEVELS <= Code(w[j], s) <= LEVELS
  {
    var group, i := InGroup(w, size, j);
    CodeInRange(group, LEVELS, i);
  }

  lemma InGroup(w: seq<real>, size: nat, j: nat) returns (group: seq<real>, i: nat)
    requires size > 0 && j < |w|
    ensures i < |group| && group[i] == w[j] && ScaleAt(Scales(w, size), size, j) == ScaleOf(group, LEVELS)
  {
    ColumnInGroup(w, size, j);
    group, i := Group(w, size, j / size), j % size;
  }

  lemma CodesAreNibbles(w: seq<real>, size: nat)
    requires size > 0
    ensures Nibbles(RowCodes(w, size))
  {
    forall j: nat | j < |w| ensures 0 <= RowCode(w, size, j) < 16 {
      ClampNeverBites(w, size, j);
    }
  }

  /** Quantisation fails exactly on odd widths; otherwise dequantising gives each column its group's
      scale times its signed code. */
  lemma DequantizedColumn(w: seq<real>, size: nat, j: nat)
    requires size > 0 && j < |w|
    ensures QuantizeRow(w, size).Some? <==> |w| % 2 == 0
    ensures QuantizeRow(w, size).Some? ==>
              var back, s := DequantizeRow(QuantizeRow(w, size).value, size), ScaleAt(Scales(w, size), size, j);
              |back| == |w| && s > 0.0 && back[j] == Dequant(Code(w[j], s), s)
  {
    if |w| % 2 == 0 {
      CodesAreNibbles(w, size);
      UnpackAfterPack(RowCodes(w, size));
      ClampNeverBites(w, size, j);
    }
  }

  /** Every weight comes back within half its group's scale. */
  lemma GroupError(w: seq<real>, size: nat, j: nat)
    requires size > 0 && j < |w| && |w| % 2 == 0
    ensures var q := QuantizeRow(w, size).value;
            |DequantizeRow(q, size)| == |w| && Abs(DequantizeRow(q, size)[j] - w[j]) <= ScaleAt(q.scales, size, j) / 2.0
  {
    DequantizedColumn(w, size, j);
    HalfStep(w[j], ScaleAt(Scales(w, size), size, j));
  }

  /** In terms of the weights alone: a weight comes back within a fourteenth of the largest magnitude `m` of its
      group (of 7e-9 in a smaller group), and a weight of that magnitude exactly. */
  lemma WeightRecovered(w: seq<real>, size: nat, j: nat, m: real)
    requires size > 0 && j < |w| && |w| % 2 == 0
    requires forall k: nat | k < |w| && k / size == j / size :: Abs(w[k]) <= m
    ensures QuantizeRow(w, size).Some?
    ensures var back := DequantizeRow(QuantizeRow(w, size).value, size);
            && |back| == |w| && Abs(back[j] - w[j]) * 14.0 <= (if m >= 0.000000007 then m else 0.000000007)
            && (Abs(w[j]) == m >= 0.000000007 ==> back[j] == w[j])
  {
    var group, s := Group(w, size, j / size), ScaleAt(Scales(w, size), size, j);
    DequantizedColumn(w, size, j);
    ColumnInGroup(w, size, j);
    GroupWithin(w, size, j / size, m);
    ValueRecovered(group, LEVELS, j % size, m, s, Dequant(Code(w[j], s), s), 0.000000007);
  }

  lemma GroupWithin(w: seq<real>, size: nat, g: nat, m: real)
    requires size > 0 && m >= 0.0 && forall k: nat | k < |w| && k / size == g :: Abs(w[k]) <= m
    ensures forall k | 0 <= k < size :: Abs(Group(w, size, g)[k]) <= m
  {
    forall k: nat | k < size ensures Abs(Group(w, size, g)[k]) <= m {
      BlockOf(g, k, size);
    }
  }

  lemma DequantizedLength(w: seq<real>, size: nat)
    requires size > 0 && |w| % 2 == 0
    ensures |DequantizeRow(QuantizeRow(w, size).value, size)| == |w|
  {
    PackLength(RowCodes(w, size));
  }

  /** The groups of the dequantised row are the dequantised groups, padding included. */
  lemma DequantizedGroup(w: seq<real>, size: nat, g: nat)
    requires size > 0 && |w| % 2 == 0 && g < NumGroups(|w|, size)
    ensures var back := DequantizeRow(QuantizeRow(w, size).value, size);
            var s := ScaleOf(Group(w, size, g), LEVELS);
            Group(back, size, g) == Dequantised(Codes(Group(w, size, g), s), s)
  {
    var back := DequantizeRow(QuantizeRow(w, size).value, size);
    var group := Group(w, size, g);
    var s := ScaleOf(group, LEVELS);
    DequantizedLength(w, size);
    forall k: nat | k < size ensures Group(back, size, g)[k] == Dequant(Code(group[k], s), s) {
      DequantizedEntry(w, size, g, back, group, s, k);
    }
  }

  lemma DequantizedEntry(w: seq<real>, size: nat, g: nat, back: seq<real>, group: seq<real>, s: real, k: nat)
    requires size > 0 && |w| % 2 == 0 && g < NumGroups(|w|, size) && k < size
    requires back == DequantizeRow(QuantizeRow(w, size).value, size) && |back| == |w|
    requires group == Group(w, size, g) && s == ScaleOf(group, LEVELS)
    ensures Group(back, size, g)[k] == Dequant(Code(group[k], s), s)
  {
    var j := GroupPos(g, size, k);
    BlockOf(g, k, size);
    if j < |w| {
      DequantizedColumn(w, size, j);
      ColumnInGroup(w, size, j);
    } else {
      ExactCode(0.0, s, 0);
    }
  }

  lemma SameColumn(w: seq<real>, size: nat, j: nat)
    requires size > 0 && |w| % 2 == 0 && j < |w|
    ensures var back := DequantizeRow(QuantizeRow(w, size).value, size);
            |back| == |w| && RowCode(back, size, j) == RowCode(w, size, j)
            && ScaleAt(Scales(back, size), size, j) == ScaleAt(Scales(w, size), size, j)
  {
    var back := DequantizeRow(QuantizeRow(w, size).value, size);
    DequantizedLength(w, size);
    GroupExists(|w|, size, j);
    DequantizedGroup(w, size, j / size);
    Requantise(Group(w, size, j / size), LEVELS);
    ColumnInGroup(w, size, j);
    ColumnInGroup(back, size, j);
    ClampNeverBites(w, size, j);
    ClampNeverBites(back, size, j);
    DequantizedColumn(w, size, j);
    CodeOfDequantised(Code(w[j], ScaleAt(Scales(w, size), size, j)), ScaleAt(Scales(w, size), size, j));
  }

  /** Quantising the dequantised row gives the same bytes and the same scales. */
  lemma RequantizeIsIdentity(w: seq<real>, size: nat)
    requires size > 0 && |w| % 2 == 0
    ensures QuantizeRow(DequantizeRow(QuantizeRow(w, size).value, size), size) == QuantizeRow(w, size)
  {
    var back := DequantizeRow(QuantizeRow(w, size).value, size);
    DequantizedLength(w, size);
    assert RowCodes(back, size) == RowCodes(w, size) by {
      forall j: nat | j < |w| ensures RowCode(back, size, j) == RowCode(w, size, j) {
        SameColumn(w, size, j);
      }
    }
    assert Scales(back, size) == Scales(w, size) by {
      forall g: nat | g < NumGroups(|w|, size) ensures Scales(back, size)[g] == Scales(w, size)[g] {
        DequantizedGroup(w, size, g);
        Requantise(Group(w, size, g), LEVELS);
      }
    }
  }
}
