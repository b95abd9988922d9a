/** Printing an MLIR operation as one line of text, and parsing such a line. */
module MlirText {
  import opened Options
  import opened Text

  // ── Attribute values ──

  datatype Item = IInt(i: int) | IStr(s: string) | IBool(b: bool) | INone | IFloat(text: string)

  datatype Value =
    | VInt(i: int)
    | VStr(s: string)
    | VBool(b: bool)
    | VNone
    | VFloat(text: string)
    | VList(items: seq<Item>)

  type Attr = (string, Value)

  /** Which texts Python's float() accepts; a float is kept as its text. */
  type IsFloat = string -> bool

  function Quoted(s: string): string { ['"'] + (s + ['"']) }

  function PrintItem(v: Item): string {
    match v
    case IInt(i) => IntText(i)
    case IStr(s) => Quoted(s)
    case IBool(b) => if b then "True" else "False"
    case INone => "None"
    case IFloat(t) => t
  }

  function PrintItems(items: seq<Item>): seq<string> {
    seq(|items|, i requires 0 <= i < |items| => PrintItem(items[i]))
  }

  function PrintValue(v: Value): string {
    match v
    case VInt(i) => IntText(i) + (" : " + "i64")
    case VStr(s) => Quoted(s)
    case VBool(b) => if b then "true" else "false"
    case VNone => "none"
    case VFloat(t) => t + (" : " + "f64")
    case VList(items) => ['['] + (Join(PrintItems(items)) + [']'])
  }

  function PrintAttr(a: Attr): string { a.0 + ([' '] + (['='] + ([' '] + PrintValue(a.1)))) }

  function PrintAttrs(attrs: seq<Attr>): seq<string> {
    seq(|attrs|, i requires 0 <= i < |attrs| => PrintAttr(attrs[i]))
  }

  const COMMA: Syntax := Syntax({'<', '('}, {'>', ')'}, {','}, false)
  const ATTRS: Syntax := Syntax({'[', '{', '('}, {']', '}', ')'}, {',', ';'}, true)

  datatype Number = Int(i: int) | Float(text: string) | NotANumber(text: string)

  function ParseNumber(fl: IsFloat, raw: string): Number {
    match ParseInt(raw)
    case Some(i) => Int(i)
    case None => if fl(raw) then Float(raw) else NotANumber(raw)
  }

  /** The part before a type annotation. */
  function Untyped(s: string): string { match CutText(s, " : ") case None => s case Some((a, _)) => a }

  function ParseItem(fl: IsFloat, text: string): Item {
    var v := Strip(text);
    if v == "true" then IBool(true)
    else if v == "false" then IBool(false)
    else if v == "none" then INone
    else if StartsWith(v, "\"") && EndsWith(v, "\"") && CutText(Inner(v), " : ").None? then IStr(Inner(v))
    else
      var raw := if StartsWith(v, "\"") && EndsWith(v, "\"") then Untyped(Inner(v)) else Untyped(v);
      match ParseNumber(fl, raw) case Int(i) => IInt(i) case Float(t) => IFloat(t) case NotANumber(t) => IStr(t)
  }

  function NonEmpty(parts: seq<string>): seq<string> {
    if parts == [] then [] else (if Strip(parts[0]) == [] then [] else [parts[0]]) + NonEmpty(parts[1..])
  }

  function ParseItems(fl: IsFloat, parts: seq<string>): seq<Item> {
    seq(|parts|, i requires 0 <= i < |parts| => ParseItem(fl, parts[i]))
  }

  function ParseValue(fl: IsFloat, v: string): Value {
    if v == "true" then VBool(true)
    else if v == "false" then VBool(false)
    else if v == "none" then VNone
    else if StartsWith(v, "\"") && EndsWith(v, "\"") && CutText(Inner(v), " : ").None? then VStr(Inner(v))
    else if !(StartsWith(v, "\"") && EndsWith(v, "\"")) && StartsWith(v, "[") && EndsWith(v, "]") then
      VList(ParseItems(fl, NonEmpty(SplitOutside(COMMA, Inner(v), START, []))))
    else
      var raw := if StartsWith(v, "\"") && EndsWith(v, "\"") then Untyped(Inner(v)) else Untyped(v);
      match ParseNumber(fl, raw) case Int(i) => VInt(i) case Float(t) => VFloat(t) case NotANumber(t) => VStr(t)
  }

  /** A dictionary assignment: an existing key keeps its place. */
  function Put(attrs: seq<Attr>, k: string, v: Value): seq<Attr> {
    if attrs == [] then [(k, v)]
    else if attrs[0].0 == k then [(k, v)] + attrs[1..]
    else [attrs[0]] + Put(attrs[1..], k, v)
  }

  function ParseAttr(fl: IsFloat, attrs: seq<Attr>, part: string): seq<Attr> {
    match Cut(Strip(part), '=')
    case None => attrs
    case Some((a, b)) =>
      var k := Strip(a);
      Put(attrs, if StartsWith(k, "\"") && EndsWith(k, "\"") then Inner(k) else k, ParseValue(fl, Strip(b)))
  }

  function ParseParts(fl: IsFloat, parts: seq<string>): seq<Attr> {
    if parts == [] then [] else ParseAttr(fl, ParseParts(fl, parts[..|parts| - 1]), parts[|parts| - 1])
  }

  function ParseAttrs(fl: IsFloat, s: string): seq<Attr> {
    if Strip(s) == [] then [] else ParseParts(fl, SplitOutside(ATTRS, s, START, []))
  }

  /** The loop over the attributes of one block. */
  method ParseAttrBlock(fl: IsFloat, s: string) returns (attrs: seq<Attr>)
    ensures attrs == ParseAttrs(fl, s)
  {
    attrs := [];
    if Strip(s) == [] { return; }
    var parts := SplitLoop(ATTRS, s);
    for i := 0 to |parts|
      invariant attrs == ParseParts(fl, parts[..i])
    {
      assert parts[..i + 1][..i] == parts[..i];
      attrs := ParseAttr(fl, attrs, parts[i]);
    }
    assert parts[..|parts|] == parts;
  }

  // ── Operations ──

  datatype TextOp = TextOp(name: string, dialect: string, opName: string, operands: seq<string>, results: seq<string>,
                           attrs: seq<Attr>, inTypes: seq<string>, outTypes: seq<string>)

  /** Dialect and operation name. */
  function SplitQualified(q: string): (string, string) {
    match Cut(q, '.') case None => ("sf", q) case Some((a, b)) => (a, b)
  }

  function PrefixAll(names: seq<string>): seq<string> {
    seq(|names|, i requires 0 <= i < |names| => Prefixed(names[i]))
  }

  /** The attributes that are printed. */
  function Visible(attrs: seq<Attr>): seq<Attr> {
    if attrs == [] then []
    else
      var n := |attrs| - 1;
      Visible(attrs[..n]) + (if attrs[n].0 == "source_node" then [] else [attrs[n]])
  }

  function AttrText(attrs: seq<Attr>): string {
    if attrs == [] then [] else [' '] + (['{'] + (Join(PrintAttrs(attrs)) + ['}']))
  }

  function OutText(outs: seq<string>): string { if |outs| == 1 then outs[0] else ['('] + (Join(outs) + [')']) }

  function TypeText(ins: seq<string>, outs: seq<string>): string {
    ((['('] + (Join(ins) + [')'])) + [' ']) + ("->" + ([' '] + OutText(outs)))
  }

  function Signature(op: TextOp): string {
    if op.outTypes == [] then [] else [' '] + ([':'] + ([' '] + TypeText(op.inTypes, op.outTypes)))
  }

  /** Everything after the operands. */
  function Tail(op: TextOp): string { AttrText(Visible(op.attrs)) + Signature(op) }

  function Body(op: TextOp): string {
    ['"'] + (op.name + (['"'] + (['('] + (Join(PrefixAll(op.operands)) + ([')'] + Tail(op))))))
  }

  function PrintOp(op: TextOp): string { (Join(PrefixAll(op.results)) + [' ']) + (['='] + ([' '] + Body(op))) }

  function ParseTypeList(text: string): seq<string> {
    var t := Strip(text);
    var u := if StartsWith(t, "(") && EndsWith(t, ")") then Inner(t) else t;
    if u == [] then [] else StripAll(SplitOutside(COMMA, u, START, []))
  }

  function NoDots(types: seq<string>): seq<string> {
    if types == [] then [] else (if types[0] == "..." then [] else [types[0]]) + NoDots(types[1..])
  }

  function ParseTypes(t: string): (seq<string>, seq<string>) {
    match CutText(t, "->")
    case None => ([], [t])
    case Some((a, b)) =>
      var i := Strip(a);
      var ins := if StartsWith(i, "(") && EndsWith(i,
          ")") then ParseTypeList(Inner(i)) else if i != [] then [i] else [];
      (NoDots(ins), NoDots(ParseTypeList(Strip(b))))
  }

  function StripPercents(names: seq<string>): seq<string> {
    seq(|names|, i requires 0 <= i < |names| => StripPercent(names[i]))
  }

  /** Operands that name a weight are replaced by the weight's name. */
  function Resolved(names: map<string, string>, operands: seq<string>): seq<string> {
    seq(|operands|, i requires 0 <= i < |operands| =>
      var x := StripPercent(operands[i]);
      if x in names then names[x] else x)
  }

  function ParseTail(fl: IsFloat, tail: string): Option<seq<Attr>> {
    match Cut(tail, '{')
    case None => Some([])
    case Some((_, inside)) =>
      match Cut(inside, '}')
      case None => None
      case Some((text, _)) => Some(ParseAttrs(fl, text))
  }

  /** The types after the last colon of the text. */
  function SignatureTypes(rest: string): (seq<string>, seq<string>) {
    match AfterLast(rest, ':') case None => ([], []) case Some(t) => ParseTypes(Strip(t))
  }

  /** `None` is the error on a missing delimiter. */
  function ParseBody(fl: IsFloat, names: map<string, string>, results: seq<string>, rest: string): Option<TextOp> {
    match Cut(rest, '"')
    case None => None
    case Some((_, r1)) => match Cut(r1, '"')
    case None => None
    case Some((name, r2)) => match Cut(r2, '(')
    case None => None
    case Some((_, r3)) => match Cut(r3, ')')
    case None => None
    case Some((operands, tail)) => match ParseTail(fl, tail)
    case None => None
    case Some(attrs) =>
      var types := SignatureTypes(rest);
      var q := SplitQualified(name);
      Some(TextOp(name, q.0, q.1, Resolved(names, NonEmpty(StripAll(SplitAt(operands, ',')))), results, attrs, types.0,
          types.1))
  }

  function ParseOp(fl: IsFloat, names: map<string, string>, line: string): Option<TextOp> {
    match Cut(line, '=')
    case None => None
    case Some((left, right)) => ParseBody(fl, names, StripPercents(StripAll(SplitAt(Strip(left), ','))), Strip(right))
  }
}
