/** The round trip of an operation, told from the operation itself: which attributes are printed, what names lose
    on the way, and what is read back. */
module MlirReadBack {
  import opened Options
  import opened Lists
  import opened Text
  import opened MlirText
  import opened MlirRoundTrip

  // ── What is read back ──

  /** The first `n` characters of a name are percent signs, and the rest does not start with one. */
  ghost predicate BareAt(name: string, bare: string, n: nat) {
    && n <= |name| && bare == name[n..] && (forall i | 0 <= i < n :: name[i] == '%')
    && (bare == [] || bare[0] != '%')
  }

  ghost predicate Bare(name: string, bare: string) { exists n: nat :: BareAt(name, bare, n) }

  /** A known name is replaced by its weight's. */
  ghost predicate OperandRead(known: map<string, string>, operand: string, back: string) {
    exists bare :: Bare(operand, bare) && back == if bare in known then known[bare] else bare
  }

  ghost predicate OperandsRead(known: map<string, string>, operands: seq<string>, back: seq<string>) {
    |back| == |operands| && forall i | 0 <= i < |operands| :: OperandRead(known, operands[i], back[i])
  }

  /** No result at all is read as one empty name. */
  ghost predicate ResultsRead(results: seq<string>, back: seq<string>) {
    if results == [] then back == [""]
    else |back| == |results| && forall i | 0 <= i < |results| :: Bare(results[i], back[i])
  }

  /** `n` is the first place in a string that looks like the end of a number and the start of its type. */
  ghost predicate TypedAt(s: string, n: nat) {
    OccursAt(s, " : ", n) && forall m | 0 <= m < n :: !OccursAt(s, " : ", m)
  }

  ghost predicate LooksTyped(s: string) { exists n: nat :: TypedAt(s, n) }

  ghost predicate NumberRead(fl: IsFloat, raw: string, back: Number) {
    match ParseInt(raw)
    case Some(i) => back == Int(i)
    case None => back == if fl(raw) then Float(raw) else NotANumber(raw)
  }

  /** A string that looks typed is read as what stands before the type, any other as itself. */
  ghost predicate StringRead(fl: IsFloat, s: string, back: Number) {
    if LooksTyped(s) then exists n: nat :: TypedAt(s, n) && NumberRead(fl, s[..n], back) else back == NotANumber(s)
  }

  /** Booleans and None in a list come back as Python's words for them. */
  ghost predicate ItemRead(fl: IsFloat, v: Item, back: Item) {
    match v
    case IBool(b) => back == IStr(if b then "True" else "False")
    case INone => back == IStr("None")
    case IStr(s) => exists n :: StringRead(fl, s, n) && back == ItemOf(n)
    case _ => back == v
  }

  ghost predicate ValueRead(fl: IsFloat, v: Value, back: Value) {
    match v
    case VList(items) =>
      && back.VList? && |back.items| == |items|
      && forall i | 0 <= i < |items| :: ItemRead(fl, items[i], back.items[i])
    case VStr(s) => exists n :: StringRead(fl, s, n) && back == ValueOf(n)
    case _ => back == v
  }

  /** No boolean or None in a list, and no string that looks typed. */
  ghost predicate Keeps(v: Value) {
    && (v.VStr? ==> !LooksTyped(v.s))
    && (v.VList? ==> forall i | 0 <= i < |v.items| ::
          !v.items[i].IBool? && !v.items[i].INone? && (v.items[i].IStr? ==> !LooksTyped(v.items[i].s)))
  }

  /** `at` lists in order the places of the attributes other than source_node. */
  ghost predicate PrintedAt(attrs: seq<Attr>, at: seq<nat>) {
    Increasing(at) && forall k: nat :: k in at <==> k < |attrs| && attrs[k].0 != "source_node"
  }

  ghost predicate AttrsReadAt(fl: IsFloat, attrs: seq<Attr>, back: seq<Attr>, at: seq<nat>) {
    && PrintedAt(attrs, at) && |back| == |at|
    && forall i | 0 <= i < |at| ::
         at[i] < |attrs| && back[i].0 == attrs[at[i]].0 && ValueRead(fl, attrs[at[i]].1, back[i].1)
  }

  /** Every attribute but source_node comes back, in order, with what its value is read as. */
  ghost predicate AttrsRead(fl: IsFloat, attrs: seq<Attr>, back: seq<Attr>) {
    exists at :: AttrsReadAt(fl, attrs, back, at)
  }

  /** No printed list holds a boolean or None, and no printed string looks typed. */
  ghost predicate PrintedSurvive(attrs: seq<Attr>) {
    forall i | 0 <= i < |attrs| && attrs[i].0 != "source_node" :: Keeps(attrs[i].1)
  }

  /** An attribute other than source_node is printed with a colon. */
  ghost predicate ColonPrinted(attrs: seq<Attr>) {
    exists i | 0 <= i < |attrs| :: attrs[i].0 != "source_node" && HasColon(attrs[i].1)
  }

  ghost predicate TypesRead(op: TextOp, back: TextOp) {
    && (op.outTypes != [] ==> back.inTypes == op.inTypes && back.outTypes == op.outTypes)
    && (op.outTypes == [] && !ColonPrinted(op.attrs) ==> back.inTypes == [] && back.outTypes == [])
    && (op.outTypes == [] && ColonPrinted(op.attrs) ==> back.outTypes != [])
  }

  /** What the printed operation is read as. */
  ghost predicate ReadAs(fl: IsFloat, known: map<string, string>, op: TextOp, back: TextOp) {
    && back.name == op.name && back.dialect == op.dialect && back.opName == op.opName
    && OperandsRead(known, op.operands, back.operands) && ResultsRead(op.results, back.results)
    && AttrsRead(fl, op.attrs, back.attrs) && TypesRead(op, back)
  }

  // ── The operation again ──

  ghost predicate AttrsSameAt(attrs: seq<Attr>, back: seq<Attr>, at: seq<nat>) {
    PrintedAt(attrs, at) && |back| == |at| && forall i | 0 <= i < |at| :: at[i] < |attrs| && back[i] == attrs[at[i]]
  }

  ghost predicate AttrsSame(attrs: seq<Attr>, back: seq<Attr>) { exists at :: AttrsSameAt(attrs, back, at) }

  /** `back` is `op` up to percent signs, weights by name, and the source_node attribute. */
  ghost predicate SameOp(known: map<string, string>, op: TextOp, back: TextOp) {
    && back.name == op.name && back.dialect == op.dialect && back.opName == op.opName
    && OperandsRead(known, op.operands, back.operands)
    && |back.results| == |op.results| && (forall i | 0 <= i < |op.results| :: Bare(op.results[i], back.results[i]))
    && AttrsSame(op.attrs, back.attrs) && back.inTypes == op.inTypes && back.outTypes == op.outTypes
  }

  // ── What can be printed faithfully ──

  /** A dot ends the dialect; without one the dialect is sf. */
  ghost predicate Qualifies(name: string, dialect: string, opName: string) {
    if '.' in name then '.' !in dialect && name == dialect + (['.'] + opName) else dialect == "sf" && opName == name
  }

  /** Printed attributes have plain keys and values without delimiters, and no key occurs twice. */
  ghost predicate PrintedOk(fl: IsFloat, attrs: seq<Attr>) {
    && (forall i | 0 <= i < |attrs| && attrs[i].0 != "source_node" ::
          PlainText(attrs[i].0) && ValueOk(fl, attrs[i].1))
    && forall i, j | 0 <= i < j < |attrs| :: attrs[i].0 != attrs[j].0
  }

  /** Plain names, and printed attributes and types that cannot be taken for delimiters. */
  ghost predicate Plain(fl: IsFloat, op: TextOp) {
    && PlainText(op.name) && Qualifies(op.name, op.dialect, op.opName) && op.opName != "weight"
    && AllPlain(op.results) && AllPlain(op.operands)
    && PrintedOk(fl, op.attrs) && (op.outTypes != [] ==> TypesOk(op.inTypes) && TypesOk(op.outTypes))
  }

  lemma QualifiedSplit(name: string, dialect: string, opName: string)
    requires Qualifies(name, dialect, opName)
    ensures SplitQualified(name) == (dialect, opName)
  {
    if '.' in name {
      CutAt(dialect, '.', opName);
    }
  }

  lemma {:induction false} VisibleAt(attrs: seq<Attr>) returns (at: seq<nat>)
    ensures PrintedAt(attrs, at) && |Visible(attrs)| == |at|
    ensures forall i | 0 <= i < |at| :: at[i] < |attrs| && Visible(attrs)[i] == attrs[at[i]]
  {
    at := [];
    if attrs != [] {
      var n := |attrs| - 1;
      var front := VisibleAt(attrs[..n]);
      at := front + if attrs[n].0 == "source_node" then [] else [n];
      PrintedLonger(attrs, front, at);
    }
  }

  lemma PrintedLonger(attrs: seq<Attr>, front: seq<nat>, at: seq<nat>)
    requires attrs != [] && PrintedAt(attrs[..|attrs| - 1], front)
    requires at == front + if attrs[|attrs| - 1].0 == "source_node" then [] else [|attrs| - 1]
    ensures PrintedAt(attrs, at)
  {
    var n := |attrs| - 1;
    assert forall k: nat | k < n :: attrs[..n][k] == attrs[k];
    forall i | 0 <= i < |front| ensures front[i] < n {
      assert front[i] in front;
    }
  }

  lemma VisibleFrom(attrs: seq<Attr>, i: nat) returns (k: nat)
    requires i < |Visible(attrs)|
    ensures i <= k < |attrs| && Visible(attrs)[i] == attrs[k] && attrs[k].0 != "source_node"
    ensures forall j | i < j < |Visible(attrs)| :: exists l | k < l < |attrs| :: Visible(attrs)[j] == attrs[l]
  {
    var at := VisibleAt(attrs);
    k := at[i];
    assert k in at;
    IncreasingAbove(at, i);
    forall j | i < j < |Visible(attrs)| ensures exists l | k < l < |attrs| :: Visible(attrs)[j] == attrs[l] {
      assert k < at[j] < |attrs| && Visible(attrs)[j] == attrs[at[j]];
    }
  }

  lemma VisibleHas(attrs: seq<Attr>, k: nat) returns (i: nat)
    requires k < |attrs| && attrs[k].0 != "source_node"
    ensures i < |Visible(attrs)| && Visible(attrs)[i] == attrs[k]
  {
    var at := VisibleAt(attrs);
    assert k in at;
    i :| 0 <= i < |at| && at[i] == k;
  }

  lemma VisibleOk(fl: IsFloat, attrs: seq<Attr>)
    requires PrintedOk(fl, attrs)
    ensures AttrsOk(fl, Visible(attrs))
  {
    var printed := Visible(attrs);
    forall i | 0 <= i < |printed| ensures PlainText(printed[i].0) && ValueOk(fl, printed[i].1) {
      var k := VisibleFrom(attrs, i);
    }
    forall i, j | 0 <= i < j < |printed| ensures printed[i].0 != printed[j].0 {
      var k := VisibleFrom(attrs, i);
      var l :| k < l < |attrs| && printed[j] == attrs[l];
    }
  }

  lemma VisibleColon(attrs: seq<Attr>)
    ensures AnyColon(Visible(attrs)) <==> ColonPrinted(attrs)
  {
    if AnyColon(Visible(attrs)) {
      var i :| 0 <= i < |Visible(attrs)| && HasColon(Visible(attrs)[i].1);
      var k := VisibleFrom(attrs, i);
    }
    if ColonPrinted(attrs) {
      var k :| 0 <= k < |attrs| && attrs[k].0 != "source_node" && HasColon(attrs[k].1);
      var i := VisibleHas(attrs, k);
    }
  }

  lemma VisibleSurvives(attrs: seq<Attr>)
    ensures AllSurvive(Visible(attrs)) <==> PrintedSurvive(attrs)
  {
    if AllSurvive(Visible(attrs)) {
      forall k | 0 <= k < |attrs| && attrs[k].0 != "source_node" ensures Keeps(attrs[k].1) {
        var i := VisibleHas(attrs, k);
        KeepsIff(attrs[k].1);
      }
    }
    if PrintedSurvive(attrs) {
      forall i | 0 <= i < |Visible(attrs)| ensures Survives(Visible(attrs)[i].1) {
        var k := VisibleFrom(attrs, i);
        KeepsIff(attrs[k].1);
      }
    }
  }

  lemma PlainIsPrintable(fl: IsFloat, op: TextOp)
    requires Plain(fl, op)
    ensures Printable(fl, op)
  {
    QualifiedSplit(op.name, op.dialect, op.opName);
    VisibleOk(fl, op.attrs);
  }

  lemma {:induction false} StripIsBare(name: string)
    ensures Bare(name, StripPercent(name))
  {
    if name != [] && name[0] == '%' {
      StripIsBare(name[1..]);
      var n: nat :| BareAt(name[1..], StripPercent(name[1..]), n);
      assert forall i | 1 <= i < n + 1 :: name[i] == name[1..][i - 1];
      assert BareAt(name, StripPercent(name), n + 1);
    } else {
      assert BareAt(name, name, 0);
    }
  }

  lemma ResolvedRead(known: map<string, string>, operands: seq<string>)
    ensures OperandsRead(known, operands, Resolved(known, operands))
  {
    forall i | 0 <= i < |operands| ensures OperandRead(known, operands[i], Resolved(known, operands)[i]) {
      StripIsBare(operands[i]);
    }
  }

  lemma StrippedRead(names: seq<string>)
    ensures forall i | 0 <= i < |names| :: Bare(names[i], StripPercents(names)[i])
  {
    forall i | 0 <= i < |names| ensures Bare(names[i], StripPercents(names)[i]) {
      StripIsBare(names[i]);
    }
  }

  lemma TypedIff(s: string, n: nat)
    ensures TypedAt(s, n) <==> CutText(s, " : ").Some? && |CutText(s, " : ").value.0| == n
    ensures TypedAt(s, n) ==> CutText(s, " : ").value.0 == s[..n]
  {
    CutTextFirst(s, " : ");
  }

  lemma TypableIff(s: string)
    ensures LooksTyped(s) <==> !Untypable(s)
  {
    forall n: nat ensures TypedAt(s, n) <==> CutText(s, " : ").Some? && |CutText(s, " : ").value.0| == n {
      TypedIff(s, n);
    }
    if !Untypable(s) {
      assert TypedAt(s, |CutText(s, " : ").value.0|);
    }
  }

  lemma KeepsIff(v: Value)
    ensures Keeps(v) <==> Survives(v)
  {
    match v
    case VStr(s) => TypableIff(s);
    case VList(items) =>
      forall i | 0 <= i < |items| && items[i].IStr? ensures LooksTyped(items[i].s) <==> !Untypable(items[i].s) {
        TypableIff(items[i].s);
      }
    case _ =>
  }

  lemma StringIsRead(fl: IsFloat, s: string)
    ensures StringRead(fl, s, StringReread(fl, s))
  {
    TypableIff(s);
    if LooksTyped(s) {
      var n: nat :| TypedAt(s, n);
      TypedIff(s, n);
      assert NumberRead(fl, s[..n], StringReread(fl, s));
    }
  }

  lemma ItemRereadIs(fl: IsFloat, v: Item)
    ensures ItemRead(fl, v, RereadItem(fl, v))
  {
    if v.IStr? {
      StringIsRead(fl, v.s);
    }
  }

  lemma ValueRereadIs(fl: IsFloat, v: Value)
    ensures ValueRead(fl, v, RereadValue(fl, v))
  {
    match v
    case VStr(s) => StringIsRead(fl, s);
    case VList(items) =>
      forall i | 0 <= i < |items| ensures ItemRead(fl, items[i], RereadItem(fl, items[i])) {
        ItemRereadIs(fl, items[i]);
      }
    case _ =>
  }

  lemma RereadIsRead(fl: IsFloat, attrs: seq<Attr>)
    ensures AttrsRead(fl, attrs, RereadAttrs(fl, Visible(attrs)))
  {
    var at := VisibleAt(attrs);
    var back := RereadAttrs(fl, Visible(attrs));
    forall i | 0 <= i < |at|
      ensures at[i] < |attrs| && back[i].0 == attrs[at[i]].0 && ValueRead(fl, attrs[at[i]].1, back[i].1)
    {
      ValueRereadIs(fl, attrs[at[i]].1);
    }
    assert AttrsReadAt(fl, attrs, back, at);
  }

  lemma RereadTypesRead(fl: IsFloat, op: TextOp)
    requires Plain(fl, op)
    ensures op.outTypes != [] ==> RereadTypes(op) == (op.inTypes, op.outTypes)
    ensures op.outTypes == [] && !ColonPrinted(op.attrs) ==> RereadTypes(op) == ([], [])
    ensures op.outTypes == [] && ColonPrinted(op.attrs) ==> RereadTypes(op).1 != []
  {
    VisibleOk(fl, op.attrs);
    VisibleColon(op.attrs);
    AttrsColon(fl, Visible(op.attrs));
    if op.outTypes == [] && ColonPrinted(op.attrs) {
      ColonMakesType(AttrText(Visible(op.attrs)));
    }
  }

  /** Main theorem.  Parsing the printed operation always succeeds, and gives exactly this. */
  lemma ReadBack(fl: IsFloat, known: map<string, string>, op: TextOp)
    requires RejectsWords(fl) && Plain(fl, op)
    ensures ParseOp(fl, known, PrintOp(op)).Some?
    ensures ReadAs(fl, known, op, ParseOp(fl, known, PrintOp(op)).value)
  {
    PlainIsPrintable(fl, op);
    PrintedIsReread(fl, known, op);
    RereadReads(fl, known, op);
  }

  lemma RereadReads(fl: IsFloat, known: map<string, string>, op: TextOp)
    requires Plain(fl, op)
    ensures ReadAs(fl, known, op, Reread(fl, known, op))
  {
    ResolvedRead(known, op.operands);
    StrippedRead(op.results);
    RereadIsRead(fl, op.attrs);
    RereadTypesRead(fl, op);
  }

  /** The same for the indented line of the module text, stripped by the reader. */
  lemma LineReadBack(fl: IsFloat, known: map<string, string>, op: TextOp)
    requires RejectsWords(fl) && Plain(fl, op)
    ensures ParseOp(fl, known, Strip("    " + PrintOp(op))).Some?
    ensures ReadAs(fl, known, op, ParseOp(fl, known, Strip("    " + PrintOp(op))).value)
  {
    PlainIsPrintable(fl, op);
    LineIsReread(fl, known, op);
    RereadReads(fl, known, op);
    FourSpaces();
  }

  lemma FourSpaces()
    ensures Indent(4) == "    "
  {
    assert Indent(0) == "" && Indent(1) == " " && Indent(2) == "  " && Indent(3) == "   ";
  }

  lemma {:induction false} BareIsStripped(name: string, bare: string)
    requires Bare(name, bare)
    ensures bare == StripPercent(name)
  {
    var n: nat :| BareAt(name, bare, n);
    if n > 0 {
      assert forall i | 0 <= i < n - 1 :: name[1..][i] == name[i + 1];
      assert name[1..][n - 1..] == name[n..];
      assert BareAt(name[1..], bare, n - 1);
      BareIsStripped(name[1..], bare);
    } else {
      assert name[0..] == name;
    }
  }

  lemma SameIsVisible(attrs: seq<Attr>, back: seq<Attr>)
    ensures AttrsSame(attrs, back) <==> back == Visible(attrs)
  {
    var at := VisibleAt(attrs);
    if back == Visible(attrs) {
      assert AttrsSameAt(attrs, back, at);
    }
    if AttrsSame(attrs, back) {
      var at' :| AttrsSameAt(attrs, back, at');
      IncreasingSame(at, at');
    }
  }

  /** The text is that of the operation without source_node and with everything else. */
  lemma PrintedWithout(op: TextOp, kept: seq<Attr>)
    requires AttrsSame(op.attrs, kept)
    ensures PrintOp(op) == PrintOp(op.(attrs := kept))
  {
    SameIsVisible(op.attrs, kept);
    NothingHidden(op.attrs);
  }

  /** A name is printed with a percent sign in front, unless it has one. */
  ghost predicate NamePrinted(name: string, text: string) {
    if name != [] && name[0] != '%' then text == ['%'] + name else text == name
  }

  /** The line of an operation with one result and two operands, and nothing else to print. */
  lemma LineText(op: TextOp) returns (r: string, a: string, b: string)
    requires |op.results| == 1 && |op.operands| == 2 && op.outTypes == []
    requires forall i | 0 <= i < |op.attrs| :: op.attrs[i].0 == "source_node"
    ensures NamePrinted(op.results[0], r) && NamePrinted(op.operands[0], a) && NamePrinted(op.operands[1], b)
    ensures PrintOp(op) == r + " = \"" + (op.name + "\"(" + a + ", " + b + ")")
  {
    r, a, b := Prefixed(op.results[0]), Prefixed(op.operands[0]), Prefixed(op.operands[1]);
    AllHidden(op.attrs);
    assert PrefixAll(op.results) == [r] && PrefixAll(op.operands) == [a, b];
    TwoJoined(a, b);
    assert Join([r]) == r;
    LineGlued(r, op.name, Join([a, b]));
    CallGlued(op.name, a, b);
  }

  lemma TwoJoined(a: string, b: string)
    ensures Join([a, b]) == a + ", " + b
  {
    assert [a, b][1..] == [b];
  }

  lemma LineGlued(r: string, name: string, args: string)
    ensures (r + [' ']) + (['='] + ([' '] + (['"'] + (name + (['"'] + (['('] + (args + ([')'] + [])))))))) ==
            r + " = \"" + (name + "\"(" + args + ")")
  {
    assert ['"'] + (name + (['"'] + (['('] + (args + ([')'] + []))))) == "\"" + (name + "\"(" + args + ")");
  }

  lemma CallGlued(name: string, a: string, b: string)
    ensures name + "\"(" + (a + ", " + b) + ")" == name + "\"(" + a + ", " + b + ")"
  {
  }

  lemma {:induction false} AllHidden(attrs: seq<Attr>)
    requires forall i | 0 <= i < |attrs| :: attrs[i].0 == "source_node"
    ensures Visible(attrs) == []
  {
    if attrs != [] {
      AllHidden(attrs[..|attrs| - 1]);
    }
  }

  lemma {:induction false} NothingHidden(attrs: seq<Attr>)
    ensures Visible(Visible(attrs)) == Visible(attrs)
  {
    if attrs != [] {
      var n := |attrs| - 1;
      NothingHidden(attrs[..n]);
      if attrs[n].0 != "source_node" {
        assert Visible(attrs)[..|Visible(attrs)| - 1] == Visible(attrs[..n]);
      } else {
        assert Visible(attrs) == Visible(attrs[..n]);
      }
    }
  }

  lemma ReadIsResolved(known: map<string, string>, operands: seq<string>, back: seq<string>)
    requires OperandsRead(known, operands, back)
    ensures back == Resolved(known, operands)
  {
    forall i | 0 <= i < |operands| ensures back[i] == Resolved(known, operands)[i] {
      var bare :| Bare(operands[i], bare) && back[i] == if bare in known then known[bare] else bare;
      BareIsStripped(operands[i], bare);
    }
  }

  lemma BaresAre(names: seq<string>, back: seq<string>)
    requires |back| == |names| && forall i | 0 <= i < |names| :: Bare(names[i], back[i])
    ensures back == StripPercents(names)
  {
    forall i | 0 <= i < |names| ensures back[i] == StripPercents(names)[i] {
      BareIsStripped(names[i], back[i]);
    }
  }

  lemma SameIsExpected(known: map<string, string>, op: TextOp, back: TextOp)
    ensures SameOp(known, op, back) <==> back == Expected(known, op)
  {
    SameIsVisible(op.attrs, back.attrs);
    if SameOp(known, op, back) {
      ReadIsResolved(known, op.operands, back.operands);
      BaresAre(op.results, back.results);
    }
    ResolvedRead(known, op.operands);
    StrippedRead(op.results);
  }

  /** The operation comes back exactly when it has a result, no printed list holds a boolean or None, no printed
      string looks typed, and, if it has no output types, it has no input types either and no colon among its
      printed attributes. */
  lemma RoundTripIff(fl: IsFloat, known: map<string, string>, op: TextOp)
    requires RejectsWords(fl) && Plain(fl, op)
    ensures ParseOp(fl, known, PrintOp(op)).Some?
    ensures SameOp(known, op, ParseOp(fl, known, PrintOp(op)).value)
            <==> op.results != [] && PrintedSurvive(op.attrs)
                 && (op.outTypes != [] || (op.inTypes == [] && !ColonPrinted(op.attrs)))
  {
    PlainIsPrintable(fl, op);
    VisibleColon(op.attrs);
    VisibleSurvives(op.attrs);
    PrintedIsReread(fl, known, op);
    ExpectedIff(fl, known, op);
    SameIsExpected(known, op, Reread(fl, known, op));
  }

  // ── Text of other emitters ──

  /** Reading `k = v`. */
  lemma AssignmentRead(fl: IsFloat, attrs: seq<Attr>, k: string, v: string)
    requires Trimmed(k) && Trimmed(v) && '=' !in k
    ensures ParseAttr(fl, attrs, k + ([' '] + (['='] + ([' '] + v)))) ==
            Put(attrs, if StartsWith(k, "\"") && EndsWith(k, "\"") then Inner(k) else k, ParseValue(fl, v))
  {
    var p := k + ([' '] + (['='] + ([' '] + v)));
    InkAfter([' '], v);
    InkBefore(k, [' '] + (['='] + ([' '] + v)));
    StripTrimmed(p);
    assert p == (k + [' ']) + (['='] + ([' '] + v));
    CutAt(k + [' '], '=', [' '] + v);
    StripTrimmed(k);
    StripTrimmed(v);
  }

  /** Quoting an attribute's key changes nothing. */
  lemma QuotedKeyRead(fl: IsFloat, attrs: seq<Attr>, k: string, v: Value)
    requires RejectsWords(fl) && PlainText(k) && ValueOk(fl, v)
    ensures ParseAttr(fl, attrs, PrintAttr((Quoted(k), v))) == ParseAttr(fl, attrs, PrintAttr((k, v)))
  {
    AttrReread(fl, attrs, (k, v));
    ValuePrinted(fl, v);
    ValueReread(fl, v);
    StartsQuoted(k);
    AssignmentRead(fl, attrs, Quoted(k), PrintValue(v));
  }

  const LOWER_WORDS: seq<string> := ["true", "false", "none"]

  lemma LowerWord(fl: IsFloat, s: string)
    requires s in LOWER_WORDS
    ensures Trimmed(s) && Closed(COMMA, s) && Strip(s) == s
  {
    assert PlainText(s);
    PlainTrimmed(s);
    PlainPasses(s, START);
    StripTrimmed(s);
  }

  /** A list that spells booleans and None the MLIR way is read as such: what is lost is lost in printing. */
  lemma LowerWordsRead(fl: IsFloat)
    ensures ParseValue(fl, ['['] + (Join(LOWER_WORDS) + [']'])) == VList([IBool(true), IBool(false), INone])
  {
    var words := LOWER_WORDS;
    forall i | 0 <= i < |words| ensures Trimmed(words[i]) && Closed(COMMA, words[i]) {
      LowerWord(fl, words[i]);
    }
    ListShape(Join(words));
    SplitOutsideJoined(COMMA, words, []);
    NonEmptyAll(words);
    LowerItems(fl);
  }

  lemma LowerItems(fl: IsFloat)
    ensures ParseItems(fl, LOWER_WORDS) == [IBool(true), IBool(false), INone]
  {
    LowerWord(fl, "true");
    LowerWord(fl, "false");
    LowerWord(fl, "none");
  }

  lemma {:induction false} NotDigits(s: string, c: char)
    requires c in s && !IsDigit(c)
    ensures ParseNat(s).None?
  {
    var m := |s| - 1;
    if IsDigit(s[m]) && m > 0 {
      assert c in s[..m];
      NotDigits(s[..m], c);
    }
  }

  lemma NotANat(s: string, c: char)
    requires c in s && !IsDigit(c) && c != '-'
    ensures ParseInt(s).None?
  {
    NotDigits(s, c);
    if s[0] == '-' {
      assert c in s[1..];
      NotDigits(s[1..], c);
    }
  }

  /** A quote or bracket on one side only is part of the text. */
  lemma UnclosedKept(fl: IsFloat, s: string, c: char)
    requires PlainText(s) && c in {'"', '[', ']'} && !fl([c] + s) && !fl(s + [c])
    ensures ParseValue(fl, [c] + s) == VStr([c] + s) && ParseValue(fl, s + [c]) == VStr(s + [c])
    ensures ParseItem(fl, [c] + s) == IStr([c] + s) && ParseItem(fl, s + [c]) == IStr(s + [c])
  {
    assert s[0] in s && s[|s| - 1] in s;
    UnclosedText(fl, [c] + s, c);
    UnclosedText(fl, s + [c], c);
  }

  lemma Ends(v: string, c: char)
    requires |v| > 0
    ensures StartsWith(v, [c]) <==> v[0] == c
    ensures EndsWith(v, [c]) <==> v[|v| - 1] == c
  {
    assert v[..1] == [v[0]] && v[|v| - 1..] == [v[|v| - 1]];
  }

  /** `c` is at one end of the text, and no other quote or bracket is. */
  lemma UnclosedText(fl: IsFloat, v: string, c: char)
    requires |v| > 1 && c in {'"', '[', ']'} && !fl(v) && ' ' !in v && Trimmed(v)
    requires (v[0] == c && IsPlain(v[|v| - 1])) || (IsPlain(v[0]) && v[|v| - 1] == c)
    ensures ParseValue(fl, v) == VStr(v) && ParseItem(fl, v) == IStr(v)
  {
    assert c in v;
    NotANat(v, c);
    NoSpaceNoCut(v, " : ");
    StripTrimmed(v);
    NoWordWith(v, c);
    Ends(v, '"');
    Ends(v, '[');
    Ends(v, ']');
  }

  lemma NoWordWith(v: string, c: char)
    requires c in v && c in {'"', '[', ']'}
    ensures v != "true" && v != "false" && v != "none"
  {
  }

  lemma OneType(t: string)
    requires TypeOk(t)
    ensures Strip(t) == t && Strip(t + [' ']) == t && Strip([' '] + t) == t && !StartsWith(t, "(") && t != []
    ensures ParseTypeList(t) == [t] && NoDots([t]) == [t]
  {
    StripTrimmed(t);
    OutBack([t]);
    NoDotsSame([t]);
    Ends(t, '(');
  }

  lemma NoArrow(t: string)
    requires '-' !in t
    ensures CutText(t, "->").None?
  {
    CutTextFirst(t, "->");
    if CutText(t, "->").Some? {
      OccursHas(t, "->", |CutText(t, "->").value.0|);
    }
  }

  lemma SignatureCut(ins: string, out: string)
    requires '-' !in ins && TypeOk(out) && !StartsWith(Strip(ins), "(")
    ensures ParseTypes(ins + ("->" + ([' '] + out))) == (NoDots(if Strip(ins) != [] then [Strip(ins)] else []), [out])
  {
    CutTextAt(ins, "->", [' '] + out);
    OneType(out);
  }

  /** A signature may give its single input without parentheses, or no input, or no arrow. */
  lemma BareInputRead(a: string, out: string)
    requires TypeOk(a) && TypeOk(out)
    ensures ParseTypes((a + [' ']) + ("->" + ([' '] + out))) == ([a], [out])
    ensures ParseTypes([' '] + ("->" + ([' '] + out))) == ([], [out])
    ensures ParseTypes(out) == ([], [out])
  {
    OneType(a);
    SignatureCut(a + [' '], out);
    NoInput();
    SignatureCut([' '], out);
    NoArrow(out);
  }

  lemma NoInput()
    ensures Strip([' ']) == [] && !StartsWith([], "(")
  {
    assert [' '][1..] == [];
  }
}
