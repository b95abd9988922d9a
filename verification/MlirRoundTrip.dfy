/** What parsing a printed operation gives, and exactly when it is the operation again. */
module MlirRoundTrip {
  import opened Options
  import opened Text
  import opened MlirText

  // ── What can be printed faithfully ──

  predicate IsPlain(c: char) {
    c !in {' ', '\t', '\n', '\r', ',', ';', '=', '"', '(', ')', '{', '}', '[', ']', '<', '>', ':'}
  }

  /** Names and attribute keys: not empty, no delimiter. */
  ghost predicate PlainText(s: string) { s != [] && forall c | c in s :: IsPlain(c) }

  ghost predicate AllPlain(names: seq<string>) { forall i | 0 <= i < |names| :: PlainText(names[i]) }

  /** Texts that float() turns down. */
  ghost predicate RejectsWords(fl: IsFloat) {
    !fl("true") && !fl("false") && !fl("none") && !fl("True") && !fl("False") && !fl("None")
  }

  ghost predicate FloatText(fl: IsFloat, t: string) { PlainText(t) && ParseInt(t).None? && fl(t) }

  /** List items that cannot be taken for delimiters. */
  ghost predicate ItemOk(fl: IsFloat, v: Item) {
    match v
    case IStr(s) => forall c | c in s :: c !in {'"', ',', '<', '>', '(', ')', '}'}
    case IFloat(t) => FloatText(fl, t)
    case _ => true
  }

  ghost predicate ItemsOk(fl: IsFloat, items: seq<Item>) { forall i | 0 <= i < |items| :: ItemOk(fl, items[i]) }

  /** Values that cannot be taken for delimiters: no quote or closing brace in strings. */
  ghost predicate ValueOk(fl: IsFloat, v: Value) {
    match v
    case VStr(s) => '"' !in s && '}' !in s
    case VFloat(t) => FloatText(fl, t)
    case VList(items) => ItemsOk(fl, items)
    case _ => true
  }

  // ── What comes back ──

  /** A string is read as itself, unless it looks like a typed number: then as what comes before the type. */
  function StringReread(fl: IsFloat, s: string): Number {
    match CutText(s, " : ") case None => NotANumber(s) case Some((a, _)) => ParseNumber(fl, a)
  }

  function ItemOf(n: Number): Item {
    match n case Int(i) => IInt(i) case Float(t) => IFloat(t) case NotANumber(t) => IStr(t)
  }

  function ValueOf(n: Number): Value {
    match n case Int(i) => VInt(i) case Float(t) => VFloat(t) case NotANumber(t) => VStr(t)
  }

  /** Booleans and None in a list are printed as Python words and come back as strings. */
  function RereadItem(fl: IsFloat, v: Item): Item {
    match v
    case IBool(b) => IStr(if b then "True" else "False")
    case INone => IStr("None")
    case IStr(s) => ItemOf(StringReread(fl, s))
    case _ => v
  }

  function RereadItems(fl: IsFloat, items: seq<Item>): seq<Item> {
    seq(|items|, i requires 0 <= i < |items| => RereadItem(fl, items[i]))
  }

  function RereadValue(fl: IsFloat, v: Value): Value {
    match v
    case VList(items) => VList(RereadItems(fl, items))
    case VStr(s) => ValueOf(StringReread(fl, s))
    case _ => v
  }

  function RereadAttr(fl: IsFloat, a: Attr): Attr { (a.0, RereadValue(fl, a.1)) }

  function RereadAttrs(fl: IsFloat, attrs: seq<Attr>): seq<Attr> {
    seq(|attrs|, i requires 0 <= i < |attrs| => RereadAttr(fl, attrs[i]))
  }

  /** No " : ", as it would stand before a type. */
  predicate Untypable(s: string) { CutText(s, " : ").None? }

  predicate ItemSurvives(v: Item) { !v.IBool? && !v.INone? && (v.IStr? ==> Untypable(v.s)) }

  /** No boolean and no None in a list, and no string that looks typed. */
  predicate Survives(v: Value) {
    && (v.VStr? ==> Untypable(v.s))
    && (v.VList? ==> forall i | 0 <= i < |v.items| :: ItemSurvives(v.items[i]))
  }

  predicate AllSurvive(attrs: seq<Attr>) { forall i | 0 <= i < |attrs| :: Survives(attrs[i].1) }

  lemma StringSame(fl: IsFloat, s: string)
    ensures StringReread(fl, s) == NotANumber(s) <==> Untypable(s)
  {
    if !Untypable(s) {
      CutTextParts(s, " : ");
    }
  }

  lemma ItemSame(fl: IsFloat, v: Item)
    ensures RereadItem(fl, v) == v <==> ItemSurvives(v)
  {
    if v.IStr? {
      StringSame(fl, v.s);
    }
  }

  lemma RereadSame(fl: IsFloat, v: Value)
    ensures RereadValue(fl, v) == v <==> Survives(v)
  {
    match v
    case VStr(s) => StringSame(fl, s);
    case VList(items) =>
      forall i | 0 <= i < |items| ensures RereadItem(fl, items[i]) == items[i] <==> ItemSurvives(items[i]) {
        ItemSame(fl, items[i]);
      }
      if RereadItems(fl, items) == items {
        forall i | 0 <= i < |items| ensures ItemSurvives(items[i]) {
          assert RereadItems(fl, items)[i] == items[i];
        }
      }
    case _ =>
  }

  lemma RereadAttrsSame(fl: IsFloat, attrs: seq<Attr>)
    ensures RereadAttrs(fl, attrs) == attrs <==> AllSurvive(attrs)
  {
    forall i | 0 <= i < |attrs| ensures RereadAttr(fl, attrs[i]) == attrs[i] <==> Survives(attrs[i].1) {
      RereadSame(fl, attrs[i].1);
    }
    if RereadAttrs(fl, attrs) == attrs {
      forall i | 0 <= i < |attrs| ensures Survives(attrs[i].1) {
        assert RereadAttrs(fl, attrs)[i] == attrs[i];
      }
    }
  }

  ghost predicate AttrsOk(fl: IsFloat, attrs: seq<Attr>) {
    && (forall i | 0 <= i < |attrs| :: PlainText(attrs[i].0) && ValueOk(fl, attrs[i].1))
    && forall i, j | 0 <= i < j < |attrs| :: attrs[i].0 != attrs[j].0
  }

  /** Types may nest brackets and commas; top-level commas, a leading parenthesis, colons, dashes and
      opening braces would be taken for delimiters. */
  ghost predicate TypeOk(t: string) {
    Trimmed(t) && t[0] != '(' && ':' !in t && '-' !in t && '{' !in t && Closed(COMMA, t) && t != "..."
  }

  ghost predicate TypesOk(types: seq<string>) { forall i | 0 <= i < |types| :: TypeOk(types[i]) }

  // ── Passing over text ──

  lemma {:induction false} Idle(x: Syntax, p: string, st: Scan)
    requires forall c | c in p :: Next(x, st, c) == st && !Separates(x, st, c)
    ensures Quiet(x, p, st) && Passed(x, p, st) == st
    decreases p
  {
    if p != [] {
      assert p[0] in p;
      assert forall c | c in p[1..] :: c in p;
      Idle(x, p[1..], st);
    }
  }

  ghost predicate Passes(x: Syntax, p: string, st: Scan) { Quiet(x, p, st) && Passed(x, p, st) == st }

  lemma PassesBoth(x: Syntax, a: string, b: string, st: Scan)
    requires Passes(x, a, st) && Passes(x, b, st)
    ensures Passes(x, a + b, st)
  {
    PassConcat(x, a, b, st);
  }

  lemma {:induction false} JoinPasses(x: Syntax, parts: seq<string>, st: Scan)
    requires (forall i | 0 <= i < |parts| :: Passes(x, parts[i], st)) && Passes(x, [','] + [' '], st)
    ensures Passes(x, Join(parts), st)
    decreases parts
  {
    if |parts| > 1 {
      assert forall i | 0 <= i < |parts| - 1 :: parts[1..][i] == parts[i + 1];
      JoinPasses(x, parts[1..], st);
      PassesBoth(x, [','] + [' '], Join(parts[1..]), st);
      PassesBoth(x, parts[0], ([','] + [' ']) + Join(parts[1..]), st);
      assert Join(parts) == parts[0] + (([','] + [' ']) + Join(parts[1..]));
    }
  }

  /** A bracketed or quoted text passes if its inside does, one level in. */
  lemma Wrapped(x: Syntax, open: char, p: string, close: char, st: Scan, within: Scan)
    requires Next(x, st, open) == within && !Separates(x, within, open) && Passes(x, p, within)
    requires Next(x, within, close) == st && !Separates(x, st, close)
    ensures Passes(x, [open] + (p + [close]), st)
  {
    assert Passed(x, [open], st) == within && Quiet(x, [open], st);
    assert Passed(x, [close], within) == st && Quiet(x, [close], within);
    PassConcat(x, p, [close], within);
    PassConcat(x, [open], p + [close], st);
  }

  lemma QuotedPasses(s: string, depth: int)
    requires '"' !in s
    ensures Passes(ATTRS, Quoted(s), Scan(depth, false))
  {
    Idle(ATTRS, s, Scan(depth, true));
    Wrapped(ATTRS, '"', s, '"', Scan(depth, false), Scan(depth, true));
  }

  lemma NumericPlain(s: string)
    requires Numeric(s) && s != []
    ensures PlainText(s)
  {
  }

  lemma PlainPasses(s: string, st: Scan)
    requires PlainText(s) && !st.quoted
    ensures Passes(ATTRS, s, st) && Passes(COMMA, s, st)
  {
    Idle(ATTRS, s, st);
    Idle(COMMA, s, st);
  }

  lemma PlainTrimmed(s: string)
    requires PlainText(s)
    ensures Trimmed(s)
  {
    assert s[0] in s && s[|s| - 1] in s;
  }

  // ── List items ──

  lemma PlainItem(s: string)
    requires PlainText(s)
    ensures Trimmed(s) && '}' !in s && Passes(ATTRS, s, Scan(1, false)) && Closed(COMMA, s)
  {
    PlainTrimmed(s);
    PlainPasses(s, Scan(1, false));
    PlainPasses(s, START);
  }

  lemma ItemPrinted(fl: IsFloat, v: Item)
    requires ItemOk(fl, v)
    ensures Trimmed(PrintItem(v)) && '}' !in PrintItem(v)
    ensures Passes(ATTRS, PrintItem(v), Scan(1, false)) && Closed(COMMA, PrintItem(v))
  {
    match v
    case IStr(s) =>
      QuotedPasses(s, 1);
      Idle(COMMA, Quoted(s), START);
    case IInt(i) =>
      IntBack(i);
      NumericPlain(IntText(i));
      PlainItem(IntText(i));
    case IFloat(t) => PlainItem(t);
    case _ =>
      PythonWord(v);
      PlainItem(PrintItem(v));
  }

  lemma StartsQuoted(s: string)
    ensures StartsWith(Quoted(s), "\"") && EndsWith(Quoted(s), "\"") && Inner(Quoted(s)) == s
    ensures Quoted(s) != "true" && Quoted(s) != "false" && Quoted(s) != "none"
    ensures Trimmed(Quoted(s)) && !StartsWith(Quoted(s), "[")
  {
    InnerOf('"', s, '"');
    assert Quoted(s)[0] == '"';
  }

  lemma PlainNotQuoted(s: string)
    requires PlainText(s)
    ensures !StartsWith(s, "\"") && !StartsWith(s, "[")
  {
    assert s[0] in s;
    assert s[..1][0] == s[0];
  }

  lemma {:induction false} NoSpaceNoCut(s: string, pat: string)
    requires pat != [] && pat[0] !in s
    ensures CutText(s, pat).None?
  {
    if s != [] {
      assert s[0] in s;
      assert |pat| <= |s| ==> s[..|pat|][0] == s[0];
      assert forall c | c in s[1..] :: c in s;
      NoSpaceNoCut(s[1..], pat);
    }
  }

  lemma NumericIsNoWord(s: string)
    requires Numeric(s) && s != []
    ensures s[0] != 't' && s[0] != 'f' && s[0] != 'n'
  {
    assert s[0] in s;
  }

  /** A plain word in a list is read as a number if it is one, else as a string. */
  lemma WordRead(fl: IsFloat, s: string)
    requires PlainText(s) && s != "true" && s != "false" && s != "none"
    ensures ParseItem(fl, s) == match ParseNumber(fl, s)
                                case Int(i) => IInt(i)
                                case Float(t) => IFloat(t)
                                case NotANumber(t) => IStr(t)
  {
    PlainTrimmed(s);
    StripTrimmed(s);
    PlainNotQuoted(s);
    NoSpaceNoCut(s, " : ");
  }

  lemma TrueIsAWord()
    ensures PlainText("True") && ParseInt("True").None?
  {
    assert ParseNat("True").None?;
  }

  lemma FalseIsAWord()
    ensures PlainText("False") && ParseInt("False").None?
  {
    assert ParseNat("False").None?;
  }

  lemma NoneIsAWord()
    ensures PlainText("None") && ParseInt("None").None?
  {
    assert ParseNat("None").None?;
  }

  /** How Python prints booleans and None. */
  lemma PythonWord(v: Item)
    requires v.IBool? || v.INone?
    ensures PlainText(PrintItem(v)) && ParseInt(PrintItem(v)).None?
  {
    TrueIsAWord();
    FalseIsAWord();
    NoneIsAWord();
  }

  lemma PythonWordRead(fl: IsFloat, v: Item)
    requires RejectsWords(fl) && (v.IBool? || v.INone?)
    ensures ParseItem(fl, PrintItem(v)) == IStr(PrintItem(v))
  {
    var s := PrintItem(v);
    PythonWord(v);
    assert s != "true" && s != "false" && s != "none" && !fl(s);
    WordRead(fl, s);
  }

  /** What a printed list item is read as. */
  lemma ItemReread(fl: IsFloat, v: Item)
    requires RejectsWords(fl) && ItemOk(fl, v)
    ensures ParseItem(fl, PrintItem(v)) == RereadItem(fl, v)
  {
    match v
    case IStr(s) => StringRead(fl, s);
    case IInt(i) => IntRead(fl, i);
    case IFloat(t) => FloatRead(fl, t);
    case IBool(b) => PythonWordRead(fl, v);
    case INone => PythonWordRead(fl, v);
  }

  lemma StringRead(fl: IsFloat, s: string)
    ensures ParseItem(fl, Quoted(s)) == ItemOf(StringReread(fl, s))
  {
    StartsQuoted(s);
    StripTrimmed(Quoted(s));
  }

  lemma FloatRead(fl: IsFloat, t: string)
    requires RejectsWords(fl) && FloatText(fl, t)
    ensures ParseItem(fl, t) == IFloat(t)
  {
    WordRead(fl, t);
  }

  lemma IntRead(fl: IsFloat, i: int)
    ensures ParseItem(fl, IntText(i)) == IInt(i)
  {
    IntBack(i);
    NumericPlain(IntText(i));
    NumericIsNoWord(IntText(i));
    WordRead(fl, IntText(i));
  }

  /** A list item comes back exactly when it is neither a boolean nor None nor a string that looks typed. */
  lemma ItemBackIff(fl: IsFloat, v: Item)
    requires RejectsWords(fl) && ItemOk(fl, v)
    ensures ParseItem(fl, PrintItem(v)) == v <==> ItemSurvives(v)
  {
    ItemReread(fl, v);
    ItemSame(fl, v);
  }

  lemma {:induction false} NonEmptyAll(parts: seq<string>)
    requires AllTrimmed(parts)
    ensures NonEmpty(parts) == parts
  {
    if parts != [] {
      StripTrimmed(parts[0]);
      assert forall i | 0 <= i < |parts| - 1 :: parts[1..][i] == parts[i + 1];
      NonEmptyAll(parts[1..]);
    }
  }

  lemma ItemsPrinted(fl: IsFloat, items: seq<Item>)
    requires ItemsOk(fl, items)
    ensures AllTrimmed(PrintItems(items)) && AllClosed(COMMA, PrintItems(items)) && Without(PrintItems(items), '}')
    ensures Passes(ATTRS, Join(PrintItems(items)), Scan(1, false))
  {
    var parts := PrintItems(items);
    forall i | 0 <= i < |parts|
      ensures Trimmed(parts[i]) && Closed(COMMA, parts[i]) && '}' !in parts[i]
              && Passes(ATTRS, parts[i], Scan(1, false))
    {
      ItemPrinted(fl, items[i]);
    }
    Idle(ATTRS, [','] + [' '], Scan(1, false));
    JoinPasses(ATTRS, parts, Scan(1, false));
  }

  lemma ItemsReread(fl: IsFloat, items: seq<Item>)
    requires RejectsWords(fl) && ItemsOk(fl, items)
    ensures ParseItems(fl, NonEmpty(SplitOutside(COMMA, Join(PrintItems(items)), START, []))) == RereadItems(fl, items)
  {
    var parts := PrintItems(items);
    ItemsPrinted(fl, items);
    SplitOutsideJoined(COMMA, parts, []);
    NonEmptyAll(parts);
    forall i | 0 <= i < |items| ensures ParseItem(fl, parts[i]) == RereadItem(fl, items[i]) {
      ItemReread(fl, items[i]);
    }
  }

  // ── Values ──

  lemma TypedNumber(s: string, t: string)
    requires PlainText(s) && PlainText(t)
    ensures var v := s + (" : " + t);
            && CutText(v, " : ") == Some((s, t)) && v != [] && v[0] == s[0] && |v| > |s| + 3
            && !StartsWith(v, "\"") && !StartsWith(v, "[") && Trimmed(v)
  {
    var v := s + (" : " + t);
    CutTextAt(s, " : ", t);
    PlainTrimmed(s);
    PlainTrimmed(t);
    assert v[..1][0] == s[0] && s[0] in s;
    assert v[|v| - 1] == t[|t| - 1];
  }

  lemma TypedPasses(s: string, t: string)
    requires PlainText(s) && PlainText(t)
    ensures Passes(ATTRS, s + (" : " + t), START) && '}' !in s + (" : " + t)
  {
    Idle(ATTRS, s + (" : " + t), START);
  }

  lemma TypedIsNoWord(v: string)
    requires CutText(v, " : ").Some?
    ensures v != "true" && v != "false" && v != "none"
  {
    if ' ' !in v {
      NoSpaceNoCut(v, " : ");
    }
    assert ' ' in v && ' ' !in "true" && ' ' !in "false" && ' ' !in "none";
  }

  lemma ListShape(s: string)
    ensures var v := ['['] + (s + [']']);
            && StartsWith(v, "[") && EndsWith(v, "]") && Inner(v) == s && !StartsWith(v, "\"") && Trimmed(v)
            && v != "true" && v != "false" && v != "none"
  {
    var v := ['['] + (s + [']']);
    InnerOf('[', s, ']');
    assert v[0] == '[' && v[..1][0] == '[' && v[|v| - 1] == ']';
  }

  lemma {:induction false} JoinWithout(parts: seq<string>, c: char)
    requires Without(parts, c) && c != ',' && c != ' '
    ensures c !in Join(parts)
  {
    if |parts| > 1 {
      assert forall i | 0 <= i < |parts| - 1 :: parts[1..][i] == parts[i + 1];
      JoinWithout(parts[1..], c);
    }
  }

  /** What a printed value looks like to the attribute splitter. */
  ghost predicate ValueText(t: string) { Trimmed(t) && Passes(ATTRS, t, START) && '}' !in t }

  lemma ValuePrinted(fl: IsFloat, v: Value)
    requires ValueOk(fl, v)
    ensures ValueText(PrintValue(v))
  {
    match v
    case VInt(i) =>
      IntBack(i);
      NumericPlain(IntText(i));
      TypedNumber(IntText(i), "i64");
      TypedPasses(IntText(i), "i64");
    case VFloat(t) =>
      TypedNumber(t, "f64");
      TypedPasses(t, "f64");
    case VStr(s) =>
      StartsQuoted(s);
      QuotedPasses(s, 0);
    case VBool(b) => WordsPrinted();
    case VNone => WordsPrinted();
    case VList(items) =>
      ListPrinted(fl, items);
  }

  lemma PlainValueText(s: string)
    requires PlainText(s)
    ensures ValueText(s)
  {
    PlainTrimmed(s);
    PlainPasses(s, START);
  }

  lemma WordsPrinted()
    ensures ValueText("true") && ValueText("false") && ValueText("none")
  {
    PlainValueText("true");
    PlainValueText("false");
    PlainValueText("none");
  }

  lemma ListPrinted(fl: IsFloat, items: seq<Item>)
    requires ItemsOk(fl, items)
    ensures ValueText(PrintValue(VList(items)))
  {
    var s := Join(PrintItems(items));
    ItemsPrinted(fl, items);
    JoinWithout(PrintItems(items), '}');
    ListShape(s);
    Wrapped(ATTRS, '[', s, ']', START, Scan(1, false));
  }

  /** What a printed value is read as. */
  lemma ValueReread(fl: IsFloat, v: Value)
    requires RejectsWords(fl) && ValueOk(fl, v)
    ensures ParseValue(fl, PrintValue(v)) == RereadValue(fl, v)
  {
    match v
    case VInt(i) =>
      IntBack(i);
      NumericPlain(IntText(i));
      TypedNumber(IntText(i), "i64");
      TypedIsNoWord(PrintValue(v));
    case VFloat(t) =>
      TypedNumber(t, "f64");
      TypedIsNoWord(PrintValue(v));
    case VStr(s) =>
      StartsQuoted(s);
    case VBool(_) =>
    case VNone =>
    case VList(items) =>
      ListShape(Join(PrintItems(items)));
      ItemsReread(fl, items);
  }

  /** An attribute value comes back exactly when no list in it holds a boolean or None and no string in it looks
      typed. */
  lemma ValueBackIff(fl: IsFloat, v: Value)
    requires RejectsWords(fl) && ValueOk(fl, v)
    ensures ParseValue(fl, PrintValue(v)) == v <==> Survives(v)
  {
    ValueReread(fl, v);
    RereadSame(fl, v);
  }

  // ── Attributes ──

  lemma AssignmentPasses(k: string, t: string)
    requires PlainText(k) && Passes(ATTRS, t, START)
    ensures Passes(ATTRS, k + ([' '] + (['='] + ([' '] + t))), START)
  {
    Idle(ATTRS, [' '], START);
    Idle(ATTRS, ['='], START);
    PlainPasses(k, START);
    PassesBoth(ATTRS, [' '], t, START);
    PassesBoth(ATTRS, ['='], [' '] + t, START);
    PassesBoth(ATTRS, [' '], ['='] + ([' '] + t), START);
    PassesBoth(ATTRS, k, [' '] + (['='] + ([' '] + t)), START);
  }

  lemma AssignmentTrimmed(k: string, t: string)
    requires PlainText(k) && Trimmed(t) && '}' !in t
    ensures var p := k + ([' '] + (['='] + ([' '] + t))); Trimmed(p) && '}' !in p
  {
    var p := k + ([' '] + (['='] + ([' '] + t)));
    PlainTrimmed(k);
    assert p[0] == k[0] && p[|p| - 1] == t[|t| - 1];
  }

  lemma AttrPrinted(fl: IsFloat, a: Attr)
    requires PlainText(a.0) && ValueOk(fl, a.1)
    ensures ValueText(PrintAttr(a))
  {
    ValuePrinted(fl, a.1);
    AssignmentPasses(a.0, PrintValue(a.1));
    AssignmentTrimmed(a.0, PrintValue(a.1));
  }

  lemma AttrReread(fl: IsFloat, attrs: seq<Attr>, a: Attr)
    requires RejectsWords(fl) && PlainText(a.0) && ValueOk(fl, a.1)
    ensures ParseAttr(fl, attrs, PrintAttr(a)) == Put(attrs, a.0, RereadValue(fl, a.1))
  {
    var p, t := PrintAttr(a), PrintValue(a.1);
    AttrPrinted(fl, a);
    StripTrimmed(p);
    assert p == (a.0 + [' ']) + (['='] + ([' '] + t));
    CutAt(a.0 + [' '], '=', [' '] + t);
    PlainTrimmed(a.0);
    StripTrimmed(a.0);
    ValuePrinted(fl, a.1);
    StripTrimmed(t);
    PlainNotQuoted(a.0);
    ValueReread(fl, a.1);
  }

  lemma {:induction false} PutNew(attrs: seq<Attr>, k: string, v: Value)
    requires forall i | 0 <= i < |attrs| :: attrs[i].0 != k
    ensures Put(attrs, k, v) == attrs + [(k, v)]
  {
    if attrs != [] {
      assert forall i | 0 <= i < |attrs| - 1 :: attrs[1..][i] == attrs[i + 1];
      PutNew(attrs[1..], k, v);
    }
  }

  lemma PartReread(fl: IsFloat, attrs: seq<Attr>, n: nat)
    requires RejectsWords(fl) && AttrsOk(fl, attrs) && n < |attrs|
    ensures ParseAttr(fl, RereadAttrs(fl, attrs)[..n], PrintAttr(attrs[n])) == RereadAttrs(fl, attrs)[..n + 1]
  {
    AttrReread(fl, RereadAttrs(fl, attrs)[..n], attrs[n]);
    PutNext(RereadAttrs(fl, attrs), n);
  }

  lemma PutNext(attrs: seq<Attr>, n: nat)
    requires n < |attrs| && forall i | 0 <= i < n :: attrs[i].0 != attrs[n].0
    ensures Put(attrs[..n], attrs[n].0, attrs[n].1) == attrs[..n + 1]
  {
    PutNew(attrs[..n], attrs[n].0, attrs[n].1);
    assert attrs[..n + 1] == attrs[..n] + [attrs[n]];
  }

  lemma PartsNext(fl: IsFloat, parts: seq<string>, n: nat)
    requires n < |parts|
    ensures ParseParts(fl, parts[..n + 1]) == ParseAttr(fl, ParseParts(fl, parts[..n]), parts[n])
  {
    assert parts[..n + 1][..n] == parts[..n];
  }

  lemma NoParts(fl: IsFloat, parts: seq<string>, attrs: seq<Attr>)
    ensures ParseParts(fl, parts[..0]) == attrs[..0]
  {
    assert parts[..0] == [] && attrs[..0] == [];
  }

  lemma {:induction false} PartsReread(fl: IsFloat, attrs: seq<Attr>, n: nat)
    requires RejectsWords(fl) && AttrsOk(fl, attrs) && n <= |attrs|
    ensures ParseParts(fl, PrintAttrs(attrs)[..n]) == RereadAttrs(fl, attrs)[..n]
    decreases n
  {
    if n == 0 {
      NoParts(fl, PrintAttrs(attrs), RereadAttrs(fl, attrs));
    } else {
      PartsReread(fl, attrs, n - 1);
      PartsStep(fl, attrs, PrintAttrs(attrs), n - 1);
    }
  }

  lemma PartsStep(fl: IsFloat, attrs: seq<Attr>, parts: seq<string>, n: nat)
    requires RejectsWords(fl) && AttrsOk(fl, attrs) && n < |attrs| && parts == PrintAttrs(attrs)
    requires ParseParts(fl, parts[..n]) == RereadAttrs(fl, attrs)[..n]
    ensures ParseParts(fl, parts[..n + 1]) == RereadAttrs(fl, attrs)[..n + 1]
  {
    PartsNext(fl, parts, n);
    PartReread(fl, attrs, n);
  }

  lemma {:induction false} JoinTrimmed(parts: seq<string>)
    requires parts != [] && AllTrimmed(parts)
    ensures Trimmed(Join(parts))
  {
    if |parts| > 1 {
      assert forall i | 0 <= i < |parts| - 1 :: parts[1..][i] == parts[i + 1];
      JoinTrimmed(parts[1..]);
      var j, rest := Join(parts), Join(parts[1..]);
      assert j[0] == parts[0][0] && j[|j| - 1] == rest[|rest| - 1];
    }
  }

  lemma AttrsPrinted(fl: IsFloat, attrs: seq<Attr>)
    requires AttrsOk(fl, attrs)
    ensures AllTrimmed(PrintAttrs(attrs)) && AllClosed(ATTRS, PrintAttrs(attrs)) && '}' !in Join(PrintAttrs(attrs))
  {
    var parts := PrintAttrs(attrs);
    forall i | 0 <= i < |parts| ensures ValueText(parts[i]) {
      AttrPrinted(fl, attrs[i]);
    }
    JoinWithout(parts, '}');
  }

  lemma AttrsSplit(fl: IsFloat, attrs: seq<Attr>)
    requires AttrsOk(fl, attrs) && attrs != []
    ensures Strip(Join(PrintAttrs(attrs))) != []
    ensures SplitOutside(ATTRS, Join(PrintAttrs(attrs)), START, []) == PrintAttrs(attrs)
  {
    var parts := PrintAttrs(attrs);
    AttrsPrinted(fl, attrs);
    JoinTrimmed(parts);
    StripTrimmed(Join(parts));
    SplitOutsideJoined(ATTRS, parts, []);
  }

  /** What a printed attribute block is read as, in order. */
  lemma AttrsReread(fl: IsFloat, attrs: seq<Attr>)
    requires RejectsWords(fl) && AttrsOk(fl, attrs) && attrs != []
    ensures ParseAttrs(fl, Join(PrintAttrs(attrs))) == RereadAttrs(fl, attrs)
  {
    var parts := PrintAttrs(attrs);
    AttrsSplit(fl, attrs);
    PartsReread(fl, attrs, |attrs|);
    assert parts[..|attrs|] == parts && RereadAttrs(fl, attrs)[..|attrs|] == RereadAttrs(fl, attrs);
  }

  lemma TailReread(fl: IsFloat, attrs: seq<Attr>, sig: string)
    requires RejectsWords(fl) && AttrsOk(fl, attrs) && '{' !in sig
    ensures ParseTail(fl, AttrText(attrs) + sig) == Some(RereadAttrs(fl, attrs))
  {
    if attrs == [] {
      assert AttrText(attrs) + sig == sig && RereadAttrs(fl, attrs) == [];
    } else {
      AttrsPrinted(fl, attrs);
      TailCuts(Join(PrintAttrs(attrs)), sig);
      AttrsReread(fl, attrs);
    }
  }

  lemma TailCuts(j: string, sig: string)
    requires '}' !in j
    ensures var tail := ([' '] + (['{'] + (j + ['}']))) + sig;
            Cut(tail, '{') == Some(([' '], j + (['}'] + sig))) && Cut(j + (['}'] + sig), '}') == Some((j, sig))
  {
    var rest := j + (['}'] + sig);
    assert ([' '] + (['{'] + (j + ['}']))) + sig == [' '] + (['{'] + rest);
    CutAt([' '], '{', rest);
    CutAt(j, '}', sig);
  }

  // ── Types ──

  lemma TypesTrimmed(types: seq<string>)
    requires TypesOk(types)
    ensures AllTrimmed(types) && AllClosed(COMMA, types) && Without(types, ':') && Without(types, '-')
            && Without(types, '{')
    ensures StripAll(types) == types
  {
    forall i | 0 <= i < |types| ensures Strip(types[i]) == types[i] && TypeOk(types[i]) {
      StripTrimmed(types[i]);
    }
  }

  lemma {:induction false} NoDotsSame(types: seq<string>)
    requires TypesOk(types)
    ensures NoDots(types) == types
  {
    if types != [] {
      assert TypeOk(types[0]);
      assert forall i | 0 <= i < |types| - 1 :: types[1..][i] == types[i + 1];
      NoDotsSame(types[1..]);
    }
  }

  lemma JoinStart(types: seq<string>)
    requires TypesOk(types) && types != []
    ensures Join(types) != [] && Join(types)[0] == types[0][0] && !StartsWith(Join(types), "(")
  {
    var j := Join(types);
    assert TypeOk(types[0]);
    assert j[0] == types[0][0];
    assert j[..1][0] == j[0];
  }

  lemma TypeListBack(types: seq<string>)
    requires TypesOk(types)
    ensures ParseTypeList(Join(types)) == types
  {
    if types == [] {
      assert Strip(Join(types)) == [];
    } else {
      TypesTrimmed(types);
      JoinTrimmed(types);
      StripTrimmed(Join(types));
      JoinStart(types);
      SplitOutsideJoined(COMMA, types, []);
    }
  }

  lemma WrappedShape(s: string)
    ensures var v := ['('] + (s + [')']);
            Trimmed(v) && StartsWith(v, "(") && EndsWith(v, ")") && Inner(v) == s
  {
    InnerOf('(', s, ')');
  }

  lemma WrappedListBack(types: seq<string>)
    requires TypesOk(types) && types != []
    ensures ParseTypeList(['('] + (Join(types) + [')'])) == types
  {
    var v := ['('] + (Join(types) + [')']);
    WrappedShape(Join(types));
    StripTrimmed(v);
    TypesTrimmed(types);
    JoinStart(types);
    SplitOutsideJoined(COMMA, types, []);
  }

  lemma OutBack(outs: seq<string>)
    requires TypesOk(outs) && outs != []
    ensures ParseTypeList(OutText(outs)) == outs && Trimmed(OutText(outs))
  {
    if |outs| == 1 {
      assert TypeOk(outs[0]) && outs == [outs[0]];
      TypeListBack(outs);
    } else {
      WrappedListBack(outs);
      WrappedShape(Join(outs));
    }
  }

  lemma TypesBack(ins: seq<string>, outs: seq<string>)
    requires TypesOk(ins) && TypesOk(outs) && outs != []
    ensures ParseTypes(TypeText(ins, outs)) == (ins, outs)
  {
    var a := ['('] + (Join(ins) + [')']);
    TypesTrimmed(ins);
    JoinWithout(ins, '-');
    CutTextAt(a + [' '], "->", [' '] + OutText(outs));
    WrappedShape(Join(ins));
    StripTrimmed(a);
    TypeListBack(ins);
    NoDotsSame(ins);
    OutBack(outs);
    StripTrimmed(OutText(outs));
    NoDotsSame(outs);
  }

  lemma TypeTextShape(ins: seq<string>, outs: seq<string>)
    requires TypesOk(ins) && TypesOk(outs) && outs != []
    ensures Trimmed(TypeText(ins, outs)) && ':' !in TypeText(ins, outs) && '{' !in TypeText(ins, outs)
  {
    TypesTrimmed(ins);
    TypesTrimmed(outs);
    JoinWithout(ins, ':');
    JoinWithout(ins, '{');
    JoinWithout(outs, ':');
    JoinWithout(outs, '{');
    OutBack(outs);
    var t, o := TypeText(ins, outs), OutText(outs);
    assert t[0] == '(' && t[|t| - 1] == o[|o| - 1];
    assert ':' !in o && '{' !in o;
  }

  // ── Operations ──

  lemma PlainNames(names: seq<string>)
    requires AllPlain(names)
    ensures AllTrimmed(PrefixAll(names)) && Without(PrefixAll(names), ',') && Without(PrefixAll(names), '=')
            && Without(PrefixAll(names), ')')
    ensures StripPercents(PrefixAll(names)) == StripPercents(names)
  {
    forall i | 0 <= i < |names|
      ensures PlainText(PrefixAll(names)[i]) && Trimmed(PrefixAll(names)[i])
              && StripPercent(Prefixed(names[i])) == StripPercent(names[i])
    {
      assert PlainText(Prefixed(names[i]));
      PlainTrimmed(Prefixed(names[i]));
      StripPrefixed(names[i]);
    }
  }

  lemma NamesBack(names: seq<string>)
    requires AllPlain(names) && names != []
    ensures StripAll(SplitAt(Join(PrefixAll(names)), ',')) == PrefixAll(names)
    ensures Trimmed(Join(PrefixAll(names))) && '=' !in Join(PrefixAll(names)) && ')' !in Join(PrefixAll(names))
  {
    PlainNames(names);
    SplitJoined(PrefixAll(names), []);
    assert [] + Join(PrefixAll(names)) == Join(PrefixAll(names));
    JoinTrimmed(PrefixAll(names));
    JoinWithout(PrefixAll(names), '=');
    JoinWithout(PrefixAll(names), ')');
  }

  lemma OperandsBack(known: map<string, string>, names: seq<string>)
    requires AllPlain(names)
    ensures Resolved(known, NonEmpty(StripAll(SplitAt(Join(PrefixAll(names)), ',')))) == Resolved(known, names)
    ensures ')' !in Join(PrefixAll(names))
  {
    PlainNames(names);
    ResolvedPrefixed(known, names, PrefixAll(names));
    if names == [] {
      NoOperands();
    } else {
      NamesBack(names);
      NonEmptyAll(PrefixAll(names));
    }
  }

  lemma NoOperands()
    ensures NonEmpty(StripAll(SplitAt([], ','))) == []
  {
    assert SplitAt([], ',') == [[]];
    assert StripAll([[]]) == [[]];
    assert NonEmpty([[]]) == [];
  }

  lemma ResolvedPrefixed(known: map<string, string>, names: seq<string>, printed: seq<string>)
    requires |printed| == |names| && StripPercents(printed) == StripPercents(names)
    ensures Resolved(known, printed) == Resolved(known, names)
  {
    forall i | 0 <= i < |names| ensures StripPercent(printed[i]) == StripPercent(names[i]) {
      assert StripPercents(printed)[i] == StripPercents(names)[i];
    }
  }

  /** Plain names, and attributes and types that cannot be taken for delimiters. */
  ghost predicate Printable(fl: IsFloat, op: TextOp) {
    && PlainText(op.name) && (op.dialect, op.opName) == SplitQualified(op.name) && op.opName != "weight"
    && AllPlain(op.results) && AllPlain(op.operands) && AttrsOk(fl, Visible(op.attrs))
    && (op.outTypes != [] ==> TypesOk(op.inTypes) && TypesOk(op.outTypes))
  }

  // ── Operations printed without a signature ──

  /** The printed value holds a colon: a type annotation, or a colon in a string. */
  predicate HasColon(v: Value) {
    match v
    case VInt(_) => true
    case VFloat(_) => true
    case VStr(s) => ':' in s
    case VList(items) => exists i | 0 <= i < |items| :: ColonItem(items[i])
    case _ => false
  }

  predicate ColonItem(v: Item) { v.IStr? && ':' in v.s }

  predicate AnyColon(attrs: seq<Attr>) { exists i | 0 <= i < |attrs| :: HasColon(attrs[i].1) }

  ghost predicate SomeHas(parts: seq<string>, c: char) { exists i | 0 <= i < |parts| :: c in parts[i] }

  lemma {:induction false} JoinHas(parts: seq<string>, c: char)
    requires c != ',' && c != ' '
    ensures c in Join(parts) <==> SomeHas(parts, c)
  {
    if !SomeHas(parts, c) {
      JoinWithout(parts, c);
    } else {
      var i :| 0 <= i < |parts| && c in parts[i];
      JoinHasPart(parts, c, i);
    }
  }

  lemma {:induction false} JoinHasPart(parts: seq<string>, c: char, i: nat)
    requires i < |parts| && c in parts[i]
    ensures c in Join(parts)
  {
    if i > 0 {
      JoinHasPart(parts[1..], c, i - 1);
    }
  }

  lemma ItemColon(fl: IsFloat, v: Item)
    requires ItemOk(fl, v)
    ensures ':' in PrintItem(v) <==> ColonItem(v)
  {
    match v
    case IStr(s) =>
    case IInt(i) => IntBack(i);
    case IFloat(t) =>
    case _ => PythonWord(v);
  }

  lemma ListColon(fl: IsFloat, items: seq<Item>)
    requires ItemsOk(fl, items)
    ensures ':' in PrintValue(VList(items)) <==> HasColon(VList(items))
  {
    var parts := PrintItems(items);
    JoinHas(parts, ':');
    forall i | 0 <= i < |items| ensures ':' in parts[i] <==> ColonItem(items[i]) {
      ItemColon(fl, items[i]);
    }
  }

  lemma ValueColon(fl: IsFloat, v: Value)
    requires ValueOk(fl, v)
    ensures ':' in PrintValue(v) <==> HasColon(v)
  {
    match v
    case VInt(i) => TypedHasColon(IntText(i), "i64");
    case VFloat(t) => TypedHasColon(t, "f64");
    case VList(items) => ListColon(fl, items);
    case _ =>
  }

  lemma TypedHasColon(s: string, t: string)
    ensures ':' in s + (" : " + t)
  {
    var v := s + (" : " + t);
    assert v[|s| + 1] == ':';
  }

  lemma AttrsColon(fl: IsFloat, attrs: seq<Attr>)
    requires AttrsOk(fl, attrs)
    ensures ':' in AttrText(attrs) <==> AnyColon(attrs)
  {
    var parts := PrintAttrs(attrs);
    JoinHas(parts, ':');
    forall i | 0 <= i < |attrs| ensures ':' in parts[i] <==> HasColon(attrs[i].1) {
      ValueColon(fl, attrs[i].1);
    }
  }

  /** A signature read off something that ends in a brace always has an output type. */
  lemma BraceIsAType(t: string)
    requires EndsIn(t, '}')
    ensures ParseTypes(t).1 != []
  {
    match CutText(t, "->")
    case None =>
    case Some((a, b)) =>
      CutTextEnds(t, "->", '}');
      StripEnds(b, '}');
      BraceTypeList(Strip(b));
  }

  lemma BraceTypeList(t: string)
    requires EndsIn(t, '}')
    ensures NoDots(ParseTypeList(t)) != []
  {
    var u := Strip(t);
    StripEnds(t, '}');
    assert !EndsWith(u, ")") by { assert u[|u| - 1..][0] == '}'; }
    SplitEnds(COMMA, u, START, [], '}');
    var parts := SplitOutside(COMMA, u, START, []);
    StripEnds(parts[|parts| - 1], '}');
    LastIsKept(StripAll(parts));
  }

  lemma {:induction false} LastIsKept(types: seq<string>)
    requires types != [] && types[|types| - 1] != "..."
    ensures NoDots(types) != []
  {
    if |types| > 1 {
      LastIsKept(types[1..]);
    }
  }

  /** Without a signature the types are read after the last colon of the attributes, if there is one. */
  function RereadTypes(op: TextOp): (seq<string>, seq<string>) {
    if op.outTypes != [] then (op.inTypes, op.outTypes) else SignatureTypes(AttrText(Visible(op.attrs)))
  }

  /** Types come back unless input types were not printed or a colon in the attributes is taken for one of a
      signature. */
  lemma TypesSurviveIff(fl: IsFloat, op: TextOp)
    requires Printable(fl, op)
    ensures RereadTypes(op) == (op.inTypes, op.outTypes)
            <==> op.outTypes != [] || (op.inTypes == [] && !AnyColon(Visible(op.attrs)))
  {
    var text := AttrText(Visible(op.attrs));
    if op.outTypes == [] {
      AttrsColon(fl, Visible(op.attrs));
      if ':' in text {
        ColonMakesType(text);
      }
    }
  }

  lemma ColonMakesType(text: string)
    requires ':' in text && EndsIn(text, '}')
    ensures SignatureTypes(text).1 != []
  {
    AfterLastEnds(text, ':', '}');
    var t := AfterLast(text, ':').value;
    StripEnds(t, '}');
    BraceIsAType(Strip(t));
  }

  /** The operation up to '%' prefixes, weights by name, and the unprinted source_node attribute. */
  function Expected(known: map<string, string>, op: TextOp): TextOp {
    op.(operands := Resolved(known, op.operands), results := StripPercents(op.results), attrs := Visible(op.attrs))
  }

  /** What comes back: an empty result list becomes one empty name. */
  function Reread(fl: IsFloat, known: map<string, string>, op: TextOp): TextOp {
    Expected(known, op).(results := if op.results == [] then [[]] else StripPercents(op.results),
                         attrs := RereadAttrs(fl, Visible(op.attrs)),
                         inTypes := RereadTypes(op).0, outTypes := RereadTypes(op).1)
  }

  lemma SignatureShape(op: TextOp)
    requires op.outTypes != [] ==> TypesOk(op.inTypes) && TypesOk(op.outTypes)
    ensures '{' !in Signature(op)
  {
    if op.outTypes != [] {
      TypeTextShape(op.inTypes, op.outTypes);
    }
  }

  /** The text of an operation up to its attributes. */
  function Head(name: string, operands: string): string {
    ['"'] + (name + (['"'] + (['('] + (operands + [')']))))
  }

  lemma HeadOf(name: string, operands: string, tail: string)
    ensures ['"'] + (name + (['"'] + (['('] + (operands + ([')'] + tail))))) == Head(name, operands) + tail
  {
    assert operands + ([')'] + tail) == (operands + [')']) + tail;
    assert name + (['"'] + (['('] + ((operands + [')']) + tail)))
        == (name + (['"'] + (['('] + (operands + [')'])))) + tail;
  }

  lemma SignedTypes(head: string, attrs: string, ins: seq<string>, outs: seq<string>)
    requires TypesOk(ins) && TypesOk(outs) && outs != []
    ensures SignatureTypes(head + (attrs + ([' '] + ([':'] + ([' '] + TypeText(ins, outs)))))) == (ins, outs)
  {
    var t := TypeText(ins, outs);
    TypeTextShape(ins, outs);
    assert head + (attrs + ([' '] + ([':'] + ([' '] + t)))) == (head + (attrs + [' '])) + ([':'] + ([' '] + t));
    AfterLastAt(head + (attrs + [' ']), ':', [' '] + t);
    StripTrimmed(t);
    TypesBack(ins, outs);
  }

  lemma NoColonHead(op: TextOp)
    requires PlainText(op.name) && AllPlain(op.operands)
    ensures ':' !in Head(op.name, Join(PrefixAll(op.operands)))
  {
    forall i | 0 <= i < |op.operands| ensures ':' !in PrefixAll(op.operands)[i] {
      assert PlainText(op.operands[i]);
    }
    JoinWithout(PrefixAll(op.operands), ':');
  }

  lemma BodyTypes(fl: IsFloat, op: TextOp)
    requires Printable(fl, op)
    ensures SignatureTypes(Body(op)) == RereadTypes(op)
  {
    var head, attrs := Head(op.name, Join(PrefixAll(op.operands))), AttrText(Visible(op.attrs));
    HeadOf(op.name, Join(PrefixAll(op.operands)), Tail(op));
    if op.outTypes != [] {
      SignedTypes(head, attrs, op.inTypes, op.outTypes);
    } else {
      NoColonHead(op);
      assert attrs + [] == attrs;
      AfterLastSkips(head, attrs, ':');
    }
  }

  lemma BodyTrimmed(fl: IsFloat, op: TextOp)
    requires Printable(fl, op)
    ensures Trimmed(Body(op))
  {
    var head := Head(op.name, Join(PrefixAll(op.operands)));
    HeadOf(op.name, Join(PrefixAll(op.operands)), Tail(op));
    if Tail(op) != [] {
      TailEnds(fl, op);
    }
    QuotedText(head, Tail(op));
  }

  lemma TailEnds(fl: IsFloat, op: TextOp)
    requires Printable(fl, op) && Tail(op) != []
    ensures !IsSpace(Tail(op)[|Tail(op)| - 1])
  {
    if op.outTypes != [] {
      TypeTextShape(op.inTypes, op.outTypes);
    }
  }

  lemma QuotedText(head: string, tail: string)
    requires head != [] && head[0] == '"' && EndsIn(head, ')') && (tail == [] || !IsSpace(tail[|tail| - 1]))
    ensures Trimmed(head + tail)
  {
  }

  lemma BodyCuts(name: string, operands: string, tail: string)
    requires '"' !in name && ')' !in operands
    ensures var r3 := operands + ([')'] + tail);
            var r2 := ['('] + r3;
            var r1 := name + (['"'] + r2);
            && Cut(['"'] + r1, '"') == Some(([], r1)) && Cut(r1, '"') == Some((name, r2))
            && Cut(r2, '(') == Some(([], r3)) && Cut(r3, ')') == Some((operands, tail))
  {
    var r3 := operands + ([')'] + tail);
    var r2 := ['('] + r3;
    CutAt([], '"', name + (['"'] + r2));
    assert [] + (['"'] + (name + (['"'] + r2))) == ['"'] + (name + (['"'] + r2));
    CutAt(name, '"', r2);
    CutAt([], '(', r3);
    assert [] + (['('] + r3) == r2;
    CutAt(operands, ')', tail);
  }

  /** Parsing from its cuts. */
  lemma BodyFrom(fl: IsFloat, known: map<string, string>, results: seq<string>, rest: string, name: string,
                 operands: string,
                 tail: string, attrs: seq<Attr>)
    requires rest == ['"'] + (name + (['"'] + (['('] + (operands + ([')'] + tail))))) && '"' !in name
             && ')' !in operands
    requires ParseTail(fl, tail) == Some(attrs)
    ensures ParseBody(fl, known, results, rest) ==
            Some(TextOp(name, SplitQualified(name).0, SplitQualified(name).1,
                        Resolved(known, NonEmpty(StripAll(SplitAt(operands, ',')))), results, attrs,
                        SignatureTypes(rest).0, SignatureTypes(rest).1))
  {
    BodyCuts(name, operands, tail);
  }

  lemma BodyReread(fl: IsFloat, known: map<string, string>, results: seq<string>, op: TextOp)
    requires RejectsWords(fl) && Printable(fl, op)
    ensures ParseBody(fl, known, results, Body(op)) == Some(Reread(fl, known, op).(results := results))
  {
    OperandsBack(known, op.operands);
    SignatureShape(op);
    TailReread(fl, Visible(op.attrs), Signature(op));
    BodyTypes(fl, op);
    BodyFrom(fl, known, results, Body(op), op.name, Join(PrefixAll(op.operands)), Tail(op),
        RereadAttrs(fl, Visible(op.attrs)));
  }

  lemma ResultsReread(names: seq<string>)
    requires AllPlain(names)
    ensures '=' !in Join(PrefixAll(names)) + [' ']
    ensures StripPercents(StripAll(SplitAt(Strip(Join(PrefixAll(names)) + [' ']), ',')))
            == if names == [] then [[]] else StripPercents(names)
  {
    if names == [] {
      NoResultsReread();
    } else {
      NamesBack(names);
      PlainNames(names);
      StripTrimmed(Join(PrefixAll(names)));
    }
  }

  lemma NoResultsReread()
    ensures StripPercents(StripAll(SplitAt(Strip(Join(PrefixAll([])) + [' ']), ','))) == [[]]
  {
    assert PrefixAll([]) == [];
    assert [] + [' '] == [' '];
    assert Strip([' ']) == [];
    assert SplitAt([], ',') == [[]];
    assert StripAll([[]]) == [[]];
  }

  /** Parsing the printed operation always succeeds, and gives `Reread`. */
  lemma PrintedIsReread(fl: IsFloat, known: map<string, string>, op: TextOp)
    requires RejectsWords(fl) && Printable(fl, op)
    ensures ParseOp(fl, known, PrintOp(op)) == Some(Reread(fl, known, op))
  {
    ResultsReread(op.results);
    CutAt(Join(PrefixAll(op.results)) + [' '], '=', [' '] + Body(op));
    BodyTrimmed(fl, op);
    StripTrimmed(Body(op));
    BodyReread(fl, known, if op.results == [] then [[]] else StripPercents(op.results), op);
  }

  /** The operation comes back exactly when it has a result, no list holds a boolean or None, and, if it has no
      output types, it has no input types either and no colon in its attributes. */
  lemma ExpectedIff(fl: IsFloat, known: map<string, string>, op: TextOp)
    requires RejectsWords(fl) && Printable(fl, op)
    ensures ParseOp(fl, known, PrintOp(op)) == Some(Expected(known, op))
            <==> op.results != [] && AllSurvive(Visible(op.attrs))
                 && (op.outTypes != [] || (op.inTypes == [] && !AnyColon(Visible(op.attrs))))
  {
    PrintedIsReread(fl, known, op);
    RereadAttrsSame(fl, Visible(op.attrs));
    TypesSurviveIff(fl, op);
  }

  function Indent(n: nat): string { if n == 0 then [] else [' '] + Indent(n - 1) }

  lemma {:induction false} LeftIndent(n: nat, s: string)
    requires s != [] && !IsSpace(s[0])
    ensures StripLeft(Indent(n) + s) == s
  {
    if n == 0 {
      assert Indent(n) + s == s;
    } else {
      LeftIndent(n - 1, s);
      assert (Indent(n) + s)[1..] == Indent(n - 1) + s;
    }
  }

  lemma {:induction false} IndentMore(n: nat, s: string)
    ensures Indent(n) + ([' '] + s) == Indent(n + 1) + s
  {
    if n == 0 {
      assert Indent(0) + ([' '] + s) == [' '] + s && Indent(1) == [' '] + Indent(0);
    } else {
      IndentMore(n - 1, s);
      assert Indent(n) + ([' '] + s) == [' '] + (Indent(n - 1) + ([' '] + s));
      assert Indent(n + 1) + s == [' '] + (Indent(n) + s);
    }
  }

  lemma StripIndent(n: nat, s: string)
    requires Trimmed(s)
    ensures Strip(Indent(n) + s) == s && Strip(Indent(n) + ([' '] + s)) == s
  {
    LeftIndent(n, s);
    LeftIndent(n + 1, s);
    IndentMore(n, s);
    assert StripRight(s) == s;
  }

  lemma NoLeftSide()
    ensures StripPercents(StripAll(SplitAt(Strip([]), ','))) == [[]]
  {
    assert SplitAt([], ',') == [[]];
    assert StripAll([[]]) == [[]];
  }

  lemma CutAtStart(c: char, rest: string)
    ensures Cut([c] + rest, c) == Some(([], rest))
  {
    CutAt([], c, rest);
    assert [] + ([c] + rest) == [c] + rest;
  }

  lemma OnlyBody(fl: IsFloat, known: map<string, string>, op: TextOp)
    requires RejectsWords(fl) && Printable(fl, op) && op.results == []
    ensures ParseOp(fl, known, ['='] + ([' '] + Body(op))) == Some(Reread(fl, known, op))
  {
    CutAtStart('=', [' '] + Body(op));
    NoLeftSide();
    BodyTrimmed(fl, op);
    StripTrimmed(Body(op));
    BodyReread(fl, known, [[]], op);
  }

  lemma PrintNoResults(op: TextOp)
    requires op.results == []
    ensures PrintOp(op) == [' '] + (['='] + ([' '] + Body(op)))
  {
    assert PrefixAll([]) == [] && Join([]) + [' '] == [' '];
  }

  lemma InkBefore(a: string, b: string)
    requires a != [] && !IsSpace(a[0]) && b != [] && !IsSpace(b[|b| - 1])
    ensures Trimmed(a + b)
  {
  }

  lemma InkAfter(a: string, b: string)
    requires b != [] && !IsSpace(b[|b| - 1])
    ensures a + b != [] && !IsSpace((a + b)[|a + b| - 1])
  {
  }

  lemma LineTrimmed(results: string, body: string)
    requires Trimmed(body)
    ensures Trimmed(['='] + ([' '] + body))
    ensures Trimmed(results) ==> Trimmed((results + [' ']) + (['='] + ([' '] + body)))
  {
    InkAfter([' '], body);
    InkBefore(['='], [' '] + body);
    if Trimmed(results) {
      InkBefore(results + [' '], ['='] + ([' '] + body));
    }
  }

  /** The same for the indented line of the module text, stripped by the reader. */
  lemma LineIsReread(fl: IsFloat, known: map<string, string>, op: TextOp)
    requires RejectsWords(fl) && Printable(fl, op)
    ensures ParseOp(fl, known, Strip(Indent(4) + PrintOp(op))) == Some(Reread(fl, known, op))
  {
    BodyTrimmed(fl, op);
    LineTrimmed(Join(PrefixAll(op.results)), Body(op));
    if op.results == [] {
      OnlyBody(fl, known, op);
      PrintNoResults(op);
      StripIndent(4, ['='] + ([' '] + Body(op)));
    } else {
      NamesBack(op.results);
      StripIndent(4, PrintOp(op));
      PrintedIsReread(fl, known, op);
    }
  }

  // ── Witnesses ──

  /** A list with a boolean and one with None, and what they come back as. */
  lemma WordListsLost(fl: IsFloat)
    requires RejectsWords(fl)
    ensures ParseValue(fl, PrintValue(VList([IBool(true)]))) == VList([IStr("True")]) != VList([IBool(true)])
    ensures ParseValue(fl, PrintValue(VList([INone]))) == VList([IStr("None")]) != VList([INone])
  {
    ValueReread(fl, VList([IBool(true)]));
    ValueReread(fl, VList([INone]));
    assert RereadItems(fl, [IBool(true)]) == [IStr("True")] && RereadItems(fl, [INone]) == [IStr("None")];
  }
}
