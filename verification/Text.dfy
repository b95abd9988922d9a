/** The string operations of the MLIR printer and parser. */
module Text {
  import opened Options

  // ── Stripping ──

  predicate IsSpace(c: char) { c in {' ', '\t', '\n', '\r'} }

  function StripLeft(s: string): (r: string)
    ensures |r| <= |s|
  {
    if s != [] && IsSpace(s[0]) then StripLeft(s[1..]) else s
  }

  function StripRight(s: string): (r: string)
    ensures |r| <= |s|
  {
    if s != [] && IsSpace(s[|s| - 1]) then StripRight(s[..|s| - 1]) else s
  }

  function Strip(s: string): string { StripRight(StripLeft(s)) }

  /** Not empty, and no space at either end. */
  predicate Trimmed(s: string) { s != [] && !IsSpace(s[0]) && !IsSpace(s[|s| - 1]) }

  lemma StripTrimmed(s: string)
    requires Trimmed(s)
    ensures Strip(s) == s && Strip([' '] + s) == s && Strip(s + [' ']) == s
  {
    assert ([' '] + s)[1..] == s;
    assert StripLeft(s + [' ']) == s + [' '];
    assert (s + [' '])[..|s|] == s;
    assert StripRight(s + [' ']) == StripRight(s);
  }

  function StripPercent(s: string): string { if s != [] && s[0] == '%' then StripPercent(s[1..]) else s }

  /** An SSA name with a '%' in front. */
  function Prefixed(name: string): string { if name == [] || name[0] == '%' then name else ['%'] + name }

  lemma StripPrefixed(name: string)
    ensures StripPercent(Prefixed(name)) == StripPercent(name)
  {
    assert (['%'] + name)[1..] == name;
  }

  // ── Cutting ──

  /** What comes before and after the first `c`. */
  function Cut(s: string, c: char): (r: Option<(string, string)>)
    ensures r.None? <==> c !in s
    ensures r.Some? ==> |r.value.1| < |s|
  {
    if s == [] then None
    else if s[0] == c then Some(([], s[1..]))
    else
      assert s == [s[0]] + s[1..];
      match Cut(s[1..], c)
      case None => None
      case Some((a, b)) => Some(([s[0]] + a, b))
  }

  lemma {:induction false} CutAt(a: string, c: char, b: string)
    requires c !in a
    ensures Cut(a + ([c] + b), c) == Some((a, b))
  {
    var s := a + ([c] + b);
    if a == [] {
      assert s[0] == c && s[1..] == b;
    } else {
      CutAt(a[1..], c, b);
      assert s[1..] == a[1..] + ([c] + b);
      CutLater(s, c, a[1..], b);
      assert [a[0]] + a[1..] == a;
    }
  }

  lemma CutLater(s: string, c: char, a: string, b: string)
    requires s != [] && s[0] != c && Cut(s[1..], c) == Some((a, b))
    ensures Cut(s, c) == Some(([s[0]] + a, b))
  {
  }

  /** What comes after the last `c`. */
  function AfterLast(s: string, c: char): (r: Option<string>)
    ensures r.None? <==> c !in s
  {
    if s == [] then None
    else
      var n := |s| - 1;
      assert s == s[..n] + [s[n]];
      if s[n] == c then Some([])
      else match AfterLast(s[..n], c)
        case None => None
        case Some(b) => Some(b + [s[n]])
  }

  lemma {:induction false} AfterLastAt(a: string, c: char, b: string)
    requires c !in b
    ensures AfterLast(a + ([c] + b), c) == Some(b)
    decreases b
  {
    var s := a + ([c] + b);
    var n := |s| - 1;
    if b == [] {
      assert s[n] == c;
    } else {
      var m := |b| - 1;
      AfterLastAt(a, c, b[..m]);
      assert s[..n] == a + ([c] + b[..m]) && s[n] == b[m];
      assert b[..m] + [b[m]] == b;
    }
  }

  lemma {:induction false} AfterLastSkips(a: string, b: string, c: char)
    requires c !in a
    ensures AfterLast(a + b, c) == AfterLast(b, c)
    decreases b
  {
    var n := |b| - 1;
    if b == [] {
      assert a + b == a;
    } else {
      assert (a + b)[..|a + b| - 1] == a + b[..n] && (a + b)[|a + b| - 1] == b[n];
      AfterLastSkips(a, b[..n], c);
    }
  }

  // ── What a text ends with ──

  predicate EndsIn(s: string, d: char) { s != [] && s[|s| - 1] == d }

  lemma AfterLastEnds(s: string, c: char, d: char)
    requires EndsIn(s, d) && c != d && c in s
    ensures AfterLast(s, c).Some? && EndsIn(AfterLast(s, c).value, d)
  {
    assert s == s[..|s| - 1] + [s[|s| - 1]];
  }

  lemma {:induction false} StripLeftEnds(s: string, d: char)
    requires EndsIn(s, d) && !IsSpace(d)
    ensures EndsIn(StripLeft(s), d)
  {
    if IsSpace(s[0]) {
      StripLeftEnds(s[1..], d);
    }
  }

  lemma StripEnds(s: string, d: char)
    requires EndsIn(s, d) && !IsSpace(d)
    ensures EndsIn(Strip(s), d)
  {
    StripLeftEnds(s, d);
  }

  predicate StartsWith(s: string, pat: string) { |pat| <= |s| && s[..|pat|] == pat }

  predicate EndsWith(s: string, pat: string) { |pat| <= |s| && s[|s| - |pat|..] == pat }

  /** What comes before and after the first occurrence of `pat`. */
  function CutText(s: string, pat: string): Option<(string, string)>
    requires pat != []
  {
    if StartsWith(s, pat) then Some(([], s[|pat|..]))
    else if s == [] then None
    else match CutText(s[1..], pat)
      case None => None
      case Some((a, b)) => Some(([s[0]] + a, b))
  }

  lemma {:induction false} CutTextParts(s: string, pat: string)
    requires pat != [] && CutText(s, pat).Some?
    ensures s == CutText(s, pat).value.0 + (pat + CutText(s, pat).value.1)
  {
    if !StartsWith(s, pat) {
      CutTextParts(s[1..], pat);
      assert s == [s[0]] + s[1..];
    } else {
      assert s == s[..|pat|] + s[|pat|..];
    }
  }

  ghost predicate OccursAt(s: string, pat: string, n: nat) { n + |pat| <= |s| && s[n..n + |pat|] == pat }

  lemma OccursHas(s: string, pat: string, n: nat)
    requires pat != []
    ensures OccursAt(s, pat, n) ==> pat[0] in s
  {
    if OccursAt(s, pat, n) {
      assert s[n..n + |pat|][0] == s[n];
    }
  }

  lemma SliceTail(s: string, i: nat, j: nat)
    requires 0 < i <= j <= |s|
    ensures s[i..j] == s[1..][i - 1..j - 1]
  {
    var a, b := s[i..j], s[1..][i - 1..j - 1];
    assert forall k | 0 <= k < j - i :: a[k] == b[k];
  }

  lemma OccursLater(s: string, pat: string, n: nat)
    requires s != [] && !StartsWith(s, pat)
    ensures OccursAt(s, pat, n) <==> n > 0 && OccursAt(s[1..], pat, n - 1)
  {
    var u := s[1..];
    if n > 0 && n + |pat| <= |s| {
      SliceTail(s, n, n + |pat|);
    } else if n == 0 && |pat| <= |s| {
      assert s[0..|pat|] == s[..|pat|];
    }
  }

  /** The cut is at the first occurrence. */
  lemma {:induction false} CutTextFirst(s: string, pat: string)
    requires pat != []
    ensures CutText(s, pat).None? ==> forall n: nat :: !OccursAt(s, pat, n)
    ensures CutText(s, pat).Some? ==>
              var a := CutText(s, pat).value.0;
              && OccursAt(s, pat, |a|) && a == s[..|a|] && forall n: nat | n < |a| :: !OccursAt(s, pat, n)
  {
    if !StartsWith(s, pat) && s != [] {
      CutTextFirst(s[1..], pat);
      forall n: nat ensures OccursAt(s, pat, n) <==> n > 0 && OccursAt(s[1..], pat, n - 1) {
        OccursLater(s, pat, n);
      }
    } else if StartsWith(s, pat) {
      assert s[0..0 + |pat|] == s[..|pat|];
    }
  }

  lemma CutTextEnds(s: string, pat: string, d: char)
    requires pat != [] && CutText(s, pat).Some? && EndsIn(s, d) && pat[|pat| - 1] != d
    ensures EndsIn(CutText(s, pat).value.1, d)
  {
    CutTextParts(s, pat);
  }

  lemma {:induction false} CutTextAt(a: string, pat: string, b: string)
    requires pat != [] && pat[0] !in a
    ensures CutText(a + (pat + b), pat) == Some((a, b))
  {
    var s := a + (pat + b);
    if a == [] {
      assert s == pat + b;
    } else {
      assert s[0] == a[0] && a[0] in a;
      assert !StartsWith(s, pat) by {
        assert |pat| <= |s| ==> s[..|pat|][0] == a[0];
      }
      CutTextAt(a[1..], pat, b);
      assert s[1..] == a[1..] + (pat + b);
      assert [a[0]] + a[1..] == a;
    }
  }

  /** Everything but the first and last character. */
  function Inner(s: string): string { if |s| < 2 then [] else s[1..|s| - 1] }

  lemma InnerOf(c: char, s: string, d: char)
    ensures Inner([c] + (s + [d])) == s
    ensures StartsWith([c] + (s + [d]), [c]) && EndsWith([c] + (s + [d]), [d])
  {
    var t := [c] + (s + [d]);
    assert t[|t| - 1..] == [d];
  }

  // ── Joining and plain splitting ──

  function Join(parts: seq<string>): string {
    if parts == [] then [] else if |parts| == 1 then parts[0] else parts[0] + ([','] + ([' '] + Join(parts[1..])))
  }

  /** Python's split on one character. */
  function SplitAt(s: string, c: char): (r: seq<string>)
    decreases |s|
  {
    match Cut(s, c)
    case None => [s]
    case Some((a, b)) => [a] + SplitAt(b, c)
  }

  function StripAll(parts: seq<string>): seq<string> { seq(|parts|, i requires 0 <= i < |parts| => Strip(parts[i])) }

  ghost predicate AllTrimmed(parts: seq<string>) { forall i | 0 <= i < |parts| :: Trimmed(parts[i]) }

  ghost predicate Without(parts: seq<string>, c: char) { forall i | 0 <= i < |parts| :: c !in parts[i] }

  lemma SplitStep(a: string, b: string)
    requires ',' !in a
    ensures StripAll(SplitAt(a + ([','] + b), ',')) == [Strip(a)] + StripAll(SplitAt(b, ','))
  {
    CutAt(a, ',', b);
    assert SplitAt(a + ([','] + b), ',') == [a] + SplitAt(b, ',');
  }

  lemma SplitWhole(a: string)
    requires ',' !in a
    ensures StripAll(SplitAt(a, ',')) == [Strip(a)]
  {
    assert Cut(a, ',').None?;
  }

  /** Splitting a joined list, with or without a leading space, gives back the parts. */
  lemma {:induction false} SplitJoined(parts: seq<string>, lead: string)
    requires parts != [] && AllTrimmed(parts) && Without(parts, ',') && (lead == [] || lead == [' '])
    ensures StripAll(SplitAt(lead + Join(parts), ',')) == parts
    decreases parts
  {
    LeadStripped(parts[0], lead);
    if |parts| == 1 {
      SplitWhole(lead + parts[0]);
    } else {
      assert forall i | 0 <= i < |parts| - 1 :: parts[1..][i] == parts[i + 1];
      SplitJoined(parts[1..], [' ']);
      JoinedStep(parts[0], parts[1..], lead);
      assert [parts[0]] + parts[1..] == parts;
    }
  }

  lemma LeadStripped(p: string, lead: string)
    requires Trimmed(p) && ',' !in p && (lead == [] || lead == [' '])
    ensures Strip(lead + p) == p && ',' !in lead + p
  {
    StripTrimmed(p);
    assert lead + p == p || lead + p == [' '] + p;
  }

  lemma JoinedStep(p: string, more: seq<string>, lead: string)
    requires more != [] && ',' !in lead + p
    ensures StripAll(SplitAt(lead + Join([p] + more), ','))
            == [Strip(lead + p)] + StripAll(SplitAt([' '] + Join(more), ','))
  {
    var rest := [' '] + Join(more);
    SplitStep(lead + p, rest);
    assert ([p] + more)[1..] == more;
    assert lead + Join([p] + more) == (lead + p) + ([','] + rest);
  }

  // ── Splitting outside brackets and quotes ──

  datatype Syntax = Syntax(opens: set<char>, closes: set<char>, seps: set<char>, quotes: bool)

  datatype Scan = Scan(depth: int, quoted: bool)

  const START: Scan := Scan(0, false)

  function Next(x: Syntax, st: Scan, ch: char): Scan {
    var q := if x.quotes && ch == '"' then !st.quoted else st.quoted;
    if q then Scan(st.depth, q)
    else if ch in x.opens then Scan(st.depth + 1, q)
    else if ch in x.closes then Scan(st.depth - 1, q)
    else Scan(st.depth, q)
  }

  /** Does `ch` separate, in the state after it? */
  predicate Separates(x: Syntax, after: Scan, ch: char) { ch in x.seps && after.depth == 0 && !after.quoted }

  function SplitOutside(x: Syntax, text: string, st: Scan, cur: string): seq<string> {
    if text == [] then (if cur == [] then [] else [Strip(cur)])
    else
      var after := Next(x, st, text[0]);
      if Separates(x, after, text[0]) then [Strip(cur)] + SplitOutside(x, text[1..], after, [])
      else SplitOutside(x, text[1..], after, cur + [text[0]])
  }

  /** The last part ends as the text does. */
  lemma {:induction false} SplitEnds(x: Syntax, text: string, st: Scan, cur: string, d: char)
    requires !IsSpace(d) && d !in x.seps && if text == [] then EndsIn(cur, d) else EndsIn(text, d)
    ensures var parts := SplitOutside(x, text, st, cur); parts != [] && EndsIn(parts[|parts| - 1], d)
    decreases text
  {
    if text == [] {
      StripEnds(cur, d);
    } else {
      var after := Next(x, st, text[0]);
      SplitEnds(x, text[1..], after, if Separates(x, after, text[0]) then [] else cur + [text[0]], d);
    }
  }

  /** The character loop. */
  method SplitLoop(x: Syntax, text: string) returns (parts: seq<string>)
    ensures parts == SplitOutside(x, text, START, [])
  {
    parts := [];
    var st, cur := START, [];
    for i := 0 to |text|
      invariant parts + SplitOutside(x, text[i..], st, cur) == SplitOutside(x, text, START, [])
    {
      var ch := text[i];
      assert text[i..][0] == ch && text[i..][1..] == text[i + 1..];
      st := Next(x, st, ch);
      if Separates(x, st, ch) {
        assert parts + ([Strip(cur)] + SplitOutside(x, text[i + 1..], st, []))
            == parts + [Strip(cur)] + SplitOutside(x, text[i + 1..], st, []);
        parts := parts + [Strip(cur)];
        cur := [];
      } else {
        cur := cur + [ch];
      }
    }
    if cur != [] {
      parts := parts + [Strip(cur)];
    }
  }

  /** The state after `p`, and whether `p` can be passed without separating. */
  function Passed(x: Syntax, p: string, st: Scan): Scan { if p == [] then st else Passed(x, p[1..], Next(x, st, p[0])) }

  predicate Quiet(x: Syntax, p: string, st: Scan) {
    p == [] || (!Separates(x, Next(x, st, p[0]), p[0]) && Quiet(x, p[1..], Next(x, st, p[0])))
  }

  lemma {:induction false} PassConcat(x: Syntax, a: string, b: string, st: Scan)
    ensures Passed(x, a + b, st) == Passed(x, b, Passed(x, a, st))
    ensures Quiet(x, a + b, st) <==> Quiet(x, a, st) && Quiet(x, b, Passed(x, a, st))
    decreases a
  {
    if a == [] {
      assert a + b == b;
    } else {
      assert (a + b)[0] == a[0] && (a + b)[1..] == a[1..] + b;
      PassConcat(x, a[1..], b, Next(x, st, a[0]));
    }
  }

  lemma {:induction false} SplitPasses(x: Syntax, p: string, rest: string, st: Scan, cur: string)
    requires Quiet(x, p, st)
    ensures SplitOutside(x, p + rest, st, cur) == SplitOutside(x, rest, Passed(x, p, st), cur + p)
    decreases p
  {
    if p == [] {
      assert p + rest == rest && cur + p == cur;
    } else {
      assert (p + rest)[0] == p[0] && (p + rest)[1..] == p[1..] + rest;
      SplitPasses(x, p[1..], rest, Next(x, st, p[0]), cur + [p[0]]);
      assert cur + [p[0]] + p[1..] == cur + p;
    }
  }

  /** Brackets and quotes close, and nothing separates. */
  ghost predicate Closed(x: Syntax, p: string) { Quiet(x, p, START) && Passed(x, p, START) == START }

  ghost predicate AllClosed(x: Syntax, parts: seq<string>) { forall i | 0 <= i < |parts| :: Closed(x, parts[i]) }

  ghost predicate CommaSeparates(x: Syntax) {
    ',' in x.seps && ',' !in x.opens && ',' !in x.closes && ' ' !in x.seps && ' ' !in x.opens && ' ' !in x.closes
  }

  lemma SplitLast(x: Syntax, p: string, cur: string)
    requires Trimmed(p) && Closed(x, p) && (cur == [] || cur == [' '])
    ensures SplitOutside(x, p, START, cur) == [p]
  {
    SplitPasses(x, p, [], START, cur);
    assert p + [] == p;
    StripTrimmed(p);
    assert cur + p == p || cur + p == [' '] + p;
  }

  lemma SplitFirst(x: Syntax, p: string, rest: string, cur: string)
    requires CommaSeparates(x) && Trimmed(p) && Closed(x, p) && (cur == [] || cur == [' '])
    ensures SplitOutside(x, p + ([','] + ([' '] + rest)), START, cur) == [p] + SplitOutside(x, rest, START, [' '])
  {
    SplitPasses(x, p, [','] + ([' '] + rest), START, cur);
    StripTrimmed(p);
    assert cur + p == p || cur + p == [' '] + p;
    CommaSplits(x, rest, cur + p);
  }

  lemma CommaSplits(x: Syntax, rest: string, cur: string)
    requires CommaSeparates(x)
    ensures SplitOutside(x, [','] + ([' '] + rest), START, cur) == [Strip(cur)] + SplitOutside(x, rest, START, [' '])
  {
    var next := [' '] + rest;
    assert ([','] + next)[1..] == next;
    assert SplitOutside(x, [','] + next, START, cur) == [Strip(cur)] + SplitOutside(x, next, START, []);
    assert next[1..] == rest && [] + [' '] == [' '];
  }

  /** Splitting a joined list outside brackets and quotes gives back the parts. */
  lemma {:induction false} SplitOutsideJoined(x: Syntax, parts: seq<string>, cur: string)
    requires CommaSeparates(x) && AllTrimmed(parts) && AllClosed(x, parts)
             && (cur == [] || (cur == [' '] && parts != []))
    ensures SplitOutside(x, Join(parts), START, cur) == parts
    decreases parts
  {
    if |parts| == 1 {
      SplitLast(x, parts[0], cur);
    } else if parts != [] {
      assert forall i | 0 <= i < |parts| - 1 :: parts[1..][i] == parts[i + 1];
      SplitFirst(x, parts[0], Join(parts[1..]), cur);
      SplitOutsideJoined(x, parts[1..], [' ']);
    }
  }

  // ── Numbers ──

  function Digit(d: nat): char
    requires d < 10
  {
    ("0123456789")[d]
  }

  predicate IsDigit(c: char) { '0' <= c <= '9' }

  function DigitValue(c: char): nat
    requires IsDigit(c)
  {
    c as int - '0' as int
  }

  lemma DigitBack(d: nat)
    requires d < 10
    ensures IsDigit(Digit(d)) && DigitValue(Digit(d)) == d
  {
  }

  function NatText(n: nat): (s: string)
    ensures s != []
  {
    if n < 10 then [Digit(n)] else NatText(n / 10) + [Digit(n % 10)]
  }

  function IntText(n: int): string { if n < 0 then ['-'] + NatText(-n) else NatText(n) }

  function ParseNat(s: string): Option<nat> {
    if s == [] then None
    else
      var m := |s| - 1;
      if !IsDigit(s[m]) then None
      else if m == 0 then Some(DigitValue(s[0]))
      else match ParseNat(s[..m])
        case None => None
        case Some(v) => Some(v * 10 + DigitValue(s[m]))
  }

  function ParseInt(s: string): Option<int> {
    if s != [] && s[0] == '-' then
      match ParseNat(s[1..]) case None => None case Some(v) => Some(0 - v)
    else
      match ParseNat(s) case None => None case Some(v) => Some(v)
  }

  lemma {:induction false} NatBack(n: nat)
    ensures ParseNat(NatText(n)) == Some(n) && forall c | c in NatText(n) :: IsDigit(c)
  {
    if n < 10 {
      DigitBack(n);
    } else {
      NatBack(n / 10);
      DigitBack(n % 10);
      var s := NatText(n);
      assert s[..|s| - 1] == NatText(n / 10);
    }
  }

  lemma DigitsTrimmed(s: string)
    requires s != [] && forall c | c in s :: IsDigit(c)
    ensures Trimmed(s) && s[0] != '-'
  {
    assert s[0] in s && s[|s| - 1] in s;
  }

  /** Characters of printed integers. */
  ghost predicate Numeric(s: string) { forall c | c in s :: IsDigit(c) || c == '-' }

  lemma NegativeBack(t: string, v: nat)
    requires ParseNat(t) == Some(v) && t != [] && forall c | c in t :: IsDigit(c)
    ensures ParseInt(['-'] + t) == Some(0 - v) && Numeric(['-'] + t) && Trimmed(['-'] + t)
  {
    var s := ['-'] + t;
    assert s[1..] == t && s[|s| - 1] == t[|t| - 1];
    DigitsTrimmed(t);
  }

  /** Printed integers are read back, and consist of digits and a sign. */
  lemma IntBack(n: int)
    ensures ParseInt(IntText(n)) == Some(n) && Numeric(IntText(n)) && Trimmed(IntText(n))
  {
    if n < 0 {
      NatBack(-n);
      NegativeBack(NatText(-n), -n);
    } else {
      NatBack(n);
      DigitsTrimmed(NatText(n));
    }
  }
}
