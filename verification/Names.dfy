/** Duplicate-free name lists: filtering, alphabetical sorting, first position. */
module Names {
  import opened Lists
  import opened Ssa

  lemma UniqueConcat(a: seq<Name>, b: seq<Name>)
    requires Unique(a) && Unique(b) && forall x | x in a :: x !in b
    ensures Unique(a + b)
  {
    forall i, j | 0 <= i < j < |a + b| ensures (a + b)[i] != (a + b)[j] {
      if i < |a| && j >= |a| {
        assert a[i] in a && b[j - |a|] in b;
      }
    }
  }

  function Filter(s: seq<Name>, keep: Name -> bool): (r: seq<Name>)
    ensures |r| <= |s|
    ensures forall x :: x in r <==> x in s && keep(x)
    ensures Unique(s) ==> Unique(r)
  {
    if s == [] then []
    else
      var n := |s| - 1;
      assert s == s[..n] + [s[n]];
      if keep(s[n]) then Filter(s[..n], keep) + [s[n]] else Filter(s[..n], keep)
  }

  /** Python's order on strings: by code points, a prefix comes first. */
  predicate Before(a: string, b: string) {
    a == [] || (b != [] && (a[0] < b[0] || (a[0] == b[0] && Before(a[1..], b[1..]))))
  }

  lemma {:induction false} BeforeTotal(a: string, b: string)
    ensures Before(a, b) || Before(b, a)
  {
    if a != [] && b != [] && a[0] == b[0] {
      BeforeTotal(a[1..], b[1..]);
    }
  }

  lemma {:induction false} BeforeTransitive(a: string, b: string, c: string)
    requires Before(a, b) && Before(b, c)
    ensures Before(a, c)
  {
    if a != [] && a[0] == b[0] == c[0] {
      BeforeTransitive(a[1..], b[1..], c[1..]);
    }
  }

  lemma {:induction false} BeforeBoth(a: string, b: string)
    requires Before(a, b) && Before(b, a)
    ensures a == b
  {
    if a != [] {
      BeforeBoth(a[1..], b[1..]);
      assert a == [a[0]] + a[1..] && b == [b[0]] + b[1..];
    }
  }

  function Insert(x: Name, s: seq<Name>): (r: seq<Name>)
    ensures |r| == |s| + 1
    ensures forall y :: y in r <==> y == x || y in s
    ensures Unique(s) && x !in s ==> Unique(r)
  {
    if s == [] then [x]
    else if Before(x, s[0]) then [x] + s
    else
      var rest := Insert(x, s[1..]);
      assert s == [s[0]] + s[1..];
      assert Unique(s) && x !in s ==> Unique([s[0]] + rest) by {
        if Unique(s) && x !in s { UniqueConcat([s[0]], rest); }
      }
      [s[0]] + rest
  }

  function Sort(s: seq<Name>): (r: seq<Name>)
    ensures |r| == |s|
    ensures forall x :: x in r <==> x in s
    ensures Unique(s) ==> Unique(r)
  {
    if s == [] then []
    else
      var n := |s| - 1;
      assert s == s[..n] + [s[n]];
      Insert(s[n], Sort(s[..n]))
  }

  predicate Alphabetical(s: seq<Name>) { forall i, j | 0 <= i < j < |s| :: Before(s[i], s[j]) }

  lemma {:induction false} InsertInOrder(x: Name, s: seq<Name>)
    requires Alphabetical(s)
    ensures Alphabetical(Insert(x, s))
  {
    if s != [] {
      if Before(x, s[0]) {
        forall j | 0 <= j < |s| ensures Before(x, s[j]) {
          if j > 0 { BeforeTransitive(x, s[0], s[j]); }
        }
      } else {
        BeforeTotal(x, s[0]);
        var rest := Insert(x, s[1..]);
        InsertInOrder(x, s[1..]);
        forall j | 0 <= j < |rest| ensures Before(s[0], rest[j]) {
          assert rest[j] in rest;
          assert rest[j] != x ==> rest[j] in s[1..];
        }
      }
    }
  }

  /** Sorting yields the names in alphabetical order. */
  lemma {:induction false} SortSorts(s: seq<Name>)
    ensures Alphabetical(Sort(s))
  {
    if s != [] {
      SortSorts(s[..|s| - 1]);
      InsertInOrder(s[|s| - 1], Sort(s[..|s| - 1]));
    }
  }

  /** Filtering keeps the order: two kept elements come from two places in the same order. */
  lemma {:induction false} FilterPlaces(s: seq<Name>, keep: Name -> bool, i: nat, j: nat) returns (a: nat, b: nat)
    requires i < j < |Filter(s, keep)|
    ensures a < b < |s| && s[a] == Filter(s, keep)[i] && s[b] == Filter(s, keep)[j]
  {
    var n := |s| - 1;
    var r := Filter(s[..n], keep);
    if j < |r| {
      a, b := FilterPlaces(s[..n], keep, i, j);
    } else {
      assert r[i] in r;
      a, b := Index(s[..n], r[i]), n;
    }
  }

  /** Two places of a kept element give two places in the filtered list. */
  lemma {:induction false} FilterTwice(s: seq<Name>, keep: Name -> bool, a: nat, b: nat) returns (i: nat, j: nat)
    requires a < b < |s| && s[a] == s[b] && keep(s[a])
    ensures i < j < |Filter(s, keep)| && Filter(s, keep)[i] == Filter(s, keep)[j] == s[a]
  {
    var n := |s| - 1;
    if b < n {
      i, j := FilterTwice(s[..n], keep, a, b);
    } else {
      assert s[..n][a] == s[a];
      i, j := Index(Filter(s[..n], keep), s[a]), |Filter(s[..n], keep)|;
    }
  }

  lemma FilterInOrder(s: seq<Name>, keep: Name -> bool)
    requires Alphabetical(s)
    ensures Alphabetical(Filter(s, keep))
  {
    var r := Filter(s, keep);
    forall i, j | 0 <= i < j < |r| ensures Before(r[i], r[j]) {
      var a, b := FilterPlaces(s, keep, i, j);
    }
  }

  /** The first position of `x`. */
  function Index(s: seq<Name>, x: Name): (r: nat)
    requires x in s
    ensures r < |s| && s[r] == x && forall i | 0 <= i < r :: s[i] != x
  {
    var n := |s| - 1;
    assert s == s[..n] + [s[n]];
    if x in s[..n] then Index(s[..n], x) else n
  }

  lemma IndexInPrefix(s: seq<Name>, pre: seq<Name>, i: nat)
    requires i < |pre| <= |s| && s[..|pre|] == pre && Unique(pre)
    ensures pre[i] in s && Index(s, pre[i]) == i
  {
    assert forall r | 0 <= r < |pre| :: s[r] == s[..|pre|][r];
  }

  lemma IndexAt(s: seq<Name>, i: nat)
    requires i < |s| && Unique(s)
    ensures s[i] in s && Index(s, s[i]) == i
  {
  }

  function IndexOr(s: seq<Name>, x: Name, miss: int): int { if x in s then Index(s, x) else miss }
}
