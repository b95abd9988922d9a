/** Lists without repetition, and places in a list. */
module Lists {
  ghost predicate Unique<T(!new)>(s: seq<T>) { forall i, j | 0 <= i < j < |s| :: s[i] != s[j] }

  ghost predicate Increasing(at: seq<nat>) { forall i, j | 0 <= i < j < |at| :: at[i] < at[j] }

  lemma TailHas(at: seq<nat>, k: nat)
    requires at != [] && Increasing(at)
    ensures k in at[1..] <==> k in at && k != at[0]
  {
    if k in at && k != at[0] {
      var i :| 0 <= i < |at| && at[i] == k;
      assert at[1..][i - 1] == k;
    }
  }

  lemma HeadIn(b: seq<nat>)
    requires b != []
    ensures b[0] in b
  {
  }

  lemma NoMembers(b: seq<nat>)
    requires forall k: nat :: k !in b
    ensures b == []
  {
    if b != [] {
      HeadIn(b);
    }
  }

  /** An increasing list is determined by its members. */
  lemma {:induction false} IncreasingSame(a: seq<nat>, b: seq<nat>)
    requires Increasing(a) && Increasing(b) && forall k: nat :: k in a <==> k in b
    ensures a == b
  {
    if a == [] {
      NoMembers(b);
    } else {
      assert a[0] in b;
      assert b[0] in a;
      var i :| 0 <= i < |a| && a[i] == b[0];
      var j :| 0 <= j < |b| && b[j] == a[0];
      assert a[0] == b[0];
      forall k: nat ensures k in a[1..] <==> k in b[1..] {
        TailHas(a, k);
        TailHas(b, k);
      }
      IncreasingSame(a[1..], b[1..]);
      assert a == [a[0]] + a[1..] && b == [b[0]] + b[1..];
    }
  }

  lemma {:induction false} IncreasingAbove(at: seq<nat>, i: nat)
    requires i < |at| && Increasing(at)
    ensures i <= at[i]
  {
    if i > 0 {
      IncreasingAbove(at, i - 1);
    }
  }
}
