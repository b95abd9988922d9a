/** Symmetric quantisation of a group of reals to the levels -n..n, rounding half to even. */
module Rounding {

  function Abs(x: real): (r: real)
    ensures r >= 0.0 && (r == x || r == -x) && r >= x && r >= -x
  {
    if x < 0.0 then -x else x
  }

  lemma ProductSign(d: real, s: real)
    requires s >= 0.0
    ensures d >= 0.0 ==> d * s >= 0.0
    ensures s > 0.0 && d * s <= 0.0 ==> d <= 0.0
  {
  }

  lemma MulMono(a: real, b: real, s: real)
    requires a <= b && s >= 0.0
    ensures a * s <= b * s
  {
    ProductSign(b - a, s);
    assert (b - a) * s == b * s - a * s;
  }

  lemma DivMul(x: real, n: real)
    requires n != 0.0
    ensures x / n * n == x && (x * n) / n == x && (n * x) / n == x
  {
  }

  function MaxReal(a: real, b: real): real { if a >= b then a else b }

  /** torch.round. */
  function Round(x: real): int {
    var f := x.Floor;
    var d := x - f as real;
    if d < 0.5 then f else if d > 0.5 then f + 1 else if f % 2 == 0 then f else f + 1
  }

  lemma RoundNear(x: real)
    ensures -0.5 <= Round(x) as real - x <= 0.5
  {
  }

  /** The nearest integer, of two equally near ones the even one. */
  lemma RoundIff(x: real, r: int)
    ensures Round(x) == r
            <==> -0.5 <= r as real - x <= 0.5 && (r as real - x == 0.5 || r as real - x == -0.5 ==> r % 2 == 0)
  {
    var f := x.Floor;
    assert f as real <= x < f as real + 1.0;
    assert r < f ==> r as real <= f as real - 1.0;
    assert r > f + 1 ==> r as real >= f as real + 2.0;
  }

  lemma RoundInt(n: int)
    ensures Round(n as real) == n
  {
  }

  /** Rounding stays inside an integer bound. */
  lemma RoundBounded(x: real, n: int)
    requires n >= 0 && -(n as real) <= x <= n as real
    ensures -n <= Round(x) <= n
  {
    RoundNear(x);
  }

  function MaxAbs(s: seq<real>): (r: real)
    ensures r >= 0.0
    ensures forall i | 0 <= i < |s| :: Abs(s[i]) <= r
    ensures r == 0.0 || exists i | 0 <= i < |s| :: Abs(s[i]) == r
  {
    if s == [] then 0.0
    else
      var n := |s| - 1;
      var rest := MaxAbs(s[..n]);
      assert forall i | 0 <= i < n :: s[i] == s[..n][i];
      MaxReal(rest, Abs(s[n]))
  }

  /** The least maximum is unique. */
  lemma MaxAbsIs(s: seq<real>, m: real)
    requires m >= 0.0 && forall i | 0 <= i < |s| :: Abs(s[i]) <= m
    requires m == 0.0 || exists i | 0 <= i < |s| :: Abs(s[i]) == m
    ensures MaxAbs(s) == m
  {
  }

  const TINY: real := 0.000000001

  /** max|group| / n, at least 1e-9. */
  function ScaleOf(group: seq<real>, n: int): (r: real)
    requires n > 0
    ensures r >= TINY
  {
    MaxReal(MaxAbs(group) / n as real, TINY)
  }

  function Code(x: real, scale: real): int
    requires scale > 0.0
  {
    Round(x / scale)
  }

  lemma DivBound(x: real, s: real, n: real)
    requires s > 0.0 && -(n * s) <= x <= n * s
    ensures -n <= x / s <= n
  {
    QuotientAtMost(x, s, n);
    QuotientAtMost(-x, s, n);
    DivNegated(x, s);
  }

  lemma DivNegated(x: real, s: real)
    requires s > 0.0
    ensures (-x) / s == -(x / s)
  {
    DivMul(x, s);
    QuotientIs(-x, s, -(x / s));
  }

  lemma QuotientIs(x: real, s: real, q: real)
    requires s > 0.0 && q * s == x
    ensures x / s == q
  {
    DivMul(q, s);
  }

  lemma QuotientAtMost(x: real, s: real, n: real)
    requires s > 0.0 && x <= n * s
    ensures x / s <= n
  {
    var q := x / s;
    DivMul(x, s);
    assert (q - n) * s == q * s - n * s;
    ProductSign(q - n, s);
  }

  /** |x| <= n * s: the levels -n..n reach `x`. */
  ghost predicate Covers(s: real, n: int, x: real) { Abs(x) <= Dequant(n, s) }

  lemma ScaleCovers(group: seq<real>, n: int, i: nat, s: real)
    requires n > 0 && i < |group| && s == ScaleOf(group, n)
    ensures Covers(s, n, group[i])
  {
    CoversBelow(group[i], MaxAbs(group), n, s);
  }

  lemma CoversBelow(x: real, m: real, n: int, s: real)
    requires n > 0 && Abs(x) <= m && m / n as real <= s
    ensures Covers(s, n, x)
  {
    QuotientBound(m, s, n as real);
  }

  lemma QuotientBound(m: real, s: real, l: real)
    requires l > 0.0 && m / l <= s
    ensures m <= l * s
  {
    DivMul(m, l);
    MulMono(m / l, s, l);
  }

  lemma CodeBounded(x: real, s: real, n: int)
    requires n >= 0 && s > 0.0 && Covers(s, n, x)
    ensures -n <= Code(x, s) <= n
  {
    DivBound(x, s, n as real);
    RoundBounded(x / s, n);
  }

  /** Codes never leave -n..n, so no clamp to a wider range ever changes one. */
  lemma CodeInRange(group: seq<real>, n: int, i: nat)
    requires n > 0 && i < |group|
    ensures -n <= Code(group[i], ScaleOf(group, n)) <= n
  {
    var s := ScaleOf(group, n);
    ScaleCovers(group, n, i, s);
    CodeBounded(group[i], s, n);
  }

  /** Dequantising recovers a value within half a step. */
  lemma HalfStep(x: real, s: real)
    requires s > 0.0
    ensures Abs(Dequant(Code(x, s), s) - x) <= s / 2.0
  {
    RoundNear(x / s);
    DivMul(x, s);
    StepError(x, Round(x / s), x / s, s);
  }

  lemma StepError(x: real, c: int, q: real, s: real)
    requires -0.5 <= c as real - q <= 0.5 && s > 0.0 && q * s == x
    ensures -(s / 2.0) <= Dequant(c, s) - x <= s / 2.0
  {
    var d := c as real - q;
    HalfBound(d, s);
    assert d * s == c as real * s - q * s;
    assert Dequant(c, s) - x == d * s;
  }

  lemma HalfBound(d: real, s: real)
    requires -0.5 <= d <= 0.5 && s > 0.0
    ensures -(s / 2.0) <= d * s <= s / 2.0
  {
    MulMono(d, 0.5, s);
    MulMono(-0.5, d, s);
  }

  lemma ExactCode(x: real, s: real, q: int)
    requires s > 0.0 && x == q as real * s
    ensures Code(x, s) == q
  {
    DivMul(q as real, s);
    assert x / s == q as real;
    RoundInt(q);
  }

  function Dequant(q: int, s: real): real { q as real * s }

  lemma CodeOfDequantised(q: int, s: real)
    requires s > 0.0
    ensures Code(Dequant(q, s), s) == q
  {
    ExactCode(q as real * s, s, q);
  }

  lemma AbsScaled(x: real, s: real)
    requires s > 0.0
    ensures Abs(x * s) == Abs(x) * s
  {
    if x >= 0.0 {
      assert x * s >= 0.0;
    } else {
      assert (-x) * s >= 0.0;
      assert (-x) * s == -(x * s);
    }
  }

  function Codes(group: seq<real>, s: real): seq<int>
    requires s > 0.0
  {
    seq(|group|, i requires 0 <= i < |group| => Code(group[i], s))
  }

  function Dequantised(codes: seq<int>, s: real): seq<real> {
    seq(|codes|, i requires 0 <= i < |codes| => Dequant(codes[i], s))
  }

  /** |x| = n * s: `x` sits on the outermost level. */
  ghost predicate AtTop(x: real, s: real, n: int) { Abs(x) == Dequant(n, s) }

  lemma FullCode(x: real, s: real, n: int)
    requires n >= 0 && s > 0.0 && AtTop(x, s, n)
    ensures AtTop(Dequant(Code(x, s), s), s, n)
  {
    if x >= 0.0 {
      ExactCode(x, s, n);
    } else {
      assert x == (-n) as real * s;
      ExactCode(x, s, -n);
    }
  }

  lemma ScaleOfMax(m: real, s: real, n: int)
    requires n > 0 && s == MaxReal(m / n as real, 0.000000001)
    ensures Dequant(n, s) == MaxReal(m, Dequant(n, 0.000000001))
  {
    DivMul(m, n as real);
    MulMono(m / n as real, s, n as real);
    MulMono(0.000000001, s, n as real);
    assert Dequant(n, s) == s * n as real;
  }

  /** n scales are the largest magnitude of the group, or n times 1e-9 when that is larger. */
  lemma ScaleExact(group: seq<real>, n: int)
    requires n > 0
    ensures Dequant(n, ScaleOf(group, n)) == MaxReal(MaxAbs(group), Dequant(n, 0.000000001))
  {
    ScaleOfMax(MaxAbs(group), ScaleOf(group, n), n);
  }

  lemma ErrorBelow(e: real, s: real, n: int)
    requires n > 0 && e <= s / 2.0
    ensures Dequant(n, 2.0 * e) <= Dequant(n, s)
  {
    MulMono(2.0 * e, s, n as real);
  }

  ghost predicate Reaches(group: seq<real>, m: real) { exists i | 0 <= i < |group| :: Abs(group[i]) == m }

  lemma ScaleReaches(group: seq<real>, n: int, m: real, s: real, least: real)
    requires n > 0 && m >= 0.0 && forall i | 0 <= i < |group| :: Abs(group[i]) <= m
    requires s == ScaleOf(group, n) && least == Dequant(n, 0.000000001)
    ensures Dequant(n, s) <= MaxReal(m, least) && (m >= least && Reaches(group, m) ==> Dequant(n, s) == m)
  {
    ScaleExact(group, n);
    MaxAbsBelow(group, m);
    if Reaches(group, m) {
      MaxAbsIs(group, m);
    }
  }

  /** With the scale of its group a value within `m` comes back within m / 2n, or the floor's half step, and one
      of magnitude `m` exactly. */
  lemma ValueRecovered(group: seq<real>, n: int, i: nat, m: real, s: real, x: real, least: real)
    requires n > 0 && i < |group| && forall k | 0 <= k < |group| :: Abs(group[k]) <= m
    requires s == ScaleOf(group, n) && x == Dequant(Code(group[i], s), s) && least == Dequant(n, 0.000000001)
    ensures Dequant(n, 2.0 * Abs(x - group[i])) <= MaxReal(m, least)
    ensures Abs(group[i]) == m >= least ==> x == group[i]
  {
    ScaleReaches(group, n, m, s, least);
    HalfStep(group[i], s);
    ErrorBelow(Abs(x - group[i]), s, n);
    if Abs(group[i]) == m >= least {
      assert Reaches(group, m);
      ExactAtTop(group[i], s, n);
    }
  }

  lemma ExactAtTop(x: real, s: real, n: int)
    requires n >= 0 && s > 0.0 && AtTop(x, s, n)
    ensures Dequant(Code(x, s), s) == x
  {
    if x >= 0.0 {
      ExactCode(x, s, n);
    } else {
      assert x == (-n) as real * s;
      ExactCode(x, s, -n);
    }
  }

  lemma DequantisedBelow(q: int, s: real, n: int)
    requires s > 0.0 && -n <= q <= n
    ensures Covers(s, n, Dequant(q, s))
  {
    AbsScaled(q as real, s);
    MulMono(Abs(q as real), n as real, s);
  }

  lemma SmallScale(group: seq<real>, n: int)
    requires n > 0 && MaxAbs(group) <= Dequant(n, TINY)
    ensures ScaleOf(group, n) == TINY
  {
    QuotientAtMost(MaxAbs(group), n as real, TINY);
  }

  lemma FullScale(group: seq<real>, n: int, s: real)
    requires n > 0 && s >= TINY && MaxAbs(group) == Dequant(n, s)
    ensures ScaleOf(group, n) == s
  {
    QuotientIs(MaxAbs(group), n as real, s);
  }

  lemma {:induction false} MaxAbsBelow(s: seq<real>, m: real)
    requires m >= 0.0 && forall i | 0 <= i < |s| :: Abs(s[i]) <= m
    ensures MaxAbs(s) <= m
  {
  }

  lemma TopIsNonNegative(n: int, s: real)
    requires n > 0 && s > 0.0
    ensures Dequant(n, s) >= 0.0
  {
    ProductSign(n as real, s);
  }

  lemma ScaleFrom(group: seq<real>, n: int, s: real, top: nat)
    requires n > 0 && s >= TINY && forall i | 0 <= i < |group| :: Covers(s, n, group[i])
    requires s == TINY || (top < |group| && AtTop(group[top], s, n))
    ensures ScaleOf(group, n) == s
  {
    TopIsNonNegative(n, s);
    if s == TINY {
      MaxAbsBelow(group, Dequant(n, s));
      SmallScale(group, n);
    } else {
      MaxAbsIs(group, Dequant(n, s));
      FullScale(group, n, s);
    }
  }

  lemma SameCodes(codes: seq<int>, s: real)
    requires s > 0.0
    ensures Codes(Dequantised(codes, s), s) == codes
  {
    forall i | 0 <= i < |codes| ensures Code(Dequant(codes[i], s), s) == codes[i] {
      CodeOfDequantised(codes[i], s);
    }
  }

  lemma TopOf(x: real, m: real, n: int, s: real)
    requires n > 0 && Abs(x) == m && s == MaxReal(m / n as real, TINY) && s != TINY
    ensures AtTop(x, s, n)
  {
    DivMul(m, n as real);
  }

  /** When the scale is max/n, the largest value gets level n exactly. */
  lemma TopValue(group: seq<real>, n: int, i: nat, s: real)
    requires n > 0 && i < |group| && Abs(group[i]) == MaxAbs(group) && s == ScaleOf(group, n) && s != TINY
    ensures AtTop(Dequant(Code(group[i], s), s), s, n)
  {
    TopOf(group[i], MaxAbs(group), n, s);
    FullCode(group[i], s, n);
  }

  lemma NonZeroMax(group: seq<real>, n: int) returns (i: nat)
    requires n > 0 && ScaleOf(group, n) != TINY
    ensures i < |group| && Abs(group[i]) == MaxAbs(group)
  {
    var m := MaxAbs(group);
    if m == 0.0 {
      TopIsNonNegative(n, TINY);
      SmallScale(group, n);
    }
    i :| 0 <= i < |group| && Abs(group[i]) == m;
  }

  lemma DequantisedCovered(group: seq<real>, n: int, s: real, i: nat)
    requires n > 0 && s == ScaleOf(group, n) && i < |group|
    ensures Covers(s, n, Dequant(Code(group[i], s), s))
  {
    CodeInRange(group, n, i);
    DequantisedBelow(Code(group[i], s), s, n);
  }

  lemma DequantisedScale(group: seq<real>, n: int, s: real, back: seq<real>)
    requires n > 0 && s == ScaleOf(group, n) && back == Dequantised(Codes(group, s), s)
    ensures ScaleOf(back, n) == s
  {
    forall i | 0 <= i < |group| ensures Covers(s, n, back[i]) {
      DequantisedCovered(group, n, s, i);
    }
    var top := 0;
    if s != TINY {
      top := NonZeroMax(group, n);
      TopValue(group, n, top, s);
    }
    ScaleFrom(back, n, s, top);
  }

  /** Quantising dequantised values finds the same scale and the same codes. */
  lemma Requantise(group: seq<real>, n: int)
    requires n > 0
    ensures var s := ScaleOf(group, n);
            var back := Dequantised(Codes(group, s), s);
            ScaleOf(back, n) == s && Codes(back, s) == Codes(group, s)
  {
    var s := ScaleOf(group, n);
    SameCodes(Codes(group, s), s);
    DequantisedScale(group, n, s, Dequantised(Codes(group, s), s));
  }
}
