/**
  Memory history and trend of internal/utils/metrics.go. Floating-point numbers are modelled
  as reals: the regression identities are exact, rounding is not part of this model.
*/
module Metrics {
  import opened Wrappers

  // ---------- sums over samples ----------

  /** 0 + 1 + ... + (n - 1), and the squares of the same numbers. */
  function SumX(n: nat): real {
    if n == 0 then 0.0 else SumX(n - 1) + (n - 1) as real
  }

  function SumXX(n: nat): real {
    if n == 0 then 0.0 else SumXX(n - 1) + (n - 1) as real * (n - 1) as real
  }

  function SumY(s: seq<real>): real {
    if s == [] then 0.0 else SumY(s[..|s| - 1]) + s[|s| - 1]
  }

  /** Each sample times its position. */
  function SumXY(s: seq<real>): real {
    if s == [] then 0.0 else SumXY(s[..|s| - 1]) + (|s| - 1) as real * s[|s| - 1]
  }

  /** The sums with one sample more. */
  lemma SumsUnfold(s: seq<real>, n: nat)
    requires |s| == n + 1
    ensures SumX(n + 1) == SumX(n) + n as real && SumXX(n + 1) == SumXX(n) + n as real * n as real
    ensures SumY(s) == SumY(s[..n]) + s[n] && SumXY(s) == SumXY(s[..n]) + n as real * s[n]
  {
  }

  lemma SumsOfNothing()
    ensures SumX(0) == 0.0 && SumXX(0) == 0.0 && SumY([]) == 0.0 && SumXY([]) == 0.0
  {
  }

  function Denominator(n: nat): real {
    n as real * SumXX(n) - SumX(n) * SumX(n)
  }

  function Numerator(s: seq<real>): real {
    |s| as real * SumXY(s) - SumX(|s|) * SumY(s)
  }

  lemma {:induction false} SumXClosed(n: nat)
    ensures 2.0 * SumX(n) == n as real * (n as real - 1.0)
  {
    if n > 0 {
      SumXClosed(n - 1);
      var m := n as real - 1.0;
      assert (n - 1) as real == m;
      assert m * (m - 1.0) + 2.0 * m == (m + 1.0) * m;
    }
  }

  lemma {:induction false} SumXXClosed(n: nat)
    ensures 6.0 * SumXX(n) == n as real * (n as real - 1.0) * (2.0 * n as real - 1.0)
  {
    if n > 0 {
      SumXXClosed(n - 1);
      var m := n as real - 1.0;
      assert (n - 1) as real == m;
      assert m * (m - 1.0) * (2.0 * m - 1.0) + 6.0 * (m * m) == (m + 1.0) * m * (2.0 * (m + 1.0) - 1.0);
    }
  }

  /** The regression denominator in closed form. */
  lemma DenominatorClosed(n: nat)
    ensures 12.0 * Denominator(n) == (n as real * n as real) * (n as real * n as real - 1.0)
  {
    hide SumX, SumXX;
    SumXClosed(n);
    SumXXClosed(n);
    var x, a, b := n as real, SumX(n), SumXX(n);
    assert 12.0 * (x * b) == 2.0 * (x * (x * (x - 1.0) * (2.0 * x - 1.0)));
    assert 12.0 * (a * a) == 3.0 * ((2.0 * a) * (2.0 * a));
    assert (2.0 * a) * (2.0 * a) == (x * (x - 1.0)) * (x * (x - 1.0));
    Quartic(x);
  }

  lemma Quartic(x: real)
    ensures 2.0 * (x * (x * (x - 1.0) * (2.0 * x - 1.0))) - 3.0 * ((x * (x - 1.0)) * (x * (x - 1.0)))
         == (x * x) * (x * x - 1.0)
  {
  }

  lemma DenominatorPositive(n: nat)
    requires n >= 2
    ensures Denominator(n) > 0.0
  {
    DenominatorClosed(n);
    var q := n as real * n as real;
    assert q >= 4.0;
    assert q * (q - 1.0) > 0.0;
  }

  // ---------- slope and trend ----------

  function Slope(s: seq<real>): real
    requires |s| >= 2
  {
    DenominatorPositive(|s|);
    Numerator(s) / Denominator(|s|)
  }

  function Clamped(x: real): (r: real)
    ensures -1.0 <= r <= 1.0
  {
    if x > 1.0 then 1.0 else if x < -1.0 then -1.0 else x
  }

  /** The value GetMemoryTrend returns for the samples it looks at. */
  function Trend(s: seq<real>): (r: real)
    ensures -1.0 <= r <= 1.0
  {
    if |s| < 2 then 0.0 else Clamped(Slope(s) / 10.0)
  }

  lemma QuotientSign(a: real, d: real)
    requires d > 0.0
    ensures a / d > 0.0 <==> a > 0.0
    ensures a / d < 0.0 <==> a < 0.0
  {
    assert a == (a / d) * d;
    if a / d > 0.0 {
      assert (a / d) * d > 0.0;
    } else if a / d < 0.0 {
      assert (a / d) * d < 0.0;
    }
  }

  /** The sign of the trend is the sign of the regression numerator. */
  lemma TrendSign(s: seq<real>)
    requires |s| >= 2
    ensures Trend(s) > 0.0 <==> Numerator(s) > 0.0
    ensures Trend(s) < 0.0 <==> Numerator(s) < 0.0
  {
    hide Numerator, Denominator;
    DenominatorPositive(|s|);
    QuotientSign(Numerator(s), Denominator(|s|));
    QuotientSign(Slope(s), 10.0);
  }

  // ---------- exact on lines ----------

  /** One step of the sums over a line; primed values are those with one sample more. */
  lemma LineStep(a: real, b: real, x: real, y: real, sx: real, sxx: real, sy: real, sxy: real,
                 n: real, sx': real, sxx': real, sy': real, sxy': real)
    requires y == a + b * x && n == x + 1.0
    requires sy == a * x + b * sx && sxy == a * sx + b * sxx
    requires sx' == sx + x && sxx' == sxx + x * x && sy' == sy + y && sxy' == sxy + x * y
    ensures sy' == a * n + b * sx' && sxy' == a * sx' + b * sxx'
  {
  }

  lemma {:induction false} SumsOfLine(s: seq<real>, a: real, b: real)
    requires forall i :: 0 <= i < |s| ==> s[i] == a + b * i as real
    ensures SumY(s) == a * |s| as real + b * SumX(|s|)
    ensures SumXY(s) == a * SumX(|s|) + b * SumXX(|s|)
    decreases |s|
  {
    hide SumX, SumXX, SumY, SumXY;
    SumsOfNothing();
    if s != [] {
      var m := |s| - 1;
      SumsOfLine(s[..m], a, b);
      SumsUnfold(s, m);
      LineStep(a, b, m as real, s[m], SumX(m), SumXX(m), SumY(s[..m]), SumXY(s[..m]),
               |s| as real, SumX(|s|), SumXX(|s|), SumY(s), SumXY(s));
    }
  }

  lemma LineNumerator(n: real, a: real, b: real, x: real, xx: real)
    ensures n * (a * x + b * xx) - x * (a * n + b * x) == b * (n * xx - x * x)
  {
  }

  lemma NumeratorOfLine(s: seq<real>, a: real, b: real)
    requires forall i :: 0 <= i < |s| ==> s[i] == a + b * i as real
    ensures Numerator(s) == b * Denominator(|s|)
  {
    hide SumX, SumXX, SumY, SumXY;
    SumsOfLine(s, a, b);
    LineNumerator(|s| as real, a, b, SumX(|s|), SumXX(|s|));
  }

  /** On samples of a line the slope is the line's. */
  lemma SlopeOfLine(s: seq<real>, a: real, b: real)
    requires |s| >= 2
    requires forall i :: 0 <= i < |s| ==> s[i] == a + b * i as real
    ensures Slope(s) == b
  {
    hide Numerator, Denominator;
    NumeratorOfLine(s, a, b);
    DenominatorPositive(|s|);
    Cancel(Numerator(s), b, Denominator(|s|));
  }

  /** A tenth of the slope, cut off at one: a line that rises by ten per sample already gives the most. */
  lemma TrendOfLine(s: seq<real>, a: real, b: real)
    requires |s| >= 2
    requires forall i :: 0 <= i < |s| ==> s[i] == a + b * i as real
    ensures Trend(s) == if b >= 10.0 then 1.0 else if b <= -10.0 then -1.0 else b / 10.0
  {
    hide Slope;
    SlopeOfLine(s, a, b);
  }

  lemma Cancel(a: real, b: real, d: real)
    requires a == b * d && d != 0.0
    ensures a / d == b
  {
  }

  // ---------- invariance under shifts ----------

  lemma {:induction false} SumsOfShift(s: seq<real>, t: seq<real>, d: real)
    requires |s| == |t| && forall i :: 0 <= i < |s| ==> t[i] == s[i] + d
    ensures SumY(t) == SumY(s) + d * |s| as real
    ensures SumXY(t) == SumXY(s) + d * SumX(|s|)
    decreases |s|
  {
    if s != [] {
      SumsOfShift(s[..|s| - 1], t[..|t| - 1], d);
      var x, y := (|s| - 1) as real, s[|s| - 1];
      assert |s| as real == x + 1.0;
      assert x * (y + d) == x * y + d * x;
      assert d * (x + 1.0) == d * x + d;
      assert d * (SumX(|s| - 1) + x) == d * SumX(|s| - 1) + d * x;
    }
  }

  /** Raising all samples by the same amount does not change the trend. */
  lemma TrendOfShift(s: seq<real>, t: seq<real>, d: real)
    requires |s| == |t| && forall i :: 0 <= i < |s| ==> t[i] == s[i] + d
    ensures Trend(t) == Trend(s)
  {
    SumsOfShift(s, t, d);
    var n, x := |s| as real, SumX(|s|);
    assert n * (SumXY(s) + d * x) == n * SumXY(s) + d * n * x;
    assert x * (SumY(s) + d * n) == x * SumY(s) + d * n * x;
    assert Numerator(t) == Numerator(s);
  }

  // ---------- reversal ----------

  function Reversed(s: seq<real>): (r: seq<real>)
    ensures |r| == |s|
  {
    if s == [] then [] else [s[|s| - 1]] + Reversed(s[..|s| - 1])
  }

  lemma {:induction false} SumsOfCons(y: real, s: seq<real>)
    ensures SumY([y] + s) == y + SumY(s)
    ensures SumXY([y] + s) == SumXY(s) + SumY(s)
    decreases |s|
  {
    var t := [y] + s;
    if s == [] {
      assert t[..0] == [];
    } else {
      var init := s[..|s| - 1];
      assert t[..|t| - 1] == [y] + init;
      SumsOfCons(y, init);
      var x, z := (|s| - 1) as real, s[|s| - 1];
      assert t[|t| - 1] == z && (|t| - 1) as real == x + 1.0;
      assert (x + 1.0) * z == x * z + z;
    }
  }

  lemma ReversalStep(x: real, sy: real, sxy: real, z: real, n: real, sy': real, sxy': real, r: real, r': real)
    requires n == x + 1.0 && sy' == sy + z && sxy' == sxy + x * z
    requires r == (x - 1.0) * sy - sxy && r' == r + sy
    ensures r' == (n - 1.0) * sy' - sxy'
  {
  }

  lemma {:induction false} SumsOfReversal(s: seq<real>)
    ensures SumY(Reversed(s)) == SumY(s)
    ensures SumXY(Reversed(s)) == (|s| as real - 1.0) * SumY(s) - SumXY(s)
    decreases |s|
  {
    hide SumX, SumXX, SumY, SumXY;
    SumsOfNothing();
    if s != [] {
      var m := |s| - 1;
      SumsOfReversal(s[..m]);
      SumsOfCons(s[m], Reversed(s[..m]));
      SumsUnfold(s, m);
      ReversalStep(m as real, SumY(s[..m]), SumXY(s[..m]), s[m], |s| as real, SumY(s), SumXY(s),
                   SumXY(Reversed(s[..m])), SumXY(Reversed(s)));
    }
  }

  lemma ReversedNumerator(n: real, x: real, y: real, xy: real, y': real, xy': real)
    requires 2.0 * x == n * (n - 1.0)
    requires y' == y && xy' == (n - 1.0) * y - xy
    ensures n * xy' - x * y' == -(n * xy - x * y)
  {
    assert n * xy' == (n * (n - 1.0)) * y - n * xy;
  }

  lemma NumeratorOfReversal(s: seq<real>)
    ensures Numerator(Reversed(s)) == -Numerator(s)
  {
    hide SumX, SumXX, SumY, SumXY;
    SumsOfReversal(s);
    SumXClosed(|s|);
    ReversedNumerator(|s| as real, SumX(|s|), SumY(s), SumXY(s), SumY(Reversed(s)), SumXY(Reversed(s)));
  }

  /** Reading the samples backwards negates the trend. */
  lemma TrendOfReversal(s: seq<real>)
    ensures Trend(Reversed(s)) == -Trend(s)
  {
    hide Numerator, Denominator;
    if |s| >= 2 {
      NumeratorOfReversal(s);
      DenominatorPositive(|s|);
      NegatedQuotient(Numerator(s), Denominator(|s|));
    }
  }

  lemma NegatedQuotient(a: real, d: real)
    requires d != 0.0
    ensures (-a) / d == -(a / d)
  {
  }

  // ---------- growth ----------

  /** What appending `y` adds to the numerator when m == |s|: a sum over pairs (sample, y). */
  function Gap(s: seq<real>, y: real, m: nat): real {
    if s == [] then 0.0
    else Gap(s[..|s| - 1], y, m) + (m as real - (|s| - 1) as real) * (y - s[|s| - 1])
  }

  lemma GapStep(k: real, x: real, y: real, z: real, sx: real, sy: real, sxy: real, g: real,
                n: real, sx': real, sy': real, sxy': real, g': real)
    requires n == x + 1.0 && sx' == sx + x && sy' == sy + z && sxy' == sxy + x * z
    requires g == k * x * y - sx * y - k * sy + sxy && g' == g + (k - x) * (y - z)
    ensures g' == k * n * y - sx' * y - k * sy' + sxy'
  {
  }

  lemma {:induction false} GapSums(s: seq<real>, y: real, m: nat)
    ensures Gap(s, y, m)
         == m as real * |s| as real * y - SumX(|s|) * y - m as real * SumY(s) + SumXY(s)
    decreases |s|
  {
    hide SumX, SumXX, SumY, SumXY;
    SumsOfNothing();
    if s != [] {
      var l := |s| - 1;
      GapSums(s[..l], y, m);
      SumsUnfold(s, l);
      GapStep(m as real, l as real, y, s[l], SumX(l), SumY(s[..l]), SumXY(s[..l]), Gap(s[..l], y, m),
              |s| as real, SumX(|s|), SumY(s), SumXY(s), Gap(s, y, m));
    }
  }

  lemma AppendStep(n: real, y: real, x: real, sy: real, sxy: real, g: real, n': real, x': real, sy': real, sxy': real)
    requires n' == n + 1.0 && x' == x + n && sy' == sy + y && sxy' == sxy + n * y
    requires g == n * n * y - x * y - n * sy + sxy
    ensures n' * sxy' - x' * sy' == n * sxy - x * sy + g
  {
  }

  lemma NumeratorOfAppend(s: seq<real>, y: real)
    ensures Numerator(s + [y]) == Numerator(s) + Gap(s, y, |s|)
  {
    hide SumX, SumXX, SumY, SumXY, Gap;
    GapSums(s, y, |s|);
    var t := s + [y];
    assert t[..|s|] == s;
    SumsUnfold(t, |s|);
    AppendStep(|s| as real, y, SumX(|s|), SumY(s), SumXY(s), Gap(s, y, |s|),
               |t| as real, SumX(|t|), SumY(t), SumXY(t));
  }

  lemma {:induction false} GapPositive(s: seq<real>, y: real, m: nat)
    requires |s| <= m && forall i :: 0 <= i < |s| ==> s[i] < y
    ensures Gap(s, y, m) >= 0.0 && (s != [] ==> Gap(s, y, m) > 0.0)
    decreases |s|
  {
    if s != [] {
      var l := |s| - 1;
      GapPositive(s[..l], y, m);
      var a, b := m as real - l as real, y - s[l];
      ProductPositive(a, b);
      assert Gap(s, y, m) == Gap(s[..l], y, m) + a * b;
    }
  }

  lemma ProductPositive(a: real, b: real)
    requires a > 0.0 && b > 0.0
    ensures a * b > 0.0
  {
    assert b == (a * b) / a;
    QuotientSign(a * b, a);
  }

  lemma {:induction false} NumeratorOfGrowth(s: seq<real>)
    requires forall i, j :: 0 <= i < j < |s| ==> s[i] < s[j]
    ensures Numerator(s) >= 0.0 && (|s| >= 2 ==> Numerator(s) > 0.0)
    decreases |s|
  {
    if s != [] {
      var init, z := s[..|s| - 1], s[|s| - 1];
      assert s == init + [z];
      NumeratorOfGrowth(init);
      NumeratorOfAppend(init, z);
      GapPositive(init, z, |init|);
    }
  }

  /** Strictly growing memory use gives a positive trend. */
  lemma GrowthHasPositiveTrend(s: seq<real>)
    requires |s| >= 2 && forall i, j :: 0 <= i < j < |s| ==> s[i] < s[j]
    ensures Trend(s) > 0.0
  {
    hide Numerator;
    NumeratorOfGrowth(s);
    TrendSign(s);
  }

  // ---------- least squares ----------

  /** The sum of the squared distances of the samples from the line a + b * i. */
  function SquaredError(s: seq<real>, a: real, b: real): real {
    if s == [] then 0.0
    else
      var d := s[|s| - 1] - a - b * (|s| - 1) as real;
      SquaredError(s[..|s| - 1], a, b) + d * d
  }

  /** The error of a line in terms of the sums; `e` is that of the line zero. */
  function ErrorOf(e: real, n: real, sx: real, sxx: real, sy: real, sxy: real, a: real, b: real): real {
    e - 2.0 * (a * sy) - 2.0 * (b * sxy) + n * (a * a) + 2.0 * (a * b * sx) + b * b * sxx
  }

  lemma ErrorStep(e: real, n: real, x: real, y: real, sx: real, sxx: real, sy: real, sxy: real, a: real, b: real)
    ensures ErrorOf(e, n, sx, sxx, sy, sxy, a, b) + (y - a - b * x) * (y - a - b * x)
         == ErrorOf(e + y * y, n + 1.0, sx + x, sxx + x * x, sy + y, sxy + x * y, a, b)
  {
    assert (y - a - b * x) * (y - a - b * x)
        == y * y - 2.0 * (a * y) - 2.0 * (b * (x * y)) + a * a + 2.0 * (a * b * x) + b * b * (x * x);
    assert b * (sxy + x * y) == b * sxy + b * (x * y);
    assert a * b * (sx + x) == a * b * sx + a * b * x;
    assert b * b * (sxx + x * x) == b * b * sxx + b * b * (x * x);
    assert a * (sy + y) == a * sy + a * y;
    assert (n + 1.0) * (a * a) == n * (a * a) + a * a;
  }

  /** The same with one sample more as primed values. */
  lemma ErrorMore(e: real, n: real, x: real, y: real, sx: real, sxx: real, sy: real, sxy: real, a: real, b: real,
                  e': real, n': real, sx': real, sxx': real, sy': real, sxy': real, d: real)
    requires e' == e + y * y && n' == n + 1.0 && sx' == sx + x && sxx' == sxx + x * x && sy' == sy + y && sxy' == sxy + x * y
    requires d == y - a - b * x
    ensures ErrorOf(e', n', sx', sxx', sy', sxy', a, b) == ErrorOf(e, n, sx, sxx, sy, sxy, a, b) + d * d
  {
    hide ErrorOf;
    ErrorStep(e, n, x, y, sx, sxx, sy, sxy, a, b);
  }

  lemma {:induction false} ErrorFromSums(s: seq<real>, a: real, b: real)
    ensures SquaredError(s, a, b)
         == ErrorOf(SquaredError(s, 0.0, 0.0), |s| as real, SumX(|s|), SumXX(|s|), SumY(s), SumXY(s), a, b)
    decreases |s|
  {
    hide ErrorOf, SquaredError, SumX, SumXX, SumY, SumXY;
    if s == [] {
      SumsOfNothing();
      NoError(a, b);
      NoError(0.0, 0.0);
      ErrorOfNothing(a, b);
    } else {
      var init, x, y := s[..|s| - 1], (|s| - 1) as real, s[|s| - 1];
      ErrorUnfold(s, a, b);
      ErrorOfZeroLine(s);
      SumsUnfold(s, |s| - 1);
      ErrorFromSums(init, a, b);
      ErrorMore(SquaredError(init, 0.0, 0.0), x, x, y, SumX(|init|), SumXX(|init|), SumY(init), SumXY(init), a, b,
                SquaredError(s, 0.0, 0.0), |s| as real, SumX(|s|), SumXX(|s|), SumY(s), SumXY(s), y - a - b * x);
    }
  }

  lemma NoError(a: real, b: real)
    ensures SquaredError([], a, b) == 0.0
  {
  }

  lemma ErrorUnfold(s: seq<real>, a: real, b: real)
    requires s != []
    ensures var d := s[|s| - 1] - a - b * (|s| - 1) as real;
      SquaredError(s, a, b) == SquaredError(s[..|s| - 1], a, b) + d * d
  {
  }

  lemma ErrorOfZeroLine(s: seq<real>)
    requires s != []
    ensures SquaredError(s, 0.0, 0.0) == SquaredError(s[..|s| - 1], 0.0, 0.0) + s[|s| - 1] * s[|s| - 1]
  {
    assert s[|s| - 1] - 0.0 - 0.0 * (|s| - 1) as real == s[|s| - 1];
  }

  lemma ErrorOfNothing(a: real, b: real)
    ensures ErrorOf(0.0, 0.0, 0.0, 0.0, 0.0, 0.0, a, b) == 0.0
  {
  }

  /** How much a line shifted by u and tilted by v adds to the error of a line that solves the normal equations. */
  lemma ErrorOfShifted(e: real, n: real, sx: real, sxx: real, sy: real, sxy: real, a: real, b: real, u: real, v: real)
    requires n * a + b * sx == sy && a * sx + b * sxx == sxy
    ensures ErrorOf(e, n, sx, sxx, sy, sxy, a + u, b + v)
         == ErrorOf(e, n, sx, sxx, sy, sxy, a, b) + (n * (u * u) + 2.0 * (u * v * sx) + v * v * sxx)
  {
    assert u * sy == u * (n * a) + u * (b * sx);
    assert v * sxy == v * (a * sx) + v * (b * sxx);
    assert n * ((a + u) * (a + u)) == n * (a * a) + 2.0 * (u * (n * a)) + n * (u * u);
    assert (a + u) * (b + v) * sx == a * b * sx + v * (a * sx) + u * (b * sx) + u * v * sx;
    assert (b + v) * (b + v) * sxx == b * b * sxx + 2.0 * (v * (b * sxx)) + v * v * sxx;
    assert (a + u) * sy == a * sy + u * sy && (b + v) * sxy == b * sxy + v * sxy;
  }

  function Square(x: real): real {
    Product(x, x)
  }

  function Product(a: real, b: real): real {
    a * b
  }

  lemma ProductOfPositives(a: real, b: real)
    requires a > 0.0 && b > 0.0
    ensures Product(a, b) > 0.0
  {
    ProductPositive(a, b);
  }

  lemma ProductOfNegations(a: real, b: real, a': real, b': real)
    requires a + a' == 0.0 && b + b' == 0.0
    ensures Product(a, b) == Product(a', b')
  {
    assert a' == -a && b' == -b;
    assert a * b == (-a) * (-b);
  }

  lemma SquareSign(x: real)
    ensures Square(x) >= 0.0 && (Square(x) == 0.0 <==> x == 0.0)
  {
    SquareOfZero();
    hide Product;
    if x > 0.0 {
      ProductOfPositives(x, x);
    } else if x < 0.0 {
      ProductOfPositives(0.0 - x, 0.0 - x);
      ProductOfNegations(x, x, 0.0 - x, 0.0 - x);
    }
  }

  lemma SquareOfZero()
    ensures Square(0.0) == 0.0
  {
  }

  lemma ZeroTimes(v: real, x: real)
    requires v == 0.0
    ensures v * x == 0.0
  {
  }

  /** What the shift adds is not negative, and zero without shift and tilt only. */
  lemma AddedPositive(n: real, sx: real, sxx: real, u: real, v: real, q: real)
    requires n > 0.0 && n * sxx - sx * sx > 0.0
    requires q == n * (u * u) + 2.0 * (u * v * sx) + v * v * sxx
    ensures q >= 0.0 && (q == 0.0 ==> u == 0.0 && v == 0.0)
  {
    hide Square;
    var w, d := n * u + v * sx, n * sxx - sx * sx;
    AddedIdentity(n, sx, sxx, u, v, w, d, q);
    SquareSign(w);
    SquareSign(v);
    ProductSign(d, Square(v));
    ProductSign(n, q);
    if q == 0.0 {
      ZeroTimes(v, sx);
      ProductSign(n, u);
    }
  }

  lemma AddedIdentity(n: real, sx: real, sxx: real, u: real, v: real, w: real, d: real, q: real)
    requires w == n * u + v * sx && d == n * sxx - sx * sx
    requires q == n * (u * u) + 2.0 * (u * v * sx) + v * v * sxx
    ensures n * q == Square(w) + d * Square(v)
  {
    assert (n * u + v * sx) * (n * u + v * sx) == n * (n * (u * u)) + 2.0 * (n * (u * v * sx)) + v * v * (sx * sx);
    assert (n * sxx - sx * sx) * (v * v) == n * (v * v * sxx) - v * v * (sx * sx);
    assert n * q == n * (n * (u * u)) + 2.0 * (n * (u * v * sx)) + n * (v * v * sxx);
  }

  lemma ProductSign(d: real, x: real)
    requires d > 0.0
    ensures d * x >= 0.0 <==> x >= 0.0
    ensures d * x == 0.0 <==> x == 0.0
  {
  }

  /** Slope and intercept solve the normal equations. */
  lemma NormalEquations(n: real, sx: real, sxx: real, sy: real, sxy: real, b: real, a: real)
    requires n > 0.0 && b * (n * sxx - sx * sx) == n * sxy - sx * sy && n * a == sy - b * sx
    ensures n * a + b * sx == sy && a * sx + b * sxx == sxy
  {
    assert n * (a * sx) == (n * a) * sx == sy * sx - b * (sx * sx);
    assert n * (a * sx + b * sxx) == sy * sx - b * (sx * sx) + b * (n * sxx);
    assert b * (n * sxx - sx * sx) == b * (n * sxx) - b * (sx * sx);
    assert n * (a * sx + b * sxx) == n * sxy;
    ProductSign(n, a * sx + b * sxx - sxy);
    assert n * (a * sx + b * sxx - sxy) == n * (a * sx + b * sxx) - n * sxy;
  }

  function Intercept(s: seq<real>): real
    requires |s| >= 2
  {
    (SumY(s) - Slope(s) * SumX(|s|)) / |s| as real
  }

  /** The line with this slope fits the samples best, and no other line fits as well. */
  lemma LeastSquares(s: seq<real>, a: real, b: real)
    requires |s| >= 2
    ensures SquaredError(s, Intercept(s), Slope(s)) <= SquaredError(s, a, b)
    ensures SquaredError(s, Intercept(s), Slope(s)) == SquaredError(s, a, b) ==> a == Intercept(s) && b == Slope(s)
  {
    hide SumX, SumXX, SumY, SumXY, SquaredError, ErrorOf;
    var n, sx, sxx, sy, sxy := |s| as real, SumX(|s|), SumXX(|s|), SumY(s), SumXY(s);
    var a0, b0, e := Intercept(s), Slope(s), SquaredError(s, 0.0, 0.0);
    DenominatorPositive(|s|);
    Quotient(Numerator(s), Denominator(|s|));
    Quotient(sy - b0 * sx, n);
    NormalEquations(n, sx, sxx, sy, sxy, b0, a0);
    ErrorFromSums(s, a0, b0);
    ErrorFromSums(s, a, b);
    var u, v := a - a0, b - b0;
    ErrorOfShifted(e, n, sx, sxx, sy, sxy, a0, b0, u, v);
    assert a0 + u == a && b0 + v == b;
    AddedPositive(n, sx, sxx, u, v, n * (u * u) + 2.0 * (u * v * sx) + v * v * sxx);
  }

  lemma Quotient(x: real, d: real)
    requires d > 0.0
    ensures (x / d) * d == x && d * (x / d) == x
  {
  }

  // ---------- history ----------

  datatype MemStats = MemStats(usagePercent: real, heapObjects: nat)

  function Usage(samples: seq<MemStats>): (r: seq<real>)
    ensures |r| == |samples|
    ensures forall i :: 0 <= i < |samples| ==> r[i] == samples[i].usagePercent
  {
    if samples == [] then [] else Usage(samples[..|samples| - 1]) + [samples[|samples| - 1].usagePercent]
  }

  lemma SlopeFromSums(s: seq<real>, n: real, sumX: real, sumY: real, sumXY: real, sumXX: real)
    requires |s| >= 2 && n == |s| as real
    requires sumX == SumX(|s|) && sumXX == SumXX(|s|) && sumY == SumY(s) && sumXY == SumXY(s)
    ensures n * sumXX - sumX * sumX > 0.0
    ensures Slope(s) == (n * sumXY - sumX * sumY) / (n * sumXX - sumX * sumX)
  {
    hide SumX, SumXX, SumY, SumXY;
    DenominatorPositive(|s|);
  }

  lemma LastNTwice<T>(s: seq<T>, n: nat, m: nat)
    requires m <= n
    ensures LastN(LastN(s, n), m) == LastN(s, m)
  {
  }

  /** The accumulation loop of GetMemoryTrend. */
  method RegressionSums(samples: seq<MemStats>) returns (sumX: real, sumY: real, sumXY: real, sumXX: real)
    ensures sumX == SumX(|samples|) && sumXX == SumXX(|samples|)
    ensures sumY == SumY(Usage(samples)) && sumXY == SumXY(Usage(samples))
  {
    hide SumX, SumXX, SumY, SumXY;
    sumX, sumY, sumXY, sumXX := 0.0, 0.0, 0.0, 0.0;
    ghost var u := Usage(samples);
    SumsOfNothing();
    assert u[..0] == [];
    for i := 0 to |samples|
      invariant sumX == SumX(i) && sumXX == SumXX(i)
      invariant sumY == SumY(u[..i]) && sumXY == SumXY(u[..i])
    {
      SumsUnfold(u[..i + 1], i);
      assert u[..i + 1][..i] == u[..i];
      var x := i as real;
      var y := samples[i].usagePercent;
      sumX := sumX + x;
      sumY := sumY + y;
      sumXY := sumXY + x * y;
      sumXX := sumXX + x * x;
    }
    assert u[..|samples|] == u;
  }

  class SystemStats {
    var memoryStats: MemStats
    var numGoroutine: nat
    var memoryHistory: seq<MemStats>
    var goroutineHistory: seq<nat>
    const maxHistoryEntries: nat
    /** Every sample ever taken, oldest first. */
    ghost var samples: seq<MemStats>
    ghost var goroutineSamples: seq<nat>

    ghost predicate Valid()
      reads this
    {
      && maxHistoryEntries > 0
      && memoryHistory == LastN(samples, maxHistoryEntries)
      && goroutineHistory == LastN(goroutineSamples, maxHistoryEntries)
      && (samples != [] ==> memoryStats == samples[|samples| - 1])
    }

    constructor (maxEntries: nat := 100)
      requires maxEntries > 0
      ensures Valid() && samples == [] && goroutineSamples == [] && maxHistoryEntries == maxEntries
    {
      maxHistoryEntries := maxEntries;
      memoryStats := MemStats(0.0, 0);
      numGoroutine := 0;
      memoryHistory, goroutineHistory := [], [];
      samples, goroutineSamples := [], [];
    }

    /** One reading of the runtime: `current` and `goroutines` are what it reported. */
    method UpdateMemStats(current: MemStats, goroutines: nat)
      requires Valid()
      modifies this
      ensures Valid()
      ensures samples == old(samples) + [current] && goroutineSamples == old(goroutineSamples) + [goroutines]
      ensures memoryStats == current && numGoroutine == goroutines
    {
      LastNAppend(samples, current, maxHistoryEntries);
      LastNAppend(goroutineSamples, goroutines, maxHistoryEntries);
      memoryStats := current;
      numGoroutine := goroutines;
      if |memoryHistory| >= maxHistoryEntries {
        memoryHistory := memoryHistory[1..];
      }
      memoryHistory := memoryHistory + [current];
      if |goroutineHistory| >= maxHistoryEntries {
        goroutineHistory := goroutineHistory[1..];
      }
      goroutineHistory := goroutineHistory + [goroutines];
      samples := samples + [current];
      goroutineSamples := goroutineSamples + [goroutines];
    }

    /** Least-squares slope over the last five samples, scaled and clamped. */
    method GetMemoryTrend() returns (trend: real)
      requires Valid()
      ensures trend == Trend(Usage(LastN(memoryHistory, 5)))
      ensures maxHistoryEntries >= 5 ==> trend == Trend(Usage(LastN(samples, 5)))
    {
      if maxHistoryEntries >= 5 {
        LastNTwice(samples, maxHistoryEntries, 5);
      }
      if |memoryHistory| < 2 {
        return 0.0;
      }
      var sampleCount := 5;
      if |memoryHistory| < sampleCount {
        sampleCount := |memoryHistory|;
      }
      var window := memoryHistory[|memoryHistory| - sampleCount..];
      assert window == LastN(memoryHistory, 5);
      var n := |window| as real;
      var sumX, sumY, sumXY, sumXX := RegressionSums(window);
      SlopeFromSums(Usage(window), n, sumX, sumY, sumXY, sumXX);
      hide Slope;
      var slope := (n * sumXY - sumX * sumY) / (n * sumXX - sumX * sumX);
      var normalizedSlope := slope / 10.0;
      if normalizedSlope > 1.0 {
        return 1.0;
      } else if normalizedSlope < -1.0 {
        return -1.0;
      }
      return normalizedSlope;
    }
  }
}
