/** The least-squares drift of the retained samples
    (rpd_tracer/Firefly.cpp:78-110), on exact numbers. */
module DriftRegression {
  import opened MeasurementWindow

  /** Squares about another reference. */
  lemma {:induction false} SquaresMove(s: seq<Measurement>, r: int, t: int)
    ensures SumTimeSquared(s, t) == SumTimeSquared(s, r) - 2 * (t - r) * SumTime(s, r) + |s| * ((t - r) * (t - r))
  {
    if s != [] {
      SquaresMove(s[1..], r, t);
      SquareOfDifference(s[0].timestamp - r, t - r, SumTime(s[1..], r), |s| - 1);
      assert s[0].timestamp - t == (s[0].timestamp - r) - (t - r);
    }
  }

  lemma SquareOfDifference(x: int, d: int, sum: int, n: int)
    ensures (x - d) * (x - d) - 2 * d * sum + n * (d * d) == x * x - 2 * d * (x + sum) + (n + 1) * (d * d)
  {
    assert (x - d) * (x - d) == x * x - 2 * (x * d) + d * d;
    assert 2 * d * (x + sum) == 2 * (x * d) + 2 * d * sum;
  }

  /** One sample adds its squared distances to all others. */
  lemma SpreadGrows(s: seq<Measurement>, r: int)
    requires s != []
    ensures Denominator(s, r) == Denominator(s[1..], r) + SumTimeSquared(s[1..], s[0].timestamp)
  {
    SumsNext(s, 0, r);
    assert s[0..] == s;
    SquaresMove(s[1..], r, s[0].timestamp);
    hide SumTime, SumTimeSquared;
    ExpandSpread(|s| - 1, s[0].timestamp - r, SumTime(s[1..], r), SumTimeSquared(s[1..], r));
  }

  lemma ExpandSpread(n: int, d: int, x: int, xx: int)
    ensures (n + 1) * (d * d + xx) - (d + x) * (d + x) == n * xx - x * x + (xx - 2 * d * x + n * (d * d))
  {
    assert (n + 1) * (d * d + xx) == n * (d * d) + n * xx + d * d + xx;
    assert (d + x) * (d + x) == d * d + 2 * d * x + x * x;
  }

  lemma {:induction false} SquaresVanish(s: seq<Measurement>, t: int)
    ensures SumTimeSquared(s, t) >= 0
    ensures SumTimeSquared(s, t) == 0 <==> forall m :: m in s ==> m.timestamp == t
  {
    if s != [] {
      SquaresVanish(s[1..], t);
      var d := s[0].timestamp - t;
      assert d * d >= 0 && (d * d == 0 <==> d == 0);
      assert s == [s[0]] + s[1..];
    }
  }

  /** The denominator is never negative, and zero exactly when all timestamps
      coincide. */
  lemma {:induction false} ZeroIffSimultaneous(s: seq<Measurement>, r: int)
    ensures Denominator(s, r) >= 0
    ensures Denominator(s, r) == 0 <==> forall i, j :: 0 <= i < j < |s| ==> s[i].timestamp == s[j].timestamp
    decreases |s|
  {
    if s != [] {
      var rest, t := s[1..], s[0].timestamp;
      ZeroIffSimultaneous(rest, r);
      SpreadGrows(s, r);
      SquaresVanish(rest, t);
      hide Denominator, SumTimeSquared;
      assert forall i :: 0 <= i < |rest| ==> rest[i] == s[i + 1];
      if Denominator(s, r) == 0 {
        assert forall j :: 0 < j < |s| ==> s[j] in rest;
      }
      if forall i, j :: 0 <= i < j < |s| ==> s[i].timestamp == s[j].timestamp {
        assert forall m :: m in rest ==> m.timestamp == t;
      }
    }
  }

  /** The samples lie on a line. */
  ghost predicate OnLine(s: seq<Measurement>, r: int, start: real, drift: real) {
    forall m :: m in s ==> m.offset as real == start + drift * (m.timestamp - r) as real
  }

  /** The sums of n points on the line. */
  predicate OnLineSums(n: int, sumX: int, sumY: int, sumXY: int, sumX2: int, start: real, drift: real) {
    && sumY as real == n as real * start + drift * sumX as real
    && sumXY as real == start * sumX as real + drift * sumX2 as real
  }

  lemma {:induction false} LineSums(s: seq<Measurement>, r: int, start: real, drift: real)
    requires OnLine(s, r, start, drift)
    ensures OnLineSums(|s|, SumTime(s, r), SumOffset(s), SumProduct(s, r), SumTimeSquared(s, r), start, drift)
  {
    hide OnLineSums, OnLine;
    if s == [] {
      NoPoints(start, drift);
    } else {
      FirstOnLine(s, r, start, drift);
      LineSums(s[1..], r, start, drift);
      SumsNext(s, 0, r);
      assert s[0..] == s;
      hide SumTime, SumTimeSquared, SumOffset, SumProduct;
      AddPoint(s[0].timestamp - r, s[0].offset, |s| - 1, SumTime(s[1..], r), SumTimeSquared(s[1..], r),
               SumOffset(s[1..]), SumProduct(s[1..], r), start, drift);
    }
  }

  lemma NoPoints(start: real, drift: real)
    ensures OnLineSums(0, 0, 0, 0, 0, start, drift)
  {
  }

  lemma FirstOnLine(s: seq<Measurement>, r: int, start: real, drift: real)
    requires s != [] && OnLine(s, r, start, drift)
    ensures OnLine(s[1..], r, start, drift) && s[0].offset as real == start + drift * (s[0].timestamp - r) as real
  {
  }

  lemma AddPoint(x: int, y: int, n: int, sumX: int, sumX2: int, sumY: int, sumXY: int, start: real, drift: real)
    requires y as real == start + drift * x as real && OnLineSums(n, sumX, sumY, sumXY, sumX2, start, drift)
    ensures OnLineSums(n + 1, x + sumX, y + sumY, x * y + sumXY, x * x + sumX2, start, drift)
  {
    var a, b := x as real, y as real;
    assert (x * y) as real == a * b && (x * x) as real == a * a;
    assert a * b == start * a + drift * (a * a);
    assert (n + 1) as real * start == n as real * start + start;
    assert drift * (x + sumX) as real == drift * a + drift * sumX as real;
    assert start * (x + sumX) as real == start * a + start * sumX as real;
    assert drift * (x * x + sumX2) as real == drift * (a * a) + drift * sumX2 as real;
  }

  /** A clock that gains at a constant rate has exactly that drift rate. */
  lemma DriftOfLine(s: seq<Measurement>, start: real, drift: real)
    requires s != [] && OnLine(s, s[0].timestamp, start, drift)
    ensures (exists i, j :: 0 <= i < j < |s| && s[i].timestamp != s[j].timestamp) ==> Slope(s) == drift
  {
    var r := s[0].timestamp;
    ZeroIffSimultaneous(s, r);
    LineSums(s, r, start, drift);
    if Denominator(s, r) != 0 {
      LineQuotient(|s|, SumTime(s, r), SumOffset(s), SumProduct(s, r), SumTimeSquared(s, r), start, drift);
    }
  }

  lemma LineQuotient(n: int, sumX: int, sumY: int, sumXY: int, sumX2: int, start: real, drift: real)
    requires n * sumX2 - sumX * sumX != 0
    requires OnLineSums(n, sumX, sumY, sumXY, sumX2, start, drift)
    ensures (n * sumXY - sumX * sumY) as real / (n * sumX2 - sumX * sumX) as real == drift
  {
    var m, x, xx, d := n as real, sumX as real, sumX2 as real, (n * sumX2 - sumX * sumX) as real;
    assert d == m * xx - x * x;
    assert m * sumXY as real == m * (start * x) + m * (drift * xx);
    assert x * sumY as real == x * (m * start) + x * (drift * x);
    assert m * (start * x) == x * (m * start);
    assert m * (drift * xx) - x * (drift * x) == drift * (m * xx - x * x);
    assert (n * sumXY - sumX * sumY) as real == drift * d;
  }

  // ---- least squares ---------------------------------------------------

  /** Sum of the squared distances of the samples from a line. */
  function Distance(s: seq<Measurement>, r: int, start: real, drift: real): real {
    if s == [] then 0.0
    else
      var e := s[0].offset as real - (start + drift * (s[0].timestamp - r) as real);
      e * e + Distance(s[1..], r, start, drift)
  }

  function SumOffsetSquared(s: seq<Measurement>): int {
    if s == [] then 0 else s[0].offset * s[0].offset + SumOffsetSquared(s[1..])
  }

  /** The same from the sums of n points. */
  function FromSums(n: real, x: real, y: real, xy: real, xx: real, yy: real, a: real, b: real): real {
    yy - 2.0 * (a * y) - 2.0 * (b * xy) + n * (a * a) + 2.0 * (a * (b * x)) + (b * b) * xx
  }

  lemma OnePoint(x: real, y: real, e: real, n: real, sx: real, sy: real, sxy: real, sxx: real, syy: real, xy: real,
                 xx: real, yy: real, a: real, b: real)
    requires e == y - (a + b * x) && xy == x * y && xx == x * x && yy == y * y
    ensures e * e + FromSums(n, sx, sy, sxy, sxx, syy, a, b)
            == FromSums(n + 1.0, x + sx, y + sy, xy + sxy, xx + sxx, yy + syy, a, b)
  {
    var f := b * x;
    assert f * f == (b * b) * xx && f * y == b * xy && a * f == a * (b * x);
    assert e * e == yy - 2.0 * (a * y) - 2.0 * (f * y) + a * a + 2.0 * (a * f) + f * f;
    assert a * (y + sy) == a * y + a * sy && b * (xy + sxy) == b * xy + b * sxy;
    assert (n + 1.0) * (a * a) == n * (a * a) + a * a;
    assert b * (x + sx) == b * x + b * sx && a * (b * x + b * sx) == a * (b * x) + a * (b * sx);
    assert (b * b) * (xx + sxx) == (b * b) * xx + (b * b) * sxx;
  }

  lemma NoDistance(a: real, b: real)
    ensures FromSums(0.0, 0.0, 0.0, 0.0, 0.0, 0.0, a, b) == 0.0
  {
  }

  lemma {:induction false} DistanceFromSums(s: seq<Measurement>, r: int, a: real, b: real)
    ensures Distance(s, r, a, b)
            == FromSums(|s| as real, SumTime(s, r) as real, SumOffset(s) as real, SumProduct(s, r) as real,
                        SumTimeSquared(s, r) as real, SumOffsetSquared(s) as real, a, b)
  {
    hide *;
    if s == [] {
      NothingSummed(r, a, b);
      NoDistance(a, b);
    } else {
      DistanceFromSums(s[1..], r, a, b);
      var x, y, t := s[0].timestamp - r, s[0].offset, s[1..];
      FirstOfSums(s, r, x, y);
      FirstOfDistance(s, r, a, b, x, y);
      AddDistance(x, y, |t|, SumTime(t, r), SumOffset(t), SumProduct(t, r), SumTimeSquared(t, r), SumOffsetSquared(t),
                  a, b);
    }
  }

  lemma NothingSummed(r: int, a: real, b: real)
    ensures Distance([], r, a, b) == 0.0 && SumTime([], r) == 0 && SumOffset([]) == 0 && SumProduct([], r) == 0
    ensures SumTimeSquared([], r) == 0 && SumOffsetSquared([]) == 0
  {
  }

  lemma AddDistance(x: int, y: int, n: int, sx: int, sy: int, sxy: int, sxx: int, syy: int, a: real, b: real)
    ensures var e := y as real - (a + b * x as real);
            e * e + FromSums(n as real, sx as real, sy as real, sxy as real, sxx as real, syy as real, a, b)
            == FromSums((n + 1) as real, (x + sx) as real, (y + sy) as real, (x * y + sxy) as real,
                        (x * x + sxx) as real, (y * y + syy) as real, a, b)
  {
    hide FromSums;
    RealProduct(x, y);
    RealProduct(x, x);
    RealProduct(y, y);
    OnePoint(x as real, y as real, y as real - (a + b * x as real), n as real, sx as real, sy as real, sxy as real,
             sxx as real, syy as real, (x * y) as real, (x * x) as real, (y * y) as real, a, b);
  }

  lemma RealProduct(x: int, y: int)
    ensures (x * y) as real == x as real * y as real
  {
  }

  lemma FirstOfSums(s: seq<Measurement>, r: int, x: int, y: int)
    requires s != [] && x == s[0].timestamp - r && y == s[0].offset
    ensures SumTime(s, r) == x + SumTime(s[1..], r) && SumOffset(s) == y + SumOffset(s[1..])
    ensures SumProduct(s, r) == x * y + SumProduct(s[1..], r)
    ensures SumTimeSquared(s, r) == x * x + SumTimeSquared(s[1..], r)
    ensures SumOffsetSquared(s) == y * y + SumOffsetSquared(s[1..])
  {
  }

  lemma FirstOfDistance(s: seq<Measurement>, r: int, a: real, b: real, x: int, y: int)
    requires s != [] && x == s[0].timestamp - r && y == s[0].offset
    ensures var e := y as real - (a + b * x as real); Distance(s, r, a, b) == e * e + Distance(s[1..], r, a, b)
  {
  }

  /** The line that meets the normal equations is the nearest. */
  lemma NormalIsNearest(n: real, x: real, y: real, xy: real, xx: real, yy: real, c: real, m: real, a: real, b: real)
    requires n > 0.0 && n * xx - x * x >= 0.0
    requires y == n * c + m * x && xy == c * x + m * xx
    ensures FromSums(n, x, y, xy, xx, yy, c, m) <= FromSums(n, x, y, xy, xx, yy, a, b)
  {
    var p, q := a - c, b - m;
    Further(n, x, y, xy, xx, yy, c, m, p, q);
    FormNonNegative(n, x, xx, p, q);
  }

  lemma Further(n: real, x: real, y: real, xy: real, xx: real, yy: real, c: real, m: real, p: real, q: real)
    requires y == n * c + m * x && xy == c * x + m * xx
    ensures FromSums(n, x, y, xy, xx, yy, c + p, m + q) - FromSums(n, x, y, xy, xx, yy, c, m)
            == n * (p * p) + 2.0 * (p * (q * x)) + (q * q) * xx
  {
    assert p * y == n * (c * p) + p * (m * x) by {
      assert p * (n * c + m * x) == p * (n * c) + p * (m * x);
    }
    assert q * xy == c * (q * x) + (m * q) * xx by {
      assert q * (c * x + m * xx) == q * (c * x) + q * (m * xx);
    }
    assert (c + p) * y == c * y + p * y && (m + q) * xy == m * xy + q * xy;
    assert (c + p) * (c + p) == c * c + 2.0 * (c * p) + p * p;
    assert n * (c * c + 2.0 * (c * p) + p * p) == n * (c * c) + 2.0 * (n * (c * p)) + n * (p * p);
    assert (m + q) * x == m * x + q * x;
    assert (c + p) * (m * x + q * x) == c * (m * x) + c * (q * x) + p * (m * x) + p * (q * x);
    assert (m + q) * (m + q) == m * m + 2.0 * (m * q) + q * q;
    assert (m * m + 2.0 * (m * q) + q * q) * xx == (m * m) * xx + 2.0 * ((m * q) * xx) + (q * q) * xx;
  }

  lemma FormNonNegative(n: real, x: real, xx: real, p: real, q: real)
    requires n > 0.0 && n * xx - x * x >= 0.0
    ensures n * (p * p) + 2.0 * (p * (q * x)) + (q * q) * xx >= 0.0
  {
    var f := n * (p * p) + 2.0 * (p * (q * x)) + (q * q) * xx;
    var g := n * p + q * x;
    assert n * f == g * g + (n * xx - x * x) * (q * q) by {
      assert n * (n * (p * p)) == (n * p) * (n * p) && n * (p * (q * x)) == (n * p) * (q * x);
      assert n * ((q * q) * xx) == (q * q) * (n * xx) && (q * x) * (q * x) == (q * q) * (x * x);
      assert g * g == (n * p) * (n * p) + 2.0 * ((n * p) * (q * x)) + (q * x) * (q * x);
      assert n * f == n * (n * (p * p)) + 2.0 * (n * (p * (q * x))) + n * ((q * q) * xx);
      assert (q * q) * (n * xx) - (q * q) * (x * x) == (n * xx - x * x) * (q * q);
    }
    SquareNonNegative(g);
    SquareNonNegative(q);
    ProductNonNegative(n * xx - x * x, q * q);
    if f < 0.0 {
      NegativeProduct(n, f);
    }
  }

  lemma SquareNonNegative(x: real)
    ensures x * x >= 0.0
  {
  }

  lemma ProductNonNegative(a: real, b: real)
    requires a >= 0.0 && b >= 0.0
    ensures a * b >= 0.0
  {
  }

  lemma NegativeProduct(a: real, b: real)
    requires a > 0.0 && b < 0.0
    ensures a * b < 0.0
  {
  }

  /** The offset at which the fitted line starts. */
  function Intercept(s: seq<Measurement>): real
    requires s != []
  {
    (SumOffset(s) as real - Slope(s) * SumTime(s, s[0].timestamp) as real) / |s| as real
  }

  /** The drift rate is that of the line nearest to the samples: no other line
      has a smaller sum of squared distances. */
  lemma SlopeIsLeastSquares(s: seq<Measurement>, start: real, drift: real)
    requires exists i, j :: 0 <= i < j < |s| && s[i].timestamp != s[j].timestamp
    ensures Distance(s, s[0].timestamp, Intercept(s), Slope(s)) <= Distance(s, s[0].timestamp, start, drift)
  {
    hide *;
    var r := s[0].timestamp;
    var n, x, xx := |s|, SumTime(s, r), SumTimeSquared(s, r);
    ZeroIffSimultaneous(s, r);
    SlopeSolves(s);
    DistanceFromSums(s, r, start, drift);
    DistanceFromSums(s, r, Intercept(s), Slope(s));
    NormalIsNearest(n as real, x as real, SumOffset(s) as real, SumProduct(s, r) as real, xx as real,
                    SumOffsetSquared(s) as real, Intercept(s), Slope(s), start, drift);
  }

  lemma SlopeSolves(s: seq<Measurement>)
    requires s != [] && Denominator(s, s[0].timestamp) > 0
    ensures var r, m, c := s[0].timestamp, Slope(s), Intercept(s);
            var n, x, xx := |s| as real, SumTime(s, r) as real, SumTimeSquared(s, r) as real;
            && n * xx - x * x >= 0.0
            && SumOffset(s) as real == n * c + m * x && SumProduct(s, r) as real == c * x + m * xx
  {
    hide *;
    var r := s[0].timestamp;
    SlopeIsQuotient(s);
    SolvesInReals(|s|, SumTime(s, r), SumOffset(s), SumProduct(s, r), SumTimeSquared(s, r), Slope(s), Intercept(s));
  }

  lemma SlopeIsQuotient(s: seq<Measurement>)
    requires s != []
    ensures var r := s[0].timestamp;
            var n, x, y, xy, xx := |s|, SumTime(s, r), SumOffset(s), SumProduct(s, r), SumTimeSquared(s, r);
            && Denominator(s, r) == n * xx - x * x
            && (Denominator(s, r) > 0 ==> Slope(s) == Ratio(n * xy - x * y, n * xx - x * x))
            && Intercept(s) == (y as real - Slope(s) * x as real) / n as real
  {
    hide SumTime, SumTimeSquared, SumOffset, SumProduct, Ratio;
  }

  lemma SolvesInReals(n: nat, x: int, y: int, xy: int, xx: int, m: real, c: real)
    requires n > 0 && n * xx - x * x > 0 && m == Ratio(n * xy - x * y, n * xx - x * x)
    requires c == (y as real - m * x as real) / n as real
    ensures n as real * xx as real - x as real * x as real >= 0.0
    ensures y as real == n as real * c + m * x as real && xy as real == c * x as real + m * xx as real
  {
    RealProduct(n, xx);
    RealProduct(x, x);
    hide Ratio;
    NormalEquations(n, x, y, xy, xx, m, c);
  }

  lemma NormalEquations(n: nat, x: int, y: int, xy: int, xx: int, m: real, c: real)
    requires n > 0 && n * xx - x * x != 0 && m == Ratio(n * xy - x * y, n * xx - x * x)
    requires c == (y as real - m * x as real) / n as real
    ensures y as real == n as real * c + m * x as real
    ensures xy as real == c * x as real + m * xx as real
  {
    var rn, rx, ry, rxy, rxx := n as real, x as real, y as real, xy as real, xx as real;
    assert rn * c == ry - m * rx;
    assert m * (rn * rxx - rx * rx) == rn * rxy - rx * ry;
    assert rn * (c * rx) == (ry - m * rx) * rx == ry * rx - m * (rx * rx);
    assert rn * (m * rxx) == m * (rn * rxx);
    assert rn * (c * rx + m * rxx) == rn * rxy;
    Cancel(rn, c * rx + m * rxx, rxy);
  }

  lemma Cancel(n: real, a: real, b: real)
    requires n > 0.0 && n * a == n * b
    ensures a == b
  {
  }
}
