// Ordinary least squares through health-factor samples, in exact arithmetic.

module HfRegression {
  import opened Options

  datatype Sample = Sample(atMs: real, healthFactor: real)

  /** A sample relative to a time origin. */
  datatype Point = Point(t: real, h: real)

  function Points(samples: seq<Sample>, origin: real): seq<Point> {
    seq(|samples|, i requires 0 <= i < |samples| => Point(samples[i].atMs - origin, samples[i].healthFactor))
  }

  // ----- sums over points -----

  function Last(p: seq<Point>): Point
    requires p != []
  {
    p[|p| - 1]
  }

  function Front(p: seq<Point>): seq<Point>
    requires p != []
  {
    p[..|p| - 1]
  }

  function Count(p: seq<Point>): real {
    |p| as real
  }

  function SumT(p: seq<Point>): real {
    if p == [] then 0.0 else SumT(Front(p)) + Last(p).t
  }

  function SumH(p: seq<Point>): real {
    if p == [] then 0.0 else SumH(Front(p)) + Last(p).h
  }

  function SumTT(p: seq<Point>): real {
    if p == [] then 0.0 else SumTT(Front(p)) + Prod(Last(p).t, Last(p).t)
  }

  function SumTH(p: seq<Point>): real {
    if p == [] then 0.0 else SumTH(Front(p)) + Prod(Last(p).t, Last(p).h)
  }

  function Prod(x: real, y: real): real {
    x * y
  }

  function Sq(x: real): real {
    Prod(x, x)
  }

  function Line(a: real, b: real, t: real): real {
    a + b * t
  }

  function Error(q: Point, a: real, b: real): real {
    q.h - Line(a, b, q.t)
  }

  /** The sum of squared residuals of the line a + b*t. */
  function Residuals(p: seq<Point>, a: real, b: real): real {
    if p == [] then 0.0 else Residuals(Front(p), a, b) + Sq(Error(Last(p), a, b))
  }

  /** The sum of squares of the line x + y*t itself. */
  function Squares(p: seq<Point>, x: real, y: real): real {
    if p == [] then 0.0 else Squares(Front(p), x, y) + Sq(Line(x, y, Last(p).t))
  }

  /** The sum of the residuals of a + b*t, each times the line x + y*t. */
  function Cross(p: seq<Point>, a: real, b: real, x: real, y: real): real {
    if p == [] then 0.0 else Cross(Front(p), a, b, x, y) + Prod(Error(Last(p), a, b), Line(x, y, Last(p).t))
  }

  /** The sums of the residuals and of the residuals weighted by time. */
  function SumE(p: seq<Point>, a: real, b: real): real {
    if p == [] then 0.0 else SumE(Front(p), a, b) + Error(Last(p), a, b)
  }

  function SumTE(p: seq<Point>, a: real, b: real): real {
    if p == [] then 0.0 else SumTE(Front(p), a, b) + Prod(Last(p).t, Error(Last(p), a, b))
  }

  ghost predicate SameTimes(p: seq<Point>) {
    forall i, j :: 0 <= i < |p| && 0 <= j < |p| ==> p[i].t == p[j].t
  }

  // ----- arithmetic of single terms -----

  lemma ProdSigns(x: real, y: real)
    ensures (x > 0.0 && y > 0.0) || (x < 0.0 && y < 0.0) ==> Prod(x, y) > 0.0
    ensures x == 0.0 ==> Prod(x, y) == 0.0
  {
  }

  lemma SqSign(x: real)
    ensures Sq(x) >= 0.0 && (Sq(x) == 0.0 <==> x == 0.0)
  {
    hide Prod;
    ProdSigns(x, x);
  }

  lemma ProdAdds(c: real, x: real, y: real)
    ensures Prod(c, x + y) == Prod(c, x) + Prod(c, y)
    ensures Prod(c, 0.0) == 0.0 && Prod(c, 1.0) == c
  {
  }

  lemma ProdCancels(n: real, x: real, y: real)
    requires n >= 1.0 && Prod(n, x) == Prod(n, y)
    ensures x == y
  {
    assert n * (x - y) == 0.0;
  }

  lemma ProdSign(n: real, d: real)
    requires n >= 1.0 && Prod(n, d) >= 0.0
    ensures d >= 0.0 && (d == 0.0 <==> Prod(n, d) == 0.0)
  {
  }

  lemma MovedError(q: Point, a: real, b: real, x: real, y: real)
    ensures Sq(Error(q, a + x, b + y))
         == Sq(Error(q, a, b)) - 2.0 * Prod(Error(q, a, b), Line(x, y, q.t)) + Sq(Line(x, y, q.t))
  {
    var e, l := Error(q, a, b), Line(x, y, q.t);
    assert (b + y) * q.t == b * q.t + y * q.t;
    assert Error(q, a + x, b + y) == e - l;
    SquareOfDifference(e, l);
  }

  lemma SquareOfDifference(e: real, l: real)
    ensures (e - l) * (e - l) == e * e - 2.0 * (e * l) + l * l
  {
  }

  lemma ErrorTimesLine(e: real, x: real, y: real, t: real)
    ensures Prod(e, Line(x, y, t)) == Prod(x, e) + Prod(y, Prod(t, e))
  {
    assert e * (x + y * t) == e * x + e * (y * t);
    assert e * (y * t) == y * (t * e);
  }

  lemma TimeTimesError(q: Point, a: real, b: real)
    ensures Prod(q.t, Error(q, a, b)) == Prod(q.t, q.h) - Prod(a, q.t) - Prod(b, Prod(q.t, q.t))
    ensures Error(q, a, b) == q.h - a - Prod(b, q.t)
  {
    var t, h := q.t, q.h;
    assert t * (h - (a + b * t)) == t * h - t * (a + b * t);
    assert t * (a + b * t) == t * a + t * (b * t);
    assert t * (b * t) == b * (t * t);
  }

  lemma SquareOfLine(x: real, y: real, t: real)
    ensures Sq(Line(x, y, t)) == Sq(x) + 2.0 * Prod(Prod(x, y), t) + Prod(Sq(y), Prod(t, t))
  {
    var m := y * t;
    assert (x + m) * (x + m) == x * x + 2.0 * (x * m) + m * m;
    assert x * m == (x * y) * t;
    assert m * m == (y * y) * (t * t);
  }

  // ----- least squares -----

  lemma {:induction false} SquaresSign(p: seq<Point>, x: real, y: real)
    ensures Squares(p, x, y) >= 0.0
    ensures Squares(p, x, y) == 0.0 <==> forall i :: 0 <= i < |p| ==> Line(x, y, p[i].t) == 0.0
  {
    hide Sq, Line;
    if p != [] {
      SquaresSign(Front(p), x, y);
      SqSign(Line(x, y, Last(p).t));
      assert forall i :: 0 <= i < |Front(p)| ==> Front(p)[i] == p[i];
      assert p[|p| - 1] == Last(p);
    }
  }

  lemma {:induction false} ResidualsSign(p: seq<Point>, a: real, b: real)
    ensures Residuals(p, a, b) >= 0.0
  {
    hide Sq, Error;
    if p != [] {
      ResidualsSign(Front(p), a, b);
      SqSign(Error(Last(p), a, b));
    }
  }

  /** How the squared residuals change when the line moves by x + y*t. */
  lemma {:induction false} MovedResiduals(p: seq<Point>, a: real, b: real, x: real, y: real)
    ensures Residuals(p, a + x, b + y) == Residuals(p, a, b) - 2.0 * Cross(p, a, b, x, y) + Squares(p, x, y)
  {
    hide Sq, Error, Line, Prod;
    if p != [] {
      MovedResiduals(Front(p), a, b, x, y);
      MovedError(Last(p), a, b, x, y);
    }
  }

  lemma {:induction false} CrossSums(p: seq<Point>, a: real, b: real, x: real, y: real)
    ensures Cross(p, a, b, x, y) == Prod(x, SumE(p, a, b)) + Prod(y, SumTE(p, a, b))
  {
    hide Error, Line, Prod;
    ProdAdds(x, 0.0, 0.0);
    ProdAdds(y, 0.0, 0.0);
    if p != [] {
      var e, t := Error(Last(p), a, b), Last(p).t;
      CrossSums(Front(p), a, b, x, y);
      ErrorTimesLine(e, x, y, t);
      ProdAdds(x, SumE(Front(p), a, b), e);
      ProdAdds(y, SumTE(Front(p), a, b), Prod(t, e));
    }
  }

  lemma {:induction false} ErrorSums(p: seq<Point>, a: real, b: real)
    ensures SumE(p, a, b) == SumH(p) - Prod(a, Count(p)) - Prod(b, SumT(p))
    ensures SumTE(p, a, b) == SumTH(p) - Prod(a, SumT(p)) - Prod(b, SumTT(p))
  {
    hide Error, Prod;
    ProdAdds(a, 0.0, 0.0);
    ProdAdds(b, 0.0, 0.0);
    if p != [] {
      var f, q := Front(p), Last(p);
      ErrorSums(f, a, b);
      TimeTimesError(q, a, b);
      assert Count(p) == Count(f) + 1.0;
      ProdAdds(a, Count(f), 1.0);
      ProdAdds(b, SumT(f), q.t);
      ProdAdds(a, SumT(f), q.t);
      ProdAdds(b, SumTT(f), Prod(q.t, q.t));
    }
  }

  lemma {:induction false} SquaresExpand(p: seq<Point>, x: real, y: real)
    ensures Squares(p, x, y) == Prod(Sq(x), Count(p)) + 2.0 * Prod(Prod(x, y), SumT(p)) + Prod(Sq(y), SumTT(p))
  {
    hide Sq, Line, Prod;
    ProdAdds(Sq(x), 0.0, 0.0);
    ProdAdds(Prod(x, y), 0.0, 0.0);
    ProdAdds(Sq(y), 0.0, 0.0);
    if p != [] {
      var f, t := Front(p), Last(p).t;
      SquaresExpand(f, x, y);
      SquareOfLine(x, y, t);
      assert Count(p) == Count(f) + 1.0;
      ProdAdds(Sq(x), Count(f), 1.0);
      ProdAdds(Prod(x, y), SumT(f), t);
      ProdAdds(Sq(y), SumTT(f), Prod(t, t));
    }
  }

  function Denominator(p: seq<Point>): real {
    Prod(Count(p), SumTT(p)) - Prod(SumT(p), SumT(p))
  }

  lemma SpreadAlgebra(n: real, s: real, q: real)
    ensures Prod(n, Prod(n, q) - Prod(s, s)) == Prod(Sq(-s), n) + 2.0 * Prod(Prod(-s, n), s) + Prod(Sq(n), q)
  {
    assert n * (n * q - s * s) == n * (n * q) - n * (s * s);
    assert n * (n * q) == (n * n) * q;
    assert n * (s * s) == ((-s) * (-s)) * n;
    assert ((-s) * n) * s == -(n * (s * s));
  }

  /** n times the denominator is the sum of the squares of n*t - sum(t). */
  lemma DenominatorIsSpread(p: seq<Point>)
    ensures Prod(Count(p), Denominator(p)) == Squares(p, -SumT(p), Count(p))
  {
    hide Prod, Sq;
    SquaresExpand(p, -SumT(p), Count(p));
    SpreadAlgebra(Count(p), SumT(p), SumTT(p));
  }

  lemma {:induction false} SumOfEqualTimes(p: seq<Point>, t: real)
    requires forall i :: 0 <= i < |p| ==> p[i].t == t
    ensures SumT(p) == Prod(t, Count(p))
  {
    hide Prod;
    ProdAdds(t, 0.0, 0.0);
    if p != [] {
      SumOfEqualTimes(Front(p), t);
      assert Count(p) == Count(Front(p)) + 1.0 && Last(p).t == t;
      ProdAdds(t, Count(Front(p)), 1.0);
    }
  }

  lemma CenteredTimes(n: real, s: real, x: real, y: real)
    requires n >= 1.0
    ensures Line(-s, n, x) == 0.0 && Line(-s, n, y) == 0.0 ==> x == y
    ensures s == Prod(x, n) ==> Line(-s, n, x) == 0.0
  {
    if n * x == n * y {
      ProdCancels(n, x, y);
    }
  }

  /** The denominator vanishes exactly when all times are equal, and is positive otherwise. */
  lemma DenominatorZeroIff(p: seq<Point>)
    requires p != []
    ensures Denominator(p) == 0.0 <==> SameTimes(p)
    ensures Denominator(p) >= 0.0
  {
    hide Prod, Sq, Line, Denominator;
    var n, s := Count(p), SumT(p);
    DenominatorIsSpread(p);
    SquaresSign(p, -s, n);
    ProdSign(n, Denominator(p));
    if SameTimes(p) {
      SumOfEqualTimes(p, p[0].t);
      forall i | 0 <= i < |p| ensures Line(-s, n, p[i].t) == 0.0 {
        CenteredTimes(n, s, p[i].t, p[i].t);
      }
    } else {
      var i, j :| 0 <= i < |p| && 0 <= j < |p| && p[i].t != p[j].t;
      CenteredTimes(n, s, p[i].t, p[j].t);
    }
  }

  /** The line the program computes. */
  function Slope(p: seq<Point>): real
    requires Denominator(p) != 0.0
  {
    (Prod(Count(p), SumTH(p)) - Prod(SumT(p), SumH(p))) / Denominator(p)
  }

  function Intercept(p: seq<Point>): real
    requires p != [] && Denominator(p) != 0.0
  {
    (SumH(p) - Prod(Slope(p), SumT(p))) / Count(p)
  }

  lemma NormalAlgebra(n: real, st: real, stt: real, sh: real, sth: real, a: real, b: real)
    requires n >= 1.0 && n * a == sh - b * st && b * (n * stt - st * st) == n * sth - st * sh
    ensures a * st + b * stt == sth
  {
    assert n * (a * st) == (n * a) * st;
    assert (sh - b * st) * st == sh * st - b * (st * st);
    assert n * (b * stt) == b * (n * stt);
    assert b * (n * stt - st * st) == b * (n * stt) - b * (st * st);
    assert n * (a * st + b * stt) == n * (a * st) + n * (b * stt);
    ProdCancels(n, a * st + b * stt, sth);
  }

  /** Its residuals sum to zero, also when weighted by time. */
  lemma NormalEquations(p: seq<Point>)
    requires p != [] && Denominator(p) != 0.0
    ensures SumE(p, Intercept(p), Slope(p)) == 0.0
    ensures SumTE(p, Intercept(p), Slope(p)) == 0.0
  {
    hide SumT, SumTT, SumH, SumTH, SumE, SumTE;
    var n, a, b := Count(p), Intercept(p), Slope(p);
    ErrorSums(p, a, b);
    DivisionUndone(SumH(p) - Prod(b, SumT(p)), n);
    DivisionUndone(Prod(n, SumTH(p)) - Prod(SumT(p), SumH(p)), Denominator(p));
    NormalAlgebra(n, SumT(p), SumTT(p), SumH(p), SumTH(p), a, b);
  }

  lemma DivisionUndone(x: real, y: real)
    requires y != 0.0
    ensures (x / y) * y == x && y * (x / y) == x
  {
  }

  /** Among all lines it has the least sum of squared residuals, and it is the only such line. */
  lemma LeastSquares(p: seq<Point>, a: real, b: real)
    requires p != [] && Denominator(p) != 0.0
    ensures Residuals(p, Intercept(p), Slope(p)) <= Residuals(p, a, b)
    ensures Residuals(p, Intercept(p), Slope(p)) == Residuals(p, a, b) <==> a == Intercept(p) && b == Slope(p)
  {
    hide Prod, Sq, Line, Denominator, Slope, Intercept;
    var x, y := a - Intercept(p), b - Slope(p);
    NormalEquations(p);
    MovedResiduals(p, Intercept(p), Slope(p), x, y);
    CrossSums(p, Intercept(p), Slope(p), x, y);
    ProdAdds(x, 0.0, 0.0);
    ProdAdds(y, 0.0, 0.0);
    SquaresSign(p, x, y);
    DenominatorZeroIff(p);
    var i, j :| 0 <= i < |p| && 0 <= j < |p| && p[i].t != p[j].t;
    TwoZeros(x, y, p[i].t, p[j].t);
  }

  lemma TwoZeros(x: real, y: real, t: real, u: real)
    requires t != u
    ensures Line(x, y, t) == 0.0 && Line(x, y, u) == 0.0 ==> x == 0.0 && y == 0.0
    ensures x == 0.0 && y == 0.0 ==> Line(x, y, t) == 0.0
  {
    if x + y * t == 0.0 && x + y * u == 0.0 {
      assert y * (t - u) == 0.0;
    }
  }

  // ----- the program -----

  datatype Regression = Regression(slopePerMs: real, rSquared: real, intercept: real, origin: real) {
    function ProjectedHfAtMs(targetMs: real): real {
      intercept + slopePerMs * (targetMs - origin)
    }
  }

  function Mean(p: seq<Point>): real
    requires p != []
  {
    SumH(p) / Count(p)
  }

  function RSquared(p: seq<Point>): real
    requires p != [] && Denominator(p) != 0.0
  {
    var total := Residuals(p, Mean(p), 0.0);
    if total == 0.0 then 1.0 else 1.0 - Residuals(p, Intercept(p), Slope(p)) / total
  }

  function Fit(samples: seq<Sample>, origin: real): Regression
    requires samples != [] && Denominator(Points(samples, origin)) != 0.0
  {
    var p := Points(samples, origin);
    Regression(Slope(p), RSquared(p), Intercept(p), origin)
  }

  /** R squared lies between 0 and 1 without any clamping. */
  lemma RSquaredInRange(p: seq<Point>)
    requires p != [] && Denominator(p) != 0.0
    ensures 0.0 <= RSquared(p) <= 1.0
  {
    var total, rest := Residuals(p, Mean(p), 0.0), Residuals(p, Intercept(p), Slope(p));
    LeastSquares(p, Mean(p), 0.0);
    ResidualsSign(p, Intercept(p), Slope(p));
    if total != 0.0 {
      Ratio(rest, total);
    }
  }

  lemma Ratio(x: real, y: real)
    requires 0.0 <= x <= y && y != 0.0
    ensures 0.0 <= x / y <= 1.0
  {
  }

  ghost predicate AllAtOnce(samples: seq<Sample>) {
    forall i, j :: 0 <= i < |samples| && 0 <= j < |samples| ==> samples[i].atMs == samples[j].atMs
  }

  lemma SameTimesAtAnyOrigin(samples: seq<Sample>, origin: real)
    ensures SameTimes(Points(samples, origin)) <==> AllAtOnce(samples)
  {
    var p := Points(samples, origin);
    if AllAtOnce(samples) {
      forall i, j | 0 <= i < |p| && 0 <= j < |p| ensures p[i].t == p[j].t {
        assert samples[i].atMs == samples[j].atMs;
      }
    }
    if SameTimes(p) {
      forall i, j | 0 <= i < |p| && 0 <= j < |p| ensures samples[i].atMs == samples[j].atMs {
        assert p[i].t == p[j].t;
        assert p[i].t == samples[i].atMs - origin && p[j].t == samples[j].atMs - origin;
      }
    }
  }

  /** The first pass over the samples. */
  method Sums(samples: seq<Sample>, t0: real) returns (sumT: real, sumH: real, sumTT: real, sumTH: real)
    ensures var p := Points(samples, t0);
            sumT == SumT(p) && sumH == SumH(p) && sumTT == SumTT(p) && sumTH == SumTH(p)
  {
    ghost var p := Points(samples, t0);
    sumT, sumH, sumTT, sumTH := 0.0, 0.0, 0.0, 0.0;
    for i := 0 to |samples|
      invariant sumT == SumT(p[..i]) && sumH == SumH(p[..i])
      invariant sumTT == SumTT(p[..i]) && sumTH == SumTH(p[..i])
    {
      PrefixStep(p, i);
      var t := samples[i].atMs - t0;
      sumT := sumT + t;
      sumH := sumH + samples[i].healthFactor;
      sumTT := sumTT + Prod(t, t);
      sumTH := sumTH + Prod(t, samples[i].healthFactor);
    }
    assert p[..|samples|] == p;
  }

  /** The second pass: squared distances from the mean and from the line. */
  method SquaredSums(samples: seq<Sample>, t0: real, intercept: real, slope: real, meanH: real)
    returns (ssTot: real, ssRes: real)
    ensures ssTot == Residuals(Points(samples, t0), meanH, 0.0)
    ensures ssRes == Residuals(Points(samples, t0), intercept, slope)
  {
    ghost var p := Points(samples, t0);
    ssTot, ssRes := 0.0, 0.0;
    for i := 0 to |samples|
      invariant ssTot == Residuals(p[..i], meanH, 0.0) && ssRes == Residuals(p[..i], intercept, slope)
    {
      PrefixStep(p, i);
      var t := samples[i].atMs - t0;
      var predicted := Line(intercept, slope, t);
      assert Error(p[i], meanH, 0.0) == samples[i].healthFactor - meanH;
      ssTot := ssTot + Sq(samples[i].healthFactor - meanH);
      ssRes := ssRes + Sq(samples[i].healthFactor - predicted);
    }
    assert p[..|samples|] == p;
  }

  /** Undefined exactly for fewer than two samples or a single point in time; otherwise the
      least-squares line of the samples, with an R squared in [0, 1]. */
  method LinearRegressionHf(samples: seq<Sample>) returns (r: Option<Regression>)
    ensures r.None? <==> |samples| < 2 || AllAtOnce(samples)
    ensures r.Some? ==>
              var p := Points(samples, samples[0].atMs);
              && Denominator(p) != 0.0 && r.value == Fit(samples, samples[0].atMs)
              && 0.0 <= r.value.rSquared <= 1.0
              && forall a, b :: Residuals(p, r.value.intercept, r.value.slopePerMs) <= Residuals(p, a, b)
  {
    var n := |samples|;
    if n < 2 {
      return None;
    }
    var t0 := samples[0].atMs;
    ghost var p := Points(samples, t0);
    var sumT, sumH, sumTT, sumTH := Sums(samples, t0);
    var denom := Prod(n as real, sumTT) - Prod(sumT, sumT);
    DenominatorZeroIff(p);
    SameTimesAtAnyOrigin(samples, t0);
    if denom == 0.0 {
      return None;
    }
    var slope := (Prod(n as real, sumTH) - Prod(sumT, sumH)) / denom;
    var intercept := (sumH - Prod(slope, sumT)) / n as real;
    var meanH := sumH / n as real;
    assert slope == Slope(p) && intercept == Intercept(p) && meanH == Mean(p);
    var ssTot, ssRes := SquaredSums(samples, t0, intercept, slope, meanH);
    RSquaredInRange(p);
    var clamped := if ssTot == 0.0 then 1.0 else if 1.0 - ssRes / ssTot < 0.0 then 0.0 else 1.0 - ssRes / ssTot;
    forall a, b ensures Residuals(p, intercept, slope) <= Residuals(p, a, b) {
      LeastSquares(p, a, b);
    }
    return Some(Regression(slope, clamped, intercept, t0));
  }

  lemma PrefixStep(p: seq<Point>, i: nat)
    requires i < |p|
    ensures Front(p[..i + 1]) == p[..i] && Last(p[..i + 1]) == p[i]
  {
  }

  /** Assuming two seconds per block from the last sample. */
  function ProjectHfBlocksAhead(r: Regression, last: Sample, blocksAhead: real, blockTimeMs: real := 2000.0): real {
    r.ProjectedHfAtMs(last.atMs + blocksAhead * blockTimeMs)
  }

  // ----- what the projections do not depend on -----

  function Shifted(samples: seq<Sample>, shift: real): seq<Sample> {
    seq(|samples|, i requires 0 <= i < |samples| => Sample(samples[i].atMs + shift, samples[i].healthFactor))
  }

  lemma {:induction false} ResidualsAtOtherOrigin(p: seq<Point>, q: seq<Point>, d: real, a: real, b: real)
    requires |p| == |q| && forall i :: 0 <= i < |p| ==> q[i].t == p[i].t + d && q[i].h == p[i].h
    ensures Residuals(q, a, b) == Residuals(p, a + Prod(b, d), b)
  {
    hide Sq, Error, Prod;
    if p != [] {
      ResidualsAtOtherOrigin(Front(p), Front(q), d, a, b);
      ErrorAtOtherOrigin(Last(p), Last(q), d, a, b);
    }
  }

  lemma ErrorAtOtherOrigin(p: Point, q: Point, d: real, a: real, b: real)
    requires q.t == p.t + d && q.h == p.h
    ensures Error(q, a, b) == Error(p, a + Prod(b, d), b)
  {
    assert b * q.t == b * p.t + b * d;
  }

  /** The projection is a property of the samples: any time origin gives the same line. */
  lemma OriginDoesNotMatter(samples: seq<Sample>, o1: real, o2: real, targetMs: real)
    requires |samples| >= 2 && !AllAtOnce(samples)
    ensures Denominator(Points(samples, o1)) != 0.0 && Denominator(Points(samples, o2)) != 0.0
    ensures Fit(samples, o1).ProjectedHfAtMs(targetMs) == Fit(samples, o2).ProjectedHfAtMs(targetMs)
    ensures Fit(samples, o1).slopePerMs == Fit(samples, o2).slopePerMs
  {
    hide Denominator, Slope, Intercept, Residuals, RSquared, Prod;
    var p, q := Points(samples, o1), Points(samples, o2);
    SameTimesAtAnyOrigin(samples, o1);
    SameTimesAtAnyOrigin(samples, o2);
    DenominatorZeroIff(p);
    DenominatorZeroIff(q);
    var d := o1 - o2;
    var a1, b1, a2, b2 := Intercept(p), Slope(p), Intercept(q), Slope(q);
    // each fit, seen from the other origin, is at least as good there as the other fit
    ResidualsAtOtherOrigin(p, q, d, a2, b2);
    ResidualsAtOtherOrigin(p, q, d, a1 - Prod(b1, d), b1);
    LeastSquares(q, a1 - Prod(b1, d), b1);
    LeastSquares(p, a2 + Prod(b2, d), b2);
    SameProjection(a1, a2, b1, o1, o2, targetMs);
  }

  lemma SameProjection(a1: real, a2: real, b: real, o1: real, o2: real, target: real)
    requires a1 == a2 + Prod(b, o1 - o2)
    ensures a1 + b * (target - o1) == a2 + b * (target - o2)
  {
    assert b * (target - o2) == b * (target - o1) + b * (o1 - o2);
  }

  /** Shifting all timestamps shifts the projection and nothing else. */
  lemma ShiftInvariant(samples: seq<Sample>, shift: real, targetMs: real)
    requires |samples| >= 2 && !AllAtOnce(samples)
    ensures var moved := Shifted(samples, shift);
            && Denominator(Points(samples, samples[0].atMs)) != 0.0
            && Denominator(Points(moved, moved[0].atMs)) != 0.0
            && Fit(moved, moved[0].atMs).ProjectedHfAtMs(targetMs + shift)
               == Fit(samples, samples[0].atMs).ProjectedHfAtMs(targetMs)
            && Fit(moved, moved[0].atMs).rSquared == Fit(samples, samples[0].atMs).rSquared
  {
    hide Denominator, Slope, Intercept, RSquared;
    var moved := Shifted(samples, shift);
    assert Points(moved, moved[0].atMs) == Points(samples, samples[0].atMs);
    SameTimesAtAnyOrigin(samples, samples[0].atMs);
    DenominatorZeroIff(Points(samples, samples[0].atMs));
  }

  /** So a projection some blocks after the last sample does not depend on when the samples were taken. */
  lemma BlocksAheadShiftInvariant(samples: seq<Sample>, shift: real, blocksAhead: real, blockTimeMs: real)
    requires |samples| >= 2 && !AllAtOnce(samples)
    ensures var moved, n := Shifted(samples, shift), |samples| - 1;
            && Denominator(Points(samples, samples[0].atMs)) != 0.0
            && Denominator(Points(moved, moved[0].atMs)) != 0.0
            && ProjectHfBlocksAhead(Fit(moved, moved[0].atMs), moved[n], blocksAhead, blockTimeMs)
               == ProjectHfBlocksAhead(Fit(samples, samples[0].atMs), samples[n], blocksAhead, blockTimeMs)
  {
    hide Denominator, Fit;
    ShiftInvariant(samples, shift, samples[|samples| - 1].atMs + blocksAhead * blockTimeMs);
  }
}
