/** The least-squares fit behind the motor-temperature heuristic, over exact reals. */
module LinearTrend {

  datatype Point = Point(x: real, y: real)

  // ---- the fit as the code computes it ---------------------------------------

  function Square(e: real): real { e * e }

  function Times(a: real, b: real): real { a * b }

  function SumX(p: seq<Point>): real { if p == [] then 0.0 else SumX(p[..|p| - 1]) + p[|p| - 1].x }

  function SumY(p: seq<Point>): real { if p == [] then 0.0 else SumY(p[..|p| - 1]) + p[|p| - 1].y }

  /** Sum of the products of the deviations from (mx, my). */
  function Sxy(p: seq<Point>, mx: real, my: real): real {
    if p == [] then 0.0
    else Sxy(p[..|p| - 1], mx, my) + Times(p[|p| - 1].x - mx, p[|p| - 1].y - my)
  }

  function Sxx(p: seq<Point>, mx: real): real {
    if p == [] then 0.0 else Sxx(p[..|p| - 1], mx) + Square(p[|p| - 1].x - mx)
  }

  function Syy(p: seq<Point>, my: real): real {
    if p == [] then 0.0 else Syy(p[..|p| - 1], my) + Square(p[|p| - 1].y - my)
  }

  function MeanX(p: seq<Point>): real requires p != [] { SumX(p) / |p| as real }

  function MeanY(p: seq<Point>): real requires p != [] { SumY(p) / |p| as real }

  /** Slope and coefficient of determination from the moments; both 0 without any spread in x. */
  function Fit(sxx: real, sxy: real, syy: real): (real, real) {
    if sxx <= 0.0 then (0.0, 0.0)
    else (sxy / sxx, if syy <= 0.0 then 0.0 else (sxy * sxy) / (sxx * syy))
  }

  function Trend(p: seq<Point>): (real, real) {
    if |p| < 2 then (0.0, 0.0)
    else Fit(Sxx(p, MeanX(p)), Sxy(p, MeanX(p), MeanY(p)), Syy(p, MeanY(p)))
  }

  method Means(p: seq<Point>) returns (mx: real, my: real)
    requires p != []
    ensures mx == MeanX(p) && my == MeanY(p)
  {
    var sx, sy := 0.0, 0.0;
    for n := 0 to |p|
      invariant sx == SumX(p[..n]) && sy == SumY(p[..n])
    {
      assert p[..n + 1][..n] == p[..n];
      sx, sy := sx + p[n].x, sy + p[n].y;
    }
    assert p[..|p|] == p;
    mx, my := sx / |p| as real, sy / |p| as real;
  }

  lemma MomentsSnoc(p: seq<Point>, n: nat, mx: real, my: real)
    requires n < |p|
    ensures Sxx(p[..n + 1], mx) == Sxx(p[..n], mx) + Square(p[n].x - mx)
    ensures Sxy(p[..n + 1], mx, my) == Sxy(p[..n], mx, my) + Times(p[n].x - mx, p[n].y - my)
    ensures Syy(p[..n + 1], my) == Syy(p[..n], my) + Square(p[n].y - my)
  {
    assert p[..n + 1][..n] == p[..n];
  }

  method Moments(p: seq<Point>, mx: real, my: real) returns (sxx: real, sxy: real, syy: real)
    ensures sxx == Sxx(p, mx) && sxy == Sxy(p, mx, my) && syy == Syy(p, my)
  {
    sxx, sxy, syy := 0.0, 0.0, 0.0;
    for n := 0 to |p|
      invariant sxx == Sxx(p[..n], mx) && sxy == Sxy(p[..n], mx, my) && syy == Syy(p[..n], my)
    {
      MomentsSnoc(p, n, mx, my);
      var dx, dy := p[n].x - mx, p[n].y - my;
      sxx, sxy, syy := sxx + Square(dx), sxy + Times(dx, dy), syy + Square(dy);
    }
    assert p[..|p|] == p;
  }

  /** The fit as the code accumulates it: one pass for the means, one for the moments. */
  method ComputeTrend(p: seq<Point>) returns (slope: real, r2: real)
    ensures (slope, r2) == Trend(p)
  {
    if |p| < 2 { return 0.0, 0.0; }
    var mx, my := Means(p);
    var sxx, sxy, syy := Moments(p, mx, my);
    var fit := Fit(sxx, sxy, syy);
    return fit.0, fit.1;
  }

  // ---- what it means ---------------------------------------------------------

  function Miss(pt: Point, m: real, b: real): real { pt.y - m * pt.x - b }

  /** Sum of squared residuals of the line y = m * x + b. */
  ghost function Residual(p: seq<Point>, m: real, b: real): real {
    if p == [] then 0.0
    else Residual(p[..|p| - 1], m, b) + Square(Miss(p[|p| - 1], m, b))
  }

  lemma {:induction false} ResidualNonNegative(p: seq<Point>, m: real, b: real)
    ensures Residual(p, m, b) >= 0.0
  {
    if p != [] {
      ResidualNonNegative(p[..|p| - 1], m, b);
      SquarePositive(Miss(p[|p| - 1], m, b));
    }
  }

  /** The moments of a list about a centre: second moments, first moments, size. */
  datatype Moment = Moment(syy: real, sxy: real, sxx: real, ty: real, tx: real, n: real)

  function DevX(p: seq<Point>, mx: real): real { if p == [] then 0.0 else DevX(p[..|p| - 1], mx) + (p[|p| - 1].x - mx) }

  function DevY(p: seq<Point>, my: real): real { if p == [] then 0.0 else DevY(p[..|p| - 1], my) + (p[|p| - 1].y - my) }

  lemma {:induction false} DeviationsFromSums(p: seq<Point>, mx: real, my: real)
    ensures DevX(p, mx) == SumX(p) - |p| as real * mx && DevY(p, my) == SumY(p) - |p| as real * my
  {
    if p != [] {
      DeviationsFromSums(p[..|p| - 1], mx, my);
      OneMore(|p| as real, mx);
      OneMore(|p| as real, my);
    }
  }

  lemma OneMore(n: real, c: real)
    ensures n * c == (n - 1.0) * c + c
  {
  }

  function MomentOf(p: seq<Point>, mx: real, my: real): Moment {
    Moment(Syy(p, my), Sxy(p, mx, my), Sxx(p, mx), DevY(p, my), DevX(p, mx), |p| as real)
  }

  function Grow(o: Moment, dx: real, dy: real): Moment {
    Moment(o.syy + Square(dy), o.sxy + Times(dx, dy), o.sxx + Square(dx), o.ty + dy, o.tx + dx, o.n + 1.0)
  }

  /** What a line leaves over, from the moments, if it has slope m and passes the centre at distance c. */
  function Left(o: Moment, m: real, c: real): real {
    o.syy - 2.0 * m * o.sxy + m * m * o.sxx + 2.0 * c * o.ty - 2.0 * c * m * o.tx + o.n * (c * c)
  }

  /** The residual of a point (dx, dy) from the centre. */
  function MissFromCentre(dx: real, dy: real, m: real, c: real): real { dy - m * dx + c }

  lemma LeftGrows(o: Moment, m: real, c: real, dx: real, dy: real)
    ensures Left(Grow(o, dx, dy), m, c) == Left(o, m, c) + Square(MissFromCentre(dx, dy, m, c))
  {
  }

  lemma MomentGrows(q: seq<Point>, pt: Point, mx: real, my: real)
    ensures MomentOf(q + [pt], mx, my) == Grow(MomentOf(q, mx, my), pt.x - mx, pt.y - my)
  {
    assert (q + [pt])[..|q|] == q;
  }

  lemma MissAboutCentre(pt: Point, mx: real, my: real, m: real, b: real, c: real)
    requires c == my - m * mx - b
    ensures Square(Miss(pt, m, b)) == Square(MissFromCentre(pt.x - mx, pt.y - my, m, c))
  {
    assert Miss(pt, m, b) == MissFromCentre(pt.x - mx, pt.y - my, m, c);
  }

  lemma ResidualStep(q: seq<Point>, last: Point, mx: real, my: real, m: real, b: real, c: real)
    requires c == my - m * mx - b
    ensures Left(MomentOf(q + [last], mx, my), m, c) == Left(MomentOf(q, mx, my), m, c) + Square(Miss(last, m, b))
  {
    hide *;
    MomentGrows(q, last, mx, my);
    LeftGrows(MomentOf(q, mx, my), m, c, last.x - mx, last.y - my);
    MissAboutCentre(last, mx, my, m, b, c);
  }

  lemma {:induction false} ResidualFromMoments(p: seq<Point>, mx: real, my: real, m: real, b: real, c: real)
    requires c == my - m * mx - b
    ensures Residual(p, m, b) == Left(MomentOf(p, mx, my), m, c)
  {
    if p != [] {
      var q, last := p[..|p| - 1], p[|p| - 1];
      assert q + [last] == p;
      ResidualFromMoments(q, mx, my, m, b, c);
      ResidualStep(q, last, mx, my, m, b, c);
    }
  }

  // ---- the theorems ------------------------------------------------------------

  lemma MeanBalances(n: real, sum: real, mean: real)
    requires n > 0.0 && mean == sum / n
    ensures sum - n * mean == 0.0
  {
  }

  /** About the means the first moments vanish. */
  lemma ResidualAboutMeans(p: seq<Point>, m: real, b: real, c: real)
    requires p != [] && c == MeanY(p) - m * MeanX(p) - b
    ensures Residual(p, m, b) == Left(AtMeans(p), m, c)
  {
    hide Left, Square, Times;
    ResidualFromMoments(p, MeanX(p), MeanY(p), m, b, c);
    DeviationsFromSums(p, MeanX(p), MeanY(p));
    MeanBalances(|p| as real, SumX(p), MeanX(p));
    MeanBalances(|p| as real, SumY(p), MeanY(p));
    assert MomentOf(p, MeanX(p), MeanY(p)) == AtMeans(p);
  }

  lemma ProductSign(a: real, b: real, product: real)
    requires a > 0.0 && b > 0.0 && product == a * b
    ensures product > 0.0
  {
  }

  lemma SquarePositive(d: real)
    ensures Square(d) >= 0.0 && (Square(d) == 0.0 ==> d == 0.0)
  {
    if d > 0.0 {
      ProductSign(d, d, Square(d));
    } else if d < 0.0 {
      ProductSign(-d, -d, Square(d));
    }
  }

  lemma ProductPositive(a: real, b: real)
    requires a > 0.0 && b >= 0.0
    ensures a * b >= 0.0 && (a * b == 0.0 ==> b == 0.0)
  {
  }

  /** Completing the square: any line leaves what the fitted one leaves and two squares more. */
  lemma LeftOverFit(o: Moment, m: real, c: real)
    requires o.sxx > 0.0 && o.tx == 0.0 && o.ty == 0.0
    ensures Left(o, m, c) == Left(o, o.sxy / o.sxx, 0.0) + o.sxx * Square(m - o.sxy / o.sxx) + o.n * Square(c)
    ensures o.sxx * Left(o, o.sxy / o.sxx, 0.0) == o.sxx * o.syy - o.sxy * o.sxy
  {
    var s := o.sxy / o.sxx;
    assert o.sxy == s * o.sxx;
    SlopeAlgebra(o.sxx, o.syy, s, m);
  }

  lemma SlopeAlgebra(sxx: real, syy: real, s: real, m: real)
    ensures syy - 2.0 * m * (s * sxx) + m * m * sxx
         == (syy - 2.0 * s * (s * sxx) + s * s * sxx) + sxx * Square(m - s)
    ensures sxx * (syy - 2.0 * s * (s * sxx) + s * s * sxx) == sxx * syy - (s * sxx) * (s * sxx)
  {
  }

  ghost function AtMeans(p: seq<Point>): Moment
    requires p != []
  {
    Moment(Syy(p, MeanY(p)), Sxy(p, MeanX(p), MeanY(p)), Sxx(p, MeanX(p)), 0.0, 0.0, |p| as real)
  }

  function FittedIntercept(p: seq<Point>): real
    requires p != []
  {
    MeanY(p) - Trend(p).0 * MeanX(p)
  }

  ghost predicate Spread(p: seq<Point>) { |p| >= 2 && Sxx(p, MeanX(p)) > 0.0 }

  lemma FittedResidual(p: seq<Point>)
    requires Spread(p)
    ensures var o := AtMeans(p);
      && Residual(p, Trend(p).0, FittedIntercept(p)) == Left(o, o.sxy / o.sxx, 0.0)
      && Times(o.sxx, Left(o, o.sxy / o.sxx, 0.0)) == Times(o.sxx, o.syy) - Square(o.sxy)
  {
    var o := AtMeans(p);
    ResidualAboutMeans(p, Trend(p).0, FittedIntercept(p), 0.0);
    LeftOverFit(o, o.sxy / o.sxx, 0.0);
  }

  /**
    For every non-degenerate list of points the fitted line has the smallest sum of squared residuals of all
    lines, and no other line reaches it.
   */
  lemma FitIsLeastSquares(p: seq<Point>, m: real, b: real)
    requires Spread(p)
    ensures var best := Residual(p, Trend(p).0, FittedIntercept(p));
      && best <= Residual(p, m, b)
      && (Residual(p, m, b) == best ==> m == Trend(p).0 && b == FittedIntercept(p))
  {
    var o, c := AtMeans(p), MeanY(p) - m * MeanX(p) - b;
    FittedResidual(p);
    ResidualAboutMeans(p, m, b, c);
    LeftOverFit(o, m, c);
    var s := o.sxy / o.sxx;
    SquarePositive(m - s);
    SquarePositive(c);
    ProductPositive(o.sxx, Square(m - s));
    ProductPositive(o.n, Square(c));
  }

  lemma {:induction false} SpreadNonNegative(p: seq<Point>, mx: real, my: real)
    ensures Sxx(p, mx) >= 0.0 && Syy(p, my) >= 0.0
  {
    if p != [] {
      SpreadNonNegative(p[..|p| - 1], mx, my);
      SquarePositive(p[|p| - 1].x - mx);
      SquarePositive(p[|p| - 1].y - my);
    }
  }

  /** The sum of the squares of t * dx - dy, from the sums of the squares and products. */
  function Quadratic(sxx: real, sxy: real, syy: real, t: real): real {
    syy - 2.0 * Times(t, sxy) + Times(Square(t), sxx)
  }

  lemma QuadraticGrows(sxx: real, sxy: real, syy: real, t: real, dx: real, dy: real)
    ensures Quadratic(sxx + Square(dx), sxy + Times(dx, dy), syy + Square(dy), t)
         == Quadratic(sxx, sxy, syy, t) + Square(Times(t, dx) - dy)
  {
    assert Times(Square(t), sxx + Square(dx)) == Times(Square(t), sxx) + Square(Times(t, dx));
    assert Times(t, sxy + Times(dx, dy)) == Times(t, sxy) + Times(Times(t, dx), dy);
  }

  lemma {:induction false} QuadraticNonNegative(p: seq<Point>, mx: real, my: real, t: real)
    ensures Quadratic(Sxx(p, mx), Sxy(p, mx, my), Syy(p, my), t) >= 0.0
  {
    if p != [] {
      var front, dx, dy := p[..|p| - 1], p[|p| - 1].x - mx, p[|p| - 1].y - my;
      QuadraticNonNegative(front, mx, my, t);
      QuadraticGrows(Sxx(front, mx), Sxy(front, mx, my), Syy(front, my), t, dx, dy);
      SquarePositive(Times(t, dx) - dy);
      hide Quadratic, Times, Square;
    }
  }

  lemma Discriminant(sxx: real, sxy: real, syy: real, t: real)
    requires sxx > 0.0 && t == sxy / sxx && Quadratic(sxx, sxy, syy, t) >= 0.0
    ensures Square(sxy) <= Times(sxx, syy)
  {
    assert Times(t, sxx) == sxy;
    assert Times(Square(t), sxx) == Times(t, sxy);
    var rest := syy - Times(t, sxy);
    ProductPositive(sxx, rest);
    assert sxx * rest == Times(sxx, syy) - Times(Times(t, sxx), sxy);
  }

  /** Without spread in x, a product sum other than 0 would take the quadratic below 0. */
  lemma BelowZero(sxy: real, syy: real) returns (t: real)
    requires sxy != 0.0
    ensures Quadratic(0.0, sxy, syy, t) == -1.0
  {
    t := (syy + 1.0) / (2.0 * sxy);
    assert 2.0 * Times(t, sxy) == syy + 1.0;
  }

  /** Cauchy-Schwarz over the deviations from any centre, for every list of points. */
  lemma CauchySchwarz(p: seq<Point>, mx: real, my: real)
    ensures Square(Sxy(p, mx, my)) <= Times(Sxx(p, mx), Syy(p, my))
  {
    var sxx, sxy, syy := Sxx(p, mx), Sxy(p, mx, my), Syy(p, my);
    SpreadNonNegative(p, mx, my);
    if sxx > 0.0 {
      QuadraticNonNegative(p, mx, my, sxy / sxx);
      Discriminant(sxx, sxy, syy, sxy / sxx);
    } else if sxy != 0.0 {
      var t := BelowZero(sxy, syy);
      QuadraticNonNegative(p, mx, my, t);
    }
  }

  /**
    For every list of points 0 <= r2 <= 1; and where there is a spread in both directions the fitted line leaves
    exactly the share 1 - r2 of the spread in y.
   */
  lemma CoefficientOfDetermination(p: seq<Point>)
    ensures 0.0 <= Trend(p).1 <= 1.0
    ensures Spread(p) && Syy(p, MeanY(p)) > 0.0 ==>
      Residual(p, Trend(p).0, FittedIntercept(p)) == (1.0 - Trend(p).1) * Syy(p, MeanY(p))
  {
    hide Left, Residual;
    if Spread(p) && Syy(p, MeanY(p)) > 0.0 {
      var o := AtMeans(p);
      CauchySchwarz(p, MeanX(p), MeanY(p));
      SquarePositive(o.sxy);
      FittedResidual(p);
      assert Trend(p) == Fit(o.sxx, o.sxy, o.syy) && o.sxx > 0.0 && o.syy == Syy(p, MeanY(p));
      hide *;
      ShareOfSpread(o.sxx, o.sxy, o.syy, Left(o, o.sxy / o.sxx, 0.0));
    }
  }

  lemma ShareOfSpread(sxx: real, sxy: real, syy: real, rest: real)
    requires sxx > 0.0 && syy > 0.0 && 0.0 <= Square(sxy) <= Times(sxx, syy)
    requires Times(sxx, rest) == Times(sxx, syy) - Square(sxy)
    ensures 0.0 <= Fit(sxx, sxy, syy).1 <= 1.0
    ensures rest == (1.0 - Fit(sxx, sxy, syy).1) * syy
  {
    var d, q := sxx * syy, sxy * sxy;
    assert d > 0.0;
    var r := q / d;
    assert q == r * d;
    assert sxx * rest == sxx * (syy - r * syy);
  }

  // ---- moving the origin of time -------------------------------------------------

  function Shift(p: seq<Point>, t: real): seq<Point> {
    seq(|p|, i requires 0 <= i < |p| => Point(p[i].x - t, p[i].y))
  }

  lemma {:induction false} ShiftedSums(p: seq<Point>, t: real)
    ensures SumX(Shift(p, t)) == SumX(p) - Times(|p| as real, t) && SumY(Shift(p, t)) == SumY(p)
  {
    if p != [] {
      ShiftedSums(p[..|p| - 1], t);
      assert Shift(p, t)[..|p| - 1] == Shift(p[..|p| - 1], t);
      OneMore(|p| as real, t);
    }
  }

  lemma {:induction false} ShiftedMoments(p: seq<Point>, t: real, mx: real, shifted: real, my: real)
    requires shifted == mx - t
    ensures Sxx(Shift(p, t), shifted) == Sxx(p, mx)
    ensures Sxy(Shift(p, t), shifted, my) == Sxy(p, mx, my)
    ensures Syy(Shift(p, t), my) == Syy(p, my)
  {
    if p != [] {
      ShiftedMoments(p[..|p| - 1], t, mx, shifted, my);
      var q := Shift(p, t);
      assert q[..|p| - 1] == Shift(p[..|p| - 1], t);
      assert q[|p| - 1].x - shifted == p[|p| - 1].x - mx;
    }
  }

  /** Measuring time from the first sample changes neither slope nor fit. */
  lemma TrendIgnoresOrigin(p: seq<Point>, t: real)
    ensures Trend(Shift(p, t)) == Trend(p)
  {
    hide Times;
    if p != [] {
      ShiftedSums(p, t);
      MeanShifts(|p| as real, SumX(p), t);
      ShiftedMoments(p, t, MeanX(p), MeanX(Shift(p, t)), MeanY(p));
    }
  }

  lemma MeanShifts(n: real, sum: real, t: real)
    requires n > 0.0
    ensures (sum - Times(n, t)) / n == sum / n - t
  {
    assert (sum - Times(n, t)) / n == sum / n - Times(n, t) / n;
  }
}
