/**
 The growth trend of `analyze/derive.py`: a least-squares slope in MB/day over (time, used MB)
 points, some of which may be missing. Times are seconds, values MB, both exact reals.
 */
module LeastSquares {
  import opened Options
  import opened Permutations
  import opened Reals

  /** A raw point as the caller passes it. */
  datatype Point = Point(at: Option<real>, used: Option<real>)

  /** A point with both parts present. */
  datatype Obs = Obs(t: real, v: real)

  /** The same point on the fit's own axis: x in days since the first observation. */
  datatype Pt = Pt(x: real, y: real)

  const SECONDS_PER_DAY := 86400.0

  function Usable(points: seq<Point>): seq<Obs> {
    if points == [] then []
    else
      (if points[0].at.Some? && points[0].used.Some?
       then [Obs(points[0].at.value, points[0].used.value)] else [])
      + Usable(points[1..])
  }

  function MinTime(obs: seq<Obs>): (m: real)
    requires obs != []
    ensures exists i :: 0 <= i < |obs| && obs[i].t == m
    ensures forall i :: 0 <= i < |obs| ==> m <= obs[i].t
  {
    if |obs| == 1 then obs[0].t
    else
      var rest := MinTime(obs[1..]);
      if obs[0].t <= rest then obs[0].t else rest
  }

  function Days(obs: seq<Obs>, base: real): (pts: seq<Pt>)
    ensures |pts| == |obs|
  {
    if obs == [] then []
    else [Pt((obs[0].t - base) / SECONDS_PER_DAY, obs[0].v)] + Days(obs[1..], base)
  }

  function SumX(pts: seq<Pt>): real { if pts == [] then 0.0 else pts[0].x + SumX(pts[1..]) }

  function SumY(pts: seq<Pt>): real { if pts == [] then 0.0 else pts[0].y + SumY(pts[1..]) }

  /** Sum of (x - c)^2. */
  function SumSquares(pts: seq<Pt>, c: real): real {
    if pts == [] then 0.0 else Square(pts[0].x - c) + SumSquares(pts[1..], c)
  }

  /** Sum of (x - c)(y - d). */
  function SumProducts(pts: seq<Pt>, c: real, d: real): real {
    if pts == [] then 0.0 else Product(pts[0].x - c, pts[0].y - d) + SumProducts(pts[1..], c, d)
  }

  function MeanX(pts: seq<Pt>): real requires pts != [] { SumX(pts) / |pts| as real }

  function MeanY(pts: seq<Pt>): real requires pts != [] { SumY(pts) / |pts| as real }

  function Spread(pts: seq<Pt>): real requires pts != [] { SumSquares(pts, MeanX(pts)) }

  function Covariation(pts: seq<Pt>): real requires pts != [] { SumProducts(pts, MeanX(pts), MeanY(pts)) }

  function FitPoints(points: seq<Point>): seq<Pt>
    requires Usable(points) != []
  {
    Days(Usable(points), MinTime(Usable(points)))
  }

  function GrowthSlope(points: seq<Point>): Option<real> {
    var usable := Usable(points);
    if |usable| < 2 then None
    else
      var pts := FitPoints(points);
      var denominator := Spread(pts);
      if denominator == 0.0 then None else Some(Covariation(pts) / denominator)
  }

  // ---------------------------------------------------------------- when there is no slope

  lemma {:induction false} SquaresVanish(pts: seq<Pt>, c: real)
    ensures SumSquares(pts, c) >= 0.0
    ensures SumSquares(pts, c) == 0.0 <==> forall i :: 0 <= i < |pts| ==> pts[i].x == c
  {
    if pts != [] {
      SquaresVanish(pts[1..], c);
      SquareSign(pts[0].x - c);
      assert forall i :: 0 < i < |pts| ==> pts[i] == pts[1..][i - 1];
      if SumSquares(pts, c) == 0.0 {
        assert SumSquares(pts[1..], c) == 0.0;
        forall i | 0 <= i < |pts| ensures pts[i].x == c {
          if i > 0 { assert pts[1..][i - 1].x == c; }
        }
      }
    }
  }

  lemma {:induction false} SumOfEqualX(pts: seq<Pt>, c: real)
    requires forall i :: 0 <= i < |pts| ==> pts[i].x == c
    ensures SumX(pts) == |pts| as real * c
  {
    if pts != [] {
      SumOfEqualX(pts[1..], c);
      assert |pts| as real == |pts[1..]| as real + 1.0;
    }
  }

  lemma {:induction false} DaysAt(obs: seq<Obs>, base: real, i: nat)
    requires i < |obs|
    ensures Days(obs, base)[i] == Pt((obs[i].t - base) / SECONDS_PER_DAY, obs[i].v)
  {
    if i > 0 { DaysAt(obs[1..], base, i - 1); }
  }

  ghost predicate AllAtOneInstant(obs: seq<Obs>) {
    forall i, j :: 0 <= i < |obs| && 0 <= j < |obs| ==> obs[i].t == obs[j].t
  }

  lemma SpreadVanishes(pts: seq<Pt>)
    requires pts != []
    ensures Spread(pts) >= 0.0
    ensures Spread(pts) == 0.0 <==> forall i, j :: 0 <= i < |pts| && 0 <= j < |pts| ==> pts[i].x == pts[j].x
  {
    SquaresVanish(pts, MeanX(pts));
    if forall i, j :: 0 <= i < |pts| && 0 <= j < |pts| ==> pts[i].x == pts[j].x {
      SumOfEqualX(pts, pts[0].x);
      assert MeanX(pts) == pts[0].x;
    }
  }

  /** No slope exactly when fewer than two usable points, or all of them at one instant. */
  lemma SlopeMissingExactly(points: seq<Point>)
    ensures GrowthSlope(points).None? <==> |Usable(points)| < 2 || AllAtOneInstant(Usable(points))
  {
    var obs := Usable(points);
    if |obs| >= 2 {
      var base := MinTime(obs);
      var pts := Days(obs, base);
      SpreadVanishes(pts);
      forall i | 0 <= i < |obs| ensures pts[i].x == (obs[i].t - base) / SECONDS_PER_DAY { DaysAt(obs, base, i); }
    }
  }

  // ---------------------------------------------------------------- optimality

  /** Sum of squared residuals of the line y = a*x + b. */
  function Residuals(pts: seq<Pt>, a: real, b: real): real {
    if pts == [] then 0.0
    else Square(pts[0].y - a * pts[0].x - b) + Residuals(pts[1..], a, b)
  }

  function SumSquaresY(pts: seq<Pt>, d: real): real {
    if pts == [] then 0.0 else Square(pts[0].y - d) + SumSquaresY(pts[1..], d)
  }

  lemma ResidualTerm(u: real, v: real, a: real, e: real)
    ensures Square(u - Product(a, v) + e)
         == Square(u) - Product(2.0 * a, Product(v, u)) + Product(Square(a), Square(v))
            + Product(2.0 * e, u) - Product(2.0 * e, Product(a, v)) + Square(e)
  {
    var w := a * v;
    assert (u - w + e) * (u - w + e) == u * u - 2.0 * w * u + w * w + 2.0 * e * u - 2.0 * e * w + e * e;
    assert w * u == a * (v * u);
    assert w * w == a * a * (v * v);
  }

  function Form(a: real, e: real, n: real, yy: real, xy: real, xx: real, y: real, x: real): real {
    yy - Product(2.0 * a, xy) + Product(Square(a), xx) + Product(2.0 * e, y) - Product(2.0 * e, Product(a, x))
    + Product(n, Square(e))
  }

  function DeviationX(pts: seq<Pt>, c: real): real { SumX(pts) - |pts| as real * c }

  function DeviationY(pts: seq<Pt>, d: real): real { SumY(pts) - |pts| as real * d }

  /** The residual sum written from the centred sums, for any centre (c, d) with e = d - a*c - b. */
  function Expanded(pts: seq<Pt>, a: real, e: real, c: real, d: real): real {
    Form(a, e, |pts| as real, SumSquaresY(pts, d), SumProducts(pts, c, d), SumSquares(pts, c),
         DeviationY(pts, d), DeviationX(pts, c))
  }

  lemma DeviationStep(pts: seq<Pt>, c: real, d: real)
    requires pts != []
    ensures DeviationX(pts, c) == pts[0].x - c + DeviationX(pts[1..], c)
    ensures DeviationY(pts, d) == pts[0].y - d + DeviationY(pts[1..], d)
  {
    var n := |pts[1..]| as real;
    assert |pts| as real == n + 1.0;
    Distribute(c, n, 1.0);
    Distribute(d, n, 1.0);
  }

  lemma ExpandStep(a: real, e: real, u: real, v: real, n: real,
                   yy: real, xy: real, xx: real, y: real, x: real)
    ensures Square(u - Product(a, v) + e) + Form(a, e, n, yy, xy, xx, y, x)
         == Form(a, e, 1.0 + n, Square(u) + yy, Product(v, u) + xy, Square(v) + xx, u + y, v + x)
  {
    hide Product, Square;
    ResidualTerm(u, v, a, e);
    ProductSum(2.0 * a, Product(v, u), xy);
    ProductSum(Square(a), Square(v), xx);
    ProductSum(2.0 * e, u, y);
    ProductSum(a, v, x);
    ProductSum(2.0 * e, Product(a, v), Product(a, x));
    ProductOneMore(n, Square(e));
  }

  lemma ResidualShift(x: real, y: real, a: real, b: real, c: real, d: real)
    ensures Square(y - a * x - b) == Square((y - d) - Product(a, x - c) + (d - a * c - b))
  {
  }

  lemma ExpandedStep(pts: seq<Pt>, a: real, b: real, c: real, d: real)
    requires pts != []
    ensures var e := d - a * c - b;
            Expanded(pts, a, e, c, d) == Square(pts[0].y - a * pts[0].x - b) + Expanded(pts[1..], a, e, c, d)
  {
    hide Form, Square, Product;
    var rest := pts[1..];
    var e := d - a * c - b;
    var v, u := pts[0].x - c, pts[0].y - d;
    ResidualShift(pts[0].x, pts[0].y, a, b, c, d);
    ExpandStep(a, e, u, v, |rest| as real, SumSquaresY(rest, d), SumProducts(rest, c, d), SumSquares(rest, c),
               DeviationY(rest, d), DeviationX(rest, c));
    DeviationStep(pts, c, d);
    assert |pts| as real == 1.0 + |rest| as real;
  }

  lemma {:induction false} ResidualsExpand(pts: seq<Pt>, a: real, b: real, c: real, d: real)
    ensures Residuals(pts, a, b) == Expanded(pts, a, d - a * c - b, c, d)
  {
    if pts != [] {
      var rest := pts[1..];
      ResidualsExpand(rest, a, b, c, d);
      ExpandedStep(pts, a, b, c, d);
    }
  }

  lemma Means(pts: seq<Pt>)
    requires pts != []
    ensures DeviationX(pts, MeanX(pts)) == 0.0
    ensures DeviationY(pts, MeanY(pts)) == 0.0
  {
  }

  /** The intercept that goes with the fitted slope. */
  function Intercept(pts: seq<Pt>, slope: real): real
    requires pts != []
  {
    MeanY(pts) - slope * MeanX(pts)
  }

  lemma CompleteSquare(a: real, s: real, xx: real)
    ensures Product(Square(a), xx) - Product(2.0 * a, Product(s, xx))
         == Product(Square(s), xx) - Product(2.0 * s, Product(s, xx)) + Product(Square(a - s), xx)
  {
    var k, q, r := a * s, a * a, s * s;
    assert (a - s) * (a - s) == q - 2.0 * k + r;
    assert a * (s * xx) == k * xx && s * (s * xx) == r * xx;
    assert (q - 2.0 * k + r) * xx == q * xx - 2.0 * (k * xx) + r * xx;
  }

  /** Completing the square in a, when xy == s * xx. */
  lemma FormExcess(a: real, e: real, n: real, yy: real, s: real, xx: real)
    ensures Form(a, e, n, yy, Product(s, xx), xx, 0.0, 0.0)
         == Form(s, 0.0, n, yy, Product(s, xx), xx, 0.0, 0.0) + Product(Square(a - s), xx) + Product(n, Square(e))
  {
    hide Product, Square;
    ProductSign(2.0 * e, 0.0);
    ProductSign(0.0, 0.0);
    ProductSign(a, 0.0);
    ProductSign(s, 0.0);
    SquareSign(0.0);
    ProductSign(n, 0.0);
    CompleteSquare(a, s, xx);
  }

  /**
   How much worse any other line is: the excess over the fitted line is
   (a - slope)^2 * Spread + n * (vertical miss at the mean)^2.
   */
  lemma ExcessOverFit(pts: seq<Pt>, s: real, a: real, b: real)
    requires pts != [] && Covariation(pts) == Product(s, Spread(pts))
    ensures var e := MeanY(pts) - a * MeanX(pts) - b;
            Residuals(pts, a, b) == Residuals(pts, s, Intercept(pts, s))
                                    + Product(Square(a - s), Spread(pts)) + Product(|pts| as real, Square(e))
  {
    hide Form, Square, Product, MeanX, MeanY;
    var c, d := MeanX(pts), MeanY(pts);
    Means(pts);
    ResidualsExpand(pts, a, b, c, d);
    ResidualsExpand(pts, s, Intercept(pts, s), c, d);
    FormExcess(a, d - a * c - b, |pts| as real, SumSquaresY(pts, d), s, Spread(pts));
    assert d - s * c - Intercept(pts, s) == 0.0;
    assert E1: Residuals(pts, s, Intercept(pts, s)) == Expanded(pts, s, 0.0, c, d);
  }

  lemma Weighted(q: real, w: real)
    requires q >= 0.0 && w > 0.0
    ensures Product(q, w) >= 0.0 && Product(w, q) >= 0.0
    ensures Product(q, w) == 0.0 || Product(w, q) == 0.0 ==> q == 0.0
  {
    ProductSign(q, w);
    ProductSign(w, q);
  }

  lemma SlopeSolves(points: seq<Point>)
    requires GrowthSlope(points).Some?
    ensures Spread(FitPoints(points)) > 0.0
    ensures Covariation(FitPoints(points)) == Product(GrowthSlope(points).value, Spread(FitPoints(points)))
  {
    SpreadVanishes(FitPoints(points));
  }

  lemma OptimalFit(pts: seq<Pt>, s: real, a: real, b: real)
    requires pts != [] && Spread(pts) > 0.0 && Covariation(pts) == Product(s, Spread(pts))
    ensures Residuals(pts, s, Intercept(pts, s)) <= Residuals(pts, a, b)
    ensures Residuals(pts, a, b) == Residuals(pts, s, Intercept(pts, s)) ==> a == s && b == Intercept(pts, s)
  {
    ExcessOverFit(pts, s, a, b);
    SquareSign(a - s);
    SquareSign(MeanY(pts) - a * MeanX(pts) - b);
    Weighted(Square(a - s), Spread(pts));
    Weighted(Square(MeanY(pts) - a * MeanX(pts) - b), |pts| as real);
  }

  /**
   The fitted line has the least squared error of all lines over the usable points, and it is the
   only line that has it.
   */
  lemma SlopeIsOptimal(points: seq<Point>, a: real, b: real)
    requires GrowthSlope(points).Some?
    ensures var pts := FitPoints(points);
            var s := GrowthSlope(points).value;
            && Residuals(pts, s, Intercept(pts, s)) <= Residuals(pts, a, b)
            && (Residuals(pts, a, b) == Residuals(pts, s, Intercept(pts, s)) ==> a == s && b == Intercept(pts, s))
  {
    SlopeSolves(points);
    OptimalFit(FitPoints(points), GrowthSlope(points).value, a, b);
  }

  // ---------------------------------------------------------------- on the points as they are given

  predicate Complete(p: Point) { p.at.Some? && p.used.Some? }

  /** How far a reading lies above the line value = rate * days + start, days counted from time zero. */
  function Above(v: real, t: real, rate: real, start: real): real { v - Product(rate, t / 86400.0) - start }

  /** Squared errors of a line over the complete points. */
  function SquaredErrors(points: seq<Point>, rate: real, start: real): real {
    if points == [] then 0.0
    else
      (if Complete(points[0])
       then Square(Above(points[0].used.value, points[0].at.value, rate, start)) else 0.0)
      + SquaredErrors(points[1..], rate, start)
  }

  lemma SameError(v: real, rate: real, t: real, base: real, start: real)
    ensures Above(v, t, rate, start)
         == v - Product(rate, (t - base) / 86400.0) - (start + Product(rate, base / 86400.0))
  {
    hide Product;
    assert (t - base) / 86400.0 == t / 86400.0 - base / 86400.0;
    ProductSum(rate, t / 86400.0, base / 86400.0);
  }

  lemma ResidualsOneMore(pt: Pt, pts: seq<Pt>, rate: real, start: real)
    ensures Residuals([pt] + pts, rate, start)
         == Square(pt.y - Product(rate, pt.x) - start) + Residuals(pts, rate, start)
  {
    assert ([pt] + pts)[1..] == pts;
  }

  lemma DaysOneMore(o: Obs, obs: seq<Obs>, base: real)
    ensures Days([o] + obs, base) == [Pt((o.t - base) / 86400.0, o.v)] + Days(obs, base)
  {
    assert ([o] + obs)[1..] == obs;
  }

  lemma NoResiduals(base: real, rate: real, start: real)
    ensures Residuals(Days([], base), rate, start) == 0.0
  {
  }

  lemma {:induction false} ErrorsOnTheFitsAxis(points: seq<Point>, base: real, rate: real, start: real)
    ensures SquaredErrors(points, rate, start)
         == Residuals(Days(Usable(points), base), rate, start + Product(rate, base / 86400.0))
  {
    hide Product, Square, Above, Residuals, Days;
    var shifted := start + Product(rate, base / 86400.0);
    NoResiduals(base, rate, shifted);
    if points != [] {
      var p, rest := points[0], points[1..];
      ErrorsOnTheFitsAxis(rest, base, rate, start);
      if Complete(p) {
        var o := Obs(p.at.value, p.used.value);
        assert Usable(points) == [o] + Usable(rest);
        DaysOneMore(o, Usable(rest), base);
        ResidualsOneMore(Pt((o.t - base) / 86400.0, o.v), Days(Usable(rest), base), rate, shifted);
        SameError(o.v, rate, o.t, base, start);
      } else {
        assert Usable(points) == Usable(rest);
      }
    }
  }

  /** Where the fitted line stands at time zero. */
  function FittedStart(points: seq<Point>): real
    requires GrowthSlope(points).Some?
  {
    var slope := GrowthSlope(points).value;
    Intercept(FitPoints(points), slope) - Product(slope, MinTime(Usable(points)) / 86400.0)
  }

  lemma FittedStartIs(points: seq<Point>)
    requires GrowthSlope(points).Some?
    ensures var slope := GrowthSlope(points).value;
            FittedStart(points) + Product(slope, MinTime(Usable(points)) / 86400.0)
            == Intercept(FitPoints(points), slope)
  {
    hide Product, Intercept, GrowthSlope, MinTime, Usable;
  }

  lemma SameStart(rate: real, slope: real, start: real, fitted: real, base: real)
    ensures rate == slope && start + Product(rate, base / 86400.0) == fitted + Product(slope, base / 86400.0) ==>
              start == fitted
  {
  }

  lemma FitIsDays(points: seq<Point>)
    requires GrowthSlope(points).Some?
    ensures Usable(points) != [] && FitPoints(points) == Days(Usable(points), MinTime(Usable(points)))
  {
  }

  /** Over the complete points, in MB and days, the fitted line is the one line of least squared error. */
  lemma BestLine(points: seq<Point>, rate: real, start: real)
    requires GrowthSlope(points).Some?
    ensures var slope, fitted := GrowthSlope(points).value, FittedStart(points);
            && SquaredErrors(points, slope, fitted) <= SquaredErrors(points, rate, start)
            && (SquaredErrors(points, rate, start) == SquaredErrors(points, slope, fitted) ==>
                  rate == slope && start == fitted)
  {
    hide Product, Residuals, SquaredErrors, Intercept, FittedStart, GrowthSlope, Days, MinTime, Usable, Above;
    FitIsDays(points);
    var slope, base := GrowthSlope(points).value, MinTime(Usable(points));
    FittedStartIs(points);
    ErrorsOnTheFitsAxis(points, base, slope, FittedStart(points));
    ErrorsOnTheFitsAxis(points, base, rate, start);
    SlopeIsOptimal(points, rate, start + Product(rate, base / 86400.0));
    SameStart(rate, slope, start, FittedStart(points), base);
  }

  lemma {:induction false} UsableAre(points: seq<Point>, o: Obs)
    ensures o in Usable(points) <==> Point(Some(o.t), Some(o.v)) in points
  {
    if points != [] {
      UsableAre(points[1..], o);
      assert points == [points[0]] + points[1..];
    }
  }

  /** No slope exactly when no two complete points differ in time. */
  lemma NoSlopeExactly(points: seq<Point>)
    ensures GrowthSlope(points).None?
            <==> forall p, q :: p in points && q in points && Complete(p) && Complete(q) ==> p.at == q.at
  {
    hide GrowthSlope, Usable;
    SlopeMissingExactly(points);
    var obs := Usable(points);
    forall o ensures o in obs <==> Point(Some(o.t), Some(o.v)) in points { UsableAre(points, o); }
    if GrowthSlope(points).None? {
      forall p, q | p in points && q in points && Complete(p) && Complete(q) ensures p.at == q.at {
        var a, b := Obs(p.at.value, p.used.value), Obs(q.at.value, q.used.value);
        assert a in obs && b in obs;
        if |obs| < 2 { assert a == b; }
      }
    } else {
      var i, j :| 0 <= i < |obs| && 0 <= j < |obs| && obs[i].t != obs[j].t;
      assert obs[i] in obs && obs[j] in obs;
      var p, q := Point(Some(obs[i].t), Some(obs[i].v)), Point(Some(obs[j].t), Some(obs[j].v));
      assert p in points && q in points;
    }
  }

  lemma {:induction false} ErrorsNonnegative(points: seq<Point>, rate: real, start: real)
    ensures SquaredErrors(points, rate, start) >= 0.0
  {
    hide Product, Square, Above;
    if points != [] {
      ErrorsNonnegative(points[1..], rate, start);
      if Complete(points[0]) {
        SquareSign(Above(points[0].used.value, points[0].at.value, rate, start));
      }
    }
  }

  lemma BothOnTheLine(at: real, first: real, second: real)
    ensures var rate := second - first;
            var start := first - Product(rate, at / 86400.0);
            Above(first, at, rate, start) == 0.0 && Above(second, at + 86400.0, rate, start) == 0.0
  {
    var rate := second - first;
    assert (at + 86400.0) / 86400.0 == at / 86400.0 + 1.0;
    ProductSum(rate, at / 86400.0, 1.0);
    assert Product(rate, 1.0) == rate;
    hide Product;
  }

  lemma TwoOnTheLine(at: real, first: real, second: real)
    ensures var rate := second - first;
            SquaredErrors([Point(Some(at), Some(first)), Point(Some(at + 86400.0), Some(second))],
                          rate, first - Product(rate, at / 86400.0)) == 0.0
  {
    hide Product, Square, Above;
    var p, q := Point(Some(at), Some(first)), Point(Some(at + 86400.0), Some(second));
    assert [p, q][1..] == [q] && [q][1..] == [];
    BothOnTheLine(at, first, second);
    SquareSign(0.0);
    var rate := second - first;
    var start := first - Product(rate, at / 86400.0);
    assert SquaredErrors([], rate, start) == 0.0;
    assert SquaredErrors([q], rate, start) == 0.0;
  }

  /** MB per day: two readings one day of 86400 seconds apart, and their difference. */
  lemma OneDayApart(at: real, first: real, second: real)
    ensures GrowthSlope([Point(Some(at), Some(first)), Point(Some(at + 86400.0), Some(second))])
         == Some(second - first)
  {
    hide Product, GrowthSlope, SquaredErrors, FittedStart;
    var p, q := Point(Some(at), Some(first)), Point(Some(at + 86400.0), Some(second));
    var points := [p, q];
    NoSlopeExactly(points);
    assert p in points && q in points && p.at != q.at;
    var rate := second - first;
    var start := first - Product(rate, at / 86400.0);
    TwoOnTheLine(at, first, second);
    ErrorsNonnegative(points, GrowthSlope(points).value, FittedStart(points));
    BestLine(points, rate, start);
  }

  // ---------------------------------------------------------------- Chebyshev bounds

  /** Sum over q of (p.x - q.x)(p.y - q.y). */
  function PairsWith(p: Pt, qs: seq<Pt>): real {
    if qs == [] then 0.0 else Product(p.x - qs[0].x, p.y - qs[0].y) + PairsWith(p, qs[1..])
  }

  function AllPairs(ps: seq<Pt>, qs: seq<Pt>): real {
    if ps == [] then 0.0 else PairsWith(ps[0], qs) + AllPairs(ps[1..], qs)
  }

  function PairForm(n: real, u: real, v: real, x: real, y: real, xy: real): real {
    n * (u * v) - u * y - v * x + xy
  }

  lemma PairFormEmpty(u: real, v: real)
    ensures PairForm(0.0, u, v, 0.0, 0.0, 0.0) == 0.0
  {
  }

  lemma PairsStep(px: real, py: real, n: real, qx: real, qy: real, c: real, d: real,
                  x: real, y: real, xy: real)
    ensures PairForm(n + 1.0, px - c, py - d, qx - c + x, qy - d + y, Product(qx - c, qy - d) + xy)
         == Product(px - qx, py - qy) + PairForm(n, px - c, py - d, x, y, xy)
  {
    var u, v, s, t := px - c, py - d, qx - c, qy - d;
    assert px - qx == u - s && py - qy == v - t;
    assert Product(u - s, v - t) == u * v - u * t - s * v + s * t;
    Distribute(u * v, n, 1.0);
    Distribute(u, t, y);
    Distribute(v, s, x);
  }

  lemma {:induction false} PairsWithExpand(p: Pt, qs: seq<Pt>, c: real, d: real)
    ensures PairsWith(p, qs) ==
              PairForm(|qs| as real, p.x - c, p.y - d, DeviationX(qs, c), DeviationY(qs, d), SumProducts(qs, c, d))
  {
    hide PairForm, Product;
    if qs == [] {
      PairFormEmpty(p.x - c, p.y - d);
      assert DeviationX(qs, c) == 0.0 && DeviationY(qs, d) == 0.0;
    } else {
      var rest := qs[1..];
      PairsWithExpand(p, rest, c, d);
      assert |qs| as real == |rest| as real + 1.0;
      DeviationStep(qs, c, d);
      PairsStep(p.x, p.y, |rest| as real, qs[0].x, qs[0].y, c, d,
                DeviationX(rest, c), DeviationY(rest, d), SumProducts(rest, c, d));
    }
  }

  lemma PairFormCentred(n: real, u: real, v: real, xy: real)
    ensures PairForm(n, u, v, 0.0, 0.0, xy) == Product(n, Product(u, v)) + xy
  {
  }

  /** Summed over p as well, against the means of qs. */
  lemma {:induction false} AllPairsExpand(ps: seq<Pt>, qs: seq<Pt>)
    requires qs != []
    ensures AllPairs(ps, qs)
         == Product(|qs| as real, SumProducts(ps, MeanX(qs), MeanY(qs))) + Product(|ps| as real, Covariation(qs))
  {
    hide Product, PairForm;
    var n, c, d := |qs| as real, MeanX(qs), MeanY(qs);
    if ps == [] {
      ProductSign(n, 0.0);
      ProductSign(0.0, Covariation(qs));
    } else {
      AllPairsExpand(ps[1..], qs);
      PairsWithExpand(ps[0], qs, c, d);
      Means(qs);
      PairFormCentred(n, ps[0].x - c, ps[0].y - d, Covariation(qs));
      ProductSum(n, Product(ps[0].x - c, ps[0].y - d), SumProducts(ps[1..], c, d));
      assert |ps| as real == 1.0 + |ps[1..]| as real;
      ProductOneMore(|ps[1..]| as real, Covariation(qs));
    }
  }

  /** The same points measured against a line of slope m. */
  function Tilt(pts: seq<Pt>, m: real): (r: seq<Pt>)
    ensures |r| == |pts|
  {
    if pts == [] then [] else [Pt(pts[0].x, pts[0].y - Product(m, pts[0].x))] + Tilt(pts[1..], m)
  }

  lemma {:induction false} TiltAt(pts: seq<Pt>, m: real, i: nat)
    requires i < |pts|
    ensures Tilt(pts, m)[i] == Pt(pts[i].x, pts[i].y - Product(m, pts[i].x))
  {
    if i > 0 { TiltAt(pts[1..], m, i - 1); }
  }

  lemma TiltTerm(m: real, x: real, c: real, y: real, d: real)
    ensures Product(x - c, (y - Product(m, x)) - (d - Product(m, c)))
         == Product(x - c, y - d) - Product(m, Square(x - c))
  {
    var u, w := x - c, y - d;
    assert (y - m * x) - (d - m * c) == w - m * u;
    assert u * (w - m * u) == u * w - m * (u * u);
  }

  lemma {:induction false} TiltSums(pts: seq<Pt>, m: real, c: real, d: real)
    ensures SumX(Tilt(pts, m)) == SumX(pts)
    ensures SumY(Tilt(pts, m)) == SumY(pts) - Product(m, SumX(pts))
    ensures SumProducts(Tilt(pts, m), c, d - Product(m, c)) == SumProducts(pts, c, d) - Product(m, SumSquares(pts, c))
  {
    hide Product, Square;
    if pts == [] {
      ProductSign(m, 0.0);
    } else {
      var p := pts[0];
      TiltSums(pts[1..], m, c, d);
      assert Tilt(pts, m)[1..] == Tilt(pts[1..], m);
      ProductSum(m, p.x, SumX(pts[1..]));
      TiltTerm(m, p.x, c, p.y, d);
      ProductSum(m, Square(p.x - c), SumSquares(pts[1..], c));
    }
  }

  lemma TiltMean(n: real, y: real, x: real, m: real)
    requires n > 0.0
    ensures (y - Product(m, x)) / n == y / n - Product(m, x / n)
  {
    var q := x / n;
    assert x == q * n;
    assert m * x == m * q * n;
  }

  lemma TiltCovariation(pts: seq<Pt>, m: real)
    requires pts != []
    ensures Covariation(Tilt(pts, m)) == Covariation(pts) - Product(m, Spread(pts))
  {
    var c, d := MeanX(pts), MeanY(pts);
    TiltSums(pts, m, c, d);
    TiltMean(|pts| as real, SumY(pts), SumX(pts), m);
    assert MeanY(Tilt(pts, m)) == d - Product(m, c);
  }

  predicate Signed(up: bool, q: real) { if up then q >= 0.0 else q <= 0.0 }

  lemma {:induction false} PairsWithSign(p: Pt, qs: seq<Pt>, up: bool)
    requires forall j :: 0 <= j < |qs| ==> Signed(up, Product(p.x - qs[j].x, p.y - qs[j].y))
    ensures Signed(up, PairsWith(p, qs))
  {
    hide Product;
    if qs != [] {
      forall j | 0 <= j < |qs[1..]| ensures Signed(up, Product(p.x - qs[1..][j].x, p.y - qs[1..][j].y)) {
        assert qs[1..][j] == qs[j + 1];
      }
      PairsWithSign(p, qs[1..], up);
    }
  }

  lemma {:induction false} AllPairsSign(ps: seq<Pt>, qs: seq<Pt>, up: bool)
    requires forall i, j :: 0 <= i < |ps| && 0 <= j < |qs| ==>
               Signed(up, Product(ps[i].x - qs[j].x, ps[i].y - qs[j].y))
    ensures Signed(up, AllPairs(ps, qs))
  {
    hide Product;
    if ps != [] {
      forall i, j | 0 <= i < |ps[1..]| && 0 <= j < |qs|
        ensures Signed(up, Product(ps[1..][i].x - qs[j].x, ps[1..][i].y - qs[j].y))
      {
        assert ps[1..][i] == ps[i + 1];
      }
      AllPairsSign(ps[1..], qs, up);
      PairsWithSign(ps[0], qs, up);
    }
  }

  /** If x and y always move the same way (up) or opposite ways (not up), so does the fit. */
  lemma CovariationSign(pts: seq<Pt>, up: bool)
    requires pts != []
    requires forall i, j :: 0 <= i < |pts| && 0 <= j < |pts| ==>
               Signed(up, Product(pts[i].x - pts[j].x, pts[i].y - pts[j].y))
    ensures Signed(up, Covariation(pts))
  {
    AllPairsSign(pts, pts, up);
    AllPairsExpand(pts, pts);
    ProductSign(|pts| as real, Covariation(pts));
    ProductSign(|pts| as real, -Covariation(pts));
    ProductNegative(|pts| as real, Covariation(pts));
  }

  ghost predicate RatesBeyond(obs: seq<Obs>, m: real, up: bool) {
    forall i, j :: 0 <= i < |obs| && 0 <= j < |obs| && obs[i].t < obs[j].t ==>
      Signed(up, (obs[j].v - obs[i].v) - Product(m, (obs[j].t - obs[i].t) / SECONDS_PER_DAY))
  }

  /** Between any two observations at different times the value grows at lo..hi MB/day. */
  ghost predicate RatesWithin(obs: seq<Obs>, lo: real, hi: real) {
    RatesBeyond(obs, lo, true) && RatesBeyond(obs, hi, false)
  }

  lemma TiltedPair(p: Pt, q: Pt, m: real, up: bool)
    requires p.x < q.x ==> Signed(up, (q.y - p.y) - Product(m, q.x - p.x))
    requires q.x < p.x ==> Signed(up, (p.y - q.y) - Product(m, p.x - q.x))
    ensures Signed(up, Product(p.x - q.x, (p.y - Product(m, p.x)) - (q.y - Product(m, q.x))))
  {
    hide Product;
    var u, v := p.x - q.x, (p.y - Product(m, p.x)) - (q.y - Product(m, q.x));
    ProductSum(m, p.x, q.x);
    ProductSum(m, q.x, p.x);
    ProductSign(u, v);
    ProductSign(u, -v);
    ProductNegative(u, v);
  }

  lemma DayGap(t: real, u: real, base: real)
    ensures (u - base) / SECONDS_PER_DAY - (t - base) / SECONDS_PER_DAY == (u - t) / SECONDS_PER_DAY
    ensures (t - base) / SECONDS_PER_DAY < (u - base) / SECONDS_PER_DAY <==> t < u
  {
  }

  lemma TiltedFitPair(obs: seq<Obs>, base: real, m: real, up: bool, i: nat, j: nat)
    requires i < |obs| && j < |obs| && RatesBeyond(obs, m, up)
    ensures var tilted := Tilt(Days(obs, base), m);
            Signed(up, Product(tilted[i].x - tilted[j].x, tilted[i].y - tilted[j].y))
  {
    hide Product;
    var pts := Days(obs, base);
    DaysAt(obs, base, i); DaysAt(obs, base, j);
    TiltAt(pts, m, i); TiltAt(pts, m, j);
    DayGap(obs[i].t, obs[j].t, base);
    DayGap(obs[j].t, obs[i].t, base);
    TiltedPair(pts[i], pts[j], m, up);
  }

  lemma FitBeyond(obs: seq<Obs>, base: real, m: real, up: bool)
    requires obs != [] && RatesBeyond(obs, m, up)
    ensures Signed(up, Covariation(Days(obs, base)) - Product(m, Spread(Days(obs, base))))
  {
    hide Product, Spread, Covariation;
    var tilted := Tilt(Days(obs, base), m);
    forall i, j | 0 <= i < |tilted| && 0 <= j < |tilted|
      ensures Signed(up, Product(tilted[i].x - tilted[j].x, tilted[i].y - tilted[j].y))
    {
      TiltedFitPair(obs, base, m, up, i, j);
    }
    CovariationSign(tilted, up);
    TiltCovariation(Days(obs, base), m);
  }

  lemma SlopeCompare(s: real, m: real, spread: real, cov: real)
    requires spread > 0.0 && cov == Product(s, spread)
    ensures cov - Product(m, spread) >= 0.0 ==> m <= s
    ensures cov - Product(m, spread) <= 0.0 ==> s <= m
  {
    assert Product(s - m, spread) == cov - m * spread;
    ProductSign(s - m, spread);
    ProductSign(m - s, spread);
    assert Product(m - s, spread) == m * spread - cov;
  }

  lemma FitWithinRates(obs: seq<Obs>, base: real, s: real, lo: real, hi: real)
    requires obs != [] && RatesWithin(obs, lo, hi)
    requires Spread(Days(obs, base)) > 0.0
    requires Covariation(Days(obs, base)) == Product(s, Spread(Days(obs, base)))
    ensures lo <= s <= hi
  {
    hide Product, Spread, Covariation;
    FitBeyond(obs, base, lo, true);
    FitBeyond(obs, base, hi, false);
    var spread, cov := Spread(Days(obs, base)), Covariation(Days(obs, base));
    SlopeCompare(s, lo, spread, cov);
    SlopeCompare(s, hi, spread, cov);
  }

  /** Chebyshev: the fitted slope never leaves the range of the pairwise growth rates. */
  lemma SlopeWithinRates(points: seq<Point>, lo: real, hi: real)
    requires GrowthSlope(points).Some?
    requires RatesWithin(Usable(points), lo, hi)
    ensures lo <= GrowthSlope(points).value <= hi
  {
    SlopeSolves(points);
    FitWithinRates(Usable(points), MinTime(Usable(points)), GrowthSlope(points).value, lo, hi);
  }

  // ---------------------------------------------------------------- order and origin do not matter

  lemma {:induction false} UsableConcat(p: seq<Point>, q: seq<Point>)
    ensures Usable(p + q) == Usable(p) + Usable(q)
  {
    if p == [] {
      assert p + q == q;
    } else {
      UsableConcat(p[1..], q);
      assert (p + q)[1..] == p[1..] + q && (p + q)[0] == p[0];
    }
  }

  lemma {:induction false} UsablePermutes(p: seq<Point>, q: seq<Point>)
    requires multiset(p) == multiset(q)
    ensures multiset(Usable(p)) == multiset(Usable(q))
  {
    hide Usable;
    if p == [] {
      assert |multiset(q)| == 0;
      assert q == [];
    } else {
      var k := TakeOut(p, q);
      UsablePermutes(p[1..], q[..k] + q[k + 1..]);
      UsableConcat(q[..k], q[k + 1..]);
      UsableConcat(q[..k], [p[0]] + q[k + 1..]);
      UsableConcat([p[0]], q[k + 1..]);
      UsableConcat([p[0]], p[1..]);
      assert p == [p[0]] + p[1..];
      assert q == q[..k] + ([p[0]] + q[k + 1..]);
      var u, m, w := Usable(q[..k]), Usable([p[0]]), Usable(q[k + 1..]);
      assert multiset(Usable(q)) == multiset(u) + (multiset(m) + multiset(w));
      assert multiset(Usable(p)) == multiset(m) + (multiset(u) + multiset(w));
    }
  }

  datatype Sums = Sums(n: int, x: real, y: real, xx: real, xy: real)

  /** Everything the slope is computed from. */
  function FitSums(obs: seq<Obs>, base: real, c: real, d: real): Sums {
    var pts := Days(obs, base);
    Sums(|pts|, SumX(pts), SumY(pts), SumSquares(pts, c), SumProducts(pts, c, d))
  }

  function Plus(s: Sums, t: Sums): Sums {
    Sums(s.n + t.n, s.x + t.x, s.y + t.y, s.xx + t.xx, s.xy + t.xy)
  }

  lemma FitSumsStep(a: seq<Obs>, base: real, c: real, d: real)
    requires a != []
    ensures FitSums(a, base, c, d) == Plus(FitSums([a[0]], base, c, d), FitSums(a[1..], base, c, d))
  {
    hide Square, Product;
    var p := Days(a, base);
    assert p[1..] == Days(a[1..], base);
    assert Days([a[0]], base) == [p[0]];
    var one := [p[0]];
    assert one[1..] == [] && one[0] == p[0];
    assert SumX(one) == p[0].x && SumY(one) == p[0].y;
    assert SumSquares(one, c) == Square(p[0].x - c) && SumProducts(one, c, d) == Product(p[0].x - c, p[0].y - d);
  }

  lemma {:induction false} FitSumsConcat(a: seq<Obs>, b: seq<Obs>, base: real, c: real, d: real)
    ensures FitSums(a + b, base, c, d) == Plus(FitSums(a, base, c, d), FitSums(b, base, c, d))
  {
    hide Square, Product;
    if a == [] {
      assert a + b == b;
    } else {
      FitSumsConcat(a[1..], b, base, c, d);
      assert (a + b)[1..] == a[1..] + b;
      FitSumsStep(a, base, c, d);
      FitSumsStep(a + b, base, c, d);
    }
  }

  lemma {:induction false} FitSumsPermute(a: seq<Obs>, b: seq<Obs>, base: real, c: real, d: real)
    requires multiset(a) == multiset(b)
    ensures FitSums(a, base, c, d) == FitSums(b, base, c, d)
  {
    hide FitSums;
    if a == [] {
      assert |multiset(b)| == 0;
      assert b == [];
    } else {
      var k := TakeOut(a, b);
      FitSumsPermute(a[1..], b[..k] + b[k + 1..], base, c, d);
      FitSumsConcat(b[..k], b[k + 1..], base, c, d);
      FitSumsConcat(b[..k], [a[0]] + b[k + 1..], base, c, d);
      FitSumsStep(a, base, c, d);
      FitSumsConcat([a[0]], b[k + 1..], base, c, d);
      assert b == b[..k] + ([a[0]] + b[k + 1..]);
    }
  }

  lemma MinTimeBelow(a: seq<Obs>, b: seq<Obs>)
    requires a != [] && b != [] && multiset(a) == multiset(b)
    ensures MinTime(a) <= MinTime(b)
  {
    var i :| 0 <= i < |b| && b[i].t == MinTime(b);
    assert b[i] in multiset(b);
    var j :| 0 <= j < |a| && a[j] == b[i];
  }

  lemma MinTimePermutes(a: seq<Obs>, b: seq<Obs>)
    requires a != [] && multiset(a) == multiset(b)
    ensures b != [] && MinTime(a) == MinTime(b)
  {
    assert |multiset(b)| == |b|;
    MinTimeBelow(a, b);
    MinTimeBelow(b, a);
  }

  /** The slope is a property of the set of measurements, not of the order they were listed in. */
  lemma SlopeIgnoresOrder(p: seq<Point>, q: seq<Point>)
    requires multiset(p) == multiset(q)
    ensures GrowthSlope(p) == GrowthSlope(q)
  {
    UsablePermutes(p, q);
    var a, b := Usable(p), Usable(q);
    assert |multiset(a)| == |a| && |multiset(b)| == |b|;
    if |a| >= 2 {
      MinTimePermutes(a, b);
      var base := MinTime(a);
      FitSumsPermute(a, b, base, 0.0, 0.0);
      FitSumsPermute(a, b, base, MeanX(Days(a, base)), MeanY(Days(a, base)));
    }
  }

  function Shift(points: seq<Point>, offset: real): (r: seq<Point>)
    ensures |r| == |points|
  {
    if points == [] then []
    else
      var p := points[0];
      [Point(if p.at.Some? then Some(p.at.value + offset) else None, p.used)] + Shift(points[1..], offset)
  }

  ghost predicate ShiftedBy(a: seq<Obs>, b: seq<Obs>, offset: real) {
    |a| == |b| && forall i :: 0 <= i < |a| ==> b[i] == Obs(a[i].t + offset, a[i].v)
  }

  lemma {:induction false} UsableShift(points: seq<Point>, offset: real)
    ensures ShiftedBy(Usable(points), Usable(Shift(points, offset)), offset)
  {
    if points != [] {
      UsableShift(points[1..], offset);
      assert Shift(points, offset)[1..] == Shift(points[1..], offset);
      var a, b := Usable(points[1..]), Usable(Shift(points[1..], offset));
      var p := points[0];
      if p.at.Some? && p.used.Some? {
        assert Usable(points) == [Obs(p.at.value, p.used.value)] + a;
        assert Usable(Shift(points, offset)) == [Obs(p.at.value + offset, p.used.value)] + b;
      } else {
        assert Usable(points) == a && Usable(Shift(points, offset)) == b;
      }
    }
  }

  lemma ShiftedFit(a: seq<Obs>, b: seq<Obs>, offset: real)
    requires a != [] && ShiftedBy(a, b, offset)
    ensures Days(a, MinTime(a)) == Days(b, MinTime(b))
  {
    assert MinTime(b) == MinTime(a) + offset by {
      var i :| 0 <= i < |a| && a[i].t == MinTime(a);
      var j :| 0 <= j < |b| && b[j].t == MinTime(b);
      assert b[i].t == a[i].t + offset && b[j].t == a[j].t + offset;
    }
    var pa, pb := Days(a, MinTime(a)), Days(b, MinTime(b));
    forall i | 0 <= i < |pa| ensures pa[i] == pb[i] {
      DaysAt(a, MinTime(a), i);
      DaysAt(b, MinTime(b), i);
    }
    assert pa == pb;
  }

  /** Moving every timestamp by the same amount (a time zone, another epoch) changes nothing. */
  lemma SlopeIgnoresOrigin(points: seq<Point>, offset: real)
    ensures GrowthSlope(Shift(points, offset)) == GrowthSlope(points)
  {
    hide Spread, Covariation;
    UsableShift(points, offset);
    var a, b := Usable(points), Usable(Shift(points, offset));
    if |a| >= 2 { ShiftedFit(a, b, offset); }
  }
}
