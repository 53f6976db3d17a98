/**
 Days until a file or volume fills, and the finding raised from it: `days_to_full` in
 analyze/derive.py and `_days_to_full_findings` in analyze/thresholds.py.
 */
module Projection {
  import opened Options
  import opened Positions
  import opened Reals
  import opened Rounding
  import opened LeastSquares
  import opened Severities

  /** `Raised` is `float(None)` on a last point that has no value. */
  function DaysToFull(points: seq<Point>, capacity: Option<real>): Result<Option<real>> {
    if capacity.None? || capacity.value <= 0.0 then Ok(None)
    else
      var slope := GrowthSlope(points);
      if slope.None? || slope.value <= 0.0 then Ok(None)
      else
        var last := points[|points| - 1].used;
        if last.None? then Raised
        else
          var headroom := capacity.value - last.value;
          if headroom <= 0.0 then Ok(Some(0.0)) else Ok(Some(Round(Ratio(headroom, slope.value), 1)))
  }

  function FillSeverity(projected: Option<real>, threshold: real): Option<Severity> {
    if projected.None? || projected.value > threshold then None
    else if projected.value <= threshold / 2.0 then Some(Crit)
    else Some(Warn)
  }

  lemma RoundedFill(headroom: real, slope: real)
    requires slope > 0.0
    ensures -0.05 * slope <= Round(Ratio(headroom, slope), 1) * slope - headroom <= 0.05 * slope
  {
    hide Round, Ratio;
    var days := Ratio(headroom, slope);
    assert Pow10(1) == 10.0;
    RoundError(days, 1);
    MultipliesBack(headroom, slope, Round(days, 1), 0.05);
  }

  lemma SlopeNeedsPoints(points: seq<Point>)
    ensures GrowthSlope(points).Some? ==> points != []
  {
  }

  /**
   What a projection says: days p at slope s fill the headroom over the last sample, to half a tenth of a day;
   zero when nothing is left. And when there is none, or no last value to project from.
   */
  lemma ProjectionMeaning(points: seq<Point>, capacity: Option<real>)
    ensures var projected, slope := DaysToFull(points, capacity), GrowthSlope(points);
            if capacity.None? || capacity.value <= 0.0 || slope.None? || slope.value <= 0.0 then projected == Ok(None)
            else
              && points != []
              && match points[|points| - 1].used
                 case None => projected == Raised
                 case Some(used) =>
                   && projected.Ok? && projected.value.Some?
                   && var p := projected.value.value;
                      if used >= capacity.value then p == 0.0
                      else -0.05 * slope.value <= p * slope.value - (capacity.value - used) <= 0.05 * slope.value
  {
    hide Round, GrowthSlope, Ratio, Usable;
    var slope := GrowthSlope(points);
    if capacity.Some? && capacity.value > 0.0 && slope.Some? && slope.value > 0.0 {
      SlopeNeedsPoints(points);
      var last := points[|points| - 1].used;
      if last.Some? && last.value < capacity.value {
        RoundedFill(capacity.value - last.value, slope.value);
      }
    }
  }

  // ---------------------------------------------------------------- capacity

  /**
   Raising a positive capacity changes neither whether there is a projection nor whether it fails,
   never shortens it, and never makes the finding more severe.
   */
  lemma CapacityNeverWorsens(points: seq<Point>, small: real, large: real, threshold: real)
    requires 0.0 < small <= large
    ensures var a, b := DaysToFull(points, Some(small)), DaysToFull(points, Some(large));
            && (a.Raised? <==> b.Raised?)
            && (a.Ok? ==>
                  && (a.value.None? <==> b.value.None?)
                  && (a.value.Some? ==> 0.0 <= a.value.value <= b.value.value)
                  && Rank(FillSeverity(b.value, threshold)) <= Rank(FillSeverity(a.value, threshold)))
  {
    hide Round, GrowthSlope, Ratio;
    var slope := GrowthSlope(points);
    if slope.Some? && slope.value > 0.0 {
      SlopeNeedsPoints(points);
      var last := points[|points| - 1].used;
      if last.Some? {
        var h1, h2 := small - last.value, large - last.value;
        if h1 > 0.0 {
          RatioMonotone(h1, h2, slope.value);
          RoundMonotone(Ratio(h1, slope.value), Ratio(h2, slope.value), 1);
          RatioNonnegative(h1, slope.value);
          RoundNonnegative(Ratio(h1, slope.value), 1);
        } else if h2 > 0.0 {
          RatioNonnegative(h2, slope.value);
          RoundNonnegative(Ratio(h2, slope.value), 1);
        }
      }
    }
  }

  // ---------------------------------------------------------------- not growing

  lemma FitAtMostZero(obs: seq<Obs>, base: real, s: real)
    requires obs != [] && RatesBeyond(obs, 0.0, false)
    requires Spread(Days(obs, base)) > 0.0
    requires Covariation(Days(obs, base)) == Product(s, Spread(Days(obs, base)))
    ensures s <= 0.0
  {
    hide Product, Spread, Covariation;
    FitBeyond(obs, base, 0.0, false);
    SlopeCompare(s, 0.0, Spread(Days(obs, base)), Covariation(Days(obs, base)));
  }

  /** Between any two moments the series never gains: no projection, whatever the capacity. */
  lemma NeverGrowingNeverFills(points: seq<Point>, capacity: Option<real>)
    requires RatesBeyond(Usable(points), 0.0, false)
    ensures GrowthSlope(points).Some? ==> GrowthSlope(points).value <= 0.0
    ensures DaysToFull(points, capacity) == Ok(None)
  {
    if GrowthSlope(points).Some? {
      SlopeSolves(points);
      FitAtMostZero(Usable(points), MinTime(Usable(points)), GrowthSlope(points).value);
    }
  }

  // ---------------------------------------------------------------- exactly linear growth

  /** Every usable observation lies on value = start + rate * days. */
  ghost predicate OnLine(obs: seq<Obs>, start: real, rate: real) {
    forall i :: 0 <= i < |obs| ==> obs[i].v == start + Product(rate, obs[i].t / SECONDS_PER_DAY)
  }

  lemma LineRates(obs: seq<Obs>, start: real, rate: real)
    requires OnLine(obs, start, rate)
    ensures RatesWithin(obs, rate, rate)
  {
    hide Product;
    forall i, j | 0 <= i < |obs| && 0 <= j < |obs|
      ensures (obs[j].v - obs[i].v) - Product(rate, (obs[j].t - obs[i].t) / SECONDS_PER_DAY) == 0.0
    {
      DayGap(obs[i].t, obs[j].t, 0.0);
      ProductSum(rate, obs[j].t / SECONDS_PER_DAY, obs[i].t / SECONDS_PER_DAY);
    }
  }

  lemma LineHasItsOwnSlope(points: seq<Point>, start: real, rate: real)
    requires OnLine(Usable(points), start, rate)
    requires GrowthSlope(points).Some?
    ensures GrowthSlope(points).value == rate
  {
    LineRates(Usable(points), start, rate);
    SlopeWithinRates(points, rate, rate);
  }

  lemma LastIsUsable(points: seq<Point>)
    requires points != [] && points[|points| - 1].at.Some? && points[|points| - 1].used.Some?
    ensures var last := points[|points| - 1];
            Usable(points) != [] && Usable(points)[|Usable(points)| - 1] == Obs(last.at.value, last.used.value)
  {
    var n := |points| - 1;
    UsableConcat(points[..n], points[n..]);
    assert points == points[..n] + points[n..];
    assert points[n..][1..] == [];
  }

  /**
   On growth that is exactly a line, the projection from the last sample is within 0.05 day of the
   moment `full` at which the line reaches the capacity.
   */
  lemma LinearGrowthProjection(points: seq<Point>, start: real, rate: real, capacity: real,
                               full: real)
    requires GrowthSlope(points).Some? && OnLine(Usable(points), start, rate) && rate > 0.0
    requires points != [] && points[|points| - 1].at.Some? && points[|points| - 1].used.Some?
    requires capacity > 0.0 && points[|points| - 1].used.value < capacity
    requires start + Product(rate, full / SECONDS_PER_DAY) == capacity
    ensures var days := (full - points[|points| - 1].at.value) / SECONDS_PER_DAY;
            var projected := DaysToFull(points, Some(capacity));
            && projected.Ok? && projected.value.Some?
            && days - 0.05 <= projected.value.value <= days + 0.05
  {
    hide Product, Ratio, GrowthSlope, Usable;
    LineHasItsOwnSlope(points, start, rate);
    LastIsUsable(points);
    var last := points[|points| - 1];
    var days := (full - last.at.value) / SECONDS_PER_DAY;
    DayGap(last.at.value, full, 0.0);
    ProductSum(rate, full / SECONDS_PER_DAY, last.at.value / SECONDS_PER_DAY);
    assert capacity - last.used.value == Product(rate, days);
    Commute(rate, days);
    Quotient(days, rate);
    RoundError(days, 1);
    assert Pow10(1) == 10.0;
  }

  // ---------------------------------------------------------------- the rule

  datatype Series = Series(key: string, points: seq<Point>, capacity: Option<real>)

  datatype FillFinding = FillFinding(key: string, severity: Severity, observed: real, threshold: real)

  function Projected(s: Series): Result<Option<real>> { DaysToFull(s.points, s.capacity) }

  /** The series is projected to fill within the threshold. */
  predicate FillsWithin(s: Series, threshold: real) {
    var p := DaysToFull(s.points, s.capacity);
    p.Ok? && p.value.Some? && p.value.value <= threshold
  }

  /** The finding names its series, and is critical from half the threshold down. */
  predicate FindingFor(f: FillFinding, s: Series, threshold: real) {
    && f.key == s.key && f.threshold == threshold
    && DaysToFull(s.points, s.capacity) == Ok(Some(f.observed))
    && (f.severity == Crit <==> 2.0 * f.observed <= threshold)
    && (f.severity == Warn <==> 2.0 * f.observed > threshold)
  }

  /** One finding for each series that fills within the threshold, in series order, and no others. */
  ghost predicate ReportsAll(findings: seq<FillFinding>, growth: seq<Series>, threshold: real, at: seq<nat>) {
    && Rising(at, |growth|) && |findings| == |at|
    && (forall k :: 0 <= k < |growth| ==> (k in at <==> FillsWithin(growth[k], threshold)))
    && (forall i :: 0 <= i < |at| ==> FindingFor(findings[i], growth[at[i]], threshold))
  }

  /** The findings of the series up to `n`, in order. */
  function FillFindings(growth: seq<Series>, threshold: real, n: nat): (fs: seq<FillFinding>)
    requires n <= |growth|
    requires forall i :: 0 <= i < n ==> Projected(growth[i]).Ok?
    ensures |fs| <= n
  {
    if n == 0 then []
    else
      var p := Projected(growth[n - 1]).value;
      var severity := FillSeverity(p, threshold);
      FillFindings(growth, threshold, n - 1)
      + (if severity.Some? then [FillFinding(growth[n - 1].key, severity.value, p.value, threshold)] else [])
  }

  lemma NothingReported(growth: seq<Series>, threshold: real)
    requires growth == []
    ensures ReportsAll([], growth, threshold, [])
  {
  }

  lemma OneMoreReported(findings: seq<FillFinding>, growth: seq<Series>, threshold: real, at: seq<nat>, n: nat)
    requires n < |growth| && ReportsAll(findings, growth[..n], threshold, at) && Projected(growth[n]).Ok?
    ensures var p := Projected(growth[n]).value;
            match FillSeverity(p, threshold)
            case None => ReportsAll(findings, growth[..n + 1], threshold, at)
            case Some(severity) =>
              && p.Some?
              && ReportsAll(findings + [FillFinding(growth[n].key, severity, p.value, threshold)],
                            growth[..n + 1], threshold, at + [n])
  {
    hide DaysToFull, Rising;
    RisingOneMore(at, n);
    forall k | 0 <= k < n ensures growth[..n + 1][k] == growth[..n][k] { }
  }

  method DaysToFullFindings(growth: seq<Series>, threshold: Option<real>)
    returns (r: Result<seq<FillFinding>>)
    ensures r.Raised? <==> threshold.Some? && exists i :: 0 <= i < |growth| && Projected(growth[i]).Raised?
    ensures r.Ok? && threshold.None? ==> r.value == []
    ensures r.Ok? && threshold.Some? ==>
              && (forall i :: 0 <= i < |growth| ==> Projected(growth[i]).Ok?)
              && r.value == FillFindings(growth, threshold.value, |growth|)
              && exists at: seq<nat> :: ReportsAll(r.value, growth, threshold.value, at)
  {
    hide DaysToFull, FillSeverity, FillsWithin, FindingFor, Rising;
    if threshold.None? || growth == [] {
      NothingReported(growth[..0], 0.0);
      if threshold.Some? { NothingReported(growth, threshold.value); }
      return Ok([]);
    }
    var findings := [];
    ghost var at: seq<nat> := [];
    NothingReported(growth[..0], threshold.value);
    for n := 0 to |growth|
      invariant forall i :: 0 <= i < n ==> Projected(growth[i]).Ok?
      invariant findings == FillFindings(growth, threshold.value, n)
      invariant ReportsAll(findings, growth[..n], threshold.value, at)
    {
      var projected := Projected(growth[n]);
      if projected.Raised? {
        return Raised;
      }
      var severity := FillSeverity(projected.value, threshold.value);
      OneMoreReported(findings, growth, threshold.value, at, n);
      if severity.Some? {
        at := at + [n];
        findings := findings + [FillFinding(growth[n].key, severity.value, projected.value.value, threshold.value)];
      }
    }
    assert growth[..|growth|] == growth;
    return Ok(findings);
  }

  lemma {:induction false} KeysOfFindings(growth: seq<Series>, threshold: real, n: nat)
    requires n <= |growth|
    requires forall j :: 0 <= j < n ==> Projected(growth[j]).Ok?
    ensures forall f :: f in FillFindings(growth, threshold, n) ==> exists j :: 0 <= j < n && growth[j].key == f.key
  {
    hide DaysToFull, FillSeverity;
    if n > 0 { KeysOfFindings(growth, threshold, n - 1); }
  }

  /** A series is reported exactly when it is projected to fill within the threshold. */
  lemma {:induction false} ReportedExactly(growth: seq<Series>, threshold: real, n: nat, i: nat)
    requires i < n <= |growth|
    requires forall j :: 0 <= j < n ==> Projected(growth[j]).Ok?
    requires forall j :: 0 <= j < n && j != i ==> growth[j].key != growth[i].key
    ensures (exists f :: f in FillFindings(growth, threshold, n) && f.key == growth[i].key)
            <==> Projected(growth[i]).value.Some? && Projected(growth[i]).value.value <= threshold
  {
    hide DaysToFull;
    var fs := FillFindings(growth, threshold, n);
    if i == n - 1 {
      KeysOfFindings(growth, threshold, n - 1);
      var p := Projected(growth[i]).value;
      if p.Some? && p.value <= threshold { assert fs[|fs| - 1].key == growth[i].key; }
    } else {
      ReportedExactly(growth, threshold, n - 1, i);
      var before := FillFindings(growth, threshold, n - 1);
      if exists f :: f in before && f.key == growth[i].key {
        var f :| f in before && f.key == growth[i].key;
        assert f in fs;
      }
    }
  }
}
