/** One capacity series out of a range query over several instances, and the fit on it. */
module PrometheusSeries {
  import opened Wrappers
  import opened Sorting
  import opened CapacityForecast

  /** A pair of a series; None is a time or value that is no finite number. */
  datatype Sample = Sample(time: Option<real>, value: Option<real>)

  type Point = (real, real)

  /** The usable samples of a series, in order. */
  function Usable(series: seq<Sample>): seq<Point> {
    if series == [] then []
    else
      var s := series[|series| - 1];
      Usable(series[..|series| - 1]) + (if s.time.Some? && s.value.Some? then [(s.time.value, s.value.value)] else [])
  }

  function AllUsable(result: seq<seq<Sample>>): seq<Point> {
    if result == [] then [] else AllUsable(result[..|result| - 1]) + Usable(result[|result| - 1])
  }

  /** The sum of the values at a time. */
  function ValueAt(points: seq<Point>, t: real): real {
    if points == [] then 0.0
    else ValueAt(points[..|points| - 1], t) + (if points[|points| - 1].0 == t then points[|points| - 1].1 else 0.0)
  }

  function Times(points: seq<Point>): (r: seq<real>)
    ensures |r| == |points| && forall i :: 0 <= i < |r| ==> r[i] == points[i].0
  {
    if points == [] then [] else [points[0].0] + Times(points[1..])
  }

  function Values(points: seq<Point>): (r: seq<real>)
    ensures |r| == |points| && forall i :: 0 <= i < |r| ==> r[i] == points[i].1
  {
    if points == [] then [] else [points[0].1] + Values(points[1..])
  }

  predicate RealLess(x: real, y: real) {
    x < y
  }

  predicate HasTime(points: seq<Point>, t: real) {
    exists i :: 0 <= i < |points| && points[i].0 == t
  }

  // The dictionary of sums.
  ghost predicate Summed(byTime: map<real, real>, points: seq<Point>) {
    && (forall t :: t in byTime <==> HasTime(points, t))
    && (forall t :: t in byTime ==> byTime[t] == ValueAt(points, t))
  }

  lemma {:induction false} NoValue(points: seq<Point>, t: real)
    requires !HasTime(points, t)
    ensures ValueAt(points, t) == 0.0
  {
    if points != [] {
      var before := points[..|points| - 1];
      assert points[|points| - 1].0 != t;
      assert forall i :: 0 <= i < |before| ==> before[i] == points[i];
      NoValue(before, t);
    }
  }

  lemma AddPoint(byTime: map<real, real>, points: seq<Point>, p: Point)
    requires Summed(byTime, points)
    ensures Summed(byTime[p.0 := (if p.0 in byTime then byTime[p.0] else 0.0) + p.1], points + [p])
  {
    var all := points + [p];
    assert all[..|points|] == points;
    if p.0 !in byTime {
      NoValue(points, p.0);
    }
    forall t ensures HasTime(all, t) <==> HasTime(points, t) || t == p.0 {
      assert all[|points|] == p;
      assert forall i :: 0 <= i < |points| ==> all[i] == points[i];
    }
  }

  /** The series a query yields: one point per time, in time order, with the sum over the
      instances. */
  ghost predicate IsSeriesOf(series: seq<Point>, points: seq<Point>) {
    && Ascending(Times(series), RealLess)
    && (forall t :: t in Times(series) <==> HasTime(points, t))
    && (forall i :: 0 <= i < |series| ==> series[i].1 == ValueAt(points, series[i].0))
  }

  method AddSeries(byTime0: map<real, real>, ghost points: seq<Point>, series: seq<Sample>)
    returns (byTime: map<real, real>)
    requires Summed(byTime0, points)
    ensures Summed(byTime, points + Usable(series))
  {
    byTime := byTime0;
    assert points + Usable(series[..0]) == points;
    for i := 0 to |series|
      invariant Summed(byTime, points + Usable(series[..i]))
    {
      assert series[..i + 1][..i] == series[..i];
      var s := series[i];
      if s.time.Some? && s.value.Some? {
        var p := (s.time.value, s.value.value);
        AddPoint(byTime, points + Usable(series[..i]), p);
        assert points + Usable(series[..i + 1]) == points + Usable(series[..i]) + [p];
        byTime := byTime[p.0 := (if p.0 in byTime then byTime[p.0] else 0.0) + p.1];
      } else {
        assert Usable(series[..i + 1]) == Usable(series[..i]);
      }
    }
    assert series[..|series|] == series;
  }

  /** _prom_query_range, from the decoded answer on. */
  method QueryRange(result: seq<seq<Sample>>) returns (series: seq<Point>)
    ensures IsSeriesOf(series, AllUsable(result))
    ensures forall i :: 0 <= i < |series| ==> series[i].1 == Contributions(result, series[i].0)
    ensures forall t :: t in Times(series) <==> exists i :: 0 <= i < |result| && Sampled(result[i], t)
  {
    var byTime: map<real, real> := map[];
    for i := 0 to |result|
      invariant Summed(byTime, AllUsable(result[..i]))
    {
      assert result[..i + 1][..i] == result[..i];
      byTime := AddSeries(byTime, AllUsable(result[..i]), result[i]);
    }
    assert result[..|result|] == result;
    var times := Sorted(byTime.Keys, RealLess);
    series := [];
    for i := 0 to |times|
      invariant |series| == i
      invariant forall j :: 0 <= j < i ==> series[j].0 == times[j] && series[j].1 == ValueAt(AllUsable(result), times[j])
    {
      assert times[i] in times;
      series := series + [(times[i], byTime[times[i]])];
    }
    assert Times(series) == times;
    forall i | 0 <= i < |series| ensures series[i].1 == Contributions(result, series[i].0) {
      ResultContribution(result, series[i].0);
    }
    forall t ensures t in Times(series) <==> exists i :: 0 <= i < |result| && Sampled(result[i], t) {
      ResultTimes(result, t);
    }
  }

  // ---- The samples behind the points ----

  /** What a series of samples contributes at a time; samples without a usable time or value
      contribute nothing. */
  function Contribution(series: seq<Sample>, t: real): real {
    if series == [] then 0.0
    else
      (if series[0].time == Some(t) && series[0].value.Some? then series[0].value.value else 0.0)
      + Contribution(series[1..], t)
  }

  function Contributions(result: seq<seq<Sample>>, t: real): real {
    if result == [] then 0.0 else Contribution(result[0], t) + Contributions(result[1..], t)
  }

  predicate Sampled(series: seq<Sample>, t: real) {
    exists i :: 0 <= i < |series| && series[i].time == Some(t) && series[i].value.Some?
  }

  lemma {:induction false} ValueConcat(a: seq<Point>, b: seq<Point>, t: real)
    ensures ValueAt(a + b, t) == ValueAt(a, t) + ValueAt(b, t)
    decreases b
  {
    if b == [] {
      assert a + b == a;
    } else {
      assert (a + b)[..|a + b| - 1] == a + b[..|b| - 1];
      ValueConcat(a, b[..|b| - 1], t);
    }
  }

  lemma HasTimeConcat(a: seq<Point>, b: seq<Point>, t: real)
    ensures HasTime(a + b, t) <==> HasTime(a, t) || HasTime(b, t)
  {
    assert forall i :: 0 <= i < |a| ==> (a + b)[i] == a[i];
    assert forall i :: 0 <= i < |b| ==> (a + b)[|a| + i] == b[i];
  }

  lemma UsableFirst(series: seq<Sample>)
    requires series != []
    ensures Usable(series) == Usable(series[..1]) + Usable(series[1..])
    decreases series
  {
    var n := |series| - 1;
    if n == 0 {
      assert series[..1] == series && series[1..] == [] && Usable(series) + [] == Usable(series);
    } else {
      UsableFirst(series[..n]);
      assert series[..n][..1] == series[..1] && series[1..][..n - 1] == series[..n][1..];
      assert series[1..][n - 1] == series[n];
    }
  }

  lemma {:induction false} SeriesContribution(series: seq<Sample>, t: real)
    ensures ValueAt(Usable(series), t) == Contribution(series, t)
  {
    if series != [] {
      UsableFirst(series);
      SeriesContribution(series[1..], t);
      ValueConcat(Usable(series[..1]), Usable(series[1..]), t);
      OneSample(series[..1], t);
    }
  }

  lemma SampledFirst(series: seq<Sample>, t: real)
    requires series != []
    ensures Sampled(series, t) <==> Sampled(series[..1], t) || Sampled(series[1..], t)
  {
    assert forall i :: 0 < i < |series| ==> series[i] == series[1..][i - 1];
    assert series[..1][0] == series[0];
  }

  lemma {:induction false} SeriesTimes(series: seq<Sample>, t: real)
    ensures HasTime(Usable(series), t) <==> Sampled(series, t)
  {
    if series != [] {
      UsableFirst(series);
      SeriesTimes(series[1..], t);
      HasTimeConcat(Usable(series[..1]), Usable(series[1..]), t);
      OneSample(series[..1], t);
      SampledFirst(series, t);
    }
  }

  lemma OneSample(series: seq<Sample>, t: real)
    requires |series| == 1
    ensures ValueAt(Usable(series), t)
            == if series[0].time == Some(t) && series[0].value.Some? then series[0].value.value else 0.0
    ensures HasTime(Usable(series), t) <==> Sampled(series, t)
  {
    assert series[..0] == [] && Usable([]) == [];
    var ps := Usable(series);
    if ps != [] {
      assert ps == [(series[0].time.value, series[0].value.value)] && ps[..0] == [];
    }
  }

  /** The value of the series at a time is the sum of the values sampled at it, over all
      instances, and there is one (ResultTimes) exactly for the times some instance was
      sampled at. */
  lemma {:induction false} ResultContribution(result: seq<seq<Sample>>, t: real)
    ensures ValueAt(AllUsable(result), t) == Contributions(result, t)
  {
    if result != [] {
      UsableOfFirst(result);
      ResultContribution(result[1..], t);
      SeriesContribution(result[0], t);
      ValueConcat(Usable(result[0]), AllUsable(result[1..]), t);
    }
  }

  lemma {:induction false} ResultTimes(result: seq<seq<Sample>>, t: real)
    ensures HasTime(AllUsable(result), t) <==> exists i :: 0 <= i < |result| && Sampled(result[i], t)
  {
    if result != [] {
      UsableOfFirst(result);
      ResultTimes(result[1..], t);
      SeriesTimes(result[0], t);
      HasTimeConcat(Usable(result[0]), AllUsable(result[1..]), t);
      assert forall i :: 0 < i < |result| ==> result[i] == result[1..][i - 1];
    }
  }

  lemma LastOfRest(result: seq<seq<Sample>>)
    requires |result| > 1
    ensures var n := |result| - 1;
            result[..n][0] == result[0] && result[1..][..n - 1] == result[..n][1..] && result[1..][n - 1] == result[n]
  {
  }

  lemma UsableOfFirst(result: seq<seq<Sample>>)
    requires result != []
    ensures AllUsable(result) == Usable(result[0]) + AllUsable(result[1..])
    decreases result
  {
    var n := |result| - 1;
    if n == 0 {
      assert result[..0] == [] && result[1..] == [];
      assert [] + Usable(result[0]) == Usable(result[0]) + [];
    } else {
      LastOfRest(result);
      UsableOfFirst(result[..n]);
      var a, b, c := Usable(result[0]), AllUsable(result[1..][..n - 1]), Usable(result[n]);
      assert a + b + c == a + (b + c);
    }
  }

  // ---- What the series keeps ----

  function Total(points: seq<Point>): real {
    if points == [] then 0.0 else Total(points[..|points| - 1]) + points[|points| - 1].1
  }

  // The sums at each of the times, added up.
  function TotalAt(times: seq<real>, points: seq<Point>): real {
    if times == [] then 0.0 else TotalAt(times[..|times| - 1], points) + ValueAt(points, times[|times| - 1])
  }

  lemma {:induction false} TotalAtOnce(times: seq<real>, points: seq<Point>, p: Point)
    requires NoRepeats(times)
    ensures TotalAt(times, points + [p]) == TotalAt(times, points) + (if p.0 in times then p.1 else 0.0)
  {
    if times != [] {
      var before, t := times[..|times| - 1], times[|times| - 1];
      TotalAtOnce(before, points, p);
      assert (points + [p])[..|points|] == points;
      assert times == before + [t];
      assert forall i :: 0 <= i < |before| ==> before[i] == times[i] != t;
    }
  }

  lemma {:induction false} TotalsAgree(times: seq<real>, points: seq<Point>)
    requires NoRepeats(times) && forall i :: 0 <= i < |points| ==> points[i].0 in times
    ensures TotalAt(times, points) == Total(points)
  {
    if points == [] {
      TotalOfNothing(times);
    } else {
      var before, p := points[..|points| - 1], points[|points| - 1];
      assert points == before + [p];
      TotalsAgree(times, before);
      TotalAtOnce(times, before, p);
    }
  }

  lemma {:induction false} TotalOfNothing(times: seq<real>)
    ensures TotalAt(times, []) == 0.0
  {
    if times != [] {
      TotalOfNothing(times[..|times| - 1]);
    }
  }

  lemma {:induction false} SeriesTotal(series: seq<Point>, points: seq<Point>)
    requires forall i :: 0 <= i < |series| ==> series[i].1 == ValueAt(points, series[i].0)
    ensures Total(series) == TotalAt(Times(series), points)
  {
    if series != [] {
      var before := series[..|series| - 1];
      SeriesTotal(before, points);
      assert Times(series)[..|before|] == Times(before);
    }
  }

  /** Merging instances neither loses nor invents usage: the series adds up to the usable
      samples. */
  lemma SeriesConservesTotal(series: seq<Point>, points: seq<Point>)
    requires IsSeriesOf(series, points)
    ensures Total(series) == Total(points)
  {
    assert IsStrictOrder(RealLess);
    AscendingHasNoRepeats(Times(series), RealLess);
    forall i | 0 <= i < |points| ensures points[i].0 in Times(series) {
      assert HasTime(points, points[i].0);
    }
    TotalsAgree(Times(series), points);
    SeriesTotal(series, points);
  }

  /** On a series long enough for a forecast the fitted line is the only best one: any line
      that does as well is the same line. */
  lemma FitOnSeriesIsUnique(series: seq<Point>, points: seq<Point>, line: Line)
    requires IsSeriesOf(series, points) && |series| >= 2
    requires SquaredError(Times(series), Values(series), line)
             <= SquaredError(Times(series), Values(series), LinearFit(Times(series), Values(series)))
    ensures line == LinearFit(Times(series), Values(series))
  {
    assert RealLess(Times(series)[0], Times(series)[1]);
    LinearFitIsUnique(Times(series), Values(series), line, 0, 1);
  }
}
