/** Storage forecast: the least-squares line through the usage samples, the projected
    series and the time the line reaches the threshold. Numbers are exact reals. */
module CapacityForecast {
  import opened Wrappers

  // ---- The fitted line ----

  datatype Line = Line(slope: real, intercept: real)

  function At(line: Line, x: real): real {
    line.slope * x + line.intercept
  }

  function Sum(xs: seq<real>): real {
    if xs == [] then 0.0 else xs[0] + Sum(xs[1..])
  }

  function SumProducts(us: seq<real>, vs: seq<real>): real
    requires |us| == |vs|
  {
    if us == [] then 0.0 else us[0] * vs[0] + SumProducts(us[1..], vs[1..])
  }

  function Shifted(xs: seq<real>, m: real): (r: seq<real>)
    ensures |r| == |xs|
  {
    if xs == [] then [] else [xs[0] - m] + Shifted(xs[1..], m)
  }

  function Mean(xs: seq<real>): real
    requires xs != []
  {
    Sum(xs) / (|xs| as real)
  }

  // The quotient of covariance and variance of centred samples.
  function Slope(us: seq<real>, vs: seq<real>): real
    requires |us| == |vs|
  {
    var num := SumProducts(us, vs);
    var den := SumProducts(us, us);
    if den != 0.0 then num / den else 0.0
  }

  /** _linear_fit */
  function LinearFit(xs: seq<real>, ys: seq<real>): (fit: Line)
    requires |xs| == |ys|
    ensures |xs| >= 2 ==> At(fit, Mean(xs)) == Mean(ys)
  {
    if |xs| < 2 then Line(0.0, if ys == [] then 0.0 else ys[0])
    else
      var mx, my := Mean(xs), Mean(ys);
      var slope := Slope(Shifted(xs, mx), Shifted(ys, my));
      Line(slope, my - slope * mx)
  }

  function Residuals(xs: seq<real>, ys: seq<real>, line: Line): (r: seq<real>)
    requires |xs| == |ys|
    ensures |r| == |xs|
  {
    if xs == [] then [] else [ys[0] - At(line, xs[0])] + Residuals(xs[1..], ys[1..], line)
  }

  /** Sum of the squared distances of the samples from a line. */
  function SquaredError(xs: seq<real>, ys: seq<real>, line: Line): real
    requires |xs| == |ys|
  {
    SumProducts(Residuals(xs, ys, line), Residuals(xs, ys, line))
  }

  function Plus(us: seq<real>, vs: seq<real>): (r: seq<real>)
    requires |us| == |vs|
    ensures |r| == |us|
  {
    if us == [] then [] else [us[0] + vs[0]] + Plus(us[1..], vs[1..])
  }

  function Affine(us: seq<real>, p: real, q: real): (r: seq<real>)
    ensures |r| == |us|
  {
    if us == [] then [] else [p * us[0] + q] + Affine(us[1..], p, q)
  }

  lemma {:induction false} SumOfShifted(xs: seq<real>, m: real)
    ensures Sum(Shifted(xs, m)) == Sum(xs) - (|xs| as real) * m
  {
    if xs != [] {
      SumOfShifted(xs[1..], m);
      assert Shifted(xs, m)[1..] == Shifted(xs[1..], m);
      var n := |xs[1..]| as real;
      assert |xs| as real == n + 1.0;
      assert (n + 1.0) * m == n * m + m;
    }
  }

  lemma CentredSum(xs: seq<real>)
    requires xs != []
    ensures Sum(Shifted(xs, Mean(xs))) == 0.0
  {
    SumOfShifted(xs, Mean(xs));
  }

  lemma {:induction false} SquareOfPlus(rs: seq<real>, ds: seq<real>)
    requires |rs| == |ds|
    ensures SumProducts(Plus(rs, ds), Plus(rs, ds))
         == SumProducts(rs, rs) + 2.0 * SumProducts(rs, ds) + SumProducts(ds, ds)
  {
    if rs != [] {
      SquareOfPlus(rs[1..], ds[1..]);
      var r, d := rs[0], ds[0];
      assert Plus(rs, ds)[1..] == Plus(rs[1..], ds[1..]);
      assert (r + d) * (r + d) == r * r + 2.0 * (r * d) + d * d;
    }
  }

  lemma {:induction false} ProductWithAffine(rs: seq<real>, us: seq<real>, p: real, q: real)
    requires |rs| == |us|
    ensures SumProducts(rs, Affine(us, p, q)) == p * SumProducts(rs, us) + q * Sum(rs)
  {
    if rs != [] {
      ProductWithAffine(rs[1..], us[1..], p, q);
      assert Affine(us, p, q)[1..] == Affine(us[1..], p, q);
      AffineStep(rs[0], us[0], p, q, SumProducts(rs[1..], us[1..]), Sum(rs[1..]));
    }
  }

  lemma AffineStep(r: real, u: real, p: real, q: real, ru: real, sr: real)
    ensures r * (p * u + q) + (p * ru + q * sr) == p * (r * u + ru) + q * (r + sr)
  {
    assert r * (p * u) == p * (r * u);
  }

  function Scaled(us: seq<real>, p: real): (r: seq<real>)
    ensures |r| == |us|
  {
    if us == [] then [] else [p * us[0]] + Scaled(us[1..], p)
  }

  lemma {:induction false} SumWithScaled(vs: seq<real>, us: seq<real>, p: real)
    requires |vs| == |us|
    ensures Sum(Plus(vs, Scaled(us, p))) == Sum(vs) + p * Sum(us)
  {
    if vs != [] {
      SumWithScaled(vs[1..], us[1..], p);
      assert Scaled(us, p)[1..] == Scaled(us[1..], p);
      assert Plus(vs, Scaled(us, p))[1..] == Plus(vs[1..], Scaled(us[1..], p));
      Distribute(p, us[0], Sum(us[1..]));
    }
  }

  lemma {:induction false} ProductOfPlus(vs: seq<real>, ds: seq<real>, ws: seq<real>)
    requires |vs| == |ds| == |ws|
    ensures SumProducts(Plus(vs, ds), ws) == SumProducts(ws, vs) + SumProducts(ds, ws)
  {
    if vs != [] {
      ProductOfPlus(vs[1..], ds[1..], ws[1..]);
      assert Plus(vs, ds)[1..] == Plus(vs[1..], ds[1..]);
      assert (vs[0] + ds[0]) * ws[0] == ws[0] * vs[0] + ds[0] * ws[0];
    }
  }

  lemma {:induction false} ProductOfScaled(us: seq<real>, p: real, ws: seq<real>)
    requires |us| == |ws|
    ensures SumProducts(Scaled(us, p), ws) == p * SumProducts(us, ws)
  {
    if us != [] {
      ProductOfScaled(us[1..], p, ws[1..]);
      assert Scaled(us, p)[1..] == Scaled(us[1..], p);
      ScaledStep(p, us[0], ws[0], SumProducts(us[1..], ws[1..]));
    }
  }

  lemma Distribute(p: real, x: real, y: real)
    ensures p * (x + y) == p * x + p * y
  {
  }

  lemma ScaledStep(p: real, u: real, w: real, rest: real)
    ensures (p * u) * w + p * rest == p * (u * w + rest)
  {
    assert (p * u) * w == p * (u * w);
  }

  /** Residuals of a line through (mx, my), written with the samples shifted to that point. */
  lemma {:induction false} ResidualsShifted(xs: seq<real>, ys: seq<real>, line: Line, mx: real, my: real)
    requires |xs| == |ys| && At(line, mx) == my
    ensures Residuals(xs, ys, line) == Plus(Shifted(ys, my), Scaled(Shifted(xs, mx), -line.slope))
  {
    if xs != [] {
      ResidualsShifted(xs[1..], ys[1..], line, mx, my);
      var us, vs := Shifted(xs, mx), Shifted(ys, my);
      assert us[1..] == Shifted(xs[1..], mx) && vs[1..] == Shifted(ys[1..], my);
      var ds := Scaled(us, -line.slope);
      assert ds[1..] == Scaled(us[1..], -line.slope);
      ResidualShifted(xs[0], ys[0], line, mx);
      assert vs[0] + ds[0] == Residuals(xs, ys, line)[0];
      assert Plus(vs, ds)[1..] == Plus(vs[1..], ds[1..]);
      assert Residuals(xs, ys, line)[1..] == Residuals(xs[1..], ys[1..], line);
    }
  }

  /** The residuals of another line: those of the first plus the distance between the lines. */
  lemma {:induction false} ResidualsDiffer(xs: seq<real>, ys: seq<real>, fit: Line, line: Line, mx: real)
    requires |xs| == |ys|
    ensures Residuals(xs, ys, line) == Plus(Residuals(xs, ys, fit),
              Affine(Shifted(xs, mx), fit.slope - line.slope, At(fit, mx) - At(line, mx)))
  {
    if xs != [] {
      ResidualsDiffer(xs[1..], ys[1..], fit, line, mx);
      var us, q := Shifted(xs, mx), At(fit, mx) - At(line, mx);
      assert us[1..] == Shifted(xs[1..], mx);
      var rs, ds := Residuals(xs, ys, fit), Affine(us, fit.slope - line.slope, q);
      assert rs[1..] == Residuals(xs[1..], ys[1..], fit);
      assert ds[1..] == Affine(us[1..], fit.slope - line.slope, q);
      DistanceBetween(xs[0], fit, line, mx);
      assert ds[0] == (fit.slope - line.slope) * (xs[0] - mx) + q;
      assert rs[0] + ds[0] == Residuals(xs, ys, line)[0];
      assert Plus(rs, ds)[1..] == Plus(rs[1..], ds[1..]) && Plus(rs, ds)[0] == rs[0] + ds[0];
      assert Residuals(xs, ys, line)[1..] == Residuals(xs[1..], ys[1..], line);
    }
  }

  lemma DistanceBetween(x: real, fit: Line, line: Line, mx: real)
    ensures At(fit, x) - At(line, x) == (fit.slope - line.slope) * (x - mx) + (At(fit, mx) - At(line, mx))
  {
    var m, a := fit.slope, line.slope;
    assert (m - a) * (x - mx) == m * x - m * mx - a * x + a * mx;
  }

  lemma ResidualShifted(x: real, y: real, line: Line, mx: real)
    ensures y - At(line, x) == (y - At(line, mx)) - line.slope * (x - mx)
    ensures -line.slope * (x - mx) == -(line.slope * (x - mx))
  {
  }

  lemma SquareNonNegative(a: real)
    ensures a * a >= 0.0
    ensures a * a == 0.0 ==> a == 0.0
  {
    if a != 0.0 {
      assert a * a / a == a;
    }
  }

  lemma {:induction false} SquaresNonNegative(us: seq<real>)
    ensures SumProducts(us, us) >= 0.0
    ensures SumProducts(us, us) == 0.0 ==> forall i :: 0 <= i < |us| ==> us[i] == 0.0
  {
    if us != [] {
      SquaresNonNegative(us[1..]);
      SquareNonNegative(us[0]);
      assert forall i :: 0 < i < |us| ==> us[i] == us[1..][i - 1];
    }
  }

  /** If the squares add up to nothing, every product with the same values does too. */
  lemma {:induction false} NoSpreadNoProduct(us: seq<real>, vs: seq<real>)
    requires |us| == |vs| && SumProducts(us, us) == 0.0
    ensures SumProducts(us, vs) == 0.0
  {
    if us != [] {
      SquaresNonNegative(us[1..]);
      SquareNonNegative(us[0]);
      NoSpreadNoProduct(us[1..], vs[1..]);
    }
  }

  /** The two conditions that make a line the least-squares one, for samples centred at
      (mx, my): it passes through that point and its slope balances the products. */
  ghost predicate NormalEquations(xs: seq<real>, ys: seq<real>, fit: Line, mx: real, my: real)
    requires |xs| == |ys|
  {
    var us, vs := Shifted(xs, mx), Shifted(ys, my);
    && Sum(us) == 0.0 && Sum(vs) == 0.0
    && At(fit, mx) == my
    && fit.slope * SumProducts(us, us) == SumProducts(us, vs)
  }

  lemma SlopeSolves(us: seq<real>, vs: seq<real>)
    requires |us| == |vs|
    ensures Slope(us, vs) * SumProducts(us, us) == SumProducts(us, vs)
  {
    if SumProducts(us, us) == 0.0 {
      NoSpreadNoProduct(us, vs);
    }
  }

  lemma FitSolvesNormalEquations(xs: seq<real>, ys: seq<real>)
    requires |xs| == |ys| >= 2
    ensures NormalEquations(xs, ys, LinearFit(xs, ys), Mean(xs), Mean(ys))
  {
    CentredSum(xs);
    CentredSum(ys);
    SlopeSolves(Shifted(xs, Mean(xs)), Shifted(ys, Mean(ys)));
    assert LinearFit(xs, ys).slope == Slope(Shifted(xs, Mean(xs)), Shifted(ys, Mean(ys)));
  }

  lemma CentredResiduals(us: seq<real>, vs: seq<real>, p: real)
    requires |us| == |vs| && Sum(us) == 0.0 && Sum(vs) == 0.0
    requires SumProducts(us, vs) + p * SumProducts(us, us) == 0.0
    ensures Sum(Plus(vs, Scaled(us, p))) == 0.0 && SumProducts(Plus(vs, Scaled(us, p)), us) == 0.0
  {
    SumWithScaled(vs, us, p);
    ProductOfPlus(vs, Scaled(us, p), us);
    ProductOfScaled(us, p, us);
  }

  lemma Negated(m: real, x: real)
    ensures -m * x == -(m * x)
  {
  }

  /** Residuals of such a line have no sum and no correlation with the sample times. */
  lemma ResidualsOrthogonal(xs: seq<real>, ys: seq<real>, fit: Line, mx: real, my: real)
    requires |xs| == |ys| && NormalEquations(xs, ys, fit, mx, my)
    ensures Sum(Residuals(xs, ys, fit)) == 0.0 && SumProducts(Residuals(xs, ys, fit), Shifted(xs, mx)) == 0.0
  {
    var us, vs := Shifted(xs, mx), Shifted(ys, my);
    BalancedSlope(fit.slope, SumProducts(us, us), SumProducts(us, vs));
    CentredResiduals(us, vs, -fit.slope);
    ResidualsShifted(xs, ys, fit, mx, my);
  }

  lemma BalancedSlope(m: real, uu: real, uv: real)
    requires m * uu == uv
    ensures uv + -m * uu == 0.0
  {
    Negated(m, uu);
  }

  /** Distances between two lines at the sample times, written around mx. */
  function Distances(xs: seq<real>, mx: real, fit: Line, line: Line): (ds: seq<real>)
    ensures |ds| == |xs|
  {
    Affine(Shifted(xs, mx), fit.slope - line.slope, At(fit, mx) - At(line, mx))
  }

  lemma NoCrossTerm(rs: seq<real>, us: seq<real>, p: real, q: real)
    requires |rs| == |us| && Sum(rs) == 0.0 && SumProducts(rs, us) == 0.0
    ensures SumProducts(rs, Affine(us, p, q)) == 0.0
  {
    ProductWithAffine(rs, us, p, q);
    assert p * 0.0 == 0.0 && q * 0.0 == 0.0;
  }

  /** The error of any line exceeds that of the fitted one by the squared distances between the two. */
  lemma ErrorGap(xs: seq<real>, ys: seq<real>, fit: Line, line: Line, mx: real, my: real)
    requires |xs| == |ys| && NormalEquations(xs, ys, fit, mx, my)
    ensures var ds := Distances(xs, mx, fit, line);
            SquaredError(xs, ys, line) == SquaredError(xs, ys, fit) + SumProducts(ds, ds)
  {
    var rs := Residuals(xs, ys, fit);
    ResidualsOrthogonal(xs, ys, fit, mx, my);
    ResidualsDiffer(xs, ys, fit, line, mx);
    SquareOfPlus(rs, Distances(xs, mx, fit, line));
    NoCrossTerm(rs, Shifted(xs, mx), fit.slope - line.slope, At(fit, mx) - At(line, mx));
  }

  /** No line has a smaller squared error than the fitted one, on any samples. */
  lemma LinearFitIsOptimal(xs: seq<real>, ys: seq<real>, line: Line)
    requires |xs| == |ys|
    ensures SquaredError(xs, ys, LinearFit(xs, ys)) <= SquaredError(xs, ys, line)
  {
    if |xs| < 2 {
      SquaresNonNegative(Residuals(xs, ys, line));
      var rs := Residuals(xs, ys, LinearFit(xs, ys));
      assert |xs| == 1 ==> rs[0] == 0.0 && SumProducts(rs[1..], rs[1..]) == 0.0;
    } else {
      FitSolvesNormalEquations(xs, ys);
      NormalEquationsAreOptimal(xs, ys, LinearFit(xs, ys), line, Mean(xs), Mean(ys));
    }
  }

  lemma NormalEquationsAreOptimal(xs: seq<real>, ys: seq<real>, fit: Line, line: Line, mx: real, my: real)
    requires |xs| == |ys| && NormalEquations(xs, ys, fit, mx, my)
    ensures SquaredError(xs, ys, fit) <= SquaredError(xs, ys, line)
  {
    ErrorGap(xs, ys, fit, line, mx, my);
    SquaresNonNegative(Distances(xs, mx, fit, line));
  }

  lemma {:induction false} AffineAt(xs: seq<real>, mx: real, p: real, q: real, i: nat)
    requires i < |xs|
    ensures Affine(Shifted(xs, mx), p, q)[i] == p * (xs[i] - mx) + q
  {
    if i > 0 {
      AffineAt(xs[1..], mx, p, q, i - 1);
      assert Affine(Shifted(xs, mx), p, q)[1..] == Affine(Shifted(xs[1..], mx), p, q);
    }
  }

  /** With two different sample times the fitted line is the only best one. */
  lemma LinearFitIsUnique(xs: seq<real>, ys: seq<real>, line: Line, i: nat, j: nat)
    requires |xs| == |ys| && i < |xs| && j < |xs| && xs[i] != xs[j]
    requires SquaredError(xs, ys, line) <= SquaredError(xs, ys, LinearFit(xs, ys))
    ensures line == LinearFit(xs, ys)
  {
    FitSolvesNormalEquations(xs, ys);
    NoWorseIsEqual(xs, ys, LinearFit(xs, ys), line, Mean(xs), Mean(ys), i, j);
  }

  lemma NoWorseIsEqual(xs: seq<real>, ys: seq<real>, fit: Line, line: Line, mx: real, my: real, i: nat, j: nat)
    requires |xs| == |ys| && NormalEquations(xs, ys, fit, mx, my)
    requires i < |xs| && j < |xs| && xs[i] != xs[j]
    requires SquaredError(xs, ys, line) <= SquaredError(xs, ys, fit)
    ensures line == fit
  {
    var p, q := fit.slope - line.slope, At(fit, mx) - At(line, mx);
    ErrorGap(xs, ys, fit, line, mx, my);
    SquaresNonNegative(Distances(xs, mx, fit, line));
    AffineAt(xs, mx, p, q, i);
    AffineAt(xs, mx, p, q, j);
    TwoZeros(p, q, xs[i] - mx, xs[j] - mx);
    SameLine(fit, line, mx);
  }

  lemma SameLine(fit: Line, line: Line, mx: real)
    requires fit.slope - line.slope == 0.0 && At(fit, mx) - At(line, mx) == 0.0
    ensures line == fit
  {
    assert fit.slope * mx == line.slope * mx;
  }

  lemma TwoZeros(p: real, q: real, x: real, y: real)
    requires x != y && p * x + q == 0.0 && p * y + q == 0.0
    ensures p == 0.0 && q == 0.0
  {
    assert p * (x - y) == 0.0;
    NoFactor(p, x - y);
  }

  lemma NoFactor(p: real, d: real)
    requires d != 0.0 && p * d == 0.0
    ensures p == 0.0
  {
    assert p == p * d / d;
  }

  lemma ProductNonNegative(a: real, b: real)
    requires a >= 0.0 && b >= 0.0
    ensures a * b >= 0.0
  {
  }

  // ---- The fit without a spread ----

  lemma {:induction false} SameDistances(xs: seq<real>, m: real, d: real)
    requires forall i :: 0 <= i < |xs| ==> xs[i] - m == d
    ensures Sum(Shifted(xs, m)) == (|xs| as real) * d
    ensures SumProducts(Shifted(xs, m), Shifted(xs, m)) == (|xs| as real) * (d * d)
  {
    if xs != [] {
      var n := |xs| - 1;
      SameDistances(xs[1..], m, d);
      assert ((n + 1) as real) * d == (n as real) * d + d;
      assert ((n + 1) as real) * (d * d) == (n as real) * (d * d) + d * d;
    }
  }

  /** With one sample, none, or no two different times the fitted line is flat, at the mean
      of the values, or at zero when there are none. */
  lemma FlatWithoutSpread(xs: seq<real>, ys: seq<real>)
    requires |xs| == |ys| && forall i, j :: 0 <= i < |xs| && 0 <= j < |xs| ==> xs[i] == xs[j]
    ensures LinearFit(xs, ys) == Line(0.0, if ys == [] then 0.0 else Mean(ys))
  {
    if |xs| == 1 {
      assert ys == [ys[0]] && ys[1..] == [];
      assert Sum(ys) == ys[0] + 0.0;
    } else if |xs| >= 2 {
      var mx := Mean(xs);
      CentredSum(xs);
      SameDistances(xs, mx, xs[0] - mx);
      NoFactor(xs[0] - mx, |xs| as real);
    }
  }

  // ---- The projected series ----

  const STEP := 3600.0
  const DAY := 86400.0

  function PointCount(days: int): nat {
    if days < 0 then 0 else 24 * days + 1
  }

  /** The projection loop: hourly points on the line from now to the horizon, both included. */
  method Project(line: Line, now: real, days: int) returns (points: seq<(real, real)>)
    ensures |points| == PointCount(days)
    ensures forall k :: 0 <= k < |points| ==>
              points[k].0 == now + 3600.0 * (k as real) && points[k].1 == line.slope * points[k].0 + line.intercept
    ensures days >= 0 ==> |points| == 24 * days + 1 && points[|points| - 1].0 == now + 86400.0 * (days as real)
    ensures days < 0 ==> points == []
  {
    points := [];
    var end := now + (days as real) * DAY;
    var t := now;
    while t <= end
      invariant t == now + STEP * (|points| as real)
      invariant |points| <= PointCount(days)
      invariant forall k :: 0 <= k < |points| ==>
                  points[k].0 == now + STEP * (k as real) && points[k].1 == At(line, points[k].0)
      decreases PointCount(days) - |points|
    {
      assert STEP * (|points| as real) <= (days as real) * DAY;
      points := points + [(t, At(line, t))];
      t := t + STEP;
    }
  }

  // ---- Reaching the threshold ----

  /** The ETA branch of capacity_forecast. */
  function Eta(line: Line, now: real, total: real, threshold: real): Option<real> {
    var target := threshold * total;
    if line.slope > 0.0 && line.intercept < target then
      var eta := (target - line.intercept) / line.slope;
      if eta > now then Some(eta) else None
    else None
  }

  lemma Growth(line: Line, x: real, y: real)
    requires line.slope > 0.0
    ensures x < y <==> At(line, x) < At(line, y)
  {
    assert At(line, y) - At(line, x) == line.slope * (y - x);
    if x < y {
      assert line.slope * (y - x) > 0.0;
    } else {
      ProductNonNegative(line.slope, x - y);
      assert line.slope * (x - y) == -(line.slope * (y - x));
    }
  }

  /** An ETA is given exactly when usage grows and is below the threshold now; it is the one
      moment at which the line has the threshold value, after now, below before and above after. */
  lemma EtaIsTheCrossing(line: Line, now: real, total: real, threshold: real)
    requires now > 0.0
    ensures var target := threshold * total;
            var eta := Eta(line, now, total, threshold);
            && (eta.Some? <==> line.slope > 0.0 && At(line, now) < target)
            && (eta.Some? ==> eta.value > now && forall t :: (t < eta.value <==> At(line, t) < target)
                                                          && (t == eta.value <==> At(line, t) == target))
  {
    var target := threshold * total;
    if line.slope > 0.0 {
      var eta := (target - line.intercept) / line.slope;
      assert At(line, eta) == target;
      forall t ensures (t < eta <==> At(line, t) < target) && (t == eta <==> At(line, t) == target) {
        Growth(line, t, eta);
        Growth(line, eta, t);
      }
      Growth(line, 0.0, now);
      assert At(line, 0.0) == line.intercept;
    }
  }
}
