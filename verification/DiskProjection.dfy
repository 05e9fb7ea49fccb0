/**
 Days until a disk reaches its critical threshold: a least-squares line through its history,
 over the reals. Times are in days.
 */
module DiskProjection {
  import opened Common

  datatype Point = Point(at: real, used: real)

  /** A point as the fit sees it: days since some origin, and usage. */
  datatype Sample = Sample(x: real, y: real)

  datatype Disk = Disk(size: real, used: real, critPct: real)

  const CAP_DAYS: real := 365.0

  function Since(h: seq<Point>, o: real): (s: seq<Sample>)
    ensures |s| == |h|
  {
    seq(|h|, i requires 0 <= i < |h| => Sample(h[i].at - o, h[i].used))
  }

  // ----- the sums -----

  function Times(u: real, v: real): real {
    u * v
  }

  function N(s: seq<Sample>): real {
    |s| as real
  }

  function Sx(s: seq<Sample>): real {
    if s == [] then 0.0 else Sx(s[..|s| - 1]) + s[|s| - 1].x
  }

  function Sy(s: seq<Sample>): real {
    if s == [] then 0.0 else Sy(s[..|s| - 1]) + s[|s| - 1].y
  }

  function Sxy(s: seq<Sample>): real {
    if s == [] then 0.0 else Sxy(s[..|s| - 1]) + Times(s[|s| - 1].x, s[|s| - 1].y)
  }

  function Sxx(s: seq<Sample>): real {
    if s == [] then 0.0 else Sxx(s[..|s| - 1]) + Times(s[|s| - 1].x, s[|s| - 1].x)
  }

  /** n*uv - u*v, the shape of both sides of the slope. */
  function Spread(n: real, su: real, sv: real, suv: real): real {
    n * suv - su * sv
  }

  function Denominator(s: seq<Sample>): real {
    Spread(N(s), Sx(s), Sx(s), Sxx(s))
  }

  function Numerator(s: seq<Sample>): real {
    Spread(N(s), Sx(s), Sy(s), Sxy(s))
  }

  function Slope(s: seq<Sample>): real
    requires Denominator(s) != 0.0
  {
    Numerator(s) / Denominator(s)
  }

  function Intercept(s: seq<Sample>): real
    requires s != [] && Denominator(s) != 0.0
  {
    (Sy(s) - Times(Slope(s), Sx(s))) / N(s)
  }

  function Critical(d: Disk): real {
    d.size * d.critPct / 100.0
  }

  function Projection(d: Disk, h: seq<Point>): Option<real>
    requires h != []
  {
    var s := Since(h, h[0].at);
    if Denominator(s) <= 0.0 then None
    else if Slope(s) <= 0.0 then None
    else if Critical(d) - d.used <= 0.0 then Some(0.0)
    else
      var days := (Critical(d) - d.used) / Slope(s);
      if days > CAP_DAYS then None else Some(days)
  }

  method ProjectDaysUntilCritical(d: Disk, h: seq<Point>) returns (r: Option<real>)
    requires h != []
    ensures r == Projection(d, h)
  {
    var x0 := h[0].at;
    ghost var s := Since(h, x0);
    var sumX, sumY, sumXY, sumX2 := 0.0, 0.0, 0.0, 0.0;
    for i := 0 to |h|
      invariant sumX == Sx(s[..i]) && sumY == Sy(s[..i])
      invariant sumXY == Sxy(s[..i]) && sumX2 == Sxx(s[..i])
    {
      assert s[..i + 1][..i] == s[..i];
      var x, y := h[i].at - x0, h[i].used;
      assert s[i] == Sample(x, y);
      sumX, sumY := sumX + x, sumY + y;
      sumXY, sumX2 := sumXY + Times(x, y), sumX2 + Times(x, x);
    }
    assert s[..|h|] == s;
    var n := |h| as real;
    var denom := Spread(n, sumX, sumX, sumX2);
    if denom <= 0.0 {
      return None;
    }
    var slope := Spread(n, sumX, sumY, sumXY) / denom;
    if slope <= 0.0 {
      return None;
    }
    var remaining := Critical(d) - d.used;
    if remaining <= 0.0 {
      return Some(0.0);
    }
    var days := remaining / slope;
    return if days > CAP_DAYS then None else Some(days);
  }

  // ----- the denominator -----

  lemma SameSign(u: real, v: real)
    requires (u > 0.0 && v > 0.0) || (u < 0.0 && v < 0.0)
    ensures Times(u, v) > 0.0
  {
  }

  lemma SquareSign(v: real)
    ensures Times(v, v) >= 0.0
    ensures Times(v, v) == 0.0 <==> v == 0.0
  {
    if v != 0.0 {
      SameSign(v, v);
    }
  }

  function Height(p: real, q: real, x: real): real {
    Times(p + q * x, p + q * x)
  }

  lemma HeightSign(p: real, q: real, x: real)
    ensures Height(p, q, x) >= 0.0
    ensures Height(p, q, x) == 0.0 <==> p + q * x == 0.0
  {
    SquareSign(p + q * x);
  }

  /** Sum of the squares of p + q*x. */
  function Squares(s: seq<Sample>, p: real, q: real): real {
    if s == [] then 0.0 else Squares(s[..|s| - 1], p, q) + Height(p, q, s[|s| - 1].x)
  }

  /** The same sum, multiplied out. */
  function Expanded(n: real, sx: real, sxx: real, p: real, q: real): real {
    n * p * p + 2.0 * p * q * sx + q * q * sxx
  }

  lemma SquaresStep(n: real, sx: real, sxx: real, p: real, q: real, x: real, n': real, sx': real, sxx': real)
    requires n' == n + 1.0 && sx' == sx + x && sxx' == sxx + Times(x, x)
    ensures Expanded(n', sx', sxx', p, q) == Expanded(n, sx, sxx, p, q) + Height(p, q, x)
  {
  }

  lemma {:induction false} SquaresExpand(s: seq<Sample>, p: real, q: real)
    ensures Squares(s, p, q) == Expanded(N(s), Sx(s), Sxx(s), p, q)
  {
    if s != [] {
      var init, x := s[..|s| - 1], s[|s| - 1].x;
      SquaresExpand(init, p, q);
      SquaresStep(N(init), Sx(init), Sxx(init), p, q, x, N(s), Sx(s), Sxx(s));
    }
  }

  /** A sum of squares: never negative, and zero only if every term is. */
  lemma {:induction false} SquaresSign(s: seq<Sample>, p: real, q: real)
    ensures Squares(s, p, q) >= 0.0
    ensures Squares(s, p, q) == 0.0 <==> forall i | 0 <= i < |s| :: Height(p, q, s[i].x) == 0.0
  {
    if s != [] {
      var init := s[..|s| - 1];
      SquaresSign(init, p, q);
      HeightSign(p, q, s[|s| - 1].x);
      assert forall i | 0 <= i < |init| :: init[i] == s[i];
    }
  }

  ghost predicate SameTime(s: seq<Sample>) {
    forall i, j | 0 <= i < j < |s| :: s[i].x == s[j].x
  }

  /** One more sample raises the denominator by the squared distances of the others from it. */
  lemma DenominatorStep(n: real, sx: real, sxx: real, x: real, n': real, sx': real, sxx': real)
    requires n' == n + 1.0 && sx' == sx + x && sxx' == sxx + Times(x, x)
    ensures Spread(n', sx', sx', sxx') == Spread(n, sx, sx, sxx) + Expanded(n, sx, sxx, -x, 1.0)
  {
  }

  lemma DenominatorGrows(s: seq<Sample>)
    requires s != []
    ensures Denominator(s) == Denominator(s[..|s| - 1]) + Squares(s[..|s| - 1], -s[|s| - 1].x, 1.0)
  {
    var init, x := s[..|s| - 1], s[|s| - 1].x;
    DenominatorStep(N(init), Sx(init), Sxx(init), x, N(s), Sx(s), Sxx(s));
    SquaresExpand(init, -x, 1.0);
  }

  /** Cauchy-Schwarz for any history: the denominator is zero exactly when all times coincide. */
  lemma {:induction false} DenominatorSign(s: seq<Sample>)
    ensures Denominator(s) >= 0.0
    ensures Denominator(s) == 0.0 <==> SameTime(s)
  {
    if s != [] {
      var init, x := s[..|s| - 1], s[|s| - 1].x;
      DenominatorSign(init);
      DenominatorGrows(s);
      SquaresSign(init, -x, 1.0);
      assert forall i | 0 <= i < |init| :: init[i] == s[i];
      forall i | 0 <= i < |init| ensures Height(-x, 1.0, init[i].x) == 0.0 <==> s[i].x == x {
        HeightSign(-x, 1.0, init[i].x);
      }
    }
  }

  // ----- least squares -----

  /** The squared distance of a sample from the line a + b*x. */
  function Gap(p: Sample, a: real, b: real): real {
    Times(p.y - a - b * p.x, p.y - a - b * p.x)
  }

  lemma GapSign(p: Sample, a: real, b: real)
    ensures Gap(p, a, b) >= 0.0
  {
    SquareSign(p.y - a - b * p.x);
  }

  /** Sum of the squared distances from the line a + b*x. */
  function Error(s: seq<Sample>, a: real, b: real): real {
    if s == [] then 0.0 else Error(s[..|s| - 1], a, b) + Gap(s[|s| - 1], a, b)
  }

  function Rest(u: real, v: real, w: real, a: real, b: real): real {
    u - a * v - b * w
  }

  /** The sum of the residuals, plain. */
  function Residual(s: seq<Sample>, a: real, b: real): real {
    Rest(Sy(s), N(s), Sx(s), a, b)
  }

  /** The sum of the residuals, each weighted by its time. */
  function WeightedResidual(s: seq<Sample>, a: real, b: real): real {
    Rest(Sxy(s), Sx(s), Sxx(s), a, b)
  }

  /** How far the error falls when the line moves by da + db*x. */
  function Drop(r: real, w: real, da: real, db: real): real {
    2.0 * da * r + 2.0 * db * w
  }

  lemma ErrorStep(n: real, sx: real, sy: real, sxy: real, sxx: real, a: real, b: real, da: real, db: real,
                  x: real, y: real, n': real, sx': real, sy': real, sxy': real, sxx': real)
    requires n' == n + 1.0 && sx' == sx + x && sy' == sy + y && sxy' == sxy + Times(x, y) && sxx' == sxx + Times(x, x)
    ensures Gap(Sample(x, y), a + da, b + db) - Gap(Sample(x, y), a, b) - Height(da, db, x)
         == Drop(Rest(sy, n, sx, a, b), Rest(sxy, sx, sxx, a, b), da, db)
            - Drop(Rest(sy', n', sx', a, b), Rest(sxy', sx', sxx', a, b), da, db)
  {
  }

  /** Moving the line changes the error by a square and by twice the residuals' sums. */
  lemma {:induction false} ErrorShift(s: seq<Sample>, a: real, b: real, da: real, db: real)
    ensures Error(s, a + da, b + db) ==
            Error(s, a, b) + Squares(s, da, db) - Drop(Residual(s, a, b), WeightedResidual(s, a, b), da, db)
  {
    if s != [] {
      var init, x, y := s[..|s| - 1], s[|s| - 1].x, s[|s| - 1].y;
      ErrorShift(init, a, b, da, db);
      ErrorStep(N(init), Sx(init), Sy(init), Sxy(init), Sxx(init), a, b, da, db, x, y,
                N(s), Sx(s), Sy(s), Sxy(s), Sxx(s));
    }
  }

  lemma Normal(n: real, sx: real, sxx: real, sy: real, sxy: real, a: real, b: real)
    requires n != 0.0
    requires Times(n, a) == sy - Times(b, sx)
    requires Times(Spread(n, sx, sx, sxx), b) == Spread(n, sx, sy, sxy)
    ensures Rest(sy, n, sx, a, b) == 0.0
    ensures Rest(sxy, sx, sxx, a, b) == 0.0
  {
    var r := sxy - a * sx - b * sxx;
    assert n * r == n * sxy - (n * a) * sx - b * (n * sxx);
    assert (n * a) * sx == (sy - b * sx) * sx;
    assert (sy - b * sx) * sx == sy * sx - b * (sx * sx);
    assert n * r == 0.0;
  }

  lemma Quotient(u: real, v: real)
    requires v != 0.0
    ensures Times(v, u / v) == u
  {
  }

  /** The normal equations: the residuals of the fitted line sum to zero, plain and weighted by time. */
  lemma NormalEquations(s: seq<Sample>)
    requires s != [] && Denominator(s) != 0.0
    ensures Residual(s, Intercept(s), Slope(s)) == 0.0
    ensures WeightedResidual(s, Intercept(s), Slope(s)) == 0.0
  {
    var b, a := Slope(s), Intercept(s);
    Quotient(Numerator(s), Denominator(s));
    Quotient(Sy(s) - Times(b, Sx(s)), N(s));
    Normal(N(s), Sx(s), Sxx(s), Sy(s), Sxy(s), a, b);
  }

  lemma NoDrop(da: real, db: real)
    ensures Drop(0.0, 0.0, da, db) == 0.0
  {
  }

  lemma OneLineThroughTwo(p: real, q: real, x: real, x': real)
    requires x != x' && Height(p, q, x) == 0.0 && Height(p, q, x') == 0.0
    ensures p == 0.0 && q == 0.0
  {
    HeightSign(p, q, x);
    HeightSign(p, q, x');
    assert q * (x - x') == 0.0;
    assert q == 0.0;
  }

  /** A line that meets the normal equations has the least squared error, and no other has it. */
  lemma Minimiser(s: seq<Sample>, a: real, b: real, da: real, db: real)
    requires Residual(s, a, b) == 0.0 && WeightedResidual(s, a, b) == 0.0 && !SameTime(s)
    ensures Error(s, a, b) <= Error(s, a + da, b + db)
    ensures Error(s, a, b) == Error(s, a + da, b + db) ==> da == 0.0 && db == 0.0
  {
    ErrorShift(s, a, b, da, db);
    NoDrop(da, db);
    SquaresSign(s, da, db);
    if Squares(s, da, db) == 0.0 {
      var i, j :| 0 <= i < j < |s| && s[i].x != s[j].x;
      OneLineThroughTwo(da, db, s[i].x, s[j].x);
    }
  }

  /** The fitted line has the least squared error of all lines, and is the only one that has it. */
  lemma LeastSquares(s: seq<Sample>, a: real, b: real)
    requires s != [] && Denominator(s) != 0.0
    ensures Error(s, Intercept(s), Slope(s)) <= Error(s, a, b)
    ensures Error(s, Intercept(s), Slope(s)) == Error(s, a, b) ==> a == Intercept(s) && b == Slope(s)
  {
    NormalEquations(s);
    DenominatorSign(s);
    Minimiser(s, Intercept(s), Slope(s), a - Intercept(s), b - Slope(s));
  }

  // ----- the slope -----

  /** What measuring time from c days earlier does to the sums. */
  predicate SumsMoved(n: real, sx: real, sxx: real, sxy: real, sy: real, c: real, sx': real, sxx': real, sxy': real) {
    && sx' == sx + n * c
    && sxy' == sxy + c * sy
    && sxx' == sxx + 2.0 * c * sx + n * c * c
  }

  lemma MoveStep(n: real, sx: real, sxx: real, sxy: real, sy: real, c: real, sx': real, sxx': real, sxy': real,
                 x: real, y: real)
    requires SumsMoved(n, sx, sxx, sxy, sy, c, sx', sxx', sxy')
    ensures SumsMoved(n + 1.0, sx + x, sxx + Times(x, x), sxy + Times(x, y), sy + y, c,
                      sx' + (x + c), sxx' + Times(x + c, x + c), sxy' + Times(x + c, y))
  {
  }

  /** The same samples, with time measured from c days earlier. */
  ghost predicate Moved(s: seq<Sample>, t: seq<Sample>, c: real) {
    |s| == |t| && forall i | 0 <= i < |s| :: t[i] == Sample(s[i].x + c, s[i].y)
  }

  lemma {:induction false} MovedSums(s: seq<Sample>, t: seq<Sample>, c: real)
    requires Moved(s, t, c)
    ensures Sy(t) == Sy(s)
    ensures SumsMoved(N(s), Sx(s), Sxx(s), Sxy(s), Sy(s), c, Sx(t), Sxx(t), Sxy(t))
  {
    if s != [] {
      var init, init', p := s[..|s| - 1], t[..|t| - 1], s[|s| - 1];
      MovedSums(init, init', c);
      MoveStep(N(init), Sx(init), Sxx(init), Sxy(init), Sy(init), c, Sx(init'), Sxx(init'), Sxy(init'), p.x, p.y);
      assert t[|t| - 1] == Sample(p.x + c, p.y);
    }
  }

  lemma MoveCancels(n: real, sx: real, sxx: real, sxy: real, sy: real, c: real, sx': real, sxx': real, sxy': real)
    requires SumsMoved(n, sx, sxx, sxy, sy, c, sx', sxx', sxy')
    ensures Spread(n, sx', sx', sxx') == Spread(n, sx, sx, sxx)
    ensures Spread(n, sx', sy, sxy') == Spread(n, sx, sy, sxy)
  {
  }

  /** The slope does not depend on where time is measured from. */
  lemma SlopeHasNoOrigin(h: seq<Point>, o: real, o': real)
    ensures Denominator(Since(h, o)) == Denominator(Since(h, o'))
    ensures Numerator(Since(h, o)) == Numerator(Since(h, o'))
    ensures Denominator(Since(h, o)) != 0.0 ==> Slope(Since(h, o)) == Slope(Since(h, o'))
  {
    var s, t := Since(h, o), Since(h, o');
    MovedSums(s, t, o - o');
    MoveCancels(N(s), Sx(s), Sxx(s), Sxy(s), Sy(s), o - o', Sx(t), Sxx(t), Sxy(t));
  }

  /** On data exactly on a line the fit is that line, whatever the times. */
  lemma FitOfALine(s: seq<Sample>, a: real, b: real)
    requires s != [] && Denominator(s) != 0.0
    requires forall i | 0 <= i < |s| :: s[i].y == a + b * s[i].x
    ensures Slope(s) == b && Intercept(s) == a
  {
    NoError(s, a, b);
    ErrorSign(s, Intercept(s), Slope(s));
    LeastSquares(s, a, b);
  }

  lemma {:induction false} ErrorSign(s: seq<Sample>, a: real, b: real)
    ensures Error(s, a, b) >= 0.0
  {
    if s != [] {
      ErrorSign(s[..|s| - 1], a, b);
      GapSign(s[|s| - 1], a, b);
    }
  }

  lemma {:induction false} NoError(s: seq<Sample>, a: real, b: real)
    requires forall i | 0 <= i < |s| :: s[i].y == a + b * s[i].x
    ensures Error(s, a, b) == 0.0
  {
    if s != [] {
      NoError(s[..|s| - 1], a, b);
      assert s[|s| - 1].y - a - b * s[|s| - 1].x == 0.0;
    }
  }

  // ----- the projection -----

  lemma QuotientAbove(u: real, v: real, c: real)
    requires v > 0.0
    ensures u / v > c <==> u > Times(v, c)
  {
    Quotient(u, v);
    var k := u / v;
    if k > c {
      assert v * (k - c) > 0.0;
    } else {
      assert v * (c - k) >= 0.0;
    }
  }

  /** All the history was captured at one instant. */
  ghost predicate OneInstant(h: seq<Point>) {
    forall i, j | 0 <= i < j < |h| :: h[i].at == h[j].at
  }

  lemma NoSpread(h: seq<Point>, o: real)
    ensures Denominator(Since(h, o)) >= 0.0
    ensures Denominator(Since(h, o)) == 0.0 <==> OneInstant(h)
  {
    var s := Since(h, o);
    DenominatorSign(s);
    assert forall i, j | 0 <= i < j < |h| :: s[i].x == s[j].x <==> h[i].at == h[j].at;
  }

  /** The growth rate: the slope of the least-squares line, from whatever origin. */
  function Growth(h: seq<Point>): real
    requires !OneInstant(h)
  {
    NoSpread(h, 0.0);
    Slope(Since(h, 0.0))
  }

  /**
   A projection is between now and a year ahead; a positive one is when the line through the
   present usage reaches the threshold, and zero means it is reached already.
   */
  lemma ProjectionHits(d: Disk, h: seq<Point>)
    requires h != [] && Projection(d, h).Some?
    ensures !OneInstant(h) && Growth(h) > 0.0
    ensures var r := Projection(d, h).value;
            && 0.0 <= r <= CAP_DAYS
            && (r > 0.0 ==> d.used + Times(Growth(h), r) == Critical(d))
            && (r == 0.0 <==> d.used >= Critical(d))
  {
    NoSpread(h, h[0].at);
    SlopeHasNoOrigin(h, h[0].at, 0.0);
    var remaining := Critical(d) - d.used;
    QuotientAbove(remaining, Growth(h), 0.0);
    Quotient(remaining, Growth(h));
  }

  /** There is no projection exactly when all times coincide, usage is not growing, or it is over a year away. */
  lemma NoProjectionExactly(d: Disk, h: seq<Point>)
    requires h != []
    ensures Projection(d, h) == None <==>
            OneInstant(h) || Growth(h) <= 0.0 || d.used + Times(Growth(h), CAP_DAYS) < Critical(d)
  {
    NoSpread(h, h[0].at);
    if !OneInstant(h) {
      SlopeHasNoOrigin(h, h[0].at, 0.0);
      if Growth(h) > 0.0 {
        QuotientAbove(Critical(d) - d.used, Growth(h), CAP_DAYS);
        assert Times(Growth(h), CAP_DAYS) > 0.0;
      }
    }
  }
}
