/** The posterior-predictive density and the page's readout of it, over the reals. */
module Posterior {
  /** Elementwise sum, the numerator of a mean. */
  function Sum(xs: seq<real>): real {
    if xs == [] then 0.0 else xs[0] + Sum(xs[1..])
  }

  function Mean(xs: seq<real>): real
    requires xs != []
  {
    Sum(xs) / |xs| as real
  }

  /** Trapezoid mass of each cell of the grid. */
  function CellMasses(xs: seq<real>, ys: seq<real>): seq<real>
    requires |xs| == |ys|
  {
    seq(Cells(xs), i requires 0 <= i < Cells(xs) => (xs[i + 1] - xs[i]) * (ys[i] + ys[i + 1]) / 2.0)
  }

  function Midpoints(xs: seq<real>): seq<real> {
    seq(Cells(xs), i requires 0 <= i < Cells(xs) => (xs[i] + xs[i + 1]) / 2.0)
  }

  function Cells(xs: seq<real>): nat {
    if xs == [] then 0 else |xs| - 1
  }

  function Total(cells: seq<real>): real {
    if cells == [] then 0.0 else Total(cells[..|cells| - 1]) + cells[|cells| - 1]
  }

  function Products(mids: seq<real>, cells: seq<real>): seq<real>
    requires |mids| == |cells|
  {
    seq(|cells|, i requires 0 <= i < |cells| => mids[i] * cells[i])
  }

  /** The trapezoid rule. */
  function TotalMass(xs: seq<real>, ys: seq<real>): real
    requires |xs| == |ys|
  {
    Total(CellMasses(xs, ys))
  }

  /** Sum over the cells of midpoint times cell mass. */
  function Moment(xs: seq<real>, ys: seq<real>): real
    requires |xs| == |ys|
  {
    Total(Products(Midpoints(xs), CellMasses(xs, ys)))
  }

  function Scale(ys: seq<real>, factor: real): seq<real>
    requires factor != 0.0
  {
    seq(|ys|, i requires 0 <= i < |ys| => ys[i] / factor)
  }

  /** Divide by the mass when it is positive. */
  function Normalized(xs: seq<real>, ys: seq<real>): seq<real>
    requires |xs| == |ys|
  {
    if TotalMass(xs, ys) > 0.0 then Scale(ys, TotalMass(xs, ys)) else ys
  }

  lemma CellScales(d: real, a: real, b: real, factor: real)
    requires factor != 0.0
    ensures d * (a / factor + b / factor) / 2.0 == (d * (a + b) / 2.0) / factor
  {
    assert a / factor + b / factor == (a + b) / factor;
    assert d * ((a + b) / factor) == d * (a + b) / factor;
  }

  lemma QuotientsAdd(a: real, b: real, c: real)
    requires c != 0.0
    ensures a / c + b / c == (a + b) / c
  {
  }

  lemma SelfQuotient(d: real)
    requires d != 0.0
    ensures d / d == 1.0
  {
  }

  lemma {:induction false} TotalScales(cells: seq<real>, factor: real)
    requires factor != 0.0
    ensures Total(Scale(cells, factor)) == Total(cells) / factor
  {
    if cells == [] {
    } else {
      var n := |cells| - 1;
      TotalScales(cells[..n], factor);
      assert Scale(cells, factor)[..n] == Scale(cells[..n], factor);
      QuotientsAdd(Total(cells[..n]), cells[n], factor);
    }
  }

  /** Positive mass normalises to exactly one. */
  lemma NormalizedHasUnitMass(xs: seq<real>, ys: seq<real>)
    requires |xs| == |ys| && TotalMass(xs, ys) > 0.0
    ensures TotalMass(xs, Normalized(xs, ys)) == 1.0
  {
    var m := TotalMass(xs, ys);
    forall i | 0 <= i < Cells(xs) ensures CellMasses(xs, Scale(ys, m))[i] == Scale(CellMasses(xs, ys), m)[i] {
      CellScales(xs[i + 1] - xs[i], ys[i], ys[i + 1], m);
    }
    assert CellMasses(xs, Scale(ys, m)) == Scale(CellMasses(xs, ys), m);
    TotalScales(CellMasses(xs, ys), m);
    SelfQuotient(m);
  }

  predicate Ascending(xs: seq<real>) {
    forall i, j :: 0 <= i <= j < |xs| ==> xs[i] <= xs[j]
  }

  predicate NonNegative(ys: seq<real>) {
    forall i :: 0 <= i < |ys| ==> ys[i] >= 0.0
  }

  lemma CellNonNegative(d: real, y: real)
    requires d >= 0.0 && y >= 0.0
    ensures d * y / 2.0 >= 0.0
  {
  }

  lemma {:induction false} TotalsOrdered(a: seq<real>, b: seq<real>)
    requires |a| == |b| && forall i :: 0 <= i < |a| ==> a[i] <= b[i]
    ensures Total(a) <= Total(b)
  {
    if a == [] {
    } else {
      TotalsOrdered(a[..|a| - 1], b[..|b| - 1]);
    }
  }

  function Times(c: real, cells: seq<real>): seq<real> {
    seq(|cells|, i requires 0 <= i < |cells| => c * cells[i])
  }

  lemma {:induction false} TotalTimes(c: real, cells: seq<real>)
    ensures Total(Times(c, cells)) == c * Total(cells)
  {
    if cells == [] {
    } else {
      var n := |cells| - 1;
      TotalTimes(c, cells[..n]);
      forall i | 0 <= i < n ensures Times(c, cells)[i] == Times(c, cells[..n])[i] {
        assert cells[..n][i] == cells[i];
      }
      assert Times(c, cells)[..n] == Times(c, cells[..n]);
      Distributes(c, Total(cells[..n]), cells[n]);
    }
  }

  lemma Distributes(a: real, b: real, c: real)
    ensures a * (b + c) == a * b + a * c
  {
  }

  lemma ScaleKeepsOrder(a: real, b: real, c: real)
    requires a <= b && c >= 0.0
    ensures a * c <= b * c
  {
  }

  predicate AllBetween(lo: real, xs: seq<real>, hi: real) {
    forall i :: 0 <= i < |xs| ==> lo <= xs[i] <= hi
  }

  lemma WeightedBetween(mids: seq<real>, cells: seq<real>, lo: real, hi: real)
    requires |mids| == |cells|
    ensures NonNegative(cells) && AllBetween(lo, mids, hi) ==>
      lo * Total(cells) <= Total(Products(mids, cells)) <= hi * Total(cells)
  {
    if NonNegative(cells) && AllBetween(lo, mids, hi) {
      LowestProducts(lo, mids, cells);
      HighestProducts(hi, mids, cells);
      TotalTimes(lo, cells);
      TotalTimes(hi, cells);
    }
  }

  lemma LowestProducts(lo: real, mids: seq<real>, cells: seq<real>)
    requires |mids| == |cells| && NonNegative(cells) && forall i :: 0 <= i < |mids| ==> lo <= mids[i]
    ensures Total(Times(lo, cells)) <= Total(Products(mids, cells))
  {
    forall i | 0 <= i < |cells| ensures Times(lo, cells)[i] <= Products(mids, cells)[i] {
      ScaleKeepsOrder(lo, mids[i], cells[i]);
    }
    TotalsOrdered(Times(lo, cells), Products(mids, cells));
  }

  lemma HighestProducts(hi: real, mids: seq<real>, cells: seq<real>)
    requires |mids| == |cells| && NonNegative(cells) && forall i :: 0 <= i < |mids| ==> mids[i] <= hi
    ensures Total(Products(mids, cells)) <= Total(Times(hi, cells))
  {
    forall i | 0 <= i < |cells| ensures Products(mids, cells)[i] <= Times(hi, cells)[i] {
      ScaleKeepsOrder(mids[i], hi, cells[i]);
    }
    TotalsOrdered(Products(mids, cells), Times(hi, cells));
  }

  /** The moment lies between the extreme grid points times the mass. */
  lemma MomentBetween(xs: seq<real>, ys: seq<real>)
    requires |xs| == |ys| && xs != [] && Ascending(xs) && NonNegative(ys)
    ensures xs[0] * TotalMass(xs, ys) <= Moment(xs, ys) <= xs[|xs| - 1] * TotalMass(xs, ys)
  {
    MassesNonNegative(xs, ys);
    MidpointsBetween(xs);
    CellsBetween(xs, ys, xs[0], xs[|xs| - 1]);
  }

  lemma CellsBetween(xs: seq<real>, ys: seq<real>, lo: real, hi: real)
    requires |xs| == |ys|
    ensures NonNegative(CellMasses(xs, ys)) && AllBetween(lo, Midpoints(xs), hi) ==>
      lo * TotalMass(xs, ys) <= Moment(xs, ys) <= hi * TotalMass(xs, ys)
  {
    WeightedBetween(Midpoints(xs), CellMasses(xs, ys), lo, hi);
  }

  lemma MidpointsBetween(xs: seq<real>)
    requires xs != [] && Ascending(xs)
    ensures AllBetween(xs[0], Midpoints(xs), xs[|xs| - 1])
  {
    forall i | 0 <= i < Cells(xs) ensures xs[0] <= Midpoints(xs)[i] <= xs[|xs| - 1] {
      assert xs[0] <= xs[i] <= xs[i + 1] <= xs[|xs| - 1];
    }
  }

  lemma MassesNonNegative(xs: seq<real>, ys: seq<real>)
    requires |xs| == |ys| && Ascending(xs) && NonNegative(ys)
    ensures NonNegative(CellMasses(xs, ys))
  {
    forall i | 0 <= i < Cells(xs) ensures CellMasses(xs, ys)[i] >= 0.0 {
      CellMassNonNegative(xs, ys, i);
    }
  }

  lemma CellMassNonNegative(xs: seq<real>, ys: seq<real>, i: nat)
    requires |xs| == |ys| && Ascending(xs) && NonNegative(ys) && i < Cells(xs)
    ensures CellMasses(xs, ys)[i] >= 0.0
  {
    CellNonNegative(xs[i + 1] - xs[i], ys[i] + ys[i + 1]);
  }

  lemma DivideBetween(lo: real, hi: real, m: real, mass: real)
    requires mass > 0.0 && lo * mass <= m <= hi * mass
    ensures lo <= m / mass <= hi
  {
    assert m / mass - lo == (m - lo * mass) / mass;
    assert hi - m / mass == (hi * mass - m) / mass;
  }

  /** The page's loop over the published grid. It recomputes the mass; the mean it shows stays on the grid. */
  method UpdatePosteriorCard(xs: seq<real>, ys: seq<real>) returns (mean: real, mass: real)
    requires |xs| == |ys|
    ensures mass == TotalMass(xs, ys)
    ensures mass > 0.0 && Ascending(xs) && NonNegative(ys) ==> xs[0] <= mean <= xs[|xs| - 1]
    ensures mean == if mass > 0.0 then Moment(xs, ys) / mass else Moment(xs, ys)
  {
    mean, mass := 0.0, 0.0;
    ghost var cells, moments := CellMasses(xs, ys), Products(Midpoints(xs), CellMasses(xs, ys));
    var i := 0;
    while i < |xs| - 1
      invariant 0 <= i <= Cells(xs)
      invariant mass == Total(cells[..i]) && mean == Total(moments[..i])
    {
      var dx := xs[i + 1] - xs[i];
      var y := 0.5 * (ys[i] + ys[i + 1]);
      var xm := 0.5 * (xs[i] + xs[i + 1]);
      CardStep(xs, ys, i, dx, y, xm);
      mean := mean + xm * y * dx;
      mass := mass + y * dx;
      i := i + 1;
    }
    assert cells[..Cells(xs)] == cells && moments[..Cells(xs)] == moments;
    if mass > 0.0 {
      MeanBetween(xs, ys);
      mean := mean / mass;
    }
  }

  lemma MeanBetween(xs: seq<real>, ys: seq<real>)
    requires |xs| == |ys| && TotalMass(xs, ys) > 0.0
    ensures xs != []
    ensures Ascending(xs) && NonNegative(ys) ==> xs[0] <= Moment(xs, ys) / TotalMass(xs, ys) <= xs[|xs| - 1]
  {
    if xs != [] && Ascending(xs) && NonNegative(ys) {
      MomentBetween(xs, ys);
      DivideBetween(xs[0], xs[|xs| - 1], Moment(xs, ys), TotalMass(xs, ys));
    }
  }

  lemma CardStep(xs: seq<real>, ys: seq<real>, i: nat, dx: real, y: real, xm: real)
    requires |xs| == |ys| && i < Cells(xs)
    requires dx == xs[i + 1] - xs[i] && y == 0.5 * (ys[i] + ys[i + 1]) && xm == 0.5 * (xs[i] + xs[i + 1])
    ensures var cells, moments := CellMasses(xs, ys), Products(Midpoints(xs), CellMasses(xs, ys));
      && Total(cells[..i + 1]) == Total(cells[..i]) + y * dx
      && Total(moments[..i + 1]) == Total(moments[..i]) + xm * y * dx
  {
    var cells, mids := CellMasses(xs, ys), Midpoints(xs);
    var moments := Products(mids, cells);
    assert cells[..i + 1][..i] == cells[..i] && moments[..i + 1][..i] == moments[..i];
    CellForms(dx, ys[i] + ys[i + 1], y, xm);
    assert cells[i] == dx * (ys[i] + ys[i + 1]) / 2.0 && mids[i] == xm;
  }

  lemma CellForms(dx: real, y2: real, y: real, xm: real)
    requires y == 0.5 * y2
    ensures y * dx == dx * y2 / 2.0
    ensures xm * y * dx == xm * (dx * y2 / 2.0)
  {
    assert y * dx == dx * y2 / 2.0;
    Associates(xm, y, dx);
  }

  lemma Associates(a: real, b: real, c: real)
    ensures a * b * c == a * (b * c)
  {
  }

  // ---------------------------------------------------------------- the published density

  /** The transcendental functions, and the square root of 2 pi. */
  datatype Library = Library(exp: real -> real, ln: real -> real, rootTwoPi: real)

  /** All that is used of them: exp is positive and strictly increasing, the root is positive. */
  ghost predicate Plausible(lib: Library) {
    && lib.rootTwoPi > 0.0
    && (forall x :: lib.exp(x) > 0.0)
    && (forall x, y :: x < y ==> lib.exp(x) < lib.exp(y))
  }

  /** Grid point i of n, evenly spaced from lo to hi. */
  function Lerp(lo: real, hi: real, i: nat, n: nat): real
    requires i < n
  {
    if n == 1 then lo else lo + (hi - lo) * (i as real / (n - 1) as real)
  }

  function Linspace(lo: real, hi: real, n: nat): seq<real> {
    seq(n, i requires 0 <= i < n => Lerp(lo, hi, i, n))
  }

  /** One sample's log-normal kernel at x. */
  function Kernel(lib: Library, mid: real, x: real, sigma: real): real
    requires x > 0.0 && sigma > 0.0 && lib.rootTwoPi > 0.0
  {
    ScalesPositive(x, sigma, lib.rootTwoPi);
    var z := (lib.ln(x) - lib.ln(mid)) / sigma;
    lib.exp(-0.5 * z * z) / (x * sigma * lib.rootTwoPi)
  }

  lemma ScalesPositive(a: real, b: real, c: real)
    requires a > 0.0 && b > 0.0 && c > 0.0
    ensures a * b * c > 0.0
  {
    assert a * b > 0.0;
  }

  function Kernels(lib: Library, mid: real, x: real, sigmas: seq<real>): seq<real>
    requires x > 0.0 && lib.rootTwoPi > 0.0 && forall i :: 0 <= i < |sigmas| ==> sigmas[i] > 0.0
  {
    seq(|sigmas|, i requires 0 <= i < |sigmas| => Kernel(lib, mid, x, sigmas[i]))
  }

  function Span(sigmas: seq<real>, spanSigmas: real): (span: real)
    requires sigmas != []
    ensures span > 0.0
  {
    if spanSigmas * Mean(sigmas) > 0.000001 then spanSigmas * Mean(sigmas) else 0.000001
  }

  /** The kernels averaged over the samples, at every grid point. */
  function RawDensity(lib: Library, mid: real, xs: seq<real>, sigmas: seq<real>): seq<real>
    requires sigmas != [] && lib.rootTwoPi > 0.0
    requires (forall i :: 0 <= i < |xs| ==> xs[i] > 0.0) && forall i :: 0 <= i < |sigmas| ==> sigmas[i] > 0.0
  {
    seq(|xs|, i requires 0 <= i < |xs| => Mean(Kernels(lib, mid, xs[i], sigmas)))
  }

  datatype Density = Density(xs: seq<real>, ys: seq<real>) | Invalid(reason: string)

  /** The grid of next prices: span standard deviations, in log space, either side of the latest mid. */
  function Grid(lib: Library, latestMid: real, sigmas: seq<real>, nGrid: nat, spanSigmas: real): seq<real>
    requires sigmas != []
  {
    GridOver(lib, latestMid, nGrid, Span(sigmas, spanSigmas))
  }

  function GridOver(lib: Library, mid: real, n: nat, span: real): seq<real> {
    Linspace(End(lib, mid, -span), End(lib, mid, span), n)
  }

  function End(lib: Library, mid: real, offset: real): real {
    mid * lib.exp(offset)
  }

  ghost function PredictiveDensity(lib: Library, latestMid: real, sigmas: seq<real>, nGrid: nat,
      spanSigmas: real): Density
    requires Plausible(lib) && forall i :: 0 <= i < |sigmas| ==> sigmas[i] > 0.0
  {
    if latestMid <= 0.0 then Invalid("latest_mid must be > 0")
    else if sigmas == [] then Invalid("sigma_samples is empty")
    else
      var xs := Grid(lib, latestMid, sigmas, nGrid, spanSigmas);
      GridAscends(lib, latestMid, sigmas, nGrid, spanSigmas);
      Density(xs, Normalized(xs, RawDensity(lib, latestMid, xs, sigmas)))
  }

  lemma FractionsGrow(i: nat, j: nat, n: nat)
    requires i <= j <= n && n > 0
    ensures 0.0 <= i as real / n as real <= j as real / n as real <= 1.0
    ensures i < j ==> i as real / n as real < j as real / n as real
  {
    QuotientOrder(0.0, i as real, n as real);
    QuotientOrder(i as real, j as real, n as real);
    QuotientOrder(j as real, n as real, n as real);
    SelfQuotient(n as real);
    ZeroQuotient(n as real);
  }

  lemma QuotientOrder(a: real, b: real, c: real)
    requires a <= b && c > 0.0
    ensures a / c <= b / c
    ensures a < b ==> a / c < b / c
  {
    assert (a / c) * c == a && (b / c) * c == b;
  }

  lemma ZeroQuotient(c: real)
    requires c > 0.0
    ensures 0.0 / c == 0.0
  {
  }

  predicate Strict(xs: seq<real>) {
    forall i, j :: 0 <= i < j < |xs| ==> xs[i] < xs[j]
  }

  predicate Proper(xs: seq<real>, n: nat) {
    |xs| == n && Strict(xs) && forall i :: 0 <= i < |xs| ==> xs[i] > 0.0
  }

  lemma LerpOrder(lo: real, hi: real, i: nat, j: nat, n: nat)
    requires lo < hi && i <= j < n
    ensures lo <= Lerp(lo, hi, i, n)
    ensures i < j ==> Lerp(lo, hi, i, n) < Lerp(lo, hi, j, n)
  {
    if n > 1 {
      FractionsGrow(i, j, n - 1);
      var w, f, g := hi - lo, i as real / (n - 1) as real, j as real / (n - 1) as real;
      LerpBetween(w, 0.0, f, 1.0);
      if i < j {
        LerpStrict(w, f, g);
      }
    }
  }

  lemma LinspaceAscends(lo: real, hi: real, n: nat)
    requires 0.0 < lo < hi
    ensures Proper(Linspace(lo, hi, n), n)
  {
    forall i, j | 0 <= i <= j < n
      ensures lo <= Lerp(lo, hi, i, n) && (i < j ==> Lerp(lo, hi, i, n) < Lerp(lo, hi, j, n))
    {
      LerpOrder(lo, hi, i, j, n);
    }
  }

  lemma EndsOf(lib: Library, mid: real, span: real)
    requires Plausible(lib) && mid > 0.0 && span > 0.0
    ensures 0.0 < End(lib, mid, -span) < End(lib, mid, span)
  {
    EndsApart(mid, lib.exp(-span), lib.exp(span));
  }

  lemma GridAscends(lib: Library, latestMid: real, sigmas: seq<real>, nGrid: nat, spanSigmas: real)
    requires Plausible(lib) && latestMid > 0.0 && sigmas != []
    ensures Proper(Grid(lib, latestMid, sigmas, nGrid, spanSigmas), nGrid)
  {
    GridOverAscends(lib, latestMid, nGrid, Span(sigmas, spanSigmas));
  }

  lemma GridOverAscends(lib: Library, mid: real, n: nat, span: real)
    requires Plausible(lib) && mid > 0.0 && span > 0.0
    ensures Proper(GridOver(lib, mid, n, span), n)
  {
    EndsOf(lib, mid, span);
    LinspaceAscends(End(lib, mid, -span), End(lib, mid, span), n);
  }

  lemma EndsApart(mid: real, low: real, high: real)
    requires mid > 0.0 && 0.0 < low < high
    ensures 0.0 < mid * low < mid * high
  {
    LerpStrict(mid, low, high);
  }

  lemma LerpBetween(w: real, a: real, f: real, b: real)
    requires w > 0.0 && a <= f <= b
    ensures w * a <= w * f <= w * b
  {
    assert w * (f - a) >= 0.0 && w * (b - f) >= 0.0;
  }

  lemma LerpStrict(w: real, f: real, g: real)
    requires w > 0.0 && f < g
    ensures w * f < w * g
  {
    assert w * (g - f) > 0.0;
  }

  lemma {:induction false} SumPositive(xs: seq<real>)
    requires xs != [] && forall i :: 0 <= i < |xs| ==> xs[i] > 0.0
    ensures Sum(xs) > 0.0
  {
    if |xs| > 1 {
      SumPositive(xs[1..]);
    } else {
      assert Sum(xs[1..]) == 0.0;
    }
  }

  lemma {:induction false} TotalPositive(cells: seq<real>)
    requires cells != [] && forall i :: 0 <= i < |cells| ==> cells[i] > 0.0
    ensures Total(cells) > 0.0
  {
    var n := |cells| - 1;
    if n > 0 {
      TotalPositive(cells[..n]);
    } else {
      assert cells[..n] == [];
    }
  }

  lemma CellPositive(d: real, y: real)
    requires d > 0.0 && y > 0.0
    ensures d * y / 2.0 > 0.0
  {
  }

  lemma QuotientPositive(a: real, b: real)
    requires a > 0.0 && b > 0.0
    ensures a / b > 0.0
  {
  }

  lemma DensityPositive(lib: Library, mid: real, x: real, sigmas: seq<real>)
    requires Plausible(lib) && x > 0.0 && sigmas != [] && forall i :: 0 <= i < |sigmas| ==> sigmas[i] > 0.0
    ensures Mean(Kernels(lib, mid, x, sigmas)) > 0.0
  {
    var ks := Kernels(lib, mid, x, sigmas);
    forall i | 0 <= i < |ks| ensures ks[i] > 0.0 {
      KernelPositive(lib, mid, x, sigmas[i]);
    }
    SumPositive(ks);
    QuotientPositive(Sum(ks), |ks| as real);
  }

  lemma KernelPositive(lib: Library, mid: real, x: real, sigma: real)
    requires Plausible(lib) && x > 0.0 && sigma > 0.0
    ensures Kernel(lib, mid, x, sigma) > 0.0
  {
    ScalesPositive(x, sigma, lib.rootTwoPi);
    var z := (lib.ln(x) - lib.ln(mid)) / sigma;
    QuotientPositive(lib.exp(-0.5 * z * z), x * sigma * lib.rootTwoPi);
  }

  /**
   From valid inputs and a grid of at least two points, what is published is a density: an ascending grid,
   positive values, trapezoid mass exactly one. So the page recomputes mass 1, and the mean it shows lies on the grid.
   */
  lemma PublishedDensityIsProper(lib: Library, latestMid: real, sigmas: seq<real>, nGrid: nat, spanSigmas: real)
    requires Plausible(lib) && forall i :: 0 <= i < |sigmas| ==> sigmas[i] > 0.0
    requires latestMid > 0.0 && sigmas != [] && nGrid >= 2
    ensures var d := PredictiveDensity(lib, latestMid, sigmas, nGrid, spanSigmas);
      && d.Density? && |d.xs| == |d.ys| == nGrid
      && Ascending(d.xs) && NonNegative(d.ys) && TotalMass(d.xs, d.ys) == 1.0
      && d.xs[0] <= Moment(d.xs, d.ys) <= d.xs[nGrid - 1]
  {
    var xs := Grid(lib, latestMid, sigmas, nGrid, spanSigmas);
    GridAscends(lib, latestMid, sigmas, nGrid, spanSigmas);
    var ys := RawDensity(lib, latestMid, xs, sigmas);
    forall i | 0 <= i < nGrid ensures ys[i] > 0.0 {
      DensityPositive(lib, latestMid, xs[i], sigmas);
    }
    NormalizedIsProper(xs, ys);
  }

  lemma NormalizedIsProper(xs: seq<real>, ys: seq<real>)
    requires |xs| == |ys| >= 2
    requires Strict(xs) && forall i :: 0 <= i < |ys| ==> ys[i] > 0.0
    ensures var zs := Normalized(xs, ys);
      && |zs| == |xs| && Ascending(xs) && NonNegative(zs) && TotalMass(xs, zs) == 1.0
      && xs[0] <= Moment(xs, zs) <= xs[|xs| - 1]
  {
    MassPositive(xs, ys);
    NormalizedHasUnitMass(xs, ys);
    NormalizedNonNegative(xs, ys);
    var zs := Normalized(xs, ys);
    MomentBetween(xs, zs);
    TimesOne(xs[0]);
    TimesOne(xs[|xs| - 1]);
  }

  lemma TimesOne(a: real)
    ensures a * 1.0 == a
  {
  }

  lemma MassPositive(xs: seq<real>, ys: seq<real>)
    requires |xs| == |ys| >= 2
    requires Strict(xs) && forall i :: 0 <= i < |ys| ==> ys[i] > 0.0
    ensures TotalMass(xs, ys) > 0.0
  {
    forall i | 0 <= i < Cells(xs) ensures CellMasses(xs, ys)[i] > 0.0 {
      CellMassPositive(xs, ys, i);
    }
    TotalPositive(CellMasses(xs, ys));
  }

  lemma CellMassPositive(xs: seq<real>, ys: seq<real>, i: nat)
    requires |xs| == |ys| && i < Cells(xs)
    requires Strict(xs) && forall i :: 0 <= i < |ys| ==> ys[i] > 0.0
    ensures CellMasses(xs, ys)[i] > 0.0
  {
    CellPositive(xs[i + 1] - xs[i], ys[i] + ys[i + 1]);
  }

  lemma NormalizedNonNegative(xs: seq<real>, ys: seq<real>)
    requires |xs| == |ys| && TotalMass(xs, ys) > 0.0 && forall i :: 0 <= i < |ys| ==> ys[i] > 0.0
    ensures NonNegative(Normalized(xs, ys))
  {
    forall i | 0 <= i < |ys| ensures Normalized(xs, ys)[i] >= 0.0 {
      QuotientPositive(ys[i], TotalMass(xs, ys));
    }
  }

  // ---------------------------------------------------------------- the shape of the density

  function Abs(a: real): real {
    if a < 0.0 then -a else a
  }

  /** Distance from the latest price, in log space. */
  function LogDistance(lib: Library, mid: real, x: real): real {
    Abs(lib.ln(x) - lib.ln(mid))
  }

  lemma SquareOrder(a: real, b: real)
    ensures Abs(a) < Abs(b) ==> a * a < b * b
    ensures Abs(a) == Abs(b) ==> a * a == b * b
  {
    SquareOfAbs(a);
    SquareOfAbs(b);
    if Abs(a) < Abs(b) {
      LessSquare(Abs(a), Abs(b));
    }
  }

  lemma SquareOfAbs(a: real)
    ensures Abs(a) * Abs(a) == a * a
  {
  }

  lemma LessSquare(a: real, b: real)
    requires 0.0 <= a < b
    ensures a * a < b * b
  {
    assert a * (b - a) >= 0.0 && (b - a) * b > 0.0;
  }

  lemma AbsQuotient(a: real, b: real, c: real)
    requires c > 0.0
    ensures Abs(a) < Abs(b) ==> Abs(a / c) < Abs(b / c)
    ensures Abs(a) == Abs(b) ==> Abs(a / c) == Abs(b / c)
  {
    AbsOver(a, c);
    AbsOver(b, c);
    if Abs(a) < Abs(b) {
      QuotientOrder(Abs(a), Abs(b), c);
    }
  }

  lemma AbsOver(a: real, c: real)
    requires c > 0.0
    ensures Abs(a / c) == Abs(a) / c
  {
    if a >= 0.0 {
      QuotientOrder(0.0, a, c);
      ZeroQuotient(c);
    } else {
      QuotientOrder(a, 0.0, c);
      ZeroQuotient(c);
      NegatedQuotient(a, c);
    }
  }

  lemma NegatedQuotient(a: real, c: real)
    requires c > 0.0
    ensures (-a) / c == -(a / c)
  {
  }

  /** The exponent of the kernel: minus half the square of the distance in standard deviations. */
  function Exponent(lib: Library, mid: real, x: real, sigma: real): real
    requires sigma > 0.0
  {
    var z := (lib.ln(x) - lib.ln(mid)) / sigma;
    -0.5 * z * z
  }

  lemma ExponentOrder(lib: Library, mid: real, x: real, y: real, sigma: real)
    requires sigma > 0.0
    ensures LogDistance(lib, mid, x) < LogDistance(lib, mid, y) ==>
      Exponent(lib, mid, y, sigma) < Exponent(lib, mid, x, sigma)
    ensures LogDistance(lib, mid, x) == LogDistance(lib, mid, y) ==>
      Exponent(lib, mid, y, sigma) == Exponent(lib, mid, x, sigma)
  {
    var dx, dy := lib.ln(x) - lib.ln(mid), lib.ln(y) - lib.ln(mid);
    AbsQuotient(dx, dy, sigma);
    SquareOrder(dx / sigma, dy / sigma);
    HalfSquare(dx / sigma);
    HalfSquare(dy / sigma);
  }

  lemma HalfSquare(z: real)
    ensures -0.5 * z * z == -(z * z) / 2.0
  {
  }

  lemma CancelFactor(x: real, e: real, rest: real)
    requires x > 0.0 && rest > 0.0
    ensures x * rest > 0.0 && x * (e / (x * rest)) == e / rest
  {
    var q := e / (x * rest);
    assert x * rest > 0.0;
    assert q * (x * rest) == e;
    assert (x * q) * rest == e;
    QuotientOf(x * q, rest, e);
  }

  lemma QuotientOf(a: real, c: real, e: real)
    requires c > 0.0 && a * c == e
    ensures a == e / c
  {
  }

  /** Times its price, the kernel is the exponential alone over the scale. */
  lemma KernelTimesPrice(lib: Library, mid: real, x: real, sigma: real)
    requires Plausible(lib) && x > 0.0 && sigma > 0.0
    ensures sigma * lib.rootTwoPi > 0.0
    ensures x * Kernel(lib, mid, x, sigma) == lib.exp(Exponent(lib, mid, x, sigma)) / (sigma * lib.rootTwoPi)
  {
    ScalesPositive(sigma, lib.rootTwoPi, 1.0);
    ScalesPositive(x, sigma, lib.rootTwoPi);
    Associates(x, sigma, lib.rootTwoPi);
    CancelFactor(x, lib.exp(Exponent(lib, mid, x, sigma)), sigma * lib.rootTwoPi);
  }

  /** The nearer the latest price in log space, the more density per log price; at equal distance, the same. */
  lemma KernelOrder(lib: Library, mid: real, x: real, y: real, sigma: real)
    requires Plausible(lib) && x > 0.0 && y > 0.0 && sigma > 0.0
    ensures LogDistance(lib, mid, x) < LogDistance(lib, mid, y) ==>
      x * Kernel(lib, mid, x, sigma) > y * Kernel(lib, mid, y, sigma)
    ensures LogDistance(lib, mid, x) == LogDistance(lib, mid, y) ==>
      x * Kernel(lib, mid, x, sigma) == y * Kernel(lib, mid, y, sigma)
  {
    KernelTimesPrice(lib, mid, x, sigma);
    KernelTimesPrice(lib, mid, y, sigma);
    ExponentOrder(lib, mid, x, y, sigma);
    if LogDistance(lib, mid, x) < LogDistance(lib, mid, y) {
      QuotientOrder(lib.exp(Exponent(lib, mid, y, sigma)), lib.exp(Exponent(lib, mid, x, sigma)),
        sigma * lib.rootTwoPi);
    }
  }

  /** Its height at the latest price, and one standard deviation away: the normal law's exp(0) and exp(-1/2). */
  lemma KernelHeights(lib: Library, mid: real, x: real, sigma: real)
    requires Plausible(lib) && x > 0.0 && sigma > 0.0
    ensures sigma * lib.rootTwoPi > 0.0
    ensures LogDistance(lib, mid, x) == 0.0 ==> x * Kernel(lib, mid, x, sigma) == lib.exp(0.0) / (sigma * lib.rootTwoPi)
    ensures LogDistance(lib, mid, x) == sigma ==>
      x * Kernel(lib, mid, x, sigma) == lib.exp(-0.5) / (sigma * lib.rootTwoPi)
  {
    KernelTimesPrice(lib, mid, x, sigma);
    var d := lib.ln(x) - lib.ln(mid);
    HalfSquare(d / sigma);
    if LogDistance(lib, mid, x) == 0.0 {
      ZeroQuotient(sigma);
    }
    if LogDistance(lib, mid, x) == sigma {
      AbsOver(d, sigma);
      SelfQuotient(sigma);
      SquareOfAbs(d / sigma);
    }
  }

  /** Widening the spread and the distance alike changes the height only by the scale. */
  lemma KernelScales(lib: Library, mid: real, x: real, y: real, sigma: real, tau: real)
    requires Plausible(lib) && x > 0.0 && y > 0.0 && sigma > 0.0 && tau > 0.0
    requires (lib.ln(x) - lib.ln(mid)) / sigma == (lib.ln(y) - lib.ln(mid)) / tau
    ensures x * Kernel(lib, mid, x, sigma) * (sigma * lib.rootTwoPi) ==
      y * Kernel(lib, mid, y, tau) * (tau * lib.rootTwoPi)
  {
    KernelTimesPrice(lib, mid, x, sigma);
    KernelTimesPrice(lib, mid, y, tau);
    QuotientBack(lib.exp(Exponent(lib, mid, x, sigma)), sigma * lib.rootTwoPi);
    QuotientBack(lib.exp(Exponent(lib, mid, y, tau)), tau * lib.rootTwoPi);
  }

  lemma QuotientBack(e: real, c: real)
    requires c > 0.0
    ensures (e / c) * c == e
  {
  }

  lemma {:induction false} SumTimes(c: real, xs: seq<real>)
    ensures Sum(Times(c, xs)) == c * Sum(xs)
  {
    if xs == [] {
    } else {
      SumTimes(c, xs[1..]);
      forall i | 0 <= i < |xs| - 1 ensures Times(c, xs)[1..][i] == Times(c, xs[1..])[i] {
        assert xs[1..][i] == xs[i + 1];
      }
      assert Times(c, xs)[1..] == Times(c, xs[1..]);
      Distributes(c, xs[0], Sum(xs[1..]));
    }
  }

  lemma {:induction false} SumsOrdered(a: seq<real>, b: seq<real>)
    requires |a| == |b| > 0 && forall i :: 0 <= i < |a| ==> a[i] < b[i]
    ensures Sum(a) < Sum(b)
  {
    if |a| == 1 {
      assert Sum(a[1..]) == 0.0 && Sum(b[1..]) == 0.0;
    } else {
      SumsOrdered(a[1..], b[1..]);
    }
  }

  lemma TimesMean(c: real, xs: seq<real>)
    requires xs != []
    ensures c * Mean(xs) == Sum(Times(c, xs)) / |xs| as real
  {
    SumTimes(c, xs);
    TimesQuotient(c, Sum(xs), |xs| as real);
  }

  lemma TimesQuotient(c: real, a: real, n: real)
    requires n > 0.0
    ensures c * (a / n) == (c * a) / n
  {
  }

  /** Entry by entry smaller. */
  predicate Below(b: seq<real>, a: seq<real>) {
    |b| == |a| && forall i :: 0 <= i < |a| ==> b[i] < a[i]
  }

  lemma MeansOrdered(x: real, ks: seq<real>, y: real, ls: seq<real>)
    requires |ks| == |ls| > 0
    ensures Below(Times(y, ls), Times(x, ks)) ==> y * Mean(ls) < x * Mean(ks)
    ensures Times(y, ls) == Times(x, ks) ==> y * Mean(ls) == x * Mean(ks)
  {
    TimesMean(x, ks);
    TimesMean(y, ls);
    if Below(Times(y, ls), Times(x, ks)) {
      SumsOrdered(Times(y, ls), Times(x, ks));
      QuotientOrder(Sum(Times(y, ls)), Sum(Times(x, ks)), |ks| as real);
    }
  }

  /** So it is with the average over the samples. */
  lemma DensityOrder(lib: Library, mid: real, x: real, y: real, sigmas: seq<real>)
    requires Plausible(lib) && x > 0.0 && y > 0.0 && sigmas != [] && forall i :: 0 <= i < |sigmas| ==> sigmas[i] > 0.0
    ensures LogDistance(lib, mid, x) < LogDistance(lib, mid, y) ==>
      y * Mean(Kernels(lib, mid, y, sigmas)) < x * Mean(Kernels(lib, mid, x, sigmas))
    ensures LogDistance(lib, mid, x) == LogDistance(lib, mid, y) ==>
      y * Mean(Kernels(lib, mid, y, sigmas)) == x * Mean(Kernels(lib, mid, x, sigmas))
  {
    KernelsOrder(lib, mid, x, y, sigmas);
    MeansOrdered(x, Kernels(lib, mid, x, sigmas), y, Kernels(lib, mid, y, sigmas));
  }

  lemma KernelsOrder(lib: Library, mid: real, x: real, y: real, sigmas: seq<real>)
    requires Plausible(lib) && x > 0.0 && y > 0.0 && forall i :: 0 <= i < |sigmas| ==> sigmas[i] > 0.0
    ensures var a, b := Times(x, Kernels(lib, mid, x, sigmas)), Times(y, Kernels(lib, mid, y, sigmas));
      && (LogDistance(lib, mid, x) < LogDistance(lib, mid, y) ==> Below(b, a))
      && (LogDistance(lib, mid, x) == LogDistance(lib, mid, y) ==> a == b)
  {
    var a, b := Times(x, Kernels(lib, mid, x, sigmas)), Times(y, Kernels(lib, mid, y, sigmas));
    forall i | 0 <= i < |sigmas|
      ensures LogDistance(lib, mid, x) < LogDistance(lib, mid, y) ==> b[i] < a[i]
      ensures LogDistance(lib, mid, x) == LogDistance(lib, mid, y) ==> a[i] == b[i]
    {
      KernelOrder(lib, mid, x, y, sigmas[i]);
    }
  }

  /** Normalising keeps the shape: every value is divided by the one mass. */
  lemma NormalizedKeepsOrder(xs: seq<real>, ys: seq<real>, i: nat, j: nat)
    requires |xs| == |ys| && TotalMass(xs, ys) > 0.0 && i < |xs| && j < |xs|
    ensures var zs := Normalized(xs, ys);
      && |zs| == |ys|
      && (xs[i] * ys[i] > xs[j] * ys[j] ==> xs[i] * zs[i] > xs[j] * zs[j])
      && (xs[i] * ys[i] == xs[j] * ys[j] ==> xs[i] * zs[i] == xs[j] * zs[j])
  {
    var m := TotalMass(xs, ys);
    TimesQuotient(xs[i], ys[i], m);
    TimesQuotient(xs[j], ys[j], m);
    if xs[i] * ys[i] > xs[j] * ys[j] {
      QuotientOrder(xs[j] * ys[j], xs[i] * ys[i], m);
    }
  }

  /** Published prices are weighed by their own density: x times y at grid point k. */
  function Weighed(d: Density, k: nat): real
    requires d.Density? && k < |d.xs| && k < |d.ys|
  {
    d.xs[k] * d.ys[k]
  }

  lemma FallsOff(lib: Library, mid: real, xs: seq<real>, sigmas: seq<real>, i: nat, j: nat)
    requires Plausible(lib) && sigmas != [] && forall k :: 0 <= k < |sigmas| ==> sigmas[k] > 0.0
    requires Proper(xs, |xs|) && |xs| >= 2 && i < |xs| && j < |xs|
    ensures var d := Density(xs, Normalized(xs, RawDensity(lib, mid, xs, sigmas)));
      && |d.ys| == |xs|
      && (LogDistance(lib, mid, xs[i]) < LogDistance(lib, mid, xs[j]) ==> Weighed(d, j) < Weighed(d, i))
      && (LogDistance(lib, mid, xs[i]) == LogDistance(lib, mid, xs[j]) ==> Weighed(d, j) == Weighed(d, i))
  {
    RawMassPositive(lib, mid, xs, sigmas);
    RawOrder(lib, mid, xs, sigmas, i, j);
    NormalizedFallsOff(xs, RawDensity(lib, mid, xs, sigmas), i, j);
  }

  lemma RawOrder(lib: Library, mid: real, xs: seq<real>, sigmas: seq<real>, i: nat, j: nat)
    requires Plausible(lib) && sigmas != [] && forall k :: 0 <= k < |sigmas| ==> sigmas[k] > 0.0
    requires Proper(xs, |xs|) && i < |xs| && j < |xs|
    ensures var d := Density(xs, RawDensity(lib, mid, xs, sigmas));
      && |d.ys| == |xs|
      && (LogDistance(lib, mid, xs[i]) < LogDistance(lib, mid, xs[j]) ==> Weighed(d, j) < Weighed(d, i))
      && (LogDistance(lib, mid, xs[i]) == LogDistance(lib, mid, xs[j]) ==> Weighed(d, j) == Weighed(d, i))
  {
    DensityOrder(lib, mid, xs[i], xs[j], sigmas);
    WeighedOrder(xs, RawDensity(lib, mid, xs, sigmas), i, j,
                 Mean(Kernels(lib, mid, xs[i], sigmas)), Mean(Kernels(lib, mid, xs[j], sigmas)));
  }

  lemma WeighedOrder(xs: seq<real>, ys: seq<real>, i: nat, j: nat, a: real, b: real)
    requires |xs| == |ys| && i < |xs| && j < |xs| && ys[i] == a && ys[j] == b
    ensures var d := Density(xs, ys);
      && (xs[j] * b < xs[i] * a ==> Weighed(d, j) < Weighed(d, i))
      && (xs[j] * b == xs[i] * a ==> Weighed(d, j) == Weighed(d, i))
  {
  }

  lemma NormalizedFallsOff(xs: seq<real>, ys: seq<real>, i: nat, j: nat)
    requires |xs| == |ys| && TotalMass(xs, ys) > 0.0 && i < |xs| && j < |xs|
    ensures var d, e := Density(xs, ys), Density(xs, Normalized(xs, ys));
      && |e.ys| == |xs|
      && (Weighed(d, j) < Weighed(d, i) ==> Weighed(e, j) < Weighed(e, i))
      && (Weighed(d, j) == Weighed(d, i) ==> Weighed(e, j) == Weighed(e, i))
  {
    NormalizedKeepsOrder(xs, ys, i, j);
  }

  lemma RawMassPositive(lib: Library, mid: real, xs: seq<real>, sigmas: seq<real>)
    requires Plausible(lib) && sigmas != [] && forall k :: 0 <= k < |sigmas| ==> sigmas[k] > 0.0
    requires Proper(xs, |xs|) && |xs| >= 2
    ensures TotalMass(xs, RawDensity(lib, mid, xs, sigmas)) > 0.0
  {
    var ys := RawDensity(lib, mid, xs, sigmas);
    forall k | 0 <= k < |xs| ensures ys[k] > 0.0 {
      DensityPositive(lib, mid, xs[k], sigmas);
    }
    MassPositive(xs, ys);
  }

  /** What is published falls off on either side of the latest price, per log price, and evenly. */
  lemma PublishedDensityFallsOff(lib: Library, latestMid: real, sigmas: seq<real>, nGrid: nat, spanSigmas: real,
                                 i: nat, j: nat)
    requires Plausible(lib) && forall k :: 0 <= k < |sigmas| ==> sigmas[k] > 0.0
    requires latestMid > 0.0 && sigmas != [] && nGrid >= 2 && i < nGrid && j < nGrid
    ensures var d := PredictiveDensity(lib, latestMid, sigmas, nGrid, spanSigmas);
      && d.Density? && |d.xs| == |d.ys| == nGrid
      && (LogDistance(lib, latestMid, d.xs[i]) < LogDistance(lib, latestMid, d.xs[j]) ==> Weighed(d, j) < Weighed(d, i))
      && (LogDistance(lib, latestMid, d.xs[i]) == LogDistance(lib, latestMid, d.xs[j]) ==>
        Weighed(d, j) == Weighed(d, i))
  {
    GridAscends(lib, latestMid, sigmas, nGrid, spanSigmas);
    FallsOff(lib, latestMid, Grid(lib, latestMid, sigmas, nGrid, spanSigmas), sigmas, i, j);
  }

  // ---------------------------------------------------------------- the grid and the rule, against the exact values

  /** The grid runs in even steps from span below the latest price to span above, in log space. */
  lemma GridRuns(lib: Library, latestMid: real, sigmas: seq<real>, nGrid: nat, spanSigmas: real, i: nat)
    requires sigmas != [] && nGrid >= 2 && i < nGrid - 1
    ensures var xs, span := Grid(lib, latestMid, sigmas, nGrid, spanSigmas), Span(sigmas, spanSigmas);
      && |xs| == nGrid
      && xs[0] == latestMid * lib.exp(-span) && xs[nGrid - 1] == latestMid * lib.exp(span)
      && (xs[i + 1] - xs[i]) * (nGrid - 1) as real == xs[nGrid - 1] - xs[0]
  {
    var span := Span(sigmas, spanSigmas);
    LerpEnds(End(lib, latestMid, -span), End(lib, latestMid, span), nGrid);
    LerpSteps(End(lib, latestMid, -span), End(lib, latestMid, span), i, nGrid);
  }

  lemma LerpEnds(lo: real, hi: real, n: nat)
    requires n >= 2
    ensures Lerp(lo, hi, 0, n) == lo && Lerp(lo, hi, n - 1, n) == hi
  {
    ZeroQuotient((n - 1) as real);
    SelfQuotient((n - 1) as real);
    NoWidth(hi - lo);
    TimesOne(hi - lo);
  }

  lemma NoWidth(w: real)
    ensures w * 0.0 == 0.0
  {
  }

  lemma LerpSteps(lo: real, hi: real, i: nat, n: nat)
    requires n >= 2 && i < n - 1
    ensures (Lerp(lo, hi, i + 1, n) - Lerp(lo, hi, i, n)) * (n - 1) as real == hi - lo
  {
    var k := (n - 1) as real;
    var f, g := i as real / k, (i + 1) as real / k;
    assert f * k == i as real && g * k == (i + 1) as real;
    StepTimes(hi - lo, f, g, k);
  }

  lemma StepTimes(w: real, f: real, g: real, k: real)
    requires g * k == f * k + 1.0
    ensures (w * g - w * f) * k == w
  {
    assert (w * g - w * f) * k == w * (g * k - f * k);
  }

  /** The spread is the given number of mean standard deviations, but never less than a millionth. */
  lemma SpanMeans(sigmas: seq<real>, spanSigmas: real)
    requires sigmas != []
    ensures var span, wide := Span(sigmas, spanSigmas), spanSigmas * Mean(sigmas);
      span >= wide && span >= 0.000001 && (span == wide || span == 0.000001)
  {
  }

  function Line(a: real, b: real, x: real): real {
    a * x + b
  }

  function AreaUnderLine(a: real, b: real, x: real): real {
    a * x * x / 2.0 + b * x
  }

  lemma CellUnderLine(a: real, b: real, x: real, x': real)
    ensures (x' - x) * (Line(a, b, x) + Line(a, b, x')) / 2.0 == AreaUnderLine(a, b, x') - AreaUnderLine(a, b, x)
  {
  }

  /** Cells that are differences of one quantity at their two ends add up to its difference over the whole range. */
  lemma {:induction false} Telescopes(cells: seq<real>, at: seq<real>)
    requires |at| == |cells| + 1 && forall i :: 0 <= i < |cells| ==> cells[i] == at[i + 1] - at[i]
    ensures Total(cells) == at[|cells|] - at[0]
  {
    if cells == [] {
    } else {
      Telescopes(cells[..|cells| - 1], at[..|cells|]);
    }
  }

  lemma CellOfLine(xs: seq<real>, ys: seq<real>, a: real, b: real, i: nat)
    requires |xs| == |ys| && i < Cells(xs) && ys[i] == Line(a, b, xs[i]) && ys[i + 1] == Line(a, b, xs[i + 1])
    ensures CellMasses(xs, ys)[i] == AreaUnderLine(a, b, xs[i + 1]) - AreaUnderLine(a, b, xs[i])
  {
    CellUnderLine(a, b, xs[i], xs[i + 1]);
  }

  function AreasUnderLine(a: real, b: real, xs: seq<real>): seq<real> {
    seq(|xs|, i requires 0 <= i < |xs| => AreaUnderLine(a, b, xs[i]))
  }

  /** The trapezoid rule is exact on straight lines, whatever the grid. */
  lemma MassOfLine(xs: seq<real>, ys: seq<real>, a: real, b: real)
    requires |xs| == |ys| > 0 && forall i :: 0 <= i < |xs| ==> ys[i] == Line(a, b, xs[i])
    ensures TotalMass(xs, ys) == AreaUnderLine(a, b, xs[|xs| - 1]) - AreaUnderLine(a, b, xs[0])
  {
    forall i | 0 <= i < Cells(xs)
      ensures CellMasses(xs, ys)[i] == AreasUnderLine(a, b, xs)[i + 1] - AreasUnderLine(a, b, xs)[i]
    {
      CellOfLine(xs, ys, a, b, i);
    }
    Telescopes(CellMasses(xs, ys), AreasUnderLine(a, b, xs));
  }

  function MomentUpTo(c: real, x: real): real {
    c * x * x / 2.0
  }

  function MomentsUpTo(c: real, xs: seq<real>): seq<real> {
    seq(|xs|, i requires 0 <= i < |xs| => MomentUpTo(c, xs[i]))
  }

  lemma CellMoment(c: real, x: real, x': real)
    ensures ((x + x') / 2.0) * ((x' - x) * (c + c) / 2.0) == MomentUpTo(c, x') - MomentUpTo(c, x)
  {
  }

  lemma MomentOfCell(xs: seq<real>, ys: seq<real>, c: real, i: nat)
    requires |xs| == |ys| && i < Cells(xs) && ys[i] == ys[i + 1] == c
    ensures Products(Midpoints(xs), CellMasses(xs, ys))[i] == MomentUpTo(c, xs[i + 1]) - MomentUpTo(c, xs[i])
  {
    CellMoment(c, xs[i], xs[i + 1]);
  }

  /** The moment is exact on constants: a flat density balances at the middle of its range. */
  lemma MomentOfConstant(xs: seq<real>, ys: seq<real>, c: real)
    requires |xs| == |ys| > 0 && forall i :: 0 <= i < |xs| ==> ys[i] == c
    ensures Moment(xs, ys) == MomentUpTo(c, xs[|xs| - 1]) - MomentUpTo(c, xs[0])
  {
    forall i | 0 <= i < Cells(xs)
      ensures Products(Midpoints(xs), CellMasses(xs, ys))[i] == MomentsUpTo(c, xs)[i + 1] - MomentsUpTo(c, xs)[i]
    {
      MomentOfCell(xs, ys, c, i);
    }
    Telescopes(Products(Midpoints(xs), CellMasses(xs, ys)), MomentsUpTo(c, xs));
  }

  /** Which inputs are refused. */
  lemma RefusedInputs(lib: Library, latestMid: real, sigmas: seq<real>, nGrid: nat, spanSigmas: real)
    requires Plausible(lib) && forall i :: 0 <= i < |sigmas| ==> sigmas[i] > 0.0
    ensures PredictiveDensity(lib, latestMid, sigmas, nGrid, spanSigmas).Invalid? <==> latestMid <= 0.0 || |sigmas| == 0
  {
  }

  /** A mean lies between the extremes; of equal values it is that value. */
  lemma {:induction false} SumBetween(xs: seq<real>, lo: real, hi: real)
    requires AllBetween(lo, xs, hi)
    ensures lo * |xs| as real <= Sum(xs) <= hi * |xs| as real
  {
    if xs == [] {
      NoWidth(lo);
      NoWidth(hi);
    } else {
      SumBetween(xs[1..], lo, hi);
      OneMoreTimes(lo, |xs| - 1);
      OneMoreTimes(hi, |xs| - 1);
    }
  }

  lemma OneMoreTimes(a: real, n: nat)
    ensures a * (n + 1) as real == a * n as real + a
  {
  }

  lemma MeanIsCentral(xs: seq<real>, lo: real, hi: real)
    requires xs != [] && AllBetween(lo, xs, hi)
    ensures lo <= Mean(xs) <= hi
  {
    SumBetween(xs, lo, hi);
    DivideBetween(lo, hi, Sum(xs), |xs| as real);
  }
}
