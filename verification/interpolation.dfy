/** What `compute_interpolator` decides before it hands over to the spline library: the parsed
    spline degrees, the smoothing factor, and the sample axes and values the spline is built on.
    The spline itself is a record of those arguments; evaluating it is a function the caller
    supplies. */
module Interpolation {
  import opened Wrappers
  import Geometry

  /** The `degree` keyword: absent, an iterable of numbers, or a single number. */
  datatype DegreeArg = Absent | DegreeItems(items: seq<real>) | Number(value: real)

  /** The interpolator keyword arguments the model stores: `degree` and `s`. */
  datatype InterpolatorArgs = InterpolatorArgs(degree: DegreeArg, smoothing: Option<real>)

  /** The degree used when none is given. */
  const DefaultDegree: int := 3

  /** Python's `int()` of a float: truncation toward zero. */
  function Trunc(x: real): (k: int)
    ensures x >= 0.0 ==> k as real <= x < k as real + 1.0
    ensures x < 0.0 ==> k as real - 1.0 < x <= k as real
  {
    if x >= 0.0 then x.Floor else -((-x).Floor)
  }

  /** The degree parsing of `compute_interpolator`: `(degx, degy)` from a two-element iterable,
      the same truncated number on both axes otherwise, `(3, 3)` when absent. An iterable of any
      other length cannot be passed to `int()` (a `TypeError`); a negative result is a
      `ValueError`. */
  function ParseDegree(arg: DegreeArg): (r: Result<(int, int), Error>)
    ensures r.Success? ==> r.value.0 >= 0 && r.value.1 >= 0
    ensures arg.Absent? ==> r == Success((DefaultDegree, DefaultDegree))
    ensures arg.DegreeItems? && |arg.items| == 2 ==>
      r == if Trunc(arg.items[0]) < 0 || Trunc(arg.items[1]) < 0 then Failure(NegativeDegree)
           else Success((Trunc(arg.items[0]), Trunc(arg.items[1])))
    ensures arg.DegreeItems? && |arg.items| != 2 ==> r == Failure(DegreeNotNumber)
  {
    match arg
    case Absent => Success((DefaultDegree, DefaultDegree))
    case DegreeItems(ds) =>
      if |ds| != 2 then Failure(DegreeNotNumber)
      else
        var degx, degy := Trunc(ds[0]), Trunc(ds[1]);
        if degx < 0 || degy < 0 then Failure(NegativeDegree) else Success((degx, degy))
    case Number(d) =>
      var deg := Trunc(d);
      if deg < 0 then Failure(NegativeDegree) else Success((deg, deg))
  }

  /** A single number means the same degree on both axes. */
  lemma NumberIsPair(d: real)
    ensures ParseDegree(Number(d)) == ParseDegree(DegreeItems([d, d]))
  {
  }

  /** A single number is accepted exactly when it is above -1, since `int()` takes any value in
      `(-1, 0)` to 0; it then gives the same degree on both axes. */
  lemma NumberDegreeAccepted(d: real)
    ensures ParseDegree(Number(d)).Success? <==> d > -1.0
    ensures ParseDegree(Number(d)).Success? ==> ParseDegree(Number(d)).value.0 == ParseDegree(Number(d)).value.1
  {
    if d > -1.0 {
      assert Trunc(d) >= 0;
    } else {
      assert Trunc(d) < 0;
    }
  }

  /** Whole non-negative degrees are taken as given, on each axis separately. */
  lemma WholeDegreesKept(kx: nat, ky: nat)
    ensures ParseDegree(DegreeItems([kx as real, ky as real])) == Success((kx, ky))
  {
    assert Trunc(kx as real) == kx;
    assert Trunc(ky as real) == ky;
  }

  /** The sample coordinates of the default model, `np.arange(n)`: the pixel indices. */
  function IndexAxis(n: nat): (xs: seq<real>)
    ensures |xs| == n
    ensures forall i :: 0 <= i < n ==> xs[i] == i as real
  {
    seq(n, i requires 0 <= i < n => i as real)
  }

  /** The sample coordinates of `EPSFModel`, `np.arange(n) / o`: the undersampled pixel grid. */
  function UndersampledAxis(n: nat, o: int): (xs: seq<real>)
    requires o > 0
    ensures |xs| == n
    ensures forall i :: 0 <= i < n ==> xs[i] * o as real == i as real
  {
    seq(n, i requires 0 <= i < n => i as real / o as real)
  }

  /** At unit oversampling the two axes coincide. */
  lemma UnitOversamplingAxes(n: nat)
    ensures UndersampledAxis(n, 1) == IndexAxis(n)
  {
    forall i | 0 <= i < n ensures UndersampledAxis(n, 1)[i] == IndexAxis(n)[i] {
      assert UndersampledAxis(n, 1)[i] * 1.0 == i as real;
    }
  }

  /** `data.T`: the grid with its axes swapped, so that the first index runs along `x`. */
  function Transposed(g: seq<seq<real>>, nx: nat): (t: seq<seq<real>>)
    requires forall i :: 0 <= i < |g| ==> |g[i]| == nx
    ensures |t| == nx
    ensures forall j :: 0 <= j < nx ==> |t[j]| == |g|
    ensures forall i, j :: 0 <= i < |g| && 0 <= j < nx ==> t[j][i] == g[i][j]
  {
    seq(nx, j requires 0 <= j < nx => seq(|g|, i requires 0 <= i < |g| => g[i][j]))
  }

  /** A bivariate spline as the arguments it was built from: sample coordinates along `x` and
      `y`, values indexed `[x][y]`, the degrees `kx`, `ky` and the smoothing factor. */
  datatype Spline = Spline(xs: seq<real>, ys: seq<real>, z: seq<seq<real>>, kx: int, ky: int, s: real)

  /** The spline's value at grid coordinates `(xi, yi)`. */
  type Surface = (Spline, real, real) -> real

  /** The body of `compute_interpolator` once the sample axes are chosen: parse the degree, take
      `s` (default 0), and build on the transposed grid. */
  function BuildSpline(xs: seq<real>, ys: seq<real>, g: seq<seq<real>>, args: InterpolatorArgs): (r: Result<Spline, Error>)
    requires |g| == |ys| && forall i :: 0 <= i < |g| ==> |g[i]| == |xs|
    ensures r.Success? <==> ParseDegree(args.degree).Success?
    ensures r.Failure? ==> r.error == ParseDegree(args.degree).error
    ensures r.Success? ==>
      && r.value.xs == xs && r.value.ys == ys
      && r.value.kx >= 0 && r.value.ky >= 0
      && (r.value.kx, r.value.ky) == ParseDegree(args.degree).value
      && r.value.s == args.smoothing.GetOr(0.0)
      && |r.value.z| == |xs| && (forall j :: 0 <= j < |xs| ==> |r.value.z[j]| == |ys|)
      && forall i, j :: 0 <= i < |ys| && 0 <= j < |xs| ==> r.value.z[j][i] == g[i][j]
  {
    match ParseDegree(args.degree)
    case Failure(e) => Failure(e)
    case Success(deg) => Success(Spline(xs, ys, Transposed(g, |xs|), deg.0, deg.1, args.smoothing.GetOr(0.0)))
  }

  /** The default model masks exactly the points outside the span of its sample axes. */
  lemma FittableMaskIsAxisSpan(xi: real, yi: real, nx: nat, ny: nat)
    requires nx >= 1 && ny >= 1
    ensures var xs, ys := IndexAxis(nx), IndexAxis(ny);
      !Geometry.FittableOutside(xi, yi, nx, ny) <==> xs[0] <= xi <= xs[nx - 1] && ys[0] <= yi <= ys[ny - 1]
  {
  }

  /** `EPSFModel` masks exactly the points outside the span of its undersampled axes. */
  lemma EpsfMaskIsAxisSpan(xi: real, yi: real, nx: nat, ny: nat, oversampling: (int, int))
    requires nx >= 1 && ny >= 1 && oversampling.0 > 0 && oversampling.1 > 0
    ensures var xs, ys := UndersampledAxis(nx, oversampling.1), UndersampledAxis(ny, oversampling.0);
      !Geometry.EpsfOutside(xi, yi, nx, ny, oversampling) <==> xs[0] <= xi <= xs[nx - 1] && ys[0] <= yi <= ys[ny - 1]
  {
    var xs, ys := UndersampledAxis(nx, oversampling.1), UndersampledAxis(ny, oversampling.0);
    assert xs[0] == 0.0 && ys[0] == 0.0;
    assert xs[nx - 1] == (nx - 1) as real / oversampling.1 as real;
    assert ys[ny - 1] == (ny - 1) as real / oversampling.0 as real;
  }
}
