/** The two image-based PSF models as objects: `FittableImageModel`, which keeps its grid as
    given and normalizes lazily through a constant, and its subclass `EPSFModel`, which divides its
    grid in place and evaluates on the undersampled pixel grid.

    The aperture photometry of `EPSFModel` is a function the model is built with, and the spline
    evaluation a function `evaluate` is given; both stand for library code. */
module ImageModels {
  import opened Wrappers
  import opened Grid
  import opened Normalization
  import opened Geometry
  import opened Interpolation

  /** The first error `__init__` raises, checking in its own order: the oversampling factors,
      the correction factor, finiteness of the data, its size, the origin, then the spline degree.
      No error means the model is built. */
  function ConstructionError(input: array2<Sample>, correction: real, origin: OriginArg,
                             oversampling: (int, int), degree: DegreeArg): (e: Option<Error>)
    reads input
    ensures e.None? <==>
      && oversampling.0 > 0 && oversampling.1 > 0 && correction > 0.0
      && AllFinite(Snapshot(input)) && input.Length0 >= 1 && input.Length1 >= 1
      && ResolveOrigin(origin, (0.0, 0.0)).Success? && ParseDegree(degree).Success?
    ensures e == Some(BadOversampling) <==> oversampling.0 <= 0 || oversampling.1 <= 0
    ensures e == Some(NonPositiveCorrection) <==>
      oversampling.0 > 0 && oversampling.1 > 0 && correction <= 0.0
    ensures e == Some(NonFiniteData) <==>
      oversampling.0 > 0 && oversampling.1 > 0 && correction > 0.0 && !AllFinite(Snapshot(input))
    ensures e == Some(EmptyData) <==>
      && oversampling.0 > 0 && oversampling.1 > 0 && correction > 0.0 && AllFinite(Snapshot(input))
      && (input.Length0 == 0 || input.Length1 == 0)
    ensures e == Some(BadOrigin) <==>
      && oversampling.0 > 0 && oversampling.1 > 0 && correction > 0.0 && AllFinite(Snapshot(input))
      && input.Length0 >= 1 && input.Length1 >= 1 && ResolveOrigin(origin, (0.0, 0.0)).Failure?
    ensures (e == Some(NegativeDegree) || e == Some(DegreeNotNumber)) <==>
      && oversampling.0 > 0 && oversampling.1 > 0 && correction > 0.0 && AllFinite(Snapshot(input))
      && input.Length0 >= 1 && input.Length1 >= 1 && ResolveOrigin(origin, (0.0, 0.0)).Success?
      && ParseDegree(degree).Failure?
    ensures e == Some(NegativeDegree) || e == Some(DegreeNotNumber) ==> e == Some(ParseDegree(degree).error)
  {
    if oversampling.0 <= 0 || oversampling.1 <= 0 then Some(BadOversampling)
    else if correction <= 0.0 then Some(NonPositiveCorrection)
    else if !AllFinite(Snapshot(input)) then Some(NonFiniteData)
    else if input.Length0 == 0 || input.Length1 == 0 then Some(EmptyData)
    else if ResolveOrigin(origin, (0.0, 0.0)).Failure? then Some(BadOrigin)
    else if ParseDegree(degree).Failure? then Some(ParseDegree(degree).error)
    else None
  }

  /** `np.array(data, copy=True, dtype=float)` of finite input: a new array with the same values. */
  method CopyValues(input: array2<Sample>) returns (a: array2<real>)
    requires AllFinite(Snapshot(input))
    ensures fresh(a) && a.Length0 == input.Length0 && a.Length1 == input.Length1
    ensures Snapshot(a) == Values(Snapshot(input))
  {
    ghost var g := Snapshot(input);
    a := new real[input.Length0, input.Length1];
    for i := 0 to input.Length0
      invariant forall r, k :: 0 <= r < i && 0 <= k < input.Length1 ==> input[r, k] == Finite(a[r, k])
    {
      for j := 0 to input.Length1
        invariant forall r, k :: 0 <= r < i && 0 <= k < input.Length1 ==> input[r, k] == Finite(a[r, k])
        invariant forall k :: 0 <= k < j ==> input[i, k] == Finite(a[i, k])
      {
        assert g[i][j] == input[i, j];
        a[i, j] := input[i, j].value;
      }
    }
    SameGrid(Snapshot(a), Values(g));
  }

  /** `scale * interpolator.ev(xi, yi)` at every grid point, into a new array. */
  method SplineAt(pts: seq<(real, real)>, scale: real, ev: Surface, s: Spline) returns (model: array<real>)
    ensures fresh(model) && model.Length == |pts|
    ensures forall m :: 0 <= m < |pts| ==> model[m] == scale * ev(s, pts[m].0, pts[m].1)
  {
    model := new real[|pts|];
    for k := 0 to |pts|
      invariant forall m :: 0 <= m < k ==> model[m] == scale * ev(s, pts[m].0, pts[m].1)
    {
      model[k] := scale * ev(s, pts[k].0, pts[k].1);
    }
  }

  /** The tail of both `evaluate`s: the scaled spline at every grid point, with every flagged
      point overwritten by the fill value when there is one. */
  method MaskedSpline(pts: seq<(real, real)>, scale: real, ev: Surface, s: Spline,
                      fill: Option<real>, invalid: seq<bool>) returns (r: seq<real>)
    requires |invalid| == |pts|
    ensures |r| == |pts|
    ensures forall m :: 0 <= m < |pts| ==>
      r[m] == if fill.Some? && invalid[m] then fill.value else scale * ev(s, pts[m].0, pts[m].1)
  {
    var model := SplineAt(pts, scale, ev, s);
    if fill.Some? {
      MaskInvalid(model, invalid, fill.value);
    }
    r := model[..];
  }

  /** `evaluated_model[invalid] = fill_value`: every flagged entry is overwritten, the others
      are left as they were. */
  method MaskInvalid(model: array<real>, invalid: seq<bool>, fill: real)
    requires model.Length == |invalid|
    modifies model
    ensures forall m :: 0 <= m < model.Length ==> model[m] == if invalid[m] then fill else old(model[m])
  {
    for k := 0 to model.Length
      invariant forall m :: 0 <= m < k ==> model[m] == if invalid[m] then fill else old(model[m])
      invariant forall m :: k <= m < model.Length ==> model[m] == old(model[m])
    {
      if invalid[k] {
        model[k] := fill;
      }
    }
  }

  /** Two grids of the same shape with the same elements are equal. */
  lemma SameGrid(g: seq<seq<real>>, h: seq<seq<real>>)
    requires |g| == |h|
    requires forall i :: 0 <= i < |g| ==> |g[i]| == |h[i]|
    requires forall i, j :: 0 <= i < |g| && 0 <= j < |g[i]| ==> g[i][j] == h[i][j]
    ensures g == h
  {
    forall i | 0 <= i < |g| ensures g[i] == h[i] {
      assert forall j :: 0 <= j < |g[i]| ==> g[i][j] == h[i][j];
    }
  }

  /** The default image model. Its grid is never modified after construction, so it is held as
      a value. */
  class FittableImageModel {
    const data: seq<seq<real>>         // `_data`, indexed `[y][x]`
    const nx: nat                      // `_nx`
    const ny: nat                      // `_ny`
    const oversampling: (int, int)     // `(oy, ox)`
    var fillValue: Option<real>        // `_fill_value`; `None` turns masking off
    var imgNorm: Option<real>          // `_img_norm`
    var correction: real               // `_normalization_correction`
    var constant: real                 // `_normalization_constant`
    var status: Status                 // `_normalization_status`
    var xOrigin: real                  // `_x_origin`
    var yOrigin: real                  // `_y_origin`
    var flux: real                     // parameter `flux`
    var x0: real                       // parameter `x_0`
    var y0: real                       // parameter `y_0`
    var interpolator: Spline
    var interpolatorArgs: InterpolatorArgs
    ghost var warned: bool             // a normalization warning has been issued

    /** The shape facts every method relies on. */
    ghost predicate Shaped()
      reads this`correction
    {
      && |data| == ny && (forall i :: 0 <= i < ny ==> |data[i]| == nx) && nx >= 1 && ny >= 1
      && oversampling.0 > 0 && oversampling.1 > 0 && correction != 0.0
    }

    /** The normalization state, with the grid. */
    function State(): NormState
      reads this`imgNorm, this`correction, this`constant, this`status
    {
      NormState(imgNorm, correction, constant, status, data)
    }

    /** `_compute_raw_image_norm`: `np.sum(data)`. */
    function RawImageNorm(): real
    {
      GridSum(data)
    }

    /** The raw norm of a non-negative image is non-negative, and zero, so that a requested
        normalization fails, exactly when the image is blank. */
    lemma NonNegativeRawNorm()
      requires NonNegative(data) && Shaped()
      ensures RawImageNorm() >= 0.0
      ensures RawImageNorm() == 0.0 <==> Blank(data)
      ensures imgNorm.None? ==> (FittableNormalize(State(), true, RawImageNorm()).status == Failed <==> Blank(data))
    {
      NonNegativeSum(data);
    }

    /** A constructed model: consistent normalization, a cache that can only hold the grid's own
        sum, and an interpolator built on the pixel indices from the stored arguments. */
    ghost predicate Valid()
      reads this
    {
      && Shaped()
      && FittableConsistent(State())
      && (imgNorm.Some? ==> imgNorm.value == RawImageNorm())
      && BuildSpline(IndexAxis(nx), IndexAxis(ny), data, interpolatorArgs) == Success(interpolator)
    }

    /** `__init__`, for arguments that raise nothing. */
    constructor (input: array2<Sample>, nameonly flux: Option<real> := Some(1.0), nameonly x0: real := 0.0,
                 nameonly y0: real := 0.0, nameonly normalize: bool := false,
                 nameonly normalizationCorrection: real := 1.0, nameonly origin: OriginArg := Unset,
                 nameonly oversampling: (int, int) := (1, 1), nameonly fillValue: Option<real> := Some(0.0),
                 nameonly kwargs: InterpolatorArgs := InterpolatorArgs(Absent, None))
      requires ConstructionError(input, normalizationCorrection, origin, oversampling, kwargs.degree).None?
      ensures Valid()
      ensures ny == input.Length0 && nx == input.Length1 && data == Values(old(Snapshot(input)))
      ensures this.oversampling == oversampling && this.fillValue == fillValue
      ensures this.x0 == x0 && this.y0 == y0 && interpolatorArgs == kwargs
      ensures (xOrigin, yOrigin) == ResolveOrigin(origin, FittableDefaultOrigin(nx, ny)).value
      ensures (State(), this.flux) ==
        FittableInitialNorm(InitialState(data, normalizationCorrection, normalize), flux, normalize, RawImageNorm())
      ensures warned <==> status == Failed
    {
      this.fillValue := fillValue;
      imgNorm := None;
      status := if normalize then Performed else NotRequested;
      interpolatorArgs := kwargs;
      this.oversampling := oversampling;
      correction := normalizationCorrection;
      constant := 1.0 / normalizationCorrection;
      data := Values(Snapshot(input));
      ny, nx := input.Length0, input.Length1;
      xOrigin, yOrigin := 0.0, 0.0;
      this.flux, this.x0, this.y0 := 0.0, x0, y0;
      interpolator := Spline([], [], [], DefaultDegree, DefaultDegree, 0.0);
      warned := false;
      new;
      Initialize(origin, flux, normalize, kwargs);
    }

    /** The steps of `__init__` once the fields are stored: the `origin` setter, `_initial_norm`
        and `compute_interpolator`, in that order, on a model with nothing cached. */
    method Initialize(origin: OriginArg, flux: Option<real>, normalize: bool, kwargs: InterpolatorArgs)
      requires Shaped() && imgNorm.None? && (status == NotRequested <==> !normalize) && !warned
      requires constant * correction == 1.0
      requires ResolveOrigin(origin, (0.0, 0.0)).Success? && ParseDegree(kwargs.degree).Success?
      modifies this`xOrigin, this`yOrigin, this`imgNorm, this`constant, this`status, this`warned, this`flux
      modifies this`interpolator, this`interpolatorArgs
      ensures Valid() && interpolatorArgs == kwargs
      ensures (xOrigin, yOrigin) == ResolveOrigin(origin, FittableDefaultOrigin(nx, ny)).value
      ensures (State(), this.flux) == FittableInitialNorm(old(State()), flux, normalize, RawImageNorm())
      ensures warned <==> status == Failed
    {
      var err := SetOrigin(origin);
      var f := InitialNorm(flux, normalize);
      this.flux := f;
      err := ComputeInterpolator(kwargs);
    }

    /** `__init__` with its exceptions: a model when `ConstructionError` finds nothing, otherwise
        that error. */
    static method Create(input: array2<Sample>, nameonly flux: Option<real> := Some(1.0), nameonly x0: real := 0.0,
                         nameonly y0: real := 0.0, nameonly normalize: bool := false,
                         nameonly normalizationCorrection: real := 1.0, nameonly origin: OriginArg := Unset,
                         nameonly oversampling: (int, int) := (1, 1), nameonly fillValue: Option<real> := Some(0.0),
                         nameonly kwargs: InterpolatorArgs := InterpolatorArgs(Absent, None))
      returns (r: Result<FittableImageModel, Error>)
      ensures var e := ConstructionError(input, normalizationCorrection, origin, oversampling, kwargs.degree);
        (r.Failure? <==> e.Some?) && (r.Failure? ==> r.error == e.value)
      ensures r.Success? ==> fresh(r.value) && r.value.Valid()
      ensures r.Success? ==> var m := r.value;
        && m.ny == input.Length0 && m.nx == input.Length1 && m.data == Values(Snapshot(input))
        && m.oversampling == oversampling && m.fillValue == fillValue
        && m.x0 == x0 && m.y0 == y0 && m.interpolatorArgs == kwargs
        && (m.xOrigin, m.yOrigin) == ResolveOrigin(origin, FittableDefaultOrigin(m.nx, m.ny)).value
        && (m.State(), m.flux) ==
             FittableInitialNorm(InitialState(m.data, normalizationCorrection, normalize), flux, normalize,
                                 m.RawImageNorm())
        && (m.warned <==> m.status == Failed)
    {
      var e := ConstructionError(input, normalizationCorrection, origin, oversampling, kwargs.degree);
      if e.Some? {
        return Failure(e.value);
      }
      var m := new FittableImageModel(input, flux := flux, x0 := x0, y0 := y0, normalize := normalize,
                                      normalizationCorrection := normalizationCorrection, origin := origin,
                                      oversampling := oversampling, fillValue := fillValue, kwargs := kwargs);
      r := Success(m);
    }

    /** The `origin` setter. On a `TypeError` nothing changes; `x_0`, `y_0` and `flux` are
        never touched. */
    method SetOrigin(arg: OriginArg) returns (err: Option<Error>)
      modifies this`xOrigin, this`yOrigin
      ensures var r := ResolveOrigin(arg, FittableDefaultOrigin(nx, ny));
        && (r.Success? ==> err.None? && (xOrigin, yOrigin) == r.value)
        && (r.Failure? ==> err == Some(r.error) && xOrigin == old(xOrigin) && yOrigin == old(yOrigin))
    {
      err := None;
      match arg
      case Unset =>
        xOrigin := (nx - 1) as real / 2.0;
        yOrigin := (ny - 1) as real / 2.0;
      case OriginItems(o) =>
        if |o| == 2 {
          xOrigin, yOrigin := o[0], o[1];
        } else {
          err := Some(BadOrigin);
        }
      case NotIterable =>
        err := Some(BadOrigin);
    }

    /** The `fill_value` setter. */
    method SetFillValue(v: Option<real>)
      modifies this`fillValue
      ensures fillValue == v
    {
      fillValue := v;
    }

    /** `_compute_normalization`: lazily computes and caches the raw norm, and sets the constant
        and the status; a failure warns instead of raising. */
    method ComputeNormalization(normalize: bool)
      requires Shaped()
      modifies this`imgNorm, this`constant, this`status, this`warned
      ensures State() == FittableNormalize(old(State()), normalize, RawImageNorm())
      ensures warned <==> old(warned) || status == Failed
    {
      constant := 1.0 / correction;
      if normalize {
        if imgNorm.None? {
          imgNorm := Some(RawImageNorm());
        }
        if imgNorm.value != 0.0 {
          constant := constant / imgNorm.value;
          status := Performed;
        } else {
          constant := 1.0;
          status := Failed;
          warned := true;
        }
      } else {
        status := NotRequested;
      }
    }

    /** `_initial_norm`: returns the flux the model starts with. */
    method InitialNorm(flux: Option<real>, normalize: bool) returns (f: real)
      requires Shaped()
      modifies this`imgNorm, this`constant, this`status, this`warned
      ensures (State(), f) == FittableInitialNorm(old(State()), flux, normalize, RawImageNorm())
      ensures warned <==> old(warned) || status == Failed
    {
      if flux.None? {
        if imgNorm.None? {
          imgNorm := Some(RawImageNorm());
        }
        f := imgNorm.value;
      } else {
        f := flux.value;
      }
      ComputeNormalization(normalize);
    }

    /** `compute_interpolator`: a spline on `np.arange(nx)`, `np.arange(ny)` and the transposed
        grid. A bad degree raises before anything is stored. */
    method ComputeInterpolator(kwargs: InterpolatorArgs) returns (err: Option<Error>)
      requires Shaped()
      modifies this`interpolator, this`interpolatorArgs
      ensures var b := BuildSpline(IndexAxis(nx), IndexAxis(ny), data, kwargs);
        && (b.Success? ==> err.None? && interpolator == b.value && interpolatorArgs == kwargs)
        && (b.Failure? ==> err == Some(b.error) && interpolator == old(interpolator)
                           && interpolatorArgs == old(interpolatorArgs))
    {
      var b := BuildSpline(IndexAxis(nx), IndexAxis(ny), data, kwargs);
      if b.Failure? {
        return Some(b.error);
      }
      interpolator, interpolatorArgs := b.value, kwargs;
      err := None;
    }

    /** The `normalization_correction` setter: re-normalizes with the new factor, keeping the
        request, and rescales `flux` by new/old. The grid and the interpolator are untouched. */
    method SetNormalizationCorrection(c: real)
      requires Valid() && c != 0.0
      modifies this`correction, this`imgNorm, this`constant, this`status, this`warned, this`flux
      ensures Valid()
      ensures (State(), flux) == FittableSetCorrection(old(State()), old(flux), c, RawImageNorm())
      ensures warned <==> old(warned) || status == Failed
    {
      var oldCf := correction;
      correction := c;
      ComputeNormalization(status != NotRequested);
      flux := RescaledFlux(flux, c, oldCf);
    }

    /** `normalized_data`, `N * data`: totals `1/C` when normalization was performed, and is the
        raw data after a failure. */
    function NormalizedData(): (g: seq<seq<real>>)
      requires Valid()
      reads this
      ensures |g| == ny && forall i :: 0 <= i < ny ==> |g[i]| == nx
      ensures status == Performed ==> GridSum(g) * correction == 1.0
      ensures status == NotRequested ==> GridSum(g) * correction == GridSum(data)
      ensures status == Failed ==> g == data
    {
      FittableNormalizedDataSum(State());
      Scaled(data, constant)
    }

    /** The grid coordinates `evaluate` uses for an output point: the feature position lands on
        the origin, and without oversampling the map is the ePSF's plain shift. */
    function GridPoint(x: real, y: real, x0: real, y0: real, useOversampling: bool): (p: (real, real))
      reads this`xOrigin, this`yOrigin
      ensures x == x0 && y == y0 ==> p == (xOrigin, yOrigin)
      ensures !useOversampling ==> p == (EpsfToGrid(x, x0, xOrigin), EpsfToGrid(y, y0, yOrigin))
    {
      var ox := if useOversampling then oversampling.1 as real else 1.0;
      var oy := if useOversampling then oversampling.0 as real else 1.0;
      (FittableToGrid(x, x0, ox, xOrigin), FittableToGrid(y, y0, oy, yOrigin))
    }

    /** With oversampling on, `GridPoint` scales x by `oversampling[1]` and y by
        `oversampling[0]`: `FittableFromGrid` with those factors gives the output point back. */
    lemma GridPointUndone(x: real, y: real, x0: real, y0: real)
      requires oversampling.0 > 0 && oversampling.1 > 0
      ensures var p := GridPoint(x, y, x0, y0, true);
        (FittableFromGrid(p.0, x0, oversampling.1 as real, xOrigin),
         FittableFromGrid(p.1, y0, oversampling.0 as real, yOrigin)) == (x, y)
    {
      FittableFromGridUndoes(x, x0, oversampling.1 as real, xOrigin);
      FittableFromGridUndoes(y, y0, oversampling.0 as real, yOrigin);
    }

    /** `evaluate` at the points `(xs[k], ys[k])` with the given parameter values: `flux * N`
        times the spline at the mapped point, overwritten by the fill value at every point whose
        grid coordinates fall outside `[0, nx - 1] x [0, ny - 1]`. */
    method Evaluate(xs: seq<real>, ys: seq<real>, flux: real, x0: real, y0: real, ev: Surface,
                    nameonly useOversampling: bool := true) returns (r: seq<real>)
      requires |xs| == |ys|
      ensures |r| == |xs|
      ensures forall k :: 0 <= k < |xs| ==>
        var p := GridPoint(xs[k], ys[k], x0, y0, useOversampling);
        r[k] == if fillValue.Some? && FittableOutside(p.0, p.1, nx, ny) then fillValue.value
                else flux * constant * ev(interpolator, p.0, p.1)
    {
      var n := |xs|;
      var g: seq<(real, real)> := [];
      for k := 0 to n
        invariant |g| == k
        invariant forall m :: 0 <= m < k ==> g[m] == GridPoint(xs[m], ys[m], x0, y0, useOversampling)
      {
        g := g + [GridPoint(xs[k], ys[k], x0, y0, useOversampling)];
      }
      var invalid := seq(n, m requires 0 <= m < n => FittableOutside(g[m].0, g[m].1, nx, ny));
      r := MaskedSpline(g, flux * constant, ev, interpolator, fillValue, invalid);
      forall k | 0 <= k < n
        ensures var p := GridPoint(xs[k], ys[k], x0, y0, useOversampling);
          r[k] == if fillValue.Some? && FittableOutside(p.0, p.1, nx, ny) then fillValue.value
                  else flux * constant * ev(interpolator, p.0, p.1)
      {
        assert GridPoint(xs[k], ys[k], x0, y0, useOversampling) == g[k];
      }
    }
  }

  /** The ePSF model. Its grid is divided in place when normalized, and it is evaluated on the
      undersampled grid. */
  class EPSFModel {
    const data: array2<real>           // `_data`, indexed `[y, x]`
    const nx: nat                      // `_nx`
    const ny: nat                      // `_ny`
    const oversampling: (int, int)     // `(oy, ox)`
    const normRadius: real             // `_norm_radius`
    const aperture: ApertureFlux       // the exact circular-aperture photometry
    var fillValue: Option<real>
    var imgNorm: Option<real>
    var correction: real
    var constant: real
    var status: Status
    var xOrigin: real
    var yOrigin: real
    var flux: real
    var x0: real
    var y0: real
    var interpolator: Spline
    var interpolatorArgs: InterpolatorArgs
    ghost var warned: bool

    ghost predicate Shaped()
      reads this`correction
    {
      && data.Length0 == ny && data.Length1 == nx && nx >= 1 && ny >= 1
      && oversampling.0 > 0 && oversampling.1 > 0 && correction != 0.0
    }

    function State(): NormState
      reads this`imgNorm, this`correction, this`constant, this`status, data
    {
      NormState(imgNorm, correction, constant, status, Snapshot(data))
    }

    /** `_compute_raw_image_norm`: the aperture flux of the current grid. */
    function RawImageNorm(): real
      requires oversampling.0 > 0 && oversampling.1 > 0
      reads data
    {
      EpsfRawNorm(aperture, Snapshot(data), nx, ny, normRadius, oversampling)
    }

    /** A constructed ePSF: a norm is always cached, and the interpolator is the spline on the
        undersampled axes and the current grid, built from the stored arguments. */
    ghost predicate Valid()
      reads this, data
    {
      && Shaped()
      && EpsfConsistent(State())
      && BuildSpline(UndersampledAxis(nx, oversampling.1), UndersampledAxis(ny, oversampling.0), Snapshot(data),
                     interpolatorArgs) == Success(interpolator)
    }

    /** `__init__`, for arguments that raise nothing. */
    constructor (input: array2<Sample>, aperture: ApertureFlux, nameonly flux: Option<real> := Some(1.0),
                 nameonly x0: real := 0.0, nameonly y0: real := 0.0, nameonly normalize: bool := true,
                 nameonly normalizationCorrection: real := 1.0, nameonly origin: OriginArg := Unset,
                 nameonly oversampling: (int, int) := (1, 1), nameonly fillValue: Option<real> := Some(0.0),
                 nameonly normRadius: real := 5.5,
                 nameonly kwargs: InterpolatorArgs := InterpolatorArgs(Absent, None))
      requires ConstructionError(input, normalizationCorrection, origin, oversampling, kwargs.degree).None?
      ensures Valid() && fresh(data)
      ensures ny == input.Length0 && nx == input.Length1
      ensures this.oversampling == oversampling && this.fillValue == fillValue && this.normRadius == normRadius
      ensures this.aperture == aperture && this.x0 == x0 && this.y0 == y0 && interpolatorArgs == kwargs
      ensures (xOrigin, yOrigin) == ResolveOrigin(origin, EpsfDefaultOrigin(nx, ny, oversampling)).value
      ensures var g := Values(Snapshot(input));
        (State(), this.flux) == EpsfInitialNorm(InitialState(g, normalizationCorrection, normalize), flux, normalize,
                                                EpsfRawNorm(aperture, g, nx, ny, normRadius, oversampling))
      ensures warned <==> normalize && status == Failed
      ensures interpolator.z == Transposed(Snapshot(data), nx)
    {
      this.normRadius := normRadius;
      this.aperture := aperture;
      this.fillValue := fillValue;
      imgNorm := None;
      status := if normalize then Performed else NotRequested;
      interpolatorArgs := kwargs;
      this.oversampling := oversampling;
      correction := normalizationCorrection;
      constant := 1.0 / normalizationCorrection;
      var a := CopyValues(input);
      data := a;
      ny, nx := input.Length0, input.Length1;
      xOrigin, yOrigin := 0.0, 0.0;
      this.flux, this.x0, this.y0 := 0.0, x0, y0;
      interpolator := Spline([], [], [], DefaultDegree, DefaultDegree, 0.0);
      warned := false;
      new;
      Initialize(origin, flux, normalize, kwargs);
    }

    /** The steps of `__init__` once the fields are stored: the `origin` setter, `_initial_norm`
        and `compute_interpolator`, in that order, on a model with nothing cached. */
    method Initialize(origin: OriginArg, flux: Option<real>, normalize: bool, kwargs: InterpolatorArgs)
      requires Shaped() && imgNorm.None? && (status == NotRequested <==> !normalize) && !warned
      requires ResolveOrigin(origin, (0.0, 0.0)).Success? && ParseDegree(kwargs.degree).Success?
      modifies this`xOrigin, this`yOrigin, this`imgNorm, this`status, this`warned, this`flux
      modifies this`interpolator, this`interpolatorArgs, data
      ensures Valid() && interpolatorArgs == kwargs
      ensures (xOrigin, yOrigin) == ResolveOrigin(origin, EpsfDefaultOrigin(nx, ny, oversampling)).value
      ensures (State(), this.flux) == EpsfInitialNorm(old(State()), flux, normalize, old(RawImageNorm()))
      ensures warned <==> normalize && status == Failed
      ensures interpolator.z == Transposed(Snapshot(data), nx)
    {
      var err := SetOrigin(origin);
      var f := InitialNorm(flux, normalize);
      this.flux := f;
      err := ComputeInterpolator(kwargs);
    }

    /** `__init__` with its exceptions. */
    static method Create(input: array2<Sample>, aperture: ApertureFlux, nameonly flux: Option<real> := Some(1.0),
                         nameonly x0: real := 0.0, nameonly y0: real := 0.0, nameonly normalize: bool := true,
                         nameonly normalizationCorrection: real := 1.0, nameonly origin: OriginArg := Unset,
                         nameonly oversampling: (int, int) := (1, 1), nameonly fillValue: Option<real> := Some(0.0),
                         nameonly normRadius: real := 5.5,
                         nameonly kwargs: InterpolatorArgs := InterpolatorArgs(Absent, None))
      returns (r: Result<EPSFModel, Error>)
      ensures var e := ConstructionError(input, normalizationCorrection, origin, oversampling, kwargs.degree);
        (r.Failure? <==> e.Some?) && (r.Failure? ==> r.error == e.value)
      ensures r.Success? ==> fresh(r.value) && fresh(r.value.data) && r.value.Valid()
      ensures r.Success? ==> var m := r.value;
        && m.ny == input.Length0 && m.nx == input.Length1
        && m.oversampling == oversampling && m.fillValue == fillValue && m.normRadius == normRadius
        && m.aperture == aperture && m.x0 == x0 && m.y0 == y0 && m.interpolatorArgs == kwargs
        && (m.xOrigin, m.yOrigin) == ResolveOrigin(origin, EpsfDefaultOrigin(m.nx, m.ny, oversampling)).value
        && var g := Values(Snapshot(input));
           (m.State(), m.flux) == EpsfInitialNorm(InitialState(g, normalizationCorrection, normalize), flux, normalize,
                                                  EpsfRawNorm(aperture, g, m.nx, m.ny, normRadius, oversampling))
      ensures r.Success? ==> (r.value.warned <==> normalize && r.value.status == Failed)
    {
      var e := ConstructionError(input, normalizationCorrection, origin, oversampling, kwargs.degree);
      if e.Some? {
        return Failure(e.value);
      }
      var m := new EPSFModel(input, aperture, flux := flux, x0 := x0, y0 := y0, normalize := normalize,
                             normalizationCorrection := normalizationCorrection, origin := origin,
                             oversampling := oversampling, fillValue := fillValue, normRadius := normRadius,
                             kwargs := kwargs);
      r := Success(m);
    }

    /** `EPSFModel`'s `origin` setter: the default is divided by the oversampling factors. */
    method SetOrigin(arg: OriginArg) returns (err: Option<Error>)
      requires oversampling.0 > 0 && oversampling.1 > 0
      modifies this`xOrigin, this`yOrigin
      ensures var r := ResolveOrigin(arg, EpsfDefaultOrigin(nx, ny, oversampling));
        && (r.Success? ==> err.None? && (xOrigin, yOrigin) == r.value)
        && (r.Failure? ==> err == Some(r.error) && xOrigin == old(xOrigin) && yOrigin == old(yOrigin))
    {
      err := None;
      match arg
      case Unset =>
        xOrigin := (nx - 1) as real / 2.0 / oversampling.1 as real;
        yOrigin := (ny - 1) as real / 2.0 / oversampling.0 as real;
      case OriginItems(o) =>
        if |o| == 2 {
          xOrigin, yOrigin := o[0], o[1];
        } else {
          err := Some(BadOrigin);
        }
      case NotIterable =>
        err := Some(BadOrigin);
    }

    method SetFillValue(v: Option<real>)
      modifies this`fillValue
      ensures fillValue == v
    {
      fillValue := v;
    }

    /** `self._data /= (img_norm * C)`. */
    method DivideData(n: real, c: real)
      requires n != 0.0 && c != 0.0
      modifies data
      ensures Snapshot(data) == DividedByNorm(old(Snapshot(data)), n, c)
    {
      ghost var g := Snapshot(data);
      ZeroProduct(n, c);
      var d := n * c;
      for i := 0 to data.Length0
        invariant forall r, k :: 0 <= r < data.Length0 && 0 <= k < data.Length1 ==>
          data[r, k] == if r < i then g[r][k] / d else g[r][k]
      {
        for j := 0 to data.Length1
          invariant forall r, k :: 0 <= r < data.Length0 && 0 <= k < data.Length1 ==>
            data[r, k] == if r < i || (r == i && k < j) then g[r][k] / d else g[r][k]
        {
          data[i, j] := data[i, j] / d;
        }
      }
      SameGrid(Snapshot(data), Divided(g, d));
    }

    /** `EPSFModel._compute_normalization`: with nothing cached, a zero-sum grid takes the norm 1
        and any other the aperture flux; a nonzero norm divides the grid by `norm * C`, a zero
        one resets the norm to 1 and warns. The constant `N` is left alone. */
    method ComputeNormalization(normalize: bool)
      requires Shaped()
      modifies this`imgNorm, this`status, this`warned, data
      ensures State() == EpsfNormalize(old(State()), normalize, old(RawImageNorm()))
      ensures warned <==> old(warned) || status == Failed
    {
      if normalize {
        if imgNorm.None? {
          if GridSum(Snapshot(data)) == 0.0 {
            imgNorm := Some(1.0);
          } else {
            imgNorm := Some(RawImageNorm());
          }
        }
        if imgNorm.value != 0.0 {
          DivideData(imgNorm.value, correction);
          status := Performed;
        } else {
          status := Failed;
          imgNorm := Some(1.0);
          warned := true;
        }
      } else {
        status := NotRequested;
      }
    }

    /** `EPSFModel._initial_norm`: without normalization the raw norm is stored regardless of
        what was cached. */
    method InitialNorm(flux: Option<real>, normalize: bool) returns (f: real)
      requires Shaped()
      modifies this`imgNorm, this`status, this`warned, data
      ensures (State(), f) == EpsfInitialNorm(old(State()), flux, normalize, old(RawImageNorm()))
      ensures warned <==> old(warned) || (normalize && status == Failed)
    {
      if flux.None? {
        if imgNorm.None? {
          imgNorm := Some(RawImageNorm());
        }
        f := imgNorm.value;
      } else {
        f := flux.value;
      }
      if normalize {
        ComputeNormalization(true);
      } else {
        imgNorm := Some(RawImageNorm());
      }
    }

    /** `EPSFModel.compute_interpolator`: a spline on `np.arange(n) / o` along each axis and the
        transposed current grid. */
    method ComputeInterpolator(kwargs: InterpolatorArgs) returns (err: Option<Error>)
      requires Shaped()
      modifies this`interpolator, this`interpolatorArgs
      ensures var b := BuildSpline(UndersampledAxis(nx, oversampling.1), UndersampledAxis(ny, oversampling.0),
                                   Snapshot(data), kwargs);
        && (b.Success? ==> err.None? && interpolator == b.value && interpolatorArgs == kwargs)
        && (b.Failure? ==> err == Some(b.error) && interpolator == old(interpolator)
                           && interpolatorArgs == old(interpolatorArgs))
    {
      var b := BuildSpline(UndersampledAxis(nx, oversampling.1), UndersampledAxis(ny, oversampling.0),
                           Snapshot(data), kwargs);
      if b.Failure? {
        return Some(b.error);
      }
      interpolator, interpolatorArgs := b.value, kwargs;
      err := None;
    }

    /** `data *= k`, in place. */
    method ScaleData(k: real)
      modifies data
      ensures Snapshot(data) == Scaled(old(Snapshot(data)), k)
    {
      ghost var g := Snapshot(data);
      for i := 0 to data.Length0
        invariant forall r, m :: 0 <= r < data.Length0 && 0 <= m < data.Length1 ==>
          data[r, m] == if r < i then k * g[r][m] else g[r][m]
      {
        for j := 0 to data.Length1
          invariant forall r, m :: 0 <= r < data.Length0 && 0 <= m < data.Length1 ==>
            data[r, m] == if r < i || (r == i && m < j) then k * g[r][m] else g[r][m]
        {
          data[i, j] := k * data[i, j];
        }
      }
      SameGrid(Snapshot(data), Scaled(g, k));
    }

    /** The `normalization_correction` setter of an ePSF, corrected: the grid is rescaled by
        old/new, the flux by new/old, and the interpolator is rebuilt on the rescaled grid, so
        the model keeps its image and its unit total (`EpsfRescaleCorrection`). The inherited
        setter as written is `EpsfSetCorrection`. */
    method SetNormalizationCorrection(c: real)
      requires Valid() && c != 0.0
      modifies this`correction, this`flux, this`interpolator, this`interpolatorArgs, data
      ensures Valid()
      ensures (State(), flux) == EpsfRescaleCorrection(old(State()), old(flux), c)
      ensures interpolatorArgs == old(interpolatorArgs)
    {
      var oldCf := correction;
      correction := c;
      ScaleData(oldCf / c);
      flux := RescaledFlux(flux, c, oldCf);
      var err := ComputeInterpolator(interpolatorArgs);
    }

    /** `EPSFModel.normalized_data`: the stored grid itself, since normalization already
        happened in place. */
    function NormalizedData(): (g: seq<seq<real>>)
      reads this, data
      ensures |g| == data.Length0 && forall i :: 0 <= i < |g| ==> |g[i]| == data.Length1
      ensures forall i, j :: 0 <= i < data.Length0 && 0 <= j < data.Length1 ==> g[i][j] == data[i, j]
    {
      Snapshot(data)
    }

    /** The undersampled grid coordinates `evaluate` uses for an output point: the feature
        position lands on the origin, and the shift is undone by `EpsfFromGrid`. */
    function GridPoint(x: real, y: real, x0: real, y0: real): (p: (real, real))
      reads this`xOrigin, this`yOrigin
      ensures x == x0 && y == y0 ==> p == (xOrigin, yOrigin)
      ensures (EpsfFromGrid(p.0, x0, xOrigin), EpsfFromGrid(p.1, y0, yOrigin)) == (x, y)
    {
      (EpsfToGrid(x, x0, xOrigin), EpsfToGrid(y, y0, yOrigin))
    }

    /** `EPSFModel.evaluate`: `flux` times the spline at the shifted point (no constant, no
        oversampling factor), overwritten by the fill value outside
        `[0, (nx - 1) / ox] x [0, (ny - 1) / oy]`. */
    method Evaluate(xs: seq<real>, ys: seq<real>, flux: real, x0: real, y0: real, ev: Surface) returns (r: seq<real>)
      requires |xs| == |ys| && oversampling.0 > 0 && oversampling.1 > 0
      ensures |r| == |xs|
      ensures forall k :: 0 <= k < |xs| ==>
        var p := GridPoint(xs[k], ys[k], x0, y0);
        r[k] == if fillValue.Some? && EpsfOutside(p.0, p.1, nx, ny, oversampling) then fillValue.value
                else flux * ev(interpolator, p.0, p.1)
    {
      var n := |xs|;
      var g: seq<(real, real)> := [];
      for k := 0 to n
        invariant |g| == k
        invariant forall m :: 0 <= m < k ==> g[m] == GridPoint(xs[m], ys[m], x0, y0)
      {
        g := g + [GridPoint(xs[k], ys[k], x0, y0)];
      }
      var invalid := seq(n, m requires 0 <= m < n => EpsfOutside(g[m].0, g[m].1, nx, ny, oversampling));
      r := MaskedSpline(g, flux, ev, interpolator, fillValue, invalid);
      forall k | 0 <= k < n
        ensures var p := GridPoint(xs[k], ys[k], x0, y0);
          r[k] == if fillValue.Some? && EpsfOutside(p.0, p.1, nx, ny, oversampling) then fillValue.value
                  else flux * ev(interpolator, p.0, p.1)
      {
        assert GridPoint(xs[k], ys[k], x0, y0) == g[k];
      }
    }
  }
}
