/** The normalization state machine of the two image models, as functions on values.

    A model holds a cached raw image norm (`_img_norm`, absent until first computed), the
    correction factor `C` (`_normalization_correction`), the constant `N` applied at evaluation
    time (`_normalization_constant`) and a status. `FittableImageModel` normalizes lazily: it
    keeps its grid and chooses `N` so that `N * C * sum(data) == 1`. `EPSFModel` normalizes
    eagerly: it divides its grid in place and never touches `N`.

    The raw norm is passed in as `raw`, the value `_compute_raw_image_norm` would return for the
    current grid; the functions consult it only when nothing is cached. */
module Normalization {
  import opened Wrappers
  import opened Grid

  /** `normalization_status`. */
  datatype Status = Performed | Failed | NotRequested {
    /** The integer the Python property reports. */
    function Code(): (c: int)
      ensures 0 <= c <= 2
      ensures (c == 0) == Performed? && (c == 1) == Failed? && (c == 2) == NotRequested?
    {
      match this
      case Performed => 0
      case Failed => 1
      case NotRequested => 2
    }
  }

  datatype NormState = NormState(
    imgNorm: Option<real>,      // `_img_norm`
    correction: real,           // `_normalization_correction`
    constant: real,             // `_normalization_constant`
    status: Status,             // `_normalization_status`
    grid: seq<seq<real>>)       // `_data`

  /** The state `__init__` sets up before `_initial_norm` runs: nothing cached, `N = 1/C`,
      and the status provisionally `Performed` when normalization is requested. */
  function InitialState(grid: seq<seq<real>>, correction: real, normalize: bool): (s: NormState)
    requires correction > 0.0
    ensures s.imgNorm.None? && s.grid == grid && s.correction == correction
    ensures s.constant * correction == 1.0
    ensures s.status == NotRequested <==> !normalize
  {
    NormState(None, correction, 1.0 / correction, if normalize then Performed else NotRequested, grid)
  }

  /** What `FittableImageModel` keeps true of its state once `_compute_normalization` has run:
      `N * C * img_norm == 1` when normalized, `N == 1` after a failure on a zero norm,
      `N * C == 1` when normalization was not requested. */
  ghost predicate FittableConsistent(s: NormState) {
    match s.status
    case Performed => s.imgNorm.Some? && s.imgNorm.value != 0.0 && s.constant * s.correction * s.imgNorm.value == 1.0
    case Failed => s.imgNorm == Some(0.0) && s.constant == 1.0
    case NotRequested => s.constant * s.correction == 1.0
  }

  lemma InverseProduct(c: real, n: real)
    requires c != 0.0 && n != 0.0
    ensures 1.0 / c / n * c * n == 1.0
  {
    var k := 1.0 / c;
    assert k * c == 1.0;
    var m := k / n;
    assert m * n == k;
    assert m * c * n == m * n * c;
  }

  /** `FittableImageModel._compute_normalization`. */
  function FittableNormalize(s: NormState, normalize: bool, raw: real): (r: NormState)
    requires s.correction != 0.0
    ensures r.correction == s.correction && r.grid == s.grid
    ensures FittableConsistent(r)
    ensures r.status == NotRequested <==> !normalize
    ensures !normalize ==> r.imgNorm == s.imgNorm
    ensures normalize ==> r.imgNorm == Some(s.imgNorm.GetOr(raw))
    ensures r.status == Failed <==> normalize && s.imgNorm.GetOr(raw) == 0.0
  {
    var constant := 1.0 / s.correction;
    if !normalize then
      s.(constant := constant, status := NotRequested)
    else
      var n := if s.imgNorm.Some? then s.imgNorm.value else raw;
      if n != 0.0 then
        InverseProduct(s.correction, n);
        s.(imgNorm := Some(n), constant := constant / n, status := Performed)
      else
        s.(imgNorm := Some(n), constant := 1.0, status := Failed)
  }

  /** `FittableImageModel._initial_norm`: with no `flux` given, the raw norm is cached and
      becomes the flux; then the state is normalized. Returns the new state and the flux. */
  function FittableInitialNorm(s: NormState, flux: Option<real>, normalize: bool, raw: real): (r: (NormState, real))
    requires s.correction != 0.0
    ensures FittableConsistent(r.0) && r.0.correction == s.correction && r.0.grid == s.grid
    ensures r.1 == flux.GetOr(s.imgNorm.GetOr(raw))
    ensures r.0.status == NotRequested <==> !normalize
    ensures r.0.imgNorm == if normalize || flux.None? then Some(s.imgNorm.GetOr(raw)) else s.imgNorm
  {
    var s1 := if flux.None? && s.imgNorm.None? then s.(imgNorm := Some(raw)) else s;
    var f := if flux.None? then s1.imgNorm.value else flux.value;
    (FittableNormalize(s1, normalize, raw), f)
  }

  /** `flux * (new / old)`: the flux after the correction factor changes from `oldCf` to `newCf`. */
  function RescaledFlux(flux: real, newCf: real, oldCf: real): (f: real)
    requires oldCf != 0.0
    ensures f * oldCf == flux * newCf
  {
    assert flux * (newCf / oldCf) * oldCf == flux * newCf;
    flux * (newCf / oldCf)
  }

  /** The `normalization_correction` setter of `FittableImageModel`: re-normalize with the new
      factor, asking for normalization exactly when the status is not `NotRequested`, and rescale
      the flux by new/old. Returns the new state and the new flux. */
  function FittableSetCorrection(s: NormState, flux: real, c: real, raw: real): (r: (NormState, real))
    requires s.correction != 0.0 && c != 0.0
    ensures r.0.correction == c && r.0.grid == s.grid
    ensures FittableConsistent(r.0)
    ensures r.1 * s.correction == flux * c
    ensures r.0.status == NotRequested <==> s.status == NotRequested
    ensures s.imgNorm.Some? ==> r.0.imgNorm == s.imgNorm
  {
    var t := FittableNormalize(s.(correction := c), s.status != NotRequested, raw);
    (t, RescaledFlux(flux, c, s.correction))
  }

  /** The default model's normalized data, `N * data`: once normalization has been performed on
      the grid's own sum it totals `1/C`; when not requested it totals `sum(data) / C`; after a
      failure it is the raw data. */
  lemma FittableNormalizedDataSum(s: NormState)
    requires FittableConsistent(s)
    requires s.status == Performed ==> s.imgNorm == Some(GridSum(s.grid))
    ensures s.status == Performed ==> GridSum(Scaled(s.grid, s.constant)) * s.correction == 1.0
    ensures s.status == NotRequested ==> GridSum(Scaled(s.grid, s.constant)) * s.correction == GridSum(s.grid)
    ensures s.status == Failed ==> Scaled(s.grid, s.constant) == s.grid
  {
    GridSumScaled(s.grid, s.constant);
    assert s.constant * GridSum(s.grid) * s.correction == s.constant * s.correction * GridSum(s.grid);
    if s.status == Failed {
      ScaledByOne(s.grid);
    }
  }

  /** Normalizing a second time changes nothing, whatever the raw norm would now be: the cached
      value is reused and the same constant results. */
  lemma FittableNormalizeIdempotent(s: NormState, raw: real, raw': real)
    requires s.correction != 0.0
    ensures FittableNormalize(FittableNormalize(s, true, raw), true, raw') == FittableNormalize(s, true, raw)
  {
  }

  /** Once a raw norm is cached the outcome does not depend on what the raw norm would be. */
  lemma FittableNormalizeUsesCache(s: NormState, normalize: bool, raw: real, raw': real)
    requires s.correction != 0.0 && s.imgNorm.Some?
    ensures FittableNormalize(s, normalize, raw) == FittableNormalize(s, normalize, raw')
  {
  }

  /** Changing the correction factor keeps a good fit good: the factor `flux * N` that scales the
      interpolated image is unchanged, except after a failed normalization, where `N` stays 1 and
      the flux alone is rescaled by new/old. */
  lemma FittableCorrectionPreservesFit(s: NormState, flux: real, c: real, raw: real)
    requires s.correction != 0.0 && c != 0.0 && FittableConsistent(s)
    ensures var r := FittableSetCorrection(s, flux, c, raw);
      if s.status == Failed then r.1 * r.0.constant * s.correction == flux * s.constant * c
      else r.1 * r.0.constant == flux * s.constant
  {
    var r := FittableSetCorrection(s, flux, c, raw);
    if s.status == NotRequested {
      assert r.0.status == NotRequested && r.0.correction == c;
      ProductOfInverses(r.1, c, flux, s.correction, r.0.constant, s.constant);
    } else if s.status == Performed {
      var n := s.imgNorm.value;
      assert r.0.imgNorm == Some(n) && r.0.status == Performed && r.0.correction == c;
      NormalizedFitKept(r.1, c, flux, s.correction, r.0.constant, s.constant, n);
    } else {
      assert r.0.constant == 1.0 && s.constant == 1.0;
    }
  }

  /** The performed case: both constants carry the same nonzero norm `n`. */
  lemma NormalizedFitKept(f: real, a: real, x: real, b: real, k: real, k': real, n: real)
    requires a != 0.0 && b != 0.0 && n != 0.0
    requires f * b == x * a && k * a * n == 1.0 && k' * b * n == 1.0
    ensures f * k == x * k'
  {
    assert (k * n) * a == 1.0;
    assert (k' * n) * b == 1.0;
    ProductOfInverses(f, a, x, b, k * n, k' * n);
    assert (f * k) * n == (x * k') * n;
    CancelFactor(f * k, x * k', n);
  }

  /** If `f * b == x * a`, `k * a == 1` and `k' * b == 1` then `f * k == x * k'`. */
  lemma ProductOfInverses(f: real, a: real, x: real, b: real, k: real, k': real)
    requires f * b == x * a && k * a == 1.0 && k' * b == 1.0
    ensures f * k == x * k'
  {
    calc {
      f * k;
      f * k * (k' * b);
      (f * b) * k * k';
      (x * a) * k * k';
      x * k' * (k * a);
      x * k';
    }
  }

  /** The flux-weighted grid of a failed normalization: the failure is kept across correction
      changes, since the cached zero norm is reused. */
  lemma FittableFailureIsSticky(s: NormState, flux: real, c: real, raw: real)
    requires s.correction != 0.0 && c != 0.0 && FittableConsistent(s) && s.status == Failed
    ensures FittableSetCorrection(s, flux, c, raw).0.status == Failed
  {
  }

  lemma ZeroProduct(a: real, b: real)
    ensures a * b == 0.0 <==> a == 0.0 || b == 0.0
  {
    if b != 0.0 {
      assert a * b / b == a;
    }
  }

  lemma CancelFactor(x: real, y: real, z: real)
    requires z != 0.0 && x * z == y * z
    ensures x == y
  {
    assert x * z / z == x;
    assert y * z / z == y;
  }

  /** The in-place division `data /= (img_norm * C)` of `EPSFModel`. */
  function DividedByNorm(g: seq<seq<real>>, n: real, c: real): (r: seq<seq<real>>)
    requires n != 0.0 && c != 0.0
    ensures GridSum(r) * n * c == GridSum(g)
  {
    ZeroProduct(n, c);
    GridSumDivided(g, n * c);
    DivisionUndone(GridSum(g), n * c);
    Divided(g, n * c)
  }

  lemma DivisionUndone(x: real, d: real)
    requires d != 0.0
    ensures x / d * d == x
  {
  }

  /** `EPSFModel._compute_raw_image_norm`: the exact-aperture flux of a circle centred at
      `(nx/2, ny/2)` with radius `norm_radius * oversampling[0]`, divided by the product of the two
      oversampling factors. `aperture(grid, x, y, r)` stands for the aperture photometry call. */
  function EpsfRawNorm(aperture: ApertureFlux, g: seq<seq<real>>, nx: nat, ny: nat, normRadius: real,
                       oversampling: (int, int)): (r: real)
    requires oversampling.0 > 0 && oversampling.1 > 0
    ensures r * (oversampling.0 * oversampling.1) as real
            == aperture(g, nx as real / 2.0, ny as real / 2.0, ApertureRadius(normRadius, oversampling))
  {
    aperture(g, nx as real / 2.0, ny as real / 2.0, ApertureRadius(normRadius, oversampling))
      / (oversampling.0 * oversampling.1) as real
  }

  /** The aperture radius on the oversampled grid, `norm_radius * oversampling[0]`. */
  function ApertureRadius(normRadius: real, oversampling: (int, int)): real {
    normRadius * oversampling.0 as real
  }

  /** The exact circular-aperture photometry of a grid, at a centre, with a radius. */
  type ApertureFlux = (seq<seq<real>>, real, real, real) -> real

  /** What `EPSFModel` keeps true once constructed: a raw norm is always cached, a performed
      normalization has a nonzero norm and a failed one has reset the norm to 1. */
  ghost predicate EpsfConsistent(s: NormState) {
    && s.imgNorm.Some?
    && (s.status == Performed ==> s.imgNorm.value != 0.0)
    && (s.status == Failed ==> s.imgNorm == Some(1.0))
  }

  /** `EPSFModel._compute_normalization`. With nothing cached, a grid whose total is zero gets the
      norm 1 instead of its aperture flux. On success the grid itself is divided by `img_norm * C`;
      the constant `N` is never changed. */
  function EpsfNormalize(s: NormState, normalize: bool, raw: real): (r: NormState)
    requires s.correction != 0.0
    ensures r.correction == s.correction && r.constant == s.constant
    ensures r.status == NotRequested <==> !normalize
    ensures !normalize ==> r.imgNorm == s.imgNorm && r.grid == s.grid
    ensures normalize ==> EpsfConsistent(r)
    ensures r.status == Performed ==>
      && r.imgNorm.Some? && r.imgNorm.value != 0.0
      && r.grid == DividedByNorm(s.grid, r.imgNorm.value, s.correction)
      && (s.imgNorm.Some? ==> r.imgNorm == s.imgNorm)
    ensures normalize && s.imgNorm.None? && GridSum(s.grid) == 0.0 ==> r.status == Performed && r.imgNorm == Some(1.0)
    ensures normalize && s.imgNorm.None? && GridSum(s.grid) != 0.0 && raw != 0.0 ==> r.imgNorm == Some(raw)
    ensures r.status == Failed ==> r.imgNorm == Some(1.0) && r.grid == s.grid
    ensures r.status == Failed <==>
      normalize && (if s.imgNorm.Some? then s.imgNorm.value == 0.0 else GridSum(s.grid) != 0.0 && raw == 0.0)
  {
    if !normalize then
      s.(status := NotRequested)
    else
      var n := if s.imgNorm.Some? then s.imgNorm.value else if GridSum(s.grid) == 0.0 then 1.0 else raw;
      if n != 0.0 then
        s.(imgNorm := Some(n), grid := DividedByNorm(s.grid, n, s.correction), status := Performed)
      else
        s.(imgNorm := Some(1.0), status := Failed)
  }

  /** `EPSFModel._initial_norm`: with no `flux` given the raw (aperture) norm is cached and becomes
      the flux. Normalization then runs if requested; otherwise the raw norm is computed again and
      stored unconditionally. Returns the new state and the flux. */
  function EpsfInitialNorm(s: NormState, flux: Option<real>, normalize: bool, raw: real): (r: (NormState, real))
    requires s.correction != 0.0
    ensures normalize || s.status == NotRequested ==> EpsfConsistent(r.0)
    ensures r.0.imgNorm.Some?
    ensures r.0.correction == s.correction && r.0.constant == s.constant
    ensures r.1 == flux.GetOr(s.imgNorm.GetOr(raw))
    ensures !normalize ==> r.0 == s.(imgNorm := Some(raw))
    ensures normalize ==> r.0.status != NotRequested
  {
    var s1 := if flux.None? && s.imgNorm.None? then s.(imgNorm := Some(raw)) else s;
    var f := if flux.None? then s1.imgNorm.value else flux.value;
    if normalize then (EpsfNormalize(s1, true, raw), f)
    else (s1.(imgNorm := Some(raw)), f)
  }

  /** The `normalization_correction` setter as `EPSFModel` inherits it: its own
      `_compute_normalization` runs with the new factor, and the flux is rescaled by new/old. */
  function EpsfSetCorrection(s: NormState, flux: real, c: real, raw: real): (r: (NormState, real))
    requires s.correction != 0.0 && c != 0.0
    ensures r.0.correction == c && r.0.constant == s.constant
    ensures r.1 * s.correction == flux * c
    ensures r.0.status == NotRequested <==> s.status == NotRequested
    ensures s.status == NotRequested ==> r.0.grid == s.grid && r.0.imgNorm == s.imgNorm
    ensures EpsfConsistent(s) ==> EpsfConsistent(r.0)
    ensures EpsfConsistent(s) && s.status != NotRequested ==>
      && r.0.status == Performed && r.0.imgNorm == s.imgNorm
      && r.0.grid == DividedByNorm(s.grid, s.imgNorm.value, c)
  {
    var t := EpsfNormalize(s.(correction := c), s.status != NotRequested, raw);
    assert EpsfConsistent(s) && s.status != NotRequested ==> t.status == Performed && t.imgNorm == s.imgNorm;
    (t, RescaledFlux(flux, c, s.correction))
  }

  /** The inherited setter breaks both promises its documentation makes for an ePSF. Build an ePSF
      from the 2 x 2 grid of 0.5 (which a spline of degree 1 accepts) with `C = 1`, the aperture
      flux 2 and a given `flux` of 1: the stored grid is 0.25 everywhere and totals `1/C`. Setting
      `C' = 2` divides it once more by `2 * 2`, so it is 0.0625 everywhere and totals `0.5 / C'`
      instead of `1 / C'`. The flux doubles, so the stored image `flux * data` halves, while
      `evaluate`, whose spline is not rebuilt on the new grid, doubles: neither stays the same. */
  lemma EpsfSetCorrectionBreaksPromises()
    ensures var s := EpsfInitialNorm(InitialState([[0.5, 0.5], [0.5, 0.5]], 1.0, true), Some(1.0), true, 2.0).0;
      var r := EpsfSetCorrection(s, 1.0, 2.0, 2.0);
      && s.status == Performed && s.grid == [[0.25, 0.25], [0.25, 0.25]]
      && GridSum(s.grid) * s.correction == 1.0
      && r.0.status == Performed && r.0.grid == [[0.0625, 0.0625], [0.0625, 0.0625]] && r.1 == 2.0
      && GridSum(r.0.grid) * r.0.correction == 0.5
      && r.1 * r.0.grid[0][0] == 0.5 * (1.0 * s.grid[0][0])
      && r.1 * s.grid[0][0] == 2.0 * (1.0 * s.grid[0][0])
  {
    var g := [[0.5, 0.5], [0.5, 0.5]];
    assert GridSum(g) == RowSum(g[0]) + GridSum(g[1..]);
    assert RowSum(g[0]) == 0.5 + RowSum([0.5]);
    var s := EpsfInitialNorm(InitialState(g, 1.0, true), Some(1.0), true, 2.0).0;
    assert DividedByNorm(g, 2.0, 1.0)[0] == [0.25, 0.25];
    assert DividedByNorm(g, 2.0, 1.0)[1] == [0.25, 0.25];
    assert s.grid == [[0.25, 0.25], [0.25, 0.25]];
    var q := [0.25, 0.25];
    assert GridSum(s.grid) == RowSum(q) + GridSum([q]);
    assert GridSum([q]) == RowSum(q) + GridSum([]);
    assert RowSum(q) == 0.25 + RowSum([0.25]);
    var r := EpsfSetCorrection(s, 1.0, 2.0, 2.0);
    assert DividedByNorm(s.grid, 2.0, 2.0)[0] == [0.0625, 0.0625];
    assert DividedByNorm(s.grid, 2.0, 2.0)[1] == [0.0625, 0.0625];
    assert r.0.grid == [[0.0625, 0.0625], [0.0625, 0.0625]];
    var t := [0.0625, 0.0625];
    assert GridSum(r.0.grid) == RowSum(t) + GridSum([t]);
    assert GridSum([t]) == RowSum(t) + GridSum([]);
    assert RowSum(t) == 0.0625 + RowSum([0.0625]);
    assert r.1 * 1.0 == 1.0 * 2.0;
  }

  /** The correction setter as its documentation means it for an ePSF: the grid is rescaled by
      `old / new`, as `data *= old_cf / normalization_correction` would, and the flux by
      `new / old`. The model's image `flux * data` is then unchanged, and a grid that totalled
      `1/C` totals `1/C'`. Norm and status are kept. */
  function EpsfRescaleCorrection(s: NormState, flux: real, c: real): (r: (NormState, real))
    requires s.correction != 0.0 && c != 0.0
    ensures r.0 == s.(correction := c, grid := r.0.grid)
    ensures r.1 * s.correction == flux * c
    ensures |r.0.grid| == |s.grid| && forall i :: 0 <= i < |s.grid| ==> |r.0.grid[i]| == |s.grid[i]|
    ensures GridSum(r.0.grid) * c == GridSum(s.grid) * s.correction
  {
    var k := s.correction / c;
    var f := RescaledFlux(flux, c, s.correction);
    GridSumScaled(s.grid, k);
    ScaledTotal(GridSum(Scaled(s.grid, k)), k, GridSum(s.grid), s.correction, c);
    (s.(correction := c, grid := Scaled(s.grid, k)), f)
  }

  /** The corrected setter keeps the modelled image `flux * data` pixel by pixel, so a model that
      fitted a target image still fits it. */
  lemma EpsfRescaleKeepsImage(s: NormState, flux: real, c: real)
    requires s.correction != 0.0 && c != 0.0
    ensures var r := EpsfRescaleCorrection(s, flux, c);
      forall i, j :: 0 <= i < |s.grid| && 0 <= j < |s.grid[i]| ==> r.1 * r.0.grid[i][j] == flux * s.grid[i][j]
  {
    var r := EpsfRescaleCorrection(s, flux, c);
    var k := s.correction / c;
    assert r.0.grid == Scaled(s.grid, k);
    RescaleKeepsImage(s.grid, r.1, flux, s.correction, c, k);
  }

  lemma RescaleKeepsImage(g: seq<seq<real>>, f: real, flux: real, a: real, c: real, k: real)
    requires a != 0.0 && c != 0.0 && f * a == flux * c && k == a / c
    ensures forall i, j :: 0 <= i < |g| && 0 <= j < |g[i]| ==> f * Scaled(g, k)[i][j] == flux * g[i][j]
  {
    forall i, j | 0 <= i < |g| && 0 <= j < |g[i]| ensures f * Scaled(g, k)[i][j] == flux * g[i][j] {
      ImageKept(f, flux, a, c, g[i][j]);
    }
  }

  /** If `f * a == flux * c` then `f * (a / c * v) == flux * v`. */
  lemma ImageKept(f: real, flux: real, a: real, c: real, v: real)
    requires a != 0.0 && c != 0.0 && f * a == flux * c
    ensures f * (a / c * v) == flux * v
  {
    calc {
      f * (a / c * v);
      (f * a) / c * v;
      (flux * c) / c * v;
      flux * v;
    }
  }

  lemma ScaledTotal(x: real, k: real, t: real, a: real, c: real)
    requires c != 0.0 && k == a / c && x == k * t
    ensures x * c == t * a
  {
    assert k * c == a;
  }

  /** A raw norm that is the grid's total per undersampled pixel (`raw * P == sum(data)`, with
      `P` samples to a pixel) leaves a normalized grid totalling `P/C`: `1/C` per undersampled
      pixel. */
  lemma EpsfNormalizedDataSum(s: NormState, raw: real, p: real)
    requires s.correction != 0.0 && s.imgNorm.None?
    requires p > 0.0 && raw * p == GridSum(s.grid) && raw != 0.0
    ensures var r := EpsfNormalize(s, true, raw);
      r.status == Performed && GridSum(r.grid) * s.correction == p
  {
    var r := EpsfNormalize(s, true, raw);
    assert r.imgNorm == Some(raw);
    var g := DividedByNorm(s.grid, raw, s.correction);
    assert r.grid == g;
    PerPixelTotal(GridSum(g), raw, s.correction, p, GridSum(s.grid));
  }

  lemma PerPixelTotal(x: real, n: real, c: real, p: real, t: real)
    requires n != 0.0 && x * n * c == t && n * p == t
    ensures x * c == p
  {
    assert (x * c) * n == p * n;
    CancelFactor(x * c, p, n);
  }

  /** When the aperture takes in the whole grid, `_compute_raw_image_norm` is the total per
      undersampled pixel, so the normalized ePSF grid sums to `1/C` per undersampled pixel, that
      is to `P/C` over its `P`-fold oversampled samples. */
  lemma EpsfCoveredGridSum(s: NormState, aperture: ApertureFlux, nx: nat, ny: nat, normRadius: real,
                           oversampling: (int, int))
    requires s.correction != 0.0 && s.imgNorm.None? && oversampling.0 > 0 && oversampling.1 > 0
    requires aperture(s.grid, nx as real / 2.0, ny as real / 2.0, ApertureRadius(normRadius, oversampling))
             == GridSum(s.grid)
    requires GridSum(s.grid) != 0.0
    ensures var r := EpsfNormalize(s, true, EpsfRawNorm(aperture, s.grid, nx, ny, normRadius, oversampling));
      r.status == Performed && GridSum(r.grid) * s.correction == (oversampling.0 * oversampling.1) as real
  {
    var raw := EpsfRawNorm(aperture, s.grid, nx, ny, normRadius, oversampling);
    EpsfNormalizedDataSum(s, raw, (oversampling.0 * oversampling.1) as real);
  }

  /** Eager normalization is not idempotent: a second call reuses the cached norm and divides the
      already divided grid once more. */
  lemma EpsfNormalizeTwice(s: NormState, raw: real, raw': real)
    requires s.correction != 0.0
    requires EpsfNormalize(s, true, raw).status == Performed
    ensures var once := EpsfNormalize(s, true, raw);
      EpsfNormalize(once, true, raw') == once.(grid := DividedByNorm(once.grid, once.imgNorm.value, s.correction))
  {
  }

  /** A zero-sum grid: when `flux` is given the zero-sum rule sets the norm to 1 and
      normalization succeeds. With no `flux` the aperture norm is cached first, so the zero-sum
      rule never applies: normalization fails, resetting the norm to 1, when the aperture flux is
      zero as well (an all-zero grid, say), and divides by the aperture norm otherwise. */
  lemma EpsfZeroSumGrid(grid: seq<seq<real>>, c: real, raw: real, f: real)
    requires c > 0.0 && GridSum(grid) == 0.0
    ensures var r := EpsfInitialNorm(InitialState(grid, c, true), Some(f), true, raw).0;
      r.status == Performed && r.imgNorm == Some(1.0) && r.grid == DividedByNorm(grid, 1.0, c)
    ensures raw == 0.0 ==> var r := EpsfInitialNorm(InitialState(grid, c, true), None, true, raw).0;
      r.status == Failed && r.imgNorm == Some(1.0) && r.grid == grid
    ensures raw != 0.0 ==> var r := EpsfInitialNorm(InitialState(grid, c, true), None, true, raw).0;
      r.status == Performed && r.imgNorm == Some(raw) && r.grid == DividedByNorm(grid, raw, c)
  {
  }

  /** A failed ePSF normalization is recovered by the next correction change: the reset norm 1
      is reused and the grid is divided by the new factor. */
  lemma EpsfCorrectionAfterFailure(s: NormState, flux: real, c: real, raw: real)
    requires s.correction != 0.0 && c != 0.0 && EpsfConsistent(s) && s.status == Failed
    ensures var r := EpsfSetCorrection(s, flux, c, raw).0;
      r.status == Performed && r.grid == DividedByNorm(s.grid, 1.0, c)
  {
  }
}
