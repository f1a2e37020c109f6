# Image-based PSF models of photutils, in Dafny

This project models the two image-based PSF models of `photutils.psf`:

- `FittableImageModel` keeps a 2-D grid of samples as it was given. It normalizes lazily: it caches the grid's total flux
  ("raw image norm") and computes the constant `N` so that `N * C * sum(data) == 1`, where `C` is the user's
  normalization correction.
- Its subclass `EPSFModel` (an effective PSF) normalizes eagerly. It measures the flux inside a circular aperture of
  the undersampled grid, divides the grid in place by `norm * C` and never changes `N`. It is also evaluated on the
  undersampled pixel grid.

The models follow the source's own form:

- The two classes are Dafny classes whose methods update their fields, as the Python setters and `_compute_*` helpers
  do.
- The `EPSFModel` grid is an `array2<real>` that its normalization divides in place.
- The default model never changes its grid after construction, so it holds the grid as a value.
- The logic the methods share is written as pure functions on values, in four modules:
  - `Normalization`: the normalization state machine of both classes.
  - `Geometry`: the origin setter and the map from output to grid coordinates.
  - `Interpolation`: degree parsing and the spline's sample axes.
  - `Grid`: sums and rescalings of a grid.
- Each method is proved against those functions. The functions' own properties are proved as lemmas:
  - in the default model, the normalized data of a normalized model totals `1/C`;
  - in the ePSF, when the aperture takes in the whole grid, the normalized grid totals `1/C` per undersampled pixel, that is `P/C` over its samples, where `P = oversampling[0] * oversampling[1]`;
  - in the default model a correction change keeps a good fit good, except after a failed normalization;
  - the cache makes re-normalization idempotent in the default model;
  - the ePSF divides its grid again on a second normalization;
  - with both default origins and oversampling on, the two classes mask the same output points.

Two behaviours of a failed or degenerate normalization are easy to miss:

- **Failed default normalization.** In the default class a failed normalization sets the constant to 1 and keeps the
  cached zero norm (`photutils/psf/image_models.py:224-226`). Only `EPSFModel` resets its norm to 1 (`:630-632`).
- **Zero-sum grid.** For `EPSFModel` with `flux` given, a zero-sum grid gets norm 1 and is normalized (`:622-623`).
  With `flux=None` the aperture norm is cached first, so the zero-sum rule does not apply. Normalization fails when
  the aperture flux is zero as well (an all-zero grid, say) and divides by the aperture norm otherwise.
  `Normalization.EpsfZeroSumGrid` states all three outcomes.

The inherited correction setter breaks its documented promises for an ePSF (see "## Findings"). The model keeps that
setter as written in `Normalization.EpsfSetCorrection`, and `EPSFModel.SetNormalizationCorrection` uses the corrected
behaviour.

Outside calls are parameters of the model:

- The spline is a record of the arguments `RectBivariateSpline` is built from. Its evaluation is a function
  `Surface` that `Evaluate` is given.
- The exact aperture photometry is a function `ApertureFlux` that an `EPSFModel` is built with.

## Model

| member | source | states |
|---|---|---|
| Grid.Values | photutils/psf/image_models.py:141-144 | the float copy of an all-finite input has its shape and holds each sample's value |
| Grid.Scaled | photutils/psf/image_models.py:256 | `k * data` has the grid's shape and `k` times each element |
| Grid.Divided | photutils/psf/image_models.py:628 | `data / d` has the grid's shape and each element divided by `d` |
| Grid.RowSumScaled | photutils/psf/image_models.py:184 | the sum of a scaled row is the row's sum times the factor (by induction) |
| Grid.GridSumOfRowSums | photutils/psf/image_models.py:184 | `np.sum(data)` is the sum of the row sums (by induction over the rows) |
| Grid.RowSumsScaled | photutils/psf/image_models.py:184 | each row sum of `k * data` is `k` times that row's sum |
| Grid.GridSumScaled | photutils/psf/image_models.py:184 | `np.sum(k * data) == k * np.sum(data)`, for every grid and factor |
| Grid.ScaledByOne | photutils/psf/image_models.py:225 | scaling by the fallback constant 1 leaves the grid unchanged |
| Grid.NonNegativeSum | photutils/psf/image_models.py:184 | `np.sum` of a non-negative grid is non-negative, and zero exactly when every element is zero (by induction over rows and elements) |
| Grid.GridSumDivided | photutils/psf/image_models.py:628 | dividing every element by `d` divides the total by `d` |
| Geometry.ResolveOrigin | photutils/psf/image_models.py:341-350 | the origin setter accepts exactly `None` (the default) or a 2-element iterable (stored as `(x, y)`); anything else is a `TypeError` |
| Geometry.FittableDefaultOrigin | photutils/psf/image_models.py:343-345 | the default origin is the midpoint of the pixel-index range on each axis |
| Geometry.EpsfDefaultOrigin | photutils/psf/image_models.py:651-653 | the ePSF default origin times that axis's oversampling factor is the default model's origin |
| Geometry.FittableToGrid | photutils/psf/image_models.py:490-500 | the feature position `x_0` maps to the origin |
| Geometry.FittableFromGridUndoes | photutils/psf/image_models.py:490-500 | for every nonzero factor `FittableFromGrid` undoes the map, which pins it to `factor * (x - x_0) + origin` |
| Geometry.EpsfToGrid | photutils/psf/image_models.py:748-749 | `x_0` maps to the origin, and `EpsfFromGrid` undoes the map |
| Geometry.FillDomainsAgree | photutils/psf/image_models.py:490-509 | with both default origins and oversampling on, the default model's grid coordinate is the ePSF's times the oversampling factor, and the two fill masks (`:508-509`, `:756-759`) select the same output points |
| Geometry.CentreInside | photutils/psf/image_models.py:343-345 | with the default origin, the feature position itself is never masked, in either class |
| Interpolation.Trunc | photutils/psf/image_models.py:441-445 | `int()` of a float truncates toward zero |
| Interpolation.ParseDegree | photutils/psf/image_models.py:438-451 | the degree is `(3, 3)` when absent, the truncated pair for a 2-element iterable and a `TypeError` for an iterable of another length; a negative degree is a `ValueError`, so an accepted one is never negative |
| Interpolation.NumberIsPair | photutils/psf/image_models.py:440-445 | a single number parses as the pair `(d, d)` |
| Interpolation.NumberDegreeAccepted | photutils/psf/image_models.py:444-448 | a single number is accepted exactly when it is above -1, and then gives the same degree on both axes |
| Interpolation.WholeDegreesKept | photutils/psf/image_models.py:440-442 | whole non-negative degrees are taken as given, on each axis separately |
| Interpolation.IndexAxis | photutils/psf/image_models.py:455-456 | `np.arange(n)` has `n` points and point `i` is `i` |
| Interpolation.UndersampledAxis | photutils/psf/image_models.py:719-720 | `np.arange(n) / o` has `n` points and point `i` times `o` is `i` |
| Interpolation.UnitOversamplingAxes | photutils/psf/image_models.py:719-720 | at oversampling 1 the ePSF axes are the default model's axes (`:455-456`) |
| Interpolation.Transposed | photutils/psf/image_models.py:458 | `data.T` swaps the two indices |
| Interpolation.BuildSpline | photutils/psf/image_models.py:438-459 | a spline is built exactly when the degree parses, with the parsed degrees, `s` defaulting to 0, the given axes and the transposed grid; otherwise the degree's error |
| Interpolation.FittableMaskIsAxisSpan | photutils/psf/image_models.py:508-509 | a point is unmasked exactly when it lies within the span of the sample axes `np.arange(nx)`, `np.arange(ny)` |
| Interpolation.EpsfMaskIsAxisSpan | photutils/psf/image_models.py:756-759 | a point is unmasked exactly when it lies within the span of the undersampled axes (`:719-720`) |
| Normalization.Status.Code | photutils/psf/image_models.py:265-277 | the status codes 0, 1, 2 stand for `Performed`, `Failed`, `NotRequested`, one each |
| Normalization.InitialState | photutils/psf/image_models.py:128-139 | construction starts with nothing cached, `N * C == 1`, and status `NotRequested` exactly when normalization is not asked for |
| Normalization.FittableNormalize | photutils/psf/image_models.py:212-232 | the raw norm is taken from the cache if there is one; the result keeps `N * C * norm == 1` when performed, `N == 1` with a zero norm when failed, `N * C == 1` when not requested; it fails exactly for a zero norm; grid and correction are unchanged |
| Normalization.FittableInitialNorm | photutils/psf/image_models.py:162-171 | without `flux` the raw norm is cached and becomes the flux, otherwise the flux is the one given; the normalized state is consistent |
| Normalization.RescaledFlux | photutils/psf/image_models.py:301 | `flux * (new / old)` times the old factor is `flux` times the new one |
| Normalization.FittableSetCorrection | photutils/psf/image_models.py:292-301 | the new correction is stored, normalization is redone with the same request, the state stays consistent, the cached norm is kept and the flux is rescaled by new/old |
| Normalization.FittableNormalizedDataSum | photutils/psf/image_models.py:256 | `N * data` totals `1/C` once normalized on the grid's own sum (`:215-216`), totals `sum(data)/C` when not requested, and is the raw data after a failure |
| Normalization.FittableNormalizeIdempotent | photutils/psf/image_models.py:217-218 | normalizing twice gives the state of normalizing once, whatever the raw norm would now be |
| Normalization.FittableNormalizeUsesCache | photutils/psf/image_models.py:217-218 | once a norm is cached, the result does not depend on the raw norm |
| Normalization.FittableCorrectionPreservesFit | photutils/psf/image_models.py:298-301 | after a correction change the image scale `flux * N` is unchanged, except after a failed normalization, where the flux alone is rescaled |
| Normalization.FittableFailureIsSticky | photutils/psf/image_models.py:296 | a failed default normalization stays failed across correction changes, since the cached zero norm is reused |
| Normalization.DividedByNorm | photutils/psf/image_models.py:628 | the grid divided by `norm * C` has total `sum(data) / (norm * C)` |
| Normalization.EpsfRawNorm | photutils/psf/image_models.py:598-609 | the ePSF raw norm is the aperture flux at `(nx/2, ny/2)` with radius `norm_radius * oversampling[0]`, divided by the product of the oversampling factors |
| Normalization.EpsfNormalize | photutils/psf/image_models.py:611-637 | with nothing cached a zero-sum grid gets norm 1 and any other grid the raw norm; a nonzero norm divides the grid by `norm * C` and is kept; a zero one fails, resets the norm to 1 and leaves the grid; fails exactly in that case; `N` and `C` never change |
| Normalization.EpsfInitialNorm | photutils/psf/image_models.py:585-596 | without `flux` the raw norm is cached and becomes the flux; without normalization the raw norm is stored again unconditionally; a norm is always cached afterwards |
| Normalization.EpsfSetCorrection | photutils/psf/image_models.py:292-301 | as written (see "## Findings"): the inherited setter running the ePSF normalization: the flux is rescaled by new/old; a consistent normalized model divides its grid again by the cached norm times the new factor and stays performed |
| Normalization.EpsfSetCorrectionBreaksPromises | photutils/psf/image_models.py:285-301 | for the ePSF built from the 2 x 2 grid of 0.5 (degree 1) with `C = 1`, setting `C' = 2` leaves a grid totalling `0.5/C'` instead of `1/C'` (`:644-645`); the stored `flux * data` halves and `evaluate`, whose spline is not rebuilt, doubles, so the fit is not kept (`:285-288`) |
| Normalization.EpsfRescaleCorrection | photutils/psf/image_models.py:285-301 | the corrected ePSF setter: the new factor is stored, norm and status are kept, the flux is rescaled by new/old, and `sum(data) * C` is unchanged, so a grid totalling `1/C` totals `1/C'` (`:644-645`) |
| Normalization.EpsfRescaleKeepsImage | photutils/psf/image_models.py:285-288 | the corrected setter keeps `flux * data` pixel by pixel, so a good fit stays a good fit |
| Normalization.EpsfNormalizedDataSum | photutils/psf/image_models.py:644-647 | for every `P > 0`, when the raw norm is the grid's total per `P` samples (`raw * P == sum(data)`), normalization is performed and the stored grid totals `P/C`, so `1/C` per undersampled pixel |
| Normalization.EpsfCoveredGridSum | photutils/psf/image_models.py:598-609 | when the aperture takes in the whole grid, the raw norm of `:609` is the total over `P = oversampling[0] * oversampling[1]` samples, so the normalized grid totals `P/C`, the `1/C` "accounting for under/oversampled pixels" of `:644-645` |
| Normalization.EpsfNormalizeTwice | photutils/psf/image_models.py:620-629 | a second eager normalization reuses the cached norm and divides the already divided grid again |
| Normalization.EpsfZeroSumGrid | photutils/psf/image_models.py:585-596 | for a zero-sum grid with normalization on, a given `flux` leads to norm 1 and a performed division (`:622-623`); `flux=None` caches the aperture norm first: when that is zero normalization fails and resets the norm to 1 (`:630-632`), otherwise the grid is divided by it |
| Normalization.EpsfCorrectionAfterFailure | photutils/psf/image_models.py:627-632 | after a failed ePSF normalization the next correction change reuses the reset norm 1 and divides the grid by the new factor |
| ImageModels.ConstructionError | photutils/psf/image_models.py:123-160 | `__init__` raises nothing exactly when oversampling and correction are positive, the data is finite and non-empty, the origin resolves and the degree parses; each error is reported exactly when its own check fails and every earlier check in source order passes (oversampling, correction, finiteness, size, origin, degree), and a degree error is the one `ParseDegree` gives |
| ImageModels.CopyValues | photutils/psf/image_models.py:141 | the copied float array is fresh, has the input's shape and holds its values |
| ImageModels.SplineAt | photutils/psf/image_models.py:503 | a new array holding the scale times the spline at each grid point, in order |
| ImageModels.MaskedSpline | photutils/psf/image_models.py:503-512 | each output is the fill value where one is set and the point is flagged, else the scale times the spline at the point; `Evaluate` of both classes ends in it |
| ImageModels.MaskInvalid | photutils/psf/image_models.py:510 | every flagged entry becomes the fill value and the others are unchanged |
| ImageModels.FittableImageModel.constructor | photutils/psf/image_models.py:123-160 | a constructed model is valid; its grid is the input's values; the origin is the resolved one; state and flux are `FittableInitialNorm` of the initial state; a warning is issued exactly on failure |
| ImageModels.FittableImageModel.Initialize | photutils/psf/image_models.py:152-160 | the `origin` setter, `_initial_norm` and `compute_interpolator` in that order leave a valid model whose origin is the resolved one, whose state and flux are `FittableInitialNorm` of the state before, and which has warned exactly on failure |
| ImageModels.FittableImageModel.Create | photutils/psf/image_models.py:123-160 | construction fails exactly when `ConstructionError` reports an error, with that error; otherwise a fresh valid model with everything the constructor states: the input's values as grid, the given oversampling, fill value, position and spline arguments, the resolved origin, `FittableInitialNorm` state and flux, and a warning exactly on failure |
| ImageModels.FittableImageModel.NonNegativeRawNorm | photutils/psf/image_models.py:173-184 | the raw norm of a non-negative image is non-negative and zero exactly when the image is blank, so a first requested normalization fails (`:220-226`) exactly on a blank image |
| ImageModels.FittableImageModel.SetOrigin | photutils/psf/image_models.py:341-350 | the origin becomes the resolved one, or stays and the `TypeError` is returned |
| ImageModels.FittableImageModel.SetFillValue | photutils/psf/image_models.py:377-379 | the fill value is replaced |
| ImageModels.FittableImageModel.ComputeNormalization | photutils/psf/image_models.py:212-232 | the new state is `FittableNormalize` of the old one; a warning is issued exactly on failure |
| ImageModels.FittableImageModel.InitialNorm | photutils/psf/image_models.py:162-171 | the new state and the returned flux are `FittableInitialNorm` of the old state |
| ImageModels.FittableImageModel.ComputeInterpolator | photutils/psf/image_models.py:438-461 | on a parsed degree the spline on the pixel indices and the arguments are stored; on a bad degree nothing changes and the error is returned |
| ImageModels.FittableImageModel.SetNormalizationCorrection | photutils/psf/image_models.py:292-301 | the model stays valid, state and flux are `FittableSetCorrection` of the old ones, and a warning is issued exactly on failure |
| ImageModels.FittableImageModel.NormalizedData | photutils/psf/image_models.py:256 | `N * data` has the grid's shape, totals `1/C` when normalized, `sum(data)/C` when not requested, and is the raw data after a failure |
| ImageModels.FittableImageModel.GridPoint | photutils/psf/image_models.py:490-500 | the feature position maps to the origin, and with `use_oversampling` off the map is the ePSF's plain shift (`:748-749`) |
| ImageModels.FittableImageModel.GridPointUndone | photutils/psf/image_models.py:490-500 | with `use_oversampling` on, `FittableFromGrid` with `oversampling[1]` on x and `oversampling[0]` on y gives the output point back, so the map multiplies by those factors |
| ImageModels.FittableImageModel.Evaluate | photutils/psf/image_models.py:490-512 | each output is the fill value where a fill value is set and the mapped point lies outside `[0, nx-1] x [0, ny-1]`, else `flux * N` times the spline at the mapped point |
| ImageModels.EPSFModel.constructor | photutils/psf/image_models.py:573-583 | with the ePSF defaults (`normalize=True`, `norm_radius=5.5`) and the base `__init__` (`:123-160`): the model is valid with a fresh grid; origin resolved with the ePSF default; state and flux are `EpsfInitialNorm` of the input's values; a warning is issued exactly when a requested normalization failed; the spline holds the transposed normalized grid |
| ImageModels.EPSFModel.Initialize | photutils/psf/image_models.py:152-160 | the same three steps on an ePSF leave a valid model with the origin resolved with the ePSF default, state and flux `EpsfInitialNorm` of the state before, a warning exactly when a requested normalization failed, and a spline on the transposed grid as divided |
| ImageModels.EPSFModel.Create | photutils/psf/image_models.py:573-583 | construction fails exactly when `ConstructionError` reports an error, with that error; otherwise a fresh valid model with its own grid and everything the constructor states: the given oversampling, fill value, norm radius, aperture, position and spline arguments, the origin resolved with the ePSF default, and `EpsfInitialNorm` state and flux of the input's values, with a warning exactly when a requested normalization failed |
| ImageModels.EPSFModel.SetOrigin | photutils/psf/image_models.py:649-658 | the origin becomes the one resolved with the ePSF default, or stays and the `TypeError` is returned |
| ImageModels.EPSFModel.SetFillValue | photutils/psf/image_models.py:377-379 | the fill value is replaced |
| ImageModels.EPSFModel.ScaleData | photutils/psf/image_models.py:285-301 | the grid becomes `Scaled` of the old grid by the factor, in place |
| ImageModels.EPSFModel.DivideData | photutils/psf/image_models.py:628 | the grid becomes `DividedByNorm` of the old grid, in place |
| ImageModels.EPSFModel.ComputeNormalization | photutils/psf/image_models.py:611-637 | the new state, grid included, is `EpsfNormalize` of the old one with the old raw norm; a warning is issued exactly on failure |
| ImageModels.EPSFModel.InitialNorm | photutils/psf/image_models.py:585-596 | the new state and the returned flux are `EpsfInitialNorm` of the old state |
| ImageModels.EPSFModel.ComputeInterpolator | photutils/psf/image_models.py:700-724 | on a parsed degree the spline on the undersampled axes and the current grid is stored with the arguments; on a bad degree nothing changes |
| ImageModels.EPSFModel.SetNormalizationCorrection | photutils/psf/image_models.py:285-301 | the corrected setter (see "## Findings"): the model stays valid with the spline rebuilt on the rescaled grid, and state and flux are `EpsfRescaleCorrection` of the old ones |
| ImageModels.EPSFModel.NormalizedData | photutils/psf/image_models.py:647 | the normalized data is the stored grid itself |
| ImageModels.EPSFModel.GridPoint | photutils/psf/image_models.py:748-749 | the feature position maps to the origin, and `EpsfFromGrid` undoes the shift |
| ImageModels.EPSFModel.Evaluate | photutils/psf/image_models.py:748-762 | each output is the fill value where a fill value is set and the shifted point lies outside `[0, (nx-1)/ox] x [0, (ny-1)/oy]`, else `flux` times the spline at the shifted point, with no constant and no oversampling factor |

## Left out

- Floating point: values are real numbers. The `np.isfinite` test of the norm (`:220`, `:627`) therefore reduces to the zero test, and overflow is not modelled.
- `RectBivariateSpline`: the spline is a record of its build arguments and its evaluation is a parameter. The library's own errors are not modelled, for instance too few points for the degree.
- Exact aperture photometry (`CircularAperture.do_photometry`) is a function parameter. The library's own errors are not modelled, for instance a non-positive radius from `norm_radius <= 0`. So the `Create` rows' "fails exactly when" holds up to the spline and photometry libraries' own errors.
- astropy's `Model` and `Parameter` machinery is left out: `__call__`, fitting, bounds. `flux`, `x_0` and `y_0` are plain fields, and `super().__init__` (`:157`) is their assignment.
- `as_pair` broadcasting of a scalar oversampling and its integer check are left out. The model takes a `(y, x)` pair of integers and checks only that both are positive.
- Input conversion by `np.array` of arbitrary nested sequences is left out. The input is a 2-D array of samples, either finite values or non-finite ones.
- Warnings are a ghost flag, `warned`.
- `copy.deepcopy` of the keyword arguments is left out. So are keyword arguments other than `degree` and `s`, and a `degree` that is neither absent, a number, nor an iterable, such as a string.
- Read-only properties (`data`, `oversampling`, `nx`, `ny`, `shape`, `origin`, `x_origin`, `y_origin`, `normalization_constant`, `normalization_status`, `interpolator_kwargs`) are the fields themselves.
- `evaluate` takes equal-length sequences of points. NumPy broadcasting of scalars and `astype(float)` are left out.
- ImageModels.FittableImageModel.SetNormalizationCorrection requires a nonzero factor. The source stores a zero factor and then raises `ZeroDivisionError` in `1.0 / 0`, a path not modelled.
- ImageModels.EPSFModel.SetNormalizationCorrection requires a nonzero factor. The ePSF's normalization never computes `1.0 / C`, so the source raises nothing for `C' = 0`: a normalized ePSF divides its grid by `norm * 0` (`:628`), giving inf or nan with a NumPy warning, an unnormalized one keeps its grid, and the flux becomes 0 (`:301`). The factor is documented as strictly positive (`:545-547`), the corrected setter divides by it, and inf and nan are outside a model on real numbers. It models the corrected setter of "## Findings"; the setter as written is `Normalization.EpsfSetCorrection`.
- Normalization.EpsfSetCorrection requires a nonzero factor for the same reasons: the zero factor's inf or nan grid and its flux of 0 are not modelled.
- `Grid.GridSum`, `Grid.AllFinite`, `Geometry.FittableOutside`, `Geometry.EpsfOutside`, `Normalization.ApertureRadius`, `ImageModels.FittableImageModel.RawImageNorm` and `ImageModels.EPSFModel.RawImageNorm` have no rows of their own. They are definitions: `np.sum`, the `isfinite` test, the two `invalid` masks, the aperture radius `norm_radius * oversampling[0]`, `np.sum` of the current grid (`:173-184`) and `EpsfRawNorm` of the current grid. Their properties are stated by the rows of `Grid.NonNegativeSum`, `Grid.GridSumScaled`, `ImageModels.ConstructionError`, `Interpolation.FittableMaskIsAxisSpan`, `Interpolation.EpsfMaskIsAxisSpan`, `Geometry.FillDomainsAgree`, the two `Evaluate` methods, `Normalization.EpsfRawNorm`, `ImageModels.FittableImageModel.NonNegativeRawNorm` and `Normalization.FittableNormalize`.
- `photutils/psf/simulation.py` is not part of this model.

## Findings

| source | as written | input that shows it | evidently intended | confidence | as-written member | corrected member |
|---|---|---|---|---|---|---|
| photutils/psf/image_models.py:292-301 | the setter inherited by `EPSFModel` re-runs the ePSF `_compute_normalization`, which divides the already normalized grid again by `norm * C'` (`:628`). It rescales `flux` by `C'/C` and leaves the interpolator built on the old grid. | the 2 x 2 grid of 0.5 with `degree=1`, `C = 1`, aperture flux 2 and `flux = 1`, then `normalization_correction = 2`: the grid goes from 0.25 to 0.0625 everywhere (total 0.5/C' instead of 1/C') and `flux` becomes 2, so the stored `flux * data` halves while `evaluate`, still on the old spline, doubles | the documented promises: a good fit stays a good fit (`:285-288`), and the grid sums to `1/C` (`:644-645`). So the grid should be rescaled by `C/C'` and the spline rebuilt. | medium, not executed | Normalization.EpsfSetCorrectionBreaksPromises | Normalization.EpsfRescaleCorrection |
