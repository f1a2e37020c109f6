/** Where an image model's grid sits in the output coordinate system: the origin setter and its
    two defaults, the map from output coordinates to grid coordinates that `evaluate` applies,
    and the test that decides which evaluated points receive the fill value.

    Grid coordinates are pixel indices of the stored array in the default model and
    undersampled pixels (index / oversampling) in `EPSFModel`. */
module Geometry {
  import opened Wrappers

  /** The value assigned to `origin`: `None`, an iterable, or something that is not iterable. */
  datatype OriginArg = Unset | OriginItems(items: seq<real>) | NotIterable

  /** The `origin` setter, given the default the class substitutes for `None`: an iterable of
      exactly two elements is stored as `(x_origin, y_origin)`, anything else is a `TypeError`. */
  function ResolveOrigin(arg: OriginArg, default: (real, real)): (r: Result<(real, real), Error>)
    ensures r.Success? <==> arg.Unset? || (arg.OriginItems? && |arg.items| == 2)
    ensures r.Failure? ==> r.error == BadOrigin && r.error.Raised() == TypeError
    ensures arg.Unset? ==> r == Success(default)
    ensures arg.OriginItems? && |arg.items| == 2 ==> r == Success((arg.items[0], arg.items[1]))
  {
    match arg
    case Unset => Success(default)
    case OriginItems(xs) => if |xs| == 2 then Success((xs[0], xs[1])) else Failure(BadOrigin)
    case NotIterable => Failure(BadOrigin)
  }

  /** `FittableImageModel`'s default origin, `((nx - 1) / 2, (ny - 1) / 2)`: the centre of the
      index range on each axis. */
  function FittableDefaultOrigin(nx: nat, ny: nat): (o: (real, real))
    ensures 2.0 * o.0 == (nx - 1) as real
    ensures 2.0 * o.1 == (ny - 1) as real
  {
    (((nx - 1) as real) / 2.0, ((ny - 1) as real) / 2.0)
  }

  /** `EPSFModel`'s default origin: the default model's origin divided by the oversampling factor
      of the same axis (`oversampling` is `(oy, ox)`), i.e. the centre of the undersampled range. */
  function EpsfDefaultOrigin(nx: nat, ny: nat, oversampling: (int, int)): (o: (real, real))
    requires oversampling.0 > 0 && oversampling.1 > 0
    ensures o.0 * oversampling.1 as real == FittableDefaultOrigin(nx, ny).0
    ensures o.1 * oversampling.0 as real == FittableDefaultOrigin(nx, ny).1
  {
    (((nx - 1) as real) / 2.0 / oversampling.1 as real, ((ny - 1) as real) / 2.0 / oversampling.0 as real)
  }

  /** One axis of the default model's coordinate map: `factor * (x - x_0) + origin`, where the
      factor is that axis's oversampling, or 1 when `use_oversampling` is off. The feature position
      `x_0` lands on the origin; `FittableFromGridUndoes` proves that `FittableFromGrid` undoes
      the map. */
  function FittableToGrid(x: real, x0: real, factor: real, origin: real): (xi: real)
    ensures x == x0 ==> xi == origin
  {
    factor * (x - x0) + origin
  }

  /** For every nonzero factor, `FittableFromGrid` gives back the output coordinate that
      `FittableToGrid` mapped. */
  lemma FittableFromGridUndoes(x: real, x0: real, factor: real, origin: real)
    requires factor != 0.0
    ensures FittableFromGrid(FittableToGrid(x, x0, factor, origin), x0, factor, origin) == x
  {
    assert (factor * (x - x0)) / factor == x - x0;
  }

  /** The output coordinate whose grid coordinate is `xi`. */
  function FittableFromGrid(xi: real, x0: real, factor: real, origin: real): (x: real)
    requires factor != 0.0
  {
    (xi - origin) / factor + x0
  }

  /** One axis of `EPSFModel`'s coordinate map: `x - x_0 + origin`, with no oversampling factor.
      `x_0` lands on the origin, and `EpsfFromGrid` undoes the map. */
  function EpsfToGrid(x: real, x0: real, origin: real): (xi: real)
    ensures x == x0 ==> xi == origin
    ensures EpsfFromGrid(xi, x0, origin) == x
  {
    x - x0 + origin
  }

  /** The output coordinate whose undersampled grid coordinate is `xi`. */
  function EpsfFromGrid(xi: real, x0: real, origin: real): real {
    xi - origin + x0
  }

  /** The mask of the default model's `evaluate`: a grid coordinate outside `[0, nx - 1]` or
      outside `[0, ny - 1]`. */
  predicate FittableOutside(xi: real, yi: real, nx: nat, ny: nat) {
    xi < 0.0 || xi > (nx - 1) as real || yi < 0.0 || yi > (ny - 1) as real
  }

  /** The mask of `EPSFModel.evaluate`: outside `[0, (nx - 1) / ox]` or `[0, (ny - 1) / oy]`. */
  predicate EpsfOutside(xi: real, yi: real, nx: nat, ny: nat, oversampling: (int, int))
    requires oversampling.0 > 0 && oversampling.1 > 0
  {
    || xi < 0.0 || xi > (nx - 1) as real / oversampling.1 as real
    || yi < 0.0 || yi > (ny - 1) as real / oversampling.0 as real
  }

  lemma ScaleBound(v: real, k: real, b: real)
    requires k > 0.0
    ensures (k * v > b) <==> (v > b / k)
    ensures (k * v < 0.0) <==> (v < 0.0)
  {
    assert b / k * k == b;
    if k * v > b {
      assert v > b / k;
    }
    if v > b / k {
      assert k * v > k * (b / k);
    }
  }

  /** One axis of `FillDomainsAgree`: when the ePSF origin `e` times the factor is the default
      model's origin `d`, the default map is the ePSF shift scaled by the factor, and the bound
      `b` cuts the same points as `b / factor` does on the ePSF side. */
  lemma AxisAgree(x: real, x0: real, factor: real, e: real, d: real, b: real)
    requires factor > 0.0 && e * factor == d
    ensures FittableToGrid(x, x0, factor, d) == factor * EpsfToGrid(x, x0, e)
    ensures var xf, xe := FittableToGrid(x, x0, factor, d), EpsfToGrid(x, x0, e);
      (xf < 0.0 || xf > b) <==> (xe < 0.0 || xe > b / factor)
  {
    var xe := EpsfToGrid(x, x0, e);
    assert factor * xe == factor * (x - x0) + factor * e;
    ScaleBound(xe, factor, b);
  }

  /** With both default origins and oversampling on, the two classes mask the same output points:
      the default model's grid coordinate is the ePSF's scaled by the oversampling factor, so the
      pixel bounds `[0, n - 1]` and the undersampled bounds `[0, (n - 1) / o]` cut the same set. */
  lemma FillDomainsAgree(nx: nat, ny: nat, oversampling: (int, int), x: real, y: real, x0: real, y0: real)
    requires oversampling.0 > 0 && oversampling.1 > 0
    ensures var ox, oy := oversampling.1 as real, oversampling.0 as real;
      var xf := FittableToGrid(x, x0, ox, FittableDefaultOrigin(nx, ny).0);
      var yf := FittableToGrid(y, y0, oy, FittableDefaultOrigin(nx, ny).1);
      var xe := EpsfToGrid(x, x0, EpsfDefaultOrigin(nx, ny, oversampling).0);
      var ye := EpsfToGrid(y, y0, EpsfDefaultOrigin(nx, ny, oversampling).1);
      && xf == ox * xe && yf == oy * ye
      && (FittableOutside(xf, yf, nx, ny) <==> EpsfOutside(xe, ye, nx, ny, oversampling))
  {
    var ox, oy := oversampling.1 as real, oversampling.0 as real;
    var e := EpsfDefaultOrigin(nx, ny, oversampling);
    var d := FittableDefaultOrigin(nx, ny);
    AxisAgree(x, x0, ox, e.0, d.0, (nx - 1) as real);
    AxisAgree(y, y0, oy, e.1, d.1, (ny - 1) as real);
  }

  /** A feature placed at `(x_0, y_0)` with the default origin is evaluated at the centre of the
      grid, which is never masked. */
  lemma CentreInside(nx: nat, ny: nat, oversampling: (int, int), x0: real, y0: real, factor: real)
    requires nx >= 1 && ny >= 1 && oversampling.0 > 0 && oversampling.1 > 0
    ensures var o := FittableDefaultOrigin(nx, ny);
      !FittableOutside(FittableToGrid(x0, x0, factor, o.0), FittableToGrid(y0, y0, factor, o.1), nx, ny)
    ensures var o := EpsfDefaultOrigin(nx, ny, oversampling);
      !EpsfOutside(EpsfToGrid(x0, x0, o.0), EpsfToGrid(y0, y0, o.1), nx, ny, oversampling)
  {
    var o := EpsfDefaultOrigin(nx, ny, oversampling);
    var ox, oy := oversampling.1 as real, oversampling.0 as real;
    ScaleBound(o.0, ox, (nx - 1) as real);
    ScaleBound(o.1, oy, (ny - 1) as real);
  }
}
