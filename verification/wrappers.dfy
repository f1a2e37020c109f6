/** Option and Result, and the errors the image models raise. */
module Wrappers {

  datatype Option<+T> = None | Some(value: T) {
    function GetOr(default: T): T {
      match this
      case Some(v) => v
      case None => default
    }
  }

  datatype Result<+R, +E> = Success(value: R) | Failure(error: E)

  /** The Python exception class an error is raised as. */
  datatype ExceptionClass = ValueError | TypeError

  /** Every error the constructors, the origin setter and `compute_interpolator` raise. */
  datatype Error =
    | BadOversampling        // `as_pair('oversampling', ..., lower_bound=(0, 1))`: a factor is not > 0
    | NonPositiveCorrection  // `normalization_correction <= 0`
    | NonFiniteData          // some element of `data` is NaN or infinite
    | EmptyData              // `data.size < 1`
    | BadOrigin              // origin neither None nor an iterable of two elements
    | NegativeDegree         // a spline degree below zero after `int()`
    | DegreeNotNumber        // `int()` applied to an iterable degree whose length is not 2
  {
    function Raised(): ExceptionClass {
      match this
      case BadOrigin | DegreeNotNumber => TypeError
      case _ => ValueError
    }
  }
}
