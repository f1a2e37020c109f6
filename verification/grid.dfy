/** The sample grid of an image model: a rectangular array of pixel values in (y, x) order,
    its total flux and the two element-wise rescalings the models apply to it. */
module Grid {

  /** One element of the input `data` before `np.isfinite` is applied to it: a finite
      floating-point value, taken as a real number, or a NaN or an infinity. */
  datatype Sample = Finite(value: real) | NonFinite

  /** The contents of a two-dimensional array as a sequence of rows. */
  function Snapshot<T>(a: array2<T>): (g: seq<seq<T>>)
    reads a
    ensures |g| == a.Length0
    ensures forall i :: 0 <= i < |g| ==> |g[i]| == a.Length1
  {
    seq(a.Length0, i requires 0 <= i < a.Length0 reads a =>
      seq(a.Length1, j requires 0 <= j < a.Length1 reads a => a[i, j]))
  }

  /** `np.all(np.isfinite(data))` */
  predicate AllFinite(g: seq<seq<Sample>>) {
    forall i, j :: 0 <= i < |g| && 0 <= j < |g[i]| ==> g[i][j].Finite?
  }

  /** The float array `np.array(data, dtype=float)` of an all-finite input. */
  function Values(g: seq<seq<Sample>>): (r: seq<seq<real>>)
    requires AllFinite(g)
    ensures |r| == |g|
    ensures forall i :: 0 <= i < |g| ==> |r[i]| == |g[i]|
    ensures forall i, j :: 0 <= i < |g| && 0 <= j < |g[i]| ==> g[i][j] == Finite(r[i][j])
  {
    seq(|g|, i requires 0 <= i < |g| => seq(|g[i]|, j requires 0 <= j < |g[i]| => g[i][j].value))
  }

  function RowSum(r: seq<real>): real {
    if r == [] then 0.0 else r[0] + RowSum(r[1..])
  }

  /** `np.sum(data)`: the sum of every element of the grid. */
  function GridSum(g: seq<seq<real>>): real {
    if g == [] then 0.0 else RowSum(g[0]) + GridSum(g[1..])
  }

  /** Every element is at least zero. */
  predicate NonNegative(g: seq<seq<real>>) {
    forall i, j :: 0 <= i < |g| && 0 <= j < |g[i]| ==> g[i][j] >= 0.0
  }

  /** Every element is zero. */
  predicate Blank(g: seq<seq<real>>) {
    forall i, j :: 0 <= i < |g| && 0 <= j < |g[i]| ==> g[i][j] == 0.0
  }

  lemma {:induction false} NonNegativeRowSum(r: seq<real>)
    requires forall j :: 0 <= j < |r| ==> r[j] >= 0.0
    ensures RowSum(r) >= 0.0
    ensures RowSum(r) == 0.0 <==> forall j :: 0 <= j < |r| ==> r[j] == 0.0
  {
    if r != [] {
      NonNegativeRowSum(r[1..]);
      assert forall j :: 0 <= j < |r| - 1 ==> r[1..][j] == r[j + 1];
      if RowSum(r) == 0.0 {
        forall j | 0 <= j < |r| ensures r[j] == 0.0 {
          if j > 0 {
            assert r[j] == r[1..][j - 1];
          }
        }
      }
    }
  }

  /** The total of a non-negative grid is non-negative, and zero exactly when every element is zero:
      such an image fails to normalize only when it is blank. */
  lemma {:induction false} NonNegativeSum(g: seq<seq<real>>)
    requires NonNegative(g)
    ensures GridSum(g) >= 0.0
    ensures GridSum(g) == 0.0 <==> Blank(g)
  {
    if g != [] {
      NonNegativeRowSum(g[0]);
      assert forall i :: 0 <= i < |g| - 1 ==> g[1..][i] == g[i + 1];
      NonNegativeSum(g[1..]);
      if GridSum(g) == 0.0 {
        forall i, j | 0 <= i < |g| && 0 <= j < |g[i]| ensures g[i][j] == 0.0 {
          if i > 0 {
            assert g[i] == g[1..][i - 1];
          }
        }
      }
    }
  }

  function ScaledRow(r: seq<real>, k: real): (s: seq<real>)
    ensures |s| == |r| && forall j :: 0 <= j < |r| ==> s[j] == k * r[j]
  {
    seq(|r|, j requires 0 <= j < |r| => k * r[j])
  }

  /** `k * data`, a new grid. */
  function Scaled(g: seq<seq<real>>, k: real): (s: seq<seq<real>>)
    ensures |s| == |g| && forall i :: 0 <= i < |g| ==> s[i] == ScaledRow(g[i], k)
  {
    seq(|g|, i requires 0 <= i < |g| => ScaledRow(g[i], k))
  }

  /** `data / d`, element by element. */
  function Divided(g: seq<seq<real>>, d: real): (s: seq<seq<real>>)
    requires d != 0.0
    ensures |s| == |g|
    ensures forall i :: 0 <= i < |g| ==> |s[i]| == |g[i]|
    ensures forall i, j :: 0 <= i < |g| && 0 <= j < |g[i]| ==> s[i][j] == g[i][j] / d
  {
    seq(|g|, i requires 0 <= i < |g| => seq(|g[i]|, j requires 0 <= j < |g[i]| => g[i][j] / d))
  }

  lemma ScaledRowTail(r: seq<real>, k: real)
    requires r != []
    ensures ScaledRow(r, k)[1..] == ScaledRow(r[1..], k)
  {
    var s := ScaledRow(r, k);
    forall j | 0 <= j < |r| - 1 ensures s[1..][j] == ScaledRow(r[1..], k)[j] {
      assert s[1..][j] == s[j + 1];
    }
  }

  lemma Distribute(k: real, a: real, b: real)
    ensures k * a + k * b == k * (a + b)
  {
  }

  lemma {:induction false} RowSumScaled(r: seq<real>, k: real)
    ensures RowSum(ScaledRow(r, k)) == k * RowSum(r)
  {
    if r != [] {
      var s := ScaledRow(r, k);
      ScaledRowTail(r, k);
      RowSumScaled(r[1..], k);
      assert RowSum(s) == s[0] + RowSum(ScaledRow(r[1..], k));
      Distribute(k, r[0], RowSum(r[1..]));
    }
  }

  /** The sum of each row, in row order. */
  function RowSums(g: seq<seq<real>>): (r: seq<real>)
    ensures |r| == |g| && forall i :: 0 <= i < |g| ==> r[i] == RowSum(g[i])
  {
    seq(|g|, i requires 0 <= i < |g| => RowSum(g[i]))
  }

  /** The total is the sum of the row sums. */
  lemma {:induction false} GridSumOfRowSums(g: seq<seq<real>>)
    ensures GridSum(g) == RowSum(RowSums(g))
  {
    if g != [] {
      assert RowSums(g)[1..] == RowSums(g[1..]);
      GridSumOfRowSums(g[1..]);
    }
  }

  /** Scaling every element scales the total: the sum of `k * data` is `k * sum(data)`. */
  lemma GridSumScaled(g: seq<seq<real>>, k: real)
    ensures GridSum(Scaled(g, k)) == k * GridSum(g)
  {
    var s := Scaled(g, k);
    RowSumsScaled(g, k);
    GridSumOfRowSums(s);
    GridSumOfRowSums(g);
    RowSumScaled(RowSums(g), k);
    var t, u, v := GridSum(s), GridSum(g), RowSum(RowSums(g));
    assert t == k * v && u == v;
    SameFactor(t, u, v, k);
  }

  /** The row sums of `k * data` are `k` times the row sums of `data`. */
  lemma RowSumsScaled(g: seq<seq<real>>, k: real)
    ensures RowSums(Scaled(g, k)) == ScaledRow(RowSums(g), k)
  {
    var s := Scaled(g, k);
    forall i | 0 <= i < |g| ensures RowSums(s)[i] == ScaledRow(RowSums(g), k)[i] {
      RowSumScaled(g[i], k);
    }
  }

  lemma SameFactor(t: real, u: real, v: real, k: real)
    requires t == k * v && u == v
    ensures t == k * u
  {
  }

  /** Scaling by one leaves the grid as it is. */
  lemma ScaledByOne(g: seq<seq<real>>)
    ensures Scaled(g, 1.0) == g
  {
    forall i | 0 <= i < |g| ensures Scaled(g, 1.0)[i] == g[i] {
      assert ScaledRow(g[i], 1.0) == g[i];
    }
  }

  /** Dividing in place by `d` divides the total by `d`. */
  lemma GridSumDivided(g: seq<seq<real>>, d: real)
    requires d != 0.0
    ensures GridSum(Divided(g, d)) == GridSum(g) / d
  {
    var s := Scaled(g, 1.0 / d);
    forall i | 0 <= i < |g| ensures Divided(g, d)[i] == s[i] {
      forall j | 0 <= j < |g[i]| ensures Divided(g, d)[i][j] == s[i][j] {
        assert g[i][j] / d == (1.0 / d) * g[i][j];
      }
    }
    assert Divided(g, d) == s;
    GridSumScaled(g, 1.0 / d);
  }
}
