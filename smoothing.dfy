/**
 * The index logic of utilities.smooth_gaussian: the grid spacing and the
 * guard on sigma, the kernel length, the tiling of a signal shorter than the
 * kernel into an odd number of copies, and the crop back onto the middle copy.
 * The kernel values, their normalisation and the FFT convolution are not
 * modelled: the convolution is a parameter that receives the signal and the
 * kernel length.
 */
module Smoothing {
  import opened Wrappers
  import opened Arithmetic
  import opened PySeq

  /** The exceptions smooth_gaussian can end in. */
  datatype SmoothError =
    | DegenerateGrid   // fewer than two x values: np.amax of nothing, or a 0/0 spacing
    | SigmaTooSmall    // the ValueError raised by the guard
    | ZeroSpacing      // all x equal with a nonzero sigma: np.arange with step 0
    | EmptyKernel      // integrate.simps of the empty kernel a negative sigma gives: IndexError
    | EmptySignal      // len(kernel) / len(y) with an empty y

  function Abs(r: real): real { if r < 0.0 then -r else r }

  function Max(s: seq<real>): (m: real)
    requires |s| >= 1
    ensures m in s && forall i :: 0 <= i < |s| ==> s[i] <= m
  {
    if |s| == 1 then s[0] else var m := Max(s[1..]); if s[0] >= m then s[0] else m
  }

  function Min(s: seq<real>): (m: real)
    requires |s| >= 1
    ensures m in s && forall i :: 0 <= i < |s| ==> m <= s[i]
  {
    if |s| == 1 then s[0] else var m := Min(s[1..]); if s[0] <= m then s[0] else m
  }

  /** dx = (max x - min x) / (len x - 1) */
  function Spacing(x: seq<real>): (dx: real)
    requires |x| >= 2
    ensures dx >= 0.0
  {
    (Max(x) - Min(x)) / ((|x| - 1) as real)
  }

  /** The smallest integer at least r (np.ceil). */
  function Ceil(r: real): (c: int)
    ensures c as real >= r && (c - 1) as real < r
  {
    if r == r.Floor as real then r.Floor else r.Floor + 1
  }

  /** len(np.arange(-6 sigma, 6 sigma, dx)): ceil(12 sigma / dx) points, none when that is negative. */
  function KernelLength(sigma: real, dx: real): nat
    requires dx > 0.0
  {
    var c := Ceil(12.0 * sigma / dx);
    if c < 0 then 0 else c
  }

  /** num_rep: ceil(len(kernel) / len(y)), made odd by adding one. */
  function TileCount(k: nat, l: nat): nat
    requires l >= 1
  {
    var r := (k + l - 1) / l;
    if r % 2 == 0 then r + 1 else r
  }

  /** np.tile(y, r): r copies of y one after the other. */
  function Tile<T>(y: seq<T>, r: nat): seq<T>
  {
    if r == 0 then [] else y + Tile(y, r - 1)
  }

  /** The start of the crop, len(y) * (num_rep - 1) // 2. */
  function CropStart(l: nat, r: nat): int
  {
    l * (r - 1) / 2
  }

  /** smooth_gaussian(x, y, sigma), with the "same"-mode convolution as a parameter. */
  function SmoothGaussian(x: seq<real>, y: seq<real>, sigma: real,
                          convolve: (seq<real>, nat) -> seq<real>): Result<seq<real>, SmoothError>
  {
    if |x| < 2 then Failure(DegenerateGrid)
    else
      var dx := Spacing(x);
      if Abs(6.0 * sigma) <= dx then Failure(SigmaTooSmall)
      else if dx == 0.0 then Failure(ZeroSpacing)
      else
        var k := KernelLength(sigma, dx);
        if k == 0 then Failure(EmptyKernel)
        else if k > |y| then
          if |y| == 0 then Failure(EmptySignal)
          else
            var r := TileCount(k, |y|);
            var start := CropStart(|y|, r);
            Success(PySlice(convolve(Tile(y, r), k), start, start + |y|))
        else
          Success(convolve(y, k))
  }

  /** The convolution keeps the length of the signal whenever the kernel is not empty. */
  ghost predicate SameMode(convolve: (seq<real>, nat) -> seq<real>)
  {
    forall s, k :: k >= 1 ==> |convolve(s, k)| == |s|
  }

  // ---------------------------------------------------------------------------
  // Properties

  /** The guard raises exactly when |6 sigma| <= dx. */
  lemma GuardRaisesExactly(x: seq<real>, y: seq<real>, sigma: real, convolve: (seq<real>, nat) -> seq<real>)
    requires |x| >= 2
    ensures SmoothGaussian(x, y, sigma, convolve) == Failure(SigmaTooSmall) <==> Abs(6.0 * sigma) <= Spacing(x)
  {
  }

  /** A positive sigma that passes the guard gives a kernel of at least three points. */
  lemma KernelAtLeastThree(sigma: real, dx: real)
    requires dx > 0.0 && sigma > 0.0 && 6.0 * sigma > dx
    ensures KernelLength(sigma, dx) >= 3
  {
    QuotientAboveTwo(12.0 * sigma, dx);
  }

  lemma QuotientAboveTwo(a: real, d: real)
    requires d > 0.0 && a > 2.0 * d
    ensures a / d > 2.0
  {
    var q := a / d;
    assert q * d == a;
    assert q * d - 2.0 * d > 0.0;
    assert (q - 2.0) * d == q * d - 2.0 * d;
  }

  /** A negative sigma that passes the guard gives an empty kernel: arange counts down from a larger start. */
  lemma NegativeSigmaEmptyKernel(sigma: real, dx: real)
    requires dx > 0.0 && sigma < 0.0
    ensures KernelLength(sigma, dx) == 0
  {
    assert 12.0 * sigma / dx < 0.0;
  }

  /**
   * A negative sigma that passes the guard ends in the IndexError of
   * integrate.simps on the empty kernel.
   */
  lemma NegativeSigmaRaises(x: seq<real>, y: seq<real>, sigma: real, convolve: (seq<real>, nat) -> seq<real>)
    requires |x| >= 2 && sigma < 0.0 && Abs(6.0 * sigma) > Spacing(x) > 0.0
    ensures SmoothGaussian(x, y, sigma, convolve) == Failure(EmptyKernel)
  {
    NegativeSigmaEmptyKernel(sigma, Spacing(x));
  }

  /** A smoothing that goes through had a positive sigma, a spaced grid and a kernel of at least three points. */
  lemma SuccessNeedsPositiveSigma(x: seq<real>, y: seq<real>, sigma: real, convolve: (seq<real>, nat) -> seq<real>)
    requires SmoothGaussian(x, y, sigma, convolve).Success?
    ensures |x| >= 2 && Spacing(x) > 0.0 && sigma > 0.0 && 6.0 * sigma > Spacing(x)
    ensures KernelLength(sigma, Spacing(x)) >= 3
  {
    if sigma < 0.0 {
      NegativeSigmaEmptyKernel(sigma, Spacing(x));
      assert false;
    }
    KernelAtLeastThree(sigma, Spacing(x));
  }

  /** The tile count is odd, at least three, and its copies cover the kernel. */
  lemma TileCountShape(k: nat, l: nat)
    requires l >= 1 && k > l
    ensures TileCount(k, l) % 2 == 1
    ensures TileCount(k, l) >= 3
    ensures TileCount(k, l) * l >= k
  {
    var c := (k + l - 1) / l;
    DivBounds(k + l - 1, l);
    assert l * c + l > k + l - 1 >= l * c;
    assert l * c >= k by {
      assert l * c + l >= k + l;
    }
    assert 1 * l < c * l;
    MulStrict(1, c, l);
    var r := TileCount(k, l);
    assert r >= c;
    assert r * l >= c * l;
  }

  lemma {:induction false} TileLength<T>(y: seq<T>, r: nat)
    ensures |Tile(y, r)| == r * |y|
  {
    if r > 0 {
      TileLength(y, r - 1);
      assert (r - 1) * |y| + |y| == r * |y|;
    }
  }

  /** The tiled signal repeats y: _y[i] == y[i mod len(y)]. */
  lemma {:induction false} TileAt<T>(y: seq<T>, r: nat, i: nat)
    requires |y| >= 1 && i < r * |y|
    ensures |Tile(y, r)| == r * |y| && Tile(y, r)[i] == y[i % |y|]
  {
    TileLength(y, r);
    if i >= |y| {
      assert 1 * |y| < r * |y|;
      MulStrict(1, r, |y|);
      assert i - |y| < (r - 1) * |y|;
      TileAt(y, r - 1, i - |y|);
      ModSubDivisor(i, |y|);
    }
  }

  lemma {:induction false} TileAppend<T>(y: seq<T>, a: nat, b: nat)
    ensures Tile(y, a + b) == Tile(y, a) + Tile(y, b)
  {
    if a > 0 {
      TileAppend(y, a - 1, b);
      assert a - 1 + b == a + b - 1;
    }
  }

  /**
   * For an odd tile count the crop start is a whole number of copies, with as
   * many copies after the window as before it, and the window is one copy of y.
   */
  lemma CropIsMiddleCopy<T>(y: seq<T>, r: nat)
    requires |y| >= 1 && r % 2 == 1
    ensures CropStart(|y|, r) == ((r - 1) / 2) * |y|
    ensures CropStart(|y|, r) % |y| == 0
    ensures CropStart(|y|, r) + |y| + ((r - 1) / 2) * |y| == r * |y|
    ensures PySlice(Tile(y, r), CropStart(|y|, r), CropStart(|y|, r) + |y|) == y
  {
    var h := (r - 1) / 2;
    var l := |y|;
    CropStartHalf(l, r);
    TileMiddle(y, h);
    assert 2 * h + 1 == r;
    SliceMiddle(Tile(y, h), y, Tile(y, h));
  }

  lemma SliceMiddle<T>(a: seq<T>, y: seq<T>, c: seq<T>)
    ensures |a| + |y| <= |a + y + c|
    ensures (a + y + c)[|a|..|a| + |y|] == y
  {
  }

  /** The arithmetic of the crop start for an odd tile count. */
  lemma CropStartHalf(l: nat, r: nat)
    requires l >= 1 && r % 2 == 1
    ensures CropStart(l, r) == ((r - 1) / 2) * l
    ensures CropStart(l, r) % l == 0
    ensures CropStart(l, r) + l + ((r - 1) / 2) * l == r * l
  {
    var h := (r - 1) / 2;
    assert r - 1 == 2 * h;
    assert l * (r - 1) == 2 * (h * l);
    DivUnique(l * (r - 1), 2, h * l, 0);
    DivUnique(h * l, l, h, 0);
    assert 2 * (h * l) + l == r * l;
  }

  /** An odd number of copies is h copies, one more, and h again. */
  lemma TileMiddle<T>(y: seq<T>, h: nat)
    ensures Tile(y, 2 * h + 1) == Tile(y, h) + y + Tile(y, h)
    ensures |Tile(y, h)| == h * |y|
  {
    TileAppend(y, h, 1 + h);
    TileAppend(y, 1, h);
    assert Tile(y, 1) == y + Tile(y, 0);
    TileLength(y, h);
  }

  /** With a "same"-mode convolution every successful result has len(y) values. */
  lemma ResultLength(x: seq<real>, y: seq<real>, sigma: real, convolve: (seq<real>, nat) -> seq<real>)
    requires SameMode(convolve)
    requires SmoothGaussian(x, y, sigma, convolve).Success?
    ensures |SmoothGaussian(x, y, sigma, convolve).value| == |y|
  {
    var dx := Spacing(x);
    SuccessNeedsPositiveSigma(x, y, sigma, convolve);
    var k := KernelLength(sigma, dx);
    if k > |y| {
      var r := TileCount(k, |y|);
      TileCountShape(k, |y|);
      TileLength(y, r);
      var t := convolve(Tile(y, r), k);
      assert |t| == r * |y|;
      var start := CropStart(|y|, r);
      CropIsMiddleCopy(y, r);
      assert PySlice(t, start, start + |y|) == t[start..start + |y|];
    }
  }

  /** With the identity in place of the convolution smooth_gaussian gives back y, tiled or not. */
  lemma IdentityConvolution(x: seq<real>, y: seq<real>, sigma: real)
    requires SmoothGaussian(x, y, sigma, (s: seq<real>, k: nat) => s).Success?
    ensures SmoothGaussian(x, y, sigma, (s: seq<real>, k: nat) => s).value == y
  {
    var dx := Spacing(x);
    var k := KernelLength(sigma, dx);
    if k > |y| {
      var r := TileCount(k, |y|);
      TileCountShape(k, |y|);
      CropIsMiddleCopy(y, r);
    }
  }

  /** No tiling happens when the kernel is no longer than the signal; an empty kernel raises. */
  lemma NoTilingForShortKernel(x: seq<real>, y: seq<real>, sigma: real, convolve: (seq<real>, nat) -> seq<real>)
    requires |x| >= 2 && Abs(6.0 * sigma) > Spacing(x) && Spacing(x) > 0.0
    requires KernelLength(sigma, Spacing(x)) <= |y|
    ensures SmoothGaussian(x, y, sigma, convolve) ==
      if KernelLength(sigma, Spacing(x)) == 0 then Failure(EmptyKernel)
      else Success(convolve(y, KernelLength(sigma, Spacing(x))))
  {
  }
}
