/**
 * OvenMonitor.analyse_results up to its report: the hours since the first
 * sample, the equispaced grid, extra_ind, the reflective padding of the series
 * and of its grid, smooth_gaussian, the crop back onto the samples, and the
 * peak temperatures. Real numbers stand for floats; the linear interpolation
 * and the convolution are parameters, and the plots are only named.
 */
module Analysis {
  import opened Wrappers
  import opened PySeq
  import opened Smoothing

  // ---------------------------------------------------------------------------
  // The padding and the crop

  /** dn_tape = equi_temp[1:extra_ind+1][::-1] */
  function DnTape<T>(t: seq<T>, e: int): seq<T>
  {
    Reverse(PySlice(t, 1, e + 1))
  }

  /** up_tape = equi_temp[-extra_ind-1:-1][::-1] */
  function UpTape<T>(t: seq<T>, e: int): seq<T>
  {
    Reverse(PySlice(t, -e - 1, -1))
  }

  /** np.concatenate((dn_tape, equi_temp, up_tape)) */
  function Padded<T>(t: seq<T>, e: int): seq<T>
  {
    DnTape(t, e) + t + UpTape(t, e)
  }

  /** The crop applied to the smoothed padded series: [extra_ind:-extra_ind]. */
  function CropPadding<T>(s: seq<T>, e: int): seq<T>
  {
    PySlice(s, e, -e)
  }

  /**
   * With 1 <= e <= n - 1 each tape holds e mirrored samples, the first and the
   * last sample themselves not repeated: dn_tape is t[e], ..., t[1] and up_tape
   * is t[n-2], ..., t[n-1-e].
   */
  lemma TapesMirror<T>(t: seq<T>, e: int)
    requires 1 <= e <= |t| - 1
    ensures |DnTape(t, e)| == e && |UpTape(t, e)| == e
    ensures forall k :: 0 <= k < e ==> DnTape(t, e)[k] == t[e - k]
    ensures forall k :: 0 <= k < e ==> UpTape(t, e)[k] == t[|t| - 2 - k]
  {
    var n := |t|;
    assert PySlice(t, 1, e + 1) == t[1..e + 1];
    assert PySlice(t, -e - 1, -1) == t[n - e - 1..n - 1];
  }

  /** Where the three parts of a concatenation sit in it. */
  lemma ConcatParts<T>(a: seq<T>, t: seq<T>, b: seq<T>)
    ensures (a + t + b)[|a|..|a| + |t|] == t
    ensures forall j :: 0 <= j < |a| ==> (a + t + b)[j] == a[j]
    ensures (a + t + b)[|a| + |t|..] == b
  {
    assert (a + t + b)[|a|..|a| + |t|] == t;
    assert (a + t + b)[|a| + |t|..] == b;
  }

  /** A tail b that mirrors t, placed after a and t, mirrors t in place. */
  lemma MirroredTail<T>(a: seq<T>, t: seq<T>, b: seq<T>)
    requires |b| <= |a| && |b| <= |t| - 1
    requires forall k :: 0 <= k < |b| ==> b[k] == t[|t| - 2 - k]
    ensures forall j :: |a| + |t| <= j < |a| + |t| + |b| ==> (a + t + b)[j] == t[2 * |t| + |a| - 2 - j]
  {
    forall j | |a| + |t| <= j < |a| + |t| + |b|
      ensures (a + t + b)[j] == t[2 * |t| + |a| - 2 - j]
    {
      var k := j - |a| - |t|;
      assert (a + t + b)[j] == b[k];
    }
  }

  /** The samples after the original ones mirror them, the last sample not repeated. */
  lemma PaddedUpperMirror<T>(t: seq<T>, e: int)
    requires 1 <= e <= |t| - 1
    ensures |Padded(t, e)| == |t| + 2 * e
    ensures forall j :: e + |t| <= j < |t| + 2 * e ==> Padded(t, e)[j] == t[2 * |t| + e - 2 - j]
  {
    TapesMirror(t, e);
    MirroredTail(DnTape(t, e), t, UpTape(t, e));
  }

  /** The padded series has n + 2e samples and the original ones sit at e .. e + n - 1. */
  lemma PaddedShape<T>(t: seq<T>, e: int)
    requires 1 <= e <= |t| - 1
    ensures |Padded(t, e)| == |t| + 2 * e
    ensures Padded(t, e)[e..e + |t|] == t
    ensures forall j :: 0 <= j < e ==> Padded(t, e)[j] == t[e - j]
    ensures forall j :: e + |t| <= j < |t| + 2 * e ==> Padded(t, e)[j] == t[2 * |t| + e - 2 - j]
  {
    TapesMirror(t, e);
    ConcatParts(DnTape(t, e), t, UpTape(t, e));
    PaddedUpperMirror(t, e);
  }

  /** [e:-e] of a series of n + 2e samples keeps exactly the middle n. */
  lemma CropMiddle<T>(s: seq<T>, e: int)
    requires 1 <= e && 2 * e <= |s|
    ensures CropPadding(s, e) == s[e..|s| - e]
  {
  }

  /** Padding then cropping with no smoothing in between gives back the series. */
  lemma CropUndoesPadding<T>(t: seq<T>, e: int)
    requires 1 <= e <= |t| - 1
    ensures CropPadding(Padded(t, e), e) == t
  {
    PaddedShape(t, e);
    CropMiddle(Padded(t, e), e);
  }

  /**
   * The shifted views behind the derivative, s[:-1] and s[1:]: both have
   * n - 1 elements and pair each sample with its successor.
   */
  lemma ShiftedViews<T>(s: seq<T>)
    requires |s| >= 1
    ensures |PySlice(s, 0, -1)| == |s| - 1 && |PySlice(s, 1, |s|)| == |s| - 1
    ensures forall i :: 0 <= i < |s| - 1 ==> PySlice(s, 0, -1)[i] == s[i] && PySlice(s, 1, |s|)[i] == s[i + 1]
  {
    if |s| > 1 {
      assert PySlice(s, 0, -1) == s[..|s| - 1];
      assert PySlice(s, 1, |s|) == s[1..];
    }
  }

  // ---------------------------------------------------------------------------
  // The grid and extra_ind

  /** analysis_settings.get('smoothing_scale', 1./60.): one minute, in hours, unless configured. */
  function SmoothingScale(settings: map<string, real>): real
  {
    if "smoothing_scale" in settings then settings["smoothing_scale"] else 1.0 / 60.0
  }

  /** int() of a float: truncation toward zero. */
  function Trunc(r: real): (i: int)
    ensures 0.0 <= r ==> 0 <= i && i as real <= r < (i + 1) as real
    ensures r < 0.0 ==> i <= 0 && (i - 1) as real < r <= i as real
  {
    if r >= 0.0 then r.Floor else -((-r).Floor)
  }

  /** Python's min(a, b): the first argument unless the second is smaller. */
  function MinReal(a: real, b: real): (m: real)
    ensures m <= a && m <= b && (m == a || m == b)
  {
    if b < a then b else a
  }

  /** np.linspace(a, b, n): n points from a to b, both included, evenly spaced. */
  function Linspace(a: real, b: real, n: nat): (r: seq<real>)
    ensures |r| == n
    ensures n >= 1 ==> r[0] == a
    ensures n >= 2 ==> r[n - 1] == b && r[1] - r[0] == (b - a) / ((n - 1) as real)
  {
    if n == 1 then [a]
    else
      var step := (b - a) / ((n - 1) as real);
      seq(n, k requires 0 <= k < n => a + (k as real) * step)
  }

  /** extra_ind = int(min(10 * sigma, span) / time_spacing) */
  function ExtraInd(sigma: real, span: real, dx: real): int
    requires dx != 0.0
  {
    Trunc(MinReal(10.0 * sigma, span) / dx)
  }

  /** The time step of n evenly spaced samples over span. */
  function TimeStep(span: real, n: nat): real
    requires n >= 2
  {
    span / ((n - 1) as real)
  }

  // ---------------------------------------------------------------------------
  // analyse_results

  /** The exceptions the smoothing of the interpolated series can end in. */
  datatype SmoothingFailure =
    | ZeroTimeStep                    // int() of the nan or infinity a zero time step gives
    | NegativeCount                   // np.linspace with extra_ind + 1 < 0 points: ValueError
    | GaussianFailed(error: SmoothError)

  /** The exceptions analyse_results can end in; its callers catch none of them. */
  datatype AnalysisError =
    | NoSamples                       // time[0] of an empty record: IndexError
    | TooFewSamples                   // interp1d of a single point: ValueError
    | OutOfRange                      // the interpolant asked outside its data: ValueError
    | SmoothingFailed(failure: SmoothingFailure)
    | EmptySmoothed                   // np.amax of an empty smooth_temp: ValueError
    | ShapeMismatch                   // ax.plot(equi_time, smooth_temp) of unequal lengths: ValueError

  /** report['max_t'] and report['max_t_smooth'] */
  datatype Report = Report(maxT: real, maxTSmooth: real)

  /** The pair analyse_results returns: the plot files and the report. */
  datatype AnalysisResult = AnalysisResult(plots: seq<string>, report: Report)

  /** interp1d(time, temperature)(equi_time); None stands for its ValueError. */
  type Interpolator = (seq<real>, seq<real>, seq<real>) -> Option<seq<real>>

  /** The interpolant gives one value per point it is asked about. */
  ghost predicate KeepsQueryLength(interpolate: Interpolator)
  {
    forall x, y, q :: interpolate(x, y, q).Some? ==> |interpolate(x, y, q).value| == |q|
  }

  /** time = (runtime - runtime[0]) / 3600: hours since the first sample. */
  function Hours(log: seq<(real, real)>): (t: seq<real>)
    requires |log| >= 1
    ensures |t| == |log| && t[0] == 0.0
  {
    seq(|log|, i requires 0 <= i < |log| => (log[i].0 - log[0].0) / 3600.0)
  }

  function Temperatures(log: seq<(real, real)>): (t: seq<real>)
    ensures |t| == |log|
  {
    seq(|log|, i requires 0 <= i < |log| => log[i].1)
  }

  /**
   * np.concatenate((dn_time, equi_time, up_time)): the grid extended by
   * e + 1 points, less the shared end point, at each end.
   */
  function PaddedGrid(equiTime: seq<real>, dx: real, e: int): seq<real>
    requires |equiTime| >= 1 && e + 1 >= 0
  {
    var t0, t1 := equiTime[0], equiTime[|equiTime| - 1];
    var upTime := PySlice(Linspace(t1, t1 + dx * (e as real), e + 1), 1, e + 1);
    var dnTime := PySlice(Linspace(t0 - dx * (e as real), t0, e + 1), 0, -1);
    dnTime + equiTime + upTime
  }

  /**
   * smooth_temp for n samples taken from t0 to t1: pad the interpolated series
   * and its grid by extra_ind samples at each end, smooth, and crop.
   */
  function SmoothTemperature(t0: real, t1: real, n: nat, equiTemp: seq<real>, sigma: real,
                             convolve: (seq<real>, nat) -> seq<real>): Result<seq<real>, SmoothingFailure>
    requires n >= 2
  {
    var equiTime := Linspace(t0, t1, n);
    var dx := equiTime[1] - equiTime[0];
    if dx == 0.0 then Failure(ZeroTimeStep)
    else
      var e := ExtraInd(sigma, t1 - t0, dx);
      if e + 1 < 0 then Failure(NegativeCount)
      else
        match SmoothGaussian(PaddedGrid(equiTime, dx, e), Padded(equiTemp, e), sigma, convolve)
        case Failure(err) => Failure(GaussianFailed(err))
        case Success(s) => Success(CropPadding(s, e))
  }

  /** analyse_results(filename) on a record of (runtime, temperature) samples. */
  function AnalyseResults(log: seq<(real, real)>, settings: map<string, real>, dir: string,
                          interpolate: Interpolator, convolve: (seq<real>, nat) -> seq<real>)
    : Result<AnalysisResult, AnalysisError>
  {
    if |log| == 0 then Failure(NoSamples)
    else if |log| == 1 then Failure(TooFewSamples)
    else AnalyseSeries(Hours(log), Temperatures(log), SmoothingScale(settings), dir, interpolate, convolve)
  }

  /** analyse_results from the interpolation on, for the hours and temperatures of the record. */
  function AnalyseSeries(time: seq<real>, temperature: seq<real>, sigma: real, dir: string,
                         interpolate: Interpolator, convolve: (seq<real>, nat) -> seq<real>)
    : Result<AnalysisResult, AnalysisError>
    requires |time| == |temperature| >= 2
  {
    var n := |time|;
    match interpolate(time, temperature, Linspace(time[0], time[n - 1], n))
    case None => Failure(OutOfRange)
    case Some(equiTemp) =>
      Summarise(temperature, SmoothTemperature(time[0], time[n - 1], n, equiTemp, sigma, convolve), dir)
  }

  /** The report, np.amax of both series, and the two plots of the smoothed series against the grid. */
  function Summarise(temperature: seq<real>, smoothed: Result<seq<real>, SmoothingFailure>, dir: string)
    : Result<AnalysisResult, AnalysisError>
    requires |temperature| >= 1
  {
    match smoothed
    case Failure(err) => Failure(SmoothingFailed(err))
    case Success(smooth) =>
      if |smooth| == 0 then Failure(EmptySmoothed)
      else if |smooth| != |temperature| then Failure(ShapeMismatch)
      else
        Success(AnalysisResult([dir + "/1_temperature.pdf", dir + "/2_temperature_ramp.pdf"],
                               Report(Max(temperature), Max(smooth))))
  }

  // ---------------------------------------------------------------------------
  // Properties

  /** The spacing smooth_gaussian computes is at least the distance of the end points over the gaps. */
  lemma SpacingAtLeastEnds(x: seq<real>)
    requires |x| >= 2
    ensures Spacing(x) >= Abs(x[|x| - 1] - x[0]) / ((|x| - 1) as real)
  {
    var d := (|x| - 1) as real;
    assert Max(x) - Min(x) >= Abs(x[|x| - 1] - x[0]);
    DivMonotone(Abs(x[|x| - 1] - x[0]), Max(x) - Min(x), d);
  }

  lemma DivMonotone(a: real, b: real, d: real)
    requires a <= b && d > 0.0
    ensures a / d <= b / d
  {
    assert b / d - a / d == (b - a) / d;
  }

  /** The time step has the sign of the span and is no longer than it. */
  lemma TimeStepBounds(span: real, n: nat)
    requires n >= 2
    ensures TimeStep(span, n) * ((n - 1) as real) == span
    ensures span > 0.0 ==> 0.0 < TimeStep(span, n) <= span
    ensures span < 0.0 ==> span <= TimeStep(span, n) < 0.0
  {
    var k := (n - 1) as real;
    var d := span / k;
    assert d * k == span;
    assert span - d == d * (k - 1.0);
    if span > 0.0 {
      assert d > 0.0;
      assert d * (k - 1.0) >= 0.0;
    } else if span < 0.0 {
      assert d < 0.0;
      assert d * (k - 1.0) <= 0.0;
    }
  }

  /** A time step other than zero comes from a span other than zero. */
  lemma NonzeroStepNonzeroSpan(span: real, n: nat)
    requires n >= 2 && TimeStep(span, n) != 0.0
    ensures span != 0.0
  {
    TimeStepBounds(span, n);
  }

  /** extra_ind is 0 only for a positive span and a scale below one time step. */
  lemma ExtraIndZero(sigma: real, span: real, n: nat)
    requires n >= 2 && span != 0.0
    requires ExtraInd(sigma, span, TimeStep(span, n)) == 0
    ensures span > 0.0 && Abs(6.0 * sigma) < TimeStep(span, n)
  {
    var dx := TimeStep(span, n);
    TimeStepBounds(span, n);
    var m := MinReal(10.0 * sigma, span);
    assert -1.0 < m / dx < 1.0;
    if span < 0.0 {
      QuotientAtLeastOne(m, dx);
    } else {
      QuotientBelowOne(m, dx);
      QuotientAboveMinusOne(m, dx);
      assert m == 10.0 * sigma;
    }
  }

  lemma QuotientAtLeastOne(m: real, dx: real)
    requires dx < 0.0 && m <= dx
    ensures m / dx >= 1.0
  {
    assert (m / dx) * dx == m;
    assert (m / dx - 1.0) * dx == m - dx;
  }

  lemma QuotientBelowOne(m: real, dx: real)
    requires dx > 0.0 && m / dx < 1.0
    ensures m < dx
  {
    assert (m / dx) * dx == m;
    assert (1.0 - m / dx) * dx == dx - m;
  }

  lemma QuotientAboveMinusOne(m: real, dx: real)
    requires dx > 0.0 && m / dx > -1.0
    ensures m > -dx
  {
    assert (m / dx) * dx == m;
    assert (m / dx + 1.0) * dx == m + dx;
  }

  /** For a positive scale extra_ind lies between 0 and n - 1. */
  lemma ExtraIndRange(sigma: real, span: real, n: nat)
    requires n >= 2 && span != 0.0 && sigma > 0.0
    ensures 0 <= ExtraInd(sigma, span, TimeStep(span, n)) <= n - 1
  {
    var dx := TimeStep(span, n);
    TimeStepBounds(span, n);
    var m := MinReal(10.0 * sigma, span);
    var k := (n - 1) as real;
    QuotientOfProduct(dx, k);
    if span > 0.0 {
      QuotientBelow(m, span, dx);
    }
  }

  lemma QuotientOfProduct(d: real, k: real)
    requires d != 0.0
    ensures (d * k) / d == k
  {
  }

  lemma QuotientBelow(m: real, span: real, dx: real)
    requires 0.0 < m <= span && dx > 0.0
    ensures 0.0 < m / dx <= span / dx
  {
    DivMonotone(m, span, dx);
  }

  /** np.linspace(a, b, 1) is [a], and both of its slices used for the time tapes are empty. */
  lemma OneSampleTapes(a: real, b: real)
    ensures PySlice(Linspace(a, b, 1), 1, 1) == [] && PySlice(Linspace(a, b, 1), 0, -1) == []
  {
  }

  /** The spacing smooth_gaussian finds on an increasing equispaced grid is at least its step. */
  lemma SpacingOfGrid(t0: real, t1: real, n: nat)
    requires n >= 2 && t0 < t1
    ensures Spacing(Linspace(t0, t1, n)) >= TimeStep(t1 - t0, n)
  {
    var g := Linspace(t0, t1, n);
    SpacingAtLeastEnds(g);
    assert Abs(g[n - 1] - g[0]) == t1 - t0;
  }

  /** With extra_ind 0 the time tapes are empty and the grid is not extended. */
  lemma PaddedGridZero(equiTime: seq<real>, dx: real)
    requires |equiTime| >= 1
    ensures PaddedGrid(equiTime, dx, 0) == equiTime
  {
    var t0, t1 := equiTime[0], equiTime[|equiTime| - 1];
    OneSampleTapes(t1, t1 + dx * 0.0);
    OneSampleTapes(t0 - dx * 0.0, t0);
  }

  /** The crop [0:-0] is empty; ZeroExtraTripsGuard shows that it is never reached. */
  lemma CropZeroIsEmpty<T>(s: seq<T>)
    ensures CropPadding(s, 0) == []
  {
  }

  /** With extra_ind 0 the tapes are empty and the series is not padded. */
  lemma PaddedZero<T>(t: seq<T>)
    ensures Padded(t, 0) == t
  {
    assert PySlice(t, 1, 1) == [] && PySlice(t, -1, -1) == [];
  }

  /** A scale with extra_ind 0 trips smooth_gaussian's guard on the unpadded grid. */
  lemma GuardOnUnpaddedGrid(t0: real, t1: real, n: nat, y: seq<real>, sigma: real,
                            convolve: (seq<real>, nat) -> seq<real>)
    requires n >= 2 && t1 != t0
    requires ExtraInd(sigma, t1 - t0, TimeStep(t1 - t0, n)) == 0
    ensures SmoothGaussian(Linspace(t0, t1, n), y, sigma, convolve) == Failure(SigmaTooSmall)
  {
    ExtraIndZero(sigma, t1 - t0, n);
    SpacingOfGrid(t0, t1, n);
    GuardRaisesExactly(Linspace(t0, t1, n), y, sigma, convolve);
  }

  /**
   * extra_ind is never 0 in a smoothing that goes through: with it the grid is
   * not padded, and smooth_gaussian's guard raises on it.
   */
  lemma ZeroExtraTripsGuard(t0: real, t1: real, n: nat, equiTemp: seq<real>, sigma: real,
                            convolve: (seq<real>, nat) -> seq<real>)
    requires n >= 2 && t1 != t0
    requires ExtraInd(sigma, t1 - t0, TimeStep(t1 - t0, n)) == 0
    ensures SmoothTemperature(t0, t1, n, equiTemp, sigma, convolve) == Failure(GaussianFailed(SigmaTooSmall))
  {
    var equiTime := Linspace(t0, t1, n);
    var dx := equiTime[1] - equiTime[0];
    assert dx == TimeStep(t1 - t0, n);
    PaddedGridZero(equiTime, dx);
    PaddedZero(equiTemp);
    GuardOnUnpaddedGrid(t0, t1, n, equiTemp, sigma, convolve);
  }

  /**
   * A smoothing scale that is not positive always ends in an exception: zero
   * trips smooth_gaussian's guard, and a negative one past the guard leaves
   * an empty kernel.
   */
  lemma SmoothingNeedsPositiveScale(t0: real, t1: real, n: nat, equiTemp: seq<real>, sigma: real,
                                    convolve: (seq<real>, nat) -> seq<real>)
    requires n >= 2
    requires SmoothTemperature(t0, t1, n, equiTemp, sigma, convolve).Success?
    ensures sigma > 0.0
  {
    var equiTime := Linspace(t0, t1, n);
    var dx := equiTime[1] - equiTime[0];
    assert dx != 0.0;
    var e := ExtraInd(sigma, t1 - t0, dx);
    assert e + 1 >= 0;
    SuccessNeedsPositiveSigma(PaddedGrid(equiTime, dx, e), Padded(equiTemp, e), sigma, convolve);
  }

  /**
   * A smoothing that goes through pads by 1 <= extra_ind <= n - 1 samples,
   * and the crop gives back one value per sample.
   */
  lemma SmoothedOneValuePerSample(t0: real, t1: real, n: nat, equiTemp: seq<real>, sigma: real,
                                  convolve: (seq<real>, nat) -> seq<real>)
    requires n >= 2 && |equiTemp| == n && SameMode(convolve)
    requires SmoothTemperature(t0, t1, n, equiTemp, sigma, convolve).Success?
    ensures sigma > 0.0 && t1 != t0 && 1 <= ExtraInd(sigma, t1 - t0, TimeStep(t1 - t0, n)) <= n - 1
    ensures |SmoothTemperature(t0, t1, n, equiTemp, sigma, convolve).value| == n
  {
    SmoothingNeedsPositiveScale(t0, t1, n, equiTemp, sigma, convolve);
    var equiTime := Linspace(t0, t1, n);
    var dx := equiTime[1] - equiTime[0];
    assert dx == TimeStep(t1 - t0, n);
    assert dx != 0.0;
    NonzeroStepNonzeroSpan(t1 - t0, n);
    ExtraIndRange(sigma, t1 - t0, n);
    var e := ExtraInd(sigma, t1 - t0, dx);
    if e == 0 {
      ZeroExtraTripsGuard(t0, t1, n, equiTemp, sigma, convolve);
      assert false;
    }
    CropOfSmoothed(PaddedGrid(equiTime, dx, e), equiTemp, e, sigma, convolve);
  }

  /** Smoothing the padded series and cropping it gives one value per sample. */
  lemma CropOfSmoothed(x: seq<real>, t: seq<real>, e: int, sigma: real, convolve: (seq<real>, nat) -> seq<real>)
    requires 1 <= e <= |t| - 1 && SameMode(convolve)
    requires SmoothGaussian(x, Padded(t, e), sigma, convolve).Success?
    ensures |CropPadding(SmoothGaussian(x, Padded(t, e), sigma, convolve).value, e)| == |t|
  {
    PaddedShape(t, e);
    ResultLength(x, Padded(t, e), sigma, convolve);
    CropMiddle(SmoothGaussian(x, Padded(t, e), sigma, convolve).value, e);
  }

  /**
   * A smoothed series of one value per sample is reported and plotted: np.amax
   * and the plot against the grid do not raise, and the report holds the peak.
   */
  lemma SummariseSound(temperature: seq<real>, smoothed: Result<seq<real>, SmoothingFailure>, dir: string)
    requires |temperature| >= 1
    requires smoothed.Success? ==> |smoothed.value| == |temperature|
    ensures Summarise(temperature, smoothed, dir) != Failure(EmptySmoothed)
    ensures Summarise(temperature, smoothed, dir) != Failure(ShapeMismatch)
    ensures smoothed.Failure? ==> Summarise(temperature, smoothed, dir) == Failure(SmoothingFailed(smoothed.error))
    ensures smoothed.Success? ==>
      Summarise(temperature, smoothed, dir) ==
        Success(AnalysisResult([dir + "/1_temperature.pdf", dir + "/2_temperature_ramp.pdf"],
                               Report(Max(temperature), Max(smoothed.value))))
  {
  }

  /**
   * analyse_results never reaches np.amax of an empty series or a plot of
   * unequal lengths; its report holds the raw peak, and it names the two plots
   * in the record directory.
   */
  lemma AnalyseReportSound(log: seq<(real, real)>, settings: map<string, real>, dir: string,
                           interpolate: Interpolator, convolve: (seq<real>, nat) -> seq<real>)
    requires SameMode(convolve) && KeepsQueryLength(interpolate)
    ensures AnalyseResults(log, settings, dir, interpolate, convolve) != Failure(EmptySmoothed)
    ensures AnalyseResults(log, settings, dir, interpolate, convolve) != Failure(ShapeMismatch)
    ensures AnalyseResults(log, settings, dir, interpolate, convolve).Success? ==>
      |log| >= 2 &&
      AnalyseResults(log, settings, dir, interpolate, convolve).value.report.maxT == Max(Temperatures(log)) &&
      AnalyseResults(log, settings, dir, interpolate, convolve).value.plots ==
        [dir + "/1_temperature.pdf", dir + "/2_temperature_ramp.pdf"]
  {
    if |log| >= 2 {
      AnalyseSeriesSound(Hours(log), Temperatures(log), SmoothingScale(settings), dir, interpolate, convolve);
    }
  }

  /** AnalyseReportSound on the series read from the record. */
  lemma AnalyseSeriesSound(time: seq<real>, temperature: seq<real>, sigma: real, dir: string,
                           interpolate: Interpolator, convolve: (seq<real>, nat) -> seq<real>)
    requires |time| == |temperature| >= 2
    requires SameMode(convolve) && KeepsQueryLength(interpolate)
    ensures AnalyseSeries(time, temperature, sigma, dir, interpolate, convolve) != Failure(EmptySmoothed)
    ensures AnalyseSeries(time, temperature, sigma, dir, interpolate, convolve) != Failure(ShapeMismatch)
    ensures AnalyseSeries(time, temperature, sigma, dir, interpolate, convolve).Success? ==>
      AnalyseSeries(time, temperature, sigma, dir, interpolate, convolve).value.report.maxT == Max(temperature) &&
      AnalyseSeries(time, temperature, sigma, dir, interpolate, convolve).value.plots ==
        [dir + "/1_temperature.pdf", dir + "/2_temperature_ramp.pdf"]
  {
    var n := |time|;
    var r := interpolate(time, temperature, Linspace(time[0], time[n - 1], n));
    if r.Some? {
      var smooth := SmoothTemperature(time[0], time[n - 1], n, r.value, sigma, convolve);
      if smooth.Success? {
        SmoothedOneValuePerSample(time[0], time[n - 1], n, r.value, sigma, convolve);
      }
      assert AnalyseSeries(time, temperature, sigma, dir, interpolate, convolve) == Summarise(temperature, smooth, dir);
      SummariseSound(temperature, smooth, dir);
    } else {
      assert AnalyseSeries(time, temperature, sigma, dir, interpolate, convolve) == Failure(OutOfRange);
    }
  }

  /** A record of fewer than two samples cannot be analysed. */
  lemma AnalyseShortRecord(log: seq<(real, real)>, settings: map<string, real>, dir: string,
                           interpolate: Interpolator, convolve: (seq<real>, nat) -> seq<real>)
    ensures |log| == 0 <==> AnalyseResults(log, settings, dir, interpolate, convolve) == Failure(NoSamples)
    ensures |log| == 1 <==> AnalyseResults(log, settings, dir, interpolate, convolve) == Failure(TooFewSamples)
  {
  }
}
