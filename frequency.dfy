/**
 * The hysteretic zero-crossing frequency estimator: remove the mean, arm on
 * a dip to -5% of the peak, record the interpolated time of the next upward
 * zero crossing, and return the reciprocal of the median period.
 */
module FrequencyEstimator {
  import opened Wrappers
  import Stats

  /** Hysteresis threshold as a fraction of the peak amplitude. */
  const HYST_FRAC: real := 0.05

  function Sum(s: seq<int>): int {
    if |s| == 0 then 0 else s[0] + Sum(s[1..])
  }

  function Mean(s: seq<int>): real
    requires |s| > 0
  {
    Sum(s) as real / |s| as real
  }

  /** The window with its mean subtracted from every sample. */
  function Center(s: seq<int>): seq<real>
    requires |s| > 0
  {
    var m := Mean(s);
    seq(|s|, i requires 0 <= i < |s| => s[i] as real - m)
  }

  function Abs(v: real): real {
    if v < 0.0 then -v else v
  }

  /** max(abs(v) for v in x). */
  function MaxAbs(x: seq<real>): (m: real)
    requires |x| > 0
    ensures forall i :: 0 <= i < |x| ==> Abs(x[i]) <= m
    ensures exists i :: 0 <= i < |x| && Abs(x[i]) == m
  {
    if |x| == 1 then Abs(x[0])
    else
      var r := MaxAbs(x[1..]);
      assert forall i :: 1 <= i < |x| ==> x[i] == x[1..][i - 1];
      if Abs(x[0]) > r then Abs(x[0]) else r
  }

  /** (peak or 1.0) * HYST_FRAC: the hysteresis band is never empty. */
  function Threshold(x: seq<real>): (th: real)
    requires |x| > 0
    ensures th > 0.0
  {
    var peak := MaxAbs(x);
    (if peak == 0.0 then 1.0 else peak) * HYST_FRAC
  }

  /** The scan's state after some prefix: the armed flag and the crossing times so far. */
  datatype ScanState = ScanState(armed: bool, crossings: seq<real>)

  /** One iteration of the scan at index i, looking at x[i-1] and x[i]. */
  function Step(st: ScanState, x: seq<real>, th: real, rate: real, i: nat): ScanState
    requires 1 <= i < |x| && rate > 0.0
  {
    var a, b := x[i - 1], x[i];
    if !st.armed then
      (if b <= -th then ScanState(true, st.crossings) else st)
    else if a < 0.0 <= b then
      var denom := b - a;
      var frac := if denom != 0.0 then -a / denom else 0.0;
      ScanState(false, st.crossings + [((i - 1) as real + frac) / rate])
    else st
  }

  /** The state when the scan reaches index k (indices 1 .. k-1 processed). */
  function Scan(x: seq<real>, th: real, rate: real, k: nat): ScanState
    requires 1 <= k <= |x| && rate > 0.0
    decreases k
  {
    if k == 1 then ScanState(false, [])
    else Step(Scan(x, th, rate, k - 1), x, th, rate, k - 1)
  }

  function Crossings(x: seq<real>, th: real, rate: real): seq<real>
    requires |x| > 0 && rate > 0.0
  {
    Scan(x, th, rate, |x|).crossings
  }

  /** Differences between consecutive crossing times. */
  function Periods(cs: seq<real>): seq<real>
    requires |cs| > 0
  {
    seq(|cs| - 1, i requires 0 <= i < |cs| - 1 => cs[i + 1] - cs[i])
  }

  /** What estimate_freq returns for the window samples at the given sample rate. */
  function Frequency(samples: seq<int>, rate: real): Option<real>
    requires rate > 0.0
  {
    if |samples| < 2 then None
    else
      var x := Center(samples);
      var cs := Crossings(x, Threshold(x), rate);
      if |cs| < 2 then None
      else
        var t := Stats.Median(Periods(cs));
        if t <= 0.0 then None else Some(1.0 / t)
  }

  /** estimate_freq: the scan is a loop over the centred window. */
  method EstimateFreq(samples: seq<int>, rate: real) returns (f: Option<real>)
    requires rate > 0.0
    ensures f == Frequency(samples, rate)
    ensures f.Some? ==> 0.0 < f.value < rate
    ensures f.Some? ==> |samples| >= 2 && rate / (|samples| - 1) as real < f.value
  {
    if |samples| < 2 {
      return None;
    }
    var x := Center(samples);
    var th := Threshold(x);
    var crossings: seq<real> := [];
    var armed := false;
    for i := 1 to |x|
      invariant ScanState(armed, crossings) == Scan(x, th, rate, i)
    {
      var a, b := x[i - 1], x[i];
      if !armed {
        if b <= -th {
          armed := true;
        }
        continue;
      }
      if a < 0.0 <= b {
        var denom := b - a;
        var frac := if denom != 0.0 then -a / denom else 0.0;
        var t := ((i - 1) as real + frac) / rate;
        crossings := crossings + [t];
        armed := false;
      }
    }
    if |crossings| < 2 {
      return None;
    }
    var t := Stats.Median(Periods(crossings));
    if t <= 0.0 {
      return None;
    }
    f := Some(1.0 / t);
    FrequencyBounds(samples, rate);
  }

  // ---------------------------------------------------------------------------
  // Crossing times

  /** What the scan keeps true up to index k: crossings are positive, at most
      (k-1)/rate, more than one sample period apart, and while armed the last
      one is at least one sample period in the past. */
  ghost predicate ScanInv(st: ScanState, rate: real, k: nat)
    requires rate > 0.0
  {
    var cs := st.crossings;
    && (forall j :: 0 <= j < |cs| ==> 0.0 < cs[j] <= (k - 1) as real / rate)
    && (forall j :: 0 <= j < |cs| - 1 ==> cs[j + 1] - cs[j] > 1.0 / rate)
    && (st.armed && |cs| > 0 ==> cs[|cs| - 1] <= (k - 2) as real / rate)
  }

  /** The interpolation fraction of an upward crossing lies in (0, 1]. */
  lemma FracInUnit(a: real, b: real)
    requires a < 0.0 <= b
    ensures 0.0 < -a / (b - a) <= 1.0
  {
    var d := b - a;
    assert (-a / d) * d == -a;
  }

  lemma DivMono(p: real, q: real, r: real)
    requires p <= q && r > 0.0
    ensures p / r <= q / r
  {
  }

  /** A crossing interpolated between samples k-1 and k lies in ((k-1)/rate, k/rate],
      more than one sample period after (k-2)/rate. */
  lemma CrossingTimeBounds(k: nat, frac: real, rate: real)
    requires k >= 1 && 0.0 < frac <= 1.0 && rate > 0.0
    ensures var t := ((k - 1) as real + frac) / rate;
      && (k - 1) as real / rate < t <= k as real / rate
      && t - (k - 2) as real / rate > 1.0 / rate
  {
    var t := ((k - 1) as real + frac) / rate;
    var u := 1.0 / rate;
    assert t == ((k - 1) as real + frac) * u;
    assert k as real / rate == k as real * u;
    assert (k - 1) as real / rate == (k - 1) as real * u;
    assert (k - 2) as real / rate == (k - 2) as real * u;
    assert t - (k - 2) as real * u == (1.0 + frac) * u;
  }

  lemma StepKeepsInv(st: ScanState, x: seq<real>, th: real, rate: real, k: nat)
    requires 1 <= k < |x| && rate > 0.0
    requires ScanInv(st, rate, k)
    ensures ScanInv(Step(st, x, th, rate, k), rate, k + 1)
  {
    var cs := st.crossings;
    DivMono((k - 1) as real, k as real, rate);
    var a, b := x[k - 1], x[k];
    if st.armed && a < 0.0 <= b {
      FracInUnit(a, b);
      var frac := -a / (b - a);
      var t := ((k - 1) as real + frac) / rate;
      CrossingTimeBounds(k, frac, rate);
      var cs' := cs + [t];
      assert Step(st, x, th, rate, k) == ScanState(false, cs');
      assert forall j :: 0 <= j < |cs| ==> cs'[j] == cs[j];
    } else if st.armed {
      DivMono((k - 2) as real, (k - 1) as real, rate);
    }
  }

  lemma {:induction false} ScanKeepsInv(x: seq<real>, th: real, rate: real, k: nat)
    requires 1 <= k <= |x| && rate > 0.0
    ensures ScanInv(Scan(x, th, rate, k), rate, k)
    decreases k
  {
    if k > 1 {
      ScanKeepsInv(x, th, rate, k - 1);
      StepKeepsInv(Scan(x, th, rate, k - 1), x, th, rate, k - 1);
    }
  }

  /** Recorded crossing times are more than one sample period apart (so
      strictly increasing) and lie in (0, (n-1)/rate]. */
  lemma CrossingTimes(x: seq<real>, th: real, rate: real)
    requires |x| > 0 && rate > 0.0
    ensures var cs := Crossings(x, th, rate);
      && (forall j :: 0 <= j < |cs| ==> 0.0 < cs[j] <= (|x| - 1) as real / rate)
      && (forall j :: 0 <= j < |cs| - 1 ==> cs[j + 1] - cs[j] > 1.0 / rate)
  {
    ScanKeepsInv(x, th, rate, |x|);
  }

  /** Every period is longer than one sample and shorter than the window. */
  lemma PeriodBounds(x: seq<real>, th: real, rate: real)
    requires |x| > 0 && rate > 0.0
    requires |Crossings(x, th, rate)| > 0
    ensures var p := Periods(Crossings(x, th, rate));
      forall j :: 0 <= j < |p| ==> 1.0 / rate < p[j] < (|x| - 1) as real / rate
  {
    CrossingTimes(x, th, rate);
  }

  lemma ReciprocalBounds(t: real, rate: real, m: real)
    requires rate > 0.0 && m > 0.0
    requires 1.0 / rate < t < m / rate
    ensures 0.0 < rate / m < 1.0 / t < rate
  {
    var u := 1.0 / t;
    assert u * t == 1.0;
    MulStrict(1.0 / rate, t, rate);
    assert (1.0 / rate) * rate == 1.0;
    MulStrict(t, m / rate, rate);
    assert (m / rate) * rate == m;
    // now 1 < t * rate < m
    MulStrict(1.0, t * rate, u);
    MulStrict(t * rate, m, u);
    assert u * (t * rate) == rate;
  }

  lemma MulStrict(a: real, b: real, r: real)
    requires a < b && r > 0.0
    ensures a * r < b * r
  {
  }

  /** The median period is longer than one sample and shorter than the window. */
  lemma MedianPeriodBounds(x: seq<real>, th: real, rate: real)
    requires |x| > 0 && rate > 0.0
    requires |Crossings(x, th, rate)| >= 2
    ensures 1.0 / rate < Stats.Median(Periods(Crossings(x, th, rate))) < (|x| - 1) as real / rate
  {
    PeriodBounds(x, th, rate);
    Stats.MedianWithin(Periods(Crossings(x, th, rate)), 1.0 / rate, (|x| - 1) as real / rate);
  }

  /** Any estimate is positive and lies strictly between rate/(n-1) and rate. */
  lemma FrequencyBounds(samples: seq<int>, rate: real)
    requires rate > 0.0
    ensures var f := Frequency(samples, rate);
      f.Some? ==> && 0.0 < f.value < rate
                  && |samples| >= 2 && rate / (|samples| - 1) as real < f.value
  {
    if |samples| >= 2 {
      var x := Center(samples);
      var cs := Crossings(x, Threshold(x), rate);
      if |cs| >= 2 {
        MedianPeriodBounds(x, Threshold(x), rate);
        ReciprocalBounds(Stats.Median(Periods(cs)), rate, (|x| - 1) as real);
      }
    }
  }

  /** An estimate exists exactly when the window has at least two samples and
      the scan records at least two crossings: the guard on a non-positive
      median period never fires. */
  lemma FrequencyDefined(samples: seq<int>, rate: real)
    requires rate > 0.0
    ensures Frequency(samples, rate).Some? <==>
      |samples| >= 2 && |Crossings(Center(samples), Threshold(Center(samples)), rate)| >= 2
  {
    if |samples| >= 2 {
      var x := Center(samples);
      var cs := Crossings(x, Threshold(x), rate);
      if |cs| >= 2 {
        MedianPeriodBounds(x, Threshold(x), rate);
        assert 1.0 / rate > 0.0;
      }
    }
  }

  // ---------------------------------------------------------------------------
  // No dip, no estimate

  /** While no sample after the first reaches -th the scan never arms. */
  lemma {:induction false} NoDipNoCrossing(x: seq<real>, th: real, rate: real, k: nat)
    requires 1 <= k <= |x| && rate > 0.0
    requires forall j :: 1 <= j < |x| ==> x[j] > -th
    ensures Scan(x, th, rate, k) == ScanState(false, [])
    decreases k
  {
    if k > 1 {
      NoDipNoCrossing(x, th, rate, k - 1);
    }
  }

  lemma {:induction false} SumConstant(n: nat, c: int)
    ensures Sum(seq(n, i => c)) == n * c
  {
    if n > 0 {
      var s := seq(n, i => c);
      assert s[1..] == seq(n - 1, i => c);
      SumConstant(n - 1, c);
    }
  }

  /** A constant (silent or DC-only) window yields no estimate. */
  lemma ConstantWindow(n: nat, c: int, rate: real)
    requires rate > 0.0
    ensures Frequency(seq(n, i => c), rate) == None
  {
    var s := seq(n, i => c);
    if n >= 2 {
      SumConstant(n, c);
      assert Mean(s) == c as real;
      var x := Center(s);
      var th := Threshold(x);
      NoDipNoCrossing(x, th, rate, |x|);
    }
  }

  // ---------------------------------------------------------------------------
  // DC offset

  function Shift(s: seq<int>, c: int): seq<int> {
    seq(|s|, i requires 0 <= i < |s| => s[i] + c)
  }

  lemma {:induction false} SumShift(s: seq<int>, c: int)
    ensures Sum(Shift(s, c)) == Sum(s) + |s| * c
  {
    if |s| > 0 {
      assert Shift(s, c)[1..] == Shift(s[1..], c);
      SumShift(s[1..], c);
    }
  }

  lemma CenterShift(s: seq<int>, c: int)
    requires |s| > 0
    ensures Center(Shift(s, c)) == Center(s)
  {
    SumShift(s, c);
    var n := |s| as real;
    assert Mean(Shift(s, c)) == (Sum(s) as real + n * c as real) / n;
    assert Mean(Shift(s, c)) == Mean(s) + c as real;
  }

  /** Adding the same constant to every sample leaves the estimate unchanged. */
  lemma DcInvariance(s: seq<int>, c: int, rate: real)
    requires rate > 0.0
    ensures Frequency(Shift(s, c), rate) == Frequency(s, rate)
  {
    if |s| >= 2 {
      CenterShift(s, c);
    }
  }
}
