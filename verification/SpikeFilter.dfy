/**
  The spike filter on the throttle's analog inputs: a sample far from the last accepted one is held
  back, up to a fixed number in a row; one more and the average of those held back is accepted.
*/
module SpikeFilter {
  datatype Limits = Limits(maxSpikes: nat, threshold: int)

  /** One axis: the last accepted sample, the samples held back and how many of them are current. */
  datatype Axis = Axis(previous: int, spikes: seq<int>, index: nat)

  ghost predicate ValidLimits(c: Limits) {
    c.maxSpikes >= 1 && c.threshold >= 0
  }

  ghost predicate Valid(c: Limits, a: Axis) {
    |a.spikes| >= c.maxSpikes && a.index <= c.maxSpikes
  }

  predicate Outlier(c: Limits, previous: int, raw: int) {
    raw - previous > c.threshold || previous - raw > c.threshold
  }

  function Sum(xs: seq<int>): int {
    if xs == [] then 0 else Sum(xs[..|xs| - 1]) + xs[|xs| - 1]
  }

  /** Integer division as the source has it, truncating toward zero. */
  function Quotient(x: int, n: int): int
    requires n > 0
  {
    if x >= 0 then x / n else -((-x) / n)
  }

  /** The quotient is the largest in magnitude that does not pass x, and has its sign. */
  lemma QuotientTruncates(x: int, n: int)
    requires n > 0
    ensures x >= 0 ==> 0 <= n * Quotient(x, n) <= x < n * Quotient(x, n) + n
    ensures x <= 0 ==> n * Quotient(x, n) - n < x <= n * Quotient(x, n) <= 0
  {
    if x >= 0 {
      DivisionIs(x, n);
    } else {
      DivisionIs(-x, n);
      Negated(n, (-x) / n);
    }
  }

  lemma DivisionIs(x: int, n: int)
    requires x >= 0 && n > 0
    ensures 0 <= n * (x / n) <= x < n * (x / n) + n
  {
    assert x == n * (x / n) + x % n;
    NonNegative(n, x / n);
  }

  lemma NonNegative(n: int, q: int)
    requires n > 0 && q >= 0
    ensures n * q >= 0
  {
  }

  lemma Negated(n: int, q: int)
    ensures n * -q == -(n * q)
  {
  }

  /** One pass over an axis: its new state and the value handed on. */
  function Step(c: Limits, a: Axis, raw: int): (Axis, int)
    requires ValidLimits(c) && Valid(c, a)
  {
    if Outlier(c, a.previous, raw) then
      if a.index < c.maxSpikes then
        (Axis(a.previous, a.spikes[a.index := raw], a.index + 1), a.previous)
      else
        var average := Quotient(Sum(a.spikes[..c.maxSpikes]), c.maxSpikes);
        (Axis(average, a.spikes, 0), average)
    else (Axis(raw, a.spikes, 0), raw)
  }

  lemma StepKeepsValid(c: Limits, a: Axis, raw: int)
    requires ValidLimits(c) && Valid(c, a)
    ensures Valid(c, Step(c, a, raw).0) && Step(c, a, raw).1 == Step(c, a, raw).0.previous
  {
  }

  function Run(c: Limits, a: Axis, samples: seq<int>): (r: Axis)
    requires ValidLimits(c) && Valid(c, a)
    ensures Valid(c, r)
  {
    if samples == [] then a else Step(c, Run(c, a, samples[..|samples| - 1]), samples[|samples| - 1]).0
  }

  /** The value handed on for the last of a nonempty run of samples. */
  function Output(c: Limits, a: Axis, samples: seq<int>): int
    requires ValidLimits(c) && Valid(c, a) && samples != []
  {
    Step(c, Run(c, a, samples[..|samples| - 1]), samples[|samples| - 1]).1
  }

  // ---- the filter in place ----

  const AXES := 6

  /** MAX_SPIKES and SPIKE_THRESHOLD; the threshold list has five entries, so the sixth is zero. */
  function LimitsOf(i: nat): (c: Limits)
    requires i < AXES
    ensures ValidLimits(c) && c.maxSpikes <= 4
  {
    Limits(if i < 2 then 4 else 2, if i < 5 then 100 else 0)
  }

  class Filter {
    const adcRaw: array<int>
    const adcPreviousRaw: array<int>
    const spikeIndex: array<nat>
    const spikes: array2<int>

    ghost predicate Shaped() {
      && adcRaw.Length == AXES && adcPreviousRaw.Length == AXES && spikeIndex.Length == AXES
      && spikes.Length0 == 4 && spikes.Length1 == AXES
      && adcRaw != adcPreviousRaw
    }

    ghost function AxisView(i: nat): (a: Axis)
      requires Shaped() && i < AXES
      reads adcPreviousRaw, spikeIndex, spikes
    {
      Axis(adcPreviousRaw[i], [spikes[0, i], spikes[1, i], spikes[2, i], spikes[3, i]], spikeIndex[i])
    }

    ghost predicate ValidFilter()
      reads adcPreviousRaw, spikeIndex, spikes
    {
      Shaped() && forall i :: 0 <= i < AXES ==> Valid(LimitsOf(i), AxisView(i))
    }

    constructor ()
      ensures ValidFilter()
      ensures forall i :: 0 <= i < AXES ==> AxisView(i) == Axis(0, [0, 0, 0, 0], 0)
      ensures fresh(adcRaw) && fresh(adcPreviousRaw) && fresh(spikeIndex) && fresh(spikes)
    {
      adcRaw := new int[AXES](_ => 0);
      adcPreviousRaw := new int[AXES](_ => 0);
      spikeIndex := new nat[AXES](_ => 0);
      spikes := new int[4, AXES]((_, _) => 0);
      new;
      forall i | 0 <= i < AXES
        ensures AxisView(i) == Axis(0, [0, 0, 0, 0], 0)
      {
        assert adcPreviousRaw[i] == 0 && spikeIndex[i] == 0;
      }
    }

    /** Filter the sample of one axis. */
    method FilterAxis(i: nat)
      requires ValidFilter() && i < AXES
      modifies adcRaw, adcPreviousRaw, spikeIndex, spikes
      ensures ValidFilter()
      ensures (AxisView(i), adcRaw[i]) == Step(LimitsOf(i), old(AxisView(i)), old(adcRaw[i]))
      ensures forall k :: 0 <= k < AXES && k != i ==> AxisView(k) == old(AxisView(k)) && adcRaw[k] == old(adcRaw[k])
    {
      var limits := LimitsOf(i);
      if adcRaw[i] - adcPreviousRaw[i] > limits.threshold || adcPreviousRaw[i] - adcRaw[i] > limits.threshold {
        if spikeIndex[i] < limits.maxSpikes {
          spikes[spikeIndex[i], i] := adcRaw[i];
          spikeIndex[i] := spikeIndex[i] + 1;
          adcRaw[i] := adcPreviousRaw[i];
          assert AxisView(i).spikes == old(AxisView(i).spikes[spikeIndex[i] := adcRaw[i]]);
        } else {
          spikeIndex[i] := 0;
          var sum := 0;
          ghost var held := old(AxisView(i)).spikes;
          for j := 0 to limits.maxSpikes
            invariant sum == Sum(held[..j])
          {
            assert held[..j + 1][..j] == held[..j];
            sum := sum + spikes[j, i];
          }
          adcRaw[i] := Quotient(sum, limits.maxSpikes);
          adcPreviousRaw[i] := adcRaw[i];
        }
      } else {
        spikeIndex[i] := 0;
        adcPreviousRaw[i] := adcRaw[i];
      }
    }

    /** The filter loop of process_analogs, over all axes. */
    method ProcessSpikes()
      requires ValidFilter()
      modifies adcRaw, adcPreviousRaw, spikeIndex, spikes
      ensures ValidFilter()
      ensures forall i :: 0 <= i < AXES ==>
        (AxisView(i), adcRaw[i]) == Step(LimitsOf(i), old(AxisView(i)), old(adcRaw[i]))
      ensures forall i :: 0 <= i < AXES ==> adcRaw[i] == adcPreviousRaw[i]
    {
      for n := 0 to AXES
        invariant ValidFilter()
        invariant forall i :: 0 <= i < n ==>
          (AxisView(i), adcRaw[i]) == Step(LimitsOf(i), old(AxisView(i)), old(adcRaw[i]))
        invariant forall i :: n <= i < AXES ==> AxisView(i) == old(AxisView(i)) && adcRaw[i] == old(adcRaw[i])
      {
        FilterAxis(n);
      }
      forall i | 0 <= i < AXES
        ensures adcRaw[i] == adcPreviousRaw[i]
      {
        StepKeepsValid(LimitsOf(i), old(AxisView(i)), old(adcRaw[i]));
      }
    }
  }

  // ---- bounds ----

  ghost predicate Within(xs: seq<int>, lo: int, hi: int) {
    forall i :: 0 <= i < |xs| ==> lo <= xs[i] <= hi
  }

  lemma OneMoreTimes(n: int, x: int)
    ensures (n + 1) * x == n * x + x
  {
  }

  lemma {:induction false} SumBounds(xs: seq<int>, lo: int, hi: int)
    requires Within(xs, lo, hi)
    ensures |xs| * lo <= Sum(xs) <= |xs| * hi
  {
    if xs != [] {
      SumBounds(xs[..|xs| - 1], lo, hi);
      OneMoreTimes(|xs| - 1, lo);
      OneMoreTimes(|xs| - 1, hi);
    }
  }

  /** A truncated average stays between the bounds, whatever their signs. */
  lemma AverageBounds(sum: int, n: int, lo: int, hi: int)
    requires n > 0 && n * lo <= sum <= n * hi
    ensures lo <= Quotient(sum, n) <= hi
  {
    if sum >= 0 {
      DivisionBounds(sum, n, lo, hi);
    } else {
      DivisionBounds(-sum, n, -hi, -lo);
    }
  }

  lemma DivisionBounds(x: int, n: int, lo: int, hi: int)
    requires n > 0 && x >= 0 && n * lo <= x <= n * hi
    ensures lo <= x / n <= hi
  {
    var q := x / n;
    assert n * q <= x < n * q + n;
    MultiplesOrdered(n, q + 1, lo);
    MultiplesOrdered(n, hi + 1, q);
  }

  lemma MultiplesOrdered(n: int, a: int, b: int)
    requires n > 0
    ensures a <= b ==> n * a <= n * b
    ensures n * (a + 1) == n * a + n
  {
  }

  /** The samples currently held back and the accepted one all lie in the range. */
  ghost predicate InRange(a: Axis, lo: int, hi: int)
    requires a.index <= |a.spikes|
  {
    lo <= a.previous <= hi && Within(a.spikes[..a.index], lo, hi)
  }

  lemma StepStaysInRange(c: Limits, a: Axis, raw: int, lo: int, hi: int)
    requires ValidLimits(c) && Valid(c, a)
    requires InRange(a, lo, hi) && lo <= raw <= hi
    ensures InRange(Step(c, a, raw).0, lo, hi) && lo <= Step(c, a, raw).1 <= hi
  {
    if Outlier(c, a.previous, raw) {
      if a.index < c.maxSpikes {
        assert a.spikes[a.index := raw][..a.index + 1] == a.spikes[..a.index] + [raw];
      } else {
        SumBounds(a.spikes[..c.maxSpikes], lo, hi);
        AverageBounds(Sum(a.spikes[..c.maxSpikes]), c.maxSpikes, lo, hi);
      }
    }
  }

  /** Every output lies in the range of the start value and the samples seen so far. */
  lemma {:induction false} OutputsStayInRange(c: Limits, a: Axis, samples: seq<int>, lo: int, hi: int)
    requires ValidLimits(c) && Valid(c, a)
    requires InRange(a, lo, hi) && Within(samples, lo, hi)
    ensures InRange(Run(c, a, samples), lo, hi)
    ensures samples != [] ==> lo <= Output(c, a, samples) <= hi
  {
    if samples != [] {
      var n := |samples| - 1;
      OutputsStayInRange(c, a, samples[..n], lo, hi);
      StepStaysInRange(c, Run(c, a, samples[..n]), samples[n], lo, hi);
    }
  }

  // ---- smooth samples ----

  function SampleBefore(a: Axis, samples: seq<int>, i: nat): int
    requires i <= |samples|
  {
    if i == 0 then a.previous else samples[i - 1]
  }

  /** Samples that never move by more than the threshold are handed on as they are. */
  lemma {:induction false} SmoothIsFollowed(c: Limits, a: Axis, samples: seq<int>)
    requires ValidLimits(c) && Valid(c, a)
    requires forall i :: 0 <= i < |samples| ==> !Outlier(c, SampleBefore(a, samples, i), samples[i])
    ensures Run(c, a, samples).previous == SampleBefore(a, samples, |samples|)
    ensures samples != [] ==> Output(c, a, samples) == samples[|samples| - 1] && Run(c, a, samples).index == 0
  {
    if samples != [] {
      var n := |samples| - 1;
      forall i | 0 <= i < n
        ensures !Outlier(c, SampleBefore(a, samples[..n], i), samples[..n][i])
      {
        assert SampleBefore(a, samples[..n], i) == SampleBefore(a, samples, i);
      }
      SmoothIsFollowed(c, a, samples[..n]);
      assert SampleBefore(a, samples[..n], n) == SampleBefore(a, samples, n);
    }
  }

  /** The first two axes hold back four spikes and the others two; the sixth holds back every change. */
  lemma AxisLimits(i: nat, previous: int, raw: int)
    requires i < AXES
    ensures LimitsOf(i).maxSpikes == if i == 0 || i == 1 then 4 else 2
    ensures Outlier(LimitsOf(i), previous, raw) <==> if i == 5 then raw != previous else raw < previous - 100 || previous + 100 < raw
  {
  }

  // ---- bursts and steps ----

  ghost predicate AllOutliers(c: Limits, previous: int, samples: seq<int>) {
    forall i :: 0 <= i < |samples| ==> Outlier(c, previous, samples[i])
  }

  /** A burst of at most maxSpikes outliers is held back whole. */
  lemma {:induction false} BurstIsHeldBack(c: Limits, a: Axis, burst: seq<int>)
    requires ValidLimits(c) && Valid(c, a) && a.index == 0
    requires |burst| <= c.maxSpikes && AllOutliers(c, a.previous, burst)
    ensures var r := Run(c, a, burst);
      r.previous == a.previous && r.index == |burst| && r.spikes[..|burst|] == burst
    ensures burst != [] ==> Output(c, a, burst) == a.previous
  {
    if burst != [] {
      var n := |burst| - 1;
      hide Outlier, Step;
      BurstIsHeldBack(c, a, burst[..n]);
      HoldsBackOneMore(c, Run(c, a, burst[..n]), burst[..n], burst[n]);
      assert burst == burst[..n] + [burst[n]];
    }
  }

  lemma HoldsBackOneMore(c: Limits, r: Axis, held: seq<int>, raw: int)
    requires ValidLimits(c) && Valid(c, r) && Outlier(c, r.previous, raw)
    requires r.index == |held| < c.maxSpikes && r.spikes[..|held|] == held
    ensures var (r', output) := Step(c, r, raw);
      && r'.previous == r.previous == output && r'.index == |held| + 1 && |r'.spikes| == |r.spikes|
      && r'.spikes[..|held| + 1] == held + [raw]
  {
    assert r.spikes[|held| := raw][..|held| + 1] == r.spikes[..|held|] + [raw];
  }

  /** One outlier more and the average of the burst is accepted, the outlier itself is not used. */
  lemma OneMoreIsAveraged(c: Limits, a: Axis, burst: seq<int>, raw: int)
    requires ValidLimits(c) && Valid(c, a) && a.index == 0
    requires |burst| == c.maxSpikes && AllOutliers(c, a.previous, burst) && Outlier(c, a.previous, raw)
    ensures Output(c, a, burst + [raw]) == Quotient(Sum(burst), c.maxSpikes)
    ensures Run(c, a, burst + [raw]).index == 0
  {
    BurstIsHeldBack(c, a, burst);
    assert (burst + [raw])[..|burst + [raw]| - 1] == burst;
  }

  /** A step that is held shows up exactly, and exactly at sample maxSpikes + 1. */
  lemma HeldStepIsFollowed(c: Limits, a: Axis, v: int, n: nat)
    requires ValidLimits(c) && Valid(c, a) && a.index == 0
    requires Outlier(c, a.previous, v) && 1 <= n <= c.maxSpikes + 1
    ensures Output(c, a, seq(n, _ => v)) == if n <= c.maxSpikes then a.previous else v
  {
    var held := seq(n, _ => v);
    if n <= c.maxSpikes {
      BurstIsHeldBack(c, a, held);
    } else {
      var burst := seq(c.maxSpikes, _ => v);
      OneMoreIsAveraged(c, a, burst, v);
      assert held == burst + [v];
      SumBounds(burst, v, v);
      AverageBounds(Sum(burst), c.maxSpikes, v, v);
    }
  }
}
