/**
  FiDevice::sendValue: a first-order filter whose output is scaled, clamped and sent, until a value
  that stays near the filtered one has been sent max_send_cnt times. Doubles are modelled as reals.
*/
module GaugeFilter {
  import opened Common
  import opened FiFrame

  datatype Config = Config(id: int, scale: real, minValue: int, maxValue: int, offset: int, k: real, maxSendCount: int)
  datatype Gauge = Gauge(filtered: real, device: int, sendCount: int)

  /** Multiplication under a name, so that proofs about sums can leave it alone. */
  function Times(a: real, b: real): real {
    a * b
  }

  function Magnitude(x: real): real {
    if x < 0.0 then -x else x
  }

  function Clamped(c: Config, d: int): int {
    if d < c.minValue then c.minValue else if d > c.maxValue then c.maxValue else d
  }

  function Filtered(c: Config, f: real, x: real): real {
    x + Times(c.k, f - x)
  }

  /** Whether a call with input x sends; a jump of more than one restarts the count first. */
  predicate Sends(c: Config, g: Gauge, x: real) {
    (if Magnitude(x - g.filtered) > 1.0 then 0 else g.sendCount) < c.maxSendCount
  }

  function Step(c: Config, g: Gauge, x: real): Gauge {
    var count := if Magnitude(x - g.filtered) > 1.0 then 0 else g.sendCount;
    if count < c.maxSendCount then
      var f := Filtered(c, g.filtered, x);
      Gauge(f, Clamped(c, Truncated(Times(f, c.scale)) + c.offset), count + 1)
    else g.(sendCount := count)
  }

  function Run(c: Config, g: Gauge, xs: seq<real>): Gauge {
    if xs == [] then g else Step(c, Run(c, g, xs[..|xs| - 1]), xs[|xs| - 1])
  }

  /** A gauge and the state its calls update. */
  class FiDevice {
    const config: Config
    var filteredValue: real
    var deviceValue: int
    var sendCount: int

    function View(): Gauge
      reads this
    {
      Gauge(filteredValue, deviceValue, sendCount)
    }

    constructor (config: Config)
      ensures this.config == config
      ensures View() == Gauge(config.minValue as real, config.minValue, 0)
    {
      this.config := config;
      filteredValue, deviceValue, sendCount := config.minValue as real, config.minValue, 0;
    }

    /** True unless a frame was due and the device did not take it; `sent` holds the frame if one was due. */
    method SendValue(cmd: int, inValue: real, bytesWritten: int) returns (ok: bool, sent: seq<int>)
      modifies this
      ensures View() == Step(config, old(View()), inValue)
      ensures sent == if Sends(config, old(View()), inValue) then Frame(Command(config.id, cmd, deviceValue)) else []
      ensures ok == (!Sends(config, old(View()), inValue) || bytesWritten == 8)
    {
      hide Frame, Truncated, Times;
      ok, sent := true, [];
      if Magnitude(inValue - filteredValue) > 1.0 {
        sendCount := 0;
      }
      if sendCount < config.maxSendCount {
        filteredValue := inValue + Times(config.k, filteredValue - inValue);
        deviceValue := Truncated(Times(filteredValue, config.scale)) + config.offset;
        if deviceValue < config.minValue {
          deviceValue := config.minValue;
        } else if deviceValue > config.maxValue {
          deviceValue := config.maxValue;
        }
        sendCount := sendCount + 1;
        var buffer;
        buffer, ok := SendCommand(config.id, cmd, deviceValue, bytesWritten);
        sent := buffer[..];
      }
    }
  }

  // ---- bounds ----

  /** The filtered value lies between the old one and the input. */
  lemma Between(c: Config, f: real, x: real, lo: real, hi: real)
    requires 0.0 < c.k < 1.0 && lo <= f <= hi && lo <= x <= hi
    ensures lo <= Filtered(c, f, x) <= hi
  {
    hide Times;
    PartOf(c.k, f - x);
  }

  lemma PartOf(k: real, u: real)
    requires 0.0 < k < 1.0
    ensures u >= 0.0 ==> 0.0 <= Times(k, u) <= u
    ensures u <= 0.0 ==> u <= Times(k, u) <= 0.0
  {
    assert Times(k, u) + Times(1.0 - k, u) == u;
    assert Times(k, 0.0) == 0.0 && Times(1.0 - k, 0.0) == 0.0;
    hide Times;
    if u >= 0.0 {
      Monotone(k, 0.0, u);
      Monotone(1.0 - k, 0.0, u);
    } else {
      Monotone(k, u, 0.0);
      Monotone(1.0 - k, u, 0.0);
    }
  }

  lemma Monotone(a: real, u: real, v: real)
    requires a >= 0.0 && u <= v
    ensures Times(a, u) <= Times(a, v)
  {
  }

  /** The filtered value never leaves the range of the start value and the inputs. */
  lemma {:induction false} StaysInHull(c: Config, g: Gauge, xs: seq<real>, lo: real, hi: real)
    requires 0.0 < c.k < 1.0
    requires lo <= g.filtered <= hi && forall i :: 0 <= i < |xs| ==> lo <= xs[i] <= hi
    ensures lo <= Run(c, g, xs).filtered <= hi
  {
    if xs != [] {
      var n := |xs| - 1;
      StaysInHull(c, g, xs[..n], lo, hi);
      hide Filtered, Magnitude, Truncated, Times;
      Between(c, Run(c, g, xs[..n]).filtered, xs[n], lo, hi);
    }
  }

  /** Every value sent is within the device's limits, for all inputs, exactly if the limits are in order. */
  lemma SentIsWithinLimitsIff(c: Config)
    requires c.maxSendCount > 0
    ensures (forall g: Gauge, x: real :: Sends(c, g, x) ==> c.minValue <= Step(c, g, x).device <= c.maxValue)
      <==> c.minValue <= c.maxValue
  {
    var g := Gauge(0.0, 0, 0);
    assert Sends(c, g, 0.0);
  }

  /** What is sent is the scaled value, or the limit nearest to it. */
  lemma SentIsNearest(c: Config, g: Gauge, x: real, other: int)
    requires Sends(c, g, x) && c.minValue <= other <= c.maxValue
    ensures var f := Filtered(c, g.filtered, x);
      var ideal := Truncated(Times(f, c.scale)) + c.offset;
      Abs(Step(c, g, x).device - ideal) <= Abs(other - ideal)
  {
  }

  /** A silent call means the filtered value is within one of the input. */
  lemma SilentIsNear(c: Config, g: Gauge, x: real)
    requires c.maxSendCount > 0
    ensures !Sends(c, g, x) <==> g.sendCount >= c.maxSendCount && Magnitude(x - g.filtered) <= 1.0
    ensures !Sends(c, g, x) ==> Step(c, g, x) == g
  {
  }

  // ---- a constant input ----

  function Power(k: real, n: nat): real {
    if n == 0 then 1.0 else Times(k, Power(k, n - 1))
  }

  /** How many of m calls with the same input send. */
  function SendsOf(c: Config, g: Gauge, x: real, m: nat): nat
    decreases m
  {
    if m == 0 then 0
    else (if Sends(c, g, x) then 1 else 0) + SendsOf(c, Step(c, g, x), x, m - 1)
  }

  /** Each send shrinks the distance to a constant input by the factor k. */
  lemma SendShrinksError(c: Config, g: Gauge, x: real)
    requires 0.0 < c.k < 1.0 && Sends(c, g, x)
    ensures Magnitude(x - Step(c, g, x).filtered) == Times(c.k, Magnitude(x - g.filtered))
  {
    Opposite(c.k, g.filtered - x);
    hide Times, Truncated, Clamped;
    PartOf(c.k, g.filtered - x);
  }

  lemma Opposite(k: real, u: real)
    ensures Times(k, -u) == -Times(k, u)
  {
  }

  /** Once within one of the input, a gauge uses up the rest of its count and falls silent. */
  lemma {:induction false} SettledSends(c: Config, g: Gauge, x: real, m: nat)
    requires 0.0 < c.k < 1.0 && 0 <= g.sendCount <= c.maxSendCount
    requires Magnitude(x - g.filtered) <= 1.0
    ensures SendsOf(c, g, x, m) == if m < c.maxSendCount - g.sendCount then m else c.maxSendCount - g.sendCount
    decreases m
  {
    hide Times, Truncated, Clamped, Filtered;
    if m > 0 {
      if Sends(c, g, x) {
        SendShrinksError(c, g, x);
        PartOf(c.k, Magnitude(x - g.filtered));
      }
      SettledSends(c, Step(c, g, x), x, m - 1);
    }
  }

  /** The error left after i sends. */
  ghost function Left(k: real, e: real, i: nat): real {
    Times(Power(k, i), e)
  }

  /** n is the least number of sends that brings the error e within one. */
  ghost predicate Reaches(k: real, e: real, n: nat) {
    Left(k, e, n) <= 1.0 && forall i: nat :: i < n ==> Left(k, e, i) > 1.0
  }

  /** The exact number of sends for a constant input: one per call until near, then max_send_cnt - 1 more. */
  lemma {:induction false} ConstantInputSends(c: Config, g: Gauge, x: real, n: nat, m: nat)
    requires 0.0 < c.k < 1.0 && 0 <= g.sendCount <= c.maxSendCount && c.maxSendCount > 0
    requires Reaches(c.k, Magnitude(x - g.filtered), n)
    ensures SendsOf(c, g, x, m) ==
      if n == 0 then (if m < c.maxSendCount - g.sendCount then m else c.maxSendCount - g.sendCount)
      else if m < n + c.maxSendCount - 1 then m else n + c.maxSendCount - 1
    decreases n
  {
    var e := Magnitude(x - g.filtered);
    NothingLeftOff(c.k, e);
    hide Times, Truncated, Clamped, Filtered, Left;
    if n == 0 {
      SettledSends(c, g, x, m);
    } else if m > 0 {
      assert e > 1.0;
      SendShrinksError(c, g, x);
      ShiftReaches(c.k, e, n);
      ConstantInputSends(c, Step(c, g, x), x, n - 1, m - 1);
    }
  }

  lemma NothingLeftOff(k: real, e: real)
    ensures Left(k, e, 0) == e
  {
  }

  lemma ShiftReaches(k: real, e: real, n: nat)
    requires n > 0 && Reaches(k, e, n)
    ensures Reaches(k, Times(k, e), n - 1)
  {
    hide Times;
    LeftShifts(k, e, n - 1);
    var e' := Times(k, e);
    forall i: nat | i < n - 1
      ensures Left(k, e', i) > 1.0
    {
      LeftShifts(k, e, i);
      assert Left(k, e, i + 1) > 1.0;
    }
  }

  lemma LeftShifts(k: real, e: real, i: nat)
    ensures Left(k, Times(k, e), i) == Left(k, e, i + 1)
  {
    Reordered(k, e, Power(k, i));
    hide Times;
    assert Power(k, i + 1) == Times(k, Power(k, i));
  }

  lemma Reordered(k: real, e: real, p: real)
    ensures Times(p, Times(k, e)) == Times(Times(k, p), e)
  {
  }

  /** In particular there are never more than n + max_send_cnt sends. */
  lemma ConstantInputBound(c: Config, g: Gauge, x: real, n: nat, m: nat)
    requires 0.0 < c.k < 1.0 && 0 <= g.sendCount <= c.maxSendCount && c.maxSendCount > 0
    requires Reaches(c.k, Magnitude(x - g.filtered), n)
    ensures SendsOf(c, g, x, m) <= n + c.maxSendCount
  {
    ConstantInputSends(c, g, x, n, m);
  }

  // ---- every constant input is reached ----

  /** Bernoulli's inequality for 1/k, multiplied out: k^n (k + n (1 - k)) <= k. */
  lemma {:induction false} PowerDecays(k: real, n: nat)
    requires 0.0 < k < 1.0
    ensures 0.0 < Power(k, n) <= 1.0
    ensures Times(Power(k, n), k + Times(n as real, 1.0 - k)) <= k
  {
    if n > 0 {
      PowerDecays(k, n - 1);
      BernoulliStep(k, Power(k, n - 1), (n - 1) as real);
      hide Times;
      assert (n - 1) as real + 1.0 == n as real;
    } else {
      assert Times(0.0, 1.0 - k) == 0.0 && Times(1.0, k) == k;
      hide Times;
      assert Power(k, 0) == 1.0 && n as real == 0.0;
    }
  }

  lemma BernoulliStep(k: real, p: real, a: real)
    requires 0.0 < k < 1.0 && 0.0 < p <= 1.0 && a >= 0.0
    requires Times(p, k + Times(a, 1.0 - k)) <= k
    ensures 0.0 < Times(k, p) <= 1.0
    ensures Times(Times(k, p), k + Times(a + 1.0, 1.0 - k)) <= k
  {
    PartOf(k, p);
    Positive(k, p);
    var d := 1.0 - k;
    var q := Times(p, k + Times(a, d));
    BernoulliSplit(k, p, a);
    Monotone(k, q, k);
    Monotone(Times(k, d), p, 1.0);
    assert Times(k, k) + Times(Times(k, d), 1.0) == k;
  }

  lemma Positive(a: real, b: real)
    requires a > 0.0 && b > 0.0
    ensures Times(a, b) > 0.0
  {
  }

  lemma BernoulliSplit(k: real, p: real, a: real)
    ensures Times(Times(k, p), k + Times(a + 1.0, 1.0 - k))
      == Times(k, Times(p, k + Times(a, 1.0 - k))) + Times(Times(k, 1.0 - k), p)
  {
  }

  /** For every error there is such an n, so a gauge with a constant input always falls silent. */
  lemma AlwaysReaches(k: real, e: real) returns (n: nat)
    requires 0.0 < k < 1.0 && e >= 0.0
    ensures Reaches(k, e, n)
  {
    n := Enough(k, e);
    n := Least(k, e, n);
  }

  lemma Enough(k: real, e: real) returns (n: nat)
    requires 0.0 < k < 1.0 && e >= 0.0
    ensures Left(k, e, n) <= 1.0
  {
    var d := 1.0 - k;
    var r := Quotient(e, d);
    n := r.Floor + 1;
    PowerDecays(k, n);
    assert Times(d, r) == Times(r, d) && Times(d, n as real) == Times(n as real, d);
    hide Times;
    Monotone(d, r, n as real);
    Monotone(Power(k, n), e, k + Times(n as real, d));
  }

  lemma Quotient(e: real, d: real) returns (r: real)
    requires e >= 0.0 && d > 0.0
    ensures r >= 0.0 && Times(r, d) == e
  {
    r := e / d;
    assert r * d == e;
    NonNegativeFactor(r, d);
  }

  lemma NonNegativeFactor(r: real, d: real)
    requires d > 0.0 && r * d >= 0.0
    ensures r >= 0.0
  {
  }

  lemma {:induction false} Least(k: real, e: real, n: nat) returns (m: nat)
    requires Left(k, e, n) <= 1.0
    ensures Reaches(k, e, m)
    decreases n
  {
    hide Left;
    if i: nat :| i < n && Left(k, e, i) <= 1.0 {
      m := Least(k, e, i);
    } else {
      m := n;
    }
  }
}
