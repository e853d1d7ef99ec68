/**
  The two-bit gray-code encoders on Mastercard inputs (mastercard_encoder, type 2). A pin reads 0 or
  1, or -1 before its first report; the pair that was last accepted is kept as `Pins`.
*/
module Encoder {
  import opened Common

  datatype Pins = Pins(high: int, low: int)

  const UNREAD := Pins(-1, -1)

  ghost predicate Readable(p: Pins) {
    -1 <= p.high <= 1 && -1 <= p.low <= 1
  }

  predicate Known(p: Pins) {
    0 <= p.high <= 1 && 0 <= p.low <= 1
  }

  /** (high << 1) | low in two's complement: an unread low pin makes it -1, an unread high pin -1 or -2. */
  function Code(p: Pins): int {
    if p.low == -1 then -1
    else if p.high == -1 then (if p.low == 0 then -2 else -1)
    else 2 * p.high + p.low
  }

  /** The place of a two-bit code in the gray sequence 00, 01, 11, 10. */
  function Place(code: int): int {
    match code
    case 0 => 0
    case 1 => 1
    case 3 => 2
    case _ => 3
  }

  /** One step on or back along the sequence; anything else has no direction. */
  function Direction(before: int, after: int): int {
    if !(0 <= before <= 3 && 0 <= after <= 3) then 0
    else if Place(after) == (Place(before) + 1) % 4 then 1
    else if Place(before) == (Place(after) + 1) % 4 then -1
    else 0
  }

  /** One sample: the pair kept afterwards and the direction reported. An illegal jump is not kept. */
  function Sampled(saved: Pins, pins: Pins): (Pins, int) {
    var before, after := Code(saved), Code(pins);
    if before != after && before != -1 then
      var d := Direction(before, after);
      (if d != 0 then pins else saved, d)
    else (pins, 0)
  }

  function SavedAfter(saved: Pins, samples: seq<Pins>): Pins {
    if samples == [] then saved
    else Sampled(SavedAfter(saved, samples[..|samples| - 1]), samples[|samples| - 1]).0
  }

  /** The sum of the directions reported over a run of samples. */
  function Reported(saved: Pins, samples: seq<Pins>): int {
    if samples == [] then 0
    else
      var before := samples[..|samples| - 1];
      Reported(saved, before) + Sampled(SavedAfter(saved, before), samples[|samples| - 1]).1
  }

  // ---- tracking ----

  function Index(p: Pins): (i: int)
    ensures 0 <= i < 4
  {
    Place(Code(p))
  }

  /** The place that many steps further on. */
  function Moved(place: int, steps: int): int {
    (place + steps) % 4
  }

  lemma MovedTwice(place: int, a: int, b: int)
    ensures Moved(Moved(place, a), b) == Moved(place, a + b)
  {
    AddModulo4(place + a, b);
  }

  lemma AddModulo4(a: int, b: int)
    ensures (a % 4 + b) % 4 == (a + b) % 4
  {
  }

  /** Over any samples, jumps included, the saved place is the first one moved by the reports. */
  lemma {:induction false} ReportsTrackSavedPlace(saved: Pins, samples: seq<Pins>)
    requires Known(saved)
    requires forall i :: 0 <= i < |samples| ==> Known(samples[i])
    ensures Known(SavedAfter(saved, samples))
    ensures Index(SavedAfter(saved, samples)) == Moved(Index(saved), Reported(saved, samples))
  {
    hide Known, Index, Moved, Sampled;
    if samples == [] {
      MovedNowhere(saved);
    } else {
      var n := |samples| - 1;
      ReportsTrackSavedPlace(saved, samples[..n]);
      var before := SavedAfter(saved, samples[..n]);
      SampleTracks(before, samples[n]);
      MovedTwice(Index(saved), Reported(saved, samples[..n]), Sampled(before, samples[n]).1);
    }
  }

  lemma MovedNowhere(saved: Pins)
    ensures Moved(Index(saved), 0) == Index(saved)
  {
  }

  lemma SampleTracks(saved: Pins, pins: Pins)
    requires Known(saved) && Known(pins)
    ensures var (kept, d) := Sampled(saved, pins);
      Known(kept) && Index(kept) == Moved(Index(saved), d)
  {
  }

  /** The pins of an encoder at a mechanical position. */
  function PinsAt(position: int): (p: Pins)
    ensures Known(p) && Index(p) == position % 4
  {
    var i := position % 4;
    Pins(if i >= 2 then 1 else 0, if i == 1 || i == 2 then 1 else 0)
  }

  /** One sample of a tracked encoder reports its move exactly if that is at most one step. */
  lemma OneStepIsExact(p: int, q: int)
    ensures Sampled(PinsAt(p), PinsAt(q)) == (PinsAt(q), q - p) <==> -1 <= q - p <= 1
  {
  }

  function PositionBefore(start: int, positions: seq<int>, i: nat): int
    requires i <= |positions|
  {
    if i == 0 then start else positions[i - 1]
  }

  function SamplesAt(positions: seq<int>): seq<Pins> {
    seq(|positions|, i requires 0 <= i < |positions| => PinsAt(positions[i]))
  }

  /** Moving at most one step between samples, the reports sum to the true displacement. */
  lemma {:induction false} SlowEncoderIsExact(start: int, positions: seq<int>)
    requires forall i :: 0 <= i < |positions| ==> -1 <= positions[i] - PositionBefore(start, positions, i) <= 1
    ensures var end := PositionBefore(start, positions, |positions|);
      && SavedAfter(PinsAt(start), SamplesAt(positions)) == PinsAt(end)
      && Reported(PinsAt(start), SamplesAt(positions)) == end - start
  {
    if positions != [] {
      var n := |positions| - 1;
      forall i | 0 <= i < n
        ensures -1 <= positions[..n][i] - PositionBefore(start, positions[..n], i) <= 1
      {
        assert PositionBefore(start, positions[..n], i) == PositionBefore(start, positions, i);
      }
      SlowEncoderIsExact(start, positions[..n]);
      assert SamplesAt(positions)[..n] == SamplesAt(positions[..n]);
      assert PositionBefore(start, positions[..n], n) == PositionBefore(start, positions, n);
      OneStepIsExact(PositionBefore(start, positions, n), positions[n]);
    }
  }

  // ---- an encoder whose low pin is reported before its high pin ----

  /** From an unread pair, one sample leads to the code -2 exactly if it has only the low pin, at 0. */
  lemma DeadIffLowPinAlone(saved: Pins, pins: Pins)
    requires Readable(saved) && Readable(pins) && Code(saved) == -1
    ensures Sampled(saved, pins) == (pins, 0)
    ensures Code(Sampled(saved, pins).0) == -2 <==> pins == Pins(-1, 0)
  {
  }

  /** With the code -2 saved, no known sample is ever reported or kept: the encoder stays dead. */
  lemma {:induction false} DeadForever(saved: Pins, samples: seq<Pins>)
    requires Code(saved) == -2
    requires forall i :: 0 <= i < |samples| ==> Known(samples[i])
    ensures SavedAfter(saved, samples) == saved && Reported(saved, samples) == 0
  {
    if samples != [] {
      DeadForever(saved, samples[..|samples| - 1]);
    }
  }

  // ---- acceleration ----

  const MIN_TIME := 0.001
  const MAX_TIME := 0.8

  /** The factor for a turn `dt` seconds after the previous one; a clock that ran back counts as fast. */
  function Acceleration(dt: real, accelerator: real): int {
    1 + Truncated(MAX_TIME / (if dt < MIN_TIME then MIN_TIME else dt) * accelerator)
  }

  lemma AccelerationBounds(dt: real, accelerator: real)
    requires accelerator >= 0.0
    ensures 1 <= Acceleration(dt, accelerator)
    ensures Acceleration(dt, accelerator) as real <= 1.0 + 800.0 * accelerator
  {
    var d := if dt < MIN_TIME then MIN_TIME else dt;
    Quotient(d);
    Product(MAX_TIME / d, accelerator);
  }

  /** The factor is one more than the whole part of accelerator * MAX_TIME over the time since the last turn. */
  lemma AccelerationIsExact(dt: real, accelerator: real)
    requires accelerator >= 0.0
    ensures var d := if dt < MIN_TIME then MIN_TIME else dt;
      var n := Acceleration(dt, accelerator);
      n >= 1 && Times(d, (n - 1) as real) <= Times(MAX_TIME, accelerator) < Times(d, n as real)
  {
    var d := if dt < MIN_TIME then MIN_TIME else dt;
    var q := MAX_TIME / d;
    assert Times(q, d) == MAX_TIME by { assert q * d == MAX_TIME; }
    Quotient(d);
    Product(q, accelerator);
    TruncatedTowardZero(q * accelerator);
    var n := Truncated(q * accelerator);
    assert q * accelerator == Times(q, accelerator);
    Scaled(d, n as real, Times(q, accelerator));
    ScaledLess(d, Times(q, accelerator), n as real + 1.0);
    Exchanged(d, q, accelerator);
    hide Times;
    assert (n + 1) as real == n as real + 1.0;
  }

  function Times(a: real, b: real): real {
    a * b
  }

  lemma Scaled(d: real, a: real, b: real)
    requires d >= 0.0 && a <= b
    ensures Times(d, a) <= Times(d, b)
  {
  }

  lemma ScaledLess(d: real, a: real, b: real)
    requires d > 0.0 && a < b
    ensures Times(d, a) < Times(d, b)
  {
  }

  lemma Exchanged(d: real, q: real, a: real)
    ensures Times(d, Times(q, a)) == Times(Times(q, d), a)
  {
  }

  lemma Quotient(d: real)
    requires d >= MIN_TIME
    ensures 0.0 <= MAX_TIME / d <= 800.0
  {
    var q := MAX_TIME / d;
    assert q * d == MAX_TIME;
    Factor(q, d);
  }

  lemma Factor(q: real, d: real)
    requires q * d == MAX_TIME && d >= MIN_TIME
    ensures 0.0 <= q <= 800.0
  {
  }

  lemma Product(q: real, a: real)
    requires 0.0 <= q <= 800.0 && a >= 0.0
    ensures 0.0 <= q * a <= 800.0 * a
  {
  }

  /** The encoder's own state, and the poll that updates it. */
  class MastercardEncoder {
    var saved: Pins

    constructor ()
      ensures saved == UNREAD
    {
      saved := UNREAD;
    }

    /**
      One poll: 1 if a legal turn moved the value, 0 if not, -1 if the card, the pin or the value is
      not usable.
    */
    method Poll(usable: bool, pins: Pins, value: real, multiplier: real, accelerator: real, dt: real)
      returns (retval: int, newValue: real)
      modifies this
      ensures !usable ==> saved == old(saved) && retval == -1 && newValue == value
      ensures usable ==>
        var (kept, d) := Sampled(old(saved), pins);
        && saved == kept
        && newValue == value + (d * Acceleration(dt, accelerator)) as real * multiplier
        && retval == if d != 0 then 1 else 0
    {
      retval, newValue := 0, value;
      if !usable {
        return -1, value;
      }
      var oldcount, newcount := Code(saved), Code(pins);
      if oldcount != newcount && oldcount != -1 {
        var updown := 0;
        if (oldcount == 0 && newcount == 1) || (oldcount == 1 && newcount == 3)
          || (oldcount == 3 && newcount == 2) || (oldcount == 2 && newcount == 0) {
          updown := 1;
        } else if (oldcount == 2 && newcount == 3) || (oldcount == 3 && newcount == 1)
          || (oldcount == 1 && newcount == 0) || (oldcount == 0 && newcount == 2) {
          updown := -1;
        }
        if updown != 0 {
          newValue := value + (updown * Acceleration(dt, accelerator)) as real * multiplier;
          saved := pins;
          retval := 1;
        }
      } else {
        saved := pins;
      }
    }
  }
}
