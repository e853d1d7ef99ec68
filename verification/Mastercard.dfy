/**
  The Mastercard input protocol: which of 32 slots (8 on each of 4 cards) report, one byte for the
  first eight inputs of each, then the ninth inputs packed eight to a byte, split over USB packets.
  Only card 0 is wired (NCARDS is 1). Slots are numbered in scan order: 8 * card + slot.
*/
module Mastercard {
  import opened Bits

  const CARDS := 4
  const SLOTS := 8
  const SCAN := 32
  const INPUTS := 72

  /** Slot states 0 absent, 1 to be read, 2 first eight read, 3 done; the inputs of card 0; the axes. */
  datatype State = State(slots: seq<int>, inputs: seq<int>, axes: seq<int>)

  predicate Shaped(st: State) {
    |st.slots| == SCAN && |st.inputs| == INPUTS && |st.axes| == 4
  }

  // ---- what one data byte does ----

  /** How many of the first n slots are in state v. */
  function Count(slots: seq<int>, v: int, n: nat): (c: nat)
    requires n <= |slots|
    ensures c <= n
  {
    if n == 0 then 0 else Count(slots, v, n - 1) + if slots[n - 1] == v then 1 else 0
  }

  /** The first slot still to be read. */
  function First(slots: seq<int>, n: nat): (i: nat)
    requires n <= |slots| && Count(slots, 1, n) > 0
    ensures i < n && slots[i] == 1 && Count(slots, 1, i) == 0
  {
    if Count(slots, 1, n - 1) > 0 then First(slots, n - 1) else n - 1
  }

  function EightInputs(inputs: seq<int>, slot: nat, b: nat): (r: seq<int>)
    requires |inputs| == INPUTS
    ensures |r| == INPUTS
  {
    seq(INPUTS, j requires 0 <= j < INPUTS => if j / 9 == slot && j % 9 < 8 then Bit(b, j % 9) else inputs[j])
  }

  /** Whether slot i takes its ninth input from the current byte: among the first eight waiting. */
  predicate TakesNinth(slots: seq<int>, i: nat)
    requires i < |slots|
  {
    slots[i] == 2 && Count(slots, 2, i) < 8
  }

  function NinthSlots(slots: seq<int>): (r: seq<int>)
    ensures |r| == |slots|
  {
    seq(|slots|, i requires 0 <= i < |slots| => if TakesNinth(slots, i) then 3 else slots[i])
  }

  function NinthInputs(slots: seq<int>, inputs: seq<int>, b: nat): (r: seq<int>)
    requires |slots| == SCAN && |inputs| == INPUTS
    ensures |r| == INPUTS
  {
    seq(INPUTS, j requires 0 <= j < INPUTS =>
      if j % 9 == 8 && TakesNinth(slots, j / 9)
      then Bit(b, (Count(slots, 3, j / 9) + Count(slots, 2, j / 9)) % 8)
      else inputs[j])
  }

  function DataByte(st: State, b: nat): (r: State)
    requires Shaped(st)
    ensures Shaped(r)
  {
    if Count(st.slots, 1, SCAN) > 0 then
      var i := First(st.slots, SCAN);
      st.(slots := st.slots[i := 2], inputs := if i < SLOTS then EightInputs(st.inputs, i, b) else st.inputs)
    else
      st.(slots := NinthSlots(st.slots), inputs := NinthInputs(st.slots, st.inputs, b))
  }

  function DataBytes(st: State, bytes: seq<nat>): (r: State)
    requires Shaped(st)
    ensures Shaped(r)
  {
    if bytes == [] then st else DataByte(DataBytes(st, bytes[..|bytes| - 1]), bytes[|bytes| - 1])
  }

  // ---- what one packet does ----

  function Axis(p: seq<nat>): nat
    requires |p| >= 8
  {
    (p[0] / 16) % 8
  }

  function Start(p: seq<nat>): nat
    requires |p| >= 8
  {
    if Axis(p) == 0 then 1 else 2
  }

  /** The cards below c that the first byte announces. */
  function CardsBefore(b: nat, c: nat): (n: nat)
    ensures n <= c
  {
    if c == 0 then 0 else CardsBefore(b, c - 1) + Bit(b, c - 1)
  }

  function Announced(p: seq<nat>, i: nat): bool
    requires |p| >= 8 && i < SCAN
  {
    Bit(p[0], i / 8) == 1 && Bit(p[Start(p) + CardsBefore(p[0], i / 8)], i % 8) == 1
  }

  function AnnouncedSlots(p: seq<nat>): (r: seq<int>)
    requires |p| >= 8
    ensures |r| == SCAN
  {
    seq(SCAN, i requires 0 <= i < SCAN => if Announced(p, i) then 1 else 0)
  }

  /** The protocol's packets: eight bytes or more, and at most four axes. */
  ghost predicate IsPacket(p: seq<nat>) {
    |p| >= 8 && Axis(p) <= 4 && forall i :: 0 <= i < |p| ==> p[i] < 256
  }

  function FirstData(p: seq<nat>): (n: nat)
    requires |p| >= 8
    ensures n <= 6
  {
    Start(p) + if Bit(p[0], 7) == 0 then CardsBefore(p[0], CARDS) else 0
  }

  function Headed(st: State, p: seq<nat>): (r: State)
    requires Shaped(st) && IsPacket(p)
    ensures Shaped(r)
  {
    var st' := if Axis(p) > 0 then st.(axes := st.axes[Axis(p) - 1 := p[1]]) else st;
    if Bit(p[0], 7) == 0 then st'.(slots := AnnouncedSlots(p)) else st'
  }

  function Packet(st: State, p: seq<nat>): (r: State)
    requires Shaped(st) && IsPacket(p)
    ensures Shaped(r)
  {
    DataBytes(Headed(st, p), p[FirstData(p)..8])
  }

  function Packets(st: State, ps: seq<seq<nat>>): (r: State)
    requires Shaped(st)
    requires forall i :: 0 <= i < |ps| ==> IsPacket(ps[i])
    ensures Shaped(r)
  {
    if ps == [] then st else Packet(Packets(st, ps[..|ps| - 1]), ps[|ps| - 1])
  }
}
