/**
  The LED side of an InterfaceIT board: led_state says what was requested, led_buffer holds the eight
  32-bit column words from which the packets are built, and a request that changes nothing is not sent.
*/
module Leds {
  import opened Common
  import opened Bits

  const LEDS := 256
  const COLUMNS := 8
  const WORD: nat := 0x1_0000_0000

  datatype Status = Ok | NotEnabled | AlreadyEnabled | Failed | InvalidPointer

  datatype Board = Board(open: bool, enabled: bool, ledSize: nat, state: seq<bool>, buffer: seq<nat>)

  ghost predicate Shaped(b: Board) {
    && |b.state| == LEDS && |b.buffer| == COLUMNS && b.ledSize <= LEDS
    && forall c :: 0 <= c < COLUMNS ==> b.buffer[c] < WORD
  }

  /** LED n sits in column n % 8, row n / 8. */
  predicate BufferBit(buffer: seq<nat>, n: nat)
    requires |buffer| == COLUMNS
  {
    Bit(buffer[n % 8], n / 8) == 1
  }

  /** The two copies agree on every LED. */
  ghost predicate Coherent(b: Board)
    requires Shaped(b)
  {
    forall n :: 0 <= n < LEDS ==> (b.state[n] <==> BufferBit(b.buffer, n))
  }

  /** The column word with LED n switched. */
  function Switched(buffer: seq<nat>, n: nat, on: bool): (r: seq<nat>)
    requires |buffer| == COLUMNS && n < LEDS
    ensures |r| == COLUMNS
  {
    buffer[n % 8 := if on then SetBit(buffer[n % 8], n / 8) else ClearBit(buffer[n % 8], n / 8)]
  }

  /** The report that carries a column: its number and its word in little-endian bytes. */
  function ColumnPacket(column: nat, word: nat): seq<nat> {
    [0x15, column, word % 256, word / 256 % 256, word / 65536 % 256, word / 16777216 % 256, 0, 0]
  }

  /** pLED_Set for LED number nLED, counted from one; `writes` says whether the device takes a report. */
  function LedSet(b: Board, nLED: int, on: bool, writes: bool): (r: (Board, Status, seq<nat>))
    requires Shaped(b)
  {
    var n := nLED - 1;
    if !b.enabled then (b, NotEnabled, [])
    else if !b.open || n < 0 || n >= b.ledSize then (b, InvalidPointer, [])
    else if on == b.state[n] then (b, Ok, [])
    else
      var buffer := Switched(b.buffer, n, on);
      var packet := ColumnPacket(n % 8, buffer[n % 8]);
      if !writes then (b.(buffer := buffer), Failed, packet)
      else (b.(buffer := buffer, state := b.state[n := on]), Ok, packet)
  }

  /** pLED_Enable: the states are cleared, the buffer is not. */
  function LedEnable(b: Board, enable: bool, writes: bool): (Board, Status)
    requires Shaped(b)
  {
    if !b.open then (b, InvalidPointer)
    else if enable && b.enabled then (b, AlreadyEnabled)
    else if !writes then (b, Failed)
    else (b.(enabled := enable, state := seq(LEDS, n requires 0 <= n < LEDS => n >= b.ledSize && b.state[n])), Ok)
  }

  // ---- the board in place ----

  class BoundDevice {
    var isOpen: bool
    var ledEnabled: bool
    var ledSize: nat
    const ledState: array<bool>
    const ledBuffer: array<nat>

    ghost predicate Valid()
      reads this, ledBuffer
    {
      && ledState.Length == LEDS && ledBuffer.Length == COLUMNS && ledSize <= LEDS
      && forall c :: 0 <= c < COLUMNS ==> ledBuffer[c] < WORD
    }

    ghost function View(): Board
      reads this, ledState, ledBuffer
    {
      Board(isOpen, ledEnabled, ledSize, ledState[..], ledBuffer[..])
    }

    constructor (ledSize: nat)
      requires ledSize <= LEDS
      ensures Valid() && fresh(ledState) && fresh(ledBuffer)
      ensures !isOpen && !ledEnabled && this.ledSize == ledSize
      ensures Shaped(View()) && Coherent(View())
    {
      isOpen, ledEnabled := false, false;
      this.ledSize := ledSize;
      ledState := new bool[LEDS](_ => false);
      ledBuffer := new nat[COLUMNS](_ => 0);
      new;
      forall n | 0 <= n < LEDS {
        BitOfZero(n / 8);
      }
    }

    method PLedSet(nLED: int, on: bool, writes: bool) returns (status: Status, packet: seq<nat>)
      requires Valid()
      modifies ledState, ledBuffer
      ensures Valid()
      ensures (View(), status, packet) == LedSet(old(View()), nLED, on, writes)
    {
      packet := [];
      var n := nLED - 1;
      if !ledEnabled {
        return NotEnabled, packet;
      }
      if isOpen && n >= 0 && n < ledSize {
        if on != ledState[n] {
          var row, column := n / 8, n % 8;
          WordKept(ledBuffer[column], row);
          if on {
            ledBuffer[column] := SetBit(ledBuffer[column], row);
          } else {
            ledBuffer[column] := ClearBit(ledBuffer[column], row);
          }
          assert ledBuffer[..] == Switched(old(ledBuffer[..]), n, on);
          packet := ColumnPacket(column, ledBuffer[column]);
          if !writes {
            return Failed, packet;
          }
          ledState[n] := on;
          assert ledState[..] == old(ledState[..])[n := on];
        }
        return Ok, packet;
      }
      return InvalidPointer, packet;
    }

    method PLedEnable(enable: bool, writes: bool) returns (status: Status)
      requires Valid()
      modifies this, ledState
      ensures Valid()
      ensures (View(), status) == LedEnable(old(View()), enable, writes)
    {
      if !isOpen {
        return InvalidPointer;
      }
      if enable && ledEnabled {
        return AlreadyEnabled;
      }
      if !writes {
        return Failed;
      }
      ledEnabled := enable;
      for i := 0 to ledSize
        invariant ledSize == old(ledSize) && isOpen && ledEnabled == enable
        invariant forall n :: 0 <= n < LEDS ==> ledState[n] == (n >= i && old(ledState[n]))
        invariant ledBuffer[..] == old(ledBuffer[..])
      {
        ledState[i] := false;
      }
      assert ledState[..] == LedEnable(old(View()), enable, writes).0.state;
      // the loop over led_buffer assigns to copies of its elements
      return Ok;
    }
  }

  lemma WordKept(x: nat, row: nat)
    requires x < WORD && row < 32
    ensures SetBit(x, row) < WORD && ClearBit(x, row) < WORD
  {
    assert Pow2(32) == WORD by {
      assert Pow2(8) == 256;
      assert Pow2(16) == 65536 by { assert Pow2(12) == 4096; }
      assert Pow2(20) == 1048576;
      assert Pow2(24) == 16777216;
      assert Pow2(28) == 268435456;
    }
    SetClearBound(x, row, 32);
  }

  // ---- what setting LEDs keeps ----

  lemma SwitchedBits(buffer: seq<nat>, n: nat, on: bool, m: nat)
    requires |buffer| == COLUMNS && n < LEDS && m < LEDS
    ensures BufferBit(Switched(buffer, n, on), m) <==> if m == n then on else BufferBit(buffer, m)
  {
    if m % 8 == n % 8 {
      BitOfSetBit(buffer[n % 8], n / 8, m / 8);
      BitOfClearBit(buffer[n % 8], n / 8, m / 8);
      assert m == 8 * (m / 8) + m % 8 && n == 8 * (n / 8) + n % 8;
    }
  }

  lemma SetKeepsShape(b: Board, nLED: int, on: bool, writes: bool)
    requires Shaped(b)
    ensures Shaped(LedSet(b, nLED, on, writes).0)
  {
    var n := nLED - 1;
    if 0 <= n < LEDS {
      WordKept(b.buffer[n % 8], n / 8);
    }
  }

  /** A request keeps the copies together exactly if its write succeeds or nothing has to be written. */
  lemma SetKeepsCoherentIff(b: Board, nLED: int, on: bool, writes: bool)
    requires Shaped(b) && Coherent(b)
    ensures var (b', status, packet) := LedSet(b, nLED, on, writes);
      Shaped(b') && (Coherent(b') <==> writes || packet == [])
  {
    SetKeepsShape(b, nLED, on, writes);
    var (b', status, packet) := LedSet(b, nLED, on, writes);
    if packet != [] {
      var n := nLED - 1;
      forall m | 0 <= m < LEDS
        ensures BufferBit(b'.buffer, m) <==> if m == n then on else BufferBit(b.buffer, m)
      {
        SwitchedBits(b.buffer, n, on, m);
      }
      assert b'.state[n] == if writes then on else b.state[n];
    }
  }

  /**
    A request is answered by what it finds: a disabled board first, then a closed one or an LED that is
    not there; otherwise something is written exactly if the LED is not as requested, and the answer
    says whether that failed.
  */
  lemma RequestIsAnswered(b: Board, nLED: int, on: bool, writes: bool)
    requires Shaped(b)
    ensures var (b', status, packet) := LedSet(b, nLED, on, writes);
      var reaches := b.enabled && b.open && 1 <= nLED <= b.ledSize;
      && (packet != [] <==> reaches && b.state[nLED - 1] != on)
      && (status == NotEnabled <==> !b.enabled)
      && (status == InvalidPointer <==> b.enabled && !reaches)
      && (status == Failed <==> packet != [] && !writes)
      && (packet == [] ==> b' == b)
      && b'.(state := b.state, buffer := b.buffer) == b
  {
  }

  /** Enabling or disabling is refused on a closed board, when it is enabled already and when the write fails. */
  lemma EnableIsAnswered(b: Board, enable: bool, writes: bool)
    requires Shaped(b)
    ensures var (b', status) := LedEnable(b, enable, writes);
      && (status == Ok <==> b.open && !(enable && b.enabled) && writes)
      && (status == InvalidPointer <==> !b.open)
      && (status == AlreadyEnabled <==> b.open && enable && b.enabled)
      && (status == Ok ==> b'.enabled == enable)
      && (status != Ok ==> b' == b)
  {
  }

  /** A failed request is repaired by repeating it. */
  lemma RetryRepairs(b: Board, nLED: int, on: bool)
    requires Shaped(b) && Coherent(b)
    requires LedSet(b, nLED, on, false).1 == Failed
    ensures var b1 := LedSet(b, nLED, on, false).0;
      Shaped(b1) && LedSet(b1, nLED, on, true).0 == LedSet(b, nLED, on, true).0
  {
    SetKeepsShape(b, nLED, on, false);
    var n := nLED - 1;
    var b1, b2 := LedSet(b, nLED, on, false).0, LedSet(b, nLED, on, true).0;
    SetTwice(b.buffer[n % 8], n / 8);
    assert Switched(b1.buffer, n, on) == Switched(b.buffer, n, on);
  }

  lemma {:induction false} SetTwice(x: nat, k: nat)
    ensures SetBit(SetBit(x, k), k) == SetBit(x, k)
    ensures ClearBit(ClearBit(x, k), k) == ClearBit(x, k)
  {
    if k > 0 {
      SetTwice(x / 2, k - 1);
      assert SetBit(x, k) / 2 == SetBit(x / 2, k - 1) && ClearBit(x, k) / 2 == ClearBit(x / 2, k - 1);
    }
  }

  // ---- the device ----

  /** A device that takes the word of a column from a report. */
  function Applied(columns: seq<nat>, packet: seq<nat>): (r: seq<nat>)
    requires |columns| == COLUMNS
    ensures |r| == COLUMNS
  {
    if |packet| == 8 && packet[0] == 0x15 && packet[1] < COLUMNS && packet[6] == packet[7] == 0
    then columns[packet[1] := packet[2] + 256 * packet[3] + 65536 * packet[4] + 16777216 * packet[5]]
    else columns
  }

  lemma PacketCarriesWord(word: nat)
    requires word < WORD
    ensures word % 256 + 256 * (word / 256 % 256) + 65536 * (word / 65536 % 256) + 16777216 * (word / 16777216 % 256) == word
  {
    assert word / 65536 == word / 256 / 256 && word / 16777216 == word / 65536 / 256;
  }

  datatype Request = Request(nLED: int, on: bool)

  /** The board and the device after a run of successful requests. */
  function Lit(b: Board, columns: seq<nat>, requests: seq<Request>): (r: (Board, seq<nat>))
    requires Shaped(b) && |columns| == COLUMNS
    ensures Shaped(r.0) && |r.1| == COLUMNS
  {
    if requests == [] then (b, columns)
    else
      var (b', columns') := Lit(b, columns, requests[..|requests| - 1]);
      var last := requests[|requests| - 1];
      SetKeepsShape(b', last.nLED, last.on, true);
      var (b'', status, packet) := LedSet(b', last.nLED, last.on, true);
      (b'', Applied(columns', packet))
  }

  /** The value last requested for LED n, or what it was before. */
  function LastRequested(before: bool, requests: seq<Request>, n: nat): bool {
    if requests == [] then before
    else if requests[|requests| - 1].nLED == n + 1 then requests[|requests| - 1].on
    else LastRequested(before, requests[..|requests| - 1], n)
  }

  /**
    Skipping unchanged LEDs loses nothing: after any run of requests the device shows led_state, which
    holds the value last requested for each LED of the board.
  */
  lemma {:induction false} DeviceShowsRequests(b: Board, columns: seq<nat>, requests: seq<Request>)
    requires Shaped(b) && Coherent(b) && b.open && b.enabled && columns == b.buffer
    ensures var (b', columns') := Lit(b, columns, requests);
      && Coherent(b') && columns' == b'.buffer
      && b'.open && b'.enabled && b'.ledSize == b.ledSize
      && (forall n :: 0 <= n < b.ledSize ==>
        BufferBit(columns', n) == b'.state[n] == LastRequested(b.state[n], requests, n))
  {
    if requests != [] {
      var before, last := requests[..|requests| - 1], requests[|requests| - 1];
      hide LedSet, Applied, Coherent, BufferBit, Shaped;
      DeviceShowsRequests(b, columns, before);
      var (b', columns') := Lit(b, columns, before);
      SetIsShown(b', last.nLED, last.on);
      BothShow(Lit(b, columns, requests).0);
    }
  }

  lemma BothShow(b: Board)
    requires Shaped(b) && Coherent(b)
    ensures forall n :: 0 <= n < b.ledSize ==> BufferBit(b.buffer, n) == b.state[n]
  {
  }

  /** One successful request reaches the device, and changes the one LED. */
  lemma SetIsShown(b: Board, nLED: int, on: bool)
    requires Shaped(b) && Coherent(b) && b.open && b.enabled
    ensures var (b', status, packet) := LedSet(b, nLED, on, true);
      && Shaped(b') && Coherent(b') && Applied(b.buffer, packet) == b'.buffer
      && b'.open && b'.enabled && b'.ledSize == b.ledSize
      && (forall n :: 0 <= n < b.ledSize ==> b'.state[n] == if nLED == n + 1 then on else b.state[n])
  {
    SetKeepsCoherentIff(b, nLED, on, true);
    hide Coherent;
    var n := nLED - 1;
    if 0 <= n < b.ledSize {
      WordKept(b.buffer[n % 8], n / 8);
      PacketCarriesWord(Switched(b.buffer, n, on)[n % 8]);
    }
  }

  // ---- switching the LEDs off and on again ----

  /** Enabling or disabling keeps the copies together exactly if every LED of the board was off. */
  lemma EnableKeepsCoherentIff(b: Board, enable: bool)
    requires Shaped(b) && Coherent(b)
    requires LedEnable(b, enable, true).1 == Ok
    ensures var b' := LedEnable(b, enable, true).0;
      Shaped(b') && (Coherent(b') <==> forall n :: 0 <= n < b.ledSize ==> !b.state[n])
  {
    var b' := LedEnable(b, enable, true).0;
    forall n | 0 <= n < LEDS
      ensures b'.state[n] == (n >= b.ledSize && b.state[n])
    {
    }
  }

  /** An LED left on when the board was disabled comes back with any other LED of its column. */
  lemma StaleLedReturns(b: Board, m: nat, n: nat)
    requires Shaped(b) && Coherent(b) && b.open && b.enabled
    requires m < b.ledSize && n < b.ledSize && m != n && m % 8 == n % 8
    requires b.state[m]
    ensures var off := LedEnable(b, false, true).0;
      var again := LedEnable(off, true, true).0;
      Shaped(off) && Shaped(again) &&
      var (b', status, packet) := LedSet(again, n + 1, true, true);
      && status == Ok && !b'.state[m]
      && packet == ColumnPacket(m % 8, b'.buffer[m % 8]) && BufferBit(b'.buffer, m)
  {
    var again := LedEnable(LedEnable(b, false, true).0, true, true).0;
    SwitchedBits(again.buffer, n, true, m);
  }
}
