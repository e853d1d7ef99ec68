/**
  The eight-byte command frame of the Flight Illusion gauges: a zero flag byte, then bytes that are
  never zero because one bit of each is forced; the displaced value bits travel in the command byte.
*/
module FiFrame {
  /** x | 1 and x | 2 for a byte. */
  function Or1(x: int): int {
    if x % 2 == 0 then x + 1 else x
  }

  function Or2(x: int): int {
    if x / 2 % 2 == 0 then x + 2 else x
  }

  function Abs(x: int): int {
    if x < 0 then -x else x
  }

  datatype Command = Command(id: int, cmd: int, value: int)

  /** What a receiver reads out of a frame. */
  datatype Reading = Reading(id: int, cmd: int, negative: bool, magnitude: int)

  /** The frame of a command; ids and command numbers are cut to their eight and four bits. */
  function Frame(c: Command): (f: seq<int>)
    ensures |f| == 8
  {
    var high := Abs(c.value) / 256;
    [0,
     c.id % 256,
     (c.cmd * 16 + Abs(c.value) % 2 + 2 * (high / 2 % 2) + if c.value < 0 then 12 else 8) % 256,
     Or1(Abs(c.value) % 256),
     Or2(high % 256),
     255, 255, 255]
  }

  /** sendCommand: fills the transfer buffer; true if the device took all eight bytes. */
  method SendCommand(id: int, cmd: int, value: int, bytesWritten: int) returns (xferCmd: array<int>, ok: bool)
    ensures fresh(xferCmd) && xferCmd[..] == Frame(Command(id, cmd, value))
    ensures ok <==> bytesWritten == 8
  {
    xferCmd := new int[8];
    xferCmd[0] := 0;
    xferCmd[5] := 255;
    xferCmd[6] := 255;
    xferCmd[7] := 255;
    xferCmd[1] := id % 256;
    var long1 := value;
    if value < 0 {
      long1 := -value;
    }
    var int2 := long1 / 256;
    xferCmd[3] := Or1(long1 % 256);
    xferCmd[4] := Or2(int2 % 256);
    // cmd * 16 leaves the low four bits free, so the three ORs add up
    var int3 := cmd * 16;
    int3 := int3 + long1 % 2;
    int3 := int3 + 2 * (int2 / 2 % 2);
    if value < 0 {
      int3 := int3 + 12;
    } else {
      int3 := int3 + 8;
    }
    xferCmd[2] := int3 % 256;
    ok := bytesWritten == 8;
  }

  /** How a gauge reads a frame, putting the displaced bits back into the two value bytes. */
  function Decode(f: seq<int>): Reading
    requires |f| >= 6
  {
    var low := f[3] - f[3] % 2 + f[2] % 2;
    var high := f[4] - 2 * (f[4] / 2 % 2) + 2 * (f[2] / 2 % 2);
    Reading(f[1], f[2] / 16, f[2] / 4 % 2 == 1, 256 * high + low)
  }

  /**
    What makes a gauge take a message of six bytes: the flag, an address, the three bits that are always
    one, and the end byte.
  */
  predicate IsMessage(f: seq<int>)
    requires |f| >= 6
  {
    f[0] == 0 && f[1] != 0 && f[2] / 8 % 2 == 1 && f[3] % 2 == 1 && f[4] / 2 % 2 == 1 && f[5] == 255
  }

  /** A frame is a message for every addressable gauge, and two more end bytes after it. */
  lemma FrameIsMessageIff(c: Command)
    ensures IsMessage(Frame(c)) <==> c.id % 256 != 0
    ensures Frame(c)[6] == Frame(c)[7] == 255
  {
    var v := Abs(c.value);
    var nibble := Nibble(v % 2, v / 256 / 2 % 2, c.value < 0);
    CommandByte(c.cmd, nibble);
    EighthBit(c.cmd % 16, nibble);
    assert Frame(c)[2] == (c.cmd * 16 + nibble) % 256;
    ForcedBits(v % 256);
    ForcedBits(v / 256 % 256);
    hide Or1, Or2;
  }

  lemma EighthBit(r: int, nibble: int)
    requires 0 <= r && 8 <= nibble < 16
    ensures (16 * r + nibble) / 8 % 2 == 1
  {
    assert (16 * r + nibble) / 8 == 2 * r + 1;
  }

  lemma ForcedBits(x: int)
    requires 0 <= x < 256
    ensures Or1(x) % 2 == 1 && Or2(x) / 2 % 2 == 1
  {
  }

  /** Decoding any frame gives the command back, cut to the widths of the fields. */
  lemma DecodeInvertsFrame(c: Command)
    ensures Decode(Frame(c)) == Reading(c.id % 256, c.cmd % 16, c.value < 0, Abs(c.value) % 65536)
  {
    var v := Abs(c.value);
    var high := v / 256;
    var low2, high2 := v % 2, high / 2 % 2;
    var nibble := Nibble(low2, high2, c.value < 0);
    CommandByte(c.cmd, nibble);
    var f := Frame(c);
    assert f[2] == (c.cmd * 16 + nibble) % 256;
    LowByte(v % 256);
    HighByte(high % 256);
    HalvesOf(v);
    assert f[3] == Or1(v % 256) && f[4] == Or2(high % 256);
    hide Or1, Or2, Abs, Frame;
  }

  function Nibble(low: int, high: int, negative: bool): (n: int)
    requires 0 <= low < 2 && 0 <= high < 2
    ensures 0 <= n < 16 && n % 2 == low && n / 2 % 2 == high && (n / 4 % 2 == 1 <==> negative)
  {
    low + 2 * high + if negative then 12 else 8
  }

  lemma HalvesOf(v: int)
    requires v >= 0
    ensures v % 256 % 2 == v % 2 && v / 256 % 256 / 2 % 2 == v / 256 / 2 % 2
    ensures 256 * (v / 256 % 256) + v % 256 == v % 65536
  {
    var high, low := v / 256, v % 256;
    assert v == 256 * high + low;
    LowBits(high);
    LowBit(v);
    Rejoined(high, low);
  }

  lemma LowBit(v: int)
    ensures v % 256 % 2 == v % 2
  {
  }

  lemma LowBits(x: int)
    ensures x % 256 / 2 % 2 == x / 2 % 2
  {
  }

  lemma Rejoined(high: int, low: int)
    requires 0 <= low < 256
    ensures (256 * high + low) % 65536 == 256 * (high % 256) + low
  {
    var q, r := high / 256, high % 256;
    assert 256 * high + low == 65536 * q + (256 * r + low);
  }

  lemma CommandByte(cmd: int, nibble: int)
    requires 0 <= nibble < 16
    ensures (cmd * 16 + nibble) % 256 == 16 * (cmd % 16) + nibble
    ensures var b := (cmd * 16 + nibble) % 256;
      b / 16 == cmd % 16 && b % 2 == nibble % 2 && b / 2 % 2 == nibble / 2 % 2 && b / 4 % 2 == nibble / 4 % 2
  {
    var q, r := cmd / 16, cmd % 16;
    assert cmd == 16 * q + r;
    ByteOf(q, 16 * r + nibble);
    NibbleOf(r, nibble);
    assert cmd * 16 + nibble == 256 * q + (16 * r + nibble);
    hide *;
  }

  lemma ByteOf(q: int, b: int)
    requires 0 <= b < 256
    ensures (256 * q + b) % 256 == b
  {
  }

  lemma NibbleOf(r: int, nibble: int)
    requires 0 <= nibble < 16 && 0 <= r < 16
    ensures var b := 16 * r + nibble;
      b / 16 == r && b % 2 == nibble % 2 && b / 2 % 2 == nibble / 2 % 2 && b / 4 % 2 == nibble / 4 % 2
  {
    assert (16 * r + nibble) / 2 == 8 * r + nibble / 2;
    assert (16 * r + nibble) / 4 == 4 * r + nibble / 4;
  }

  lemma LowByte(x: int)
    requires 0 <= x < 256
    ensures Or1(x) - Or1(x) % 2 == x - x % 2
  {
  }

  lemma HighByte(x: int)
    requires 0 <= x < 256
    ensures Or2(x) - 2 * (Or2(x) / 2 % 2) == x - 2 * (x / 2 % 2)
  {
  }

  /** The frame carries the whole command exactly if every field fits its width. */
  lemma FrameIsExactIffFieldsFit(c: Command)
    ensures Decode(Frame(c)) == Reading(c.id, c.cmd, c.value < 0, Abs(c.value))
      <==> 0 <= c.id < 256 && 0 <= c.cmd < 16 && Abs(c.value) < 65536
  {
    DecodeInvertsFrame(c);
    hide Frame, Decode;
  }

  /** Two commands that fit and share a frame are the same command. */
  lemma FramesAreDistinct(c: Command, d: Command)
    requires 0 <= c.id < 256 && 0 <= c.cmd < 16 && Abs(c.value) < 65536
    requires 0 <= d.id < 256 && 0 <= d.cmd < 16 && Abs(d.value) < 65536
    requires Frame(c) == Frame(d)
    ensures c == d
  {
    DecodeInvertsFrame(c);
    DecodeInvertsFrame(d);
    hide Frame, Decode;
  }

  /** Zero is the flag byte and nothing else, for every addressable gauge. */
  lemma ZeroOnlyAtStart(c: Command, i: nat)
    requires i < 8 && c.id % 256 != 0
    ensures Frame(c)[i] == 0 <==> i == 0
  {
    var v := Abs(c.value);
    var nibble := Nibble(v % 2, v / 256 / 2 % 2, c.value < 0);
    CommandByte(c.cmd, nibble);
    assert Frame(c)[2] == (c.cmd * 16 + nibble) % 256;
    assert nibble >= 8;
    NeverZero(v % 256);
    NeverZero(v / 256 % 256);
    hide Or1, Or2;
  }

  lemma NeverZero(x: int)
    requires 0 <= x < 256
    ensures Or1(x) > 0 && Or2(x) > 0
  {
  }

  // ---- streams ----

  function Stream(cs: seq<Command>): (s: seq<int>)
    ensures |s| == 8 * |cs|
  {
    if cs == [] then [] else Frame(cs[0]) + Stream(cs[1..])
  }

  /** A receiver that skips to a message, reads it and goes on after it. */
  function Parse(s: seq<int>): seq<Reading> {
    if |s| < 6 then []
    else if IsMessage(s) then [Decode(s)] + Parse(s[6..])
    else Parse(s[1..])
  }

  lemma SameMessage(s: seq<int>, f: seq<int>)
    requires |f| == 8 && |s| >= 8 && s[..8] == f
    ensures (IsMessage(s) <==> IsMessage(f)) && Decode(s) == Decode(f)
  {
    assert forall i :: 0 <= i < 8 ==> s[i] == s[..8][i];
  }

  function Readings(cs: seq<Command>): seq<Reading> {
    if cs == [] then [] else [Decode(Frame(cs[0]))] + Readings(cs[1..])
  }

  /** Joining a stream of frames anywhere, the receiver reads every frame that starts from there on. */
  lemma {:induction false} Resynchronises(cs: seq<Command>, k: nat)
    requires forall i :: 0 <= i < |cs| ==> cs[i].id % 256 != 0
    requires k <= 8 * |cs|
    ensures Parse(Stream(cs)[k..]) == Readings(cs[(k + 7) / 8..])
    decreases |cs|, 8 * |cs| - k
  {
    var s := Stream(cs);
    if cs != [] {
      var rest := Stream(cs[1..]);
      if k == 0 {
        assert s[0..] == s && s[..8] == Frame(cs[0]);
        FrameIsMessageIff(cs[0]);
        SameMessage(s, Frame(cs[0]));
        Resynchronises(cs, 6);
        assert cs[0..] == cs;
      } else if k < 8 {
        ZeroOnlyAtStart(cs[0], k);
        Resynchronises(cs, k + 1);
        assert s[k] == Frame(cs[0])[k] != 0;
        assert s[k..][1..] == s[k + 1..];
        assert (k + 7) / 8 == 1 == (k + 8) / 8;
        if |s[k..]| < 6 {
          assert |cs| == 1 && cs[1..] == [];
        }
      } else {
        assert s[k..] == rest[k - 8..];
        Resynchronises(cs[1..], k - 8);
        assert (k - 8 + 7) / 8 == (k + 7) / 8 - 1;
        assert cs[1..][(k - 8 + 7) / 8..] == cs[(k + 7) / 8..];
      }
    }
  }
}
