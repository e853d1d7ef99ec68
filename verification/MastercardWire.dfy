/**
  What a Mastercard sends, and the theorem that decoding inverts it: any set of present slots with
  any nine bits each, split over a first packet and any number of continuation packets.
*/
module MastercardWire {
  import opened Bits
  import opened Mastercard

  /** One report: which slots are present, and nine bits for every slot. */
  datatype Frame = Frame(present: seq<bool>, bits: seq<seq<int>>)

  ghost predicate ValidFrame(f: Frame) {
    && |f.present| == SCAN && |f.bits| == SCAN
    && forall i :: 0 <= i < SCAN ==> |f.bits[i]| == 9 && AreBits(f.bits[i])
  }

  /** How many of the first m slots are present. */
  function Rank(present: seq<bool>, m: nat): (r: nat)
    requires m <= |present|
    ensures r <= m
  {
    if m == 0 then 0 else Rank(present, m - 1) + if present[m - 1] then 1 else 0
  }

  lemma {:induction false} RankGrows(present: seq<bool>, m: nat, n: nat)
    requires m <= n <= |present|
    ensures Rank(present, m) <= Rank(present, n)
    ensures m < n && present[m] ==> Rank(present, m) < Rank(present, n)
    decreases n
  {
    if m < n {
      RankGrows(present, m, n - 1);
    }
  }

  /** The present slots in scan order. */
  function Listed(present: seq<bool>, m: nat): (r: seq<nat>)
    requires m <= |present|
    ensures |r| == Rank(present, m)
    ensures forall k :: 0 <= k < |r| ==> r[k] < m && present[r[k]]
  {
    if m == 0 then []
    else if present[m - 1] then Listed(present, m - 1) + [m - 1]
    else Listed(present, m - 1)
  }

  /** A present slot stands in the list at its rank. */
  lemma {:induction false} ListedAtRank(present: seq<bool>, m: nat, i: nat)
    requires i < m <= |present| && present[i]
    ensures Rank(present, i) < Rank(present, m)
    ensures Listed(present, m)[Rank(present, i)] == i
    decreases m
  {
    RankGrows(present, i, m);
    if i < m - 1 {
      ListedAtRank(present, m - 1, i);
    }
  }

  lemma {:induction false} RankOfListed(present: seq<bool>, m: nat, k: nat)
    requires m <= |present| && k < Rank(present, m)
    ensures Rank(present, Listed(present, m)[k]) == k
    decreases m
  {
    if k < Rank(present, m - 1) {
      RankOfListed(present, m - 1, k);
    }
  }

  function Present(f: Frame): nat
    requires |f.present| == SCAN
  {
    Rank(f.present, SCAN)
  }

  /** The data bytes of n present slots: one each, and one for every eight of their ninth bits. */
  function Total(n: nat): nat {
    n + (n + 7) / 8
  }

  function NinthRow(f: Frame, q: nat): (row: seq<int>)
    requires |f.present| == SCAN && |f.bits| == SCAN
    requires forall i :: 0 <= i < SCAN ==> |f.bits[i]| == 9
    ensures |row| == 8
  {
    seq(8, j requires 0 <= j < 8 =>
      if 8 * q + j < Present(f) then f.bits[Listed(f.present, SCAN)[8 * q + j]][8] else 0)
  }

  lemma NinthRowBits(f: Frame, q: nat)
    requires ValidFrame(f)
    ensures AreBits(NinthRow(f, q))
  {
    forall j | 0 <= j < 8 && 8 * q + j < Present(f)
      ensures NinthRow(f, q)[j] == 0 || NinthRow(f, q)[j] == 1
    {
      assert AreBits(f.bits[Listed(f.present, SCAN)[8 * q + j]]);
    }
  }

  ghost function DataAt(f: Frame, k: nat): (b: nat)
    requires ValidFrame(f) && k < Total(Present(f))
    ensures b < 256
  {
    if k < Present(f) then
      var row := f.bits[Listed(f.present, SCAN)[k]][..8];
      ByteBound(row);
      FromBits(row)
    else
      NinthRowBits(f, k - Present(f));
      ByteBound(NinthRow(f, k - Present(f)));
      FromBits(NinthRow(f, k - Present(f)))
  }

  ghost function Data(f: Frame): (bytes: seq<nat>)
    requires ValidFrame(f)
    ensures |bytes| == Total(Present(f))
  {
    seq(Total(Present(f)), k requires 0 <= k < Total(Present(f)) => DataAt(f, k))
  }

  // ---- the decoder after k data bytes ----

  /** The state of the present slot of rank r among n after k data bytes. */
  function Phase(r: nat, n: nat, k: nat): int {
    if k <= n then (if r < k then 2 else 1) else (if r < 8 * (k - n) then 3 else 2)
  }

  function SlotsAfter(f: Frame, k: nat): (r: seq<int>)
    requires |f.present| == SCAN
    ensures |r| == SCAN
  {
    seq(SCAN, i requires 0 <= i < SCAN => if f.present[i] then Phase(Rank(f.present, i), Present(f), k) else 0)
  }

  /** Whether input j of card 0 has been received after k data bytes. */
  predicate InputReceived(f: Frame, j: nat, k: nat)
    requires |f.present| == SCAN && j < INPUTS
  {
    var slot := j / 9;
    && f.present[slot]
    && if j % 9 < 8 then Rank(f.present, slot) < k
       else k > Present(f) && Rank(f.present, slot) < 8 * (k - Present(f))
  }

  ghost function InputsAfter(f: Frame, inputs: seq<int>, k: nat): (r: seq<int>)
    requires ValidFrame(f) && |inputs| == INPUTS
    ensures |r| == INPUTS
  {
    seq(INPUTS, j requires 0 <= j < INPUTS => if InputReceived(f, j, k) then f.bits[j / 9][j % 9] else inputs[j])
  }

  /** The decoder after the first k data bytes of a report that found the inputs in `st`. */
  ghost function After(f: Frame, st: State, k: nat): (r: State)
    requires ValidFrame(f) && Shaped(st)
    ensures Shaped(r)
  {
    st.(slots := SlotsAfter(f, k), inputs := InputsAfter(f, st.inputs, k))
  }

  // ---- counting slot states ----

  lemma {:induction false} CountToRead(f: Frame, k: nat, m: nat)
    requires |f.present| == SCAN && m <= SCAN && k <= Present(f)
    ensures Count(SlotsAfter(f, k), 1, m) == if Rank(f.present, m) > k then Rank(f.present, m) - k else 0
  {
    if m > 0 {
      CountToRead(f, k, m - 1);
    }
  }

  lemma {:induction false} CountNine(f: Frame, q: nat, m: nat)
    requires |f.present| == SCAN && m <= SCAN
    ensures var slots := SlotsAfter(f, Present(f) + q);
      && Count(slots, 1, m) == 0
      && Count(slots, 3, m) == (if Rank(f.present, m) > 8 * q then 8 * q else Rank(f.present, m))
      && Count(slots, 2, m) == (if Rank(f.present, m) > 8 * q then Rank(f.present, m) - 8 * q else 0)
  {
    if m > 0 {
      CountNine(f, q, m - 1);
      RankGrows(f.present, m - 1, SCAN);
    }
  }

  /**
    The scan order: while slots are read the finished ones precede the waiting ones, and while ninth
    bits are read the done ones precede those that still wait for theirs.
  */
  lemma ScanOrder(f: Frame, k: nat, i: nat, j: nat)
    requires |f.present| == SCAN && i < j < SCAN && f.present[i] && f.present[j]
    ensures var s := SlotsAfter(f, k);
      && (k <= Present(f) ==> s[j] == 2 ==> s[i] == 2)
      && (k > Present(f) ==> s[j] == 3 ==> s[i] == 3)
  {
    RankGrows(f.present, i, j);
  }

  // ---- one data byte ----

  lemma ReadEight(f: Frame, st: State, k: nat)
    requires ValidFrame(f) && Shaped(st) && k < Present(f)
    ensures DataByte(After(f, st, k), DataAt(f, k)) == After(f, st, k + 1)
  {
    var i := Listed(f.present, SCAN)[k];
    RankOfListed(f.present, SCAN, k);
    var slots := SlotsAfter(f, k);
    CountToRead(f, k, SCAN);
    NextToRead(f, k, i);
    assert SlotsAfter(f, k + 1) == slots[i := 2] by {
      forall j | 0 <= j < SCAN && f.present[j]
        ensures j != i ==> Rank(f.present, j) != k
      {
        ListedAtRank(f.present, SCAN, j);
      }
    }
    var row := f.bits[i][..8];
    forall b | 0 <= b < 8
      ensures Bit(DataAt(f, k), b) == f.bits[i][b]
    {
      BitOfFromBits(row, b);
    }
    InputsOfNext(f, st.inputs, k, i, DataAt(f, k));
  }

  lemma NextToRead(f: Frame, k: nat, i: nat)
    requires |f.present| == SCAN && i < SCAN && f.present[i] && Rank(f.present, i) == k < Present(f)
    ensures Count(SlotsAfter(f, k), 1, SCAN) > 0 && First(SlotsAfter(f, k), SCAN) == i
  {
    CountToRead(f, k, SCAN);
    var first := First(SlotsAfter(f, k), SCAN);
    CountToRead(f, k, first);
    assert Rank(f.present, first) <= k;
    assert f.present[first] && Rank(f.present, first) == k;
    ListedAtRank(f.present, SCAN, first);
    ListedAtRank(f.present, SCAN, i);
  }

  lemma InputsOfNext(f: Frame, inputs: seq<int>, k: nat, i: nat, b: nat)
    requires ValidFrame(f) && |inputs| == INPUTS && k < Present(f)
    requires i < SCAN && f.present[i] && Rank(f.present, i) == k
    requires forall bit :: 0 <= bit < 8 ==> Bit(b, bit) == f.bits[i][bit]
    ensures InputsAfter(f, inputs, k + 1) ==
      if i < SLOTS then EightInputs(InputsAfter(f, inputs, k), i, b) else InputsAfter(f, inputs, k)
  {
    forall j | 0 <= j < INPUTS && f.present[j / 9] && j / 9 != i
      ensures Rank(f.present, j / 9) != k
    {
      ListedAtRank(f.present, SCAN, j / 9);
      ListedAtRank(f.present, SCAN, i);
    }
  }

  /** Who takes a ninth bit from the byte q after the slot bytes, and which. */
  lemma NinthTaker(f: Frame, q: nat, i: nat)
    requires ValidFrame(f) && i < SCAN && Present(f) + q < Total(Present(f))
    ensures var slots := SlotsAfter(f, Present(f) + q);
      && (TakesNinth(slots, i) <==> f.present[i] && 8 * q <= Rank(f.present, i) < 8 * (q + 1))
      && (TakesNinth(slots, i) ==>
        Bit(DataAt(f, Present(f) + q), (Count(slots, 3, i) + Count(slots, 2, i)) % 8) == f.bits[i][8])
  {
    CountNine(f, q, i);
    if f.present[i] {
      RankGrows(f.present, i, SCAN);
      NinthBit(f, q, i);
    }
  }

  lemma NinthSlotsOfNext(f: Frame, q: nat)
    requires ValidFrame(f) && Present(f) + q < Total(Present(f))
    ensures NinthSlots(SlotsAfter(f, Present(f) + q)) == SlotsAfter(f, Present(f) + q + 1)
  {
    var slots, next := SlotsAfter(f, Present(f) + q), SlotsAfter(f, Present(f) + q + 1);
    forall i | 0 <= i < SCAN
      ensures NinthSlots(slots)[i] == next[i]
    {
      NinthTaker(f, q, i);
      if f.present[i] {
        RankGrows(f.present, i, SCAN);
      }
    }
  }

  lemma ReadNinth(f: Frame, st: State, q: nat)
    requires ValidFrame(f) && Shaped(st) && Present(f) + q < Total(Present(f))
    ensures DataByte(After(f, st, Present(f) + q), DataAt(f, Present(f) + q)) == After(f, st, Present(f) + q + 1)
  {
    hide TakesNinth, NinthInputs, NinthSlots, SlotsAfter, InputsAfter, Bit;
    CountNine(f, q, SCAN);
    NinthSlotsOfNext(f, q);
    forall i | 0 <= i < SCAN {
      NinthTaker(f, q, i);
    }
    NinthOfNext(f, st.inputs, q, DataAt(f, Present(f) + q));
  }

  lemma NinthOfNext(f: Frame, inputs: seq<int>, q: nat, b: nat)
    requires ValidFrame(f) && |inputs| == INPUTS
    requires forall i :: 0 <= i < SCAN ==>
      var slots := SlotsAfter(f, Present(f) + q);
      && (TakesNinth(slots, i) <==> f.present[i] && 8 * q <= Rank(f.present, i) < 8 * (q + 1))
      && (TakesNinth(slots, i) ==> Bit(b, (Count(slots, 3, i) + Count(slots, 2, i)) % 8) == f.bits[i][8])
    ensures NinthInputs(SlotsAfter(f, Present(f) + q), InputsAfter(f, inputs, Present(f) + q), b)
      == InputsAfter(f, inputs, Present(f) + q + 1)
  {
    hide TakesNinth, Bit, Count;
    var n := Present(f);
    var before, after := InputsAfter(f, inputs, n + q), InputsAfter(f, inputs, n + q + 1);
    forall j | 0 <= j < INPUTS
      ensures NinthInputs(SlotsAfter(f, n + q), before, b)[j] == after[j]
    {
      if f.present[j / 9] {
        RankGrows(f.present, j / 9, SCAN);
      }
    }
  }

  /** The present slot i of rank 8q..8q+7 finds its ninth bit at its rank modulo eight. */
  lemma NinthBit(f: Frame, q: nat, i: nat)
    requires ValidFrame(f) && i < SCAN && f.present[i]
    requires Present(f) + q < Total(Present(f))
    ensures var slots := SlotsAfter(f, Present(f) + q);
      8 * q <= Rank(f.present, i) < 8 * (q + 1) ==>
      Bit(DataAt(f, Present(f) + q), (Count(slots, 3, i) + Count(slots, 2, i)) % 8) == f.bits[i][8]
  {
    var r := Rank(f.present, i);
    if 8 * q <= r < 8 * (q + 1) {
      hide *;
      BitOfNinthRow(f, q, i);
      NinthIndex(f, q, i);
    }
  }

  lemma NinthIndex(f: Frame, q: nat, i: nat)
    requires |f.present| == SCAN && i < SCAN && f.present[i]
    requires 8 * q <= Rank(f.present, i) < 8 * (q + 1)
    ensures var slots := SlotsAfter(f, Present(f) + q);
      (Count(slots, 3, i) + Count(slots, 2, i)) % 8 == Rank(f.present, i) - 8 * q
  {
    hide *;
    CountNine(f, q, i);
    NinthSum(Count(SlotsAfter(f, Present(f) + q), 3, i), Count(SlotsAfter(f, Present(f) + q), 2, i), Rank(f.present, i), q);
  }

  lemma NinthSum(done: nat, waiting: nat, r: nat, q: nat)
    requires 8 * q <= r < 8 * (q + 1)
    requires done == (if r > 8 * q then 8 * q else r) && waiting == if r > 8 * q then r - 8 * q else 0
    ensures (done + waiting) % 8 == r - 8 * q
  {
    Mod8(r, q);
  }

  lemma Mod8(r: nat, q: nat)
    requires 8 * q <= r < 8 * (q + 1)
    ensures r % 8 == r - 8 * q
  {
  }

  lemma BitOfNinthRow(f: Frame, q: nat, i: nat)
    requires ValidFrame(f) && i < SCAN && f.present[i]
    requires Present(f) + q < Total(Present(f))
    requires 8 * q <= Rank(f.present, i) < 8 * (q + 1)
    ensures Bit(DataAt(f, Present(f) + q), Rank(f.present, i) - 8 * q) == f.bits[i][8]
  {
    var r, row := Rank(f.present, i), NinthRow(f, q);
    ListedAtRank(f.present, SCAN, i);
    NinthRowBits(f, q);
    BitOfFromBits(row, r - 8 * q);
    assert row[r - 8 * q] == f.bits[i][8];
  }

  /** Once a report is complete, further bytes change nothing. */
  lemma Padding(f: Frame, st: State, k: nat, b: nat)
    requires ValidFrame(f) && Shaped(st) && k >= Total(Present(f))
    ensures DataByte(After(f, st, k), b) == After(f, st, k) == After(f, st, Total(Present(f)))
  {
    var q := k - Present(f);
    CountNine(f, q, SCAN);
    forall i | 0 <= i < SCAN && f.present[i]
      ensures Rank(f.present, i) < Present(f) < Total(Present(f))
      ensures Rank(f.present, i) < 8 * (Total(Present(f)) - Present(f)) <= 8 * q
    {
      RankGrows(f.present, i, SCAN);
    }
    assert forall i :: 0 <= i < SCAN ==> !TakesNinth(SlotsAfter(f, k), i);
    assert SlotsAfter(f, k) == SlotsAfter(f, Total(Present(f)));
    assert InputsAfter(f, st.inputs, k) == InputsAfter(f, st.inputs, Total(Present(f)));
    assert NinthSlots(SlotsAfter(f, k)) == SlotsAfter(f, k);
    assert NinthInputs(SlotsAfter(f, k), InputsAfter(f, st.inputs, k), b) == InputsAfter(f, st.inputs, k);
  }

  // ---- data bytes and packets ----

  /** Bytes agree with the report from position k on; after its end they are arbitrary padding. */
  ghost predicate Agree(f: Frame, k: nat, bytes: seq<nat>)
    requires ValidFrame(f)
  {
    forall i :: 0 <= i < |bytes| && k + i < Total(Present(f)) ==> bytes[i] == DataAt(f, k + i)
  }

  lemma {:induction false} ReadBytes(f: Frame, st: State, k: nat, bytes: seq<nat>)
    requires ValidFrame(f) && Shaped(st) && Agree(f, k, bytes)
    ensures DataBytes(After(f, st, k), bytes) == After(f, st, k + |bytes|)
  {
    hide After, DataByte, DataAt, Total;
    if bytes != [] {
      var n := |bytes| - 1;
      assert Agree(f, k, bytes[..n]);
      ReadBytes(f, st, k, bytes[..n]);
      ReadByte(f, st, k + n, bytes[n]);
    }
  }

  lemma ReadByte(f: Frame, st: State, k: nat, b: nat)
    requires ValidFrame(f) && Shaped(st)
    requires k < Total(Present(f)) ==> b == DataAt(f, k)
    ensures DataByte(After(f, st, k), b) == After(f, st, k + 1)
  {
    hide DataByte, After, DataAt;
    if k < Present(f) {
      ReadEight(f, st, k);
    } else if k < Total(Present(f)) {
      ReadNinth(f, st, k - Present(f));
    } else {
      Padding(f, st, k, b);
      Padding(f, st, k + 1, b);
    }
  }

  /** What one packet carries: card flags, an axis reading if `axis` is not 0, and data bytes. */
  datatype Part = Part(flags: seq<int>, axis: nat, axisValue: nat, chunk: seq<nat>)

  ghost predicate ValidPart(p: Part) {
    && |p.flags| == CARDS && AreBits(p.flags)
    && p.axis <= 4 && p.axisValue < 256
    && forall i :: 0 <= i < |p.chunk| ==> p.chunk[i] < 256
  }

  function HeaderBits(p: Part, last: int): seq<int> {
    p.flags + [p.axis % 2, p.axis / 2 % 2, p.axis / 4 % 2, last]
  }

  /** Bits 0-3 the cards, 4-6 the axis, 7 set on a continuation. */
  ghost function Header(p: Part, last: int): (b: nat)
    requires ValidPart(p) && (last == 0 || last == 1)
    ensures b < 256 && (b / 16) % 8 == p.axis && Bit(b, 7) == last
    ensures forall c :: 0 <= c < CARDS ==> Bit(b, c) == p.flags[c]
  {
    var bits := HeaderBits(p, last);
    ByteBound(bits);
    HeaderAxis(p, last);
    BitOfFromBits(bits, 7);
    assert forall c :: 0 <= c < CARDS ==> Bit(FromBits(bits), c) == p.flags[c] by {
      forall c | 0 <= c < CARDS {
        BitOfFromBits(bits, c);
      }
    }
    FromBits(bits)
  }

  lemma HeaderAxis(p: Part, last: int)
    requires ValidPart(p) && (last == 0 || last == 1)
    ensures AreBits(HeaderBits(p, last)) && (FromBits(HeaderBits(p, last)) / 16) % 8 == p.axis
  {
    var b := HeaderBits(p, last);
    Drop16(b);
    assert b[4..] == [p.axis % 2, p.axis / 2 % 2, p.axis / 4 % 2, last];
    var x := FromBits(b[4..]);
    assert b[4..][1..] == [p.axis / 2 % 2, p.axis / 4 % 2, last];
    assert b[4..][1..][1..] == [p.axis / 4 % 2, last];
    assert b[4..][1..][1..][1..] == [last];
    assert FromBits([last]) == last;
    assert FromBits(b[4..][1..][1..]) == p.axis / 4 % 2 + 2 * last;
    assert FromBits(b[4..][1..]) == p.axis / 2 % 2 + 2 * (p.axis / 4 % 2 + 2 * last);
    assert x == p.axis % 2 + 2 * (p.axis / 2 % 2 + 2 * (p.axis / 4 % 2 + 2 * last));
    hide *;
    ThreeBits(p.axis, last);
  }

  lemma ThreeBits(a: nat, last: int)
    requires a <= 4 && (last == 0 || last == 1)
    ensures (a % 2 + 2 * (a / 2 % 2 + 2 * (a / 4 % 2 + 2 * last))) % 8 == a
  {
  }

  lemma Drop16(b: seq<int>)
    requires AreBits(b) && |b| == 8
    ensures FromBits(b) / 16 == FromBits(b[4..])
  {
    assert FromBits(b) == b[0] + 2 * FromBits(b[1..]);
    assert b[1..][1..] == b[2..] && b[2..][1..] == b[3..] && b[3..][1..] == b[4..];
    assert FromBits(b[1..]) == b[1] + 2 * FromBits(b[2..]);
    assert FromBits(b[2..]) == b[2] + 2 * FromBits(b[3..]);
    assert FromBits(b[3..]) == b[3] + 2 * FromBits(b[4..]);
  }

  function PresentBits(f: Frame, card: nat): (bits: seq<int>)
    requires |f.present| == SCAN && card < CARDS
    ensures |bits| == 8 && AreBits(bits)
  {
    seq(8, s requires 0 <= s < 8 => if f.present[8 * card + s] then 1 else 0)
  }

  /** The slot bytes of the flagged cards below c. */
  ghost function SlotBytes(f: Frame, flags: seq<int>, c: nat): (bytes: seq<nat>)
    requires |f.present| == SCAN && |flags| == CARDS && c <= CARDS
    ensures |bytes| <= c
  {
    if c == 0 then []
    else if flags[c - 1] == 1 then SlotBytes(f, flags, c - 1) + [FromBits(PresentBits(f, c - 1))]
    else SlotBytes(f, flags, c - 1)
  }

  lemma {:induction false} SlotByteOf(f: Frame, flags: seq<int>, b: nat, c: nat, d: nat)
    requires |f.present| == SCAN && |flags| == CARDS && AreBits(flags)
    requires forall c' :: 0 <= c' < CARDS ==> Bit(b, c') == flags[c']
    requires c <= d <= CARDS
    ensures |SlotBytes(f, flags, d)| == CardsBefore(b, d)
    ensures c < d && flags[c] == 1 ==>
      CardsBefore(b, c) < CardsBefore(b, d) && SlotBytes(f, flags, d)[CardsBefore(b, c)] == FromBits(PresentBits(f, c))
    decreases d
  {
    hide Bit, FromBits, PresentBits;
    if c < d {
      SlotByteOf(f, flags, b, c, d - 1);
      SlotByteOf(f, flags, b, d - 1, d - 1);
    } else if d > 0 {
      SlotByteOf(f, flags, b, d - 1, d - 1);
    }
  }

  lemma {:induction false} SlotBytesAreBytes(f: Frame, flags: seq<int>, c: nat)
    requires |f.present| == SCAN && |flags| == CARDS && c <= CARDS
    ensures forall i :: 0 <= i < |SlotBytes(f, flags, c)| ==> SlotBytes(f, flags, c)[i] < 256
  {
    if c > 0 {
      SlotBytesAreBytes(f, flags, c - 1);
      ByteBound(PresentBits(f, c - 1));
    }
  }

  function AxisByte(p: Part): seq<nat> {
    if p.axis > 0 then [p.axisValue] else []
  }

  ghost function FirstPacket(f: Frame, p: Part): seq<nat>
    requires ValidFrame(f) && ValidPart(p)
  {
    [Header(p, 0)] + AxisByte(p) + SlotBytes(f, p.flags, CARDS) + p.chunk
  }

  ghost function Continuation(p: Part): seq<nat>
    requires ValidPart(p)
  {
    [Header(p, 1)] + AxisByte(p) + p.chunk
  }

  lemma FirstPacketLayout(f: Frame, p: Part)
    requires ValidFrame(f) && ValidPart(p) && |FirstPacket(f, p)| == 8
    ensures var packet, bytes := FirstPacket(f, p), SlotBytes(f, p.flags, CARDS);
      && IsPacket(packet) && packet[0] == Header(p, 0)
      && CardsBefore(packet[0], CARDS) == |bytes|
      && packet[FirstData(packet)..8] == p.chunk
      && forall i :: 0 <= i < |bytes| ==> packet[Start(packet) + i] == bytes[i]
  {
    var packet, h := FirstPacket(f, p), Header(p, 0);
    var bytes := SlotBytes(f, p.flags, CARDS);
    SlotBytesAreBytes(f, p.flags, CARDS);
    SlotByteOf(f, p.flags, h, CARDS, CARDS);
    hide SlotBytes, CardsBefore, Header, Bit;
    assert packet[0] == h && Axis(packet) == p.axis;
    assert packet[Start(packet)..] == bytes + p.chunk;
    assert forall i :: 0 <= i < |bytes| ==> packet[Start(packet)..][i] == bytes[i];
  }

  lemma AnnouncedByBits(packet: seq<nat>, bits: seq<int>, i: nat)
    requires |packet| >= 8 && i < SCAN && |bits| == 8 && AreBits(bits)
    requires Bit(packet[0], i / 8) == 1 ==> packet[Start(packet) + CardsBefore(packet[0], i / 8)] == FromBits(bits)
    ensures Announced(packet, i) <==> Bit(packet[0], i / 8) == 1 && bits[i % 8] == 1
  {
    BitOfFromBits(bits, i % 8);
    hide Bit, FromBits, CardsBefore, Start;
  }

  lemma AnnouncesPresent(f: Frame, p: Part, i: nat)
    requires ValidFrame(f) && ValidPart(p) && |FirstPacket(f, p)| == 8 && i < SCAN
    requires f.present[i] ==> p.flags[i / 8] == 1
    ensures Announced(FirstPacket(f, p), i) <==> f.present[i]
  {
    var packet, h, bits := FirstPacket(f, p), Header(p, 0), PresentBits(f, i / 8);
    FirstPacketLayout(f, p);
    SlotByteOf(f, p.flags, h, i / 8, CARDS);
    assert bits[i % 8] == if f.present[i] then 1 else 0;
    assert packet[0] == h && Bit(h, i / 8) == p.flags[i / 8];
    hide *;
    AnnouncedByBits(packet, bits, i);
  }

  lemma FirstPacketHeaded(f: Frame, p: Part, st: State)
    requires ValidFrame(f) && ValidPart(p) && Shaped(st)
    requires |FirstPacket(f, p)| == 8
    requires forall i :: 0 <= i < SCAN && f.present[i] ==> p.flags[i / 8] == 1
    ensures var packet := FirstPacket(f, p);
      && IsPacket(packet)
      && packet[FirstData(packet)..8] == p.chunk
      && Headed(st, packet) == After(f, st.(axes := Headed(st, packet).axes), 0)
  {
    var packet := FirstPacket(f, p);
    FirstPacketLayout(f, p);
    forall i | 0 <= i < SCAN
      ensures Announced(packet, i) <==> f.present[i]
    {
      AnnouncesPresent(f, p, i);
    }
    hide FirstPacket, Announced;
    assert AnnouncedSlots(packet) == SlotsAfter(f, 0);
    assert InputsAfter(f, st.inputs, 0) == st.inputs;
  }

  lemma ContinuationHeaded(p: Part, st: State)
    requires ValidPart(p) && Shaped(st)
    requires |Continuation(p)| == 8
    ensures var packet := Continuation(p);
      && IsPacket(packet)
      && packet[FirstData(packet)..8] == p.chunk
      && Headed(st, packet) == st.(axes := Headed(st, packet).axes)
  {
    var packet := Continuation(p);
    assert packet[0] == Header(p, 1) && Axis(packet) == p.axis;
  }

  /** The packets of a report: a first packet and any number of continuations. */
  ghost function Wire(f: Frame, parts: seq<Part>): (ps: seq<seq<nat>>)
    requires ValidFrame(f) && forall i :: 0 <= i < |parts| ==> ValidPart(parts[i])
    ensures |ps| == |parts|
  {
    if parts == [] then []
    else
      var n := |parts| - 1;
      Wire(f, parts[..n]) + [if n == 0 then FirstPacket(f, parts[n]) else Continuation(parts[n])]
  }

  function Chunks(parts: seq<Part>): seq<nat> {
    if parts == [] then [] else Chunks(parts[..|parts| - 1]) + parts[|parts| - 1].chunk
  }

  /** Parts that split a report's data bytes, with any padding after them, into packets of eight bytes. */
  ghost predicate Splits(f: Frame, parts: seq<Part>)
    requires ValidFrame(f)
  {
    && (forall i :: 0 <= i < |parts| ==> ValidPart(parts[i]))
    && (forall i :: 0 <= i < |parts| ==> |Wire(f, parts)[i]| == 8)
    && (|parts| > 0 ==> forall i :: 0 <= i < SCAN && f.present[i] ==> parts[0].flags[i / 8] == 1)
    && Agree(f, 0, Chunks(parts))
  }

  /** At every point of a report the decoder has read exactly the data bytes received so far. */
  lemma {:induction false} DecodesPrefix(f: Frame, st: State, parts: seq<Part>)
    requires ValidFrame(f) && Shaped(st) && parts != [] && Splits(f, parts)
    ensures forall i :: 0 <= i < |parts| ==> IsPacket(Wire(f, parts)[i])
    ensures var r := Packets(st, Wire(f, parts));
      r == After(f, st.(axes := r.axes), |Chunks(parts)|)
  {
    hide After, Headed, FirstPacket, Continuation, IsPacket, FirstData, ValidPart, DataBytes;
    var n := |parts| - 1;
    var last, wire := parts[n], Wire(f, parts);
    assert wire[..n] == Wire(f, parts[..n]);
    if n == 0 {
      FirstPacketHeaded(f, last, st);
      assert Chunks(parts[..0]) == [];
      assert Chunks(parts) == last.chunk;
      assert Packets(st, wire[..0]) == st;
      var axes := Headed(st, wire[0]).axes;
      ReadBytes(f, st.(axes := axes), 0, last.chunk);
      assert Packets(st, wire) == After(f, st.(axes := axes), |last.chunk|);
      AfterAxes(f, st.(axes := axes), |last.chunk|);
    } else {
      SplitsPrefix(f, parts);
      DecodesPrefix(f, st, parts[..n]);
      var s, k := Packets(st, wire[..n]), |Chunks(parts[..n])|;
      assert |wire[n]| == 8 && wire[n] == Continuation(last);
      ContinuationHeaded(last, s);
      var axes := Headed(s, wire[n]).axes;
      AfterAxes(f, st.(axes := s.axes), k);
      AfterOtherAxes(f, st.(axes := s.axes), axes, k);
      assert s.(axes := axes) == After(f, st.(axes := axes), k);
      AgreeSuffix(f, Chunks(parts[..n]), last.chunk);
      ReadBytes(f, st.(axes := axes), k, last.chunk);
      assert Packets(st, wire) == After(f, st.(axes := axes), k + |last.chunk|);
      AfterAxes(f, st.(axes := axes), k + |last.chunk|);
    }
  }

  lemma AfterAxes(f: Frame, st: State, k: nat)
    requires ValidFrame(f) && Shaped(st)
    ensures After(f, st, k).axes == st.axes
  {
  }

  lemma AfterOtherAxes(f: Frame, st: State, axes: seq<int>, k: nat)
    requires ValidFrame(f) && Shaped(st) && |axes| == 4
    ensures After(f, st, k).(axes := axes) == After(f, st.(axes := axes), k)
  {
  }

  lemma AgreeSuffix(f: Frame, a: seq<nat>, b: seq<nat>)
    requires ValidFrame(f) && Agree(f, 0, a + b)
    ensures Agree(f, 0, a) && Agree(f, |a|, b)
  {
    hide DataAt, Total;
    assert forall i :: 0 <= i < |a| ==> (a + b)[i] == a[i];
    assert forall i :: 0 <= i < |b| ==> (a + b)[|a| + i] == b[i];
  }

  lemma SplitsPrefix(f: Frame, parts: seq<Part>)
    requires ValidFrame(f) && |parts| > 1 && Splits(f, parts)
    ensures Splits(f, parts[..|parts| - 1])
  {
    hide ValidPart, FirstPacket, Continuation;
    var n := |parts| - 1;
    assert forall i :: 0 <= i < n ==> Wire(f, parts)[i] == Wire(f, parts[..n])[i];
    AgreeSuffix(f, Chunks(parts[..n]), parts[n].chunk);
  }

  /**
    Decoding inverts the wire format: once all data bytes are in, every present slot of card 0 holds
    its nine bits, every other input is untouched, and every present slot is done.
  */
  lemma DecodeInvertsWire(f: Frame, st: State, parts: seq<Part>)
    requires ValidFrame(f) && Shaped(st) && parts != [] && Splits(f, parts)
    requires |Chunks(parts)| >= Total(Present(f))
    ensures forall i :: 0 <= i < |parts| ==> IsPacket(Wire(f, parts)[i])
    ensures var r := Packets(st, Wire(f, parts));
      && (forall j :: 0 <= j < INPUTS ==>
        r.inputs[j] == if f.present[j / 9] then f.bits[j / 9][j % 9] else st.inputs[j])
      && (forall i :: 0 <= i < SCAN ==> r.slots[i] == if f.present[i] then 3 else 0)
  {
    DecodesPrefix(f, st, parts);
    hide Packets, Wire, Splits;
    forall i | 0 <= i < SCAN && f.present[i]
      ensures Rank(f.present, i) < Present(f)
    {
      RankGrows(f.present, i, SCAN);
    }
  }

  // ---- the axes ----

  /** The value an axis was last reported with. */
  function LastReading(before: int, parts: seq<Part>, axis: nat): int {
    if parts == [] then before
    else if parts[|parts| - 1].axis == axis then parts[|parts| - 1].axisValue
    else LastReading(before, parts[..|parts| - 1], axis)
  }

  lemma {:induction false} DataBytesKeepAxes(st: State, bytes: seq<nat>)
    requires Shaped(st)
    ensures DataBytes(st, bytes).axes == st.axes
  {
    if bytes != [] {
      DataBytesKeepAxes(st, bytes[..|bytes| - 1]);
    }
  }

  lemma PacketAxes(st: State, packet: seq<nat>, p: Part, last: int)
    requires Shaped(st) && IsPacket(packet) && ValidPart(p) && (last == 0 || last == 1)
    requires packet[0] == Header(p, last) && (p.axis > 0 ==> packet[1] == p.axisValue)
    ensures Packet(st, packet).axes == if p.axis > 0 then st.axes[p.axis - 1 := p.axisValue] else st.axes
  {
    DataBytesKeepAxes(Headed(st, packet), packet[FirstData(packet)..8]);
  }

  lemma PartAxes(f: Frame, st: State, p: Part, first: bool)
    requires ValidFrame(f) && ValidPart(p) && Shaped(st)
    requires |if first then FirstPacket(f, p) else Continuation(p)| == 8
    ensures var packet := if first then FirstPacket(f, p) else Continuation(p);
      IsPacket(packet) &&
      Packet(st, packet).axes == if p.axis > 0 then st.axes[p.axis - 1 := p.axisValue] else st.axes
  {
    hide SlotBytes, Packet;
    if first {
      FirstPacketLayout(f, p);
      PacketAxes(st, FirstPacket(f, p), p, 0);
    } else {
      ContinuationHeaded(p, st);
      PacketAxes(st, Continuation(p), p, 1);
    }
  }

  /** However a report is split, each axis ends with the value it was last reported with. */
  lemma {:induction false} AxesAreLastReadings(f: Frame, st: State, parts: seq<Part>, axis: nat)
    requires ValidFrame(f) && Shaped(st) && 1 <= axis <= 4
    requires forall i :: 0 <= i < |parts| ==> ValidPart(parts[i])
    requires forall i :: 0 <= i < |parts| ==> |Wire(f, parts)[i]| == 8
    ensures forall i :: 0 <= i < |parts| ==> IsPacket(Wire(f, parts)[i])
    ensures Packets(st, Wire(f, parts)).axes[axis - 1] == LastReading(st.axes[axis - 1], parts, axis)
  {
    hide Packet, IsPacket, FirstPacket, Continuation, ValidFrame, ValidPart;
    if parts != [] {
      var n := |parts| - 1;
      var before, wire := Wire(f, parts[..n]), Wire(f, parts);
      assert wire[..n] == before;
      forall i | 0 <= i < n
        ensures |before[i]| == 8
      {
        assert before[i] == wire[i];
      }
      AxesAreLastReadings(f, st, parts[..n], axis);
      assert |wire[n]| == 8;
      PartAxes(f, Packets(st, before), parts[n], n == 0);
    }
  }

  // ---- one way to split every report ----

  /** Zero-padded data bytes: three in a first packet with all cards flagged, seven in each later one. */
  ghost function Padded(f: Frame): (bytes: seq<nat>)
    requires ValidFrame(f)
    ensures Data(f) <= bytes && |bytes| == 38
  {
    assert Total(Present(f)) <= 36;
    Data(f) + seq(38 - Total(Present(f)), _ => 0)
  }

  ghost function Encoded(f: Frame, m: nat): (parts: seq<Part>)
    requires ValidFrame(f) && m <= 6
    ensures |parts| == m
    ensures forall i :: 0 <= i < m ==> ValidPart(parts[i])
  {
    seq(m, i requires 0 <= i < m => EncodedPart(f, i))
  }

  ghost function EncodedPart(f: Frame, i: nat): (p: Part)
    requires ValidFrame(f) && i < 6
    ensures ValidPart(p)
  {
    PaddedAreBytes(f);
    var chunk := if i == 0 then Padded(f)[..3] else Padded(f)[7 * i - 4..7 * i + 3];
    assert forall k :: 0 <= k < |chunk| ==> chunk[k] in Padded(f);
    Part([1, 1, 1, 1], 0, 0, chunk)
  }

  lemma {:induction false} EncodedChunks(f: Frame, m: nat)
    requires ValidFrame(f) && 1 <= m <= 6
    ensures Chunks(Encoded(f, m)) == Padded(f)[..7 * m - 4]
    ensures forall i :: 0 <= i < m ==> |Wire(f, Encoded(f, m))[i]| == 8
  {
    hide Header, SlotBytes, Padded, Data, DataAt;
    var parts := Encoded(f, m);
    assert parts[..m - 1] == Encoded(f, m - 1);
    if m == 1 {
      assert Wire(f, parts[..0]) == [];
    } else {
      EncodedChunks(f, m - 1);
      assert Padded(f)[..7 * (m - 1) - 4] + Padded(f)[7 * (m - 1) - 4..7 * m - 4] == Padded(f)[..7 * m - 4];
    }
    FourSlotBytes(f);
  }

  lemma PaddedAreBytes(f: Frame)
    requires ValidFrame(f)
    ensures forall b :: b in Padded(f) ==> b < 256
  {
  }

  lemma FourSlotBytes(f: Frame)
    requires ValidFrame(f)
    ensures |SlotBytes(f, [1, 1, 1, 1], CARDS)| == 4
  {
    assert |SlotBytes(f, [1, 1, 1, 1], 1)| == 1;
    assert |SlotBytes(f, [1, 1, 1, 1], 2)| == 2;
    assert |SlotBytes(f, [1, 1, 1, 1], 3)| == 3;
  }

  /** The packets of that split. */
  ghost function SixPackets(f: Frame): (ps: seq<seq<nat>>)
    requires ValidFrame(f)
    ensures |ps| == 6
  {
    Wire(f, Encoded(f, 6))
  }

  /** Every report can be split, and decoding its packets restores its bits. */
  lemma EncodeThenDecode(f: Frame, st: State)
    requires ValidFrame(f) && Shaped(st)
    ensures var wire := SixPackets(f);
      && (forall i :: 0 <= i < |wire| ==> IsPacket(wire[i]))
      && forall j :: 0 <= j < INPUTS ==>
        Packets(st, wire).inputs[j] == if f.present[j / 9] then f.bits[j / 9][j % 9] else st.inputs[j]
  {
    EncodedChunks(f, 6);
    var parts := Encoded(f, 6);
    assert Agree(f, 0, Chunks(parts)) by {
      assert forall i :: 0 <= i < |Data(f)| ==> Padded(f)[i] == Data(f)[i];
    }
    DecodeInvertsWire(f, st, parts);
  }
}
