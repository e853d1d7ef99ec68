/** receive_mastercard, byte by byte, on the arrays it updates. */
module MastercardDecoder {
  import opened Bits
  import opened Mastercard

  class Decoder {
    const slotdata: array2<int>
    const inputs: array2<int>
    const axes: array<int>

    ghost predicate Valid() {
      && slotdata.Length0 == SLOTS && slotdata.Length1 == CARDS
      && inputs.Length0 == INPUTS && inputs.Length1 == CARDS
      && axes.Length == 4
      && slotdata != inputs
    }

    ghost function View(): (st: State)
      requires Valid()
      reads slotdata, inputs, axes
      ensures Shaped(st)
    {
      State(
        seq(SCAN, i requires 0 <= i < SCAN && Valid() reads slotdata => slotdata[i % 8, i / 8]),
        seq(INPUTS, j requires 0 <= j < INPUTS && Valid() reads inputs => inputs[j, 0]),
        axes[..])
    }

    constructor ()
      ensures Valid() && fresh(slotdata) && fresh(inputs) && fresh(axes)
    {
      slotdata := new int[SLOTS, CARDS];
      inputs := new int[INPUTS, CARDS];
      axes := new int[4];
    }

    /** Inputs of the cards that are not wired. */
    twostate predicate OtherCardsUnchanged()
      requires Valid()
      reads inputs
    {
      forall j, c :: 0 <= j < INPUTS && 1 <= c < CARDS ==> inputs[j, c] == old(inputs[j, c])
    }

    /** Shift the first eight bytes out into single bits. */
    method Unpack(p: seq<nat>) returns (input: array2<int>)
      requires |p| >= 8
      ensures fresh(input) && input.Length0 == 8 && input.Length1 == 8
      ensures forall i, k :: 0 <= i < 8 && 0 <= k < 8 ==> input[i, k] == Bit(p[i], k)
    {
      hide Bit;
      input := new int[8, 8];
      for i := 0 to 8
        invariant forall i', k :: 0 <= i' < i && 0 <= k < 8 ==> input[i', k] == Bit(p[i'], k)
      {
        UnpackByte(input, i, p[i]);
      }
    }

    /** Shift one byte out into a row of bits. */
    method UnpackByte(input: array2<int>, row: nat, b: nat)
      requires input.Length0 == 8 && input.Length1 == 8 && row < 8
      modifies input
      ensures forall k :: 0 <= k < 8 ==> input[row, k] == Bit(b, k)
      ensures forall i, k :: 0 <= i < 8 && 0 <= k < 8 && i != row ==> input[i, k] == old(input[i, k])
    {
      hide Bit;
      var x := b;
      for k := 0 to 8
        invariant forall i, k' :: 0 <= i < 8 && 0 <= k' < 8 && i != row ==> input[i, k'] == old(input[i, k'])
        invariant forall k' :: 0 <= k' < k ==> input[row, k'] == Bit(b, k')
        invariant forall m: nat :: Bit(x, m) == Bit(b, k + m)
      {
        ShiftedBits(b, x, k);
        input[row, k] := x % 2;
        x := x / 2;
      }
    }

    /** Store the eight bits of row n as the first eight inputs of a slot of card 0. */
    method WriteEight(slot: nat, input: array2<int>, n: nat, ghost b: nat)
      requires Valid() && slot < SLOTS
      requires input.Length0 == 8 && input.Length1 == 8 && n < 8 && input != inputs
      requires forall k :: 0 <= k < 8 ==> input[n, k] == Bit(b, k)
      modifies inputs
      ensures View() == old(View()).(inputs := EightInputs(old(View()).inputs, slot, b))
      ensures OtherCardsUnchanged()
    {
      for bit := 0 to 8
        invariant forall j :: 0 <= j < INPUTS ==>
          inputs[j, 0] == if j / 9 == slot && j % 9 < bit then Bit(b, j % 9) else old(inputs[j, 0])
        invariant OtherCardsUnchanged()
      {
        inputs[9 * slot + bit, 0] := input[n, bit];
      }
      assert View().slots == old(View()).slots;
      assert View().inputs == EightInputs(old(View()).inputs, slot, b);
    }

    /** The scan for the first eight inputs of the next slot; says how many slots were still to be read. */
    method TakeEight(input: array2<int>, n: nat, ghost b: nat) returns (readleft: nat)
      requires Valid()
      requires input.Length0 == 8 && input.Length1 == 8 && n < 8 && input != inputs && input != slotdata
      requires forall k :: 0 <= k < 8 ==> input[n, k] == Bit(b, k)
      modifies slotdata, inputs
      ensures readleft == Count(old(View()).slots, 1, SCAN)
      ensures View() == if readleft > 0 then DataByte(old(View()), b) else old(View())
      ensures OtherCardsUnchanged()
    {
      ghost var was := View();
      var found := false;
      readleft := 0;
      ghost var first: nat := 0;
      for card := 0 to CARDS
        invariant readleft == Count(was.slots, 1, 8 * card) && (found <==> readleft > 0)
        invariant found ==> first < 8 * card && was.slots[first] == 1 && Count(was.slots, 1, first) == 0
        invariant View() == if found then Filled(was, first, b) else was
        invariant OtherCardsUnchanged()
      {
        for slot := 0 to SLOTS
          invariant readleft == Count(was.slots, 1, 8 * card + slot) && (found <==> readleft > 0)
          invariant found ==> first < 8 * card + slot && was.slots[first] == 1 && Count(was.slots, 1, first) == 0
          invariant View() == if found then Filled(was, first, b) else was
          invariant OtherCardsUnchanged()
        {
          found, readleft, first := TakeEightAt(was, input, n, b, card, slot, found, readleft, first);
        }
      }
      if found {
        FirstIs(was.slots, first);
      }
    }

    /** The scan for the next slot at one slot, with what has been found before it. */
    method TakeEightAt(ghost was: State, input: array2<int>, n: nat, ghost b: nat,
                       card: nat, slot: nat, found: bool, readleft: nat, ghost first: nat)
      returns (found': bool, readleft': nat, ghost first': nat)
      requires Valid() && Shaped(was) && card < CARDS && slot < SLOTS
      requires input.Length0 == 8 && input.Length1 == 8 && n < 8 && input != inputs && input != slotdata
      requires forall k :: 0 <= k < 8 ==> input[n, k] == Bit(b, k)
      requires readleft == Count(was.slots, 1, 8 * card + slot) && (found <==> readleft > 0)
      requires found ==> first < 8 * card + slot && was.slots[first] == 1 && Count(was.slots, 1, first) == 0
      requires View() == if found then Filled(was, first, b) else was
      modifies slotdata, inputs
      ensures readleft' == Count(was.slots, 1, 8 * card + slot + 1) && (found' <==> readleft' > 0)
      ensures found' ==> first' < 8 * card + slot + 1 && was.slots[first'] == 1 && Count(was.slots, 1, first') == 0
      ensures View() == if found' then Filled(was, first', b) else was
      ensures OtherCardsUnchanged()
    {
      ghost var i := 8 * card + slot;
      SlotOf(card, slot);
      CountOneMore(was.slots, 1, i);
      assert slotdata[slot, card] == was.slots[i];
      hide Bit, Count, EightInputs;
      found', readleft', first' := found, readleft, first;
      if slotdata[slot, card] == 1 {
        readleft' := readleft + 1;
        if !found {
          found' := true;
          first' := i;
          slotdata[slot, card] := 2;
          assert View().slots == was.slots[i := 2] && View().inputs == was.inputs;
          if card == 0 {
            WriteEight(slot, input, n, b);
          }
        }
      }
    }

    /** Mark a slot done and, on card 0, store its ninth input. */
    method StoreNinth(card: nat, slot: nat, value: int)
      requires Valid() && card < CARDS && slot < SLOTS
      modifies slotdata, inputs
      ensures View() == old(View()).(slots := old(View()).slots[8 * card + slot := 3],
        inputs := if card == 0 then old(View()).inputs[9 * slot + 8 := value] else old(View()).inputs)
      ensures OtherCardsUnchanged()
    {
      slotdata[slot, card] := 3;
      assert View().slots == old(View()).slots[8 * card + slot := 3] && View().inputs == old(View()).inputs;
      if card == 0 {
        inputs[9 * slot + 8, 0] := value;
        assert View().inputs == old(View()).inputs[9 * slot + 8 := value];
      }
    }

    /** The scan for the ninth inputs of up to eight slots, used once no slot is left to be read. */
    method TakeNinth(input: array2<int>, n: nat, ghost b: nat)
      requires Valid()
      requires input.Length0 == 8 && input.Length1 == 8 && n < 8 && input != inputs && input != slotdata
      requires forall k :: 0 <= k < 8 ==> input[n, k] == Bit(b, k)
      modifies slotdata, inputs
      ensures View() == NinthUpTo(old(View()), b, SCAN)
      ensures OtherCardsUnchanged()
    {
      hide NinthUpTo, NinthAt, TakesNinth, Count, Bit;
      ghost var was := View();
      var readnine, sumnine := 0, 0;
      NinthNone(was, b);
      CountNone(was.slots);
      for card := 0 to CARDS
        invariant sumnine == Count(was.slots, 3, 8 * card) && readnine == Count(was.slots, 2, 8 * card)
        invariant View() == NinthUpTo(was, b, 8 * card)
        invariant OtherCardsUnchanged()
      {
        for slot := 0 to SLOTS
          invariant sumnine == Count(was.slots, 3, 8 * card + slot)
          invariant readnine == Count(was.slots, 2, 8 * card + slot)
          invariant View() == NinthUpTo(was, b, 8 * card + slot)
          invariant OtherCardsUnchanged()
        {
          SlotOf(card, slot);
          NinthOneMore(was, b, 8 * card + slot);
          readnine, sumnine := TakeNinthAt(was.slots, input, n, b, card, slot, readnine, sumnine);
        }
      }
    }

    /** The ninth-input scan at one slot, with the counts of waiting and of finished slots before it. */
    method TakeNinthAt(ghost slots: seq<int>, input: array2<int>, n: nat, ghost b: nat,
                       card: nat, slot: nat, readnine: nat, sumnine: nat)
      returns (readnine': nat, sumnine': nat)
      requires Valid() && |slots| == SCAN && card < CARDS && slot < SLOTS
      requires input.Length0 == 8 && input.Length1 == 8 && n < 8
      requires forall k :: 0 <= k < 8 ==> input[n, k] == Bit(b, k)
      requires slotdata[slot, card] == slots[8 * card + slot]
      requires sumnine == Count(slots, 3, 8 * card + slot) && readnine == Count(slots, 2, 8 * card + slot)
      modifies slotdata, inputs
      ensures sumnine' == Count(slots, 3, 8 * card + slot + 1)
      ensures readnine' == Count(slots, 2, 8 * card + slot + 1)
      ensures View() == NinthAt(old(View()), slots, b, 8 * card + slot)
      ensures OtherCardsUnchanged()
    {
      CountOneMore(slots, 2, 8 * card + slot);
      CountOneMore(slots, 3, 8 * card + slot);
      hide View, Count, Bit;
      readnine', sumnine' := readnine, sumnine;
      if slotdata[slot, card] == 3 {
        sumnine' := sumnine + 1;
      } else if slotdata[slot, card] == 2 {
        if readnine < 8 {
          StoreNinth(card, slot, input[n, (sumnine + readnine) % 8]);
        }
        readnine' := readnine + 1;
      }
    }

    lemma SlotOf(card: nat, slot: nat)
      requires Valid() && card < CARDS && slot < SLOTS
      ensures View().slots[8 * card + slot] == slotdata[slot, card]
    {
    }

    /** The axis value, and the slot indices of a first packet; says where its data bytes start. */
    method ReadHeader(input: array2<int>, p: seq<nat>) returns (byteCnt: nat)
      requires Valid() && IsPacket(p)
      requires input.Length0 == 8 && input.Length1 == 8 && input != slotdata
      requires forall i, k :: 0 <= i < 8 && 0 <= k < 8 ==> input[i, k] == Bit(p[i], k)
      modifies slotdata, axes
      ensures View() == Headed(old(View()), p) && byteCnt == FirstData(p)
    {
      var axis := (p[0] / 16) % 8;
      if axis > 0 {
        axes[axis - 1] := p[1];
      }
      assert View().slots == old(View()).slots && View().inputs == old(View()).inputs;
      byteCnt := if axis == 0 then 1 else 2;
      if input[0, 7] == 0 {
        var sumcards := ReadIndices(input, byteCnt, p);
        byteCnt := byteCnt + sumcards;
      }
    }

    method ReadDataByte(input: array2<int>, byteCnt: nat, ghost b: nat)
      requires Valid() && byteCnt < 8
      requires input.Length0 == 8 && input.Length1 == 8 && input != inputs && input != slotdata
      requires forall k :: 0 <= k < 8 ==> input[byteCnt, k] == Bit(b, k)
      modifies slotdata, inputs
      ensures View() == DataByte(old(View()), b)
      ensures OtherCardsUnchanged()
    {
      var readleft := TakeEight(input, byteCnt, b);
      if readleft == 0 {
        ghost var was := View();
        TakeNinth(input, byteCnt, b);
        NinthAll(was, b);
      }
    }

    /** One packet from the queue. */
    method ReceiveMastercard(p: seq<nat>)
      requires Valid() && IsPacket(p)
      modifies slotdata, inputs, axes
      ensures View() == Packet(old(View()), p)
      ensures OtherCardsUnchanged()
    {
      hide DataByte, Headed;
      var input := Unpack(p);
      var byteCnt := ReadHeader(input, p);
      ghost var headed, start := View(), byteCnt;
      assert p[start..start] == [];
      while byteCnt < 8
        invariant start <= byteCnt <= 8
        invariant View() == DataBytes(headed, p[start..byteCnt])
        invariant forall i, k :: 0 <= i < 8 && 0 <= k < 8 ==> input[i, k] == Bit(p[i], k)
        invariant OtherCardsUnchanged()
      {
        ReadDataByte(input, byteCnt, p[byteCnt]);
        assert p[start..byteCnt + 1][..byteCnt - start] == p[start..byteCnt];
        byteCnt := byteCnt + 1;
      }
    }

    /** Mark the slots of one announced card. */
    method ReadCard(input: array2<int>, n: nat, card: nat, ghost p: seq<nat>)
      requires Valid() && IsPacket(p) && card < CARDS
      requires n == Start(p) + CardsBefore(p[0], card) && n < 8 && Bit(p[0], card) == 1
      requires input.Length0 == 8 && input.Length1 == 8 && input != slotdata
      requires forall k :: 0 <= k < 8 ==> input[n, k] == Bit(p[n], k)
      requires forall s :: 0 <= s < SLOTS ==> slotdata[s, card] == 0
      modifies slotdata
      ensures forall s, c :: 0 <= s < SLOTS && 0 <= c < CARDS ==>
        slotdata[s, c] == if c == card then (if Announced(p, 8 * card + s) then 1 else 0) else old(slotdata[s, c])
    {
      for slot := 0 to SLOTS
        invariant forall s, c :: 0 <= s < SLOTS && 0 <= c < CARDS ==>
          slotdata[s, c] == if c == card && s < slot then (if Announced(p, 8 * card + s) then 1 else 0) else old(slotdata[s, c])
      {
        assert (8 * card + slot) / 8 == card && (8 * card + slot) % 8 == slot;
        if input[n, slot] == 1 {
          slotdata[slot, card] := 1;
        }
      }
    }

    /** Clear the slot states and mark the slots that a first packet announces; counts its cards. */
    method ReadIndices(input: array2<int>, byteCnt: nat, ghost p: seq<nat>) returns (sumcards: nat)
      requires Valid() && IsPacket(p) && byteCnt == Start(p)
      requires input.Length0 == 8 && input.Length1 == 8 && input != slotdata
      requires forall i, k :: 0 <= i < 8 && 0 <= k < 8 ==> input[i, k] == Bit(p[i], k)
      modifies slotdata
      ensures sumcards == CardsBefore(p[0], CARDS)
      ensures View() == old(View()).(slots := AnnouncedSlots(p))
    {
      for card := 0 to CARDS
        invariant forall s, c :: 0 <= s < SLOTS && 0 <= c < card ==> slotdata[s, c] == 0
      {
        for slot := 0 to SLOTS
          invariant forall s, c :: 0 <= s < SLOTS && 0 <= c < card ==> slotdata[s, c] == 0
          invariant forall s :: 0 <= s < slot ==> slotdata[s, card] == 0
        {
          slotdata[slot, card] := 0;
        }
      }
      sumcards := 0;
      for card := 0 to CARDS
        invariant sumcards == CardsBefore(p[0], card)
        invariant forall s, c :: 0 <= s < SLOTS && 0 <= c < CARDS ==>
          slotdata[s, c] == if c < card && Announced(p, 8 * c + s) then 1 else 0
      {
        if input[0, card] == 1 {
          ReadCard(input, byteCnt + sumcards, card, p);
          sumcards := sumcards + 1;
        }
      }
      assert View().slots == AnnouncedSlots(p) by {
        forall i | 0 <= i < SCAN
          ensures View().slots[i] == AnnouncedSlots(p)[i]
        {
          assert 8 * (i / 8) + i % 8 == i;
        }
      }
      assert View().inputs == old(View()).inputs;
    }
  }

  /** The ninth-input scan after the slots below m. */
  function NinthUpTo(st: State, b: nat, m: nat): (r: State)
    requires Shaped(st) && m <= SCAN
    ensures Shaped(r)
  {
    st.(slots := seq(SCAN, i requires 0 <= i < SCAN => if i < m && TakesNinth(st.slots, i) then 3 else st.slots[i]),
        inputs := seq(INPUTS, j requires 0 <= j < INPUTS =>
          if j % 9 == 8 && j / 9 < m && TakesNinth(st.slots, j / 9)
          then Bit(b, (Count(st.slots, 3, j / 9) + Count(st.slots, 2, j / 9)) % 8)
          else st.inputs[j]))
  }

  /** The ninth-input scan at slot i, given the slot states at its start. */
  function NinthAt(t: State, slots: seq<int>, b: nat, i: nat): (r: State)
    requires Shaped(t) && |slots| == SCAN && i < SCAN
    ensures Shaped(r)
  {
    if slots[i] == 2 && Count(slots, 2, i) < 8 then
      var bit := Bit(b, (Count(slots, 3, i) + Count(slots, 2, i)) % 8);
      t.(slots := t.slots[i := 3], inputs := if i < SLOTS then t.inputs[9 * i + 8 := bit] else t.inputs)
    else t
  }

  lemma CountNone(slots: seq<int>)
    ensures forall v :: Count(slots, v, 0) == 0
  {
  }

  lemma NinthNone(st: State, b: nat)
    requires Shaped(st)
    ensures NinthUpTo(st, b, 0) == st
  {
  }

  lemma NinthAll(st: State, b: nat)
    requires Shaped(st)
    ensures NinthUpTo(st, b, SCAN) == st.(slots := NinthSlots(st.slots), inputs := NinthInputs(st.slots, st.inputs, b))
  {
  }

  lemma NinthOneMore(st: State, b: nat, m: nat)
    requires Shaped(st) && m < SCAN
    ensures NinthUpTo(st, b, m).slots[m] == st.slots[m]
    ensures NinthUpTo(st, b, m + 1) == NinthAt(NinthUpTo(st, b, m), st.slots, b, m)
  {
    var t, u := NinthUpTo(st, b, m), NinthUpTo(st, b, m + 1);
    var bit := Bit(b, (Count(st.slots, 3, m) + Count(st.slots, 2, m)) % 8);
    assert u.slots == if TakesNinth(st.slots, m) then t.slots[m := 3] else t.slots;
    assert forall j :: 0 <= j < INPUTS && j % 9 == 8 && j / 9 == m ==> j == 9 * m + 8;
    assert u.inputs == if TakesNinth(st.slots, m) && m < SLOTS then t.inputs[9 * m + 8 := bit] else t.inputs;
  }

  function Filled(st: State, i: nat, b: nat): State
    requires Shaped(st) && i < SCAN
  {
    st.(slots := st.slots[i := 2], inputs := if i < SLOTS then EightInputs(st.inputs, i, b) else st.inputs)
  }

  lemma ShiftedBits(b: nat, x: nat, k: nat)
    requires forall m: nat :: Bit(x, m) == Bit(b, k + m)
    ensures x % 2 == Bit(b, k)
    ensures forall m: nat :: Bit(x / 2, m) == Bit(b, k + 1 + m)
  {
    assert Bit(x, 0) == Bit(b, k + 0);
    forall m: nat
      ensures Bit(x / 2, m) == Bit(b, k + 1 + m)
    {
      assert Bit(x, m + 1) == Bit(b, k + (m + 1));
    }
  }

  lemma CountOneMore(slots: seq<int>, v: int, i: nat)
    requires i < |slots|
    ensures Count(slots, v, i + 1) == Count(slots, v, i) + if slots[i] == v then 1 else 0
  {
  }

  lemma {:induction false} CountGrows(slots: seq<int>, v: int, m: nat, n: nat)
    requires m <= n <= |slots|
    ensures Count(slots, v, m) <= Count(slots, v, n)
    decreases n
  {
    if m < n {
      CountGrows(slots, v, m, n - 1);
    }
  }

  lemma FirstIs(slots: seq<int>, i: nat)
    requires |slots| == SCAN && i < SCAN
    requires slots[i] == 1 && Count(slots, 1, i) == 0
    ensures Count(slots, 1, SCAN) > 0 && First(slots, SCAN) == i
  {
    CountGrows(slots, 1, i + 1, SCAN);
    var first := First(slots, SCAN);
    if first < i {
      CountGrows(slots, 1, first + 1, i);
    } else if i < first {
      CountGrows(slots, 1, i + 1, first);
    }
  }
}
