/**
  The switch reports of an InterfaceIT board: each carries a 32-bit word for switches 1-32 or 33-64,
  and the difference to the previous word is pushed on a stack of events that the consumer pops.
*/
module SwitchReports {
  import opened Common
  import opened Bits

  datatype Event = Event(switch: int, on: bool)

  /** Report 0x19 carries switches 1-32, report 0x1A switches 33-64. */
  datatype Bank = Low | High

  function Base(bank: Bank): int {
    if bank == Low then 1 else 33
  }

  /** The events of one report: all switches the first time, later those whose bit has changed. */
  function Events(base: int, previous: Option<nat>, word: nat, n: nat): (es: seq<Event>)
    ensures forall i :: 0 <= i < |es| ==> base <= es[i].switch < base + n
  {
    if n == 0 then []
    else
      var es := Events(base, previous, word, n - 1);
      if previous.None? || Bit(word, n - 1) != Bit(previous.value, n - 1)
      then es + [Event(base + n - 1, Bit(word, n - 1) == 1)]
      else es
  }

  /** The timer's memory: the last word of each bank, if one has been reported, and the event stack. */
  datatype Timer = Timer(low: Option<nat>, high: Option<nat>, stack: seq<Event>)

  const FRESH := Timer(None, None, [])

  datatype Report = Report(bank: Bank, word: nat)

  function Reported(t: Timer, r: Report): Timer {
    match r.bank
    case Low => Timer(Some(r.word), t.high, t.stack + Events(1, t.low, r.word, 32))
    case High => Timer(t.low, Some(r.word), t.stack + Events(33, t.high, r.word, 32))
  }

  class TimerData {
    var lsSwState: Option<nat>
    var msSwState: Option<nat>
    var switchStack: seq<Event>

    function View(): Timer
      reads this
    {
      Timer(lsSwState, msSwState, switchStack)
    }

    constructor ()
      ensures View() == FRESH
    {
      lsSwState, msSwState, switchStack := None, None, [];
    }

    /** One pass over the 32 bits of a word, shifting it out bit by bit. */
    method PushChanges(base: int, previous: Option<nat>, word: nat)
      modifies this`switchStack
      ensures switchStack == old(switchStack) + Events(base, previous, word, 32)
    {
      var bits: nat, was: nat := word, if previous.Some? then previous.value else 0;
      for i := 0 to 32
        invariant forall k: nat :: Bit(bits, k) == Bit(word, i + k)
        invariant previous.Some? ==> forall k: nat :: Bit(was, k) == Bit(previous.value, i + k)
        invariant switchStack == old(switchStack) + Events(base, previous, word, i)
      {
        assert Bit(bits, 0) == Bit(word, i) && (previous.Some? ==> Bit(was, 0) == Bit(previous.value, i));
        if previous.None? || bits % 2 != was % 2 {
          switchStack := switchStack + [Event(base + i, bits % 2 == 1)];
        }
        assert forall k: nat :: Bit(bits / 2, k) == Bit(bits, k + 1) == Bit(word, i + (k + 1));
        assert forall k: nat :: Bit(was / 2, k) == Bit(was, k + 1);
        bits, was := bits / 2, was / 2;
      }
    }

    /** One report read from the board. */
    method ProcessReport(r: Report)
      modifies this
      ensures View() == Reported(old(View()), r)
    {
      if r.bank == Low {
        PushChanges(1, lsSwState, r.word);
        lsSwState := Some(r.word);
      } else {
        PushChanges(33, msSwState, r.word);
        msSwState := Some(r.word);
      }
    }

    /** pSwitch_Get_Item for a board of n switches: an event of none of them is popped and reported as no item. */
    method GetItem(n: int) returns (e: Option<Event>)
      modifies this`switchStack
      ensures (e, switchStack) == Taken(old(switchStack), n)
    {
      if switchStack == [] {
        return None;
      }
      var top := switchStack[|switchStack| - 1];
      switchStack := switchStack[..|switchStack| - 1];
      e := if top.switch > n then None else Some(top);
    }

    /** The consumer's loop: handle items until there is none. */
    method Drain(panel: map<int, bool>, n: int) returns (panel': map<int, bool>)
      modifies this`switchStack
      ensures (panel', switchStack) == Drained(panel, old(switchStack), n)
    {
      panel' := panel;
      var more := true;
      while more
        invariant more ==> Drained(panel', switchStack, n) == Drained(panel, old(switchStack), n)
        invariant !more ==> (panel', switchStack) == Drained(panel, old(switchStack), n)
        decreases |switchStack|, more
      {
        var e := GetItem(n);
        if e.None? {
          more := false;
        } else {
          panel' := panel'[e.value.switch := e.value.on];
        }
      }
    }
  }

  // ---- replaying the events ----

  /** The consumer's picture of the panel after popping the whole stack, newest event first. */
  function Replayed(panel: map<int, bool>, stack: seq<Event>): map<int, bool>
    decreases |stack|
  {
    if stack == [] then panel
    else
      var top := stack[|stack| - 1];
      Replayed(panel[top.switch := top.on], stack[..|stack| - 1])
  }

  /** One item taken from the stack for a board of n switches. */
  function Taken(stack: seq<Event>, n: int): (Option<Event>, seq<Event>) {
    if stack == [] then (None, [])
    else
      var top := stack[|stack| - 1];
      (if top.switch > n then None else Some(top), stack[..|stack| - 1])
  }

  /** The picture and the stack after the consumer has stopped. */
  function Drained(panel: map<int, bool>, stack: seq<Event>, n: int): (map<int, bool>, seq<Event>)
    decreases |stack|
  {
    var (e, rest) := Taken(stack, n);
    if e.None? then (panel, rest) else Drained(panel[e.value.switch := e.value.on], rest, n)
  }

  function Lookup(panel: map<int, bool>, s: int): Option<bool> {
    if s in panel then Some(panel[s]) else None
  }

  /** What the board has last reported of a switch. */
  function Actual(t: Timer, s: int): Option<bool> {
    if 1 <= s <= 32 && t.low.Some? then Some(Bit(t.low.value, s - 1) == 1)
    else if 33 <= s <= 64 && t.high.Some? then Some(Bit(t.high.value, s - 33) == 1)
    else None
  }

  function CountFor(es: seq<Event>, s: int): nat {
    if es == [] then 0
    else CountFor(es[..|es| - 1], s) + if es[|es| - 1].switch == s then 1 else 0
  }

  /** The oldest event of a switch, if the stack has one. */
  function Oldest(es: seq<Event>, s: int): (o: Option<bool>)
    ensures o.Some? <==> CountFor(es, s) > 0
  {
    if es == [] then None
    else
      var o := Oldest(es[..|es| - 1], s);
      if o.Some? then o
      else if es[|es| - 1].switch == s then Some(es[|es| - 1].on)
      else None
  }

  /** The event popped last decides, so the consumer ends with the oldest event of each switch. */
  lemma {:induction false} ReplayEndsWithOldest(panel: map<int, bool>, stack: seq<Event>, s: int)
    ensures Lookup(Replayed(panel, stack), s) == if Oldest(stack, s).Some? then Oldest(stack, s) else Lookup(panel, s)
    decreases |stack|
  {
    if stack != [] {
      var top := stack[|stack| - 1];
      ReplayEndsWithOldest(panel[top.switch := top.on], stack[..|stack| - 1], s);
    }
  }

  predicate Differs(previous: Option<nat>, word: nat, k: nat) {
    previous.None? || Bit(word, k) != Bit(previous.value, k)
  }

  lemma OneMoreEvent(base: int, previous: Option<nat>, word: nat, n: nat, s: int)
    ensures var before, after := Events(base, previous, word, n), Events(base, previous, word, n + 1);
      var adds := s == base + n && Differs(previous, word, n);
      && CountFor(after, s) == CountFor(before, s) + (if adds then 1 else 0)
      && Oldest(after, s) ==
        if Oldest(before, s).Some? then Oldest(before, s) else if adds then Some(Bit(word, n) == 1) else None
  {
    hide Bit, CountFor, Oldest;
    var es, e := Events(base, previous, word, n), Event(base + n, Bit(word, n) == 1);
    AppendedOne(es, e, s);
    assert Events(base, previous, word, n + 1) == if Differs(previous, word, n) then es + [e] else es;
  }

  lemma NoEvents(base: int, previous: Option<nat>, word: nat, s: int)
    ensures var es := Events(base, previous, word, 0);
      CountFor(es, s) == 0 && Oldest(es, s) == None
  {
  }

  /** One report names a switch at most once, exactly if it is new or has changed, with its new state. */
  lemma {:induction false} EventsOfSwitch(base: int, previous: Option<nat>, word: nat, n: nat, s: int)
    ensures CountFor(Events(base, previous, word, n), s) ==
      if base <= s < base + n && Differs(previous, word, s - base) then 1 else 0
    ensures Oldest(Events(base, previous, word, n), s) ==
      if base <= s < base + n && Differs(previous, word, s - base) then Some(Bit(word, s - base) == 1) else None
  {
    hide Bit, CountFor, Oldest, Events, Differs;
    if n == 0 {
      NoEvents(base, previous, word, s);
    } else {
      EventsOfSwitch(base, previous, word, n - 1, s);
      OneMoreEvent(base, previous, word, n - 1, s);
    }
  }

  lemma AppendedOne(es: seq<Event>, e: Event, s: int)
    ensures CountFor(es + [e], s) == CountFor(es, s) + if e.switch == s then 1 else 0
    ensures Oldest(es + [e], s) ==
      if Oldest(es, s).Some? then Oldest(es, s) else if e.switch == s then Some(e.on) else None
    ensures Oldest(es, s).Some? <==> CountFor(es, s) > 0
  {
    assert (es + [e])[..|es|] == es;
  }

  lemma {:induction false} Appended(es: seq<Event>, more: seq<Event>, s: int)
    ensures CountFor(es + more, s) == CountFor(es, s) + CountFor(more, s)
    ensures Oldest(es + more, s) == if Oldest(es, s).Some? then Oldest(es, s) else Oldest(more, s)
  {
    if more == [] {
      assert es + more == es;
    } else {
      Appended(es, more[..|more| - 1], s);
      assert (es + more)[..|es + more| - 1] == es + more[..|more| - 1];
    }
  }

  function Ran(t: Timer, reports: seq<Report>): Timer {
    if reports == [] then t else Reported(Ran(t, reports[..|reports| - 1]), reports[|reports| - 1])
  }

  /** Without events the state is the one at the start; after n events it is the oldest's exactly if n is odd. */
  predicate Alternated(n: nat, oldest: Option<bool>, now: Option<bool>, start: Option<bool>) {
    && (oldest.Some? <==> n > 0)
    && (n == 0 ==> now == start)
    && (n > 0 ==> now.Some? && (oldest == now <==> n % 2 == 1))
  }

  /**
    Events of one switch alternate. From an empty stack, the oldest of them is the state last reported
    exactly if their number is odd; with no event the state is the one at the start.
  */
  lemma {:induction false} EventsAlternate(t: Timer, reports: seq<Report>, s: int)
    requires t.stack == []
    ensures var u := Ran(t, reports);
      Alternated(CountFor(u.stack, s), Oldest(u.stack, s), Actual(u, s), Actual(t, s))
  {
    if reports == [] {
      NothingHappened(t, s);
    } else {
      hide Reported, Actual, CountFor, Oldest;
      var before, r := reports[..|reports| - 1], reports[|reports| - 1];
      EventsAlternate(t, before, s);
      var u, v := Ran(t, before), Reported(Ran(t, before), r);
      ReportAlternates(u, r, s);
      OneMoreAlternates(CountFor(u.stack, s), Oldest(u.stack, s), Actual(u, s), Actual(t, s),
                        CountFor(v.stack, s), Oldest(v.stack, s), Actual(v, s));
    }
  }

  lemma NothingHappened(t: Timer, s: int)
    requires t.stack == []
    ensures Alternated(CountFor(t.stack, s), Oldest(t.stack, s), Actual(t, s), Actual(t, s))
  {
  }

  lemma OneMoreAlternates(n: nat, oldest: Option<bool>, now: Option<bool>, start: Option<bool>,
                          n': nat, oldest': Option<bool>, now': Option<bool>)
    requires Alternated(n, oldest, now, start) && n <= n' <= n + 1
    requires n' == n ==> now' == now && oldest' == oldest
    requires n' > n ==> now'.Some? && now' != now && oldest' == if oldest.Some? then oldest else now'
    ensures Alternated(n', oldest', now', start)
  {
    if n' > n > 0 {
      TwoValued(oldest, now', now);
      NextParity(n);
    }
  }

  lemma NextParity(n: nat)
    ensures (n + 1) % 2 == 1 <==> n % 2 != 1
  {
  }

  lemma TwoValued(o: Option<bool>, a: Option<bool>, b: Option<bool>)
    requires o.Some? && a.Some? && b.Some? && a != b
    ensures o == a <==> o != b
  {
    assert a.value != b.value;
    assert o.value == a.value || o.value == b.value;
  }

  /** One report adds no event for a switch and keeps its state, or adds one that changes it. */
  lemma ReportAlternates(u: Timer, r: Report, s: int)
    ensures var v := Reported(u, r);
      && (CountFor(v.stack, s) == CountFor(u.stack, s) ==> Actual(v, s) == Actual(u, s) && Oldest(v.stack, s) == Oldest(u.stack, s))
      && CountFor(u.stack, s) <= CountFor(v.stack, s) <= CountFor(u.stack, s) + 1
      && (CountFor(v.stack, s) > CountFor(u.stack, s) ==>
        && Actual(v, s).Some? && Actual(v, s) != Actual(u, s)
        && Oldest(v.stack, s) == if Oldest(u.stack, s).Some? then Oldest(u.stack, s) else Actual(v, s))
  {
    var base, previous := Base(r.bank), if r.bank == Low then u.low else u.high;
    var es := Events(base, previous, r.word, 32);
    assert Reported(u, r).stack == u.stack + es;
    EventsOfSwitch(base, previous, r.word, 32, s);
    Appended(u.stack, es, s);
    StateOfBank(u, r, s);
    hide *;
  }

  function StateIn(word: Option<nat>, k: nat): Option<bool> {
    if word.Some? then Some(Bit(word.value, k) == 1) else None
  }

  /** A report decides the switches of its bank and leaves the others. */
  lemma StateOfBank(u: Timer, r: Report, s: int)
    ensures var base, previous := Base(r.bank), if r.bank == Low then u.low else u.high;
      if base <= s < base + 32
      then Actual(u, s) == StateIn(previous, s - base) && Actual(Reported(u, r), s) == Some(Bit(r.word, s - base) == 1)
        && (Actual(Reported(u, r), s) != Actual(u, s) <==> previous.None? || Bit(r.word, s - base) != Bit(previous.value, s - base))
      else Actual(Reported(u, r), s) == Actual(u, s)
  {
    hide Bit;
  }

  /**
    However many reports arrive before the consumer drains the stack, its picture of a switch is right
    exactly if the stack held no event of the switch or an odd number of them.
  */
  lemma DrainIsRightIff(t: Timer, panel: map<int, bool>, reports: seq<Report>, s: int)
    requires t.stack == [] && Lookup(panel, s) == Actual(t, s)
    ensures var u := Ran(t, reports);
      Lookup(Replayed(panel, u.stack), s) == Actual(u, s)
      <==> CountFor(u.stack, s) == 0 || CountFor(u.stack, s) % 2 == 1
  {
    EventsAlternate(t, reports, s);
    ReplayEndsWithOldest(panel, Ran(t, reports).stack, s);
  }

  lemma OnAndOffLeavesOn(t: Timer, panel: map<int, bool>)
    requires t == Timer(Some(0), None, []) && Lookup(panel, 1) == Some(false)
    ensures var u := Ran(t, [Report(Low, 1), Report(Low, 0)]);
      && Actual(u, 1) == Some(false)
      && Lookup(Replayed(panel, u.stack), 1) == Some(true)
  {
    hide Events, CountFor, Oldest, Replayed;
    var on, off := Events(1, Some(0), 1, 32), Events(1, Some(1), 0, 32);
    assert Bit(0, 0) == 0 && Bit(1, 0) == 1;
    EventsOfSwitch(1, Some(0), 1, 32, 1);
    EventsOfSwitch(1, Some(1), 0, 32, 1);
    TwoReports(t, on, off);
    Appended(on, off, 1);
    ReplayEndsWithOldest(panel, on + off, 1);
  }

  lemma TwoReports(t: Timer, on: seq<Event>, off: seq<Event>)
    requires t == Timer(Some(0), None, []) && on == Events(1, Some(0), 1, 32) && off == Events(1, Some(1), 0, 32)
    ensures Ran(t, [Report(Low, 1), Report(Low, 0)]) == Timer(Some(0), None, on + off)
  {
    hide Events;
    var reports := [Report(Low, 1), Report(Low, 0)];
    assert reports[..1] == [reports[0]] && reports[..1][..0] == [];
    assert Ran(t, reports[..1]) == Reported(t, reports[0]);
    assert [] + on == on;
  }

  ghost predicate OnBoard(stack: seq<Event>, n: int) {
    forall i :: 0 <= i < |stack| ==> stack[i].switch <= n
  }

  /** With events of its own switches only, a board's stack is drained whole. */
  lemma {:induction false} DrainedWhole(panel: map<int, bool>, stack: seq<Event>, n: int)
    requires OnBoard(stack, n)
    ensures Drained(panel, stack, n) == (Replayed(panel, stack), [])
    decreases |stack|
  {
    if stack != [] {
      var top := stack[|stack| - 1];
      DrainedWhole(panel[top.switch := top.on], stack[..|stack| - 1], n);
    }
  }

  ghost predicate Ascending(es: seq<Event>) {
    forall i, j :: 0 <= i < j < |es| ==> es[i].switch < es[j].switch
  }

  lemma {:induction false} EventsAscend(base: int, previous: Option<nat>, word: nat, n: nat)
    ensures Ascending(Events(base, previous, word, n))
  {
    hide Bit;
    if n > 0 {
      EventsAscend(base, previous, word, n - 1);
    }
  }

  /**
    One report and one drain: the picture of a switch of the board is right exactly if the report named
    no switch beyond the board or left this one alone; such an event is the newest and stops the drain.
  */
  lemma DrainOfReportIsRightIff(t: Timer, panel: map<int, bool>, r: Report, n: int, s: int)
    requires t.stack == [] && Lookup(panel, s) == Actual(t, s)
    ensures var u := Reported(t, r);
      Lookup(Drained(panel, u.stack, n).0, s) == Actual(u, s) <==> OnBoard(u.stack, n) || CountFor(u.stack, s) == 0
  {
    var u := Reported(t, r);
    ReportAlternates(t, r, s);
    if OnBoard(u.stack, n) {
      DrainedWhole(panel, u.stack, n);
      assert [r][..0] == [];
      assert Ran(t, [r]) == u;
      DrainIsRightIff(t, panel, [r], s);
    } else {
      NewestIsBeyond(t, r, n);
    }
  }

  lemma NewestIsBeyond(t: Timer, r: Report, n: int)
    requires t.stack == [] && !OnBoard(Reported(t, r).stack, n)
    ensures var stack := Reported(t, r).stack;
      stack != [] && stack[|stack| - 1].switch > n
  {
    hide Events, OnBoard, Ascending, Bit;
    var base, previous := Base(r.bank), if r.bank == Low then t.low else t.high;
    EventsAscend(base, previous, r.word, 32);
    assert [] + Events(base, previous, r.word, 32) == Events(base, previous, r.word, 32);
    NewestOf(Events(base, previous, r.word, 32), n);
  }

  lemma NewestOf(es: seq<Event>, n: int)
    requires Ascending(es) && !OnBoard(es, n)
    ensures es != [] && es[|es| - 1].switch > n
  {
    var i :| 0 <= i < |es| && es[i].switch > n;
    assert i < |es| - 1 ==> es[i].switch < es[|es| - 1].switch;
  }

  /** The timer and the picture when the consumer drains after every report. */
  function Followed(t: Timer, panel: map<int, bool>, reports: seq<Report>, n: int): (Timer, map<int, bool>) {
    if reports == [] then (t, panel)
    else
      var (u, p) := Followed(t, panel, reports[..|reports| - 1], n);
      var v := Reported(u, reports[|reports| - 1]);
      var (p', rest) := Drained(p, v.stack, n);
      (v.(stack := rest), p')
  }

  /** No report of the run names a switch beyond the board. */
  ghost predicate AllOnBoard(t: Timer, reports: seq<Report>, n: int) {
    reports != [] ==>
      var u := Ran(t, reports[..|reports| - 1]);
      && AllOnBoard(t, reports[..|reports| - 1], n)
      && OnBoard(Reported(u.(stack := []), reports[|reports| - 1]).stack, n)
  }

  /** Draining after every report, the consumer's picture is the reported panel, over every run. */
  lemma {:induction false} DrainingFollowsPanel(t: Timer, panel: map<int, bool>, reports: seq<Report>, n: int, s: int)
    requires t.stack == [] && Lookup(panel, s) == Actual(t, s)
    requires AllOnBoard(t, reports, n)
    ensures var (u, p) := Followed(t, panel, reports, n);
      u == Ran(t, reports).(stack := []) && Lookup(p, s) == Actual(u, s)
  {
    if reports != [] {
      var before, r := reports[..|reports| - 1], reports[|reports| - 1];
      DrainingFollowsPanel(t, panel, before, n, s);
      var (u, p) := Followed(t, panel, before, n);
      DrainOfReportIsRightIff(u, p, r, n, s);
      DrainedWhole(p, Reported(u, r).stack, n);
      hide Events, Drained;
    }
  }

  /** A board of 64 switches, and one of 32 that reports only those, never names a switch beyond it. */
  lemma {:induction false} SizesFit(t: Timer, reports: seq<Report>, n: int)
    requires n >= 64 || (n >= 32 && forall i :: 0 <= i < |reports| ==> reports[i].bank == Low)
    ensures AllOnBoard(t, reports, n)
  {
    if reports != [] {
      SizesFit(t, reports[..|reports| - 1], n);
    }
  }

  /** The counterexample: after a drained first report, switch 1 goes on and off before the consumer looks. */
  lemma TwoUndrainedReportsMislead()
    ensures var (t, panel) := Followed(FRESH, map[], [Report(Low, 0)], 32);
      var u := Ran(t, [Report(Low, 1), Report(Low, 0)]);
      && Lookup(panel, 1) == Actual(t, 1) == Some(false)
      && Actual(u, 1) == Some(false) && Lookup(Replayed(panel, u.stack), 1) == Some(true)
  {
    var first := [Report(Low, 0)];
    assert first[..0] == [];
    var (t, panel) := Followed(FRESH, map[], first, 32);
    SizesFit(FRESH, first, 32);
    DrainingFollowsPanel(FRESH, map[], first, 32, 1);
    FirstReport();
    hide Ran, Replayed, Followed;
    OnAndOffLeavesOn(t, panel);
  }

  lemma FirstReport()
    ensures Ran(FRESH, [Report(Low, 0)]).(stack := []) == Timer(Some(0), None, [])
    ensures Actual(Timer(Some(0), None, []), 1) == Some(false)
  {
    hide Events;
    assert [Report(Low, 0)][..0] == [];
  }

  /** Within one report the order of popping does not matter: any order gives the same picture. */
  lemma {:induction false} AnyOrderReplays(panel: map<int, bool>, es: seq<Event>, order: seq<Event>, s: int)
    requires forall s' :: CountFor(es, s') <= 1
    requires multiset(es) == multiset(order)
    ensures Lookup(Replayed(panel, order), s) == Lookup(Replayed(panel, es), s)
  {
    ReplayEndsWithOldest(panel, es, s);
    ReplayEndsWithOldest(panel, order, s);
    if Oldest(es, s).Some? {
      OldestIsEvent(es, s);
      assert Event(s, Oldest(es, s).value) in multiset(order);
      EventIsCounted(order, s, Oldest(es, s).value);
      OldestIsEvent(order, s);
      assert Event(s, Oldest(order, s).value) in multiset(es);
      OneEvent(es, s, Oldest(es, s).value, Oldest(order, s).value);
    } else if Oldest(order, s).Some? {
      OldestIsEvent(order, s);
      assert Event(s, Oldest(order, s).value) in multiset(es);
      EventIsCounted(es, s, Oldest(order, s).value);
    }
  }

  lemma {:induction false} OldestIsEvent(es: seq<Event>, s: int)
    requires Oldest(es, s).Some?
    ensures Event(s, Oldest(es, s).value) in es
  {
    if Oldest(es[..|es| - 1], s).Some? {
      OldestIsEvent(es[..|es| - 1], s);
    }
  }

  lemma {:induction false} EventIsCounted(es: seq<Event>, s: int, on: bool)
    requires Event(s, on) in es
    ensures CountFor(es, s) > 0
  {
    if es[|es| - 1] != Event(s, on) {
      EventIsCounted(es[..|es| - 1], s, on);
    }
  }

  lemma {:induction false} OneEvent(es: seq<Event>, s: int, a: bool, b: bool)
    requires CountFor(es, s) <= 1 && Event(s, a) in es && Event(s, b) in es
    ensures a == b
  {
    var before, last := es[..|es| - 1], es[|es| - 1];
    if last.switch == s {
      if Event(s, a) in before {
        EventIsCounted(before, s, a);
      }
      if Event(s, b) in before {
        EventIsCounted(before, s, b);
      }
    } else {
      OneEvent(before, s, a, b);
    }
  }
}
