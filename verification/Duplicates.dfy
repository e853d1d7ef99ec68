/**
  Conservation of subscriptions over whole runs, in both registries: the count of an id is the number
  of its holders plus the number of times a client subscribed it while already holding it.
*/
module Duplicates {
  import opened Common
  import Registry
  import opened RefCounts
  import opened Sessions

  ghost function Excess(s: State, r: Register, id: int): int {
    Surplus(RegistryOf(s, r), HeldOf(s, r), id)
  }

  /** Whether the item resolves to `id` while the client already holds it. */
  ghost predicate Repeats(s: State, c: int, item: Item, q: Register, id: int)
    requires Inv(s) && c in s.refs
  {
    Registry.Subscribed(RegistryOf(s, q), item.name, item.creates).1 == Some(id) && id in HeldOf(s, q)[c]
  }

  ghost function RepeatedItems(s: State, c: int, items: seq<Item>, q: Register, id: int): nat
    requires Inv(s) && c in s.refs
  {
    if items == [] then 0
    else
      var n := |items| - 1;
      RepeatedItems(s, c, items[..n], q, id)
      + if Repeats(WithItems(s, c, items[..n], q), c, items[n], q, id) then 1 else 0
  }

  ghost function RepeatedInPoll(s: State, p: Poll, r: Register, id: int): nat
    requires Inv(s) && p.clientId in s.refs && p.clientId !in s.timedOut
  {
    HeardKeepsInv(s, p);
    var (t, request) := Heard(s, p);
    match request
    case Some(SubscribeDatarefs(items)) => if r == OfDatarefs then RepeatedItems(t, p.clientId, items, r, id) else 0
    case Some(SubscribeCommands(items)) => if r == OfCommands then RepeatedItems(t, p.clientId, items, r, id) else 0
    case _ => 0
  }

  ghost function RepeatedInPolls(s: State, polls: seq<Poll>, r: Register, id: int): nat
    requires Inv(s) && s.timedOut == []
    requires Visits(polls, s.refs.Keys)
  {
    hide Inv, Served;
    if polls == [] then 0
    else
      var n := |polls| - 1;
      assert polls[n].clientId !in ServedAll(s, polls[..n]).timedOut;
      RepeatedInPolls(s, polls[..n], r, id) + RepeatedInPoll(ServedAll(s, polls[..n]), polls[n], r, id)
  }

  /** The duplicate subscriptions of an id over a whole run. */
  ghost function RepeatedInRun(inputs: seq<Input>, r: Register, id: int): nat {
    if inputs == [] then 0
    else
      var s, i := Run(inputs[..|inputs| - 1]), inputs[|inputs| - 1];
      RepeatedInRun(inputs[..|inputs| - 1], r, id)
      + if Enabled(s, i) then RepeatedInPolls(MulticastRound(s, i.open, i.now), i.polls, r, id) else 0
  }

  lemma RegistryIsWellFormed(s: State, q: Register)
    requires Inv(s)
    ensures Registry.WellFormed(RegistryOf(s, q))
  {
  }

  lemma AfterItem(s: State, c: int, item: Item, q: Register)
    requires Inv(s) && c in s.refs
    ensures var held := HeldOf(s, q);
      var (reg', r) := Registry.Subscribed(RegistryOf(s, q), item.name, item.creates);
      var t := WithItem(s, c, item, q);
      RegistryOf(t, q) == reg' && HeldOf(t, q) == if r.Some? then held[c := held[c] + {r.value}] else held
  {
    hide Inv, Registry.Subscribed, Registry.WellFormed;
    RegistryIsWellFormed(s, q);
    var r := Registry.Subscribed(RegistryOf(s, q), item.name, item.creates).1;
    var held, t := HeldOf(s, q), WithItem(s, c, item, q);
    assert HeldOf(t, q) == if r.Some? then held[c := held[c] + {r.value}] else held;
  }

  lemma ItemExcess(s: State, c: int, item: Item, q: Register, id: int)
    requires Inv(s) && c in s.refs
    ensures Excess(WithItem(s, c, item, q), q, id) == Excess(s, q, id) + if Repeats(s, c, item, q, id) then 1 else 0
  {
    var reg, held := RegistryOf(s, q), HeldOf(s, q);
    var t := WithItem(s, c, item, q);
    var (reg', r) := Registry.Subscribed(reg, item.name, item.creates);
    Registry.SubscribeCounts(reg, item.name, item.creates, id);
    AfterItem(s, c, item, q);
    hide Registry.Subscribed, Surplus, WithItem, HeldOf, RegistryOf;
    if r.Some? {
      SubscribeSurplus(reg, held, c, item.name, item.creates, id);
    } else {
      SameHoldersSurplus(reg, reg', held, id);
    }
  }

  lemma SameHoldersSurplus(reg: Registry.State, reg': Registry.State, held: Holdings, id: int)
    requires Registry.Count(reg', id) == Registry.Count(reg, id)
    ensures Surplus(reg', held, id) == Surplus(reg, held, id)
  {
  }

  /** Subscribing in one registry leaves the other one and what is held of it alone. */
  lemma OtherExcess(s: State, c: int, item: Item, q: Register, r: Register, id: int)
    requires Inv(s) && c in s.refs && q != r
    ensures Excess(WithItem(s, c, item, q), r, id) == Excess(s, r, id)
  {
    hide Inv, Registry.Subscribed, Surplus, Registry.WellFormed;
    RegistryIsWellFormed(s, q);
    assert HeldOf(WithItem(s, c, item, q), r) == HeldOf(s, r);
  }

  lemma {:induction false} ItemsExcess(s: State, c: int, items: seq<Item>, q: Register, r: Register, id: int)
    requires Inv(s) && c in s.refs
    ensures Excess(WithItems(s, c, items, q), r, id) == Excess(s, r, id) + if q == r then RepeatedItems(s, c, items, q, id) else 0
  {
    hide Inv, Excess, WithItem, Repeats;
    if items == [] {
      assert WithItems(s, c, items, q) == s;
    } else {
      var n := |items| - 1;
      ItemsExcess(s, c, items[..n], q, r, id);
      WithLastItem(s, c, items, q);
      hide WithItems;
      if q == r {
        ItemExcess(WithItems(s, c, items[..n], q), c, items[n], q, id);
      } else {
        OtherExcess(WithItems(s, c, items[..n], q), c, items[n], q, r, id);
      }
    }
  }

  lemma HeardExcess(s: State, p: Poll, r: Register, id: int)
    requires Inv(s)
    ensures Excess(Heard(s, p).0, r, id) == Excess(s, r, id)
  {
    hide Inv;
    UntouchedExcess(s, Heard(s, p).0, r, id);
  }

  lemma PollExcess(s: State, p: Poll, r: Register, id: int)
    requires Inv(s) && p.clientId in s.refs && p.clientId !in s.timedOut
    ensures Excess(Served(s, p), r, id) == Excess(s, r, id) + RepeatedInPoll(s, p, r, id)
  {
    hide Inv, Excess, Heard, WithDatarefs, WithCommands, RepeatedItems;
    HeardKeepsInv(s, p);
    HeardExcess(s, p, r, id);
    var (t, request) := Heard(s, p);
    match request {
      case Some(SubscribeDatarefs(items)) => ItemsExcess(t, p.clientId, items, OfDatarefs, r, id);
      case Some(SubscribeCommands(items)) => ItemsExcess(t, p.clientId, items, OfCommands, r, id);
      case _ =>
    }
  }

  lemma {:induction false} PollsExcess(s: State, polls: seq<Poll>, r: Register, id: int)
    requires Inv(s) && s.timedOut == []
    requires Visits(polls, s.refs.Keys)
    ensures Excess(ServedAll(s, polls), r, id) == Excess(s, r, id) + RepeatedInPolls(s, polls, r, id)
  {
    hide Inv, Excess, Served, RepeatedInPoll;
    if polls != [] {
      var n := |polls| - 1;
      PollsExcess(s, polls[..n], r, id);
      assert polls[n].clientId !in ServedAll(s, polls[..n]).timedOut;
      PollExcess(ServedAll(s, polls[..n]), polls[n], r, id);
    }
  }

  lemma {:induction false} DropsExcess(s: State, r: Register, id: int)
    requires Inv(s)
    ensures Excess(DroppedTimedOut(s), r, id) == Excess(s, r, id)
    decreases |s.timedOut|
  {
    hide Excess;
    if s.timedOut != [] {
      DropKeepsInv(s);
      DropExcess(s, r, id);
      DropsExcess(DroppedNext(s), r, id);
    }
  }

  lemma DropExcess(s: State, r: Register, id: int)
    requires Inv(s) && s.timedOut != []
    ensures Excess(DroppedNext(s), r, id) == Excess(s, r, id)
  {
    assert HeldOf(DroppedNext(s), r) == HeldOf(s, r) - {s.timedOut[0]};
    LeaveSurplus(RegistryOf(s, r), HeldOf(s, r), s.timedOut[0], id);
  }

  lemma RoundExcess(s: State, open: Option<Open>, now: int, r: Register, id: int)
    requires Inv(s) && HandedOver(s)
    requires open.Some? ==> ValidOpen(open.value)
    ensures Excess(MulticastRound(s, open, now), r, id) == Excess(s, r, id)
  {
    var t := AfterOpen(s, open, now);
    OpenExcess(s, open, now, r, id);
    hide Inv, Excess, AfterOpen;
    DropsExcess(t, r, id);
  }

  lemma OpenExcess(s: State, open: Option<Open>, now: int, r: Register, id: int)
    requires Inv(s) && HandedOver(s)
    requires open.Some? ==> ValidOpen(open.value)
    ensures Excess(AfterOpen(s, open, now), r, id) == Excess(s, r, id)
  {
    hide Inv, Excess;
    if open.Some? {
      OpenKeepsInv(s, open.value, now);
      var s' := Opened(s, open.value, now).0;
      UntouchedExcess(s, s', r, id);
      HandOffExcess(s', now, r, id);
    }
  }

  lemma UntouchedExcess(s: State, t: State, r: Register, id: int)
    requires t.refs == s.refs && t.datarefs == s.datarefs && t.commands == s.commands
    ensures Excess(t, r, id) == Excess(s, r, id)
  {
    assert HeldOf(t, r) == HeldOf(s, r);
  }

  lemma HandOffExcess(s: State, now: int, r: Register, id: int)
    requires Inv(s)
    ensures Excess(HandedOff(s, now), r, id) == Excess(s, r, id)
  {
    hide Inv, Registry.WellFormed;
    HandOffKeepsInv(s, now);
    var t := HandedOff(s, now);
    assert forall c: int :: c in Holders(HeldOf(t, r), id) <==> c in Holders(HeldOf(s, r), id);
    assert Holders(HeldOf(t, r), id) == Holders(HeldOf(s, r), id);
  }

  /** Conservation: a count is its holders plus every duplicate subscription ever made. */
  lemma {:induction false} CountIsHoldersPlusRepeats(inputs: seq<Input>, r: Register, id: int)
    ensures var s := Run(inputs);
      Registry.Count(RegistryOf(s, r), id) == |Holders(HeldOf(s, r), id)| + RepeatedInRun(inputs, r, id)
  {
    RunExcess(inputs, r, id);
  }

  lemma NoExcessAtStart(r: Register, id: int)
    ensures Excess(START, r, id) == 0
  {
    assert HeldOf(START, r) == map[] && Holders(map[], id) == {};
  }

  lemma {:induction false} RunExcess(inputs: seq<Input>, r: Register, id: int)
    ensures Excess(Run(inputs), r, id) == RepeatedInRun(inputs, r, id)
  {
    hide Inv, Excess, Enabled, RepeatedInPolls, MulticastRound;
    if inputs == [] {
      NoExcessAtStart(r, id);
    } else {
      var s, i := Run(inputs[..|inputs| - 1]), inputs[|inputs| - 1];
      RunExcess(inputs[..|inputs| - 1], r, id);
      if Enabled(s, i) {
        StepExcess(s, i, r, id);
      }
    }
  }

  lemma StepExcess(s: State, i: Input, r: Register, id: int)
    requires Inv(s) && HandedOver(s) && Enabled(s, i)
    ensures Excess(Updated(s, i), r, id) == Excess(s, r, id) + RepeatedInPolls(MulticastRound(s, i.open, i.now), i.polls, r, id)
  {
    hide Inv, Excess, RepeatedInPolls, MulticastRound, ServedAll;
    RoundExcess(s, i.open, i.now, r, id);
    PollsExcess(MulticastRound(s, i.open, i.now), i.polls, r, id);
  }

  /** Once every client is gone, an id is still registered exactly if it was ever subscribed twice. */
  lemma RegisteredWithoutClientsIffRepeated(inputs: seq<Input>, r: Register, id: int)
    requires Run(inputs).refs == map[]
    ensures id in RegistryOf(Run(inputs), r).byId <==> RepeatedInRun(inputs, r, id) > 0
  {
    var s := Run(inputs);
    CountIsHoldersPlusRepeats(inputs, r, id);
    hide RepeatedInRun, Run;
    assert HeldOf(s, r) == map[] && Holders(map[], id) == {};
  }
}
