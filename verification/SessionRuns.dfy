/** What holds of the server over whole runs of updates, from any reachable state onwards. */
module SessionRuns {
  import opened Common
  import Registry
  import opened RefCounts
  import opened Sessions

  /** Both registries advance: whoever stays connected keeps its ids under their names. */
  ghost predicate Advanced(s: State, t: State) {
    && Advances(s.datarefs, HeldDatarefs(s), t.datarefs, HeldDatarefs(t))
    && Advances(s.commands, HeldCommands(s), t.commands, HeldCommands(t))
  }

  lemma AdvancedChain(s: State, t: State, u: State)
    requires Advanced(s, t) && Advanced(t, u)
    requires s.refs.Keys * u.refs.Keys <= t.refs.Keys
    ensures Advanced(s, u)
  {
    AdvancesChain(s.datarefs, HeldDatarefs(s), t.datarefs, HeldDatarefs(t), u.datarefs, HeldDatarefs(u));
    AdvancesChain(s.commands, HeldCommands(s), t.commands, HeldCommands(t), u.commands, HeldCommands(u));
  }

  lemma UntouchedAdvanced(s: State, t: State)
    requires Inv(s) && t.refs == s.refs && t.datarefs == s.datarefs && t.commands == s.commands
    ensures Advanced(s, t)
  {
    NothingAdvances(s.datarefs, HeldDatarefs(s));
    NothingAdvances(s.commands, HeldCommands(s));
    assert HeldDatarefs(t) == HeldDatarefs(s) && HeldCommands(t) == HeldCommands(s);
  }

  lemma AfterOpenAdvanced(s: State, open: Option<Open>, now: int)
    requires Inv(s) && HandedOver(s)
    requires open.Some? ==> ValidOpen(open.value)
    ensures Advanced(s, AfterOpen(s, open, now))
    ensures s.refs.Keys <= AfterOpen(s, open, now).refs.Keys
  {
    UntouchedAdvanced(s, s);
    if open.Some? {
      var (s', connected) := Opened(s, open.value, now);
      OpenKeepsInv(s, open.value, now);
      UntouchedAdvanced(s, s');
      if connected {
        HandOffKeepsInv(s', now);
        var t := HandedOff(s', now);
        JoinAdvances(s'.datarefs, HeldDatarefs(s'), HeldDatarefs(t));
        JoinAdvances(s'.commands, HeldCommands(s'), HeldCommands(t));
        AdvancedChain(s, s', t);
      }
    }
  }

  lemma DropAdvanced(s: State)
    requires Inv(s) && s.timedOut != []
    ensures Advanced(s, DroppedNext(s))
  {
    var id, t := s.timedOut[0], DroppedNext(s);
    assert HeldDatarefs(t) == HeldDatarefs(s) - {id};
    assert HeldCommands(t) == HeldCommands(s) - {id};
    LeaveAdvances(s.datarefs, HeldDatarefs(s), id);
    LeaveAdvances(s.commands, HeldCommands(s), id);
  }

  lemma {:induction false} DropAllAdvanced(s: State)
    requires Inv(s)
    ensures Advanced(s, DroppedTimedOut(s))
    ensures DroppedTimedOut(s).refs.Keys == s.refs.Keys - (set id | id in s.timedOut)
    decreases |s.timedOut|
  {
    hide Advanced, Inv;
    if s.timedOut == [] {
      UntouchedAdvanced(s, s);
    } else {
      var t := DroppedNext(s);
      DropKeepsInv(s);
      DropAdvanced(s);
      DropAllAdvanced(t);
      assert s.timedOut == [s.timedOut[0]] + t.timedOut;
      AdvancedChain(s, t, DroppedTimedOut(t));
    }
  }

  lemma DatarefAdvanced(s: State, c: int, item: Item)
    requires Inv(s) && c in s.refs
    ensures Advanced(s, WithDataref(s, c, item))
  {
    hide MapsAgree, TimedOutAreListed, Surplus, Advances, Registry.Subscribed;
    var t := WithDataref(s, c, item);
    var r := Registry.Subscribed(s.datarefs, item.name, item.creates).1;
    SubscribeAdvances(s.datarefs, HeldDatarefs(s), c, item.name, item.creates);
    assert HeldDatarefs(t) == if r.Some? then HeldDatarefs(s)[c := HeldDatarefs(s)[c] + {r.value}] else HeldDatarefs(s);
    NothingAdvances(s.commands, HeldCommands(s));
    assert HeldCommands(t) == HeldCommands(s);
  }

  lemma {:induction false} DatarefsAdvanced(s: State, c: int, items: seq<Item>)
    requires Inv(s) && c in s.refs
    ensures Advanced(s, WithDatarefs(s, c, items))
  {
    hide Advanced, Inv;
    if items == [] {
      UntouchedAdvanced(s, s);
    } else {
      var t := WithDatarefs(s, c, items[..|items| - 1]);
      DatarefsAdvanced(s, c, items[..|items| - 1]);
      DatarefAdvanced(t, c, items[|items| - 1]);
      AdvancedChain(s, t, WithDatarefs(s, c, items));
    }
  }

  lemma CommandAdvanced(s: State, c: int, item: Item)
    requires Inv(s) && c in s.refs
    ensures Advanced(s, WithCommand(s, c, item))
  {
    hide MapsAgree, TimedOutAreListed, Surplus, Advances, Registry.Subscribed;
    var t := WithCommand(s, c, item);
    var r := Registry.Subscribed(s.commands, item.name, item.creates).1;
    SubscribeAdvances(s.commands, HeldCommands(s), c, item.name, item.creates);
    assert HeldCommands(t) == if r.Some? then HeldCommands(s)[c := HeldCommands(s)[c] + {r.value}] else HeldCommands(s);
    NothingAdvances(s.datarefs, HeldDatarefs(s));
    assert HeldDatarefs(t) == HeldDatarefs(s);
  }

  lemma {:induction false} CommandsAdvanced(s: State, c: int, items: seq<Item>)
    requires Inv(s) && c in s.refs
    ensures Advanced(s, WithCommands(s, c, items))
  {
    hide Advanced, Inv;
    if items == [] {
      UntouchedAdvanced(s, s);
    } else {
      var t := WithCommands(s, c, items[..|items| - 1]);
      CommandsAdvanced(s, c, items[..|items| - 1]);
      CommandAdvanced(t, c, items[|items| - 1]);
      AdvancedChain(s, t, WithCommands(s, c, items));
    }
  }

  lemma HeardAdvanced(s: State, p: Poll)
    requires Inv(s)
    ensures Advanced(s, Heard(s, p).0)
  {
    hide Inv, Advanced;
    UntouchedAdvanced(s, Heard(s, p).0);
  }

  lemma ServedAdvanced(s: State, p: Poll)
    requires Inv(s) && p.clientId in s.refs && p.clientId !in s.timedOut
    ensures Advanced(s, Served(s, p))
  {
    hide Inv, Advanced, Heard, WithDatarefs, WithCommands;
    HeardKeepsInv(s, p);
    HeardAdvanced(s, p);
    var (t, request) := Heard(s, p);
    match request {
      case Some(SubscribeDatarefs(items)) =>
        DatarefsAdvanced(t, p.clientId, items);
        AdvancedChain(s, t, WithDatarefs(t, p.clientId, items));
      case Some(SubscribeCommands(items)) =>
        CommandsAdvanced(t, p.clientId, items);
        AdvancedChain(s, t, WithCommands(t, p.clientId, items));
      case _ =>
    }
  }

  lemma {:induction false} ServedAllAdvanced(s: State, polls: seq<Poll>)
    requires Inv(s) && s.timedOut == []
    requires Visits(polls, s.refs.Keys)
    ensures Advanced(s, ServedAll(s, polls))
  {
    hide Inv, Advanced, Served, Visits, Polled;
    if polls == [] {
      UntouchedAdvanced(s, s);
    } else {
      PolledGrows(polls, s.refs.Keys);
      var n := |polls| - 1;
      var t := ServedAll(s, polls[..n]);
      ServedAllAdvanced(s, polls[..n]);
      ServedAdvanced(t, polls[n]);
      AdvancedChain(s, t, ServedAll(s, polls));
    }
  }

  lemma RoundAdvanced(s: State, i: Input)
    requires Inv(s) && HandedOver(s) && Enabled(s, i)
    ensures var u := MulticastRound(s, i.open, i.now);
      && Advanced(s, u)
      && s.refs.Keys - u.refs.Keys == set id | id in s.timedOut
  {
    hide Advanced, Inv;
    var t, u := AfterOpen(s, i.open, i.now), MulticastRound(s, i.open, i.now);
    AfterOpenAdvanced(s, i.open, i.now);
    assert t.timedOut == s.timedOut by { OpenKeepsTimedOut(s, i.open, i.now); }
    DropAllAdvanced(t);
    AdvancedChain(s, t, u);
    assert (set id | id in s.timedOut) <= s.refs.Keys by { TimedOutIsConnected(s); }
  }

  /** One update advances both registries; it drops exactly the clients on the timed-out list. */
  lemma UpdateAdvanced(s: State, i: Input)
    requires Inv(s) && HandedOver(s) && Enabled(s, i)
    ensures Advanced(s, Updated(s, i))
    ensures s.refs.Keys - Updated(s, i).refs.Keys == set id | id in s.timedOut
  {
    hide Advanced, Inv, MulticastRound;
    var u := MulticastRound(s, i.open, i.now);
    RoundAdvanced(s, i);
    ServedAllAdvanced(u, i.polls);
    AdvancedChain(s, u, Updated(s, i));
  }

  lemma TimedOutIsConnected(s: State)
    requires Inv(s)
    ensures (set id | id in s.timedOut) <= s.refs.Keys
  {
    forall id | id in s.timedOut
      ensures id in s.refs
    {
      assert id in s.udp;
    }
  }

  lemma OpenKeepsTimedOut(s: State, open: Option<Open>, now: int)
    requires Inv(s) && HandedOver(s)
    requires open.Some? ==> ValidOpen(open.value)
    ensures AfterOpen(s, open, now).timedOut == s.timedOut
  {
  }

  lemma RunStep(inputs: seq<Input>, i: Input)
    ensures var s := Run(inputs); Run(inputs + [i]) == if Enabled(s, i) then Updated(s, i) else s
  {
    assert (inputs + [i])[..|inputs + [i]| - 1] == inputs;
  }

  lemma RunStepAdvanced(inputs: seq<Input>, i: Input)
    ensures Advanced(Run(inputs), Run(inputs + [i]))
  {
    RunStep(inputs, i);
    var s := Run(inputs);
    hide Run, Inv, Updated, Advanced;
    if Enabled(s, i) {
      UpdateAdvanced(s, i);
    } else {
      UntouchedAdvanced(s, s);
    }
  }

  /** A client keeps what it holds from s to t, in both registries. */
  ghost predicate Keeps(s: State, t: State, c: int) {
    && c in s.refs && c in t.refs
    && KeepsHeld(s.datarefs, HeldDatarefs(s), t.datarefs, HeldDatarefs(t), c)
    && KeepsHeld(s.commands, HeldCommands(s), t.commands, HeldCommands(t), c)
  }

  lemma KeepsChain(s: State, t: State, u: State, c: int)
    requires Keeps(s, t, c) && Advanced(t, u) && c in u.refs
    ensures Keeps(s, u, c)
  {
    assert KeepsHeld(t.datarefs, HeldDatarefs(t), u.datarefs, HeldDatarefs(u), c);
    assert KeepsHeld(t.commands, HeldCommands(t), u.commands, HeldCommands(u), c);
  }

  lemma KeepsItself(s: State, c: int)
    requires Inv(s) && c in s.refs
    ensures Keeps(s, s, c)
  {
    UntouchedAdvanced(s, s);
  }

  /** A client that stays connected keeps every id it holds, and each id keeps naming the same thing. */
  lemma {:induction false} ConnectedKeepsIds(inputs: seq<Input>, more: seq<Input>, c: int)
    requires forall k :: 0 <= k <= |more| ==> c in Run(inputs + more[..k]).refs
    ensures Keeps(Run(inputs), Run(inputs + more), c)
    decreases |more|
  {
    hide Inv, Run, Keeps, Advanced;
    assert inputs + more[..0] == inputs;
    assert more[..|more|] == more;
    if more == [] {
      KeepsItself(Run(inputs), c);
    } else {
      var rest, i := more[..|more| - 1], more[|more| - 1];
      forall k | 0 <= k <= |rest|
        ensures c in Run(inputs + rest[..k]).refs
      {
        assert rest[..k] == more[..k];
      }
      ConnectedKeepsIds(inputs, rest, c);
      RunStepAdvanced(inputs + rest, i);
      assert inputs + rest + [i] == inputs + more;
      KeepsChain(Run(inputs), Run(inputs + rest), Run(inputs + more), c);
    }
  }

  ghost predicate KeepsLeak(s: State, t: State, r: Register, id: int) {
    && SameName(RegistryOf(s, r), RegistryOf(t, r), id)
    && Surplus(RegistryOf(t, r), HeldOf(t, r), id) >= Surplus(RegistryOf(s, r), HeldOf(s, r), id) > 0
  }

  lemma KeepsLeakItself(s: State, r: Register, id: int)
    requires Surplus(RegistryOf(s, r), HeldOf(s, r), id) > 0
    ensures KeepsLeak(s, s, r, id)
  {
  }

  lemma KeepsLeakChain(s: State, t: State, u: State, r: Register, id: int)
    requires KeepsLeak(s, t, r, id) && Advanced(t, u)
    ensures KeepsLeak(s, u, r, id)
  {
    assert Advances(RegistryOf(t, r), HeldOf(t, r), RegistryOf(u, r), HeldOf(u, r));
  }

  /** An id with a surplus, left behind by a duplicate subscription, is never released again. */
  lemma {:induction false} LeakIsForever(inputs: seq<Input>, more: seq<Input>, r: Register, id: int)
    requires var s := Run(inputs); Surplus(RegistryOf(s, r), HeldOf(s, r), id) > 0
    ensures KeepsLeak(Run(inputs), Run(inputs + more), r, id)
    decreases |more|
  {
    var s := Run(inputs);
    hide Run, Inv, KeepsLeak, Advanced, Surplus;
    if more == [] {
      KeepsLeakItself(s, r, id);
      assert inputs + more == inputs;
    } else {
      var rest, i := more[..|more| - 1], more[|more| - 1];
      LeakIsForever(inputs, rest, r, id);
      RunStepAdvanced(inputs + rest, i);
      assert inputs + rest + [i] == inputs + more;
      KeepsLeakChain(s, Run(inputs + rest), Run(inputs + more), r, id);
    }
  }

  // ---- sessions whose transmitter could not be created ----

  lemma OpenKeepsHalfOpen(s: State, open: Option<Open>, now: int, id: int)
    requires Inv(s) && HandedOver(s)
    requires open.Some? ==> ValidOpen(open.value)
    requires id in s.multicast
    ensures id in AfterOpen(s, open, now).multicast && AfterOpen(s, open, now).multicast[id] == s.multicast[id]
  {
    if open.Some? {
      OpenKeepsInv(s, open.value, now);
      var s' := Opened(s, open.value, now).0;
      if open.value.packageId !in s.packageIds {
        NewIdIsFresh(s, open.value);
      }
      hide Inv, NewId;
      assert id in s'.multicast && s'.multicast[id] == s.multicast[id];
      assert id !in Established(s');
    }
  }

  lemma UpdateKeepsMulticast(s: State, i: Input, id: int)
    requires Inv(s) && HandedOver(s) && Enabled(s, i)
    requires id in s.multicast
    ensures id in Updated(s, i).multicast && Updated(s, i).multicast[id] == s.multicast[id]
  {
    hide Inv, HandedOver, AfterOpen;
    OpenKeepsHalfOpen(s, i.open, i.now, id);
  }

  /**
    A session whose transmitter creation failed stays in the multicast controller in every later
    state, and no client of that package is ever established.
  */
  lemma {:induction false} HalfOpenIsForever(inputs: seq<Input>, more: seq<Input>, id: int)
    requires id in Run(inputs).multicast
    ensures id in Run(inputs + more).multicast
    ensures forall c :: c in Run(inputs + more).refs ==> c % TWO32 != id % TWO32
    decreases |more|
  {
    hide Inv, Updated, Enabled;
    if more == [] {
      assert inputs + more == inputs;
    } else {
      var rest, i := more[..|more| - 1], more[|more| - 1];
      HalfOpenIsForever(inputs, rest, id);
      var t := Run(inputs + rest);
      RunStep(inputs + rest, i);
      assert inputs + rest + [i] == inputs + more;
      if Enabled(t, i) {
        UpdateKeepsMulticast(t, i, id);
      }
    }
    HalfOpenBlocksPackage(Run(inputs + more), id);
  }

  lemma HalfOpenBlocksPackage(s: State, id: int)
    requires Inv(s) && id in s.multicast
    ensures forall c :: c in s.refs ==> c % TWO32 != id % TWO32
  {
    forall c | c in s.refs
      ensures c % TWO32 != id % TWO32
    {
      assert c in s.multicast.Keys + s.udp.Keys && id in s.multicast.Keys + s.udp.Keys;
    }
  }

  /** The update at which a half-open session came to be. */
  ghost predicate StuckAt(inputs: seq<Input>, k: nat, id: int)
    requires k < |inputs|
  {
    var s, open := Run(inputs[..k]), inputs[k].open;
    Enabled(s, inputs[k]) && open.Some? && GetsStuck(s, open.value) && NewId(open.value) == id
  }

  lemma UpdateStuck(s: State, i: Input, id: int)
    requires Inv(s) && HandedOver(s) && Enabled(s, i)
    ensures id in Updated(s, i).multicast <==>
      id in s.multicast || (i.open.Some? && GetsStuck(s, i.open.value) && NewId(i.open.value) == id)
  {
    hide Inv, HandedOver, GetsStuck, NewId, NewConnection;
    if i.open.Some? {
      OpenEstablishesIff(s, i.open.value, i.now);
    }
  }

  lemma OneMoreStuck(inputs: seq<Input>, id: int)
    requires inputs != []
    ensures var n := |inputs| - 1;
      id in Run(inputs).multicast <==> id in Run(inputs[..n]).multicast || StuckAt(inputs, n, id)
  {
    hide Run, Inv, Updated, Enabled, HandedOver, GetsStuck, NewId;
    var n := |inputs| - 1;
    assert inputs[..n] + [inputs[n]] == inputs;
    RunStep(inputs[..n], inputs[n]);
    if Enabled(Run(inputs[..n]), inputs[n]) {
      UpdateStuck(Run(inputs[..n]), inputs[n], id);
    }
  }

  lemma NobodyStuckAtStart(id: int)
    ensures id !in Run([]).multicast
  {
  }

  /** In every run, the multicast controller keeps a session exactly if only its receiver could be opened. */
  lemma {:induction false} HalfOpenIffStuck(inputs: seq<Input>, id: int)
    ensures id in Run(inputs).multicast <==> exists k :: 0 <= k < |inputs| && StuckAt(inputs, k, id)
  {
    hide Run, Enabled, GetsStuck, NewId, Inv, HandedOver, StuckAt;
    if inputs == [] {
      NobodyStuckAtStart(id);
    } else {
      var n := |inputs| - 1;
      HalfOpenIffStuck(inputs[..n], id);
      OneMoreStuck(inputs, id);
      forall k | 0 <= k < n
        ensures StuckAt(inputs[..n], k, id) <==> StuckAt(inputs, k, id)
      {
        EarlierStuck(inputs, k, id);
      }
    }
  }

  lemma EarlierStuck(inputs: seq<Input>, k: nat, id: int)
    requires k < |inputs| - 1
    ensures StuckAt(inputs[..|inputs| - 1], k, id) <==> StuckAt(inputs, k, id)
  {
    assert inputs[..|inputs| - 1][..k] == inputs[..k];
  }

  /** The counterexample: one open request for package 7 whose transmitter fails. */
  const HALF_OPEN := Input(Some(Open(0, 7, 1, true, false)), 0, [])

  lemma OnlyReceiverOpens()
    ensures GetsStuck(START, HALF_OPEN.open.value) && !OpensNew(START, HALF_OPEN.open.value)
  {
  }

  lemma RunsFromStart()
    ensures Run([]) == START
  {
  }

  lemma HalfOpenHappens()
    ensures NewId(HALF_OPEN.open.value) in Run([HALF_OPEN]).multicast
  {
    hide Run, Inv, HandedOver, AfterOpen, GetsStuck, OpensNew, NewId;
    var open := HALF_OPEN.open.value;
    var s := Run([]);
    RunsFromStart();
    assert [] + [HALF_OPEN] == [HALF_OPEN];
    RunStep([], HALF_OPEN);
    OnlyReceiverOpens();
    OpenEstablishesIff(s, open, 0);
    OpenKeepsTimedOut(s, HALF_OPEN.open, 0);
    assert MulticastRound(s, HALF_OPEN.open, 0).refs == map[];
    UpdateStuck(s, HALF_OPEN, NewId(open));
  }

  // ---- the invariant in the words of the design ----

  /** In every reachable state the four maps agree and the timed-out list names live clients once. */
  lemma ReachableMapsAgree(inputs: seq<Input>)
    ensures var s := Run(inputs);
      && s.multicast.Keys !! s.udp.Keys
      && s.packageIds.Values == s.multicast.Keys + s.udp.Keys
      && s.refs.Keys == s.udp.Keys
      && NoDuplicates(s.timedOut)
      && (forall id :: id in s.timedOut ==> id in s.udp && id in s.refs)
      && (forall id :: id in s.multicast ==> s.multicast[id].link != BothConnected)
  {
    hide Run;
    var s := Run(inputs);
    forall id | id in s.multicast.Keys + s.udp.Keys
      ensures id in s.packageIds.Values
    {
      assert s.packageIds[id % TWO32] == id;
    }
    forall id | id in s.packageIds.Values
      ensures id in s.multicast.Keys + s.udp.Keys
    {
      if id !in s.multicast.Keys + s.udp.Keys {
        assert forall p :: p in s.packageIds ==> s.packageIds[p] != id;
        assert false;
      }
    }
  }

  /** In every reachable state each held id is registered and counted for each of its holders. */
  lemma ReachableHeldIsCounted(inputs: seq<Input>, c: int, id: int)
    requires c in Run(inputs).refs
    ensures var s := Run(inputs);
      && (id in s.refs[c].datarefs ==>
        id in s.datarefs.byId && s.datarefs.byId[id].count >= |Holders(HeldDatarefs(s), id)| >= 1)
      && (id in s.refs[c].cmdrefs ==>
        id in s.commands.byId && s.commands.byId[id].count >= |Holders(HeldCommands(s), id)| >= 1)
  {
    var s := Run(inputs);
    if id in s.refs[c].datarefs {
      HeldIsRegistered(s.datarefs, HeldDatarefs(s), c, id);
      assert c in Holders(HeldDatarefs(s), id);
      assert Surplus(s.datarefs, HeldDatarefs(s), id) >= 0;
    }
    if id in s.refs[c].cmdrefs {
      HeldIsRegistered(s.commands, HeldCommands(s), c, id);
      assert c in Holders(HeldCommands(s), id);
      assert Surplus(s.commands, HeldCommands(s), id) >= 0;
    }
  }
}
