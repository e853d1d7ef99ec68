/** What the plugin confirms to a client over a run, and that it stays true while the client is connected. */
module Confirmations {
  import opened Common
  import Registry
  import opened RefCounts
  import opened Sessions
  import opened SessionRuns

  /** An id confirmed together with the name it stands for. */
  datatype Naming = Naming(id: int, name: string)

  ghost predicate AllHeld(s: State, c: int, ids: seq<int>, q: Register) {
    c in s.refs && forall i :: 0 <= i < |ids| ==> ids[i] in HeldOf(s, q)[c] && ids[i] in RegistryOf(s, q).byId
  }

  /** Every id confirmed is held by the client and registered, so a name can be confirmed with it. */
  lemma {:induction false} ConfirmedIdsAreHeld(s: State, c: int, items: seq<Item>, q: Register)
    requires Inv(s) && c in s.refs
    ensures AllHeld(WithItems(s, c, items, q), c, SubscribedIds(s, c, items, q), q)
  {
    hide Inv, AllHeld, WithItem;
    if items == [] {
      NothingConfirmed(WithItems(s, c, [], q), c, q);
    } else {
      var before := items[..|items| - 1];
      ConfirmedIdsAreHeld(s, c, before, q);
      WithLastItem(s, c, items, q);
      hide WithItems;
      OneMoreConfirmed(WithItems(s, c, before, q), c, items[|items| - 1], SubscribedIds(s, c, before, q), q);
    }
  }

  lemma NothingConfirmed(s: State, c: int, q: Register)
    requires c in s.refs
    ensures AllHeld(s, c, [], q)
  {
  }

  lemma OneMoreConfirmed(t: State, c: int, item: Item, ids: seq<int>, q: Register)
    requires Inv(t) && c in t.refs && AllHeld(t, c, ids, q)
    ensures var r := Registry.Subscribed(RegistryOf(t, q), item.name, item.creates).1;
      AllHeld(WithItem(t, c, item, q), c, ids + if r.Some? then [r.value] else [], q)
  {
    Registry.SubscribeNamesId(RegistryOf(t, q), item.name, item.creates);
  }

  ghost function NamingsOf(s: State, ids: seq<int>, q: Register): set<Naming> {
    set i | 0 <= i < |ids| && ids[i] in RegistryOf(s, q).byId :: Naming(ids[i], RegistryOf(s, q).byId[ids[i]].name)
  }

  /** What the answer to a subscription of these items confirms. */
  ghost function Answer(s: State, c: int, items: seq<Item>, q: Register): set<Naming>
    requires Inv(s) && c in s.refs
  {
    NamingsOf(WithItems(s, c, items, q), SubscribedIds(s, c, items, q), q)
  }

  /** The items of registry q that a poll's request subscribes. */
  function ItemsOf(request: Option<Request>, q: Register): seq<Item> {
    match request
    case Some(SubscribeDatarefs(items)) => if q == OfDatarefs then items else []
    case Some(SubscribeCommands(items)) => if q == OfCommands then items else []
    case _ => []
  }

  /** What the answer to one poll confirms. */
  ghost function ConfirmedInPoll(s: State, p: Poll, q: Register): set<Naming>
    requires Inv(s) && p.clientId in s.refs && p.clientId !in s.timedOut
  {
    HeardKeepsInv(s, p);
    Answer(Heard(s, p).0, p.clientId, ItemsOf(Heard(s, p).1, q), q)
  }

  /** What client c is confirmed in the polls of one update. */
  ghost function ConfirmedInPolls(s: State, polls: seq<Poll>, c: int, q: Register): set<Naming>
    requires Inv(s) && s.timedOut == [] && Visits(polls, s.refs.Keys)
  {
    hide Inv, Served, Visits, Polled;
    if polls == [] then {}
    else
      PolledGrows(polls, s.refs.Keys);
      var n := |polls| - 1;
      ConfirmedInPolls(s, polls[..n], c, q)
      + if polls[n].clientId == c then ConfirmedInPoll(ServedAll(s, polls[..n]), polls[n], q) else {}
  }

  /** What client c is confirmed in a run, from the update on that makes it `from` updates long. */
  ghost function ConfirmedInRun(inputs: seq<Input>, from: nat, c: int, q: Register): set<Naming> {
    if inputs == [] || |inputs| < from then {}
    else
      var n := |inputs| - 1;
      var s, i := Run(inputs[..n]), inputs[n];
      ConfirmedInRun(inputs[..n], from, c, q)
      + if Enabled(s, i) then ConfirmedInPolls(MulticastRound(s, i.open, i.now), i.polls, c, q) else {}
  }

  // ---- what is confirmed holds ----

  /** Client c holds the id, and the id has the name. */
  ghost predicate Issued(s: State, c: int, n: Naming, q: Register) {
    && c in s.refs && n.id in HeldOf(s, q)[c]
    && n.id in RegistryOf(s, q).byId && RegistryOf(s, q).byId[n.id].name == n.name
  }

  /** What is confirmed stays confirmed over every step that keeps the client connected. */
  lemma IssuedStays(s: State, t: State, c: int, n: Naming, q: Register)
    requires Issued(s, c, n, q) && Advanced(s, t) && c in t.refs
    ensures Issued(t, c, n, q)
  {
    assert Advances(RegistryOf(s, q), HeldOf(s, q), RegistryOf(t, q), HeldOf(t, q));
    assert KeepsHeld(RegistryOf(s, q), HeldOf(s, q), RegistryOf(t, q), HeldOf(t, q), c);
    assert SameName(RegistryOf(s, q), RegistryOf(t, q), n.id);
  }

  lemma AnswerIssues(s: State, c: int, items: seq<Item>, q: Register, n: Naming)
    requires Inv(s) && c in s.refs && n in Answer(s, c, items, q)
    ensures Issued(WithItems(s, c, items, q), c, n, q)
  {
    ConfirmedIdsAreHeld(s, c, items, q);
    hide Inv, WithItems, SubscribedIds;
  }

  lemma PollIssues(s: State, p: Poll, q: Register, n: Naming)
    requires Inv(s) && p.clientId in s.refs && p.clientId !in s.timedOut
    requires n in ConfirmedInPoll(s, p, q)
    ensures Issued(Served(s, p), p.clientId, n, q)
  {
    hide Inv, Heard, WithDatarefs, WithCommands, Answer, Issued;
    HeardKeepsInv(s, p);
    var (t, request) := Heard(s, p);
    AnswerIssues(t, p.clientId, ItemsOf(request, q), q, n);
    if ItemsOf(request, q) == [] {
      NothingAnswered(t, p.clientId, q);
    }
  }

  lemma NothingAnswered(s: State, c: int, q: Register)
    requires Inv(s) && c in s.refs
    ensures Answer(s, c, [], q) == {}
  {
    hide Inv;
  }

  lemma {:induction false} PollsIssue(s: State, polls: seq<Poll>, c: int, q: Register, n: Naming)
    requires Inv(s) && s.timedOut == [] && Visits(polls, s.refs.Keys) && c in s.refs
    requires n in ConfirmedInPolls(s, polls, c, q)
    ensures Issued(ServedAll(s, polls), c, n, q)
  {
    hide Inv, Served, Visits, Polled, Issued, Advanced, ConfirmedInPoll;
    PolledGrows(polls, s.refs.Keys);
    var last := |polls| - 1;
    var t := ServedAll(s, polls[..last]);
    if n in ConfirmedInPolls(s, polls[..last], c, q) {
      PollsIssue(s, polls[..last], c, q, n);
      ServedAdvanced(t, polls[last]);
      IssuedStays(t, ServedAll(s, polls), c, n, q);
    } else {
      PollIssues(t, polls[last], q, n);
    }
  }

  lemma UpdateIssues(s: State, i: Input, c: int, q: Register, n: Naming)
    requires Inv(s) && HandedOver(s) && Enabled(s, i) && c in Updated(s, i).refs
    requires n in ConfirmedInPolls(MulticastRound(s, i.open, i.now), i.polls, c, q)
    ensures Issued(Updated(s, i), c, n, q)
  {
    hide Inv, HandedOver, Issued, ConfirmedInPolls, MulticastRound, Polled;
    PollsIssue(MulticastRound(s, i.open, i.now), i.polls, c, q, n);
  }

  ghost predicate ConnectedAfter(inputs: seq<Input>, k: nat, c: int)
    requires k <= |inputs|
  {
    c in Run(inputs[..k]).refs
  }

  /** The client is connected after every update that makes the run at least `from` updates long. */
  ghost predicate ConnectedSince(inputs: seq<Input>, from: nat, c: int) {
    forall k :: from <= k <= |inputs| ==> ConnectedAfter(inputs, k, c)
  }

  lemma ConnectedAtEnd(inputs: seq<Input>, from: nat, c: int)
    requires ConnectedSince(inputs, from, c) && from <= |inputs|
    ensures c in Run(inputs).refs
  {
    hide Run;
    assert ConnectedAfter(inputs, |inputs|, c);
    assert inputs[..|inputs|] == inputs;
  }

  lemma ConnectedBefore(inputs: seq<Input>, from: nat, c: int)
    requires ConnectedSince(inputs, from, c) && inputs != []
    ensures ConnectedSince(inputs[..|inputs| - 1], from, c)
  {
    hide Run, ConnectedAfter;
    var before := inputs[..|inputs| - 1];
    forall k | from <= k <= |before|
      ensures ConnectedAfter(before, k, c)
    {
      EarlierConnected(inputs, k, c);
    }
  }

  lemma EarlierConnected(inputs: seq<Input>, k: nat, c: int)
    requires k < |inputs| && ConnectedAfter(inputs, k, c)
    ensures ConnectedAfter(inputs[..|inputs| - 1], k, c)
  {
    hide Run;
    assert inputs[..|inputs| - 1][..k] == inputs[..k];
  }

  /** Whatever the run has confirmed to a client that stayed connected holds at its end. */
  lemma {:induction false} RunIssues(inputs: seq<Input>, from: nat, c: int, q: Register, n: Naming)
    requires ConnectedSince(inputs, from, c) && n in ConfirmedInRun(inputs, from, c, q)
    ensures Issued(Run(inputs), c, n, q)
  {
    hide Run, Inv, HandedOver, Enabled, Updated, Issued, Advanced, ConnectedSince, ConfirmedInPolls;
    ConnectedAtEnd(inputs, from, c);
    ConnectedBefore(inputs, from, c);
    var last := |inputs| - 1;
    var s, i := Run(inputs[..last]), inputs[last];
    assert inputs[..last] + [i] == inputs;
    RunStep(inputs[..last], i);
    if n in ConfirmedInRun(inputs[..last], from, c, q) {
      RunIssues(inputs[..last], from, c, q, n);
      RunStepAdvanced(inputs[..last], i);
      IssuedStays(s, Run(inputs), c, n, q);
    } else {
      UpdateIssues(s, i, c, q, n);
    }
  }

  // ---- nothing else is confirmed ----

  /** A poll by which client c asks for nothing of registry q. */
  predicate AsksNothing(p: Poll, c: int, q: Register) {
    p.clientId == c && p.outcome.Datagram? ==> ItemsOf(p.outcome.request, q) == []
  }

  lemma {:induction false} PollsConfirmNothing(s: State, polls: seq<Poll>, c: int, q: Register)
    requires Inv(s) && s.timedOut == [] && Visits(polls, s.refs.Keys)
    requires forall i :: 0 <= i < |polls| ==> AsksNothing(polls[i], c, q)
    ensures ConfirmedInPolls(s, polls, c, q) == {}
  {
    hide Inv, Served, Visits, Polled;
    if polls != [] {
      PolledGrows(polls, s.refs.Keys);
      var n := |polls| - 1;
      PollsConfirmNothing(s, polls[..n], c, q);
      if polls[n].clientId == c {
        PollConfirmsNothing(ServedAll(s, polls[..n]), polls[n], q);
      }
    }
  }

  lemma PollConfirmsNothing(s: State, p: Poll, q: Register)
    requires Inv(s) && p.clientId in s.refs && p.clientId !in s.timedOut && AsksNothing(p, p.clientId, q)
    ensures ConfirmedInPoll(s, p, q) == {}
  {
    HeardKeepsInv(s, p);
    assert ItemsOf(Heard(s, p).1, q) == [];
    NothingAnswered(Heard(s, p).0, p.clientId, q);
  }

  /** A client that has asked for nothing, such as one that has just been given its id, is confirmed nothing. */
  lemma {:induction false} UnaskedIsUnconfirmed(inputs: seq<Input>, from: nat, c: int, q: Register)
    requires forall k, i :: 0 <= k < |inputs| && 0 <= i < |inputs[k].polls| ==> AsksNothing(inputs[k].polls[i], c, q)
    ensures ConfirmedInRun(inputs, from, c, q) == {}
  {
    hide Inv, HandedOver, Run, MulticastRound, AsksNothing;
    if inputs != [] {
      var n := |inputs| - 1;
      UnaskedIsUnconfirmed(inputs[..n], from, c, q);
      var s, i := Run(inputs[..n]), inputs[n];
      if Enabled(s, i) {
        PollsConfirmNothing(MulticastRound(s, i.open, i.now), i.polls, c, q);
      }
    }
  }

  // ---- at a poll of a later update ----

  /** The server just before poll k of an update. */
  ghost function BeforePoll(s: State, i: Input, k: nat): (t: State)
    requires Inv(s) && HandedOver(s) && Enabled(s, i) && k < |i.polls|
    ensures Inv(t)
  {
    ServedAll(MulticastRound(s, i.open, i.now), i.polls[..k])
  }

  lemma BeforePollAdvanced(s: State, i: Input, k: nat)
    requires Inv(s) && HandedOver(s) && Enabled(s, i) && k < |i.polls|
    ensures Advanced(s, BeforePoll(s, i, k)) && i.polls[k].clientId in BeforePoll(s, i, k).refs
  {
    hide Inv, HandedOver, Advanced, MulticastRound, ServedAll;
    RoundAdvanced(s, i);
    var m := MulticastRound(s, i.open, i.now);
    ServedAllAdvanced(m, i.polls[..k]);
    AdvancedChain(s, m, BeforePoll(s, i, k));
  }

  /** The names of the ids a client holds. */
  ghost function NamesHeld(s: State, c: int, q: Register): map<int, string>
    requires c in s.refs
  {
    map id | id in HeldOf(s, q)[c] && id in RegistryOf(s, q).byId :: RegistryOf(s, q).byId[id].name
  }

  ghost predicate Injective<K, V>(m: map<K, V>) {
    forall k, l :: k in m && l in m && m[k] == m[l] ==> k == l
  }

  lemma NamesHeldInjective(s: State, c: int, q: Register)
    requires Inv(s) && c in s.refs
    ensures Injective(NamesHeld(s, c, q))
  {
    var reg, names := RegistryOf(s, q), NamesHeld(s, c, q);
    assert Registry.WellFormed(reg);
    hide Inv;
    forall k, l | k in names && l in names && names[k] == names[l]
      ensures k == l
    {
      assert reg.idByName[reg.byId[k].name] == k;
      assert reg.idByName[reg.byId[l].name] == l;
    }
  }

  /** What a run has confirmed to a client that stayed connected is true when the server polls it next. */
  lemma ConfirmedIsNamed(inputs: seq<Input>, from: nat, i: Input, k: nat, q: Register, n: Naming)
    requires Enabled(Run(inputs), i) && k < |i.polls|
    requires from <= |inputs| && ConnectedSince(inputs, from, i.polls[k].clientId)
    requires n in ConfirmedInRun(inputs, from, i.polls[k].clientId, q)
    ensures var u, c := BeforePoll(Run(inputs), i, k), i.polls[k].clientId;
      c in u.refs && n.id in NamesHeld(u, c, q) && NamesHeld(u, c, q)[n.id] == n.name
  {
    hide Run, Inv, HandedOver, Enabled, Advanced, BeforePoll, ConnectedSince, ConfirmedInRun;
    var s, c := Run(inputs), i.polls[k].clientId;
    BeforePollAdvanced(s, i, k);
    RunIssues(inputs, from, c, q, n);
    IssuedStays(s, BeforePoll(s, i, k), c, n, q);
  }

  /** The server's registry has the ids a client holds under the names it holds them by. */
  ghost predicate RegisteredAs(reg: Registry.State, names: map<int, string>) {
    forall id :: id in names ==> id in reg.byId && reg.byId[id].name == names[id]
  }

  ghost predicate AllNamed(sent: set<Naming>, names: map<int, string>) {
    forall n :: n in sent ==> n.id in names && names[n.id] == n.name
  }

  /** All that a run has confirmed to a client that stayed connected is registered when the server polls it next. */
  lemma ConfirmedIsRegistered(inputs: seq<Input>, from: nat, i: Input, k: nat, q: Register)
    requires Enabled(Run(inputs), i) && k < |i.polls|
    requires from <= |inputs| && ConnectedSince(inputs, from, i.polls[k].clientId)
    ensures var u, c := BeforePoll(Run(inputs), i, k), i.polls[k].clientId;
      && c in u.refs && Injective(NamesHeld(u, c, q)) && RegisteredAs(RegistryOf(u, q), NamesHeld(u, c, q))
      && AllNamed(ConfirmedInRun(inputs, from, c, q), NamesHeld(u, c, q))
  {
    hide Run, Inv, HandedOver, Enabled, Advanced, BeforePoll, ConnectedSince, ConfirmedInRun, Injective;
    var u, c := BeforePoll(Run(inputs), i, k), i.polls[k].clientId;
    BeforePollAdvanced(Run(inputs), i, k);
    NamesHeldInjective(u, c, q);
    forall n | n in ConfirmedInRun(inputs, from, c, q)
      ensures n.id in NamesHeld(u, c, q) && NamesHeld(u, c, q)[n.id] == n.name
    {
      ConfirmedIsNamed(inputs, from, i, k, q, n);
    }
  }
}
