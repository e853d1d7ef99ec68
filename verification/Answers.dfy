/** What a client gets for its subscriptions, in the terms of the datagram it has sent. */
module Answers {
  import opened Common
  import Registry
  import opened RefCounts
  import opened Sessions
  import opened Confirmations

  /** The items of registry q in the datagram that a poll finds, if the client's socket is open. */
  function Asked(s: State, p: Poll, q: Register): seq<Item> {
    if p.clientId in s.udp && s.udp[p.clientId].rxOpen && p.outcome.Datagram? && p.outcome.request.Some? then
      match p.outcome.request.value
      case SubscribeDatarefs(items) => if q == OfDatarefs then items else []
      case SubscribeCommands(items) => if q == OfCommands then items else []
      case Other => []
    else []
  }

  ghost predicate Names(items: seq<Item>, name: string) {
    exists i :: 0 <= i < |items| && items[i].name == name
  }

  /** X-Plane knows the name, as some item that asks for it finds. */
  ghost predicate Creates(items: seq<Item>, name: string) {
    exists i :: 0 <= i < |items| && items[i].name == name && items[i].creates
  }

  ghost predicate HasId(reg: Registry.State, name: string, id: int) {
    name in reg.idByName && reg.idByName[name] == id
  }

  /** The registry knows what it knew, under the same ids, and the names that could be created. */
  ghost predicate Registers(before: Registry.State, after: Registry.State, items: seq<Item>) {
    && (forall name :: name in after.idByName <==> name in before.idByName || Creates(items, name))
    && (forall name :: name in before.idByName ==> HasId(after, name, before.idByName[name]))
  }

  /** The client holds what it held, and the ids of the names that it has asked for and that are known. */
  ghost predicate Gains(before: set<int>, after: set<int>, reg: Registry.State, items: seq<Item>) {
    forall id :: id in after <==> id in before || exists name :: Names(items, name) && HasId(reg, name, id)
  }

  lemma OneMoreName(items: seq<Item>, item: Item, name: string)
    ensures Names(items + [item], name) <==> Names(items, name) || item.name == name
    ensures Creates(items + [item], name) <==> Creates(items, name) || (item.name == name && item.creates)
  {
    var all := items + [item];
    if Names(items, name) {
      var i :| 0 <= i < |items| && items[i].name == name;
      assert all[i].name == name;
    }
    if Creates(items, name) {
      var i :| 0 <= i < |items| && items[i].name == name && items[i].creates;
      assert all[i].name == name && all[i].creates;
    }
    assert all[|items|] == item;
  }

  /** One subscription, as far as names and their ids go. */
  lemma SubscribedNames(reg: Registry.State, name: string, creates: bool)
    requires Registry.WellFormed(reg)
    ensures var (after, r) := Registry.Subscribed(reg, name, creates);
      && (forall x :: x in after.idByName <==> x in reg.idByName || (x == name && creates))
      && (forall x :: x in reg.idByName ==> HasId(after, x, reg.idByName[x]))
      && (forall id :: r == Some(id) <==> HasId(after, name, id))
  {
  }

  lemma RegistryIsWellFormed(s: State, q: Register)
    requires Inv(s)
    ensures Registry.WellFormed(RegistryOf(s, q))
  {
  }

  /** What WithItem does to its own registry and to the client's ids. */
  lemma ItemSubscribes(s: State, c: int, item: Item, q: Register)
    requires Inv(s) && c in s.refs
    ensures var t := WithItem(s, c, item, q);
      var (after, r) := Registry.Subscribed(RegistryOf(s, q), item.name, item.creates);
      && RegistryOf(t, q) == after
      && (forall id :: id in HeldOf(t, q)[c] <==> id in HeldOf(s, q)[c] || r == Some(id))
  {
    hide Inv, Registry.Subscribed, Registry.WellFormed;
    RegistryIsWellFormed(s, q);
  }

  lemma ItemRegisters(s: State, c: int, item: Item, q: Register)
    requires Inv(s) && c in s.refs
    ensures var t := WithItem(s, c, item, q);
      var before, after := RegistryOf(s, q), RegistryOf(t, q);
      && (forall name :: name in after.idByName <==> name in before.idByName || (name == item.name && item.creates))
      && (forall name :: name in before.idByName ==> HasId(after, name, before.idByName[name]))
      && (forall id :: id in HeldOf(t, q)[c] <==> id in HeldOf(s, q)[c] || HasId(after, item.name, id))
  {
    hide Inv, WithItem, HeldOf, RegistryOf, Registry.Subscribed, Registry.WellFormed, HasId;
    RegistryIsWellFormed(s, q);
    SubscribedNames(RegistryOf(s, q), item.name, item.creates);
    ItemSubscribes(s, c, item, q);
  }

  lemma {:induction false} ItemsRegister(s: State, c: int, items: seq<Item>, q: Register)
    requires Inv(s) && c in s.refs
    ensures var t := WithItems(s, c, items, q);
      && Registers(RegistryOf(s, q), RegistryOf(t, q), items)
      && Gains(HeldOf(s, q)[c], HeldOf(t, q)[c], RegistryOf(t, q), items)
  {
    hide Inv, WithItem;
    if items == [] {
      assert WithItems(s, c, [], q) == s;
    } else {
      var n := |items| - 1;
      var before, item := items[..n], items[n];
      var t := WithItems(s, c, before, q);
      ItemsRegister(s, c, before, q);
      WithLastItem(s, c, items, q);
      ItemRegisters(t, c, item, q);
      assert items == before + [item];
      hide WithItems;
      var u := WithItem(t, c, item, q);
      ThenOne(RegistryOf(s, q), RegistryOf(t, q), RegistryOf(u, q), HeldOf(s, q)[c], HeldOf(t, q)[c], HeldOf(u, q)[c], before, item);
    }
  }

  lemma ThenOne(r: Registry.State, r1: Registry.State, r2: Registry.State, h: set<int>, h1: set<int>, h2: set<int>,
                items: seq<Item>, item: Item)
    requires Registers(r, r1, items) && Gains(h, h1, r1, items)
    requires forall name :: name in r2.idByName <==> name in r1.idByName || (name == item.name && item.creates)
    requires forall name :: name in r1.idByName ==> HasId(r2, name, r1.idByName[name])
    requires forall id :: id in h2 <==> id in h1 || HasId(r2, item.name, id)
    ensures Registers(r, r2, items + [item]) && Gains(h, h2, r2, items + [item])
  {
    forall name
      ensures Names(items + [item], name) <==> Names(items, name) || item.name == name
      ensures Creates(items + [item], name) <==> Creates(items, name) || (item.name == name && item.creates)
    {
      OneMoreName(items, item, name);
    }
    hide Names, Creates;
    GainsOneMore(r1, r2, h, h1, h2, items, item);
  }

  lemma GainsOneMore(r1: Registry.State, r2: Registry.State, h: set<int>, h1: set<int>, h2: set<int>,
                     items: seq<Item>, item: Item)
    requires Gains(h, h1, r1, items)
    requires forall name :: Names(items + [item], name) <==> Names(items, name) || item.name == name
    requires forall name :: name in r2.idByName <==> name in r1.idByName || (name == item.name && item.creates)
    requires forall name :: name in r1.idByName ==> HasId(r2, name, r1.idByName[name])
    requires forall id :: id in h2 <==> id in h1 || HasId(r2, item.name, id)
    ensures Gains(h, h2, r2, items + [item])
  {
    hide Names;
    forall id: int
      ensures id in h2 <==> id in h || exists name :: Names(items + [item], name) && HasId(r2, name, id)
    {
      if name :| Names(items, name) && HasId(r1, name, id) {
        assert HasId(r2, name, id) && Names(items + [item], name);
      }
      if name :| Names(items + [item], name) && HasId(r2, name, id) {
        if name != item.name {
          assert Names(items, name) && HasId(r1, name, id);
        }
      }
      assert Names(items + [item], item.name);
    }
  }

  /** Subscribing in registry q leaves other clients and the other registry alone. */
  lemma {:induction false} OthersUntouched(s: State, c: int, items: seq<Item>, q: Register, r: Register, d: int)
    requires Inv(s) && c in s.refs && d in s.refs && (d != c || r != q)
    ensures var t := WithItems(s, c, items, q);
      && d in t.refs && HeldOf(t, r)[d] == HeldOf(s, r)[d]
      && (r != q ==> RegistryOf(t, r) == RegistryOf(s, r))
  {
    hide Inv, WithItem;
    if items == [] {
      assert WithItems(s, c, [], q) == s;
    } else {
      var n := |items| - 1;
      OthersUntouched(s, c, items[..n], q, r, d);
      WithLastItem(s, c, items, q);
      var t := WithItems(s, c, items[..n], q);
      hide WithItems;
      OtherUntouched(t, c, items[n], q, r, d);
    }
  }

  lemma OtherUntouched(s: State, c: int, item: Item, q: Register, r: Register, d: int)
    requires Inv(s) && c in s.refs && d in s.refs && (d != c || r != q)
    ensures var t := WithItem(s, c, item, q);
      && d in t.refs && HeldOf(t, r)[d] == HeldOf(s, r)[d]
      && (r != q ==> RegistryOf(t, r) == RegistryOf(s, r))
  {
    hide Inv, Registry.Subscribed, Registry.WellFormed;
    RegistryIsWellFormed(s, q);
  }

  /** The ids answered are those of the names asked for that the registry knows afterwards. */
  lemma {:induction false} AnsweredAreNamed(s: State, c: int, items: seq<Item>, q: Register)
    requires Inv(s) && c in s.refs
    ensures Gains({}, IdSet(SubscribedIds(s, c, items, q)), RegistryOf(WithItems(s, c, items, q), q), items)
  {
    if items == [] {
      NoneAnswered(s, c, q);
    } else {
      AnsweredAreNamed(s, c, items[..|items| - 1], q);
      hide *;
      OneMoreAnswered(s, c, items, q);
    }
  }

  lemma OneMoreAnswered(s: State, c: int, items: seq<Item>, q: Register)
    requires Inv(s) && c in s.refs && items != []
    requires var before := items[..|items| - 1];
      Gains({}, IdSet(SubscribedIds(s, c, before, q)), RegistryOf(WithItems(s, c, before, q), q), before)
    ensures Gains({}, IdSet(SubscribedIds(s, c, items, q)), RegistryOf(WithItems(s, c, items, q), q), items)
  {
    hide Inv, WithItem, WithItems, SubscribedIds, IdSet, Gains, Registers, HasId;
    var n := |items| - 1;
    var before, item := items[..n], items[n];
    var t := WithItems(s, c, before, q);
    ItemsRegister(s, c, before, q);
    WithLastItem(s, c, items, q);
    ItemRegisters(t, c, item, q);
    OneMoreId(s, c, items, q);
    assert items == before + [item];
    ThenOne(RegistryOf(s, q), RegistryOf(t, q), RegistryOf(WithItem(t, c, item, q), q),
            {}, IdSet(SubscribedIds(s, c, before, q)), IdSet(SubscribedIds(s, c, items, q)), before, item);
  }

  lemma NoneAnswered(s: State, c: int, q: Register)
    requires Inv(s) && c in s.refs
    ensures Gains({}, IdSet(SubscribedIds(s, c, [], q)), RegistryOf(WithItems(s, c, [], q), q), [])
  {
    hide Inv;
  }

  lemma OneMoreId(s: State, c: int, items: seq<Item>, q: Register)
    requires Inv(s) && c in s.refs && items != []
    ensures var n := |items| - 1;
      var u := WithItem(WithItems(s, c, items[..n], q), c, items[n], q);
      forall id :: id in IdSet(SubscribedIds(s, c, items, q)) <==>
        id in IdSet(SubscribedIds(s, c, items[..n], q)) || HasId(RegistryOf(u, q), items[n].name, id)
  {
    var n := |items| - 1;
    var t := WithItems(s, c, items[..n], q);
    NamedAfter(t, c, items[n], q);
    hide Inv, WithItem, WithItems, Registry.Subscribed;
  }

  lemma NamedAfter(t: State, c: int, item: Item, q: Register)
    requires Inv(t) && c in t.refs
    ensures var r := Registry.Subscribed(RegistryOf(t, q), item.name, item.creates).1;
      forall id :: r == Some(id) <==> HasId(RegistryOf(WithItem(t, c, item, q), q), item.name, id)
  {
    hide Inv, WithItem, HeldOf, RegistryOf, Registry.Subscribed, Registry.WellFormed, HasId;
    RegistryIsWellFormed(t, q);
    SubscribedNames(RegistryOf(t, q), item.name, item.creates);
    ItemSubscribes(t, c, item, q);
  }

  lemma AnswerIsNamed(s: State, c: int, items: seq<Item>, q: Register, n: Naming)
    requires Inv(s) && c in s.refs
    ensures n in Answer(s, c, items, q) <==> Names(items, n.name) && HasId(RegistryOf(WithItems(s, c, items, q), q), n.name, n.id)
  {
    hide Inv, WithItems, SubscribedIds, Gains, Names, Registry.WellFormed;
    var t, ids := WithItems(s, c, items, q), SubscribedIds(s, c, items, q);
    AnsweredAreNamed(s, c, items, q);
    RegistryIsWellFormed(t, q);
    NamingsAre(RegistryOf(t, q), ids, items, n);
    assert n in NamingsOf(t, ids, q) <==>
      exists i :: 0 <= i < |ids| && ids[i] in RegistryOf(t, q).byId && n == Naming(ids[i], RegistryOf(t, q).byId[ids[i]].name);
  }

  lemma NamingsAre(reg: Registry.State, ids: seq<int>, items: seq<Item>, n: Naming)
    requires Registry.WellFormed(reg) && Gains({}, IdSet(ids), reg, items)
    ensures (exists i :: 0 <= i < |ids| && ids[i] in reg.byId && n == Naming(ids[i], reg.byId[ids[i]].name)) <==>
      Names(items, n.name) && HasId(reg, n.name, n.id)
  {
    hide Names;
    if Names(items, n.name) && HasId(reg, n.name, n.id) {
      assert n.id in IdSet(ids);
      var i :| 0 <= i < |ids| && ids[i] == n.id;
      assert n == Naming(ids[i], reg.byId[ids[i]].name);
    }
    if i :| 0 <= i < |ids| && ids[i] in reg.byId && n == Naming(ids[i], reg.byId[ids[i]].name) {
      assert n.id in IdSet(ids);
      var name :| Names(items, name) && HasId(reg, name, n.id);
      assert name == n.name;
    }
  }

  // ---- one poll ----

  lemma HeardAsks(s: State, p: Poll, q: Register)
    requires Inv(s) && p.clientId in s.refs
    ensures ItemsOf(Heard(s, p).1, q) == Asked(s, p, q)
    ensures RegistryOf(Heard(s, p).0, q) == RegistryOf(s, q) && HeldOf(Heard(s, p).0, q) == HeldOf(s, q)
  {
    assert p.clientId in s.udp;
    hide Inv;
  }

  /**
    A poll registers what its datagram asks for and X-Plane knows, gives the client the ids of all
    names it asks for that are known then, confirms exactly those, and gives nobody anything else.
  */
  lemma PollIsAnswered(s: State, p: Poll, q: Register)
    requires Inv(s) && p.clientId in s.refs && p.clientId !in s.timedOut
    ensures var t, c, items := Served(s, p), p.clientId, Asked(s, p, q);
      && Registers(RegistryOf(s, q), RegistryOf(t, q), items)
      && Gains(HeldOf(s, q)[c], HeldOf(t, q)[c], RegistryOf(t, q), items)
      && (forall n :: n in ConfirmedInPoll(s, p, q) <==> Names(items, n.name) && HasId(RegistryOf(t, q), n.name, n.id))
      && (forall d :: d in s.refs && d != c ==> HeldOf(t, q)[d] == HeldOf(s, q)[d])
  {
    hide Inv, Heard, WithDatarefs, WithCommands, Asked, Registers, Gains, Names, HasId, Answer;
    HeardKeepsInv(s, p);
    HeardAsks(s, p, q);
    var (u, request) := Heard(s, p);
    var c, items, t := p.clientId, Asked(s, p, q), Served(s, p);
    RequestServed(s, p, q);
    ItemsRegister(u, c, items, q);
    forall n
      ensures n in ConfirmedInPoll(s, p, q) <==> Names(items, n.name) && HasId(RegistryOf(t, q), n.name, n.id)
    {
      AnswerIsNamed(u, c, items, q, n);
    }
    forall d | d in s.refs && d != c
      ensures HeldOf(t, q)[d] == HeldOf(s, q)[d]
    {
      OthersUntouched(u, c, ItemsOf(request, OfDatarefs), OfDatarefs, q, d);
      OthersUntouched(u, c, ItemsOf(request, OfCommands), OfCommands, q, d);
    }
  }

  /** As far as registry q goes, serving a poll is subscribing the items of that registry. */
  lemma RequestServed(s: State, p: Poll, q: Register)
    requires Inv(s) && p.clientId in s.refs && p.clientId !in s.timedOut
    ensures var (u, request) := Heard(s, p);
      && Inv(u) && p.clientId in u.refs && Served(s, p).refs.Keys == u.refs.Keys == s.refs.Keys
      && RegistryOf(Served(s, p), q) == RegistryOf(WithItems(u, p.clientId, ItemsOf(request, q), q), q)
      && HeldOf(Served(s, p), q)[p.clientId] == HeldOf(WithItems(u, p.clientId, ItemsOf(request, q), q), q)[p.clientId]
      && (forall d :: d in s.refs && d != p.clientId ==> HeldOf(Served(s, p), q)[d] == HeldOf(u, q)[d])
  {
    hide Inv, Heard;
    HeardKeepsInv(s, p);
    var (u, request) := Heard(s, p);
    var c := p.clientId;
    NothingSubscribed(u, c, q);
    hide WithDatarefs, WithCommands;
    match request {
      case Some(SubscribeDatarefs(items)) => Subscribed(u, c, items, OfDatarefs, q);
      case Some(SubscribeCommands(items)) => Subscribed(u, c, items, OfCommands, q);
      case _ =>
    }
  }

  lemma NothingSubscribed(u: State, c: int, q: Register)
    requires Inv(u) && c in u.refs
    ensures WithItems(u, c, [], q) == u
  {
  }

  lemma Subscribed(u: State, c: int, items: seq<Item>, q: Register, r: Register)
    requires Inv(u) && c in u.refs
    ensures var t := WithItems(u, c, items, q);
      && (r != q ==> RegistryOf(t, r) == RegistryOf(u, r) && HeldOf(t, r)[c] == HeldOf(u, r)[c])
      && (forall d :: d in u.refs && d != c ==> d in t.refs && HeldOf(t, r)[d] == HeldOf(u, r)[d])
  {
    hide Inv, WithItems;
    if r != q {
      OthersUntouched(u, c, items, q, r, c);
    }
    forall d | d in u.refs && d != c
      ensures d in WithItems(u, c, items, q).refs && HeldOf(WithItems(u, c, items, q), r)[d] == HeldOf(u, r)[d]
    {
      OthersUntouched(u, c, items, q, r, d);
    }
  }

  /** In particular every item that is known or can be created is answered with an id the client now holds. */
  lemma ItemIsAnswered(s: State, p: Poll, q: Register, i: nat)
    requires Inv(s) && p.clientId in s.refs && p.clientId !in s.timedOut && i < |Asked(s, p, q)|
    ensures var t, c, item := Served(s, p), p.clientId, Asked(s, p, q)[i];
      item.creates || item.name in RegistryOf(s, q).idByName ==>
        && item.name in RegistryOf(t, q).idByName
        && var id := RegistryOf(t, q).idByName[item.name];
          && id in HeldOf(t, q)[c] && id in RegistryOf(t, q).byId && RegistryOf(t, q).byId[id].name == item.name
          && Naming(id, item.name) in ConfirmedInPoll(s, p, q)
  {
    PollIsAnswered(s, p, q);
    var t, c, items := Served(s, p), p.clientId, Asked(s, p, q);
    assert Registry.WellFormed(RegistryOf(t, q));
    hide Inv, Served, Asked, ConfirmedInPoll;
    var item := items[i];
    assert Names(items, item.name) && (item.creates ==> Creates(items, item.name));
    if item.creates || item.name in RegistryOf(s, q).idByName {
      var id := RegistryOf(t, q).idByName[item.name];
      assert HasId(RegistryOf(t, q), item.name, id);
      assert Naming(id, item.name).name == item.name;
    }
  }

  // ---- a run ----

  /** What a poll confirms to its client is among what the update, and the run, confirm to it. */
  lemma {:induction false} PollIsInUpdate(s: State, polls: seq<Poll>, k: nat, q: Register, n: Naming)
    requires Inv(s) && s.timedOut == [] && Visits(polls, s.refs.Keys) && k < |polls|
    requires Visits(polls[..k], s.refs.Keys) && polls[k].clientId !in ServedAll(s, polls[..k]).timedOut
    requires n in ConfirmedInPoll(ServedAll(s, polls[..k]), polls[k], q)
    ensures n in ConfirmedInPolls(s, polls, polls[k].clientId, q)
  {
    hide Inv, Served, Visits, Polled, ConfirmedInPoll;
    PolledGrows(polls, s.refs.Keys);
    var last := |polls| - 1;
    if k < last {
      assert polls[..last][..k] == polls[..k];
      PollIsInUpdate(s, polls[..last], k, q, n);
    }
  }
}
