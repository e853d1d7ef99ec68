/**
  From a name in the cockpit to the dataref or command in the plugin: the server confirms an id for a
  name, the client keeps the id, and a set-value or a command carries it back.
*/
module Routing {
  import opened Common
  import Registry
  import opened RefCounts
  import opened Sessions
  import opened SessionRuns
  import opened Subscriptions
  import opened Confirmations
  import Clients

  // ---- the client's maps ----

  /** The two maps are inverse to each other. */
  ghost predicate Inverse(m: IdMaps) {
    && (forall id :: id in m.byId ==> m.byId[id] in m.byName && m.byName[m.byId[id]] == id)
    && (forall n :: n in m.byName ==> m.byName[n] in m.byId && m.byId[m.byName[n]] == n)
  }

  /** The id stands for something whose short name is `short`. */
  ghost predicate StandsFor(names: map<int, string>, shortOf: map<string, int>, id: int, short: int) {
    id in names && names[id] in shortOf && shortOf[names[id]] == short
  }

  /**
    The ids are those of the names, and the two maps inverse to each other, except for the `missed`
    names: those were looked up before they had an id, and stand with id 0.
  */
  ghost predicate SoundMaps(m: IdMaps, missed: set<int>, names: map<int, string>, shortOf: map<string, int>) {
    && missed <= m.byName.Keys
    && (forall id :: id in m.byId ==>
      && StandsFor(names, shortOf, id, m.byId[id])
      && m.byId[id] in m.byName && (m.byId[id] in missed || m.byName[m.byId[id]] == id))
    && (forall n :: n in m.byName ==>
      if n in missed then m.byName[n] == 0 else m.byName[n] in m.byId && m.byId[m.byName[n]] == n)
  }

  /** The requested parameters come from the table of short names. */
  ghost predicate Catalogued(outstanding: map<string, Param>, shortOf: map<string, int>) {
    forall n :: n in outstanding ==> n in shortOf && outstanding[n].shortName == shortOf[n]
  }

  ghost predicate Agrees(cs: seq<Confirmation>, names: map<int, string>) {
    forall i :: 0 <= i < |cs| ==> cs[i].id in names && names[cs[i].id] == cs[i].name
  }

  /** Without misses, the maps are inverse to each other. */
  lemma SoundWithoutMisses(m: IdMaps, names: map<int, string>, shortOf: map<string, int>)
    ensures SoundMaps(m, {}, names, shortOf) <==>
      Inverse(m) && forall id :: id in m.byId ==> StandsFor(names, shortOf, id, m.byId[id])
  {
  }

  lemma EmplaceKeepsSound(m: IdMaps, missed: set<int>, id: int, names: map<int, string>, shortOf: map<string, int>)
    requires SoundMaps(m, missed, names, shortOf) && Injective(names) && Injective(shortOf)
    requires id in names && names[id] in shortOf
    ensures SoundMaps(Emplaced(m, id, shortOf[names[id]]), missed, names, shortOf)
  {
    var short := shortOf[names[id]];
    if short in m.byName && short !in missed {
      var other := m.byName[short];
      assert shortOf[names[other]] == shortOf[names[id]];
      assert other == id;
    }
  }

  /** Confirmations that agree on what each id names keep the maps sound, and mend no miss. */
  lemma {:induction false} ConfirmationsKeepSound(p: Progress, cs: seq<Confirmation>, missed: set<int>,
                                                  names: map<int, string>, shortOf: map<string, int>)
    requires SoundMaps(p.maps, missed, names, shortOf) && Injective(names) && Injective(shortOf)
    requires Catalogued(p.outstanding, shortOf) && Agrees(cs, names)
    ensures var q := ConfirmedAll(p, cs);
      SoundMaps(q.maps, missed, names, shortOf) && Catalogued(q.outstanding, shortOf)
  {
    hide SoundMaps, Injective;
    if cs != [] {
      var c := cs[|cs| - 1];
      ConfirmationsKeepSound(p, cs[..|cs| - 1], missed, names, shortOf);
      var q := ConfirmedAll(p, cs[..|cs| - 1]);
      if c.name in q.outstanding {
        EmplaceKeepsSound(q.maps, missed, c.id, names, shortOf);
      }
    }
  }

  /** The i-th confirmation is the first for a requested name and has the type and holder that record ids. */
  ghost predicate RecordsId(p: Progress, cs: seq<Confirmation>, i: nat)
    requires i < |cs|
  {
    var c := cs[i];
    && c.name in p.outstanding && !Named(cs[..i], c.name)
    && c.dataType == p.outstanding[c.name].xplaneType
    && Registers(c, p.outstanding[c.name].holder)
  }

  /** A name gets an id exactly if it had one or some confirmation of it recorded one. */
  lemma {:induction false} NameHasIdIff(p: Progress, cs: seq<Confirmation>, short: int)
    ensures short in ConfirmedAll(p, cs).maps.byName <==>
      || short in p.maps.byName
      || exists i :: 0 <= i < |cs| && RecordsId(p, cs, i) && p.outstanding[cs[i].name].shortName == short
  {
    if cs != [] {
      var n := |cs| - 1;
      NameHasIdIff(p, cs[..n], short);
      OutstandingIsUnnamed(p, cs[..n]);
      forall i | 0 <= i < n
        ensures RecordsId(p, cs[..n], i) <==> RecordsId(p, cs, i)
      {
        assert cs[..n][..i] == cs[..i];
      }
      hide ConfirmedAll, Named, Registers;
      RecordsLast(p, cs, short);
    }
  }

  lemma RecordsLast(p: Progress, cs: seq<Confirmation>, short: int)
    requires cs != []
    ensures var n := |cs| - 1;
      short in ConfirmedAll(p, cs).maps.byName <==>
        || short in ConfirmedAll(p, cs[..n]).maps.byName
        || (RecordsId(p, cs, n) && p.outstanding[cs[n].name].shortName == short)
  {
    OutstandingIsUnnamed(p, cs[..|cs| - 1]);
  }

  // ---- lookups ----

  /** The names that some lookups find missing and insert with id 0. */
  function MissedBy(m: IdMaps, ls: seq<Lookup>): set<int> {
    if ls == [] then {}
    else
      var l := ls[|ls| - 1];
      MissedBy(m, ls[..|ls| - 1])
      + if l.asksFirst || l.shortName in LookedUpAll(m, ls[..|ls| - 1]).0.byName then {} else {l.shortName}
  }

  /** Lookups keep the maps sound up to what they miss. */
  lemma {:induction false} LookupsKeepSound(m: IdMaps, ls: seq<Lookup>, missed: set<int>, names: map<int, string>, shortOf: map<string, int>)
    requires SoundMaps(m, missed, names, shortOf)
    ensures SoundMaps(LookedUpAll(m, ls).0, missed + MissedBy(m, ls), names, shortOf)
  {
    if ls == [] {
      assert missed + {} == missed;
    } else {
      var before, l := ls[..|ls| - 1], ls[|ls| - 1];
      LookupsKeepSound(m, before, missed, names, shortOf);
      var m' := LookedUpAll(m, before).0;
      LookupKeepsSound(m', l, missed + MissedBy(m, before), names, shortOf);
      var more := if l.asksFirst || l.shortName in m'.byName then {} else {l.shortName};
      assert missed + MissedBy(m, ls) == missed + MissedBy(m, before) + more;
    }
  }

  lemma LookupKeepsSound(m: IdMaps, l: Lookup, missed: set<int>, names: map<int, string>, shortOf: map<string, int>)
    requires SoundMaps(m, missed, names, shortOf)
    ensures var more := if l.asksFirst || l.shortName in m.byName then {} else {l.shortName};
      SoundMaps(LookedUp(m, l).0, missed + more, names, shortOf)
  {
  }

  /** A lookup sends an id exactly if the name has one or nobody asks; only a miss changes the maps. */
  lemma LookupSendsIff(m: IdMaps, l: Lookup)
    ensures var (m', sent) := LookedUp(m, l);
      && (sent.Some? <==> l.shortName in m.byName || !l.asksFirst)
      && (sent.Some? ==> sent.value == if l.shortName in m.byName then m.byName[l.shortName] else 0)
      && (m' == m <==> l.shortName in m.byName || l.asksFirst)
  {
    if l.shortName !in m.byName {
      assert l.shortName in m.byName[l.shortName := 0];
    }
  }

  /**
    The id sent for a name is its own exactly if the name has an id and was never missed, or id 0
    happens to be its own.
  */
  lemma LookupIsRightIff(m: IdMaps, l: Lookup, missed: set<int>, names: map<int, string>, shortOf: map<string, int>)
    requires SoundMaps(m, missed, names, shortOf) && LookedUp(m, l).1.Some?
    ensures StandsFor(names, shortOf, LookedUp(m, l).1.value, l.shortName) <==>
      (l.shortName in m.byName && l.shortName !in missed) || StandsFor(names, shortOf, 0, l.shortName)
  {
  }

  /** Indexing a missing name leaves maps that are no longer inverse, and no confirmation mends the entry. */
  lemma {:induction false} MissingNameIsPoisoned(p: Progress, short: int, cs: seq<Confirmation>)
    requires Inverse(p.maps) && short !in p.maps.byName
    ensures var m := LookedUp(p.maps, Lookup(short, false)).0;
      && !Inverse(m)
      && var q := ConfirmedAll(p.(maps := m), cs);
        short in q.maps.byName && q.maps.byName[short] == 0
  {
    var m := LookedUp(p.maps, Lookup(short, false)).0;
    if cs == [] {
      assert m.byName[short] == 0;
      if 0 in m.byId {
        assert m.byId[0] in p.maps.byName;
      }
    } else {
      MissingNameIsPoisoned(p, short, cs[..|cs| - 1]);
    }
  }

  // ---- the client over runs ----

  /** What the cockpit hears as client c: handshakes give it that id, and confirmations agree with `names`. */
  ghost predicate HearsOnly(cycles: seq<Clients.Cycle>, c: int, names: map<int, string>) {
    forall i :: 0 <= i < |cycles| ==>
      && (cycles[i].handshake.Some? ==> cycles[i].handshake.value == c)
      && (cycles[i].heard.Something? && cycles[i].heard.packet.Datarefs? && cycles[i].heard.packet.clientId == c ==>
        Agrees(cycles[i].heard.packet.confirmations, names))
  }

  /** The names in the tables have the short names that `shortOf` gives them. */
  ghost predicate TablesAgree(t: Clients.Tables, shortOf: map<string, int>) {
    Catalogued(t.datarefs, shortOf) && t.tailName in shortOf && t.tail.shortName == shortOf[t.tailName]
  }

  /** The names that switches have looked up without an id since the client was last dropped. */
  function Missed(v: Clients.View, t: Clients.Tables, cycles: seq<Clients.Cycle>): set<int> {
    if cycles == [] || Clients.Ran(v, t, cycles).state == Clients.Disconnected then {}
    else
      var n := |cycles| - 1;
      Missed(v, t, cycles[..n]) + MissedIn(Clients.Ran(v, t, cycles[..n]), t, cycles[n])
  }

  /** Those of one cycle. */
  function MissedIn(v: Clients.View, t: Clients.Tables, c: Clients.Cycle): set<int> {
    var w := Clients.BeforeSwitches(v, t, c);
    if w.state == Clients.ZboActive then MissedBy(w.datarefs.maps, c.lookups) else {}
  }

  ghost predicate Sound(v: Clients.View, missed: set<int>, c: int, names: map<int, string>, shortOf: map<string, int>) {
    && (if v.state == Clients.Disconnected then v.datarefs.maps == Clients.NO_IDS && missed == {} else v.clientId == c)
    && SoundMaps(v.datarefs.maps, missed, names, shortOf)
    && Catalogued(v.datarefs.outstanding, shortOf)
  }

  lemma PacketKeepsSound(v: Clients.View, missed: set<int>, t: Clients.Tables, p: Clients.Packet, zibo: bool,
                         c: int, names: map<int, string>, shortOf: map<string, int>)
    requires v.state != Clients.Disconnected
    requires Sound(v, missed, c, names, shortOf) && TablesAgree(t, shortOf) && Injective(names) && Injective(shortOf)
    requires p.Datarefs? && p.clientId == c ==> Agrees(p.confirmations, names)
    ensures Sound(Clients.Processed(v, t, p, zibo), missed, c, names, shortOf)
    ensures Clients.Processed(v, t, p, zibo).state != Clients.Disconnected
  {
    hide SoundMaps, Agrees, Injective, ConfirmedAll, CommandsConfirmed, Clients.Complete, Catalogued;
    if p.Datarefs? && p.clientId == c {
      ConfirmationsKeepSound(v.datarefs, p.confirmations, missed, names, shortOf);
    }
  }

  lemma SwitchesKeepSound(v: Clients.View, missed: set<int>, ls: seq<Lookup>, c: int, names: map<int, string>, shortOf: map<string, int>)
    requires v.state != Clients.Disconnected && Sound(v, missed, c, names, shortOf)
    ensures var more := if v.state == Clients.ZboActive then MissedBy(v.datarefs.maps, ls) else {};
      Sound(Clients.Switched(v, ls), missed + more, c, names, shortOf)
  {
    hide SoundMaps, MissedBy, LookedUpAll, Catalogued;
    if v.state == Clients.ZboActive {
      LookupsKeepSound(v.datarefs.maps, ls, missed, names, shortOf);
    } else {
      assert missed + {} == missed;
    }
  }

  lemma CycleKeepsSound(v: Clients.View, missed: set<int>, t: Clients.Tables, cycle: Clients.Cycle,
                        c: int, names: map<int, string>, shortOf: map<string, int>)
    requires Sound(v, missed, c, names, shortOf) && TablesAgree(t, shortOf) && Injective(names) && Injective(shortOf)
    requires HearsOnly([cycle], c, names)
    ensures var w := Clients.Cycled(v, t, cycle);
      Sound(w, if w.state == Clients.Disconnected then {} else missed + MissedIn(v, t, cycle), c, names, shortOf)
  {
    assert [cycle][0] == cycle;
    hide Agrees, Injective, Clients.Processed, MissedBy, SoundMaps, LookedUpAll;
    var w := Clients.Greeted(v, cycle.handshake);
    NoIdsAreSound(names, shortOf);
    if w.state != Clients.Disconnected {
      if cycle.heard.Something? {
        PacketKeepsSound(w, missed, t, cycle.heard.packet, cycle.heard.zibo, c, names, shortOf);
      }
      SwitchesKeepSound(Clients.BeforeSwitches(v, t, cycle), missed, cycle.lookups, c, names, shortOf);
    }
  }

  lemma NoIdsAreSound(names: map<int, string>, shortOf: map<string, int>)
    ensures SoundMaps(Clients.NO_IDS, {}, names, shortOf)
  {
  }

  /** Over any run of the client's cycles, its maps are sound up to what its switches have missed. */
  lemma {:induction false} CyclesKeepSound(v: Clients.View, t: Clients.Tables, cycles: seq<Clients.Cycle>,
                                           c: int, names: map<int, string>, shortOf: map<string, int>)
    requires Sound(v, {}, c, names, shortOf) && TablesAgree(t, shortOf) && Injective(names) && Injective(shortOf)
    requires HearsOnly(cycles, c, names)
    ensures Sound(Clients.Ran(v, t, cycles), Missed(v, t, cycles), c, names, shortOf)
  {
    hide Sound, TablesAgree, Injective, Clients.Cycled, Agrees, MissedIn;
    if cycles != [] {
      var n := |cycles| - 1;
      assert HearsOnly(cycles[..n], c, names) && HearsOnly([cycles[n]], c, names);
      CyclesKeepSound(v, t, cycles[..n], c, names, shortOf);
      CycleKeepsSound(Clients.Ran(v, t, cycles[..n]), Missed(v, t, cycles[..n]), t, cycles[n], c, names, shortOf);
    }
  }

  // ---- end to end ----

  /** Every dataref confirmation the cockpit hears as client c is one that the server's run has sent it. */
  ghost predicate HearsFrom(cycles: seq<Clients.Cycle>, c: int, sent: set<Naming>) {
    forall i :: 0 <= i < |cycles| ==>
      && (cycles[i].handshake.Some? ==> cycles[i].handshake.value == c)
      && (cycles[i].heard.Something? && cycles[i].heard.packet.Datarefs? && cycles[i].heard.packet.clientId == c ==>
        forall n :: n in cycles[i].heard.packet.confirmations ==> Naming(n.id, n.name) in sent)
  }

  lemma SentIsAgreed(cycles: seq<Clients.Cycle>, c: int, sent: set<Naming>, names: map<int, string>)
    requires HearsFrom(cycles, c, sent)
    requires AllNamed(sent, names)
    ensures HearsOnly(cycles, c, names)
  {
    forall i | 0 <= i < |cycles| && cycles[i].heard.Something? && cycles[i].heard.packet.Datarefs? && cycles[i].heard.packet.clientId == c
      ensures Agrees(cycles[i].heard.packet.confirmations, names)
    {
      var cs := cycles[i].heard.packet.confirmations;
      forall j | 0 <= j < |cs|
        ensures cs[j].id in names && names[cs[j].id] == cs[j].name
      {
        assert cs[j] in cs;
        assert Naming(cs[j].id, cs[j].name) in sent;
      }
    }
  }

  /** A cockpit that has no ids yet. */
  ghost predicate WithoutIds(v: Clients.View, shortOf: map<string, int>) {
    v.state == Clients.Disconnected && v.datarefs.maps == Clients.NO_IDS && Catalogued(v.datarefs.outstanding, shortOf)
  }

  /** The plugin's registry has the id under a name whose short name is `short`. */
  ghost predicate Reaches(reg: Registry.State, shortOf: map<string, int>, id: int, short: int) {
    id in reg.byId && reg.byId[id].name in shortOf && shortOf[reg.byId[id].name] == short
  }

  /**
    End to end: the server polls client c, connected ever since; the cockpit has heard, in any order
    and with any loss and repetition, what the server's run has confirmed to c. Then whatever the
    switches look up next, the id sent for a name reaches that name's dataref in the plugin exactly if
    the name has an id that was there when it was first looked up, or id 0 is that dataref's own.
  */
  lemma SetValueReachesItsDataref(inputs: seq<Input>, from: nat, i: Input, k: nat, v: Clients.View, t: Clients.Tables,
                                  cycles: seq<Clients.Cycle>, shortOf: map<string, int>, l: Lookup)
    requires Enabled(Run(inputs), i) && k < |i.polls|
    requires from <= |inputs| && ConnectedSince(inputs, from, i.polls[k].clientId)
    requires HearsFrom(cycles, i.polls[k].clientId, ConfirmedInRun(inputs, from, i.polls[k].clientId, OfDatarefs))
    requires WithoutIds(v, shortOf) && TablesAgree(t, shortOf) && Injective(shortOf)
    ensures var maps, missed := Clients.Ran(v, t, cycles).datarefs.maps, Missed(v, t, cycles);
      var reg, sent := BeforePoll(Run(inputs), i, k).datarefs, LookedUp(maps, l).1;
      && (missed == {} ==> Inverse(maps))
      && (sent.Some? ==>
        (Reaches(reg, shortOf, sent.value, l.shortName) <==>
          (l.shortName in maps.byName && l.shortName !in missed) || Reaches(reg, shortOf, 0, l.shortName)))
  {
    hide Run, Inv, HandedOver, Enabled, BeforePoll, ConnectedSince, ConfirmedInRun, NamesHeld, Clients.Ran, SoundMaps, Reaches, LookedUp;
    var c, u := i.polls[k].clientId, BeforePoll(Run(inputs), i, k);
    ConfirmedIsRegistered(inputs, from, i, k, OfDatarefs);
    var names := NamesHeld(u, c, OfDatarefs);
    SentIsAgreed(cycles, c, ConfirmedInRun(inputs, from, c, OfDatarefs), names);
    NoIdsAreSound(names, shortOf);
    CyclesKeepSound(v, t, cycles, c, names, shortOf);
    LookupReachesIff(Clients.Ran(v, t, cycles).datarefs.maps, l, Missed(v, t, cycles), names, u.datarefs, shortOf);
  }

  lemma LookupReachesIff(m: IdMaps, l: Lookup, missed: set<int>, names: map<int, string>, reg: Registry.State, shortOf: map<string, int>)
    requires SoundMaps(m, missed, names, shortOf)
    requires RegisteredAs(reg, names)
    ensures missed == {} ==> Inverse(m)
    ensures var sent := LookedUp(m, l).1;
      sent.Some? ==>
        (Reaches(reg, shortOf, sent.value, l.shortName) <==>
          (l.shortName in m.byName && l.shortName !in missed) || Reaches(reg, shortOf, 0, l.shortName))
  {
  }

  // ---- an encoder whose name has no id ----

  const TABLES := Clients.Tables(
    map["a" := Param(1, Float, SwitchData), "b" := Param(2, Float, SwitchData), "e" := Param(3, Float, SwitchData)], map[],
    "tail", Param(0, Data, InData))
  const NAMES := map[0 := "tail", 1 := "a", 2 := "b", 3 := "e"]
  const SHORTS := map["tail" := 0, "a" := 1, "b" := 2, "e" := 3]

  /** "e" is requested as a float, but another cockpit has subscribed it as an int. */
  const REPLIES := [Confirmation("a", 1, Float, Float), Confirmation("b", 2, Float, Float), Confirmation("e", 3, Int, Int)]
  const TURNS := [Lookup(3, false), Lookup(3, false)]
  const LAST := Clients.Cycle(None, Clients.Something(Clients.Datarefs(7, REPLIES), false), TURNS)

  const ASKED := Progress(TABLES.datarefs, 1, 0, IdMaps(map[0 := 0], map[0 := 0]))
  const ANSWERED := Progress(map[], 3, 1, IdMaps(map[0 := 0, 1 := 1, 2 := 2], map[0 := 0, 1 := 1, 2 := 2]))

  lemma TailIsFound()
    ensures var v := Clients.Ran(Clients.START, TABLES, Clients.Finding(7, TABLES));
      && v.state == Clients.ZboSubscribed && v.clientId == 7 && v.subscribedTimeout == 0
      && v.datarefs == ASKED && v.commands.outstanding == map[]
  {
    var c, d := Clients.Finding(7, TABLES)[0], Clients.Finding(7, TABLES)[1];
    Clients.RanTwo(Clients.START, TABLES, c, d);
    var w := Clients.Cycled(Clients.START, TABLES, c);
    assert w.datarefs == Progress(map["tail" := TABLES.tail], 0, 0, Clients.NO_IDS);
    var cs := [Clients.TailConfirmation(TABLES)];
    assert cs[..0] == [];
    assert ConfirmedAll(w.datarefs, cs) == Confirmed(w.datarefs, cs[0]);
    assert Confirmed(w.datarefs, cs[0]) == Progress(map[], 1, 0, IdMaps(map[0 := 0], map[0 := 0]));
    assert "a" in TABLES.datarefs;
  }

  lemma RepliesAreAccepted()
    ensures ConfirmedAll(ASKED, REPLIES) == ANSWERED
  {
    var one, two := [REPLIES[0]], [REPLIES[0], REPLIES[1]];
    assert one[..0] == [] && two[..1] == one && REPLIES[..2] == two;
    var p := Confirmed(ASKED, REPLIES[0]);
    assert p == Progress(map["b" := TABLES.datarefs["b"], "e" := TABLES.datarefs["e"]], 2, 0,
      IdMaps(map[0 := 0, 1 := 1], map[0 := 0, 1 := 1]));
    var q := Confirmed(p, REPLIES[1]);
    assert q == Progress(map["e" := TABLES.datarefs["e"]], 3, 0, ANSWERED.maps);
    assert Confirmed(q, REPLIES[2]) == ANSWERED;
    hide Confirmed;
    assert ConfirmedAll(ASKED, []) == ASKED;
    assert ConfirmedAll(ASKED, one) == p;
    assert ConfirmedAll(ASKED, two) == q;
  }

  lemma TurnsMiss()
    ensures MissedBy(ANSWERED.maps, TURNS) == {3}
    ensures LookedUpAll(ANSWERED.maps, TURNS) ==
      (IdMaps(ANSWERED.maps.byId, ANSWERED.maps.byName[3 := 0]), [SetValue(3, 0), SetValue(3, 0)])
  {
    var m, one := ANSWERED.maps, [TURNS[0]];
    var m' := IdMaps(m.byId, m.byName[3 := 0]);
    assert one[..0] == [] && TURNS[..1] == one;
    assert LookedUp(m, TURNS[0]) == (m', Some(0)) && LookedUp(m', TURNS[1]) == (m', Some(0));
    assert LookedUpAll(m, []) == (m, []);
    assert LookedUpAll(m, one) == (m', [] + [SetValue(3, 0)]);
    assert LookedUpAll(m, TURNS) == (m', [] + [SetValue(3, 0)] + [SetValue(3, 0)]);
    assert [] + [SetValue(3, 0)] + [SetValue(3, 0)] == [SetValue(3, 0), SetValue(3, 0)];
    assert MissedBy(m, one) == {3};
  }

  /** The counterexample: both turns of the encoder are sent to id 0, which is the tail number's. */
  lemma EncoderGoesAstray()
    ensures var v := Clients.Ran(Clients.START, TABLES, Clients.Finding(7, TABLES));
      var w := Clients.Cycled(v, TABLES, LAST);
      && WithoutIds(Clients.START, SHORTS) && TablesAgree(TABLES, SHORTS) && Agrees(REPLIES, NAMES)
      && w.state == Clients.ZboActive && MissedIn(v, TABLES, LAST) == {3}
      && Clients.SentIn(v, TABLES, LAST) == [SetValue(3, 0), SetValue(3, 0)]
      && !Inverse(w.datarefs.maps)
      && StandsFor(NAMES, SHORTS, 0, 0) && !StandsFor(NAMES, SHORTS, 0, 3)
  {
    NamesAgree();
    TailIsFound();
    TurnsMiss();
    hide *;
    LastGoesAstray(Clients.Ran(Clients.START, TABLES, Clients.Finding(7, TABLES)));
  }

  lemma NamesAgree()
    ensures WithoutIds(Clients.START, SHORTS) && TablesAgree(TABLES, SHORTS) && Agrees(REPLIES, NAMES)
    ensures StandsFor(NAMES, SHORTS, 0, 0) && !StandsFor(NAMES, SHORTS, 0, 3)
  {
  }

  lemma LastGoesAstray(v: Clients.View)
    requires v.state == Clients.ZboSubscribed && v.clientId == 7 && v.subscribedTimeout == 0
    requires v.datarefs == ASKED && v.commands.outstanding == map[]
    ensures var w := Clients.Cycled(v, TABLES, LAST);
      && w.state == Clients.ZboActive && MissedIn(v, TABLES, LAST) == {3}
      && Clients.SentIn(v, TABLES, LAST) == [SetValue(3, 0), SetValue(3, 0)] && !Inverse(w.datarefs.maps)
  {
    hide LookedUpAll, MissedBy, Clients.Processed;
    TurnsMiss();
    LastIsHeard(v);
    assert ANSWERED.maps.byName[3 := 0][3] == 0 && ANSWERED.maps.byId[0] == 0;
  }

  lemma LastIsHeard(v: Clients.View)
    requires v.state == Clients.ZboSubscribed && v.clientId == 7 && v.subscribedTimeout == 0
    requires v.datarefs == ASKED && v.commands.outstanding == map[]
    ensures var w := Clients.Processed(v, TABLES, Clients.Datarefs(7, REPLIES), false);
      w.state == Clients.ZboActive && w.datarefs == ANSWERED
  {
    hide ConfirmedAll;
    RepliesAreAccepted();
  }

  // ---- commands ----

  ghost predicate CataloguedCommands(outstanding: map<string, int>, shortOf: map<string, int>) {
    forall n :: n in outstanding ==> n in shortOf && outstanding[n] == shortOf[n]
  }

  /** Every command id stands for its short name; a later confirmation overwrites an earlier one. */
  ghost predicate SoundCommands(p: CommandProgress, names: map<int, string>, shortOf: map<string, int>) {
    CataloguedCommands(p.outstanding, shortOf) && forall n :: n in p.ids ==> StandsFor(names, shortOf, p.ids[n], n)
  }

  lemma {:induction false} ConfirmationsKeepCommands(p: CommandProgress, cs: seq<CommandConfirmation>,
                                                     names: map<int, string>, shortOf: map<string, int>)
    requires SoundCommands(p, names, shortOf)
    requires forall i :: 0 <= i < |cs| ==> cs[i].id in names && names[cs[i].id] == cs[i].name
    ensures SoundCommands(CommandsConfirmed(p, cs), names, shortOf)
  {
    if cs != [] {
      ConfirmationsKeepCommands(p, cs[..|cs| - 1], names, shortOf);
    }
  }

  /** Every command confirmation the cockpit hears as client c is one that the server's run has sent it. */
  ghost predicate HearsCommandsFrom(cycles: seq<Clients.Cycle>, c: int, sent: set<Naming>) {
    forall i :: 0 <= i < |cycles| ==>
      && (cycles[i].handshake.Some? ==> cycles[i].handshake.value == c)
      && (cycles[i].heard.Something? && cycles[i].heard.packet.Commands? && cycles[i].heard.packet.clientId == c ==>
        forall n :: n in cycles[i].heard.packet.commands ==> Naming(n.id, n.name) in sent)
  }

  ghost predicate SoundCommandView(v: Clients.View, c: int, names: map<int, string>, shortOf: map<string, int>) {
    (v.state != Clients.Disconnected ==> v.clientId == c) && SoundCommands(v.commands, names, shortOf)
  }

  lemma CycleKeepsCommands(v: Clients.View, t: Clients.Tables, cycle: Clients.Cycle, c: int, sent: set<Naming>,
                           names: map<int, string>, shortOf: map<string, int>)
    requires SoundCommandView(v, c, names, shortOf) && CataloguedCommands(t.commands, shortOf)
    requires HearsCommandsFrom([cycle], c, sent)
    requires AllNamed(sent, names)
    ensures SoundCommandView(Clients.Cycled(v, t, cycle), c, names, shortOf)
  {
    assert [cycle][0] == cycle;
    hide StandsFor, Clients.Processed, LookedUpAll, CataloguedCommands, AllNamed;
    var w := Clients.Greeted(v, cycle.handshake);
    if cycle.heard.Something? && w.state != Clients.Disconnected {
      PacketKeepsCommands(w, t, cycle.heard.packet, cycle.heard.zibo, c, sent, names, shortOf);
    }
  }

  lemma PacketKeepsCommands(v: Clients.View, t: Clients.Tables, p: Clients.Packet, zibo: bool, c: int, sent: set<Naming>,
                            names: map<int, string>, shortOf: map<string, int>)
    requires v.clientId == c && SoundCommands(v.commands, names, shortOf) && CataloguedCommands(t.commands, shortOf)
    requires p.Commands? && p.clientId == c ==> forall n :: n in p.commands ==> Naming(n.id, n.name) in sent
    requires AllNamed(sent, names)
    ensures var w := Clients.Processed(v, t, p, zibo);
      w.clientId == c && SoundCommands(w.commands, names, shortOf)
  {
    hide StandsFor, ConfirmedAll, CommandsConfirmed, Clients.Complete, SoundCommands;
    if p.Commands? && p.clientId == c {
      forall j | 0 <= j < |p.commands|
        ensures p.commands[j].id in names && names[p.commands[j].id] == p.commands[j].name
      {
        assert p.commands[j] in p.commands;
        assert Naming(p.commands[j].id, p.commands[j].name) in sent;
      }
      ConfirmationsKeepCommands(v.commands, p.commands, names, shortOf);
    }
    AnyRequests(v.commands, t.commands, names, shortOf);
    AnyRequests(CommandsConfirmed(v.commands, if p.Commands? then p.commands else []), t.commands, names, shortOf);
  }

  lemma AnyRequests(p: CommandProgress, outstanding: map<string, int>, names: map<int, string>, shortOf: map<string, int>)
    requires CataloguedCommands(outstanding, shortOf)
    ensures SoundCommands(p, names, shortOf) ==> SoundCommands(p.(outstanding := outstanding), names, shortOf)
  {
  }

  lemma {:induction false} CyclesKeepCommands(v: Clients.View, t: Clients.Tables, cycles: seq<Clients.Cycle>, c: int,
                                              sent: set<Naming>, names: map<int, string>, shortOf: map<string, int>)
    requires SoundCommandView(v, c, names, shortOf) && CataloguedCommands(t.commands, shortOf)
    requires HearsCommandsFrom(cycles, c, sent)
    requires AllNamed(sent, names)
    ensures SoundCommandView(Clients.Ran(v, t, cycles), c, names, shortOf)
  {
    hide SoundCommandView, Clients.Cycled, CataloguedCommands;
    if cycles != [] {
      var n := |cycles| - 1;
      assert HearsCommandsFrom(cycles[..n], c, sent) && HearsCommandsFrom([cycles[n]], c, sent);
      CyclesKeepCommands(v, t, cycles[..n], c, sent, names, shortOf);
      CycleKeepsCommands(Clients.Ran(v, t, cycles[..n]), t, cycles[n], c, sent, names, shortOf);
    }
  }

  /** End to end: every command id the cockpit has reaches its own command while the client is connected. */
  lemma CommandReachesItsCommand(inputs: seq<Input>, from: nat, i: Input, k: nat, v: Clients.View, t: Clients.Tables,
                                 cycles: seq<Clients.Cycle>, shortOf: map<string, int>)
    requires Enabled(Run(inputs), i) && k < |i.polls|
    requires from <= |inputs| && ConnectedSince(inputs, from, i.polls[k].clientId)
    requires HearsCommandsFrom(cycles, i.polls[k].clientId, ConfirmedInRun(inputs, from, i.polls[k].clientId, OfCommands))
    requires v.state == Clients.Disconnected && v.commands.ids == map[]
    requires CataloguedCommands(v.commands.outstanding, shortOf) && CataloguedCommands(t.commands, shortOf)
    ensures var ids, reg := Clients.Ran(v, t, cycles).commands.ids, BeforePoll(Run(inputs), i, k).commands;
      forall short :: short in ids ==> Reaches(reg, shortOf, ids[short], short)
  {
    hide Run, Inv, HandedOver, Enabled, BeforePoll, ConnectedSince, ConfirmedInRun, NamesHeld, Clients.Ran, Reaches, StandsFor;
    var c, u := i.polls[k].clientId, BeforePoll(Run(inputs), i, k);
    ConfirmedIsRegistered(inputs, from, i, k, OfCommands);
    var names := NamesHeld(u, c, OfCommands);
    CyclesKeepCommands(v, t, cycles, c, ConfirmedInRun(inputs, from, c, OfCommands), names, shortOf);
    IdsReach(Clients.Ran(v, t, cycles).commands, names, u.commands, shortOf);
  }

  lemma IdsReach(p: CommandProgress, names: map<int, string>, reg: Registry.State, shortOf: map<string, int>)
    requires SoundCommands(p, names, shortOf)
    requires RegisteredAs(reg, names)
    ensures forall short :: short in p.ids ==> Reaches(reg, shortOf, p.ids[short], short)
  {
  }
}
