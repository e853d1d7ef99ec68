/**
  The cockpit's bookkeeping of subscriptions: requests leave in packets of at most forty, and every
  confirmation strikes a name off the requested set.
*/
module Subscriptions {
  import opened Common

  datatype XplaneType = Unknown | Int | Float | Double | FloatArray | IntArray | Data

  /** What the cockpit keeps for a dataref: switch data or plain input data. */
  datatype Holder = SwitchData | InData

  datatype Param = Param(shortName: int, xplaneType: XplaneType, holder: Holder)

  /** A confirmation carries the registered type and a value, which has a type of its own. */
  datatype Confirmation = Confirmation(name: string, id: int, dataType: XplaneType, valueType: XplaneType)

  datatype IdMaps = IdMaps(byId: map<int, int>, byName: map<int, int>)

  /** The types whose handler records the id, depending on what is kept for the dataref. */
  predicate Registers(c: Confirmation, holder: Holder) {
    c.dataType == c.valueType &&
    match c.dataType
    case Int => holder.InData?
    case Float => true
    case Double => holder.InData?
    case IntArray => true
    case FloatArray => holder.SwitchData?
    case Data => holder.InData?
    case Unknown => false
  }

  /** Both emplaces: a key that is present keeps its entry. */
  function Emplaced(m: IdMaps, id: int, shortName: int): IdMaps {
    IdMaps(if id in m.byId then m.byId else m.byId[id := shortName],
           if shortName in m.byName then m.byName else m.byName[shortName := id])
  }

  /** A look at the id of a name: a plain switch asks first whether there is one, an encoder just indexes. */
  datatype Lookup = Lookup(shortName: int, asksFirst: bool)

  datatype SetValue = SetValue(shortName: int, id: int)

  /** The id a set-value goes out with; indexing a name that is missing inserts it with id 0. */
  function LookedUp(m: IdMaps, l: Lookup): (IdMaps, Option<int>) {
    if l.shortName in m.byName then (m, Some(m.byName[l.shortName]))
    else if l.asksFirst then (m, None)
    else (m.(byName := m.byName[l.shortName := 0]), Some(0))
  }

  function LookedUpAll(m: IdMaps, ls: seq<Lookup>): (IdMaps, seq<SetValue>) {
    if ls == [] then (m, [])
    else
      var l := ls[|ls| - 1];
      var (m', sent) := LookedUpAll(m, ls[..|ls| - 1]);
      var (m'', id) := LookedUp(m', l);
      (m'', sent + if id.Some? then [SetValue(l.shortName, id.value)] else [])
  }

  /** The requested names not confirmed yet, how many were accepted or refused for their type, the ids. */
  datatype Progress = Progress(outstanding: map<string, Param>, accepted: int, mismatched: int, maps: IdMaps)

  function Confirmed(p: Progress, c: Confirmation): Progress {
    if c.name !in p.outstanding then p
    else
      var param := p.outstanding[c.name];
      var left := p.outstanding - {c.name};
      if c.dataType != param.xplaneType then p.(outstanding := left, mismatched := p.mismatched + 1)
      else
        Progress(left, p.accepted + 1, p.mismatched,
                 if Registers(c, param.holder) then Emplaced(p.maps, c.id, param.shortName) else p.maps)
  }

  function ConfirmedAll(p: Progress, cs: seq<Confirmation>): Progress {
    if cs == [] then p else Confirmed(ConfirmedAll(p, cs[..|cs| - 1]), cs[|cs| - 1])
  }

  /** Floats and int arrays are always recorded; ints, doubles and strings for input data, float arrays for switches. */
  lemma HandlersRecordIff(c: Confirmation, holder: Holder)
    ensures Registers(c, holder) <==>
      && c.valueType == c.dataType
      && (c.dataType in {Float, IntArray}
        || (holder == InData && c.dataType in {Int, Double, Data})
        || (holder == SwitchData && c.dataType == FloatArray))
  {
  }

  ghost predicate Named(cs: seq<Confirmation>, name: string) {
    exists i :: 0 <= i < |cs| && cs[i].name == name
  }

  lemma NamedGrows(cs: seq<Confirmation>)
    requires cs != []
    ensures forall n :: Named(cs, n) <==> Named(cs[..|cs| - 1], n) || n == cs[|cs| - 1].name
  {
    var before, c := cs[..|cs| - 1], cs[|cs| - 1];
    forall n
      ensures Named(cs, n) <==> Named(before, n) || n == c.name
    {
      if Named(before, n) {
        var i :| 0 <= i < |before| && before[i].name == n;
        assert cs[i].name == n;
      }
      if Named(cs, n) && n != c.name {
        var i :| 0 <= i < |cs| && cs[i].name == n;
        assert before[i].name == n;
      }
      if n == c.name {
        assert cs[|cs| - 1].name == n;
      }
    }
  }

  // ---- conservation ----

  /** Accepted, refused and outstanding always add up to what was requested, whatever arrives. */
  lemma {:induction false} RequestsAreConserved(p: Progress, cs: seq<Confirmation>)
    ensures var q := ConfirmedAll(p, cs);
      q.accepted + q.mismatched + |q.outstanding| == p.accepted + p.mismatched + |p.outstanding|
  {
    if cs != [] {
      RequestsAreConserved(p, cs[..|cs| - 1]);
      var q, c := ConfirmedAll(p, cs[..|cs| - 1]), cs[|cs| - 1];
      assert (q.outstanding - {c.name}).Keys == q.outstanding.Keys - {c.name};
    }
  }

  /** What stays outstanding is what was not named, in any order and with any repetition. */
  lemma {:induction false} OutstandingIsUnnamed(p: Progress, cs: seq<Confirmation>)
    ensures var q := ConfirmedAll(p, cs);
      && (forall n :: n in q.outstanding <==> n in p.outstanding && !Named(cs, n))
      && (forall n :: n in q.outstanding ==> q.outstanding[n] == p.outstanding[n])
  {
    if cs != [] {
      var before, c := cs[..|cs| - 1], cs[|cs| - 1];
      OutstandingIsUnnamed(p, before);
      NamedGrows(cs);
    }
  }

  /** Nothing is outstanding exactly if every requested name was confirmed. */
  lemma DoneIffAllNamed(p: Progress, cs: seq<Confirmation>)
    ensures ConfirmedAll(p, cs).outstanding == map[] <==> forall n :: n in p.outstanding ==> Named(cs, n)
  {
    OutstandingIsUnnamed(p, cs);
    var q := ConfirmedAll(p, cs);
    if forall n :: n in p.outstanding ==> Named(cs, n) {
      assert forall n :: n !in q.outstanding;
      assert q.outstanding == map[];
    }
  }

  /** The names accepted: requested, confirmed, and of the type requested. */
  ghost function Matching(p: Progress, cs: seq<Confirmation>, typeOf: string -> XplaneType): set<string> {
    set n | n in p.outstanding && Named(cs, n) && typeOf(n) == p.outstanding[n].xplaneType
  }

  /** If each name is always confirmed with one type, the number accepted does not depend on the order. */
  lemma {:induction false} AcceptedIsMatching(p: Progress, cs: seq<Confirmation>, typeOf: string -> XplaneType)
    requires forall i :: 0 <= i < |cs| ==> cs[i].dataType == typeOf(cs[i].name)
    ensures ConfirmedAll(p, cs).accepted == p.accepted + |Matching(p, cs, typeOf)|
  {
    if cs == [] {
      assert Matching(p, cs, typeOf) == {};
    } else {
      var before, c := cs[..|cs| - 1], cs[|cs| - 1];
      AcceptedIsMatching(p, before, typeOf);
      OutstandingIsUnnamed(p, before);
      NamedGrows(cs);
      var q := ConfirmedAll(p, before);
      if c.name in q.outstanding && c.dataType == q.outstanding[c.name].xplaneType {
        assert Matching(p, cs, typeOf) == Matching(p, before, typeOf) + {c.name};
        assert c.name !in Matching(p, before, typeOf);
      } else {
        assert Matching(p, cs, typeOf) == Matching(p, before, typeOf);
      }
    }
  }

  /** An id keeps the name it was first recorded with, and a name its first id, whatever is confirmed later. */
  lemma {:induction false} FirstEntriesStay(p: Progress, cs: seq<Confirmation>)
    ensures var m, m' := p.maps, ConfirmedAll(p, cs).maps;
      && (forall id :: id in m.byId ==> id in m'.byId && m'.byId[id] == m.byId[id])
      && (forall n :: n in m.byName ==> n in m'.byName && m'.byName[n] == m.byName[n])
  {
    if cs != [] {
      FirstEntriesStay(p, cs[..|cs| - 1]);
    }
  }

  // ---- batches ----

  const BATCH := 40

  /** The requests of the packets sent for a list of names. */
  function Batches(names: seq<string>): seq<seq<string>> {
    if names == [] then []
    else if |names| <= BATCH then [names]
    else [names[..BATCH]] + Batches(names[BATCH..])
  }

  function Joined(packets: seq<seq<string>>): seq<string> {
    if packets == [] then [] else packets[0] + Joined(packets[1..])
  }

  /** The packets are nonempty, hold at most forty names, and together carry exactly the names. */
  lemma {:induction false} BatchesCarryAll(names: seq<string>)
    ensures Joined(Batches(names)) == names
    ensures forall i :: 0 <= i < |Batches(names)| ==> 1 <= |Batches(names)[i]| <= 40
    ensures |Batches(names)| == (|names| + 39) / 40
    decreases |names|
  {
    if names != [] {
      if |names| <= BATCH {
        assert Joined([names]) == names + Joined([names][1..]);
      } else {
        BatchesCarryAll(names[BATCH..]);
        var rest := Batches(names[BATCH..]);
        assert Batches(names)[1..] == rest;
        assert names == names[..BATCH] + names[BATCH..];
        forall i | 0 <= i < |Batches(names)|
          ensures 1 <= |Batches(names)[i]| <= BATCH
        {
          if i > 0 {
            assert Batches(names)[i] == rest[i - 1];
          }
        }
      }
    }
  }

  lemma {:induction false} FullBatchesThenRest(names: seq<string>, full: nat, rest: seq<string>)
    requires |names| == BATCH * full && 1 <= |rest| <= BATCH
    ensures Batches(names + rest) == Batches(names) + [rest]
    decreases full
  {
    if full == 0 {
      assert names + rest == rest;
    } else {
      assert (names + rest)[..BATCH] == names[..BATCH];
      assert (names + rest)[BATCH..] == names[BATCH..] + rest;
      FullBatchesThenRest(names[BATCH..], full - 1, rest);
      if full == 1 {
        assert names[BATCH..] == [] && names[..BATCH] == names;
      }
    }
  }

  // ---- commands ----

  datatype CommandConfirmation = CommandConfirmation(name: string, id: int)

  datatype CommandProgress = CommandProgress(outstanding: map<string, int>, accepted: int, ids: map<int, int>)

  function CommandConfirmed(p: CommandProgress, c: CommandConfirmation): CommandProgress {
    if c.name !in p.outstanding then p
    else CommandProgress(p.outstanding - {c.name}, p.accepted + 1, p.ids[p.outstanding[c.name] := c.id])
  }

  function CommandsConfirmed(p: CommandProgress, cs: seq<CommandConfirmation>): CommandProgress {
    if cs == [] then p else CommandConfirmed(CommandsConfirmed(p, cs[..|cs| - 1]), cs[|cs| - 1])
  }

  ghost predicate CommandNamed(cs: seq<CommandConfirmation>, name: string) {
    exists i :: 0 <= i < |cs| && cs[i].name == name
  }

  /** No command is outstanding exactly if every requested one was confirmed. */
  lemma CommandsDoneIffAllNamed(p: CommandProgress, cs: seq<CommandConfirmation>)
    ensures CommandsConfirmed(p, cs).outstanding == map[] <==> forall n :: n in p.outstanding ==> CommandNamed(cs, n)
  {
    var q := CommandsConfirmed(p, cs);
    forall n
      ensures n in q.outstanding <==> n in p.outstanding && !CommandNamed(cs, n)
    {
      CommandOutstandingIffUnnamed(p, cs, n);
    }
    if forall n :: n in p.outstanding ==> CommandNamed(cs, n) {
      assert forall n :: n !in q.outstanding;
      assert q.outstanding == map[];
    }
  }

  lemma {:induction false} CommandOutstandingIffUnnamed(p: CommandProgress, cs: seq<CommandConfirmation>, n: string)
    ensures n in CommandsConfirmed(p, cs).outstanding <==> n in p.outstanding && !CommandNamed(cs, n)
  {
    if cs != [] {
      var before, c := cs[..|cs| - 1], cs[|cs| - 1];
      CommandOutstandingIffUnnamed(p, before, n);
      if CommandNamed(before, n) {
        var i :| 0 <= i < |before| && before[i].name == n;
        assert cs[i].name == n;
      } else if CommandNamed(cs, n) {
        var i :| 0 <= i < |cs| && cs[i].name == n;
        assert i == |before|;
      }
    }
  }

  /** The i-th confirmation is the first for a requested command. */
  ghost predicate RecordsCommand(p: CommandProgress, cs: seq<CommandConfirmation>, i: nat)
    requires i < |cs|
  {
    cs[i].name in p.outstanding && !CommandNamed(cs[..i], cs[i].name)
  }

  lemma {:induction false} OutstandingCommandsStay(p: CommandProgress, cs: seq<CommandConfirmation>)
    ensures var q := CommandsConfirmed(p, cs).outstanding;
      forall n :: n in q ==> n in p.outstanding && q[n] == p.outstanding[n]
  {
    if cs != [] {
      OutstandingCommandsStay(p, cs[..|cs| - 1]);
    }
  }

  /** The last confirmation gives its command the id exactly if it is the first for it. */
  lemma LastRecords(p: CommandProgress, cs: seq<CommandConfirmation>)
    requires cs != []
    ensures var n := |cs| - 1;
      var q := CommandsConfirmed(p, cs[..n]);
      CommandsConfirmed(p, cs).ids == if RecordsCommand(p, cs, n) then q.ids[p.outstanding[cs[n].name] := cs[n].id] else q.ids
  {
    CommandOutstandingIffUnnamed(p, cs[..|cs| - 1], cs[|cs| - 1].name);
    OutstandingCommandsStay(p, cs[..|cs| - 1]);
  }

  lemma EarlierRecords(p: CommandProgress, cs: seq<CommandConfirmation>, i: nat)
    requires i < |cs| - 1
    ensures RecordsCommand(p, cs[..|cs| - 1], i) <==> RecordsCommand(p, cs, i)
  {
    assert cs[..|cs| - 1][..i] == cs[..i];
  }

  /** A command has an id exactly if it had one or some confirmation was the first for it. */
  lemma {:induction false} CommandHasIdIff(p: CommandProgress, cs: seq<CommandConfirmation>, short: int)
    ensures short in CommandsConfirmed(p, cs).ids <==>
      || short in p.ids
      || exists i :: 0 <= i < |cs| && RecordsCommand(p, cs, i) && p.outstanding[cs[i].name] == short
  {
    hide RecordsCommand;
    if cs != [] {
      var n := |cs| - 1;
      CommandHasIdIff(p, cs[..n], short);
      LastRecords(p, cs);
      forall i | 0 <= i < n
        ensures RecordsCommand(p, cs[..n], i) <==> RecordsCommand(p, cs, i)
      {
        EarlierRecords(p, cs, i);
      }
      hide CommandsConfirmed;
      if RecordsCommand(p, cs, n) {
        assert cs[n].name in p.outstanding by { Requested(p, cs, n); }
      }
    }
  }

  lemma Requested(p: CommandProgress, cs: seq<CommandConfirmation>, i: nat)
    requires i < |cs| && RecordsCommand(p, cs, i)
    ensures cs[i].name in p.outstanding
  {
  }

  /** The id is that of the last such confirmation for its short name. */
  lemma {:induction false} CommandIdIs(p: CommandProgress, cs: seq<CommandConfirmation>, i: nat)
    requires i < |cs| && RecordsCommand(p, cs, i)
    requires forall j :: i < j < |cs| && RecordsCommand(p, cs, j) ==> p.outstanding[cs[j].name] != p.outstanding[cs[i].name]
    ensures var ids := CommandsConfirmed(p, cs).ids;
      p.outstanding[cs[i].name] in ids && ids[p.outstanding[cs[i].name]] == cs[i].id
  {
    var n := |cs| - 1;
    LastRecords(p, cs);
    if i < n {
      EarlierRecords(p, cs, i);
      forall j | i < j < n && RecordsCommand(p, cs[..n], j)
        ensures p.outstanding[cs[j].name] != p.outstanding[cs[i].name]
      {
        EarlierRecords(p, cs, j);
      }
      CommandIdIs(p, cs[..n], i);
    }
  }

  /** No id is lost, and none is given to a name that was not confirmed. */
  lemma {:induction false} OtherIdsStay(p: CommandProgress, cs: seq<CommandConfirmation>, short: int)
    requires forall i :: 0 <= i < |cs| && RecordsCommand(p, cs, i) ==> p.outstanding[cs[i].name] != short
    requires short in p.ids
    ensures short in CommandsConfirmed(p, cs).ids && CommandsConfirmed(p, cs).ids[short] == p.ids[short]
  {
    if cs != [] {
      var n := |cs| - 1;
      LastRecords(p, cs);
      forall i | 0 <= i < n && RecordsCommand(p, cs[..n], i)
        ensures p.outstanding[cs[i].name] != short
      {
        EarlierRecords(p, cs, i);
      }
      OtherIdsStay(p, cs[..n], short);
    }
  }

  /** Every requested command is outstanding or has an id. */
  ghost predicate EachOutstandingOrKnown(requested: map<string, int>, p: CommandProgress) {
    && (forall n :: n in requested ==> n in p.outstanding || requested[n] in p.ids)
    && (forall n :: n in p.outstanding ==> n in requested && p.outstanding[n] == requested[n])
  }

  lemma {:induction false} ConfirmationsGiveIds(requested: map<string, int>, p: CommandProgress, cs: seq<CommandConfirmation>)
    requires EachOutstandingOrKnown(requested, p)
    ensures EachOutstandingOrKnown(requested, CommandsConfirmed(p, cs))
  {
    if cs != [] {
      ConfirmationsGiveIds(requested, p, cs[..|cs| - 1]);
    }
  }

  /** Confirming in two batches is confirming their concatenation. */
  lemma {:induction false} ConfirmedInTwo(p: Progress, a: seq<Confirmation>, b: seq<Confirmation>)
    ensures ConfirmedAll(p, a + b) == ConfirmedAll(ConfirmedAll(p, a), b)
  {
    if b == [] {
      assert a + b == a;
    } else {
      ConfirmedInTwo(p, a, b[..|b| - 1]);
      assert (a + b)[..|a + b| - 1] == a + b[..|b| - 1];
    }
  }

  lemma {:induction false} CommandsConfirmedInTwo(p: CommandProgress, a: seq<CommandConfirmation>, b: seq<CommandConfirmation>)
    ensures CommandsConfirmed(p, a + b) == CommandsConfirmed(CommandsConfirmed(p, a), b)
  {
    if b == [] {
      assert a + b == a;
    } else {
      CommandsConfirmedInTwo(p, a, b[..|b| - 1]);
      assert (a + b)[..|a + b| - 1] == a + b[..|b| - 1];
    }
  }

  lemma {:induction false} AcceptedGrows(p: Progress, cs: seq<Confirmation>)
    ensures ConfirmedAll(p, cs).accepted >= p.accepted
  {
    if cs != [] {
      AcceptedGrows(p, cs[..|cs| - 1]);
    }
  }
}
