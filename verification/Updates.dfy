/**
  Server::update whole: the sessions and registries of Sessions together with the values of Broadcast.
  The cells are those of the registered ids and the holders are the connected clients, so that what the
  clients know follows from what the server does.
*/
module Updates {
  import opened Common
  import opened DataRefs
  import Registry
  import opened RefCounts
  import opened Sessions
  import opened SessionRuns
  import Broadcast

  type Readings = map<int, Broadcast.Reading>

  datatype Server = Server(session: State, values: Broadcast.State)

  const IDLE := Server(START, Broadcast.State(map[], map[], map[]))

  /** A cell for every registered dataref, and the holders are those of the session. */
  ghost predicate Linked(s: State, b: Broadcast.State) {
    Broadcast.Shaped(b) && b.held == HeldDatarefs(s) && b.cells.Keys == s.datarefs.byId.Keys
  }

  // ---- the multicast round ----

  lemma {:induction false} DropsKeepHeld(s: State)
    requires Inv(s)
    ensures var t := DroppedTimedOut(s);
      && (forall c :: c in t.refs ==> c in s.refs && t.refs[c] == s.refs[c])
      && t.datarefs.byId.Keys <= s.datarefs.byId.Keys
    decreases |s.timedOut|
  {
    if s.timedOut != [] {
      DropKeepsInv(s);
      DropsKeepHeld(DroppedNext(s));
    }
  }

  /** A round registers nothing, leaves who stays alone and starts new clients with nothing. */
  lemma RoundKeepsHeld(s: State, open: Option<Open>, now: int)
    requires Inv(s) && HandedOver(s) && (open.Some? ==> ValidOpen(open.value))
    ensures var u := MulticastRound(s, open, now);
      && (forall c :: c in u.refs ==> u.refs[c] == if c in s.refs then s.refs[c] else RefIds({}, {}))
      && u.datarefs.byId.Keys <= s.datarefs.byId.Keys
  {
    var t := AfterOpen(s, open, now);
    assert t.datarefs == s.datarefs;
    hide Inv, HandedOver, AfterOpen;
    if open.Some? {
      OpenEstablishesIff(s, open.value, now);
      if OpensNew(s, open.value) {
        NewIdHoldsNothing(s, open.value);
      }
    }
    hide OpensNew, NewId, GetsStuck, NewConnection;
    DropsKeepHeld(t);
  }

  lemma NewIdHoldsNothing(s: State, o: Open)
    requires Inv(s) && ValidOpen(o) && OpensNew(s, o)
    ensures NewId(o) !in s.refs
  {
    NewIdIsFresh(s, o);
  }

  /** The values after a round: the cells of the ids still registered, the replicas of who is connected. */
  ghost function Carried(b: Broadcast.State, u: State): Broadcast.State
    requires u.datarefs.byId.Keys <= b.cells.Keys
  {
    Broadcast.State(
      map id | id in u.datarefs.byId :: b.cells[id],
      HeldDatarefs(u),
      map c | c in u.refs :: if c in b.replicas then b.replicas[c] else map[])
  }

  lemma RoundCarries(s: State, b: Broadcast.State, open: Option<Open>, now: int)
    requires Inv(s) && HandedOver(s) && (open.Some? ==> ValidOpen(open.value)) && Linked(s, b)
    ensures var u := MulticastRound(s, open, now);
      && u.datarefs.byId.Keys <= b.cells.Keys
      && Linked(u, Carried(b, u))
      && (Broadcast.Synced(b) ==> Broadcast.Synced(Carried(b, u)))
  {
    var u := MulticastRound(s, open, now);
    RoundKeepsHeld(s, open, now);
    HeldIsListed(u);
    hide Inv, HandedOver, MulticastRound;
    CarriedLinks(s, b, u);
  }

  lemma CarriedLinks(s: State, b: Broadcast.State, u: State)
    requires Linked(s, b) && u.datarefs.byId.Keys <= s.datarefs.byId.Keys
    requires forall c :: c in u.refs ==> u.refs[c] == if c in s.refs then s.refs[c] else RefIds({}, {})
    requires forall c :: c in u.refs ==> u.refs[c].datarefs <= u.datarefs.byId.Keys
    ensures Linked(u, Carried(b, u)) && (Broadcast.Synced(b) ==> Broadcast.Synced(Carried(b, u)))
  {
  }

  lemma HeldIsListed(s: State)
    requires Inv(s)
    ensures forall c :: c in s.refs ==> s.refs[c].datarefs <= s.datarefs.byId.Keys
  {
    forall c, id | c in s.refs && id in s.refs[c].datarefs
      ensures id in s.datarefs.byId
    {
      HeldIsRegistered(s.datarefs, HeldDatarefs(s), c, id);
    }
  }

  // ---- one poll ----

  /** Client c gains the given ids, which are registered now; nothing else is gained or registered. */
  ghost predicate Gains(s: State, t: State, c: int, ids: set<int>) {
    && t.refs.Keys == s.refs.Keys
    && (forall d :: d in s.refs ==>
      t.refs[d].datarefs == if d == c then s.refs[d].datarefs + ids else s.refs[d].datarefs)
    && t.datarefs.byId.Keys == s.datarefs.byId.Keys + ids
  }

  lemma GainsInTurn(s: State, t: State, u: State, c: int, a: set<int>, b: set<int>)
    requires Gains(s, t, c, a) && Gains(t, u, c, b)
    ensures Gains(s, u, c, a + b)
  {
  }

  /** A subscription gains its client the ids of its answer. */
  lemma {:induction false} ItemsGain(s: State, c: int, items: seq<Item>)
    requires Inv(s) && c in s.refs
    ensures Gains(s, WithDatarefs(s, c, items), c, IdSet(SubscribedIds(s, c, items, OfDatarefs)))
  {
    if items != [] {
      var before, last := items[..|items| - 1], items[|items| - 1];
      var t := WithDatarefs(s, c, before);
      ItemsGain(s, c, before);
      ItemGains(t, c, last);
      var r := Registry.Subscribed(t.datarefs, last.name, last.creates).1;
      hide Inv, WithDataref, Gains, Registry.Subscribed;
      IdsAdded(SubscribedIds(s, c, before, OfDatarefs), r);
      GainsInTurn(s, t, WithDataref(t, c, last), c, IdSet(SubscribedIds(s, c, before, OfDatarefs)), if r.Some? then {r.value} else {});
    }
  }

  lemma IdsAdded(ids: seq<int>, r: Option<int>)
    ensures IdSet(ids + if r.Some? then [r.value] else []) == IdSet(ids) + if r.Some? then {r.value} else {}
  {
  }

  lemma ItemGains(s: State, c: int, item: Item)
    requires Inv(s) && c in s.refs
    ensures var r := Registry.Subscribed(s.datarefs, item.name, item.creates).1;
      Gains(s, WithDataref(s, c, item), c, if r.Some? then {r.value} else {})
  {
  }

  lemma NothingGained(s: State, c: int)
    ensures Gains(s, s, c, {})
  {
  }

  lemma {:induction false} CommandsGainNothing(s: State, c: int, items: seq<Item>)
    requires Inv(s) && c in s.refs
    ensures Gains(s, WithCommands(s, c, items), c, {})
  {
    hide Inv, WithCommand, Gains;
    if items == [] {
      NothingGained(s, c);
    } else {
      var before, last := items[..|items| - 1], items[|items| - 1];
      CommandsGainNothing(s, c, before);
      var t := WithCommands(s, c, before);
      CommandGainsNothing(t, c, last);
      var none: set<int> := {};
      assert none + none == none;
      GainsInTurn(s, t, WithCommand(t, c, last), c, none, none);
    }
  }

  lemma CommandGainsNothing(s: State, c: int, item: Item)
    requires Inv(s) && c in s.refs
    ensures Gains(s, WithCommand(s, c, item), c, {})
  {
  }

  lemma PollGains(s: State, p: Poll)
    requires Inv(s) && p.clientId in s.refs && p.clientId !in s.timedOut
    ensures Gains(s, Served(s, p), p.clientId, AnsweredIds(s, p))
  {
    hide Inv, Heard, WithDatarefs, WithCommands, SubscribedIds;
    HeardKeepsInv(s, p);
    HeardGainsNothing(s, p);
    var (t, request) := Heard(s, p);
    match request {
      case Some(SubscribeDatarefs(items)) =>
        ItemsGain(t, p.clientId, items);
        GainsInTurn(s, t, Served(s, p), p.clientId, {}, AnsweredIds(s, p));
      case Some(SubscribeCommands(items)) =>
        CommandsGainNothing(t, p.clientId, items);
        GainsInTurn(s, t, Served(s, p), p.clientId, {}, {});
      case _ =>
    }
  }

  lemma HeardGainsNothing(s: State, p: Poll)
    ensures Gains(s, Heard(s, p).0, p.clientId, {})
  {
  }

  /** The readings are those of the ids that the poll's answer confirms. */
  ghost predicate ReadingsMatch(s: State, b: Broadcast.State, p: Poll, readings: Readings)
    requires Inv(s) && p.clientId in s.refs && p.clientId !in s.timedOut && Linked(s, b)
  {
    readings.Keys == AnsweredIds(s, p) && Broadcast.ReadingsFit(b, readings)
  }

  lemma PollLinks(s: State, b: Broadcast.State, p: Poll, readings: Readings)
    requires Inv(s) && p.clientId in s.refs && p.clientId !in s.timedOut && Linked(s, b)
    requires ReadingsMatch(s, b, p, readings)
    ensures Linked(Served(s, p), Broadcast.Confirmed(b, p.clientId, readings))
  {
    hide Inv, Served, AnsweredIds, Broadcast.Confirmed, Broadcast.ReadingsFit;
    PollGains(s, p);
    GainLinks(s, Served(s, p), b, p.clientId, readings);
  }

  lemma GainLinks(s: State, u: State, b: Broadcast.State, c: int, readings: Readings)
    requires Linked(s, b) && c in s.refs && Broadcast.ReadingsFit(b, readings) && Gains(s, u, c, readings.Keys)
    ensures Linked(u, Broadcast.Confirmed(b, c, readings))
  {
    var t := Broadcast.Confirmed(b, c, readings);
    assert t.cells.Keys == b.cells.Keys + readings.Keys;
    assert t.held == b.held[c := b.held[c] + readings.Keys];
    hide Broadcast.Confirmed, Broadcast.ReadingsFit, Broadcast.Shaped;
    assert forall d: int :: d in t.held ==> t.held[d] == HeldDatarefs(u)[d];
  }

  // ---- all polls of an update ----

  /** The values after some polls, if the readings match their answers. */
  ghost function AfterPolls(s: State, b: Broadcast.State, polls: seq<Poll>, readings: seq<Readings>): (r: Option<Broadcast.State>)
    requires Inv(s) && s.timedOut == [] && Visits(polls, s.refs.Keys) && Linked(s, b)
    requires |readings| == |polls|
    ensures r.Some? ==> Linked(ServedAll(s, polls), r.value)
  {
    hide Inv, Served, Visits, Polled, Linked, ReadingsMatch, Broadcast.Confirmed;
    if polls == [] then Some(b)
    else
      PolledGrows(polls, s.refs.Keys);
      var n := |polls| - 1;
      var r := AfterPolls(s, b, polls[..n], readings[..n]);
      var t := ServedAll(s, polls[..n]);
      if r.Some? && ReadingsMatch(t, r.value, polls[n], readings[n]) then
        PollLinks(t, r.value, polls[n], readings[n]);
        Matches(t, r.value, polls[n], readings[n]);
        Some(Broadcast.Confirmed(r.value, polls[n].clientId, readings[n]))
      else None
  }

  lemma Matches(s: State, b: Broadcast.State, p: Poll, readings: Readings)
    requires Inv(s) && p.clientId in s.refs && p.clientId !in s.timedOut && Linked(s, b)
    requires ReadingsMatch(s, b, p, readings)
    ensures Broadcast.Shaped(b) && p.clientId in b.held && Broadcast.ReadingsFit(b, readings)
  {
  }

  /** No subscription of the update refreshes a value behind another holder's back. */
  ghost predicate HarmlessPolls(s: State, b: Broadcast.State, polls: seq<Poll>, readings: seq<Readings>)
    requires Inv(s) && s.timedOut == [] && Visits(polls, s.refs.Keys) && Linked(s, b)
    requires |readings| == |polls| && AfterPolls(s, b, polls, readings).Some?
  {
    hide Inv, Served, Visits, Polled, Broadcast.Harmless;
    if polls == [] then true
    else
      PolledGrows(polls, s.refs.Keys);
      var n := |polls| - 1;
      var r := AfterPolls(s, b, polls[..n], readings[..n]).value;
      && HarmlessPolls(s, b, polls[..n], readings[..n])
      && forall id :: id in readings[n] ==> Broadcast.Harmless(r, polls[n].clientId, id, readings[n][id].content)
  }

  lemma {:induction false} HarmlessKeepsSynced(s: State, b: Broadcast.State, polls: seq<Poll>, readings: seq<Readings>)
    requires Inv(s) && s.timedOut == [] && Visits(polls, s.refs.Keys) && Linked(s, b)
    requires |readings| == |polls| && AfterPolls(s, b, polls, readings).Some?
    requires HarmlessPolls(s, b, polls, readings) && Broadcast.Synced(b)
    ensures Broadcast.Synced(AfterPolls(s, b, polls, readings).value)
  {
    hide Inv, Served, Visits, Polled, Broadcast.Harmless, Broadcast.Synced, Broadcast.Confirmed;
    if polls != [] {
      PolledGrows(polls, s.refs.Keys);
      var n := |polls| - 1;
      HarmlessKeepsSynced(s, b, polls[..n], readings[..n]);
      Broadcast.ConfirmKeepsSyncedIff(AfterPolls(s, b, polls[..n], readings[..n]).value, polls[n].clientId, readings[n]);
    }
  }

  // ---- whole updates and runs ----

  /** One update: its session input, what X-Plane holds at each answer, and at the announcement. */
  datatype Update = Update(session: Input, readings: seq<Readings>, contents: map<int, seq<int>>)

  ghost predicate Good(v: Server) {
    Inv(v.session) && HandedOver(v.session) && Linked(v.session, v.values)
  }

  /** The values just before the announcement, if the update's inputs fit the server. */
  ghost function BeforeAnnouncement(v: Server, i: Update): (r: Option<Broadcast.State>)
    requires Good(v)
    ensures r.Some? ==> Enabled(v.session, i.session)
    ensures r.Some? ==> Linked(Updated(v.session, i.session), r.value) && Broadcast.FitsAll(r.value, i.contents)
  {
    hide Inv, HandedOver, Linked, Broadcast.FitsAll;
    if !Enabled(v.session, i.session) || |i.readings| != |i.session.polls| then None
    else
      RoundCarries(v.session, v.values, i.session.open, i.session.now);
      var u := MulticastRound(v.session, i.session.open, i.session.now);
      var r := AfterPolls(u, Carried(v.values, u), i.session.polls, i.readings);
      if r.Some? && Broadcast.FitsAll(r.value, i.contents) then r else None
  }

  /** Server::update */
  ghost function Next(v: Server, i: Update): (w: Server)
    requires Good(v) && BeforeAnnouncement(v, i).Some?
    ensures Good(w)
  {
    var b := BeforeAnnouncement(v, i).value;
    hide Inv, HandedOver;
    AnnouncementLinks(Updated(v.session, i.session), b, i.contents);
    Server(Updated(v.session, i.session), Broadcast.Announced(b, i.contents))
  }

  lemma AnnouncementLinks(s: State, b: Broadcast.State, contents: map<int, seq<int>>)
    requires Linked(s, b) && Broadcast.FitsAll(b, contents)
    ensures Broadcast.Shaped(b) && Linked(s, Broadcast.Announced(b, contents))
  {
  }

  /** The server after a run of updates from its start; inputs that do not fit are skipped. */
  ghost function Running(inputs: seq<Update>): (v: Server)
    ensures Good(v)
  {
    if inputs == [] then
      assert Run([]) == START;
      IDLE
    else
      var v, i := Running(inputs[..|inputs| - 1]), inputs[|inputs| - 1];
      if BeforeAnnouncement(v, i).Some? then Next(v, i) else v
  }

  /** The session inputs of the updates that were not skipped. */
  ghost function SessionInputs(inputs: seq<Update>): seq<Input> {
    if inputs == [] then []
    else
      var v, i := Running(inputs[..|inputs| - 1]), inputs[|inputs| - 1];
      SessionInputs(inputs[..|inputs| - 1]) + if BeforeAnnouncement(v, i).Some? then [i.session] else []
  }

  /** What is proved of the sessions holds here: the session part is a run of them. */
  lemma {:induction false} SessionIsRun(inputs: seq<Update>)
    ensures Running(inputs).session == Run(SessionInputs(inputs))
  {
    hide Run, Inv, HandedOver, Enabled, Good, BeforeAnnouncement;
    if inputs == [] {
      RunsFromStart();
    } else {
      var v, i := Running(inputs[..|inputs| - 1]), inputs[|inputs| - 1];
      SessionIsRun(inputs[..|inputs| - 1]);
      assert SessionInputs(inputs[..|inputs| - 1]) + [] == SessionInputs(inputs[..|inputs| - 1]);
      RunStep(SessionInputs(inputs[..|inputs| - 1]), i.session);
    }
  }

  // ---- delta broadcast ----

  /** No answer of the update refreshes silently, and no array loses a reset at its announcement. */
  ghost predicate Quiet(v: Server, i: Update)
    requires Good(v) && BeforeAnnouncement(v, i).Some?
  {
    hide Inv, HandedOver;
    RoundCarries(v.session, v.values, i.session.open, i.session.now);
    var u, b := MulticastRound(v.session, i.session.open, i.session.now), BeforeAnnouncement(v, i).value;
    && HarmlessPolls(u, Carried(v.values, u), i.session.polls, i.readings)
    && forall c, id :: c in b.held && id in b.held[c] ==> !Broadcast.LosesReset(b.cells[id], i.contents[id])
  }

  ghost predicate QuietRun(inputs: seq<Update>) {
    inputs != [] ==>
      var v, i := Running(inputs[..|inputs| - 1]), inputs[|inputs| - 1];
      QuietRun(inputs[..|inputs| - 1]) && (BeforeAnnouncement(v, i).Some? ==> Quiet(v, i))
  }

  lemma QuietKeepsSynced(v: Server, i: Update)
    requires Good(v) && BeforeAnnouncement(v, i).Some? && Quiet(v, i) && Broadcast.Synced(v.values)
    ensures var b := BeforeAnnouncement(v, i).value;
      && Broadcast.Synced(Next(v, i).values) && Broadcast.UpToDate(Next(v, i).values)
      && Next(v, i).values == Broadcast.FullyAnnounced(b, i.contents)
  {
    var b := BeforeAnnouncement(v, i).value;
    hide Inv, HandedOver;
    RoundCarries(v.session, v.values, i.session.open, i.session.now);
    var u := MulticastRound(v.session, i.session.open, i.session.now);
    HarmlessKeepsSynced(u, Carried(v.values, u), i.session.polls, i.readings);
    hide AfterPolls, HarmlessPolls, Broadcast.LosesReset, Broadcast.Announced;
    assert Broadcast.Synced(b);
    Broadcast.AnnouncementIsExactIff(b, i.contents);
    Broadcast.AnnouncedCaches(b, i.contents);
    Broadcast.DeltaIsFullIff(b, i.contents);
  }

  lemma {:induction false} QuietRunSynced(inputs: seq<Update>)
    requires QuietRun(inputs)
    ensures Broadcast.Synced(Running(inputs).values)
  {
    hide Good, Inv, HandedOver, BeforeAnnouncement, Quiet;
    if inputs != [] {
      var v, i := Running(inputs[..|inputs| - 1]), inputs[|inputs| - 1];
      QuietRunSynced(inputs[..|inputs| - 1]);
      if BeforeAnnouncement(v, i).Some? {
        QuietKeepsSynced(v, i);
      }
    }
  }

  /** Client c knows the sample of id. */
  ghost predicate Knows(v: Server, c: int, id: int) {
    c in v.values.replicas && id in v.values.replicas[c] && id in v.values.cells
    && v.values.replicas[c][id] == v.values.cells[id].newValue
  }

  /** Client c knows of id what X-Plane holds: all that was read, and everything if it has the cell's size. */
  ghost predicate KnowsContent(v: Server, c: int, id: int, content: seq<int>) {
    Knows(v, c, id) &&
    var known, cell := v.values.replicas[c][id], v.values.cells[id];
    && (forall j :: 0 <= j < |known| && j < |content| ==> known[j] == content[j])
    && (cell.kind.Scalar? || |content| == cell.size ==> known == content)
  }

  ghost predicate EveryHolderKnows(v: Server, contents: map<int, seq<int>>) {
    forall c, id :: c in v.session.refs && id in v.session.refs[c].datarefs ==>
      id in contents && KnowsContent(v, c, id, contents[id])
  }

  lemma SampleIsContent(b: Broadcast.State, contents: map<int, seq<int>>, id: int)
    requires Broadcast.Shaped(b) && Broadcast.FitsAll(b, contents) && id in b.cells
    ensures var cell := Broadcast.Announced(b, contents).cells[id];
      && cell.newValue == Sampled(b.cells[id], contents[id]).newValue
      && (forall j :: 0 <= j < |cell.newValue| && j < |contents[id]| ==> cell.newValue[j] == contents[id][j])
      && (cell.kind.Scalar? || |contents[id]| == cell.size ==> cell.newValue == contents[id])
  {
    SampleIsRead(b.cells[id], contents[id]);
    ChangedCaches(Sampled(b.cells[id], contents[id]));
  }

  /**
    Delta broadcast refines full broadcast: in every run of updates without silent refreshes and lost
    resets, each update ends as if every client had been told everything it holds, and every connected
    client knows what X-Plane holds of every dataref it holds.
  */
  lemma DeltaRefinesFull(inputs: seq<Update>, i: Update)
    requires QuietRun(inputs + [i]) && BeforeAnnouncement(Running(inputs), i).Some?
    ensures var v, w := Running(inputs), Running(inputs + [i]);
      && w.values == Broadcast.FullyAnnounced(BeforeAnnouncement(v, i).value, i.contents)
      && EveryHolderKnows(w, i.contents)
  {
    var v, w := Running(inputs), Running(inputs + [i]);
    QuietRunSplits(inputs, i);
    QuietRunSynced(inputs);
    QuietKeepsSynced(v, i);
    hide Quiet, BeforeAnnouncement, Inv, HandedOver, QuietRun, Running, Enabled, Linked, Broadcast.Announced, EveryHolderKnows;
    HoldersKnow(Updated(v.session, i.session), BeforeAnnouncement(v, i).value, i.contents);
  }

  lemma QuietRunSplits(inputs: seq<Update>, i: Update)
    requires QuietRun(inputs + [i]) && BeforeAnnouncement(Running(inputs), i).Some?
    ensures QuietRun(inputs) && Quiet(Running(inputs), i) && Running(inputs + [i]) == Next(Running(inputs), i)
  {
    hide Quiet, BeforeAnnouncement, Inv, HandedOver, Next, Good;
    assert (inputs + [i])[..|inputs + [i]| - 1] == inputs;
  }

  lemma HoldersKnow(s: State, b: Broadcast.State, contents: map<int, seq<int>>)
    requires Linked(s, b) && Broadcast.FitsAll(b, contents) && Broadcast.UpToDate(Broadcast.Announced(b, contents))
    ensures EveryHolderKnows(Server(s, Broadcast.Announced(b, contents)), contents)
  {
    hide Sampled;
    var t := Broadcast.Announced(b, contents);
    assert t.held == b.held && t.cells.Keys == b.cells.Keys;
    hide Broadcast.Announced;
    forall c, id | c in s.refs && id in s.refs[c].datarefs
      ensures id in contents && KnowsContent(Server(s, t), c, id, contents[id])
    {
      HoldersHaveCells(s, b, c, id);
      SampleIsContent(b, contents, id);
    }
  }

  lemma HoldersHaveCells(s: State, b: Broadcast.State, c: int, id: int)
    requires Linked(s, b) && c in s.refs && id in s.refs[c].datarefs
    ensures c in b.held && id in b.held[c] && id in b.cells
  {
    assert id in HeldDatarefs(s)[c];
  }
}
