/** Two short runs of the server after which a connected client holds a value that is not the current one. */
module StaleRuns {
  import opened Common
  import opened DataRefs
  import Registry
  import opened RefCounts
  import opened Sessions
  import opened SessionRuns
  import opened Updates
  import opened Broadcast

  const X := Item("x", true)

  /** The open requests of two cockpits, and the client ids drawn for them. */
  const OPEN_A := Open(0, 1, 1, true, true)
  const OPEN_B := Open(0, 2, 1, true, true)
  const A := TWO32 + 1
  const B := TWO32 + 2

  function Subscribing(c: int): Poll {
    Poll(c, 0, Datagram(Some(SubscribeDatarefs([X]))))
  }

  function Beating(c: int): Poll {
    Poll(c, 0, Datagram(Some(Other)))
  }

  // ---- single steps ----

  /** A session opens on a server on which nothing has timed out. */
  lemma Opens(s: Sessions.State, o: Open)
    requires Inv(s) && HandedOver(s) && ValidOpen(o) && OpensNew(s, o) && s.timedOut == []
    ensures var u := MulticastRound(s, Some(o), 0);
      && u.refs == s.refs[NewId(o) := RefIds({}, {})] && u.udp == s.udp[NewId(o) := NewConnection(o, 0)]
      && u.multicast == s.multicast && u.datarefs == s.datarefs
  {
    var t := AfterOpen(s, Some(o), 0);
    assert t.datarefs == s.datarefs;
    OnlyOneKind(s, o);
    hide Inv, HandedOver, AfterOpen, OpensNew, GetsStuck, NewId, NewConnection;
    OpenEstablishesIff(s, o, 0);
    OpenKeepsTimedOut(s, Some(o), 0);
  }

  lemma OnlyOneKind(s: Sessions.State, o: Open)
    ensures OpensNew(s, o) ==> !GetsStuck(s, o)
  {
  }

  ghost predicate Listening(s: Sessions.State, c: int) {
    c in s.refs && c in s.udp && s.udp[c].rxOpen && s.udp[c].clientId == c && c !in s.timedOut
  }

  /** A listening client subscribes "x". */
  lemma Subscribes(s: Sessions.State, c: int)
    requires Inv(s) && Listening(s, c)
    ensures var t := Served(s, Subscribing(c));
      var (reg, r) := Registry.Subscribed(s.datarefs, "x", true);
      && r.Some? && AnsweredIds(s, Subscribing(c)) == {r.value}
      && t.datarefs == reg && t.timedOut == s.timedOut && t.multicast == s.multicast
      && t.refs == s.refs[c := s.refs[c].(datarefs := s.refs[c].datarefs + {r.value})]
      && Heard(s, Subscribing(c)).0.udp == t.udp
  {
    hide Inv, Heard, Registry.Subscribed, WithDataref, SubscribedIds;
    var p := Subscribing(c);
    HeardKeepsInv(s, p);
    HearsX(s, c);
    var (t, request) := Heard(s, p);
    OneItem(t, c);
  }

  lemma HearsX(s: Sessions.State, c: int)
    requires Inv(s) && Listening(s, c)
    ensures var (t, request) := Heard(s, Subscribing(c));
      && request == Some(SubscribeDatarefs([X])) && t.datarefs == s.datarefs && t.refs == s.refs
      && t.timedOut == s.timedOut && t.multicast == s.multicast
  {
    hide Inv;
  }

  lemma OneItem(t: Sessions.State, c: int)
    requires Inv(t) && c in t.refs
    ensures var u := WithDatarefs(t, c, [X]);
      var (reg, r) := Registry.Subscribed(t.datarefs, "x", true);
      && r.Some? && IdSet(SubscribedIds(t, c, [X], OfDatarefs)) == {r.value}
      && u == t.(datarefs := reg, refs := t.refs[c := t.refs[c].(datarefs := t.refs[c].datarefs + {r.value})])
  {
    AlwaysSome(t);
    hide Inv, Registry.Subscribed, Registry.WellFormed;
    assert [X][..0] == [];
    assert WithDatarefs(t, c, []) == t;
    assert SubscribedIds(t, c, [], OfDatarefs) == [];
  }

  lemma AlwaysSome(t: Sessions.State)
    requires Inv(t)
    ensures Registry.Subscribed(t.datarefs, "x", true).1.Some?
  {
  }

  lemma Beats(s: Sessions.State, c: int)
    requires Inv(s) && Listening(s, c)
    ensures var t := Served(s, Beating(c));
      && AnsweredIds(s, Beating(c)) == {}
      && t == s.(udp := s.udp[c := s.udp[c].(latestRx := 0, timedOut := false)])
  {
  }

  lemma StillListening(s: Sessions.State, p: Poll, c: int)
    requires Inv(s) && p.clientId in s.refs && p.clientId !in s.timedOut && Listening(s, c)
    requires p.outcome.Datagram? && Listening(s, p.clientId)
    ensures Listening(Heard(s, p).0, c)
  {
  }

  lemma NoPolls(s: Sessions.State, b: Broadcast.State)
    requires Inv(s) && s.timedOut == [] && Linked(s, b)
    ensures ServedAll(s, []) == s && AfterPolls(s, b, [], []) == Some(b)
  {
  }

  lemma OneMoreVisit(polls: seq<Poll>, clients: set<int>, p: Poll)
    requires Visits(polls, clients) && p.clientId in clients && p.clientId !in Polled(polls)
    ensures Visits(polls + [p], clients)
  {
    forall i | 0 <= i < |polls|
      ensures polls[i].clientId != p.clientId
    {
      assert polls[i] in polls;
    }
  }

  lemma OneMoreServed(s: Sessions.State, polls: seq<Poll>, p: Poll)
    requires Inv(s) && s.timedOut == [] && Visits(polls, s.refs.Keys) && Visits(polls + [p], s.refs.Keys)
    requires p.clientId in s.refs && p.clientId !in Polled(polls)
    ensures ServedAll(s, polls + [p]) == Served(ServedAll(s, polls), p)
  {
    hide Inv, Served, Visits, Polled;
    assert (polls + [p])[..|polls + [p]| - 1] == polls;
  }

  lemma OneMorePoll(s: Sessions.State, b: Broadcast.State, polls: seq<Poll>, readings: seq<Readings>, p: Poll, r: Readings)
    requires Inv(s) && s.timedOut == [] && Linked(s, b) && |polls| == |readings|
    requires Visits(polls, s.refs.Keys) && Visits(polls + [p], s.refs.Keys)
    requires p.clientId in s.refs && p.clientId !in Polled(polls)
    requires AfterPolls(s, b, polls, readings).Some?
    requires ReadingsMatch(ServedAll(s, polls), AfterPolls(s, b, polls, readings).value, p, r)
    ensures AfterPolls(s, b, polls + [p], readings + [r]) ==
      Some(Confirmed(AfterPolls(s, b, polls, readings).value, p.clientId, r))
  {
    hide Inv, Served, ReadingsMatch, Confirmed, Linked, Visits, Polled, ServedAll;
    assert (polls + [p])[..|polls + [p]| - 1] == polls && (readings + [r])[..|readings + [r]| - 1] == readings;
  }

  lemma UpdateFits(v: Server, i: Update)
    requires Good(v) && Enabled(v.session, i.session) && |i.readings| == |i.session.polls|
    requires var u := MulticastRound(v.session, i.session.open, i.session.now);
      && u.datarefs.byId.Keys <= v.values.cells.Keys && Linked(u, Carried(v.values, u))
      && AfterPolls(u, Carried(v.values, u), i.session.polls, i.readings).Some?
      && FitsAll(AfterPolls(u, Carried(v.values, u), i.session.polls, i.readings).value, i.contents)
    ensures var u := MulticastRound(v.session, i.session.open, i.session.now);
      BeforeAnnouncement(v, i) == AfterPolls(u, Carried(v.values, u), i.session.polls, i.readings)
  {
    hide Inv, HandedOver, MulticastRound, AfterPolls, Carried, Linked, FitsAll;
  }

  // ---- one cockpit ----

  /** The first cockpit connects and subscribes "x", of which X-Plane holds `reading` and then `later`. */
  function First(reading: Reading, later: seq<int>): Update {
    Update(Input(Some(OPEN_A), 0, [Subscribing(A)]), [map[0 := reading]], map[0 := later])
  }

  const ONE_NAME := Registry.State(1, map["x" := 0], map[0 := Registry.Entry("x", 1)])

  function FirstValues(reading: Reading): Broadcast.State
    requires Fits(NewCell(reading.kind), reading.content)
  {
    var cell := Refreshed(NewCell(reading.kind), reading.content);
    Broadcast.State(map[0 := cell], map[A := {0}], map[A := map[0 := cell.newValue]])
  }

  lemma StartOpens()
    ensures OpensNew(START, OPEN_A) && NewId(OPEN_A) == A && ValidOpen(OPEN_A)
  {
  }

  lemma FirstRound()
    requires Inv(START) && HandedOver(START)
    ensures var u := MulticastRound(START, Some(OPEN_A), 0);
      && u.refs == map[A := RefIds({}, {})] && u.udp == map[A := NewConnection(OPEN_A, 0)]
      && u.multicast == map[] && u.datarefs == Registry.EMPTY && Listening(u, A)
  {
    StartOpens();
    hide Inv, HandedOver, OpensNew;
    Opens(START, OPEN_A);
  }

  lemma FirstSubscription()
    ensures Registry.Subscribed(Registry.EMPTY, "x", true) == (ONE_NAME, Some(0))
  {
  }

  lemma FirstConfirmed(reading: Reading)
    requires Fits(NewCell(reading.kind), reading.content)
    ensures var b := Broadcast.State(map[], map[A := {}], map[A := map[]]);
      ReadingsFit(b, map[0 := reading]) && Confirmed(b, A, map[0 := reading]) == FirstValues(reading)
  {
    var b := Broadcast.State(map[], map[A := {}], map[A := map[]]);
    hide Refreshed, Fits;
    var cell := Refreshed(NewCell(reading.kind), reading.content);
    assert RefreshedCells(b, map[0 := reading]) == map[0 := cell];
    assert NewValues(map[0 := cell]) == map[0 := cell.newValue];
    assert map[] + map[0 := cell] == map[0 := cell] && map[] + map[0 := cell.newValue] == map[0 := cell.newValue];
    assert {} + map[0 := reading].Keys == {0};
  }

  lemma FirstPoll(u: Sessions.State, b: Broadcast.State, reading: Reading)
    requires Inv(u) && u.timedOut == [] && Linked(u, b)
    requires u.refs == map[A := RefIds({}, {})] && u.udp == map[A := NewConnection(OPEN_A, 0)]
    requires u.multicast == map[] && u.datarefs == Registry.EMPTY && Listening(u, A)
    requires b == Broadcast.State(map[], map[A := {}], map[A := map[]])
    requires Fits(NewCell(reading.kind), reading.content)
    ensures Visits([Subscribing(A)], u.refs.Keys)
    ensures var t := ServedAll(u, [Subscribing(A)]);
      && t.refs == map[A := RefIds({0}, {})] && t.datarefs == ONE_NAME && t.multicast == map[]
      && t.timedOut == [] && Listening(t, A)
    ensures AfterPolls(u, b, [Subscribing(A)], [map[0 := reading]]) == Some(FirstValues(reading))
  {
    hide Inv, Served, AnsweredIds, Confirmed, AfterPolls, FirstValues, Linked, Shaped, Listening, ReadingsFit, Fits;
    var p, r := Subscribing(A), map[0 := reading];
    FirstServed(u);
    FirstConfirmed(reading);
    assert [] + [p] == [p] && [] + [r] == [r];
    NoPolls(u, b);
    OneMoreVisit([], u.refs.Keys, p);
    OneMoreServed(u, [], p);
    OneMorePoll(u, b, [], [], p, r);
  }

  lemma FirstServed(u: Sessions.State)
    requires Inv(u) && u.timedOut == [] && u.multicast == map[] && u.datarefs == Registry.EMPTY && Listening(u, A)
    requires u.refs == map[A := RefIds({}, {})]
    ensures AnsweredIds(u, Subscribing(A)) == {0}
    ensures var t := Served(u, Subscribing(A));
      && t.refs == map[A := RefIds({0}, {})] && t.datarefs == ONE_NAME && t.multicast == map[]
      && t.timedOut == [] && Listening(t, A)
  {
    hide Inv, Served, AnsweredIds, Heard, Registry.Subscribed;
    Subscribes(u, A);
    FirstSubscription();
    StillListening(u, Subscribing(A), A);
    assert u.refs[A].datarefs + {0} == {0} && u.refs[A := RefIds({0}, {})] == map[A := RefIds({0}, {})];
  }

  /** The first cockpit is connected and holds "x". */
  ghost predicate OneCockpit(s: Sessions.State) {
    && s.refs == map[A := RefIds({0}, {})] && s.datarefs == ONE_NAME && s.multicast == map[]
    && s.timedOut == [] && Listening(s, A)
  }

  lemma FirstUpdate(reading: Reading, later: seq<int>)
    requires Fits(NewCell(reading.kind), reading.content) && Fits(NewCell(reading.kind), later)
    ensures Running([]) == IDLE
    ensures BeforeAnnouncement(IDLE, First(reading, later)) == Some(FirstValues(reading))
    ensures OneCockpit(Updated(START, First(reading, later).session))
  {
    hide Inv, HandedOver, MulticastRound, AfterPolls, Linked, ServedAll, Visits, Good, Running, OpensNew, NewId, NewConnection;
    var i := First(reading, later);
    StartsIdle();
    RoundCarries(START, IDLE.values, Some(OPEN_A), 0);
    FirstRound();
    StartOpens();
    var u := MulticastRound(START, Some(OPEN_A), 0);
    assert Carried(IDLE.values, u) == Broadcast.State(map[], map[A := {}], map[A := map[]]);
    hide Carried;
    FirstPoll(u, Carried(IDLE.values, u), reading);
    assert Polled(i.session.polls) == {A};
    assert FitsAll(FirstValues(reading), i.contents);
    hide FirstValues, FitsAll, BeforeAnnouncement;
    UpdateFits(IDLE, i);
  }

  lemma StartsIdle()
    ensures Running([]) == IDLE && Good(IDLE)
    ensures Inv(START) && HandedOver(START) && Linked(START, IDLE.values)
  {
    var v := Running([]);
  }

  /** The server after the first update alone. */
  lemma AfterFirst(reading: Reading, later: seq<int>)
    requires Fits(NewCell(reading.kind), reading.content) && Fits(NewCell(reading.kind), later)
    ensures FitsAll(FirstValues(reading), map[0 := later]) && Shaped(FirstValues(reading))
    ensures var w := Running([First(reading, later)]);
      && w.values == Announced(FirstValues(reading), map[0 := later])
      && OneCockpit(w.session)
  {
    FirstUpdate(reading, later);
    assert [First(reading, later)][..0] == [];
    hide Inv, HandedOver, BeforeAnnouncement, Updated, Announced, FirstValues;
    assert Running([First(reading, later)]) == Next(IDLE, First(reading, later));
  }

  /** The counterexample: an array without data when it is subscribed, whose first data are zeros. */
  lemma ZerosAreLost()
    ensures var w := Running([First(Reading(Ints, []), [0])]);
      && A in w.session.refs && 0 in w.session.refs[A].datarefs && !Knows(w, A, 0)
      && LosesReset(FirstValues(Reading(Ints, [])).cells[0], [0])
  {
    var reading := Reading(Ints, []);
    AfterFirst(reading, [0]);
    hide Running, Inv;
    EmptyCell();
    var b := FirstValues(reading);
    AnnouncedTo(b, map[0 := [0]], A, 0);
  }

  lemma EmptyCell()
    ensures var cell := Refreshed(NewCell(Ints), []);
      && cell == Cell(Ints, [], [], 0) && Sampled(cell, [0]) == Cell(Ints, [0], [0], 1) && Zeros(1) == [0]
  {
  }

  // ---- two cockpits ----

  /** The second cockpit connects and subscribes "x" too, which has changed from 5 to 6 in the meantime. */
  const SECOND := Update(
    Input(Some(OPEN_B), 0, [Beating(A), Subscribing(B)]), [map[], map[0 := Reading(Scalar, [6])]], map[0 := [6]])

  const FIVE := Cell(Scalar, [5], [5], 0)
  const SIX := Cell(Scalar, [6], [6], 0)

  const BEFORE := Broadcast.State(map[0 := FIVE], map[A := {0}, B := {}], map[A := map[0 := [5]], B := map[]])
  const AFTER := Broadcast.State(map[0 := SIX], map[A := {0}, B := {0}], map[A := map[0 := [5]], B := map[0 := [6]]])

  lemma Fives()
    ensures Refreshed(NewCell(Scalar), [5]) == FIVE && Refreshed(FIVE, [5]) == FIVE && Refreshed(FIVE, [6]) == SIX
    ensures Changed(Sampled(FIVE, [5])).1 == None && Sampled(SIX, [6]) == SIX
  {
  }

  lemma FirstIsFive()
    ensures FirstValues(Reading(Scalar, [5])) == Broadcast.State(map[0 := FIVE], map[A := {0}], map[A := map[0 := [5]]])
  {
    Fives();
    hide Refreshed;
  }

  lemma FiveStays()
    ensures var b := Broadcast.State(map[0 := FIVE], map[A := {0}], map[A := map[0 := [5]]]);
      Shaped(b) && FitsAll(b, map[0 := [5]]) && Announced(b, map[0 := [5]]) == b
  {
    Fives();
    var b := Broadcast.State(map[0 := FIVE], map[A := {0}], map[A := map[0 := [5]]]);
    hide Refreshed, Changed, Sampled;
    assert ChangedValues(b.cells, map[0 := [5]]) == map[];
    assert DataFor({0}, map[]) == map[];
    var t := Announced(b, map[0 := [5]]);
    assert t.cells == b.cells;
    assert map[0 := [5]] + map[] == map[0 := [5]];
    assert forall c: int :: c in t.replicas ==> t.replicas[c] == b.replicas[c];
    assert t.replicas.Keys == b.replicas.Keys;
  }

  lemma SecondOpens(s: Sessions.State)
    requires Inv(s) && OneCockpit(s)
    ensures OpensNew(s, OPEN_B) && NewId(OPEN_B) == B && ValidOpen(OPEN_B)
  {
    assert A % TWO32 == 1;
    assert s.udp.Keys == {A};
  }

  ghost predicate TwoCockpits(u: Sessions.State) {
    && u.refs == map[A := RefIds({0}, {}), B := RefIds({}, {})] && u.datarefs == ONE_NAME
    && u.timedOut == [] && Listening(u, A) && Listening(u, B)
  }

  lemma SecondRound(s: Sessions.State)
    requires Inv(s) && HandedOver(s) && OneCockpit(s)
    ensures ValidOpen(OPEN_B) && TwoCockpits(MulticastRound(s, Some(OPEN_B), 0))
  {
    SecondOpens(s);
    hide Inv, HandedOver, OpensNew, MulticastRound;
    Opens(s, OPEN_B);
  }

  lemma BeforeIsShaped()
    ensures Shaped(BEFORE) && ReadingsFit(BEFORE, map[]) && ReadingsFit(BEFORE, map[0 := Reading(Scalar, [6])])
  {
  }

  lemma BeatConfirmsNothing()
    requires Shaped(BEFORE) && ReadingsFit(BEFORE, map[])
    ensures Confirmed(BEFORE, A, map[]) == BEFORE
  {
    hide Shaped, ReadingsFit;
    var none: Readings := map[];
    assert none.Keys == {} && RefreshedCells(BEFORE, none) == map[] && NewValues(map[]) == map[];
    assert map[0 := FIVE] + map[] == map[0 := FIVE] && {0} + {} == {0} && map[0 := [5]] + map[] == map[0 := [5]];
    assert BEFORE.held[A := {0}] == BEFORE.held && BEFORE.replicas[A := map[0 := [5]]] == BEFORE.replicas;
  }

  lemma SecondConfirmed()
    requires Shaped(BEFORE) && ReadingsFit(BEFORE, map[0 := Reading(Scalar, [6])])
    ensures Confirmed(BEFORE, B, map[0 := Reading(Scalar, [6])]) == AFTER
  {
    var readings := map[0 := Reading(Scalar, [6])];
    Fives();
    hide Refreshed, Shaped, ReadingsFit;
    assert RefreshedCells(BEFORE, readings) == map[0 := SIX];
    assert NewValues(map[0 := SIX]) == map[0 := [6]];
    assert map[0 := FIVE] + map[0 := SIX] == map[0 := SIX] && map[] + map[0 := [6]] == map[0 := [6]];
    assert {} + readings.Keys == {0};
    assert BEFORE.held[B := {0}] == AFTER.held && BEFORE.replicas[B := map[0 := [6]]] == AFTER.replicas;
  }

  lemma SecondSubscription()
    ensures Registry.WellFormed(ONE_NAME) && Registry.Subscribed(ONE_NAME, "x", true).1 == Some(0)
  {
  }

  lemma SecondPolls(u: Sessions.State)
    requires Inv(u) && TwoCockpits(u) && Linked(u, BEFORE)
    ensures Visits(SECOND.session.polls, u.refs.Keys)
    ensures AfterPolls(u, BEFORE, SECOND.session.polls, SECOND.readings) == Some(AFTER)
    ensures var t := ServedAll(u, SECOND.session.polls);
      A in t.refs && t.refs[A] == RefIds({0}, {})
  {
    hide Inv, Served, AnsweredIds, Confirmed, AfterPolls, Linked, Shaped, ReadingsFit, ServedAll, Listening;
    var p, q := Beating(A), Subscribing(B);
    var r, r' := map[], map[0 := Reading(Scalar, [6])];
    SecondServed(u);
    BeforeIsShaped();
    BeatConfirmsNothing();
    SecondConfirmed();
    NoPolls(u, BEFORE);
    OneMoreVisit([], u.refs.Keys, p);
    OneMoreServed(u, [], p);
    OneMorePoll(u, BEFORE, [], [], p, r);
    assert [] + [p] == [p] && [] + [r] == [r] && [p] + [q] == SECOND.session.polls && [r] + [r'] == SECOND.readings;
    OneMoreVisit([p], u.refs.Keys, q);
    OneMoreServed(u, [p], q);
    OneMorePoll(u, BEFORE, [p], [r], q, r');
  }

  lemma SecondServed(u: Sessions.State)
    requires Inv(u) && TwoCockpits(u)
    ensures AnsweredIds(u, Beating(A)) == {}
    ensures var t := Served(u, Beating(A));
      && B in t.refs && B !in t.timedOut && AnsweredIds(t, Subscribing(B)) == {0}
      && A in Served(t, Subscribing(B)).refs && Served(t, Subscribing(B)).refs[A] == RefIds({0}, {})
  {
    Beats(u, A);
    hide Inv, AnsweredIds, Heard, Registry.Subscribed;
    var t := Served(u, Beating(A));
    assert Listening(t, B);
    hide Served;
    Subscribes(t, B);
    SecondSubscription();
  }

  lemma FiveCarries(u: Sessions.State)
    requires TwoCockpits(u)
    ensures Carried(Broadcast.State(map[0 := FIVE], map[A := {0}], map[A := map[0 := [5]]]), u) == BEFORE
  {
    hide Listening;
    var b := Broadcast.State(map[0 := FIVE], map[A := {0}], map[A := map[0 := [5]]]);
    var t := Carried(b, u);
    assert u.datarefs.byId.Keys == {0};
    assert t.cells == BEFORE.cells;
    TwoHold(u);
    TwoHeard(u, b.replicas);
  }

  lemma TwoHold(u: Sessions.State)
    requires u.refs == map[A := RefIds({0}, {}), B := RefIds({}, {})]
    ensures HeldDatarefs(u) == map[A := {0}, B := {}]
  {
    assert forall c: int :: c in HeldDatarefs(u) <==> c == A || c == B;
  }

  lemma TwoHeard(u: Sessions.State, replicas: map<int, map<int, seq<int>>>)
    requires u.refs == map[A := RefIds({0}, {}), B := RefIds({}, {})] && replicas == map[A := map[0 := [5]]]
    ensures (map c | c in u.refs :: if c in replicas then replicas[c] else map[]) == map[A := map[0 := [5]], B := map[]]
  {
    var t := map c | c in u.refs :: if c in replicas then replicas[c] else map[];
    assert forall c: int :: c in t <==> c == A || c == B;
  }

  lemma SecondUpdate(v: Server)
    requires Good(v) && OneCockpit(v.session)
    requires v.values == Broadcast.State(map[0 := FIVE], map[A := {0}], map[A := map[0 := [5]]])
    ensures BeforeAnnouncement(v, SECOND) == Some(AFTER) && FitsAll(AFTER, SECOND.contents)
    ensures var t := Updated(v.session, SECOND.session);
      A in t.refs && t.refs[A] == RefIds({0}, {})
  {
    hide Inv, HandedOver, MulticastRound, AfterPolls, Linked, ServedAll, Visits, Carried, Listening, BeforeAnnouncement;
    var s := v.session;
    SecondRound(s);
    RoundCarries(s, v.values, Some(OPEN_B), 0);
    var u := MulticastRound(s, Some(OPEN_B), 0);
    FiveCarries(u);
    SecondPolls(u);
    assert Polled(SECOND.session.polls) == {A, B};
    UpdateFits(v, SECOND);
  }

  lemma RunTwo(i: Update, j: Update)
    requires BeforeAnnouncement(Running([i]), j).Some?
    ensures Running([i, j]) == Next(Running([i]), j)
  {
    hide Inv, HandedOver, BeforeAnnouncement, Good, Next;
    assert [i, j][..1] == [i];
  }

  /** The counterexample: the second cockpit's subscription moves the value to 6, and the first still has 5. */
  lemma FirstCockpitIsStale()
    ensures var w := Running([First(Reading(Scalar, [5]), [5]), SECOND]);
      A in w.session.refs && 0 in w.session.refs[A].datarefs && !Knows(w, A, 0)
  {
    hide Running, Inv, HandedOver, BeforeAnnouncement, Updated, First, FirstValues, Announced, Good, Shaped, FitsAll;
    var first := First(Reading(Scalar, [5]), [5]);
    var v := Running([first]);
    AfterFirst(Reading(Scalar, [5]), [5]);
    FirstIsFive();
    FiveStays();
    SecondUpdate(v);
    RunTwo(first, SECOND);
    StillFive(Next(v, SECOND));
  }

  lemma StillFive(w: Server)
    requires Shaped(AFTER) && FitsAll(AFTER, SECOND.contents) && w.values == Announced(AFTER, SECOND.contents)
    ensures !Knows(w, A, 0)
  {
    hide Announced, Sampled;
    AnnouncedTo(AFTER, SECOND.contents, A, 0);
    Fives();
  }
}
