/**
  The plugin server's sessions as one value: the connections of the multicast and of the UDP
  controller, the package-to-client map, the timed-out list, the ids each client holds and the two
  registries. Datagrams, random draws, socket results and clock readings are inputs.
*/
module Sessions {
  import opened Common
  import Registry
  import opened RefCounts

  const TWO32: int := 0x1_0000_0000
  const TIMEOUT_MS := 5000

  datatype Link = Disconnected | BothConnected | Expired

  datatype Connection = Connection(
    clientId: int, packageId: int, rxOpen: bool, link: Link, timedOut: bool, latestRx: int)

  datatype RefIds = RefIds(datarefs: set<int>, cmdrefs: set<int>)

  datatype State = State(
    multicast: map<int, Connection>, packageIds: map<int, int>,
    udp: map<int, Connection>, timedOut: seq<int>,
    refs: map<int, RefIds>, datarefs: Registry.State, commands: Registry.State)

  const START := State(map[], map[], map[], [], map[], Registry.EMPTY, Registry.EMPTY)

  /** An open request, with the draw and the socket results that answering it would meet. */
  datatype Open = Open(clientId: int, packageId: int, draw: int, rxOk: bool, txOk: bool)

  datatype Item = Item(name: string, creates: bool)
  datatype Request = SubscribeDatarefs(items: seq<Item>) | SubscribeCommands(items: seq<Item>) | Other

  /** One poll of a receive socket: a datagram, possibly undecodable, or none and the socket's fate. */
  datatype Outcome = Datagram(request: Option<Request>) | Silence(rxOpen: bool)
  datatype Poll = Poll(clientId: int, now: int, outcome: Outcome)

  datatype Input = Input(open: Option<Open>, now: int, polls: seq<Poll>)

  ghost function HeldDatarefs(s: State): Holdings {
    map c | c in s.refs :: s.refs[c].datarefs
  }

  ghost function HeldCommands(s: State): Holdings {
    map c | c in s.refs :: s.refs[c].cmdrefs
  }

  /** The server keeps two registries of the same kind. */
  datatype Register = OfDatarefs | OfCommands

  function RegistryOf(s: State, r: Register): Registry.State {
    match r
    case OfDatarefs => s.datarefs
    case OfCommands => s.commands
  }

  ghost function HeldOf(s: State, r: Register): Holdings {
    match r
    case OfDatarefs => HeldDatarefs(s)
    case OfCommands => HeldCommands(s)
  }

  ghost predicate OwnId(id: int, c: Connection) {
    c.clientId == id && c.packageId == id % TWO32
  }

  ghost predicate NoDuplicates(ids: seq<int>) {
    forall i, j :: 0 <= i < j < |ids| ==> ids[i] != ids[j]
  }

  /** The maps agree: live ids split over the controllers, and the package map ranges over them. */
  ghost predicate MapsAgree(s: State) {
    && s.multicast.Keys !! s.udp.Keys
    && (forall id :: id in s.multicast ==> OwnId(id, s.multicast[id]))
    && (forall id :: id in s.udp ==> OwnId(id, s.udp[id]))
    && (forall id :: id in s.multicast.Keys + s.udp.Keys ==>
      id % TWO32 in s.packageIds && s.packageIds[id % TWO32] == id)
    && (forall p :: p in s.packageIds ==>
      s.packageIds[p] in s.multicast.Keys + s.udp.Keys && s.packageIds[p] % TWO32 == p)
    && s.refs.Keys == s.udp.Keys
  }

  /** The timed-out list names UDP connections once each, and misses none whose flag is up. */
  ghost predicate TimedOutAreListed(s: State) {
    && NoDuplicates(s.timedOut)
    && (forall id :: id in s.timedOut ==> id in s.udp)
    && (forall id :: id in s.udp && s.udp[id].timedOut ==> id in s.timedOut)
    && (forall id :: id in s.multicast ==> !s.multicast[id].timedOut)
  }

  ghost predicate Inv(s: State) {
    && MapsAgree(s)
    && TimedOutAreListed(s)
    && Covered(s.datarefs, HeldDatarefs(s))
    && Covered(s.commands, HeldCommands(s))
  }

  /** No established session waits in the multicast controller. */
  ghost predicate HandedOver(s: State) {
    forall id :: id in s.multicast ==> s.multicast[id].link != BothConnected
  }

  // ---- opening a session ----

  function NewId(o: Open): int {
    o.draw * TWO32 + o.packageId
  }

  ghost predicate ValidOpen(o: Open) {
    1 <= o.draw < TWO32 && 0 <= o.packageId < TWO32 && 0 <= o.clientId
  }

  /** The id under which a request is looked up: a client that has none yet goes by its package. */
  function LookupId(s: State, clientId: int, packageId: int): int {
    if clientId == 0 && packageId in s.packageIds then s.packageIds[packageId] else clientId
  }

  function NewConnection(o: Open, now: int): Connection {
    Connection(NewId(o), o.packageId, true, if o.txOk then BothConnected else Disconnected, false, now)
  }

  /** Answer an open request; the flag says whether the controller reports server_connected. */
  function Opened(s: State, o: Open, now: int): (State, bool) {
    var id := LookupId(s, o.clientId, o.packageId);
    if id != 0 && id in s.multicast then (s, true)
    else if o.packageId in s.packageIds || !o.rxOk then (s, false)
    else
      (s.(packageIds := s.packageIds[o.packageId := NewId(o)],
          multicast := s.multicast[NewId(o) := NewConnection(o, now)]),
       o.txOk)
  }

  /** A new id is fresh in both controllers, although the code compares it with one of them only. */
  lemma NewIdIsFresh(s: State, o: Open)
    requires MapsAgree(s) && ValidOpen(o)
    requires o.packageId !in s.packageIds
    ensures NewId(o) % TWO32 == o.packageId
    ensures NewId(o) !in s.multicast && NewId(o) !in s.udp && NewId(o) !in s.refs
    ensures NewId(o) > 0
  {
    assert NewId(o) % TWO32 == o.packageId;
  }

  lemma OpenKeepsInv(s: State, o: Open, now: int)
    requires Inv(s) && ValidOpen(o)
    ensures Inv(Opened(s, o, now).0)
    ensures HandedOver(s) && !Opened(s, o, now).1 ==> HandedOver(Opened(s, o, now).0)
  {
    var t := Opened(s, o, now).0;
    if t != s {
      NewIdIsFresh(s, o);
      assert MapsAgree(t);
    }
    assert HeldDatarefs(t) == HeldDatarefs(s) && HeldCommands(t) == HeldCommands(s);
  }

  // ---- moving established sessions to the UDP controller ----

  function Established(s: State): set<int> {
    set id | id in s.multicast && s.multicast[id].link == BothConnected
  }

  /** The receive timer restarted, as for a session that has just been established. */
  function Restarted(c: Connection, now: int): Connection {
    c.(latestRx := now, timedOut := false)
  }

  /** The connections of the given clients as they arrive in the other controller. */
  function Arriving(connections: map<int, Connection>, clients: set<int>, now: int): map<int, Connection>
    requires clients <= connections.Keys
  {
    map id | id in clients :: Restarted(connections[id], now)
  }

  function HoldingNothing(clients: set<int>): map<int, RefIds> {
    map id | id in clients :: RefIds({}, {})
  }

  /** Every established session moved over, its receive timer restarted and its id set empty. */
  function HandedOff(s: State, now: int): State {
    s.(multicast := s.multicast - Established(s),
       udp := s.udp + Arriving(s.multicast, Established(s), now),
       refs := s.refs + HoldingNothing(Established(s)))
  }

  lemma HandOffKeepsMaps(s: State, now: int)
    requires MapsAgree(s)
    ensures MapsAgree(HandedOff(s, now)) && HandedOver(HandedOff(s, now))
  {
    var t := HandedOff(s, now);
    assert t.multicast.Keys == s.multicast.Keys - Established(s);
    assert t.udp.Keys == s.udp.Keys + Established(s);
    assert t.multicast.Keys + t.udp.Keys == s.multicast.Keys + s.udp.Keys;
    assert forall id :: id in t.udp ==> OwnId(id, t.udp[id]);
  }

  lemma HandOffKeepsInv(s: State, now: int)
    requires Inv(s)
    ensures Inv(HandedOff(s, now)) && HandedOver(HandedOff(s, now))
    ensures HandedOff(s, now).refs.Keys == s.refs.Keys + Established(s)
    ensures forall c :: c in s.refs ==> HandedOff(s, now).refs[c] == s.refs[c]
  {
    HandOffKeepsMaps(s, now);
    HandOffKeepsListed(s, now);
    HandOffKeepsHeld(s, now);
    hide Covered, MapsAgree, TimedOutAreListed, HandedOver;
  }

  lemma HandOffKeepsListed(s: State, now: int)
    requires Inv(s)
    ensures TimedOutAreListed(HandedOff(s, now))
  {
    hide Covered;
  }

  lemma HandOffKeepsHeld(s: State, now: int)
    requires Inv(s)
    ensures var t := HandedOff(s, now);
      && Covered(t.datarefs, HeldDatarefs(t)) && Covered(t.commands, HeldCommands(t))
      && t.refs.Keys == s.refs.Keys + Established(s)
      && (forall c :: c in s.refs ==> t.refs[c] == s.refs[c])
  {
    EstablishedAreNew(s);
    hide MapsAgree, TimedOutAreListed, Covered, Advances, Surplus, Established;
    var t := HandedOff(s, now);
    JoinAdvances(s.datarefs, HeldDatarefs(s), HeldDatarefs(t));
    JoinAdvances(s.commands, HeldCommands(s), HeldCommands(t));
  }

  lemma EstablishedAreNew(s: State)
    requires MapsAgree(s)
    ensures Established(s) !! s.refs.Keys
  {
  }

  ghost predicate OpensNew(s: State, o: Open) {
    var id := LookupId(s, o.clientId, o.packageId);
    !(id != 0 && id in s.multicast) && o.packageId !in s.packageIds && o.rxOk && o.txOk
  }

  lemma EstablishedByOpen(s: State, o: Open, now: int)
    requires MapsAgree(s) && HandedOver(s) && ValidOpen(o)
    ensures OpensNew(s, o) ==> Opened(s, o, now).1
    ensures Opened(s, o, now).1 ==> Established(Opened(s, o, now).0) == if OpensNew(s, o) then {NewId(o)} else {}
  {
    var s' := Opened(s, o, now).0;
    if s' != s {
      NewIdIsFresh(s, o);
    }
    if Opened(s, o, now).1 {
      forall id: int
        ensures id in Established(s') <==> OpensNew(s, o) && id == NewId(o)
      {
        assert id in s'.multicast && id != NewId(o) ==> id in s.multicast && s'.multicast[id] == s.multicast[id];
      }
    }
  }

  predicate MeetsRequest(c: Connection, id: int, o: Open) {
    if o.clientId == 0 then c.packageId == o.packageId else id == o.clientId
  }

  /** A session waits in the multicast controller under the request's client id or, without one, its package. */
  ghost predicate Waits(s: State, o: Open) {
    exists id :: id in s.multicast && id != 0 && MeetsRequest(s.multicast[id], id, o)
  }

  /** A request is answered exactly if its session waits, or a new one can be established. */
  lemma OpenIsAnsweredIff(s: State, o: Open, now: int)
    requires MapsAgree(s) && ValidOpen(o)
    ensures Opened(s, o, now).1 <==> Waits(s, o) || (o.packageId !in s.packageIds && o.rxOk && o.txOk)
  {
    var id := LookupId(s, o.clientId, o.packageId);
    if id != 0 && id in s.multicast {
      assert OwnId(id, s.multicast[id]);
      assert Waits(s, o);
    }
    if Waits(s, o) {
      var other :| other in s.multicast && other != 0 && MeetsRequest(s.multicast[other], other, o);
      assert OwnId(other, s.multicast[other]);
      assert other in s.multicast.Keys + s.udp.Keys;
      assert id == other;
    }
  }

  /** A receiver opens for a new package, but no transmitter does. */
  ghost predicate GetsStuck(s: State, o: Open) {
    var id := LookupId(s, o.clientId, o.packageId);
    !(id != 0 && id in s.multicast) && o.packageId !in s.packageIds && o.rxOk && !o.txOk
  }

  /**
    An open request adds a client exactly if its package is new and both sockets open; it leaves a
    half-open session behind exactly if only the receiver opens; otherwise it changes neither table.
  */
  lemma OpenEstablishesIff(s: State, o: Open, now: int)
    requires Inv(s) && HandedOver(s) && ValidOpen(o)
    ensures var t := AfterOpen(s, Some(o), now);
      && t.refs == (if OpensNew(s, o) then s.refs[NewId(o) := RefIds({}, {})] else s.refs)
      && t.multicast == (if GetsStuck(s, o) then s.multicast[NewId(o) := NewConnection(o, now)] else s.multicast)
      && t.udp == if OpensNew(s, o) then s.udp[NewId(o) := NewConnection(o, now)] else s.udp
  {
    OpenAddsClient(s, o, now);
    OpenLeavesBehind(s, o, now);
    OpenAddsConnection(s, o, now);
    hide *;
  }

  lemma OpenAddsClient(s: State, o: Open, now: int)
    requires Inv(s) && HandedOver(s) && ValidOpen(o)
    ensures AfterOpen(s, Some(o), now).refs ==
      if OpensNew(s, o) then s.refs[NewId(o) := RefIds({}, {})] else s.refs
  {
    EstablishedByOpen(s, o, now);
    Joining(s.refs, NewId(o));
    hide MapsAgree, TimedOutAreListed, Covered, OpensNew, HoldingNothing, Established, NewId, Arriving;
    var (s', connected) := Opened(s, o, now);
    assert s'.refs == s.refs;
    if connected {
      assert HandedOff(s', now).refs == s.refs + HoldingNothing(Established(s'));
    }
  }

  lemma OpenAddsConnection(s: State, o: Open, now: int)
    requires Inv(s) && HandedOver(s) && ValidOpen(o)
    ensures AfterOpen(s, Some(o), now).udp == if OpensNew(s, o) then s.udp[NewId(o) := NewConnection(o, now)] else s.udp
  {
    EstablishedByOpen(s, o, now);
    var (s', connected) := Opened(s, o, now);
    if OpensNew(s, o) {
      assert s'.multicast[NewId(o)] == Restarted(NewConnection(o, now), now) == NewConnection(o, now);
      OneArrives(s.udp, s'.multicast, NewId(o), now);
    } else if connected {
      assert s.udp + map[] == s.udp;
      NobodyArrives(s.udp, s'.multicast, now);
    }
    hide MapsAgree, TimedOutAreListed, Covered, OpensNew, Arriving, Established, NewId;
  }

  lemma OneArrives(udp: map<int, Connection>, from: map<int, Connection>, id: int, now: int)
    requires id in from
    ensures udp + Arriving(from, {id}, now) == udp[id := Restarted(from[id], now)]
  {
  }

  lemma NobodyArrives(udp: map<int, Connection>, from: map<int, Connection>, now: int)
    ensures udp + Arriving(from, {}, now) == udp
  {
  }

  lemma Joining(refs: map<int, RefIds>, id: int)
    ensures refs + HoldingNothing({id}) == refs[id := RefIds({}, {})]
    ensures refs + HoldingNothing({}) == refs
  {
  }

  lemma OpenLeavesBehind(s: State, o: Open, now: int)
    requires Inv(s) && HandedOver(s) && ValidOpen(o)
    ensures AfterOpen(s, Some(o), now).multicast ==
      if GetsStuck(s, o) then s.multicast[NewId(o) := NewConnection(o, now)] else s.multicast
  {
    EstablishedByOpen(s, o, now);
    NewIdIsNotWaiting(s, o);
    hide MapsAgree, TimedOutAreListed, Covered, NewId;
    var (s', connected) := Opened(s, o, now);
    if OpensNew(s, o) {
      assert s'.multicast - {NewId(o)} == s.multicast;
    } else if connected {
      assert s.multicast - {} == s.multicast;
    }
  }

  lemma NewIdIsNotWaiting(s: State, o: Open)
    requires MapsAgree(s) && ValidOpen(o)
    ensures o.packageId !in s.packageIds ==> NewId(o) !in s.multicast
  {
    if o.packageId !in s.packageIds {
      NewIdIsFresh(s, o);
    }
  }

  // ---- removing timed-out sessions ----

  /** Take the head of the timed-out list and remove its client with everything it holds. */
  function DroppedNext(s: State): State
    requires Inv(s) && s.timedOut != []
  {
    var id := s.timedOut[0];
    s.(timedOut := s.timedOut[1..],
       datarefs := Registry.UnsubscribedAll(s.datarefs, s.refs[id].datarefs),
       commands := Registry.UnsubscribedAll(s.commands, s.refs[id].cmdrefs),
       refs := s.refs - {id},
       packageIds := s.packageIds - {s.udp[id].packageId},
       udp := s.udp - {id})
  }

  lemma DropKeepsMaps(s: State)
    requires Inv(s) && s.timedOut != []
    ensures MapsAgree(DroppedNext(s))
  {
    hide Covered;
    var id := s.timedOut[0];
    assert s.udp[id].packageId == id % TWO32;
    assert s.packageIds[id % TWO32] == id;
  }

  lemma DropKeepsListed(s: State)
    requires Inv(s) && s.timedOut != []
    ensures TimedOutAreListed(DroppedNext(s))
  {
    hide Covered;
    var t := DroppedNext(s);
    assert NoDuplicates(t.timedOut);
    assert s.timedOut[0] !in t.timedOut;
  }

  lemma DropKeepsCovered(s: State)
    requires Inv(s) && s.timedOut != []
    ensures Covered(DroppedNext(s).datarefs, HeldDatarefs(DroppedNext(s)))
    ensures Covered(DroppedNext(s).commands, HeldCommands(DroppedNext(s)))
  {
    var id, t := s.timedOut[0], DroppedNext(s);
    assert id in s.refs;
    hide MapsAgree, TimedOutAreListed, Surplus, Registry.UnsubscribedAll, Registry.WellFormed;
    assert HeldDatarefs(t) == HeldDatarefs(s) - {id};
    assert HeldCommands(t) == HeldCommands(s) - {id};
    LeaveKeepsCovered(s.datarefs, HeldDatarefs(s), id);
    LeaveKeepsCovered(s.commands, HeldCommands(s), id);
  }

  lemma DropKeepsInv(s: State)
    requires Inv(s) && s.timedOut != []
    ensures Inv(DroppedNext(s))
  {
    DropKeepsMaps(s);
    DropKeepsListed(s);
    DropKeepsCovered(s);
    hide MapsAgree, TimedOutAreListed, Covered, DroppedNext;
  }

  function DroppedTimedOut(s: State): (t: State)
    requires Inv(s)
    ensures Inv(t) && t.timedOut == [] && t.multicast == s.multicast
    decreases |s.timedOut|
  {
    if s.timedOut == [] then s
    else
      DropKeepsInv(s);
      DroppedTimedOut(DroppedNext(s))
  }

  // ---- one multicast round ----

  /** Answer at most one open request; if that reports a connection, move what is established. */
  function AfterOpen(s: State, open: Option<Open>, now: int): (t: State)
    requires Inv(s) && HandedOver(s)
    requires open.Some? ==> ValidOpen(open.value)
    ensures Inv(t) && HandedOver(t)
  {
    if open.None? then s
    else
      OpenKeepsInv(s, open.value, now);
      var (s', connected) := Opened(s, open.value, now);
      if !connected then s'
      else
        HandOffKeepsInv(s', now);
        HandedOff(s', now)
  }

  function MulticastRound(s: State, open: Option<Open>, now: int): (t: State)
    requires Inv(s) && HandedOver(s)
    requires open.Some? ==> ValidOpen(open.value)
    ensures Inv(t) && HandedOver(t) && t.timedOut == []
  {
    DroppedTimedOut(AfterOpen(s, open, now))
  }

  // ---- client requests ----

  /** Connection.receive_request(now) followed by the controller's timed-out test. */
  function Received(c: Connection, p: Poll): (Connection, Option<Request>) {
    if c.rxOpen && p.outcome.Datagram? then
      (c.(latestRx := p.now, timedOut := false), p.outcome.request)
    else
      var c' := if p.outcome.Silence? then c.(rxOpen := p.outcome.rxOpen) else c;
      (if p.now - c.latestRx > TIMEOUT_MS then c'.(timedOut := true, link := Expired) else c', None)
  }

  function WithDataref(s: State, c: int, item: Item): State
    requires Inv(s) && c in s.refs
  {
    var (reg, id) := Registry.Subscribed(s.datarefs, item.name, item.creates);
    match id
    case None => s.(datarefs := reg)
    case Some(i) => s.(datarefs := reg, refs := s.refs[c := s.refs[c].(datarefs := s.refs[c].datarefs + {i})])
  }

  function WithCommand(s: State, c: int, item: Item): State
    requires Inv(s) && c in s.refs
  {
    var (reg, id) := Registry.Subscribed(s.commands, item.name, item.creates);
    match id
    case None => s.(commands := reg)
    case Some(i) => s.(commands := reg, refs := s.refs[c := s.refs[c].(cmdrefs := s.refs[c].cmdrefs + {i})])
  }

  /** Everything but the registries and the ids the clients hold. */
  ghost predicate SameSessions(s: State, t: State) {
    && t.multicast == s.multicast && t.packageIds == s.packageIds
    && t.udp == s.udp && t.timedOut == s.timedOut && t.refs.Keys == s.refs.Keys
  }

  lemma SameSessionsKeepMaps(s: State, t: State)
    requires SameSessions(s, t) && MapsAgree(s) && TimedOutAreListed(s)
    ensures MapsAgree(t) && TimedOutAreListed(t)
  {
  }

  lemma DatarefKeepsInv(s: State, c: int, item: Item)
    requires Inv(s) && c in s.refs
    ensures Inv(WithDataref(s, c, item))
  {
    hide Surplus, Registry.Subscribed, MapsAgree, TimedOutAreListed;
    var t := WithDataref(s, c, item);
    var r := Registry.Subscribed(s.datarefs, item.name, item.creates).1;
    SameSessionsKeepMaps(s, t);
    assert HeldCommands(t) == HeldCommands(s);
    if r.Some? {
      assert HeldDatarefs(t) == HeldDatarefs(s)[c := HeldDatarefs(s)[c] + {r.value}];
      SubscribeKeepsCovered(s.datarefs, HeldDatarefs(s), c, item.name, item.creates);
    } else {
      FailedSubscribeKeepsCovered(s.datarefs, HeldDatarefs(s), item.name, item.creates);
    }
  }

  lemma CommandKeepsInv(s: State, c: int, item: Item)
    requires Inv(s) && c in s.refs
    ensures Inv(WithCommand(s, c, item))
  {
    hide Surplus, Registry.Subscribed, MapsAgree, TimedOutAreListed;
    var t := WithCommand(s, c, item);
    var r := Registry.Subscribed(s.commands, item.name, item.creates).1;
    SameSessionsKeepMaps(s, t);
    assert HeldDatarefs(t) == HeldDatarefs(s);
    if r.Some? {
      assert HeldCommands(t) == HeldCommands(s)[c := HeldCommands(s)[c] + {r.value}];
      SubscribeKeepsCovered(s.commands, HeldCommands(s), c, item.name, item.creates);
    } else {
      FailedSubscribeKeepsCovered(s.commands, HeldCommands(s), item.name, item.creates);
    }
  }

  function WithDatarefs(s: State, c: int, items: seq<Item>): (t: State)
    requires Inv(s) && c in s.refs
    ensures Inv(t) && SameSessions(s, t)
  {
    if items == [] then s
    else
      var t := WithDatarefs(s, c, items[..|items| - 1]);
      DatarefKeepsInv(t, c, items[|items| - 1]);
      WithDataref(t, c, items[|items| - 1])
  }

  function WithCommands(s: State, c: int, items: seq<Item>): (t: State)
    requires Inv(s) && c in s.refs
    ensures Inv(t) && SameSessions(s, t)
  {
    if items == [] then s
    else
      var t := WithCommands(s, c, items[..|items| - 1]);
      CommandKeepsInv(t, c, items[|items| - 1]);
      WithCommand(t, c, items[|items| - 1])
  }

  /** One item subscribed in registry q, and a list of them. */
  function WithItem(s: State, c: int, item: Item, q: Register): State
    requires Inv(s) && c in s.refs
  {
    match q
    case OfDatarefs => WithDataref(s, c, item)
    case OfCommands => WithCommand(s, c, item)
  }

  function WithItems(s: State, c: int, items: seq<Item>, q: Register): (t: State)
    requires Inv(s) && c in s.refs
    ensures Inv(t) && c in t.refs
  {
    match q
    case OfDatarefs => WithDatarefs(s, c, items)
    case OfCommands => WithCommands(s, c, items)
  }

  lemma WithLastItem(s: State, c: int, items: seq<Item>, q: Register)
    requires Inv(s) && c in s.refs && items != []
    ensures var n := |items| - 1;
      WithItems(s, c, items, q) == WithItem(WithItems(s, c, items[..n], q), c, items[n], q)
  {
  }

  /** The ids a subscription request in registry q is answered with, in order. */
  ghost function SubscribedIds(s: State, c: int, items: seq<Item>, q: Register): seq<int>
    requires Inv(s) && c in s.refs
  {
    if items == [] then []
    else
      var t, last := WithItems(s, c, items[..|items| - 1], q), items[|items| - 1];
      var r := Registry.Subscribed(RegistryOf(t, q), last.name, last.creates).1;
      SubscribedIds(s, c, items[..|items| - 1], q) + if r.Some? then [r.value] else []
  }

  /** Poll one client's socket and note a timeout; the second result is the decoded request. */
  function Heard(s: State, p: Poll): (State, Option<Request>) {
    if p.clientId !in s.udp then (s, None)
    else
      var (conn, request) := Received(s.udp[p.clientId], p);
      var s' := s.(udp := s.udp[p.clientId := conn]);
      if request.None? && conn.timedOut then (s'.(timedOut := s.timedOut + [conn.clientId]), None)
      else (s', request)
  }

  lemma HeardKeepsMaps(s: State, p: Poll)
    requires MapsAgree(s)
    ensures MapsAgree(Heard(s, p).0)
  {
    if p.clientId in s.udp {
      assert Heard(s, p).0.udp.Keys == s.udp.Keys;
    }
  }

  lemma HeardKeepsListed(s: State, p: Poll)
    requires MapsAgree(s) && TimedOutAreListed(s) && p.clientId !in s.timedOut
    ensures TimedOutAreListed(Heard(s, p).0)
    ensures forall id :: id in Heard(s, p).0.timedOut ==> id in s.timedOut || id == p.clientId
  {
    if p.clientId in s.udp {
      assert OwnId(p.clientId, s.udp[p.clientId]);
    }
    hide MapsAgree;
  }

  lemma HeardKeepsInv(s: State, p: Poll)
    requires Inv(s) && p.clientId !in s.timedOut
    ensures Inv(Heard(s, p).0)
    ensures Heard(s, p).0.refs == s.refs && Heard(s, p).0.multicast == s.multicast
    ensures forall id :: id in Heard(s, p).0.timedOut ==> id in s.timedOut || id == p.clientId
  {
    hide Covered, MapsAgree, TimedOutAreListed, Received;
    HeardKeepsMaps(s, p);
    HeardKeepsListed(s, p);
    var t := Heard(s, p).0;
    assert HeldDatarefs(t) == HeldDatarefs(s) && HeldCommands(t) == HeldCommands(s);
  }

  /** A polled client is put on the timed-out list exactly if it sent nothing and is silent for too long. */
  lemma TimesOutIff(s: State, p: Poll)
    requires Inv(s) && p.clientId in s.udp && p.clientId !in s.timedOut
    ensures var c, t := s.udp[p.clientId], Heard(s, p).0;
      && (p.clientId in t.timedOut <==> !(c.rxOpen && p.outcome.Datagram?) && p.now - c.latestRx > 5000)
      && t.udp[p.clientId].rxOpen == (if p.outcome.Silence? then p.outcome.rxOpen else c.rxOpen)
      && t.udp[p.clientId].latestRx == (if c.rxOpen && p.outcome.Datagram? then p.now else c.latestRx)
      && (forall id :: id in s.udp && id != p.clientId ==>
        t.udp[id] == s.udp[id] && (id in t.timedOut <==> id in s.timedOut))
  {
  }

  function Served(s: State, p: Poll): (t: State)
    requires Inv(s) && p.clientId in s.refs && p.clientId !in s.timedOut
    ensures Inv(t) && t.refs.Keys == s.refs.Keys && t.multicast == s.multicast
    ensures forall id :: id in t.timedOut ==> id in s.timedOut || id == p.clientId
  {
    HeardKeepsInv(s, p);
    var (s', request) := Heard(s, p);
    match request
    case None => s'
    case Some(SubscribeDatarefs(items)) => WithDatarefs(s', p.clientId, items)
    case Some(SubscribeCommands(items)) => WithCommands(s', p.clientId, items)
    case Some(Other) => s'
  }

  function IdSet(ids: seq<int>): set<int> {
    set id | id in ids
  }

  /** The dataref ids that the answer to a poll confirms. */
  ghost function AnsweredIds(s: State, p: Poll): set<int>
    requires Inv(s) && p.clientId in s.refs && p.clientId !in s.timedOut
  {
    HeardKeepsInv(s, p);
    match Heard(s, p).1
    case Some(SubscribeDatarefs(items)) => IdSet(SubscribedIds(Heard(s, p).0, p.clientId, items, OfDatarefs))
    case _ => {}
  }

  /** Some of the given clients, each polled once, in the hash map's arbitrary order. */
  ghost predicate Visits(polls: seq<Poll>, clients: set<int>) {
    && (forall i :: 0 <= i < |polls| ==> polls[i].clientId in clients)
    && (forall i, j :: 0 <= i < j < |polls| ==> polls[i].clientId != polls[j].clientId)
  }

  function Polled(polls: seq<Poll>): set<int> {
    set p | p in polls :: p.clientId
  }

  lemma PolledGrows(polls: seq<Poll>, clients: set<int>)
    requires Visits(polls, clients) && polls != []
    ensures var n := |polls| - 1;
      && Visits(polls[..n], clients) && polls[n].clientId in clients
      && polls[n].clientId !in Polled(polls[..n])
      && Polled(polls) == Polled(polls[..n]) + {polls[n].clientId}
  {
    assert polls == polls[..|polls| - 1] + [polls[|polls| - 1]];
  }

  function ServedAll(s: State, polls: seq<Poll>): (t: State)
    requires Inv(s) && s.timedOut == []
    requires Visits(polls, s.refs.Keys)
    ensures Inv(t) && t.refs.Keys == s.refs.Keys && t.multicast == s.multicast
    ensures forall id :: id in t.timedOut ==> id in Polled(polls)
  {
    hide Inv, Served, Visits, Polled;
    if polls == [] then s
    else
      var n := |polls| - 1;
      PolledGrows(polls, s.refs.Keys);
      var t := ServedAll(s, polls[..n]);
      Served(t, polls[n])
  }

  // ---- a whole run ----

  ghost predicate Enabled(s: State, i: Input)
    requires Inv(s) && HandedOver(s)
  {
    && (i.open.Some? ==> ValidOpen(i.open.value))
    && Visits(i.polls, MulticastRound(s, i.open, i.now).refs.Keys)
    && Polled(i.polls) == MulticastRound(s, i.open, i.now).refs.Keys
  }

  /** One server update: the multicast round, then one poll of each client. */
  ghost function Updated(s: State, i: Input): (t: State)
    requires Inv(s) && HandedOver(s) && Enabled(s, i)
    ensures Inv(t) && HandedOver(t)
  {
    ServedAll(MulticastRound(s, i.open, i.now), i.polls)
  }

  /** The state after a sequence of updates from a fresh server; inputs that cannot occur are skipped. */
  ghost function Run(inputs: seq<Input>): (s: State)
    ensures Inv(s) && HandedOver(s)
  {
    if inputs == [] then
      assert forall id: int :: Surplus(Registry.EMPTY, map[], id) == 0 by {
        assert forall id: int :: Holders(map[], id) == {};
      }
      assert HeldDatarefs(START) == map[] && HeldCommands(START) == map[];
      START
    else
      var s, i := Run(inputs[..|inputs| - 1]), inputs[|inputs| - 1];
      if Enabled(s, i) then Updated(s, i) else s
  }
}
