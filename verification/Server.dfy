/** The plugin server and its two network controllers, updated in place. */
module Servers {
  import opened Common
  import Registry
  import opened RefCounts
  import opened Sessions

  // ---- one session at a time ----

  function MovedOne(s: State, id: int, now: int): State
    requires id in s.multicast
  {
    s.(multicast := s.multicast - {id},
       udp := s.udp[id := Restarted(s.multicast[id], now)],
       refs := s.refs[id := RefIds({}, {})])
  }

  /** Moving the established sessions one by one, in any order, moves them all. */
  lemma MoveOneOfThem(s: State, id: int, now: int)
    requires Inv(s) && id in Established(s)
    ensures Inv(MovedOne(s, id, now))
    ensures HandedOff(MovedOne(s, id, now), now) == HandedOff(s, now)
  {
    MoveOneKeepsInv(s, id, now);
    MoveOneThenAll(s, id, now);
  }

  lemma MoveOneKeepsInv(s: State, id: int, now: int)
    requires Inv(s) && id in Established(s)
    ensures Inv(MovedOne(s, id, now))
  {
    var t := MovedOne(s, id, now);
    MoveOneKeepsMaps(s, id, now);
    JoinAdvances(s.datarefs, HeldDatarefs(s), HeldDatarefs(t));
    JoinAdvances(s.commands, HeldCommands(s), HeldCommands(t));
  }

  lemma MoveOneThenAll(s: State, id: int, now: int)
    requires id in Established(s)
    ensures HandedOff(MovedOne(s, id, now), now) == HandedOff(s, now)
  {
    var t := MovedOne(s, id, now);
    assert Established(t) == Established(s) - {id};
    MoveOneThenRest(s, t, id, now);
  }

  lemma MoveOneThenRest(s: State, t: State, id: int, now: int)
    requires id in Established(s) && t == MovedOne(s, id, now)
    requires Established(t) == Established(s) - {id}
    ensures HandedOff(t, now) == HandedOff(s, now)
  {
    ArriveOneThenRest(s.udp, s.multicast, Established(s), id, now);
    LeaveOneThenRest(s.multicast, Established(s), id);
    EnterOneThenRest(s.refs, Established(s), id);
    hide Established, Arriving, HoldingNothing;
  }

  lemma LeaveOneThenRest(from: map<int, Connection>, clients: set<int>, id: int)
    requires id in clients
    ensures from - {id} - (clients - {id}) == from - clients
  {
  }

  lemma EnterOneThenRest(refs: map<int, RefIds>, clients: set<int>, id: int)
    requires id in clients
    ensures refs[id := RefIds({}, {})] + HoldingNothing(clients - {id}) == refs + HoldingNothing(clients)
  {
  }

  lemma ArriveOneThenRest(udp: map<int, Connection>, from: map<int, Connection>, clients: set<int>, id: int, now: int)
    requires id in clients && clients <= from.Keys
    ensures udp[id := Restarted(from[id], now)] + Arriving(from - {id}, clients - {id}, now)
      == udp + Arriving(from, clients, now)
  {
  }

  lemma MoveOneKeepsMaps(s: State, id: int, now: int)
    requires MapsAgree(s) && id in Established(s)
    ensures MapsAgree(MovedOne(s, id, now))
  {
    var t := MovedOne(s, id, now);
    assert t.multicast.Keys == s.multicast.Keys - {id};
    assert t.udp.Keys == s.udp.Keys + {id};
    assert t.multicast.Keys + t.udp.Keys == s.multicast.Keys + s.udp.Keys;
  }

  lemma NothingToMove(s: State, now: int)
    requires Established(s) == {}
    ensures HandedOff(s, now) == s && HandedOver(s)
  {
    assert HandedOff(s, now).multicast == s.multicast;
    assert HandedOff(s, now).udp == s.udp;
    assert HandedOff(s, now).refs == s.refs;
    forall id | id in s.multicast
      ensures s.multicast[id].link != BothConnected
    {
      assert id !in Established(s);
    }
  }

  lemma MoveShrinks(s: State, id: int, now: int)
    requires id in Established(s)
    ensures |MovedOne(s, id, now).multicast| < |s.multicast|
  {
    assert MovedOne(s, id, now).multicast.Keys == s.multicast.Keys - {id};
  }

  lemma DropShrinks(s: State)
    requires Inv(s) && s.timedOut != []
    ensures |DroppedNext(s).timedOut| < |s.timedOut|
  {
  }

  /** The controller that answers open requests on the multicast group. */
  class MulticastController {
    var packageIds: map<int, int>
    var connections: map<int, Connection>

    constructor ()
      ensures packageIds == map[] && connections == map[]
    {
      packageIds, connections := map[], map[];
    }

    function GetConnection(clientId: int, packageId: int): Option<Connection>
      reads this
    {
      var id := if clientId == 0 && packageId in packageIds then packageIds[packageId] else clientId;
      if id != 0 && id in connections then Some(connections[id]) else None
    }

    /** Draw a client id. One draw is enough, because the package of every connection is on record. */
    method DrawClientId(packageId: int, draws: nat -> int) returns (clientId: int, used: nat)
      requires 0 <= packageId < TWO32 && packageId !in packageIds
      requires forall k: nat :: 1 <= draws(k) < TWO32
      requires forall id :: id in connections ==> id % TWO32 in packageIds
      ensures used == 1 && clientId == draws(0) * TWO32 + packageId
      ensures clientId !in connections
    {
      clientId, used := 0, 0;
      while clientId == 0
        invariant used <= 1
        invariant used == 0 ==> clientId == 0
        invariant used == 1 ==> clientId == draws(0) * TWO32 + packageId && clientId !in connections
        decreases 1 - used
      {
        clientId := draws(used) * TWO32 + packageId;
        assert clientId % TWO32 == packageId;
        if clientId in connections {
          clientId := 0;
        }
        used := used + 1;
      }
    }

    method CreateConnection(o: Open, draws: nat -> int, now: int) returns (r: Option<int>)
      requires ValidOpen(o) && o.packageId !in packageIds
      requires draws(0) == o.draw && forall k: nat :: 1 <= draws(k) < TWO32
      requires forall id :: id in connections ==> id % TWO32 in packageIds
      modifies this
      ensures r == if o.rxOk then Some(NewId(o)) else None
      ensures packageIds == if o.rxOk then old(packageIds)[o.packageId := NewId(o)] else old(packageIds)
      ensures connections == if o.rxOk
        then old(connections)[NewId(o) := Connection(NewId(o), o.packageId, true, Disconnected, false, now)]
        else old(connections)
    {
      var clientId, _ := DrawClientId(o.packageId, draws);
      if o.rxOk {
        packageIds := packageIds[o.packageId := clientId];
        connections := connections[clientId := Connection(clientId, o.packageId, true, Disconnected, false, now)];
        return Some(clientId);
      }
      return None;
    }

    method RespondToOpenConnection(o: Open, draws: nat -> int, now: int) returns (serverConnected: bool)
      requires ValidOpen(o)
      requires draws(0) == o.draw && forall k: nat :: 1 <= draws(k) < TWO32
      requires forall id :: id in connections ==> id % TWO32 in packageIds
      modifies this
      ensures var (t, connected) :=
        Opened(START.(multicast := old(connections), packageIds := old(packageIds)), o, now);
        connections == t.multicast && packageIds == t.packageIds && serverConnected == connected
    {
      serverConnected := false;
      if GetConnection(o.clientId, o.packageId).Some? {
        serverConnected := true;
      } else if o.packageId !in packageIds {
        var maybeId := CreateConnection(o, draws, now);
        if maybeId.Some? && o.txOk {
          // create_transmitter succeeded and the receiver is open
          connections := connections[maybeId.value := connections[maybeId.value].(link := BothConnected)];
          serverConnected := true;
        }
      }
    }

    /** Some established connection, whichever the hash map yields first. */
    method FindConnected() returns (r: Option<int>)
      ensures r.Some? ==> r.value in connections && connections[r.value].link == BothConnected
      ensures r.None? ==> forall id :: id in connections ==> connections[id].link != BothConnected
    {
      var rest := connections.Keys;
      while rest != {}
        invariant rest <= connections.Keys
        invariant forall id :: id in connections && id !in rest ==> connections[id].link != BothConnected
        decreases |rest|
      {
        ghost var member := SomeMember(rest);
        var key :| key in rest;
        if connections[key].link == BothConnected {
          return Some(key);
        }
        rest := rest - {key};
      }
      return None;
    }

    method ResetRxTimeout(id: int, now: int)
      requires id in connections
      modifies this`connections
      ensures connections == old(connections)[id := Restarted(old(connections)[id], now)]
    {
      connections := connections[id := Restarted(connections[id], now)];
    }

    method RemoveConnection(id: int) returns (node: Option<Connection>)
      modifies this`connections
      ensures node == if id in old(connections) then Some(old(connections)[id]) else None
      ensures connections == old(connections) - {id}
    {
      node := if id in connections then Some(connections[id]) else None;
      connections := connections - {id};
    }

    method ClearPackageId(packageId: int)
      modifies this`packageIds
      ensures packageIds == old(packageIds) - {packageId}
    {
      packageIds := packageIds - {packageId};
    }
  }

  /** The controller of the established sessions. */
  class UdpController {
    var connections: map<int, Connection>
    var timedOut: seq<int>

    constructor ()
      ensures connections == map[] && timedOut == []
    {
      connections, timedOut := map[], [];
    }

    method GetTimedOutConnectionKey() returns (r: Option<int>)
      modifies this`timedOut
      ensures old(timedOut) == [] ==> r == None && timedOut == []
      ensures old(timedOut) != [] ==> r == Some(old(timedOut)[0]) && timedOut == old(timedOut)[1..]
    {
      if timedOut == [] {
        return None;
      }
      r := Some(timedOut[0]);
      timedOut := timedOut[1..];
    }

    /** Insert a node extracted from the other controller; an occupied key keeps its connection. */
    method AddConnection(id: int, node: Option<Connection>)
      modifies this`connections
      ensures connections == if node.Some? && id !in old(connections) then old(connections)[id := node.value] else old(connections)
    {
      if node.Some? && id !in connections {
        connections := connections[id := node.value];
      }
    }

    method RemoveConnection(id: int)
      modifies this`connections
      ensures connections == old(connections) - {id}
    {
      connections := connections - {id};
    }

    method ServerReceive(p: Poll) returns (request: Option<Request>)
      modifies this
      ensures var (t, r) := Heard(START.(udp := old(connections), timedOut := old(timedOut)), p);
        connections == t.udp && timedOut == t.timedOut && request == r
    {
      request := None;
      if p.clientId in connections {
        var (conn, r) := Received(connections[p.clientId], p);
        connections := connections[p.clientId := conn];
        if r.Some? {
          request := r;
        } else if conn.timedOut {
          timedOut := timedOut + [conn.clientId];
        }
      }
    }
  }

  class Server {
    const multicast: MulticastController
    const udp: UdpController
    const datarefs: Registry.Repository
    const commands: Registry.Repository
    var refs: map<int, RefIds>

    function View(): State
      reads this, multicast, udp, datarefs, commands
    {
      State(multicast.connections, multicast.packageIds, udp.connections, udp.timedOut,
            refs, datarefs.View(), commands.View())
    }

    ghost predicate Valid()
      reads this, multicast, udp, datarefs, commands
    {
      datarefs != commands && Inv(View()) && HandedOver(View())
    }

    constructor ()
      ensures Valid() && View() == START
      ensures fresh(multicast) && fresh(udp) && fresh(datarefs) && fresh(commands)
    {
      multicast := new MulticastController();
      udp := new UdpController();
      datarefs := new Registry.Repository();
      commands := new Registry.Repository();
      refs := map[];
      new;
      ghost var start := Run([]);
      assert View() == START;
    }

    /** The body of the hand-off loop: the client is in neither table of connected clients yet. */
    method MoveToUdp(id: int, now: int)
      requires datarefs != commands && Inv(View()) && id in Established(View())
      modifies this, multicast, udp
      ensures View() == MovedOne(old(View()), id, now)
    {
      multicast.ResetRxTimeout(id, now);
      assert id !in refs && id !in udp.connections;
      if id !in refs {
        refs := refs[id := RefIds({}, {})];
      }
      var node := multicast.RemoveConnection(id);
      udp.AddConnection(id, node);
      assert multicast.connections == old(multicast.connections) - {id};
    }

    /** Move every established session to the UDP controller. */
    method MoveConnected(now: int)
      requires datarefs != commands && Inv(View())
      modifies this, multicast, udp
      ensures View() == HandedOff(old(View()), now)
      ensures HandedOver(View())
    {
      hide Inv, HandedOff, MovedOne;
      var hasConnected := true;
      while hasConnected
        invariant Inv(View()) && HandedOff(View(), now) == HandedOff(old(View()), now)
        invariant !hasConnected ==> Established(View()) == {}
        decreases |multicast.connections|, hasConnected
      {
        ghost var before := View();
        var maybeId := multicast.FindConnected();
        if maybeId.Some? {
          MoveOneOfThem(before, maybeId.value, now);
          MoveShrinks(before, maybeId.value, now);
          MoveToUdp(maybeId.value, now);
        } else {
          assert forall id :: id !in Established(View());
          hasConnected := false;
        }
      }
      NothingToMove(View(), now);
    }

    /** The body of the cleanup loop: the client is connected and has an entry in the table. */
    method RemoveTimedOutClient(id: int)
      requires datarefs != commands && Inv(View()) && udp.timedOut != [] && udp.timedOut[0] == id
      modifies this, multicast, udp, datarefs, commands
      ensures View() == DroppedNext(old(View()))
    {
      var _ := udp.GetTimedOutConnectionKey();
      assert id in refs;
      if id in udp.connections {
        var connection := udp.connections[id];
        if id in refs {
          datarefs.UnsubscribeEach(refs[id].datarefs);
          commands.UnsubscribeEach(refs[id].cmdrefs);
          refs := refs - {id};
        }
        multicast.ClearPackageId(connection.packageId);
        udp.RemoveConnection(id);
      } else {
        assert false;
      }
    }

    /** Remove every timed-out session. */
    method RemoveTimedOut()
      requires datarefs != commands && Inv(View())
      modifies this, multicast, udp, datarefs, commands
      ensures View() == DroppedTimedOut(old(View()))
    {
      hide Inv, DroppedNext;
      while udp.timedOut != []
        invariant Inv(View()) && DroppedTimedOut(View()) == DroppedTimedOut(old(View()))
        decreases |udp.timedOut|
      {
        DropKeepsInv(View());
        DropShrinks(View());
        RemoveTimedOutClient(udp.timedOut[0]);
      }
    }

    method MulticastRequest(open: Option<Open>, draws: nat -> int, now: int)
      requires Valid()
      requires open.Some? ==> ValidOpen(open.value) && draws(0) == open.value.draw
      requires forall k: nat :: 1 <= draws(k) < TWO32
      modifies this, multicast, udp, datarefs, commands
      ensures Valid() && View() == MulticastRound(old(View()), open, now)
    {
      hide HandedOff, TimedOutAreListed, Covered;
      var serverConnected := false;
      if open.Some? {
        OpenKeepsInv(View(), open.value, now);
        serverConnected := multicast.RespondToOpenConnection(open.value, draws, now);
        assert View() == Opened(old(View()), open.value, now).0;
      }
      if serverConnected {
        MoveConnected(now);
      }
      assert View() == AfterOpen(old(View()), open, now);
      RemoveTimedOut();
    }

    method SubscribeDatarefs(clientId: int, items: seq<Item>)
      requires datarefs != commands && Inv(View()) && clientId in refs
      modifies this, datarefs
      ensures View() == WithDatarefs(old(View()), clientId, items)
    {
      hide MapsAgree, TimedOutAreListed;
      assert items[..0] == [];
      for i := 0 to |items|
        invariant clientId in refs
        invariant View() == WithDatarefs(old(View()), clientId, items[..i])
      {
        assert items[..i + 1][..i] == items[..i];
        var maybeId := datarefs.Subscribe(items[i].name, items[i].creates);
        if maybeId.Some? {
          refs := refs[clientId := refs[clientId].(datarefs := refs[clientId].datarefs + {maybeId.value})];
        }
      }
      assert items[..|items|] == items;
    }

    method SubscribeCommands(clientId: int, items: seq<Item>)
      requires datarefs != commands && Inv(View()) && clientId in refs
      modifies this, commands
      ensures View() == WithCommands(old(View()), clientId, items)
    {
      hide MapsAgree, TimedOutAreListed;
      assert items[..0] == [];
      for i := 0 to |items|
        invariant clientId in refs
        invariant View() == WithCommands(old(View()), clientId, items[..i])
      {
        assert items[..i + 1][..i] == items[..i];
        var maybeId := commands.Subscribe(items[i].name, items[i].creates);
        if maybeId.Some? {
          refs := refs[clientId := refs[clientId].(cmdrefs := refs[clientId].cmdrefs + {maybeId.value})];
        }
      }
      assert items[..|items|] == items;
    }

    method Serve(p: Poll)
      requires datarefs != commands && Inv(View())
      requires p.clientId in refs && p.clientId !in udp.timedOut
      modifies this, udp, datarefs, commands
      ensures View() == Served(old(View()), p)
    {
      hide Inv;
      HeardKeepsInv(View(), p);
      var request := udp.ServerReceive(p);
      assert View() == Heard(old(View()), p).0;
      match request {
        case Some(SubscribeDatarefs(items)) => SubscribeDatarefs(p.clientId, items);
        case Some(SubscribeCommands(items)) => SubscribeCommands(p.clientId, items);
        case _ =>
      }
    }

    /** Every connected client is polled once, in the order of the hash map. */
    method ClientRequest(polls: seq<Poll>)
      requires Valid() && udp.timedOut == []
      requires Visits(polls, refs.Keys) && Polled(polls) == refs.Keys
      modifies this, udp, datarefs, commands
      ensures Valid() && View() == ServedAll(old(View()), polls)
    {
      hide Inv, Served;
      assert polls[..0] == [];
      for i := 0 to |polls|
        invariant datarefs != commands && Inv(View())
        invariant View() == ServedAll(old(View()), polls[..i])
      {
        assert polls[..i + 1][..i] == polls[..i];
        assert polls[i].clientId !in udp.timedOut;
        Serve(polls[i]);
      }
      assert polls[..|polls|] == polls;
    }

    /** The session part of Server::update. */
    method Update(i: Input, draws: nat -> int)
      requires Valid() && Enabled(View(), i)
      requires i.open.Some? ==> draws(0) == i.open.value.draw
      requires forall k: nat :: 1 <= draws(k) < TWO32
      modifies this, multicast, udp, datarefs, commands
      ensures Valid() && View() == Updated(old(View()), i)
    {
      MulticastRequest(i.open, draws, i.now);
      ClientRequest(i.polls);
    }
  }
}
