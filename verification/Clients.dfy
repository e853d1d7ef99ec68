/**
  The cockpit's client of the plugin server, cycle by cycle: it connects, asks for the aircraft's tail
  number, requests everything once the right aircraft is there, and is active when nothing requested
  is outstanding. Handshakes, packets and timeouts are inputs.
*/
module Clients {
  import opened Common
  import opened Subscriptions

  datatype ClientState = Disconnected | Connected | CheckZboAvailable | ZboAvailable | ZboSubscribed | ZboActive

  /** Milliseconds per cycle, and the cycles of one and of five seconds. */
  const UPDATE_RATE := 50
  const ONE_SECOND := 1000 / UPDATE_RATE
  const FIVE_SECONDS := 5 * ONE_SECOND

  datatype Packet =
    | Datarefs(clientId: int, confirmations: seq<Confirmation>)
    | Commands(clientId: int, commands: seq<CommandConfirmation>)
    | Values

  /** What the aircraft model subscribes, and the tail number that is asked for first. */
  datatype Tables = Tables(datarefs: map<string, Param>, commands: map<string, int>, tailName: string, tail: Param)

  datatype View = View(
    clientId: int, state: ClientState, checkTimeout: int, subscribedTimeout: int,
    datarefs: Progress, commands: CommandProgress)

  const START :=
    View(0, Disconnected, 0, 0, Progress(map[], 0, 0, IdMaps(map[], map[])), CommandProgress(map[], 0, map[]))

  // ---- one packet ----

  /** The timeout tests at the head of process_conformation_packet; they count packets. */
  function Timed(v: View): View {
    var v1 :=
      if v.state == CheckZboAvailable then
        v.(checkTimeout := v.checkTimeout + 1,
           state := if v.checkTimeout + 1 > 2 * ONE_SECOND then Connected else v.state)
      else v.(checkTimeout := 0);
    if v1.state == ZboSubscribed then
      v1.(subscribedTimeout := v1.subscribedTimeout + 1,
          state := if v1.subscribedTimeout + 1 > FIVE_SECONDS then ZboAvailable else v1.state)
    else v1
  }

  predicate Complete(v: View) {
    v.datarefs.accepted > 1 && v.datarefs.outstanding == map[] && v.commands.outstanding == map[]
  }

  predicate IsConfirmation(p: Packet, clientId: int) {
    !p.Values? && p.clientId == clientId
  }

  /** The confirmations of a packet added up. */
  function Added(v: View, p: Packet): View {
    match p
    case Datarefs(_, cs) => v.(datarefs := ConfirmedAll(v.datarefs, cs))
    case Commands(_, cs) => v.(commands := CommandsConfirmed(v.commands, cs))
    case Values => v
  }

  /** process_conformation_packet; `zibo` says whether the tail number is known to be the right one. */
  function Conformed(v: View, p: Packet, zibo: bool): View
    requires !p.Values?
  {
    var v1 := Timed(v);
    if p.clientId != v1.clientId then v1
    else
      var v2 := Added(v1, p);
      var v3 := if p.Datarefs? && zibo && v2.state == CheckZboAvailable then v2.(state := ZboAvailable) else v2;
      if Complete(v3) then v3.(state := ZboActive) else v3
  }

  /** The end of process_packet: an available aircraft makes the client request everything anew. */
  function Refilled(v: View, t: Tables): View {
    if v.state == ZboAvailable then
      v.(state := ZboSubscribed,
         datarefs := v.datarefs.(outstanding := t.datarefs),
         commands := v.commands.(outstanding := t.commands))
    else v
  }

  /** process_packet */
  function Processed(v: View, t: Tables, p: Packet, zibo: bool): View {
    Refilled(if p.Values? then v else Conformed(v, p, zibo), t)
  }

  // ---- one cycle ----

  /** What the client's socket yields: a packet, or nothing and whether the connection has timed out. */
  datatype Heard = Nothing(timedOut: bool) | Something(packet: Packet, zibo: bool)

  /** One call of update: the client id if the handshake completes in it, and the switches' looks at the ids. */
  datatype Cycle = Cycle(handshake: Option<int>, heard: Heard, lookups: seq<Lookup>)

  function Dropped(v: View): View {
    v.(state := Disconnected,
       datarefs := v.datarefs.(maps := IdMaps(map[], map[])),
       commands := v.commands.(ids := map[]))
  }

  function TailRequested(v: View, t: Tables): View {
    var wanted := v.datarefs.outstanding;
    v.(state := CheckZboAvailable,
       datarefs := v.datarefs.(
         outstanding := if t.tailName in wanted then wanted else wanted[t.tailName := t.tail],
         accepted := 0))
  }

  function Greeted(v: View, handshake: Option<int>): View {
    if v.state == Disconnected && handshake.Some? then v.(state := Connected, clientId := handshake.value) else v
  }

  function Listened(v: View, t: Tables, heard: Heard): View {
    match heard
    case Nothing(_) => v
    case Something(p, zibo) => Processed(v, t, p, zibo)
  }

  /** process_switches: only an active client handles its switches, which look up ids for the values they set. */
  function Switched(v: View, lookups: seq<Lookup>): View {
    if v.state == ZboActive then v.(datarefs := v.datarefs.(maps := LookedUpAll(v.datarefs.maps, lookups).0)) else v
  }

  /** The view in which a cycle's switches are handled. */
  function BeforeSwitches(v: View, t: Tables, c: Cycle): View {
    Listened(Greeted(v, c.handshake), t, c.heard)
  }

  /** The set-values of a cycle. */
  function SentIn(v: View, t: Tables, c: Cycle): seq<SetValue> {
    var w := BeforeSwitches(v, t, c);
    if Greeted(v, c.handshake).state != Disconnected && w.state == ZboActive
    then LookedUpAll(w.datarefs.maps, c.lookups).1
    else []
  }

  /** update */
  function Cycled(v: View, t: Tables, c: Cycle): View {
    var v1 := Greeted(v, c.handshake);
    if v1.state == Disconnected then v1
    else
      var v2 := Switched(Listened(v1, t, c.heard), c.lookups);
      var v3 := if c.heard == Nothing(true) then Dropped(v2) else v2;
      if v3.state == Connected then TailRequested(v3, t) else v3
  }

  function Ran(v: View, t: Tables, cycles: seq<Cycle>): View {
    if cycles == [] then v else Cycled(Ran(v, t, cycles[..|cycles| - 1]), t, cycles[|cycles| - 1])
  }

  // ---- the client in place ----

  class Client {
    var view: View

    constructor ()
      ensures view == START
    {
      view := START;
    }

    /** Send the requests in packets, in the hash map's order; counts them as the client does. */
    method SendSubscriptions(order: seq<string>) returns (packets: seq<seq<string>>, expected: int)
      ensures packets == Batches(order)
      ensures expected == 1 + |order|
    {
      packets := [];
      var packet: seq<string> := [];
      var messageCount := 0;
      expected := 1;
      ghost var full := 0;
      for i := 0 to |order|
        invariant messageCount == |packet| <= BATCH
        invariant |order[..i]| == BATCH * full + |packet|
        invariant packet == order[BATCH * full..i]
        invariant packets == Batches(order[..BATCH * full])
        invariant expected == 1 + BATCH * full
        invariant i > 0 ==> packet != []
      {
        if messageCount >= BATCH {
          messageCount := 0;
          expected := expected + |packet|;
          FullBatchesThenRest(order[..BATCH * full], full, packet);
          assert i == BATCH * (full + 1);
          assert order[..BATCH * full] + order[BATCH * full..i] == order[..i];
          packets := packets + [packet];
          packet := [];
          full := full + 1;
        }
        packet := packet + [order[i]];
        messageCount := messageCount + 1;
      }
      if packet != [] {
        expected := expected + |packet|;
        FullBatchesThenRest(order[..BATCH * full], full, packet);
        assert order[..BATCH * full] + packet == order;
        packets := packets + [packet];
      }
    }

    method ProcessDatarefConfirmations(cs: seq<Confirmation>) returns (accepted: int)
      modifies this
      ensures view == old(view).(datarefs := ConfirmedAll(old(view).datarefs, cs).(accepted := old(view).datarefs.accepted))
      ensures accepted == ConfirmedAll(old(view).datarefs, cs).accepted - old(view).datarefs.accepted
    {
      accepted := 0;
      ghost var start := view.datarefs;
      assert cs[..0] == [];
      for i := 0 to |cs|
        invariant view == old(view).(datarefs := ConfirmedAll(start, cs[..i]).(accepted := start.accepted))
        invariant accepted == ConfirmedAll(start, cs[..i]).accepted - start.accepted
      {
        assert cs[..i + 1][..i] == cs[..i];
        var c, p := cs[i], view.datarefs;
        if c.name in p.outstanding {
          var param := p.outstanding[c.name];
          if c.dataType == param.xplaneType {
            accepted := accepted + 1;
            if Registers(c, param.holder) {
              p := p.(maps := Emplaced(p.maps, c.id, param.shortName));
            }
          } else {
            p := p.(mismatched := p.mismatched + 1);
          }
          p := p.(outstanding := p.outstanding - {c.name});
          view := view.(datarefs := p);
        }
      }
      assert cs[..|cs|] == cs;
    }

    method ProcessCommandConfirmations(cs: seq<CommandConfirmation>) returns (accepted: int)
      modifies this
      ensures view == old(view).(commands := CommandsConfirmed(old(view).commands, cs).(accepted := old(view).commands.accepted))
      ensures accepted == CommandsConfirmed(old(view).commands, cs).accepted - old(view).commands.accepted
    {
      accepted := 0;
      ghost var start := view.commands;
      assert cs[..0] == [];
      for i := 0 to |cs|
        invariant view == old(view).(commands := CommandsConfirmed(start, cs[..i]).(accepted := start.accepted))
        invariant accepted == CommandsConfirmed(start, cs[..i]).accepted - start.accepted
      {
        assert cs[..i + 1][..i] == cs[..i];
        var c, p := cs[i], view.commands;
        if c.name in p.outstanding {
          view := view.(commands := p.(outstanding := p.outstanding - {c.name}, ids := p.ids[p.outstanding[c.name] := c.id]));
          accepted := accepted + 1;
        }
      }
      assert cs[..|cs|] == cs;
    }

    method ProcessConformationPacket(p: Packet, zibo: bool)
      requires !p.Values?
      modifies this
      ensures view == Conformed(old(view), p, zibo)
    {
      if view.state == CheckZboAvailable {
        view := view.(checkTimeout := view.checkTimeout + 1);
        if view.checkTimeout > 2 * ONE_SECOND {
          view := view.(state := Connected);
        }
      } else {
        view := view.(checkTimeout := 0);
      }
      if view.state == ZboSubscribed {
        view := view.(subscribedTimeout := view.subscribedTimeout + 1);
        if view.subscribedTimeout > FIVE_SECONDS {
          view := view.(state := ZboAvailable);
        }
      }
      if p.clientId == view.clientId {
        match p {
          case Datarefs(_, cs) =>
            var accepted := ProcessDatarefConfirmations(cs);
            view := view.(datarefs := view.datarefs.(accepted := view.datarefs.accepted + accepted));
            if zibo && view.state == CheckZboAvailable {
              view := view.(state := ZboAvailable);
            }
          case Commands(_, cs) =>
            var accepted := ProcessCommandConfirmations(cs);
            view := view.(commands := view.commands.(accepted := view.commands.accepted + accepted));
        }
        if view.datarefs.accepted > 1 && view.datarefs.outstanding == map[] && view.commands.outstanding == map[] {
          view := view.(state := ZboActive);
        }
      }
    }

    /** One packet; returns the request packets sent, given the orders in which the hash maps are walked. */
    method ProcessPacket(p: Packet, zibo: bool, t: Tables, order: seq<string>, commandOrder: seq<string>)
      returns (requests: seq<seq<string>>, commandRequests: seq<seq<string>>)
      modifies this
      ensures view == Processed(old(view), t, p, zibo)
      ensures var refills := (if p.Values? then old(view) else Conformed(old(view), p, zibo)).state == ZboAvailable;
        && requests == (if refills then Batches(order) else [])
        && commandRequests == (if refills then Batches(commandOrder) else [])
    {
      requests, commandRequests := [], [];
      if !p.Values? {
        ProcessConformationPacket(p, zibo);
      }
      if view.state == ZboAvailable {
        view := view.(state := ZboSubscribed, datarefs := view.datarefs.(outstanding := t.datarefs));
        var expected;
        requests, expected := SendSubscriptions(order);
        view := view.(commands := view.commands.(outstanding := t.commands));
        commandRequests, expected := SendSubscriptions(commandOrder);
      }
    }

    /** Handle the switches of a cycle; returns the values that are sent. */
    method ProcessSwitches(lookups: seq<Lookup>) returns (sent: seq<SetValue>)
      modifies this
      ensures view == Switched(old(view), lookups)
      ensures sent == if old(view).state == ZboActive then LookedUpAll(old(view).datarefs.maps, lookups).1 else []
    {
      sent := [];
      if view.state == ZboActive {
        ghost var start := view.datarefs.maps;
        assert lookups[..0] == [];
        for i := 0 to |lookups|
          invariant view == old(view).(datarefs := old(view).datarefs.(maps := LookedUpAll(start, lookups[..i]).0))
          invariant sent == LookedUpAll(start, lookups[..i]).1
        {
          assert lookups[..i + 1][..i] == lookups[..i];
          var name, maps := lookups[i].shortName, view.datarefs.maps;
          if name !in maps.byName && !lookups[i].asksFirst {
            maps := maps.(byName := maps.byName[name := 0]);
          }
          if name in maps.byName {
            sent := sent + [SetValue(name, maps.byName[name])];
          }
          view := view.(datarefs := view.datarefs.(maps := maps));
        }
        assert lookups[..|lookups|] == lookups;
      }
    }

    method Update(c: Cycle, t: Tables, order: seq<string>, commandOrder: seq<string>) returns (sent: seq<SetValue>)
      modifies this
      ensures view == Cycled(old(view), t, c)
      ensures sent == SentIn(old(view), t, c)
    {
      hide Processed, LookedUpAll;
      sent := [];
      if view.state == Disconnected && c.handshake.Some? {
        view := view.(state := Connected, clientId := c.handshake.value);
      }
      if view.state != Disconnected {
        if c.heard.Something? {
          var _, _ := ProcessPacket(c.heard.packet, c.heard.zibo, t, order, commandOrder);
        }
        sent := ProcessSwitches(c.lookups);
        if c.heard == Nothing(true) {
          view := Dropped(view);
        }
        if view.state == Connected {
          view := TailRequested(view, t);
        }
      }
    }
  }

  // ---- active exactly when complete ----

  /** Between cycles: one of four states, and while connected, active exactly when nothing is outstanding. */
  predicate Settled(v: View) {
    && (v.state == Disconnected || v.state == CheckZboAvailable || v.state == ZboSubscribed || v.state == ZboActive)
    && (v.state != Disconnected ==> (v.state == ZboActive <==> Complete(v)))
  }

  /** An active client stays complete, and anything else becomes active only by being complete. */
  lemma ListenedSettles(v: View, t: Tables, heard: Heard)
    requires t.datarefs != map[] && v.state != ZboAvailable
    requires v.state != Connected ==> (v.state == ZboActive <==> Complete(v))
    ensures var w := Listened(v, t, heard);
      && w.state != ZboAvailable
      && (w.state == ZboActive ==> Complete(w))
      && (w.state == CheckZboAvailable || w.state == ZboSubscribed ==> !Complete(w))
  {
    if heard.Something? && IsConfirmation(heard.packet, v.clientId) && v.state == ZboActive {
      AddedStaysComplete(Timed(v), heard.packet);
    }
  }

  lemma AddedStaysComplete(v: View, p: Packet)
    requires Complete(v)
    ensures Complete(Added(v, p))
  {
    match p {
      case Datarefs(_, cs) =>
        AcceptedGrows(v.datarefs, cs);
        DoneIffAllNamed(v.datarefs, cs);
      case Commands(_, cs) =>
        CommandsDoneIffAllNamed(v.commands, cs);
      case Values =>
    }
  }

  /** Over any run of cycles, with any packets lost, repeated or reordered and any reconnects. */
  lemma {:induction false} ActiveExactlyWhenComplete(t: Tables, cycles: seq<Cycle>)
    requires t.datarefs != map[]
    ensures Settled(Ran(START, t, cycles))
  {
    if cycles != [] {
      var n := |cycles| - 1;
      ActiveExactlyWhenComplete(t, cycles[..n]);
      var v := Greeted(Ran(START, t, cycles[..n]), cycles[n].handshake);
      if v.state != Disconnected {
        ListenedSettles(v, t, cycles[n].heard);
      }
    }
  }

  /** What a packet must hold to complete a client. */
  ghost predicate Completes(v: View, p: Packet) {
    match p
    case Datarefs(id, cs) =>
      && id == v.clientId
      && (forall n :: n in v.datarefs.outstanding ==> Named(cs, n)) && v.commands.outstanding == map[]
      && ConfirmedAll(v.datarefs, cs).accepted > 1
    case Commands(id, cs) =>
      && id == v.clientId
      && (forall n :: n in v.commands.outstanding ==> CommandNamed(cs, n)) && v.datarefs.outstanding == map[]
      && v.datarefs.accepted > 1
    case Values => false
  }

  /** A packet activates a client exactly if it names all that is outstanding in both requested sets. */
  lemma ActivatedIff(v: View, t: Tables, p: Packet, zibo: bool)
    requires v.state != ZboActive
    ensures Processed(v, t, p, zibo).state == ZboActive <==> Completes(v, p)
  {
    match p {
      case Datarefs(_, cs) => DoneIffAllNamed(v.datarefs, cs);
      case Commands(_, cs) => CommandsDoneIffAllNamed(v.commands, cs);
      case Values =>
    }
  }

  // ---- finding the aircraft ----

  /** This packet is the one too many of a check for the right aircraft. */
  predicate ChecksTooLong(v: View) {
    v.state == CheckZboAvailable && v.checkTimeout >= 2 * ONE_SECOND
  }

  /**
    Before its tables are requested, a packet makes a client request them exactly if it is a dataref
    confirmation for its id, the aircraft is known to be the right one, the check has not timed out with
    it and it does not complete the client. Otherwise, unless completed, the client goes on checking, or
    checks anew if that has timed out.
  */
  lemma RequestsTablesIff(v: View, t: Tables, p: Packet, zibo: bool)
    requires v.state == CheckZboAvailable || v.state == Connected
    ensures var w := Processed(v, t, p, zibo);
      var requests := v.state == CheckZboAvailable && !ChecksTooLong(v) && p.Datarefs? && p.clientId == v.clientId
        && zibo && !Completes(v, p);
      && (w.state == ZboSubscribed <==> requests)
      && (requests ==> w.datarefs.outstanding == t.datarefs && w.commands.outstanding == t.commands)
      && (!requests && !Completes(v, p) ==> w.state == if ChecksTooLong(v) && !p.Values? then Connected else v.state)
  {
    ActivatedIff(v, t, p, zibo);
  }

  /** A cockpit that has asked for the tail number alone, and so is not complete. */
  ghost predicate Searches(v: View, t: Tables) {
    && v.datarefs.outstanding.Keys <= {t.tailName} && v.commands.outstanding == map[] && v.commands.ids == map[]
    && 0 <= v.datarefs.accepted && v.datarefs.accepted + |v.datarefs.outstanding| <= 1
  }

  lemma AtMostTail(wanted: map<string, Param>, t: Tables)
    requires wanted.Keys <= {t.tailName}
    ensures |wanted| <= 1 && (t.tailName in wanted ==> |wanted| == 1)
    ensures t.tailName !in wanted ==> wanted == map[] && |wanted[t.tailName := t.tail]| == 1
  {
    if t.tailName in wanted {
      assert wanted.Keys == {t.tailName};
    } else {
      assert wanted.Keys == {};
      assert wanted[t.tailName := t.tail].Keys == {t.tailName};
    }
    assert |wanted.Keys| == |wanted|;
    assert |wanted[t.tailName := t.tail].Keys| == |wanted[t.tailName := t.tail]|;
  }

  lemma {:induction false} FewerOutstanding(p: Progress, cs: seq<Confirmation>)
    ensures ConfirmedAll(p, cs).outstanding.Keys <= p.outstanding.Keys
    ensures ConfirmedAll(p, cs).accepted >= p.accepted && ConfirmedAll(p, cs).mismatched >= p.mismatched
  {
    if cs != [] {
      FewerOutstanding(p, cs[..|cs| - 1]);
    }
  }

  lemma PacketKeepsSearching(v: View, t: Tables, p: Packet)
    requires (v.state == CheckZboAvailable || v.state == Connected) && Searches(v, t)
    ensures var w := Processed(v, t, p, false);
      && (w.state == CheckZboAvailable || w.state == Connected) && Searches(w, t)
  {
    match p {
      case Datarefs(_, cs) =>
        FewerOutstanding(v.datarefs, cs);
        RequestsAreConserved(v.datarefs, cs);
      case Commands(_, cs) => NoCommandOutstanding(v.commands, cs);
      case Values =>
    }
  }

  /** Without word of the right aircraft, a cockpit never asks for more than the tail number. */
  lemma {:induction false} OtherAircraftAreLeftAlone(t: Tables, cycles: seq<Cycle>)
    requires forall i :: 0 <= i < |cycles| ==> cycles[i].heard.Something? ==> !cycles[i].heard.zibo
    ensures var v := Ran(START, t, cycles);
      && (v.state == Disconnected || v.state == CheckZboAvailable) && Searches(v, t)
  {
    hide Searches;
    if cycles == [] {
      StartSearches(t);
    } else {
      var n := |cycles| - 1;
      OtherAircraftAreLeftAlone(t, cycles[..n]);
      CycleKeepsSearching(Ran(START, t, cycles[..n]), t, cycles[n]);
    }
  }

  lemma StartSearches(t: Tables)
    ensures Searches(START, t)
  {
  }

  lemma CycleKeepsSearching(v: View, t: Tables, c: Cycle)
    requires (v.state == Disconnected || v.state == CheckZboAvailable) && Searches(v, t)
    requires c.heard.Something? ==> !c.heard.zibo
    ensures var w := Cycled(v, t, c);
      (w.state == Disconnected || w.state == CheckZboAvailable) && Searches(w, t)
  {
    hide Processed;
    var v1 := Greeted(v, c.handshake);
    if v1.state != Disconnected {
      if c.heard.Something? {
        PacketKeepsSearching(v1, t, c.heard.packet);
      }
      AtMostTail(Listened(v1, t, c.heard).datarefs.outstanding, t);
    }
  }

  // ---- before the subscription times out ----

  datatype Arrival = Arrival(packet: Packet, zibo: bool)

  function ProcessedAll(v: View, t: Tables, arrivals: seq<Arrival>): View {
    if arrivals == [] then v
    else
      var n := |arrivals| - 1;
      Processed(ProcessedAll(v, t, arrivals[..n]), t, arrivals[n].packet, arrivals[n].zibo)
  }

  /** The confirmations for a client in one packet, and in a run of packets. */
  function DatarefsOf(p: Packet, clientId: int): seq<Confirmation> {
    if p.Datarefs? && p.clientId == clientId then p.confirmations else []
  }

  function CommandsOf(p: Packet, clientId: int): seq<CommandConfirmation> {
    if p.Commands? && p.clientId == clientId then p.commands else []
  }

  function DatarefsIn(arrivals: seq<Arrival>, clientId: int): seq<Confirmation> {
    if arrivals == [] then []
    else DatarefsIn(arrivals[..|arrivals| - 1], clientId) + DatarefsOf(arrivals[|arrivals| - 1].packet, clientId)
  }

  function CommandsIn(arrivals: seq<Arrival>, clientId: int): seq<CommandConfirmation> {
    if arrivals == [] then []
    else CommandsIn(arrivals[..|arrivals| - 1], clientId) + CommandsOf(arrivals[|arrivals| - 1].packet, clientId)
  }

  /** As long as the subscription does not time out, the confirmations simply add up. */
  lemma {:induction false} ConfirmationsAddUp(v: View, t: Tables, arrivals: seq<Arrival>)
    requires v.state == ZboSubscribed && !Complete(v)
    requires v.subscribedTimeout + |arrivals| <= FIVE_SECONDS
    ensures var w := ProcessedAll(v, t, arrivals);
      && w.clientId == v.clientId && (w.state == ZboSubscribed ==> w.subscribedTimeout <= v.subscribedTimeout + |arrivals|)
      && w.datarefs == ConfirmedAll(v.datarefs, DatarefsIn(arrivals, v.clientId))
      && w.commands == CommandsConfirmed(v.commands, CommandsIn(arrivals, v.clientId))
      && (w.state == ZboSubscribed || w.state == ZboActive) && (w.state == ZboActive <==> Complete(w))
  {
    if arrivals != [] {
      hide ConfirmedAll, CommandsConfirmed, Processed, Complete, DatarefsOf, CommandsOf;
      var n := |arrivals| - 1;
      ConfirmationsAddUp(v, t, arrivals[..n]);
      var w, p := ProcessedAll(v, t, arrivals[..n]), arrivals[n].packet;
      ConfirmedInTwo(v.datarefs, DatarefsIn(arrivals[..n], v.clientId), DatarefsOf(p, v.clientId));
      CommandsConfirmedInTwo(v.commands, CommandsIn(arrivals[..n], v.clientId), CommandsOf(p, v.clientId));
      PacketAddsUp(w, t, p, arrivals[n].zibo);
    }
  }

  lemma PacketAddsUp(w: View, t: Tables, p: Packet, zibo: bool)
    requires (w.state == ZboSubscribed && w.subscribedTimeout < FIVE_SECONDS) || w.state == ZboActive
    requires w.state == ZboActive <==> Complete(w)
    ensures var r := Processed(w, t, p, zibo);
      && r.clientId == w.clientId && r.subscribedTimeout <= w.subscribedTimeout + 1
      && r.datarefs == ConfirmedAll(w.datarefs, DatarefsOf(p, w.clientId))
      && r.commands == CommandsConfirmed(w.commands, CommandsOf(p, w.clientId))
      && (r.state == ZboSubscribed || r.state == ZboActive) && (r.state == ZboActive <==> Complete(r))
  {
    if Complete(w) {
      AddedStaysComplete(w, p);
    }
  }

  /**
    A subscription that has not timed out: after any packets the client is active exactly if they named
    everything it had requested and two datarefs have been accepted.
  */
  lemma ActiveIffAllConfirmed(v: View, t: Tables, arrivals: seq<Arrival>)
    requires v.state == ZboSubscribed && !Complete(v)
    requires v.subscribedTimeout + |arrivals| <= FIVE_SECONDS
    ensures var ds, cs := DatarefsIn(arrivals, v.clientId), CommandsIn(arrivals, v.clientId);
      ProcessedAll(v, t, arrivals).state == ZboActive <==>
        && (forall n :: n in v.datarefs.outstanding ==> Named(ds, n))
        && (forall n :: n in v.commands.outstanding ==> CommandNamed(cs, n))
        && ConfirmedAll(v.datarefs, ds).accepted > 1
  {
    ConfirmationsAddUp(v, t, arrivals);
    DoneIffAllNamed(v.datarefs, DatarefsIn(arrivals, v.clientId));
    CommandsDoneIffAllNamed(v.commands, CommandsIn(arrivals, v.clientId));
  }

  // ---- after it has timed out ----

  /** The subscription has timed out: any further confirmation requests both nonempty sets again. */
  predicate Starved(v: View, t: Tables) {
    && v.state == ZboSubscribed && v.subscribedTimeout >= FIVE_SECONDS
    && v.datarefs.outstanding == t.datarefs != map[]
    && v.commands.outstanding == t.commands != map[]
  }

  lemma StarvedStays(v: View, t: Tables, p: Packet, zibo: bool)
    requires Starved(v, t)
    ensures Starved(Processed(v, t, p, zibo), t)
  {
  }

  /** A starved client never becomes active, whatever packets arrive, until its connection times out. */
  lemma {:induction false} StarvedForever(v: View, t: Tables, cycles: seq<Cycle>)
    requires Starved(v, t)
    requires forall i :: 0 <= i < |cycles| ==> cycles[i].heard != Nothing(true)
    ensures Starved(Ran(v, t, cycles), t)
  {
    if cycles != [] {
      var n := |cycles| - 1;
      StarvedForever(v, t, cycles[..n]);
      var w, heard := Ran(v, t, cycles[..n]), cycles[n].heard;
      if heard.Something? {
        StarvedStays(w, t, heard.packet, heard.zibo);
      }
    }
  }

  /** Nothing ever resets the count of packets, reconnecting included. */
  lemma {:induction false} SubscribedTimeoutNeverResets(v: View, t: Tables, cycles: seq<Cycle>)
    ensures Ran(v, t, cycles).subscribedTimeout >= v.subscribedTimeout
  {
    if cycles != [] {
      hide Cycled;
      var n := |cycles| - 1;
      SubscribedTimeoutNeverResets(v, t, cycles[..n]);
      CycleNeverResets(Ran(v, t, cycles[..n]), t, cycles[n]);
    }
  }

  lemma CycleNeverResets(v: View, t: Tables, c: Cycle)
    ensures Cycled(v, t, c).subscribedTimeout >= v.subscribedTimeout
  {
    hide ConfirmedAll, CommandsConfirmed;
  }

  /** In a client whose count is used up, a packet in the subscribed state activates it or asks for everything again. */
  lemma TimedOutPacket(v: View, t: Tables, p: Packet, zibo: bool)
    requires v.state == ZboSubscribed && v.subscribedTimeout >= FIVE_SECONDS && !p.Values?
    ensures var w := Processed(v, t, p, zibo);
      if Completes(v, p) then w.state == ZboActive
      else w.state == ZboSubscribed && w.datarefs.outstanding == t.datarefs && w.commands.outstanding == t.commands
  {
    ActivatedIff(v, t, p, zibo);
  }

  lemma {:induction false} RanInTwo(v: View, t: Tables, a: seq<Cycle>, b: seq<Cycle>)
    ensures Ran(v, t, a + b) == Ran(Ran(v, t, a), t, b)
  {
    hide Cycled;
    if b == [] {
      assert a + b == a;
    } else {
      RanInTwo(v, t, a, b[..|b| - 1]);
      assert (a + b)[..|a + b| - 1] == a + b[..|b| - 1];
    }
  }

  lemma RanTwo(v: View, t: Tables, c: Cycle, d: Cycle)
    ensures Ran(v, t, [c, d]) == Cycled(Cycled(v, t, c), t, d)
  {
    hide Cycled;
    assert [c] + [d] == [c, d];
    RanInTwo(v, t, [c], [d]);
    RanOne(v, t, c);
    RanOne(Cycled(v, t, c), t, d);
  }

  lemma RanOne(v: View, t: Tables, c: Cycle)
    ensures Ran(v, t, [c]) == Cycled(v, t, c)
  {
    assert [c][..0] == [];
  }

  function TailConfirmation(t: Tables): Confirmation {
    Confirmation(t.tailName, 0, t.tail.xplaneType, t.tail.xplaneType)
  }

  function Receiving(p: Packet): Cycle {
    Cycle(None, Something(p, true), [])
  }

  /** The client connects, and the tail number is confirmed and is the right one. */
  function Finding(id: int, t: Tables): seq<Cycle> {
    [Cycle(Some(id), Nothing(false), []), Receiving(Datarefs(id, [TailConfirmation(t)]))]
  }

  /** A connection on which some commands are confirmed before it times out. */
  function Round(id: int, t: Tables, cs: seq<CommandConfirmation>): seq<Cycle> {
    Finding(id, t) + [Receiving(Commands(id, cs)), Cycle(None, Nothing(true), [])]
  }

  /** A run that starves a client: a hundred such connections, then one more. */
  function Rounds(t: Tables, cs: seq<CommandConfirmation>, n: nat): seq<Cycle> {
    if n == 0 then [] else Rounds(t, cs, n - 1) + Round(n, t, cs)
  }

  function Starving(t: Tables, cs: seq<CommandConfirmation>): seq<Cycle> {
    Rounds(t, cs, FIVE_SECONDS) + Finding(FIVE_SECONDS + 1, t)
  }

  ghost predicate Searching(v: View) {
    v.state == Disconnected && v.checkTimeout == 0
  }

  lemma Finds(v: View, t: Tables, id: int)
    requires Searching(v) && t.datarefs != map[]
    ensures var w := Ran(v, t, Finding(id, t));
      && w.clientId == id && w.state == ZboSubscribed && w.subscribedTimeout == v.subscribedTimeout
      && w.datarefs.outstanding == t.datarefs && w.commands.outstanding == t.commands
  {
    var c, d := Finding(id, t)[0], Finding(id, t)[1];
    RanTwo(v, t, c, d);
    var cs := [TailConfirmation(t)];
    assert cs[..0] == [];
    var w := Cycled(v, t, c);
    assert w.state == CheckZboAvailable && w.datarefs.accepted == 0 && w.clientId == id && w.checkTimeout == 0;
    assert ConfirmedAll(w.datarefs, cs) == Confirmed(w.datarefs, cs[0]);
    assert ConfirmedAll(w.datarefs, cs).accepted <= 1;
  }

  lemma RoundCounts(v: View, t: Tables, id: int, cs: seq<CommandConfirmation>)
    requires Searching(v) && t.datarefs != map[] && v.subscribedTimeout < FIVE_SECONDS
    ensures var w := Ran(v, t, Round(id, t, cs));
      Searching(w) && w.subscribedTimeout == v.subscribedTimeout + 1
  {
    Finds(v, t, id);
    var w := Ran(v, t, Finding(id, t));
    var c, d := Receiving(Commands(id, cs)), Cycle(None, Nothing(true), []);
    hide Ran, Finding, CommandsConfirmed;
    RanInTwo(v, t, Finding(id, t), [c, d]);
    RanTwo(w, t, c, d);
  }

  lemma RanNothing(t: Tables)
    ensures Ran(START, t, []) == START && Searching(START)
  {
  }

  lemma {:induction false} RoundsCount(t: Tables, cs: seq<CommandConfirmation>, n: nat)
    requires t.datarefs != map[] && n <= FIVE_SECONDS
    ensures var v := Ran(START, t, Rounds(t, cs, n));
      Searching(v) && v.subscribedTimeout == n
  {
    hide Ran, Round, Searching;
    if n == 0 {
      RanNothing(t);
    } else {
      RoundsCount(t, cs, n - 1);
      RanInTwo(START, t, Rounds(t, cs, n - 1), Round(n, t, cs));
      RoundCounts(Ran(START, t, Rounds(t, cs, n - 1)), t, n, cs);
    }
  }

  /** The counterexample, for any tables: such a client is never active again while it is connected. */
  lemma ClientsStarve(t: Tables, cs: seq<CommandConfirmation>, more: seq<Cycle>)
    requires t.datarefs != map[] && t.commands != map[]
    requires forall i :: 0 <= i < |more| ==> more[i].heard != Nothing(true)
    ensures Ran(Ran(START, t, Starving(t, cs)), t, more).state == ZboSubscribed
  {
    hide Ran, Finding;
    var v, n := Ran(START, t, Rounds(t, cs, FIVE_SECONDS)), FIVE_SECONDS + 1;
    RoundsCount(t, cs, FIVE_SECONDS);
    RanInTwo(START, t, Rounds(t, cs, FIVE_SECONDS), Finding(n, t));
    Finds(v, t, n);
    StarvedForever(Ran(v, t, Finding(n, t)), t, more);
  }

  // ---- what an active client has ----

  lemma PacketGivesIds(v: View, t: Tables, p: Packet, zibo: bool)
    requires v.state != Disconnected && EachOutstandingOrKnown(t.commands, v.commands)
    ensures var w := Processed(v, t, p, zibo);
      w.state != Disconnected && EachOutstandingOrKnown(t.commands, w.commands)
  {
    if p.Commands? {
      ConfirmationsGiveIds(t.commands, v.commands, p.commands);
    }
    hide EachOutstandingOrKnown, ConfirmedAll, CommandsConfirmed, Complete;
    AskingAnew(t.commands, v.commands);
    AskingAnew(t.commands, CommandsConfirmed(v.commands, if p.Commands? then p.commands else []));
  }

  lemma AskingAnew(requested: map<string, int>, p: CommandProgress)
    ensures EachOutstandingOrKnown(requested, p.(outstanding := requested))
  {
  }

  /** From the request of its tables on, as long as it is not dropped, an active client has every command's id. */
  lemma {:induction false} ActiveHasCommandIds(v: View, t: Tables, cycles: seq<Cycle>)
    requires Settled(v) && v.state != Disconnected && v.commands.outstanding == t.commands && t.datarefs != map[]
    requires forall i :: 0 <= i < |cycles| ==> cycles[i].heard != Nothing(true)
    ensures var w := Ran(v, t, cycles);
      w.state == ZboActive ==> forall n :: n in t.commands ==> t.commands[n] in w.commands.ids
  {
    StaysCovered(v, t, cycles);
  }

  lemma {:induction false} StaysCovered(v: View, t: Tables, cycles: seq<Cycle>)
    requires Settled(v) && v.state != Disconnected && v.commands.outstanding == t.commands && t.datarefs != map[]
    requires forall i :: 0 <= i < |cycles| ==> cycles[i].heard != Nothing(true)
    ensures var w := Ran(v, t, cycles);
      Settled(w) && w.state != Disconnected && EachOutstandingOrKnown(t.commands, w.commands)
  {
    if cycles != [] {
      hide EachOutstandingOrKnown, Processed, Complete;
      var n := |cycles| - 1;
      StaysCovered(v, t, cycles[..n]);
      var w, heard := Ran(v, t, cycles[..n]), cycles[n].heard;
      ListenedSettles(w, t, heard);
      if heard.Something? {
        PacketGivesIds(w, t, heard.packet, heard.zibo);
      }
    }
  }

  // ---- reconnecting ----

  const NO_IDS := IdMaps(map[], map[])

  lemma {:induction false} NothingOutstanding(p: Progress, cs: seq<Confirmation>)
    requires p.outstanding == map[]
    ensures ConfirmedAll(p, cs) == p
  {
    if cs != [] {
      NothingOutstanding(p, cs[..|cs| - 1]);
    }
  }

  lemma {:induction false} NoCommandOutstanding(p: CommandProgress, cs: seq<CommandConfirmation>)
    requires p.outstanding == map[]
    ensures CommandsConfirmed(p, cs) == p
  {
    if cs != [] {
      NoCommandOutstanding(p, cs[..|cs| - 1]);
    }
  }

  /**
    A client that had everything when it was dropped keeps its empty request sets: it is active again
    in the cycle of the handshake exactly if a confirmation for its new id arrives in it, and then it
    has no ids at all.
  */
  lemma ReconnectActivatesIff(v: View, t: Tables, id: int, heard: Heard)
    requires v.state == Disconnected && Complete(v) && v.datarefs.maps == NO_IDS && v.commands.ids == map[]
    ensures var w := Cycled(v, t, Cycle(Some(id), heard, []));
      && (w.state == ZboActive <==> heard.Something? && IsConfirmation(heard.packet, id))
      && (w.state == ZboActive ==> w.datarefs.maps == NO_IDS && w.commands.ids == map[])
  {
    var w := Greeted(v, Some(id));
    if heard.Something? && IsConfirmation(heard.packet, id) {
      match heard.packet {
        case Datarefs(_, cs) => NothingOutstanding(w.datarefs, cs);
        case Commands(_, cs) => NoCommandOutstanding(w.commands, cs);
      }
    }
  }

  /**
    A client dropped with all its commands confirmed and some datarefs outstanding asks for no more
    than those and the tail number when it is back: it is active as soon as they are confirmed, and
    then it has no id of any command.
  */
  lemma LeftoversActivateIff(v: View, t: Tables, id: int, cs: seq<Confirmation>)
    requires Searching(v) && v.datarefs.maps == NO_IDS && v.commands == CommandProgress(map[], v.commands.accepted, map[])
    ensures var asked := TailRequested(v, t).datarefs;
      var w := Ran(v, t, [Cycle(Some(id), Nothing(false), []), Receiving(Datarefs(id, cs))]);
      && (w.state == ZboActive <==>
        (forall n :: n in asked.outstanding ==> Named(cs, n)) && ConfirmedAll(asked, cs).accepted > 1)
      && (w.state == ZboActive ==> w.datarefs == ConfirmedAll(asked, cs) && w.commands.ids == map[])
  {
    var c, d := Cycle(Some(id), Nothing(false), []), Receiving(Datarefs(id, cs));
    RanTwo(v, t, c, d);
    var w := Cycled(v, t, c);
    assert w.datarefs == TailRequested(v, t).datarefs && w.commands == v.commands && w.clientId == id;
    DoneIffAllNamed(w.datarefs, cs);
  }

  const SMALL := Tables(
    map["a" := Param(1, Float, SwitchData), "b" := Param(2, Float, SwitchData)], map["c" := 4],
    "tail", Param(0, Data, InData))

  /** The client is dropped between the confirmations of "a" and "b"; back again, it hears those it asks for. */
  const INTERRUPTED := Finding(1, SMALL) + [
    Receiving(Commands(1, [CommandConfirmation("c", 0)])),
    Receiving(Datarefs(1, [Confirmation("a", 1, Float, Float)]))] + [Cycle(None, Nothing(true), [])]

  const BACK := [
    Cycle(Some(2), Nothing(false), []),
    Receiving(Datarefs(2, [Confirmation("tail", 0, Data, Data), Confirmation("b", 2, Float, Float)]))]

  lemma Interrupted()
    ensures var v := Ran(START, SMALL, INTERRUPTED);
      && Searching(v) && v.datarefs.outstanding == map["b" := SMALL.datarefs["b"]]
      && v.datarefs.maps == NO_IDS && v.commands.outstanding == map[] && v.commands.ids == map[]
  {
    hide Ran, Finding, Cycled;
    assert "a" in SMALL.datarefs;
    Finds(START, SMALL, 1);
    var v := Ran(START, SMALL, Finding(1, SMALL));
    var c, d := Receiving(Commands(1, [CommandConfirmation("c", 0)])), Receiving(Datarefs(1, [Confirmation("a", 1, Float, Float)]));
    var e := Cycle(None, Nothing(true), []);
    RanInTwo(START, SMALL, Finding(1, SMALL), [c, d]);
    RanInTwo(START, SMALL, Finding(1, SMALL) + [c, d], [e]);
    RanTwo(v, SMALL, c, d);
    RanOne(Ran(v, SMALL, [c, d]), SMALL, e);
    HalfConfirmed(v);
  }

  lemma HalfConfirmed(v: View)
    requires v.state == ZboSubscribed && v.clientId == 1 && v.subscribedTimeout == 0
    requires v.datarefs.outstanding == SMALL.datarefs && v.commands.outstanding == SMALL.commands
    ensures var c, d := Receiving(Commands(1, [CommandConfirmation("c", 0)])), Receiving(Datarefs(1, [Confirmation("a", 1, Float, Float)]));
      var w := Cycled(Cycled(Cycled(v, SMALL, c), SMALL, d), SMALL, Cycle(None, Nothing(true), []));
      && Searching(w) && w.datarefs.outstanding == map["b" := SMALL.datarefs["b"]]
      && w.datarefs.maps == NO_IDS && w.commands.outstanding == map[] && w.commands.ids == map[]
  {
    hide ConfirmedAll, CommandsConfirmed;
    OneCommand(v.commands);
    OneDataref(v.datarefs);
    assert "a" in SMALL.datarefs && "b" in SMALL.datarefs;
  }

  lemma OneCommand(p: CommandProgress)
    requires p.outstanding == SMALL.commands
    ensures CommandsConfirmed(p, [CommandConfirmation("c", 0)]).outstanding == map[]
  {
    var cs := [CommandConfirmation("c", 0)];
    assert cs[..0] == [];
    assert CommandsConfirmed(p, cs) == CommandConfirmed(p, cs[0]);
  }

  lemma OneDataref(p: Progress)
    requires p.outstanding == SMALL.datarefs
    ensures ConfirmedAll(p, [Confirmation("a", 1, Float, Float)]).outstanding == map["b" := SMALL.datarefs["b"]]
  {
    var cs := [Confirmation("a", 1, Float, Float)];
    assert cs[..0] == [];
    assert ConfirmedAll(p, cs) == Confirmed(p, cs[0]);
  }

  /** The counterexample: that client is active without an id for "a" or for any command. */
  lemma ActiveWithoutIds()
    ensures var w := Ran(Ran(START, SMALL, INTERRUPTED), SMALL, BACK);
      w.state == ZboActive && 1 !in w.datarefs.maps.byName && w.commands.ids == map[]
  {
    Interrupted();
    var v := Ran(START, SMALL, INTERRUPTED);
    hide Ran, Finding;
    var cs := [Confirmation("tail", 0, Data, Data), Confirmation("b", 2, Float, Float)];
    LeftoversActivateIff(v, SMALL, 2, cs);
    TwoDatarefs(TailRequested(v, SMALL).datarefs);
  }

  lemma TwoDatarefs(p: Progress)
    requires p.outstanding == map["b" := SMALL.datarefs["b"], "tail" := SMALL.tail] && p.accepted == 0 && p.maps == NO_IDS
    ensures var cs := [Confirmation("tail", 0, Data, Data), Confirmation("b", 2, Float, Float)];
      && (forall n :: n in p.outstanding ==> Named(cs, n))
      && ConfirmedAll(p, cs).accepted == 2 && 1 !in ConfirmedAll(p, cs).maps.byName
  {
    var cs := [Confirmation("tail", 0, Data, Data), Confirmation("b", 2, Float, Float)];
    assert cs[0].name == "tail" && cs[1].name == "b";
    assert cs[..1] == [cs[0]] && cs[..1][..0] == [];
    assert ConfirmedAll(p, cs[..1]) == Confirmed(p, cs[0]);
    assert ConfirmedAll(p, cs) == Confirmed(Confirmed(p, cs[0]), cs[1]);
  }
}
