/**
  A spring-loaded switch keeps the id of the command it has begun, while the ids of commands are those
  of one connection: whether the end reaches the command of its begin depends on the connection.
*/
module SpringRuns {
  import opened Common
  import opened Switches
  import opened SwitchRuns
  import Registry
  import opened RefCounts
  import Sessions
  import SessionRuns

  /** The last command of the log is an end of switch d. */
  predicate EndsWith(log: seq<Sent>, d: int) {
    log != [] && log[|log| - 1].dataref == d && log[|log| - 1].command.action == End
  }

  /**
    While the client stays connected, the id of an end is that of its begin and names the same command
    in the plugin as it did when the begin was sent.
  */
  lemma EndReachesItsBegin(m: Model, hs: seq<Happening>, d: int,
                           inputs: seq<Sessions.Input>, more: seq<Sessions.Input>, c: int)
    requires forall i :: 0 <= i < |hs| ==> Possible(hs[i])
    requires KnownIds(m) && Remembered(m, d) == None && EndsWith(Ran(m, hs).1, d)
    requires forall k :: 0 <= k <= |more| ==> c in Sessions.Run(inputs + more[..k]).refs
    requires c in Sessions.Run(inputs).refs
    requires Ran(m, hs).1[|Ran(m, hs).1| - 1].command.id in Sessions.Run(inputs).refs[c].cmdrefs
    ensures var log := Ran(m, hs).1;
      var id := log[|log| - 1].command.id;
      && Open(log[..|log| - 1], d) == Some(id)
      && SameName(Sessions.Run(inputs).commands, Sessions.Run(inputs + more).commands, id)
  {
    SpringCommandsAlternate(m, hs, d);
    hide Ran, Sessions.Run, Sessions.Inv;
    SessionRuns.ConnectedKeepsIds(inputs, more, c);
    var s := Sessions.Run(inputs);
    var log := Ran(m, hs).1;
    assert log[|log| - 1].command.id in Sessions.HeldCommands(s)[c];
  }

  // ---- over a reconnect ----

  const DOWN := Switch(3, SpringLoaded, 0, 1)
  const UP := Switch(3, SpringLoaded, 0, 0)

  /** Command 10 is registered as id 0 when the switch goes down, and as id 1 after a reconnect. */
  const OVER := [
    Registered(map[10 := 0]), Moved(Change(DOWN, [10], 0)),
    Registered(map[10 := 1, 11 := 0]), Moved(Change(UP, [10], 0))]

  lemma FirstTwo()
    ensures (forall i :: 0 <= i < 2 ==> Possible(OVER[..2][i]))
    ensures Ran(Model(map[], map[], map[]), OVER[..2]) ==
      (Model(map[10 := 0], map[3 := 0], map[]), [Sent(3, Command(0, Begin))])
  {
    var none := Model(map[], map[], map[]);
    var one, two := [OVER[0]], [OVER[0], OVER[1]];
    assert one[..0] == [] && two[..1] == one && OVER[..2] == two;
    assert Ran(none, []) == (none, []);
    assert Ran(none, one) == (Model(map[10 := 0], map[], map[]), []);
    assert Handled(Model(map[10 := 0], map[], map[]), DOWN, [10], 0) ==
      (Model(map[10 := 0], map[][3 := 0], map[]), [Command(0, Begin)]);
    assert Ran(none, two) == (Model(map[10 := 0], map[][3 := 0], map[]), [] + Tagged(3, [Command(0, Begin)]));
    assert map[][3 := 0] == map[3 := 0];
    assert [] + Tagged(3, [Command(0, Begin)]) == [Sent(3, Command(0, Begin))];
  }

  /** The counterexample in the cockpit: the end goes out with id 0, which is no longer the command's. */
  lemma EndKeepsOldId()
    ensures (forall i :: 0 <= i < |OVER| ==> Possible(OVER[i]))
    ensures var (m, log) := Ran(Model(map[], map[], map[]), OVER);
      && log == [Sent(3, Command(0, Begin)), Sent(3, Command(0, End))]
      && 10 in m.commandIds && m.commandIds[10] == 1
  {
    FirstTwo();
    var none := Model(map[], map[], map[]);
    var m2 := Model(map[10 := 0], map[3 := 0], map[]);
    var m3 := m2.(commandIds := map[10 := 1, 11 := 0]);
    var two, three := OVER[..2], OVER[..3];
    assert three[..2] == two && OVER[..3] == three;
    assert Ran(none, three) == (m3, [Sent(3, Command(0, Begin))]);
    assert Handled(m3, UP, [10], 0) == (m3.(springIds := map[3 := 0][3 := -1]), [Command(0, End)]);
    assert Tagged(3, [Command(0, End)]) == [Sent(3, Command(0, End))];
  }

  /**
    And in the plugin: the only client subscribes a command and leaves, the ids start again at 0, and
    the client that comes back subscribes another command first.
  */
  lemma IdsNameOtherCommands(x: string, y: string)
    requires x != y
    ensures var (before, r) := Registry.Subscribed(Registry.EMPTY, x, true);
      var (other, r0) := Registry.Subscribed(Registry.UnsubscribedAll(before, {0}), y, true);
      var (after, r1) := Registry.Subscribed(other, x, true);
      && r == Some(0) && r0 == Some(0) && r1 == Some(1)
      && before.byId[0].name == x && after.byId[0].name == y && after.byId[1].name == x
  {
    var before := Registry.Subscribed(Registry.EMPTY, x, true).0;
    var gone := Registry.UnsubscribedAll(before, {0});
    assert gone.byId == map[] && gone.idByName == map[];
  }
}
