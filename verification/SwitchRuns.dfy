/** What the commands of a switch add up to over a whole run. */
module SwitchRuns {
  import opened Common
  import opened Switches

  /** A run mixes switch changes with (re)registrations of command ids. */
  datatype Happening = Moved(change: Change) | Registered(ids: map<int, int>)

  /** A command in the log, with the switch that sent it. */
  datatype Sent = Sent(dataref: int, command: Command)

  ghost predicate Possible(h: Happening) {
    match h
    case Moved(c) => ValidNames(c.sw, c.names)
    case Registered(ids) => forall n :: n in ids ==> ids[n] >= 0
  }

  function Tagged(d: int, cs: seq<Command>): (r: seq<Sent>)
    ensures |r| == |cs|
  {
    seq(|cs|, i requires 0 <= i < |cs| => Sent(d, cs[i]))
  }

  function Ran(m: Model, hs: seq<Happening>): (r: (Model, seq<Sent>))
    requires forall i :: 0 <= i < |hs| ==> Possible(hs[i])
  {
    if hs == [] then (m, [])
    else
      var (m', log) := Ran(m, hs[..|hs| - 1]);
      assert Possible(hs[|hs| - 1]);
      match hs[|hs| - 1]
      case Moved(c) =>
        var (m'', cs) := Handled(m', c.sw, c.names, c.xplaneValue);
        (m'', log + Tagged(c.sw.dataref, cs))
      case Registered(ids) => (m'.(commandIds := ids), log)
  }

  function Moves(changes: seq<Change>): (hs: seq<Happening>)
    ensures |hs| == |changes|
  {
    seq(|changes|, i requires 0 <= i < |changes| => Moved(changes[i]))
  }

  /** The commands of a log. */
  function CommandsOf(log: seq<Sent>): (cs: seq<Command>)
    ensures |cs| == |log|
  {
    seq(|log|, i requires 0 <= i < |log| => log[i].command)
  }

  /** Handling a queue is a run of its changes, oldest first. */
  lemma {:induction false} QueueIsRun(m: Model, changes: seq<Change>)
    requires forall i :: 0 <= i < |changes| ==> ValidNames(changes[i].sw, changes[i].names)
    ensures var hs := Moves(changes);
      && (forall i :: 0 <= i < |hs| ==> Possible(hs[i]))
      && AllHandled(m, changes) == (Ran(m, hs).0, CommandsOf(Ran(m, hs).1))
  {
    var hs := Moves(changes);
    forall i | 0 <= i < |hs|
      ensures Possible(hs[i])
    {
      assert hs[i] == Moved(changes[i]);
    }
    if changes != [] {
      hide Handled;
      var n := |changes| - 1;
      QueueIsRun(m, changes[..n]);
      assert hs[..n] == Moves(changes[..n]);
      var log, c := Ran(m, hs[..n]).1, changes[n];
      var cs := Handled(Ran(m, hs[..n]).0, c.sw, c.names, c.xplaneValue).1;
      assert CommandsOf(log + Tagged(c.sw.dataref, cs)) == CommandsOf(log) + cs;
    }
  }

  // ---- spring-loaded switches ----

  /** The command of switch d that has begun and not ended. */
  function Open(log: seq<Sent>, d: int): Option<int> {
    if log == [] then None
    else
      var s := log[|log| - 1];
      if s.dataref == d && s.command.action == Begin then Some(s.command.id)
      else if s.dataref == d && s.command.action == End then None
      else Open(log[..|log| - 1], d)
  }

  /** Begins and ends of switch d alternate, a begin first, and every end closes the open id. */
  ghost predicate Alternates(log: seq<Sent>, d: int) {
    log != [] ==>
      var before, s := log[..|log| - 1], log[|log| - 1];
      && Alternates(before, d)
      && (s.dataref == d && s.command.action == Begin ==> Open(before, d) == None)
      && (s.dataref == d && s.command.action == End ==> Open(before, d) == Some(s.command.id))
  }

  /** The open command as the model remembers it. */
  function Remembered(m: Model, d: int): Option<int> {
    if d in m.springIds && m.springIds[d] != -1 then Some(m.springIds[d]) else None
  }

  ghost predicate KnownIds(m: Model) {
    && (forall n :: n in m.commandIds ==> m.commandIds[n] >= 0)
    && (forall d :: d in m.springIds ==> m.springIds[d] >= -1)
  }

  /** Over every run of every switch, begins and ends alternate and each end carries its begin's id. */
  lemma {:induction false} SpringCommandsAlternate(m: Model, hs: seq<Happening>, d: int)
    requires forall i :: 0 <= i < |hs| ==> Possible(hs[i])
    requires KnownIds(m) && Remembered(m, d) == None
    ensures var (m', log) := Ran(m, hs);
      KnownIds(m') && Alternates(log, d) && Open(log, d) == Remembered(m', d)
  {
    if hs != [] {
      var before, h := hs[..|hs| - 1], hs[|hs| - 1];
      SpringCommandsAlternate(m, before, d);
      var (m', log) := Ran(m, before);
      if h.Moved? {
        var c := h.change;
        var (m'', cs) := Handled(m', c.sw, c.names, c.xplaneValue);
        HandledSpring(m', c, d);
        assert |cs| <= 1 || forall i :: 0 <= i < |cs| ==> cs[i].action == Once;
        OnceChangesNothing(log, Tagged(c.sw.dataref, cs), d);
        hide Handled;
        if |cs| == 1 && cs[0].action != Once {
          assert (log + Tagged(c.sw.dataref, cs))[..|log|] == log;
        }
      }
    }
  }

  /** What one change may do to the open command of switch d. */
  lemma HandledSpring(m: Model, c: Change, d: int)
    requires ValidNames(c.sw, c.names) && KnownIds(m)
    ensures var (m', cs) := Handled(m, c.sw, c.names, c.xplaneValue);
      KnownIds(m') && (OnlyOnce(m, m', cs, d) || OneSpringCommand(m, m', c.sw.dataref, cs, d))
  {
  }

  ghost predicate OnlyOnce(m: Model, m': Model, cs: seq<Command>, d: int) {
    (forall i :: 0 <= i < |cs| ==> cs[i].action == Once) && Remembered(m', d) == Remembered(m, d)
  }

  ghost predicate OneSpringCommand(m: Model, m': Model, switched: int, cs: seq<Command>, d: int) {
    && |cs| == 1 && cs[0].action != Once
    && (switched != d ==> Remembered(m', d) == Remembered(m, d))
    && (switched == d && cs[0].action == Begin ==> Remembered(m, d) == None && Remembered(m', d) == Some(cs[0].id))
    && (switched == d && cs[0].action == End ==> Remembered(m, d) == Some(cs[0].id) && Remembered(m', d) == None)
  }

  lemma {:induction false} OnceChangesNothing(log: seq<Sent>, more: seq<Sent>, d: int)
    ensures (forall i :: 0 <= i < |more| ==> more[i].command.action == Once) ==>
      Open(log + more, d) == Open(log, d) && (Alternates(log, d) ==> Alternates(log + more, d))
  {
    if more == [] {
      assert log + more == log;
    } else {
      OnceChangesNothing(log, more[..|more| - 1], d);
      assert (log + more)[..|log + more| - 1] == log + more[..|more| - 1];
    }
  }

  /**
    A registered spring-loaded switch begins its command exactly when it is idle and moves off its rest
    position to one X-Plane does not show, and ends it exactly when it is open and comes back to rest.
  */
  lemma SpringRespondsIff(m: Model, c: Change)
    requires ValidNames(c.sw, c.names) && c.sw.kind.SpringLoaded? && KnownIds(m)
    requires Selected(c.sw, c.names, c.xplaneValue) in m.commandIds
    ensures var cs := Handled(m, c.sw, c.names, c.xplaneValue).1;
      var open, hw := Remembered(m, c.sw.dataref), c.sw.hwValue;
      && (cs == [Command(m.commandIds[Selected(c.sw, c.names, c.xplaneValue)], Begin)]
        <==> open == None && hw != c.sw.returnValue && hw != c.xplaneValue)
      && ((exists id :: cs == [Command(id, End)]) <==> open.Some? && hw == c.sw.returnValue)
      && (cs == [] <==> if hw == c.sw.returnValue then open == None else open.Some? || hw == c.xplaneValue)
  {
    var cs := Handled(m, c.sw, c.names, c.xplaneValue).1;
    var open := Remembered(m, c.sw.dataref);
    if open.Some? && c.sw.hwValue == c.sw.returnValue {
      assert cs == [Command(open.value, End)];
    } else {
      assert cs == [] || cs[0].action == Begin;
    }
  }

  /** A toggle with two different commands registered steps the simulator towards the hardware, or rests. */
  lemma ToggleFollowsHardware(m: Model, c: Change)
    requires c.sw.kind.Toggle? && |c.names| == 2
    requires c.names[0] in m.commandIds && c.names[1] in m.commandIds
    requires m.commandIds[c.names[0]] != m.commandIds[c.names[1]]
    ensures var (m', cs) := Handled(m, c.sw, c.names, c.xplaneValue);
      && m' == m
      && (cs == [Command(m.commandIds[c.names[0]], Once)] <==> c.sw.hwValue > c.xplaneValue)
      && (cs == [Command(m.commandIds[c.names[1]], Once)] <==> c.sw.hwValue < c.xplaneValue)
      && (cs == [] <==> c.sw.hwValue == c.xplaneValue)
  {
  }

  /** With more than two commands a toggle sends the first whenever it differs, with fewer it sends nothing. */
  lemma OddToggles(m: Model, c: Change)
    requires c.sw.kind.Toggle? && |c.names| != 2
    ensures var (m', cs) := Handled(m, c.sw, c.names, c.xplaneValue);
      m' == m && cs == if |c.names| > 2 && c.sw.hwValue != c.xplaneValue then OnceIfKnown(m, c.names[0]) else []
  {
  }

  /** A pushbutton sends its command once, if it has exactly one and the id of it is known. */
  lemma PushbuttonSendsIff(m: Model, c: Change)
    requires c.sw.kind.Pushbutton?
    ensures var (m', cs) := Handled(m, c.sw, c.names, c.xplaneValue);
      && m' == m
      && (|c.names| == 1 && c.names[0] in m.commandIds ==> cs == [Command(m.commandIds[c.names[0]], Once)])
      && (cs == [] <==> |c.names| != 1 || c.names[0] !in m.commandIds)
  {
  }

  /** A switch of another kind sends nothing. */
  lemma OtherKindsAreSilent(m: Model, c: Change)
    requires c.sw.kind.OtherKind?
    ensures Handled(m, c.sw, c.names, c.xplaneValue) == (m, [])
  {
  }

  // ---- selectors with a command for each position ----

  /** The position whose command has the id, if there is one: the least. */
  function PositionOf(names: seq<int>, ids: map<int, int>, id: int): (k: Option<nat>)
    ensures k.Some? ==> k.value < |names| && names[k.value] in ids && ids[names[k.value]] == id
  {
    if names == [] then None
    else
      var before := PositionOf(names[..|names| - 1], ids, id);
      var last := names[|names| - 1];
      if before.Some? then before
      else if last in ids && ids[last] == id then Some(|names| - 1)
      else None
  }

  /** A simulator's selector, which goes to the position whose command it is sent. */
  function Selector(position: int, cs: seq<Command>, names: seq<int>, ids: map<int, int>): int {
    if cs == [] then position
    else
      var c := cs[|cs| - 1];
      var k := PositionOf(names, ids, c.id);
      if c.action == Once && k.Some? then k.value else Selector(position, cs[..|cs| - 1], names, ids)
  }

  /** The registered commands of a switch have different ids. */
  ghost predicate DistinctIds(names: seq<int>, ids: map<int, int>) {
    forall k, l :: 0 <= k < l < |names| && names[k] in ids && names[l] in ids ==> ids[names[k]] != ids[names[l]]
  }

  lemma {:induction false} FindsPosition(names: seq<int>, ids: map<int, int>, k: nat)
    requires DistinctIds(names, ids) && k < |names| && names[k] in ids
    ensures PositionOf(names, ids, ids[names[k]]) == Some(k)
  {
    var n := |names| - 1;
    if k < n {
      assert DistinctIds(names[..n], ids);
      FindsPosition(names[..n], ids, k);
    }
  }

  /** The position of the hardware selector is one whose command is registered. */
  predicate HasCommand(names: seq<int>, t: Turn) {
    0 <= t.hw < |names| && names[t.hw] in t.ids
  }

  /** One change of a selector moves the simulator's exactly to the hardware position, if that has a command. */
  lemma SelectorFollows(m: Model, sw: Switch, names: seq<int>, xplaneValue: int, position: int)
    requires sw.kind.RotaryMultiCommands? && sw.hwValue >= 0 && DistinctIds(names, m.commandIds)
    ensures var (m', cs) := Handled(m, sw, names, xplaneValue);
      && m' == m
      && Selector(position, cs, names, m.commandIds) ==
        if sw.hwValue < |names| && names[sw.hwValue] in m.commandIds then sw.hwValue else position
  {
    if sw.hwValue < |names| && names[sw.hwValue] in m.commandIds {
      FindsPosition(names, m.commandIds, sw.hwValue);
    }
  }

  /** The model and the simulator's selector after some turns of the hardware's. */
  function Turning(m: Model, sw: Switch, names: seq<int>, turns: seq<Turn>, position: int): (Model, int)
    requires sw.kind.RotaryMultiCommands? && forall i :: 0 <= i < |turns| ==> turns[i].hw >= 0
  {
    if turns == [] then (m, position)
    else
      var t := turns[|turns| - 1];
      var (m', p) := Turning(m, sw, names, turns[..|turns| - 1], position);
      var (m'', cs) := Handled(m'.(commandIds := t.ids), sw.(hwValue := t.hw), names, t.xplaneValue);
      (m'', Selector(p, cs, names, t.ids))
  }

  /** The last hardware position that has a command, or the position at the start. */
  function LastWithCommand(names: seq<int>, turns: seq<Turn>, position: int): int {
    if turns == [] then position
    else if HasCommand(names, turns[|turns| - 1]) then turns[|turns| - 1].hw
    else LastWithCommand(names, turns[..|turns| - 1], position)
  }

  /** Over any run, ids registered anew in between, the simulator's selector is at the last such position. */
  lemma {:induction false} SelectorFollowsHardware(m: Model, sw: Switch, names: seq<int>, turns: seq<Turn>, position: int)
    requires sw.kind.RotaryMultiCommands? && forall i :: 0 <= i < |turns| ==> turns[i].hw >= 0
    requires forall i :: 0 <= i < |turns| ==> DistinctIds(names, turns[i].ids)
    ensures var (m', p) := Turning(m, sw, names, turns, position);
      && p == LastWithCommand(names, turns, position)
      && m'.springIds == m.springIds && m'.rotary == m.rotary
  {
    if turns != [] {
      hide Handled, Selector, DistinctIds;
      var before, t := turns[..|turns| - 1], turns[|turns| - 1];
      SelectorFollowsHardware(m, sw, names, before, position);
      var (m', p) := Turning(m, sw, names, before, position);
      SelectorFollows(m'.(commandIds := t.ids), sw.(hwValue := t.hw), names, t.xplaneValue, p);
    }
  }

  // ---- two-command rotaries ----

  /** Where a simulator switch ends up that steps up and down on the two commands. */
  function Replayed(position: int, cs: seq<Command>, up: int, down: int): int {
    if cs == [] then position
    else
      var p, c := Replayed(position, cs[..|cs| - 1], up, down), cs[|cs| - 1];
      if c == Command(up, Once) then p + 1 else if c == Command(down, Once) then p - 1 else p
  }

  lemma {:induction false} CopiesReplay(position: int, n: nat, id: int, up: int, down: int)
    requires up != down && (id == up || id == down)
    ensures Replayed(position, Copies(id, n), up, down) == if id == up then position + n else position - n
  {
    if n > 0 {
      CopiesReplay(position, n - 1, id, up, down);
      assert Copies(id, n)[..n - 1] == Copies(id, n - 1);
    }
  }

  lemma {:induction false} ReplayJoins(position: int, a: seq<Command>, b: seq<Command>, up: int, down: int)
    ensures Replayed(position, a + b, up, down) == Replayed(Replayed(position, a, up, down), b, up, down)
  {
    if b == [] {
      assert a + b == a;
    } else {
      ReplayJoins(position, a, b[..|b| - 1], up, down);
      assert (a + b)[..|a + b| - 1] == a + b[..|b| - 1];
    }
  }

  /** A rotary with both of its commands registered under different ids. */
  ghost predicate Rotary(m: Model, sw: Switch, names: seq<int>) {
    && sw.kind.RotaryTwoCommands? && sw.dataref != IRS_DSPL_SEL
    && |names| == 2 && names[0] in m.commandIds && names[1] in m.commandIds
    && m.commandIds[names[0]] != m.commandIds[names[1]]
  }

  /** Hardware on the same side of the simulator's value and of the shadow. */
  predicate SameSide(hw: int, xplaneValue: int, shadow: int) {
    hw == shadow || (hw > xplaneValue <==> hw > shadow)
  }

  /** A handled change sends |hw - shadow| commands, sets the shadow, and moves the right way iff SameSide. */
  lemma RotaryIsExactIff(m: Model, sw: Switch, names: seq<int>, xplaneValue: int, position: int)
    requires Rotary(m, sw, names) && sw.hwValue != xplaneValue
    ensures var (m', cs) := Handled(m, sw, names, xplaneValue);
      var shadow := Shadow(m, sw.dataref, xplaneValue);
      && |cs| == Distance(sw.hwValue, shadow)
      && m' == m.(rotary := m.rotary[sw.dataref := sw.hwValue])
      && (Replayed(position, cs, m.commandIds[names[0]], m.commandIds[names[1]]) == position + (sw.hwValue - shadow)
        <==> SameSide(sw.hwValue, xplaneValue, shadow))
  {
    var up, down := m.commandIds[names[0]], m.commandIds[names[1]];
    var shadow := Shadow(m, sw.dataref, xplaneValue);
    var id := m.commandIds[Selected(sw, names, xplaneValue)];
    CopiesReplay(position, Distance(sw.hwValue, shadow), id, up, down);
  }

  /** One position of the hardware rotary, with the simulator's value and the registered ids at that moment. */
  datatype Turn = Turn(hw: int, xplaneValue: int, ids: map<int, int>)

  ghost predicate AllRotary(m: Model, sw: Switch, names: seq<int>, turns: seq<Turn>) {
    forall i :: 0 <= i < |turns| ==> Rotary(m.(commandIds := turns[i].ids), sw, names)
  }

  /** The model after some turns, and how far their commands have moved the simulator's switch. */
  ghost function Turned(m: Model, sw: Switch, names: seq<int>, turns: seq<Turn>): (r: (Model, int))
    requires AllRotary(m, sw, names, turns)
    ensures r.0.springIds == m.springIds
  {
    if turns == [] then (m, 0)
    else
      var t := turns[|turns| - 1];
      assert Rotary(m.(commandIds := t.ids), sw, names);
      var (m', moved) := Turned(m, sw, names, turns[..|turns| - 1]);
      var (m'', cs) := Handled(m'.(commandIds := t.ids), sw.(hwValue := t.hw), names, t.xplaneValue);
      (m'', moved + Replayed(0, cs, t.ids[names[0]], t.ids[names[1]]))
  }

  predicate IsHandled(t: Turn) {
    t.hw != t.xplaneValue
  }

  /** Every turn that is handled keeps the hardware on one side of the simulator's value and the shadow. */
  ghost predicate Steady(m: Model, sw: Switch, names: seq<int>, turns: seq<Turn>)
    requires AllRotary(m, sw, names, turns)
  {
    turns != [] ==>
      var t := turns[|turns| - 1];
      var m' := Turned(m, sw, names, turns[..|turns| - 1]).0;
      && Steady(m, sw, names, turns[..|turns| - 1])
      && (IsHandled(t) ==> SameSide(t.hw, t.xplaneValue, Shadow(m', sw.dataref, t.xplaneValue)))
  }

  /** The first and the last turn that are handled: one equal to the simulator's value is not. */
  function FirstHandled(turns: seq<Turn>): Option<Turn> {
    if turns == [] then None
    else
      var first := FirstHandled(turns[..|turns| - 1]);
      if first.None? && IsHandled(turns[|turns| - 1]) then Some(turns[|turns| - 1]) else first
  }

  function LastHandled(turns: seq<Turn>): (last: Option<Turn>)
    ensures last.Some? <==> FirstHandled(turns).Some?
  {
    if turns == [] then None
    else if IsHandled(turns[|turns| - 1]) then Some(turns[|turns| - 1])
    else LastHandled(turns[..|turns| - 1])
  }

  /**
    The commands of a whole run telescope, whatever the ids are registered as in between: they move the
    simulator's switch from its value at the first handled turn, or from the shadow there already is, to
    the hardware position of the last one.
  */
  lemma {:induction false} RotaryTelescopes(m: Model, sw: Switch, names: seq<int>, turns: seq<Turn>)
    requires AllRotary(m, sw, names, turns) && Steady(m, sw, names, turns)
    ensures var (m', moved) := Turned(m, sw, names, turns);
      match FirstHandled(turns)
      case None => m'.rotary == m.rotary && moved == 0
      case Some(first) =>
        var end := LastHandled(turns).value.hw;
        m'.rotary == m.rotary[sw.dataref := end] && Shadow(m, sw.dataref, first.xplaneValue) + moved == end
  {
    if turns != [] {
      hide Replayed;
      var before, t := turns[..|turns| - 1], turns[|turns| - 1];
      RotaryTelescopes(m, sw, names, before);
      assert Rotary(m.(commandIds := t.ids), sw, names);
      var m' := Turned(m, sw, names, before).0;
      if IsHandled(t) {
        RotaryIsExactIff(m'.(commandIds := t.ids), sw.(hwValue := t.hw), names, t.xplaneValue, 0);
      } else {
        NothingReplayed(t.ids[names[0]], t.ids[names[1]]);
      }
    }
  }

  lemma NothingReplayed(up: int, down: int)
    ensures Replayed(0, [], up, down) == 0
  {
  }

  /** The first change of a rotary is exact from the simulator's value, with no hypothesis. */
  lemma FirstTurnIsExact(m: Model, sw: Switch, names: seq<int>, xplaneValue: int)
    requires Rotary(m, sw, names) && sw.dataref !in m.rotary && sw.hwValue != xplaneValue
    ensures var (m', cs) := Handled(m, sw, names, xplaneValue);
      && Replayed(xplaneValue, cs, m.commandIds[names[0]], m.commandIds[names[1]]) == sw.hwValue
      && m'.rotary[sw.dataref] == sw.hwValue
  {
    RotaryIsExactIff(m, sw, names, xplaneValue, xplaneValue);
  }

  /** The test position of the one rotary that leaves it by itself: the shadow goes on to 1. */
  lemma TestPositionReturns(m: Model, sw: Switch, names: seq<int>, xplaneValue: int)
    requires sw.kind.RotaryTwoCommands? && sw.dataref == IRS_DSPL_SEL && |names| == 2
    requires names[0] in m.commandIds && names[1] in m.commandIds && sw.hwValue == 0 && xplaneValue != 0
    ensures var (m', cs) := Handled(m, sw, names, xplaneValue);
      && m' == m.(rotary := m.rotary[sw.dataref := 1])
      && |cs| == Distance(0, Shadow(m, sw.dataref, xplaneValue))
      && Shadow(m', sw.dataref, xplaneValue) == 1
  {
  }

  /** The counterexample: turned to 3 and back to 2 before the simulator has left 0, a rotary ends at 4. */
  lemma RotaryOvershoots(dataref: int)
    requires dataref != IRS_DSPL_SEL
    ensures var ids := map[10 := 1, 11 := 2];
      var m, sw := Model(ids, map[], map[]), Switch(dataref, RotaryTwoCommands, 0, 0);
      var turns := [Turn(3, 0, ids), Turn(2, 0, ids)];
      && AllRotary(m, sw, [10, 11], turns) && AllRotary(m, sw, [10, 11], turns[..1])
      && !SameSide(2, 0, Shadow(Turned(m, sw, [10, 11], turns[..1]).0, dataref, 0))
      && Turned(m, sw, [10, 11], turns).1 == 4
  {
    var ids, names := map[10 := 1, 11 := 2], [10, 11];
    var m, sw := Model(ids, map[], map[]), Switch(dataref, RotaryTwoCommands, 0, 0);
    var turns := [Turn(3, 0, ids), Turn(2, 0, ids)];
    assert turns[..1] == [turns[0]] && turns[..1][..0] == [];
    assert m.(commandIds := ids) == m && map[][dataref := 3] == map[dataref := 3];
    RotaryIsExactIff(m, sw.(hwValue := 3), names, 0, 0);
    assert Turned(m, sw, names, []) == (m, 0);
    var m1 := Turned(m, sw, names, turns[..1]).0;
    assert m1 == Handled(m, sw.(hwValue := 3), names, 0).0;
    assert Turned(m, sw, names, turns[..1]).1 == 3;
    CopiesReplay(0, 1, 1, 1, 2);
  }
}
