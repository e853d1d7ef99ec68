/**
  How the cockpit turns hardware switch changes into X-Plane commands: spring-loaded switches begin
  and end a command, two-command rotaries send one step per position, the others send one command.
*/
module Switches {
  import opened Common

  datatype Kind = Toggle | Pushbutton | SpringLoaded | RotaryTwoCommands | RotaryMultiCommands | OtherKind

  /** A change of the hardware switch that drives `dataref`. */
  datatype Switch = Switch(dataref: int, kind: Kind, returnValue: int, hwValue: int)

  datatype Action = Once | Begin | End
  datatype Command = Command(id: int, action: Action)

  /** Ids the server confirmed per command name, the open spring-loaded commands, the rotary shadows. */
  datatype Model = Model(commandIds: map<int, int>, springIds: map<int, int>, rotary: map<int, int>)

  /** The one rotary whose test position returns to 1 by itself. */
  const IRS_DSPL_SEL := 0

  /** The names of a switch's commands; a spring-loaded switch needs one, a position must exist. */
  ghost predicate ValidNames(sw: Switch, names: seq<int>) {
    && (sw.kind.SpringLoaded? ==> |names| >= 1)
    && (sw.kind.RotaryMultiCommands? ==> sw.hwValue >= 0)
  }

  /** The second of two commands decreases; it is chosen from the value X-Plane last sent. */
  function Selected(sw: Switch, names: seq<int>, xplaneValue: int): int
    requires |names| >= 1
  {
    if sw.hwValue <= xplaneValue && |names| == 2 then names[1] else names[0]
  }

  function Distance(a: int, b: int): nat {
    if a < b then b - a else a - b
  }

  function Copies(id: int, n: nat): (r: seq<Command>)
    ensures |r| == n
  {
    seq(n, _ => Command(id, Once))
  }

  function SpringHandled(m: Model, sw: Switch, id: int): (Model, seq<Command>) {
    var open := sw.dataref in m.springIds && m.springIds[sw.dataref] >= 0;
    var idle := sw.dataref !in m.springIds || m.springIds[sw.dataref] == -1;
    if sw.hwValue == sw.returnValue then
      if open then (m.(springIds := m.springIds[sw.dataref := -1]), [Command(m.springIds[sw.dataref], End)])
      else (m, [])
    else if idle then (m.(springIds := m.springIds[sw.dataref := id]), [Command(id, Begin)])
    else (m, [])
  }

  /** The rotary position the commands sent so far add up to; the simulator's value before the first. */
  function Shadow(m: Model, d: int, xplaneValue: int): int {
    if d in m.rotary then m.rotary[d] else xplaneValue
  }

  function RotaryHandled(m: Model, sw: Switch, id: int, xplaneValue: int): (Model, seq<Command>) {
    var shadow := Shadow(m, sw.dataref, xplaneValue);
    var next := if sw.dataref == IRS_DSPL_SEL && sw.hwValue == 0 then 1 else sw.hwValue;
    (m.(rotary := m.rotary[sw.dataref := next]), Copies(id, Distance(sw.hwValue, shadow)))
  }

  /** build_xplane_commands */
  function Built(m: Model, sw: Switch, names: seq<int>, xplaneValue: int): (Model, seq<Command>)
    requires ValidNames(sw, names)
  {
    if sw.kind.RotaryMultiCommands? || (|names| < 2 && !sw.kind.SpringLoaded?) then (m, [])
    else
      var name := Selected(sw, names, xplaneValue);
      if name !in m.commandIds then (m, [])
      else
        var id := m.commandIds[name];
        match sw.kind
        case Toggle => (m, [Command(id, Once)])
        case SpringLoaded => SpringHandled(m, sw, id)
        case RotaryTwoCommands => RotaryHandled(m, sw, id, xplaneValue)
        case _ => (m, [])
  }

  function OnceIfKnown(m: Model, name: int): seq<Command> {
    if name in m.commandIds then [Command(m.commandIds[name], Once)] else []
  }

  /** process_hw_switch_commands */
  function Handled(m: Model, sw: Switch, names: seq<int>, xplaneValue: int): (Model, seq<Command>)
    requires ValidNames(sw, names)
  {
    match sw.kind
    case Pushbutton => (m, if |names| == 1 then OnceIfKnown(m, names[0]) else [])
    case RotaryMultiCommands => (m, if sw.hwValue < |names| then OnceIfKnown(m, names[sw.hwValue]) else [])
    case OtherKind => (m, [])
    case _ =>
      if sw.hwValue != xplaneValue || (sw.kind.SpringLoaded? && sw.hwValue == sw.returnValue)
      then Built(m, sw, names, xplaneValue)
      else (m, [])
  }

  // ---- the aircraft model in place ----

  /** A queued change with the commands of its switch and the value X-Plane last sent for it. */
  datatype Change = Change(sw: Switch, names: seq<int>, xplaneValue: int)

  function AllHandled(m: Model, changes: seq<Change>): (Model, seq<Command>)
    requires forall i :: 0 <= i < |changes| ==> ValidNames(changes[i].sw, changes[i].names)
  {
    if changes == [] then (m, [])
    else
      var c := changes[|changes| - 1];
      var (m', sent) := AllHandled(m, changes[..|changes| - 1]);
      var (m'', more) := Handled(m', c.sw, c.names, c.xplaneValue);
      (m'', sent + more)
  }

  class AircraftModel {
    var commandIds: map<int, int>
    var springIds: map<int, int>
    var rotary: map<int, int>
    var pending: seq<Change>

    function View(): Model
      reads this
    {
      Model(commandIds, springIds, rotary)
    }

    constructor ()
      ensures View() == Model(map[], map[], map[]) && pending == []
    {
      commandIds, springIds, rotary, pending := map[], map[], map[], [];
    }

    method PushSwitchChange(c: Change)
      modifies this`pending
      ensures pending == old(pending) + [c]
    {
      pending := pending + [c];
    }

    /** Send single steps until the shadow meets the hardware position. */
    method StepRotary(id: int, hwValue: int, shadow: int) returns (commands: seq<Command>)
      ensures commands == Copies(id, Distance(hwValue, shadow))
    {
      commands := [];
      var value := shadow;
      var direction := if hwValue <= value then -1 else 1;
      while hwValue != value
        invariant direction == -1 ==> hwValue <= value <= shadow
        invariant direction == 1 ==> shadow <= value <= hwValue
        invariant direction == 1 || direction == -1
        invariant commands == Copies(id, Distance(value, shadow))
        decreases Distance(hwValue, value)
      {
        commands := commands + [Command(id, Once)];
        value := value + direction;
      }
    }

    method BuildXplaneCommands(sw: Switch, names: seq<int>, xplaneValue: int) returns (commands: seq<Command>)
      requires ValidNames(sw, names)
      modifies this
      ensures (View(), commands) == Built(old(View()), sw, names, xplaneValue)
      ensures pending == old(pending)
    {
      commands := [];
      if sw.kind == RotaryMultiCommands {
        // reported as an unexpected switch type
      } else if |names| >= 2 || sw.kind == SpringLoaded {
        var name := names[0];
        if sw.hwValue <= xplaneValue && |names| == 2 {
          name := names[1];
        }
        if name in commandIds {
          var id := commandIds[name];
          if sw.kind == Toggle {
            commands := [Command(id, Once)];
          } else if sw.kind == SpringLoaded {
            if sw.hwValue == sw.returnValue {
              if sw.dataref in springIds && springIds[sw.dataref] >= 0 {
                commands := [Command(springIds[sw.dataref], End)];
                springIds := springIds[sw.dataref := -1];
              }
            } else if sw.dataref !in springIds || springIds[sw.dataref] == -1 {
              springIds := springIds[sw.dataref := id];
              commands := [Command(id, Begin)];
            }
          } else if sw.kind == RotaryTwoCommands {
            if sw.dataref !in rotary {
              rotary := rotary[sw.dataref := xplaneValue];
            }
            commands := StepRotary(id, sw.hwValue, rotary[sw.dataref]);
            rotary := rotary[sw.dataref := if sw.dataref == IRS_DSPL_SEL && sw.hwValue == 0 then 1 else sw.hwValue];
            assert rotary == RotaryHandled(old(View()), sw, id, xplaneValue).0.rotary;
          }
        }
      }
    }

    method ProcessHwSwitchCommands(sw: Switch, names: seq<int>, xplaneValue: int) returns (commands: seq<Command>)
      requires ValidNames(sw, names)
      modifies this
      ensures (View(), commands) == Handled(old(View()), sw, names, xplaneValue)
      ensures pending == old(pending)
    {
      commands := [];
      if sw.kind == Pushbutton {
        if |names| == 1 && names[0] in commandIds {
          commands := [Command(commandIds[names[0]], Once)];
        }
      } else if sw.kind == RotaryMultiCommands {
        if sw.hwValue < |names| && names[sw.hwValue] in commandIds {
          commands := [Command(commandIds[names[sw.hwValue]], Once)];
        }
      } else if sw.kind == RotaryTwoCommands || sw.kind == Toggle || sw.kind == SpringLoaded {
        if sw.hwValue != xplaneValue || (sw.kind == SpringLoaded && sw.hwValue == sw.returnValue) {
          commands := BuildXplaneCommands(sw, names, xplaneValue);
        }
      }
    }

    /** Handle every queued change, oldest first. */
    method UpdateSwitchValues() returns (commands: seq<Command>)
      requires forall i :: 0 <= i < |pending| ==> ValidNames(pending[i].sw, pending[i].names)
      modifies this
      ensures pending == []
      ensures (View(), commands) == AllHandled(old(View()), old(pending))
    {
      hide Handled;
      commands := [];
      ghost var all, n := pending, 0;
      assert all[..0] == [];
      while |pending| > 0
        invariant n <= |all| && pending == all[n..]
        invariant (View(), commands) == AllHandled(old(View()), all[..n])
        decreases |pending|
      {
        var c := pending[0];
        pending := pending[1..];
        var more := ProcessHwSwitchCommands(c.sw, c.names, c.xplaneValue);
        commands := commands + more;
        assert all[..n + 1][..n] == all[..n];
        n := n + 1;
      }
      assert all[..n] == all;
    }
  }
}
