/** The loops of Server::update over the registered datarefs and the connected clients. */
module Publisher {
  import opened Common
  import opened DataRefs
  import opened Broadcast

  /** Sampling every cell and then taking the changed ones is one announcement. */
  lemma SampleThenTake(s: State, contents: map<int, seq<int>>, sampled: map<int, Cell>,
                       taken: map<int, Cell>, changed: map<int, seq<int>>)
    requires Shaped(s) && FitsAll(s, contents)
    requires sampled.Keys == s.cells.Keys == taken.Keys
    requires forall id :: id in sampled ==> Valid(sampled[id]) && sampled[id] == Sampled(s.cells[id], contents[id])
    requires forall id :: id in taken ==> taken[id] == Changed(sampled[id]).0
    requires forall id :: id in changed <==> id in sampled && Changed(sampled[id]).1.Some?
    requires forall id :: id in changed ==> changed[id] == sampled[id].newValue
    ensures taken == Announced(s, contents).cells
    ensures changed == ChangedValues(s.cells, contents)
  {
    var t := Announced(s, contents);
    forall id | id in taken
      ensures taken[id] == t.cells[id]
    {
      assert sampled[id] == Sampled(s.cells[id], contents[id]);
    }
    var expected := ChangedValues(s.cells, contents);
    forall id: int
      ensures id in changed <==> id in expected
      ensures id in changed ==> changed[id] == expected[id]
    {
      if id in sampled {
        assert sampled[id] == Sampled(s.cells[id], contents[id]);
      }
    }
  }

  lemma PacketsCarryReplicas(s: State, contents: map<int, seq<int>>, changed: map<int, seq<int>>,
                             packets: map<int, map<int, seq<int>>>)
    requires Shaped(s) && FitsAll(s, contents) && changed == ChangedValues(s.cells, contents)
    requires packets == map c | c in s.held && DataFor(s.held[c], changed) != map[] :: DataFor(s.held[c], changed)
    ensures s.held.Keys == s.replicas.Keys
    ensures forall c :: c in s.held ==>
      Announced(s, contents).replicas[c] == s.replicas[c] + if c in packets then packets[c] else map[]
  {
    hide DataFor;
  }

  lemma RequestsAreConfirmed(s: State, c: int, readings: map<int, Reading>, sampled: map<int, Cell>,
                             taken: map<int, Cell>, values: map<int, seq<int>>)
    requires Shaped(s) && c in s.held && ReadingsFit(s, readings)
    requires forall id :: id in sampled <==> id in s.cells || id in readings
    requires forall id :: id in taken <==> id in sampled
    requires forall id :: id in values <==> id in readings
    requires forall id :: id in readings ==>
      Valid(sampled[id]) && sampled[id] == Sampled(CellOf(s, id, readings[id].kind), readings[id].content)
    requires forall id :: id in sampled && id !in readings ==> sampled[id] == s.cells[id] == taken[id]
    requires forall id :: id in readings ==> taken[id] == Changed(sampled[id]).0
    requires forall id :: id in readings ==> values[id] == sampled[id].newValue
    ensures taken == Confirmed(s, c, readings).cells
    ensures Confirmed(s, c, readings).replicas[c] == s.replicas[c] + values
  {
    var cells := RefreshedCells(s, readings);
    forall id | id in readings
      ensures taken[id] == cells[id] && values[id] == NewValues(cells)[id]
    {
      ChangedCaches(sampled[id]);
    }
    Overlaid(s.cells, cells, taken);
    Overlaid(s.replicas[c], NewValues(cells), s.replicas[c] + values);
  }

  lemma Overlaid<V>(base: map<int, V>, over: map<int, V>, both: map<int, V>)
    requires forall id :: id in both <==> id in base || id in over
    requires forall id :: id in over ==> both[id] == over[id]
    requires forall id :: id in base && id !in over ==> both[id] == base[id]
    ensures both == base + over
  {
    assert forall id: int :: id in both <==> id in base + over;
    assert both.Keys == (base + over).Keys;
    assert forall id :: id in both ==> both[id] == (base + over)[id];
  }

  lemma ChangedStays(cells: map<int, Cell>, id: int)
    requires id in cells ==> Valid(cells[id])
    ensures id in cells ==>
      var c := Changed(cells[id]).0;
      Valid(c) && Changed(c).0 == c && c.newValue == cells[id].newValue
  {
    if id in cells {
      ChangedTwice(cells[id]);
    }
  }

  class Store {
    var cells: map<int, Cell>

    ghost predicate Good()
      reads this
    {
      forall id :: id in cells ==> Valid(cells[id])
    }

    constructor ()
      ensures cells == map[]
    {
      cells := map[];
    }

    /** Make a cell for each requested id that has none, as the repository does for a new name. */
    method Create(ids: seq<int>, readings: map<int, Reading>)
      requires Good() && forall id :: id in ids ==> id in readings
      modifies this
      ensures Good()
      ensures forall id :: id in cells <==> id in old(cells) || id in ids
      ensures forall id :: id in cells ==> cells[id] == if id in old(cells) then old(cells)[id] else NewCell(readings[id].kind)
    {
      for i := 0 to |ids|
        invariant Good()
        invariant forall id :: id in cells <==> id in old(cells) || id in ids[..i]
        invariant forall id :: id in cells ==> cells[id] == if id in old(cells) then old(cells)[id] else NewCell(readings[id].kind)
      {
        var id := ids[i];
        assert id in ids;
        if id !in cells {
          cells := cells[id := NewCell(readings[id].kind)];
        }
      }
    }

    /** Sample the requested datarefs; one that is requested twice is sampled twice. */
    method UpdateValuesForRequestedIds(ids: seq<int>, readings: map<int, Reading>)
      requires Good()
      requires forall id :: id in ids && id in cells ==> id in readings && Fits(cells[id], readings[id].content)
      modifies this
      ensures Good() && cells.Keys == old(cells).Keys
      ensures forall id :: id in cells ==>
        cells[id] == if id in ids then Sampled(old(cells)[id], readings[id].content) else old(cells)[id]
    {
      for i := 0 to |ids|
        invariant Good() && cells.Keys == old(cells).Keys
        invariant forall id :: id in cells ==>
          cells[id] == if id in ids[..i] then Sampled(old(cells)[id], readings[id].content) else old(cells)[id]
      {
        hide Sampled, Fits;
        var id := ids[i];
        if id in cells {
          SampledTwice(old(cells)[id], readings[id].content);
          cells := cells[id := Sampled(cells[id], readings[id].content)];
        }
      }
    }

    /** The sample of one dataref, which its cache takes over. */
    method TakeValue(id: int) returns (value: Option<seq<int>>)
      requires Good()
      modifies this
      ensures Good() && cells == if id in old(cells) then old(cells)[id := Changed(old(cells)[id]).0] else old(cells)
      ensures value == if id in old(cells) then Some(old(cells)[id].newValue) else None
    {
      hide Changed, Valid;
      value := None;
      if id in cells {
        ChangedTwice(cells[id]);
        cells := cells[id := Changed(cells[id]).0];
        value := Some(cells[id].newValue);
      }
    }

    /** The samples of the requested datarefs, which the caches take over. */
    method ValuesForRequestedIds(ids: seq<int>) returns (values: map<int, seq<int>>)
      requires Good()
      modifies this
      ensures Good() && cells.Keys == old(cells).Keys
      ensures forall id :: id in cells ==> cells[id] == if id in ids then Changed(old(cells)[id]).0 else old(cells)[id]
      ensures forall id :: id in values <==> id in ids && id in old(cells)
      ensures forall id :: id in values ==> values[id] == old(cells)[id].newValue
    {
      hide Changed, Valid;
      values := map[];
      for i := 0 to |ids|
        invariant Good() && cells.Keys == old(cells).Keys
        invariant forall id :: id in cells ==> cells[id] == if id in ids[..i] then Changed(old(cells)[id]).0 else old(cells)[id]
        invariant forall id :: id in values <==> id in ids[..i] && id in old(cells)
        invariant forall id :: id in values ==> values[id] == old(cells)[id].newValue
      {
        var value := TakeValue(ids[i]);
        ChangedStays(old(cells), ids[i]);
        if value.Some? {
          values := values[ids[i] := value.value];
        }
      }
    }

    /** The answer to a subscription: what it says turns client c's replica into the confirmed one. */
    method Confirm(c: int, ids: seq<int>, readings: map<int, Reading>, ghost s: State) returns (values: map<int, seq<int>>)
      requires Shaped(s) && c in s.held && ReadingsFit(s, readings) && cells == s.cells
      requires forall id :: id in ids <==> id in readings
      modifies this
      ensures cells == Confirmed(s, c, readings).cells
      ensures Confirmed(s, c, readings).replicas[c] == s.replicas[c] + values
    {
      hide Sampled, Changed, NewCell;
      Create(ids, readings);
      UpdateValuesForRequestedIds(ids, readings);
      ghost var sampled := cells;
      values := ValuesForRequestedIds(ids);
      RequestsAreConfirmed(s, c, readings, sampled, cells, values);
    }

    /** Sample every dataref. */
    method UpdateValues(contents: map<int, seq<int>>)
      requires Good() && cells.Keys <= contents.Keys
      requires forall id :: id in cells ==> Fits(cells[id], contents[id])
      modifies this
      ensures Good()
      ensures cells.Keys == old(cells).Keys
      ensures forall id :: id in cells ==> cells[id] == Sampled(old(cells)[id], contents[id])
    {
      var rest := cells.Keys;
      while rest != {}
        invariant rest <= cells.Keys == old(cells).Keys
        invariant forall id :: id in cells ==>
          cells[id] == if id in rest then old(cells)[id] else Sampled(old(cells)[id], contents[id])
        decreases |rest|
      {
        ghost var member := SomeMember(rest);
        var id :| id in rest;
        cells := cells[id := Sampled(cells[id], contents[id])];
        rest := rest - {id};
      }
    }

    /** The sample of one dataref if it differs from the cache, which then takes it over. */
    method TakeChanged(id: int) returns (value: Option<seq<int>>)
      requires Good() && id in cells
      modifies this
      ensures Good() && cells == old(cells)[id := Changed(old(cells)[id]).0]
      ensures value == if Changed(old(cells)[id]).1.Some? then Some(old(cells)[id].newValue) else None
    {
      var (cell, changed) := Changed(cells[id]);
      ChangedCaches(cells[id]);
      cells := cells[id := cell];
      value := changed;
    }

    /** Collect the values that differ from the cache, which takes them over. */
    method TakeChangedValues() returns (changed: map<int, seq<int>>)
      requires Good()
      modifies this
      ensures Good()
      ensures cells.Keys == old(cells).Keys
      ensures forall id :: id in cells ==> cells[id] == Changed(old(cells)[id]).0
      ensures forall id :: id in changed <==> id in old(cells) && Changed(old(cells)[id]).1.Some?
      ensures forall id :: id in changed ==> changed[id] == old(cells)[id].newValue
    {
      changed := map[];
      var rest := cells.Keys;
      while rest != {}
        invariant rest <= cells.Keys == old(cells).Keys
        invariant forall id :: id in cells ==> cells[id] == if id in rest then old(cells)[id] else Changed(old(cells)[id]).0
        invariant forall id :: id in changed <==> id in old(cells) && id !in rest && Changed(old(cells)[id]).1.Some?
        invariant forall id :: id in changed ==> changed[id] == old(cells)[id].newValue
        decreases |rest|
      {
        hide Changed, Valid;
        ghost var member := SomeMember(rest);
        var id :| id in rest;
        var value := TakeChanged(id);
        if value.Some? {
          changed := changed[id := value.value];
        }
        rest := rest - {id};
      }
    }

    /** The data packets of one update: one for every client that holds a changed dataref. */
    method DataPackets(held: map<int, set<int>>, changed: map<int, seq<int>>) returns (packets: map<int, map<int, seq<int>>>)
      ensures packets == map c | c in held && DataFor(held[c], changed) != map[] :: DataFor(held[c], changed)
    {
      packets := map[];
      var rest := held.Keys;
      while rest != {}
        invariant rest <= held.Keys
        invariant packets == map c | c in held && c !in rest && DataFor(held[c], changed) != map[] :: DataFor(held[c], changed)
        decreases |rest|
      {
        ghost var member := SomeMember(rest);
        var c :| c in rest;
        var data := DataFor(held[c], changed);
        if data != map[] {
          packets := packets[c := data];
        }
        rest := rest - {c};
      }
    }

    /** Sample, collect and address: what the clients receive turns their replicas into the announced ones. */
    method Publish(contents: map<int, seq<int>>, held: map<int, set<int>>, ghost s: State) returns (packets: map<int, map<int, seq<int>>>)
      requires Shaped(s) && FitsAll(s, contents) && cells == s.cells && held == s.held
      modifies this
      ensures cells == Announced(s, contents).cells
      ensures packets.Keys <= s.held.Keys
      ensures forall c :: c in s.held ==>
        Announced(s, contents).replicas[c] == s.replicas[c] + if c in packets then packets[c] else map[]
    {
      hide Announced, DataFor, Sampled, Changed, ChangedValues;
      UpdateValues(contents);
      ghost var sampled := cells;
      var changed := TakeChangedValues();
      SampleThenTake(s, contents, sampled, cells, changed);
      packets := DataPackets(held, changed);
      PacketsCarryReplicas(s, contents, changed, packets);
    }
  }
}
