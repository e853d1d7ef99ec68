/**
  Announcing only what changed. A client learns a dataref from the confirmation of its subscription and
  from data packets; what it knows is its replica. Delivery is taken as lossless and in order.
*/
module Broadcast {
  import opened Common
  import opened DataRefs

  /** The server's cells, the ids each client holds, and what each client has been told. */
  datatype State = State(cells: map<int, Cell>, held: map<int, set<int>>, replicas: map<int, map<int, seq<int>>>)

  ghost predicate Shaped(s: State) {
    && (forall id :: id in s.cells ==> Valid(s.cells[id]))
    && s.held.Keys == s.replicas.Keys
    && (forall c :: c in s.held ==> s.held[c] <= s.cells.Keys && s.held[c] <= s.replicas[c].Keys)
  }

  /** Every replica is the cached value. */
  ghost predicate Synced(s: State)
    requires Shaped(s)
  {
    forall c, id :: c in s.held && id in s.held[c] ==> s.replicas[c][id] == s.cells[id].value
  }

  /** Every replica is the value sampled last. */
  ghost predicate UpToDate(s: State)
    requires Shaped(s)
  {
    forall c, id :: c in s.held && id in s.held[c] ==> s.replicas[c][id] == s.cells[id].newValue
  }

  // ---- events ----

  /** The cell of an id after a subscription sampled it; the announcement is discarded. */
  function Refreshed(cell: Cell, content: seq<int>): (r: Cell)
    requires Valid(cell) && Fits(cell, content)
    ensures Valid(r) && r.kind == cell.kind
  {
    Changed(Sampled(cell, content)).0
  }

  /** The cell a subscription finds, new if nobody has subscribed the id yet. */
  function CellOf(s: State, id: int, kind: Kind): Cell {
    if id in s.cells then s.cells[id] else NewCell(kind)
  }

  /** What X-Plane holds for a requested dataref, and the type it is requested with. */
  datatype Reading = Reading(kind: Kind, content: seq<int>)

  ghost predicate ReadingsFit(s: State, readings: map<int, Reading>) {
    forall id :: id in readings ==> Fits(CellOf(s, id, readings[id].kind), readings[id].content)
  }

  function RefreshedCells(s: State, readings: map<int, Reading>): (cells: map<int, Cell>)
    requires Shaped(s) && ReadingsFit(s, readings)
    ensures cells.Keys == readings.Keys
  {
    map id | id in readings :: Refreshed(CellOf(s, id, readings[id].kind), readings[id].content)
  }

  function NewValues(cells: map<int, Cell>): (values: map<int, seq<int>>)
    ensures values.Keys == cells.Keys
  {
    map id | id in cells :: cells[id].newValue
  }

  /** Client c's subscriptions: the requested cells are sampled and the samples confirmed to c alone. */
  function Confirmed(s: State, c: int, readings: map<int, Reading>): (t: State)
    requires Shaped(s) && c in s.held && ReadingsFit(s, readings)
    ensures Shaped(t)
  {
    var cells := RefreshedCells(s, readings);
    State(s.cells + cells,
          s.held[c := s.held[c] + readings.Keys],
          s.replicas[c := s.replicas[c] + NewValues(cells)])
  }

  /** The contents X-Plane holds for every cell at one moment. */
  ghost predicate FitsAll(s: State, contents: map<int, seq<int>>) {
    s.cells.Keys <= contents.Keys && forall id :: id in s.cells ==> Fits(s.cells[id], contents[id])
  }

  function ChangedValues(cells: map<int, Cell>, contents: map<int, seq<int>>): map<int, seq<int>>
    requires cells.Keys <= contents.Keys
    requires forall id :: id in cells ==> Valid(cells[id]) && Fits(cells[id], contents[id])
  {
    map id | id in cells && Changed(Sampled(cells[id], contents[id])).1.Some? :: Sampled(cells[id], contents[id]).newValue
  }

  /** The data packet for one client: the changed values of the ids it holds. */
  function DataFor(held: set<int>, changed: map<int, seq<int>>): map<int, seq<int>> {
    map id | id in changed && id in held :: changed[id]
  }

  /** The last part of Server::update: sample everything, announce what changed to who holds it. */
  function Announced(s: State, contents: map<int, seq<int>>): (t: State)
    requires Shaped(s) && FitsAll(s, contents)
    ensures Shaped(t)
  {
    var changed := ChangedValues(s.cells, contents);
    State(map id | id in s.cells :: Refreshed(s.cells[id], contents[id]),
          s.held,
          map c | c in s.held :: s.replicas[c] + DataFor(s.held[c], changed))
  }

  // ---- one subscription and one announcement ----

  lemma ConfirmedTo(s: State, c: int, readings: map<int, Reading>, d: int, i: int)
    requires Shaped(s) && c in s.held && ReadingsFit(s, readings)
    requires d in s.held && (i in s.held[d] || (d == c && i in readings))
    ensures var t := Confirmed(s, c, readings);
      && i in t.held[d]
      && t.replicas[d][i] == (if d == c && i in readings then t.cells[i].newValue else s.replicas[d][i])
      && t.cells[i] ==
        (if i in readings then Refreshed(CellOf(s, i, readings[i].kind), readings[i].content) else s.cells[i])
  {
  }

  /** Nobody but c holds the id. */
  ghost predicate Alone(s: State, c: int, id: int)
    requires Shaped(s)
  {
    forall d :: d in s.held && d != c ==> id !in s.held[d]
  }

  ghost predicate Unchanged(s: State, id: int, content: seq<int>)
    requires Shaped(s)
    requires id in s.cells ==> Fits(s.cells[id], content)
  {
    id in s.cells && Sampled(s.cells[id], content).newValue == s.cells[id].value
  }

  /** A subscription that no other holder misses: c alone holds the id, or its value has not changed. */
  ghost predicate Harmless(s: State, c: int, id: int, content: seq<int>)
    requires Shaped(s)
    requires id in s.cells ==> Fits(s.cells[id], content)
  {
    Alone(s, c, id) || Unchanged(s, id, content)
  }

  /** Subscriptions keep every replica synced exactly if each of them is harmless. */
  lemma ConfirmKeepsSyncedIff(s: State, c: int, readings: map<int, Reading>)
    requires Shaped(s) && Synced(s) && c in s.held && ReadingsFit(s, readings)
    ensures Synced(Confirmed(s, c, readings))
      <==> forall id :: id in readings ==> Harmless(s, c, id, readings[id].content)
  {
    hide Confirmed, Harmless;
    if id :| id in readings && !Harmless(s, c, id, readings[id].content) {
      HarmfulUnsyncs(s, c, readings, id);
    } else {
      HarmlessKeepsSynced(s, c, readings);
    }
  }

  lemma HarmfulUnsyncs(s: State, c: int, readings: map<int, Reading>, id: int)
    requires Shaped(s) && Synced(s) && c in s.held && ReadingsFit(s, readings)
    requires id in readings && !Harmless(s, c, id, readings[id].content)
    ensures !Synced(Confirmed(s, c, readings))
  {
    var d :| d in s.held && d != c && id in s.held[d];
    ReplicaAfterConfirmation(s, c, readings, d, id);
    hide Unchanged, ReadingsFit, Fits;
    var t := Confirmed(s, c, readings);
    assert d in t.held;
  }

  lemma HarmlessKeepsSynced(s: State, c: int, readings: map<int, Reading>)
    requires Shaped(s) && Synced(s) && c in s.held && ReadingsFit(s, readings)
    requires forall id :: id in readings ==> Harmless(s, c, id, readings[id].content)
    ensures Synced(Confirmed(s, c, readings))
  {
    var t := Confirmed(s, c, readings);
    assert t.held == s.held[c := s.held[c] + readings.Keys];
    hide Confirmed, Unchanged, ReadingsFit, Fits;
    forall d, i | d in t.held && i in t.held[d]
      ensures t.replicas[d][i] == t.cells[i].value
    {
      ReplicaAfterConfirmation(s, c, readings, d, i);
    }
  }

  lemma ReplicaAfterConfirmation(s: State, c: int, readings: map<int, Reading>, d: int, i: int)
    requires Shaped(s) && Synced(s) && c in s.held && ReadingsFit(s, readings)
    requires d in s.held && (i in s.held[d] || (d == c && i in readings))
    ensures var t := Confirmed(s, c, readings);
      && i in t.held[d]
      && (t.replicas[d][i] == t.cells[i].value
        <==> d == c || i !in readings || Unchanged(s, i, readings[i].content))
  {
    ConfirmedTo(s, c, readings, d, i);
    if i in readings {
      ChangedCaches(Sampled(CellOf(s, i, readings[i].kind), readings[i].content));
    }
  }

  lemma AnnouncedTo(s: State, contents: map<int, seq<int>>, d: int, i: int)
    requires Shaped(s) && FitsAll(s, contents)
    requires d in s.held && i in s.held[d]
    ensures var t, cell := Announced(s, contents), Sampled(s.cells[i], contents[i]);
      && t.cells[i].value == t.cells[i].newValue == cell.newValue
      && t.replicas[d][i] == if cell.value != cell.newValue then cell.newValue else s.replicas[d][i]
  {
    ChangedCaches(Sampled(s.cells[i], contents[i]));
  }

  /** After an announcement a replica is up to date exactly if it was told, or already had the sample. */
  lemma AnnouncementReachesIff(s: State, contents: map<int, seq<int>>, d: int, i: int)
    requires Shaped(s) && FitsAll(s, contents)
    requires d in s.held && i in s.held[d]
    ensures var t, cell := Announced(s, contents), Sampled(s.cells[i], contents[i]);
      t.replicas[d][i] == t.cells[i].newValue <==> cell.value != cell.newValue || s.replicas[d][i] == cell.newValue
  {
    AnnouncedTo(s, contents, d, i);
  }

  /** From synced replicas, a stale one needs a reset: an array that came back empty-looking, all zeros. */
  lemma AnnouncementIsExactIff(s: State, contents: map<int, seq<int>>)
    requires Shaped(s) && Synced(s) && FitsAll(s, contents)
    ensures UpToDate(Announced(s, contents)) <==>
      forall c, id :: c in s.held && id in s.held[c] ==> !LosesReset(s.cells[id], contents[id])
  {
    forall c, id | c in s.held && id in s.held[c]
      ensures var t := Announced(s, contents);
        t.replicas[c][id] == t.cells[id].newValue <==> !LosesReset(s.cells[id], contents[id])
    {
      AnnouncementReachesIff(s, contents, c, id);
    }
  }

  /** A sample that resets the cache, reads as zeros, and so goes unannounced although the replica differs. */
  predicate LosesReset(cell: Cell, content: seq<int>)
    requires Valid(cell) && Fits(cell, content)
  {
    && Resets(cell, content)
    && var c := Sampled(cell, content);
      c.newValue == Zeros(c.size) && cell.value != c.newValue
  }

  /** After an announcement every cache is its sample, so synced and up to date are the same. */
  lemma AnnouncedCaches(s: State, contents: map<int, seq<int>>)
    requires Shaped(s) && FitsAll(s, contents)
    ensures var t := Announced(s, contents); Synced(t) <==> UpToDate(t)
  {
    var t := Announced(s, contents);
    forall id | id in t.cells
      ensures t.cells[id].value == t.cells[id].newValue
    {
      ChangedCaches(Sampled(s.cells[id], contents[id]));
    }
  }

  /**
    Subscription and announcement together: another holder d of the id ends up stale exactly if the
    last sample differs from what d knows and equals the cache that the subscription left, which is
    that subscription's sample unless the last one resets it to zeros.
  */
  lemma SilentRefresh(s: State, c: int, readings: map<int, Reading>, contents: map<int, seq<int>>, d: int, id: int)
    requires Shaped(s) && Synced(s) && c in s.held && ReadingsFit(s, readings)
    requires d in s.held && d != c && id in s.held[d] && id in readings
    requires FitsAll(Confirmed(s, c, readings), contents)
    ensures var t := Announced(Confirmed(s, c, readings), contents);
      var refreshed := Refreshed(s.cells[id], readings[id].content);
      var last := Sampled(refreshed, contents[id]);
      var cached := if Resets(refreshed, contents[id]) then Zeros(last.size)
        else Sampled(s.cells[id], readings[id].content).newValue;
      t.replicas[d][id] != t.cells[id].newValue
      <==> last.newValue != s.cells[id].value && last.newValue == cached
  {
    ConfirmedTo(s, c, readings, d, id);
    ChangedCaches(Sampled(s.cells[id], readings[id].content));
    AnnouncedTo(Confirmed(s, c, readings), contents, d, id);
  }

  // ---- full broadcast ----

  /** Full broadcast: after sampling, every client is told every dataref it holds. */
  function FullyAnnounced(s: State, contents: map<int, seq<int>>): State
    requires Shaped(s) && FitsAll(s, contents)
  {
    State(map id | id in s.cells :: Refreshed(s.cells[id], contents[id]),
          s.held,
          map c | c in s.held :: s.replicas[c] + map id | id in s.held[c] :: Sampled(s.cells[id], contents[id]).newValue)
  }

  /** Client c holds nothing that is out of date. */
  ghost predicate Current(s: State, c: int)
    requires Shaped(s) && c in s.held
  {
    forall id :: id in s.held[c] ==> s.replicas[c][id] == s.cells[id].newValue
  }

  /** One client ends with the same replica exactly if what it holds is current. */
  lemma SameReplicaIff(s: State, contents: map<int, seq<int>>, c: int)
    requires Shaped(s) && FitsAll(s, contents) && c in s.held
    ensures var t, full := Announced(s, contents), FullyAnnounced(s, contents);
      t.replicas[c] == full.replicas[c] <==> Current(t, c)
  {
    var t := Announced(s, contents);
    var told := DataFor(s.held[c], ChangedValues(s.cells, contents));
    var all := map id | id in s.held[c] :: Sampled(s.cells[id], contents[id]).newValue;
    forall id | id in s.held[c]
      ensures t.cells[id].newValue == all[id]
    {
      AnnouncedTo(s, contents, c, id);
    }
    assert told.Keys <= all.Keys;
    SameOverlayIff(s.replicas[c], told, all);
  }

  lemma SameOverlayIff(before: map<int, seq<int>>, told: map<int, seq<int>>, all: map<int, seq<int>>)
    requires told.Keys <= all.Keys <= before.Keys
    ensures before + told == before + all <==> forall id :: id in all ==> (before + told)[id] == all[id]
  {
    if forall id :: id in all ==> (before + told)[id] == all[id] {
      assert before + told == before + all;
    } else {
      var id :| id in all && (before + told)[id] != all[id];
      assert (before + all)[id] == all[id];
    }
  }

  /** Announcing only what changed has the effect of full broadcast exactly if it leaves all replicas current. */
  lemma DeltaIsFullIff(s: State, contents: map<int, seq<int>>)
    requires Shaped(s) && FitsAll(s, contents)
    ensures Announced(s, contents) == FullyAnnounced(s, contents) <==> UpToDate(Announced(s, contents))
  {
    var t, full := Announced(s, contents), FullyAnnounced(s, contents);
    assert t.cells == full.cells && t.held == full.held == s.held;
    assert t.replicas.Keys == full.replicas.Keys == s.held.Keys;
    forall c | c in t.held
      ensures t.replicas[c] == full.replicas[c] <==> Current(t, c)
    {
      SameReplicaIff(s, contents, c);
    }
    hide *;
    SameStatesIff(t, full);
  }

  lemma SameStatesIff(t: State, full: State)
    requires Shaped(t) && t.cells == full.cells && t.held == full.held
    requires t.replicas.Keys == full.replicas.Keys == t.held.Keys
    requires forall c :: c in t.held ==> (t.replicas[c] == full.replicas[c] <==> Current(t, c))
    ensures t == full <==> UpToDate(t)
  {
    if UpToDate(t) {
      forall c | c in t.replicas
        ensures t.replicas[c] == full.replicas[c]
      {
        assert Current(t, c);
      }
      assert t.replicas == full.replicas;
    } else {
      var c, id :| c in t.held && id in t.held[c] && t.replicas[c][id] != t.cells[id].newValue;
      assert !Current(t, c);
    }
  }
}
