/**
  The two-way, reference-counted registry behind both XpDataRefRepository and XpCommandRepository:
  a name-to-id map, an id-to-entry map and an id counter that is reset when the registry is empty.
  The two source classes have the same id and counting logic, so one class models both.
*/
module Registry {
  import opened Common

  datatype Entry = Entry(name: string, count: int)

  datatype State = State(nextId: int, idByName: map<string, int>, byId: map<int, Entry>)

  const EMPTY := State(0, map[], map[])

  /** The two maps are inverse to each other, ids lie below the counter and every count is positive. */
  ghost predicate WellFormed(s: State) {
    && 0 <= s.nextId
    && (forall n :: n in s.idByName ==> s.idByName[n] in s.byId && s.byId[s.idByName[n]].name == n)
    && (forall id :: id in s.byId ==>
      && s.byId[id].name in s.idByName && s.idByName[s.byId[id].name] == id
      && 0 <= id < s.nextId && s.byId[id].count >= 1)
  }

  /** The counter a subscription works with: back to zero when nothing is registered. */
  function StartId(s: State): int {
    if s.nextId > 0 && s.byId == map[] then 0 else s.nextId
  }

  /** One subscription; `creates` says whether X-Plane knows the name, asked only for a new name. */
  function Subscribed(s: State, name: string, creates: bool): (r: (State, Option<int>))
    requires WellFormed(s)
  {
    var next := StartId(s);
    if name in s.idByName then
      var id := s.idByName[name];
      var e := s.byId[id];
      (State(next, s.idByName, s.byId[id := e.(count := e.count + 1)]), Some(id))
    else if creates then
      (State(next + 1, s.idByName[name := next], s.byId[next := Entry(name, 1)]), Some(next))
    else
      (s.(nextId := next), None)
  }

  /** decrement_subscribers, as written: a count that is already 0 or less becomes -1. */
  function Decrement(count: int): int {
    var c := if count <= 0 then 0 else count;
    if c == 1 then 0 else c - 1
  }

  function Unsubscribed(s: State, id: int): State {
    if id !in s.byId then s
    else
      var e := s.byId[id];
      if Decrement(e.count) == 0 then State(s.nextId, s.idByName - {e.name}, s.byId - {id})
      else s.(byId := s.byId[id := e.(count := Decrement(e.count))])
  }

  /** Whether dropping the ids in `ids` releases the entry of `id`. */
  predicate Released(s: State, ids: set<int>, id: int)
    requires id in s.byId
  {
    id in ids && s.byId[id].count == 1
  }

  /** The registry after each id of `ids` has been unsubscribed once, independent of the order. */
  function UnsubscribedAll(s: State, ids: set<int>): State
    requires WellFormed(s)
  {
    State(
      s.nextId,
      map n | n in s.idByName && !Released(s, ids, s.idByName[n]) :: s.idByName[n],
      map id | id in s.byId && !Released(s, ids, id) ::
        if id in ids then s.byId[id].(count := s.byId[id].count - 1) else s.byId[id])
  }

  lemma SubscribeKeepsWellFormed(s: State, name: string, creates: bool)
    requires WellFormed(s)
    ensures WellFormed(Subscribed(s, name, creates).0)
  {
  }

  /** A subscription never renames or releases an id, and gives a new name an id nobody has. */
  lemma SubscribeNamesId(s: State, name: string, creates: bool)
    requires WellFormed(s)
    ensures var (t, r) := Subscribed(s, name, creates);
      && (r.Some? <==> name in s.idByName || creates)
      && (r.Some? ==> r.value in t.byId && t.byId[r.value].name == name)
      && (r.Some? && name !in s.idByName ==> r.value !in s.byId)
      && (forall id :: id in s.byId ==> id in t.byId && t.byId[id].name == s.byId[id].name)
  {
  }

  /** Ids are handed out one after the other, from 0 on when nothing is registered; a failed creation uses none up. */
  lemma IdsAreConsecutive(s: State, name: string, creates: bool)
    requires WellFormed(s)
    ensures var (t, r) := Subscribed(s, name, creates);
      var next := if s.byId == map[] then 0 else s.nextId;
      && (name !in s.idByName && r.Some? ==> r.value == next && t.nextId == next + 1)
      && (name in s.idByName || r.None? ==> t.nextId == next)
      && (r.None? ==> t.idByName == s.idByName && t.byId == s.byId)
  {
  }

  /** Every count grows by exactly one for the subscribed id and not at all for the others. */
  lemma SubscribeCounts(s: State, name: string, creates: bool, id: int)
    requires WellFormed(s)
    ensures var (t, r) := Subscribed(s, name, creates);
      Count(t, id) == Count(s, id) + (if r == Some(id) then 1 else 0)
  {
  }

  /** The number of subscriptions an id stands for; zero when it is not registered. */
  function Count(s: State, id: int): int {
    if id in s.byId then s.byId[id].count else 0
  }

  lemma UnsubscribeAllKeepsWellFormed(s: State, ids: set<int>)
    requires WellFormed(s)
    ensures WellFormed(UnsubscribedAll(s, ids))
  {
  }

  /** Unsubscribing takes one from the count of each named id that is registered, and nothing else. */
  lemma UnsubscribeAllCounts(s: State, ids: set<int>, id: int)
    requires WellFormed(s)
    ensures Count(UnsubscribedAll(s, ids), id) == Count(s, id) - (if id in ids && id in s.byId then 1 else 0)
    ensures id in UnsubscribedAll(s, ids).byId ==> UnsubscribedAll(s, ids).byId[id].name == s.byId[id].name
  {
  }

  /** Unsubscribing one more id extends the order-independent form by that id. */
  lemma UnsubscribeOneMore(s: State, done: set<int>, id: int)
    requires WellFormed(s) && id !in done
    ensures Unsubscribed(UnsubscribedAll(s, done), id) == UnsubscribedAll(s, done + {id})
  {
    var t := UnsubscribedAll(s, done);
    var u := UnsubscribedAll(s, done + {id});
    if id in s.byId {
      assert !Released(s, done, id);
      if s.byId[id].count == 1 {
        assert t.idByName - {s.byId[id].name} == u.idByName;
        assert t.byId - {id} == u.byId;
      } else {
        assert t.idByName == u.idByName;
        assert t.byId[id := t.byId[id].(count := t.byId[id].count - 1)] == u.byId;
      }
    }
  }

  lemma UnsubscribeNothing(s: State)
    requires WellFormed(s)
    ensures UnsubscribedAll(s, {}) == s
  {
  }

  /** The registry as the plugin holds it, updated in place. */
  class Repository {
    var nextId: int
    var idByName: map<string, int>
    var byId: map<int, Entry>

    function View(): State
      reads this
    {
      State(nextId, idByName, byId)
    }

    constructor ()
      ensures View() == EMPTY
    {
      nextId, idByName, byId := 0, map[], map[];
    }

    method Subscribe(name: string, creates: bool) returns (r: Option<int>)
      requires WellFormed(View())
      modifies this
      ensures (View(), r) == Subscribed(old(View()), name, creates)
    {
      if nextId > 0 && byId == map[] {
        nextId := 0;
      }
      var id := nextId;
      if name in idByName {
        id := idByName[name];
        var e := byId[id];
        byId := byId[id := e.(count := e.count + 1)];
      } else if creates {
        // emplace inserts only where the key is absent
        if nextId !in byId {
          byId := byId[nextId := Entry(name, 1)];
        }
        if name !in idByName {
          idByName := idByName[name := id];
        }
        nextId := nextId + 1;
      } else {
        return None;
      }
      r := Some(id);
    }

    method Unsubscribe(id: int)
      modifies this
      ensures View() == Unsubscribed(old(View()), id)
    {
      if id in byId {
        var e := byId[id];
        var count := Decrement(e.count);
        byId := byId[id := e.(count := count)];
        if count == 0 {
          idByName := idByName - {e.name};
          byId := byId - {id};
        }
      }
    }

    method UnsubscribeEach(ids: set<int>)
      requires WellFormed(View())
      modifies this
      ensures View() == UnsubscribedAll(old(View()), ids)
    {
      var rest := ids;
      UnsubscribeNothing(View());
      while rest != {}
        invariant rest <= ids
        invariant View() == UnsubscribedAll(old(View()), ids - rest)
        decreases |rest|
      {
        ghost var member := SomeMember(rest);
        var id :| id in rest;
        UnsubscribeOneMore(old(View()), ids - rest, id);
        assert (ids - rest) + {id} == ids - (rest - {id});
        Unsubscribe(id);
        rest := rest - {id};
      }
      assert ids - rest == ids;
    }
  }
}
