/**
  Clients hold sets of registry ids. A registry counts subscriptions, not holders: a client that
  subscribes a name twice adds two to the count and one id to its set, and gives back one when it
  leaves. The surplus of an id is what its count exceeds its number of holders by.
*/
module RefCounts {
  import opened Common
  import opened Registry

  type Holdings = map<int, set<int>>

  ghost function Holders(held: Holdings, id: int): set<int> {
    set c | c in held && id in held[c]
  }

  ghost function Surplus(reg: State, held: Holdings, id: int): int {
    Count(reg, id) - |Holders(held, id)|
  }

  /** No id is counted less often than it is held, so no held id is ever unregistered. */
  ghost predicate Covered(reg: State, held: Holdings) {
    WellFormed(reg) && forall id: int :: Surplus(reg, held, id) >= 0
  }

  lemma HeldIsRegistered(reg: State, held: Holdings, c: int, id: int)
    requires Covered(reg, held)
    requires c in held && id in held[c]
    ensures id in reg.byId
  {
    assert Surplus(reg, held, id) >= 0;
    assert c in Holders(held, id);
  }

  /** Subscribing: the surplus grows by one exactly when the client already held the id. */
  lemma SubscribeSurplus(reg: State, held: Holdings, c: int, name: string, creates: bool, id: int)
    requires WellFormed(reg) && c in held
    requires Subscribed(reg, name, creates).1.Some?
    ensures var (reg', r) := Subscribed(reg, name, creates);
      var held' := held[c := held[c] + {r.value}];
      Surplus(reg', held', id) == Surplus(reg, held, id) + (if r.value == id && id in held[c] then 1 else 0)
  {
    var (reg', r) := Subscribed(reg, name, creates);
    var held' := held[c := held[c] + {r.value}];
    SubscribeCounts(reg, name, creates, id);
    if r.value == id {
      assert Holders(held', id) == Holders(held, id) + {c};
      assert c in Holders(held, id) <==> id in held[c];
      assert id in held[c] ==> Holders(held, id) + {c} == Holders(held, id);
    } else {
      assert Holders(held', id) == Holders(held, id);
    }
  }

  lemma SubscribeKeepsCovered(reg: State, held: Holdings, c: int, name: string, creates: bool)
    requires Covered(reg, held) && c in held
    requires Subscribed(reg, name, creates).1.Some?
    ensures var (reg', r) := Subscribed(reg, name, creates);
      Covered(reg', held[c := held[c] + {r.value}])
  {
    SubscribeKeepsWellFormed(reg, name, creates);
    var (reg', r) := Subscribed(reg, name, creates);
    var held' := held[c := held[c] + {r.value}];
    forall id: int
      ensures Surplus(reg', held', id) >= 0
    {
      assert Surplus(reg, held, id) >= 0;
      SubscribeSurplus(reg, held, c, name, creates, id);
    }
  }

  /** A failed creation leaves every count and every holder as it was. */
  lemma FailedSubscribeKeepsCovered(reg: State, held: Holdings, name: string, creates: bool)
    requires Covered(reg, held)
    requires Subscribed(reg, name, creates).1.None?
    ensures Covered(Subscribed(reg, name, creates).0, held)
  {
    var reg' := Subscribed(reg, name, creates).0;
    forall id: int
      ensures Surplus(reg', held, id) >= 0
    {
      assert Surplus(reg, held, id) >= 0;
    }
  }

  /** A client that leaves gives back one count for each id it held: no surplus changes. */
  lemma LeaveSurplus(reg: State, held: Holdings, c: int, id: int)
    requires Covered(reg, held) && c in held
    ensures Surplus(UnsubscribedAll(reg, held[c]), held - {c}, id) == Surplus(reg, held, id)
  {
    UnsubscribeAllCounts(reg, held[c], id);
    if id in held[c] {
      HeldIsRegistered(reg, held, c, id);
      assert Holders(held - {c}, id) == Holders(held, id) - {c};
    } else {
      assert Holders(held - {c}, id) == Holders(held, id);
    }
  }

  lemma LeaveKeepsCovered(reg: State, held: Holdings, c: int)
    requires Covered(reg, held) && c in held
    ensures Covered(UnsubscribedAll(reg, held[c]), held - {c})
  {
    UnsubscribeAllKeepsWellFormed(reg, held[c]);
    var reg', held' := UnsubscribedAll(reg, held[c]), held - {c};
    forall id: int
      ensures Surplus(reg', held', id) >= 0
    {
      assert Surplus(reg, held, id) >= 0;
      LeaveSurplus(reg, held, c, id);
    }
  }

  /** When the last holder leaves, the id is released exactly if it was never subscribed twice. */
  lemma LastHolderReleases(reg: State, held: Holdings, c: int, id: int)
    requires Covered(reg, held) && c in held
    requires Holders(held, id) == {c}
    ensures id !in UnsubscribedAll(reg, held[c]).byId <==> Surplus(reg, held, id) == 0
  {
    assert c in Holders(held, id);
    HeldIsRegistered(reg, held, c, id);
    UnsubscribeAllKeepsWellFormed(reg, held[c]);
    LeaveSurplus(reg, held, c, id);
    assert Holders(held - {c}, id) == {};
  }

  /** An empty registry means nobody holds anything, so restarting the ids cannot reuse a held one. */
  lemma ResetReusesNoHeldId(reg: State, held: Holdings, c: int)
    requires Covered(reg, held) && c in held
    requires StartId(reg) != reg.nextId
    ensures held[c] == {}
  {
    forall id | id in held[c]
      ensures false
    {
      HeldIsRegistered(reg, held, c, id);
    }
  }

  // ---- what no step takes away ----

  ghost predicate SameName(reg: State, reg': State, id: int) {
    id in reg.byId && id in reg'.byId && reg'.byId[id].name == reg.byId[id].name
  }

  ghost predicate KeepsHeld(reg: State, held: Holdings, reg': State, held': Holdings, c: int)
    requires c in held && c in held'
  {
    held[c] <= held'[c] && forall id :: id in held[c] ==> SameName(reg, reg', id)
  }

  /** Whoever stays keeps its ids under their names; surpluses never shrink and pin their names. */
  ghost predicate Advances(reg: State, held: Holdings, reg': State, held': Holdings) {
    && (forall c :: c in held && c in held' ==> KeepsHeld(reg, held, reg', held', c))
    && (forall id: int :: Surplus(reg', held', id) >= Surplus(reg, held, id))
    && (forall id: int :: Surplus(reg, held, id) > 0 ==> SameName(reg, reg', id))
  }

  lemma NothingAdvances(reg: State, held: Holdings)
    requires Covered(reg, held)
    ensures Advances(reg, held, reg, held)
  {
    forall c, id | c in held && id in held[c]
      ensures SameName(reg, reg, id)
    {
      HeldIsRegistered(reg, held, c, id);
    }
  }

  lemma AdvancesChain(reg: State, held: Holdings, reg1: State, held1: Holdings, reg2: State, held2: Holdings)
    requires Advances(reg, held, reg1, held1) && Advances(reg1, held1, reg2, held2)
    requires held.Keys * held2.Keys <= held1.Keys
    ensures Advances(reg, held, reg2, held2)
  {
    forall c | c in held && c in held2
      ensures KeepsHeld(reg, held, reg2, held2, c)
    {
      assert c in held.Keys * held2.Keys;
      assert KeepsHeld(reg, held, reg1, held1, c) && KeepsHeld(reg1, held1, reg2, held2, c);
    }
    forall id: int
      ensures Surplus(reg2, held2, id) >= Surplus(reg, held, id)
      ensures Surplus(reg, held, id) > 0 ==> SameName(reg, reg2, id)
    {
      assert Surplus(reg1, held1, id) >= Surplus(reg, held, id);
    }
  }

  lemma SubscribeAdvances(reg: State, held: Holdings, c: int, name: string, creates: bool)
    requires Covered(reg, held) && c in held
    ensures var (reg', r) := Subscribed(reg, name, creates);
      Advances(reg, held, reg', if r.Some? then held[c := held[c] + {r.value}] else held)
  {
    var (reg', r) := Subscribed(reg, name, creates);
    var held' := if r.Some? then held[c := held[c] + {r.value}] else held;
    SubscribeNamesId(reg, name, creates);
    forall d, id | d in held && id in held[d]
      ensures SameName(reg, reg', id)
    {
      HeldIsRegistered(reg, held, d, id);
    }
    forall id: int
      ensures Surplus(reg', held', id) >= Surplus(reg, held, id)
      ensures Surplus(reg, held, id) > 0 ==> SameName(reg, reg', id)
    {
      SubscribeCounts(reg, name, creates, id);
      if r.Some? {
        SubscribeSurplus(reg, held, c, name, creates, id);
      }
    }
  }

  lemma LeaveAdvances(reg: State, held: Holdings, c: int)
    requires Covered(reg, held) && c in held
    ensures Advances(reg, held, UnsubscribedAll(reg, held[c]), held - {c})
  {
    var reg', held' := UnsubscribedAll(reg, held[c]), held - {c};
    LeaveKeepsCovered(reg, held, c);
    forall d, id | d in held && d in held' && id in held[d]
      ensures SameName(reg, reg', id)
    {
      HeldIsRegistered(reg', held', d, id);
      UnsubscribeAllCounts(reg, held[c], id);
    }
    forall id: int
      ensures Surplus(reg', held', id) >= Surplus(reg, held, id)
      ensures Surplus(reg, held, id) > 0 ==> SameName(reg, reg', id)
    {
      LeaveSurplus(reg, held, c, id);
      UnsubscribeAllCounts(reg, held[c], id);
    }
  }

  /** Clients that join with nothing change nobody's holders. */
  lemma JoinAdvances(reg: State, held: Holdings, held': Holdings)
    requires Covered(reg, held)
    requires held.Keys <= held'.Keys
    requires forall c :: c in held' ==> held'[c] == if c in held then held[c] else {}
    ensures Covered(reg, held') && Advances(reg, held, reg, held')
  {
    NothingAdvances(reg, held);
    forall id: int
      ensures Surplus(reg, held', id) == Surplus(reg, held, id) >= 0
    {
      assert Surplus(reg, held, id) >= 0;
      forall c: int
        ensures c in Holders(held', id) <==> c in Holders(held, id)
      {
        assert c in held' ==> held'[c] == if c in held then held[c] else {};
      }
      assert Holders(held', id) == Holders(held, id);
    }
  }

  /** With nobody connected the registry is empty exactly if nothing was ever subscribed twice. */
  lemma EmptyWithoutSurplus(reg: State)
    requires WellFormed(reg)
    ensures reg.byId == map[] <==> forall id: int :: Surplus(reg, map[], id) == 0
  {
    forall id: int
      ensures Surplus(reg, map[], id) == Count(reg, id)
    {
      assert Holders(map[], id) == {};
    }
    if reg.byId != map[] {
      var id := SomeMember(reg.byId.Keys);
      assert Surplus(reg, map[], id) >= 1;
    }
  }

  /** The counterexample: one client subscribes one name twice and leaves; the id stays registered. */
  lemma DuplicateLeaks(name: string)
    ensures var (reg1, r1) := Subscribed(EMPTY, name, true);
      var (reg2, r2) := Subscribed(reg1, name, true);
      r1 == r2 == Some(0) && 0 in UnsubscribedAll(reg2, {0}).byId
  {
    assert EMPTY.byId == map[];
  }
}
