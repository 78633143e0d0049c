/**
 The queue registry as an object over its three tables.  A method is one transaction: it
 runs its statements in order, and puts the tables back if one of them fails.  The methods
 tie the tables to the functions of module Queue, about which the properties are proved.
 */
module QueueRegistries {
  import opened Options
  import opened Queue

  class QueueRegistry {
    var items: map<Id, Row>
    var states: map<Id, Logical>
    var claims: map<Id, Claim>

    function View(): Tables
      reads this
    {
      Tables(items, states, claims)
    }

    constructor ()
      ensures View() == Tables(map[], map[], map[])
    {
      items, states, claims := map[], map[], map[];
    }

    method Rollback(to: Tables)
      modifies this
      ensures View() == to
    {
      items, states, claims := to.items, to.states, to.claims;
    }

    method Add(id: Id, row: Row) returns (r: Option<()>)
      modifies this
      ensures var e := Queue.Add(old(View()), id, row); View() == After(old(View()), e) && r == Returned(e)
    {
      var before := View();
      if id in items { return None; }
      items := items[id := row.(done := true)];
      if id in states { Rollback(before); return None; }
      states := states[id := Actionable(Pending)];
      return Some(());
    }

    method Remove(id: Id, acknowledge: bool) returns (r: bool)
      modifies this
      ensures var e := Queue.Remove(old(View()), id, acknowledge); View() == After(old(View()), e) && r == e.result
    {
      if acknowledge {
        if id !in claims || id !in items || !items[id].done { return false; }
        var c := claims[id];
        if c.outcome != Uncertain && c.outcome != Odd && !(c.outcome == Open && c.operation == Other) { return false; }
        claims := claims[id := c.(outcome := Abandoned)];
      } else if !Reserved(View(), id, Pending) && !Reserved(View(), id, Paused) {
        return false;
      }
      states := states - {id};
      items := items - {id};
      return true;
    }

    method Begin(id: Id, seen: Row, operation: Operation) returns (r: Option<Identity>)
      modifies this
      ensures var e := Queue.Begin(old(View()), id, seen, operation); View() == After(old(View()), e) && r == Returned(e)
    {
      var identity := IdentityOf(id, seen, operation);
      if id !in items || !items[id].done || StatusOf(View(), id) != Active(Running) { return None; }
      var current := IdentityOf(id, items[id], operation);
      if current.thread != identity.thread || current.message != identity.message { return None; }
      if id in claims { return None; }
      claims := claims[id := Claim(operation, identity.thread, identity.message, Open)];
      states := states - {id};
      assert items[id := items[id].(done := true)] == items;
      items := items[id := items[id].(done := true)];
      return Some(identity);
    }

    method Complete(i: Identity, turn: string) returns (r: Option<()>)
      modifies this
      ensures var e := Queue.Complete(old(View()), i, turn); View() == After(old(View()), e) && r == Returned(e)
    {
      if turn == "" { return None; }
      var before := View();
      if i.id !in claims || claims[i.id] != Claim(i.operation, i.thread, i.message, Open) { return None; }
      claims := claims[i.id := claims[i.id].(outcome := Completed)];
      if i.id !in items { Rollback(before); return None; }
      items := items[i.id := items[i.id].(done := true)];
      return Some(());
    }

    method Repair(id: Id) returns (r: Repaired)
      modifies this
      ensures var e := Queue.Repair(old(View()), id); View() == After(old(View()), e) && r == e.result
    {
      if id !in claims { return Missing; }
      if Settled(claims[id].outcome) { return WasSettled; }
      claims := claims[id := claims[id].(outcome := Uncertain)];
      states := states - {id};
      if id in items { items := items[id := items[id].(done := true)]; }
      return MadeIndeterminate;
    }

    method Ensure(i: Identity) returns (r: Repaired)
      modifies this
      ensures var e := Queue.Ensure(old(View()), i); View() == After(old(View()), e) && r == e.result
    {
      if i.id !in claims { claims := claims[i.id := Claim(i.operation, i.thread, i.message, Uncertain)]; }
      r := Repair(i.id);
    }

    method PauseMissing(id: Id) returns (r: Released)
      modifies this
      ensures var e := Queue.PauseMissing(old(View()), id); View() == After(old(View()), e) && r == e.result
    {
      if id in claims { return Claimed; }
      if !Reserved(View(), id, Running) { return Unchanged; }
      states := states[id := Actionable(Paused)];
      return Released;
    }

    method Restore(id: Id, mode: Mode)
      modifies this
      ensures View() == After(old(View()), Queue.Restore(old(View()), id, mode))
    {
      if Reserved(View(), id, Running) { states := states[id := Actionable(mode)]; }
    }

    /** Steps through the unconsumed rows in their order, to the first of the thread. */
    method EarliestUnconsumed(thread: string) returns (r: Option<Id>)
      ensures r == Earliest(View(), thread)
    {
      var rest := set id | id in items && Unconsumed(View(), items[id].thread, id);
      while rest != {}
        invariant rest <= items.Keys
        invariant forall id :: id in rest ==> Unconsumed(View(), items[id].thread, id)
        invariant forall id :: Unconsumed(View(), thread, id) ==> id in rest
      {
        FirstExists(items, rest);
        var id :| id in rest && forall j :: j in rest && j != id ==> Before(items, id, j);
        if items[id].thread == thread {
          assert IsEarliest(View(), thread, id);
          EarliestIsFirst(View(), thread, id);
          return Some(id);
        }
        rest := rest - {id};
      }
      return None;
    }

    method ClaimNext(thread: string) returns (r: Option<Id>)
      modifies this
      ensures var e := Queue.ClaimNext(old(View()), thread); View() == After(old(View()), e) && r == e.result
    {
      if Unresolved(View(), thread) { return None; }
      var first := EarliestUnconsumed(thread);
      if first.None? || states[first.value] != Actionable(Pending) { return None; }
      states := states[first.value := Actionable(Running)];
      return first;
    }

    method ClaimForSteer(id: Id) returns (r: Option<Mode>)
      modifies this
      ensures var e := Queue.ClaimForSteer(old(View()), id); View() == After(old(View()), e) && r == e.result
    {
      if !Reserved(View(), id, Pending) && !Reserved(View(), id, Paused) { return None; }
      if Unresolved(View(), items[id].thread) { return None; }
      var first := EarliestUnconsumed(items[id].thread);
      if first != Some(id) { return None; }
      r := Some(states[id].mode);
      states := states[id := Actionable(Running)];
    }

    method PausePending(thread: string)
      modifies this`states
      ensures View() == After(old(View()), Queue.PausePending(old(View()), thread))
    {
      var rest := set id | id in states && Reserved(View(), id, Pending) && items[id].thread == thread;
      ghost var all := rest;
      while rest != {}
        invariant rest <= all && states.Keys == old(states).Keys
        invariant forall id :: id in states ==>
          states[id] == if id in all - rest then Actionable(Paused) else old(states)[id]
      {
        var id :| id in rest;
        rest := rest - {id};
        if Reserved(View(), id, Pending) { states := states[id := Actionable(Paused)]; }
      }
      assert states == Queue.PausePending(old(View()), thread).tables.states;
    }

    /** Claims first, then the rows that have one, then the reservations that have none. */
    method PauseInterrupted()
      modifies this
      ensures View() == After(old(View()), Queue.PauseInterrupted(old(View())))
    {
      ghost var u := Queue.PauseInterrupted(View()).tables;
      claims := map id | id in claims :: if Settled(claims[id].outcome) then claims[id] else claims[id].(outcome := Uncertain);
      assert claims == u.claims && claims.Keys == old(claims).Keys;
      states := map id | id in states && id !in claims :: states[id];
      items := map id | id in items :: if id in claims then items[id].(done := true) else items[id];
      assert items == u.items;
      PauseRunning();
      assert states.Keys == u.states.Keys;
      forall id | id in states ensures states[id] == u.states[id] {}
      assert states == u.states;
    }

    method PauseRunning()
      modifies this`states
      ensures states.Keys == old(states).Keys
      ensures forall id :: id in states ==>
                states[id] == if Reserved(old(View()), id, Running) then Actionable(Paused) else old(states)[id]
    {
      states := map id | id in states :: if Reserved(View(), id, Running) then Actionable(Paused) else states[id];
    }

    /** The items that are not done, each once, in their order. */
    method List() returns (r: seq<Id>)
      ensures forall id :: id in r <==> id in items && Listed(View(), id)
      ensures forall i, j :: 0 <= i < j < |r| ==> r[i] in items && r[j] in items && Before(items, r[i], r[j])
    {
      r := [];
      var rest := set id | id in items && Listed(View(), id);
      ghost var all := rest;
      while rest != {}
        invariant rest <= all <= items.Keys
        invariant forall id :: id in r <==> id in all - rest
        invariant forall i :: 0 <= i < |r| ==> r[i] in items
        invariant forall i, j :: 0 <= i < j < |r| ==> Before(items, r[i], r[j])
        invariant forall i, k :: 0 <= i < |r| && k in rest ==> Before(items, r[i], k)
      {
        FirstExists(items, rest);
        var id :| id in rest && forall j :: j in rest && j != id ==> Before(items, id, j);
        r := r + [id];
        rest := rest - {id};
      }
    }

    method QuarantineRow(id: Id)
      requires id in items
      modifies this
      ensures View() == Quarantine(old(View()), id)
    {
      states := states - {id};
      if id !in claims { claims := claims[id := LegacyClaim(id, items[id])]; }
      if !Settled(claims[id].outcome) { claims := claims[id := claims[id].(outcome := Uncertain)]; }
      assert claims == Quarantine(old(View()), id).claims;
      items := items[id := items[id].(done := true)];
    }

    /** The migration's loop over the rows that are not done. */
    method Migrate()
      modifies this
      ensures View() == Queue.Migrate(old(View()))
    {
      ghost var t := View();
      ghost var handled: set<Id> := {};
      var rest := Touched(View());
      assert Quarantined(t, {}) == t by { NothingQuarantined(t); }
      while rest != {}
        invariant handled + rest == Touched(t) && handled !! rest
        invariant View() == Quarantined(t, handled)
      {
        var id :| id in rest;
        QuarantineOneMore(t, handled, id);
        QuarantineRow(id);
        rest := rest - {id};
        handled := handled + {id};
      }
      assert handled == Touched(t);
    }
  }

  lemma NothingQuarantined(t: Tables)
    ensures Quarantined(t, {}) == t
  {
  }
}
