/**
 The queue as its users see it: what each transaction does to the status an item is shown
 with, in every state a run can reach, and along which ways a status moves at all.
 */
module QueueView {
  import opened Options
  import opened Text
  import opened Queue
  import opened QueueRuns

  predicate Shows(t: Tables, id: Id, status: Status) { id in t.items && StatusOf(t, id) == status }

  /** All other items are as before and look as before. */
  ghost predicate Elsewhere(t: Tables, u: Tables, id: Id) {
    && u.items.Keys - {id} == t.items.Keys - {id}
    && forall j :: j in t.items && j in u.items && j != id ==> u.items[j] == t.items[j] && StatusOf(u, j) == StatusOf(t, j)
  }

  lemma AddShows(t: Tables, id: Id, row: Row)
    requires id != "" && id !in t.claims
    ensures var e := Add(t, id, row);
            && (e.Commit? <==> id !in t.items && id !in t.states)
            && (e.Commit? ==> && Shows(e.tables, id, Active(Pending)) && e.tables.items[id] == row.(done := true)
                              && Elsewhere(t, e.tables, id) && e.tables.claims == t.claims)
  {
  }

  /** What waits can be removed, and what is uncertain when that is acknowledged. */
  lemma RemoveShows(t: Tables, id: Id, acknowledge: bool)
    requires id != ""
    ensures var e := Remove(t, id, acknowledge);
            && e.Commit?
            && (e.result <==> if acknowledge then Shows(t, id, Indeterminate) && t.items[id].done
                              else Shows(t, id, Active(Pending)) || Shows(t, id, Active(Paused)))
            && (e.result ==> id !in e.tables.items && id !in e.tables.states && Elsewhere(t, e.tables, id))
            && (e.result && acknowledge ==> e.tables.claims == t.claims[id := t.claims[id].(outcome := Abandoned)])
            && (!acknowledge ==> e.tables.claims == t.claims)
            && (!e.result ==> e.tables == t)
  {
  }

  /** What is reserved can be begun, by a caller that knows its thread and message. */
  lemma BeginShows(t: Tables, id: Id, seen: Row, operation: Operation)
    requires id != "" && operation != Other
    ensures var e := Begin(t, id, seen, operation);
            var message := if seen.message == "" then "queue:" + id else seen.message;
            && (e.Commit? <==> && Shows(t, id, Active(Running)) && t.items[id].thread == seen.thread
                               && message == if t.items[id].message == "" then "queue:" + id else t.items[id].message)
            && (e.Commit? ==> && Shows(e.tables, id, Delivering) && Elsewhere(t, e.tables, id) && e.tables.items == t.items
                              && e.result == Identity(id, operation, seen.thread, message)
                              && e.tables.claims == t.claims[id := Claim(operation, seen.thread, message, Open)])
  {
  }

  /** What is being delivered can be completed, by who began it. */
  lemma CompleteShows(t: Tables, i: Identity, turn: string)
    requires i.id != "" && i.operation != Other
    ensures var e := Complete(t, i, turn);
            && (e.Commit? <==> && turn != "" && Shows(t, i.id, Delivering)
                               && t.claims[i.id].operation == i.operation && t.claims[i.id].thread == i.thread
                               && t.claims[i.id].message == i.message)
            && (e.Commit? ==> && Shows(e.tables, i.id, Done) && Elsewhere(t, e.tables, i.id)
                              && e.tables.items[i.id] == t.items[i.id].(done := true) && e.tables.states == t.states
                              && e.tables.claims == t.claims[i.id := t.claims[i.id].(outcome := Completed)])
  {
  }

  lemma RepairShows(t: Tables, id: Id)
    requires id != ""
    ensures var e := Repair(t, id);
            && e.Commit?
            && (e.result == Missing <==> id !in t.claims)
            && (e.result == WasSettled <==> id in t.claims && t.claims[id].outcome in {Completed, Abandoned})
            && (e.result != MadeIndeterminate ==> e.tables == t)
            && (e.result == MadeIndeterminate ==>
                  && id !in e.tables.states && Elsewhere(t, e.tables, id)
                  && (id in t.items ==> Shows(e.tables, id, Indeterminate) && e.tables.items[id] == t.items[id].(done := true))
                  && (id !in t.items ==> id !in e.tables.items)
                  && e.tables.claims == t.claims[id := t.claims[id].(outcome := Uncertain)])
  {
  }

  /** A consumption whose claim is missing gets an uncertain one; then it is as repaired. */
  lemma EnsureShows(t: Tables, i: Identity)
    requires i.id != ""
    ensures var e := Ensure(t, i);
            && e.Commit?
            && (i.id in t.claims ==> e == Repair(t, i.id))
            && (i.id !in t.claims ==>
                  && e.result == MadeIndeterminate && i.id !in e.tables.states && Elsewhere(t, e.tables, i.id)
                  && (i.id in t.items ==> Shows(e.tables, i.id, Indeterminate) && e.tables.items[i.id] == t.items[i.id].(done := true))
                  && (i.id !in t.items ==> i.id !in e.tables.items)
                  && e.tables.claims == t.claims[i.id := Claim(i.operation, i.thread, i.message, Uncertain)])
  {
  }

  /** A reservation without a claim can be paused or given back. */
  lemma ReleaseShows(t: Tables, id: Id, mode: Mode)
    requires id != ""
    ensures var e := PauseMissing(t, id);
            && e.Commit?
            && (e.result == Claimed <==> id in t.claims)
            && (e.result == Released <==> Shows(t, id, Active(Running)))
            && e.tables == (if e.result == Released then Restore(t, id, Paused).tables else t)
    ensures var e := Restore(t, id, mode);
            && e.Commit? && e.tables.items == t.items && e.tables.claims == t.claims
            && (Shows(t, id, Active(Running)) ==> Shows(e.tables, id, Active(mode)) && Elsewhere(t, e.tables, id))
            && (!Shows(t, id, Active(Running)) ==> e.tables == t)
  {
  }

  // ----- taking turns

  /** Something of the thread is being delivered or is uncertain. */
  predicate Busy(t: Tables, thread: string) {
    exists id :: id in t.items && id in t.claims && t.claims[id].thread == thread && StatusOf(t, id) in {Delivering, Indeterminate}
  }

  predicate Waits(t: Tables, thread: string, id: Id) { id in t.items && t.items[id].thread == thread && StatusOf(t, id).Active? }

  /** All others that wait in the thread came later, or at the same time with a greater id. */
  ghost predicate Foremost(t: Tables, thread: string, id: Id) {
    && Waits(t, thread, id)
    && forall j :: Waits(t, thread, j) && j != id ==>
         t.items[id].createdAt < t.items[j].createdAt || (t.items[id].createdAt == t.items[j].createdAt && Less(id, j))
  }

  lemma BusyMeansUnresolved(t: Tables, thread: string)
    requires "" !in t.items
    ensures Busy(t, thread) <==> Unresolved(t, thread)
  {
    if Unresolved(t, thread) {
      var id :| id in t.claims && id in t.items && t.claims[id].thread == thread && !Settled(t.claims[id].outcome);
      assert StatusOf(t, id) in {Delivering, Indeterminate};
    }
  }

  lemma ForemostIsEarliest(t: Tables, thread: string, id: Id)
    requires "" !in t.items
    ensures Foremost(t, thread, id) <==> Earliest(t, thread) == Some(id)
  {
    EarliestIsFirst(t, thread, id);
    assert forall j :: Waits(t, thread, j) <==> Unconsumed(t, thread, j);
  }

  /** The next item of a thread is reserved exactly when nothing of the thread is being delivered
      or uncertain and the foremost item is pending. */
  lemma ClaimNextShows(t: Tables, thread: string, id: Id)
    requires "" !in t.items
    ensures var e := ClaimNext(t, thread);
            && e.Commit? && e.tables.items == t.items && e.tables.claims == t.claims
            && (e.result == Some(id) <==> !Busy(t, thread) && Foremost(t, thread, id) && Shows(t, id, Active(Pending)))
            && (e.result == Some(id) ==> Shows(e.tables, id, Active(Running)) && Elsewhere(t, e.tables, id))
            && (e.result == None ==> e.tables == t)
  {
    BusyMeansUnresolved(t, thread);
    ForemostIsEarliest(t, thread, id);
    if Earliest(t, thread).Some? { ForemostIsEarliest(t, thread, Earliest(t, thread).value); }
  }

  /** So is a named item, also from its pause, and the caller learns what to give back. */
  lemma ClaimForSteerShows(t: Tables, id: Id, mode: Mode)
    requires "" !in t.items
    ensures var e := ClaimForSteer(t, id);
            && e.Commit? && e.tables.items == t.items && e.tables.claims == t.claims
            && (e.result == Some(mode) <==>
                  && Shows(t, id, Active(mode)) && mode != Running
                  && !Busy(t, t.items[id].thread) && Foremost(t, t.items[id].thread, id))
            && (e.result.Some? ==> Shows(e.tables, id, Active(Running)) && Elsewhere(t, e.tables, id))
            && (e.result == None ==> e.tables == t)
  {
    if id in t.items {
      BusyMeansUnresolved(t, t.items[id].thread);
      ForemostIsEarliest(t, t.items[id].thread, id);
    }
  }

  /** Pausing a thread pauses what is pending in it. */
  lemma PausePendingShows(t: Tables, thread: string, id: Id)
    requires id in t.items && id != ""
    ensures var u := PausePending(t, thread).tables;
            && u.items == t.items && u.claims == t.claims
            && StatusOf(u, id) == if Shows(t, id, Active(Pending)) && t.items[id].thread == thread then Active(Paused) else StatusOf(t, id)
  {
  }

  /** After a run of an old Agent, a row it left undone is shown as uncertain unless its claim is
      settled, under a claim of its own if there was none; every other row looks as it did. */
  lemma MigrationShows(t: Tables, items: map<Id, Row>, id: Id)
    requires t.states.Keys !! t.claims.Keys && id in items && id != ""
    ensures var u := Migrate(t.(items := items));
            var settled := id in t.claims && t.claims[id].outcome in {Completed, Abandoned};
            var row := items[id];
            && u.items[id] == row.(done := true)
            && (row.done ==> StatusOf(u, id) == StatusOf(t.(items := items), id))
            && (!row.done ==> && StatusOf(u, id) == (if settled then Done else Indeterminate)
                              && id in u.claims
                              && (settled ==> u.claims[id] == t.claims[id])
                              && (!settled && id in t.claims ==> u.claims[id] == t.claims[id].(outcome := Uncertain))
                              && (id !in t.claims ==>
                                    u.claims[id] == Claim(Other, if row.thread == "" then "legacy:" + id else row.thread,
                                                          if row.message == "" then "queue:" + id else row.message, Uncertain)))
  {
  }

  // ----- the ways of a status

  /** From a status, by one transaction; what an old Agent has done, without a claim, can still
      be found uncertain. */
  predicate Leads(a: Status, b: Status, claimed: bool) {
    match a
    case Active(_) => b.Active? || (a == Active(Running) && b == Delivering) || b == Indeterminate
    case Delivering => b == Delivering || b == Indeterminate || b == Done
    case Indeterminate => b == Indeterminate
    case Done => b == Done || (!claimed && b == Indeterminate)
  }

  ghost predicate Follows(t: Tables, u: Tables, id: Id)
    requires id in t.items
  {
    if id in u.items then u.items[id] == t.items[id] && Leads(StatusOf(t, id), StatusOf(u, id), id in t.claims)
    else StatusOf(t, id) in {Active(Pending), Active(Paused), Indeterminate}
  }

  predicate Consumes(op: Op) { op.OpBegin? || op.OpComplete? || op.OpRepair? }

  lemma ConsumingFollows(t: Tables, op: Op, id: Id)
    requires Tidy(t) && Sane(t) && Allowed(t, op) && "" !in t.items && id in t.items && Consumes(op)
    ensures Follows(t, Perform(t, op), id)
  {
    match op
    case OpBegin(x, seen, operation) => if x != "" { BeginShows(t, x, seen, operation); }
    case OpComplete(i, turn) => if i.id != "" && i.operation != Other { CompleteShows(t, i, turn); }
    case OpRepair(x) => if x != "" { RepairShows(t, x); }
  }

  lemma ClaimingFollows(t: Tables, op: Op, id: Id)
    requires Tidy(t) && Sane(t) && Allowed(t, op) && "" !in t.items && id in t.items && (op.OpClaimNext? || op.OpClaimForSteer?)
    ensures Follows(t, Perform(t, op), id)
  {
    match op
    case OpClaimNext(thread) =>
      var e := ClaimNext(t, thread);
      if e.result.Some? { ClaimNextShows(t, thread, e.result.value); }
    case OpClaimForSteer(x) => ClaimForSteerShows(t, x, Pending);
  }

  lemma EnsuringFollows(t: Tables, i: Identity, id: Id)
    requires Tidy(t) && "" !in t.items && id in t.items
    ensures Follows(t, After(t, Ensure(t, i)), id)
  {
    if i.id != "" {
      EnsureShows(t, i);
      RepairShows(t, i.id);
    }
  }

  lemma OtherwiseFollows(t: Tables, op: Op, id: Id)
    requires Tidy(t) && Sane(t) && Allowed(t, op) && "" !in t.items && id in t.items && !Consumes(op) && !op.OpClaimNext? && !op.OpClaimForSteer?
    ensures Follows(t, Perform(t, op), id)
  {
    match op
    case OpAdd(x, row) => AddShows(t, x, row);
    case OpRemove(x, acknowledge) => if x != "" { RemoveShows(t, x, acknowledge); }
    case OpEnsure(i) => EnsuringFollows(t, i, id);
    case OpPauseMissing(x) => if x != "" { ReleaseShows(t, x, Paused); }
    case OpRestore(x, mode) => if x != "" { ReleaseShows(t, x, mode); }
    case OpPausePending(thread) => PausePendingShows(t, thread, id);
    case OpPauseInterrupted => StartupPausesEverything(t, id);
  }

  /** In every reachable state and for every transaction: an item waits until it is reserved,
      is delivered once, is done for good once claimed, and uncertain until its removal is acknowledged; only
      what waits or is uncertain is ever removed. */
  lemma StatusFollowsItsWay(es: seq<Event>, op: Op, id: Id)
    requires var t := Run(Init(), es).tables; Allowed(t, op) && id in t.items
    ensures var t := Run(Init(), es).tables; Follows(t, Perform(t, op), id)
  {
    var t := Run(Init(), es).tables;
    RunKeeps(Init(), es);
    if Consumes(op) { ConsumingFollows(t, op, id); }
    else if op.OpClaimNext? || op.OpClaimForSteer? { ClaimingFollows(t, op, id); }
    else { OtherwiseFollows(t, op, id); }
  }
}
