/**
 The durable queue: its three tables, and what each operation does to them in one
 transaction.

 An operation that throws is rolled back and is modelled as `Fail`.  Statuses, operations
 and outcomes that the program does not know are kept as `Junk`, `Other` and `Odd`.
 */
module Queue {
  import opened Options
  import opened Text

  type Id = string

  /** A physical row; `done` is its status column, `message` the client's message id or "". */
  datatype Row = Row(thread: string, createdAt: int, message: string, done: bool)

  datatype Mode = Pending | Running | Paused
  datatype Logical = Actionable(mode: Mode) | Junk

  datatype Operation = Start | Steer | Other
  datatype Outcome = Open | Completed | Uncertain | Abandoned | Odd
  datatype Claim = Claim(operation: Operation, thread: string, message: string, outcome: Outcome)

  datatype Tables = Tables(items: map<Id, Row>, states: map<Id, Logical>, claims: map<Id, Claim>)

  datatype Status = Active(mode: Mode) | Delivering | Indeterminate | Done

  datatype Effect<+T> = Fail | Commit(tables: Tables, result: T)

  /** A failed transaction is rolled back. */
  function After<T>(t: Tables, e: Effect<T>): Tables { if e.Commit? then e.tables else t }

  function Returned<T>(e: Effect<T>): Option<T> { if e.Commit? then Some(e.result) else None }

  datatype Identity = Identity(id: Id, operation: Operation, thread: string, message: string)

  predicate Settled(o: Outcome) { o == Completed || o == Abandoned }

  /** The status an item is shown with. */
  function StatusOf(t: Tables, id: Id): Status
    requires id in t.items
  {
    if id in t.claims && id != "" then
      if t.claims[id].outcome == Open && t.claims[id].operation != Other then Delivering
      else if Settled(t.claims[id].outcome) then Done
      else Indeterminate
    else if t.items[id].done && id in t.states && t.states[id].Actionable? then Active(t.states[id].mode)
    else Done
  }

  /** The condition by which the query of `list` selects an item. */
  predicate Listed(t: Tables, id: Id)
    requires id in t.items
  {
    || (id in t.claims && !Settled(t.claims[id].outcome))
    || (id !in t.claims && t.items[id].done && id in t.states && t.states[id].Actionable?)
  }

  function MessageOf(id: Id, row: Row): string {
    if row.message != "" then row.message else "queue:" + id
  }

  function IdentityOf(id: Id, row: Row, operation: Operation): Identity {
    Identity(id, operation, row.thread, MessageOf(id, row))
  }

  /** Created earlier, or at the same time with the smaller id. */
  predicate Sooner(a: int, i: Id, b: int, j: Id) { a < b || (a == b && Less(i, j)) }

  /** The order in which a thread's items are taken. */
  predicate Before(items: map<Id, Row>, i: Id, j: Id)
    requires i in items && j in items
  {
    Sooner(items[i].createdAt, i, items[j].createdAt, j)
  }

  // ----- the transactions

  function Add(t: Tables, id: Id, row: Row): Effect<()> {
    if id in t.items || id in t.states then Fail
    else Commit(t.(items := t.items[id := row.(done := true)], states := t.states[id := Actionable(Pending)]), ())
  }

  /** The item's state row, when it is the one that decides. */
  predicate Reserved(t: Tables, id: Id, mode: Mode) {
    id in t.states && t.states[id] == Actionable(mode) && id in t.items && t.items[id].done && id !in t.claims
  }

  function SetMode(t: Tables, id: Id, mode: Mode): Tables {
    t.(states := t.states[id := Actionable(mode)])
  }

  function SetOutcome(t: Tables, id: Id, o: Outcome): Tables
    requires id in t.claims
  {
    t.(claims := t.claims[id := t.claims[id].(outcome := o)])
  }

  function SetDone(t: Tables, id: Id): Tables {
    if id in t.items then t.(items := t.items[id := t.items[id].(done := true)]) else t
  }

  function Remove(t: Tables, id: Id, acknowledge: bool): Effect<bool> {
    if acknowledge then
      if id in t.claims && id in t.items && t.items[id].done &&
         (t.claims[id].outcome in {Uncertain, Odd} || (t.claims[id].outcome == Open && t.claims[id].operation == Other))
      then Commit(SetOutcome(t, id, Abandoned).(states := t.states - {id}, items := t.items - {id}), true)
      else Commit(t, false)
    else if Reserved(t, id, Pending) || Reserved(t, id, Paused)
    then Commit(t.(states := t.states - {id}, items := t.items - {id}), true)
    else Commit(t, false)
  }

  /** `seen` is the item as the caller read it earlier. */
  function Begin(t: Tables, id: Id, seen: Row, operation: Operation): Effect<Identity> {
    if id !in t.items || !t.items[id].done || StatusOf(t, id) != Active(Running) then Fail
    else if t.items[id].thread != seen.thread || MessageOf(id, t.items[id]) != MessageOf(id, seen) then Fail
    else if id in t.claims then Fail
    else
      var i := IdentityOf(id, seen, operation);
      Commit(t.(states := t.states - {id}, claims := t.claims[id := Claim(operation, i.thread, i.message, Open)]), i)
  }

  function Complete(t: Tables, i: Identity, turn: string): Effect<()> {
    if turn == "" || i.id !in t.claims || i.id !in t.items then Fail
    else if t.claims[i.id] != Claim(i.operation, i.thread, i.message, Open) then Fail
    else Commit(SetDone(SetOutcome(t, i.id, Completed), i.id), ())
  }

  datatype Repaired = Missing | MadeIndeterminate | WasSettled

  /** A published claim that is not settled becomes indeterminate; a missing one stays missing. */
  function Repair(t: Tables, id: Id): Effect<Repaired> {
    if id !in t.claims then Commit(t, Missing)
    else if Settled(t.claims[id].outcome) then Commit(t, WasSettled)
    else Commit(SetDone(SetOutcome(t, id, Uncertain).(states := t.states - {id}), id), MadeIndeterminate)
  }

  function Tombstone(t: Tables, i: Identity): Tables {
    if i.id in t.claims then t
    else t.(claims := t.claims[i.id := Claim(i.operation, i.thread, i.message, Uncertain)])
  }

  function Ensure(t: Tables, i: Identity): Effect<Repaired> { Repair(Tombstone(t, i), i.id) }

  datatype Released = Released | Claimed | Unchanged

  function PauseMissing(t: Tables, id: Id): Effect<Released> {
    if id in t.claims then Commit(t, Claimed)
    else if Reserved(t, id, Running) then Commit(SetMode(t, id, Paused), Released)
    else Commit(t, Unchanged)
  }

  /** A reservation that no claim has followed goes back to pending or paused. */
  function Restore(t: Tables, id: Id, mode: Mode): Effect<()> {
    if Reserved(t, id, Running) then Commit(SetMode(t, id, mode), ()) else Commit(t, ())
  }

  predicate Unresolved(t: Tables, thread: string) {
    exists id :: id in t.claims && id in t.items && t.claims[id].thread == thread && !Settled(t.claims[id].outcome)
  }

  predicate Unconsumed(t: Tables, thread: string, id: Id) {
    && id in t.items && t.items[id].thread == thread
    && id !in t.claims && t.items[id].done && id in t.states && t.states[id].Actionable?
  }

  ghost predicate IsEarliest(t: Tables, thread: string, id: Id) {
    Unconsumed(t, thread, id) && forall j :: Unconsumed(t, thread, j) && j != id ==> Before(t.items, id, j)
  }

  ghost function Earliest(t: Tables, thread: string): Option<Id> {
    if exists id :: IsEarliest(t, thread, id) then var id :| IsEarliest(t, thread, id); Some(id) else None
  }

  ghost function ClaimNext(t: Tables, thread: string): Effect<Option<Id>> {
    var first := Earliest(t, thread);
    if Unresolved(t, thread) || first.None? || t.states[first.value] != Actionable(Pending) then Commit(t, None)
    else Commit(SetMode(t, first.value, Running), first)
  }

  ghost function ClaimForSteer(t: Tables, id: Id): Effect<Option<Mode>> {
    if !Reserved(t, id, Pending) && !Reserved(t, id, Paused) then Commit(t, None)
    else if Unresolved(t, t.items[id].thread) || Earliest(t, t.items[id].thread) != Some(id) then Commit(t, None)
    else Commit(SetMode(t, id, Running), Some(t.states[id].mode))
  }

  function PausePending(t: Tables, thread: string): Effect<()> {
    Commit(t.(states := map id | id in t.states ::
                          if Reserved(t, id, Pending) && t.items[id].thread == thread then Actionable(Paused) else t.states[id]), ())
  }

  /** On startup: what was being delivered is uncertain, what was reserved is paused. */
  function PauseInterrupted(t: Tables): Effect<()> {
    Commit(Tables(
      map id | id in t.items :: if id in t.claims then t.items[id].(done := true) else t.items[id],
      map id | id in t.states && id !in t.claims ::
        if Reserved(t, id, Running) then Actionable(Paused) else t.states[id],
      map id | id in t.claims ::
        if Settled(t.claims[id].outcome) then t.claims[id] else t.claims[id].(outcome := Uncertain)), ())
  }

  /** The rows an old Agent may have acted on. */
  function Touched(t: Tables): set<Id> { set id | id in t.items && !t.items[id].done }

  function LegacyClaim(id: Id, row: Row): Claim {
    Claim(Other, if row.thread != "" then row.thread else "legacy:" + id, MessageOf(id, row), Uncertain)
  }

  /** An unsettled claim is made uncertain, a missing one is made up. */
  function QuarantinedClaim(claims: map<Id, Claim>, id: Id, row: Row): Claim {
    if id !in claims then LegacyClaim(id, row)
    else if Settled(claims[id].outcome) then claims[id]
    else claims[id].(outcome := Uncertain)
  }

  /** One touched row is quarantined: no state, a claim that is not open, done. */
  function Quarantine(t: Tables, id: Id): Tables
    requires id in t.items
  {
    Tables(t.items[id := t.items[id].(done := true)], t.states - {id},
           t.claims[id := QuarantinedClaim(t.claims, id, t.items[id])])
  }

  /** The tables with the given rows quarantined. */
  function Quarantined(t: Tables, ids: set<Id>): Tables
    requires ids <= t.items.Keys
  {
    Tables(
      map id | id in t.items :: if id in ids then t.items[id].(done := true) else t.items[id],
      map id | id in t.states && id !in ids :: t.states[id],
      map id | id in t.claims.Keys + ids ::
        if id in ids then QuarantinedClaim(t.claims, id, t.items[id]) else t.claims[id])
  }

  /** The queue part of the migration. */
  function Migrate(t: Tables): Tables { Quarantined(t, Touched(t)) }

  /** Quarantining row by row. */
  lemma QuarantineOneMore(t: Tables, ids: set<Id>, id: Id)
    requires ids <= t.items.Keys && id in t.items && id !in ids
    ensures Quarantine(Quarantined(t, ids), id) == Quarantined(t, ids + {id})
  {
    var s, v := Quarantined(t, ids), Quarantined(t, ids + {id});
    assert s.items[id := s.items[id].(done := true)] == v.items;
    assert s.states - {id} == v.states;
    assert QuarantinedClaim(s.claims, id, s.items[id]) == QuarantinedClaim(t.claims, id, t.items[id]);
    var claims := s.claims[id := QuarantinedClaim(s.claims, id, s.items[id])];
    assert claims.Keys == v.claims.Keys;
    forall k | k in v.claims ensures claims[k] == v.claims[k] {}
    assert claims == v.claims;
  }

  // ----- the earliest item is well defined

  lemma BeforeIsOrder(items: map<Id, Row>, i: Id, j: Id)
    requires i in items && j in items
    ensures i == j || Before(items, i, j) || Before(items, j, i)
    ensures !(Before(items, i, j) && Before(items, j, i)) && !Before(items, i, i)
  {
    LessIsTotal(i, j);
  }

  lemma BeforeIsTransitive(items: map<Id, Row>, i: Id, j: Id, k: Id)
    requires i in items && j in items && k in items && Before(items, i, j) && Before(items, j, k)
    ensures Before(items, i, k)
  {
    if items[i].createdAt == items[k].createdAt { LessTransitive(i, j, k); }
  }

  ghost predicate IsFirst(items: map<Id, Row>, s: set<Id>, id: Id)
    requires s <= items.Keys
  {
    id in s && forall j :: j in s && j != id ==> Before(items, id, j)
  }

  /** Any set of rows has a first one. */
  lemma {:induction false} FirstExists(items: map<Id, Row>, s: set<Id>)
    requires s <= items.Keys && s != {}
    ensures exists id :: IsFirst(items, s, id)
    decreases |s|
  {
    var x :| x in s;
    var rest := s - {x};
    if rest == {} {
      assert s == rest + {x};
      assert IsFirst(items, s, x);
    } else {
      FirstExists(items, rest);
      var y :| IsFirst(items, rest, y);
      BeforeIsOrder(items, x, y);
      if Before(items, y, x) {
        assert IsFirst(items, s, y);
      } else {
        forall j | j in rest && j != y ensures Before(items, x, j) { BeforeIsTransitive(items, x, y, j); }
        assert IsFirst(items, s, x);
      }
    }
  }

  /** `Earliest` is the one unconsumed item of the thread that precedes all the others, and
      nothing only when there is none. */
  lemma EarliestIsFirst(t: Tables, thread: string, id: Id)
    ensures Earliest(t, thread) == Some(id) <==> IsEarliest(t, thread, id)
    ensures Unconsumed(t, thread, id) ==> Earliest(t, thread).Some?
  {
    if IsEarliest(t, thread, id) {
      var x := Earliest(t, thread).value;
      if x != id { BeforeIsOrder(t.items, x, id); }
    }
    if Unconsumed(t, thread, id) {
      var s := set j | j in t.items && Unconsumed(t, thread, j);
      assert id in s;
      FirstExists(t.items, s);
      var x :| IsFirst(t.items, s, x);
      assert IsEarliest(t, thread, x);
    }
  }

  /** An item added to a thread with nothing waiting or unresolved is delivered by reserving,
      beginning and completing it, and its claim is completed for good. */
  lemma QueuedIsDelivered(t: Tables, id: Id, row: Row, turn: string)
    requires id != "" && id !in t.items && id !in t.states && id !in t.claims && turn != ""
    requires !Unresolved(t, row.thread) && forall j :: !Unconsumed(t, row.thread, j)
    ensures var added := After(t, Add(t, id, row));
            var reserved := ClaimNext(added, row.thread);
            var begun := Begin(reserved.tables, id, row, Start);
            && reserved.result == Some(id) && begun.Commit?
            && var done := Complete(begun.tables, begun.result, turn);
            && done.Commit? && StatusOf(done.tables, id) == Done
            && done.tables.claims == t.claims[id := Claim(Start, row.thread, MessageOf(id, row), Completed)]
            && done.tables.states == t.states
  {
    var added := After(t, Add(t, id, row));
    assert IsEarliest(added, row.thread, id) by {
      forall j | Unconsumed(added, row.thread, j) && j != id ensures false { assert Unconsumed(t, row.thread, j); }
    }
    EarliestIsFirst(added, row.thread, id);
    assert !Unresolved(added, row.thread) by {
      assert forall k :: k in added.claims && k in added.items ==> k in t.items;
    }
    var reserved := ClaimNext(added, row.thread).tables;
    assert reserved == SetMode(added, id, Running);
    assert reserved.states - {id} == t.states;
  }

  // ----- the filter of `list` and the shown status

  /** `list` selects exactly the items that are not shown as done. */
  lemma ListedExactlyWhenNotDone(t: Tables, id: Id)
    requires id in t.items && id != ""
    ensures Listed(t, id) <==> StatusOf(t, id) != Done
  {
  }

  /** The empty id is the exception: its claim counts for the query and not for the status. */
  lemma EmptyIdListed(t: Tables)
    requires "" in t.items
    ensures (Listed(t, "") <==> StatusOf(t, "") != Done) <==>
            ("" in t.claims ==>
               (!Settled(t.claims[""].outcome) <==> t.items[""].done && "" in t.states && t.states[""].Actionable?))
  {
  }

  // ----- startup

  /** After startup nothing runs or is being delivered: what was claimed and not settled is
      uncertain, what was reserved is paused, and nothing else has changed. */
  lemma StartupPausesEverything(t: Tables, id: Id)
    requires id in t.items && id != ""
    ensures var u := PauseInterrupted(t).tables;
            && u.items.Keys == t.items.Keys && u.claims.Keys == t.claims.Keys
            && u.items[id] == (if id in t.claims then t.items[id].(done := true) else t.items[id])
            && (id in u.states <==> id in t.states && id !in t.claims)
            && StatusOf(u, id) != Active(Running) && StatusOf(u, id) != Delivering
            && (StatusOf(t, id) == Delivering ==> StatusOf(u, id) == Indeterminate)
            && (StatusOf(t, id) == Active(Running) ==> StatusOf(u, id) == Active(Paused))
            && (StatusOf(t, id) != Delivering && StatusOf(t, id) != Active(Running) ==> StatusOf(u, id) == StatusOf(t, id))
  {
  }

  // ----- migration

  /** Every row is done, and no item has both a state row and a claim. */
  ghost predicate Tidy(t: Tables) {
    && (forall id :: id in t.items ==> t.items[id].done)
    && t.states.Keys !! t.claims.Keys
  }

  /** After any run of an old Agent, which changes physical rows only, migration tidies the
      tables: every row it may have acted on is quarantined, the rest is left as it was. */
  lemma MigrationTidies(t: Tables, items: map<Id, Row>)
    requires t.states.Keys !! t.claims.Keys
    ensures var old_run := t.(items := items);
            var u := Migrate(old_run);
            && Tidy(u) && u.items.Keys == items.Keys
            && (forall id :: id in Touched(old_run) ==> id !in u.states && id in u.claims && u.claims[id].outcome != Open)
            && (forall id :: id in items && items[id].done ==> u.items[id] == items[id])
            && (forall id :: id !in Touched(old_run) ==>
                  && (id in u.states <==> id in t.states) && (id in t.states ==> u.states[id] == t.states[id])
                  && (id in u.claims <==> id in t.claims) && (id in t.claims ==> u.claims[id] == t.claims[id]))
  {
  }

  /** Settled claims stay as they are. */
  lemma MigrationKeepsSettled(t: Tables, id: Id)
    requires id in t.claims
    ensures id in Migrate(t).claims
    ensures Settled(t.claims[id].outcome) ==> Migrate(t).claims[id] == t.claims[id]
  {
  }

  lemma TidyIsMigrated(t: Tables)
    requires forall id :: id in t.items ==> t.items[id].done
    ensures Migrate(t) == t
  {
  }

  lemma MigrationIsIdempotent(t: Tables)
    ensures Migrate(Migrate(t)) == Migrate(t)
  {
    TidyIsMigrated(Migrate(t));
  }
}
