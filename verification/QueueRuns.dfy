/**
 What the queue keeps over every run: restarts, callers that act on old readings, and
 transactions that fail before publishing or report a failure after publishing.
 */
module QueueRuns {
  import opened Text
  import opened Queue

  datatype Op =
    | OpAdd(id: Id, row: Row)
    | OpRemove(id: Id, acknowledge: bool)
    | OpBegin(id: Id, seen: Row, operation: Operation)
    | OpComplete(identity: Identity, turn: string)
    | OpRepair(id: Id)
    | OpEnsure(identity: Identity)
    | OpPauseMissing(id: Id)
    | OpClaimNext(thread: string)
    | OpClaimForSteer(id: Id)
    | OpRestore(id: Id, mode: Mode)
    | OpPausePending(thread: string)
    | OpPauseInterrupted

  /** Whether the transaction was published, and whether the caller was told so. */
  datatype Fate = Unpublished | Unacknowledged | Acknowledged

  datatype Event =
    | Transact(op: Op, fate: Fate)
    | OldAgent(items: map<Id, Row>)      // an old Agent left these rows, and the next start migrated

  /** `begun` lists the items whose consumption was begun; no decision reads it. */
  datatype State = State(tables: Tables, begun: seq<Id>)

  /** The id of a new item is a fresh random one, also an old Agent's; a caller gives back pending or paused, and
      consumes by starting a turn or steering one. */
  predicate Allowed(t: Tables, op: Op) {
    match op
    case OpAdd(id, _) => id != "" && id !in t.claims
    case OpBegin(_, _, operation) => operation != Other
    case OpEnsure(i) => i.operation != Other
    case OpRestore(_, mode) => mode != Running
    case _ => true
  }

  ghost function Perform(t: Tables, op: Op): Tables {
    match op
    case OpAdd(id, row) => After(t, Add(t, id, row))
    case OpRemove(id, acknowledge) => After(t, Remove(t, id, acknowledge))
    case OpBegin(id, seen, operation) => After(t, Begin(t, id, seen, operation))
    case OpComplete(i, turn) => After(t, Complete(t, i, turn))
    case OpRepair(id) => After(t, Repair(t, id))
    case OpEnsure(i) => After(t, Ensure(t, i))
    case OpPauseMissing(id) => After(t, PauseMissing(t, id))
    case OpClaimNext(thread) => After(t, ClaimNext(t, thread))
    case OpClaimForSteer(id) => After(t, ClaimForSteer(t, id))
    case OpRestore(id, mode) => After(t, Restore(t, id, mode))
    case OpPausePending(thread) => After(t, PausePending(t, thread))
    case OpPauseInterrupted => After(t, PauseInterrupted(t))
  }

  predicate Begins(t: Tables, op: Op) {
    op.OpBegin? && Begin(t, op.id, op.seen, op.operation).Commit?
  }

  ghost function Step(s: State, e: Event): State {
    match e
    case Transact(op, fate) =>
      if fate == Unpublished || !Allowed(s.tables, op) then s
      else State(Perform(s.tables, op), if Begins(s.tables, op) then s.begun + [op.id] else s.begun)
    case OldAgent(items) => if "" in items then s else s.(tables := Migrate(s.tables.(items := items)))
  }

  ghost function Run(s: State, es: seq<Event>): State
    decreases |es|
  {
    if es == [] then s else Run(Step(s, es[0]), es[1..])
  }

  function Init(): State { State(Tables(map[], map[], map[]), []) }

  // ----- claims

  /** How one transaction may move an outcome. */
  predicate Moves(a: Outcome, b: Outcome) {
    a == b || (a == Open && (b == Completed || b == Uncertain)) || (a == Uncertain && b == Abandoned)
  }

  ghost predicate ClaimsMove(t: Tables, u: Tables) {
    forall id :: id in t.claims ==>
      id in u.claims && u.claims[id] == t.claims[id].(outcome := u.claims[id].outcome) &&
      Moves(t.claims[id].outcome, u.claims[id].outcome)
  }

  /** Outcomes are known, and what is open is being delivered. */
  ghost predicate Sane(t: Tables) {
    forall id :: id in t.claims ==> t.claims[id].outcome != Odd && (t.claims[id].outcome == Open ==> t.claims[id].operation != Other)
  }

  ghost predicate Logged(s: State) {
    && (forall i :: 0 <= i < |s.begun| ==> s.begun[i] in s.tables.claims)
    && (forall i, j :: 0 <= i < j < |s.begun| ==> s.begun[i] != s.begun[j])
  }

  ghost predicate Inv(s: State) {
    Tidy(s.tables) && Sane(s.tables) && Logged(s) && "" !in s.tables.items
  }

  /** Everything that a published operation keeps, whatever the order of operations. */
  ghost predicate Kept(t: Tables, u: Tables) {
    ClaimsMove(t, u) && Sane(u) && Tidy(u)
  }

  /** No operation but an addition makes rows. */
  lemma OnlyAddsMakeRows(t: Tables, op: Op)
    ensures Perform(t, op).items.Keys <= t.items.Keys + if op.OpAdd? then {op.id} else {}
  {
    if OnlyModes(op) { OnlyModesRemode(t, op); }
  }

  /** The operation changes nothing but the modes of state rows. */
  ghost predicate Remodes(t: Tables, u: Tables) {
    u.items == t.items && u.claims == t.claims && u.states.Keys == t.states.Keys
  }

  predicate OnlyModes(op: Op) {
    op.OpPauseMissing? || op.OpClaimNext? || op.OpClaimForSteer? || op.OpRestore? || op.OpPausePending?
  }

  lemma OnlyModesRemode(t: Tables, op: Op)
    requires OnlyModes(op)
    ensures Remodes(t, Perform(t, op))
  {
  }

  lemma EarliestIsUnconsumed(t: Tables, thread: string)
    ensures Earliest(t, thread).Some? ==> IsEarliest(t, thread, Earliest(t, thread).value)
  {
  }

  lemma AddKeeps(t: Tables, id: Id, row: Row)
    requires Sane(t) && Tidy(t) && id !in t.claims
    ensures Kept(t, After(t, Add(t, id, row)))
  {
  }

  lemma RemoveKeeps(t: Tables, id: Id, acknowledge: bool)
    requires Sane(t) && Tidy(t)
    ensures Kept(t, After(t, Remove(t, id, acknowledge)))
  {
  }

  lemma BeginKeeps(t: Tables, id: Id, seen: Row, operation: Operation)
    requires Sane(t) && Tidy(t) && operation != Other
    ensures Kept(t, After(t, Begin(t, id, seen, operation)))
  {
  }

  lemma CompleteKeeps(t: Tables, i: Identity, turn: string)
    requires Sane(t) && Tidy(t)
    ensures Kept(t, After(t, Complete(t, i, turn)))
  {
  }

  lemma AlreadyDone(t: Tables, id: Id)
    requires Tidy(t)
    ensures SetDone(t, id) == t
  {
  }

  lemma OutcomeKeeps(t: Tables, id: Id, o: Outcome)
    requires Sane(t) && Tidy(t) && id in t.claims && Moves(t.claims[id].outcome, o) && o != Odd
    ensures Kept(t, SetOutcome(t, id, o))
  {
  }

  lemma RepairKeeps(t: Tables, id: Id)
    requires Sane(t) && Tidy(t)
    ensures Kept(t, After(t, Repair(t, id)))
  {
    if id in t.claims && !Settled(t.claims[id].outcome) {
      OutcomeKeeps(t, id, Uncertain);
      AlreadyDone(SetOutcome(t, id, Uncertain), id);
      assert t.states - {id} == t.states;
    }
  }

  /** A claim that was missing is not there to move. */
  lemma EnsureKeeps(t: Tables, i: Identity)
    requires Sane(t) && Tidy(t)
    ensures Kept(t, After(t, Ensure(t, i)))
  {
    if i.id in t.claims {
      RepairKeeps(t, i.id);
    } else {
      var u := Tombstone(t, i);
      assert u.claims[i.id := u.claims[i.id].(outcome := Uncertain)] == u.claims;
      AlreadyDone(u.(states := t.states - {i.id}), i.id);
    }
  }

  lemma PauseInterruptedKeeps(t: Tables)
    requires Sane(t) && Tidy(t)
    ensures Kept(t, After(t, PauseInterrupted(t)))
  {
  }

  lemma PerformKeeps(t: Tables, op: Op)
    requires Sane(t) && Tidy(t) && Allowed(t, op)
    ensures Kept(t, Perform(t, op))
  {
    if OnlyModes(op) {
      OnlyModesRemode(t, op);
    } else {
      match op
      case OpAdd(id, row) => AddKeeps(t, id, row);
      case OpRemove(id, acknowledge) => RemoveKeeps(t, id, acknowledge);
      case OpBegin(id, seen, operation) => BeginKeeps(t, id, seen, operation);
      case OpComplete(i, turn) => CompleteKeeps(t, i, turn);
      case OpRepair(id) => RepairKeeps(t, id);
      case OpEnsure(i) => EnsureKeeps(t, i);
      case OpPauseInterrupted => PauseInterruptedKeeps(t);
    }
  }

  lemma MigrationKeeps(t: Tables, items: map<Id, Row>)
    requires Sane(t) && Tidy(t)
    ensures Kept(t, Migrate(t.(items := items)))
  {
    MigrationTidies(t, items);
  }

  lemma StepKeeps(s: State, e: Event)
    requires Inv(s)
    ensures Inv(Step(s, e)) && ClaimsMove(s.tables, Step(s, e).tables)
  {
    match e
    case Transact(op, fate) =>
      if fate != Unpublished && Allowed(s.tables, op) {
        PerformKeeps(s.tables, op);
        OnlyAddsMakeRows(s.tables, op);
        if Begins(s.tables, op) {
          assert op.id !in s.tables.claims && op.id in Perform(s.tables, op).claims;
        }
      }
    case OldAgent(items) => MigrationKeeps(s.tables, items);
  }

  /** Where an outcome can end up over any number of steps. */
  predicate Leads(a: Outcome, b: Outcome) {
    a == b || a == Open || (a == Uncertain && b == Abandoned)
  }

  ghost predicate ClaimsLead(t: Tables, u: Tables) {
    forall id :: id in t.claims ==>
      id in u.claims && u.claims[id] == t.claims[id].(outcome := u.claims[id].outcome) &&
      Leads(t.claims[id].outcome, u.claims[id].outcome)
  }

  lemma {:induction false} RunKeeps(s: State, es: seq<Event>)
    requires Inv(s)
    ensures Inv(Run(s, es)) && ClaimsLead(s.tables, Run(s, es).tables)
    decreases |es|
  {
    if es != [] {
      StepKeeps(s, es[0]);
      RunKeeps(Step(s, es[0]), es[1..]);
    }
  }

  /** In every reachable state every physical row is done and no item has both a state row
      and a claim. */
  lemma AlwaysTidy(es: seq<Event>)
    ensures Tidy(Run(Init(), es).tables)
  {
    RunKeeps(Init(), es);
  }

  /** Consumption of an item begins at most once. */
  lemma BegunAtMostOnce(es: seq<Event>)
    ensures var b := Run(Init(), es).begun; forall i, j :: 0 <= i < j < |b| ==> b[i] != b[j]
  {
    RunKeeps(Init(), es);
  }

  /** From any reachable state on: claims are never deleted or rewritten, a completed or
      abandoned one is final, and an uncertain one can only be abandoned. */
  lemma OutcomesOnlyAdvance(before: seq<Event>, es: seq<Event>)
    ensures var s := Run(Init(), before); ClaimsLead(s.tables, Run(s, es).tables)
  {
    RunKeeps(Init(), before);
    RunKeeps(Run(Init(), before), es);
  }

  /** In every reachable state the query of `list` selects exactly the items whose shown
      status is not done. */
  lemma ListShowsWhatIsNotDone(es: seq<Event>, id: Id)
    ensures var t := Run(Init(), es).tables;
            id in t.items ==> (Listed(t, id) <==> StatusOf(t, id) != Done)
  {
    RunKeeps(Init(), es);
    var t := Run(Init(), es).tables;
    if id in t.items { ListedExactlyWhenNotDone(t, id); }
  }
}
